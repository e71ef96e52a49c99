/**
 The roster and block list repositories
 (crates/prose-core-client/src/infra/contacts/caching_contacts_repository.rs,
 caching_block_list_repository.rs). What their methods do to the cached list is stated
 as what `Replication` says about pushes.
 */
module ContactCaches {
  import opened Basics
  import opened Replication

  type UserId = string
  datatype Subscription = Requested | Mutual | TheyFollow | WeFollow
  datatype Contact = Contact(id: UserId, name: Option<string>, subscription: Subscription)

  ghost predicate DistinctIds(cs: seq<Contact>) {
    forall i, j :: 0 <= i < j < |cs| ==> cs[i].id != cs[j].id
  }

  ghost predicate Lists(cs: seq<Contact>, id: UserId) { exists i :: 0 <= i < |cs| && cs[i].id == id }

  /** The contact list as a map from ids to subscriptions. */
  ghost function Subscriptions(cs: seq<Contact>): map<UserId, Subscription> {
    if cs == [] then map[] else Subscriptions(cs[..|cs| - 1])[cs[|cs| - 1].id := cs[|cs| - 1].subscription]
  }

  lemma {:induction false} SubscriptionsAre(cs: seq<Contact>)
    requires DistinctIds(cs)
    ensures forall i :: 0 <= i < |cs| ==>
              cs[i].id in Subscriptions(cs) && Subscriptions(cs)[cs[i].id] == cs[i].subscription
    ensures forall id :: id in Subscriptions(cs) ==> Lists(cs, id)
  {
    if cs != [] {
      var front := cs[..|cs| - 1];
      SubscriptionsAre(front);
      assert forall i :: 0 <= i < |front| ==> cs[i] == front[i];
      forall id | id in Subscriptions(cs) ensures Lists(cs, id) {
        if id == cs[|cs| - 1].id {
          assert cs[|cs| - 1].id == id;
        } else {
          assert id in Subscriptions(front) && Lists(front, id);
          var i :| 0 <= i < |front| && front[i].id == id;
          assert cs[i].id == id;
        }
      }
    }
  }

  /** The contact's subscription replaced, or the contact appended; all else is as it was, where it was. */
  ghost predicate IsSet(cs: seq<Contact>, out: seq<Contact>, added: Contact) {
    if Lists(cs, added.id) then
      && |out| == |cs|
      && forall i :: 0 <= i < |cs| ==>
        out[i] == if cs[i].id == added.id then Contact(cs[i].id, cs[i].name, added.subscription) else cs[i]
    else out == cs + [added]
  }

  /** The contact gone and the last one in its place; all else is as it was, where it was. */
  ghost predicate IsDeleted(cs: seq<Contact>, out: seq<Contact>, id: UserId) {
    && |out| == |cs| - (if Lists(cs, id) then 1 else 0)
    && (forall i :: 0 <= i < |out| ==> out[i] == if cs[i].id == id then cs[|out|] else cs[i])
    && forall c :: c in out <==> c in cs && c.id != id
  }

  /** Lists with the same entries are the same map. */
  lemma SubscriptionsFromEntries(cs: seq<Contact>, m: map<UserId, Subscription>)
    requires DistinctIds(cs)
    requires forall i :: 0 <= i < |cs| ==> cs[i].id in m && m[cs[i].id] == cs[i].subscription
    requires forall id :: id in m ==> Lists(cs, id)
    ensures Subscriptions(cs) == m
  {
    SubscriptionsAre(cs);
    forall id ensures id in m <==> id in Subscriptions(cs) { }
  }

  class CachingContactsRepository {
    var contacts: Option<seq<Contact>>

    ghost predicate Valid() reads this { contacts.Some? ==> DistinctIds(contacts.value) }

    ghost function View(): Option<map<UserId, Subscription>> reads this {
      if contacts.Some? then Some(Subscriptions(contacts.value)) else None
    }

    constructor ()
      ensures Valid() && View() == None
    {
      contacts := None;
    }

    /** `answer` is what the service replies if it has to be asked; a roster lists each contact once. */
    method LoadIfNeeded(answer: Result<seq<Contact>, string>) returns (r: Result<(), string>)
      requires Valid() && (answer.Ok? ==> DistinctIds(answer.value))
      modifies this
      ensures Valid()
      ensures old(contacts).Some? ==> r.Ok? && contacts == old(contacts)
      ensures old(contacts).None? && answer.Ok? ==> r.Ok? && contacts == Some(answer.value)
      ensures old(contacts).None? && answer.Err? ==> r == Err(answer.error) && contacts == None
    {
      if contacts.Some? {
        return Ok(());
      }
      if answer.Err? {
        return Err(answer.error);
      }
      contacts := Some(answer.value);
      return Ok(());
    }

    method GetAll(answer: Result<seq<Contact>, string>) returns (r: Result<seq<Contact>, string>)
      requires Valid() && (answer.Ok? ==> DistinctIds(answer.value))
      modifies this
      ensures Valid()
      ensures r.Err? <==> old(contacts).None? && answer.Err?
      ensures r.Ok? ==> contacts == Some(r.value)
      ensures r.Ok? ==> contacts == (if old(contacts).Some? then old(contacts) else Some(answer.value))
      ensures r.Err? ==> contacts == None
    {
      var loaded := LoadIfNeeded(answer);
      if loaded.Err? {
        return Err(loaded.error);
      }
      return Ok(contacts.value);
    }

    /** Changes a contact or adds it under the given name; the flag tells whether the cached map changed. */
    method Set(answer: Result<seq<Contact>, string>, id: UserId, name: string, subscription: Subscription)
        returns (r: Result<bool, string>)
      requires Valid() && (answer.Ok? ==> DistinctIds(answer.value))
      modifies this
      ensures Valid()
      ensures answer.Ok? || old(contacts).Some? ==>
                var base := if old(contacts).Some? then old(View()).value else Subscriptions(answer.value);
                View() == Some(Apply(base, Put(id, subscription))) && r == Ok(View().value != base)
      ensures answer.Ok? || old(contacts).Some? ==>
                var list := if old(contacts).Some? then old(contacts).value else answer.value;
                contacts.Some? && IsSet(list, contacts.value, Contact(id, Some(name), subscription))
      ensures answer.Err? && old(contacts).None? ==> r == Err(answer.error) && contacts == None
    {
      var loaded := LoadIfNeeded(answer);
      if loaded.Err? {
        return Err(loaded.error);
      }
      var cs, changed := SetIn(contacts.value, Contact(id, Some(name), subscription));
      contacts := Some(cs);
      return Ok(changed);
    }

    /** Removes a contact, moving the last one into its place. */
    method Delete(answer: Result<seq<Contact>, string>, id: UserId) returns (r: Result<bool, string>)
      requires Valid() && (answer.Ok? ==> DistinctIds(answer.value))
      modifies this
      ensures Valid()
      ensures answer.Ok? || old(contacts).Some? ==>
                var base := if old(contacts).Some? then old(View()).value else Subscriptions(answer.value);
                View() == Some(Apply(base, Drop(id))) && r == Ok(View().value != base)
      ensures answer.Ok? || old(contacts).Some? ==>
                var list := if old(contacts).Some? then old(contacts).value else answer.value;
                contacts.Some? && IsDeleted(list, contacts.value, id)
      ensures answer.Err? && old(contacts).None? ==> r == Err(answer.error) && contacts == None
    {
      var loaded := LoadIfNeeded(answer);
      if loaded.Err? {
        return Err(loaded.error);
      }
      var cs, changed := DeleteFrom(contacts.value, id);
      contacts := Some(cs);
      return Ok(changed);
    }

    method ClearCache()
      modifies this
      ensures Valid() && View() == None
    {
      contacts := None;
    }
  }

  method Find(cs: seq<Contact>, id: UserId) returns (i: nat)
    ensures i <= |cs| && (i < |cs| ==> cs[i].id == id)
    ensures forall j :: 0 <= j < i ==> cs[j].id != id
  {
    i := 0;
    while i < |cs| && cs[i].id != id
      invariant i <= |cs| && forall j :: 0 <= j < i ==> cs[j].id != id
    {
      i := i + 1;
    }
  }

  /** Edits the contact in place, or appends it. */
  method SetIn(cs: seq<Contact>, added: Contact) returns (out: seq<Contact>, changed: bool)
    requires DistinctIds(cs)
    ensures DistinctIds(out) && Subscriptions(out) == Subscriptions(cs)[added.id := added.subscription]
    ensures changed <==> Subscriptions(out) != Subscriptions(cs)
    ensures IsSet(cs, out, added)
  {
    SubscriptionsAre(cs);
    var i := Find(cs, added.id);
    if i < |cs| {
      if cs[i].subscription == added.subscription {
        assert Subscriptions(cs)[added.id := added.subscription] == Subscriptions(cs);
        return cs, false;
      }
      EditChanges(cs, i, added.subscription);
      return cs[i := cs[i].(subscription := added.subscription)], true;
    }
    assert (cs + [added])[..|cs|] == cs;
    assert added.id !in Subscriptions(cs);
    return cs + [added], true;
  }

  method DeleteFrom(cs: seq<Contact>, id: UserId) returns (out: seq<Contact>, changed: bool)
    requires DistinctIds(cs)
    ensures DistinctIds(out) && Subscriptions(out) == Subscriptions(cs) - {id}
    ensures changed <==> Subscriptions(out) != Subscriptions(cs)
    ensures IsDeleted(cs, out, id)
  {
    SubscriptionsAre(cs);
    var i := Find(cs, id);
    if i == |cs| {
      assert Subscriptions(cs) - {id} == Subscriptions(cs);
      return cs, false;
    }
    SwapRemoveDrops(cs, i);
    SwapRemoveIsDeleted(cs, i);
    assert id in Subscriptions(cs);
    return SwapRemove(cs, i), true;
  }

  function SwapRemove<T>(cs: seq<T>, i: nat): seq<T>
    requires i < |cs|
  {
    cs[i := cs[|cs| - 1]][..|cs| - 1]
  }

  lemma EditChanges(cs: seq<Contact>, i: nat, subscription: Subscription)
    requires i < |cs| && DistinctIds(cs)
    ensures var out := cs[i := cs[i].(subscription := subscription)];
            DistinctIds(out) && Subscriptions(out) == Subscriptions(cs)[cs[i].id := subscription]
  {
    var out, m := cs[i := cs[i].(subscription := subscription)], Subscriptions(cs)[cs[i].id := subscription];
    SubscriptionsAre(cs);
    forall id | id in m ensures Lists(out, id) {
      assert Lists(cs, id) by { assert cs[i].id == cs[i].id; }
      var k :| 0 <= k < |cs| && cs[k].id == id;
      assert out[k].id == id;
    }
    SubscriptionsFromEntries(out, m);
  }

  lemma SwapRemoveAt(cs: seq<Contact>, i: nat)
    requires i < |cs| && DistinctIds(cs)
    ensures var out, n := SwapRemove(cs, i), |cs| - 1;
            && |out| == n && (forall j :: 0 <= j < n ==> out[j] == if j == i then cs[n] else cs[j])
            && DistinctIds(out)
  {
  }

  lemma SwapRemoveDrops(cs: seq<Contact>, i: nat)
    requires i < |cs| && DistinctIds(cs)
    ensures DistinctIds(SwapRemove(cs, i)) && Subscriptions(SwapRemove(cs, i)) == Subscriptions(cs) - {cs[i].id}
  {
    SwapRemoveAt(cs, i);
    MovedListDrops(cs, SwapRemove(cs, i), i);
  }

  lemma SwapRemoveIsDeleted(cs: seq<Contact>, i: nat)
    requires i < |cs| && DistinctIds(cs)
    ensures IsDeleted(cs, SwapRemove(cs, i), cs[i].id)
  {
    var out, n := SwapRemove(cs, i), |cs| - 1;
    SwapRemoveAt(cs, i);
    assert Lists(cs, cs[i].id);
    forall c | c in cs && c.id != cs[i].id ensures c in out {
      var k :| 0 <= k < |cs| && cs[k] == c;
      assert out[if k == n then i else k] == c;
    }
  }

  lemma MovedListDrops(cs: seq<Contact>, out: seq<Contact>, i: nat)
    requires i < |cs| && DistinctIds(cs) && DistinctIds(out)
    requires |out| == |cs| - 1 && forall j :: 0 <= j < |out| ==> out[j] == if j == i then cs[|cs| - 1] else cs[j]
    ensures Subscriptions(out) == Subscriptions(cs) - {cs[i].id}
  {
    var m, n := Subscriptions(cs) - {cs[i].id}, |cs| - 1;
    SubscriptionsAre(cs);
    forall id | id in m ensures Lists(out, id) {
      var k :| 0 <= k < |cs| && cs[k].id == id;
      assert out[if k == n then i else k].id == id;
    }
    SubscriptionsFromEntries(out, m);
  }

  class CachingBlockListRepository {
    var blocked: Option<set<UserId>>

    ghost function View(): Option<map<UserId, ()>> reads this {
      if blocked.Some? then Some(map u | u in blocked.value :: ()) else None
    }

    constructor ()
      ensures View() == None
    {
      blocked := None;
    }

    method LoadIfNeeded(answer: Result<set<UserId>, string>) returns (r: Result<(), string>)
      modifies this
      ensures old(blocked).Some? ==> r.Ok? && blocked == old(blocked)
      ensures old(blocked).None? && answer.Ok? ==> r.Ok? && blocked == Some(answer.value)
      ensures old(blocked).None? && answer.Err? ==> r == Err(answer.error) && blocked == None
    {
      if blocked.Some? {
        return Ok(());
      }
      if answer.Err? {
        return Err(answer.error);
      }
      blocked := Some(answer.value);
      return Ok(());
    }

    method Contains(answer: Result<set<UserId>, string>, user: UserId) returns (r: Result<bool, string>)
      modifies this
      ensures r.Err? <==> old(blocked).None? && answer.Err?
      ensures r.Ok? ==> blocked.Some? && (r.value <==> user in blocked.value)
      ensures r.Ok? ==> blocked == (if old(blocked).Some? then old(blocked) else Some(answer.value))
      ensures r.Err? ==> blocked == None
    {
      var loaded := LoadIfNeeded(answer);
      if loaded.Err? {
        return Err(loaded.error);
      }
      return Ok(user in blocked.value);
    }

    method Insert(answer: Result<set<UserId>, string>, user: UserId) returns (r: Result<bool, string>)
      modifies this
      ensures var server := if answer.Ok? then map u | u in answer.value :: () else map[];
              View() == HandlePush(LoadForPut, server, old(View()), Put(user, ()), answer.Ok?)
      ensures r.Err? <==> old(blocked).None? && answer.Err?
      ensures r.Ok? ==> (r.value <==> user !in (if old(blocked).Some? then old(blocked).value else answer.value))
    {
      var loaded := LoadIfNeeded(answer);
      if loaded.Err? {
        return Err(loaded.error);
      }
      var added := user !in blocked.value;
      assert (map u | u in blocked.value + {user} :: ()) == (map u | u in blocked.value :: ())[user := ()];
      blocked := Some(blocked.value + {user});
      return Ok(added);
    }

    /** Does not load: an unloaded list becomes an empty one. */
    method Delete(user: UserId) returns (removed: bool)
      modifies this
      ensures forall server: map<UserId, ()> :: View() == HandlePush(LoadForPut, server, old(View()), Drop(user), true)
      ensures removed <==> old(blocked).Some? && user in old(blocked).value
    {
      if blocked.None? {
        blocked := Some({});
      }
      removed := user in blocked.value;
      assert (map u | u in blocked.value - {user} :: ()) == (map u | u in blocked.value :: ()) - {user};
      blocked := Some(blocked.value - {user});
    }

    method DeleteAll() returns (hadEntries: bool)
      modifies this
      ensures forall server: map<UserId, ()> :: View() == HandlePush(LoadForPut, server, old(View()), DropAll, true)
      ensures hadEntries <==> old(blocked).Some? && old(blocked).value != {}
    {
      if blocked.None? {
        return false;
      }
      hadEntries := blocked.value != {};
      blocked := Some({});
    }

    method ClearCache()
      modifies this
      ensures View() == None
    {
      blocked := None;
    }
  }

  // ---- Convergence of the two repositories ----

  /**
   The roster repository loads before every push. In every run its cache is on its way to the
   server's roster if and only if no late answer overwrites a push that was handled already.
   */
  lemma RosterConvergesExactly(server: map<UserId, Subscription>, steps: seq<Step<UserId, Subscription>>)
    ensures var start := Replica(server, None, [], []);
            AlwaysConverging(LoadForAll, start, steps) <==> NeverStale(LoadForAll, start, steps)
  {
    RunConvergesExactly(LoadForAll, server, steps);
    LoadForAllOnlyBreaksByStaleness(Replica(server, None, [], []), steps);
  }

  /** With atomic loads that is every run. */
  lemma RosterConverges(server: map<UserId, Subscription>, steps: seq<Step<UserId, Subscription>>)
    requires LoadsAtOnce(LoadForAll, Replica(server, None, [], []), steps)
    ensures AlwaysConverging(LoadForAll, Replica(server, None, [], []), steps)
  {
    AtomicLoadsAreNeverStale(LoadForAll, Replica(server, None, [], []), steps);
    RosterConvergesExactly(server, steps);
  }

  /**
   After adding a contact the client writes the subscription it expects into its cache.
   That survives only if it is what the server has, or a push for the contact is still to come.
   */
  lemma LocalWriteConvergesExactly(s: Replica<UserId, Subscription>, id: UserId, subscription: Subscription)
    requires Settled(s) && Converging(s) && s.cache.Some?
    ensures ApplyAll(Apply(s.cache.value, Put(id, subscription)), s.inflight) == s.server <==>
            Get(s.server, id) == Some(subscription) || Touched(s.inflight, id)
  {
    var copy := Apply(s.cache.value, Put(id, subscription));
    ConvergesExactlyIfCovered(s, s.cache.value);
    ConvergesExactlyIfCovered(s, copy);
    forall k | k != id ensures Agrees(copy, s.server, k) <==> Agrees(s.cache.value, s.server, k) { }
    assert Get(copy, id) == Some(subscription);
  }

  /** Nothing in this step concerns `user`, and the list is not loaded or cleared. */
  predicate LeavesAlone(step: Step<UserId, ()>, user: UserId) {
    && !step.Reset? && !step.Reconnect? && !step.Store? && !step.HandleWith?
    && (step.Change? ==> !Touches(step.push, user))
  }

  /** `user` is blocked on the server, missing in the loaded list, and no push about it is on its way. */
  ghost predicate LeftOut(s: Replica<UserId, ()>, user: UserId) {
    user in s.server && s.cache.Some? && user !in s.cache.value && !Touched(s.inflight, user)
  }

  lemma StaysLeftOut(s: Replica<UserId, ()>, step: Step<UserId, ()>, user: UserId)
    requires LeftOut(s, user) && LeavesAlone(step, user)
    ensures LeftOut(Next(LoadForPut, s, step), user)
  {
    match step
    case Change(p) => TouchedByMore(s.inflight, p, user);
    case Handle(_) =>
      if s.inflight != [] {
        assert Touches(s.inflight[0], user) ==> Touched(s.inflight, user);
        forall i | 0 <= i < |s.inflight[1..]| ensures !Touches(s.inflight[1..][i], user) {
          assert s.inflight[1..][i] == s.inflight[i + 1];
        }
      }
    case _ =>
  }

  /**
   An unblock push handled before the list is loaded leaves every other blocked user out, and
   that stays so until the list is loaded again or the user is pushed again.
   */
  lemma {:induction false} EarlyUnblockLosesTheList(
    blocked: map<UserId, ()>, user: UserId, other: UserId, more: seq<Step<UserId, ()>>)
    requires user != other && other in blocked
    requires forall i :: 0 <= i < |more| ==> LeavesAlone(more[i], other)
    ensures var changed := Next(LoadForPut, Replica(blocked, None, [], []), Change(Drop(user)));
            LeftOut(Run(LoadForPut, Next(LoadForPut, changed, Handle(true)), more), other)
  {
    var changed := Next(LoadForPut, Replica(blocked, None, [], []), Change(Drop(user)));
    if more == [] {
      assert changed.inflight == [Drop(user)];
    } else {
      EarlyUnblockLosesTheList(blocked, user, other, more[..|more| - 1]);
      var handled := Next(LoadForPut, changed, Handle(true));
      StaysLeftOut(Run(LoadForPut, handled, more[..|more| - 1]), more[|more| - 1], other);
    }
  }
}
