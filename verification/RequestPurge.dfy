/**
 What the timeout timer, a disconnect and a refused send do to the list of pending
 requests (crates/prose-xmpp/src/client/client.rs:206-241,
 crates/prose-xmpp/src/client/module_context.rs:100-106).
 */
module RequestPurge {
  import opened Basics
  import opened Requests
  import opened PendingRequests

  const TIMEOUT := 15_000  // milliseconds

  // ---- Failing requests ----

  /** The entries younger than the timeout, in their original order. */
  ghost function Young<K>(pending: seq<Entry<K>>, now: nat): seq<Entry<K>> {
    if pending == [] then []
    else
      var rest := Young(pending[..|pending| - 1], now);
      var last := pending[|pending| - 1];
      if now - last.timestamp < TIMEOUT then rest + [last] else rest
  }

  ghost function Expired<K>(pending: seq<Entry<K>>, now: nat): set<K> {
    set i | 0 <= i < |pending| && now - pending[i].timestamp >= TIMEOUT :: pending[i].future
  }

  ghost function FailAll<K>(table: map<K, FutureState>, keys: set<K>, err: RequestError): map<K, FutureState> {
    map k | k in table :: if k in keys then FailWith(table[k], err) else table[k]
  }

  lemma FailAllKeepsReadable<K>(table: map<K, FutureState>, keys: set<K>, err: RequestError)
    requires Readable(table)
    ensures Readable(FailAll(table, keys, err))
  {
  }

  /** Taking a request back out of the list after its stanza could not be sent. */
  ghost function Retain<K>(pending: seq<Entry<K>>, id: nat): seq<Entry<K>> {
    if pending == [] then []
    else
      var rest, last := Retain(pending[..|pending| - 1], id), pending[|pending| - 1];
      if last.id != id then rest + [last] else rest
  }

  lemma {:induction false} RetainIsExactly<K>(pending: seq<Entry<K>>, id: nat)
    ensures forall x :: x in Retain(pending, id) <==> x in pending && x.id != id
    ensures forall i :: 0 <= i < |Retain(pending, id)| ==> Retain(pending, id)[i] in pending
  {
    if pending != [] {
      var front, last := pending[..|pending| - 1], pending[|pending| - 1];
      RetainIsExactly(front, id);
      assert pending == front + [last];
    }
  }

  lemma {:induction false} RetainKeepsNoRepeats<K>(pending: seq<Entry<K>>, id: nat)
    requires NoRepeats(pending)
    ensures NoRepeats(Retain(pending, id))
  {
    if pending != [] {
      var front, last := pending[..|pending| - 1], pending[|pending| - 1];
      RetainKeepsNoRepeats(front, id);
      RetainIsExactly(front, id);
      var kept := Retain(front, id);
      forall i | 0 <= i < |kept| ensures kept[i].future != last.future && kept[i].id != last.id {
        assert kept[i] in front;
        var j :| 0 <= j < |front| && front[j] == kept[i];
        assert pending[j] == kept[i];
      }
    }
  }

  lemma RetainKeepsSound<K>(pending: seq<Entry<K>>, table: map<K, FutureState>, id: nat)
    requires Sound(pending, table)
    ensures Sound(Retain(pending, id), table)
  {
    RetainKeepsNoRepeats(pending, id);
    RetainIsExactly(pending, id);
    forall i | 0 <= i < |Retain(pending, id)|
      ensures Retain(pending, id)[i].future in table && table[Retain(pending, id)[i].future].Live()
    {
      assert Retain(pending, id)[i] in pending;
    }
  }

  /** Retracting the newest request gives the list as it was. */
  lemma RetainUndoesPush<K>(pending: seq<Entry<K>>, x: Entry<K>)
    requires forall i :: 0 <= i < |pending| ==> pending[i].id != x.id
    ensures Retain(pending + [x], x.id) == pending
  {
    assert (pending + [x])[..|pending|] == pending;
    RetainWithoutMatch(pending, x.id);
  }

  lemma NewKeepsReadable<K>(table: map<K, FutureState>, k: K, r: Request)
    requires Readable(table)
    ensures Readable(table[k := NewFuture(r)])
  {
  }

  lemma {:induction false} RetainWithoutMatch<K>(pending: seq<Entry<K>>, id: nat)
    requires forall i :: 0 <= i < |pending| ==> pending[i].id != id
    ensures Retain(pending, id) == pending
  {
    if pending != [] { RetainWithoutMatch(pending[..|pending| - 1], id); }
  }

  /** The wakers of the requests among `pending` that are in `keys`, in list order. */
  ghost function WakersOf<K>(pending: seq<Entry<K>>, keys: set<K>, table: map<K, FutureState>): seq<Waker>
    requires Known(pending, table)
  {
    if pending == [] then []
    else
      var rest := WakersOf(pending[..|pending| - 1], keys, table);
      var k := pending[|pending| - 1].future;
      if k in keys && table[k].waker.Some? then rest + [table[k].waker.value] else rest
  }

  /** Exactly the tasks that wait for one of the requests in `keys` are woken. */
  lemma {:induction false} WakersAreExactly<K>(
      pending: seq<Entry<K>>, keys: set<K>, table: map<K, FutureState>, w: Waker)
    requires Known(pending, table)
    ensures w in WakersOf(pending, keys, table) <==>
            exists x :: x in pending && x.future in keys && table[x.future].waker == Some(w)
  {
    if pending != [] {
      var front, last := pending[..|pending| - 1], pending[|pending| - 1];
      WakersAreExactly(front, keys, table, w);
      assert pending == front + [last];
      assert forall x :: x in pending <==> x in front || x == last;
    }
  }

  /** Survivors of a purge keep their relative order. */
  lemma {:induction false} YoungKeepsOrder<K>(pending: seq<Entry<K>>, now: nat, i: nat, j: nat, a: nat, b: nat)
    requires NoRepeats(pending) && i < j < |Young(pending, now)| && a < |pending| && b < |pending|
    requires pending[a] == Young(pending, now)[i] && pending[b] == Young(pending, now)[j]
    ensures a < b
  {
    var n := |pending| - 1;
    var front := pending[..n];
    YoungIsExactly(front, now);
    assert Young(pending, now)[i] in front by { assert Young(front, now)[i] == Young(pending, now)[i]; }
    var c :| 0 <= c < n && front[c] == pending[a];
    assert a == c;
    if j < |Young(front, now)| && b < n { YoungKeepsOrder(front, now, i, j, a, b); }
  }

  /** An entry survives a purge exactly when it is young. */
  lemma {:induction false} YoungIsExactly<K>(pending: seq<Entry<K>>, now: nat)
    ensures forall x :: x in Young(pending, now) <==> x in pending && now - x.timestamp < TIMEOUT
    ensures forall i :: 0 <= i < |Young(pending, now)| ==> Young(pending, now)[i] in pending
  {
    if pending != [] {
      var front, last := pending[..|pending| - 1], pending[|pending| - 1];
      YoungIsExactly(front, now);
      assert pending == front + [last];
    }
  }

  lemma {:induction false} YoungKeepsNoRepeats<K>(pending: seq<Entry<K>>, now: nat)
    requires NoRepeats(pending)
    ensures NoRepeats(Young(pending, now))
  {
    if pending != [] {
      var front, last := pending[..|pending| - 1], pending[|pending| - 1];
      YoungKeepsNoRepeats(front, now);
      YoungIsExactly(front, now);
      forall x | x in front ensures x.future != last.future && x.id != last.id {
        var i :| 0 <= i < |front| && front[i] == x;
        assert pending[i] == x && pending[|pending| - 1] == last;
      }
      var kept := Young(front, now);
      assert forall i :: 0 <= i < |kept| ==> kept[i] in front;
    }
  }

  /** A purge fails nothing it keeps: expired and surviving requests are disjoint. */
  lemma PurgeSplits<K>(pending: seq<Entry<K>>, now: nat)
    requires NoRepeats(pending)
    ensures Futures(Young(pending, now)) !! Expired(pending, now)
    ensures Futures(Young(pending, now)) + Expired(pending, now) == Futures(pending)
  {
    YoungIsExactly(pending, now);
    forall k | k in Futures(Young(pending, now))
      ensures k !in Expired(pending, now) && k in Futures(pending)
    {
      var i :| 0 <= i < |Young(pending, now)| && Young(pending, now)[i].future == k;
      assert Young(pending, now)[i] in pending;
      var j :| 0 <= j < |pending| && pending[j] == Young(pending, now)[i];
      assert forall l :: 0 <= l < |pending| && pending[l].future == k ==> l == j;
    }
    forall k | k in Futures(pending) && k !in Expired(pending, now) ensures k in Futures(Young(pending, now)) {
      var j :| 0 <= j < |pending| && pending[j].future == k;
      assert pending[j] in Young(pending, now);
    }
  }

  // ---- A purge stops at an entry stamped in the future ----

  /** Where the first entry stamped after `now` stands; reading its age panics. */
  ghost function FutureAt<K>(pending: seq<Entry<K>>, now: nat): (n: nat)
    ensures n <= |pending| && (n < |pending| ==> pending[n].timestamp > now)
    ensures forall i :: 0 <= i < n && i < |pending| ==> pending[i].timestamp <= now
  {
    if pending == [] then 0
    else
      var front := FutureAt(pending[..|pending| - 1], now);
      if front < |pending| - 1 || pending[|pending| - 1].timestamp > now then front else |pending|
  }

  /** What is left of the list: the young entries up to there, and everything from there on. */
  ghost function Left<K>(pending: seq<Entry<K>>, now: nat): seq<Entry<K>> {
    Young(pending[..FutureAt(pending, now)], now) + pending[FutureAt(pending, now)..]
  }

  /** The requests that are timed out. */
  ghost function Overdue<K>(pending: seq<Entry<K>>, now: nat): set<K> {
    Expired(pending[..FutureAt(pending, now)], now)
  }

  lemma NoRepeatsSplit<K>(a: seq<Entry<K>>, b: seq<Entry<K>>)
    requires NoRepeats(a + b)
    ensures NoRepeats(a) && NoRepeats(b) && Futures(a) !! Futures(b) && Futures(a + b) == Futures(a) + Futures(b)
  {
    var all := a + b;
    assert forall i :: 0 <= i < |a| ==> all[i] == a[i];
    assert forall i :: 0 <= i < |b| ==> all[|a| + i] == b[i];
    forall k | k in Futures(a) + Futures(b) ensures k in Futures(all) {
      if k in Futures(a) {
        var i :| 0 <= i < |a| && a[i].future == k;
        assert all[i].future == k;
      } else {
        var i :| 0 <= i < |b| && b[i].future == k;
        assert all[|a| + i].future == k;
      }
    }
  }

  lemma NoRepeatsJoin<K>(a: seq<Entry<K>>, kept: seq<Entry<K>>, b: seq<Entry<K>>)
    requires NoRepeats(a + b) && NoRepeats(kept) && forall i :: 0 <= i < |kept| ==> kept[i] in a
    ensures NoRepeats(kept + b)
  {
    var all := a + b;
    forall i, j | 0 <= i < |kept| && 0 <= j < |b| ensures kept[i].future != b[j].future && kept[i].id != b[j].id {
      assert kept[i] in a;
      var l :| 0 <= l < |a| && a[l] == kept[i];
      assert all[l] == kept[i] && all[|a| + j] == b[j];
    }
    NoRepeatsSplit(a, b);
    assert forall i :: |kept| <= i < |kept + b| ==> (kept + b)[i] == b[i - |kept|];
  }

  lemma LeftIsFromTheList<K>(pending: seq<Entry<K>>, now: nat)
    requires NoRepeats(pending)
    ensures NoRepeats(Left(pending, now))
    ensures forall i :: 0 <= i < |Left(pending, now)| ==> Left(pending, now)[i] in pending
  {
    var n := FutureAt(pending, now);
    var a, b := pending[..n], pending[n..];
    assert a + b == pending;
    NoRepeatsSplit(a, b);
    YoungIsExactly(a, now);
    YoungKeepsNoRepeats(a, now);
    NoRepeatsJoin(a, Young(a, now), b);
  }

  /** A purge times out or keeps every request, and none both. */
  lemma PurgeDivides<K>(pending: seq<Entry<K>>, now: nat)
    requires NoRepeats(pending)
    ensures Futures(Left(pending, now)) !! Overdue(pending, now)
    ensures Futures(Left(pending, now)) + Overdue(pending, now) == Futures(pending)
  {
    var n := FutureAt(pending, now);
    var a, b := pending[..n], pending[n..];
    assert a + b == pending;
    NoRepeatsSplit(a, b);
    PurgeSplits(a, now);
    LeftIsFromTheList(pending, now);
    NoRepeatsSplit(Young(a, now), b);
  }

  /** Without entries from the future a purge goes by age alone. */
  lemma SteadyPurge<K>(pending: seq<Entry<K>>, now: nat)
    requires forall i :: 0 <= i < |pending| ==> pending[i].timestamp <= now
    ensures FutureAt(pending, now) == |pending| && Left(pending, now) == Young(pending, now)
    ensures Overdue(pending, now) == Expired(pending, now)
  {
    assert pending[..|pending|] == pending && pending[|pending|..] == [];
    assert Young(pending, now) + [] == Young(pending, now);
  }

  lemma PurgeLeavesSound<K>(pending: seq<Entry<K>>, table: map<K, FutureState>, now: nat)
    requires Sound(pending, table)
    ensures Sound(Left(pending, now), FailAll(table, Overdue(pending, now), TimedOut))
  {
    LeftIsFromTheList(pending, now);
    PurgeDivides(pending, now);
    var left := Left(pending, now);
    forall i | 0 <= i < |left|
      ensures left[i].future in table && left[i].future !in Overdue(pending, now) && table[left[i].future].Live()
    {
      assert left[i].future in Futures(left);
      assert left[i] in pending;
    }
  }

  lemma FailOneMore<K>(table: map<K, FutureState>, keys: set<K>, k: K, err: RequestError)
    requires k in table && k !in keys
    ensures FailAll(table, keys + {k}, err) == FailAll(table, keys, err)[k := FailWith(table[k], err)]
    ensures FailAll(table, keys, err)[k] == table[k]
  {
  }

  // ---- A purge entry by entry, as the loop does it ----

  datatype Purged<!K> = Purged(kept: seq<Entry<K>>, table: map<K, FutureState>, woken: seq<Waker>)

  ghost function PurgeEntry<K>(p: Purged<K>, x: Entry<K>, now: nat): Purged<K>
    requires x.future in p.table
  {
    var f := p.table[x.future];
    if now - x.timestamp < TIMEOUT then p.(kept := p.kept + [x])
    else p.(table := p.table[x.future := FailWith(f, TimedOut)],
            woken := if f.waker.Some? then p.woken + [f.waker.value] else p.woken)
  }

  ghost function PurgeFold<K>(list: seq<Entry<K>>, table: map<K, FutureState>, now: nat): (p: Purged<K>)
    requires Known(list, table)
    ensures p.table.Keys == table.Keys
  {
    if list == [] then Purged([], table, [])
    else PurgeEntry(PurgeFold(list[..|list| - 1], table, now), list[|list| - 1], now)
  }

  lemma PurgeFoldStep<K>(list: seq<Entry<K>>, table: map<K, FutureState>, now: nat, n: nat)
    requires n < |list| && Known(list, table)
    ensures PurgeFold(list[..n + 1], table, now) == PurgeEntry(PurgeFold(list[..n], table, now), list[n], now)
  {
    assert list[..n + 1][..n] == list[..n];
  }

  /** Working entry by entry amounts to splitting the list by age and failing the old part. */
  lemma {:induction false} PurgeFoldIsPurge<K>(list: seq<Entry<K>>, table: map<K, FutureState>, now: nat, n: nat)
    requires n <= |list| && NoRepeats(list) && Known(list, table)
    ensures PurgeFold(list[..n], table, now) ==
            Purged(Young(list[..n], now), FailAll(table, Expired(list[..n], now), TimedOut),
                   WakersOf(list[..n], Expired(list, now), table))
  {
    if n == 0 {
      assert FailAll(table, Expired(list[..0], now), TimedOut) == table;
    } else {
      var x := list[n - 1];
      PurgeFoldIsPurge(list, table, now, n - 1);
      assert list[..n][..n - 1] == list[..n - 1] && list[..n][n - 1] == x;
      ExpiredGrows(list, n - 1, now);
      if now - x.timestamp >= TIMEOUT {
        FailOneMore(table, Expired(list[..n - 1], now), x.future, TimedOut);
      } else {
        assert Expired(list[..n], now) == Expired(list[..n - 1], now);
      }
    }
  }

  /** Up to the entry it panics on, if any, the loop does what a purge should. */
  lemma PurgeAmountsTo<K>(list: seq<Entry<K>>, table: map<K, FutureState>, now: nat)
    requires NoRepeats(list) && Known(list, table)
    ensures var n := FutureAt(list, now);
            var p := PurgeFold(list[..n], table, now);
            && p.kept + list[n..] == Left(list, now) && p.table == FailAll(table, Overdue(list, now), TimedOut)
            && (n == |list| ==> p.woken == WakersOf(list, Overdue(list, now), table))
  {
    var n := FutureAt(list, now);
    PurgeFoldIsPurge(list, table, now, n);
    if n == |list| { assert list[..n] == list; }
  }

  lemma FutureFoundAt<K>(list: seq<Entry<K>>, now: nat, n: nat)
    requires n <= FutureAt(list, now) && n < |list|
    ensures list[n].timestamp > now <==> n == FutureAt(list, now)
  {
  }

  lemma ExpiredGrows<K>(list: seq<Entry<K>>, n: nat, now: nat)
    requires n < |list| && NoRepeats(list)
    ensures Expired(list[..n + 1], now) ==
            Expired(list[..n], now) + (if now - list[n].timestamp >= TIMEOUT then {list[n].future} else {})
    ensures list[n].future !in Expired(list[..n], now)
    ensures now - list[n].timestamp >= TIMEOUT <==> list[n].future in Expired(list, now)
  {
    var more := list[..n + 1];
    assert forall i :: 0 <= i < n ==> more[i] == list[i] && list[..n][i] == list[i];
    assert more[n] == list[n];
    forall k | k in Expired(list[..n], now) ensures k in Expired(more, now) {
      var i :| 0 <= i < n && now - list[..n][i].timestamp >= TIMEOUT && list[..n][i].future == k;
      assert more[i].future == k;
    }
  }
}
