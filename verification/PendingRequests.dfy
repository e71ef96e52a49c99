/**
 The list of pending requests and what a stanza does to it, as functions of the
 list and of the request states it refers to
 (crates/prose-xmpp/src/client/client.rs:154-204). `K` is the handle under which a
 request state is shared: a number in `RequestRuns`, an object in `RequestClient`.
 */
module PendingRequests {
  import opened Basics
  import opened Requests

  datatype Entry<K> = Entry(id: nat, future: K, timestamp: nat)

  ghost predicate Known<K>(pending: seq<Entry<K>>, table: map<K, FutureState>) {
    forall i :: 0 <= i < |pending| ==> pending[i].future in table
  }

  ghost predicate AllLive<K>(pending: seq<Entry<K>>, table: map<K, FutureState>)
    requires Known(pending, table)
  {
    forall i :: 0 <= i < |pending| ==> table[pending[i].future].Live()
  }

  ghost predicate NoRepeats<K>(pending: seq<Entry<K>>) {
    forall i, j :: 0 <= i < j < |pending| ==> pending[i].future != pending[j].future && pending[i].id != pending[j].id
  }

  /** What holds of the pending list in every reachable state. */
  ghost predicate Sound<K>(pending: seq<Entry<K>>, table: map<K, FutureState>) {
    Known(pending, table) && AllLive(pending, table) && NoRepeats(pending)
  }

  ghost function Futures<K>(pending: seq<Entry<K>>): set<K> {
    set i | 0 <= i < |pending| :: pending[i].future
  }

  ghost function RequestAt<K>(pending: seq<Entry<K>>, table: map<K, FutureState>, i: nat): Request
    requires i < |pending| && Sound(pending, table)
  {
    table[pending[i].future].value.value.Request()
  }

  /** At most one pending request claims `e`. */
  ghost predicate Unambiguous<K>(pending: seq<Entry<K>>, table: map<K, FutureState>, e: XmppElement)
    requires Sound(pending, table)
  {
    forall i, j :: 0 <= i < j < |pending| ==>
      !(Claims(RequestAt(pending, table, i), e) && Claims(RequestAt(pending, table, j), e))
  }

  /** A resolved request has no waker left, and its answer can be read unless it is a join without self-presence. */
  ghost predicate Readable<K>(table: map<K, FutureState>) {
    forall k :: k in table && table[k].result.Some? ==>
      && table[k].waker.None?
      && (table[k].result == Some(Done) ==>
            table[k].value.Some? && (Transform(table[k].value.value).None? <==> Unwelcomed(table[k].value.value)))
  }

  /** A join that has not been told of its own presence. */
  predicate Unwelcomed(v: ReducerState) { v.JoinState? && v.selfPresence.None? }

  // ---- A stanza visits the pending requests in order ----

  datatype Visit<!K> = Visit(pending: seq<Entry<K>>, table: map<K, FutureState>, left: Option<XmppElement>,
                             taker: Option<K>, woken: Option<Waker>, panicked: bool)

  ghost function VisitFrom<K>(pending: seq<Entry<K>>, table: map<K, FutureState>, i: nat, e: XmppElement): Visit<K>
    requires i <= |pending| && Known(pending, table)
    decreases |pending| - i
  {
    if i == |pending| then Visit(pending, table, Some(e), None, None, false)
    else
      var k := pending[i].future;
      var (f, poll) := HandleElement(table[k], e);
      match poll
      case Panic => Visit(pending, table, None, None, None, true)
      case StillPending(Some(e')) => VisitFrom(pending, table[k := f], i + 1, e')
      case StillPending(None) => Visit(pending, table[k := f], None, Some(k), None, false)
      case Resolved(waker) => Visit(Without(pending, i), table[k := f], None, Some(k), waker, false)
  }

  ghost function Without<K>(pending: seq<Entry<K>>, i: nat): seq<Entry<K>>
    requires i < |pending|
  {
    pending[..i] + pending[i + 1..]
  }

  /** `i` is the first pending request, from `from` on, that claims `e`. */
  ghost predicate FirstClaim<K>(pending: seq<Entry<K>>, table: map<K, FutureState>, from: nat, i: nat, e: XmppElement)
    requires Sound(pending, table)
  {
    && from <= i < |pending|
    && Claims(RequestAt(pending, table, i), e)
    && forall j :: from <= j < i ==> !Claims(RequestAt(pending, table, j), e)
  }

  /** The visit when request `i` takes `e`: only `i` changes, and it leaves the list if `e` decides it. */
  ghost function ClaimedAt<K>(pending: seq<Entry<K>>, table: map<K, FutureState>, i: nat, e: XmppElement): Visit<K>
    requires i < |pending| && Sound(pending, table)
  {
    var k := pending[i].future;
    var f := table[k];
    var (v, poll) := Reduce(f.value.value, e);
    if Decides(e, f.value.value.Request()) then
      var outcome := if poll.Failing? then Failed(poll.error) else Done;
      Visit(Without(pending, i), table[k := FutureState(Some(v), Some(outcome), None)], None, Some(k), f.waker, false)
    else
      Visit(pending, table[k := f.(value := Some(v))], None, Some(k), None, false)
  }

  lemma {:induction false} VisitFromFindsFirstClaim<K>(
      pending: seq<Entry<K>>, table: map<K, FutureState>, from: nat, e: XmppElement)
    requires from <= |pending| && Sound(pending, table)
    ensures forall i :: FirstClaim(pending, table, from, i, e) ==>
              VisitFrom(pending, table, from, e) == ClaimedAt(pending, table, i, e)
    ensures (forall i :: from <= i < |pending| ==> !Claims(RequestAt(pending, table, i), e)) ==>
              VisitFrom(pending, table, from, e) == Visit(pending, table, Some(e), None, None, false)
    decreases |pending| - from
  {
    if from < |pending| {
      var k := pending[from].future;
      ReduceRespectsClaims(table[k].value.value, e);
      if !Claims(RequestAt(pending, table, from), e) {
        assert table[k := table[k]] == table;
        VisitFromFindsFirstClaim(pending, table, from + 1, e);
        forall i | FirstClaim(pending, table, from, i, e)
          ensures VisitFrom(pending, table, from, e) == ClaimedAt(pending, table, i, e)
        {
          assert i != from;
          assert FirstClaim(pending, table, from + 1, i, e);
        }
      } else {
        forall i | FirstClaim(pending, table, from, i, e)
          ensures VisitFrom(pending, table, from, e) == ClaimedAt(pending, table, i, e)
        {
          assert i == from;
        }
      }
    }
  }

  /** A visit ends at the first claiming request, or leaves everything as it was. */
  lemma VisitOutcome<K>(pending: seq<Entry<K>>, table: map<K, FutureState>, e: XmppElement) returns (claim: Option<nat>)
    requires Sound(pending, table)
    ensures claim.Some? ==>
              && FirstClaim(pending, table, 0, claim.value, e)
              && VisitFrom(pending, table, 0, e) == ClaimedAt(pending, table, claim.value, e)
    ensures claim.None? ==> forall i :: 0 <= i < |pending| ==> !Claims(RequestAt(pending, table, i), e)
    ensures claim.None? ==> VisitFrom(pending, table, 0, e) == Visit(pending, table, Some(e), None, None, false)
  {
    VisitFromFindsFirstClaim(pending, table, 0, e);
    var i := 0;
    while i < |pending|
      invariant i <= |pending|
      invariant forall j :: 0 <= j < i ==> !Claims(RequestAt(pending, table, j), e)
    {
      if Claims(RequestAt(pending, table, i), e) {
        return Some(i);
      }
      i := i + 1;
    }
    claim := None;
  }

  /** A visit keeps the pending list sound: it removes exactly the request it resolves. */
  lemma VisitKeepsSound<K>(pending: seq<Entry<K>>, table: map<K, FutureState>, e: XmppElement)
    requires Sound(pending, table)
    ensures var v := VisitFrom(pending, table, 0, e);
            Sound(v.pending, v.table) && !v.panicked && v.table.Keys == table.Keys
  {
    var claim := VisitOutcome(pending, table, e);
    if claim.Some? { ClaimKeepsSound(pending, table, claim.value, e); }
  }

  lemma ClaimKeepsSound<K>(pending: seq<Entry<K>>, table: map<K, FutureState>, i: nat, e: XmppElement)
    requires Sound(pending, table) && i < |pending|
    ensures var v := ClaimedAt(pending, table, i, e);
            Sound(v.pending, v.table) && v.table.Keys == table.Keys
  {
    var rest := Without(pending, i);
    assert forall j :: 0 <= j < |rest| ==> rest[j] == pending[if j < i then j else j + 1];
    assert forall j :: 0 <= j < |pending| && j != i ==> pending[j].future != pending[i].future;
  }

  /** A claimed element removes exactly the request it decides, and touches no other. */
  lemma ClaimedFutures<K>(pending: seq<Entry<K>>, table: map<K, FutureState>, i: nat, e: XmppElement, k: K)
    requires Sound(pending, table) && i < |pending| && k in table
    ensures var v := ClaimedAt(pending, table, i, e);
            && v.table.Keys == table.Keys
            && (k in Futures(v.pending) <==> k in Futures(pending) && v.table[k].result.None?)
            && (k !in Futures(pending) ==> v.table[k] == table[k])
  {
    var x := pending[i].future;
    assert x in Futures(pending);
    if Decides(e, table[x].value.value.Request()) { WithoutFutures(pending, i); }
  }

  lemma WithoutFutures<K>(pending: seq<Entry<K>>, i: nat)
    requires i < |pending| && NoRepeats(pending)
    ensures Futures(Without(pending, i)) == Futures(pending) - {pending[i].future}
  {
    var rest := Without(pending, i);
    assert forall j :: 0 <= j < |rest| ==> rest[j] == pending[if j < i then j else j + 1];
    forall k | k in Futures(pending) && k != pending[i].future ensures k in Futures(rest) {
      var j :| 0 <= j < |pending| && pending[j].future == k;
      assert rest[if j < i then j else j - 1].future == k;
    }
  }

  lemma VisitKeepsReadable<K>(pending: seq<Entry<K>>, table: map<K, FutureState>, e: XmppElement)
    requires Sound(pending, table) && Readable(table)
    ensures Readable(VisitFrom(pending, table, 0, e).table)
  {
    var claim := VisitOutcome(pending, table, e);
    if claim.Some? { ReduceRespectsClaims(table[pending[claim.value].future].value.value, e); }
  }

  lemma VisitOnlyRemoves<K>(pending: seq<Entry<K>>, table: map<K, FutureState>, e: XmppElement)
    requires Sound(pending, table)
    ensures forall i :: 0 <= i < |VisitFrom(pending, table, 0, e).pending| ==>
              VisitFrom(pending, table, 0, e).pending[i] in pending
  {
    var claim := VisitOutcome(pending, table, e);
  }

  /** The claiming request, if it is the only one, gets the element wherever it stands. */
  lemma ClaimantTakesStanza<K>(pending: seq<Entry<K>>, table: map<K, FutureState>, i: nat, e: XmppElement)
    requires Sound(pending, table) && Unambiguous(pending, table, e)
    requires i < |pending| && Claims(RequestAt(pending, table, i), e)
    ensures VisitFrom(pending, table, 0, e) == ClaimedAt(pending, table, i, e)
  {
    assert FirstClaim(pending, table, 0, i, e);
    VisitFromFindsFirstClaim(pending, table, 0, e);
  }

  ghost predicate Claimed<K>(pending: seq<Entry<K>>, table: map<K, FutureState>, e: XmppElement)
    requires Sound(pending, table)
  {
    exists i: nat :: i < |pending| && Claims(RequestAt(pending, table, i), e)
  }

  /**
   Every stanza is either taken by exactly one pending request, all others keeping
   their state, or handed on unchanged with nothing touched.
   */
  lemma StanzaIsClaimedOnceOrPassedOn<K>(pending: seq<Entry<K>>, table: map<K, FutureState>, e: XmppElement)
    requires Sound(pending, table) && Unambiguous(pending, table, e)
    ensures Claimed(pending, table, e) ==>
              exists i: nat :: i < |pending| && Claims(RequestAt(pending, table, i), e)
                && VisitFrom(pending, table, 0, e) == ClaimedAt(pending, table, i, e)
                && forall j: nat :: j < |pending| && Claims(RequestAt(pending, table, j), e) ==> j == i
    ensures !Claimed(pending, table, e) ==>
              VisitFrom(pending, table, 0, e) == Visit(pending, table, Some(e), None, None, false)
  {
    if Claimed(pending, table, e) {
      var i: nat :| i < |pending| && Claims(RequestAt(pending, table, i), e);
      ClaimantTakesStanza(pending, table, i, e);
    } else {
      VisitFromFindsFirstClaim(pending, table, 0, e);
    }
  }

  /** Reordering the pending list changes neither who takes a stanza nor what is left of it. */
  lemma VisitIgnoresOrder<K>(p: seq<Entry<K>>, q: seq<Entry<K>>, table: map<K, FutureState>, e: XmppElement)
    requires Sound(p, table) && Sound(q, table) && Unambiguous(p, table, e)
    requires multiset(p) == multiset(q)
    ensures var a, b := VisitFrom(p, table, 0, e), VisitFrom(q, table, 0, e);
            && a.table == b.table && a.left == b.left && a.taker == b.taker
            && a.woken == b.woken && a.panicked == b.panicked
            && multiset(a.pending) == multiset(b.pending)
  {
    StaysUnambiguous(p, q, table, e);
    if Claimed(p, table, e) {
      var i: nat :| i < |p| && Claims(RequestAt(p, table, i), e);
      var j := SameEntry(p, q, i);
      ClaimantTakesStanza(p, table, i, e);
      ClaimantTakesStanza(q, table, j, e);
      SameClaimSameVisit(p, i, q, j, table, e);
    } else {
      forall j: nat | j < |q| ensures !Claims(RequestAt(q, table, j), e) {
        var i := SameEntry(q, p, j);
        assert !Claims(RequestAt(p, table, i), e);
      }
      VisitFromFindsFirstClaim(p, table, 0, e);
      VisitFromFindsFirstClaim(q, table, 0, e);
    }
  }

  lemma StaysUnambiguous<K>(p: seq<Entry<K>>, q: seq<Entry<K>>, table: map<K, FutureState>, e: XmppElement)
    requires Sound(p, table) && Sound(q, table) && Unambiguous(p, table, e) && multiset(p) == multiset(q)
    ensures Unambiguous(q, table, e)
  {
    forall i, j | 0 <= i < j < |q| ensures !(Claims(RequestAt(q, table, i), e) && Claims(RequestAt(q, table, j), e)) {
      var a := SameEntry(q, p, i);
      var b := SameEntry(q, p, j);
      assert a != b;
      assert if a < b then !(Claims(RequestAt(p, table, a), e) && Claims(RequestAt(p, table, b), e))
             else !(Claims(RequestAt(p, table, b), e) && Claims(RequestAt(p, table, a), e));
    }
  }

  /** `pending` with entry `j` moved to the front. */
  ghost function Promoted<K>(pending: seq<Entry<K>>, j: nat): seq<Entry<K>>
    requires j < |pending|
  {
    [pending[j]] + Without(pending, j)
  }

  /** Where the entry at `i` of the promoted list stood before. */
  function Origin(i: nat, j: nat): nat { if i == 0 then j else if i <= j then i - 1 else i }

  lemma PromotedEntry<K>(pending: seq<Entry<K>>, j: nat, i: nat)
    requires j < |pending| && i < |pending|
    ensures |Promoted(pending, j)| == |pending| && Origin(i, j) < |pending|
    ensures Promoted(pending, j)[i] == pending[Origin(i, j)]
  {
  }

  lemma PromotedIsSound<K>(pending: seq<Entry<K>>, table: map<K, FutureState>, j: nat)
    requires j < |pending| && Sound(pending, table)
    ensures Sound(Promoted(pending, j), table)
  {
    var q := Promoted(pending, j);
    forall i | 0 <= i < |q| ensures q[i].future in table && table[q[i].future].Live() { PromotedEntry(pending, j, i); }
    forall i, l | 0 <= i < l < |q| ensures q[i].future != q[l].future && q[i].id != q[l].id {
      PromotedEntry(pending, j, i);
      PromotedEntry(pending, j, l);
      assert Origin(i, j) != Origin(l, j);
    }
  }

  lemma PromotedIsPermutation<K>(pending: seq<Entry<K>>, j: nat)
    requires j < |pending|
    ensures multiset(Promoted(pending, j)) == multiset(pending)
  {
    WithoutAsMultiset(pending, j);
    assert pending[j] in multiset(pending);
  }

  lemma PromotedClaims<K>(p: seq<Entry<K>>, table: map<K, FutureState>, e: XmppElement, j: nat)
    requires Sound(p, table) && j < |p| && Claims(RequestAt(p, table, j), e)
    ensures Sound(Promoted(p, j), table) && VisitFrom(Promoted(p, j), table, 0, e).taker == Some(p[j].future)
  {
    PromotedIsSound(p, table, j);
    var q := Promoted(p, j);
    assert FirstClaim(q, table, 0, 0, e);
    VisitFromFindsFirstClaim(q, table, 0, e);
  }

  /** Who takes a stanza is independent of the order of the list if and only if at most one request claims it. */
  lemma OrderIrrelevantExactly<K(!new)>(p: seq<Entry<K>>, table: map<K, FutureState>, e: XmppElement)
    requires Sound(p, table)
    ensures Unambiguous(p, table, e) <==>
            forall q :: Sound(q, table) && multiset(q) == multiset(p) ==>
              VisitFrom(q, table, 0, e).taker == VisitFrom(p, table, 0, e).taker
  {
    if Unambiguous(p, table, e) {
      forall q | Sound(q, table) && multiset(q) == multiset(p)
        ensures VisitFrom(q, table, 0, e).taker == VisitFrom(p, table, 0, e).taker
      {
        VisitIgnoresOrder(p, q, table, e);
      }
    } else {
      var i, j :| 0 <= i < j < |p| && Claims(RequestAt(p, table, i), e) && Claims(RequestAt(p, table, j), e);
      var claim := VisitOutcome(p, table, e);
      assert claim.value < j;
      PromotedClaims(p, table, e, j);
      PromotedIsPermutation(p, j);
      assert VisitFrom(p, table, 0, e).taker == Some(p[claim.value].future);
    }
  }

  lemma SameClaimSameVisit<K>(
      p: seq<Entry<K>>, i: nat, q: seq<Entry<K>>, j: nat, table: map<K, FutureState>, e: XmppElement)
    requires Sound(p, table) && Sound(q, table) && multiset(p) == multiset(q)
    requires i < |p| && j < |q| && p[i] == q[j]
    ensures var a, b := ClaimedAt(p, table, i, e), ClaimedAt(q, table, j, e);
            b == a.(pending := b.pending) && multiset(a.pending) == multiset(b.pending)
  {
    WithoutAsMultiset(p, i);
    WithoutAsMultiset(q, j);
  }

  lemma SameEntry<K>(p: seq<Entry<K>>, q: seq<Entry<K>>, i: nat) returns (j: nat)
    requires multiset(p) == multiset(q) && i < |p|
    ensures j < |q| && q[j] == p[i]
  {
    assert p[i] in multiset(q);
    j :| j < |q| && q[j] == p[i];
  }

  lemma WithoutAsMultiset<K>(p: seq<Entry<K>>, i: nat)
    requires i < |p|
    ensures multiset(Without(p, i)) == multiset(p) - multiset{p[i]}
  {
    assert p == p[..i] + [p[i]] + p[i + 1..];
  }
}
