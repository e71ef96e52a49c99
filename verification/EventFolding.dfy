/**
 Coalescing seen from a distance: items that belong to totally ordered classes are
 stably sorted by class, and neighbours of one class are folded into the first of
 them. `Coalescer` shows that client events are such items.
 */
module EventFolding {

  /** The kind of an event, and for room events the room's JID and the kind of the room event. */
  datatype Class = Class(kind: nat, jid: nat, roomKind: nat)

  /** An event as its class, the ids it carries and everything else it says. */
  datatype Item<R> = Item(class_: Class, rest: R, ids: seq<nat>)

  predicate Before(a: Class, b: Class) {
    a.kind < b.kind || (a.kind == b.kind && (a.jid < b.jid || (a.jid == b.jid && a.roomKind < b.roomKind)))
  }

  // ---- What coalescing should yield ----

  /** The items of class `c`, in arrival order. */
  ghost function Of<R>(c: Class, xs: seq<Item<R>>): seq<Item<R>> {
    if xs == [] then []
    else
      var front, last := Of(c, xs[..|xs| - 1]), xs[|xs| - 1];
      if last.class_ == c then front + [last] else front
  }

  ghost function AllIds<R>(xs: seq<Item<R>>): seq<nat> {
    if xs == [] then [] else AllIds(xs[..|xs| - 1]) + xs[|xs| - 1].ids
  }

  /** `out` stands for its class in `xs`: the first item of the class, with the ids of all of them. */
  ghost predicate Summarises<R>(out: Item<R>, xs: seq<Item<R>>) {
    var same := Of(out.class_, xs);
    same != [] && out.rest == same[0].rest && out.ids == AllIds(same)
  }

  ghost predicate Increasing<R>(out: seq<Item<R>>) {
    forall i, j :: 0 <= i < j < |out| ==> Before(out[i].class_, out[j].class_)
  }

  ghost predicate Has<R>(out: seq<Item<R>>, c: Class) {
    exists i :: 0 <= i < |out| && out[i].class_ == c
  }

  /** `out` is one summary per class present in `xs`, in class order. */
  ghost predicate Coalesced<R>(xs: seq<Item<R>>, out: seq<Item<R>>) {
    && Increasing(out)
    && (forall i :: 0 <= i < |out| ==> Summarises(out[i], xs))
    && (forall c :: Of(c, xs) != [] ==> Has(out, c))
  }

  // ---- How it is done ----

  ghost predicate Sorted<R>(xs: seq<Item<R>>) {
    forall i, j :: 0 <= i < j < |xs| ==> !Before(xs[j].class_, xs[i].class_)
  }

  /** Sorted, with the items of each class left in their order. */
  ghost predicate StableSortOf<R>(xs: seq<Item<R>>, out: seq<Item<R>>) {
    Sorted(out) && forall c :: Of(c, out) == Of(c, xs)
  }

  function Position<R>(sorted: seq<Item<R>>, c: Class): (i: nat)
    ensures i <= |sorted| && (i > 0 ==> !Before(c, sorted[i - 1].class_))
    ensures forall j :: i <= j < |sorted| ==> Before(c, sorted[j].class_)
  {
    if sorted != [] && Before(c, sorted[|sorted| - 1].class_) then Position(sorted[..|sorted| - 1], c) else |sorted|
  }

  function InsertAt<R>(sorted: seq<R>, i: nat, x: R): seq<R>
    requires i <= |sorted|
  {
    sorted[..i] + [x] + sorted[i..]
  }

  function Sort<R>(xs: seq<Item<R>>): seq<Item<R>> {
    if xs == [] then []
    else
      var sorted, x := Sort(xs[..|xs| - 1]), xs[|xs| - 1];
      InsertAt(sorted, Position(sorted, x.class_), x)
  }

  function Absorb<R>(kept: seq<Item<R>>, x: Item<R>): seq<Item<R>> {
    var n := |kept| - 1;
    if kept != [] && kept[n].class_ == x.class_
    then kept[n := kept[n].(ids := kept[n].ids + x.ids)]
    else kept + [x]
  }

  function Fold<R>(xs: seq<Item<R>>): seq<Item<R>> {
    if xs == [] then [] else Absorb(Fold(xs[..|xs| - 1]), xs[|xs| - 1])
  }

  // ---- Selecting a class ----

  lemma {:induction false} OfAppends<R>(c: Class, a: seq<Item<R>>, b: seq<Item<R>>)
    ensures Of(c, a + b) == Of(c, a) + Of(c, b)
  {
    if b == [] {
      assert a + b == a;
    } else {
      var front, last := b[..|b| - 1], b[|b| - 1];
      OfAppends(c, a, front);
      assert (a + b)[..|a + b| - 1] == a + front;
      assert Of(c, a) + Of(c, front) + [last] == Of(c, a) + (Of(c, front) + [last]);
    }
  }

  lemma OfOne<R>(c: Class, x: Item<R>)
    ensures Of(c, [x]) == if x.class_ == c then [x] else []
  {
    assert [x][..0] == [];
  }

  lemma {:induction false} OfMembers<R>(c: Class, xs: seq<Item<R>>)
    ensures forall i :: 0 <= i < |Of(c, xs)| ==> Of(c, xs)[i] in xs && Of(c, xs)[i].class_ == c
    ensures Of(c, xs) != [] <==> Has(xs, c)
  {
    if xs != [] {
      var front := xs[..|xs| - 1];
      OfMembers(c, front);
      assert xs == front + [xs[|xs| - 1]];
      if Has(front, c) {
        var i :| 0 <= i < |front| && front[i].class_ == c;
        assert xs[i].class_ == c;
      }
    }
  }

  lemma {:induction false} AllIdsAppends<R>(a: seq<Item<R>>, b: seq<Item<R>>)
    ensures AllIds(a + b) == AllIds(a) + AllIds(b)
  {
    if b == [] {
      assert a + b == a;
    } else {
      var front, last := b[..|b| - 1], b[|b| - 1];
      AllIdsAppends(a, front);
      assert (a + b)[..|a + b| - 1] == a + front;
      assert AllIds(a) + AllIds(front) + last.ids == AllIds(a) + (AllIds(front) + last.ids);
    }
  }

  lemma AllIdsOfOne<R>(x: Item<R>)
    ensures AllIds([x]) == x.ids
  {
    assert [x][..0] == [];
  }

  // ---- Sorting ----

  lemma InsertedAtIsSorted<R>(sorted: seq<Item<R>>, i: nat, x: Item<R>)
    requires Sorted(sorted) && i <= |sorted|
    requires forall j :: 0 <= j < i ==> !Before(x.class_, sorted[j].class_)
    requires forall j :: i <= j < |sorted| ==> Before(x.class_, sorted[j].class_)
    ensures Sorted(InsertAt(sorted, i, x))
  {
    var out := InsertAt(sorted, i, x);
    assert forall j :: 0 <= j < |out| ==> out[j] == if j < i then sorted[j] else if j == i then x else sorted[j - 1];
  }

  lemma InsertKeepsSorted<R>(sorted: seq<Item<R>>, x: Item<R>)
    requires Sorted(sorted)
    ensures Sorted(InsertAt(sorted, Position(sorted, x.class_), x))
  {
    var i := Position(sorted, x.class_);
    forall j | 0 <= j < i ensures !Before(x.class_, sorted[j].class_) {
      if j < i - 1 { assert !Before(sorted[i - 1].class_, sorted[j].class_); }
    }
    InsertedAtIsSorted(sorted, i, x);
  }

  /** Inserting `x` ahead of items of other classes is as good as appending it. */
  lemma InsertBetween<R>(a: seq<Item<R>>, x: Item<R>, b: seq<Item<R>>, c: Class)
    requires forall j :: 0 <= j < |b| ==> b[j].class_ != x.class_
    ensures Of(c, a + [x] + b) == Of(c, a + b) + Of(c, [x])
  {
    OfAppends(c, a + [x], b);
    OfAppends(c, a, [x]);
    OfAppends(c, a, b);
    OfOne(c, x);
    if x.class_ == c { OfMembers(c, b); }
    SwapWhenEmpty(Of(c, a), Of(c, [x]), Of(c, b));
  }

  lemma SwapWhenEmpty<T>(a: seq<T>, x: seq<T>, b: seq<T>)
    requires x == [] || b == []
    ensures a + x + b == a + b + x
  {
  }

  lemma InsertIsStable<R>(sorted: seq<Item<R>>, x: Item<R>, c: Class)
    ensures Of(c, InsertAt(sorted, Position(sorted, x.class_), x)) == Of(c, sorted) + Of(c, [x])
  {
    var i := Position(sorted, x.class_);
    var a, b := sorted[..i], sorted[i..];
    assert sorted == a + b;
    forall j | 0 <= j < |b| ensures b[j].class_ != x.class_ { assert b[j] == sorted[i + j]; }
    InsertBetween(a, x, b, c);
  }

  lemma {:induction false} SortIsStable<R>(xs: seq<Item<R>>)
    ensures StableSortOf(xs, Sort(xs))
  {
    if xs != [] {
      var front, x := xs[..|xs| - 1], xs[|xs| - 1];
      assert xs == front + [x];
      SortIsStable(front);
      InsertKeepsSorted(Sort(front), x);
      forall c ensures Of(c, Sort(xs)) == Of(c, xs) {
        InsertIsStable(Sort(front), x, c);
        OfAppends(c, front, [x]);
      }
    }
  }

  /** Whatever algorithm sorts, a stable sort of the same items comes out the same. */
  lemma {:induction false} StableSortIsUnique<R>(a: seq<Item<R>>, b: seq<Item<R>>)
    requires Sorted(a) && Sorted(b) && forall c :: Of(c, a) == Of(c, b)
    ensures a == b
  {
    assert a == [] <==> b == [] by {
      if a != [] { OfMembers(a[0].class_, a); }
      if b != [] { OfMembers(b[0].class_, b); }
    }
    if a != [] {
      var m, n := |a| - 1, |b| - 1;
      LastIsGreatest(a, b);
      LastIsGreatest(b, a);
      var c0 := a[m].class_;
      assert a[m] == Of(c0, a)[|Of(c0, a)| - 1] == Of(c0, b)[|Of(c0, b)| - 1] == b[n];
      forall c ensures Of(c, a[..m]) == Of(c, b[..n]) {
        var t := if a[m].class_ == c then [a[m]] else [];
        assert Of(c, a[..m]) + t == Of(c, a) == Of(c, b) == Of(c, b[..n]) + t;
        assert Of(c, a[..m]) == (Of(c, a[..m]) + t)[..|Of(c, a)| - |t|];
        assert Of(c, b[..n]) == (Of(c, b[..n]) + t)[..|Of(c, b)| - |t|];
      }
      StableSortIsUnique(a[..m], b[..n]);
      assert a == a[..m] + [a[m]] && b == b[..n] + [b[n]];
    }
  }

  lemma LastIsGreatest<R>(a: seq<Item<R>>, b: seq<Item<R>>)
    requires a != [] && b != [] && Sorted(b) && forall c :: Of(c, a) == Of(c, b)
    ensures !Before(b[|b| - 1].class_, a[|a| - 1].class_)
  {
    var c := a[|a| - 1].class_;
    OfMembers(c, a);
    OfMembers(c, b);
    var j :| 0 <= j < |b| && b[j].class_ == c;
  }

  // ---- Folding ----

  lemma SummaryGrows<R>(out: Item<R>, xs: seq<Item<R>>, x: Item<R>)
    requires Summarises(out, xs)
    ensures x.class_ != out.class_ ==> Summarises(out, xs + [x])
    ensures x.class_ == out.class_ ==> Summarises(out.(ids := out.ids + x.ids), xs + [x])
  {
    OfAppends(out.class_, xs, [x]);
    OfOne(out.class_, x);
    AllIdsAppends(Of(out.class_, xs), [x]);
    AllIdsOfOne(x);
  }

  lemma ClassStaysPresent<R>(xs: seq<Item<R>>, kept: seq<Item<R>>, x: Item<R>, out: seq<Item<R>>, c: Class)
    requires Of(c, xs) != [] ==> Has(kept, c)
    requires |out| >= |kept| && forall i :: 0 <= i < |kept| ==> out[i].class_ == kept[i].class_
    requires out != [] && out[|out| - 1].class_ == x.class_
    requires Of(c, xs + [x]) != []
    ensures Has(out, c)
  {
    OfAppends(c, xs, [x]);
    OfOne(c, x);
    if c != x.class_ {
      var i :| 0 <= i < |kept| && kept[i].class_ == c;
      assert out[i].class_ == c;
    }
  }

  lemma LastIsAbove<R>(kept: seq<Item<R>>, c: Class)
    requires Increasing(kept) && kept != [] && !Before(c, kept[|kept| - 1].class_)
    ensures forall i :: 0 <= i < |kept| - 1 ==> Before(kept[i].class_, c)
  {
    forall i | 0 <= i < |kept| - 1 ensures Before(kept[i].class_, c) {
      assert Before(kept[i].class_, kept[|kept| - 1].class_);
    }
  }

  lemma AbsorbMerges<R>(xs: seq<Item<R>>, kept: seq<Item<R>>, x: Item<R>)
    requires Coalesced(xs, kept) && kept != [] && kept[|kept| - 1].class_ == x.class_
    ensures Coalesced(xs + [x], Absorb(kept, x))
  {
    var out, n := Absorb(kept, x), |kept| - 1;
    LastIsAbove(kept, x.class_);
    forall i | 0 <= i < |kept| ensures Summarises(out[i], xs + [x]) {
      SummaryGrows(kept[i], xs, x);
    }
    ClassesStayPresent(xs, kept, x, out);
  }

  lemma AbsorbKeeps<R>(xs: seq<Item<R>>, kept: seq<Item<R>>, x: Item<R>)
    requires Coalesced(xs, kept) && forall i :: 0 <= i < |kept| ==> Before(kept[i].class_, x.class_)
    ensures Coalesced(xs + [x], kept + [x])
  {
    var out := kept + [x];
    assert out[|kept|] == x && forall i :: 0 <= i < |kept| ==> out[i] == kept[i];
    assert Increasing(out);
    assert !Has(kept, x.class_);
    NewClassIsSummarised(xs, kept, x);
    forall i | 0 <= i < |out| ensures Summarises(out[i], xs + [x]) {
      if i < |kept| { SummaryGrows(kept[i], xs, x); }
    }
    ClassesStayPresent(xs, kept, x, out);
  }

  lemma ClassesStayPresent<R>(xs: seq<Item<R>>, kept: seq<Item<R>>, x: Item<R>, out: seq<Item<R>>)
    requires forall c :: Of(c, xs) != [] ==> Has(kept, c)
    requires |out| >= |kept| && forall i :: 0 <= i < |kept| ==> out[i].class_ == kept[i].class_
    requires out != [] && out[|out| - 1].class_ == x.class_
    ensures forall c :: Of(c, xs + [x]) != [] ==> Has(out, c)
  {
    forall c | Of(c, xs + [x]) != [] ensures Has(out, c) {
      ClassStaysPresent(xs, kept, x, out, c);
    }
  }

  lemma NewClassIsSummarised<R>(xs: seq<Item<R>>, kept: seq<Item<R>>, x: Item<R>)
    requires !Has(kept, x.class_) && (Of(x.class_, xs) != [] ==> Has(kept, x.class_))
    ensures Summarises(x, xs + [x])
  {
    OfAppends(x.class_, xs, [x]);
    OfOne(x.class_, x);
    AllIdsOfOne(x);
  }

  /** One turn of the fold on sorted items keeps one summary per class. */
  lemma AbsorbCoalesces<R>(xs: seq<Item<R>>, kept: seq<Item<R>>, x: Item<R>)
    requires Coalesced(xs, kept)
    requires kept != [] ==> !Before(x.class_, kept[|kept| - 1].class_)
    ensures Coalesced(xs + [x], Absorb(kept, x))
  {
    if kept != [] && kept[|kept| - 1].class_ == x.class_ {
      AbsorbMerges(xs, kept, x);
    } else {
      if kept != [] { LastIsAbove(kept, x.class_); }
      AbsorbKeeps(xs, kept, x);
    }
  }

  lemma FoldLast<R>(xs: seq<Item<R>>, x: Item<R>)
    ensures Fold(xs + [x]) == Absorb(Fold(xs), x)
  {
    assert (xs + [x])[..|xs|] == xs;
  }

  lemma FoldEnds<R>(xs: seq<Item<R>>)
    requires xs != []
    ensures Fold(xs) != [] && Fold(xs)[|Fold(xs)| - 1].class_ == xs[|xs| - 1].class_
  {
  }

  lemma {:induction false} FoldCoalesces<R>(xs: seq<Item<R>>)
    requires Sorted(xs)
    ensures Coalesced(xs, Fold(xs))
  {
    if xs != [] {
      var front, x := xs[..|xs| - 1], xs[|xs| - 1];
      FoldCoalesces(front);
      if front != [] { FoldEnds(front); }
      AbsorbCoalesces(front, Fold(front), x);
      FoldLast(front, x);
      assert front + [x] == xs;
    }
  }

  function Coalesce<R>(xs: seq<Item<R>>): seq<Item<R>> { Fold(Sort(xs)) }

  /** Sorting and folding reduces every class present to its summary, in class order, and adds nothing. */
  lemma CoalesceIsCoalesced<R>(xs: seq<Item<R>>)
    ensures Coalesced(xs, Coalesce(xs))
  {
    SortIsStable(xs);
    FoldCoalesces(Sort(xs));
  }

  // ---- The specification has one solution ----

  ghost function Classes<R>(xs: seq<Item<R>>): (cs: seq<Class>)
    ensures |cs| == |xs| && forall i :: 0 <= i < |xs| ==> cs[i] == xs[i].class_
  {
    seq(|xs|, i requires 0 <= i < |xs| => xs[i].class_)
  }

  ghost predicate StrictlyOrdered(cs: seq<Class>) { forall i, j :: 0 <= i < j < |cs| ==> Before(cs[i], cs[j]) }

  lemma {:induction false} OrderedListIsItsMembers(a: seq<Class>, b: seq<Class>)
    requires StrictlyOrdered(a) && StrictlyOrdered(b) && forall c :: c in a <==> c in b
    ensures a == b
  {
    assert a == [] <==> b == [] by {
      assert a != [] ==> a[0] in a;
      assert b != [] ==> b[0] in b;
    }
    if a != [] {
      var m, n := |a| - 1, |b| - 1;
      assert a[m] in b && b[n] in a;
      assert a[m] == b[n];
      assert a == a[..m] + [a[m]] && b == b[..n] + [b[n]];
      forall c ensures c in a[..m] <==> c in b[..n] {
        assert c in a[..m] <==> c in a && c != a[m];
        assert c in b[..n] <==> c in b && c != b[n];
      }
      OrderedListIsItsMembers(a[..m], b[..n]);
    }
  }

  lemma CoalescedHasExactly<R>(xs: seq<Item<R>>, a: seq<Item<R>>, c: Class)
    requires Coalesced(xs, a)
    ensures c in Classes(a) <==> Of(c, xs) != []
  {
    if c in Classes(a) {
      var i :| 0 <= i < |a| && Classes(a)[i] == c;
      assert Summarises(a[i], xs);
    }
    if Of(c, xs) != [] {
      var i :| 0 <= i < |a| && a[i].class_ == c;
      assert Classes(a)[i] == c;
    }
  }

  lemma CoalescedIsUnique<R>(xs: seq<Item<R>>, a: seq<Item<R>>, b: seq<Item<R>>)
    requires Coalesced(xs, a) && Coalesced(xs, b)
    ensures a == b
  {
    forall c ensures c in Classes(a) <==> c in Classes(b) {
      CoalescedHasExactly(xs, a, c);
      CoalescedHasExactly(xs, b, c);
    }
    OrderedListIsItsMembers(Classes(a), Classes(b));
    forall i | 0 <= i < |a| ensures a[i] == b[i] {
      assert Classes(a)[i] == Classes(b)[i];
      assert Summarises(a[i], xs) && Summarises(b[i], xs);
    }
  }

  // ---- Coalescing in portions ----

  lemma {:induction false} OfIncreasing<R>(out: seq<Item<R>>, i: nat)
    requires Increasing(out) && i < |out|
    ensures Of(out[i].class_, out) == [out[i]]
  {
    var n, c := |out| - 1, out[i].class_;
    var front := out[..n];
    if i < n {
      assert Before(c, out[n].class_);
      OfIncreasing(front, i);
    } else {
      forall j | 0 <= j < |front| ensures front[j].class_ != c { assert Before(out[j].class_, out[n].class_); }
      OfMembers(c, front);
    }
  }

  /** For every class, a coalesced prefix says the same as the prefix itself. */
  lemma CoalescedPrefixSaysTheSame<R>(p: seq<Item<R>>, a: seq<Item<R>>, s: seq<Item<R>>, c: Class)
    requires Coalesced(p, a)
    ensures Of(c, a + s) != [] <==> Of(c, p + s) != []
    ensures Of(c, a + s) != [] ==> Of(c, a + s)[0].rest == Of(c, p + s)[0].rest
    ensures AllIds(Of(c, a + s)) == AllIds(Of(c, p + s))
  {
    OfAppends(c, a, s);
    OfAppends(c, p, s);
    AllIdsAppends(Of(c, a), Of(c, s));
    AllIdsAppends(Of(c, p), Of(c, s));
    CoalescedSaysTheSame(p, a, c);
  }

  lemma CoalescedSaysTheSame<R>(p: seq<Item<R>>, a: seq<Item<R>>, c: Class)
    requires Coalesced(p, a)
    ensures Of(c, a) != [] <==> Of(c, p) != []
    ensures Of(c, a) != [] ==> Of(c, a)[0].rest == Of(c, p)[0].rest
    ensures AllIds(Of(c, a)) == AllIds(Of(c, p))
  {
    if Of(c, p) != [] {
      var i :| 0 <= i < |a| && a[i].class_ == c;
      OfIncreasing(a, i);
      AllIdsOfOne(a[i]);
      assert Summarises(a[i], p);
    } else {
      forall i | 0 <= i < |a| ensures a[i].class_ != c { assert Summarises(a[i], p); }
      OfMembers(c, a);
    }
  }

  lemma CoalescingIsIncremental<R>(p: seq<Item<R>>, s: seq<Item<R>>)
    ensures Coalesce(Coalesce(p) + s) == Coalesce(p + s)
  {
    var a := Coalesce(p);
    CoalesceIsCoalesced(p);
    CoalesceIsCoalesced(a + s);
    CoalesceIsCoalesced(p + s);
    var out := Coalesce(a + s);
    forall i | 0 <= i < |out| ensures Summarises(out[i], p + s) {
      CoalescedPrefixSaysTheSame(p, a, s, out[i].class_);
      assert Summarises(out[i], a + s);
    }
    forall c | Of(c, p + s) != [] ensures Has(out, c) {
      CoalescedPrefixSaysTheSame(p, a, s, c);
    }
    CoalescedIsUnique(p + s, out, Coalesce(p + s));
  }
}
