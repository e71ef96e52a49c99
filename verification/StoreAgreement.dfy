/**
 When do the two drivers select the same rows? SQLite tests the columns of a range
 one by one, IndexedDB compares whole key arrays. This module gives the exact answer
 for every query.
 */
module StoreAgreement {
  import opened Basics
  import opened StoreKeys
  import opened StoreQueries

  // ---- IndexedDB keys and key ranges ----

  datatype IdbKey = Scalar(key: RawKey) | Array(keys: KeyTuple)

  function ToIdbKey(t: KeyTuple): IdbKey { if |t| == 1 then Scalar(t[0]) else Array(t) }

  /** Arrays come after all other keys. */
  predicate IdbLess(a: IdbKey, b: IdbKey) {
    match (a, b)
    case (Scalar(x), Scalar(y)) => Less(x, y)
    case (Scalar(_), Array(_)) => true
    case (Array(_), Scalar(_)) => false
    case (Array(x), Array(y)) => LexLess(x, y)
  }

  datatype KeyRange = KeyRange(lower: Option<IdbKey>, lowerOpen: bool, upper: Option<IdbKey>, upperOpen: bool)

  predicate Includes(r: KeyRange, k: IdbKey) {
    && (r.lower.Some? ==> IdbLess(r.lower.value, k) || (!r.lowerOpen && r.lower.value == k))
    && (r.upper.Some? ==> IdbLess(k, r.upper.value) || (!r.upperOpen && r.upper.value == k))
  }

  datatype RangeError = InvalidRange

  /** `IDBKeyRange.bound` refuses ends in the wrong order, and equal ends unless both are closed. */
  function BoundRange(lower: IdbKey, upper: IdbKey, lowerOpen: bool, upperOpen: bool): Result<KeyRange, RangeError> {
    if IdbLess(upper, lower) || (lower == upper && (lowerOpen || upperOpen)) then Err(InvalidRange)
    else Ok(KeyRange(Some(lower), lowerOpen, Some(upper), upperOpen))
  }

  /** The key range of a query; no range at all selects every row. */
  function IntoKeyRange(q: Query<KeyTuple>): Result<Option<KeyRange>, RangeError> {
    match q
    case All => Ok(None)
    case Only(t) => Ok(Some(KeyRange(Some(ToIdbKey(t)), false, Some(ToIdbKey(t)), false)))
    case Range(Unbounded, Unbounded) => Ok(None)
    case Range(Included(s), Unbounded) => Ok(Some(KeyRange(Some(ToIdbKey(s)), false, None, false)))
    case Range(Excluded(s), Unbounded) => Ok(Some(KeyRange(Some(ToIdbKey(s)), true, None, false)))
    case Range(Unbounded, Included(e)) => Ok(Some(KeyRange(None, false, Some(ToIdbKey(e)), false)))
    case Range(Unbounded, Excluded(e)) => Ok(Some(KeyRange(None, false, Some(ToIdbKey(e)), true)))
    case Range(start, end) =>
      match BoundRange(ToIdbKey(start.value), ToIdbKey(end.value), start.Excluded?, end.Excluded?)
      case Err(e) => Err(e)
      case Ok(r) => Ok(Some(r))
  }

  /** What the query asks of a key, as IndexedDB reads it. */
  predicate IdbAdmits(q: Query<KeyTuple>, key: KeyTuple)
    requires IntoKeyRange(q).Ok?
  {
    var r := IntoKeyRange(q).value;
    r.Some? ==> Includes(r.value, ToIdbKey(key))
  }

  /** Both drivers accept the query and select the same keys. */
  ghost predicate DriversAgree(q: Query<KeyTuple>, n: nat)
    requires Matching(q, n)
  {
    IntoKeyRange(q).Ok? && forall key: KeyTuple :: |key| == n ==> (SqlAdmits(q, key) <==> IdbAdmits(q, key))
  }

  // ---- The condition under which they do ----

  predicate SameButLast(s: KeyTuple, e: KeyTuple)
    requires |s| == |e| > 0
  {
    s[..|s| - 1] == e[..|e| - 1]
  }

  ghost predicate Adjacent(a: RawKey, b: RawKey) { Less(a, b) && forall k :: !(Less(a, k) && Less(k, b)) }

  predicate AllLeast(t: KeyTuple) { forall i :: 0 <= i < |t| ==> t[i] == LEAST }

  /**
   Two-sided ranges may only vary in the last column and have to be in order there;
   with both ends excluded, only single-column ranges and empty ones qualify.
   One-sided composite ranges qualify only next to the least key.
   */
  ghost predicate Portable(q: Query<KeyTuple>, n: nat)
    requires n > 0 && Matching(q, n)
  {
    match q
    case All => true
    case Only(_) => true
    case Range(Unbounded, Unbounded) => true
    case Range(Included(s), Unbounded) => AllLeast(s[1..])
    case Range(Excluded(s), Unbounded) => n == 1
    case Range(Unbounded, Included(e)) => AllLeast(e[..n - 1])
    case Range(Unbounded, Excluded(e)) => n == 1 || AllLeast(e)
    case Range(Included(s), Included(e)) => SameButLast(s, e) && AtMost(s[n - 1], e[n - 1])
    case Range(Excluded(s), Excluded(e)) =>
      SameButLast(s, e) && (if n == 1 then Less(s[0], e[0]) else Adjacent(s[n - 1], e[n - 1]))
    case Range(start, end) => SameButLast(start.value, end.value) && Less(start.value[n - 1], end.value[n - 1])
  }

  // ---- Comparing keys of one length ----

  lemma IdbOrderIsLex(a: KeyTuple, b: KeyTuple)
    requires |a| == |b| > 0
    ensures IdbLess(ToIdbKey(a), ToIdbKey(b)) <==> LexLess(a, b)
    ensures ToIdbKey(a) == ToIdbKey(b) <==> a == b
  {
    if |a| == 1 {
      assert a == [a[0]] && b == [b[0]];
      if a[0] == b[0] {
        OrderIsTotal(a[0], b[0]);
        LexSame(a);
      } else {
        LexByFirstDifference(a, b, 0);
      }
    }
  }

  lemma LexIsTotal(a: KeyTuple, b: KeyTuple)
    requires |a| == |b|
    ensures LexLess(a, b) || a == b || LexLess(b, a)
    ensures !(LexLess(a, b) && LexLess(b, a)) && (a == b ==> !LexLess(a, b))
  {
    var k := FirstDiff(a, b);
    if k < |a| {
      OrderIsTotal(a[k], b[k]);
      LexByFirstDifference(a, b, k);
      LexByFirstDifference(b, a, k);
    } else {
      assert a == b;
      LexSame(a);
    }
  }

  /** The interval IndexedDB selects, said with tuples. */
  ghost predicate InLexInterval(start: Bound<KeyTuple>, end: Bound<KeyTuple>, key: KeyTuple) {
    && (match start case Included(s) => LexAtMost(s, key) case Excluded(s) => LexLess(s, key) case Unbounded => true)
    && (match end case Included(e) => LexAtMost(key, e) case Excluded(e) => LexLess(key, e) case Unbounded => true)
  }

  ghost predicate Backwards(start: Bound<KeyTuple>, end: Bound<KeyTuple>) {
    && !start.Unbounded? && !end.Unbounded?
    && (LexLess(end.value, start.value) || (start.value == end.value && (start.Excluded? || end.Excluded?)))
  }

  lemma KeyRangeIsLexInterval(start: Bound<KeyTuple>, end: Bound<KeyTuple>, n: nat)
    requires n > 0 && Sized(start, n) && Sized(end, n)
    ensures IntoKeyRange(Range(start, end)).Ok? <==> !Backwards(start, end)
    ensures !Backwards(start, end) ==>
              forall key: KeyTuple :: |key| == n ==>
                (IdbAdmits(Range(start, end), key) <==> InLexInterval(start, end, key))
  {
    if !start.Unbounded? && !end.Unbounded? { IdbOrderIsLex(end.value, start.value); }
    if !Backwards(start, end) {
      forall key: KeyTuple | |key| == n
        ensures IdbAdmits(Range(start, end), key) <==> InLexInterval(start, end, key)
      {
        if !start.Unbounded? { IdbOrderIsLex(start.value, key); }
        if !end.Unbounded? { IdbOrderIsLex(key, end.value); }
      }
    }
  }

  // ---- Two-sided ranges ----

  ghost predicate SqlIn(start: Bound<KeyTuple>, end: Bound<KeyTuple>, key: KeyTuple)
    requires Sized(start, |key|) && Sized(end, |key|)
  {
    forall i :: 0 <= i < |key| ==> Admits(Spread(start, i), Spread(end, i), key[i])
  }

  ghost predicate Same(start: Bound<KeyTuple>, end: Bound<KeyTuple>, n: nat)
    requires Sized(start, n) && Sized(end, n)
  {
    forall key: KeyTuple :: |key| == n ==> (SqlIn(start, end, key) <==> InLexInterval(start, end, key))
  }

  /** `key` separates the drivers. */
  lemma Separates(start: Bound<KeyTuple>, end: Bound<KeyTuple>, key: KeyTuple)
    requires Sized(start, |key|) && Sized(end, |key|)
    requires SqlIn(start, end, key) != InLexInterval(start, end, key)
    ensures !Same(start, end, |key|)
  {
  }

  predicate TwoSided(start: Bound<KeyTuple>, end: Bound<KeyTuple>, n: nat) {
    !start.Unbounded? && !end.Unbounded? && |start.value| == |end.value| == n
  }

  /** A column whose ends coincide pins the key, unless both ends are excluded. */
  lemma PinnedColumn(start: Bound<RawKey>, end: Bound<RawKey>, k: RawKey)
    requires !start.Unbounded? && !end.Unbounded? && start.value == end.value && !(start.Excluded? && end.Excluded?)
    ensures Admits(start, end, k) <==> k == start.value
  {
    OrderIsTotal(start.value, k);
  }

  /** Outside the common prefix of its ends, an interval is empty. */
  lemma OffPrefix(start: Bound<KeyTuple>, end: Bound<KeyTuple>, key: KeyTuple, i: nat)
    requires TwoSided(start, end, |key|) && i < |key|
    requires (forall j :: 0 <= j < i ==> start.value[j] == end.value[j] == key[j])
    requires start.value[i] == end.value[i] != key[i]
    ensures !InLexInterval(start, end, key)
  {
    LexByFirstDifference(start.value, key, i);
    LexByFirstDifference(key, end.value, i);
    OrderIsTotal(start.value[i], key[i]);
  }

  /** On the common prefix, the last column decides. */
  lemma OnPrefix(start: Bound<KeyTuple>, end: Bound<KeyTuple>, key: KeyTuple)
    requires |key| > 0 && TwoSided(start, end, |key|)
    requires forall j :: 0 <= j < |key| - 1 ==> start.value[j] == end.value[j] == key[j]
    ensures var m := |key| - 1; InLexInterval(start, end, key) <==> InInterval(Spread(start, m), Spread(end, m), key[m])
  {
    var m, s, e := |key| - 1, start.value, end.value;
    LastColumnDecides(s, key);
    LastColumnDecides(key, e);
  }

  lemma LastColumnDecides(a: KeyTuple, b: KeyTuple)
    requires |a| == |b| > 0 && forall j :: 0 <= j < |a| - 1 ==> a[j] == b[j]
    ensures var m := |a| - 1; (LexLess(a, b) <==> Less(a[m], b[m])) && (a == b <==> a[m] == b[m])
  {
    var m := |a| - 1;
    if a[m] != b[m] {
      LexByFirstDifference(a, b, m);
    } else {
      assert a == b;
      LexSame(a);
      OrderIsTotal(a[m], b[m]);
    }
  }

  lemma SameButLastPointwise(s: KeyTuple, e: KeyTuple)
    requires |s| == |e| > 0
    ensures SameButLast(s, e) <==> forall j :: 0 <= j < |s| - 1 ==> s[j] == e[j]
  {
    var m := |s| - 1;
    if SameButLast(s, e) {
      forall j | 0 <= j < m ensures s[j] == e[j] { assert s[..m][j] == e[..m][j]; }
    }
  }

  /** Where the first column that leaves the common prefix is, if any. */
  lemma LeavesPrefix(s: KeyTuple, key: KeyTuple) returns (i: nat)
    requires |s| == |key| > 0
    ensures i < |key| && (forall j :: 0 <= j < i ==> s[j] == key[j])
    ensures i < |key| - 1 ==> s[i] != key[i]
  {
    i := FirstDiff(s, key);
    if i == |key| { i := |key| - 1; }
  }

  lemma LastColumnRangesAgree(start: Bound<KeyTuple>, end: Bound<KeyTuple>, n: nat)
    requires n > 0 && TwoSided(start, end, n) && SameButLast(start.value, end.value)
    requires !Degenerate(Spread(start, n - 1), Spread(end, n - 1))
    requires !(start.Excluded? && end.Excluded?) || n == 1
    ensures Same(start, end, n)
  {
    SameButLastPointwise(start.value, end.value);
    forall key: KeyTuple | |key| == n ensures SqlIn(start, end, key) <==> InLexInterval(start, end, key) {
      var i := LeavesPrefix(start.value, key);
      if i < n - 1 {
        OffPrefix(start, end, key, i);
        PinnedColumn(Spread(start, i), Spread(end, i), key[i]);
      } else {
        OnPrefix(start, end, key);
        forall j | 0 <= j < n - 1 ensures Admits(Spread(start, j), Spread(end, j), key[j]) {
          PinnedColumn(Spread(start, j), Spread(end, j), key[j]);
        }
      }
    }
  }

  /** Ends that part before the last column enclose keys that no column-wise test can single out. */
  lemma EarlyRangesDisagree(start: Bound<KeyTuple>, end: Bound<KeyTuple>, n: nat, k: nat)
    requires TwoSided(start, end, n) && k < n - 1
    requires (forall j :: 0 <= j < k ==> start.value[j] == end.value[j]) && Less(start.value[k], end.value[k])
    ensures !Same(start, end, n)
  {
    var s, e := start.value, end.value;
    var top := if Less(s[k + 1], e[k + 1]) then e[k + 1] else s[k + 1];
    var key := s[k + 1 := Above(top)];
    AboveIsAbove(top);
    OrderIsTotal(s[k + 1], e[k + 1]);
    if top != s[k + 1] { OrderIsTransitive(s[k + 1], top, Above(top)); }
    if top != e[k + 1] { OrderIsTransitive(e[k + 1], top, Above(top)); }
    OrderIsTotal(s[k], e[k]);
    OrderIsTotal(s[k + 1], Above(top));
    OrderIsTotal(e[k + 1], Above(top));
    LexByFirstDifference(s, key, k + 1);
    LexByFirstDifference(key, e, k);
    assert InLexInterval(start, end, key);
    var c := if start.Excluded? then k else k + 1;
    assert !Admits(Spread(start, c), Spread(end, c), key[c]);
    Separates(start, end, key);
  }

  /** With both ends of a composite range excluded, the pinned columns have to differ instead. */
  lemma OpenRangesAgreeOnlyWhenEmpty(start: Bound<KeyTuple>, end: Bound<KeyTuple>, n: nat)
    requires n > 1 && TwoSided(start, end, n) && start.Excluded? && end.Excluded?
    requires SameButLast(start.value, end.value) && Less(start.value[n - 1], end.value[n - 1])
    ensures Same(start, end, n) <==> Adjacent(start.value[n - 1], end.value[n - 1])
  {
    var s, e, m := start.value, end.value, n - 1;
    SameButLastPointwise(s, e);
    OrderIsTotal(s[m], e[m]);
    if Adjacent(s[m], e[m]) {
      forall key: KeyTuple | |key| == n ensures SqlIn(start, end, key) <==> InLexInterval(start, end, key) {
        assert !Admits(Spread(start, m), Spread(end, m), key[m]);
        var i := LeavesPrefix(s, key);
        if i < m { OffPrefix(start, end, key, i); } else { OnPrefix(start, end, key); }
      }
    } else {
      var between :| Less(s[m], between) && Less(between, e[m]);
      var key := s[m := between];
      OnPrefix(start, end, key);
      assert !Admits(Spread(start, 0), Spread(end, 0), key[0]);
      Separates(start, end, key);
    }
  }

  lemma TwoSidedExact(start: Bound<KeyTuple>, end: Bound<KeyTuple>, n: nat)
    requires n > 0 && TwoSided(start, end, n)
    ensures Portable(Range(start, end), n) <==> !Backwards(start, end) && Same(start, end, n)
  {
    var s, e, m := start.value, end.value, n - 1;
    SameButLastPointwise(s, e);
    LexIsTotal(s, e);
    OrderIsTotal(s[m], e[m]);
    if SameButLast(s, e) {
      LastColumnDecides(s, e);
      LastColumnDecides(e, s);
      if start.Excluded? && end.Excluded? && n > 1 {
        if Less(s[m], e[m]) { OpenRangesAgreeOnlyWhenEmpty(start, end, n); }
      } else if !Degenerate(Spread(start, m), Spread(end, m)) {
        LastColumnRangesAgree(start, end, n);
      }
    } else if LexLess(s, e) {
      EarlyRangesDisagree(start, end, n, FirstDiff(s, e));
    }
  }

  // ---- One-sided ranges ----

  lemma FromOnwardsExact(s: KeyTuple, n: nat)
    requires |s| == n > 0
    ensures Same(Included(s), Unbounded, n) <==> AllLeast(s[1..])
  {
    if AllLeast(s[1..]) {
      forall key: KeyTuple | |key| == n
        ensures SqlIn(Included(s), Unbounded, key) <==> InLexInterval(Included(s), Unbounded, key)
      {
        forall i | 0 < i < n ensures s[i] == LEAST && AtMost(s[i], key[i]) {
          assert s[i] == s[1..][i - 1];
          LeastIsLeast(key[i]);
        }
        FirstColumnDecides(s, key);
      }
    } else {
      var i :| 0 <= i < |s[1..]| && s[1..][i] != LEAST;
      var key := s[0 := Above(s[0])][i + 1 := LEAST];
      AboveIsAbove(s[0]);
      LeastIsLeast(s[i + 1]);
      OrderIsTotal(s[0], Above(s[0]));
      OrderIsTotal(s[i + 1], LEAST);
      LexByFirstDifference(s, key, 0);
      assert !Admits(Included(s[i + 1]), Unbounded, key[i + 1]);
      Separates(Included(s), Unbounded, key);
    }
  }

  lemma FirstColumnDecides(s: KeyTuple, key: KeyTuple)
    requires |s| == |key| > 0 && forall i :: 0 < i < |s| ==> AtMost(s[i], key[i])
    ensures LexAtMost(s, key) <==> AtMost(s[0], key[0])
  {
    var k := FirstDiff(s, key);
    if k < |s| {
      LexByFirstDifference(s, key, k);
      OrderIsTotal(s[k], key[k]);
    } else {
      assert s == key;
    }
  }

  lemma AfterExact(s: KeyTuple, n: nat)
    requires |s| == n > 0
    ensures Same(Excluded(s), Unbounded, n) <==> n == 1
  {
    if n == 1 {
      forall key: KeyTuple | |key| == n
        ensures SqlIn(Excluded(s), Unbounded, key) <==> InLexInterval(Excluded(s), Unbounded, key)
      {
        LastColumnDecides(s, key);
      }
    } else {
      var key := s[1 := Above(s[1])];
      AboveIsAbove(s[1]);
      OrderIsTotal(s[1], Above(s[1]));
      OrderIsTotal(s[0], s[0]);
      LexByFirstDifference(s, key, 1);
      assert !Admits(Excluded(s[0]), Unbounded, key[0]);
      Separates(Excluded(s), Unbounded, key);
    }
  }

  lemma UpToExact(e: KeyTuple, n: nat)
    requires |e| == n > 0
    ensures Same(Unbounded, Included(e), n) <==> AllLeast(e[..n - 1])
  {
    if AllLeast(e[..n - 1]) {
      forall key: KeyTuple | |key| == n
        ensures SqlIn(Unbounded, Included(e), key) <==> InLexInterval(Unbounded, Included(e), key)
      {
        LeastPrefixDecides(e, key);
      }
    } else {
      var i :| 0 <= i < |e[..n - 1]| && e[..n - 1][i] != LEAST;
      var key := e[i := LEAST][i + 1 := Above(e[i + 1])];
      AboveIsAbove(e[i + 1]);
      LeastIsLeast(e[i]);
      OrderIsTotal(e[i + 1], Above(e[i + 1]));
      OrderIsTotal(e[i], LEAST);
      LexByFirstDifference(key, e, i);
      assert !Admits(Unbounded, Included(e[i + 1]), key[i + 1]);
      Separates(Unbounded, Included(e), key);
    }
  }

  lemma LeastPrefixDecides(e: KeyTuple, key: KeyTuple)
    requires |e| == |key| > 0 && AllLeast(e[..|e| - 1])
    ensures LexAtMost(key, e) <==> forall i :: 0 <= i < |e| ==> AtMost(key[i], e[i])
  {
    var m := |e| - 1;
    forall i | 0 <= i < m ensures AtMost(key[i], e[i]) <==> key[i] == e[i] {
      assert e[i] == e[..m][i];
      LeastIsLeast(key[i]);
    }
    var k := FirstDiff(key, e);
    if k < |e| {
      LexByFirstDifference(key, e, k);
      OrderIsTotal(key[k], e[k]);
      if k == m { LastColumnDecides(key, e); }
    } else {
      assert key == e;
    }
  }

  lemma BeforeExact(e: KeyTuple, n: nat)
    requires |e| == n > 0
    ensures Same(Unbounded, Excluded(e), n) <==> n == 1 || AllLeast(e)
  {
    if n == 1 {
      forall key: KeyTuple | |key| == n
        ensures SqlIn(Unbounded, Excluded(e), key) <==> InLexInterval(Unbounded, Excluded(e), key)
      {
        LastColumnDecides(key, e);
      }
    } else if AllLeast(e) {
      forall key: KeyTuple | |key| == n
        ensures SqlIn(Unbounded, Excluded(e), key) <==> InLexInterval(Unbounded, Excluded(e), key)
      {
        LeastIsLeast(key[0]);
        assert !Admits(Unbounded, Excluded(e[0]), key[0]);
        var k := FirstDiff(key, e);
        if k < n {
          LexByFirstDifference(key, e, k);
          LeastIsLeast(key[k]);
        } else {
          assert key == e;
          LexSame(e);
        }
      }
    } else {
      var i :| 0 <= i < n && e[i] != LEAST;
      var key := e[i := LEAST];
      LeastIsLeast(e[i]);
      LexByFirstDifference(key, e, i);
      var j := if i == 0 then 1 else 0;
      OrderIsTotal(e[j], e[j]);
      assert !Admits(Unbounded, Excluded(e[j]), key[j]);
      Separates(Unbounded, Excluded(e), key);
    }
  }

  // ---- The answer ----

  lemma RangeExact(start: Bound<KeyTuple>, end: Bound<KeyTuple>, n: nat)
    requires n > 0 && Sized(start, n) && Sized(end, n)
    ensures Portable(Range(start, end), n) <==> !Backwards(start, end) && Same(start, end, n)
  {
    match (start, end)
    case (Unbounded, Unbounded) =>
    case (Included(s), Unbounded) => FromOnwardsExact(s, n);
    case (Excluded(s), Unbounded) => AfterExact(s, n);
    case (Unbounded, Included(e)) => UpToExact(e, n);
    case (Unbounded, Excluded(e)) => BeforeExact(e, n);
    case (_, _) => TwoSidedExact(start, end, n);
  }

  /** Both drivers take the query and select the same keys if and only if the query is portable. */
  lemma DriversAgreeExactly(q: Query<KeyTuple>, n: nat)
    requires n > 0 && Matching(q, n)
    ensures DriversAgree(q, n) <==> Portable(q, n)
  {
    match q
    case All =>
    case Only(t) =>
      forall key: KeyTuple | |key| == n ensures SqlAdmits(q, key) <==> IdbAdmits(q, key) {
        IdbOrderIsLex(t, key);
        IdbOrderIsLex(key, t);
        LexIsTotal(t, key);
      }
    case Range(start, end) =>
      KeyRangeIsLexInterval(start, end, n);
      RangeExact(start, end, n);
      if !Backwards(start, end) {
        assert DriversAgree(q, n) <==> Same(start, end, n);
      }
  }

  /** A range IndexedDB refuses for the order of its ends selects nothing in SQLite. */
  lemma BackwardsRangeIsEmptyInSql(start: Bound<KeyTuple>, end: Bound<KeyTuple>, key: KeyTuple)
    requires TwoSided(start, end, |key|) && LexLess(end.value, start.value)
    ensures IntoKeyRange(Range(start, end)).Err? && !SqlAdmits(Range(start, end), key)
  {
    var k := FirstDiff(end.value, start.value);
    IdbOrderIsLex(end.value, start.value);
    var s, e := start.value[k], end.value[k];
    OrderIsTotal(s, e);
    OrderIsTotal(s, key[k]);
    OrderIsTotal(e, key[k]);
    if AtMost(s, key[k]) && AtMost(key[k], e) && s != key[k] && key[k] != e { OrderIsTransitive(s, key[k], e); }
    assert !Admits(Spread(start, k), Spread(end, k), key[k]);
  }
}
