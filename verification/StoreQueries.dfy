/**
 Store queries, and their two translations: an SQL predicate with positional
 parameters (crates/prose-store/src/driver/sqlite.rs:993-1177) and an IndexedDB key
 range (crates/prose-store/src/driver/indexed_db.rs:528-664).
 */
module StoreQueries {
  import opened Basics
  import opened StoreKeys

  datatype Bound<+T> = Included(value: T) | Excluded(value: T) | Unbounded
  datatype Query<+T> = All | Range(start: Bound<T>, end: Bound<T>) | Only(value: T)

  // ---- SQL predicates ----

  datatype Op = Eq | Ne | Lt | Le | Gt | Ge

  /** A comparison of a column with the next placeholder, or a parenthesised conjunction. */
  datatype Predicate = Compare(column: string, op: Op) | Both(left: Predicate, right: Predicate)

  /** The clause for one column, `None` standing for empty text, and the parameters it binds. */
  function IntoWhereClause(q: Query<RawKey>, column: string): (Option<Predicate>, seq<RawKey>) {
    match q
    case All => (None, [])
    case Only(value) => (Some(Compare(column, Eq)), [value])
    case Range(Included(s), Included(e)) => (Some(Both(Compare(column, Ge), Compare(column, Le))), [s, e])
    case Range(Included(s), Excluded(e)) =>
      if s == e then (Some(Compare(column, Eq)), [s])
      else (Some(Both(Compare(column, Ge), Compare(column, Lt))), [s, e])
    case Range(Included(s), Unbounded) => (Some(Compare(column, Ge)), [s])
    case Range(Excluded(s), Included(e)) =>
      if s == e then (Some(Compare(column, Eq)), [s])
      else (Some(Both(Compare(column, Gt), Compare(column, Le))), [s, e])
    case Range(Excluded(s), Excluded(e)) =>
      if s == e then (Some(Compare(column, Ne)), [s])
      else (Some(Both(Compare(column, Gt), Compare(column, Lt))), [s, e])
    case Range(Excluded(s), Unbounded) => (Some(Compare(column, Gt)), [s])
    case Range(Unbounded, Included(e)) => (Some(Compare(column, Le)), [e])
    case Range(Unbounded, Excluded(e)) => (Some(Compare(column, Lt)), [e])
    case Range(Unbounded, Unbounded) => (None, [])
  }

  /** The part of a query that concerns column `i`. */
  function Spread(b: Bound<KeyTuple>, i: nat): Bound<RawKey>
    requires !b.Unbounded? ==> i < |b.value|
  {
    match b
    case Included(t) => Included(t[i])
    case Excluded(t) => Excluded(t[i])
    case Unbounded => Unbounded
  }

  predicate Sized(b: Bound<KeyTuple>, n: nat) { b.Unbounded? || |b.value| == n }

  /** The conjuncts of the compiled predicate and their parameters; an empty list compiles to no WHERE at all. */
  datatype Compiled = Compiled(conjuncts: seq<Predicate>, params: seq<RawKey>)

  /** The clauses of columns `0..n`, folded column by column. */
  function RangeClauses(start: Bound<KeyTuple>, end: Bound<KeyTuple>, columns: seq<string>, n: nat): Compiled
    requires n <= |columns| && Sized(start, |columns|) && Sized(end, |columns|)
  {
    if n == 0 then Compiled([], [])
    else
      AddClause(RangeClauses(start, end, columns, n - 1),
                IntoWhereClause(Range(Spread(start, n - 1), Spread(end, n - 1)), columns[n - 1]))
  }

  /** An empty clause is left out, together with its parameters. */
  function AddClause(done: Compiled, clause: (Option<Predicate>, seq<RawKey>)): Compiled {
    if clause.0.None? then done else Compiled(done.conjuncts + [clause.0.value], done.params + clause.1)
  }

  function OnlyClauses(key: KeyTuple, columns: seq<string>, n: nat): Compiled
    requires n <= |columns| && n <= |key|
  {
    if n == 0 then Compiled([], [])
    else
      AddClause(OnlyClauses(key, columns, n - 1), IntoWhereClause(Only(key[n - 1]), columns[n - 1]))
  }

  function Min(a: nat, b: nat): nat { if a < b then a else b }

  /** `None` stands for the failed length assertions on ranges; `Only` pairs up as many columns as it has keys. */
  function IntoSqlPredicate(q: Query<KeyTuple>, columns: seq<string>): Option<Compiled> {
    match q
    case All => Some(Compiled([], []))
    case Only(key) => Some(OnlyClauses(key, columns, Min(|key|, |columns|)))
    case Range(start, end) =>
      if Sized(start, 0) && Sized(end, 0) then Some(Compiled([], []))
      else if !Sized(start, |columns|) || !Sized(end, |columns|) then None
      else Some(RangeClauses(start, end, columns, |columns|))
  }

  /** The fold over `zip(zip(start, end), columns)` that builds predicates and parameters side by side. */
  method CompileRange(start: Bound<KeyTuple>, end: Bound<KeyTuple>, columns: seq<string>) returns (c: Compiled)
    requires Sized(start, |columns|) && Sized(end, |columns|)
    ensures c == RangeClauses(start, end, columns, |columns|)
  {
    var predicates, params := [], [];
    for i := 0 to |columns|
      invariant Compiled(predicates, params) == RangeClauses(start, end, columns, i)
    {
      var (clause, more) := IntoWhereClause(Range(Spread(start, i), Spread(end, i)), columns[i]);
      if !clause.None? {
        predicates := predicates + [clause.value];
        params := params + more;
      }
    }
    c := Compiled(predicates, params);
  }

  // ---- Running a predicate: placeholders take the parameters from left to right ----

  function Placeholders(p: Predicate): nat {
    match p
    case Compare(_, _) => 1
    case Both(l, r) => Placeholders(l) + Placeholders(r)
  }

  predicate Test(op: Op, k: RawKey, p: RawKey) {
    match op
    case Eq => k == p
    case Ne => k != p
    case Lt => Less(k, p)
    case Le => AtMost(k, p)
    case Gt => Less(p, k)
    case Ge => AtMost(p, k)
  }

  type Row = map<string, RawKey>

  predicate Covers(row: Row, p: Predicate) {
    match p
    case Compare(c, _) => c in row
    case Both(l, r) => Covers(row, l) && Covers(row, r)
  }

  /** `p` holds of `row` with `params` bound to its placeholders in order. */
  predicate Holds(p: Predicate, row: Row, params: seq<RawKey>)
    requires Covers(row, p) && |params| == Placeholders(p)
  {
    match p
    case Compare(c, op) => Test(op, row[c], params[0])
    case Both(l, r) => Holds(l, row, params[..Placeholders(l)]) && Holds(r, row, params[Placeholders(l)..])
  }

  function TotalPlaceholders(ps: seq<Predicate>): nat {
    if ps == [] then 0 else TotalPlaceholders(ps[..|ps| - 1]) + Placeholders(ps[|ps| - 1])
  }

  /** The conjuncts joined by AND; the last one takes the last parameters. */
  ghost predicate AllHold(ps: seq<Predicate>, row: Row, params: seq<RawKey>)
    requires |params| == TotalPlaceholders(ps) && forall i :: 0 <= i < |ps| ==> Covers(row, ps[i])
  {
    ps == [] ||
    (var last := ps[|ps| - 1];
     var m := |params| - Placeholders(last);
     AllHold(ps[..|ps| - 1], row, params[..m]) && Holds(last, row, params[m..]))
  }

  /** A compiled query binds every placeholder and accepts `row`. */
  ghost predicate Accepts(c: Compiled, row: Row) {
    && |c.params| == TotalPlaceholders(c.conjuncts)
    && (forall i :: 0 <= i < |c.conjuncts| ==> Covers(row, c.conjuncts[i]))
    && AllHold(c.conjuncts, row, c.params)
  }

  // ---- What a single column admits ----

  predicate InInterval(start: Bound<RawKey>, end: Bound<RawKey>, k: RawKey) {
    && (match start case Included(s) => AtMost(s, k) case Excluded(s) => Less(s, k) case Unbounded => true)
    && (match end case Included(e) => AtMost(k, e) case Excluded(e) => Less(k, e) case Unbounded => true)
  }

  /** Both ends are the same key, and at least one of them is excluded. */
  predicate Degenerate(start: Bound<RawKey>, end: Bound<RawKey>) {
    && !start.Unbounded? && !end.Unbounded? && start.value == end.value && (start.Excluded? || end.Excluded?)
  }

  /** What the compiled clause admits: the interval, except that degenerate ranges test for (in)equality. */
  predicate Admits(start: Bound<RawKey>, end: Bound<RawKey>, k: RawKey) {
    if Degenerate(start, end) then
      if start.Excluded? && end.Excluded? then k != start.value else k == start.value
    else InInterval(start, end, k)
  }

  lemma ClauseAdmits(start: Bound<RawKey>, end: Bound<RawKey>, column: string, row: Row)
    requires column in row
    ensures var (clause, params) := IntoWhereClause(Range(start, end), column);
            && (clause.None? <==> start.Unbounded? && end.Unbounded?)
            && (clause.None? ==> params == [])
            && (clause.Some? ==>
                  && Covers(row, clause.value) && |params| == Placeholders(clause.value)
                  && (Holds(clause.value, row, params) <==> Admits(start, end, row[column])))
  {
  }

  /**
   A column clause means its interval exactly when the interval is not degenerate:
   an equal-ended range with an excluded end should admit nothing, and admits its
   end, or everything but it.
   */
  lemma ClauseMeansInterval(start: Bound<RawKey>, end: Bound<RawKey>)
    ensures (forall k :: Admits(start, end, k) <==> InInterval(start, end, k)) <==> !Degenerate(start, end)
  {
    if Degenerate(start, end) {
      var s := start.value;
      OrderIsTotal(s, s);
      AboveIsAbove(s);
      OrderIsTotal(s, Above(s));
      var k := if start.Excluded? && end.Excluded? then Above(s) else s;
      assert Admits(start, end, k) && !InInterval(start, end, k);
    }
  }

  // ---- What the whole predicate admits ----

  ghost predicate OnRow(row: Row, columns: seq<string>) {
    forall i :: 0 <= i < |columns| ==> columns[i] in row
  }

  /** One parameter per placeholder, and every column mentioned is there. */
  ghost predicate Fits(c: Compiled, row: Row) {
    |c.params| == TotalPlaceholders(c.conjuncts) && forall i :: 0 <= i < |c.conjuncts| ==> Covers(row, c.conjuncts[i])
  }

  lemma ConjunctsAppend(ps: seq<Predicate>, p: Predicate)
    ensures (ps + [p])[..|ps + [p]| - 1] == ps && (ps + [p])[|ps + [p]| - 1] == p
    ensures TotalPlaceholders(ps + [p]) == TotalPlaceholders(ps) + Placeholders(p)
  {
    assert (ps + [p])[..|ps|] == ps;
  }

  lemma AppendFits(c: Compiled, clause: Predicate, params: seq<RawKey>, row: Row)
    requires Fits(c, row) && Covers(row, clause) && |params| == Placeholders(clause)
    ensures Fits(Compiled(c.conjuncts + [clause], c.params + params), row)
  {
    ConjunctsAppend(c.conjuncts, clause);
  }

  lemma AppendClause(c: Compiled, clause: Predicate, params: seq<RawKey>, row: Row)
    requires Fits(c, row) && Covers(row, clause) && |params| == Placeholders(clause)
    ensures var d := Compiled(c.conjuncts + [clause], c.params + params);
            Fits(d, row) && (Accepts(d, row) <==> Accepts(c, row) && Holds(clause, row, params))
  {
    AppendFits(c, clause, params, row);
    var d := Compiled(c.conjuncts + [clause], c.params + params);
    ConjunctsAppend(c.conjuncts, clause);
    var m := |d.params| - Placeholders(clause);
    assert d.params[..m] == c.params && d.params[m..] == params;
    assert AllHold(d.conjuncts, row, d.params) <==> AllHold(c.conjuncts, row, c.params) && Holds(clause, row, params);
  }

  lemma AddedClauseAdmits(c: Compiled, start: Bound<RawKey>, end: Bound<RawKey>, column: string, row: Row)
    requires Fits(c, row) && column in row
    ensures var d := AddClause(c, IntoWhereClause(Range(start, end), column));
            Fits(d, row) && (Accepts(d, row) <==> Accepts(c, row) && Admits(start, end, row[column]))
  {
    ClauseAdmits(start, end, column, row);
    var (clause, params) := IntoWhereClause(Range(start, end), column);
    if clause.Some? {
      AppendClause(c, clause.value, params, row);
    }
  }

  ghost predicate ColumnsAdmit(start: Bound<KeyTuple>, end: Bound<KeyTuple>, columns: seq<string>, row: Row, n: nat)
    requires n <= |columns| && Sized(start, |columns|) && Sized(end, |columns|) && OnRow(row, columns)
  {
    forall i :: 0 <= i < n ==> Admits(Spread(start, i), Spread(end, i), row[columns[i]])
  }

  lemma OneMoreColumn(start: Bound<KeyTuple>, end: Bound<KeyTuple>, columns: seq<string>, row: Row, n: nat)
    requires 0 < n <= |columns| && Sized(start, |columns|) && Sized(end, |columns|) && OnRow(row, columns)
    ensures ColumnsAdmit(start, end, columns, row, n) <==>
            && ColumnsAdmit(start, end, columns, row, n - 1)
            && Admits(Spread(start, n - 1), Spread(end, n - 1), row[columns[n - 1]])
  {
  }

  lemma {:induction false} RangeClausesAdmit(
      start: Bound<KeyTuple>, end: Bound<KeyTuple>, columns: seq<string>, n: nat, row: Row)
    requires n <= |columns| && Sized(start, |columns|) && Sized(end, |columns|) && OnRow(row, columns)
    ensures var c := RangeClauses(start, end, columns, n);
            Fits(c, row) && (Accepts(c, row) <==> ColumnsAdmit(start, end, columns, row, n))
  {
    if n > 0 {
      RangeClausesAdmit(start, end, columns, n - 1, row);
      AddedClauseAdmits(RangeClauses(start, end, columns, n - 1), Spread(start, n - 1), Spread(end, n - 1),
          columns[n - 1], row);
      OneMoreColumn(start, end, columns, row, n);
    }
  }

  lemma {:induction false} OnlyClausesAdmit(key: KeyTuple, columns: seq<string>, n: nat, row: Row)
    requires n <= |columns| && n <= |key| && OnRow(row, columns)
    ensures var c := OnlyClauses(key, columns, n);
            Fits(c, row) && (Accepts(c, row) <==> forall i :: 0 <= i < n ==> row[columns[i]] == key[i])
  {
    if n > 0 {
      OnlyClausesAdmit(key, columns, n - 1, row);
      AppendClause(OnlyClauses(key, columns, n - 1), Compare(columns[n - 1], Eq), [key[n - 1]], row);
    }
  }

  /** The queries a collection with `n` key columns accepts. */
  predicate Matching(q: Query<KeyTuple>, n: nat) {
    match q
    case All => true
    case Only(key) => |key| == n
    case Range(start, end) => Sized(start, n) && Sized(end, n)
  }

  /** What the query asks of a key, column by column, as SQLite reads it. */
  ghost predicate SqlAdmits(q: Query<KeyTuple>, key: KeyTuple)
    requires Matching(q, |key|)
  {
    match q
    case All => true
    case Only(k) => key == k
    case Range(start, end) => forall i :: 0 <= i < |key| ==> Admits(Spread(start, i), Spread(end, i), key[i])
  }

  ghost function KeyOf(row: Row, columns: seq<string>): (key: KeyTuple)
    requires OnRow(row, columns)
    ensures |key| == |columns| && forall i :: 0 <= i < |columns| ==> key[i] == row[columns[i]]
  {
    seq(|columns|, i requires 0 <= i < |columns| => row[columns[i]])
  }

  /**
   For every query of matching length the predicate has one parameter per
   placeholder, and with them bound in order it holds of exactly the rows whose key
   the query admits column by column.
   */
  lemma CompiledPredicateIsExact(q: Query<KeyTuple>, columns: seq<string>, row: Row)
    requires Matching(q, |columns|) && OnRow(row, columns)
    ensures var c := IntoSqlPredicate(q, columns);
            && c.Some? && |c.value.params| == TotalPlaceholders(c.value.conjuncts)
            && (Accepts(c.value, row) <==> SqlAdmits(q, KeyOf(row, columns)))
  {
    var key := KeyOf(row, columns);
    match q
    case All =>
    case Only(k) =>
      OnlyClausesAdmit(k, columns, |columns|, row);
    case Range(start, end) =>
      if start.Unbounded? && end.Unbounded? {
      } else {
        RangeClausesAdmit(start, end, columns, |columns|, row);
      }
  }

  /** A single key of any length constrains as many columns as it has values, and never fails. */
  lemma OnlyConstrainsPrefix(key: KeyTuple, columns: seq<string>, row: Row)
    requires OnRow(row, columns)
    ensures var c := IntoSqlPredicate(Only(key), columns);
            c.Some? && (Accepts(c.value, row) <==>
                        forall i :: 0 <= i < |key| && i < |columns| ==> row[columns[i]] == key[i])
  {
    OnlyClausesAdmit(key, columns, Min(|key|, |columns|), row);
  }

  /** The queries whose length does not match panic, with two exceptions: single keys, and ranges of nothing. */
  lemma RefusedExactly(q: Query<KeyTuple>, columns: seq<string>)
    ensures IntoSqlPredicate(q, columns).None? <==>
            !Matching(q, |columns|) && !q.Only? && !(Sized(q.start, 0) && Sized(q.end, 0))
  {
  }
}
