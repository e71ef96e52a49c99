/**
 Reading and deleting through a query: the early-stopping folds of the two drivers
 (crates/prose-store/src/driver/sqlite.rs:679-741, crates/prose-store/src/driver/indexed_db.rs:306-402)
 and deletion by index (sqlite.rs:821-844, indexed_db.rs:469-496).
 */
module StoreReads {
  import opened Basics
  import opened StoreKeys
  import opened StoreQueries
  import opened StoreAgreement

  /** The results of the rows the filter keeps, in row order. */
  function FilterMap<R, T>(rows: seq<R>, filter: R -> Option<T>): seq<T> {
    if rows == [] then []
    else
      var front, last := FilterMap(rows[..|rows| - 1], filter), filter(rows[|rows| - 1]);
      if last.Some? then front + [last.value] else front
  }

  function First<T>(limit: Option<nat>, xs: seq<T>): seq<T> {
    if limit.Some? && limit.value < |xs| then xs[..limit.value] else xs
  }

  lemma {:induction false} FilterMapAppends<R, T>(a: seq<R>, b: seq<R>, filter: R -> Option<T>)
    ensures FilterMap(a + b, filter) == FilterMap(a, filter) + FilterMap(b, filter)
  {
    if b == [] {
      assert a + b == a;
    } else {
      var front := b[..|b| - 1];
      FilterMapAppends(a, front, filter);
      assert (a + b)[..|a + b| - 1] == a + front;
      var last := filter(b[|b| - 1]);
      if last.Some? {
        assert FilterMap(a, filter) + FilterMap(front, filter) + [last.value] ==
               FilterMap(a, filter) + (FilterMap(front, filter) + [last.value]);
      }
    }
  }

  lemma {:induction false} FilterMapShrinks<R, T>(rows: seq<R>, filter: R -> Option<T>)
    ensures |FilterMap(rows, filter)| <= |rows|
    ensures |FilterMap(rows, filter)| == |rows| <==> KeepsAll(rows, filter)
    ensures FilterMap(rows, filter) == [] <==> KeepsNone(rows, filter)
  {
    if rows != [] {
      FilterMapShrinks(rows[..|rows| - 1], filter);
      assert forall i :: 0 <= i < |rows| - 1 ==> rows[..|rows| - 1][i] == rows[i];
    }
  }

  lemma FilterMapPrefix<R, T>(rows: seq<R>, n: nat, filter: R -> Option<T>)
    requires n <= |rows|
    ensures FilterMap(rows[..n], filter) <= FilterMap(rows, filter)
  {
    assert rows == rows[..n] + rows[n..];
    FilterMapAppends(rows[..n], rows[n..], filter);
  }

  /** SQLite: a `for` loop over the result rows that breaks when the closure asks to stop. */
  method FoldRows<R, T>(rows: seq<R>, filter: R -> Option<T>, limit: Option<nat>) returns (out: seq<T>)
    requires limit != Some(0)
    ensures out == First(limit, FilterMap(rows, filter))
  {
    out := [];
    var i := 0;
    while i < |rows|
      invariant 0 <= i <= |rows| && out == FilterMap(rows[..i], filter)
      invariant limit.Some? ==> |out| < limit.value
    {
      assert rows[..i + 1][..i] == rows[..i];
      var kept := filter(rows[i]);
      if kept.Some? {
        out := out + [kept.value];
      }
      i := i + 1;
      if limit == Some(|out|) {
        FilterMapPrefix(rows, i, filter);
        return;
      }
    }
    assert rows[..i] == rows;
  }

  /** `fold_into_vec`: a limit may also be handed to the database. */
  method FoldIntoVec<R, T>(
      rows: seq<R>, filter: R -> Option<T>, limit: Option<nat>, limitQuery: bool) returns (out: seq<T>)
    ensures !limitQuery ==> out == First(limit, FilterMap(rows, filter))
    ensures limitQuery ==> out == First(limit, FilterMap(First(limit, rows), filter))
    ensures KeepsAll(rows, filter) ==> out == First(limit, FilterMap(rows, filter))
  {
    if limit == Some(0) {
      assert First(limit, FilterMap(rows, filter)) == [] && First(limit, FilterMap(First(limit, rows), filter)) == [];
      return [];
    }
    var selected := if limitQuery then First(limit, rows) else rows;
    out := FoldRows(selected, filter, limit);
    if limitQuery && limit.Some? && KeepsAll(rows, filter) {
      LimitPushdownIsExact(rows, filter, limit.value);
    }
  }

  /** IndexedDB: a cursor loop whose stop flag is looked at before the next row. */
  method FoldCursor<R, T>(rows: seq<R>, filter: R -> Option<T>, limit: Option<nat>) returns (out: seq<T>)
    ensures out == First(limit, FilterMap(rows, filter))
  {
    if limit == Some(0) {
      return [];
    }
    out := [];
    if rows == [] {
      return;
    }
    var i, stop := 0, false;
    while !stop
      invariant 0 <= i <= |rows| && out == FilterMap(rows[..i], filter)
      invariant stop <==> limit == Some(|out|)
      invariant !stop ==> i < |rows| && (limit.Some? ==> |out| < limit.value)
      decreases |rows| - i
    {
      assert rows[..i + 1][..i] == rows[..i];
      var kept := filter(rows[i]);
      if kept.Some? {
        out := out + [kept.value];
      }
      stop := limit == Some(|out|);
      i := i + 1;
      if i == |rows| {
        break;
      }
    }
    FilterMapPrefix(rows, i, filter);
    assert i == |rows| ==> rows[..i] == rows;
  }

  ghost predicate KeepsAll<R, T>(rows: seq<R>, filter: R -> Option<T>) {
    forall i :: 0 <= i < |rows| ==> filter(rows[i]).Some?
  }

  ghost predicate KeepsNone<R, T>(rows: seq<R>, filter: R -> Option<T>) {
    forall i :: 0 <= i < |rows| ==> filter(rows[i]).None?
  }

  /**
   Limiting in the database instead of after filtering loses nothing exactly when the
   filter keeps all of the first `limit` rows, or nothing behind them.
   */
  lemma LimitPushdownIsExact<R, T>(rows: seq<R>, filter: R -> Option<T>, limit: nat)
    ensures First(Some(limit), FilterMap(First(Some(limit), rows), filter)) ==
            First(Some(limit), FilterMap(rows, filter)) <==>
            limit >= |rows| || KeepsAll(rows[..limit], filter) || KeepsNone(rows[limit..], filter)
  {
    if limit < |rows| {
      var a, b := rows[..limit], rows[limit..];
      assert rows == a + b;
      FilterMapAppends(a, b, filter);
      FilterMapShrinks(a, filter);
      FilterMapShrinks(b, filter);
      FirstOfConcat(limit, FilterMap(a, filter), FilterMap(b, filter));
    }
  }

  lemma FirstOfConcat<T>(limit: nat, a: seq<T>, b: seq<T>)
    requires |a| <= limit
    ensures First(Some(limit), a) == a
    ensures First(Some(limit), a + b) == a <==> |a| == limit || b == []
  {
    if |a| < limit && b != [] {
      assert |First(Some(limit), a + b)| > |a|;
    } else {
      assert b == [] ==> a + b == a;
      assert |a| == limit ==> (a + b)[..limit] == a;
    }
  }

  // ---- Reading and deleting through an index ----

  /** A collection: primary key to row. */
  type Collection = map<string, Row>

  ghost predicate Indexed(c: Collection, columns: seq<string>) { forall k :: k in c ==> OnRow(c[k], columns) }

  /** The compiled predicate both `get_all` and `delete_all_in_index` put into their statement. */
  function Compile(q: Query<KeyTuple>, columns: seq<string>): Compiled
    requires Matching(q, |columns|)
  {
    IntoSqlPredicate(q, columns).value
  }

  /** The keys of the rows a SELECT with that predicate yields, in whatever order. */
  ghost predicate Yields(c: Collection, where: Compiled, rows: seq<string>) {
    forall k :: k in rows <==> k in c && Accepts(where, c[k])
  }

  /** What a DELETE with that predicate leaves. */
  ghost function AfterDelete(c: Collection, where: Compiled): Collection {
    map k | k in c && !Accepts(where, c[k]) :: c[k]
  }

  /** The rows the query means, column by column. */
  ghost function Meant(c: Collection, q: Query<KeyTuple>, columns: seq<string>): Collection
    requires Indexed(c, columns) && Matching(q, |columns|)
  {
    map k | k in c && SqlAdmits(q, KeyOf(c[k], columns)) :: c[k]
  }

  /** A DELETE removes exactly the rows the query means. */
  lemma DeleteRemovesTheMeant(c: Collection, q: Query<KeyTuple>, columns: seq<string>)
    requires Indexed(c, columns) && Matching(q, |columns|)
    ensures AfterDelete(c, Compile(q, columns)) == c - Meant(c, q, columns).Keys
  {
    forall k | k in c ensures Accepts(Compile(q, columns), c[k]) <==> SqlAdmits(q, KeyOf(c[k], columns)) {
      CompiledPredicateIsExact(q, columns, c[k]);
    }
  }

  lemma {:induction false} FilterMapKeepsAll<R, T>(rows: seq<R>, filter: R -> Option<T>)
    requires KeepsAll(rows, filter)
    ensures |FilterMap(rows, filter)| == |rows|
    ensures forall i :: 0 <= i < |rows| ==> FilterMap(rows, filter)[i] == filter(rows[i]).value
  {
    if rows != [] { FilterMapKeepsAll(rows[..|rows| - 1], filter); }
  }

  lemma KeysAreRead(c: Collection, rows: seq<string>, read: seq<(string, Row)>)
    requires |read| == |rows| && forall i :: 0 <= i < |rows| ==> rows[i] in c && read[i] == (rows[i], c[rows[i]])
    ensures (set x | x in read :: x.0) == set k | k in rows
  {
    forall k | k in rows ensures k in (set x | x in read :: x.0) {
      var i :| 0 <= i < |rows| && rows[i] == k;
      assert read[i] in read && read[i].0 == k;
    }
  }

  /**
   An unlimited `get_all` returns every row it selects with its key, and together these are
   what `delete_all_in_index` with the same query would remove.
   */
  method GetAllInIndex(c: Collection, q: Query<KeyTuple>, columns: seq<string>, rows: seq<string>)
      returns (read: seq<(string, Row)>)
    requires Indexed(c, columns) && Matching(q, |columns|) && Yields(c, Compile(q, columns), rows)
    ensures |read| == |rows| && forall i :: 0 <= i < |rows| ==> rows[i] in c && read[i] == (rows[i], c[rows[i]])
    ensures (set x | x in read :: x.0) == Meant(c, q, columns).Keys
    ensures c - (set x | x in read :: x.0) == AfterDelete(c, Compile(q, columns))
  {
    var filter := k => if k in c then Some((k, c[k])) else None;
    read := FoldIntoVec(rows, filter, None, true);
    forall i | 0 <= i < |rows| ensures filter(rows[i]).Some? { assert rows[i] in rows; }
    FilterMapKeepsAll(rows, filter);
    DeleteRemovesTheMeant(c, q, columns);
    KeysAreRead(c, rows, read);
    forall k | k in c ensures Accepts(Compile(q, columns), c[k]) <==> SqlAdmits(q, KeyOf(c[k], columns)) {
      CompiledPredicateIsExact(q, columns, c[k]);
    }
  }

  /** Deletes what a cursor over the key range yields, row by row. */
  method DeleteByCursor(c: Collection, q: Query<KeyTuple>, columns: seq<string>, cursor: seq<string>)
      returns (left: Collection)
    requires Indexed(c, columns) && IntoKeyRange(q).Ok?
    requires forall k :: k in cursor <==> k in c && IdbAdmits(q, KeyOf(c[k], columns))
    ensures left == map k | k in c && !IdbAdmits(q, KeyOf(c[k], columns)) :: c[k]
  {
    left := c;
    for i := 0 to |cursor|
      invariant left == map k | k in c && k !in cursor[..i] :: c[k]
    {
      assert cursor[..i + 1] == cursor[..i] + [cursor[i]];
      left := left - {cursor[i]};
    }
    assert cursor[..|cursor|] == cursor;
  }

  /** For portable queries a deletion leaves the same rows in both drivers. */
  lemma DeletionsAgree(c: Collection, q: Query<KeyTuple>, columns: seq<string>)
    requires columns != [] && Indexed(c, columns) && Matching(q, |columns|) && Portable(q, |columns|)
    ensures IntoKeyRange(q).Ok?
    ensures AfterDelete(c, Compile(q, columns)) == map k | k in c && !IdbAdmits(q, KeyOf(c[k], columns)) :: c[k]
  {
    DriversAgreeExactly(q, |columns|);
    DeleteRemovesTheMeant(c, q, columns);
  }

  // ---- The order of the rows ----

  datatype Direction = Forward | Backward

  ghost predicate Unrepeated(rows: seq<string>) { forall i, j :: 0 <= i < j < |rows| ==> rows[i] != rows[j] }

  /** `ORDER BY` all columns of the index, each in the direction asked for. */
  ghost predicate SqlOrdered(keys: map<string, KeyTuple>, rows: seq<string>, direction: Direction) {
    forall i, j :: 0 <= i < j < |rows| && rows[i] in keys && rows[j] in keys ==>
      NotAfter(keys[rows[i]], keys[rows[j]], direction)
  }

  ghost predicate NotAfter(a: KeyTuple, b: KeyTuple, direction: Direction) {
    if direction.Forward? then !LexLess(b, a) else !LexLess(a, b)
  }

  /** A cursor over an index goes through its keys upwards or downwards. */
  ghost predicate CursorOrdered(keys: map<string, KeyTuple>, rows: seq<string>, direction: Direction) {
    forall i, j :: 0 <= i < j < |rows| && rows[i] in keys && rows[j] in keys ==>
      var a, b := ToIdbKey(keys[rows[i]]), ToIdbKey(keys[rows[j]]);
      if direction.Forward? then !IdbLess(b, a) else !IdbLess(a, b)
  }

  /** The index keys of a collection. */
  ghost function IndexKeys(c: Collection, columns: seq<string>): map<string, KeyTuple>
    requires Indexed(c, columns)
  {
    map k | k in c :: KeyOf(c[k], columns)
  }

  /** No two rows have one index key, and all keys have as many columns. */
  ghost predicate UniqueIndex(keys: map<string, KeyTuple>, n: nat) {
    && (forall k :: k in keys ==> |keys[k]| == n)
    && forall k, l :: k in keys && l in keys && keys[k] == keys[l] ==> k == l
  }

  ghost predicate Before(keys: map<string, KeyTuple>, k: string, l: string, direction: Direction)
    requires k in keys && l in keys
  {
    if direction.Forward? then LexLess(keys[k], keys[l]) else LexLess(keys[l], keys[k])
  }

  ghost predicate Strict(keys: map<string, KeyTuple>, rows: seq<string>, direction: Direction) {
    && (forall k :: k in rows ==> k in keys)
    && forall i, j :: 0 <= i < j < |rows| ==> Before(keys, rows[i], rows[j], direction)
  }

  lemma SqlOrderIsStrict(keys: map<string, KeyTuple>, n: nat, rows: seq<string>, direction: Direction)
    requires UniqueIndex(keys, n) && Unrepeated(rows) && SqlOrdered(keys, rows, direction)
    requires forall k :: k in rows ==> k in keys
    ensures Strict(keys, rows, direction)
  {
    forall i, j | 0 <= i < j < |rows| ensures Before(keys, rows[i], rows[j], direction) {
      assert rows[i] in rows && rows[j] in rows && rows[i] != rows[j];
      LexIsTotal(keys[rows[i]], keys[rows[j]]);
    }
  }

  lemma CursorOrderIsSqlOrder(keys: map<string, KeyTuple>, n: nat, rows: seq<string>, direction: Direction)
    requires n > 0 && UniqueIndex(keys, n) && CursorOrdered(keys, rows, direction)
    ensures SqlOrdered(keys, rows, direction)
  {
    forall i, j | 0 <= i < j < |rows| && rows[i] in keys && rows[j] in keys
      ensures NotAfter(keys[rows[i]], keys[rows[j]], direction)
    {
      IdbOrderIsLex(keys[rows[i]], keys[rows[j]]);
      IdbOrderIsLex(keys[rows[j]], keys[rows[i]]);
    }
  }

  lemma LastIsLast(keys: map<string, KeyTuple>, n: nat, a: seq<string>, b: seq<string>, direction: Direction)
    requires UniqueIndex(keys, n) && Strict(keys, a, direction) && Strict(keys, b, direction)
    requires a != [] && b != [] && forall k :: k in a <==> k in b
    ensures a[|a| - 1] == b[|b| - 1]
  {
    var x, y := a[|a| - 1], b[|b| - 1];
    assert x in b && y in a;
    var i :| 0 <= i < |a| && a[i] == y;
    var j :| 0 <= j < |b| && b[j] == x;
    LexIsTotal(keys[x], keys[y]);
  }

  lemma FrontHasTheRest(keys: map<string, KeyTuple>, n: nat, a: seq<string>, direction: Direction, k: string)
    requires UniqueIndex(keys, n) && Strict(keys, a, direction) && a != []
    ensures Strict(keys, a[..|a| - 1], direction)
    ensures k in a[..|a| - 1] <==> k in a && k != a[|a| - 1]
  {
    var m := |a| - 1;
    if k in a[..m] {
      var i :| 0 <= i < m && a[i] == k;
      LexIsTotal(keys[a[i]], keys[a[m]]);
    }
  }

  /** A collection has one listing in strict order. */
  lemma {:induction false} StrictListingsAgree(
      keys: map<string, KeyTuple>, n: nat, a: seq<string>, b: seq<string>, direction: Direction)
    requires UniqueIndex(keys, n) && Strict(keys, a, direction) && Strict(keys, b, direction)
    requires forall k :: k in a <==> k in b
    ensures a == b
  {
    assert a == [] <==> b == [] by {
      assert a != [] ==> a[0] in a;
      assert b != [] ==> b[0] in b;
    }
    if a != [] {
      var front, other := a[..|a| - 1], b[..|b| - 1];
      LastIsLast(keys, n, a, b, direction);
      FrontHasTheRest(keys, n, a, direction, a[0]);
      FrontHasTheRest(keys, n, b, direction, a[0]);
      forall k ensures k in front <==> k in other {
        FrontHasTheRest(keys, n, a, direction, k);
        FrontHasTheRest(keys, n, b, direction, k);
      }
      StrictListingsAgree(keys, n, front, other, direction);
      assert a == front + [a[|a| - 1]] && b == other + [b[|b| - 1]];
    }
  }

  lemma SelectionsAgree(c: Collection, q: Query<KeyTuple>, columns: seq<string>, rows: seq<string>, cursor: seq<string>)
    requires columns != [] && Indexed(c, columns) && Matching(q, |columns|) && Portable(q, |columns|)
    requires Yields(c, Compile(q, columns), rows)
    requires IntoKeyRange(q).Ok? && forall k :: k in cursor <==> k in c && IdbAdmits(q, KeyOf(c[k], columns))
    ensures forall k :: k in rows <==> k in cursor
  {
    DriversAgreeExactly(q, |columns|);
    forall k | k in c ensures Accepts(Compile(q, columns), c[k]) <==> IdbAdmits(q, KeyOf(c[k], columns)) {
      CompiledPredicateIsExact(q, columns, c[k]);
    }
  }

  /**
   Over a unique index both drivers go through the rows of a portable query in one and the
   same sequence, in either direction; so their folds see the same and return the same.
   */
  lemma ReadsAgree(c: Collection, q: Query<KeyTuple>, columns: seq<string>, direction: Direction,
                   rows: seq<string>, cursor: seq<string>)
    requires columns != [] && Indexed(c, columns) && Matching(q, |columns|) && Portable(q, |columns|)
    requires UniqueIndex(IndexKeys(c, columns), |columns|) && Unrepeated(rows) && Unrepeated(cursor)
    requires Yields(c, Compile(q, columns), rows) && SqlOrdered(IndexKeys(c, columns), rows, direction)
    requires IntoKeyRange(q).Ok? && forall k :: k in cursor <==> k in c && IdbAdmits(q, KeyOf(c[k], columns))
    requires CursorOrdered(IndexKeys(c, columns), cursor, direction)
    ensures rows == cursor
  {
    var keys, n := IndexKeys(c, columns), |columns|;
    SelectionsAgree(c, q, columns, rows, cursor);
    CursorOrderIsSqlOrder(keys, n, cursor, direction);
    SqlOrderIsStrict(keys, n, rows, direction);
    SqlOrderIsStrict(keys, n, cursor, direction);
    StrictListingsAgree(keys, n, rows, cursor, direction);
  }
}
