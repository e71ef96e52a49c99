/**
 The in-memory description of tables and indexes next to the schema it describes
 (crates/prose-store/src/driver/sqlite.rs:292-327, 746-765, 854-952).
 */
module StoreSchema {
  import opened Basics

  const SETTINGS_TABLE := "__store_settings"

  // ---- Index names ----

  function Join(keys: seq<string>): string {
    if keys == [] then "" else if |keys| == 1 then keys[0] else keys[0] + "_" + Join(keys[1..])
  }

  function IndexName(table: string, index: string): string {
    "prose_" + (table + "_") + index + "_idx"
  }

  predicate StartsWith(s: string, prefix: string) { prefix <= s }

  predicate IsProse(name: string) { StartsWith(name, "prose_") }

  /** The name belongs to `table`, and is long enough to be cut at both ends. */
  predicate Decodable(table: string, name: string) {
    IsProse(name) && StartsWith(name[6..], table + "_") && |name| >= 6 + |table| + 1 + 4
  }

  function DecodeIndexName(table: string, name: string): string
    requires Decodable(table, name)
  {
    name[6 + |table + "_"|..|name| - 4]
  }

  /** Decoding undoes encoding whatever underscores the two names contain. */
  lemma IndexNameRoundTrip(table: string, index: string)
    ensures Decodable(table, IndexName(table, index)) && DecodeIndexName(table, IndexName(table, index)) == index
    ensures var name := IndexName(table, index); name[..6] == "prose_" && name[|name| - 4..] == "_idx"
  {
    var name := IndexName(table, index);
    assert name == "prose_" + ((table + "_") + (index + "_idx"));
    assert name[..6] == "prose_" && name[6..] == (table + "_") + (index + "_idx");
    assert name[6..][..|table| + 1] == table + "_";
  }

  lemma IndexNameIsInjective(table: string, i: string, j: string)
    requires IndexName(table, i) == IndexName(table, j)
    ensures i == j
  {
    IndexNameRoundTrip(table, i);
    IndexNameRoundTrip(table, j);
  }

  // ---- Which column lists share a name? ----

  lemma {:induction false} JoinAppends(a: seq<string>, b: seq<string>)
    requires a != [] && b != []
    ensures Join(a + b) == Join(a) + "_" + Join(b)
  {
    if |a| == 1 {
      assert a + b == [a[0]] + b && (a + b)[1..] == b;
    } else {
      JoinAppends(a[1..], b);
      assert (a + b)[1..] == a[1..] + b;
      assert a[0] + "_" + (Join(a[1..]) + "_" + Join(b)) == a[0] + "_" + Join(a[1..]) + "_" + Join(b);
    }
  }

  /** The pieces of a name between its underscores. */
  function Pieces(name: string): (ps: seq<string>)
    ensures ps != []
  {
    if name == "" then [""]
    else
      var ps := Pieces(name[..|name| - 1]);
      Grown(ps, name[|name| - 1])
  }

  function AllPieces(keys: seq<string>): seq<string> {
    if keys == [] then [] else AllPieces(keys[..|keys| - 1]) + Pieces(keys[|keys| - 1])
  }

  /** The pieces with one more character at the end of the last one, or a new one begun. */
  function Grown(ps: seq<string>, c: char): seq<string>
    requires ps != []
  {
    if c == '_' then ps + [""] else ps[|ps| - 1 := ps[|ps| - 1] + [c]]
  }

  lemma PiecesPush(name: string, c: char)
    ensures Pieces(name + [c]) == Grown(Pieces(name), c)
  {
    assert (name + [c])[..|name|] == name;
  }

  lemma GrownBehind(a: seq<string>, b: seq<string>, c: char)
    requires b != []
    ensures Grown(a + b, c) == a + Grown(b, c)
  {
  }

  lemma {:induction false} PiecesOfPair(a: string, b: string)
    ensures Pieces(a + "_" + b) == Pieces(a) + Pieces(b)
    decreases |b|
  {
    if b == "" {
      assert a + "_" + b == a + ['_'];
      PiecesPush(a, '_');
    } else {
      var front, c := b[..|b| - 1], b[|b| - 1];
      PiecesOfPair(a, front);
      assert b == front + [c];
      Regroup(a + "_", front, [c]);
      PiecesPush(a + "_" + front, c);
      PiecesPush(front, c);
      GrownBehind(Pieces(a), Pieces(front), c);
    }
  }

  lemma JoinOne(k: string)
    ensures Join([k]) == k && AllPieces([k]) == Pieces(k)
  {
    assert [k][..0] == [] && [] + Pieces(k) == Pieces(k);
  }

  lemma {:induction false} PiecesOfJoin(keys: seq<string>)
    requires keys != []
    ensures Pieces(Join(keys)) == AllPieces(keys)
  {
    var front, last := keys[..|keys| - 1], keys[|keys| - 1];
    JoinOne(last);
    if front == [] {
      assert keys == [last];
    } else {
      PiecesOfJoin(front);
      assert keys == front + [last];
      JoinAppends(front, [last]);
      PiecesOfPair(Join(front), last);
    }
  }

  lemma {:induction false} JoinOfPieces(name: string)
    ensures Join(Pieces(name)) == name
  {
    if name != "" {
      var front, c := name[..|name| - 1], name[|name| - 1];
      JoinOfPieces(front);
      JoinGrows(Pieces(front), c);
      assert name == front + [c];
    }
  }

  lemma {:induction false} JoinGrows(ps: seq<string>, c: char)
    requires ps != []
    ensures Join(Grown(ps, c)) == Join(ps) + [c]
  {
    if c == '_' {
      JoinOne("");
      JoinAppends(ps, [""]);
      assert Join(ps) + "_" + "" == Join(ps) + "_";
    } else {
      LastGrows(ps[..|ps| - 1], ps[|ps| - 1], c);
      assert ps == ps[..|ps| - 1] + [ps[|ps| - 1]] && Grown(ps, c) == ps[..|ps| - 1] + [ps[|ps| - 1] + [c]];
    }
  }

  lemma {:induction false} LastGrows(front: seq<string>, last: string, c: char)
    ensures Join(front + [last + [c]]) == Join(front + [last]) + [c]
  {
    JoinOne(last);
    JoinOne(last + [c]);
    if front == [] {
      assert front + [last] == [last] && front + [last + [c]] == [last + [c]];
    } else {
      JoinAppends(front, [last]);
      JoinAppends(front, [last + [c]]);
      Regroup(Join(front) + "_", last, [c]);
    }
  }

  /** Two column lists name one index of a table if and only if they consist of the same pieces. */
  lemma SameNameExactly(table: string, a: seq<string>, b: seq<string>)
    requires a != [] && b != []
    ensures IndexName(table, Join(a)) == IndexName(table, Join(b)) <==> AllPieces(a) == AllPieces(b)
  {
    PiecesOfJoin(a);
    PiecesOfJoin(b);
    JoinOfPieces(Join(a));
    JoinOfPieces(Join(b));
    if IndexName(table, Join(a)) == IndexName(table, Join(b)) { IndexNameIsInjective(table, Join(a), Join(b)); }
  }

  lemma {:induction false} AllPiecesAppend(a: seq<string>, b: seq<string>)
    ensures AllPieces(a + b) == AllPieces(a) + AllPieces(b)
    decreases |b|
  {
    if b == [] {
      assert a + b == a;
    } else {
      var front, last := b[..|b| - 1], b[|b| - 1];
      AllPiecesAppend(a, front);
      assert (a + b)[..|a + b| - 1] == a + front;
      Regroup(AllPieces(a), AllPieces(front), Pieces(last));
    }
  }

  /** Between its prefix and its suffix an index name is the table joined with the columns. */
  lemma NameWithinFrame(table: string, keys: seq<string>)
    requires keys != []
    ensures var name := IndexName(table, Join(keys));
            name == "prose_" + Join([table] + keys) + "_idx" && name[6..|name| - 4] == Join([table] + keys)
  {
    JoinOne(table);
    JoinAppends([table], keys);
    Regroup("prose_", table + "_", Join(keys));
  }

  /** Two indexes, of one table or two, have one name if and only if table and columns consist of the same pieces. */
  lemma SameNameAcrossTables(t: string, a: seq<string>, u: string, b: seq<string>)
    requires a != [] && b != []
    ensures IndexName(t, Join(a)) == IndexName(u, Join(b)) <==> AllPieces([t] + a) == AllPieces([u] + b)
  {
    NameWithinFrame(t, a);
    NameWithinFrame(u, b);
    PiecesOfJoin([t] + a);
    PiecesOfJoin([u] + b);
    JoinOfPieces(Join([t] + a));
    JoinOfPieces(Join([u] + b));
  }

  lemma {:induction false} PieceIsWhole(name: string)
    requires '_' !in name
    ensures Pieces(name) == [name]
  {
    if name != "" {
      var front := name[..|name| - 1];
      PieceIsWhole(front);
      assert name[|name| - 1] in name && front + [name[|name| - 1]] == name;
    }
  }

  lemma {:induction false} PiecesAreColumns(keys: seq<string>)
    requires forall k :: k in keys ==> '_' !in k
    ensures AllPieces(keys) == keys
  {
    if keys != [] {
      var front, last := keys[..|keys| - 1], keys[|keys| - 1];
      PiecesAreColumns(front);
      assert last in keys && front + [last] == keys;
      PieceIsWhole(last);
    }
  }

  /** Columns without underscores: every list has a name of its own. */
  lemma PlainColumnsAreTold(table: string, a: seq<string>, b: seq<string>)
    requires a != [] && b != [] && forall k :: k in a || k in b ==> '_' !in k
    ensures IndexName(table, Join(a)) == IndexName(table, Join(b)) <==> a == b
  {
    SameNameExactly(table, a, b);
    PiecesAreColumns(a);
    PiecesAreColumns(b);
  }

  /** A column whose name is two others joined takes the name of the index on both. */
  lemma UnderscoreMakesOneName(table: string, a: string, b: string)
    ensures [a + "_" + b] != [a, b] && IndexName(table, Join([a + "_" + b])) == IndexName(table, Join([a, b]))
  {
    JoinOne(a);
    JoinOne(b);
    assert [a, b] == [a] + [b];
    JoinAppends([a], [b]);
    assert |[a + "_" + b]| != |[a, b]|;
  }

  // ---- Schema, description, and the operations on both ----

  /** Tables, and every index with the table it is on; SQLite adds an index of its own for each table's text key. */
  datatype Schema = Schema(tables: set<string>, indexes: map<string, string>)
  type Description = map<string, set<string>>
  datatype Store = Store(schema: Schema, description: Description)

  function AutoIndex(table: string): string { "sqlite_autoindex_" + table + "_1" }

  datatype Operation =
    | CreateCollection(name: string)
    | DeleteCollection(name: string)
    | AddIndex(table: string, keys: seq<string>)

  /** Whether SQLite carries out the statement; tables and indexes share one name space. */
  predicate Succeeds(s: Schema, op: Operation) {
    match op
    case CreateCollection(name) => name !in s.tables && name !in s.indexes && !StartsWith(name, "sqlite_")
    case DeleteCollection(name) => name in s.tables
    case AddIndex(table, keys) =>
      && keys != [] && table in s.tables
      && IndexName(table, Join(keys)) !in s.indexes && IndexName(table, Join(keys)) !in s.tables
  }

  function Execute(s: Schema, op: Operation): Schema
    requires Succeeds(s, op)
  {
    match op
    case CreateCollection(name) => Schema(s.tables + {name}, s.indexes[AutoIndex(name) := name])
    case DeleteCollection(name) =>
      Schema(s.tables - {name}, map i | i in s.indexes && s.indexes[i] != name :: s.indexes[i])
    case AddIndex(table, keys) => s.(indexes := s.indexes[IndexName(table, Join(keys)) := table])
  }

  /** Of two indexes that could each be added, both can unless tables and columns consist of the same pieces. */
  lemma SecondIndexExactly(s: Schema, t: string, a: seq<string>, u: string, b: seq<string>)
    requires Succeeds(s, AddIndex(t, a)) && Succeeds(s, AddIndex(u, b))
    ensures Succeeds(Execute(s, AddIndex(t, a)), AddIndex(u, b)) <==> AllPieces([t] + a) != AllPieces([u] + b)
  {
    SameNameAcrossTables(t, a, u, b);
  }

  /** An index on two columns of a table stands in the way of one on the second in a table named after the first. */
  lemma IndexBlocksOtherTable(s: Schema, t: string, a: string, b: string)
    requires Succeeds(s, AddIndex(t, [a, b])) && Succeeds(s, AddIndex(t + "_" + a, [b]))
    ensures t + "_" + a != t && !Succeeds(Execute(s, AddIndex(t, [a, b])), AddIndex(t + "_" + a, [b]))
  {
    var u := t + "_" + a;
    assert |u| > |t|;
    assert [t] + [a, b] == [t] + [a] + [b];
    AllPiecesAppend([t] + [a], [b]);
    AllPiecesAppend([t], [a]);
    AllPiecesAppend([u], [b]);
    JoinOne(t);
    JoinOne(a);
    JoinOne(u);
    PiecesOfPair(t, a);
    SecondIndexExactly(s, t, [a, b], u, [b]);
  }

  function Describe(d: Description, op: Operation): Description {
    match op
    case CreateCollection(name) => if name in d then d else d[name := {}]
    case DeleteCollection(name) => d - {name}
    case AddIndex(table, keys) => d[table := (if table in d then d[table] else {}) + {Join(keys)}]
  }

  /** The description as the driver holds it, shared by all transactions. */
  class DatabaseDescription {
    var tables: Description

    method AddTable(name: string)
      modifies this
      ensures tables == Describe(old(tables), CreateCollection(name))
    {
      if name !in tables {
        tables := tables[name := {}];
      }
    }

    method RemoveTable(name: string)
      modifies this
      ensures tables == Describe(old(tables), DeleteCollection(name))
    {
      tables := tables - {name};
    }

    method AddIndex(table: string, keys: seq<string>)
      modifies this
      ensures tables == Describe(old(tables), Operation.AddIndex(table, keys))
    {
      if table !in tables {
        tables := tables[table := {}];
      }
      tables := tables[table := tables[table] + {Join(keys)}];
    }
  }

  /** A failed statement returns before the description is touched. */
  function Apply(s: Store, op: Operation): Store {
    if Succeeds(s.schema, op) then Store(Execute(s.schema, op), Describe(s.description, op)) else s
  }

  /** What `database_description` makes of the schema. */
  ghost function Reread(s: Schema): Description {
    map t | t in s.tables && t != SETTINGS_TABLE ::
      set n | n in s.indexes && s.indexes[n] == t && Decodable(t, n) :: DecodeIndexName(t, n)
  }

  /** Every index of ours is on an existing collection and named after it. */
  ghost predicate WellNamed(s: Schema) {
    && SETTINGS_TABLE in s.tables
    && forall n :: n in s.indexes ==>
      && s.indexes[n] in s.tables
      && (IsProse(n) ==> s.indexes[n] != SETTINGS_TABLE && exists i :: n == IndexName(s.indexes[n], i))
  }

  ghost predicate InStep(s: Store) { WellNamed(s.schema) && s.description == Reread(s.schema) }

  /** The settings table is not offered as a collection, so neither dropped nor indexed. */
  predicate Permitted(op: Operation) {
    match op
    case CreateCollection(_) => true
    case DeleteCollection(name) => name != SETTINGS_TABLE
    case AddIndex(table, _) => table != SETTINGS_TABLE
  }

  lemma AutoIndexIsNotOurs(table: string)
    ensures !IsProse(AutoIndex(table))
  {
    assert AutoIndex(table)[0] == 's';
  }

  lemma OurIndexesDecode(s: Schema, n: string)
    requires WellNamed(s) && n in s.indexes && IsProse(n)
    ensures Decodable(s.indexes[n], n) && n == IndexName(s.indexes[n], DecodeIndexName(s.indexes[n], n))
  {
    var i :| n == IndexName(s.indexes[n], i);
    IndexNameRoundTrip(s.indexes[n], i);
  }

  lemma CreateKeepsStep(s: Store, name: string)
    requires InStep(s) && Succeeds(s.schema, CreateCollection(name))
    ensures InStep(Apply(s, CreateCollection(name)))
  {
    var s' := Apply(s, CreateCollection(name));
    AutoIndexIsNotOurs(name);
    assert forall n :: n in s.schema.indexes ==> s.schema.indexes[n] != name;
    forall t | t in s'.schema.tables && t != SETTINGS_TABLE ensures Reread(s'.schema)[t] == s'.description[t] {
    }
    assert s'.description.Keys == Reread(s'.schema).Keys;
  }

  lemma DeleteKeepsStep(s: Store, name: string)
    requires InStep(s) && name in s.schema.tables && name != SETTINGS_TABLE
    ensures InStep(Apply(s, DeleteCollection(name)))
  {
    var s' := Apply(s, DeleteCollection(name));
    forall t | t in s'.schema.tables && t != SETTINGS_TABLE ensures Reread(s'.schema)[t] == Reread(s.schema)[t] {
    }
    assert s'.description.Keys == Reread(s'.schema).Keys;
  }

  lemma AddIndexKeepsStep(s: Store, table: string, keys: seq<string>)
    requires InStep(s) && Succeeds(s.schema, AddIndex(table, keys)) && table != SETTINGS_TABLE
    ensures InStep(Apply(s, AddIndex(table, keys)))
  {
    var s', index := Apply(s, AddIndex(table, keys)), Join(keys);
    var name := IndexName(table, index);
    IndexNameRoundTrip(table, index);
    forall t | t in s'.schema.tables && t != SETTINGS_TABLE
      ensures Reread(s'.schema)[t] == Reread(s.schema)[t] + if t == table then {index} else {}
    {
      forall i | i in Reread(s.schema)[t] ensures i in Reread(s'.schema)[t] {
        var n :| n in s.schema.indexes && s.schema.indexes[n] == t && Decodable(t, n) && DecodeIndexName(t, n) == i;
        assert n in s'.schema.indexes && s'.schema.indexes[n] == t;
      }
    }
    assert table in s.description && s'.description == s.description[table := s.description[table] + {index}];
    forall t | t in Reread(s'.schema) ensures t in s'.description && s'.description[t] == Reread(s'.schema)[t] {
      assert s.description[t] == Reread(s.schema)[t];
    }
    assert s'.description.Keys == Reread(s'.schema).Keys;
  }

  ghost function Run(s: Store, ops: seq<Operation>): Store {
    if ops == [] then s else Apply(Run(s, ops[..|ops| - 1]), ops[|ops| - 1])
  }

  /** After any operations, successful or not, the description is what re-reading the schema would give. */
  lemma {:induction false} DescriptionStaysInStep(s: Store, ops: seq<Operation>)
    requires InStep(s) && forall i :: 0 <= i < |ops| ==> Permitted(ops[i])
    ensures InStep(Run(s, ops)) && "__store_settings" !in Run(s, ops).description
  {
    if ops != [] {
      var front, op := Run(s, ops[..|ops| - 1]), ops[|ops| - 1];
      DescriptionStaysInStep(s, ops[..|ops| - 1]);
      if Succeeds(front.schema, op) {
        match op
        case CreateCollection(name) => CreateKeepsStep(front, name);
        case DeleteCollection(name) => DeleteKeepsStep(front, name);
        case AddIndex(table, keys) => AddIndexKeepsStep(front, table, keys);
      }
    }
  }

  /** What can be created, as far as the description tells. */
  lemma CreateSucceedsExactly(s: Store, name: string)
    requires InStep(s)
    ensures Succeeds(s.schema, CreateCollection(name)) <==>
            && name !in s.description && name != "__store_settings"
            && name !in s.schema.indexes && !("sqlite_" <= name)
  {
  }

  /** An index can be added exactly if it has columns, its table is described, and its name is free. */
  lemma AddIndexSucceedsExactly(s: Store, table: string, keys: seq<string>)
    requires InStep(s) && table != SETTINGS_TABLE
    ensures Succeeds(s.schema, AddIndex(table, keys)) <==>
            && keys != [] && table in s.description && IndexName(table, Join(keys)) !in s.description
            && IndexName(table, Join(keys)) !in s.schema.indexes
  {
    assert IndexName(table, Join(keys))[0] == 'p';
  }

  // ---- Rolling back ----

  /** A transaction that is rolled back takes the schema back, but not the description. */
  ghost function RollBack(s: Store, ops: seq<Operation>): Store { Store(s.schema, Run(s, ops).description) }

  /** `d'` has every table and index of `d`. */
  ghost predicate Extends(d: Description, d': Description) { forall t :: t in d ==> t in d' && d[t] <= d'[t] }

  lemma DescribeExtends(d: Description, op: Operation)
    requires !op.DeleteCollection?
    ensures Extends(d, Describe(d, op))
  {
  }

  lemma {:induction false} RunExtends(s: Store, ops: seq<Operation>, n: nat)
    requires n <= |ops| && forall i :: 0 <= i < |ops| ==> !ops[i].DeleteCollection?
    ensures Extends(Run(s, ops[..n]).description, Run(s, ops).description)
    decreases |ops|
  {
    if n == |ops| {
      assert ops[..n] == ops;
    } else {
      var front := ops[..|ops| - 1];
      assert front[..n] == ops[..n];
      RunExtends(s, front, n);
      DescribeExtends(Run(s, front).description, ops[|ops| - 1]);
    }
  }

  /** An index that can be added is not described yet. */
  lemma AddableIsNotDescribed(s: Store, table: string, keys: seq<string>)
    requires InStep(s) && Succeeds(s.schema, AddIndex(table, keys)) && table != SETTINGS_TABLE
    ensures table in s.description && Join(keys) !in s.description[table]
  {
    forall n | n in s.schema.indexes && s.schema.indexes[n] == table && Decodable(table, n)
      ensures DecodeIndexName(table, n) != Join(keys)
    {
      OurIndexesDecode(s.schema, n);
    }
  }

  /** A successful operation other than a drop describes something new. */
  lemma SuccessIsNews(s: Store, op: Operation)
    requires InStep(s) && Permitted(op) && Succeeds(s.schema, op) && !op.DeleteCollection?
    ensures !Extends(Apply(s, op).description, s.description)
  {
    match op
    case CreateCollection(name) => assert name !in s.description && name in Apply(s, op).description;
    case AddIndex(table, keys) =>
      AddableIsNotDescribed(s, table, keys);
      assert Join(keys) in Apply(s, op).description[table];
  }

  lemma {:induction false} NothingSucceedsNothingChanges(s: Store, ops: seq<Operation>)
    requires forall i :: 0 <= i < |ops| ==> !Succeeds(s.schema, ops[i])
    ensures Run(s, ops) == s
  {
    if ops != [] { NothingSucceedsNothingChanges(s, ops[..|ops| - 1]); }
  }

  /** Where the first operation that could be carried out at the start stands. */
  lemma FirstSuccess(s: Store, ops: seq<Operation>) returns (k: nat)
    requires exists i :: 0 <= i < |ops| && Succeeds(s.schema, ops[i])
    ensures k < |ops| && Succeeds(s.schema, ops[k])
    ensures forall i :: 0 <= i < k ==> !Succeeds(s.schema, ops[i])
  {
    k := 0;
    while !Succeeds(s.schema, ops[k])
      invariant k < |ops| && exists i :: k <= i < |ops| && Succeeds(s.schema, ops[i])
      invariant forall i :: 0 <= i < k ==> !Succeeds(s.schema, ops[i])
      decreases |ops| - k
    {
      k := k + 1;
    }
  }

  lemma SuccessIsRemembered(s: Store, ops: seq<Operation>, k: nat)
    requires InStep(s) && k < |ops| && Succeeds(s.schema, ops[k])
    requires forall i :: 0 <= i < |ops| ==> Permitted(ops[i]) && !ops[i].DeleteCollection?
    requires forall i :: 0 <= i < k ==> !Succeeds(s.schema, ops[i])
    ensures Run(s, ops).description != s.description
  {
    NothingSucceedsNothingChanges(s, ops[..k]);
    assert ops[..k + 1][..k] == ops[..k] && Run(s, ops[..k + 1]) == Apply(s, ops[k]);
    SuccessIsNews(s, ops[k]);
    RunExtends(s, ops, k + 1);
  }

  /**
   A transaction that drops no collection, as every read-write transaction is one, leaves the
   description in step after a roll-back if and only if not one of its operations could be
   carried out when it began.
   */
  lemma RollBackStaysInStepExactly(s: Store, ops: seq<Operation>)
    requires InStep(s) && forall i :: 0 <= i < |ops| ==> Permitted(ops[i]) && !ops[i].DeleteCollection?
    ensures InStep(RollBack(s, ops)) <==> forall i :: 0 <= i < |ops| ==> !Succeeds(s.schema, ops[i])
  {
    if forall i :: 0 <= i < |ops| ==> !Succeeds(s.schema, ops[i]) {
      NothingSucceedsNothingChanges(s, ops);
    } else {
      var k := FirstSuccess(s, ops);
      SuccessIsRemembered(s, ops, k);
    }
  }

  /** With drops, a collection that was there at the beginning and is not at the end is forgotten. */
  lemma RolledBackDropIsForgotten(s: Store, ops: seq<Operation>, name: string)
    requires InStep(s) && forall i :: 0 <= i < |ops| ==> Permitted(ops[i])
    requires name in s.schema.tables && name !in Run(s, ops).schema.tables
    ensures !InStep(RollBack(s, ops)) && name !in RollBack(s, ops).description
  {
    DescriptionStaysInStep(s, ops);
    assert name != SETTINGS_TABLE && name in s.description;
  }

  /** Creating a collection and dropping it again comes to nothing. */
  lemma RolledBackDropMayCancelOut(s: Store, name: string)
    requires InStep(s) && Succeeds(s.schema, CreateCollection(name))
    ensures InStep(RollBack(s, [CreateCollection(name), DeleteCollection(name)]))
  {
    var create, drop := CreateCollection(name), DeleteCollection(name);
    assert [create, drop][..1] == [create] && [create][..0] == [];
    assert Run(s, []) == s && Run(s, [create]) == Apply(s, create);
    assert Run(s, [create, drop]) == Apply(Apply(s, create), drop);
    assert Run(s, [create, drop]).description == s.description[name := {}] - {name} == s.description;
  }

  // ---- Re-reading the schema ----

  datatype SchemaRow = TableRow(name: string) | IndexRow(name: string, table: string)

  /** `TooShort` stands for the panic of cutting a name at both ends that is not long enough. */
  datatype SchemaError = InvalidIndex(collection: string, index: string) | TooShort(index: string)

  /** `rows` lists the schema, in any order. */
  ghost predicate Lists(rows: seq<SchemaRow>, s: Schema) {
    && (forall t :: TableRow(t) in rows <==> t in s.tables)
    && (forall n, t :: IndexRow(n, t) in rows <==> n in s.indexes && s.indexes[n] == t)
  }

  ghost function TablesIn(rows: seq<SchemaRow>): set<string> {
    (set r | r in rows && r.TableRow? && r.name != SETTINGS_TABLE :: r.name)
    + (set r | r in rows && r.IndexRow? && IsProse(r.name) :: r.table)
  }

  ghost function IndexesIn(rows: seq<SchemaRow>, t: string): set<string> {
    set r | r in rows && r.IndexRow? && r.table == t && Decodable(t, r.name) :: DecodeIndexName(t, r.name)
  }

  ghost predicate AllDecodable(rows: seq<SchemaRow>) {
    forall row :: row in rows && row.IndexRow? && IsProse(row.name) ==> Decodable(row.table, row.name)
  }

  ghost predicate Describes(d: Description, rows: seq<SchemaRow>) {
    AllDecodable(rows) && d.Keys == TablesIn(rows) && forall t :: t in d ==> d[t] == IndexesIn(rows, t)
  }

  function ReadRow(d: Description, row: SchemaRow): Description
    requires row.IndexRow? && IsProse(row.name) ==> Decodable(row.table, row.name)
  {
    match row
    case TableRow(name) => if name == SETTINGS_TABLE || name in d then d else d[name := {}]
    case IndexRow(name, table) =>
      if !IsProse(name) then d
      else d[table := (if table in d then d[table] else {}) + {DecodeIndexName(table, name)}]
  }

  lemma IndexesGrow(rows: seq<SchemaRow>, row: SchemaRow, t: string)
    requires AllDecodable(rows)
    ensures IndexesIn(rows + [row], t) ==
            IndexesIn(rows, t)
            + (if row.IndexRow? && row.table == t && Decodable(t, row.name) then {DecodeIndexName(t, row.name)} else {})
    ensures t !in TablesIn(rows) ==> IndexesIn(rows, t) == {}
  {
  }

  lemma ReadRowDescribes(d: Description, rows: seq<SchemaRow>, row: SchemaRow)
    requires Describes(d, rows) && (row.IndexRow? && IsProse(row.name) ==> Decodable(row.table, row.name))
    ensures Describes(ReadRow(d, row), rows + [row])
  {
    var d' := ReadRow(d, row);
    TablesGrow(rows, row);
    assert d'.Keys == TablesIn(rows + [row]);
    forall t | t in d' ensures d'[t] == IndexesIn(rows + [row], t) { IndexesGrow(rows, row, t); }
  }

  lemma TablesGrow(rows: seq<SchemaRow>, row: SchemaRow)
    ensures TablesIn(rows + [row]) == TablesIn(rows) +
              match row
              case TableRow(name) => if name == SETTINGS_TABLE then {} else {name}
              case IndexRow(name, table) => if IsProse(name) then {table} else {}
  {
    var all := rows + [row];
    assert row in all && forall r :: r in all <==> r in rows || r == row;
    assert forall r :: r in rows ==> r in all;
  }

  /** The row loop; a name that does not start with its table's is an error, one that is too short a panic. */
  method ReadDescription(rows: seq<SchemaRow>) returns (r: Result<Description, SchemaError>)
    ensures r.Ok? <==> AllDecodable(rows)
    ensures r.Ok? ==> Describes(r.value, rows)
  {
    var d: Description := map[];
    for i := 0 to |rows|
      invariant Describes(d, rows[..i])
    {
      var row := rows[i];
      assert row in rows && rows[..i + 1] == rows[..i] + [row];
      if row.IndexRow? && IsProse(row.name) && !StartsWith(row.name[6..], row.table + "_") {
        return Err(InvalidIndex(row.table, row.name));
      }
      if row.IndexRow? && IsProse(row.name) && |row.name| < 6 + |row.table| + 1 + 4 {
        return Err(TooShort(row.name));
      }
      ReadRowDescribes(d, rows[..i], row);
      d := ReadRow(d, row);
    }
    assert rows[..|rows|] == rows;
    r := Ok(d);
  }

  /** On a well-named schema the loop succeeds and yields `Reread`. */
  lemma ReadingAgrees(rows: seq<SchemaRow>, s: Schema)
    requires WellNamed(s) && Lists(rows, s)
    ensures Describes(Reread(s), rows)
  {
    forall row | row in rows && row.IndexRow? && IsProse(row.name) ensures Decodable(row.table, row.name) {
      assert IndexRow(row.name, row.table) in rows;
      OurIndexesDecode(s, row.name);
    }
    forall t | t in Reread(s) ensures t in TablesIn(rows) && IndexesIn(rows, t) == Reread(s)[t] {
      assert TableRow(t) in rows;
      forall i | i in Reread(s)[t] ensures i in IndexesIn(rows, t) {
        var n :| n in s.indexes && s.indexes[n] == t && Decodable(t, n) && DecodeIndexName(t, n) == i;
        assert IndexRow(n, t) in rows;
      }
    }
  }
}
