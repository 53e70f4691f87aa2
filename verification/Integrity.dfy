/** The structural checks over a generated dataset. Each check loops over rows and appends
    findings; its contract says exactly when it reports nothing. */
module Integrity {
  import opened Wrappers

  /** A field of a row: None is Python's None, and `row.get` of a missing field. */
  type Field = Option<string>
  type Record = map<string, Field>
  type Dataset = map<string, seq<Record>>

  datatype Column = Column(name: string, nullable: bool, primaryKey: bool, references: Option<(string, string)>)
  datatype TableDef = TableDef(name: string, columns: seq<Column>)

  datatype Finding = Finding(table: string, rule: string)

  function FieldOf(row: Record, name: string): Field {
    if name in row then row[name] else None
  }

  /** `str(value)` */
  function Str(f: Field): string {
    if f.Some? then f.value else "None"
  }

  function RowsOf(ds: Dataset, table: string): seq<Record> {
    if table in ds then ds[table] else []
  }

  // ----------------------------------------------------------------- primary keys

  function KeyNames(columns: seq<Column>): seq<string> {
    if columns == [] then []
    else if columns[0].primaryKey then [columns[0].name] + KeyNames(columns[1..])
    else KeyNames(columns[1..])
  }

  function KeyOf(row: Record, names: seq<string>): seq<string> {
    if names == [] then [] else [Str(FieldOf(row, names[0]))] + KeyOf(row, names[1..])
  }

  predicate NullPart(key: seq<string>) {
    exists part :: part in key && (part == "None" || part == "")
  }

  ghost predicate KeysClean(rows: seq<Record>, names: seq<string>) {
    && (forall i | 0 <= i < |rows| :: !NullPart(KeyOf(rows[i], names)))
    && (forall i, j | 0 <= i < j < |rows| :: KeyOf(rows[i], names) != KeyOf(rows[j], names))
  }

  /** Nothing is reported exactly when, in every table with a key, no key part is null or
      empty and no two rows share a key. */
  method CheckPrimaryKeys(schema: seq<TableDef>, ds: Dataset) returns (findings: seq<Finding>)
    ensures findings == [] <==>
            forall t | t in schema && KeyNames(t.columns) != [] :: KeysClean(RowsOf(ds, t.name), KeyNames(t.columns))
  {
    findings := [];
    for i := 0 to |schema|
      invariant findings == [] <==>
                forall t | t in schema[..i] && KeyNames(t.columns) != [] ::
                  KeysClean(RowsOf(ds, t.name), KeyNames(t.columns))
    {
      var keys := KeyNames(schema[i].columns);
      assert schema[..i + 1] == schema[..i] + [schema[i]];
      if keys != [] {
        var some := CheckTableKeys(schema[i].name, RowsOf(ds, schema[i].name), keys);
        findings := findings + some;
      }
    }
    assert schema[..|schema|] == schema;
  }

  /** `str(row.get(column))` of a stored row. */
  ghost predicate Shows(row: Record, column: string, text: string) {
    if column in row && row[column].Some? then text == row[column].value else text == "None"
  }

  lemma {:induction false} KeyNamesMembers(columns: seq<Column>, name: string)
    ensures name in KeyNames(columns) <==> exists c :: c in columns && c.primaryKey && c.name == name
  {
    if columns != [] {
      KeyNamesMembers(columns[1..], name);
      assert columns == [columns[0]] + columns[1..];
    }
  }

  lemma {:induction false} KeyParts(row: Record, names: seq<string>)
    ensures |KeyOf(row, names)| == |names|
    ensures forall k | 0 <= k < |names| :: Shows(row, names[k], KeyOf(row, names)[k])
  {
    if names != [] {
      KeyParts(row, names[1..]);
    }
  }

  /** A key column that is null or empty in a row. */
  ghost predicate Keyless(row: Record, name: string) {
    Shows(row, name, "None") || Shows(row, name, "")
  }

  ghost predicate Alike(a: Record, b: Record, name: string) {
    exists text :: Shows(a, name, text) && Shows(b, name, text)
  }

  lemma {:induction false} NullPartMeans(row: Record, names: seq<string>)
    ensures NullPart(KeyOf(row, names)) <==> exists name :: name in names && Keyless(row, name)
  {
    KeyParts(row, names);
    var key := KeyOf(row, names);
    hide KeyOf;
    if name :| name in names && Keyless(row, name) {
      var k :| 0 <= k < |names| && names[k] == name;
      assert key[k] in key;
    }
    if part :| part in key && (part == "None" || part == "") {
      var k :| 0 <= k < |key| && key[k] == part;
      assert names[k] in names && Keyless(row, names[k]);
    }
  }

  lemma {:induction false} SameKeyMeans(a: Record, b: Record, names: seq<string>)
    ensures KeyOf(a, names) == KeyOf(b, names) <==> forall name :: name in names ==> Alike(a, b, name)
  {
    KeyParts(a, names);
    KeyParts(b, names);
    var first, second := KeyOf(a, names), KeyOf(b, names);
    hide KeyOf;
    if first == second {
      forall name | name in names
        ensures Alike(a, b, name)
      {
        var k :| 0 <= k < |names| && names[k] == name;
        assert Shows(a, name, first[k]) && Shows(b, name, first[k]);
      }
    }
    if forall name :: name in names ==> Alike(a, b, name) {
      forall k | 0 <= k < |names|
        ensures first[k] == second[k]
      {
        assert Alike(a, b, names[k]);
      }
      assert first == second;
    }
  }

  /** What a clean report says of one table, told from its rows and the columns that are its key:
      no row lacks a part of the key, and any two differ in some part of it. */
  lemma {:induction false} KeysCleanMeans(ds: Dataset, t: TableDef)
    ensures KeysClean(RowsOf(ds, t.name), KeyNames(t.columns)) <==>
              (t.name in ds ==>
                && (forall row, c ::
                      row in ds[t.name] && c in t.columns && c.primaryKey ==> !Keyless(row, c.name))
                && (forall i, j | 0 <= i < j < |ds[t.name]| ::
                      exists c :: c in t.columns && c.primaryKey && !Alike(ds[t.name][i], ds[t.name][j], c.name)))
  {
    var names := KeyNames(t.columns);
    forall name
      ensures name in names <==> exists c :: c in t.columns && c.primaryKey && c.name == name
    {
      KeyNamesMembers(t.columns, name);
    }
    if t.name in ds {
      var rows := ds[t.name];
      forall i | 0 <= i < |rows|
        ensures NullPart(KeyOf(rows[i], names)) <==> exists name :: name in names && Keyless(rows[i], name)
      {
        NullPartMeans(rows[i], names);
      }
      forall i, j | 0 <= i < j < |rows|
        ensures KeyOf(rows[i], names) == KeyOf(rows[j], names) <==>
                  forall name :: name in names ==> Alike(rows[i], rows[j], name)
      {
        SameKeyMeans(rows[i], rows[j], names);
      }
      hide KeyOf, NullPart, Keyless, Alike, KeyNames;
      assert forall c :: c in t.columns && c.primaryKey ==> c.name in names;
      assert (forall i | 0 <= i < |rows| :: !NullPart(KeyOf(rows[i], names))) <==>
               forall row, c :: row in rows && c in t.columns && c.primaryKey ==> !Keyless(row, c.name) by {
        assert forall i | 0 <= i < |rows| :: rows[i] in rows;
      }
      forall i, j | 0 <= i < j < |rows|
        ensures KeyOf(rows[i], names) != KeyOf(rows[j], names) <==>
                  exists c :: c in t.columns && c.primaryKey && !Alike(rows[i], rows[j], c.name)
      {
      }
    }
  }

  ghost function KeysSeen(rows: seq<Record>, names: seq<string>, n: nat): set<seq<string>>
    requires n <= |rows|
  {
    set j | 0 <= j < n :: KeyOf(rows[j], names)
  }

  method CheckTableKeys(table: string, rows: seq<Record>, names: seq<string>) returns (findings: seq<Finding>)
    ensures findings == [] <==> KeysClean(rows, names)
  {
    hide KeyOf, NullPart, KeysClean, KeysSeen;
    findings := [];
    var seen: set<seq<string>> := {};
    NothingSeen(rows, names);
    for i := 0 to |rows|
      invariant seen == KeysSeen(rows, names, i)
      invariant findings == [] <==> KeysClean(rows[..i], names)
    {
      var value := KeyOf(rows[i], names);
      if NullPart(value) {
        findings := findings + [Finding(table, "primary-key-null")];
      } else if value in seen {
        findings := findings + [Finding(table, "primary-key-duplicate")];
      }
      RowSeen(rows, names, i);
      seen := seen + {value};
    }
    assert rows[..|rows|] == rows;
  }

  lemma {:induction false} NothingSeen(rows: seq<Record>, names: seq<string>)
    ensures KeysSeen(rows, names, 0) == {} && KeysClean(rows[..0], names)
  {
  }

  /** One more row: it must hold a whole key that was not seen before. */
  lemma {:induction false} RowSeen(rows: seq<Record>, names: seq<string>, i: nat)
    requires i < |rows|
    ensures KeysSeen(rows, names, i + 1) == KeysSeen(rows, names, i) + {KeyOf(rows[i], names)}
    ensures KeysClean(rows[..i + 1], names) <==>
              && KeysClean(rows[..i], names) && !NullPart(KeyOf(rows[i], names))
              && KeyOf(rows[i], names) !in KeysSeen(rows, names, i)
  {
    hide KeyOf, NullPart;
    var key := KeyOf(rows[i], names);
    if NullPart(key) {
      assert NullPart(KeyOf(rows[..i + 1][i], names));
    } else if key in KeysSeen(rows, names, i) {
      var j :| 0 <= j < i && KeyOf(rows[j], names) == key;
      assert KeyOf(rows[..i + 1][j], names) == KeyOf(rows[..i + 1][i], names);
    } else {
      forall j | 0 <= j < i
        ensures KeyOf(rows[j], names) != key
      {
        assert KeyOf(rows[j], names) in KeysSeen(rows, names, i);
      }
      KeysCleanPrefix(rows, names, i);
    }
  }

  lemma {:induction false} KeysCleanPrefix(rows: seq<Record>, names: seq<string>, i: nat)
    requires i < |rows| && !NullPart(KeyOf(rows[i], names))
    requires forall j | 0 <= j < i :: KeyOf(rows[j], names) != KeyOf(rows[i], names)
    ensures KeysClean(rows[..i + 1], names) <==> KeysClean(rows[..i], names)
  {
    hide KeyOf, NullPart;
    var longer, shorter := rows[..i + 1], rows[..i];
    if KeysClean(longer, names) {
      forall j | 0 <= j < i
        ensures !NullPart(KeyOf(shorter[j], names))
      {
        assert longer[j] == shorter[j];
      }
      forall j, k | 0 <= j < k < i
        ensures KeyOf(shorter[j], names) != KeyOf(shorter[k], names)
      {
        assert longer[j] == shorter[j] && longer[k] == shorter[k];
      }
    }
  }

  // ----------------------------------------------------------------- foreign keys

  ghost predicate IsKey(schema: seq<TableDef>, target: (string, string)) {
    exists t, c :: t in schema && c in t.columns && c.primaryKey && target == (t.name, c.name)
  }

  ghost function Targets(ds: Dataset, target: (string, string)): set<string> {
    set row | row in RowsOf(ds, target.0) :: Str(FieldOf(row, target.1))
  }

  ghost predicate ReferenceHolds(ds: Dataset, row: Record, column: Column)
    requires column.references.Some?
  {
    match FieldOf(row, column.name)
    case None => column.nullable
    case Some(v) => v in Targets(ds, column.references.value)
  }

  ghost predicate ColumnClean(schema: seq<TableDef>, ds: Dataset, table: string, column: Column) {
    column.references.Some? ==>
      && IsKey(schema, column.references.value)
      && forall i | 0 <= i < |RowsOf(ds, table)| :: ReferenceHolds(ds, RowsOf(ds, table)[i], column)
  }

  ghost predicate TableClean(schema: seq<TableDef>, ds: Dataset, table: TableDef) {
    forall c | c in table.columns :: ColumnClean(schema, ds, table.name, c)
  }

  type Known = map<(string, string), set<string>>

  ghost predicate Collected(known: Known, schema: seq<TableDef>, ds: Dataset) {
    && (forall k :: k in known <==> IsKey(schema, k))
    && (forall k | k in known :: known[k] == Targets(ds, k))
  }

  /** One more table adds its own key columns. */
  lemma {:induction false} KeysOfOneMore(tables: seq<TableDef>, t: TableDef, k: (string, string))
    ensures IsKey(tables + [t], k) <==>
              IsKey(tables, k) || exists c :: c in t.columns && c.primaryKey && k == (t.name, c.name)
  {
    var more := tables + [t];
    if IsKey(more, k) {
      var t', c :| t' in more && c in t'.columns && c.primaryKey && k == (t'.name, c.name);
      assert t' in tables || t' == t;
    }
    if IsKey(tables, k) {
      var t', c :| t' in tables && c in t'.columns && c.primaryKey && k == (t'.name, c.name);
      assert t' in more;
    }
    if c :| c in t.columns && c.primaryKey && k == (t.name, c.name) {
      assert t in more;
    }
  }

  lemma {:induction false} NoColumnsNoKeys(known: Known, tables: seq<TableDef>, name: string, ds: Dataset)
    requires Collected(known, tables, ds)
    ensures Collected(known, tables + [TableDef(name, [])], ds)
  {
    hide IsKey, Targets;
    forall k
      ensures k in known <==> IsKey(tables + [TableDef(name, [])], k)
    {
      KeysOfOneMore(tables, TableDef(name, []), k);
    }
  }

  lemma {:induction false} ColumnCollected(
    known: Known, more: Known, tables: seq<TableDef>, name: string, columns: seq<Column>, c: Column, ds: Dataset)
    requires Collected(known, tables + [TableDef(name, columns)], ds)
    requires more == if c.primaryKey then known[(name, c.name) := Targets(ds, (name, c.name))] else known
    ensures Collected(more, tables + [TableDef(name, columns + [c])], ds)
  {
    hide IsKey, Targets;
    forall k
      ensures k in more <==> IsKey(tables + [TableDef(name, columns + [c])], k)
    {
      KeysOfOneMore(tables, TableDef(name, columns), k);
      KeysOfOneMore(tables, TableDef(name, columns + [c]), k);
    }
  }

  lemma {:induction false} NothingCollected(ds: Dataset)
    ensures Collected(map[], [], ds)
  {
  }

  method CollectKeys(schema: seq<TableDef>, ds: Dataset) returns (known: Known)
    ensures Collected(known, schema, ds)
  {
    hide IsKey;
    known := map[];
    NothingCollected(ds);
    for i := 0 to |schema|
      invariant Collected(known, schema[..i], ds)
    {
      var t := schema[i];
      assert schema[..i + 1] == schema[..i] + [t];
      NoColumnsNoKeys(known, schema[..i], t.name, ds);
      for j := 0 to |t.columns|
        invariant Collected(known, schema[..i] + [TableDef(t.name, t.columns[..j])], ds)
      {
        var c := t.columns[j];
        ghost var before := known;
        if c.primaryKey {
          var values := set row | row in RowsOf(ds, t.name) :: Str(FieldOf(row, c.name));
          var key := (t.name, c.name);
          assert values == Targets(ds, key);
          assert (if key in known then known[key] else {}) + values == values;
          known := known[key := (if key in known then known[key] else {}) + values];
        }
        ColumnCollected(before, known, schema[..i], t.name, t.columns[..j], c, ds);
        assert t.columns[..j + 1] == t.columns[..j] + [c];
      }
      assert t.columns[..|t.columns|] == t.columns;
      assert t == TableDef(t.name, t.columns);
    }
    assert schema[..|schema|] == schema;
  }

  /** Nothing is reported exactly when every reference names a declared key column, and every
      value is null where that is allowed or present among the key's values. */
  method CheckForeignKeys(schema: seq<TableDef>, ds: Dataset) returns (findings: seq<Finding>)
    ensures findings == [] <==> forall t | t in schema :: TableClean(schema, ds, t)
  {
    hide ColumnClean, Collected;
    findings := [];
    var known := CollectKeys(schema, ds);
    for i := 0 to |schema|
      invariant findings == [] <==> forall t | t in schema[..i] :: TableClean(schema, ds, t)
    {
      var t := schema[i];
      assert schema[..i + 1] == schema[..i] + [t];
      ghost var before := findings;
      for j := 0 to |t.columns|
        invariant findings == [] <==>
                  before == [] && forall c | c in t.columns[..j] :: ColumnClean(schema, ds, t.name, c)
      {
        assert t.columns[..j + 1] == t.columns[..j] + [t.columns[j]];
        var some := CheckColumn(schema, ds, t.name, t.columns[j], known);
        findings := findings + some;
      }
      assert t.columns[..|t.columns|] == t.columns;
      assert findings == [] <==> before == [] && TableClean(schema, ds, t);
      assert forall u :: u in schema[..i + 1] <==> u in schema[..i] || u == t;
    }
    assert schema[..|schema|] == schema;
  }

  method CheckColumn(ghost schema: seq<TableDef>, ds: Dataset, table: string, column: Column, known: Known)
    returns (findings: seq<Finding>)
    requires Collected(known, schema, ds)
    ensures findings == [] <==> ColumnClean(schema, ds, table, column)
  {
    findings := [];
    if column.references.None? {
      return;
    }
    var target := column.references.value;
    if target !in known {
      return [Finding(table, "foreign-key-target-missing")];
    }
    var rows := RowsOf(ds, table);
    for i := 0 to |rows|
      invariant findings == [] <==> forall k | 0 <= k < i :: ReferenceHolds(ds, rows[k], column)
    {
      match FieldOf(rows[i], column.name)
      case None =>
        if !column.nullable {
          findings := findings + [Finding(table, "foreign-key-null")];
        }
      case Some(v) =>
        if v !in known[target] {
          findings := findings + [Finding(table, "foreign-key-dangling")];
        }
    }
  }

  // -------------------------------------------------------------------- hierarchy

  type Managers = map<Field, Field>

  /** `managers.get(cursor)` */
  function Above(managers: Managers, f: Field): Field {
    if f in managers then managers[f] else None
  }

  /** The cursor after `n` steps up from `start`; it stays at None once it gets there. */
  function Climb(managers: Managers, start: Field, n: nat): Field {
    if n == 0 then start
    else
      var below := Climb(managers, start, n - 1);
      if below.None? then None else Above(managers, below)
  }

  /** The walk from here ends. */
  ghost predicate Ends(managers: Managers, start: Field) {
    exists n: nat :: Climb(managers, start, n).None?
  }

  ghost predicate OneRoot(managers: Managers) {
    exists r :: r in managers && managers[r].None? && forall e | e in managers && managers[e].None? :: e == r
  }

  ghost predicate HierarchyClean(managers: Managers) {
    OneRoot(managers) && forall e | e in managers :: Ends(managers, e)
  }

  lemma {:induction false} StaysNone(managers: Managers, start: Field, k: nat, n: nat)
    requires k <= n && Climb(managers, start, k).None?
    ensures Climb(managers, start, n).None?
  {
    if k < n {
      StaysNone(managers, start, k, n - 1);
    }
  }

  lemma {:induction false} Periodic(managers: Managers, start: Field, k: nat, n: nat, j: nat)
    requires k < n <= j && Climb(managers, start, k) == Climb(managers, start, n)
    ensures Climb(managers, start, j) == Climb(managers, start, j - (n - k))
  {
    if j > n {
      Periodic(managers, start, k, n, j - 1);
    }
  }

  /** A cursor seen twice is a walk that never ends. */
  lemma {:induction false} RepeatNeverEnds(managers: Managers, start: Field, k: nat, n: nat, j: nat)
    requires k < n && Climb(managers, start, k) == Climb(managers, start, n)
    requires Climb(managers, start, n).Some?
    ensures Climb(managers, start, j).Some?
    decreases j
  {
    if j < n {
      if Climb(managers, start, j).None? {
        StaysNone(managers, start, j, n);
      }
    } else if j > n {
      Periodic(managers, start, k, n, j);
      RepeatNeverEnds(managers, start, k, n, j - (n - k));
    }
  }

  /** Every cursor in `seen` was met within the first `n` steps. */
  ghost predicate Trail(managers: Managers, start: Field, seen: set<Field>, n: nat) {
    forall f | f in seen :: exists k: nat :: k < n && Climb(managers, start, k) == f
  }

  lemma {:induction false} RevisitNeverEnds(managers: Managers, start: Field, seen: set<Field>, n: nat)
    requires Trail(managers, start, seen, n) && Climb(managers, start, n).Some? && Climb(managers, start, n) in seen
    ensures !Ends(managers, start)
  {
    var k: nat :| k < n && Climb(managers, start, k) == Climb(managers, start, n);
    forall j: nat
      ensures Climb(managers, start, j).Some?
    {
      RepeatNeverEnds(managers, start, k, n, j);
    }
  }

  lemma {:induction false} TrailGrows(managers: Managers, start: Field, seen: set<Field>, n: nat)
    requires Trail(managers, start, seen, n)
    ensures Trail(managers, start, seen + {Climb(managers, start, n)}, n + 1)
  {
    hide Climb;
    forall f | f in seen + {Climb(managers, start, n)}
      ensures exists k: nat :: k < n + 1 && Climb(managers, start, k) == f
    {
      if f in seen {
        var k: nat :| k < n && Climb(managers, start, k) == f;
        assert k < n + 1 && Climb(managers, start, k) == f;
      }
    }
  }

  lemma {:induction false} EndsAt(managers: Managers, start: Field, n: nat)
    requires Climb(managers, start, n).None?
    ensures Ends(managers, start)
  {
  }

  /** Cycle detection is sound and complete: the walk reports a cycle exactly when it would never end. */
  method WalkUp(managers: Managers, start: Field) returns (cycle: bool)
    ensures cycle <==> !Ends(managers, start)
  {
    hide Ends, Trail;
    var seen: set<Field> := {};
    var cursor := start;
    ghost var n: nat := 0;
    assert Trail(managers, start, {}, 0) by { NoTrail(managers, start); }
    while cursor.Some?
      invariant cursor == Climb(managers, start, n)
      invariant Trail(managers, start, seen, n)
      decreases |managers.Keys - seen|, if cursor.Some? then 1 else 0
    {
      if cursor in seen {
        RevisitNeverEnds(managers, start, seen, n);
        return true;
      }
      VisitingShrinks(managers, seen, cursor);
      TrailGrows(managers, start, seen, n);
      seen := seen + {cursor};
      cursor := Above(managers, cursor);
      n := n + 1;
    }
    EndsAt(managers, start, n);
    return false;
  }

  lemma {:induction false} NoTrail(managers: Managers, start: Field)
    ensures Trail(managers, start, {}, 0)
  {
  }

  lemma {:induction false} VisitingShrinks(managers: Managers, seen: set<Field>, cursor: Field)
    requires cursor !in seen
    ensures cursor in managers ==> |managers.Keys - (seen + {cursor})| < |managers.Keys - seen|
    ensures cursor !in managers ==> |managers.Keys - (seen + {cursor})| == |managers.Keys - seen|
  {
    if cursor in managers {
      assert cursor in managers.Keys - seen;
      SmallerSet(managers.Keys - (seen + {cursor}), managers.Keys - seen);
    } else {
      assert managers.Keys - (seen + {cursor}) == managers.Keys - seen;
    }
  }

  lemma {:induction false} SmallerSet<T>(a: set<T>, b: set<T>)
    requires a < b
    ensures |a| < |b|
  {
    assert !(b <= a);
    var x :| x in b && x !in a;
    assert a <= b - {x};
    CardinalityLe(a, b - {x});
  }

  lemma {:induction false} CardinalityLe<T>(a: set<T>, b: set<T>)
    requires a <= b
    ensures |a| <= |b|
  {
    if a != {} {
      var x :| x in a;
      CardinalityLe(a - {x}, b - {x});
    }
  }

  function IdOf(row: Record): Field {
    FieldOf(row, "employee_id")
  }

  function BossOf(row: Record): Field {
    FieldOf(row, "manager_id")
  }

  /** `{row["employee_id"]: row.get("manager_id")}`: a later row wins. */
  function ManagersOf(rows: seq<Record>): Managers {
    if rows == [] then map[]
    else
      var last := rows[|rows| - 1];
      ManagersOf(rows[..|rows| - 1])[IdOf(last) := BossOf(last)]
  }

  method ReadManagers(employees: seq<Record>) returns (managers: Managers, order: seq<Field>)
    ensures managers == ManagersOf(employees)
    ensures forall f :: f in order <==> f in managers
    ensures forall i, j | 0 <= i < j < |order| :: order[i] != order[j]
  {
    hide IdOf, BossOf;
    managers, order := map[], [];
    for i := 0 to |employees|
      invariant managers == ManagersOf(employees[..i])
      invariant forall f :: f in order <==> f in managers
      invariant forall i, j | 0 <= i < j < |order| :: order[i] != order[j]
    {
      assert employees[..i + 1][..i] == employees[..i];
      var id := IdOf(employees[i]);
      if id !in managers {
        order := order + [id];
      }
      managers := managers[id := BossOf(employees[i])];
    }
    assert employees[..|employees|] == employees;
  }

  /** `[eid for eid, manager in managers.items() if manager is None]` */
  function RootsAmong(managers: Managers, order: seq<Field>): seq<Field> {
    if order == [] then []
    else if Above(managers, order[0]).None? then [order[0]] + RootsAmong(managers, order[1..])
    else RootsAmong(managers, order[1..])
  }

  lemma {:induction false} RootsAmongMembers(managers: Managers, order: seq<Field>)
    requires forall i, j | 0 <= i < j < |order| :: order[i] != order[j]
    ensures forall f :: f in RootsAmong(managers, order) <==> f in order && Above(managers, f).None?
    ensures forall i, j | 0 <= i < j < |RootsAmong(managers, order)| ::
              RootsAmong(managers, order)[i] != RootsAmong(managers, order)[j]
  {
    if order != [] {
      RootsAmongMembers(managers, order[1..]);
      assert order == [order[0]] + order[1..];
    }
  }

  lemma {:induction false} OtherThan<T>(s: seq<T>, r: T) returns (k: nat)
    requires |s| > 1 && s[0] != s[1]
    ensures k < |s| && s[k] != r
  {
    k := if s[0] != r then 0 else 1;
  }

  lemma {:induction false} OneRootIff(managers: Managers, order: seq<Field>)
    requires forall f :: f in order <==> f in managers
    requires forall i, j | 0 <= i < j < |order| :: order[i] != order[j]
    ensures |RootsAmong(managers, order)| == 1 <==> OneRoot(managers)
  {
    RootsAmongMembers(managers, order);
    var roots := RootsAmong(managers, order);
    hide RootsAmong;
    if |roots| == 1 {
      assert roots[0] in roots;
      forall e | e in managers && managers[e].None?
        ensures e == roots[0]
      {
        assert e in roots;
      }
    }
    if |roots| > 1 {
      forall r | r in managers && managers[r].None?
        ensures exists e :: e in managers && managers[e].None? && e != r
      {
        var k := OtherThan(roots, r);
        assert roots[k] in roots;
      }
    }
    if |roots| == 0 {
      forall r | r in managers
        ensures managers[r].Some?
      {
        assert r !in roots;
      }
    }
  }

  /** Nothing is reported exactly when there is one root and every walk upward ends. */
  method CheckHierarchy(employees: seq<Record>) returns (findings: seq<Finding>)
    ensures findings == [] <==> HierarchyClean(ManagersOf(employees))
  {
    hide ManagersOf, OneRoot, Ends, RootsAmong;
    findings := [];
    var managers, order := ReadManagers(employees);
    OneRootIff(managers, order);
    var roots := RootsAmong(managers, order);
    if |roots| != 1 {
      findings := findings + [Finding("employees", "hierarchy-roots")];
    }
    ghost var before := findings;
    for i := 0 to |order|
      invariant findings == [] <==> before == [] && forall e | e in order[..i] :: Ends(managers, e)
    {
      assert order[..i + 1] == order[..i] + [order[i]];
      var cycle := WalkUp(managers, order[i]);
      if cycle {
        findings := findings + [Finding("employees", "hierarchy-cycle")];
      }
    }
    assert order[..|order|] == order;
  }

  // ----------------------------------------- what the checks mean taken together

  /** Walking up from here arrives at a record with no manager. */
  ghost predicate ReachesRoot(managers: Managers, e: Field) {
    exists n: nat :: Climb(managers, e, n) in managers && managers[Climb(managers, e, n)].None?
  }

  ghost predicate NoneDangling(managers: Managers) {
    forall e | e in managers && managers[e].Some? :: managers[e] in managers
  }

  lemma {:induction false} LastStep(managers: Managers, e: Field, n: nat) returns (k: nat)
    requires e.Some? && Climb(managers, e, n).None?
    ensures Climb(managers, e, k).Some? && Climb(managers, e, k + 1).None?
  {
    if Climb(managers, e, n - 1).Some? {
      k := n - 1;
    } else {
      k := LastStep(managers, e, n - 1);
    }
  }

  lemma {:induction false} ClimbStaysInside(managers: Managers, e: Field, n: nat)
    requires NoneDangling(managers) && e in managers && Climb(managers, e, n).Some?
    ensures Climb(managers, e, n) in managers
  {
    if n > 0 {
      ClimbStaysInside(managers, e, n - 1);
    }
  }

  lemma {:induction false} DanglingNeverReaches(managers: Managers, e: Field)
    requires None !in managers && e in managers && managers[e].Some? && managers[e] !in managers
    ensures Climb(managers, e, 2).None?
    ensures !ReachesRoot(managers, e)
  {
    assert Climb(managers, e, 1) == managers[e];
    assert Climb(managers, e, 2).None?;
    forall n: nat
      ensures !(Climb(managers, e, n) in managers && managers[Climb(managers, e, n)].None?)
    {
      if n >= 2 {
        StaysNone(managers, e, 2, n);
      } else if n == 1 {
        assert Climb(managers, e, 0) == e && Climb(managers, e, n) == managers[e];
      } else {
        assert Climb(managers, e, n) == e;
      }
    }
  }

  /** The hierarchy check alone does not keep managers inside the tree, because a lookup of an
      absent manager ends the walk. Where it is clean, every chain reaches the root if and only
      if no manager is dangling, which is what the foreign-key check adds. */
  lemma {:induction false} CleanHierarchyReachesRootIff(managers: Managers)
    requires HierarchyClean(managers) && None !in managers
    ensures (forall e | e in managers :: ReachesRoot(managers, e)) <==> NoneDangling(managers)
  {
    if NoneDangling(managers) {
      forall e | e in managers
        ensures ReachesRoot(managers, e)
      {
        var n: nat :| Climb(managers, e, n).None?;
        var k := LastStep(managers, e, n);
        ClimbStaysInside(managers, e, k);
      }
    }
    if e :| e in managers && managers[e].Some? && managers[e] !in managers {
      DanglingNeverReaches(managers, e);
    }
  }

  /** Rosters the hierarchy check accepts although one manager does not exist: `b` reports to `c`. */
  lemma {:induction false} DanglingManagerGoesUnreported(a: string, b: string, c: string)
    requires a != b && b != c && a != c
    ensures var managers: Managers := map[Some(a) := None, Some(b) := Some(c)];
            HierarchyClean(managers) && !ReachesRoot(managers, Some(b))
  {
    var managers: Managers := map[Some(a) := None, Some(b) := Some(c)];
    assert Climb(managers, Some(a), 1).None?;
    assert Some(a) in managers && managers[Some(a)].None?;
    DanglingNeverReaches(managers, Some(b));
    hide Climb, ReachesRoot;
    assert OneRoot(managers);
  }

  const EMPLOYEE_ID := Column("employee_id", false, true, None)
  const MANAGER_ID := Column("manager_id", true, false, Some(("employees", "employee_id")))

  lemma {:induction false} ManagersDomain(rows: seq<Record>, e: Field)
    ensures e in ManagersOf(rows) <==> exists i | 0 <= i < |rows| :: IdOf(rows[i]) == e
    ensures e in ManagersOf(rows) ==>
              exists i | 0 <= i < |rows| :: IdOf(rows[i]) == e && BossOf(rows[i]) == ManagersOf(rows)[e]
  {
    hide IdOf, BossOf;
    if rows != [] {
      var front := rows[..|rows| - 1];
      ManagersDomain(front, e);
      assert rows == front + [rows[|rows| - 1]];
      if IdOf(rows[|rows| - 1]) != e && e in ManagersOf(rows) {
        var i :| 0 <= i < |front| && IdOf(front[i]) == e && BossOf(front[i]) == ManagersOf(front)[e];
        assert rows[i] == front[i];
      }
      if i :| 0 <= i < |rows| && IdOf(rows[i]) == e && i < |front| {
        assert front[i] == rows[i];
      }
    }
  }

  /** When the key, foreign-key and hierarchy checks all report nothing, on any dataset, every
      employee's management chain reaches the single root. */
  lemma {:induction false} CleanChecksReachTheRoot(schema: seq<TableDef>, ds: Dataset, employees: TableDef)
    requires employees in schema && employees.name == "employees"
    requires EMPLOYEE_ID in employees.columns && MANAGER_ID in employees.columns
    requires KeyNames(employees.columns) == ["employee_id"]
    requires forall t | t in schema && KeyNames(t.columns) != [] :: KeysClean(RowsOf(ds, t.name), KeyNames(t.columns))
    requires forall t | t in schema :: TableClean(schema, ds, t)
    requires HierarchyClean(ManagersOf(RowsOf(ds, "employees")))
    ensures forall e | e in ManagersOf(RowsOf(ds, "employees")) :: ReachesRoot(ManagersOf(RowsOf(ds, "employees")), e)
    ensures OneRoot(ManagersOf(RowsOf(ds, "employees")))
  {
    hide KeysClean, TableClean, RowsOf, ManagersOf;
    var rows := RowsOf(ds, "employees");
    assert KeysClean(rows, ["employee_id"]) by {
      assert KeyNames(employees.columns) != [];
    }
    KeyedRowsHaveIds(rows);
    ManagersDomain(rows, None);
    ManagersAreEmployees(schema, ds, employees);
    CleanHierarchyReachesRootIff(ManagersOf(rows));
  }

  lemma {:induction false} KeyedRowsHaveIds(rows: seq<Record>)
    requires KeysClean(rows, ["employee_id"])
    ensures forall i | 0 <= i < |rows| :: IdOf(rows[i]).Some?
  {
    var names := ["employee_id"];
    forall i | 0 <= i < |rows|
      ensures IdOf(rows[i]).Some?
    {
      assert KeyOf(rows[i], names) == [Str(IdOf(rows[i]))] by {
        assert names[1..] == [];
      }
      assert !NullPart(KeyOf(rows[i], names));
      assert Str(IdOf(rows[i])) in KeyOf(rows[i], names);
    }
  }

  /** A clean foreign-key check leaves no manager outside the table. */
  lemma {:induction false} ManagersAreEmployees(schema: seq<TableDef>, ds: Dataset, employees: TableDef)
    requires employees.name == "employees" && MANAGER_ID in employees.columns && TableClean(schema, ds, employees)
    requires forall i | 0 <= i < |RowsOf(ds, "employees")| :: IdOf(RowsOf(ds, "employees")[i]).Some?
    ensures var managers := ManagersOf(RowsOf(ds, "employees"));
            forall e | e in managers && managers[e].Some? :: managers[e] in managers
  {
    hide ManagersOf;
    var rows := RowsOf(ds, "employees");
    var managers := ManagersOf(rows);
    assert ColumnClean(schema, ds, "employees", MANAGER_ID);
    forall e | e in managers && managers[e].Some?
      ensures managers[e] in managers
    {
      ManagersDomain(rows, e);
      var i :| 0 <= i < |rows| && IdOf(rows[i]) == e && BossOf(rows[i]) == managers[e];
      assert ReferenceHolds(ds, rows[i], MANAGER_ID);
      var boss :| boss in rows && Str(FieldOf(boss, "employee_id")) == managers[e].value;
      var j :| 0 <= j < |rows| && rows[j] == boss;
      assert IdOf(rows[j]) == managers[e];
      ManagersDomain(rows, managers[e]);
    }
  }
}
