/** The read paths agree with one another: list, count, aggregate and hierarchy are views of
    the same rows, and the handlers built on them return what their contracts promise. */
module ReadAgreement {
  import opened Wrappers
  import opened Sorting
  import opened Relational
  import opened Repository
  import opened Toolbox

  // --------------------------------------------------------------- what a filter means

  /** A row meets one filter; a null filter or an empty list is met by every row. */
  ghost predicate Meets(row: Row, column: string, filter: FilterValue) {
    match filter
    case One(arg) => arg.ArgNone? || SqlEq(Cell(row, column), Bind(arg))
    case Many(items) => items == [] || exists i | 0 <= i < |items| :: Cell(row, column) == Text(items[i])
  }

  /** Equality of arguments as Python has it: a truth value is the number 0 or 1. */
  ghost predicate PythonEqual(a: Arg, b: Arg) {
    match (a, b)
    case (ArgNone, ArgNone) => true
    case (ArgText(x), ArgText(y)) => x == y
    case (ArgBool(x), ArgBool(y)) => x == y
    case (ArgBool(x), ArgInt(n)) => n == if x then 1 else 0
    case (ArgBool(x), ArgFloat(f)) => f == if x then 1.0 else 0.0
    case (ArgInt(n), ArgBool(x)) => n == if x then 1 else 0
    case (ArgInt(n), ArgInt(m)) => n == m
    case (ArgInt(n), ArgFloat(f)) => n as real == f
    case (ArgFloat(f), ArgBool(x)) => f == if x then 1.0 else 0.0
    case (ArgFloat(f), ArgInt(n)) => n as real == f
    case (ArgFloat(f), ArgFloat(g)) => f == g
    case _ => false
  }

  /** Binding an argument to a statement neither joins what Python tells apart nor parts what it
      holds equal. */
  lemma {:induction false} BindingKeepsEquality(a: Arg, b: Arg)
    ensures Bind(a) == Bind(b) <==> PythonEqual(a, b)
  {
  }

  lemma {:induction false} TextsMembers(items: seq<string>, v: Value)
    ensures v in Texts(items) <==> exists i | 0 <= i < |items| :: v == Text(items[i])
  {
    if items != [] {
      TextsMembers(items[1..], v);
      assert Texts(items) == [Text(items[0])] + Texts(items[1..]);
      if v in Texts(items) && v != Text(items[0]) {
        var i :| 0 <= i < |items[1..]| && v == Text(items[1..][i]);
        assert v == Text(items[i + 1]);
      }
      if i :| 0 <= i < |items| && v == Text(items[i]) && i > 0 {
        assert v == Text(items[1..][i - 1]);
      }
    }
  }

  lemma {:induction false} ClauseMeaning(row: Row, column: string, filter: FilterValue)
    ensures Satisfies(row, ClauseFor(column, filter)) <==> Meets(row, column, filter)
  {
    match filter
    case One(arg) =>
      if !arg.ArgNone? {
        var clause := In(column, [Bind(arg)]);
        assert ClauseFor(column, filter) == [clause];
        assert Holds(row, clause) <==> SqlEq(Cell(row, column), Bind(arg)) by {
          assert Bind(arg) in clause.values;
        }
        assert clause in [clause];
      }
    case Many(items) =>
      if items != [] {
        var clause := In(column, Texts(items));
        assert ClauseFor(column, filter) == [clause];
        assert clause in [clause];
        var cell := Cell(row, column);
        TextsMembers(items, cell);
        assert Holds(row, clause) <==> cell in Texts(items) && cell != Null;
      }
  }

  lemma {:induction false} SatisfiesBoth(row: Row, a: seq<Clause>, b: seq<Clause>)
    ensures Satisfies(row, a + b) <==> Satisfies(row, a) && Satisfies(row, b)
  {
    assert forall c :: c in a + b <==> c in a || c in b;
  }

  ghost predicate MeetsAll(row: Row, filters: Dict<FilterValue>) {
    forall f | f in filters :: Meets(row, f.0, f.1)
  }

  lemma {:induction false} ClausesMeaning(table: Table, filters: Dict<FilterValue>, row: Row)
    ensures ClausesOf(table, filters).Ok? <==> forall f | f in filters :: f.0 in Filterable(table)
    ensures ClausesOf(table, filters).Ok? ==>
              (Satisfies(row, ClausesOf(table, filters).value) <==> MeetsAll(row, filters))
  {
    hide Filterable, Satisfies, Meets;
    if filters == [] {
      SatisfiesBoth(row, [], []);
      ClauseMeaning(row, "", One(ArgNone));
      assert Meets(row, "", One(ArgNone)) by { NullMeets(row, ""); }
    } else {
      ClausesMeaning(table, filters[1..], row);
      ClauseMeaning(row, filters[0].0, filters[0].1);
      assert filters == [filters[0]] + filters[1..];
      assert forall f :: f in filters <==> f == filters[0] || f in filters[1..];
      if ClausesOf(table, filters).Ok? {
        SatisfiesBoth(row, ClauseFor(filters[0].0, filters[0].1), ClausesOf(table, filters[1..]).value);
      }
    }
  }

  lemma {:induction false} NullMeets(row: Row, column: string)
    ensures Meets(row, column, One(ArgNone))
  {
  }

  /** The clause built in key order is accepted exactly when every key is filterable, and it
      selects exactly the rows that meet every filter, whatever order the keys came in. */
  lemma {:induction false} FilterMeaning(table: Table, filters: Dict<FilterValue>, row: Row)
    ensures FilterClause(table, filters).Ok? <==> forall f | f in filters :: f.0 in Filterable(table)
    ensures FilterClause(table, filters).Ok? ==>
              (Satisfies(row, FilterClause(table, filters).value) <==> MeetsAll(row, filters))
  {
    hide Filterable, Satisfies, Meets;
    ClausesMeaning(table, Sort(filters, ByName()), row);
    SortMembers(filters, ByName());
  }

  // -------------------------------------------------------------------- list and count

  lemma {:induction false} ProjectLength(rows: seq<Row>, hidden: set<string>)
    ensures |Project(rows, hidden)| == |rows|
    ensures forall i | 0 <= i < |rows| :: Project(rows, hidden)[i] == rows[i] - hidden
  {
    if rows != [] {
      ProjectLength(rows[1..], hidden);
    }
  }

  /** A list is as long as the count, up to the clamped limit; both fail together. */
  lemma {:induction false} ListLengthIsCount(db: Database, regions: set<string>, table: Table,
                                             filters: Dict<FilterValue>, limit: int, personal: bool)
    ensures match (ListRows(db, regions, table, filters, limit, personal), CountRows(db, regions, table, filters))
            case (Ok(list), Ok(n)) => |list| == if n < Clamp(limit) then n else Clamp(limit)
            case (Err(e1), Err(e2)) => e1 == e2
            case _ => false
  {
    hide ScopedFrom, FilterClause;
    var rows := Matching(db, regions, table, filters);
    if rows.Ok? {
      SortMultiset(rows.value, OrderBy(PrimaryKey(table)));
      ProjectLength(Take(Sort(rows.value, OrderBy(PrimaryKey(table))), Clamp(limit)), Hidden(table, personal));
    }
  }

  /** Whatever the limit asked for, a list shows at least one row if there is any, and never more
      than two hundred; a limit from 1 to 200 is kept to. */
  lemma {:induction false} ListIsCapped(db: Database, regions: set<string>, table: Table, filters: Dict<FilterValue>,
                                        limit: int, personal: bool)
    requires ListRows(db, regions, table, filters, limit, personal).Ok?
    ensures var shown := |ListRows(db, regions, table, filters, limit, personal).value|;
            && CountRows(db, regions, table, filters).Ok?
            && var n := CountRows(db, regions, table, filters).value;
               && shown <= 200
               && (1 <= limit <= 200 ==> shown == if n <= limit then n else limit)
               && (limit > 200 ==> shown == if n <= 200 then n else 200)
               && (limit < 1 ==> shown == if n <= 1 then n else 1)
  {
    hide ListRows, CountRows;
    ListLengthIsCount(db, regions, table, filters, limit, personal);
  }

  /** A smaller limit gives a prefix of what a larger one gives. */
  lemma {:induction false} ListPrefix(db: Database, regions: set<string>, table: Table, filters: Dict<FilterValue>,
                                      small: int, large: int, personal: bool)
    requires small <= large
    requires ListRows(db, regions, table, filters, large, personal).Ok?
    ensures ListRows(db, regions, table, filters, small, personal).Ok?
    ensures ListRows(db, regions, table, filters, small, personal).value
         <= ListRows(db, regions, table, filters, large, personal).value
  {
    hide ScopedFrom, FilterClause;
    var sorted := Sort(Matching(db, regions, table, filters).value, OrderBy(PrimaryKey(table)));
    ProjectLength(Take(sorted, Clamp(small)), Hidden(table, personal));
    ProjectLength(Take(sorted, Clamp(large)), Hidden(table, personal));
  }

  lemma {:induction false} KeysNotHidden(table: Table, column: string, personal: bool)
    requires column in PrimaryKey(table)
    ensures column !in Hidden(table, personal)
  {
  }

  lemma {:induction false} RowLeSameKeys(a: Row, b: Row, c: Row, d: Row, columns: seq<string>)
    requires forall k | k in columns :: Cell(a, k) == Cell(c, k) && Cell(b, k) == Cell(d, k)
    ensures RowLe(a, b, columns) == RowLe(c, d, columns)
  {
    if columns != [] {
      assert columns[0] in columns;
      assert forall k | k in columns[1..] :: k in columns;
      RowLeSameKeys(a, b, c, d, columns[1..]);
    }
  }

  /** A list is in primary-key order, and the rows that match are the listed ones, before their
      hidden columns are dropped, and others that sort after every one of them. */
  lemma {:induction false} ListIsOrdered(db: Database, regions: set<string>, table: Table, filters: Dict<FilterValue>,
                                         limit: int, personal: bool) returns (leftOut: seq<Row>)
    requires ListRows(db, regions, table, filters, limit, personal).Ok?
    ensures var list := ListRows(db, regions, table, filters, limit, personal).value;
            && Sorted(list, OrderBy(PrimaryKey(table)))
            && (forall i, j | 0 <= i < |list| && 0 <= j < |leftOut| :: OrderBy(PrimaryKey(table))(list[i], leftOut[j]))
            && exists listed :: multiset(listed + leftOut) == multiset(Matching(db, regions, table, filters).value)
                                && list == Project(listed, Hidden(table, personal))
  {
    hide ScopedFrom, FilterClause, PrimaryKey, Hidden, Sort, RowLe;
    var keys, hidden := PrimaryKey(table), Hidden(table, personal);
    var rows := Matching(db, regions, table, filters).value;
    var sorted := Sort(rows, OrderBy(keys));
    OrderByIsPreorder(keys);
    SortSorted(rows, OrderBy(keys));
    SortMultiset(rows, OrderBy(keys));
    var listed := Take(sorted, Clamp(limit));
    leftOut := sorted[|listed|..];
    assert listed + leftOut == sorted;
    forall k | k in keys
      ensures k !in hidden
    {
      KeysNotHidden(table, k, personal);
    }
    ProjectKeepsOrder(listed, leftOut, keys, hidden);
  }

  /** Dropping columns that are not keys keeps the order among the rows, and before any others. */
  lemma {:induction false} ProjectKeepsOrder(listed: seq<Row>, leftOut: seq<Row>, keys: seq<string>,
                                             hidden: set<string>)
    requires Sorted(listed + leftOut, OrderBy(keys)) && forall k :: k in keys ==> k !in hidden
    ensures var list := Project(listed, hidden);
            && Sorted(list, OrderBy(keys))
            && (forall i, j | 0 <= i < |list| && 0 <= j < |leftOut| :: OrderBy(keys)(list[i], leftOut[j]))
  {
    var list, all := Project(listed, hidden), listed + leftOut;
    ProjectLength(listed, hidden);
    forall i, j | 0 <= i < j < |list|
      ensures OrderBy(keys)(list[i], list[j])
    {
      assert all[i] == listed[i] && all[j] == listed[j];
      RowLeSameKeys(list[i], list[j], all[i], all[j], keys);
      assert OrderBy(keys)(all[i], all[j]);
    }
    forall i, j | 0 <= i < |list| && 0 <= j < |leftOut|
      ensures OrderBy(keys)(list[i], leftOut[j])
    {
      assert all[i] == listed[i] && all[|listed| + j] == leftOut[j];
      RowLeSameKeys(list[i], leftOut[j], all[i], leftOut[j], keys);
      assert OrderBy(keys)(all[i], all[|listed| + j]);
    }
  }

  /** Nulls first, then numbers, then texts in code-point order. */
  ghost predicate Ascends(x: Value, y: Value) {
    && (y.Null? ==> x.Null?) && (y.Num? ==> !x.Text?)
    && (x.Num? && y.Num? ==> x.r <= y.r)
    && (x.Text? && y.Text? ==> Precedes(x.s, y.s))
  }

  lemma {:induction false} ValueLeAscends(x: Value, y: Value)
    ensures ValueLe(x, y) ==> Ascends(x, y)
    ensures Ascends(x, x)
  {
    hide StringLe;
    if x.Text? && y.Text? {
      StringLeIsLexicographic(x.s, y.s);
    }
  }

  /** The keys of a list go up. */
  lemma {:induction false} ListAscends(db: Database, regions: set<string>, table: Table, filters: Dict<FilterValue>,
                                       limit: int, personal: bool, i: nat, j: nat)
    requires ListRows(db, regions, table, filters, limit, personal).Ok? && PrimaryKey(table) != []
    requires i < j < |ListRows(db, regions, table, filters, limit, personal).value|
    ensures var list := ListRows(db, regions, table, filters, limit, personal).value;
            Ascends(Cell(list[i], KeyColumn(table)), Cell(list[j], KeyColumn(table)))
  {
    hide ListRows, PrimaryKey, ValueLe, Ascends;
    var leftOut := ListIsOrdered(db, regions, table, filters, limit, personal);
    var list := ListRows(db, regions, table, filters, limit, personal).value;
    assert OrderBy(PrimaryKey(table))(list[i], list[j]);
    ValueLeAscends(Cell(list[i], KeyColumn(table)), Cell(list[j], KeyColumn(table)));
  }

  lemma {:induction false} SelectMembers(rows: seq<Row>, clauses: seq<Clause>)
    ensures forall r :: r in Select(rows, clauses) <==> r in rows && Satisfies(r, clauses)
  {
    hide Satisfies;
    if rows != [] {
      SelectMembers(rows[1..], clauses);
      assert rows == [rows[0]] + rows[1..];
    }
  }

  lemma {:induction false} ServedMembers(view: seq<Attributed>, r: Row)
    ensures r in Served(view) <==> exists i | 0 <= i < |view| :: view[i].0 == r
  {
    if view != [] {
      ServedMembers(view[1..], r);
      assert Served(view) == [view[0].0] + Served(view[1..]);
      if i :| 0 <= i < |view| && view[i].0 == r && i > 0 {
        assert view[1..][i - 1].0 == r;
      }
      if r in Served(view[1..]) {
        var i :| 0 <= i < |view[1..]| && view[1..][i].0 == r;
        assert view[i + 1].0 == r;
      }
    }
  }

  /** Every listed row is a served row, shown without its hidden columns, that meets every filter. */
  lemma {:induction false} ListedRowsMatch(db: Database, regions: set<string>, table: Table,
                                           filters: Dict<FilterValue>, limit: int, personal: bool, k: nat)
    returns (source: Row)
    requires ListRows(db, regions, table, filters, limit, personal).Ok?
    requires k < |ListRows(db, regions, table, filters, limit, personal).value|
    ensures ScopedFrom(db, regions, table).Ok? && source in ScopedFrom(db, regions, table).value
    ensures MeetsAll(source, filters)
    ensures ListRows(db, regions, table, filters, limit, personal).value[k] == source - Hidden(table, personal)
  {
    hide ScopedFrom, FilterClause, PrimaryKey, Hidden, Satisfies, Meets;
    var rows := Matching(db, regions, table, filters).value;
    var sorted := Sort(rows, OrderBy(PrimaryKey(table)));
    SortMembers(rows, OrderBy(PrimaryKey(table)));
    SortMultiset(rows, OrderBy(PrimaryKey(table)));
    ProjectLength(Take(sorted, Clamp(limit)), Hidden(table, personal));
    source := sorted[k];
    SelectMembers(ScopedFrom(db, regions, table).value, FilterClause(table, filters).value);
    FilterMeaning(table, filters, source);
  }

  // ------------------------------------------------------------------- group and count

  ghost predicate Distinct<T>(s: seq<T>) {
    forall i, j | 0 <= i < j < |s| :: s[i] != s[j]
  }

  lemma {:induction false} DistinctIsMultiset<T>(s: seq<T>)
    ensures Distinct(s) <==> forall x | x in s :: multiset(s)[x] == 1
  {
    if s != [] {
      DistinctIsMultiset(s[1..]);
      assert s == [s[0]] + s[1..];
      assert multiset(s) == multiset{s[0]} + multiset(s[1..]);
      if Distinct(s) {
        assert Distinct(s[1..]);
        assert s[0] !in s[1..];
        assert s[0] !in multiset(s[1..]);
      } else {
        var i, j :| 0 <= i < j < |s| && s[i] == s[j];
        if i > 0 {
          assert s[1..][i - 1] == s[1..][j - 1];
          var x :| x in s[1..] && multiset(s[1..])[x] != 1;
          assert x in multiset(s[1..]);
          assert multiset(s)[x] != 1;
        } else {
          assert s[0] == s[1..][j - 1] && s[0] in multiset(s[1..]);
          assert multiset(s)[s[0]] != 1;
        }
      }
    }
  }

  lemma {:induction false} KeysProperties(rows: seq<Row>, column: string)
    ensures Distinct(Keys(rows, column))
    ensures forall v :: v in Keys(rows, column) <==> exists i | 0 <= i < |rows| :: Cell(rows[i], column) == v
  {
    if rows != [] {
      KeysProperties(rows[1..], column);
      forall v
        ensures v in Keys(rows, column) <==> exists i | 0 <= i < |rows| :: Cell(rows[i], column) == v
      {
        if i :| 0 <= i < |rows| && Cell(rows[i], column) == v && i > 0 {
          assert Cell(rows[1..][i - 1], column) == v;
        }
        if v in Keys(rows[1..], column) {
          var i :| 0 <= i < |rows[1..]| && Cell(rows[1..][i], column) == v;
          assert Cell(rows[i + 1], column) == v;
        } else if v in Keys(rows, column) {
          assert Cell(rows[0], column) == v;
        }
      }
    }
  }

  ghost function SumCounts(groups: seq<Group>): nat {
    if groups == [] then 0 else groups[0].count + SumCounts(groups[1..])
  }

  lemma {:induction false} CountedSum(rows: seq<Row>, column: string, keys: seq<Value>)
    requires Distinct(keys)
    requires rows != []
    ensures SumCounts(Counted(rows, column, keys))
         == SumCounts(Counted(rows[1..], column, keys)) + (if Cell(rows[0], column) in keys then 1 else 0)
    decreases |keys|
  {
    if keys != [] {
      assert Distinct(keys[1..]);
      CountedSum(rows, column, keys[1..]);
      assert keys == [keys[0]] + keys[1..];
      assert keys[0] !in keys[1..];
    }
  }

  lemma {:induction false} CountedEmpty(column: string, keys: seq<Value>)
    ensures SumCounts(Counted([], column, keys)) == 0
  {
    if keys != [] {
      CountedEmpty(column, keys[1..]);
    }
  }

  lemma {:induction false} CountedCovers(rows: seq<Row>, column: string, keys: seq<Value>)
    requires Distinct(keys)
    requires forall i | 0 <= i < |rows| :: Cell(rows[i], column) in keys
    ensures SumCounts(Counted(rows, column, keys)) == |rows|
  {
    if rows == [] {
      CountedEmpty(column, keys);
    } else {
      CountedCovers(rows[1..], column, keys);
      CountedSum(rows, column, keys);
    }
  }

  lemma {:induction false} SortedKeys(rows: seq<Row>, column: string)
    ensures Distinct(Sort(Keys(rows, column), ByValue()))
    ensures forall i | 0 <= i < |rows| :: Cell(rows[i], column) in Sort(Keys(rows, column), ByValue())
  {
    var keys := Keys(rows, column);
    KeysProperties(rows, column);
    SortMembers(keys, ByValue());
    SortMultiset(keys, ByValue());
    DistinctIsMultiset(keys);
    DistinctIsMultiset(Sort(keys, ByValue()));
  }

  /** Before the cohort gate, the group counts add up to the count. */
  lemma {:induction false} GroupsSumToCount(db: Database, regions: set<string>, table: Table, column: string,
                                            filters: Dict<FilterValue>)
    requires Matching(db, regions, table, filters).Ok?
    ensures SumCounts(GroupBy(Matching(db, regions, table, filters).value, column))
         == CountRows(db, regions, table, filters).value
  {
    hide Matching;
    var rows := Matching(db, regions, table, filters).value;
    SortedKeys(rows, column);
    CountedCovers(rows, column, Sort(Keys(rows, column), ByValue()));
  }

  lemma {:induction false} CountedMembers(rows: seq<Row>, column: string, keys: seq<Value>, g: Group)
    requires g in Counted(rows, column, keys)
    ensures g.key in keys && g.count == CountOf(rows, column, g.key)
  {
    if g != Counted(rows, column, keys)[0] {
      CountedMembers(rows, column, keys[1..], g);
    }
  }

  lemma {:induction false} AtLeastMembers(groups: seq<Group>, minimum: int, g: Group)
    ensures g in AtLeast(groups, minimum) <==> g in groups && g.count >= minimum
  {
    if groups != [] {
      AtLeastMembers(groups[1..], minimum, g);
      assert groups == [groups[0]] + groups[1..];
    }
  }

  /** Filters under which a row with this cell value is counted as part of the group. */
  lemma {:induction false} PutMeets(filters: Dict<FilterValue>, column: string, v: Value, row: Row)
    requires v != Null
    requires forall f | f in filters && f.0 == column :: Cell(row, column) == v ==> Meets(row, column, f.1)
    requires forall i, j | 0 <= i < j < |filters| :: filters[i].0 != filters[j].0
    ensures MeetsAll(row, Put(filters, column, One(ArgOf(v)))) <==> MeetsAll(row, filters) && Cell(row, column) == v
  {
    var filter: FilterValue := One(ArgOf(v));
    assert Meets(row, column, filter) <==> Cell(row, column) == v;
    if filters == [] {
      assert Put(filters, column, filter) == [(column, filter)];
      assert (column, filter) in [(column, filter)];
    } else {
      assert filters == [filters[0]] + filters[1..];
      assert forall f | f in filters[1..] :: f in filters;
      if filters[0].0 == column {
        var put := [(column, filter)] + filters[1..];
        assert (column, filter) in put && filters[0] in filters;
        assert forall f | f in filters :: f == filters[0] || f in filters[1..];
        assert forall f | f in put :: f == (column, filter) || f in filters[1..];
        if MeetsAll(row, put) {
          assert forall f | f in filters :: Meets(row, f.0, f.1) by {
            forall f | f in filters
              ensures Meets(row, f.0, f.1)
            {
              assert f in filters[1..] ==> f in put;
            }
          }
        }
      } else {
        PutMeets(filters[1..], column, v, row);
        var rest := Put(filters[1..], column, filter);
        assert filters[0] in filters && filters[0] in [filters[0]] + rest;
        assert forall f :: f in [filters[0]] + rest <==> f == filters[0] || f in rest;
        assert forall f :: f in filters <==> f == filters[0] || f in filters[1..];
      }
    }
  }

  lemma {:induction false} CountOfSelected(rows: seq<Row>, base: seq<Clause>, narrowed: seq<Clause>, column: string,
                                           v: Value)
    requires forall r | r in rows :: Satisfies(r, narrowed) <==> Satisfies(r, base) && Cell(r, column) == v
    ensures |Select(rows, narrowed)| == CountOf(Select(rows, base), column, v)
  {
    hide Satisfies;
    if rows != [] {
      assert rows[0] in rows && forall r | r in rows[1..] :: r in rows;
      CountOfSelected(rows[1..], base, narrowed, column, v);
      if Satisfies(rows[0], base) {
        assert Select(rows, base)[1..] == Select(rows[1..], base);
      }
    }
  }

  /** A null cell passes only the filters that are skipped, which every row passes. */
  lemma {:induction false} NullPassesOnlySkipped(row: Row, other: Row, column: string, filter: FilterValue)
    requires Cell(row, column) == Null && Meets(row, column, filter)
    ensures Meets(other, column, filter)
  {
  }

  /** Where the column's own filters are skipped ones, putting a null filter there changes nothing. */
  lemma {:induction false} PutNullMeets(filters: Dict<FilterValue>, column: string, row: Row)
    requires forall f | f in filters && f.0 == column :: Meets(row, column, f.1)
    ensures MeetsAll(row, Put(filters, column, One(ArgNone))) <==> MeetsAll(row, filters)
  {
    var filter: FilterValue := One(ArgNone);
    NullMeets(row, column);
    hide Meets;
    if filters == [] {
      assert Put(filters, column, filter) == [(column, filter)];
    } else {
      assert filters == [filters[0]] + filters[1..];
      assert forall f :: f in filters <==> f == filters[0] || f in filters[1..];
      if filters[0].0 == column {
        var put := [(column, filter)] + filters[1..];
        assert Put(filters, column, filter) == put;
        assert forall f :: f in put <==> f == (column, filter) || f in filters[1..];
        assert Meets(row, filters[0].0, filters[0].1);
      } else {
        PutNullMeets(filters[1..], column, row);
        var rest := Put(filters[1..], column, filter);
        assert forall f :: f in [filters[0]] + rest <==> f == filters[0] || f in rest;
      }
    }
  }

  lemma {:induction false} SelectSame(rows: seq<Row>, a: seq<Clause>, b: seq<Clause>)
    requires forall r | r in rows :: Satisfies(r, a) <==> Satisfies(r, b)
    ensures Select(rows, a) == Select(rows, b)
  {
    hide Satisfies;
    if rows != [] {
      assert rows[0] in rows && forall r | r in rows[1..] :: r in rows;
      SelectSame(rows[1..], a, b);
    }
  }

  lemma {:induction false} CountOfAll(rows: seq<Row>, column: string, v: Value)
    ensures CountOf(rows, column, v) <= |rows|
    ensures CountOf(rows, column, v) == |rows| <==> forall r | r in rows :: Cell(r, column) == v
  {
    if rows != [] {
      CountOfAll(rows[1..], column, v);
      assert rows == [rows[0]] + rows[1..];
    }
  }

  /** Every group has a row behind it, which is among the rows the filters select. */
  lemma {:induction false} GroupMember(rows: seq<Row>, base: seq<Clause>, cohort: int, column: string, g: Group)
    returns (r: Row)
    requires g in AtLeast(GroupBy(Select(rows, base), column), cohort)
    ensures g.count >= cohort && g.count == CountOf(Select(rows, base), column, g.key)
    ensures r in rows && Satisfies(r, base) && Cell(r, column) == g.key
  {
    hide Satisfies;
    var selected := Select(rows, base);
    AtLeastMembers(GroupBy(selected, column), cohort, g);
    CountedMembers(selected, column, Sort(Keys(selected, column), ByValue()), g);
    SortMembers(Keys(selected, column), ByValue());
    KeysProperties(selected, column);
    var i :| 0 <= i < |selected| && Cell(selected[i], column) == g.key;
    r := selected[i];
    SelectMembers(rows, base);
  }

  /** Adding a group's own value as a filter is accepted, and selects the group; for a null
      group it selects everything the other filters do. */
  lemma {:induction false} NarrowedRows(db: Database, regions: set<string>, table: Table, column: string,
                                        filters: Dict<FilterValue>, witnessRow: Row)
    requires forall i, j | 0 <= i < j < |filters| :: filters[i].0 != filters[j].0
    requires Matching(db, regions, table, filters).Ok? && column in Filterable(table)
    requires MeetsAll(witnessRow, filters)
    ensures var key := Cell(witnessRow, column);
            var rows := Matching(db, regions, table, filters).value;
            CountRows(db, regions, table, Put(filters, column, One(ArgOf(key)))) ==
            Ok(if key == Null then |rows| else CountOf(rows, column, key))
  {
    hide Filterable, Satisfies, ScopedFrom, FilterClause;
    var key := Cell(witnessRow, column);
    var rows := ScopedFrom(db, regions, table).value;
    var base := FilterClause(table, filters).value;
    var narrowedFilters := Put(filters, column, One(ArgOf(key)));
    FilterMeaning(table, filters, witnessRow);
    PutNames(filters, column, One(ArgOf(key)));
    FilterMeaning(table, narrowedFilters, witnessRow);
    var narrowed := FilterClause(table, narrowedFilters).value;
    forall r | r in rows
      ensures Satisfies(r, narrowed) <==> Satisfies(r, base) && (key == Null || Cell(r, column) == key)
    {
      FilterMeaning(table, filters, r);
      FilterMeaning(table, narrowedFilters, r);
      forall f | f in filters && f.0 == column && (key == Null || Cell(r, column) == key)
        ensures Meets(r, column, f.1)
      {
        assert Meets(witnessRow, column, f.1);
        if key == Null {
          NullPassesOnlySkipped(witnessRow, r, column, f.1);
        } else {
          SameCellMeets(witnessRow, r, column, f.1);
        }
      }
      if key == Null {
        PutNullMeets(filters, column, r);
      } else {
        PutMeets(filters, column, key, r);
      }
    }
    if key == Null {
      SelectSame(rows, narrowed, base);
    } else {
      CountOfSelected(rows, base, narrowed, column, key);
    }
  }

  /** Each reported group is at least the cohort floor. Its count is the count with the group's
      own value added as a filter exactly when that value is not null, or every row counted has
      a null there: a null filter is skipped, so it counts everything the other filters do. */
  lemma {:induction false} ReportedGroupIsCount(db: Database, regions: set<string>, cohort: int, table: Table,
                                                column: string, filters: Dict<FilterValue>, g: Group)
    requires forall i, j | 0 <= i < j < |filters| :: filters[i].0 != filters[j].0
    requires Aggregate(db, regions, cohort, table, column, filters).Ok?
    requires g in Aggregate(db, regions, cohort, table, column, filters).value
    ensures g.count >= cohort
    ensures CountRows(db, regions, table, Put(filters, column, One(ArgOf(g.key)))) == Ok(g.count) <==>
              g.key != Null || forall r | r in Matching(db, regions, table, filters).value :: Cell(r, column) == Null
  {
    hide Filterable, Satisfies, ScopedFrom, FilterClause, GroupBy, AtLeast, Meets;
    var rows := ScopedFrom(db, regions, table).value;
    var base := FilterClause(table, filters).value;
    var witnessRow := GroupMember(rows, base, cohort, column, g);
    FilterMeaning(table, filters, witnessRow);
    NarrowedRows(db, regions, table, column, filters, witnessRow);
    CountOfAll(Select(rows, base), column, Null);
  }

  lemma {:induction false} SameCellMeets(a: Row, b: Row, column: string, filter: FilterValue)
    requires Cell(a, column) == Cell(b, column)
    ensures Meets(a, column, filter) == Meets(b, column, filter)
  {
  }

  lemma {:induction false} PutNames(filters: Dict<FilterValue>, column: string, filter: FilterValue)
    ensures forall f | f in Put(filters, column, filter) :: f.0 == column || f in filters
    ensures (column, filter) in Put(filters, column, filter)
  {
    if filters != [] && filters[0].0 != column {
      PutNames(filters[1..], column, filter);
    }
  }

  lemma {:induction false} CountedHas(rows: seq<Row>, column: string, keys: seq<Value>, v: Value)
    requires v in keys
    ensures Group(v, CountOf(rows, column, v)) in Counted(rows, column, keys)
  {
    hide CountOf;
    if v != keys[0] {
      CountedHas(rows, column, keys[1..], v);
    }
  }

  /** An aggregate reports a group exactly when it has rows and reaches the floor, with its size;
      when no group does, it refuses instead of answering with nothing. */
  lemma {:induction false} AggregateReports(db: Database, regions: set<string>, cohort: int, table: Table,
                                            column: string, filters: Dict<FilterValue>, g: Group)
    requires Matching(db, regions, table, filters).Ok? && column in Filterable(table)
    ensures var rows := Matching(db, regions, table, filters).value;
            var r := Aggregate(db, regions, cohort, table, column, filters);
            && (r.Ok? ==>
                  (g in r.value <==> 0 < g.count == CountOf(rows, column, g.key) && g.count >= cohort))
            && (r.Err? ==>
                  && r == Err(CohortTooSmall(cohort)) && rows != []
                  && forall v :: 0 < CountOf(rows, column, v) ==> CountOf(rows, column, v) < cohort)
  {
    hide Filterable, ScopedFrom, FilterClause, AtLeast, Satisfies;
    var rows := Matching(db, regions, table, filters).value;
    forall h: Group
      ensures h in GroupBy(rows, column) <==> 0 < h.count == CountOf(rows, column, h.key)
    {
      GroupsAreCounts(rows, column, h);
    }
    AtLeastMembers(GroupBy(rows, column), cohort, g);
    hide GroupBy;
    if Aggregate(db, regions, cohort, table, column, filters).Err? {
      var h := GroupBy(rows, column)[0];
      assert h in GroupBy(rows, column);
      forall v | 0 < CountOf(rows, column, v)
        ensures CountOf(rows, column, v) < cohort
      {
        assert Group(v, CountOf(rows, column, v)) in GroupBy(rows, column);
        AtLeastMembers(GroupBy(rows, column), cohort, Group(v, CountOf(rows, column, v)));
      }
    }
  }

  lemma {:induction false} GroupsAreCounts(rows: seq<Row>, column: string, g: Group)
    ensures g in GroupBy(rows, column) <==> 0 < g.count == CountOf(rows, column, g.key)
  {
    var keys := Sort(Keys(rows, column), ByValue());
    SortMembers(Keys(rows, column), ByValue());
    KeysProperties(rows, column);
    Present(rows, column, g.key);
    if g in Counted(rows, column, keys) {
      CountedMembers(rows, column, keys, g);
    }
    hide CountOf, Keys;
    if g.key in keys {
      CountedHas(rows, column, keys, g.key);
    }
  }

  lemma {:induction false} Present(rows: seq<Row>, column: string, v: Value)
    ensures 0 < CountOf(rows, column, v) <==> exists i :: 0 <= i < |rows| && Cell(rows[i], column) == v
  {
    hide Cell;
    if rows != [] {
      Present(rows[1..], column, v);
      if i :| 0 <= i < |rows| && Cell(rows[i], column) == v && i > 0 {
        assert rows[1..][i - 1] == rows[i];
      }
      if i :| 0 <= i < |rows[1..]| && Cell(rows[1..][i], column) == v {
        assert rows[i + 1] == rows[1..][i];
      }
    }
  }

  /** What the floor drops is still told. A group too small to report is missing from the aggregate,
      and counting with its value as a filter returns its exact size all the same: the count has
      no floor of its own. Only the null group has no such filter. */
  lemma {:induction false} DroppedGroupIsCounted(db: Database, regions: set<string>, cohort: int, table: Table,
                                                 column: string, filters: Dict<FilterValue>, g: Group)
    requires forall i, j | 0 <= i < j < |filters| :: filters[i].0 != filters[j].0
    requires Matching(db, regions, table, filters).Ok? && column in Filterable(table)
    requires g in GroupBy(Matching(db, regions, table, filters).value, column)
    requires g.count < cohort && g.key != Null
    ensures Aggregate(db, regions, cohort, table, column, filters).Ok? ==>
              forall h :: h in Aggregate(db, regions, cohort, table, column, filters).value ==> h.key != g.key
    ensures CountRows(db, regions, table, Put(filters, column, One(ArgOf(g.key)))) == Ok(g.count)
  {
    hide Filterable, Satisfies, ScopedFrom, FilterClause, GroupBy, AtLeast, Meets;
    var rows := ScopedFrom(db, regions, table).value;
    var base := FilterClause(table, filters).value;
    AtLeastMembers(GroupBy(Select(rows, base), column), g.count, g);
    var witnessRow := GroupMember(rows, base, g.count, column, g);
    FilterMeaning(table, filters, witnessRow);
    NarrowedRows(db, regions, table, column, filters, witnessRow);
    if Aggregate(db, regions, cohort, table, column, filters).Ok? {
      forall h | h in Aggregate(db, regions, cohort, table, column, filters).value
        ensures h.key != g.key
      {
        var other := GroupMember(rows, base, cohort, column, h);
      }
    }
  }

  /** On its own, a null filter counts every row. */
  lemma {:induction false} NullFilterCountsEverything(db: Database, regions: set<string>, table: Table, column: string)
    requires column in Filterable(table)
    ensures CountRows(db, regions, table, [(column, One(ArgNone))]) == CountRows(db, regions, table, [])
  {
    hide ScopedFrom, Filterable;
    var f: (string, FilterValue) := (column, One(ArgNone));
    assert Sort([f], ByName()) == [f] by {
      assert [f][1..] == [];
    }
    assert ClausesOf(table, [f]) == Ok([]) by {
      assert [f][1..] == [];
      assert ClauseFor(column, One(ArgNone)) + [] == [];
    }
  }

  /** The exception is real. Of two employees one has no manager: that group is reported with
      one member, and counting with its value as a filter gives two. */
  lemma {:induction false} NullGroupIsMiscounted()
    ensures var root: Row := map["employee_id" := Text("A"), "region" := Text("AMER")];
            var report: Row := map["employee_id" := Text("B"), "region" := Text("AMER"), "manager_id" := Text("A")];
            var db: Database := map[Employees := [root, report]];
            var groups := Aggregate(db, {"AMER"}, 1, Employees, "manager_id", []);
            && groups.Ok? && Group(Null, 1) in groups.value
            && CountRows(db, {"AMER"}, Employees, Put([], "manager_id", One(ArgOf(Null)))) == Ok(2)
  {
    var root: Row := map["employee_id" := Text("A"), "region" := Text("AMER")];
    var report: Row := map["employee_id" := Text("B"), "region" := Text("AMER"), "manager_id" := Text("A")];
    var db: Database := map[Employees := [root, report]];
    BothVisible(db, root, report);
    assert FilterClause(Employees, []) == Ok([]);
    assert ScopedFrom(db, {"AMER"}, Employees) == Ok([root, report]);
    hide ScopedFrom, FilterClause, Aggregate, Hidden, PrimaryKey;
    assert Matching(db, {"AMER"}, Employees, []) == Ok([root, report]) by {
      SelectEverything([root, report]);
    }
    TwoGroups(root, report, "manager_id");
    NullIsReported(db, root, report);
    NarrowedRows(db, {"AMER"}, Employees, "manager_id", [], root);
  }

  lemma {:induction false} JoinedPair(db: Database, a: Row, b: Row)
    ensures Joined(db, [a, b], []) == [(a, Cell(a, "region")), (b, Cell(b, "region"))]
  {
    hide Cell;
    assert [a, b][1..] == [b] && [b][1..] == [];
    var x, y := Cell(a, "region"), Cell(b, "region");
    assert RegionsOf(db, a, []) == [x] && RegionsOf(db, b, []) == [y];
    assert Tag(a, [x]) == [(a, x)] && Tag(b, [y]) == [(b, y)];
    assert Joined(db, [b], []) == [(b, y)];
  }

  lemma {:induction false} VisiblePair(a: Row, b: Row)
    ensures var both: seq<Attributed> := [(a, Text("AMER")), (b, Text("AMER"))];
            Visible(Employees, {"AMER"}, both) == both && Served(both) == [a, b]
  {
    var x: Attributed, y: Attributed := (a, Text("AMER")), (b, Text("AMER"));
    assert [x, y][1..] == [y] && [y][1..] == [];
    assert Visible(Employees, {"AMER"}, [y]) == [y] && Served([y]) == [b];
  }

  lemma {:induction false} BothVisible(db: Database, a: Row, b: Row)
    requires Rows(db, Employees) == [a, b] && Cell(a, "region") == Text("AMER") && Cell(b, "region") == Text("AMER")
    ensures ScopedFrom(db, {"AMER"}, Employees) == Ok([a, b])
  {
    hide Rows, Cell, Joined, Visible, Served;
    JoinedPair(db, a, b);
    VisiblePair(a, b);
  }

  lemma {:induction false} SelectEverything(rows: seq<Row>)
    ensures Select(rows, []) == rows
  {
    if rows != [] {
      SelectEverything(rows[1..]);
      assert rows == [rows[0]] + rows[1..];
    }
  }

  lemma {:induction false} TwoGroups(a: Row, b: Row, column: string)
    requires Cell(a, column) == Null && Cell(b, column) != Null
    ensures Group(Null, 1) in AtLeast(GroupBy([a, b], column), 1)
  {
    var v := Cell(b, column);
    assert [a, b][1..] == [b] && [b][1..] == [];
    assert Keys([b], column) == [v] && Keys([a, b], column) == [Null, v];
    var keys := [Null, v];
    assert keys[1..] == [v] && [v][1..] == [];
    assert Sort([v], ByValue()) == [v];
    assert Sort(keys, ByValue()) == keys;
    assert CountOf([b], column, Null) == 0;
    assert CountOf([a, b], column, Null) == 1 + CountOf([a, b][1..], column, Null);
    var rest := Counted([a, b], column, [v]);
    assert GroupBy([a, b], column) == [Group(Null, 1)] + rest;
  }

  lemma {:induction false} NullIsReported(db: Database, a: Row, b: Row)
    requires ScopedFrom(db, {"AMER"}, Employees) == Ok([a, b]) && FilterClause(Employees, []) == Ok([])
    requires Group(Null, 1) in AtLeast(GroupBy([a, b], "manager_id"), 1)
    ensures var groups := Aggregate(db, {"AMER"}, 1, Employees, "manager_id", []);
            groups.Ok? && Group(Null, 1) in groups.value
  {
    hide ScopedFrom, FilterClause, GroupBy, AtLeast;
    SelectEverything([a, b]);
  }

  // ----------------------------------------------------------------------- hierarchy

  /** The id looked up for position `i` of a chain; position |chain| is where the walk stopped. */
  ghost function Asked(current: string, chain: seq<Row>, i: nat): string
    requires i <= |chain|
  {
    if i == 0 then current else ManagerOf(chain[i - 1])
  }

  lemma {:induction false} AskedShift(current: string, chain: seq<Row>)
    requires chain != []
    ensures forall i: nat | i < |chain| :: Asked(current, chain, i + 1) == Asked(ManagerOf(chain[0]), chain[1..], i)
  {
  }

  /** The chain is bounded, every record in it is visible, each is the manager of the one
      before it, and no one is visited twice. */
  lemma {:induction false} ChainIsAManagementChain(db: Database, regions: set<string>, current: string,
                                                   seen: set<string>, depth: nat)
    ensures var chain := ChainFrom(db, regions, current, seen, depth);
            && |chain| <= depth
            && (forall i: nat | i < |chain| ::
                  && Asked(current, chain, i) != "" && Asked(current, chain, i) !in seen
                  && FetchByKey(db, regions, Employees, Asked(current, chain, i), true) == Ok(Some(chain[i])))
            && (forall i: nat, j: nat | i < j < |chain| :: Asked(current, chain, i) != Asked(current, chain, j))
    decreases depth
  {
    hide FetchByKey, ManagerOf;
    var chain := ChainFrom(db, regions, current, seen, depth);
    if chain != [] {
      var next := ManagerOf(chain[0]);
      var rest := ChainFrom(db, regions, next, seen + {current}, depth - 1);
      ChainIsAManagementChain(db, regions, next, seen + {current}, depth - 1);
      assert chain == [chain[0]] + rest && chain[1..] == rest;
      AskedShift(current, chain);
      forall i: nat | i < |chain|
        ensures Asked(current, chain, i) != "" && Asked(current, chain, i) !in seen
        ensures FetchByKey(db, regions, Employees, Asked(current, chain, i), true) == Ok(Some(chain[i]))
        ensures i > 0 ==> Asked(current, chain, i) != current
      {
        if i > 0 {
          assert Asked(current, chain, i - 1 + 1) == Asked(next, rest, i - 1);
        }
      }
      forall i: nat, j: nat | i < j < |chain|
        ensures Asked(current, chain, i) != Asked(current, chain, j)
      {
        if i > 0 {
          assert Asked(current, chain, i - 1 + 1) == Asked(next, rest, i - 1);
          assert Asked(current, chain, j - 1 + 1) == Asked(next, rest, j - 1);
        }
      }
    }
  }

  /** The walk stops early only at the top of the tree, at a record the scope cannot see, or on a cycle. */
  lemma {:induction false} ChainStopsForAReason(db: Database, regions: set<string>, current: string,
                                                seen: set<string>, depth: nat)
    requires |ChainFrom(db, regions, current, seen, depth)| < depth
    ensures var chain := ChainFrom(db, regions, current, seen, depth);
            var last := Asked(current, chain, |chain|);
            || last == ""
            || FetchByKey(db, regions, Employees, last, true) == Ok(None)
            || last in seen
            || exists i: nat :: i < |chain| && last == Asked(current, chain, i)
    decreases depth
  {
    hide FetchByKey, ManagerOf;
    EmployeesAreServed(db, regions, current);
    var chain := ChainFrom(db, regions, current, seen, depth);
    if chain != [] {
      var next := ManagerOf(chain[0]);
      var rest := ChainFrom(db, regions, next, seen + {current}, depth - 1);
      assert chain == [chain[0]] + rest && chain[1..] == rest;
      ChainStopsForAReason(db, regions, next, seen + {current}, depth - 1);
      AskedShift(current, chain);
      var last := Asked(current, chain, |chain|);
      assert last == Asked(next, rest, |rest|);
      if last == current {
        assert last == Asked(current, chain, 0);
      } else if i: nat :| i < |rest| && last == Asked(next, rest, i) {
        assert last == Asked(current, chain, i + 1);
      }
    }
  }

  lemma {:induction false} EmployeesAreServed(db: Database, regions: set<string>, id: string)
    ensures FetchByKey(db, regions, Employees, id, true).Ok?
  {
    hide View;
  }

  lemma {:induction false} NothingHidden(table: Table)
    ensures Hidden(table, true) == {}
  {
  }

  /** The employee a scope sees under this id has no manager on record. */
  ghost predicate HasNoManager(db: Database, regions: set<string>, id: string) {
    var visible := ScopedFrom(db, regions, Employees);
    && visible.Ok? && FirstWithKey(visible.value, "employee_id", id).Some?
    && ManagerOf(FirstWithKey(visible.value, "employee_id", id).value) == ""
  }

  /** The design wants a caller not to know whether a chain ended or their scope did. The answer
      tells: the last record of a chain shorter than the depth names no manager exactly when the
      chain ended there, and otherwise names the manager who was not shown. */
  lemma {:induction false} ChainTellsWhyItStopped(db: Database, regions: set<string>, id: string, depth: nat)
    requires 0 < |Hierarchy(db, regions, id, depth)| < depth
    ensures var chain := Hierarchy(db, regions, id, depth);
            var named := ManagerOf(chain[|chain| - 1]);
            && (named == "" <==> HasNoManager(db, regions, Asked(id, chain, |chain| - 1)))
            && (named != "" ==>
                  || FetchByKey(db, regions, Employees, named, true) == Ok(None)
                  || exists i: nat :: i < |chain| && named == Asked(id, chain, i))
  {
    hide ScopedFrom, ChainFrom, ManagerOf, FirstWithKey;
    var chain := Hierarchy(db, regions, id, depth);
    ChainIsAManagementChain(db, regions, id, {}, depth);
    ChainStopsForAReason(db, regions, id, {}, depth);
    StoredRecord(db, regions, Asked(id, chain, |chain| - 1));
  }

  lemma {:induction false} StoredRecord(db: Database, regions: set<string>, id: string)
    ensures FetchByKey(db, regions, Employees, id, true).Ok? ==>
              var visible := ScopedFrom(db, regions, Employees);
              visible.Ok? &&
              FetchByKey(db, regions, Employees, id, true).value == FirstWithKey(visible.value, "employee_id", id)
  {
    hide ScopedFrom, FirstWithKey;
    assert KeyColumn(Employees) == "employee_id";
    NothingHidden(Employees);
    var visible := ScopedFrom(db, regions, Employees);
    if visible.Ok? && FirstWithKey(visible.value, "employee_id", id).Some? {
      var row := FirstWithKey(visible.value, "employee_id", id).value;
      assert row - {} == row;
    }
  }

  /** So two rosters a partner must not tell apart, one ending at the partner's own employee and one
      going on in another region, give different answers of the same length. */
  lemma {:induction false} HiddenManagerIsNamed()
    ensures var top: Row := map["employee_id" := Text("A"), "region" := Text("AMER")];
            var report: Row := map["employee_id" := Text("A"), "region" := Text("AMER"), "manager_id" := Text("B")];
            var boss: Row := map["employee_id" := Text("B"), "region" := Text("EMEA")];
            && Hierarchy(map[Employees := [top]], {"AMER"}, "A", 8) == [top]
            && Hierarchy(map[Employees := [report, boss]], {"AMER"}, "A", 8) == [report]
            && ManagerOf(top) == "" && ManagerOf(report) == "B"
  {
    var top: Row := map["employee_id" := Text("A"), "region" := Text("AMER")];
    var report: Row := map["employee_id" := Text("A"), "region" := Text("AMER"), "manager_id" := Text("B")];
    var boss: Row := map["employee_id" := Text("B"), "region" := Text("EMEA")];
    var short: Database, long: Database := map[Employees := [top]], map[Employees := [report, boss]];
    OnlyVisible(short, top, []);
    OnlyVisible(long, report, [boss]);
    ChainOfOne(short, top);
    ChainOfOne(long, report);
  }

  /** Of an American row and rows of other regions, an American scope sees the first. */
  lemma {:induction false} OnlyVisible(db: Database, row: Row, others: seq<Row>)
    requires Rows(db, Employees) == [row] + others && Cell(row, "region") == Text("AMER")
    requires forall r :: r in others ==> Cell(r, "region") == Text("EMEA")
    ensures ScopedFrom(db, {"AMER"}, Employees) == Ok([row])
  {
    hide Rows, Cell;
    assert ([row] + others)[1..] == others;
    Elsewhere(db, others);
    var tagged: seq<Attributed> := [(row, Text("AMER"))];
    assert Tag(row, [Text("AMER")]) == tagged;
    assert Joined(db, [row] + others, []) == tagged + Joined(db, others, []);
    assert (tagged + Joined(db, others, []))[1..] == Joined(db, others, []);
    assert Visible(Employees, {"AMER"}, tagged + Joined(db, others, [])) == tagged + [];
    assert tagged + [] == tagged && tagged[1..] == [];
    assert View(db, {"AMER"}, Employees) == tagged;
    assert Served(tagged) == [row] + Served([]) == [row];
  }

  lemma {:induction false} Elsewhere(db: Database, others: seq<Row>)
    requires forall r :: r in others ==> Cell(r, "region") == Text("EMEA")
    ensures Visible(Employees, {"AMER"}, Joined(db, others, [])) == []
  {
    hide Cell;
    if others != [] {
      Elsewhere(db, others[1..]);
      var first: seq<Attributed> := [(others[0], Text("EMEA"))];
      assert Tag(others[0], [Text("EMEA")]) == first;
      assert (first + Joined(db, others[1..], []))[1..] == Joined(db, others[1..], []);
    }
  }

  lemma {:induction false} ChainOfOne(db: Database, row: Row)
    requires ScopedFrom(db, {"AMER"}, Employees) == Ok([row]) && Cell(row, "employee_id") == Text("A")
    requires ManagerOf(row) in {"", "B"}
    ensures Hierarchy(db, {"AMER"}, "A", 8) == [row]
  {
    hide ScopedFrom, ManagerOf;
    StoredRecord(db, {"AMER"}, "A");
    StoredRecord(db, {"AMER"}, "B");
    EmployeesAreServed(db, {"AMER"}, "A");
    EmployeesAreServed(db, {"AMER"}, "B");
    assert [row][1..] == [];
    assert FirstWithKey([row], "employee_id", "A") == Some(row);
    assert FirstWithKey([row], "employee_id", "B") == None;
    assert ChainFrom(db, {"AMER"}, ManagerOf(row), {"A"}, 7) == [];
    hide FetchByKey;
  }

  // ------------------------------------------------------------------------- handlers

  /** Without the coordinator role, a caller sees its own bookings and no others. */
  lemma {:induction false} OrdinaryReadersSeeOwnBookings(db: Database, scope: Scope, args: Dict<Arg>, k: nat)
    requires "travel.coordinate" !in scope.roles
    requires ListMyBookings(db, scope, args).Ok? && k < |ListMyBookings(db, scope, args).value.rows|
    ensures Cell(ListMyBookings(db, scope, args).value.rows[k], "traveller_employee_id") == Text(scope.employeeId)
  {
    hide ListRows, Put, Hidden;
    var filters := AsFilters(Without(args, "limit"));
    var own: FilterValue := One(ArgText(scope.employeeId));
    var narrowed := Put(filters, "traveller_employee_id", own);
    var source := ListedRowsMatch(db, scope.regions, TravelBookings, narrowed, LimitOf(args), true, k);
    PutNames(filters, "traveller_employee_id", own);
    assert Meets(source, "traveller_employee_id", own);
    NothingHidden(TravelBookings);
    assert source - {} == source;
  }

  /** An order's lines are lines of that order, and each is itself visible to the caller. */
  lemma {:induction false} OrderLinesBelongToTheOrder(db: Database, scope: Scope, args: Dict<Arg>, k: nat)
    requires LookupOrder(db, scope, args).Ok? && LookupOrder(db, scope, args).value.OrderRecord?
    requires LookupOrder(db, scope, args).value.lines.Some?
    requires k < |LookupOrder(db, scope, args).value.lines.value|
    ensures var line := LookupOrder(db, scope, args).value.lines.value[k];
            && TextArgument(args, "order_id").Ok?
              && Cell(line, "order_id") == Text(TextArgument(args, "order_id").value)
            && line in ScopedFrom(db, scope.regions, OrderLines).value
  {
    hide ListRows, FetchByKey, ScopedFrom, Hidden;
    var id := TextArgument(args, "order_id").value;
    var filter: FilterValue := One(ArgText(id));
    var filters := [("order_id", filter)];
    var source := ListedRowsMatch(db, scope.regions, OrderLines, filters, 200, true, k);
    assert filters[0] in filters;
    assert Meets(source, "order_id", filter);
    NothingHidden(OrderLines);
    assert source - {} == source;
  }

  /** And asking for somebody else's bookings is refused. */
  lemma {:induction false} OthersBookingsAreRefused(db: Database, scope: Scope, args: Dict<Arg>, other: Arg)
    requires "travel.coordinate" !in scope.roles
    requires Get<Arg>(args, "traveller_employee_id") == Some(other)
    requires other != ArgNone && other != ArgText(scope.employeeId)
    ensures ListMyBookings(db, scope, args) == Err(OwnBookingsOnly)
  {
    hide ListRows, Get;
  }

  lemma {:induction false} CustomerFacingHidesInternal(notes: seq<Row>, r: Row)
    ensures r in CustomerFacing(notes) <==> r in notes && Cell(r, "visibility") != Text("internal")
  {
    if notes != [] {
      CustomerFacingHidesInternal(notes[1..], r);
      assert notes == [notes[0]] + notes[1..];
    }
  }

  /** Read-only callers never see an internal note. */
  lemma {:induction false} ReadersNeverSeeInternalNotes(db: Database, scope: Scope, args: Dict<Arg>, note: Row)
    requires "support.write" !in scope.roles
    requires LookupCase(db, scope, args).Ok? && LookupCase(db, scope, args).value.CaseRecord?
    requires LookupCase(db, scope, args).value.notes.Some?
    requires note in LookupCase(db, scope, args).value.notes.value
    ensures Cell(note, "visibility") != Text("internal")
  {
    hide ListRows, FetchByKey, ScopedFrom;
    var id := TextArgument(args, "case_id").value;
    var notes := ListRows(db, scope.regions, SupportCaseNotes, [("case_id", One(ArgText(id)))], 200, true).value;
    CustomerFacingHidesInternal(notes, note);
  }
}
