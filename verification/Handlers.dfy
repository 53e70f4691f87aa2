/** What the reading tools answer, told from the arguments they are given and the stored rows in
    scope. */
module Handlers {
  import opened Wrappers
  import opened Sorting
  import opened Relational
  import opened Repository
  import opened ReadAgreement
  import opened Scoping
  import opened Toolbox

  // ------------------------------------------------------------------------ arguments

  /** The value given for a name. */
  ghost predicate Given(args: Dict<Arg>, name: string, v: Arg) {
    exists i :: 0 <= i < |args| && args[i] == (name, v) && forall j | 0 <= j < i :: args[j].0 != name
  }

  lemma {:induction false} GetMeans(args: Dict<Arg>, name: string)
    ensures forall v :: Get(args, name) == Some(v) <==> Given(args, name, v)
    ensures Get(args, name) == None <==> forall i | 0 <= i < |args| :: args[i].0 != name
  {
    if args != [] {
      GetMeans(args[1..], name);
      if args[0].0 == name {
        forall v
          ensures Given(args, name, v) <==> v == args[0].1
        {
          if v == args[0].1 {
            assert args[0] == (name, v);
          }
        }
      } else {
        forall v
          ensures Given(args, name, v) <==> Given(args[1..], name, v)
        {
          GivenLater(args, name, v);
        }
        assert forall i | 1 <= i < |args| :: args[i] == args[1..][i - 1];
      }
    }
  }

  lemma {:induction false} GivenLater(args: Dict<Arg>, name: string, v: Arg)
    requires args != [] && args[0].0 != name
    ensures Given(args, name, v) <==> Given(args[1..], name, v)
  {
    var later := args[1..];
    if i :| 0 <= i < |args| && args[i] == (name, v) && forall j | 0 <= j < i :: args[j].0 != name {
      assert later[i - 1] == args[i];
      assert forall j | 0 <= j < i - 1 :: later[j] == args[j + 1];
    }
    if i :| 0 <= i < |later| && later[i] == (name, v) && forall j | 0 <= j < i :: later[j].0 != name {
      assert args[i + 1] == later[i];
      assert forall j | 1 <= j < i + 1 :: args[j] == later[j - 1];
    }
  }

  lemma {:induction false} TextGiven(args: Dict<Arg>, name: string, t: string)
    ensures TextArgument(args, name) == Ok(t) <==> Given(args, name, ArgText(t))
    ensures TextArgument(args, name).Ok? <==> exists s :: Given(args, name, ArgText(s))
  {
    GetMeans(args, name);
    hide Get, Given;
    if TextArgument(args, name).Ok? {
      assert Given(args, name, ArgText(TextArgument(args, name).value));
    }
    if s :| Given(args, name, ArgText(s)) {
      assert Get(args, name) == Some(ArgText(s));
    }
  }

  lemma {:induction false} FlagGiven(args: Dict<Arg>, name: string, default: bool)
    ensures BoolArgument(args, name, default) != default <==> Given(args, name, ArgBool(!default))
  {
    GetMeans(args, name);
    hide Get, Given;
  }

  /** The number of rows asked for: twenty-five where no whole number was given. */
  ghost predicate AsksFor(args: Dict<Arg>, limit: int) {
    || Given(args, "limit", ArgInt(limit))
    || (limit == 25 && forall n :: !Given(args, "limit", ArgInt(n)))
  }

  lemma {:induction false} LimitGiven(args: Dict<Arg>)
    ensures forall limit :: AsksFor(args, limit) <==> limit == LimitOf(args)
  {
    GetMeans(args, "limit");
    hide Get, Given;
    forall limit
      ensures AsksFor(args, limit) <==> limit == LimitOf(args)
    {
      assert Given(args, "limit", ArgInt(limit)) <==> Get(args, "limit") == Some(ArgInt(limit));
      assert forall n :: Given(args, "limit", ArgInt(n)) <==> Get(args, "limit") == Some(ArgInt(n));
    }
  }

  // --------------------------------------------------------------------------- a list

  /** A row meets the arguments as filters, all but those set apart; a null filters nothing. */
  ghost predicate Fits(row: Row, args: Dict<Arg>, apart: set<string>) {
    forall i | 0 <= i < |args| ::
      args[i].0 in apart || args[i].1.ArgNone? || SqlEq(Cell(row, args[i].0), Bind(args[i].1))
  }

  ghost predicate NamesFilters(table: Table, args: Dict<Arg>, apart: set<string>) {
    forall i | 0 <= i < |args| :: args[i].0 in apart || args[i].0 in Filterable(table)
  }

  lemma {:induction false} FitsSplit(row: Row, args: Dict<Arg>, apart: set<string>)
    requires args != []
    ensures Fits(row, args, apart) <==>
              && (args[0].0 in apart || args[0].1.ArgNone? || SqlEq(Cell(row, args[0].0), Bind(args[0].1)))
              && Fits(row, args[1..], apart)
  {
    hide Cell, Bind;
    assert forall i | 1 <= i < |args| :: args[i] == args[1..][i - 1];
  }

  lemma {:induction false} NamesSplit(table: Table, args: Dict<Arg>, apart: set<string>)
    requires args != []
    ensures NamesFilters(table, args, apart) <==>
              (args[0].0 in apart || args[0].0 in Filterable(table)) && NamesFilters(table, args[1..], apart)
  {
    hide Filterable;
    assert forall i | 1 <= i < |args| :: args[i] == args[1..][i - 1];
  }

  lemma {:induction false} NothingToFit(table: Table, row: Row, args: Dict<Arg>, apart: set<string>)
    requires args == []
    ensures Fits(row, args, apart) && NamesFilters(table, args, apart)
  {
  }

  /** The filters a handler makes of its arguments ask for the same rows. */
  lemma {:induction false} FiltersFit(table: Table, row: Row, args: Dict<Arg>)
    ensures MeetsAll(row, AsFilters(args)) <==> Fits(row, args, {})
    ensures (forall f | f in AsFilters(args) :: f.0 in Filterable(table)) <==> NamesFilters(table, args, {})
  {
    hide Cell, Bind, Filterable, Fits, NamesFilters;
    if args == [] {
      NothingToFit(table, row, args, {});
    } else {
      FiltersFit(table, row, args[1..]);
      FitsSplit(row, args, {});
      NamesSplit(table, args, {});
      assert AsFilters(args)[0] in AsFilters(args);
      assert forall f :: f in AsFilters(args) <==> f == AsFilters(args)[0] || f in AsFilters(args[1..]);
      assert Meets(row, args[0].0, One(args[0].1)) <==>
               args[0].1.ArgNone? || SqlEq(Cell(row, args[0].0), Bind(args[0].1));
      hide Meets;
    }
  }

  lemma {:induction false} WithoutFits(table: Table, row: Row, args: Dict<Arg>, name: string)
    ensures Fits(row, Without(args, name), {}) <==> Fits(row, args, {name})
    ensures NamesFilters(table, Without(args, name), {}) <==> NamesFilters(table, args, {name})
  {
    hide Cell, Bind, SqlEq, Filterable, Fits, NamesFilters;
    if args == [] {
      NothingToFit(table, row, args, {});
      NothingToFit(table, row, args, {name});
    } else {
      WithoutFits(table, row, args[1..], name);
      FitsSplit(row, args, {name});
      NamesSplit(table, args, {name});
      if args[0].0 != name {
        var kept := Without(args, name);
        assert kept[0] == args[0] && kept[1..] == Without(args[1..], name);
        FitsSplit(row, kept, {});
        NamesSplit(table, kept, {});
      }
    }
  }

  ghost predicate Readable(db: Database, regions: set<string>, table: Table, row: Row) {
    row in Rows(db, table) && (CompanyWide(table) || (ScopedTable(table) && InScope(db, regions, table, row)))
  }

  function Cap(limit: int): nat {
    if limit <= 0 then 1 else if limit >= 200 then 200 else limit
  }

  /** A list of a table: rows that may be read and fit, in key order, no more than the limit, and
      all there are where the limit is not reached. */
  ghost predicate Lists(db: Database, regions: set<string>, table: Table, args: Dict<Arg>, apart: set<string>,
                        limit: int, rows: seq<Row>) {
    && (forall row :: row in rows ==> Readable(db, regions, table, row) && Fits(row, args, apart))
    && |rows| <= Cap(limit)
    && (|rows| < Cap(limit) ==>
          forall row :: Readable(db, regions, table, row) && Fits(row, args, apart) ==> row in rows)
    && (forall i, j | 0 <= i < j < |rows| :: Ascends(Cell(rows[i], KeyColumn(table)), Cell(rows[j], KeyColumn(table))))
  }

  lemma {:induction false} ReadableIsServed(db: Database, regions: set<string>, table: Table, row: Row)
    requires ScopedTable(table) || CompanyWide(table)
    ensures ScopedFrom(db, regions, table).Ok?
    ensures row in ScopedFrom(db, regions, table).value <==> Readable(db, regions, table, row)
  {
    hide ScopedFrom, InScope;
    OtherTables(db, regions, table);
    if ScopedTable(table) {
      ServedExactly(db, regions, table, row);
    }
  }

  lemma {:induction false} MatchingMeans(db: Database, regions: set<string>, table: Table, args: Dict<Arg>, row: Row)
    requires ScopedTable(table) || CompanyWide(table)
    ensures Matching(db, regions, table, AsFilters(args)).Ok? <==> NamesFilters(table, args, {})
    ensures Matching(db, regions, table, AsFilters(args)).Ok? ==>
              (row in Matching(db, regions, table, AsFilters(args)).value <==>
                 Readable(db, regions, table, row) && Fits(row, args, {}))
  {
    ReadableIsServed(db, regions, table, row);
    FiltersFit(table, row, args);
    FilterMeaning(table, AsFilters(args), row);
    hide ScopedFrom, Readable, Fits, MeetsAll, FilterClause, Filterable, NamesFilters, AsFilters, Satisfies;
    hide ScopedTable, CompanyWide;
    if Matching(db, regions, table, AsFilters(args)).Ok? {
      SelectMembers(ScopedFrom(db, regions, table).value, FilterClause(table, AsFilters(args)).value);
    }
  }

  lemma {:induction false} ListSucceeds(db: Database, regions: set<string>, table: Table, args: Dict<Arg>, limit: int)
    requires ScopedTable(table) || CompanyWide(table)
    ensures ListRows(db, regions, table, AsFilters(args), limit, true).Ok? <==> NamesFilters(table, args, {})
  {
    hide Matching, NamesFilters, AsFilters, Sort, Project, Hidden, PrimaryKey, Take, ScopedTable, CompanyWide;
    MatchingMeans(db, regions, table, args, map[]);
  }

  /** What a list read answers. */
  lemma {:induction false} ListMeans(db: Database, regions: set<string>, table: Table, args: Dict<Arg>, limit: int)
    requires ScopedTable(table) || CompanyWide(table)
    ensures ListRows(db, regions, table, AsFilters(args), limit, true).Ok? <==> NamesFilters(table, args, {})
    ensures var r := ListRows(db, regions, table, AsFilters(args), limit, true);
            r.Ok? ==> Lists(db, regions, table, args, {}, limit, r.value)
  {
    hide ListRows, Readable, Fits, Matching, AsFilters, Ascends, KeyColumn, NamesFilters, Cell;
    hide ScopedTable, CompanyWide;
    ListSucceeds(db, regions, table, args, limit);
    if ListRows(db, regions, table, AsFilters(args), limit, true).Ok? {
      ListIsTheMatches(db, regions, table, AsFilters(args), limit);
      var rows := Matching(db, regions, table, AsFilters(args)).value;
      forall row
        ensures row in rows <==> Readable(db, regions, table, row) && Fits(row, args, {})
      {
        MatchingMeans(db, regions, table, args, row);
      }
    }
  }

  lemma {:induction false} ListIsTheMatches(db: Database, regions: set<string>, table: Table,
                                            filters: Dict<FilterValue>, limit: int)
    requires ScopedTable(table) || CompanyWide(table)
    requires ListRows(db, regions, table, filters, limit, true).Ok?
    ensures Matching(db, regions, table, filters).Ok?
    ensures var list, rows := ListRows(db, regions, table, filters, limit, true).value,
              Matching(db, regions, table, filters).value;
            && |list| <= Cap(limit) && (forall row :: row in list ==> row in rows)
            && (|list| < Cap(limit) ==> forall row :: row in rows ==> row in list)
            && (forall i, j | 0 <= i < j < |list| ::
                  Ascends(Cell(list[i], KeyColumn(table)), Cell(list[j], KeyColumn(table))))
  {
    MatchesRead(db, regions, table, filters, limit);
    var leftOut := ListIsOrdered(db, regions, table, filters, limit, true);
    hide ListRows, Matching, PrimaryKey, KeyColumn, ScopedTable, CompanyWide, Ascends, RowLe, Project, Sorted;
    NothingHidden(table);
    var list := ListRows(db, regions, table, filters, limit, true).value;
    var rows := Matching(db, regions, table, filters).value;
    var listed :| multiset(listed + leftOut) == multiset(rows) && list == Project(listed, Hidden(table, true));
    hide Hidden;
    ProjectNothing(listed);
    SameMembers(listed, leftOut, rows);
    forall i, j | 0 <= i < j < |list|
      ensures Ascends(Cell(list[i], KeyColumn(table)), Cell(list[j], KeyColumn(table)))
    {
      ListAscends(db, regions, table, filters, limit, true, i, j);
    }
  }

  lemma {:induction false} MatchesRead(db: Database, regions: set<string>, table: Table,
                                       filters: Dict<FilterValue>, limit: int)
    requires ScopedTable(table) || CompanyWide(table)
    requires ListRows(db, regions, table, filters, limit, true).Ok?
    ensures Matching(db, regions, table, filters).Ok? && PrimaryKey(table) != []
    ensures var shown := |ListRows(db, regions, table, filters, limit, true).value|;
            var there := |Matching(db, regions, table, filters).value|;
            shown == if there < Cap(limit) then there else Cap(limit)
  {
    ListIsCapped(db, regions, table, filters, limit, true);
    hide Matching, Project, Sort, Hidden;
  }

  lemma {:induction false} SameMembers(listed: seq<Row>, leftOut: seq<Row>, rows: seq<Row>)
    requires multiset(listed + leftOut) == multiset(rows)
    ensures forall row :: row in listed ==> row in rows
    ensures |listed| == |rows| ==> forall row :: row in rows ==> row in listed
  {
    assert |multiset(listed + leftOut)| == |listed| + |leftOut| && |multiset(rows)| == |rows|;
    forall row
      ensures row in rows <==> row in listed || row in leftOut
    {
      assert row in rows <==> row in multiset(rows);
      assert row in multiset(listed + leftOut) <==> row in listed + leftOut;
    }
  }

  lemma {:induction false} ProjectNothing(rows: seq<Row>)
    ensures Project(rows, {}) == rows
  {
    ProjectLength(rows, {});
    forall i | 0 <= i < |rows|
      ensures Project(rows, {})[i] == rows[i]
    {
      assert rows[i] - {} == rows[i];
    }
  }

  // --------------------------------------------------------------- searches and look-ups

  lemma {:induction false} ListsAlike(db: Database, regions: set<string>, table: Table, args: Dict<Arg>,
                                      apart: set<string>, others: Dict<Arg>, alsoApart: set<string>, limit: int,
                                      rows: seq<Row>)
    requires Lists(db, regions, table, args, apart, limit, rows)
    requires forall row :: Fits(row, args, apart) <==> Fits(row, others, alsoApart)
    ensures Lists(db, regions, table, others, alsoApart, limit, rows)
  {
    hide Fits, Readable, Ascends, KeyColumn;
  }

  ghost predicate ListsTable(db: Database, scope: Scope, table: Table, args: Dict<Arg>, a: Answer) {
    a.Listing? && exists limit ::
      AsksFor(args, limit) && Lists(db, scope.regions, table, args, {"limit"}, limit, a.rows)
  }

  lemma {:induction false} SearchMeans(db: Database, scope: Scope, table: Table, args: Dict<Arg>)
    requires ScopedTable(table) || CompanyWide(table)
    ensures Search(db, scope, table, args).Ok? <==> NamesFilters(table, args, {"limit"})
    ensures Search(db, scope, table, args).Ok? ==>
              ListsTable(db, scope, table, args, Search(db, scope, table, args).value)
  {
    var given, limit := Without(args, "limit"), LimitOf(args);
    ListMeans(db, scope.regions, table, given, limit);
    LimitGiven(args);
    forall row: Row
      ensures Fits(row, given, {}) <==> Fits(row, args, {"limit"})
      ensures NamesFilters(table, given, {}) <==> NamesFilters(table, args, {"limit"})
    {
      WithoutFits(table, row, args, "limit");
    }
    assert NamesFilters(table, given, {}) <==> NamesFilters(table, args, {"limit"}) by {
      WithoutFits(table, map[], args, "limit");
    }
    hide ListRows, Lists, Fits, NamesFilters, AsksFor, Without, LimitOf, AsFilters, ScopedTable, CompanyWide;
    var r := Search(db, scope, table, args);
    if r.Ok? {
      ListsAlike(db, scope.regions, table, given, {}, args, {"limit"}, limit, r.value.rows);
    }
  }

  lemma {:induction false} FetchMeans(db: Database, regions: set<string>, table: Table, key: string)
    requires ScopedTable(table) || CompanyWide(table)
    ensures var found := FetchByKey(db, regions, table, key, true);
            && found.Ok?
            && (found.value.Some? ==>
                  && Readable(db, regions, table, found.value.value)
                  && Cell(found.value.value, KeyColumn(table)) == Text(key))
            && (found.value.None? ==>
                  forall row :: Readable(db, regions, table, row) ==> Cell(row, KeyColumn(table)) != Text(key))
  {
    NothingHidden(table);
    forall row
      ensures ScopedFrom(db, regions, table).Ok?
      ensures row in ScopedFrom(db, regions, table).value <==> Readable(db, regions, table, row)
    {
      ReadableIsServed(db, regions, table, row);
    }
    assert ScopedFrom(db, regions, table).Ok? by { ReadableIsServed(db, regions, table, map[]); }
    hide ScopedFrom, Readable, Cell, KeyColumn, FirstWithKey, Hidden, ScopedTable, CompanyWide;
    var rows := ScopedFrom(db, regions, table).value;
    FirstFound(rows, KeyColumn(table), key);
    var first := FirstWithKey(rows, KeyColumn(table), key);
    if first.Some? {
      assert first.value - {} == first.value;
    }
  }

  ghost predicate NoneReadable(db: Database, scope: Scope, table: Table, key: string, id: string) {
    forall row :: Readable(db, scope.regions, table, row) ==> Cell(row, key) != Text(id)
  }

  ghost predicate FoundReadable(db: Database, scope: Scope, table: Table, key: string, id: string, row: Row) {
    Readable(db, scope.regions, table, row) && Cell(row, key) == Text(id)
  }

  lemma {:induction false} RowFetched(db: Database, scope: Scope, table: Table, key: string, id: string)
    requires (ScopedTable(table) || CompanyWide(table)) && KeyColumn(table) == key
    ensures var found := FetchByKey(db, scope.regions, table, id, true);
            && found.Ok? && (found.value.Some? ==> FoundReadable(db, scope, table, key, id, found.value.value))
            && (found.value.None? ==> NoneReadable(db, scope, table, key, id))
  {
    hide FetchByKey, Readable, Cell, ScopedTable, CompanyWide, KeyColumn;
    FetchMeans(db, scope.regions, table, id);
  }

  /** The row with the key given under the key's own name, or nothing if none may be read. */
  ghost predicate FindsRow(db: Database, scope: Scope, table: Table, key: string, args: Dict<Arg>, a: Answer) {
    exists id :: Given(args, key, ArgText(id)) &&
      if a.Nothing? then NoneReadable(db, scope, table, key, id)
      else a.Record? && FoundReadable(db, scope, table, key, id, a.row)
  }

  lemma {:induction false} LookupMeans(db: Database, scope: Scope, table: Table, key: string, args: Dict<Arg>)
    requires (ScopedTable(table) || CompanyWide(table)) && KeyColumn(table) == key
    ensures Lookup(db, scope, table, key, args).Ok? <==> exists id :: Given(args, key, ArgText(id))
    ensures Lookup(db, scope, table, key, args).Ok? ==>
              FindsRow(db, scope, table, key, args, Lookup(db, scope, table, key, args).value)
  {
    hide TextArgument, Given, FetchByKey, ScopedTable, CompanyWide, KeyColumn, FoundReadable, NoneReadable;
    TextGiven(args, key, "");
    if TextArgument(args, key).Ok? {
      var id := TextArgument(args, key).value;
      TextGiven(args, key, id);
      RowFetched(db, scope, table, key, id);
    }
  }

  ghost predicate FindsOrder(db: Database, scope: Scope, args: Dict<Arg>, a: Answer) {
    exists id :: Given(args, "order_id", ArgText(id)) &&
      if a.Nothing? then NoneReadable(db, scope, Orders, "order_id", id)
      else
        && a.OrderRecord? && FoundReadable(db, scope, Orders, "order_id", id, a.order)
        && (a.lines.None? <==> Given(args, "include_lines", ArgBool(false)))
        && (a.lines.Some? ==>
              Lists(db, scope.regions, OrderLines, [("order_id", ArgText(id))], {}, 200, a.lines.value))
  }

  lemma {:induction false} OneFilter(column: string, id: string)
    ensures AsFilters([(column, ArgText(id))]) == [(column, One(ArgText(id)))]
  {
    assert [(column, ArgText(id))][1..] == [];
  }

  lemma {:induction false} LinesMean(db: Database, regions: set<string>, id: string)
    ensures var lines := ListRows(db, regions, OrderLines, [("order_id", One(ArgText(id)))], 200, true);
            lines.Ok? && Lists(db, regions, OrderLines, [("order_id", ArgText(id))], {}, 200, lines.value)
  {
    OneFilter("order_id", id);
    ListMeans(db, regions, OrderLines, [("order_id", ArgText(id))], 200);
    hide ListRows, Lists;
  }

  lemma {:induction false} OrderMeans(db: Database, scope: Scope, args: Dict<Arg>)
    ensures LookupOrder(db, scope, args).Ok? <==> exists id :: Given(args, "order_id", ArgText(id))
    ensures LookupOrder(db, scope, args).Ok? ==> FindsOrder(db, scope, args, LookupOrder(db, scope, args).value)
  {
    assert KeyColumn(Orders) == "order_id";
    hide TextArgument, BoolArgument, Given, FetchByKey, ListRows, Lists, KeyColumn, FoundReadable, NoneReadable;
    TextGiven(args, "order_id", "");
    FlagGiven(args, "include_lines", true);
    if TextArgument(args, "order_id").Ok? {
      var id := TextArgument(args, "order_id").value;
      TextGiven(args, "order_id", id);
      RowFetched(db, scope, Orders, "order_id", id);
      LinesMean(db, scope.regions, id);
    }
  }

  /** A case is shown with its notes if they were asked for; internal notes only to those who may
      write. */
  ghost predicate FindsCase(db: Database, scope: Scope, args: Dict<Arg>, a: Answer) {
    exists id :: Given(args, "case_id", ArgText(id)) &&
      if a.Nothing? then NoneReadable(db, scope, SupportCases, "case_id", id)
      else
        && a.CaseRecord? && FoundReadable(db, scope, SupportCases, "case_id", id, a.supportCase)
        && (a.notes.Some? <==> Given(args, "include_notes", ArgBool(true)))
        && (a.notes.Some? ==>
              exists notes ::
                && Lists(db, scope.regions, SupportCaseNotes, [("case_id", ArgText(id))], {}, 200, notes)
                && if "support.write" in scope.roles then a.notes.value == notes
                   else forall note :: note in a.notes.value <==>
                          note in notes && Cell(note, "visibility") != Text("internal"))
  }

  lemma {:induction false} NotesMean(db: Database, regions: set<string>, id: string)
    ensures var notes := ListRows(db, regions, SupportCaseNotes, [("case_id", One(ArgText(id)))], 200, true);
            && notes.Ok?
            && Lists(db, regions, SupportCaseNotes, [("case_id", ArgText(id))], {}, 200, notes.value)
            && forall note :: note in CustomerFacing(notes.value) <==>
                 note in notes.value && Cell(note, "visibility") != Text("internal")
  {
    OneFilter("case_id", id);
    ListMeans(db, regions, SupportCaseNotes, [("case_id", ArgText(id))], 200);
    hide ListRows, Lists, CustomerFacing;
    var notes := ListRows(db, regions, SupportCaseNotes, [("case_id", One(ArgText(id)))], 200, true).value;
    forall note
      ensures note in CustomerFacing(notes) <==> note in notes && Cell(note, "visibility") != Text("internal")
    {
      CustomerFacingHidesInternal(notes, note);
    }
  }

  lemma {:induction false} CaseMeans(db: Database, scope: Scope, args: Dict<Arg>)
    ensures LookupCase(db, scope, args).Ok? <==> exists id :: Given(args, "case_id", ArgText(id))
    ensures LookupCase(db, scope, args).Ok? ==> FindsCase(db, scope, args, LookupCase(db, scope, args).value)
  {
    assert KeyColumn(SupportCases) == "case_id";
    hide TextArgument, BoolArgument, Given, FetchByKey, Cell, ListRows, Lists, CustomerFacing, KeyColumn, FoundReadable,
      NoneReadable;
    TextGiven(args, "case_id", "");
    FlagGiven(args, "include_notes", false);
    if TextArgument(args, "case_id").Ok? {
      var id := TextArgument(args, "case_id").value;
      TextGiven(args, "case_id", id);
      RowFetched(db, scope, SupportCases, "case_id", id);
      NotesMean(db, scope.regions, id);
    }
  }

  // -------------------------------------------------------------------------- bookings

  lemma {:induction false} GivenWithout(args: Dict<Arg>, name: string, other: string)
    requires name != other
    ensures Get(Without(args, other), name) == Get(args, name)
  {
    if args != [] {
      GivenWithout(args[1..], name, other);
      if args[0].0 != other {
        assert Without(args, other)[1..] == Without(args[1..], other);
      }
    }
  }

  /** Setting a filter that was free, or set so already, adds just that condition. */
  lemma {:induction false} PutFits(row: Row, args: Dict<Arg>, name: string, v: Arg)
    requires v != ArgNone
    requires Get(args, name).None? || Get(args, name).value in {ArgNone, v}
    ensures Fits(row, Put(args, name, v), {}) <==> Fits(row, [(name, v)] + args, {})
    ensures Put(AsFilters(args), name, One(v)) == AsFilters(Put(args, name, v))
  {
    hide Cell, Bind, Fits, SqlEq;
    var more := [(name, v)] + args;
    assert more[1..] == args;
    FitsSplit(row, more, {});
    if args == [] {
      assert Put(args, name, v) == more;
      assert AsFilters(more) == [(name, One(v))] + AsFilters(more[1..]);
    } else {
      FitsSplit(row, args, {});
      var put := Put(args, name, v);
      FitsSplit(row, put, {});
      if args[0].0 == name {
        assert put[1..] == args[1..];
      } else {
        assert put[1..] == Put(args[1..], name, v);
        PutFits(row, args[1..], name, v);
        var rest := [(name, v)] + args[1..];
        assert rest[1..] == args[1..];
        FitsSplit(row, rest, {});
        assert Put(AsFilters(args), name, One(v))[1..] == Put(AsFilters(args[1..]), name, One(v));
      }
    }
  }

  lemma {:induction false} PutNames(table: Table, args: Dict<Arg>, name: string, v: Arg)
    requires name in Filterable(table)
    ensures NamesFilters(table, Put(args, name, v), {}) <==> NamesFilters(table, args, {})
  {
    hide Filterable, NamesFilters;
    var put := Put(args, name, v);
    NamesSplit(table, put, {});
    if args == [] {
      NothingToFit(table, map[], args, {});
      NothingToFit(table, map[], put[1..], {});
    } else {
      NamesSplit(table, args, {});
      if args[0].0 == name {
        assert put[1..] == args[1..];
      } else {
        assert put[1..] == Put(args[1..], name, v);
        PutNames(table, args[1..], name, v);
      }
    }
  }

  const TRAVELLER: string := "traveller_employee_id"

  /** Somebody else's bookings were asked for. */
  ghost predicate AsksForOthers(scope: Scope, args: Dict<Arg>) {
    exists v :: Given(args, TRAVELLER, v) && v != ArgNone && v != ArgText(scope.employeeId)
  }

  function OwnBookings(scope: Scope, args: Dict<Arg>): Dict<Arg> {
    [(TRAVELLER, ArgText(scope.employeeId))] + args
  }

  lemma {:induction false} OwnFilters(scope: Scope, args: Dict<Arg>, row: Row)
    requires !AsksForOthers(scope, args)
    ensures var kept := Without(args, "limit");
            var narrowed := Put(kept, TRAVELLER, ArgText(scope.employeeId));
            && Put(AsFilters(kept), TRAVELLER, One(ArgText(scope.employeeId))) == AsFilters(narrowed)
            && (NamesFilters(TravelBookings, narrowed, {}) <==> NamesFilters(TravelBookings, args, {"limit"}))
            && (Fits(row, narrowed, {}) <==> Fits(row, OwnBookings(scope, args), {"limit"}))
  {
    hide Given, Fits, NamesFilters, Put, Get, AsFilters;
    var kept, me, own := Without(args, "limit"), ArgText(scope.employeeId), OwnBookings(scope, args);
    GetMeans(args, TRAVELLER);
    GivenWithout(args, TRAVELLER, "limit");
    PutFits(row, kept, TRAVELLER, me);
    PutNames(TravelBookings, kept, TRAVELLER, me);
    WithoutFits(TravelBookings, row, args, "limit");
    WithoutFits(TravelBookings, row, own, "limit");
    assert own[1..] == args;
    assert Without(own, "limit") == [(TRAVELLER, me)] + kept;
  }

  /** Coordinators list whoever they ask for; everyone else themselves, or is refused. */
  lemma {:induction false} BookingsMean(db: Database, scope: Scope, args: Dict<Arg>)
    ensures var r := ListMyBookings(db, scope, args);
            var coordinates := "travel.coordinate" in scope.roles;
            && (r == Err(OwnBookingsOnly) <==> !coordinates && AsksForOthers(scope, args))
            && (r.Ok? <==>
                  (coordinates || !AsksForOthers(scope, args)) && NamesFilters(TravelBookings, args, {"limit"}))
            && (r.Ok? ==>
                  var asked := if coordinates then args else OwnBookings(scope, args);
                  ListsTable(db, scope, TravelBookings, asked, r.value))
  {
    hide ListRows, Fits, NamesFilters, Given, Put, Get, AsFilters, Without, Lists, OwnBookings, AsksFor, LimitOf;
    GetMeans(args, TRAVELLER);
    LimitGiven(args);
    if "travel.coordinate" in scope.roles {
      SearchMeans(db, scope, TravelBookings, args);
    } else if !AsksForOthers(scope, args) {
      OwnBookingsListed(db, scope, args);
    }
  }

  lemma {:induction false} OwnBookingsListed(db: Database, scope: Scope, args: Dict<Arg>)
    requires !AsksForOthers(scope, args)
    ensures var filters := Put(AsFilters(Without(args, "limit")), TRAVELLER, One(ArgText(scope.employeeId)));
            var r := ListRows(db, scope.regions, TravelBookings, filters, LimitOf(args), true);
            && (r.Ok? <==> NamesFilters(TravelBookings, args, {"limit"}))
            && (r.Ok? ==> ListsTable(db, scope, TravelBookings, OwnBookings(scope, args), Listing(r.value)))
  {
    hide ListRows, Fits, NamesFilters, Given, Put, Get, AsFilters, Without, Lists, LimitOf, AsksForOthers;
    var narrowed := Put(Without(args, "limit"), TRAVELLER, ArgText(scope.employeeId));
    var limit := LimitOf(args);
    OwnFilters(scope, args, map[]);
    ListMeans(db, scope.regions, TravelBookings, narrowed, limit);
    forall row: Row
      ensures Fits(row, narrowed, {}) <==> Fits(row, OwnBookings(scope, args), {"limit"})
    {
      OwnFilters(scope, args, row);
    }
    OwnLimit(scope, args, limit);
    LimitGiven(args);
    hide OwnBookings, AsksFor;
    var r := ListRows(db, scope.regions, TravelBookings, AsFilters(narrowed), limit, true);
    if r.Ok? {
      ListsAlike(db, scope.regions, TravelBookings, narrowed, {}, OwnBookings(scope, args), {"limit"}, limit, r.value);
    }
  }

  lemma {:induction false} OwnLimit(scope: Scope, args: Dict<Arg>, limit: int)
    ensures AsksFor(OwnBookings(scope, args), limit) <==> AsksFor(args, limit)
  {
    var own := OwnBookings(scope, args);
    assert own[1..] == args;
    forall v
      ensures Given(own, "limit", v) <==> Given(args, "limit", v)
    {
      GivenLater(own, "limit", v);
    }
    hide Given, OwnBookings;
  }

  // ---------------------------------------------------------------------- the roster tools

  /** The rows a group or a count is made of. */
  ghost predicate AllFitting(db: Database, regions: set<string>, table: Table, args: Dict<Arg>, apart: set<string>,
                             rows: seq<Row>) {
    forall row :: row in rows <==> Readable(db, regions, table, row) && Fits(row, args, apart)
  }

  lemma {:induction false} MatchingAll(db: Database, regions: set<string>, table: Table, args: Dict<Arg>, name: string)
    requires ScopedTable(table) || CompanyWide(table)
    ensures var r := Matching(db, regions, table, AsFilters(Without(args, name)));
            && (r.Ok? <==> NamesFilters(table, args, {name}))
            && (r.Ok? ==> AllFitting(db, regions, table, args, {name}, r.value))
  {
    hide Matching, Readable, Fits, AsFilters, Without, NamesFilters, ScopedTable, CompanyWide;
    forall row: Row
      ensures var r := Matching(db, regions, table, AsFilters(Without(args, name)));
              && (r.Ok? <==> NamesFilters(table, args, {name}))
              && (r.Ok? ==> (row in r.value <==> Readable(db, regions, table, row) && Fits(row, args, {name})))
    {
      MatchingMeans(db, regions, table, Without(args, name), row);
      WithoutFits(table, row, args, name);
    }
    assert Matching(db, regions, table, AsFilters(Without(args, name))).Ok? <==> NamesFilters(table, args, {name}) by {
      MatchingMeans(db, regions, table, Without(args, name), map[]);
      WithoutFits(table, map[], args, name);
    }
  }

  /** How many employees in scope fit the arguments. */
  lemma {:induction false} RosterCountMeans(db: Database, scope: Scope, args: Dict<Arg>)
    ensures CountRoster(db, scope, args).Ok? <==> NamesFilters(Employees, args, {"limit"})
    ensures CountRoster(db, scope, args).Ok? ==>
              CountRoster(db, scope, args).value.Count?
              && exists rows: seq<Row> ::
                   AllFitting(db, scope.regions, Employees, args, {"limit"}, rows)
                   && |rows| == CountRoster(db, scope, args).value.n
  {
    hide Matching, AsFilters, Without, NamesFilters, AllFitting;
    MatchingAll(db, scope.regions, Employees, args, "limit");
  }

  /** Each employee in scope is counted once. */
  lemma {:induction false} RosterCountIsExact(db: Database, scope: Scope, args: Dict<Arg>)
    requires KeysDeclared(db) && CountRoster(db, scope, args).Ok?
    ensures CountRoster(db, scope, args).value
         == Count(|Filter(Rows(db, Employees), (r: Row) =>
                    InScope(db, scope.regions, Employees, r) && Fits(r, args, {"limit"}))|)
  {
    hide InScope, Fits, MeetsAll, AsFilters, Without, Filterable, CountRows, NamesFilters, KeysDeclared, Filter;
    RosterCountMeans(db, scope, args);
    var filters := AsFilters(Without(args, "limit"));
    forall row: Row
      ensures MeetsAll(row, filters) <==> Fits(row, args, {"limit"})
      ensures forall f | f in filters :: f.0 in Filterable(Employees)
    {
      FiltersFit(Employees, row, Without(args, "limit"));
      WithoutFits(Employees, row, args, "limit");
    }
    assert forall f | f in filters :: f.0 in Filterable(Employees) by {
      FiltersFit(Employees, map[], Without(args, "limit"));
      WithoutFits(Employees, map[], args, "limit");
    }
    CountIsTheRowsInScope(db, scope.regions, Employees, filters);
    FilterAlike(Rows(db, Employees),
      (r: Row) => InScope(db, scope.regions, Employees, r) && MeetsAll(r, filters),
      (r: Row) => InScope(db, scope.regions, Employees, r) && Fits(r, args, {"limit"}));
  }

  /** The employees in scope, by the value of one column: each group with its size, none below
      the floor; refused where every one is. */
  ghost predicate GroupsOf(cfg: Config, rows: seq<Row>, column: string, a: Answer) {
    a.Grouped? && forall g :: g in a.groups <==>
      0 < g.count == CountOf(rows, column, g.key) && g.count >= cfg.minimumCohort
  }

  lemma {:induction false} RosterGroupsMean(cfg: Config, db: Database, scope: Scope, args: Dict<Arg>)
    ensures var r := AggregateRoster(cfg, db, scope, args);
            && (r.Ok? ==>
                  exists column, rows: seq<Row> ::
                    && Given(args, "group_by", ArgText(column)) && column in Filterable(Employees)
                    && NamesFilters(Employees, args, {"group_by"})
                    && AllFitting(db, scope.regions, Employees, args, {"group_by"}, rows)
                    && GroupsOf(cfg, rows, column, r.value))
  {
    hide Matching, AsFilters, Without, NamesFilters, AllFitting, Filterable, Given, Aggregate, GroupsOf;
    var r := AggregateRoster(cfg, db, scope, args);
    if r.Ok? {
      var column := TextArgument(args, "group_by").value;
      TextGiven(args, "group_by", column);
      MatchingAll(db, scope.regions, Employees, args, "group_by");
      var filters := AsFilters(Without(args, "group_by"));
      GroupsNeedMatches(db, scope.regions, cfg.minimumCohort, column, filters);
      var rows := Matching(db, scope.regions, Employees, filters).value;
      GroupsReported(cfg, db, scope, column, filters, rows, r.value);
    }
  }

  lemma {:induction false} GroupsNeedMatches(db: Database, regions: set<string>, cohort: int, column: string,
                                             filters: Dict<FilterValue>)
    requires Aggregate(db, regions, cohort, Employees, column, filters).Ok?
    ensures Matching(db, regions, Employees, filters).Ok?
  {
    hide ScopedFrom, FilterClause, GroupBy, AtLeast, Filterable, Select;
  }

  lemma {:induction false} GroupsReported(cfg: Config, db: Database, scope: Scope, column: string,
                                          filters: Dict<FilterValue>, rows: seq<Row>, a: Answer)
    requires Aggregate(db, scope.regions, cfg.minimumCohort, Employees, column, filters).Ok?
    requires a == Grouped(Aggregate(db, scope.regions, cfg.minimumCohort, Employees, column, filters).value)
    requires Matching(db, scope.regions, Employees, filters) == Ok(rows)
    ensures column in Filterable(Employees) && GroupsOf(cfg, rows, column, a)
  {
    assert column in Filterable(Employees);
    hide Matching, Aggregate, Filterable, CountOf;
    forall g: Group
      ensures g in a.groups <==> 0 < g.count == CountOf(rows, column, g.key) && g.count >= cfg.minimumCohort
    {
      AggregateReports(db, scope.regions, cfg.minimumCohort, Employees, column, filters, g);
    }
  }

  /** The chain of the employee named, up to eight records of it. */
  ghost predicate FindsChain(db: Database, scope: Scope, args: Dict<Arg>, a: Answer) {
    a.Listing? && exists id ::
      Given(args, "employee_id", ArgText(id)) && a.rows == Hierarchy(db, scope.regions, id, 8)
  }

  lemma {:induction false} ChainMeans(db: Database, scope: Scope, args: Dict<Arg>)
    ensures ManagementChain(db, scope, args).Ok? <==> exists id :: Given(args, "employee_id", ArgText(id))
    ensures ManagementChain(db, scope, args).Ok? ==> FindsChain(db, scope, args, ManagementChain(db, scope, args).value)
  {
    hide TextArgument, Given, Hierarchy;
    TextGiven(args, "employee_id", "");
    if TextArgument(args, "employee_id").Ok? {
      TextGiven(args, "employee_id", TextArgument(args, "employee_id").value);
    }
  }

  lemma {:induction false} DescriptionMeans(db: Database, scope: Scope)
    ensures DescribeRoster(db, scope) == Ok(Schema(Employees, Filterable(Employees), true))
  {
    hide Filterable;
    ReadableIsServed(db, scope.regions, Employees, map[]);
  }

  // ------------------------------------------------------------------------ tool by tool

  /** What an answer of a reading tool is, but for the three tools that plan travel. */
  ghost predicate Answers(cfg: Config, db: Database, scope: Scope, tool: Tool, args: Dict<Arg>, a: Answer) {
    match tool
    case CustomerGetCallerContext => a == Context(scope.persona, scope.employeeId, scope.roles, scope.regions)
    case CustomerSearch => ListsTable(db, scope, Customers, args, a)
    case CatalogSearchProducts => ListsTable(db, scope, Products, args, a)
    case CatalogCheckStock => ListsTable(db, scope, StockLevels, args, a)
    case OrdersSearchOrders => ListsTable(db, scope, Orders, args, a)
    case OrdersSearchInvoices => ListsTable(db, scope, Invoices, args, a)
    case TravelSearchRoutes => ListsTable(db, scope, TravelRoutes, args, a)
    case TravelSearchFares => ListsTable(db, scope, TravelFares, args, a)
    case HrGetPolicies => ListsTable(db, scope, HrPolicies, args, a)
    case HrSearchRoster => ListsTable(db, scope, Employees, args, a)
    case SupportSearchCases => ListsTable(db, scope, SupportCases, args, a)
    case OperationsSearchWorkOrders => ListsTable(db, scope, WorkOrders, args, a)
    case OperationsListLocations => ListsTable(db, scope, Locations, args, a)
    case CustomerLookup => FindsRow(db, scope, Customers, "customer_id", args, a)
    case CatalogLookupProduct => FindsRow(db, scope, Products, "product_id", args, a)
    case OrdersLookupInvoice => FindsRow(db, scope, Invoices, "invoice_id", args, a)
    case OperationsLookupWorkOrder => FindsRow(db, scope, WorkOrders, "work_order_id", args, a)
    case OrdersLookupOrder => FindsOrder(db, scope, args, a)
    case SupportLookupCase => FindsCase(db, scope, args, a)
    case TravelListMyBookings =>
      ListsTable(db, scope, TravelBookings,
        if "travel.coordinate" in scope.roles then args else OwnBookings(scope, args), a)
    case HrCountRoster =>
      a.Count? && exists rows: seq<Row> ::
        AllFitting(db, scope.regions, Employees, args, {"limit"}, rows) && |rows| == a.n
    case HrDescribeRoster => a == Schema(Employees, Filterable(Employees), true)
    case HrGetManagementChain => FindsChain(db, scope, args, a)
    case HrAggregateRoster =>
      exists column, rows: seq<Row> ::
        && Given(args, "group_by", ArgText(column))
        && AllFitting(db, scope.regions, Employees, args, {"group_by"}, rows) && GroupsOf(cfg, rows, column, a)
    case _ => true
  }

  /** Main result on the reading tools: whatever one answers is that, of the rows in scope. */
  lemma {:induction false} ReadMeans(cfg: Config, db: Database, scope: Scope, tool: Tool, args: Dict<Arg>)
    requires !tool.Unimplemented? && tool != SupportUpdateCase && Read(cfg, db, scope, tool, args).Ok?
    ensures Answers(cfg, db, scope, tool, args, Read(cfg, db, scope, tool, args).value)
  {
    hide Search, Lookup, LookupOrder, LookupCase, ListMyBookings, ManagementChain, ResolveLocations, CountRoster,
      DescribeRoster, AggregateRoster, SimulateBooking, TravelPolicy, ListsTable, FindsRow, FindsOrder, FindsCase,
      FindsChain, GroupsOf, AllFitting, Filterable, Given, OwnBookings;
    if SearchedTable(tool).Some? {
      SearchMeans(db, scope, SearchedTable(tool).value, args);
    } else if LookedUp(tool).Some? {
      LookupMeans(db, scope, LookedUp(tool).value.0, LookedUp(tool).value.1, args);
    } else {
      OrderMeans(db, scope, args);
      CaseMeans(db, scope, args);
      BookingsMean(db, scope, args);
      RosterCountMeans(db, scope, args);
      DescriptionMeans(db, scope);
      ChainMeans(db, scope, args);
      RosterGroupsMean(cfg, db, scope, args);
    }
  }
}
