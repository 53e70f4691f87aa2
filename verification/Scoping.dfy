/** What a scope sees, told from the stored rows alone: which rows each table serves, and so what
    lists, counts and fetches return. */
module Scoping {
  import opened Wrappers
  import opened Sorting
  import opened Relational
  import opened Repository
  import opened ReadAgreement

  // ------------------------------------------------------------------------ ownership

  /** A foreign key that is not null and names the owner's key. */
  ghost predicate Refers(row: Row, column: string, owner: Row, key: string) {
    Cell(row, column) != Null && Cell(row, column) == Cell(owner, key)
  }

  ghost predicate CustomerOf(db: Database, row: Row, customer: Row) {
    customer in Rows(db, Customers) && Refers(row, "customer_id", customer, "customer_id")
  }

  ghost predicate SiteOf(db: Database, row: Row, site: Row) {
    site in Rows(db, Locations) && Refers(row, "location_id", site, "location_id")
  }

  /** Whose region a row of a scoped table takes: its own, its customer's, that of the customer of
      its order or case, its location's or its traveller's. */
  ghost predicate Owns(db: Database, table: Table, owner: Row, row: Row) {
    match table
    case Locations | Suppliers | Customers | Employees | TravelPolicies | HrPolicies => owner == row
    case Orders | Invoices | SupportCases => CustomerOf(db, row, owner)
    case OrderLines =>
      exists order :: order in Rows(db, Orders) && Refers(row, "order_id", order, "order_id")
                      && CustomerOf(db, order, owner)
    case SupportCaseNotes =>
      exists ticket :: ticket in Rows(db, SupportCases) && Refers(row, "case_id", ticket, "case_id")
                       && CustomerOf(db, ticket, owner)
    case StockLevels | WorkOrders => SiteOf(db, row, owner)
    case TravelBookings =>
      owner in Rows(db, Employees) && Refers(row, "traveller_employee_id", owner, "employee_id")
    case _ => false
  }

  ghost predicate LivesIn(owner: Row, regions: set<string>) {
    exists region :: region in regions && Cell(owner, "region") == Text(region)
  }

  /** HR policies marked GLOBAL are for every region. */
  ghost predicate Reached(table: Table, owner: Row, regions: set<string>) {
    LivesIn(owner, regions) || (table == HrPolicies && Cell(owner, "region") == Text("GLOBAL"))
  }

  /** A row is in scope when its owner's region is. */
  ghost predicate InScope(db: Database, regions: set<string>, table: Table, row: Row) {
    exists owner :: Owns(db, table, owner, row) && Reached(table, owner, regions)
  }

  predicate ScopedTable(table: Table) {
    match table
    case Locations | Suppliers | StockLevels | Customers | Employees | Orders | OrderLines | Invoices => true
    case SupportCases | SupportCaseNotes | TravelPolicies | TravelBookings | HrPolicies | WorkOrders => true
    case _ => false
  }

  predicate CompanyWide(table: Table) {
    table.ProductCategories? || table.Products? || table.TravelRoutes? || table.TravelFares?
  }

  // -------------------------------------------------------------------- what the joins find

  lemma {:induction false} ParentMembers(db: Database, parents: seq<Row>, key: Value, joins: seq<Join>, region: Value)
    requires joins != []
    ensures region in ParentRegions(db, parents, key, joins) <==>
              exists p :: p in parents && SqlEq(Cell(p, joins[0].key), key) && region in RegionsOf(db, p, joins[1..])
  {
    hide RegionsOf;
    if parents != [] {
      ParentMembers(db, parents[1..], key, joins, region);
      assert parents == [parents[0]] + parents[1..];
    }
  }

  lemma {:induction false} TagMembers(row: Row, regions: seq<Value>, t: Attributed)
    ensures t in Tag(row, regions) <==> t.0 == row && t.1 in regions
  {
    if regions != [] {
      TagMembers(row, regions[1..], t);
      assert regions == [regions[0]] + regions[1..];
    }
  }

  lemma {:induction false} JoinedMembers(db: Database, rows: seq<Row>, joins: seq<Join>, t: Attributed)
    ensures t in Joined(db, rows, joins) <==> t.0 in rows && t.1 in RegionsOf(db, t.0, joins)
  {
    hide RegionsOf;
    if rows != [] {
      JoinedMembers(db, rows[1..], joins, t);
      TagMembers(rows[0], RegionsOf(db, rows[0], joins), t);
      assert rows == [rows[0]] + rows[1..];
    }
  }

  lemma {:induction false} VisibleMembers(table: Table, regions: set<string>, joined: seq<Attributed>, t: Attributed)
    ensures t in Visible(table, regions, joined) <==> t in joined && Admits(table, regions, t.1)
  {
    if joined != [] {
      VisibleMembers(table, regions, joined[1..], t);
      assert joined == [joined[0]] + joined[1..];
    }
  }

  /** The region a path ends in is the region of some owner. */
  ghost predicate OwnersRegion(db: Database, table: Table, row: Row, region: Value) {
    exists owner :: Owns(db, table, owner, row) && region == Cell(owner, "region")
  }

  lemma {:induction false} NoJoin(db: Database, row: Row, region: Value)
    ensures region in RegionsOf(db, row, []) <==> region == Cell(row, "region")
  {
  }

  lemma {:induction false} OneJoin(db: Database, row: Row, join: Join, region: Value)
    ensures region in RegionsOf(db, row, [join]) <==>
              exists p :: p in Rows(db, join.table) && Refers(row, join.local, p, join.key)
                          && region == Cell(p, "region")
  {
    hide Cell, Rows;
    ParentMembers(db, Rows(db, join.table), Cell(row, join.local), [join], region);
    assert [join][1..] == [];
    if p :| p in Rows(db, join.table) && SqlEq(Cell(p, join.key), Cell(row, join.local))
            && region in RegionsOf(db, p, []) {
      NoJoin(db, p, region);
      assert Refers(row, join.local, p, join.key);
    }
    if p :| p in Rows(db, join.table) && Refers(row, join.local, p, join.key) && region == Cell(p, "region") {
      NoJoin(db, p, region);
      assert SqlEq(Cell(p, join.key), Cell(row, join.local));
    }
  }

  lemma {:induction false} TwoJoins(db: Database, row: Row, first: Join, second: Join, region: Value)
    ensures region in RegionsOf(db, row, [first, second]) <==>
              exists p :: p in Rows(db, first.table) && Refers(row, first.local, p, first.key)
                          && region in RegionsOf(db, p, [second])
  {
    hide Cell, Rows;
    var joins := [first, second];
    ParentMembers(db, Rows(db, first.table), Cell(row, first.local), joins, region);
    assert joins[1..] == [second];
    hide RegionsOf;
    if p :| p in Rows(db, first.table) && SqlEq(Cell(p, first.key), Cell(row, first.local))
            && region in RegionsOf(db, p, [second]) {
      assert Refers(row, first.local, p, first.key);
    }
    if p :| p in Rows(db, first.table) && Refers(row, first.local, p, first.key)
            && region in RegionsOf(db, p, [second]) {
      assert SqlEq(Cell(p, first.key), Cell(row, first.local));
    }
  }

  lemma {:induction false} OwnRegion(db: Database, table: Table, row: Row, region: Value)
    requires table in {Locations, Suppliers, Customers, Employees, TravelPolicies, HrPolicies}
    ensures ScopePath(table).Some?
    ensures region in RegionsOf(db, row, ScopePath(table).value) <==> OwnersRegion(db, table, row, region)
  {
    hide Cell;
    assert Owns(db, table, row, row);
    NoJoin(db, row, region);
  }

  lemma {:induction false} ParentsRegion(db: Database, table: Table, row: Row, region: Value)
    requires table in {Orders, Invoices, SupportCases, StockLevels, WorkOrders, TravelBookings}
    ensures ScopePath(table).Some?
    ensures region in RegionsOf(db, row, ScopePath(table).value) <==> OwnersRegion(db, table, row, region)
  {
    hide RegionsOf, Refers, Rows, Cell;
    OneJoin(db, row, ScopePath(table).value[0], region);
  }

  lemma {:induction false} GrandparentsRegion(db: Database, table: Table, row: Row, region: Value)
    requires table in {OrderLines, SupportCaseNotes}
    ensures ScopePath(table).Some?
    ensures region in RegionsOf(db, row, ScopePath(table).value) <==> OwnersRegion(db, table, row, region)
  {
    hide RegionsOf, Refers, Rows, Cell;
    var first, second := ScopePath(table).value[0], ScopePath(table).value[1];
    TwoJoins(db, row, first, second, region);
    forall p
      ensures region in RegionsOf(db, p, [second]) <==>
                exists owner :: CustomerOf(db, p, owner) && region == Cell(owner, "region")
    {
      OneJoin(db, p, second, region);
    }
    if p :| p in Rows(db, first.table) && Refers(row, first.local, p, first.key)
            && region in RegionsOf(db, p, [second])
    {
      var owner :| CustomerOf(db, p, owner) && region == Cell(owner, "region");
      assert Owns(db, table, owner, row);
    }
    if owner :| Owns(db, table, owner, row) && region == Cell(owner, "region") {
      var p :| p in Rows(db, first.table) && Refers(row, first.local, p, first.key) && CustomerOf(db, p, owner);
      assert region in RegionsOf(db, p, [second]);
    }
  }

  lemma {:induction false} PathFindsOwners(db: Database, table: Table, row: Row, region: Value)
    requires ScopedTable(table)
    ensures ScopePath(table).Some?
    ensures region in RegionsOf(db, row, ScopePath(table).value) <==> OwnersRegion(db, table, row, region)
  {
    hide RegionsOf, Refers, Rows, Cell, OwnersRegion;
    if table.OrderLines? || table.SupportCaseNotes? {
      GrandparentsRegion(db, table, row, region);
    } else if table.Orders? || table.Invoices? || table.SupportCases? || table.StockLevels? || table.WorkOrders?
              || table.TravelBookings? {
      ParentsRegion(db, table, row, region);
    } else {
      OwnRegion(db, table, row, region);
    }
  }

  // --------------------------------------------------------------------- what is served

  /** A tuple of the scoped relation: a stored row and the admitted region of an owner. */
  lemma {:induction false} ViewMembers(db: Database, regions: set<string>, table: Table, t: Attributed)
    requires ScopedTable(table)
    ensures ScopePath(table).Some?
    ensures t in View(db, regions, table) <==>
              t.0 in Rows(db, table) && OwnersRegion(db, table, t.0, t.1) && Admits(table, regions, t.1)
  {
    PathFindsOwners(db, table, t.0, t.1);
    hide RegionsOf, Rows, OwnersRegion, Admits, ScopePath, Joined, Visible;
    var joins := ScopePath(table).value;
    JoinedMembers(db, Rows(db, table), joins, t);
    VisibleMembers(table, regions, Joined(db, Rows(db, table), joins), t);
  }

  lemma {:induction false} ServedRow(view: seq<Attributed>, row: Row)
    ensures row in Served(view) <==> exists region :: (row, region) in view
  {
    ServedMembers(view, row);
    if i :| 0 <= i < |view| && view[i].0 == row {
      assert (row, view[i].1) in view;
    }
    if region :| (row, region) in view {
      var i :| 0 <= i < |view| && view[i] == (row, region);
    }
  }

  lemma {:induction false} AdmitsOwner(table: Table, owner: Row, regions: set<string>)
    ensures Admits(table, regions, Cell(owner, "region")) <==> Reached(table, owner, regions)
  {
    hide Cell;
    var region := Cell(owner, "region");
    if region.Text? {
      assert region == Text(region.s);
    }
  }

  lemma {:induction false} AdmittedOwner(db: Database, regions: set<string>, table: Table, row: Row)
    ensures InScope(db, regions, table, row) <==>
              exists region :: OwnersRegion(db, table, row, region) && Admits(table, regions, region)
  {
    hide Owns, Cell, Admits, Reached;
    if owner :| Owns(db, table, owner, row) && Reached(table, owner, regions) {
      AdmitsOwner(table, owner, regions);
      assert OwnersRegion(db, table, row, Cell(owner, "region"));
    }
    if region :| OwnersRegion(db, table, row, region) && Admits(table, regions, region) {
      var owner :| Owns(db, table, owner, row) && region == Cell(owner, "region");
      AdmitsOwner(table, owner, regions);
    }
  }

  /** The four company-wide tables are served whole, to everyone; identities and undeclared tables
      to no one. */
  lemma {:induction false} OtherTables(db: Database, regions: set<string>, table: Table)
    ensures ScopedFrom(db, regions, table).Ok? <==> ScopedTable(table) || CompanyWide(table)
    ensures CompanyWide(table) ==> ScopedFrom(db, regions, table) == Ok(Rows(db, table))
    ensures ScopedFrom(db, regions, table) == Err(NeverServed(table)) <==> table == Identities
    ensures ScopedFrom(db, regions, table) == Err(NoScopePath(table)) <==> table.Undeclared?
  {
    hide View;
  }

  /** Main result on scope, for every database and every scoped table: the rows served are exactly
      the stored rows whose owner has a region in scope. */
  lemma {:induction false} ServedExactly(db: Database, regions: set<string>, table: Table, row: Row)
    requires ScopedTable(table)
    ensures ScopedFrom(db, regions, table).Ok?
    ensures row in ScopedFrom(db, regions, table).value <==>
              row in Rows(db, table) && InScope(db, regions, table, row)
  {
    PathFindsOwners(db, table, row, Null);
    OtherTables(db, regions, table);
    assert ScopedFrom(db, regions, table) == Ok(Served(View(db, regions, table)));
    hide *;
    ServedRow(View(db, regions, table), row);
    AdmittedOwner(db, regions, table, row);
    forall region
      ensures (row, region) in View(db, regions, table) <==>
                row in Rows(db, table) && OwnersRegion(db, table, row, region) && Admits(table, regions, region)
    {
      ViewMembers(db, regions, table, (row, region));
    }
  }

  // ---------------------------------------------------------- each row once, in its place

  /** The keys other tables refer to, as the schema declares them. */
  ghost predicate KeysDeclared(db: Database) {
    && UniqueKey(Rows(db, Customers), "customer_id") && UniqueKey(Rows(db, Locations), "location_id")
    && UniqueKey(Rows(db, Employees), "employee_id") && UniqueKey(Rows(db, Orders), "order_id")
    && UniqueKey(Rows(db, SupportCases), "case_id")
  }

  ghost predicate Unambiguous(db: Database, joins: seq<Join>) {
    forall j :: j in joins ==> UniqueKey(Rows(db, j.table), j.key)
  }

  lemma {:induction false} PathsAreUnambiguous(db: Database, table: Table)
    requires KeysDeclared(db) && ScopedTable(table)
    ensures ScopePath(table).Some? && Unambiguous(db, ScopePath(table).value)
  {
    hide Rows, UniqueKey;
  }

  lemma {:induction false} NoParents(db: Database, parents: seq<Row>, key: Value, joins: seq<Join>)
    requires joins != [] && forall p | p in parents :: !SqlEq(Cell(p, joins[0].key), key)
    ensures ParentRegions(db, parents, key, joins) == []
  {
    hide RegionsOf, SqlEq, Cell;
    if parents != [] {
      NoParents(db, parents[1..], key, joins);
    }
  }

  lemma {:induction false} OneRegion(db: Database, row: Row, joins: seq<Join>)
    requires Unambiguous(db, joins)
    ensures |RegionsOf(db, row, joins)| <= 1
    decreases |joins|, 1, 0
  {
    if joins != [] {
      assert joins[0] in joins;
      OneParentRegion(db, Rows(db, joins[0].table), Cell(row, joins[0].local), joins);
    }
  }

  lemma {:induction false} OneParentRegion(db: Database, parents: seq<Row>, key: Value, joins: seq<Join>)
    requires joins != [] && Unambiguous(db, joins) && UniqueKey(parents, joins[0].key)
    ensures |ParentRegions(db, parents, key, joins)| <= 1
    decreases |joins|, 0, |parents|
  {
    if parents != [] {
      assert UniqueKey(parents[1..], joins[0].key) && forall j :: j in joins[1..] ==> j in joins;
      if SqlEq(Cell(parents[0], joins[0].key), key) {
        forall p | p in parents[1..]
          ensures !SqlEq(Cell(p, joins[0].key), key)
        {
          var i :| 0 <= i < |parents[1..]| && parents[1..][i] == p;
          assert !SqlEq(Cell(parents[0], joins[0].key), Cell(parents[i + 1], joins[0].key));
        }
        NoParents(db, parents[1..], key, joins);
        OneRegion(db, parents[0], joins[1..]);
      } else {
        OneParentRegion(db, parents[1..], key, joins);
      }
    }
  }

  /** Of one row's tuples, what is visible: the row once if some region of its is admitted. */
  lemma {:induction false} TagVisible(table: Table, regions: set<string>, row: Row, found: seq<Value>,
                                      rest: seq<Attributed>)
    requires |found| <= 1
    ensures Served(Visible(table, regions, Tag(row, found) + rest))
         == (if exists region :: region in found && Admits(table, regions, region) then [row] else [])
            + Served(Visible(table, regions, rest))
  {
    hide Admits;
    if found == [] {
      assert Tag(row, found) + rest == rest;
    } else {
      assert found[1..] == [] && Tag(row, found) == [(row, found[0])];
      assert (Tag(row, found) + rest)[1..] == rest;
      assert found[0] in found;
      var shown := Visible(table, regions, Tag(row, found) + rest);
      if Admits(table, regions, found[0]) {
        assert shown == [(row, found[0])] + Visible(table, regions, rest);
        assert shown[1..] == Visible(table, regions, rest);
      }
    }
  }

  lemma {:induction false} ServedFrom(db: Database, regions: set<string>, table: Table, rows: seq<Row>)
    requires ScopedTable(table) && KeysDeclared(db)
    requires forall r :: r in rows ==> r in Rows(db, table)
    ensures ScopePath(table).Some?
    ensures Served(Visible(table, regions, Joined(db, rows, ScopePath(table).value)))
         == Filter(rows, (r: Row) => InScope(db, regions, table, r))
  {
    PathsAreUnambiguous(db, table);
    var joins := ScopePath(table).value;
    hide ScopePath, Admits, InScope, OwnersRegion, KeysDeclared, Unambiguous, RegionsOf, Rows, Visible, Tag;
    if rows == [] {
      assert Visible(table, regions, []) == [] by { NothingVisible(table, regions); }
    } else {
      var row, found := rows[0], RegionsOf(db, rows[0], joins);
      OneRegion(db, row, joins);
      ServedFrom(db, regions, table, rows[1..]);
      TagVisible(table, regions, row, found, Joined(db, rows[1..], joins));
      AdmittedOwner(db, regions, table, row);
      forall region
        ensures region in found <==> OwnersRegion(db, table, row, region)
      {
        PathFindsOwners(db, table, row, region);
      }
    }
  }

  lemma {:induction false} NothingVisible(table: Table, regions: set<string>)
    ensures Visible(table, regions, []) == []
  {
  }

  /** Main result on content: with the declared keys, what is served is the stored table with the
      rows out of scope struck out, each remaining row once and in its place. */
  lemma {:induction false} ServedIsTheTableInScope(db: Database, regions: set<string>, table: Table)
    requires ScopedTable(table) && KeysDeclared(db)
    ensures ScopedFrom(db, regions, table) == Ok(Filter(Rows(db, table), (r: Row) => InScope(db, regions, table, r)))
  {
    OtherTables(db, regions, table);
    ServedFrom(db, regions, table, Rows(db, table));
    hide Visible, Joined, Served, InScope, Filter;
  }

  // ------------------------------------------------------------- list, count and fetch

  lemma {:induction false} SelectFiltered(rows: seq<Row>, keep: Row -> bool, clauses: seq<Clause>)
    ensures Select(Filter(rows, keep), clauses) == Filter(rows, (r: Row) => keep(r) && Satisfies(r, clauses))
  {
    hide Satisfies;
    if rows != [] {
      SelectFiltered(rows[1..], keep, clauses);
      if keep(rows[0]) {
        assert ([rows[0]] + Filter(rows[1..], keep))[1..] == Filter(rows[1..], keep);
      }
    }
  }

  lemma {:induction false} FilterAlike(rows: seq<Row>, keep: Row -> bool, other: Row -> bool)
    requires forall r :: keep(r) == other(r)
    ensures Filter(rows, keep) == Filter(rows, other)
  {
    if rows != [] {
      FilterAlike(rows[1..], keep, other);
    }
  }

  /** A count is the number of stored rows in scope that meet every filter. */
  lemma {:induction false} CountIsTheRowsInScope(db: Database, regions: set<string>, table: Table,
                                                 filters: Dict<FilterValue>)
    requires ScopedTable(table) && KeysDeclared(db)
    requires forall f | f in filters :: f.0 in Filterable(table)
    ensures CountRows(db, regions, table, filters)
         == Ok(|Filter(Rows(db, table), (r: Row) => InScope(db, regions, table, r) && MeetsAll(r, filters))|)
  {
    hide ScopedFrom, InScope, MeetsAll, Filterable, FilterClause, Filter, Satisfies;
    ServedIsTheTableInScope(db, regions, table);
    FilterMeaning(table, filters, map[]);
    var clauses := FilterClause(table, filters).value;
    var rows, keep := Rows(db, table), (r: Row) => InScope(db, regions, table, r);
    FilterAlike(rows, (r: Row) => InScope(db, regions, table, r), keep);
    SelectFiltered(rows, keep, clauses);
    forall r: Row
      ensures Satisfies(r, clauses) <==> MeetsAll(r, filters)
    {
      FilterMeaning(table, filters, r);
    }
    FilterAlike(rows, (r: Row) => keep(r) && Satisfies(r, clauses),
      (r: Row) => InScope(db, regions, table, r) && MeetsAll(r, filters));
  }

  /** A person's name, mailbox or telephone number. */
  ghost predicate Personal(table: Table, column: string) {
    match table
    case Employees => column == "full_name" || column == "work_email" || column == "work_phone"
    case Suppliers | Customers => column == "contact_email" || column == "contact_phone"
    case _ => false
  }

  /** What is shown of a row: all of it, or all but the personal columns where those were not asked for. */
  ghost predicate Shows(table: Table, personal: bool, row: Row, shown: Row) {
    forall column ::
      && (column in shown <==> column in row && (personal || !Personal(table, column)))
      && (column in shown ==> shown[column] == row[column])
  }

  lemma {:induction false} HiddenShows(table: Table, personal: bool, row: Row)
    ensures Shows(table, personal, row, row - Hidden(table, personal))
  {
  }

  /** Every row a list shows is a stored row in scope that meets every filter. */
  lemma {:induction false} ListedRowsAreInScope(db: Database, regions: set<string>, table: Table,
                                                filters: Dict<FilterValue>, limit: int, personal: bool, k: nat)
    requires ScopedTable(table) && ListRows(db, regions, table, filters, limit, personal).Ok?
    requires k < |ListRows(db, regions, table, filters, limit, personal).value|
    ensures exists row :: row in Rows(db, table) && InScope(db, regions, table, row) && MeetsAll(row, filters)
                          && Shows(table, personal, row,
                                   ListRows(db, regions, table, filters, limit, personal).value[k])
  {
    hide ScopedFrom, InScope, MeetsAll, ListRows, Shows;
    var source := ListedRowsMatch(db, regions, table, filters, limit, personal, k);
    ServedExactly(db, regions, table, source);
    HiddenShows(table, personal, source);
  }

  lemma {:induction false} FirstFound(rows: seq<Row>, column: string, key: string)
    ensures FirstWithKey(rows, column, key).Some? ==>
              var row := FirstWithKey(rows, column, key).value;
              row in rows && Cell(row, column) == Text(key)
    ensures FirstWithKey(rows, column, key).None? ==> forall r :: r in rows ==> Cell(r, column) != Text(key)
  {
    hide Cell;
    if rows != [] {
      FirstFound(rows[1..], column, key);
      assert rows == [rows[0]] + rows[1..];
    }
  }

  /** A fetch finds a stored row in scope with the key, if there is any, and otherwise nothing. */
  lemma {:induction false} FetchIsInScope(db: Database, regions: set<string>, table: Table, key: string, personal: bool)
    requires ScopedTable(table)
    ensures var found := FetchByKey(db, regions, table, key, personal);
            && found.Ok?
            && (found.value.Some? ==>
                  exists row :: row in Rows(db, table) && InScope(db, regions, table, row)
                                && Cell(row, KeyColumn(table)) == Text(key)
                                && Shows(table, personal, row, found.value.value))
            && (found.value.None? ==>
                  forall row :: row in Rows(db, table) && InScope(db, regions, table, row) ==>
                    Cell(row, KeyColumn(table)) != Text(key))
  {
    hide InScope, ScopedFrom, Cell, Hidden, KeyColumn, FirstWithKey, Shows;
    forall row
      ensures ScopedFrom(db, regions, table).Ok?
      ensures row in ScopedFrom(db, regions, table).value <==>
                row in Rows(db, table) && InScope(db, regions, table, row)
    {
      ServedExactly(db, regions, table, row);
    }
    assert ScopedFrom(db, regions, table).Ok? by { ServedExactly(db, regions, table, map[]); }
    FirstFound(ScopedFrom(db, regions, table).value, KeyColumn(table), key);
    var first := FirstWithKey(ScopedFrom(db, regions, table).value, KeyColumn(table), key);
    if first.Some? {
      HiddenShows(table, personal, first.value);
    }
  }
}
