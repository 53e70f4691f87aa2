/** The scoped repository: five read shapes and one write, each built on the same scoped
    FROM clause. The functions give each query its relational meaning; the class has the
    program's own shape and is proved against them. */
module Repository {
  import opened Wrappers
  import opened Sorting
  import opened Relational

  datatype RepoError =
    | NeverServed(table: Table)
    | NoScopePath(table: Table)
    | NotFilterable(column: string, table: Table)
    | NotGroupable(column: string, table: Table)
    | NoVisibleCase(id: string)
    | NotUpdatable(columns: set<string>)
    | NullAssigned
    | DirectoryTooLarge
    | CohortTooSmall(minimum: int)

  /** What one authenticated principal may see, for one request. */
  datatype Scope = Scope(employeeId: string, persona: string, roles: set<string>, regions: set<string>)

  datatype Clause = In(column: string, values: seq<Value>)

  datatype Group = Group(key: Value, count: nat)

  // ------------------------------------------------------------ query construction

  /** FROM clause and scope predicate, as the rows they select. */
  function ScopedFrom(db: Database, regions: set<string>, table: Table): Result<seq<Row>, RepoError> {
    if table in FORBIDDEN_TABLES then Err(NeverServed(table))
    else if table in GLOBAL_TABLES then Ok(Rows(db, table))
    else if ScopePath(table).None? then Err(NoScopePath(table))
    else Ok(Served(View(db, regions, table)))
  }

  function Texts(items: seq<string>): seq<Value> {
    if items == [] then [] else [Text(items[0])] + Texts(items[1..])
  }

  /** A null filter and an empty list are skipped; both still had to name a filterable column. */
  function ClauseFor(column: string, filter: FilterValue): seq<Clause> {
    match filter
    case One(arg) => if arg.ArgNone? then [] else [In(column, [Bind(arg)])]
    case Many(items) => if items == [] then [] else [In(column, Texts(items))]
  }

  function ByName(): ((string, FilterValue), (string, FilterValue)) -> bool {
    (a: (string, FilterValue), b: (string, FilterValue)) => StringLe(a.0, b.0)
  }

  function ClausesOf(table: Table, filters: Dict<FilterValue>): Result<seq<Clause>, RepoError> {
    if filters == [] then Ok([])
    else if filters[0].0 !in Filterable(table) then Err(NotFilterable(filters[0].0, table))
    else
      var rest :- ClausesOf(table, filters[1..]);
      Ok(ClauseFor(filters[0].0, filters[0].1) + rest)
  }

  ghost function Prepend(clauses: seq<Clause>, rest: Result<seq<Clause>, RepoError>): Result<seq<Clause>, RepoError> {
    match rest
    case Ok(more) => Ok(clauses + more)
    case Err(e) => Err(e)
  }

  /** The filter clause, in key order; the first key that is not filterable is refused. */
  function FilterClause(table: Table, filters: Dict<FilterValue>): Result<seq<Clause>, RepoError> {
    ClausesOf(table, Sort(filters, ByName()))
  }

  predicate Holds(row: Row, clause: Clause) {
    exists v :: v in clause.values && SqlEq(Cell(row, clause.column), v)
  }

  predicate Satisfies(row: Row, clauses: seq<Clause>) {
    forall c :: c in clauses ==> Holds(row, c)
  }

  /** `WHERE <scope> AND c1 AND c2 ...` */
  function Select(rows: seq<Row>, clauses: seq<Clause>): seq<Row> {
    if rows == [] then []
    else if Satisfies(rows[0], clauses) then [rows[0]] + Select(rows[1..], clauses)
    else Select(rows[1..], clauses)
  }

  /** The rows every filtered read starts from. */
  function Matching(db: Database, regions: set<string>, table: Table, filters: Dict<FilterValue>)
    : Result<seq<Row>, RepoError>
  {
    var rows :- ScopedFrom(db, regions, table);
    var clauses :- FilterClause(table, filters);
    Ok(Select(rows, clauses))
  }

  // -------------------------------------------------------------------- read paths

  function Clamp(limit: int): nat {
    if limit < 1 then 1 else if limit > 200 then 200 else limit
  }

  function Take<T>(s: seq<T>, n: nat): seq<T> {
    if |s| <= n then s else s[..n]
  }

  function Project(rows: seq<Row>, hidden: set<string>): seq<Row> {
    if rows == [] then [] else [rows[0] - hidden] + Project(rows[1..], hidden)
  }

  function ListRows(db: Database, regions: set<string>, table: Table,
                    filters: Dict<FilterValue>, limit: int, includePersonal: bool)
    : Result<seq<Row>, RepoError>
  {
    var rows :- Matching(db, regions, table, filters);
    Ok(Project(Take(Sort(rows, OrderBy(PrimaryKey(table))), Clamp(limit)), Hidden(table, includePersonal)))
  }

  function CountRows(db: Database, regions: set<string>, table: Table, filters: Dict<FilterValue>)
    : Result<nat, RepoError>
  {
    var rows :- Matching(db, regions, table, filters);
    Ok(|rows|)
  }

  function FirstWithKey(rows: seq<Row>, column: string, key: string): Option<Row> {
    if rows == [] then None
    else if SqlEq(Cell(rows[0], column), Text(key)) then Some(rows[0])
    else FirstWithKey(rows[1..], column, key)
  }

  function FetchByKey(db: Database, regions: set<string>, table: Table, key: string, includePersonal: bool)
    : Result<Option<Row>, RepoError>
  {
    var rows :- ScopedFrom(db, regions, table);
    match FirstWithKey(rows, KeyColumn(table), key)
    case None => Ok(None)
    case Some(row) => Ok(Some(row - Hidden(table, includePersonal)))
  }

  /** `str(record.get("manager_id") or "")` */
  function ManagerOf(record: Row): string {
    var manager := Cell(record, "manager_id");
    if manager.Text? then manager.s else ""
  }

  /** The chain from `current` upward, given what has been visited and what is left of the depth. */
  function ChainFrom(db: Database, regions: set<string>, current: string, seen: set<string>, depth: nat): seq<Row>
    decreases depth
  {
    if current == "" || current in seen || depth == 0 then []
    else
      match FetchByKey(db, regions, Employees, current, true)
      case Err(_) => []
      case Ok(None) => []
      case Ok(Some(record)) => [record] + ChainFrom(db, regions, ManagerOf(record), seen + {current}, depth - 1)
  }

  function Hierarchy(db: Database, regions: set<string>, employeeId: string, maxDepth: nat): seq<Row> {
    ChainFrom(db, regions, employeeId, {}, maxDepth)
  }

  function Keys(rows: seq<Row>, column: string): seq<Value> {
    if rows == [] then []
    else
      var rest := Keys(rows[1..], column);
      var v := Cell(rows[0], column);
      if v in rest then rest else [v] + rest
  }

  function CountOf(rows: seq<Row>, column: string, v: Value): nat {
    if rows == [] then 0
    else (if Cell(rows[0], column) == v then 1 else 0) + CountOf(rows[1..], column, v)
  }

  function ByValue(): (Value, Value) -> bool {
    (a, b) => ValueLe(a, b)
  }

  function Counted(rows: seq<Row>, column: string, keys: seq<Value>): seq<Group> {
    if keys == [] then []
    else [Group(keys[0], CountOf(rows, column, keys[0]))] + Counted(rows, column, keys[1..])
  }

  /** `SELECT c, COUNT(*) ... GROUP BY c ORDER BY c`: NULLs form one group. */
  function GroupBy(rows: seq<Row>, column: string): seq<Group> {
    Counted(rows, column, Sort(Keys(rows, column), ByValue()))
  }

  function AtLeast(groups: seq<Group>, minimum: int): seq<Group> {
    if groups == [] then []
    else if groups[0].count >= minimum then [groups[0]] + AtLeast(groups[1..], minimum)
    else AtLeast(groups[1..], minimum)
  }

  function Aggregate(db: Database, regions: set<string>, minimumCohort: int, table: Table,
                     groupBy: string, filters: Dict<FilterValue>)
    : Result<seq<Group>, RepoError>
  {
    var rows :- ScopedFrom(db, regions, table);
    if groupBy !in Filterable(table) then Err(NotGroupable(groupBy, table))
    else
      var clauses :- FilterClause(table, filters);
      var groups := GroupBy(Select(rows, clauses), groupBy);
      var results := AtLeast(groups, minimumCohort);
      if results == [] && groups != [] then Err(CohortTooSmall(minimumCohort)) else Ok(results)
  }

  const ENDPOINT_COLUMNS: set<string> := {"location_id", "name", "city", "country", "kind"}

  predicate IsEndpoint(routes: seq<Row>, location: Row) {
    exists i | 0 <= i < |routes| ::
      var id := Cell(location, "location_id");
      SqlEq(id, Cell(routes[i], "origin_location_id")) || SqlEq(id, Cell(routes[i], "destination_location_id"))
  }

  /** The route-linked locations, each label once. */
  function EndpointLabels(routes: seq<Row>, locations: seq<Row>): seq<Row> {
    if locations == [] then []
    else
      var rest := EndpointLabels(routes, locations[1..]);
      var shown := map c | c in ENDPOINT_COLUMNS :: Cell(locations[0], c);
      if IsEndpoint(routes, locations[0]) && shown !in rest then [shown] + rest else rest
  }

  function TravelLocations(db: Database): Result<seq<Row>, RepoError> {
    var labels := Sort(EndpointLabels(Rows(db, TravelRoutes), Rows(db, Locations)), OrderBy(["location_id"]));
    var rows := Take(labels, 201);
    if |rows| > 200 then Err(DirectoryTooLarge) else Ok(rows)
  }

  // --------------------------------------------------------------- the write path

  const UPDATABLE: set<string> := {"status", "severity"}

  function Names<V>(d: Dict<V>): set<string> {
    set i | 0 <= i < |d| :: d[i].0
  }

  function Assigned(row: Row, changes: Dict<Arg>): Row
    decreases changes
  {
    if changes == [] then row else Assigned(row[changes[0].0 := Bind(changes[0].1)], changes[1..])
  }

  function UpdateWhere(rows: seq<Row>, caseId: string, changes: Dict<Arg>): seq<Row> {
    if rows == [] then []
    else
      [if SqlEq(Cell(rows[0], "case_id"), Text(caseId)) then Assigned(rows[0], changes) else rows[0]]
      + UpdateWhere(rows[1..], caseId, changes)
  }

  function Updated(db: Database, caseId: string, changes: Dict<Arg>): Database {
    db[SupportCases := UpdateWhere(Rows(db, SupportCases), caseId, changes)]
  }

  function UpdateSupportCase(db: Database, regions: set<string>, caseId: string, changes: Dict<Arg>)
    : (Database, Result<Row, RepoError>)
  {
    match FetchByKey(db, regions, SupportCases, caseId, true)
    case Err(e) => (db, Err(e))
    case Ok(None) => (db, Err(NoVisibleCase(caseId)))
    case Ok(Some(existing)) =>
      if Names(changes) - UPDATABLE != {} then (db, Err(NotUpdatable(Names(changes) - UPDATABLE)))
      else if changes == [] then (db, Ok(existing))
      else if exists i :: 0 <= i < |changes| && Bind(changes[i].1) == Null then (db, Err(NullAssigned))
      else
        var db' := Updated(db, caseId, changes);
        match FetchByKey(db', regions, SupportCases, caseId, true)
        case Ok(Some(updated)) => (db', Ok(updated))
        case _ => (db', Err(NoVisibleCase(caseId)))
  }

  /** A column that is not assigned keeps its value. */
  lemma {:induction false} AssignedColumns(row: Row, changes: Dict<Arg>, column: string)
    requires column !in Names(changes)
    ensures Cell(Assigned(row, changes), column) == Cell(row, column)
    decreases changes
  {
    if changes != [] {
      assert changes[0].0 in Names(changes);
      forall n | n in Names(changes[1..])
        ensures n in Names(changes)
      {
        var i :| 0 <= i < |changes[1..]| && changes[1..][i].0 == n;
        assert changes[i + 1].0 == n;
      }
      AssignedColumns(row[changes[0].0 := Bind(changes[0].1)], changes[1..], column);
    }
  }

  // ------------------------------------------------------------------- the objects

  class Connection {
    var tables: Database

    constructor (tables: Database)
      ensures this.tables == tables
    {
      this.tables := tables;
    }
  }

  class ScopedRepository {
    const connection: Connection
    const scope: Scope
    const minimumCohort: int

    constructor (connection: Connection, scope: Scope, minimumCohort: int)
      ensures this.connection == connection && this.scope == scope && this.minimumCohort == minimumCohort
    {
      this.connection, this.scope, this.minimumCohort := connection, scope, minimumCohort;
    }

    method BuildFilter(table: Table, filters: Dict<FilterValue>) returns (r: Result<seq<Clause>, RepoError>)
      ensures r == FilterClause(table, filters)
    {
      hide Filterable, ClauseFor, Sort, PrimaryKey, ScopePath;
      var sorted := Sort(filters, ByName());
      var clauses: seq<Clause> := [];
      assert sorted[0..] == sorted;
      assert ClausesOf(table, sorted).Ok? ==> [] + ClausesOf(table, sorted).value == ClausesOf(table, sorted).value;
      for i := 0 to |sorted|
        invariant ClausesOf(table, sorted) == Prepend(clauses, ClausesOf(table, sorted[i..]))
      {
        var (key, value) := sorted[i];
        assert sorted[i..][1..] == sorted[i + 1..];
        var rest := ClausesOf(table, sorted[i + 1..]);
        assert rest.Ok? ==>
               clauses + (ClauseFor(key, value) + rest.value) == (clauses + ClauseFor(key, value)) + rest.value;
        if key !in Filterable(table) {
          return Err(NotFilterable(key, table));
        }
        clauses := clauses + ClauseFor(key, value);
      }
      assert clauses + [] == clauses;
      return Ok(clauses);
    }

    /** `seen` and `max_depth` bound the walk even when the manager column is cyclic. */
    method WalkHierarchy(employeeId: string, maxDepth: nat) returns (chain: seq<Row>)
      ensures chain == Hierarchy(connection.tables, scope.regions, employeeId, maxDepth)
    {
      hide FetchByKey;
      chain := [];
      var current := employeeId;
      var seen: set<string> := {};
      while current != "" && current !in seen && |chain| < maxDepth
        invariant |chain| <= maxDepth
        invariant Hierarchy(connection.tables, scope.regions, employeeId, maxDepth) ==
                  chain + ChainFrom(connection.tables, scope.regions, current, seen, maxDepth - |chain|)
        decreases maxDepth - |chain|
      {
        seen := seen + {current};
        var record := FetchByKey(connection.tables, scope.regions, Employees, current, true);
        if record.Err? || record.value.None? {
          break;
        }
        chain := chain + [record.value.value];
        current := ManagerOf(record.value.value);
      }
    }

    method WriteSupportCase(caseId: string, changes: Dict<Arg>) returns (r: Result<Row, RepoError>)
      modifies connection
      ensures (connection.tables, r) == UpdateSupportCase(old(connection.tables), scope.regions, caseId, changes)
    {
      var existing := FetchByKey(connection.tables, scope.regions, SupportCases, caseId, true);
      if existing.Err? {
        return Err(existing.error);
      }
      if existing.value.None? {
        return Err(NoVisibleCase(caseId));
      }
      var unknown := Names(changes) - UPDATABLE;
      if unknown != {} {
        return Err(NotUpdatable(unknown));
      }
      if changes == [] {
        return Ok(existing.value.value);
      }
      if exists i :: 0 <= i < |changes| && Bind(changes[i].1) == Null {
        return Err(NullAssigned);
      }
      connection.tables := Updated(connection.tables, caseId, changes);
      var updated := FetchByKey(connection.tables, scope.regions, SupportCases, caseId, true);
      if updated.Ok? && updated.value.Some? {
        return Ok(updated.value.value);
      }
      return Err(NoVisibleCase(caseId));
    }
  }
}
