/** The tool surface: identity resolution, argument validation, role checks, the handlers
    that compose repository reads, and the audit trail. */
module Toolbox {
  import opened Wrappers
  import opened Sorting
  import opened Relational
  import opened Repository
  import Text

  // ------------------------------------------------------------------- dictionaries

  function Get<V>(d: Dict<V>, key: string): Option<V> {
    if d == [] then None else if d[0].0 == key then Some(d[0].1) else Get(d[1..], key)
  }

  function Without<V>(d: Dict<V>, key: string): Dict<V> {
    if d == [] then []
    else if d[0].0 == key then Without(d[1..], key)
    else [d[0]] + Without(d[1..], key)
  }

  /** `d[key] = v`: an existing key keeps its place. */
  function Put<V>(d: Dict<V>, key: string, v: V): Dict<V> {
    if d == [] then [(key, v)]
    else if d[0].0 == key then [(key, v)] + d[1..]
    else [d[0]] + Put(d[1..], key, v)
  }

  function AsFilters(args: Dict<Arg>): Dict<FilterValue> {
    if args == [] then [] else [(args[0].0, One(args[0].1))] + AsFilters(args[1..])
  }

  // ------------------------------------------------------------------------ failures

  datatype Failure =
    | NoSuchTool
    | UnexpectedArguments(names: set<string>)
    | MissingArguments(names: set<string>)
    | NullArgument(name: string)
    | WrongType(name: string)
    | PatternMismatch(name: string)
    | NotAChoice(name: string)
    | BelowMinimum(name: string)
    | AboveMaximum(name: string)
    | NoRole
    | NoHandler
    | ResultOutsideSchema
    | MissingKey(name: string)
    | BadValue(name: string)
    | QueryLength
    | QueryWithoutWords
    | FareNotPublished
    | BadDate
    | DepartsBeforePlanningDate
    | ReturnsBeforeDeparture
    | TravellerNotVisible
    | NoApplicablePolicy
    | OwnBookingsOnly
    | Repo(error: RepoError)

  /** The exception type the audit trail names. */
  function ErrorKind(f: Failure): string {
    match f
    case NoRole | OwnBookingsOnly => "PermissionError"
    case MissingKey(_) => "KeyError"
    case BadValue(_) => "ValueError"
    case TravellerNotVisible | NoApplicablePolicy => "ScopeViolationError"
    case Repo(CohortTooSmall(_)) => "CohortTooSmallError"
    case Repo(NullAssigned) => "IntegrityError"
    case Repo(_) => "ScopeViolationError"
    case _ => "ToolError"
  }

  function Lift<T>(r: Result<T, RepoError>): Result<T, Failure> {
    match r
    case Ok(v) => Ok(v)
    case Err(e) => Err(Repo(e))
  }

  // ------------------------------------------------------------------------ contracts

  datatype PropertySpec = PropertySpec(
    kind: string, matches: string -> bool, choices: Option<seq<Arg>>, minimum: Option<int>, maximum: Option<int>)

  datatype Answer =
    | Nothing
    | Record(row: Row)
    | Listing(rows: seq<Row>)
    | OrderRecord(order: Row, lines: Option<seq<Row>>)
    | CaseRecord(supportCase: Row, notes: Option<seq<Row>>)
    | Count(n: nat)
    | Grouped(groups: seq<Group>)
    | Schema(table: Table, filterable: set<string>, scoped: bool)
    | Context(persona: string, employeeId: string, roles: set<string>, regions: set<string>)
    | Resolution(status: string, matches: seq<Row>)
    | Simulation(decision: Decision, reasons: set<Reason>, policyId: Value, price: real,
                 departOn: int, returnOn: Option<int>, seatsAfter: int)

  datatype Decision = Allowed | RequiresApproval | Refused
  datatype Reason = ClassTooHigh | OverThreshold | ShortNotice | NoSeats

  /** The tools with a handler, and any other name a contract or a caller may use. */
  datatype Tool =
    | CustomerGetCallerContext | CustomerLookup | CustomerSearch
    | CatalogLookupProduct | CatalogSearchProducts | CatalogCheckStock
    | OrdersLookupOrder | OrdersSearchOrders | OrdersLookupInvoice | OrdersSearchInvoices
    | TravelResolveLocations | TravelSearchRoutes | TravelSearchFares | TravelGetPolicy
    | TravelSimulateBooking | TravelListMyBookings
    | HrGetPolicies | HrSearchRoster | HrCountRoster | HrDescribeRoster | HrGetManagementChain | HrAggregateRoster
    | SupportLookupCase | SupportSearchCases | SupportUpdateCase
    | OperationsLookupWorkOrder | OperationsSearchWorkOrders | OperationsListLocations
    | Unimplemented(name: string)

  datatype ToolContract = ToolContract(
    requiredRoles: seq<string>, properties: map<string, PropertySpec>, required: set<string>,
    conforms: Answer -> bool)

  /** Everything a call depends on besides the database and the scope. The text and date
      functions stand for the library routines the handlers call. */
  datatype Config = Config(
    minimumCohort: int, asOf: int, contracts: map<Tool, ToolContract>,
    strip: string -> string, tokens: string -> set<string>, parseDate: string -> Option<int>)

  function CheckValue(name: string, spec: PropertySpec, value: Arg): Option<Failure> {
    if spec.kind == "integer" && !value.ArgInt? then Some(WrongType(name))
    else if spec.kind == "boolean" && !value.ArgBool? then Some(WrongType(name))
    else if spec.kind == "string" && !value.ArgText? then Some(WrongType(name))
    else if spec.kind == "string" && !spec.matches(value.t) then Some(PatternMismatch(name))
    else if spec.choices.Some? && value !in spec.choices.value then Some(NotAChoice(name))
    else if value.ArgInt? && spec.minimum.Some? && value.n < spec.minimum.value then Some(BelowMinimum(name))
    else if value.ArgInt? && spec.maximum.Some? && value.n > spec.maximum.value then Some(AboveMaximum(name))
    else None
  }

  /** An argument the contract accepts: a null the contract does not require, or a value of its schema. */
  predicate Acceptable(tool: ToolContract, name: string, value: Arg) {
    if value.ArgNone? then name !in tool.required
    else name in tool.properties && CheckValue(name, tool.properties[name], value).None?
  }

  function NonNull(args: Dict<Arg>): Dict<Arg> {
    if args == [] then []
    else if args[0].1.ArgNone? then NonNull(args[1..])
    else [args[0]] + NonNull(args[1..])
  }

  function Faults(tool: ToolContract, args: Dict<Arg>): Option<Failure>
    requires Names(args) <= tool.properties.Keys
  {
    if args == [] then None
    else
      assert args[0].0 in Names(args);
      assert Names(args[1..]) <= Names(args) by { NamesOfTail(args); }
      var (name, value) := args[0];
      if value.ArgNone? then
        if name in tool.required then Some(NullArgument(name)) else Faults(tool, args[1..])
      else
        match CheckValue(name, tool.properties[name], value)
        case Some(f) => Some(f)
        case None => Faults(tool, args[1..])
  }

  lemma {:induction false} NamesOfTail<V>(d: Dict<V>)
    requires d != []
    ensures Names(d) == {d[0].0} + Names(d[1..])
  {
    forall n | n in Names(d)
      ensures n in {d[0].0} + Names(d[1..])
    {
      var i :| 0 <= i < |d| && d[i].0 == n;
      assert i > 0 ==> d[1..][i - 1].0 == n;
    }
    forall n | n in Names(d[1..])
      ensures n in Names(d)
    {
      var i :| 0 <= i < |d[1..]| && d[1..][i].0 == n;
      assert d[i + 1].0 == n;
    }
  }

  /** Undeclared names first, then missing ones, then the first argument at fault. */
  function Validate(tool: ToolContract, args: Dict<Arg>): Result<Dict<Arg>, Failure> {
    if Names(args) - tool.properties.Keys != {} then Err(UnexpectedArguments(Names(args) - tool.properties.Keys))
    else if tool.required - Names(args) != {} then Err(MissingArguments(tool.required - Names(args)))
    else
      match Faults(tool, args)
      case Some(f) => Err(f)
      case None => Ok(NonNull(args))
  }

  /** A call is accepted exactly when every name is declared, nothing required is missing and
      every argument is acceptable; what reaches the handler is the non-null arguments. */
  lemma {:induction false} ValidateAcceptsExactly(tool: ToolContract, args: Dict<Arg>)
    ensures Validate(tool, args).Ok? <==>
            && Names(args) <= tool.properties.Keys
            && tool.required <= Names(args)
            && forall i | 0 <= i < |args| :: Acceptable(tool, args[i].0, args[i].1)
    ensures Validate(tool, args).Ok? ==>
            && Names(Validate(tool, args).value) <= tool.properties.Keys
            && tool.required <= Names(Validate(tool, args).value)
            && forall i | 0 <= i < |Validate(tool, args).value| :: !Validate(tool, args).value[i].1.ArgNone?
  {
    NothingLeft(Names(args), tool.properties.Keys);
    NothingLeft(tool.required, Names(args));
    if Names(args) <= tool.properties.Keys {
      assert Names(args) - tool.properties.Keys == {};
      FaultsNone(tool, args);
      NonNullNames(args);
      if Faults(tool, args).None? && tool.required <= Names(args) {
        assert tool.required - Names(args) == {};
        forall n | n in tool.required
          ensures n in Names(NonNull(args))
        {
          var i :| 0 <= i < |args| && args[i].0 == n;
          assert Acceptable(tool, args[i].0, args[i].1);
        }
      }
    }
  }

  lemma {:induction false} NothingLeft(a: set<string>, b: set<string>)
    ensures a - b == {} <==> a <= b
  {
    forall x | x in a && x !in b
      ensures a - b != {}
    {
      assert x in a - b;
    }
  }

  lemma {:induction false} FaultsNone(tool: ToolContract, args: Dict<Arg>)
    requires Names(args) <= tool.properties.Keys
    ensures Faults(tool, args).None? <==> forall i | 0 <= i < |args| :: Acceptable(tool, args[i].0, args[i].1)
  {
    if args != [] {
      NamesOfTail(args);
      FaultsNone(tool, args[1..]);
      assert args == [args[0]] + args[1..];
      if Acceptable(tool, args[0].0, args[0].1) && forall i | 0 <= i < |args[1..]| ::
        Acceptable(tool, args[1..][i].0, args[1..][i].1) {
        forall i | 0 <= i < |args|
          ensures Acceptable(tool, args[i].0, args[i].1)
        {
          assert i > 0 ==> args[i] == args[1..][i - 1];
        }
      }
    }
  }

  lemma {:induction false} NonNullNames(args: Dict<Arg>)
    ensures Names(NonNull(args)) <= Names(args)
    ensures forall i | 0 <= i < |args| && !args[i].1.ArgNone? :: args[i].0 in Names(NonNull(args))
    ensures forall i | 0 <= i < |NonNull(args)| :: !NonNull(args)[i].1.ArgNone?
  {
    if args != [] {
      NonNullNames(args[1..]);
      NamesOfTail(args);
      if !args[0].1.ArgNone? {
        assert NonNull(args)[1..] == NonNull(args[1..]);
        NamesOfTail(NonNull(args));
      }
      forall i | 0 <= i < |args| && !args[i].1.ArgNone?
        ensures args[i].0 in Names(NonNull(args))
      {
        if i > 0 {
          assert args[i] == args[1..][i - 1];
        }
      }
    }
  }

  // -------------------------------------------------------------------------- identity

  datatype IdentityError = EmptyPrincipal | Unresolved | EmptyScope

  /** `str(cell)`, for columns the schema declares TEXT. */
  function StrOf(v: Value): string {
    if v.Text? then v.s else "None"
  }

  function Parts(s: string): set<string> {
    set part | part in Text.Split(s, '|') && part != []
  }

  function FindIdentity(rows: seq<Row>, oid: string, tid: string): Option<Row> {
    if rows == [] then None
    else if SqlEq(Cell(rows[0], "principal_oid"), Value.Text(oid))
      && SqlEq(Cell(rows[0], "tenant_key"), Value.Text(tid))
    then Some(rows[0])
    else FindIdentity(rows[1..], oid, tid)
  }

  function Resolve(db: Database, oid: string, tid: string): Result<Scope, IdentityError> {
    if oid == "" || tid == "" then Err(EmptyPrincipal)
    else
      match FindIdentity(Rows(db, Identities), oid, tid)
      case None => Err(Unresolved)
      case Some(row) =>
        var regions := Parts(StrOf(Cell(row, "scope_regions")));
        if regions == {} then Err(EmptyScope)
        else Ok(Scope(StrOf(Cell(row, "employee_id")), StrOf(Cell(row, "persona")), Parts(StrOf(Cell(row, "roles"))),
          regions))
  }

  // -------------------------------------------------------------------------- handlers

  /** Tools that list a table: arguments are filters, except `limit`. */
  function SearchedTable(tool: Tool): Option<Table> {
    match tool
    case CustomerSearch => Some(Customers)
    case CatalogSearchProducts => Some(Products)
    case CatalogCheckStock => Some(StockLevels)
    case OrdersSearchOrders => Some(Orders)
    case OrdersSearchInvoices => Some(Invoices)
    case TravelSearchRoutes => Some(TravelRoutes)
    case TravelSearchFares => Some(TravelFares)
    case HrGetPolicies => Some(HrPolicies)
    case HrSearchRoster => Some(Employees)
    case SupportSearchCases => Some(SupportCases)
    case OperationsSearchWorkOrders => Some(WorkOrders)
    case OperationsListLocations => Some(Locations)
    case _ => None
  }

  /** Tools that fetch one row: the table, and the argument that carries the key. */
  function LookedUp(tool: Tool): Option<(Table, string)> {
    match tool
    case CustomerLookup => Some((Customers, "customer_id"))
    case CatalogLookupProduct => Some((Products, "product_id"))
    case OrdersLookupInvoice => Some((Invoices, "invoice_id"))
    case OperationsLookupWorkOrder => Some((WorkOrders, "work_order_id"))
    case _ => None
  }

  function TextArgument(args: Dict<Arg>, name: string): Result<string, Failure> {
    match Get<Arg>(args, name)
    case Some(ArgText(t)) => Ok(t)
    case Some(_) => Err(BadValue(name))
    case None => Err(MissingKey(name))
  }

  function BoolArgument(args: Dict<Arg>, name: string, default: bool): bool {
    match Get<Arg>(args, name)
    case Some(ArgBool(b)) => b
    case _ => default
  }

  function LimitOf(args: Dict<Arg>): int {
    match Get<Arg>(args, "limit")
    case Some(ArgInt(n)) => n
    case _ => 25
  }

  function Search(db: Database, scope: Scope, table: Table, args: Dict<Arg>): Result<Answer, Failure> {
    var rows :- Lift(ListRows(db, scope.regions, table, AsFilters(Without(args, "limit")), LimitOf(args), true));
    Ok(Listing(rows))
  }

  function Lookup(db: Database, scope: Scope, table: Table, keyName: string, args: Dict<Arg>): Result<Answer, Failure> {
    var key :- TextArgument(args, keyName);
    var found :- Lift(FetchByKey(db, scope.regions, table, key, true));
    Ok(if found.Some? then Record(found.value) else Nothing)
  }

  function LookupOrder(db: Database, scope: Scope, args: Dict<Arg>): Result<Answer, Failure> {
    var id :- TextArgument(args, "order_id");
    var order :- Lift(FetchByKey(db, scope.regions, Orders, id, true));
    if order.None? then Ok(Nothing)
    else if !BoolArgument(args, "include_lines", true) then Ok(OrderRecord(order.value, None))
    else
      var lines :- Lift(ListRows(db, scope.regions, OrderLines, [("order_id", One(ArgText(id)))], 200, true));
      Ok(OrderRecord(order.value, Some(lines)))
  }

  function CustomerFacing(notes: seq<Row>): seq<Row> {
    if notes == [] then []
    else if Cell(notes[0], "visibility") == Value.Text("internal") then CustomerFacing(notes[1..])
    else [notes[0]] + CustomerFacing(notes[1..])
  }

  function LookupCase(db: Database, scope: Scope, args: Dict<Arg>): Result<Answer, Failure> {
    var id :- TextArgument(args, "case_id");
    var supportCase :- Lift(FetchByKey(db, scope.regions, SupportCases, id, true));
    if supportCase.None? then Ok(Nothing)
    else if !BoolArgument(args, "include_notes", false) then Ok(CaseRecord(supportCase.value, None))
    else
      var notes :- Lift(ListRows(db, scope.regions, SupportCaseNotes, [("case_id", One(ArgText(id)))], 200, true));
      Ok(CaseRecord(supportCase.value, Some(if "support.write" in scope.roles then notes else CustomerFacing(notes))))
  }

  function ListMyBookings(db: Database, scope: Scope, args: Dict<Arg>): Result<Answer, Failure> {
    var filters := AsFilters(Without(args, "limit"));
    var requested := Get(args, "traveller_employee_id");
    if "travel.coordinate" in scope.roles then
      var rows :- Lift(ListRows(db, scope.regions, TravelBookings, filters, LimitOf(args), true));
      Ok(Listing(rows))
    else if requested.Some? && requested.value != ArgNone && requested.value != ArgText(scope.employeeId) then
      Err(OwnBookingsOnly)
    else
      var own := Put(filters, "traveller_employee_id", One(ArgText(scope.employeeId)));
      var rows :- Lift(ListRows(db, scope.regions, TravelBookings, own, LimitOf(args), true));
      Ok(Listing(rows))
  }

  predicate EndsWith(s: string, suffix: string) {
    |suffix| <= |s| && s[|s| - |suffix|..] == suffix
  }

  function FirstWithSuffix(policies: seq<Row>, suffix: string): Option<Row> {
    if policies == [] then None
    else if EndsWith(StrOf(Cell(policies[0], "policy_id")), suffix) then Some(policies[0])
    else FirstWithSuffix(policies[1..], suffix)
  }

  function ArgOf(v: Value): Arg {
    match v
    case Null => ArgNone
    case Num(r) => ArgFloat(r)
    case Text(s) => ArgText(s)
  }

  function ApplicablePolicy(db: Database, scope: Scope): Result<Row, Failure> {
    var employee :- Lift(FetchByKey(db, scope.regions, Employees, scope.employeeId, true));
    if employee.None? then Err(TravellerNotVisible)
    else
      var region := [("region", One(ArgOf(Cell(employee.value, "region"))))];
      var policies :- Lift(ListRows(db, scope.regions, TravelPolicies, region, 10, true));
      var suffix := if StrOf(Cell(employee.value, "department")) in TRAVEL_EXCEPTION_DEPARTMENTS then "-02" else "-01";
      match FirstWithSuffix(policies, suffix)
      case None => Err(NoApplicablePolicy)
      case Some(policy) => Ok(policy)
  }

  function TravelPolicy(db: Database, scope: Scope): Result<Answer, Failure> {
    var policy :- ApplicablePolicy(db, scope);
    Ok(Listing([policy]))
  }

  function FareNamed(fares: seq<Row>, id: Arg): Option<Row> {
    if fares == [] then None
    else if id.ArgText? && Cell(fares[0], "fare_id") == Value.Text(id.t) then Some(fares[0])
    else FareNamed(fares[1..], id)
  }

  function Lower(s: string): string {
    if s == [] then []
    else [if 'A' <= s[0] <= 'Z' then (s[0] as int + 32) as char else s[0]] + Lower(s[1..])
  }

  function FareRank(fareClass: Value, otherwise: int): int {
    match Lower(StrOf(fareClass))
    case "economy" => 1
    case "economy_plus" => 2
    case "business" => 3
    case "first" => 4
    case _ => otherwise
  }

  function Number(row: Row, column: string): Result<real, Failure> {
    match Cell(row, column)
    case Num(r) => Ok(r)
    case _ => Err(BadValue(column))
  }

  /** `int(x)` truncates toward zero. */
  function Truncated(r: real): int {
    if r >= 0.0 then r.Floor else -(-r).Floor
  }

  function Decide(reasons: set<Reason>): Decision {
    if ClassTooHigh in reasons || NoSeats in reasons then Refused
    else if reasons != {} then RequiresApproval
    else Allowed
  }

  function ReasonsFor(tooHigh: bool, dear: bool, short: bool, full: bool): set<Reason> {
    (if tooHigh then {ClassTooHigh} else {}) + (if dear then {OverThreshold} else {})
    + (if short then {ShortNotice} else {}) + (if full then {NoSeats} else {})
  }

  function ReturnDate(cfg: Config, args: Dict<Arg>): Result<Option<int>, Failure> {
    match Get<Arg>(args, "return_on")
    case Some(ArgText(t)) =>
      if t == "" then Ok(None)
      else (match cfg.parseDate(t) case Some(d) => Ok(Some(d)) case None => Err(BadDate))
    case _ => Ok(None)
  }

  function SimulateBooking(cfg: Config, db: Database, scope: Scope, args: Dict<Arg>): Result<Answer, Failure> {
    var route :- TextArgument(args, "route_id");
    var fares :- Lift(ListRows(db, scope.regions, TravelFares, [("route_id", One(ArgText(route)))], 200, true));
    var fareId :- TextArgument(args, "fare_id");
    match FareNamed(fares, ArgText(fareId))
    case None => Err(FareNotPublished)
    case Some(fare) =>
      var policy :- ApplicablePolicy(db, scope);
      var departText :- TextArgument(args, "depart_on");
      match cfg.parseDate(departText)
      case None => Err(BadDate)
      case Some(departOn) =>
        var returnOn :- ReturnDate(cfg, args);
        if departOn < cfg.asOf then Err(DepartsBeforePlanningDate)
        else if returnOn.Some? && returnOn.value < departOn then Err(ReturnsBeforeDeparture)
        else
          var base :- Number(fare, "base_price");
          var threshold :- Number(policy, "requires_approval_over");
          var notice :- Number(policy, "advance_purchase_days");
          var seats :- Number(fare, "seats_available");
          var price := base * (if returnOn.Some? then 2.0 else 1.0);
          var tooHigh := FareRank(Cell(fare, "fare_class"), 99) > FareRank(Cell(policy, "max_fare_class"), 0);
          var reasons := ReasonsFor(
            tooHigh, price > threshold, departOn - cfg.asOf < Truncated(notice), Truncated(seats) <= 0);
          Ok(Simulation(Decide(reasons), reasons, Cell(policy, "policy_id"), price, departOn, returnOn,
                        if Truncated(seats) > 1 then Truncated(seats) - 1 else 0))
  }

  function Label(location: Row): string {
    var text := Text.Join([StrOf(Cell(location, "location_id")), StrOf(Cell(location, "name")),
      StrOf(Cell(location, "city")),
                           StrOf(Cell(location, "country")), StrOf(Cell(location, "kind"))], ' ');
    if Cell(location, "kind") == Value.Text("distribution") then text + " center" else text
  }

  function MatchingLocations(cfg: Config, locations: seq<Row>, requested: set<string>): seq<Row> {
    if locations == [] then []
    else if requested <= cfg.tokens(Label(locations[0])) then
      [locations[0]] + MatchingLocations(cfg, locations[1..], requested)
    else MatchingLocations(cfg, locations[1..], requested)
  }

  function ResolveLocations(cfg: Config, db: Database, args: Dict<Arg>): Result<Answer, Failure> {
    var raw :- TextArgument(args, "query");
    var query := cfg.strip(raw);
    if query == "" || |query| > 200 then Err(QueryLength)
    else if cfg.tokens(query) == {} then Err(QueryWithoutWords)
    else
      var locations :- Lift(TravelLocations(db));
      var matches := MatchingLocations(cfg, locations, cfg.tokens(query));
      Ok(Resolution(if |matches| == 1 then "unique" else if matches != [] then "ambiguous" else "not_found", matches))
  }

  function CountRoster(db: Database, scope: Scope, args: Dict<Arg>): Result<Answer, Failure> {
    var n :- Lift(CountRows(db, scope.regions, Employees, AsFilters(Without(args, "limit"))));
    Ok(Count(n))
  }

  function DescribeRoster(db: Database, scope: Scope): Result<Answer, Failure> {
    var _ :- Lift(ScopedFrom(db, scope.regions, Employees));
    Ok(Schema(Employees, Filterable(Employees), Employees !in GLOBAL_TABLES))
  }

  function ManagementChain(db: Database, scope: Scope, args: Dict<Arg>): Result<Answer, Failure> {
    var id :- TextArgument(args, "employee_id");
    Ok(Listing(Hierarchy(db, scope.regions, id, 8)))
  }

  function AggregateRoster(cfg: Config, db: Database, scope: Scope, args: Dict<Arg>): Result<Answer, Failure> {
    var column :- TextArgument(args, "group_by");
    var groups :- Lift(Aggregate(db, scope.regions, cfg.minimumCohort, Employees, column,
      AsFilters(Without(args, "group_by"))));
    Ok(Grouped(groups))
  }

  /** Every handler but the one that writes. */
  function Read(cfg: Config, db: Database, scope: Scope, tool: Tool, args: Dict<Arg>): Result<Answer, Failure>
    requires !tool.Unimplemented? && tool != SupportUpdateCase
  {
    if SearchedTable(tool).Some? then Search(db, scope, SearchedTable(tool).value, args)
    else if LookedUp(tool).Some? then Lookup(db, scope, LookedUp(tool).value.0, LookedUp(tool).value.1, args)
    else ReadOwn(cfg, db, scope, tool, args)
  }

  /** The tools with a handler of their own. */
  function ReadOwn(cfg: Config, db: Database, scope: Scope, tool: Tool, args: Dict<Arg>): Result<Answer, Failure>
    requires !tool.Unimplemented? && tool != SupportUpdateCase && SearchedTable(tool).None? && LookedUp(tool).None?
  {
    match tool
    case CustomerGetCallerContext => Ok(Context(scope.persona, scope.employeeId, scope.roles, scope.regions))
    case OrdersLookupOrder => LookupOrder(db, scope, args)
    case TravelResolveLocations => ResolveLocations(cfg, db, args)
    case TravelGetPolicy => TravelPolicy(db, scope)
    case TravelSimulateBooking => SimulateBooking(cfg, db, scope, args)
    case TravelListMyBookings => ListMyBookings(db, scope, args)
    case HrCountRoster => CountRoster(db, scope, args)
    case HrDescribeRoster => DescribeRoster(db, scope)
    case HrGetManagementChain => ManagementChain(db, scope, args)
    case HrAggregateRoster => AggregateRoster(cfg, db, scope, args)
    case SupportLookupCase => LookupCase(db, scope, args)
    case _ => assert false; Err(NoHandler)
  }

  function UpdateCase(db: Database, scope: Scope, args: Dict<Arg>): (Database, Result<Answer, Failure>) {
    match TextArgument(args, "case_id")
    case Err(f) => (db, Err(f))
    case Ok(id) =>
      var (db', r) := UpdateSupportCase(db, scope.regions, id, Without(args, "case_id"));
      match r
      case Ok(row) => (db', Ok(Record(row)))
      case Err(e) => (db', Err(Repo(e)))
  }

  function Handle(cfg: Config, db: Database, scope: Scope, tool: Tool, args: Dict<Arg>)
    : (Database, Result<Answer, Failure>)
    requires !tool.Unimplemented?
  {
    if tool == SupportUpdateCase then UpdateCase(db, scope, args) else (db, Read(cfg, db, scope, tool, args))
  }

  /** Which arguments reach a handler: arguments are checked before roles, roles before the handler. */
  function Admit(cfg: Config, scope: Scope, tool: Tool, args: Dict<Arg>): Result<Dict<Arg>, Failure> {
    if tool !in cfg.contracts then Err(NoSuchTool)
    else
      var contract := cfg.contracts[tool];
      var cleaned :- Validate(contract, args);
      if forall role :: role in contract.requiredRoles ==> role !in scope.roles then Err(NoRole)
      else if tool.Unimplemented? then Err(NoHandler)
      else Ok(cleaned)
  }

  /** The result schema is checked last, after any write has been made. */
  function Conforming(cfg: Config, tool: Tool, r: Result<Answer, Failure>): Result<Answer, Failure>
    requires tool in cfg.contracts
  {
    if r.Ok? && !cfg.contracts[tool].conforms(r.value) then Err(ResultOutsideSchema) else r
  }

  function Call(cfg: Config, db: Database, scope: Scope, tool: Tool, args: Dict<Arg>)
    : (Database, Result<Answer, Failure>)
  {
    match Admit(cfg, scope, tool, args)
    case Err(f) => (db, Err(f))
    case Ok(cleaned) =>
      var (db', r) := Handle(cfg, db, scope, tool, cleaned);
      (db', Conforming(cfg, tool, r))
  }

  // ------------------------------------------------------------------- the audited call

  datatype ToolCall = ToolCall(tool: Tool, persona: string, argumentNames: set<string>, resultRows: nat,
    outcome: string)

  function ResultRows(a: Answer): nat {
    match a
    case Listing(rows) => |rows|
    case Grouped(groups) => |groups|
    case Nothing => 0
    case _ => 1
  }

  function AuditEntry(scope: Scope, tool: Tool, args: Dict<Arg>, r: Result<Answer, Failure>): ToolCall {
    match r
    case Ok(a) => ToolCall(tool, scope.persona, Names(args), ResultRows(a), "success")
    case Err(f) => ToolCall(tool, scope.persona, Names(args), 0, "error:" + ErrorKind(f))
  }

  class BoundToolbox {
    const cfg: Config
    const repository: ScopedRepository
    var audit: seq<ToolCall>

    constructor (cfg: Config, connection: Connection, scope: Scope)
      ensures this.cfg == cfg && audit == [] && repository.scope == scope && repository.connection == connection
      ensures fresh(repository)
    {
      this.cfg, audit := cfg, [];
      repository := new ScopedRepository(connection, scope, cfg.minimumCohort);
    }

    /** The scope is resolved before a single tool exists to be called. */
    static method Open(cfg: Config, connection: Connection, oid: string, tid: string)
      returns (r: Result<BoundToolbox, IdentityError>)
      ensures match Resolve(connection.tables, oid, tid)
              case Err(e) => r == Err(e)
              case Ok(scope) =>
                && r.Ok? && fresh(r.value) && r.value.cfg == cfg && r.value.audit == []
                && r.value.repository.scope == scope && r.value.repository.connection == connection
    {
      var resolved := Resolve(connection.tables, oid, tid);
      if resolved.Err? {
        return Err(resolved.error);
      }
      var toolbox := new BoundToolbox(cfg, connection, resolved.value);
      return Ok(toolbox);
    }

    static method ValidateArguments(tool: ToolContract, args: Dict<Arg>) returns (r: Result<Dict<Arg>, Failure>)
      ensures r == Validate(tool, args)
    {
      var unexpected := Names(args) - tool.properties.Keys;
      if unexpected != {} {
        return Err(UnexpectedArguments(unexpected));
      }
      var missing := tool.required - Names(args);
      if missing != {} {
        return Err(MissingArguments(missing));
      }
      var cleaned: Dict<Arg> := [];
      assert args[0..] == args;
      for i := 0 to |args|
        invariant Names(args[i..]) <= tool.properties.Keys
        invariant Faults(tool, args) == Faults(tool, args[i..])
        invariant NonNull(args) == cleaned + NonNull(args[i..])
      {
        NamesOfTail(args[i..]);
        assert args[i..][1..] == args[i + 1..];
        var (name, value) := args[i];
        if value.ArgNone? {
          if name in tool.required {
            return Err(NullArgument(name));
          }
        } else {
          var fault := CheckValue(name, tool.properties[name], value);
          if fault.Some? {
            return Err(fault.value);
          }
          cleaned := cleaned + [(name, value)];
        }
      }
      assert args[|args|..] == [] && cleaned + [] == cleaned;
      return Ok(cleaned);
    }

    /** Whatever happens, exactly one entry is appended to the trail. */
    method Invoke(tool: Tool, args: Dict<Arg>) returns (r: Result<Answer, Failure>)
      modifies this`audit, repository.connection
      ensures (repository.connection.tables, r)
           == Call(cfg, old(repository.connection.tables), repository.scope, tool, args)
      ensures audit == old(audit) + [AuditEntry(repository.scope, tool, args, r)]
    {
      r := Dispatch(tool, args);
      if r.Ok? {
        audit := audit + [ToolCall(tool, repository.scope.persona, Names(args), ResultRows(r.value), "success")];
      } else {
        audit := audit + [ToolCall(tool, repository.scope.persona, Names(args), 0, "error:" + ErrorKind(r.error))];
      }
    }

    method Dispatch(tool: Tool, args: Dict<Arg>) returns (r: Result<Answer, Failure>)
      modifies repository.connection
      ensures (repository.connection.tables, r)
           == Call(cfg, old(repository.connection.tables), repository.scope, tool, args)
    {
      hide Read, Validate, UpdateSupportCase, TextArgument, Without;
      var scope := repository.scope;
      if tool !in cfg.contracts {
        return Err(NoSuchTool);
      }
      var contract := cfg.contracts[tool];
      var cleaned := ValidateArguments(contract, args);
      if cleaned.Err? {
        return Err(cleaned.error);
      }
      if forall role :: role in contract.requiredRoles ==> role !in scope.roles {
        return Err(NoRole);
      }
      if tool.Unimplemented? {
        return Err(NoHandler);
      }
      if tool == SupportUpdateCase {
        var id := TextArgument(cleaned.value, "case_id");
        if id.Err? {
          return Err(id.error);
        }
        var written := repository.WriteSupportCase(id.value, Without(cleaned.value, "case_id"));
        r := if written.Ok? then Ok(Record(written.value)) else Err(Repo(written.error));
      } else {
        r := Read(cfg, repository.connection.tables, scope, tool, cleaned.value);
      }
      if r.Ok? && !contract.conforms(r.value) {
        r := Err(ResultOutsideSchema);
      }
    }
  }
}
