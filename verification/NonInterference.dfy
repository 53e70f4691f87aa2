/** Row-level isolation. No answer depends on a row outside the caller's scope, and over any
    interleaved run of calls a principal cannot tell whether principals with disjoint
    regions took part at all. */
module NonInterference {
  import opened Wrappers
  import opened Relational
  import opened Repository
  import opened Toolbox

  // ------------------------------------------------------------------ what a scope sees

  /** Two databases look the same to a scope: the visible rows of every scoped table, with the
      region each inherited, the company-wide tables, and the public travel endpoint labels. */
  ghost predicate Agree(db1: Database, db2: Database, regions: set<string>) {
    && (forall t | ScopePath(t).Some? :: View(db1, regions, t) == View(db2, regions, t))
    && (forall t | t in GLOBAL_TABLES :: Rows(db1, t) == Rows(db2, t))
    && TravelLocations(db1) == TravelLocations(db2)
  }

  lemma {:induction false} VisibleNarrows(table: Table, narrow: set<string>, wide: set<string>, joined: seq<Attributed>)
    requires narrow <= wide
    ensures Visible(table, narrow, joined) == Visible(table, narrow, Visible(table, wide, joined))
  {
    if joined != [] {
      VisibleNarrows(table, narrow, wide, joined[1..]);
      if Admits(table, wide, joined[0].1) {
        assert Visible(table, wide, joined)[1..] == Visible(table, wide, joined[1..]);
      }
    }
  }

  lemma {:induction false} FromAgrees(db1: Database, db2: Database, wide: set<string>, regions: set<string>,
                                      table: Table)
    requires Agree(db1, db2, wide) && regions <= wide
    ensures ScopedFrom(db1, regions, table) == ScopedFrom(db2, regions, table)
  {
    hide Admits, Joined, RegionsOf;
    if ScopePath(table).Some? {
      VisibleNarrows(table, regions, wide, Joined(db1, Rows(db1, table), ScopePath(table).value));
      VisibleNarrows(table, regions, wide, Joined(db2, Rows(db2, table), ScopePath(table).value));
    }
  }

  lemma {:induction false} ChainAgrees(db1: Database, db2: Database, wide: set<string>, regions: set<string>,
                                       current: string, seen: set<string>, depth: nat)
    requires Agree(db1, db2, wide) && regions <= wide
    ensures ChainFrom(db1, regions, current, seen, depth) == ChainFrom(db2, regions, current, seen, depth)
    decreases depth
  {
    hide ScopedFrom, FirstWithKey;
    FromAgrees(db1, db2, wide, regions, Employees);
    if !(current == "" || current in seen || depth == 0) {
      match FetchByKey(db1, regions, Employees, current, true)
      case Ok(Some(record)) => ChainAgrees(db1, db2, wide, regions, ManagerOf(record), seen + {current}, depth - 1);
      case _ =>
    }
  }

  /** Every read path of the repository, at every argument. */
  ghost predicate SameAnswers(db1: Database, db2: Database, regions: set<string>) {
    && (forall t :: ScopedFrom(db1, regions, t) == ScopedFrom(db2, regions, t))
    && (forall t, f, l, p :: ListRows(db1, regions, t, f, l, p) == ListRows(db2, regions, t, f, l, p))
    && (forall t, f :: CountRows(db1, regions, t, f) == CountRows(db2, regions, t, f))
    && (forall t, k, p :: FetchByKey(db1, regions, t, k, p) == FetchByKey(db2, regions, t, k, p))
    && (forall id, depth :: Hierarchy(db1, regions, id, depth) == Hierarchy(db2, regions, id, depth))
    && (forall m, t, g, f :: Aggregate(db1, regions, m, t, g, f) == Aggregate(db2, regions, m, t, g, f))
    && TravelLocations(db1) == TravelLocations(db2)
  }

  lemma {:induction false} AgreeingAnswers(db1: Database, db2: Database, wide: set<string>, regions: set<string>)
    requires Agree(db1, db2, wide) && regions <= wide
    ensures SameAnswers(db1, db2, regions)
  {
    forall t
      ensures ScopedFrom(db1, regions, t) == ScopedFrom(db2, regions, t)
    {
      FromAgrees(db1, db2, wide, regions, t);
    }
    forall id, depth
      ensures Hierarchy(db1, regions, id, depth) == Hierarchy(db2, regions, id, depth)
    {
      ChainAgrees(db1, db2, wide, regions, id, {}, depth);
    }
    hide ScopedFrom, ChainFrom, Hierarchy, Agree, FilterClause, Select;
    forall t, f
      ensures Matching(db1, regions, t, f) == Matching(db2, regions, t, f)
    {
    }
  }

  lemma {:induction false} SimulationAgrees(cfg: Config, db1: Database, db2: Database, scope: Scope, args: Dict<Arg>)
    requires SameAnswers(db1, db2, scope.regions)
    ensures ApplicablePolicy(db1, scope) == ApplicablePolicy(db2, scope)
    ensures SimulateBooking(cfg, db1, scope, args) == SimulateBooking(cfg, db2, scope, args)
  {
    hide ListRows, FetchByKey, ScopedFrom, CountRows, Hierarchy, Aggregate, TravelLocations;
    hide FareNamed, FareRank, Number, Truncated, ReasonsFor, Decide, ReturnDate, TextArgument, FirstWithSuffix, StrOf;
    var employee := FetchByKey(db1, scope.regions, Employees, scope.employeeId, true);
    assert employee == FetchByKey(db2, scope.regions, Employees, scope.employeeId, true);
    assert ApplicablePolicy(db1, scope) == ApplicablePolicy(db2, scope);
    hide ApplicablePolicy;
  }

  lemma {:induction false} TableToolsAgree(db1: Database, db2: Database, scope: Scope, table: Table, key: string,
                                           args: Dict<Arg>)
    requires SameAnswers(db1, db2, scope.regions)
    ensures Search(db1, scope, table, args) == Search(db2, scope, table, args)
    ensures Lookup(db1, scope, table, key, args) == Lookup(db2, scope, table, key, args)
  {
    hide ListRows, FetchByKey, ScopedFrom, CountRows, Hierarchy, Aggregate, TravelLocations;
    hide AsFilters, Without, TextArgument, LimitOf;
  }

  lemma {:induction false} RecordToolsAgree(db1: Database, db2: Database, scope: Scope, args: Dict<Arg>)
    requires SameAnswers(db1, db2, scope.regions)
    ensures LookupOrder(db1, scope, args) == LookupOrder(db2, scope, args)
    ensures LookupCase(db1, scope, args) == LookupCase(db2, scope, args)
    ensures ListMyBookings(db1, scope, args) == ListMyBookings(db2, scope, args)
  {
    hide ListRows, FetchByKey, ScopedFrom, CountRows, Hierarchy, Aggregate, TravelLocations;
    hide AsFilters, Without, Put, Get, TextArgument, BoolArgument, LimitOf, CustomerFacing;
  }

  lemma {:induction false} RosterToolsAgree(cfg: Config, db1: Database, db2: Database, scope: Scope, args: Dict<Arg>)
    requires SameAnswers(db1, db2, scope.regions)
    ensures ResolveLocations(cfg, db1, args) == ResolveLocations(cfg, db2, args)
    ensures CountRoster(db1, scope, args) == CountRoster(db2, scope, args)
    ensures DescribeRoster(db1, scope) == DescribeRoster(db2, scope)
    ensures ManagementChain(db1, scope, args) == ManagementChain(db2, scope, args)
    ensures AggregateRoster(cfg, db1, scope, args) == AggregateRoster(cfg, db2, scope, args)
  {
    hide ListRows, FetchByKey, ScopedFrom, CountRows, Hierarchy, Aggregate, TravelLocations;
    hide AsFilters, Without, TextArgument, MatchingLocations;
  }

  lemma {:induction false} OwnToolsAgree(cfg: Config, db1: Database, db2: Database, scope: Scope, tool: Tool,
                                         args: Dict<Arg>)
    requires SameAnswers(db1, db2, scope.regions)
    requires !tool.Unimplemented? && tool != SupportUpdateCase && SearchedTable(tool).None? && LookedUp(tool).None?
    ensures ReadOwn(cfg, db1, scope, tool, args) == ReadOwn(cfg, db2, scope, tool, args)
  {
    hide SameAnswers, LookupOrder, LookupCase, ListMyBookings, ResolveLocations, CountRoster, DescribeRoster,
      ManagementChain, AggregateRoster, SimulateBooking, ApplicablePolicy;
    SimulationAgrees(cfg, db1, db2, scope, args);
    RecordToolsAgree(db1, db2, scope, args);
    RosterToolsAgree(cfg, db1, db2, scope, args);
  }

  /** Every read handler answers alike on databases the scope cannot tell apart. */
  lemma {:induction false} ReadAgrees(cfg: Config, db1: Database, db2: Database, wide: set<string>, scope: Scope,
                                      tool: Tool, args: Dict<Arg>)
    requires Agree(db1, db2, wide) && scope.regions <= wide
    requires !tool.Unimplemented? && tool != SupportUpdateCase
    ensures Read(cfg, db1, scope, tool, args) == Read(cfg, db2, scope, tool, args)
  {
    hide Agree, SameAnswers, SearchedTable, LookedUp, Search, Lookup, ReadOwn;
    AgreeingAnswers(db1, db2, wide, scope.regions);
    if SearchedTable(tool).Some? {
      TableToolsAgree(db1, db2, scope, SearchedTable(tool).value, "", args);
    } else if LookedUp(tool).Some? {
      TableToolsAgree(db1, db2, scope, LookedUp(tool).value.0, LookedUp(tool).value.1, args);
    } else {
      OwnToolsAgree(cfg, db1, db2, scope, tool, args);
    }
  }

  // ------------------------------------------------------------------- shape of a database

  /** Rows that differ at most in the two columns the write path may assign. */
  ghost predicate SameRow(a: Row, b: Row) {
    forall c :: c !in UPDATABLE ==> Cell(a, c) == Cell(b, c)
  }

  ghost predicate SameRows(xs: seq<Row>, ys: seq<Row>) {
    |xs| == |ys| && forall i | 0 <= i < |xs| :: SameRow(xs[i], ys[i])
  }

  /** Databases that differ at most in the status and severity of support cases. */
  ghost predicate SameShape(db1: Database, db2: Database) {
    && SameRows(Rows(db1, SupportCases), Rows(db2, SupportCases))
    && forall t | t != SupportCases :: Rows(db1, t) == Rows(db2, t)
  }

  predicate StableJoins(joins: seq<Join>) {
    forall j :: j in joins ==> j.local !in UPDATABLE && j.key !in UPDATABLE
  }

  lemma {:induction false} RegionsOfSame(db1: Database, db2: Database, a: Row, b: Row, joins: seq<Join>)
    requires SameShape(db1, db2) && SameRow(a, b) && StableJoins(joins)
    ensures RegionsOf(db1, a, joins) == RegionsOf(db2, b, joins)
    decreases |joins|, 1, 0
  {
    if joins == [] {
      assert "region" !in UPDATABLE;
    } else {
      assert joins[0] in joins;
      assert forall j :: j in joins[1..] ==> j in joins;
      var t := joins[0].table;
      assert SameRows(Rows(db1, t), Rows(db2, t)) by {
        if t != SupportCases {
          assert Rows(db1, t) == Rows(db2, t);
        }
      }
      ParentRegionsSame(db1, db2, Rows(db1, t), Rows(db2, t), Cell(a, joins[0].local), joins);
    }
  }

  lemma {:induction false} ParentRegionsSame(db1: Database, db2: Database, ps: seq<Row>, qs: seq<Row>, key: Value,
                                             joins: seq<Join>)
    requires joins != [] && SameShape(db1, db2) && SameRows(ps, qs) && StableJoins(joins)
    ensures ParentRegions(db1, ps, key, joins) == ParentRegions(db2, qs, key, joins)
    decreases |joins|, 0, |ps|
  {
    if ps != [] {
      assert joins[0] in joins;
      assert forall j :: j in joins[1..] ==> j in joins;
      RegionsOfSame(db1, db2, ps[0], qs[0], joins[1..]);
      ParentRegionsSame(db1, db2, ps[1..], qs[1..], key, joins);
    }
  }

  lemma {:induction false} PathsAreStable(table: Table)
    requires ScopePath(table).Some?
    ensures StableJoins(ScopePath(table).value)
  {
  }

  /** Joined tuples that correspond: rows of one shape, attributed to the same region. */
  ghost predicate SameTuples(xs: seq<Attributed>, ys: seq<Attributed>) {
    |xs| == |ys| && forall i | 0 <= i < |xs| :: SameRow(xs[i].0, ys[i].0) && xs[i].1 == ys[i].1
  }

  lemma {:induction false} TagSame(a: Row, b: Row, regions: seq<Value>)
    requires SameRow(a, b)
    ensures SameTuples(Tag(a, regions), Tag(b, regions))
  {
    hide SameRow;
    if regions != [] {
      TagSame(a, b, regions[1..]);
    }
  }

  lemma {:induction false} JoinedSame(db1: Database, db2: Database, xs: seq<Row>, ys: seq<Row>, joins: seq<Join>)
    requires SameShape(db1, db2) && SameRows(xs, ys) && StableJoins(joins)
    ensures SameTuples(Joined(db1, xs, joins), Joined(db2, ys, joins))
    ensures xs == ys ==> Joined(db1, xs, joins) == Joined(db2, ys, joins)
  {
    hide SameRow, Tag, RegionsOf;
    if xs != [] {
      RegionsOfSame(db1, db2, xs[0], ys[0], joins);
      TagSame(xs[0], ys[0], RegionsOf(db1, xs[0], joins));
      JoinedSame(db1, db2, xs[1..], ys[1..], joins);
    }
  }

  lemma {:induction false} VisibleSame(table: Table, regions: set<string>, xs: seq<Attributed>, ys: seq<Attributed>)
    requires SameTuples(xs, ys)
    ensures SameTuples(Visible(table, regions, xs), Visible(table, regions, ys))
  {
    hide SameRow, Admits;
    if xs != [] {
      VisibleSame(table, regions, xs[1..], ys[1..]);
    }
  }

  lemma {:induction false} ViewSame(db1: Database, db2: Database, regions: set<string>, table: Table)
    requires SameShape(db1, db2) && ScopePath(table).Some?
    ensures SameTuples(View(db1, regions, table), View(db2, regions, table))
    ensures table != SupportCases ==> View(db1, regions, table) == View(db2, regions, table)
  {
    PathsAreStable(table);
    var xs, ys := Rows(db1, table), Rows(db2, table);
    assert SameRows(xs, ys);
    JoinedSame(db1, db2, xs, ys, ScopePath(table).value);
    VisibleSame(table, regions, Joined(db1, xs, ScopePath(table).value), Joined(db2, ys, ScopePath(table).value));
  }

  lemma {:induction false} FoundSame(xs: seq<Attributed>, ys: seq<Attributed>, key: string)
    requires SameTuples(xs, ys)
    ensures FirstWithKey(Served(xs), "case_id", key).Some? == FirstWithKey(Served(ys), "case_id", key).Some?
  {
    if xs != [] {
      assert "case_id" !in UPDATABLE;
      assert Served(xs)[1..] == Served(xs[1..]) && Served(ys)[1..] == Served(ys[1..]);
      FoundSame(xs[1..], ys[1..], key);
    }
  }

  // ----------------------------------------------------------------------------- the write

  predicate Assignable(changes: Dict<Arg>) {
    Names(changes) <= UPDATABLE
  }

  lemma {:induction false} AssignedSameRow(row: Row, changes: Dict<Arg>)
    requires Assignable(changes)
    ensures SameRow(Assigned(row, changes), row)
  {
    forall c | c !in UPDATABLE
      ensures Cell(Assigned(row, changes), c) == Cell(row, c)
    {
      AssignedColumns(row, changes, c);
    }
  }

  lemma {:induction false} UpdateWhereSame(rows: seq<Row>, id: string, changes: Dict<Arg>)
    requires Assignable(changes)
    ensures SameRows(UpdateWhere(rows, id, changes), rows)
  {
    if rows != [] {
      AssignedSameRow(rows[0], changes);
      UpdateWhereSame(rows[1..], id, changes);
    }
  }

  lemma {:induction false} UpdatedShape(db: Database, id: string, changes: Dict<Arg>)
    requires Assignable(changes)
    ensures SameShape(Updated(db, id, changes), db)
  {
    UpdateWhereSame(Rows(db, SupportCases), id, changes);
  }

  /** The write, applied to a view instead of to the table. */
  function UpdateTuples(view: seq<Attributed>, id: string, changes: Dict<Arg>): seq<Attributed> {
    if view == [] then []
    else
      [(if SqlEq(Cell(view[0].0, "case_id"), Text(id)) then Assigned(view[0].0, changes) else view[0].0, view[0].1)]
      + UpdateTuples(view[1..], id, changes)
  }

  lemma {:induction false} UpdateTuplesConcat(a: seq<Attributed>, b: seq<Attributed>, id: string, changes: Dict<Arg>)
    ensures UpdateTuples(a + b, id, changes) == UpdateTuples(a, id, changes) + UpdateTuples(b, id, changes)
  {
    if a == [] {
      assert a + b == b;
    } else {
      assert (a + b)[1..] == a[1..] + b;
      UpdateTuplesConcat(a[1..], b, id, changes);
    }
  }

  lemma {:induction false} UpdateTag(row: Row, regions: seq<Value>, id: string, changes: Dict<Arg>)
    ensures UpdateTuples(Tag(row, regions), id, changes)
         == Tag(if SqlEq(Cell(row, "case_id"), Text(id)) then Assigned(row, changes) else row, regions)
  {
    if regions != [] {
      UpdateTag(row, regions[1..], id, changes);
    }
  }

  lemma {:induction false} JoinedAfterUpdate(db: Database, rows: seq<Row>, joins: seq<Join>, id: string,
                                             changes: Dict<Arg>)
    requires Assignable(changes) && StableJoins(joins)
    ensures Joined(Updated(db, id, changes), UpdateWhere(rows, id, changes), joins)
         == UpdateTuples(Joined(db, rows, joins), id, changes)
  {
    if rows != [] {
      var db' := Updated(db, id, changes);
      var row := UpdateWhere(rows, id, changes)[0];
      UpdatedShape(db, id, changes);
      AssignedSameRow(rows[0], changes);
      RegionsOfSame(db', db, row, rows[0], joins);
      UpdateTag(rows[0], RegionsOf(db, rows[0], joins), id, changes);
      UpdateTuplesConcat(Tag(rows[0], RegionsOf(db, rows[0], joins)), Joined(db, rows[1..], joins), id, changes);
      JoinedAfterUpdate(db, rows[1..], joins, id, changes);
    }
  }

  lemma {:induction false} VisibleUpdate(table: Table, regions: set<string>, joined: seq<Attributed>, id: string,
                                         changes: Dict<Arg>)
    ensures Visible(table, regions, UpdateTuples(joined, id, changes))
         == UpdateTuples(Visible(table, regions, joined), id, changes)
  {
    if joined != [] {
      VisibleUpdate(table, regions, joined[1..], id, changes);
    }
  }

  /** What any scope sees of the cases after a write is the write applied to what it saw before. */
  lemma {:induction false} ViewAfterUpdate(db: Database, regions: set<string>, id: string, changes: Dict<Arg>)
    requires Assignable(changes)
    ensures View(Updated(db, id, changes), regions, SupportCases)
         == UpdateTuples(View(db, regions, SupportCases), id, changes)
  {
    PathsAreStable(SupportCases);
    var rows, joins := Rows(db, SupportCases), ScopePath(SupportCases).value;
    JoinedAfterUpdate(db, rows, joins, id, changes);
    VisibleUpdate(SupportCases, regions, Joined(db, rows, joins), id, changes);
  }

  lemma {:induction false} FoundAfterUpdate(view: seq<Attributed>, id: string, changes: Dict<Arg>)
    requires Assignable(changes)
    ensures FirstWithKey(Served(UpdateTuples(view, id, changes)), "case_id", id)
         == match FirstWithKey(Served(view), "case_id", id)
            case Some(row) => Some(Assigned(row, changes))
            case None => None
  {
    if view != [] {
      AssignedSameRow(view[0].0, changes);
      assert "case_id" !in UPDATABLE;
      assert Served(view)[1..] == Served(view[1..]);
      var after := UpdateTuples(view, id, changes);
      assert Served(after)[1..] == Served(after[1..]) && after[1..] == UpdateTuples(view[1..], id, changes);
      FoundAfterUpdate(view[1..], id, changes);
    }
  }

  /** When the write goes through. */
  ghost predicate Writes(db: Database, regions: set<string>, id: string, changes: Dict<Arg>) {
    && FetchByKey(db, regions, SupportCases, id, true).value.Some?
    && Assignable(changes) && changes != []
    && forall i | 0 <= i < |changes| :: Bind(changes[i].1) != Null
  }

  /** The re-read after a write never fails: a visible case stays visible, and the caller gets
      the row it saw with exactly its own assignments made. Otherwise nothing is written. */
  lemma {:induction false} UpdateSupportCaseEffect(db: Database, regions: set<string>, id: string, changes: Dict<Arg>)
    ensures var (db', r) := UpdateSupportCase(db, regions, id, changes);
            if Writes(db, regions, id, changes) then
              && db' == Updated(db, id, changes)
              && r == Ok(Assigned(FetchByKey(db, regions, SupportCases, id, true).value.value, changes))
            else db' == db
  {
    NothingLeft(Names(changes), UPDATABLE);
    var found := FetchByKey(db, regions, SupportCases, id, true);
    assert forall row: Row :: row - {} == row;
    if Writes(db, regions, id, changes) {
      ViewAfterUpdate(db, regions, id, changes);
      FoundAfterUpdate(View(db, regions, SupportCases), id, changes);
    }
  }

  /** A failed write is refused for the same reason wherever the case is equally visible. */
  lemma {:induction false} RefusalAgrees(db1: Database, db2: Database, regions: set<string>, id: string,
                                         changes: Dict<Arg>)
    requires FetchByKey(db1, regions, SupportCases, id, true) == FetchByKey(db2, regions, SupportCases, id, true)
    requires !Writes(db1, regions, id, changes)
    ensures UpdateSupportCase(db1, regions, id, changes).1 == UpdateSupportCase(db2, regions, id, changes).1
  {
    NothingLeft(Names(changes), UPDATABLE);
  }

  lemma {:induction false} UpdateKeepsAgreement(db1: Database, db2: Database, regions: set<string>, id: string,
                                                changes: Dict<Arg>)
    requires Agree(db1, db2, regions) && Assignable(changes)
    ensures Agree(Updated(db1, id, changes), Updated(db2, id, changes), regions)
  {
    hide EndpointLabels, Updated, View;
    var d1, d2 := Updated(db1, id, changes), Updated(db2, id, changes);
    UpdatedShape(db1, id, changes);
    UpdatedShape(db2, id, changes);
    assert TravelLocations(d1) == TravelLocations(db1) && TravelLocations(d2) == TravelLocations(db2);
    forall t | ScopePath(t).Some?
      ensures View(d1, regions, t) == View(d2, regions, t)
    {
      ViewSame(d1, db1, regions, t);
      ViewSame(d2, db2, regions, t);
      ViewAfterUpdate(db1, regions, id, changes);
      ViewAfterUpdate(db2, regions, id, changes);
    }
  }

  lemma {:induction false} UpdateCaseAgrees(db1: Database, db2: Database, wide: set<string>, scope: Scope,
                                            args: Dict<Arg>)
    requires Agree(db1, db2, wide) && scope.regions <= wide
    ensures UpdateCase(db1, scope, args).1 == UpdateCase(db2, scope, args).1
    ensures Agree(UpdateCase(db1, scope, args).0, UpdateCase(db2, scope, args).0, wide)
  {
    match TextArgument(args, "case_id")
    case Err(_) =>
    case Ok(id) =>
      var changes := Without(args, "case_id");
      FromAgrees(db1, db2, wide, scope.regions, SupportCases);
      UpdateSupportCaseEffect(db1, scope.regions, id, changes);
      UpdateSupportCaseEffect(db2, scope.regions, id, changes);
      if Writes(db1, scope.regions, id, changes) {
        UpdateKeepsAgreement(db1, db2, wide, id, changes);
      } else {
        RefusalAgrees(db1, db2, scope.regions, id, changes);
      }
  }

  /** Main result for one call: on any two databases the scope cannot tell apart, every tool
      returns the same answer or the same failure, and leaves them indistinguishable. */
  lemma {:induction false} CallAgrees(cfg: Config, db1: Database, db2: Database, wide: set<string>, scope: Scope,
                   tool: Tool, args: Dict<Arg>)
    requires Agree(db1, db2, wide) && scope.regions <= wide
    ensures Call(cfg, db1, scope, tool, args).1 == Call(cfg, db2, scope, tool, args).1
    ensures Agree(Call(cfg, db1, scope, tool, args).0, Call(cfg, db2, scope, tool, args).0, wide)
  {
    hide Agree, Read, UpdateCase, Validate;
    match Admit(cfg, scope, tool, args)
    case Err(_) =>
    case Ok(cleaned) =>
      if tool == SupportUpdateCase {
        UpdateCaseAgrees(db1, db2, wide, scope, cleaned);
      } else {
        ReadAgrees(cfg, db1, db2, wide, scope, tool, cleaned);
      }
  }

  // ------------------------------------------------------------------------ runs of calls

  /** One authenticated request: the principal's directory keys and the call it makes. */
  datatype Step = Step(oid: string, tid: string, tool: Tool, args: Dict<Arg>)

  datatype Outcome = Denied(error: IdentityError) | Answered(result: Result<Answer, Failure>, audit: ToolCall)

  function Exec(cfg: Config, db: Database, step: Step): (Database, Outcome) {
    match Resolve(db, step.oid, step.tid)
    case Err(e) => (db, Denied(e))
    case Ok(scope) =>
      var (db', r) := Call(cfg, db, scope, step.tool, step.args);
      (db', Answered(r, AuditEntry(scope, step.tool, step.args, r)))
  }

  /** A principal whose regions all lie in `regions`, or one the directory does not know. */
  predicate Watched(db: Database, step: Step, regions: set<string>) {
    match Resolve(db, step.oid, step.tid)
    case Err(_) => true
    case Ok(scope) => scope.regions <= regions
  }

  predicate Outside(db: Database, step: Step, regions: set<string>) {
    match Resolve(db, step.oid, step.tid)
    case Err(_) => false
    case Ok(scope) => scope.regions !! regions
  }

  /** Everything the watched principals see over a run. */
  function Observed(cfg: Config, db: Database, run: seq<Step>, regions: set<string>): seq<Outcome>
    decreases |run|
  {
    if run == [] then []
    else
      var (db', outcome) := Exec(cfg, db, run[0]);
      (if Watched(db, run[0], regions) then [outcome] else []) + Observed(cfg, db', run[1..], regions)
  }

  /** The run with every call by a principal outside `regions` deleted. */
  function Purged(db: Database, run: seq<Step>, regions: set<string>): seq<Step> {
    if run == [] then []
    else if Outside(db, run[0], regions) then Purged(db, run[1..], regions)
    else [run[0]] + Purged(db, run[1..], regions)
  }

  /** What the declared primary keys guarantee, for the two tables a write is attributed through. */
  ghost predicate WellKeyed(db: Database) {
    UniqueKey(Rows(db, SupportCases), "case_id") && UniqueKey(Rows(db, Customers), "customer_id")
  }

  lemma {:induction false} WellKeyedSame(db1: Database, db2: Database)
    requires SameShape(db1, db2) && WellKeyed(db1)
    ensures WellKeyed(db2)
  {
    assert "case_id" !in UPDATABLE;
    var xs, ys := Rows(db1, SupportCases), Rows(db2, SupportCases);
    forall i, j | 0 <= i < j < |ys|
      ensures !SqlEq(Cell(ys[i], "case_id"), Cell(ys[j], "case_id"))
    {
      assert SameRow(xs[i], ys[i]) && SameRow(xs[j], ys[j]);
    }
  }

  /** The relation two runs keep: one shape, and the same cases in the eyes of `regions`. */
  ghost predicate Related(db1: Database, db2: Database, regions: set<string>) {
    && SameShape(db1, db2)
    && View(db1, regions, SupportCases) == View(db2, regions, SupportCases)
    && WellKeyed(db1) && WellKeyed(db2)
  }

  lemma {:induction false} RelatedAgree(db1: Database, db2: Database, regions: set<string>)
    requires Related(db1, db2, regions)
    ensures Agree(db1, db2, regions)
  {
    forall t | ScopePath(t).Some?
      ensures View(db1, regions, t) == View(db2, regions, t)
    {
      ViewSame(db1, db2, regions, t);
    }
    assert Rows(db1, TravelRoutes) == Rows(db2, TravelRoutes);
    assert Rows(db1, Locations) == Rows(db2, Locations);
  }

  // A case belongs to one region: its customer's.

  lemma {:induction false} NoParent(db: Database, parents: seq<Row>, key: Value, joins: seq<Join>)
    requires joins != [] && forall p | p in parents :: !SqlEq(Cell(p, joins[0].key), key)
    ensures ParentRegions(db, parents, key, joins) == []
  {
    if parents != [] {
      NoParent(db, parents[1..], key, joins);
    }
  }

  lemma {:induction false} OneParent(db: Database, parents: seq<Row>, key: Value)
    requires UniqueKey(parents, "customer_id")
    ensures |ParentRegions(db, parents, key, [CUSTOMER])| <= 1
  {
    if parents != [] {
      assert UniqueKey(parents[1..], "customer_id");
      if SqlEq(Cell(parents[0], "customer_id"), key) {
        forall p | p in parents[1..]
          ensures !SqlEq(Cell(p, "customer_id"), key)
        {
          var i :| 0 <= i < |parents[1..]| && parents[1..][i] == p;
          assert !SqlEq(Cell(parents[0], "customer_id"), Cell(parents[i + 1], "customer_id"));
        }
        NoParent(db, parents[1..], key, [CUSTOMER]);
        assert [CUSTOMER][1..] == [];
      } else {
        OneParent(db, parents[1..], key);
      }
    }
  }

  /** A case appears at most once in the joined case table, so it is attributed to one region. */
  lemma {:induction false} OneRegionPerCase(db: Database, rows: seq<Row>, id: string, i: nat, j: nat)
    requires UniqueKey(rows, "case_id") && UniqueKey(Rows(db, Customers), "customer_id")
    requires i < j < |Joined(db, rows, [CUSTOMER])|
    ensures !(SqlEq(Cell(Joined(db, rows, [CUSTOMER])[i].0, "case_id"), Text(id))
              && SqlEq(Cell(Joined(db, rows, [CUSTOMER])[j].0, "case_id"), Text(id)))
  {
    if rows != [] {
      var head := Tag(rows[0], RegionsOf(db, rows[0], [CUSTOMER]));
      OneParent(db, Rows(db, Customers), Cell(rows[0], "customer_id"));
      TagLength(rows[0], RegionsOf(db, rows[0], [CUSTOMER]));
      assert UniqueKey(rows[1..], "case_id");
      if i < |head| {
        JoinedFrom(db, rows[1..], [CUSTOMER], j - |head|);
      } else {
        OneRegionPerCase(db, rows[1..], id, i - |head|, j - |head|);
      }
    }
  }

  lemma {:induction false} TagLength(row: Row, regions: seq<Value>)
    ensures |Tag(row, regions)| == |regions|
    ensures forall i | 0 <= i < |regions| :: Tag(row, regions)[i] == (row, regions[i])
  {
    if regions != [] {
      TagLength(row, regions[1..]);
    }
  }

  lemma {:induction false} JoinedFrom(db: Database, rows: seq<Row>, joins: seq<Join>, i: nat)
    requires i < |Joined(db, rows, joins)|
    ensures Joined(db, rows, joins)[i].0 in rows
  {
    if rows != [] {
      var head := Tag(rows[0], RegionsOf(db, rows[0], joins));
      TagLength(rows[0], RegionsOf(db, rows[0], joins));
      if i >= |head| {
        JoinedFrom(db, rows[1..], joins, i - |head|);
      }
    }
  }

  lemma {:induction false} VisibleFrom(table: Table, regions: set<string>, joined: seq<Attributed>, t: Attributed)
    ensures t in Visible(table, regions, joined) <==> t in joined && Admits(table, regions, t.1)
  {
    if joined != [] {
      VisibleFrom(table, regions, joined[1..], t);
    }
  }

  lemma {:induction false} FoundIn(view: seq<Attributed>, id: string) returns (t: Attributed)
    requires FirstWithKey(Served(view), "case_id", id).Some?
    ensures t in view && SqlEq(Cell(t.0, "case_id"), Text(id))
  {
    if SqlEq(Cell(view[0].0, "case_id"), Text(id)) {
      t := view[0];
    } else {
      assert Served(view)[1..] == Served(view[1..]);
      t := FoundIn(view[1..], id);
    }
  }

  lemma {:induction false} UpdateMisses(view: seq<Attributed>, id: string, changes: Dict<Arg>)
    requires forall t | t in view :: !SqlEq(Cell(t.0, "case_id"), Text(id))
    ensures UpdateTuples(view, id, changes) == view
  {
    if view != [] {
      UpdateMisses(view[1..], id, changes);
    }
  }

  /** A write by a principal outside `regions` changes nothing `regions` can see. */
  lemma {:induction false} OutsideWriteUnseen(db: Database, regions: set<string>, writer: set<string>, id: string,
                                              changes: Dict<Arg>)
    requires WellKeyed(db) && writer !! regions && Writes(db, writer, id, changes)
    ensures View(Updated(db, id, changes), regions, SupportCases) == View(db, regions, SupportCases)
  {
    var joined := Joined(db, Rows(db, SupportCases), [CUSTOMER]);
    var mine := FoundIn(View(db, writer, SupportCases), id);
    VisibleFrom(SupportCases, writer, joined, mine);
    forall t | t in View(db, regions, SupportCases)
      ensures !SqlEq(Cell(t.0, "case_id"), Text(id))
    {
      VisibleFrom(SupportCases, regions, joined, t);
      if SqlEq(Cell(t.0, "case_id"), Text(id)) {
        var i :| 0 <= i < |joined| && joined[i] == mine;
        var j :| 0 <= j < |joined| && joined[j] == t;
        assert mine.1.s in writer && t.1.s in regions;
        OneRegionPerCase(db, Rows(db, SupportCases), id, if i < j then i else j, if i < j then j else i);
      }
    }
    UpdateMisses(View(db, regions, SupportCases), id, changes);
    ViewAfterUpdate(db, regions, id, changes);
  }

  lemma {:induction false} ResolveSame(db1: Database, db2: Database, oid: string, tid: string)
    requires SameShape(db1, db2)
    ensures Resolve(db1, oid, tid) == Resolve(db2, oid, tid)
  {
    assert Rows(db1, Identities) == Rows(db2, Identities);
  }

  /** Every call leaves the database as it was or performs one assignable write it could see. */
  lemma {:induction false} CallEffect(cfg: Config, db: Database, scope: Scope, tool: Tool, args: Dict<Arg>)
    returns (wrote: bool, id: string, changes: Dict<Arg>)
    ensures wrote ==> Writes(db, scope.regions, id, changes)
    ensures Call(cfg, db, scope, tool, args).0 == if wrote then Updated(db, id, changes) else db
    ensures forall other | SameShape(db, other) ::
              Call(cfg, other, scope, tool, args).0 == if wrote then Updated(other, id, changes) else other
  {
    hide TextArgument, Without, Read, Writes, Updated, SameShape, UpdateSupportCase, Validate;
    wrote, id, changes := false, "", [];
    var cleaned := Admit(cfg, scope, tool, args);
    if tool == SupportUpdateCase && cleaned.Ok? {
      var key := TextArgument(cleaned.value, "case_id");
      if key.Ok? {
        id, changes := key.value, Without(cleaned.value, "case_id");
        wrote := Writes(db, scope.regions, id, changes);
        UpdateSupportCaseEffect(db, scope.regions, id, changes);
        forall other | SameShape(db, other)
          ensures Call(cfg, other, scope, tool, args).0 == if wrote then Updated(other, id, changes) else other
        {
          WritesSame(db, other, scope.regions, id, changes);
          UpdateSupportCaseEffect(other, scope.regions, id, changes);
        }
      }
    }
  }

  lemma {:induction false} WritesSame(db1: Database, db2: Database, regions: set<string>, id: string,
                                      changes: Dict<Arg>)
    requires SameShape(db1, db2)
    ensures Writes(db1, regions, id, changes) == Writes(db2, regions, id, changes)
  {
    hide View, SameShape, SameTuples, Served, FirstWithKey, Bind, Names;
    ViewSame(db1, db2, regions, SupportCases);
    FoundSame(View(db1, regions, SupportCases), View(db2, regions, SupportCases), id);
  }

  lemma {:induction false} UpdateWhereAt(rows: seq<Row>, id: string, changes: Dict<Arg>, i: nat)
    requires i < |rows|
    ensures |UpdateWhere(rows, id, changes)| == |rows|
    ensures UpdateWhere(rows, id, changes)[i]
         == if SqlEq(Cell(rows[i], "case_id"), Text(id)) then Assigned(rows[i], changes) else rows[i]
  {
    if i > 0 {
      UpdateWhereAt(rows[1..], id, changes, i - 1);
    } else if |rows| > 1 {
      UpdateWhereAt(rows[1..], id, changes, 0);
    }
  }

  /** No call adds, removes or moves a row, touches another table, or changes a case in
      anything but status and severity; and a case that changed was visible to the caller. */
  lemma {:induction false} CallChangesOnlyVisibleCases(cfg: Config, db: Database, scope: Scope, tool: Tool,
                                                       args: Dict<Arg>, i: nat)
    requires WellKeyed(db) && i < |Rows(db, SupportCases)|
    ensures SameShape(Call(cfg, db, scope, tool, args).0, db)
    ensures Rows(Call(cfg, db, scope, tool, args).0, SupportCases)[i] != Rows(db, SupportCases)[i] ==>
              exists t | t in View(db, scope.regions, SupportCases) :: t.0 == Rows(db, SupportCases)[i]
  {
    hide Call, View, SameRow;
    SameShapeRefl(db);
    var wrote, id, changes := CallEffect(cfg, db, scope, tool, args);
    if wrote {
      var cases := Rows(db, SupportCases);
      UpdatedShape(db, id, changes);
      UpdateWhereAt(cases, id, changes, i);
      var mine := FoundIn(View(db, scope.regions, SupportCases), id);
      ViewedRowIsStored(db, scope.regions, mine);
      var j :| 0 <= j < |cases| && cases[j] == mine.0;
      if SqlEq(Cell(cases[i], "case_id"), Text(id)) {
        assert i == j;
      }
    }
  }

  lemma {:induction false} ViewedRowIsStored(db: Database, regions: set<string>, t: Attributed)
    requires t in View(db, regions, SupportCases)
    ensures t.0 in Rows(db, SupportCases)
  {
    var joined := Joined(db, Rows(db, SupportCases), [CUSTOMER]);
    VisibleFrom(SupportCases, regions, joined, t);
    var i :| 0 <= i < |joined| && joined[i] == t;
    JoinedFrom(db, Rows(db, SupportCases), [CUSTOMER], i);
  }

  lemma {:induction false} SameShapeJoin(db1: Database, db2: Database, d1: Database, d2: Database)
    requires SameShape(db1, db2) && SameShape(d1, db1) && SameShape(d2, db2)
    ensures SameShape(d1, d2)
  {
    var n := |Rows(db1, SupportCases)|;
    forall i | 0 <= i < n
      ensures SameRow(Rows(d1, SupportCases)[i], Rows(d2, SupportCases)[i])
    {
      assert SameRow(Rows(d1, SupportCases)[i], Rows(db1, SupportCases)[i]);
      assert SameRow(Rows(db1, SupportCases)[i], Rows(db2, SupportCases)[i]);
      assert SameRow(Rows(d2, SupportCases)[i], Rows(db2, SupportCases)[i]);
    }
  }

  lemma {:induction false} SameShapeRefl(db: Database)
    ensures SameShape(db, db)
  {
  }

  /** The same call on both sides keeps the relation, whoever makes it. */
  lemma {:induction false} BothStep(cfg: Config, db1: Database, db2: Database, regions: set<string>, step: Step)
    requires Related(db1, db2, regions)
    ensures Related(Exec(cfg, db1, step).0, Exec(cfg, db2, step).0, regions)
    ensures SameShape(Exec(cfg, db1, step).0, db1)
  {
    hide View, SameShape, Updated, Call, WellKeyed;
    ResolveSame(db1, db2, step.oid, step.tid);
    SameShapeRefl(db1);
    match Resolve(db1, step.oid, step.tid)
    case Err(_) =>
    case Ok(scope) =>
      var wrote, id, changes := CallEffect(cfg, db1, scope, step.tool, step.args);
      if wrote {
        var d1, d2 := Updated(db1, id, changes), Updated(db2, id, changes);
        UpdatedShape(db1, id, changes);
        UpdatedShape(db2, id, changes);
        SameShapeJoin(db1, db2, d1, d2);
        ViewAfterUpdate(db1, regions, id, changes);
        ViewAfterUpdate(db2, regions, id, changes);
        SameShapeRefl(db2);
        SameShapeJoin(db1, db1, db1, d1);
        SameShapeJoin(db2, db2, db2, d2);
        WellKeyedSame(db1, d1);
        WellKeyedSame(db2, d2);
      }
  }

  /** A call from outside on one side only keeps the relation too. */
  lemma {:induction false} OutsideStep(cfg: Config, db1: Database, db2: Database, regions: set<string>, step: Step)
    requires Related(db1, db2, regions) && Outside(db1, step, regions)
    ensures Related(Exec(cfg, db1, step).0, db2, regions)
    ensures SameShape(Exec(cfg, db1, step).0, db1)
  {
    hide View, SameShape, Updated, Call, WellKeyed;
    SameShapeRefl(db1);
    SameShapeRefl(db2);
    var scope := Resolve(db1, step.oid, step.tid).value;
    var wrote, id, changes := CallEffect(cfg, db1, scope, step.tool, step.args);
    if wrote {
      var d1 := Updated(db1, id, changes);
      UpdatedShape(db1, id, changes);
      SameShapeJoin(db1, db2, d1, db2);
      SameShapeJoin(db1, db1, db1, d1);
      WellKeyedSame(db1, d1);
      OutsideWriteUnseen(db1, regions, scope.regions, id, changes);
    }
  }

  lemma {:induction false} PurgedSame(db1: Database, db2: Database, run: seq<Step>, regions: set<string>)
    requires SameShape(db1, db2)
    ensures Purged(db1, run, regions) == Purged(db2, run, regions)
  {
    if run != [] {
      ResolveSame(db1, db2, run[0].oid, run[0].tid);
      PurgedSame(db1, db2, run[1..], regions);
    }
  }

  /** One call seen from both sides of the relation. */
  lemma {:induction false} WatchedStep(cfg: Config, db1: Database, db2: Database, regions: set<string>, step: Step)
    requires Related(db1, db2, regions)
    ensures Watched(db1, step, regions) == Watched(db2, step, regions)
    ensures Watched(db1, step, regions) ==> Exec(cfg, db1, step).1 == Exec(cfg, db2, step).1
  {
    ResolveSame(db1, db2, step.oid, step.tid);
    match Resolve(db1, step.oid, step.tid)
    case Err(_) =>
    case Ok(scope) =>
      if scope.regions <= regions {
        RelatedAgree(db1, db2, regions);
        CallAgrees(cfg, db1, db2, regions, scope, step.tool, step.args);
      }
  }

  lemma {:induction false} RunsObservedAlike(cfg: Config, db1: Database, db2: Database, run: seq<Step>,
                                             regions: set<string>)
    requires Related(db1, db2, regions)
    ensures Observed(cfg, db1, run, regions) == Observed(cfg, db2, Purged(db1, run, regions), regions)
    decreases |run|
  {
    hide Call, AuditEntry;
    if run != [] {
      var step, rest := run[0], run[1..];
      var d1 := Exec(cfg, db1, step).0;
      if Outside(db1, step, regions) {
        OutsideStep(cfg, db1, db2, regions, step);
        PurgedSame(d1, db1, rest, regions);
        RunsObservedAlike(cfg, d1, db2, rest, regions);
        var scope := Resolve(db1, step.oid, step.tid).value;
        ResolvedRegions(db1, step.oid, step.tid);
        var region :| region in scope.regions;
        assert !(scope.regions <= regions);
      } else {
        var d2 := Exec(cfg, db2, step).0;
        BothStep(cfg, db1, db2, regions, step);
        WatchedStep(cfg, db1, db2, regions, step);
        PurgedSame(d1, db1, rest, regions);
        RunsObservedAlike(cfg, d1, d2, rest, regions);
        var purged := Purged(db1, run, regions);
        assert purged[0] == step && purged[1..] == Purged(db1, rest, regions);
      }
    }
  }

  lemma {:induction false} ResolvedRegions(db: Database, oid: string, tid: string)
    requires Resolve(db, oid, tid).Ok?
    ensures Resolve(db, oid, tid).value.regions != {}
  {
  }

  /** Main result for runs: in every interleaving of calls by any principals, everything the
      principals confined to `regions` see, failures and audit entries included, is what they
      would have seen had the principals with disjoint regions never called. */
  lemma {:induction false} NonInterferenceOverRuns(cfg: Config, db: Database, run: seq<Step>, regions: set<string>)
    requires WellKeyed(db)
    ensures Observed(cfg, db, run, regions) == Observed(cfg, db, Purged(db, run, regions), regions)
  {
    SameShapeRefl(db);
    RunsObservedAlike(cfg, db, db, run, regions);
  }
}
