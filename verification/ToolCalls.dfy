/** What a tool call must satisfy before it is answered, in the order it is asked, what reaches the
    caller when it is, and what the caller's identity is made of. */
module ToolCalls {
  import opened Wrappers
  import opened Relational
  import opened Repository
  import opened ReadAgreement
  import opened Scoping
  import opened Sorting
  import opened Toolbox
  import opened Handlers
  import opened Simulation
  import Text

  // --------------------------------------------------------------------------- entitlement

  /** Any one of the listed roles will do. */
  predicate HoldsARole(contract: ToolContract, scope: Scope) {
    exists role :: role in contract.requiredRoles && role in scope.roles
  }

  /** A value of the declared type, pattern, choice and range; or null, where none is required. */
  ghost predicate Suits(contract: ToolContract, name: string, v: Arg) {
    if v == ArgNone then name !in contract.required
    else
      name in contract.properties &&
      var spec := contract.properties[name];
      && (spec.kind == "integer" ==> v.ArgInt?) && (spec.kind == "boolean" ==> v.ArgBool?)
      && (spec.kind == "string" ==> v.ArgText? && spec.matches(v.t))
      && (spec.choices.Some? ==> v in spec.choices.value)
      && (v.ArgInt? ==>
            && (spec.minimum.Some? ==> spec.minimum.value <= v.n)
            && (spec.maximum.Some? ==> v.n <= spec.maximum.value))
  }

  /** Nothing undeclared, nothing missing, and every argument suits. */
  ghost predicate WellFormed(contract: ToolContract, args: Dict<Arg>) {
    && Names(args) <= contract.properties.Keys && contract.required <= Names(args)
    && forall i | 0 <= i < |args| :: Suits(contract, args[i].0, args[i].1)
  }

  lemma {:induction false} AcceptableSuits(contract: ToolContract, name: string, v: Arg)
    ensures Acceptable(contract, name, v) <==> Suits(contract, name, v)
  {
    assert "integer"[0] == 'i' && "boolean"[0] == 'b' && "string"[0] == 's';
  }

  lemma {:induction false} ValidMeans(contract: ToolContract, args: Dict<Arg>)
    ensures Validate(contract, args).Ok? <==> WellFormed(contract, args)
  {
    ValidateAcceptsExactly(contract, args);
    hide Validate, Acceptable, Suits, Names;
    forall i | 0 <= i < |args|
      ensures Acceptable(contract, args[i].0, args[i].1) <==> Suits(contract, args[i].0, args[i].1)
    {
      AcceptableSuits(contract, args[i].0, args[i].1);
    }
  }

  /** The refusals made before any handler runs and not about the arguments. */
  predicate AtTheDoor(f: Failure) {
    f.NoSuchTool? || f.NoRole? || f.NoHandler?
  }

  predicate PastTheDoor(r: Result<Answer, Failure>) {
    r.Err? ==> !AtTheDoor(r.error)
  }

  lemma {:induction false} FaultsAreOfArguments(contract: ToolContract, args: Dict<Arg>)
    requires Names(args) <= contract.properties.Keys
    ensures Faults(contract, args).Some? ==> !AtTheDoor(Faults(contract, args).value)
  {
    hide CheckValue;
    if args != [] {
      NamesOfTail(args);
      FaultsAreOfArguments(contract, args[1..]);
      if args[0].0 in contract.properties {
        ValueFault(args[0].0, contract.properties[args[0].0], args[0].1);
      }
    }
  }

  lemma {:induction false} ValueFault(name: string, spec: PropertySpec, value: Arg)
    ensures CheckValue(name, spec, value).Some? ==> !AtTheDoor(CheckValue(name, spec, value).value)
  {
  }

  lemma {:induction false} ValidationIsNotTheDoor(contract: ToolContract, args: Dict<Arg>)
    ensures Validate(contract, args).Err? ==> !AtTheDoor(Validate(contract, args).error)
  {
    hide Faults;
    NothingLeft(Names(args), contract.properties.Keys);
    if Names(args) <= contract.properties.Keys {
      FaultsAreOfArguments(contract, args);
    }
  }

  lemma {:induction false} TableToolsAnswer(db: Database, scope: Scope, table: Table, key: string, args: Dict<Arg>)
    ensures PastTheDoor(Search(db, scope, table, args)) && PastTheDoor(Lookup(db, scope, table, key, args))
  {
    hide ListRows, FetchByKey, AsFilters, Without, LimitOf, Get;
  }

  lemma {:induction false} RecordToolsAnswer(db: Database, scope: Scope, args: Dict<Arg>)
    ensures PastTheDoor(LookupOrder(db, scope, args)) && PastTheDoor(LookupCase(db, scope, args))
    ensures PastTheDoor(ListMyBookings(db, scope, args)) && PastTheDoor(ManagementChain(db, scope, args))
  {
    hide ListRows, FetchByKey, AsFilters, Without, LimitOf, Get, Put, Hierarchy, CustomerFacing, BoolArgument;
  }

  lemma {:induction false} RosterToolsAnswer(cfg: Config, db: Database, scope: Scope, args: Dict<Arg>)
    ensures PastTheDoor(ResolveLocations(cfg, db, args)) && PastTheDoor(CountRoster(db, scope, args))
    ensures PastTheDoor(DescribeRoster(db, scope)) && PastTheDoor(AggregateRoster(cfg, db, scope, args))
  {
    hide TravelLocations, CountRows, AsFilters, Without, Get, ScopedFrom, Aggregate, MatchingLocations, Filterable;
  }

  lemma {:induction false} PolicyAnswers(db: Database, scope: Scope)
    ensures ApplicablePolicy(db, scope).Err? ==> !AtTheDoor(ApplicablePolicy(db, scope).error)
  {
    hide ListRows, FetchByKey, FirstWithSuffix, StrOf;
  }

  lemma {:induction false} SimulationAnswers(cfg: Config, db: Database, scope: Scope, args: Dict<Arg>)
    ensures PastTheDoor(SimulateBooking(cfg, db, scope, args))
  {
    PolicyAnswers(db, scope);
    hide ListRows, FareNamed, ApplicablePolicy, FareRank, ReasonsFor, Decide, Truncated, Get;
  }

  lemma {:induction false} UpdateAnswers(db: Database, scope: Scope, args: Dict<Arg>)
    ensures PastTheDoor(UpdateCase(db, scope, args).1)
  {
    hide UpdateSupportCase, Without, Get;
  }

  lemma {:induction false} HandlersAnswer(cfg: Config, db: Database, scope: Scope, tool: Tool, args: Dict<Arg>)
    requires !tool.Unimplemented?
    ensures PastTheDoor(Handle(cfg, db, scope, tool, args).1)
    ensures tool != SupportUpdateCase ==> Handle(cfg, db, scope, tool, args).0 == db
  {
    hide Search, Lookup, LookupOrder, LookupCase, ListMyBookings, ManagementChain, ResolveLocations, CountRoster,
      DescribeRoster, AggregateRoster, SimulateBooking, UpdateCase, ApplicablePolicy, PastTheDoor;
    if tool == SupportUpdateCase {
      UpdateAnswers(db, scope, args);
    } else if SearchedTable(tool).Some? {
      TableToolsAnswer(db, scope, SearchedTable(tool).value, "", args);
    } else if LookedUp(tool).Some? {
      TableToolsAnswer(db, scope, LookedUp(tool).value.0, LookedUp(tool).value.1, args);
    } else {
      OwnToolsAnswer(cfg, db, scope, tool, args);
    }
  }

  lemma {:induction false} OwnToolsAnswer(cfg: Config, db: Database, scope: Scope, tool: Tool, args: Dict<Arg>)
    requires !tool.Unimplemented? && tool != SupportUpdateCase && SearchedTable(tool).None? && LookedUp(tool).None?
    ensures PastTheDoor(ReadOwn(cfg, db, scope, tool, args))
  {
    RecordToolsAnswer(db, scope, args);
    RosterToolsAnswer(cfg, db, scope, args);
    SimulationAnswers(cfg, db, scope, args);
    PolicyAnswers(db, scope);
    hide LookupOrder, LookupCase, ListMyBookings, ManagementChain, ResolveLocations, CountRoster, DescribeRoster,
      AggregateRoster, SimulateBooking, ApplicablePolicy;
  }

  /** Main result on entitlement: which call is refused, and with what. An unknown tool first, then
      arguments that are not well formed, then a caller who holds none of the tool's roles, then
      a tool nobody wrote; none of these touches the database. A caller with any one of the roles
      is never told otherwise. */
  lemma {:induction false} CallIsRefusedExactly(cfg: Config, db: Database, scope: Scope, tool: Tool, args: Dict<Arg>)
    ensures var (after, r) := Call(cfg, db, scope, tool, args);
            && (r == Err(NoSuchTool) <==> tool !in cfg.contracts)
            && (r == Err(NoRole) <==>
                  tool in cfg.contracts && WellFormed(cfg.contracts[tool], args)
                  && !HoldsARole(cfg.contracts[tool], scope))
            && (r == Err(NoHandler) <==>
                  tool in cfg.contracts && WellFormed(cfg.contracts[tool], args)
                  && HoldsARole(cfg.contracts[tool], scope) && tool.Unimplemented?)
            && (r.Err? && AtTheDoor(r.error) ==> after == db)
            && (tool in cfg.contracts && !WellFormed(cfg.contracts[tool], args) ==> r.Err? && after == db)
  {
    hide Handle, Validate, WellFormed;
    if tool in cfg.contracts {
      var contract := cfg.contracts[tool];
      ValidMeans(contract, args);
      ValidationIsNotTheDoor(contract, args);
      if Validate(contract, args).Ok? && HoldsARole(contract, scope) && !tool.Unimplemented? {
        HandlersAnswer(cfg, db, scope, tool, Validate(contract, args).value);
      }
    }
  }

  /** So an answer means that the caller holds one of the tool's roles and asked with well-formed
      arguments, and that the answer is of the declared shape. Only case updates change anything. */
  lemma {:induction false} AnswerMeans(cfg: Config, db: Database, scope: Scope, tool: Tool, args: Dict<Arg>)
    ensures var (after, r) := Call(cfg, db, scope, tool, args);
            && (r.Ok? ==>
                  && tool in cfg.contracts && HoldsARole(cfg.contracts[tool], scope)
                  && WellFormed(cfg.contracts[tool], args) && cfg.contracts[tool].conforms(r.value))
            && (after != db ==> tool == SupportUpdateCase && HoldsARole(cfg.contracts[tool], scope))
  {
    hide Handle, Validate, WellFormed;
    if tool in cfg.contracts {
      var contract := cfg.contracts[tool];
      ValidMeans(contract, args);
      if Validate(contract, args).Ok? && !tool.Unimplemented? {
        HandlersAnswer(cfg, db, scope, tool, Validate(contract, args).value);
      }
    }
  }

  // --------------------------------------------------------------- what reaches the caller

  /** The arguments a handler sees: those given, less the nulls. */
  function Cleaned(args: Dict<Arg>): Dict<Arg> {
    Filter(args, (e: (string, Arg)) => e.1 != ArgNone)
  }

  lemma {:induction false} NonNullIsCleaned(args: Dict<Arg>)
    ensures NonNull(args) == Cleaned(args)
  {
    if args != [] {
      NonNullIsCleaned(args[1..]);
    }
  }

  /** Past the door the handler decides: its refusal is the answer, and so is its result where that
      is of the declared shape; its write stands either way. */
  lemma {:induction false} HandlerDecides(cfg: Config, db: Database, scope: Scope, tool: Tool, args: Dict<Arg>)
    requires tool in cfg.contracts && WellFormed(cfg.contracts[tool], args)
    requires HoldsARole(cfg.contracts[tool], scope) && !tool.Unimplemented?
    ensures var (after, r) := Call(cfg, db, scope, tool, args);
            var (written, h) := Handle(cfg, db, scope, tool, Cleaned(args));
            && after == written
            && (h.Err? || cfg.contracts[tool].conforms(h.value) ==> r == h)
            && (h.Ok? && !cfg.contracts[tool].conforms(h.value) ==> r == Err(ResultOutsideSchema))
  {
    hide Handle, WellFormed, Cleaned, Faults;
    ValidMeans(cfg.contracts[tool], args);
    NonNullIsCleaned(args);
  }

  /** Main result on the answers of a call: a reading tool's is what its handler is to make of the
      stored rows in scope. */
  lemma {:induction false} CallAnswers(cfg: Config, db: Database, scope: Scope, tool: Tool, args: Dict<Arg>)
    requires Call(cfg, db, scope, tool, args).1.Ok? && tool != SupportUpdateCase
    ensures Answers(cfg, db, scope, tool, Cleaned(args), Call(cfg, db, scope, tool, args).1.value)
  {
    hide Call, Read, WellFormed, HoldsARole, Answers, Cleaned;
    AnswerMeans(cfg, db, scope, tool, args);
    CallIsRefusedExactly(cfg, db, scope, tool, args);
    HandlerDecides(cfg, db, scope, tool, args);
    ReadMeans(cfg, db, scope, tool, Cleaned(args));
  }

  /** The assignments of an update: what was given, less the case. */
  function Assignments(args: Dict<Arg>): Dict<Arg> {
    Filter(args, (e: (string, Arg)) => e.0 != "case_id")
  }

  lemma {:induction false} WithoutIsAssignments(args: Dict<Arg>)
    ensures Without(args, "case_id") == Assignments(args)
  {
    if args != [] {
      WithoutIsAssignments(args[1..]);
    }
  }

  /** The updating tool writes what `UpdateMeans` tells of, to the case given. */
  lemma {:induction false} UpdateCallMeans(db: Database, scope: Scope, args: Dict<Arg>)
    ensures var (after, r) := UpdateCase(db, scope, args);
            && ((forall id :: !Given(args, "case_id", ArgText(id))) ==> r.Err? && after == db)
            && forall id :: Given(args, "case_id", ArgText(id)) ==>
                 var (written, made) := UpdateSupportCase(db, scope.regions, id, Assignments(args));
                 && after == written && (made.Ok? ==> r == Ok(Record(made.value)))
                 && (made.Err? ==> r == Err(Repo(made.error)))
  {
    hide UpdateSupportCase, TextArgument, Given, Assignments, Without;
    WithoutIsAssignments(args);
    TextGiven(args, "case_id", "");
    forall id | Given(args, "case_id", ArgText(id))
      ensures TextArgument(args, "case_id") == Ok(id)
    {
      TextGiven(args, "case_id", id);
    }
    if TextArgument(args, "case_id").Ok? {
      TextGiven(args, "case_id", TextArgument(args, "case_id").value);
    }
  }

  lemma {:induction false} KindTells(f: Failure)
    ensures ErrorKind(f) == "PermissionError" <==> f.NoRole? || f.OwnBookingsOnly?
  {
    assert "PermissionError"[0] == 'P' && "KeyError"[0] == 'K' && "ValueError"[0] == 'V' && "ToolError"[0] == 'T';
    assert "ScopeViolationError"[0] == 'S' && "CohortTooSmallError"[0] == 'C' && "IntegrityError"[0] == 'I';
  }

  /** The trail tells answers from refusals, refusals for want of permission from the others, and how
      many rows an answer held. */
  lemma {:induction false} EntryTells(scope: Scope, tool: Tool, args: Dict<Arg>, r: Result<Answer, Failure>)
    ensures var entry := AuditEntry(scope, tool, args, r);
            && entry.tool == tool && entry.persona == scope.persona && entry.argumentNames == Names(args)
            && (entry.outcome == "success" <==> r.Ok?)
            && (entry.outcome == "error:PermissionError" <==> r.Err? && (r.error.NoRole? || r.error.OwnBookingsOnly?))
            && (r.Err? ==> entry.resultRows == 0)
            && (r.Ok? && r.value.Listing? ==> entry.resultRows == |r.value.rows|)
            && (r.Ok? && r.value.Grouped? ==> entry.resultRows == |r.value.groups|)
            && (r.Ok? && !r.value.Listing? && !r.value.Grouped? ==>
                  entry.resultRows == if r.value.Nothing? then 0 else 1)
  {
    if r.Err? {
      KindTells(r.error);
      hide ErrorKind;
      assert ("error:" + ErrorKind(r.error))[0] == 'e' && "success"[0] == 's';
      assert ("error:" + ErrorKind(r.error))[6..] == ErrorKind(r.error);
      assert "error:PermissionError"[6..] == "PermissionError";
    }
  }

  // ------------------------------------------------------------------------- identity

  ghost predicate Identifies(db: Database, oid: string, tid: string, row: Row) {
    && row in Rows(db, Identities)
    && Cell(row, "principal_oid") == Text(oid) && Cell(row, "tenant_key") == Text(tid)
  }

  lemma {:induction false} IdentityFound(rows: seq<Row>, oid: string, tid: string)
    ensures var found := FindIdentity(rows, oid, tid);
            && (found.Some? ==>
                  && found.value in rows && Cell(found.value, "principal_oid") == Text(oid)
                  && Cell(found.value, "tenant_key") == Text(tid))
            && (found.None? ==>
                  forall r :: r in rows ==>
                    !(Cell(r, "principal_oid") == Text(oid) && Cell(r, "tenant_key") == Text(tid)))
  {
    hide Cell;
    if rows != [] {
      IdentityFound(rows[1..], oid, tid);
      assert rows == [rows[0]] + rows[1..];
    }
  }

  /** A non-empty piece of a text between bars. */
  ghost predicate Piece(part: string, text: string) {
    part != "" && exists parts: seq<string> ::
      && |parts| > 0 && Text.Join(parts, '|') == text && part in parts
      && forall k | 0 <= k < |parts| :: '|' !in parts[k]
  }

  lemma {:induction false} PartsMean(text: string, part: string)
    ensures part in Parts(text) <==> Piece(part, text)
  {
    Text.JoinSplit(text, '|');
    Text.SplitSegments(text, '|');
    if Piece(part, text) {
      var parts: seq<string> :|
        && |parts| > 0 && Text.Join(parts, '|') == text && part in parts
        && forall k | 0 <= k < |parts| :: '|' !in parts[k];
      Text.SplitJoin(parts, '|');
    }
    hide Text.Split, Text.Join;
  }

  /** `str(cell)`. */
  ghost predicate Reads(row: Row, column: string, text: string) {
    if Cell(row, column).Text? then text == Cell(row, column).s else text == "None"
  }

  ghost predicate Spells(pieces: set<string>, row: Row, column: string) {
    exists text :: Reads(row, column, text) && forall part :: part in pieces <==> Piece(part, text)
  }

  ghost predicate ScopeOf(row: Row, scope: Scope) {
    && Reads(row, "employee_id", scope.employeeId) && Reads(row, "persona", scope.persona)
    && Spells(scope.roles, row, "roles") && Spells(scope.regions, row, "scope_regions")
  }

  lemma {:induction false} PartsAreListed(row: Row, column: string)
    ensures Spells(Parts(StrOf(Cell(row, column))), row, column)
  {
    hide Cell, Parts, Piece;
    var text := StrOf(Cell(row, column));
    assert Reads(row, column, text);
    forall part
      ensures part in Parts(text) <==> Piece(part, text)
    {
      PartsMean(text, part);
    }
  }

  /** A scope comes from a stored identity of that object and that tenant, with its employee,
      roles and regions, and is never empty of regions; a principal without one resolves to nothing. */
  lemma {:induction false} ResolvedScopeIsStored(db: Database, oid: string, tid: string)
    ensures var r := Resolve(db, oid, tid);
            && (r.Ok? ==>
                  && oid != "" && tid != "" && r.value.regions != {}
                  && exists row :: Identifies(db, oid, tid, row) && ScopeOf(row, r.value))
            && (r == Err(EmptyPrincipal) <==> oid == "" || tid == "")
            && (r == Err(Unresolved) <==> oid != "" && tid != "" && forall row :: !Identifies(db, oid, tid, row))
            && (r == Err(EmptyScope) ==>
                  exists row :: Identifies(db, oid, tid, row) && Spells({}, row, "scope_regions"))
  {
    hide Cell, Parts, FindIdentity, Spells;
    IdentityFound(Rows(db, Identities), oid, tid);
    if oid != "" && tid != "" {
      var found := FindIdentity(Rows(db, Identities), oid, tid);
      if found.Some? {
        assert Identifies(db, oid, tid, found.value);
        PartsAreListed(found.value, "roles");
        PartsAreListed(found.value, "scope_regions");
      }
    }
  }
}
