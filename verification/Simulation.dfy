/** The caller's travel policy and the booking simulation, told from the stored rows in scope. */
module Simulation {
  import opened Wrappers
  import opened Relational
  import opened Repository
  import opened ReadAgreement
  import opened Scoping
  import opened Toolbox
  import opened Handlers

  // ------------------------------------------------------------------ the travel policy

  ghost predicate Traveller(db: Database, scope: Scope, employee: Row) {
    FoundReadable(db, scope, Employees, "employee_id", scope.employeeId, employee)
  }

  /** Field and customer support staff travel under the second policy of their region. */
  function SuffixFor(employee: Row): string {
    if || Cell(employee, "department") == Text("Field Operations")
       || Cell(employee, "department") == Text("Customer Support")
    then "-02" else "-01"
  }

  ghost predicate EndsIn(policy: Row, suffix: string) {
    exists front :: Cell(policy, "policy_id") == Text(front + suffix)
  }

  /** A policy of the employee's own region, of the kind their department travels under. */
  ghost predicate PolicyFor(db: Database, scope: Scope, employee: Row, policy: Row) {
    && Readable(db, scope.regions, TravelPolicies, policy) && Cell(policy, "region") == Cell(employee, "region")
    && EndsIn(policy, SuffixFor(employee))
  }

  function RegionOf(employee: Row): Dict<Arg> {
    [("region", ArgOf(Cell(employee, "region")))]
  }

  lemma {:induction false} EndsMeans(policy: Row, suffix: string)
    requires suffix == "-01" || suffix == "-02"
    ensures EndsWith(StrOf(Cell(policy, "policy_id")), suffix) <==> EndsIn(policy, suffix)
  {
    hide Cell;
    var id := Cell(policy, "policy_id");
    var text := StrOf(id);
    if EndsWith(text, suffix) {
      var front := text[..|text| - |suffix|];
      assert text == front + suffix;
      if id.Text? {
        assert id == Text(front + suffix);
      }
    }
    if front :| id == Text(front + suffix) {
      assert text[|text| - |suffix|..] == suffix;
    }
  }

  lemma {:induction false} SuffixFound(policies: seq<Row>, suffix: string)
    requires suffix == "-01" || suffix == "-02"
    ensures var found := FirstWithSuffix(policies, suffix);
            && (found.Some? ==> found.value in policies && EndsIn(found.value, suffix))
            && (found.None? ==> forall policy :: policy in policies ==> !EndsIn(policy, suffix))
  {
    hide EndsWith, StrOf, Cell, EndsIn;
    if policies != [] {
      SuffixFound(policies[1..], suffix);
      EndsMeans(policies[0], suffix);
      assert policies == [policies[0]] + policies[1..];
    }
  }

  lemma {:induction false} DepartmentSuffix(employee: Row)
    ensures SuffixFor(employee)
         == if StrOf(Cell(employee, "department")) in TRAVEL_EXCEPTION_DEPARTMENTS then "-02" else "-01"
  {
    hide Cell;
  }

  lemma {:induction false} RegionFits(employee: Row, policy: Row)
    requires Cell(employee, "region").Text?
    ensures Fits(policy, RegionOf(employee), {}) <==> Cell(policy, "region") == Cell(employee, "region")
    ensures AsFilters(RegionOf(employee)) == [("region", One(ArgOf(Cell(employee, "region"))))]
    ensures NamesFilters(TravelPolicies, RegionOf(employee), {})
  {
    hide Cell;
    var args := RegionOf(employee);
    assert args[1..] == [];
    assert Bind(args[0].1) == Cell(employee, "region");
  }

  lemma {:induction false} TravellerHasRegion(db: Database, scope: Scope, employee: Row)
    requires Traveller(db, scope, employee)
    ensures Cell(employee, "region").Text?
  {
  }

  /** The policies of an employee's region, as listed. */
  ghost predicate RegionsPolicies(db: Database, scope: Scope, employee: Row, policies: seq<Row>) {
    Lists(db, scope.regions, TravelPolicies, RegionOf(employee), {}, 10, policies)
  }

  lemma {:induction false} PoliciesListed(db: Database, scope: Scope, employee: Row)
    requires Traveller(db, scope, employee)
    ensures var listed := ListRows(
              db, scope.regions, TravelPolicies, [("region", One(ArgOf(Cell(employee, "region"))))], 10, true);
            && listed.Ok? && RegionsPolicies(db, scope, employee, listed.value)
            && forall policy :: policy in listed.value ==>
                 Readable(db, scope.regions, TravelPolicies, policy)
                 && Cell(policy, "region") == Cell(employee, "region")
  {
    TravellerHasRegion(db, scope, employee);
    hide ListRows, Cell, Readable, Fits, NamesFilters, AsFilters, RegionOf, Ascends, KeyColumn, Traveller;
    RegionFits(employee, map[]);
    ListMeans(db, scope.regions, TravelPolicies, RegionOf(employee), 10);
    var policies := ListRows(
      db, scope.regions, TravelPolicies, [("region", One(ArgOf(Cell(employee, "region"))))], 10, true).value;
    forall policy | policy in policies
      ensures Cell(policy, "region") == Cell(employee, "region")
    {
      RegionFits(employee, policy);
    }
  }

  /** Main result on the policy: it is one for the caller's own record. There is none exactly when
      that record is not in scope, or none of the policies listed for its region is. */
  lemma {:induction false} PolicyMeans(db: Database, scope: Scope)
    ensures var r := ApplicablePolicy(db, scope);
            && (r.Ok? ==> exists employee ::
                  Traveller(db, scope, employee) && PolicyFor(db, scope, employee, r.value))
            && (r == Err(TravellerNotVisible) <==> forall employee :: !Traveller(db, scope, employee))
            && (r.Err? && r != Err(TravellerNotVisible) ==>
                  && r == Err(NoApplicablePolicy)
                  && exists employee, policies ::
                       && Traveller(db, scope, employee) && RegionsPolicies(db, scope, employee, policies)
                       && forall policy :: policy in policies ==> !PolicyFor(db, scope, employee, policy))
  {
    RowFetched(db, scope, Employees, "employee_id", scope.employeeId);
    hide FetchByKey, ListRows, FirstWithSuffix, StrOf, Cell, Readable, RegionsPolicies, EndsIn, SuffixFor, ArgOf;
    var found := FetchByKey(db, scope.regions, Employees, scope.employeeId, true).value;
    if found.Some? {
      var employee := found.value;
      assert Traveller(db, scope, employee);
      hide FoundReadable, NoneReadable;
      PoliciesListed(db, scope, employee);
      DepartmentSuffix(employee);
      var policies := ListRows(
        db, scope.regions, TravelPolicies, [("region", One(ArgOf(Cell(employee, "region"))))], 10, true).value;
      SuffixKinds(employee);
      SuffixFound(policies, SuffixFor(employee));
    }
  }

  lemma {:induction false} SuffixKinds(employee: Row)
    ensures SuffixFor(employee) == "-01" || SuffixFor(employee) == "-02"
  {
  }

  // ------------------------------------------------------------- the booking simulation

  const FARE_CLASSES := ["economy", "economy_plus", "business", "first"]

  /** Both classes are known and the fare's comes no later. */
  ghost predicate WithinClass(fareClass: string, permitted: string) {
    exists i, j | 0 <= i <= j < |FARE_CLASSES| :: FARE_CLASSES[i] == fareClass && FARE_CLASSES[j] == permitted
  }

  /** Letter for letter, and everything but the capitals as it was. */
  lemma {:induction false} LowerMeans(s: string, i: nat)
    requires i < |s|
    ensures |Lower(s)| == |s|
    ensures 'A' <= s[i] <= 'Z' ==> Lower(s)[i] as int - 'a' as int == s[i] as int - 'A' as int
    ensures s[i] < 'A' || 'Z' < s[i] ==> Lower(s)[i] == s[i]
  {
    if i > 0 {
      LowerMeans(s[1..], i - 1);
    } else if |s| > 1 {
      LowerMeans(s[1..], 0);
    }
  }

  lemma {:induction false} RankPlaces(fareClass: Value, otherwise: int)
    requires otherwise !in {1, 2, 3, 4}
    ensures var rank := FareRank(fareClass, otherwise);
            && (1 <= rank <= 4 ==> FARE_CLASSES[rank - 1] == Lower(StrOf(fareClass)))
            && (rank == otherwise || 1 <= rank <= 4)
            && (rank == otherwise ==> Lower(StrOf(fareClass)) !in FARE_CLASSES)
  {
    hide Lower, StrOf;
  }

  lemma {:induction false} ClassesAreDistinct(i: int, j: int)
    requires 0 <= i < |FARE_CLASSES| && 0 <= j < |FARE_CLASSES| && FARE_CLASSES[i] == FARE_CLASSES[j]
    ensures i == j
  {
    assert |FARE_CLASSES[0]| == 7 && |FARE_CLASSES[1]| == 12 && |FARE_CLASSES[2]| == 8 && |FARE_CLASSES[3]| == 5;
  }

  lemma {:induction false} RankIsOrder(fareClass: Value, permitted: Value)
    ensures FareRank(fareClass, 99) > FareRank(permitted, 0)
            <==> !WithinClass(Lower(StrOf(fareClass)), Lower(StrOf(permitted)))
  {
    RankPlaces(fareClass, 99);
    RankPlaces(permitted, 0);
    hide FareRank, Lower, StrOf;
    var a, b := FareRank(fareClass, 99), FareRank(permitted, 0);
    var f, p := Lower(StrOf(fareClass)), Lower(StrOf(permitted));
    if a <= b {
      assert FARE_CLASSES[a - 1] == f && FARE_CLASSES[b - 1] == p;
    } else if i, j :| 0 <= i <= j < |FARE_CLASSES| && FARE_CLASSES[i] == f && FARE_CLASSES[j] == p {
      assert f in FARE_CLASSES && p in FARE_CLASSES;
      ClassesAreDistinct(i, a - 1);
      ClassesAreDistinct(j, b - 1);
    }
  }

  lemma {:induction false} TruncatedBounds(x: real, n: nat)
    ensures n < Truncated(x) <==> (n + 1) as real <= x
  {
  }

  /** What is simulated of a fare under a policy, from the stored figures. */
  ghost predicate Decided(asOf: int, fare: Row, policy: Row, a: Answer) {
    && a.Simulation? && a.policyId == Cell(policy, "policy_id")
    && asOf <= a.departOn && (a.returnOn.Some? ==> a.departOn <= a.returnOn.value)
    && Cell(fare, "base_price").Num? && Cell(fare, "seats_available").Num?
    && Cell(policy, "requires_approval_over").Num? && Cell(policy, "advance_purchase_days").Num?
    && var seats, notice := Cell(fare, "seats_available").r, Cell(policy, "advance_purchase_days").r;
       var sold, highest := Lower(StrOf(Cell(fare, "fare_class"))), Lower(StrOf(Cell(policy, "max_fare_class")));
       var tooHigh := !WithinClass(sold, highest);
       var dear := a.price > Cell(policy, "requires_approval_over").r;
       var short := notice >= (a.departOn - asOf + 1) as real;
       && a.price == (if a.returnOn.Some? then 2.0 else 1.0) * Cell(fare, "base_price").r
       && (a.decision == Refused <==> tooHigh || seats < 1.0)
       && (a.decision == RequiresApproval <==> !tooHigh && seats >= 1.0 && (dear || short))
       && (ClassTooHigh in a.reasons <==> tooHigh) && (NoSeats in a.reasons <==> seats < 1.0)
       && (OverThreshold in a.reasons <==> dear) && (ShortNotice in a.reasons <==> short)
       && (if seats < 2.0 then a.seatsAfter == 0
           else a.seatsAfter as real + 1.0 <= seats < a.seatsAfter as real + 2.0)
  }

  lemma {:induction false} ReasonsMean(tooHigh: bool, dear: bool, short: bool, full: bool)
    ensures var reasons := ReasonsFor(tooHigh, dear, short, full);
            && (ClassTooHigh in reasons <==> tooHigh) && (OverThreshold in reasons <==> dear)
            && (ShortNotice in reasons <==> short) && (NoSeats in reasons <==> full)
            && (Decide(reasons) == Refused <==> tooHigh || full)
            && (Decide(reasons) == RequiresApproval <==> !tooHigh && !full && (dear || short))
  {
    var reasons := ReasonsFor(tooHigh, dear, short, full);
    assert reasons == {} <==> !tooHigh && !dear && !short && !full;
  }

  /** The seats left after one is taken, of a figure that may not be whole. */
  lemma {:induction false} SeatsAfter(seats: real)
    ensures Truncated(seats) <= 0 <==> seats < 1.0
    ensures var after := if Truncated(seats) > 1 then Truncated(seats) - 1 else 0;
            if seats < 2.0 then after == 0 else after as real + 1.0 <= seats < after as real + 2.0
  {
    TruncatedBounds(seats, 0);
    TruncatedBounds(seats, 1);
    if Truncated(seats) > 1 {
      TruncatedBounds(seats, Truncated(seats) - 1);
      TruncatedBounds(seats, Truncated(seats));
    }
  }

  lemma {:induction false} DecidedBy(asOf: int, fare: Row, policy: Row, departOn: int, returnOn: Option<int>)
    requires asOf <= departOn && (returnOn.Some? ==> departOn <= returnOn.value)
    requires Number(fare, "base_price").Ok? && Number(policy, "requires_approval_over").Ok?
    requires Number(policy, "advance_purchase_days").Ok? && Number(fare, "seats_available").Ok?
    ensures var threshold := Number(policy, "requires_approval_over").value;
            var notice, seats := Number(policy, "advance_purchase_days").value, Number(fare, "seats_available").value;
            var price := Number(fare, "base_price").value * (if returnOn.Some? then 2.0 else 1.0);
            var tooHigh := FareRank(Cell(fare, "fare_class"), 99) > FareRank(Cell(policy, "max_fare_class"), 0);
            var reasons := ReasonsFor(
              tooHigh, price > threshold, departOn - asOf < Truncated(notice), Truncated(seats) <= 0);
            Decided(asOf, fare, policy,
              Simulation(Decide(reasons), reasons, Cell(policy, "policy_id"), price, departOn, returnOn,
                         if Truncated(seats) > 1 then Truncated(seats) - 1 else 0))
  {
    var threshold := Number(policy, "requires_approval_over").value;
    var notice, seats := Number(policy, "advance_purchase_days").value, Number(fare, "seats_available").value;
    var price := Number(fare, "base_price").value * (if returnOn.Some? then 2.0 else 1.0);
    RankIsOrder(Cell(fare, "fare_class"), Cell(policy, "max_fare_class"));
    TruncatedBounds(notice, departOn - asOf);
    SeatsAfter(seats);
    ReasonsMean(FareRank(Cell(fare, "fare_class"), 99) > FareRank(Cell(policy, "max_fare_class"), 0),
      price > threshold, departOn - asOf < Truncated(notice), Truncated(seats) <= 0);
    hide FareRank, WithinClass, Lower, StrOf, Truncated, Cell, ReasonsFor, Decide;
  }

  // -------------------------------------------------------------------- one simulation

  /** The return date asked for: none where the text is missing or empty. */
  ghost predicate Returns(cfg: Config, args: Dict<Arg>, returnOn: Option<int>) {
    if exists t :: t != "" && Given(args, "return_on", ArgText(t)) then
      exists t :: t != "" && Given(args, "return_on", ArgText(t)) && returnOn.Some? && cfg.parseDate(t) == returnOn
    else returnOn.None?
  }

  ghost predicate Departs(cfg: Config, args: Dict<Arg>, departOn: int) {
    exists t :: Given(args, "depart_on", ArgText(t)) && cfg.parseDate(t) == Some(departOn)
  }

  lemma {:induction false} ReturnMeans(cfg: Config, args: Dict<Arg>)
    ensures forall returnOn :: ReturnDate(cfg, args) == Ok(returnOn) <==> Returns(cfg, args, returnOn)
  {
    GetMeans(args, "return_on");
    hide Get, Given;
    forall returnOn
      ensures ReturnDate(cfg, args) == Ok(returnOn) <==> Returns(cfg, args, returnOn)
    {
      if t :| t != "" && Given(args, "return_on", ArgText(t)) {
        assert Get(args, "return_on") == Some(ArgText(t));
      } else {
        assert ReturnDate(cfg, args) == Ok(None);
      }
    }
  }

  lemma {:induction false} DepartureMeans(cfg: Config, args: Dict<Arg>, departOn: int)
    ensures Departs(cfg, args, departOn) <==>
              var text := TextArgument(args, "depart_on");
              text.Ok? && cfg.parseDate(text.value) == Some(departOn)
  {
    hide TextArgument, Given;
    if TextArgument(args, "depart_on").Ok? {
      TextGiven(args, "depart_on", TextArgument(args, "depart_on").value);
    }
    if t :| Given(args, "depart_on", ArgText(t)) && cfg.parseDate(t) == Some(departOn) {
      TextGiven(args, "depart_on", t);
    }
  }

  /** The fares published for a route, as listed. */
  ghost predicate RoutesFares(db: Database, scope: Scope, route: string, fares: seq<Row>) {
    Lists(db, scope.regions, TravelFares, [("route_id", ArgText(route))], {}, 200, fares)
  }

  /** A fare of the route, under the id asked for. */
  ghost predicate FareAsked(db: Database, args: Dict<Arg>, fare: Row) {
    exists route, id ::
      && Given(args, "route_id", ArgText(route)) && Given(args, "fare_id", ArgText(id))
      && fare in Rows(db, TravelFares)
      && Cell(fare, "route_id") == Text(route) && Cell(fare, "fare_id") == Text(id)
  }

  lemma {:induction false} FaresListed(db: Database, scope: Scope, route: string)
    ensures var listed := ListRows(db, scope.regions, TravelFares, [("route_id", One(ArgText(route)))], 200, true);
            && listed.Ok? && RoutesFares(db, scope, route, listed.value)
            && forall fare :: fare in listed.value ==>
                 fare in Rows(db, TravelFares) && Cell(fare, "route_id") == Text(route)
  {
    OneFilter("route_id", route);
    ListMeans(db, scope.regions, TravelFares, [("route_id", ArgText(route))], 200);
    hide ListRows, Cell, Rows, Ascends, KeyColumn;
    var args := [("route_id", ArgText(route))];
    var fares := ListRows(db, scope.regions, TravelFares, [("route_id", One(ArgText(route)))], 200, true).value;
    forall fare | fare in fares
      ensures Cell(fare, "route_id") == Text(route)
    {
      assert Fits(fare, args, {}) && args[0] == ("route_id", ArgText(route));
    }
  }

  lemma {:induction false} FareFound(fares: seq<Row>, id: string)
    ensures var found := FareNamed(fares, ArgText(id));
            && (found.Some? ==> found.value in fares && Cell(found.value, "fare_id") == Text(id))
            && (found.None? ==> forall fare :: fare in fares ==> Cell(fare, "fare_id") != Text(id))
  {
    hide Cell;
    if fares != [] {
      FareFound(fares[1..], id);
      assert fares == [fares[0]] + fares[1..];
    }
  }

  /** Main result on the simulation: of a stored fare of the route asked for, on the dates asked for,
      under the caller's own policy. It is refused exactly for a class above the policy's or for
      want of seats, and otherwise needs approval exactly for a price over the threshold or too
      little notice. */
  lemma {:induction false} SimulationMeans(cfg: Config, db: Database, scope: Scope, args: Dict<Arg>)
    requires SimulateBooking(cfg, db, scope, args).Ok?
    ensures var a := SimulateBooking(cfg, db, scope, args).value;
            && a.Simulation? && Departs(cfg, args, a.departOn) && Returns(cfg, args, a.returnOn)
            && ApplicablePolicy(db, scope).Ok?
            && exists fare ::
                 FareAsked(db, args, fare) && Decided(cfg.asOf, fare, ApplicablePolicy(db, scope).value, a)
  {
    hide ListRows, FareNamed, ApplicablePolicy, FareRank, ReasonsFor, Decide, Truncated, Decided;
    hide TextArgument, Number, Cell, Rows, ReturnDate, Given, Departs, Returns;
    var route, id := TextArgument(args, "route_id").value, TextArgument(args, "fare_id").value;
    TextGiven(args, "route_id", route);
    TextGiven(args, "fare_id", id);
    FaresListed(db, scope, route);
    hide RoutesFares;
    var fares := ListRows(db, scope.regions, TravelFares, [("route_id", One(ArgText(route)))], 200, true).value;
    var fare := FareNamed(fares, ArgText(id)).value;
    FareFound(fares, id);
    assert FareAsked(db, args, fare);
    hide FareAsked;
    var answer := SimulateBooking(cfg, db, scope, args).value;
    ReturnMeans(cfg, args);
    DepartureMeans(cfg, args, answer.departOn);
    DecidedBy(cfg.asOf, fare, ApplicablePolicy(db, scope).value, answer.departOn, answer.returnOn);
  }

  function Published(db: Database, scope: Scope, route: string): Result<seq<Row>, RepoError> {
    ListRows(db, scope.regions, TravelFares, [("route_id", One(ArgText(route)))], 200, true)
  }

  ghost predicate Priced(fare: Row) {
    Cell(fare, "base_price").Num? && Cell(fare, "seats_available").Num?
  }

  ghost predicate Limited(policy: Row) {
    Cell(policy, "requires_approval_over").Num? && Cell(policy, "advance_purchase_days").Num?
  }

  /** And when there is an answer: for a fare among those listed for the route, a caller with a policy,
      figures that are numbers and dates that can be read, always, unless the trip starts before the
      planning date or ends before it starts, which is what is then reported. */
  lemma {:induction false} PlannableIsSimulated(cfg: Config, db: Database, scope: Scope, args: Dict<Arg>,
                                                route: string, id: string, departOn: int, returnOn: Option<int>)
    requires Given(args, "route_id", ArgText(route)) && Given(args, "fare_id", ArgText(id))
    requires Departs(cfg, args, departOn) && Returns(cfg, args, returnOn)
    requires ApplicablePolicy(db, scope).Ok? && Limited(ApplicablePolicy(db, scope).value)
    requires Published(db, scope, route).Ok?
    requires exists fare :: fare in Published(db, scope, route).value && Cell(fare, "fare_id") == Text(id)
    requires forall fare ::
               fare in Published(db, scope, route).value && Cell(fare, "fare_id") == Text(id) ==> Priced(fare)
    ensures var r := SimulateBooking(cfg, db, scope, args);
            && (r == Err(DepartsBeforePlanningDate) <==> departOn < cfg.asOf)
            && (r == Err(ReturnsBeforeDeparture) <==>
                  cfg.asOf <= departOn && returnOn.Some? && returnOn.value < departOn)
            && (r.Ok? <==> cfg.asOf <= departOn && (returnOn.Some? ==> departOn <= returnOn.value))
  {
    hide ListRows, FareNamed, ApplicablePolicy, FareRank, ReasonsFor, Decide, Truncated;
    hide TextArgument, Cell, ReturnDate, Given, Departs, Returns;
    TextGiven(args, "route_id", route);
    TextGiven(args, "fare_id", id);
    FareFound(Published(db, scope, route).value, id);
    ReturnMeans(cfg, args);
    DepartureMeans(cfg, args, departOn);
  }

  /** A fare that is not among them is refused as unpublished, whatever else was asked. */
  lemma {:induction false} UnpublishedIsRefused(cfg: Config, db: Database, scope: Scope, args: Dict<Arg>,
                                                route: string, id: string)
    requires Given(args, "route_id", ArgText(route)) && Given(args, "fare_id", ArgText(id))
    ensures Published(db, scope, route).Ok?
    ensures SimulateBooking(cfg, db, scope, args) == Err(FareNotPublished) <==>
              forall fare :: fare in Published(db, scope, route).value ==> Cell(fare, "fare_id") != Text(id)
  {
    FaresListed(db, scope, route);
    hide ListRows, FareNamed, ApplicablePolicy, FareRank, ReasonsFor, Decide, Truncated, RoutesFares, Rows;
    hide TextArgument, Cell, ReturnDate, Given;
    TextGiven(args, "route_id", route);
    TextGiven(args, "fare_id", id);
    FareFound(Published(db, scope, route).value, id);
    OtherRefusals(cfg, db, scope, args);
  }

  lemma {:induction false} OtherRefusals(cfg: Config, db: Database, scope: Scope, args: Dict<Arg>)
    ensures ApplicablePolicy(db, scope) != Err(FareNotPublished)
    ensures ReturnDate(cfg, args) != Err(FareNotPublished) && TextArgument(args, "depart_on") != Err(FareNotPublished)
  {
    hide ListRows, FetchByKey, FirstWithSuffix, StrOf, Get;
  }
}
