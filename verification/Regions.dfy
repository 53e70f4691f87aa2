/** Region selection: gates that eliminate regions one by one, recording why, and a ranking of
    what survives by cost, then capacity, then distance. */
module Regions {
  import opened Wrappers
  import opened Sorting

  // ---------------------------------------------------------------- configuration

  datatype Facts = Facts(name: string, displayName: string, geography: string, geographyGroup: string,
                         pairedRegions: seq<string>, zones: int)

  datatype TypeSpec = TypeSpec(namespace: string, kind: string, title: string)
  datatype ModelSpec = ModelSpec(id: string, pattern: string -> bool, lifecycles: set<string>, sku: string)
  datatype QuotaSpec = QuotaSpec(id: string, pattern: string -> bool, minimum: real)
  datatype OptionalModule = OptionalModule(types: seq<TypeSpec>, capabilities: seq<string>)
  datatype LatencyRule = LatencyRule(maxKm: Option<real>)
  datatype Capability = Capability(derivesFrom: Option<string>, regions: seq<string>, excluded: seq<string>)

  datatype Config = Config(
    groups: set<string>, geographies: set<string>, blocked: set<string>,
    requirePair: bool, minZones: int,
    latency: Option<LatencyRule>,
    types: seq<TypeSpec>, capabilities: seq<string>, models: seq<ModelSpec>, quotas: seq<QuotaSpec>,
    modules: map<string, OptionalModule>,
    candidates: set<string>)

  datatype Model = Model(name: string, lifecycle: string, skus: set<string>)
  datatype Usage = Usage(name: string, limit: real, current: real)

  /** The live answers a run reads, and the library functions it applies to names and coordinates. */
  datatype World = World(
    lower: string -> string, normalise: string -> string, distance: Facts -> real,
    locations: TypeSpec -> set<string>,
    models: string -> Option<seq<Model>>, usage: string -> Option<seq<Usage>>,
    basket: string -> Option<real>,
    matrix: map<string, Capability>)

  datatype Failure = UnknownModule | MissingCapability | ProbeFailed | NothingPriced

  /** Optional modules add resource types and capabilities, and change nothing else. */
  function Enable(cfg: Config, requested: seq<string>): Result<Config, Failure> {
    if exists m :: m in requested && m !in cfg.modules then Err(UnknownModule)
    else Ok(Extend(cfg, requested))
  }

  function Extend(cfg: Config, requested: seq<string>): Config
    requires forall m :: m in requested ==> m in cfg.modules
    decreases requested
  {
    if requested == [] then cfg
    else
      var m := cfg.modules[requested[0]];
      Extend(cfg.(types := cfg.types + m.types, capabilities := cfg.capabilities + m.capabilities), requested[1..])
  }

  // ----------------------------------------------------------------- requirements

  datatype Gate = Residency | Reliability | Latency | ResourceType(title: string) | CapabilityGate(id: string)
                | ModelGate(id: string) | QuotaGate(id: string) | CostBasket

  datatype GateResult = GateResult(gate: Gate, passed: bool)

  datatype Requirement =
    | NeedResidency | NeedReliability | NeedLatency(rule: LatencyRule)
    | NeedType(typeSpec: TypeSpec) | NeedCapability(id: string)
    | NeedModel(model: ModelSpec) | NeedQuota(quota: QuotaSpec)

  function GateOf(req: Requirement): Gate {
    match req
    case NeedResidency => Residency
    case NeedReliability => Reliability
    case NeedLatency(_) => Latency
    case NeedType(t) => ResourceType(t.title)
    case NeedCapability(id) => CapabilityGate(id)
    case NeedModel(m) => ModelGate(m.id)
    case NeedQuota(q) => QuotaGate(q.id)
  }

  predicate Offers(m: Model, spec: ModelSpec) {
    && spec.pattern(m.name)
    && (spec.lifecycles != {} ==> m.lifecycle in spec.lifecycles)
    && (spec.sku != "" ==> spec.sku in m.skus)
  }

  function Headroom(rows: seq<Usage>, spec: QuotaSpec): real {
    if rows == [] then 0.0
    else (if spec.pattern(rows[0].name) then rows[0].limit - rows[0].current else 0.0) + Headroom(rows[1..], spec)
  }

  function ModelsOf(w: World, f: Facts): seq<Model> {
    if w.models(f.name).Some? then w.models(f.name).value else []
  }

  function UsageOf(w: World, f: Facts): seq<Usage> {
    if w.usage(f.name).Some? then w.usage(f.name).value else []
  }

  function Allowed(w: World, id: string): set<string> {
    if id !in w.matrix then {}
    else
      var cap := w.matrix[id];
      var regions :=
        if cap.derivesFrom.None? then cap.regions
        else if cap.derivesFrom.value in w.matrix then w.matrix[cap.derivesFrom.value].regions
        else [];
      set r | r in regions :: w.normalise(r)
  }

  function Excluded(w: World, id: string): set<string> {
    if id !in w.matrix then {} else set r | r in w.matrix[id].excluded :: w.normalise(r)
  }

  predicate Lowered(w: World, name: string, names: set<string>) {
    w.lower(name) in set n | n in names :: w.lower(n)
  }

  predicate ResidencyHolds(w: World, cfg: Config, f: Facts) {
    && !Lowered(w, f.geography, cfg.blocked)
    && (cfg.groups != {} ==> Lowered(w, f.geographyGroup, cfg.groups))
    && (cfg.geographies != {} ==> Lowered(w, f.geography, cfg.geographies))
  }

  predicate ReliabilityHolds(cfg: Config, f: Facts) {
    (cfg.requirePair ==> f.pairedRegions != []) && f.zones >= cfg.minZones
  }

  /** What each requirement asks of a region. */
  predicate Meets(w: World, cfg: Config, req: Requirement, f: Facts) {
    match req
    case NeedResidency => ResidencyHolds(w, cfg, f)
    case NeedReliability => ReliabilityHolds(cfg, f)
    case NeedLatency(rule) => rule.maxKm.Some? ==> w.distance(f) <= rule.maxKm.value
    case NeedType(t) => w.normalise(f.displayName) in w.locations(t) || w.normalise(f.name) in w.locations(t)
    case NeedCapability(id) => w.normalise(f.displayName) in Allowed(w, id) - Excluded(w, id)
    case NeedModel(spec) => exists m :: m in ModelsOf(w, f) && Offers(m, spec)
    case NeedQuota(spec) => Headroom(UsageOf(w, f), spec) >= spec.minimum
  }

  function TypeNeeds(specs: seq<TypeSpec>): seq<Requirement> {
    if specs == [] then [] else TypeNeeds(specs[..|specs| - 1]) + [NeedType(specs[|specs| - 1])]
  }

  function CapabilityNeeds(ids: seq<string>): seq<Requirement> {
    if ids == [] then [] else CapabilityNeeds(ids[..|ids| - 1]) + [NeedCapability(ids[|ids| - 1])]
  }

  function ModelNeeds(specs: seq<ModelSpec>): seq<Requirement> {
    if specs == [] then [] else ModelNeeds(specs[..|specs| - 1]) + [NeedModel(specs[|specs| - 1])]
  }

  function QuotaNeeds(specs: seq<QuotaSpec>): seq<Requirement> {
    if specs == [] then [] else QuotaNeeds(specs[..|specs| - 1]) + [NeedQuota(specs[|specs| - 1])]
  }

  function LatencyNeeds(cfg: Config): seq<Requirement> {
    if cfg.latency.Some? then [NeedLatency(cfg.latency.value)] else []
  }

  /** The requirements answered from metadata and documentation, in gate order. */
  function EarlyNeeds(cfg: Config): seq<Requirement> {
    [NeedResidency] + [NeedReliability] + LatencyNeeds(cfg) + TypeNeeds(cfg.types) + CapabilityNeeds(cfg.capabilities)
  }

  function LateNeeds(cfg: Config): seq<Requirement> {
    ModelNeeds(cfg.models) + QuotaNeeds(cfg.quotas)
  }

  function Needs(cfg: Config): seq<Requirement> {
    EarlyNeeds(cfg) + LateNeeds(cfg)
  }

  ghost predicate MeetsEvery(w: World, cfg: Config, needs: seq<Requirement>, f: Facts) {
    forall req :: req in needs ==> Meets(w, cfg, req, f)
  }

  /** The plain conjunction the gates compute step by step. */
  ghost predicate Qualifies(w: World, cfg: Config, f: Facts) {
    MeetsEvery(w, cfg, Needs(cfg), f)
  }

  // -------------------------------------------------------------- the state of a region

  datatype State = State(facts: Facts, gates: seq<GateResult>, distance: Option<real>, headroom: real,
    basket: Option<real>)

  predicate Eliminated(gates: seq<GateResult>) {
    exists i :: 0 <= i < |gates| && !gates[i].passed
  }

  function Judged(w: World, cfg: Config, req: Requirement, s: State): State {
    if Eliminated(s.gates) then s
    else s.(gates := s.gates + [GateResult(GateOf(req), Meets(w, cfg, req, s.facts))])
  }

  /** One requirement after another, stopping at the first that fails. */
  function JudgedBy(w: World, cfg: Config, needs: seq<Requirement>, s: State): State
    decreases |needs|
  {
    if needs == [] then s
    else Judged(w, cfg, needs[|needs| - 1], JudgedBy(w, cfg, needs[..|needs| - 1], s))
  }

  function Located(w: World, cfg: Config, s: State): State {
    if cfg.latency.Some? then s.(distance := Some(w.distance(s.facts))) else s
  }

  function TotalHeadroom(rows: seq<Usage>, specs: seq<QuotaSpec>): real {
    if specs == [] then 0.0
    else TotalHeadroom(rows, specs[..|specs| - 1]) + Headroom(rows, specs[|specs| - 1])
  }

  function Measured(w: World, cfg: Config, s: State): State {
    s.(headroom := s.headroom + TotalHeadroom(UsageOf(w, s.facts), cfg.quotas))
  }

  lemma {:induction false} JudgedKeepsFacts(w: World, cfg: Config, needs: seq<Requirement>, s: State)
    ensures var j := JudgedBy(w, cfg, needs, s);
            j.facts == s.facts && j.distance == s.distance && j.headroom == s.headroom && j.basket == s.basket
  {
    if needs != [] {
      JudgedKeepsFacts(w, cfg, needs[..|needs| - 1], s);
    }
  }

  lemma {:induction false} JudgedInTurn(w: World, cfg: Config, a: seq<Requirement>, b: seq<Requirement>, s: State)
    ensures JudgedBy(w, cfg, a + b, s) == JudgedBy(w, cfg, b, JudgedBy(w, cfg, a, s))
    decreases |b|
  {
    if b == [] {
      assert a + b == a;
    } else {
      var n := |b| - 1;
      assert (a + b)[..|a + b| - 1] == a + b[..n];
      JudgedInTurn(w, cfg, a, b[..n], s);
    }
  }

  /** A region judged from scratch is eliminated exactly when it fails a requirement; then its
      last record is its only failure, and names a requirement it does not meet. */
  lemma {:induction false} JudgedOutcome(w: World, cfg: Config, needs: seq<Requirement>, s: State)
    requires s.gates == []
    ensures var gates := JudgedBy(w, cfg, needs, s).gates;
            && (Eliminated(gates) <==> !MeetsEvery(w, cfg, needs, s.facts))
            && (Eliminated(gates) ==>
                  && !gates[|gates| - 1].passed
                  && (forall i | 0 <= i < |gates| - 1 :: gates[i].passed)
                  && exists req ::
                    req in needs && GateOf(req) == gates[|gates| - 1].gate && !Meets(w, cfg, req, s.facts))
            && (!Eliminated(gates) ==> |gates| == |needs|)
    decreases |needs|
  {
    hide Meets, GateOf;
    if needs != [] {
      var n := |needs| - 1;
      var front, last := needs[..n], needs[n];
      JudgedOutcome(w, cfg, front, s);
      JudgedKeepsFacts(w, cfg, front, s);
      assert needs == front + [last];
      var before := JudgedBy(w, cfg, front, s);
      var gates := JudgedBy(w, cfg, needs, s).gates;
      if Eliminated(before.gates) {
        assert gates == before.gates;
        var req :| req in front && GateOf(req) == gates[|gates| - 1].gate && !Meets(w, cfg, req, s.facts);
        assert req in needs;
      } else {
        assert gates == before.gates + [GateResult(GateOf(last), Meets(w, cfg, last, s.facts))];
        assert !gates[|gates| - 1].passed ==> last in needs && !Meets(w, cfg, last, s.facts);
      }
    }
  }

  // ------------------------------------------------------------------- the mutable regions

  class Region {
    const facts: Facts
    var distanceKm: Option<real>
    var basket: Option<real>
    var headroom: real
    var gates: seq<GateResult>

    constructor (facts: Facts)
      ensures Snapshot() == Fresh(facts)
    {
      this.facts := facts;
      distanceKm, basket, headroom, gates := None, None, 0.0, [];
    }

    function Snapshot(): State
      reads this
    {
      State(facts, gates, distanceKm, headroom, basket)
    }

    method Record(gate: Gate, passed: bool)
      modifies this`gates
      ensures gates == old(gates) + [GateResult(gate, passed)]
    {
      gates := gates + [GateResult(gate, passed)];
    }
  }

  function Fresh(f: Facts): State {
    State(f, [], None, 0.0, None)
  }

  ghost predicate DistinctRegions(regions: seq<Region>) {
    forall i, j | 0 <= i < j < |regions| :: regions[i] != regions[j]
  }

  method GateResidency(w: World, cfg: Config, regions: seq<Region>)
    requires DistinctRegions(regions)
    requires forall r | r in regions :: r.gates == []
    modifies regions
    ensures forall k | 0 <= k < |regions| ::
            regions[k].Snapshot() == Judged(w, cfg, NeedResidency, old(regions[k].Snapshot()))
  {
    for i := 0 to |regions|
      invariant forall k | 0 <= k < i ::
                regions[k].Snapshot() == Judged(w, cfg, NeedResidency, old(regions[k].Snapshot()))
      invariant forall k | i <= k < |regions| :: regions[k].Snapshot() == old(regions[k].Snapshot())
    {
      var r := regions[i];
      assert regions[i] in regions && old(r.gates) == [];
      if cfg.blocked != {} && Lowered(w, r.facts.geography, cfg.blocked) {
        r.Record(Residency, false);
      } else if cfg.groups != {} && !Lowered(w, r.facts.geographyGroup, cfg.groups) {
        r.Record(Residency, false);
      } else if cfg.geographies != {} && !Lowered(w, r.facts.geography, cfg.geographies) {
        r.Record(Residency, false);
      } else {
        r.Record(Residency, true);
      }
    }
  }

  method GateReliability(w: World, cfg: Config, regions: seq<Region>)
    requires DistinctRegions(regions)
    modifies regions
    ensures forall k | 0 <= k < |regions| ::
            regions[k].Snapshot() == Judged(w, cfg, NeedReliability, old(regions[k].Snapshot()))
  {
    for i := 0 to |regions|
      invariant forall k | 0 <= k < i ::
                regions[k].Snapshot() == Judged(w, cfg, NeedReliability, old(regions[k].Snapshot()))
      invariant forall k | i <= k < |regions| :: regions[k].Snapshot() == old(regions[k].Snapshot())
    {
      var r := regions[i];
      if !Eliminated(r.gates) {
        if cfg.requirePair && r.facts.pairedRegions == [] {
          r.Record(Reliability, false);
        } else if r.facts.zones < cfg.minZones {
          r.Record(Reliability, false);
        } else {
          r.Record(Reliability, true);
        }
      }
    }
  }

  /** Distances are set on every region, eliminated or not; only survivors are judged. */
  method GateLatency(w: World, cfg: Config, regions: seq<Region>)
    requires DistinctRegions(regions)
    modifies regions
    ensures forall k | 0 <= k < |regions| ::
              regions[k].Snapshot() == JudgedBy(w, cfg, LatencyNeeds(cfg), Located(w, cfg, old(regions[k].Snapshot())))
  {
    if cfg.latency.None? {
      return;
    }
    var rule := cfg.latency.value;
    hide JudgedBy;
    for i := 0 to |regions|
      invariant forall k | 0 <= k < i ::
                  regions[k].Snapshot() == Judged(w, cfg, NeedLatency(rule),
                    Located(w, cfg, old(regions[k].Snapshot())))
      invariant forall k | i <= k < |regions| :: regions[k].Snapshot() == old(regions[k].Snapshot())
    {
      var r := regions[i];
      r.distanceKm := Some(w.distance(r.facts));
      if !Eliminated(r.gates) {
        var passed := rule.maxKm.Some? ==> r.distanceKm.value <= rule.maxKm.value;
        r.Record(Latency, passed);
      }
    }
    forall k | 0 <= k < |regions|
      ensures regions[k].Snapshot() == JudgedBy(w, cfg, LatencyNeeds(cfg), Located(w, cfg, old(regions[k].Snapshot())))
    {
      JudgedByOne(w, cfg, NeedLatency(rule), Located(w, cfg, old(regions[k].Snapshot())));
    }
  }

  lemma {:induction false} JudgedByOne(w: World, cfg: Config, req: Requirement, s: State)
    ensures JudgedBy(w, cfg, [req], s) == Judged(w, cfg, req, s)
  {
    assert [req][..0] == [];
  }

  method GateResourceTypes(w: World, cfg: Config, regions: seq<Region>)
    requires DistinctRegions(regions)
    modifies regions
    ensures forall k | 0 <= k < |regions| ::
              regions[k].Snapshot() == JudgedBy(w, cfg, TypeNeeds(cfg.types), old(regions[k].Snapshot()))
  {
    for n := 0 to |cfg.types|
      invariant forall k | 0 <= k < |regions| ::
                  regions[k].Snapshot() == JudgedBy(w, cfg, TypeNeeds(cfg.types[..n]), old(regions[k].Snapshot()))
    {
      assert cfg.types[..n + 1][..n] == cfg.types[..n];
      ghost var needs := TypeNeeds(cfg.types[..n]);
      assert (needs + [NeedType(cfg.types[n])])[..|needs|] == needs;
      GateOneType(w, cfg, regions, cfg.types[n]);
    }
    assert cfg.types[..|cfg.types|] == cfg.types;
  }

  method GateOneType(w: World, cfg: Config, regions: seq<Region>, spec: TypeSpec)
    requires DistinctRegions(regions)
    modifies regions
    ensures forall k | 0 <= k < |regions| ::
            regions[k].Snapshot() == Judged(w, cfg, NeedType(spec), old(regions[k].Snapshot()))
  {
    var available := w.locations(spec);
    for i := 0 to |regions|
      invariant forall k | 0 <= k < i ::
                regions[k].Snapshot() == Judged(w, cfg, NeedType(spec), old(regions[k].Snapshot()))
      invariant forall k | i <= k < |regions| :: regions[k].Snapshot() == old(regions[k].Snapshot())
    {
      var r := regions[i];
      if !Eliminated(r.gates) {
        if available == {} {
          r.Record(ResourceType(spec.title), false);
        } else {
          r.Record(ResourceType(spec.title),
                   w.normalise(r.facts.displayName) in available || w.normalise(r.facts.name) in available);
        }
      }
    }
  }

  /** Every capability the run needs is in the matrix, and so is what it derives from. */
  predicate Documented(w: World, ids: seq<string>) {
    forall id :: id in ids ==>
      id in w.matrix && (w.matrix[id].derivesFrom.Some? ==> w.matrix[id].derivesFrom.value in w.matrix)
  }

  lemma {:induction false} OneMoreCapability(w: World, cfg: Config, n: nat, s: State)
    requires n < |cfg.capabilities|
    ensures JudgedBy(w, cfg, CapabilityNeeds(cfg.capabilities[..n + 1]), s)
         == Judged(w, cfg, NeedCapability(cfg.capabilities[n]),
                   JudgedBy(w, cfg, CapabilityNeeds(cfg.capabilities[..n]), s))
  {
    hide Judged;
    var needs, need := CapabilityNeeds(cfg.capabilities[..n]), NeedCapability(cfg.capabilities[n]);
    assert cfg.capabilities[..n + 1][..n] == cfg.capabilities[..n];
    assert CapabilityNeeds(cfg.capabilities[..n + 1]) == needs + [need];
    assert (needs + [need])[..|needs|] == needs;
  }

  lemma {:induction false} NoCapability(w: World, cfg: Config, s: State)
    ensures JudgedBy(w, cfg, CapabilityNeeds([]), s) == s
  {
  }

  method GateCapabilities(w: World, cfg: Config, regions: seq<Region>) returns (ok: bool)
    requires DistinctRegions(regions)
    modifies regions
    ensures ok <==> Documented(w, cfg.capabilities)
    ensures ok ==> forall k | 0 <= k < |regions| ::
              regions[k].Snapshot() == JudgedBy(w, cfg, CapabilityNeeds(cfg.capabilities), old(regions[k].Snapshot()))
  {
    hide Meets, Judged, JudgedBy, CapabilityNeeds, Eliminated;
    forall k | 0 <= k < |regions| {
      NoCapability(w, cfg, regions[k].Snapshot());
    }
    for n := 0 to |cfg.capabilities|
      invariant Documented(w, cfg.capabilities[..n])
      invariant forall k | 0 <= k < |regions| ::
                  regions[k].Snapshot() == JudgedBy(w, cfg, CapabilityNeeds(cfg.capabilities[..n]),
                    old(regions[k].Snapshot()))
    {
      var id := cfg.capabilities[n];
      if id !in w.matrix {
        return false;
      }
      if w.matrix[id].derivesFrom.Some? && w.matrix[id].derivesFrom.value !in w.matrix {
        return false;
      }
      assert cfg.capabilities[..n + 1] == cfg.capabilities[..n] + [id];
      forall k | 0 <= k < |regions|
        ensures JudgedBy(w, cfg, CapabilityNeeds(cfg.capabilities[..n + 1]), old(regions[k].Snapshot()))
             == Judged(w, cfg, NeedCapability(id), regions[k].Snapshot())
      {
        OneMoreCapability(w, cfg, n, old(regions[k].Snapshot()));
      }
      GateOneCapability(w, cfg, regions, id);
    }
    assert cfg.capabilities[..|cfg.capabilities|] == cfg.capabilities;
    return true;
  }

  method GateOneCapability(w: World, cfg: Config, regions: seq<Region>, id: string)
    requires DistinctRegions(regions)
    modifies regions
    ensures forall k | 0 <= k < |regions| ::
            regions[k].Snapshot() == Judged(w, cfg, NeedCapability(id), old(regions[k].Snapshot()))
  {
    var allowed, excluded := Allowed(w, id), Excluded(w, id);
    for i := 0 to |regions|
      invariant forall k | 0 <= k < i ::
                regions[k].Snapshot() == Judged(w, cfg, NeedCapability(id), old(regions[k].Snapshot()))
      invariant forall k | i <= k < |regions| :: regions[k].Snapshot() == old(regions[k].Snapshot())
    {
      var r := regions[i];
      if !Eliminated(r.gates) {
        var key := w.normalise(r.facts.displayName);
        if key in excluded {
          r.Record(CapabilityGate(id), false);
        } else {
          r.Record(CapabilityGate(id), key in allowed);
        }
      }
    }
  }

  predicate Reachable(w: World, f: Facts) {
    w.models(f.name).Some? && w.usage(f.name).Some?
  }

  /** The survivors: the regions, in order, that no gate has eliminated. */
  function Survivors(regions: seq<Region>): seq<Region>
    reads regions
  {
    if regions == [] then []
    else if Eliminated(regions[|regions| - 1].gates) then Survivors(regions[..|regions| - 1])
    else Survivors(regions[..|regions| - 1]) + [regions[|regions| - 1]]
  }

  lemma {:induction false} SurvivorsMembers(regions: seq<Region>)
    ensures forall r | r in Survivors(regions) :: r in regions && !Eliminated(r.gates)
    ensures forall r | r in regions && !Eliminated(r.gates) :: r in Survivors(regions)
  {
    hide Eliminated;
    if regions != [] {
      var front := regions[..|regions| - 1];
      SurvivorsMembers(front);
      assert regions == front + [regions[|regions| - 1]];
    }
  }

  lemma {:induction false} SurvivorsDistinct(regions: seq<Region>)
    requires DistinctRegions(regions)
    ensures DistinctRegions(Survivors(regions))
  {
    hide Eliminated;
    if regions != [] {
      var front := regions[..|regions| - 1];
      SurvivorsDistinct(front);
      SurvivorsMembers(front);
    }
  }

  /** What the model and quota gate does to one region. */
  function Probed(w: World, cfg: Config, s: State): State {
    if Eliminated(s.gates) then s else Measured(w, cfg, JudgedBy(w, cfg, LateNeeds(cfg), s))
  }

  /** Refuses to judge on a failed probe: nothing changes unless every survivor answered. */
  method GateModelsAndQuota(w: World, cfg: Config, regions: seq<Region>) returns (ok: bool)
    requires DistinctRegions(regions)
    modifies regions
    ensures ok <==>
            forall k | 0 <= k < |regions| && !Eliminated(old(regions[k].gates)) :: Reachable(w, regions[k].facts)
    ensures ok ==> forall k | 0 <= k < |regions| :: regions[k].Snapshot() == Probed(w, cfg, old(regions[k].Snapshot()))
    ensures !ok ==> forall k | 0 <= k < |regions| :: regions[k].Snapshot() == old(regions[k].Snapshot())
  {
    hide Meets, Reachable, JudgedBy, Measured;
    var survivors := Survivors(regions);
    SurvivorsMembers(regions);
    SurvivorsDistinct(regions);
    forall k | 0 <= k < |regions|
      ensures regions[k] in survivors <==> !Eliminated(regions[k].gates)
    {
      assert regions[k] in regions;
    }
    if exists r :: r in survivors && !Reachable(w, r.facts) {
      ghost var r :| r in survivors && !Reachable(w, r.facts);
      ghost var k :| 0 <= k < |regions| && regions[k] == r;
      return false;
    }
    if survivors == [] {
      return true;
    }
    assert forall k | 0 <= k < |survivors| :: survivors[k] in survivors && survivors[k] in regions;
    JudgeSurvivors(w, cfg, survivors);
    return true;
  }

  method JudgeSurvivors(w: World, cfg: Config, survivors: seq<Region>)
    requires DistinctRegions(survivors)
    modifies survivors
    ensures forall r | r in survivors ::
            r.Snapshot() == Measured(w, cfg, JudgedBy(w, cfg, LateNeeds(cfg), old(r.Snapshot())))
  {
    hide Meets, Measured, LateNeeds, Judged, QuotaStep, AfterQuotas;
    for n := 0 to |cfg.models|
      invariant forall r | r in survivors ::
                r.Snapshot() == JudgedBy(w, cfg, ModelNeeds(cfg.models[..n]), old(r.Snapshot()))
    {
      assert cfg.models[..n + 1][..n] == cfg.models[..n];
      ghost var needs := ModelNeeds(cfg.models[..n]);
      assert (needs + [NeedModel(cfg.models[n])])[..|needs|] == needs;
      GateOneModel(w, cfg, survivors, cfg.models[n]);
    }
    assert cfg.models[..|cfg.models|] == cfg.models;
    hide JudgedBy;
    forall r | r in survivors
      ensures AfterQuotas(w, cfg, 0, r.Snapshot()) == r.Snapshot()
    {
      NoQuotas(w, cfg, r.Snapshot());
    }
    for n := 0 to |cfg.quotas|
      invariant forall r | r in survivors ::
                  r.Snapshot() == AfterQuotas(w, cfg, n, JudgedBy(w, cfg, ModelNeeds(cfg.models), old(r.Snapshot())))
    {
      forall r | r in survivors
        ensures QuotaStep(w, cfg, cfg.quotas[n], r.Snapshot())
             == AfterQuotas(w, cfg, n + 1, JudgedBy(w, cfg, ModelNeeds(cfg.models), old(r.Snapshot())))
      {
        AfterQuotasStep(w, cfg, n, JudgedBy(w, cfg, ModelNeeds(cfg.models), old(r.Snapshot())));
      }
      GateOneQuota(w, cfg, survivors, cfg.quotas[n]);
    }
    forall r | r in survivors
      ensures r.Snapshot() == Measured(w, cfg, JudgedBy(w, cfg, LateNeeds(cfg), old(r.Snapshot())))
    {
      AllQuotas(w, cfg, old(r.Snapshot()));
    }
  }

  lemma {:induction false} NoQuotas(w: World, cfg: Config, s: State)
    ensures AfterQuotas(w, cfg, 0, s) == s
  {
  }

  function QuotaStep(w: World, cfg: Config, spec: QuotaSpec, s: State): State {
    Judged(w, cfg, NeedQuota(spec), s.(headroom := s.headroom + Headroom(UsageOf(w, s.facts), spec)))
  }

  /** A state after the first n quota requirements: the headroom grows even once eliminated. */
  ghost function AfterQuotas(w: World, cfg: Config, n: nat, s: State): State
    requires n <= |cfg.quotas|
  {
    var judged := JudgedBy(w, cfg, QuotaNeeds(cfg.quotas[..n]), s);
    judged.(headroom := judged.headroom + TotalHeadroom(UsageOf(w, s.facts), cfg.quotas[..n]))
  }

  lemma {:induction false} AfterQuotasStep(w: World, cfg: Config, n: nat, s: State)
    requires n < |cfg.quotas|
    ensures AfterQuotas(w, cfg, n + 1, s) == QuotaStep(w, cfg, cfg.quotas[n], AfterQuotas(w, cfg, n, s))
  {
    hide Meets;
    assert cfg.quotas[..n + 1][..n] == cfg.quotas[..n];
    var needs := QuotaNeeds(cfg.quotas[..n]);
    assert (needs + [NeedQuota(cfg.quotas[n])])[..|needs|] == needs;
    JudgedKeepsFacts(w, cfg, needs, s);
  }

  lemma {:induction false} AllQuotas(w: World, cfg: Config, s: State)
    ensures AfterQuotas(w, cfg, |cfg.quotas|, JudgedBy(w, cfg, ModelNeeds(cfg.models), s))
            == Measured(w, cfg, JudgedBy(w, cfg, LateNeeds(cfg), s))
  {
    hide Meets, Judged;
    assert cfg.quotas[..|cfg.quotas|] == cfg.quotas;
    JudgedInTurn(w, cfg, ModelNeeds(cfg.models), QuotaNeeds(cfg.quotas), s);
    JudgedKeepsFacts(w, cfg, ModelNeeds(cfg.models), s);
    JudgedKeepsFacts(w, cfg, LateNeeds(cfg), s);
  }

  method GateOneModel(w: World, cfg: Config, survivors: seq<Region>, spec: ModelSpec)
    requires DistinctRegions(survivors)
    modifies survivors
    ensures forall r | r in survivors :: r.Snapshot() == Judged(w, cfg, NeedModel(spec), old(r.Snapshot()))
  {
    for i := 0 to |survivors|
      invariant forall k | 0 <= k < i ::
                survivors[k].Snapshot() == Judged(w, cfg, NeedModel(spec), old(survivors[k].Snapshot()))
      invariant forall k | i <= k < |survivors| :: survivors[k].Snapshot() == old(survivors[k].Snapshot())
    {
      var r := survivors[i];
      if !Eliminated(r.gates) {
        var matches := exists m :: m in ModelsOf(w, r.facts) && Offers(m, spec);
        r.Record(ModelGate(spec.id), matches);
      }
    }
  }

  method GateOneQuota(w: World, cfg: Config, survivors: seq<Region>, spec: QuotaSpec)
    requires DistinctRegions(survivors)
    modifies survivors
    ensures forall r | r in survivors :: r.Snapshot() == QuotaStep(w, cfg, spec, old(r.Snapshot()))
  {
    for i := 0 to |survivors|
      invariant forall k | 0 <= k < i ::
                survivors[k].Snapshot() == QuotaStep(w, cfg, spec, old(survivors[k].Snapshot()))
      invariant forall k | i <= k < |survivors| :: survivors[k].Snapshot() == old(survivors[k].Snapshot())
    {
      var r := survivors[i];
      var headroom := Headroom(UsageOf(w, r.facts), spec);
      r.headroom := r.headroom + headroom;
      if !Eliminated(r.gates) {
        r.Record(QuotaGate(spec.id), headroom >= spec.minimum);
      }
    }
  }
}
