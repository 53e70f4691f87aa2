/** The whole selection run, and what its ranking means: the plain conjunction of the
    requirements followed by one total-order sort, however many gates were applied. */
module Ranking {
  import opened Wrappers
  import opened Sorting
  import opened Regions
  import opened Requirements

  /** What the ranking looks at. */
  datatype Entry = Entry(facts: Facts, basket: Option<real>, headroom: real, distance: Option<real>)

  /** Comparison of a figure that may be missing; a missing one counts as infinite. */
  predicate NoMore(a: Option<real>, b: Option<real>) {
    b.None? || (a.Some? && a.value <= b.value)
  }

  /** Cost first, capacity second, distance third, then the name. */
  predicate RankLe(a: Entry, b: Entry) {
    if a.basket != b.basket then NoMore(a.basket, b.basket)
    else if a.headroom != b.headroom then a.headroom > b.headroom
    else if a.distance != b.distance then NoMore(a.distance, b.distance)
    else StringLe(a.facts.name, b.facts.name)
  }

  function RankOrder(): (Entry, Entry) -> bool {
    (a, b) => RankLe(a, b)
  }

  lemma {:induction false} RankIsPreorder()
    ensures TotalPreorder(RankOrder())
  {
    forall a: Entry, b: Entry
      ensures RankLe(a, b) || RankLe(b, a)
    {
      StringLeTotal(a.facts.name, b.facts.name);
    }
    forall a: Entry, b: Entry, c: Entry | RankLe(a, b) && RankLe(b, c)
      ensures RankLe(a, c)
    {
      if StringLe(a.facts.name, b.facts.name) && StringLe(b.facts.name, c.facts.name) {
        StringLeTransitive(a.facts.name, b.facts.name, c.facts.name);
      }
    }
  }

  // ------------------------------------------------------------------ the run, on values

  function EntryOf(s: State): Entry {
    Entry(s.facts, s.basket, s.headroom, s.distance)
  }

  function Priced(w: World, s: State): State {
    if Eliminated(s.gates) then s
    else s.(basket := w.basket(s.facts.name), gates := s.gates + [GateResult(CostBasket, true)])
  }

  /** A region after the metadata gates. */
  function Screened(w: World, cfg: Config, f: Facts): State {
    Located(w, cfg, JudgedBy(w, cfg, EarlyNeeds(cfg), Fresh(f)))
  }

  /** A region at the end of the run. */
  function Final(w: World, cfg: Config, f: Facts): State {
    Priced(w, Probed(w, cfg, Screened(w, cfg, f)))
  }

  function Finals(w: World, cfg: Config, universe: seq<Facts>): seq<State> {
    if universe == [] then []
    else Finals(w, cfg, universe[..|universe| - 1]) + [Final(w, cfg, universe[|universe| - 1])]
  }

  /** Candidate regions, when the configuration restricts them. */
  function Universe(w: World, cfg: Config, discovered: seq<Facts>): seq<Facts> {
    if cfg.candidates == {} || discovered == [] then discovered
    else if Lowered(w, discovered[0].name, cfg.candidates) then [discovered[0]] + Universe(w, cfg, discovered[1..])
    else Universe(w, cfg, discovered[1..])
  }

  /** The entry a qualifying region is ranked by. */
  function Offer(w: World, cfg: Config, f: Facts): Entry {
    Entry(f, w.basket(f.name), TotalHeadroom(UsageOf(w, f), cfg.quotas),
          if cfg.latency.Some? then Some(w.distance(f)) else None)
  }

  ghost function Shortlist(w: World, cfg: Config, universe: seq<Facts>): seq<Entry> {
    if universe == [] then []
    else
      var front := Shortlist(w, cfg, universe[..|universe| - 1]);
      var f := universe[|universe| - 1];
      if Qualifies(w, cfg, f) then front + [Offer(w, cfg, f)] else front
  }

  /** The reference ranking: filter by the conjunction, then sort once. */
  ghost function Ranked(w: World, cfg: Config, universe: seq<Facts>): seq<Entry> {
    Sort(Shortlist(w, cfg, universe), RankOrder())
  }

  lemma {:induction false} JudgedLocated(w: World, cfg: Config, needs: seq<Requirement>, s: State)
    ensures JudgedBy(w, cfg, needs, Located(w, cfg, s)) == Located(w, cfg, JudgedBy(w, cfg, needs, s))
    decreases |needs|
  {
    hide Meets;
    JudgedKeepsFacts(w, cfg, needs, s);
    if needs != [] {
      JudgedLocated(w, cfg, needs[..|needs| - 1], s);
      JudgedKeepsFacts(w, cfg, needs[..|needs| - 1], s);
    }
  }

  lemma {:induction false} JudgedEliminated(w: World, cfg: Config, needs: seq<Requirement>, s: State)
    requires Eliminated(s.gates)
    ensures JudgedBy(w, cfg, needs, s) == s
    decreases |needs|
  {
    if needs != [] {
      JudgedEliminated(w, cfg, needs[..|needs| - 1], s);
    }
  }

  /** Running the gates in two batches records what running every requirement in turn records. */
  lemma {:induction false} ProbedGates(w: World, cfg: Config, f: Facts)
    ensures Probed(w, cfg, Screened(w, cfg, f)).gates == JudgedBy(w, cfg, Needs(cfg), Fresh(f)).gates
    ensures Probed(w, cfg, Screened(w, cfg, f)).facts == f
    ensures !Eliminated(Probed(w, cfg, Screened(w, cfg, f)).gates) ==>
              EntryOf(Priced(w, Probed(w, cfg, Screened(w, cfg, f)))) == Offer(w, cfg, f)
  {
    hide Meets, EarlyNeeds, LateNeeds;
    var early, late := EarlyNeeds(cfg), LateNeeds(cfg);
    var screened := JudgedBy(w, cfg, early, Fresh(f));
    JudgedInTurn(w, cfg, early, late, Fresh(f));
    JudgedKeepsFacts(w, cfg, early, Fresh(f));
    JudgedKeepsFacts(w, cfg, late, screened);
    JudgedLocated(w, cfg, late, screened);
    if Eliminated(screened.gates) {
      JudgedEliminated(w, cfg, late, screened);
    } else {
      JudgedKeepsFacts(w, cfg, late, Located(w, cfg, screened));
    }
  }

  /** Main result on elimination: a region survives exactly when it meets every requirement;
      otherwise it has exactly one failing gate, the last it was put through, and that gate
      belongs to a requirement it does not meet. */
  lemma {:induction false} EliminationIsTheConjunction(w: World, cfg: Config, f: Facts)
    ensures var gates := Final(w, cfg, f).gates;
            && (Eliminated(gates) <==> !Qualifies(w, cfg, f))
            && (Eliminated(gates) ==>
                  && !gates[|gates| - 1].passed
                  && (forall i | 0 <= i < |gates| - 1 :: gates[i].passed)
                  && exists req ::
                    req in Needs(cfg) && GateOf(req) == gates[|gates| - 1].gate && !Meets(w, cfg, req, f))
  {
    hide Meets, Needs, GateOf;
    ProbedGates(w, cfg, f);
    JudgedOutcome(w, cfg, Needs(cfg), Fresh(f));
    hide JudgedBy, Probed, Screened;
    var gates := Probed(w, cfg, Screened(w, cfg, f)).gates;
    if !Eliminated(gates) {
      var more := gates + [GateResult(CostBasket, true)];
      assert forall i | 0 <= i < |more| :: more[i].passed;
    }
  }

  // --------------------------------------------------------------------- ranking as code

  method Rank(w: World, regions: seq<Region>) returns (r: Result<seq<Entry>, Failure>)
    requires DistinctRegions(regions)
    modifies regions
    ensures forall k | 0 <= k < |regions| :: regions[k].Snapshot() == Priced(w, old(regions[k].Snapshot()))
    ensures var entries := EntriesOf(w, old(Snapshots(regions)));
            r == if entries != [] && forall i :: 0 <= i < |entries| ==> entries[i].basket.None? then Err(NothingPriced)
                 else Ok(Sort(entries, RankOrder()))
  {
    hide RankOrder, Sort;
    ghost var before := Snapshots(regions);
    SnapshotsAt(regions);
    hide Snapshots;
    var entries: seq<Entry> := [];
    for i := 0 to |regions|
      invariant forall k | 0 <= k < i :: regions[k].Snapshot() == Priced(w, old(regions[k].Snapshot()))
      invariant forall k | i <= k < |regions| :: regions[k].Snapshot() == old(regions[k].Snapshot())
      invariant entries == EntriesOf(w, before[..i])
    {
      var region := regions[i];
      assert before[..i + 1][..i] == before[..i] && before[i] == old(regions[i].Snapshot());
      if !Eliminated(region.gates) {
        region.basket := w.basket(region.facts.name);
        region.Record(CostBasket, true);
        entries := entries + [EntryOf(region.Snapshot())];
      }
    }
    assert before[..|regions|] == before;
    if entries != [] && forall i :: 0 <= i < |entries| ==> entries[i].basket.None? {
      return Err(NothingPriced);
    }
    return Ok(Sort(entries, RankOrder()));
  }

  function Snapshots(regions: seq<Region>): seq<State>
    reads regions
  {
    if regions == [] then [] else Snapshots(regions[..|regions| - 1]) + [regions[|regions| - 1].Snapshot()]
  }

  lemma {:induction false} SnapshotsAt(regions: seq<Region>)
    ensures |Snapshots(regions)| == |regions|
    ensures forall i | 0 <= i < |regions| :: Snapshots(regions)[i] == regions[i].Snapshot()
  {
    if regions != [] {
      SnapshotsAt(regions[..|regions| - 1]);
    }
  }

  /** The ranking entries of the states no gate has eliminated. */
  function EntriesOf(w: World, states: seq<State>): seq<Entry> {
    if states == [] then []
    else
      var front := EntriesOf(w, states[..|states| - 1]);
      var s := states[|states| - 1];
      if Eliminated(s.gates) then front else front + [EntryOf(Priced(w, s))]
  }

  datatype Selection = Selection(regions: seq<State>, ranked: seq<Entry>)

  /** The metadata gates, applied to every region. */
  method Screen(w: World, cfg: Config, regions: seq<Region>) returns (ok: bool)
    requires DistinctRegions(regions)
    requires forall k | 0 <= k < |regions| :: regions[k].Snapshot() == Fresh(regions[k].facts)
    modifies regions
    ensures ok <==> Documented(w, cfg.capabilities)
    ensures ok ==> forall k | 0 <= k < |regions| :: regions[k].Snapshot() == Screened(w, cfg, regions[k].facts)
  {
    hide Meets, JudgedBy, Located, Screened, Judged, Documented;
    GateResidency(w, cfg, regions);
    GateReliability(w, cfg, regions);
    GateLatency(w, cfg, regions);
    GateResourceTypes(w, cfg, regions);
    ok := GateCapabilities(w, cfg, regions);
    if ok {
      forall k | 0 <= k < |regions|
        ensures regions[k].Snapshot() == Screened(w, cfg, regions[k].facts)
      {
        ScreenedInTurn(w, cfg, regions[k].facts);
      }
    }
  }

  lemma {:induction false} ScreenedInTurn(w: World, cfg: Config, f: Facts)
    ensures var two := Judged(w, cfg, NeedReliability, Judged(w, cfg, NeedResidency, Fresh(f)));
            Screened(w, cfg, f) ==
            JudgedBy(w, cfg, CapabilityNeeds(cfg.capabilities),
              JudgedBy(w, cfg, TypeNeeds(cfg.types), JudgedBy(w, cfg, LatencyNeeds(cfg), Located(w, cfg, two))))
  {
    var a, b, c, d := [NeedResidency] + [NeedReliability], LatencyNeeds(cfg), TypeNeeds(cfg.types),
      CapabilityNeeds(cfg.capabilities);
    JudgedByOne(w, cfg, NeedResidency, Fresh(f));
    JudgedByOne(w, cfg, NeedReliability, Judged(w, cfg, NeedResidency, Fresh(f)));
    JudgedInTurn(w, cfg, [NeedResidency], [NeedReliability], Fresh(f));
    hide Judged, JudgedBy;
    var two := JudgedBy(w, cfg, a, Fresh(f));
    JudgedLocated(w, cfg, b + c + d, two);
    JudgedInTurn(w, cfg, b + c, d, Located(w, cfg, two));
    JudgedInTurn(w, cfg, b, c, Located(w, cfg, two));
    JudgedInTurn(w, cfg, a, b + c + d, Fresh(f));
    assert a + (b + c + d) == EarlyNeeds(cfg);
  }

  ghost predicate Unprobed(w: World, cfg: Config, universe: seq<Facts>) {
    exists k :: 0 <= k < |universe| && !Eliminated(Screened(w, cfg, universe[k]).gates) && !Reachable(w, universe[k])
  }

  ghost predicate Unpriced(ranked: seq<Entry>) {
    ranked != [] && forall e :: e in ranked ==> e.basket.None?
  }

  /** What a full run must return. The failures, in order: an undocumented capability, a
      survivor of the metadata gates that a probe could not read, and survivors none of which
      has a price. Otherwise the ranking is the reference ranking. */
  ghost function Outcome(w: World, cfg: Config, universe: seq<Facts>): Result<Selection, Failure> {
    if !Documented(w, cfg.capabilities) then Err(MissingCapability)
    else if Unprobed(w, cfg, universe) then Err(ProbeFailed)
    else if Unpriced(Ranked(w, cfg, universe)) then Err(NothingPriced)
    else Ok(Selection(Finals(w, cfg, universe), Ranked(w, cfg, universe)))
  }

  /** A full run, gate by gate over the mutable regions, refines the reference. */
  method Select(w: World, cfg: Config, discovered: seq<Facts>) returns (r: Result<Selection, Failure>)
    ensures r == Outcome(w, cfg, Universe(w, cfg, discovered))
  {
    hide Meets, JudgedBy, Screened, Probed, Priced, Ranked, Reachable, Documented, Lowered, Shortlist;
    var universe := Universe(w, cfg, discovered);
    var regions := CreateRegions(universe);
    var documented := Screen(w, cfg, regions);
    if !documented {
      return Err(MissingCapability);
    }
    var probed := GateModelsAndQuota(w, cfg, regions);
    if !probed {
      ghost var k :| 0 <= k < |regions| && !Eliminated(regions[k].gates) && !Reachable(w, regions[k].facts);
      assert regions[k].facts == universe[k] && Unprobed(w, cfg, universe);
      return Err(ProbeFailed);
    }
    r := RankProbed(w, cfg, universe, regions);
  }

  /** The ranking step, on regions that have been through every gate. */
  method RankProbed(w: World, cfg: Config, universe: seq<Facts>, regions: seq<Region>)
    returns (r: Result<Selection, Failure>)
    requires DistinctRegions(regions) && |regions| == |universe|
    requires forall k | 0 <= k < |regions| :: regions[k].Snapshot() == Probed(w, cfg, Screened(w, cfg, universe[k]))
    modifies regions
    ensures r == if Unpriced(Ranked(w, cfg, universe)) then Err(NothingPriced)
                 else Ok(Selection(Finals(w, cfg, universe), Ranked(w, cfg, universe)))
  {
    hide Meets, JudgedBy, Screened, Probed, Priced, Ranked, Shortlist;
    ghost var states := Snapshots(regions);
    SnapshotsAt(regions);
    assert forall k | 0 <= k < |universe| :: states[k] == Probed(w, cfg, Screened(w, cfg, universe[k]));
    EntriesAreShortlist(w, cfg, universe, states);
    var ranked := Rank(w, regions);
    RankedUnpriced(w, cfg, universe);
    if ranked.Err? {
      return Err(NothingPriced);
    }
    SnapshotsAt(regions);
    assert forall k | 0 <= k < |universe| :: Snapshots(regions)[k] == Priced(w, states[k]);
    FinalsAt(w, cfg, universe, Snapshots(regions));
    RankedMeans(w, cfg, universe);
    return Ok(Selection(Snapshots(regions), ranked.value));
  }

  method CreateRegions(universe: seq<Facts>) returns (regions: seq<Region>)
    ensures |regions| == |universe| && DistinctRegions(regions)
    ensures forall k | 0 <= k < |regions| ::
            fresh(regions[k]) && regions[k].facts == universe[k] && regions[k].Snapshot() == Fresh(universe[k])
  {
    regions := [];
    for i := 0 to |universe|
      invariant |regions| == i && DistinctRegions(regions)
      invariant forall k | 0 <= k < i ::
                fresh(regions[k]) && regions[k].facts == universe[k] && regions[k].Snapshot() == Fresh(universe[k])
    {
      var region := new Region(universe[i]);
      regions := regions + [region];
    }
  }

  lemma {:induction false} RankedMeans(w: World, cfg: Config, universe: seq<Facts>)
    ensures Ranked(w, cfg, universe) == Sort(Shortlist(w, cfg, universe), RankOrder())
  {
  }

  lemma {:induction false} RankedUnpriced(w: World, cfg: Config, universe: seq<Facts>)
    ensures var offers := Shortlist(w, cfg, universe);
            Unpriced(Ranked(w, cfg, universe)) <==>
              offers != [] && forall i :: 0 <= i < |offers| ==> offers[i].basket.None?
  {
    hide Shortlist;
    SortMultiset(Shortlist(w, cfg, universe), RankOrder());
    SortMembers(Shortlist(w, cfg, universe), RankOrder());
  }

  lemma {:induction false} EntriesAreShortlist(w: World, cfg: Config, universe: seq<Facts>, states: seq<State>)
    requires |states| == |universe|
    requires forall k | 0 <= k < |universe| :: states[k] == Probed(w, cfg, Screened(w, cfg, universe[k]))
    ensures EntriesOf(w, states) == Shortlist(w, cfg, universe)
  {
    hide Meets, Probed, Screened, Priced;
    if universe != [] {
      var n := |universe| - 1;
      EntriesAreShortlist(w, cfg, universe[..n], states[..n]);
      ProbedGates(w, cfg, universe[n]);
      JudgedOutcome(w, cfg, Needs(cfg), Fresh(universe[n]));
    }
  }

  lemma {:induction false} FinalsAt(w: World, cfg: Config, universe: seq<Facts>, states: seq<State>)
    requires |states| == |universe|
    requires forall k | 0 <= k < |universe| :: states[k] == Final(w, cfg, universe[k])
    ensures states == Finals(w, cfg, universe)
  {
    hide Final;
    if universe != [] {
      var n := |universe| - 1;
      FinalsAt(w, cfg, universe[..n], states[..n]);
      assert states == states[..n] + [states[n]];
    }
  }

  // -------------------------------------------------------------- what the ranking means

  /** Unpriced regions are last, and the first entry is no worse than any other. */
  lemma {:induction false} UnpricedLast(w: World, cfg: Config, universe: seq<Facts>, i: nat, j: nat)
    requires i < j < |Ranked(w, cfg, universe)|
    ensures RankLe(Ranked(w, cfg, universe)[i], Ranked(w, cfg, universe)[j])
    ensures Ranked(w, cfg, universe)[i].basket.None? ==> Ranked(w, cfg, universe)[j].basket.None?
  {
    hide Shortlist;
    RankIsPreorder();
    SortSorted(Shortlist(w, cfg, universe), RankOrder());
    var ranked := Ranked(w, cfg, universe);
    assert RankOrder()(ranked[i], ranked[j]);
  }

  /** The regions considered: those discovered, less any the configuration does not name. */
  lemma {:induction false} UniverseMeans(w: World, cfg: Config, discovered: seq<Facts>, f: Facts)
    ensures f in Universe(w, cfg, discovered) <==>
              f in discovered && (cfg.candidates == {} || Listed(w, f.name, cfg.candidates))
  {
    hide Lowered, Listed;
    if discovered != [] {
      UniverseMeans(w, cfg, discovered[1..], f);
      LoweredIsListed(w, discovered[0].name, cfg.candidates);
      assert discovered == [discovered[0]] + discovered[1..];
    }
  }

  /** Main result on the order, by the figures themselves: a priced region comes before the dearer
      and the unpriced; at one price more headroom comes first; then the nearer, with an unknown
      distance last; and then the name. */
  lemma {:induction false} RankedByFigures(w: World, cfg: Config, universe: seq<Facts>, i: nat, j: nat)
    requires i < j < |Ranked(w, cfg, universe)|
    ensures var a, b := Ranked(w, cfg, universe)[i], Ranked(w, cfg, universe)[j];
            && (b.basket.Some? ==> a.basket.Some? && a.basket.value <= b.basket.value)
            && (a.basket == b.basket ==> a.headroom >= b.headroom)
            && (a.basket == b.basket && a.headroom == b.headroom ==>
                  b.distance.Some? ==> a.distance.Some? && a.distance.value <= b.distance.value)
            && (a.basket == b.basket && a.headroom == b.headroom && a.distance == b.distance ==>
                  Precedes(a.facts.name, b.facts.name))
  {
    hide Shortlist, StringLe, Precedes;
    var ranked := Ranked(w, cfg, universe);
    RankIsPreorder();
    SortSorted(Shortlist(w, cfg, universe), RankOrder());
    assert RankOrder()(ranked[i], ranked[j]);
    StringLeIsLexicographic(ranked[i].facts.name, ranked[j].facts.name);
  }

  lemma {:induction false} ShortlistMembers(w: World, cfg: Config, universe: seq<Facts>, e: Entry)
    ensures e in Shortlist(w, cfg, universe) <==>
              exists f :: f in universe && Qualifies(w, cfg, f) && e == Offer(w, cfg, f)
  {
    hide Qualifies, Offer;
    if universe != [] {
      ShortlistMembers(w, cfg, universe[..|universe| - 1], e);
      assert universe == universe[..|universe| - 1] + [universe[|universe| - 1]];
    }
  }

  /** And what is ranked: the regions that qualify, each with its own price, distance and headroom. */
  lemma {:induction false} RankedEntriesAre(w: World, cfg: Config, universe: seq<Facts>, e: Entry)
    ensures e in Ranked(w, cfg, universe) <==>
              && e.facts in universe && Qualifies(w, cfg, e.facts)
              && e.basket == w.basket(e.facts.name) && e.headroom == TotalHeadroom(UsageOf(w, e.facts), cfg.quotas)
              && (cfg.latency.Some? ==> e.distance == Some(w.distance(e.facts)))
              && (cfg.latency.None? ==> e.distance == None)
  {
    hide Qualifies, Shortlist, TotalHeadroom, Sort;
    ShortlistMembers(w, cfg, universe, e);
    SortMembers(Shortlist(w, cfg, universe), RankOrder());
    if f :| f in universe && Qualifies(w, cfg, f) && e == Offer(w, cfg, f) {
      assert e.facts == f;
    }
    assert (exists f :: f in universe && Qualifies(w, cfg, f) && e == Offer(w, cfg, f)) <==>
             e.facts in universe && Qualifies(w, cfg, e.facts) && e == Offer(w, cfg, e.facts);
  }

  // -------------------------------------------------------------------- how a run fails

  /** A configuration less what takes a probe to tell. */
  function Metadata(cfg: Config): Config {
    cfg.(models := [], quotas := [])
  }

  lemma {:induction false} ScreenedMeans(w: World, cfg: Config, f: Facts)
    ensures !Eliminated(Screened(w, cfg, f).gates) <==> Suitable(w, Metadata(cfg), f)
  {
    JudgedOutcome(w, cfg, EarlyNeeds(cfg), Fresh(f));
    QualifyingMeans(w, Metadata(cfg), f);
    assert EarlyNeeds(Metadata(cfg)) == EarlyNeeds(cfg) && LateNeeds(Metadata(cfg)) == [];
    assert Needs(Metadata(cfg)) == EarlyNeeds(cfg);
    hide JudgedBy, Suitable, EarlyNeeds, Allowed, Excluded, Lowered;
    forall req: Requirement
      ensures Meets(w, Metadata(cfg), req, f) == Meets(w, cfg, req, f)
    {
    }
  }

  ghost predicate Undocumented(w: World, cfg: Config) {
    exists id :: id in cfg.capabilities &&
      (id !in w.matrix || exists source :: w.matrix[id].derivesFrom == Some(source) && source !in w.matrix)
  }

  /** Some region meets everything else, and a probe of it failed. */
  ghost predicate ProbeMissing(w: World, cfg: Config, universe: seq<Facts>) {
    exists f :: f in universe && Suitable(w, Metadata(cfg), f) && (w.models(f.name).None? || w.usage(f.name).None?)
  }

  lemma {:induction false} UnprobedMeans(w: World, cfg: Config, universe: seq<Facts>)
    ensures Unprobed(w, cfg, universe) <==> ProbeMissing(w, cfg, universe)
  {
    hide Screened, Suitable;
    forall f: Facts
      ensures !Eliminated(Screened(w, cfg, f).gates) <==> Suitable(w, Metadata(cfg), f)
    {
      ScreenedMeans(w, cfg, f);
    }
    if f :| f in universe && Suitable(w, Metadata(cfg), f) && (w.models(f.name).None? || w.usage(f.name).None?) {
      var k :| 0 <= k < |universe| && universe[k] == f;
    }
  }

  lemma {:induction false} UnpricedMeans(w: World, cfg: Config, universe: seq<Facts>)
    ensures Unpriced(Ranked(w, cfg, universe)) <==>
              && (exists f :: f in universe && Qualifies(w, cfg, f))
              && (forall f :: f in universe && Qualifies(w, cfg, f) ==> w.basket(f.name).None?)
  {
    hide Ranked, Qualifies, Offer;
    var ranked := Ranked(w, cfg, universe);
    forall f | f in universe && Qualifies(w, cfg, f)
      ensures Offer(w, cfg, f) in ranked && Offer(w, cfg, f).basket == w.basket(f.name)
    {
      OfferIsRanked(w, cfg, universe, f);
      OfferBasket(w, cfg, f);
    }
    forall e | e in ranked
      ensures e.facts in universe && Qualifies(w, cfg, e.facts) && e.basket == w.basket(e.facts.name)
    {
      RankedEntriesAre(w, cfg, universe, e);
    }
    if ranked != [] {
      assert ranked[0] in ranked;
    }
  }

  lemma {:induction false} OfferBasket(w: World, cfg: Config, f: Facts)
    ensures Offer(w, cfg, f).basket == w.basket(f.name)
  {
  }

  /** How a run fails, and that it fails in no other way: a capability asked for, or its source, is
      not documented; a region that meets everything the metadata can tell could not be probed; or
      regions qualify and none of them has a price. */
  lemma {:induction false} FailuresMean(w: World, cfg: Config, universe: seq<Facts>)
    ensures var r := Outcome(w, cfg, universe);
            && (r == Err(MissingCapability) <==> Undocumented(w, cfg))
            && (r == Err(ProbeFailed) <==> !Undocumented(w, cfg) && ProbeMissing(w, cfg, universe))
            && (r == Err(NothingPriced) <==>
                  && !Undocumented(w, cfg) && !ProbeMissing(w, cfg, universe)
                  && (exists f :: f in universe && Qualifies(w, cfg, f))
                  && (forall f :: f in universe && Qualifies(w, cfg, f) ==> w.basket(f.name).None?))
            && (r.Ok? ==> r.value.ranked == Ranked(w, cfg, universe))
  {
    UnprobedMeans(w, cfg, universe);
    UnpricedMeans(w, cfg, universe);
    hide Unprobed, ProbeMissing, Unpriced, Ranked, Qualifies, Finals;
  }

  /** The winner of a run is a qualifying region that no qualifying one undercuts. */
  lemma {:induction false} WinnerIsCheapest(w: World, cfg: Config, universe: seq<Facts>, f: Facts)
    requires Ranked(w, cfg, universe) != [] && f in universe && Qualifies(w, cfg, f)
    ensures var winner := Ranked(w, cfg, universe)[0];
            && winner.facts in universe && Qualifies(w, cfg, winner.facts)
            && (w.basket(f.name).Some? ==> winner.basket.Some? && winner.basket.value <= w.basket(f.name).value)
  {
    hide Qualifies, Ranked, Offer;
    var ranked := Ranked(w, cfg, universe);
    RankedEntriesAre(w, cfg, universe, ranked[0]);
    OfferIsRanked(w, cfg, universe, f);
    var j :| 0 <= j < |ranked| && ranked[j] == Offer(w, cfg, f);
    if j > 0 {
      RankedByFigures(w, cfg, universe, 0, j);
    }
  }

  lemma {:induction false} OfferIsRanked(w: World, cfg: Config, universe: seq<Facts>, f: Facts)
    requires f in universe && Qualifies(w, cfg, f)
    ensures Offer(w, cfg, f) in Ranked(w, cfg, universe) && Offer(w, cfg, f).basket == w.basket(f.name)
  {
    hide Qualifies, Ranked;
    RankedEntriesAre(w, cfg, universe, Offer(w, cfg, f));
  }

  lemma {:induction false} ExtendedKeeps(cfg: Config, requested: seq<string>)
    requires forall m :: m in requested ==> m in cfg.modules
    ensures var ext := Extend(cfg, requested);
            && ext == cfg.(types := ext.types, capabilities := ext.capabilities)
            && (forall t :: t in cfg.types ==> t in ext.types)
            && (forall c :: c in cfg.capabilities ==> c in ext.capabilities)
    decreases requested
  {
    if requested != [] {
      var m := cfg.modules[requested[0]];
      var next := cfg.(types := cfg.types + m.types, capabilities := cfg.capabilities + m.capabilities);
      ExtendedKeeps(next, requested[1..]);
    }
  }

  /** Enabling modules only adds requirements: what qualifies after, qualified before, with the same offer. */
  lemma {:induction false} EnablingOnlyNarrows(w: World, cfg: Config, requested: seq<string>, f: Facts)
    requires Enable(cfg, requested).Ok?
    ensures Qualifies(w, Enable(cfg, requested).value, f) ==> Qualifies(w, cfg, f)
    ensures Offer(w, Enable(cfg, requested).value, f) == Offer(w, cfg, f)
  {
    hide TypeNeeds, CapabilityNeeds, ModelNeeds, QuotaNeeds;
    var ext := Extend(cfg, requested);
    ExtendedKeeps(cfg, requested);
    if Qualifies(w, ext, f) {
      forall req | req in Needs(cfg)
        ensures Meets(w, cfg, req, f)
      {
        TypeNeedsMembers(cfg.types, req);
        TypeNeedsMembers(ext.types, req);
        CapabilityNeedsMembers(cfg.capabilities, req);
        CapabilityNeedsMembers(ext.capabilities, req);
        assert req in Needs(ext);
        assert Meets(w, ext, req, f);
      }
    }
  }

  lemma {:induction false} ShortlistNarrows(w: World, cfg: Config, ext: Config, universe: seq<Facts>)
    requires forall f :: (Qualifies(w, ext, f) ==> Qualifies(w, cfg, f)) && Offer(w, ext, f) == Offer(w, cfg, f)
    ensures Shortlist(w, ext, universe) == Filter(Shortlist(w, cfg, universe), (e: Entry) => Qualifies(w, ext, e.facts))
  {
    hide Qualifies, Offer;
    if universe != [] {
      var n := |universe| - 1;
      var f := universe[n];
      ShortlistNarrows(w, cfg, ext, universe[..n]);
      OfferFacts(w, cfg, f);
      if Qualifies(w, cfg, f) {
        FilterAppend(Shortlist(w, cfg, universe[..n]), Offer(w, cfg, f), (e: Entry) => Qualifies(w, ext, e.facts));
      }
    }
  }

  lemma {:induction false} OfferFacts(w: World, cfg: Config, f: Facts)
    ensures Offer(w, cfg, f).facts == f
  {
  }

  /** Main result on modules: the ranking with optional modules enabled is the base ranking
      with the regions that fail an added requirement struck out, in the same order. */
  lemma {:induction false} EnablingStrikesFromTheRanking(w: World, cfg: Config, requested: seq<string>,
                                                         universe: seq<Facts>)
    requires Enable(cfg, requested).Ok?
    ensures Ranked(w, Enable(cfg, requested).value, universe)
         == Filter(Ranked(w, cfg, universe), (e: Entry) => Qualifies(w, Enable(cfg, requested).value, e.facts))
  {
    hide Qualifies, Shortlist, Offer, Enable;
    var ext := Enable(cfg, requested).value;
    forall f
      ensures (Qualifies(w, ext, f) ==> Qualifies(w, cfg, f)) && Offer(w, ext, f) == Offer(w, cfg, f)
    {
      EnablingOnlyNarrows(w, cfg, requested, f);
    }
    ShortlistNarrows(w, cfg, ext, universe);
    RankIsPreorder();
    FilterSort(Shortlist(w, cfg, universe), RankOrder(), (e: Entry) => Qualifies(w, ext, e.facts));
  }

  // -------------------------------------------------------------------- published counts

  function EliminatedBy(gates: seq<GateResult>): seq<Gate> {
    if gates == [] then []
    else EliminatedBy(gates[..|gates| - 1]) + (if gates[|gates| - 1].passed then [] else [gates[|gates| - 1].gate])
  }

  function CountFor(counts: map<Gate, nat>, gate: Gate): nat {
    if gate in counts then counts[gate] else 0
  }

  function SumCounts(counts: map<Gate, nat>, order: seq<Gate>): nat {
    if order == [] then 0 else SumCounts(counts, order[..|order| - 1]) + CountFor(counts, order[|order| - 1])
  }

  ghost predicate Tallied(counts: map<Gate, nat>, order: seq<Gate>) {
    && (forall g :: g in order <==> g in counts)
    && (forall i, j | 0 <= i < j < |order| :: order[i] != order[j])
  }

  lemma {:induction false} SumBump(counts: map<Gate, nat>, order: seq<Gate>, gate: Gate)
    requires forall i, j | 0 <= i < j < |order| :: order[i] != order[j]
    ensures SumCounts(counts[gate := CountFor(counts, gate) + 1], order)
         == SumCounts(counts, order) + if gate in order then 1 else 0
  {
    if order != [] {
      var n := |order| - 1;
      SumBump(counts, order[..n], gate);
      assert order == order[..n] + [order[n]];
    }
  }

  function RemovedBy(states: seq<State>, gate: Gate): nat {
    if states == [] then 0
    else RemovedBy(states[..|states| - 1], gate) + multiset(EliminatedBy(states[|states| - 1].gates))[gate]
  }

  /** The tally behind the published table: how many regions each gate removed. */
  method CountRemovals(states: seq<State>) returns (counts: map<Gate, nat>, order: seq<Gate>)
    ensures Tallied(counts, order)
    ensures forall g :: CountFor(counts, g) == RemovedBy(states, g)
    ensures SumCounts(counts, order) == TotalRemovals(states)
  {
    hide EliminatedBy;
    counts, order := map[], [];
    for i := 0 to |states|
      invariant Tallied(counts, order)
      invariant forall g :: CountFor(counts, g) == RemovedBy(states[..i], g)
      invariant SumCounts(counts, order) == TotalRemovals(states[..i])
    {
      assert states[..i + 1][..i] == states[..i];
      counts, order := AddRemovals(EliminatedBy(states[i].gates), counts, order);
    }
    assert states[..|states|] == states;
  }

  function Bumped(counts: map<Gate, nat>, gate: Gate): map<Gate, nat> {
    counts[gate := CountFor(counts, gate) + 1]
  }

  method AddRemovals(gates: seq<Gate>, counts0: map<Gate, nat>, order0: seq<Gate>)
    returns (counts: map<Gate, nat>, order: seq<Gate>)
    requires Tallied(counts0, order0)
    ensures Tallied(counts, order)
    ensures forall g :: CountFor(counts, g) == CountFor(counts0, g) + multiset(gates)[g]
    ensures SumCounts(counts, order) == SumCounts(counts0, order0) + |gates|
  {
    hide Tallied, CountFor, SumCounts, Bumped;
    counts, order := counts0, order0;
    for j := 0 to |gates|
      invariant Tallied(counts, order)
      invariant forall g :: CountFor(counts, g) == CountFor(counts0, g) + multiset(gates[..j])[g]
      invariant SumCounts(counts, order) == SumCounts(counts0, order0) + j
    {
      assert gates[..j + 1] == gates[..j] + [gates[j]];
      TallyOne(counts, order, gates[j]);
      order := if gates[j] in counts then order else order + [gates[j]];
      counts := Bumped(counts, gates[j]);
    }
    assert gates[..|gates|] == gates;
  }

  lemma {:induction false} TallyOne(counts: map<Gate, nat>, order: seq<Gate>, gate: Gate)
    requires Tallied(counts, order)
    ensures var after := if gate in counts then order else order + [gate];
            Tallied(Bumped(counts, gate), after) && SumCounts(Bumped(counts, gate), after)
              == SumCounts(counts, order) + 1
    ensures forall g :: CountFor(Bumped(counts, gate), g) == CountFor(counts, g) + if g == gate then 1 else 0
  {
    hide SumCounts;
    TalliedAfter(counts, order, gate);
    SumBump(counts, order, gate);
    if gate !in counts {
      SumSnoc(Bumped(counts, gate), order, gate);
    }
  }

  lemma {:induction false} TalliedAfter(counts: map<Gate, nat>, order: seq<Gate>, gate: Gate)
    requires Tallied(counts, order)
    ensures Tallied(Bumped(counts, gate), if gate in counts then order else order + [gate])
    ensures gate in order <==> gate in counts
  {
    hide CountFor;
    if gate !in counts {
      assert gate !in order;
      var after := order + [gate];
      forall i, j | 0 <= i < j < |after|
        ensures after[i] != after[j]
      {
        assert after[i] in order;
      }
    }
  }

  lemma {:induction false} SumSnoc(counts: map<Gate, nat>, order: seq<Gate>, gate: Gate)
    ensures SumCounts(counts, order + [gate]) == SumCounts(counts, order) + CountFor(counts, gate)
  {
    assert (order + [gate])[..|order|] == order;
  }

  function TotalRemovals(states: seq<State>): nat {
    if states == [] then 0
    else TotalRemovals(states[..|states| - 1]) + |EliminatedBy(states[|states| - 1].gates)|
  }

  lemma {:induction false} OneRemoval(gates: seq<GateResult>)
    ensures (forall i | 0 <= i < |gates| :: gates[i].passed) ==> EliminatedBy(gates) == []
    ensures gates != [] && !gates[|gates| - 1].passed && (forall i | 0 <= i < |gates| - 1 :: gates[i].passed) ==>
            |EliminatedBy(gates)| == 1
  {
    if gates != [] {
      OneRemoval(gates[..|gates| - 1]);
    }
  }

  /** The per-gate removal counts published for a run add up to the regions evaluated less
      the regions that qualified. */
  lemma {:induction false} RemovalsAddUp(w: World, cfg: Config, universe: seq<Facts>)
    ensures TotalRemovals(Finals(w, cfg, universe)) == |universe| - |Ranked(w, cfg, universe)|
  {
    SortMultiset(Shortlist(w, cfg, universe), RankOrder());
    RemovalsAddUpTo(w, cfg, universe);
  }

  lemma {:induction false} RemovalsAddUpTo(w: World, cfg: Config, universe: seq<Facts>)
    ensures TotalRemovals(Finals(w, cfg, universe)) == |universe| - |Shortlist(w, cfg, universe)|
  {
    hide Final, Qualifies, Offer;
    if universe != [] {
      var n := |universe| - 1;
      RemovalsAddUpTo(w, cfg, universe[..n]);
      EliminationIsTheConjunction(w, cfg, universe[n]);
      OneRemoval(Final(w, cfg, universe[n]).gates);
      var finals := Finals(w, cfg, universe);
      assert finals[..|finals| - 1] == Finals(w, cfg, universe[..n]);
    }
  }
}
