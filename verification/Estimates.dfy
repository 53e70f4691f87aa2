/** What an estimate says of each line, told from the line and the catalogue: which rows price it,
    what it costs, and what the total is held against. */
module Estimates {
  import opened Wrappers
  import opened Sorting
  import opened CostTiers
  import opened CostReport

  // -------------------------------------------------------------------- which rows price

  /** A catalogue row the specification lets through. */
  ghost predicate Eligible(spec: MeterSpec, i: Item) {
    && (spec.nameMatches.Some? ==> spec.nameMatches.value(i.meterName))
    && (i.reserved ==> spec.reservationTerm)
  }

  lemma {:induction false} KeptAreEligible(items: seq<Item>, spec: MeterSpec)
    ensures forall i :: i in Unreserved(spec, Named(spec, items)) <==> i in items && Eligible(spec, i)
  {
    if spec.nameMatches.Some? {
      FilterMembers(items, (i: Item) => spec.nameMatches.value(i.meterName));
    }
    FilterMembers(Named(spec, items), (i: Item) => !i.reserved);
  }

  ghost predicate OneMeter(items: seq<Item>, spec: MeterSpec) {
    forall i, j :: i in items && j in items && Eligible(spec, i) && Eligible(spec, j) ==> i.meterId == j.meterId
  }

  lemma {:induction false} AmbiguousMeans(items: seq<Item>, spec: MeterSpec)
    ensures Ambiguous(Unreserved(spec, Named(spec, items))) <==> !OneMeter(items, spec)
  {
    KeptAreEligible(items, spec);
    var kept := Unreserved(spec, Named(spec, items));
    hide Named, Unreserved, Eligible;
    if i, j :| i in items && j in items && Eligible(spec, i) && Eligible(spec, j) && i.meterId != j.meterId {
      var a :| 0 <= a < |kept| && kept[a] == i;
      var b :| 0 <= b < |kept| && kept[b] == j;
    }
    if a, b :| 0 <= a < |kept| && 0 <= b < |kept| && kept[a].meterId != kept[b].meterId {
      assert kept[a] in kept && kept[b] in kept;
    }
  }

  /** No eligible row is newer. */
  ghost predicate Newest(items: seq<Item>, spec: MeterSpec, i: Item) {
    forall j :: j in items && Eligible(spec, j) ==> Precedes(j.effective, i.effective)
  }

  /** A meter resolves exactly when some row is eligible and all of those are of one meter; what it
      resolves to are the tiers of its newest eligible rows. */
  lemma {:induction false} ResolutionMeans(items: seq<Item>, spec: MeterSpec)
    ensures var r := ResolveTiers(items, spec);
            && (r.Ok? <==> OneMeter(items, spec) && exists i :: i in items && Eligible(spec, i))
            && (r == Err(AmbiguousMeter) <==> !OneMeter(items, spec))
            && (r.Ok? ==> forall t :: t in r.value <==>
                  exists i :: i in items && Eligible(spec, i) && Newest(items, spec, i) && i.tier == t)
  {
    KeptAreEligible(items, spec);
    AmbiguousMeans(items, spec);
    var kept := Unreserved(spec, Named(spec, items));
    if ResolveTiers(items, spec).Ok? {
      ResolvedTiers(items, spec);
      forall i | i in kept
        ensures i.effective == Latest(kept) <==> Newest(items, spec, i)
      {
        NewestIsLatest(items, spec, i);
      }
    }
    NamedEmpty(items, spec);
    assert kept != [] ==> kept[0] in kept;
    hide Eligible, OneMeter, Newest, Latest, StringLe, Unreserved, Named, Ambiguous;
  }

  lemma {:induction false} NamedEmpty(items: seq<Item>, spec: MeterSpec)
    ensures items == [] || Named(spec, items) == [] ==> Unreserved(spec, Named(spec, items)) == []
  {
  }

  lemma {:induction false} NewestIsLatest(items: seq<Item>, spec: MeterSpec, i: Item)
    requires i in Unreserved(spec, Named(spec, items))
    ensures i.effective == Latest(Unreserved(spec, Named(spec, items))) <==> Newest(items, spec, i)
  {
    var kept := Unreserved(spec, Named(spec, items));
    KeptAreEligible(items, spec);
    LatestIsAMaximum(kept);
    hide Eligible, Unreserved, Named, Latest, StringLe, Precedes;
    forall j | j in kept
      ensures StringLe(j.effective, Latest(kept)) && Precedes(j.effective, Latest(kept))
    {
      StringLeIsLexicographic(j.effective, Latest(kept));
    }
    if Newest(items, spec, i) {
      var newest :| newest in kept && newest.effective == Latest(kept);
      StringLeIsLexicographic(newest.effective, i.effective);
      StringLeTotal(newest.effective, i.effective);
    }
  }

  // ------------------------------------------------------------------------ what it costs

  lemma {:induction false} TierFigures(units: Units, t: Tier, quantity: real)
    requires Sound(units) && units(t.unit).Some?
    ensures PerUnit(units, t) == t.unitPrice / units(t.unit).value
    ensures Floor(units, t) == t.minimumUnits * units(t.unit).value
    ensures Charge(quantity, PerUnit(units, t)) == quantity * (t.unitPrice / units(t.unit).value)
    ensures t.minimumUnits == 0.0 ==> Floor(units, t) == 0.0
  {
  }

  lemma {:induction false} LastTier(units: Units, t: Tier, quantity: real)
    requires Sound(units) && units(t.unit).Some?
    ensures Bill(units, [t], quantity)
            == Ok(if quantity <= Floor(units, t) then 0.0 else Charge(quantity - Floor(units, t), PerUnit(units, t)))
  {
    assert [t][1..] == [];
    assert Bill(units, [], quantity) == Ok(0.0);
    hide PerUnit, Floor, Charge;
  }

  /** A meter with one tier from nothing: the quantity in base units, at the price of a billing unit
      for as many of them as it covers. */
  lemma {:induction false} FlatCharge(units: Units, t: Tier, quantity: real)
    requires Sound(units) && units(t.unit).Some? && t.minimumUnits == 0.0 && quantity > 0.0
    ensures Charged(units, [t], quantity) == Ok(quantity * (t.unitPrice / units(t.unit).value))
  {
    TierFigures(units, t, quantity);
    LastTier(units, t, quantity);
    hide PerUnit, Floor, Charge, Bill;
    assert quantity - Floor(units, t) == quantity;
  }

  /** With a second tier further up, each part of the quantity is charged at its own tier's price. */
  lemma {:induction false} GraduatedCharge(units: Units, a: Tier, b: Tier, step: real, quantity: real)
    requires Sound(units) && units(a.unit).Some? && units(b.unit).Some? && a.minimumUnits == 0.0
    requires quantity > 0.0 && step == b.minimumUnits * units(b.unit).value
    ensures Charged(units, [a, b], quantity)
            == Ok(if quantity <= step then quantity * (a.unitPrice / units(a.unit).value)
                  else step * (a.unitPrice / units(a.unit).value)
                       + (quantity - step) * (b.unitPrice / units(b.unit).value))
  {
    TierFigures(units, a, quantity);
    TierFigures(units, a, step);
    TierFigures(units, b, quantity - step);
    LastTier(units, b, quantity);
    TwoTiers(units, a, b, quantity);
    hide PerUnit, Floor, Charge, Bill;
    assert Charged(units, [a, b], quantity) == Bill(units, [a, b], quantity) && Floor(units, b) == step;
    if quantity <= step {
      assert Bill(units, [a, b], quantity) == Ok(Charge(quantity, PerUnit(units, a)));
    } else {
      assert Bill(units, [a, b], quantity)
          == Ok(Charge(step, PerUnit(units, a)) + Charge(quantity - step, PerUnit(units, b)));
      assert Charge(step, PerUnit(units, a)) == step * (a.unitPrice / units(a.unit).value);
      var rest := quantity - step;
      assert Charge(rest, PerUnit(units, b)) == rest * (b.unitPrice / units(b.unit).value);
      assert Charge(quantity - step, PerUnit(units, b)) == (quantity - step) * (b.unitPrice / units(b.unit).value);
    }
  }

  lemma {:induction false} TwoTiers(units: Units, a: Tier, b: Tier, quantity: real)
    requires Sound(units) && units(a.unit).Some? && units(b.unit).Some?
    requires Floor(units, a) == 0.0 && quantity > 0.0 && Bill(units, [b], quantity).Ok?
    ensures var reach := if Floor(units, b) < quantity then Floor(units, b) else quantity;
            Bill(units, [a, b], quantity)
            == Ok(Charge(reach, PerUnit(units, a)) + Bill(units, [b], quantity).value)
  {
    hide PerUnit, Floor, Charge;
    assert [a, b][1..] == [b];
    var reach := if Floor(units, b) < quantity then Floor(units, b) else quantity;
    assert reach - Floor(units, a) == reach;
  }

  /** A metered line is charged for its quantity by the tiers of its own region's catalogue, or the
      estimate's region where it names none, provided the unit is the one it expects. */
  ghost predicate Metered(market: Market, region: string, line: Line, cost: real)
    requires Sound(market.units)
  {
    line.meter.Some? &&
    var items := market.catalogue(line.meter.value, if line.region.Some? then line.region.value else region);
    items.Some? &&
    var tiers := ResolveTiers(items.value, market.spec(line.meter.value));
    && tiers.Ok? && tiers.value != []
    && (line.expectedUnit.None? || line.expectedUnit.value == "" || line.expectedUnit.value == tiers.value[0].unit)
    && Charged(market.units, tiers.value, line.quantity) == Ok(cost)
  }

  ghost predicate Costs(market: Market, region: string, line: Line, cost: real)
    requires Sound(market.units)
  {
    if line.billing == "external" then line.listPrice.Some? && cost == line.quantity * line.listPrice.value
    else if line.unpublished then line.reserve == Some(cost)
    else Metered(market, region, line, cost)
  }

  lemma {:induction false} QuoteMeans(market: Market, line: Line, region: string, cost: real)
    requires Sound(market.units)
    ensures Quote(market, line, if line.region.Some? then line.region.value else region) == Ok(cost)
            <==> Metered(market, region, line, cost)
  {
    hide Charged, ResolveTiers;
    if line.meter.Some? {
      var items := market.catalogue(line.meter.value, if line.region.Some? then line.region.value else region);
      if items.Some? && ResolveTiers(items.value, market.spec(line.meter.value)).Ok? {
        ResolvedTiers(items.value, market.spec(line.meter.value));
      }
    }
  }

  /** What an enabled line costs: its list price times its quantity if billed elsewhere, its reserve if
      no price is published, and otherwise what the catalogue charges. It is refused exactly when
      that is undefined. */
  lemma {:induction false} EnabledLineCosts(market: Market, known: set<string>, enabled: set<string>, region: string,
                                            line: Line, cost: real)
    requires Sound(market.units) && line.owner in known && line.owner in enabled
    requires line.billing == "azure" || line.billing == "external"
    ensures Costs(market, region, line, cost) <==>
              Placed(market, known, enabled, region, line)
              == Ok(if line.billing == "azure" then ToAzure(cost) else ToExternal(cost))
  {
    hide Quote, Metered;
    assert "azure"[0] != "external"[0];
    QuoteMeans(market, line, region, cost);
  }

  /** Every entry of a report carries the cost of its line. */
  lemma {:induction false} EntriesCarryTheirCost(market: Market, known: set<string>, enabled: set<string>,
                                                 region: string, lines: seq<Line>)
    requires Sound(market.units) && Collected(market, known, enabled, region, lines).Ok?
    ensures var lists := Collected(market, known, enabled, region, lines).value;
            && (forall e :: e in lists.azure ==> e.line.billing == "azure" && Costs(market, region, e.line, e.cost))
            && (forall e :: e in lists.external ==>
                  e.line.billing == "external" && Costs(market, region, e.line, e.cost))
  {
    hide Placed, Costs;
    if lines != [] {
      var front, last := lines[..|lines| - 1], lines[|lines| - 1];
      EntriesCarryTheirCost(market, known, enabled, region, front);
      PlacedSide(market, known, enabled, region, last);
      var place := Placed(market, known, enabled, region, last).value;
      if !place.ToExcluded? {
        PlaceOf(market, known, enabled, region, last);
      }
    }
  }

  lemma {:induction false} PlaceOf(market: Market, known: set<string>, enabled: set<string>, region: string,
                                   line: Line)
    requires Sound(market.units) && Placed(market, known, enabled, region, line).Ok?
    requires !Placed(market, known, enabled, region, line).value.ToExcluded?
    ensures var place := Placed(market, known, enabled, region, line).value;
            && Costs(market, region, line, place.cost)
            && line.billing == if place.ToAzure? then "azure" else "external"
  {
    var place := Placed(market, known, enabled, region, line).value;
    PlacedSide(market, known, enabled, region, line);
    EnabledLineCosts(market, known, enabled, region, line, place.cost);
    hide Quote, Metered, Costs;
  }

  /** A report is within budget when its Azure costs, added up, are no more than the budget asked
      for, or the estimate's own where none is; being right on it is within it. External lines do
      not count. */
  lemma {:induction false} BudgetIsHeld(market: Market, estimate: Estimate, region: string, budget: Option<real>,
                                        requested: set<string>)
    requires Sound(market.units) && Evaluated(market, estimate, region, budget, requested).Ok?
    ensures var report := Evaluated(market, estimate, region, budget, requested).value;
            && (budget.Some? ==> report.budget == budget.value)
            && (budget.None? ==> estimate.budget == Some(report.budget))
            && (WithinBudget(report) <==> Total(report.lists.azure) <= report.budget)
            && (forall name :: name in report.enabled <==>
                  name in requested || (name in ModulesOf(estimate) && ModulesOf(estimate)[name] == Some(true)))
  {
    hide Collected, Total;
  }

  // ----------------------------------------------------------------------- what is refused

  /** The refusals made before any line is looked at. */
  ghost predicate Early(e: CostError) {
    e == MissingBudget || e == BadModules || e == UnknownRequest || e == CurrencyMismatch
  }

  lemma {:induction false} LinesRefuseLate(market: Market, known: set<string>, enabled: set<string>, region: string,
                                           lines: seq<Line>)
    requires Sound(market.units)
    ensures Collected(market, known, enabled, region, lines).Err? ==>
              !Early(Collected(market, known, enabled, region, lines).error)
  {
    hide Charged, ResolveTiers;
    if lines != [] {
      LinesRefuseLate(market, known, enabled, region, lines[..|lines| - 1]);
    }
  }

  /** A declared module, `core` being the one of an estimate that declares none, and whether it is
      enabled; None where that is not a truth value. */
  ghost predicate Declares(estimate: Estimate, name: string, enabled: Option<bool>) {
    if estimate.modules == None || estimate.modules == Some(map[]) then name == "core" && enabled == Some(true)
    else name in estimate.modules.value && estimate.modules.value[name] == enabled
  }

  ghost predicate ModulesHold(estimate: Estimate) {
    (exists enabled :: Declares(estimate, "core", enabled)) && forall name :: !Declares(estimate, name, None)
  }

  ghost predicate Declared(estimate: Estimate, name: string) {
    exists enabled :: Declares(estimate, name, enabled)
  }

  lemma {:induction false} ModulesMean(estimate: Estimate)
    ensures WellFormed(ModulesOf(estimate)) <==> ModulesHold(estimate)
    ensures forall name :: name in ModulesOf(estimate) <==> Declared(estimate, name)
  {
    forall name
      ensures name in ModulesOf(estimate) <==> Declared(estimate, name)
      ensures name in ModulesOf(estimate) && ModulesOf(estimate)[name] == None <==> Declares(estimate, name, None)
    {
      if name in ModulesOf(estimate) {
        assert Declares(estimate, name, ModulesOf(estimate)[name]);
      }
    }
    assert Declared(estimate, "core") <==> exists enabled :: Declares(estimate, "core", enabled);
  }

  /** The order of the refusals: no budget, badly declared modules, a module asked for that is not
      declared, a currency other than the catalogue's. */
  lemma {:induction false} RefusalsInOrder(market: Market, estimate: Estimate, region: string, budget: Option<real>,
                                           requested: set<string>)
    requires Sound(market.units)
    ensures var r := Evaluated(market, estimate, region, budget, requested);
            var funded := budget.Some? || estimate.budget.Some?;
            var held := ModulesHold(estimate);
            var known := forall name :: name in requested ==> Declared(estimate, name);
            && (r == Err(MissingBudget) <==> !funded)
            && (r == Err(BadModules) <==> funded && !held)
            && (r == Err(UnknownRequest) <==> funded && held && !known)
            && (r == Err(CurrencyMismatch) <==>
                  funded && held && known && market.upper(market.currency) != market.upper(estimate.currency))
  {
    ModulesMean(estimate);
    var modules := ModulesOf(estimate);
    LinesRefuseLate(market, modules.Keys, EnabledBy(modules, requested), region, estimate.lines);
    hide Collected, ModulesOf, WellFormed, ModulesHold, Declared, EnabledBy;
  }
}
