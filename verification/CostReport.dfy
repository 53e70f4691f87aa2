/** The monthly estimate: every declared line priced, excluded or refused, and the Azure
    total held against the budget. */
module CostReport {
  import opened Wrappers
  import opened Sorting
  import opened CostTiers

  datatype CostError =
    | MissingBudget | BadModules | UnknownRequest | CurrencyMismatch
    | UnknownModule | BadBilling | MissingField | MissingReserve | UnitChanged
    | Unreachable | Unpriced(reason: PriceError)

  datatype Line = Line(id: string, owner: string, region: Option<string>, quantity: real, billing: string,
                       listPrice: Option<real>, unpublished: bool, reserve: Option<real>,
                       meter: Option<string>, expectedUnit: Option<string>)

  /** `modules` maps a name to its `enabled_by_default`, None where that is not a boolean. */
  datatype Estimate = Estimate(budget: Option<real>, modules: Option<map<string, Option<bool>>>, currency: string,
    lines: seq<Line>)

  /** The price catalogue as a run sees it. */
  datatype Market = Market(currency: string, upper: string -> string, units: Units,
                           spec: string -> MeterSpec, catalogue: (string, string) -> Option<seq<Item>>)

  // ------------------------------------------------------------------------ one line

  function Quote(market: Market, line: Line, region: string): Result<real, CostError>
    requires Sound(market.units)
  {
    if line.meter.None? then Err(MissingField)
    else
      var items := market.catalogue(line.meter.value, region);
      if items.None? then Err(Unreachable)
      else
        var tiers := ResolveTiers(items.value, market.spec(line.meter.value));
        if tiers.Err? then Err(Unpriced(tiers.error))
        else
          ResolvedTiers(items.value, market.spec(line.meter.value));
          if line.expectedUnit.Some? && line.expectedUnit.value != "" && line.expectedUnit.value != tiers.value[0].unit
          then Err(UnitChanged)
          else
            var charge := Charged(market.units, tiers.value, line.quantity);
            if charge.Err? then Err(Unpriced(charge.error)) else Ok(charge.value)
  }

  function Listed(line: Line): real
    requires line.listPrice.Some?
  {
    line.listPrice.value * line.quantity
  }

  predicate IsAzure(line: Line) {
    line.billing == "azure"
  }

  predicate IsExternal(line: Line) {
    line.billing == "external"
  }

  datatype Place = ToAzure(cost: real) | ToExternal(cost: real) | ToExcluded

  function RegionOf(line: Line, region: string): string {
    if line.region.Some? then line.region.value else region
  }

  /** Where a line goes. A line of a disabled module is never priced, but its billing is
      checked all the same. */
  function Placed(market: Market, known: set<string>, enabled: set<string>, region: string,
                  line: Line): Result<Place, CostError>
    requires Sound(market.units)
  {
    if line.owner !in known then Err(UnknownModule)
    else if !IsAzure(line) && !IsExternal(line) then Err(BadBilling)
    else if line.owner !in enabled then Ok(ToExcluded)
    else if !IsAzure(line) then
      if line.listPrice.None? then Err(MissingField) else Ok(ToExternal(Listed(line)))
    else if line.unpublished then
      if line.reserve.None? then Err(MissingReserve) else Ok(ToAzure(line.reserve.value))
    else
      var quote := Quote(market, line, RegionOf(line, region));
      if quote.Err? then Err(quote.error) else Ok(ToAzure(quote.value))
  }

  // ----------------------------------------------------------------------- the report

  datatype Entry = Entry(line: Line, cost: real)

  datatype Lists = Lists(azure: seq<Entry>, external: seq<Entry>, excluded: seq<Line>)

  datatype Report = Report(budget: real, enabled: set<string>, lists: Lists)

  function Add(lists: Lists, line: Line, place: Place): Lists {
    match place
    case ToAzure(cost) => lists.(azure := lists.azure + [Entry(line, cost)])
    case ToExternal(cost) => lists.(external := lists.external + [Entry(line, cost)])
    case ToExcluded => lists.(excluded := lists.excluded + [line])
  }

  function Collected(market: Market, known: set<string>, enabled: set<string>, region: string,
                     lines: seq<Line>): Result<Lists, CostError>
    requires Sound(market.units)
  {
    if lines == [] then Ok(Lists([], [], []))
    else
      var front := Collected(market, known, enabled, region, lines[..|lines| - 1]);
      if front.Err? then front
      else
        var place := Placed(market, known, enabled, region, lines[|lines| - 1]);
        if place.Err? then Err(place.error) else Ok(Add(front.value, lines[|lines| - 1], place.value))
  }

  function Total(entries: seq<Entry>): real {
    if entries == [] then 0.0 else Total(entries[..|entries| - 1]) + entries[|entries| - 1].cost
  }

  predicate WithinBudget(report: Report) {
    Total(report.lists.azure) <= report.budget
  }

  function ModulesOf(estimate: Estimate): map<string, Option<bool>> {
    if estimate.modules.None? || estimate.modules.value == map[] then map["core" := Some(true)]
      else estimate.modules.value
  }

  function EnabledBy(modules: map<string, Option<bool>>, requested: set<string>): set<string> {
    (set name | name in modules && modules[name] == Some(true)) + requested
  }

  predicate WellFormed(modules: map<string, Option<bool>>) {
    "core" in modules && forall name :: name in modules ==> modules[name].Some?
  }

  /** What an evaluation must report. */
  function Evaluated(market: Market, estimate: Estimate, region: string, budget: Option<real>,
                     requested: set<string>): Result<Report, CostError>
    requires Sound(market.units)
  {
    var ceiling := if budget.Some? then budget else estimate.budget;
    var modules := ModulesOf(estimate);
    if ceiling.None? then Err(MissingBudget)
    else if !WellFormed(modules) then Err(BadModules)
    else if !(requested <= modules.Keys) then Err(UnknownRequest)
    else if market.upper(market.currency) != market.upper(estimate.currency) then Err(CurrencyMismatch)
    else
      var lists := Collected(market, modules.Keys, EnabledBy(modules, requested), region, estimate.lines);
      if lists.Err? then Err(lists.error) else Ok(Report(ceiling.value, EnabledBy(modules, requested), lists.value))
  }

  method Evaluate(market: Market, estimate: Estimate, region: string, budget: Option<real>, requested: set<string>)
    returns (r: Result<Report, CostError>)
    requires Sound(market.units)
    ensures r == Evaluated(market, estimate, region, budget, requested)
  {
    hide Quote;
    var ceiling := if budget.Some? then budget else estimate.budget;
    if ceiling.None? {
      return Err(MissingBudget);
    }
    var modules := ModulesOf(estimate);
    if !WellFormed(modules) {
      return Err(BadModules);
    }
    if !(requested <= modules.Keys) {
      return Err(UnknownRequest);
    }
    var enabled := EnabledBy(modules, requested);
    if market.upper(market.currency) != market.upper(estimate.currency) {
      return Err(CurrencyMismatch);
    }
    var lists := CollectLines(market, modules.Keys, enabled, region, estimate.lines);
    if lists.Err? {
      return Err(lists.error);
    }
    return Ok(Report(ceiling.value, enabled, lists.value));
  }

  method CollectLines(market: Market, known: set<string>, enabled: set<string>, region: string, lines: seq<Line>)
    returns (r: Result<Lists, CostError>)
    requires Sound(market.units)
    ensures r == Collected(market, known, enabled, region, lines)
  {
    hide Quote, Placed;
    var lists := Lists([], [], []);
    for n := 0 to |lines|
      invariant Collected(market, known, enabled, region, lines[..n]) == Ok(lists)
      invariant forall i | n <= i <= |lines| :: lines[..i][..n] == lines[..n]
    {
      assert lines[..n + 1][..n] == lines[..n];
      var place := PlaceLine(market, known, enabled, region, lines[n]);
      if place.Err? {
        CollectedErr(market, known, enabled, region, lines, n + 1);
        return Err(place.error);
      }
      match place.value
      case ToAzure(cost) => lists := lists.(azure := lists.azure + [Entry(lines[n], cost)]);
      case ToExternal(cost) => lists := lists.(external := lists.external + [Entry(lines[n], cost)]);
      case ToExcluded => lists := lists.(excluded := lists.excluded + [lines[n]]);
    }
    assert lines[..|lines|] == lines;
    return Ok(lists);
  }

  lemma {:induction false} CollectedErr(market: Market, known: set<string>, enabled: set<string>, region: string,
                                        lines: seq<Line>, n: nat)
    requires Sound(market.units) && n <= |lines|
    requires Collected(market, known, enabled, region, lines[..n]).Err?
    ensures Collected(market, known, enabled, region, lines) == Collected(market, known, enabled, region, lines[..n])
    decreases |lines|
  {
    hide Placed;
    if n == |lines| {
      assert lines[..n] == lines;
    } else {
      assert lines[..|lines| - 1][..n] == lines[..n];
      CollectedErr(market, known, enabled, region, lines[..|lines| - 1], n);
    }
  }

  method PlaceLine(market: Market, known: set<string>, enabled: set<string>, region: string, line: Line)
    returns (r: Result<Place, CostError>)
    requires Sound(market.units)
    ensures r == Placed(market, known, enabled, region, line)
  {
    if line.owner !in known {
      return Err(UnknownModule);
    }
    if !IsAzure(line) && !IsExternal(line) {
      return Err(BadBilling);
    }
    if line.owner !in enabled {
      return Ok(ToExcluded);
    }
    if !IsAzure(line) {
      if line.listPrice.None? {
        return Err(MissingField);
      }
      return Ok(ToExternal(Listed(line)));
    }
    if line.unpublished {
      if line.reserve.None? {
        return Err(MissingReserve);
      }
      return Ok(ToAzure(line.reserve.value));
    }
    if line.meter.None? {
      return Err(MissingField);
    }
    var items := market.catalogue(line.meter.value, RegionOf(line, region));
    if items.None? {
      return Err(Unreachable);
    }
    var tiers := ResolveTiers(items.value, market.spec(line.meter.value));
    if tiers.Err? {
      return Err(Unpriced(tiers.error));
    }
    ResolvedTiers(items.value, market.spec(line.meter.value));
    if line.expectedUnit.Some? && line.expectedUnit.value != "" && line.expectedUnit.value != tiers.value[0].unit {
      return Err(UnitChanged);
    }
    var charge := CostForQuantity(market.units, tiers.value, line.quantity);
    if charge.Err? {
      return Err(Unpriced(charge.error));
    }
    return Ok(ToAzure(charge.value));
  }

  // ------------------------------------------------------------- every line in one list

  function LinesOf(entries: seq<Entry>): seq<Line> {
    if entries == [] then [] else LinesOf(entries[..|entries| - 1]) + [entries[|entries| - 1].line]
  }

  lemma {:induction false} LinesOfAppend(entries: seq<Entry>, e: Entry)
    ensures LinesOf(entries + [e]) == LinesOf(entries) + [e.line]
  {
    assert (entries + [e])[..|entries|] == entries;
  }

  /** What an enabled line needs in order to be priced. */
  predicate Priceable(market: Market, region: string, line: Line)
    requires Sound(market.units)
  {
    if !IsAzure(line) then line.listPrice.Some?
    else if line.unpublished then line.reserve.Some?
    else Quote(market, line, RegionOf(line, region)).Ok?
  }

  /** A line is placed exactly when its module is known, its billing is recognised and, if its
      module is enabled, it can be priced. It is excluded exactly when its module is disabled,
      and Azure or external by its billing alone. */
  lemma {:induction false} PlacedSide(market: Market, known: set<string>, enabled: set<string>, region: string,
                                      line: Line)
    requires Sound(market.units)
    ensures Placed(market, known, enabled, region, line).Ok? <==>
              line.owner in known && (IsAzure(line) || IsExternal(line))
                && (line.owner in enabled ==> Priceable(market, region, line))
    ensures Placed(market, known, enabled, region, line).Ok? ==>
              var place := Placed(market, known, enabled, region, line).value;
              && (place.ToExcluded? <==> line.owner !in enabled)
              && (place.ToAzure? <==> line.owner in enabled && IsAzure(line))
  {
    hide Quote, IsAzure, IsExternal;
  }

  lemma {:induction false} AddedLines(lists: Lists, line: Line, place: Place)
    ensures var after := Add(lists, line, place);
            && LinesOf(after.azure) == LinesOf(lists.azure) + (if place.ToAzure? then [line] else [])
            && LinesOf(after.external) == LinesOf(lists.external) + (if place.ToExternal? then [line] else [])
            && after.excluded == lists.excluded + (if place.ToExcluded? then [line] else [])
  {
    hide LinesOf;
    if !place.ToExcluded? {
      LinesOfAppend(lists.azure, Entry(line, place.cost));
      LinesOfAppend(lists.external, Entry(line, place.cost));
    }
  }

  /** The lists of a report are the estimate's lines sorted by one question each, in order: an
      Azure line of an enabled module is always in the total the budget is held against. */
  lemma {:induction false} ListsAreTheLines(market: Market, known: set<string>, enabled: set<string>, region: string,
                                            lines: seq<Line>)
    requires Sound(market.units) && Collected(market, known, enabled, region, lines).Ok?
    ensures var lists := Collected(market, known, enabled, region, lines).value;
            && LinesOf(lists.azure) == Filter(lines, (l: Line) => l.owner in enabled && IsAzure(l))
            && LinesOf(lists.external) == Filter(lines, (l: Line) => l.owner in enabled && !IsAzure(l))
            && lists.excluded == Filter(lines, (l: Line) => l.owner !in enabled)
  {
    hide Placed, Add, IsAzure, Filter;
    if lines != [] {
      var front, last := lines[..|lines| - 1], lines[|lines| - 1];
      assert lines == front + [last];
      ListsAreTheLines(market, known, enabled, region, front);
      FilterAppend(front, last, (l: Line) => l.owner in enabled && IsAzure(l));
      FilterAppend(front, last, (l: Line) => l.owner in enabled && !IsAzure(l));
      FilterAppend(front, last, (l: Line) => l.owner !in enabled);
      PlacedSide(market, known, enabled, region, last);
      AddedLines(Collected(market, known, enabled, region, front).value, last,
        Placed(market, known, enabled, region, last).value);
    } else {
      FilterEmpty((l: Line) => l.owner in enabled && IsAzure(l));
      FilterEmpty((l: Line) => l.owner in enabled && !IsAzure(l));
      FilterEmpty((l: Line) => l.owner !in enabled);
    }
  }

  lemma {:induction false} FilterEmpty(keep: Line -> bool)
    ensures Filter([], keep) == []
  {
  }

  lemma {:induction false} ThreeWays(a: seq<Line>, b: seq<Line>, c: seq<Line>, lines: seq<Line>, last: Line,
                                     side: Place)
    requires multiset(a) + multiset(b) + multiset(c) == multiset(lines)
    ensures multiset(a + (if side.ToAzure? then [last] else []))
            + multiset(b + (if side.ToExternal? then [last] else []))
          + multiset(c + (if side.ToExcluded? then [last] else [])) == multiset(lines + [last])
  {
    match side
    case ToAzure(_) =>
    case ToExternal(_) =>
    case ToExcluded =>
  }

  /** Every line lands in exactly one of the three lists. */
  lemma {:induction false} EveryLineLandsOnce(market: Market, known: set<string>, enabled: set<string>,
                                              region: string, lines: seq<Line>)
    requires Sound(market.units) && Collected(market, known, enabled, region, lines).Ok?
    ensures var lists := Collected(market, known, enabled, region, lines).value;
            multiset(LinesOf(lists.azure)) + multiset(LinesOf(lists.external)) + multiset(lists.excluded)
              == multiset(lines)
  {
    hide Placed, Add, LinesOf;
    if lines != [] {
      var front, last := lines[..|lines| - 1], lines[|lines| - 1];
      assert lines == front + [last];
      EveryLineLandsOnce(market, known, enabled, region, front);
      var before := Collected(market, known, enabled, region, front).value;
      var place := Placed(market, known, enabled, region, last).value;
      AddedLines(before, last, place);
      ThreeWays(LinesOf(before.azure), LinesOf(before.external), before.excluded, front, last, place);
    } else {
      assert LinesOf([]) == [] by { NoLines(); }
    }
  }

  lemma {:induction false} NoLines()
    ensures LinesOf([]) == []
  {
  }

  /** A report exists only if every line names a known module and a recognised billing, enabled or not. */
  lemma {:induction false} EveryLineIsChecked(market: Market, known: set<string>, enabled: set<string>,
                                              region: string, lines: seq<Line>)
    requires Sound(market.units) && Collected(market, known, enabled, region, lines).Ok?
    ensures forall l :: l in lines ==> l.owner in known && (IsAzure(l) || IsExternal(l))
  {
    hide Placed, Add, IsAzure, IsExternal;
    if lines != [] {
      var front, last := lines[..|lines| - 1], lines[|lines| - 1];
      assert lines == front + [last];
      EveryLineIsChecked(market, known, enabled, region, front);
      PlacedSide(market, known, enabled, region, last);
    }
  }

  // ------------------------------------------------------------------- fewer modules

  /** The tiers a metered line would be charged by. */
  function TiersFor(market: Market, line: Line, region: string): Option<seq<Tier>> {
    if line.meter.None? || market.catalogue(line.meter.value, region).None? then None
    else
      var tiers := ResolveTiers(market.catalogue(line.meter.value, region).value, market.spec(line.meter.value));
      if tiers.Err? then None else Some(tiers.value)
  }

  /** A line that cannot cost less than nothing: no negative reserve or price, and tier floors
      that rise in base units. */
  predicate FairLine(market: Market, region: string, line: Line)
    requires Sound(market.units)
  {
    && (line.reserve.Some? ==> line.reserve.value >= 0.0)
    && var tiers := TiersFor(market, line, RegionOf(line, region));
       (tiers.Some? ==> FloorsRise(market.units, tiers.value) && forall t :: t in tiers.value ==> t.unitPrice >= 0.0)
  }

  predicate FairLines(market: Market, region: string, lines: seq<Line>)
    requires Sound(market.units)
  {
    forall l :: l in lines ==> FairLine(market, region, l)
  }

  /** A catalogue without negative prices that keeps one unit of measure for each meter is fair
      to every line with no negative reserve. */
  lemma {:induction false} OneUnitIsFair(market: Market, region: string, line: Line)
    requires Sound(market.units) && (line.reserve.Some? ==> line.reserve.value >= 0.0)
    requires line.meter.Some? && market.catalogue(line.meter.value, RegionOf(line, region)).Some?
    requires var items := market.catalogue(line.meter.value, RegionOf(line, region)).value;
             && (forall i :: i in items ==> i.tier.unitPrice >= 0.0)
             && forall i, j :: i in items && j in items && i.meterId == j.meterId ==> i.tier.unit == j.tier.unit
    ensures FairLine(market, region, line)
  {
    hide Latest, StringLe, FloorsRise, ResolveTiers;
    var items := market.catalogue(line.meter.value, RegionOf(line, region)).value;
    var spec := market.spec(line.meter.value);
    if ResolveTiers(items, spec).Ok? {
      var tiers := ResolveTiers(items, spec).value;
      var kept := Unreserved(spec, Named(spec, items));
      ResolvedTiers(items, spec);
      KeptRows(items, spec);
      forall s, t | s in tiers && t in tiers
        ensures s.unitPrice >= 0.0 && s.unit == t.unit
      {
        var i :| i in kept && i.tier == s;
        var j :| j in kept && j.tier == t;
      }
      OneUnitFloorsRise(market.units, tiers);
    }
  }

  lemma {:induction false} KeptRows(items: seq<Item>, spec: MeterSpec)
    ensures forall i :: i in Unreserved(spec, Named(spec, items)) ==> i in items
  {
    if spec.nameMatches.Some? {
      FilterMembers(items, (i: Item) => spec.nameMatches.value(i.meterName));
    }
    FilterMembers(Named(spec, items), (i: Item) => !i.reserved);
  }

  lemma {:induction false} PlacedNonNegative(market: Market, known: set<string>, enabled: set<string>,
                                             region: string, line: Line)
    requires Sound(market.units) && FairLine(market, region, line)
    requires Placed(market, known, enabled, region, line).Ok?
             && Placed(market, known, enabled, region, line).value.ToAzure?
    ensures Placed(market, known, enabled, region, line).value.cost >= 0.0
  {
    hide ResolveTiers, Bill, FloorsRise;
    if !line.unpublished {
      var tiers := TiersFor(market, line, RegionOf(line, region)).value;
      if line.quantity > 0.0 {
        BillIsNotNegative(market.units, tiers, line.quantity);
      }
    }
  }

  lemma {:induction false} TotalAppend(entries: seq<Entry>, e: Entry)
    ensures Total(entries + [e]) == Total(entries) + e.cost
  {
    assert (entries + [e])[..|entries|] == entries;
  }

  lemma {:induction false} TotalNonNegative(market: Market, known: set<string>, enabled: set<string>, region: string,
                                            lines: seq<Line>)
    requires Sound(market.units) && FairLines(market, region, lines)
    requires Collected(market, known, enabled, region, lines).Ok?
    ensures Total(Collected(market, known, enabled, region, lines).value.azure) >= 0.0
  {
    hide Placed, FairLine;
    if lines != [] {
      var front, last := lines[..|lines| - 1], lines[|lines| - 1];
      assert last in lines && forall l :: l in front ==> l in lines;
      TotalNonNegative(market, known, enabled, region, front);
      var place := Placed(market, known, enabled, region, last).value;
      if place.ToAzure? {
        PlacedNonNegative(market, known, enabled, region, last);
        TotalAppend(Collected(market, known, enabled, region, front).value.azure, Entry(last, place.cost));
      }
    }
  }

  lemma {:induction false} PlacedByModule(market: Market, known: set<string>, a: set<string>, b: set<string>,
                                          region: string, line: Line)
    requires Sound(market.units) && (line.owner in a <==> line.owner in b)
    ensures Placed(market, known, a, region, line) == Placed(market, known, b, region, line)
  {
    hide Quote, IsAzure, IsExternal;
  }

  lemma {:induction false} PlacedSplits(market: Market, known: set<string>, fewer: set<string>, more: set<string>,
                                        region: string, line: Line)
    requires Sound(market.units) && fewer <= more && Placed(market, known, more, region, line).Ok?
    ensures var whole := Placed(market, known, more, region, line).value;
            var kept, added := Placed(market, known, fewer, region, line),
              Placed(market, known, more - fewer, region, line);
            && kept.Ok? && added.Ok?
            && (whole.ToAzure? ==>
              (kept.value == whole && added.value.ToExcluded?) || (kept.value.ToExcluded? && added.value == whole))
            && (!whole.ToAzure? ==> !kept.value.ToAzure? && !added.value.ToAzure?)
  {
    hide Placed, IsAzure, IsExternal, Priceable;
    PlacedSide(market, known, more, region, line);
    PlacedSide(market, known, fewer, region, line);
    PlacedSide(market, known, more - fewer, region, line);
    if line.owner in fewer {
      PlacedByModule(market, known, fewer, more, region, line);
    } else {
      PlacedByModule(market, known, more - fewer, more, region, line);
    }
  }

  lemma {:induction false} AddedTotal(lists: Lists, line: Line, place: Place)
    ensures Total(Add(lists, line, place).azure) == Total(lists.azure) + if place.ToAzure? then place.cost else 0.0
  {
    if place.ToAzure? {
      TotalAppend(lists.azure, Entry(line, place.cost));
    }
  }

  /** Whatever the prices, an Azure total splits over the modules enabled. */
  lemma {:induction false} TotalsSplit(market: Market, known: set<string>, fewer: set<string>, more: set<string>,
                                       region: string, lines: seq<Line>)
    requires Sound(market.units) && fewer <= more && Collected(market, known, more, region, lines).Ok?
    ensures Collected(market, known, fewer, region, lines).Ok?
            && Collected(market, known, more - fewer, region, lines).Ok?
    ensures Total(Collected(market, known, more, region, lines).value.azure)
         == Total(Collected(market, known, fewer, region, lines).value.azure)
          + Total(Collected(market, known, more - fewer, region, lines).value.azure)
  {
    hide Placed, Add, Total;
    if lines != [] {
      var front, last := lines[..|lines| - 1], lines[|lines| - 1];
      TotalsSplit(market, known, fewer, more, region, front);
      PlacedSplits(market, known, fewer, more, region, last);
      AddedTotal(Collected(market, known, more, region, front).value, last,
        Placed(market, known, more, region, last).value);
      AddedTotal(Collected(market, known, fewer, region, front).value, last,
        Placed(market, known, fewer, region, last).value);
      AddedTotal(Collected(market, known, more - fewer, region, front).value, last,
                 Placed(market, known, more - fewer, region, last).value);
    } else {
      NoTotal();
    }
  }

  lemma {:induction false} NoTotal()
    ensures Total([]) == 0.0
  {
  }

  /** The Azure cost of the modules one request enables and another does not. */
  function AddedCost(market: Market, estimate: Estimate, region: string, fewer: set<string>,
                     more: set<string>): Option<real>
    requires Sound(market.units)
  {
    var modules := ModulesOf(estimate);
    var added := Collected(market, modules.Keys, EnabledBy(modules, more) - EnabledBy(modules, fewer), region,
      estimate.lines);
    if added.Err? then None else Some(Total(added.value.azure))
  }

  lemma {:induction false} EvaluatedSplits(market: Market, estimate: Estimate, region: string, budget: Option<real>,
                                           fewer: set<string>, more: set<string>)
    requires Sound(market.units) && fewer <= more && Evaluated(market, estimate, region, budget, more).Ok?
    ensures Evaluated(market, estimate, region, budget, fewer).Ok?
            && AddedCost(market, estimate, region, fewer, more).Some?
    ensures var a := Evaluated(market, estimate, region, budget, fewer).value;
            var b := Evaluated(market, estimate, region, budget, more).value;
            && a.budget == b.budget
            && Total(b.lists.azure) == Total(a.lists.azure) + AddedCost(market, estimate, region, fewer, more).value
  {
    hide Collected;
    var modules := ModulesOf(estimate);
    TotalsSplit(market, modules.Keys, EnabledBy(modules, fewer), EnabledBy(modules, more), region, estimate.lines);
  }

  /** Whatever the budget, fewer modules stay within it if more do. */
  ghost predicate GateMonotone(market: Market, estimate: Estimate, region: string, fewer: set<string>,
                               more: set<string>)
    requires Sound(market.units)
  {
    forall budget: real ::
      && Evaluated(market, estimate, region, Some(budget), fewer).Ok?
      && Evaluated(market, estimate, region, Some(budget), more).Ok?
      && (WithinBudget(Evaluated(market, estimate, region, Some(budget), more).value) ==>
            WithinBudget(Evaluated(market, estimate, region, Some(budget), fewer).value))
  }

  /** Whatever the catalogue, fewer modules stay within every budget that more are within exactly
      when the modules dropped do not cost less than nothing. */
  lemma {:induction false} GateIsMonotoneIff(market: Market, estimate: Estimate, region: string, fewer: set<string>,
                                             more: set<string>)
    requires Sound(market.units) && fewer <= more && Evaluated(market, estimate, region, Some(0.0), more).Ok?
    ensures AddedCost(market, estimate, region, fewer, more).Some?
    ensures GateMonotone(market, estimate, region, fewer, more)
            <==> AddedCost(market, estimate, region, fewer, more).value >= 0.0
  {
    hide Collected, AddedCost;
    EvaluatedSplits(market, estimate, region, Some(0.0), fewer, more);
    var added := AddedCost(market, estimate, region, fewer, more).value;
    forall budget: real
      ensures Evaluated(market, estimate, region, Some(budget), more).Ok?
      ensures Evaluated(market, estimate, region, Some(budget), fewer).Ok?
      ensures Evaluated(market, estimate, region, Some(budget), more).value
           == Evaluated(market, estimate, region, Some(0.0), more).value.(budget := budget)
      ensures Evaluated(market, estimate, region, Some(budget), fewer).value
           == Evaluated(market, estimate, region, Some(0.0), fewer).value.(budget := budget)
    {
    }
    var total := Total(Evaluated(market, estimate, region, Some(0.0), more).value.lists.azure);
    assert WithinBudget(Evaluated(market, estimate, region, Some(total), more).value);
  }

  /** The Azure cost of the lines of one module. */
  function ModuleCost(market: Market, estimate: Estimate, region: string, name: string): Option<real>
    requires Sound(market.units)
  {
    var lists := Collected(market, ModulesOf(estimate).Keys, {name}, region, estimate.lines);
    if lists.Err? then None else Some(Total(lists.value.azure))
  }

  predicate Optional(estimate: Estimate, name: string) {
    name in ModulesOf(estimate) && ModulesOf(estimate)[name] != Some(true)
  }

  /** Modules that each cost nothing or more do so together. */
  lemma {:induction false} ModulesAddUp(market: Market, estimate: Estimate, region: string, names: set<string>)
    requires Sound(market.units)
    requires Collected(market, ModulesOf(estimate).Keys, names, region, estimate.lines).Ok?
    requires forall name :: name in names && ModuleCost(market, estimate, region, name).Some? ==>
               ModuleCost(market, estimate, region, name).value >= 0.0
    ensures Total(Collected(market, ModulesOf(estimate).Keys, names, region, estimate.lines).value.azure) >= 0.0
    decreases names
  {
    hide Collected, Total;
    var known := ModulesOf(estimate).Keys;
    if name :| name in names {
      TotalsSplit(market, known, {name}, names, region, estimate.lines);
      ModulesAddUp(market, estimate, region, names - {name});
    } else {
      assert names == {} && names - names == {};
      TotalsSplit(market, known, names, names, region, estimate.lines);
    }
  }

  lemma {:induction false} AddedModules(estimate: Estimate, fewer: set<string>, more: set<string>)
    requires more <= ModulesOf(estimate).Keys
    ensures forall name :: name in EnabledBy(ModulesOf(estimate), more) - EnabledBy(ModulesOf(estimate), fewer) ==>
              Optional(estimate, name) && name in more
    ensures forall name :: Optional(estimate, name) ==>
              EnabledBy(ModulesOf(estimate), {name}) - EnabledBy(ModulesOf(estimate), {}) == {name}
  {
    hide ModulesOf;
  }

  /** What a request for one module evaluates to, where it does, costs nothing or more. */
  predicate NoCheaper(market: Market, estimate: Estimate, region: string, name: string)
    requires Sound(market.units)
  {
    Evaluated(market, estimate, region, Some(0.0), {name}).Ok? ==>
      && ModuleCost(market, estimate, region, name).Some?
      && ModuleCost(market, estimate, region, name).value >= 0.0
  }

  /** Main result on the budget gate: dropping modules never takes an estimate over a budget it was
      within, whichever modules and whatever the budget, exactly when no optional module that can
      be priced costs less than nothing by itself. */
  lemma {:induction false} GateIsMonotoneForAllIff(market: Market, estimate: Estimate, region: string)
    requires Sound(market.units)
    ensures (forall fewer, more |
               fewer <= more <= ModulesOf(estimate).Keys && Evaluated(market, estimate, region, Some(0.0), more).Ok? ::
               GateMonotone(market, estimate, region, fewer, more))
            <==> forall name :: Optional(estimate, name) ==> NoCheaper(market, estimate, region, name)
  {
    hide *;
    var all := ModulesOf(estimate).Keys;
    if forall fewer, more | fewer <= more <= all && Evaluated(market, estimate, region, Some(0.0), more).Ok? ::
         GateMonotone(market, estimate, region, fewer, more) {
      forall name | Optional(estimate, name)
        ensures NoCheaper(market, estimate, region, name)
      {
        KnownModule(estimate, name);
        assert {} <= {name} <= all;
        OneModule(market, estimate, region, name);
      }
    }
    if forall name :: Optional(estimate, name) ==> NoCheaper(market, estimate, region, name) {
      forall fewer, more | fewer <= more <= all && Evaluated(market, estimate, region, Some(0.0), more).Ok?
        ensures GateMonotone(market, estimate, region, fewer, more)
      {
        FairModules(market, estimate, region, fewer, more);
      }
    }
  }

  lemma {:induction false} KnownModule(estimate: Estimate, name: string)
    requires Optional(estimate, name)
    ensures name in ModulesOf(estimate).Keys
  {
  }

  lemma {:induction false} OneModule(market: Market, estimate: Estimate, region: string, name: string)
    requires Sound(market.units) && Optional(estimate, name)
    requires Evaluated(market, estimate, region, Some(0.0), {name}).Ok? ==>
               GateMonotone(market, estimate, region, {}, {name})
    ensures NoCheaper(market, estimate, region, name)
  {
    hide Collected, GateMonotone, Evaluated;
    if Evaluated(market, estimate, region, Some(0.0), {name}).Ok? {
      GateIsMonotoneIff(market, estimate, region, {}, {name});
      AddedModules(estimate, {}, {name});
    }
  }

  lemma {:induction false} FairModules(market: Market, estimate: Estimate, region: string, fewer: set<string>,
                                       more: set<string>)
    requires Sound(market.units) && fewer <= more <= ModulesOf(estimate).Keys
    requires Evaluated(market, estimate, region, Some(0.0), more).Ok?
    requires forall name :: Optional(estimate, name) ==> NoCheaper(market, estimate, region, name)
    ensures GateMonotone(market, estimate, region, fewer, more)
  {
    hide Collected, GateMonotone, Evaluated, ModuleCost, Optional, EnabledBy;
    GateIsMonotoneIff(market, estimate, region, fewer, more);
    AddedModules(estimate, fewer, more);
    var added := EnabledBy(ModulesOf(estimate), more) - EnabledBy(ModulesOf(estimate), fewer);
    forall name | name in added
      ensures NoCheaper(market, estimate, region, name) && Evaluated(market, estimate, region, Some(0.0), {name}).Ok?
    {
      EvaluatedSplits(market, estimate, region, Some(0.0), {name}, more);
    }
    ModulesAddUp(market, estimate, region, added);
  }

  /** So it is when no line can cost less than nothing. */
  lemma {:induction false} FewerModulesStayWithinBudget(market: Market, estimate: Estimate, region: string,
                                                        budget: Option<real>,
                                                        fewer: set<string>, more: set<string>)
    requires Sound(market.units) && FairLines(market, region, estimate.lines) && fewer <= more
    requires Evaluated(market, estimate, region, budget, more).Ok?
    ensures Evaluated(market, estimate, region, budget, fewer).Ok?
    ensures Total(Evaluated(market, estimate, region, budget, fewer).value.lists.azure)
         <= Total(Evaluated(market, estimate, region, budget, more).value.lists.azure)
    ensures WithinBudget(Evaluated(market, estimate, region, budget, more).value) ==>
              WithinBudget(Evaluated(market, estimate, region, budget, fewer).value)
  {
    hide Collected, FairLines;
    EvaluatedSplits(market, estimate, region, budget, fewer, more);
    var modules := ModulesOf(estimate);
    TotalNonNegative(market, modules.Keys, EnabledBy(modules, more) - EnabledBy(modules, fewer), region,
      estimate.lines);
  }

  /** A catalogue with mixed units of measure, and an estimate whose optional line it prices. */
  function MixedMarket(): Market {
    Market("USD", (s: string) => s, MillionsOrOnes, (m: string) => MeterSpec(None, false),
           (m: string, r: string) => Some(MixedMeter()))
  }

  function BaseLine(): Line {
    Line("base", "core", None, 1.0, "azure", None, true, Some(100.0), None, None)
  }

  function TokenLine(): Line {
    Line("tokens", "extra", None, 2000000.0, "azure", None, false, None, Some("tokens"), None)
  }

  function MixedEstimate(): Estimate {
    Estimate(Some(50.0), Some(map["core" := Some(true), "extra" := Some(false)]), "USD", [BaseLine(), TokenLine()])
  }

  /** Such an estimate is within budget only while the optional module is enabled. */
  lemma {:induction false} MixedUnitsBreakTheGate(region: string)
    ensures Sound(MixedMarket().units)
    ensures var with := Evaluated(MixedMarket(), MixedEstimate(), region, None, {"extra"});
            var without := Evaluated(MixedMarket(), MixedEstimate(), region, None, {});
            with.Ok? && without.Ok? && WithinBudget(with.value) && !WithinBudget(without.value)
  {
    hide Collected, Total, Quote, ModulesOf, EnabledBy, WellFormed, MixedMeter, MillionsOrOnes, ResolveTiers, Charged;
    MixedUnitsBreakTheOrder();
    TokenQuote(region);
    TwoLines(region, {"core", "extra"});
    TwoLines(region, {"core"});
    EnabledModules();
  }

  lemma {:induction false} EnabledModules()
    ensures var modules := ModulesOf(MixedEstimate());
            && modules.Keys == {"core", "extra"} && WellFormed(modules)
            && EnabledBy(modules, {"extra"}) == {"core", "extra"} && EnabledBy(modules, {}) == {"core"}
  {
    var modules := ModulesOf(MixedEstimate());
    assert modules == map["core" := Some(true), "extra" := Some(false)];
    assert (set name | name in modules && modules[name] == Some(true)) == {"core"};
  }

  lemma {:induction false} TokenQuote(region: string)
    requires Sound(MillionsOrOnes)
    ensures Quote(MixedMarket(), TokenLine(), region) == Ok(-499998.5)
  {
    MixedUnitsBreakTheOrder();
    hide ResolveTiers, Charged, MixedMeter;
  }

  lemma {:induction false} TwoLines(region: string, enabled: set<string>)
    requires Sound(MixedMarket().units) && "core" in enabled
    requires Quote(MixedMarket(), TokenLine(), region) == Ok(-499998.5)
    ensures var lists := Collected(MixedMarket(), {"core", "extra"}, enabled, region, [BaseLine(), TokenLine()]);
            lists.Ok? && Total(lists.value.azure) == 100.0 + if "extra" in enabled then -499998.5 else 0.0
  {
    hide Quote, MixedMarket, Collected, Total;
    CollectedPair(MixedMarket(), {"core", "extra"}, enabled, region, BaseLine(), TokenLine());
  }

  lemma {:induction false} CollectedPair(market: Market, known: set<string>, enabled: set<string>, region: string,
                                         a: Line, b: Line)
    requires Sound(market.units)
    requires Placed(market, known, enabled, region, a).Ok? && Placed(market, known, enabled, region, b).Ok?
    ensures var x, y := Placed(market, known, enabled, region, a).value,
            Placed(market, known, enabled, region, b).value;
            var lists := Collected(market, known, enabled, region, [a, b]);
            && lists.Ok?
            && Total(lists.value.azure) == (if x.ToAzure? then x.cost else 0.0) + (if y.ToAzure? then y.cost else 0.0)
  {
    hide Placed, Add, Total;
    assert [a, b][..1] == [a] && [a][..0] == [];
    NoTotal();
    AddedTotal(Lists([], [], []), a, Placed(market, known, enabled, region, a).value);
    assert Collected(market, known, enabled, region, []) == Ok(Lists([], [], []));
    var one := Collected(market, known, enabled, region, [a]);
    assert one == Ok(Add(Lists([], [], []), a, Placed(market, known, enabled, region, a).value));
    AddedTotal(one.value, b, Placed(market, known, enabled, region, b).value);
  }
}
