/** Graduated tier pricing: which catalogue rows price a meter, and what a quantity costs. */
module CostTiers {
  import opened Wrappers
  import opened Sorting

  datatype PriceError = NothingMatched | AmbiguousMeter | UnreadableUnit

  /** One row of the price catalogue. */
  datatype Item = Item(meterId: string, meterName: string, reserved: bool, effective: string, tier: Tier)

  datatype Tier = Tier(minimumUnits: real, unitPrice: real, unit: string)

  /** How many base units one unit price covers, where the unit of measure can be read. */
  type Units = string -> Option<real>

  ghost predicate Sound(units: Units) {
    forall u :: units(u).Some? ==> units(u).value > 0.0
  }

  // ------------------------------------------------------------------ resolving a meter

  datatype MeterSpec = MeterSpec(nameMatches: Option<string -> bool>, reservationTerm: bool)

  function Named(spec: MeterSpec, items: seq<Item>): seq<Item> {
    if spec.nameMatches.None? then items else Filter(items, (i: Item) => spec.nameMatches.value(i.meterName))
  }

  function Unreserved(spec: MeterSpec, items: seq<Item>): seq<Item> {
    if spec.reservationTerm then items else Filter(items, (i: Item) => !i.reserved)
  }

  function Latest(items: seq<Item>): string {
    if items == [] then ""
    else
      var rest := Latest(items[1..]);
      if StringLe(rest, items[0].effective) then items[0].effective else rest
  }

  function TiersOf(items: seq<Item>): seq<Tier> {
    if items == [] then [] else [items[0].tier] + TiersOf(items[1..])
  }

  function ByMinimum(): (Tier, Tier) -> bool {
    (a: Tier, b: Tier) => a.minimumUnits <= b.minimumUnits
  }

  predicate Ambiguous(items: seq<Item>) {
    exists i, j :: 0 <= i < |items| && 0 <= j < |items| && items[i].meterId != items[j].meterId
  }

  function ResolveTiers(items: seq<Item>, spec: MeterSpec): Result<seq<Tier>, PriceError> {
    var kept := Unreserved(spec, Named(spec, items));
    if items == [] || Named(spec, items) == [] then Err(NothingMatched)
    else if Ambiguous(kept) then Err(AmbiguousMeter)
    else if kept == [] then Err(NothingMatched)
    else Ok(Sort(TiersOf(Filter(kept, (i: Item) => i.effective == Latest(kept))), ByMinimum()))
  }

  lemma {:induction false} LatestIsAMaximum(items: seq<Item>)
    requires items != []
    ensures exists i :: i in items && i.effective == Latest(items)
    ensures forall i :: i in items ==> StringLe(i.effective, Latest(items))
  {
    var rest := Latest(items[1..]);
    StringLeTotal(rest, items[0].effective);
    assert items[0] in items;
    if items[1..] != [] {
      LatestIsAMaximum(items[1..]);
      forall i | i in items
        ensures StringLe(i.effective, Latest(items))
      {
        if i != items[0] {
          assert i in items[1..];
          if StringLe(rest, items[0].effective) {
            StringLeTransitive(i.effective, rest, items[0].effective);
          }
        } else {
          StringLeTotal(i.effective, i.effective);
        }
      }
      if !StringLe(rest, items[0].effective) {
        var i :| i in items[1..] && i.effective == rest;
        assert i in items;
      }
    } else {
      StringLeTotal(items[0].effective, items[0].effective);
    }
  }

  lemma {:induction false} TiersOfMembers(items: seq<Item>)
    ensures forall t :: t in TiersOf(items) <==> exists i :: i in items && i.tier == t
    ensures |TiersOf(items)| == |items|
  {
    if items != [] {
      TiersOfMembers(items[1..]);
      assert items == [items[0]] + items[1..];
      forall t
        ensures t in TiersOf(items) <==> exists i :: i in items && i.tier == t
      {
        if t in TiersOf(items[1..]) {
          var i :| i in items[1..] && i.tier == t;
          assert i in items;
        }
        assert items[0] in items;
      }
    }
  }

  /** A resolved meter: rows of one meter and of its newest effective date only, and all of
      those, in ascending order of their minimum. */
  lemma {:induction false} ResolvedTiers(items: seq<Item>, spec: MeterSpec)
    requires ResolveTiers(items, spec).Ok?
    ensures var tiers := ResolveTiers(items, spec).value;
            var kept := Unreserved(spec, Named(spec, items));
            && tiers != []
            && Sorted(tiers, ByMinimum())
            && (forall i, j :: i in kept && j in kept ==> i.meterId == j.meterId)
            && (forall i :: i in kept ==> StringLe(i.effective, Latest(kept)))
            && forall t :: t in tiers <==> exists i :: i in kept && i.effective == Latest(kept) && i.tier == t
  {
    hide StringLe, Latest;
    var kept := Unreserved(spec, Named(spec, items));
    var newest := Filter(kept, (i: Item) => i.effective == Latest(kept));
    LatestIsAMaximum(kept);
    FilterMembers(kept, (i: Item) => i.effective == Latest(kept));
    TiersOfMembers(newest);
    SortSorted(TiersOf(newest), ByMinimum());
    SortMembers(TiersOf(newest), ByMinimum());
    SortMultiset(TiersOf(newest), ByMinimum());
    var i :| i in kept && i.effective == Latest(kept);
    assert i in newest;
  }

  // ------------------------------------------------------------- the cost of a quantity

  function Floor(units: Units, t: Tier): real
    requires units(t.unit).Some?
  {
    t.minimumUnits * units(t.unit).value
  }

  function PerUnit(units: Units, t: Tier): real
    requires Sound(units) && units(t.unit).Some?
  {
    t.unitPrice / units(t.unit).value
  }

  /** A tier in base units: priced beyond `floor`, at `price` a unit. */
  datatype Band = Band(floor: real, price: real)

  predicate Readable(units: Units, tiers: seq<Tier>) {
    forall t :: t in tiers ==> units(t.unit).Some?
  }

  function Bands(units: Units, tiers: seq<Tier>): (bands: seq<Band>)
    requires Sound(units) && Readable(units, tiers)
    ensures |bands| == |tiers|
    ensures forall i | 0 <= i < |tiers| :: bands[i] == Band(Floor(units, tiers[i]), PerUnit(units, tiers[i]))
  {
    if tiers == [] then []
    else
      assert tiers[0] in tiers;
      [Band(Floor(units, tiers[0]), PerUnit(units, tiers[0]))] + Bands(units, tiers[1..])
  }

  ghost predicate Rising(bands: seq<Band>) {
    forall i, j | 0 <= i < j < |bands| :: bands[i].floor <= bands[j].floor
  }

  function Pos(x: real): (p: real)
    ensures p >= 0.0 && p >= x && (p == 0.0 || p == x)
  {
    if x > 0.0 then x else 0.0
  }

  function Charge(units: real, price: real): real {
    units * price
  }

  /** The upper end of the first band as far as a quantity reaches into it. */
  function Reach(bands: seq<Band>, q: real): real {
    if |bands| > 1 && bands[1].floor < q then bands[1].floor else q
  }

  /** The part of a quantity that falls in the first band. */
  function Width(bands: seq<Band>, q: real): real
    requires bands != []
  {
    Pos(Reach(bands, q) - bands[0].floor)
  }

  /** The reference bill: every band charged for its clipped width, with no early exit. */
  function Clipped(bands: seq<Band>, q: real): real {
    if bands == [] then 0.0 else Charge(Width(bands, q), bands[0].price) + Clipped(bands[1..], q)
  }

  function Billed(bands: seq<Band>, q: real): real {
    if bands == [] then 0.0 else Width(bands, q) + Billed(bands[1..], q)
  }

  /** The bill with the early exit: stop at the first floor the quantity does not reach. */
  function Stepwise(bands: seq<Band>, q: real): real {
    if bands == [] || q <= bands[0].floor then 0.0
    else Charge(Reach(bands, q) - bands[0].floor, bands[0].price) + Stepwise(bands[1..], q)
  }

  /** What a quantity costs. */
  function Cost(bands: seq<Band>, q: real): real {
    if q <= 0.0 then 0.0 else Stepwise(bands, q)
  }

  /** The bill on catalogue tiers, where a unit of measure may turn out unreadable: only the
      units the loop gets to are read. */
  function Bill(units: Units, tiers: seq<Tier>, q: real): Result<real, PriceError>
    requires Sound(units)
    decreases tiers
  {
    if tiers == [] then Ok(0.0)
    else if units(tiers[0].unit).None? then Err(UnreadableUnit)
    else if |tiers| > 1 && units(tiers[1].unit).None? then Err(UnreadableUnit)
    else
      var lower := Floor(units, tiers[0]);
      var reach := if |tiers| > 1 && Floor(units, tiers[1]) < q then Floor(units, tiers[1]) else q;
      if q <= lower then Ok(0.0)
      else
        var rest := Bill(units, tiers[1..], q);
        if rest.Err? then rest else Ok(Charge(reach - lower, PerUnit(units, tiers[0])) + rest.value)
  }

  /** The charge for a quantity of a resolved meter. */
  function Charged(units: Units, tiers: seq<Tier>, q: real): Result<real, PriceError>
    requires Sound(units)
  {
    if q <= 0.0 then Ok(0.0) else Bill(units, tiers, q)
  }

  function Plus(total: real, rest: Result<real, PriceError>): Result<real, PriceError> {
    if rest.Err? then rest else Ok(total + rest.value)
  }

  method CostForQuantity(units: Units, tiers: seq<Tier>, quantity: real) returns (r: Result<real, PriceError>)
    requires Sound(units)
    ensures r == Charged(units, tiers, quantity)
  {
    hide Floor, PerUnit, Charge;
    if quantity <= 0.0 {
      return Ok(0.0);
    }
    var total := 0.0;
    var index := 0;
    while index < |tiers|
      invariant 0 <= index <= |tiers|
      invariant Plus(total, Bill(units, tiers[index..], quantity)) == Bill(units, tiers, quantity)
    {
      assert tiers[index..][1..] == tiers[index + 1..];
      var tier := tiers[index];
      if units(tier.unit).None? {
        return Err(UnreadableUnit);
      }
      var lower := Floor(units, tier);
      var reach := quantity;
      if index + 1 < |tiers| {
        if units(tiers[index + 1].unit).None? {
          return Err(UnreadableUnit);
        }
        var upper := Floor(units, tiers[index + 1]);
        reach := if quantity <= upper then quantity else upper;
      }
      if quantity <= lower {
        break;
      }
      total := total + Charge(reach - lower, PerUnit(units, tier));
      index := index + 1;
    }
    return Ok(total);
  }

  /** With every unit of measure readable, the charge is the cost of the tiers in base units. */
  lemma {:induction false} ChargedIsCost(units: Units, tiers: seq<Tier>, q: real)
    requires Sound(units) && Readable(units, tiers)
    ensures Charged(units, tiers, q) == Ok(Cost(Bands(units, tiers), q))
  {
    BillIsStepwise(units, tiers, q);
  }

  lemma {:induction false} BillIsStepwise(units: Units, tiers: seq<Tier>, q: real)
    requires Sound(units) && Readable(units, tiers)
    ensures Bill(units, tiers, q) == Ok(Stepwise(Bands(units, tiers), q))
    decreases tiers
  {
    hide Floor, PerUnit, Charge;
    if tiers != [] {
      BillIsStepwise(units, tiers[1..], q);
      assert tiers[0] in tiers && Bands(units, tiers)[1..] == Bands(units, tiers[1..]);
      if |tiers| > 1 {
        assert tiers[1] in tiers;
      }
    }
  }

  lemma {:induction false} NothingBelow(bands: seq<Band>, q: real)
    requires Rising(bands)
    requires bands != [] ==> q <= bands[0].floor
    ensures Clipped(bands, q) == 0.0
  {
    if bands != [] {
      NothingBelow(bands[1..], q);
    }
  }

  /** Where the floors rise, stopping early changes nothing: the cost is the sum over every
      tier of its clipped width times its price. */
  lemma {:induction false} EarlyExitIsTheClippedSum(bands: seq<Band>, q: real)
    requires Rising(bands)
    ensures Stepwise(bands, q) == Clipped(bands, q)
  {
    if bands != [] {
      if q <= bands[0].floor {
        NothingBelow(bands, q);
      } else {
        EarlyExitIsTheClippedSum(bands[1..], q);
        assert Reach(bands, q) >= bands[0].floor;
      }
    }
  }

  /** Tiers resolved for a meter that keeps one unit of measure have rising floors. */
  lemma {:induction false} OneUnitRises(units: Units, tiers: seq<Tier>)
    requires Sound(units) && Readable(units, tiers) && Sorted(tiers, ByMinimum())
    requires forall s, t :: s in tiers && t in tiers ==> s.unit == t.unit
    ensures Rising(Bands(units, tiers))
  {
    hide Floor, PerUnit;
    var bands := Bands(units, tiers);
    forall i, j | 0 <= i < j < |bands|
      ensures bands[i].floor <= bands[j].floor
    {
      assert tiers[i] in tiers && tiers[j] in tiers;
      assert ByMinimum()(tiers[i], tiers[j]);
      FloorsFollow(units, tiers[i], tiers[j]);
    }
  }

  lemma {:induction false} FloorsFollow(units: Units, s: Tier, t: Tier)
    requires Sound(units) && units(s.unit).Some? && s.unit == t.unit && s.minimumUnits <= t.minimumUnits
    ensures Floor(units, s) <= Floor(units, t)
  {
    Scale(s.minimumUnits, t.minimumUnits, units(s.unit).value);
  }

  /** Rising floors, as a caller can test them on resolved tiers; unreadable units are passed over. */
  predicate FloorsRise(units: Units, tiers: seq<Tier>) {
    |tiers| < 2
    || ((units(tiers[0].unit).Some? && units(tiers[1].unit).Some? ==> Floor(units, tiers[0]) <= Floor(units, tiers[1]))
        && FloorsRise(units, tiers[1..]))
  }

  ghost predicate Ascending(bands: seq<Band>) {
    |bands| < 2 || (bands[0].floor <= bands[1].floor && Ascending(bands[1..]))
  }

  lemma {:induction false} AscendingIsRising(bands: seq<Band>)
    ensures Ascending(bands) <==> Rising(bands)
  {
    if |bands| > 1 {
      AscendingIsRising(bands[1..]);
      if Ascending(bands) {
        forall i, j | 0 <= i < j < |bands|
          ensures bands[i].floor <= bands[j].floor
        {
          assert bands[j] == bands[1..][j - 1];
          assert i > 0 ==> bands[i] == bands[1..][i - 1];
          assert bands[1].floor <= bands[j].floor;
        }
      }
    }
  }

  lemma {:induction false} FloorsAscend(units: Units, tiers: seq<Tier>)
    requires Sound(units) && Readable(units, tiers)
    ensures FloorsRise(units, tiers) <==> Ascending(Bands(units, tiers))
  {
    hide Floor, PerUnit;
    if |tiers| > 1 {
      assert Bands(units, tiers)[1..] == Bands(units, tiers[1..]);
      assert tiers[0] in tiers && tiers[1] in tiers;
      FloorsAscend(units, tiers[1..]);
    }
  }

  lemma {:induction false} FloorsRiseMeans(units: Units, tiers: seq<Tier>)
    requires Sound(units) && Readable(units, tiers)
    ensures FloorsRise(units, tiers) <==> Rising(Bands(units, tiers))
  {
    hide FloorsRise, Ascending, Rising;
    FloorsAscend(units, tiers);
    AscendingIsRising(Bands(units, tiers));
  }

  lemma {:induction false} OneUnitFloorsRise(units: Units, tiers: seq<Tier>)
    requires Sound(units) && Sorted(tiers, ByMinimum())
    requires forall s, t :: s in tiers && t in tiers ==> s.unit == t.unit
    ensures FloorsRise(units, tiers)
  {
    hide Floor;
    if |tiers| > 1 {
      assert tiers[0] in tiers && tiers[1] in tiers;
      assert ByMinimum()(tiers[0], tiers[1]);
      if units(tiers[0].unit).Some? {
        FloorsFollow(units, tiers[0], tiers[1]);
      }
      OneUnitFloorsRise(units, tiers[1..]);
    }
  }

  /** With rising floors and no negative price, nothing is ever charged a negative amount. */
  lemma {:induction false} BillIsNotNegative(units: Units, tiers: seq<Tier>, q: real)
    requires Sound(units) && FloorsRise(units, tiers) && forall t :: t in tiers ==> t.unitPrice >= 0.0
    requires Bill(units, tiers, q).Ok?
    ensures Bill(units, tiers, q).value >= 0.0
    decreases tiers
  {
    hide Floor, PerUnit, Charge;
    if tiers != [] && q > Floor(units, tiers[0]) {
      assert tiers[0] in tiers && forall t :: t in tiers[1..] ==> t in tiers;
      BillIsNotNegative(units, tiers[1..], q);
      var lower := Floor(units, tiers[0]);
      var reach := if |tiers| > 1 && Floor(units, tiers[1]) < q then Floor(units, tiers[1]) else q;
      ChargeIsNotNegative(units, tiers[0], reach - lower);
    }
  }

  lemma {:induction false} ChargeIsNotNegative(units: Units, t: Tier, width: real)
    requires Sound(units) && units(t.unit).Some? && t.unitPrice >= 0.0 && width >= 0.0
    ensures Charge(width, PerUnit(units, t)) >= 0.0
  {
    assert PerUnit(units, t) >= 0.0;
    Scale(0.0, width, PerUnit(units, t));
  }

  ghost predicate AllCharged(bands: seq<Band>) {
    forall b :: b in bands ==> b.price > 0.0
  }

  ghost predicate Priced(bands: seq<Band>) {
    forall b :: b in bands ==> b.price >= 0.0
  }

  /** The first band charges for some part of a large enough quantity. */
  predicate Billable(bands: seq<Band>) {
    bands != [] && bands[0].price > 0.0 && (|bands| == 1 || bands[0].floor < bands[1].floor)
  }

  /** No band that costs anything has its floor above its successor's. */
  predicate NoFall(bands: seq<Band>) {
    |bands| < 2 || ((bands[0].price > 0.0 ==> bands[0].floor <= bands[1].floor) && NoFall(bands[1..]))
  }

  predicate BillableAbove(floor: real, bands: seq<Band>)
    decreases bands
  {
    bands == [] || ((Billable(bands) ==> floor <= bands[0].floor) && BillableAbove(floor, bands[1..]))
  }

  /** No band hides one behind it that charges for smaller quantities than its own floor. */
  predicate NoneHidden(bands: seq<Band>) {
    bands == [] || (BillableAbove(bands[0].floor, bands[1..]) && NoneHidden(bands[1..]))
  }

  predicate Harmless(bands: seq<Band>) {
    NoFall(bands) && NoneHidden(bands)
  }

  lemma {:induction false} NothingCharged(floor: real, bands: seq<Band>, q: real)
    requires Priced(bands) && BillableAbove(floor, bands) && q <= floor
    ensures Clipped(bands, q) == 0.0
    decreases bands
  {
    if bands != [] {
      assert bands[0] in bands;
      NothingCharged(floor, bands[1..], q);
    }
  }

  lemma {:induction false} HarmlessIsRight(bands: seq<Band>, q: real)
    requires Priced(bands) && Harmless(bands)
    ensures Stepwise(bands, q) == Clipped(bands, q)
  {
    if bands != [] {
      assert bands[0] in bands;
      if q <= bands[0].floor {
        NothingCharged(bands[0].floor, bands[1..], q);
      } else {
        HarmlessIsRight(bands[1..], q);
      }
    }
  }

  /** The loop never bills more than the clipped widths, since a step back is a negative charge. */
  lemma {:induction false} NeverAboveClipped(bands: seq<Band>, q: real)
    requires Priced(bands)
    ensures Stepwise(bands, q) <= Clipped(bands, q)
  {
    if bands != [] {
      assert bands[0] in bands;
      NeverAboveClipped(bands[1..], q);
      Scale(Reach(bands, q) - bands[0].floor, Width(bands, q), bands[0].price);
      Scale(0.0, Width(bands, q), bands[0].price);
      if q <= bands[0].floor {
        NeverNegative(bands[1..], q);
      }
    }
  }

  lemma {:induction false} NeverNegative(bands: seq<Band>, q: real)
    requires Priced(bands)
    ensures Clipped(bands, q) >= 0.0
  {
    if bands != [] {
      assert bands[0] in bands;
      NeverNegative(bands[1..], q);
      Scale(0.0, Width(bands, q), bands[0].price);
    }
  }

  function Above(bands: seq<Band>): (q: real)
    ensures forall b :: b in bands ==> b.floor < q
  {
    if bands == [] then 0.0
    else
      var rest := Above(bands[1..]);
      if rest > bands[0].floor then rest else bands[0].floor + 1.0
  }

  /** Beyond every floor the loop charges each step back. */
  lemma {:induction false} FallUndercharges(bands: seq<Band>, q: real)
    requires Priced(bands) && !NoFall(bands) && forall b :: b in bands ==> b.floor < q
    ensures Stepwise(bands, q) < Clipped(bands, q)
  {
    assert bands[0] in bands && bands[1] in bands;
    if bands[0].price > 0.0 && bands[1].floor < bands[0].floor {
      NeverAboveClipped(bands[1..], q);
      Gap(bands[0].floor - bands[1].floor, bands[0].price);
    } else {
      FallUndercharges(bands[1..], q);
      Scale(Reach(bands, q) - bands[0].floor, Width(bands, q), bands[0].price);
    }
  }

  lemma {:induction false} Gap(width: real, price: real)
    requires width > 0.0 && price > 0.0
    ensures Charge(-width, price) < 0.0 && Charge(0.0, price) == 0.0 && Charge(width, price) > 0.0
  {
    assert width * price > 0.0;
  }

  lemma {:induction false} HiddenIsCharged(floor: real, bands: seq<Band>, q: real)
    requires Priced(bands) && !BillableAbove(floor, bands) && floor <= q
    ensures Clipped(bands, q) > 0.0
    ensures exists b :: b in bands && b.floor < q
    decreases bands
  {
    assert bands[0] in bands;
    if Billable(bands) && bands[0].floor < floor {
      Gap(Width(bands, q), bands[0].price);
      NeverNegative(bands[1..], q);
    } else {
      HiddenIsCharged(floor, bands[1..], q);
      Scale(0.0, Width(bands, q), bands[0].price);
    }
  }

  /** At a floor with a charging band hidden behind it, the loop stops and bills too little. */
  lemma {:induction false} HiddenUndercharges(bands: seq<Band>) returns (q: real)
    requires Priced(bands) && NoFall(bands) && !NoneHidden(bands)
    ensures Stepwise(bands, q) < Clipped(bands, q)
    ensures exists b :: b in bands && b.floor < q
  {
    assert bands[0] in bands;
    if !BillableAbove(bands[0].floor, bands[1..]) {
      q := bands[0].floor;
      HiddenIsCharged(q, bands[1..], q);
      Scale(0.0, Width(bands, q), bands[0].price);
    } else {
      q := HiddenUndercharges(bands[1..]);
      Scale(0.0, Width(bands, q), bands[0].price);
      NoFallNotNegative(bands[1..], q);
    }
  }

  lemma {:induction false} NoFallNotNegative(bands: seq<Band>, q: real)
    requires Priced(bands) && NoFall(bands)
    ensures Stepwise(bands, q) >= 0.0
  {
    if bands != [] && q > bands[0].floor {
      assert bands[0] in bands;
      NoFallNotNegative(bands[1..], q);
      if bands[0].price > 0.0 {
        Scale(0.0, Reach(bands, q) - bands[0].floor, bands[0].price);
      }
    }
  }

  lemma {:induction false} HarmUndercharges(bands: seq<Band>) returns (q: real)
    requires Priced(bands) && !Harmless(bands)
    ensures Stepwise(bands, q) < Clipped(bands, q)
    ensures exists b :: b in bands && b.floor < q
  {
    hide Stepwise, Clipped, NoneHidden;
    if NoFall(bands) {
      q := HiddenUndercharges(bands);
    } else {
      q := Above(bands);
      FallUndercharges(bands, q);
      assert bands[0] in bands;
    }
  }

  /** Main result on the early exit, free bands included: stopping early is right for every
      quantity exactly when no band that costs anything falls to its successor and none is hidden
      behind a higher floor. */
  lemma {:induction false} EarlyExitIsRightIff(bands: seq<Band>)
    requires Priced(bands)
    ensures (forall q :: Stepwise(bands, q) == Clipped(bands, q)) <==> Harmless(bands)
  {
    if Harmless(bands) {
      forall q
        ensures Stepwise(bands, q) == Clipped(bands, q)
      {
        HarmlessIsRight(bands, q);
      }
    } else {
      var q := HarmUndercharges(bands);
    }
  }

  /** Where every band costs something, that is to say that the floors rise. */
  lemma {:induction false} HarmlessIsRising(bands: seq<Band>)
    requires AllCharged(bands)
    ensures Harmless(bands) <==> Rising(bands)
  {
    NoFallIsAscending(bands);
    AscendingIsRising(bands);
    if Rising(bands) {
      RisingHidesNone(bands);
    }
  }

  lemma {:induction false} NoFallIsAscending(bands: seq<Band>)
    requires AllCharged(bands)
    ensures NoFall(bands) <==> Ascending(bands)
  {
    if |bands| > 1 {
      assert bands[0] in bands;
      NoFallIsAscending(bands[1..]);
    }
  }

  lemma {:induction false} RisingHidesNone(bands: seq<Band>)
    requires Rising(bands)
    ensures NoneHidden(bands)
  {
    if bands != [] {
      RisingHidesNone(bands[1..]);
      AllAbove(bands[0].floor, bands[1..]);
    }
  }

  lemma {:induction false} AllAbove(floor: real, bands: seq<Band>)
    requires forall i | 0 <= i < |bands| :: floor <= bands[i].floor
    ensures BillableAbove(floor, bands)
    decreases bands
  {
    if bands != [] {
      AllAbove(floor, bands[1..]);
    }
  }

  /** The same of the code: over every quantity it is asked to price, the charge for readable
      tiers is the clipped sum exactly when their bands are harmless; with no free tier among
      them, exactly when their floors rise in base units. */
  lemma {:induction false} ChargeIsRightIff(units: Units, tiers: seq<Tier>)
    requires Sound(units) && Readable(units, tiers)
    requires forall t :: t in tiers ==> t.minimumUnits >= 0.0 && t.unitPrice >= 0.0
    ensures (forall q :: q > 0.0 ==> Charged(units, tiers, q) == Ok(Clipped(Bands(units, tiers), q))) <==>
              Harmless(Bands(units, tiers))
    ensures (forall t :: t in tiers ==> t.unitPrice > 0.0) ==>
              (Harmless(Bands(units, tiers)) <==> FloorsRise(units, tiers))
  {
    hide Stepwise, Clipped, Floor, PerUnit, Charged, FloorsRise, Harmless;
    var bands := Bands(units, tiers);
    forall b | b in bands
      ensures b.price >= 0.0 && b.floor >= 0.0
      ensures (forall t :: t in tiers ==> t.unitPrice > 0.0) ==> b.price > 0.0
    {
      var i :| 0 <= i < |bands| && bands[i] == b;
      assert tiers[i] in tiers;
      BandSigns(units, tiers[i]);
    }
    forall q | q > 0.0
      ensures Charged(units, tiers, q) == Ok(Stepwise(bands, q))
    {
      PositiveCharge(units, tiers, q);
    }
    if Harmless(bands) {
      forall q
        ensures Stepwise(bands, q) == Clipped(bands, q)
      {
        HarmlessIsRight(bands, q);
      }
    } else {
      var q := HarmUndercharges(bands);
      assert q > 0.0;
    }
    if forall t :: t in tiers ==> t.unitPrice > 0.0 {
      FloorsRiseMeans(units, tiers);
      HarmlessIsRising(bands);
    }
  }

  lemma {:induction false} BandSigns(units: Units, t: Tier)
    requires Sound(units) && units(t.unit).Some? && t.minimumUnits >= 0.0 && t.unitPrice >= 0.0
    ensures PerUnit(units, t) >= 0.0 && Floor(units, t) >= 0.0
    ensures t.unitPrice > 0.0 ==> PerUnit(units, t) > 0.0
  {
    Scale(0.0, t.minimumUnits, units(t.unit).value);
  }

  lemma {:induction false} PositiveCharge(units: Units, tiers: seq<Tier>, q: real)
    requires Sound(units) && Readable(units, tiers) && q > 0.0
    ensures Charged(units, tiers, q) == Ok(Stepwise(Bands(units, tiers), q))
  {
    ChargedIsCost(units, tiers, q);
  }

  function MillionsOrOnes(unit: string): Option<real> {
    Some(if unit == "1M" then 1000000.0 else 1.0)
  }

  /** A meter whose newest rows mix units of measure, as the catalogue may list it. */
  function MixedMeter(): seq<Item> {
    [Item("meter", "Tokens", false, "2025-01-01", Tier(1.0, 1000000.0, "1M")),
     Item("meter", "Tokens", false, "2025-01-01", Tier(2.0, 0.25, "1"))]
  }

  lemma {:induction false} TwoRowsResolve(a: Item, b: Item, spec: MeterSpec)
    requires spec == MeterSpec(None, false) && !a.reserved && !b.reserved
    requires a.meterId == b.meterId && a.effective == b.effective && a.tier.minimumUnits <= b.tier.minimumUnits
    ensures ResolveTiers([a, b], spec) == Ok([a.tier, b.tier])
  {
    hide StringLe;
    var items := [a, b];
    assert items[1..] == [b] && [b][1..] == [];
    FilterAll(items, (i: Item) => !i.reserved);
    assert Unreserved(spec, Named(spec, items)) == items;
    TwoRowsLatest(a, b);
    FilterAll(items, (i: Item) => i.effective == Latest(items));
    assert TiersOf([b]) == [b.tier] + TiersOf([]) == [b.tier];
    assert TiersOf(items) == [a.tier] + TiersOf([b]) == [a.tier, b.tier];
    SortTwo(a.tier, b.tier, ByMinimum());
  }

  lemma {:induction false} TwoRowsLatest(a: Item, b: Item)
    requires a.effective == b.effective
    ensures Latest([a, b]) == a.effective
  {
    assert [a, b][1..] == [b] && [b][1..] == [];
    StringLeTotal(a.effective, a.effective);
    assert Latest([]) == "" && StringLe("", b.effective);
    assert Latest([b]) == b.effective;
    assert Latest([a, b]) == if StringLe(Latest([b]), a.effective) then a.effective else Latest([b]);
  }

  lemma {:induction false} TwoTiersBilled(units: Units, a: Tier, b: Tier, q: real)
    requires Sound(units) && units(a.unit).Some? && units(b.unit).Some?
    requires Floor(units, a) < q && Floor(units, b) < q
    ensures Bill(units, [a, b], q) ==
            Ok(Charge(Floor(units, b) - Floor(units, a), PerUnit(units, a))
              + Charge(q - Floor(units, b), PerUnit(units, b)))
  {
    hide Floor, PerUnit, Charge;
    assert [a, b][1..] == [b] && [b][1..] == [];
    assert Bill(units, [b], q) == Ok(Charge(q - Floor(units, b), PerUnit(units, b)) + 0.0);
  }

  /** Sorting by the minimum does not order such floors: the meter resolves, every unit is
      readable, every price is positive, and two million units are billed a negative amount. */
  lemma {:induction false} MixedUnitsBreakTheOrder()
    ensures Sound(MillionsOrOnes)
    ensures var tiers := ResolveTiers(MixedMeter(), MeterSpec(None, false));
            && tiers == Ok([MixedMeter()[0].tier, MixedMeter()[1].tier])
            && Charged(MillionsOrOnes, tiers.value, 2000000.0) == Ok(-499998.5)
  {
    hide *;
    MixedResolves();
    MixedFloors();
    MixedTotal();
    MixedBill();
  }

  lemma {:induction false} MixedResolves()
    ensures |MixedMeter()| == 2
    ensures ResolveTiers(MixedMeter(), MeterSpec(None, false)) == Ok([MixedMeter()[0].tier, MixedMeter()[1].tier])
  {
    var a, b := MixedMeter()[0], MixedMeter()[1];
    assert MixedMeter() == [a, b];
    hide ResolveTiers;
    TwoRowsResolve(a, b, MeterSpec(None, false));
  }

  lemma {:induction false} MixedBill()
    requires Sound(MillionsOrOnes) && |MixedMeter()| == 2
    requires var a, b := MixedMeter()[0].tier, MixedMeter()[1].tier;
             && MillionsOrOnes(a.unit).Some? && MillionsOrOnes(b.unit).Some?
             && Floor(MillionsOrOnes, a) == 1000000.0 && PerUnit(MillionsOrOnes, a) == 1.0
             && Floor(MillionsOrOnes, b) == 2.0 && PerUnit(MillionsOrOnes, b) == 0.25
    ensures Charged(MillionsOrOnes, [MixedMeter()[0].tier, MixedMeter()[1].tier], 2000000.0)
         == Ok(Charge(2.0 - 1000000.0, 1.0) + Charge(2000000.0 - 2.0, 0.25))
  {
    hide MixedMeter, MillionsOrOnes, Floor, PerUnit, Bill, Charge;
    TwoTiersBilled(MillionsOrOnes, MixedMeter()[0].tier, MixedMeter()[1].tier, 2000000.0);
  }

  lemma {:induction false} MixedTotal()
    ensures Charge(2.0 - 1000000.0, 1.0) + Charge(2000000.0 - 2.0, 0.25) == -499998.5
  {
  }

  lemma {:induction false} MixedFloors()
    ensures Sound(MillionsOrOnes)
    ensures var a, b := MixedMeter()[0].tier, MixedMeter()[1].tier;
            && MillionsOrOnes(a.unit).Some? && MillionsOrOnes(b.unit).Some?
            && Floor(MillionsOrOnes, a) == 1000000.0 && PerUnit(MillionsOrOnes, a) == 1.0
            && Floor(MillionsOrOnes, b) == 2.0 && PerUnit(MillionsOrOnes, b) == 0.25
  {
    assert MillionsOrOnes("1M") == Some(1000000.0) && MillionsOrOnes("1") == Some(1.0);
  }

  lemma {:induction false} Scale(a: real, b: real, k: real)
    requires a <= b && k >= 0.0
    ensures a * k <= b * k
  {
    assert (b - a) * k >= 0.0;
  }

  // ----------------------------------------------------------------- laws of the bill

  lemma {:induction false} ChargeUnits(x: real, y: real, p: real)
    ensures Charge(x + y, p) == Charge(x, p) + Charge(y, p)
    ensures Charge(0.0, p) == 0.0
  {
  }

  lemma {:induction false} ChargePrices(x: real, p: real, r: real)
    ensures Charge(x, p + r) == Charge(x, p) + Charge(x, r)
  {
  }

  lemma {:induction false} ChargeGrows(x: real, y: real, p: real)
    requires x <= y
    ensures p >= 0.0 ==> Charge(x, p) <= Charge(y, p)
    ensures p <= 0.0 ==> Charge(x, p) >= Charge(y, p)
  {
    var d := y - x;
    ChargeUnits(x, d, p);
    assert x + d == y;
    ChargeSign(d, p);
  }

  lemma {:induction false} ChargeSign(width: real, p: real)
    requires width >= 0.0
    ensures p >= 0.0 ==> Charge(width, p) >= 0.0
    ensures p <= 0.0 ==> Charge(width, p) <= 0.0
  {
  }

  /** The widths billed add up to the quantity above the first floor: no unit is charged twice
      and none above that floor is free. */
  lemma {:induction false} BilledWidthsAddUp(bands: seq<Band>, q: real)
    requires Rising(bands) && bands != []
    ensures Billed(bands, q) == Pos(q - bands[0].floor)
  {
    if |bands| > 1 {
      BilledWidthsAddUp(bands[1..], q);
    } else {
      assert Billed(bands[1..], q) == 0.0;
    }
  }

  lemma {:induction false} ClippedGrows(bands: seq<Band>, q: real, r: real)
    requires Priced(bands) && q <= r
    ensures 0.0 <= Clipped(bands, q) <= Clipped(bands, r)
  {
    hide Charge;
    if bands != [] {
      assert bands[0] in bands;
      ClippedGrows(bands[1..], q, r);
      ChargeGrows(Width(bands, q), Width(bands, r), bands[0].price);
      ChargeGrows(0.0, Width(bands, q), bands[0].price);
      ChargeUnits(0.0, 0.0, bands[0].price);
    }
  }

  /** At non-negative prices a larger quantity never costs less, and nothing costs less than nothing. */
  lemma {:induction false} CostIsMonotone(bands: seq<Band>, q: real, r: real)
    requires Rising(bands) && Priced(bands) && q <= r
    ensures 0.0 <= Cost(bands, q) <= Cost(bands, r)
  {
    EarlyExitIsTheClippedSum(bands, q);
    EarlyExitIsTheClippedSum(bands, r);
    ClippedGrows(bands, q, r);
    ClippedGrows(bands, r, r);
  }

  /** The bill as changes of slope: each floor adds the change of price to everything above it. */
  function Hinges(previous: real, bands: seq<Band>, q: real): real
    decreases bands
  {
    if bands == [] then 0.0
    else Charge(Pos(q - bands[0].floor), bands[0].price - previous) + Hinges(bands[0].price, bands[1..], q)
  }

  lemma {:induction false} ClippedIsHinges(previous: real, bands: seq<Band>, q: real)
    requires Rising(bands) && bands != []
    ensures Clipped(bands, q) == Charge(Pos(q - bands[0].floor), previous) + Hinges(previous, bands, q)
    decreases bands
  {
    hide Charge;
    var p, x := bands[0].price, Pos(q - bands[0].floor);
    ChargePrices(x, previous, p - previous);
    if |bands| == 1 {
      assert Clipped(bands[1..], q) == 0.0 && Hinges(p, bands[1..], q) == 0.0;
    } else {
      ClippedIsHinges(p, bands[1..], q);
      var y := Pos(q - bands[1].floor);
      assert Width(bands, q) == x - y;
      ChargeUnits(x - y, y, p);
    }
  }

  lemma {:induction false} PosSuperadditive(a: real, b: real, floor: real)
    requires a >= 0.0 && b >= 0.0 && floor >= 0.0
    ensures Pos(a - floor) + Pos(b - floor) <= Pos(a + b - floor)
  {
  }

  ghost predicate PricesRise(previous: real, bands: seq<Band>)
    decreases bands
  {
    bands != [] ==> previous <= bands[0].price && PricesRise(bands[0].price, bands[1..])
  }

  ghost predicate PricesFall(previous: real, bands: seq<Band>)
    decreases bands
  {
    bands != [] ==> previous >= bands[0].price && PricesFall(bands[0].price, bands[1..])
  }

  lemma {:induction false} HingesSplit(previous: real, bands: seq<Band>, a: real, b: real)
    requires Rising(bands) && a >= 0.0 && b >= 0.0
    requires bands != [] ==> bands[0].floor >= 0.0
    ensures PricesRise(previous, bands) ==>
              Hinges(previous, bands, a) + Hinges(previous, bands, b) <= Hinges(previous, bands, a + b)
    ensures PricesFall(previous, bands) ==>
              Hinges(previous, bands, a) + Hinges(previous, bands, b) >= Hinges(previous, bands, a + b)
    decreases bands
  {
    hide Charge, Pos;
    if bands != [] {
      var l, k := bands[0].floor, bands[0].price - previous;
      HingesSplit(bands[0].price, bands[1..], a, b);
      PosSuperadditive(a, b, l);
      ChargeGrows(Pos(a - l) + Pos(b - l), Pos(a + b - l), k);
      ChargeUnits(Pos(a - l), Pos(b - l), k);
    }
  }

  lemma {:induction false} StepwiseSplit(first: real, bands: seq<Band>, a: real, b: real)
    requires bands != [] && Rising(bands) && bands[0].floor >= 0.0 && a >= 0.0 && b >= 0.0
    requires bands[0].floor == 0.0 || first == 0.0
    ensures PricesRise(first, bands) ==> Stepwise(bands, a) + Stepwise(bands, b) <= Stepwise(bands, a + b)
    ensures PricesFall(first, bands) ==> Stepwise(bands, a) + Stepwise(bands, b) >= Stepwise(bands, a + b)
  {
    hide Stepwise, Clipped, Hinges, PricesFall, PricesRise, Rising, Charge;
    var l := bands[0].floor;
    EarlyExitIsTheClippedSum(bands, a);
    EarlyExitIsTheClippedSum(bands, b);
    EarlyExitIsTheClippedSum(bands, a + b);
    ClippedIsHinges(first, bands, a);
    ClippedIsHinges(first, bands, b);
    ClippedIsHinges(first, bands, a + b);
    HingesSplit(first, bands, a, b);
    if l == 0.0 {
      ChargeUnits(a, b, first);
    } else {
      FreeCharge(Pos(a - l));
      FreeCharge(Pos(b - l));
      FreeCharge(Pos(a + b - l));
    }
  }

  lemma {:induction false} FreeCharge(x: real)
    ensures Charge(x, 0.0) == 0.0
  {
  }

  /** Buying more at once pays when prices fall from a zero first floor. Quantities below zero
      cost nothing, so for those the prices must be non-negative too. */
  lemma {:induction false} CostIsSubadditive(bands: seq<Band>, a: real, b: real)
    requires bands != [] && Rising(bands) && bands[0].floor == 0.0 && PricesFall(bands[0].price, bands)
    requires (a >= 0.0 && b >= 0.0) || Priced(bands)
    ensures Cost(bands, a + b) <= Cost(bands, a) + Cost(bands, b)
  {
    hide Stepwise, Rising, PricesFall, Priced;
    if a > 0.0 && b > 0.0 {
      StepwiseSplit(bands[0].price, bands, a, b);
    } else if Priced(bands) {
      CostIsMonotone(bands, a + b, if a <= 0.0 then b else a);
      CostIsMonotone(bands, a, a);
      CostIsMonotone(bands, b, b);
    }
  }

  /** And splitting a purchase pays when prices rise. */
  lemma {:induction false} CostIsSuperadditive(bands: seq<Band>, a: real, b: real)
    requires bands != [] && Rising(bands) && bands[0].floor >= 0.0 && PricesRise(0.0, bands)
    requires a >= 0.0 && b >= 0.0
    ensures Cost(bands, a) + Cost(bands, b) <= Cost(bands, a + b)
  {
    hide Stepwise, Rising, PricesRise;
    if a > 0.0 && b > 0.0 {
      StepwiseSplit(0.0, bands, a, b);
    }
  }
}
