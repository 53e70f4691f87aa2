/** The employee generator: a four-level tree built by index arithmetic, and the proof that
    whatever the random stream, its output passes the key, reference and hierarchy checks. */
module Roster {
  import opened Wrappers
  import opened Random
  import Integrity
  import Text
  import opened Arithmetic

  datatype Region = AMER | EMEA | APAC

  const REGIONS := [AMER, EMEA, APAC]
  const EMPLOYMENT_TYPES := ["permanent", "permanent", "permanent", "fixed_term", "contractor"]

  datatype Site = Site(id: string, region: Region)

  datatype Settings = Settings(
    total: int, given: seq<string>, family: seq<string>, departments: seq<string>, titles: seq<string>,
    leadership: string, globalTitle: string, regionalTitle: string, departmentTitle: string)

  /** What a name is made of: the two parts, and how often the vocabulary has been used up. */
  datatype FullName = FullName(given: string, family: string, cycle: nat)

  datatype Employee = Employee(
    id: string, name: string, title: string, department: string, region: Region, location: string,
    manager: Option<string>, hiredDaysAgo: int, employmentType: string)

  datatype GenerationError = VolumeTooSmall

  function EmployeeId(index: nat): string {
    "EMP-" + Text.Padded(4, index + 1)
  }

  function SitesIn(sites: seq<Site>, region: Region): seq<Site> {
    if sites == [] then []
    else if sites[0].region == region then [sites[0]] + SitesIn(sites[1..], region)
    else SitesIn(sites[1..], region)
  }

  lemma {:induction false} SitesInRegion(sites: seq<Site>, region: Region)
    ensures forall s :: s in SitesIn(sites, region) <==> s in sites && s.region == region
  {
    if sites != [] {
      SitesInRegion(sites[1..], region);
      assert sites == [sites[0]] + sites[1..];
    }
  }

  /** The reference data the generator indexes into. */
  predicate Usable(s: Settings, sites: seq<Site>) {
    && s.given != [] && s.family != [] && s.departments != [] && s.titles != []
    && forall r: Region :: SitesIn(sites, r) != []
  }

  // -------------------------------------------------------------- what row i holds

  function FirstContributor(s: Settings): nat {
    1 + |REGIONS| + |REGIONS| * |s.departments|
  }

  /** Levels of the tree: one global lead, regional leads, department leads, contributors. */
  function Level(s: Settings, i: nat): nat {
    if i == 0 then 0 else if i < 4 then 1 else if i < FirstContributor(s) then 2 else 3
  }

  function RegionAt(i: nat): Region {
    if i == 0 then AMER else if i < 4 then REGIONS[i - 1] else REGIONS[(i - 4) % 3]
  }

  function DepartmentAt(s: Settings, i: nat): string
    requires s.departments != []
  {
    if i < 4 then s.leadership
    else if i < FirstContributor(s) then s.departments[(i - 4) / 3]
    else s.departments[((i - FirstContributor(s)) / 3) % |s.departments|]
  }

  lemma {:induction false} ProductGrows(a: nat, x: nat, y: nat)
    requires x <= y
    ensures a * x <= a * y
  {
  }

  lemma {:induction false} SlotInRange(index: nat, a: nat, b: nat)
    requires a > 0 && b > 0
    ensures a * b > 0
    ensures index % (a * b) / a < b
  {
    ProductGrows(a, 1, b);
    var slot := index % (a * b);
    assert a * (slot / a) <= slot < a * b;
    if b <= slot / a {
      ProductGrows(a, b, slot / a);
    }
  }

  function PartsAt(s: Settings, index: nat): FullName
    requires s.given != [] && s.family != []
  {
    SlotInRange(index, |s.given|, |s.family|);
    var capacity := |s.given| * |s.family|;
    var slot := index % capacity;
    FullName(s.given[slot % |s.given|], s.family[slot / |s.given|], index / capacity)
  }

  /** The number appended once the vocabulary has been used up. */
  function Suffix(cycle: nat): string {
    if cycle == 0 then "" else " " + Text.Decimal(cycle + 1)
  }

  function Rendered(name: FullName): string {
    name.given + " " + (name.family + Suffix(name.cycle))
  }

  function NameAt(s: Settings, index: nat): string
    requires s.given != [] && s.family != []
  {
    Rendered(PartsAt(s, index))
  }

  predicate Plain(name: string) {
    ' ' !in name
  }

  ghost predicate Vocabulary(s: Settings) {
    && s.given != [] && s.family != []
    && (forall a, b | 0 <= a < b < |s.given| :: s.given[a] != s.given[b])
    && (forall a, b | 0 <= a < b < |s.family| :: s.family[a] != s.family[b])
  }

  /** The index at which a pair of vocabulary entries comes up in a cycle. */
  function IndexFor(s: Settings, g: nat, f: nat, cycle: nat): nat {
    cycle * (|s.given| * |s.family|) + (f * |s.given| + g)
  }

  lemma {:induction false} PartsOf(s: Settings, i: nat) returns (g: nat, f: nat, cycle: nat)
    requires s.given != [] && s.family != []
    ensures g < |s.given| && f < |s.family| && i == IndexFor(s, g, f, cycle)
    ensures PartsAt(s, i) == FullName(s.given[g], s.family[f], cycle)
  {
    SlotInRange(i, |s.given|, |s.family|);
    var capacity := |s.given| * |s.family|;
    var slot := i % capacity;
    g, f, cycle := slot % |s.given|, slot / |s.given|, i / capacity;
  }

  /** Text before a first space, and text after a last one, can be read back. */
  lemma {:induction false} FirstSpace(a: string, x: string, b: string, y: string)
    requires Plain(a) && Plain(b) && a + " " + x == b + " " + y
    ensures a == b && x == y
  {
    var s := a + " " + x;
    assert s[|a|] == ' ' && s[|b|] == ' ';
    assert forall k | 0 <= k < |a| :: s[k] == a[k];
    assert forall k | 0 <= k < |b| :: s[k] == b[k];
    assert |a| == |b|;
    assert s[..|a|] == a && s[..|b|] == b && s[|a| + 1..] == x && s[|b| + 1..] == y;
  }

  lemma {:induction false} LastSpace(a: string, x: string, b: string, y: string)
    requires Plain(x) && Plain(y) && a + " " + x == b + " " + y
    ensures a == b && x == y
  {
    var s := a + " " + x;
    assert s[|a|] == ' ' && s[|b|] == ' ';
    assert forall k | |a| < k < |s| :: s[k] == x[k - |a| - 1];
    assert forall k | |b| < k < |s| :: s[k] == y[k - |b| - 1];
    assert |a| == |b|;
    assert s[..|a|] == a && s[..|b|] == b && s[|a| + 1..] == x && s[|b| + 1..] == y;
  }

  /** A name before any number is appended. */
  function BaseName(s: Settings, g: nat, f: nat): string
    requires g < |s.given| && f < |s.family|
  {
    s.given[g] + " " + s.family[f]
  }

  predicate Numbered(name: string, base: string, n: nat) {
    name == base + " " + Text.Decimal(n)
  }

  ghost predicate BaseNamesDistinct(s: Settings) {
    forall g, f, h, k | 0 <= g < |s.given| && 0 <= f < |s.family| && 0 <= h < |s.given| && 0 <= k < |s.family| ::
      BaseName(s, g, f) == BaseName(s, h, k) ==> g == h && f == k
  }

  /** One base name is another with a number after it. */
  ghost predicate NumberedName(s: Settings) {
    exists g: nat, f: nat, h: nat, k: nat, n: nat :: NumberedPair(s, g, f, h, k, n)
  }

  predicate NumberedPair(s: Settings, g: nat, f: nat, h: nat, k: nat, n: nat) {
    && g < |s.given| && f < |s.family| && h < |s.given| && k < |s.family|
    && n >= 2 && Numbered(BaseName(s, g, f), BaseName(s, h, k), n)
  }

  lemma {:induction false} SlotBelow(s: Settings, g: nat, f: nat)
    requires g < |s.given| && f < |s.family|
    ensures f * |s.given| + g < |s.given| * |s.family|
  {
    ProductGrows(|s.given|, f + 1, |s.family|);
    assert |s.given| * (f + 1) == f * |s.given| + |s.given|;
  }

  lemma {:induction false} PartsAtSlot(s: Settings, g: nat, f: nat, cycle: nat)
    requires g < |s.given| && f < |s.family|
    ensures PartsAt(s, IndexFor(s, g, f, cycle)) == FullName(s.given[g], s.family[f], cycle)
  {
    var capacity, slot := |s.given| * |s.family|, f * |s.given| + g;
    SlotBelow(s, g, f);
    Quotient(slot, |s.given|, f, g);
    Quotient(cycle * capacity + slot, capacity, cycle, slot);
  }

  lemma {:induction false} NameAtSlot(s: Settings, g: nat, f: nat, cycle: nat)
    requires g < |s.given| && f < |s.family|
    ensures cycle == 0 ==> NameAt(s, IndexFor(s, g, f, cycle)) == BaseName(s, g, f)
    ensures cycle > 0 ==> Numbered(NameAt(s, IndexFor(s, g, f, cycle)), BaseName(s, g, f), cycle + 1)
  {
    hide PartsAt, IndexFor, Text.Decimal;
    PartsAtSlot(s, g, f, cycle);
    var given, family := s.given[g], s.family[f];
    assert given + " " + (family + Suffix(cycle)) == given + " " + family + Suffix(cycle);
    if cycle > 0 {
      var number := Text.Decimal(cycle + 1);
      assert given + " " + family + (" " + number) == given + " " + family + " " + number;
    }
  }

  lemma {:induction false} DecimalIsPlain(n: nat)
    ensures Plain(Text.Decimal(n))
  {
  }

  lemma {:induction false} SameNumberedName(name: string, base: string, n: nat, other: string, m: nat)
    requires Numbered(name, base, n) && Numbered(name, other, m)
    ensures base == other && n == m
  {
    hide Text.Decimal;
    DecimalIsPlain(n);
    DecimalIsPlain(m);
    LastSpace(base, Text.Decimal(n), other, Text.Decimal(m));
    Text.DecimalInjective(n, m);
  }

  lemma {:induction false} SameNameSameSlot(s: Settings, i: nat, j: nat)
    requires s.given != [] && s.family != [] && BaseNamesDistinct(s) && !NumberedName(s)
    requires NameAt(s, i) == NameAt(s, j)
    ensures i == j
  {
    hide Numbered, BaseName, NameAt, PartsAt, IndexFor;
    var g, f, cycle := PartsOf(s, i);
    var h, k, other := PartsOf(s, j);
    NameAtSlot(s, g, f, cycle);
    NameAtSlot(s, h, k, other);
    if cycle > 0 && other > 0 {
      SameNumberedName(NameAt(s, i), BaseName(s, g, f), cycle + 1, BaseName(s, h, k), other + 1);
    }
    assert !NumberedPair(s, g, f, h, k, other + 1) && !NumberedPair(s, h, k, g, f, cycle + 1);
  }

  lemma {:induction false} SameDigits(k: nat, q: nat, r: nat, p: nat, t: nat)
    requires r < k && t < k && q * k + r == p * k + t
    ensures q == p && r == t
  {
    Quotient(q * k + r, k, q, r);
    Quotient(q * k + r, k, p, t);
  }

  lemma {:induction false} SameSlot(s: Settings, g: nat, f: nat, cycle: nat, h: nat, k: nat, other: nat)
    requires g < |s.given| && f < |s.family| && h < |s.given| && k < |s.family|
    requires IndexFor(s, g, f, cycle) == IndexFor(s, h, k, other)
    ensures g == h && f == k && cycle == other
  {
    SlotBelow(s, g, f);
    SlotBelow(s, h, k);
    assert cycle == other && f * |s.given| + g == k * |s.given| + h by {
      SameDigits(|s.given| * |s.family|, cycle, f * |s.given| + g, other, k * |s.given| + h);
    }
    hide IndexFor;
    SameDigits(|s.given|, f, g, k, h);
  }

  lemma {:induction false} SameBaseRepeats(s: Settings) returns (i: nat, j: nat)
    requires s.given != [] && s.family != [] && !BaseNamesDistinct(s)
    ensures i != j && NameAt(s, i) == NameAt(s, j)
  {
    hide BaseName, NameAt, PartsAt, IndexFor;
    var g, f, h, k :|
      0 <= g < |s.given| && 0 <= f < |s.family| && 0 <= h < |s.given| && 0 <= k < |s.family| &&
      BaseName(s, g, f) == BaseName(s, h, k) && !(g == h && f == k);
    i, j := IndexFor(s, g, f, 0), IndexFor(s, h, k, 0);
    NameAtSlot(s, g, f, 0);
    NameAtSlot(s, h, k, 0);
    if i == j {
      SameSlot(s, g, f, 0, h, k, 0);
    }
  }

  lemma {:induction false} NumberedPairRepeats(s: Settings, g: nat, f: nat, h: nat, k: nat, n: nat)
    requires NumberedPair(s, g, f, h, k, n)
    ensures IndexFor(s, g, f, 0) != IndexFor(s, h, k, n - 1)
    ensures NameAt(s, IndexFor(s, g, f, 0)) == NameAt(s, IndexFor(s, h, k, n - 1))
  {
    hide BaseName, NameAt, PartsAt, IndexFor, Text.Decimal;
    NameAtSlot(s, g, f, 0);
    NameAtSlot(s, h, k, n - 1);
    if IndexFor(s, g, f, 0) == IndexFor(s, h, k, n - 1) {
      SameSlot(s, g, f, 0, h, k, n - 1);
    }
  }

  lemma {:induction false} NumberedNameRepeats(s: Settings) returns (i: nat, j: nat)
    requires s.given != [] && s.family != [] && NumberedName(s)
    ensures i != j && NameAt(s, i) == NameAt(s, j)
  {
    hide BaseName, NameAt, PartsAt, IndexFor, Numbered;
    var g: nat, f: nat, h: nat, k: nat, n: nat :| NumberedPair(s, g, f, h, k, n);
    i, j := IndexFor(s, g, f, 0), IndexFor(s, h, k, n - 1);
    NumberedPairRepeats(s, g, f, h, k, n);
  }

  /** Main result on names, for every vocabulary without an empty list: no two people ever share a
      name exactly when the base names are distinct and none is another followed by a number. */
  lemma {:induction false} NamesAreUnique(s: Settings)
    requires s.given != [] && s.family != []
    ensures (forall i: nat, j: nat :: NameAt(s, i) == NameAt(s, j) ==> i == j)
            <==> BaseNamesDistinct(s) && !NumberedName(s)
  {
    hide NameAt, NumberedName, BaseNamesDistinct;
    if !BaseNamesDistinct(s) {
      var i, j := SameBaseRepeats(s);
    } else if NumberedName(s) {
      var i, j := NumberedNameRepeats(s);
    } else {
      forall i: nat, j: nat | NameAt(s, i) == NameAt(s, j)
        ensures i == j
      {
        SameNameSameSlot(s, i, j);
      }
    }
  }

  /** One family name is another with a number after it. */
  ghost predicate NumberedFamily(s: Settings) {
    exists a, b, n: nat :: 0 <= a < |s.family| && 0 <= b < |s.family| && n >= 2 && Numbered(s.family[a], s.family[b], n)
  }

  lemma {:induction false} PlainBaseNames(s: Settings, g: nat, f: nat, h: nat, tail: string)
    requires g < |s.given| && f < |s.family| && h < |s.given| && Plain(s.given[g]) && Plain(s.given[h])
    requires BaseName(s, g, f) == s.given[h] + " " + tail
    ensures s.given[g] == s.given[h] && s.family[f] == tail
  {
    FirstSpace(s.given[g], s.family[f], s.given[h], tail);
  }

  /** A corollary for the usual vocabulary. With no repeated entry and no space in a given name,
      only family names matter: none may be another followed by a number. */
  lemma {:induction false} PlainNamesAreUnique(s: Settings)
    requires Vocabulary(s) && forall g :: g in s.given ==> Plain(g)
    ensures (forall i: nat, j: nat :: NameAt(s, i) == NameAt(s, j) ==> i == j) <==> !NumberedFamily(s)
  {
    NamesAreUnique(s);
    hide NameAt, Plain;
    forall g, f, h, k | 0 <= g < |s.given| && 0 <= f < |s.family| && 0 <= h < |s.given| && 0 <= k < |s.family|
      ensures BaseName(s, g, f) == BaseName(s, h, k) ==> g == h && f == k
    {
      if BaseName(s, g, f) == BaseName(s, h, k) {
        PlainBaseNames(s, g, f, h, s.family[k]);
      }
    }
    assert NumberedName(s) <==> NumberedFamily(s) by { NumberedMeansFamily(s); }
  }

  lemma {:induction false} NumberedMeansFamily(s: Settings)
    requires Vocabulary(s) && forall g :: g in s.given ==> Plain(g)
    ensures NumberedName(s) <==> NumberedFamily(s)
  {
    hide Plain, Text.Decimal;
    if g: nat, f: nat, h: nat, k: nat, n: nat :| NumberedPair(s, g, f, h, k, n) {
      var number := Text.Decimal(n);
      assert BaseName(s, h, k) + " " + number == s.given[h] + " " + (s.family[k] + " " + number);
      PlainBaseNames(s, g, f, h, s.family[k] + " " + number);
      assert Numbered(s.family[f], s.family[k], n);
    }
    if a, b, n: nat :| 0 <= a < |s.family| && 0 <= b < |s.family| && n >= 2 && Numbered(s.family[a], s.family[b], n) {
      var number := Text.Decimal(n);
      assert s.given[0] + " " + (s.family[b] + " " + number) == BaseName(s, 0, b) + " " + number;
      assert NumberedPair(s, 0, a, 0, b, n);
    }
  }

  /** A space in a given name is enough for two people to share one, on the first pass, although
      no entry repeats and no family name is another followed by a number. */
  lemma {:induction false} SpacedNamesClash(s: Settings)
    requires s.given == ["A", "A B"] && s.family == ["B C", "C"]
    ensures Vocabulary(s) && !NumberedFamily(s) && NameAt(s, 0) == NameAt(s, 3) == "A B C"
    ensures !BaseNamesDistinct(s)
  {
    PartsAtSlot(s, 0, 0, 0);
    PartsAtSlot(s, 1, 1, 0);
    assert BaseName(s, 0, 0) == BaseName(s, 1, 1);
    forall a, b, n: nat | 0 <= a < 2 && 0 <= b < 2
      ensures !Numbered(s.family[a], s.family[b], n)
    {
      var numbered := s.family[b] + " " + Text.Decimal(n);
      assert '0' <= numbered[|numbered| - 1] <= '9';
      assert s.family[a][|s.family[a]| - 1] == 'C';
    }
  }

  /** The title of a level of the tree; contributors have one of those on offer. */
  ghost predicate TitleFits(s: Settings, title: string, i: nat) {
    if i == 0 then title == s.globalTitle
    else if i <= 3 then title == s.regionalTitle
    else if i <= 3 + 3 * |s.departments| then title == s.departmentTitle
    else title in s.titles
  }

  /** Hired between ninety days and eleven years ago, on one of three kinds of contract. */
  ghost predicate TermsFit(row: Employee) {
    90 <= row.hiredDaysAgo < 4000 && row.employmentType in {"permanent", "fixed_term", "contractor"}
  }

  ghost predicate RowFits(s: Settings, sites: seq<Site>, row: Employee, i: nat)
    requires s.given != [] && s.family != [] && s.departments != []
  {
    && row.id == EmployeeId(i)
    && row.name == NameAt(s, i)
    && row.region == RegionAt(i)
    && row.department == DepartmentAt(s, i)
    && TitleFits(s, row.title, i) && TermsFit(row)
    && exists site :: site in sites && site.region == row.region && site.id == row.location
  }

  /** Row m manages row i: one level up, and within the same region and department where that applies. */
  ghost predicate Manages(s: Settings, rows: seq<Employee>, m: nat, i: nat)
    requires m < i < |rows|
  {
    && rows[i].manager == Some(rows[m].id)
    && Level(s, m) + 1 == Level(s, i)
    && (Level(s, i) >= 2 ==> rows[m].region == rows[i].region)
    && (Level(s, i) == 3 ==> rows[m].department == rows[i].department)
  }

  ghost predicate Managed(s: Settings, rows: seq<Employee>, i: nat)
    requires i < |rows|
  {
    if i == 0 then rows[0].manager.None? else exists m: nat :: m < i && Manages(s, rows, m, i)
  }

  /** What the generator promises of the first |rows| rows. */
  ghost predicate WellBuilt(s: Settings, sites: seq<Site>, rows: seq<Employee>)
    requires s.given != [] && s.family != [] && s.departments != []
  {
    && (forall i | 0 <= i < |rows| :: RowFits(s, sites, rows[i], i))
    && (forall i | 0 <= i < |rows| :: Managed(s, rows, i))
  }

  lemma {:induction false} WellBuiltExtends(s: Settings, sites: seq<Site>, rows: seq<Employee>, row: Employee, m: nat)
    requires s.given != [] && s.family != [] && s.departments != []
    requires WellBuilt(s, sites, rows) && RowFits(s, sites, row, |rows|)
    requires if rows == [] then row.manager.None? else m < |rows| && Manages(s, rows + [row], m, |rows|)
    ensures WellBuilt(s, sites, rows + [row])
  {
    hide RowFits, Level;
    var more := rows + [row];
    forall i | 0 <= i < |more|
      ensures RowFits(s, sites, more[i], i) && Managed(s, more, i)
    {
      if i < |rows| {
        assert more[i] == rows[i] && RowFits(s, sites, rows[i], i) && Managed(s, rows, i);
        if i > 0 {
          var k: nat :| k < i && Manages(s, rows, k, i);
          assert more[k] == rows[k] && Manages(s, more, k, i);
        }
      }
    }
  }

  /** Every team has its lead, between the regional leads and the first contributor. */
  lemma {:induction false} EveryTeamHasItsLead(s: Settings, region: nat, d: nat) returns (i: nat)
    requires region < 3 && d < |s.departments|
    ensures 4 <= i < FirstContributor(s) && Level(s, i) == 2
    ensures RegionAt(i) == REGIONS[region] && DepartmentAt(s, i) == s.departments[d]
  {
    i := 4 + 3 * d + region;
    Quotient(3 * d + region, 3, d, region);
  }

  /** Above them one lead for each region, and one over those. */
  lemma {:induction false} TopLevelsAre(s: Settings, i: nat)
    requires i < 4 && s.departments != []
    ensures DepartmentAt(s, i) == s.leadership && Level(s, i) == if i == 0 then 0 else 1
    ensures i > 0 ==> RegionAt(i) == REGIONS[i - 1]
    ensures forall k: nat | k >= FirstContributor(s) :: Level(s, k) == 3
  {
  }

  /** Contributors are dealt out in turn: any run of them as long as there are teams holds one of each
      team. */
  lemma {:induction false} EveryTeamInTurn(s: Settings, i: nat, region: nat, d: nat) returns (j: nat)
    requires FirstContributor(s) <= i && region < 3 && d < |s.departments|
    ensures i <= j < i + 3 * |s.departments|
    ensures RegionAt(j) == REGIONS[region] && DepartmentAt(s, j) == s.departments[d]
  {
    var n, first := |s.departments|, FirstContributor(s);
    var teams, team := 3 * n, 3 * d + region;
    var past := (i - first - team) % teams;
    var ahead := if past == 0 then 0 else teams - past;
    j := i + ahead;
    var offset := j - first;
    var rounds := RoundsTo(offset, team, teams, past, i - first);
    Rearranged(n, d, region, rounds);
    Quotient(offset, 3, n * rounds + d, region);
    Quotient(n * rounds + d, n, rounds, d);
    Quotient(j - 4, 3, n * rounds + d + n, region);
  }

  lemma {:induction false} RoundsTo(offset: nat, team: nat, teams: nat, past: nat, start: nat) returns (rounds: nat)
    requires 0 <= team < teams && past == (start - team) % teams
    requires offset == start + if past == 0 then 0 else teams - past
    ensures offset == teams * rounds + team
  {
    var q := (start - team) / teams;
    assert start - team == q * teams + past;
    var k := if past == 0 then q else q + 1;
    assert offset - team == k * teams;
    if k < 0 {
      Beyond(k, teams);
    }
    rounds := k;
    assert teams * rounds == k * teams;
  }

  lemma {:induction false} Rearranged(n: nat, d: nat, region: nat, rounds: nat)
    ensures 3 * n * rounds + (3 * d + region) == 3 * (n * rounds + d) + region
    ensures n * rounds + d == rounds * n + d
  {
  }

  // ----------------------------------------------------------------- the generator

  method Make(s: Settings, sites: seq<Site>, rng: Rng, index: nat, region: Region, department: string,
              title: string, manager: Option<string>) returns (row: Employee)
    requires Usable(s, sites)
    modifies rng
    ensures row.id == EmployeeId(index) && row.name == NameAt(s, index) && row.title == title
    ensures row.region == region && row.department == department && row.manager == manager
    ensures TermsFit(row)
    ensures exists site :: site in sites && site.region == region && site.id == row.location
  {
    var local := SitesIn(sites, region);
    SitesInRegion(sites, region);
    var site := local[index % |local|];
    var hired := rng.RandRange(90, 4000);
    var employment := rng.Choice(EMPLOYMENT_TYPES);
    assert site in local;
    row := Employee(EmployeeId(index), NameAt(s, index), title, department, region, site.id, manager, hired,
      employment);
  }

  /** Exactly `total` rows, or the volume guard. */
  method Employees(s: Settings, sites: seq<Site>, rng: Rng) returns (r: Result<seq<Employee>, GenerationError>)
    requires Usable(s, sites)
    modifies rng
    ensures r.Err? <==> s.total < FirstContributor(s)
    ensures r.Ok? ==> |r.value| == s.total && WellBuilt(s, sites, r.value)
  {
    if s.total < FirstContributor(s) {
      return Err(VolumeTooSmall);
    }
    hide WellBuilt, SitesIn, LeadsKnown;
    var leads := Leadership(s, sites, rng);
    var rows := leads.0;
    var index := |rows|;
    while index < s.total
      invariant FirstContributor(s) <= index == |rows| <= s.total
      invariant WellBuilt(s, sites, rows)
      invariant LeadsKnown(s, rows, leads.1, leads.2)
    {
      var row := HireContributor(s, sites, rng, rows, leads.1, leads.2);
      LeadsStayKnown(s, rows, row, leads.1, leads.2);
      rows := rows + [row];
      index := index + 1;
    }
    return Ok(rows);
  }

  /** The regions and departments are dealt out in turn; each contributor reports to the lead of both. */
  method HireContributor(s: Settings, sites: seq<Site>, rng: Rng, rows: seq<Employee>, ids: LeadIds, ghost at: LeadRows)
    returns (row: Employee)
    requires Usable(s, sites) && WellBuilt(s, sites, rows)
    requires FirstContributor(s) <= |rows| && LeadsKnown(s, rows, ids, at)
    modifies rng
    ensures WellBuilt(s, sites, rows + [row])
  {
    hide NameAt, EmployeeId, SitesIn, WellBuilt;
    var index := |rows|;
    var offset := index - FirstContributor(s);
    var region := REGIONS[offset % 3];
    var d := (offset / 3) % |s.departments|;
    var department := s.departments[d];
    assert region == RegionAt(index) by { assert (index - 4) % 3 == (offset + 3 * |s.departments|) % 3; }
    assert LeadKnown(s, rows, ids, at, region, d);
    var title := rng.Choice(s.titles);
    row := Make(s, sites, rng, index, region, department, title, Some(ids[(region, department)]));
    ghost var m := at[(region, department)];
    assert Manages(s, rows + [row], m, index);
    WellBuiltExtends(s, sites, rows, row, m);
  }

  type LeadIds = map<(Region, string), string>
  type LeadRows = map<(Region, string), nat>

  ghost predicate LeadKnown(s: Settings, rows: seq<Employee>, ids: LeadIds, at: LeadRows, region: Region, d: nat) {
    d < |s.departments| ==>
      var key := (region, s.departments[d]);
      && key in ids && key in at && 4 <= at[key] < |rows| && at[key] < FirstContributor(s)
      && rows[at[key]].id == ids[key] && rows[at[key]].region == region && rows[at[key]].department == s.departments[d]
  }

  ghost predicate LeadsKnown(s: Settings, rows: seq<Employee>, ids: LeadIds, at: LeadRows) {
    forall region, d: nat :: LeadKnown(s, rows, ids, at, region, d)
  }

  lemma {:induction false} LeadsStayKnown(s: Settings, rows: seq<Employee>, row: Employee, ids: LeadIds, at: LeadRows)
    requires LeadsKnown(s, rows, ids, at)
    ensures LeadsKnown(s, rows + [row], ids, at)
  {
    forall region, d: nat
      ensures LeadKnown(s, rows + [row], ids, at, region, d)
    {
      assert LeadKnown(s, rows, ids, at, region, d);
    }
  }

  method TopLevels(s: Settings, sites: seq<Site>, rng: Rng) returns (rows: seq<Employee>)
    requires Usable(s, sites)
    modifies rng
    ensures |rows| == 4 && WellBuilt(s, sites, rows)
  {
    hide NameAt, EmployeeId, SitesIn;
    var top := Make(s, sites, rng, 0, AMER, s.leadership, s.globalTitle, None);
    rows := [top];
    assert WellBuilt(s, sites, rows) by {
      assert RowFits(s, sites, rows[0], 0) && Managed(s, rows, 0);
    }
    for i := 0 to 3
      invariant |rows| == 1 + i && WellBuilt(s, sites, rows)
      invariant rows[0] == top
    {
      var row := Make(s, sites, rng, 1 + i, REGIONS[i], s.leadership, s.regionalTitle, Some(top.id));
      assert Manages(s, rows + [row], 0, |rows|);
      WellBuiltExtends(s, sites, rows, row, 0);
      rows := rows + [row];
    }
  }

  /** A lead for one department in one region, reporting to the region's own lead. */
  method AppointLead(s: Settings, sites: seq<Site>, rng: Rng, rows: seq<Employee>, d: nat, i: nat)
    returns (row: Employee)
    requires Usable(s, sites) && WellBuilt(s, sites, rows)
    requires d < |s.departments| && i < 3 && |rows| == 4 + 3 * d + i
    modifies rng
    ensures row.region == REGIONS[i] && row.department == s.departments[d]
    ensures WellBuilt(s, sites, rows + [row])
  {
    hide NameAt, EmployeeId, SitesIn;
    var index := |rows|;
    assert (index - 4) % 3 == i && (index - 4) / 3 == d;
    assert RowFits(s, sites, rows[1 + i], 1 + i);
    row := Make(s, sites, rng, index, REGIONS[i], s.departments[d], s.departmentTitle, Some(rows[1 + i].id));
    assert Manages(s, rows + [row], 1 + i, index);
    WellBuiltExtends(s, sites, rows, row, 1 + i);
  }

  lemma {:induction false} EveryRegionListed(region: Region) returns (j: nat)
    ensures j < 3 && REGIONS[j] == region
  {
    j := match region case AMER => 0 case EMEA => 1 case APAC => 2;
  }

  /** The three levels of leads. A department listed twice is led by its last entry. */
  method Leadership(s: Settings, sites: seq<Site>, rng: Rng)
    returns (r: (seq<Employee>, LeadIds, LeadRows))
    requires Usable(s, sites)
    modifies rng
    ensures |r.0| == FirstContributor(s) && WellBuilt(s, sites, r.0) && LeadsKnown(s, r.0, r.1, r.2)
  {
    hide WellBuilt, SitesIn, LeadKnown;
    var rows := TopLevels(s, sites, rng);
    var ids: LeadIds, at: LeadRows := map[], map[];
    for d := 0 to |s.departments|
      invariant |rows| == 4 + 3 * d && WellBuilt(s, sites, rows)
      invariant forall region, k: nat | k < d :: LeadKnown(s, rows, ids, at, region, k)
    {
      for i := 0 to 3
        invariant |rows| == 4 + 3 * d + i && WellBuilt(s, sites, rows)
        invariant forall region, k: nat | k < d :: LeadKnown(s, rows, ids, at, region, k)
        invariant forall j | 0 <= j < i :: LeadKnown(s, rows, ids, at, REGIONS[j], d)
      {
        var row := AppointLead(s, sites, rng, rows, d, i);
        AddLead(s, rows, row, ids, at, REGIONS[i], d);
        ids := ids[(REGIONS[i], s.departments[d]) := row.id];
        at := at[(REGIONS[i], s.departments[d]) := |rows|];
        rows := rows + [row];
      }
      forall region
        ensures LeadKnown(s, rows, ids, at, region, d)
      {
        var j := EveryRegionListed(region);
      }
    }
    forall region, k: nat
      ensures LeadKnown(s, rows, ids, at, region, k)
    {
      NoSuchDepartment(s, rows, ids, at, region, k);
    }
    r := (rows, ids, at);
  }

  lemma {:induction false} NoSuchDepartment(s: Settings, rows: seq<Employee>, ids: LeadIds, at: LeadRows,
                                            region: Region, k: nat)
    ensures k >= |s.departments| ==> LeadKnown(s, rows, ids, at, region, k)
  {
  }

  /** Registering a lead keeps every registered lead known, and makes this one known. */
  lemma {:induction false} AddLead(s: Settings, rows: seq<Employee>, row: Employee, ids: LeadIds, at: LeadRows,
                                   region: Region, d: nat)
    requires d < |s.departments| && 4 <= |rows| < FirstContributor(s)
    requires row.region == region && row.department == s.departments[d]
    ensures var key := (region, s.departments[d]);
            var ids', at' := ids[key := row.id], at[key := |rows|];
            && LeadKnown(s, rows + [row], ids', at', region, d)
            && forall other, k: nat | LeadKnown(s, rows, ids, at, other, k) ::
              LeadKnown(s, rows + [row], ids', at', other, k)
  {
    var key := (region, s.departments[d]);
    forall other, k: nat | LeadKnown(s, rows, ids, at, other, k)
      ensures LeadKnown(s, rows + [row], ids[key := row.id], at[key := |rows|], other, k)
    {
    }
  }

  // ------------------------------------------------------------ passing the checks

  function ToRecord(e: Employee): Integrity.Record {
    map["employee_id" := Some(e.id), "manager_id" := e.manager]
  }

  function ToRecords(rows: seq<Employee>): seq<Integrity.Record> {
    if rows == [] then [] else ToRecords(rows[..|rows| - 1]) + [ToRecord(rows[|rows| - 1])]
  }

  lemma {:induction false} EmployeeIdInjective(i: nat, j: nat)
    requires EmployeeId(i) == EmployeeId(j)
    ensures i == j
  {
    hide Text.Padded, Text.ValueOf;
    PrefixInjective("EMP-", Text.Padded(4, i + 1), Text.Padded(4, j + 1));
    Text.PaddedRoundTrip(4, i + 1);
    Text.PaddedRoundTrip(4, j + 1);
  }

  lemma {:induction false} PrefixInjective(p: string, a: string, b: string)
    requires p + a == p + b
    ensures a == b
  {
    assert (p + a)[|p|..] == a && (p + b)[|p|..] == b;
  }

  lemma {:induction false} IdsAreDistinct(s: Settings, sites: seq<Site>, rows: seq<Employee>)
    requires s.given != [] && s.family != [] && s.departments != []
    requires forall i | 0 <= i < |rows| :: RowFits(s, sites, rows[i], i)
    ensures DistinctIds(rows)
  {
    hide EmployeeId, NameAt, RegionAt, DepartmentAt;
    forall i, j | 0 <= i < j < |rows|
      ensures rows[i].id != rows[j].id
    {
      assert RowFits(s, sites, rows[i], i) && RowFits(s, sites, rows[j], j);
      if rows[i].id == rows[j].id {
        EmployeeIdInjective(i, j);
      }
    }
  }

  ghost predicate DistinctIds(rows: seq<Employee>) {
    forall i, j | 0 <= i < j < |rows| :: rows[i].id != rows[j].id
  }

  lemma {:induction false} RecordFields(e: Employee)
    ensures Integrity.IdOf(ToRecord(e)) == Some(e.id)
    ensures Integrity.BossOf(ToRecord(e)) == e.manager
  {
    assert "employee_id"[0] != "manager_id"[0];
  }

  /** A dictionary that holds exactly the links of these rows. */
  ghost predicate Links(managers: Integrity.Managers, rows: seq<Employee>) {
    && (forall f :: f in managers <==> exists i | 0 <= i < |rows| :: f == Some(rows[i].id))
    && (forall i | 0 <= i < |rows| :: Some(rows[i].id) in managers && managers[Some(rows[i].id)] == rows[i].manager)
  }

  lemma {:induction false} LinksExtend(managers: Integrity.Managers, rows: seq<Employee>, n: nat)
    requires |rows| == n + 1 && DistinctIds(rows) && Links(managers, rows[..n])
    ensures Links(managers[Some(rows[n].id) := rows[n].manager], rows)
  {
    var front, more := rows[..n], managers[Some(rows[n].id) := rows[n].manager];
    forall f
      ensures f in more <==> exists i | 0 <= i < |rows| :: f == Some(rows[i].id)
    {
      if f in managers {
        var i :| 0 <= i < |front| && f == Some(front[i].id);
        assert rows[i] == front[i];
      }
      if i :| 0 <= i < |rows| && f == Some(rows[i].id) && i < n {
        assert front[i] == rows[i];
      }
    }
    forall i | 0 <= i < |rows|
      ensures Some(rows[i].id) in more && more[Some(rows[i].id)] == rows[i].manager
    {
      if i < n {
        assert front[i] == rows[i] && rows[i].id != rows[n].id;
      }
    }
  }

  /** The manager dictionary the check builds holds exactly the generated links. */
  lemma {:induction false} ManagersOfRoster(rows: seq<Employee>)
    requires DistinctIds(rows)
    ensures Links(Integrity.ManagersOf(ToRecords(rows)), rows)
  {
    hide ToRecord, Integrity.IdOf, Integrity.BossOf;
    if rows != [] {
      var n := |rows| - 1;
      ManagersOfRoster(rows[..n]);
      RecordFields(rows[n]);
      var records := ToRecords(rows);
      assert records[..|records| - 1] == ToRecords(rows[..n]);
      LinksExtend(Integrity.ManagersOf(ToRecords(rows[..n])), rows, n);
      hide Links;
    }
  }

  /** From row i the walk upward ends after one step per level. */
  lemma {:induction false} ClimbsOut(s: Settings, sites: seq<Site>, rows: seq<Employee>, i: nat)
    requires s.given != [] && s.family != [] && s.departments != []
    requires WellBuilt(s, sites, rows) && i < |rows|
    ensures Integrity.Climb(Integrity.ManagersOf(ToRecords(rows)), Some(rows[i].id), Level(s, i) + 1).None?
    decreases i
  {
    hide EmployeeId, NameAt, ToRecord, ToRecords, Integrity.ManagersOf, RowFits;
    var managers := Integrity.ManagersOf(ToRecords(rows));
    IdsAreDistinct(s, sites, rows);
    ManagersOfRoster(rows);
    assert Managed(s, rows, i);
    ClimbFromAbove(managers, Some(rows[i].id), Level(s, i));
    if i > 0 {
      var m: nat :| m < i && Manages(s, rows, m, i);
      ClimbsOut(s, sites, rows, m);
    }
  }

  lemma {:induction false} ClimbFromAbove(managers: Integrity.Managers, start: Integrity.Field, n: nat)
    requires start.Some?
    ensures Integrity.Climb(managers, start, n + 1) == Integrity.Climb(managers, Integrity.Above(managers, start), n)
  {
    if n > 0 {
      ClimbFromAbove(managers, start, n - 1);
    }
  }

  /** Main result: for every stream and every volume the guard admits, the hierarchy check
      reports nothing on the generated roster, and every chain is at most four levels deep. */
  lemma {:induction false} RosterPassesHierarchyCheck(s: Settings, sites: seq<Site>, rows: seq<Employee>)
    requires s.given != [] && s.family != [] && s.departments != []
    requires WellBuilt(s, sites, rows) && rows != []
    ensures Integrity.HierarchyClean(Integrity.ManagersOf(ToRecords(rows)))
    ensures forall i | 0 <= i < |rows| ::
              Integrity.Climb(Integrity.ManagersOf(ToRecords(rows)), Some(rows[i].id), 4).None?
  {
    hide EmployeeId, NameAt, ToRecord, ToRecords, Integrity.ManagersOf, RowFits;
    var managers := Integrity.ManagersOf(ToRecords(rows));
    IdsAreDistinct(s, sites, rows);
    ManagersOfRoster(rows);
    forall i | 0 <= i < |rows|
      ensures Integrity.Climb(managers, Some(rows[i].id), 4).None?
      ensures i > 0 ==> rows[i].manager.Some?
    {
      ClimbsOut(s, sites, rows, i);
      Integrity.StaysNone(managers, Some(rows[i].id), Level(s, i) + 1, 4);
      assert Managed(s, rows, i);
    }
    assert Managed(s, rows, 0);
    assert Integrity.OneRoot(managers) by {
      var r: Integrity.Field := Some(rows[0].id);
      assert r in managers && managers[r].None?;
      forall e | e in managers && managers[e].None?
        ensures e == r
      {
        var i :| 0 <= i < |rows| && e == Some(rows[i].id);
      }
    }
  }

  lemma {:induction false} RecordAt(rows: seq<Employee>)
    ensures |ToRecords(rows)| == |rows|
    ensures forall i | 0 <= i < |rows| :: ToRecords(rows)[i] == ToRecord(rows[i])
  {
    if rows != [] {
      RecordAt(rows[..|rows| - 1]);
    }
  }

  /** The generated roster also passes the primary-key check, and its manager column the
      foreign-key check. */
  lemma {:induction false} RosterPassesKeyChecks(s: Settings, sites: seq<Site>, rows: seq<Employee>,
                                                 ds: Integrity.Dataset, i: nat)
    requires s.given != [] && s.family != [] && s.departments != []
    requires WellBuilt(s, sites, rows) && i < |rows|
    requires Integrity.RowsOf(ds, "employees") == ToRecords(rows)
    ensures Integrity.KeysClean(ToRecords(rows), ["employee_id"])
    ensures Integrity.ReferenceHolds(ds, ToRecord(rows[i]), Integrity.MANAGER_ID)
  {
    hide ToRecord, ToRecords, NameAt, Integrity.KeyOf;
    var records := ToRecords(rows);
    RecordAt(rows);
    var names := ["employee_id"];
    forall k | 0 <= k < |rows|
      ensures Integrity.KeyOf(records[k], names) == [rows[k].id]
    {
      KeyOfRecord(rows[k]);
    }
    forall k | 0 <= k < |rows|
      ensures !Integrity.NullPart(Integrity.KeyOf(records[k], names))
    {
      assert RowFits(s, sites, rows[k], k);
      assert rows[k].id[0] == 'E' && "None"[0] == 'N';
    }
    IdsAreDistinct(s, sites, rows);
    ManagerIsAnEmployee(s, sites, rows, ds, i);
  }

  lemma {:induction false} KeyOfRecord(e: Employee)
    ensures Integrity.KeyOf(ToRecord(e), ["employee_id"]) == [e.id]
  {
    RecordFields(e);
    assert ["employee_id"][1..] == [];
  }

  lemma {:induction false} ManagerIsAnEmployee(s: Settings, sites: seq<Site>, rows: seq<Employee>,
                                               ds: Integrity.Dataset, i: nat)
    requires s.given != [] && s.family != [] && s.departments != []
    requires WellBuilt(s, sites, rows) && i < |rows|
    requires Integrity.RowsOf(ds, "employees") == ToRecords(rows)
    ensures Integrity.ReferenceHolds(ds, ToRecord(rows[i]), Integrity.MANAGER_ID)
  {
    hide RowFits, ToRecord;
    RecordAt(rows);
    RecordFields(rows[i]);
    assert Managed(s, rows, i);
    if i > 0 {
      var m: nat :| m < i && Manages(s, rows, m, i);
      RecordFields(rows[m]);
      assert ToRecords(rows)[m] in ToRecords(rows);
    }
  }
}
