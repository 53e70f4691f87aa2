/** The live inventory check: declarations against live resources, both ways round, and what a
    clean report says about how many resources there are. */
module Inventory {
  import opened Wrappers
  import opened Text
  import opened Sorting
  import opened Glob

  /** `requiredLive` is false only where the plan says so outright. */
  datatype Declaration = Declaration(name: string, scope: string, expected: Option<int>, deploymentMax: Option<int>,
    requiredLive: bool)

  datatype Plan = Plan(resources: seq<Declaration>, identities: seq<Declaration>)

  datatype Declared = Declared(subject: string, entry: Declaration)

  function Subject(section: string, name: string, index: nat): string {
    section + "/" + name + "[" + Decimal(index) + "]"
  }

  /** One section's declarations, numbered from `index` on. */
  function Enumerated(section: string, entries: seq<Declaration>, index: nat): seq<Declared> {
    if entries == [] then []
    else [Declared(Subject(section, entries[0].name, index), entries[0])] + Enumerated(section, entries[1..], index + 1)
  }

  function DeclaredEntries(plan: Plan): seq<Declared> {
    Enumerated("resources", plan.resources, 0) + Enumerated("identities", plan.identities, 0)
  }

  // --------------------------------------------------------- subjects identify declarations

  lemma {:induction false} BracketIsLast(a: string, b: string, m: nat, n: nat)
    requires a + "[" + Decimal(m) + "]" == b + "[" + Decimal(n) + "]"
    ensures m == n
  {
    var s := a + "[" + Decimal(m) + "]";
    var t := b + "[" + Decimal(n) + "]";
    var i, j := |a|, |b|;
    assert s[i] == '[' && t[j] == '[';
    assert forall k | i < k < |s| - 1 :: s[k] == Decimal(m)[k - i - 1];
    assert forall k | j < k < |t| - 1 :: t[k] == Decimal(n)[k - j - 1];
    assert i == j;
    assert s[i + 1..|s| - 1] == Decimal(m) && t[j + 1..|t| - 1] == Decimal(n);
    DecimalInjective(m, n);
  }

  lemma {:induction false} SubjectIndex(section: string, m: string, i: nat, n: string, j: nat)
    requires Subject(section, m, i) == Subject(section, n, j)
    ensures i == j
  {
    BracketIsLast(section + "/" + m, section + "/" + n, i, j);
  }

  lemma {:induction false} SectionsDiffer(m: string, i: nat, n: string, j: nat)
    ensures Subject("resources", m, i) != Subject("identities", n, j)
  {
    assert Subject("resources", m, i)[0] == 'r' && Subject("identities", n, j)[0] == 'i';
  }

  lemma {:induction false} EnumeratedAt(section: string, entries: seq<Declaration>, index: nat)
    ensures var all := Enumerated(section, entries, index);
            |all| == |entries|
            && forall k | 0 <= k < |all| :: all[k] == Declared(Subject(section, entries[k].name, index + k), entries[k])
  {
    hide Subject;
    if entries != [] {
      EnumeratedAt(section, entries[1..], index + 1);
    }
  }

  ghost predicate DistinctSubjects(declared: seq<Declared>) {
    forall i, j | 0 <= i < j < |declared| :: declared[i].subject != declared[j].subject
  }

  /** However the entries are named, no two of a plan share a subject: a dictionary keyed by
      subject keeps them all apart. */
  lemma {:induction false} SubjectsAreDistinct(plan: Plan)
    ensures DistinctSubjects(DeclaredEntries(plan))
  {
    hide Subject;
    var declared := DeclaredEntries(plan);
    var n := |plan.resources|;
    EnumeratedAt("resources", plan.resources, 0);
    EnumeratedAt("identities", plan.identities, 0);
    forall i, j | 0 <= i < j < |declared|
      ensures declared[i].subject != declared[j].subject
    {
      if j < n {
        if declared[i].subject == declared[j].subject {
          SubjectIndex("resources", plan.resources[i].name, i, plan.resources[j].name, j);
        }
      } else if i < n {
        SectionsDiffer(plan.resources[i].name, i, plan.identities[j - n].name, j - n);
      } else if declared[i].subject == declared[j].subject {
        SubjectIndex("identities", plan.identities[i - n].name, i - n, plan.identities[j - n].name, j - n);
      }
    }
  }

  // ------------------------------------------------------------------------- the check

  /** `next(entry for candidate in declared if candidate == subject)`. */
  function EntryFor(declared: seq<Declared>, subject: string): Declaration
    requires exists i :: 0 <= i < |declared| && declared[i].subject == subject
  {
    if declared[0].subject == subject then declared[0].entry
    else
      assert forall i | 0 < i < |declared| :: declared[i] == declared[1..][i - 1];
      EntryFor(declared[1..], subject)
  }

  function Expected(entry: Declaration): int {
    if entry.expected.Some? then entry.expected.value else 1
  }

  function DeploymentMax(entry: Declaration): int {
    if entry.deploymentMax.Some? then entry.deploymentMax.value else Expected(entry)
  }

  function ScopesOf(live: seq<string>, pattern: string): seq<string> {
    Sort(Filter(live, (scope: string) => Matches(scope, pattern)), (a, b) => StringLe(a, b))
  }

  function SubjectsFor(declared: seq<Declared>, scope: string): seq<string> {
    if declared == [] then []
    else if Matches(scope, declared[0].entry.scope) then [declared[0].subject] + SubjectsFor(declared[1..], scope)
    else SubjectsFor(declared[1..], scope)
  }

  predicate Admissible(entry: Declaration, count: nat, allowMissing: bool) {
    || (allowMissing && count <= DeploymentMax(entry))
    || count == Expected(entry)
    || (count == 0 && !entry.requiredLive)
  }

  datatype Findings = Findings(declarations: map<string, seq<string>>, resources: map<string, seq<string>>)

  function ResourceMatches(declared: seq<Declared>, scope: string): seq<string> {
    Sort(SubjectsFor(declared, scope), (a, b) => StringLe(a, b))
  }

  /** Both dictionaries of the check, filled in a pass over the declarations and one over the
      live resources. Each names exactly the offenders, with what they matched; the inventory
      passes when both stay empty. */
  method CheckInventory(plan: Plan, live: seq<string>, allowMissing: bool) returns (findings: Findings)
    ensures var declared := DeclaredEntries(plan);
            forall i | 0 <= i < |declared| ::
              && (declared[i].subject in findings.declarations <==>
                !Admissible(declared[i].entry, Count(declared[i].entry, live), allowMissing))
              && (declared[i].subject in findings.declarations ==>
                    findings.declarations[declared[i].subject] == ScopesOf(live, declared[i].entry.scope))
    ensures forall scope :: scope in live ==>
              && (scope in findings.resources <==> Hits(DeclaredEntries(plan), scope) != 1)
              && (scope in findings.resources ==>
                findings.resources[scope] == ResourceMatches(DeclaredEntries(plan), scope))
    ensures findings.declarations == map[] && findings.resources == map[] <==> Clean(plan, live, allowMissing)
  {
    hide Admissible, Matches, DeclaredEntries, ScopesOf, ResourceMatches, SubjectsFor, Hits, Count;
    var declared := DeclaredEntries(plan);
    SubjectsAreDistinct(plan);
    var declarations := CheckDeclarations(declared, live, allowMissing);
    var resources := CheckResources(declared, live);
    findings := Findings(declarations, resources);
    if declarations == map[] && resources == map[] {
      forall k | 0 <= k < |live|
        ensures Hits(declared, live[k]) == 1
      {
        assert live[k] in live;
      }
    }
  }

  method CheckDeclarations(declared: seq<Declared>, live: seq<string>, allowMissing: bool)
    returns (invalid: map<string, seq<string>>)
    requires DistinctSubjects(declared)
    ensures forall i | 0 <= i < |declared| ::
              && (declared[i].subject in invalid <==>
                !Admissible(declared[i].entry, Count(declared[i].entry, live), allowMissing))
              && (declared[i].subject in invalid ==>
                invalid[declared[i].subject] == ScopesOf(live, declared[i].entry.scope))
    ensures invalid == map[] <==>
            forall i | 0 <= i < |declared| ::
            Admissible(declared[i].entry, Count(declared[i].entry, live), allowMissing)
  {
    hide Admissible, Matches, ScopesOf, Count;
    invalid := map[];
    for k := 0 to |declared|
      invariant forall i | 0 <= i < |declared| ::
                  && (declared[i].subject in invalid <==>
                    i < k && !Admissible(declared[i].entry, Count(declared[i].entry, live), allowMissing))
                  && (declared[i].subject in invalid ==>
                    invalid[declared[i].subject] == ScopesOf(live, declared[i].entry.scope))
      invariant invalid == map[] <==>
                forall i | 0 <= i < k :: Admissible(declared[i].entry, Count(declared[i].entry, live), allowMissing)
    {
      var scopes := ScopesOf(live, declared[k].entry.scope);
      ScopesAreCounted(live, declared[k].entry);
      EntryForSubject(declared, k);
      if !Admissible(EntryFor(declared, declared[k].subject), |scopes|, allowMissing) {
        invalid := invalid[declared[k].subject := scopes];
        assert declared[k].subject in invalid;
      }
    }
  }

  method CheckResources(declared: seq<Declared>, live: seq<string>) returns (invalid: map<string, seq<string>>)
    ensures forall scope :: scope in live ==>
              && (scope in invalid <==> Hits(declared, scope) != 1)
              && (scope in invalid ==> invalid[scope] == ResourceMatches(declared, scope))
    ensures invalid == map[] <==> forall scope :: scope in live ==> Hits(declared, scope) == 1
  {
    hide Matches, Hits, SubjectsFor;
    invalid := map[];
    for k := 0 to |live|
      invariant forall scope :: scope in invalid <==> scope in live[..k] && Hits(declared, scope) != 1
      invariant forall scope :: scope in invalid ==> invalid[scope] == ResourceMatches(declared, scope)
    {
      assert live[..k + 1] == live[..k] + [live[k]];
      var subjects := ResourceMatches(declared, live[k]);
      SubjectsAreCounted(declared, live[k]);
      SortMultiset(SubjectsFor(declared, live[k]), (a, b) => StringLe(a, b));
      if |subjects| != 1 {
        invalid := invalid[live[k] := subjects];
      }
    }
    assert live[..|live|] == live;
    if scope :| scope in live && Hits(declared, scope) != 1 {
      assert scope in invalid;
    }
  }

  lemma {:induction false} EntryForSubject(declared: seq<Declared>, k: nat)
    requires DistinctSubjects(declared) && k < |declared|
    ensures EntryFor(declared, declared[k].subject) == declared[k].entry
  {
    if k > 0 {
      assert declared[0].subject != declared[k].subject;
      assert declared[1..][k - 1] == declared[k];
      EntryForSubject(declared[1..], k - 1);
    }
  }

  // ----------------------------------------------------------------- counting both ways

  /** How many live resources a declaration matches. */
  function Count(entry: Declaration, live: seq<string>): nat {
    if live == [] then 0 else (if Matches(live[0], entry.scope) then 1 else 0) + Count(entry, live[1..])
  }

  /** How many declarations a live resource matches. */
  function Hits(declared: seq<Declared>, scope: string): nat {
    if declared == [] then 0
    else (if Matches(scope, declared[0].entry.scope) then 1 else 0) + Hits(declared[1..], scope)
  }

  lemma {:induction false} ScopesAreCounted(live: seq<string>, entry: Declaration)
    ensures |ScopesOf(live, entry.scope)| == Count(entry, live)
  {
    hide Matches;
    var keep := (scope: string) => Matches(scope, entry.scope);
    SortMultiset(Filter(live, keep), (a, b) => StringLe(a, b));
    FilterCounts(live, entry);
  }

  lemma {:induction false} FilterCounts(live: seq<string>, entry: Declaration)
    ensures |Filter(live, (scope: string) => Matches(scope, entry.scope))| == Count(entry, live)
  {
    hide Matches;
    if live != [] {
      FilterCounts(live[1..], entry);
    }
  }

  lemma {:induction false} SubjectsAreCounted(declared: seq<Declared>, scope: string)
    ensures |SubjectsFor(declared, scope)| == Hits(declared, scope)
  {
    hide Matches;
    if declared != [] {
      SubjectsAreCounted(declared[1..], scope);
    }
  }

  /** A clean inventory: every declaration has an admissible number of live resources, and every
      live resource has exactly one declaration. */
  ghost predicate Clean(plan: Plan, live: seq<string>, allowMissing: bool) {
    var declared := DeclaredEntries(plan);
    && (forall i | 0 <= i < |declared| :: Admissible(declared[i].entry, Count(declared[i].entry, live), allowMissing))
    && (forall k | 0 <= k < |live| :: Hits(declared, live[k]) == 1)
  }

  function TotalCount(declared: seq<Declared>, live: seq<string>): nat {
    if declared == [] then 0 else Count(declared[0].entry, live) + TotalCount(declared[1..], live)
  }

  function TotalHits(declared: seq<Declared>, live: seq<string>): nat {
    if live == [] then 0 else Hits(declared, live[0]) + TotalHits(declared, live[1..])
  }

  lemma {:induction false} CountFirst(declared: seq<Declared>, scope: string, live: seq<string>)
    ensures TotalCount(declared, [scope] + live) == Hits(declared, scope) + TotalCount(declared, live)
  {
    hide Matches;
    if declared != [] {
      CountFirst(declared[1..], scope, live);
      assert ([scope] + live)[1..] == live;
    }
  }

  lemma {:induction false} NothingLive(declared: seq<Declared>)
    ensures TotalCount(declared, []) == 0
  {
    if declared != [] {
      NothingLive(declared[1..]);
    }
  }

  /** Counting matches by declaration and by resource gives the same number. */
  lemma {:induction false} MatchesCountedTwice(declared: seq<Declared>, live: seq<string>)
    ensures TotalCount(declared, live) == TotalHits(declared, live)
  {
    if live == [] {
      NothingLive(declared);
    } else {
      MatchesCountedTwice(declared, live[1..]);
      CountFirst(declared, live[0], live[1..]);
      assert [live[0]] + live[1..] == live;
    }
  }

  lemma {:induction false} OneHitEach(declared: seq<Declared>, live: seq<string>)
    requires forall k | 0 <= k < |live| :: Hits(declared, live[k]) == 1
    ensures TotalHits(declared, live) == |live|
  {
    if live != [] {
      OneHitEach(declared, live[1..]);
    }
  }

  /** Main result: when the check reports nothing, the number of live resources is the sum over
      the declarations of their match counts. */
  lemma {:induction false} CleanInventoryAddsUp(plan: Plan, live: seq<string>, allowMissing: bool)
    requires Clean(plan, live, allowMissing)
    ensures |live| == TotalCount(DeclaredEntries(plan), live)
  {
    hide DeclaredEntries;
    var declared := DeclaredEntries(plan);
    OneHitEach(declared, live);
    MatchesCountedTwice(declared, live);
  }

  /** What the plan says must be live: the expected counts, less the optional declarations
      that have nothing live. */
  function TotalExpected(declared: seq<Declared>, live: seq<string>): int {
    if declared == [] then 0
    else
      var entry := declared[0].entry;
      (if !entry.requiredLive && Count(entry, live) == 0 then 0 else Expected(entry))
        + TotalExpected(declared[1..], live)
  }

  lemma {:induction false} CountsAreExpected(declared: seq<Declared>, live: seq<string>)
    requires forall i | 0 <= i < |declared| :: Admissible(declared[i].entry, Count(declared[i].entry, live), false)
    ensures TotalCount(declared, live) == TotalExpected(declared, live)
  {
    if declared != [] {
      assert Admissible(declared[0].entry, Count(declared[0].entry, live), false);
      forall i | 0 <= i < |declared[1..]|
        ensures Admissible(declared[1..][i].entry, Count(declared[1..][i].entry, live), false)
      {
        assert declared[1..][i] == declared[i + 1];
      }
      CountsAreExpected(declared[1..], live);
    }
  }

  /** Without the readiness allowance the live resources number exactly what the plan expects. */
  lemma {:induction false} StrictInventoryIsThePlan(plan: Plan, live: seq<string>)
    requires Clean(plan, live, false)
    ensures |live| == TotalExpected(DeclaredEntries(plan), live)
  {
    hide DeclaredEntries;
    CleanInventoryAddsUp(plan, live, false);
    CountsAreExpected(DeclaredEntries(plan), live);
  }

  /** The most a declaration allows in readiness mode; never negative. */
  function Ceiling(entry: Declaration): nat {
    var larger := if DeploymentMax(entry) >= Expected(entry) then DeploymentMax(entry) else Expected(entry);
    if larger >= 0 then larger else 0
  }

  function TotalCeiling(declared: seq<Declared>): nat {
    if declared == [] then 0 else Ceiling(declared[0].entry) + TotalCeiling(declared[1..])
  }

  lemma {:induction false} CountsUnderCeilings(declared: seq<Declared>, live: seq<string>, allowMissing: bool)
    requires forall i | 0 <= i < |declared| ::
             Admissible(declared[i].entry, Count(declared[i].entry, live), allowMissing)
    ensures TotalCount(declared, live) <= TotalCeiling(declared)
  {
    if declared != [] {
      assert Admissible(declared[0].entry, Count(declared[0].entry, live), allowMissing);
      forall i | 0 <= i < |declared[1..]|
        ensures Admissible(declared[1..][i].entry, Count(declared[1..][i].entry, live), allowMissing)
      {
        assert declared[1..][i] == declared[i + 1];
      }
      CountsUnderCeilings(declared[1..], live, allowMissing);
    }
  }

  /** In either mode a clean report bounds the live resources by what the plan allows. */
  lemma {:induction false} CleanInventoryIsBounded(plan: Plan, live: seq<string>, allowMissing: bool)
    requires Clean(plan, live, allowMissing)
    ensures |live| <= TotalCeiling(DeclaredEntries(plan))
  {
    hide DeclaredEntries;
    CleanInventoryAddsUp(plan, live, allowMissing);
    CountsUnderCeilings(DeclaredEntries(plan), live, allowMissing);
  }

  // ---------------------------------------------------------------- what a count may be

  /** The number a declaration asks for: its own, or one. */
  ghost predicate AsksFor(entry: Declaration, n: int) {
    match entry.expected
    case Some(e) => n == e
    case None => n == 1
  }

  /** The most it may have while it is being deployed: its own limit, or what it asks for. */
  ghost predicate AllowsWhileDeploying(entry: Declaration, n: int) {
    match entry.deploymentMax
    case Some(limit) => n <= limit
    case None => exists asked :: AsksFor(entry, asked) && n <= asked
  }

  /** Outside a deployment a declaration has what it asks for, or nothing if nothing is required;
      during one it may also have anything up to its limit. */
  lemma {:induction false} AdmissibleMeans(entry: Declaration, count: nat)
    ensures Admissible(entry, count, false) <==> AsksFor(entry, count) || (count == 0 && !entry.requiredLive)
    ensures Admissible(entry, count, true) <==> Admissible(entry, count, false) || AllowsWhileDeploying(entry, count)
  {
    assert AsksFor(entry, Expected(entry));
  }

  /** What is clean outside a deployment is clean during one. */
  lemma {:induction false} CleanIsReady(plan: Plan, live: seq<string>)
    requires Clean(plan, live, false)
    ensures Clean(plan, live, true)
  {
    hide DeclaredEntries, Count, Hits;
    forall entry: Declaration, count: nat
      ensures Admissible(entry, count, false) ==> Admissible(entry, count, true)
    {
      AdmissibleMeans(entry, count);
    }
  }

  lemma {:induction false} CountRest(entry: Declaration, live: seq<string>, k: nat)
    requires k < |live|
    ensures Count(entry, live[..k] + live[k + 1..]) <= Count(entry, live)
  {
    hide Matches;
    if k == 0 {
      assert live[..k] + live[k + 1..] == live[1..];
    } else {
      var rest := live[..k] + live[k + 1..];
      assert rest[1..] == live[1..][..k - 1] + live[1..][k..];
      CountRest(entry, live[1..], k - 1);
    }
  }

  /** Main result on readiness: a deployment can be checked at any point of it. Where no declaration
      has more than its limit, taking any one resource away from a clean inventory leaves it clean,
      down to nothing at all. */
  lemma {:induction false} PartialDeploymentIsClean(plan: Plan, live: seq<string>, k: nat)
    requires Clean(plan, live, true) && k < |live|
    requires forall i | 0 <= i < |DeclaredEntries(plan)| ::
               AllowsWhileDeploying(DeclaredEntries(plan)[i].entry, Count(DeclaredEntries(plan)[i].entry, live))
    ensures Clean(plan, live[..k] + live[k + 1..], true)
  {
    hide DeclaredEntries, Count, Hits, Admissible, AllowsWhileDeploying;
    var declared, fewer := DeclaredEntries(plan), live[..k] + live[k + 1..];
    forall i | 0 <= i < |declared|
      ensures Admissible(declared[i].entry, Count(declared[i].entry, fewer), true)
    {
      CountRest(declared[i].entry, live, k);
      AllowsFewer(declared[i].entry, Count(declared[i].entry, live), Count(declared[i].entry, fewer));
      AdmissibleMeans(declared[i].entry, Count(declared[i].entry, fewer));
    }
    forall j | 0 <= j < |fewer|
      ensures Hits(declared, fewer[j]) == 1
    {
      assert fewer[j] == if j < k then live[j] else live[j + 1];
    }
  }

  lemma {:induction false} AllowsFewer(entry: Declaration, count: int, fewer: int)
    requires AllowsWhileDeploying(entry, count) && fewer <= count
    ensures AllowsWhileDeploying(entry, fewer)
  {
  }

  /** Nothing live at all is clean during a deployment exactly when no declaration forbids zero, and
      outside one exactly when each asks for none or requires none. */
  lemma {:induction false} EmptyIsClean(plan: Plan, allowMissing: bool)
    ensures Clean(plan, [], allowMissing) <==>
              forall i | 0 <= i < |DeclaredEntries(plan)| ::
                var entry := DeclaredEntries(plan)[i].entry;
                AsksFor(entry, 0) || !entry.requiredLive || (allowMissing && AllowsWhileDeploying(entry, 0))
  {
    hide DeclaredEntries, Admissible, AllowsWhileDeploying, AsksFor;
    forall entry: Declaration
      ensures Count(entry, []) == 0
      ensures Admissible(entry, 0, allowMissing) <==>
                AsksFor(entry, 0) || !entry.requiredLive || (allowMissing && AllowsWhileDeploying(entry, 0))
    {
      AdmissibleMeans(entry, 0);
    }
  }
}
