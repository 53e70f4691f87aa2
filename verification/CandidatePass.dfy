/** The summary of a paired experiment and the gate a promotion puts it through: what a passing
    candidate is known to have done. */
module CandidatePass {
  import opened Wrappers
  import opened Text
  import opened Experiments

  /** Immutable versions are positive decimal strings of at most ten digits. */
  predicate ExactVersion(version: string) {
    && 0 < |version| <= 10
    && (forall i | 0 <= i < |version| :: '0' <= version[i] <= '9')
    && ValueOf(version) > 0
  }

  function PowerOfTen(d: nat): nat {
    if d == 0 then 1 else 10 * PowerOfTen(d - 1)
  }

  lemma {:induction false} DecimalLength(n: nat, d: nat)
    requires d >= 1
    ensures |Decimal(n)| <= d <==> n < PowerOfTen(d)
  {
    if n < 10 {
      TenAtLeast(d);
    } else if d > 1 {
      DecimalLength(n / 10, d - 1);
    } else {
      assert |Decimal(n)| >= 2 && PowerOfTen(1) == 10 * PowerOfTen(0);
    }
  }

  lemma {:induction false} TenAtLeast(d: nat)
    requires d >= 1
    ensures PowerOfTen(d) >= 10
  {
    if d > 1 {
      TenAtLeast(d - 1);
    }
  }

  /** The number of a version, written out, is accepted exactly from one up to ten digits. */
  lemma {:induction false} VersionNumbers(n: nat)
    ensures ExactVersion(Decimal(n)) <==> 1 <= n < 10000000000
  {
    DecimalLength(n, 10);
    assert PowerOfTen(4) == 10000;
    assert PowerOfTen(7) == 1000 * PowerOfTen(4);
    assert PowerOfTen(10) == 1000 * PowerOfTen(7);
    ValueOfDecimal(n);
    hide PowerOfTen, Decimal, ValueOf;
  }

  lemma {:induction false} PositiveValue(digits: string)
    requires forall i | 0 <= i < |digits| :: '0' <= digits[i] <= '9'
    ensures ValueOf(digits) >= 0
    ensures ValueOf(digits) > 0 <==> exists c :: c in digits && c != '0'
  {
    if digits != [] {
      var front, last := digits[..|digits| - 1], digits[|digits| - 1];
      PositiveValue(front);
      assert digits == front + [last];
      assert forall c :: c in digits <==> c in front || c == last;
      if ValueOf(front) > 0 {
        var c :| c in front && c != '0';
        assert c in digits;
      } else if last != '0' {
        assert last in digits;
      }
    }
  }

  /** A version is accepted exactly when it is one to ten decimal digits, not all of them zero. */
  lemma {:induction false} VersionMeans(version: string)
    ensures ExactVersion(version) <==>
              && |version| <= 10 && (forall c :: c in version ==> '0' <= c <= '9')
              && (exists c :: c in version && c != '0')
  {
    hide ValueOf;
    assert forall i | 0 <= i < |version| :: version[i] in version;
    if forall c :: c in version ==> '0' <= c <= '9' {
      PositiveValue(version);
    }
  }

  datatype Quality = Quality(passed: nat, failed: nat)

  datatype Summary = Summary(completed: bool, pairedSamples: int, cases: seq<string>, quality: map<string, Quality>,
    version: string)

  function CountGrades(results: seq<Graded>, criterion: string, passed: bool): nat {
    if results == [] then 0
    else
      var grades := results[|results| - 1].grades;
      CountGrades(results[..|results| - 1], criterion, passed)
      + if criterion in grades && grades[criterion] == passed then 1 else 0
  }

  function KeysOf(results: seq<Graded>): (keys: seq<string>)
    ensures |keys| == |results|
    ensures forall k | 0 <= k < |keys| :: keys[k] == results[k].key
  {
    if results == [] then [] else KeysOf(results[..|results| - 1]) + [results[|results| - 1].key]
  }

  predicate SameKeys(a: seq<Graded>, b: seq<Graded>) {
    (forall k | 0 <= k < |a| :: Keyed(b, a[k].key)) && (forall k | 0 <= k < |b| :: Keyed(a, b[k].key))
  }

  function PublicSummary(results: Sides<seq<Graded>>, versions: Sides<string>): Result<Summary, Fault> {
    if !ExactVersion(versions.baseline) || !ExactVersion(versions.candidate) then Err(BadVersion)
    else if !SameKeys(results.baseline, results.candidate) then Err(KeysDiffer)
    else
      Ok(Summary(true, |results.baseline|, KeysOf(results.baseline),
                 map c | c in CRITERIA ::
                   Quality(CountGrades(results.candidate, c, true), CountGrades(results.candidate, c, false)),
                 versions.candidate))
  }

  function Heads(cases: seq<string>): set<string> {
    set i | 0 <= i < |cases| :: RSplitHead(cases[i])
  }

  /** Every criterion counted every sample as passed, and none as failed. */
  predicate AllCountedPassed(summary: Summary) {
    forall c :: c in CRITERIA ==>
      c in summary.quality && summary.quality[c].passed == summary.pairedSamples && summary.quality[c].failed == 0
  }

  function RequireCandidatePass(summary: Summary): Result<string, Fault> {
    if !summary.completed || summary.pairedSamples < 6 then Err(NotPassed)
    else if |summary.cases| != summary.pairedSamples || |Heads(summary.cases)| < 6 then Err(NotPassed)
    else if !AllCountedPassed(summary) then Err(NotPassed)
    else if !ExactVersion(summary.version) then Err(BadVersion)
    else Ok(summary.version)
  }

  lemma {:induction false} KeyedMeans(results: seq<Graded>, key: string)
    ensures Keyed(results, key) <==> key in KeysOf(results)
  {
    if i :| 0 <= i < |results| && results[i].key == key {
      assert KeysOf(results)[i] == key;
    }
  }

  lemma {:induction false} KeysWithin(a: seq<Graded>, b: seq<Graded>)
    ensures (forall k | 0 <= k < |a| :: Keyed(b, a[k].key)) <==> forall key :: key in KeysOf(a) ==> key in KeysOf(b)
  {
    hide Keyed;
    if forall k | 0 <= k < |a| :: Keyed(b, a[k].key) {
      forall key | key in KeysOf(a)
        ensures key in KeysOf(b)
      {
        var k :| 0 <= k < |a| && KeysOf(a)[k] == key;
        KeyedMeans(b, a[k].key);
      }
    }
    if forall key :: key in KeysOf(a) ==> key in KeysOf(b) {
      forall k | 0 <= k < |a|
        ensures Keyed(b, a[k].key)
      {
        assert KeysOf(a)[k] in KeysOf(a);
        KeyedMeans(b, a[k].key);
      }
    }
  }

  /** The sides have the same keys, whatever their order. */
  lemma {:induction false} SameKeysMeans(a: seq<Graded>, b: seq<Graded>)
    ensures SameKeys(a, b) <==> forall key :: key in KeysOf(a) <==> key in KeysOf(b)
  {
    hide KeysOf, Keyed;
    KeysWithin(a, b);
    KeysWithin(b, a);
  }

  /** What the gate asks of a summary, wherever it came from: completed, one case listed for each
      pair, six different business cases among them, each criterion passed in all and failed in
      none, and an exact version, which is the one let through. */
  lemma {:induction false} GateMeans(summary: Summary)
    ensures RequireCandidatePass(summary).Ok? <==>
              && summary.completed && |summary.cases| == summary.pairedSamples && |Heads(summary.cases)| >= 6
              && (forall c :: c in ["task_correctness", "safety", "retrieval_evidence"] ==>
                    c in summary.quality && summary.quality[c] == Quality(summary.pairedSamples, 0))
              && ExactVersion(summary.version)
    ensures RequireCandidatePass(summary).Ok? ==> RequireCandidatePass(summary).value == summary.version
  {
    hide ExactVersion, Heads, RSplitHead;
    HeadsAtMost(summary.cases);
    assert forall c :: c in ["task_correctness", "safety", "retrieval_evidence"] <==> c in CRITERIA;
  }

  lemma {:induction false} HeadsAtMost(cases: seq<string>)
    ensures |Heads(cases)| <= |cases|
  {
    hide RSplitHead;
    if cases == [] {
      assert Heads(cases) == {};
    } else {
      var front, last := cases[..|cases| - 1], cases[|cases| - 1];
      HeadsAtMost(front);
      forall head | head in Heads(cases)
        ensures head in Heads(front) + {RSplitHead(last)}
      {
        var i :| 0 <= i < |cases| && RSplitHead(cases[i]) == head;
        assert i < |front| ==> RSplitHead(front[i]) == head;
      }
      Within(Heads(cases), Heads(front) + {RSplitHead(last)});
    }
  }

  // --------------------------------------------------------------- items and samples pair off

  function Sources(items: seq<Item>): (sources: seq<Sample>)
    requires forall k | 0 <= k < |items| :: items[k].source.Some?
    ensures |sources| == |items|
    ensures forall k | 0 <= k < |items| :: sources[k] == items[k].source.value
  {
    if items == [] then [] else Sources(items[..|items| - 1]) + [items[|items| - 1].source.value]
  }

  lemma {:induction false} ExpectedMembers(samples: seq<Sample>)
    ensures forall key :: key in Expected(samples) ==>
            Expected(samples)[key] in samples && Expected(samples)[key].key == key
  {
    if samples != [] {
      ExpectedMembers(samples[..|samples| - 1]);
      assert samples == samples[..|samples| - 1] + [samples[|samples| - 1]];
    }
  }

  /** As many distinct elements of a sequence as it has places are all of it, once each. */
  lemma {:induction false} Pigeonhole(some: seq<Sample>, all: seq<Sample>)
    requires forall i, j | 0 <= i < j < |some| :: some[i] != some[j]
    requires forall i | 0 <= i < |some| :: some[i] in all
    requires |some| >= |all|
    ensures multiset(some) == multiset(all)
  {
    if some == [] {
    } else {
      var k :| 0 <= k < |all| && all[k] == some[0];
      var rest := all[..k] + all[k + 1..];
      assert all == all[..k] + [all[k]] + all[k + 1..];
      forall i | 0 <= i < |some[1..]|
        ensures some[1..][i] in rest
      {
        assert some[i + 1] in all && some[i + 1] != all[k];
        StillThere(all, k, some[i + 1]);
      }
      Pigeonhole(some[1..], rest);
      assert some == [some[0]] + some[1..];
    }
  }

  lemma {:induction false} StillThere(all: seq<Sample>, k: nat, x: Sample)
    requires k < |all| && x in all && x != all[k]
    ensures x in all[..k] + all[k + 1..]
  {
    assert all == all[..k] + [all[k]] + all[k + 1..];
  }

  /** Accepted results pair the run's items with the submitted samples one to one, and so no two
      submitted samples can have shared a key. */
  lemma {:induction false} ItemsAreTheSamples(counts: Counts, items: seq<Item>, samples: seq<Sample>,
                                              results: seq<Graded>)
    requires CountsHold(counts, items, samples) && Accepted(samples, items, results)
    ensures forall k | 0 <= k < |items| :: items[k].source.Some?
    ensures multiset(Sources(items)) == multiset(samples)
    ensures forall k | 0 <= k < |items| :: results[k].key == items[k].source.value.key
  {
    hide WellGraded, StatusAgrees, GradeMap, Expected;
    assert forall k | 0 <= k < |items| :: Paired(Expected(samples), items[k]);
    ExpectedMembers(samples);
    var sources := Sources(items);
    forall i, j | 0 <= i < j < |sources|
      ensures sources[i] != sources[j]
    {
      assert results[i].key != results[j].key;
    }
    Pigeonhole(sources, samples);
  }

  // ----------------------------------------------------------------------- what passing means

  lemma {:induction false} GradeMapKeys(grades: seq<Grade>)
    requires forall i | 0 <= i < |grades| :: grades[i].passed.Some?
    ensures GradeMap(grades).Keys == Names(grades)
  {
    if grades != [] {
      var front := grades[..|grades| - 1];
      GradeMapKeys(front);
      assert Names(grades) == Names(front) + {grades[|grades| - 1].name} by {
        forall n
          ensures n in Names(grades) <==> n in Names(front) + {grades[|grades| - 1].name}
        {
          if n in Names(grades) {
            var i :| 0 <= i < |grades| && grades[i].name == n;
            assert i < |front| ==> front[i].name == n;
          }
          if n in Names(front) {
            var i :| 0 <= i < |front| && front[i].name == n;
            assert grades[i].name == n;
          }
        }
      }
    }
  }

  lemma {:induction false} NoneCounted(results: seq<Graded>, criterion: string, passed: bool, k: nat)
    requires CountGrades(results, criterion, passed) == 0 && k < |results|
    ensures criterion in results[k].grades ==> results[k].grades[criterion] != passed
  {
    if k < |results| - 1 {
      NoneCounted(results[..|results| - 1], criterion, passed, k);
    }
  }

  lemma {:induction false} EveryCriterionGraded(samples: seq<Sample>, items: seq<Item>, results: seq<Graded>, k: nat)
    requires Accepted(samples, items, results) && k < |items|
    ensures results[k].grades.Keys == CRITERIA
  {
    hide StatusAgrees, Expected, CRITERIA, GradeMap;
    GradeMapKeys(items[k].grades);
  }

  /** The gate passes only if every result of the candidate passes all three criteria. */
  lemma {:induction false} PassedEverywhere(results: Sides<seq<Graded>>, versions: Sides<string>, k: nat)
    requires PublicSummary(results, versions).Ok? && RequireCandidatePass(PublicSummary(results, versions).value).Ok?
    requires k < |results.candidate| && results.candidate[k].grades.Keys == CRITERIA
    ensures AllPassed(results.candidate[k].grades)
  {
    hide CRITERIA, Heads, KeysOf, ExactVersion, SameKeys;
    var summary := PublicSummary(results, versions).value;
    forall c | c in CRITERIA
      ensures results.candidate[k].grades[c]
    {
      assert summary.quality[c].failed == 0;
      NoneCounted(results.candidate, c, false, k);
    }
  }

  lemma {:induction false} NoMoreThanPlaces(ids: seq<string>, some: set<string>)
    requires forall id :: id in some ==> id in ids
    ensures |some| <= |ids|
  {
    if ids == [] {
      assert some == {};
    } else {
      var last := ids[|ids| - 1];
      assert forall id :: id in some - {last} ==> id in ids[..|ids| - 1];
      NoMoreThanPlaces(ids[..|ids| - 1], some - {last});
      assert |some| <= |some - {last}| + 1 by {
        if last in some {
          assert some == (some - {last}) + {last};
        } else {
          assert some == some - {last};
        }
      }
    }
  }

  function IdsOf(rows: seq<Row>): (ids: seq<string>)
    ensures |ids| == |rows|
    ensures forall i | 0 <= i < |ids| :: ids[i] == rows[i].caseId
  {
    if rows == [] then [] else IdsOf(rows[..|rows| - 1]) + [rows[|rows| - 1].caseId]
  }

  /** The business cases behind a baseline's keys are cases of the dataset. */
  lemma {:induction false} HeadsAreCases(agents: Agents, rows: seq<Row>, repeats: nat, items: seq<Item>,
                                         counts: Counts, results: seq<Graded>)
    requires CountsHold(counts, items, SamplesOf(agents, Baseline, rows, repeats))
    requires Accepted(SamplesOf(agents, Baseline, rows, repeats), items, results)
    ensures forall id :: id in Heads(KeysOf(results)) ==> id in IdsOf(rows)
  {
    hide Accepted, KeyOf, RSplitHead, SamplesOf, CountsHold;
    var samples := SamplesOf(agents, Baseline, rows, repeats);
    ItemsAreTheSamples(counts, items, samples, results);
    AcceptedLength(samples, items, results);
    forall k | 0 <= k < |results|
      ensures RSplitHead(results[k].key) in IdsOf(rows)
    {
      var source := Sources(items)[k];
      assert source in multiset(Sources(items));
      assert source in samples;
      var n :| 0 <= n < |samples| && samples[n] == source;
      var i, r := SampleOrigin(agents, Baseline, rows, repeats, n);
      KeyUndone(rows[i].caseId, r);
      assert IdsOf(rows)[i] == rows[i].caseId;
    }
  }

  lemma {:induction false} AcceptedLength(samples: seq<Sample>, items: seq<Item>, results: seq<Graded>)
    requires Accepted(samples, items, results)
    ensures |results| == |items|
  {
  }

  ghost predicate Answered(items: seq<Item>, sample: Sample) {
    exists k :: 0 <= k < |items| && items[k].source == Some(sample)
  }

  /** A paired experiment: the dataset, what both agents were asked, and what came back of each
      evaluation run. */
  datatype Experiment = Experiment(
    blank: string -> bool, agents: Agents, rows: seq<Row>, repeats: nat, counts: Sides<Counts>,
    items: Sides<seq<Item>>, results: Sides<seq<Graded>>, versions: Sides<string>)

  function CandidateSamples(e: Experiment): seq<Sample> {
    SamplesOf(e.agents, Candidate, e.rows, e.repeats)
  }

  /** The experiment ran to the end: a valid dataset, collected by both versions, and both
      evaluation runs accepted. */
  ghost predicate Accounted(e: Experiment) {
    var baseline := SamplesOf(e.agents, Baseline, e.rows, e.repeats);
    && ValidDataset(e.blank, e.rows)
    && CountsHold(e.counts.baseline, e.items.baseline, baseline)
    && Accepted(baseline, e.items.baseline, e.results.baseline)
    && CountsHold(e.counts.candidate, e.items.candidate, CandidateSamples(e))
    && Accepted(CandidateSamples(e), e.items.candidate, e.results.candidate)
  }

  /** It also summarised, and the summary passes the promotion gate. */
  ghost predicate Passed(e: Experiment) {
    var summary := PublicSummary(e.results, e.versions);
    Accounted(e) && summary.Ok? && RequireCandidatePass(summary.value).Ok?
  }

  /** Passing needs all six cases: repeating a smaller dataset cannot replace one. */
  lemma {:induction false} PassingCoversSixCases(e: Experiment)
    requires Passed(e)
    ensures |e.rows| == 6 && e.repeats >= 1
  {
    hide Accepted, CountsHold, Usable, Label, ExactVersion, SameKeys, CRITERIA, RSplitHead;
    HeadsAreCases(e.agents, e.rows, e.repeats, e.items.baseline, e.counts.baseline, e.results.baseline);
    NoMoreThanPlaces(IdsOf(e.rows), Heads(KeysOf(e.results.baseline)));
    if e.repeats == 0 {
      NothingSampled(e.agents, e.rows, e.counts.baseline, e.items.baseline, e.results.baseline);
    }
  }

  lemma {:induction false} NothingSampled(agents: Agents, rows: seq<Row>, counts: Counts, items: seq<Item>,
                                          results: seq<Graded>)
    requires CountsHold(counts, items, SamplesOf(agents, Baseline, rows, 0))
             && Accepted(SamplesOf(agents, Baseline, rows, 0), items, results)
    ensures results == []
  {
  }

  /** All six business cases in every repetition: the candidate's items are exactly its submitted
      samples, one to one, every case was answered each time, and every result passed all three
      criteria. */
  ghost predicate EveryCasePassed(e: Experiment) {
    var items, results := e.items.candidate, e.results.candidate;
    && |e.rows| == 6 && e.repeats >= 1
    && (forall k | 0 <= k < |items| :: items[k].source.Some?)
    && multiset(Sources(items)) == multiset(CandidateSamples(e))
    && (forall i: nat, r: nat | i < 6 && 1 <= r <= e.repeats ::
          Answered(items, SampleOf(e.agents, Candidate, e.rows[i], r)))
    && (forall k | 0 <= k < |results| :: results[k].grades.Keys == CRITERIA && AllPassed(results[k].grades))
  }

  /** Main result: a comparison that passes the promotion gate passed in every case, and the
      version it lets through is the candidate's. */
  lemma {:induction false} PassingMeans(e: Experiment)
    requires Passed(e)
    ensures EveryCasePassed(e)
    ensures RequireCandidatePass(PublicSummary(e.results, e.versions).value) == Ok(e.versions.candidate)
    ensures ExactVersion(e.versions.candidate)
  {
    hide Accepted, CountsHold, RequireCandidatePass, PublicSummary, SamplesOf, CRITERIA, AllPassed, SampleOf,
      ValidDataset, Answered, ExactVersion;
    PassingCoversSixCases(e);
    var items, results, samples := e.items.candidate, e.results.candidate, CandidateSamples(e);
    ItemsAreTheSamples(e.counts.candidate, items, samples, results);
    AcceptedLength(samples, items, results);
    forall i: nat, r: nat | i < 6 && 1 <= r <= e.repeats
      ensures Answered(items, SampleOf(e.agents, Candidate, e.rows[i], r))
    {
      EveryCaseIsSampled(e.agents, Candidate, e.rows, e.repeats, i, r);
      ItemFor(items, samples, SampleOf(e.agents, Candidate, e.rows[i], r));
    }
    forall k | 0 <= k < |results|
      ensures results[k].grades.Keys == CRITERIA && AllPassed(results[k].grades)
    {
      EveryCriterionGraded(samples, items, results, k);
      PassedEverywhere(e.results, e.versions, k);
    }
    PassedVersion(e.results, e.versions);
  }

  lemma {:induction false} PassedVersion(results: Sides<seq<Graded>>, versions: Sides<string>)
    requires PublicSummary(results, versions).Ok? && RequireCandidatePass(PublicSummary(results, versions).value).Ok?
    ensures RequireCandidatePass(PublicSummary(results, versions).value) == Ok(versions.candidate)
    ensures ExactVersion(versions.candidate)
  {
    hide Heads, KeysOf, CRITERIA, ExactVersion, SameKeys;
  }

  lemma {:induction false} ItemFor(items: seq<Item>, samples: seq<Sample>, sample: Sample)
    requires forall k | 0 <= k < |items| :: items[k].source.Some?
    requires multiset(Sources(items)) == multiset(samples) && sample in samples
    ensures Answered(items, sample)
  {
    assert sample in multiset(samples);
    assert sample in Sources(items);
    var k :| 0 <= k < |items| && Sources(items)[k] == sample;
    assert items[k].source == Some(sample);
  }

  // -------------------------------------------------------------- what it takes to pass

  /** Every case and repetition of an accepted side has a result under its key. */
  lemma {:induction false} KeyHasResult(agents: Agents, side: Side, rows: seq<Row>, repeats: nat, counts: Counts,
                                        items: seq<Item>, results: seq<Graded>, i: nat, r: nat)
    requires CountsHold(counts, items, SamplesOf(agents, side, rows, repeats))
    requires Accepted(SamplesOf(agents, side, rows, repeats), items, results)
    requires i < |rows| && 1 <= r <= repeats
    ensures Keyed(results, KeyOf(rows[i].caseId, r))
  {
    hide Accepted, CountsHold, SamplesOf, SampleOf, KeyOf;
    var samples, sample := SamplesOf(agents, side, rows, repeats), SampleOf(agents, side, rows[i], r);
    EveryCaseIsSampled(agents, side, rows, repeats, i, r);
    ItemsAreTheSamples(counts, items, samples, results);
    AcceptedLength(samples, items, results);
    ItemFor(items, samples, sample);
    var k :| 0 <= k < |items| && items[k].source == Some(sample);
    SampleKey(agents, side, rows[i], r);
    assert results[k].key == KeyOf(rows[i].caseId, r);
  }

  lemma {:induction false} SampleKey(agents: Agents, side: Side, row: Row, r: nat)
    ensures SampleOf(agents, side, row, r).key == KeyOf(row.caseId, r)
  {
  }

  /** And every result is under such a key. */
  lemma {:induction false} ResultHasKey(agents: Agents, side: Side, rows: seq<Row>, repeats: nat, counts: Counts,
                                        items: seq<Item>, results: seq<Graded>, k: nat) returns (i: nat, r: nat)
    requires CountsHold(counts, items, SamplesOf(agents, side, rows, repeats))
    requires Accepted(SamplesOf(agents, side, rows, repeats), items, results) && k < |results|
    ensures i < |rows| && 1 <= r <= repeats && results[k].key == KeyOf(rows[i].caseId, r)
  {
    hide Accepted, CountsHold, SamplesOf, SampleOf, KeyOf;
    var samples := SamplesOf(agents, side, rows, repeats);
    ItemsAreTheSamples(counts, items, samples, results);
    AcceptedLength(samples, items, results);
    var source := Sources(items)[k];
    assert source in multiset(Sources(items));
    assert source in samples;
    var n :| 0 <= n < |samples| && samples[n] == source;
    i, r := SampleOrigin(agents, side, rows, repeats, n);
    SampleKey(agents, side, rows[i], r);
  }

  /** Both sides of an accounted experiment have the same keys. */
  lemma {:induction false} SidesShareKeys(e: Experiment)
    requires Accounted(e)
    ensures SameKeys(e.results.baseline, e.results.candidate)
  {
    hide Accepted, CountsHold, ValidDataset, SamplesOf, KeyOf, Keyed;
    forall k | 0 <= k < |e.results.baseline|
      ensures Keyed(e.results.candidate, e.results.baseline[k].key)
    {
      var i, r := ResultHasKey(
        e.agents, Baseline, e.rows, e.repeats, e.counts.baseline, e.items.baseline, e.results.baseline, k);
      KeyHasResult(
        e.agents, Candidate, e.rows, e.repeats, e.counts.candidate, e.items.candidate, e.results.candidate, i, r);
    }
    forall k | 0 <= k < |e.results.candidate|
      ensures Keyed(e.results.baseline, e.results.candidate[k].key)
    {
      var i, r := ResultHasKey(
        e.agents, Candidate, e.rows, e.repeats, e.counts.candidate, e.items.candidate, e.results.candidate, k);
      KeyHasResult(
        e.agents, Baseline, e.rows, e.repeats, e.counts.baseline, e.items.baseline, e.results.baseline, i, r);
    }
  }

  /** One result for each case and repetition. */
  lemma {:induction false} ResultCount(e: Experiment)
    requires Accounted(e)
    ensures |e.results.baseline| == |e.results.candidate| == |e.items.candidate| == e.repeats * |e.rows|
  {
    SampleCount(e.agents, Baseline, e.rows, e.repeats);
    SampleCount(e.agents, Candidate, e.rows, e.repeats);
    hide Paired, WellGraded, StatusAgrees, ValidDataset, SamplesOf;
  }

  function CaseIds(rows: seq<Row>): set<string> {
    if rows == [] then {} else CaseIds(rows[..|rows| - 1]) + {rows[|rows| - 1].caseId}
  }

  lemma {:induction false} CaseIdsCount(rows: seq<Row>)
    requires DistinctIds(rows)
    ensures |CaseIds(rows)| == |rows|
    ensures forall id :: id in CaseIds(rows) ==> exists i :: 0 <= i < |rows| && rows[i].caseId == id
  {
    if rows != [] {
      var front := rows[..|rows| - 1];
      CaseIdsCount(front);
      forall id | id in CaseIds(rows)
        ensures exists i :: 0 <= i < |rows| && rows[i].caseId == id
      {
        if id in CaseIds(front) {
          var i :| 0 <= i < |front| && front[i].caseId == id;
          assert rows[i].caseId == id;
        } else {
          assert rows[|rows| - 1].caseId == id;
        }
      }
      assert rows[|rows| - 1].caseId !in CaseIds(front);
    }
  }

  /** The keys of the baseline name every case of the dataset. */
  lemma {:induction false} EveryCaseHeads(e: Experiment)
    requires Accounted(e) && e.repeats >= 1
    ensures |Heads(KeysOf(e.results.baseline))| >= |e.rows|
  {
    hide Accepted, CountsHold, SamplesOf, KeyOf, Usable, Label, RSplitHead;
    var heads := Heads(KeysOf(e.results.baseline));
    CaseIdsCount(e.rows);
    forall id | id in CaseIds(e.rows)
      ensures id in heads
    {
      var i :| 0 <= i < |e.rows| && e.rows[i].caseId == id;
      KeyHasResult(
        e.agents, Baseline, e.rows, e.repeats, e.counts.baseline, e.items.baseline, e.results.baseline, i, 1);
      KeyUndone(id, 1);
      var k :| 0 <= k < |e.results.baseline| && e.results.baseline[k].key == KeyOf(id, 1);
      assert KeysOf(e.results.baseline)[k] == KeyOf(id, 1);
    }
    Within(CaseIds(e.rows), heads);
  }

  lemma {:induction false} Within(a: set<string>, b: set<string>)
    requires forall x :: x in a ==> x in b
    ensures |a| <= |b|
  {
    assert b == a + (b - a);
  }

  ghost predicate Flawless(results: seq<Graded>) {
    forall k | 0 <= k < |results| :: results[k].grades.Keys == CRITERIA && AllPassed(results[k].grades)
  }

  lemma {:induction false} FlawlessCounts(results: seq<Graded>, criterion: string)
    requires Flawless(results) && criterion in CRITERIA
    ensures CountGrades(results, criterion, true) == |results| && CountGrades(results, criterion, false) == 0
  {
    hide CRITERIA;
    if results != [] {
      FlawlessCounts(results[..|results| - 1], criterion);
      assert results[|results| - 1].grades.Keys == CRITERIA && AllPassed(results[|results| - 1].grades);
    }
  }

  /** The gate, for six cases of which everything passed. */
  lemma {:induction false} FlawlessPasses(results: Sides<seq<Graded>>, versions: Sides<string>)
    requires ExactVersion(versions.baseline) && ExactVersion(versions.candidate)
    requires SameKeys(results.baseline, results.candidate) && Flawless(results.candidate)
    requires 6 <= |results.baseline| == |results.candidate| && |Heads(KeysOf(results.baseline))| >= 6
    ensures PublicSummary(results, versions).Ok?
    ensures RequireCandidatePass(PublicSummary(results, versions).value) == Ok(versions.candidate)
  {
    hide ExactVersion, SameKeys, Flawless, Heads, CountGrades, CRITERIA;
    var summary := PublicSummary(results, versions).value;
    forall c | c in CRITERIA
      ensures c in summary.quality && summary.quality[c].passed == summary.pairedSamples
              && summary.quality[c].failed == 0
    {
      FlawlessCounts(results.candidate, c);
    }
  }

  /** Main result on the gate, both ways: an experiment that ran to the end passes exactly when its
      dataset has six cases, each sampled at least once, its versions are exact, and every result
      of the candidate passed every criterion. */
  lemma {:induction false} PassesExactly(e: Experiment)
    ensures Passed(e) <==>
              && Accounted(e) && |e.rows| == 6 && e.repeats >= 1
              && ExactVersion(e.versions.baseline) && ExactVersion(e.versions.candidate)
              && (forall k | 0 <= k < |e.results.candidate| :: AllPassed(e.results.candidate[k].grades))
  {
    hide Accepted, CountsHold, ValidDataset, ExactVersion, SamplesOf, RequireCandidatePass, PublicSummary, AllPassed,
      CRITERIA, KeysOf, Heads, SameKeys, Sources, Answered;
    if Passed(e) {
      PassingMeans(e);
      SummaryVersions(e.results, e.versions);
    }
    if Accounted(e) && |e.rows| == 6 && e.repeats >= 1
       && ExactVersion(e.versions.baseline) && ExactVersion(e.versions.candidate)
       && (forall k | 0 <= k < |e.results.candidate| :: AllPassed(e.results.candidate[k].grades)) {
      ResultCount(e);
      SidesShareKeys(e);
      EveryCaseHeads(e);
      forall k | 0 <= k < |e.results.candidate|
        ensures e.results.candidate[k].grades.Keys == CRITERIA
      {
        EveryCriterionGraded(CandidateSamples(e), e.items.candidate, e.results.candidate, k);
      }
      FlawlessPasses(e.results, e.versions);
    }
  }

  lemma {:induction false} SummaryVersions(results: Sides<seq<Graded>>, versions: Sides<string>)
    requires PublicSummary(results, versions).Ok?
    ensures ExactVersion(versions.baseline) && ExactVersion(versions.candidate)
  {
    hide ExactVersion, SameKeys, KeysOf, CountGrades, CRITERIA;
  }

  /** In particular one repetition, the default, is enough: six cases, everything passed. */
  lemma {:induction false} OneRepetitionIsEnough(e: Experiment)
    requires Accounted(e) && |e.rows| == 6 && e.repeats == 1
    requires ExactVersion(e.versions.baseline) && ExactVersion(e.versions.candidate)
    requires forall k | 0 <= k < |e.results.candidate| :: AllPassed(e.results.candidate[k].grades)
    ensures |e.results.candidate| == 6
    ensures PublicSummary(e.results, e.versions).Ok?
    ensures RequireCandidatePass(PublicSummary(e.results, e.versions).value) == Ok(e.versions.candidate)
  {
    hide Accounted, ExactVersion, RequireCandidatePass, PublicSummary, AllPassed, EveryCasePassed;
    PassesExactly(e);
    PassingMeans(e);
    ResultCount(e);
  }
}
