/** Paired experiments: what a dataset may hold, how its samples are keyed, which evaluation
    results can be paired with them, and what a passing comparison therefore proves. */
module Experiments {
  import opened Wrappers
  import opened Text

  datatype Fault = BadDataset | BadCounts | Unpaired | BadGrades | StatusDisagrees | CountsDisagree
                 | ExtraItems | Stalled | KeysDiffer | NotPassed | BadVersion

  /** A tool a case requires, where its name and arguments have the right types. */
  datatype RequiredTool = RequiredTool(name: string, arguments: map<string, string>) | MalformedTool

  /** `required` is None where it is not a list. */
  datatype Row = Row(caseId: string, turns: seq<string>, reference: string, required: Option<seq<RequiredTool>>)

  // ------------------------------------------------------------------------- datasets

  predicate LabelChar(c: char) {
    'a' <= c <= 'z' || '0' <= c <= '9' || c == '-'
  }

  predicate Label(id: string) {
    0 < |id| <= 60 && forall i | 0 <= i < |id| :: LabelChar(id[i])
  }

  function TurnCount(rows: seq<Row>): nat {
    if rows == [] then 0 else TurnCount(rows[..|rows| - 1]) + |rows[|rows| - 1].turns|
  }

  predicate Usable(blank: string -> bool, row: Row) {
    && row.turns != [] && 0 < |row.reference| <= 12000
    && (forall i | 0 <= i < |row.turns| :: !blank(row.turns[i]) && |row.turns[i]| <= 4000)
    && row.required.Some? && MalformedTool !in row.required.value
  }

  predicate DistinctIds(rows: seq<Row>) {
    forall i, j | 0 <= i < j < |rows| :: rows[i].caseId != rows[j].caseId
  }

  /** What `load_dataset` lets through: one to six distinctly labelled cases. */
  predicate ValidDataset(blank: string -> bool, rows: seq<Row>) {
    && 1 <= |rows| <= 6 && TurnCount(rows) <= 12
    && DistinctIds(rows)
    && forall i | 0 <= i < |rows| :: Label(rows[i].caseId) && Usable(blank, rows[i])
  }

  method LoadDataset(blank: string -> bool, rows: seq<Row>) returns (ok: bool)
    ensures ok <==> ValidDataset(blank, rows)
  {
    hide Label, Usable;
    if !(1 <= |rows| <= 6) || TurnCount(rows) > 12 {
      return false;
    }
    var ids: set<string> := {};
    for n := 0 to |rows|
      invariant forall id :: id in ids <==> exists i :: 0 <= i < n && rows[i].caseId == id
      invariant DistinctIds(rows[..n])
      invariant forall i | 0 <= i < n :: Label(rows[i].caseId) && Usable(blank, rows[i])
    {
      if !Label(rows[n].caseId) || rows[n].caseId in ids {
        return false;
      }
      ids := ids + {rows[n].caseId};
      if !Usable(blank, rows[n]) {
        return false;
      }
    }
    assert rows[..|rows|] == rows;
    return true;
  }

  // ------------------------------------------------------------------------ sample keys

  /** `f"{case_id}-r{repeat}"`. */
  function KeyOf(caseId: string, repetition: nat): string {
    caseId + "-r" + Decimal(repetition)
  }

  /** `rsplit("-r", 1)[0]` undoes the key, even for a case ID that itself contains `-r`. */
  lemma {:induction false} KeyUndone(caseId: string, repetition: nat)
    ensures RSplitHead(KeyOf(caseId, repetition)) == caseId
  {
    var key := KeyOf(caseId, repetition);
    MarkerIsLast(caseId, Decimal(repetition), |key|);
  }

  lemma {:induction false} KeysInjective(a: string, m: nat, b: string, n: nat)
    requires KeyOf(a, m) == KeyOf(b, n)
    ensures a == b && m == n
  {
    KeyUndone(a, m);
    KeyUndone(b, n);
    assert KeyOf(a, m)[|a| + 2..] == Decimal(m) && KeyOf(b, n)[|b| + 2..] == Decimal(n);
    DecimalInjective(m, n);
  }

  // ------------------------------------------------------------------------- collection

  datatype Side = Baseline | Candidate

  datatype Sample = Sample(key: string, conversation: string, reference: string, calls: string, grounded: bool)

  /** What one conversation with one version produced: its text, its calls, and whether they
      include every required one. */
  datatype Talk = Talk(conversation: string, calls: string, grounded: bool)

  type Agents = (Side, Row, nat) -> Talk

  function SampleOf(agents: Agents, side: Side, row: Row, repetition: nat): Sample {
    var talk := agents(side, row, repetition);
    Sample(KeyOf(row.caseId, repetition), talk.conversation, row.reference, talk.calls, talk.grounded)
  }

  function Round(agents: Agents, side: Side, rows: seq<Row>, repetition: nat): (samples: seq<Sample>)
    ensures |samples| == |rows|
    ensures forall i | 0 <= i < |rows| :: samples[i] == SampleOf(agents, side, rows[i], repetition)
  {
    if rows == [] then []
    else Round(agents, side, rows[..|rows| - 1], repetition) + [SampleOf(agents, side, rows[|rows| - 1], repetition)]
  }

  /** A side's samples: every case of the dataset, once in each repetition. */
  function SamplesOf(agents: Agents, side: Side, rows: seq<Row>, repeats: nat): seq<Sample> {
    if repeats == 0 then [] else SamplesOf(agents, side, rows, repeats - 1) + Round(agents, side, rows, repeats)
  }

  datatype Sides<T> = Sides(baseline: T, candidate: T)

  function Appended(samples: Sides<seq<Sample>>, side: Side, sample: Sample): Sides<seq<Sample>> {
    if side.Baseline? then samples.(baseline := samples.baseline + [sample])
      else samples.(candidate := samples.candidate + [sample])
  }

  /** The sides alternate which goes first; each still gets its own samples in dataset order. */
  method Collect(agents: Agents, rows: seq<Row>, repeats: nat) returns (samples: Sides<seq<Sample>>)
    ensures samples == Sides(SamplesOf(agents, Baseline, rows, repeats), SamplesOf(agents, Candidate, rows, repeats))
  {
    hide SampleOf;
    samples := Sides([], []);
    for r := 0 to repeats
      invariant samples == Sides(SamplesOf(agents, Baseline, rows, r), SamplesOf(agents, Candidate, rows, r))
    {
      samples := CollectRound(agents, rows, r, samples);
    }
  }

  method CollectRound(agents: Agents, rows: seq<Row>, r: nat, before: Sides<seq<Sample>>)
    returns (samples: Sides<seq<Sample>>)
    ensures samples.baseline == before.baseline + Round(agents, Baseline, rows, r + 1)
    ensures samples.candidate == before.candidate + Round(agents, Candidate, rows, r + 1)
  {
    hide SampleOf;
    samples := before;
    for i := 0 to |rows|
      invariant samples.baseline == before.baseline + Round(agents, Baseline, rows[..i], r + 1)
      invariant samples.candidate == before.candidate + Round(agents, Candidate, rows[..i], r + 1)
    {
      assert rows[..i + 1][..i] == rows[..i];
      var first, second := if r % 2 == 0 then Baseline else Candidate, if r % 2 == 0 then Candidate else Baseline;
      samples := Appended(samples, first, SampleOf(agents, first, rows[i], r + 1));
      samples := Appended(samples, second, SampleOf(agents, second, rows[i], r + 1));
    }
    assert rows[..|rows|] == rows;
  }

  lemma {:induction false} SampleCount(agents: Agents, side: Side, rows: seq<Row>, repeats: nat)
    ensures |SamplesOf(agents, side, rows, repeats)| == repeats * |rows|
  {
    if repeats > 0 {
      SampleCount(agents, side, rows, repeats - 1);
      assert (repeats - 1) * |rows| + |rows| == repeats * |rows|;
    }
  }

  /** Which case and which repetition a sample belongs to. */
  lemma {:induction false} SampleOrigin(agents: Agents, side: Side, rows: seq<Row>, repeats: nat, k: nat)
    returns (i: nat, r: nat)
    requires k < |SamplesOf(agents, side, rows, repeats)|
    ensures i < |rows| && 1 <= r <= repeats && k == (r - 1) * |rows| + i
    ensures SamplesOf(agents, side, rows, repeats)[k] == SampleOf(agents, side, rows[i], r)
  {
    hide SampleOf;
    var before := SamplesOf(agents, side, rows, repeats - 1);
    if k < |before| {
      i, r := SampleOrigin(agents, side, rows, repeats - 1, k);
    } else {
      SampleCount(agents, side, rows, repeats - 1);
      i, r := k - |before|, repeats;
    }
  }

  /** Every case of the dataset is sampled in every repetition. */
  lemma {:induction false} EveryCaseIsSampled(agents: Agents, side: Side, rows: seq<Row>, repeats: nat, i: nat, r: nat)
    requires i < |rows| && 1 <= r <= repeats
    ensures SampleOf(agents, side, rows[i], r) in SamplesOf(agents, side, rows, repeats)
  {
    hide SampleOf;
    if r < repeats {
      EveryCaseIsSampled(agents, side, rows, repeats - 1, i, r);
    } else {
      assert Round(agents, side, rows, repeats)[i] == SampleOf(agents, side, rows[i], r);
    }
  }

  predicate DistinctKeys(samples: seq<Sample>) {
    forall i, j | 0 <= i < j < |samples| :: samples[i].key != samples[j].key
  }

  /** No two samples of a side share a key. */
  lemma {:induction false} CollectedKeysAreDistinct(agents: Agents, side: Side, rows: seq<Row>, repeats: nat)
    requires DistinctIds(rows)
    ensures DistinctKeys(SamplesOf(agents, side, rows, repeats))
  {
    hide KeyOf, SamplesOf;
    var samples := SamplesOf(agents, side, rows, repeats);
    forall k, l | 0 <= k < l < |samples|
      ensures samples[k].key != samples[l].key
    {
      var i, r := SampleOrigin(agents, side, rows, repeats, k);
      var j, s := SampleOrigin(agents, side, rows, repeats, l);
      if samples[k].key == samples[l].key {
        KeysInjective(rows[i].caseId, r, rows[j].caseId, s);
      }
    }
  }

  // ------------------------------------------------------------------- reading the results

  datatype Grade = Grade(name: string, passed: Option<bool>, error: bool, status: Option<string>, sampleError: bool,
    finiteScore: bool)

  datatype Item = Item(source: Option<Sample>, grades: seq<Grade>, error: bool, status: Option<string>)

  datatype Page = Page(items: seq<Item>, next: bool)

  function ItemsUpTo(pages: nat -> Page, n: nat): seq<Item> {
    if n == 0 then [] else ItemsUpTo(pages, n - 1) + pages(n - 1).items
  }

  /** The paging loop, on any stream of pages: it stops after at most one page more than there
      are samples, having read every page up to the last, or refuses. */
  method ReadItems(pages: nat -> Page, expected: nat) returns (r: Result<seq<Item>, Fault>, asked: nat)
    ensures 1 <= asked <= expected + 1
    ensures forall k | 0 <= k < asked - 1 :: pages(k).next && pages(k).items != []
    ensures r.Ok? ==> r.value == ItemsUpTo(pages, asked) && |r.value| <= expected && !pages(asked - 1).next
    ensures r == Err(ExtraItems) ==> |ItemsUpTo(pages, asked)| > expected
    ensures r == Err(Stalled) ==> pages(asked - 1).items == [] && pages(asked - 1).next
    ensures r.Err? ==> r.error in {ExtraItems, Stalled}
  {
    var items: seq<Item> := [];
    asked := 0;
    while true
      invariant items == ItemsUpTo(pages, asked) && asked <= |items| <= expected
      invariant forall k | 0 <= k < asked :: pages(k).next && pages(k).items != []
      decreases expected - |items|
    {
      var page := pages(asked);
      asked := asked + 1;
      if |items| + |page.items| > expected {
        return Err(ExtraItems), asked;
      }
      items := items + page.items;
      if !page.next {
        return Ok(items), asked;
      }
      if page.items == [] {
        return Err(Stalled), asked;
      }
    }
  }

  // --------------------------------------------------------------------------- outcomes

  /** Counts that are not whole numbers are None. */
  datatype Counts = Counts(total: Option<int>, passed: Option<int>, failed: Option<int>, errored: Option<int>,
    skipped: int)

  const CRITERIA: set<string> := {"task_correctness", "safety", "retrieval_evidence"}

  datatype Graded = Graded(key: string, grades: map<string, bool>)

  predicate CountsHold(counts: Counts, items: seq<Item>, samples: seq<Sample>) {
    && counts.total == Some(|samples|) && counts.errored == Some(0)
    && counts.passed.Some? && counts.passed.value >= 0 && counts.failed.Some? && counts.failed.value >= 0
    && counts.passed.value + counts.failed.value == |samples|
    && counts.skipped == 0 && |items| == |samples|
  }

  function Names(grades: seq<Grade>): set<string> {
    set i | 0 <= i < |grades| :: grades[i].name
  }

  /** The schema every item's grades must have: each criterion graded once, without error. */
  predicate WellGraded(item: Item) {
    && |item.grades| == 3 && Names(item.grades) == CRITERIA
    && (forall i | 0 <= i < |item.grades| ::
          var g := item.grades[i];
          g.passed.Some? && !g.error && (g.status == None || g.status == Some("completed")) && !g.sampleError
            && g.finiteScore)
    && !item.error
    && (item.status == Some("pass") || item.status == Some("fail") || item.status == Some("completed"))
  }

  function GradeMap(grades: seq<Grade>): map<string, bool>
    requires forall i | 0 <= i < |grades| :: grades[i].passed.Some?
  {
    if grades == [] then map[] else GradeMap(grades[..|grades| - 1])[grades[|grades| - 1].name :=
      grades[|grades| - 1].passed.value]
  }

  predicate AllPassed(grades: map<string, bool>) {
    forall name :: name in grades ==> grades[name]
  }

  predicate StatusAgrees(item: Item, grades: map<string, bool>) {
    item.status == Some("pass") || item.status == Some("fail") ==> (item.status == Some("pass") <==> AllPassed(grades))
  }

  function PassCount(results: seq<Graded>): nat {
    if results == [] then 0
    else PassCount(results[..|results| - 1]) + if AllPassed(results[|results| - 1].grades) then 1 else 0
  }

  function Expected(samples: seq<Sample>): map<string, Sample> {
    if samples == [] then map[] else Expected(samples[..|samples| - 1])[samples[|samples| - 1].key :=
      samples[|samples| - 1]]
  }

  predicate Paired(expected: map<string, Sample>, item: Item) {
    item.source.Some? && item.source.value.key in expected && expected[item.source.value.key] == item.source.value
  }

  predicate Keyed(results: seq<Graded>, key: string) {
    exists i :: 0 <= i < |results| && results[i].key == key
  }

  /** The first n items, paired and graded in turn. */
  ghost predicate Accepted(samples: seq<Sample>, items: seq<Item>, results: seq<Graded>) {
    && |results| == |items|
    && (forall k | 0 <= k < |items| ::
          && Paired(Expected(samples), items[k]) && WellGraded(items[k])
          && results[k] == Graded(items[k].source.value.key, GradeMap(items[k].grades))
          && StatusAgrees(items[k], results[k].grades))
    && forall i, j | 0 <= i < j < |results| :: results[i].key != results[j].key
  }

  method Outcomes(counts: Counts, items: seq<Item>, samples: seq<Sample>) returns (r: Result<seq<Graded>, Fault>)
    ensures r.Ok? ==>
            CountsHold(counts, items, samples) && Accepted(samples, items, r.value)
            && counts.passed == Some(PassCount(r.value))
    ensures r.Err? ==> !exists results :: CountsHold(counts, items, samples) && Accepted(samples, items, results)
                                          && counts.passed == Some(PassCount(results))
  {
    hide WellGraded, StatusAgrees, Expected, GradeMap, PassCount, AllPassed, CRITERIA;
    if !CountsHold(counts, items, samples) {
      return Err(BadCounts);
    }
    hide CountsHold;
    var expected := Expected(samples);
    var results: seq<Graded> := [];
    for n := 0 to |items|
      invariant Accepted(samples, items[..n], results)
    {
      var item := items[n];
      if !Paired(expected, item) || Keyed(results, item.source.value.key) {
        NoPrefixAccepted(samples, items, results, n);
        return Err(Unpaired);
      }
      if !WellGraded(item) {
        return Err(BadGrades);
      }
      GradedAll(item);
      var grades := GradeMap(item.grades);
      if !StatusAgrees(item, grades) {
        return Err(StatusDisagrees);
      }
      results := results + [Graded(item.source.value.key, grades)];
    }
    assert items[..|items|] == items;
    AcceptedOnce(samples, items, results);
    if counts.passed != Some(PassCount(results)) {
      return Err(CountsDisagree);
    }
    return Ok(results);
  }

  lemma {:induction false} GradedAll(item: Item)
    requires WellGraded(item)
    ensures forall i | 0 <= i < |item.grades| :: item.grades[i].passed.Some?
  {
  }

  lemma {:induction false} NoPrefixAccepted(samples: seq<Sample>, items: seq<Item>, results: seq<Graded>, n: nat)
    requires n < |items| && Accepted(samples, items[..n], results)
    requires !Paired(Expected(samples), items[n]) || Keyed(results, items[n].source.value.key)
    ensures !exists other :: Accepted(samples, items, other)
  {
    hide WellGraded, StatusAgrees, Expected, GradeMap, Paired;
    forall other: seq<Graded>
      ensures !Accepted(samples, items, other)
    {
      NotAccepted(samples, items, results, n, other);
    }
  }

  lemma {:induction false} NotAccepted(samples: seq<Sample>, items: seq<Item>, results: seq<Graded>, n: nat,
                                       other: seq<Graded>)
    requires n < |items| && Accepted(samples, items[..n], results)
    requires !Paired(Expected(samples), items[n]) || Keyed(results, items[n].source.value.key)
    ensures !Accepted(samples, items, other)
  {
    hide WellGraded, StatusAgrees, Expected, GradeMap;
    if Paired(Expected(samples), items[n]) && |other| == |items| {
      var i :| 0 <= i < |results| && results[i].key == items[n].source.value.key;
      assert items[..n][i] == items[i];
      assert results[i].key == items[i].source.value.key;
    }
  }

  lemma {:induction false} AcceptedOnce(samples: seq<Sample>, items: seq<Item>, results: seq<Graded>)
    requires Accepted(samples, items, results)
    ensures forall other :: Accepted(samples, items, other) ==> other == results
  {
    hide WellGraded, StatusAgrees, Expected, GradeMap, Paired;
    forall other | Accepted(samples, items, other)
      ensures other == results
    {
      assert forall k | 0 <= k < |items| :: other[k] == results[k];
    }
  }
}
