/** Which datasets load and which evaluation runs are accepted, told from the rows, the items, the
    grades and the counts themselves. */
module Evaluations {
  import opened Wrappers
  import opened Text
  import opened Experiments
  import opened CandidatePass

  // ------------------------------------------------------------------------- datasets

  const LETTERS: string := "abcdefghijklmnopqrstuvwxyz"
  const DIGITS: string := "0123456789"

  ghost predicate Labelled(id: string) {
    id != "" && |id| <= 60 && forall c :: c in id ==> c in LETTERS || c in DIGITS || c == '-'
  }

  ghost predicate Answerable(blank: string -> bool, row: Row) {
    && row.turns != [] && row.reference != "" && |row.reference| <= 12000
    && (forall t :: t in row.turns ==> !blank(t) && |t| <= 4000)
    && row.required.Some? && forall tool :: tool in row.required.value ==> tool.RequiredTool?
  }

  /** Every turn of a dataset, case after case. */
  ghost function Turns(rows: seq<Row>): seq<string> {
    if rows == [] then [] else rows[0].turns + Turns(rows[1..])
  }

  lemma {:induction false} TurnsSplit(rows: seq<Row>, row: Row)
    ensures Turns(rows + [row]) == Turns(rows) + row.turns
  {
    if rows == [] {
      assert [] + [row] == [row];
    } else {
      TurnsSplit(rows[1..], row);
      assert (rows + [row])[1..] == rows[1..] + [row];
    }
  }

  lemma {:induction false} TurnsCounted(rows: seq<Row>)
    ensures TurnCount(rows) == |Turns(rows)|
  {
    if rows != [] {
      var front, last := rows[..|rows| - 1], rows[|rows| - 1];
      TurnsCounted(front);
      TurnsSplit(front, last);
      assert rows == front + [last];
    }
  }

  lemma {:induction false} Letters(c: char)
    ensures 'a' <= c <= 'z' <==> c in LETTERS
  {
    if 'a' <= c <= 'z' {
      assert LETTERS[c as int - 'a' as int] == c;
    }
  }

  lemma {:induction false} Digits(c: char)
    ensures '0' <= c <= '9' <==> c in DIGITS
  {
    if '0' <= c <= '9' {
      assert DIGITS[c as int - '0' as int] == c;
    }
  }

  lemma {:induction false} LabelMeans(id: string)
    ensures Label(id) <==> Labelled(id)
  {
    hide LETTERS, DIGITS;
    forall c: char
      ensures LabelChar(c) <==> c in LETTERS || c in DIGITS || c == '-'
    {
      Letters(c);
      Digits(c);
    }
    hide LabelChar;
    assert forall i | 0 <= i < |id| :: id[i] in id;
  }

  lemma {:induction false} UsableMeans(blank: string -> bool, row: Row)
    ensures Usable(blank, row) <==> Answerable(blank, row)
  {
    assert forall i | 0 <= i < |row.turns| :: row.turns[i] in row.turns;
    if row.required.Some? {
      assert forall tool :: tool == MalformedTool <==> !tool.RequiredTool?;
    }
  }

  /** Main result on loading: one to six cases of different labels, with at most twelve turns in
      all, each case labelled and answerable. */
  lemma {:induction false} DatasetMeans(blank: string -> bool, rows: seq<Row>)
    ensures ValidDataset(blank, rows) <==>
              && rows != [] && |rows| <= 6 && |Turns(rows)| <= 12
              && (forall i, j | 0 <= i < |rows| && 0 <= j < |rows| :: rows[i].caseId == rows[j].caseId ==> i == j)
              && (forall row :: row in rows ==> Labelled(row.caseId) && Answerable(blank, row))
  {
    hide Label, Labelled, Usable, Answerable, Turns, TurnCount;
    TurnsCounted(rows);
    forall row: Row
      ensures Label(row.caseId) && Usable(blank, row) <==> Labelled(row.caseId) && Answerable(blank, row)
    {
      LabelMeans(row.caseId);
      UsableMeans(blank, row);
    }
    assert forall i | 0 <= i < |rows| :: rows[i] in rows;
  }

  // ----------------------------------------------------------------------------- grades

  ghost predicate AllGood(item: Item) {
    forall g :: g in item.grades ==> g.passed == Some(true)
  }

  /** Three grades, one for each criterion, each decided and none in error. */
  ghost predicate Judged(item: Item) {
    && !item.error && |item.grades| == 3
    && (exists g :: g in item.grades && g.name == "task_correctness")
    && (exists g :: g in item.grades && g.name == "safety")
    && (exists g :: g in item.grades && g.name == "retrieval_evidence")
    && (forall g :: g in item.grades ==>
          && g.passed.Some? && !g.error && !g.sampleError && g.finiteScore
          && (g.status.Some? ==> g.status.value == "completed"))
  }

  /** A status that does not contradict the grades. */
  ghost predicate Concluded(item: Item) {
    && item.status.Some?
    && (item.status.value == "completed" || item.status.value == if AllGood(item) then "pass" else "fail")
  }

  ghost predicate NamedOnce(grades: seq<Grade>) {
    forall i, j | 0 <= i < j < |grades| :: grades[i].name != grades[j].name
  }

  lemma {:induction false} NamesAreTheCriteria(grades: seq<Grade>)
    requires |grades| == 3
    ensures Names(grades) == CRITERIA <==>
              && (exists g :: g in grades && g.name == "task_correctness")
              && (exists g :: g in grades && g.name == "safety")
              && (exists g :: g in grades && g.name == "retrieval_evidence")
    ensures Names(grades) == CRITERIA ==> NamedOnce(grades)
  {
    var a, b, c := grades[0].name, grades[1].name, grades[2].name;
    assert Names(grades) == {a, b, c};
    assert |"task_correctness"| == 16 && |"safety"| == 6 && |"retrieval_evidence"| == 18;
    assert grades[0] in grades && grades[1] in grades && grades[2] in grades;
    assert forall g :: g in grades <==> g == grades[0] || g == grades[1] || g == grades[2];
    if Names(grades) == CRITERIA {
      assert "task_correctness" in Names(grades) && "safety" in Names(grades) && "retrieval_evidence" in Names(grades);
    }
  }

  lemma {:induction false} GradeMapMeans(grades: seq<Grade>)
    requires NamedOnce(grades) && forall i | 0 <= i < |grades| :: grades[i].passed.Some?
    ensures forall i | 0 <= i < |grades| ::
              grades[i].name in GradeMap(grades) && GradeMap(grades)[grades[i].name] == grades[i].passed.value
  {
    if grades != [] {
      GradeMapMeans(grades[..|grades| - 1]);
    }
  }

  lemma {:induction false} AllPassedMeans(grades: seq<Grade>)
    requires NamedOnce(grades) && forall i | 0 <= i < |grades| :: grades[i].passed.Some?
    ensures AllPassed(GradeMap(grades)) <==> forall i | 0 <= i < |grades| :: grades[i].passed.value
  {
    hide GradeMap, NamedOnce;
    GradeMapMeans(grades);
    GradeMapKeys(grades);
    forall name | name in GradeMap(grades)
      ensures exists i :: 0 <= i < |grades| && grades[i].name == name
    {
      assert name in Names(grades);
    }
  }

  lemma {:induction false} GradesMean(item: Item)
    ensures WellGraded(item) <==>
              Judged(item) && item.status.Some? && item.status.value in {"pass", "fail", "completed"}
    ensures WellGraded(item) ==> NamedOnce(item.grades)
  {
    hide CRITERIA, Names;
    if |item.grades| == 3 {
      NamesAreTheCriteria(item.grades);
      assert forall i | 0 <= i < 3 :: item.grades[i] in item.grades;
    }
  }

  lemma {:induction false} StatusMeans(item: Item)
    requires WellGraded(item)
    ensures AllPassed(GradeMap(item.grades)) <==> AllGood(item)
    ensures StatusAgrees(item, GradeMap(item.grades)) <==> Concluded(item)
  {
    GradesMean(item);
    AllPassedMeans(item.grades);
    hide GradeMap, AllPassed, NamedOnce, Judged, Names, CRITERIA;
    assert "pass"[0] == 'p' && "fail"[0] == 'f' && "completed"[0] == 'c';
    assert forall i | 0 <= i < |item.grades| :: item.grades[i] in item.grades;
  }

  // ------------------------------------------------------------------------------ counts

  /** How many items passed every criterion. */
  ghost function Good(items: seq<Item>): nat {
    |set k | 0 <= k < |items| && AllGood(items[k])|
  }

  lemma {:induction false} GoodGrows(items: seq<Item>, item: Item)
    ensures Good(items + [item]) == Good(items) + if AllGood(item) then 1 else 0
  {
    hide AllGood;
    var before := set k | 0 <= k < |items| && AllGood(items[k]);
    var after := set k | 0 <= k < |items + [item]| && AllGood((items + [item])[k]);
    if AllGood(item) {
      assert after == before + {|items|};
    } else {
      assert after == before;
    }
  }

  lemma {:induction false} PassesCounted(items: seq<Item>, results: seq<Graded>)
    requires |items| == |results|
    requires forall k | 0 <= k < |items| :: AllPassed(results[k].grades) <==> AllGood(items[k])
    ensures PassCount(results) == Good(items)
  {
    hide AllGood, AllPassed, Good;
    if results == [] {
      assert items == [];
      NoneGood();
    } else {
      var front, last := items[..|items| - 1], items[|items| - 1];
      PassesCounted(front, results[..|results| - 1]);
      GoodGrows(front, last);
      assert items == front + [last];
    }
  }

  lemma {:induction false} NoneGood()
    ensures Good([]) == 0
  {
    var none: seq<Item> := [];
    assert (set k | 0 <= k < |none| && AllGood(none[k])) == {};
  }

  /** Counts that are those of the items: all of them completed, the rest failed. */
  ghost predicate Tallied(counts: Counts, items: seq<Item>) {
    && counts.total == Some(|items|) && counts.errored == Some(0) && counts.skipped == 0
    && counts.passed == Some(Good(items)) && counts.failed == Some(|items| - Good(items))
  }

  // -------------------------------------------------------------------------- acceptance

  /** The items answer the submitted samples, each once. */
  ghost predicate AnswersEach(items: seq<Item>, samples: seq<Sample>) {
    && (forall k | 0 <= k < |items| :: items[k].source.Some?)
    && multiset(Sources(items)) == multiset(samples)
  }

  ghost predicate Goes(counts: Counts, items: seq<Item>, samples: seq<Sample>, results: seq<Graded>) {
    CountsHold(counts, items, samples) && Accepted(samples, items, results) && counts.passed == Some(PassCount(results))
  }

  /** A result for each item, in order: under its sample's key, with its grades. */
  ghost predicate Carried(items: seq<Item>, results: seq<Graded>) {
    && |results| == |items|
    && forall k | 0 <= k < |items| ::
         && items[k].source.Some? && results[k].key == items[k].source.value.key
         && results[k].grades.Keys == CRITERIA
         && forall g :: g in items[k].grades ==>
              g.name in results[k].grades && g.passed == Some(results[k].grades[g.name])
  }

  lemma {:induction false} GradesAreCarried(samples: seq<Sample>, items: seq<Item>, results: seq<Graded>)
    requires Accepted(samples, items, results)
    ensures Carried(items, results)
  {
    hide WellGraded, GradeMap, StatusAgrees, Expected, CRITERIA;
    forall k | 0 <= k < |items|
      ensures results[k].grades.Keys == CRITERIA
      ensures forall g :: g in items[k].grades ==>
                g.name in results[k].grades && g.passed == Some(results[k].grades[g.name])
    {
      GradedAll(items[k]);
      EveryCriterionGraded(samples, items, results, k);
      GradesMean(items[k]);
      GradeMapMeans(items[k].grades);
    }
  }

  lemma {:induction false} ItemsAreJudged(samples: seq<Sample>, items: seq<Item>, results: seq<Graded>)
    requires Accepted(samples, items, results)
    ensures forall k | 0 <= k < |items| :: Judged(items[k]) && Concluded(items[k])
    ensures PassCount(results) == Good(items)
  {
    hide WellGraded, GradeMap, StatusAgrees, Expected, Judged, Concluded, AllPassed, AllGood, Paired;
    forall k | 0 <= k < |items|
      ensures Judged(items[k]) && Concluded(items[k])
      ensures AllPassed(results[k].grades) <==> AllGood(items[k])
    {
      assert WellGraded(items[k]) && StatusAgrees(items[k], results[k].grades);
      GradedAll(items[k]);
      assert results[k].grades == GradeMap(items[k].grades);
      GradesMean(items[k]);
      StatusMeans(items[k]);
    }
    PassesCounted(items, results);
  }

  lemma {:induction false} ExpectedOf(samples: seq<Sample>, sample: Sample)
    requires DistinctKeys(samples) && sample in samples
    ensures sample.key in Expected(samples) && Expected(samples)[sample.key] == sample
  {
    var front := samples[..|samples| - 1];
    if sample != samples[|samples| - 1] {
      assert samples == front + [samples[|samples| - 1]];
      ExpectedOf(front, sample);
      var i :| 0 <= i < |front| && front[i] == sample;
      assert samples[i].key != samples[|samples| - 1].key;
    }
  }

  lemma {:induction false} OnceEach(samples: seq<Sample>, x: Sample)
    requires DistinctKeys(samples)
    ensures multiset(samples)[x] <= 1
  {
    if samples != [] {
      var front, last := samples[..|samples| - 1], samples[|samples| - 1];
      OnceEach(front, x);
      assert samples == front + [last];
      assert multiset(samples) == multiset(front) + multiset{last};
      if x == last {
        assert forall i | 0 <= i < |front| :: front[i].key != samples[|samples| - 1].key;
        assert x !in front;
      }
    }
  }

  lemma {:induction false} KeysStayApart(sources: seq<Sample>, samples: seq<Sample>)
    requires DistinctKeys(samples) && multiset(sources) == multiset(samples)
    ensures DistinctKeys(sources) && |sources| == |samples|
    ensures forall i | 0 <= i < |sources| :: sources[i] in samples
  {
    assert |multiset(sources)| == |sources| && |multiset(samples)| == |samples|;
    forall i | 0 <= i < |sources|
      ensures sources[i] in samples
    {
      assert sources[i] in multiset(samples);
    }
    forall i, j | 0 <= i < j < |sources|
      ensures sources[i].key != sources[j].key
    {
      if sources[i] == sources[j] {
        assert sources == sources[..j] + sources[j..];
        assert sources[..j][i] in sources[..j] && sources[j..][0] in sources[j..];
        assert multiset(sources) == multiset(sources[..j]) + multiset(sources[j..]);
        OnceEach(samples, sources[i]);
      }
    }
  }

  ghost predicate Decided(item: Item) {
    item.source.Some? && forall i | 0 <= i < |item.grades| :: item.grades[i].passed.Some?
  }

  ghost function ResultOf(item: Item): Graded
    requires Decided(item)
  {
    Graded(item.source.value.key, GradeMap(item.grades))
  }

  ghost function Results(items: seq<Item>): (results: seq<Graded>)
    requires forall k | 0 <= k < |items| :: Decided(items[k])
    ensures |results| == |items|
    ensures forall k | 0 <= k < |items| :: results[k] == ResultOf(items[k])
  {
    if items == [] then [] else Results(items[..|items| - 1]) + [ResultOf(items[|items| - 1])]
  }

  lemma {:induction false} AnswersAreAccepted(items: seq<Item>, samples: seq<Sample>) returns (results: seq<Graded>)
    requires DistinctKeys(samples) && AnswersEach(items, samples)
    requires forall k | 0 <= k < |items| :: Judged(items[k]) && Concluded(items[k])
    ensures |items| == |samples| && Accepted(samples, items, results)
  {
    hide WellGraded, GradeMap, StatusAgrees, Expected, Judged, AllPassed, AllGood;
    forall k | 0 <= k < |items|
      ensures WellGraded(items[k]) && Decided(items[k])
    {
      GradesMean(items[k]);
      GradedAll(items[k]);
    }
    KeysStayApart(Sources(items), samples);
    results := Results(items);
    forall k | 0 <= k < |items|
      ensures Paired(Expected(samples), items[k]) && StatusAgrees(items[k], results[k].grades)
    {
      assert Sources(items)[k] in samples;
      ExpectedOf(samples, items[k].source.value);
      StatusMeans(items[k]);
    }
    forall i, j | 0 <= i < j < |results|
      ensures results[i].key != results[j].key
    {
      assert Sources(items)[i].key != Sources(items)[j].key;
    }
  }

  /** Main result on acceptance: a run is accepted exactly when its items answer the submitted
      samples, each once, every one of them is judged by the three criteria without a contradicting
      status, and the counts it reports are those of the items. */
  lemma {:induction false} RunIsAcceptedExactly(counts: Counts, items: seq<Item>, samples: seq<Sample>)
    requires DistinctKeys(samples)
    ensures (exists results :: Goes(counts, items, samples, results)) <==>
              && AnswersEach(items, samples) && Tallied(counts, items)
              && (forall k | 0 <= k < |items| :: Judged(items[k]) && Concluded(items[k]))
    ensures forall results :: Goes(counts, items, samples, results) ==> Carried(items, results)
  {
    hide Accepted, Judged, Concluded, Carried, Good, PassCount;
    forall results | Goes(counts, items, samples, results)
      ensures Carried(items, results) && AnswersEach(items, samples) && Tallied(counts, items)
      ensures forall k | 0 <= k < |items| :: Judged(items[k]) && Concluded(items[k])
    {
      GradesAreCarried(samples, items, results);
      ItemsAreJudged(samples, items, results);
      ItemsAreTheSamples(counts, items, samples, results);
    }
    if && AnswersEach(items, samples) && Tallied(counts, items)
       && (forall k | 0 <= k < |items| :: Judged(items[k]) && Concluded(items[k]))
    {
      var results := AnswersAreAccepted(items, samples);
      ItemsAreJudged(samples, items, results);
      assert Good(items) <= |items| by { GoodIsSome(items); }
      assert Goes(counts, items, samples, results);
    }
  }

  lemma {:induction false} GoodIsSome(items: seq<Item>)
    ensures Good(items) <= |items|
  {
    if items == [] {
      NoneGood();
    } else {
      var front, last := items[..|items| - 1], items[|items| - 1];
      GoodIsSome(front);
      GoodGrows(front, last);
      assert items == front + [last];
    }
  }
}
