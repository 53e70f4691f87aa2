/** The holiday calendar behind the traffic schedule: the proleptic Gregorian day count and the
    fixed, n-th weekday and last weekday rules read against it. */
module Traffic {
  import opened Wrappers
  import opened Arithmetic

  // ---------------------------------------------------------------------------- the calendar

  predicate Multiple(y: int, k: int)
    requires k > 0
  {
    y % k == 0
  }

  function Div(n: int, k: int): int
    requires k > 0
  {
    n / k
  }

  predicate Leap(y: int) {
    Multiple(y, 4) && (!Multiple(y, 100) || Multiple(y, 400))
  }

  /** Days before January 1 of a year, counting January 1 of year 1 as day 1. */
  function DaysBeforeYear(y: int): int {
    365 * (y - 1) + Div(y - 1, 4) - Div(y - 1, 100) + Div(y - 1, 400)
  }

  function DaysInMonth(y: int, m: int): int
    requires 1 <= m <= 12
  {
    if m == 2 then (if Leap(y) then 29 else 28)
    else if m == 4 || m == 6 || m == 9 || m == 11 then 30
    else 31
  }

  function DaysBeforeMonth(y: int, m: int): (d: int)
    requires 1 <= m <= 12
    ensures 28 * (m - 1) <= d <= 31 * (m - 1)
  {
    if m == 1 then 0 else DaysBeforeMonth(y, m - 1) + DaysInMonth(y, m - 1)
  }

  predicate ValidDate(y: int, m: int, d: int) {
    1 <= m <= 12 && 1 <= d <= DaysInMonth(y, m)
  }

  /** `date(y, m, d).toordinal()`; dates are compared by it. */
  function Ordinal(y: int, m: int, d: int): int
    requires 1 <= m <= 12
  {
    DaysBeforeYear(y) + DaysBeforeMonth(y, m) + d
  }

  /** Monday is 0. */
  function Weekday(day: int): int {
    (day + 6) % 7
  }

  function DaysInYear(y: int): int {
    if Leap(y) then 366 else 365
  }

  lemma {:induction false} YearLength(y: int)
    ensures DaysBeforeYear(y + 1) == DaysBeforeYear(y) + DaysInYear(y)
  {
    Steps(y, 4);
    Steps(y, 100);
    Steps(y, 400);
    Centuries(y);
    hide Div, Multiple;
  }

  lemma {:induction false} Centuries(y: int)
    ensures Multiple(y, 400) ==> Multiple(y, 100)
    ensures Multiple(y, 100) ==> Multiple(y, 4)
  {
  }

  lemma {:induction false} Steps(y: int, k: int)
    requires k > 1
    ensures Div(y, k) == Div(y - 1, k) + if Multiple(y, k) then 1 else 0
  {
    var q, r := (y - 1) / k, (y - 1) % k;
    assert y - 1 == q * k + r;
    if r == k - 1 {
      Quotient(y, k, q + 1, 0);
    } else {
      Quotient(y, k, q, r + 1);
    }
  }

  lemma {:induction false} MonthsFillTheYear(y: int)
    ensures DaysBeforeMonth(y, 12) + 31 == DaysInYear(y)
  {
    assert DaysBeforeMonth(y, 3) == 31 + DaysInMonth(y, 2);
    assert DaysBeforeMonth(y, 5) == DaysBeforeMonth(y, 3) + 61;
    assert DaysBeforeMonth(y, 7) == DaysBeforeMonth(y, 5) + 61;
    assert DaysBeforeMonth(y, 9) == DaysBeforeMonth(y, 7) + 62;
    assert DaysBeforeMonth(y, 11) == DaysBeforeMonth(y, 9) + 61;
  }

  lemma {:induction false} MonthsAscend(y: int, m: int, n: int)
    requires 1 <= m <= n <= 12
    ensures DaysBeforeMonth(y, m) + DaysInMonth(y, m) <= DaysBeforeMonth(y, n) + DaysInMonth(y, n)
    decreases n - m
  {
    if m < n {
      MonthsAscend(y, m, n - 1);
    }
  }

  /** A valid date lies in its year: after the last day of the year before, not after its own. */
  lemma {:induction false} DateInYear(y: int, m: int, d: int)
    requires ValidDate(y, m, d)
    ensures DaysBeforeYear(y) < Ordinal(y, m, d) <= DaysBeforeYear(y + 1)
  {
    hide Leap, DaysBeforeYear;
    YearLength(y);
    MonthsFillTheYear(y);
    MonthsAscend(y, m, 12);
  }

  /** Every day of a year has a date. */
  lemma {:induction false} DateOf(y: int, day: int) returns (m: int, d: int)
    requires DaysBeforeYear(y) < day <= DaysBeforeYear(y + 1)
    ensures ValidDate(y, m, d) && Ordinal(y, m, d) == day
  {
    hide Leap, DaysBeforeYear;
    YearLength(y);
    MonthsFillTheYear(y);
    m, d := MonthOf(y, day - DaysBeforeYear(y), 1);
  }

  lemma {:induction false} MonthOf(y: int, k: int, from: int) returns (m: int, d: int)
    requires 1 <= from <= 12 && DaysBeforeMonth(y, from) < k <= DaysInYear(y)
    ensures ValidDate(y, m, d) && DaysBeforeMonth(y, m) + d == k
    decreases 12 - from
  {
    hide Leap, DaysInYear;
    MonthsFillTheYear(y);
    if k <= DaysBeforeMonth(y, from) + DaysInMonth(y, from) {
      m, d := from, k - DaysBeforeMonth(y, from);
    } else {
      m, d := MonthOf(y, k, from + 1);
    }
  }

  lemma {:induction false} YearsAscend(a: int, b: int)
    requires a <= b
    ensures DaysBeforeYear(b) - DaysBeforeYear(a) >= 365 * (b - a)
    decreases b - a
  {
    hide DaysBeforeYear;
    if a < b {
      YearLength(b - 1);
      YearsAscend(a, b - 1);
    }
  }

  // --------------------------------------------------------------------------------- rules

  /** The identifiers of the federal holidays; a rule may carry any other text. */
  datatype HolidayId =
    | NewYearsDay | MartinLutherKingJrDay | WashingtonBirthday | MemorialDay | Juneteenth | IndependenceDay
    | LaborDay | ColumbusDay | VeteransDay | ThanksgivingDay | ChristmasDay | OtherDay(text: string)

  datatype Rule =
    | Fixed(id: HolidayId, month: int, day: int, observe: bool)
    | Nth(id: HolidayId, month: int, weekday: int, occurrence: int, observe: bool)
    | Last(id: HolidayId, month: int, weekday: int, observe: bool)

  /** What loading a rule lets through: a fixed date must exist in 2024, which is a leap year. */
  predicate Loads(rule: Rule) {
    rule.id != OtherDay("") && 1 <= rule.month <= 12 &&
    match rule
    case Fixed(_, m, d, _) => ValidDate(2024, m, d)
    case Nth(_, _, w, n, _) => 0 <= w <= 6 && 1 <= n <= 5
    case Last(_, _, w, _) => 0 <= w <= 6
  }

  /** The day a rule names in a year; None where the date does not exist and the code raises. */
  function Actual(rule: Rule, year: int): Option<int>
    requires Loads(rule)
  {
    match rule
    case Fixed(_, m, d, _) =>
      if ValidDate(year, m, d) then Some(Ordinal(year, m, d)) else None
    case Nth(_, m, w, n, _) =>
      var first := Ordinal(year, m, 1);
      Some(first + (w - Weekday(first)) % 7 + 7 * (n - 1))
    case Last(_, m, w, _) =>
      var last := Ordinal(year, m, DaysInMonth(year, m));
      Some(last - (Weekday(last) - w) % 7)
  }

  function Observed(rule: Rule, actual: int): set<int> {
    if rule.observe && Weekday(actual) == 5 then {actual, actual - 1}
    else if rule.observe && Weekday(actual) == 6 then {actual, actual + 1}
    else {actual}
  }

  /** `rule.dates(year)`. */
  function Dates(rule: Rule, year: int): Option<set<int>>
    requires Loads(rule)
  {
    var actual := Actual(rule, year);
    if actual.None? then None else Some(Observed(rule, actual.value))
  }

  /** A rule that loads raises in a year exactly when it is fixed on February 29 and the year
      is not a leap year. */
  lemma {:induction false} RaisesExactlyOnLeapDays(rule: Rule, year: int)
    requires Loads(rule)
    ensures Dates(rule, year).None? <==> rule.Fixed? && rule.month == 2 && rule.day == 29 && !Leap(year)
  {
    assert Leap(2024);
  }

  /** How many days of a stretch fall on a weekday. */
  function Occurrences(weekday: int, from: int, upTo: int): nat
    decreases upTo - from
  {
    if upTo < from then 0 else Occurrences(weekday, from, upTo - 1) + if Weekday(upTo) == weekday then 1 else 0
  }

  lemma {:induction false} FirstOccurrence(weekday: int, from: int, k: int)
    requires 0 <= weekday <= 6 && 0 <= k <= (weekday - Weekday(from)) % 7
    ensures Weekday(from + k) == weekday <==> k == (weekday - Weekday(from)) % 7
    ensures Occurrences(weekday, from, from + k) == if k == (weekday - Weekday(from)) % 7 then 1 else 0
  {
    WeekdayAfter(from, k);
    if k > 0 {
      FirstOccurrence(weekday, from, k - 1);
    } else {
      assert Occurrences(weekday, from, from - 1) == 0;
    }
  }

  lemma {:induction false} WeekdayAfter(from: int, k: int)
    ensures Weekday(from + k) == (Weekday(from) + k) % 7
  {
  }

  lemma {:induction false} DayLater(weekday: int, from: int, day: int, k: nat)
    requires from <= day + 1
    ensures Occurrences(weekday, from, day + k + 1)
            == Occurrences(weekday, from, day + k) + Is(weekday, (Weekday(day) + k + 1) % 7)
  {
    WeekdayAfter(day, k + 1);
  }

  function Is(weekday: int, other: int): nat {
    if other == weekday then 1 else 0
  }

  lemma {:induction false} OncePerWeek(weekday: int, today: int)
    requires 0 <= weekday <= 6 && 0 <= today <= 6
    ensures Is(weekday, (today + 1) % 7) + Is(weekday, (today + 2) % 7) + Is(weekday, (today + 3) % 7)
            + Is(weekday, (today + 4) % 7)
          + Is(weekday, (today + 5) % 7) + Is(weekday, (today + 6) % 7) + Is(weekday, (today + 7) % 7) == 1
  {
    var k := (weekday - today - 1) % 7;
    assert (today + k + 1) % 7 == weekday;
  }

  lemma {:induction false} WeekdayRange(day: int)
    ensures 0 <= Weekday(day) <= 6
  {
  }

  lemma {:induction false} WeekLater(weekday: int, from: int, day: int)
    requires 0 <= weekday <= 6 && from <= day + 1
    ensures Occurrences(weekday, from, day + 7) == Occurrences(weekday, from, day) + 1
  {
    hide *;
    DayLater(weekday, from, day, 0);
    DayLater(weekday, from, day, 1);
    DayLater(weekday, from, day, 2);
    DayLater(weekday, from, day, 3);
    DayLater(weekday, from, day, 4);
    DayLater(weekday, from, day, 5);
    DayLater(weekday, from, day, 6);
    WeekdayRange(day);
    OncePerWeek(weekday, Weekday(day));
  }

  lemma {:induction false} WeeksLater(weekday: int, from: int, day: int, weeks: nat)
    requires 0 <= weekday <= 6 && from <= day + 1
    ensures Occurrences(weekday, from, day + 7 * weeks) == Occurrences(weekday, from, day) + weeks
    ensures Weekday(day + 7 * weeks) == Weekday(day)
  {
    if weeks > 0 {
      WeeksLater(weekday, from, day, weeks - 1);
      WeekLater(weekday, from, day + 7 * (weeks - 1));
    }
  }

  /** The n-th weekday rule: the right weekday, the n-th one counted from the first of the month,
      in the n-th seven days. A first to fourth occurrence is always in the month; a fifth may
      not be, and then falls in the days after it. */
  lemma {:induction false} NthWeekdayIsTheNth(rule: Rule, year: int)
    requires Loads(rule) && rule.Nth?
    ensures var day, first := Actual(rule, year).value, Ordinal(year, rule.month, 1);
            && Weekday(day) == rule.weekday
            && Occurrences(rule.weekday, first, day) == rule.occurrence
            && first + 7 * (rule.occurrence - 1) <= day < first + 7 * rule.occurrence
            && (rule.occurrence <= 4 ==> day <= Ordinal(year, rule.month, DaysInMonth(year, rule.month)))
  {
    hide Occurrences, DaysBeforeYear, DaysBeforeMonth;
    var first := Ordinal(year, rule.month, 1);
    var offset := (rule.weekday - Weekday(first)) % 7;
    FirstOccurrence(rule.weekday, first, offset);
    WeeksLater(rule.weekday, first, first + offset, rule.occurrence - 1);
  }

  /** The last weekday rule: the right weekday, within the month, and none later in it. */
  lemma {:induction false} LastWeekdayIsTheLast(rule: Rule, year: int)
    requires Loads(rule) && rule.Last?
    ensures var day, last := Actual(rule, year).value, Ordinal(year, rule.month, DaysInMonth(year, rule.month));
            && Weekday(day) == rule.weekday
            && Ordinal(year, rule.month, 1) <= day <= last
            && Occurrences(rule.weekday, day + 1, last) == 0
  {
    hide Occurrences, DaysBeforeYear, DaysBeforeMonth;
    var last := Ordinal(year, rule.month, DaysInMonth(year, rule.month));
    var day := Actual(rule, year).value;
    WeekdayAfter(day, last - day);
    NoneUntil(rule.weekday, day, last);
  }

  lemma {:induction false} NoneUntil(weekday: int, day: int, upTo: int)
    requires Weekday(day) == weekday && day <= upTo < day + 7
    ensures Occurrences(weekday, day + 1, upTo) == 0
    decreases upTo - day
  {
    if upTo > day {
      NoneUntil(weekday, day, upTo - 1);
      WeekdayAfter(day, upTo - day);
    }
  }

  /** An observed rule always has a Monday-to-Friday date, at most a day from the holiday, and
      the holiday itself is never dropped. */
  lemma {:induction false} ObservedFallsOnAWorkingDay(rule: Rule, year: int)
    requires Loads(rule) && Dates(rule, year).Some?
    ensures var dates, actual := Dates(rule, year).value, Actual(rule, year).value;
            && actual in dates
            && (forall d :: d in dates ==> actual - 1 <= d <= actual + 1)
            && (rule.observe ==> exists d :: d in dates && Weekday(d) <= 4)
            && (Weekday(actual) <= 4 || !rule.observe ==> dates == {actual})
  {
    hide Actual;
    var actual := Actual(rule, year).value;
    WeekdayAfter(actual, 1);
    WeekdayAfter(actual, -1);
    var d := if Weekday(actual) == 5 then actual - 1 else if Weekday(actual) == 6 then actual + 1 else actual;
    assert rule.observe ==> d in Dates(rule, year).value && Weekday(d) <= 4;
  }

  // ------------------------------------------------------------------------- membership

  /** A rule's dates stay close to its year, even a fifth occurrence that spills past December. */
  lemma {:induction false} DatesStayClose(rule: Rule, year: int, d: int)
    requires Loads(rule) && Dates(rule, year).Some? && d in Dates(rule, year).value
    ensures DaysBeforeYear(year) <= d <= DaysBeforeYear(year + 1) + 8
  {
    hide DaysBeforeYear, DaysBeforeMonth, Occurrences;
    ObservedFallsOnAWorkingDay(rule, year);
    var m := rule.month;
    DateInYear(year, m, 1);
    DateInYear(year, m, DaysInMonth(year, m));
    if rule.Nth? {
      NthWeekdayIsTheNth(rule, year);
    } else if rule.Last? {
      LastWeekdayIsTheLast(rule, year);
    } else {
      DateInYear(year, m, rule.day);
    }
  }

  /** And close to the first of its month. */
  lemma {:induction false} DatesNearMonth(rule: Rule, year: int, d: int)
    requires Loads(rule) && Dates(rule, year).Some? && d in Dates(rule, year).value
    ensures Ordinal(year, rule.month, 1) - 1 <= d <= Ordinal(year, rule.month, 1) + 36
  {
    hide DaysBeforeYear, DaysBeforeMonth, Occurrences, Dates;
    ObservedFallsOnAWorkingDay(rule, year);
    if rule.Nth? {
      NthWeekdayIsTheNth(rule, year);
    } else if rule.Last? {
      LastWeekdayIsTheLast(rule, year);
    } else {
      assert Dates(rule, year).Some? ==> Actual(rule, year).Some? by { ActualIfDates(rule, year); }
    }
  }

  lemma {:induction false} ActualIfDates(rule: Rule, year: int)
    requires Loads(rule)
    ensures Dates(rule, year).Some? <==> Actual(rule, year).Some?
  {
  }

  /** Main result on membership: a day of year y is one of a rule's dates in some year at all
      only if it is one in the year before, the year itself, or the year after. */
  lemma {:induction false} ThreeYearsDecide(rule: Rule, y: int, m: int, d: int, year: int)
    requires Loads(rule) && ValidDate(y, m, d)
    requires Dates(rule, year).Some? && Ordinal(y, m, d) in Dates(rule, year).value
    ensures y - 1 <= year <= y + 1
  {
    hide DaysBeforeYear, DaysBeforeMonth, Dates;
    DatesStayClose(rule, year, Ordinal(y, m, d));
    DateInYear(y, m, d);
    if year > y + 1 {
      YearsAscend(y + 1, year);
    }
    if year < y - 1 {
      YearsAscend(year + 1, y);
    }
  }

  ghost predicate Names(rule: Rule, year: int, day: int)
    requires Loads(rule)
  {
    Dates(rule, year).Some? && day in Dates(rule, year).value
  }

  ghost predicate HolidayEver(rules: seq<Rule>, day: int)
    requires forall i | 0 <= i < |rules| :: Loads(rules[i])
  {
    exists i, year :: 0 <= i < |rules| && Names(rules[i], year, day)
  }

  predicate LeapDay(rule: Rule) {
    rule.Fixed? && rule.month == 2 && rule.day == 29
  }

  /** `any(day in rule.dates(year) for year in ...)` for one rule; None where a year raises. */
  function TestedRule(rule: Rule, start: int, limit: int, day: int): Option<bool>
    requires Loads(rule)
    decreases limit - start
  {
    if start >= limit then Some(false)
    else
      var dates := Dates(rule, start);
      if dates.None? then None
      else if day in dates.value then Some(true)
      else TestedRule(rule, start + 1, limit, day)
  }

  /** The whole test: the first rule and year that match or raise decide it. */
  function Tested(rules: seq<Rule>, y: int, day: int): Option<bool>
    requires forall i | 0 <= i < |rules| :: Loads(rules[i])
  {
    if rules == [] then Some(false)
    else
      var first := TestedRule(rules[0], y - 1, y + 2, day);
      if first == Some(false) then Tested(rules[1..], y, day) else first
  }

  method IsHoliday(rules: seq<Rule>, y: int, m: int, d: int) returns (r: Option<bool>)
    requires forall i | 0 <= i < |rules| :: Loads(rules[i])
    requires ValidDate(y, m, d)
    ensures r == Tested(rules, y, Ordinal(y, m, d))
  {
    hide Dates, Ordinal, DaysInMonth;
    var day := Ordinal(y, m, d);
    for i := 0 to |rules|
      invariant Tested(rules, y, day) == Tested(rules[i..], y, day)
    {
      assert rules[i..][1..] == rules[i + 1..];
      var rule := rules[i];
      for year := y - 1 to y + 2
        invariant TestedRule(rule, y - 1, y + 2, day) == TestedRule(rule, year, y + 2, day)
      {
        var dates := Dates(rule, year);
        if dates.None? {
          return None;
        }
        if day in dates.value {
          return Some(true);
        }
      }
    }
    return Some(false);
  }

  lemma {:induction false} TestedRuleMeans(rule: Rule, start: int, limit: int, day: int)
    requires Loads(rule)
    ensures var t := TestedRule(rule, start, limit, day);
            && (t == Some(true) ==> exists year :: Names(rule, year, day))
            && (t == Some(false) ==>
                  forall year | start <= year < limit :: Dates(rule, year).Some? && day !in Dates(rule, year).value)
            && (t == None ==> LeapDay(rule))
    decreases limit - start
  {
    hide Dates;
    if start < limit {
      RaisesExactlyOnLeapDays(rule, start);
      if Dates(rule, start).Some? {
        if day in Dates(rule, start).value {
          assert Names(rule, start, day);
        } else {
          TestedRuleMeans(rule, start + 1, limit, day);
        }
      }
    }
  }

  lemma {:induction false} TestedRuleFinds(rule: Rule, start: int, limit: int, day: int, year: int)
    requires Loads(rule) && !LeapDay(rule) && start <= year < limit && Names(rule, year, day)
    ensures TestedRule(rule, start, limit, day) == Some(true)
    decreases limit - start
  {
    hide Dates;
    RaisesExactlyOnLeapDays(rule, start);
    if start < year && day !in Dates(rule, start).value {
      TestedRuleFinds(rule, start + 1, limit, day, year);
    }
  }

  lemma {:induction false} OneRuleTested(rule: Rule, y: int, m: int, d: int)
    requires Loads(rule) && ValidDate(y, m, d)
    ensures TestedRule(rule, y - 1, y + 2, Ordinal(y, m, d)) == Some(false) ==>
              !LeapDay(rule) && forall year :: !Names(rule, year, Ordinal(y, m, d))
  {
    hide Dates, Ordinal, DaysInMonth, TestedRule;
    var day := Ordinal(y, m, d);
    TestedRuleMeans(rule, y - 1, y + 2, day);
    if TestedRule(rule, y - 1, y + 2, day) == Some(false) {
      forall year
        ensures !Names(rule, year, day)
      {
        if Names(rule, year, day) {
          ThreeYearsDecide(rule, y, m, d, year);
        }
      }
      CommonYearAmongThree(y);
      RaisesExactlyOnLeapDays(rule, y - 1);
      RaisesExactlyOnLeapDays(rule, y);
    }
  }

  lemma {:induction false} HolidaySplits(rules: seq<Rule>, day: int)
    requires rules != [] && forall i | 0 <= i < |rules| :: Loads(rules[i])
    ensures HolidayEver(rules, day) <==> (exists year :: Names(rules[0], year, day)) || HolidayEver(rules[1..], day)
    ensures (exists i :: 0 <= i < |rules| && LeapDay(rules[i])) <==>
              LeapDay(rules[0]) || exists i :: 0 <= i < |rules[1..]| && LeapDay(rules[1..][i])
  {
    hide Names, LeapDay;
    if i, year :| 0 <= i < |rules[1..]| && Names(rules[1..][i], year, day) {
      assert Names(rules[i + 1], year, day);
    }
    if i, year :| 0 <= i < |rules| && Names(rules[i], year, day) && i > 0 {
      assert Names(rules[1..][i - 1], year, day);
    }
    if i :| 0 <= i < |rules[1..]| && LeapDay(rules[1..][i]) {
      assert LeapDay(rules[i + 1]);
    }
    if i :| 0 <= i < |rules| && LeapDay(rules[i]) && i > 0 {
      assert LeapDay(rules[1..][i - 1]);
    }
  }

  /** Main result on the test: looking at three years answers for all of them. The test raises
      only if some rule is fixed on February 29, and then never finds a day to be no holiday. */
  lemma {:induction false} TestedMeans(rules: seq<Rule>, y: int, m: int, d: int)
    requires forall i | 0 <= i < |rules| :: Loads(rules[i])
    requires ValidDate(y, m, d)
    ensures var r := Tested(rules, y, Ordinal(y, m, d));
            && (r == Some(true) ==> HolidayEver(rules, Ordinal(y, m, d)))
            && (r == Some(false) ==> !HolidayEver(rules, Ordinal(y, m, d)))
            && (r == None ==> exists i :: 0 <= i < |rules| && LeapDay(rules[i]))
            && (r == Some(false) ==> forall i | 0 <= i < |rules| :: !LeapDay(rules[i]))
  {
    hide Dates, Ordinal, DaysInMonth, TestedRule, Names, LeapDay;
    var day := Ordinal(y, m, d);
    if rules != [] {
      var rest := rules[1..];
      TestedMeans(rest, y, m, d);
      OneRuleTested(rules[0], y, m, d);
      TestedRuleMeans(rules[0], y - 1, y + 2, day);
      HolidaySplits(rules, day);
    }
  }

  /** A rule fixed on February 29 that comes first makes every test raise. */
  lemma {:induction false} LeapDayFirstRaises(rules: seq<Rule>, y: int, m: int, d: int)
    requires rules != [] && forall i | 0 <= i < |rules| :: Loads(rules[i])
    requires ValidDate(y, m, d) && LeapDay(rules[0])
    ensures Tested(rules, y, Ordinal(y, m, d)) == None
  {
    hide DaysBeforeYear, Leap, Dates, Occurrences;
    var rule, day := rules[0], Ordinal(y, m, d);
    CommonYearAmongThree(y);
    RaisesExactlyOnLeapDays(rule, y - 1);
    RaisesExactlyOnLeapDays(rule, y);
    DateInYear(y, m, d);
    if Leap(y - 1) {
      YearLength(y - 1);
      assert day !in Dates(rule, y - 1).value by {
        if day in Dates(rule, y - 1).value {
          DatesNearMonth(rule, y - 1, day);
        }
      }
      assert TestedRule(rule, y - 1, y + 2, day) == TestedRule(rule, y, y + 2, day);
    }
    assert TestedRule(rule, y - 1, y + 2, day) == None;
  }

  lemma {:induction false} CommonYearAmongThree(y: int)
    ensures !Leap(y - 1) || !Leap(y)
  {
  }

  /** So a rule fixed on February 29 loads, and then no day at all is ever found to be outside
      the holidays: testing it raises unless an earlier rule or year already matched. */
  lemma {:induction false} LeapDayRuleLoadsAndRaises(id: HolidayId, observe: bool, y: int)
    requires id != OtherDay("")
    ensures Loads(Fixed(id, 2, 29, observe))
    ensures exists year :: y - 1 <= year <= y + 1 && Dates(Fixed(id, 2, 29, observe), year).None?
  {
    assert Leap(2024);
    CommonYearAmongThree(y);
    RaisesExactlyOnLeapDays(Fixed(id, 2, 29, observe), y - 1);
    RaisesExactlyOnLeapDays(Fixed(id, 2, 29, observe), y);
  }
}
