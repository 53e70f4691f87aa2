/** The traffic schedule: what a plan must hold to load, when a conversation runs, and what that
    says about the hourly cap. */
module Schedule {
  import opened Wrappers
  import opened Text
  import opened Traffic

  // --------------------------------------------------------------------------------- plans

  datatype Scenario = Scenario(id: string, persona: string, prompt: string)

  datatype Plan = Plan(
    maximum: int, travelMaximum: int, quarters: set<int>, businessStart: int, businessEnd: int,
    weekendSlots: set<string>, holidaySlots: set<string>, rules: seq<Rule>,
    personas: set<string>, scenarios: seq<Scenario>)

  function FederalHolidays(): set<HolidayId> {
    {NewYearsDay, MartinLutherKingJrDay, WashingtonBirthday, MemorialDay, Juneteenth, IndependenceDay,
     LaborDay, ColumbusDay, VeteransDay, ThanksgivingDay, ChristmasDay}
  }

  function Ids(rules: seq<Rule>): set<HolidayId> {
    set i | 0 <= i < |rules| :: rules[i].id
  }

  predicate EachOnce(rules: seq<Rule>) {
    forall i, j | 0 <= i < j < |rules| :: rules[i].id != rules[j].id
  }

  lemma {:induction false} IdsAppend(front: seq<Rule>, rule: Rule)
    ensures Ids(front + [rule]) == Ids(front) + {rule.id}
  {
    var rules := front + [rule];
    forall id
      ensures id in Ids(rules) <==> id in Ids(front) || id == rule.id
    {
      if i :| 0 <= i < |rules| && rules[i].id == id && i < |front| {
        assert front[i].id == id;
      }
      if i :| 0 <= i < |front| && front[i].id == id {
        assert rules[i].id == id;
      }
      assert rules[|front|].id in Ids(rules);
    }
  }

  lemma {:induction false} EachOnceAppend(front: seq<Rule>, rule: Rule)
    ensures EachOnce(front + [rule]) <==> EachOnce(front) && rule.id !in Ids(front)
  {
    var rules := front + [rule];
    if EachOnce(rules) {
      assert forall i | 0 <= i < |front| :: rules[i] == front[i] && rules[i].id != rules[|front|].id;
    }
    if EachOnce(front) && rule.id !in Ids(front) {
      assert forall i | 0 <= i < |front| :: front[i].id in Ids(front);
    }
  }

  /** The code compares two lengths for it. */
  lemma {:induction false} EachOnceIffAsMany(rules: seq<Rule>)
    ensures |Ids(rules)| <= |rules|
    ensures EachOnce(rules) <==> |rules| == |Ids(rules)|
  {
    if rules == [] {
      assert Ids(rules) == {};
    } else {
      hide EachOnce, Ids;
      var front, last := rules[..|rules| - 1], rules[|rules| - 1];
      assert rules == front + [last];
      EachOnceIffAsMany(front);
      IdsAppend(front, last);
      EachOnceAppend(front, last);
      if last.id in Ids(front) {
        assert Ids(front) + {last.id} == Ids(front);
      }
    }
  }

  /** Everything loading a plan checks: the caps, the personas, and each federal holiday once. */
  predicate Loaded(plan: Plan) {
    && plan.maximum == 4
    && plan.travelMaximum == 2 && |plan.quarters| == plan.travelMaximum && plan.quarters <= {0, 15, 30, 45}
    && plan.scenarios != [] && (forall i | 0 <= i < |plan.scenarios| :: plan.scenarios[i].persona in plan.personas)
    && (forall i | 0 <= i < |plan.rules| :: Loads(plan.rules[i]))
    && Ids(plan.rules) == FederalHolidays() && EachOnce(plan.rules)
  }

  lemma {:induction false} ElevenHolidays()
    ensures |FederalHolidays()| == 11
  {
    var spring := {NewYearsDay, MartinLutherKingJrDay, WashingtonBirthday, MemorialDay};
    var summer := {Juneteenth, IndependenceDay, LaborDay};
    var autumn := {ColumbusDay, VeteransDay, ThanksgivingDay, ChristmasDay};
    assert |spring| == 4 && |summer| == 3 && |autumn| == 4;
    assert FederalHolidays() == spring + summer + autumn;
    assert |spring + summer| == |spring| + |summer|;
    assert |spring + summer + autumn| == |spring + summer| + |autumn|;
  }

  lemma {:induction false} ElevenRules(plan: Plan)
    requires Loaded(plan)
    ensures |plan.rules| == 11
  {
    hide FederalHolidays, Loads, EachOnce, Ids;
    ElevenHolidays();
    EachOnceIffAsMany(plan.rules);
  }

  // ------------------------------------------------------------------------------ the slots

  /** A moment in the plan's own time zone. */
  datatype Local = Local(year: int, month: int, day: int, hour: nat, minute: nat)

  predicate Moment(local: Local) {
    ValidDate(local.year, local.month, local.day) && local.hour < 24 && local.minute < 60
  }

  function DayOf(local: Local): int
    requires Moment(local)
  {
    Ordinal(local.year, local.month, local.day)
  }

  /** `strftime("%H:%M")`. */
  function SlotText(hour: nat, minute: nat): string {
    Padded(2, hour) + ":" + Padded(2, minute)
  }

  function Slot(local: Local): string {
    SlotText(local.hour, local.minute)
  }

  predicate Weekend(local: Local)
    requires Moment(local)
  {
    Weekday(DayOf(local)) >= 5
  }

  predicate Allowed(plan: Plan, local: Local, holiday: bool)
    requires Moment(local)
  {
    if holiday then Slot(local) in plan.holidaySlots
    else if Weekend(local) then Slot(local) in plan.weekendSlots
    else plan.businessStart <= local.hour < plan.businessEnd && local.minute in plan.quarters
  }

  /** The holidays of a plan: the days one of its rules names in any year at all. */
  ghost predicate Holiday(plan: Plan, local: Local)
    requires Moment(local) && Loaded(plan)
  {
    HolidayEver(plan.rules, DayOf(local))
  }

  /** Whether a conversation runs of the schedule's own accord; where the calendar raises, none does. */
  predicate Runs(plan: Plan, local: Local)
    requires Moment(local) && Loaded(plan)
  {
    var holiday := Tested(plan.rules, local.year, DayOf(local));
    holiday.Some? && Allowed(plan, local, holiday.value)
  }

  /** Disabled wins over forced; forced wins over the calendar, which is then not even read. */
  method ScenarioFor(plan: Plan, local: Local, enabled: bool, force: bool, pick: Local -> nat)
    returns (r: Result<Option<Scenario>, ()>)
    requires Moment(local) && Loaded(plan)
    ensures !enabled ==> r == Ok(None)
    ensures enabled && force ==> r == Ok(Some(plan.scenarios[pick(local) % |plan.scenarios|]))
    ensures enabled && !force && r.Ok? ==>
              && r.value == (if Runs(plan, local) then Some(plan.scenarios[pick(local) % |plan.scenarios|]) else None)
              && (Runs(plan, local) <==> Allowed(plan, local, Holiday(plan, local)))
    ensures r.Err? ==> enabled && !force && !Runs(plan, local)
                       && exists i :: 0 <= i < |plan.rules| && LeapDay(plan.rules[i])
  {
    hide FederalHolidays, Ordinal, Slot, Weekday, Tested;
    if !enabled {
      return Ok(None);
    }
    var allowed := true;
    if !force {
      var holiday := IsHoliday(plan.rules, local.year, local.month, local.day);
      TestedMeans(plan.rules, local.year, local.month, local.day);
      if holiday.None? {
        return Err(());
      }
      allowed := Allowed(plan, local, holiday.value);
    }
    if !allowed {
      return Ok(None);
    }
    return Ok(Some(plan.scenarios[pick(local) % |plan.scenarios|]));
  }

  // --------------------------------------------------------------------------- the hourly cap

  /** The minutes of an hour in which traffic runs. */
  ghost function Running(plan: Plan, local: Local): set<nat>
    requires Moment(local) && Loaded(plan)
  {
    set minute: nat | minute < 60 && Runs(plan, local.(minute := minute))
  }

  /** The minutes of an hour that a slot list names. */
  ghost function Listed(slots: set<string>, local: Local): set<nat> {
    set minute: nat | minute < 60 && Slot(local.(minute := minute)) in slots
  }

  /** What runs in an hour is decided by the day: nothing where its test raises. */
  lemma {:induction false} RunningMinutes(plan: Plan, local: Local)
    requires Moment(local) && Loaded(plan)
    ensures local.hour < 24
    ensures var holiday := Tested(plan.rules, local.year, DayOf(local));
            && (holiday == None ==> Running(plan, local) == {})
            && (holiday == Some(true) ==> Running(plan, local) == Listed(plan.holidaySlots, local))
            && (holiday == Some(false) && Weekend(local) ==> Running(plan, local) == Listed(plan.weekendSlots, local))
            && (holiday == Some(false) && !Weekend(local) ==>
                  forall minute :: minute in Running(plan, local) ==>
                    minute in plan.quarters && plan.businessStart <= local.hour < plan.businessEnd)
  {
    hide FederalHolidays, Slot, Ordinal, Weekday, Tested;
  }

  lemma {:induction false} Three(tested: Option<bool>)
    ensures tested == None || tested == Some(true) || tested == Some(false)
  {
    match tested
    case None =>
    case Some(b) =>
      if b {
      }
  }

  /** On an ordinary weekday the plan keeps to its two conversations an hour, and none outside
      business hours. */
  lemma {:induction false} WorkingDayCap(plan: Plan, local: Local)
    requires Loaded(plan) && Moment(local) && !Weekend(local) && !Holiday(plan, local)
    ensures |Running(plan, local)| <= 2
    ensures Running(plan, local) != {} ==> plan.businessStart <= local.hour < plan.businessEnd
  {
    hide FederalHolidays, Running, Weekend, Tested, HolidayEver;
    RunningMinutes(plan, local);
    TestedMeans(plan.rules, local.year, local.month, local.day);
    Three(Tested(plan.rules, local.year, DayOf(local)));
    NoMore(Running(plan, local), plan.quarters, (m: nat) => m as int);
  }

  lemma {:induction false} NoMore<S, T>(some: set<S>, all: set<T>, f: S -> T)
    requires forall x :: x in some ==> f(x) in all
    requires forall x, y :: x in some && y in some && f(x) == f(y) ==> x == y
    ensures |some| <= |all|
  {
    if some != {} {
      var x :| x in some;
      NoMore(some - {x}, all - {f(x)}, f);
    }
  }

  /** And it does run: in each business hour of such a day, at exactly the plan's two quarters. A
      calendar with a rule fixed on February 29 is the one thing that may stop it. */
  lemma {:induction false} WorkingDayRuns(plan: Plan, local: Local, minute: nat)
    requires Loaded(plan) && Moment(local) && !Weekend(local) && !Holiday(plan, local)
    requires forall i | 0 <= i < |plan.rules| :: !LeapDay(plan.rules[i])
    ensures minute in Running(plan, local) <==>
              minute in plan.quarters && plan.businessStart <= local.hour < plan.businessEnd
    ensures plan.businessStart <= local.hour < plan.businessEnd ==> |Running(plan, local)| == 2
  {
    hide FederalHolidays, Weekend, Runs, Holiday, EachOnce, Ids, LeapDay, Loads;
    forall m: nat | m < 60
      ensures m in Running(plan, local) <==>
                m in plan.quarters && plan.businessStart <= local.hour < plan.businessEnd
    {
      QuarterRuns(plan, local, m);
    }
    if plan.businessStart <= local.hour < plan.businessEnd {
      AsMany(Running(plan, local), plan.quarters);
    }
  }

  lemma {:induction false} AsMany(some: set<nat>, all: set<int>)
    requires forall m: int :: m in all <==> m >= 0 && m in some
    ensures |some| == |all|
  {
    NoMore(some, all, (m: nat) => m as int);
    NoMore(all, some, (m: int) => if m >= 0 then m as nat else 0);
  }

  lemma {:induction false} QuarterRuns(plan: Plan, local: Local, minute: nat)
    requires Loaded(plan) && Moment(local) && !Weekend(local) && !Holiday(plan, local) && minute < 60
    requires forall i | 0 <= i < |plan.rules| :: !LeapDay(plan.rules[i])
    ensures Runs(plan, local.(minute := minute)) <==>
              minute in plan.quarters && plan.businessStart <= local.hour < plan.businessEnd
  {
    hide FederalHolidays, Weekend, Tested, HolidayEver, Ordinal, ValidDate, EachOnce, Ids, LeapDay, Loads;
    TestedMeans(plan.rules, local.year, local.month, local.day);
    Three(Tested(plan.rules, local.year, DayOf(local)));
    SameDay(local, minute);
  }

  lemma {:induction false} SameDay(local: Local, minute: nat)
    requires Moment(local) && minute < 60
    ensures Moment(local.(minute := minute)) && DayOf(local.(minute := minute)) == DayOf(local)
    ensures Weekend(local.(minute := minute)) == Weekend(local)
  {
    hide Ordinal, Weekday;
  }

  /** The slots of a list that fall in an hour. */
  predicate InHour(slot: string, hour: nat) {
    exists minute: nat :: minute < 60 && slot == SlotText(hour, minute)
  }

  function HourSlots(slots: set<string>, hour: nat): set<string> {
    set slot | slot in slots && InHour(slot, hour)
  }

  /** What loading a plan could ask of a slot list: no hour with more than two of its slots. */
  predicate TwoAnHour(slots: set<string>) {
    forall hour: nat :: hour < 24 ==> |HourSlots(slots, hour)| <= 2
  }

  lemma {:induction false} SlotTextInjective(hour: nat, a: nat, b: nat)
    requires SlotText(hour, a) == SlotText(hour, b)
    ensures a == b
  {
    hide Padded, ValueOf;
    var h := Padded(2, hour) + ":";
    assert SlotText(hour, a)[|h|..] == Padded(2, a) && SlotText(hour, b)[|h|..] == Padded(2, b);
    PaddedRoundTrip(2, a);
    PaddedRoundTrip(2, b);
  }

  ghost function SlotsAt(hour: nat, minutes: set<nat>): set<string> {
    set minute | minute in minutes :: SlotText(hour, minute)
  }

  lemma {:induction false} SameSize(hour: nat, minutes: set<nat>)
    ensures |SlotsAt(hour, minutes)| == |minutes|
  {
    hide SlotText;
    if minute :| minute in minutes {
      var rest := minutes - {minute};
      SameSize(hour, rest);
      forall other | other in rest
        ensures SlotText(hour, other) != SlotText(hour, minute)
      {
        if SlotText(hour, other) == SlotText(hour, minute) {
          SlotTextInjective(hour, other, minute);
        }
      }
      assert SlotsAt(hour, minutes) == SlotsAt(hour, rest) + {SlotText(hour, minute)};
    } else {
      assert SlotsAt(hour, minutes) == {};
    }
  }

  /** An hour has as many listed minutes as the list has slots in it. */
  lemma {:induction false} ListedIsHourSlots(slots: set<string>, local: Local)
    ensures |Listed(slots, local)| == |HourSlots(slots, local.hour)|
  {
    hide SlotText;
    var minutes := Listed(slots, local);
    SameSize(local.hour, minutes);
    forall slot
      ensures slot in HourSlots(slots, local.hour) <==> slot in SlotsAt(local.hour, minutes)
    {
      if slot in HourSlots(slots, local.hour) {
        var minute: nat :| minute < 60 && slot == SlotText(local.hour, minute);
        assert Slot(local.(minute := minute)) == slot;
        assert minute in minutes;
      }
      if slot in SlotsAt(local.hour, minutes) {
        var minute :| minute in minutes && slot == SlotText(local.hour, minute);
        assert Slot(local.(minute := minute)) == slot;
      }
    }
    assert HourSlots(slots, local.hour) == SlotsAt(local.hour, minutes);
  }

  // ------------------------------------------------- a weekend without a holiday, and a holiday

  /** The days the rules name in a year. */
  ghost function NamedIn(rules: seq<Rule>, year: int): set<int>
    requires forall i | 0 <= i < |rules| :: Loads(rules[i])
  {
    if rules == [] then {}
    else
      var last := Dates(rules[|rules| - 1], year);
      NamedIn(rules[..|rules| - 1], year) + if last.Some? then last.value else {}
  }

  lemma {:induction false} NamedInSize(rules: seq<Rule>, year: int)
    requires forall i | 0 <= i < |rules| :: Loads(rules[i])
    ensures |NamedIn(rules, year)| <= 2 * |rules|
  {
    hide Actual, Loads;
    if rules != [] {
      NamedInSize(rules[..|rules| - 1], year);
    }
  }

  lemma {:induction false} NamedInMembers(rules: seq<Rule>, year: int, i: nat, day: int)
    requires forall j | 0 <= j < |rules| :: Loads(rules[j])
    requires i < |rules| && Names(rules[i], year, day)
    ensures day in NamedIn(rules, year)
  {
    hide Dates, Loads;
    if i < |rules| - 1 {
      NamedInMembers(rules[..|rules| - 1], year, i, day);
    }
  }

  /** 2000-01-01, a Saturday. */
  const FIRST_SATURDAY := 730120

  ghost function Saturdays(n: nat): set<int> {
    if n == 0 then {} else Saturdays(n - 1) + {FIRST_SATURDAY + 7 * (n - 1)}
  }

  lemma {:induction false} SaturdaysAre(n: nat)
    ensures |Saturdays(n)| == n
    ensures forall d :: d in Saturdays(n) ==> FIRST_SATURDAY <= d < FIRST_SATURDAY + 7 * n && Weekday(d) == 5
  {
    if n > 0 {
      SaturdaysAre(n - 1);
    }
  }

  lemma {:induction false} Missing<T>(all: set<T>, some: set<T>) returns (x: T)
    requires |some| < |all|
    ensures x in all && x !in some
  {
    assert all == (all - some) + (all * some);
    assert some == (some - all) + (all * some);
    var missing := all - some;
    assert |missing| > 0;
    x :| x in missing;
  }

  lemma {:induction false} TurnOfTheCentury()
    ensures DaysBeforeYear(1999) == 729754
    ensures DaysBeforeYear(2000) == 730119 && DaysBeforeYear(2001) == 730485 && DaysBeforeYear(2002) == 730850
  {
  }

  /** Of the 104 Saturdays of two years, eleven rules name at most 88 days in the four years that matter. */
  lemma {:induction false} FreeSaturday(rules: seq<Rule>) returns (y: int, m: int, d: int)
    requires |rules| == 11 && forall i | 0 <= i < |rules| :: Loads(rules[i])
    ensures ValidDate(y, m, d) && Weekday(Ordinal(y, m, d)) == 5 && !HolidayEver(rules, Ordinal(y, m, d))
  {
    hide NamedIn, Saturdays, Dates, DaysBeforeYear, Weekday, Loads;
    var named := NamedIn(rules, 1999) + NamedIn(rules, 2000) + NamedIn(rules, 2001) + NamedIn(rules, 2002);
    NamedInSize(rules, 1999);
    NamedInSize(rules, 2000);
    NamedInSize(rules, 2001);
    NamedInSize(rules, 2002);
    SaturdaysAre(104);
    assert |named| <= 88;
    var day := Missing(Saturdays(104), named);
    TurnOfTheCentury();
    y := if day <= DaysBeforeYear(2001) then 2000 else 2001;
    m, d := DateOf(y, day);
    if HolidayEver(rules, day) {
      var i, year :| 0 <= i < |rules| && Names(rules[i], year, day);
      ThreeYearsDecide(rules[i], y, m, d, year);
      NamedInMembers(rules, year, i, day);
    }
  }

  /** The first rule's day in 2024, which its test finds. */
  lemma {:induction false} AHoliday(rules: seq<Rule>) returns (y: int, m: int, d: int)
    requires rules != [] && forall i | 0 <= i < |rules| :: Loads(rules[i])
    requires !LeapDay(rules[0])
    ensures ValidDate(y, m, d) && Tested(rules, y, Ordinal(y, m, d)) == Some(true)
  {
    hide Loads, Dates, DaysBeforeYear, Weekday, Occurrences, DaysBeforeMonth;
    var rule := rules[0];
    RaisesExactlyOnLeapDays(rule, 2024);
    ActualIfDates(rule, 2024);
    ObservedFallsOnAWorkingDay(rule, 2024);
    var day := Actual(rule, 2024).value;
    ActualInOrAfterYear(rule, 2024);
    YearsAscend(2025, 2026);
    y := if day <= DaysBeforeYear(2025) then 2024 else 2025;
    m, d := DateOf(y, day);
    TestedRuleFinds(rule, y - 1, y + 2, day, 2024);
  }

  lemma {:induction false} ActualInOrAfterYear(rule: Rule, year: int)
    requires Loads(rule) && Dates(rule, year).Some?
    ensures Actual(rule, year).Some? && DaysBeforeYear(year) < Actual(rule, year).value <= DaysBeforeYear(year + 1) + 8
  {
    hide DaysBeforeYear, DaysBeforeMonth, Occurrences, Dates, Weekday;
    ActualIfDates(rule, year);
    ObservedFallsOnAWorkingDay(rule, year);
    DatesStayClose(rule, year, Actual(rule, year).value);
    DateInYear(year, rule.month, 1);
    if rule.Nth? {
      NthWeekdayIsTheNth(rule, year);
    } else if rule.Last? {
      LastWeekdayIsTheLast(rule, year);
    } else {
      DateInYear(year, rule.month, rule.day);
    }
  }

  /** The quiet days are kept within the cap by their slots, or because their test always raises. */
  lemma {:induction false} QuietRunning(plan: Plan, local: Local)
    requires Loaded(plan) && Moment(local)
    ensures local.hour < 24
    ensures Holiday(plan, local) ==>
              Running(plan, local) == {} || |Running(plan, local)| == |HourSlots(plan.holidaySlots, local.hour)|
    ensures Holiday(plan, local) && LeapDay(plan.rules[0]) ==> Running(plan, local) == {}
    ensures Weekend(local) && !Holiday(plan, local) ==>
              Running(plan, local) == {} || |Running(plan, local)| == |HourSlots(plan.weekendSlots, local.hour)|
    ensures Weekend(local) && !Holiday(plan, local) ==>
              (exists i :: 0 <= i < |plan.rules| && LeapDay(plan.rules[i])) ==> Running(plan, local) == {}
    ensures Weekend(local) && !Holiday(plan, local) ==>
              (forall i | 0 <= i < |plan.rules| :: !LeapDay(plan.rules[i])) ==>
                |Running(plan, local)| == |HourSlots(plan.weekendSlots, local.hour)|
    ensures Tested(plan.rules, local.year, DayOf(local)) == Some(true) ==>
              |Running(plan, local)| == |HourSlots(plan.holidaySlots, local.hour)|
  {
    hide FederalHolidays, Running, Listed, HourSlots, Weekend, Tested, HolidayEver, LeapDay, Loads, Ordinal, ValidDate;
    ElevenRules(plan);
    RunningMinutes(plan, local);
    TestedMeans(plan.rules, local.year, local.month, local.day);
    ListedIsHourSlots(plan.holidaySlots, local);
    ListedIsHourSlots(plan.weekendSlots, local);
    if LeapDay(plan.rules[0]) {
      LeapDayFirstRaises(plan.rules, local.year, local.month, local.day);
    }
    var tested := Tested(plan.rules, local.year, DayOf(local));
    if tested == Some(true) {
      assert Holiday(plan, local);
    } else if tested == Some(false) {
      assert !Holiday(plan, local);
    } else {
      assert tested == None by { Three(tested); }
    }
  }

  /** Main result on the cap, for every plan that loads. On weekends that are no holidays it is
      kept, at every hour of every such day, exactly when the weekend slots have at most two in
      each hour, or a rule fixed on February 29 makes the calendar raise. On the holidays it is
      kept exactly when the holiday slots do, or such a rule comes first. Loading checks neither. */
  lemma {:induction false} QuietCapIff(plan: Plan)
    requires Loaded(plan)
    ensures plan.rules != []
    ensures (forall local: Local | Moment(local) && Weekend(local) && !Holiday(plan, local) ::
               |Running(plan, local)| <= 2)
            <==> TwoAnHour(plan.weekendSlots) || exists i :: 0 <= i < |plan.rules| && LeapDay(plan.rules[i])
    ensures (forall local: Local | Moment(local) && Holiday(plan, local) :: |Running(plan, local)| <= 2)
            <==> TwoAnHour(plan.holidaySlots) || LeapDay(plan.rules[0])
  {
    hide FederalHolidays, Running, HourSlots, Weekend, Tested, HolidayEver, LeapDay, Loads, ValidDate, Ordinal;
    ElevenRules(plan);
    forall local: Local | Moment(local)
      ensures local.hour < 24
      ensures Holiday(plan, local) ==>
                Running(plan, local) == {} || |Running(plan, local)| == |HourSlots(plan.holidaySlots, local.hour)|
      ensures Holiday(plan, local) && LeapDay(plan.rules[0]) ==> Running(plan, local) == {}
      ensures Weekend(local) && !Holiday(plan, local) ==>
                Running(plan, local) == {} || |Running(plan, local)| == |HourSlots(plan.weekendSlots, local.hour)|
      ensures Weekend(local) && !Holiday(plan, local) ==>
                (exists i :: 0 <= i < |plan.rules| && LeapDay(plan.rules[i])) ==> Running(plan, local) == {}
    {
      QuietRunning(plan, local);
    }
    if !TwoAnHour(plan.weekendSlots) && forall i | 0 <= i < |plan.rules| :: !LeapDay(plan.rules[i]) {
      var local := OverfullWeekend(plan);
    }
    if !TwoAnHour(plan.holidaySlots) && !LeapDay(plan.rules[0]) {
      var local := OverfullHoliday(plan);
    }
  }

  lemma {:induction false} OverfullWeekend(plan: Plan) returns (local: Local)
    requires Loaded(plan) && !TwoAnHour(plan.weekendSlots)
    requires forall i | 0 <= i < |plan.rules| :: !LeapDay(plan.rules[i])
    ensures Moment(local) && Weekend(local) && !Holiday(plan, local) && |Running(plan, local)| > 2
  {
    hide FederalHolidays, Running, HourSlots, Tested, HolidayEver, LeapDay, Loads, ValidDate, Ordinal, Weekday;
    var hour: nat :| hour < 24 && |HourSlots(plan.weekendSlots, hour)| > 2;
    ElevenRules(plan);
    var y, m, d := FreeSaturday(plan.rules);
    local := Local(y, m, d, hour, 0);
    QuietRunning(plan, local);
  }

  lemma {:induction false} OverfullHoliday(plan: Plan) returns (local: Local)
    requires Loaded(plan) && !TwoAnHour(plan.holidaySlots) && plan.rules != [] && !LeapDay(plan.rules[0])
    ensures Moment(local) && Holiday(plan, local) && |Running(plan, local)| > 2
  {
    hide FederalHolidays, Running, HourSlots, Tested, HolidayEver, LeapDay, Loads, ValidDate, Ordinal, Weekday;
    var hour: nat :| hour < 24 && |HourSlots(plan.holidaySlots, hour)| > 2;
    var y, m, d := AHoliday(plan.rules);
    local := Local(y, m, d, hour, 0);
    TestedMeans(plan.rules, y, m, d);
    QuietRunning(plan, local);
  }

  // --------------------------------------------------------------------- a plan beyond the cap

  /** The calendar and slots of the shipped plan, with two more weekend slots in one hour. */
  function BusyWeekend(): Plan {
    Plan(4, 2, {0, 30}, 8, 18,
         {SlotText(10, 0), SlotText(10, 15), SlotText(10, 30), SlotText(14, 0)}, {SlotText(10, 0), SlotText(14, 0)},
         FederalCalendar(), {"consultant"}, [Scenario("route", "consultant", "Find a route.")])
  }

  function FederalCalendar(): seq<Rule> {
    [Fixed(NewYearsDay, 1, 1, true), Nth(MartinLutherKingJrDay, 1, 0, 3, false),
     Nth(WashingtonBirthday, 2, 0, 3, false), Last(MemorialDay, 5, 0, false), Fixed(Juneteenth, 6, 19, true),
     Fixed(IndependenceDay, 7, 4, true), Nth(LaborDay, 9, 0, 1, false), Nth(ColumbusDay, 10, 0, 2, false),
     Fixed(VeteransDay, 11, 11, true), Nth(ThanksgivingDay, 11, 3, 4, false), Fixed(ChristmasDay, 12, 25, true)]
  }

  lemma {:induction false} CalendarLoads()
    ensures forall i | 0 <= i < |FederalCalendar()| ::
              Loads(FederalCalendar()[i]) && FederalCalendar()[i].month !in {3, 4}
    ensures forall i | 0 <= i < |FederalCalendar()| :: !LeapDay(FederalCalendar()[i])
  {
  }

  lemma {:induction false} CalendarHas(id: HolidayId)
    requires id in FederalHolidays()
    ensures exists i :: 0 <= i < |FederalCalendar()| && FederalCalendar()[i].id == id
  {
    var i := match id
      case NewYearsDay => 0 case MartinLutherKingJrDay => 1 case WashingtonBirthday => 2 case MemorialDay => 3
      case Juneteenth => 4 case IndependenceDay => 5 case LaborDay => 6 case ColumbusDay => 7
      case VeteransDay => 8 case ThanksgivingDay => 9 case _ => 10;
    assert FederalCalendar()[i].id == id;
  }

  lemma {:induction false} CalendarOnlyHas(i: nat)
    requires i < 11
    ensures |FederalCalendar()| == 11 && FederalCalendar()[i].id in FederalHolidays()
  {
  }

  lemma {:induction false} CalendarIds()
    ensures |FederalCalendar()| == 11 && Ids(FederalCalendar()) == FederalHolidays() && |FederalHolidays()| == 11
  {
    hide FederalCalendar, FederalHolidays;
    ElevenHolidays();
    CalendarOnlyHas(0);
    forall i: nat | i < 11
      ensures FederalCalendar()[i].id in FederalHolidays()
    {
      CalendarOnlyHas(i);
    }
    forall id | id in FederalHolidays()
      ensures id in Ids(FederalCalendar())
    {
      CalendarHas(id);
    }
  }

  /** With no holiday in March or April, Saturday, April 8, 2000 is none. */
  lemma {:induction false} NoHolidayInApril(rules: seq<Rule>)
    requires forall i | 0 <= i < |rules| :: Loads(rules[i]) && rules[i].month !in {3, 4}
    ensures ValidDate(2000, 4, 8) && Weekday(Ordinal(2000, 4, 8)) == 5 && !HolidayEver(rules, Ordinal(2000, 4, 8))
  {
    hide Loads, Dates;
    TurnOfTheCentury();
    SpringOf2000();
    hide DaysBeforeYear, DaysInMonth, DaysBeforeMonth;
    var day := Ordinal(2000, 4, 8);
    if HolidayEver(rules, day) {
      var i, year :| 0 <= i < |rules| && Names(rules[i], year, day);
      NotInApril(rules[i], year);
    }
  }

  lemma {:induction false} SpringOf2000()
    ensures DaysInMonth(2000, 4) == 30 && DaysBeforeMonth(2000, 4) == 91
    ensures DaysBeforeMonth(2000, 1) == 0 && DaysBeforeMonth(2000, 2) == 31 && DaysBeforeMonth(2000, 5) == 121
    ensures DaysBeforeMonth(1999, 12) == 334
  {
    assert DaysBeforeMonth(1999, 3) == 59 && DaysBeforeMonth(1999, 6) == 151 && DaysBeforeMonth(1999, 9) == 243;
    assert DaysBeforeMonth(2000, 3) == 60;
  }

  lemma {:induction false} MonthStartsAscend(y: int, m: int, n: int)
    requires 1 <= m <= n <= 12
    ensures DaysBeforeMonth(y, m) <= DaysBeforeMonth(y, n)
    decreases n - m
  {
    hide DaysInMonth;
    if m < n {
      MonthStartsAscend(y, m, n - 1);
      assert DaysInMonth(y, n - 1) >= 0 by { MonthIsNotEmpty(y, n - 1); }
    }
  }

  lemma {:induction false} MonthIsNotEmpty(y: int, m: int)
    requires 1 <= m <= 12
    ensures DaysInMonth(y, m) >= 28
  {
  }

  lemma {:induction false} NotInApril(rule: Rule, year: int)
    requires Loads(rule) && rule.month !in {3, 4}
    ensures !Names(rule, year, Ordinal(2000, 4, 8))
  {
    hide Dates, DaysBeforeYear, DaysInMonth, DaysBeforeMonth;
    var day := Ordinal(2000, 4, 8);
    TurnOfTheCentury();
    SpringOf2000();
    if Names(rule, year, day) {
      ThreeYearsDecide(rule, 2000, 4, 8, year);
      DatesNearMonth(rule, year, day);
      MonthStartsAscend(year, 1, rule.month);
      MonthStartsAscend(year, rule.month, 12);
      if rule.month <= 2 {
        MonthStartsAscend(2000, rule.month, 2);
      } else {
        MonthStartsAscend(2000, 5, rule.month);
      }
      FirstOfJanuary(year);
    }
  }

  lemma {:induction false} FirstOfJanuary(y: int)
    ensures DaysBeforeMonth(y, 1) == 0
  {
  }

  lemma {:induction false} BusyWeekendLoads()
    ensures Loaded(BusyWeekend())
  {
    hide FederalHolidays, FederalCalendar, Loads, LeapDay, Padded, Ids, EachOnce;
    CalendarLoads();
    CalendarIds();
    EachOnceIffAsMany(FederalCalendar());
    assert |{0, 30}| == 2;
  }

  lemma {:induction false} WeekendRuns(plan: Plan, local: Local)
    requires Loaded(plan) && Moment(local) && Weekend(local) && !Holiday(plan, local)
    requires forall i | 0 <= i < |plan.rules| :: !LeapDay(plan.rules[i])
    ensures Running(plan, local) == Listed(plan.weekendSlots, local)
  {
    hide FederalHolidays, Running, Listed, Weekend, Tested, HolidayEver, LeapDay, Loads, Ordinal, ValidDate;
    RunningMinutes(plan, local);
    TestedMeans(plan.rules, local.year, local.month, local.day);
    Three(Tested(plan.rules, local.year, DayOf(local)));
  }

  /** On a holiday the holiday slots decide instead. */
  lemma {:induction false} HolidayRuns(plan: Plan, local: Local)
    requires Loaded(plan) && Moment(local) && Holiday(plan, local)
    requires forall i | 0 <= i < |plan.rules| :: !LeapDay(plan.rules[i])
    ensures Running(plan, local) == Listed(plan.holidaySlots, local)
  {
    hide FederalHolidays, Running, Listed, Weekend, Tested, HolidayEver, LeapDay, Loads, Ordinal, ValidDate;
    RunningMinutes(plan, local);
    TestedMeans(plan.rules, local.year, local.month, local.day);
    Three(Tested(plan.rules, local.year, DayOf(local)));
  }

  /** A plan that loads, and runs three conversations in one hour of a Saturday that is no holiday. */
  lemma {:induction false} WeekendCapIsNotChecked()
    ensures var plan, local := BusyWeekend(), Local(2000, 4, 8, 10, 0);
            && Loaded(plan) && Moment(local) && Weekend(local) && !Holiday(plan, local)
            && Running(plan, local) == {0, 15, 30}
  {
    hide FederalHolidays, FederalCalendar, Running, Listed, Loaded, Loads, LeapDay, HolidayEver, Ordinal, Weekday;
    BusyWeekendLoads();
    CalendarLoads();
    NoHolidayInApril(FederalCalendar());
    var plan, local := BusyWeekend(), Local(2000, 4, 8, 10, 0);
    WeekendRuns(plan, local);
    BusyMinutes(local);
  }

  lemma {:induction false} BusyMinutes(local: Local)
    requires local.hour == 10
    ensures Listed(BusyWeekend().weekendSlots, local) == {0, 15, 30}
  {
    hide Padded, FederalCalendar;
    forall minute: nat
      ensures minute in Listed(BusyWeekend().weekendSlots, local) <==> minute in {0, 15, 30}
    {
      assert Slot(local.(minute := minute)) == SlotText(10, minute);
      OtherHour(minute);
      if SlotText(10, minute) in BusyWeekend().weekendSlots {
        var other: nat :| other in {0, 15, 30} && SlotText(10, minute) == SlotText(10, other);
        SlotTextInjective(10, minute, other);
      }
    }
  }

  lemma {:induction false} OtherHour(minute: nat)
    ensures SlotText(10, minute) != SlotText(14, 0)
  {
    assert Decimal(10)[1] == '0' && Decimal(14)[1] == '4';
    assert SlotText(10, minute)[1] == '0' && SlotText(14, 0)[1] == '4';
  }
}
