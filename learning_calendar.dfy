/**
 * The monthly learning calendar: every date carries three flags (quiz, call,
 * review) computed from the stored learning sessions; the month grid, the
 * month's complete and partial days, and month navigation.
 */
module LearningCalendar {
  import opened Wrappers
  import opened Calendar
  import LearningCycle

  /** A date's status: which kinds of session took place on it. */
  datatype Flags = Flags(quiz: bool, call: bool, review: bool)

  /** The `toDateString()` key of the statuses: one per calendar day, here the day number. */
  datatype DateKey = DateKey(day: int)

  function Completed(f: Flags): (n: nat)
    ensures n <= 3
    ensures n == 3 <==> f.quiz && f.call && f.review
    ensures n == 0 <==> !f.quiz && !f.call && !f.review
  {
    (if f.quiz then 1 else 0) + (if f.call then 1 else 0) + (if f.review then 1 else 0)
  }

  /** Some session among the first `n` is on day `d` (and of kind `kind`, when given). */
  predicate On(sessions: seq<LearningCycle.Session>, n: nat, d: int, kind: Option<string>)
    requires n <= |sessions|
  {
    exists i :: 0 <= i < n && sessions[i].day == d && (kind.None? || sessions[i].kind == kind.value)
  }

  function Mark(f: Flags, kind: string): Flags {
    f.(quiz := f.quiz || kind == "quiz", call := f.call || kind == "call", review := f.review || kind == "review")
  }

  /** `loadLearningData`: one entry per date that has a session, each flag set exactly when a session of its kind is on that date. */
  method LoadLearningData(sessions: seq<LearningCycle.Session>) returns (data: map<DateKey, Flags>)
    ensures forall d :: DateKey(d) in data <==> On(sessions, |sessions|, d, None)
    ensures forall d :: DateKey(d) in data ==>
      (data[DateKey(d)].quiz <==> On(sessions, |sessions|, d, Some("quiz")))
      && (data[DateKey(d)].call <==> On(sessions, |sessions|, d, Some("call")))
      && (data[DateKey(d)].review <==> On(sessions, |sessions|, d, Some("review")))
  {
    data := map[];
    var i := 0;
    while i < |sessions|
      invariant 0 <= i <= |sessions|
      invariant forall d :: DateKey(d) in data <==> On(sessions, i, d, None)
      invariant forall d :: DateKey(d) in data ==>
        (data[DateKey(d)].quiz <==> On(sessions, i, d, Some("quiz")))
        && (data[DateKey(d)].call <==> On(sessions, i, d, Some("call")))
        && (data[DateKey(d)].review <==> On(sessions, i, d, Some("review")))
    {
      var s := sessions[i];
      var key := DateKey(s.day);
      var before := if key in data then data[key] else Flags(false, false, false);
      data := data[key := Mark(before, s.kind)];
      forall d, kind: Option<string> | On(sessions, i + 1, d, kind)
        ensures On(sessions, i, d, kind) || (d == s.day && (kind.None? || s.kind == kind.value))
      {
        var j :| 0 <= j < i + 1 && sessions[j].day == d && (kind.None? || sessions[j].kind == kind.value);
        if j < i {
          assert On(sessions, i, d, kind);
        }
      }
      assert On(sessions, i + 1, s.day, None);
      forall d, kind: Option<string> | On(sessions, i, d, kind) ensures On(sessions, i + 1, d, kind) {
        var j :| 0 <= j < i && sessions[j].day == d && (kind.None? || sessions[j].kind == kind.value);
        assert 0 <= j < i + 1;
      }
      if s.kind == "quiz" { assert On(sessions, i + 1, s.day, Some("quiz")); }
      if s.kind == "call" { assert On(sessions, i + 1, s.day, Some("call")); }
      if s.kind == "review" { assert On(sessions, i + 1, s.day, Some("review")); }
      i := i + 1;
    }
  }

  /** `generateCalendarDays`: `firstDay` empty cells, then the days 1.. of the month. */
  method GenerateCalendarDays(firstDay: nat, daysInMonth: nat) returns (days: seq<Option<nat>>)
    ensures |days| == firstDay + daysInMonth
    ensures forall i :: 0 <= i < firstDay ==> days[i].None?
    ensures forall i :: firstDay <= i < |days| ==> days[i] == Some(i - firstDay + 1)
  {
    days := [];
    var i := 0;
    while i < firstDay
      invariant 0 <= i <= firstDay && |days| == i
      invariant forall j :: 0 <= j < i ==> days[j].None?
    {
      days := days + [None];
      i := i + 1;
    }
    var day := 1;
    while day <= daysInMonth
      invariant 1 <= day <= daysInMonth + 1 && |days| == firstDay + day - 1
      invariant forall j :: 0 <= j < firstDay ==> days[j].None?
      invariant forall j :: firstDay <= j < |days| ==> days[j] == Some(j - firstDay + 1)
    {
      days := days + [Some(day)];
      day := day + 1;
    }
  }

  /** Every day of the month appears in the grid exactly once, in its weekday column. */
  lemma GridColumns(y: int, m: int, days: seq<Option<nat>>)
    requires 1 <= m <= 12
    requires |days| == FirstWeekday(y, m) + DaysInMonth(y, m)
    requires forall i :: 0 <= i < FirstWeekday(y, m) ==> days[i].None?
    requires forall i :: FirstWeekday(y, m) <= i < |days| ==> days[i] == Some(i - FirstWeekday(y, m) + 1)
    ensures MonthGrid(y, m, days)
  {
    forall d | 1 <= d <= DaysInMonth(y, m)
      ensures (FirstWeekday(y, m) + d - 1) % 7 == Weekday(DaysFromCivil(Civil(y, m, d)))
    {
      var z := DaysFromCivil(Civil(y, m, 1));
      assert DaysFromCivil(Civil(y, m, d)) == z + d - 1;
      ModAdd(z + 4, d - 1);
    }
  }

  /** Day `d` of the month sits in cell `firstDay + d - 1`, whose column (Sunday first) is the date's weekday. */
  predicate MonthGrid(y: int, m: int, days: seq<Option<nat>>)
    requires 1 <= m <= 12
  {
    |days| == FirstWeekday(y, m) + DaysInMonth(y, m)
    && (forall i :: 0 <= i < FirstWeekday(y, m) ==> days[i].None?)
    && (forall d :: 1 <= d <= DaysInMonth(y, m) ==> days[FirstWeekday(y, m) + d - 1] == Some(d))
    && (forall d :: 1 <= d <= DaysInMonth(y, m) ==>
          (FirstWeekday(y, m) + d - 1) % 7 == Weekday(DaysFromCivil(Civil(y, m, d))))
  }

  lemma {:induction false} ModAdd(a: int, b: nat)
    ensures (a % 7 + b) % 7 == (a + b) % 7
  {
    if b > 0 {
      ModAdd(a, b - 1);
      ModStep(a % 7 + b - 1);
      ModStep(a + b - 1);
    }
  }

  lemma ModStep(x: int)
    ensures (x % 7 + 1) % 7 == (x + 1) % 7
  {
  }

  /** `new Date(year, month, 1).getDay()`. */
  function FirstWeekday(y: int, m: int): (w: nat)
    requires 1 <= m <= 12
    ensures w < 7
  {
    Weekday(DaysFromCivil(Civil(y, m, 1)))
  }

  /** Day number `d` falls in month `m` of year `y`. */
  predicate InMonth(d: int, y: int, m: int) {
    1 <= m <= 12 && MonthStart(y, m) <= d < MonthStart(y, m) + DaysInMonth(y, m)
  }

  function MonthStart(y: int, m: int): int
    requires 1 <= m <= 12
  {
    DaysFromCivil(Civil(y, m, 1))
  }

  /** The statistics under the calendar. */
  datatype MonthStats = MonthStats(completeDays: nat, partialDays: nat)

  predicate IsComplete(data: map<DateKey, Flags>, y: int, m: int, d: DateKey) {
    d in data && InMonth(d.day, y, m) && Completed(data[d]) == 3
  }

  predicate IsPartial(data: map<DateKey, Flags>, y: int, m: int, d: DateKey) {
    d in data && InMonth(d.day, y, m) && 0 < Completed(data[d]) < 3
  }

  /** The complete (or partial) dates of the month among `keys`. */
  ghost function CountedIn(data: map<DateKey, Flags>, y: int, m: int, keys: set<DateKey>, complete: bool): set<DateKey> {
    set d | d in keys && (if complete then IsComplete(data, y, m, d) else IsPartial(data, y, m, d))
  }

  ghost function CompleteSet(data: map<DateKey, Flags>, y: int, m: int): set<DateKey> {
    CountedIn(data, y, m, data.Keys, true)
  }

  ghost function PartialSet(data: map<DateKey, Flags>, y: int, m: int): set<DateKey> {
    CountedIn(data, y, m, data.Keys, false)
  }

  lemma CountedStep(data: map<DateKey, Flags>, y: int, m: int, keys: set<DateKey>, key: DateKey, complete: bool)
    requires key !in keys
    ensures var added := if complete then IsComplete(data, y, m, key) else IsPartial(data, y, m, key);
      |CountedIn(data, y, m, keys + {key}, complete)| == |CountedIn(data, y, m, keys, complete)| + (if added then 1 else 0)
  {
    var added := if complete then IsComplete(data, y, m, key) else IsPartial(data, y, m, key);
    if added {
      assert CountedIn(data, y, m, keys + {key}, complete) == CountedIn(data, y, m, keys, complete) + {key};
    } else {
      assert CountedIn(data, y, m, keys + {key}, complete) == CountedIn(data, y, m, keys, complete);
    }
  }

  /** `getMonthStats`: the month's dates with all three flags, and those with one or two. */
  method GetMonthStats(data: map<DateKey, Flags>, y: int, m: int) returns (stats: MonthStats)
    ensures stats.completeDays == |CompleteSet(data, y, m)|
    ensures stats.partialDays == |PartialSet(data, y, m)|
  {
    var complete, partial := 0, 0;
    var todo := data.Keys;
    ghost var seen: set<DateKey> := {};
    while todo != {}
      invariant seen + todo == data.Keys && seen !! todo
      invariant complete == |CountedIn(data, y, m, seen, true)|
      invariant partial == |CountedIn(data, y, m, seen, false)|
      decreases |todo|
    {
      var key :| key in todo;
      var n := Completed(data[key]);
      var inMonth := InMonth(key.day, y, m);
      CountedStep(data, y, m, seen, key, true);
      CountedStep(data, y, m, seen, key, false);
      if inMonth && n == 3 {
        complete := complete + 1;
      } else if inMonth && n > 0 {
        partial := partial + 1;
      }
      seen := seen + {key};
      todo := todo - {key};
    }
    assert seen == data.Keys;
    stats := MonthStats(complete, partial);
  }

  /** No date is counted twice, and a date with no flag is counted in neither. */
  lemma StatsDisjoint(data: map<DateKey, Flags>, y: int, m: int, d: DateKey)
    ensures !(d in CompleteSet(data, y, m) && d in PartialSet(data, y, m))
    ensures d in data && Completed(data[d]) == 0 ==> d !in CompleteSet(data, y, m) && d !in PartialSet(data, y, m)
    ensures d in data && InMonth(d.day, y, m) && Completed(data[d]) > 0 ==>
      d in CompleteSet(data, y, m) || d in PartialSet(data, y, m)
  {
  }

  /** The day number of grid cell `day` of the shown month; like `new Date(y, m, day)` it runs on past the month's end. */
  function CellDay(y: int, m: int, day: nat): int
    requires 1 <= m <= 12
  {
    DaysFromCivil(Civil(y, m, 1)) + day - 1
  }

  /** `isFutureDate`: an empty (or zero) cell is not; otherwise the date lies strictly after today. */
  function IsFutureDate(y: int, m: int, cell: Option<nat>, today: int): (r: bool)
    requires 1 <= m <= 12
    ensures cell.None? || cell.value == 0 ==> !r
    ensures cell.Some? && cell.value != 0 ==> (r <==> CellDay(y, m, cell.value) > today)
  {
    cell.Some? && cell.value != 0 && CellDay(y, m, cell.value) > today
  }

  /** Today itself is not in the future, and neither is any earlier day. */
  lemma TodayIsNotFuture(c: Civil, today: int)
    requires ValidCivil(c) && DaysFromCivil(c) <= today
    ensures !IsFutureDate(c.year, c.month, Some(c.day), today)
  {
  }

  /** `changeMonth` as written: `setMonth(getMonth() + delta)` on the shown date, keeping its day of the month. */
  function ChangeMonthAsWritten(c: Civil, delta: int): Civil
    requires ValidCivil(c)
  {
    SetMonth(c, c.month - 1 + delta)
  }

  /** On 31 January "next month" shows March. */
  lemma ChangeMonthSkipsFebruary()
    ensures ChangeMonthAsWritten(Civil(2025, 1, 31), 1) == Civil(2025, 3, 3)
  {
    SetMonthSkipsFebruary();
  }

  /** Month index counted from year 0. */
  function MonthIndex(c: Civil): int {
    c.year * 12 + c.month - 1
  }

  /** `changeMonth` as intended: the shown month moves by `delta`, the day is clamped to the new month. */
  function ChangeMonth(c: Civil, delta: int): (r: Civil)
    requires ValidCivil(c)
    ensures ValidCivil(r)
    ensures MonthIndex(r) == MonthIndex(c) + delta
  {
    var month0 := c.month - 1 + delta;
    var r := AddMonthsClamped(c, month0);
    assert MonthIndex(r) == (c.year + month0 / 12) * 12 + month0 % 12;
    r
  }

  /** Forward then back returns to the same month. */
  lemma ChangeMonthReturns(c: Civil, delta: int)
    requires ValidCivil(c)
    ensures MonthIndex(ChangeMonth(ChangeMonth(c, delta), -delta)) == MonthIndex(c)
  {
  }

}

/** The calendar component's state: the shown month, the selected date and the loaded statuses. */
module LearningCalendarView {
  import opened Wrappers
  import opened Calendar
  import LearningCycle
  import opened LearningCalendar

  class MonthView {
    var current: Civil
    var selected: Option<int>
    var learningData: map<DateKey, Flags>

    predicate Valid()
      reads this
    {
      ValidCivil(current)
    }

    constructor (today: Civil, sessions: seq<LearningCycle.Session>)
      requires ValidCivil(today)
      ensures Valid() && current == today && selected.None?
      ensures forall d :: DateKey(d) in learningData <==> On(sessions, |sessions|, d, None)
    {
      var data := LoadLearningData(sessions);
      current := today;
      selected := None;
      learningData := data;
    }

    method Days() returns (days: seq<Option<nat>>)
      requires Valid()
      ensures MonthGrid(current.year, current.month, days)
    {
      var y, m := current.year, current.month;
      days := GenerateCalendarDays(FirstWeekday(y, m), DaysInMonth(y, m));
      GridColumns(y, m, days);
    }

    /** The navigation arrows. */
    method ChangeMonthBy(delta: int)
      requires Valid()
      modifies this`current
      ensures Valid() && current == ChangeMonth(old(current), delta)
    {
      current := ChangeMonth(current, delta);
    }

    /** A click on a cell selects its date and hands the date with its status (if any) to the listener; an empty cell does nothing. */
    method HandleDateClick(cell: Option<nat>) returns (picked: Option<(int, Option<Flags>)>)
      requires Valid()
      modifies this`selected
      ensures cell.None? || cell.value == 0 ==> picked.None? && selected == old(selected)
      ensures cell.Some? && cell.value != 0 ==>
        var d := CellDay(current.year, current.month, cell.value);
        selected == Some(d) && picked == Some((d, if DateKey(d) in learningData then Some(learningData[DateKey(d)]) else None))
    {
      if cell.None? || cell.value == 0 {
        return None;
      }
      var d := CellDay(current.year, current.month, cell.value);
      selected := Some(d);
      picked := Some((d, if DateKey(d) in learningData then Some(learningData[DateKey(d)]) else None));
    }
  }
}
