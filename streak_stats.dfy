/**
 * The learning statistics page: words spoken per day, their total, this
 * week against last week, the run of consecutive active weeks, and a
 * Monday-first month calendar of daily word counts.
 */
module StreakStats {
  import opened Wrappers
  import opened Calendar
  import opened Text
  import opened Lists
  import LearningCalendar

  /** A session as the session list returns it: the start instant and the words spoken. */
  datatype Session = Session(startedAt: Option<string>, wordCount: Option<int>)

  /** `session.startedAt && session.wordCount`: a non-empty start and a non-zero count. */
  predicate Counted(s: Session) {
    s.startedAt.Some? && s.startedAt.value != "" && s.wordCount.Some? && s.wordCount.value != 0
  }

  /** `startedAt.split('T')[0]`: the text before the first `T`. */
  function DatePart(s: string): (r: string)
    ensures 'T' !in r && r <= s
    ensures 'T' in s ==> s[|r|] == 'T'
  {
    if 'T' in s then s[..IndexOf(s, 'T')] else s
  }

  /** The date part is exactly the first piece of the split. */
  lemma DatePartIsFirstPiece(s: string)
    ensures DatePart(s) == Split(s, 'T')[0]
  {
  }

  function DateOf(s: Session): string
    requires Counted(s)
  {
    DatePart(s.startedAt.value)
  }

  // ---------------------------------------------------------------- daily counts

  /** One property of the `counts` object, which keeps its keys in insertion order. */
  datatype DayCount = DayCount(date: string, words: int)

  function Dates(counts: seq<DayCount>): (r: seq<string>)
    ensures |r| == |counts| && forall k :: 0 <= k < |counts| ==> r[k] == counts[k].date
  {
    if counts == [] then [] else [counts[0].date] + Dates(counts[1..])
  }

  /** `counts[date] || 0`. */
  function Get(counts: seq<DayCount>, date: string): int {
    if counts == [] then 0
    else if counts[0].date == date then counts[0].words
    else Get(counts[1..], date)
  }

  /** `counts[date] = (counts[date] || 0) + w`: the value is updated in place, or the key is appended. */
  function Add(counts: seq<DayCount>, date: string, w: int): seq<DayCount> {
    if counts == [] then [DayCount(date, w)]
    else if counts[0].date == date then [DayCount(date, counts[0].words + w)] + counts[1..]
    else [counts[0]] + Add(counts[1..], date, w)
  }

  /** `Object.values(counts).reduce((sum, count) => sum + count, 0)`. */
  function Total(counts: seq<DayCount>): int {
    if counts == [] then 0 else counts[0].words + Total(counts[1..])
  }

  /** Adding to a date changes that date's value by `w` and no other. */
  lemma {:induction false} AddGet(counts: seq<DayCount>, date: string, w: int, other: string)
    ensures Get(Add(counts, date, w), other) == Get(counts, other) + (if other == date then w else 0)
  {
    if counts != [] && counts[0].date != date {
      AddGet(counts[1..], date, w, other);
    }
  }

  /** Adding grows the total by `w`, keeps the keys distinct, and adds `date` as its only new key. */
  lemma {:induction false} AddKeys(counts: seq<DayCount>, date: string, w: int)
    requires NoDup(Dates(counts))
    ensures Total(Add(counts, date, w)) == Total(counts) + w
    ensures NoDup(Dates(Add(counts, date, w)))
    ensures forall d :: d in Dates(Add(counts, date, w)) <==> d == date || d in Dates(counts)
  {
    if counts != [] {
      var rest := counts[1..];
      assert Dates(counts) == [counts[0].date] + Dates(rest);
      assert NoDup(Dates(rest)) by {
        forall i, j | 0 <= i < j < |Dates(rest)| ensures Dates(rest)[i] != Dates(rest)[j] {
          assert Dates(rest)[i] == Dates(counts)[i + 1] && Dates(rest)[j] == Dates(counts)[j + 1];
        }
      }
      if counts[0].date == date {
        var r := Add(counts, date, w);
        assert Dates(r) == [date] + Dates(rest);
        assert Dates(r) == Dates(counts);
      } else {
        AddKeys(rest, date, w);
        var r := Add(counts, date, w);
        assert Dates(r) == [counts[0].date] + Dates(Add(rest, date, w));
        assert counts[0].date !in Dates(rest) by {
          forall k | 0 <= k < |Dates(rest)| ensures Dates(rest)[k] != counts[0].date {
            assert Dates(rest)[k] == Dates(counts)[k + 1];
          }
        }
        assert counts[0].date !in Dates(Add(rest, date, w));
        forall i, j | 0 <= i < j < |Dates(r)| ensures Dates(r)[i] != Dates(r)[j] {
          if i > 0 {
            assert Dates(r)[i] == Dates(Add(rest, date, w))[i - 1];
            assert Dates(r)[j] == Dates(Add(rest, date, w))[j - 1];
          } else {
            assert Dates(r)[j] == Dates(Add(rest, date, w))[j - 1];
          }
        }
      }
    }
  }

  /** The counted words of the sessions started on `date`. */
  function WordsOn(sessions: seq<Session>, date: string): int {
    if sessions == [] then 0
    else
      var s := sessions[|sessions| - 1];
      WordsOn(sessions[..|sessions| - 1], date) + (if Counted(s) && DateOf(s) == date then s.wordCount.value else 0)
  }

  /** The counted words of all the sessions. */
  function SessionWords(sessions: seq<Session>): int {
    if sessions == [] then 0
    else
      var s := sessions[|sessions| - 1];
      SessionWords(sessions[..|sessions| - 1]) + (if Counted(s) then s.wordCount.value else 0)
  }

  /** Some counted session started on `date`. */
  predicate HasDay(sessions: seq<Session>, date: string) {
    exists j :: 0 <= j < |sessions| && Counted(sessions[j]) && DateOf(sessions[j]) == date
  }

  /** One more session adds its date, its words to that date, and its words to the total, when it is counted. */
  lemma HasDayStep(sessions: seq<Session>, i: nat)
    requires i < |sessions|
    ensures forall d :: (HasDay(sessions[..i + 1], d) <==>
      HasDay(sessions[..i], d) || (Counted(sessions[i]) && DateOf(sessions[i]) == d))
    ensures forall d :: (WordsOn(sessions[..i + 1], d) == WordsOn(sessions[..i], d)
      + (if Counted(sessions[i]) && DateOf(sessions[i]) == d then sessions[i].wordCount.value else 0))
    ensures SessionWords(sessions[..i + 1]) == SessionWords(sessions[..i])
      + (if Counted(sessions[i]) then sessions[i].wordCount.value else 0)
  {
    var prefix := sessions[..i + 1];
    assert prefix[..i] == sessions[..i] && prefix[i] == sessions[i];
    forall d ensures HasDay(prefix, d) <==> HasDay(sessions[..i], d) || (Counted(sessions[i]) && DateOf(sessions[i]) == d) {
      if HasDay(prefix, d) && !(Counted(sessions[i]) && DateOf(sessions[i]) == d) {
        var j :| 0 <= j < i + 1 && Counted(prefix[j]) && DateOf(prefix[j]) == d;
        assert j < i && sessions[..i][j] == prefix[j];
      }
      if HasDay(sessions[..i], d) {
        var j :| 0 <= j < i && Counted(sessions[..i][j]) && DateOf(sessions[..i][j]) == d;
        assert prefix[j] == sessions[..i][j];
      }
      if Counted(sessions[i]) && DateOf(sessions[i]) == d {
        assert Counted(prefix[i]) && DateOf(prefix[i]) == d;
      }
    }
  }

  /**
   * `dailyWordCounts`: one key per date some counted session started on, in
   * first-seen order, holding that date's words; their total is the words of
   * all counted sessions.
   */
  method DailyWordCounts(sessions: seq<Session>) returns (counts: seq<DayCount>)
    ensures NoDup(Dates(counts))
    ensures forall d :: d in Dates(counts) <==> HasDay(sessions, d)
    ensures forall d :: Get(counts, d) == WordsOn(sessions, d)
    ensures Total(counts) == SessionWords(sessions)
  {
    counts := [];
    var i := 0;
    while i < |sessions|
      invariant 0 <= i <= |sessions|
      invariant NoDup(Dates(counts))
      invariant forall d :: d in Dates(counts) <==> HasDay(sessions[..i], d)
      invariant forall d :: Get(counts, d) == WordsOn(sessions[..i], d)
      invariant Total(counts) == SessionWords(sessions[..i])
    {
      var s := sessions[i];
      HasDayStep(sessions, i);
      if Counted(s) {
        var date := DateOf(s);
        AddKeys(counts, date, s.wordCount.value);
        forall d ensures Get(Add(counts, date, s.wordCount.value), d) == WordsOn(sessions[..i + 1], d) {
          AddGet(counts, date, s.wordCount.value, d);
        }
        counts := Add(counts, date, s.wordCount.value);
      }
      i := i + 1;
    }
    assert sessions[..i] == sessions;
  }

  // ---------------------------------------------------------------- weeks
  //
  // The page turns a local day into a key with `toISOString()`, which gives
  // the UTC date of that instant; which date that is depends on the device's
  // time zone and on the time of day. The operations below therefore take
  // the conversion `isoOf` (local day number to `YYYY-MM-DD`) as a parameter.

  /** `date.toISOString().split('T')[0]` for the UTC day numbered `z`. */
  function DateStr(z: int): string {
    IsoDate(CivilFromDays(z))
  }

  /** The UTC day of minute `minute` of local day `localDay` on a device `offset` minutes ahead of UTC. */
  function UtcDay(localDay: int, minute: int, offset: int): int {
    (localDay * 1440 + minute - offset) / 1440
  }

  /** Local midnight in Korea (nine hours ahead of UTC) is still the previous day in UTC. */
  lemma KoreanMidnightIsPreviousUtcDay(localDay: int)
    ensures UtcDay(localDay, 0, 540) == localDay - 1
  {
  }

  /** The day's words under the page's conversion. */
  function DayWords(counts: seq<DayCount>, isoOf: int -> string, start: int, i: int): int {
    Get(counts, isoOf(start + i))
  }

  /** `today.getDate() - today.getDay() + 1`, the week start as the page computes it. */
  function WeekStartAsWritten(today: int): int {
    today - Weekday(today) + 1
  }

  /** On a Sunday the computed week starts the next day, so the week it names leaves today out. */
  lemma SundayWeekStartsTomorrow(today: int)
    requires Weekday(today) == 0
    ensures WeekStartAsWritten(today) == today + 1
    ensures !(WeekStartAsWritten(today) <= today < WeekStartAsWritten(today) + 7)
  {
  }

  /** The Monday of the week holding `today`. */
  function WeekStart(today: int): (ws: int)
    ensures ws <= today < ws + 7
    ensures Weekday(ws) == 1
  {
    today - DaysSinceMonday(today)
  }

  /** From Monday to Saturday the page's week start is the Monday of the week. */
  lemma WeekStartAgreesOffSunday(today: int)
    requires Weekday(today) != 0
    ensures WeekStartAsWritten(today) == WeekStart(today)
  {
  }

  /** Some day of the week starting on `ws` has a positive count. */
  predicate Active(counts: seq<DayCount>, isoOf: int -> string, ws: int) {
    exists i :: 0 <= i < 7 && DayWords(counts, isoOf, ws, i) > 0
  }

  /**
   * `streakWeeks`: the number of consecutive active weeks going back from
   * the current week, at most 52 (the current week inactive gives 0).
   */
  method StreakWeeks(counts: seq<DayCount>, isoOf: int -> string, today: int) returns (weeks: nat)
    ensures weeks <= 52
    ensures forall w :: 0 <= w < weeks ==> Active(counts, isoOf, WeekStart(today) - 7 * w)
    ensures weeks < 52 ==> !Active(counts, isoOf, WeekStart(today) - 7 * weeks)
  {
    var currentWeekStart := WeekStart(today);
    weeks := 0;
    while weeks < 52
      invariant weeks <= 52
      invariant forall w :: 0 <= w < weeks ==> Active(counts, isoOf, currentWeekStart - 7 * w)
      decreases 52 - weeks
    {
      var weekStart := currentWeekStart - weeks * 7;
      var hasActivity := false;
      var i := 0;
      while i < 7
        invariant 0 <= i <= 7
        invariant hasActivity ==> Active(counts, isoOf, weekStart)
        invariant !hasActivity ==> forall j :: 0 <= j < i ==> DayWords(counts, isoOf, weekStart, j) <= 0
      {
        if Get(counts, isoOf(weekStart + i)) > 0 {
          assert DayWords(counts, isoOf, weekStart, i) > 0;
          hasActivity := true;
          break;
        }
        i := i + 1;
      }
      if !hasActivity && weeks > 0 {
        break;
      }
      if hasActivity {
        weeks := weeks + 1;
      } else {
        break;
      }
    }
  }

  /** The words counted on the `n` days from `start`. */
  function RangeWords(counts: seq<DayCount>, isoOf: int -> string, start: int, n: nat): int {
    if n == 0 then 0 else RangeWords(counts, isoOf, start, n - 1) + DayWords(counts, isoOf, start, n - 1)
  }

  /** `weekComparison`: this week's words minus last week's. */
  method WeekComparison(counts: seq<DayCount>, isoOf: int -> string, today: int) returns (diff: int)
    ensures diff == RangeWords(counts, isoOf, WeekStart(today), 7) - RangeWords(counts, isoOf, WeekStart(today) - 7, 7)
  {
    var thisWeekStart := WeekStart(today);
    var lastWeekStart := thisWeekStart - 7;
    var thisWeekWords := 0;
    var lastWeekWords := 0;
    var i := 0;
    while i < 7
      invariant 0 <= i <= 7
      invariant thisWeekWords == RangeWords(counts, isoOf, thisWeekStart, i)
      invariant lastWeekWords == RangeWords(counts, isoOf, lastWeekStart, i)
    {
      thisWeekWords := thisWeekWords + Get(counts, isoOf(thisWeekStart + i));
      lastWeekWords := lastWeekWords + Get(counts, isoOf(lastWeekStart + i));
      i := i + 1;
    }
    diff := thisWeekWords - lastWeekWords;
  }

  /** With no negative counts, a run of days has words exactly when one of its days does. */
  lemma {:induction false} RangeActive(counts: seq<DayCount>, isoOf: int -> string, start: int, n: nat)
    requires forall d :: Get(counts, d) >= 0
    ensures RangeWords(counts, isoOf, start, n) >= 0
    ensures RangeWords(counts, isoOf, start, n) > 0 <==> exists i :: 0 <= i < n && DayWords(counts, isoOf, start, i) > 0
  {
    if n > 0 {
      RangeActive(counts, isoOf, start, n - 1);
      if RangeWords(counts, isoOf, start, n - 1) > 0 {
        var i :| 0 <= i < n - 1 && DayWords(counts, isoOf, start, i) > 0;
        assert 0 <= i < n;
      }
    }
  }

  /** With no negative counts, a week is active exactly when its words are positive. */
  lemma ActiveIffWords(counts: seq<DayCount>, isoOf: int -> string, ws: int)
    requires forall d :: Get(counts, d) >= 0
    ensures Active(counts, isoOf, ws) <==> RangeWords(counts, isoOf, ws, 7) > 0
  {
    RangeActive(counts, isoOf, ws, 7);
  }

  /** Sessions with no negative word count give no negative daily count. */
  lemma {:induction false} WordsOnNonNegative(sessions: seq<Session>, date: string)
    requires forall j :: 0 <= j < |sessions| && sessions[j].wordCount.Some? ==> sessions[j].wordCount.value >= 0
    ensures WordsOn(sessions, date) >= 0
  {
    if sessions != [] {
      WordsOnNonNegative(sessions[..|sessions| - 1], date);
    }
  }

  // ---------------------------------------------------------------- calendar

  /** A cell of the month grid; the leading blanks carry no day. */
  datatype Cell = Cell(day: Option<nat>, wordCount: int, isCurrentMonth: bool, isToday: bool)

  /** `firstDay.getDay() - 1`, with Sunday moved to 6: the blanks before the 1st in a Monday-first grid. */
  function StartDay(y: int, m: int): (n: nat)
    requires 1 <= m <= 12
    ensures n == DaysSinceMonday(DaysFromCivil(Civil(y, m, 1)))
  {
    var startDay := Weekday(DaysFromCivil(Civil(y, m, 1))) - 1;
    if startDay < 0 then 6 else startDay
  }

  /** The cell of day `d` of the month, keyed by the conversion of its local midnight. */
  function DayCell(counts: seq<DayCount>, isoOf: int -> string, y: int, m: int, d: int, todayStr: string): Cell
    requires 1 <= m <= 12 && 1 <= d <= DaysInMonth(y, m)
  {
    var dateStr := isoOf(DaysFromCivil(Civil(y, m, d)));
    Cell(Some(d), Get(counts, dateStr), true, dateStr == todayStr)
  }

  /**
   * `calendarData`: the blanks, then one cell per day of the month holding
   * the words under that day's key and whether the key is today's.
   */
  method CalendarData(counts: seq<DayCount>, isoOf: int -> string, y: int, m: int, todayStr: string)
    returns (days: seq<Cell>)
    requires 1 <= m <= 12
    ensures |days| == StartDay(y, m) + DaysInMonth(y, m)
    ensures forall i :: 0 <= i < StartDay(y, m) ==> days[i] == Cell(None, 0, false, false)
    ensures forall i :: StartDay(y, m) <= i < |days| ==>
      days[i] == DayCell(counts, isoOf, y, m, i - StartDay(y, m) + 1, todayStr)
  {
    var startDay := StartDay(y, m);
    days := [];
    var i := 0;
    while i < startDay
      invariant 0 <= i <= startDay && |days| == i
      invariant forall j :: 0 <= j < i ==> days[j] == Cell(None, 0, false, false)
    {
      days := days + [Cell(None, 0, false, false)];
      i := i + 1;
    }
    var lastDay := DaysInMonth(y, m);
    var day := 1;
    while day <= lastDay
      invariant 1 <= day <= lastDay + 1 && |days| == startDay + day - 1
      invariant forall j :: 0 <= j < startDay ==> days[j] == Cell(None, 0, false, false)
      invariant forall j :: startDay <= j < |days| ==> days[j] == DayCell(counts, isoOf, y, m, j - startDay + 1, todayStr)
    {
      var dateStr := isoOf(DaysFromCivil(Civil(y, m, day)));
      days := days + [Cell(Some(day), Get(counts, dateStr), true, dateStr == todayStr)];
      day := day + 1;
    }
  }

  /** In the Monday-first grid the column of every day is its distance from Monday. */
  lemma MondayColumns(y: int, m: int, d: int)
    requires 1 <= m <= 12 && 1 <= d <= DaysInMonth(y, m)
    ensures (StartDay(y, m) + d - 1) % 7 == DaysSinceMonday(DaysFromCivil(Civil(y, m, d)))
  {
    var z := DaysFromCivil(Civil(y, m, 1));
    assert DaysFromCivil(Civil(y, m, d)) == z + d - 1;
    LearningCalendar.ModAdd((z + 4) % 7 + 6, d - 1);
    LearningCalendar.ModAdd(z + 4, d + 5);
    LearningCalendar.ModAdd(z + d + 3, 6);
  }

  /**
   * As the page converts local midnight on a device in Korea, the cell of a
   * day holds the words of the sessions started the day before.
   */
  lemma KoreanCellShowsPreviousDay(sessions: seq<Session>, counts: seq<DayCount>, y: int, m: int, d: int, todayStr: string)
    requires 1 <= m <= 12 && 1 <= d <= DaysInMonth(y, m)
    requires forall date :: Get(counts, date) == WordsOn(sessions, date)
    ensures DayCell(counts, z => DateStr(UtcDay(z, 0, 540)), y, m, d, todayStr).wordCount
      == WordsOn(sessions, DateStr(DaysFromCivil(Civil(y, m, d)) - 1))
  {
    KoreanMidnightIsPreviousUtcDay(DaysFromCivil(Civil(y, m, d)));
  }

  /** Keyed by the local date, the cell of a day holds the words of the sessions started on that date. */
  lemma LocalCellShowsItsDay(sessions: seq<Session>, counts: seq<DayCount>, y: int, m: int, d: int, todayStr: string)
    requires 1 <= m <= 12 && 1 <= d <= DaysInMonth(y, m)
    requires forall date :: Get(counts, date) == WordsOn(sessions, date)
    ensures DayCell(counts, DateStr, y, m, d, todayStr).wordCount == WordsOn(sessions, IsoDate(Civil(y, m, d)))
  {
    CivilRoundTrip(Civil(y, m, d));
  }
}

/** The page's state: the loaded sessions, the month on view, and the loading flag. */
module StreakStatsPage {
  import opened Wrappers
  import opened Calendar
  import StreakStats
  import LearningCalendar

  /** How `getSessions` ended: a response, with or without its `sessions`, or an exception. */
  datatype SessionsResponse = Response(sessions: Option<seq<StreakStats.Session>>) | Threw

  class Page {
    var sessions: seq<StreakStats.Session>
    /** `currentDate`; the page only reads its year and month. */
    var view: Civil
    var isLoading: bool

    predicate Valid()
      reads this
    {
      ValidCivil(view)
    }

    constructor (today: Civil)
      requires ValidCivil(today)
      ensures Valid() && sessions == [] && view == today && isLoading
    {
      sessions := [];
      view := today;
      isLoading := true;
    }

    /** The load effect: a response's sessions replace the list; the spinner stops either way. */
    method LoadSessions(response: SessionsResponse)
      requires Valid()
      modifies this`sessions, this`isLoading
      ensures Valid() && !isLoading
      ensures response.Response? && response.sessions.Some? ==> sessions == response.sessions.value
      ensures !(response.Response? && response.sessions.Some?) ==> sessions == old(sessions)
    {
      if response.Response? && response.sessions.Some? {
        sessions := response.sessions.value;
      }
      isLoading := false;
    }

    /** `new Date(year, month + delta, 1)`: the first of the month `delta` months away. */
    method ShiftMonth(delta: int)
      requires Valid()
      modifies this`view
      ensures Valid() && view.day == 1
      ensures LearningCalendar.MonthIndex(view) == LearningCalendar.MonthIndex(old(view)) + delta
    {
      var month0 := view.month - 1 + delta;
      view := Civil(view.year + month0 / 12, month0 % 12 + 1, 1);
    }

    /** The previous-month button. */
    method HandlePrevMonth()
      requires Valid()
      modifies this`view
      ensures Valid() && view.day == 1
      ensures LearningCalendar.MonthIndex(view) == LearningCalendar.MonthIndex(old(view)) - 1
    {
      ShiftMonth(-1);
    }

    /** The next-month button. */
    method HandleNextMonth()
      requires Valid()
      modifies this`view
      ensures Valid() && view.day == 1
      ensures LearningCalendar.MonthIndex(view) == LearningCalendar.MonthIndex(old(view)) + 1
    {
      ShiftMonth(1);
    }
  }
}
