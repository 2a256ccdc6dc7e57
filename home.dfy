/**
 * The home screen: the tutor card built from the saved settings with its
 * fallbacks, and the call history of the month on view, optionally only the
 * calls long enough for an analysis, each with its date in the Korean style.
 */
module Home {
  import opened Wrappers
  import opened Text
  import opened Calendar
  import Helpers
  import CustomTutor

  // ---------------------------------------------------------------- tutor card

  /** `tutorSettings` as far as this screen reads it; missing fields are `None`. */
  datatype Settings = Settings(accent: Option<string>, gender: Option<string>, tutorName: Option<string>)

  /** `value || fallback` for an optional string. */
  function OrElse(v: Option<string>, fallback: string): (r: string)
    ensures v.Some? && v.value != "" ==> r == v.value
    ensures v.None? || v.value == "" ==> r == fallback
  {
    if v.Some? && v.value != "" then v.value else fallback
  }

  /** `settings.accent || 'us'`. */
  function Accent(s: Settings): string {
    OrElse(s.accent, "us")
  }

  /** `settings.gender || 'female'`. */
  function Gender(s: Settings): string {
    OrElse(s.gender, "female")
  }

  /** The country shown for an accent; an unknown accent shows the United States. */
  function AccentLabel(accent: string): (r: string)
    ensures r in {"미국", "영국", "호주", "인도"}
    ensures accent !in {"uk", "au", "in"} ==> r == "미국"
  {
    if accent == "uk" then "영국"
    else if accent == "au" then "호주"
    else if accent == "in" then "인도"
    else "미국"
  }

  /** The home card and the custom tutor dialog name the same country for every accent. */
  lemma AccentLabelAgreesWithTutorDialog(accent: string)
    ensures AccentLabel(accent) == CustomTutor.Nationality(accent)
  {
  }

  /** Only `male` is shown as male; any other gender is shown as female. */
  function GenderLabel(gender: string): (r: string)
    ensures r == "남성" <==> gender == "male"
    ensures r == "남성" || r == "여성"
  {
    if gender == "male" then "남성" else "여성"
  }

  /**
   * `settings.tutorName || tutorNames[gender][0]`: the saved name, else the
   * first default name of the gender; a gender with no defaults has no name
   * (the lookup fails).
   */
  function TutorName(s: Settings): (r: Option<string>)
    ensures r.Some? ==> r.value != ""
    ensures s.tutorName.Some? && s.tutorName.value != "" ==> r == s.tutorName
    ensures (s.tutorName.None? || s.tutorName.value == "") ==>
      (r == Some("Gwen") <==> Gender(s) == "female") && (r == Some("James") <==> Gender(s) == "male")
      && (r.None? <==> Gender(s) !in {"female", "male"})
  {
    if s.tutorName.Some? && s.tutorName.value != "" then s.tutorName
    else if Gender(s) == "female" then Some("Gwen")
    else if Gender(s) == "male" then Some("James")
    else None
  }

  /** `tutorName[0]`. */
  function TutorInitial(name: string): (r: string)
    requires name != ""
    ensures |r| == 1 && r == name[..1]
  {
    [name[0]]
  }

  /** With no saved settings the card shows Gwen, an American woman. */
  lemma EmptySettingsDefaults()
    ensures TutorName(Settings(None, None, None)) == Some("Gwen")
    ensures AccentLabel(Accent(Settings(None, None, None))) == "미국"
    ensures GenderLabel(Gender(Settings(None, None, None))) == "여성"
  {
  }

  // ---------------------------------------------------------------- history

  /** A local date and time: the day number and the minute of the day. */
  datatype Moment = Moment(day: int, minute: int)

  predicate ValidMoment(m: Moment) {
    0 <= m.minute < 1440
  }

  /** A saved call: its id, `new Date(timestamp)` (none for an unreadable stamp) and the words spoken. */
  datatype Call = Call(id: string, at: Option<Moment>, words: int)

  /** The minimum number of words for an analysis. */
  const AnalysisWords := 150

  /** `call.words >= 150`: the call card shows the analysis button. */
  predicate HasAnalysis(c: Call) {
    c.words >= AnalysisWords
  }

  /** The call was made in the month and year on view. */
  predicate SameMonth(c: Call, view: Civil) {
    c.at.Some? && CivilFromDays(c.at.value.day).month == view.month && CivilFromDays(c.at.value.day).year == view.year
  }

  /** The filter's test of one call. */
  predicate Shown(c: Call, view: Civil, analysisOnly: bool) {
    SameMonth(c, view) && (analysisOnly ==> HasAnalysis(c))
  }

  /**
   * `filteredHistory`: the calls of the month on view, in their order, and
   * with the analysis-only filter on, only those with an analysis.
   */
  function FilteredHistory(calls: seq<Call>, view: Civil, analysisOnly: bool): (r: seq<Call>)
    ensures |r| <= |calls|
    ensures forall c :: c in r <==> c in calls && Shown(c, view, analysisOnly)
  {
    if calls == [] then []
    else
      var rest := FilteredHistory(calls[..|calls| - 1], view, analysisOnly);
      var c := calls[|calls| - 1];
      assert calls == calls[..|calls| - 1] + [c];
      if Shown(c, view, analysisOnly) then rest + [c] else rest
  }

  /** A shown call appears as often as in the history, a hidden one not at all. */
  lemma {:induction false} FilteredCounts(calls: seq<Call>, view: Civil, analysisOnly: bool)
    ensures forall c ::
      multiset(FilteredHistory(calls, view, analysisOnly))[c] == if Shown(c, view, analysisOnly) then multiset(calls)[c] else 0
  {
    if calls != [] {
      var init := calls[..|calls| - 1];
      FilteredCounts(init, view, analysisOnly);
      assert calls == init + [calls[|calls| - 1]];
    }
  }

  /** The filter works call by call: filtering a concatenation filters each part, keeping their order. */
  lemma {:induction false} FilteredAppend(a: seq<Call>, b: seq<Call>, view: Civil, analysisOnly: bool)
    ensures FilteredHistory(a + b, view, analysisOnly) == FilteredHistory(a, view, analysisOnly) + FilteredHistory(b, view, analysisOnly)
  {
    if b == [] {
      assert a + b == a;
    } else {
      var init := b[..|b| - 1];
      var c := b[|b| - 1];
      var x := if Shown(c, view, analysisOnly) then [c] else [];
      FilteredAppend(a, init, view, analysisOnly);
      assert (a + b)[..|a + b| - 1] == a + init;
      assert (a + b)[|a + b| - 1] == c;
      assert FilteredHistory(a + b, view, analysisOnly) == FilteredHistory(a + init, view, analysisOnly) + x;
      assert FilteredHistory(b, view, analysisOnly) == FilteredHistory(init, view, analysisOnly) + x;
      var fa, fi := FilteredHistory(a, view, analysisOnly), FilteredHistory(init, view, analysisOnly);
      assert (fa + fi) + x == fa + (fi + x);
    }
  }

  /** Turning on the analysis-only filter keeps a part of the month's calls, all with an analysis. */
  lemma {:induction false} AnalysisFilterNarrows(calls: seq<Call>, view: Civil)
    ensures |FilteredHistory(calls, view, true)| <= |FilteredHistory(calls, view, false)|
    ensures forall c :: c in FilteredHistory(calls, view, true) ==> HasAnalysis(c) && c in FilteredHistory(calls, view, false)
  {
    if calls != [] {
      AnalysisFilterNarrows(calls[..|calls| - 1], view);
    }
  }

  // ---------------------------------------------------------------- call dates

  const DayNames: seq<string> := ["일", "월", "화", "수", "목", "금", "토"]

  /** `hours % 12 || 12`: the hour on a twelve-hour clock. */
  function Hour12(hours: int): (h: int)
    requires 0 <= hours < 24
    ensures 1 <= h <= 12
    ensures h % 12 == hours % 12
  {
    if hours % 12 == 0 then 12 else hours % 12
  }

  /** The twelve-hour hour and the afternoon mark give back the hour of the day. */
  lemma Hour12RoundTrip(hours: int)
    requires 0 <= hours < 24
    ensures Hour12(hours) % 12 + (if hours >= 12 then 12 else 0) == hours
  {
  }

  function AmPm(hours: int): string {
    if hours >= 12 then "오후" else "오전"
  }

  /** The part after the year: `. MM. DD(요일) 오전 hh:mm`. */
  function DateTail(m: Moment): string
    requires ValidMoment(m)
  {
    var c := CivilFromDays(m.day);
    var hours := m.minute / 60;
    ". " + Pad2(c.month as nat) + ". " + Pad2(c.day as nat) + "(" + DayNames[Weekday(m.day)] + ") "
    + AmPm(hours) + " " + PadStart2(NatToString(Hour12(hours) as nat)) + ":" + Pad2(m.minute % 60)
  }

  /** `formatCallDate`; an unreadable stamp renders its `NaN` fields. */
  function FormatCallDate(at: Option<Moment>): string
    requires at.Some? ==> ValidMoment(at.value)
  {
    if at.None? then "NaN. NaN. NaN(undefined) 오전 12:NaN"
    else IntToString(CivilFromDays(at.value.day).year) + DateTail(at.value)
  }

  /** Where the fields of a rendered date sit after the year. */
  lemma TailLayout(mo: string, d: string, dn: string, ap: string, hh: string, mm: string)
    requires |mo| == 2 && |d| == 2 && |dn| == 1 && |ap| == 2 && |hh| == 2 && |mm| == 2
    ensures var t := ". " + mo + ". " + d + "(" + dn + ") " + ap + " " + hh + ":" + mm;
      |t| == 20 && t[..2] == ". " && t[2..4] == mo && t[4..6] == ". " && t[6..8] == d && t[8] == '('
      && t[9..10] == dn && t[10..12] == ") " && t[12..14] == ap && t[14] == ' '
      && t[15..17] == hh && t[17] == ':' && t[18..20] == mm
  {
  }

  /**
   * After the year, the rendering is twenty characters whose fields read back
   * as the month, the day, the weekday's name, the half of the day, the
   * twelve-hour hour and the minutes.
   */
  lemma FormatCallDateFields(m: Moment)
    requires ValidMoment(m)
    ensures var c, r := CivilFromDays(m.day), FormatCallDate(Some(m));
      var y := IntToString(c.year);
      var t := r[|y|..];
      r[..|y|] == y && |t| == 20 && t[..2] == ". " && t[4..6] == ". " && t[8] == '('
      && t[9..10] == DayNames[Weekday(m.day)] && t[10..12] == ") "
      && t[12..14] == AmPm(m.minute / 60) && t[14] == ' ' && t[17] == ':'
      && DigitsValue(Pad2(c.month as nat)) == c.month && t[2..4] == Pad2(c.month as nat)
      && DigitsValue(Pad2(c.day as nat)) == c.day && t[6..8] == Pad2(c.day as nat)
      && t[15..17] == Pad2(Hour12(m.minute / 60) as nat) && t[18..20] == Pad2(m.minute % 60)
  {
    var c := CivilFromDays(m.day);
    var hours := m.minute / 60;
    Helpers.PadStartOfNat(Hour12(hours) as nat);
    var mo, d, dn, ap := Pad2(c.month as nat), Pad2(c.day as nat), DayNames[Weekday(m.day)], AmPm(hours);
    var hh, mm := Pad2(Hour12(hours) as nat), Pad2(m.minute % 60);
    TailLayout(mo, d, dn, ap, hh, mm);
    var t := ". " + mo + ". " + d + "(" + dn + ") " + ap + " " + hh + ":" + mm;
    assert DateTail(m) == t;
    var y := IntToString(c.year);
    var r := FormatCallDate(Some(m));
    assert r == y + t;
    assert r[..|y|] == y && r[|y|..] == t;
  }
}

/** The home screen's state: the call history, the month on view and the filter. */
module HomeScreen {
  import opened Wrappers
  import opened Calendar
  import Helpers
  import LearningCalendar
  import opened Home

  class Screen {
    var callHistory: seq<Call>
    /** `currentMonth`, a full date whose month and year select the calls. */
    var currentMonth: Civil
    var filterAnalysisOnly: bool

    predicate Valid()
      reads this
    {
      ValidCivil(currentMonth)
    }

    constructor (today: Civil)
      requires ValidCivil(today)
      ensures Valid() && callHistory == [] && currentMonth == today && !filterAnalysisOnly
    {
      callHistory := [];
      currentMonth := today;
      filterAnalysisOnly := false;
    }

    /**
     * The load effect: a readable non-empty saved history is shown, else the
     * sample calls; an unreadable one fails before anything is set.
     */
    method LoadHistory(saved: Option<Helpers.Entry<seq<Call>>>, mock: seq<Call>)
      requires Valid()
      modifies this`callHistory
      ensures Valid()
      ensures saved == Some(Helpers.Unparsable) ==> callHistory == old(callHistory)
      ensures saved.Some? && saved.value.Parsed? && saved.value.value != [] ==> callHistory == saved.value.value
      ensures (saved.None? || saved == Some(Helpers.Parsed([]))) ==> callHistory == mock
    {
      if saved.Some? {
        if saved.value.Unparsable? {
          return;
        }
        if saved.value.value != [] {
          callHistory := saved.value.value;
          return;
        }
      }
      callHistory := mock;
    }

    /** The month arrows, with the day clamped so that the month moves by exactly `delta`. */
    method ChangeMonth(delta: int)
      requires Valid()
      modifies this`currentMonth
      ensures Valid() && currentMonth == LearningCalendar.ChangeMonth(old(currentMonth), delta)
      ensures LearningCalendar.MonthIndex(currentMonth) == LearningCalendar.MonthIndex(old(currentMonth)) + delta
    {
      currentMonth := LearningCalendar.ChangeMonth(currentMonth, delta);
    }

    /** The analysis-only checkbox. */
    method ToggleFilter()
      requires Valid()
      modifies this`filterAnalysisOnly
      ensures Valid() && filterAnalysisOnly == !old(filterAnalysisOnly)
    {
      filterAnalysisOnly := !filterAnalysisOnly;
    }

    /** The call cards on view. */
    function Visible(): (r: seq<Call>)
      reads this
    {
      FilteredHistory(callHistory, currentMonth, filterAnalysisOnly)
    }
  }
}
