/**
 * The notification service: the numeric notification ids derived from
 * schedule ids by a 32-bit string hash, the next weekly instant of a call
 * reminder and of the motivation reminder ten minutes before it, the
 * routing of tapped notifications, and the resynchronisation of all
 * reminders from the stored weekly schedule.
 */
module Notifications {
  import opened Wrappers
  import opened Text
  import opened ClockTime

  const Two32: int := 0x1_0000_0000
  const Two31: int := 0x8000_0000
  const MotivationLeadMs: int := 10 * MinuteMs
  const WeekMs: int := 7 * DayMs

  // ---------------------------------------------------------------- ids

  /** `x | 0`: the 32-bit two's-complement value of `x`. */
  function Wrap32(x: int): (r: int)
    ensures -Two31 <= r < Two31
    ensures -Two31 <= x < Two31 ==> r == x
  {
    (x + Two31) % Two32 - Two31
  }

  lemma WrapShift(x: int, k: int)
    ensures Wrap32(x + k * Two32) == Wrap32(x)
  {
    assert (x + k * Two32 + Two31) % Two32 == (x + Two31) % Two32;
  }

  /** Wrapping after every step is the same as wrapping once at the end. */
  lemma WrapStep(x: int, c: int)
    ensures Wrap32(31 * Wrap32(x) + c) == Wrap32(31 * x + c)
  {
    var q := (x + Two31) / Two32;
    assert Wrap32(x) == x - q * Two32;
    assert 31 * Wrap32(x) + c == 31 * x + c + (-31 * q) * Two32;
    WrapShift(31 * x + c, -31 * q);
  }

  /** The exact polynomial `u[0]*31^(n-1) + ... + u[n-1]` of the code units. */
  function Polynomial(u: seq<int>): int {
    if u == [] then 0 else 31 * Polynomial(u[..|u| - 1]) + u[|u| - 1]
  }

  /** The polynomial `h` continued by one character's code units. */
  function Push(h: int, u: seq<int>): int
    requires |u| == 1 || |u| == 2
  {
    if |u| == 1 then 31 * h + u[0] else 31 * (31 * h + u[0]) + u[1]
  }

  /** The polynomial of the UTF-16 code units, character by character. */
  function UnitPolynomial(s: string): int {
    if s == [] then 0 else Push(UnitPolynomial(s[..|s| - 1]), CharUnits(s[|s| - 1]))
  }

  /** Appending one character's code units continues the polynomial. */
  lemma PolynomialAppend(a: seq<int>, u: seq<int>)
    requires |u| == 1 || |u| == 2
    ensures Polynomial(a + u) == Push(Polynomial(a), u)
  {
    if |u| == 1 {
      assert (a + u)[..|a|] == a;
    } else {
      assert (a + u)[..|a| + 1] == a + [u[0]];
      assert (a + [u[0]])[..|a|] == a;
    }
  }

  /** The character-by-character polynomial is the polynomial of the code units. */
  lemma {:induction false} UnitPolynomialIsPolynomial(s: string)
    ensures UnitPolynomial(s) == Polynomial(Utf16(s))
  {
    if s != [] {
      UnitPolynomialIsPolynomial(s[..|s| - 1]);
      PolynomialAppend(Utf16(s[..|s| - 1]), CharUnits(s[|s| - 1]));
    }
  }

  /** Java's `String.hashCode`: the polynomial of the UTF-16 code units reduced to 32 bits. */
  function JavaHash(s: string): int {
    Wrap32(UnitPolynomial(s))
  }

  function Abs(x: int): nat {
    if x < 0 then -x else x
  }

  /**
   * `generateNotificationId`: `hash = ((hash << 5) - hash) + code`, kept to
   * 32 bits after each character, and the absolute value at the end.
   */
  method GenerateNotificationId(s: string) returns (id: nat)
    ensures id == Abs(JavaHash(s))
    ensures id <= Two31
  {
    var units := Utf16(s);
    var hash := 0;
    var i := 0;
    while i < |units|
      invariant 0 <= i <= |units|
      invariant hash == Wrap32(Polynomial(units[..i]))
    {
      var code := units[i];
      assert units[..i + 1][..i] == units[..i];
      WrapStep(Polynomial(units[..i]), code);
      hash := Wrap32(31 * hash + code);
      i := i + 1;
    }
    assert units[..i] == units;
    UnitPolynomialIsPolynomial(s);
    return Abs(hash);
  }

  /** The empty id hashes to 0, and a one-character id below U+10000 to its code. */
  lemma HashOfShort(c: char)
    requires c as int < 0x1_0000
    ensures JavaHash("") == 0
    ensures JavaHash([c]) == c as int
  {
    assert [c][..0] == [];
  }

  /** A one-character id above U+FFFF hashes its two surrogates. */
  lemma HashOfAstral(c: char)
    requires c as int >= 0x1_0000
    ensures JavaHash([c]) == 31 * CharUnits(c)[0] + CharUnits(c)[1]
  {
    assert [c][..0] == [];
    assert UnitPolynomial([c]) == Push(0, CharUnits(c));
    CharUnitsDecode(c);
  }

  // ---------------------------------------------------------------- weekdays

  const FullDays: seq<string> := ["sunday", "monday", "tuesday", "wednesday", "thursday", "friday", "saturday"]
  const ShortDays: seq<string> := ["sun", "mon", "tue", "wed", "thu", "fri", "sat"]

  /** The first index from `i` on whose full or short name is `d`. */
  function FindDay(d: string, i: nat): (r: Option<nat>)
    requires i <= 7
    ensures r.Some? ==> i <= r.value < 7 && (d == FullDays[r.value] || d == ShortDays[r.value])
    decreases 7 - i
  {
    if i == 7 then None
    else if d == FullDays[i] || d == ShortDays[i] then Some(i)
    else FindDay(d, i + 1)
  }

  /** `dayMap[day.toLowerCase()]`: full and three-letter English names, Sunday first. */
  function DayIndex(day: string): (r: Option<nat>)
    ensures r.Some? ==> r.value < 7
  {
    FindDay(ToLower(day), 0)
  }

  /** A lower-case name is its own lower case. */
  lemma LowerOfLower(s: string)
    requires forall i :: 0 <= i < |s| ==> 'a' <= s[i] <= 'z'
    ensures ToLower(s) == s
  {
  }

  /** The fourteen names are pairwise different except for the pairs of one day. */
  lemma NamesDistinct(i: nat, j: nat)
    requires i < 7 && j < 7 && i != j
    ensures FullDays[j] != FullDays[i] && ShortDays[j] != FullDays[i]
    ensures FullDays[j] != ShortDays[i] && ShortDays[j] != ShortDays[i]
  {
    assert forall k :: 0 <= k < 7 ==> |FullDays[k]| >= 6 && |ShortDays[k]| == 3;
    assert forall k, l :: 0 <= k < 7 && 0 <= l < 7 && k != l ==> ShortDays[k] != ShortDays[l];
    ShortIsPrefix(i);
    ShortIsPrefix(j);
  }

  lemma {:induction false} FindDayAt(d: string, i: nat, k: nat)
    requires i <= k < 7 && (d == FullDays[k] || d == ShortDays[k])
    ensures FindDay(d, i) == Some(k)
    decreases 7 - i
  {
    if i < k {
      NamesDistinct(k, i);
      FindDayAt(d, i + 1, k);
    }
  }

  lemma LowerNames(i: nat)
    requires i < 7
    ensures ToLower(FullDays[i]) == FullDays[i] && ToLower(ShortDays[i]) == ShortDays[i]
  {
    var f, t := FullDays[i], ShortDays[i];
    assert forall k :: 0 <= k < |f| ==> 'a' <= f[k] <= 'z' by {
      if i == 0 {} else if i == 1 {} else if i == 2 {} else if i == 3 {} else if i == 4 {} else if i == 5 {} else {}
    }
    assert forall k :: 0 <= k < |t| ==> 'a' <= t[k] <= 'z' by {
      if i == 0 {} else if i == 1 {} else if i == 2 {} else if i == 3 {} else if i == 4 {} else if i == 5 {} else {}
    }
    LowerOfLower(f);
    LowerOfLower(t);
  }

  lemma ShortIsPrefix(i: nat)
    requires i < 7
    ensures ShortDays[i] == FullDays[i][..3]
  {
    if i == 0 {} else if i == 1 {} else if i == 2 {} else if i == 3 {} else if i == 4 {} else if i == 5 {} else {}
  }

  /** Both spellings of the `i`-th day (from Sunday) name the index `i`; the short one is the full one's first three letters. */
  lemma DayNamesAgree(i: nat)
    requires i < 7
    ensures ShortDays[i] == FullDays[i][..3]
    ensures DayIndex(FullDays[i]) == Some(i) && DayIndex(ShortDays[i]) == Some(i)
  {
    ShortIsPrefix(i);
    LowerNames(i);
    FindDayAt(FullDays[i], 0, i);
    FindDayAt(ShortDays[i], 0, i);
  }

  // ---------------------------------------------------------------- next occurrence

  /** How many days ahead the reminder goes: the weekday difference, a week later when it is behind or already past today. */
  function DaysUntil(target: nat, current: nat, passed: bool): (d: int)
    requires target < 7 && current < 7
    ensures 0 <= d <= 7
    ensures (d - (target - current)) % 7 == 0
    ensures d == 0 ==> target == current && !passed
    ensures d == 7 ==> target == current && passed
  {
    var d := target - current;
    if d < 0 || (d == 0 && passed) then d + 7 else d
  }

  /**
   * `scheduleReminder`'s instant for weekday `target` and `minute` past
   * midnight: today at that minute (`midnight` is the start of today,
   * `weekday` its day, Sunday = 0), moved forward by `DaysUntil`.
   */
  function CallAt(target: nat, minute: int, now: int, midnight: int, weekday: nat): int
    requires target < 7 && weekday < 7
  {
    var at := midnight + minute * MinuteMs;
    at + DaysUntil(target, weekday, at <= now) * DayMs
  }

  /** The call instant is strictly in the future, less than eight days away, a whole number of days after today's slot. */
  lemma CallAtAhead(target: nat, minute: int, now: int, midnight: int, weekday: nat)
    requires target < 7 && weekday < 7 && midnight <= now < midnight + DayMs && 0 <= minute < 1440
    ensures var at := CallAt(target, minute, now, midnight, weekday);
      now < at < now + WeekMs + DayMs
      && exists d :: 0 <= d <= 7 && (d - (target - weekday)) % 7 == 0 && at == midnight + minute * MinuteMs + d * DayMs
  {
    var d := DaysUntil(target, weekday, midnight + minute * MinuteMs <= now);
    assert CallAt(target, minute, now, midnight, weekday) == midnight + minute * MinuteMs + d * DayMs;
  }

  /** The reminder's instant: `None` when the day or the time cannot be read (an invalid date). */
  function CallInstant(day: string, time: string, now: int, midnight: int, weekday: nat): (r: Option<int>)
    requires weekday < 7
    ensures r.Some? <==> DayIndex(day).Some? && ParseHm(time).Some?
  {
    var target := DayIndex(day);
    var hm := ParseHm(time);
    if target.None? || hm.None? then None
    else Some(CallAt(target.value, MinuteOfDay(hm.value), now, midnight, weekday))
  }

  /** A call reminder is always strictly in the future, at most eight days away, on the chosen weekday at the time. */
  lemma CallInstantAhead(day: string, time: string, now: int, midnight: int, weekday: nat)
    requires weekday < 7 && midnight <= now < midnight + DayMs
    requires CallInstant(day, time, now, midnight, weekday).Some?
    requires MinuteOfDay(ParseHm(time).value) < 1440
    ensures var at := CallInstant(day, time, now, midnight, weekday).value;
      now < at < now + WeekMs + DayMs
      && (exists d :: 0 <= d <= 7 && (d - (DayIndex(day).value - weekday)) % 7 == 0
           && at == midnight + MinuteOfDay(ParseHm(time).value) * MinuteMs + d * DayMs)
  {
    CallAtAhead(DayIndex(day).value, MinuteOfDay(ParseHm(time).value), now, midnight, weekday);
  }

  /** `scheduleMotivationReminder`'s instant as written: ten minutes before the slot, with the day offset decided on that instant. */
  function MotivationAtAsWritten(target: nat, minute: int, now: int, midnight: int, weekday: nat): int
    requires target < 7 && weekday < 7
  {
    var at := midnight + minute * MinuteMs - MotivationLeadMs;
    at + DaysUntil(target, weekday, at <= now) * DayMs
  }

  function MotivationInstantAsWritten(day: string, time: string, now: int, midnight: int, weekday: nat): (r: Option<int>)
    requires weekday < 7
    ensures r.Some? <==> CallInstant(day, time, now, midnight, weekday).Some?
  {
    var target := DayIndex(day);
    var hm := ParseHm(time);
    if target.None? || hm.None? then None
    else Some(MotivationAtAsWritten(target.value, MinuteOfDay(hm.value), now, midnight, weekday))
  }

  lemma TuesdayIndex()
    ensures DayIndex("tuesday") == Some(2)
  {
    LowerOfLower("tuesday");
  }

  lemma FiveAfterMidnight()
    ensures ParseHm("00:05") == Some((0, 5))
  {
    ParseHmOfPadded(0, 5);
    assert Pad2(0) + ":" + Pad2(5) == "00:05";
  }

  /**
   * A call a few minutes after midnight on the next day gets its motivation
   * reminder at 23:55 today, which can already be past: at 23:58 on a
   * Monday, a Tuesday 00:05 call is reminded at 23:55 on that Monday.
   */
  lemma MotivationCanBePast()
    ensures MotivationInstantAsWritten("tuesday", "00:05", DayMs - 2 * MinuteMs, 0, 1) == Some(DayMs - 5 * MinuteMs)
    ensures DayMs - 5 * MinuteMs < DayMs - 2 * MinuteMs
  {
    TuesdayIndex();
    FiveAfterMidnight();
    assert MotivationAtAsWritten(2, 5, DayMs - 2 * MinuteMs, 0, 1) == DayMs - 5 * MinuteMs;
  }

  /**
   * The motivation reminder as intended: ten minutes before the next call
   * slot on the chosen weekday, and never before now.
   */
  function MotivationAt(target: nat, minute: int, now: int, midnight: int, weekday: nat): int
    requires target < 7 && weekday < 7
  {
    var at := midnight + ((target - weekday) % 7) * DayMs + minute * MinuteMs - MotivationLeadMs;
    if at <= now then at + WeekMs else at
  }

  /** The intended instant is strictly ahead and at most a week away, ten minutes before a slot of the weekday. */
  lemma MotivationAtAhead(target: nat, minute: int, now: int, midnight: int, weekday: nat)
    requires target < 7 && weekday < 7 && midnight <= now < midnight + DayMs && 0 <= minute < 1440
    ensures var at := MotivationAt(target, minute, now, midnight, weekday);
      now < at <= now + WeekMs
      && exists k :: 0 <= k <= 1 && at + MotivationLeadMs == midnight + ((target - weekday) % 7 + 7 * k) * DayMs + minute * MinuteMs
  {
    var base := midnight + ((target - weekday) % 7) * DayMs + minute * MinuteMs - MotivationLeadMs;
    if base <= now {
      assert base + MotivationLeadMs + 7 * DayMs == midnight + ((target - weekday) % 7 + 7 * 1) * DayMs + minute * MinuteMs;
    } else {
      assert base + MotivationLeadMs == midnight + ((target - weekday) % 7 + 7 * 0) * DayMs + minute * MinuteMs;
    }
  }

  function MotivationInstant(day: string, time: string, now: int, midnight: int, weekday: nat): (r: Option<int>)
    requires weekday < 7
    ensures r.Some? <==> CallInstant(day, time, now, midnight, weekday).Some?
  {
    var target := DayIndex(day);
    var hm := ParseHm(time);
    if target.None? || hm.None? then None
    else Some(MotivationAt(target.value, MinuteOfDay(hm.value), now, midnight, weekday))
  }

  /** The intended reminder is strictly ahead and at most a week away, ten minutes before a slot of the weekday. */
  lemma MotivationInstantAhead(day: string, time: string, now: int, midnight: int, weekday: nat)
    requires weekday < 7 && midnight <= now < midnight + DayMs
    requires MotivationInstant(day, time, now, midnight, weekday).Some?
    requires MinuteOfDay(ParseHm(time).value) < 1440
    ensures var at := MotivationInstant(day, time, now, midnight, weekday).value;
      now < at <= now + WeekMs
      && exists k :: 0 <= k <= 1 && at + MotivationLeadMs == midnight
           + ((DayIndex(day).value - weekday) % 7 + 7 * k) * DayMs + MinuteOfDay(ParseHm(time).value) * MinuteMs
  {
    MotivationAtAhead(DayIndex(day).value, MinuteOfDay(ParseHm(time).value), now, midnight, weekday);
  }

  /** For a slot at least ten minutes after midnight the written instant is the intended one. */
  lemma MotivationAtAgrees(target: nat, minute: int, now: int, midnight: int, weekday: nat)
    requires target < 7 && weekday < 7 && midnight <= now < midnight + DayMs
    requires minute * MinuteMs >= MotivationLeadMs
    ensures MotivationAtAsWritten(target, minute, now, midnight, weekday) == MotivationAt(target, minute, now, midnight, weekday)
  {
    var delta := target - weekday;
    if delta >= 0 {
      assert delta % 7 == delta;
    } else {
      assert delta % 7 == delta + 7;
    }
  }

  /** For a time at least ten minutes after midnight the written reminder is the intended one. */
  lemma MotivationAgreesLaterInDay(day: string, time: string, now: int, midnight: int, weekday: nat)
    requires weekday < 7 && midnight <= now < midnight + DayMs
    requires MotivationInstantAsWritten(day, time, now, midnight, weekday).Some?
    requires MinuteOfDay(ParseHm(time).value) * MinuteMs >= MotivationLeadMs
    ensures MotivationInstantAsWritten(day, time, now, midnight, weekday)
         == MotivationInstant(day, time, now, midnight, weekday)
  {
    MotivationAtAgrees(DayIndex(day).value, MinuteOfDay(ParseHm(time).value), now, midnight, weekday);
  }

  // ---------------------------------------------------------------- taps

  /** `handleNotificationAction`: nothing without data, else the screen for the notification's type. */
  function ActionRoute(data: Option<Option<string>>): (r: Option<string>)
    ensures data.None? <==> r.None?
    ensures data == Some(Some("incoming_call")) ==> r == Some("/incoming-call")
    ensures data == Some(Some("analysis_report")) ==> r == Some("/analysis")
    ensures data.Some? && data.value != Some("incoming_call") && data.value != Some("analysis_report") ==> r == Some("/")
  {
    if data.None? then None
    else if data.value == Some("incoming_call") then Some("/incoming-call")
    else if data.value == Some("analysis_report") then Some("/analysis")
    else Some("/")
  }

  // ---------------------------------------------------------------- the service

  datatype Notification = Notification(id: nat, at: Option<int>, kind: string, scheduleId: string)

  /** One stored weekly slot: the day name and its list of `HH:MM` times. */
  datatype DaySlots = DaySlots(day: string, times: seq<string>)

  /** `${day}-${time}`, the schedule id of a slot. */
  function SlotId(day: string, time: string): string {
    day + "-" + time
  }

  /** The two notifications `syncReminders` plans for one slot: the call, then the motivation reminder. */
  function SlotPlan(day: string, time: string, now: int, midnight: int, weekday: nat): seq<Notification>
    requires weekday < 7
  {
    var id := SlotId(day, time);
    [Notification(Abs(JavaHash(id)), CallInstant(day, time, now, midnight, weekday), "incoming_call", id),
     Notification(Abs(JavaHash("motivation-" + id)), MotivationInstant(day, time, now, midnight, weekday),
                  "reminder", id)]
  }

  /** The plan for the first `j` times of one day. */
  function DayPlan(day: string, times: seq<string>, now: int, midnight: int, weekday: nat): (r: seq<Notification>)
    requires weekday < 7
    ensures |r| == 2 * |times|
  {
    if times == [] then []
    else DayPlan(day, times[..|times| - 1], now, midnight, weekday)
         + SlotPlan(day, times[|times| - 1], now, midnight, weekday)
  }

  /** The plan for every stored slot, day by day in stored order. */
  function Plan(slots: seq<DaySlots>, now: int, midnight: int, weekday: nat): (r: seq<Notification>)
    requires weekday < 7
  {
    if slots == [] then []
    else Plan(slots[..|slots| - 1], now, midnight, weekday)
         + DayPlan(slots[|slots| - 1].day, slots[|slots| - 1].times, now, midnight, weekday)
  }

  lemma DayPlanStep(day: string, times: seq<string>, j: nat, now: int, midnight: int, weekday: nat)
    requires weekday < 7 && j < |times|
    ensures DayPlan(day, times[..j + 1], now, midnight, weekday)
         == DayPlan(day, times[..j], now, midnight, weekday) + SlotPlan(day, times[j], now, midnight, weekday)
  {
    assert times[..j + 1][..j] == times[..j];
  }

  lemma PlanStep(slots: seq<DaySlots>, i: nat, now: int, midnight: int, weekday: nat)
    requires weekday < 7 && i < |slots|
    ensures Plan(slots[..i + 1], now, midnight, weekday)
         == Plan(slots[..i], now, midnight, weekday) + DayPlan(slots[i].day, slots[i].times, now, midnight, weekday)
  {
    assert slots[..i + 1][..i] == slots[..i];
  }

  function TotalSlots(slots: seq<DaySlots>): nat {
    if slots == [] then 0 else TotalSlots(slots[..|slots| - 1]) + |slots[|slots| - 1].times|
  }

  /** Every slot gets exactly one call and one motivation reminder. */
  lemma {:induction false} PlanSize(slots: seq<DaySlots>, now: int, midnight: int, weekday: nat)
    requires weekday < 7
    ensures |Plan(slots, now, midnight, weekday)| == 2 * TotalSlots(slots)
  {
    if slots != [] {
      PlanSize(slots[..|slots| - 1], now, midnight, weekday);
    }
  }

  /** The service's state and the device's pending local notifications. */
  class Service {
    var isInitialized: bool
    var pushToken: Option<string>
    var pending: seq<Notification>

    constructor ()
      ensures !isInitialized && pushToken.None? && pending == []
    {
      isInitialized := false;
      pushToken := None;
      pending := [];
    }

    /**
     * `initialize`: runs the setup once; the service counts as initialized
     * afterwards whatever the platform and whether the setup succeeded.
     */
    method Initialize(native: bool, setupSucceeds: bool, token: Option<string>) returns (attempted: bool)
      modifies this
      ensures isInitialized && pending == old(pending)
      ensures attempted <==> !old(isInitialized) && native
      ensures !attempted ==> pushToken == old(pushToken)
      ensures attempted && setupSucceeds && token.Some? ==> pushToken == token
    {
      if isInitialized {
        return false;
      }
      if !native {
        isInitialized := true;
        return false;
      }
      if setupSucceeds && token.Some? {
        pushToken := token;
      }
      isInitialized := true;
      return true;
    }

    /** `scheduleReminder`: nothing off-native or with reminders off; else one call notification more. */
    method ScheduleReminder(native: bool, enabled: bool, id: string, day: string, time: string,
                            now: int, midnight: int, weekday: nat)
      returns (at: Option<int>)
      requires weekday < 7
      modifies this
      ensures !native || !enabled ==> pending == old(pending) && at.None?
      ensures native && enabled ==>
        at == CallInstant(day, time, now, midnight, weekday)
        && pending == old(pending) + [Notification(Abs(JavaHash(id)), at, "incoming_call", id)]
      ensures isInitialized == old(isInitialized) && pushToken == old(pushToken)
    {
      if !native || !enabled {
        return None;
      }
      at := CallInstant(day, time, now, midnight, weekday);
      var nid := GenerateNotificationId(id);
      pending := pending + [Notification(nid, at, "incoming_call", id)];
    }

    /**
     * `scheduleMotivationReminder`: as `ScheduleReminder`, ten minutes earlier,
     * under the id `motivation-` + id, at the intended instant `MotivationInstant`
     * (the written code can land in the past, see `MotivationCanBePast`).
     */
    method ScheduleMotivationReminder(native: bool, enabled: bool, id: string, day: string, time: string,
                                      now: int, midnight: int, weekday: nat)
      returns (at: Option<int>)
      requires weekday < 7
      modifies this
      ensures !native || !enabled ==> pending == old(pending) && at.None?
      ensures native && enabled ==>
        at == MotivationInstant(day, time, now, midnight, weekday)
        && pending == old(pending) + [Notification(Abs(JavaHash("motivation-" + id)), at, "reminder", id)]
      ensures isInitialized == old(isInitialized) && pushToken == old(pushToken)
    {
      if !native || !enabled {
        return None;
      }
      at := MotivationInstant(day, time, now, midnight, weekday);
      var nid := GenerateNotificationId("motivation-" + id);
      pending := pending + [Notification(nid, at, "reminder", id)];
    }

    /**
     * `syncReminders`: off-native nothing happens; otherwise every pending
     * notification is cancelled, and with reminders on each stored slot is
     * scheduled again, its call first and then its motivation reminder.
     */
    method SyncReminders(native: bool, enabled: bool, slots: seq<DaySlots>, now: int, midnight: int, weekday: nat)
      requires weekday < 7
      modifies this
      ensures !native ==> pending == old(pending)
      ensures native && !enabled ==> pending == []
      ensures native && enabled ==> pending == Plan(slots, now, midnight, weekday)
      ensures isInitialized == old(isInitialized) && pushToken == old(pushToken)
    {
      if !native {
        return;
      }
      pending := [];
      if !enabled {
        return;
      }
      var i := 0;
      while i < |slots|
        invariant 0 <= i <= |slots|
        invariant pending == Plan(slots[..i], now, midnight, weekday)
        invariant isInitialized == old(isInitialized) && pushToken == old(pushToken)
      {
        ScheduleDay(slots[i].day, slots[i].times, now, midnight, weekday);
        PlanStep(slots, i, now, midnight, weekday);
        i := i + 1;
      }
      assert slots[..i] == slots;
    }

    /** The inner loop of `syncReminders`: each time of one day, its call first, then its motivation reminder. */
    method ScheduleDay(day: string, times: seq<string>, now: int, midnight: int, weekday: nat)
      requires weekday < 7
      modifies this
      ensures pending == old(pending) + DayPlan(day, times, now, midnight, weekday)
      ensures isInitialized == old(isInitialized) && pushToken == old(pushToken)
    {
      var j := 0;
      while j < |times|
        invariant 0 <= j <= |times|
        invariant pending == old(pending) + DayPlan(day, times[..j], now, midnight, weekday)
        invariant isInitialized == old(isInitialized) && pushToken == old(pushToken)
      {
        var id := SlotId(day, times[j]);
        var before := pending;
        var _ := ScheduleReminder(true, true, id, day, times[j], now, midnight, weekday);
        var _ := ScheduleMotivationReminder(true, true, id, day, times[j], now, midnight, weekday);
        assert pending == before + SlotPlan(day, times[j], now, midnight, weekday);
        DayPlanStep(day, times, j, now, midnight, weekday);
        j := j + 1;
      }
      assert times[..j] == times;
    }

    /** `getPushToken`: the token of this run, else the stored one. */
    function PushToken(stored: Option<string>): (r: Option<string>)
      reads this
      ensures pushToken.Some? && pushToken.value != "" ==> r == pushToken
      ensures (pushToken.None? || pushToken.value == "") ==> r == stored
    {
      if pushToken.Some? && pushToken.value != "" then pushToken else stored
    }
  }
}
