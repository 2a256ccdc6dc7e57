/**
 * The automatic offers of the morning quiz and the review call: each is
 * offered when enabled, inside five minutes of its set time and not already
 * run in the last 24 hours; opening one records its run.
 */
module FeatureScheduler {
  import opened Wrappers
  import opened ClockTime
  import Helpers

  const DefaultWindowMinutes: nat := 5

  function Abs(x: int): nat {
    if x < 0 then -x else x
  }

  /**
   * `isTimeInWindow`: false for an empty or unreadable time, else whether
   * now is within `window` minutes of today's instance of the time.
   * `midnight` is the instant today began in local time.
   */
  function InWindow(time: string, window: nat, now: int, midnight: int): (r: bool)
    ensures time == "" ==> !r
    ensures r <==> (time != "" && ParseHm(time).Some?
                    && Abs(now - (midnight + MinuteOfDay(ParseHm(time).value) * MinuteMs)) <= window * MinuteMs)
  {
    if time == "" then false
    else
      var hm := ParseHm(time);
      hm.Some? && Abs(now - (midnight + MinuteOfDay(hm.value) * MinuteMs)) <= window * MinuteMs
  }

  /** The window is symmetric: five minutes early and five minutes late both count, six do not. */
  lemma WindowEdges(time: string, midnight: int)
    requires ParseHm(time).Some? && time != ""
    ensures var at := midnight + MinuteOfDay(ParseHm(time).value) * MinuteMs;
      InWindow(time, DefaultWindowMinutes, at - 5 * MinuteMs, midnight)
      && InWindow(time, DefaultWindowMinutes, at + 5 * MinuteMs, midnight)
      && !InWindow(time, DefaultWindowMinutes, at + 6 * MinuteMs, midnight)
      && !InWindow(time, DefaultWindowMinutes, at - 6 * MinuteMs, midnight)
  {
  }

  /** `hasExecutedToday`: a recorded run less than 24 hours before now. */
  function RanWithinDay(executions: map<string, int>, feature: string, now: int): (r: bool)
    ensures feature !in executions ==> !r
    ensures feature in executions ==> (r <==> now - executions[feature] < DayMs)
  {
    feature in executions && now - executions[feature] < DayMs
  }

  datatype Schedule = Schedule(morningQuizEnabled: bool, morningQuizTime: string,
                               reviewCallEnabled: bool, reviewCallTime: string)

  /** The fields a caller passes to `saveScheduleSettings`; absent ones are kept. */
  datatype ScheduleUpdate = ScheduleUpdate(morningQuizEnabled: Option<bool>, morningQuizTime: Option<string>,
                                           reviewCallEnabled: Option<bool>, reviewCallTime: Option<string>)

  const DefaultSchedule := Schedule(true, "07:00", true, "20:00")

  /** `{ ...current, ...settings }`. */
  function Overlay(current: Schedule, update: ScheduleUpdate): (r: Schedule)
    ensures r.morningQuizEnabled == update.morningQuizEnabled.GetOr(current.morningQuizEnabled)
    ensures r.morningQuizTime == update.morningQuizTime.GetOr(current.morningQuizTime)
    ensures r.reviewCallEnabled == update.reviewCallEnabled.GetOr(current.reviewCallEnabled)
    ensures r.reviewCallTime == update.reviewCallTime.GetOr(current.reviewCallTime)
  {
    Schedule(update.morningQuizEnabled.GetOr(current.morningQuizEnabled),
             update.morningQuizTime.GetOr(current.morningQuizTime),
             update.reviewCallEnabled.GetOr(current.reviewCallEnabled),
             update.reviewCallTime.GetOr(current.reviewCallTime))
  }

  /** Overlaying is idempotent, and an empty update changes nothing. */
  lemma OverlayLaws(current: Schedule, update: ScheduleUpdate)
    ensures Overlay(Overlay(current, update), update) == Overlay(current, update)
    ensures Overlay(current, ScheduleUpdate(None, None, None, None)) == current
  {
  }

  /** The schedule and run records stored on the device. */
  class Scheduler {
    var schedule: Option<Helpers.Entry<Schedule>>
    var executions: Option<Helpers.Entry<map<string, int>>>

    constructor (schedule: Option<Helpers.Entry<Schedule>>, executions: Option<Helpers.Entry<map<string, int>>>)
      ensures this.schedule == schedule && this.executions == executions
    {
      this.schedule := schedule;
      this.executions := executions;
    }

    /** `getScheduleSettings`: the stored schedule, or the defaults. */
    function Settings(): (r: Schedule)
      reads this
      ensures schedule.None? || schedule.value.Unparsable? ==> r == DefaultSchedule
    {
      if schedule.Some? && schedule.value.Parsed? then schedule.value.value else DefaultSchedule
    }

    /** The recorded runs, none when missing or unreadable. */
    function Runs(): map<string, int>
      reads this
    {
      if executions.Some? && executions.value.Parsed? then executions.value.value else map[]
    }

    /** `shouldShowMorningQuiz`. */
    predicate ShowMorningQuiz(now: int, midnight: int)
      reads this
    {
      Settings().morningQuizEnabled && !RanWithinDay(Runs(), "morningQuiz", now)
      && InWindow(Settings().morningQuizTime, DefaultWindowMinutes, now, midnight)
    }

    /** `shouldShowReviewCall`. */
    predicate ShowReviewCall(now: int, midnight: int)
      reads this
    {
      Settings().reviewCallEnabled && !RanWithinDay(Runs(), "reviewCall", now)
      && InWindow(Settings().reviewCallTime, DefaultWindowMinutes, now, midnight)
    }

    /** `checkAutoSchedule`: the morning quiz first, then the review call, else nothing. */
    function AutoSchedule(now: int, midnight: int): (r: Option<string>)
      reads this
      ensures r == Some("morningQuiz") <==> ShowMorningQuiz(now, midnight)
      ensures r == Some("reviewCall") <==> !ShowMorningQuiz(now, midnight) && ShowReviewCall(now, midnight)
      ensures r.None? <==> !ShowMorningQuiz(now, midnight) && !ShowReviewCall(now, midnight)
    {
      if ShowMorningQuiz(now, midnight) then Some("morningQuiz")
      else if ShowReviewCall(now, midnight) then Some("reviewCall")
      else None
    }

    /** `saveScheduleSettings`: the update laid over the current settings, which it returns. */
    method SaveSettings(update: ScheduleUpdate) returns (saved: Schedule)
      modifies this
      ensures saved == Overlay(old(Settings()), update)
      ensures schedule == Some(Helpers.Parsed(saved)) && executions == old(executions)
    {
      saved := Overlay(Settings(), update);
      schedule := Some(Helpers.Parsed(saved));
    }

    /** `saveLastExecutionTime`: the run time of one feature is now; the others' are kept. */
    method RecordRun(feature: string, now: int)
      modifies this
      ensures Runs() == old(Runs())[feature := now]
      ensures schedule == old(schedule)
    {
      executions := Some(Helpers.Parsed(Runs()[feature := now]));
    }

    /**
     * `navigateToFeature`: the run is recorded before the route is taken,
     * so the feature is not offered again for 24 hours.
     */
    method Navigate(feature: string, now: int) returns (route: Option<string>)
      modifies this
      ensures feature == "morningQuiz" ==> route == Some("/morning-quiz")
      ensures feature == "reviewCall" ==> route == Some("/review-call")
      ensures feature != "morningQuiz" && feature != "reviewCall" ==>
        route.None? && schedule == old(schedule) && executions == old(executions)
      ensures route.Some? ==> Runs() == old(Runs())[feature := now] && schedule == old(schedule)
      ensures feature == "morningQuiz" ==>
        forall later, midnight :: now <= later < now + DayMs ==> !ShowMorningQuiz(later, midnight)
      ensures feature == "reviewCall" ==>
        forall later, midnight :: now <= later < now + DayMs ==> !ShowReviewCall(later, midnight)
    {
      if feature == "morningQuiz" {
        RecordRun(feature, now);
        route := Some("/morning-quiz");
      } else if feature == "reviewCall" {
        RecordRun(feature, now);
        route := Some("/review-call");
      } else {
        route := None;
      }
    }
  }
}
