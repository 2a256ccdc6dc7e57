/**
 * The daily usage limits of the subscription plans, as the usage service
 * checks and counts them: a limit of -1 is unlimited, a type with a limit
 * is allowed while something remains, and a refused request counts nothing.
 */
module UsageLimits {
  import opened Wrappers
  import opened Text
  import Calendar

  const FreeLimits: map<string, int> := map["dailyChatCount" := 3, "dailyTtsCount" := 10, "dailyAnalyzeCount" := 1]
  const BasicLimits: map<string, int> := map["dailyChatCount" := 20, "dailyTtsCount" := 100, "dailyAnalyzeCount" := 5]
  const PremiumLimits: map<string, int> := map["dailyChatCount" := -1, "dailyTtsCount" := -1, "dailyAnalyzeCount" := -1]
  const PlanLimits: map<string, map<string, int>> := map["free" := FreeLimits, "basic" := BasicLimits,
                                                          "premium" := PremiumLimits]

  const KstOffsetMs: int := 9 * 60 * 60 * 1000
  const DayMs: int := 24 * 60 * 60 * 1000

  /** `getUserPlan`: the stored plan, `free` when there is none or it is empty. */
  function UserPlan(stored: Option<string>): (r: string)
    ensures r == "free" <==> stored.None? || stored.value == "" || stored.value == "free"
    ensures r != "free" ==> stored == Some(r)
  {
    if stored.Some? && stored.value != "" then stored.value else "free"
  }

  /** `the value || 0`. */
  function OrZero(v: Option<int>): int {
    if v.Some? then v.value else 0
  }

  function Lookup(m: map<string, int>, k: string): Option<int> {
    if k in m then Some(m[k]) else None
  }

  /** `getTodayUsage`: the three counters of a record, zero when it or a counter is missing. */
  function TodayUsage(record: Option<map<string, int>>): (u: map<string, int>)
    ensures u.Keys == {"chatCount", "ttsCount", "analyzeCount"}
    ensures record.None? ==> u == map["chatCount" := 0, "ttsCount" := 0, "analyzeCount" := 0]
    ensures record.Some? ==> forall k :: k in u ==> u[k] == OrZero(Lookup(record.value, k))
  {
    var r := record.GetOr(map[]);
    map["chatCount" := OrZero(Lookup(r, "chatCount")), "ttsCount" := OrZero(Lookup(r, "ttsCount")),
        "analyzeCount" := OrZero(Lookup(r, "analyzeCount"))]
  }

  /** The plan table's key for a usage type: `daily` + capitalised type + `Count`. */
  function LimitKey(usageType: string): string {
    "daily" + Capitalize(usageType) + "Count"
  }

  /** The usage record's key for a usage type. */
  function CountKey(usageType: string): string {
    usageType + "Count"
  }

  /** What remains: unlimited, a number, or `NaN` when the limit or the count is undefined. */
  datatype Quota = Unlimited | Left(n: nat) | NotANumber

  datatype Check = Check(allowed: bool, remaining: Quota, plan: string, current: Option<int>, limit: Option<int>)

  function Max0(n: int): nat {
    if n < 0 then 0 else n
  }

  /**
   * `checkLimit` once the plan and today's usage are read. A plan missing
   * from the table makes the lookup throw, modelled as `Err`.
   */
  function CheckLimit(plan: string, usage: map<string, int>, usageType: string): (r: Result<Check, string>)
    ensures r.Err? <==> plan !in PlanLimits
    ensures r.Ok? ==> r.value.plan == plan
    ensures r.Ok? && r.value.limit == Some(-1) ==> r.value.allowed && r.value.remaining == Unlimited
    ensures r.Ok? && r.value.limit.Some? && r.value.limit != Some(-1) && r.value.current.Some? ==>
      r.value.remaining == Left(Max0(r.value.limit.value - r.value.current.value))
      && (r.value.allowed <==> r.value.current.value < r.value.limit.value)
    ensures r.Ok? && r.value.limit != Some(-1) && (r.value.limit.None? || r.value.current.None?) ==>
      r.value.remaining == NotANumber && !r.value.allowed
    ensures r.Ok? ==> r.value.limit == Lookup(PlanLimits[plan], LimitKey(usageType))
    ensures r.Ok? ==> r.value.current == Lookup(usage, CountKey(usageType))
  {
    if plan !in PlanLimits then Err("TypeError")
    else
      var limit := Lookup(PlanLimits[plan], LimitKey(usageType));
      var current := Lookup(usage, CountKey(usageType));
      if limit == Some(-1) then Ok(Check(true, Unlimited, plan, current, limit))
      else if limit.None? || current.None? then Ok(Check(false, NotANumber, plan, current, limit))
      else
        var remaining := Max0(limit.value - current.value);
        Ok(Check(remaining > 0, Left(remaining), plan, current, limit))
  }

  lemma ChatKeys()
    ensures LimitKey("chat") == "dailyChatCount" && CountKey("chat") == "chatCount"
  {
    assert Capitalize("chat") == "Chat";
  }

  lemma TtsKeys()
    ensures LimitKey("tts") == "dailyTtsCount" && CountKey("tts") == "ttsCount"
  {
    assert Capitalize("tts") == "Tts";
  }

  lemma AnalyzeKeys()
    ensures LimitKey("analyze") == "dailyAnalyzeCount" && CountKey("analyze") == "analyzeCount"
  {
    assert Capitalize("analyze") == "Analyze";
  }

  /** The keys of the three known usage types. */
  lemma KnownKeys()
    ensures LimitKey("chat") == "dailyChatCount" && CountKey("chat") == "chatCount"
    ensures LimitKey("tts") == "dailyTtsCount" && CountKey("tts") == "ttsCount"
    ensures LimitKey("analyze") == "dailyAnalyzeCount" && CountKey("analyze") == "analyzeCount"
  {
    ChatKeys();
    TtsKeys();
    AnalyzeKeys();
  }

  /** Every known usage type has a limit in every plan and a counter in every usage report. */
  lemma KnownTypesHaveQuota(plan: string, record: Option<map<string, int>>, usageType: string)
    requires plan in PlanLimits && usageType in {"chat", "tts", "analyze"}
    ensures CheckLimit(plan, TodayUsage(record), usageType).Ok?
    ensures CheckLimit(plan, TodayUsage(record), usageType).value.remaining != NotANumber
  {
    KnownKeys();
    assert LimitKey(usageType) in PlanLimits[plan];
  }

  /** Premium is never refused; on the free plan a first chat of the day is allowed and a fourth is not. */
  lemma PlansBehave(record: Option<map<string, int>>, usageType: string)
    requires usageType in {"chat", "tts", "analyze"}
    ensures CheckLimit("premium", TodayUsage(record), usageType).value.allowed
    ensures CheckLimit("free", TodayUsage(None), "chat").value.remaining == Left(3)
    ensures !CheckLimit("free", TodayUsage(Some(map["chatCount" := 3])), "chat").value.allowed
  {
    KnownKeys();
    assert PremiumLimits[LimitKey(usageType)] == -1;
  }

  /** `getTodayDateString`: the UTC date of the instant nine hours later, i.e. the date in Korea. */
  function KstDay(ms: int): int {
    (ms + KstOffsetMs) / DayMs
  }

  function TodayDateString(ms: int): string {
    Calendar.IsoDate(Calendar.CivilFromDays(KstDay(ms)))
  }

  /** The Korean date changes exactly at Korean midnight, which is 15:00 UTC. */
  lemma KstDayBoundary(ms: int)
    ensures (ms + KstOffsetMs) % DayMs == 0 ==> KstDay(ms) == KstDay(ms - 1) + 1
    ensures (ms + KstOffsetMs) % DayMs != 0 ==> KstDay(ms) == KstDay(ms - 1)
  {
  }

  /** `getExpirationDate`: none on the free plan, else the date one `setMonth` step later. */
  function ExpirationDate(plan: string, now: Calendar.Civil): (r: Option<Calendar.Civil>)
    requires Calendar.ValidCivil(now)
    ensures r.None? <==> plan == "free"
  {
    if plan == "free" then None else Some(Calendar.SetMonth(now, now.month))
  }

  /** The step is `setMonth(getMonth() + 1)`: from 31 January it reaches 3 March. */
  lemma ExpirationOverflows()
    ensures ExpirationDate("basic", Calendar.Civil(2025, 1, 31)) == Some(Calendar.Civil(2025, 3, 3))
  {
    Calendar.SetMonthSkipsFebruary();
  }

  /** The two usage tables: each user's plan, and each user's counters per Korean date. */
  class UsageService {
    var plans: map<string, string>
    var counters: map<(string, string), map<string, int>>

    constructor ()
      ensures plans == map[] && counters == map[]
    {
      plans := map[];
      counters := map[];
    }

    function PlanOf(userId: string): string
      reads this
    {
      UserPlan(if userId in plans then Some(plans[userId]) else None)
    }

    function UsageOn(userId: string, today: string): map<string, int>
      reads this
    {
      TodayUsage(if (userId, today) in counters then Some(counters[(userId, today)]) else None)
    }

    /** `checkLimit(userId, usageType)`. */
    function CheckFor(userId: string, usageType: string, today: string): Result<Check, string>
      reads this
    {
      CheckLimit(PlanOf(userId), UsageOn(userId, today), usageType)
    }
  }

  datatype Outcome =
    | Incremented(plan: string, counts: map<string, int>)
    | LimitExceeded(check: Check)
    | Failed(error: string)

  /**
   * `handleIncrementUsage`: a refused check answers `USAGE_LIMIT_EXCEEDED`
   * and writes nothing; otherwise the type's counter goes up by one (from
   * zero when missing) and the new counters are reported.
   */
  method HandleIncrementUsage(svc: UsageService, userId: string, usageType: string, today: string)
    returns (r: Outcome)
    modifies svc
    ensures svc.plans == old(svc.plans)
    ensures old(svc.CheckFor(userId, usageType, today)).Err? <==> r.Failed?
    ensures r.Failed? || r.LimitExceeded? ==> svc.counters == old(svc.counters)
    ensures r.LimitExceeded? <==> (old(svc.CheckFor(userId, usageType, today)).Ok?
                                   && !old(svc.CheckFor(userId, usageType, today)).value.allowed)
    ensures r.LimitExceeded? ==> r.check == old(svc.CheckFor(userId, usageType, today)).value
    ensures r.Incremented? ==>
      var key := (userId, today);
      var prior := if key in old(svc.counters) then old(svc.counters)[key] else map[];
      var field := CountKey(usageType);
      svc.counters == old(svc.counters)[key := prior[field := OrZero(Lookup(prior, field)) + 1]]
      && r.counts == TodayUsage(Some(svc.counters[key])) && r.plan == svc.PlanOf(userId)
  {
    var check := CheckLimit(svc.PlanOf(userId), svc.UsageOn(userId, today), usageType);
    if check.Err? {
      return Failed(check.error);
    }
    if !check.value.allowed {
      return LimitExceeded(check.value);
    }
    var key := (userId, today);
    var prior := if key in svc.counters then svc.counters[key] else map[];
    var field := CountKey(usageType);
    svc.counters := svc.counters[key := prior[field := OrZero(Lookup(prior, field)) + 1]];
    return Incremented(svc.PlanOf(userId), TodayUsage(Some(svc.counters[key])));
  }

  /** An allowed increment of a known type raises exactly that counter of today's usage by one. */
  lemma IncrementRaisesOne(prior: map<string, int>, usageType: string)
    requires usageType in {"chat", "tts", "analyze"}
    ensures CountKey(usageType) in TodayUsage(Some(prior))
    ensures var field := CountKey(usageType);
      var after := TodayUsage(Some(prior[field := OrZero(Lookup(prior, field)) + 1]));
      var before := TodayUsage(Some(prior));
      after[field] == before[field] + 1
      && forall k :: k in before && k != field ==> after[k] == before[k]
  {
    KnownKeys();
  }
}
