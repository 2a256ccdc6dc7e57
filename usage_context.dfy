/**
 * The client's copy of today's usage: the counters it last loaded, the
 * plan's limits, and the upgrade dialog that opens when a type runs out.
 */
module UsageContext {
  import opened Wrappers
  import UsageLimits

  /** `getLimits`: the plan's limits, the free plan's for an unknown plan. */
  function LimitsOf(plan: string): (r: map<string, int>)
    ensures plan in UsageLimits.PlanLimits ==> r == UsageLimits.PlanLimits[plan]
    ensures plan !in UsageLimits.PlanLimits ==> r == UsageLimits.FreeLimits
    ensures r.Keys == {"dailyChatCount", "dailyTtsCount", "dailyAnalyzeCount"}
  {
    if plan in UsageLimits.PlanLimits then UsageLimits.PlanLimits[plan] else UsageLimits.FreeLimits
  }

  /** The usage view: the plan, the three counters and the upgrade dialog. */
  class Usage {
    var plan: string
    var chatCount: int
    var ttsCount: int
    var analyzeCount: int
    var showUpgradeModal: bool
    var limitType: Option<string>

    /** The initial state: free plan, nothing used, dialog closed. */
    constructor ()
      ensures plan == "free" && chatCount == 0 && ttsCount == 0 && analyzeCount == 0
      ensures !showUpgradeModal && limitType == None
    {
      plan := "free";
      chatCount := 0;
      ttsCount := 0;
      analyzeCount := 0;
      showUpgradeModal := false;
      limitType := None;
    }

    /** The counters as a usage report keyed like the server's. */
    function Counts(): map<string, int>
      reads this
    {
      map["chatCount" := chatCount, "ttsCount" := ttsCount, "analyzeCount" := analyzeCount]
    }

    /**
     * `getRemaining`: -1 for an unlimited type, else what is left of the
     * limit and never below zero; 0 for anything but the three types.
     */
    function Remaining(usageType: string): (r: int)
      reads this
      ensures r >= -1
      ensures usageType !in {"chat", "tts", "analyze"} ==> r == 0
      ensures usageType == "chat" ==>
        (if LimitsOf(plan)["dailyChatCount"] == -1 then r == -1
         else r == UsageLimits.Max0(LimitsOf(plan)["dailyChatCount"] - chatCount))
      ensures usageType == "tts" ==>
        (if LimitsOf(plan)["dailyTtsCount"] == -1 then r == -1
         else r == UsageLimits.Max0(LimitsOf(plan)["dailyTtsCount"] - ttsCount))
      ensures usageType == "analyze" ==>
        (if LimitsOf(plan)["dailyAnalyzeCount"] == -1 then r == -1
         else r == UsageLimits.Max0(LimitsOf(plan)["dailyAnalyzeCount"] - analyzeCount))
    {
      var limits := LimitsOf(plan);
      if usageType == "chat" then
        (if limits["dailyChatCount"] == -1 then -1 else UsageLimits.Max0(limits["dailyChatCount"] - chatCount))
      else if usageType == "tts" then
        (if limits["dailyTtsCount"] == -1 then -1 else UsageLimits.Max0(limits["dailyTtsCount"] - ttsCount))
      else if usageType == "analyze" then
        (if limits["dailyAnalyzeCount"] == -1 then -1
         else UsageLimits.Max0(limits["dailyAnalyzeCount"] - analyzeCount))
      else 0
    }

    /** `canUse`: unlimited, or something left. */
    predicate CanUse(usageType: string)
      reads this
    {
      var remaining := Remaining(usageType);
      remaining == -1 || remaining > 0
    }

    /** `checkAndShowLimit`: true and nothing changes when usable; else the dialog opens for the type. */
    method CheckAndShowLimit(usageType: string) returns (ok: bool)
      modifies this
      ensures ok <==> old(CanUse(usageType))
      ensures plan == old(plan) && chatCount == old(chatCount) && ttsCount == old(ttsCount)
      ensures analyzeCount == old(analyzeCount)
      ensures ok ==> showUpgradeModal == old(showUpgradeModal) && limitType == old(limitType)
      ensures !ok ==> showUpgradeModal && limitType == Some(usageType)
    {
      if CanUse(usageType) {
        return true;
      }
      limitType := Some(usageType);
      showUpgradeModal := true;
      return false;
    }

    /** `incrementLocal`: one more use of a known type; anything else changes nothing. */
    method IncrementLocal(usageType: string)
      modifies this
      ensures plan == old(plan) && showUpgradeModal == old(showUpgradeModal) && limitType == old(limitType)
      ensures chatCount == old(chatCount) + (if usageType == "chat" then 1 else 0)
      ensures ttsCount == old(ttsCount) + (if usageType == "tts" then 1 else 0)
      ensures analyzeCount == old(analyzeCount) + (if usageType == "analyze" then 1 else 0)
    {
      if usageType == "chat" {
        chatCount := chatCount + 1;
      } else if usageType == "tts" {
        ttsCount := ttsCount + 1;
      } else if usageType == "analyze" {
        analyzeCount := analyzeCount + 1;
      }
    }

    /** `closeUpgradeModal`: the dialog closes and forgets which type ran out. */
    method CloseUpgradeModal()
      modifies this
      ensures !showUpgradeModal && limitType == None
      ensures plan == old(plan) && chatCount == old(chatCount) && ttsCount == old(ttsCount)
      ensures analyzeCount == old(analyzeCount)
    {
      showUpgradeModal := false;
      limitType := None;
    }

    /**
     * `loadUsage`: without a signed-in user the plan becomes `free` and
     * nothing is fetched; a failed fetch changes nothing; a fetched report
     * sets the plan (`free` when empty) and counters (0 when missing).
     * `authenticated` is the sign-in check, `fetched` whether the request
     * came back.
     */
    method Load(authenticated: bool, fetched: bool,
                plan': Option<string>, chat: Option<int>, tts: Option<int>, analyze: Option<int>)
      modifies this
      ensures !authenticated ==> plan == "free"
      ensures authenticated && !fetched ==> plan == old(plan)
      ensures authenticated && fetched ==> plan == UsageLimits.UserPlan(plan')
      ensures authenticated && fetched ==>
        chatCount == UsageLimits.OrZero(chat) && ttsCount == UsageLimits.OrZero(tts)
        && analyzeCount == UsageLimits.OrZero(analyze)
      ensures !(authenticated && fetched) ==>
        chatCount == old(chatCount) && ttsCount == old(ttsCount) && analyzeCount == old(analyzeCount)
      ensures showUpgradeModal == old(showUpgradeModal) && limitType == old(limitType)
    {
      if !authenticated {
        plan := "free";
        return;
      }
      if !fetched {
        return;
      }
      plan := UsageLimits.UserPlan(plan');
      chatCount := UsageLimits.OrZero(chat);
      ttsCount := UsageLimits.OrZero(tts);
      analyzeCount := UsageLimits.OrZero(analyze);
    }
  }

  /**
   * For a known plan and type the client agrees with the server's check:
   * it may use the type exactly when the server would allow it.
   */
  lemma CanUseAgreesWithServer(u: Usage, usageType: string)
    requires u.plan in UsageLimits.PlanLimits && usageType in {"chat", "tts", "analyze"}
    ensures UsageLimits.CheckLimit(u.plan, u.Counts(), usageType).Ok?
    ensures u.CanUse(usageType) <==> UsageLimits.CheckLimit(u.plan, u.Counts(), usageType).value.allowed
  {
    UsageLimits.KnownKeys();
  }
}
