/**
 * Today's learning card: the three steps quiz, call and review, each
 * completed or available, the first open one recommended, and the count of
 * completed steps.
 */
module TodayProgress {
  import opened Wrappers
  import LearningCycle

  /** The steps in their order on the card. */
  const StepIds: seq<string> := ["quiz", "call", "review"]

  /** `progress?.<id>Done`: no progress loaded yet counts as not done. */
  predicate Done(progress: Option<LearningCycle.Progress>, id: string) {
    progress.Some? &&
    ((id == "quiz" && progress.value.quizDone)
     || (id == "call" && progress.value.callDone)
     || (id == "review" && progress.value.reviewDone))
  }

  /** `getStepStatus`: completed exactly when the step's flag is set; any other id is available. */
  function StepStatus(progress: Option<LearningCycle.Progress>, id: string): (r: string)
    ensures r == "completed" || r == "available"
    ensures r == "completed" <==> Done(progress, id)
  {
    if id == "quiz" then (if Done(progress, "quiz") then "completed" else "available")
    else if id == "call" then (if Done(progress, "call") then "completed" else "available")
    else if id == "review" then (if Done(progress, "review") then "completed" else "available")
    else "available"
  }

  /** `getCurrentRecommended`: the first step in order that is not done, or none when all are. */
  function Recommended(progress: Option<LearningCycle.Progress>): (r: Option<string>)
    ensures r.None? <==> forall k :: 0 <= k < |StepIds| ==> Done(progress, StepIds[k])
    ensures r.Some? ==> exists k :: (0 <= k < |StepIds| && StepIds[k] == r.value
      && !Done(progress, StepIds[k]) && forall j :: 0 <= j < k ==> Done(progress, StepIds[j]))
  {
    if !Done(progress, "quiz") then
      assert StepIds[0] == "quiz";
      Some("quiz")
    else if !Done(progress, "call") then
      assert StepIds[0] == "quiz" && StepIds[1] == "call";
      Some("call")
    else if !Done(progress, "review") then
      assert StepIds[0] == "quiz" && StepIds[1] == "call" && StepIds[2] == "review";
      Some("review")
    else
      assert forall k :: 0 <= k < |StepIds| ==> StepIds[k] in {"quiz", "call", "review"};
      None
  }

  datatype Step = Step(id: string, number: nat, caption: string, status: string, isRecommended: bool)

  /** The card's `steps` array. */
  function Steps(progress: Option<LearningCycle.Progress>): (r: seq<Step>)
    ensures |r| == |StepIds|
    ensures forall k :: 0 <= k < |r| ==>
      r[k].id == StepIds[k] && r[k].number == k + 1 && r[k].status == StepStatus(progress, StepIds[k])
      && (r[k].isRecommended <==> Recommended(progress) == Some(StepIds[k]))
  {
    var rec := Recommended(progress);
    [Step("quiz", 1, "퀴즈", StepStatus(progress, "quiz"), rec == Some("quiz")),
     Step("call", 2, "수업", StepStatus(progress, "call"), rec == Some("call")),
     Step("review", 3, "복습", StepStatus(progress, "review"), rec == Some("review"))]
  }

  /** At most one step is recommended, and the recommended step is never completed. */
  lemma AtMostOneRecommended(progress: Option<LearningCycle.Progress>, i: nat, j: nat)
    requires i < j < |Steps(progress)|
    ensures !(Steps(progress)[i].isRecommended && Steps(progress)[j].isRecommended)
    ensures Steps(progress)[i].isRecommended ==> Steps(progress)[i].status == "available"
  {
    var s := Steps(progress);
    assert StepIds[0] != StepIds[1] && StepIds[1] != StepIds[2] && StepIds[0] != StepIds[2];
    if s[i].isRecommended {
      var k :| 0 <= k < |StepIds| && StepIds[k] == Recommended(progress).value
        && !Done(progress, StepIds[k]) && forall j :: 0 <= j < k ==> Done(progress, StepIds[j]);
      assert StepIds[i] == StepIds[k];
    }
  }

  /** `steps.filter(s => s.status === 'completed').length`. */
  function CompletedCount(steps: seq<Step>): (n: nat)
    ensures n <= |steps|
  {
    if steps == [] then 0
    else CompletedCount(steps[..|steps| - 1]) + (if steps[|steps| - 1].status == "completed" then 1 else 0)
  }

  /** The count is the number of done flags, and every step is completed exactly when it reaches three. */
  lemma CompletedCountIsDoneFlags(progress: Option<LearningCycle.Progress>)
    ensures CompletedCount(Steps(progress)) ==
      (if Done(progress, "quiz") then 1 else 0) + (if Done(progress, "call") then 1 else 0)
      + (if Done(progress, "review") then 1 else 0)
    ensures CompletedCount(Steps(progress)) == |Steps(progress)|
      <==> Done(progress, "quiz") && Done(progress, "call") && Done(progress, "review")
  {
    var s := Steps(progress);
    assert s[..3] == s && s[..3][..2] == s[..2] && s[..2][..1] == s[..1] && s[..1][..0] == [];
    assert StepIds[0] == "quiz" && StepIds[1] == "call" && StepIds[2] == "review";
    assert CompletedCount(s[..1]) == (if Done(progress, "quiz") then 1 else 0);
    assert CompletedCount(s[..2]) == CompletedCount(s[..1]) + (if Done(progress, "call") then 1 else 0);
    assert CompletedCount(s) == CompletedCount(s[..2]) + (if Done(progress, "review") then 1 else 0);
  }

  /** `allCompleted` holds exactly when nothing is left to recommend. */
  lemma AllCompletedIffNoRecommendation(progress: Option<LearningCycle.Progress>)
    ensures CompletedCount(Steps(progress)) == |Steps(progress)| <==> Recommended(progress).None?
  {
    CompletedCountIsDoneFlags(progress);
    assert StepIds[0] == "quiz" && StepIds[1] == "call" && StepIds[2] == "review";
  }

  /** `handleStepClick`: the route each step opens; any other id goes nowhere. */
  function StepRoute(id: string): (r: Option<string>)
    ensures r.Some? <==> id in StepIds
  {
    if id == "quiz" then Some("/morning-quiz")
    else if id == "call" then Some("/call")
    else if id == "review" then Some("/review-call")
    else None
  }
}
