/**
 * The learning cycle kept on the device: the log of quiz, call and review
 * sessions, the streak of consecutive study days, the stored quiz and
 * review results, and the settings each stage derives from the previous one.
 * Dates are local day numbers, fixed when a session is saved.
 */
module LearningCycle {
  import opened Wrappers
  import opened Lists

  const MaxSessions: nat := 100
  const MaxResults: nat := 30

  /** `x || d` for a number: the default replaces a missing value and zero. */
  function OrElse(v: Option<int>, d: int): (r: int)
    ensures v.Some? && v.value != 0 ==> r == v.value
    ensures v.None? || v.value == 0 ==> r == d
  {
    if v.Some? && v.value != 0 then v.value else d
  }

  /** `xs || []`: a missing list is empty. */
  function OrEmpty<T>(v: Option<seq<T>>): seq<T> {
    if v.Some? then v.value else []
  }

  datatype Session = Session(sessionId: string, date: string, day: int, kind: string, score: Option<int>,
                             weakPoints: seq<string>, focusExpressions: seq<string>)

  datatype Question = Question(focus: Option<string>, kind: Option<string>)

  datatype QuizData = QuizData(questions: Option<seq<Question>>, correctAnswers: Option<seq<bool>>,
                               totalAccuracy: Option<int>, responseTimes: Option<seq<int>>,
                               avgResponseTime: Option<int>, correctCount: Option<int>, totalCount: Option<int>)

  datatype QuizResult = QuizResult(id: string, date: string, weakAreas: seq<string>, totalAccuracy: int,
                                   responseTimes: seq<int>, avgResponseTime: int, correctCount: int,
                                   totalCount: int, questions: seq<Question>)

  datatype ReviewResult = ReviewResult(id: string, date: string, mode: string, retentionRate: int,
                                       practiceCount: int)

  /** The days on which some session was saved. */
  function DaysOf(sessions: seq<Session>): set<int> {
    set i | 0 <= i < |sessions| :: sessions[i].day
  }

  /** Whether question `i` was answered correctly: `correct_answers?.[i]` is truthy. */
  predicate AnsweredRight(correct: Option<seq<bool>>, i: nat) {
    correct.Some? && i < |correct.value| && correct.value[i]
  }

  /** `q.focus || q.type || 'general'`. */
  function AreaOf(q: Question): (r: string)
    ensures r != ""
  {
    if q.focus.Some? && q.focus.value != "" then q.focus.value
    else if q.kind.Some? && q.kind.value != "" then q.kind.value
    else "general"
  }

  /** The area of every wrongly answered question among the first `n`, in question order. */
  function WrongAreas(qs: seq<Question>, correct: Option<seq<bool>>, n: nat): (r: seq<string>)
    requires n <= |qs|
    ensures |r| <= n
    ensures forall x :: x in r <==> exists i :: 0 <= i < n && !AnsweredRight(correct, i) && AreaOf(qs[i]) == x
  {
    if n == 0 then []
    else
      var prior := WrongAreas(qs, correct, n - 1);
      if AnsweredRight(correct, n - 1) then prior else prior + [AreaOf(qs[n - 1])]
  }

  /** `calculateStreak`'s count: `n` days with sessions end at `start`, and the day before them has none. */
  ghost predicate IsStreak(days: set<int>, start: int, n: nat) {
    ActiveRun(days, start, n) && start - n !in days
  }

  /** Every one of the `n` days ending at `start` has a session. */
  ghost predicate ActiveRun(days: set<int>, start: int, n: nat) {
    forall d :: start - n < d <= start ==> d in days
  }

  /** A day no session precedes. */
  function LowestDay(sessions: seq<Session>): (low: int)
    requires sessions != []
    ensures forall d :: d in DaysOf(sessions) ==> low <= d
  {
    if |sessions| == 1 then sessions[0].day
    else
      var rest := LowestDay(sessions[1..]);
      assert forall i :: 1 <= i < |sessions| ==>
        (sessions[i].day == sessions[1..][i - 1].day && sessions[1..][i - 1].day in DaysOf(sessions[1..]));
      if sessions[0].day < rest then sessions[0].day else rest
  }

  /** The streak counts back from today, or from yesterday while today has no session yet. */
  function StreakStart(days: set<int>, today: int): int {
    if today in days then today else today - 1
  }

  /** A streak reaches `n` days exactly when the `n` days back from its start all have sessions. */
  lemma StreakAtLeast(days: set<int>, start: int, streak: nat, n: nat)
    requires IsStreak(days, start, streak)
    ensures streak >= n <==> ActiveRun(days, start, n)
  {
    if streak < n {
      assert !(start - streak in days);
    }
  }

  /** Each session, quiz and review result stored on the device. */
  class Log {
    var sessions: seq<Session>
    var quizResults: seq<QuizResult>
    var reviewResults: seq<ReviewResult>

    constructor (sessions: seq<Session>, quizResults: seq<QuizResult>, reviewResults: seq<ReviewResult>)
      ensures this.sessions == sessions && this.quizResults == quizResults && this.reviewResults == reviewResults
    {
      this.sessions := sessions;
      this.quizResults := quizResults;
      this.reviewResults := reviewResults;
    }

    function Days(): set<int>
      reads this
    {
      DaysOf(sessions)
    }

    /** Whether a session of the kind was saved on the day. */
    predicate DoneOn(day: int, kind: string)
      reads this
    {
      exists i :: 0 <= i < |sessions| && sessions[i].day == day && sessions[i].kind == kind
    }

    /**
     * `calculateStreak`: step back one day at a time from today while each
     * day has a session; today without a session yet is skipped, not a break.
     */
    method CalculateStreak(today: int) returns (streak: nat)
      ensures sessions == [] ==> streak == 0
      ensures IsStreak(Days(), StreakStart(Days(), today), streak)
    {
      if |sessions| == 0 {
        return 0;
      }
      var days := DaysOf(sessions);
      ghost var start := StreakStart(days, today);
      ghost var low := LowestDay(sessions);
      ghost var floor := if low < today then low else today;
      streak := 0;
      var current := today;
      while true
        invariant (current == today && streak == 0) || (current < today && current == start - streak)
        invariant ActiveRun(days, start, streak)
        invariant current >= floor - 1
        decreases current - floor + 1
      {
        if current !in days {
          if current == today {
            current := current - 1;
            continue;
          }
          break;
        }
        streak := streak + 1;
        current := current - 1;
      }
    }

    /**
     * `checkAchievements`: a complete cycle when today has a quiz, a call and
     * a review, and each streak badge whose number of days the streak reaches.
     */
    method CheckAchievements(today: int) returns (r: seq<string>)
      ensures "COMPLETE_CYCLE" in r <==> DoneOn(today, "quiz") && DoneOn(today, "call") && DoneOn(today, "review")
      ensures "STREAK_7" in r <==> ActiveRun(Days(), StreakStart(Days(), today), 7)
      ensures "STREAK_14" in r <==> ActiveRun(Days(), StreakStart(Days(), today), 14)
      ensures "STREAK_30" in r <==> ActiveRun(Days(), StreakStart(Days(), today), 30)
    {
      var complete := DoneOn(today, "quiz") && DoneOn(today, "call") && DoneOn(today, "review");
      var streak := CalculateStreak(today);
      StreakAtLeast(Days(), StreakStart(Days(), today), streak, 7);
      StreakAtLeast(Days(), StreakStart(Days(), today), streak, 14);
      StreakAtLeast(Days(), StreakStart(Days(), today), streak, 30);
      r := Achievements(complete, streak);
    }

    /** `saveLearningSession`: appends the session and keeps the newest hundred. */
    method SaveLearningSession(sessionId: string, kind: string, score: Option<int>, weakPoints: Option<seq<string>>,
                               focusExpressions: Option<seq<string>>, now: string, day: int)
      returns (saved: Session)
      modifies this
      ensures saved == Session(sessionId, now, day, kind, score, OrEmpty(weakPoints), OrEmpty(focusExpressions))
      ensures sessions == LastN(old(sessions) + [saved], MaxSessions)
      ensures sessions != [] && sessions[|sessions| - 1] == saved && |sessions| <= MaxSessions
      ensures quizResults == old(quizResults) && reviewResults == old(reviewResults)
    {
      saved := Session(sessionId, now, day, kind, score, OrEmpty(weakPoints), OrEmpty(focusExpressions));
      sessions := LastN(sessions + [saved], MaxSessions);
    }

    /**
     * `saveQuizResult`: the wrongly answered questions' areas, each once, the
     * defaults for missing figures, the newest thirty results kept, and a
     * quiz session logged with those areas as its weak points.
     */
    method SaveQuizResult(data: QuizData, id: string, now: string, day: int) returns (result: QuizResult)
      modifies this
      ensures var qs := OrEmpty(data.questions);
        result == QuizResult(id, now, Dedupe(WrongAreas(qs, data.correctAnswers, |qs|)),
                             OrElse(data.totalAccuracy, 0), OrEmpty(data.responseTimes),
                             OrElse(data.avgResponseTime, 0), OrElse(data.correctCount, 0),
                             OrElse(data.totalCount, |qs|), qs)
      ensures NoDup(result.weakAreas)
      ensures forall x :: x in result.weakAreas <==>
        exists i :: 0 <= i < |result.questions| && !AnsweredRight(data.correctAnswers, i)
                    && AreaOf(result.questions[i]) == x
      ensures quizResults == LastN(old(quizResults) + [result], MaxResults)
      ensures sessions == LastN(old(sessions) + [Session(id, now, day, "quiz", Some(result.totalAccuracy),
                                                         result.weakAreas, [])], MaxSessions)
      ensures reviewResults == old(reviewResults)
    {
      var qs := OrEmpty(data.questions);
      var areas := WrongAreas(qs, data.correctAnswers, |qs|);
      result := QuizResult(id, now, Dedupe(areas), OrElse(data.totalAccuracy, 0), OrEmpty(data.responseTimes),
                           OrElse(data.avgResponseTime, 0), OrElse(data.correctCount, 0),
                           OrElse(data.totalCount, |qs|), qs);
      quizResults := LastN(quizResults + [result], MaxResults);
      var _ := SaveLearningSession(id, "quiz", Some(result.totalAccuracy), Some(result.weakAreas), None, now, day);
    }

    /** `saveCallResult`: a call session under the given or generated id, scored 70 by default. */
    method SaveCallResult(sessionId: Option<string>, accuracy: Option<int>, weakPoints: Option<seq<string>>,
                          expressions: Option<seq<string>>, generatedId: string, now: string, day: int)
      returns (id: string)
      modifies this
      ensures id == if sessionId.Some? && sessionId.value != "" then sessionId.value else generatedId
      ensures sessions == LastN(old(sessions) + [Session(id, now, day, "call", Some(OrElse(accuracy, 70)),
                                                         OrEmpty(weakPoints), OrEmpty(expressions))], MaxSessions)
      ensures quizResults == old(quizResults) && reviewResults == old(reviewResults)
    {
      id := if sessionId.Some? && sessionId.value != "" then sessionId.value else generatedId;
      var _ := SaveLearningSession(id, "call", Some(OrElse(accuracy, 70)), weakPoints, expressions, now, day);
    }

    /** `saveReviewResult`: mode `free` and retention 80 by default, the newest thirty kept, and a review session logged. */
    method SaveReviewResult(mode: Option<string>, retentionRate: Option<int>, practiceCount: Option<int>,
                            id: string, now: string, day: int)
      returns (result: ReviewResult)
      modifies this
      ensures result.mode == (if mode.Some? && mode.value != "" then mode.value else "free")
      ensures result.retentionRate == OrElse(retentionRate, 80) && result.practiceCount == OrElse(practiceCount, 0)
      ensures result.id == id && result.date == now
      ensures reviewResults == LastN(old(reviewResults) + [result], MaxResults)
      ensures sessions == LastN(old(sessions) + [Session(id, now, day, "review", Some(result.retentionRate), [], [])],
                                MaxSessions)
      ensures quizResults == old(quizResults)
    {
      var m := if mode.Some? && mode.value != "" then mode.value else "free";
      result := ReviewResult(id, now, m, OrElse(retentionRate, 80), OrElse(practiceCount, 0));
      reviewResults := LastN(reviewResults + [result], MaxResults);
      var _ := SaveLearningSession(id, "review", Some(result.retentionRate), None, None, now, day);
    }
  }

  /** The badges in `checkAchievements`' order: the cycle, then each streak threshold reached. */
  function Achievements(complete: bool, streak: nat): (r: seq<string>)
    ensures "COMPLETE_CYCLE" in r <==> complete
    ensures "STREAK_7" in r <==> streak >= 7
    ensures "STREAK_14" in r <==> streak >= 14
    ensures "STREAK_30" in r <==> streak >= 30
    ensures |r| <= 4
  {
    assert "COMPLETE_CYCLE"[0] == 'C' && "STREAK_7"[0] == 'S';
    assert "STREAK_7"[7] == '7' && "STREAK_14"[7] == '1' && "STREAK_30"[7] == '3';
    (if complete then ["COMPLETE_CYCLE"] else [])
    + (if streak >= 7 then ["STREAK_7"] else [])
    + (if streak >= 14 then ["STREAK_14"] else [])
    + (if streak >= 30 then ["STREAK_30"] else [])
  }

  /** The badges are cumulative: a longer streak badge comes with every shorter one. */
  lemma BadgesCumulative(complete: bool, streak: nat)
    ensures "STREAK_30" in Achievements(complete, streak) ==> "STREAK_14" in Achievements(complete, streak)
    ensures "STREAK_14" in Achievements(complete, streak) ==> "STREAK_7" in Achievements(complete, streak)
  {
  }

  // ---------------------------------------------------------------- derived settings

  datatype CallSettings = CallSettings(focusAreas: seq<string>, focusIntensity: int, mode: string,
                                       quizAccuracy: Option<int>, fromQuizId: Option<string>)

  /**
   * `generateCallSettingsFromQuiz`: from the latest quiz, intensity
   * `max(30, 100 - accuracy)` (accuracy 50 when missing), focused exactly
   * when it found weak areas; general at intensity 50 without any quiz.
   */
  function CallSettingsFromQuiz(results: seq<QuizResult>): (r: CallSettings)
    ensures results == [] ==> r == CallSettings([], 50, "general", None, None)
    ensures results != [] ==>
      var last := results[|results| - 1];
      r.focusAreas == last.weakAreas && r.fromQuizId == Some(last.id)
      && (r.mode == "focused" <==> last.weakAreas != []) && r.mode in {"focused", "general"}
      && r.focusIntensity >= 30
      && (0 < last.totalAccuracy <= 70 ==> r.focusIntensity == 100 - last.totalAccuracy)
      && (last.totalAccuracy >= 70 ==> r.focusIntensity == 30)
      && (last.totalAccuracy == 0 ==> r.focusIntensity == 50)
  {
    if results == [] then CallSettings([], 50, "general", None, None)
    else
      var last := results[|results| - 1];
      var accuracy := if last.totalAccuracy != 0 then last.totalAccuracy else 50;
      var intensity := if 100 - accuracy > 30 then 100 - accuracy else 30;
      CallSettings(last.weakAreas, intensity, if |last.weakAreas| > 0 then "focused" else "general",
                   Some(last.totalAccuracy), Some(last.id))
  }

  /** A better quiz never raises the next call's intensity. */
  lemma IntensityFalls(a: QuizResult, b: QuizResult)
    requires 0 < a.totalAccuracy <= b.totalAccuracy
    ensures CallSettingsFromQuiz([b]).focusIntensity <= CallSettingsFromQuiz([a]).focusIntensity
  {
  }

  /** The position of the latest session of a kind (`filter(...).pop()`). */
  function LastOfKind(sessions: seq<Session>, kind: string): (r: Option<nat>)
    ensures r.None? <==> forall i :: 0 <= i < |sessions| ==> sessions[i].kind != kind
    ensures r.Some? ==> r.value < |sessions| && sessions[r.value].kind == kind
    ensures r.Some? ==> forall j :: r.value < j < |sessions| ==> sessions[j].kind != kind
    decreases |sessions|
  {
    if sessions == [] then None
    else if sessions[|sessions| - 1].kind == kind then Some(|sessions| - 1)
    else LastOfKind(sessions[..|sessions| - 1], kind)
  }

  datatype ReviewSettings = ReviewSettings(priorities: seq<string>, mode: string, intensity: string)

  /**
   * `generateReviewSettingsFromCall`: intensive review of the latest call's
   * weak points when it had any, maintenance otherwise, general with no call.
   */
  function ReviewSettingsFromCall(sessions: seq<Session>): (r: ReviewSettings)
    ensures r.intensity == "medium"
    ensures r.mode == "general" <==> forall i :: 0 <= i < |sessions| ==> sessions[i].kind != "call"
    ensures LastOfKind(sessions, "call").Some? ==>
      var last := sessions[LastOfKind(sessions, "call").value];
      r.priorities == last.weakPoints && (r.mode == "intensive" <==> last.weakPoints != [])
      && r.mode in {"intensive", "maintenance"}
  {
    var last := LastOfKind(sessions, "call");
    if last.None? then ReviewSettings([], "general", "medium")
    else
      var call := sessions[last.value];
      ReviewSettings(call.weakPoints, if |call.weakPoints| > 0 then "intensive" else "maintenance", "medium")
  }

  // ---------------------------------------------------------------- listening quiz

  datatype Sentence = Sentence(correct: string, wrong: seq<string>, focus: string, kind: string)

  datatype ListeningQuestion = ListeningQuestion(id: nat, text: string, focus: string, kind: string,
                                                 options: seq<string>, correctIndex: nat)

  /** `options.splice(i, 0, x)`: `x` goes in at `i`, or at the end when `i` is past it. */
  function InsertAt<T>(s: seq<T>, i: nat, x: T): (r: seq<T>)
    ensures |r| == |s| + 1
    ensures i <= |s| ==> r[i] == x && r[..i] + r[i + 1..] == s
    ensures i > |s| ==> r == s + [x]
  {
    if i <= |s| then
      assert (s[..i] + [x] + s[i..])[i + 1..] == s[i..];
      s[..i] + [x] + s[i..]
    else s + [x]
  }

  /**
   * `generateListeningQuizQuestions` once the sentences and the answer
   * positions are drawn: question `k` is numbered `k + 1`, reads the correct
   * sentence and offers it at its drawn position among the wrong ones.
   */
  function ListeningQuestions(items: seq<Sentence>, positions: seq<nat>): (r: seq<ListeningQuestion>)
    requires |positions| == |items|
    ensures |r| == |items|
    ensures forall k :: 0 <= k < |r| ==>
      (r[k].id == k + 1 && r[k].text == items[k].correct
       && r[k].correctIndex == positions[k] && |r[k].options| == |items[k].wrong| + 1)
    ensures forall k :: 0 <= k < |r| && positions[k] <= |items[k].wrong| ==>
      r[k].options[positions[k]] == items[k].correct
      && r[k].options[..positions[k]] + r[k].options[positions[k] + 1..] == items[k].wrong
  {
    seq(|items|, k requires 0 <= k < |items| =>
      ListeningQuestion(k + 1, items[k].correct, items[k].focus, items[k].kind,
                        InsertAt(items[k].wrong, positions[k], items[k].correct), positions[k]))
  }

  // ---------------------------------------------------------------- today

  datatype Progress = Progress(quizDone: bool, callDone: bool, reviewDone: bool, today: seq<Session>)

  /** The sessions of one day, in order. */
  function OnDay(sessions: seq<Session>, day: int): (r: seq<Session>)
    ensures forall i :: 0 <= i < |r| ==> r[i].day == day
    ensures forall s :: s in r <==> s in sessions && s.day == day
  {
    if sessions == [] then []
    else
      var rest := OnDay(sessions[1..], day);
      assert sessions == [sessions[0]] + sessions[1..];
      if sessions[0].day == day then [sessions[0]] + rest else rest
  }

  /** `getTodayProgress`: each flag says whether today has a session of that kind. */
  function TodayProgress(sessions: seq<Session>, today: int): (r: Progress)
    ensures r.today == OnDay(sessions, today)
    ensures r.quizDone <==> exists s :: s in sessions && s.day == today && s.kind == "quiz"
    ensures r.callDone <==> exists s :: s in sessions && s.day == today && s.kind == "call"
    ensures r.reviewDone <==> exists s :: s in sessions && s.day == today && s.kind == "review"
  {
    var t := OnDay(sessions, today);
    Progress(exists i :: 0 <= i < |t| && t[i].kind == "quiz", exists i :: 0 <= i < |t| && t[i].kind == "call",
             exists i :: 0 <= i < |t| && t[i].kind == "review", t)
  }
}
