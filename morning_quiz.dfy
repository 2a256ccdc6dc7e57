/**
 * The morning listening quiz: one question at a time, an answer is chosen,
 * checked (recorded right or wrong with its response time), and the next
 * question follows until the result screen.
 */
module MorningQuiz {
  import opened Wrappers
  import LearningCycle

  datatype QuizQuestion = QuizQuestion(options: seq<string>, correctIndex: int,
                                       focus: Option<string>, kind: Option<string>)

  function CountTrue(s: seq<bool>): (n: nat)
    ensures n <= |s|
  {
    if s == [] then 0 else CountTrue(s[..|s| - 1]) + (if s[|s| - 1] then 1 else 0)
  }

  /** `Math.round(n / d)` for a positive `d`, on exact rationals: halves round up. */
  function RoundDiv(n: int, d: int): (r: int)
    requires d > 0
    ensures d * r - d <= 2 * n - d * r < d * r + d
  {
    (2 * n + d) / (2 * d)
  }

  /** `scorePercent`: the rounded percentage of right answers, and 0 for an empty quiz. */
  function ScorePercent(correct: nat, total: nat): (p: int)
    ensures total == 0 ==> p == 0
    ensures total > 0 ==> 2 * (p * total) - total <= 200 * correct < 2 * (p * total) + total
  {
    if total > 0 then
      var r := RoundDiv(100 * correct, total);
      assert total * r - total <= 2 * (100 * correct) - total * r < total * r + total;
      r
    else 0
  }

  /** A value `p` within half of `100 * c / t` lies in 0..100, is 100 for `c == t` and 0 for `c == 0`. */
  lemma RoundedPercentBounds(p: int, c: int, t: int)
    requires 0 <= c <= t && t > 0
    requires 2 * (p * t) - t <= 200 * c < 2 * (p * t) + t
    ensures 0 <= p <= 100
    ensures c == t ==> p == 100
    ensures c == 0 ==> p == 0
  {
    assert (2 * p + 1) * t == 2 * (p * t) + t > 200 * c >= 0;
    SignOf(2 * p + 1, t);
    assert (2 * p - 201) * t == 2 * (p * t) - t - 200 * t <= 200 * c - 200 * t <= 0;
    SignOf(2 * p - 201, t);
    if c == t {
      assert (2 * p - 199) * t == 2 * (p * t) + t - 200 * t > 0;
      SignOf(2 * p - 199, t);
    }
    if c == 0 {
      assert (2 * p - 1) * t == 2 * (p * t) - t <= 0;
      SignOf(2 * p - 1, t);
    }
  }

  /** A perfect quiz scores 100, an all-wrong one 0, and the score lies in between. */
  lemma ScoreBounds(correct: nat, total: nat)
    requires correct <= total
    ensures 0 <= ScorePercent(correct, total) <= 100
    ensures total > 0 && correct == total ==> ScorePercent(correct, total) == 100
    ensures correct == 0 ==> ScorePercent(correct, total) == 0
  {
    if total > 0 {
      RoundedPercentBounds(ScorePercent(correct, total), correct, total);
    }
  }

  /** More right answers never lower the score. */
  lemma ScoreMonotone(c1: nat, c2: nat, total: nat)
    requires c1 <= c2
    ensures ScorePercent(c1, total) <= ScorePercent(c2, total)
  {
    if total > 0 {
      var t: int := total;
      var p1, p2 := ScorePercent(c1, total), ScorePercent(c2, total);
      assert 2 * (p1 * t) - t <= 200 * c1 <= 200 * c2 < 2 * (p2 * t) + t;
      assert (p1 - p2 - 1) * t == p1 * t - p2 * t - t < 0;
      SignOf(p1 - p2 - 1, t);
    }
  }

  /** With a positive factor, a product has the sign of the other factor. */
  lemma SignOf(a: int, t: int)
    requires t > 0
    ensures a * t > 0 <==> a > 0
    ensures a * t < 0 <==> a < 0
  {
    if a > 0 {
      AtLeastOnce(a, t);
    } else if a < 0 {
      AtLeastOnce(-a, t);
      assert (-a) * t == -(a * t);
    } else {
      assert a * t == 0;
    }
  }

  lemma AtLeastOnce(a: int, t: int)
    requires a >= 1 && t > 0
    ensures a * t >= t
  {
  }

  function Sum(s: seq<int>): int {
    if s == [] then 0 else Sum(s[..|s| - 1]) + s[|s| - 1]
  }

  class Quiz {
    const questions: seq<QuizQuestion>
    var currentQuestion: nat
    var selectedAnswer: Option<int>
    var isAnswerChecked: bool
    var answers: seq<bool>
    var showResult: bool
    var responseTimes: seq<int>
    var questionStartTime: int
    var playCount: nat

    /**
     * One answer and one time per question checked so far; the result screen
     * comes only after the last question has been checked.
     */
    predicate Valid()
      reads this
    {
      (questions != [] ==> currentQuestion < |questions|)
      && |answers| == |responseTimes| == currentQuestion + (if isAnswerChecked then 1 else 0)
      && (showResult ==> isAnswerChecked && currentQuestion + 1 == |questions|)
    }

    function CorrectAnswers(): nat
      reads this
    {
      CountTrue(answers)
    }

    function Score(): int
      reads this
    {
      ScorePercent(CorrectAnswers(), |questions|)
    }

    constructor (qs: seq<QuizQuestion>, now: int)
      ensures Valid() && questions == qs
      ensures currentQuestion == 0 && selectedAnswer.None? && !isAnswerChecked
      ensures answers == [] && responseTimes == [] && !showResult && questionStartTime == now && playCount == 0
    {
      questions := qs;
      currentQuestion := 0;
      selectedAnswer := None;
      isAnswerChecked := false;
      answers := [];
      showResult := false;
      responseTimes := [];
      questionStartTime := now;
      playCount := 0;
    }

    /** Choosing an option; ignored once the answer has been checked. */
    method HandleSelectAnswer(index: int)
      requires Valid()
      modifies this`selectedAnswer
      ensures Valid()
      ensures old(isAnswerChecked) ==> selectedAnswer == old(selectedAnswer)
      ensures !old(isAnswerChecked) ==> selectedAnswer == Some(index)
    {
      if isAnswerChecked {
        return;
      }
      selectedAnswer := Some(index);
    }

    /**
     * The check button (shown until the answer is checked): without a selection
     * nothing happens; otherwise one answer, right exactly when the selection
     * is the correct index, and one response time are recorded.
     */
    method HandleCheckAnswer(now: int)
      requires Valid() && !isAnswerChecked && questions != []
      modifies this`isAnswerChecked, this`responseTimes, this`answers
      ensures Valid()
      ensures old(selectedAnswer).None? ==>
        isAnswerChecked == old(isAnswerChecked) && answers == old(answers) && responseTimes == old(responseTimes)
      ensures old(selectedAnswer).Some? ==> (isAnswerChecked
        && answers == old(answers) + [old(selectedAnswer).value == questions[currentQuestion].correctIndex]
        && responseTimes == old(responseTimes) + [now - questionStartTime])
    {
      if selectedAnswer.None? {
        return;
      }
      isAnswerChecked := true;
      responseTimes := responseTimes + [now - questionStartTime];
      answers := answers + [selectedAnswer.value == questions[currentQuestion].correctIndex];
    }

    /** The next button (shown once the answer is checked): the next question, or the result after the last. */
    method HandleNextQuestion(now: int)
      requires Valid() && isAnswerChecked && !showResult && questions != []
      modifies this`currentQuestion, this`selectedAnswer, this`isAnswerChecked, this`playCount,
               this`questionStartTime, this`showResult
      ensures Valid()
      ensures old(currentQuestion) + 1 < |questions| ==>
        currentQuestion == old(currentQuestion) + 1 && selectedAnswer.None? && !isAnswerChecked
        && playCount == 0 && questionStartTime == now && !showResult
      ensures old(currentQuestion) + 1 >= |questions| ==>
        showResult && currentQuestion == old(currentQuestion) && selectedAnswer == old(selectedAnswer)
      ensures answers == old(answers) && responseTimes == old(responseTimes)
    {
      if currentQuestion + 1 < |questions| {
        currentQuestion := currentQuestion + 1;
        selectedAnswer := None;
        isAnswerChecked := false;
        playCount := 0;
        questionStartTime := now;
      } else {
        showResult := true;
      }
    }

    /** Retry restores the starting state. */
    method HandleRetry(now: int)
      requires Valid()
      modifies this`currentQuestion, this`selectedAnswer, this`isAnswerChecked, this`answers,
               this`showResult, this`playCount, this`responseTimes, this`questionStartTime
      ensures Valid()
      ensures currentQuestion == 0 && selectedAnswer.None? && !isAnswerChecked && answers == []
      ensures !showResult && playCount == 0 && responseTimes == [] && questionStartTime == now
    {
      currentQuestion := 0;
      selectedAnswer := None;
      isAnswerChecked := false;
      answers := [];
      showResult := false;
      playCount := 0;
      responseTimes := [];
      questionStartTime := now;
    }

    /** What the result screen saves through `saveQuizResult`. */
    function ResultData(): (d: LearningCycle.QuizData)
      reads this
      ensures d.correctAnswers == Some(answers) && d.totalCount == Some(|questions| as int)
      ensures d.totalAccuracy == Some(Score()) && d.correctCount == Some(CorrectAnswers() as int)
      ensures d.avgResponseTime == Some(if responseTimes == [] then 0 else RoundDiv(Sum(responseTimes), |responseTimes|))
    {
      LearningCycle.QuizData(
        Some(seq(|questions|, k requires 0 <= k < |questions| => LearningCycle.Question(questions[k].focus, questions[k].kind))),
        Some(answers), Some(Score()), Some(responseTimes),
        Some(if responseTimes == [] then 0 else RoundDiv(Sum(responseTimes), |responseTimes|)),
        Some(CorrectAnswers() as int), Some(|questions| as int))
    }
  }

  /** On the result screen every question has exactly one recorded answer. */
  lemma ResultHasEveryAnswer(q: Quiz)
    requires q.Valid() && q.showResult
    ensures |q.answers| == |q.questions| && |q.responseTimes| == |q.questions|
    ensures 0 <= q.Score() <= 100
  {
    ScoreBounds(q.CorrectAnswers(), |q.questions|);
  }
}
