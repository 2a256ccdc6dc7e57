/**
 * The key-expression practice screen: for each grammar correction of a call the
 * learner reads the explanation (step 1), repeats the sentence (steps 2-3) and
 * uses it in a fill-in-the-blank dialogue (steps 4-5); after the last one a
 * wrap-up screen (step 6) saves the session to the practice history.
 */
module Practice {
  import opened Wrappers
  import opened Text
  import Helpers

  datatype Correction = Correction(original: string, corrected: string, explanation: string)

  /** One finished dialogue step, tagged with the index of its correction. */
  datatype PracticeResult = PracticeResult(
    index: nat, original: string, corrected: string,
    userTranscript: string, audioUrl: Option<string>, timestamp: int)

  datatype HistoryEntry = HistoryEntry(
    id: string, sessionId: Option<string>, completedAt: string,
    totalExpressions: nat, results: seq<PracticeResult>)

  const MaxPracticeHistory: nat := 50

  /** The sentence the page falls back to when it is given nothing to practise. */
  const SampleCorrections: seq<Correction> := [Correction(
    "What's your daughter's solo, cantankerous laptop?",
    "What do you think about your daughter's difficult laptop?",
    "'Cantankerous'는 일반적으로 사람에게 사용되며, 노트북에 대해 이야기할 때는 'difficult'가 더 적절합니다.")]

  /**
   * Where the corrections come from: the ones passed in when there are any,
   * else the call's analysis whenever it has a list (an empty list included),
   * else the sample.
   */
  function ChooseCorrections(passed: Option<seq<Correction>>, fromCall: Option<seq<Correction>>): (r: seq<Correction>)
    ensures passed.Some? && passed.value != [] ==> r == passed.value
    ensures (passed.None? || passed.value == []) && fromCall.Some? ==> r == fromCall.value
    ensures (passed.None? || passed.value == []) && fromCall.None? ==> r == SampleCorrections
  {
    if passed.Some? && passed.value != [] then passed.value
    else if fromCall.Some? then fromCall.value
    else SampleCorrections
  }

  /** The progress bar: half way while repeating, full while in the dialogue. */
  function Progress(step: nat): (p: nat)
    ensures p <= 100
  {
    if step == 2 || step == 3 then 50
    else if step == 4 || step == 5 then 100
    else 0
  }

  // ---------------------------------------------------------------- the step machine

  /** Where the screen is: step, correction index, and the indices of the dialogues finished so far. */
  datatype Stage = Stage(step: nat, index: nat, recorded: seq<nat>)

  /** The next button (the stay on step 6 stands for leaving the page). */
  function Next(s: Stage, total: nat): (r: Stage)
    ensures 1 <= s.step <= 4 ==> r.step == s.step + 1 && r.index == s.index
    ensures s.step == 4 ==> r.recorded == s.recorded + [s.index]
    ensures s.step != 4 ==> r.recorded == s.recorded
    ensures s.step == 5 && s.index + 1 < total ==> r.step == 1 && r.index == s.index + 1
    ensures s.step == 5 && s.index + 1 >= total ==> r.step == 6 && r.index == s.index
  {
    match s.step
    case 1 => s.(step := 2)
    case 2 => s.(step := 3)
    case 3 => s.(step := 4)
    case 4 => s.(step := 5, recorded := s.recorded + [s.index])
    case 5 => if s.index + 1 < total then s.(step := 1, index := s.index + 1) else s.(step := 6)
    case _ => s
  }

  /** The back button: 2 goes to 1, 4 goes to 3; `None` means the page is left. */
  function Back(step: nat): (r: Option<nat>)
    ensures step == 2 ==> r == Some(1)
    ensures step == 4 ==> r == Some(3)
    ensures step != 2 && step != 4 ==> r.None?
  {
    if step == 2 then Some(1) else if step == 4 then Some(3) else None
  }

  /** Back undoes the step that Next took from 1 or 3. */
  lemma BackUndoesNext(s: Stage, total: nat)
    requires s.step == 1 || s.step == 3
    ensures Back(Next(s, total).step) == Some(s.step)
  {
  }

  function Press(s: Stage, total: nat, k: nat): Stage
    decreases k
  {
    if k == 0 then s else Press(Next(s, total), total, k - 1)
  }

  function Range(lo: nat, hi: nat): (r: seq<nat>)
    requires lo <= hi
    ensures |r| == hi - lo && forall k :: 0 <= k < |r| ==> r[k] == lo + k
    decreases hi - lo
  {
    if lo == hi then [] else [lo] + Range(lo + 1, hi)
  }

  /** One correction takes five presses: from its step 1 to the next one's step 1, or to the wrap-up. */
  lemma OneCorrection(i: nat, total: nat, rec: seq<nat>)
    requires i < total
    ensures Press(Stage(1, i, rec), total, 5)
      == if i + 1 < total then Stage(1, i + 1, rec + [i]) else Stage(6, i, rec + [i])
  {
    var s4 := Stage(4, i, rec);
    assert Press(Stage(1, i, rec), total, 5) == Press(s4, total, 2);
    var s5 := Stage(5, i, rec + [i]);
    assert Next(s4, total) == s5;
    assert Press(s4, total, 2) == Press(Next(s5, total), total, 0);
  }

  lemma {:induction false} PressAdd(s: Stage, total: nat, a: nat, b: nat)
    ensures Press(s, total, a + b) == Press(Press(s, total, a), total, b)
    decreases a
  {
    if a > 0 {
      PressAdd(Next(s, total), total, a - 1, b);
    }
  }

  /**
   * Going through every correction takes exactly five presses each, reaches the
   * wrap-up on the last correction, and has recorded one dialogue per
   * correction, in order.
   */
  lemma {:induction false} FullRun(total: nat, i: nat, rec: seq<nat>)
    requires i < total
    ensures Press(Stage(1, i, rec), total, 5 * (total - i)) == Stage(6, total - 1, rec + Range(i, total))
    decreases total - i
  {
    OneCorrection(i, total, rec);
    if i + 1 < total {
      PressAdd(Stage(1, i, rec), total, 5, 5 * (total - i - 1));
      FullRun(total, i + 1, rec + [i]);
      assert [i] + Range(i + 1, total) == Range(i, total);
      assert rec + [i] + Range(i + 1, total) == rec + Range(i, total);
    } else {
      assert Range(i, total) == [i];
    }
  }

  /** Progress never falls while working through one correction. */
  lemma ProgressRises(s: Stage, total: nat)
    requires 1 <= s.step <= 4
    ensures Progress(Next(s, total).step) >= Progress(s.step)
  {
  }

  // ---------------------------------------------------------------- fill in the blank

  const Blank := "______"

  function Mask(words: seq<string>, start: nat, count: nat): (r: seq<string>)
    ensures |r| == |words|
    ensures forall k :: 0 <= k < |r| ==> r[k] == (if start <= k < start + count then Blank else words[k])
  {
    seq(|words|, k requires 0 <= k < |words| => if start <= k < start + count then Blank else words[k])
  }

  datatype Exercise = Exercise(display: string, blanks: seq<string>)

  /** `createFillInBlank`: short sentences stay whole; otherwise up to two words from a third of the way in are blanked. */
  function FillInBlank(sentence: string): (r: Exercise)
    ensures |Split(sentence, ' ')| <= 3 ==> r == Exercise(sentence, [])
  {
    var words := Split(sentence, ' ');
    var n := |words|;
    if n <= 3 then Exercise(sentence, [])
    else
      var start := n / 3;
      var count := Helpers.Min(2, n / 3);
      Exercise(Join(Mask(words, start, count), " "), words[start..start + count])
  }

  /** The blanked display splits back into the masked words. */
  lemma {:induction false} ShownIsMask(sentence: string)
    requires |Split(sentence, ' ')| > 3
    ensures var words := Split(sentence, ' ');
      var n := |words|;
      Split(FillInBlank(sentence).display, ' ') == Mask(words, n / 3, Helpers.Min(2, n / 3))
  {
    var words := Split(sentence, ' ');
    var n := |words|;
    var start, count := n / 3, Helpers.Min(2, n / 3);
    var masked := Mask(words, start, count);
    forall k | 0 <= k < |masked| ensures ' ' !in masked[k] {
      if start <= k < start + count {
        assert masked[k] == Blank;
      }
    }
    SplitJoin(masked, ' ');
  }

  /** Putting the blanked words back into the masked slots restores the words. */
  lemma {:induction false} MaskRefill(words: seq<string>, start: nat, count: nat)
    requires start + count <= |words|
    ensures Mask(words, start, count)[..start] + words[start..start + count]
            + Mask(words, start, count)[start + count..] == words
  {
    var masked := Mask(words, start, count);
    var refilled := masked[..start] + words[start..start + count] + masked[start + count..];
    assert |refilled| == |words|;
    forall k | 0 <= k < |words| ensures refilled[k] == words[k] {
      if k < start {
        assert refilled[k] == masked[k];
      } else if k < start + count {
        assert refilled[k] == words[start..start + count][k - start];
      } else {
        assert refilled[k] == masked[k];
      }
    }
  }

  /**
   * A longer sentence keeps its word count; `min(2, n/3)` words from index
   * `n/3` are blanked and are exactly the `blanks`; every other word stays, so
   * writing the blanks back restores the sentence's words.
   */
  lemma FillInBlankShape(sentence: string)
    requires |Split(sentence, ' ')| > 3
    ensures var words := Split(sentence, ' ');
      var n := |words|;
      var shown := Split(FillInBlank(sentence).display, ' ');
      var blanks := FillInBlank(sentence).blanks;
      |shown| == n
      && blanks == words[n / 3..n / 3 + Helpers.Min(2, n / 3)]
      && (forall k :: 0 <= k < n ==>
            shown[k] == (if n / 3 <= k < n / 3 + Helpers.Min(2, n / 3) then Blank else words[k]))
      && shown[..n / 3] + blanks + shown[n / 3 + |blanks|..] == words
  {
    var words := Split(sentence, ' ');
    var n := |words|;
    var start, count := n / 3, Helpers.Min(2, n / 3);
    var masked := Mask(words, start, count);
    var blanks := FillInBlank(sentence).blanks;
    assert blanks == words[start..start + count];
    ShownIsMask(sentence);
    var shown := Split(FillInBlank(sentence).display, ' ');
    assert shown == masked;
    MaskRefill(words, start, count);
    assert shown[..start] + blanks + shown[start + |blanks|..] == words;
  }

  // ---------------------------------------------------------------- the page

  /** The correction indices the results are tagged with. */
  function Indices(rs: seq<PracticeResult>): (r: seq<nat>)
    ensures |r| == |rs| && forall k :: 0 <= k < |rs| ==> r[k] == rs[k].index
  {
    if rs == [] then [] else Indices(rs[..|rs| - 1]) + [rs[|rs| - 1].index]
  }

  /** Where the page sends the learner. */
  datatype Nav = Stay | HistoryTab | PreviousPage

  class Page {
    var corrections: seq<Correction>
    var step: nat
    var currentIndex: nat
    var userTranscript: string
    var userRecordingUrl: Option<string>
    var practiceResults: seq<PracticeResult>
    /** The `practiceHistory_<deviceId>` entry of this device. */
    var history: Option<Helpers.Entry<seq<HistoryEntry>>>
    var nav: Nav

    function StageOf(): Stage
      reads this
    {
      Stage(step, currentIndex, Indices(practiceResults))
    }

    constructor (passed: Option<seq<Correction>>, fromCall: Option<seq<Correction>>,
                 stored: Option<Helpers.Entry<seq<HistoryEntry>>>)
      ensures corrections == ChooseCorrections(passed, fromCall)
      ensures step == 1 && currentIndex == 0 && practiceResults == [] && nav == Stay
      ensures userTranscript == "" && userRecordingUrl.None? && history == stored
    {
      corrections := ChooseCorrections(passed, fromCall);
      step := 1;
      currentIndex := 0;
      userTranscript := "";
      userRecordingUrl := None;
      practiceResults := [];
      history := stored;
      nav := Stay;
    }

    /**
     * `savePracticeToHistory`: the new entry goes first and the list is cut at
     * 50; existing data that does not parse makes the save fail, leaving
     * storage untouched.
     */
    method SavePracticeToHistory(now: nat, sessionId: Option<string>, completedAt: string)
      modifies this`history
      ensures old(history).Some? && old(history).value.Unparsable? ==> history == old(history)
      ensures !(old(history).Some? && old(history).value.Unparsable?) ==>
        history == Some(Helpers.Parsed(Helpers.PrependCapped(
          HistoryEntry("practice-" + NatToString(now), sessionId, completedAt, |corrections|, practiceResults),
          if old(history).Some? then old(history).value.value else [],
          MaxPracticeHistory)))
    {
      if history.Some? && history.value.Unparsable? {
        return;
      }
      var existing := if history.Some? then history.value.value else [];
      var entry := HistoryEntry("practice-" + NatToString(now), sessionId, completedAt, |corrections|, practiceResults);
      history := Some(Helpers.Parsed(Helpers.PrependCapped(entry, existing, MaxPracticeHistory)));
    }

    /** The next button; offered only while there is a correction on screen. */
    method HandleNext(now: nat, sessionId: Option<string>, completedAt: string)
      requires currentIndex < |corrections|
      modifies this
      ensures StageOf() == Next(old(StageOf()), |corrections|)
      ensures corrections == old(corrections)
      ensures currentIndex < |corrections|
      ensures old(step) == 4 ==> practiceResults == old(practiceResults) + [PracticeResult(
        old(currentIndex), corrections[old(currentIndex)].original, corrections[old(currentIndex)].corrected,
        old(userTranscript), old(userRecordingUrl), now)]
      ensures old(step) == 3 || (old(step) == 5 && step == 1) ==> userTranscript == "" && userRecordingUrl.None?
      ensures old(step) != 3 && !(old(step) == 5 && step == 1) ==>
        userTranscript == old(userTranscript) && userRecordingUrl == old(userRecordingUrl)
      ensures old(step) != 4 ==> practiceResults == old(practiceResults)
      ensures old(step) == 6 ==> nav == HistoryTab
      ensures old(step) == 6 && old(history).Some? && old(history).value.Unparsable? ==> history == old(history)
      ensures old(step) == 6 && !(old(history).Some? && old(history).value.Unparsable?) ==>
        history == Some(Helpers.Parsed(Helpers.PrependCapped(
          HistoryEntry("practice-" + NatToString(now), sessionId, completedAt, |corrections|, old(practiceResults)),
          if old(history).Some? then old(history).value.value else [],
          MaxPracticeHistory)))
      ensures old(step) != 6 ==> nav == old(nav) && history == old(history)
    {
      ghost var before := StageOf();
      if step == 1 {
        step := 2;
      } else if step == 2 {
        step := 3;
      } else if step == 3 {
        userTranscript := "";
        userRecordingUrl := None;
        step := 4;
      } else if step == 4 {
        var c := corrections[currentIndex];
        var result := PracticeResult(currentIndex, c.original, c.corrected, userTranscript, userRecordingUrl, now);
        assert (practiceResults + [result])[..|practiceResults|] == practiceResults;
        practiceResults := practiceResults + [result];
        step := 5;
      } else if step == 5 {
        if currentIndex + 1 < |corrections| {
          currentIndex := currentIndex + 1;
          step := 1;
          userTranscript := "";
          userRecordingUrl := None;
        } else {
          step := 6;
        }
      } else if step == 6 {
        SavePracticeToHistory(now, sessionId, completedAt);
        nav := HistoryTab;
      }
    }

    /** The back button. */
    method HandleBack()
      modifies this
      ensures Back(old(step)).Some? ==> step == Back(old(step)).value && nav == old(nav)
      ensures Back(old(step)).None? ==> nav == PreviousPage && step == old(step)
      ensures currentIndex == old(currentIndex) && practiceResults == old(practiceResults)
      ensures corrections == old(corrections) && history == old(history)
    {
      if step == 2 {
        step := 1;
      } else if step == 4 {
        step := 3;
      } else {
        nav := PreviousPage;
      }
    }
  }
}
