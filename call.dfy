/**
 * The call screen: subtitles with the tutor's tone cues removed, the
 * learner's turn and word counters, the subtitle modes, and the call record
 * written to the history when the call ends.
 */
module CallPage {
  import opened Wrappers
  import opened Text
  import Helpers

  // ---------------------------------------------------------------- subtitles

  /**
   * The global replacement of the tone-cue pattern (a star, one or more
   * non-star characters, a star, then any white space): scanning left to
   * right, a star that a later star closes with at least one character
   * between them starts a cue; the cue, its closing star and the white space
   * after it are dropped and the scan resumes after them.
   */
  function StripCues(s: string): (r: string)
    ensures |r| <= |s|
    decreases |s|
  {
    if s == [] then []
    else if s[0] == '*' && '*' in s[1..] && IndexOf(s[1..], '*') > 0 then
      var close := 1 + IndexOf(s[1..], '*');
      StripCues(TrimStart(s[close + 1..]))
    else [s[0]] + StripCues(s[1..])
  }

  /** Neither starts nor ends with white space. */
  predicate Trimmed(r: string) {
    r == [] || (!IsSpace(r[0]) && !IsSpace(r[|r| - 1]))
  }

  /** `cleanSubtitleText`: "" for no text; otherwise the cues are dropped and the rest trimmed. */
  function CleanSubtitleText(text: Option<string>): (r: string)
    ensures text.None? || text.value == "" ==> r == ""
    ensures Trimmed(r)
  {
    if text.None? || text.value == "" then ""
    else
      var r := Trim(TrimStart(StripCues(text.value)));
      assert Trimmed(r);
      r
  }

  /** Text without stars has no cue to drop. */
  lemma {:induction false} NoStarsUnchanged(s: string)
    requires '*' !in s
    ensures StripCues(s) == s
  {
    if s != [] {
      assert s[1..] == s[1..] && '*' !in s[1..];
      NoStarsUnchanged(s[1..]);
      assert s == [s[0]] + s[1..];
    }
  }

  /** A leading tone cue and the blanks after it vanish, leaving the star-free rest. */
  lemma LeadingCueDropped(cue: string, rest: string)
    requires cue != [] && '*' !in cue && '*' !in rest
    ensures StripCues("*" + cue + "*" + rest) == TrimStart(rest)
  {
    var s := "*" + cue + "*" + rest;
    assert s[1..] == cue + "*" + rest;
    IndexOfAfterFree(cue, '*', rest);
    assert s[|cue| + 2..] == rest;
    var t := TrimStart(rest);
    assert '*' !in t by {
      assert t == rest[|rest| - |t|..];
    }
    NoStarsUnchanged(t);
  }

  /** The subtitle modes. */
  datatype Mode = All | English | Translation | Off

  const TranslationPlaceholder := "(번역 준비 중...)"

  /**
   * `getSubtitleContent`: nothing when subtitles are off, the translation (or
   * a placeholder while it is missing) in translation mode, and the cleaned
   * subtitle in both other modes.
   */
  function SubtitleContent(mode: Mode, subtitle: string, translation: string): (r: Option<string>)
    ensures r.None? <==> mode == Off
    ensures mode == Translation ==> r == Some(if translation != "" then translation else TranslationPlaceholder)
    ensures mode == English || mode == All ==> r == Some(CleanSubtitleText(Some(subtitle)))
  {
    match mode
    case Off => None
    case English => Some(CleanSubtitleText(Some(subtitle)))
    case Translation => Some(if translation != "" then translation else TranslationPlaceholder)
    case All => Some(CleanSubtitleText(Some(subtitle)))
  }

  /** Outside translation mode the shown subtitle never starts or ends with white space. */
  lemma SubtitleTrimmed(mode: Mode, subtitle: string, translation: string)
    requires mode == All || mode == English
    ensures Trimmed(SubtitleContent(mode, subtitle, translation).value)
  {
    var r := CleanSubtitleText(Some(subtitle));
    assert SubtitleContent(mode, subtitle, translation) == Some(r);
  }

  // ---------------------------------------------------------------- the call

  /** A message of the call; the learner's carry their turn number and running word total. */
  datatype CallMessage = CallMessage(role: Option<string>, content: string, speaker: string,
                                     turnNumber: Option<nat>, totalWords: Option<nat>)

  /** `text.split(' ').length`. */
  function Pieces(text: string): (n: nat)
    ensures n >= 1
  {
    |Split(text, ' ')|
  }

  function UserTurns(ms: seq<CallMessage>): nat {
    if ms == [] then 0 else UserTurns(ms[..|ms| - 1]) + (if ms[|ms| - 1].speaker == "user" then 1 else 0)
  }

  function UserPieces(ms: seq<CallMessage>): nat {
    if ms == [] then 0
    else UserPieces(ms[..|ms| - 1]) + (if ms[|ms| - 1].speaker == "user" then Pieces(ms[|ms| - 1].content) else 0)
  }

  /** Each of the learner's messages is numbered by its turn and carries the words spoken up to it. */
  predicate Numbered(ms: seq<CallMessage>) {
    forall k :: 0 <= k < |ms| ==> NumberedAt(ms, k)
  }

  predicate NumberedAt(ms: seq<CallMessage>, k: nat)
    requires k < |ms|
  {
    ms[k].speaker == "user" ==>
      ms[k].turnNumber == Some(UserTurns(ms[..k + 1])) && ms[k].totalWords == Some(UserPieces(ms[..k + 1]))
  }

  /** Appending a message keeps the numbering when a learner's message carries the next turn and total. */
  lemma NumberedSnoc(ms: seq<CallMessage>, m: CallMessage)
    requires Numbered(ms)
    requires m.speaker == "user" ==>
      m.turnNumber == Some(UserTurns(ms) + 1) && m.totalWords == Some(UserPieces(ms) + Pieces(m.content))
    ensures Numbered(ms + [m])
    ensures UserTurns(ms + [m]) == UserTurns(ms) + (if m.speaker == "user" then 1 else 0)
    ensures UserPieces(ms + [m]) == UserPieces(ms) + (if m.speaker == "user" then Pieces(m.content) else 0)
  {
    var updated := ms + [m];
    assert updated[..|updated| - 1] == ms;
    forall k | 0 <= k < |updated| ensures NumberedAt(updated, k) {
      if k < |ms| {
        assert NumberedAt(ms, k);
        assert updated[..k + 1] == ms[..k + 1];
      } else {
        assert updated[..k + 1] == updated;
      }
    }
  }

  /** The summary of the finished call that the result screen reads back. */
  datatype CallResult = CallResult(duration: nat, messages: seq<CallMessage>, date: string, turnCount: nat,
                                   wordCount: nat, tutorName: string)

  /** A call record in the history, as the home screen reads it. */
  datatype HistoryRecord = HistoryRecord(id: int, timestamp: string, date: string, fullDate: string,
                                         duration: string, durationSeconds: int, words: nat, turnCount: nat,
                                         tutorName: string)

  /** The most entries the history keeps. */
  const HistoryCap: nat := 50

  /** `formatTime` of this screen: `mm:ss` with no special case for zero. */
  function FormatTime(seconds: nat): (r: string)
    ensures Helpers.Fields(r, seconds / 60, seconds % 60)
  {
    Helpers.MinSecReadsBack(seconds);
    Helpers.MinSec(seconds)
  }

  /** The tutor on this screen: James for a male tutor, Gwen otherwise, as everywhere else. */
  function TutorName(gender: Option<string>): (r: string)
    ensures r == Helpers.TutorName(None, gender)
    ensures r == "James" <==> gender == Some("male")
  {
    if (if gender.Some? && gender.value != "" then gender.value else "female") == "male" then "James" else "Gwen"
  }

  /** The records kept in the saved history: none when nothing is saved. */
  function SavedRecords(stored: Option<Helpers.Entry<seq<HistoryRecord>>>): seq<HistoryRecord>
    requires stored != Some(Helpers.Unparsable)
  {
    if stored.Some? then stored.value.value else []
  }

  class Session {
    const tutorName: string
    var messages: seq<CallMessage>
    var turnCount: nat
    var wordCount: nat
    var currentSubtitle: string
    var callTime: nat
    /** `localStorage.callHistory`: missing, unreadable, or the saved records. */
    var callHistory: Option<Helpers.Entry<seq<HistoryRecord>>>
    /** `localStorage.lastCallResult`, or nothing stored. */
    var lastCallResult: Option<CallResult>

    /** The counters are the learner's turns and space-split pieces so far. */
    predicate Valid()
      reads this`turnCount, this`wordCount, this`messages
    {
      turnCount == UserTurns(messages) && wordCount == UserPieces(messages) && Numbered(messages)
    }

    /**
     * Mounting the screen and `startConversation`: the tutor's greeting, or the
     * fixed greeting when the service fails, is the first message and subtitle.
     */
    constructor (tutorName: string, greeting: Option<string>, callHistory: Option<Helpers.Entry<seq<HistoryRecord>>>,
                 lastCallResult: Option<CallResult>)
      ensures Valid() && this.tutorName == tutorName && this.callHistory == callHistory
      ensures this.lastCallResult == lastCallResult
      ensures turnCount == 0 && wordCount == 0 && callTime == 0
      ensures greeting.Some? ==>
        (messages == [CallMessage(Some("assistant"), greeting.value, "ai", None, None)] && currentSubtitle == greeting.value)
      ensures greeting.None? ==>
        var mock := "Hello! This is " + tutorName + ". How are you doing today?";
        messages == [CallMessage(None, mock, "ai", None, None)] && currentSubtitle == mock
    {
      this.tutorName := tutorName;
      turnCount := 0;
      wordCount := 0;
      callTime := 0;
      this.callHistory := callHistory;
      this.lastCallResult := lastCallResult;
      if greeting.Some? {
        messages := [CallMessage(Some("assistant"), greeting.value, "ai", None, None)];
        currentSubtitle := greeting.value;
      } else {
        var mock := "Hello! This is " + tutorName + ". How are you doing today?";
        messages := [CallMessage(None, mock, "ai", None, None)];
        currentSubtitle := mock;
      }
    }

    /** The timer's tick. */
    method Tick()
      requires Valid()
      modifies this`callTime
      ensures Valid() && callTime == old(callTime) + 1
    {
      callTime := callTime + 1;
    }

    /**
     * `handleUserSpeech`: blank speech (all white space, so that it trims to
     * nothing, as `Trim`'s contract says) is ignored. Otherwise the learner's
     * message is added with the next turn number and the new word total, and
     * the tutor's reply, when the service sends one, follows it and becomes
     * the subtitle.
     */
    method HandleUserSpeech(text: string, reply: Option<string>)
      requires Valid()
      modifies this`messages, this`turnCount, this`wordCount, this`currentSubtitle
      ensures Valid()
      ensures AllSpace(text) ==>
        messages == old(messages) && turnCount == old(turnCount) && wordCount == old(wordCount)
        && currentSubtitle == old(currentSubtitle)
      ensures !AllSpace(text) ==>
        turnCount == old(turnCount) + 1 && wordCount == old(wordCount) + Pieces(text)
        && currentSubtitle == (if reply.Some? then reply.value else text)
      ensures !AllSpace(text) && reply.None? ==>
        messages == old(messages) + [CallMessage(Some("user"), text, "user", Some(turnCount), Some(wordCount))]
      ensures !AllSpace(text) && reply.Some? ==>
        messages == old(messages) + [CallMessage(Some("user"), text, "user", Some(turnCount), Some(wordCount))]
          + [CallMessage(Some("assistant"), reply.value, "ai", None, None)]
    {
      if AllSpace(text) {
        return;
      }
      var newTurnCount := turnCount + 1;
      var newWordCount := wordCount + Pieces(text);
      var userMessage := CallMessage(Some("user"), text, "user", Some(newTurnCount), Some(newWordCount));
      NumberedSnoc(messages, userMessage);
      messages := messages + [userMessage];
      turnCount := newTurnCount;
      wordCount := newWordCount;
      currentSubtitle := text;
      if reply.Some? {
        var aiMessage := CallMessage(Some("assistant"), reply.value, "ai", None, None);
        NumberedSnoc(messages, aiMessage);
        messages := messages + [aiMessage];
        currentSubtitle := reply.value;
      }
    }

    /**
     * `handleEndCall`: the call's summary is stored as the last result, then
     * the call's record goes first in the history, which keeps at most 50
     * entries; an unreadable history fails before the history is written,
     * and the result screen is not opened.
     */
    method HandleEndCall(nowMs: int, resultIso: string, nowIso: string, dateLabel: string, fullDateLabel: string)
      returns (navigated: bool)
      requires Valid()
      modifies this`callHistory, this`lastCallResult
      ensures Valid()
      ensures lastCallResult == Some(CallResult(callTime, messages, resultIso, turnCount, wordCount, tutorName))
      ensures navigated <==> old(callHistory) != Some(Helpers.Unparsable)
      ensures !navigated ==> callHistory == old(callHistory)
      ensures navigated ==>
        callHistory == Some(Helpers.Parsed(Helpers.PrependCapped(
          HistoryRecord(nowMs, nowIso, dateLabel, fullDateLabel, FormatTime(callTime), callTime,
                        wordCount, turnCount, tutorName),
          SavedRecords(old(callHistory)), HistoryCap)))
    {
      lastCallResult := Some(CallResult(callTime, messages, resultIso, turnCount, wordCount, tutorName));
      if callHistory == Some(Helpers.Unparsable) {
        return false;
      }
      var record := HistoryRecord(nowMs, nowIso, dateLabel, fullDateLabel, FormatTime(callTime), callTime,
                                  wordCount, turnCount, tutorName);
      callHistory := Some(Helpers.Parsed(Helpers.PrependCapped(record, SavedRecords(callHistory), HistoryCap)));
      return true;
    }
  }

  /**
   * `handleUserSpeech` as the recognition callback runs it: the callback is
   * bound once, when the screen mounts, so every utterance is handled with
   * that render's state (no messages and both counters 0), whatever was said
   * before. The result is the new messages, turn count and word count, or
   * `None` for blank speech.
   */
  function SpeechAsWritten(text: string, reply: Option<string>): (r: Option<(seq<CallMessage>, nat, nat)>)
    ensures r.None? <==> AllSpace(text)
    ensures r.Some? ==> r.value.1 == 1 && r.value.2 == Pieces(text)
    ensures r.Some? ==> |r.value.0| == (if reply.Some? then 2 else 1) && r.value.0[0].content == text
  {
    if AllSpace(text) then None
    else
      var user := CallMessage(Some("user"), text, "user", Some(1), Some(Pieces(text)));
      var ai := if reply.Some? then [CallMessage(Some("assistant"), reply.value, "ai", None, None)] else [];
      Some(([user] + ai, 1, Pieces(text)))
  }

  /**
   * After the greeting, "Hi" and then "I am fine", each answered, the written
   * screen counts one turn and three words and holds only the last exchange,
   * where two turns, four words and five messages were said.
   */
  lemma SecondUtteranceCountsOne()
    ensures var r := SpeechAsWritten("I am fine", Some("Great!"));
      r.Some? && r.value.1 == 1 && r.value.2 == 3 && |r.value.0| == 2
    ensures Pieces("Hi") + Pieces("I am fine") == 4
  {
    FineNotBlank();
    ThreeWords();
    OneWord("Hi");
  }

  lemma FineNotBlank()
    ensures !AllSpace("I am fine")
  {
    var t := "I am fine";
    assert !IsSpace(t[0]);
  }

  lemma OneWord(w: string)
    requires ' ' !in w
    ensures Pieces(w) == 1
  {
  }

  lemma ThreeWords()
    ensures Pieces("I am fine") == 3
  {
    var a, b, c := "I", "am", "fine";
    assert ' ' !in a && ' ' !in b && ' ' !in c;
    SplitThree(a, b, c, ' ');
    assert a + [' '] + b + [' '] + c == "I am fine";
  }

  /** The saved history starts with the call just ended and never exceeds 50 entries. */
  lemma EndedCallFirst(record: HistoryRecord, before: seq<HistoryRecord>)
    ensures Helpers.PrependCapped(record, before, HistoryCap)[0] == record
    ensures |Helpers.PrependCapped(record, before, HistoryCap)| <= HistoryCap
    ensures |before| < HistoryCap ==> Helpers.PrependCapped(record, before, HistoryCap)[1..] == before
  {
  }
}
