/**
 * The call transcript screen: the messages of a past call with per-message
 * translation and correction toggles, the learner's turn number and the
 * running count of words spoken.
 */
module Script {
  import opened Wrappers
  import opened Text

  /** A message as the session-detail endpoint returns it. */
  datatype DbMessage = DbMessage(messageId: Option<string>, role: string, content: Option<string>, turnNumber: Option<int>)

  /** A message as the screen holds it. */
  datatype Msg = Msg(id: string, role: string, content: Option<string>, turnNumber: int, wordCount: nat)

  /** `msg.content ? msg.content.split(' ').length : 0`: the number of space-separated pieces, empty ones included. */
  function PieceCount(content: Option<string>): (n: nat)
    ensures content.None? || content.value == "" ==> n == 0
    ensures content.Some? && content.value != "" ==> n == |Split(content.value, ' ')| && n >= 1
  {
    if content.None? || content.value == "" then 0 else |Split(content.value, ' ')|
  }

  /** The mapping in `loadSessionFromDB`: a missing id becomes `msg-<idx>`, a missing or zero turn number becomes `idx`. */
  function FromDb(m: DbMessage, idx: nat): (r: Msg)
    ensures r.id == (if m.messageId.Some? && m.messageId.value != "" then m.messageId.value else "msg-" + NatToString(idx))
    ensures r.turnNumber == (if m.turnNumber.Some? && m.turnNumber.value != 0 then m.turnNumber.value else idx)
    ensures r.role == m.role && r.content == m.content && r.wordCount == PieceCount(m.content)
  {
    Msg(if m.messageId.Some? && m.messageId.value != "" then m.messageId.value else "msg-" + NatToString(idx),
        m.role, m.content,
        if m.turnNumber.Some? && m.turnNumber.value != 0 then m.turnNumber.value else idx,
        PieceCount(m.content))
  }

  function FromDbAll(ms: seq<DbMessage>): (r: seq<Msg>)
    ensures |r| == |ms| && forall k :: 0 <= k < |ms| ==> r[k] == FromDb(ms[k], k)
  {
    seq(|ms|, k requires 0 <= k < |ms| => FromDb(ms[k], k))
  }

  /** Messages without their own id get distinct positional ids. */
  lemma PositionalIdsDistinct(ms: seq<DbMessage>, i: nat, j: nat)
    requires i < j < |ms| && ms[i].messageId.None? && ms[j].messageId.None?
    ensures FromDbAll(ms)[i].id != FromDbAll(ms)[j].id
  {
    var a, b := NatToString(i), NatToString(j);
    DigitsValueOfNatToString(i);
    DigitsValueOfNatToString(j);
    assert FromDbAll(ms)[i].id == "msg-" + a && FromDbAll(ms)[j].id == "msg-" + b;
    assert ("msg-" + a)[4..] == a && ("msg-" + b)[4..] == b;
    assert a != b;
  }

  // ---------------------------------------------------------------- counters

  function UserTurns(ms: seq<Msg>): nat {
    if ms == [] then 0 else UserTurns(ms[..|ms| - 1]) + (if ms[|ms| - 1].role == "user" then 1 else 0)
  }

  /** `split(' ').filter(w => w.length > 0).length`. */
  function NonEmpty(parts: seq<string>): nat {
    if parts == [] then 0 else NonEmpty(parts[..|parts| - 1]) + (if parts[|parts| - 1] != "" then 1 else 0)
  }

  function WordsOf(m: Msg): nat {
    if m.role == "user" && m.content.Some? && m.content.value != "" then NonEmpty(Split(m.content.value, ' ')) else 0
  }

  function UserWords(ms: seq<Msg>): nat {
    if ms == [] then 0 else UserWords(ms[..|ms| - 1]) + WordsOf(ms[|ms| - 1])
  }

  /** How many of the messages a 0..`index` loop looks at. */
  function Seen(ms: seq<Msg>, index: int): (n: nat)
    ensures n <= |ms|
  {
    if index < 0 then 0 else if index + 1 >= |ms| then |ms| else index + 1
  }

  /** `getUserTurnNumber(index)`: the learner's messages among positions 0..`index` (positions past the end count nothing). */
  method GetUserTurnNumber(ms: seq<Msg>, index: int) returns (turnCount: nat)
    ensures turnCount == UserTurns(ms[..Seen(ms, index)])
  {
    turnCount := 0;
    var i := 0;
    while i <= index
      invariant 0 <= i && (i <= index + 1 || i == 0)
      invariant turnCount == UserTurns(ms[..Seen(ms, i - 1)])
      decreases index - i
    {
      if i < |ms| {
        assert ms[..i + 1][..i] == ms[..i];
        if ms[i].role == "user" {
          turnCount := turnCount + 1;
        }
      }
      i := i + 1;
    }
  }

  /** `getCumulativeWordCount(index)`: the non-empty words of the learner's messages among positions 0..`index`. */
  method GetCumulativeWordCount(ms: seq<Msg>, index: int) returns (wordCount: nat)
    ensures wordCount == UserWords(ms[..Seen(ms, index)])
  {
    wordCount := 0;
    var i := 0;
    while i <= index
      invariant 0 <= i && (i <= index + 1 || i == 0)
      invariant wordCount == UserWords(ms[..Seen(ms, i - 1)])
      decreases index - i
    {
      if i < |ms| {
        assert ms[..i + 1][..i] == ms[..i];
        if ms[i].role == "user" && ms[i].content.Some? && ms[i].content.value != "" {
          wordCount := wordCount + NonEmpty(Split(ms[i].content.value, ' '));
        }
      }
      i := i + 1;
    }
  }

  /** Both counts only grow along the transcript. */
  lemma {:induction false} CountsGrow(ms: seq<Msg>, i: nat, j: nat)
    requires i <= j <= |ms|
    ensures UserTurns(ms[..i]) <= UserTurns(ms[..j])
    ensures UserWords(ms[..i]) <= UserWords(ms[..j])
    decreases j - i
  {
    if i < j {
      CountsGrow(ms, i, j - 1);
      assert ms[..j][..j - 1] == ms[..j - 1];
    }
  }

  /** A learner's message is numbered one past the learner's messages before it. */
  lemma UserTurnIsNext(ms: seq<Msg>, i: nat)
    requires i < |ms| && ms[i].role == "user"
    ensures UserTurns(ms[..i + 1]) == UserTurns(ms[..i]) + 1 >= 1
  {
    assert ms[..i + 1][..i] == ms[..i];
  }

  /** The words of the learner never exceed the space-separated pieces of their messages. */
  lemma {:induction false} NonEmptyAtMost(parts: seq<string>)
    ensures NonEmpty(parts) <= |parts|
  {
    if parts != [] {
      NonEmptyAtMost(parts[..|parts| - 1]);
    }
  }

  // ---------------------------------------------------------------- toggles

  datatype CorrectionView = Loading | Done | Hidden

  /** `requestCorrection`: done hides, hidden shows again, anything else starts loading. */
  function NextCorrection(current: Option<CorrectionView>): (r: CorrectionView)
    ensures current == Some(Done) ==> r == Hidden
    ensures current == Some(Hidden) ==> r == Done
    ensures current != Some(Done) && current != Some(Hidden) ==> r == Loading
  {
    if current == Some(Done) then Hidden
    else if current == Some(Hidden) then Done
    else Loading
  }

  /** Once a correction has loaded, the button toggles it: two presses restore the view. */
  lemma CorrectionToggles(v: CorrectionView)
    requires v != Loading
    ensures NextCorrection(Some(NextCorrection(Some(v)))) == v
  {
  }

  /** How the translation request ended. */
  datatype Fetch = Translated(text: string) | Failed

  const TranslationFallback := "번역을 불러올 수 없습니다."

  function Lookup<V>(m: map<string, V>, k: string, default: V): V {
    if k in m then m[k] else default
  }

  class Transcript {
    var messages: seq<Msg>
    var showTranslation: map<string, bool>
    var translations: map<string, string>
    var loadingTranslation: map<string, bool>
    var showCorrection: map<string, CorrectionView>

    constructor ()
      ensures messages == [] && showTranslation == map[] && translations == map[]
      ensures loadingTranslation == map[] && showCorrection == map[]
    {
      messages := [];
      showTranslation := map[];
      translations := map[];
      loadingTranslation := map[];
      showCorrection := map[];
    }

    /** A loaded session replaces the messages only when it has some. */
    method LoadSessionMessages(fetched: Option<seq<DbMessage>>)
      modifies this`messages
      ensures fetched.Some? && fetched.value != [] ==> messages == FromDbAll(fetched.value)
      ensures !(fetched.Some? && fetched.value != []) ==> messages == old(messages)
    {
      if fetched.Some? && fetched.value != [] {
        messages := FromDbAll(fetched.value);
      }
    }

    /**
     * `toggleTranslation`: a shown translation is hidden; otherwise it is shown,
     * and fetched only when nothing is cached, a failure caching the fallback.
     */
    method ToggleTranslation(id: string, response: Fetch) returns (requested: bool)
      modifies this`showTranslation, this`translations, this`loadingTranslation
      ensures Lookup(old(showTranslation), id, false) ==>
        showTranslation == old(showTranslation)[id := false]
        && translations == old(translations) && loadingTranslation == old(loadingTranslation) && !requested
      ensures !Lookup(old(showTranslation), id, false) ==> showTranslation == old(showTranslation)[id := true]
      ensures requested <==> !Lookup(old(showTranslation), id, false) && Lookup(old(translations), id, "") == ""
      ensures !requested ==> translations == old(translations) && loadingTranslation == old(loadingTranslation)
      ensures requested ==> loadingTranslation == old(loadingTranslation)[id := false]
      ensures requested && response.Failed? ==> translations == old(translations)[id := TranslationFallback]
      ensures requested && response.Translated? && response.text != "" ==>
        translations == old(translations)[id := response.text]
      ensures requested && response.Translated? && response.text == "" ==> translations == old(translations)
    {
      if Lookup(showTranslation, id, false) {
        showTranslation := showTranslation[id := false];
        return false;
      }
      showTranslation := showTranslation[id := true];
      if Lookup(translations, id, "") != "" {
        return false;
      }
      requested := true;
      loadingTranslation := loadingTranslation[id := true];
      if response.Failed? {
        translations := translations[id := TranslationFallback];
      } else if response.text != "" {
        translations := translations[id := response.text];
      }
      loadingTranslation := loadingTranslation[id := false];
    }

    /** The correction button; the result says whether the 1.5 s completion timer was started. */
    method RequestCorrection(id: string) returns (timerStarted: bool)
      modifies this`showCorrection
      ensures showCorrection == old(showCorrection)[id := NextCorrection(if id in old(showCorrection) then Some(old(showCorrection)[id]) else None)]
      ensures timerStarted <==> showCorrection[id] == Loading
    {
      var current := if id in showCorrection then Some(showCorrection[id]) else None;
      var next := NextCorrection(current);
      showCorrection := showCorrection[id := next];
      timerStarted := next == Loading;
    }

    /** The completion timer: the message's correction is shown. */
    method CorrectionLoaded(id: string)
      modifies this`showCorrection
      ensures showCorrection == old(showCorrection)[id := Done]
    {
      showCorrection := showCorrection[id := Done];
    }
  }
}
