/**
 * The client's shared helpers: `mm:ss` rendering, word counting, typed
 * local storage with a default for missing or unreadable values, the
 * newest-first capped history lists, tutor names and message filtering.
 */
module Helpers {
  import opened Wrappers
  import opened Text

  const MaxCallHistory: nat := 10

  // ---------------------------------------------------------------- time

  /** JavaScript's `a % b`: the remainder takes the sign of the dividend. */
  function JsRem(a: int, b: int): (r: int)
    requires b > 0
    ensures a >= 0 ==> 0 <= r < b && r == a % b
    ensures a < 0 ==> -b < r <= 0 && r == -((-a) % b)
  {
    if a >= 0 then a % b else -((-a) % b)
  }

  /**
   * `` `${Math.floor(s / 60)}`.padStart(2, '0') + ':' + `${s % 60}`.padStart(2, '0') ``
   * for a whole number of seconds.
   */
  function MinSec(seconds: int): string {
    PadStart2(IntToString(seconds / 60)) + ":" + PadStart2(IntToString(JsRem(seconds, 60)))
  }

  /** `padStart(2, '0')` of a rendered number is the two-digit padding of the number. */
  lemma PadStartOfNat(n: nat)
    ensures PadStart2(NatToString(n)) == Pad2(n)
  {
  }

  /** Two digit fields around a colon. */
  predicate Fields(r: string, hi: nat, lo: nat) {
    |r| >= 5 && r[|r| - 3] == ':'
    && (forall i :: 0 <= i < |r| - 3 ==> IsDigit(r[i]))
    && (forall i :: |r| - 2 <= i < |r| ==> IsDigit(r[i]))
    && DigitsValue(r[..|r| - 3]) == hi && DigitsValue(r[|r| - 2..]) == lo
  }

  lemma ColonJoin(m: string, s: string)
    requires |m| >= 2 && |s| == 2
    requires forall i :: 0 <= i < |m| ==> IsDigit(m[i])
    requires forall i :: 0 <= i < |s| ==> IsDigit(s[i])
    ensures Fields(m + ":" + s, DigitsValue(m), DigitsValue(s))
  {
    var r := m + ":" + s;
    assert r[..|r| - 3] == m;
    assert r[|r| - 2..] == s;
    forall i | 0 <= i < |r| - 3 ensures IsDigit(r[i]) {
      assert r[i] == m[i];
    }
    forall i | |r| - 2 <= i < |r| ensures IsDigit(r[i]) {
      assert r[i] == s[i - (|r| - 2)];
    }
  }

  /** For a non-negative count the rendering reads back as minutes, a colon and two-digit seconds. */
  lemma MinSecReadsBack(seconds: nat)
    ensures Fields(MinSec(seconds), seconds / 60, seconds % 60)
  {
    PadStartOfNat(seconds / 60);
    PadStartOfNat(seconds % 60);
    ColonJoin(Pad2(seconds / 60), Pad2(seconds % 60));
  }

  /**
   * `formatTime`: "0:00" for a missing or zero input (`null`, `undefined`,
   * `NaN` and `0` are all falsy), else the `mm:ss` rendering.
   */
  function FormatTime(seconds: Option<int>): (r: string)
    ensures seconds.None? || seconds.value == 0 ==> r == "0:00"
    ensures seconds.Some? && seconds.value > 0 ==> Fields(r, seconds.value / 60, seconds.value % 60)
  {
    if seconds.None? || seconds.value == 0 then "0:00"
    else if seconds.value > 0 then
      MinSecReadsBack(seconds.value);
      MinSec(seconds.value)
    else MinSec(seconds.value)
  }

  /** The documented example: 125 seconds read "02:05". */
  lemma FormatTimeExample()
    ensures FormatTime(Some(125)) == "02:05"
  {
    assert 125 / 60 == 2 && JsRem(125, 60) == 5;
    assert IntToString(2) == "2" && IntToString(5) == "5";
    assert PadStart2("2") == "02" && PadStart2("5") == "05";
  }

  // ---------------------------------------------------------------- words

  /** `countWords`: 0 for a missing or empty text, else the number of white-space separated words. */
  function CountWords(text: Option<string>): (n: nat)
    ensures text.None? ==> n == 0
    ensures text.Some? ==> (n == 0 <==> AllSpace(text.value))
  {
    if text.None? || text.value == "" then 0 else
      SpaceFreeRuns(text.value, true);
      WordCount(text.value)
  }

  /**
   * Words separated by runs of white space, with any white space before and
   * after, count as exactly that many words.
   */
  lemma CountWordsOfInterleave(lead: string, words: seq<string>, seps: seq<string>, trail: string)
    requires AllSpace(lead) && AllSpace(trail)
    requires forall i :: 0 <= i < |words| ==> IsWord(words[i])
    requires |seps| == if words == [] then 0 else |words| - 1
    requires forall i :: 0 <= i < |seps| ==> seps[i] != [] && AllSpace(seps[i])
    ensures CountWords(Some(lead + Interleave(words, seps) + trail)) == |words|
  {
    var body := Interleave(words, seps);
    assert lead + body + trail == lead + (body + trail);
    RunsOfSpace(lead, body + trail, true);
    RunsOfInterleave(words, seps, trail);
  }

  /** The documented example: "  Hello   world  " holds two words. */
  lemma CountWordsExample()
    ensures CountWords(Some("  Hello   world  ")) == 2
  {
    var words, seps := ["Hello", "world"], ["   "];
    assert Interleave(words, seps) == "Hello   world";
    assert forall i :: 0 <= i < |words| ==> IsWord(words[i]);
    CountWordsOfInterleave("  ", words, seps, "  ");
    assert "  " + "Hello   world" + "  " == "  Hello   world  ";
  }

  /** A text has no word exactly when it is all white space. */
  lemma {:induction false} SpaceFreeRuns(s: string, prev: bool)
    requires prev
    ensures Runs(s, prev) == 0 <==> AllSpace(s)
    decreases |s|
  {
    if s != [] && IsSpace(s[0]) {
      SpaceFreeRuns(s[1..], true);
      assert AllSpace(s) <==> AllSpace(s[1..]) by {
        assert forall i :: 0 < i < |s| ==> s[i] == s[1..][i - 1];
      }
    }
  }

  // ---------------------------------------------------------------- storage

  /** What a storage key holds: a value `JSON.parse` reads back, or text it cannot parse. */
  datatype Entry<V> = Parsed(value: V) | Unparsable

  /** `getFromStorage`: the stored value, or the default when the key is missing or unparsable. */
  function GetFromStorage<V>(storage: map<string, Entry<V>>, key: string, default: V): (r: V)
    ensures key !in storage || storage[key].Unparsable? ==> r == default
  {
    if key in storage && storage[key].Parsed? then storage[key].value else default
  }

  /** `setToStorage`. */
  function SetToStorage<V>(storage: map<string, Entry<V>>, key: string, value: V): (r: map<string, Entry<V>>)
    ensures r.Keys == storage.Keys + {key}
  {
    storage[key := Parsed(value)]
  }

  /** What is saved is read back, and no other key is affected. */
  lemma StorageRoundTrip<V>(storage: map<string, Entry<V>>, key: string, other: string, value: V, default: V)
    ensures GetFromStorage(SetToStorage(storage, key, value), key, default) == value
    ensures other != key ==>
      GetFromStorage(SetToStorage(storage, key, value), other, default) == GetFromStorage(storage, other, default)
  {
  }

  // ---------------------------------------------------------------- history lists

  function Min(a: int, b: int): int {
    if a <= b then a else b
  }

  /** `list.unshift(x); list.slice(0, cap)`: the newest first, then the most recent of the rest. */
  function PrependCapped<T>(x: T, s: seq<T>, cap: nat): (r: seq<T>)
    requires cap >= 1
    ensures |r| == Min(|s| + 1, cap)
    ensures r[0] == x && r[1..] == s[..|r| - 1]
  {
    ([x] + s)[..Min(|s| + 1, cap)]
  }

  /** Adding twice keeps both, newest first. */
  lemma PrependTwice<T>(x: T, y: T, s: seq<T>, cap: nat)
    requires cap >= 2
    ensures PrependCapped(y, PrependCapped(x, s, cap), cap)[..2] == [y, x]
  {
  }

  datatype CallRecord = CallRecord(date: string, fullDate: string, duration: string, words: int, tutorName: string)

  /** The device's stored identity and call history. */
  class Device {
    var deviceId: Option<string>
    var callHistory: Option<Entry<seq<CallRecord>>>

    constructor (deviceId: Option<string>, callHistory: Option<Entry<seq<CallRecord>>>)
      ensures this.deviceId == deviceId && this.callHistory == callHistory
    {
      this.deviceId := deviceId;
      this.callHistory := callHistory;
    }

    /** `getCallHistory`: the stored list, empty when missing or unparsable. */
    function History(): (r: seq<CallRecord>)
      reads this
      ensures callHistory.None? || callHistory.value.Unparsable? ==> r == []
    {
      if callHistory.Some? && callHistory.value.Parsed? then callHistory.value.value else []
    }

    /** `addCallHistory`: the record goes first and the list keeps its ten newest. */
    method AddCallHistory(record: CallRecord) returns (saved: bool)
      modifies this
      ensures saved && deviceId == old(deviceId)
      ensures callHistory == Some(Parsed(PrependCapped(record, old(History()), MaxCallHistory)))
      ensures History()[0] == record && |History()| <= MaxCallHistory
      ensures History()[1..] == old(History())[..|History()| - 1]
    {
      var history := History();
      callHistory := Some(Parsed(PrependCapped(record, history, MaxCallHistory)));
      return true;
    }

    /** `getDeviceId`: the stored id; a generated one is stored when none is. */
    method GetDeviceId(generated: string) returns (id: string)
      modifies this
      ensures callHistory == old(callHistory)
      ensures old(deviceId).Some? && old(deviceId).value != "" ==>
        id == old(deviceId).value && deviceId == old(deviceId)
      ensures old(deviceId).None? || old(deviceId).value == "" ==> id == generated && deviceId == Some(generated)
      ensures deviceId == Some(id)
    {
      if deviceId.Some? && deviceId.value != "" {
        return deviceId.value;
      }
      deviceId := Some(generated);
      return generated;
    }
  }

  // ---------------------------------------------------------------- tutors and messages

  /** `getTutorName`: the chosen name, else the default name for the gender. */
  function TutorName(tutorName: Option<string>, gender: Option<string>): (r: string)
    ensures r != ""
    ensures tutorName.Some? && tutorName.value != "" ==> r == tutorName.value
    ensures (tutorName.None? || tutorName.value == "") ==> (r == "James" <==> gender == Some("male"))
    ensures (tutorName.None? || tutorName.value == "") ==> r in {"James", "Gwen"}
  {
    if tutorName.Some? && tutorName.value != "" then tutorName.value
    else if gender == Some("male") then "James" else "Gwen"
  }

  /** `getTutorInitial`: the first character, "G" for a missing or empty name. */
  function TutorInitial(name: Option<string>): (r: string)
    ensures |r| == 1
    ensures name.Some? && name.value != "" ==> r == name.value[..1]
    ensures name.None? || name.value == "" ==> r == "G"
  {
    if name.Some? && name.value != "" then [name.value[0]] else "G"
  }

  datatype Message = Message(role: Option<string>, speaker: Option<string>, text: string)

  /** A message belongs to a role by its `role`, or by its `speaker` alias (`ai` for the assistant). */
  predicate HasRole(m: Message, role: string) {
    m.role == Some(role) || m.speaker == Some(if role == "assistant" then "ai" else role)
  }

  /** `filterMessagesByRole`: `[]` when there is no list, else the messages of the role in their order. */
  function FilterByRole(messages: Option<seq<Message>>, role: string): (r: seq<Message>)
    ensures messages.None? ==> r == []
    ensures forall i :: 0 <= i < |r| ==> HasRole(r[i], role)
    ensures messages.Some? ==>
      forall m :: multiset(r)[m] == if HasRole(m, role) then multiset(messages.value)[m] else 0
  {
    if messages.None? then [] else Filter(messages.value, role)
  }

  function Filter(ms: seq<Message>, role: string): (r: seq<Message>)
    ensures |r| <= |ms|
    ensures forall i :: 0 <= i < |r| ==> HasRole(r[i], role)
    ensures forall m :: multiset(r)[m] == if HasRole(m, role) then multiset(ms)[m] else 0
  {
    if ms == [] then []
    else
      var rest := Filter(ms[1..], role);
      assert ms == [ms[0]] + ms[1..];
      if HasRole(ms[0], role) then [ms[0]] + rest else rest
  }
}
