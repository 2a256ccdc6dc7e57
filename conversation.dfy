/**
 * `format_conversation_for_analysis`: the transcript handed to the
 * information-extraction prompt, one `Student: …` or `Tutor: …` line per message.
 */
module Conversation {
  import opened Wrappers
  import opened Text

  /** A message as the request carries it; `None` is a missing key. */
  datatype ChatMessage = ChatMessage(role: Option<string>, content: Option<string>)

  /** The role defaults to `user`, which is the student; any other role is the tutor. */
  function Speaker(m: ChatMessage): (r: string)
    ensures r == "Student" <==> m.role.GetOr("user") == "user"
    ensures r == "Student" || r == "Tutor"
  {
    if m.role.GetOr("user") == "user" then "Student" else "Tutor"
  }

  function Line(m: ChatMessage): string {
    Speaker(m) + ": " + m.content.GetOr("")
  }

  function Lines(ms: seq<ChatMessage>): (r: seq<string>)
    ensures |r| == |ms|
    ensures forall i :: 0 <= i < |ms| ==> r[i] == Line(ms[i])
  {
    if ms == [] then [] else [Line(ms[0])] + Lines(ms[1..])
  }

  function Format(ms: seq<ChatMessage>): string {
    Join(Lines(ms), "\n")
  }

  /**
   * When no message text holds a line break, the transcript splits back
   * into exactly one labelled line per message, in order.
   */
  lemma FormatReadsBack(ms: seq<ChatMessage>)
    requires |ms| >= 1
    requires forall i :: 0 <= i < |ms| ==> '\n' !in ms[i].content.GetOr("")
    ensures |Split(Format(ms), '\n')| == |ms|
    ensures forall i :: 0 <= i < |ms| ==> Split(Format(ms), '\n')[i] == Speaker(ms[i]) + ": " + ms[i].content.GetOr("")
  {
    var ls := Lines(ms);
    forall k | 0 <= k < |ls| ensures '\n' !in ls[k] {
      var sp := Speaker(ms[k]);
      assert ls[k] == sp + ": " + ms[k].content.GetOr("");
      assert '\n' !in sp + ": ";
    }
    SplitJoin(ls, '\n');
  }
}
