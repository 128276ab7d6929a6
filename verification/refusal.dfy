/** utils/refusal.py: the fixed refusal text. */
module Refusal {

  const Apology: string := "I can't answer question using the available documents.\n"
  const ReasonLabel: string := "Reason: "

  /** `refusal_message(reason)`. */
  function Message(reason: string): (r: string)
    ensures |r| == |Apology| + |ReasonLabel| + |reason|
    ensures r[..|Apology|] == Apology
    ensures r[|Apology|..|Apology| + |ReasonLabel|] == ReasonLabel
    ensures r[|r| - |reason|..] == reason
  {
    Apology + ReasonLabel + reason
  }

  /** Reads the reason back out of a refusal. */
  function ReasonOf(m: string): string
    requires |m| >= |Apology| + |ReasonLabel|
  {
    m[|Apology| + |ReasonLabel|..]
  }

  /** The reason is recoverable, so different reasons give different messages. */
  lemma ReasonRoundTrip(reason: string)
    ensures ReasonOf(Message(reason)) == reason
  {
    assert Message(reason)[|Apology| + |ReasonLabel|..] == reason;
  }

  lemma MessageInjective(a: string, b: string)
    requires Message(a) == Message(b)
    ensures a == b
  {
    ReasonRoundTrip(a);
    ReasonRoundTrip(b);
  }
}
