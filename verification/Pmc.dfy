/** How the PMC settings record is read, with its retries (pkg/pmc/pmc.go). */
module Pmc {
  import opened PtpTypes
  import opened Text
  import opened Settings

  const TRIES := 6

  /** One try: the command is not sent, no match in time, another failure to match, or the captured values. */
  datatype Try = NotSent | Expires | Fails | Answers(values: seq<string>)

  datatype Reply = Reply(g: Settings, failed: bool)

  predicate Decisive(t: Try) {
    t.Fails? || (t.Answers? && |t.values| == |KEYS|)
  }

  function ReplyOf(t: Try): Reply
    requires Decisive(t)
  {
    if t.Fails? then Reply(ZERO, true) else Reply(UpdateAll(ZERO, KEYS, t.values), false)
  }

  /** The index of the first decisive try. */
  function FirstDecisive(tries: seq<Try>): (k: nat)
    ensures k <= |tries|
    ensures k < |tries| ==> Decisive(tries[k])
    ensures forall j :: 0 <= j < k ==> !Decisive(tries[j])
  {
    if tries == [] || Decisive(tries[0]) then 0 else 1 + FirstDecisive(tries[1..])
  }

  lemma {:induction false} FirstDecisiveIs(tries: seq<Try>, k: nat)
    requires k <= |tries| && (k < |tries| ==> Decisive(tries[k])) && forall j :: 0 <= j < k ==> !Decisive(tries[j])
    ensures FirstDecisive(tries) == k
  {}

  /**
   * The first decisive try gives the reply. Without one the reply is a record of zeros, and it is an error only if the
   * last command was not even sent: the error of a try that expired is shadowed.
   */
  function ReplyTo(tries: seq<Try>): Reply
    requires tries != []
  {
    var k := FirstDecisive(tries);
    if k < |tries| then ReplyOf(tries[k]) else Reply(ZERO, tries[|tries| - 1].NotSent?)
  }

  /** When the reply is an error, and what it carries otherwise, try by try. */
  lemma {:induction false} ReplyIff(tries: seq<Try>, k: nat)
    requires tries != [] && k <= |tries| && (forall j :: 0 <= j < k ==> tries[j].NotSent? || tries[j].Expires?)
    requires k < |tries| ==> tries[k].Fails? || (tries[k].Answers? && |tries[k].values| == 11)
    ensures var r := ReplyTo(tries);
            if k < |tries| && tries[k].Answers? then r == Reply(UpdateAll(ZERO, KEYS, tries[k].values), false)
            else r.g == ZERO && (r.failed <==> k < |tries| || tries[|tries| - 1].NotSent?)
  {
    FirstDecisiveIs(tries, k);
  }

  /** RunPMCExpGetGMSettings */
  method GetSettings(tries: seq<Try>) returns (r: Reply)
    requires |tries| == TRIES
    ensures r == ReplyTo(tries)
  {
    var failed := false;
    for i := 0 to TRIES
      invariant forall j :: 0 <= j < i ==> !Decisive(tries[j])
      invariant i > 0 ==> failed == tries[i - 1].NotSent?
    {
      failed := tries[i].NotSent?;
      if tries[i].Fails? {
        FirstDecisiveIs(tries, i);
        return Reply(ZERO, true);
      } else if tries[i].Answers? && |tries[i].values| == |KEYS| {
        FirstDecisiveIs(tries, i);
        var g := Load(ZERO, KEYS, tries[i].values);
        return Reply(g, false);
      }
    }
    FirstDecisiveIs(tries, TRIES);
    return Reply(ZERO, failed);
  }

  /** What a try makes of a PMC that prints the stored record. */
  function TryOn(stored: Settings): Try
    requires InRange(stored)
  {
    match Capture(Name, Fields(Print(stored)), KEYS)
    case Some(values) => Answers(values)
    case None => Expires
  }

  lemma {:induction false} TryPrinted(stored: Settings)
    requires InRange(stored)
    ensures TryOn(stored) == if stored.utcOffset >= 0 then Answers(Values(stored)) else Expires
  {
    CapturePrinted(stored);
  }

  /** Reading a stored record gives it back, or zeros without an error when its UTC offset is negative. */
  lemma {:induction false} StoredReply(stored: Settings, tries: seq<Try>)
    requires InRange(stored) && |tries| == TRIES && forall i :: 0 <= i < TRIES ==> tries[i] == TryOn(stored)
    ensures ReplyTo(tries) == Reply(if stored.utcOffset >= 0 then stored else ZERO, false)
  {
    TryPrinted(stored);
    if stored.utcOffset >= 0 {
      FirstDecisiveIs(tries, 0);
      UpdatesRebuild(ZERO, stored);
    } else {
      FirstDecisiveIs(tries, TRIES);
    }
  }
}
