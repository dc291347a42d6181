/**
 What the verifier's run leaves behind: which of its tool calls succeeded with material evidence, and
 what verdicts it submitted. Every receipt and every submission is traced back to the events behind it.
 */
module VerifierRecord {
  import opened Wrappers

  const SUBMIT: string := "verification_submit"
  const NON_EVIDENCE: set<string> := {SUBMIT, "capability_discover", "task_checkpoint_save"}
  const CALL: string := "tool-call:"

  /** One assertion as submitted; None stands for a field of the wrong type. */
  datatype Item =
    | NotAnItem
    | Item(status: Option<string>, criterionId: Option<string>, evidence: Option<string>,
           refs: Option<seq<Option<string>>>)

  /** The arguments of a tool call, as far as they can be a verdict. */
  datatype Arguments =
    | Absent
    | NoObject(value: nat)
    | Submission(status: Option<string>, reason: Option<string>, assertions: Option<seq<Item>>)

  datatype Part = Part(text: Option<string>, data: Option<string>)

  datatype Result =
    | NoRecord
    | Result(content: Option<seq<Part>>, details: set<string>)

  datatype Event =
    | Started(callId: string, tool: string, args: Arguments)
    | Ended(callId: string, tool: string, failed: bool, result: Result)

  /** Digests are collision free, so they are the digested values. */
  datatype Receipt = Receipt(callId: string, tool: string, reference: string, args: Arguments, result: Result)

  datatype Record = Record(
    arguments: map<string, Arguments>,
    attempted: seq<(string, bool)>,
    succeeded: set<string>,
    receipts: seq<Receipt>,
    submissions: seq<Arguments>,
    attempts: nat)

  const Nothing := Record(map[], [], {}, [], [], 0)

  // ---- receipts -------------------------------------------------------------------------------

  predicate HasMaterial(result: Result) {
    && result.Result?
    && (|| (result.content.Some? && exists part | part in result.content.value ::
              || (part.text.Some? && Trim(part.text.value) != "")
              || (part.data.Some? && part.data.value != ""))
        || result.details != {})
  }

  predicate IsEvidence(tool: string, result: Result) {
    tool !in NON_EVIDENCE && !("skill_" <= tool) && HasMaterial(result)
  }

  function Reference(execution: string, callId: string): string {
    "execution:" + execution + ":tool-call:" + callId
  }

  /** createSuccessfulVerificationReceipt. */
  function ReceiptFor(execution: string, callId: string, tool: string, args: Arguments,
          result: Result): Option<Receipt>
  {
    if IsEvidence(tool, result)
    then Some(Receipt(callId, tool, Reference(execution, callId), args, result))
    else None
  }

  ghost predicate Has(receipts: seq<Receipt>, callId: string) {
    exists i :: 0 <= i < |receipts| && receipts[i].callId == callId
  }

  ghost predicate Keyed(receipts: seq<Receipt>) {
    forall i, j | 0 <= i < j < |receipts| :: receipts[i].callId != receipts[j].callId
  }

  /** The place of a call among the receipts, or their number when it has none. */
  function Find(receipts: seq<Receipt>, callId: string): (i: nat)
    ensures i <= |receipts|
    ensures i < |receipts| <==> Has(receipts, callId)
    ensures i < |receipts| ==> receipts[i].callId == callId
  {
    if receipts == [] then 0
    else if receipts[0].callId == callId then 0
    else
      var i := Find(receipts[1..], callId);
      assert forall k | 0 < k < |receipts| :: receipts[k] == receipts[1..][k - 1];
      1 + i
  }

  /** Setting a key of an insertion-ordered map. */
  function Put(receipts: seq<Receipt>, receipt: Receipt): seq<Receipt> {
    var i := Find(receipts, receipt.callId);
    if i < |receipts| then receipts[i := receipt] else receipts + [receipt]
  }

  lemma PutKeeps(receipts: seq<Receipt>, receipt: Receipt)
    requires Keyed(receipts)
    ensures Keyed(Put(receipts, receipt))
    ensures receipt in Put(receipts, receipt)
    ensures forall other :: other in Put(receipts, receipt) ==> other == receipt || other in receipts
  {
    var i := Find(receipts, receipt.callId);
    if i < |receipts| {
      assert Put(receipts, receipt)[i] == receipt;
    } else {
      assert Put(receipts, receipt)[|receipts|] == receipt;
    }
  }

  // ---- recording ------------------------------------------------------------------------------

  function Argument(r: Record, callId: string): Arguments {
    if callId in r.arguments then r.arguments[callId] else Absent
  }

  function OnStart(r: Record, callId: string, tool: string, args: Arguments): Record {
    r.(arguments := r.arguments[callId := args], attempts := if tool == SUBMIT then r.attempts + 1 else r.attempts)
  }

  function OnEnd(r: Record, execution: string, callId: string, tool: string, failed: bool, result: Result): Record {
    var args := Argument(r, callId);
    var receipt := ReceiptFor(execution, callId, tool, args, result);
    var ended := r.(arguments := r.arguments - {callId}, attempted := r.attempted + [(tool, !failed)]);
    if failed then ended
    else ended.(
      succeeded := r.succeeded + {tool},
      receipts := if receipt.Some? then Put(r.receipts, receipt.value) else r.receipts,
      submissions := if tool == SUBMIT then r.submissions + [args] else r.submissions)
  }

  function Recorded(r: Record, execution: string, event: Event): Record {
    match event
    case Started(callId, tool, args) => OnStart(r, callId, tool, args)
    case Ended(callId, tool, failed, result) => OnEnd(r, execution, callId, tool, failed, result)
  }

  /** The record of a run: each event with the execution it was seen in. */
  function RecordOf(events: seq<(string, Event)>): Record {
    if events == [] then Nothing
    else
      var last := events[|events| - 1];
      Recorded(RecordOf(events[..|events| - 1]), last.0, last.1)
  }

  /** recordVerificationEvent's variables, updated in place. */
  class Recorder {
    var arguments: map<string, Arguments>
    var attempted: seq<(string, bool)>
    var succeeded: set<string>
    var receipts: seq<Receipt>
    var submissions: seq<Arguments>
    var attempts: nat

    function State(): Record
      reads this
    {
      Record(arguments, attempted, succeeded, receipts, submissions, attempts)
    }

    constructor ()
      ensures State() == Nothing
    {
      arguments, attempted, succeeded, receipts, submissions, attempts := map[], [], {}, [], [], 0;
    }

    method OnEvent(execution: string, event: Event)
      modifies this
      ensures State() == Recorded(old(State()), execution, event)
    {
      match event
      case Started(callId, tool, args) =>
        arguments := arguments[callId := args];
        if tool == SUBMIT {
          attempts := attempts + 1;
        }
      case Ended(callId, tool, failed, result) =>
        var args := if callId in arguments then arguments[callId] else Absent;
        arguments := arguments - {callId};
        attempted := attempted + [(tool, !failed)];
        if !failed {
          succeeded := succeeded + {tool};
          var receipt := ReceiptFor(execution, callId, tool, args, result);
          if receipt.Some? {
            receipts := Put(receipts, receipt.value);
          }
          if tool == SUBMIT {
            submissions := submissions + [args];
          }
        }
    }
  }

  // ---- where records come from ----------------------------------------------------------------

  /** Counts as evidence, spelled out: of another tool than the bookkeeping ones, and with something in it. */
  ghost predicate Material(tool: string, result: Result) {
    && tool != "verification_submit" && tool != "capability_discover" && tool != "task_checkpoint_save"
    && !("skill_" <= tool)
    && result.Result?
    && (result.details != {}
        || (result.content.Some? && exists part | part in result.content.value ::
              || (part.text.Some? && !AllBlank(part.text.value, IsSpaceChar))
              || (part.data.Some? && part.data.value != "")))
  }

  lemma EvidenceExactly(tool: string, result: Result)
    ensures IsEvidence(tool, result) <==> Material(tool, result)
  {
    if result.Result? && result.content.Some? {
      forall part | part in result.content.value && part.text.Some?
        ensures Trim(part.text.value) != "" <==> !AllBlank(part.text.value, IsSpaceChar)
      {
        TrimsToNothing(part.text.value);
      }
    }
  }

  /** Event `i` started the call with these arguments, and nothing before `n` ended or restarted it. */
  ghost predicate Running(events: seq<(string, Event)>, i: nat, n: nat, callId: string, args: Arguments) {
    && i < n <= |events|
    && events[i].1 == Started(callId, events[i].1.tool, args)
    && forall k | i < k < n :: events[k].1.callId != callId
  }

  ghost predicate Runs(events: seq<(string, Event)>, n: nat, callId: string, args: Arguments) {
    exists i: nat :: Running(events, i, n, callId, args)
  }

  /** What a call that ends at event `n` was last started with; nothing when it was not running. */
  ghost predicate RanWith(events: seq<(string, Event)>, n: nat, callId: string, args: Arguments) {
    Runs(events, n, callId, args) || (args == Absent && forall a :: !Runs(events, n, callId, a))
  }

  /** The call ended well at event `j`, having run with these arguments. */
  ghost predicate Succeeded(events: seq<(string, Event)>, j: nat, callId: string, tool: string, args: Arguments,
          result: Result)
  {
    && j < |events|
    && events[j].1 == Ended(callId, tool, false, result)
    && RanWith(events, j, callId, args)
  }

  /** A receipt is about a call that ended well, and whose result is evidence. */
  ghost predicate Earned(events: seq<(string, Event)>, receipt: Receipt) {
    && Material(receipt.tool, receipt.result)
    && exists j: nat :: EarnedAt(events, j, receipt)
  }

  ghost predicate EarnedAt(events: seq<(string, Event)>, j: nat, receipt: Receipt) {
    && Succeeded(events, j, receipt.callId, receipt.tool, receipt.args, receipt.result)
    && receipt.reference == "execution:" + events[j].0 + ":tool-call:" + receipt.callId
  }

  /** A submission is what a successful call of the submission tool was started with. */
  ghost predicate Submitted(events: seq<(string, Event)>, args: Arguments) {
    exists j: nat, callId, result :: Succeeded(events, j, callId, "verification_submit", args, result)
  }

  /** The arguments kept are those of the calls still running. */
  ghost predicate KeepsArguments(events: seq<(string, Event)>, r: Record) {
    forall callId, args :: Runs(events, |events|, callId, args) <==>
      callId in r.arguments && r.arguments[callId] == args
  }

  ghost predicate Traced(events: seq<(string, Event)>, r: Record) {
    && Keyed(r.receipts)
    && KeepsArguments(events, r)
    && (forall receipt | receipt in r.receipts :: Earned(events, receipt))
    && (forall args | args in r.submissions :: Submitted(events, args))
  }

  lemma RunsAlike(events: seq<(string, Event)>, last: (string, Event), n: nat, callId: string, args: Arguments)
    requires n <= |events|
    ensures Runs(events + [last], n, callId, args) <==> Runs(events, n, callId, args)
  {
    var all := events + [last];
    assert forall k | 0 <= k < n :: all[k] == events[k];
    forall i: nat
      ensures Running(all, i, n, callId, args) <==> Running(events, i, n, callId, args)
    {
    }
  }

  lemma RanAlike(events: seq<(string, Event)>, last: (string, Event), n: nat, callId: string, args: Arguments)
    requires n <= |events|
    ensures RanWith(events + [last], n, callId, args) <==> RanWith(events, n, callId, args)
  {
    forall a
      ensures Runs(events + [last], n, callId, a) <==> Runs(events, n, callId, a)
    {
      RunsAlike(events, last, n, callId, a);
    }
  }

  lemma StaysSucceeded(events: seq<(string, Event)>, last: (string, Event), j: nat, callId: string, tool: string,
          args: Arguments, result: Result)
    requires Succeeded(events, j, callId, tool, args, result)
    ensures Succeeded(events + [last], j, callId, tool, args, result)
  {
    RanAlike(events, last, j, callId, args);
  }

  lemma StaysEarned(events: seq<(string, Event)>, last: (string, Event), receipt: Receipt)
    requires Earned(events, receipt)
    ensures Earned(events + [last], receipt)
  {
    var j: nat :| EarnedAt(events, j, receipt);
    StaysSucceeded(events, last, j, receipt.callId, receipt.tool, receipt.args, receipt.result);
    assert EarnedAt(events + [last], j, receipt);
  }

  lemma StaysSubmitted(events: seq<(string, Event)>, last: (string, Event), args: Arguments)
    requires Submitted(events, args)
    ensures Submitted(events + [last], args)
  {
    var j: nat, callId, result :| Succeeded(events, j, callId, "verification_submit", args, result);
    StaysSucceeded(events, last, j, callId, "verification_submit", args, result);
  }

  lemma ArgumentsTraced(events: seq<(string, Event)>, last: (string, Event), r: Record)
    requires KeepsArguments(events, r)
    ensures KeepsArguments(events + [last], Recorded(r, last.0, last.1))
  {
    var after := Recorded(r, last.0, last.1);
    forall callId, args
      ensures Runs(events + [last], |events + [last]|, callId, args) <==>
                callId in after.arguments && after.arguments[callId] == args
    {
      if callId == last.1.callId {
        OwnLastEvent(events, last, args);
      } else {
        RunsPast(events, last, callId, args);
      }
    }
  }

  lemma OwnLastEvent(events: seq<(string, Event)>, last: (string, Event), args: Arguments)
    ensures Runs(events + [last], |events| + 1, last.1.callId, args) <==> last.1.Started? && last.1.args == args
  {
    var all := events + [last];
    assert all[|events|] == last;
    if last.1.Started? && last.1.args == args {
      assert Running(all, |events|, |events| + 1, last.1.callId, args);
    }
  }

  lemma RunsPast(events: seq<(string, Event)>, last: (string, Event), callId: string, args: Arguments)
    requires last.1.callId != callId
    ensures Runs(events + [last], |events| + 1, callId, args) <==> Runs(events, |events|, callId, args)
  {
    var all, n := events + [last], |events|;
    assert all[n] == last && all[..n] == events;
    if Runs(events, n, callId, args) {
      var i: nat :| Running(events, i, n, callId, args);
      assert Running(all, i, n + 1, callId, args);
    }
    if Runs(all, n + 1, callId, args) {
      var i: nat :| Running(all, i, n + 1, callId, args);
      assert i != n;
      forall k | i < k < n
        ensures events[k].1.callId != callId
      {
        assert all[k] == events[k];
      }
      assert Running(events, i, n, callId, args);
    }
  }

  lemma JustSucceeded(events: seq<(string, Event)>, last: (string, Event), r: Record)
    requires KeepsArguments(events, r) && last.1.Ended? && !last.1.failed
    ensures Succeeded(events + [last], |events|, last.1.callId, last.1.tool, Argument(r, last.1.callId), last.1.result)
  {
    var callId := last.1.callId;
    RanAlike(events, last, |events|, callId, Argument(r, callId));
    assert Runs(events, |events|, callId, Argument(r, callId)) <==> callId in r.arguments;
    assert (events + [last])[|events|] == last;
  }

  lemma StepTraced(events: seq<(string, Event)>, last: (string, Event), r: Record)
    requires Traced(events, r)
    ensures Traced(events + [last], Recorded(r, last.0, last.1))
  {
    var after := Recorded(r, last.0, last.1);
    ArgumentsTraced(events, last, r);
    forall receipt | receipt in r.receipts ensures Earned(events + [last], receipt) {
      StaysEarned(events, last, receipt);
    }
    forall args | args in r.submissions ensures Submitted(events + [last], args) {
      StaysSubmitted(events, last, args);
    }
    if last.1.Ended? && !last.1.failed {
      JustSucceeded(events, last, r);
      assert (events + [last])[|events|] == last;
      var args := Argument(r, last.1.callId);
      var receipt := ReceiptFor(last.0, last.1.callId, last.1.tool, args, last.1.result);
      EvidenceExactly(last.1.tool, last.1.result);
      if receipt.Some? {
        PutKeeps(r.receipts, receipt.value);
        assert EarnedAt(events + [last], |events|, receipt.value);
      }
    }
  }

  /** Every receipt and every submission in the record of a run comes from the run. */
  lemma {:induction false} RecordsAreTraced(events: seq<(string, Event)>)
    ensures Traced(events, RecordOf(events))
  {
    if events != [] {
      var before, last := events[..|events| - 1], events[|events| - 1];
      RecordsAreTraced(before);
      StepTraced(before, last, RecordOf(before));
      assert before + [last] == events;
    }
  }

  // ---- nothing is missing from records --------------------------------------------------------

  ghost predicate StartsSubmission(event: Event) {
    event.Started? && event.tool == "verification_submit"
  }

  ghost predicate EndsSubmission(event: Event) {
    event.Ended? && !event.failed && event.tool == "verification_submit"
  }

  ghost function Positions(events: seq<(string, Event)>, which: Event -> bool): set<int> {
    set i | 0 <= i < |events| && which(events[i].1)
  }

  /** Event `j` ends a call well and with evidence. */
  ghost predicate Proves(events: seq<(string, Event)>, j: int) {
    && 0 <= j < |events| && events[j].1.Ended? && !events[j].1.failed
    && Material(events[j].1.tool, events[j].1.result)
  }

  /** The last event of its call that proves anything. */
  ghost predicate ProvesLast(events: seq<(string, Event)>, j: int) {
    && Proves(events, j)
    && forall k | j < k && Proves(events, k) :: events[k].1.callId != events[j].1.callId
  }

  ghost predicate HasReceipt(events: seq<(string, Event)>, r: Record, j: nat)
    requires Proves(events, j)
  {
    exists args :: RanWith(events, j, events[j].1.callId, args)
      && ReceiptAt(events, j, args) in r.receipts
  }

  ghost function ReceiptAt(events: seq<(string, Event)>, j: nat, args: Arguments): Receipt
    requires Proves(events, j)
  {
    var (execution, e) := events[j];
    Receipt(e.callId, e.tool, "execution:" + execution + ":tool-call:" + e.callId, args, e.result)
  }

  ghost predicate Complete(events: seq<(string, Event)>, r: Record) {
    && r.attempts == |Positions(events, StartsSubmission)|
    && |r.submissions| == |Positions(events, EndsSubmission)|
    && (forall j: nat | ProvesLast(events, j) :: HasReceipt(events, r, j))
  }

  lemma CountsOneMore(events: seq<(string, Event)>, last: (string, Event), which: Event -> bool)
    ensures |Positions(events + [last], which)| == |Positions(events, which)| + if which(last.1) then 1 else 0
  {
    var all, n := events + [last], |events|;
    assert all[n] == last && forall i | 0 <= i < n :: all[i] == events[i];
    assert Positions(all, which) == if which(last.1) then Positions(events, which) + {n} else Positions(events, which);
  }

  lemma PutKeepsOthers(receipts: seq<Receipt>, receipt: Receipt, other: Receipt)
    requires other in receipts && other.callId != receipt.callId
    ensures other in Put(receipts, receipt)
  {
    var i := Find(receipts, receipt.callId);
    var k :| 0 <= k < |receipts| && receipts[k] == other;
    assert Put(receipts, receipt)[k] == other;
  }

  lemma OldReceiptStays(events: seq<(string, Event)>, last: (string, Event), r: Record, j: nat)
    requires Traced(events, r) && Complete(events, r)
    requires j < |events| && ProvesLast(events + [last], j)
    ensures HasReceipt(events + [last], Recorded(r, last.0, last.1), j)
  {
    var all := events + [last];
    var after := Recorded(r, last.0, last.1);
    var callId := events[j].1.callId;
    forall k | Proves(events, k) ensures Proves(all, k) && all[k] == events[k] {
    }
    assert all[j] == events[j] && ProvesLast(events, j);
    var args :| RanWith(events, j, callId, args) && ReceiptAt(events, j, args) in r.receipts;
    RanAlike(events, last, j, callId, args);
    if last.1.Ended? && !last.1.failed {
      EvidenceExactly(last.1.tool, last.1.result);
      var receipt := ReceiptFor(last.0, last.1.callId, last.1.tool, Argument(r, last.1.callId), last.1.result);
      if receipt.Some? {
        assert Proves(all, |events|) && all[|events|] == last;
        PutKeepsOthers(r.receipts, receipt.value, ReceiptAt(events, j, args));
      }
    }
  }

  lemma NewReceiptIsThere(events: seq<(string, Event)>, last: (string, Event), r: Record)
    requires Traced(events, r) && Proves(events + [last], |events|)
    ensures HasReceipt(events + [last], Recorded(r, last.0, last.1), |events|)
  {
    var all := events + [last];
    assert all[|events|] == last;
    JustSucceeded(events, last, r);
    EvidenceExactly(last.1.tool, last.1.result);
    var args := Argument(r, last.1.callId);
    PutKeeps(r.receipts, ReceiptFor(last.0, last.1.callId, last.1.tool, args, last.1.result).value);
  }

  /**
   Nothing that counts is missing from the record of a run: every started and every successful submission
   is counted, and a call that ended well with evidence has a receipt of its last such end.
   */
  lemma {:induction false} RecordsAreComplete(events: seq<(string, Event)>)
    ensures Complete(events, RecordOf(events))
  {
    if events != [] {
      var before, last := events[..|events| - 1], events[|events| - 1];
      var r := RecordOf(before);
      RecordsAreComplete(before);
      RecordsAreTraced(before);
      assert before + [last] == events;
      CountsOneMore(before, last, StartsSubmission);
      CountsOneMore(before, last, EndsSubmission);
      forall j: nat | ProvesLast(events, j)
        ensures HasReceipt(events, RecordOf(events), j)
      {
        if j == |before| {
          NewReceiptIsThere(before, last, r);
        } else {
          OldReceiptStays(before, last, r, j);
        }
      }
    }
  }
}
