/**
 The replay queue as the adapter keeps it: arrays it shifts and pushes, and a counter it adjusts. Each
 method is one stretch of the program between two awaits, and does what the queue model says.
 */
module InboundReplayQueue {
  import opened InboundText
  import Batches = InboundBatches
  import opened InboundReplay

  lemma NextOf(all: seq<Batches.Arrival>, n: nat)
    requires n < |all|
    ensures all[n..][0] == all[n] && all[n..][1..] == all[n + 1..] && all[..n] + [all[n]] == all[..n + 1]
  {
  }

  class ReplayQueue {
    const limits: Batches.Limits
    var pending: seq<Batches.Arrival>
    var inFlight: nat
    var stage: Stage
    var group: seq<Batches.Arrival>
    var delivered: seq<Message>
    var settled: seq<Settlement>
    var forgotten: seq<string>
    ghost var gone: seq<Departure>
    ghost var verdicts: seq<bool>

    ghost function Value(): Queue
      reads this
    {
      Queue(pending, inFlight, stage, group, delivered, settled, forgotten, gone, verdicts)
    }

    constructor (limits: Batches.Limits)
      ensures Value() == Fresh && this.limits == limits
    {
      this.limits := limits;
      pending, inFlight, stage, group := [], 0, Idle, [];
      delivered, settled, forgotten := [], [], [];
      gone, verdicts := [], [];
    }

    method ForgetDedup(arrival: Batches.Arrival)
      modifies this`forgotten
      ensures forgotten == old(forgotten) + Forgets([arrival])
    {
      assert [arrival][..0] == [];
      if arrival.message.source.messageId != "" {
        forgotten := forgotten + [arrival.message.source.messageId];
      }
    }

    method QueuePendingInbound(arrival: Batches.Arrival)
      modifies this
      ensures Value() == After(old(Value()), Offer(arrival), limits)
      ensures
        if |old(pending)| + old(inFlight) < 1000 then
          pending == old(pending) + [arrival] && settled == old(settled) && forgotten == old(forgotten)
        else if old(pending) != [] then
          pending == old(pending)[1..] + [arrival] && settled == old(settled) + [Settlement(old(pending)[0], Dropped)]
        else
          pending == [] && settled == old(settled) + [Settlement(arrival, Refused)]
    {
      if |pending| + inFlight >= MAX_PENDING_INBOUND {
        if pending != [] {
          var dropped := pending[0];
          assert pending[..1] == [dropped];
          gone := gone + [Ousted(dropped)];
          pending := pending[1..];
          ForgetDedup(dropped);
          settled := settled + [Settlement(dropped, Dropped)];
        } else {
          ForgetDedup(arrival);
          settled := settled + [Settlement(arrival, Refused)];
          return;
        }
      }
      pending := pending + [arrival];
    }

    /** Moves the head of the queue into the group. */
    method Shift()
      requires pending != []
      modifies this`pending, this`group, this`inFlight
      ensures pending == old(pending)[1..] && group == old(group) + [old(pending)[0]] && inFlight == old(inFlight) + 1
    {
      group := group + [pending[0]];
      pending := pending[1..];
      inFlight := inFlight + 1;
    }

    /** Shifts what continues the group off the queue, one entry at a time. */
    method ShiftContinuing(ghost all: seq<Batches.Arrival>)
      requires all != [] && IsPlainText(all[0].message) && group == all[..1] && pending == all[1..]
      modifies this`pending, this`group, this`inFlight
      ensures group == all[..GroupSize(all, limits)] && pending == all[GroupSize(all, limits)..]
      ensures inFlight == old(inFlight) + GroupSize(all, limits) - 1
    {
      ghost var n: nat := 1;
      var first := group[0];
      var chars: nat := |first.message.text|;
      while |group| < limits.messages
        invariant 1 <= n <= |all| && |group| == n && inFlight == old(inFlight) + n - 1
        invariant group == all[..n] && pending == all[n..]
        invariant Reach(all, n, chars, limits) == GroupSize(all, limits)
        decreases |pending|
      {
        if pending == [] || !Continues(first.message, pending[0].message) {
          break;
        }
        var nextChars: nat := MoreChars(chars, pending[0].message);
        if nextChars > limits.chars {
          break;
        }
        NextOf(all, n);
        Shift();
        n := n + 1;
        chars := nextChars;
      }
      assert n == GroupSize(all, limits);
    }

    /** Shifts the group of the first entry off the queue. */
    method TakeReplayGroup()
      requires Enabled(Value(), Take)
      modifies this
      ensures Value() == After(old(Value()), Take, limits)
    {
      ghost var all := pending;
      var first := pending[0];
      group := [];
      Shift();
      if IsPlainText(first.message) {
        ShiftContinuing(all);
      }
      ghost var size := GroupSize(all, limits);
      assert group == all[..size] && pending == all[size..] && inFlight == old(inFlight) + size;
      gone := gone + [Group(group, pending)];
      stage := Taken;
    }

    method SettleGroup(outcome: Outcome)
      requires |group| <= inFlight
      modifies this
      ensures Value() == Ending(old(Value()), outcome)
    {
      var i := 0;
      while i < |group|
        invariant 0 <= i <= |group| && settled == old(settled) + SettledWith(group[..i], outcome)
        invariant Value() == old(Value()).(settled := settled)
      {
        assert SettledWith(group[..i + 1], outcome) ==
          SettledWith(group[..i], outcome) + [Settlement(group[i], outcome)];
        settled := settled + [Settlement(group[i], outcome)];
        i := i + 1;
      }
      assert group[..i] == group;
      inFlight := inFlight - |group|;
      stage := Idle;
      group := [];
    }

    method ForgetGroup()
      modifies this`forgotten
      ensures forgotten == old(forgotten) + Forgets(group)
    {
      var i := 0;
      while i < |group|
        invariant 0 <= i <= |group| && forgotten == old(forgotten) + Forgets(group[..i])
      {
        assert group[..i + 1] == group[..i] + [group[i]];
        ForgetsOne(group[..i], group[i]);
        ForgetDedup(group[i]);
        i := i + 1;
      }
      assert group[..i] == group;
    }

    /** Behind the await: the connection may be gone again, and then the group is given up. */
    method Proceed(canDispatch: bool)
      requires Enabled(Value(), Op.Proceed(canDispatch))
      modifies this
      ensures Value() == After(old(Value()), Op.Proceed(canDispatch), limits)
    {
      if canDispatch {
        delivered := delivered + [Replayed(group)];
        verdicts := verdicts + [true];
        stage := Delivering;
      } else {
        ForgetGroup();
        verdicts := verdicts + [false];
        SettleGroup(Cancelled);
      }
    }

    /** The delivery has ended, well or not. */
    method Finish(ok: bool)
      requires Enabled(Value(), Op.Finish(ok))
      modifies this
      ensures Value() == After(old(Value()), Op.Finish(ok), limits)
    {
      SettleGroup(if ok then Resolved else Rejected);
    }

    method CancelPendingInbound()
      modifies this
      ensures Value() == After(old(Value()), CancelPending, limits)
      ensures pending == [] && settled == old(settled) + SettledWith(old(pending), Cancelled)
    {
      var all := pending;
      pending := [];
      gone := gone + [Swept(all)];
      var i := 0;
      while i < |all|
        invariant 0 <= i <= |all|
        invariant settled == old(settled) + SettledWith(all[..i], Cancelled)
        invariant forgotten == old(forgotten) + Forgets(all[..i])
        modifies this`settled, this`forgotten
      {
        assert all[..i + 1] == all[..i] + [all[i]];
        ForgetsOne(all[..i], all[i]);
        SettledOne(old(settled), all[..i], all[i], Cancelled);
        ForgetDedup(all[i]);
        settled := settled + [Settlement(all[i], Cancelled)];
        i := i + 1;
      }
      assert all[..i] == all;
    }
  }
}
