/**
 Batching, replay and delivery together. Every batch that is flushed and every group that is replayed is
 handed to the delivery chain of its session, among deliveries of other kinds, and the replay waits for
 its delivery before it takes the next group. So the handlers of a session run its batches, and thereby
 its messages, in the order of arrival, one at a time; and replayed groups of all sessions one by one.
 */
module InboundDelivery {
  import opened Wrappers
  import Batches = InboundBatches
  import Replay = InboundReplay
  import Chain = DeliveryChain

  /**
   `batchOf` and `groupOf` say of each delivery which of the flushed batches, or of the replayed groups, it
   carries, if any; `flight` is the delivery the replay waits for.
   */
  datatype World = World(
    batches: Batches.State,
    queue: Replay.Queue,
    chains: Chain.Chains,
    batchOf: seq<Option<nat>>,
    groupOf: seq<Option<nat>>,
    flight: Option<nat>)

  /** A text arrives or a timer fires; the replay moves on; something else is delivered; a promise makes a step. */
  datatype Op =
    | Inbound(event: Batches.Event)
    | Replaying(op: Replay.Op)
    | Deliver(key: string)
    | Continue(step: Chain.Step)

  const Start := World(Batches.Empty, Replay.Fresh, Chain.Idle, [], [], None)

  function Admitted(w: World, key: string, batch: Option<nat>, group: Option<nat>): World {
    w.(chains := Chain.After(w.chains, Chain.Admit(key)),
       batchOf := w.batchOf + [batch], groupOf := w.groupOf + [group])
  }

  /** The awaited delivery has come back to its caller, well or not. */
  predicate CameBack(w: World, ok: bool) {
    && w.flight.Some? && w.flight.value < |w.chains.deliveries|
    && var d := w.chains.deliveries[w.flight.value];
       d.left && d.phase == Chain.Settled(ok)
  }

  function ReplayNext(w: World, op: Replay.Op, limits: Batches.Limits): World
    requires Replay.Enabled(w.queue, op)
  {
    var after := Replay.After(w.queue, op, limits);
    match op
    case Proceed(true) =>
      var n, id := |w.queue.delivered|, |w.chains.deliveries|;
      Admitted(w, after.delivered[n].source.owner, None, Some(n)).(queue := after, flight := Some(id))
    case Finish(ok) => if CameBack(w, ok) then w.(queue := after, flight := None) else w
    case _ => w.(queue := after)
  }

  function Next(w: World, op: Op, limits: Batches.Limits): World {
    match op
    case Inbound(event) =>
      var after := Batches.After(w.batches, event, limits);
      var n := |w.batches.admitted|;
      if |after.admitted| > n then Admitted(w, after.admitted[n].key, Some(n), None).(batches := after)
      else w.(batches := after)
    case Replaying(op) => if Replay.Enabled(w.queue, op) then ReplayNext(w, op, limits) else w
    case Deliver(key) => Admitted(w, key, None, None)
    case Continue(step) =>
      if !step.Admit? && Chain.Enabled(w.chains, step) then w.(chains := Chain.After(w.chains, step)) else w
  }

  function Run(ops: seq<Op>, limits: Batches.Limits): World {
    if ops == [] then Start else Next(Run(ops[..|ops| - 1], limits), ops[|ops| - 1], limits)
  }

  // ---- each part alone ------------------------------------------------------------------------

  function EventsOf(ops: seq<Op>): seq<Batches.Event> {
    if ops == [] then []
    else
      var before, last := EventsOf(ops[..|ops| - 1]), ops[|ops| - 1];
      if last.Inbound? then before + [last.event] else before
  }

  /** The steps of the replay that were taken: it does not finish a group before its delivery comes back. */
  function ReplayOf(ops: seq<Op>, limits: Batches.Limits): seq<Replay.Op> {
    if ops == [] then []
    else
      var before, last := ReplayOf(ops[..|ops| - 1], limits), ops[|ops| - 1];
      if last.Replaying? && (last.op.Finish? ==> CameBack(Run(ops[..|ops| - 1], limits), last.op.ok))
      then before + [last.op] else before
  }

  /** The batches and the groups of the composed system are those of batching and of the replay alone. */
  lemma {:induction false} PartsAlone(ops: seq<Op>, limits: Batches.Limits)
    ensures Run(ops, limits).batches == Batches.Run(EventsOf(ops), limits)
    ensures Run(ops, limits).queue == Replay.Run(ReplayOf(ops, limits), limits)
  {
    if ops != [] {
      var before, last := ops[..|ops| - 1], ops[|ops| - 1];
      PartsAlone(before, limits);
      if last.Inbound? {
        var events := EventsOf(before) + [last.event];
        assert events[..|events| - 1] == EventsOf(before);
      } else if last.Replaying? && ReplayOf(ops, limits) != ReplayOf(before, limits) {
        var steps := ReplayOf(before, limits) + [last.op];
        assert steps[..|steps| - 1] == ReplayOf(before, limits);
      }
    }
  }

  /** An event admits at most one batch. */
  lemma AtMostOne(s: Batches.State, event: Batches.Event, limits: Batches.Limits)
    ensures var after := Batches.After(s, event, limits);
      && |s.admitted| <= |after.admitted| <= |s.admitted| + 1
      && after.admitted[..|s.admitted|] == s.admitted
  {
  }

  // ---- what deliveries carry ------------------------------------------------------------------

  /** Delivery `id` carries item `i`, and is of the item's session. */
  ghost predicate Carries(keys: seq<string>, of: seq<Option<nat>>, c: Chain.Chains, id: nat, i: nat) {
    && id < |of| && id < |c.deliveries| && of[id] == Some(i)
    && i < |keys| && c.deliveries[id].key == keys[i]
  }

  ghost predicate IsCarried(keys: seq<string>, of: seq<Option<nat>>, c: Chain.Chains, i: nat) {
    exists id: nat :: Carries(keys, of, c, id, i)
  }

  /** Every item is carried, in order. */
  ghost predicate Aligned(keys: seq<string>, of: seq<Option<nat>>, c: Chain.Chains) {
    && |of| == |c.deliveries|
    && (forall id: nat | id < |of| && of[id].Some? :: Carries(keys, of, c, id, of[id].value))
    && (forall a, b | 0 <= a < b < |of| && of[a].Some? && of[b].Some? :: of[a].value < of[b].value)
    && (forall i: nat | i < |keys| :: IsCarried(keys, of, c, i))
  }

  lemma AdmittingKeepsAligned(keys: seq<string>, of: seq<Option<nat>>, c: Chain.Chains, key: string, item: Option<nat>)
    requires Aligned(keys, of, c) && (item.Some? ==> item.value == |keys|)
    ensures Aligned(if item.Some? then keys + [key] else keys, of + [item], Chain.After(c, Chain.Admit(key)))
  {
    var keys', of', c' := if item.Some? then keys + [key] else keys, of + [item], Chain.After(c, Chain.Admit(key));
    forall id: nat, i: nat | Carries(keys, of, c, id, i) ensures Carries(keys', of', c', id, i) {
    }
    if item.Some? {
      assert Carries(keys', of', c', |of|, item.value);
    }
    forall i: nat | i < |keys'| ensures IsCarried(keys', of', c', i) {
      if i < |keys| {
        assert IsCarried(keys, of, c, i);
        var id: nat :| Carries(keys, of, c, id, i);
        assert Carries(keys', of', c', id, i);
      }
    }
    forall id: nat | id < |of'| && of'[id].Some? ensures Carries(keys', of', c', id, of'[id].value) {
      if id < |of| {
        assert Carries(keys, of, c, id, of[id].value);
      }
    }
  }

  /** Promises settle and callers go on: keys stay, and what has settled stays so. */
  ghost predicate Advances(c: Chain.Chains, d: Chain.Chains) {
    && |d.deliveries| == |c.deliveries|
    && (forall i | 0 <= i < |c.deliveries| ::
          && d.deliveries[i].key == c.deliveries[i].key
          && (c.deliveries[i].phase.Settled? ==> d.deliveries[i].phase == c.deliveries[i].phase))
  }

  lemma ContinuingAdvances(c: Chain.Chains, step: Chain.Step)
    requires !step.Admit? && Chain.Enabled(c, step)
    ensures Advances(c, Chain.After(c, step))
  {
  }

  lemma AdvancingKeepsAligned(keys: seq<string>, of: seq<Option<nat>>, c: Chain.Chains, d: Chain.Chains)
    requires Aligned(keys, of, c) && Advances(c, d)
    ensures Aligned(keys, of, d)
  {
    forall id: nat, i: nat | Carries(keys, of, c, id, i) ensures Carries(keys, of, d, id, i) {
    }
    forall i: nat | i < |keys| ensures IsCarried(keys, of, d, i) {
      assert IsCarried(keys, of, c, i);
      var id: nat :| Carries(keys, of, c, id, i);
      assert Carries(keys, of, d, id, i);
    }
  }

  // ---- the invariant --------------------------------------------------------------------------

  function BatchKeys(b: Batches.State): (keys: seq<string>)
    ensures |keys| == |b.admitted| && forall i | 0 <= i < |keys| :: keys[i] == b.admitted[i].key
  {
    seq(|b.admitted|, i requires 0 <= i < |b.admitted| => b.admitted[i].key)
  }

  function GroupKeys(q: Replay.Queue): (keys: seq<string>)
    ensures |keys| == |q.delivered| && forall i | 0 <= i < |keys| :: keys[i] == q.delivered[i].source.owner
  {
    seq(|q.delivered|, i requires 0 <= i < |q.delivered| => q.delivered[i].source.owner)
  }

  /** The replay waits for the last group it handed on; all earlier ones have settled. */
  ghost predicate OneByOne(w: World) {
    && (w.flight.Some? <==> w.queue.stage.Delivering?)
    && (w.flight.Some? ==>
          var n := |w.queue.delivered|;
          n > 0 && Carries(GroupKeys(w.queue), w.groupOf, w.chains, w.flight.value, n - 1))
    && (forall id | 0 <= id < |w.groupOf| && id < |w.chains.deliveries| ::
          w.groupOf[id].Some? && Some(id) != w.flight ==> w.chains.deliveries[id].phase.Settled?)
  }

  ghost predicate Inv(w: World) {
    && Chain.ChainInv(w.chains)
    && Aligned(BatchKeys(w.batches), w.batchOf, w.chains)
    && Aligned(GroupKeys(w.queue), w.groupOf, w.chains)
    && OneByOne(w)
  }

  /** A delivery that carries no group leaves the replay as it is. */
  lemma OtherAdmissionKeeps(w: World, v: World, key: string, batch: Option<nat>)
    requires Inv(w) && v == Admitted(w, key, batch, None).(batches := v.batches)
    requires Aligned(BatchKeys(v.batches), v.batchOf, v.chains)
    ensures Inv(v)
  {
    Chain.StepKeeps(w.chains, Chain.Admit(key));
    AdmittingKeepsAligned(GroupKeys(w.queue), w.groupOf, w.chains, key, None);
  }

  lemma BatchingKeeps(w: World, event: Batches.Event, limits: Batches.Limits)
    requires Inv(w)
    ensures Inv(Next(w, Inbound(event), limits))
  {
    AtMostOne(w.batches, event, limits);
    var after, n := Batches.After(w.batches, event, limits), |w.batches.admitted|;
    assert forall i | 0 <= i < n :: after.admitted[i] == after.admitted[..n][i];
    if |after.admitted| > n {
      var key := after.admitted[n].key;
      assert BatchKeys(after) == BatchKeys(w.batches) + [key];
      AdmittingKeepsAligned(BatchKeys(w.batches), w.batchOf, w.chains, key, Some(n));
      OtherAdmissionKeeps(w, Next(w, Inbound(event), limits), key, Some(n));
    } else {
      assert BatchKeys(after) == BatchKeys(w.batches);
    }
  }

  lemma HandingOnKeeps(w: World, limits: Batches.Limits)
    requires Inv(w) && Replay.Enabled(w.queue, Replay.Proceed(true))
    ensures Inv(ReplayNext(w, Replay.Proceed(true), limits))
  {
    var v := ReplayNext(w, Replay.Proceed(true), limits);
    var n := |w.queue.delivered|;
    var key := v.queue.delivered[n].source.owner;
    Chain.StepKeeps(w.chains, Chain.Admit(key));
    assert GroupKeys(v.queue) == GroupKeys(w.queue) + [key];
    AdmittingKeepsAligned(BatchKeys(w.batches), w.batchOf, w.chains, key, None);
    AdmittingKeepsAligned(GroupKeys(w.queue), w.groupOf, w.chains, key, Some(n));
  }

  lemma ReplayKeeps(w: World, op: Replay.Op, limits: Batches.Limits)
    requires Inv(w) && Replay.Enabled(w.queue, op)
    ensures Inv(ReplayNext(w, op, limits))
  {
    if op == Replay.Proceed(true) {
      HandingOnKeeps(w, limits);
    } else {
      assert GroupKeys(ReplayNext(w, op, limits).queue) == GroupKeys(w.queue);
    }
  }

  lemma ContinuingKeeps(w: World, step: Chain.Step, limits: Batches.Limits)
    requires Inv(w) && !step.Admit? && Chain.Enabled(w.chains, step)
    ensures Inv(Next(w, Continue(step), limits))
  {
    var c := Chain.After(w.chains, step);
    Chain.StepKeeps(w.chains, step);
    ContinuingAdvances(w.chains, step);
    AdvancingKeepsAligned(BatchKeys(w.batches), w.batchOf, w.chains, c);
    AdvancingKeepsAligned(GroupKeys(w.queue), w.groupOf, w.chains, c);
  }

  lemma {:induction false} RunsKeep(ops: seq<Op>, limits: Batches.Limits)
    ensures Inv(Run(ops, limits))
  {
    if ops != [] {
      RunsKeep(ops[..|ops| - 1], limits);
      var w := Run(ops[..|ops| - 1], limits);
      match ops[|ops| - 1]
      case Inbound(event) => BatchingKeeps(w, event, limits);
      case Replaying(op) =>
        if Replay.Enabled(w.queue, op) {
          ReplayKeeps(w, op, limits);
        }
      case Deliver(key) =>
        AdmittingKeepsAligned(BatchKeys(w.batches), w.batchOf, w.chains, key, None);
        OtherAdmissionKeeps(w, Admitted(w, key, None, None), key, None);
      case Continue(step) =>
        if !step.Admit? && Chain.Enabled(w.chains, step) {
          ContinuingKeeps(w, step, limits);
        }
    }
  }

  // ---- what a session sees --------------------------------------------------------------------

  /**
   Of two batches of one session, each is carried by a delivery of its own, and the handler of the later
   one starts only after that of the earlier has settled, whatever else is delivered in between and
   whatever has failed. By DeliveriesAreGroups the batches are the session's arrivals, in order.
   */
  lemma BatchesRunInOrder(ops: seq<Op>, limits: Batches.Limits, w: World, i: nat, j: nat) returns (a: nat, b: nat)
    requires w == Run(ops, limits) && i < j < |w.batches.admitted|
    requires w.batches.admitted[i].key == w.batches.admitted[j].key
    ensures w.batches == Batches.Run(EventsOf(ops), limits)
    ensures var keys := BatchKeys(w.batches);
      Carries(keys, w.batchOf, w.chains, a, i) && Carries(keys, w.batchOf, w.chains, b, j) && a < b
    ensures Chain.HasStarted(w.chains.deliveries[b]) ==> w.chains.deliveries[a].phase.Settled?
  {
    PartsAlone(ops, limits);
    RunsKeep(ops, limits);
    var keys := BatchKeys(w.batches);
    assert IsCarried(keys, w.batchOf, w.chains, i) && IsCarried(keys, w.batchOf, w.chains, j);
    a :| Carries(keys, w.batchOf, w.chains, a, i);
    b :| Carries(keys, w.batchOf, w.chains, b, j);
    if Chain.HasStarted(w.chains.deliveries[b]) {
      assert Chain.SettledBefore(w.chains, w.chains.deliveries[b].key, b);
    }
  }

  /** And as long as a batch has not been handled, the first of its session's deliveries runs or may start. */
  lemma BatchesAreNeverStuck(ops: seq<Op>, limits: Batches.Limits, w: World, i: nat) returns (a: nat, first: nat)
    requires w == Run(ops, limits) && i < |w.batches.admitted|
    ensures Carries(BatchKeys(w.batches), w.batchOf, w.chains, a, i)
    ensures !w.chains.deliveries[a].phase.Settled? ==>
              && first <= a && w.chains.deliveries[first].key == w.batches.admitted[i].key
              && (w.chains.deliveries[first].phase.Running? || Chain.Enabled(w.chains, Chain.Start(first)))
  {
    RunsKeep(ops, limits);
    assert IsCarried(BatchKeys(w.batches), w.batchOf, w.chains, i);
    a :| Carries(BatchKeys(w.batches), w.batchOf, w.chains, a, i);
    first := Chain.FirstUnsettled(w.chains, w.batches.admitted[i].key, 0);
    if first < |w.chains.deliveries| {
      assert Chain.Linked(w.chains, first);
    }
  }

  /**
   Replayed groups go one by one, of whatever sessions: each is carried by a delivery of its own, and once
   a later one is even handed on, the earlier has settled. The groups are those InboundReplay describes.
   */
  lemma ReplaysRunOneByOne(ops: seq<Op>, limits: Batches.Limits, w: World, i: nat, j: nat) returns (a: nat, b: nat)
    requires w == Run(ops, limits) && i < j < |w.queue.delivered|
    ensures w.queue == Replay.Run(ReplayOf(ops, limits), limits)
    ensures var keys := GroupKeys(w.queue);
      Carries(keys, w.groupOf, w.chains, a, i) && Carries(keys, w.groupOf, w.chains, b, j) && a < b
    ensures w.chains.deliveries[a].phase.Settled?
  {
    PartsAlone(ops, limits);
    RunsKeep(ops, limits);
    var keys := GroupKeys(w.queue);
    assert IsCarried(keys, w.groupOf, w.chains, i) && IsCarried(keys, w.groupOf, w.chains, j);
    a :| Carries(keys, w.groupOf, w.chains, a, i);
    b :| Carries(keys, w.groupOf, w.chains, b, j);
  }

  /**
   Nor does the replay get stuck: while it waits, its session's first unsettled delivery runs or may start;
   once its own has settled, its caller may go on; and then the group is finished, the way the handler went.
   */
  lemma ReplayIsNeverStuck(ops: seq<Op>, limits: Batches.Limits, w: World)
    requires w == Run(ops, limits) && w.queue.stage.Delivering?
    ensures w.flight.Some? && w.flight.value < |w.chains.deliveries|
    ensures
      var id := w.flight.value;
      var d := w.chains.deliveries[id];
      var first := Chain.FirstUnsettled(w.chains, d.key, 0);
      if !d.phase.Settled? then
        first <= id && (w.chains.deliveries[first].phase.Running? || Chain.Enabled(w.chains, Chain.Start(first)))
      else if !d.left then Chain.Enabled(w.chains, Chain.Leave(id))
      else
        var v := Next(w, Replaying(Replay.Finish(d.phase.ok)), limits);
        && v.queue.stage.Idle? && v.flight.None?
        && v.queue.settled == w.queue.settled
             + Replay.SettledWith(w.queue.group, if d.phase.ok then Replay.Resolved else Replay.Rejected)
  {
    PartsAlone(ops, limits);
    RunsKeep(ops, limits);
    Replay.RunsAreCounted(ReplayOf(ops, limits), limits);
    var first := Chain.FirstUnsettled(w.chains, w.chains.deliveries[w.flight.value].key, 0);
    if first < |w.chains.deliveries| {
      assert Chain.Linked(w.chains, first);
    }
  }
}
