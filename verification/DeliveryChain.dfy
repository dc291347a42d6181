/**
 The delivery chains: each delivery waits for the one admitted before it under the same key, whether
 that succeeds or fails. Promises settle and continue one step at a time, in any order the runtime
 chooses, while further deliveries are admitted.
 */
module DeliveryChain {
  import opened Wrappers

  datatype Phase = Waiting | Running | Settled(ok: bool)

  /** One call of deliverInOrder; `prior` is the tail it found, if any. */
  datatype Delivery = Delivery(key: string, prior: Option<nat>, phase: Phase, left: bool)

  /** All deliveries in the order of their admission, and the tail of each key that has one. */
  datatype Chains = Chains(deliveries: seq<Delivery>, tails: map<string, nat>)

  datatype Step =
    | Admit(key: string)
    | Start(id: nat)
    | Settle(id: nat, ok: bool)
    | Leave(id: nat)

  const Idle := Chains([], map[])

  function WithPhase(c: Chains, id: nat, phase: Phase): Chains
    requires id < |c.deliveries|
  {
    c.(deliveries := c.deliveries[id := c.deliveries[id].(phase := phase)])
  }

  predicate IsSettled(c: Chains, id: nat) {
    id < |c.deliveries| && c.deliveries[id].phase.Settled?
  }

  /** A handler starts once the delivery before it has settled, either way. */
  predicate Enabled(c: Chains, step: Step) {
    match step
    case Admit(_) => true
    case Start(id) =>
      && id < |c.deliveries| && c.deliveries[id].phase.Waiting?
      && (c.deliveries[id].prior.Some? ==> IsSettled(c, c.deliveries[id].prior.value))
    case Settle(id, _) => id < |c.deliveries| && c.deliveries[id].phase.Running?
    case Leave(id) => IsSettled(c, id) && !c.deliveries[id].left
  }

  function After(c: Chains, step: Step): Chains
    requires Enabled(c, step)
  {
    match step
    case Admit(key) =>
      var prior := if key in c.tails then Some(c.tails[key]) else None;
      Chains(c.deliveries + [Delivery(key, prior, Waiting, false)], c.tails[key := |c.deliveries|])
    case Start(id) => WithPhase(c, id, Running)
    case Settle(id, ok) => WithPhase(c, id, Settled(ok))
    case Leave(id) =>
      var key := c.deliveries[id].key;
      Chains(
        c.deliveries[id := c.deliveries[id].(left := true)],
        if key in c.tails && c.tails[key] == id then c.tails - {key} else c.tails)
  }

  /** What a schedule of steps leads to; a step that is not enabled does not happen. */
  function Run(steps: seq<Step>): Chains {
    if steps == [] then Idle
    else
      var before, last := Run(steps[..|steps| - 1]), steps[|steps| - 1];
      if Enabled(before, last) then After(before, last) else before
  }

  // ---- the invariant --------------------------------------------------------------------------

  predicate HasStarted(d: Delivery) {
    !d.phase.Waiting?
  }

  /** Everything admitted under the key before `n` has settled. */
  ghost predicate SettledBefore(c: Chains, key: string, n: nat) {
    forall i | 0 <= i < n && i < |c.deliveries| && c.deliveries[i].key == key :: c.deliveries[i].phase.Settled?
  }

  /** The delivery waits for the last one of its key before it, or there was nothing left to wait for. */
  ghost predicate Linked(c: Chains, n: nat)
    requires n < |c.deliveries|
  {
    var d := c.deliveries[n];
    match d.prior
    case Some(p) =>
      && p < n && c.deliveries[p].key == d.key
      && (forall i | p < i < n :: c.deliveries[i].key != d.key)
    case None => SettledBefore(c, d.key, n)
  }

  ghost predicate TailOk(c: Chains, key: string) {
    if key in c.tails then
      && c.tails[key] < |c.deliveries| && c.deliveries[c.tails[key]].key == key
      && (forall i | c.tails[key] < i < |c.deliveries| :: c.deliveries[i].key != key)
    else SettledBefore(c, key, |c.deliveries|)
  }

  ghost predicate ChainInv(c: Chains) {
    && (forall n | 0 <= n < |c.deliveries| :: Linked(c, n))
    && (forall n | 0 <= n < |c.deliveries| && HasStarted(c.deliveries[n]) :: SettledBefore(c, c.deliveries[n].key, n))
    && (forall key :: TailOk(c, key))
  }

  lemma PhaseKeepsTails(c: Chains, id: nat, phase: Phase, key: string)
    requires id < |c.deliveries| && TailOk(c, key)
    requires c.deliveries[id].phase.Settled? ==> phase.Settled?
    ensures TailOk(WithPhase(c, id, phase), key)
  {
  }

  lemma PhaseKeepsLinks(c: Chains, id: nat, phase: Phase, n: nat)
    requires id < |c.deliveries| && n < |c.deliveries| && Linked(c, n)
    requires c.deliveries[id].phase.Settled? ==> phase.Settled?
    ensures Linked(WithPhase(c, id, phase), n)
  {
    var c' := WithPhase(c, id, phase);
    assert forall i | 0 <= i < |c.deliveries| :: c'.deliveries[i].key == c.deliveries[i].key;
    assert c'.deliveries[n].prior == c.deliveries[n].prior;
  }

  /** When a delivery may start, all before it of its key have settled: the prior and those before that. */
  lemma StartIsInOrder(c: Chains, id: nat)
    requires ChainInv(c) && Enabled(c, Start(id))
    ensures SettledBefore(c, c.deliveries[id].key, id)
  {
    assert Linked(c, id);
    var d := c.deliveries[id];
    if d.prior.Some? {
      var p := d.prior.value;
      assert SettledBefore(c, d.key, p);
    }
  }

  lemma PhaseKeeps(c: Chains, id: nat, phase: Phase)
    requires ChainInv(c) && id < |c.deliveries|
    requires c.deliveries[id].phase.Settled? ==> phase.Settled?
    requires !phase.Waiting? ==> SettledBefore(c, c.deliveries[id].key, id)
    ensures ChainInv(WithPhase(c, id, phase))
  {
    forall key ensures TailOk(WithPhase(c, id, phase), key) {
      PhaseKeepsTails(c, id, phase, key);
    }
    forall n | 0 <= n < |c.deliveries| ensures Linked(WithPhase(c, id, phase), n) {
      PhaseKeepsLinks(c, id, phase, n);
    }
  }

  lemma AdmitKeeps(c: Chains, key: string)
    requires ChainInv(c)
    ensures ChainInv(After(c, Admit(key)))
  {
    var c' := After(c, Admit(key));
    assert TailOk(c, key);
    forall n | 0 <= n < |c'.deliveries| ensures Linked(c', n) {
      if n < |c.deliveries| {
        assert Linked(c, n);
      }
    }
    forall other ensures TailOk(c', other) {
      assert TailOk(c, other);
    }
    forall n | 0 <= n < |c'.deliveries| && HasStarted(c'.deliveries[n])
      ensures SettledBefore(c', c'.deliveries[n].key, n)
    {
      assert SettledBefore(c, c.deliveries[n].key, n);
    }
  }

  lemma LeaveKeeps(c: Chains, id: nat)
    requires ChainInv(c) && Enabled(c, Leave(id))
    ensures ChainInv(After(c, Leave(id)))
  {
    var c' := After(c, Leave(id));
    assert forall i | 0 <= i < |c.deliveries| ::
        c'.deliveries[i].key == c.deliveries[i].key && c'.deliveries[i].phase == c.deliveries[i].phase
        && c'.deliveries[i].prior == c.deliveries[i].prior;
    forall n | 0 <= n < |c'.deliveries| ensures Linked(c', n) {
      assert Linked(c, n);
    }
    forall n | 0 <= n < |c'.deliveries| && HasStarted(c'.deliveries[n])
      ensures SettledBefore(c', c'.deliveries[n].key, n)
    {
      assert SettledBefore(c, c.deliveries[n].key, n);
    }
    assert SettledBefore(c, c.deliveries[id].key, id);
    forall key ensures TailOk(c', key) {
      assert TailOk(c, key);
    }
  }

  /** Every step keeps the order of the chains. */
  lemma StepKeeps(c: Chains, step: Step)
    requires ChainInv(c) && Enabled(c, step)
    ensures ChainInv(After(c, step))
  {
    match step
    case Admit(key) => AdmitKeeps(c, key);
    case Start(id) =>
      StartIsInOrder(c, id);
      PhaseKeeps(c, id, Running);
    case Settle(id, ok) =>
      assert SettledBefore(c, c.deliveries[id].key, id);
      PhaseKeeps(c, id, Settled(ok));
    case Leave(id) => LeaveKeeps(c, id);
  }

  lemma {:induction false} RunsKeep(steps: seq<Step>)
    ensures ChainInv(Run(steps))
  {
    if steps != [] {
      var before := Run(steps[..|steps| - 1]);
      RunsKeep(steps[..|steps| - 1]);
      if Enabled(before, steps[|steps| - 1]) {
        StepKeeps(before, steps[|steps| - 1]);
      }
    }
  }

  // ---- what callers see -----------------------------------------------------------------------

  /**
   In every reachable state, a handler that has started found all earlier deliveries of its key settled,
   whether well or not: handlers of one key never overlap, and start in the order of admission.
   */
  lemma HandlersNeverOverlap(steps: seq<Step>, c: Chains, earlier: nat, later: nat)
    requires c == Run(steps) && earlier < later < |c.deliveries|
    requires c.deliveries[earlier].key == c.deliveries[later].key
    ensures HasStarted(c.deliveries[later]) ==> c.deliveries[earlier].phase.Settled?
    ensures !(c.deliveries[earlier].phase.Running? && c.deliveries[later].phase.Running?)
  {
    RunsKeep(steps);
    if HasStarted(c.deliveries[later]) {
      assert SettledBefore(c, c.deliveries[later].key, later);
    }
  }

  /** The first delivery of the key that has not settled, or the number of deliveries. */
  function FirstUnsettled(c: Chains, key: string, from: nat): (n: nat)
    requires from <= |c.deliveries|
    ensures from <= n <= |c.deliveries|
    ensures n < |c.deliveries| ==> c.deliveries[n].key == key && !c.deliveries[n].phase.Settled?
    ensures forall i | from <= i < n && c.deliveries[i].key == key :: c.deliveries[i].phase.Settled?
    decreases |c.deliveries| - from
  {
    if from == |c.deliveries| || (c.deliveries[from].key == key && !c.deliveries[from].phase.Settled?) then from
    else FirstUnsettled(c, key, from + 1)
  }

  /**
   No chain is ever stuck: as long as a key has an unsettled delivery, its first one runs or may start,
   whatever became of those before it, and it is the only one of the key that runs or may start.
   */
  lemma NeverStuck(steps: seq<Step>, c: Chains, key: string)
    requires c == Run(steps)
    ensures var n := FirstUnsettled(c, key, 0);
      && (n < |c.deliveries| ==> c.deliveries[n].phase.Running? || Enabled(c, Start(n)))
      && (forall m | 0 <= m < |c.deliveries| && c.deliveries[m].key == key ::
            c.deliveries[m].phase.Running? || Enabled(c, Start(m)) ==> m == n)
  {
    RunsKeep(steps);
    var n := FirstUnsettled(c, key, 0);
    if n < |c.deliveries| {
      assert Linked(c, n);
    }
    forall m | 0 <= m < |c.deliveries| && c.deliveries[m].key == key
      && (c.deliveries[m].phase.Running? || Enabled(c, Start(m)))
      ensures m == n
    {
      if Enabled(c, Start(m)) {
        StartIsInOrder(c, m);
      }
      assert SettledBefore(c, key, m);
    }
  }

  /** Step `k` of the schedule settles the delivery this way. */
  ghost predicate SettlesAt(steps: seq<Step>, k: nat, id: nat, ok: bool) {
    k < |steps| && steps[k] == Settle(id, ok) && Enabled(Run(steps[..k]), steps[k])
  }

  /** A delivery has settled, well or not, exactly as its own handler did, whatever became of others. */
  lemma {:induction false} SettledAsItsHandler(steps: seq<Step>, id: nat, ok: bool)
    ensures id < |Run(steps).deliveries| && Run(steps).deliveries[id].phase == Settled(ok) <==>
              exists k: nat :: SettlesAt(steps, k, id, ok)
    decreases |steps|
  {
    if steps != [] {
      var n := |steps| - 1;
      var before, last := steps[..n], steps[n];
      SettledAsItsHandler(before, id, ok);
      forall k: nat | k < n
        ensures SettlesAt(steps, k, id, ok) <==> SettlesAt(before, k, id, ok)
      {
        assert steps[..k] == before[..k];
      }
      if exists k: nat :: SettlesAt(before, k, id, ok) {
        var k: nat :| SettlesAt(before, k, id, ok);
        assert SettlesAt(steps, k, id, ok);
      }
      if last == Settle(id, ok) && Enabled(Run(before), last) {
        assert SettlesAt(steps, n, id, ok);
      }
    }
  }

  /** A tail is of a delivery of its key whose caller has not gone on; those who have gone on, settled. */
  lemma {:induction false} TailsAreOpen(steps: seq<Step>, c: Chains)
    requires c == Run(steps)
    ensures forall i | 0 <= i < |c.deliveries| && c.deliveries[i].left :: c.deliveries[i].phase.Settled?
    ensures forall key | key in c.tails ::
              (c.tails[key] < |c.deliveries| && c.deliveries[c.tails[key]].key == key
                && !c.deliveries[c.tails[key]].left)
    decreases |steps|
  {
    if steps != [] {
      TailsAreOpen(steps[..|steps| - 1], Run(steps[..|steps| - 1]));
    }
  }

  /** So the map holds no key all of whose callers have gone on. */
  lemma FinishedKeysAreDropped(steps: seq<Step>, c: Chains, key: string)
    requires c == Run(steps)
    requires forall i | 0 <= i < |c.deliveries| && c.deliveries[i].key == key :: c.deliveries[i].left
    ensures key !in c.tails
  {
    TailsAreOpen(steps, c);
  }
}
