/**
 Fencing: a claim token that its job no longer carries can change nothing ever again, and a closed
 occurrence never changes again. Both follow from one relation between the stores before and after
 any call: tokens are kept, dropped or fresh, and closed rows are kept or dropped.
 */
module AutomationFencing {
  import opened Wrappers
  import opened AutomationModel
  import opened AutomationInvariant
  import opened AutomationRuns
  import Outbox

  ghost predicate Evolves(s: Store, t: Store) {
    && s.nextId <= t.nextId
    && (forall j | j in t.jobs && j < s.nextId :: j in s.jobs)
    && (forall j | j in t.jobs && t.jobs[j].token.Some? ::
          s.nextId <= t.jobs[j].token.value || (j in s.jobs && t.jobs[j].token == s.jobs[j].token))
    && (forall o | o in t.occs && o < s.nextId :: o in s.occs && (!Open(s.occs[o]) ==> t.occs[o] == s.occs[o]))
  }

  lemma EvolvesTransitively(s: Store, t: Store, u: Store)
    requires Evolves(s, t) && Evolves(t, u)
    ensures Evolves(s, u)
  {
  }

  lemma ForgettingEvolves(s: Store, t: Store)
    requires OnlyForgets(s, t)
    ensures Evolves(s, t)
  {
  }

  lemma ClaimRowEvolves(s: Store, cal: Calendar, j: Id, now: int, leaseMs: int)
    requires j in s.jobs
    ensures ClaimRow(s, cal, j, now, leaseMs).Done? ==> Evolves(s, ClaimRow(s, cal, j, now, leaseMs).store)
  {
    if Misfired(s.jobs[j], now) {
      var next := if s.jobs[j].trigger.kind.At? then Some(s.jobs[j].nextRunAt) else cal(s.jobs[j].trigger, now);
      if next.Some? {
        var t := PassedOver(s, j, next.value, now);
        PruningOnlyForgets(t, j);
        ForgettingEvolves(t, PruneHistory(t, j));
        EvolvesTransitively(s, t, PruneHistory(t, j));
      }
    }
  }

  lemma {:induction false} ClaimRowsEvolve(s: Store, cal: Calendar, rows: seq<Id>, now: int, leaseMs: int,
          claims: seq<Claim>)
    ensures ClaimRows(s, cal, rows, now, leaseMs, claims).Done? ==>
              Evolves(s, ClaimRows(s, cal, rows, now, leaseMs, claims).store)
    decreases |rows|
  {
    if rows != [] {
      if rows[0] !in s.jobs {
        ClaimRowsEvolve(s, cal, rows[1..], now, leaseMs, claims);
      } else {
        var r := ClaimRow(s, cal, rows[0], now, leaseMs);
        if r.Done? {
          ClaimRowEvolves(s, cal, rows[0], now, leaseMs);
          ClaimRowsEvolve(r.store, cal, rows[1..], now, leaseMs, Collect(claims, r.result));
          var final := ClaimRows(r.store, cal, rows[1..], now, leaseMs, Collect(claims, r.result));
          if final.Done? {
            EvolvesTransitively(s, r.store, final.store);
          }
        }
      }
    }
  }

  /** Releasing a job and rewriting its open occurrence. */
  lemma ClosingEvolves(s: Store, t: Store, clock: int, j: Id, o: Id)
    requires j in s.jobs && JobOk(s, j) && o in s.occs && Open(s.occs[o])
    requires s.nextId <= t.nextId && j in t.jobs && t.jobs == s.jobs[j := t.jobs[j]] && t.jobs[j].token.None?
    requires o in t.occs && t.occs == s.occs[o := t.occs[o]]
    ensures Evolves(s, t)
  {
  }

  lemma CompleteEvolves(s: Store, cal: Calendar, clock: int, claim: Claim, res: Completion, now: int)
    requires Inv(s, clock)
    ensures Complete(s, cal, claim, res, now).Done? ==> Evolves(s, Complete(s, cal, claim, res, now).store)
  {
    if HoldsJob(s, claim, now) && Complete(s, cal, claim, res, now).Done? {
      var o, job, t := CompletionShape(s, cal, clock, claim, res, now);
      ClosingEvolves(s, t, clock, claim.jobId, o);
      ForgettingEvolves(t, Complete(s, cal, claim, res, now).store);
      EvolvesTransitively(s, t, Complete(s, cal, claim, res, now).store);
    }
  }

  lemma {:induction false} ClaimDeliveriesEvolve(s: Store, rows: seq<Id>, now: int, leaseMs: int)
    ensures Evolves(s, ClaimDeliveries(s, rows, now, leaseMs))
    ensures ClaimDeliveries(s, rows, now, leaseMs).jobs == s.jobs
            && ClaimDeliveries(s, rows, now, leaseMs).occs == s.occs
    decreases |rows|
  {
    if rows != [] {
      ClaimDeliveriesEvolve(ClaimDelivery(s, rows[0], now, leaseMs), rows[1..], now, leaseMs);
    }
  }

  lemma SettleDeliveryEvolves(s: Store, d: Id, row: Outbox.Row, now: int)
    requires d in s.dels
    ensures Evolves(s, PruneAround(WithRow(s, d, row, now), s.dels[d]))
    ensures PruneAround(WithRow(s, d, row, now), s.dels[d]).jobs == s.jobs
  {
    var t := WithRow(s, d, row, now);
    PruneAroundForgets(t, s.dels[d]);
    ForgettingEvolves(t, PruneAround(t, s.dels[d]));
    EvolvesTransitively(s, t, PruneAround(t, s.dels[d]));
  }

  lemma ScheduleCallsEvolve(s: Store, cal: Calendar, c: Call)
    requires OnSchedules(c.op)
    ensures Evolves(s, Apply(s, cal, c).store)
  {
  }

  lemma ClaimCallsEvolve(s: Store, clock: int, cal: Calendar, c: Call)
    requires Inv(s, clock) && OnClaims(c.op)
    ensures Evolves(s, Apply(s, cal, c).store)
  {
    match c.op
    case OpClaimDue(rows, _, leaseMs) => ClaimRowsEvolve(s, cal, rows, c.now, leaseMs, []);
    case OpRenew(id, token, until) =>
    case OpBind(id, o, token, objective, taskRun) =>
    case OpComplete(claim, res) => CompleteEvolves(s, cal, clock, claim, res, c.now);
  }

  lemma DeliveryCallsEvolve(s: Store, cal: Calendar, c: Call)
    requires !OnSchedules(c.op) && !OnClaims(c.op)
    ensures Evolves(s, Apply(s, cal, c).store)
    ensures Apply(s, cal, c).store.jobs == s.jobs
  {
    match c.op
    case OpClaimDeliveries(rows, _, leaseMs) => ClaimDeliveriesEvolve(s, rows, c.now, leaseMs);
    case OpEnqueue(owner, text, key) =>
    case OpCompleteDelivery(id, token) =>
      if HoldsDelivery(s, id, token, c.now) {
        SettleDeliveryEvolves(s, id, Outbox.TextComplete(s.dels[id].row), c.now);
      }
    case OpFailDelivery(id, token) =>
      if HoldsDelivery(s, id, token, c.now) {
        SettleDeliveryEvolves(s, id, Outbox.TextFail(s.dels[id].row, c.now), c.now);
      }
    case OpDeferDelivery(id, token, retryAt) =>
  }

  lemma CallsEvolve(s: Store, clock: int, cal: Calendar, c: Call)
    requires Inv(s, clock)
    ensures Evolves(s, Apply(s, cal, c).store)
  {
    if OnSchedules(c.op) {
      ScheduleCallsEvolve(s, cal, c);
    } else if OnClaims(c.op) {
      ClaimCallsEvolve(s, clock, cal, c);
    } else {
      DeliveryCallsEvolve(s, cal, c);
    }
  }

  // ---- runs, cut in two -----------------------------------------------------------------------

  lemma {:induction false} RunInTwo(w: World, cal: Calendar, first: seq<Call>, second: seq<Call>)
    ensures Run(w, cal, first + second) == Run(Run(w, cal, first), cal, second)
    ensures AllAllowed(w, cal, first + second) <==>
              AllAllowed(w, cal, first) && AllAllowed(Run(w, cal, first), cal, second)
    decreases |first|
  {
    if first == [] {
      assert first + second == second;
    } else {
      assert (first + second)[1..] == first[1..] + second;
      RunInTwo(Next(w, cal, first[0]), cal, first[1..], second);
    }
  }

  /** A call appended to an allowed run is allowed where the run ends, in a well-formed store. */
  lemma LastCall(w: World, cal: Calendar, calls: seq<Call>, c: Call)
    requires Inv(w.store, w.clock) && AllAllowed(w, cal, calls + [c])
    ensures AllAllowed(w, cal, calls)
    ensures Allowed(Run(w, cal, calls), c)
    ensures Inv(Run(w, cal, calls).store, Run(w, cal, calls).clock)
    ensures Run(w, cal, calls + [c]) == Next(Run(w, cal, calls), cal, c)
  {
    RunInTwo(w, cal, calls, [c]);
    RunsKeepLeases(w, cal, calls);
    var end := Run(w, cal, calls);
    assert [c][1..] == [];
    assert Run(Next(end, cal, c), cal, []) == Next(end, cal, c);
  }

  // ---- fencing --------------------------------------------------------------------------------

  /** A token handed out before and carried by no job now. */
  ghost predicate Retired(s: Store, token: Id) {
    token < s.nextId && forall j | j in s.jobs :: s.jobs[j].token != Some(token)
  }

  predicate Wields(op: Op, token: Id) {
    match op
    case OpRenew(_, t, _) => t == token
    case OpBind(_, _, t, _, _) => t == token
    case OpComplete(claim, _) => claim.job.token == Some(token)
    case _ => false
  }

  lemma RetiredTokensDoNothing(s: Store, clock: int, cal: Calendar, c: Call, token: Id)
    requires Inv(s, clock) && clock <= c.now && Retired(s, token) && Wields(c.op, token)
    ensures Apply(s, cal, c) == Effect(s, false, false, [])
  {
    if c.op.OpBind? && c.op.occurrence in s.occs {
      assert OccurrenceOk(s, clock, c.op.occurrence);
    }
  }

  lemma {:induction false} RetiredForever(w: World, cal: Calendar, calls: seq<Call>, token: Id)
    requires Inv(w.store, w.clock) && AllAllowed(w, cal, calls) && Retired(w.store, token)
    ensures Retired(Run(w, cal, calls).store, token)
    decreases |calls|
  {
    if calls != [] {
      CallsEvolve(w.store, w.clock, cal, calls[0]);
      NextKeepsLeases(w, cal, calls[0]);
      RetiredForever(Next(w, cal, calls[0]), cal, calls[1..], token);
    }
  }

  /** Once retired, a token changes no row and gets a refusal, however much later it is used. */
  lemma Fenced(w: World, cal: Calendar, calls: seq<Call>, c: Call, token: Id)
    requires Inv(w.store, w.clock) && AllAllowed(w, cal, calls + [c])
    requires Retired(w.store, token) && Wields(c.op, token)
    ensures Apply(Run(w, cal, calls).store, cal, c) == Effect(Run(w, cal, calls).store, false, false, [])
  {
    LastCall(w, cal, calls, c);
    RetiredForever(w, cal, calls, token);
    RetiredTokensDoNothing(Run(w, cal, calls).store, Run(w, cal, calls).clock, cal, c, token);
  }

  /** Calls that retire the token a job carries: its completion, its next pick, its removal. */
  predicate Retires(s: Store, c: Call, j: Id) {
    match c.op
    case OpComplete(claim, _) => claim.jobId == j
    case OpClaimDue(rows, _, _) => j in rows
    case OpRemove(id, _) => id == j
    case _ => false
  }

  lemma {:induction false} PickedTokensChange(s: Store, cal: Calendar, rows: seq<Id>, now: int, leaseMs: int,
          claims: seq<Claim>, j: Id)
    requires StillDue(s, rows, now) && j in s.jobs
    requires s.jobs[j].token.Some? && s.jobs[j].token.value < s.nextId
    requires ClaimRows(s, cal, rows, now, leaseMs, claims).Done?
    ensures
      var t := ClaimRows(s, cal, rows, now, leaseMs, claims).store;
      j in t.jobs && (j in rows ==> t.jobs[j].token != s.jobs[j].token)
    decreases |rows|
  {
    if rows != [] {
      var r := ClaimRow(s, cal, rows[0], now, leaseMs);
      RestStillDue(s, cal, rows, now, leaseMs);
      ClaimRowIsLocal(s, cal, rows[0], now, leaseMs);
      ClaimRowEvolves(s, cal, rows[0], now, leaseMs);
      if rows[0] == j {
        NotPickedKept(r.store, cal, rows[1..], now, leaseMs, Collect(claims, r.result), j);
        if Misfired(s.jobs[j], now) {
          assert r.store.jobs[j].token.None?;
        } else {
          assert r.store.jobs[j].token == Some(s.nextId);
        }
      } else {
        PickedTokensChange(r.store, cal, rows[1..], now, leaseMs, Collect(claims, r.result), j);
      }
    }
  }

  lemma {:induction false} NotPickedKept(s: Store, cal: Calendar, rows: seq<Id>, now: int, leaseMs: int,
          claims: seq<Claim>, j: Id)
    requires StillDue(s, rows, now) && j in s.jobs && j !in rows
    requires ClaimRows(s, cal, rows, now, leaseMs, claims).Done?
    ensures
      var t := ClaimRows(s, cal, rows, now, leaseMs, claims).store;
      j in t.jobs && t.jobs[j] == s.jobs[j]
    decreases |rows|
  {
    if rows != [] {
      RestStillDue(s, cal, rows, now, leaseMs);
      ClaimRowIsLocal(s, cal, rows[0], now, leaseMs);
      var r := ClaimRow(s, cal, rows[0], now, leaseMs);
      NotPickedKept(r.store, cal, rows[1..], now, leaseMs, Collect(claims, r.result), j);
    }
  }

  /** A settled, superseded, skipped or removed claim's token is retired by that very call. */
  lemma TokensRetire(w: World, cal: Calendar, c: Call, j: Id, token: Id)
    requires Inv(w.store, w.clock) && Allowed(w, c)
    requires j in w.store.jobs && w.store.jobs[j].token == Some(token)
    requires Retires(w.store, c, j) && Apply(w.store, cal, c).ok
    ensures Retired(Next(w, cal, c).store, token)
  {
    var s := w.store;
    assert JobOk(s, j);
    CallsEvolve(s, w.clock, cal, c);
    match c.op
    case OpClaimDue(rows, _, leaseMs) => PickedTokensChange(s, cal, rows, c.now, leaseMs, [], j);
    case OpComplete(claim, res) => CompletionFrees(s, cal, w.clock, claim, res, c.now);
    case OpRemove(id, owner) =>
    LosingRetires(s, Apply(s, cal, c).store, w.clock, j, token);
  }

  /** A token is carried by one job only, so the job losing it retires it. */
  lemma LosingRetires(s: Store, t: Store, clock: int, j: Id, token: Id)
    requires Inv(s, clock) && Evolves(s, t) && j in s.jobs && s.jobs[j].token == Some(token)
    requires j in t.jobs ==> t.jobs[j].token != Some(token)
    ensures Retired(t, token)
  {
    assert JobOk(s, j);
    forall k | k in s.jobs && s.jobs[k].token == Some(token)
      ensures k == j
    {
      var o := HeldByOne(s, clock, k);
      var p := HeldByOne(s, clock, j);
    }
  }

  lemma CompletionFrees(s: Store, cal: Calendar, clock: int, claim: Claim, res: Completion, now: int)
    requires Inv(s, clock)
    requires Complete(s, cal, claim, res, now).Done? && Complete(s, cal, claim, res, now).result
    ensures
      var t := Complete(s, cal, claim, res, now).store;
      claim.jobId in t.jobs && t.jobs[claim.jobId].token.None?
  {
    var o, job, t := CompletionShape(s, cal, clock, claim, res, now);
  }

  /** `complete` answers true at most once per token. */
  lemma CompletesOnce(w: World, cal: Calendar, claim: Claim, first: Call, calls: seq<Call>, second: Call)
    requires Inv(w.store, w.clock) && AllAllowed(w, cal, [first] + calls + [second])
    requires first.op.OpComplete? && first.op.claim.job.token.Some?
    requires Wields(second.op, first.op.claim.job.token.value)
    requires Apply(w.store, cal, first).ok
    ensures !Apply(Run(w, cal, [first] + calls).store, cal, second).ok
    ensures Apply(Run(w, cal, [first] + calls).store, cal, second).store == Run(w, cal, [first] + calls).store
  {
    var token := first.op.claim.job.token.value;
    assert ([first] + calls + [second])[1..] == calls + [second];
    assert ([first] + calls)[1..] == calls;
    TokensRetire(w, cal, first, first.op.claim.jobId, token);
    NextKeepsLeases(w, cal, first);
    Fenced(Next(w, cal, first), cal, calls, second, token);
  }

  // ---- terminal statuses ----------------------------------------------------------------------

  /** A closed occurrence is never written again: at any later time its row is the same or gone. */
  lemma {:induction false} ClosedForever(w: World, cal: Calendar, calls: seq<Call>, o: Id, row: Occurrence)
    requires Inv(w.store, w.clock) && AllAllowed(w, cal, calls)
    requires o < w.store.nextId && !Open(row) && (o in w.store.occs ==> w.store.occs[o] == row)
    ensures
      var s := Run(w, cal, calls).store;
      o in s.occs ==> s.occs[o] == row
    decreases |calls|
  {
    if calls != [] {
      CallsEvolve(w.store, w.clock, cal, calls[0]);
      NextKeepsLeases(w, cal, calls[0]);
      ClosedForever(Next(w, cal, calls[0]), cal, calls[1..], o, row);
    }
  }
}
