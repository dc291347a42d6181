/**
 The limits a schedule runs under. Whatever callers ask for, every schedule ever stored allows between
 one and twenty attempts and a grace of at most a week; a failed attempt short of the limit waits for
 its backoff, and nothing claims the schedule before.
 */
module AutomationLimits {
  import opened Wrappers
  import opened AutomationModel
  import opened AutomationInvariant
  import opened AutomationRuns
  import opened AutomationFencing

  ghost predicate Bounded(s: Store) {
    forall j | j in s.jobs :: 1 <= s.jobs[j].maxAttempts <= 20 && 0 <= s.jobs[j].graceMs <= 604_800_000
  }

  lemma ScheduleCallsKeepBounded(s: Store, cal: Calendar, c: Call)
    requires Bounded(s) && OnSchedules(c.op)
    ensures Bounded(Apply(s, cal, c).store)
  {
    match c.op
    case OpCreate(input) => CreateKeepsBounded(s, cal, input, c.now);
    case OpUpdate(id, patch, owner) => UpdateKeepsBounded(s, cal, id, patch, owner, c.now);
    case OpRunNow(id, owner) =>
    case OpSetEnabled(id, enabled, owner) =>
    case OpRemove(id, owner) =>
  }

  lemma CreateKeepsBounded(s: Store, cal: Calendar, input: JobInput, now: int)
    requires Bounded(s)
    ensures Create(s, cal, input, now).Done? ==> Bounded(Create(s, cal, input, now).store)
  {
  }

  lemma UpdateKeepsBounded(s: Store, cal: Calendar, id: Id, patch: Patch, owner: Owner, now: int)
    requires Bounded(s)
    ensures Update(s, cal, id, patch, owner, now).Done? ==> Bounded(Update(s, cal, id, patch, owner, now).store)
  {
  }

  lemma ClaimRowKeepsBounded(s: Store, cal: Calendar, j: Id, now: int, leaseMs: int)
    requires Bounded(s) && j in s.jobs && ClaimRow(s, cal, j, now, leaseMs).Done?
    ensures Bounded(ClaimRow(s, cal, j, now, leaseMs).store)
  {
    ClaimRowIsLocal(s, cal, j, now, leaseMs);
  }

  lemma {:induction false} ClaimRowsKeepBounded(s: Store, cal: Calendar, rows: seq<Id>, now: int, leaseMs: int,
          claims: seq<Claim>)
    requires Bounded(s)
    ensures ClaimRows(s, cal, rows, now, leaseMs, claims).Done? ==>
              Bounded(ClaimRows(s, cal, rows, now, leaseMs, claims).store)
    decreases |rows|
  {
    if rows != [] {
      if rows[0] !in s.jobs {
        ClaimRowsKeepBounded(s, cal, rows[1..], now, leaseMs, claims);
      } else {
        var r := ClaimRow(s, cal, rows[0], now, leaseMs);
        if r.Done? {
          ClaimRowKeepsBounded(s, cal, rows[0], now, leaseMs);
          ClaimRowsKeepBounded(r.store, cal, rows[1..], now, leaseMs, Collect(claims, r.result));
        }
      }
    }
  }

  lemma CompletionKeepsBounded(s: Store, clock: int, cal: Calendar, claim: Claim, res: Completion, now: int)
    requires Inv(s, clock) && Bounded(s)
    ensures Complete(s, cal, claim, res, now).Done? ==> Bounded(Complete(s, cal, claim, res, now).store)
  {
    if Complete(s, cal, claim, res, now).Done? && HoldsJob(s, claim, now) {
      var o, job, t := CompletionShape(s, cal, clock, claim, res, now);
    }
  }

  lemma CallsKeepBounded(s: Store, clock: int, cal: Calendar, c: Call)
    requires Inv(s, clock) && Bounded(s)
    ensures Bounded(Apply(s, cal, c).store)
  {
    if OnSchedules(c.op) {
      ScheduleCallsKeepBounded(s, cal, c);
    } else if c.op.OpClaimDue? {
      ClaimRowsKeepBounded(s, cal, c.op.rows, c.now, c.op.leaseMs, []);
    } else if c.op.OpComplete? {
      CompletionKeepsBounded(s, clock, cal, c.op.claim, c.op.res, c.now);
    } else if !OnClaims(c.op) {
      DeliveryCallsEvolve(s, cal, c);
    }
  }

  /** The limits hold of every schedule in every reachable store. */
  lemma {:induction false} LimitsHold(w: World, cal: Calendar, calls: seq<Call>)
    requires Inv(w.store, w.clock) && Bounded(w.store) && AllAllowed(w, cal, calls)
    ensures Bounded(Run(w, cal, calls).store)
    decreases |calls|
  {
    if calls != [] {
      CallsKeepBounded(w.store, w.clock, cal, calls[0]);
      NextKeepsLeases(w, cal, calls[0]);
      LimitsHold(Next(w, cal, calls[0]), cal, calls[1..]);
    }
  }

  /**
   A failed attempt short of the limit leaves its occurrence to be retried half a minute, a minute or
   five minutes later, by which attempt it was, and the schedule is not due at any moment before.
   */
  lemma FailedRunWaits(s: Store, clock: int, cal: Calendar, claim: Claim, res: Completion, now: int) returns (o: Id)
    requires Inv(s, clock) && HoldsJob(s, claim, now) && !res.ok && Complete(s, cal, claim, res, now).Done?
    ensures Carries(s, claim.jobId, o)
    ensures s.occs[o].attempts < claim.job.maxAttempts ==>
              var t := Complete(s, cal, claim, res, now).store;
              && claim.jobId in t.jobs && o in t.occs && t.occs[o].status.Retrying?
              && t.occs[o].attempts == s.occs[o].attempts
              && var job := t.jobs[claim.jobId];
                 && job.enabled && job.token.None? && job.manualResumeAt == s.jobs[claim.jobId].manualResumeAt
                 && job.nextRunAt - now == (if s.occs[o].attempts == 1 then 30_000
                                            else if s.occs[o].attempts == 2 then 60_000
                                            else 300_000)
                 && forall at | at < job.nextRunAt :: !DueJob(job, at)
  {
    var job, t;
    o, job, t := CompletionShape(s, cal, clock, claim, res, now);
    assert OccurrenceOk(s, clock, o);
  }
}
