/**
 The calendar of a schedule started by hand. While a claim is out, no call can change the fields its
 worker will write back, so the claim is as good as the row; hence a manual run of a recurring
 schedule puts the calendar aside, keeps it through every retry and lost lease, and puts it back
 exactly when its occurrence settles.
 */
module AutomationCalendar {
  import opened Wrappers
  import opened AutomationModel
  import opened AutomationInvariant
  import opened AutomationRuns
  import opened AutomationFencing

  /** The fields `complete` writes from the claim rather than from the row. */
  ghost predicate Current(claim: Claim, j: Id, job: Job) {
    && claim.jobId == j
    && claim.job.token == job.token
    && claim.job.trigger == job.trigger
    && claim.job.deleteAfterRun == job.deleteAfterRun
    && claim.job.maxAttempts == job.maxAttempts
    && claim.job.manualResumeAt == job.manualResumeAt
    && claim.job.consecutiveErrors == job.consecutiveErrors
  }

  ghost predicate Snapshots(s: Store, issued: map<Id, Claim>) {
    && (forall t | t in issued :: t < s.nextId)
    && (forall j | j in s.jobs && s.jobs[j].token.Some? ::
          s.jobs[j].token.value in issued && Current(issued[s.jobs[j].token.value], j, s.jobs[j]))
  }

  /** Calls other than claims give out no token and leave leased rows' claim fields alone. */
  ghost predicate KeepsLeased(s: Store, t: Store) {
    && s.nextId <= t.nextId
    && forall j | j in t.jobs && t.jobs[j].token.Some? ::
         && j in s.jobs
         && var job := t.jobs[j];
            job == s.jobs[j].(enabled := job.enabled, nextRunAt := job.nextRunAt, lockedUntil := job.lockedUntil)
  }

  lemma CompleteKeepsLeased(s: Store, clock: int, cal: Calendar, claim: Claim, res: Completion, now: int)
    requires Inv(s, clock) && Complete(s, cal, claim, res, now).Done?
    ensures forall j | j in s.jobs && j != claim.jobId :: j in Complete(s, cal, claim, res, now).store.jobs
    ensures KeepsLeased(s, Complete(s, cal, claim, res, now).store)
  {
    CompleteEvolves(s, cal, clock, claim, res, now);
    if HoldsJob(s, claim, now) {
      var o, job, t := CompletionShape(s, cal, clock, claim, res, now);
    }
  }

  lemma OtherCallsKeepLeased(s: Store, clock: int, cal: Calendar, c: Call)
    requires Inv(s, clock) && !c.op.OpClaimDue?
    ensures KeepsLeased(s, Apply(s, cal, c).store)
  {
    if OnSchedules(c.op) {
      ScheduleCallsKeepLeased(s, cal, c);
    } else if c.op.OpComplete? {
      if Complete(s, cal, c.op.claim, c.op.res, c.now).Done? {
        CompleteKeepsLeased(s, clock, cal, c.op.claim, c.op.res, c.now);
      }
    } else if OnClaims(c.op) {
      RenewingKeepsLeased(s, cal, c);
    } else {
      DeliveryCallsEvolve(s, cal, c);
    }
  }

  lemma RenewingKeepsLeased(s: Store, cal: Calendar, c: Call)
    requires c.op.OpRenew? || c.op.OpBind?
    ensures KeepsLeased(s, Apply(s, cal, c).store)
  {
  }

  lemma ScheduleCallsKeepLeased(s: Store, cal: Calendar, c: Call)
    requires OnSchedules(c.op)
    ensures KeepsLeased(s, Apply(s, cal, c).store)
  {
    match c.op
    case OpCreate(input) => CreateKeepsLeased(s, cal, input, c.now);
    case OpUpdate(id, patch, owner) => UpdateKeepsLeased(s, cal, id, patch, owner, c.now);
    case OpRunNow(id, owner) => RunNowKeepsLeased(s, id, owner, c.now);
    case OpSetEnabled(id, enabled, owner) => SetEnabledKeepsLeased(s, cal, id, enabled, owner, c.now);
    case OpRemove(id, owner) =>
  }

  lemma CreateKeepsLeased(s: Store, cal: Calendar, input: JobInput, now: int)
    ensures Create(s, cal, input, now).Done? ==> KeepsLeased(s, Create(s, cal, input, now).store)
  {
  }

  lemma RunNowKeepsLeased(s: Store, id: Id, owner: Owner, now: int)
    ensures KeepsLeased(s, RunNow(s, id, owner, now).0)
  {
  }

  lemma UpdateKeepsLeased(s: Store, cal: Calendar, id: Id, patch: Patch, owner: Owner, now: int)
    ensures Update(s, cal, id, patch, owner, now).Done? ==> KeepsLeased(s, Update(s, cal, id, patch, owner, now).store)
  {
  }

  lemma SetEnabledKeepsLeased(s: Store, cal: Calendar, id: Id, enabled: bool, owner: Owner, now: int)
    ensures SetEnabled(s, cal, id, enabled, owner, now).Done? ==>
              KeepsLeased(s, SetEnabled(s, cal, id, enabled, owner, now).store)
  {
  }

  lemma IssueAppends(issued: map<Id, Claim>, claims: seq<Claim>, claim: Claim)
    requires claim.job.token.Some?
    ensures Issue(issued, claims + [claim]) == Issue(issued, claims)[claim.job.token.value := claim]
  {
    assert (claims + [claim])[..|claims + [claim]| - 1] == claims;
  }

  /** What one row of the claim loop writes to its job, and the claim it hands out. */
  lemma ClaimedJobRow(s: Store, cal: Calendar, j: Id, now: int, leaseMs: int)
    requires j in s.jobs && ClaimRow(s, cal, j, now, leaseMs).Done?
    ensures
      var r := ClaimRow(s, cal, j, now, leaseMs);
      && s.nextId < r.store.nextId
      && r.store.jobs.Keys == s.jobs.Keys
      && (forall k | k in s.jobs && k != j :: r.store.jobs[k] == s.jobs[k])
      && (if r.result.None? then r.store.jobs[j].token.None?
          else
            && r.result.value.jobId == j && r.result.value.job == r.store.jobs[j]
            && r.store.jobs[j].token == Some(s.nextId))
  {
  }

  lemma ClaimRowSnapshots(s: Store, issued: map<Id, Claim>, clock: int, cal: Calendar, j: Id, now: int, leaseMs: int,
          claims: seq<Claim>)
    requires Inv(s, clock) && Snapshots(s, Issue(issued, claims))
    requires j in s.jobs && ClaimRow(s, cal, j, now, leaseMs).Done?
    ensures
      var r := ClaimRow(s, cal, j, now, leaseMs);
      Snapshots(r.store, Issue(issued, Collect(claims, r.result)))
  {
    var r := ClaimRow(s, cal, j, now, leaseMs);
    ClaimedJobRow(s, cal, j, now, leaseMs);
    var t := r.store;
    var before := Issue(issued, claims);
    var after := Issue(issued, Collect(claims, r.result));
    if r.result.Some? {
      IssueAppends(issued, claims, r.result.value);
    }
    forall k | k in t.jobs && t.jobs[k].token.Some?
      ensures t.jobs[k].token.value in after && Current(after[t.jobs[k].token.value], k, t.jobs[k])
    {
      if k != j {
        assert JobOk(s, k);
        assert Current(before[s.jobs[k].token.value], k, s.jobs[k]);
      }
    }
  }

  lemma {:induction false} ClaimRowsSnapshot(s: Store, issued: map<Id, Claim>, clock: int, cal: Calendar,
          rows: seq<Id>, now: int, leaseMs: int, claims: seq<Claim>)
    requires Inv(s, clock) && clock <= now && Snapshots(s, Issue(issued, claims)) && StillDue(s, rows, now)
    ensures
      var r := ClaimRows(s, cal, rows, now, leaseMs, claims);
      r.Done? ==> Snapshots(r.store, Issue(issued, r.result))
    decreases |rows|
  {
    if rows != [] {
      var r := ClaimRow(s, cal, rows[0], now, leaseMs);
      if r.Done? {
        ClaimRowKeeps(s, cal, rows[0], clock, now, leaseMs);
        RestStillDue(s, cal, rows, now, leaseMs);
        ClaimRowSnapshots(s, issued, clock, cal, rows[0], now, leaseMs, claims);
        ClaimRowsSnapshot(r.store, issued, now, cal, rows[1..], now, leaseMs, Collect(claims, r.result));
      }
    }
  }

  lemma LeasedKeepSnapshots(s: Store, t: Store, issued: map<Id, Claim>)
    requires Snapshots(s, issued) && KeepsLeased(s, t)
    ensures Snapshots(t, issued)
  {
  }

  lemma NextKeepsSnapshots(w: World, cal: Calendar, c: Call)
    requires Inv(w.store, w.clock) && Snapshots(w.store, w.issued) && Allowed(w, c)
    ensures Snapshots(Next(w, cal, c).store, Next(w, cal, c).issued)
  {
    if c.op.OpClaimDue? {
      ClaimsKeepSnapshots(w, cal, c);
    } else {
      OtherCallsKeepLeased(w.store, w.clock, cal, c);
      OtherCallsIssueNothing(w, cal, c);
      LeasedKeepSnapshots(w.store, Next(w, cal, c).store, w.issued);
    }
  }

  lemma ClaimsKeepSnapshots(w: World, cal: Calendar, c: Call)
    requires Inv(w.store, w.clock) && Snapshots(w.store, w.issued) && Allowed(w, c) && c.op.OpClaimDue?
    ensures Snapshots(Next(w, cal, c).store, Next(w, cal, c).issued)
  {
    ClaimRowsSnapshot(w.store, w.issued, w.clock, cal, c.op.rows, c.now, c.op.leaseMs, []);
  }

  lemma OtherCallsIssueNothing(w: World, cal: Calendar, c: Call)
    requires !c.op.OpClaimDue?
    ensures Next(w, cal, c).store == Apply(w.store, cal, c).store && Next(w, cal, c).issued == w.issued
  {
  }

  // ---- manual runs ----------------------------------------------------------------------------

  /** A manual run of recurring schedule `j` is under way, its calendar put aside at `due`. */
  ghost predicate Waiting(s: Store, j: Id, due: int) {
    && j in s.jobs
    && s.jobs[j].manualResumeAt == Some(due)
    && !s.jobs[j].trigger.kind.At?
    && !s.jobs[j].skipMisfires
  }

  ghost predicate Back(s: Store, j: Id, due: int) {
    j in s.jobs && s.jobs[j].manualResumeAt.None? && s.jobs[j].nextRunAt == due
  }

  predicate Edits(op: Op, j: Id) {
    match op
    case OpUpdate(id, _, _) => id == j
    case OpSetEnabled(id, _, _) => id == j
    case OpRemove(id, _) => id == j
    case _ => false
  }

  /** The call completes schedule `j`'s occurrence for good: a success, or the last allowed failure. */
  ghost predicate Settles(s: Store, cal: Calendar, c: Call, j: Id) {
    && c.op.OpComplete? && c.op.claim.jobId == j
    && Apply(s, cal, c).ok
    && (c.op.res.ok || exists o :: CarriedBy(s, j, o) && s.occs[o].attempts >= c.op.claim.job.maxAttempts)
  }

  ghost predicate CarriedBy(s: Store, j: Id, o: Id) {
    j in s.jobs && Carries(s, j, o)
  }

  lemma {:induction false} ClaimRowsKeepWaiting(s: Store, cal: Calendar, rows: seq<Id>, now: int, leaseMs: int,
          claims: seq<Claim>, j: Id, due: int)
    requires Waiting(s, j, due) && StillDue(s, rows, now)
    requires ClaimRows(s, cal, rows, now, leaseMs, claims).Done?
    ensures Waiting(ClaimRows(s, cal, rows, now, leaseMs, claims).store, j, due)
    decreases |rows|
  {
    if rows != [] {
      RestStillDue(s, cal, rows, now, leaseMs);
      ClaimRowIsLocal(s, cal, rows[0], now, leaseMs);
      var r := ClaimRow(s, cal, rows[0], now, leaseMs);
      ClaimRowsKeepWaiting(r.store, cal, rows[1..], now, leaseMs, Collect(claims, r.result), j, due);
    }
  }

  /** Completing another schedule's claim does not touch the waiting one. */
  lemma OtherCompletionWaits(w: World, cal: Calendar, c: Call, j: Id, due: int)
    requires Inv(w.store, w.clock) && Waiting(w.store, j, due) && c.op.OpComplete? && c.op.claim.jobId != j
    ensures Waiting(Next(w, cal, c).store, j, due)
  {
    var r := Complete(w.store, cal, c.op.claim, c.op.res, c.now);
    if r.Done? && HoldsJob(w.store, c.op.claim, c.now) {
      var o, job, t := CompletionShape(w.store, cal, w.clock, c.op.claim, c.op.res, c.now);
    }
  }

  lemma CompletionSettlesOrWaits(w: World, cal: Calendar, c: Call, j: Id, due: int)
    requires Inv(w.store, w.clock) && Snapshots(w.store, w.issued) && Allowed(w, c)
    requires Waiting(w.store, j, due) && c.op.OpComplete?
    ensures if Settles(w.store, cal, c, j) then Back(Next(w, cal, c).store, j, due)
            else Waiting(Next(w, cal, c).store, j, due)
  {
    if c.op.claim.jobId != j {
      OtherCompletionWaits(w, cal, c, j, due);
    } else if Apply(w.store, cal, c).ok {
      var o := OwnCompletion(w.store, w.clock, cal, c.op.claim, c.op.res, c.now, due);
      SettlesByVerdict(w.store, w.clock, cal, c, j, o);
    } else {
      RefusalsChangeNothing(w.store, w.clock, cal, c);
    }
  }

  /** A completion answered with no, or with a throw, has written nothing. */
  lemma RefusalsChangeNothing(s: Store, clock: int, cal: Calendar, c: Call)
    requires Inv(s, clock) && c.op.OpComplete? && !Apply(s, cal, c).ok
    ensures Apply(s, cal, c).store == s
  {
    if HoldsJob(s, c.op.claim, c.now) && Complete(s, cal, c.op.claim, c.op.res, c.now).Done? {
      var o, job, t := CompletionShape(s, cal, clock, c.op.claim, c.op.res, c.now);
    }
  }

  /** The carrier of a job's token is its only one. */
  lemma SettlesByVerdict(s: Store, clock: int, cal: Calendar, c: Call, j: Id, o: Id)
    requires Inv(s, clock) && c.op.OpComplete? && c.op.claim.jobId == j && Apply(s, cal, c).ok
    requires j in s.jobs && s.jobs[j].token.Some? && Carries(s, j, o)
    ensures Settles(s, cal, c, j) <==> !Verdict(s, c.op.claim, o, c.op.res).Retrying?
  {
    assert CarriedBy(s, j, o);
    forall p | CarriedBy(s, j, p)
      ensures p == o
    {
    }
  }

  /** Its own accepted completion brings the calendar back, or lets it wait if it leaves the run to be retried. */
  lemma OwnCompletion(s: Store, clock: int, cal: Calendar, claim: Claim, res: Completion, now: int, due: int)
    returns (o: Id)
    requires Inv(s, clock) && Waiting(s, claim.jobId, due) && HoldsJob(s, claim, now)
             && Current(claim, claim.jobId, s.jobs[claim.jobId])
    requires Complete(s, cal, claim, res, now).Done?
    ensures Carries(s, claim.jobId, o) && Complete(s, cal, claim, res, now).result
    ensures var t := Complete(s, cal, claim, res, now).store;
      if Verdict(s, claim, o, res).Retrying? then Waiting(t, claim.jobId, due) else Back(t, claim.jobId, due)
  {
    var job, t;
    o, job, t := CompletionShape(s, cal, clock, claim, res, now);
  }

  /** One call, of anyone but the schedule's own editor: the calendar keeps waiting, or comes back as it settles. */
  lemma CalendarWaitsOrReturns(w: World, cal: Calendar, c: Call, j: Id, due: int)
    requires Inv(w.store, w.clock) && Snapshots(w.store, w.issued) && Allowed(w, c)
    requires Waiting(w.store, j, due) && !Edits(c.op, j)
    ensures if Settles(w.store, cal, c, j) then Back(Next(w, cal, c).store, j, due)
            else Waiting(Next(w, cal, c).store, j, due)
  {
    if c.op.OpComplete? {
      CompletionSettlesOrWaits(w, cal, c, j, due);
    } else if c.op.OpClaimDue? {
      if ClaimRows(w.store, cal, c.op.rows, c.now, c.op.leaseMs, []).Done? {
        ClaimRowsKeepWaiting(w.store, cal, c.op.rows, c.now, c.op.leaseMs, [], j, due);
      }
    } else if OnSchedules(c.op) {
      ScheduleCallsKeepWaiting(w.store, w.clock, cal, c, j, due);
    } else if !OnClaims(c.op) {
      DeliveryCallsEvolve(w.store, cal, c);
    }
  }

  lemma ScheduleCallsKeepWaiting(s: Store, clock: int, cal: Calendar, c: Call, j: Id, due: int)
    requires Inv(s, clock) && Waiting(s, j, due) && OnSchedules(c.op) && !Edits(c.op, j)
    ensures Waiting(Apply(s, cal, c).store, j, due)
  {
    assert JobOk(s, j);
  }

  ghost predicate Unsettled(w: World, cal: Calendar, calls: seq<Call>, j: Id)
    decreases |calls|
  {
    calls != [] ==>
      && !Edits(calls[0].op, j) && !Settles(w.store, cal, calls[0], j)
      && Unsettled(Next(w, cal, calls[0]), cal, calls[1..], j)
  }

  lemma {:induction false} WaitsThroughRuns(w: World, cal: Calendar, calls: seq<Call>, j: Id, due: int)
    requires Inv(w.store, w.clock) && Snapshots(w.store, w.issued) && AllAllowed(w, cal, calls)
    requires Waiting(w.store, j, due) && Unsettled(w, cal, calls, j)
    ensures Waiting(Run(w, cal, calls).store, j, due) && Snapshots(Run(w, cal, calls).store, Run(w, cal, calls).issued)
    decreases |calls|
  {
    if calls != [] {
      CalendarWaitsOrReturns(w, cal, calls[0], j, due);
      NextKeepsLeases(w, cal, calls[0]);
      NextKeepsSnapshots(w, cal, calls[0]);
      WaitsThroughRuns(Next(w, cal, calls[0]), cal, calls[1..], j, due);
    }
  }

  /**
   A manual run restores the calendar: for a recurring schedule that runs missed occurrences, after an
   accepted runNow and any calls that neither edit the schedule nor settle its occurrence (failed
   attempts, expired leases, reclaims and calls on anything else), the settling completion leaves
   next_run_at exactly as it was before runNow and clears manual_resume_at.
   */
  lemma ManualRunRestoresCalendar(w: World, cal: Calendar, start: Call, calls: seq<Call>, settle: Call)
    requires Inv(w.store, w.clock) && Snapshots(w.store, w.issued)
    requires AllAllowed(w, cal, [start] + calls + [settle])
    requires start.op.OpRunNow? && Apply(w.store, cal, start).ok
    requires !w.store.jobs[start.op.id].trigger.kind.At? && !w.store.jobs[start.op.id].skipMisfires
    requires Unsettled(Next(w, cal, start), cal, calls, start.op.id)
    requires Settles(Run(w, cal, [start] + calls).store, cal, settle, start.op.id)
    ensures Back(Run(w, cal, [start] + calls + [settle]).store, start.op.id, w.store.jobs[start.op.id].nextRunAt)
  {
    var j := start.op.id;
    var due := w.store.jobs[j].nextRunAt;
    assert ([start] + calls + [settle])[1..] == calls + [settle];
    assert ([start] + calls)[1..] == calls;
    NextKeepsLeases(w, cal, start);
    NextKeepsSnapshots(w, cal, start);
    var begun := Next(w, cal, start);
    assert Waiting(begun.store, j, due);
    LastCall(begun, cal, calls, settle);
    WaitsThroughRuns(begun, cal, calls, j, due);
    CalendarWaitsOrReturns(Run(begun, cal, calls), cal, settle, j, due);
  }
}
