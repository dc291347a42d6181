/**
 When a claim fails on the unique identity of an occurrence. A schedule is clear of collisions while the
 due times it will open occurrences at, the next one and the one a manual run has put aside, are free and
 differ. Each call that can end this is characterized exactly, and a run of calls none of which ends it
 never makes a claim throw.
 */
module AutomationCollisions {
  import opened Wrappers
  import opened AutomationModel
  import opened AutomationInvariant
  import opened AutomationRuns
  import opened AutomationFencing
  import opened AutomationCalendar
  import opened AutomationIdentity
  import Outbox

  ghost predicate HasOpen(s: Store, j: Id) {
    exists o :: OpenAt(s, j, o)
  }

  /** No occurrence of the schedule is due in the future. */
  ghost predicate NonePending(s: Store, clock: int, j: Id) {
    forall o | o in s.occs && s.occs[o].schedule == j :: s.occs[o].nominalDueAt <= clock
  }

  /** The due times the schedule will open occurrences at are free, and are not one and the same. */
  ghost predicate Clear(s: Store, j: Id)
    requires j in s.jobs
  {
    var job := s.jobs[j];
    && (job.enabled && !HasOpen(s, j) ==> !Taken(s, j, job.nextRunAt) && job.manualResumeAt != Some(job.nextRunAt))
    && (job.manualResumeAt.Some? ==> !Taken(s, j, job.manualResumeAt.value))
  }

  /** What a manual run would put aside is free as well. */
  ghost predicate ClashFree(s: Store, clock: int, j: Id)
    requires j in s.jobs
  {
    var job := s.jobs[j];
    && NonePending(s, clock, j)
    && Clear(s, j)
    && (job.enabled && job.token.None? && job.manualResumeAt.None? && !job.trigger.kind.At? ==>
          !Taken(s, j, job.nextRunAt))
  }

  // ---- the calls that can end it --------------------------------------------------------------

  /** Starting by hand opens an occurrence due now, and puts the next due time aside. */
  ghost predicate RunGuard(s: Store, id: Id, owner: Owner, now: int) {
    CanRunNow(s, id, owner) && !HasOpen(s, id) ==>
      !Taken(s, id, now) && (s.jobs[id].trigger.kind.At? || s.jobs[id].nextRunAt != now)
  }

  /** An edit must not recompute the very due time that a manual run has put aside. */
  ghost predicate RecomputeGuard(s: Store, id: Id, next: Option<int>)
    requires id in s.jobs
  {
    !HasOpen(s, id) && s.jobs[id].manualResumeAt.Some? ==> next != s.jobs[id].manualResumeAt
  }

  ghost predicate EnableGuard(s: Store, cal: Calendar, id: Id, enabled: bool, owner: Owner, now: int) {
    Visible(s, id, owner) && enabled ==> RecomputeGuard(s, id, cal(s.jobs[id].trigger, now))
  }

  ghost predicate UpdateGuard(s: Store, cal: Calendar, id: Id, patch: Patch, owner: Owner, now: int) {
    Update(s, cal, id, patch, owner, now).Done? && ChangesTrigger(patch) && s.jobs[id].enabled ==>
      RecomputeGuard(s, id, cal(Patched(s.jobs[id].trigger, patch), now))
  }

  ghost predicate MoveGuard(s: Store, cal: Calendar, j: Id, now: int)
    requires j in s.jobs
  {
    s.jobs[j].trigger.kind.At? || RecomputeGuard(s, j, cal(s.jobs[j].trigger, now))
  }

  /** Nor may a misfire skip record, or move on to, the due time put aside. */
  ghost predicate SkipGuard(s: Store, cal: Calendar, j: Id, now: int)
    requires j in s.jobs
  {
    Misfired(s.jobs[j], now) && s.jobs[j].manualResumeAt.Some? ==>
      s.jobs[j].manualResumeAt != Some(s.jobs[j].nextRunAt) && MoveGuard(s, cal, j, now)
  }

  ghost predicate Guard(s: Store, cal: Calendar, c: Call, j: Id)
    requires j in s.jobs
  {
    match c.op
    case OpRunNow(id, owner) => id == j ==> RunGuard(s, id, owner, c.now)
    case OpSetEnabled(id, enabled, owner) => id == j ==> EnableGuard(s, cal, id, enabled, owner, c.now)
    case OpUpdate(id, patch, owner) => id == j ==> UpdateGuard(s, cal, id, patch, owner, c.now)
    case OpClaimDue(rows, _, _) => j in rows ==> SkipGuard(s, cal, j, c.now)
    case _ => true
  }

  // ---- each of them, exactly ------------------------------------------------------------------

  /** A manual run keeps the schedule clear exactly when it is started at a free moment other than its next due time. */
  lemma RunNowKeepsExactly(s: Store, clock: int, id: Id, owner: Owner, now: int)
    requires Inv(s, clock) && clock <= now && id in s.jobs && ClashFree(s, clock, id)
    ensures id in RunNow(s, id, owner, now).0.jobs
    ensures ClashFree(RunNow(s, id, owner, now).0, now, id) <==> RunGuard(s, id, owner, now)
  {
    var t := RunNow(s, id, owner, now).0;
    assert t.occs == s.occs;
    assert HasOpen(t, id) <==> HasOpen(s, id) by {
      forall o ensures OpenAt(t, id, o) <==> OpenAt(s, id, o) {
      }
    }
    forall at ensures Taken(t, id, at) <==> Taken(s, id, at) {
    }
  }

  lemma LaterIsFree(s: Store, clock: int, j: Id, at: int)
    requires NonePending(s, clock, j) && clock < at
    ensures !Taken(s, j, at)
  {
  }

  /** Resuming a schedule keeps it clear exactly when that does not recompute the due time put aside. */
  lemma SetEnabledKeepsExactly(s: Store, clock: int, cal: Calendar, id: Id, enabled: bool, owner: Owner, now: int)
    requires Inv(s, clock) && clock <= now && id in s.jobs && ClashFree(s, clock, id) && Advances(cal)
    requires SetEnabled(s, cal, id, enabled, owner, now).Done?
    ensures id in SetEnabled(s, cal, id, enabled, owner, now).store.jobs
    ensures ClashFree(SetEnabled(s, cal, id, enabled, owner, now).store, now, id)
       <==> EnableGuard(s, cal, id, enabled, owner, now)
  {
    var t := SetEnabled(s, cal, id, enabled, owner, now).store;
    SameTables(s, t, id);
    if Visible(s, id, owner) && enabled {
      LaterIsFree(s, now, id, t.jobs[id].nextRunAt);
    }
  }

  /** So does changing its trigger. */
  lemma UpdateKeepsExactly(s: Store, clock: int, cal: Calendar, id: Id, patch: Patch, owner: Owner, now: int)
    requires Inv(s, clock) && clock <= now && id in s.jobs && ClashFree(s, clock, id) && Advances(cal)
    requires Update(s, cal, id, patch, owner, now).Done?
    ensures id in Update(s, cal, id, patch, owner, now).store.jobs
    ensures ClashFree(Update(s, cal, id, patch, owner, now).store, now, id)
       <==> UpdateGuard(s, cal, id, patch, owner, now)
  {
    var t := Update(s, cal, id, patch, owner, now).store;
    SameTables(s, t, id);
    if ChangesTrigger(patch) {
      LaterIsFree(s, now, id, t.jobs[id].nextRunAt);
    }
  }

  lemma SameTables(s: Store, t: Store, j: Id)
    requires t.occs == s.occs
    ensures HasOpen(t, j) <==> HasOpen(s, j)
    ensures forall at :: Taken(t, j, at) <==> Taken(s, j, at)
  {
    forall o ensures OpenAt(t, j, o) <==> OpenAt(s, j, o) {
    }
  }

  /**
   A misfire skip keeps it clear exactly when it does not recompute the due time put aside, and does not
   record that due time or pruning deletes the record at once.
   */
  lemma SkipKeepsExactly(s: Store, clock: int, cal: Calendar, j: Id, now: int)
    requires Inv(s, clock) && clock <= now && j in s.jobs && ClashFree(s, clock, j) && Advances(cal)
    requires DueJob(s.jobs[j], now) && Misfired(s.jobs[j], now) && SkipRow(s, cal, j, now).Done?
    ensures
      var t := SkipRow(s, cal, j, now).store;
      && j in t.jobs
      && (ClashFree(t, now, j) <==>
            && MoveGuard(s, cal, j, now)
            && (s.jobs[j].manualResumeAt == Some(s.jobs[j].nextRunAt) ==> s.nextId !in t.occs))
  {
    var job := s.jobs[j];
    var next := if job.trigger.kind.At? then Some(job.nextRunAt) else cal(job.trigger, now);
    if job.manualResumeAt == Some(job.nextRunAt) {
      SkippedAside(s, clock, cal, j, next.value, now);
    } else if MoveGuard(s, cal, j, now) {
      SkipKeepsClear(s, clock, cal, j, now);
    } else {
      PruningOnlyForgets(PassedOver(s, j, next.value, now), j);
      PassedTables(s, clock, j, next.value, now);
      OpenThroughPruning(PassedOver(s, j, next.value, now), j);
    }
  }

  lemma OpenThroughPruning(s: Store, j: Id)
    ensures HasOpen(PruneHistory(s, j), j) <==> HasOpen(s, j)
    ensures forall at :: Taken(PruneHistory(s, j), j, at) ==> Taken(s, j, at)
  {
    PruningOnlyForgets(s, j);
    forall o ensures OpenAt(PruneHistory(s, j), j, o) <==> OpenAt(s, j, o) {
    }
  }

  /** The skipped due time is the one put aside, and its record is the only one of that due time. */
  lemma SkippedAside(s: Store, clock: int, cal: Calendar, j: Id, next: int, now: int)
    requires Inv(s, clock) && clock <= now && j in s.jobs && ClashFree(s, clock, j) && Advances(cal)
    requires DueJob(s.jobs[j], now) && Misfired(s.jobs[j], now)
    requires s.jobs[j].manualResumeAt == Some(s.jobs[j].nextRunAt)
    requires if s.jobs[j].trigger.kind.At? then next == s.jobs[j].nextRunAt
             else cal(s.jobs[j].trigger, now) == Some(next)
    ensures
      var t := PruneHistory(PassedOver(s, j, next, now), j);
      j in t.jobs && (ClashFree(t, now, j) <==> MoveGuard(s, cal, j, now) && s.nextId !in t.occs)
  {
    var t := PassedOver(s, j, next, now);
    PruningOnlyForgets(t, j);
    PassedTables(s, clock, j, next, now);
    OpenThroughPruning(t, j);
    OnlyTheRecord(s, clock, j, next, now);
    assert NonePending(t, now, j);
    if !s.jobs[j].trigger.kind.At? {
      LaterIsFree(t, now, j, next);
    }
    MovedOn(s, PruneHistory(t, j), cal, j, next, now);
  }

  lemma MovedOn(s: Store, t: Store, cal: Calendar, j: Id, next: int, now: int)
    requires j in s.jobs && j in t.jobs && s.jobs[j].manualResumeAt.Some?
    requires
      var job := s.jobs[j];
      t.jobs[j] == job.(enabled := !job.trigger.kind.At?, nextRunAt := next, lockedUntil := None, token := None)
    requires !s.jobs[j].trigger.kind.At? ==> cal(s.jobs[j].trigger, now) == Some(next) && !Taken(t, j, next)
    requires NonePending(t, now, j) && (HasOpen(t, j) <==> HasOpen(s, j))
    ensures ClashFree(t, now, j) <==> MoveGuard(s, cal, j, now) && !Taken(t, j, s.jobs[j].manualResumeAt.value)
  {
  }

  lemma OnlyTheRecord(s: Store, clock: int, j: Id, next: int, now: int)
    requires Inv(s, clock) && j in s.jobs && !Taken(s, j, s.jobs[j].nextRunAt)
    ensures var t := PruneHistory(PassedOver(s, j, next, now), j);
      Taken(t, j, s.jobs[j].nextRunAt) <==> s.nextId in t.occs
  {
    var t := PruneHistory(PassedOver(s, j, next, now), j);
    PruningOnlyForgets(PassedOver(s, j, next, now), j);
    if s.nextId in t.occs {
      assert t.occs[s.nextId].nominalDueAt == s.jobs[j].nextRunAt;
    }
  }

  lemma PassedTables(s: Store, clock: int, j: Id, next: int, now: int)
    requires Inv(s, clock) && j in s.jobs
    ensures HasOpen(PassedOver(s, j, next, now), j) <==> HasOpen(s, j)
    ensures forall at :: Taken(PassedOver(s, j, next, now), j, at) <==> Taken(s, j, at) || at == s.jobs[j].nextRunAt
  {
    var t := PassedOver(s, j, next, now);
    forall o | o in s.occs ensures o in t.occs && t.occs[o] == s.occs[o] {
      assert OccurrenceOk(s, clock, o);
    }
    forall o ensures OpenAt(t, j, o) <==> OpenAt(s, j, o) {
    }
    forall at ensures Taken(t, j, at) <==> Taken(s, j, at) || at == s.jobs[j].nextRunAt {
      if Taken(s, j, at) {
        var o :| o in s.occs && s.occs[o].schedule == j && s.occs[o].nominalDueAt == at;
        assert t.occs[o].nominalDueAt == at;
      }
      if at == s.jobs[j].nextRunAt && !Taken(s, j, at) {
        assert t.occs[s.nextId].nominalDueAt == at;
      }
    }
  }

  lemma PassingKeepsExactly(s: Store, clock: int, cal: Calendar, j: Id, next: int, now: int)
    requires Inv(s, clock) && clock <= now && j in s.jobs && ClashFree(s, clock, j) && Advances(cal)
    requires DueJob(s.jobs[j], now) && Misfired(s.jobs[j], now)
    requires s.jobs[j].trigger.kind.At? || cal(s.jobs[j].trigger, now) == Some(next)
    ensures ClashFree(PassedOver(s, j, next, now), now, j) <==> SkipGuard(s, cal, j, now)
  {
    var t := PassedOver(s, j, next, now);
    PassedTables(s, clock, j, next, now);
    assert NonePending(t, now, j);
    if !s.jobs[j].trigger.kind.At? {
      LaterIsFree(t, now, j, next);
    }
  }

  // ---- every other call -----------------------------------------------------------------------

  /** The row keeps what matters here. */
  ghost predicate SamePlan(a: Job, b: Job) {
    && b.enabled == a.enabled && b.nextRunAt == a.nextRunAt && b.manualResumeAt == a.manualResumeAt
    && b.trigger.kind == a.trigger.kind && (b.token.None? ==> a.token.None?)
  }

  lemma CarriesOver(s: Store, t: Store, clock: int, now: int, j: Id)
    requires j in s.jobs && j in t.jobs && SamePlan(s.jobs[j], t.jobs[j])
    requires ClashFree(s, clock, j) && clock <= now && SameOccurrences(s, t, j)
    ensures ClashFree(t, now, j)
  {
    if HasOpen(s, j) {
      var o :| OpenAt(s, j, o);
      assert OpenAt(t, j, o);
    }
  }

  lemma CreatedIsClear(s: Store, clock: int, cal: Calendar, input: JobInput, now: int)
    requires Inv(s, clock) && Create(s, cal, input, now).Done?
    ensures ClashFree(Create(s, cal, input, now).store, now, s.nextId)
  {
    forall o | o in s.occs ensures s.occs[o].schedule != s.nextId {
      assert OccurrenceOk(s, clock, o);
      assert JobOk(s, s.occs[o].schedule);
    }
  }

  /** A call on another schedule leaves this one's row and occurrences alone. */
  lemma OthersCarryOver(s: Store, t: Store, clock: int, now: int, j: Id)
    requires j in s.jobs && j in t.jobs && t.jobs[j] == s.jobs[j]
    requires t.occs.Keys <= s.occs.Keys && forall o | o in t.occs :: t.occs[o] == s.occs[o]
    requires forall o | o in s.occs && s.occs[o].schedule == j :: o in t.occs
    requires ClashFree(s, clock, j) && clock <= now
    ensures ClashFree(t, now, j)
  {
    CarriesOver(s, t, clock, now, j);
  }

  lemma CreationKeepsClear(s: Store, clock: int, cal: Calendar, input: JobInput, now: int, j: Id)
    requires Inv(s, clock) && clock <= now && Create(s, cal, input, now).Done? && Advances(cal)
    requires j in s.jobs ==> ClashFree(s, clock, j)
    requires j in Create(s, cal, input, now).store.jobs
    ensures ClashFree(Create(s, cal, input, now).store, now, j)
  {
    CreatedIsClear(s, clock, cal, input, now);
    if j in s.jobs {
      assert JobOk(s, j);
      OthersCarryOver(s, Create(s, cal, input, now).store, clock, now, j);
    }
  }

  lemma UpdateKeepsClear(s: Store, clock: int, cal: Calendar, id: Id, patch: Patch, owner: Owner, now: int, j: Id)
    requires Inv(s, clock) && clock <= now && Update(s, cal, id, patch, owner, now).Done? && Advances(cal)
    requires j in s.jobs && ClashFree(s, clock, j) && (id == j ==> UpdateGuard(s, cal, id, patch, owner, now))
    ensures var t := Update(s, cal, id, patch, owner, now).store; j in t.jobs && ClashFree(t, now, j)
  {
    if id == j {
      UpdateKeepsExactly(s, clock, cal, id, patch, owner, now);
    } else {
      OthersCarryOver(s, Update(s, cal, id, patch, owner, now).store, clock, now, j);
    }
  }

  lemma RunNowKeepsClear(s: Store, clock: int, id: Id, owner: Owner, now: int, j: Id)
    requires Inv(s, clock) && clock <= now
    requires j in s.jobs && ClashFree(s, clock, j) && (id == j ==> RunGuard(s, id, owner, now))
    ensures var t := RunNow(s, id, owner, now).0; j in t.jobs && ClashFree(t, now, j)
  {
    if id == j {
      RunNowKeepsExactly(s, clock, id, owner, now);
    } else {
      OthersCarryOver(s, RunNow(s, id, owner, now).0, clock, now, j);
    }
  }

  lemma SetEnabledKeepsClear(s: Store, clock: int, cal: Calendar, id: Id, enabled: bool, owner: Owner, now: int, j: Id)
    requires Inv(s, clock) && clock <= now && SetEnabled(s, cal, id, enabled, owner, now).Done? && Advances(cal)
    requires j in s.jobs && ClashFree(s, clock, j) && (id == j ==> EnableGuard(s, cal, id, enabled, owner, now))
    ensures var t := SetEnabled(s, cal, id, enabled, owner, now).store; j in t.jobs && ClashFree(t, now, j)
  {
    if id == j {
      SetEnabledKeepsExactly(s, clock, cal, id, enabled, owner, now);
    } else {
      OthersCarryOver(s, SetEnabled(s, cal, id, enabled, owner, now).store, clock, now, j);
    }
  }

  lemma ScheduleCallKeepsClear(s: Store, clock: int, cal: Calendar, c: Call, j: Id)
    requires Inv(s, clock) && clock <= c.now && Advances(cal) && OnSchedules(c.op)
    requires j in s.jobs ==> ClashFree(s, clock, j) && Guard(s, cal, c, j)
    requires j in Apply(s, cal, c).store.jobs && !Apply(s, cal, c).threw
    requires j in s.jobs || c.op.OpCreate?
    ensures ClashFree(Apply(s, cal, c).store, c.now, j)
  {
    match c.op
    case OpCreate(input) => CreationKeepsClear(s, clock, cal, input, c.now, j);
    case OpUpdate(id, patch, owner) => UpdateKeepsClear(s, clock, cal, id, patch, owner, c.now, j);
    case OpRunNow(id, owner) => RunNowKeepsClear(s, clock, id, owner, c.now, j);
    case OpSetEnabled(id, enabled, owner) => SetEnabledKeepsClear(s, clock, cal, id, enabled, owner, c.now, j);
    case OpRemove(id, owner) => OthersCarryOver(s, Remove(s, id, owner).0, clock, c.now, j);
  }

  // ---- claims ---------------------------------------------------------------------------------

  lemma LeasedTables(s: Store, clock: int, j: Id, now: int, leaseMs: int)
    requires Inv(s, clock) && j in s.jobs && LeaseRow(s, j, now, leaseMs).Done?
    ensures HasOpen(LeaseRow(s, j, now, leaseMs).store, j)
    ensures forall at :: Taken(LeaseRow(s, j, now, leaseMs).store, j, at) ==>
              Taken(s, j, at) || (Resumable(s, j, now) == {} && at == s.jobs[j].nextRunAt)
    ensures NonePending(s, clock, j) && clock <= now && s.jobs[j].nextRunAt <= now ==>
              NonePending(LeaseRow(s, j, now, leaseMs).store, now, j)
  {
    var r := LeaseRow(s, j, now, leaseMs);
    assert OpenAt(r.store, j, r.result.value.occurrence);
  }

  lemma NothingOpen(s: Store, clock: int, j: Id, now: int)
    requires Inv(s, clock) && clock <= now && j in s.jobs && DueJob(s.jobs[j], now) && Resumable(s, j, now) == {}
    ensures !HasOpen(s, j)
  {
    if o :| OpenAt(s, j, o) {
      DueMeansExpired(s, j, clock, now, o);
    }
  }

  lemma LeaseKeepsClear(s: Store, clock: int, j: Id, now: int, leaseMs: int)
    requires Inv(s, clock) && clock <= now && j in s.jobs && DueJob(s.jobs[j], now) && ClashFree(s, clock, j)
    requires LeaseRow(s, j, now, leaseMs).Done?
    ensures ClashFree(LeaseRow(s, j, now, leaseMs).store, now, j)
  {
    LeasedTables(s, clock, j, now, leaseMs);
    if Resumable(s, j, now) == {} {
      NothingOpen(s, clock, j, now);
    }
  }

  lemma SkipKeepsClear(s: Store, clock: int, cal: Calendar, j: Id, now: int)
    requires Inv(s, clock) && clock <= now && j in s.jobs && ClashFree(s, clock, j) && Advances(cal)
    requires DueJob(s.jobs[j], now) && Misfired(s.jobs[j], now) && SkipRow(s, cal, j, now).Done?
    requires SkipGuard(s, cal, j, now)
    ensures ClashFree(SkipRow(s, cal, j, now).store, now, j)
  {
    var job := s.jobs[j];
    var next := if job.trigger.kind.At? then Some(job.nextRunAt) else cal(job.trigger, now);
    var t := PassedOver(s, j, next.value, now);
    PassingKeepsExactly(s, clock, cal, j, next.value, now);
    PruningOnlyForgets(t, j);
    ForgettingKeepsOccurrences(t, PruneHistory(t, j), j);
    CarriesOver(t, PruneHistory(t, j), now, now, j);
  }

  lemma RowKeepsClear(s: Store, clock: int, cal: Calendar, k: Id, now: int, leaseMs: int, j: Id)
    requires Inv(s, clock) && clock <= now && Advances(cal)
    requires k in s.jobs && DueJob(s.jobs[k], now) && ClaimRow(s, cal, k, now, leaseMs).Done?
    requires j in s.jobs && ClashFree(s, clock, j) && (k == j ==> SkipGuard(s, cal, j, now))
    ensures var t := ClaimRow(s, cal, k, now, leaseMs).store;
      && j in t.jobs && ClashFree(t, now, j)
      && (k != j && SkipGuard(s, cal, j, now) ==> SkipGuard(t, cal, j, now))
  {
    var t := ClaimRow(s, cal, k, now, leaseMs).store;
    ClaimRowIsLocal(s, cal, k, now, leaseMs);
    if k != j {
      ClaimRowOccurrences(s, clock, cal, k, j, now, leaseMs);
      CarriesOver(s, t, clock, now, j);
      if HasOpen(s, j) {
        var o :| OpenAt(s, j, o);
        assert OpenAt(t, j, o);
      }
    } else if Misfired(s.jobs[j], now) {
      SkipKeepsClear(s, clock, cal, j, now);
    } else {
      LeaseKeepsClear(s, clock, j, now, leaseMs);
    }
  }

  lemma {:induction false} ClaimRowsKeepClear(s: Store, clock: int, cal: Calendar, rows: seq<Id>, now: int,
          leaseMs: int, claims: seq<Claim>, j: Id)
    requires Inv(s, clock) && clock <= now && Advances(cal) && StillDue(s, rows, now)
    requires j in s.jobs && ClashFree(s, clock, j) && (j in rows ==> SkipGuard(s, cal, j, now))
    requires ClaimRows(s, cal, rows, now, leaseMs, claims).Done?
    ensures var t := ClaimRows(s, cal, rows, now, leaseMs, claims).store; j in t.jobs && ClashFree(t, now, j)
    decreases |rows|
  {
    if rows == [] {
      assert ClashFree(s, now, j);
    } else {
      var r := ClaimRow(s, cal, rows[0], now, leaseMs);
      RowKeepsClear(s, clock, cal, rows[0], now, leaseMs, j);
      ClaimRowKeeps(s, cal, rows[0], clock, now, leaseMs);
      RestStillDue(s, cal, rows, now, leaseMs);
      ClaimRowsKeepClear(r.store, now, cal, rows[1..], now, leaseMs, Collect(claims, r.result), j);
    }
  }

  // ---- completions ----------------------------------------------------------------------------

  /** The schedule a completion leaves: due at what was put aside, at the calendar's next, at a retry, or disabled. */
  lemma SettlesClear(s: Store, t: Store, u: Store, clock: int, cal: Calendar, claim: Claim, res: Completion, now: int,
          o: Id, job: Job)
    requires claim.jobId in s.jobs && o in s.occs && s.occs[o].schedule == claim.jobId
    requires clock <= now && Advances(cal) && ClashFree(s, clock, claim.jobId)
             && Current(claim, claim.jobId, s.jobs[claim.jobId])
    requires Some(job) == if res.ok then AfterSuccess(s.jobs[claim.jobId], claim, cal, now)
                          else AfterFailure(s.jobs[claim.jobId], claim, Exhausted(s, claim, o), s.occs[o].attempts,
                            cal, now)
    requires t.jobs == s.jobs[claim.jobId := job]
    requires t.occs == s.occs[o := Settled(s.occs[o], Verdict(s, claim, o, res), res, now)]
    requires OnlyForgets(t, u)
    ensures claim.jobId in u.jobs && ClashFree(u, now, claim.jobId)
  {
    var j := claim.jobId;
    forall at | Taken(u, j, at) ensures Taken(s, j, at) {
      var p :| p in u.occs && u.occs[p].schedule == j && u.occs[p].nominalDueAt == at;
      assert p in s.occs && s.occs[p].nominalDueAt == at;
    }
    if !res.ok && !Exhausted(s, claim, o) {
      assert OpenAt(u, j, o);
    }
    if now < job.nextRunAt {
      LaterIsFree(s, now, j, job.nextRunAt);
    }
  }

  lemma CompletionKeepsClear(w: World, cal: Calendar, c: Call, j: Id)
    requires Inv(w.store, w.clock) && Snapshots(w.store, w.issued) && Allowed(w, c) && Advances(cal) && c.op.OpComplete?
    requires j in w.store.jobs && ClashFree(w.store, w.clock, j) && j in Apply(w.store, cal, c).store.jobs
    ensures ClashFree(Apply(w.store, cal, c).store, c.now, j)
  {
    var s, claim, res := w.store, c.op.claim, c.op.res;
    var r := Complete(s, cal, claim, res, c.now);
    if r.Done? && HoldsJob(s, claim, c.now) {
      var o, job, t := CompletionShape(s, cal, w.clock, claim, res, c.now);
      if j == claim.jobId {
        SettlesClear(s, t, r.store, w.clock, cal, claim, res, c.now, o, job);
      } else {
        SettledOccurrences(s, t, r.store, o, Settled(s.occs[o], Verdict(s, claim, o, res), res, c.now), j);
        CarriesOver(s, r.store, w.clock, c.now, j);
      }
    }
  }

  // ---- runs -----------------------------------------------------------------------------------

  lemma CallKeepsClear(w: World, cal: Calendar, c: Call, j: Id)
    requires Inv(w.store, w.clock) && Snapshots(w.store, w.issued) && Allowed(w, c) && Advances(cal)
    requires j in w.store.jobs ==> ClashFree(w.store, w.clock, j) && Guard(w.store, cal, c, j)
    requires j in Apply(w.store, cal, c).store.jobs && (j in w.store.jobs || c.op.OpCreate?)
    ensures ClashFree(Apply(w.store, cal, c).store, c.now, j)
  {
    var s := w.store;
    var e := Apply(s, cal, c);
    if e.threw {
      assert e.store == s;
    } else if OnSchedules(c.op) {
      ScheduleCallKeepsClear(s, w.clock, cal, c, j);
    } else if c.op.OpClaimDue? {
      ClaimRowsKeepClear(s, w.clock, cal, c.op.rows, c.now, c.op.leaseMs, [], j);
    } else if c.op.OpComplete? {
      CompletionKeepsClear(w, cal, c, j);
    } else {
      OtherCallsKeepClear(s, w.clock, cal, c, j);
    }
  }

  lemma OtherCallsKeepClear(s: Store, clock: int, cal: Calendar, c: Call, j: Id)
    requires clock <= c.now && (c.op.OpRenew? || c.op.OpBind? || (!OnSchedules(c.op) && !OnClaims(c.op)))
    requires j in s.jobs && ClashFree(s, clock, j) && j in Apply(s, cal, c).store.jobs
    ensures ClashFree(Apply(s, cal, c).store, c.now, j)
  {
    if OnClaims(c.op) {
      RenewingKeepsPlan(s, cal, c, j);
    } else {
      DeliveryCallsKeepOccurrences(s, cal, c, j);
    }
    CarriesOver(s, Apply(s, cal, c).store, clock, c.now, j);
  }

  lemma RenewingKeepsPlan(s: Store, cal: Calendar, c: Call, j: Id)
    requires c.op.OpRenew? || c.op.OpBind?
    requires j in Apply(s, cal, c).store.jobs
    ensures j in s.jobs && SameOccurrences(s, Apply(s, cal, c).store, j)
            && SamePlan(s.jobs[j], Apply(s, cal, c).store.jobs[j])
  {
    RenewingKeepsOccurrences(s, cal, c, j);
  }

  /** No call of the run breaks its guard for the schedule. */
  ghost predicate Guarded(w: World, cal: Calendar, calls: seq<Call>, j: Id)
    decreases |calls|
  {
    calls != [] ==>
      && (j in w.store.jobs ==> Guard(w.store, cal, calls[0], j))
      && Guarded(Next(w, cal, calls[0]), cal, calls[1..], j)
  }

  lemma OnlyCreationAdds(w: World, cal: Calendar, c: Call, j: Id)
    requires Inv(w.store, w.clock) && Allowed(w, c) && j !in w.store.jobs && j in Apply(w.store, cal, c).store.jobs
    ensures c.op.OpCreate?
  {
    var s := w.store;
    if c.op.OpClaimDue? {
      ClaimRowsAddNone(s, cal, c.op.rows, c.now, c.op.leaseMs, []);
    } else if c.op.OpComplete? {
      if Apply(s, cal, c).ok {
        CompletionAddsNone(s, w.clock, cal, c.op.claim, c.op.res, c.now);
      } else {
        RefusalsChangeNothing(s, w.clock, cal, c);
      }
    } else if !OnSchedules(c.op) && !OnClaims(c.op) {
      DeliveryCallsEvolve(s, cal, c);
    }
  }

  lemma CompletionAddsNone(s: Store, clock: int, cal: Calendar, claim: Claim, res: Completion, now: int)
    requires Inv(s, clock) && HoldsJob(s, claim, now) && Complete(s, cal, claim, res, now).Done?
    ensures Complete(s, cal, claim, res, now).store.jobs.Keys == s.jobs.Keys
  {
    var o, job, t := CompletionShape(s, cal, clock, claim, res, now);
  }

  lemma {:induction false} ClaimRowsAddNone(s: Store, cal: Calendar, rows: seq<Id>, now: int, leaseMs: int,
          claims: seq<Claim>)
    ensures ClaimRows(s, cal, rows, now, leaseMs, claims).Done? ==>
              ClaimRows(s, cal, rows, now, leaseMs, claims).store.jobs.Keys == s.jobs.Keys
    decreases |rows|
  {
    if rows != [] {
      if rows[0] !in s.jobs {
        ClaimRowsAddNone(s, cal, rows[1..], now, leaseMs, claims);
      } else {
        var r := ClaimRow(s, cal, rows[0], now, leaseMs);
        if r.Done? {
          ClaimRowIsLocal(s, cal, rows[0], now, leaseMs);
          ClaimRowsAddNone(r.store, cal, rows[1..], now, leaseMs, Collect(claims, r.result));
        }
      }
    }
  }

  lemma {:induction false} RunsKeepClear(w: World, cal: Calendar, calls: seq<Call>, j: Id)
    requires Inv(w.store, w.clock) && Snapshots(w.store, w.issued) && AllAllowed(w, cal, calls) && Advances(cal)
    requires j in w.store.jobs ==> ClashFree(w.store, w.clock, j)
    requires Guarded(w, cal, calls, j)
    ensures
      var e := Run(w, cal, calls);
      && Inv(e.store, e.clock) && Snapshots(e.store, e.issued)
      && (j in e.store.jobs ==> ClashFree(e.store, e.clock, j))
    decreases |calls|
  {
    if calls != [] {
      var c := calls[0];
      NextKeepsLeases(w, cal, c);
      NextKeepsSnapshots(w, cal, c);
      if j in Apply(w.store, cal, c).store.jobs {
        if j !in w.store.jobs {
          OnlyCreationAdds(w, cal, c, j);
        }
        CallKeepsClear(w, cal, c, j);
      }
      RunsKeepClear(Next(w, cal, c), cal, calls[1..], j);
    }
  }

  lemma {:induction false} ClearRowsNeverThrow(s: Store, clock: int, cal: Calendar, rows: seq<Id>, now: int,
          leaseMs: int, claims: seq<Claim>)
    requires Inv(s, clock) && clock <= now && StillDue(s, rows, now)
    requires forall i | 0 <= i < |rows| :: ClashFree(s, clock, rows[i]) && cal(s.jobs[rows[i]].trigger, now).Some?
    ensures ClaimRows(s, cal, rows, now, leaseMs, claims).Done?
    decreases |rows|
  {
    if rows != [] {
      var k := rows[0];
      if Resumable(s, k, now) == {} {
        NothingOpen(s, clock, k, now);
      }
      var r := ClaimRow(s, cal, k, now, leaseMs);
      assert r.Done?;
      ClaimRowKeeps(s, cal, k, clock, now, leaseMs);
      RestStillDue(s, cal, rows, now, leaseMs);
      ClaimRowIsLocal(s, cal, k, now, leaseMs);
      forall i | 1 <= i < |rows| ensures ClashFree(r.store, now, rows[i]) {
        ClaimRowOccurrences(s, clock, cal, k, rows[i], now, leaseMs);
        CarriesOver(s, r.store, clock, now, rows[i]);
      }
      ClearRowsNeverThrow(r.store, now, cal, rows[1..], now, leaseMs, Collect(claims, r.result));
    }
  }

  /**
   Over every run, manual runs, edits, pauses, skips, retries and lost leases included: a claim of
   schedules none of whose calls broke its guard does not throw where their calendars have next due times.
   */
  lemma ClaimsNeverCollide(cal: Calendar, clock: int, calls: seq<Call>, c: Call)
    requires Advances(cal) && AllAllowed(Start(clock), cal, calls + [c]) && c.op.OpClaimDue?
    requires forall j | j in c.op.rows :: Guarded(Start(clock), cal, calls, j)
    requires
      var w := Run(Start(clock), cal, calls);
      forall j | j in c.op.rows && j in w.store.jobs :: cal(w.store.jobs[j].trigger, c.now).Some?
    ensures !Apply(Run(Start(clock), cal, calls).store, cal, c).threw
  {
    EmptyOk(clock);
    LastCall(Start(clock), cal, calls, c);
    var w := Run(Start(clock), cal, calls);
    forall j | j in c.op.rows ensures j in w.store.jobs ==> ClashFree(w.store, w.clock, j) {
      RunsKeepClear(Start(clock), cal, calls, j);
    }
    ClearRowsNeverThrow(w.store, w.clock, cal, c.op.rows, c.now, c.op.leaseMs, []);
  }
}
