/**
 The next two claims of a recurring schedule, case by case: whether either of them fails on the unique
 identity, as a misfire policy, a manual run, an edit and the pruning of the history make it. The two ways
 to provoke the failure by hand are characterized exactly, and shown on whole runs of calls.
 */
module AutomationCollisionCases {
  import opened Wrappers
  import opened AutomationModel
  import opened AutomationInvariant
  import opened AutomationRuns
  import opened AutomationFencing
  import opened AutomationCalendar
  import opened AutomationIdentity
  import opened AutomationCollisions
  import History = AutomationHistory

  const Silent := Completion(true, None, None, None)

  /**
   The next claim of the schedule does not throw; nor does the one after it, if an occurrence is handed out
   and succeeds without a message. A schedule that skips misfires hands out nothing when it is claimed late.
   */
  ghost predicate NoneThrows(s: Store, cal: Calendar, j: Id, now: int, leaseMs: int, done: int, later: int)
    requires j in s.jobs
  {
    var first := ClaimRow(s, cal, j, now, leaseMs);
    && first.Done?
    && (first.result.Some? ==>
          var settled := Complete(first.store, cal, first.result.value, Silent, done);
          && settled.Done? && j in settled.store.jobs
          && ClaimRow(settled.store, cal, j, later, leaseMs).Done?)
  }

  /** The identity the second claim needs is on record after the first, and pruned by the completion. */
  ghost predicate WayCleared(s: Store, cal: Calendar, j: Id, now: int, leaseMs: int, done: int)
    requires j in s.jobs
  {
    var first := ClaimRow(s, cal, j, now, leaseMs);
    && first.Done? && first.result.Some?
    && var settled := Complete(first.store, cal, first.result.value, Silent, done);
       && settled.Done? && j in settled.store.jobs
       && var at := settled.store.jobs[j].nextRunAt;
          Taken(first.store, j, at) && !Taken(settled.store, j, at)
  }

  /** The next due time is free, or not needed while an occurrence is open. */
  ghost predicate FirstFree(s: Store, j: Id)
    requires j in s.jobs
  {
    HasOpen(s, j) || !Taken(s, j, s.jobs[j].nextRunAt)
  }

  /** So is the due time put aside, if there is one, also after the next due time is taken. */
  ghost predicate SecondFree(s: Store, j: Id)
    requires j in s.jobs
  {
    var job := s.jobs[j];
    job.manualResumeAt.Some? ==>
      && !Taken(s, j, job.manualResumeAt.value)
      && (HasOpen(s, j) || job.manualResumeAt.value != job.nextRunAt)
  }

  /** Where a completion at `done` leaves the schedule due. */
  function DueAgain(job: Job, cal: Calendar, done: int): int
    requires cal(job.trigger, done).Some?
  {
    job.manualResumeAt.GetOr(cal(job.trigger, done).value)
  }

  // ---- a claim and its success ----------------------------------------------------------------

  /** Store `t` has claimed an occurrence of store `s`, opened or resumed. */
  ghost predicate Begun(s: Store, t: Store, claim: Claim, until: int) {
    var j, o := claim.jobId, claim.occurrence;
    && j in s.jobs && t.jobs.Keys == s.jobs.Keys && claim.job == t.jobs[j] && Carries(t, j, o)
    && claim.job.token.Some? && claim.job == s.jobs[j].(token := claim.job.token, lockedUntil := Some(until))
    && (forall p :: p in t.occs <==> p in s.occs || p == o)
    && (forall p | p in t.occs && p != o :: t.occs[p] == s.occs[p])
    && (o in s.occs ==> s.occs[o].schedule == j && t.occs[o].nominalDueAt == s.occs[o].nominalDueAt)
  }

  /** Store `u` has closed the occurrence that store `t` had claimed, and is due again at `at`. */
  ghost predicate Ended(t: Store, u: Store, claim: Claim, at: int) {
    var j, o := claim.jobId, claim.occurrence;
    && j in u.jobs && u.jobs.Keys == t.jobs.Keys && !t.jobs[j].trigger.kind.At?
    && u.jobs[j] == t.jobs[j].(enabled := true, nextRunAt := at, lockedUntil := None, token := None,
                               manualResumeAt := None, consecutiveErrors := 0)
    && o in t.occs && o in u.occs && u.occs == t.occs[o := u.occs[o]] && !Open(u.occs[o])
    && t.occs[o].schedule == j == u.occs[o].schedule && u.occs[o].nominalDueAt == t.occs[o].nominalDueAt
  }

  /** A leased occurrence succeeds in time: it is closed, and the due time is set, before any pruning. */
  lemma SilentlyEnded(t: Store, cal: Calendar, clock: int, claim: Claim, done: int, at: int) returns (closed: Store)
    requires Inv(t, clock) && HoldsJob(t, claim, done) && Carries(t, claim.jobId, claim.occurrence)
    requires claim.job == t.jobs[claim.jobId]
    requires !claim.job.trigger.kind.At? && Resumption(claim, cal, done) == Some(at)
    ensures Complete(t, cal, claim, Silent, done) == Done(PruneHistory(closed, claim.jobId), true)
    ensures Ended(t, closed, claim, at)
  {
    var p := HeldByOne(t, clock, claim.jobId);
    var job := AfterSuccess(t.jobs[claim.jobId], claim, cal, done).value;
    closed := Closed(t, claim.jobId, claim.occurrence, job, Succeeded, Silent, done);
  }

  ghost predicate NoneOpen(s: Store, j: Id) {
    forall o | o in s.occs && s.occs[o].schedule == j :: !Open(s.occs[o])
  }

  /** With nothing open, a lease throws exactly when the due time is taken. */
  lemma ThrowsIfTaken(s: Store, j: Id, now: int, leaseMs: int)
    requires j in s.jobs && NoneOpen(s, j)
    ensures LeaseRow(s, j, now, leaseMs).Done? <==> !Taken(s, j, s.jobs[j].nextRunAt)
  {
    assert Resumable(s, j, now) == {};
  }

  lemma LeasedShape(s: Store, clock: int, j: Id, now: int, leaseMs: nat) returns (claim: Claim, t: Store, until: int)
    requires Inv(s, clock) && clock <= now && j in s.jobs && DueJob(s.jobs[j], now)
    requires LeaseRow(s, j, now, leaseMs).Done?
    ensures LeaseRow(s, j, now, leaseMs) == Done(t, Some(claim)) && claim.jobId == j
    ensures Inv(t, now) && Begun(s, t, claim, until) && until == now + leaseMs
    ensures claim.occurrence in s.occs <==> HasOpen(s, j)
    ensures !HasOpen(s, j) ==> t.occs[claim.occurrence].nominalDueAt == s.jobs[j].nextRunAt
  {
    LeaseKeeps(s, j, clock, now, leaseMs);
    LeasedRowsOk(s, j, clock, now, leaseMs);
    var r := LeaseRow(s, j, now, leaseMs);
    claim, t, until := r.result.value, r.store, now + leaseMs;
    if HasOpen(s, j) {
      var o :| OpenAt(s, j, o);
      DueMeansExpired(s, j, clock, now, o);
      assert o in Resumable(s, j, now);
    } else {
      NoneResumable(s, j, now);
      forall o | o in s.occs ensures o < s.nextId {
        assert OccurrenceOk(s, clock, o);
      }
    }
  }

  lemma NoneResumable(s: Store, j: Id, now: int)
    requires !HasOpen(s, j)
    ensures Resumable(s, j, now) == {}
  {
    forall o | o in Resumable(s, j, now) ensures false {
      assert OpenAt(s, j, o);
    }
  }

  lemma TakenOnceBegun(s: Store, t: Store, claim: Claim, until: int, at: int)
    requires Begun(s, t, claim, until)
    ensures Taken(t, claim.jobId, at) <==> Taken(s, claim.jobId, at) || at == t.occs[claim.occurrence].nominalDueAt
  {
    var j, o := claim.jobId, claim.occurrence;
    if Taken(s, j, at) {
      var p :| p in s.occs && s.occs[p].schedule == j && s.occs[p].nominalDueAt == at;
      assert t.occs[p].nominalDueAt == at;
    }
    if at == t.occs[o].nominalDueAt {
      assert t.occs[o].schedule == j;
    }
  }

  lemma TakenOnceEnded(t: Store, u: Store, claim: Claim, next: int, at: int)
    requires Ended(t, u, claim, next)
    ensures Taken(u, claim.jobId, at) <==> Taken(t, claim.jobId, at)
  {
    var j := claim.jobId;
    if Taken(t, j, at) {
      var p :| p in t.occs && t.occs[p].schedule == j && t.occs[p].nominalDueAt == at;
      assert u.occs[p].nominalDueAt == at;
    }
    if Taken(u, j, at) {
      var p :| p in u.occs && u.occs[p].schedule == j && u.occs[p].nominalDueAt == at;
      assert t.occs[p].nominalDueAt == at;
    }
  }

  lemma AllClosed(t: Store, u: Store, clock: int, claim: Claim, at: int)
    requires Inv(t, clock) && claim.jobId in t.jobs && Carries(t, claim.jobId, claim.occurrence)
             && Ended(t, u, claim, at)
    ensures NoneOpen(u, claim.jobId)
  {
  }

  /** Where the due time of a claim's success comes from the calendar, it is free. */
  lemma CalendarIsFree(s: Store, t: Store, clock: int, claim: Claim, until: int, now: int, done: int, at: int)
    requires Begun(s, t, claim, until) && NonePending(s, clock, claim.jobId) && clock <= now <= done < at
    requires s.jobs[claim.jobId].nextRunAt <= now
    requires claim.occurrence !in s.occs ==> t.occs[claim.occurrence].nominalDueAt == s.jobs[claim.jobId].nextRunAt
    ensures !Taken(s, claim.jobId, at) && t.occs[claim.occurrence].nominalDueAt != at
  {
    LaterIsFree(s, clock, claim.jobId, at);
  }

  /** What a claim that goes through says of the schedule's being clear. */
  lemma LeasedMeansFree(s: Store, j: Id, now: int, leaseMs: int)
    requires j in s.jobs && LeaseRow(s, j, now, leaseMs).Done? && !HasOpen(s, j)
    ensures !Taken(s, j, s.jobs[j].nextRunAt)
  {
    NoneResumable(s, j, now);
  }

  /** The claim goes through: then it is completed, and the schedule is due again at `at`. */
  lemma LeasedThenEnded(s: Store, clock: int, cal: Calendar, j: Id, now: int, leaseMs: nat, done: int)
    returns (claim: Claim, t: Store, u: Store, until: int)
    requires Inv(s, clock) && clock <= now <= done <= now + leaseMs
    requires j in s.jobs && DueJob(s.jobs[j], now) && !s.jobs[j].trigger.kind.At?
    requires cal(s.jobs[j].trigger, done).Some?
    requires LeaseRow(s, j, now, leaseMs).Done?
    ensures LeaseRow(s, j, now, leaseMs) == Done(t, Some(claim)) && claim.jobId == j
    ensures Complete(t, cal, claim, Silent, done) == Done(PruneHistory(u, j), true)
    ensures Begun(s, t, claim, until) && Ended(t, u, claim, DueAgain(s.jobs[j], cal, done)) && NoneOpen(u, j)
    ensures claim.occurrence in s.occs <==> HasOpen(s, j)
    ensures !HasOpen(s, j) ==>
              t.occs[claim.occurrence].nominalDueAt == s.jobs[j].nextRunAt && !Taken(s, j, s.jobs[j].nextRunAt)
  {
    claim, t, until := LeasedShape(s, clock, j, now, leaseMs);
    if !HasOpen(s, j) {
      LeasedMeansFree(s, j, now, leaseMs);
    }
    var at := DueAgain(s.jobs[j], cal, done);
    u := SilentlyEnded(t, cal, now, claim, done, at);
    AllClosed(t, u, now, claim, at);
  }

  /** After a claim, the due time to come is on record exactly when it was not free for a second claim. */
  lemma TakenMeans(s: Store, t: Store, clock: int, cal: Calendar, claim: Claim, until: int, now: int, done: int)
    requires Begun(s, t, claim, until) && NonePending(s, clock, claim.jobId) && clock <= now <= done && Advances(cal)
    requires s.jobs[claim.jobId].nextRunAt <= now && cal(s.jobs[claim.jobId].trigger, done).Some?
    requires claim.occurrence in s.occs <==> HasOpen(s, claim.jobId)
    requires !HasOpen(s, claim.jobId) ==> t.occs[claim.occurrence].nominalDueAt == s.jobs[claim.jobId].nextRunAt
    ensures Taken(t, claim.jobId, DueAgain(s.jobs[claim.jobId], cal, done)) <==> !SecondFree(s, claim.jobId)
  {
    var j, o := claim.jobId, claim.occurrence;
    var at := DueAgain(s.jobs[j], cal, done);
    TakenOnceBegun(s, t, claim, until, at);
    if HasOpen(s, j) {
      assert Taken(s, j, t.occs[o].nominalDueAt);
    }
    if s.jobs[j].manualResumeAt.None? {
      CalendarIsFree(s, t, clock, claim, until, now, done, at);
    }
  }

  /** What the second claim meets: a misfire skip, or a due time on record unless pruning deleted it. */
  lemma SecondClaim(t: Store, u: Store, cal: Calendar, claim: Claim, at: int, later: int, leaseMs: int)
    requires Ended(t, u, claim, at) && NoneOpen(u, claim.jobId) && cal(t.jobs[claim.jobId].trigger, later).Some?
    ensures
      var j, v := claim.jobId, PruneHistory(u, claim.jobId);
      && j in v.jobs && v.jobs[j] == u.jobs[j]
      && (Taken(v, j, at) ==> Taken(t, j, at))
      && (ClaimRow(v, cal, j, later, leaseMs).Done? <==>
            Misfired(t.jobs[j].(nextRunAt := at), later) || !Taken(v, j, at))
  {
    var j, v := claim.jobId, PruneHistory(u, claim.jobId);
    PruningOnlyForgets(u, j);
    TakenOnceEnded(t, u, claim, at, at);
    if !Misfired(v.jobs[j], later) {
      ThrowsIfTaken(v, j, later, leaseMs);
    }
  }

  /** The two predicates in terms of the stores a claim and its success leave behind. */
  lemma NoneThrowsIs(s: Store, cal: Calendar, j: Id, now: int, leaseMs: int, done: int, later: int,
          claim: Claim, t: Store, v: Store, at: int)
    requires j in s.jobs && j in v.jobs && v.jobs[j].nextRunAt == at && !Misfired(s.jobs[j], now)
    requires LeaseRow(s, j, now, leaseMs) == Done(t, Some(claim))
             && Complete(t, cal, claim, Silent, done) == Done(v, true)
    ensures NoneThrows(s, cal, j, now, leaseMs, done, later) <==> ClaimRow(v, cal, j, later, leaseMs).Done?
    ensures WayCleared(s, cal, j, now, leaseMs, done) <==> Taken(t, j, at) && !Taken(v, j, at)
  {
  }

  /** A lease fails exactly when there is nothing to resume and the due time is taken. */
  lemma FirstClaim(s: Store, clock: int, j: Id, now: int, leaseMs: int)
    requires Inv(s, clock) && clock <= now && j in s.jobs && DueJob(s.jobs[j], now)
    ensures LeaseRow(s, j, now, leaseMs).Done? <==> FirstFree(s, j)
  {
    if HasOpen(s, j) {
      var o :| OpenAt(s, j, o);
      DueMeansExpired(s, j, clock, now, o);
      assert o in Resumable(s, j, now);
    } else {
      NoneResumable(s, j, now);
    }
  }

  /**
   For any due recurring schedule whose calendar goes on: neither of its next two claims throws exactly when
   the first comes so late that it is skipped, or the next due time is free, and so is the one after it,
   or that claim comes so late that it is skipped, or pruning has deleted the occurrence in the way. Being
   clear of collisions is enough.
   */
  lemma ClearExactly(s: Store, clock: int, cal: Calendar, j: Id, now: int, leaseMs: nat, done: int, later: int)
    requires Inv(s, clock) && clock <= now <= done <= now + leaseMs && Advances(cal)
    requires j in s.jobs && DueJob(s.jobs[j], now) && NonePending(s, clock, j) && !s.jobs[j].trigger.kind.At?
    requires forall at | at in {now, done, later} :: cal(s.jobs[j].trigger, at).Some?
    ensures
      var skipsSecond := Misfired(s.jobs[j].(nextRunAt := DueAgain(s.jobs[j], cal, done)), later);
      NoneThrows(s, cal, j, now, leaseMs, done, later) <==>
        || Misfired(s.jobs[j], now)
        || (FirstFree(s, j) && (SecondFree(s, j) || skipsSecond || WayCleared(s, cal, j, now, leaseMs, done)))
    ensures Clear(s, j) ==> NoneThrows(s, cal, j, now, leaseMs, done, later)
  {
    assert cal(s.jobs[j].trigger, now).Some? && cal(s.jobs[j].trigger, done).Some?;
    if !Misfired(s.jobs[j], now) {
      FirstClaim(s, clock, j, now, leaseMs);
      if FirstFree(s, j) {
        LeasedCases(s, clock, cal, j, now, leaseMs, done, later);
      }
    }
  }

  lemma LeasedCases(s: Store, clock: int, cal: Calendar, j: Id, now: int, leaseMs: nat, done: int, later: int)
    requires Inv(s, clock) && clock <= now <= done <= now + leaseMs && Advances(cal)
    requires j in s.jobs && DueJob(s.jobs[j], now) && NonePending(s, clock, j) && !s.jobs[j].trigger.kind.At?
    requires cal(s.jobs[j].trigger, done).Some? && cal(s.jobs[j].trigger, later).Some?
    requires !Misfired(s.jobs[j], now) && LeaseRow(s, j, now, leaseMs).Done?
    ensures
      NoneThrows(s, cal, j, now, leaseMs, done, later) <==>
        || SecondFree(s, j) || Misfired(s.jobs[j].(nextRunAt := DueAgain(s.jobs[j], cal, done)), later)
        || WayCleared(s, cal, j, now, leaseMs, done)
  {
    var claim, t, u, until := LeasedThenEnded(s, clock, cal, j, now, leaseMs, done);
    var at := DueAgain(s.jobs[j], cal, done);
    TakenMeans(s, t, clock, cal, claim, until, now, done);
    SecondClaim(t, u, cal, claim, at, later, leaseMs);
    NoneThrowsIs(s, cal, j, now, leaseMs, done, later, claim, t, PruneHistory(u, j), at);
  }

  // ---- when pruning clears the way ------------------------------------------------------------

  /** There is room for so many more occurrences of the schedule before pruning has anything to do. */
  ghost predicate Room(s: Store, j: Id, more: nat) {
    |History.OfSchedule(s, j)| + more <= 100 && |s.occs.Keys| + more <= 10_000
  }

  lemma NothingToPrune(t: Store, j: Id)
    requires Room(t, j, 0)
    ensures PruneHistory(t, j).occs == t.occs && PruneHistory(t, j).jobs == t.jobs
  {
    forall o | o in t.occs
      ensures t.occs[o].schedule == j ==> |LaterDue(t, o)| < 100
      ensures |FresherOccurrences(t, o)| < 10_000
    {
      OneLess(FresherOccurrences(t, o), t.occs.Keys, o);
      if t.occs[o].schedule == j {
        OneLess(LaterDue(t, o), History.OfSchedule(t, j), o);
      }
    }
    assert PruneSchedule(t, j) == t;
  }

  lemma OneLess<T>(some: set<T>, all: set<T>, x: T)
    requires some <= all && x in all && x !in some
    ensures |some| < |all|
  {
    SubsetSize(some, all - {x});
    assert |all - {x}| == |all| - 1;
  }

  /** Where at most occurrence `o` has come in. */
  lemma RoomForOne(s: Store, t: Store, j: Id, o: Id)
    requires Room(s, j, 1)
    requires forall p | p in t.occs && p != o :: p in s.occs && t.occs[p].schedule == s.occs[p].schedule
    ensures Room(t, j, 0)
  {
    AtMostOneMore(t.occs.Keys, s.occs.Keys, o);
    AtMostOneMore(History.OfSchedule(t, j), History.OfSchedule(s, j), o);
  }

  lemma AtMostOneMore<T>(grown: set<T>, before: set<T>, x: T)
    requires grown <= before + {x}
    ensures |grown| <= |before| + 1
  {
    SubsetSize(grown, before + {x});
    assert |before + {x}| <= |before| + 1;
  }

  lemma NewestSurvivesPruning(s: Store, o: Id)
    requires o in s.occs && |s.occs.Keys| <= 10_000
    requires forall p | p in s.occs && s.occs[p].schedule == s.occs[o].schedule ::
               s.occs[p].nominalDueAt <= s.occs[o].nominalDueAt
    ensures o in PruneHistory(s, s.occs[o].schedule).occs
  {
    assert LaterDue(s, o) == {};
    var t := PruneSchedule(s, s.occs[o].schedule);
    var fresher := FresherOccurrences(t, o);
    SubsetSize(fresher, s.occs.Keys - {o});
    assert |s.occs.Keys - {o}| == |s.occs.Keys| - 1;
  }

  /** Only a long history is pruned: a hundred occurrences of the schedule, or ten thousand in all. */
  lemma WaysAreClearedLate(s: Store, clock: int, cal: Calendar, j: Id, now: int, leaseMs: nat, done: int)
    requires Inv(s, clock) && clock <= now <= done <= now + leaseMs
    requires j in s.jobs && DueJob(s.jobs[j], now) && !s.jobs[j].trigger.kind.At?
    requires cal(s.jobs[j].trigger, done).Some?
    ensures WayCleared(s, cal, j, now, leaseMs, done) ==> !Room(s, j, 1)
  {
    if !Misfired(s.jobs[j], now) && LeaseRow(s, j, now, leaseMs).Done? {
      var claim, t, u, until := LeasedThenEnded(s, clock, cal, j, now, leaseMs, done);
      var at := DueAgain(s.jobs[j], cal, done);
      RoomKeepsTaken(s, t, u, claim, until, at);
      PruningOnlyForgets(u, j);
      NoneThrowsIs(s, cal, j, now, leaseMs, done, done, claim, t, PruneHistory(u, j), at);
    }
  }

  lemma RoomKeepsTaken(s: Store, t: Store, u: Store, claim: Claim, until: int, at: int)
    requires Begun(s, t, claim, until) && Ended(t, u, claim, at)
    ensures Room(s, claim.jobId, 1) ==>
              (Taken(PruneHistory(u, claim.jobId), claim.jobId, at) <==> Taken(t, claim.jobId, at))
  {
    if !Room(s, claim.jobId, 1) {
      return;
    }
    RoomForOne(s, u, claim.jobId, claim.occurrence);
    NothingToPrune(u, claim.jobId);
    TakenOnceEnded(t, u, claim, at, at);
    SameTables(u, PruneHistory(u, claim.jobId), claim.jobId);
  }

  /** Where what is claimed is itself in the way, and after all others, only the limit on the whole table is left. */
  lemma NewestIsClearedLate(s: Store, clock: int, cal: Calendar, j: Id, now: int, leaseMs: nat, done: int)
    requires Inv(s, clock) && clock <= now <= done <= now + leaseMs
    requires j in s.jobs && DueJob(s.jobs[j], now) && !s.jobs[j].trigger.kind.At?
    requires cal(s.jobs[j].trigger, done).Some?
    requires !HasOpen(s, j) && s.jobs[j].manualResumeAt == Some(s.jobs[j].nextRunAt)
    requires forall o | o in s.occs && s.occs[o].schedule == j :: s.occs[o].nominalDueAt <= s.jobs[j].nextRunAt
    ensures WayCleared(s, cal, j, now, leaseMs, done) ==> |s.occs.Keys| >= 10_000
  {
    if WayCleared(s, cal, j, now, leaseMs, done) && |s.occs.Keys| < 10_000 {
      var claim, t, u, until := LeasedThenEnded(s, clock, cal, j, now, leaseMs, done);
      ClosedIsLatest(s, t, u, claim, until, s.jobs[j].nextRunAt);
      LatestStays(u, j, claim.occurrence);
    }
  }

  lemma LatestStays(u: Store, j: Id, o: Id)
    requires o in u.occs && u.occs[o].schedule == j && |u.occs.Keys| <= 10_000
    requires forall p | p in u.occs && u.occs[p].schedule == j :: u.occs[p].nominalDueAt <= u.occs[o].nominalDueAt
    ensures Taken(PruneHistory(u, j), j, u.occs[o].nominalDueAt)
  {
    NewestSurvivesPruning(u, o);
    PruningOnlyForgets(u, j);
    assert PruneHistory(u, j).occs[o] == u.occs[o];
  }

  /** What a claim closes is the latest, if it is due at the next due time and that is. */
  lemma ClosedIsLatest(s: Store, t: Store, u: Store, claim: Claim, until: int, at: int)
    requires Begun(s, t, claim, until) && Ended(t, u, claim, at)
    requires t.occs[claim.occurrence].nominalDueAt == at && |s.occs.Keys| < 10_000
    requires forall o | o in s.occs && s.occs[o].schedule == claim.jobId :: s.occs[o].nominalDueAt <= at
    ensures |u.occs.Keys| <= 10_000 && u.occs[claim.occurrence].nominalDueAt == at
    ensures forall p | p in u.occs && u.occs[p].schedule == claim.jobId :: u.occs[p].nominalDueAt <= at
  {
    AtMostOneMore(u.occs.Keys, s.occs.Keys, claim.occurrence);
  }

  // ---- the two ways by hand -------------------------------------------------------------------

  /**
   Starting by hand leads to a claim that throws exactly when that claim is not skipped for coming late, and
   the moment is already the identity of an occurrence, as after another run in the same millisecond; or it
   is the schedule's own next due time, and neither the claim of that is skipped nor the table so full that
   pruning has deleted the manual occurrence.
   */
  lemma RunCollidesExactly(s: Store, clock: int, cal: Calendar, j: Id, owner: Owner, started: int,
                           now: int, leaseMs: nat, done: int, later: int)
    requires Inv(s, clock) && clock <= started <= now <= done <= now + leaseMs && Advances(cal)
    requires j in s.jobs && ClashFree(s, clock, j) && CanRunNow(s, j, owner) && !HasOpen(s, j)
    requires !s.jobs[j].trigger.kind.At? && forall at | at in {now, done, later} :: cal(s.jobs[j].trigger, at).Some?
    ensures
      var job, t := s.jobs[j], RunNow(s, j, owner, started).0;
      && j in t.jobs
      && (NoneThrows(t, cal, j, now, leaseMs, done, later) <==>
            || Misfired(job.(nextRunAt := started), now)
            || (!Taken(s, j, started)
                && (job.nextRunAt != started || Misfired(job, later) || WayCleared(t, cal, j, now, leaseMs, done))))
      && (WayCleared(t, cal, j, now, leaseMs, done) ==> |s.occs.Keys| >= 10_000)
  {
    var t := RunNow(s, j, owner, started).0;
    assert cal(s.jobs[j].trigger, done).Some?;
    RunNowKeeps(s, j, owner, clock, started);
    NothingLocked(s, clock, j);
    SameTables(s, t, j);
    ClearExactly(t, started, cal, j, now, leaseMs, done, later);
    assert SecondFree(t, j) <==> s.jobs[j].nextRunAt != started;
    WayByHand(s, t, started, cal, j, now, leaseMs, done);
  }

  /** Only the claimed occurrence itself can be in the way of a schedule whose due time put aside was free. */
  lemma WayByHand(s: Store, t: Store, clock: int, cal: Calendar, j: Id, now: int, leaseMs: nat, done: int)
    requires Inv(t, clock) && clock <= now <= done <= now + leaseMs && Advances(cal)
    requires j in t.jobs && DueJob(t.jobs[j], now) && NonePending(t, clock, j) && !t.jobs[j].trigger.kind.At?
    requires cal(t.jobs[j].trigger, done).Some? && t.occs == s.occs
    requires !HasOpen(t, j) && t.jobs[j].manualResumeAt.Some? && !Taken(t, j, t.jobs[j].manualResumeAt.value)
    requires clock <= t.jobs[j].nextRunAt
    ensures WayCleared(t, cal, j, now, leaseMs, done) ==> |s.occs.Keys| >= 10_000
  {
    if WayCleared(t, cal, j, now, leaseMs, done) {
      var claim, t1, u, until := LeasedThenEnded(t, clock, cal, j, now, leaseMs, done);
      TakenMeans(t, t1, clock, cal, claim, until, now, done);
      NewestIsClearedLate(t, clock, cal, j, now, leaseMs, done);
    }
  }

  /**
   And resuming a schedule whose manual run has not been claimed leads to a claim that throws exactly when
   it recomputes the due time put aside, and neither of the two claims is skipped for coming late, nor the
   table so full that pruning has deleted the occurrence in the way.
   */
  lemma EditCollidesExactly(s: Store, clock: int, cal: Calendar, j: Id, owner: Owner, edited: int,
                            now: int, leaseMs: nat, done: int, later: int)
    requires Inv(s, clock) && clock <= edited <= now <= done <= now + leaseMs && Advances(cal)
    requires Visible(s, j, owner) && ClashFree(s, clock, j) && !HasOpen(s, j) && s.jobs[j].manualResumeAt.Some?
    requires !s.jobs[j].trigger.kind.At? && forall at | at in {now, done, later} :: cal(s.jobs[j].trigger, at).Some?
    requires cal(s.jobs[j].trigger, edited).Some? && cal(s.jobs[j].trigger, edited).value <= now
    ensures SetEnabled(s, cal, j, true, owner, edited).Done?
    ensures
      var job, t := s.jobs[j], SetEnabled(s, cal, j, true, owner, edited).store;
      var next, aside := cal(job.trigger, edited).value, job.manualResumeAt.value;
      && j in t.jobs
      && (NoneThrows(t, cal, j, now, leaseMs, done, later) <==>
            || Misfired(job.(nextRunAt := next), now)
            || next != aside || Misfired(job.(nextRunAt := aside), later)
            || WayCleared(t, cal, j, now, leaseMs, done))
      && (WayCleared(t, cal, j, now, leaseMs, done) ==> |s.occs.Keys| >= 10_000)
  {
    var t := SetEnabled(s, cal, j, true, owner, edited).store;
    assert cal(s.jobs[j].trigger, done).Some?;
    SetEnabledKeeps(s, cal, j, true, owner, clock, edited);
    NothingLocked(s, clock, j);
    SameTables(s, t, j);
    LaterIsFree(s, edited, j, t.jobs[j].nextRunAt);
    ClearExactly(t, edited, cal, j, now, leaseMs, done, later);
    WayByHand(s, t, edited, cal, j, now, leaseMs, done);
  }

  lemma NothingLocked(s: Store, clock: int, j: Id)
    requires Inv(s, clock) && j in s.jobs && !HasOpen(s, j)
    ensures s.jobs[j].lockedUntil.None? && s.jobs[j].token.None?
  {
    assert JobOk(s, j);
    if o :| Carries(s, j, o) {
      assert OpenAt(s, j, o);
    }
  }

  // ---- on whole runs --------------------------------------------------------------------------

  /** A store whose only schedule is about to collide: its next due time is the one put aside, and is free. */
  ghost predicate AboutToCollide(s: Store, cal: Calendar, j: Id, now: int, done: int) {
    && s.jobs.Keys == {j} && DueJob(s.jobs[j], now)
    && !s.jobs[j].trigger.kind.At? && !s.jobs[j].skipMisfires && cal(s.jobs[j].trigger, done).Some?
    && s.jobs[j].manualResumeAt == Some(s.jobs[j].nextRunAt) && s.occs == map[]
  }

  /** The store a success leaves: the schedule is due again, and its due time is on record. */
  lemma CollisionStands(s: Store, t: Store, u: Store, cal: Calendar, j: Id, claim: Claim, until: int, now: int,
          done: int, later: int, leaseMs: int)
    requires AboutToCollide(s, cal, j, now, done) && claim.jobId == j && now <= later
    requires Begun(s, t, claim, until) && Ended(t, u, claim, s.jobs[j].nextRunAt) && NoneOpen(u, j)
    requires t.occs[claim.occurrence].nominalDueAt == s.jobs[j].nextRunAt
    ensures
      var v := PruneHistory(u, j);
      && v.jobs.Keys == {j} && DueJob(v.jobs[j], later) && !v.jobs[j].skipMisfires
      && LeaseRow(v, j, later, leaseMs).Threw?
  {
    var v := PruneHistory(u, j);
    ClosedIsLatest(s, t, u, claim, until, s.jobs[j].nextRunAt);
    LatestStays(u, j, claim.occurrence);
    PruningOnlyForgets(u, j);
    ThrowsIfTaken(v, j, later, leaseMs);
  }

  /** From there the calls of a worker that claims, succeeds and claims again end in a throw. */
  lemma CollisionRuns(w: World, cal: Calendar, j: Id, now: int, leaseMs: nat, done: int, later: int)
    returns (claim: Claim)
    requires Inv(w.store, w.clock) && w.clock <= now <= done <= now + leaseMs && done <= later
    requires AboutToCollide(w.store, cal, j, now, done)
    ensures
      var calls := [Call(OpClaimDue([j], 1, leaseMs), now), Call(OpComplete(claim, Silent), done)];
      var last := Call(OpClaimDue([j], 1, leaseMs), later);
      AllAllowed(w, cal, calls + [last]) && Apply(Run(w, cal, calls).store, cal, last).threw
  {
    var t, u, until;
    FirstClaim(w.store, w.clock, j, now, leaseMs);
    claim, t, u, until := LeasedThenEnded(w.store, w.clock, cal, j, now, leaseMs, done);
    CollisionStands(w.store, t, u, cal, j, claim, until, now, done, later, leaseMs);
    var w1 := ClaimCall(w, cal, j, now, leaseMs, claim, t);
    var w2 := CompleteCall(w1, cal, claim, done, PruneHistory(u, j));
    ThrowingCall(w2, cal, j, later, leaseMs);
    ThreeCalls(w, cal, Call(OpClaimDue([j], 1, leaseMs), now), Call(OpComplete(claim, Silent), done),
               Call(OpClaimDue([j], 1, leaseMs), later));
  }

  lemma ClaimCall(w: World, cal: Calendar, j: Id, now: int, leaseMs: int, claim: Claim, t: Store) returns (w1: World)
    requires w.clock <= now && w.store.jobs.Keys == {j}
    requires DueJob(w.store.jobs[j], now) && !Misfired(w.store.jobs[j], now)
    requires LeaseRow(w.store, j, now, leaseMs) == Done(t, Some(claim)) && claim.job.token.Some?
    ensures Allowed(w, Call(OpClaimDue([j], 1, leaseMs), now))
    ensures w1 == Next(w, cal, Call(OpClaimDue([j], 1, leaseMs), now)) && w1.store == t && w1.clock == now
    ensures claim.job.token.value in w1.issued && w1.issued[claim.job.token.value] == claim
  {
    w1 := Next(w, cal, Call(OpClaimDue([j], 1, leaseMs), now));
    ClaimEffect(w.store, cal, j, now, leaseMs, claim, t);
    IssuedOne(w.issued, claim);
    OnlyDue(w.store, j, now);
  }

  lemma OnlyDue(s: Store, j: Id, now: int)
    requires s.jobs.Keys == {j} && DueJob(s.jobs[j], now)
    ensures SelectsDue(s, [j], now, 1)
  {
  }

  lemma ClaimEffect(s: Store, cal: Calendar, j: Id, now: int, leaseMs: int, claim: Claim, t: Store)
    requires j in s.jobs && !Misfired(s.jobs[j], now) && LeaseRow(s, j, now, leaseMs) == Done(t, Some(claim))
    ensures Apply(s, cal, Call(OpClaimDue([j], 1, leaseMs), now)) == Effect(t, true, false, [claim])
  {
    OneRow(s, cal, j, now, leaseMs);
    assert [] + [claim] == [claim];
  }

  lemma IssuedOne(issued: map<Id, Claim>, claim: Claim)
    requires claim.job.token.Some?
    ensures Issue(issued, [claim]) == issued[claim.job.token.value := claim]
  {
    assert [claim][..0] == [];
    assert Issue(issued, []) == issued;
  }

  lemma CompleteCall(w: World, cal: Calendar, claim: Claim, done: int, v: Store) returns (w1: World)
    requires w.clock <= done && Complete(w.store, cal, claim, Silent, done) == Done(v, true)
    requires claim.job.token.Some? && claim.job.token.value in w.issued && w.issued[claim.job.token.value] == claim
    ensures Allowed(w, Call(OpComplete(claim, Silent), done))
    ensures w1 == Next(w, cal, Call(OpComplete(claim, Silent), done)) && w1.store == v && w1.clock == done
  {
    w1 := Next(w, cal, Call(OpComplete(claim, Silent), done));
  }

  lemma ThrowingCall(w: World, cal: Calendar, j: Id, later: int, leaseMs: int)
    requires w.clock <= later && w.store.jobs.Keys == {j} && DueJob(w.store.jobs[j], later)
    requires !Misfired(w.store.jobs[j], later) && LeaseRow(w.store, j, later, leaseMs).Threw?
    ensures Allowed(w, Call(OpClaimDue([j], 1, leaseMs), later))
    ensures Apply(w.store, cal, Call(OpClaimDue([j], 1, leaseMs), later)).threw
  {
    OneRow(w.store, cal, j, later, leaseMs);
    OnlyDue(w.store, j, later);
  }

  lemma OneRow(s: Store, cal: Calendar, j: Id, now: int, leaseMs: int)
    requires j in s.jobs && !Misfired(s.jobs[j], now)
    ensures var r, one := ClaimRows(s, cal, [j], now, leaseMs, []), LeaseRow(s, j, now, leaseMs);
      && (r.Threw? <==> one.Threw?)
      && (one.Done? ==> r == Done(one.store, Collect([], one.result)))
  {
    assert [j][1..] == [];
  }

  lemma ThreeCalls(w: World, cal: Calendar, one: Call, two: Call, last: Call)
    requires Allowed(w, one) && Allowed(Next(w, cal, one), two) && Allowed(Next(Next(w, cal, one), cal, two), last)
    ensures AllAllowed(w, cal, [one, two] + [last])
    ensures Run(w, cal, [one, two]) == Next(Next(w, cal, one), cal, two)
  {
    var w1 := Next(w, cal, one);
    var w2 := Next(w1, cal, two);
    assert ([one, two] + [last])[1..] == [two, last] && [two, last][1..] == [last] && [last][1..] == [];
    assert [one, two][1..] == [two] && [two][1..] == [];
    assert AllAllowed(w2, cal, [last]);
    assert AllAllowed(w1, cal, [two, last]);
    assert Run(w2, cal, []) == w2;
    assert Run(w1, cal, [two]) == w2;
  }

  /** A schedule due every ten milliseconds, on the ten. */
  const Tens: Calendar := (trigger, now) => Some((now / 10 + 1) * 10)

  const Someone := Owner("feishu", None, "chat", None)

  const Request := JobInput(Someone, "n", "t", Trigger(Every, "10ms", None), None, None, None, None)

  lemma TensAdvance()
    ensures Advances(Tens)
  {
  }

  /** A store with nothing but that schedule, due at `next`, and at `aside` once a manual run is over. */
  function Planned(next: int, aside: Option<int>): Store {
    Store(map[0 := NewJob(Request, 10).(nextRunAt := next, manualResumeAt := aside)], map[], map[], 1)
  }

  lemma Requested() returns (w: World)
    ensures Allowed(Start(0), Call(OpCreate(Request), 0)) && w == Next(Start(0), Tens, Call(OpCreate(Request), 0))
    ensures w.store == Planned(10, None) && w.clock == 0 && Inv(w.store, w.clock)
  {
    assert Trim("n") == "n" && Trim("t") == "t";
    EmptyOk(0);
    CreateKeeps(Empty, Tens, Request, 0, 0);
    w := Next(Start(0), Tens, Call(OpCreate(Request), 0));
  }

  lemma Started(w: World, at: int) returns (v: World)
    requires w.store == Planned(10, None) && w.clock <= at && Inv(w.store, w.clock)
    ensures Allowed(w, Call(OpRunNow(0, Someone), at)) && v == Next(w, Tens, Call(OpRunNow(0, Someone), at))
    ensures v.store == Planned(at, Some(10)) && v.clock == at && Inv(v.store, v.clock)
  {
    RunNowKeeps(w.store, 0, Someone, w.clock, at);
    v := Next(w, Tens, Call(OpRunNow(0, Someone), at));
  }

  lemma Edited(w: World, next: int, at: int) returns (v: World)
    requires w.store == Planned(next, Some(10)) && w.clock <= at && 0 <= at < 10 && Inv(w.store, w.clock)
    ensures Allowed(w, Call(OpSetEnabled(0, true, Someone), at))
    ensures v == Next(w, Tens, Call(OpSetEnabled(0, true, Someone), at))
    ensures v.store == Planned(10, Some(10)) && v.clock == at && Inv(v.store, v.clock)
  {
    SetEnabledKeeps(w.store, Tens, 0, true, Someone, w.clock, at);
    Recomputed(next, at);
    v := Next(w, Tens, Call(OpSetEnabled(0, true, Someone), at));
  }

  lemma Recomputed(next: int, at: int)
    requires 0 <= at < 10
    ensures SetEnabled(Planned(next, Some(10)), Tens, 0, true, Someone, at) == Done(Planned(10, Some(10)), true)
  {
    var s, t := Planned(next, Some(10)), Planned(10, Some(10));
    assert s.jobs[0 := t.jobs[0]] == t.jobs;
  }

  lemma PlanCollides()
    ensures AboutToCollide(Planned(10, Some(10)), Tens, 0, 10, 15)
  {
  }

  /**
   The first way on a run from the empty store: a schedule created at 0 and due at 10 is started by hand at
   10, claimed at once, and succeeds at 15; the claim at 16 throws.
   */
  lemma RunCollides() returns (claim: Claim)
    ensures
      var calls := [Call(OpCreate(Request), 0), Call(OpRunNow(0, Someone), 10),
                    Call(OpClaimDue([0], 1, 60_000), 10), Call(OpComplete(claim, Silent), 15)];
      var last := Call(OpClaimDue([0], 1, 60_000), 16);
      AllAllowed(Start(0), Tens, calls + [last]) && Apply(Run(Start(0), Tens, calls).store, Tens, last).threw
  {
    var create, run := Call(OpCreate(Request), 0), Call(OpRunNow(0, Someone), 10);
    var w1 := Requested();
    var w2 := Started(w1, 10);
    PlanCollides();
    claim := CollisionRuns(w2, Tens, 0, 10, 60_000, 15, 16);
    var rest := [Call(OpClaimDue([0], 1, 60_000), 10), Call(OpComplete(claim, Silent), 15)];
    TwoBefore(Start(0), Tens, create, run, rest, Call(OpClaimDue([0], 1, 60_000), 16));
    assert [create, run] + rest == [create, run, rest[0], rest[1]];
  }

  /** The second way: started by hand at 3 and resumed at 5, which recomputes 10; again the claim at 16 throws. */
  lemma EditCollides() returns (claim: Claim)
    ensures
      var calls := [Call(OpCreate(Request), 0), Call(OpRunNow(0, Someone), 3), Call(OpSetEnabled(0, true, Someone), 5),
                    Call(OpClaimDue([0], 1, 60_000), 10), Call(OpComplete(claim, Silent), 15)];
      var last := Call(OpClaimDue([0], 1, 60_000), 16);
      AllAllowed(Start(0), Tens, calls + [last]) && Apply(Run(Start(0), Tens, calls).store, Tens, last).threw
  {
    var create, run := Call(OpCreate(Request), 0), Call(OpRunNow(0, Someone), 3);
    var edit := Call(OpSetEnabled(0, true, Someone), 5);
    var w1 := Requested();
    var w2 := Started(w1, 3);
    var w3 := Edited(w2, 3, 5);
    PlanCollides();
    claim := CollisionRuns(w3, Tens, 0, 10, 60_000, 15, 16);
    var rest := [Call(OpClaimDue([0], 1, 60_000), 10), Call(OpComplete(claim, Silent), 15)];
    ThreeBefore(Start(0), Tens, create, run, edit, rest, Call(OpClaimDue([0], 1, 60_000), 16));
    assert [create, run, edit] + rest == [create, run, edit, rest[0], rest[1]];
  }

  lemma OneBefore(w: World, cal: Calendar, one: Call, rest: seq<Call>, last: Call)
    requires Allowed(w, one) && AllAllowed(Next(w, cal, one), cal, rest + [last])
    ensures AllAllowed(w, cal, [one] + rest + [last])
    ensures Run(w, cal, [one] + rest) == Run(Next(w, cal, one), cal, rest)
  {
    assert ([one] + rest + [last])[1..] == rest + [last] && ([one] + rest)[1..] == rest;
  }

  lemma TwoBefore(w: World, cal: Calendar, one: Call, two: Call, rest: seq<Call>, last: Call)
    requires Allowed(w, one) && Allowed(Next(w, cal, one), two)
    requires AllAllowed(Next(Next(w, cal, one), cal, two), cal, rest + [last])
    ensures AllAllowed(w, cal, [one, two] + rest + [last])
    ensures Run(w, cal, [one, two] + rest) == Run(Next(Next(w, cal, one), cal, two), cal, rest)
  {
    OneBefore(Next(w, cal, one), cal, two, rest, last);
    OneBefore(w, cal, one, [two] + rest, last);
    assert [one] + ([two] + rest) == [one, two] + rest;
  }

  lemma ThreeBefore(w: World, cal: Calendar, one: Call, two: Call, three: Call, rest: seq<Call>, last: Call)
    requires Allowed(w, one) && Allowed(Next(w, cal, one), two) && Allowed(Next(Next(w, cal, one), cal, two), three)
    requires AllAllowed(Next(Next(Next(w, cal, one), cal, two), cal, three), cal, rest + [last])
    ensures AllAllowed(w, cal, [one, two, three] + rest + [last])
    ensures Run(w, cal, [one, two, three] + rest)
         == Run(Next(Next(Next(w, cal, one), cal, two), cal, three), cal, rest)
  {
    TwoBefore(Next(w, cal, one), cal, two, three, rest, last);
    OneBefore(w, cal, one, [two, three] + rest, last);
    assert [one] + ([two, three] + rest) == [one, two, three] + rest;
  }
}
