/**
 Occurrence identity. Every occurrence a claim opens for a schedule never started by hand is due
 strictly later than every due time at which that schedule was ever picked, so the unique identity
 (schedule, nominal due time) never makes a claim fail. Starting by hand can break this.
 */
module AutomationIdentity {
  import opened Wrappers
  import opened AutomationModel
  import opened AutomationInvariant
  import opened AutomationRuns
  import opened AutomationFencing
  import opened AutomationCalendar
  import Outbox

  ghost predicate OpenAt(s: Store, j: Id, o: Id) {
    o in s.occs && s.occs[o].schedule == j && Open(s.occs[o])
  }

  ghost predicate Ahead(picked: set<(Id, int)>, j: Id, due: int) {
    forall p | p in picked && p.0 == j :: p.1 < due
  }

  /** The calendar of `j` is ahead of all its past due times, or an occurrence is still open. */
  ghost predicate OnCalendar(s: Store, picked: set<(Id, int)>, j: Id)
    requires j in s.jobs
  {
    && s.jobs[j].manualResumeAt.None?
    && (forall o | o in s.occs && s.occs[o].schedule == j :: (j, s.occs[o].nominalDueAt) in picked)
    && (s.jobs[j].enabled ==> (exists o :: OpenAt(s, j, o)) || Ahead(picked, j, s.jobs[j].nextRunAt))
  }

  ghost predicate PickedBy(picked: set<(Id, int)>, nextId: Id, clock: int) {
    forall p | p in picked :: p.0 < nextId && p.1 <= clock
  }

  ghost predicate Identities(w: World) {
    && PickedBy(w.picked, w.store.nextId, w.clock)
    && forall j | j in w.store.jobs && j !in w.manual :: OnCalendar(w.store, w.picked, j)
  }

  /** Occurrences of `j` are kept or, when closed, dropped; the open one stays open. */
  ghost predicate SameOccurrences(s: Store, t: Store, j: Id) {
    && (forall o | o in t.occs && t.occs[o].schedule == j ::
          o in s.occs && s.occs[o].schedule == j && s.occs[o].nominalDueAt == t.occs[o].nominalDueAt)
    && (forall o | OpenAt(s, j, o) :: OpenAt(t, j, o))
  }

  lemma CalendarCarriesOver(s: Store, t: Store, picked: set<(Id, int)>, j: Id)
    requires j in s.jobs && OnCalendar(s, picked, j) && SameOccurrences(s, t, j)
    requires j in t.jobs && t.jobs[j].manualResumeAt.None?
    requires t.jobs[j].enabled ==>
               (s.jobs[j].enabled && t.jobs[j].nextRunAt == s.jobs[j].nextRunAt)
               || Ahead(picked, j, t.jobs[j].nextRunAt)
    ensures OnCalendar(t, picked, j)
  {
    if s.jobs[j].enabled && exists o :: OpenAt(s, j, o) {
      var o :| OpenAt(s, j, o);
      assert OpenAt(t, j, o);
    }
  }

  lemma ForgettingKeepsOccurrences(s: Store, t: Store, j: Id)
    requires OnlyForgets(s, t)
    ensures SameOccurrences(s, t, j)
  {
  }

  lemma UpdateKeepsCalendar(s: Store, picked: set<(Id, int)>, cal: Calendar, id: Id, patch: Patch, owner: Owner,
          now: int, j: Id)
    requires Advances(cal) && PickedBy(picked, s.nextId, now)
    requires j in s.jobs && OnCalendar(s, picked, j) && Update(s, cal, id, patch, owner, now).Done?
    ensures var t := Update(s, cal, id, patch, owner, now).store; j in t.jobs && OnCalendar(t, picked, j)
  {
    CalendarCarriesOver(s, Update(s, cal, id, patch, owner, now).store, picked, j);
  }

  lemma SetEnabledKeepsCalendar(s: Store, picked: set<(Id, int)>, cal: Calendar, id: Id, enabled: bool, owner: Owner,
          now: int, j: Id)
    requires Advances(cal) && PickedBy(picked, s.nextId, now)
    requires j in s.jobs && OnCalendar(s, picked, j) && SetEnabled(s, cal, id, enabled, owner, now).Done?
    ensures var t := SetEnabled(s, cal, id, enabled, owner, now).store; j in t.jobs && OnCalendar(t, picked, j)
  {
    CalendarCarriesOver(s, SetEnabled(s, cal, id, enabled, owner, now).store, picked, j);
  }

  lemma RunNowKeepsCalendar(s: Store, picked: set<(Id, int)>, id: Id, owner: Owner, now: int, j: Id)
    requires j in s.jobs && OnCalendar(s, picked, j) && (j == id ==> !RunNow(s, id, owner, now).1)
    ensures var t := RunNow(s, id, owner, now).0; j in t.jobs && OnCalendar(t, picked, j)
  {
    CalendarCarriesOver(s, RunNow(s, id, owner, now).0, picked, j);
  }

  lemma RemoveKeepsCalendar(s: Store, picked: set<(Id, int)>, id: Id, owner: Owner, j: Id)
    requires j in s.jobs && OnCalendar(s, picked, j) && j in Remove(s, id, owner).0.jobs
    ensures OnCalendar(Remove(s, id, owner).0, picked, j)
  {
    CalendarCarriesOver(s, Remove(s, id, owner).0, picked, j);
  }

  lemma CreateKeepsCalendar(s: Store, picked: set<(Id, int)>, clock: int, cal: Calendar, input: JobInput, now: int,
          j: Id)
    requires Inv(s, clock) && PickedBy(picked, s.nextId, now)
    requires Create(s, cal, input, now).Done? && j in Create(s, cal, input, now).store.jobs
    requires j in s.jobs ==> OnCalendar(s, picked, j)
    ensures OnCalendar(Create(s, cal, input, now).store, picked, j)
  {
    var t := Create(s, cal, input, now).store;
    forall o | o in s.occs
      ensures s.occs[o].schedule != s.nextId
    {
      assert OccurrenceOk(s, clock, o);
      assert JobOk(s, s.occs[o].schedule);
    }
    if j in s.jobs {
      assert JobOk(s, j);
      CalendarCarriesOver(s, t, picked, j);
    }
  }

  lemma ScheduleCallsKeepIdentities(w: World, cal: Calendar, c: Call)
    requires Inv(w.store, w.clock) && Identities(w) && Advances(cal) && Allowed(w, c) && OnSchedules(c.op)
    ensures Identities(Next(w, cal, c))
  {
    ScheduleCallsEvolve(w.store, cal, c);
    forall j | j in Next(w, cal, c).store.jobs && j !in Next(w, cal, c).manual
      ensures OnCalendar(Next(w, cal, c).store, w.picked, j)
    {
      ScheduleCallKeepsCalendar(w, cal, c, j);
    }
  }

  lemma ScheduleCallKeepsCalendar(w: World, cal: Calendar, c: Call, j: Id)
    requires Inv(w.store, w.clock) && PickedBy(w.picked, w.store.nextId, c.now) && Advances(cal) && OnSchedules(c.op)
    requires j in w.store.jobs && j !in w.manual ==> OnCalendar(w.store, w.picked, j)
    requires j in Next(w, cal, c).store.jobs && j !in Next(w, cal, c).manual
    ensures OnCalendar(Next(w, cal, c).store, w.picked, j)
  {
    var s := w.store;
    if !Apply(s, cal, c).threw {
      match c.op
      case OpCreate(input) => CreateKeepsCalendar(s, w.picked, w.clock, cal, input, c.now, j);
      case OpUpdate(id, patch, owner) => UpdateKeepsCalendar(s, w.picked, cal, id, patch, owner, c.now, j);
      case OpRunNow(id, owner) => RunNowKeepsCalendar(s, w.picked, id, owner, c.now, j);
      case OpSetEnabled(id, enabled, owner) => SetEnabledKeepsCalendar(s, w.picked, cal, id, enabled, owner, c.now, j);
      case OpRemove(id, owner) => RemoveKeepsCalendar(s, w.picked, id, owner, j);
    }
  }

  /** A settled run leaves its schedule at a due time after all past ones, or disabled. */
  lemma SettlingKeepsAhead(picked: set<(Id, int)>, nextId: Id, cal: Calendar, row: Job, claim: Claim, attempts: nat,
          now: int)
    requires Advances(cal) && PickedBy(picked, nextId, now) && claim.job.manualResumeAt.None?
    ensures AfterSuccess(row, claim, cal, now).Some? ==>
              var job := AfterSuccess(row, claim, cal, now).value;
              job.enabled ==> job.manualResumeAt.None? && Ahead(picked, claim.jobId, job.nextRunAt)
    ensures AfterFailure(row, claim, true, attempts, cal, now).Some? ==>
              var job := AfterFailure(row, claim, true, attempts, cal, now).value;
              job.manualResumeAt.None? && (job.enabled ==> Ahead(picked, claim.jobId, job.nextRunAt))
  {
  }

  lemma SettledOccurrences(s: Store, t: Store, u: Store, o: Id, row: Occurrence, j: Id)
    requires o in s.occs && t.occs == s.occs[o := row] && OnlyForgets(t, u)
    requires row.schedule == s.occs[o].schedule && row.nominalDueAt == s.occs[o].nominalDueAt
    requires s.occs[o].schedule == j ==> Open(row)
    ensures SameOccurrences(s, u, j)
  {
  }

  lemma CompletionKeepsIdentities(w: World, cal: Calendar, c: Call)
    requires Inv(w.store, w.clock) && Snapshots(w.store, w.issued) && Identities(w) && Advances(cal) && Allowed(w, c)
    requires c.op.OpComplete?
    ensures Identities(Next(w, cal, c))
  {
    var s, claim, res := w.store, c.op.claim, c.op.res;
    var r := Complete(s, cal, claim, res, c.now);
    if r.Done? && HoldsJob(s, claim, c.now) {
      var k := claim.jobId;
      var o, job, t := CompletionShape(s, cal, w.clock, claim, res, c.now);
      forall j | j in r.store.jobs && j !in w.manual
        ensures OnCalendar(r.store, w.picked, j)
      {
        if j != k {
          SettledOccurrences(s, t, r.store, o, Settled(s.occs[o], Verdict(s, claim, o, res), res, c.now), j);
          CalendarCarriesOver(s, r.store, w.picked, j);
        } else {
          SettlingKeepsAhead(w.picked, s.nextId, cal, s.jobs[k], claim, s.occs[o].attempts, c.now);
          if Verdict(s, claim, o, res).Retrying? {
            assert OpenAt(r.store, j, o);
          }
        }
      }
    }
  }

  lemma RenewingKeepsOccurrences(s: Store, cal: Calendar, c: Call, j: Id)
    requires c.op.OpRenew? || c.op.OpBind?
    requires j in Apply(s, cal, c).store.jobs
    ensures j in s.jobs && SameOccurrences(s, Apply(s, cal, c).store, j)
    ensures var job := Apply(s, cal, c).store.jobs[j];
      job.enabled == s.jobs[j].enabled && job.nextRunAt == s.jobs[j].nextRunAt
        && job.manualResumeAt == s.jobs[j].manualResumeAt
  {
  }

  lemma OtherCallsKeepIdentities(w: World, cal: Calendar, c: Call)
    requires Inv(w.store, w.clock) && Identities(w) && Allowed(w, c)
    requires c.op.OpRenew? || c.op.OpBind? || (!OnSchedules(c.op) && !OnClaims(c.op))
    ensures Identities(Next(w, cal, c))
  {
    var s := w.store;
    var t := Apply(s, cal, c).store;
    forall j | j in t.jobs && j !in w.manual
      ensures j in s.jobs && OnCalendar(t, w.picked, j)
    {
      if c.op.OpRenew? || c.op.OpBind? {
        RenewingKeepsOccurrences(s, cal, c, j);
      } else {
        DeliveryCallsKeepOccurrences(s, cal, c, j);
      }
      CalendarCarriesOver(s, t, w.picked, j);
    }
    CallsEvolve(s, w.clock, cal, c);
  }

  lemma DeliveryCallsKeepOccurrences(s: Store, cal: Calendar, c: Call, j: Id)
    requires !OnSchedules(c.op) && !OnClaims(c.op)
    ensures SameOccurrences(s, Apply(s, cal, c).store, j) && Apply(s, cal, c).store.jobs == s.jobs
  {
    DeliveryCallsEvolve(s, cal, c);
    match c.op
    case OpClaimDeliveries(rows, _, leaseMs) => ClaimDeliveriesEvolve(s, rows, c.now, leaseMs);
    case OpEnqueue(owner, text, key) =>
    case OpCompleteDelivery(id, token) =>
      if HoldsDelivery(s, id, token, c.now) {
        PruneAroundForgets(WithRow(s, id, Outbox.TextComplete(s.dels[id].row), c.now), s.dels[id]);
      }
    case OpFailDelivery(id, token) =>
      if HoldsDelivery(s, id, token, c.now) {
        PruneAroundForgets(WithRow(s, id, Outbox.TextFail(s.dels[id].row, c.now), c.now), s.dels[id]);
      }
    case OpDeferDelivery(id, token, retryAt) =>
  }

  // ---- claims ---------------------------------------------------------------------------------

  ghost predicate AllOnCalendar(s: Store, picked: set<(Id, int)>, manual: set<Id>) {
    forall j | j in s.jobs && j !in manual :: OnCalendar(s, picked, j)
  }

  lemma ClaimRowOccurrences(s: Store, clock: int, cal: Calendar, j: Id, k: Id, now: int, leaseMs: int)
    requires Inv(s, clock) && j in s.jobs && k != j && ClaimRow(s, cal, j, now, leaseMs).Done?
    ensures SameOccurrences(s, ClaimRow(s, cal, j, now, leaseMs).store, k)
  {
    forall o | o in s.occs
      ensures o < s.nextId
    {
      assert OccurrenceOk(s, clock, o);
    }
    if Misfired(s.jobs[j], now) {
      var next := if s.jobs[j].trigger.kind.At? then Some(s.jobs[j].nextRunAt) else cal(s.jobs[j].trigger, now);
      PassingKeepsOccurrences(s, j, k, next.value, now);
    } else {
      LeaseOccurrences(s, j, k, now, leaseMs);
    }
  }

  lemma PassingKeepsOccurrences(s: Store, j: Id, k: Id, next: int, now: int)
    requires j in s.jobs && k != j
    requires forall o | o in s.occs :: o < s.nextId
    ensures SameOccurrences(s, PruneHistory(PassedOver(s, j, next, now), j), k)
  {
    var t := PassedOver(s, j, next, now);
    assert SameOccurrences(s, t, k);
    PruningOnlyForgets(t, j);
    ForgettingKeepsOccurrences(t, PruneHistory(t, j), k);
  }

  lemma LeaseOccurrences(s: Store, j: Id, k: Id, now: int, leaseMs: int)
    requires j in s.jobs && k != j && LeaseRow(s, j, now, leaseMs).Done?
    requires forall o | o in s.occs :: o < s.nextId
    ensures SameOccurrences(s, LeaseRow(s, j, now, leaseMs).store, k)
  {
  }

  /** A schedule on its calendar opens an occurrence later than all its past ones, without conflict. */
  lemma OpensLater(s: Store, picked: set<(Id, int)>, clock: int, j: Id, now: int)
    requires Inv(s, clock) && clock <= now
    requires j in s.jobs && DueJob(s.jobs[j], now) && OnCalendar(s, picked, j)
    requires Resumable(s, j, now) == {}
    ensures Ahead(picked, j, s.jobs[j].nextRunAt) && !Taken(s, j, s.jobs[j].nextRunAt)
  {
    forall o | OpenAt(s, j, o)
      ensures false
    {
      DueMeansExpired(s, j, clock, now, o);
    }
  }

  lemma PickedRowOnCalendar(s: Store, picked: set<(Id, int)>, nextId: Id, clock: int, cal: Calendar, j: Id, now: int,
          leaseMs: int)
    requires Inv(s, clock) && clock <= now && Advances(cal)
    requires j in s.jobs && DueJob(s.jobs[j], now) && OnCalendar(s, picked, j)
    requires PickedBy(picked, nextId, now)
    requires ClaimRow(s, cal, j, now, leaseMs).Done?
    ensures
      var t := ClaimRow(s, cal, j, now, leaseMs).store;
      j in t.jobs && OnCalendar(t, picked + {(j, s.jobs[j].nextRunAt)}, j)
  {
    if Misfired(s.jobs[j], now) {
      var next := if s.jobs[j].trigger.kind.At? then Some(s.jobs[j].nextRunAt) else cal(s.jobs[j].trigger, now);
      PassedRowOnCalendar(s, picked, j, next.value, now);
    } else {
      LeasedRowOnCalendar(s, picked, j, now, leaseMs);
    }
  }

  /** A misfired run is passed over to a due time after all past ones. */
  lemma PassedRowOnCalendar(s: Store, picked: set<(Id, int)>, j: Id, next: int, now: int)
    requires j in s.jobs && OnCalendar(s, picked, j)
    requires !s.jobs[j].trigger.kind.At? ==> Ahead(picked, j, next) && s.jobs[j].nextRunAt < next
    ensures
      var t := PruneHistory(PassedOver(s, j, next, now), j);
      j in t.jobs && OnCalendar(t, picked + {(j, s.jobs[j].nextRunAt)}, j)
  {
    PruningOnlyForgets(PassedOver(s, j, next, now), j);
  }

  /** A leased run is open. */
  lemma LeasedRowOnCalendar(s: Store, picked: set<(Id, int)>, j: Id, now: int, leaseMs: int)
    requires j in s.jobs && OnCalendar(s, picked, j) && LeaseRow(s, j, now, leaseMs).Done?
    ensures
      var t := LeaseRow(s, j, now, leaseMs).store;
      j in t.jobs && OnCalendar(t, picked + {(j, s.jobs[j].nextRunAt)}, j)
  {
    var r := LeaseRow(s, j, now, leaseMs);
    assert OpenAt(r.store, j, r.result.value.occurrence);
  }

  ghost function Picks(s: Store, rows: seq<Id>): set<(Id, int)> {
    set j | j in rows && j in s.jobs :: (j, s.jobs[j].nextRunAt)
  }

  lemma PicksSplit(s: Store, t: Store, rows: seq<Id>)
    requires rows != [] && rows[0] in s.jobs && t.jobs.Keys == s.jobs.Keys
    requires forall i | 1 <= i < |rows| :: rows[i] in s.jobs && t.jobs[rows[i]] == s.jobs[rows[i]]
    ensures Picks(s, rows) == {(rows[0], s.jobs[rows[0]].nextRunAt)} + Picks(t, rows[1..])
  {
    forall p | p in Picks(s, rows)
      ensures p in {(rows[0], s.jobs[rows[0]].nextRunAt)} + Picks(t, rows[1..])
    {
      if p.0 != rows[0] {
        assert p.0 in rows[1..];
      }
    }
    forall p | p in Picks(t, rows[1..])
      ensures p in Picks(s, rows)
    {
      var i :| 0 <= i < |rows[1..]| && rows[1..][i] == p.0;
      assert rows[i + 1] == p.0;
    }
  }

  lemma OneRowKeepsIdentities(s: Store, picked: set<(Id, int)>, manual: set<Id>, clock: int, cal: Calendar, j: Id,
          now: int, leaseMs: int)
    requires Inv(s, clock) && clock <= now && Advances(cal)
    requires AllOnCalendar(s, picked, manual) && PickedBy(picked, s.nextId, now)
    requires j in s.jobs && DueJob(s.jobs[j], now) && ClaimRow(s, cal, j, now, leaseMs).Done?
    ensures
      var t := ClaimRow(s, cal, j, now, leaseMs).store;
      var more := picked + {(j, s.jobs[j].nextRunAt)};
      AllOnCalendar(t, more, manual) && PickedBy(more, t.nextId, now)
  {
    var t := ClaimRow(s, cal, j, now, leaseMs).store;
    var more := picked + {(j, s.jobs[j].nextRunAt)};
    ClaimedJobRow(s, cal, j, now, leaseMs);
    assert JobOk(s, j);
    forall k | k in t.jobs && k !in manual
      ensures OnCalendar(t, more, k)
    {
      if k == j {
        PickedRowOnCalendar(s, picked, s.nextId, clock, cal, j, now, leaseMs);
      } else {
        ClaimRowOccurrences(s, clock, cal, j, k, now, leaseMs);
        CalendarCarriesOver(s, t, picked, k);
        assert OnCalendar(t, picked, k);
      }
    }
  }

  lemma {:induction false} ClaimRowsKeepIdentities(s: Store, picked: set<(Id, int)>, manual: set<Id>, clock: int,
          cal: Calendar, rows: seq<Id>, now: int, leaseMs: int, claims: seq<Claim>)
    requires Inv(s, clock) && clock <= now && Advances(cal) && StillDue(s, rows, now)
    requires AllOnCalendar(s, picked, manual) && PickedBy(picked, s.nextId, now)
    requires ClaimRows(s, cal, rows, now, leaseMs, claims).Done?
    ensures
      var t := ClaimRows(s, cal, rows, now, leaseMs, claims).store;
      AllOnCalendar(t, picked + Picks(s, rows), manual) && PickedBy(picked + Picks(s, rows), t.nextId, now)
    decreases |rows|
  {
    if rows == [] {
      assert picked + Picks(s, rows) == picked;
    } else {
      var j := rows[0];
      var r := ClaimRow(s, cal, j, now, leaseMs);
      var more := picked + {(j, s.jobs[j].nextRunAt)};
      OneRowKeepsIdentities(s, picked, manual, clock, cal, j, now, leaseMs);
      ClaimedJobRow(s, cal, j, now, leaseMs);
      ClaimRowKeeps(s, cal, j, clock, now, leaseMs);
      RestStillDue(s, cal, rows, now, leaseMs);
      ClaimRowsKeepIdentities(r.store, more, manual, now, cal, rows[1..], now, leaseMs, Collect(claims, r.result));
      PicksSplit(s, r.store, rows);
      assert picked + Picks(s, rows) == more + Picks(r.store, rows[1..]);
    }
  }

  lemma NextKeepsIdentities(w: World, cal: Calendar, c: Call)
    requires Inv(w.store, w.clock) && Snapshots(w.store, w.issued) && Identities(w) && Advances(cal) && Allowed(w, c)
    ensures Identities(Next(w, cal, c))
  {
    if OnSchedules(c.op) {
      ScheduleCallsKeepIdentities(w, cal, c);
    } else if c.op.OpComplete? {
      CompletionKeepsIdentities(w, cal, c);
    } else if c.op.OpClaimDue? {
      if ClaimRows(w.store, cal, c.op.rows, c.now, c.op.leaseMs, []).Done? {
        ClaimRowsKeepIdentities(w.store, w.picked, w.manual, w.clock, cal, c.op.rows, c.now, c.op.leaseMs, []);
      }
    } else {
      OtherCallsKeepIdentities(w, cal, c);
    }
  }

  lemma {:induction false} RunsKeepIdentities(w: World, cal: Calendar, calls: seq<Call>)
    requires Inv(w.store, w.clock) && Snapshots(w.store, w.issued) && Identities(w) && Advances(cal)
             && AllAllowed(w, cal, calls)
    ensures
      var e := Run(w, cal, calls);
      Inv(e.store, e.clock) && Snapshots(e.store, e.issued) && Identities(e)
    decreases |calls|
  {
    if calls != [] {
      NextKeepsLeases(w, cal, calls[0]);
      NextKeepsSnapshots(w, cal, calls[0]);
      NextKeepsIdentities(w, cal, calls[0]);
      RunsKeepIdentities(Next(w, cal, calls[0]), cal, calls[1..]);
    }
  }

  /** Where computeNextRun finds a next due time, picking calendar schedules never throws. */
  lemma {:induction false} PickingNeverThrows(s: Store, picked: set<(Id, int)>, manual: set<Id>, clock: int,
          cal: Calendar, rows: seq<Id>, now: int, leaseMs: int, claims: seq<Claim>)
    requires Inv(s, clock) && clock <= now && Advances(cal) && StillDue(s, rows, now)
    requires AllOnCalendar(s, picked, manual) && PickedBy(picked, s.nextId, now)
    requires forall i | 0 <= i < |rows| :: rows[i] !in manual && cal(s.jobs[rows[i]].trigger, now).Some?
    ensures ClaimRows(s, cal, rows, now, leaseMs, claims).Done?
    decreases |rows|
  {
    if rows != [] {
      var j := rows[0];
      if Resumable(s, j, now) == {} {
        OpensLater(s, picked, clock, j, now);
      }
      var r := ClaimRow(s, cal, j, now, leaseMs);
      assert r.Done?;
      OneRowKeepsIdentities(s, picked, manual, clock, cal, j, now, leaseMs);
      ClaimRowKeeps(s, cal, j, clock, now, leaseMs);
      RestStillDue(s, cal, rows, now, leaseMs);
      ClaimRowIsLocal(s, cal, j, now, leaseMs);
      PickingNeverThrows(r.store, picked + {(j, s.jobs[j].nextRunAt)}, manual, now, cal, rows[1..], now, leaseMs,
        Collect(claims, r.result));
    }
  }

  /** Every first attempt handed out by a claim is due after all the schedule's past due times. */
  ghost predicate FirstAttemptsAhead(claims: seq<Claim>, past: set<(Id, int)>, manual: set<Id>) {
    forall x | x in claims && x.jobId !in manual && x.attempt == 1 :: Ahead(past, x.jobId, x.nominalDueAt)
  }

  lemma PickedClaimIsLater(s: Store, picked: set<(Id, int)>, clock: int, cal: Calendar, j: Id, now: int, leaseMs: int)
    requires Inv(s, clock) && clock <= now && j in s.jobs && DueJob(s.jobs[j], now) && OnCalendar(s, picked, j)
    requires ClaimRow(s, cal, j, now, leaseMs).Done?
    ensures
      var r := ClaimRow(s, cal, j, now, leaseMs);
      r.result.Some? && r.result.value.attempt == 1 ==> Ahead(picked, j, r.result.value.nominalDueAt)
  {
    var resumable := Resumable(s, j, now);
    if resumable == {} {
      OpensLater(s, picked, clock, j, now);
    } else {
      assert OccurrenceOk(s, clock, Latest(s, resumable));
    }
  }

  lemma {:induction false} FirstAttemptsAreLater(s: Store, picked: set<(Id, int)>, manual: set<Id>, clock: int,
          cal: Calendar, rows: seq<Id>, now: int, leaseMs: int, claims: seq<Claim>, past: set<(Id, int)>)
    requires Inv(s, clock) && clock <= now && Advances(cal) && StillDue(s, rows, now)
    requires AllOnCalendar(s, picked, manual) && PickedBy(picked, s.nextId, now) && past <= picked
    requires FirstAttemptsAhead(claims, past, manual)
    requires ClaimRows(s, cal, rows, now, leaseMs, claims).Done?
    ensures FirstAttemptsAhead(ClaimRows(s, cal, rows, now, leaseMs, claims).result, past, manual)
    decreases |rows|
  {
    if rows != [] {
      var j := rows[0];
      var r := ClaimRow(s, cal, j, now, leaseMs);
      ClaimedJobRow(s, cal, j, now, leaseMs);
      if j !in manual {
        PickedClaimIsLater(s, picked, clock, cal, j, now, leaseMs);
      }
      OneRowKeepsIdentities(s, picked, manual, clock, cal, j, now, leaseMs);
      ClaimRowKeeps(s, cal, j, clock, now, leaseMs);
      RestStillDue(s, cal, rows, now, leaseMs);
      FirstAttemptsAreLater(r.store, picked + {(j, s.jobs[j].nextRunAt)}, manual, now, cal, rows[1..], now, leaseMs,
                            Collect(claims, r.result), past);
    }
  }

  /**
   Occurrence identity on every run: where computeNextRun finds next due times, a claim of schedules
   never started by hand does not throw, and each first attempt it hands out, skips, retries, lease
   expiries, updates and pauses notwithstanding, is due strictly after every due time at which its
   schedule was picked before.
   */
  lemma OccurrencesAreLater(cal: Calendar, clock: int, calls: seq<Call>, c: Call)
    requires Advances(cal) && AllAllowed(Start(clock), cal, calls + [c]) && c.op.OpClaimDue?
    ensures
      var w := Run(Start(clock), cal, calls);
      var e := Apply(w.store, cal, c);
      && FirstAttemptsAhead(e.claims, w.picked, w.manual)
      && ((forall j | j in c.op.rows ::
             j in w.store.jobs && j !in w.manual && cal(w.store.jobs[j].trigger, c.now).Some?) ==> !e.threw)
  {
    EmptyOk(clock);
    LastCall(Start(clock), cal, calls, c);
    RunsKeepIdentities(Start(clock), cal, calls);
    var w := Run(Start(clock), cal, calls);
    if ClaimRows(w.store, cal, c.op.rows, c.now, c.op.leaseMs, []).Done? {
      FirstAttemptsAreLater(w.store, w.picked, w.manual, w.clock, cal, c.op.rows, c.now, c.op.leaseMs, [], w.picked);
    } else if forall j | j in c.op.rows ::
                j in w.store.jobs && j !in w.manual && cal(w.store.jobs[j].trigger, c.now).Some?
    {
      PickingNeverThrows(w.store, w.picked, w.manual, w.clock, cal, c.op.rows, c.now, c.op.leaseMs, []);
    }
  }
}
