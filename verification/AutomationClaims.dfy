/**
 What the claim statement, the renewal and the binding of a claim do, column by column: which schedules
 are run, skipped or left, what lease is written where, and that every claim handed out describes the
 occurrence it leases.
 */
module AutomationClaims {
  import opened Wrappers
  import opened AutomationModel
  import opened AutomationInvariant
  import opened AutomationRuns
  import opened AutomationFencing

  /** What a claim passes on of a column: an empty string counts as nothing. */
  function PassedOn(column: Option<string>): Option<string> {
    if column.Some? && column.value == "" then None else column
  }

  /** The claim describes its schedule and its occurrence as they stand, both leased under one token until `until`. */
  ghost predicate Handed(t: Store, x: Claim, now: int, until: int) {
    && x.jobId in t.jobs && x.occurrence in t.occs
    && x.job == t.jobs[x.jobId]
    && x.job.token.Some? && x.job.lockedUntil == Some(until)
    && var o := t.occs[x.occurrence];
       && o.schedule == x.jobId && o.status == Status.Claimed
       && o.token == x.job.token && o.expiresAt == Some(until) && o.updatedAt == now
       && x.nominalDueAt == o.nominalDueAt && x.attempt == o.attempts
       && x.objective == PassedOn(o.objective) && x.taskRun == PassedOn(o.taskRun)
  }

  /** The occurrence of a schedule that is open, if any. */
  ghost predicate HasOpen(s: Store, j: Id, o: Id) {
    o in s.occs && s.occs[o].schedule == j && (s.occs[o].status == Status.Claimed || s.occs[o].status == Retrying)
  }

  /** What a lease writes: the two rows, and which occurrence it is. */
  ghost predicate Leases(s: Store, t: Store, j: Id, x: Claim, now: int, until: int)
    requires j in s.jobs
  {
    && x.jobId == j && Handed(t, x, now, until)
    && s.nextId <= x.job.token.value < t.nextId
    && t.jobs == s.jobs[j := s.jobs[j].(lockedUntil := Some(until), token := x.job.token)]
    && t.dels == s.dels
    && t.occs == s.occs[x.occurrence := t.occs[x.occurrence]]
  }

  /**
   How a claim follows from the store it was made in: it goes on with the open occurrence of its schedule,
   one attempt further and with what was bound to it; or, if none is open, it is the first attempt at a new
   occurrence, due when the schedule is and bound to nothing.
   */
  ghost predicate Follows(s: Store, x: Claim) {
    && x.jobId in s.jobs
    && if HasOpen(s, x.jobId, x.occurrence)
       then
         var o := s.occs[x.occurrence];
         && x.nominalDueAt == o.nominalDueAt && x.attempt == o.attempts + 1
         && x.objective == PassedOn(o.objective) && x.taskRun == PassedOn(o.taskRun)
       else
         && (forall o :: !HasOpen(s, x.jobId, o))
         && s.nextId <= x.occurrence && x.nominalDueAt == s.jobs[x.jobId].nextRunAt
         && x.attempt == 1 && x.objective == None && x.taskRun == None
  }

  lemma LeaseWrites(s: Store, clock: int, j: Id, now: int, leaseMs: int)
    requires Inv(s, clock) && clock <= now && j in s.jobs && LeaseRow(s, j, now, leaseMs).Done?
    ensures LeaseRow(s, j, now, leaseMs).result.Some?
    ensures Leases(s, LeaseRow(s, j, now, leaseMs).store, j, LeaseRow(s, j, now, leaseMs).result.value, now,
                   now + leaseMs)
  {
    var r := LeaseRow(s, j, now, leaseMs);
    var o := r.result.value.occurrence;
    forall p | p in s.occs
      ensures p < s.nextId
    {
      assert OccurrenceOk(s, clock, p);
    }
  }

  lemma LeaseFollows(s: Store, clock: int, j: Id, now: int, leaseMs: int)
    requires Inv(s, clock) && clock <= now && j in s.jobs && DueJob(s.jobs[j], now)
    requires LeaseRow(s, j, now, leaseMs).Done?
    ensures Follows(s, LeaseRow(s, j, now, leaseMs).result.value)
  {
    forall o | HasOpen(s, j, o)
      ensures o in Resumable(s, j, now)
    {
      DueMeansExpired(s, j, clock, now, o);
    }
    forall o | o in s.occs
      ensures o < s.nextId
    {
      assert OccurrenceOk(s, clock, o);
    }
  }

  /** A due time whose identity is taken while nothing is open is the one thing that makes a lease throw. */
  lemma LeaseThrowsExactly(s: Store, clock: int, j: Id, now: int, leaseMs: int)
    requires Inv(s, clock) && clock <= now && j in s.jobs && DueJob(s.jobs[j], now)
    ensures LeaseRow(s, j, now, leaseMs).Threw? <==>
              && (forall o :: !HasOpen(s, j, o))
              && exists o :: o in s.occs && s.occs[o].schedule == j && s.occs[o].nominalDueAt == s.jobs[j].nextRunAt
  {
    forall o | HasOpen(s, j, o)
      ensures o in Resumable(s, j, now)
    {
      DueMeansExpired(s, j, clock, now, o);
    }
    forall o | o in Resumable(s, j, now)
      ensures HasOpen(s, j, o)
    {
    }
  }

  // ---- skipping -------------------------------------------------------------------------------

  /** The schedule skips late runs, and its due time is further back than its grace. */
  predicate TooLate(job: Job, now: int) {
    job.skipMisfires && job.nextRunAt + job.graceMs < now
  }

  /** A missed due time is stepped over: the schedule moves on, or ends if it was to run once. */
  ghost predicate MovesOn(job: Job, cal: Calendar, now: int, moved: Job) {
    if job.trigger.kind.At? then moved == job.(enabled := false, lockedUntil := None, token := None)
    else
      && cal(job.trigger, now).Some?
      && moved == job.(enabled := true, nextRunAt := cal(job.trigger, now).value, lockedUntil := None, token := None)
  }

  /** The missed due time is on record, closed and with no attempt, unless it was before or is pruned. */
  ghost predicate Records(s: Store, t: Store, j: Id, now: int)
    requires j in s.jobs
  {
    && (forall o | o in t.occs && o !in s.occs ::
          && s.nextId <= o < t.nextId
          && t.occs[o] == Occurrence(j, s.jobs[j].nextRunAt, Skipped, 0, None, None, None, None, now))
    && (forall o | o in t.occs && o in s.occs :: t.occs[o] == s.occs[o])
    && (forall o | o in s.occs && (s.occs[o].status == Status.Claimed || s.occs[o].status == Retrying) :: o in t.occs)
  }

  lemma SkipWrites(s: Store, clock: int, cal: Calendar, j: Id, now: int)
    requires Inv(s, clock) && clock <= now && j in s.jobs
    ensures SkipRow(s, cal, j, now).Threw? <==> !s.jobs[j].trigger.kind.At? && cal(s.jobs[j].trigger, now).None?
    ensures SkipRow(s, cal, j, now).Done? ==>
              var t := SkipRow(s, cal, j, now).store;
              && SkipRow(s, cal, j, now).result.None?
              && j in t.jobs && t.jobs == s.jobs[j := t.jobs[j]] && MovesOn(s.jobs[j], cal, now, t.jobs[j])
              && t.dels == s.dels && Records(s, t, j, now)
  {
    var r := SkipRow(s, cal, j, now);
    if r.Done? {
      var next := if s.jobs[j].trigger.kind.At? then s.jobs[j].nextRunAt else cal(s.jobs[j].trigger, now).value;
      var passed := PassedOver(s, j, next, now);
      PruningOnlyForgets(passed, j);
      forall o | o in s.occs
        ensures o < s.nextId
      {
        assert OccurrenceOk(s, clock, o);
      }
    }
  }

  // ---- the claim statement --------------------------------------------------------------------

  /** A claim statement hands out one claim for each selected schedule that is not too late, in that order. */
  ghost function RunRows(s: Store, rows: seq<Id>, now: int): seq<Id>
    requires forall i | 0 <= i < |rows| :: rows[i] in s.jobs
  {
    if rows == [] then []
    else (if TooLate(s.jobs[rows[0]], now) then [] else [rows[0]]) + RunRows(s, rows[1..], now)
  }

  function JobIds(claims: seq<Claim>): seq<Id> {
    seq(|claims|, i requires 0 <= i < |claims| => claims[i].jobId)
  }

  /** A row of the claim loop leaves the schedules and open occurrences of others as they were. */
  lemma OthersStayHanded(s: Store, clock: int, cal: Calendar, j: Id, now: int, leaseMs: int, x: Claim)
    requires Inv(s, clock) && clock <= now && j in s.jobs && ClaimRow(s, cal, j, now, leaseMs).Done?
    requires Handed(s, x, now, now + leaseMs) && x.jobId != j
    ensures Handed(ClaimRow(s, cal, j, now, leaseMs).store, x, now, now + leaseMs)
  {
    ClaimRowIsLocal(s, cal, j, now, leaseMs);
    if Misfired(s.jobs[j], now) {
      SkipWrites(s, clock, cal, j, now);
    } else {
      LeaseWrites(s, clock, j, now, leaseMs);
      LeaseKeepsOthers(s, clock, j, now, leaseMs, x.occurrence);
    }
  }

  lemma LeaseKeepsOthers(s: Store, clock: int, j: Id, now: int, leaseMs: int, o: Id)
    requires Inv(s, clock) && clock <= now && j in s.jobs && LeaseRow(s, j, now, leaseMs).Done?
    requires o in s.occs && s.occs[o].schedule != j
    ensures o in LeaseRow(s, j, now, leaseMs).store.occs
            && LeaseRow(s, j, now, leaseMs).store.occs[o] == s.occs[o]
  {
    assert OccurrenceOk(s, clock, o);
  }

  /** What one row of the loop adds to the claims. */
  lemma RowHands(s: Store, clock: int, cal: Calendar, j: Id, now: int, leaseMs: int)
    requires Inv(s, clock) && clock <= now && j in s.jobs && ClaimRow(s, cal, j, now, leaseMs).Done?
    ensures var r := ClaimRow(s, cal, j, now, leaseMs);
      if TooLate(s.jobs[j], now) then r.result.None?
      else r.result.Some? && r.result.value.jobId == j && Handed(r.store, r.result.value, now, now + leaseMs)
  {
    if Misfired(s.jobs[j], now) {
      SkipWrites(s, clock, cal, j, now);
    } else {
      LeaseWrites(s, clock, j, now, leaseMs);
    }
  }

  lemma RunRowsAlike(s: Store, t: Store, rows: seq<Id>, now: int)
    requires forall i | 0 <= i < |rows| :: rows[i] in s.jobs && rows[i] in t.jobs && t.jobs[rows[i]] == s.jobs[rows[i]]
    ensures RunRows(t, rows, now) == RunRows(s, rows, now)
  {
  }

  lemma MoreHanded(s: Store, clock: int, cal: Calendar, rows: seq<Id>, now: int, leaseMs: int, claims: seq<Claim>,
          x: Claim)
    requires Inv(s, clock) && clock <= now && StillDue(s, rows, now) && rows != []
    requires forall x | x in claims :: Handed(s, x, now, now + leaseMs) && x.jobId !in rows
    requires ClaimRow(s, cal, rows[0], now, leaseMs).Done?
    requires x in Collect(claims, ClaimRow(s, cal, rows[0], now, leaseMs).result)
    ensures Handed(ClaimRow(s, cal, rows[0], now, leaseMs).store, x, now, now + leaseMs) && x.jobId !in rows[1..]
  {
    if x in claims {
      assert rows[0] in rows && forall j | j in rows[1..] :: j in rows;
      OthersStayHanded(s, clock, cal, rows[0], now, leaseMs, x);
    } else {
      RowHands(s, clock, cal, rows[0], now, leaseMs);
    }
  }

  lemma {:induction false} RowsHand(s: Store, clock: int, cal: Calendar, rows: seq<Id>, now: int, leaseMs: int,
          claims: seq<Claim>)
    requires Inv(s, clock) && clock <= now && StillDue(s, rows, now)
    requires forall x | x in claims :: Handed(s, x, now, now + leaseMs) && x.jobId !in rows
    requires ClaimRows(s, cal, rows, now, leaseMs, claims).Done?
    ensures
      var r := ClaimRows(s, cal, rows, now, leaseMs, claims);
      forall x | x in r.result :: Handed(r.store, x, now, now + leaseMs)
    decreases |rows|
  {
    if rows != [] {
      var r := ClaimRow(s, cal, rows[0], now, leaseMs);
      var more := Collect(claims, r.result);
      ClaimRowKeeps(s, cal, rows[0], clock, now, leaseMs);
      RestStillDue(s, cal, rows, now, leaseMs);
      forall x | x in more
        ensures Handed(r.store, x, now, now + leaseMs) && x.jobId !in rows[1..]
      {
        MoreHanded(s, clock, cal, rows, now, leaseMs, claims, x);
      }
      RowsHand(r.store, now, cal, rows[1..], now, leaseMs, more);
    }
  }

  lemma CollectIds(claims: seq<Claim>, claim: Option<Claim>)
    ensures JobIds(Collect(claims, claim)) == JobIds(claims) + if claim.Some? then [claim.value.jobId] else []
  {
  }

  lemma RowRuns(s: Store, clock: int, cal: Calendar, rows: seq<Id>, now: int, leaseMs: int)
    requires Inv(s, clock) && clock <= now && StillDue(s, rows, now) && rows != []
    requires ClaimRow(s, cal, rows[0], now, leaseMs).Done?
    ensures
      var r := ClaimRow(s, cal, rows[0], now, leaseMs);
      && StillDue(r.store, rows[1..], now)
      && RunRows(s, rows, now) ==
           (if r.result.Some? then [r.result.value.jobId] else []) + RunRows(r.store, rows[1..], now)
  {
    var r := ClaimRow(s, cal, rows[0], now, leaseMs);
    RestStillDue(s, cal, rows, now, leaseMs);
    RowHands(s, clock, cal, rows[0], now, leaseMs);
    ClaimRowIsLocal(s, cal, rows[0], now, leaseMs);
    RunRowsAlike(s, r.store, rows[1..], now);
  }

  lemma {:induction false} RowsRun(s: Store, clock: int, cal: Calendar, rows: seq<Id>, now: int, leaseMs: int,
          claims: seq<Claim>)
    requires Inv(s, clock) && clock <= now && StillDue(s, rows, now)
    requires ClaimRows(s, cal, rows, now, leaseMs, claims).Done?
    ensures JobIds(ClaimRows(s, cal, rows, now, leaseMs, claims).result) == JobIds(claims) + RunRows(s, rows, now)
    decreases |rows|
  {
    if rows != [] {
      var r := ClaimRow(s, cal, rows[0], now, leaseMs);
      ClaimRowKeeps(s, cal, rows[0], clock, now, leaseMs);
      RowRuns(s, clock, cal, rows, now, leaseMs);
      CollectIds(claims, r.result);
      RowsRun(r.store, now, cal, rows[1..], now, leaseMs, Collect(claims, r.result));
      Regroup(JobIds(claims), if r.result.Some? then [r.result.value.jobId] else [], RunRows(r.store, rows[1..], now));
    }
  }

  lemma Regroup(a: seq<Id>, b: seq<Id>, c: seq<Id>)
    ensures (a + b) + c == a + (b + c)
  {
  }

  /** Later in the loop, the schedules still to come and their open occurrences are as they were at its start. */
  ghost predicate Untouched(s: Store, t: Store, rows: seq<Id>) {
    && s.nextId <= t.nextId
    && forall j | j in rows ::
         && j in s.jobs && j in t.jobs && t.jobs[j] == s.jobs[j]
         && forall o :: (HasOpen(t, j, o) <==> HasOpen(s, j, o)) && (HasOpen(s, j, o) ==> t.occs[o] == s.occs[o])
  }

  lemma RowLeavesOthers(s: Store, clock: int, cal: Calendar, j: Id, now: int, leaseMs: int, k: Id)
    requires Inv(s, clock) && clock <= now && j in s.jobs && ClaimRow(s, cal, j, now, leaseMs).Done?
    requires k in s.jobs && k != j
    ensures Untouched(s, ClaimRow(s, cal, j, now, leaseMs).store, [k])
  {
    ClaimRowIsLocal(s, cal, j, now, leaseMs);
    ClaimRowEvolves(s, cal, j, now, leaseMs);
    if Misfired(s.jobs[j], now) {
      SkipWrites(s, clock, cal, j, now);
    } else {
      LeaseWrites(s, clock, j, now, leaseMs);
    }
  }

  lemma UntouchedFollows(s: Store, t: Store, rows: seq<Id>, x: Claim)
    requires Untouched(s, t, rows) && x.jobId in rows && Follows(t, x)
    ensures Follows(s, x)
  {
  }

  lemma {:induction false} RowsFollow(s: Store, clock: int, cal: Calendar, rows: seq<Id>, now: int, leaseMs: int,
          claims: seq<Claim>, first: Store)
    requires Inv(s, clock) && clock <= now && StillDue(s, rows, now) && Untouched(first, s, rows)
    requires forall x | x in claims :: Follows(first, x)
    requires ClaimRows(s, cal, rows, now, leaseMs, claims).Done?
    ensures forall x | x in ClaimRows(s, cal, rows, now, leaseMs, claims).result :: Follows(first, x)
    decreases |rows|
  {
    if rows != [] {
      var r := ClaimRow(s, cal, rows[0], now, leaseMs);
      ClaimRowKeeps(s, cal, rows[0], clock, now, leaseMs);
      RestStillDue(s, cal, rows, now, leaseMs);
      if !Misfired(s.jobs[rows[0]], now) {
        LeaseFollows(s, clock, rows[0], now, leaseMs);
        RowHands(s, clock, cal, rows[0], now, leaseMs);
        UntouchedFollows(first, s, rows, r.result.value);
      }
      RestUntouched(s, clock, cal, rows, now, leaseMs, first);
      RowsFollow(r.store, now, cal, rows[1..], now, leaseMs, Collect(claims, r.result), first);
    }
  }

  lemma RestUntouched(s: Store, clock: int, cal: Calendar, rows: seq<Id>, now: int, leaseMs: int, first: Store)
    requires Inv(s, clock) && clock <= now && StillDue(s, rows, now) && Untouched(first, s, rows) && rows != []
    requires ClaimRow(s, cal, rows[0], now, leaseMs).Done?
    ensures Untouched(first, ClaimRow(s, cal, rows[0], now, leaseMs).store, rows[1..])
  {
    ClaimRowEvolves(s, cal, rows[0], now, leaseMs);
    forall k | k in rows[1..]
      ensures k in rows && k in s.jobs && k != rows[0]
      ensures Untouched(s, ClaimRow(s, cal, rows[0], now, leaseMs).store, [k])
    {
      RowLeavesOthers(s, clock, cal, rows[0], now, leaseMs, k);
    }
    forall k | k in rows[1..]
      ensures k in [k]
    {
    }
  }

  /** What the claim loop leaves of schedule `j`: moved on, leased, or as it was. */
  ghost predicate Treated(s: Store, t: Store, cal: Calendar, rows: seq<Id>, now: int, until: int, j: Id)
    requires j in s.jobs
  {
    && j in t.jobs
    && if j !in rows then t.jobs[j] == s.jobs[j]
       else if TooLate(s.jobs[j], now) then MovesOn(s.jobs[j], cal, now, t.jobs[j])
       else
         && t.jobs[j].token.Some? && s.nextId <= t.jobs[j].token.value
         && t.jobs[j] == s.jobs[j].(lockedUntil := Some(until), token := t.jobs[j].token)
  }

  lemma {:induction false} RowsTreat(s: Store, clock: int, cal: Calendar, rows: seq<Id>, now: int, leaseMs: int,
          claims: seq<Claim>, j: Id)
    requires Inv(s, clock) && clock <= now && StillDue(s, rows, now) && j in s.jobs
    requires ClaimRows(s, cal, rows, now, leaseMs, claims).Done?
    ensures
      var r := ClaimRows(s, cal, rows, now, leaseMs, claims);
      Treated(s, r.store, cal, rows, now, now + leaseMs, j)
    decreases |rows|
  {
    if rows != [] {
      var r := ClaimRow(s, cal, rows[0], now, leaseMs);
      ClaimRowKeeps(s, cal, rows[0], clock, now, leaseMs);
      RestStillDue(s, cal, rows, now, leaseMs);
      ClaimRowIsLocal(s, cal, rows[0], now, leaseMs);
      ClaimRowEvolves(s, cal, rows[0], now, leaseMs);
      if j == rows[0] {
        assert j !in rows[1..];
        if Misfired(s.jobs[j], now) {
          SkipWrites(s, clock, cal, j, now);
        } else {
          LeaseWrites(s, clock, j, now, leaseMs);
        }
      }
      RowsTreat(r.store, now, cal, rows[1..], now, leaseMs, Collect(claims, r.result), j);
    }
  }

  lemma ClaimStatement(w: World, cal: Calendar, c: Call)
    requires Inv(w.store, w.clock) && Allowed(w, c) && c.op.OpClaimDue? && !Apply(w.store, cal, c).threw
    ensures
      var e := Apply(w.store, cal, c);
      forall x | x in e.claims :: Handed(e.store, x, c.now, c.now + c.op.leaseMs) && Follows(w.store, x)
  {
    RowsHand(w.store, w.clock, cal, c.op.rows, c.now, c.op.leaseMs, []);
    RowsFollow(w.store, w.clock, cal, c.op.rows, c.now, c.op.leaseMs, [], w.store);
  }

  lemma ClaimsAreHanded(s: Store, clock: int, cal: Calendar, rows: seq<Id>, now: int, limit: int, leaseMs: int,
          t: Store, claims: seq<Claim>)
    requires Inv(s, clock) && clock <= now && SelectsDue(s, rows, now, limit)
    requires ClaimRows(s, cal, rows, now, leaseMs, []) == Done(t, claims)
    ensures forall x | x in claims :: Handed(t, x, now, now + leaseMs)
  {
    RowsHand(s, clock, cal, rows, now, leaseMs, []);
  }

  lemma ClaimStatementRuns(w: World, cal: Calendar, c: Call)
    requires Inv(w.store, w.clock) && Allowed(w, c) && c.op.OpClaimDue? && !Apply(w.store, cal, c).threw
    ensures forall i | 0 <= i < |c.op.rows| :: c.op.rows[i] in w.store.jobs
    ensures JobIds(Apply(w.store, cal, c).claims) == RunRows(w.store, c.op.rows, c.now)
  {
    RowsRun(w.store, w.clock, cal, c.op.rows, c.now, c.op.leaseMs, []);
    assert JobIds([]) + RunRows(w.store, c.op.rows, c.now) == RunRows(w.store, c.op.rows, c.now);
  }

  lemma ClaimStatementTreats(w: World, cal: Calendar, c: Call, j: Id)
    requires Inv(w.store, w.clock) && Allowed(w, c) && c.op.OpClaimDue? && !Apply(w.store, cal, c).threw
    requires j in w.store.jobs
    ensures Treated(w.store, Apply(w.store, cal, c).store, cal, c.op.rows, c.now, c.now + c.op.leaseMs, j)
  {
    RowsTreat(w.store, w.clock, cal, c.op.rows, c.now, c.op.leaseMs, [], j);
  }

  /**
   The claim statement, at any moment of any run. Each claim it returns describes an occurrence of the new
   store: its due time, its attempts, and the objective and task run bound to it; and it goes on with the
   occurrence its schedule had open, or opens the next one. There is one claim for each selected schedule
   that is not too late, in the order selected; those too late are stepped over, and all other schedules stay
   as they were.
   */
  lemma ClaimsDescribeOccurrences(cal: Calendar, clock: int, calls: seq<Call>, c: Call, s: Store, e: Effect)
    requires AllAllowed(Start(clock), cal, calls + [c]) && c.op.OpClaimDue?
    requires s == Run(Start(clock), cal, calls).store && e == Apply(s, cal, c) && !e.threw
    ensures forall i | 0 <= i < |c.op.rows| :: c.op.rows[i] in s.jobs
    ensures forall x | x in e.claims :: Handed(e.store, x, c.now, c.now + c.op.leaseMs) && Follows(s, x)
    ensures JobIds(e.claims) == RunRows(s, c.op.rows, c.now)
    ensures forall j | j in s.jobs :: Treated(s, e.store, cal, c.op.rows, c.now, c.now + c.op.leaseMs, j)
  {
    EmptyOk(clock);
    LastCall(Start(clock), cal, calls, c);
    ClaimStatement(Run(Start(clock), cal, calls), cal, c);
    ClaimStatementRuns(Run(Start(clock), cal, calls), cal, c);
    forall j | j in s.jobs
      ensures Treated(s, e.store, cal, c.op.rows, c.now, c.now + c.op.leaseMs, j)
    {
      ClaimStatementTreats(Run(Start(clock), cal, calls), cal, c, j);
    }
  }

  /** Which schedules a claim statement selects: enabled, due, with no lease running; the earliest, in order. */
  lemma SelectsExactly(s: Store, rows: seq<Id>, now: int, limit: int)
    ensures SelectsDue(s, rows, now, limit) <==>
              var most := if limit < 1 then 1 else if limit > 20 then 20 else limit;
              && |rows| <= most
              && (forall i | 0 <= i < |rows| :: IsFree(s, rows[i], now))
              && (forall i, k | 0 <= i < k < |rows| ::
                    rows[i] != rows[k] && s.jobs[rows[i]].nextRunAt <= s.jobs[rows[k]].nextRunAt)
              && (forall j | IsFree(s, j, now) && j !in rows ::
                    |rows| == most && forall i | 0 <= i < |rows| :: s.jobs[rows[i]].nextRunAt <= s.jobs[j].nextRunAt)
  {
  }

  ghost predicate IsFree(s: Store, j: Id, now: int) {
    && j in s.jobs && s.jobs[j].enabled && s.jobs[j].nextRunAt <= now
    && (s.jobs[j].lockedUntil.Some? ==> s.jobs[j].lockedUntil.value < now)
  }

  // ---- holding a claim ------------------------------------------------------------------------

  /** A renewal needs the schedule's current token; then both copies of the lease end at the new time. */
  lemma RenewExactly(s: Store, clock: int, j: Id, token: Id, until: int, now: int)
    requires Inv(s, clock)
    ensures Renew(s, j, token, until, now).Done?
    ensures Renew(s, j, token, until, now).result <==> j in s.jobs && s.jobs[j].token == Some(token)
    ensures !Renew(s, j, token, until, now).result ==> Renew(s, j, token, until, now).store == s
    ensures Renew(s, j, token, until, now).result ==>
              exists o :: Carries(s, j, o)
                && Renew(s, j, token, until, now).store ==
                     s.(jobs := s.jobs[j := s.jobs[j].(lockedUntil := Some(until))],
                        occs := s.occs[o := s.occs[o].(expiresAt := Some(until), updatedAt := now)])
  {
    RenewNeverThrows(s, clock, j, token, until, now);
    if j in s.jobs && s.jobs[j].token == Some(token) {
      var o := HeldByOne(s, clock, j);
      var occs := map p | p in s.occs ::
        if p in HeldRows(s, j, token) then s.occs[p].(expiresAt := Some(until), updatedAt := now) else s.occs[p];
      assert occs == s.occs[o := s.occs[o].(expiresAt := Some(until), updatedAt := now)];
    }
  }

  /** Only the holder of a running lease binds its occurrence; a task run not given is left as it was. */
  lemma BindExactly(s: Store, j: Id, o: Id, token: Id, objective: string, taskRun: Option<string>, now: int)
    ensures Bind(s, j, o, token, objective, taskRun, now).1 <==>
              && o in s.occs && s.occs[o].schedule == j && s.occs[o].status == Status.Claimed
              && s.occs[o].token == Some(token)
              && s.occs[o].expiresAt.Some? && now <= s.occs[o].expiresAt.value
    ensures
      var (t, bound) := Bind(s, j, o, token, objective, taskRun, now);
      if bound then
        t == s.(occs := s.occs[o := s.occs[o].(
          objective := Some(objective),
          taskRun := if taskRun.Some? then Some(taskRun.value) else s.occs[o].taskRun,
          updatedAt := now)])
      else t == s
  {
  }
}
