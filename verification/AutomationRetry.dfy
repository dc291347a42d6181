/**
 Retry termination. An occurrence's attempt counter is the number of claims handed out for it; while
 its schedule keeps its attempt limit and no lease runs out, the counter never passes the limit, so
 each occurrence is claimed at most that often.
 */
module AutomationRetry {
  import opened Wrappers
  import opened AutomationModel
  import opened AutomationInvariant
  import opened AutomationRuns
  import opened AutomationFencing
  import opened AutomationCalendar
  import Outbox

  // ---- attempts count claims ------------------------------------------------------------------

  function ClaimsOf(issued: map<Id, Claim>, o: Id): set<Id> {
    set t | t in issued && issued[t].occurrence == o
  }

  ghost predicate CountsClaims(s: Store, issued: map<Id, Claim>) {
    && (forall t | t in issued :: t < s.nextId && issued[t].occurrence < s.nextId)
    && (forall o | o in s.occs :: |ClaimsOf(issued, o)| == s.occs[o].attempts)
  }

  /** Calls other than claims neither open occurrences nor change their attempts. */
  ghost predicate SameAttempts(s: Store, t: Store) {
    && s.nextId <= t.nextId
    && forall o | o in t.occs ::
         o in s.occs && t.occs[o].attempts == s.occs[o].attempts && t.occs[o].schedule == s.occs[o].schedule
  }

  lemma OtherCallsKeepAttempts(s: Store, clock: int, cal: Calendar, c: Call)
    requires Inv(s, clock) && !c.op.OpClaimDue?
    ensures SameAttempts(s, Apply(s, cal, c).store)
  {
    if OnSchedules(c.op) {
      ScheduleCallsKeepAttempts(s, cal, c);
    } else if OnClaims(c.op) {
      ClaimCallsKeepAttempts(s, clock, cal, c);
    } else {
      DeliveryCallsForget(s, cal, c);
    }
  }

  lemma ScheduleCallsKeepAttempts(s: Store, cal: Calendar, c: Call)
    requires OnSchedules(c.op)
    ensures SameAttempts(s, Apply(s, cal, c).store)
  {
  }

  lemma ClaimCallsKeepAttempts(s: Store, clock: int, cal: Calendar, c: Call)
    requires Inv(s, clock) && OnClaims(c.op) && !c.op.OpClaimDue?
    ensures SameAttempts(s, Apply(s, cal, c).store)
  {
    match c.op
    case OpRenew(id, token, until) =>
    case OpBind(id, o, token, objective, taskRun) =>
    case OpComplete(claim, res) =>
      if Apply(s, cal, c).ok {
        AcceptedKeepsAttempts(s, clock, cal, claim, res, c.now);
      } else {
        RefusalsChangeNothing(s, clock, cal, c);
      }
  }

  lemma AcceptedKeepsAttempts(s: Store, clock: int, cal: Calendar, claim: Claim, res: Completion, now: int)
    requires Inv(s, clock) && HoldsJob(s, claim, now) && Complete(s, cal, claim, res, now).Done?
    ensures SameAttempts(s, Complete(s, cal, claim, res, now).store)
  {
    var o, job, t := CompletionShape(s, cal, clock, claim, res, now);
  }

  /** Delivery calls may forget occurrences, and do nothing else to them. */
  lemma DeliveryCallsForget(s: Store, cal: Calendar, c: Call)
    requires !OnSchedules(c.op) && !OnClaims(c.op)
    ensures SameAttempts(s, Apply(s, cal, c).store)
    ensures forall o | o in Apply(s, cal, c).store.occs :: o in s.occs && Apply(s, cal, c).store.occs[o] == s.occs[o]
    ensures Apply(s, cal, c).store.jobs == s.jobs
  {
    match c.op
    case OpClaimDeliveries(rows, _, leaseMs) => ClaimDeliveriesEvolve(s, rows, c.now, leaseMs);
    case OpEnqueue(owner, text, key) =>
    case OpCompleteDelivery(id, token) =>
      if HoldsDelivery(s, id, token, c.now) {
        PruneAroundForgets(WithRow(s, id, Outbox.TextComplete(s.dels[id].row), c.now), s.dels[id]);
      }
    case OpFailDelivery(id, token) =>
      if HoldsDelivery(s, id, token, c.now) {
        PruneAroundForgets(WithRow(s, id, Outbox.TextFail(s.dels[id].row, c.now), c.now), s.dels[id]);
      }
    case OpDeferDelivery(id, token, retryAt) =>
  }

  /** One more claim for `x.occurrence`, and none for any other occurrence. */
  lemma IssueCounts(issued: map<Id, Claim>, token: Id, x: Claim, o: Id)
    requires token !in issued
    ensures |ClaimsOf(issued[token := x], o)| == |ClaimsOf(issued, o)| + if o == x.occurrence then 1 else 0
  {
    if o == x.occurrence {
      assert ClaimsOf(issued[token := x], o) == ClaimsOf(issued, o) + {token};
    } else {
      assert ClaimsOf(issued[token := x], o) == ClaimsOf(issued, o);
    }
  }

  lemma ClaimRowCounts(s: Store, issued: map<Id, Claim>, clock: int, cal: Calendar, j: Id, now: int, leaseMs: int,
          claims: seq<Claim>)
    requires Inv(s, clock) && j in s.jobs && CountsClaims(s, Issue(issued, claims))
    requires ClaimRow(s, cal, j, now, leaseMs).Done?
    ensures
      var r := ClaimRow(s, cal, j, now, leaseMs);
      CountsClaims(r.store, Issue(issued, Collect(claims, r.result)))
  {
    if Misfired(s.jobs[j], now) {
      var next := if s.jobs[j].trigger.kind.At? then Some(s.jobs[j].nextRunAt) else cal(s.jobs[j].trigger, now);
      PassedOverCounts(s, Issue(issued, claims), j, next.value, now);
    } else {
      LeaseRowCounts(s, issued, clock, j, now, leaseMs, claims);
    }
  }

  lemma PassedOverCounts(s: Store, issued: map<Id, Claim>, j: Id, next: int, now: int)
    requires j in s.jobs && CountsClaims(s, issued)
    ensures CountsClaims(PruneHistory(PassedOver(s, j, next, now), j), issued)
  {
    var t := PassedOver(s, j, next, now);
    NoClaimsYet(issued, s.nextId);
    assert CountsClaims(t, issued);
    PruningOnlyForgets(t, j);
  }

  lemma NoClaimsYet(issued: map<Id, Claim>, o: Id)
    requires forall t | t in issued :: issued[t].occurrence < o
    ensures ClaimsOf(issued, o) == {} && ClaimsOf(issued, o + 1) == {}
  {
  }

  lemma LeaseRowCounts(s: Store, issued: map<Id, Claim>, clock: int, j: Id, now: int, leaseMs: int, claims: seq<Claim>)
    requires Inv(s, clock) && j in s.jobs && CountsClaims(s, Issue(issued, claims))
    requires LeaseRow(s, j, now, leaseMs).Done?
    ensures
      var r := LeaseRow(s, j, now, leaseMs);
      CountsClaims(r.store, Issue(issued, Collect(claims, r.result)))
  {
    var r := LeaseRow(s, j, now, leaseMs);
    var x := r.result.value;
    var before := Issue(issued, claims);
    IssueAppends(issued, claims, x);
    NoClaimsYet(before, s.nextId);
    forall o | o in r.store.occs
      ensures |ClaimsOf(before[s.nextId := x], o)| == r.store.occs[o].attempts
    {
      IssueCounts(before, s.nextId, x, o);
    }
    forall o | o in s.occs
      ensures o < s.nextId
    {
      assert OccurrenceOk(s, clock, o);
    }
  }

  lemma {:induction false} ClaimRowsCount(s: Store, issued: map<Id, Claim>, clock: int, cal: Calendar, rows: seq<Id>,
          now: int, leaseMs: int, claims: seq<Claim>)
    requires Inv(s, clock) && clock <= now && CountsClaims(s, Issue(issued, claims)) && StillDue(s, rows, now)
    ensures
      var r := ClaimRows(s, cal, rows, now, leaseMs, claims);
      r.Done? ==> CountsClaims(r.store, Issue(issued, r.result))
    decreases |rows|
  {
    if rows != [] {
      var r := ClaimRow(s, cal, rows[0], now, leaseMs);
      if r.Done? {
        ClaimRowKeeps(s, cal, rows[0], clock, now, leaseMs);
        RestStillDue(s, cal, rows, now, leaseMs);
        ClaimRowCounts(s, issued, clock, cal, rows[0], now, leaseMs, claims);
        ClaimRowsCount(r.store, issued, now, cal, rows[1..], now, leaseMs, Collect(claims, r.result));
      }
    }
  }

  lemma NextCountsClaims(w: World, cal: Calendar, c: Call)
    requires Inv(w.store, w.clock) && CountsClaims(w.store, w.issued) && Allowed(w, c)
    ensures CountsClaims(Next(w, cal, c).store, Next(w, cal, c).issued)
  {
    if c.op.OpClaimDue? {
      ClaimRowsCount(w.store, w.issued, w.clock, cal, c.op.rows, c.now, c.op.leaseMs, []);
    } else {
      OtherCallsKeepAttempts(w.store, w.clock, cal, c);
      OnlyClaimsIssue(w.store, cal, c);
      CountsCarryOver(w.store, Apply(w.store, cal, c).store, w.issued);
    }
  }

  lemma OnlyClaimsIssue(s: Store, cal: Calendar, c: Call)
    requires !c.op.OpClaimDue?
    ensures Apply(s, cal, c).claims == []
  {
  }

  lemma CountsCarryOver(s: Store, t: Store, issued: map<Id, Claim>)
    requires CountsClaims(s, issued) && SameAttempts(s, t)
    ensures CountsClaims(t, issued)
  {
  }

  // ---- the attempt budget ---------------------------------------------------------------------

  ghost predicate Within(s: Store, j: Id) {
    && (j in s.jobs ==> 1 <= s.jobs[j].maxAttempts <= 20)
    && (forall o | j in s.jobs && o in s.occs && s.occs[o].schedule == j ::
          && s.occs[o].attempts <= s.jobs[j].maxAttempts
          && (s.occs[o].status.Retrying? ==> s.occs[o].attempts < s.jobs[j].maxAttempts))
  }

  ghost predicate NoneExpired(s: Store, j: Id, now: int) {
    forall o | o in Resumable(s, j, now) :: s.occs[o].status.Retrying?
  }

  /** The call keeps schedule `j`'s limit and does not claim an occurrence whose lease ran out. */
  ghost predicate Orderly(s: Store, c: Call, j: Id) {
    match c.op
    case OpUpdate(id, patch, _) => id == j ==> patch.maxAttempts.None?
    case OpClaimDue(rows, _, _) => j in rows ==> NoneExpired(s, j, c.now)
    case _ => true
  }

  lemma ScheduleCallsStayWithin(s: Store, clock: int, cal: Calendar, c: Call, j: Id)
    requires Inv(s, clock) && Within(s, j) && Orderly(s, c, j) && OnSchedules(c.op)
    ensures Within(Apply(s, cal, c).store, j)
  {
    forall o | o in s.occs
      ensures s.occs[o].schedule in s.jobs && s.occs[o].schedule < s.nextId
    {
      assert OccurrenceOk(s, clock, o);
      assert JobOk(s, s.occs[o].schedule);
    }
  }

  lemma CompletionStaysWithin(w: World, cal: Calendar, c: Call, j: Id)
    requires Inv(w.store, w.clock) && Snapshots(w.store, w.issued) && Allowed(w, c)
    requires Within(w.store, j) && c.op.OpComplete?
    ensures Within(Apply(w.store, cal, c).store, j)
  {
    if Apply(w.store, cal, c).ok {
      AcceptedStaysWithin(w.store, w.clock, cal, c.op.claim, c.op.res, c.now, j);
    } else {
      RefusalsChangeNothing(w.store, w.clock, cal, c);
    }
  }

  lemma AcceptedStaysWithin(s: Store, clock: int, cal: Calendar, claim: Claim, res: Completion, now: int, j: Id)
    requires Inv(s, clock) && Within(s, j) && HoldsJob(s, claim, now)
             && Current(claim, claim.jobId, s.jobs[claim.jobId])
    requires Complete(s, cal, claim, res, now).Done?
    ensures Within(Complete(s, cal, claim, res, now).store, j)
  {
    var o, job, t := CompletionShape(s, cal, clock, claim, res, now);
    SettlingStaysWithin(s, t, claim, o, job, res, now, j);
    ForgettingStaysWithin(t, Complete(s, cal, claim, res, now).store, j);
  }

  lemma SettlingStaysWithin(s: Store, t: Store, claim: Claim, o: Id, job: Job, res: Completion, now: int, j: Id)
    requires Within(s, j) && claim.jobId in s.jobs && Carries(s, claim.jobId, o)
    requires claim.job.maxAttempts == s.jobs[claim.jobId].maxAttempts == job.maxAttempts
    requires t.jobs == s.jobs[claim.jobId := job]
    requires t.occs == s.occs[o := Settled(s.occs[o], Verdict(s, claim, o, res), res, now)]
    ensures Within(t, j)
  {
  }

  lemma ForgettingStaysWithin(t: Store, u: Store, j: Id)
    requires Within(t, j) && OnlyForgets(t, u)
    ensures Within(u, j)
  {
  }

  lemma LeaseRowStaysWithin(s: Store, clock: int, k: Id, now: int, leaseMs: int, j: Id)
    requires Inv(s, clock) && Within(s, j) && k in s.jobs && LeaseRow(s, k, now, leaseMs).Done?
    requires k == j ==> NoneExpired(s, j, now)
    ensures Within(LeaseRow(s, k, now, leaseMs).store, j)
    ensures k != j && NoneExpired(s, j, now) ==> NoneExpired(LeaseRow(s, k, now, leaseMs).store, j, now)
  {
    forall o | o in s.occs
      ensures o < s.nextId
    {
      assert OccurrenceOk(s, clock, o);
    }
  }

  lemma PassedOverStaysWithin(s: Store, clock: int, k: Id, next: int, now: int, j: Id)
    requires Inv(s, clock) && Within(s, j) && k in s.jobs
    ensures Within(PruneHistory(PassedOver(s, k, next, now), k), j)
    ensures k != j && NoneExpired(s, j, now) ==> NoneExpired(PruneHistory(PassedOver(s, k, next, now), k), j, now)
  {
    var t := PassedOver(s, k, next, now);
    assert Within(t, j);
    assert k != j && NoneExpired(s, j, now) ==> NoneExpired(t, j, now);
    PruningOnlyForgets(t, k);
  }

  lemma ClaimRowStaysWithin(s: Store, clock: int, cal: Calendar, k: Id, now: int, leaseMs: int, j: Id)
    requires Inv(s, clock) && Within(s, j) && k in s.jobs && ClaimRow(s, cal, k, now, leaseMs).Done?
    requires k == j ==> NoneExpired(s, j, now)
    ensures Within(ClaimRow(s, cal, k, now, leaseMs).store, j)
    ensures k != j && NoneExpired(s, j, now) ==> NoneExpired(ClaimRow(s, cal, k, now, leaseMs).store, j, now)
  {
    if Misfired(s.jobs[k], now) {
      var next := if s.jobs[k].trigger.kind.At? then Some(s.jobs[k].nextRunAt) else cal(s.jobs[k].trigger, now);
      PassedOverStaysWithin(s, clock, k, next.value, now, j);
    } else {
      LeaseRowStaysWithin(s, clock, k, now, leaseMs, j);
    }
  }

  lemma {:induction false} ClaimRowsStayWithin(s: Store, clock: int, cal: Calendar, rows: seq<Id>, now: int,
          leaseMs: int, claims: seq<Claim>, j: Id)
    requires Inv(s, clock) && clock <= now && Within(s, j) && StillDue(s, rows, now)
    requires j in rows ==> NoneExpired(s, j, now)
    ensures
      var r := ClaimRows(s, cal, rows, now, leaseMs, claims);
      r.Done? ==> Within(r.store, j)
    decreases |rows|
  {
    if rows != [] {
      var r := ClaimRow(s, cal, rows[0], now, leaseMs);
      if r.Done? {
        ClaimRowKeeps(s, cal, rows[0], clock, now, leaseMs);
        RestStillDue(s, cal, rows, now, leaseMs);
        ClaimRowStaysWithin(s, clock, cal, rows[0], now, leaseMs, j);
        ClaimRowsStayWithin(r.store, now, cal, rows[1..], now, leaseMs, Collect(claims, r.result), j);
      }
    }
  }

  lemma NextStaysWithin(w: World, cal: Calendar, c: Call, j: Id)
    requires Inv(w.store, w.clock) && Snapshots(w.store, w.issued) && Allowed(w, c)
    requires Within(w.store, j) && Orderly(w.store, c, j)
    ensures Within(Next(w, cal, c).store, j)
  {
    if OnSchedules(c.op) {
      ScheduleCallsStayWithin(w.store, w.clock, cal, c, j);
    } else if c.op.OpComplete? {
      CompletionStaysWithin(w, cal, c, j);
    } else if c.op.OpClaimDue? {
      ClaimRowsStayWithin(w.store, w.clock, cal, c.op.rows, c.now, c.op.leaseMs, [], j);
    } else if !OnClaims(c.op) {
      DeliveryCallsForget(w.store, cal, c);
    }
  }

  ghost predicate AllOrderly(w: World, cal: Calendar, calls: seq<Call>, j: Id)
    decreases |calls|
  {
    calls != [] ==> Orderly(w.store, calls[0], j) && AllOrderly(Next(w, cal, calls[0]), cal, calls[1..], j)
  }

  lemma {:induction false} RunsStayWithin(w: World, cal: Calendar, calls: seq<Call>, j: Id)
    requires Inv(w.store, w.clock) && Snapshots(w.store, w.issued) && CountsClaims(w.store, w.issued)
    requires Within(w.store, j) && AllAllowed(w, cal, calls) && AllOrderly(w, cal, calls, j)
    ensures
      var e := Run(w, cal, calls);
      Inv(e.store, e.clock) && CountsClaims(e.store, e.issued) && Within(e.store, j)
    decreases |calls|
  {
    if calls != [] {
      NextKeepsLeases(w, cal, calls[0]);
      NextKeepsSnapshots(w, cal, calls[0]);
      NextCountsClaims(w, cal, calls[0]);
      NextStaysWithin(w, cal, calls[0], j);
      RunsStayWithin(Next(w, cal, calls[0]), cal, calls[1..], j);
    }
  }

  /**
   Retries end: in every run that keeps schedule `j`'s attempt limit and in which no expired lease of
   it is claimed again, each of its occurrences has been claimed at most `maxAttempts` times, and one
   still waiting for a retry has been claimed fewer times. An open occurrence was claimed at least once,
   so its backoff index is in range.
   */
  lemma RetriesEnd(cal: Calendar, clock: int, calls: seq<Call>, j: Id)
    requires AllAllowed(Start(clock), cal, calls) && AllOrderly(Start(clock), cal, calls, j)
    ensures
      var w := Run(Start(clock), cal, calls);
      forall o | j in w.store.jobs && o in w.store.occs && w.store.occs[o].schedule == j ::
        && |ClaimsOf(w.issued, o)| == w.store.occs[o].attempts <= w.store.jobs[j].maxAttempts
        && (w.store.occs[o].status.Retrying? ==> |ClaimsOf(w.issued, o)| < w.store.jobs[j].maxAttempts)
        && (Open(w.store.occs[o]) ==> RetryDelay(w.store.occs[o].attempts).Some?)
  {
    EmptyOk(clock);
    RunsStayWithin(Start(clock), cal, calls, j);
    var w := Run(Start(clock), cal, calls);
    forall o | o in w.store.occs
      ensures Open(w.store.occs[o]) ==> RetryDelay(w.store.occs[o].attempts).Some?
    {
      assert OccurrenceOk(w.store, w.clock, o);
    }
  }
}
