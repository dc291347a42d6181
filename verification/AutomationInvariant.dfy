/**
 The lease invariant of the automation store: the lease written twice, on the job and on its
 occurrence, names one claim; a schedule has at most one open occurrence; a claimed occurrence that
 its job no longer names has expired; and every pending delivery refers to a succeeded occurrence.
 Each transaction preserves it under a clock that never runs backwards.
 */
module AutomationInvariant {
  import opened Wrappers
  import opened AutomationModel
  import Outbox

  /** Occurrence `o` carries the same lease as job `j`. */
  ghost predicate Carries(s: Store, j: Id, o: Id)
    requires j in s.jobs
  {
    && o in s.occs
    && s.occs[o].schedule == j
    && s.occs[o].status.Claimed?
    && s.occs[o].token == s.jobs[j].token
    && s.occs[o].expiresAt == s.jobs[j].lockedUntil
  }

  ghost predicate JobOk(s: Store, j: Id)
    requires j in s.jobs
  {
    && j < s.nextId
    && (s.jobs[j].token.Some? <==> s.jobs[j].lockedUntil.Some?)
    && (s.jobs[j].token.Some? ==> s.jobs[j].token.value < s.nextId && exists o :: Carries(s, j, o))
    && (s.jobs[j].deleted ==> !s.jobs[j].enabled && s.jobs[j].token.None?)
  }

  ghost predicate OccurrenceOk(s: Store, clock: int, o: Id)
    requires o in s.occs
  {
    var x := s.occs[o];
    && o < s.nextId
    && x.schedule in s.jobs
    && (x.status.Claimed? <==> x.token.Some?)
    && (x.status.Claimed? <==> x.expiresAt.Some?)
    && (x.status.Claimed? ==> x.token.value < s.nextId)
    && (x.status.Claimed? && s.jobs[x.schedule].token != x.token ==> x.expiresAt.value < clock)
    && (Open(x) ==> x.attempts >= 1)
  }

  /** One open occurrence per schedule, one occurrence per identity, one occurrence per token. */
  ghost predicate Distinct(s: Store) {
    forall o, p | o in s.occs && p in s.occs && o != p ::
      && !(s.occs[o].schedule == s.occs[p].schedule && Open(s.occs[o]) && Open(s.occs[p]))
      && !(s.occs[o].schedule == s.occs[p].schedule && s.occs[o].nominalDueAt == s.occs[p].nominalDueAt)
      && !(s.occs[o].status.Claimed? && s.occs[p].status.Claimed? && s.occs[o].token == s.occs[p].token)
  }

  ghost predicate DeliveryOk(s: Store, d: Id)
    requires d in s.dels
  {
    var x := s.dels[d];
    && d < s.nextId
    && (Outbox.Pending(x.row) && x.origin.Scheduled? ==>
          && x.origin.occurrence in s.occs
          && s.occs[x.origin.occurrence].status.Succeeded?
          && s.occs[x.origin.occurrence].schedule == x.origin.schedule)
  }

  /** At most one delivery per occurrence and per idempotency key. */
  ghost predicate DistinctDeliveries(s: Store) {
    forall d, e | d in s.dels && e in s.dels && d != e ::
      s.dels[d].origin != s.dels[e].origin && s.dels[d].key != s.dels[e].key
  }

  ghost predicate Inv(s: Store, clock: int) {
    && (forall j | j in s.jobs :: JobOk(s, j))
    && (forall o | o in s.occs :: OccurrenceOk(s, clock, o))
    && Distinct(s)
    && (forall d | d in s.dels :: DeliveryOk(s, d))
    && DistinctDeliveries(s)
  }

  const Empty := Store(map[], map[], map[], 0)

  lemma EmptyOk(clock: int)
    ensures Inv(Empty, clock)
  {
  }

  lemma TimePasses(s: Store, before: int, now: int)
    requires Inv(s, before) && before <= now
    ensures Inv(s, now)
  {
  }

  // ---- pruning --------------------------------------------------------------------------------

  /** What a prune may do: drop closed, unpinned occurrences and settled deliveries. */
  ghost predicate OnlyForgets(s: Store, t: Store) {
    && t.jobs == s.jobs && t.nextId == s.nextId
    && t.occs.Keys <= s.occs.Keys && t.dels.Keys <= s.dels.Keys
    && (forall o | o in t.occs :: t.occs[o] == s.occs[o])
    && (forall d | d in t.dels :: t.dels[d] == s.dels[d])
    && (forall o | o in s.occs && (Open(s.occs[o]) || o in Pinned(s)) :: o in t.occs)
    && (forall d | d in s.dels && Outbox.Pending(s.dels[d].row) :: d in t.dels)
  }

  lemma ForgettingComposes(s: Store, t: Store, u: Store)
    requires OnlyForgets(s, t) && OnlyForgets(t, u)
    ensures OnlyForgets(s, u)
  {
    forall o | o in Pinned(s) && o in s.occs
      ensures o in Pinned(t)
    {
      var d :| d in s.dels && Outbox.Pending(s.dels[d].row) && s.dels[d].origin.Scheduled?
        && s.dels[d].origin.occurrence == o;
      assert d in t.dels;
    }
  }

  /** Neither prune deletes an open occurrence, a pinned one or a pending delivery. */
  lemma PruningOnlyForgets(s: Store, schedule: Id)
    ensures OnlyForgets(s, PruneHistory(s, schedule))
    ensures OnlyForgets(s, PruneGlobally(s))
  {
    ForgettingComposes(s, PruneSchedule(s, schedule), PruneHistory(s, schedule));
  }

  lemma PruningDeliveriesOnlyForgets(s: Store, schedule: Option<Id>)
    ensures OnlyForgets(s, PruneDeliveries(s, schedule))
  {
  }

  lemma ForgettingKeeps(s: Store, t: Store, clock: int)
    requires Inv(s, clock) && OnlyForgets(s, t)
    ensures Inv(t, clock)
  {
    forall j | j in t.jobs
      ensures JobOk(t, j)
    {
      assert JobOk(s, j);
      if s.jobs[j].token.Some? {
        var o :| Carries(s, j, o);
        assert Carries(t, j, o);
      }
    }
    forall o | o in t.occs
      ensures OccurrenceOk(t, clock, o)
    {
      assert OccurrenceOk(s, clock, o);
    }
    forall d | d in t.dels
      ensures DeliveryOk(t, d)
    {
      assert DeliveryOk(s, d);
      if Outbox.Pending(s.dels[d].row) && s.dels[d].origin.Scheduled? {
        assert s.dels[d].origin.occurrence in Pinned(s);
      }
    }
  }

  lemma PruneHistoryKeeps(s: Store, schedule: Id, clock: int)
    requires Inv(s, clock)
    ensures Inv(PruneHistory(s, schedule), clock)
  {
    PruningOnlyForgets(s, schedule);
    ForgettingKeeps(s, PruneHistory(s, schedule), clock);
  }

  // ---- schedules ------------------------------------------------------------------------------

  lemma CreateKeeps(s: Store, cal: Calendar, input: JobInput, clock: int, now: int)
    requires Inv(s, clock) && clock <= now
    ensures Create(s, cal, input, now).Done? ==> Inv(Create(s, cal, input, now).store, now)
  {
    var r := Create(s, cal, input, now);
    if r.Done? {
      var t := r.store;
      forall j | j in t.jobs
        ensures JobOk(t, j)
      {
        if j != s.nextId {
          LeaseCarriesOver(s, t, j);
        }
      }
      forall o | o in t.occs
        ensures OccurrenceOk(t, now, o)
      {
        assert OccurrenceOk(s, clock, o);
      }
      forall d | d in t.dels
        ensures DeliveryOk(t, d)
      {
        assert DeliveryOk(s, d);
      }
    }
  }

  /** A job whose row and occurrences are untouched keeps its lease. */
  lemma LeaseCarriesOver(s: Store, t: Store, j: Id)
    requires j in s.jobs && j in t.jobs && JobOk(s, j)
    requires t.jobs[j].token == s.jobs[j].token && t.jobs[j].lockedUntil == s.jobs[j].lockedUntil
    requires t.jobs[j].deleted ==> !t.jobs[j].enabled && t.jobs[j].token.None?
    requires s.nextId <= t.nextId
    requires forall o | o in s.occs && s.occs[o].schedule == j && s.occs[o].status.Claimed? ::
               && o in t.occs
               && var x := s.occs[o];
                  t.occs[o].(objective := x.objective, taskRun := x.taskRun, updatedAt := x.updatedAt) == x
    ensures JobOk(t, j)
  {
    if s.jobs[j].token.Some? {
      var o :| Carries(s, j, o);
      assert Carries(t, j, o);
    }
  }

  /** Editing a job row without touching its lease: update, runNow and setEnabled. */
  lemma EditKeeps(s: Store, j: Id, job: Job, clock: int, now: int)
    requires Inv(s, clock) && clock <= now
    requires j in s.jobs && job.token == s.jobs[j].token && job.lockedUntil == s.jobs[j].lockedUntil
    requires job.deleted ==> !job.enabled && job.token.None?
    ensures Inv(s.(jobs := s.jobs[j := job]), now)
  {
    var t := s.(jobs := s.jobs[j := job]);
    forall k | k in t.jobs
      ensures JobOk(t, k)
    {
      LeaseCarriesOver(s, t, k);
    }
    forall o | o in t.occs
      ensures OccurrenceOk(t, now, o)
    {
      assert OccurrenceOk(s, clock, o);
    }
    forall d | d in t.dels
      ensures DeliveryOk(t, d)
    {
      assert DeliveryOk(s, d);
    }
  }

  lemma UpdateKeeps(s: Store, cal: Calendar, id: Id, patch: Patch, owner: Owner, clock: int, now: int)
    requires Inv(s, clock) && clock <= now
    ensures Update(s, cal, id, patch, owner, now).Done? ==> Inv(Update(s, cal, id, patch, owner, now).store, now)
  {
    var r := Update(s, cal, id, patch, owner, now);
    if r.Done? {
      EditKeeps(s, id, r.store.jobs[id], clock, now);
    }
  }

  lemma RunNowKeeps(s: Store, id: Id, owner: Owner, clock: int, now: int)
    requires Inv(s, clock) && clock <= now
    ensures Inv(RunNow(s, id, owner, now).0, now)
  {
    TimePasses(s, clock, now);
    if CanRunNow(s, id, owner) {
      EditKeeps(s, id, RunNow(s, id, owner, now).0.jobs[id], clock, now);
    }
  }

  lemma SetEnabledKeeps(s: Store, cal: Calendar, id: Id, enabled: bool, owner: Owner, clock: int, now: int)
    requires Inv(s, clock) && clock <= now
    ensures SetEnabled(s, cal, id, enabled, owner, now).Done? ==>
              Inv(SetEnabled(s, cal, id, enabled, owner, now).store, now)
  {
    TimePasses(s, clock, now);
    var r := SetEnabled(s, cal, id, enabled, owner, now);
    if r.Done? && r.result {
      EditKeeps(s, id, r.store.jobs[id], clock, now);
    }
  }

  lemma RemoveKeeps(s: Store, id: Id, owner: Owner, clock: int)
    requires Inv(s, clock)
    ensures Inv(Remove(s, id, owner).0, clock)
  {
    var t := Remove(s, id, owner).0;
    forall j | j in t.jobs
      ensures JobOk(t, j)
    {
      LeaseCarriesOver(s, t, j);
    }
    forall o | o in t.occs
      ensures OccurrenceOk(t, clock, o)
    {
      assert OccurrenceOk(s, clock, o);
    }
    forall d | d in t.dels
      ensures DeliveryOk(t, d)
    {
      assert DeliveryOk(s, d);
    }
  }

  // ---- claims ---------------------------------------------------------------------------------

  /** Rewrites of one job row and one of its occurrences, old or new; every other row stays. */
  ghost predicate Touches(s: Store, t: Store, j: Id, o: Id) {
    && j in s.jobs && t.jobs.Keys == s.jobs.Keys && s.nextId <= t.nextId
    && (forall k | k in s.jobs && k != j :: t.jobs[k] == s.jobs[k])
    && (t.jobs[j].deleted ==> !t.jobs[j].enabled)
    && o in t.occs && t.occs.Keys == s.occs.Keys + {o} && o < t.nextId
    && t.occs[o].schedule == j
    && (o in s.occs ==> s.occs[o].schedule == j && s.occs[o].nominalDueAt == t.occs[o].nominalDueAt)
    && (forall p | p in s.occs && p != o :: t.occs[p] == s.occs[p])
  }

  /** The rows `Touches` leaves alone stay well formed. */
  lemma OthersKeep(s: Store, t: Store, j: Id, o: Id, clock: int, now: int)
    requires Inv(s, clock) && clock <= now && Touches(s, t, j, o)
    ensures forall k | k in t.jobs && k != j :: JobOk(t, k)
    ensures forall p | p in t.occs && p != o && t.occs[p].schedule != j :: OccurrenceOk(t, now, p)
  {
    forall k | k in t.jobs && k != j
      ensures JobOk(t, k)
    {
      LeaseCarriesOver(s, t, k);
    }
    forall p | p in t.occs && p != o && t.occs[p].schedule != j
      ensures OccurrenceOk(t, now, p)
    {
      assert OccurrenceOk(s, clock, p);
    }
  }

  lemma DeliveriesKeep(s: Store, t: Store, clock: int)
    requires Inv(s, clock) && t.dels == s.dels && s.nextId <= t.nextId
    requires forall p | p in s.occs && s.occs[p].status.Succeeded? :: p in t.occs && t.occs[p] == s.occs[p]
    ensures (forall d | d in t.dels :: DeliveryOk(t, d)) && DistinctDeliveries(t)
  {
    forall d | d in t.dels
      ensures DeliveryOk(t, d)
    {
      assert DeliveryOk(s, d);
    }
  }

  /** When a due job has nothing to resume, it has no open occurrence at all. */
  lemma DueMeansExpired(s: Store, j: Id, clock: int, now: int, o: Id)
    requires Inv(s, clock) && clock <= now
    requires j in s.jobs && DueJob(s.jobs[j], now)
    requires o in s.occs && s.occs[o].schedule == j && Open(s.occs[o])
    ensures o in Resumable(s, j, now)
    ensures s.occs[o].status.Claimed? ==> s.occs[o].expiresAt.value < now
  {
    assert OccurrenceOk(s, clock, o) && JobOk(s, j);
    if s.occs[o].status.Claimed? && s.jobs[j].token == s.occs[o].token {
      var p :| Carries(s, j, p);
      assert p == o;
    }
  }

  lemma PassedOverKeeps(s: Store, j: Id, next: int, clock: int, now: int)
    requires Inv(s, clock) && clock <= now
    requires j in s.jobs && DueJob(s.jobs[j], now)
    ensures Inv(PassedOver(s, j, next, now), now)
  {
    var t := PassedOver(s, j, next, now);
    assert JobOk(s, j);
    forall k | k in t.jobs
      ensures JobOk(t, k)
    {
      if k != j {
        LeaseCarriesOver(s, t, k);
      }
    }
    forall o | o in t.occs
      ensures OccurrenceOk(t, now, o)
    {
      if o in s.occs {
        assert OccurrenceOk(s, clock, o);
        if s.occs[o].schedule == j && Open(s.occs[o]) {
          DueMeansExpired(s, j, clock, now, o);
        }
      }
    }
    DeliveriesKeep(s, t, clock);
  }

  lemma SkipKeeps(s: Store, cal: Calendar, j: Id, clock: int, now: int)
    requires Inv(s, clock) && clock <= now
    requires j in s.jobs && DueJob(s.jobs[j], now)
    ensures SkipRow(s, cal, j, now).Done? ==> Inv(SkipRow(s, cal, j, now).store, now)
  {
    var job := s.jobs[j];
    var next := if job.trigger.kind.At? then Some(job.nextRunAt) else cal(job.trigger, now);
    if next.Some? {
      PassedOverKeeps(s, j, next.value, clock, now);
      PruneHistoryKeeps(PassedOver(s, j, next.value, now), j, now);
    }
  }

  /** Occurrence `o` is the only one of schedule `j` that may be open, and the only one of its token and due time. */
  ghost predicate SoleOpen(s: Store, t: Store, j: Id, o: Id)
    requires o in t.occs
  {
    && (forall p | p in s.occs && p != o && s.occs[p].schedule == j ::
          !Open(s.occs[p]) && s.occs[p].nominalDueAt != t.occs[o].nominalDueAt)
    && (forall p | p in s.occs && p != o && s.occs[p].status.Claimed? :: t.occs[o].token != s.occs[p].token)
  }

  lemma SoleOpenIsDistinct(s: Store, t: Store, j: Id, o: Id)
    requires Distinct(s) && Touches(s, t, j, o) && SoleOpen(s, t, j, o)
    ensures Distinct(t)
  {
  }

  /** A rewrite that leaves `o` as the only occurrence of schedule `j` that may be open. */
  lemma SoleOpenKeeps(s: Store, t: Store, j: Id, o: Id, clock: int, now: int)
    requires Inv(s, clock) && clock <= now && Touches(s, t, j, o) && t.dels == s.dels
    requires JobOk(t, j) && OccurrenceOk(t, now, o) && SoleOpen(s, t, j, o)
    requires o in s.occs ==> !s.occs[o].status.Succeeded?
    ensures Inv(t, now)
  {
    SoleOpenIsDistinct(s, t, j, o);
    OthersKeep(s, t, j, o, clock, now);
    forall p | p in t.occs && p != o && t.occs[p].schedule == j
      ensures OccurrenceOk(t, now, p)
    {
      assert OccurrenceOk(s, clock, p);
    }
    DeliveriesKeep(s, t, clock);
  }

  lemma LeasedIsSoleOpen(s: Store, j: Id, clock: int, now: int, leaseMs: int)
    requires Inv(s, clock) && clock <= now
    requires j in s.jobs && DueJob(s.jobs[j], now) && LeaseRow(s, j, now, leaseMs).Done?
    ensures forall p | p in s.occs :: s.occs[p].status.Claimed? ==> s.occs[p].token != Some(s.nextId)
    ensures forall p | p in s.occs :: s.occs[p].schedule == j && Open(s.occs[p]) ==>
              p == LeaseRow(s, j, now, leaseMs).result.value.occurrence
  {
    var o := LeaseRow(s, j, now, leaseMs).result.value.occurrence;
    forall p | p in s.occs
      ensures s.occs[p].status.Claimed? ==> s.occs[p].token != Some(s.nextId)
      ensures s.occs[p].schedule == j && Open(s.occs[p]) ==> p == o
    {
      assert OccurrenceOk(s, clock, p);
      if s.occs[p].schedule == j && Open(s.occs[p]) {
        DueMeansExpired(s, j, clock, now, p);
        assert p in Resumable(s, j, now);
        if o in s.occs {
          assert o in Resumable(s, j, now);
        }
      }
    }
  }

  lemma LeasedRowsOk(s: Store, j: Id, clock: int, now: int, leaseMs: int)
    requires Inv(s, clock) && clock <= now
    requires j in s.jobs && DueJob(s.jobs[j], now) && LeaseRow(s, j, now, leaseMs).Done?
    ensures
      var r := LeaseRow(s, j, now, leaseMs);
      var o := r.result.value.occurrence;
      Touches(s, r.store, j, o) && JobOk(r.store, j) && Carries(r.store, j, o)
  {
    var r := LeaseRow(s, j, now, leaseMs);
    var o := r.result.value.occurrence;
    assert JobOk(s, j);
    assert Carries(r.store, j, o);
  }

  lemma LeasedOccurrenceOk(s: Store, j: Id, clock: int, now: int, leaseMs: int)
    requires Inv(s, clock) && clock <= now
    requires j in s.jobs && DueJob(s.jobs[j], now) && LeaseRow(s, j, now, leaseMs).Done?
    ensures
      var r := LeaseRow(s, j, now, leaseMs);
      var o := r.result.value.occurrence;
      OccurrenceOk(r.store, now, o) && (o in s.occs ==> !s.occs[o].status.Succeeded?)
  {
    var o := LeaseRow(s, j, now, leaseMs).result.value.occurrence;
    LeasedRowsOk(s, j, clock, now, leaseMs);
    if o in s.occs {
      assert OccurrenceOk(s, clock, o);
    }
  }

  lemma LeaseKeeps(s: Store, j: Id, clock: int, now: int, leaseMs: int)
    requires Inv(s, clock) && clock <= now
    requires j in s.jobs && DueJob(s.jobs[j], now)
    ensures LeaseRow(s, j, now, leaseMs).Done? ==> Inv(LeaseRow(s, j, now, leaseMs).store, now)
  {
    var r := LeaseRow(s, j, now, leaseMs);
    if r.Done? {
      var t := r.store;
      var o := r.result.value.occurrence;
      LeasedRowsOk(s, j, clock, now, leaseMs);
      LeasedOccurrenceOk(s, j, clock, now, leaseMs);
      LeasedIsSoleOpen(s, j, clock, now, leaseMs);
      SoleOpenKeeps(s, t, j, o, clock, now);
    }
  }

  lemma ClaimRowKeeps(s: Store, cal: Calendar, j: Id, clock: int, now: int, leaseMs: int)
    requires Inv(s, clock) && clock <= now
    requires j in s.jobs && DueJob(s.jobs[j], now)
    ensures ClaimRow(s, cal, j, now, leaseMs).Done? ==> Inv(ClaimRow(s, cal, j, now, leaseMs).store, now)
  {
    if Misfired(s.jobs[j], now) {
      SkipKeeps(s, cal, j, clock, now);
    } else {
      LeaseKeeps(s, j, clock, now, leaseMs);
    }
  }

  /** A row of the claim loop leaves every other job row as the loop's selection saw it. */
  lemma ClaimRowIsLocal(s: Store, cal: Calendar, j: Id, now: int, leaseMs: int)
    requires j in s.jobs && ClaimRow(s, cal, j, now, leaseMs).Done?
    ensures
      var t := ClaimRow(s, cal, j, now, leaseMs).store;
      t.jobs.Keys == s.jobs.Keys && t.dels == s.dels && forall k | k in s.jobs && k != j :: t.jobs[k] == s.jobs[k]
  {
  }

  /** What remains of a claim's selection: distinct rows, still due. */
  ghost predicate StillDue(s: Store, rows: seq<Id>, now: int) {
    && (forall i | 0 <= i < |rows| :: rows[i] in s.jobs && DueJob(s.jobs[rows[i]], now))
    && (forall i, k | 0 <= i < k < |rows| :: rows[i] != rows[k])
  }

  lemma RestStillDue(s: Store, cal: Calendar, rows: seq<Id>, now: int, leaseMs: int)
    requires rows != [] && StillDue(s, rows, now)
    requires ClaimRow(s, cal, rows[0], now, leaseMs).Done?
    ensures StillDue(ClaimRow(s, cal, rows[0], now, leaseMs).store, rows[1..], now)
  {
    ClaimRowIsLocal(s, cal, rows[0], now, leaseMs);
  }

  lemma {:induction false} ClaimRowsKeep(s: Store, cal: Calendar, rows: seq<Id>, clock: int, now: int, leaseMs: int,
          claims: seq<Claim>)
    requires Inv(s, clock) && clock <= now && StillDue(s, rows, now)
    ensures ClaimRows(s, cal, rows, now, leaseMs, claims).Done? ==>
              Inv(ClaimRows(s, cal, rows, now, leaseMs, claims).store, now)
    decreases |rows|
  {
    if rows == [] {
      TimePasses(s, clock, now);
    } else {
      var r := ClaimRow(s, cal, rows[0], now, leaseMs);
      if r.Done? {
        ClaimRowKeeps(s, cal, rows[0], clock, now, leaseMs);
        RestStillDue(s, cal, rows, now, leaseMs);
        ClaimRowsKeep(r.store, cal, rows[1..], now, now, leaseMs, Collect(claims, r.result));
      }
    }
  }

  /** In a well-formed store the current token of a job is held by exactly one occurrence. */
  lemma HeldByOne(s: Store, clock: int, j: Id) returns (o: Id)
    requires Inv(s, clock) && j in s.jobs && s.jobs[j].token.Some?
    ensures Carries(s, j, o)
    ensures HeldRows(s, j, s.jobs[j].token.value) == {o}
    ensures forall now :: LiveRows(s, j, s.jobs[j].token, now) ==
              if now <= s.jobs[j].lockedUntil.value then {o} else {}
  {
    assert JobOk(s, j);
    o :| Carries(s, j, o);
    forall p | p in s.occs && s.occs[p].token == s.jobs[j].token
      ensures p == o
    {
      assert OccurrenceOk(s, clock, p);
    }
  }

  /** renewClaim's thrown error, an absent occurrence under the job's own token, cannot happen. */
  lemma RenewNeverThrows(s: Store, clock: int, j: Id, token: Id, until: int, now: int)
    requires Inv(s, clock)
    ensures Renew(s, j, token, until, now).Done?
  {
    if j in s.jobs && s.jobs[j].token == Some(token) {
      var o := HeldByOne(s, clock, j);
    }
  }

  lemma RenewKeeps(s: Store, clock: int, j: Id, token: Id, until: int, now: int)
    requires Inv(s, clock) && clock <= now
    ensures Renew(s, j, token, until, now).Done? && Inv(Renew(s, j, token, until, now).store, now)
  {
    RenewNeverThrows(s, clock, j, token, until, now);
    TimePasses(s, clock, now);
    if j in s.jobs && s.jobs[j].token == Some(token) {
      var o := HeldByOne(s, clock, j);
      var t := Renew(s, j, token, until, now).store;
      assert JobOk(s, j);
      assert Touches(s, t, j, o);
      OthersKeep(s, t, j, o, clock, now);
      assert Carries(t, j, o);
      RenewedOccurrences(s, clock, j, token, until, now, o);
      DeliveriesKeep(s, t, clock);
    }
  }

  lemma RenewedOccurrences(s: Store, clock: int, j: Id, token: Id, until: int, now: int, o: Id)
    requires Inv(s, clock) && clock <= now && Renew(s, j, token, until, now).Done?
    requires j in s.jobs && s.jobs[j].token == Some(token) && Carries(s, j, o)
    ensures forall p | p in s.occs && s.occs[p].schedule == j ::
              OccurrenceOk(Renew(s, j, token, until, now).store, now, p)
  {
    assert JobOk(s, j);
    forall p | p in s.occs && s.occs[p].schedule == j
      ensures OccurrenceOk(Renew(s, j, token, until, now).store, now, p)
    {
      assert OccurrenceOk(s, clock, p);
    }
  }

  lemma BindKeeps(s: Store, clock: int, j: Id, o: Id, token: Id, objective: string, taskRun: Option<string>, now: int)
    requires Inv(s, clock) && clock <= now
    ensures Inv(Bind(s, j, o, token, objective, taskRun, now).0, now)
  {
    TimePasses(s, clock, now);
    if CanBind(s, j, o, token, now) {
      var t := Bind(s, j, o, token, objective, taskRun, now).0;
      forall k | k in t.jobs
        ensures JobOk(t, k)
      {
        LeaseCarriesOver(s, t, k);
      }
      forall p | p in t.occs
        ensures OccurrenceOk(t, now, p)
      {
        assert OccurrenceOk(s, clock, p);
      }
      DeliveriesKeep(s, t, clock);
    }
  }

  // ---- completion -----------------------------------------------------------------------------

  /** Closing or releasing the held occurrence and freeing its job, before any prune. */
  lemma ClosedKeeps(s: Store, clock: int, now: int, j: Id, o: Id, job: Job, status: Status, res: Completion)
    requires Inv(s, clock) && clock <= now
    requires j in s.jobs && s.jobs[j].token.Some? && Carries(s, j, o)
    requires job.token.None? && job.lockedUntil.None? && (job.deleted ==> !job.enabled)
    requires !status.Claimed?
    ensures Inv(Closed(s, j, o, job, status, res, now), now)
  {
    assert JobOk(s, j) && OccurrenceOk(s, clock, o);
    SoleOpenKeeps(s, Closed(s, j, o, job, status, res, now), j, o, clock, now);
  }

  /** Queueing a message for an occurrence that has just succeeded. */
  lemma EnqueueKeeps(s: Store, clock: int, j: Id, o: Id, owner: Owner, message: Option<(string, string)>, now: int)
    requires Inv(s, clock) && o in s.occs && s.occs[o].status.Succeeded? && s.occs[o].schedule == j
    ensures
      var r := Enqueue(s, Scheduled(j, o), owner, message, now);
      r.Done? ==> Inv(r.store, clock) && r.store.jobs == s.jobs && r.store.occs == s.occs
  {
    var r := Enqueue(s, Scheduled(j, o), owner, message, now);
    if r.Done? {
      var t := r.store;
      forall k | k in t.jobs
        ensures JobOk(t, k)
      {
        LeaseCarriesOver(s, t, k);
      }
      forall p | p in t.occs
        ensures OccurrenceOk(t, clock, p)
      {
        assert OccurrenceOk(s, clock, p);
      }
      forall d | d in t.dels
        ensures DeliveryOk(t, d)
      {
        if d in s.dels {
          assert DeliveryOk(s, d);
        }
      }
    }
  }

  lemma CompleteKeeps(s: Store, cal: Calendar, clock: int, claim: Claim, res: Completion, now: int)
    requires Inv(s, clock) && clock <= now
    ensures Complete(s, cal, claim, res, now).Done? ==> Inv(Complete(s, cal, claim, res, now).store, now)
  {
    TimePasses(s, clock, now);
    if HoldsJob(s, claim, now) {
      var o := HeldByOne(s, clock, claim.jobId);
      if res.ok {
        SucceedKeeps(s, cal, clock, claim, o, res, now);
      } else {
        FailKeeps(s, cal, clock, claim, o, res, now);
      }
    }
  }

  lemma SucceedKeeps(s: Store, cal: Calendar, clock: int, claim: Claim, o: Id, res: Completion, now: int)
    requires Inv(s, clock) && clock <= now
    requires claim.jobId in s.jobs && s.jobs[claim.jobId].token.Some? && Carries(s, claim.jobId, o)
    ensures Succeed(s, cal, claim, o, res, now).Done? ==> Inv(Succeed(s, cal, claim, o, res, now).store, now)
  {
    var j := claim.jobId;
    var job := AfterSuccess(s.jobs[j], claim, cal, now);
    if job.Some? {
      assert JobOk(s, j);
      ClosedKeeps(s, clock, now, j, o, job.value, Succeeded, res);
      var t := Closed(s, j, o, job.value, Succeeded, res, now);
      EnqueueKeeps(t, now, j, o, claim.job.owner, res.delivery, now);
      var queued := Enqueue(t, Scheduled(j, o), claim.job.owner, res.delivery, now);
      if queued.Done? {
        PruneHistoryKeeps(queued.store, j, now);
      }
    }
  }

  lemma FailKeeps(s: Store, cal: Calendar, clock: int, claim: Claim, o: Id, res: Completion, now: int)
    requires Inv(s, clock) && clock <= now
    requires claim.jobId in s.jobs && s.jobs[claim.jobId].token.Some? && Carries(s, claim.jobId, o)
    ensures Fail(s, cal, claim, o, res, now).Done? ==> Inv(Fail(s, cal, claim, o, res, now).store, now)
  {
    var j := claim.jobId;
    var exhausted := Exhausted(s, claim, o);
    var job := AfterFailure(s.jobs[j], claim, exhausted, s.occs[o].attempts, cal, now);
    if job.Some? {
      assert JobOk(s, j);
      var status := if exhausted then Failed else Retrying;
      ClosedKeeps(s, clock, now, j, o, job.value, status, res);
      PruneHistoryKeeps(Closed(s, j, o, job.value, status, res, now), j, now);
    }
  }

  /** The status an accepted completion gives occurrence `o`. */
  function Verdict(s: Store, claim: Claim, o: Id, res: Completion): Status
    requires o in s.occs
  {
    if res.ok then Succeeded else if Exhausted(s, claim, o) then Failed else Retrying
  }

  /** What an accepted completion writes: one job row, one occurrence row, then perhaps a prune. */
  lemma CompletionShape(s: Store, cal: Calendar, clock: int, claim: Claim, res: Completion, now: int)
    returns (o: Id, job: Job, t: Store)
    requires Inv(s, clock) && HoldsJob(s, claim, now)
    requires Complete(s, cal, claim, res, now).Done?
    ensures Carries(s, claim.jobId, o)
    ensures Some(job) == if res.ok then AfterSuccess(s.jobs[claim.jobId], claim, cal, now)
                         else AfterFailure(s.jobs[claim.jobId], claim, Exhausted(s, claim, o), s.occs[o].attempts, cal,
                           now)
    ensures t.jobs == s.jobs[claim.jobId := job] && s.nextId <= t.nextId
    ensures t.occs == s.occs[o := Settled(s.occs[o], Verdict(s, claim, o, res), res, now)]
    ensures OnlyForgets(t, Complete(s, cal, claim, res, now).store)
    ensures Complete(s, cal, claim, res, now).store ==
              if Verdict(s, claim, o, res).Retrying? then t else PruneHistory(t, claim.jobId)
    ensures Complete(s, cal, claim, res, now).result
  {
    var j := claim.jobId;
    o := HeldByOne(s, clock, j);
    if res.ok {
      job := AfterSuccess(s.jobs[j], claim, cal, now).value;
      t := Enqueue(Closed(s, j, o, job, Succeeded, res, now), Scheduled(j, o), claim.job.owner, res.delivery,
        now).store;
    } else {
      var exhausted := Exhausted(s, claim, o);
      job := AfterFailure(s.jobs[j], claim, exhausted, s.occs[o].attempts, cal, now).value;
      t := Closed(s, j, o, job, Verdict(s, claim, o, res), res, now);
    }
    PruningOnlyForgets(t, j);
  }

  // ---- the text outbox ------------------------------------------------------------------------

  /** Rewriting one delivery's row; it may become pending only if it already was. */
  lemma WithRowKeeps(s: Store, clock: int, d: Id, row: Outbox.Row, nextId: Id, now: int)
    requires Inv(s, clock) && d in s.dels && s.nextId <= nextId
    requires Outbox.Pending(s.dels[d].row)
    ensures Inv(WithRow(s, d, row, now).(nextId := nextId), clock)
  {
    var t := WithRow(s, d, row, now).(nextId := nextId);
    forall k | k in t.jobs
      ensures JobOk(t, k)
    {
      LeaseCarriesOver(s, t, k);
    }
    forall p | p in t.occs
      ensures OccurrenceOk(t, clock, p)
    {
      assert OccurrenceOk(s, clock, p);
    }
    forall e | e in t.dels
      ensures DeliveryOk(t, e)
    {
      assert DeliveryOk(s, e);
    }
  }

  lemma PruneAroundForgets(s: Store, d: Delivery)
    ensures OnlyForgets(s, PruneAround(s, d))
  {
    var t := PruneDeliveries(s, ScheduleOf(d));
    PruningDeliveriesOnlyForgets(s, ScheduleOf(d));
    PruningOnlyForgets(t, if d.origin.Scheduled? then d.origin.schedule else 0);
    ForgettingComposes(s, t, PruneAround(s, d));
  }

  lemma PruneAroundKeeps(s: Store, clock: int, d: Delivery)
    requires Inv(s, clock)
    ensures Inv(PruneAround(s, d), clock)
  {
    PruneAroundForgets(s, d);
    ForgettingKeeps(s, PruneAround(s, d), clock);
  }

  lemma {:induction false} ClaimDeliveriesKeep(s: Store, rows: seq<Id>, clock: int, now: int, leaseMs: int)
    requires Inv(s, clock)
    ensures Inv(ClaimDeliveries(s, rows, now, leaseMs), clock)
    decreases |rows|
  {
    if rows != [] {
      if rows[0] in s.dels && Outbox.Due(s.dels[rows[0]].row, now) {
        WithRowKeeps(s, clock, rows[0], Outbox.TextClaim(s.dels[rows[0]].row, s.nextId, now, leaseMs), s.nextId + 1,
          now);
      }
      ClaimDeliveriesKeep(ClaimDelivery(s, rows[0], now, leaseMs), rows[1..], clock, now, leaseMs);
    }
  }

  lemma OutgoingKeeps(s: Store, clock: int, owner: Owner, text: string, key: string, now: int)
    requires Inv(s, clock)
    ensures Inv(Outgoing(s, owner, text, key, now).0, clock)
  {
    var t := Outgoing(s, owner, text, key, now).0;
    forall k | k in t.jobs
      ensures JobOk(t, k)
    {
      LeaseCarriesOver(s, t, k);
    }
    forall p | p in t.occs
      ensures OccurrenceOk(t, clock, p)
    {
      assert OccurrenceOk(s, clock, p);
    }
    forall d | d in t.dels
      ensures DeliveryOk(t, d)
    {
      if d in s.dels {
        assert DeliveryOk(s, d);
      }
    }
  }

  lemma SettleDeliveryKeeps(s: Store, clock: int, d: Id, token: Id, now: int, retryAt: int)
    requires Inv(s, clock)
    ensures Inv(CompleteDelivery(s, d, token, now).0, clock)
    ensures Inv(FailDelivery(s, d, token, now).0, clock)
    ensures Inv(DeferDelivery(s, d, token, retryAt, now).0, clock)
  {
    if HoldsDelivery(s, d, token, now) {
      var row := s.dels[d].row;
      WithRowKeeps(s, clock, d, Outbox.TextComplete(row), s.nextId, now);
      PruneAroundKeeps(WithRow(s, d, Outbox.TextComplete(row), now), clock, s.dels[d]);
      WithRowKeeps(s, clock, d, Outbox.TextFail(row, now), s.nextId, now);
      PruneAroundKeeps(WithRow(s, d, Outbox.TextFail(row, now), now), clock, s.dels[d]);
      WithRowKeeps(s, clock, d, Outbox.TextDefer(row, retryAt, now), s.nextId, now);
    }
  }
}
