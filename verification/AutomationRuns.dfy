/**
 Whole runs of the automation store: any interleaving of the calls of schedulers, workers and users,
 under a clock that never runs backwards. A world adds to the store what the callers remember: the
 claims handed out, the due times at which each schedule was ever picked, and the schedules ever
 started by hand.
 */
module AutomationRuns {
  import opened Wrappers
  import opened AutomationModel
  import opened AutomationInvariant
  import Outbox

  datatype Op =
    | OpCreate(input: JobInput)
    | OpUpdate(id: Id, patch: Patch, owner: Owner)
    | OpRunNow(id: Id, owner: Owner)
    | OpSetEnabled(id: Id, enabled: bool, owner: Owner)
    | OpRemove(id: Id, owner: Owner)
    | OpClaimDue(rows: seq<Id>, limit: int, leaseMs: int)
    | OpRenew(id: Id, token: Id, until: int)
    | OpBind(id: Id, occurrence: Id, token: Id, objective: string, taskRun: Option<string>)
    | OpComplete(claim: Claim, res: Completion)
    | OpClaimDeliveries(rows: seq<Id>, limit: int, leaseMs: int)
    | OpEnqueue(owner: Owner, text: string, key: string)
    | OpCompleteDelivery(id: Id, token: Id)
    | OpFailDelivery(id: Id, token: Id)
    | OpDeferDelivery(id: Id, token: Id, retryAt: int)

  datatype Call = Call(op: Op, now: int)

  datatype World = World(
    store: Store,
    clock: int,
    issued: map<Id, Claim>,
    picked: set<(Id, int)>,
    manual: set<Id>)

  /** The store and the answer of a call; a throwing transaction leaves the store alone. */
  datatype Effect = Effect(store: Store, ok: bool, threw: bool, claims: seq<Claim>)

  function Settle<T>(s: Store, r: Outcome<T>): Effect {
    if r.Threw? then Effect(s, false, true, []) else Effect(r.store, true, false, [])
  }

  function Answer(s: Store, r: Outcome<bool>): Effect {
    if r.Threw? then Effect(s, false, true, []) else Effect(r.store, r.result, false, [])
  }

  function Changed(r: (Store, bool)): Effect {
    Effect(r.0, r.1, false, [])
  }

  ghost function Apply(s: Store, cal: Calendar, c: Call): Effect {
    match c.op
    case OpCreate(input) => Settle(s, Create(s, cal, input, c.now))
    case OpUpdate(id, patch, owner) => Settle(s, Update(s, cal, id, patch, owner, c.now))
    case OpRunNow(id, owner) => Changed(RunNow(s, id, owner, c.now))
    case OpSetEnabled(id, enabled, owner) => Answer(s, SetEnabled(s, cal, id, enabled, owner, c.now))
    case OpRemove(id, owner) => Changed(Remove(s, id, owner))
    case OpClaimDue(rows, _, leaseMs) =>
      var r := ClaimRows(s, cal, rows, c.now, leaseMs, []);
      if r.Threw? then Effect(s, false, true, []) else Effect(r.store, true, false, r.result)
    case OpRenew(id, token, until) => Answer(s, Renew(s, id, token, until, c.now))
    case OpBind(id, o, token, objective, taskRun) => Changed(Bind(s, id, o, token, objective, taskRun, c.now))
    case OpComplete(claim, res) => Answer(s, Complete(s, cal, claim, res, c.now))
    case OpClaimDeliveries(rows, _, leaseMs) => Effect(ClaimDeliveries(s, rows, c.now, leaseMs), true, false, [])
    case OpEnqueue(owner, text, key) => Answer(s, EnqueueOutbound(s, owner, text, key, c.now))
    case OpCompleteDelivery(id, token) => Changed(CompleteDelivery(s, id, token, c.now))
    case OpFailDelivery(id, token) => Changed(FailDelivery(s, id, token, c.now))
    case OpDeferDelivery(id, token, retryAt) => Changed(DeferDelivery(s, id, token, retryAt, c.now))
  }

  /** The clock moves on, claim statements select due rows, and workers complete claims they were given. */
  ghost predicate Allowed(w: World, c: Call) {
    && w.clock <= c.now
    && (c.op.OpClaimDue? ==> SelectsDue(w.store, c.op.rows, c.now, c.op.limit))
    && (c.op.OpClaimDeliveries? ==> SelectsDeliveries(w.store, c.op.rows, c.now, c.op.limit))
    && (c.op.OpComplete? ==>
          && c.op.claim.job.token.Some?
          && c.op.claim.job.token.value in w.issued
          && w.issued[c.op.claim.job.token.value] == c.op.claim)
  }

  function Issue(issued: map<Id, Claim>, claims: seq<Claim>): map<Id, Claim>
    decreases |claims|
  {
    if claims == [] then issued
    else
      var rest := claims[..|claims| - 1];
      var claim := claims[|claims| - 1];
      if claim.job.token.Some? then Issue(issued, rest)[claim.job.token.value := claim] else Issue(issued, rest)
  }

  ghost function Next(w: World, cal: Calendar, c: Call): World {
    var e := Apply(w.store, cal, c);
    World(
      e.store,
      c.now,
      Issue(w.issued, e.claims),
      if c.op.OpClaimDue? && !e.threw
      then w.picked + (set j | j in c.op.rows && j in w.store.jobs :: (j, w.store.jobs[j].nextRunAt))
      else w.picked,
      if c.op.OpRunNow? && e.ok then w.manual + {c.op.id} else w.manual)
  }

  ghost function Run(w: World, cal: Calendar, calls: seq<Call>): World
    decreases |calls|
  {
    if calls == [] then w else Run(Next(w, cal, calls[0]), cal, calls[1..])
  }

  ghost predicate AllAllowed(w: World, cal: Calendar, calls: seq<Call>)
    decreases |calls|
  {
    calls != [] ==> Allowed(w, calls[0]) && AllAllowed(Next(w, cal, calls[0]), cal, calls[1..])
  }

  function Start(clock: int): World {
    World(Empty, clock, map[], {}, {})
  }

  // ---- the lease invariant over runs ----------------------------------------------------------

  predicate OnSchedules(op: Op) {
    op.OpCreate? || op.OpUpdate? || op.OpRunNow? || op.OpSetEnabled? || op.OpRemove?
  }

  predicate OnClaims(op: Op) {
    op.OpClaimDue? || op.OpRenew? || op.OpBind? || op.OpComplete?
  }

  lemma ScheduleCallsKeep(s: Store, clock: int, cal: Calendar, c: Call)
    requires Inv(s, clock) && clock <= c.now && OnSchedules(c.op)
    ensures Inv(Apply(s, cal, c).store, c.now)
  {
    TimePasses(s, clock, c.now);
    match c.op
    case OpCreate(input) => CreateKeeps(s, cal, input, clock, c.now);
    case OpUpdate(id, patch, owner) => UpdateKeeps(s, cal, id, patch, owner, clock, c.now);
    case OpRunNow(id, owner) => RunNowKeeps(s, id, owner, clock, c.now);
    case OpSetEnabled(id, enabled, owner) => SetEnabledKeeps(s, cal, id, enabled, owner, clock, c.now);
    case OpRemove(id, owner) => RemoveKeeps(s, id, owner, c.now);
  }

  lemma ClaimCallsKeep(s: Store, clock: int, cal: Calendar, c: Call)
    requires Inv(s, clock) && clock <= c.now && OnClaims(c.op)
    requires c.op.OpClaimDue? ==> StillDue(s, c.op.rows, c.now)
    ensures Inv(Apply(s, cal, c).store, c.now)
  {
    TimePasses(s, clock, c.now);
    match c.op
    case OpClaimDue(rows, _, leaseMs) => ClaimRowsKeep(s, cal, rows, clock, c.now, leaseMs, []);
    case OpRenew(id, token, until) => RenewKeeps(s, clock, id, token, until, c.now);
    case OpBind(id, o, token, objective, taskRun) => BindKeeps(s, clock, id, o, token, objective, taskRun, c.now);
    case OpComplete(claim, res) => CompleteKeeps(s, cal, clock, claim, res, c.now);
  }

  lemma DeliveryCallsKeep(s: Store, clock: int, cal: Calendar, c: Call)
    requires Inv(s, clock) && clock <= c.now && !OnSchedules(c.op) && !OnClaims(c.op)
    ensures Inv(Apply(s, cal, c).store, c.now)
  {
    TimePasses(s, clock, c.now);
    match c.op
    case OpClaimDeliveries(rows, _, leaseMs) => ClaimDeliveriesKeep(s, rows, c.now, c.now, leaseMs);
    case OpEnqueue(owner, text, key) => OutgoingKeeps(s, c.now, owner, text, key, c.now);
    case OpCompleteDelivery(id, token) => SettleDeliveryKeeps(s, c.now, id, token, c.now, c.now);
    case OpFailDelivery(id, token) => SettleDeliveryKeeps(s, c.now, id, token, c.now, c.now);
    case OpDeferDelivery(id, token, retryAt) => SettleDeliveryKeeps(s, c.now, id, token, c.now, retryAt);
  }

  lemma NextKeepsLeases(w: World, cal: Calendar, c: Call)
    requires Inv(w.store, w.clock) && Allowed(w, c)
    ensures Inv(Next(w, cal, c).store, c.now)
  {
    if OnSchedules(c.op) {
      ScheduleCallsKeep(w.store, w.clock, cal, c);
    } else if OnClaims(c.op) {
      ClaimCallsKeep(w.store, w.clock, cal, c);
    } else {
      DeliveryCallsKeep(w.store, w.clock, cal, c);
    }
  }

  lemma {:induction false} RunsKeepLeases(w: World, cal: Calendar, calls: seq<Call>)
    requires Inv(w.store, w.clock) && AllAllowed(w, cal, calls)
    ensures Inv(Run(w, cal, calls).store, Run(w, cal, calls).clock)
    decreases |calls|
  {
    if calls != [] {
      NextKeepsLeases(w, cal, calls[0]);
      RunsKeepLeases(Next(w, cal, calls[0]), cal, calls[1..]);
    }
  }

  /**
   The lease theorem for every reachable store: a schedule has at most one open occurrence, a job's
   token is carried by exactly one claimed occurrence with the same expiry, a claimed occurrence its
   job no longer names has expired, pending scheduled deliveries refer to succeeded occurrences, no
   occurrence has two deliveries, and renewing a claim never throws.
   */
  lemma ReachableLeases(cal: Calendar, clock: int, calls: seq<Call>)
    requires AllAllowed(Start(clock), cal, calls)
    ensures
      var w := Run(Start(clock), cal, calls);
      var s := w.store;
      && (forall o, p | o in s.occs && p in s.occs && Open(s.occs[o]) && Open(s.occs[p])
                        && s.occs[o].schedule == s.occs[p].schedule :: o == p)
      && (forall j | j in s.jobs && s.jobs[j].token.Some? ::
            exists o :: HeldRows(s, j, s.jobs[j].token.value) == {o} && s.occs[o].expiresAt == s.jobs[j].lockedUntil)
      && (forall o | o in s.occs && s.occs[o].status.Claimed? ::
            && s.occs[o].schedule in s.jobs && s.occs[o].expiresAt.Some?
            && (s.jobs[s.occs[o].schedule].token == s.occs[o].token || s.occs[o].expiresAt.value < w.clock))
      && (forall d | d in s.dels && s.dels[d].origin.Scheduled? && Outbox.Pending(s.dels[d].row) ::
            s.dels[d].origin.occurrence in s.occs && s.occs[s.dels[d].origin.occurrence].status.Succeeded?)
      && (forall d, e | d in s.dels && e in s.dels && s.dels[d].origin == s.dels[e].origin :: d == e)
      && (forall j, token, until, now :: Renew(s, j, token, until, now).Done?)
  {
    EmptyOk(clock);
    RunsKeepLeases(Start(clock), cal, calls);
    var w := Run(Start(clock), cal, calls);
    var s := w.store;
    forall j | j in s.jobs && s.jobs[j].token.Some?
      ensures exists o :: HeldRows(s, j, s.jobs[j].token.value) == {o} && s.occs[o].expiresAt == s.jobs[j].lockedUntil
    {
      var o := HeldByOne(s, w.clock, j);
      assert HeldRows(s, j, s.jobs[j].token.value) == {o} && s.occs[o].expiresAt == s.jobs[j].lockedUntil;
    }
    forall o | o in s.occs && s.occs[o].status.Claimed?
      ensures s.occs[o].schedule in s.jobs && s.occs[o].expiresAt.Some?
      ensures s.jobs[s.occs[o].schedule].token == s.occs[o].token || s.occs[o].expiresAt.value < w.clock
    {
      assert OccurrenceOk(s, w.clock, o);
    }
    forall d | d in s.dels && s.dels[d].origin.Scheduled? && Outbox.Pending(s.dels[d].row)
      ensures s.dels[d].origin.occurrence in s.occs && s.occs[s.dels[d].origin.occurrence].status.Succeeded?
    {
      assert DeliveryOk(s, d);
    }
    forall j, token, until, now
      ensures Renew(s, j, token, until, now).Done?
    {
      RenewNeverThrows(s, w.clock, j, token, until, now);
    }
  }
}
