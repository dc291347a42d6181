/**
 The automation store as a value: the rows of the job, occurrence and delivery tables, and one
 function per transaction. A transaction that throws leaves no trace, which the functions report as
 `Threw`. Identifiers and claim tokens come from a counter, standing for random unique ids.
 */
module AutomationModel {
  import opened Wrappers
  import Outbox

  type Id = nat

  datatype Kind = At | Every | Cron

  datatype Trigger = Trigger(kind: Kind, value: string, timezone: Option<string>)

  /** computeNextRun: the next due time strictly after a moment, or None where the source throws. */
  type Calendar = (Trigger, int) -> Option<int>

  ghost predicate Advances(cal: Calendar) {
    forall trigger, now :: cal(trigger, now).Some? ==> now < cal(trigger, now).value
  }

  datatype Owner = Owner(platform: string, instance: Option<string>, chat: string, user: Option<string>)

  datatype Job = Job(
    owner: Owner,
    name: string,
    text: string,
    trigger: Trigger,
    deleteAfterRun: bool,
    maxAttempts: int,
    skipMisfires: bool,
    graceMs: int,
    enabled: bool,
    deleted: bool,
    nextRunAt: int,
    lockedUntil: Option<int>,
    token: Option<Id>,
    manualResumeAt: Option<int>,
    consecutiveErrors: nat)

  datatype Status = Claimed | Retrying | Succeeded | Failed | Skipped

  datatype Occurrence = Occurrence(
    schedule: Id,
    nominalDueAt: int,
    status: Status,
    attempts: nat,
    token: Option<Id>,
    expiresAt: Option<int>,
    objective: Option<string>,
    taskRun: Option<string>,
    updatedAt: int)

  /** The occurrence_id column: a schedule's occurrence, or a proactive result keyed by its idempotency key. */
  datatype Origin = Scheduled(schedule: Id, occurrence: Id) | Outbound(key: string)

  datatype Delivery = Delivery(origin: Origin, owner: Owner, text: string, key: string, row: Outbox.Row, updatedAt: int)

  datatype Store = Store(jobs: map<Id, Job>, occs: map<Id, Occurrence>, dels: map<Id, Delivery>, nextId: Id)

  datatype Outcome<+T> = Done(store: Store, result: T) | Threw

  /** The row a worker carries: the job as it stood right after the claim, and the claimed occurrence. */
  datatype Claim = Claim(
    jobId: Id,
    job: Job,
    occurrence: Id,
    nominalDueAt: int,
    attempt: nat,
    objective: Option<string>,
    taskRun: Option<string>)

  datatype Completion = Completion(
    ok: bool,
    delivery: Option<(string, string)>,
    objective: Option<string>,
    taskRun: Option<string>)

  const HISTORY_PER_SCHEDULE := 100
  const HISTORY_TOTAL := 10_000
  const DEFAULT_GRACE_MS := 300_000
  const MAX_GRACE_MS := 604_800_000

  predicate Open(o: Occurrence) {
    o.status.Claimed? || o.status.Retrying?
  }

  // ---- owners ---------------------------------------------------------------------------------

  predicate Owns(job: Job, owner: Owner) {
    && job.owner.platform == owner.platform
    && job.owner.instance == owner.instance
    && (job.owner.chat == owner.chat
        || (owner.user.Some? && owner.user.value != "" && job.owner.user == owner.user))
  }

  /** The SQL form used by remove, where an empty user id is a value like any other. */
  predicate Removes(job: Job, owner: Owner) {
    && job.owner.platform == owner.platform
    && job.owner.instance == owner.instance
    && (job.owner.chat == owner.chat || (owner.user.Some? && job.owner.user == owner.user))
  }

  predicate Visible(s: Store, id: Id, owner: Owner) {
    id in s.jobs && !s.jobs[id].deleted && Owns(s.jobs[id], owner)
  }

  // ---- history pruning ------------------------------------------------------------------------

  /** Occurrences that a queued or delivering delivery still refers to. */
  function Pinned(s: Store): set<Id> {
    set d | d in s.dels && Outbox.Pending(s.dels[d].row) && s.dels[d].origin.Scheduled? :: s.dels[d].origin.occurrence
  }

  function LaterDue(s: Store, id: Id): set<Id>
    requires id in s.occs
  {
    set p | p in s.occs && s.occs[p].schedule == s.occs[id].schedule && s.occs[p].nominalDueAt > s.occs[id].nominalDueAt
  }

  /** Rows before `id` in ORDER BY updated_at DESC, ties broken by the younger id. */
  function FresherOccurrences(s: Store, id: Id): set<Id>
    requires id in s.occs
  {
    set p | p in s.occs && (s.occs[p].updatedAt > s.occs[id].updatedAt
                            || (s.occs[p].updatedAt == s.occs[id].updatedAt && p > id))
  }

  function PruneSchedule(s: Store, schedule: Id): Store {
    s.(occs := map id | id in s.occs && !(s.occs[id].schedule == schedule && !Open(s.occs[id])
                                          && |LaterDue(s, id)| >= HISTORY_PER_SCHEDULE && id !in Pinned(s)) ::
                     s.occs[id])
  }

  function PruneGlobally(s: Store): Store {
    s.(occs := map id | id in s.occs && !(!Open(s.occs[id])
                                          && |FresherOccurrences(s, id)| >= HISTORY_TOTAL && id !in Pinned(s)) ::
                     s.occs[id])
  }

  /** pruneAutomationHistory: the schedule's history first, then the whole table. */
  function PruneHistory(s: Store, schedule: Id): Store {
    PruneGlobally(PruneSchedule(s, schedule))
  }

  function ScheduleOf(d: Delivery): Option<Id> {
    if d.origin.Scheduled? then Some(d.origin.schedule) else None
  }

  function FresherDeliveries(s: Store, id: Id, ids: set<Id>): set<Id>
    requires id in s.dels && ids <= s.dels.Keys
  {
    set p | p in ids && (s.dels[p].updatedAt > s.dels[id].updatedAt
                         || (s.dels[p].updatedAt == s.dels[id].updatedAt && p > id))
  }

  function SettledDeliveries(s: Store, schedule: Option<Id>): set<Id> {
    set p | p in s.dels && !Outbox.Pending(s.dels[p].row) && ScheduleOf(s.dels[p]) == schedule
  }

  function AllSettledDeliveries(s: Store): set<Id> {
    set p | p in s.dels && !Outbox.Pending(s.dels[p].row)
  }

  /** Of some settled deliveries the latest are kept. */
  function KeepLatest(s: Store, ids: set<Id>, most: nat): Store
    requires ids <= s.dels.Keys
  {
    s.(dels := map id | id in s.dels && !(id in ids && |FresherDeliveries(s, id, ids)| >= most) :: s.dels[id])
  }

  /** pruneDeliveryHistory: the schedule's settled rows first, then all settled rows. */
  function PruneDeliveries(s: Store, schedule: Option<Id>): Store {
    var s1 := KeepLatest(s, SettledDeliveries(s, schedule), HISTORY_PER_SCHEDULE);
    KeepLatest(s1, AllSettledDeliveries(s1), HISTORY_TOTAL)
  }

  // ---- schedules ------------------------------------------------------------------------------

  const MAX_NAME := 120
  const MAX_TEXT := 20_000

  datatype JobInput = JobInput(
    owner: Owner,
    name: string,
    text: string,
    trigger: Trigger,
    deleteAfterRun: Option<bool>,
    maxAttempts: Option<int>,
    skipMisfires: Option<bool>,
    graceMs: Option<int>)

  /** validateInput: a name, a text and a chat, none of them blank or too long. */
  predicate ValidInput(name: string, text: string, chat: string) {
    && Trim(name) != "" && |name| <= MAX_NAME
    && Trim(text) != "" && |text| <= MAX_TEXT
    && chat != ""
  }

  /** The schedule is computed as given and stored trimmed. */
  function Stored(trigger: Trigger): Trigger {
    trigger.(value := Trim(trigger.value))
  }

  /** The row of a new schedule, with the defaults and limits of what was not or wrongly asked for. */
  function NewJob(input: JobInput, nextRunAt: int): Job {
    Job(
      owner := input.owner,
      name := Trim(input.name),
      text := Trim(input.text),
      trigger := Stored(input.trigger),
      deleteAfterRun := input.deleteAfterRun.GetOr(input.trigger.kind.At?),
      maxAttempts := Clamp(input.maxAttempts.GetOr(3), 1, 20),
      skipMisfires := input.skipMisfires.GetOr(false),
      graceMs := Clamp(input.graceMs.GetOr(DEFAULT_GRACE_MS), 0, MAX_GRACE_MS),
      enabled := true,
      deleted := false,
      nextRunAt := nextRunAt,
      lockedUntil := None,
      token := None,
      manualResumeAt := None,
      consecutiveErrors := 0)
  }

  function Create(s: Store, cal: Calendar, input: JobInput, now: int): Outcome<Id> {
    var next := cal(input.trigger, now);
    if !ValidInput(input.name, input.text, input.owner.chat) || next.None? then Threw
    else Done(s.(jobs := s.jobs[s.nextId := NewJob(input, next.value)], nextId := s.nextId + 1), s.nextId)
  }

  datatype Patch = Patch(
    name: Option<string>,
    text: Option<string>,
    kind: Option<Kind>,
    value: Option<string>,
    timezone: Option<string>,
    deleteAfterRun: Option<bool>,
    maxAttempts: Option<int>,
    skipMisfires: Option<bool>,
    graceMs: Option<int>)

  predicate ChangesTrigger(patch: Patch) {
    patch.kind.Some? || patch.value.Some? || patch.timezone.Some?
  }

  /** What is passed on only if it is there and not empty. */
  function IfGiven(value: Option<string>): Option<string> {
    if value == Some("") then None else value
  }

  function Patched(trigger: Trigger, patch: Patch): Trigger {
    Trigger(patch.kind.GetOr(trigger.kind), patch.value.GetOr(trigger.value),
            if patch.timezone.Some? then patch.timezone else IfGiven(trigger.timezone))
  }

  function Update(s: Store, cal: Calendar, id: Id, patch: Patch, owner: Owner, now: int): Outcome<()> {
    if !Visible(s, id, owner) || s.jobs[id].token.Some? then Threw
    else
      var job := s.jobs[id];
      var trigger := Patched(job.trigger, patch);
      var name, text := patch.name.GetOr(job.name), patch.text.GetOr(job.text);
      var next := if ChangesTrigger(patch) then cal(trigger, now) else Some(job.nextRunAt);
      if !ValidInput(name, text, job.owner.chat) || next.None? then Threw
      else
        var updated := job.(
          name := Trim(name),
          text := Trim(text),
          trigger := Stored(trigger),
          deleteAfterRun := patch.deleteAfterRun.GetOr(job.deleteAfterRun),
          maxAttempts := Clamp(patch.maxAttempts.GetOr(job.maxAttempts), 1, 20),
          skipMisfires := patch.skipMisfires.GetOr(job.skipMisfires),
          graceMs := Clamp(patch.graceMs.GetOr(job.graceMs), 0, MAX_GRACE_MS),
          nextRunAt := next.value);
        Done(s.(jobs := s.jobs[id := updated]), ())
  }

  predicate CanRunNow(s: Store, id: Id, owner: Owner) {
    && Visible(s, id, owner)
    && s.jobs[id].enabled
    && s.jobs[id].token.None?
    && s.jobs[id].manualResumeAt.None?
  }

  function RunNow(s: Store, id: Id, owner: Owner, now: int): (Store, bool) {
    if !CanRunNow(s, id, owner) then (s, false)
    else
      var job := s.jobs[id];
      var resume := if job.trigger.kind.At? then None else Some(job.nextRunAt);
      (s.(jobs := s.jobs[id := job.(nextRunAt := now, manualResumeAt := resume)]), true)
  }

  function SetEnabled(s: Store, cal: Calendar, id: Id, enabled: bool, owner: Owner, now: int): Outcome<bool> {
    if !Visible(s, id, owner) then Done(s, false)
    else
      var job := s.jobs[id];
      var next := if enabled then cal(job.trigger, now) else Some(job.nextRunAt);
      if next.None? then Threw
      else Done(s.(jobs := s.jobs[id := job.(enabled := enabled, nextRunAt := next.value)]), true)
  }

  function Remove(s: Store, id: Id, owner: Owner): (Store, bool) {
    if id !in s.jobs || !Removes(s.jobs[id], owner) then (s, false)
    else
      (s.(jobs := map j | j in s.jobs && j != id :: s.jobs[j],
          occs := map o | o in s.occs && s.occs[o].schedule != id :: s.occs[o],
          dels := map d | d in s.dels && ScheduleOf(s.dels[d]) != Some(id) :: s.dels[d]), true)
  }

  // ---- claiming -------------------------------------------------------------------------------

  predicate DueJob(job: Job, now: int) {
    job.enabled && job.nextRunAt <= now && (job.lockedUntil.None? || job.lockedUntil.value < now)
  }

  predicate Misfired(job: Job, now: int) {
    job.skipMisfires && now - job.nextRunAt > job.graceMs
  }

  predicate Taken(s: Store, schedule: Id, nominal: int) {
    exists o | o in s.occs :: s.occs[o].schedule == schedule && s.occs[o].nominalDueAt == nominal
  }

  /** Records the missed occurrence unless its identity exists, and moves the job past it. */
  function PassedOver(s: Store, id: Id, next: int, now: int): Store
    requires id in s.jobs
  {
    var job := s.jobs[id];
    var missed := Occurrence(id, job.nextRunAt, Skipped, 0, None, None, None, None, now);
    var moved := job.(enabled := !job.trigger.kind.At?, nextRunAt := next, lockedUntil := None, token := None);
    s.(jobs := s.jobs[id := moved],
       occs := if Taken(s, id, job.nextRunAt) then s.occs else s.occs[s.nextId := missed],
       nextId := s.nextId + 1)
  }

  function SkipRow(s: Store, cal: Calendar, id: Id, now: int): Outcome<Option<Claim>>
    requires id in s.jobs
  {
    var job := s.jobs[id];
    var next := if job.trigger.kind.At? then Some(job.nextRunAt) else cal(job.trigger, now);
    if next.None? then Threw else Done(PruneHistory(PassedOver(s, id, next.value, now), id), None)
  }

  /** Occurrences a claim resumes instead of opening a new one. */
  function Resumable(s: Store, id: Id, now: int): set<Id> {
    set o | o in s.occs && s.occs[o].schedule == id
            && (s.occs[o].status.Retrying?
                || (s.occs[o].status.Claimed? && s.occs[o].expiresAt.Some? && s.occs[o].expiresAt.value < now))
  }

  predicate IsLatest(s: Store, ids: set<Id>, o: Id)
    requires ids <= s.occs.Keys
  {
    o in ids && forall p | p in ids :: s.occs[p].nominalDueAt <= s.occs[o].nominalDueAt
  }

  lemma {:induction false} LatestExists(s: Store, ids: set<Id>) returns (o: Id)
    requires ids != {} && ids <= s.occs.Keys
    ensures IsLatest(s, ids, o)
    decreases |ids|
  {
    var first :| first in ids;
    o := first;
    var rest := ids - {first};
    assert forall p | p in ids :: p == first || p in rest;
    if rest != {} {
      var p := LatestExists(s, rest);
      o := if s.occs[o].nominalDueAt > s.occs[p].nominalDueAt then o else p;
    }
  }

  lemma LatestIsThere(s: Store, ids: set<Id>)
    requires ids != {} && ids <= s.occs.Keys
    ensures exists o :: IsLatest(s, ids, o)
  {
    var o := LatestExists(s, ids);
  }

  /** ORDER BY nominal_due_at DESC LIMIT 1. */
  ghost function Latest(s: Store, ids: set<Id>): (id: Id)
    requires ids != {} && ids <= s.occs.Keys
    ensures IsLatest(s, ids, id)
  {
    LatestIsThere(s, ids);
    var o :| IsLatest(s, ids, o);
    o
  }

  function Resumed(o: Occurrence, token: Id, until: int, now: int): Occurrence {
    o.(status := Claimed, attempts := o.attempts + 1, token := Some(token), expiresAt := Some(until), updatedAt := now)
  }

  function Opened(id: Id, nominal: int, token: Id, until: int, now: int): Occurrence {
    Occurrence(id, nominal, Claimed, 1, Some(token), Some(until), None, None, now)
  }

  /** Leases the job and its occurrence under one fresh token; a second row of one identity throws. */
  ghost function LeaseRow(s: Store, id: Id, now: int, leaseMs: int): Outcome<Option<Claim>>
    requires id in s.jobs
  {
    var token := s.nextId;
    var job := s.jobs[id].(lockedUntil := Some(now + leaseMs), token := Some(token));
    var resumable := Resumable(s, id, now);
    if resumable != {} then
      var o := Latest(s, resumable);
      var occ := Resumed(s.occs[o], token, now + leaseMs, now);
      Done(s.(jobs := s.jobs[id := job], occs := s.occs[o := occ], nextId := token + 1),
           Some(Claim(id, job, o, occ.nominalDueAt, occ.attempts, IfGiven(occ.objective), IfGiven(occ.taskRun))))
    else if Taken(s, id, job.nextRunAt) then Threw
    else
      var o := token + 1;
      var occ := Opened(id, job.nextRunAt, token, now + leaseMs, now);
      Done(s.(jobs := s.jobs[id := job], occs := s.occs[o := occ], nextId := token + 2),
           Some(Claim(id, job, o, occ.nominalDueAt, 1, None, None)))
  }

  /** One iteration of claimDue's loop. */
  ghost function ClaimRow(s: Store, cal: Calendar, id: Id, now: int, leaseMs: int): Outcome<Option<Claim>>
    requires id in s.jobs
  {
    if Misfired(s.jobs[id], now) then SkipRow(s, cal, id, now) else LeaseRow(s, id, now, leaseMs)
  }

  /** The rows a claim statement may select: due, distinct, earliest first, none due left below the limit. */
  predicate SelectsDue(s: Store, rows: seq<Id>, now: int, limit: int) {
    && |rows| <= Clamp(limit, 1, 20)
    && (forall i | 0 <= i < |rows| :: rows[i] in s.jobs && DueJob(s.jobs[rows[i]], now))
    && (forall i, j | 0 <= i < j < |rows| :: rows[i] != rows[j])
    && (forall i, j | 0 <= i < j < |rows| :: s.jobs[rows[i]].nextRunAt <= s.jobs[rows[j]].nextRunAt)
    && (forall id | id in s.jobs && DueJob(s.jobs[id], now) && id !in rows ::
          && |rows| == Clamp(limit, 1, 20)
          && forall i | 0 <= i < |rows| :: s.jobs[rows[i]].nextRunAt <= s.jobs[id].nextRunAt)
  }

  function Collect(claims: seq<Claim>, claim: Option<Claim>): seq<Claim> {
    if claim.Some? then claims + [claim.value] else claims
  }

  /** The loop of claimDue over its selected rows; one throwing row rolls back them all. */
  ghost function ClaimRows(s: Store, cal: Calendar, rows: seq<Id>, now: int, leaseMs: int,
          claims: seq<Claim>): Outcome<seq<Claim>>
    decreases |rows|
  {
    if rows == [] then Done(s, claims)
    else if rows[0] !in s.jobs then ClaimRows(s, cal, rows[1..], now, leaseMs, claims)
    else
      var r := ClaimRow(s, cal, rows[0], now, leaseMs);
      if r.Threw? then Threw
      else ClaimRows(r.store, cal, rows[1..], now, leaseMs, Collect(claims, r.result))
  }

  // ---- holding a claim ------------------------------------------------------------------------

  function HeldRows(s: Store, id: Id, token: Id): set<Id> {
    set o | o in s.occs && s.occs[o].schedule == id && s.occs[o].status.Claimed? && s.occs[o].token == Some(token)
  }

  function Renew(s: Store, id: Id, token: Id, until: int, now: int): Outcome<bool> {
    if id !in s.jobs || s.jobs[id].token != Some(token) then Done(s, false)
    else
      var held := HeldRows(s, id, token);
      if |held| != 1 then Threw
      else
        Done(s.(jobs := s.jobs[id := s.jobs[id].(lockedUntil := Some(until))],
                occs := map o | o in s.occs ::
                  if o in held then s.occs[o].(expiresAt := Some(until), updatedAt := now) else s.occs[o]), true)
  }

  predicate CanBind(s: Store, id: Id, occurrence: Id, token: Id, now: int) {
    && occurrence in s.occs
    && var o := s.occs[occurrence];
       o.schedule == id && o.status.Claimed? && o.token == Some(token) && o.expiresAt.Some? && now <= o.expiresAt.value
  }

  function Bind(s: Store, id: Id, occurrence: Id, token: Id, objective: string, taskRun: Option<string>,
          now: int): (Store, bool)
  {
    if !CanBind(s, id, occurrence, token, now) then (s, false)
    else
      var o := s.occs[occurrence];
      var bound := o.(
        objective := Some(objective), taskRun := if taskRun.Some? then taskRun else o.taskRun, updatedAt := now);
      (s.(occs := s.occs[occurrence := bound]), true)
  }

  // ---- completing -----------------------------------------------------------------------------

  /** Backoff by attempt number; attempt zero has no entry, and binding the undefined value throws. */
  function RetryDelay(attempts: nat): Option<int> {
    if attempts == 0 then None
    else if attempts == 1 then Some(30_000)
    else if attempts == 2 then Some(60_000)
    else Some(300_000)
  }

  predicate HoldsJob(s: Store, claim: Claim, now: int) {
    && claim.job.token.Some?
    && claim.jobId in s.jobs
    && var job := s.jobs[claim.jobId];
       job.token == claim.job.token && job.lockedUntil.Some? && now <= job.lockedUntil.value
  }

  function LiveRows(s: Store, id: Id, token: Option<Id>, now: int): set<Id> {
    set o | o in s.occs && s.occs[o].schedule == id && s.occs[o].token == token && token.Some?
            && s.occs[o].expiresAt.Some? && now <= s.occs[o].expiresAt.value
  }

  /** Queues the result's message: once per occurrence, and throwing on a reused idempotency key. */
  function Enqueue(s: Store, origin: Origin, owner: Owner, message: Option<(string, string)>, now: int): Outcome<bool> {
    if message.None? || (exists d | d in s.dels :: s.dels[d].origin == origin) then Done(s, false)
    else
      var (text, key) := message.value;
      if exists d | d in s.dels :: s.dels[d].key == key then Threw
      else
        var delivery := Delivery(origin, owner, text, key, Outbox.NewRow(now), now);
        Done(s.(dels := s.dels[s.nextId := delivery], nextId := s.nextId + 1), true)
  }

  function Settled(o: Occurrence, status: Status, res: Completion, now: int): Occurrence {
    o.(status := status, token := None, expiresAt := None, updatedAt := now,
       objective := if res.objective.Some? then res.objective else o.objective,
       taskRun := if res.taskRun.Some? then res.taskRun else o.taskRun)
  }

  /** The next calendar due time after a settled run, which a manual run has put aside. */
  function Resumption(claim: Claim, cal: Calendar, now: int): Option<int> {
    if claim.job.trigger.kind.At? then Some(claim.job.nextRunAt)
    else if claim.job.manualResumeAt.Some? then claim.job.manualResumeAt
    else cal(claim.job.trigger, now)
  }

  /** The store with a released job row and the settled occurrence, before any prune. */
  function Closed(s: Store, j: Id, o: Id, job: Job, status: Status, res: Completion, now: int): Store
    requires j in s.jobs && o in s.occs
  {
    s.(jobs := s.jobs[j := job], occs := s.occs[o := Settled(s.occs[o], status, res, now)])
  }

  /** The job row after a successful run; None where computeNextRun throws. */
  function AfterSuccess(job: Job, claim: Claim, cal: Calendar, now: int): Option<Job> {
    var freed := job.(lockedUntil := None, token := None, consecutiveErrors := 0);
    if claim.job.trigger.kind.At? && claim.job.deleteAfterRun then Some(freed.(enabled := false, deleted := true))
    else
      var next := Resumption(claim, cal, now);
      if next.None? then None
      else Some(freed.(enabled := !claim.job.trigger.kind.At?, nextRunAt := next.value, manualResumeAt := None))
  }

  function Succeed(s: Store, cal: Calendar, claim: Claim, o: Id, res: Completion, now: int): Outcome<bool>
    requires claim.jobId in s.jobs && o in s.occs
  {
    var job := AfterSuccess(s.jobs[claim.jobId], claim, cal, now);
    if job.None? then Threw
    else
      var queued := Enqueue(Closed(s, claim.jobId, o, job.value, Succeeded, res, now),
                            Scheduled(claim.jobId, o), claim.job.owner, res.delivery, now);
      if queued.Threw? then Threw else Done(PruneHistory(queued.store, claim.jobId), true)
  }

  predicate Exhausted(s: Store, claim: Claim, o: Id)
    requires o in s.occs
  {
    s.occs[o].attempts >= claim.job.maxAttempts
  }

  /** The job row after a failed run: the calendar again when exhausted, else the next retry. */
  function AfterFailure(job: Job, claim: Claim, exhausted: bool, attempts: nat, cal: Calendar, now: int): Option<Job> {
    var freed := job.(lockedUntil := None, token := None, consecutiveErrors := claim.job.consecutiveErrors + 1);
    var delay := RetryDelay(attempts);
    var next := if exhausted then Resumption(claim, cal, now)
                else if delay.None? then None else Some(now + delay.value);
    if next.None? then None
    else
      Some(freed.(
        nextRunAt := next.value,
        enabled := !(exhausted && claim.job.trigger.kind.At?),
        manualResumeAt := if exhausted then None else job.manualResumeAt))
  }

  function Fail(s: Store, cal: Calendar, claim: Claim, o: Id, res: Completion, now: int): Outcome<bool>
    requires claim.jobId in s.jobs && o in s.occs
  {
    var exhausted := Exhausted(s, claim, o);
    var job := AfterFailure(s.jobs[claim.jobId], claim, exhausted, s.occs[o].attempts, cal, now);
    if job.None? then Threw
    else if exhausted then Done(PruneHistory(Closed(s, claim.jobId, o, job.value, Failed, res, now), claim.jobId), true)
    else Done(Closed(s, claim.jobId, o, job.value, Retrying, res, now), true)
  }

  ghost function Any(ids: set<Id>): (id: Id)
    requires ids != {}
    ensures id in ids
  {
    var o :| o in ids;
    o
  }

  ghost function Complete(s: Store, cal: Calendar, claim: Claim, res: Completion, now: int): Outcome<bool> {
    if !HoldsJob(s, claim, now) then Done(s, false)
    else
      var live := LiveRows(s, claim.jobId, claim.job.token, now);
      if live == {} then Done(s, false)
      else if res.ok then Succeed(s, cal, claim, Any(live), res, now)
      else Fail(s, cal, claim, Any(live), res, now)
  }

  // ---- the text outbox ------------------------------------------------------------------------

  ghost predicate SelectsDeliveries(s: Store, rows: seq<Id>, now: int, limit: int) {
    && |rows| <= Clamp(limit, 1, 20)
    && (forall i | 0 <= i < |rows| :: rows[i] in s.dels && Outbox.Due(s.dels[rows[i]].row, now))
    && (forall i, j | 0 <= i < j < |rows| :: rows[i] != rows[j])
    && (forall i, j | 0 <= i < j < |rows| :: s.dels[rows[i]].row.nextAttemptAt <= s.dels[rows[j]].row.nextAttemptAt)
    && (forall id | id in s.dels && Outbox.Due(s.dels[id].row, now) && id !in rows ::
          && |rows| == Clamp(limit, 1, 20)
          && forall i | 0 <= i < |rows| :: s.dels[rows[i]].row.nextAttemptAt <= s.dels[id].row.nextAttemptAt)
  }

  function WithRow(s: Store, id: Id, row: Outbox.Row, now: int): Store
    requires id in s.dels
  {
    s.(dels := s.dels[id := s.dels[id].(row := row, updatedAt := now)])
  }

  function ClaimDelivery(s: Store, id: Id, now: int, leaseMs: int): Store {
    if id in s.dels && Outbox.Due(s.dels[id].row, now)
    then WithRow(s, id, Outbox.TextClaim(s.dels[id].row, s.nextId, now, leaseMs), now).(nextId := s.nextId + 1)
    else s
  }

  function ClaimDeliveries(s: Store, rows: seq<Id>, now: int, leaseMs: int): Store
    decreases |rows|
  {
    if rows == [] then s else ClaimDeliveries(ClaimDelivery(s, rows[0], now, leaseMs), rows[1..], now, leaseMs)
  }

  predicate Addressed(owner: Owner, text: string, key: string) {
    Trim(owner.platform) != "" && Trim(owner.chat) != "" && Trim(text) != "" && Trim(key) != ""
  }

  /** A new row, unless its origin or its key conflicts, which leaves the table alone. */
  function Outgoing(s: Store, owner: Owner, text: string, key: string, now: int): (Store, bool) {
    if exists d | d in s.dels :: s.dels[d].origin == Outbound(key) || s.dels[d].key == key then (s, false)
    else
      var delivery := Delivery(Outbound(key), owner, text, key, Outbox.NewRow(now), now);
      (s.(dels := s.dels[s.nextId := delivery], nextId := s.nextId + 1), true)
  }

  /** enqueueDelivery: a blank target, text or key throws. */
  function EnqueueOutbound(s: Store, owner: Owner, text: string, key: string, now: int): Outcome<bool> {
    if !Addressed(owner, text, key) then Threw
    else
      var (t, queued) := Outgoing(s, owner, text, key, now);
      Done(t, queued)
  }

  predicate HoldsDelivery(s: Store, id: Id, token: Id, now: int) {
    id in s.dels && Outbox.Held(s.dels[id].row, token, now)
  }

  function PruneAround(s: Store, d: Delivery): Store {
    var s1 := PruneDeliveries(s, ScheduleOf(d));
    if d.origin.Scheduled? then PruneHistory(s1, d.origin.schedule) else PruneGlobally(s1)
  }

  function CompleteDelivery(s: Store, id: Id, token: Id, now: int): (Store, bool) {
    if !HoldsDelivery(s, id, token, now) then (s, false)
    else (PruneAround(WithRow(s, id, Outbox.TextComplete(s.dels[id].row), now), s.dels[id]), true)
  }

  function FailDelivery(s: Store, id: Id, token: Id, now: int): (Store, bool) {
    if !HoldsDelivery(s, id, token, now) then (s, false)
    else
      var row := Outbox.TextFail(s.dels[id].row, now);
      var s1 := WithRow(s, id, row, now);
      (if row.status.Abandoned? then PruneAround(s1, s.dels[id]) else s1, true)
  }

  function DeferDelivery(s: Store, id: Id, token: Id, retryAt: int, now: int): (Store, bool) {
    if !HoldsDelivery(s, id, token, now) then (s, false)
    else (WithRow(s, id, Outbox.TextDefer(s.dels[id].row, retryAt, now), now), true)
  }
}
