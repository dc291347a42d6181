/**
 What completing a claim does, column by column: when it is accepted, refused or thrown out, what becomes
 of the schedule and the occurrence, and which message a success queues. The same for a delivery queued
 directly.
 */
module AutomationCompletion {
  import opened Wrappers
  import opened AutomationModel
  import opened AutomationInvariant
  import Outbox

  /** The claim's token is the schedule's, and its lease runs. */
  ghost predicate IsRunning(s: Store, claim: Claim, now: int) {
    && claim.job.token.Some? && claim.jobId in s.jobs
    && s.jobs[claim.jobId].token == claim.job.token
    && s.jobs[claim.jobId].lockedUntil.Some? && now <= s.jobs[claim.jobId].lockedUntil.value
  }

  /** When a settled schedule is due next: as before, when put aside by a manual run, or by the calendar. */
  function NextDue(claim: Claim, cal: Calendar, now: int): Option<int> {
    if claim.job.trigger.kind == At then Some(claim.job.nextRunAt)
    else if claim.job.manualResumeAt.Some? then claim.job.manualResumeAt
    else cal(claim.job.trigger, now)
  }

  predicate EndsWithIt(claim: Claim) {
    claim.job.trigger.kind == At && claim.job.deleteAfterRun
  }

  ghost predicate HasDelivery(s: Store, origin: Origin) {
    exists d :: d in s.dels && s.dels[d].origin == origin
  }

  ghost predicate KeyIsTaken(s: Store, key: string) {
    exists d :: d in s.dels && s.dels[d].key == key
  }

  /** The message of the result is to be queued and its key belongs to another delivery. */
  ghost predicate KeyClashes(s: Store, claim: Claim, o: Id, res: Completion) {
    && res.delivery.Some? && !HasDelivery(s, Scheduled(claim.jobId, o))
    && KeyIsTaken(s, res.delivery.value.1)
  }

  /** When a completion is refused, when it throws, and that it is accepted otherwise. */
  lemma CompletionAnswers(s: Store, clock: int, cal: Calendar, claim: Claim, res: Completion, now: int)
    returns (o: Id)
    requires Inv(s, clock)
    ensures !IsRunning(s, claim, now) ==> Complete(s, cal, claim, res, now) == Done(s, false)
    ensures IsRunning(s, claim, now) ==> Carries(s, claim.jobId, o)
    ensures IsRunning(s, claim, now) ==>
              && (Complete(s, cal, claim, res, now).Done? ==> Complete(s, cal, claim, res, now).result)
              && (Complete(s, cal, claim, res, now).Threw? <==>
                    if res.ok then
                      KeyClashes(s, claim, o, res) || (!EndsWithIt(claim) && NextDue(claim, cal, now).None?)
                    else
                      s.occs[o].attempts >= claim.job.maxAttempts && NextDue(claim, cal, now).None?)
  {
    o := 0;
    if IsRunning(s, claim, now) {
      o := HeldByOne(s, clock, claim.jobId);
      assert OccurrenceOk(s, clock, o);
      if res.ok {
        SuccessAnswers(s, cal, claim, o, res, now);
      }
    }
  }

  lemma SuccessAnswers(s: Store, cal: Calendar, claim: Claim, o: Id, res: Completion, now: int)
    requires claim.jobId in s.jobs && o in s.occs
    ensures Succeed(s, cal, claim, o, res, now).Done? ==> Succeed(s, cal, claim, o, res, now).result
    ensures Succeed(s, cal, claim, o, res, now).Threw? <==>
              KeyClashes(s, claim, o, res) || (!EndsWithIt(claim) && NextDue(claim, cal, now).None?)
  {
  }

  // ---- the message ----------------------------------------------------------------------------

  /** One new delivery, queued, uncharged and due now, of this origin, owner, text and key; all others untouched. */
  ghost predicate Queues(s: Store, t: Store, d: Id, origin: Origin, owner: Owner, text: string, key: string, now: int) {
    && d !in s.dels && d in t.dels && t.dels.Keys == s.dels.Keys + {d}
    && (forall e | e in s.dels :: t.dels[e] == s.dels[e])
    && t.dels[d].origin == origin && t.dels[d].owner == owner && t.dels[d].text == text && t.dels[d].key == key
    && t.dels[d].updatedAt == now
    && t.dels[d].row.status == Outbox.Queued && t.dels[d].row.attempts == 0 && t.dels[d].row.nextAttemptAt == now
    && t.dels[d].row.token == None && t.dels[d].row.expiresAt == None
  }

  lemma SuccessQueues(s: Store, clock: int, cal: Calendar, claim: Claim, o: Id, res: Completion, now: int)
    requires Inv(s, clock) && claim.jobId in s.jobs && o in s.occs && Succeed(s, cal, claim, o, res, now).Done?
    ensures
      var t := Succeed(s, cal, claim, o, res, now).store;
      if res.delivery.Some? && !HasDelivery(s, Scheduled(claim.jobId, o))
      then Queues(s, t, s.nextId, Scheduled(claim.jobId, o), claim.job.owner, res.delivery.value.0,
                  res.delivery.value.1, now)
      else t.dels == s.dels
  {
    forall d | d in s.dels
      ensures d < s.nextId
    {
      assert DeliveryOk(s, d);
    }
  }

  /**
   What a completion queues. A success with a message queues that very message, once per occurrence: with its
   text and its key, to the owner of the claim. A success without one, one whose occurrence already has a
   delivery, and every failure leave the deliveries as they are.
   */
  ghost predicate QueuesResult(s: Store, t: Store, claim: Claim, o: Id, d: Id, res: Completion, now: int) {
    && claim.jobId in s.jobs && Carries(s, claim.jobId, o)
    && if res.ok && res.delivery.Some? && !HasDelivery(s, Scheduled(claim.jobId, o))
       then Queues(s, t, d, Scheduled(claim.jobId, o), claim.job.owner, res.delivery.value.0, res.delivery.value.1, now)
       else t.dels == s.dels
  }

  lemma CompletionQueues(s: Store, clock: int, cal: Calendar, claim: Claim, res: Completion, now: int)
    returns (o: Id, d: Id)
    requires Inv(s, clock) && IsRunning(s, claim, now) && Complete(s, cal, claim, res, now).Done?
    ensures QueuesResult(s, Complete(s, cal, claim, res, now).store, claim, o, d, res, now)
  {
    o := HeldByOne(s, clock, claim.jobId);
    d := s.nextId;
    if res.ok {
      SuccessQueues(s, clock, cal, claim, o, res, now);
    }
  }

  /** A delivery queued directly needs a platform, a chat, a text and a key, and a key used by no other. */
  lemma EnqueueExactly(s: Store, clock: int, owner: Owner, text: string, key: string, now: int)
    requires Inv(s, clock)
    ensures EnqueueOutbound(s, owner, text, key, now).Threw? <==>
              || AllBlank(owner.platform, IsSpaceChar) || AllBlank(owner.chat, IsSpaceChar)
              || AllBlank(text, IsSpaceChar) || AllBlank(key, IsSpaceChar)
    ensures EnqueueOutbound(s, owner, text, key, now).Done? ==>
              var Done(t, queued) := EnqueueOutbound(s, owner, text, key, now);
              && (queued <==> !HasDelivery(s, Outbound(key)) && !KeyIsTaken(s, key))
              && t.jobs == s.jobs && t.occs == s.occs
              && if queued then Queues(s, t, s.nextId, Outbound(key), owner, text, key, now) else t == s
  {
    TrimsToNothing(owner.platform);
    TrimsToNothing(owner.chat);
    TrimsToNothing(text);
    TrimsToNothing(key);
    forall d | d in s.dels
      ensures d < s.nextId
    {
      assert DeliveryOk(s, d);
    }
  }

  // ---- the schedule and the occurrence --------------------------------------------------------

  /** The occurrence is released with this status, and takes over what execution the result names. */
  ghost predicate SettledAs(before: Occurrence, after: Occurrence, status: Status, res: Completion, now: int) {
    && after.schedule == before.schedule && after.nominalDueAt == before.nominalDueAt
    && after.attempts == before.attempts && after.status == status
    && after.token == None && after.expiresAt == None && after.updatedAt == now
    && after.objective == (if res.objective.Some? then res.objective else before.objective)
    && after.taskRun == (if res.taskRun.Some? then res.taskRun else before.taskRun)
  }

  /** Occurrences other than `o` are kept or forgotten; those open, or waited for by a delivery, are kept. */
  ghost predicate OthersKept(s: Store, t: Store, o: Id) {
    && (forall p | p in t.occs && p != o :: p in s.occs && t.occs[p] == s.occs[p])
    && (forall p | p in s.occs && p != o && (s.occs[p].status == Status.Claimed || s.occs[p].status == Retrying) ::
          p in t.occs)
  }

  /** What becomes of the schedule row. */
  ghost predicate IsFreed(before: Job, after: Job, errors: nat) {
    && after == before.(
         lockedUntil := None, token := None, consecutiveErrors := errors,
         enabled := after.enabled, deleted := after.deleted, nextRunAt := after.nextRunAt,
         manualResumeAt := after.manualResumeAt)
  }

  lemma ForgettingKeepsOthers(s: Store, u: Store, t: Store, o: Id, row: Occurrence)
    requires o in s.occs && u.occs == s.occs[o := row] && OnlyForgets(u, t)
    ensures OthersKept(s, t, o) && (o in t.occs ==> t.occs[o] == row)
    ensures row.status == Retrying ==> o in t.occs
  {
  }

  /** A schedule after a run that succeeded. */
  ghost predicate RanWell(before: Job, after: Job, claim: Claim, cal: Calendar, now: int) {
    && IsFreed(before, after, 0)
    && if EndsWithIt(claim) then
         && !after.enabled && after.deleted
         && after.nextRunAt == before.nextRunAt && after.manualResumeAt == before.manualResumeAt
       else
         && after.enabled == (claim.job.trigger.kind != At) && after.deleted == before.deleted
         && Some(after.nextRunAt) == NextDue(claim, cal, now) && after.manualResumeAt == None
  }

  /** A schedule after a run that failed on attempt `tries`. */
  ghost predicate RanIll(before: Job, after: Job, claim: Claim, tries: nat, cal: Calendar, now: int) {
    && IsFreed(before, after, claim.job.consecutiveErrors + 1) && after.deleted == before.deleted
    && if tries >= claim.job.maxAttempts then
         && after.enabled == (claim.job.trigger.kind != At)
         && Some(after.nextRunAt) == NextDue(claim, cal, now) && after.manualResumeAt == None
       else
         && after.enabled && after.manualResumeAt == before.manualResumeAt
         && after.nextRunAt == now + (if tries == 1 then 30_000 else if tries == 2 then 60_000 else 300_000)
  }

  lemma JobAfterSuccess(before: Job, claim: Claim, cal: Calendar, now: int)
    ensures AfterSuccess(before, claim, cal, now).Some? ==>
              RanWell(before, AfterSuccess(before, claim, cal, now).value, claim, cal, now)
  {
  }

  lemma JobAfterFailure(before: Job, claim: Claim, tries: nat, cal: Calendar, now: int)
    requires tries >= 1
    ensures
      var after := AfterFailure(before, claim, tries >= claim.job.maxAttempts, tries, cal, now);
      after.Some? ==> RanIll(before, after.value, claim, tries, cal, now)
  {
  }

  /**
   An accepted success: the schedule is free, has no errors and runs on by its calendar, or ends if it was to
   run once, deleted if so asked; the occurrence has succeeded, and stays while its message waits.
   */
  lemma SuccessWrites(s: Store, clock: int, cal: Calendar, claim: Claim, res: Completion, now: int)
    returns (o: Id)
    requires Inv(s, clock) && IsRunning(s, claim, now) && res.ok && Complete(s, cal, claim, res, now).Done?
    ensures Carries(s, claim.jobId, o)
    ensures
      var t, j := Complete(s, cal, claim, res, now).store, claim.jobId;
      && j in t.jobs && t.jobs == s.jobs[j := t.jobs[j]] && RanWell(s.jobs[j], t.jobs[j], claim, cal, now)
      && (o in t.occs ==> SettledAs(s.occs[o], t.occs[o], Succeeded, res, now))
      && (res.delivery.Some? && !HasDelivery(s, Scheduled(j, o)) ==> o in t.occs)
      && OthersKept(s, t, o)
  {
    var job, u;
    o, job, u := CompletionShape(s, cal, clock, claim, res, now);
    JobAfterSuccess(s.jobs[claim.jobId], claim, cal, now);
    ForgettingKeepsOthers(s, u, Complete(s, cal, claim, res, now).store, o, Settled(s.occs[o], Succeeded, res, now));
    if res.delivery.Some? && !HasDelivery(s, Scheduled(claim.jobId, o)) {
      MessageKeepsOccurrence(s, clock, cal, claim, res, now, o);
    }
  }

  /** The occurrence whose message waits to be sent is not forgotten. */
  lemma MessageKeepsOccurrence(s: Store, clock: int, cal: Calendar, claim: Claim, res: Completion, now: int, o: Id)
    requires Inv(s, clock) && IsRunning(s, claim, now) && res.ok && Complete(s, cal, claim, res, now).Done?
    requires Carries(s, claim.jobId, o) && res.delivery.Some? && !HasDelivery(s, Scheduled(claim.jobId, o))
    ensures o in Complete(s, cal, claim, res, now).store.occs
  {
    var held := HeldByOne(s, clock, claim.jobId);
    assert held == o by {
      assert o in HeldRows(s, claim.jobId, claim.job.token.value);
    }
    SuccessQueues(s, clock, cal, claim, o, res, now);
    CompleteKeeps(s, cal, clock, claim, res, if clock < now then now else clock);
    SuccessPins(s, clock, cal, claim, o, res, now);
  }

  lemma SuccessPins(s: Store, clock: int, cal: Calendar, claim: Claim, o: Id, res: Completion, now: int)
    requires Inv(s, clock) && claim.jobId in s.jobs && o in s.occs && Succeed(s, cal, claim, o, res, now).Done?
    requires res.delivery.Some? && !HasDelivery(s, Scheduled(claim.jobId, o))
    ensures o in Succeed(s, cal, claim, o, res, now).store.occs
  {
    var job := AfterSuccess(s.jobs[claim.jobId], claim, cal, now).value;
    var queued := Enqueue(Closed(s, claim.jobId, o, job, Succeeded, res, now), Scheduled(claim.jobId, o),
      claim.job.owner, res.delivery, now).store;
    assert queued.dels[s.nextId].origin == Scheduled(claim.jobId, o) && Outbox.Pending(queued.dels[s.nextId].row);
    assert o in Pinned(queued);
    PruningOnlyForgets(queued, claim.jobId);
  }

  /**
   An accepted failure: the schedule is free and has one error more. Below the attempt limit the occurrence
   waits to be retried half a minute, a minute or five minutes on; at the limit it has failed, and the
   schedule runs on by its calendar, or ends if it was to run once.
   */
  lemma FailureWrites(s: Store, clock: int, cal: Calendar, claim: Claim, res: Completion, now: int)
    returns (o: Id)
    requires Inv(s, clock) && IsRunning(s, claim, now) && !res.ok && Complete(s, cal, claim, res, now).Done?
    ensures Carries(s, claim.jobId, o)
    ensures
      var t, j, tries := Complete(s, cal, claim, res, now).store, claim.jobId, s.occs[o].attempts;
      && j in t.jobs && t.jobs == s.jobs[j := t.jobs[j]] && RanIll(s.jobs[j], t.jobs[j], claim, tries, cal, now)
      && (tries < claim.job.maxAttempts ==> o in t.occs)
      && (o in t.occs ==>
            var status := if tries >= claim.job.maxAttempts then Status.Failed else Retrying;
            SettledAs(s.occs[o], t.occs[o], status, res, now))
      && OthersKept(s, t, o)
  {
    var job, u;
    o, job, u := CompletionShape(s, cal, clock, claim, res, now);
    assert OccurrenceOk(s, clock, o);
    JobAfterFailure(s.jobs[claim.jobId], claim, s.occs[o].attempts, cal, now);
    ForgettingKeepsOthers(s, u, Complete(s, cal, claim, res, now).store, o,
      Settled(s.occs[o], AutomationInvariant.Verdict(s, claim, o, res), res, now));
  }
}
