/**
 The automation store as the object its callers share. Each method performs its SQL statements in
 order on the tables and is proved to have exactly the effect of the transaction function of the
 same name; a transaction that throws restores every table. The validity of the object is the lease
 invariant, at the time of the last call.
 */
module AutomationStore {
  import opened Wrappers
  import opened AutomationModel
  import opened AutomationInvariant
  import opened AutomationFencing
  import opened Ranking
  import Claims = AutomationClaims
  import Completing = AutomationCompletion
  import Outbox
  import OutboxRows

  class Tables {
    const cal: Calendar
    var jobs: map<Id, Job>
    var occurrences: map<Id, Occurrence>
    var deliveries: map<Id, Delivery>
    var nextId: Id
    ghost var clock: int

    function State(): Store
      reads this
    {
      Store(jobs, occurrences, deliveries, nextId)
    }

    ghost predicate Valid()
      reads this
    {
      Inv(State(), clock)
    }

    constructor (cal: Calendar, now: int)
      ensures Valid() && clock == now && State() == Empty && this.cal == cal
    {
      this.cal := cal;
      jobs, occurrences, deliveries, nextId := map[], map[], map[], 0;
      clock := now;
    }

    method Create(input: JobInput, now: int) returns (id: Id, threw: bool)
      requires Valid() && clock <= now
      modifies this
      ensures Valid() && clock == now
      ensures
        var r := AutomationModel.Create(old(State()), cal, input, now);
        threw == r.Threw? && State() == (if threw then old(State()) else r.store) && (!threw ==> id == r.result)
    {
      CreateKeeps(State(), cal, input, clock, now);
      TimePasses(State(), clock, now);
      clock := now;
      id, threw := nextId, true;
      if !ValidInput(input.name, input.text, input.owner.chat) {
        return;
      }
      var next := cal(input.trigger, now);
      if next.None? {
        return;
      }
      nextId := nextId + 1;
      jobs := jobs[id := NewJob(input, next.value)];
      assert State() == AutomationModel.Create(old(State()), cal, input, now).store;
      threw := false;
    }

    method Update(id: Id, patch: Patch, owner: Owner, now: int) returns (threw: bool)
      requires Valid() && clock <= now
      modifies this
      ensures Valid() && clock == now
      ensures
        var r := AutomationModel.Update(old(State()), cal, id, patch, owner, now);
        threw == r.Threw? && State() == if threw then old(State()) else r.store
    {
      UpdateKeeps(State(), cal, id, patch, owner, clock, now);
      TimePasses(State(), clock, now);
      clock := now;
      if !Visible(State(), id, owner) || jobs[id].token.Some? {
        return true;
      }
      var current := jobs[id];
      var trigger := Patched(current.trigger, patch);
      var name, text := patch.name.GetOr(current.name), patch.text.GetOr(current.text);
      if !ValidInput(name, text, current.owner.chat) {
        return true;
      }
      var nextRunAt := current.nextRunAt;
      if ChangesTrigger(patch) {
        var next := cal(trigger, now);
        if next.None? {
          return true;
        }
        nextRunAt := next.value;
      }
      jobs := jobs[id := current.(
        name := Trim(name),
        text := Trim(text),
        trigger := Stored(trigger),
        deleteAfterRun := patch.deleteAfterRun.GetOr(current.deleteAfterRun),
        maxAttempts := Clamp(patch.maxAttempts.GetOr(current.maxAttempts), 1, 20),
        skipMisfires := patch.skipMisfires.GetOr(current.skipMisfires),
        graceMs := Clamp(patch.graceMs.GetOr(current.graceMs), 0, MAX_GRACE_MS),
        nextRunAt := nextRunAt)];
      threw := false;
    }

    method RunNow(id: Id, owner: Owner, now: int) returns (changed: bool)
      requires Valid() && clock <= now
      modifies this
      ensures Valid() && clock == now
      ensures (State(), changed) == AutomationModel.RunNow(old(State()), id, owner, now)
    {
      RunNowKeeps(State(), id, owner, clock, now);
      clock := now;
      if !Visible(State(), id, owner) || !jobs[id].enabled || jobs[id].token.Some? {
        return false;
      }
      var current := jobs[id];
      if current.manualResumeAt.Some? {
        return false;
      }
      jobs := jobs[id := current.(
        nextRunAt := now,
        manualResumeAt := if current.trigger.kind.At? then None else Some(current.nextRunAt))];
      changed := true;
    }

    method SetEnabled(id: Id, enabled: bool, owner: Owner, now: int) returns (changed: bool, threw: bool)
      requires Valid() && clock <= now
      modifies this
      ensures Valid() && clock == now
      ensures
        var r := AutomationModel.SetEnabled(old(State()), cal, id, enabled, owner, now);
        threw == r.Threw? && State() == (if threw then old(State()) else r.store) && (!threw ==> changed == r.result)
    {
      SetEnabledKeeps(State(), cal, id, enabled, owner, clock, now);
      TimePasses(State(), clock, now);
      clock := now;
      if !Visible(State(), id, owner) {
        return false, false;
      }
      var job := jobs[id];
      var next := Some(job.nextRunAt);
      if enabled {
        next := cal(job.trigger, now);
      }
      if next.None? {
        return false, true;
      }
      jobs := jobs[id := job.(enabled := enabled, nextRunAt := next.value)];
      return true, false;
    }

    method Remove(id: Id, owner: Owner) returns (changed: bool)
      requires Valid()
      modifies this
      ensures Valid() && clock == old(clock)
      ensures (State(), changed) == AutomationModel.Remove(old(State()), id, owner)
    {
      RemoveKeeps(State(), id, owner, clock);
      changed := id in jobs && Removes(jobs[id], owner);
      if changed {
        jobs := map j | j in jobs && j != id :: jobs[j];
        occurrences := map o | o in occurrences && occurrences[o].schedule != id :: occurrences[o];
        deliveries := map d | d in deliveries && ScheduleOf(deliveries[d]) != Some(id) :: deliveries[d];
      }
    }

    // ---- claims -------------------------------------------------------------------------------

    /** SELECT ... ORDER BY next_run_at ASC LIMIT: the earliest due rows. */
    method SelectDue(now: int, limit: int) returns (rows: seq<Id>)
      ensures SelectsDue(State(), rows, now, limit)
    {
      var times := map id | id in jobs && DueJob(jobs[id], now) :: jobs[id].nextRunAt;
      rows := SelectEarliest(times, Clamp(limit, 1, 20));
    }

    /** Under the lease invariant at most one occurrence of a due schedule can be resumed. */
    static lemma ResumableIsOne(s: Store, clock: int, id: Id, now: int, o: Id)
      requires Inv(s, clock) && o in Resumable(s, id, now)
      ensures Resumable(s, id, now) == {o}
    {
    }

    method ClaimDue(now: int, limit: int, leaseMs: int) returns (claims: seq<Claim>, threw: bool, ghost rows: seq<Id>)
      requires Valid() && clock <= now
      modifies this
      ensures Valid() && clock == now
      ensures SelectsDue(old(State()), rows, now, limit)
      ensures
        var r := ClaimRows(old(State()), cal, rows, now, leaseMs, []);
        threw == r.Threw? && State() == (if threw then old(State()) else r.store)
          && claims == (if threw then [] else r.result)
      ensures forall x | x in claims :: Claims.Handed(State(), x, now, now + leaseMs)
    {
      var picked := SelectDue(now, limit);
      rows := picked;
      var jobs0, occurrences0, nextId0 := jobs, occurrences, nextId;
      TimePasses(State(), clock, now);
      clock := now;
      claims, threw := [], false;
      var i := 0;
      while i < |picked|
        invariant 0 <= i <= |picked| && !threw && Valid() && clock == now && deliveries == old(deliveries)
        invariant StillDue(State(), picked[i..], now)
        invariant forall k | i <= k < |picked| ::
                    picked[k] in jobs0 && picked[k] in jobs && jobs[picked[k]] == jobs0[picked[k]]
        invariant ClaimRows(old(State()), cal, picked, now, leaseMs, []) ==
                    ClaimRows(State(), cal, picked[i..], now, leaseMs, claims)
      {
        var id := picked[i];
        ghost var before := State();
        ghost var step := ClaimRow(before, cal, id, now, leaseMs);
        assert picked[i..][0] == id && picked[i..][1..] == picked[i + 1..];
        var claim, failed := ClaimOne(id, jobs0[id], now, leaseMs);
        if failed {
          jobs, occurrences, nextId := jobs0, occurrences0, nextId0;
          TimePasses(old(State()), old(clock), now);
          return [], true, rows;
        }
        RestStillDue(before, cal, picked[i..], now, leaseMs);
        ClaimRowIsLocal(before, cal, id, now, leaseMs);
        claims := Collect(claims, claim);
        i := i + 1;
      }
      Claims.ClaimsAreHanded(old(State()), old(clock), cal, picked, now, limit, leaseMs, State(), claims);
    }

    /** One iteration of the claim loop, on the job row as the selection read it. */
    method ClaimOne(id: Id, row: Job, now: int, leaseMs: int) returns (claim: Option<Claim>, failed: bool)
      requires Valid() && clock == now && id in jobs && jobs[id] == row && DueJob(row, now)
      modifies this
      ensures clock == now && deliveries == old(deliveries)
      ensures !failed ==> Valid()
      ensures
        var r := ClaimRow(old(State()), cal, id, now, leaseMs);
        failed == r.Threw? && (!failed ==> State() == r.store && claim == r.result)
    {
      ClaimRowKeeps(State(), cal, id, clock, now, leaseMs);
      if row.skipMisfires && now - row.nextRunAt > row.graceMs {
        failed := SkipOne(id, row, now);
        claim := None;
      } else {
        claim, failed := LeaseOne(id, row, now, leaseMs);
      }
    }

    method SkipOne(id: Id, row: Job, now: int) returns (failed: bool)
      requires id in jobs && jobs[id] == row
      modifies this
      ensures clock == old(clock) && deliveries == old(deliveries)
      ensures
        var r := SkipRow(old(State()), cal, id, now);
        failed == r.Threw? && (!failed ==> State() == r.store)
    {
      if !Taken(State(), id, row.nextRunAt) {
        occurrences := occurrences[nextId := Occurrence(id, row.nextRunAt, Skipped, 0, None, None, None, None, now)];
      }
      nextId := nextId + 1;
      var enabled, next := false, Some(row.nextRunAt);
      if !row.trigger.kind.At? {
        enabled, next := true, cal(row.trigger, now);
      }
      if next.None? {
        return true;
      }
      jobs := jobs[id := row.(enabled := enabled, nextRunAt := next.value, lockedUntil := None, token := None)];
      assert State() == PassedOver(old(State()), id, next.value, now);
      occurrences := PruneHistory(State(), id).occs;
      failed := false;
    }

    method LeaseOne(id: Id, row: Job, now: int, leaseMs: int) returns (claim: Option<Claim>, failed: bool)
      requires Valid() && clock == now && id in jobs && jobs[id] == row
      modifies this
      ensures clock == now && deliveries == old(deliveries)
      ensures
        var r := LeaseRow(old(State()), id, now, leaseMs);
        failed == r.Threw? && (!failed ==> State() == r.store && claim == r.result)
    {
      var token := nextId;
      var resumable := Resumable(State(), id, now);
      jobs := jobs[id := row.(lockedUntil := Some(now + leaseMs), token := Some(token))];
      if resumable != {} {
        LatestIsThere(old(State()), resumable);
        var o :| o in resumable && IsLatest(State(), resumable, o);
        ResumableIsOne(old(State()), clock, id, now, o);
        assert o == Latest(old(State()), resumable);
        var retrying := occurrences[o];
        nextId := nextId + 1;
        occurrences := occurrences[o := Resumed(retrying, token, now + leaseMs, now)];
        claim := Some(Claim(id, jobs[id], o, retrying.nominalDueAt, retrying.attempts + 1,
          IfGiven(retrying.objective), IfGiven(retrying.taskRun)));
      } else {
        if Taken(State(), id, row.nextRunAt) {
          return None, true;
        }
        var o := nextId + 1;
        nextId := nextId + 2;
        occurrences := occurrences[o := Opened(id, row.nextRunAt, token, now + leaseMs, now)];
        claim := Some(Claim(id, jobs[id], o, row.nextRunAt, 1, None, None));
      }
      failed := false;
    }

    method RenewClaim(id: Id, token: Id, until: int, now: int) returns (renewed: bool)
      requires Valid() && clock <= now
      modifies this
      ensures Valid() && clock == now
      ensures Done(State(), renewed) == Renew(old(State()), id, token, until, now)
    {
      RenewKeeps(State(), clock, id, token, until, now);
      RenewNeverThrows(State(), clock, id, token, until, now);
      clock := now;
      if id !in jobs || jobs[id].token != Some(token) {
        return false;
      }
      var held := HeldRows(State(), id, token);
      jobs := jobs[id := jobs[id].(lockedUntil := Some(until))];
      occurrences := map o | o in occurrences ::
        if o in held then occurrences[o].(expiresAt := Some(until), updatedAt := now) else occurrences[o];
      renewed := true;
    }

    method BindClaimExecution(id: Id, occurrence: Id, token: Id, objective: string, taskRun: Option<string>, now: int)
      returns (bound: bool)
      requires Valid() && clock <= now
      modifies this
      ensures Valid() && clock == now
      ensures (State(), bound) == Bind(old(State()), id, occurrence, token, objective, taskRun, now)
    {
      BindKeeps(State(), clock, id, occurrence, token, objective, taskRun, now);
      clock := now;
      bound := CanBind(State(), id, occurrence, token, now);
      if bound {
        var o := occurrences[occurrence];
        occurrences := occurrences[occurrence :=
          o.(objective := Some(objective), taskRun := if taskRun.Some? then taskRun else o.taskRun, updatedAt := now)];
      }
    }

    method Complete(claim: Claim, res: Completion, now: int) returns (accepted: bool, threw: bool)
      requires Valid() && clock <= now
      modifies this
      ensures Valid() && clock == now
      ensures
        var r := AutomationModel.Complete(old(State()), cal, claim, res, now);
        threw == r.Threw? && State() == (if threw then old(State()) else r.store) && (!threw ==> accepted == r.result)
      ensures accepted ==> exists o, d :: Completing.QueuesResult(old(State()), State(), claim, o, d, res, now)
    {
      CompleteKeeps(State(), cal, clock, claim, res, now);
      TimePasses(State(), clock, now);
      if !HoldsJob(State(), claim, now) {
        clock := now;
        return false, false;
      }
      var j := claim.jobId;
      var live := LiveRows(State(), j, claim.job.token, now);
      ghost var held := HeldByOne(State(), clock, j);
      var o :| o in live;
      clock := now;
      threw := true;
      if res.ok {
        threw := this.Settle(claim, o, res, now);
      } else {
        threw := this.Retry(claim, o, res, now);
      }
      accepted := !threw;
      if accepted {
        var carrier, delivery := Completing.CompletionQueues(old(State()), old(clock), cal, claim, res, now);
      }
    }

    /** The success branch: queue the message, close the occurrence, free the job, prune. */
    method Settle(claim: Claim, o: Id, res: Completion, now: int) returns (threw: bool)
      requires claim.jobId in jobs && o in occurrences
      modifies this
      ensures clock == old(clock)
      ensures
        var r := Succeed(old(State()), cal, claim, o, res, now);
        threw == r.Threw? && State() == if threw then old(State()) else r.store
    {
      var origin := Scheduled(claim.jobId, o);
      var deliveries0, nextId0 := deliveries, nextId;
      if res.delivery.Some? && !(exists d | d in deliveries :: deliveries[d].origin == origin) {
        var (text, key) := res.delivery.value;
        if exists d | d in deliveries :: deliveries[d].key == key {
          return true;
        }
        deliveries := deliveries[nextId := Delivery(origin, claim.job.owner, text, key, Outbox.NewRow(now), now)];
        nextId := nextId + 1;
      }
      var freed := jobs[claim.jobId].(lockedUntil := None, token := None, consecutiveErrors := 0);
      if claim.job.trigger.kind.At? && claim.job.deleteAfterRun {
        freed := freed.(enabled := false, deleted := true);
      } else {
        var next := Resumption(claim, cal, now);
        if next.None? {
          deliveries, nextId := deliveries0, nextId0;
          return true;
        }
        freed := freed.(enabled := !claim.job.trigger.kind.At?, nextRunAt := next.value, manualResumeAt := None);
      }
      occurrences := occurrences[o := Settled(occurrences[o], Succeeded, res, now)];
      jobs := jobs[claim.jobId := freed];
      ghost var closed := Closed(old(State()), claim.jobId, o, freed, Succeeded, res, now);
      assert AfterSuccess(old(jobs[claim.jobId]), claim, cal, now) == Some(freed);
      assert Done(State(), nextId != nextId0) == Enqueue(closed, origin, claim.job.owner, res.delivery, now);
      occurrences := PruneHistory(State(), claim.jobId).occs;
      threw := false;
    }

    /** The failure branch: another attempt after its backoff, or the end of the attempt budget. */
    method Retry(claim: Claim, o: Id, res: Completion, now: int) returns (threw: bool)
      requires claim.jobId in jobs && o in occurrences
      modifies this
      ensures clock == old(clock)
      ensures
        var r := Fail(old(State()), cal, claim, o, res, now);
        threw == r.Threw? && State() == if threw then old(State()) else r.store
    {
      var exhausted := occurrences[o].attempts >= claim.job.maxAttempts;
      var job := AfterFailure(jobs[claim.jobId], claim, exhausted, occurrences[o].attempts, cal, now);
      if job.None? {
        return true;
      }
      occurrences := occurrences[o := Settled(occurrences[o], if exhausted then Failed else Retrying, res, now)];
      jobs := jobs[claim.jobId := job.value];
      if exhausted {
        occurrences := PruneHistory(State(), claim.jobId).occs;
      }
      threw := false;
    }

    // ---- deliveries ---------------------------------------------------------------------------

    method SelectDeliveriesDue(now: int, limit: int) returns (rows: seq<Id>)
      ensures SelectsDeliveries(State(), rows, now, limit)
    {
      var times := map id | id in deliveries && Outbox.Due(deliveries[id].row, now) :: deliveries[id].row.nextAttemptAt;
      rows := SelectEarliest(times, Clamp(limit, 1, 20));
    }

    method ClaimDeliveriesDue(now: int, limit: int, leaseMs: int) returns (rows: seq<Id>)
      requires Valid() && clock <= now
      modifies this
      ensures Valid() && clock == now
      ensures SelectsDeliveries(old(State()), rows, now, limit)
      ensures State() == ClaimDeliveries(old(State()), rows, now, leaseMs)
    {
      rows := SelectDeliveriesDue(now, limit);
      TimePasses(State(), clock, now);
      ClaimDeliveriesKeep(State(), rows, now, now, leaseMs);
      clock := now;
      var i := 0;
      while i < |rows|
        invariant 0 <= i <= |rows| && clock == now
        invariant ClaimDeliveries(old(State()), rows, now, leaseMs) == ClaimDeliveries(State(), rows[i..], now, leaseMs)
      {
        var id := rows[i];
        assert rows[i..][0] == id && rows[i..][1..] == rows[i + 1..];
        if id in deliveries && Outbox.Due(deliveries[id].row, now) {
          var d := deliveries[id];
          deliveries := deliveries[id := d.(row := Outbox.TextClaim(d.row, nextId, now, leaseMs), updatedAt := now)];
          nextId := nextId + 1;
        }
        i := i + 1;
      }
    }

    method CompleteDelivery(id: Id, token: Id, now: int) returns (accepted: bool)
      requires Valid() && clock <= now
      modifies this
      ensures Valid() && clock == now
      ensures (State(), accepted) == AutomationModel.CompleteDelivery(old(State()), id, token, now)
    {
      TimePasses(State(), clock, now);
      SettleDeliveryKeeps(State(), now, id, token, now, now);
      clock := now;
      accepted := HoldsDelivery(State(), id, token, now);
      if accepted {
        var d := deliveries[id];
        deliveries := deliveries[id := d.(row := Outbox.TextComplete(d.row), updatedAt := now)];
        var pruned := PruneAround(State(), d);
        PruneAroundForgets(State(), d);
        deliveries, occurrences := pruned.dels, pruned.occs;
      }
    }

    method FailDelivery(id: Id, token: Id, now: int) returns (accepted: bool)
      requires Valid() && clock <= now
      modifies this
      ensures Valid() && clock == now
      ensures (State(), accepted) == AutomationModel.FailDelivery(old(State()), id, token, now)
    {
      TimePasses(State(), clock, now);
      SettleDeliveryKeeps(State(), now, id, token, now, now);
      clock := now;
      accepted := HoldsDelivery(State(), id, token, now);
      if accepted {
        var d := deliveries[id];
        var row := Outbox.TextFail(d.row, now);
        deliveries := deliveries[id := d.(row := row, updatedAt := now)];
        if row.status.Abandoned? {
          var pruned := PruneAround(State(), d);
          PruneAroundForgets(State(), d);
          deliveries, occurrences := pruned.dels, pruned.occs;
        }
      }
    }

    method DeferDelivery(id: Id, token: Id, retryAt: int, now: int) returns (accepted: bool)
      requires Valid() && clock <= now
      modifies this
      ensures Valid() && clock == now
      ensures (State(), accepted) == AutomationModel.DeferDelivery(old(State()), id, token, retryAt, now)
      ensures accepted <==> id in old(deliveries) && OutboxRows.IsHeld(old(deliveries)[id].row, token, now)
      ensures accepted ==>
                && deliveries.Keys == old(deliveries).Keys
                && forall d | d in deliveries && d != id :: deliveries[d] == old(deliveries)[d]
      ensures accepted ==> OutboxRows.TextDeferred(old(deliveries)[id].row, deliveries[id].row, retryAt, now)
    {
      TimePasses(State(), clock, now);
      SettleDeliveryKeeps(State(), now, id, token, now, retryAt);
      clock := now;
      accepted := HoldsDelivery(State(), id, token, now);
      if accepted {
        var d := deliveries[id];
        OutboxRows.RowsWrite(d.row, retryAt, now);
        deliveries := deliveries[id := d.(row := Outbox.TextDefer(d.row, retryAt, now), updatedAt := now)];
      }
    }

    method EnqueueDelivery(owner: Owner, text: string, key: string, now: int) returns (queued: bool, threw: bool)
      requires Valid() && clock <= now
      modifies this
      ensures Valid() && clock == now
      ensures
        var r := EnqueueOutbound(old(State()), owner, text, key, now);
        && threw == r.Threw?
        && State() == (if threw then old(State()) else r.store)
        && queued == (!threw && r.result)
    {
      TimePasses(State(), clock, now);
      OutgoingKeeps(State(), now, owner, text, key, now);
      clock := now;
      queued, threw := false, !Addressed(owner, text, key);
      if threw {
        return;
      }
      queued := !(exists d | d in deliveries :: deliveries[d].origin == Outbound(key) || deliveries[d].key == key);
      if queued {
        deliveries := deliveries[nextId := Delivery(Outbound(key), owner, text, key, Outbox.NewRow(now), now)];
        nextId := nextId + 1;
      }
      assert (State(), queued) == Outgoing(old(State()), owner, text, key, now);
    }
  }
}
