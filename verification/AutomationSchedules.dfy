/**
 What users' calls on schedules do, column by column: who may edit a schedule, which calls are refused,
 and every column of the rows they store.
 */
module AutomationSchedules {
  import opened Wrappers
  import opened AutomationModel

  ghost predicate InWords(s: string, most: nat) {
    !AllBlank(s, IsSpaceChar) && |s| <= most
  }

  /** The schedule is there, and the caller is in its chat or is its user. */
  ghost predicate MayEdit(s: Store, id: Id, owner: Owner) {
    && id in s.jobs && !s.jobs[id].deleted
    && var own := s.jobs[id].owner;
       && own.platform == owner.platform && own.instance == owner.instance
       && (own.chat == owner.chat || (owner.user.Some? && owner.user.value != "" && own.user == owner.user))
  }

  function Within(x: int, lo: int, hi: int): int {
    if x < lo then lo else if x > hi then hi else x
  }

  lemma InputExactly(name: string, text: string, chat: string)
    ensures ValidInput(name, text, chat) <==> InWords(name, 120) && InWords(text, 20_000) && chat != ""
  {
    TrimsToNothing(name);
    TrimsToNothing(text);
  }

  /** A schedule is stored exactly when it has a name, a text, a chat and a next due time; and as what. */
  lemma CreateExactly(s: Store, cal: Calendar, input: JobInput, now: int)
    ensures Create(s, cal, input, now).Done? <==>
              && InWords(input.name, 120) && InWords(input.text, 20_000) && input.owner.chat != ""
              && cal(input.trigger, now).Some?
    ensures Create(s, cal, input, now).Done? ==>
              var Done(t, id) := Create(s, cal, input, now);
              && s.nextId <= id < t.nextId && t.occs == s.occs && t.dels == s.dels
              && t.jobs == s.jobs[id := Job(
                   input.owner, Trim(input.name), Trim(input.text),
                   Trigger(input.trigger.kind, Trim(input.trigger.value), input.trigger.timezone),
                   if input.deleteAfterRun.Some? then input.deleteAfterRun.value else input.trigger.kind.At?,
                   if input.maxAttempts.Some? then Within(input.maxAttempts.value, 1, 20) else 3,
                   input.skipMisfires == Some(true),
                   if input.graceMs.Some? then Within(input.graceMs.value, 0, 604_800_000) else 300_000,
                   true, false, cal(input.trigger, now).value, None, None, None, 0)]
  {
    InputExactly(input.name, input.text, input.owner.chat);
  }

  function Or<T>(given: Option<T>, current: T): T {
    if given.Some? then given.value else current
  }

  /** The trigger an edit leads to; a time zone stored as an empty string is dropped on the way. */
  function TriggerAfter(job: Job, patch: Patch): Trigger {
    Trigger(
      Or(patch.kind, job.trigger.kind),
      Or(patch.value, job.trigger.value),
      if patch.timezone.Some? then patch.timezone
      else if job.trigger.timezone == Some("") then None
      else job.trigger.timezone)
  }

  predicate MovesTrigger(patch: Patch) {
    patch.kind != None || patch.value != None || patch.timezone != None
  }

  /** The row an edit leaves: what the patch names is replaced, all else stays, the claim columns too. */
  ghost predicate IsEdited(job: Job, patch: Patch, cal: Calendar, now: int, edited: Job) {
    && edited == job.(
         name := edited.name, text := edited.text, trigger := edited.trigger,
         deleteAfterRun := edited.deleteAfterRun, maxAttempts := edited.maxAttempts,
         skipMisfires := edited.skipMisfires, graceMs := edited.graceMs, nextRunAt := edited.nextRunAt)
    && edited.name == Trim(Or(patch.name, job.name))
    && edited.text == Trim(Or(patch.text, job.text))
    && edited.trigger.kind == Or(patch.kind, job.trigger.kind)
    && edited.trigger.value == Trim(Or(patch.value, job.trigger.value))
    && edited.trigger.timezone == TriggerAfter(job, patch).timezone
    && edited.deleteAfterRun == Or(patch.deleteAfterRun, job.deleteAfterRun)
    && edited.maxAttempts == Within(Or(patch.maxAttempts, job.maxAttempts), 1, 20)
    && edited.skipMisfires == Or(patch.skipMisfires, job.skipMisfires)
    && edited.graceMs == Within(Or(patch.graceMs, job.graceMs), 0, 604_800_000)
    && Some(edited.nextRunAt) == if MovesTrigger(patch) then cal(TriggerAfter(job, patch), now) else Some(job.nextRunAt)
  }

  /** An edit goes through exactly when it may, nobody runs the schedule and the outcome is valid. */
  lemma UpdateExactly(s: Store, cal: Calendar, id: Id, patch: Patch, owner: Owner, now: int)
    ensures Update(s, cal, id, patch, owner, now).Done? <==>
              && MayEdit(s, id, owner) && s.jobs[id].token.None?
              && InWords(Or(patch.name, s.jobs[id].name), 120) && InWords(Or(patch.text, s.jobs[id].text), 20_000)
              && s.jobs[id].owner.chat != ""
              && (MovesTrigger(patch) ==> cal(TriggerAfter(s.jobs[id], patch), now).Some?)
    ensures Update(s, cal, id, patch, owner, now).Done? ==>
              var t := Update(s, cal, id, patch, owner, now).store;
              && id in t.jobs && t == s.(jobs := s.jobs[id := t.jobs[id]])
              && IsEdited(s.jobs[id], patch, cal, now, t.jobs[id])
  {
    if id in s.jobs {
      InputExactly(Or(patch.name, s.jobs[id].name), Or(patch.text, s.jobs[id].text), s.jobs[id].owner.chat);
      assert Patched(s.jobs[id].trigger, patch) == TriggerAfter(s.jobs[id], patch);
    }
  }

  /** A manual start needs an enabled schedule that is neither running nor started by hand already. */
  lemma RunNowExactly(s: Store, id: Id, owner: Owner, now: int)
    ensures RunNow(s, id, owner, now).1 <==>
              && MayEdit(s, id, owner) && s.jobs[id].enabled && s.jobs[id].token.None?
              && s.jobs[id].manualResumeAt.None?
    ensures
      var (t, started) := RunNow(s, id, owner, now);
      if started then
        var aside := if s.jobs[id].trigger.kind.At? then None else Some(s.jobs[id].nextRunAt);
        t == s.(jobs := s.jobs[id := s.jobs[id].(nextRunAt := now, manualResumeAt := aside)])
      else t == s
  {
  }

  /** Resuming computes the next due time anew, pausing leaves it; a schedule that is not there is left alone. */
  lemma SetEnabledExactly(s: Store, cal: Calendar, id: Id, enabled: bool, owner: Owner, now: int)
    ensures
      var r := SetEnabled(s, cal, id, enabled, owner, now);
      if !MayEdit(s, id, owner) then r == Done(s, false)
      else if !enabled then r == Done(s.(jobs := s.jobs[id := s.jobs[id].(enabled := false)]), true)
      else if cal(s.jobs[id].trigger, now).None? then r.Threw?
      else
        var next := cal(s.jobs[id].trigger, now).value;
        r == Done(s.(jobs := s.jobs[id := s.jobs[id].(enabled := true, nextRunAt := next)]), true)
  {
  }

  /** Removing takes the schedule, its occurrences and its deliveries with it, and nothing else. */
  lemma RemoveExactly(s: Store, id: Id, owner: Owner)
    ensures Remove(s, id, owner).1 <==>
              && id in s.jobs
              && s.jobs[id].owner.platform == owner.platform && s.jobs[id].owner.instance == owner.instance
              && (s.jobs[id].owner.chat == owner.chat || (owner.user != None && s.jobs[id].owner.user == owner.user))
    ensures
      var (t, removed) := Remove(s, id, owner);
      if removed then
        && t.nextId == s.nextId
        && t.jobs == s.jobs - {id}
        && (forall o :: o in t.occs <==> o in s.occs && s.occs[o].schedule != id)
        && (forall o | o in t.occs :: t.occs[o] == s.occs[o])
        && (forall d :: d in t.dels <==>
              d in s.dels && !(s.dels[d].origin.Scheduled? && s.dels[d].origin.schedule == id))
        && (forall d | d in t.dels :: t.dels[d] == s.dels[d])
      else t == s
  {
  }
}
