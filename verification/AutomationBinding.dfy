/**
 What is bound to an occurrence lasts: the objective and the task run last written to it come out of the
 next claim that resumes it, through whatever retries, lost leases and other calls lie between.
 */
module AutomationBinding {
  import opened Wrappers
  import opened AutomationModel
  import opened AutomationInvariant
  import opened AutomationRuns
  import opened AutomationFencing
  import opened AutomationCalendar
  import opened AutomationRetry
  import opened AutomationClaims

  datatype Execution = Execution(objective: Option<string>, taskRun: Option<string>)

  function ExecutionOf(o: Occurrence): Execution {
    Execution(o.objective, o.taskRun)
  }

  function Later(given: Option<string>, before: Option<string>): Option<string> {
    if given.Some? then given else before
  }

  /** What a call writes to the execution of occurrence `o`: an accepted binding, or an accepted completion. */
  ghost function Written(s: Store, cal: Calendar, c: Call, o: Id, before: Execution): Execution {
    if !Apply(s, cal, c).ok then before
    else
      match c.op
      case OpBind(_, occurrence, _, objective, taskRun) =>
        if occurrence == o then Execution(Some(objective), Later(taskRun, before.taskRun)) else before
      case OpComplete(claim, res) =>
        if o in s.occs && s.occs[o].status == Status.Claimed && s.occs[o].token == claim.job.token
        then Execution(Later(res.objective, before.objective), Later(res.taskRun, before.taskRun))
        else before
      case _ => before
  }

  /** What was written last over a run. */
  ghost function LastWritten(w: World, cal: Calendar, calls: seq<Call>, o: Id, before: Execution): Execution
    decreases |calls|
  {
    if calls == [] then before
    else LastWritten(Next(w, cal, calls[0]), cal, calls[1..], o, Written(w.store, cal, calls[0], o, before))
  }

  /** The occurrence, while it is there, is bound to this execution. */
  ghost predicate IsBound(s: Store, o: Id, e: Execution) {
    o < s.nextId && (o in s.occs ==> ExecutionOf(s.occs[o]) == e)
  }

  lemma ClaimRowKeepsBound(s: Store, clock: int, cal: Calendar, j: Id, now: int, leaseMs: int, o: Id, e: Execution)
    requires Inv(s, clock) && clock <= now && j in s.jobs && DueJob(s.jobs[j], now) && IsBound(s, o, e)
    requires ClaimRow(s, cal, j, now, leaseMs).Done?
    ensures IsBound(ClaimRow(s, cal, j, now, leaseMs).store, o, e)
  {
    ClaimRowEvolves(s, cal, j, now, leaseMs);
    if Misfired(s.jobs[j], now) {
      SkipWrites(s, clock, cal, j, now);
    } else {
      LeaseWrites(s, clock, j, now, leaseMs);
      LeaseKeepsExecution(s, j, now, leaseMs);
    }
  }

  lemma LeaseKeepsExecution(s: Store, j: Id, now: int, leaseMs: int)
    requires j in s.jobs && LeaseRow(s, j, now, leaseMs).Done?
    ensures
      var t, o := LeaseRow(s, j, now, leaseMs).store, LeaseRow(s, j, now, leaseMs).result.value.occurrence;
      o in t.occs && (o in s.occs && o < s.nextId ==> ExecutionOf(t.occs[o]) == ExecutionOf(s.occs[o]))
  {
  }

  lemma {:induction false} ClaimRowsKeepBound(s: Store, clock: int, cal: Calendar, rows: seq<Id>, now: int,
          leaseMs: int, claims: seq<Claim>, o: Id, e: Execution)
    requires Inv(s, clock) && clock <= now && StillDue(s, rows, now) && IsBound(s, o, e)
    requires ClaimRows(s, cal, rows, now, leaseMs, claims).Done?
    ensures IsBound(ClaimRows(s, cal, rows, now, leaseMs, claims).store, o, e)
    decreases |rows|
  {
    if rows != [] {
      var r := ClaimRow(s, cal, rows[0], now, leaseMs);
      ClaimRowKeeps(s, cal, rows[0], clock, now, leaseMs);
      RestStillDue(s, cal, rows, now, leaseMs);
      ClaimRowKeepsBound(s, clock, cal, rows[0], now, leaseMs, o, e);
      ClaimRowsKeepBound(r.store, now, cal, rows[1..], now, leaseMs, Collect(claims, r.result), o, e);
    }
  }

  lemma ScheduleCallsKeepBound(s: Store, cal: Calendar, c: Call, o: Id, e: Execution)
    requires OnSchedules(c.op) && IsBound(s, o, e)
    ensures IsBound(Apply(s, cal, c).store, o, e)
  {
  }

  lemma HoldingCallsBind(s: Store, clock: int, cal: Calendar, c: Call, o: Id, e: Execution)
    requires Inv(s, clock) && (c.op.OpRenew? || c.op.OpBind?) && IsBound(s, o, e)
    ensures IsBound(Apply(s, cal, c).store, o, Written(s, cal, c, o, e))
  {
  }

  lemma CompletionBinds(s: Store, clock: int, cal: Calendar, c: Call, o: Id, e: Execution)
    requires Inv(s, clock) && c.op.OpComplete? && IsBound(s, o, e)
    ensures IsBound(Apply(s, cal, c).store, o, Written(s, cal, c, o, e))
  {
    if Apply(s, cal, c).ok {
      var p, job, t := CompletionShape(s, cal, clock, c.op.claim, c.op.res, c.now);
      if o in s.occs && o != p {
        assert !(s.occs[o].status == Status.Claimed && s.occs[o].token == c.op.claim.job.token);
      }
    } else {
      RefusalsChangeNothing(s, clock, cal, c);
    }
  }

  lemma CallBinds(w: World, cal: Calendar, c: Call, o: Id, e: Execution)
    requires Inv(w.store, w.clock) && Allowed(w, c) && IsBound(w.store, o, e)
    ensures IsBound(Next(w, cal, c).store, o, Written(w.store, cal, c, o, e))
  {
    if OnSchedules(c.op) {
      ScheduleCallsKeepBound(w.store, cal, c, o, e);
    } else if c.op.OpClaimDue? {
      if !Apply(w.store, cal, c).threw {
        ClaimRowsKeepBound(w.store, w.clock, cal, c.op.rows, c.now, c.op.leaseMs, [], o, e);
      }
    } else if c.op.OpComplete? {
      CompletionBinds(w.store, w.clock, cal, c, o, e);
    } else if OnClaims(c.op) {
      HoldingCallsBind(w.store, w.clock, cal, c, o, e);
    } else {
      DeliveryCallsForget(w.store, cal, c);
    }
  }

  lemma {:induction false} RunsBind(w: World, cal: Calendar, calls: seq<Call>, o: Id, e: Execution)
    requires Inv(w.store, w.clock) && AllAllowed(w, cal, calls) && IsBound(w.store, o, e)
    ensures IsBound(Run(w, cal, calls).store, o, LastWritten(w, cal, calls, o, e))
    decreases |calls|
  {
    if calls != [] {
      CallBinds(w, cal, calls[0], o, e);
      NextKeepsLeases(w, cal, calls[0]);
      RunsBind(Next(w, cal, calls[0]), cal, calls[1..], o, Written(w.store, cal, calls[0], o, e));
    }
  }

  /** Nothing is written to the occurrence in between. */
  ghost predicate NothingWritten(w: World, cal: Calendar, calls: seq<Call>, o: Id)
    decreases |calls|
  {
    calls != [] ==>
      && !(calls[0].op.OpBind? && calls[0].op.occurrence == o)
      && !(calls[0].op.OpComplete? && o in w.store.occs && w.store.occs[o].token == calls[0].op.claim.job.token
           && (calls[0].op.res.objective.Some? || calls[0].op.res.taskRun.Some?))
      && NothingWritten(Next(w, cal, calls[0]), cal, calls[1..], o)
  }

  lemma {:induction false} LastStays(w: World, cal: Calendar, calls: seq<Call>, o: Id, e: Execution)
    requires NothingWritten(w, cal, calls, o)
    ensures LastWritten(w, cal, calls, o, e) == e
    decreases |calls|
  {
    if calls != [] {
      assert Written(w.store, cal, calls[0], o, e) == e;
      LastStays(Next(w, cal, calls[0]), cal, calls[1..], o, e);
    }
  }

  /** A claim of an occurrence, at the end of any run, carries what was written to it last. */
  lemma ClaimsCarryTheLast(w: World, cal: Calendar, calls: seq<Call>, again: Call, o: Id, x: Claim)
    requires Inv(w.store, w.clock) && AllAllowed(w, cal, calls + [again])
    requires o in w.store.occs && again.op.OpClaimDue?
    requires x in Apply(Run(w, cal, calls).store, cal, again).claims && x.occurrence == o
    ensures
      var last := LastWritten(w, cal, calls, o, ExecutionOf(w.store.occs[o]));
      x.objective == PassedOn(last.objective) && x.taskRun == PassedOn(last.taskRun)
  {
    assert OccurrenceOk(w.store, w.clock, o);
    LastCall(w, cal, calls, again);
    var last := LastWritten(w, cal, calls, o, ExecutionOf(w.store.occs[o]));
    RunsBind(w, cal, calls, o, ExecutionOf(w.store.occs[o]));
    ClaimCarriesBound(Run(w, cal, calls), cal, again, o, last, x);
  }

  lemma ClaimCarriesBound(w: World, cal: Calendar, c: Call, o: Id, e: Execution, x: Claim)
    requires Inv(w.store, w.clock) && Allowed(w, c) && c.op.OpClaimDue? && IsBound(w.store, o, e)
    requires x in Apply(w.store, cal, c).claims && x.occurrence == o
    ensures x.objective == PassedOn(e.objective) && x.taskRun == PassedOn(e.taskRun)
  {
    assert !Apply(w.store, cal, c).threw;
    ClaimStatement(w, cal, c);
  }

  /**
   What a worker binds comes back: after an accepted binding and any calls that write nothing else to its
   occurrence, retries and lost leases included, the next claim of the occurrence carries the objective bound,
   and the task run bound with it or, failing that, before it.
   */
  lemma BoundComesBack(w: World, cal: Calendar, bind: Call, calls: seq<Call>, again: Call, x: Claim)
    requires Inv(w.store, w.clock) && AllAllowed(w, cal, [bind] + (calls + [again]))
    requires bind.op.OpBind? && Apply(w.store, cal, bind).ok
    requires NothingWritten(Next(w, cal, bind), cal, calls, bind.op.occurrence)
    requires again.op.OpClaimDue? && x.occurrence == bind.op.occurrence
    requires x in Apply(Run(Next(w, cal, bind), cal, calls).store, cal, again).claims
    ensures bind.op.occurrence in w.store.occs
    ensures x.objective == if bind.op.objective == "" then None else Some(bind.op.objective)
    ensures x.taskRun == PassedOn(Later(bind.op.taskRun, w.store.occs[bind.op.occurrence].taskRun))
  {
    var o := bind.op.occurrence;
    var all := [bind] + (calls + [again]);
    assert all[0] == bind && all[1..] == calls + [again];
    NextKeepsLeases(w, cal, bind);
    var v := Next(w, cal, bind);
    assert o in v.store.occs;
    LastStays(v, cal, calls, o, ExecutionOf(v.store.occs[o]));
    ClaimsCarryTheLast(v, cal, calls, again, o, x);
  }
}
