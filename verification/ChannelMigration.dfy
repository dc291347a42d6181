/**
 The channel-instance migration of a profile: a manifest, a before-snapshot, an after-snapshot and the
 database, written in order under the profile lock, with a crash or an I/O error possible around every
 durable write and other writers free to change the database between operations.

 A digest is modelled by the contents it digests. The database migration and its reversal are atomic
 commits, as their SQLite transactions make them.
 */
module ChannelMigration {
  import opened Wrappers

  /** Row data, and the audit table of applied migrations, whose key is the migration id. */
  datatype Db = Db(data: nat, audits: set<nat>)

  datatype Status = Prepared | Applied | RollbackPrepared | RolledBack | Aborted

  datatype Manifest = Manifest(status: Status, pre: Db, post: Db)

  /** The profile as one migration sees it: `id` names its files and its audit row. */
  datatype Profile = Profile(id: nat, db: Db, before: Option<Db>, after: Option<Db>, manifest: Option<Manifest>)

  /** What happens at one durable write: a crash loses the process, an error reaches its handlers. */
  datatype Fate = Works | DiesBefore | DiesAfter | ThrowsBefore | ThrowsAfter

  datatype Outcome = Completed | Threw | Died

  predicate Happens(f: Fate) {
    f.Works? || f.DiesAfter? || f.ThrowsAfter?
  }

  predicate Dies(f: Fate) {
    f.DiesBefore? || f.DiesAfter?
  }

  function Ending(f: Fate): Outcome {
    if f.Works? then Completed else if Dies(f) then Died else Threw
  }

  predicate Terminal(s: Status) {
    s.RolledBack? || s.Aborted?
  }

  /** The durable writes of apply, in order; `discard` is the handler's removal of the backup. */
  datatype ApplyFates = ApplyFates(
    backup: Fate,
    publish: Fate,
    prepare: Fate,
    commit: Fate,
    verify: Fate,
    finish: Fate,
    discard: Fate)

  datatype RollbackFates = RollbackFates(snapshot: Fate, prepare: Fate, restore: Fate, verify: Fate, finish: Fate)

  function Migrated(db: Db, id: nat, data: nat): Db {
    Db(data, db.audits + {id})
  }

  /** The handler of a failed apply: the backup goes unless the manifest was recorded as persisted. */
  function Discarded(p: Profile, f: Fate): Profile {
    if Happens(f) then p.(before := None) else p
  }

  function AfterError(p: Profile, f: Fate): Outcome {
    if Dies(f) then Died else Threw
  }

  function Apply(p: Profile, data: nat, f: ApplyFates): (Profile, Outcome) {
    if p.before.Some? || p.manifest.Some? then (p, Threw)
    else if Dies(f.backup) then (p, Died)
    else if !f.backup.Works? || p.id in p.db.audits then (Discarded(p, f.discard), AfterError(p, f.discard))
    else
      var post := Migrated(p.db, p.id, data);
      var published := if Happens(f.publish) then p.(before := Some(p.db)) else p;
      if Dies(f.publish) then (published, Died)
      else if !f.publish.Works? then (Discarded(published, f.discard), AfterError(p, f.discard))
      else
        var first := Manifest(Prepared, p.db, post);
        var prepared := if Happens(f.prepare) then published.(manifest := Some(first)) else published;
        if Dies(f.prepare) then (prepared, Died)
        else if !f.prepare.Works? then (Discarded(prepared, f.discard), AfterError(p, f.discard))
        else
          var committed := if Happens(f.commit) then prepared.(db := post) else prepared;
          if !f.commit.Works? then (committed, Ending(f.commit))
          else if !f.verify.Works? then (committed, Ending(f.verify))
          else
            var applied := committed.(manifest := Some(Manifest(Applied, p.db, post)));
            (if Happens(f.finish) then applied else committed, Ending(f.finish))
  }

  function WithStatus(p: Profile, status: Status): Profile
    requires p.manifest.Some?
  {
    p.(manifest := Some(p.manifest.value.(status := status)))
  }

  function WriteStatus(p: Profile, status: Status, f: Fate): (Profile, Outcome)
    requires p.manifest.Some?
  {
    (if Happens(f) then WithStatus(p, status) else p, Ending(f))
  }

  function Rollback(p: Profile, f: RollbackFates): (Profile, Outcome) {
    if p.manifest.None? || Terminal(p.manifest.value.status) then (p, Threw)
    else
      var m := p.manifest.value;
      if p.before != Some(m.pre) then (p, Threw)
      else if m.status.Prepared? && p.db == m.pre then WriteStatus(p, Aborted, f.finish)
      else if m.status.RollbackPrepared? && p.db == m.pre then WriteStatus(p, RolledBack, f.finish)
      else if p.db != m.post || (p.after.Some? && p.after != Some(m.post)) then (p, Threw)
      else
        var kept := if p.after.Some? || !Happens(f.snapshot) then p else p.(after := Some(p.db));
        if p.after.None? && !f.snapshot.Works? then (kept, Ending(f.snapshot))
        else
          var (prepared, first) := WriteStatus(kept, RollbackPrepared, f.prepare);
          if !first.Completed? then (prepared, first)
          else
            var restored := if Happens(f.restore) then prepared.(db := p.before.value) else prepared;
            if !f.restore.Works? then (restored, Ending(f.restore))
            else if !f.verify.Works? then (restored, Ending(f.verify))
            else WriteStatus(restored, RolledBack, f.finish)
  }

  // ---- the invariant --------------------------------------------------------------------------

  /** Whatever the manifest says can still be undone with the files beside it. */
  ghost predicate Recoverable(p: Profile) {
    p.manifest.Some? ==>
      var m := p.manifest.value;
      && p.before == Some(m.pre)
      && m.pre != m.post
      && (m.status.RollbackPrepared? || m.status.RolledBack? ==> p.after == Some(m.post))
  }

  /** The manifest write failed after its rename: the handler takes the manifest for unwritten. */
  predicate Misjudged(p: Profile, f: ApplyFates) {
    && p.before.None? && p.manifest.None?
    && f.backup.Works? && p.id !in p.db.audits
    && f.publish.Works? && f.prepare.ThrowsAfter? && Happens(f.discard)
  }

  /** Apply keeps the profile recoverable exactly when it does not misjudge its manifest write. */
  lemma ApplyKeepsRecoverable(p: Profile, data: nat, f: ApplyFates)
    requires Recoverable(p)
    ensures Recoverable(Apply(p, data, f).0) <==> !Misjudged(p, f)
  {
    assert p.id !in p.db.audits ==> Migrated(p.db, p.id, data) != p.db;
  }

  lemma RollbackKeepsRecoverable(p: Profile, f: RollbackFates)
    requires Recoverable(p)
    ensures Recoverable(Rollback(p, f).0)
  {
  }

  /** A misjudged apply: the error after the rename leaves a prepared manifest without its backup. */
  lemma MisjudgedWitness()
    ensures
      var p := Profile(0, Db(1, {}), None, None, None);
      var f := ApplyFates(Works, Works, ThrowsAfter, Works, Works, Works, Works);
      var q := Apply(p, 2, f).0;
      Recoverable(p) && !Recoverable(q) && q.manifest == Some(Manifest(Prepared, Db(1, {}), Db(2, {0})))
        && q.before.None? && q.db == p.db
  {
    assert {} + {0} == {0};
  }

  datatype Event = DoApply(data: nat, applyFates: ApplyFates) | DoRollback(rollbackFates: RollbackFates) | Write(db: Db)

  function Next(p: Profile, e: Event): Profile {
    match e
    case DoApply(data, f) => Apply(p, data, f).0
    case DoRollback(f) => Rollback(p, f).0
    case Write(db) => p.(db := db)
  }

  function Run(p: Profile, events: seq<Event>): Profile
    decreases |events|
  {
    if events == [] then p else Run(Next(p, events[0]), events[1..])
  }

  /** Recoverability over any operations, crashes, errors and foreign writes, but for that one error. */
  lemma {:induction false} RunsKeepRecoverable(p: Profile, events: seq<Event>)
    requires Recoverable(p)
    requires forall i | 0 <= i < |events| && events[i].DoApply? :: !events[i].applyFates.prepare.ThrowsAfter?
    ensures Recoverable(Run(p, events))
    decreases |events|
  {
    if events != [] {
      match events[0] {
        case DoApply(data, f) => ApplyKeepsRecoverable(p, data, f);
        case DoRollback(f) => RollbackKeepsRecoverable(p, f);
        case Write(_) =>
      }
      RunsKeepRecoverable(Next(p, events[0]), events[1..]);
    }
  }

  /**
   A migration left by that error is stuck: every later operation under its id throws and changes nothing,
   so its manifest can never be rolled back.
   */
  lemma {:induction false} MisjudgedForever(p: Profile, events: seq<Event>)
    requires p.before.None? && p.manifest.Some?
    ensures Run(p, events).before.None? && Run(p, events).manifest == p.manifest
    ensures forall data, f :: Apply(Run(p, events), data, f) == (Run(p, events), Threw)
    ensures forall f :: Rollback(Run(p, events), f) == (Run(p, events), Threw)
    decreases |events|
  {
    if events != [] {
      MisjudgedForever(Next(p, events[0]), events[1..]);
    }
  }

  /**
   Under another id, whose files and audit row do not exist, the same profile can still be migrated: nothing
   the stuck migration left stands in the way, and the database it finds is the one that was never changed.
   */
  lemma AnotherIdApplies(p: Profile, data: nat, f: ApplyFates, id: nat, again: nat)
    requires p.before.None? && p.manifest.None? && Misjudged(p, f)
    requires id != p.id && id !in p.db.audits
    ensures
      var stuck := Apply(p, data, f).0;
      var other := Profile(id, stuck.db, None, None, None);
      var r := Apply(other, again, ApplyFates(Works, Works, Works, Works, Works, Works, Works));
      && stuck.manifest.Some? && stuck.before.None? && stuck.db == p.db
      && r.1.Completed? && Recoverable(r.0) && r.0.db == Db(again, p.db.audits + {id})
      && r.0.manifest == Some(Manifest(Applied, p.db, r.0.db)) && r.0.before == Some(p.db)
  {
    assert id in Migrated(p.db, id, again).audits;
  }

  // ---- what rollback does ---------------------------------------------------------------------

  /** Terminal statuses are absorbing: no event ever changes the manifest or its snapshots again. */
  lemma {:induction false} TerminalForever(p: Profile, events: seq<Event>)
    requires p.manifest.Some? && Terminal(p.manifest.value.status)
    ensures Run(p, events).manifest == p.manifest && Run(p, events).before == p.before
            && Run(p, events).after == p.after
    decreases |events|
  {
    if events != [] {
      TerminalForever(Next(p, events[0]), events[1..]);
    }
  }

  /**
   An undisturbed rollback completes exactly when the backup is that of the manifest, the manifest is not
   terminal, and the database is still what the migration wrote, with no other after-snapshot, or the manifest
   shows that the commit, or the restore, was the step at which things stopped. It then leaves the original
   database: aborted if it was never migrated, and otherwise rolled back.
   */
  lemma RollbackCompletesExactly(p: Profile)
    ensures
      var r := Rollback(p, RollbackFates(Works, Works, Works, Works, Works));
      && (r.1 == Completed <==>
            && p.manifest.Some? && p.before == Some(p.manifest.value.pre)
            && var m := p.manifest.value;
               || (p.db == m.pre && m.status in {Prepared, RollbackPrepared})
               || (p.db == m.post && m.status in {Prepared, Applied, RollbackPrepared}
                   && (p.after.Some? ==> p.after.value == m.post)))
      && (r.1 != Completed ==> r == (p, Threw))
      && (r.1 == Completed ==>
            var m := p.manifest.value;
            if p.db == m.pre && m.status == Prepared then
              r.0 == p.(manifest := Some(Manifest(Aborted, m.pre, m.post)))
            else if p.db == m.pre && m.status == RollbackPrepared then
              r.0 == p.(manifest := Some(Manifest(RolledBack, m.pre, m.post)))
            else
              r.0 == Profile(p.id, m.pre, p.before, Some(m.post), Some(Manifest(RolledBack, m.pre, m.post))))
  {
  }

  /** What a rollback leaves, wherever it is stopped: its writes are made in order, each whole or not at all. */
  lemma RollbackLeaves(p: Profile, f: RollbackFates)
    ensures
      var q := Rollback(p, f).0;
      || q == p
      || (p.manifest.Some? && !Terminal(p.manifest.value.status) && p.before == Some(p.manifest.value.pre)
          && var m := p.manifest.value;
             || (p.db == m.pre && m.status == Prepared && q == p.(manifest := Some(m.(status := Aborted))))
             || (p.db == m.pre && m.status == RollbackPrepared && q == p.(manifest := Some(m.(status := RolledBack))))
             || (p.db == m.post
                 && var saved := p.(after := Some(m.post));
                    || q == saved
                    || q == saved.(manifest := Some(m.(status := RollbackPrepared)))
                    || q == saved.(manifest := Some(m.(status := RollbackPrepared)), db := m.pre)
                    || q == saved.(manifest := Some(m.(status := RolledBack)), db := m.pre)))
  {
  }

  // ---- what apply does ------------------------------------------------------------------------

  /**
   An undisturbed apply completes exactly when neither a backup nor a manifest nor an audit row of its id is
   there. It then leaves the new data and the audit row in the database, the old contents in the backup, and a
   manifest that says what was applied; otherwise it changes nothing.
   */
  lemma ApplyCompletesExactly(p: Profile, data: nat)
    ensures
      var r := Apply(p, data, ApplyFates(Works, Works, Works, Works, Works, Works, Works));
      if p.before == None && p.manifest == None && p.id !in p.db.audits then
        var post := Db(data, p.db.audits + {p.id});
        r == (Profile(p.id, post, Some(p.db), p.after, Some(Manifest(Applied, p.db, post))), Completed)
      else r == (p, Threw)
  {
  }

  /**
   What an apply leaves, wherever it is stopped: its writes are made in order, each whole or not at all. If it
   throws before its manifest is written, it removes the backup again, and so leaves nothing.
   */
  lemma ApplyLeaves(p: Profile, data: nat, f: ApplyFates)
    requires !Misjudged(p, f)
    ensures
      var (q, outcome) := Apply(p, data, f);
      var post := Db(data, p.db.audits + {p.id});
      var saved := p.(before := Some(p.db));
      && (|| q == p
          || (p.before == None && p.manifest == None && p.id !in p.db.audits
              && (|| q == saved
                  || q == saved.(manifest := Some(Manifest(Prepared, p.db, post)))
                  || q == saved.(manifest := Some(Manifest(Prepared, p.db, post)), db := post)
                  || q == saved.(manifest := Some(Manifest(Applied, p.db, post)), db := post))))
      && (outcome == Threw && q.manifest == None && Happens(f.discard) ==> q == p)
      && (outcome == Completed ==> q.db == post && q.manifest == Some(Manifest(Applied, p.db, post)))
  {
  }

  // ---- crash recovery -------------------------------------------------------------------------

  /** Between a migration and its undoing, with no foreign write, the database is one of the two. */
  ghost predicate Between(p: Profile, pre: Db) {
    && Recoverable(p)
    && (if p.manifest.None? then p.db == pre && p.after.None?
        else
          var m := p.manifest.value;
          && m.pre == pre
          && (p.db == m.pre || p.db == m.post)
          && (m.status.Applied? ==> p.db == m.post)
          && (Terminal(m.status) ==> p.db == pre)
          && (p.after.Some? ==> p.after == Some(m.post)))
  }

  function Attempts(p: Profile, attempts: seq<RollbackFates>): Profile
    decreases |attempts|
  {
    if attempts == [] then p else Attempts(Rollback(p, attempts[0]).0, attempts[1..])
  }

  lemma {:induction false} AttemptsStayBetween(p: Profile, attempts: seq<RollbackFates>, pre: Db)
    requires Between(p, pre)
    ensures Between(Attempts(p, attempts), pre)
    decreases |attempts|
  {
    if attempts != [] {
      assert Between(Rollback(p, attempts[0]).0, pre);
      AttemptsStayBetween(Rollback(p, attempts[0]).0, attempts[1..], pre);
    }
  }

  /**
   Crash recovery: whatever crash or error stops an apply, but for the one that misjudges its manifest,
   and however many rollbacks are then cut short wherever, one undisturbed rollback, where there is a
   manifest to roll back, leaves the original database under a terminal manifest.
   */
  lemma CrashRecovery(p: Profile, data: nat, f: ApplyFates, attempts: seq<RollbackFates>)
    requires p.before.None? && p.manifest.None? && p.after.None? && !Misjudged(p, f)
    ensures
      var q := Attempts(Apply(p, data, f).0, attempts);
      var r := Rollback(q, RollbackFates(Works, Works, Works, Works, Works)).0;
      && r.db == p.db
      && (q.manifest.Some? ==> r.manifest.Some? && Terminal(r.manifest.value.status) && r.manifest.value.pre == p.db)
  {
    assert p.id !in p.db.audits ==> Migrated(p.db, p.id, data) != p.db;
    assert Between(Apply(p, data, f).0, p.db);
    AttemptsStayBetween(Apply(p, data, f).0, attempts, p.db);
  }
}
