/**
 The operations of the channel-instance migration as they write: one durable write after another, on
 the files and the database of one profile. Each is proved to have the effect of the function of the
 same name, for every fate of every write.
 */
module MigrationDirectory {
  import opened Wrappers
  import opened Spec = ChannelMigration

  /** The profile's files and database, written in place, one durable write after another. */
  class Directory {
    const id: nat
    var db: Db
    var before: Option<Db>
    var after: Option<Db>
    var manifest: Option<Manifest>

    function State(): Profile
      reads this
    {
      Profile(id, db, before, after, manifest)
    }

    constructor (id: nat, db: Db)
      ensures State() == Profile(id, db, None, None, None)
    {
      this.id, this.db := id, db;
      before, after, manifest := None, None, None;
    }

    /** The sequence inside the try block; `persisted` is what the handler is told. */
    method TryApply(data: nat, f: ApplyFates) returns (outcome: Outcome, persisted: bool)
      requires before.None? && manifest.None?
      modifies this
      ensures after == old(after)
      ensures
        var r := Spec.Apply(old(State()), data, f.(discard := ThrowsBefore));
        State() == r.0 && outcome == r.1
      ensures
        var reached := f.backup.Works? && id !in old(db.audits) && f.publish.Works? && f.prepare.Works?;
        persisted == reached && (outcome.Threw? && !persisted ==> db == old(db))
    {
      persisted := false;
      if Dies(f.backup) {
        return Died, persisted;
      }
      if !f.backup.Works? || id in db.audits {
        return Threw, persisted;
      }
      var pre, post := db, Migrated(db, id, data);
      if Happens(f.publish) {
        before := Some(pre);
      }
      if !f.publish.Works? {
        return Ending(f.publish), persisted;
      }
      if Happens(f.prepare) {
        manifest := Some(Manifest(Prepared, pre, post));
      }
      if !f.prepare.Works? {
        return Ending(f.prepare), persisted;
      }
      persisted := true;
      if Happens(f.commit) {
        db := post;
      }
      if !f.commit.Works? {
        return Ending(f.commit), persisted;
      }
      if !f.verify.Works? {
        return Ending(f.verify), persisted;
      }
      if Happens(f.finish) {
        manifest := Some(Manifest(Applied, pre, post));
      }
      outcome := Ending(f.finish);
    }

    method Apply(data: nat, f: ApplyFates) returns (outcome: Outcome)
      modifies this
      ensures (State(), outcome) == Spec.Apply(old(State()), data, f)
      ensures Recoverable(old(State())) ==> (Recoverable(State()) <==> !Misjudged(old(State()), f))
      ensures outcome.Completed? ==> manifest.Some? && manifest.value.status.Applied? && db == manifest.value.post
    {
      if Recoverable(State()) {
        ApplyKeepsRecoverable(State(), data, f);
      }
      if before.Some? || manifest.Some? {
        return Threw;
      }
      var persisted;
      outcome, persisted := TryApply(data, f);
      if outcome.Threw? && !persisted {
        if Happens(f.discard) {
          before := None;
        }
        outcome := if Dies(f.discard) then Died else Threw;
      }
    }

    method WriteStatus(status: Status, f: Fate) returns (outcome: Outcome)
      requires manifest.Some?
      modifies this`manifest
      ensures (State(), outcome) == Spec.WriteStatus(old(State()), status, f)
    {
      if Happens(f) {
        manifest := Some(manifest.value.(status := status));
      }
      outcome := Ending(f);
    }

    method Rollback(f: RollbackFates) returns (outcome: Outcome)
      modifies this
      ensures (State(), outcome) == Spec.Rollback(old(State()), f)
      ensures Recoverable(old(State())) ==> Recoverable(State())
      ensures outcome.Completed? ==> manifest.Some? && Terminal(manifest.value.status) && db == manifest.value.pre
    {
      if Recoverable(State()) {
        RollbackKeepsRecoverable(State(), f);
      }
      if manifest.None? || Terminal(manifest.value.status) {
        return Threw;
      }
      var m := manifest.value;
      if before != Some(m.pre) {
        return Threw;
      }
      if m.status.Prepared? && db == m.pre {
        outcome := WriteStatus(Aborted, f.finish);
        return;
      }
      if m.status.RollbackPrepared? && db == m.pre {
        outcome := WriteStatus(RolledBack, f.finish);
        return;
      }
      if db != m.post {
        return Threw;
      }
      if after.Some? {
        if after.value != m.post {
          return Threw;
        }
      } else {
        if Happens(f.snapshot) {
          after := Some(db);
        }
        if !f.snapshot.Works? {
          return Ending(f.snapshot);
        }
      }
      outcome := WriteStatus(RollbackPrepared, f.prepare);
      if !outcome.Completed? {
        return;
      }
      if Happens(f.restore) {
        db := before.value;
      }
      if !f.restore.Works? {
        return Ending(f.restore);
      }
      if !f.verify.Works? {
        return Ending(f.verify);
      }
      outcome := WriteStatus(RolledBack, f.finish);
    }
  }
}
