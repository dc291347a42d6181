/**
 The channel-instance migration one step at a time: each read that decides something and each durable
 write is a step, a crash may fall between any two, and other programs may write to the database between
 any two that no transaction encloses. The undisturbed operations of ChannelMigration are runs of these
 steps; what the digest checks are for shows only here, with writers in between.
 */
module MigrationSteps {
  import opened Wrappers
  import opened Spec = ChannelMigration

  /** Where the running operation stands, by the step it makes next, with its local variables. */
  datatype Point =
    | Idle
    | Begin(data: nat)
    | PublishBackup(pre: Db, post: Db)
    | WritePrepared(pre: Db, post: Db)
    | Commit(pre: Db, post: Db)
    | VerifyMigrated(pre: Db, post: Db)
    | WriteApplied(pre: Db, post: Db)
    | DiscardBackup
    | CheckBackup(m: Manifest)
    | ReadDigest(m: Manifest)
    | CheckAfter(m: Manifest)
    | CreateAfter(m: Manifest)
    | PublishAfter(m: Manifest)
    | WriteRollback(m: Manifest)
    | Restore(m: Manifest)
    | VerifyRestored(m: Manifest)
    | WriteTerminal(m: Manifest, status: Status)

  datatype World = World(p: Profile, point: Point)

  datatype Action =
    | StartApply(data: nat)
    | StartRollback
    | Step(fate: Fate)
    | Crash
    | Foreign(db: Db)

  /** Inside apply's transaction, opened before the snapshot, no other program can write. */
  predicate Fenced(point: Point) {
    point.PublishBackup? || point.WritePrepared? || point.Commit?
  }

  function At(p: Profile, point: Point): World {
    World(p, point)
  }

  /** Where a step leads that works, fails with an error, or is the process's last. */
  function After(p: Profile, f: Fate, next: Point, failed: Point): World {
    At(p, if f.Works? then next else if Dies(f) then Idle else failed)
  }

  function ApplyStep(p: Profile, point: Point, f: Fate): World {
    match point
    case Begin(data) =>
      if f.Works? && p.id in p.db.audits then At(p, DiscardBackup)
      else After(p, f, PublishBackup(p.db, Migrated(p.db, p.id, data)), DiscardBackup)
    case PublishBackup(pre, post) =>
      After(if Happens(f) then p.(before := Some(pre)) else p, f, WritePrepared(pre, post), DiscardBackup)
    case WritePrepared(pre, post) =>
      var first := Manifest(Prepared, pre, post);
      After(if Happens(f) then p.(manifest := Some(first)) else p, f, Commit(pre, post), DiscardBackup)
    case Commit(pre, post) =>
      After(if Happens(f) then p.(db := post) else p, f, VerifyMigrated(pre, post), Idle)
    case VerifyMigrated(pre, post) => After(p, f, WriteApplied(pre, post), Idle)
    case WriteApplied(pre, post) =>
      After(if Happens(f) then p.(manifest := Some(Manifest(Applied, pre, post))) else p, f, Idle, Idle)
    case DiscardBackup => After(if Happens(f) then p.(before := None) else p, f, Idle, Idle)
    case _ => At(p, point)
  }

  /** Reading the digest of the database decides which way the rollback goes. */
  function Decision(p: Profile, m: Manifest): Point {
    if m.status.Prepared? && p.db == m.pre then WriteTerminal(m, Aborted)
    else if m.status.RollbackPrepared? && p.db == m.pre then WriteTerminal(m, RolledBack)
    else if p.db != m.post then Idle
    else CheckAfter(m)
  }

  function RollbackStep(p: Profile, point: Point, f: Fate): World {
    match point
    case CheckBackup(m) => After(p, f, if p.before == Some(m.pre) then ReadDigest(m) else Idle, Idle)
    case ReadDigest(m) => After(p, f, Decision(p, m), Idle)
    case CheckAfter(m) =>
      var next := if p.after.None? then CreateAfter(m) else if p.after == Some(m.post) then WriteRollback(m) else Idle;
      After(p, f, next, Idle)
    case CreateAfter(m) => After(p, f, if p.db == m.post then PublishAfter(m) else Idle, Idle)
    case PublishAfter(m) => After(if Happens(f) then p.(after := Some(m.post)) else p, f, WriteRollback(m), Idle)
    case WriteRollback(m) =>
      var prepared := m.(status := RollbackPrepared);
      After(if Happens(f) then p.(manifest := Some(prepared)) else p, f, Restore(prepared), Idle)
    case Restore(m) =>
      if p.db != m.post || p.before != Some(m.pre) then At(p, Idle)
      else After(if Happens(f) then p.(db := m.pre) else p, f, VerifyRestored(m), Idle)
    case VerifyRestored(m) => After(p, f, WriteTerminal(m, RolledBack), Idle)
    case WriteTerminal(m, status) =>
      After(if Happens(f) then p.(manifest := Some(m.(status := status))) else p, f, Idle, Idle)
    case _ => At(p, point)
  }

  predicate Applying(point: Point) {
    point.Begin? || Fenced(point) || point.VerifyMigrated? || point.WriteApplied? || point.DiscardBackup?
  }

  function Next(w: World, a: Action): World {
    match a
    case StartApply(data) => if w.point.Idle? && w.p.before.None? && w.p.manifest.None? then At(w.p, Begin(data)) else w
    case StartRollback =>
      if w.point.Idle? && w.p.manifest.Some? && !Terminal(w.p.manifest.value.status)
      then At(w.p, CheckBackup(w.p.manifest.value)) else w
    case Step(f) => if Applying(w.point) then ApplyStep(w.p, w.point, f) else RollbackStep(w.p, w.point, f)
    case Crash => At(w.p, Idle)
    case Foreign(db) => if Fenced(w.point) then w else w.(p := w.p.(db := db))
  }

  function Run(w: World, actions: seq<Action>): World
    decreases |actions|
  {
    if actions == [] then w else Run(Next(w, actions[0]), actions[1..])
  }

  /** A profile on which this migration has never been started. */
  ghost predicate Untouched(w: World) {
    w.point.Idle? && w.p.before.None? && w.p.after.None? && w.p.manifest.None?
  }

  // ---- the invariant --------------------------------------------------------------------------

  /** The files of a migration that is not prepared yet, of one that is, and of one being rolled back. */
  ghost predicate Published(p: Profile, pre: Db, post: Db) {
    p.before == Some(pre) && p.manifest == Some(Manifest(Prepared, pre, post))
  }

  ghost predicate InRollback(p: Profile, m: Manifest) {
    p.manifest == Some(m) && !Terminal(m.status)
  }

  ghost predicate PointOk(p: Profile, point: Point) {
    match point
    case Idle => true
    case Begin(_) => p.before.None? && p.manifest.None?
    case PublishBackup(pre, post) => p.before.None? && p.manifest.None? && p.db == pre && pre != post
    case WritePrepared(pre, post) => p.before == Some(pre) && p.manifest.None? && p.db == pre && pre != post
    case Commit(pre, post) => Published(p, pre, post) && p.db == pre
    case VerifyMigrated(pre, post) => Published(p, pre, post)
    case WriteApplied(pre, post) => Published(p, pre, post)
    case DiscardBackup => p.manifest.Some? ==> p.manifest.value.status.Prepared?
    case CheckBackup(m) => InRollback(p, m)
    case ReadDigest(m) => InRollback(p, m)
    case CheckAfter(m) => InRollback(p, m)
    case CreateAfter(m) => InRollback(p, m) && p.after.None?
    case PublishAfter(m) => InRollback(p, m) && p.after.None?
    case WriteRollback(m) => InRollback(p, m) && p.after == Some(m.post)
    case Restore(m) => InRollback(p, m) && m.status.RollbackPrepared?
    case VerifyRestored(m) => InRollback(p, m) && m.status.RollbackPrepared?
    case WriteTerminal(m, status) =>
      && InRollback(p, m)
      && if m.status.Prepared? then status.Aborted? else m.status.RollbackPrepared? && status.RolledBack?
  }

  ghost predicate Inv(w: World) {
    && Recoverable(w.p)
    && (w.p.after.Some? ==> w.p.manifest.Some? && w.p.after == Some(w.p.manifest.value.post))
    && PointOk(w.p, w.point)
  }

  /** The handler removes the backup of a manifest that it takes for unwritten. */
  predicate Misjudges(w: World, a: Action) {
    w.point.DiscardBackup? && w.p.manifest.Some? && a.Step? && Happens(a.fate)
  }

  lemma ApplyStepKeeps(p: Profile, point: Point, f: Fate)
    requires Inv(World(p, point)) && Applying(point)
    ensures Inv(ApplyStep(p, point, f)) <==> !Misjudges(World(p, point), Step(f))
    ensures Recoverable(ApplyStep(p, point, f).p) <==> !Misjudges(World(p, point), Step(f))
  {
    if point.Begin? {
      assert p.id !in p.db.audits ==> Migrated(p.db, p.id, point.data) != p.db;
    }
  }

  lemma RollbackStepKeeps(p: Profile, point: Point, f: Fate)
    requires Inv(World(p, point)) && !Applying(point)
    ensures Inv(RollbackStep(p, point, f))
  {
  }

  /** One action keeps the files recoverable exactly when it does not remove the backup of a written manifest. */
  lemma NextKeepsExactly(w: World, a: Action)
    requires Inv(w)
    ensures Inv(Next(w, a)) <==> !Misjudges(w, a)
    ensures Recoverable(Next(w, a).p) <==> !Misjudges(w, a)
  {
    if a.Step? {
      if Applying(w.point) {
        ApplyStepKeeps(w.p, w.point, a.fate);
      } else {
        RollbackStepKeeps(w.p, w.point, a.fate);
      }
    }
  }

  ghost predicate NeverMisjudged(w: World, actions: seq<Action>)
    decreases |actions|
  {
    actions != [] ==> !Misjudges(w, actions[0]) && NeverMisjudged(Next(w, actions[0]), actions[1..])
  }

  /** The next thing the process does is a step whose effect happens; it does not die before. */
  predicate ActsNext(actions: seq<Action>) {
    && actions != [] && !actions[0].Crash?
    && if actions[0].Step? then Happens(actions[0].fate) else ActsNext(actions[1..])
  }

  /** The manifest's own write fails behind its rename, and the handler then gets to remove the backup. */
  ghost predicate GoesWrong(w: World, actions: seq<Action>)
    decreases |actions|
  {
    && actions != []
    && (|| (w.point.WritePrepared? && actions[0] == Step(ThrowsAfter) && ActsNext(actions[1..]))
        || GoesWrong(Next(w, actions[0]), actions[1..]))
  }

  /** The handler is at work on a manifest it takes for unwritten. */
  predicate Mistaken(w: World) {
    w.point.DiscardBackup? && w.p.manifest.Some?
  }

  lemma MistakenOnlyByThatError(w: World, a: Action)
    requires Inv(w) && !Misjudges(w, a)
    ensures Mistaken(Next(w, a)) <==>
              || (w.point.WritePrepared? && a == Step(ThrowsAfter))
              || (Mistaken(w) && !a.Step? && !a.Crash?)
  {
    NextKeepsExactly(w, a);
  }

  lemma {:induction false} MisjudgedExactly(w: World, actions: seq<Action>)
    requires Inv(w)
    ensures NeverMisjudged(w, actions) <==> !GoesWrong(w, actions) && !(Mistaken(w) && ActsNext(actions))
    decreases |actions|
  {
    if actions != [] && !Misjudges(w, actions[0]) {
      NextKeepsExactly(w, actions[0]);
      MistakenOnlyByThatError(w, actions[0]);
      MisjudgedExactly(Next(w, actions[0]), actions[1..]);
    }
  }

  /** A prepared manifest without its backup: rollback is refused, and nothing is ever written again. */
  ghost predicate Lost(w: World) {
    && w.p.before.None? && w.p.manifest.Some? && w.p.manifest.value.status.Prepared?
    && (w.point.Idle? || w.point == CheckBackup(w.p.manifest.value))
  }

  /** In every run the files are as the invariant says, or lost. */
  ghost predicate Known(w: World) {
    Inv(w) || Lost(w)
  }

  lemma NextStaysKnown(w: World, a: Action)
    requires Known(w)
    ensures Known(Next(w, a))
    ensures Lost(w) || Misjudges(w, a) ==> Lost(Next(w, a))
    ensures Lost(w) && !a.Foreign? ==> Next(w, a).p == w.p
  {
    if Inv(w) {
      NextKeepsExactly(w, a);
    }
  }

  lemma {:induction false} RunsStayKnown(w: World, actions: seq<Action>)
    requires Known(w)
    ensures Known(Run(w, actions)) && (Lost(w) ==> Lost(Run(w, actions)))
    decreases |actions|
  {
    if actions != [] {
      NextStaysKnown(w, actions[0]);
      RunsStayKnown(Next(w, actions[0]), actions[1..]);
    }
  }

  lemma {:induction false} KnownExactly(w: World, actions: seq<Action>)
    requires Inv(w)
    ensures Inv(Run(w, actions)) <==> NeverMisjudged(w, actions)
    ensures Recoverable(Run(w, actions).p) <==> NeverMisjudged(w, actions)
    decreases |actions|
  {
    if actions != [] {
      NextKeepsExactly(w, actions[0]);
      if Misjudges(w, actions[0]) {
        NextStaysKnown(w, actions[0]);
        RunsStayKnown(Next(w, actions[0]), actions[1..]);
      } else {
        KnownExactly(Next(w, actions[0]), actions[1..]);
      }
    }
  }

  /** Over runs with crashes, errors and writers, the files stay recoverable exactly when that does not happen. */
  lemma StepsKeepRecoverable(w: World, actions: seq<Action>)
    requires Inv(w) && !Mistaken(w)
    ensures Recoverable(Run(w, actions).p) <==> !GoesWrong(w, actions)
  {
    KnownExactly(w, actions);
    MisjudgedExactly(w, actions);
  }

  /** Crashes, wherever they fall, never lead there, nor does any error but that behind the manifest's rename. */
  lemma {:induction false} CrashesNeverGoWrong(w: World, actions: seq<Action>)
    requires forall i | 0 <= i < |actions| && Run(w, actions[..i]).point.WritePrepared? ::
               actions[i] != Step(ThrowsAfter)
    ensures !GoesWrong(w, actions)
    decreases |actions|
  {
    if actions != [] {
      assert Run(w, actions[..0]) == w;
      var v, rest := Next(w, actions[0]), actions[1..];
      forall i | 0 <= i < |rest| && Run(v, rest[..i]).point.WritePrepared?
        ensures rest[i] != Step(ThrowsAfter)
      {
        assert actions[..i + 1][1..] == rest[..i];
        assert Run(w, actions[..i + 1]) == Run(v, rest[..i]);
      }
      CrashesNeverGoWrong(v, rest);
    }
  }

  // ---- who writes the database ----------------------------------------------------------------

  /**
   Whatever other programs write, and whenever: the migration itself changes the database in two steps
   only. Its commit takes exactly the contents that were backed up to the migrated ones; its restore takes
   exactly the migrated contents, saved as the after-snapshot, back to those before. So no write of anyone
   else is ever erased.
   */
  lemma WritesOnlyBetweenPreAndPost(w: World, a: Action)
    requires Inv(w) && !a.Foreign? && Next(w, a).p.db != w.p.db
    ensures a.Step? && w.p.manifest.Some? && w.p.before == Some(w.p.manifest.value.pre)
    ensures var m := w.p.manifest.value;
      || (w.point.Commit? && w.p.db == m.pre && Next(w, a).p.db == m.post)
      || (w.point.Restore? && m.status.RollbackPrepared? && w.p.after == Some(m.post)
          && w.p.db == m.post && Next(w, a).p.db == m.pre)
  {
    if !Applying(w.point) {
      assert PointOk(w.p, w.point);
    }
  }

  /** The same over all runs from a profile the migration has not touched, whatever went wrong in them. */
  lemma RestoresOnlyFromPost(w: World, actions: seq<Action>, a: Action)
    requires Untouched(w) && !a.Foreign?
    ensures var v := Run(w, actions);
      Next(v, a).p.db != v.p.db ==>
        && v.p.manifest.Some?
        && (v.p.db == v.p.manifest.value.post ==>
              Next(v, a).p.db == v.p.manifest.value.pre && v.p.after == Some(v.p.db))
        && (v.p.db != v.p.manifest.value.post ==> v.p.db == v.p.manifest.value.pre && v.p.before == Some(v.p.db))
  {
    RunsStayKnown(w, actions);
    var v := Run(w, actions);
    NextStaysKnown(v, a);
    if Next(v, a).p.db != v.p.db {
      WritesOnlyBetweenPreAndPost(v, a);
    }
  }

  /**
   Every check of a rollback is made where the program makes it: a step that works goes on exactly when what it
   reads is as it must be, whatever other programs have written since.
   */
  lemma ChecksAreMade(p: Profile, m: Manifest)
    ensures
      var v := Next(World(p, CheckBackup(m)), Step(Works));
      v == World(p, if p.before == Some(m.pre) then ReadDigest(m) else Idle)
    ensures
      var v := Next(World(p, ReadDigest(m)), Step(Works));
      v == World(p,
        if p.db == m.pre && m.status == Prepared then WriteTerminal(m, Aborted)
        else if p.db == m.pre && m.status == RollbackPrepared then WriteTerminal(m, RolledBack)
        else if p.db == m.post then CheckAfter(m)
        else Idle)
    ensures
      var v := Next(World(p, CheckAfter(m)), Step(Works));
      v == World(p,
        if p.after == None then CreateAfter(m) else if p.after == Some(m.post) then WriteRollback(m) else Idle)
    ensures Next(World(p, CreateAfter(m)), Step(Works)) == World(p, if p.db == m.post then PublishAfter(m) else Idle)
    ensures
      var v := Next(World(p, Restore(m)), Step(Works));
      v == if p.db == m.post && p.before == Some(m.pre) then World(p.(db := m.pre), VerifyRestored(m))
           else World(p, Idle)
  {
  }

  // ---- terminal statuses ----------------------------------------------------------------------

  /** A terminal manifest has been decided on, and is written next or after one more check. */
  predicate Decided(point: Point) {
    point.WriteTerminal? || point.VerifyRestored?
  }

  /** The step decides: it reads the pre-migration contents, or restores them. */
  predicate Decides(w: World, a: Action) {
    !Decided(w.point) && Decided(Next(w, a).point)
  }

  /** Deciding, the database is the pre-migration one. */
  lemma DecidesAtPre(w: World, a: Action)
    requires Inv(w) && Decides(w, a)
    ensures Next(w, a).p.manifest.Some? && Next(w, a).p.db == Next(w, a).p.manifest.value.pre
  {
  }

  /** What other programs have written last. */
  function LastWritten(actions: seq<Action>, db: Db): Db {
    if actions == [] then db
    else
      var last := actions[|actions| - 1];
      if last.Foreign? then last.db else LastWritten(actions[..|actions| - 1], db)
  }

  lemma {:induction false} LastWrittenFirst(actions: seq<Action>, db: Db)
    requires actions != []
    ensures LastWritten(actions, db) == LastWritten(actions[1..], if actions[0].Foreign? then actions[0].db else db)
    decreases |actions|
  {
    if |actions| > 1 {
      var before := actions[..|actions| - 1];
      LastWrittenFirst(before, db);
      assert before[1..] == actions[1..][..|actions| - 2];
    }
  }

  /** The operation stays decided throughout. */
  ghost predicate StaysDecided(w: World, actions: seq<Action>)
    decreases |actions|
  {
    Decided(w.point) && (actions != [] ==> StaysDecided(Next(w, actions[0]), actions[1..]))
  }

  lemma {:induction false} DecidedTouchesNothing(w: World, actions: seq<Action>)
    requires Inv(w) && StaysDecided(w, actions)
    ensures var v := Run(w, actions);
      && Inv(v) && v.p.manifest == w.p.manifest && Decided(v.point) && v.p.db == LastWritten(actions, w.p.db)
    decreases |actions|
  {
    if actions != [] {
      var a := actions[0];
      NextKeepsExactly(w, a);
      assert Next(w, a).p.manifest == w.p.manifest;
      assert Next(w, a).p.db == if a.Foreign? then a.db else w.p.db;
      DecidedTouchesNothing(Next(w, a), actions[1..]);
      LastWrittenFirst(actions, w.p.db);
    }
  }

  /**
   A terminal manifest is written over the pre-migration database exactly when nobody has written since the
   check or the restore that decided it, or the last to do so wrote that very state back. Between the
   deciding step and the manifest's write the database is not fenced.
   */
  lemma TerminalExactly(w: World, decide: Action, actions: seq<Action>, f: Fate)
    requires Inv(w) && Decides(w, decide) && StaysDecided(Next(w, decide), actions)
    requires Run(Next(w, decide), actions).point.WriteTerminal? && Happens(f)
    ensures var v := Next(Run(Next(w, decide), actions), Step(f));
      && v.p.manifest.Some? && Terminal(v.p.manifest.value.status)
      && (v.p.db == v.p.manifest.value.pre
          <==> LastWritten(actions, v.p.manifest.value.pre) == v.p.manifest.value.pre)
  {
    DecidesAtPre(w, decide);
    NextKeepsExactly(w, decide);
    DecidedTouchesNothing(Next(w, decide), actions);
  }

  /**
   The failing case, from an untouched profile: the process dies once the manifest is written, and while the
   rollback calls the migration aborted, a write falls between the digest check and the manifest.
   */
  lemma TerminalOverForeignWrite()
    ensures
      var w := World(Profile(0, Db(1, {}), None, None, None), Idle);
      var attempt := [StartApply(2), Step(Works), Step(Works), Step(Works), Crash];
      var rollback := [StartRollback, Step(Works), Step(Works), Foreign(Db(3, {})), Step(Works)];
      var v := Run(w, attempt + rollback);
      && Untouched(w) && v.point.Idle? && v.p.manifest.Some?
      && v.p.manifest.value.status.Aborted? && v.p.db != v.p.manifest.value.pre
  {
    DiesPrepared();
    AbortsOverWrite();
    RunInTwo(World(Profile(0, Db(1, {}), None, None, None), Idle),
             [StartApply(2), Step(Works), Step(Works), Step(Works), Crash],
             [StartRollback, Step(Works), Step(Works), Foreign(Db(3, {})), Step(Works)]);
  }

  lemma AbortsOverWrite()
    ensures
      var m := Manifest(Prepared, Db(1, {}), Db(2, {0}));
      var v := World(Profile(0, Db(1, {}), Some(Db(1, {})), None, Some(m)), Idle);
      Run(v, [StartRollback, Step(Works), Step(Works), Foreign(Db(3, {})), Step(Works)])
      == World(v.p.(db := Db(3, {}), manifest := Some(m.(status := Aborted))), Idle)
  {
    var m := Manifest(Prepared, Db(1, {}), Db(2, {0}));
    var v := World(Profile(0, Db(1, {}), Some(Db(1, {})), None, Some(m)), Idle);
    RunOfFive(v, [StartRollback, Step(Works), Step(Works), Foreign(Db(3, {})), Step(Works)]);
    assert Next(Next(Next(v, StartRollback), Step(Works)), Step(Works)).point == WriteTerminal(m, Aborted);
  }

  lemma DiesPrepared()
    ensures Run(World(Profile(0, Db(1, {}), None, None, None), Idle),
                [StartApply(2), Step(Works), Step(Works), Step(Works), Crash])
         == World(Profile(0, Db(1, {}), Some(Db(1, {})), None, Some(Manifest(Prepared, Db(1, {}), Db(2, {0})))), Idle)
  {
    assert {} + {0} == {0};
    RunOfFive(World(Profile(0, Db(1, {}), None, None, None), Idle),
              [StartApply(2), Step(Works), Step(Works), Step(Works), Crash]);
  }

  lemma {:induction false} RunInTwo(w: World, first: seq<Action>, second: seq<Action>)
    ensures Run(w, first + second) == Run(Run(w, first), second)
    decreases |first|
  {
    if first == [] {
      assert first + second == second;
    } else {
      assert (first + second)[1..] == first[1..] + second;
      RunInTwo(Next(w, first[0]), first[1..], second);
    }
  }

  lemma RunOfFive(w: World, actions: seq<Action>)
    requires |actions| == 5
    ensures Run(w, actions)
         == Next(Next(Next(Next(Next(w, actions[0]), actions[1]), actions[2]), actions[3]), actions[4])
  {
    var one, two, three, four := actions[1..], actions[2..], actions[3..], actions[4..];
    assert one[1..] == two && two[1..] == three && three[1..] == four && four[1..] == [];
    var w1 := Next(w, actions[0]);
    var w2 := Next(w1, one[0]);
    var w3 := Next(w2, two[0]);
    assert Run(w, actions) == Run(w1, one);
    assert Run(w1, one) == Run(w2, two);
    assert Run(w2, two) == Run(w3, three);
    assert Run(w3, three) == Run(Next(w3, three[0]), four);
    assert Run(Next(w3, three[0]), four) == Next(Next(w3, three[0]), four[0]);
  }

  /** No other program writes while a decision stands. */
  ghost predicate Quiet(w: World, actions: seq<Action>)
    decreases |actions|
  {
    actions != [] ==> !(Decided(w.point) && actions[0].Foreign?) && Quiet(Next(w, actions[0]), actions[1..])
  }

  ghost predicate DecidedAtPre(w: World) {
    Decided(w.point) ==> w.p.manifest.Some? && w.p.db == w.p.manifest.value.pre
  }

  /** Over all runs in which that does not happen, a terminal manifest is written over the pre-migration database. */
  lemma {:induction false} TerminalOnlyAtPre(w: World, actions: seq<Action>, a: Action)
    requires Known(w) && DecidedAtPre(w) && Quiet(w, actions + [a])
    ensures var v := Run(w, actions);
      && Known(v) && DecidedAtPre(v)
      && (v.p.manifest.Some? && !Terminal(v.p.manifest.value.status)
          && Next(v, a).p.manifest.Some? && Terminal(Next(v, a).p.manifest.value.status) ==>
            Next(v, a).p.db == Next(v, a).p.manifest.value.pre)
    decreases |actions|
  {
    if actions == [] {
      assert ([] + [a])[0] == a;
    } else {
      assert (actions + [a])[0] == actions[0] && (actions + [a])[1..] == actions[1..] + [a];
      NextStaysKnown(w, actions[0]);
      if Inv(w) && Decides(w, actions[0]) {
        DecidesAtPre(w, actions[0]);
      }
      TerminalOnlyAtPre(Next(w, actions[0]), actions[1..], a);
    }
  }

  /** Terminal statuses are absorbing, whoever writes what. */
  lemma {:induction false} TerminalForever(w: World, actions: seq<Action>)
    requires w.point.Idle? && w.p.manifest.Some? && Terminal(w.p.manifest.value.status)
    ensures var v := Run(w, actions);
      v.point.Idle? && v.p.manifest == w.p.manifest && v.p.before == w.p.before && v.p.after == w.p.after
    decreases |actions|
  {
    if actions != [] {
      TerminalForever(Next(w, actions[0]), actions[1..]);
    }
  }

  // ---- undisturbed operations -----------------------------------------------------------------

  function ApplyFate(point: Point, f: ApplyFates): Fate {
    match point
    case Begin(_) => f.backup
    case PublishBackup(_, _) => f.publish
    case WritePrepared(_, _) => f.prepare
    case Commit(_, _) => f.commit
    case VerifyMigrated(_, _) => f.verify
    case WriteApplied(_, _) => f.finish
    case _ => f.discard
  }

  /** Reads never fail here: what they find decides. */
  function RollbackFate(point: Point, f: RollbackFates): Fate {
    match point
    case PublishAfter(_) => f.snapshot
    case WriteRollback(_) => f.prepare
    case Restore(_) => f.restore
    case VerifyRestored(_) => f.verify
    case WriteTerminal(_, _) => f.finish
    case _ => Works
  }

  /** Up to `n` steps of the operation with nobody in between. */
  function DriveApply(w: World, f: ApplyFates, n: nat): World
    decreases n
  {
    if n == 0 || w.point.Idle? then w else DriveApply(Next(w, Step(ApplyFate(w.point, f))), f, n - 1)
  }

  function DriveRollback(w: World, f: RollbackFates, n: nat): World
    decreases n
  {
    if n == 0 || w.point.Idle? then w else DriveRollback(Next(w, Step(RollbackFate(w.point, f))), f, n - 1)
  }

  /** Apply as a whole is its steps in a row. */
  lemma ApplyIsItsSteps(p: Profile, data: nat, f: ApplyFates)
    ensures DriveApply(Next(World(p, Idle), StartApply(data)), f, 6) == World(Apply(p, data, f).0, Idle)
  {
    var w0 := Next(World(p, Idle), StartApply(data));
    var w1 := Next(w0, Step(ApplyFate(w0.point, f)));
    var w2 := Next(w1, Step(ApplyFate(w1.point, f)));
    var w3 := Next(w2, Step(ApplyFate(w2.point, f)));
    var w4 := Next(w3, Step(ApplyFate(w3.point, f)));
    var w5 := Next(w4, Step(ApplyFate(w4.point, f)));
    if w0.point.Begin? {
      assert DriveApply(w0, f, 6) == DriveApply(w1, f, 5);
      if !w1.point.Idle? {
        assert DriveApply(w1, f, 5) == DriveApply(w2, f, 4);
        if !w2.point.Idle? {
          assert DriveApply(w2, f, 4) == DriveApply(w3, f, 3);
          if !w3.point.Idle? {
            assert DriveApply(w3, f, 3) == DriveApply(w4, f, 2);
            if !w4.point.Idle? {
              assert DriveApply(w4, f, 2) == DriveApply(w5, f, 1);
              assert DriveApply(w5, f, 1) == Next(w5, Step(ApplyFate(w5.point, f))) || w5.point.Idle?;
            }
          }
        }
      }
    }
  }

  /** And so is rollback. */
  lemma RollbackIsItsSteps(p: Profile, f: RollbackFates)
    ensures DriveRollback(Next(World(p, Idle), StartRollback), f, 9) == World(Rollback(p, f).0, Idle)
  {
    var w0 := Next(World(p, Idle), StartRollback);
    if w0.point.CheckBackup? {
      var w1 := Next(w0, Step(Works));
      assert DriveRollback(w0, f, 9) == DriveRollback(w1, f, 8);
      if w1.point.ReadDigest? {
        var w2 := Next(w1, Step(Works));
        assert DriveRollback(w1, f, 8) == DriveRollback(w2, f, 7);
        if w2.point.CheckAfter? {
          SnapshotIsItsSteps(w2, f);
        } else if w2.point.WriteTerminal? {
          assert DriveRollback(w2, f, 7) == DriveRollback(Next(w2, Step(f.finish)), f, 6);
        }
      }
    }
  }

  lemma SnapshotIsItsSteps(w: World, f: RollbackFates)
    requires w.point.CheckAfter? && w.p.manifest == Some(w.point.m) && !Terminal(w.point.m.status)
    requires w.p.before == Some(w.point.m.pre) && w.p.db == w.point.m.post
    requires w.p.db == w.point.m.pre ==> w.point.m.status.Applied?
    ensures DriveRollback(w, f, 7) == World(Rollback(w.p, f).0, Idle)
  {
    var w1 := Next(w, Step(Works));
    assert DriveRollback(w, f, 7) == DriveRollback(w1, f, 6);
    if w1.point.CreateAfter? {
      var w2 := Next(w1, Step(Works));
      assert DriveRollback(w1, f, 6) == DriveRollback(w2, f, 5);
      var w3 := Next(w2, Step(f.snapshot));
      assert DriveRollback(w2, f, 5) == DriveRollback(w3, f, 4);
      if w3.point.WriteRollback? {
        RestoringIsItsSteps(w3, f, 4);
      }
    } else if w1.point.WriteRollback? {
      RestoringIsItsSteps(w1, f, 6);
    }
  }

  /** The last three writes and the check between them. */
  function Restored(p: Profile, m: Manifest, f: RollbackFates): Profile {
    var prepared := if Happens(f.prepare) then p.(manifest := Some(m.(status := RollbackPrepared))) else p;
    if !f.prepare.Works? then prepared
    else
      var restored := if Happens(f.restore) then prepared.(db := m.pre) else prepared;
      if !f.restore.Works? || !f.verify.Works? then restored
      else if Happens(f.finish) then restored.(manifest := Some(m.(status := RolledBack))) else restored
  }

  lemma RestoringIsItsSteps(w: World, f: RollbackFates, n: nat)
    requires w.point.WriteRollback? && n >= 4 && w.p.manifest == Some(w.point.m)
    requires w.p.before == Some(w.point.m.pre) && w.p.db == w.point.m.post
    ensures DriveRollback(w, f, n) == World(Restored(w.p, w.point.m, f), Idle)
  {
    var w1 := Next(w, Step(f.prepare));
    assert DriveRollback(w, f, n) == DriveRollback(w1, f, n - 1);
    if !w1.point.Idle? {
      var w2 := Next(w1, Step(f.restore));
      assert DriveRollback(w1, f, n - 1) == DriveRollback(w2, f, n - 2);
      if !w2.point.Idle? {
        var w3 := Next(w2, Step(f.verify));
        assert DriveRollback(w2, f, n - 2) == DriveRollback(w3, f, n - 3);
        if !w3.point.Idle? {
          assert DriveRollback(w3, f, n - 3) == DriveRollback(Next(w3, Step(f.finish)), f, n - 4);
        }
      }
    }
  }

  /**
   Recovery after any run, with crashes, errors and writers anywhere in it: one rollback that nothing
   disturbs completes exactly when the backup is there and the database is what the migration wrote, or
   still what it was before under a manifest not yet applied; and otherwise changes nothing.
   */
  lemma RecoveryExactly(w: World, actions: seq<Action>, v: World)
    requires Untouched(w) && v == Run(w, actions)
    requires v.point.Idle? && v.p.manifest.Some? && !Terminal(v.p.manifest.value.status)
    ensures var u := DriveRollback(Next(v, StartRollback), RollbackFates(Works, Works, Works, Works, Works), 9);
      var m := v.p.manifest.value;
      && u.point.Idle?
      && (if v.p.before.Some? && (v.p.db == m.post || (v.p.db == m.pre && !m.status.Applied?))
          then
            && u.p.db == m.pre && u.p.manifest.Some? && Terminal(u.p.manifest.value.status)
            && u.p.manifest.value.pre == m.pre
          else u.p == v.p)
  {
    RunsStayKnown(w, actions);
    RollbackIsItsSteps(v.p, RollbackFates(Works, Works, Works, Works, Works));
    if Inv(v) {
      RollbackCompletesExactly(v.p);
    }
  }
}
