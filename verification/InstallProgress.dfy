/**
 That the install lock gets anywhere: a holder comes to its end in a bounded number of its own steps and then
 frees the lock; a lock whose owner is dead is taken over; and a call left alone installs the provider, or
 finds it installed, and leaves the lock free.
 */
module InstallProgress {
  import opened Wrappers
  import opened InstallLock
  import opened InstallMisread

  // ---- release --------------------------------------------------------------------------------

  lemma ChecksItsOwn(w: World, c: Caller, ino: Ino, result: Result)
    requires HoldsAt(w, c, ino, CheckOwner(ino, result))
    ensures Worked(w, c, 1) == Moved(w, c, UnlinkOwn(ino, result))
  {
    assert Worked(w, c, 1) == Worked(Next(w, Move(c, true, false)), c, 0);
  }

  lemma UnlinksItsOwn(w: World, c: Caller, ino: Ino, result: Result)
    requires c in w.calls && c in w.pids && w.calls[c] == UnlinkOwn(ino, result)
    ensures Worked(w, c, 1) == w.(disk := w.disk.(lock := None), calls := w.calls[c := Finished(result)])
  {
    assert Worked(w, c, 1) == Worked(Next(w, Move(c, true, false)), c, 0);
  }

  lemma TokenReleases(w: World, c: Caller, ino: Ino, result: Result)
    requires HoldsAt(w, c, ino, CheckOwner(ino, result))
    ensures Worked(w, c, 2) == w.(disk := w.disk.(lock := None), calls := w.calls[c := Finished(result)])
  {
    ChecksItsOwn(w, c, ino, result);
    UnlinksItsOwn(Moved(w, c, UnlinkOwn(ino, result)), c, ino, result);
    WorkedTwice(w, c, 1, 1);
  }

  /** A holder that has its result frees the lock with its next two steps that work, and returns that result. */
  lemma HolderReleases(w: World, c: Caller, ino: Ino, result: Result)
    requires LockInv(w) && c in w.calls && w.calls[c] == CheckOwner(ino, result)
    ensures w.disk.lock == Some(ino)
    ensures Worked(w, c, 2) == w.(disk := w.disk.(lock := None), calls := w.calls[c := Finished(result)])
  {
    assert PointOk(w, c);
    TokenReleases(w, c, ino, result);
  }

  /** How many steps a holder may still take; a listed tombstone is one step, in whatever order. */
  function StepsLeft(p: Point, listed: nat): nat
    requires Holding(p)
  {
    match p
    case UnlinkOwn(_, _) => 1
    case CheckOwner(_, _) => 2
    case Install(_, phase) => StepsToGo(phase)
    case Prune(_, rest) => 18 + |rest|
    case ListTombstones(_) => 19 + listed
  }

  function StepsToGo(phase: Phase): nat {
    match phase
    case DiscardJournal => 3
    case Quarantine => 3
    case Discard(_) => 4
    case RemoveJournal(_, _) => 5
    case Publish(_, _) => 6
    case StatCurrent(_, _) => 7
    case WriteManifest(_) => 8
    case Build(_) => 9
    case WriteJournal(_) => 10
    case MakeStaging => 11
    case RemoveQuarantine => 12
    case RemoveOldJournal => 13
    case RemoveQuarantined(_) => 14
    case ReadJournal => 15
    case StatQuarantine => 16
    case ReadCurrent => 17
  }

  /** The step prunes a tombstone that is still listed, if it is to prune one. */
  predicate Chooses(p: Point, ch: Choice) {
    p.Prune? && p.rest != {} ==> ch.name in p.rest
  }

  /** Whatever fails, each step of a holder brings it nearer its end. */
  lemma HoldersFinish(w: World, c: Caller, ch: Choice)
    requires c in w.calls && c in w.pids && Holding(w.calls[c]) && Chooses(w.calls[c], ch)
    ensures
      var v := Next(w, Step(c, ch));
      && c in v.calls
      && (v.calls[c].Finished?
          || (&& Holding(v.calls[c])
              && StepsLeft(v.calls[c], |v.disk.tombstones|) < StepsLeft(w.calls[c], |w.disk.tombstones|)))
  {
    if w.calls[c].Install? {
      PhasesFinish(w, c, ch);
    }
  }

  lemma PhasesFinish(w: World, c: Caller, ch: Choice)
    requires c in w.calls && w.calls[c].Install?
    ensures
      var v, phase := InstallStep(w, c, w.calls[c].ino, w.calls[c].phase, ch), w.calls[c].phase;
      && c in v.calls
      && (v.calls[c].CheckOwner? || (v.calls[c].Install? && StepsToGo(v.calls[c].phase) < StepsToGo(phase)))
  {
  }

  // ---- what is checked first ------------------------------------------------------------------

  /** Not even a call that has lost the lock frees that of another: it unlinks only a lock that names itself. */
  lemma FreesOnlyItsOwn(w: World, c: Caller, ino: Ino, result: Result, ch: Choice)
    requires c in w.calls && c in w.pids && w.calls[c] == CheckOwner(ino, result)
    ensures
      var v := Next(w, Step(c, ch));
      var names := w.disk.lock.Some? && w.disk.lock.value in w.disk.files
                   && w.disk.files[w.disk.lock.value].token == Some(Of(c));
      v == Moved(w, c, if ch.ok && names then UnlinkOwn(ino, result) else Finished(result))
  {
  }

  /**
   A claimed lock is taken for stale exactly when the claim and the lock are both the file that was read, and
   the owner read again is the one read before, if one was.
   */
  lemma UnlinksOnlyWhatItRead(w: World, c: Caller, p: Point, ch: Choice)
    requires c in w.calls && c in w.pids && w.calls[c] == p
    requires p.Inspect? && p.claim.Some? && p.lock.Some? && p.owner.Some?
    ensures
      var agreed := p.claim == Some(p.ino) && p.lock == Some(Some(p.ino))
                    && (p.token == None || p.owner == Some(p.token));
      Next(w, Step(c, ch)) == Moved(w, c, if agreed then UnlinkStale(p.ino, p.token) else WriteCandidate)
  {
  }

  // ---- taking over ----------------------------------------------------------------------------

  /** A call that finds the owner of the lock dead, and its generation unclaimed, holds the lock twelve steps on. */
  lemma DeadOwnersLockIsTaken(w: World, c: Caller, aged: bool)
    requires LockInv(w) && Live(w, c) && w.disk.lock.Some? && w.calls[c] == ReadOwner(w.disk.lock.value, aged)
    requires w.disk.files[w.disk.lock.value].pid.Some? && w.disk.files[w.disk.lock.value].pid.value in w.dead
    requires Generation(w.disk.lock.value, w.disk.files[w.disk.lock.value].token) !in w.disk.tombstones
    ensures
      var v := Worked(w, c, 12);
      && c in v.calls && Holding(v.calls[c])
      && forall d | d in w.calls && d != c :: d in v.calls && v.calls[d] == w.calls[d]
  {
    var i := w.disk.lock.value;
    var owner := w.disk.files[i];
    assert Next(w, Move(c, true, false)) == Moved(w, c, CheckAlive(i, owner, aged));
    TakesItOver(w, c, i, owner, aged);
  }

  /** A call that finds the owner alive touches nothing and starts over; so does one whose file has not aged. */
  lemma LiveOwnerIsWaitedFor(w: World, c: Caller, ino: Ino, owner: Content, aged: bool, ch: Choice)
    requires c in w.calls && c in w.pids && w.calls[c] == CheckAlive(ino, owner, aged) && ch.ok
    requires if owner.pid.Some? then owner.pid.value !in w.dead else !aged
    ensures Next(w, Step(c, ch)) == Moved(w, c, WriteCandidate)
  {
  }

  // ---- a call left alone ----------------------------------------------------------------------

  /** From `w`, some steps of call `c` alone, all of them working, lead to `v`. */
  ghost predicate Reaches(w: World, c: Caller, v: World) {
    exists actions :: AllWork(actions, c) && Run(w, actions) == v
  }

  ghost predicate AllWork(actions: seq<Action>, c: Caller) {
    forall a | a in actions :: a.Step? && a.caller == c && a.choice.ok
  }

  function Work(c: Caller, name: Generation, m: Manifest): Action {
    Step(c, Choice(true, false, false, 0, name, m))
  }

  lemma {:induction false} RunsInTwo(w: World, one: seq<Action>, other: seq<Action>)
    ensures Run(w, one + other) == Run(Run(w, one), other)
    decreases |one|
  {
    if one == [] {
      assert one + other == other;
    } else {
      assert (one + other)[1..] == one[1..] + other;
      RunsInTwo(Next(w, one[0]), one[1..], other);
    }
  }

  lemma Steps(w: World, c: Caller, name: Generation, m: Manifest, v: World)
    requires Reaches(Next(w, Work(c, name, m)), c, v)
    ensures Reaches(w, c, v)
  {
    var a := Work(c, name, m);
    var actions :| AllWork(actions, c) && Run(Next(w, a), actions) == v;
    assert ([a] + actions)[1..] == actions;
    assert AllWork([a] + actions, c) && Run(w, [a] + actions) == v;
  }

  lemma Stays(w: World, c: Caller)
    ensures Reaches(w, c, w)
  {
    assert AllWork([], c) && Run(w, []) == w;
  }

  lemma ReachesOn(u: World, c: Caller, w: World, v: World)
    requires Reaches(u, c, w) && Reaches(w, c, v)
    ensures Reaches(u, c, v)
  {
    var one :| AllWork(one, c) && Run(u, one) == w;
    var other :| AllWork(other, c) && Run(w, other) == v;
    RunsInTwo(u, one, other);
    assert AllWork(one + other, c);
  }

  /** The holder of the lock, with whatever disk and next staging tree. */
  ghost predicate HoldsAt(w: World, c: Caller, ino: Ino, p: Point) {
    && c in w.calls && c in w.pids && w.calls[c] == p && w.disk.lock == Some(ino)
    && ino in w.disk.files && w.disk.files[ino].token == Some(Of(c))
  }

  function OnDisk(w: World, c: Caller, p: Point, d: Disk, nextStaging: Staging): World {
    w.(disk := d, calls := w.calls[c := p], nextStaging := nextStaging)
  }

  lemma {:induction false} PrunesAll(w: World, c: Caller, ino: Ino, m: Manifest)
    requires HoldsAt(w, c, ino, Prune(ino, w.disk.tombstones.Keys))
    ensures Reaches(w, c, OnDisk(w, c, Install(ino, ReadCurrent), w.disk.(tombstones := map[]), w.nextStaging))
    decreases |w.disk.tombstones|
  {
    var v := OnDisk(w, c, Install(ino, ReadCurrent), w.disk.(tombstones := map[]), w.nextStaging);
    if w.disk.tombstones.Keys == {} {
      assert w.disk.tombstones == map[];
      Stays(v, c);
      Steps(w, c, Generation(0, None), m, v);
    } else {
      var name :| name in w.disk.tombstones.Keys;
      var w1 := Next(w, Work(c, name, m));
      assert w1.disk.tombstones.Keys == w.disk.tombstones.Keys - {name};
      PrunesAll(w1, c, ino, m);
      Steps(w, c, name, m, v);
    }
  }

  /** The disk once call `c` has linked its candidate. */
  function Linked(w: World, c: Caller): Disk
    requires c in w.pids
  {
    w.disk.(files := w.disk.files[w.nextIno := Content(Some(w.pids[c]), Some(Of(c)))], lock := Some(w.nextIno))
  }

  lemma Links(w: World, c: Caller, m: Manifest, v: World)
    requires c in w.calls && c in w.pids && w.calls[c] == WriteCandidate && w.disk.lock.None?
    requires Reaches(OnDisk(w, c, ListTombstones(w.nextIno), Linked(w, c), w.nextStaging).(nextIno := w.nextIno + 1),
                     c, v)
    ensures Reaches(w, c, v)
  {
    var name := Generation(0, None);
    var w1 := Next(w, Work(c, name, m));
    assert w1.calls[c] == LinkLock(w.nextIno);
    assert Next(w1, Work(c, name, m)) ==
      OnDisk(w, c, ListTombstones(w.nextIno), Linked(w, c), w.nextStaging).(nextIno := w.nextIno + 1);
    Steps(w1, c, name, m, v);
    Steps(w, c, name, m, v);
  }

  lemma Lists(w: World, c: Caller, ino: Ino, m: Manifest, v: World)
    requires HoldsAt(w, c, ino, ListTombstones(ino))
    requires Reaches(Moved(w, c, Prune(ino, w.disk.tombstones.Keys)), c, v)
    ensures Reaches(w, c, v)
  {
    Steps(w, c, Generation(0, None), m, v);
  }

  /** From a free lock to the installation proper. */
  lemma ComesToInstall(w: World, c: Caller, m: Manifest)
    requires c in w.calls && c in w.pids && w.calls[c] == WriteCandidate && w.disk.lock.None?
    ensures
      var d := Linked(w, c).(tombstones := map[]);
      Reaches(w, c, OnDisk(w, c, Install(w.nextIno, ReadCurrent), d, w.nextStaging).(nextIno := w.nextIno + 1))
  {
    var ino := w.nextIno;
    var w1 := OnDisk(w, c, ListTombstones(ino), Linked(w, c), w.nextStaging).(nextIno := ino + 1);
    var w2 := Moved(w1, c, Prune(ino, w1.disk.tombstones.Keys));
    PrunesAll(w2, c, ino, m);
    var v := OnDisk(w2, c, Install(ino, ReadCurrent), w2.disk.(tombstones := map[]), w2.nextStaging);
    assert v == OnDisk(w, c, Install(ino, ReadCurrent), Linked(w, c).(tombstones := map[]), w.nextStaging)
      .(nextIno := ino + 1);
    Lists(w1, c, ino, m, v);
    Links(w, c, m, v);
  }

  lemma Ends(w: World, c: Caller, ino: Ino, result: Result, m: Manifest)
    requires HoldsAt(w, c, ino, CheckOwner(ino, result))
    ensures Reaches(w, c, OnDisk(w, c, Finished(result), w.disk.(lock := None), w.nextStaging))
  {
    var v := OnDisk(w, c, Finished(result), w.disk.(lock := None), w.nextStaging);
    var w1 := Next(w, Work(c, Generation(0, None), m));
    assert w1 == Moved(w, c, UnlinkOwn(ino, result));
    assert Next(w1, Work(c, Generation(0, None), m)) == v;
    Stays(v, c);
    Steps(w1, c, Generation(0, None), m, v);
    Steps(w, c, Generation(0, None), m, v);
  }

  /** A provider found installed is reported as it is. */
  lemma FindsItInstalled(w: World, c: Caller, ino: Ino, m: Manifest)
    requires HoldsAt(w, c, ino, Install(ino, ReadCurrent)) && w.disk.current == Some(Some(m))
    ensures Reaches(w, c, OnDisk(w, c, Finished(Receipt(m)), w.disk.(lock := None), w.nextStaging))
  {
    var w1 := Next(w, Work(c, Generation(0, None), m));
    assert w1 == Moved(w, c, CheckOwner(ino, Receipt(m)));
    Ends(w1, c, ino, Receipt(m), m);
    Steps(w, c, Generation(0, None), m, OnDisk(w, c, Finished(Receipt(m)), w.disk.(lock := None), w.nextStaging));
  }

  /** The staging tree an installation has made, from its journal on. */
  function Made(phase: Phase): Option<Staging> {
    match phase
    case Build(s) => Some(s)
    case WriteManifest(s) => Some(s)
    case StatCurrent(s, _) => Some(s)
    case Publish(s, _) => Some(s)
    case RemoveJournal(s, _) => Some(s)
    case _ => None
  }

  /**
   An installation that fails at any of its steps, once it has made its tree, and is then left alone, throws
   and frees the lock. If it was aborted, tree and journal stay and the installation is marked for the next
   call to clear away; otherwise it clears both away itself.
   */
  lemma FailedItClearsUp(w: World, c: Caller, ino: Ino, phase: Phase, ch: Choice, m: Manifest)
    requires HoldsAt(w, c, ino, Install(ino, phase)) && Made(phase).Some? && !ch.ok
    ensures
      var d := if ch.aborted then w.disk.(quarantine := true)
               else w.disk.(stagings := w.disk.stagings - {Made(phase).value}, journal := None);
      Reaches(Next(w, Step(c, ch)), c, OnDisk(w, c, Finished(Threw), d.(lock := None), w.nextStaging))
  {
    var s := Made(phase).value;
    if ch.aborted {
      var w1 := Moved(w, c, Install(ino, Quarantine));
      var w2 := OnDisk(w, c, CheckOwner(ino, Threw), w.disk.(quarantine := true), w.nextStaging);
      Ends(w2, c, ino, Threw, m);
      Works(w1, c, ino, Quarantine, m, w2, OnDisk(w2, c, Finished(Threw), w2.disk.(lock := None), w.nextStaging));
      assert Next(w, Step(c, ch)) == w1;
    } else {
      Discards(Moved(w, c, Install(ino, Discard(s))), c, ino, s, m);
      assert Next(w, Step(c, ch)) == Moved(w, c, Install(ino, Discard(s)));
    }
  }

  lemma DiscardsJournal(w: World, c: Caller, ino: Ino, m: Manifest)
    requires HoldsAt(w, c, ino, Install(ino, DiscardJournal))
    ensures Reaches(w, c, OnDisk(w, c, Finished(Threw), w.disk.(journal := None, lock := None), w.nextStaging))
  {
    var w1 := OnDisk(w, c, CheckOwner(ino, Threw), w.disk.(journal := None), w.nextStaging);
    Ends(w1, c, ino, Threw, m);
    Works(w, c, ino, DiscardJournal, m, w1,
      OnDisk(w, c, Finished(Threw), w.disk.(journal := None, lock := None), w.nextStaging));
  }

  lemma Discards(w: World, c: Caller, ino: Ino, s: Staging, m: Manifest)
    requires HoldsAt(w, c, ino, Install(ino, Discard(s)))
    ensures Reaches(w, c, OnDisk(w, c, Finished(Threw),
      w.disk.(stagings := w.disk.stagings - {s}, journal := None, lock := None), w.nextStaging))
  {
    var d := w.disk.(stagings := w.disk.stagings - {s});
    var w1 := OnDisk(w, c, Install(ino, DiscardJournal), d, w.nextStaging);
    DiscardsJournal(w1, c, ino, m);
    Works(w, c, ino, Discard(s), m, w1,
      OnDisk(w, c, Finished(Threw), d.(journal := None, lock := None), w.nextStaging));
  }

  /** The disk once the notes of an earlier, unfinished installation are cleared away. */
  function Cleared(d: Disk): Disk {
    if !d.quarantine then d
    else
      d.(stagings := if d.journal.Some? then d.stagings - {d.journal.value} else d.stagings,
         journal := None, quarantine := false)
  }

  /** One working step of the installation leads on from `w`. */
  lemma Works(w: World, c: Caller, ino: Ino, phase: Phase, m: Manifest, next: World, v: World)
    requires HoldsAt(w, c, ino, Install(ino, phase))
    requires next == InstallStep(w, c, ino, phase, Choice(true, false, false, 0, Generation(0, None), m))
    requires Reaches(next, c, v)
    ensures Reaches(w, c, v)
  {
    Steps(w, c, Generation(0, None), m, v);
  }

  lemma ClearsJournal(w: World, c: Caller, ino: Ino, m: Manifest, v: World)
    requires HoldsAt(w, c, ino, Install(ino, ReadJournal))
    requires
      var trees := if w.disk.journal.Some? then w.disk.stagings - {w.disk.journal.value} else w.disk.stagings;
      Reaches(OnDisk(w, c, Install(ino, RemoveOldJournal), w.disk.(stagings := trees), w.nextStaging), c, v)
    ensures Reaches(w, c, v)
  {
    var trees := if w.disk.journal.Some? then w.disk.stagings - {w.disk.journal.value} else w.disk.stagings;
    var w2 := OnDisk(w, c, Install(ino, RemoveOldJournal), w.disk.(stagings := trees), w.nextStaging);
    if w.disk.journal.Some? {
      var w1 := Moved(w, c, Install(ino, RemoveQuarantined(w.disk.journal.value)));
      Works(w1, c, ino, RemoveQuarantined(w.disk.journal.value), m, w2, v);
      Works(w, c, ino, ReadJournal, m, w1, v);
    } else {
      Works(w, c, ino, ReadJournal, m, w2, v);
    }
  }

  lemma ClearsQuarantine(w: World, c: Caller, ino: Ino, m: Manifest)
    requires HoldsAt(w, c, ino, Install(ino, ReadJournal)) && w.disk.quarantine
    ensures Reaches(w, c, OnDisk(w, c, Install(ino, MakeStaging), Cleared(w.disk), w.nextStaging))
  {
    var v := OnDisk(w, c, Install(ino, MakeStaging), Cleared(w.disk), w.nextStaging);
    var trees := Cleared(w.disk).stagings;
    var w2 := OnDisk(w, c, Install(ino, RemoveOldJournal), w.disk.(stagings := trees), w.nextStaging);
    var w3 := OnDisk(w, c, Install(ino, RemoveQuarantine), w2.disk.(journal := None), w.nextStaging);
    Stays(v, c);
    Works(w3, c, ino, RemoveQuarantine, m, v, v);
    Works(w2, c, ino, RemoveOldJournal, m, w3, v);
    ClearsJournal(w, c, ino, m, v);
  }

  lemma ClearsAway(w: World, c: Caller, ino: Ino, m: Manifest)
    requires HoldsAt(w, c, ino, Install(ino, ReadCurrent)) && w.disk.current.None?
    ensures Reaches(w, c, OnDisk(w, c, Install(ino, MakeStaging), Cleared(w.disk), w.nextStaging))
  {
    var v := OnDisk(w, c, Install(ino, MakeStaging), Cleared(w.disk), w.nextStaging);
    var w1 := Moved(w, c, Install(ino, StatQuarantine));
    var w2 := Moved(w, c, Install(ino, if w.disk.quarantine then ReadJournal else MakeStaging));
    if w.disk.quarantine {
      ClearsQuarantine(w2, c, ino, m);
      assert v == OnDisk(w2, c, Install(ino, MakeStaging), Cleared(w.disk), w.nextStaging);
    } else {
      Stays(v, c);
    }
    Works(w1, c, ino, StatQuarantine, m, w2, v);
    Works(w, c, ino, ReadCurrent, m, w1, v);
  }

  /** A staging tree is made and journalled. */
  lemma MakesTree(w: World, c: Caller, ino: Ino, m: Manifest, v: World)
    requires HoldsAt(w, c, ino, Install(ino, MakeStaging))
    requires
      var s := w.nextStaging;
      Reaches(OnDisk(w, c, Install(ino, Build(s)),
        w.disk.(stagings := w.disk.stagings[s := None], journal := Some(s)), s + 1), c, v)
    ensures Reaches(w, c, v)
  {
    var s := w.nextStaging;
    var d := w.disk.(stagings := w.disk.stagings[s := None]);
    var w1 := OnDisk(w, c, Install(ino, WriteJournal(s)), d, s + 1);
    var w2 := OnDisk(w, c, Install(ino, Build(s)), d.(journal := Some(s)), s + 1);
    Works(w1, c, ino, WriteJournal(s), m, w2, v);
    Works(w, c, ino, MakeStaging, m, w1, v);
  }

  /** It is built and given its manifest. */
  lemma BuildsTree(w: World, c: Caller, ino: Ino, s: Staging, m: Manifest)
    requires HoldsAt(w, c, ino, Install(ino, Build(s))) && s in w.disk.stagings
    ensures Reaches(w, c, OnDisk(w, c, Install(ino, StatCurrent(s, m)),
                                 w.disk.(stagings := w.disk.stagings[s := Some(m)]), w.nextStaging))
  {
    var v := OnDisk(w, c, Install(ino, StatCurrent(s, m)), w.disk.(stagings := w.disk.stagings[s := Some(m)]),
      w.nextStaging);
    var w1 := Moved(w, c, Install(ino, WriteManifest(s)));
    Stays(v, c);
    Works(w1, c, ino, WriteManifest(s), m, v, v);
    Works(w, c, ino, Build(s), m, w1, v);
  }

  lemma Renames(w: World, c: Caller, ino: Ino, s: Staging, m: Manifest, v: World)
    requires HoldsAt(w, c, ino, Install(ino, Publish(s, m))) && w.disk.current.None?
    requires s in w.disk.stagings && w.disk.stagings[s] == Some(m)
    requires
      Reaches(OnDisk(w, c, Install(ino, RemoveJournal(s, m)),
        w.disk.(current := Some(Some(m)), stagings := w.disk.stagings - {s}), w.nextStaging), c, v)
    ensures Reaches(w, c, v)
  {
    Works(w, c, ino, Publish(s, m), m, OnDisk(w, c, Install(ino, RemoveJournal(s, m)),
      w.disk.(current := Some(Some(m)), stagings := w.disk.stagings - {s}), w.nextStaging), v);
  }

  lemma RenamesTree(w: World, c: Caller, ino: Ino, s: Staging, m: Manifest, v: World)
    requires HoldsAt(w, c, ino, Install(ino, StatCurrent(s, m))) && w.disk.current.None?
    requires s in w.disk.stagings && w.disk.stagings[s] == Some(m)
    requires
      Reaches(OnDisk(w, c, Install(ino, RemoveJournal(s, m)),
        w.disk.(current := Some(Some(m)), stagings := w.disk.stagings - {s}), w.nextStaging), c, v)
    ensures Reaches(w, c, v)
  {
    var w1 := Moved(w, c, Install(ino, Publish(s, m)));
    assert OnDisk(w1, c, Install(ino, RemoveJournal(s, m)),
      w.disk.(current := Some(Some(m)), stagings := w.disk.stagings - {s}), w.nextStaging)
      == OnDisk(w, c, Install(ino, RemoveJournal(s, m)),
        w.disk.(current := Some(Some(m)), stagings := w.disk.stagings - {s}), w.nextStaging);
    Renames(w1, c, ino, s, m, v);
    Works(w, c, ino, StatCurrent(s, m), m, w1, v);
  }

  /** The finished tree is published. */
  lemma PublishesTree(w: World, c: Caller, ino: Ino, s: Staging, m: Manifest)
    requires HoldsAt(w, c, ino, Install(ino, StatCurrent(s, m))) && w.disk.current.None?
    requires s in w.disk.stagings && w.disk.stagings[s] == Some(m)
    ensures
      Reaches(w, c, OnDisk(w, c, CheckOwner(ino, Receipt(m)),
        w.disk.(current := Some(Some(m)), stagings := w.disk.stagings - {s}, journal := None), w.nextStaging))
  {
    var d := w.disk.(current := Some(Some(m)), stagings := w.disk.stagings - {s});
    var w2 := OnDisk(w, c, Install(ino, RemoveJournal(s, m)), d, w.nextStaging);
    var v := OnDisk(w, c, CheckOwner(ino, Receipt(m)), d.(journal := None), w.nextStaging);
    Stays(v, c);
    Works(w2, c, ino, RemoveJournal(s, m), m, v, v);
    RenamesTree(w, c, ino, s, m, v);
  }

  /**
   A call that starts on a free lock, works and is left alone, returns a receipt of the provider and leaves the
   lock free. If none was installed, the one it installs is published, its own staging tree, journal and the
   tombstones are gone, and so are the notes of an earlier installation that was left unfinished.
   */
  lemma AloneItInstalls(w: World, c: Caller, m: Manifest) returns (v: World)
    requires LockInv(w) && c in w.calls && w.calls[c] == WriteCandidate && w.disk.lock.None?
    requires (w.disk.current.Some? ==> w.disk.current == Some(Some(m)))
             && forall s | s in w.disk.stagings :: s < w.nextStaging
    ensures Reaches(w, c, v)
    ensures v.calls == w.calls[c := Finished(Receipt(m))]
    ensures v.disk.lock == None && v.disk.current == Some(Some(m)) && v.disk.tombstones == map[]
    ensures w.disk.current.Some? ==>
              v.disk.stagings == w.disk.stagings && v.disk.journal == w.disk.journal
              && v.disk.quarantine == w.disk.quarantine
    ensures w.disk.current.None? ==> v.disk.journal == None && !v.disk.quarantine
    ensures w.disk.current.None? ==>
              v.disk.stagings == if w.disk.quarantine && w.disk.journal.Some?
                                 then w.disk.stagings - {w.disk.journal.value} else w.disk.stagings
  {
    var ino := w.nextIno;
    var d := w.disk.(files := w.disk.files[ino := Content(Some(w.pids[c]), Some(Of(c)))],
                     lock := Some(ino), tombstones := map[]);
    var w1 := OnDisk(w, c, Install(ino, ReadCurrent), d, w.nextStaging).(nextIno := ino + 1);
    ComesToInstall(w, c, m);
    if w.disk.current.Some? {
      v := OnDisk(w1, c, Finished(Receipt(m)), d.(lock := None), w.nextStaging);
      FindsItInstalled(w1, c, ino, m);
    } else {
      v := InstallsAlone(w1, c, ino, m);
    }
    ReachesOn(w, c, w1, v);
  }

  lemma InstallsAlone(w: World, c: Caller, ino: Ino, m: Manifest) returns (v: World)
    requires HoldsAt(w, c, ino, Install(ino, ReadCurrent)) && w.disk.current.None?
    requires forall s | s in w.disk.stagings :: s < w.nextStaging
    ensures Reaches(w, c, v)
    ensures v == OnDisk(w, c, Finished(Receipt(m)),
                        Cleared(w.disk).(lock := None, current := Some(Some(m)), journal := None), w.nextStaging + 1)
  {
    var s := w.nextStaging;
    var w1 := OnDisk(w, c, Install(ino, MakeStaging), Cleared(w.disk), s);
    ClearsAway(w, c, ino, m);
    var d2 := w1.disk.(stagings := w1.disk.stagings[s := None], journal := Some(s));
    var w2 := OnDisk(w1, c, Install(ino, Build(s)), d2, s + 1);
    v := OnDisk(w, c, Finished(Receipt(m)),
      Cleared(w.disk).(lock := None, current := Some(Some(m)), journal := None), s + 1);
    PublishesBuilt(w2, c, ino, s, m, w1.disk.stagings);
    MakesTree(w1, c, ino, m, v);
    ReachesOn(w, c, w1, v);
  }

  lemma PublishesBuilt(w: World, c: Caller, ino: Ino, s: Staging, m: Manifest, trees: map<Staging, Option<Manifest>>)
    requires HoldsAt(w, c, ino, Install(ino, Build(s))) && w.disk.current.None?
    requires s !in trees && w.disk.stagings == trees[s := None]
    ensures Reaches(w, c, OnDisk(w, c, Finished(Receipt(m)),
      w.disk.(lock := None, current := Some(Some(m)), stagings := trees, journal := None), w.nextStaging))
  {
    var d := w.disk.(stagings := w.disk.stagings[s := Some(m)]);
    var w1 := OnDisk(w, c, Install(ino, StatCurrent(s, m)), d, w.nextStaging);
    BuildsTree(w, c, ino, s, m);
    assert d.stagings == trees[s := Some(m)];
    EndsPublished(w1, c, ino, s, m, trees);
    ReachesOn(w, c, w1, OnDisk(w, c, Finished(Receipt(m)),
      w.disk.(lock := None, current := Some(Some(m)), stagings := trees, journal := None), w.nextStaging));
  }

  lemma EndsPublished(w: World, c: Caller, ino: Ino, s: Staging, m: Manifest, trees: map<Staging, Option<Manifest>>)
    requires HoldsAt(w, c, ino, Install(ino, StatCurrent(s, m))) && w.disk.current.None?
    requires s !in trees && w.disk.stagings == trees[s := Some(m)]
    ensures Reaches(w, c, OnDisk(w, c, Finished(Receipt(m)),
      w.disk.(lock := None, current := Some(Some(m)), stagings := trees, journal := None), w.nextStaging))
  {
    PublishesTree(w, c, ino, s, m);
    assert w.disk.stagings - {s} == trees;
    var d := w.disk.(current := Some(Some(m)), stagings := trees, journal := None);
    var w1 := OnDisk(w, c, CheckOwner(ino, Receipt(m)), d, w.nextStaging);
    Ends(w1, c, ino, Receipt(m), m);
    ReachesOn(w, c, w1, OnDisk(w, c, Finished(Receipt(m)), d.(lock := None), w.nextStaging));
  }
}
