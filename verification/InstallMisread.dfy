/**
 Why the install lock needs its owner to be read: a call that fails to read an aged lock file takes the
 lock for abandoned, and ends up holding it beside its running owner.
 */
module InstallMisread {
  import opened Wrappers
  import opened InstallLock

  /** A step of call `c` as the environment lets it be: working or failing, on a lock file aged or not. */
  function Move(c: Caller, ok: bool, aged: bool): Action {
    Step(c, Choice(ok, aged, false, 0, Generation(0, None), Manifest(0, "")))
  }

  /** `n` working steps of call `c`. */
  function Working(c: Caller, n: nat): (actions: seq<Action>)
    ensures |actions| == n
  {
    if n == 0 then [] else [Move(c, true, false)] + Working(c, n - 1)
  }

  function Worked(w: World, c: Caller, n: nat): World
    decreases n
  {
    if n == 0 then w else Worked(Next(w, Move(c, true, false)), c, n - 1)
  }

  lemma RunFirst(w: World, a: Action, rest: seq<Action>)
    ensures Run(w, [a] + rest) == Run(Next(w, a), rest)
  {
    assert ([a] + rest)[1..] == rest;
  }

  lemma {:induction false} WorkedIsRun(w: World, c: Caller, n: nat, rest: seq<Action>)
    ensures Run(w, Working(c, n) + rest) == Run(Worked(w, c, n), rest)
    decreases n
  {
    if n == 0 {
      assert [] + rest == rest;
    } else {
      var a := Move(c, true, false);
      assert Working(c, n) + rest == [a] + (Working(c, n - 1) + rest);
      RunFirst(w, a, Working(c, n - 1) + rest);
      WorkedIsRun(Next(w, a), c, n - 1, rest);
    }
  }

  // ---- taking a lock over ---------------------------------------------------------------------

  /** Call `d` at another point, with everything else as it is. */
  function Moved(w: World, d: Caller, p: Point): World {
    w.(calls := w.calls[d := p])
  }

  /** Call `d` may claim lock file `i` under this token: it is the lock, it names that token or none is claimed. */
  ghost predicate Claimable(w: World, d: Caller, i: Ino, token: Option<Token>) {
    && d in w.calls && d in w.pids && w.disk.lock == Some(i) && i in w.disk.files
    && (token.Some? ==> w.disk.files[i].token == token)
    && Generation(i, token) !in w.disk.tombstones
  }

  /** The world once the claim is linked, once the lock is unlinked, and once the takeover is noted. */
  function Claiming(w: World, d: Caller, i: Ino, token: Option<Token>): World {
    w.(disk := w.disk.(tombstones := w.disk.tombstones[Generation(i, token) := Tombstone(i, d)]))
  }

  function Freed(w: World, d: Caller, i: Ino, token: Option<Token>): World {
    Claiming(w, d, i, token).(disk := Claiming(w, d, i, token).disk.(lock := None))
  }

  function Noted(w: World, d: Caller, i: Ino, token: Option<Token>): World {
    var disk := Freed(w, d, i, token).disk;
    Freed(w, d, i, token).(disk := if disk.current.Some? && disk.current.value.Some? then disk.(journal := None)
                                   else disk.(quarantine := true))
  }

  lemma TakesItForAbandoned(w: World, d: Caller, i: Ino, owner: Content, aged: bool)
    requires Claimable(w, d, i, owner.token) && LooksStale(w, owner, aged)
    ensures Worked(Moved(w, d, CheckAlive(i, owner, aged)), d, 2)
         == Moved(Claiming(w, d, i, owner.token), d, Inspect(i, owner.token, None, None, None))
  {
    var w0 := Moved(w, d, CheckAlive(i, owner, aged));
    var w1 := Next(w0, Move(d, true, false));
    assert w1 == Moved(w, d, LinkClaim(i, owner.token));
    assert Worked(w0, d, 2) == Worked(w1, d, 1) == Worked(Next(w1, Move(d, true, false)), d, 0);
  }

  lemma LooksAtItsClaim(w: World, d: Caller, i: Ino, token: Option<Token>)
    requires Claimable(w, d, i, token)
    ensures
      var v := Claiming(w, d, i, token);
      Worked(Moved(v, d, Inspect(i, token, None, None, None)), d, 2)
      == Moved(v, d, Inspect(i, token, Some(i), None, Some(w.disk.files[i].token)))
  {
    var v := Claiming(w, d, i, token);
    var w0 := Moved(v, d, Inspect(i, token, None, None, None));
    var w1 := Next(w0, Move(d, true, false));
    assert w1 == Moved(v, d, Inspect(i, token, Some(i), None, None));
    assert Worked(w0, d, 2) == Worked(w1, d, 1) == Worked(Next(w1, Move(d, true, false)), d, 0);
  }

  lemma AgreesWithItself(w: World, d: Caller, i: Ino, token: Option<Token>)
    requires Claimable(w, d, i, token)
    ensures
      var v := Claiming(w, d, i, token);
      Worked(Moved(v, d, Inspect(i, token, Some(i), None, Some(w.disk.files[i].token))), d, 2)
      == Moved(v, d, UnlinkStale(i, token))
  {
    var v := Claiming(w, d, i, token);
    var w0 := Moved(v, d, Inspect(i, token, Some(i), None, Some(w.disk.files[i].token)));
    var w1 := Next(w0, Move(d, true, false));
    assert w1 == Moved(v, d, Inspect(i, token, Some(i), Some(Some(i)), Some(w.disk.files[i].token)));
    assert Worked(w0, d, 2) == Worked(w1, d, 1) == Worked(Next(w1, Move(d, true, false)), d, 0);
  }

  function Noting(w: World): Point {
    if w.disk.current.Some? && w.disk.current.value.Some? then ForgetJournal else ReportUnknown
  }

  lemma ChecksForAnInstallation(w: World, d: Caller, i: Ino, token: Option<Token>)
    requires Claimable(w, d, i, token)
    ensures Next(Moved(Freed(w, d, i, token), d, AfterTakeover), Move(d, true, false)) ==
              Moved(Freed(w, d, i, token), d, Noting(w))
  {
  }

  lemma NotesTheTakeover(w: World, d: Caller, i: Ino, token: Option<Token>)
    requires Claimable(w, d, i, token)
    ensures Worked(Moved(Freed(w, d, i, token), d, AfterTakeover), d, 2) ==
              Moved(Noted(w, d, i, token), d, WriteCandidate)
  {
    var w0 := Moved(Freed(w, d, i, token), d, AfterTakeover);
    var w1 := Moved(Freed(w, d, i, token), d, Noting(w));
    ChecksForAnInstallation(w, d, i, token);
    assert Worked(w0, d, 2) == Worked(w1, d, 1) == Worked(Next(w1, Move(d, true, false)), d, 0);
  }

  lemma RemovesTheLock(w: World, d: Caller, i: Ino, token: Option<Token>)
    requires Claimable(w, d, i, token)
    ensures Worked(Moved(Claiming(w, d, i, token), d, UnlinkStale(i, token)), d, 3) ==
              Moved(Noted(w, d, i, token), d, WriteCandidate)
  {
    var w0 := Moved(Claiming(w, d, i, token), d, UnlinkStale(i, token));
    var w1 := Next(w0, Move(d, true, false));
    assert w1 == Moved(Freed(w, d, i, token), d, AfterTakeover);
    NotesTheTakeover(w, d, i, token);
    assert Worked(w0, d, 3) == Worked(w1, d, 2);
  }

  lemma TakesTheLock(w: World, d: Caller)
    requires d in w.calls && d in w.pids && w.disk.lock.None? && w.calls[d].WriteCandidate?
    ensures Worked(w, d, 2).calls == w.calls[d := ListTombstones(w.nextIno)]
  {
    var w1 := Next(w, Move(d, true, false));
    assert w1.calls[d] == LinkLock(w.nextIno);
    assert Worked(w, d, 2) == Worked(w1, d, 1) == Worked(Next(w1, Move(d, true, false)), d, 0);
  }

  lemma {:induction false} WorkedTwice(w: World, d: Caller, m: nat, n: nat)
    ensures Worked(w, d, m + n) == Worked(Worked(w, d, m), d, n)
    decreases m
  {
    if m > 0 {
      WorkedTwice(Next(w, Move(d, true, false)), d, m - 1, n);
    }
  }

  lemma ComesToUnlink(w: World, d: Caller, i: Ino, owner: Content, aged: bool)
    requires Claimable(w, d, i, owner.token) && LooksStale(w, owner, aged)
    ensures Worked(Moved(w, d, CheckAlive(i, owner, aged)), d, 6)
         == Moved(Claiming(w, d, i, owner.token), d, UnlinkStale(i, owner.token))
  {
    var w0 := Moved(w, d, CheckAlive(i, owner, aged));
    TakesItForAbandoned(w, d, i, owner, aged);
    LooksAtItsClaim(w, d, i, owner.token);
    AgreesWithItself(w, d, i, owner.token);
    WorkedTwice(w0, d, 2, 4);
    WorkedTwice(Worked(w0, d, 2), d, 2, 2);
  }

  lemma UnlinksAndTakes(w: World, d: Caller, i: Ino, token: Option<Token>)
    requires Claimable(w, d, i, token)
    ensures Worked(Moved(Claiming(w, d, i, token), d, UnlinkStale(i, token)), d, 5).calls ==
              w.calls[d := ListTombstones(w.nextIno)]
  {
    RemovesTheLock(w, d, i, token);
    TakesTheLock(Moved(Noted(w, d, i, token), d, WriteCandidate), d);
    WorkedTwice(Moved(Claiming(w, d, i, token), d, UnlinkStale(i, token)), d, 3, 2);
  }

  /** From an owner taken for dead to the lock in eleven working steps, while nobody else moves. */
  lemma TakesItOver(w: World, d: Caller, i: Ino, owner: Content, aged: bool)
    requires Claimable(w, d, i, owner.token) && LooksStale(w, owner, aged)
    ensures
      var v := Worked(Moved(w, d, CheckAlive(i, owner, aged)), d, 11);
      v.calls == w.calls[d := ListTombstones(w.nextIno)]
  {
    ComesToUnlink(w, d, i, owner, aged);
    UnlinksAndTakes(w, d, i, owner.token);
    WorkedTwice(Moved(w, d, CheckAlive(i, owner, aged)), d, 6, 5);
  }

  /**
   Whenever a call misreads the lock and the name it then claims is not taken, eleven more steps of its own
   that work let it hold the lock too, whoever holds it, while nobody else moves.
   */
  lemma MisreadBreaks(w: World, d: Caller, choice: Choice)
    requires LockInv(w) && Misreads(w, Step(d, choice))
    requires Generation(w.calls[d].ino, None) !in w.disk.tombstones
    ensures
      var v := Worked(Next(w, Step(d, choice)), d, 11);
      && d in v.calls && Holding(v.calls[d])
      && forall c | c in w.calls && c != d :: c in v.calls && v.calls[c] == w.calls[c]
  {
    var i := w.calls[d].ino;
    assert Next(w, Step(d, choice)) == Moved(w, d, CheckAlive(i, Content(None, None), true));
    TakesItOver(w, d, i, Content(None, None), true);
  }

  // ---- a run that comes to it -----------------------------------------------------------------

  const Nothing := Disk(map[], None, map[], None, map[], None, false)

  const Bare := World(Nothing, map[], map[], {}, 0, 0)

  /** Call 0 of process 7 takes the lock; call 1 of process 8 meets it and comes to read its owner. */
  const Held := World(
    Nothing.(files := map[0 := Content(Some(7), Some(Of(0)))], lock := Some(0)),
    map[0 := ListTombstones(0)], map[0 := 7], {}, 1, 0)

  const Met := World(
    Held.disk.(files := Held.disk.files[1 := Content(Some(8), Some(Of(1)))]),
    Held.calls[1 := ReadOwner(0, true)], map[0 := 7, 1 := 8], {}, 2, 0)

  lemma FirstTakesIt()
    ensures Worked(Next(Bare, Begin(0, 7)), 0, 2) == Held
  {
    var w := Next(Bare, Begin(0, 7));
    var w1 := Next(w, Move(0, true, false));
    assert w1.calls[0] == LinkLock(0);
    assert Worked(w1, 0, 1) == Worked(Next(w1, Move(0, true, false)), 0, 0);
  }

  lemma SecondFindsItTaken()
    ensures Worked(Next(Held, Begin(1, 8)), 1, 2) == Moved(Met, 1, StatLock)
  {
    var w := Next(Held, Begin(1, 8));
    var w1 := Next(w, Move(1, true, false));
    assert w1.calls[1] == LinkLock(1);
    assert Worked(w1, 1, 1) == Worked(Next(w1, Move(1, true, false)), 1, 0);
  }

  lemma SecondReadsItsOwner()
    ensures Next(Moved(Met, 1, StatLock), Move(1, true, true)) == Met
  {
  }

  lemma ReachesTheLock(rest: seq<Action>)
    ensures Run(Bare, [Begin(0, 7)] + (Working(0, 2) + ([Begin(1, 8)] + (Working(1, 2) +
                        ([Move(1, true, true)] + rest))))) == Run(Met, rest)
  {
    var meeting := Working(1, 2) + ([Move(1, true, true)] + rest);
    RunFirst(Bare, Begin(0, 7), Working(0, 2) + ([Begin(1, 8)] + meeting));
    WorkedIsRun(Next(Bare, Begin(0, 7)), 0, 2, [Begin(1, 8)] + meeting);
    FirstTakesIt();
    RunFirst(Held, Begin(1, 8), meeting);
    WorkedIsRun(Next(Held, Begin(1, 8)), 1, 2, [Move(1, true, true)] + rest);
    SecondFindsItTaken();
    RunFirst(Moved(Met, 1, StatLock), Move(1, true, true), rest);
    SecondReadsItsOwner();
  }

  lemma MetIsWellFormed()
    ensures LockInv(Met) && Misreads(Met, Move(1, false, false))
  {
    assert PointOk(Met, 0) && PointOk(Met, 1);
  }

  /** The failing case: of these nineteen actions one is a failing read, and two calls hold the lock. */
  lemma TwoHold() returns (actions: seq<Action>)
    ensures Initial(Bare) && |actions| == 19
    ensures var v := Run(Bare, actions);
      0 in v.calls && 1 in v.calls && Holding(v.calls[0]) && Holding(v.calls[1])
  {
    var rest := [Move(1, false, false)] + (Working(1, 11) + []);
    actions := [Begin(0, 7)] + (Working(0, 2) + ([Begin(1, 8)] + (Working(1, 2) + ([Move(1, true, true)] + rest))));
    ReachesTheLock(rest);
    RunFirst(Met, Move(1, false, false), Working(1, 11) + []);
    WorkedIsRun(Next(Met, Move(1, false, false)), 1, 11, []);
    MetIsWellFormed();
    MisreadBreaks(Met, 1, Move(1, false, false).choice);
  }
}
