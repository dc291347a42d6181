/**
 Where the install lock does not get on: a claimant that dies between claiming a dead owner's lock and
 removing it leaves the lock claimed for good, and nobody can take it any more.
 */
module InstallStuck {
  import opened Wrappers
  import opened InstallLock

  /** The call has claimed lock file `i` under this token and has not yet removed it. */
  predicate AtClaim(p: Point, i: Ino, token: Option<Token>) {
    (p.Inspect? || p.UnlinkStale?) && p.ino == i && p.token == token
  }

  /** The lock is that of a dead owner; its generation is claimed, and no call is at work on the claim. */
  ghost predicate Stuck(w: World, i: Ino) {
    && w.disk.lock == Some(i) && i in w.disk.files
    && w.disk.files[i].pid.Some? && w.disk.files[i].pid.value in w.dead
    && Generation(i, w.disk.files[i].token) in w.disk.tombstones
    && forall c | c in w.calls :: !AtClaim(w.calls[c], i, w.disk.files[i].token)
  }

  /** Nobody holds a dead owner's lock. */
  lemma NobodyHolds(w: World, i: Ino, c: Caller)
    requires LockInv(w) && Stuck(w, i) && c in w.calls
    ensures !Holding(w.calls[c])
  {
    if Holding(w.calls[c]) {
      assert PointOk(w, c);
      HeldIsNotStale(w, c, i, w.disk.files[i].token);
    }
  }

  /** A claim other than that of the lock does not lead to its removal. */
  lemma OthersDoNotUnlink(w: World, i: Ino, c: Caller)
    requires LockInv(w) && Stuck(w, i) && c in w.calls
    ensures !w.calls[c].UnlinkStale?
  {
    assert PointOk(w, c);
  }

  lemma WaitingStaysStuck(w: World, i: Ino, c: Caller, ch: Choice)
    requires LockInv(w) && Stuck(w, i) && Live(w, c) && c in w.pids && !Holding(w.calls[c])
    ensures
      var v := WaitStep(w, c, ch);
      && v.disk.lock == Some(i) && v.dead == w.dead && v.disk.current == w.disk.current
      && i in v.disk.files && v.disk.files[i] == w.disk.files[i]
      && Generation(i, w.disk.files[i].token) in v.disk.tombstones
  {
    OthersDoNotUnlink(w, i, c);
    if w.calls[c].Inspect? {
      assert WaitStep(w, c, ch).disk == w.disk;
    }
  }

  lemma NoNewClaim(w: World, i: Ino, c: Caller, ch: Choice)
    requires LockInv(w) && Stuck(w, i) && Live(w, c) && c in w.pids && !Holding(w.calls[c])
    ensures !AtClaim(WaitStep(w, c, ch).calls[c], i, w.disk.files[i].token)
  {
    OthersDoNotUnlink(w, i, c);
    if w.calls[c].Inspect? {
      InspectingClaimsNothing(w, c, w.calls[c], ch, i, w.disk.files[i].token);
    }
  }

  lemma InspectingClaimsNothing(w: World, c: Caller, p: Point, ch: Choice, i: Ino, token: Option<Token>)
    requires c in w.calls && p.Inspect? && !AtClaim(p, i, token)
    ensures !AtClaim(InspectStep(w, c, p, ch).calls[c], i, token)
  {
  }

  lemma NextStaysStuck(w: World, i: Ino, a: Action)
    requires LockInv(w) && Stuck(w, i)
    ensures Stuck(Next(w, a), i) && Next(w, a).disk.current == w.disk.current
  {
    if a.Step? && Live(w, a.caller) && a.caller in w.pids {
      var c := a.caller;
      NobodyHolds(w, i, c);
      WaitingStaysStuck(w, i, c, a.choice);
      NoNewClaim(w, i, c, a.choice);
      OnlyOneMoves(w, c, a.choice);
    }
  }

  lemma OnlyOneMoves(w: World, c: Caller, ch: Choice)
    requires c in w.calls && c in w.pids && !Holding(w.calls[c])
    ensures forall d | d in WaitStep(w, c, ch).calls && d != c ::
              d in w.calls && WaitStep(w, c, ch).calls[d] == w.calls[d]
  {
    if w.calls[c].Inspect? {
      assert forall d | d in InspectStep(w, c, w.calls[c], ch).calls && d != c ::
          d in w.calls && InspectStep(w, c, w.calls[c], ch).calls[d] == w.calls[d];
    }
  }

  /** From then on, whoever calls and however long: the lock stays, nobody holds it, and nothing is published. */
  lemma {:induction false} StuckForever(w: World, i: Ino, actions: seq<Action>)
    requires LockInv(w) && Stuck(w, i) && ReadsWell(w, actions)
    ensures
      var v := Run(w, actions);
      && v.disk.lock == Some(i) && v.disk.current == w.disk.current
      && forall c | c in v.calls :: !Holding(v.calls[c])
    decreases |actions|
  {
    if actions == [] {
      forall c | c in w.calls ensures !Holding(w.calls[c]) {
        NobodyHolds(w, i, c);
      }
    } else {
      NextKeepsLock(w, actions[0]);
      NextStaysStuck(w, i, actions[0]);
      StuckForever(Next(w, actions[0]), i, actions[1..]);
    }
  }

  /** It comes to that when the claimant's process dies at work on its claim, for no other call can take it up. */
  lemma ClaimantDies(w: World, c: Caller, i: Ino)
    requires LockInv(w) && Live(w, c) && w.disk.lock == Some(i)
    requires w.disk.files[i].pid.Some? && w.disk.files[i].pid.value in w.dead
    requires AtClaim(w.calls[c], i, w.disk.files[i].token)
    ensures Stuck(Next(w, Crash(w.pids[c])), i)
  {
    var v := Next(w, Crash(w.pids[c]));
    var token := w.disk.files[i].token;
    assert PointOk(w, c) && Claims(w, c, i, token);
    forall d | d in v.calls
      ensures !AtClaim(v.calls[d], i, token)
    {
      if d != c && AtClaim(w.calls[d], i, token) {
        assert PointOk(w, d);
      }
    }
  }
}
