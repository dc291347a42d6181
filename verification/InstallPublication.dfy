/**
 What the install lock is for: the provider is published by the lock's holder, by renaming a staging tree
 whose manifest is complete, and no cleanup removes the tree of an installer at work. That it is published
 at most once, and that every receipt ever returned names the one published manifest, holds even of runs
 in which the lock is lost.
 */
module InstallPublication {
  import opened Wrappers
  import opened InstallLock

  /** The staging tree an installation is working on. */
  function Tree(p: Point): Option<Staging> {
    match p
    case Install(_, WriteJournal(s)) => Some(s)
    case Install(_, Build(s)) => Some(s)
    case Install(_, WriteManifest(s)) => Some(s)
    case Install(_, StatCurrent(s, _)) => Some(s)
    case Install(_, Publish(s, _)) => Some(s)
    case _ => None
  }

  function Reported(p: Point): Option<Manifest> {
    match p
    case CheckOwner(_, Receipt(m)) => Some(m)
    case UnlinkOwn(_, Receipt(m)) => Some(m)
    case Finished(Receipt(m)) => Some(m)
    case Install(_, RemoveJournal(_, m)) => Some(m)
    case _ => None
  }

  ghost predicate TreeOk(w: World, c: Caller)
    requires c in w.calls
  {
    var p := w.calls[c];
    && (Tree(p).Some? ==> Tree(p).value in w.disk.stagings)
    && (p.Install? && p.phase.StatCurrent? ==> w.disk.stagings[p.phase.staging] == Some(p.phase.manifest))
    && (p.Install? && p.phase.Publish? ==>
          w.disk.stagings[p.phase.staging] == Some(p.phase.manifest) && w.disk.current.None?)
  }

  ghost predicate PublicationInv(w: World) {
    && (forall s | s in w.disk.stagings :: s < w.nextStaging)
    && (forall c | c in w.calls :: TreeOk(w, c))
  }

  /** Only call `c` moves. */
  ghost predicate OnlyMoves(w: World, v: World, c: Caller) {
    && c in w.calls && v.calls.Keys == w.calls.Keys
    && (forall d | d in w.calls && d != c :: v.calls[d] == w.calls[d])
  }

  ghost predicate SameTrees(w: World, v: World) {
    v.disk.current == w.disk.current && v.disk.stagings == w.disk.stagings && v.nextStaging == w.nextStaging
  }

  lemma InspectingTouchesNoTree(w: World, c: Caller, p: Point, ch: Choice)
    requires c in w.calls && p.Inspect?
    ensures
      var v := InspectStep(w, c, p, ch);
      OnlyMoves(w, v, c) && SameTrees(w, v) && Tree(v.calls[c]).None? && Reported(v.calls[c]).None?
  {
  }

  lemma LinkingTouchesNoTree(w: World, c: Caller, ch: Choice)
    requires c in w.calls && c in w.pids
    requires w.calls[c].WriteCandidate? || w.calls[c].LinkLock? || w.calls[c].LinkClaim? || w.calls[c].UnlinkStale?
    ensures
      var v := WaitStep(w, c, ch);
      OnlyMoves(w, v, c) && SameTrees(w, v) && Tree(v.calls[c]).None? && Reported(v.calls[c]).None?
  {
  }

  /** A waiting call touches neither the trees nor the publication, and reports nothing. */
  lemma WaitingTouchesNoTree(w: World, c: Caller, ch: Choice)
    requires c in w.calls && c in w.pids && !Holding(w.calls[c]) && Live(w, c)
    ensures
      var v := WaitStep(w, c, ch);
      OnlyMoves(w, v, c) && SameTrees(w, v) && Tree(v.calls[c]).None? && Reported(v.calls[c]).None?
  {
    if w.calls[c].Inspect? {
      InspectingTouchesNoTree(w, c, w.calls[c], ch);
    } else if w.calls[c].WriteCandidate? || w.calls[c].LinkLock? || w.calls[c].LinkClaim? || w.calls[c].UnlinkStale? {
      LinkingTouchesNoTree(w, c, ch);
    }
  }

  /** A change of the publication: the rename of `c`'s finished tree where nothing was published. */
  ghost predicate Publishes(w: World, v: World, c: Caller) {
    && c in w.calls && w.calls[c].Install? && w.calls[c].phase.Publish?
    && w.disk.current.None?
    && w.calls[c].phase.staging in w.disk.stagings
    && v.disk.current == Some(w.disk.stagings[w.calls[c].phase.staging])
  }

  ghost predicate HolderMoves(w: World, v: World, c: Caller) {
    && OnlyMoves(w, v, c)
    && (v.disk.current != w.disk.current ==> Publishes(w, v, c))
    && TreeOk(v, c)
    && (forall s | s in v.disk.stagings :: s < v.nextStaging)
  }

  predicate Preparing(phase: Phase) {
    phase.ReadCurrent? || phase.StatQuarantine? || phase.ReadJournal? || phase.RemoveQuarantined?
    || phase.RemoveOldJournal? || phase.RemoveQuarantine? || phase.MakeStaging? || phase.WriteJournal?
  }

  lemma PreparingMoves(w: World, c: Caller, ino: Ino, phase: Phase, ch: Choice)
    requires PublicationInv(w) && c in w.calls && w.calls[c] == Install(ino, phase) && Preparing(phase)
    ensures HolderMoves(w, InstallStep(w, c, ino, phase, ch), c)
  {
    assert TreeOk(w, c);
  }

  predicate Cleaning(phase: Phase) {
    phase.RemoveJournal? || phase.Quarantine? || phase.Discard? || phase.DiscardJournal?
  }

  lemma CleaningMoves(w: World, c: Caller, ino: Ino, phase: Phase, ch: Choice)
    requires PublicationInv(w) && c in w.calls && w.calls[c] == Install(ino, phase) && Cleaning(phase)
    ensures HolderMoves(w, InstallStep(w, c, ino, phase, ch), c)
  {
    assert TreeOk(w, c);
  }

  lemma BuildingMoves(w: World, c: Caller, ino: Ino, phase: Phase, ch: Choice)
    requires PublicationInv(w) && c in w.calls && w.calls[c] == Install(ino, phase) && !Preparing(phase)
    ensures HolderMoves(w, InstallStep(w, c, ino, phase, ch), c)
  {
    if Cleaning(phase) {
      CleaningMoves(w, c, ino, phase, ch);
    } else {
      assert TreeOk(w, c);
    }
  }

  lemma HoldingMoves(w: World, c: Caller, ch: Choice)
    requires PublicationInv(w) && c in w.calls && Holding(w.calls[c])
    ensures HolderMoves(w, HoldStep(w, c, ch), c)
  {
    assert TreeOk(w, c);
    if w.calls[c].Install? {
      if Preparing(w.calls[c].phase) {
        PreparingMoves(w, c, w.calls[c].ino, w.calls[c].phase, ch);
      } else {
        BuildingMoves(w, c, w.calls[c].ino, w.calls[c].phase, ch);
      }
    }
  }

  lemma NextKeepsPublication(w: World, a: Action)
    requires LockInv(w) && PublicationInv(w)
    ensures PublicationInv(Next(w, a))
  {
    var v := Next(w, a);
    if a.Step? && Live(w, a.caller) && a.caller in w.pids {
      var c := a.caller;
      if Holding(w.calls[c]) {
        HoldingMoves(w, c, a.choice);
      } else {
        WaitingTouchesNoTree(w, c, a.choice);
      }
      forall d | d in v.calls
        ensures TreeOk(v, d)
      {
        assert TreeOk(w, d);
        if d != c && Holding(w.calls[c]) && Holding(w.calls[d]) {
          HoldersAgree(w, c, d);
        }
      }
    } else {
      forall d | d in v.calls
        ensures TreeOk(v, d)
      {
        assert d in w.calls ==> TreeOk(w, d);
      }
    }
  }

  lemma {:induction false} RunsKeepPublication(w: World, actions: seq<Action>)
    requires LockInv(w) && PublicationInv(w) && ReadsWell(w, actions)
    ensures LockInv(Run(w, actions)) && PublicationInv(Run(w, actions))
    decreases |actions|
  {
    if actions != [] {
      NextKeepsLock(w, actions[0]);
      NextKeepsPublication(w, actions[0]);
      RunsKeepPublication(Next(w, actions[0]), actions[1..]);
    }
  }

  /**
   Only a holder at its rename publishes, only where nothing is published, and what it publishes is a
   tree with a complete manifest.
   */
  lemma OnlyRenamePublishes(w: World, a: Action)
    requires LockInv(w) && PublicationInv(w) && Next(w, a).disk.current != w.disk.current
    ensures w.disk.current.None?
    ensures a.Step? && a.caller in w.calls && w.calls[a.caller].Install? && w.calls[a.caller].phase.Publish?
    ensures w.disk.lock == Some(w.calls[a.caller].ino)
    ensures Next(w, a).disk.current == Some(Some(w.calls[a.caller].phase.manifest))
  {
    var c := a.caller;
    assert PointOk(w, c) && TreeOk(w, c);
    if Holding(w.calls[c]) {
      HoldingMoves(w, c, a.choice);
    } else {
      WaitingTouchesNoTree(w, c, a.choice);
    }
  }

  /** No step of anyone else removes or rewrites the tree of an installer at work. */
  lemma TreesAreSafe(w: World, a: Action, c: Caller)
    requires LockInv(w) && PublicationInv(w) && c in w.calls && Tree(w.calls[c]).Some?
    requires a.Step? ==> a.caller != c
    ensures
      var s := Tree(w.calls[c]).value;
      s in w.disk.stagings && s in Next(w, a).disk.stagings && Next(w, a).disk.stagings[s] == w.disk.stagings[s]
  {
    assert TreeOk(w, c);
    if a.Step? && Live(w, a.caller) && a.caller in w.pids {
      if Holding(w.calls[a.caller]) {
        HoldersAgree(w, a.caller, c);
      } else {
        WaitingTouchesNoTree(w, a.caller, a.choice);
      }
    }
  }

  // ---- without the lock -----------------------------------------------------------------------

  /** A tree is one call's own, whoever holds the lock; what is reported is what is published. */
  ghost predicate OwnTree(w: World, c: Caller)
    requires c in w.calls
  {
    var p := w.calls[c];
    && (Tree(p).Some? ==> Tree(p).value < w.nextStaging)
    && (Tree(p).Some? && (p.phase.StatCurrent? || p.phase.Publish?) && Tree(p).value in w.disk.stagings ==>
          w.disk.stagings[Tree(p).value] == Some(p.phase.manifest))
    && (Reported(p).Some? ==> w.disk.current == Some(Reported(p)))
  }

  ghost predicate ReceiptInv(w: World) {
    && (forall c | c in w.calls :: OwnTree(w, c))
    && (forall c, d | c in w.calls && d in w.calls && c != d && Tree(w.calls[c]).Some? ::
          Tree(w.calls[c]) != Tree(w.calls[d]))
  }

  /** What a step of call `c` may do to trees: make a new one, write its own, remove any, publish where nothing is. */
  ghost predicate KeepsToItsTree(w: World, v: World, c: Caller) {
    && OnlyMoves(w, v, c) && w.nextStaging <= v.nextStaging
    && (v.disk.current != w.disk.current ==> w.disk.current.None?)
    && (Tree(v.calls[c]).Some? ==>
          Tree(v.calls[c]) == Tree(w.calls[c]) || w.nextStaging <= Tree(v.calls[c]).value < v.nextStaging)
    && (forall s | s in v.disk.stagings && s < w.nextStaging && Some(s) != Tree(w.calls[c]) ::
          s in w.disk.stagings && v.disk.stagings[s] == w.disk.stagings[s])
  }

  lemma InstallingKeepsToItsTree(w: World, c: Caller, ino: Ino, phase: Phase, ch: Choice)
    requires c in w.calls && w.calls[c] == Install(ino, phase) && OwnTree(w, c)
    ensures KeepsToItsTree(w, InstallStep(w, c, ino, phase, ch), c)
    ensures OwnTree(InstallStep(w, c, ino, phase, ch), c)
  {
    if Preparing(phase) {
      PreparingKeepsToItsTree(w, c, ino, phase, ch);
    } else if Cleaning(phase) {
      CleaningKeepsToItsTree(w, c, ino, phase, ch);
    }
  }

  lemma PreparingKeepsToItsTree(w: World, c: Caller, ino: Ino, phase: Phase, ch: Choice)
    requires c in w.calls && w.calls[c] == Install(ino, phase) && OwnTree(w, c) && Preparing(phase)
    ensures KeepsToItsTree(w, InstallStep(w, c, ino, phase, ch), c)
    ensures OwnTree(InstallStep(w, c, ino, phase, ch), c)
  {
  }

  lemma CleaningKeepsToItsTree(w: World, c: Caller, ino: Ino, phase: Phase, ch: Choice)
    requires c in w.calls && w.calls[c] == Install(ino, phase) && OwnTree(w, c) && Cleaning(phase)
    ensures KeepsToItsTree(w, InstallStep(w, c, ino, phase, ch), c)
    ensures OwnTree(InstallStep(w, c, ino, phase, ch), c)
  {
  }

  lemma StepKeepsToItsTree(w: World, c: Caller, ch: Choice)
    requires Live(w, c) && c in w.pids && OwnTree(w, c)
    ensures KeepsToItsTree(w, Next(w, Step(c, ch)), c) && OwnTree(Next(w, Step(c, ch)), c)
  {
    if !Holding(w.calls[c]) {
      WaitingTouchesNoTree(w, c, ch);
    } else if w.calls[c].Install? {
      InstallingKeepsToItsTree(w, c, w.calls[c].ino, w.calls[c].phase, ch);
    }
  }

  lemma NextKeepsReceipts(w: World, a: Action)
    requires ReceiptInv(w)
    ensures ReceiptInv(Next(w, a))
    ensures w.disk.current.Some? ==> Next(w, a).disk.current == w.disk.current
  {
    var v := Next(w, a);
    if a.Step? && Live(w, a.caller) && a.caller in w.pids {
      var c := a.caller;
      StepKeepsToItsTree(w, c, a.choice);
      forall d | d in v.calls && d != c
        ensures OwnTree(v, d)
      {
        assert OwnTree(w, d);
      }
    } else {
      forall d | d in v.calls
        ensures OwnTree(v, d)
      {
        assert d in w.calls ==> OwnTree(w, d);
      }
    }
  }

  /** A publication is never replaced, removed or changed. */
  lemma {:induction false} PublishedOnce(w: World, actions: seq<Action>)
    requires ReceiptInv(w)
    ensures ReceiptInv(Run(w, actions))
    ensures w.disk.current.Some? ==> Run(w, actions).disk.current == w.disk.current
    decreases |actions|
  {
    if actions != [] {
      NextKeepsReceipts(w, actions[0]);
      PublishedOnce(Next(w, actions[0]), actions[1..]);
    }
  }

  /**
   The publication theorem over whole runs, from any disk left behind, through any crashes, failures and
   misreadings: whoever returns a receipt, early or late, returns the one for the manifest published at the end.
   */
  lemma ReceiptsAgree(w: World, actions: seq<Action>, later: seq<Action>, c: Caller, d: Caller)
    requires Initial(w)
    requires c in Run(w, actions).calls && Run(w, actions).calls[c].Finished?
             && Run(w, actions).calls[c].result.Receipt?
    requires d in Run(Run(w, actions), later).calls
    requires Run(Run(w, actions), later).calls[d].Finished? && Run(Run(w, actions), later).calls[d].result.Receipt?
    ensures
      var end := Run(Run(w, actions), later);
      end.disk.current == Some(Some(end.calls[d].result.manifest))
        && end.calls[d].result == Run(w, actions).calls[c].result
  {
    PublishedOnce(w, actions);
    var mid := Run(w, actions);
    PublishedOnce(mid, later);
    assert OwnTree(mid, c) && OwnTree(Run(mid, later), d);
  }
}
