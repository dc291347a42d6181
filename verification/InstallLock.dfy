/**
 The provider install lock and the publication it guards, as a transition system. Every file-system
 call of a waiting, claiming, holding or installing call is one step of that call; any process may
 die between two steps of its calls. The lock is a hard link to a private candidate file; a lock
 whose owner is dead is taken over by whoever first links it under the name of its generation.

 Inode numbers are never reused while the model runs, owner tokens are unique to a call, a dead
 process stays dead, and file contents are complete before they are linked.
 */
module InstallLock {
  import opened Wrappers

  type Ino = nat
  type Pid = nat
  type Caller = nat
  type Staging = nat

  /** A random owner token: of one of the modelled calls, or left over from before. */
  datatype Token = Of(caller: Caller) | Leftover(id: nat)

  /** A lock file; either part is absent when the file does not parse to it. */
  datatype Content = Content(pid: Option<Pid>, token: Option<Token>)

  /** The tombstone name, a digest of inode and expected token. */
  datatype Generation = Generation(ino: Ino, token: Option<Token>)

  /** A hard link under a tombstone name; `linker` is history, not disk content. */
  datatype Tombstone = Tombstone(ino: Ino, linker: Caller)

  datatype Manifest = Manifest(installedAt: int, evidence: string)

  /** `current` and the staging trees hold the manifest once it is written. */
  datatype Disk = Disk(
    files: map<Ino, Content>,
    lock: Option<Ino>,
    tombstones: map<Generation, Tombstone>,
    current: Option<Option<Manifest>>,
    stagings: map<Staging, Option<Manifest>>,
    journal: Option<Staging>,
    quarantine: bool)

  datatype Result = Receipt(manifest: Manifest) | Threw

  /** The body of `install`, by the call it makes next. */
  datatype Phase =
    | ReadCurrent
    | StatQuarantine
    | ReadJournal
    | RemoveQuarantined(staging: Staging)
    | RemoveOldJournal
    | RemoveQuarantine
    | MakeStaging
    | WriteJournal(staging: Staging)
    | Build(staging: Staging)
    | WriteManifest(staging: Staging)
    | StatCurrent(staging: Staging, manifest: Manifest)
    | Publish(staging: Staging, manifest: Manifest)
    | RemoveJournal(staging: Staging, manifest: Manifest)
    | Quarantine
    | Discard(staging: Staging)
    | DiscardJournal

  /** A call of withProviderInstallLock, by the system call it makes next. */
  datatype Point =
    | WriteCandidate
    | LinkLock(ino: Ino)
    | StatLock
    | ReadOwner(ino: Ino, aged: bool)
    | CheckAlive(ino: Ino, found: Content, aged: bool)
    | LinkClaim(ino: Ino, token: Option<Token>)
    | Inspect(ino: Ino, token: Option<Token>, claim: Option<Ino>, lock: Option<Option<Ino>>,
              owner: Option<Option<Token>>)
    | UnlinkStale(ino: Ino, token: Option<Token>)
    | AfterTakeover
    | ForgetJournal
    | ReportUnknown
    | ListTombstones(ino: Ino)
    | Prune(ino: Ino, rest: set<Generation>)
    | Install(ino: Ino, phase: Phase)
    | CheckOwner(ino: Ino, result: Result)
    | UnlinkOwn(ino: Ino, result: Result)
    | Finished(result: Result)
    | Crashed

  datatype World = World(
    disk: Disk,
    calls: map<Caller, Point>,
    pids: map<Caller, Pid>,
    dead: set<Pid>,
    nextIno: Ino,
    nextStaging: Staging)

  /** What the environment decides at a step: success, age of a lock file, abort, order, contents. */
  datatype Choice = Choice(ok: bool, aged: bool, aborted: bool, look: nat, name: Generation, manifest: Manifest)

  datatype Action = Begin(caller: Caller, pid: Pid) | Step(caller: Caller, choice: Choice) | Crash(pid: Pid)

  predicate Holding(p: Point) {
    p.ListTombstones? || p.Prune? || p.Install? || p.CheckOwner? || p.UnlinkOwn?
  }

  function HeldIno(p: Point): Ino
    requires Holding(p)
  {
    match p
    case ListTombstones(i) => i
    case Prune(i, _) => i
    case Install(i, _) => i
    case CheckOwner(i, _) => i
    case UnlinkOwn(i, _) => i
  }

  function At(w: World, c: Caller, p: Point): World {
    w.(calls := w.calls[c := p])
  }

  // ---- waiting and taking over ----------------------------------------------------------------

  function OwnerToken(d: Disk, ino: Option<Ino>): Option<Token> {
    if ino.Some? && ino.value in d.files then d.files[ino.value].token else None
  }

  function OwnerPid(d: Disk, ino: Option<Ino>): Option<Pid> {
    if ino.Some? && ino.value in d.files then d.files[ino.value].pid else None
  }

  /** The owner read earlier names no process, or one dead by now; without a process the file must have aged. */
  predicate LooksStale(w: World, owner: Content, aged: bool) {
    if owner.pid.Some? then owner.pid.value in w.dead else aged
  }

  /** What the three observations of a claimed lock must agree on before it is unlinked. */
  predicate Agree(p: Point)
    requires p.Inspect? && p.claim.Some? && p.lock.Some? && p.owner.Some?
  {
    && p.lock.value.Some?
    && p.claim.value == p.ino
    && p.lock.value == p.claim
    && (p.token.Some? ==> p.owner.value == p.token)
  }

  /** One of lstat(claimPath), lstat(lockPath) and readJson(claimPath), in any order, then the verdict. */
  function InspectStep(w: World, c: Caller, p: Point, ch: Choice): World
    requires p.Inspect?
  {
    var name := Generation(p.ino, p.token);
    if p.claim.Some? && p.lock.Some? && p.owner.Some? then
      At(w, c, if Agree(p) then UnlinkStale(p.ino, p.token) else WriteCandidate)
    else if p.claim.None? && (ch.look == 0 || (p.lock.Some? && p.owner.Some?)) then
      if !ch.ok then At(w, c, Finished(Threw))
      else if name in w.disk.tombstones then At(w, c, p.(claim := Some(w.disk.tombstones[name].ino)))
      else At(w, c, WriteCandidate)
    else if p.lock.None? && (ch.look == 1 || p.owner.Some?) then
      At(w, c, if ch.ok then p.(lock := Some(w.disk.lock)) else Finished(Threw))
    else if p.owner.None? then
      At(w, c, p.(owner := Some(
        if ch.ok && name in w.disk.tombstones then OwnerToken(w.disk, Some(w.disk.tombstones[name].ino)) else None)))
    else At(w, c, if ch.ok then p.(lock := Some(w.disk.lock)) else Finished(Threw))
  }

  function WaitStep(w: World, c: Caller, ch: Choice): World
    requires c in w.calls && c in w.pids
  {
    var d := w.disk;
    match w.calls[c]
    case WriteCandidate =>
      if ch.aborted || !ch.ok then At(w, c, Finished(Threw))
      else
        var ino := w.nextIno;
        At(w.(disk := d.(files := d.files[ino := Content(Some(w.pids[c]), Some(Of(c)))]), nextIno := ino + 1), c,
          LinkLock(ino))
    case LinkLock(ino) =>
      if !ch.ok then At(w, c, Finished(Threw))
      else if d.lock.None? then At(w.(disk := d.(lock := Some(ino))), c, ListTombstones(ino)) else At(w, c, StatLock)
    case StatLock =>
      if d.lock.None? || !ch.ok then At(w, c, Finished(Threw)) else At(w, c, ReadOwner(d.lock.value, ch.aged))
    case ReadOwner(ino, aged) =>
      var found := if ch.ok then Content(OwnerPid(d, d.lock), OwnerToken(d, d.lock)) else Content(None, None);
      At(w, c, CheckAlive(ino, found, aged))
    case CheckAlive(ino, owner, aged) =>
      if LooksStale(w, owner, aged) then At(w, c, LinkClaim(ino, owner.token))
      else if ch.ok then At(w, c, WriteCandidate) else At(w, c, Finished(Threw))
    case LinkClaim(ino, token) =>
      var name := Generation(ino, token);
      if !ch.ok then At(w, c, Finished(Threw))
      else if d.lock.None? || name in d.tombstones then At(w, c, WriteCandidate)
      else At(w.(disk := d.(tombstones := d.tombstones[name := Tombstone(d.lock.value, c)])), c,
        Inspect(ino, token, None, None, None))
    case Inspect(_, _, _, _, _) => InspectStep(w, c, w.calls[c], ch)
    case UnlinkStale(_, _) =>
      if !ch.ok then At(w, c, Finished(Threw))
      else if d.lock.None? then At(w, c, WriteCandidate)
      else At(w.(disk := d.(lock := None)), c, AfterTakeover)
    case AfterTakeover =>
      if d.current.Some? && d.current.value.Some? && ch.ok then At(w, c, ForgetJournal) else At(w, c, ReportUnknown)
    case ForgetJournal =>
      if ch.ok then At(w.(disk := d.(journal := None)), c, WriteCandidate) else At(w, c, Finished(Threw))
    case ReportUnknown =>
      if ch.ok then At(w.(disk := d.(quarantine := true)), c, WriteCandidate) else At(w, c, Finished(Threw))
    case _ => w
  }

  // ---- holding --------------------------------------------------------------------------------

  function HoldStep(w: World, c: Caller, ch: Choice): World
    requires c in w.calls
  {
    var d := w.disk;
    match w.calls[c]
    case ListTombstones(ino) =>
      At(w, c, if ch.ok then Prune(ino, d.tombstones.Keys) else CheckOwner(ino, Threw))
    case Prune(ino, rest) =>
      if rest == {} then At(w, c, Install(ino, ReadCurrent))
      else if ch.name !in rest then w
      else if !ch.ok || ch.name !in d.tombstones then At(w, c, CheckOwner(ino, Threw))
      else At(w.(disk := d.(tombstones := d.tombstones - {ch.name})), c, Prune(ino, rest - {ch.name}))
    case Install(ino, phase) => InstallStep(w, c, ino, phase, ch)
    case CheckOwner(ino, result) =>
      At(w, c, if ch.ok && OwnerToken(d, d.lock) == Some(Of(c)) then UnlinkOwn(ino, result) else Finished(result))
    case UnlinkOwn(_, result) => At(if ch.ok then w.(disk := d.(lock := None)) else w, c, Finished(result))
    case _ => w
  }

  /** The catch block: an aborted installation is left for reconciliation, any other is cleaned up. */
  function Failed(s: Staging, ch: Choice): Phase {
    if ch.aborted then Quarantine else Discard(s)
  }

  function InstallStep(w: World, c: Caller, ino: Ino, phase: Phase, ch: Choice): World {
    var d := w.disk;
    match phase
    case ReadCurrent =>
      if d.current.Some? && d.current.value.Some? && ch.ok
      then At(w, c, CheckOwner(ino, Receipt(d.current.value.value)))
      else At(w, c, Install(ino, StatQuarantine))
    case StatQuarantine =>
      if !ch.ok then At(w, c, CheckOwner(ino, Threw))
      else At(w, c, Install(ino, if d.quarantine then ReadJournal else MakeStaging))
    case ReadJournal =>
      At(w, c, Install(ino, if d.journal.Some? && ch.ok then RemoveQuarantined(d.journal.value) else RemoveOldJournal))
    case RemoveQuarantined(s) =>
      if !ch.ok then At(w, c, CheckOwner(ino, Threw))
      else At(w.(disk := d.(stagings := d.stagings - {s})), c, Install(ino, RemoveOldJournal))
    case RemoveOldJournal =>
      if !ch.ok then At(w, c, CheckOwner(ino, Threw))
      else At(w.(disk := d.(journal := None)), c, Install(ino, RemoveQuarantine))
    case RemoveQuarantine =>
      if !ch.ok then At(w, c, CheckOwner(ino, Threw))
      else At(w.(disk := d.(quarantine := false)), c, Install(ino, MakeStaging))
    case MakeStaging =>
      if !ch.ok then At(w, c, CheckOwner(ino, Threw))
      else
        var s := w.nextStaging;
        At(w.(disk := d.(stagings := d.stagings[s := None]), nextStaging := s + 1), c, Install(ino, WriteJournal(s)))
    case WriteJournal(s) =>
      if !ch.ok then At(w, c, CheckOwner(ino, Threw))
      else At(w.(disk := d.(journal := Some(s))), c, Install(ino, Build(s)))
    case Build(s) => At(w, c, Install(ino, if ch.ok then WriteManifest(s) else Failed(s, ch)))
    case WriteManifest(s) =>
      if !ch.ok || s !in d.stagings then At(w, c, Install(ino, Failed(s, ch)))
      else At(w.(disk := d.(stagings := d.stagings[s := Some(ch.manifest)])), c,
        Install(ino, StatCurrent(s, ch.manifest)))
    case StatCurrent(s, m) =>
      At(w, c, Install(ino, if d.current.Some? || !ch.ok then Failed(s, ch) else Publish(s, m)))
    case Publish(s, m) =>
      if d.current.Some? || s !in d.stagings || !ch.ok then At(w, c, Install(ino, Failed(s, ch)))
      else At(w.(disk := d.(current := Some(d.stagings[s]), stagings := d.stagings - {s})), c,
        Install(ino, RemoveJournal(s, m)))
    case RemoveJournal(s, m) =>
      if !ch.ok then At(w, c, Install(ino, Failed(s, ch)))
      else At(w.(disk := d.(journal := None)), c, CheckOwner(ino, Receipt(m)))
    case Quarantine => At(if ch.ok then w.(disk := d.(quarantine := true)) else w, c, CheckOwner(ino, Threw))
    case Discard(s) =>
      if !ch.ok then At(w, c, CheckOwner(ino, Threw))
      else At(w.(disk := d.(stagings := d.stagings - {s})), c, Install(ino, DiscardJournal))
    case DiscardJournal => At(if ch.ok then w.(disk := d.(journal := None)) else w, c, CheckOwner(ino, Threw))
  }

  // ---- the transition system ------------------------------------------------------------------

  predicate Live(w: World, c: Caller) {
    c in w.calls && !w.calls[c].Finished? && !w.calls[c].Crashed?
  }

  function Next(w: World, a: Action): World {
    match a
    case Begin(c, p) =>
      if c in w.calls || p in w.dead then w else w.(calls := w.calls[c := WriteCandidate], pids := w.pids[c := p])
    case Step(c, ch) =>
      if !Live(w, c) || c !in w.pids then w
      else if Holding(w.calls[c]) then HoldStep(w, c, ch) else WaitStep(w, c, ch)
    case Crash(p) =>
      w.(dead := w.dead + {p},
         calls := map c | c in w.calls :: if Live(w, c) && c in w.pids && w.pids[c] == p then Crashed else w.calls[c])
  }

  function Run(w: World, actions: seq<Action>): World
    decreases |actions|
  {
    if actions == [] then w else Run(Next(w, actions[0]), actions[1..])
  }

  /** Any disk left behind by earlier processes: a lock, tombstones, trees, a journal, a quarantine. */
  ghost predicate Initial(w: World) {
    && w.calls == map[] && w.pids == map[]
    && (forall i | i in w.disk.files ::
          i < w.nextIno && (w.disk.files[i].token.Some? ==> w.disk.files[i].token.value.Leftover?))
    && (w.disk.lock.Some? ==> w.disk.lock.value in w.disk.files)
    && (forall s | s in w.disk.stagings :: s < w.nextStaging)
  }

  // ---- the invariant --------------------------------------------------------------------------

  /** The inode is not waiting to be linked, so once off the lock path it stays off. */
  ghost predicate Shown(w: World, i: Ino) {
    i in w.disk.files && forall c | c in w.calls :: w.calls[c] != LinkLock(i)
  }

  ghost predicate Gone(w: World, i: Ino) {
    Shown(w, i) && w.disk.lock != Some(i)
  }

  /** Inode `i` really holds the token it was read with, and its owner is no running process. */
  ghost predicate Stale(w: World, i: Ino, token: Option<Token>) {
    && i in w.disk.files
    && w.disk.files[i].token == token
    && (w.disk.files[i].pid.Some? ==> w.disk.files[i].pid.value in w.dead)
  }

  ghost predicate Claims(w: World, c: Caller, i: Ino, token: Option<Token>) {
    Generation(i, token) in w.disk.tombstones && w.disk.tombstones[Generation(i, token)].linker == c
  }

  ghost predicate Owned(w: World, c: Caller, i: Ino)
    requires c in w.pids
  {
    i in w.disk.files && w.disk.files[i] == Content(Some(w.pids[c]), Some(Of(c)))
  }

  ghost predicate PointOk(w: World, c: Caller)
    requires c in w.calls && c in w.pids
  {
    match w.calls[c]
    case LinkLock(i) => Owned(w, c, i) && w.disk.lock != Some(i)
    case ReadOwner(i, _) => Shown(w, i)
    case CheckAlive(i, owner, aged) =>
      Shown(w, i) && (w.disk.files[i] == owner || Gone(w, i) || (owner.pid.None? && !aged))
    case LinkClaim(i, t) => Shown(w, i) && (Stale(w, i, t) || Gone(w, i))
    case Inspect(i, t, _, seen, _) =>
      && Shown(w, i)
      && (Stale(w, i, t) ==>
            && (w.disk.lock == Some(i) ==> Claims(w, c, i, t))
            && (seen == Some(Some(i)) ==> w.disk.lock == Some(i)))
      && (!Stale(w, i, t) ==> Gone(w, i) && seen != Some(Some(i)))
    case UnlinkStale(i, t) => Shown(w, i) && Stale(w, i, t) && w.disk.lock == Some(i) && Claims(w, c, i, t)
    case p => Holding(p) ==> w.disk.lock == Some(HeldIno(p)) && Owned(w, c, HeldIno(p)) && Shown(w, HeldIno(p))
  }

  ghost predicate LockInv(w: World) {
    && w.calls.Keys == w.pids.Keys
    && (forall i | i in w.disk.files :: i < w.nextIno)
    && (w.disk.lock.Some? ==> Shown(w, w.disk.lock.value))
    && (forall c | c in w.calls :: Live(w, c) ==> w.pids[c] !in w.dead)
    && (forall c | c in w.calls :: PointOk(w, c))
  }

  /** An aged lock file that names its owner is read as if it did not. */
  predicate Misreads(w: World, a: Action) {
    && a.Step? && Live(w, a.caller) && a.caller in w.pids && !a.choice.ok
    && w.calls[a.caller].ReadOwner? && w.calls[a.caller].aged
    && var i := w.calls[a.caller].ino;
       w.disk.lock == Some(i) && i in w.disk.files && w.disk.files[i] != Content(None, None)
  }

  /** No call of the run misreads a lock. */
  ghost predicate ReadsWell(w: World, actions: seq<Action>)
    decreases |actions|
  {
    actions != [] ==> !Misreads(w, actions[0]) && ReadsWell(Next(w, actions[0]), actions[1..])
  }

  lemma InitialLockInv(w: World)
    requires Initial(w)
    ensures LockInv(w)
  {
  }

  /** Two calls that hold the lock are one call. */
  lemma HoldersAgree(w: World, c: Caller, d: Caller)
    requires LockInv(w) && c in w.calls && d in w.calls && Holding(w.calls[c]) && Holding(w.calls[d])
    ensures c == d
  {
    assert PointOk(w, c) && PointOk(w, d);
  }

  // ---- every step keeps it --------------------------------------------------------------------

  /** The lock and the tombstones stay; files may be added, and processes may have died. */
  ghost predicate SameLock(w: World, v: World) {
    && v.disk.lock == w.disk.lock && v.disk.tombstones == w.disk.tombstones && w.dead <= v.dead
    && (forall i | i in w.disk.files :: i in v.disk.files && v.disk.files[i] == w.disk.files[i])
    && (forall i | Shown(w, i) :: Shown(v, i))
  }

  /** A call that does not move keeps its point. */
  lemma PointCarriesOver(w: World, v: World, d: Caller)
    requires SameLock(w, v) && d in w.calls && d in w.pids && PointOk(w, d)
    requires d in v.calls && d in v.pids && v.calls[d] == w.calls[d] && v.pids[d] == w.pids[d]
    ensures PointOk(v, d)
  {
  }

  /** Only call `c` moves, and the lock, its files and its tombstones stay as they are. */
  ghost predicate Quiet(w: World, v: World, c: Caller) {
    && c in w.calls && v.pids == w.pids && v.dead == w.dead && w.nextIno <= v.nextIno
    && v.disk.files == w.disk.files && v.disk.lock == w.disk.lock && v.disk.tombstones == w.disk.tombstones
    && v.calls.Keys == w.calls.Keys
    && (forall d | d in w.calls && d != c :: v.calls[d] == w.calls[d])
    && !v.calls[c].LinkLock?
  }

  lemma QuietKeeps(w: World, v: World, c: Caller)
    requires LockInv(w) && Quiet(w, v, c) && Live(w, c)
    requires PointOk(v, c)
    ensures LockInv(v)
  {
    assert forall i | Shown(w, i) :: Shown(v, i);
    forall d | d in v.calls && d != c
      ensures PointOk(v, d)
    {
      PointCarriesOver(w, v, d);
    }
  }

  /** A holder's lock is not stale: its owner is running. */
  lemma HeldIsNotStale(w: World, c: Caller, i: Ino, token: Option<Token>)
    requires LockInv(w) && c in w.calls && Holding(w.calls[c]) && w.disk.lock == Some(i)
    ensures !Stale(w, i, token)
  {
    assert PointOk(w, c);
  }

  lemma WriteCandidateKeeps(w: World, c: Caller, ch: Choice)
    requires LockInv(w) && Live(w, c) && w.calls[c].WriteCandidate?
    ensures LockInv(WaitStep(w, c, ch))
  {
    var v := WaitStep(w, c, ch);
    assert SameLock(w, v);
    forall d | d in v.calls && d != c
      ensures PointOk(v, d)
    {
      PointCarriesOver(w, v, d);
    }
  }

  lemma LinkLockKeeps(w: World, c: Caller, ch: Choice)
    requires LockInv(w) && Live(w, c) && w.calls[c].LinkLock?
    ensures LockInv(WaitStep(w, c, ch))
  {
    var v := WaitStep(w, c, ch);
    if ch.ok && w.disk.lock.None? {
      LinkingKeeps(w, v, c, w.calls[c].ino);
    } else {
      QuietKeeps(w, v, c);
    }
  }

  /** The free lock path gets a file nobody else waits for. */
  lemma LinkingKeeps(w: World, v: World, c: Caller, ino: Ino)
    requires LockInv(w) && Live(w, c) && w.calls[c] == LinkLock(ino) && w.disk.lock.None?
    requires v == At(w.(disk := w.disk.(lock := Some(ino))), c, ListTombstones(ino))
    ensures LockInv(v)
  {
    assert PointOk(w, c);
    assert forall i | Shown(w, i) :: Shown(v, i) && i != ino;
    forall d | d in v.calls
      ensures PointOk(v, d)
    {
      assert PointOk(w, d);
    }
  }

  lemma LinkClaimKeeps(w: World, c: Caller, ch: Choice)
    requires LockInv(w) && Live(w, c) && w.calls[c].LinkClaim?
    ensures LockInv(WaitStep(w, c, ch))
  {
    var v := WaitStep(w, c, ch);
    assert PointOk(w, c);
    if v.disk == w.disk {
      QuietKeeps(w, v, c);
    } else {
      TombstoneKeeps(w, v, c, w.calls[c].ino, w.calls[c].token);
    }
  }

  /** A claim under a name nobody holds disturbs no other claim. */
  lemma TombstoneKeeps(w: World, v: World, c: Caller, i: Ino, token: Option<Token>)
    requires LockInv(w) && Live(w, c) && w.disk.lock.Some? && Shown(w, i) && (Stale(w, i, token) || Gone(w, i))
    requires Generation(i, token) !in w.disk.tombstones
    requires v == At(w.(disk := w.disk.(tombstones := w.disk.tombstones[
                          Generation(i, token) := Tombstone(w.disk.lock.value, c)])),
                     c, Inspect(i, token, None, None, None))
    ensures LockInv(v)
  {
    assert forall k | Shown(w, k) :: Shown(v, k);
    assert Claims(v, c, i, token);
    forall d | d in v.calls && d != c
      ensures PointOk(v, d)
    {
      assert PointOk(w, d);
      assert forall k, t :: Claims(w, d, k, t) ==> Claims(v, d, k, t);
    }
  }

  lemma InspectKeeps(w: World, c: Caller, ch: Choice)
    requires LockInv(w) && Live(w, c) && w.calls[c].Inspect?
    ensures LockInv(WaitStep(w, c, ch))
  {
    var v := InspectStep(w, c, w.calls[c], ch);
    assert Quiet(w, v, c);
    InspectPoint(w, c, w.calls[c], ch);
    QuietKeeps(w, v, c);
  }

  lemma InspectPoint(w: World, c: Caller, p: Point, ch: Choice)
    requires c in w.calls && c in w.pids && PointOk(w, c) && w.calls[c] == p && p.Inspect?
    ensures PointOk(InspectStep(w, c, p, ch), c)
  {
    var v := InspectStep(w, c, p, ch);
    assert v.disk == w.disk && v.dead == w.dead;
    assert forall i | Shown(w, i) :: Shown(v, i);
  }

  /** The lock leaves its path: by the one claimant of its generation, or by its holder. */
  ghost predicate Removes(w: World, v: World, c: Caller) {
    && c in w.calls && v.pids == w.pids && v.dead == w.dead && v.nextIno == w.nextIno
    && v.disk.files == w.disk.files && v.disk.lock.None? && v.disk.tombstones == w.disk.tombstones
    && v.calls.Keys == w.calls.Keys
    && (forall d | d in w.calls && d != c :: v.calls[d] == w.calls[d])
    && (w.calls[c].UnlinkStale? || Holding(w.calls[c]))
    && (v.calls[c].AfterTakeover? || v.calls[c].Finished?)
  }

  lemma RemovalKeeps(w: World, v: World, c: Caller)
    requires LockInv(w) && Removes(w, v, c)
    ensures LockInv(v)
  {
    assert PointOk(w, c);
    assert forall i | Shown(w, i) :: Shown(v, i);
    forall d | d in v.calls
      ensures PointOk(v, d)
    {
      assert PointOk(w, d);
      if d != c {
        OnlyOneRemoves(w, c, d);
      }
    }
  }

  /** While `c` may remove the lock, no other call holds it, may remove it, or has seen it as claimed. */
  lemma OnlyOneRemoves(w: World, c: Caller, d: Caller)
    requires LockInv(w) && c in w.calls && d in w.calls && c != d
    requires w.calls[c].UnlinkStale? || Holding(w.calls[c])
    ensures !w.calls[d].UnlinkStale? && !Holding(w.calls[d])
    ensures w.calls[d].Inspect? && Stale(w, w.calls[d].ino, w.calls[d].token) ==>
              w.calls[d].lock != Some(Some(w.calls[d].ino))
  {
    assert PointOk(w, c) && PointOk(w, d);
  }

  /** Reads, and the notes a claimant leaves about the installation, do not touch the lock. */
  lemma LookingKeeps(w: World, c: Caller, ch: Choice)
    requires LockInv(w) && Live(w, c)
    requires w.calls[c].StatLock? || w.calls[c].ReadOwner? || w.calls[c].CheckAlive?
          || w.calls[c].AfterTakeover? || w.calls[c].ForgetJournal? || w.calls[c].ReportUnknown?
    requires !Misreads(w, Step(c, ch))
    ensures LockInv(WaitStep(w, c, ch))
  {
    var v := WaitStep(w, c, ch);
    assert Quiet(w, v, c);
    if w.calls[c].StatLock? || w.calls[c].ReadOwner? || w.calls[c].CheckAlive? {
      ReadingPoint(w, c, ch);
    }
    QuietKeeps(w, v, c);
  }

  lemma ReadingPoint(w: World, c: Caller, ch: Choice)
    requires LockInv(w) && Live(w, c) && (w.calls[c].StatLock? || w.calls[c].ReadOwner? || w.calls[c].CheckAlive?)
    requires !Misreads(w, Step(c, ch))
    ensures PointOk(WaitStep(w, c, ch), c)
  {
    assert PointOk(w, c);
    assert forall i | Shown(w, i) :: Shown(WaitStep(w, c, ch), i);
  }

  lemma UnlinkStaleKeeps(w: World, c: Caller, ch: Choice)
    requires LockInv(w) && Live(w, c) && w.calls[c].UnlinkStale?
    ensures LockInv(WaitStep(w, c, ch))
  {
    assert PointOk(w, c);
    if ch.ok {
      RemovalKeeps(w, WaitStep(w, c, ch), c);
    } else {
      QuietKeeps(w, WaitStep(w, c, ch), c);
    }
  }

  lemma WaitingKeeps(w: World, c: Caller, ch: Choice)
    requires LockInv(w) && Live(w, c) && !Holding(w.calls[c]) && !Misreads(w, Step(c, ch))
    ensures LockInv(WaitStep(w, c, ch))
  {
    if w.calls[c].WriteCandidate? {
      WriteCandidateKeeps(w, c, ch);
    } else if w.calls[c].LinkLock? {
      LinkLockKeeps(w, c, ch);
    } else if w.calls[c].LinkClaim? {
      LinkClaimKeeps(w, c, ch);
    } else if w.calls[c].Inspect? {
      InspectKeeps(w, c, ch);
    } else if w.calls[c].UnlinkStale? {
      UnlinkStaleKeeps(w, c, ch);
    } else {
      LookingKeeps(w, c, ch);
    }
  }

  lemma PruneKeeps(w: World, c: Caller, ch: Choice)
    requires LockInv(w) && Live(w, c) && w.calls[c].Prune?
    ensures LockInv(HoldStep(w, c, ch))
  {
    var v := HoldStep(w, c, ch);
    assert forall i | Shown(w, i) :: Shown(v, i);
    PruneOwnPoint(w, c, ch);
    forall d | d in v.calls && d != c
      ensures PointOk(v, d)
    {
      PruneLeavesPoint(w, c, ch, d);
    }
  }

  lemma PruneOwnPoint(w: World, c: Caller, ch: Choice)
    requires LockInv(w) && Live(w, c) && w.calls[c].Prune?
    ensures PointOk(HoldStep(w, c, ch), c)
  {
    assert PointOk(w, c);
    assert forall i | Shown(w, i) :: Shown(HoldStep(w, c, ch), i);
  }

  lemma PruneLeavesPoint(w: World, c: Caller, ch: Choice, d: Caller)
    requires LockInv(w) && Live(w, c) && w.calls[c].Prune? && d in w.calls && d != c
    ensures PointOk(HoldStep(w, c, ch), d)
  {
    var v := HoldStep(w, c, ch);
    assert PointOk(w, d);
    OnlyOneRemoves(w, c, d);
    assert forall i | Shown(w, i) :: Shown(v, i);
    if w.calls[d].Inspect? && w.disk.lock == Some(w.calls[d].ino) {
      HeldIsNotStale(w, c, w.calls[d].ino, w.calls[d].token);
    }
  }

  lemma HoldingQuietly(w: World, c: Caller, ch: Choice)
    requires LockInv(w) && Live(w, c)
    requires w.calls[c].ListTombstones? || w.calls[c].CheckOwner? || (w.calls[c].UnlinkOwn? && !ch.ok)
    ensures LockInv(HoldStep(w, c, ch))
  {
    var v := HoldStep(w, c, ch);
    assert Quiet(w, v, c);
    HoldingPoint(w, c, ch);
    QuietKeeps(w, v, c);
  }

  lemma HoldingPoint(w: World, c: Caller, ch: Choice)
    requires LockInv(w) && Live(w, c)
    requires w.calls[c].ListTombstones? || w.calls[c].CheckOwner? || (w.calls[c].UnlinkOwn? && !ch.ok)
    ensures PointOk(HoldStep(w, c, ch), c)
  {
    assert PointOk(w, c);
    assert forall i | Shown(w, i) :: Shown(HoldStep(w, c, ch), i);
  }

  lemma HoldingKeeps(w: World, c: Caller, ch: Choice)
    requires LockInv(w) && Live(w, c) && Holding(w.calls[c])
    ensures LockInv(HoldStep(w, c, ch))
  {
    assert PointOk(w, c);
    if w.calls[c].Prune? {
      PruneKeeps(w, c, ch);
    } else if w.calls[c].UnlinkOwn? && ch.ok {
      RemovalKeeps(w, HoldStep(w, c, ch), c);
    } else if w.calls[c].Install? {
      InstallingKeeps(w, c, w.calls[c].ino, w.calls[c].phase, ch);
    } else {
      HoldingQuietly(w, c, ch);
    }
  }

  lemma InstallingKeeps(w: World, c: Caller, ino: Ino, phase: Phase, ch: Choice)
    requires LockInv(w) && Live(w, c) && w.calls[c] == Install(ino, phase)
    ensures LockInv(InstallStep(w, c, ino, phase, ch))
  {
    assert PointOk(w, c);
    var v := InstallStep(w, c, ino, phase, ch);
    InstallingIsQuiet(w, c, ino, phase, ch);
    assert forall i | Shown(w, i) :: Shown(v, i);
    QuietKeeps(w, v, c);
  }

  lemma InstallingIsQuiet(w: World, c: Caller, ino: Ino, phase: Phase, ch: Choice)
    requires c in w.calls
    ensures
      var v := InstallStep(w, c, ino, phase, ch);
      Quiet(w, v, c) && Holding(v.calls[c]) && HeldIno(v.calls[c]) == ino
  {
  }

  lemma CrashKeeps(w: World, p: Pid)
    requires LockInv(w)
    ensures LockInv(Next(w, Crash(p)))
  {
    var v := Next(w, Crash(p));
    assert SameLock(w, v);
    forall c | c in v.calls && v.calls[c] == w.calls[c]
      ensures PointOk(v, c)
    {
      PointCarriesOver(w, v, c);
    }
  }

  /** One step keeps the invariant exactly when it does not misread a lock. */
  lemma NextKeepsLock(w: World, a: Action)
    requires LockInv(w)
    ensures LockInv(Next(w, a)) <==> !Misreads(w, a)
  {
    if Misreads(w, a) {
      assert !PointOk(Next(w, a), a.caller);
      return;
    }
    match a
    case Begin(c, p) =>
      var v := Next(w, a);
      assert forall i | Shown(w, i) :: Shown(v, i);
      forall d | d in v.calls
        ensures PointOk(v, d)
      {
        assert d in w.calls ==> PointOk(w, d);
      }
    case Step(c, ch) =>
      if Live(w, c) {
        if Holding(w.calls[c]) {
          HoldingKeeps(w, c, ch);
        } else {
          WaitingKeeps(w, c, ch);
        }
      }
    case Crash(p) => CrashKeeps(w, p);
  }

  lemma {:induction false} RunsKeepLock(w: World, actions: seq<Action>)
    requires LockInv(w) && ReadsWell(w, actions)
    ensures LockInv(Run(w, actions))
    decreases |actions|
  {
    if actions != [] {
      NextKeepsLock(w, actions[0]);
      RunsKeepLock(Next(w, actions[0]), actions[1..]);
    }
  }

  /**
   Mutual exclusion under every interleaving, every crash point and every failing call but a lock misread,
   from whatever disk earlier processes left: at most one call holds the lock, so at most one is inside the
   guarded operation, and while one holds it no other call is about to remove the lock from its path.
   */
  lemma MutualExclusion(w: World, actions: seq<Action>, c: Caller, d: Caller)
    requires Initial(w) && ReadsWell(w, actions)
    requires c in Run(w, actions).calls && d in Run(w, actions).calls && c != d
    requires Holding(Run(w, actions).calls[c])
    ensures !Holding(Run(w, actions).calls[d]) && !Run(w, actions).calls[d].UnlinkStale?
  {
    InitialLockInv(w);
    RunsKeepLock(w, actions);
    OnlyOneRemoves(Run(w, actions), c, d);
  }

  // ---- generations ----------------------------------------------------------------------------

  /** The lock path changes only by losing its file or by gaining one that was waiting to be linked. */
  ghost predicate LockMoves(w: World, v: World) {
    && (forall i | i in w.disk.files :: i in v.disk.files)
    && (v.disk.lock == w.disk.lock || v.disk.lock.None?
        || exists c :: c in w.calls && w.calls[c] == LinkLock(v.disk.lock.value))
    && (forall c | c in v.calls && v.calls[c].LinkLock? ::
          v.calls[c].ino !in w.disk.files || (c in w.calls && w.calls[c] == v.calls[c]))
  }

  /** Inode numbers are given out in order. */
  ghost predicate Numbered(w: World) {
    forall i | i in w.disk.files :: i < w.nextIno
  }

  lemma WaitingMovesLock(w: World, c: Caller, ch: Choice)
    requires Numbered(w) && c in w.calls && c in w.pids
    ensures LockMoves(w, WaitStep(w, c, ch))
  {
    if w.calls[c].Inspect? {
      InspectingMovesNothing(w, c, w.calls[c], ch);
    } else if w.calls[c].WriteCandidate? {
      CandidatesAreNew(w, c, ch);
    } else if w.calls[c].LinkLock? {
      LinkingMovesLock(w, c, ch);
    } else {
      OthersMoveLittle(w, c, ch);
    }
  }

  lemma CandidatesAreNew(w: World, c: Caller, ch: Choice)
    requires Numbered(w) && c in w.calls && c in w.pids && w.calls[c].WriteCandidate?
    ensures LockMoves(w, WaitStep(w, c, ch))
  {
  }

  lemma LinkingMovesLock(w: World, c: Caller, ch: Choice)
    requires c in w.calls && c in w.pids && w.calls[c].LinkLock?
    ensures LockMoves(w, WaitStep(w, c, ch))
  {
  }

  lemma OthersMoveLittle(w: World, c: Caller, ch: Choice)
    requires c in w.calls && c in w.pids && !w.calls[c].Inspect? && !w.calls[c].WriteCandidate? && !w.calls[c].LinkLock?
    ensures LockMoves(w, WaitStep(w, c, ch))
  {
    if w.calls[c].StatLock? || w.calls[c].ReadOwner? || w.calls[c].CheckAlive? || w.calls[c].LinkClaim? {
      ReadingMovesLittle(w, c, ch);
    } else {
      var v := WaitStep(w, c, ch);
      assert v.disk.files == w.disk.files && (v.disk.lock == w.disk.lock || v.disk.lock.None?);
      assert !v.calls[c].LinkLock?;
    }
  }

  lemma ReadingMovesLittle(w: World, c: Caller, ch: Choice)
    requires c in w.calls && c in w.pids
    requires w.calls[c].StatLock? || w.calls[c].ReadOwner? || w.calls[c].CheckAlive? || w.calls[c].LinkClaim?
    ensures LockMoves(w, WaitStep(w, c, ch))
  {
    var v := WaitStep(w, c, ch);
    assert v.disk.files == w.disk.files && v.disk.lock == w.disk.lock;
    assert !v.calls[c].LinkLock?;
  }

  lemma InspectingMovesNothing(w: World, c: Caller, p: Point, ch: Choice)
    requires c in w.calls && w.calls[c] == p && p.Inspect?
    ensures
      var v := InspectStep(w, c, p, ch);
      v.disk == w.disk && !v.calls[c].LinkLock?
      && forall d | d in v.calls && d != c :: d in w.calls && v.calls[d] == w.calls[d]
  {
  }

  lemma HoldingMovesLock(w: World, c: Caller, ch: Choice)
    requires c in w.calls
    ensures LockMoves(w, HoldStep(w, c, ch))
  {
    if w.calls[c].Install? {
      InstallingIsQuiet(w, c, w.calls[c].ino, w.calls[c].phase, ch);
    }
  }

  lemma GoneStaysGone(w: World, a: Action, i: Ino)
    requires Numbered(w) && Gone(w, i)
    ensures Numbered(Next(w, a)) && Gone(Next(w, a), i)
  {
    NumbersGrow(w, a);
    if a.Step? && Live(w, a.caller) && a.caller in w.pids {
      if Holding(w.calls[a.caller]) {
        HoldingMovesLock(w, a.caller, a.choice);
      } else {
        WaitingMovesLock(w, a.caller, a.choice);
      }
    }
  }

  lemma NumbersGrow(w: World, a: Action)
    requires Numbered(w)
    ensures Numbered(Next(w, a))
  {
    if a.Step? && Live(w, a.caller) && a.caller in w.pids {
      match w.calls[a.caller]
      case Inspect(_, _, _, _, _) => InspectingMovesNothing(w, a.caller, w.calls[a.caller], a.choice);
      case Install(ino, phase) => InstallingIsQuiet(w, a.caller, ino, phase, a.choice);
      case _ =>
    }
  }

  /** A lock file once off the lock path never returns to it. */
  lemma {:induction false} GoneForever(w: World, actions: seq<Action>, i: Ino)
    requires Numbered(w) && Gone(w, i)
    ensures Gone(Run(w, actions), i)
    decreases |actions|
  {
    if actions != [] {
      GoneStaysGone(w, actions[0], i);
      GoneForever(Next(w, actions[0]), actions[1..], i);
    }
  }

  /** The step takes the lock file `i` off the lock path as a claimant of its generation. */
  predicate TakesOver(w: World, a: Action, i: Ino) {
    && a.Step? && Live(w, a.caller) && w.calls[a.caller].UnlinkStale?
    && w.disk.lock == Some(i) && a.caller in w.pids && a.choice.ok
  }

  /**
   A stale lock generation is unlinked by at most one claimant ever, and only a lock whose owner is
   dead and which no call holds is unlinked that way.
   */
  lemma GenerationsFallOnce(w: World, a: Action, actions: seq<Action>, b: Action, i: Ino)
    requires LockInv(w) && TakesOver(w, a, i)
    ensures w.disk.files[i].pid.Some? ==> w.disk.files[i].pid.value in w.dead
    ensures forall c | c in w.calls :: !Holding(w.calls[c])
    ensures !TakesOver(Run(Next(w, a), actions), b, i)
  {
    assert PointOk(w, a.caller);
    forall c | c in w.calls
      ensures !Holding(w.calls[c])
    {
      if c != a.caller {
        OnlyOneRemoves(w, a.caller, c);
      }
    }
    assert Gone(Next(w, a), i);
    NumbersGrow(w, a);
    GoneForever(Next(w, a), actions, i);
  }
}
