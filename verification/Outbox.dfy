/**
 The two delivery outboxes of the automation store, one row at a time. A text row charges an
 attempt when it is claimed and gives it back when it is deferred; a media row charges an attempt
 when a send fails or when an expired lease is claimed again. The module proves that the two
 disciplines are the same one: under equal outcomes both rows are due at the same moments, retry at
 the same times and are abandoned by the same failure.
 */
module Outbox {
  import opened Wrappers

  datatype Status = Queued | Delivering | Delivered | Abandoned

  datatype Row = Row(
    status: Status,
    attempts: nat,
    nextAttemptAt: int,
    token: Option<nat>,
    expiresAt: Option<int>)

  const MAX_ATTEMPTS := 10
  const MAX_DELAY_MS := 3_600_000
  const BASE_DELAY_MS := 30_000
  const MIN_DEFER_MS := 1_000
  const MAX_DEFER_MS := 604_800_000

  predicate Pending(row: Row) {
    row.status.Queued? || row.status.Delivering?
  }

  /** The WHERE clause shared by both claim statements. */
  predicate Due(row: Row, now: int) {
    && Pending(row)
    && row.nextAttemptAt <= now
    && (row.expiresAt.None? || row.expiresAt.value < now)
  }

  /** The fence on every outcome: the caller still holds the live lease. */
  predicate Held(row: Row, token: nat, now: int) {
    row.status.Delivering? && row.token == Some(token) && row.expiresAt.Some? && now <= row.expiresAt.value
  }

  function DoublingSteps(k: nat): nat {
    if k == 0 then 1 else 2 * DoublingSteps(k - 1)
  }

  /** Exponential backoff, capped at one hour. */
  function Backoff(retries: nat): (delay: int)
    ensures 0 < delay <= MAX_DELAY_MS
  {
    var steps := if retries < 7 then retries else 7;
    Positive(steps);
    var raw := BASE_DELAY_MS * DoublingSteps(steps);
    if raw < MAX_DELAY_MS then raw else MAX_DELAY_MS
  }

  lemma {:induction k} Positive(k: nat)
    ensures DoublingSteps(k) >= 1
  {
  }

  /** Half a minute at first, twice as long after every further retry, and never more than an hour. */
  lemma BackoffDoubles(retries: nat)
    ensures Backoff(0) == 30_000
    ensures Backoff(retries + 1) == if 2 * Backoff(retries) < 3_600_000 then 2 * Backoff(retries) else 3_600_000
  {
    assert DoublingSteps(1) == 2 && DoublingSteps(2) == 4 && DoublingSteps(3) == 8;
    assert DoublingSteps(4) == 16 && DoublingSteps(5) == 32 && DoublingSteps(6) == 64 && DoublingSteps(7) == 128;
  }

  function DeferUntil(retryAt: int, now: int): int {
    Clamp(retryAt, now + MIN_DEFER_MS, now + MAX_DEFER_MS)
  }

  function NewRow(now: int): Row {
    Row(Queued, 0, now, None, None)
  }

  // ---- text rows ------------------------------------------------------------------------------

  function TextClaim(row: Row, token: nat, now: int, leaseMs: int): Row {
    row.(status := Delivering, attempts := row.attempts + 1, token := Some(token), expiresAt := Some(now + leaseMs))
  }

  function TextComplete(row: Row): Row {
    row.(status := Delivered, token := None, expiresAt := None)
  }

  function TextFail(row: Row, now: int): Row {
    var released := row.(token := None, expiresAt := None);
    if row.attempts >= MAX_ATTEMPTS
    then released.(status := Abandoned, nextAttemptAt := now)
    else released.(status := Queued, nextAttemptAt := now + Backoff(if row.attempts == 0 then 0 else row.attempts - 1))
  }

  function TextDefer(row: Row, retryAt: int, now: int): Row {
    Row(Queued, if row.attempts == 0 then 0 else row.attempts - 1, DeferUntil(retryAt, now), None, None)
  }

  // ---- media rows -----------------------------------------------------------------------------

  function MediaClaim(row: Row, token: nat, now: int, leaseMs: int): Row {
    var charge := if row.status.Delivering? then 1 else 0;
    Row(Delivering, row.attempts + charge, now + leaseMs, Some(token), Some(now + leaseMs))
  }

  function MediaFail(row: Row, now: int): Row {
    var attempts := row.attempts + 1;
    if attempts >= MAX_ATTEMPTS
    then row.(status := Abandoned, attempts := attempts, token := None, expiresAt := None)
    else Row(Queued, attempts, now + Backoff(attempts - 1), None, None)
  }

  function MediaDefer(row: Row, retryAt: int, now: int): Row {
    row.(status := Queued, nextAttemptAt := DeferUntil(retryAt, now), token := None, expiresAt := None)
  }

  // ---- runs -----------------------------------------------------------------------------------

  /** What a worker may do to a row; a lease that runs out is a Claim of a row still delivering. */
  datatype Event =
    | Claim(now: int, leaseMs: int, token: nat)
    | Succeed(now: int, token: nat)
    | Fail(now: int, token: nat)
    | Defer(now: int, token: nat, retryAt: int)

  /** One statement against the text row, with the number of rows it changed. */
  function TextStep(row: Row, e: Event): (Row, bool) {
    match e
    case Claim(now, leaseMs, token) =>
      if Due(row, now) then (TextClaim(row, token, now, leaseMs), true) else (row, false)
    case Succeed(now, token) => if Held(row, token, now) then (TextComplete(row), true) else (row, false)
    case Fail(now, token) => if Held(row, token, now) then (TextFail(row, now), true) else (row, false)
    case Defer(now, token, retryAt) =>
      if Held(row, token, now) then (TextDefer(row, retryAt, now), true) else (row, false)
  }

  /** The same for the media row, which completion deletes. */
  function MediaStep(row: Option<Row>, e: Event): (Option<Row>, bool) {
    if row.None? then (None, false)
    else
      var r := row.value;
      match e
      case Claim(now, leaseMs, token) =>
        if Due(r, now) then (Some(MediaClaim(r, token, now, leaseMs)), true) else (row, false)
      case Succeed(now, token) => if Held(r, token, now) then (None, true) else (row, false)
      case Fail(now, token) => if Held(r, token, now) then (Some(MediaFail(r, now)), true) else (row, false)
      case Defer(now, token, retryAt) =>
        if Held(r, token, now) then (Some(MediaDefer(r, retryAt, now)), true) else (row, false)
  }

  ghost predicate InOrder(clock: int, events: seq<Event>)
    decreases |events|
  {
    events != [] ==> clock <= events[0].now && InOrder(events[0].now, events[1..])
  }

  function Last(clock: int, events: seq<Event>): int {
    if events == [] then clock else events[|events| - 1].now
  }

  function TextRun(row: Row, events: seq<Event>): (Row, seq<bool>)
    decreases |events|
  {
    if events == [] then (row, [])
    else
      var (r, changed) := TextStep(row, events[0]);
      var (final, rest) := TextRun(r, events[1..]);
      (final, [changed] + rest)
  }

  function MediaRun(row: Option<Row>, events: seq<Event>): (Option<Row>, seq<bool>)
    decreases |events|
  {
    if events == [] then (row, [])
    else
      var (r, changed) := MediaStep(row, events[0]);
      var (final, rest) := MediaRun(r, events[1..]);
      (final, [changed] + rest)
  }

  /**
   The relation that makes the rows equivalent. `charges` counts the failed sends and the leases
   that ran out: a media row stores exactly that number, a text row one more while a send is open.
   */
  ghost predicate Matches(text: Row, media: Option<Row>, clock: int, charges: nat) {
    match text.status
    case Queued =>
      media == Some(text) && text.token.None? && text.expiresAt.None? && text.attempts == charges
    case Delivering =>
      && media.Some?
      && text.token.Some? && text.expiresAt.Some?
      && media.value == Row(Delivering, charges, text.expiresAt.value, text.token, text.expiresAt)
      && text.attempts == charges + 1
      && text.nextAttemptAt <= clock
    case Delivered => media.None?
    case Abandoned =>
      && media.Some? && media.value.status.Abandoned?
      && text.attempts == media.value.attempts == charges
      && charges >= 10
  }

  /** Failures that reach the row and claims that find its previous lease expired. */
  function Charge(row: Row, e: Event): nat {
    match e
    case Fail(now, token) => if Held(row, token, now) then 1 else 0
    case Claim(now, _, _) => if row.status.Delivering? && Due(row, now) then 1 else 0
    case _ => 0
  }

  function Charges(row: Row, events: seq<Event>): nat
    decreases |events|
  {
    if events == [] then 0 else Charge(row, events[0]) + Charges(TextStep(row, events[0]).0, events[1..])
  }

  /** Equivalent rows answer every statement alike and stay equivalent. */
  lemma StepsMatch(text: Row, media: Option<Row>, clock: int, charges: nat, e: Event)
    requires Matches(text, media, clock, charges)
    requires clock <= e.now
    ensures TextStep(text, e).1 == MediaStep(media, e).1
    ensures Matches(TextStep(text, e).0, MediaStep(media, e).0, e.now, charges + Charge(text, e))
  {
  }

  /**
   Bisimulation over whole runs: from equivalent rows, every sequence of claims, lease expiries,
   failures, deferrals and successes gets the same answers and leaves equivalent rows.
   */
  lemma {:induction false} OutboxesBisimilar(text: Row, media: Option<Row>, clock: int, charges: nat,
          events: seq<Event>)
    requires Matches(text, media, clock, charges)
    requires InOrder(clock, events)
    ensures TextRun(text, events).1 == MediaRun(media, events).1
    ensures Matches(TextRun(text, events).0, MediaRun(media, events).0, Last(clock, events),
                    charges + Charges(text, events))
    decreases |events|
  {
    if events != [] {
      StepsMatch(text, media, clock, charges, events[0]);
      OutboxesBisimilar(TextStep(text, events[0]).0, MediaStep(media, events[0]).0, events[0].now,
                        charges + Charge(text, events[0]), events[1..]);
    }
  }

  /**
   What the bisimulation means for a reader of the tables, for two rows enqueued at the same moment:
   after any run they are due at the same later moments and wait for the same retry time, and the
   text row is abandoned exactly when the media row is, which takes at least ten charged attempts.
   */
  lemma FreshRowsAgree(enqueuedAt: int, events: seq<Event>, now: int)
    requires InOrder(enqueuedAt, events)
    requires Last(enqueuedAt, events) <= now
    ensures
      var text := TextRun(NewRow(enqueuedAt), events).0;
      var media := MediaRun(Some(NewRow(enqueuedAt)), events).0;
      var charges := Charges(NewRow(enqueuedAt), events);
      && (Due(text, now) <==> media.Some? && Due(media.value, now))
      && (text.status.Queued? ==> media == Some(text) && text.attempts == charges)
      && (text.status.Delivering? ==> media.Some? && text.attempts == media.value.attempts + 1 == charges + 1)
      && (text.status.Delivered? <==> media.None?)
      && (text.status.Abandoned? <==> media.Some? && media.value.status.Abandoned?)
      && (text.status.Abandoned? ==> charges >= 10)
  {
    OutboxesBisimilar(NewRow(enqueuedAt), Some(NewRow(enqueuedAt)), enqueuedAt, 0, events);
  }

  /**
   The abandoning failure, on both rows at once: a failure that reaches an equivalent pair abandons
   it exactly when nine attempts were charged before; otherwise both rows wait for the same backoff.
   */
  lemma FailureAbandonsAtTenth(text: Row, media: Option<Row>, clock: int, charges: nat, now: int, token: nat)
    requires Matches(text, media, clock, charges) && clock <= now && Held(text, token, now)
    ensures media.Some?
    ensures TextFail(text, now).status.Abandoned? <==> charges + 1 >= 10
    ensures MediaFail(media.value, now).status.Abandoned? <==> charges + 1 >= 10
    ensures charges + 1 < 10 ==>
              TextFail(text, now).nextAttemptAt == MediaFail(media.value, now).nextAttemptAt == now + Backoff(charges)
  {
    assert media.Some? && Held(media.value, token, now);
  }

  // ---- tokens are only compared ---------------------------------------------------------------

  type Renaming = nat -> nat

  ghost predicate Injective(rename: Renaming) {
    forall a: nat, b: nat :: rename(a) == rename(b) ==> a == b
  }

  function RenamedRow(row: Row, rename: Renaming): Row {
    row.(token := if row.token.Some? then Some(rename(row.token.value)) else None)
  }

  function RenamedMedia(row: Option<Row>, rename: Renaming): Option<Row> {
    if row.Some? then Some(RenamedRow(row.value, rename)) else None
  }

  function RenamedEvent(e: Event, rename: Renaming): Event {
    e.(token := rename(e.token))
  }

  function Renamed(events: seq<Event>, rename: Renaming): seq<Event> {
    if events == [] then [] else [RenamedEvent(events[0], rename)] + Renamed(events[1..], rename)
  }

  /** A statement does to the renamed row what it does to the row, whatever the tokens are called. */
  lemma StepRenames(row: Option<Row>, e: Event, rename: Renaming)
    requires Injective(rename)
    ensures MediaStep(RenamedMedia(row, rename), RenamedEvent(e, rename))
         == (RenamedMedia(MediaStep(row, e).0, rename), MediaStep(row, e).1)
  {
    if row.Some? && row.value.token.Some? {
      assert rename(row.value.token.value) == rename(e.token) ==> row.value.token.value == e.token;
    }
  }

  lemma {:induction false} RunRenames(row: Option<Row>, events: seq<Event>, rename: Renaming)
    requires Injective(rename)
    ensures MediaRun(RenamedMedia(row, rename), Renamed(events, rename)).0 ==
              RenamedMedia(MediaRun(row, events).0, rename)
    ensures MediaRun(RenamedMedia(row, rename), Renamed(events, rename)).1 == MediaRun(row, events).1
    decreases |events|
  {
    if events != [] {
      StepRenames(row, events[0], rename);
      RunRenames(MediaStep(row, events[0]).0, events[1..], rename);
    }
  }

  /**
   The bisimulation does not depend on the tokens the two tables happen to draw: a media row meeting the
   same claims and outcomes under its own tokens gives the same answers, and ends as the row the text row
   matches, with its token renamed.
   */
  lemma BisimilarUnderRenaming(text: Row, media: Option<Row>, clock: int, charges: nat, events: seq<Event>,
          rename: Renaming)
    requires Matches(text, media, clock, charges) && InOrder(clock, events) && Injective(rename)
    ensures TextRun(text, events).1 == MediaRun(RenamedMedia(media, rename), Renamed(events, rename)).1
    ensures exists row :: MediaRun(RenamedMedia(media, rename), Renamed(events, rename)).0 == RenamedMedia(row, rename)
              && Matches(TextRun(text, events).0, row, Last(clock, events), charges + Charges(text, events))
  {
    OutboxesBisimilar(text, media, clock, charges, events);
    RunRenames(media, events, rename);
  }
}
