/**
 What the statements do to one outbox row, column by column: when a row may be claimed, how long it waits
 after a failure or a deferral, and that a running lease shuts everybody else out. Lengths of time are in
 milliseconds.
 */
module OutboxRows {
  import opened Wrappers
  import opened Outbox

  // ---- rows -----------------------------------------------------------------------------------

  /** Waiting for its time, which has come; and nobody is sending it, or whoever was has run out of time. */
  ghost predicate IsFree(row: Row, now: int) {
    && (row.status == Queued || row.status == Delivering)
    && row.nextAttemptAt <= now
    && (row.expiresAt.Some? ==> row.expiresAt.value < now)
  }

  /** Being sent under this token, and still in time. */
  ghost predicate IsHeld(row: Row, token: nat, now: int) {
    row.status == Delivering && row.token == Some(token) && row.expiresAt.Some? && now <= row.expiresAt.value
  }

  lemma DueExactly(row: Row, now: int)
    ensures Due(row, now) <==> IsFree(row, now)
  {
  }

  lemma HeldExactly(row: Row, token: nat, now: int)
    ensures Held(row, token, now) <==> IsHeld(row, token, now)
  {
  }

  /** Half a minute after the first failure, then twice as long each time, and an hour from the eighth on. */
  function WaitAfter(failures: nat): int {
    if failures <= 1 then 30_000
    else if failures == 2 then 60_000
    else if failures == 3 then 120_000
    else if failures == 4 then 240_000
    else if failures == 5 then 480_000
    else if failures == 6 then 960_000
    else if failures == 7 then 1_920_000
    else 3_600_000
  }

  lemma BackoffExactly(retries: nat)
    ensures Backoff(retries) == WaitAfter(retries + 1)
  {
    assert DoublingSteps(0) == 1 && DoublingSteps(1) == 2 && DoublingSteps(2) == 4 && DoublingSteps(3) == 8;
    assert DoublingSteps(4) == 16 && DoublingSteps(5) == 32 && DoublingSteps(6) == 64 && DoublingSteps(7) == 128;
  }

  /** The time asked for when that is between a second and a week from now, else the nearer of the two. */
  function Deferral(retryAt: int, now: int): int {
    if retryAt < now + 1_000 then now + 1_000
    else if retryAt > now + 604_800_000 then now + 604_800_000
    else retryAt
  }

  /** A text row after a failure that was its `attempts`-th charged attempt. */
  ghost predicate TextFailed(before: Row, after: Row, now: int) {
    && after.attempts == before.attempts && after.token == None && after.expiresAt == None
    && if before.attempts >= 10 then after.status == Abandoned && after.nextAttemptAt == now
       else after.status == Queued && after.nextAttemptAt == now + WaitAfter(before.attempts)
  }

  /** A deferred text row gets its attempt back; it is due at the deferral and at no time before. */
  ghost predicate TextDeferred(before: Row, after: Row, retryAt: int, now: int) {
    && after.status == Queued && after.token == None && after.expiresAt == None
    && after.attempts == (if before.attempts == 0 then 0 else before.attempts - 1)
    && forall at :: Due(after, at) <==> Deferral(retryAt, now) <= at
  }

  ghost predicate MediaFailed(before: Row, after: Row, now: int) {
    && after.attempts == before.attempts + 1 && after.token == None && after.expiresAt == None
    && if before.attempts >= 9 then after.status == Abandoned && after.nextAttemptAt == before.nextAttemptAt
       else after.status == Queued && after.nextAttemptAt == now + WaitAfter(before.attempts + 1)
  }

  /** A deferred media row keeps its attempts, and is due at the deferral and at no time before. */
  ghost predicate MediaDeferred(before: Row, after: Row, retryAt: int, now: int) {
    && after.status == Queued && after.token == None && after.expiresAt == None && after.attempts == before.attempts
    && forall at :: Due(after, at) <==> Deferral(retryAt, now) <= at
  }

  lemma RowsWrite(row: Row, retryAt: int, now: int)
    ensures TextFailed(row, TextFail(row, now), now) && MediaFailed(row, MediaFail(row, now), now)
    ensures TextDeferred(row, TextDefer(row, retryAt, now), retryAt, now)
    ensures MediaDeferred(row, MediaDefer(row, retryAt, now), retryAt, now)
  {
    BackoffExactly(if row.attempts == 0 then 0 else row.attempts - 1);
    BackoffExactly(row.attempts);
  }

  // ---- running leases -------------------------------------------------------------------------

  /** The event is not the holder's: a claim, or an outcome under another token. */
  predicate ByAnother(e: Event, token: nat) {
    e.Claim? || e.token != token
  }

  /**
   While a lease runs, nobody but its holder can do anything to the row: every other statement answers that it
   changed nothing, and the row stays as the claim left it. For both kinds of row.
   */
  lemma {:induction false} LeaseShutsOut(row: Row, token: nat, events: seq<Event>)
    requires row.status == Delivering && row.token == Some(token) && row.expiresAt.Some?
    requires forall i | 0 <= i < |events| :: ByAnother(events[i], token) && events[i].now <= row.expiresAt.value
    ensures TextRun(row, events).0 == row && MediaRun(Some(row), events).0 == Some(row)
    ensures forall answer | answer in TextRun(row, events).1 || answer in MediaRun(Some(row), events).1 :: !answer
    decreases |events|
  {
    if events != [] {
      assert forall i | 0 <= i < |events| - 1 :: events[1..][i] == events[i + 1];
      LeaseShutsOut(row, token, events[1..]);
    }
  }

  /**
   A holder whose lease was taken over is shut out for good: as long as no claim draws its token again, every
   outcome it reports is answered with nothing changed. For both kinds of row.
   */
  lemma {:induction false} LostLeaseIsLost(row: Option<Row>, token: nat, events: seq<Event>, late: Event)
    requires row.Some? ==> row.value.token != Some(token)
    requires forall i | 0 <= i < |events| && events[i].Claim? :: events[i].token != token
    requires !late.Claim? && late.token == token
    ensures row.Some? ==> !TextStep(TextRun(row.value, events).0, late).1
    ensures !MediaStep(MediaRun(row, events).0, late).1
    decreases |events|
  {
    if events != [] {
      assert forall i | 0 <= i < |events| - 1 :: events[1..][i] == events[i + 1];
      LostLeaseIsLost(MediaStep(row, events[0]).0, token, events[1..], late);
      if row.Some? {
        TextLeaseIsLost(row.value, token, events, late);
      }
    }
  }

  lemma {:induction false} TextLeaseIsLost(row: Row, token: nat, events: seq<Event>, late: Event)
    requires row.token != Some(token) && !late.Claim? && late.token == token
    requires forall i | 0 <= i < |events| && events[i].Claim? :: events[i].token != token
    ensures !TextStep(TextRun(row, events).0, late).1
    decreases |events|
  {
    if events != [] {
      assert forall i | 0 <= i < |events| - 1 :: events[1..][i] == events[i + 1];
      TextLeaseIsLost(TextStep(row, events[0]).0, token, events[1..], late);
    }
  }
}
