/**
 What the statements on the two outbox tables do, column by column: which rows a claim may take and what
 lease it writes, and what a success, a failure and a deferral leave of the table.
 */
module OutboxRules {
  import opened Wrappers
  import opened Outbox
  import opened OutboxRows
  import opened Ranking
  import Model = AutomationModel
  import Invariant = AutomationInvariant
  import Media = MediaOutbox

  // ---- text deliveries ------------------------------------------------------------------------

  ghost predicate HoldsText(s: Model.Store, id: Model.Id, token: Model.Id, now: int) {
    id in s.dels && IsHeld(s.dels[id].row, token, now)
  }

  /** Only settled deliveries and closed occurrences may be forgotten; nothing else changes but delivery `id`. */
  ghost predicate OnlyTouches(s: Model.Store, t: Model.Store, id: Model.Id) {
    && t.jobs == s.jobs && t.nextId == s.nextId
    && (forall o | o in t.occs :: o in s.occs && t.occs[o] == s.occs[o])
    && (forall o | o in s.occs && s.occs[o].status in {Model.Status.Claimed, Model.Retrying} :: o in t.occs)
    && (forall d | d in t.dels && d != id :: d in s.dels && t.dels[d] == s.dels[d])
    && (forall d | d in s.dels && d != id && s.dels[d].row.status in {Queued, Delivering} :: d in t.dels)
  }

  ghost predicate WithNewRow(before: Model.Delivery, after: Model.Delivery, now: int) {
    after == before.(row := after.row, updatedAt := now)
  }

  /** A success under a running lease settles the delivery; any other report changes nothing. */
  lemma CompleteDeliveryExactly(s: Model.Store, id: Model.Id, token: Model.Id, now: int)
    ensures var (t, accepted) := Model.CompleteDelivery(s, id, token, now);
      && (accepted <==> HoldsText(s, id, token, now))
      && if !accepted then t == s
         else
           && OnlyTouches(s, t, id)
           && (id in t.dels ==>
                 && WithNewRow(s.dels[id], t.dels[id], now)
                 && t.dels[id].row == Row(Delivered, s.dels[id].row.attempts, s.dels[id].row.nextAttemptAt, None, None))
  {
    if HoldsText(s, id, token, now) {
      ForgettingOnlyTouches(s, id, TextComplete(s.dels[id].row), now);
    }
  }

  /** A failure under a running lease charges the attempt: the tenth abandons the delivery, others delay it. */
  lemma FailDeliveryExactly(s: Model.Store, id: Model.Id, token: Model.Id, now: int)
    ensures var (t, accepted) := Model.FailDelivery(s, id, token, now);
      && (accepted <==> HoldsText(s, id, token, now))
      && if !accepted then t == s
         else
           && OnlyTouches(s, t, id)
           && (s.dels[id].row.attempts < 10 ==> id in t.dels && t.dels.Keys == s.dels.Keys && t.occs == s.occs)
           && (id in t.dels ==>
                 WithNewRow(s.dels[id], t.dels[id], now) && TextFailed(s.dels[id].row, t.dels[id].row, now))
  {
    if HoldsText(s, id, token, now) {
      RowsWrite(s.dels[id].row, 0, now);
      ForgettingOnlyTouches(s, id, TextFail(s.dels[id].row, now), now);
    }
  }

  /** Rewriting a delivery's row, and then pruning around it or not, touches nothing else that counts. */
  lemma ForgettingOnlyTouches(s: Model.Store, id: Model.Id, row: Row, now: int)
    requires id in s.dels
    ensures
      var t := Model.WithRow(s, id, row, now);
      var u := Model.PruneAround(t, s.dels[id]);
      && OnlyTouches(s, t, id) && OnlyTouches(s, u, id)
      && (id in u.dels ==> u.dels[id] == t.dels[id])
  {
    Invariant.PruneAroundForgets(Model.WithRow(s, id, row, now), s.dels[id]);
  }

  /**
   A deferral under a running lease: the delivery is next due at the time asked for, if that is between a second
   and a week from now, and at the nearer bound otherwise; and at no time before.
   */
  lemma DeferDeliveryExactly(s: Model.Store, id: Model.Id, token: Model.Id, retryAt: int, now: int)
    ensures var (t, accepted) := Model.DeferDelivery(s, id, token, retryAt, now);
      && (accepted <==> HoldsText(s, id, token, now))
      && if !accepted then t == s
         else
           && id in t.dels && t == s.(dels := s.dels[id := t.dels[id]])
           && WithNewRow(s.dels[id], t.dels[id], now)
           && TextDeferred(s.dels[id].row, t.dels[id].row, retryAt, now)
           && (retryAt < now + 1_000 ==> t.dels[id].row.nextAttemptAt == now + 1_000)
           && (now + 1_000 <= retryAt <= now + 604_800_000 ==> t.dels[id].row.nextAttemptAt == retryAt)
           && (retryAt > now + 604_800_000 ==> t.dels[id].row.nextAttemptAt == now + 604_800_000)
  {
    if HoldsText(s, id, token, now) {
      RowsWrite(s.dels[id].row, retryAt, now);
    }
  }

  /** A row leased by a claim: one attempt more, its time unchanged, under a token nobody has had. */
  ghost predicate TextLeased(before: Row, after: Row, token: nat, until: int) {
    after == Row(Delivering, before.attempts + 1, before.nextAttemptAt, Some(token), Some(until))
  }

  lemma {:induction false} ClaimWrites(s: Model.Store, rows: seq<Model.Id>, now: int, leaseMs: int)
    requires forall i | 0 <= i < |rows| :: rows[i] in s.dels && Due(s.dels[rows[i]].row, now)
    requires forall i, j | 0 <= i < j < |rows| :: rows[i] != rows[j]
    ensures var t := Model.ClaimDeliveries(s, rows, now, leaseMs);
      && t.jobs == s.jobs && t.occs == s.occs && t.nextId == s.nextId + |rows| && t.dels.Keys == s.dels.Keys
      && (forall d | d in s.dels && d !in rows :: t.dels[d] == s.dels[d])
      && (forall i | 0 <= i < |rows| ::
            && WithNewRow(s.dels[rows[i]], t.dels[rows[i]], now)
            && TextLeased(s.dels[rows[i]].row, t.dels[rows[i]].row, s.nextId + i, now + leaseMs))
    decreases |rows|
  {
    if rows != [] {
      var one, rest := Model.ClaimDelivery(s, rows[0], now, leaseMs), rows[1..];
      assert forall i | 0 <= i < |rest| :: rest[i] == rows[i + 1] && rest[i] != rows[0];
      assert rows[0] !in rest;
      ClaimWrites(one, rest, now, leaseMs);
      forall i | 0 <= i < |rows|
        ensures var t := Model.ClaimDeliveries(s, rows, now, leaseMs);
                && WithNewRow(s.dels[rows[i]], t.dels[rows[i]], now)
                && TextLeased(s.dels[rows[i]].row, t.dels[rows[i]].row, s.nextId + i, now + leaseMs)
      {
        if i > 0 {
          assert rows[i] == rest[i - 1];
        }
      }
    }
  }

  /** Which deliveries a claim statement takes: free ones, the earliest first, as many as asked up to twenty. */
  lemma SelectsDeliveriesExactly(s: Model.Store, rows: seq<Model.Id>, now: int, limit: int)
    ensures Model.SelectsDeliveries(s, rows, now, limit) <==>
              var most := if limit < 1 then 1 else if limit > 20 then 20 else limit;
              && |rows| <= most
              && (forall i | 0 <= i < |rows| :: rows[i] in s.dels && IsFree(s.dels[rows[i]].row, now))
              && (forall i, k | 0 <= i < k < |rows| ::
                    && rows[i] != rows[k]
                    && s.dels[rows[i]].row.nextAttemptAt <= s.dels[rows[k]].row.nextAttemptAt)
              && (forall d | d in s.dels && IsFree(s.dels[d].row, now) && d !in rows ::
                    && |rows| == most
                    && forall i | 0 <= i < |rows| ::
                         s.dels[rows[i]].row.nextAttemptAt <= s.dels[d].row.nextAttemptAt)
  {
  }

  // ---- media deliveries -----------------------------------------------------------------------

  ghost predicate HoldsMedia(t: Media.Table, id: Media.Id, token: nat, now: int) {
    id in t.rows && IsHeld(t.rows[id].row, token, now)
  }

  /** A success under a running lease deletes the row; any other report changes nothing. */
  lemma CompleteMediaExactly(t: Media.Table, id: Media.Id, token: nat, now: int)
    ensures Media.Completed(t, id, token, now) ==
              if HoldsMedia(t, id, token, now) then (t.(rows := t.rows - {id}), true) else (t, false)
  {
  }

  /** A failure under a running lease charges the attempt: the tenth abandons the row, others delay it. */
  lemma FailMediaExactly(t: Media.Table, id: Media.Id, token: nat, now: int)
    ensures var (u, accepted) := Media.Failed(t, id, token, now);
      && (accepted <==> HoldsMedia(t, id, token, now))
      && if !accepted then u == t
         else
           && u.nextId == t.nextId && u.rows.Keys <= t.rows.Keys
           && (forall k | k in u.rows && k != id :: u.rows[k] == t.rows[k])
           && (forall k | k in t.rows && k != id && t.rows[k].row.status != Abandoned :: k in u.rows)
           && (t.rows[id].row.attempts < 9 ==> u.rows.Keys == t.rows.Keys)
           && (id in u.rows ==>
                 && MediaFailed(t.rows[id].row, u.rows[id].row, now)
                 && u.rows[id].createdAt == t.rows[id].createdAt)
  {
    if HoldsMedia(t, id, token, now) {
      RowsWrite(t.rows[id].row, 0, now);
    }
  }

  /** Abandoned rows enqueued later, the younger one first where that was at the same time. */
  ghost function AbandonedLater(t: Media.Table, id: Media.Id): set<Media.Id>
    requires id in t.rows
  {
    set k | k in t.rows && t.rows[k].row.status == Abandoned
            && (t.rows[k].createdAt > t.rows[id].createdAt
                || (t.rows[k].createdAt == t.rows[id].createdAt && k > id))
  }

  /** A failure that abandons a row keeps the thousand abandoned last enqueued, counting that row. */
  lemma NewestAbandonedStay(t: Media.Table, id: Media.Id, token: nat, now: int, k: Media.Id)
    requires id != k && k in t.rows && |AbandonedLater(t, k)| < 999
    ensures k in Media.Failed(t, id, token, now).0.rows
  {
    if Media.Holds(t, id, token, now) {
      var failed := Media.WithRow(t, id, MediaFail(t.rows[id].row, now));
      var ahead := Ahead(Media.Newer(failed), Media.AbandonedRows(failed), k);
      SubsetSize(ahead, AbandonedLater(t, k) + {id});
    }
  }

  /** The row just abandoned is kept while fewer than a thousand abandoned were enqueued later. */
  lemma AbandonedStays(t: Media.Table, id: Media.Id, token: nat, now: int)
    requires id in t.rows && |AbandonedLater(t, id)| < 1000
    ensures id in Media.Failed(t, id, token, now).0.rows
  {
    if Media.Holds(t, id, token, now) {
      var failed := Media.WithRow(t, id, MediaFail(t.rows[id].row, now));
      SubsetSize(Ahead(Media.Newer(failed), Media.AbandonedRows(failed), id), AbandonedLater(t, id));
    }
  }

  /**
   A deferral under a running lease: the row is next due at the time asked for, if that is between a second and
   a week from now, and at the nearer bound otherwise; and at no time before.
   */
  lemma DeferMediaExactly(t: Media.Table, id: Media.Id, token: nat, retryAt: int, now: int)
    ensures var (u, accepted) := Media.Deferred(t, id, token, retryAt, now);
      && (accepted <==> HoldsMedia(t, id, token, now))
      && if !accepted then u == t
         else
           && id in u.rows && u == t.(rows := t.rows[id := u.rows[id]])
           && u.rows[id].createdAt == t.rows[id].createdAt
           && MediaDeferred(t.rows[id].row, u.rows[id].row, retryAt, now)
           && (retryAt < now + 1_000 ==> u.rows[id].row.nextAttemptAt == now + 1_000)
           && (now + 1_000 <= retryAt <= now + 604_800_000 ==> u.rows[id].row.nextAttemptAt == retryAt)
           && (retryAt > now + 604_800_000 ==> u.rows[id].row.nextAttemptAt == now + 604_800_000)
  {
    if HoldsMedia(t, id, token, now) {
      RowsWrite(t.rows[id].row, retryAt, now);
    }
  }

  /** A media row leased by a claim: charged only if its last lease ran out, and not due before this one ends. */
  ghost predicate MediaLeased(before: Row, after: Row, token: nat, until: int) {
    after == Row(Delivering, if before.status == Delivering then before.attempts + 1 else before.attempts, until,
                 Some(token), Some(until))
  }

  lemma {:induction false} MediaClaimWrites(t: Media.Table, rows: seq<Media.Id>, now: int, leaseMs: int)
    requires forall i | 0 <= i < |rows| :: rows[i] in t.rows && Due(t.rows[rows[i]].row, now)
    requires forall i, j | 0 <= i < j < |rows| :: rows[i] != rows[j]
    ensures var u := Media.Claimed(t, rows, now, leaseMs);
      && u.nextId == t.nextId + |rows| && u.rows.Keys == t.rows.Keys
      && (forall k | k in t.rows && k !in rows :: u.rows[k] == t.rows[k])
      && (forall i | 0 <= i < |rows| ::
            && u.rows[rows[i]].createdAt == t.rows[rows[i]].createdAt
            && MediaLeased(t.rows[rows[i]].row, u.rows[rows[i]].row, t.nextId + i, now + leaseMs))
    decreases |rows|
  {
    if rows != [] {
      var one, rest := Media.ClaimedOne(t, rows[0], now, leaseMs), rows[1..];
      assert forall i | 0 <= i < |rest| :: rest[i] == rows[i + 1] && rest[i] != rows[0];
      assert rows[0] !in rest;
      MediaClaimWrites(one, rest, now, leaseMs);
      forall i | 0 <= i < |rows|
        ensures var u := Media.Claimed(t, rows, now, leaseMs);
                && u.rows[rows[i]].createdAt == t.rows[rows[i]].createdAt
                && MediaLeased(t.rows[rows[i]].row, u.rows[rows[i]].row, t.nextId + i, now + leaseMs)
      {
        if i > 0 {
          assert rows[i] == rest[i - 1];
        }
      }
    }
  }

  lemma SelectsMediaExactly(t: Media.Table, rows: seq<Media.Id>, now: int, limit: int)
    ensures Media.SelectsMedia(t, rows, now, limit) <==>
              var most := if limit < 1 then 1 else if limit > 20 then 20 else limit;
              && |rows| <= most
              && (forall i | 0 <= i < |rows| :: rows[i] in t.rows && IsFree(t.rows[rows[i]].row, now))
              && (forall i, k | 0 <= i < k < |rows| ::
                    && rows[i] != rows[k]
                    && t.rows[rows[i]].row.nextAttemptAt <= t.rows[rows[k]].row.nextAttemptAt)
              && (forall m | m in t.rows && IsFree(t.rows[m].row, now) && m !in rows ::
                    && |rows| == most
                    && forall i | 0 <= i < |rows| ::
                         t.rows[rows[i]].row.nextAttemptAt <= t.rows[m].row.nextAttemptAt)
  {
  }
}
