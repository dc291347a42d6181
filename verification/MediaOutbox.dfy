/**
 The media delivery table: rows are enqueued, leased in batches, completed by deletion, deferred, and
 failed until they are abandoned; of abandoned rows the newest thousand are kept. Over any run each row
 goes through the steps of the row model, and nothing else ever happens to it.
 */
module MediaOutbox {
  import opened Wrappers
  import opened Ranking
  import opened Outbox
  import opened OutboxRows

  type Id = nat

  datatype Media = Media(row: Row, createdAt: int)

  datatype Table = Table(rows: map<Id, Media>, nextId: Id)

  const ABANDONED_KEPT: nat := 1000

  datatype Op =
    | Enqueue
    | ClaimDue(rows: seq<Id>, limit: int, leaseMs: int)
    | Complete(id: Id, token: nat)
    | FailSend(id: Id, token: nat)
    | DeferSend(id: Id, token: nat, retryAt: int)

  datatype Call = Call(op: Op, now: int)

  predicate Holds(t: Table, id: Id, token: nat, now: int) {
    id in t.rows && Held(t.rows[id].row, token, now)
  }

  function WithRow(t: Table, id: Id, row: Row): Table
    requires id in t.rows
  {
    t.(rows := t.rows[id := t.rows[id].(row := row)])
  }

  // ---- pruning --------------------------------------------------------------------------------

  function AbandonedRows(t: Table): set<Id> {
    set id | id in t.rows && t.rows[id].row.status.Abandoned?
  }

  /** ORDER BY created_at DESC, ties broken by the younger id. */
  function Newer(t: Table): Order<Id> {
    (x, y) => x in t.rows && y in t.rows
      && (t.rows[x].createdAt > t.rows[y].createdAt || (t.rows[x].createdAt == t.rows[y].createdAt && x > y))
  }

  function Pruned(t: Table): Table {
    t.(rows := map id | id in t.rows
                        && !(id in AbandonedRows(t) && |Ahead(Newer(t), AbandonedRows(t), id)| >= ABANDONED_KEPT) ::
                   t.rows[id])
  }

  // ---- the calls ------------------------------------------------------------------------------

  function Enqueued(t: Table, now: int): Table {
    Table(t.rows[t.nextId := Media(NewRow(now), now)], t.nextId + 1)
  }

  /** The rows a claim statement may select: due, distinct, earliest first, none due left below the limit. */
  predicate SelectsMedia(t: Table, rows: seq<Id>, now: int, limit: int) {
    && |rows| <= Clamp(limit, 1, 20)
    && (forall i | 0 <= i < |rows| :: rows[i] in t.rows && Due(t.rows[rows[i]].row, now))
    && (forall i, j | 0 <= i < j < |rows| :: rows[i] != rows[j])
    && (forall i, j | 0 <= i < j < |rows| :: t.rows[rows[i]].row.nextAttemptAt <= t.rows[rows[j]].row.nextAttemptAt)
    && (forall id | id in t.rows && Due(t.rows[id].row, now) && id !in rows ::
          && |rows| == Clamp(limit, 1, 20)
          && forall i | 0 <= i < |rows| :: t.rows[rows[i]].row.nextAttemptAt <= t.rows[id].row.nextAttemptAt)
  }

  function ClaimedOne(t: Table, id: Id, now: int, leaseMs: int): Table {
    if id in t.rows && Due(t.rows[id].row, now)
    then WithRow(t, id, MediaClaim(t.rows[id].row, t.nextId, now, leaseMs)).(nextId := t.nextId + 1)
    else t
  }

  function Claimed(t: Table, rows: seq<Id>, now: int, leaseMs: int): Table
    decreases |rows|
  {
    if rows == [] then t else Claimed(ClaimedOne(t, rows[0], now, leaseMs), rows[1..], now, leaseMs)
  }

  function Completed(t: Table, id: Id, token: nat, now: int): (Table, bool) {
    if !Holds(t, id, token, now) then (t, false) else (t.(rows := t.rows - {id}), true)
  }

  function Failed(t: Table, id: Id, token: nat, now: int): (Table, bool) {
    if !Holds(t, id, token, now) then (t, false)
    else
      var failed := WithRow(t, id, MediaFail(t.rows[id].row, now));
      (if failed.rows[id].row.status.Abandoned? then Pruned(failed) else failed, true)
  }

  function Deferred(t: Table, id: Id, token: nat, retryAt: int, now: int): (Table, bool) {
    if !Holds(t, id, token, now) then (t, false)
    else (WithRow(t, id, MediaDefer(t.rows[id].row, retryAt, now)), true)
  }

  function Next(t: Table, c: Call): Table {
    match c.op
    case Enqueue => Enqueued(t, c.now)
    case ClaimDue(rows, _, leaseMs) => Claimed(t, rows, c.now, leaseMs)
    case Complete(id, token) => Completed(t, id, token, c.now).0
    case FailSend(id, token) => Failed(t, id, token, c.now).0
    case DeferSend(id, token, retryAt) => Deferred(t, id, token, retryAt, c.now).0
  }

  function Run(t: Table, calls: seq<Call>): Table
    decreases |calls|
  {
    if calls == [] then t else Run(Next(t, calls[0]), calls[1..])
  }

  /** The clock moves on, and claim statements select due rows. */
  ghost predicate AllAllowed(t: Table, clock: int, calls: seq<Call>)
    decreases |calls|
  {
    calls != [] ==>
      && clock <= calls[0].now
      && (calls[0].op.ClaimDue? ==> SelectsMedia(t, calls[0].op.rows, calls[0].now, calls[0].op.limit))
      && AllAllowed(Next(t, calls[0]), calls[0].now, calls[1..])
  }

  /** The table as the store keeps it. */
  class MediaTable {
    var rows: map<Id, Media>
    var nextId: Id

    function State(): Table
      reads this
    {
      Table(rows, nextId)
    }

    constructor ()
      ensures State() == Table(map[], 0)
    {
      rows, nextId := map[], 0;
    }

    /** A delivery without platform, chat or path throws. */
    method EnqueueMedia(platform: string, chat: string, path: string, now: int) returns (id: Id, threw: bool)
      modifies this
      ensures threw <==> platform == "" || chat == "" || path == ""
      ensures State() == if threw then old(State()) else Enqueued(old(State()), now)
      ensures !threw ==> id == old(nextId)
    {
      id, threw := nextId, platform == "" || chat == "" || path == "";
      if !threw {
        rows := rows[id := Media(Row(Queued, 0, now, None, None), now)];
        nextId := nextId + 1;
      }
    }

    method SelectDue(now: int, limit: int) returns (picked: seq<Id>)
      ensures SelectsMedia(State(), picked, now, limit)
    {
      var times := map id | id in rows && Due(rows[id].row, now) :: rows[id].row.nextAttemptAt;
      picked := SelectEarliest(times, Clamp(limit, 1, 20));
    }

    method ClaimMediaDue(now: int, limit: int, leaseMs: int) returns (picked: seq<Id>)
      modifies this
      ensures SelectsMedia(old(State()), picked, now, limit)
      ensures State() == Claimed(old(State()), picked, now, leaseMs)
    {
      picked := SelectDue(now, limit);
      var i := 0;
      while i < |picked|
        invariant 0 <= i <= |picked|
        invariant Claimed(old(State()), picked, now, leaseMs) == Claimed(State(), picked[i..], now, leaseMs)
      {
        var id := picked[i];
        assert picked[i..][0] == id && picked[i..][1..] == picked[i + 1..];
        if id in rows && Due(rows[id].row, now) {
          var row := rows[id].row;
          var charge := if row.status.Delivering? then 1 else 0;
          var until := now + leaseMs;
          var leased := Row(Delivering, row.attempts + charge, until, Some(nextId), Some(until));
          rows := rows[id := rows[id].(row := leased)];
          nextId := nextId + 1;
        }
        i := i + 1;
      }
    }

    method CompleteMedia(id: Id, token: nat, now: int) returns (accepted: bool)
      modifies this
      ensures State() == Completed(old(State()), id, token, now).0
              && accepted == Completed(old(State()), id, token, now).1
    {
      accepted := Holds(State(), id, token, now);
      if accepted {
        rows := rows - {id};
      }
    }

    method DeferMedia(id: Id, token: nat, retryAt: int, now: int) returns (accepted: bool)
      modifies this
      ensures State() == Deferred(old(State()), id, token, retryAt, now).0
      ensures accepted == Deferred(old(State()), id, token, retryAt, now).1
      ensures accepted <==> id in old(rows) && IsHeld(old(rows)[id].row, token, now)
      ensures accepted ==>
                && rows.Keys == old(rows).Keys && forall k | k in rows && k != id :: rows[k] == old(rows)[k]
      ensures accepted ==>
                && rows[id].createdAt == old(rows)[id].createdAt
                && MediaDeferred(old(rows)[id].row, rows[id].row, retryAt, now)
    {
      accepted := Holds(State(), id, token, now);
      if accepted {
        RowsWrite(rows[id].row, retryAt, now);
        rows := rows[id := rows[id].(row := MediaDefer(rows[id].row, retryAt, now))];
      }
    }

    method Prune()
      modifies this`rows
      ensures State() == Pruned(old(State()))
    {
      var t := State();
      rows := Pruned(t).rows;
    }

    method FailMedia(id: Id, token: nat, now: int) returns (accepted: bool)
      modifies this
      ensures State() == Failed(old(State()), id, token, now).0 && accepted == Failed(old(State()), id, token, now).1
    {
      accepted := Holds(State(), id, token, now);
      if !accepted {
        return;
      }
      var row := rows[id].row;
      var attempts := row.attempts + 1;
      ghost var failed := WithRow(State(), id, MediaFail(row, now));
      if attempts >= 10 {
        var abandoned := row.(status := Abandoned, attempts := attempts, token := None, expiresAt := None);
        rows := rows[id := rows[id].(row := abandoned)];
        assert State() == failed;
        Prune();
        return;
      }
      rows := rows[id := rows[id].(row := Row(Queued, attempts, now + Backoff(attempts - 1), None, None))];
      assert State() == failed;
    }
  }

  // ---- one row's history ----------------------------------------------------------------------

  function RowOf(t: Table, id: Id): Option<Row> {
    if id in t.rows then Some(t.rows[id].row) else None
  }

  function Index(rows: seq<Id>, id: Id): (i: nat)
    ensures i <= |rows| && (i < |rows| <==> id in rows) && (i < |rows| ==> rows[i] == id)
  {
    if rows == [] || rows[0] == id then 0 else 1 + Index(rows[1..], id)
  }

  /** What the call is to row `id`: at most one step of the row model. */
  function Seen(t: Table, c: Call, id: Id): seq<Event> {
    match c.op
    case Enqueue => []
    case ClaimDue(rows, _, leaseMs) => if id in rows then [Claim(c.now, leaseMs, t.nextId + Index(rows, id))] else []
    case Complete(i, token) => if i == id then [Succeed(c.now, token)] else []
    case FailSend(i, token) => if i == id then [Fail(c.now, token)] else []
    case DeferSend(i, token, retryAt) => if i == id then [Defer(c.now, token, retryAt)] else []
  }

  function History(t: Table, calls: seq<Call>, id: Id): seq<Event>
    decreases |calls|
  {
    if calls == [] then [] else Seen(t, calls[0], id) + History(Next(t, calls[0]), calls[1..], id)
  }

  /** The row is as the row model has it, or was abandoned and pruned. */
  ghost predicate Follows(t: Table, id: Id, row: Option<Row>) {
    RowOf(t, id) == row || (RowOf(t, id).None? && row.Some? && row.value.status.Abandoned?)
  }

  lemma {:induction false} ClaimFollows(t: Table, rows: seq<Id>, now: int, leaseMs: int, id: Id)
    requires forall i | 0 <= i < |rows| :: rows[i] in t.rows && Due(t.rows[rows[i]].row, now)
    requires forall i, j | 0 <= i < j < |rows| :: rows[i] != rows[j]
    ensures RowOf(Claimed(t, rows, now, leaseMs), id)
         == if id in rows then Some(MediaClaim(t.rows[id].row, t.nextId + Index(rows, id), now, leaseMs))
           else RowOf(t, id)
    decreases |rows|
  {
    if rows != [] {
      ClaimFollows(ClaimedOne(t, rows[0], now, leaseMs), rows[1..], now, leaseMs, id);
    }
  }

  lemma CallFollows(t: Table, clock: int, c: Call, id: Id)
    requires AllAllowed(t, clock, [c]) && id < t.nextId
    ensures Follows(Next(t, c), id, MediaRun(RowOf(t, id), Seen(t, c, id)).0)
  {
    match c.op
    case Enqueue =>
    case ClaimDue(rows, _, leaseMs) => ClaimCallFollows(t, clock, c, id);
    case Complete(i, token) => OneStep(RowOf(t, id), Succeed(c.now, token));
    case FailSend(i, token) => OneStep(RowOf(t, id), Fail(c.now, token));
    case DeferSend(i, token, retryAt) => OneStep(RowOf(t, id), Defer(c.now, token, retryAt));
  }

  lemma ClaimCallFollows(t: Table, clock: int, c: Call, id: Id)
    requires AllAllowed(t, clock, [c]) && id < t.nextId && c.op.ClaimDue?
    ensures Follows(Next(t, c), id, MediaRun(RowOf(t, id), Seen(t, c, id)).0)
  {
    ClaimFollows(t, c.op.rows, c.now, c.op.leaseMs, id);
    if id in c.op.rows {
      OneStep(RowOf(t, id), Claim(c.now, c.op.leaseMs, t.nextId + Index(c.op.rows, id)));
    }
  }

  lemma OneStep(row: Option<Row>, e: Event)
    ensures MediaRun(row, [e]).0 == MediaStep(row, e).0
  {
    assert [e][1..] == [];
  }

  lemma {:induction false} RunsCompose(row: Option<Row>, one: seq<Event>, other: seq<Event>)
    ensures MediaRun(row, one + other).0 == MediaRun(MediaRun(row, one).0, other).0
    decreases |one|
  {
    if one == [] {
      assert one + other == other;
    } else {
      assert (one + other)[1..] == one[1..] + other;
      RunsCompose(MediaStep(row, one[0]).0, one[1..], other);
    }
  }

  lemma {:induction false} AbandonedStays(row: Option<Row>, events: seq<Event>)
    requires row.None? || row.value.status.Abandoned?
    ensures MediaRun(row, events).0 == row
    decreases |events|
  {
    if events != [] {
      AbandonedStays(row, events[1..]);
    }
  }

  lemma {:induction false} NextIdGrows(t: Table, rows: seq<Id>, now: int, leaseMs: int)
    ensures t.nextId <= Claimed(t, rows, now, leaseMs).nextId
    decreases |rows|
  {
    if rows != [] {
      NextIdGrows(ClaimedOne(t, rows[0], now, leaseMs), rows[1..], now, leaseMs);
    }
  }

  /** Over any run of calls on the table, a row goes through exactly the steps the calls are to it. */
  lemma {:induction false} RowsFollow(t: Table, clock: int, calls: seq<Call>, id: Id, row: Option<Row>)
    requires AllAllowed(t, clock, calls) && id < t.nextId && Follows(t, id, row)
    ensures Follows(Run(t, calls), id, MediaRun(row, History(t, calls, id)).0)
    decreases |calls|
  {
    if calls != [] {
      var c := calls[0];
      assert AllAllowed(t, clock, [c]);
      CallFollows(t, clock, c, id);
      if c.op.ClaimDue? {
        NextIdGrows(t, c.op.rows, c.now, c.op.leaseMs);
      }
      var seen := Seen(t, c, id);
      if RowOf(t, id) != row {
        AbandonedStays(row, seen);
        AbandonedStays(None, seen);
      }
      RowsFollow(Next(t, c), c.now, calls[1..], id, MediaRun(row, seen).0);
      RunsCompose(row, seen, History(Next(t, c), calls[1..], id));
    }
  }

  /** The time of the last call. */
  function End(clock: int, calls: seq<Call>): int {
    if calls == [] then clock else calls[|calls| - 1].now
  }

  lemma SeenAtOnce(t: Table, c: Call, id: Id)
    ensures |Seen(t, c, id)| <= 1 && (Seen(t, c, id) != [] ==> Seen(t, c, id)[0].now == c.now)
  {
  }

  lemma SeenFirst(seen: seq<Event>, rest: seq<Event>, clock: int, now: int)
    requires |seen| <= 1 && (seen != [] ==> seen[0].now == now) && clock <= now
    requires InOrder(now, rest) && now <= Last(now, rest)
    ensures InOrder(clock, seen + rest) && clock <= Last(clock, seen + rest)
    ensures Last(clock, seen + rest) <= Last(now, rest)
  {
    if seen == [] {
      assert seen + rest == rest;
    } else {
      assert (seen + rest)[1..] == rest;
    }
  }

  lemma {:induction false} HistoryInOrder(t: Table, clock: int, calls: seq<Call>, id: Id)
    requires AllAllowed(t, clock, calls)
    ensures InOrder(clock, History(t, calls, id))
    ensures clock <= Last(clock, History(t, calls, id)) <= End(clock, calls)
    decreases |calls|
  {
    if calls != [] {
      var c := calls[0];
      var rest := History(Next(t, c), calls[1..], id);
      HistoryInOrder(Next(t, c), c.now, calls[1..], id);
      SeenAtOnce(t, c, id);
      SeenFirst(Seen(t, c, id), rest, clock, c.now);
      assert End(c.now, calls[1..]) == End(clock, calls);
    }
  }

  // ---- bounds ---------------------------------------------------------------------------------

  lemma PruningBounds(t: Table)
    ensures |AbandonedRows(Pruned(t))| <= 1000
  {
    assert Orders(Newer(t), AbandonedRows(t));
    FewAreNearTheFront(Newer(t), AbandonedRows(t), AbandonedRows(Pruned(t)), 1000);
  }

  lemma {:induction false} ClaimingAbandonsNothing(t: Table, rows: seq<Id>, now: int, leaseMs: int)
    ensures AbandonedRows(Claimed(t, rows, now, leaseMs)) == AbandonedRows(t)
    decreases |rows|
  {
    if rows != [] {
      var one := ClaimedOne(t, rows[0], now, leaseMs);
      assert AbandonedRows(one) == AbandonedRows(t);
      ClaimingAbandonsNothing(one, rows[1..], now, leaseMs);
    }
  }

  lemma FailingKeepsBound(t: Table, id: Id, token: nat, now: int)
    requires |AbandonedRows(t)| <= 1000
    ensures |AbandonedRows(Failed(t, id, token, now).0)| <= 1000
  {
    if Holds(t, id, token, now) {
      var failed := WithRow(t, id, MediaFail(t.rows[id].row, now));
      if failed.rows[id].row.status.Abandoned? {
        assert Failed(t, id, token, now).0 == Pruned(failed);
        PruningBounds(failed);
      } else {
        assert Failed(t, id, token, now).0 == failed;
        assert AbandonedRows(failed) == AbandonedRows(t);
      }
    }
  }

  lemma CallKeepsBound(t: Table, c: Call)
    requires |AbandonedRows(t)| <= 1000 && forall id | id in t.rows :: id < t.nextId
    ensures |AbandonedRows(Next(t, c))| <= 1000
  {
    match c.op
    case Enqueue => assert AbandonedRows(Next(t, c)) == AbandonedRows(t);
    case ClaimDue(rows, _, leaseMs) => ClaimingAbandonsNothing(t, rows, c.now, leaseMs);
    case Complete(id, token) => assert AbandonedRows(Next(t, c)) == AbandonedRows(t);
    case FailSend(id, token) => FailingKeepsBound(t, id, token, c.now);
    case DeferSend(id, token, retryAt) => assert AbandonedRows(Next(t, c)) == AbandonedRows(t);
  }

  lemma {:induction false} KeysStayOld(t: Table, rows: seq<Id>, now: int, leaseMs: int)
    requires forall id | id in t.rows :: id < t.nextId
    ensures forall id | id in Claimed(t, rows, now, leaseMs).rows :: id < Claimed(t, rows, now, leaseMs).nextId
    decreases |rows|
  {
    if rows != [] {
      KeysStayOld(ClaimedOne(t, rows[0], now, leaseMs), rows[1..], now, leaseMs);
    }
  }

  /** From an empty table, no run ever keeps more than a thousand abandoned rows. */
  lemma {:induction false} AbandonedAreBounded(t: Table, calls: seq<Call>)
    requires |AbandonedRows(t)| <= 1000 && forall id | id in t.rows :: id < t.nextId
    ensures |AbandonedRows(Run(t, calls))| <= 1000
    decreases |calls|
  {
    if calls != [] {
      CallKeepsBound(t, calls[0]);
      if calls[0].op.ClaimDue? {
        KeysStayOld(t, calls[0].op.rows, calls[0].now, calls[0].op.leaseMs);
      }
      AbandonedAreBounded(Next(t, calls[0]), calls[1..]);
    }
  }
}
