/**
 The two outboxes as tables. Over any run of the automation store a text delivery goes through exactly
 the steps of the text row, as a media row does through those of the media row; so two deliveries that
 meet the same outcomes are due, retried and abandoned alike, whatever else the store does meanwhile.
 */
module OutboxTables {
  import opened Wrappers
  import opened AutomationModel
  import opened AutomationInvariant
  import opened AutomationRuns
  import opened AutomationFencing
  import Outbox
  import MediaOutbox

  /** What the call is to delivery `d`: at most one step of the text row. */
  function Seen(s: Store, c: Call, d: Id): seq<Outbox.Event> {
    match c.op
    case OpClaimDeliveries(rows, _, leaseMs) =>
      if d in rows then [Outbox.Claim(c.now, leaseMs, s.nextId + MediaOutbox.Index(rows, d))] else []
    case OpCompleteDelivery(id, token) => if id == d then [Outbox.Succeed(c.now, token)] else []
    case OpFailDelivery(id, token) => if id == d then [Outbox.Fail(c.now, token)] else []
    case OpDeferDelivery(id, token, retryAt) => if id == d then [Outbox.Defer(c.now, token, retryAt)] else []
    case _ => []
  }

  ghost function History(w: World, cal: Calendar, calls: seq<Call>, d: Id): seq<Outbox.Event>
    decreases |calls|
  {
    if calls == [] then [] else Seen(w.store, calls[0], d) + History(Next(w, cal, calls[0]), cal, calls[1..], d)
  }

  /** Deliveries are dropped or new, and those that stay keep their rows. */
  ghost predicate SameRows(s: Store, t: Store) {
    && s.nextId <= t.nextId
    && forall d | d in t.dels && d < s.nextId :: d in s.dels && t.dels[d].row == s.dels[d].row
  }

  lemma ScheduleCallsKeepRows(s: Store, cal: Calendar, c: Call)
    requires OnSchedules(c.op)
    ensures SameRows(s, Apply(s, cal, c).store)
  {
    ScheduleCallsEvolve(s, cal, c);
  }

  lemma {:induction false} ClaimRowsKeepRows(s: Store, cal: Calendar, rows: seq<Id>, now: int, leaseMs: int,
          claims: seq<Claim>)
    ensures ClaimRows(s, cal, rows, now, leaseMs, claims).Done? ==>
              ClaimRows(s, cal, rows, now, leaseMs, claims).store.dels == s.dels
    decreases |rows|
  {
    if rows != [] {
      if rows[0] !in s.jobs {
        ClaimRowsKeepRows(s, cal, rows[1..], now, leaseMs, claims);
      } else {
        var r := ClaimRow(s, cal, rows[0], now, leaseMs);
        if r.Done? {
          ClaimRowIsLocal(s, cal, rows[0], now, leaseMs);
          ClaimRowsKeepRows(r.store, cal, rows[1..], now, leaseMs, Collect(claims, r.result));
        }
      }
    }
  }

  lemma CompletionKeepsRows(s: Store, clock: int, cal: Calendar, claim: Claim, res: Completion, now: int)
    requires Inv(s, clock)
    ensures Complete(s, cal, claim, res, now).Done? ==> SameRows(s, Complete(s, cal, claim, res, now).store)
  {
    CompleteEvolves(s, cal, clock, claim, res, now);
  }

  lemma ClaimCallsKeepRows(s: Store, clock: int, cal: Calendar, c: Call)
    requires Inv(s, clock) && OnClaims(c.op)
    ensures SameRows(s, Apply(s, cal, c).store)
  {
    ClaimCallsEvolve(s, clock, cal, c);
    match c.op
    case OpClaimDue(rows, _, leaseMs) => ClaimRowsKeepRows(s, cal, rows, c.now, leaseMs, []);
    case OpComplete(claim, res) => CompletionKeepsRows(s, clock, cal, claim, res, c.now);
    case OpRenew(id, token, until) =>
    case OpBind(id, o, token, objective, taskRun) =>
  }

  // ---- the delivery calls ---------------------------------------------------------------------

  lemma {:induction false} ClaimedDelivery(s: Store, rows: seq<Id>, now: int, leaseMs: int, d: Id)
    requires forall i | 0 <= i < |rows| :: rows[i] in s.dels && Outbox.Due(s.dels[rows[i]].row, now)
    requires forall i, j | 0 <= i < j < |rows| :: rows[i] != rows[j]
    ensures ClaimDeliveries(s, rows, now, leaseMs).dels.Keys == s.dels.Keys
    ensures d in s.dels ==>
              var token := s.nextId + MediaOutbox.Index(rows, d);
              var row := if d in rows then Outbox.TextClaim(s.dels[d].row, token, now, leaseMs)
                         else s.dels[d].row;
              ClaimDeliveries(s, rows, now, leaseMs).dels[d].row == row
    decreases |rows|
  {
    if rows != [] {
      var one := ClaimDelivery(s, rows[0], now, leaseMs);
      ClaimedDelivery(one, rows[1..], now, leaseMs, d);
    }
  }

  lemma OneStep(row: Outbox.Row, e: Outbox.Event)
    ensures Outbox.TextRun(row, [e]).0 == Outbox.TextStep(row, e).0
  {
    assert [e][1..] == [];
  }

  /** The row of a delivery that is still there is as the row model has it. */
  ghost predicate Follows(t: Store, d: Id, row: Outbox.Row) {
    d in t.dels ==> t.dels[d].row == row
  }

  lemma SettlingFollows(s: Store, d: Id, row: Outbox.Row, now: int, k: Id)
    requires d in s.dels
    ensures k in PruneAround(WithRow(s, d, row, now), s.dels[d]).dels ==>
              k in s.dels && PruneAround(WithRow(s, d, row, now), s.dels[d]).dels[k].row ==
                (if k == d then row else s.dels[k].row)
  {
    PruneAroundForgets(WithRow(s, d, row, now), s.dels[d]);
  }

  lemma {:induction false} ClaimedFollows(s: Store, rows: seq<Id>, now: int, leaseMs: int, d: Id)
    requires d in s.dels
    requires forall i | 0 <= i < |rows| :: rows[i] in s.dels && Outbox.Due(s.dels[rows[i]].row, now)
    requires forall i, j | 0 <= i < j < |rows| :: rows[i] != rows[j]
    ensures Follows(ClaimDeliveries(s, rows, now, leaseMs), d, Outbox.TextRun(s.dels[d].row,
              if d in rows then [Outbox.Claim(now, leaseMs, s.nextId + MediaOutbox.Index(rows, d))] else []).0)
  {
    ClaimedDelivery(s, rows, now, leaseMs, d);
    if d in rows {
      OneStep(s.dels[d].row, Outbox.Claim(now, leaseMs, s.nextId + MediaOutbox.Index(rows, d)));
      assert Outbox.Due(s.dels[rows[MediaOutbox.Index(rows, d)]].row, now);
    }
  }

  lemma CompletedFollows(s: Store, id: Id, token: Id, now: int, d: Id)
    requires d in s.dels
    ensures Follows(CompleteDelivery(s, id, token, now).0, d,
                    Outbox.TextRun(s.dels[d].row, if id == d then [Outbox.Succeed(now, token)] else []).0)
  {
    OneStep(s.dels[d].row, Outbox.Succeed(now, token));
    if HoldsDelivery(s, id, token, now) {
      SettlingFollows(s, id, Outbox.TextComplete(s.dels[id].row), now, d);
    }
  }

  lemma FailedFollows(s: Store, id: Id, token: Id, now: int, d: Id)
    requires d in s.dels
    ensures Follows(FailDelivery(s, id, token, now).0, d,
                    Outbox.TextRun(s.dels[d].row, if id == d then [Outbox.Fail(now, token)] else []).0)
  {
    OneStep(s.dels[d].row, Outbox.Fail(now, token));
    if HoldsDelivery(s, id, token, now) {
      SettlingFollows(s, id, Outbox.TextFail(s.dels[id].row, now), now, d);
    }
  }

  lemma DeferredFollows(s: Store, id: Id, token: Id, retryAt: int, now: int, d: Id)
    requires d in s.dels
    ensures Follows(DeferDelivery(s, id, token, retryAt, now).0, d,
                    Outbox.TextRun(s.dels[d].row, if id == d then [Outbox.Defer(now, token, retryAt)] else []).0)
  {
    OneStep(s.dels[d].row, Outbox.Defer(now, token, retryAt));
  }

  lemma EnqueuedFollows(s: Store, owner: Owner, text: string, key: string, now: int, d: Id)
    requires d in s.dels && d < s.nextId
    ensures Follows(Outgoing(s, owner, text, key, now).0, d, s.dels[d].row)
  {
  }

  lemma DeliveryCallFollows(s: Store, cal: Calendar, c: Call, d: Id)
    requires !OnSchedules(c.op) && !OnClaims(c.op) && d in s.dels && d < s.nextId
    requires c.op.OpClaimDeliveries? ==> SelectsDeliveries(s, c.op.rows, c.now, c.op.limit)
    ensures Follows(Apply(s, cal, c).store, d, Outbox.TextRun(s.dels[d].row, Seen(s, c, d)).0)
  {
    match c.op
    case OpClaimDeliveries(rows, _, leaseMs) => ClaimedFollows(s, rows, c.now, leaseMs, d);
    case OpEnqueue(owner, text, key) => EnqueuedFollows(s, owner, text, key, c.now, d);
    case OpCompleteDelivery(id, token) => CompletedFollows(s, id, token, c.now, d);
    case OpFailDelivery(id, token) => FailedFollows(s, id, token, c.now, d);
    case OpDeferDelivery(id, token, retryAt) => DeferredFollows(s, id, token, retryAt, c.now, d);
  }

  lemma NoneReborn(s: Store, cal: Calendar, c: Call, d: Id)
    requires !OnSchedules(c.op) && !OnClaims(c.op) && d !in s.dels && d < s.nextId
    requires c.op.OpClaimDeliveries? ==> SelectsDeliveries(s, c.op.rows, c.now, c.op.limit)
    ensures d !in Apply(s, cal, c).store.dels
  {
    match c.op
    case OpClaimDeliveries(rows, _, leaseMs) => ClaimedDelivery(s, rows, c.now, leaseMs, d);
    case OpEnqueue(owner, text, key) =>
    case OpCompleteDelivery(id, token) =>
      if HoldsDelivery(s, id, token, c.now) {
        SettlingFollows(s, id, Outbox.TextComplete(s.dels[id].row), c.now, d);
      }
    case OpFailDelivery(id, token) =>
      if HoldsDelivery(s, id, token, c.now) {
        SettlingFollows(s, id, Outbox.TextFail(s.dels[id].row, c.now), c.now, d);
      }
    case OpDeferDelivery(id, token, retryAt) =>
  }

  lemma CallFollows(w: World, cal: Calendar, c: Call, d: Id, row: Outbox.Row)
    requires Inv(w.store, w.clock) && Allowed(w, c) && d < w.store.nextId && Follows(w.store, d, row)
    ensures Follows(Apply(w.store, cal, c).store, d, Outbox.TextRun(row, Seen(w.store, c, d)).0)
    ensures d < Apply(w.store, cal, c).store.nextId
  {
    var s := w.store;
    if OnSchedules(c.op) {
      ScheduleCallsKeepRows(s, cal, c);
    } else if OnClaims(c.op) {
      ClaimCallsKeepRows(s, w.clock, cal, c);
    } else {
      DeliveryCallsEvolve(s, cal, c);
      if d in s.dels {
        DeliveryCallFollows(s, cal, c, d);
      } else {
        NoneReborn(s, cal, c, d);
      }
    }
  }

  lemma {:induction false} RunsCompose(row: Outbox.Row, one: seq<Outbox.Event>, other: seq<Outbox.Event>)
    ensures Outbox.TextRun(row, one + other).0 == Outbox.TextRun(Outbox.TextRun(row, one).0, other).0
    decreases |one|
  {
    if one == [] {
      assert one + other == other;
    } else {
      assert (one + other)[1..] == one[1..] + other;
      RunsCompose(Outbox.TextStep(row, one[0]).0, one[1..], other);
    }
  }

  /** Over any run of the store, a delivery goes through exactly the steps the calls are to it. */
  lemma {:induction false} DeliveriesFollow(w: World, cal: Calendar, calls: seq<Call>, d: Id, row: Outbox.Row)
    requires Inv(w.store, w.clock) && AllAllowed(w, cal, calls) && d < w.store.nextId && Follows(w.store, d, row)
    ensures Follows(Run(w, cal, calls).store, d, Outbox.TextRun(row, History(w, cal, calls, d)).0)
    decreases |calls|
  {
    if calls != [] {
      var c := calls[0];
      CallFollows(w, cal, c, d, row);
      NextKeepsLeases(w, cal, c);
      var seen := Seen(w.store, c, d);
      DeliveriesFollow(Next(w, cal, c), cal, calls[1..], d, Outbox.TextRun(row, seen).0);
      RunsCompose(row, seen, History(Next(w, cal, c), cal, calls[1..], d));
    }
  }

  lemma {:induction false} SameTimes(events: seq<Outbox.Event>, rename: Outbox.Renaming, clock: int)
    ensures Outbox.InOrder(clock, Outbox.Renamed(events, rename)) <==> Outbox.InOrder(clock, events)
    ensures Outbox.Last(clock, Outbox.Renamed(events, rename)) == Outbox.Last(clock, events)
    ensures |Outbox.Renamed(events, rename)| == |events|
    decreases |events|
  {
    if events != [] {
      SameTimes(events[1..], rename, events[0].now);
    }
  }

  // ---- both tables ----------------------------------------------------------------------------

  /** Two rows that look alike to a reader, but for the attempt a text row is charged while it is sent. */
  ghost predicate Alike(text: Outbox.Row, media: Outbox.Row, now: int) {
    && (Outbox.Due(text, now) <==> Outbox.Due(media, now))
    && (text.status.Queued? ==> media == text)
    && (text.status.Delivering? ==> media.status.Delivering? && text.attempts == media.attempts + 1)
    && (text.status.Abandoned? <==> media.status.Abandoned?)
    && !text.status.Delivered?
  }

  /** Rows enqueued together that go through the same claims and outcomes, each under tokens of its own. */
  lemma {:induction false} RowsAgree(events: seq<Outbox.Event>, rename: Outbox.Renaming, enqueuedAt: int, now: int)
    requires Outbox.Injective(rename) && Outbox.InOrder(enqueuedAt, events) && Outbox.Last(enqueuedAt, events) <= now
    ensures var row := Outbox.NewRow(enqueuedAt);
      var media := Outbox.MediaRun(Some(row), Outbox.Renamed(events, rename)).0;
      media.Some? ==> Alike(Outbox.TextRun(row, events).0, media.value, now)
  {
    var row := Outbox.NewRow(enqueuedAt);
    Outbox.FreshRowsAgree(enqueuedAt, events, now);
    Outbox.OutboxesBisimilar(row, Some(row), enqueuedAt, 0, events);
    Outbox.RunRenames(Some(row), events, rename);
    assert Outbox.RenamedMedia(Some(row), rename) == Some(row);
  }

  /**
   A text delivery and a media delivery enqueued at the same time, each in its own table, under whatever
   calls: if their histories of claims and outcomes are the same, each under the tokens of its own table,
   then at any later time, as long as neither has been removed or pruned, they are due at the same moments,
   wait for the same retry when queued, and one is abandoned exactly when the other is.
   */
  lemma {:induction false} TablesAgree(w: World, cal: Calendar, calls: seq<Call>, d: Id,
                                       t: MediaOutbox.Table, mediaCalls: seq<MediaOutbox.Call>, m: MediaOutbox.Id,
                                       enqueuedAt: int, now: int, rename: Outbox.Renaming)
    requires Inv(w.store, w.clock) && AllAllowed(w, cal, calls) && MediaOutbox.AllAllowed(t, enqueuedAt, mediaCalls)
    requires d in w.store.dels && d < w.store.nextId && w.store.dels[d].row == Outbox.NewRow(enqueuedAt)
    requires m in t.rows && m < t.nextId && t.rows[m].row == Outbox.NewRow(enqueuedAt)
    requires Outbox.Injective(rename)
    requires MediaOutbox.History(t, mediaCalls, m) == Outbox.Renamed(History(w, cal, calls, d), rename)
    requires MediaOutbox.End(enqueuedAt, mediaCalls) <= now
    requires d in Run(w, cal, calls).store.dels && m in MediaOutbox.Run(t, mediaCalls).rows
    ensures Alike(Run(w, cal, calls).store.dels[d].row, MediaOutbox.Run(t, mediaCalls).rows[m].row, now)
  {
    var events := History(w, cal, calls, d);
    var row := Outbox.NewRow(enqueuedAt);
    DeliveriesFollow(w, cal, calls, d, row);
    MediaOutbox.RowsFollow(t, enqueuedAt, mediaCalls, m, Some(row));
    MediaOutbox.HistoryInOrder(t, enqueuedAt, mediaCalls, m);
    SameTimes(events, rename, enqueuedAt);
    RowsAgree(events, rename, enqueuedAt, now);
  }
}
