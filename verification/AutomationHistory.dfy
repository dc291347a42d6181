/**
 How much history pruning leaves, and which: besides open occurrences and those a pending delivery refers
 to, at most a hundred of a schedule and ten thousand in all, namely the latest; and of settled deliveries
 as many.
 */
module AutomationHistory {
  import opened Wrappers
  import opened AutomationModel
  import opened AutomationInvariant
  import opened Ranking
  import Outbox

  // ---- occurrences ----------------------------------------------------------------------------

  function OfSchedule(s: Store, schedule: Id): set<Id> {
    set o | o in s.occs && s.occs[o].schedule == schedule
  }

  /** A delivery that is yet to be sent refers to the occurrence. */
  ghost predicate IsAwaited(s: Store, o: Id) {
    exists d :: d in s.dels && s.dels[d].row.status in {Outbox.Queued, Outbox.Delivering}
      && s.dels[d].origin.Scheduled? && s.dels[d].origin.occurrence == o
  }

  /** Closed occurrences that no delivery yet to be sent refers to: what pruning may delete. */
  ghost function Prunable(s: Store): set<Id> {
    set o | o in s.occs && s.occs[o].status in {Succeeded, Status.Failed, Skipped} && !IsAwaited(s, o)
  }

  lemma PrunableExactly(s: Store, o: Id)
    ensures o in Prunable(s) <==> o in s.occs && !Open(s.occs[o]) && o !in Pinned(s)
    ensures IsAwaited(s, o) <==> o in Pinned(s)
  {
    if o in Pinned(s) {
      var d :| d in s.dels && Outbox.Pending(s.dels[d].row) && s.dels[d].origin.Scheduled?
        && s.dels[d].origin.occurrence == o;
      assert s.dels[d].row.status in {Outbox.Queued, Outbox.Delivering};
    }
  }

  function ByDue(s: Store): Order<Id> {
    (x, y) => x in s.occs && y in s.occs && s.occs[x].nominalDueAt > s.occs[y].nominalDueAt
  }

  function ByUpdate(s: Store): Order<Id> {
    (x, y) => x in s.occs && y in s.occs
      && (s.occs[x].updatedAt > s.occs[y].updatedAt || (s.occs[x].updatedAt == s.occs[y].updatedAt && x > y))
  }

  lemma AheadIsLater(s: Store, schedule: Id, o: Id)
    requires o in s.occs && s.occs[o].schedule == schedule
    ensures Ahead(ByDue(s), OfSchedule(s, schedule), o) == LaterDue(s, o)
  {
  }

  lemma ScheduleIsBounded(s: Store, schedule: Id)
    requires Distinct(s)
    ensures
      var t := PruneSchedule(s, schedule);
      |Prunable(t) * OfSchedule(t, schedule)| <= 100
  {
    var rows := OfSchedule(s, schedule);
    var t := PruneSchedule(s, schedule);
    var kept := Prunable(t) * OfSchedule(t, schedule);
    assert Orders(ByDue(s), rows);
    assert Pinned(t) == Pinned(s);
    forall o | o in kept
      ensures |Ahead(ByDue(s), rows, o)| < 100
    {
      PrunableExactly(t, o);
      AheadIsLater(s, schedule, o);
    }
    FewAreNearTheFront(ByDue(s), rows, kept, 100);
  }

  lemma TableIsBounded(s: Store)
    ensures |Prunable(PruneGlobally(s))| <= 10_000
  {
    var t := PruneGlobally(s);
    assert Orders(ByUpdate(s), s.occs.Keys);
    forall o | o in Prunable(t)
      ensures |Ahead(ByUpdate(s), s.occs.Keys, o)| < 10_000
    {
      PrunableExactly(t, o);
      assert Pinned(t) == Pinned(s);
      assert Ahead(ByUpdate(s), s.occs.Keys, o) == FresherOccurrences(s, o);
    }
    FewAreNearTheFront(ByUpdate(s), s.occs.Keys, Prunable(t), 10_000);
  }

  /** What is left of a schedule's history, and of all history, once it is pruned. */
  lemma HistoryIsBounded(s: Store, schedule: Id)
    requires Distinct(s)
    ensures var t := PruneHistory(s, schedule);
      && |Prunable(t) * OfSchedule(t, schedule)| <= 100
      && |Prunable(t)| <= 10_000
  {
    var t := PruneSchedule(s, schedule);
    var u := PruneGlobally(t);
    ScheduleIsBounded(s, schedule);
    TableIsBounded(t);
    assert Pinned(u) == Pinned(t);
    forall o | o in Prunable(u)
      ensures o in Prunable(t)
    {
      PrunableExactly(t, o);
      PrunableExactly(u, o);
    }
    SubsetSize(Prunable(u) * OfSchedule(u, schedule), Prunable(t) * OfSchedule(t, schedule));
  }

  /** The occurrences of the same schedule due later. */
  ghost function DueLater(s: Store, o: Id): set<Id>
    requires o in s.occs
  {
    set p | p in s.occs && s.occs[p].schedule == s.occs[o].schedule && s.occs[p].nominalDueAt > s.occs[o].nominalDueAt
  }

  /** The occurrences updated later, the younger one first where that was at the same time. */
  ghost function UpdatedLater(s: Store, o: Id): set<Id>
    requires o in s.occs
  {
    set p | p in s.occs && (s.occs[p].updatedAt > s.occs[o].updatedAt
                            || (s.occs[p].updatedAt == s.occs[o].updatedAt && p > o))
  }

  /** What pruning a schedule keeps: whatever is open or awaited, and the latest of the rest. */
  lemma LatestStay(s: Store, schedule: Id, o: Id)
    requires o in s.occs
    requires s.occs[o].status in {Status.Claimed, Retrying} || IsAwaited(s, o)
             || ((s.occs[o].schedule == schedule ==> |DueLater(s, o)| < 100) && |UpdatedLater(s, o)| < 10_000)
    ensures o in PruneHistory(s, schedule).occs && PruneHistory(s, schedule).occs[o] == s.occs[o]
  {
    PrunableExactly(s, o);
    assert DueLater(s, o) == LaterDue(s, o);
    var t := PruneSchedule(s, schedule);
    assert Pinned(t) == Pinned(s);
    SubsetSize(FresherOccurrences(t, o), UpdatedLater(s, o));
  }

  // ---- what a call has just written -----------------------------------------------------------

  /** The occurrences of a schedule due after a time. */
  ghost function DueAfter(s: Store, schedule: Id, due: int): set<Id> {
    set p | p in s.occs && s.occs[p].schedule == schedule && s.occs[p].nominalDueAt > due
  }

  /** Room for one more: an occurrence of the schedule due at this time would be kept. */
  ghost predicate HasRoom(s: Store, schedule: Id, due: int) {
    |DueAfter(s, schedule, due)| < 100 && |s.occs.Keys| < 10_000
  }

  /** Written into such a store, at an old place or a new one, it is kept. */
  lemma WrittenStays(s: Store, t: Store, o: Id)
    requires o in t.occs && t.occs == s.occs[o := t.occs[o]] && HasRoom(s, t.occs[o].schedule, t.occs[o].nominalDueAt)
    requires o in s.occs ==> s.occs[o].schedule == t.occs[o].schedule
                             && s.occs[o].nominalDueAt == t.occs[o].nominalDueAt
    ensures o in PruneHistory(t, t.occs[o].schedule).occs
            && PruneHistory(t, t.occs[o].schedule).occs[o] == t.occs[o]
  {
    var x := t.occs[o];
    SubsetSize(DueLater(t, o), DueAfter(s, x.schedule, x.nominalDueAt));
    SubsetSize(UpdatedLater(t, o), s.occs.Keys);
    LatestStay(t, x.schedule, o);
  }

  /** A missed due time not on record is put on record, where there is room. */
  lemma SkipRecords(s: Store, clock: int, cal: Calendar, j: Id, now: int)
    requires Inv(s, clock) && j in s.jobs && SkipRow(s, cal, j, now).Done?
    requires HasRoom(s, j, s.jobs[j].nextRunAt)
    requires forall o | o in s.occs && s.occs[o].schedule == j :: s.occs[o].nominalDueAt != s.jobs[j].nextRunAt
    ensures
      var t := SkipRow(s, cal, j, now).store;
      exists o :: o !in s.occs && o in t.occs
        && t.occs[o] == Occurrence(j, s.jobs[j].nextRunAt, Skipped, 0, None, None, None, None, now)
  {
    var next := if s.jobs[j].trigger.kind.At? then s.jobs[j].nextRunAt else cal(s.jobs[j].trigger, now).value;
    var passed, o := PassedOver(s, j, next, now), s.nextId;
    forall p | p in s.occs
      ensures p < o
    {
      assert OccurrenceOk(s, clock, p);
    }
    WrittenStays(s, passed, o);
    assert o in SkipRow(s, cal, j, now).store.occs;
  }

  /** A settled occurrence stays on record, where there is room. */
  lemma CompletionRecords(s: Store, clock: int, cal: Calendar, claim: Claim, res: Completion, now: int)
    returns (o: Id)
    requires Inv(s, clock) && HoldsJob(s, claim, now) && Complete(s, cal, claim, res, now).Done?
    requires forall p | p in s.occs && s.occs[p].schedule == claim.jobId ::
               HasRoom(s, claim.jobId, s.occs[p].nominalDueAt)
    ensures Carries(s, claim.jobId, o) && o in Complete(s, cal, claim, res, now).store.occs
  {
    var job, t;
    o, job, t := CompletionShape(s, cal, clock, claim, res, now);
    WrittenStays(s, t, o);
  }

  // ---- after a call ---------------------------------------------------------------------------

  /** No more than a hundred of the schedule, and ten thousand in all, besides what is open or awaited. */
  ghost predicate IsShort(s: Store, schedule: Id) {
    && |set o | o in Prunable(s) && s.occs[o].schedule == schedule| <= 100
    && |Prunable(s)| <= 10_000
  }

  lemma PrunedIsShort(s: Store, schedule: Id)
    requires Distinct(s)
    ensures IsShort(PruneHistory(s, schedule), schedule)
  {
    var t := PruneHistory(s, schedule);
    HistoryIsBounded(s, schedule);
    assert (set o | o in Prunable(t) && t.occs[o].schedule == schedule) == Prunable(t) * OfSchedule(t, schedule);
  }

  /** A completion that settles its occurrence leaves its schedule's history short. */
  lemma CompletionPrunes(s: Store, clock: int, cal: Calendar, claim: Claim, res: Completion, now: int)
    requires Inv(s, clock) && HoldsJob(s, claim, now) && Complete(s, cal, claim, res, now).Done?
    requires res.ok || forall o | o in s.occs && s.occs[o].schedule == claim.jobId
                                  && s.occs[o].status == Status.Claimed :: s.occs[o].attempts >= claim.job.maxAttempts
    ensures IsShort(Complete(s, cal, claim, res, now).store, claim.jobId)
  {
    var o, job, t := CompletionShape(s, cal, clock, claim, res, now);
    assert Distinct(t);
    PrunedIsShort(t, claim.jobId);
  }

  /** Stepping over a missed due time leaves the schedule's history short. */
  lemma SkipPrunes(s: Store, clock: int, cal: Calendar, j: Id, now: int)
    requires Inv(s, clock) && clock <= now && j in s.jobs && DueJob(s.jobs[j], now) && SkipRow(s, cal, j, now).Done?
    ensures IsShort(SkipRow(s, cal, j, now).store, j)
  {
    var next := if s.jobs[j].trigger.kind.At? then Some(s.jobs[j].nextRunAt) else cal(s.jobs[j].trigger, now);
    PassedOverKeeps(s, j, next.value, clock, now);
    PrunedIsShort(PassedOver(s, j, next.value, now), j);
  }

  // ---- deliveries -----------------------------------------------------------------------------

  /** Deliveries sent or given up. */
  function Settled(s: Store): set<Id> {
    set d | d in s.dels && s.dels[d].row.status in {Outbox.Delivered, Outbox.Abandoned}
  }

  /** Those of one schedule, or those of none. */
  function SettledOf(s: Store, schedule: Option<Id>): set<Id> {
    set d | d in Settled(s) && IsOf(s.dels[d].origin, schedule)
  }

  predicate IsOf(origin: Origin, schedule: Option<Id>) {
    if schedule.Some? then origin.Scheduled? && origin.schedule == schedule.value else origin.Outbound?
  }

  lemma SettledExactly(s: Store, schedule: Option<Id>)
    ensures Settled(s) == AllSettledDeliveries(s)
    ensures SettledOf(s, schedule) == SettledDeliveries(s, schedule)
  {
  }

  function ByDeliveryUpdate(s: Store): Order<Id> {
    (x, y) => x in s.dels && y in s.dels
      && (s.dels[x].updatedAt > s.dels[y].updatedAt || (s.dels[x].updatedAt == s.dels[y].updatedAt && x > y))
  }

  lemma KeptAreFew(s: Store, rows: set<Id>, kept: set<Id>, n: nat)
    requires kept <= rows <= s.dels.Keys
    requires forall d | d in kept :: |FresherDeliveries(s, d, rows)| < n
    ensures |kept| <= n
  {
    assert Orders(ByDeliveryUpdate(s), rows);
    forall d | d in kept
      ensures |Ahead(ByDeliveryUpdate(s), rows, d)| < n
    {
      assert Ahead(ByDeliveryUpdate(s), rows, d) == FresherDeliveries(s, d, rows);
    }
    FewAreNearTheFront(ByDeliveryUpdate(s), rows, kept, n);
  }

  lemma KeptLatestAreFew(s: Store, ids: set<Id>, most: nat)
    requires ids <= s.dels.Keys
    ensures |ids * KeepLatest(s, ids, most).dels.Keys| <= most
  {
    KeptAreFew(s, ids, ids * KeepLatest(s, ids, most).dels.Keys, most);
  }

  /** What is left of a schedule's settled deliveries, and of all settled deliveries. */
  lemma DeliveriesAreBounded(s: Store, schedule: Option<Id>)
    ensures var t := PruneDeliveries(s, schedule);
      && |SettledOf(t, schedule)| <= 100
      && |Settled(t)| <= 10_000
  {
    var mine := SettledDeliveries(s, schedule);
    var s1 := KeepLatest(s, mine, 100);
    var all := AllSettledDeliveries(s1);
    var t := PruneDeliveries(s, schedule);
    SettledExactly(t, schedule);
    KeptLatestAreFew(s, mine, 100);
    KeptLatestAreFew(s1, all, 10_000);
    SubsetSize(SettledDeliveries(t, schedule), mine * s1.dels.Keys);
    SubsetSize(AllSettledDeliveries(t), all * t.dels.Keys);
  }

  /** The deliveries of a set updated later, the younger one first where that was at the same time. */
  ghost function SettledLater(s: Store, d: Id, ids: set<Id>): set<Id>
    requires d in s.dels && ids <= s.dels.Keys
  {
    set p | p in ids && (s.dels[p].updatedAt > s.dels[d].updatedAt
                         || (s.dels[p].updatedAt == s.dels[d].updatedAt && p > d))
  }

  /** What pruning keeps of the deliveries: those yet to be sent, and the latest of the settled ones. */
  lemma LatestDeliveriesStay(s: Store, schedule: Option<Id>, d: Id)
    requires d in s.dels
    requires s.dels[d].row.status in {Outbox.Queued, Outbox.Delivering}
             || ((IsOf(s.dels[d].origin, schedule) ==> |SettledLater(s, d, SettledOf(s, schedule))| < 100)
                 && |SettledLater(s, d, Settled(s))| < 10_000)
    ensures d in PruneDeliveries(s, schedule).dels && PruneDeliveries(s, schedule).dels[d] == s.dels[d]
  {
    var mine := SettledDeliveries(s, schedule);
    var s1 := KeepLatest(s, mine, 100);
    SettledExactly(s, schedule);
    assert SettledLater(s, d, SettledOf(s, schedule)) == FresherDeliveries(s, d, mine);
    if d in s1.dels {
      SubsetSize(FresherDeliveries(s1, d, AllSettledDeliveries(s1)), SettledLater(s, d, Settled(s)));
    }
  }

  /** The deliveries of a set updated at a time or later. */
  ghost function UpdatedSince(s: Store, ids: set<Id>, now: int): set<Id>
    requires ids <= s.dels.Keys
  {
    set p | p in ids && s.dels[p].updatedAt >= now
  }

  /** A delivery just settled stays on record while fewer were settled at that time or later. */
  lemma SettledDeliveryStays(s: Store, d: Id, token: Id, now: int)
    requires HoldsDelivery(s, d, token, now)
    requires |UpdatedSince(s, SettledOf(s, ScheduleOf(s.dels[d])), now)| < 100
    requires |UpdatedSince(s, Settled(s), now)| < 10_000
    ensures d in CompleteDelivery(s, d, token, now).0.dels && d in FailDelivery(s, d, token, now).0.dels
  {
    RewrittenStays(s, d, Outbox.TextComplete(s.dels[d].row), now);
    RewrittenStays(s, d, Outbox.TextFail(s.dels[d].row, now), now);
  }

  lemma RewrittenStays(s: Store, d: Id, row: Outbox.Row, now: int)
    requires d in s.dels
    requires |UpdatedSince(s, SettledOf(s, ScheduleOf(s.dels[d])), now)| < 100
    requires |UpdatedSince(s, Settled(s), now)| < 10_000
    ensures d in PruneAround(WithRow(s, d, row, now), s.dels[d]).dels
  {
    var t, schedule := WithRow(s, d, row, now), ScheduleOf(s.dels[d]);
    SubsetSize(SettledLater(t, d, SettledOf(t, schedule)), UpdatedSince(s, SettledOf(s, schedule), now));
    SubsetSize(SettledLater(t, d, Settled(t)), UpdatedSince(s, Settled(s), now));
    LatestDeliveriesStay(t, schedule, d);
  }

  /** Settling a delivery leaves few settled ones, of its schedule and in all; and so few occurrences. */
  ghost predicate AreShort(t: Store, schedule: Option<Id>) {
    && |SettledOf(t, schedule)| <= 100 && |Settled(t)| <= 10_000 && |Prunable(t)| <= 10_000
    && (schedule.Some? ==> IsShort(t, schedule.value))
  }

  lemma PruningAroundIsShort(s: Store, d: Delivery)
    requires Distinct(s)
    ensures AreShort(PruneAround(s, d), if d.origin.Scheduled? then Some(d.origin.schedule) else None)
  {
    var schedule := ScheduleOf(d);
    var t := PruneDeliveries(s, schedule);
    DeliveriesAreBounded(s, schedule);
    if d.origin.Scheduled? {
      PrunedIsShort(t, d.origin.schedule);
    } else {
      TableIsBounded(t);
    }
  }

  /** So it is after every accepted success, and after the failure that abandons a delivery. */
  lemma SettlingDeliveriesPrunes(s: Store, clock: int, d: Id, token: Id, now: int)
    requires Inv(s, clock) && HoldsDelivery(s, d, token, now)
    ensures
      var origin := s.dels[d].origin;
      var schedule := if origin.Scheduled? then Some(origin.schedule) else None;
      && AreShort(CompleteDelivery(s, d, token, now).0, schedule)
      && (s.dels[d].row.attempts >= 10 ==> AreShort(FailDelivery(s, d, token, now).0, schedule))
  {
    PruningAroundIsShort(WithRow(s, d, Outbox.TextComplete(s.dels[d].row), now), s.dels[d]);
    PruningAroundIsShort(WithRow(s, d, Outbox.TextFail(s.dels[d].row, now), now), s.dels[d]);
  }
}
