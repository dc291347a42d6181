/**
 The duplicate check: an insertion-ordered map from message ids to the times they were accepted, with a
 time to live and a bound on its size. Under a clock that does not run backwards the purge may stop at
 the first live entry, and what counts as a duplicate is exactly what a full history would say.
 */
module InboundDedup {
  const TTL: nat := 24 * 60 * 60 * 1000
  const MAX_ENTRIES: nat := 10_000

  datatype Entry = Entry(id: string, ts: nat)

  /** The entries of the map in the order of their insertion. */
  type Entries = seq<Entry>

  predicate IsFresh(e: Entry, now: nat) {
    now - e.ts <= TTL
  }

  predicate Knows(entries: Entries, id: string) {
    exists i :: 0 <= i < |entries| && entries[i].id == id
  }

  /** The full filter: every entry that is still fresh. */
  function FreshOnly(entries: Entries, now: nat): Entries {
    if entries == [] then []
    else (if IsFresh(entries[0], now) then [entries[0]] else []) + FreshOnly(entries[1..], now)
  }

  function Without(entries: Entries, id: string): Entries {
    if entries == [] then []
    else (if entries[0].id == id then [] else [entries[0]]) + Without(entries[1..], id)
  }

  function Evicted(entries: Entries): Entries {
    if |entries| > MAX_ENTRIES then entries[|entries| - MAX_ENTRIES..] else entries
  }

  function Added(entries: Entries, id: string, now: nat): Entries {
    Evicted(entries + [Entry(id, now)])
  }

  function Checked(entries: Entries, id: string, now: nat): (Entries, bool) {
    var live := FreshOnly(entries, now);
    if Knows(live, id) then (live, true) else (Added(live, id, now), false)
  }

  /** In the order of time, none after `clock`, no id twice, and no more than the bound. */
  ghost predicate Ordered(entries: Entries, clock: nat) {
    && (forall i, j | 0 <= i < j < |entries| :: entries[i].ts <= entries[j].ts && entries[i].id != entries[j].id)
    && (forall i | 0 <= i < |entries| :: entries[i].ts <= clock)
    && |entries| <= 10_000
  }

  // ---- the purge ------------------------------------------------------------------------------

  /** In an ordered map the fresh entries are the ones from the first fresh one on. */
  lemma {:induction false} FreshSuffix(entries: Entries, now: nat, n: nat)
    requires n <= |entries|
    requires forall i, j | 0 <= i < j < |entries| :: entries[i].ts <= entries[j].ts
    requires forall i | 0 <= i < n :: !IsFresh(entries[i], now)
    requires n < |entries| ==> IsFresh(entries[n], now)
    ensures FreshOnly(entries, now) == entries[n..]
    decreases |entries|
  {
    if entries != [] {
      FreshSuffix(entries[1..], now, if n == 0 then 0 else n - 1);
      if n == 0 {
        if |entries| > 1 {
          assert IsFresh(entries[1], now);
        }
        assert entries == [entries[0]] + entries[1..];
      } else {
        assert entries[1..][n - 1..] == entries[n..];
      }
    }
  }

  lemma {:induction false} FreshOnlyKeeps(entries: Entries, now: nat)
    ensures forall e :: e in FreshOnly(entries, now) <==> e in entries && IsFresh(e, now)
  {
    if entries != [] {
      FreshOnlyKeeps(entries[1..], now);
      assert entries == [entries[0]] + entries[1..];
    }
  }

  /** Somewhere the fresh entries of an ordered map begin. */
  lemma FirstFresh(entries: Entries, now: nat, clock: nat) returns (n: nat)
    requires Ordered(entries, clock)
    ensures n <= |entries| && FreshOnly(entries, now) == entries[n..]
  {
    n := 0;
    while n < |entries| && !IsFresh(entries[n], now)
      invariant 0 <= n <= |entries| && forall i | 0 <= i < n :: !IsFresh(entries[i], now)
    {
      n := n + 1;
    }
    FreshSuffix(entries, now, n);
  }

  // ---- the invariant --------------------------------------------------------------------------

  lemma FreshKeepsOrder(entries: Entries, now: nat, clock: nat)
    requires Ordered(entries, clock) && clock <= now
    ensures Ordered(FreshOnly(entries, now), now)
  {
    var n := FirstFresh(entries, now, clock);
  }

  lemma AddingKeepsOrder(live: Entries, id: string, now: nat)
    requires Ordered(live, now) && !Knows(live, id)
    ensures Ordered(Added(live, id, now), now)
  {
    var longer := live + [Entry(id, now)];
    if |live| == MAX_ENTRIES {
      assert Added(live, id, now) == longer[1..];
    } else {
      assert Added(live, id, now) == longer;
    }
  }

  lemma CheckKeepsOrder(entries: Entries, id: string, now: nat, clock: nat)
    requires Ordered(entries, clock) && clock <= now
    ensures Ordered(Checked(entries, id, now).0, now)
  {
    FreshKeepsOrder(entries, now, clock);
    if !Knows(FreshOnly(entries, now), id) {
      AddingKeepsOrder(FreshOnly(entries, now), id, now);
    }
  }

  lemma {:induction false} WithoutEntries(entries: Entries, id: string)
    ensures forall e :: e in Without(entries, id) <==> e in entries && e.id != id
    ensures |Without(entries, id)| <= |entries|
  {
    if entries != [] {
      WithoutEntries(entries[1..], id);
      assert entries == [entries[0]] + entries[1..];
    }
  }

  lemma ConsKeepsOrder(first: Entry, rest: Entries, clock: nat)
    requires Ordered(rest, clock) && first.ts <= clock && |rest| < MAX_ENTRIES
    requires forall i | 0 <= i < |rest| :: first.ts <= rest[i].ts && first.id != rest[i].id
    ensures Ordered([first] + rest, clock)
  {
  }

  lemma {:induction false} WithoutKeepsOrder(entries: Entries, id: string, clock: nat)
    requires Ordered(entries, clock)
    ensures Ordered(Without(entries, id), clock)
  {
    if entries != [] {
      var first, rest := entries[0], Without(entries[1..], id);
      WithoutKeepsOrder(entries[1..], id, clock);
      WithoutEntries(entries[1..], id);
      forall i | 0 <= i < |rest| ensures first.ts <= rest[i].ts && first.id != rest[i].id {
        assert rest[i] in entries[1..];
        var k :| 0 <= k < |entries| - 1 && entries[1..][k] == rest[i];
        assert entries[k + 1] == rest[i];
      }
      if first.id != id {
        ConsKeepsOrder(first, rest, clock);
      } else {
        assert Without(entries, id) == rest;
      }
    }
  }

  // ---- the program ----------------------------------------------------------------------------

  class Dedup {
    var entries: Entries
    ghost var clock: nat

    ghost predicate Valid()
      reads this
    {
      Ordered(entries, clock)
    }

    constructor ()
      ensures Valid() && entries == [] && clock == 0
    {
      entries, clock := [], 0;
    }

    /** Deletes from the front until the first fresh entry: the same as deleting every expired one. */
    method PurgeDedup(now: nat)
      requires Valid() && clock <= now
      modifies this
      ensures Valid() && clock == now
      ensures entries == FreshOnly(old(entries), now)
    {
      ghost var all := entries;
      ghost var n := 0;
      while entries != []
        invariant n <= |all| && entries == all[n..]
        invariant forall i | 0 <= i < n :: !IsFresh(all[i], now)
        invariant Valid() && clock == old(clock)
        decreases |entries|
      {
        if IsFresh(entries[0], now) {
          break;
        }
        assert all[n..][1..] == all[n + 1..];
        entries := entries[1..];
        n := n + 1;
      }
      FreshSuffix(all, now, n);
      clock := now;
    }

    /** Deletes from the front while the bound is exceeded. */
    method Evict()
      requires |entries| <= MAX_ENTRIES + 1
      modifies this`entries
      ensures entries == Evicted(old(entries))
    {
      while |entries| > MAX_ENTRIES
        invariant entries == old(entries) || (|old(entries)| == MAX_ENTRIES + 1 && entries == old(entries)[1..])
        decreases |entries|
      {
        entries := entries[1..];
      }
    }

    method IsDuplicate(id: string, now: nat) returns (duplicate: bool)
      requires Valid() && clock <= now
      modifies this
      ensures Valid() && clock == now
      ensures entries == Checked(old(entries), id, now).0 && duplicate == Checked(old(entries), id, now).1
    {
      PurgeDedup(now);
      if Knows(entries, id) {
        return true;
      }
      AddingKeepsOrder(entries, id, now);
      entries := entries + [Entry(id, now)];
      Evict();
      return false;
    }

    method ForgetDedup(id: string)
      requires Valid()
      modifies this`entries
      ensures Valid()
      ensures entries == if id == "" then old(entries) else Without(old(entries), id)
    {
      WithoutKeepsOrder(entries, id, clock);
      if id != "" {
        entries := Without(entries, id);
      }
    }
  }

  // ---- whole histories ------------------------------------------------------------------------

  datatype Event =
    | Check(id: string, now: nat)
    | Forget(id: string)

  function After(entries: Entries, e: Event): Entries {
    match e
    case Check(id, now) => Checked(entries, id, now).0
    case Forget(id) => if id == "" then entries else Without(entries, id)
  }

  function Run(events: seq<Event>): Entries {
    if events == [] then [] else After(Run(events[..|events| - 1]), events[|events| - 1])
  }

  function Clock(events: seq<Event>): nat {
    if events == [] then 0
    else
      var last := events[|events| - 1];
      if last.Check? then last.now else Clock(events[..|events| - 1])
  }

  /** The checks are made at times that do not go back. */
  ghost predicate Forward(events: seq<Event>) {
    events != [] ==>
      var before, last := events[..|events| - 1], events[|events| - 1];
      Forward(before) && (last.Check? ==> Clock(before) <= last.now)
  }

  lemma {:induction false} RunsAreOrdered(events: seq<Event>)
    requires Forward(events)
    ensures Ordered(Run(events), Clock(events))
  {
    if events != [] {
      var before, last := events[..|events| - 1], events[|events| - 1];
      RunsAreOrdered(before);
      match last
      case Check(id, now) => CheckKeepsOrder(Run(before), id, now, Clock(before));
      case Forget(id) => WithoutKeepsOrder(Run(before), id, Clock(before));
    }
  }

  /** Event `i` accepted the id, at this time. */
  ghost predicate Accepts(events: seq<Event>, i: nat, id: string, ts: nat) {
    && i < |events| && events[i] == Check(id, ts)
    && !Knows(FreshOnly(Run(events[..i]), ts), id)
  }

  /** Event `j` pushes the id out: another is accepted while the map is full and this one the oldest. */
  ghost predicate Evicts(events: seq<Event>, j: nat, id: string) {
    && j < |events| && events[j].Check?
    && var live := FreshOnly(Run(events[..j]), events[j].now);
       && !Knows(live, events[j].id) && |live| == 10_000 && live[0].id == id
  }

  /** Event `j` makes the map lose the id before its time. */
  ghost predicate Disturbs(events: seq<Event>, j: nat, id: string)
    requires j < |events|
  {
    (id != "" && events[j] == Forget(id)) || Evicts(events, j, id)
  }

  /** From event `i` on, the id has neither been forgotten nor pushed out. */
  ghost predicate Undisturbed(events: seq<Event>, i: nat, id: string) {
    forall j: nat | i < j < |events| :: !Disturbs(events, j, id)
  }

  /** The history remembers the id: accepted, not expired since, neither forgotten nor pushed out. */
  ghost predicate Remembers(events: seq<Event>, e: Entry) {
    exists i: nat :: Accepts(events, i, e.id, e.ts) && Undisturbed(events, i, e.id)
  }

  lemma AddedEntries(live: Entries, id: string, now: nat, e: Entry)
    requires Ordered(live, now) && !Knows(live, id)
    ensures e in Added(live, id, now) <==>
      (e == Entry(id, now) || e in live) && !(|live| == 10_000 && e.id == live[0].id)
  {
    var longer := live + [Entry(id, now)];
    if |live| == MAX_ENTRIES {
      assert Added(live, id, now) == longer[1..];
      assert longer == [live[0]] + longer[1..];
      assert !Knows(live, id) ==> live[0].id != id;
      forall k | 0 < k < |longer| ensures longer[k].id != live[0].id {
        assert k < |live| ==> live[0].id != live[k].id;
      }
      assert e in longer <==> e == live[0] || e in longer[1..];
      assert e in longer <==> e == Entry(id, now) || e in live;
      if e in longer[1..] {
        var k :| 0 <= k < |longer| - 1 && longer[1..][k] == e;
        assert longer[k + 1] == e;
      } else {
        assert e in longer ==> e.id == live[0].id;
      }
    } else {
      assert Added(live, id, now) == longer;
    }
  }

  lemma CheckedEntries(entries: Entries, id: string, now: nat, clock: nat, e: Entry)
    requires Ordered(entries, clock) && clock <= now
    ensures var live := FreshOnly(entries, now);
      e in Checked(entries, id, now).0 <==>
        if Knows(live, id) then e in live
        else (e == Entry(id, now) || e in live) && !(|live| == 10_000 && e.id == live[0].id)
  {
    FreshKeepsOrder(entries, now, clock);
    if !Knows(FreshOnly(entries, now), id) {
      AddedEntries(FreshOnly(entries, now), id, now, e);
    }
  }

  lemma SameDisturbance(events: seq<Event>, last: Event, j: nat, id: string)
    requires j < |events|
    ensures Disturbs(events + [last], j, id) <==> Disturbs(events, j, id)
  {
    assert (events + [last])[..j] == events[..j];
  }

  lemma Earlier(events: seq<Event>, last: Event, i: nat, id: string, ts: nat)
    requires i < |events|
    ensures Accepts(events + [last], i, id, ts) <==> Accepts(events, i, id, ts)
    ensures Undisturbed(events + [last], i, id) <==>
              Undisturbed(events, i, id) && !Disturbs(events + [last], |events|, id)
  {
    var all := events + [last];
    assert all[..i] == events[..i];
    forall j: nat | i < j < |events| ensures Disturbs(all, j, id) <==> Disturbs(events, j, id) {
      SameDisturbance(events, last, j, id);
    }
  }

  lemma RemembersStep(events: seq<Event>, last: Event, e: Entry)
    ensures Remembers(events + [last], e) <==>
      || Accepts(events + [last], |events|, e.id, e.ts)
      || (Remembers(events, e) && !Disturbs(events + [last], |events|, e.id))
  {
    var all := events + [last];
    if Remembers(all, e) {
      var i: nat :| Accepts(all, i, e.id, e.ts) && Undisturbed(all, i, e.id);
      if i < |events| {
        Earlier(events, last, i, e.id, e.ts);
      }
    }
    if Remembers(events, e) {
      var i: nat :| Accepts(events, i, e.id, e.ts) && Undisturbed(events, i, e.id);
      Earlier(events, last, i, e.id, e.ts);
    }
    if Accepts(all, |events|, e.id, e.ts) {
      assert Undisturbed(all, |events|, e.id);
    }
  }

  /** The map holds exactly what the history remembers and is not yet known to be expired. */
  lemma {:induction false} MapIsHistory(events: seq<Event>, e: Entry)
    requires Forward(events)
    ensures e in Run(events) <==> Remembers(events, e) && IsFresh(e, Clock(events))
  {
    if events != [] {
      var before, last := events[..|events| - 1], events[|events| - 1];
      assert before + [last] == events && events[..|before|] == before;
      MapIsHistory(before, e);
      RunsAreOrdered(before);
      RemembersStep(before, last, e);
      match last
      case Check(id, now) =>
        CheckedEntries(Run(before), id, now, Clock(before), e);
        FreshOnlyKeeps(Run(before), now);
      case Forget(id) =>
        WithoutEntries(Run(before), id);
    }
  }

  /**
   A message is a duplicate exactly when its id was accepted within the time to live and has since been
   neither forgotten nor pushed out by ten thousand newer ones.
   */
  lemma DuplicateExactly(events: seq<Event>, id: string, now: nat)
    requires Forward(events) && Clock(events) <= now
    ensures Checked(Run(events), id, now).1 <==>
              exists ts: nat :: Remembers(events, Entry(id, ts)) && now - ts <= 86_400_000
  {
    FreshOnlyKeeps(Run(events), now);
    var live := FreshOnly(Run(events), now);
    if Knows(live, id) {
      var i :| 0 <= i < |live| && live[i].id == id;
      assert live[i] in live;
      MapIsHistory(events, live[i]);
      assert live[i] == Entry(id, live[i].ts);
    }
    if ts: nat :| Remembers(events, Entry(id, ts)) && now - ts <= TTL {
      MapIsHistory(events, Entry(id, ts));
      assert Entry(id, ts) in live;
    }
  }
}
