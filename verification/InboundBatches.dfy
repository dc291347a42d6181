/**
 Batching the text messages of each session. The reference is lists of messages: a message joins the
 group being collected when it fits, and otherwise starts the next one. The program keeps merged texts
 and counts instead, for all sessions in one map; both admit the same groups for delivery.
 */
module InboundBatches {
  import opened Wrappers
  import opened InboundText

  /** A message with the waiter of its arrival, which is settled when its group is delivered. */
  datatype Arrival = Arrival(message: Message, waiter: nat)

  datatype Batch = Batch(message: Message, count: nat, lastChunk: nat, waiters: seq<nat>)

  /** A call of deliverInOrder: the message and whom its outcome is passed on to. */
  datatype Admission = Admission(key: string, message: Message, waiters: seq<nat>)

  datatype Limits = Limits(messages: nat, chars: nat)

  datatype State = State(batches: map<string, Batch>, admitted: seq<Admission>)

  datatype Event =
    | Arrived(arrival: Arrival)
    | TimerFired(key: string)

  const Empty := State(map[], [])

  function KeyOf(arrival: Arrival): string {
    arrival.message.source.owner
  }

  // ---- the program's state --------------------------------------------------------------------

  function Flushed(s: State, key: string): State {
    if key !in s.batches then s
    else State(s.batches - {key}, s.admitted + [Admission(key, s.batches[key].message, s.batches[key].waiters)])
  }

  function Started(a: Arrival): Batch {
    Batch(a.message, 1, |a.message.text|, [a.waiter])
  }

  function Extended(b: Batch, a: Arrival): Batch {
    Batch(
      b.message.(
        text := MergeBatchText(b.message.text, a.message.text),
        timestamp := a.message.timestamp,
        source := a.message.source,
        raw := a.message.raw),
      b.count + 1, |a.message.text|, b.waiters + [a.waiter])
  }

  predicate Fits(b: Batch, a: Arrival, limits: Limits) {
    && BatchCompatible(b.message, a.message)
    && b.count + 1 <= limits.messages
    && |MergeBatchText(b.message.text, a.message.text)| <= limits.chars
  }

  function Joined(s: State, a: Arrival): State {
    var key := KeyOf(a);
    s.(batches := s.batches[key := if key in s.batches then Extended(s.batches[key], a) else Started(a)])
  }

  function Enqueued(s: State, a: Arrival, limits: Limits): State {
    var key := KeyOf(a);
    Joined(if key in s.batches && !Fits(s.batches[key], a, limits) then Flushed(s, key) else s, a)
  }

  function After(s: State, e: Event, limits: Limits): State {
    match e
    case Arrived(a) => Enqueued(s, a, limits)
    case TimerFired(key) => Flushed(s, key)
  }

  function Run(events: seq<Event>, limits: Limits): State {
    if events == [] then Empty else After(Run(events[..|events| - 1], limits), events[|events| - 1], limits)
  }

  /** The text of two messages, one to a line unless one of them is empty. */
  function TwoLines(one: string, other: string): string {
    if one == "" then other else if other == "" then one else one + "\n" + other
  }

  predicate Takes(b: Batch, a: Arrival, limits: Limits) {
    && SameThread(b.message, a.message)
    && b.count < limits.messages
    && |TwoLines(b.message.text, a.message.text)| <= limits.chars
  }

  ghost predicate IsTakenInto(b: Batch, before: Batch, a: Arrival) {
    && b.message.text == TwoLines(before.message.text, a.message.text)
    && b.message.source == a.message.source && b.message.timestamp == a.message.timestamp
    && b.message.raw == a.message.raw
    && b.message.replyToId == before.message.replyToId && b.message.replyToText == before.message.replyToText
    && b.message.isText == before.message.isText
    && b.count == before.count + 1 && b.lastChunk == |a.message.text| && b.waiters == before.waiters + [a.waiter]
  }

  /** The adapter's map of batches, and the deliveries it has admitted. */
  class TextBatches {
    const limits: Limits
    var batches: map<string, Batch>
    var admitted: seq<Admission>

    function Value(): State
      reads this
    {
      State(batches, admitted)
    }

    constructor (limits: Limits)
      ensures Value() == Empty && this.limits == limits
    {
      this.limits := limits;
      batches, admitted := map[], [];
    }

    method FlushTextBatch(key: string)
      modifies this
      ensures Value() == Flushed(old(Value()), key)
    {
      if key !in batches {
        return;
      }
      var batch := batches[key];
      batches := batches - {key};
      admitted := admitted + [Admission(key, batch.message, batch.waiters)];
    }

    /**
     The message joins the batch of its session when thread and reply are the same and both limits allow
     it; otherwise that batch is admitted for delivery and the message starts the next one.
     */
    method EnqueueTextBatch(a: Arrival)
      modifies this
      ensures Value() == Enqueued(old(Value()), a, limits)
      ensures
        var key := a.message.source.owner;
        && key in batches && batches.Keys == old(batches.Keys) + {key}
        && (forall k | k in old(batches) && k != key :: batches[k] == old(batches)[k])
        && if key in old(batches) && Takes(old(batches)[key], a, limits)
           then admitted == old(admitted) && IsTakenInto(batches[key], old(batches)[key], a)
           else
             && batches[key] == Batch(a.message, 1, |a.message.text|, [a.waiter])
             && admitted == old(admitted) + if key !in old(batches) then []
                                            else [Admission(key, old(batches)[key].message, old(batches)[key].waiters)]
    {
      var key := KeyOf(a);
      if key in batches && !BatchCompatible(batches[key].message, a.message) {
        FlushTextBatch(key);
      }
      if key in batches {
        var current := batches[key];
        var nextText := MergeBatchText(current.message.text, a.message.text);
        if current.count + 1 > limits.messages || |nextText| > limits.chars {
          FlushTextBatch(key);
        }
      }
      if key !in batches {
        batches := batches[key := Batch(a.message, 1, |a.message.text|, [a.waiter])];
      } else {
        var pending := batches[key];
        var message := pending.message;
        message := message.(text := MergeBatchText(message.text, a.message.text));
        message := message.(timestamp := a.message.timestamp);
        message := message.(source := a.message.source);
        message := message.(raw := a.message.raw);
        batches := batches[key := Batch(message, pending.count + 1, |a.message.text|, pending.waiters + [a.waiter])];
      }
    }
  }

  // ---- the reference: lists of messages --------------------------------------------------------

  function MessagesOf(group: seq<Arrival>): (messages: seq<Message>)
    ensures |messages| == |group| && forall i | 0 <= i < |group| :: messages[i] == group[i].message
  {
    seq(|group|, i requires 0 <= i < |group| => group[i].message)
  }

  function WaitersOf(group: seq<Arrival>): (waiters: seq<nat>)
    ensures |waiters| == |group| && forall i | 0 <= i < |group| :: waiters[i] == group[i].waiter
  {
    seq(|group|, i requires 0 <= i < |group| => group[i].waiter)
  }

  /** The groups closed so far, and the one being collected. */
  datatype Grouping = Grouping(closed: seq<seq<Arrival>>, pending: seq<Arrival>)

  function Closed(g: Grouping): Grouping {
    if g.pending == [] then g else Grouping(g.closed + [g.pending], [])
  }

  /** The message may join the group: same thread and reply, and the result within both limits. */
  predicate MayJoin(group: seq<Arrival>, a: Arrival, limits: Limits)
    requires group != []
  {
    && BatchCompatible(group[0].message, a.message)
    && |group + [a]| <= limits.messages
    && |MergedText(MessagesOf(group + [a]))| <= limits.chars
  }

  function Collected(g: Grouping, a: Arrival, limits: Limits): Grouping {
    var g' := if g.pending != [] && !MayJoin(g.pending, a, limits) then Closed(g) else g;
    g'.(pending := g'.pending + [a])
  }

  /** The grouping of one session's messages. */
  function Grouped(events: seq<Event>, key: string, limits: Limits): Grouping {
    if events == [] then Grouping([], [])
    else
      var before := Grouped(events[..|events| - 1], key, limits);
      match events[|events| - 1]
      case Arrived(a) => if KeyOf(a) == key then Collected(before, a, limits) else before
      case TimerFired(k) => if k == key then Closed(before) else before
  }

  function ArrivalsOf(events: seq<Event>, key: string): seq<Arrival> {
    if events == [] then []
    else
      var before, last := ArrivalsOf(events[..|events| - 1], key), events[|events| - 1];
      if last.Arrived? && KeyOf(last.arrival) == key then before + [last.arrival] else before
  }

  function Flatten(groups: seq<seq<Arrival>>): seq<Arrival> {
    if groups == [] then [] else Flatten(groups[..|groups| - 1]) + groups[|groups| - 1]
  }

  /** A group of one session, batched rightly: one thread and reply, and in the limits unless single. */
  ghost predicate GoodGroup(group: seq<Arrival>, key: string, limits: Limits) {
    && group != []
    && (forall i | 0 <= i < |group| ::
          group[i].message.source.owner == key && SameThread(group[0].message, group[i].message))
    && (|group| > 1 ==> |group| <= limits.messages && |MergedText(MessagesOf(group))| <= limits.chars)
  }

  ghost predicate GoodGrouping(g: Grouping, key: string, limits: Limits) {
    && (forall i | 0 <= i < |g.closed| :: GoodGroup(g.closed[i], key, limits))
    && (g.pending != [] ==> GoodGroup(g.pending, key, limits))
  }

  lemma FlattenMore(groups: seq<seq<Arrival>>, group: seq<Arrival>)
    ensures Flatten(groups + [group]) == Flatten(groups) + group
  {
    assert (groups + [group])[..|groups|] == groups;
  }

  lemma ClosingKeeps(g: Grouping, key: string, limits: Limits)
    requires GoodGrouping(g, key, limits)
    ensures GoodGrouping(Closed(g), key, limits)
    ensures Flatten(Closed(g).closed) + Closed(g).pending == Flatten(g.closed) + g.pending
  {
    if g.pending != [] {
      FlattenMore(g.closed, g.pending);
    }
  }

  lemma CollectingKeeps(g: Grouping, a: Arrival, key: string, limits: Limits)
    requires GoodGrouping(g, key, limits) && KeyOf(a) == key
    ensures GoodGrouping(Collected(g, a, limits), key, limits)
    ensures Flatten(Collected(g, a, limits).closed) + Collected(g, a, limits).pending ==
              Flatten(g.closed) + g.pending + [a]
  {
    ClosingKeeps(g, key, limits);
    if g.pending != [] && MayJoin(g.pending, a, limits) {
      assert Flatten(g.closed) + (g.pending + [a]) == Flatten(g.closed) + g.pending + [a];
    }
  }

  /** A session's groups are its arrivals, in order, none lost and none twice; and each is well made. */
  lemma {:induction false} GroupingConserves(events: seq<Event>, key: string, limits: Limits)
    ensures GoodGrouping(Grouped(events, key, limits), key, limits)
    ensures var g := Grouped(events, key, limits); Flatten(g.closed) + g.pending == ArrivalsOf(events, key)
  {
    if events != [] {
      var before := events[..|events| - 1];
      GroupingConserves(before, key, limits);
      var g := Grouped(before, key, limits);
      match events[|events| - 1]
      case Arrived(a) =>
        if KeyOf(a) == key {
          CollectingKeeps(g, a, key, limits);
        }
      case TimerFired(k) =>
        ClosingKeeps(g, key, limits);
    }
  }

  // ---- the program refines the reference -------------------------------------------------------

  function AdmissionOf(group: seq<Arrival>, key: string): Admission
    requires group != []
  {
    Admission(key, Folded(MessagesOf(group)), WaitersOf(group))
  }

  function BatchOf(group: seq<Arrival>): Batch
    requires group != []
  {
    Batch(Folded(MessagesOf(group)), |group|, |group[|group| - 1].message.text|, WaitersOf(group))
  }

  function AdmissionsOf(groups: seq<seq<Arrival>>, key: string): seq<Admission>
    requires forall i | 0 <= i < |groups| :: groups[i] != []
  {
    seq(|groups|, i requires 0 <= i < |groups| => AdmissionOf(groups[i], key))
  }

  /** The deliveries admitted for one session. */
  function Of(admitted: seq<Admission>, key: string): seq<Admission> {
    if admitted == [] then []
    else
      var before, last := Of(admitted[..|admitted| - 1], key), admitted[|admitted| - 1];
      if last.key == key then before + [last] else before
  }

  ghost predicate Represents(s: State, g: Grouping, key: string, limits: Limits) {
    && GoodGrouping(g, key, limits)
    && Of(s.admitted, key) == AdmissionsOf(g.closed, key)
    && (key in s.batches <==> g.pending != [])
    && (key in s.batches ==> s.batches[key] == BatchOf(g.pending))
  }

  lemma OfMore(admitted: seq<Admission>, last: Admission, key: string)
    ensures Of(admitted + [last], key) == if last.key == key then Of(admitted, key) + [last] else Of(admitted, key)
  {
    assert (admitted + [last])[..|admitted|] == admitted;
  }

  lemma AdmissionsMore(groups: seq<seq<Arrival>>, group: seq<Arrival>, key: string)
    requires group != [] && forall i | 0 <= i < |groups| :: groups[i] != []
    ensures AdmissionsOf(groups + [group], key) == AdmissionsOf(groups, key) + [AdmissionOf(group, key)]
  {
  }

  lemma FlushRefines(s: State, g: Grouping, key: string, limits: Limits, flushed: string)
    requires Represents(s, g, key, limits)
    ensures Represents(Flushed(s, flushed), if flushed == key then Closed(g) else g, key, limits)
  {
    ClosingKeeps(g, key, limits);
    if flushed in s.batches {
      OfMore(s.admitted, Admission(flushed, s.batches[flushed].message, s.batches[flushed].waiters), key);
      if flushed == key {
        AdmissionsMore(g.closed, g.pending, key);
      }
    }
  }

  /** Extending the merged batch is merging the extended group. */
  lemma ExtendRefines(group: seq<Arrival>, a: Arrival)
    requires group != []
    ensures Extended(BatchOf(group), a) == BatchOf(group + [a])
    ensures MergedText(MessagesOf(group + [a])) == MergeBatchText(MergedText(MessagesOf(group)), a.message.text)
  {
    var messages := MessagesOf(group + [a]);
    assert messages[..|messages| - 1] == MessagesOf(group);
    assert WaitersOf(group + [a]) == WaitersOf(group) + [a.waiter];
  }

  lemma FitsAreMayJoin(group: seq<Arrival>, a: Arrival, key: string, limits: Limits)
    requires GoodGroup(group, key, limits)
    ensures Fits(BatchOf(group), a, limits) <==> MayJoin(group, a, limits)
  {
    ExtendRefines(group, a);
    assert BatchCompatible(group[0].message, group[|group| - 1].message);
  }

  lemma StartRefines(a: Arrival)
    ensures Started(a) == BatchOf([a])
  {
    var messages := MessagesOf([a]);
    assert messages[..0] == [] && MergedText(messages[..0]) == "";
    assert WaitersOf([a]) == [a.waiter];
  }

  lemma JoinRefines(s: State, g: Grouping, a: Arrival, key: string, limits: Limits)
    requires Represents(s, g, key, limits) && KeyOf(a) == key
    requires GoodGroup(g.pending + [a], key, limits)
    ensures Represents(Joined(s, a), g.(pending := g.pending + [a]), key, limits)
  {
    if g.pending == [] {
      StartRefines(a);
      assert g.pending + [a] == [a];
    } else {
      ExtendRefines(g.pending, a);
    }
  }

  lemma EnqueueRefines(s: State, g: Grouping, a: Arrival, key: string, limits: Limits)
    requires Represents(s, g, key, limits)
    ensures Represents(Enqueued(s, a, limits), if KeyOf(a) == key then Collected(g, a, limits) else g, key, limits)
  {
    if KeyOf(a) == key {
      CollectingKeeps(g, a, key, limits);
      FlushRefines(s, g, key, limits, key);
      if g.pending != [] {
        FitsAreMayJoin(g.pending, a, key, limits);
      }
      if g.pending != [] && !MayJoin(g.pending, a, limits) {
        JoinRefines(Flushed(s, key), Closed(g), a, key, limits);
      } else {
        JoinRefines(s, g, a, key, limits);
      }
    } else {
      FlushRefines(s, g, key, limits, KeyOf(a));
    }
  }

  /** After any arrivals and timers, the program's state is the reference's, for every session. */
  lemma {:induction false} BatchingRefines(events: seq<Event>, key: string, limits: Limits)
    ensures Represents(Run(events, limits), Grouped(events, key, limits), key, limits)
  {
    if events != [] {
      var before, last := events[..|events| - 1], events[|events| - 1];
      BatchingRefines(before, key, limits);
      var s, g := Run(before, limits), Grouped(before, key, limits);
      match last
      case Arrived(a) => EnqueueRefines(s, g, a, key, limits);
      case TimerFired(k) => FlushRefines(s, g, key, limits, k);
    }
  }

  function AllWaiters(admissions: seq<Admission>): seq<nat> {
    if admissions == [] then [] else AllWaiters(admissions[..|admissions| - 1]) + admissions[|admissions| - 1].waiters
  }

  lemma {:induction false} WaitersFlatten(groups: seq<seq<Arrival>>, key: string)
    requires forall i | 0 <= i < |groups| :: groups[i] != []
    ensures AllWaiters(AdmissionsOf(groups, key)) == WaitersOf(Flatten(groups))
  {
    if groups != [] {
      var before, last := groups[..|groups| - 1], groups[|groups| - 1];
      WaitersFlatten(before, key);
      assert AdmissionsOf(groups, key)[..|groups| - 1] == AdmissionsOf(before, key);
    }
  }

  lemma {:induction false} RepresentedWaiters(s: State, g: Grouping, key: string, limits: Limits)
    requires Represents(s, g, key, limits)
    ensures AllWaiters(Of(s.admitted, key)) + (if key in s.batches then s.batches[key].waiters else [])
         == WaitersOf(Flatten(g.closed) + g.pending)
  {
    WaitersFlatten(g.closed, key);
    WaitersAppend(Flatten(g.closed), g.pending);
    assert WaitersOf(Flatten(g.closed)) + [] == WaitersOf(Flatten(g.closed));
  }

  lemma WaitersAppend(one: seq<Arrival>, other: seq<Arrival>)
    ensures WaitersOf(one + other) == WaitersOf(one) + WaitersOf(other)
  {
  }

  lemma RepresentedDeliveries(s: State, g: Grouping, key: string, limits: Limits, i: nat)
    requires Represents(s, g, key, limits) && i < |Of(s.admitted, key)|
    ensures i < |g.closed| && GoodGroup(g.closed[i], key, limits)
    ensures Of(s.admitted, key)[i] == AdmissionOf(g.closed[i], key)
  {
  }

  /** Every waiter of a session is pending with its message, or in the one delivery that carries it, in order. */
  lemma WaitersConserved(events: seq<Event>, key: string, limits: Limits)
    ensures var s := Run(events, limits);
      AllWaiters(Of(s.admitted, key)) + (if key in s.batches then s.batches[key].waiters else [])
      == WaitersOf(ArrivalsOf(events, key))
  {
    BatchingRefines(events, key, limits);
    GroupingConserves(events, key, limits);
    RepresentedWaiters(Run(events, limits), Grouped(events, key, limits), key, limits);
  }

  /**
   Every delivery is the one message the next stretch of arrivals becomes, field by field, with the
   waiters of all of them, and that stretch is a well-made group.
   */
  lemma DeliveriesAreGroups(events: seq<Event>, key: string, limits: Limits, s: State, i: nat)
    requires s == Run(events, limits) && i < |Of(s.admitted, key)|
    ensures var closed, delivery := Grouped(events, key, limits).closed, Of(s.admitted, key)[i];
      && |closed| == |Of(s.admitted, key)|
      && GoodGroup(closed[i], key, limits)
      && delivery.key == key && Becomes(MessagesOf(closed[i]), delivery.message)
      && delivery.waiters == WaitersOf(closed[i])
      && Flatten(closed) <= ArrivalsOf(events, key)
  {
    var g := Grouped(events, key, limits);
    BatchingRefines(events, key, limits);
    GroupingConserves(events, key, limits);
    RepresentedDeliveries(s, g, key, limits, i);
    FoldedExactly(MessagesOf(g.closed[i]), Folded(MessagesOf(g.closed[i])));
  }
}
