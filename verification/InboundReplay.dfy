/**
 The queue of messages that arrive while the adapter cannot dispatch, and its replay in groups. At most
 a thousand messages are held, counting those being delivered; every one of them is settled exactly
 once, and they leave the queue in the order they came.
 */
module InboundReplay {
  import opened Wrappers
  import opened InboundText
  import opened InboundBatches

  const MAX_PENDING_INBOUND: nat := 1000

  datatype Outcome = Resolved | Rejected | Dropped | Refused | Cancelled

  datatype Settlement = Settlement(arrival: Arrival, outcome: Outcome)

  /** Where the drain stands: it has taken a group, or is delivering it. */
  datatype Stage = Idle | Taken | Delivering

  /** How entries leave the queue: the oldest makes room, a group is taken ahead of the rest, or all are swept out. */
  datatype Departure =
    | Ousted(arrival: Arrival)
    | Group(arrivals: seq<Arrival>, behind: seq<Arrival>)
    | Swept(arrivals: seq<Arrival>)

  /**
   `forgotten` are the ids the duplicate check must forget. `gone` is the history of the queue's departures,
   and `verdicts` that of its groups: whether each was handed on or given up.
   */
  datatype Queue = Queue(
    pending: seq<Arrival>,
    inFlight: nat,
    stage: Stage,
    group: seq<Arrival>,
    delivered: seq<Message>,
    settled: seq<Settlement>,
    forgotten: seq<string>,
    gone: seq<Departure>,
    verdicts: seq<bool>)

  const Fresh := Queue([], 0, Idle, [], [], [], [], [], [])

  datatype Op =
    | Offer(arrival: Arrival)
    | Take
    | Proceed(canDispatch: bool)
    | Finish(ok: bool)
    | CancelPending

  function SettledWith(group: seq<Arrival>, outcome: Outcome): (settlements: seq<Settlement>)
    ensures |settlements| == |group|
    ensures forall i | 0 <= i < |group| :: settlements[i] == Settlement(group[i], outcome)
  {
    seq(|group|, i requires 0 <= i < |group| => Settlement(group[i], outcome))
  }

  /** The message ids forgetDedup is called with; a message without an id has none to forget. */
  function Forgets(group: seq<Arrival>): seq<string> {
    if group == [] then []
    else
      var id := group[|group| - 1].message.source.messageId;
      Forgets(group[..|group| - 1]) + (if id == "" then [] else [id])
  }

  // ---- offering -------------------------------------------------------------------------------

  function Dropping(q: Queue): Queue
    requires q.pending != []
  {
    q.(pending := q.pending[1..],
       settled := q.settled + [Settlement(q.pending[0], Dropped)],
       forgotten := q.forgotten + Forgets(q.pending[..1]),
       gone := q.gone + [Ousted(q.pending[0])])
  }

  predicate Refuses(q: Queue) {
    |q.pending| + q.inFlight >= MAX_PENDING_INBOUND && q.pending == []
  }

  function Offered(q: Queue, a: Arrival): Queue {
    if Refuses(q) then
      q.(settled := q.settled + [Settlement(a, Refused)], forgotten := q.forgotten + Forgets([a]))
    else
      var q' := if |q.pending| + q.inFlight >= MAX_PENDING_INBOUND then Dropping(q) else q;
      q'.(pending := q'.pending + [a])
  }

  // ---- taking a group -------------------------------------------------------------------------

  /** The next message may be replayed with the group that `first` starts. */
  predicate Continues(first: Message, next: Message) {
    && IsPlainText(next)
    && next.source.owner == first.source.owner
    && BatchCompatible(first, next)
  }

  function MoreChars(chars: nat, next: Message): nat {
    chars + (if chars != 0 && |next.text| != 0 then 1 else 0) + |next.text|
  }

  /** How far the group of the first message reaches, `n` messages of `chars` characters being in it. */
  function Reach(pending: seq<Arrival>, n: nat, chars: nat, limits: Limits): (size: nat)
    requires 1 <= n <= |pending|
    ensures n <= size <= |pending|
    decreases |pending| - n
  {
    if n < limits.messages && n < |pending| && Continues(pending[0].message, pending[n].message)
       && MoreChars(chars, pending[n].message) <= limits.chars
    then Reach(pending, n + 1, MoreChars(chars, pending[n].message), limits)
    else n
  }

  function GroupSize(pending: seq<Arrival>, limits: Limits): (size: nat)
    requires pending != []
    ensures 1 <= size <= |pending|
  {
    if IsPlainText(pending[0].message) then Reach(pending, 1, |pending[0].message.text|, limits) else 1
  }

  function Taking(q: Queue, limits: Limits): Queue
    requires q.pending != []
  {
    var size := GroupSize(q.pending, limits);
    q.(pending := q.pending[size..], inFlight := q.inFlight + size, stage := Stage.Taken,
       group := q.pending[..size], gone := q.gone + [Group(q.pending[..size], q.pending[size..])])
  }

  // ---- settling -------------------------------------------------------------------------------

  function Cancelling(q: Queue): Queue {
    q.(settled := q.settled + SettledWith(q.pending, Cancelled),
       forgotten := q.forgotten + Forgets(q.pending),
       gone := q.gone + [Swept(q.pending)],
       pending := [])
  }

  function Ending(q: Queue, outcome: Outcome): Queue
    requires |q.group| <= q.inFlight
  {
    q.(settled := q.settled + SettledWith(q.group, outcome),
       inFlight := q.inFlight - |q.group|, stage := Idle, group := [])
  }

  /** replayGroupMessage. */
  function Replayed(group: seq<Arrival>): Message
    requires group != []
  {
    if |group| == 1 then group[0].message else Folded(MessagesOf(group))
  }

  predicate Enabled(q: Queue, op: Op) {
    match op
    case Offer(_) => true
    case Take => q.stage.Idle? && q.pending != []
    case Proceed(_) => q.stage.Taken? && q.group != [] && |q.group| <= q.inFlight
    case Finish(_) => q.stage.Delivering? && |q.group| <= q.inFlight
    case CancelPending => true
  }

  function After(q: Queue, op: Op, limits: Limits): Queue
    requires Enabled(q, op)
  {
    match op
    case Offer(a) => Offered(q, a)
    case Take => Taking(q, limits)
    case Proceed(canDispatch) =>
      if canDispatch
      then q.(stage := Delivering, delivered := q.delivered + [Replayed(q.group)], verdicts := q.verdicts + [true])
      else Ending(q.(forgotten := q.forgotten + Forgets(q.group), verdicts := q.verdicts + [false]), Cancelled)
    case Finish(ok) => Ending(q, if ok then Resolved else Rejected)
    case CancelPending => Cancelling(q)
  }

  function Run(ops: seq<Op>, limits: Limits): Queue {
    if ops == [] then Fresh
    else
      var before, last := Run(ops[..|ops| - 1], limits), ops[|ops| - 1];
      if Enabled(before, last) then After(before, last, limits) else before
  }

  // ---- groups ---------------------------------------------------------------------------------

  /** The message behind a group could have been in it. */
  ghost predicate MayFollow(pending: seq<Arrival>, size: nat, limits: Limits)
    requires 1 <= size < |pending|
  {
    var first, next := pending[0].message, pending[size].message;
    && size < limits.messages
    && next.isText && !IsCommand(next.text)
    && next.source.owner == first.source.owner && SameThread(first, next)
    && |MergedText(MessagesOf(pending[..size + 1]))| <= limits.chars
  }

  lemma OneFurther(pending: seq<Arrival>, n: nat)
    requires 1 <= n < |pending|
    ensures |MergedText(MessagesOf(pending[..n + 1]))|
         == MoreChars(|MergedText(MessagesOf(pending[..n]))|, pending[n].message)
  {
    assert pending[..n + 1] == pending[..n] + [pending[n]];
    ExtendRefines(pending[..n], pending[n]);
    MergedLength(MergedText(MessagesOf(pending[..n])), pending[n].message.text);
  }

  /** The characters added up are those of the merged text, so the group reaches as far as it may. */
  lemma {:induction false} ReachExtends(pending: seq<Arrival>, n: nat, limits: Limits)
    requires 1 <= n <= |pending|
    requires forall i | 0 < i < n :: Continues(pending[0].message, pending[i].message)
    requires n > 1 ==> n <= limits.messages && |MergedText(MessagesOf(pending[..n]))| <= limits.chars
    ensures var size := Reach(pending, n, |MergedText(MessagesOf(pending[..n]))|, limits);
      && (forall i | 0 < i < size :: Continues(pending[0].message, pending[i].message))
      && (size > 1 ==> size <= limits.messages && |MergedText(MessagesOf(pending[..size]))| <= limits.chars)
      && (size == |pending| || !MayFollow(pending, size, limits))
    decreases |pending| - n
  {
    if n < |pending| {
      OneFurther(pending, n);
      PlainTextExactly(pending[n].message);
      if MayFollow(pending, n, limits) {
        ReachExtends(pending, n + 1, limits);
      }
    }
  }

  lemma SingleText(a: Arrival)
    ensures MergedText(MessagesOf([a])) == a.message.text && Folded(MessagesOf([a])) == a.message
  {
    var messages := MessagesOf([a]);
    assert messages[..0] == [];
  }

  /**
   A group is the longest stretch at the head of the queue that one delivery may carry: plain texts of
   one session, thread and reply, within both limits unless alone. Anything else is a group by itself.
   */
  ghost predicate IsLongest(pending: seq<Arrival>, size: nat, limits: Limits)
    requires 1 <= size <= |pending|
  {
    && GoodGroup(pending[..size], pending[0].message.source.owner, limits)
    && if pending[0].message.isText && !IsCommand(pending[0].message.text)
       then
         && (forall i | 0 <= i < size :: pending[i].message.isText && !IsCommand(pending[i].message.text))
         && (size == |pending| || !MayFollow(pending, size, limits))
       else size == 1
  }

  lemma GroupIsMaximal(pending: seq<Arrival>, limits: Limits)
    requires pending != []
    ensures IsLongest(pending, GroupSize(pending, limits), limits)
  {
    SingleText(pending[0]);
    assert pending[..1] == [pending[0]];
    PlainTextExactly(pending[0].message);
    if IsPlainText(pending[0].message) {
      ReachExtends(pending, 1, limits);
    }
    var size := GroupSize(pending, limits);
    forall i | 0 < i < size
      ensures KeyOf(pending[i]) == KeyOf(pending[0])
      ensures SameThread(pending[0].message, pending[i].message)
      ensures pending[i].message.isText && !IsCommand(pending[i].message.text)
    {
      assert Continues(pending[0].message, pending[i].message);
      PlainTextExactly(pending[i].message);
    }
  }

  /** Whatever the size of the group, what is delivered is its fold. */
  lemma ReplayedIsFolded(group: seq<Arrival>)
    requires group != []
    ensures Replayed(group) == Folded(MessagesOf(group))
  {
    if |group| == 1 {
      SingleText(group[0]);
      assert group == [group[0]];
    }
  }

  // ---- invariants -----------------------------------------------------------------------------

  function ArrivalsIn(settled: seq<Settlement>): (arrivals: seq<Arrival>)
    ensures |arrivals| == |settled| && forall i | 0 <= i < |settled| :: arrivals[i] == settled[i].arrival
  {
    seq(|settled|, i requires 0 <= i < |settled| => settled[i].arrival)
  }

  /** The counter counts the group in flight, and everything held fits. */
  predicate Counted(q: Queue) {
    && q.inFlight == |q.group|
    && (q.stage.Idle? <==> q.group == [])
    && |q.pending| + q.inFlight <= 1000
  }

  lemma CountedStep(q: Queue, op: Op, limits: Limits)
    requires Counted(q) && Enabled(q, op)
    ensures Counted(After(q, op, limits))
  {
  }

  lemma {:induction false} RunsAreCounted(ops: seq<Op>, limits: Limits)
    ensures Counted(Run(ops, limits))
  {
    if ops != [] {
      RunsAreCounted(ops[..|ops| - 1], limits);
      var before, last := Run(ops[..|ops| - 1], limits), ops[|ops| - 1];
      if Enabled(before, last) {
        CountedStep(before, last, limits);
      }
    }
  }

  /** Everything offered, in order. */
  function AllOffered(ops: seq<Op>): seq<Arrival> {
    if ops == [] then []
    else
      var before, last := AllOffered(ops[..|ops| - 1]), ops[|ops| - 1];
      if last.Offer? then before + [last.arrival] else before
  }

  /** Everything the queue took in, in order: what was offered but not refused. */
  function Admitted(ops: seq<Op>, limits: Limits): seq<Arrival> {
    if ops == [] then []
    else
      var before, last := Admitted(ops[..|ops| - 1], limits), ops[|ops| - 1];
      if last.Offer? && !Refuses(Run(ops[..|ops| - 1], limits)) then before + [last.arrival] else before
  }

  function Leaving(d: Departure): seq<Arrival> {
    match d
    case Ousted(a) => [a]
    case Group(arrivals, _) => arrivals
    case Swept(arrivals) => arrivals
  }

  /** What has left the queue, in order. */
  function Left(gone: seq<Departure>): seq<Arrival> {
    if gone == [] then [] else Left(gone[..|gone| - 1]) + Leaving(gone[|gone| - 1])
  }

  lemma LeftMore(gone: seq<Departure>, d: Departure)
    ensures Left(gone + [d]) == Left(gone) + Leaving(d)
  {
    assert (gone + [d])[..|gone|] == gone;
  }

  lemma OfferIsFifo(q: Queue, a: Arrival)
    ensures Left(Offered(q, a).gone) + Offered(q, a).pending ==
              Left(q.gone) + q.pending + (if Refuses(q) then [] else [a])
  {
    if q.pending != [] && |q.pending| + q.inFlight >= MAX_PENDING_INBOUND {
      LeftMore(q.gone, Ousted(q.pending[0]));
      assert q.pending == [q.pending[0]] + q.pending[1..];
    }
  }

  lemma TakeIsFifo(q: Queue, limits: Limits)
    requires q.pending != []
    ensures Left(Taking(q, limits).gone) + Taking(q, limits).pending == Left(q.gone) + q.pending
  {
    var size := GroupSize(q.pending, limits);
    var head, rest := q.pending[..size], q.pending[size..];
    LeftMore(q.gone, Group(head, rest));
    assert Left(q.gone) + head + rest == Left(q.gone) + (head + rest);
    assert q.pending == head + rest;
  }

  lemma StepIsFifo(q: Queue, op: Op, limits: Limits)
    requires Enabled(q, op)
    ensures Left(After(q, op, limits).gone) + After(q, op, limits).pending
         == Left(q.gone) + q.pending + (if op.Offer? && !Refuses(q) then [op.arrival] else [])
  {
    match op
    case Offer(a) => OfferIsFifo(q, a);
    case Take => TakeIsFifo(q, limits);
    case CancelPending => LeftMore(q.gone, Swept(q.pending));
    case Proceed(_) =>
    case Finish(_) =>
  }

  /** First in, first out: what has left the queue and what waits in it are what it took in, in order. */
  lemma {:induction false} LeavesInOrder(ops: seq<Op>, limits: Limits)
    ensures Left(Run(ops, limits).gone) + Run(ops, limits).pending == Admitted(ops, limits)
  {
    if ops != [] {
      LeavesInOrder(ops[..|ops| - 1], limits);
      var before, last := Run(ops[..|ops| - 1], limits), ops[|ops| - 1];
      if Enabled(before, last) {
        StepIsFifo(before, last, limits);
      }
    }
  }

  /** Everything that is somewhere: settled, in flight or waiting. */
  ghost function Whereabouts(q: Queue): multiset<Arrival> {
    multiset(ArrivalsIn(q.settled)) + multiset(q.group) + multiset(q.pending)
  }

  lemma SettlingAdds(settled: seq<Settlement>, group: seq<Arrival>, outcome: Outcome)
    ensures multiset(ArrivalsIn(settled + SettledWith(group, outcome))) ==
              multiset(ArrivalsIn(settled)) + multiset(group)
  {
    assert ArrivalsIn(settled + SettledWith(group, outcome)) == ArrivalsIn(settled) + group;
  }

  lemma OfferConserves(q: Queue, a: Arrival)
    ensures Whereabouts(Offered(q, a)) == Whereabouts(q) + multiset{a}
  {
    if Refuses(q) {
      SettlingAdds(q.settled, [a], Refused);
      assert [Settlement(a, Refused)] == SettledWith([a], Refused);
    } else if |q.pending| + q.inFlight >= MAX_PENDING_INBOUND {
      SettlingAdds(q.settled, [q.pending[0]], Dropped);
      assert [Settlement(q.pending[0], Dropped)] == SettledWith([q.pending[0]], Dropped);
      assert q.pending == [q.pending[0]] + q.pending[1..];
    }
  }

  lemma StepConserves(q: Queue, op: Op, limits: Limits)
    requires Counted(q) && Enabled(q, op)
    ensures Whereabouts(After(q, op, limits)) ==
              Whereabouts(q) + (if op.Offer? then multiset{op.arrival} else multiset{})
  {
    match op
    case Offer(a) => OfferConserves(q, a);
    case Take =>
      var size := GroupSize(q.pending, limits);
      assert q.pending == q.pending[..size] + q.pending[size..];
    case Proceed(canDispatch) =>
      SettlingAdds(q.settled, q.group, Cancelled);
    case Finish(ok) =>
      SettlingAdds(q.settled, q.group, if ok then Resolved else Rejected);
    case CancelPending =>
      SettlingAdds(q.settled, q.pending, Cancelled);
  }

  /** Every message offered is settled, in flight or waiting, each exactly as often as it was offered. */
  lemma {:induction false} SettledExactlyOnce(ops: seq<Op>, limits: Limits)
    ensures Whereabouts(Run(ops, limits)) == multiset(AllOffered(ops))
  {
    if ops != [] {
      SettledExactlyOnce(ops[..|ops| - 1], limits);
      RunsAreCounted(ops[..|ops| - 1], limits);
      var before, last := Run(ops[..|ops| - 1], limits), ops[|ops| - 1];
      if Enabled(before, last) {
        StepConserves(before, last, limits);
      }
    }
  }

  /** Once the queue is empty and nothing is in flight, everything offered has been settled. */
  lemma DrainedMeansSettled(ops: seq<Op>, limits: Limits)
    requires Run(ops, limits).pending == [] && Run(ops, limits).inFlight == 0
    ensures multiset(ArrivalsIn(Run(ops, limits).settled)) == multiset(AllOffered(ops))
  {
    SettledExactlyOnce(ops, limits);
    RunsAreCounted(ops, limits);
  }

  lemma {:induction false} GroupsAreSmall(ops: seq<Op>, limits: Limits)
    ensures |Run(ops, limits).group| <= 1 || |Run(ops, limits).group| <= limits.messages
  {
    if ops != [] {
      var before, last := Run(ops[..|ops| - 1], limits), ops[|ops| - 1];
      GroupsAreSmall(ops[..|ops| - 1], limits);
      if Enabled(before, last) && last.Take? {
        GroupIsMaximal(before.pending, limits);
      }
    }
  }

  /** Unless a whole group can fill the queue, nothing new is ever refused: the oldest makes room. */
  lemma NothingIsRefused(ops: seq<Op>, limits: Limits)
    requires limits.messages < 1000
    ensures !Refuses(Run(ops, limits))
  {
    GroupsAreSmall(ops, limits);
    RunsAreCounted(ops, limits);
  }

  /** A message is refused exactly when a thousand are in flight and none waits that could be dropped. */
  lemma RefusedExactly(ops: seq<Op>, limits: Limits)
    ensures Refuses(Run(ops, limits)) <==> Run(ops, limits).inFlight == 1000
  {
    RunsAreCounted(ops, limits);
  }

  // ---- forgetting -----------------------------------------------------------------------------

  predicate IsForgotten(outcome: Outcome) {
    outcome.Dropped? || outcome.Refused? || outcome.Cancelled?
  }

  function Lost(settled: seq<Settlement>): seq<string> {
    if settled == [] then []
    else
      var last := settled[|settled| - 1];
      Lost(settled[..|settled| - 1]) + (if IsForgotten(last.outcome) then Forgets([last.arrival]) else [])
  }

  lemma LostOne(settled: seq<Settlement>, last: Settlement)
    ensures Lost(settled + [last]) ==
              Lost(settled) + (if IsForgotten(last.outcome) then Forgets([last.arrival]) else [])
  {
    assert (settled + [last])[..|settled|] == settled;
  }

  lemma ForgetsOne(group: seq<Arrival>, last: Arrival)
    ensures Forgets(group + [last]) == Forgets(group) + Forgets([last])
  {
    assert (group + [last])[..|group|] == group;
    assert [last][..0] == [];
  }

  lemma SettledOne(settled: seq<Settlement>, group: seq<Arrival>, last: Arrival, outcome: Outcome)
    ensures settled + SettledWith(group + [last], outcome) ==
              settled + SettledWith(group, outcome) + [Settlement(last, outcome)]
  {
    assert SettledWith(group + [last], outcome) == SettledWith(group, outcome) + [Settlement(last, outcome)];
  }

  function ForgetsIf(outcome: Outcome, group: seq<Arrival>): seq<string> {
    if IsForgotten(outcome) then Forgets(group) else []
  }

  lemma OneMoreLost(settled: seq<Settlement>, before: seq<Arrival>, last: Arrival, outcome: Outcome)
    ensures Lost(settled + SettledWith(before + [last], outcome))
         == Lost(settled + SettledWith(before, outcome)) + ForgetsIf(outcome, [last])
  {
    var earlier := settled + SettledWith(before, outcome);
    SettledOne(settled, before, last, outcome);
    LostOne(earlier, Settlement(last, outcome));
  }

  lemma ForgetsOneIf(outcome: Outcome, before: seq<Arrival>, last: Arrival)
    ensures ForgetsIf(outcome, before + [last]) == ForgetsIf(outcome, before) + ForgetsIf(outcome, [last])
  {
    ForgetsOne(before, last);
  }

  lemma Appended(lost: seq<string>, one: seq<string>, other: seq<string>)
    ensures lost + one + other == lost + (one + other)
  {
  }

  lemma {:induction false} LostMore(settled: seq<Settlement>, group: seq<Arrival>, outcome: Outcome)
    ensures Lost(settled + SettledWith(group, outcome)) == Lost(settled) + ForgetsIf(outcome, group)
    decreases |group|
  {
    if group == [] {
      assert settled + SettledWith(group, outcome) == settled;
    } else {
      var before, last := group[..|group| - 1], group[|group| - 1];
      assert group == before + [last];
      calc {
        Lost(settled + SettledWith(group, outcome));
        { OneMoreLost(settled, before, last, outcome); }
        Lost(settled + SettledWith(before, outcome)) + ForgetsIf(outcome, [last]);
        { LostMore(settled, before, outcome); }
        Lost(settled) + ForgetsIf(outcome, before) + ForgetsIf(outcome, [last]);
        { Appended(Lost(settled), ForgetsIf(outcome, before), ForgetsIf(outcome, [last])); }
        Lost(settled) + (ForgetsIf(outcome, before) + ForgetsIf(outcome, [last]));
        { ForgetsOneIf(outcome, before, last); }
        Lost(settled) + ForgetsIf(outcome, group);
      }
    }
  }

  lemma StepForgets(q: Queue, op: Op, limits: Limits)
    requires Enabled(q, op) && q.forgotten == Lost(q.settled)
    ensures After(q, op, limits).forgotten == Lost(After(q, op, limits).settled)
  {
    match op
    case Offer(a) =>
      if Refuses(q) {
        LostMore(q.settled, [a], Refused);
        assert [Settlement(a, Refused)] == SettledWith([a], Refused);
      } else if |q.pending| + q.inFlight >= MAX_PENDING_INBOUND {
        LostMore(q.settled, q.pending[..1], Dropped);
        assert [Settlement(q.pending[0], Dropped)] == SettledWith(q.pending[..1], Dropped);
      }
    case Take =>
    case Proceed(canDispatch) => LostMore(q.settled, q.group, Cancelled);
    case Finish(ok) => LostMore(q.settled, q.group, if ok then Resolved else Rejected);
    case CancelPending => LostMore(q.settled, q.pending, Cancelled);
  }

  /** Exactly the messages that were never handed to a handler are forgotten, so they may be sent again. */
  lemma {:induction false} ForgetsTheUndelivered(ops: seq<Op>, limits: Limits)
    ensures Run(ops, limits).forgotten == Lost(Run(ops, limits).settled)
  {
    if ops != [] {
      ForgetsTheUndelivered(ops[..|ops| - 1], limits);
      var before, last := Run(ops[..|ops| - 1], limits), ops[|ops| - 1];
      if Enabled(before, last) {
        StepForgets(before, last, limits);
      }
    }
  }

  // ---- deliveries -----------------------------------------------------------------------------

  /** The groups taken, in order. */
  function GroupsOf(gone: seq<Departure>): seq<seq<Arrival>> {
    if gone == [] then []
    else
      var before, last := GroupsOf(gone[..|gone| - 1]), gone[|gone| - 1];
      if last.Group? then before + [last.arrivals] else before
  }

  /** Of the first groups, as many as there are verdicts, those handed on. */
  function HandedOn(groups: seq<seq<Arrival>>, verdicts: seq<bool>): seq<seq<Arrival>>
    requires |verdicts| <= |groups|
    decreases |verdicts|
  {
    if verdicts == [] then []
    else
      var n := |verdicts| - 1;
      HandedOn(groups, verdicts[..n]) + (if verdicts[n] then [groups[n]] else [])
  }

  /** The group is the longest that could be taken from the head of the queue as it stood. */
  ghost predicate IsMaximal(d: Departure, limits: Limits)
    requires d.Group?
  {
    && d.arrivals != []
    && IsLongest(d.arrivals + d.behind, |d.arrivals|, limits)
  }

  ghost predicate AreHandedOn(messages: seq<Message>, groups: seq<seq<Arrival>>) {
    && |messages| == |groups|
    && forall i | 0 <= i < |groups| :: groups[i] != [] && Becomes(MessagesOf(groups[i]), messages[i])
  }

  ghost predicate WellDelivered(q: Queue, limits: Limits) {
    var groups := GroupsOf(q.gone);
    && (forall d | d in q.gone && d.Group? :: IsMaximal(d, limits))
    && |groups| == |q.verdicts| + (if q.stage.Taken? then 1 else 0)
    && (q.stage.Taken? ==> q.group == groups[|groups| - 1])
    && AreHandedOn(q.delivered, HandedOn(groups, q.verdicts))
  }

  lemma GroupsMore(gone: seq<Departure>, d: Departure)
    ensures GroupsOf(gone + [d]) == GroupsOf(gone) + (if d.Group? then [d.arrivals] else [])
  {
    assert (gone + [d])[..|gone|] == gone;
  }

  lemma {:induction false} HandedOnSame(groups: seq<seq<Arrival>>, more: seq<seq<Arrival>>, verdicts: seq<bool>)
    requires |verdicts| <= |groups|
    ensures HandedOn(groups + more, verdicts) == HandedOn(groups, verdicts)
    decreases |verdicts|
  {
    if verdicts != [] {
      HandedOnSame(groups, more, verdicts[..|verdicts| - 1]);
    }
  }

  /** An entry that leaves alone, or with all others, changes no group. */
  lemma DepartingKeeps(q: Queue, d: Departure, limits: Limits)
    requires WellDelivered(q, limits) && !d.Group?
    ensures WellDelivered(q.(gone := q.gone + [d]), limits)
  {
    GroupsMore(q.gone, d);
  }

  lemma TakingDelivers(q: Queue, limits: Limits)
    requires WellDelivered(q, limits) && q.stage.Idle? && q.pending != []
    ensures WellDelivered(Taking(q, limits), limits)
  {
    var size := GroupSize(q.pending, limits);
    var d := Group(q.pending[..size], q.pending[size..]);
    assert d.arrivals + d.behind == q.pending;
    GroupIsMaximal(q.pending, limits);
    GroupsMore(q.gone, d);
    HandedOnSame(GroupsOf(q.gone), [d.arrivals], q.verdicts);
  }

  lemma ProceedingDelivers(q: Queue, canDispatch: bool, limits: Limits)
    requires WellDelivered(q, limits) && Enabled(q, Proceed(canDispatch))
    ensures WellDelivered(After(q, Proceed(canDispatch), limits), limits)
  {
    var groups, verdicts := GroupsOf(q.gone), q.verdicts + [canDispatch];
    assert verdicts[..|q.verdicts|] == q.verdicts;
    ReplayedIsFolded(q.group);
    FoldedExactly(MessagesOf(q.group), Replayed(q.group));
  }

  lemma StepDelivers(q: Queue, op: Op, limits: Limits)
    requires Enabled(q, op) && WellDelivered(q, limits)
    ensures WellDelivered(After(q, op, limits), limits)
  {
    match op
    case Offer(a) =>
      if q.pending != [] && |q.pending| + q.inFlight >= MAX_PENDING_INBOUND {
        DepartingKeeps(q, Ousted(q.pending[0]), limits);
      }
    case Take => TakingDelivers(q, limits);
    case Proceed(canDispatch) => ProceedingDelivers(q, canDispatch, limits);
    case Finish(_) =>
    case CancelPending => DepartingKeeps(q, Swept(q.pending), limits);
  }

  lemma {:induction false} RunsDeliver(ops: seq<Op>, limits: Limits)
    ensures WellDelivered(Run(ops, limits), limits)
  {
    if ops != [] {
      RunsDeliver(ops[..|ops| - 1], limits);
      var before, last := Run(ops[..|ops| - 1], limits), ops[|ops| - 1];
      if Enabled(before, last) {
        StepDelivers(before, last, limits);
      }
    }
  }

  /**
   What is delivered, over any run: one message for each group handed on, in the order they were taken, and
   field by field the message its group becomes. The groups are stretches of what the queue took in, in
   order, with only ousted and swept entries between them, and each is the longest one delivery may carry
   of the queue as it stood.
   */
  lemma DeliveriesAreGroups(ops: seq<Op>, limits: Limits, q: Queue)
    requires q == Run(ops, limits)
    ensures |q.verdicts| <= |GroupsOf(q.gone)|
    ensures AreHandedOn(q.delivered, HandedOn(GroupsOf(q.gone), q.verdicts))
    ensures Left(q.gone) + q.pending == Admitted(ops, limits)
    ensures forall d | d in q.gone && d.Group? :: IsMaximal(d, limits)
  {
    RunsDeliver(ops, limits);
    LeavesInOrder(ops, limits);
  }

  // ---- how messages are settled ---------------------------------------------------------------

  /** How the handler ended, delivery by delivery. */
  function Endings(ops: seq<Op>, limits: Limits): seq<bool> {
    if ops == [] then []
    else
      var before, last := Endings(ops[..|ops| - 1], limits), ops[|ops| - 1];
      if last.Finish? && Enabled(Run(ops[..|ops| - 1], limits), last) then before + [last.ok] else before
  }

  /** The messages a handler has settled, in order. */
  function Handled(settled: seq<Settlement>): seq<Settlement> {
    if settled == [] then []
    else
      var before, last := Handled(settled[..|settled| - 1]), settled[|settled| - 1];
      if last.outcome in {Resolved, Rejected} then before + [last] else before
  }

  /** Each group's messages settled as its handler ended. */
  function AsEnded(groups: seq<seq<Arrival>>, endings: seq<bool>): seq<Settlement>
    requires |endings| <= |groups|
    decreases |endings|
  {
    if endings == [] then []
    else
      var n := |endings| - 1;
      AsEnded(groups, endings[..n]) + SettledWith(groups[n], if endings[n] then Resolved else Rejected)
  }

  lemma {:induction false} HandledMore(settled: seq<Settlement>, group: seq<Arrival>, outcome: Outcome)
    ensures Handled(settled + SettledWith(group, outcome)) ==
              Handled(settled) + if outcome in {Resolved, Rejected} then SettledWith(group, outcome) else []
    decreases |group|
  {
    if group == [] {
      assert settled + SettledWith(group, outcome) == settled;
    } else {
      var before, last := group[..|group| - 1], group[|group| - 1];
      assert group == before + [last];
      SettledOne(settled, before, last, outcome);
      HandledMore(settled, before, outcome);
      var all := settled + SettledWith(group, outcome);
      assert all[..|all| - 1] == settled + SettledWith(before, outcome);
      assert SettledWith(group, outcome) == SettledWith(before, outcome) + [Settlement(last, outcome)];
    }
  }

  lemma {:induction false} AsEndedSame(groups: seq<seq<Arrival>>, more: seq<seq<Arrival>>, endings: seq<bool>)
    requires |endings| <= |groups|
    ensures AsEnded(groups + more, endings) == AsEnded(groups, endings)
    decreases |endings|
  {
    if endings != [] {
      AsEndedSame(groups, more, endings[..|endings| - 1]);
    }
  }

  ghost predicate SettledAsEnded(q: Queue, endings: seq<bool>) {
    && |q.verdicts| <= |GroupsOf(q.gone)|
    && var handed := HandedOn(GroupsOf(q.gone), q.verdicts);
       && |handed| == |endings| + (if q.stage.Delivering? then 1 else 0)
       && (q.stage.Delivering? ==> q.group == handed[|handed| - 1])
       && Handled(q.settled) == AsEnded(handed, endings)
  }

  lemma OfferSettles(q: Queue, a: Arrival, endings: seq<bool>)
    requires SettledAsEnded(q, endings)
    ensures SettledAsEnded(Offered(q, a), endings)
  {
    if Refuses(q) {
      HandledMore(q.settled, [a], Refused);
      assert [Settlement(a, Refused)] == SettledWith([a], Refused);
    } else if |q.pending| + q.inFlight >= MAX_PENDING_INBOUND {
      HandledMore(q.settled, [q.pending[0]], Dropped);
      assert [Settlement(q.pending[0], Dropped)] == SettledWith([q.pending[0]], Dropped);
      GroupsMore(q.gone, Ousted(q.pending[0]));
    }
  }

  lemma ProceedSettles(q: Queue, canDispatch: bool, limits: Limits, endings: seq<bool>)
    requires WellDelivered(q, limits) && SettledAsEnded(q, endings) && Enabled(q, Proceed(canDispatch))
    ensures SettledAsEnded(After(q, Proceed(canDispatch), limits), endings)
  {
    var groups, verdicts := GroupsOf(q.gone), q.verdicts + [canDispatch];
    assert verdicts[..|q.verdicts|] == q.verdicts;
    if canDispatch {
      AsEndedSame(HandedOn(groups, q.verdicts), [q.group], endings);
    } else {
      HandledMore(q.settled, q.group, Cancelled);
      assert Handled(q.settled) + [] == Handled(q.settled);
      assert HandedOn(groups, verdicts) == HandedOn(groups, q.verdicts) + [] == HandedOn(groups, q.verdicts);
    }
  }

  lemma FinishSettles(q: Queue, ok: bool, limits: Limits, endings: seq<bool>)
    requires SettledAsEnded(q, endings) && Enabled(q, Finish(ok))
    ensures SettledAsEnded(After(q, Finish(ok), limits), endings + [ok])
  {
    HandledMore(q.settled, q.group, if ok then Resolved else Rejected);
    assert (endings + [ok])[..|endings|] == endings;
  }

  lemma StepSettles(q: Queue, op: Op, limits: Limits, endings: seq<bool>)
    requires Enabled(q, op) && WellDelivered(q, limits) && SettledAsEnded(q, endings)
    ensures SettledAsEnded(After(q, op, limits), if op.Finish? then endings + [op.ok] else endings)
  {
    match op
    case Offer(a) => OfferSettles(q, a, endings);
    case Take =>
      var size := GroupSize(q.pending, limits);
      GroupsMore(q.gone, Group(q.pending[..size], q.pending[size..]));
      HandedOnSame(GroupsOf(q.gone), [q.pending[..size]], q.verdicts);
    case Proceed(canDispatch) => ProceedSettles(q, canDispatch, limits, endings);
    case Finish(ok) => FinishSettles(q, ok, limits, endings);
    case CancelPending =>
      HandledMore(q.settled, q.pending, Cancelled);
      GroupsMore(q.gone, Swept(q.pending));
  }

  /**
   The messages handed on are settled as their handler ended: those of a delivery that ended well resolve,
   those of one that failed are rejected, in the order taken; nothing else is settled either way.
   */
  lemma {:induction false} SettledAsHandled(ops: seq<Op>, limits: Limits)
    ensures SettledAsEnded(Run(ops, limits), Endings(ops, limits))
  {
    if ops != [] {
      SettledAsHandled(ops[..|ops| - 1], limits);
      RunsDeliver(ops[..|ops| - 1], limits);
      var before, last := Run(ops[..|ops| - 1], limits), ops[|ops| - 1];
      if Enabled(before, last) {
        StepSettles(before, last, limits, Endings(ops[..|ops| - 1], limits));
      }
    }
  }

  /** Cancelling leaves nothing waiting: every waiting message is cancelled, in order, and its id forgotten. */
  lemma CancellingSweeps(q: Queue, limits: Limits)
    ensures
      var t := After(q, CancelPending, limits);
      && t.pending == [] && t.inFlight == q.inFlight && t.group == q.group && t.delivered == q.delivered
      && IsCancelled(q.settled, q.pending, t.settled) && AreForgotten(q.pending, t.forgotten)
  {
    SettledEach(q.settled, q.pending, q.settled + SettledWith(q.pending, Cancelled));
    ForgottenIds(q.pending);
  }

  ghost predicate IsCancelled(settled: seq<Settlement>, swept: seq<Arrival>, after: seq<Settlement>) {
    && |after| == |settled| + |swept|
    && (forall i | 0 <= i < |settled| :: after[i] == settled[i])
    && (forall i | 0 <= i < |swept| :: after[|settled| + i] == Settlement(swept[i], Cancelled))
  }

  ghost predicate AreForgotten(swept: seq<Arrival>, forgotten: seq<string>) {
    forall i | 0 <= i < |swept| && swept[i].message.source.messageId != "" ::
      swept[i].message.source.messageId in forgotten
  }

  lemma SettledEach(settled: seq<Settlement>, swept: seq<Arrival>, after: seq<Settlement>)
    requires after == settled + SettledWith(swept, Cancelled)
    ensures IsCancelled(settled, swept, after)
  {
  }

  lemma {:induction false} ForgottenIds(group: seq<Arrival>)
    ensures AreForgotten(group, Forgets(group))
    decreases |group|
  {
    if group != [] {
      ForgottenIds(group[..|group| - 1]);
    }
  }

  // ---- waiting behind a group -----------------------------------------------------------------

  /** What was behind a group when it was taken left after it, or still waits, in that order. */
  ghost predicate BehindFollow(gone: seq<Departure>, pending: seq<Arrival>) {
    gone != [] ==>
      var before, last := gone[..|gone| - 1], gone[|gone| - 1];
      && (last.Group? ==> last.behind <= pending)
      && BehindFollow(before, Leaving(last) + pending)
  }

  lemma {:induction false} BehindExtends(gone: seq<Departure>, pending: seq<Arrival>, more: seq<Arrival>)
    requires BehindFollow(gone, pending)
    ensures BehindFollow(gone, pending + more)
    decreases |gone|
  {
    if gone != [] {
      var before, last := gone[..|gone| - 1], gone[|gone| - 1];
      BehindExtends(before, Leaving(last) + pending, more);
      assert Leaving(last) + pending + more == Leaving(last) + (pending + more);
    }
  }

  lemma BehindMore(gone: seq<Departure>, d: Departure, pending: seq<Arrival>)
    requires BehindFollow(gone, Leaving(d) + pending) && (d.Group? ==> d.behind == pending)
    ensures BehindFollow(gone + [d], pending)
  {
    assert (gone + [d])[..|gone|] == gone;
  }

  lemma StepFollows(q: Queue, op: Op, limits: Limits)
    requires Enabled(q, op) && BehindFollow(q.gone, q.pending)
    ensures BehindFollow(After(q, op, limits).gone, After(q, op, limits).pending)
  {
    match op
    case Offer(a) =>
      if !Refuses(q) {
        if |q.pending| + q.inFlight >= MAX_PENDING_INBOUND {
          assert q.pending == [q.pending[0]] + q.pending[1..];
          BehindMore(q.gone, Ousted(q.pending[0]), q.pending[1..]);
          BehindExtends(q.gone + [Ousted(q.pending[0])], q.pending[1..], [a]);
        } else {
          BehindExtends(q.gone, q.pending, [a]);
        }
      }
    case Take =>
      var size := GroupSize(q.pending, limits);
      assert q.pending == q.pending[..size] + q.pending[size..];
      BehindMore(q.gone, Group(q.pending[..size], q.pending[size..]), q.pending[size..]);
    case CancelPending =>
      assert q.pending + [] == q.pending;
      BehindMore(q.gone, Swept(q.pending), []);
    case Proceed(_) =>
    case Finish(_) =>
  }

  /** So a group was taken ahead of the very messages that follow it. */
  lemma {:induction false} GroupsAreHeads(ops: seq<Op>, limits: Limits)
    ensures BehindFollow(Run(ops, limits).gone, Run(ops, limits).pending)
  {
    if ops != [] {
      GroupsAreHeads(ops[..|ops| - 1], limits);
      var before, last := Run(ops[..|ops| - 1], limits), ops[|ops| - 1];
      if Enabled(before, last) {
        StepFollows(before, last, limits);
      }
    }
  }
}
