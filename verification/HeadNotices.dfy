/** handler-event-queue.js, the `send.queue.first` message, under any interleaving at all.

    Database steps, deliveries of events in any order, reads of the head and publications of
    what was read are all separate steps. */
module HeadNotices {
  import opened Types
  import opened Lists
  import opened Queue

  /** What an observer of the branch sees: a new head, or a message that someone is first. */
  datatype Seen = HeadBecame(head: Option<Booking>) | FirstSent(to: Recipient)

  datatype Net = Net(
    queue: seq<Booking>,
    events: seq<Event>,         // published, not yet handled
    asked: nat,                 // `getFirstItem` calls not yet answered by the database
    replies: seq<Recipient>,    // heads read, whose message is not yet published
    trace: seq<Seen>)

  /** Any event in flight may be delivered, and any reply published. */
  datatype Step =
    | Add(item: Booking)
    | Remove(item: Booking, closed: bool)
    | Deliver(i: nat)
    | ReadHead
    | Publish(i: nat)

  /** Store a queue; the observer notices if its head is another one. */
  function Store(net: Net, q: seq<Booking>): Net {
    net.(queue := q,
         trace := if Head(q) == Head(net.queue) then net.trace else net.trace + [HeadBecame(Head(q))])
  }

  function Send(net: Net, to: Recipient): Net {
    net.(trace := net.trace + [FirstSent(to)])
  }

  /** Steps that are not possible in a state change nothing. */
  function Next(net: Net, step: Step): Net {
    match step
    case Add(item) =>
      var ev := AddEvent(net.queue, item);
      var net' := Store(net, Push(net.queue, item));
      if ev.Some? then net'.(events := net.events + [ev.value]) else net'
    case Remove(item, closed) =>
      Store(net, Pull(net.queue, item)).(events := net.events + [RemoveEvent(net.queue, item, closed)])
    case Deliver(i) =>
      if i >= |net.events| then net
      else
        var ev, net' := net.events[i], net.(events := TakeOut(net.events, i));
        if ev.Added? then
          if ev.index == 0 then Send(net', To(ev.item)) else net'
        else
          if ev.firstItemChanged then net'.(asked := net.asked + 1) else net'
    case ReadHead =>
      if net.asked == 0 then net
      else if net.queue == [] then net.(asked := net.asked - 1)
      else net.(asked := net.asked - 1, replies := net.replies + [To(net.queue[0])])
    case Publish(i) =>
      if i >= |net.replies| then net
      else Send(net.(replies := TakeOut(net.replies, i)), net.replies[i])
  }

  function Run(net: Net, steps: seq<Step>): Net
    decreases steps
  {
    if steps == [] then net else Run(Next(net, steps[0]), steps[1..])
  }

  /** A message to `to` was sent since the head last changed. */
  ghost predicate Told(trace: seq<Seen>, to: Recipient) {
    exists i :: 0 <= i < |trace| && trace[i] == FirstSent(to) &&
                forall j :: i < j < |trace| ==> trace[j].FirstSent?
  }

  /** The head the trace reports last. */
  function LastHead(trace: seq<Seen>): Option<Booking> {
    if trace == [] then None
    else if trace[|trace| - 1].HeadBecame? then trace[|trace| - 1].head
    else LastHead(trace[..|trace| - 1])
  }

  /** The head was told, or something in flight will lead to telling it. */
  ghost predicate WillBeTold(net: Net, head: Booking) {
    || Told(net.trace, To(head))
    || Added(head, 0) in net.events
    || (exists ev :: ev in net.events && ev.Removed? && ev.firstItemChanged)
    || net.asked > 0
    || To(head) in net.replies
  }

  ghost predicate Inv(net: Net) {
    Distinct(net.queue) && LastHead(net.trace) == Head(net.queue) &&
    (net.queue != [] ==> WillBeTold(net, net.queue[0]))
  }

  lemma AddKeeps(net: Net, item: Booking)
    requires Inv(net)
    ensures Inv(Next(net, Add(item)))
  {
    var net' := Next(net, Add(item));
    PushIndex(net.queue, item, 0);
    if net.queue == [] {
      assert Added(item, 0) in net'.events;
    } else {
      assert forall ev :: ev in net.events ==> ev in net'.events;
    }
  }

  lemma RemoveKeeps(net: Net, item: Booking, closed: bool)
    requires Inv(net)
    ensures Inv(Next(net, Remove(item, closed)))
  {
    var net' := Next(net, Remove(item, closed));
    var ev := RemoveEvent(net.queue, item, closed);
    PullIndex(net.queue, item, 0);
    PullOne(net.queue, item);
    assert ev in net'.events;
    if Head(net'.queue) == Head(net.queue) {
      if ev' :| ev' in net.events && ev'.Removed? && ev'.firstItemChanged {
        assert ev' in net'.events;
      }
    } else {
      assert ev.firstItemChanged;
    }
  }

  lemma TakenOut<T>(xs: seq<T>, i: nat)
    requires i < |xs|
    ensures forall x :: x in TakeOut(xs, i) ==> x in xs
    ensures forall x :: x in xs ==> x == xs[i] || x in TakeOut(xs, i)
  {
    assert xs == xs[..i] + [xs[i]] + xs[i + 1..];
  }

  lemma DeliverKeeps(net: Net, i: nat)
    requires Inv(net)
    ensures Inv(Next(net, Deliver(i)))
  {
    if i < |net.events| {
      TakenOut(net.events, i);
      if net.queue != [] && !Told(net.trace, To(net.queue[0])) && Added(net.queue[0], 0) !in net.events {
        if ev :| ev in net.events && ev.Removed? && ev.firstItemChanged {
          assert ev == net.events[i] || ev in Next(net, Deliver(i)).events;
        }
      }
    }
  }

  lemma ReadAndPublishKeep(net: Net, step: Step)
    requires Inv(net) && (step.ReadHead? || step.Publish?)
    ensures Inv(Next(net, step))
  {
    if step.Publish? && step.i < |net.replies| { TakenOut(net.replies, step.i); }
  }

  lemma StepKeeps(net: Net, step: Step)
    requires Inv(net)
    ensures Inv(Next(net, step))
  {
    match step
    case Add(item) => AddKeeps(net, item);
    case Remove(item, closed) => RemoveKeeps(net, item, closed);
    case Deliver(i) => DeliverKeeps(net, i);
    case _ => ReadAndPublishKeep(net, step);
  }

  lemma {:induction false} RunKeeps(net: Net, steps: seq<Step>)
    requires Inv(net)
    ensures Inv(Run(net, steps))
    decreases steps
  {
    if steps != [] {
      StepKeeps(net, steps[0]);
      RunKeeps(Next(net, steps[0]), steps[1..]);
    }
  }

  const START := Net([], [], 0, [], [])

  predicate Quiet(net: Net) {
    net.events == [] && net.asked == 0 && net.replies == []
  }

  /** Whatever the interleaving, the current head has been told or will be; so once nothing is
      in flight it has been told, and since it became the head. */
  lemma HeadIsAlwaysTold(steps: seq<Step>)
    ensures var net := Run(START, steps);
            LastHead(net.trace) == Head(net.queue)
    ensures var net := Run(START, steps);
            net.queue != [] ==> WillBeTold(net, net.queue[0]) &&
                                (Quiet(net) ==> Told(net.trace, To(net.queue[0])))
  {
    RunKeeps(START, steps);
  }

  // ----- Nobody else is told -----

  /** This booker's booking became the head before moment `k`. */
  ghost predicate WasHead(trace: seq<Seen>, to: Recipient, k: nat) {
    exists j :: 0 <= j < k <= |trace| && trace[j].HeadBecame? && trace[j].head.Some? && To(trace[j].head.value) == to
  }

  /** All messages sent and all that are on their way are for those who became the head. */
  ghost predicate OnlyHeads(net: Net) {
    (forall i :: 0 <= i < |net.trace| && net.trace[i].FirstSent? ==> WasHead(net.trace, net.trace[i].to, i)) &&
    (net.queue != [] ==> WasHead(net.trace, To(net.queue[0]), |net.trace|)) &&
    (forall ev :: ev in net.events && ev.Added? && ev.index == 0 ==>
      WasHead(net.trace, To(ev.item), |net.trace|)) &&
    (forall to :: to in net.replies ==> WasHead(net.trace, to, |net.trace|))
  }

  lemma WasHeadLater(trace: seq<Seen>, x: Seen, to: Recipient, k: nat)
    requires WasHead(trace, to, k)
    ensures WasHead(trace + [x], to, k) && WasHead(trace + [x], to, |trace + [x]|)
  {
    var j :| 0 <= j < k <= |trace| && trace[j].HeadBecame? && trace[j].head.Some? && To(trace[j].head.value) == to;
    assert (trace + [x])[j] == trace[j];
  }

  /** A longer trace changes nothing for what is on its way. */
  lemma Seeing(net: Net, net': Net, x: Seen)
    requires OnlyHeads(net) && net'.trace == net.trace + [x]
    requires forall ev :: ev in net'.events && ev.Added? && ev.index == 0 ==>
               ev in net.events || WasHead(net'.trace, To(ev.item), |net'.trace|)
    requires forall to :: to in net'.replies ==> to in net.replies
    requires net'.queue != [] ==> Head(net'.queue) == Head(net.queue) || x == HeadBecame(Head(net'.queue))
    requires x.FirstSent? ==> WasHead(net.trace, x.to, |net.trace|)
    ensures OnlyHeads(net')
  {
    forall i | 0 <= i < |net'.trace| && net'.trace[i].FirstSent?
      ensures WasHead(net'.trace, net'.trace[i].to, i)
    {
      if i < |net.trace| { WasHeadLater(net.trace, x, net.trace[i].to, i); }
      else { WasHeadLater(net.trace, x, x.to, |net.trace|); }
    }
    forall ev | ev in net'.events && ev.Added? && ev.index == 0
      ensures WasHead(net'.trace, To(ev.item), |net'.trace|)
    {
      if ev in net.events { WasHeadLater(net.trace, x, To(ev.item), |net.trace|); }
    }
    forall to | to in net'.replies ensures WasHead(net'.trace, to, |net'.trace|) {
      WasHeadLater(net.trace, x, to, |net.trace|);
    }
    if net'.queue != [] {
      if Head(net'.queue) == Head(net.queue) {
        WasHeadLater(net.trace, x, To(net'.queue[0]), |net.trace|);
      } else {
        assert net'.trace[|net.trace|] == x;
      }
    }
  }

  lemma AddTellsHeads(net: Net, item: Booking)
    requires Distinct(net.queue) && OnlyHeads(net)
    ensures OnlyHeads(Next(net, Add(item)))
  {
    var net' := Next(net, Add(item));
    AddEventIsItsPlace(net.queue, item);
    if net.queue == [] {
      assert net'.trace[|net.trace|] == HeadBecame(Some(item));
      Seeing(net, net', HeadBecame(Some(item)));
    }
  }

  lemma RemoveTellsHeads(net: Net, item: Booking, closed: bool)
    requires OnlyHeads(net)
    ensures OnlyHeads(Next(net, Remove(item, closed)))
  {
    var net' := Next(net, Remove(item, closed));
    if Head(net'.queue) != Head(net.queue) { Seeing(net, net', HeadBecame(Head(net'.queue))); }
  }

  lemma DeliverTellsHeads(net: Net, i: nat)
    requires OnlyHeads(net)
    ensures OnlyHeads(Next(net, Deliver(i)))
  {
    if i < |net.events| {
      var ev := net.events[i];
      TakenOut(net.events, i);
      if ev.Added? && ev.index == 0 {
        assert ev in net.events;
        Seeing(net, Next(net, Deliver(i)), FirstSent(To(ev.item)));
      }
    }
  }

  lemma PublishTellsHeads(net: Net, i: nat)
    requires OnlyHeads(net)
    ensures OnlyHeads(Next(net, Publish(i)))
  {
    if i < |net.replies| {
      TakenOut(net.replies, i);
      assert net.replies[i] in net.replies;
      Seeing(net, Next(net, Publish(i)), FirstSent(net.replies[i]));
    }
  }

  lemma {:induction false} RunTellsHeads(net: Net, steps: seq<Step>)
    requires Inv(net) && OnlyHeads(net)
    ensures OnlyHeads(Run(net, steps))
    decreases steps
  {
    if steps != [] {
      StepKeeps(net, steps[0]);
      match steps[0] {
        case Add(item) => AddTellsHeads(net, item);
        case Remove(item, closed) => RemoveTellsHeads(net, item, closed);
        case Deliver(i) => DeliverTellsHeads(net, i);
        case Publish(i) => PublishTellsHeads(net, i);
        case ReadHead =>
      }
      RunTellsHeads(Next(net, steps[0]), steps[1..]);
    }
  }

  /** Whatever the interleaving, nobody is told to be first who was not the head before. */
  lemma OnlyHeadsAreTold(steps: seq<Step>, i: nat)
    requires i < |Run(START, steps).trace| && Run(START, steps).trace[i].FirstSent?
    ensures var trace := Run(START, steps).trace; WasHead(trace, trace[i].to, i)
  {
    RunTellsHeads(START, steps);
  }

  // ----- How many messages there are -----

  predicate Sent(x: Seen) {
    x.FirstSent?
  }

  predicate Change(x: Seen) {
    x.HeadBecame?
  }

  /** The handler of this event leads to a message. */
  predicate Tells(ev: Event) {
    if ev.Added? then ev.index == 0 else ev.firstItemChanged
  }

  /** Messages sent and on their way. */
  function Messages(net: Net): nat {
    |Filter(Sent, net.trace)| + |Filter(Tells, net.events)| + net.asked + |net.replies|
  }

  /** A removal that misnames the head. */
  predicate MisnamesHead(net: Net, step: Step) {
    step.Remove? && IndexOf(net.queue, step.item.number) == 0 && Misnamed(net.queue, step.item)
  }

  /** A read that finds nobody to tell. */
  predicate FindsNobody(net: Net, step: Step) {
    step.ReadHead? && net.asked > 0 && net.queue == []
  }

  function Count(net: Net, steps: seq<Step>, what: (Net, Step) -> bool): nat
    decreases steps
  {
    if steps == [] then 0
    else (if what(net, steps[0]) then 1 else 0) + Count(Next(net, steps[0]), steps[1..], what)
  }

  /** What a step adds to the messages and to the head changes. */
  ghost predicate Balanced(net: Net, step: Step) {
    var net' := Next(net, step);
    Messages(net') + (if FindsNobody(net, step) then 1 else 0) + |Filter(Change, net.trace)| ==
    Messages(net) + (if MisnamesHead(net, step) then 1 else 0) + |Filter(Change, net'.trace)|
  }

  lemma OneMore<T>(keep: T -> bool, xs: seq<T>, x: T)
    ensures |Filter(keep, xs + [x])| == |Filter(keep, xs)| + if keep(x) then 1 else 0
  {
    FilterAppend(keep, xs, [x]);
    assert [x][1..] == [];
  }

  lemma StoreMessages(net: Net, q: seq<Booking>)
    ensures var trace' := Store(net, q).trace;
            |Filter(Sent, trace')| == |Filter(Sent, net.trace)| &&
            |Filter(Change, trace')| == |Filter(Change, net.trace)| + if Head(q) == Head(net.queue) then 0 else 1
  {
    OneMore(Sent, net.trace, HeadBecame(Head(q)));
    OneMore(Change, net.trace, HeadBecame(Head(q)));
  }

  lemma AddBalanced(net: Net, item: Booking)
    requires Distinct(net.queue)
    ensures Balanced(net, Add(item))
  {
    AddEventIsItsPlace(net.queue, item);
    StoreMessages(net, Push(net.queue, item));
    if AddEvent(net.queue, item).Some? { OneMore(Tells, net.events, AddEvent(net.queue, item).value); }
  }

  lemma RemoveBalanced(net: Net, item: Booking, closed: bool)
    requires Distinct(net.queue)
    ensures Balanced(net, Remove(item, closed))
  {
    HeadAfterPull(net.queue, item);
    StoreMessages(net, Pull(net.queue, item));
    OneMore(Tells, net.events, RemoveEvent(net.queue, item, closed));
  }

  lemma SendBalanced(net: Net, step: Step)
    requires step.Deliver? || step.Publish? || step.ReadHead?
    ensures Balanced(net, step)
  {
    match step
    case Deliver(i) =>
      if i < |net.events| {
        FilterTakeOut(Tells, net.events, i);
        OneMore(Sent, net.trace, FirstSent(To(net.events[i].item)));
        OneMore(Change, net.trace, FirstSent(To(net.events[i].item)));
      }
    case Publish(i) =>
      if i < |net.replies| {
        OneMore(Sent, net.trace, FirstSent(net.replies[i]));
        OneMore(Change, net.trace, FirstSent(net.replies[i]));
      }
    case _ =>
  }

  lemma {:induction false} RunBalanced(net: Net, steps: seq<Step>)
    requires Inv(net)
    ensures var net' := Run(net, steps);
            Messages(net') + Count(net, steps, FindsNobody) + |Filter(Change, net.trace)| ==
            Messages(net) + Count(net, steps, MisnamesHead) + |Filter(Change, net'.trace)|
    decreases steps
  {
    if steps != [] {
      StepKeeps(net, steps[0]);
      match steps[0] {
        case Add(item) => AddBalanced(net, item);
        case Remove(item, closed) => RemoveBalanced(net, item, closed);
        case _ => SendBalanced(net, steps[0]);
      }
      RunBalanced(Next(net, steps[0]), steps[1..]);
    }
  }

  /** Whatever the interleaving: one message per change of the head and one per removal that misnames
      the head, sent or on its way, less the reads that found the queue empty. */
  lemma MessagesAreHeadChanges(steps: seq<Step>)
    ensures var net := Run(START, steps);
            Messages(net) + Count(START, steps, FindsNobody) ==
            |Filter(Change, net.trace)| + Count(START, steps, MisnamesHead)
  {
    RunBalanced(START, steps);
  }
}
