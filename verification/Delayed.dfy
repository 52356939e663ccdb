/** The queue, the webhooks and the event handlers when events wait to be delivered.

    A database step is atomic and fixes the payload of its event; the event waits in a FIFO; its
    handler runs later, against the queue as it is then. */
module Delayed {
  import opened Types
  import opened Queue
  import opened Statuses
  import opened PullRequestManager

  datatype Net = Net(board: Board, events: seq<Event>)

  // ----- The handlers -----

  /** handler-event-queue.js: `addItem` trusts the captured index, `removeItem` rereads the queue. */
  function Handle(b: Board, ev: Event): Board {
    match ev
    case Added(item, index) => SetByPosition(b, item.number, index)
    case Removed(item, closed, _) => Refresh(if closed then b else Write(b, item.number, BLOCKED))
  }

  /** Deliver everything in flight, oldest first. */
  function Drain(b: Board, es: seq<Event>): Board
    decreases es
  {
    if es == [] then b else Drain(Handle(b, es[0]), es[1..])
  }

  // ----- The steps -----

  datatype Step =
    | Add(item: Booking)
    | Remove(item: Booking)
    | Deliver
    | Open(n: nat, sha: string)
    | Sync(n: nat, sha: string)
    | Close(n: nat, mergedBy: Option<string>)

  /** The merging update of `_updatePullRequestInfo`: the stored status survives. */
  function Upsert(b: Board, n: nat, sha: string): Board {
    b.(records := Merged(b.records, n, Record(Some(sha), None)))
  }

  function Opened(b: Board, n: nat, sha: string): Board {
    Write(Upsert(b, n, sha), n, BLOCKED)
  }

  function Synced(b: Board, n: nat, sha: string): Board {
    SetByPosition(Upsert(b, n, sha), n, IndexOf(b.queue, n))
  }

  function FinalCheck(mergedBy: Option<string>): Check {
    match mergedBy
    case None => BLOCKED
    case Some(username) => Check(Passing, MergedBy(username))
  }

  function Enqueue(b: Board, item: Booking): Board {
    b.(queue := Push(b.queue, item))
  }

  function Dequeue(b: Board, item: Booking): Board {
    b.(queue := Pull(b.queue, item))
  }

  /** The last write of `handleClosed`, then the record goes. */
  function Forget(b: Board, n: nat, mergedBy: Option<string>): Board {
    var b1 := Write(b, n, FinalCheck(mergedBy));
    b1.(records := b1.records - {n})
  }

  /** `handleClosed` looks the booking up first, so its removal matches. */
  function DequeueNumber(b: Board, n: nat): Board {
    var i := IndexOf(b.queue, n);
    if i < 0 then b else Dequeue(b, b.queue[i])
  }

  function ClosingEvents(q: seq<Booking>, n: nat): seq<Event> {
    var i := IndexOf(q, n);
    if i < 0 then [] else [RemoveEvent(q, q[i], true)]
  }

  function Next(net: Net, step: Step): Net {
    var b := net.board;
    match step
    case Add(item) =>
      var ev := AddEvent(b.queue, item);
      Net(Enqueue(b, item), if ev.Some? then net.events + [ev.value] else net.events)
    case Remove(item) =>
      Net(Dequeue(b, item), net.events + [RemoveEvent(b.queue, item, false)])
    case Deliver =>
      if net.events == [] then net else Net(Handle(b, net.events[0]), net.events[1..])
    case Open(n, sha) => Net(Opened(b, n, sha), net.events)
    case Sync(n, sha) => Net(Synced(b, n, sha), net.events)
    case Close(n, mergedBy) =>
      Net(Forget(DequeueNumber(b, n), n, mergedBy), net.events + ClosingEvents(b.queue, n))
  }

  function Run(net: Net, steps: seq<Step>): Net
    decreases steps
  {
    if steps == [] then net else Run(Next(net, steps[0]), steps[1..])
  }

  lemma HandleKeeps(b: Board, ev: Event)
    ensures Handle(b, ev).queue == b.queue && Handle(b, ev).records == b.records
  {
    var b1 := if ev.Removed? && !ev.closed then Write(b, ev.item.number, BLOCKED) else b;
    RefreshKeeps(b1, Top(b1.queue), 0);
  }

  // ----- What the steps store and publish -----

  /** What a step does to the queue. */
  lemma StepQueue(net: Net, step: Step)
    ensures var q, q' := net.board.queue, Next(net, step).board.queue;
            match step
            case Add(item) => q' == Push(q, item)
            case Remove(item) => q' == Pull(q, item)
            case Close(n, _) =>
              if IndexOf(q, n) < 0 then q' == q else exists first :: IsFirstOf(first, q, n) && q' == Pull(q, first)
            case _ => q' == q
  {
    match step
    case Deliver => if net.events != [] { HandleKeeps(net.board, net.events[0]); }
    case Close(n, _) =>
      var r := IndexOf(net.board.queue, n);
      if r >= 0 { FirstIsAtIndex(net.board.queue, n, net.board.queue[r]); }
    case _ =>
  }

  /** The events a step publishes, as the store says them. */
  function Published(q: seq<Booking>, step: Step): seq<Event> {
    match step
    case Add(item) => if IndexOf(q, item.number) >= 0 then [] else [Added(item, |q|)]
    case Remove(item) => [Removed(item, false, IndexOf(q, item.number) == 0)]
    case Close(n, _) =>
      var i := IndexOf(q, n);
      if i < 0 then [] else [Removed(q[i], true, i == 0)]
    case _ => []
  }

  function AllPublished(net: Net, steps: seq<Step>): seq<Event>
    decreases steps
  {
    if steps == [] then [] else Published(net.board.queue, steps[0]) + AllPublished(Next(net, steps[0]), steps[1..])
  }

  /** The events whose handlers a run executes. */
  function AllDelivered(net: Net, steps: seq<Step>): seq<Event>
    decreases steps
  {
    if steps == [] then []
    else (if steps[0].Deliver? && net.events != [] then [net.events[0]] else []) +
         AllDelivered(Next(net, steps[0]), steps[1..])
  }

  lemma StepEvents(net: Net, step: Step)
    ensures (if step.Deliver? && net.events != [] then [net.events[0]] else []) + Next(net, step).events
         == net.events + Published(net.board.queue, step)
  {
    var q := net.board.queue;
    match step
    case Remove(item) =>
      assert q != [] ==> (IndexOf(q, item.number) == 0 <==> q[0].number == item.number);
    case Close(n, _) => assert q != [] ==> (IndexOf(q, n) == 0 <==> q[0].number == n);
    case _ =>
  }

  lemma Regroup<T>(
    done: seq<T>, delivered: seq<T>, rest: seq<T>, mid: seq<T>, was: seq<T>, added: seq<T>, later: seq<T>)
    requires done + mid == was + added && delivered + rest == mid + later
    ensures (done + delivered) + rest == was + (added + later)
  {
    assert (done + delivered) + rest == done + (delivered + rest);
    assert done + (mid + later) == (done + mid) + later;
    assert (was + added) + later == was + (added + later);
  }

  /** Every event published is delivered, once and in order, or still in flight. */
  lemma {:induction false} EventsAreConserved(net: Net, steps: seq<Step>)
    ensures AllDelivered(net, steps) + Run(net, steps).events == net.events + AllPublished(net, steps)
    decreases steps
  {
    if steps == [] {
      assert net.events + [] == net.events && [] + net.events == net.events;
    } else {
      var net', rest := Next(net, steps[0]), steps[1..];
      StepEvents(net, steps[0]);
      EventsAreConserved(net', rest);
      Regroup(if steps[0].Deliver? && net.events != [] then [net.events[0]] else [], AllDelivered(net', rest),
              Run(net', rest).events, net'.events, net.events, Published(net.board.queue, steps[0]),
              AllPublished(net', rest));
    }
  }

  /** The commit of `n` last stored and not forgotten since. */
  function KnownCommit(steps: seq<Step>, n: nat): Option<string> {
    if steps == [] then None
    else
      var k := |steps| - 1;
      match steps[k]
      case Open(m, sha) => if m == n then Some(sha) else KnownCommit(steps[..k], n)
      case Sync(m, sha) => if m == n then Some(sha) else KnownCommit(steps[..k], n)
      case Close(m, _) => if m == n then None else KnownCommit(steps[..k], n)
      case _ => KnownCommit(steps[..k], n)
  }

  lemma StepCommit(net: Net, step: Step, n: nat)
    ensures ShaOf(Next(net, step).board, n) ==
            match step
            case Open(m, sha) => if m == n then Some(sha) else ShaOf(net.board, n)
            case Sync(m, sha) => if m == n then Some(sha) else ShaOf(net.board, n)
            case Close(m, _) => if m == n then None else ShaOf(net.board, n)
            case _ => ShaOf(net.board, n)
  {
    if step.Deliver? && net.events != [] { HandleKeeps(net.board, net.events[0]); }
  }

  lemma {:induction false} RunAppend(net: Net, steps: seq<Step>, step: Step)
    ensures Run(net, steps + [step]) == Next(Run(net, steps), step)
    decreases steps
  {
    if steps == [] {
      assert ([] + [step])[1..] == [];
    } else {
      assert (steps + [step])[1..] == steps[1..] + [step];
      RunAppend(Next(net, steps[0]), steps[1..], step);
    }
  }

  /** Over every run the tracked pull requests are those opened or pushed and not closed since, each
      with the commit given last, whatever is in flight. */
  lemma {:induction false} TrackedIsItsHistory(net: Net, steps: seq<Step>, n: nat)
    requires net.board.records == map[]
    ensures ShaOf(Run(net, steps).board, n) == KnownCommit(steps, n)
  {
    if steps != [] {
      var k := |steps| - 1;
      assert steps == steps[..k] + [steps[k]];
      RunAppend(net, steps[..k], steps[k]);
      TrackedIsItsHistory(net, steps[..k], n);
      StepCommit(Run(net, steps[..k]), steps[k], n);
    }
  }

  // ----- What a run must respect -----

  /** The last event in flight that will write to pull request `n` because it names it. */
  function LastNaming(es: seq<Event>, n: nat): Option<Event> {
    if es == [] then None
    else
      var later := LastNaming(es[1..], n);
      if later.Some? then later
      else if es[0].item.number == n && !(es[0].Removed? && es[0].closed) then Some(es[0])
      else None
  }

  /** No add of pull request `n` is still to be delivered, except before a removal of it. */
  predicate CloseSafe(es: seq<Event>, n: nat) {
    var last := LastNaming(es, n);
    last.None? || last.value.Removed?
  }

  /** `exact` asks for exact descriptions; without it only conclusions are promised. */
  ghost predicate Allowed(net: Net, step: Step, exact: bool) {
    var b := net.board;
    match step
    case Add(item) => true
    case Remove(item) => exact ==> !FarMisnamed(b.queue, item)
    case Deliver => true
    case Open(n, sha) => IndexOf(b.queue, n) < 0 && ShaFree(b, n, sha)
    case Sync(n, sha) => ShaFree(b, n, sha)
    case Close(n, _) => CloseSafe(net.events, n)
  }

  ghost predicate AllowedRun(net: Net, steps: seq<Step>, exact: bool)
    decreases steps
  {
    steps == [] ||
    (Allowed(net, steps[0], exact) && AllowedRun(Next(net, steps[0]), steps[1..], exact))
  }

  // ----- The last write in flight -----

  /** What the handler of `ev` writes to pull request `n`, if anything. */
  function Effect(ev: Event, q: seq<Booking>, n: nat): Option<Check> {
    match ev
    case Added(item, index) => if item.number == n then Some(StatusAt(index)) else None
    case Removed(item, closed, _) =>
      var i := IndexOf(q, n);
      if 0 <= i <= MAX_REPORTED_QUEUE_POSITION then Some(StatusAt(i))
      else if item.number == n && !closed then Some(BLOCKED)
      else None
  }

  /** What pull request `n` is left with when `es` are delivered while the queue is `q`. */
  function LastWrite(es: seq<Event>, q: seq<Booking>, n: nat): Option<Check> {
    if es == [] then None
    else
      var later := LastWrite(es[1..], q, n);
      if later.Some? then later else Effect(es[0], q, n)
  }

  lemma {:induction false} LastWriteAppend(es: seq<Event>, ev: Event, q: seq<Booking>, n: nat)
    ensures LastWrite(es + [ev], q, n) ==
            if Effect(ev, q, n).Some? then Effect(ev, q, n) else LastWrite(es, q, n)
  {
    if es == [] {
      assert (es + [ev])[1..] == [];
    } else {
      LastWriteAppend(es[1..], ev, q, n);
      assert (es + [ev])[1..] == es[1..] + [ev];
    }
  }

  /** The queue matters to the events in flight only through the first six places. */
  function Window(q: seq<Booking>, n: nat): int {
    var i := IndexOf(q, n);
    if i <= MAX_REPORTED_QUEUE_POSITION then i else -1
  }

  lemma {:induction false} LastWriteWindow(es: seq<Event>, q: seq<Booking>, r: seq<Booking>, n: nat)
    requires Window(q, n) == Window(r, n)
    ensures LastWrite(es, q, n) == LastWrite(es, r, n)
  {
    if es != [] { LastWriteWindow(es[1..], q, r, n); }
  }

  /** Outside the window only the events that name `n` write to it. */
  lemma {:induction false} LastWriteNaming(es: seq<Event>, q: seq<Booking>, n: nat)
    requires Window(q, n) < 0
    ensures LastWrite(es, q, n) ==
            match LastNaming(es, n)
            case None => None
            case Some(Added(_, index)) => Some(StatusAt(index))
            case Some(Removed(_, _, _)) => Some(BLOCKED)
  {
    if es != [] { LastWriteNaming(es[1..], q, n); }
  }

  lemma HandleShown(b: Board, ev: Event, n: nat)
    requires WellFormed(b)
    ensures var b' := Handle(b, ev);
            b'.queue == b.queue && b'.records == b.records && WellFormed(b') &&
            Shown(b', n) == if Tracked(b, n) && Effect(ev, b.queue, n).Some?
                            then Effect(ev, b.queue, n) else Shown(b, n)
  {
    match ev
    case Added(item, index) => WriteShown(b, item.number, StatusAt(index), n);
    case Removed(item, closed, _) =>
      WriteShown(b, item.number, BLOCKED, n);
      RefreshShown(if closed then b else Write(b, item.number, BLOCKED), n);
  }

  lemma {:induction false} DrainShown(b: Board, es: seq<Event>, n: nat)
    requires WellFormed(b)
    ensures var b' := Drain(b, es);
            b'.queue == b.queue && b'.records == b.records && WellFormed(b') &&
            Shown(b', n) == if Tracked(b, n) && LastWrite(es, b.queue, n).Some?
                            then LastWrite(es, b.queue, n) else Shown(b, n)
    decreases es
  {
    if es != [] {
      HandleShown(b, es[0], n);
      DrainShown(Handle(b, es[0]), es[1..], n);
    }
  }

  // ----- The invariant: folding what is in flight gives agreement -----

  /** The part of a check that is promised. */
  function Promised(exact: bool, c: Check): Check {
    if exact then c else c.(description := NotInQueue)
  }

  ghost predicate SettlesRight(net: Net, exact: bool, n: nat) {
    var b := net.board;
    var last := LastWrite(net.events, b.queue, n);
    match last
    case Some(c) => Promised(exact, c) == Promised(exact, Expected(b, n))
    case None => Tracked(b, n) ==>
      Shown(b, n).Some? && Promised(exact, Shown(b, n).value) == Promised(exact, Expected(b, n))
  }

  ghost predicate Inv(net: Net, exact: bool) {
    WellFormed(net.board) &&
    (forall ev :: ev in net.events && ev.Added? ==> ev.index >= 0) &&
    forall n :: SettlesRight(net, exact, n)
  }

  lemma AddKeeps(net: Net, item: Booking, exact: bool)
    requires Inv(net, exact)
    ensures Inv(Next(net, Add(item)), exact)
  {
    var b := net.board;
    var net' := Next(net, Add(item));
    PushIndex(b.queue, item, 0);
    forall k ensures ShaOf(net'.board, k) == ShaOf(b, k) {}
    forall n ensures SettlesRight(net', exact, n) {
      assert SettlesRight(net, exact, n);
      PushIndex(b.queue, item, n);
      if IndexOf(b.queue, item.number) < 0 {
        LastWriteAppend(net.events, AddEvent(b.queue, item).value, net'.board.queue, n);
        if n != item.number { LastWriteWindow(net.events, b.queue, net'.board.queue, n); }
      }
    }
  }

  /** What a removal changes for pull request `n`, the events in flight included. */
  lemma RemovalLastWrite(es: seq<Event>, q: seq<Booking>, item: Booking, n: nat)
    requires Distinct(q)
    ensures var q', ev := Pull(q, item), RemoveEvent(q, item, false);
            var k := IndexOf(q', n);
            LastWrite(es + [ev], q', n) ==
            if 0 <= k <= MAX_REPORTED_QUEUE_POSITION then Some(StatusAt(k))
            else if n == item.number then Some(BLOCKED) else LastWrite(es, q, n)
    ensures var k := IndexOf(Pull(q, item), n);
            (n == item.number && k >= 0 ==> Misnamed(q, item) && k == IndexOf(q, n)) &&
            (n == item.number && Misnamed(q, item) ==> k == IndexOf(q, n)) &&
            (n != item.number && Window(Pull(q, item), n) < 0 ==> StatusAt(k) == StatusAt(IndexOf(q, n)))
  {
    var q' := Pull(q, item);
    PullIndex(q, item, n);
    LastWriteAppend(es, RemoveEvent(q, item, false), q', n);
    if Window(q', n) < 0 && n != item.number { LastWriteWindow(es, q, q', n); }
  }

  lemma DequeueWellFormed(b: Board, item: Booking)
    requires WellFormed(b)
    ensures WellFormed(Dequeue(b, item)) && forall k :: ShaOf(Dequeue(b, item), k) == ShaOf(b, k)
    ensures forall k :: Shown(Dequeue(b, item), k) == Shown(b, k)
  {
    PullIndex(b.queue, item, 0);
    forall k ensures ShaOf(Dequeue(b, item), k) == ShaOf(b, k) {}
  }

  lemma RemoveKeeps(net: Net, item: Booking, exact: bool)
    requires Inv(net, exact) && Allowed(net, Remove(item), exact)
    ensures Inv(Next(net, Remove(item)), exact)
  {
    var net' := Next(net, Remove(item));
    DequeueWellFormed(net.board, item);
    forall n ensures SettlesRight(net', exact, n) {
      assert SettlesRight(net, exact, n);
      RemovalLastWrite(net.events, net.board.queue, item, n);
    }
  }

  lemma DeliverKeeps(net: Net, exact: bool)
    requires Inv(net, exact)
    ensures Inv(Next(net, Deliver), exact)
  {
    if net.events != [] {
      var net' := Next(net, Deliver);
      HandleShown(net.board, net.events[0], 0);
      forall n ensures SettlesRight(net', exact, n) {
        assert SettlesRight(net, exact, n);
        HandleShown(net.board, net.events[0], n);
      }
    }
  }

  /** Both `opened` and the other pull request actions store the commit, then write one status. */
  lemma UpsertKeeps(net: Net, n: nat, sha: string, check: Check, exact: bool)
    requires Inv(net, exact) && ShaFree(net.board, n, sha)
    requires check == Expected(net.board, n)
    ensures Inv(Net(Write(Upsert(net.board, n, sha), n, check), net.events), exact)
  {
    var b := net.board;
    var b1 := Upsert(b, n, sha);
    assert forall k :: ShaOf(b1, k) == if k == n then Some(sha) else ShaOf(b, k);
    assert DistinctShas(b1);
    WriteShown(b1, n, check, 0);
    forall m ensures SettlesRight(Net(Write(b1, n, check), net.events), exact, m) {
      assert SettlesRight(net, exact, m);
      WriteShown(b1, n, check, m);
    }
  }

  lemma ForgetShown(b: Board, n: nat, mergedBy: Option<string>, m: nat)
    requires WellFormed(b)
    ensures var b' := Forget(b, n, mergedBy);
            b'.queue == b.queue && WellFormed(b') && !Tracked(b', n) &&
            (m != n ==> ShaOf(b', m) == ShaOf(b, m) && Shown(b', m) == Shown(b, m))
  {
    var b1 := Write(b, n, FinalCheck(mergedBy));
    WriteShown(b, n, FinalCheck(mergedBy), m);
    var b' := Forget(b, n, mergedBy);
    assert forall k :: ShaOf(b', k) == if k == n then None else ShaOf(b, k);
  }

  /** The board after a close: everyone else keeps commit and check. */
  lemma ClosedShown(b: Board, n: nat, mergedBy: Option<string>, m: nat)
    requires WellFormed(b)
    ensures var b' := Forget(DequeueNumber(b, n), n, mergedBy);
            WellFormed(b') && !Tracked(b', n) &&
            (m != n ==> ShaOf(b', m) == ShaOf(b, m) && Shown(b', m) == Shown(b, m))
  {
    if IndexOf(b.queue, n) >= 0 { DequeueWellFormed(b, b.queue[IndexOf(b.queue, n)]); }
    ForgetShown(DequeueNumber(b, n), n, mergedBy, m);
  }

  /** What is in flight after a close: nothing new is written to the closed pull request. */
  lemma ClosedLastWrite(es: seq<Event>, q: seq<Booking>, n: nat)
    requires Distinct(q)
    ensures var q' := DequeueNumber(Board(q, map[], map[]), n).queue;
            IndexOf(q', n) == -1 && LastWrite(es + ClosingEvents(q, n), q', n) == LastWrite(es, q', n)
  {
    var i := IndexOf(q, n);
    if i < 0 {
      assert es + [] == es;
    } else {
      PullIndex(q, q[i], n);
      LastWriteAppend(es, RemoveEvent(q, q[i], true), Pull(q, q[i]), n);
    }
  }

  /** Whoever the closing removal does not rewrite keeps its last write and its description. */
  lemma OtherLastWrite(es: seq<Event>, q: seq<Booking>, n: nat, m: nat)
    requires Distinct(q) && m != n
    ensures var q' := DequeueNumber(Board(q, map[], map[]), n).queue;
            var last, k := LastWrite(es + ClosingEvents(q, n), q', m), IndexOf(q', m);
            if IndexOf(q, n) >= 0 && Window(q', m) >= 0 then last == Some(StatusAt(k))
            else last == LastWrite(es, q, m) && StatusAt(k) == StatusAt(IndexOf(q, m))
  {
    var i := IndexOf(q, n);
    if i < 0 {
      assert es + [] == es;
    } else {
      var q' := Pull(q, q[i]);
      PullIndex(q, q[i], m);
      LastWriteAppend(es, RemoveEvent(q, q[i], true), q', m);
      if Window(q', m) < 0 { LastWriteWindow(es, q, q', m); }
    }
  }

  lemma ClosedSettles(net: Net, n: nat, mergedBy: Option<string>, exact: bool)
    requires WellFormed(net.board) && CloseSafe(net.events, n)
    ensures SettlesRight(Next(net, Close(n, mergedBy)), exact, n)
  {
    ClosedLastWrite(net.events, net.board.queue, n);
    ClosedShown(net.board, n, mergedBy, n);
    LastWriteNaming(net.events, DequeueNumber(net.board, n).queue, n);
  }

  lemma OtherSettles(net: Net, n: nat, mergedBy: Option<string>, exact: bool, m: nat)
    requires WellFormed(net.board) && SettlesRight(net, exact, m) && m != n
    ensures SettlesRight(Next(net, Close(n, mergedBy)), exact, m)
  {
    OtherLastWrite(net.events, net.board.queue, n, m);
    ClosedShown(net.board, n, mergedBy, m);
  }

  lemma CloseKeeps(net: Net, n: nat, mergedBy: Option<string>, exact: bool)
    requires Inv(net, exact) && CloseSafe(net.events, n)
    ensures Inv(Next(net, Close(n, mergedBy)), exact)
  {
    ClosedShown(net.board, n, mergedBy, 0);
    forall m ensures SettlesRight(Next(net, Close(n, mergedBy)), exact, m) {
      assert SettlesRight(net, exact, m);
      if m == n { ClosedSettles(net, n, mergedBy, exact); } else { OtherSettles(net, n, mergedBy, exact, m); }
    }
  }

  lemma StepKeeps(net: Net, step: Step, exact: bool)
    requires Inv(net, exact) && Allowed(net, step, exact)
    ensures Inv(Next(net, step), exact)
  {
    match step
    case Add(item) => AddKeeps(net, item, exact);
    case Remove(item) => RemoveKeeps(net, item, exact);
    case Deliver => DeliverKeeps(net, exact);
    case Open(n, sha) => UpsertKeeps(net, n, sha, BLOCKED, exact);
    case Sync(n, sha) => UpsertKeeps(net, n, sha, Expected(net.board, n), exact);
    case Close(n, mergedBy) => CloseKeeps(net, n, mergedBy, exact);
  }

  lemma {:induction false} RunKeeps(net: Net, steps: seq<Step>, exact: bool)
    requires Inv(net, exact) && AllowedRun(net, steps, exact)
    ensures Inv(Run(net, steps), exact)
    decreases steps
  {
    if steps != [] {
      StepKeeps(net, steps[0], exact);
      RunKeeps(Next(net, steps[0]), steps[1..], exact);
    }
  }

  /** Nothing queued, nothing tracked, nothing in flight; old check runs may exist. */
  function Start(checks: map<string, Check>): Net {
    Net(Board([], map[], checks), [])
  }

  // ----- The theorems -----

  /** Delivering what is in flight always ends in exact agreement. */
  lemma DelayedConvergence(checks: map<string, Check>, steps: seq<Step>)
    requires AllowedRun(Start(checks), steps, true)
    ensures var net := Run(Start(checks), steps);
            Agrees(Drain(net.board, net.events)) && Drain(net.board, net.events).queue == net.board.queue
  {
    RunKeeps(Start(checks), steps, true);
    var net := Run(Start(checks), steps);
    DrainShown(net.board, net.events, 0);
    forall n ensures AgreesOn(Drain(net.board, net.events), n) {
      assert SettlesRight(net, true, n);
      DrainShown(net.board, net.events, n);
    }
  }

  ghost predicate Mergeable(b: Board, n: nat) {
    Tracked(b, n) && Shown(b, n).Some? && Shown(b, n).value.conclusion == Passing
  }

  /** Whatever names the removals use, once drained only the head of the queue is mergeable. */
  lemma OnlyTheHeadIsMergeable(checks: map<string, Check>, steps: seq<Step>)
    requires AllowedRun(Start(checks), steps, false)
    ensures var net := Run(Start(checks), steps);
            var b := Drain(net.board, net.events);
            (forall n :: Tracked(b, n) ==>
              (Mergeable(b, n) <==> b.queue != [] && b.queue[0].number == n)) &&
            (forall m, n :: Mergeable(b, m) && Mergeable(b, n) ==> m == n)
  {
    RunKeeps(Start(checks), steps, false);
    var net := Run(Start(checks), steps);
    var b := Drain(net.board, net.events);
    DrainShown(net.board, net.events, 0);
    forall n | Tracked(b, n) ensures Mergeable(b, n) <==> b.queue != [] && b.queue[0].number == n {
      assert SettlesRight(net, false, n);
      DrainShown(net.board, net.events, n);
      if b.queue != [] { IndexOfAt(b.queue, 0); }
    }
  }

  lemma RemovalAgreesOn(net: Net, item: Booking, m: nat)
    requires Inv(net, true)
    ensures var net' := Next(net, Remove(item));
            AgreesOn(Drain(net'.board, net'.events), m) <==>
            !(FarMisnamed(net.board.queue, item) && Tracked(net.board, m) && m == item.number)
  {
    var net' := Next(net, Remove(item));
    assert SettlesRight(net, true, m);
    DequeueWellFormed(net.board, item);
    DrainShown(net'.board, net'.events, m);
    RemovalLastWrite(net.events, net.board.queue, item, m);
  }

  /** From a board on its way to agreement, a removal keeps it so exactly when it is not a
      misnamed removal of a tracked pull request behind the sixth place. */
  lemma RemovalConvergesExactly(net: Net, item: Booking)
    requires Inv(net, true)
    ensures var net' := Next(net, Remove(item));
            Agrees(Drain(net'.board, net'.events)) <==>
            !(FarMisnamed(net.board.queue, item) && Tracked(net.board, item.number))
  {
    RemovalAgreesOn(net, item, item.number);
    forall m { RemovalAgreesOn(net, item, m); }
  }

  lemma {:induction false} LastNamingIn(es: seq<Event>, n: nat)
    ensures LastNaming(es, n).Some? ==> LastNaming(es, n).value in es
  {
    if es != [] { LastNamingIn(es[1..], n); }
  }

  /** A pull request that is not queued, and was just blocked, is right when no other check is
      still to be written to it. */
  lemma UnqueuedShown(b: Board, es: seq<Event>, n: nat)
    requires WellFormed(b) && Tracked(b, n) && IndexOf(b.queue, n) == -1
    ensures var last := LastWrite(es, b.queue, n);
            AgreesOn(Drain(Write(b, n, BLOCKED), es), n) <==> last.None? || last.value == BLOCKED
  {
    WriteShown(b, n, BLOCKED, n);
    DrainShown(Write(b, n, BLOCKED), es, n);
  }

  /** Outside the window nothing but a block is still to be written exactly when no add comes last. */
  lemma NamingBlocks(es: seq<Event>, q: seq<Booking>, n: nat)
    requires Window(q, n) < 0 && forall ev :: ev in es && ev.Added? ==> ev.index >= 0
    ensures var last := LastWrite(es, q, n); last.None? || last.value == BLOCKED <==> CloseSafe(es, n)
  {
    LastWriteNaming(es, q, n);
    LastNamingIn(es, n);
  }

  lemma Reopened(b: Board, n: nat, mergedBy: Option<string>, sha: string)
    requires WellFormed(b) && ShaFree(b, n, sha)
    ensures var b' := Upsert(Forget(DequeueNumber(b, n), n, mergedBy), n, sha);
            WellFormed(b') && ShaOf(b', n) == Some(sha)
  {
    var b' := Upsert(Forget(DequeueNumber(b, n), n, mergedBy), n, sha);
    ClosedShown(b, n, mergedBy, n);
    forall k ensures ShaOf(b', k) == if k == n then Some(sha) else ShaOf(b, k) {
      ClosedShown(b, n, mergedBy, k);
    }
  }

  /** Closing and reopening a pull request ends right exactly when no add of it was in flight
      (or a removal of it was in flight behind the add). */
  lemma CloseConvergesExactly(net: Net, n: nat, mergedBy: Option<string>, sha: string)
    requires Inv(net, true) && ShaFree(net.board, n, sha)
    ensures var net' := Next(Next(net, Close(n, mergedBy)), Sync(n, sha));
            AgreesOn(Drain(net'.board, net'.events), n) <==> CloseSafe(net.events, n)
  {
    var b1 := Next(net, Close(n, mergedBy)).board;
    var events := Next(net, Close(n, mergedBy)).events;
    var b2 := Upsert(b1, n, sha);
    Reopened(net.board, n, mergedBy, sha);
    ClosedLastWrite(net.events, net.board.queue, n);
    UnqueuedShown(b2, events, n);
    NamingBlocks(net.events, b1.queue, n);
  }

  /** `opened` for a pull request that is already queued shows the wrong place exactly when
      nothing in flight will write to it again. */
  lemma OpenConvergesExactly(net: Net, n: nat, sha: string)
    requires Inv(net, true) && ShaFree(net.board, n, sha)
    ensures var net' := Next(net, Open(n, sha));
            AgreesOn(Drain(net'.board, net'.events), n) <==>
            IndexOf(net.board.queue, n) < 0 || LastWrite(net.events, net.board.queue, n).Some?
  {
    var b := Upsert(net.board, n, sha);
    assert forall k :: ShaOf(b, k) == if k == n then Some(sha) else ShaOf(net.board, k);
    assert DistinctShas(b) && SettlesRight(net, true, n);
    WriteShown(b, n, BLOCKED, n);
    DrainShown(Write(b, n, BLOCKED), net.events, n);
  }

  // ----- Any order of delivery -----

  /** Delivered last, the event would leave its tracked pull request with a wrong check: a captured
      index that is no longer the place, or the block of a pull request behind the sixth place. */
  predicate Stale(b: Board, ev: Event, exact: bool) {
    var i := IndexOf(b.queue, ev.item.number);
    Tracked(b, ev.item.number) &&
    match ev
    case Added(_, index) => Promised(exact, StatusAt(index)) != Promised(exact, StatusAt(i))
    case Removed(_, closed, _) => exact && !closed && i > MAX_REPORTED_QUEUE_POSITION
  }

  /** What is promised of a drained board. */
  ghost predicate Keeps(b: Board, exact: bool, n: nat) {
    Tracked(b, n) ==>
      Shown(b, n).Some? && Promised(exact, Shown(b, n).value) == Promised(exact, Expected(b, n))
  }

  ghost predicate ConvergesInAnyOrder(net: Net, exact: bool) {
    forall es: seq<Event>, n: nat :: multiset(es) == multiset(net.events) ==> Keeps(Drain(net.board, es), exact, n)
  }

  /** The last write is what some event does, and there is none only if no event does anything. */
  lemma {:induction false} LastWriteIsSome(es: seq<Event>, q: seq<Booking>, n: nat)
    ensures var last := LastWrite(es, q, n);
            if last.Some? then exists ev :: ev in es && Effect(ev, q, n) == last
            else forall ev :: ev in es ==> Effect(ev, q, n).None?
  {
    if es != [] {
      LastWriteIsSome(es[1..], q, n);
      assert es == [es[0]] + es[1..];
      if LastWrite(es[1..], q, n).Some? {
        var ev :| ev in es[1..] && Effect(ev, q, n) == LastWrite(es[1..], q, n);
        assert ev in es;
      } else {
        assert es[0] in es;
      }
    }
  }

  lemma EffectIsRight(b: Board, ev: Event, exact: bool, n: nat)
    requires Tracked(b, n) && !Stale(b, ev, exact)
    ensures Effect(ev, b.queue, n).Some? ==>
              Promised(exact, Effect(ev, b.queue, n).value) == Promised(exact, Expected(b, n))
  {
  }

  lemma SettlesInOrder(net: Net, es: seq<Event>, exact: bool, n: nat)
    requires Inv(net, exact) && multiset(es) == multiset(net.events)
    requires forall ev :: ev in net.events ==> !Stale(net.board, ev, exact)
    ensures Keeps(Drain(net.board, es), exact, n)
  {
    var b := net.board;
    DrainShown(b, es, n);
    LastWriteIsSome(es, b.queue, n);
    LastWriteIsSome(net.events, b.queue, n);
    assert SettlesRight(net, exact, n);
    assert forall ev :: ev in es <==> ev in multiset(es);
    assert forall ev :: ev in net.events <==> ev in multiset(net.events);
    assert ShaOf(Drain(b, es), n) == ShaOf(b, n);
    if Tracked(b, n) && LastWrite(es, b.queue, n).Some? {
      var ev :| ev in es && Effect(ev, b.queue, n) == LastWrite(es, b.queue, n);
      EffectIsRight(b, ev, exact, n);
    } else if Tracked(b, n) {
      assert LastWrite(net.events, b.queue, n).None?;
    }
  }

  lemma StaleLast(b: Board, es: seq<Event>, ev: Event, exact: bool)
    requires WellFormed(b) && Stale(b, ev, exact)
    ensures !Keeps(Drain(b, es + [ev]), exact, ev.item.number)
  {
    var n := ev.item.number;
    DrainShown(b, es + [ev], n);
    LastWriteAppend(es, ev, b.queue, n);
    assert ShaOf(Drain(b, es + [ev]), n) == ShaOf(b, n);
  }

  /** Event number `i` delivered after all the others. */
  function MovedLast(es: seq<Event>, i: nat): seq<Event>
    requires i < |es|
  {
    es[..i] + es[i + 1..] + [es[i]]
  }

  lemma MovedLastIsOrder(es: seq<Event>, i: nat)
    requires i < |es|
    ensures multiset(MovedLast(es, i)) == multiset(es)
  {
    assert es == es[..i] + [es[i]] + es[i + 1..];
  }

  lemma StaleLastMisleads(net: Net, i: nat, exact: bool)
    requires Inv(net, exact) && i < |net.events| && Stale(net.board, net.events[i], exact)
    ensures !ConvergesInAnyOrder(net, exact)
  {
    MovedLastIsOrder(net.events, i);
    StaleLast(net.board, net.events[..i] + net.events[i + 1..], net.events[i], exact);
    assert !Keeps(Drain(net.board, MovedLast(net.events, i)), exact, net.events[i].item.number);
  }

  /** The events in flight may be delivered in any order exactly when none of them is stale; for
      exact descriptions as for conclusions alone. */
  lemma AnyOrderConvergesExactly(net: Net, exact: bool)
    requires Inv(net, exact)
    ensures ConvergesInAnyOrder(net, exact) <==> forall ev :: ev in net.events ==> !Stale(net.board, ev, exact)
  {
    if ev :| ev in net.events && Stale(net.board, ev, exact) {
      var i :| 0 <= i < |net.events| && net.events[i] == ev;
      StaleLastMisleads(net, i, exact);
    } else {
      forall es: seq<Event>, n: nat | multiset(es) == multiset(net.events)
        ensures Keeps(Drain(net.board, es), exact, n)
      {
        SettlesInOrder(net, es, exact, n);
      }
    }
  }

  /** A stale event at work: an add captured behind one booking and delivered after that booking's
      removal leaves a head nobody can merge. */
  lemma OutOfOrderDeliveryMisleads()
    ensures var x, y := Booking(1, "ann", 0), Booking(2, "bob", 0);
            var b := Board([x, y], map[2 := Record(Some("s"), None)], map["s" := BLOCKED]);
            var added := AddEvent([x], y).value;
            var b' := Dequeue(b, x);
            var removed := RemoveEvent(b.queue, x, false);
            Agrees(Drain(b', [added, removed])) &&
            Drain(b', [removed, added]).queue == [y] &&
            Shown(Drain(b', [removed, added]), 2) == Some(Check(Blocking, Before(1)))
  {
    var x, y := Booking(1, "ann", 0), Booking(2, "bob", 0);
    var b := Board([x, y], map[2 := Record(Some("s"), None)], map["s" := BLOCKED]);
    var added := AddEvent([x], y).value;
    var b' := Dequeue(b, x);
    var removed := RemoveEvent(b.queue, x, false);
    PullOne(b.queue, x);
    assert IndexOf([x], 2) == -1 && b'.queue == [y] && IndexOf([y], 2) == 0;
    assert added == Added(y, 1);
    assert [added, removed][1..] == [removed] && [removed, added][1..] == [added];
    forall n ensures AgreesOn(Drain(b', [added, removed]), n) {
      DrainShown(b', [added, removed], n);
      LastWriteAppend([added], removed, [y], n);
      assert [added] + [removed] == [added, removed];
    }
    DrainShown(b', [removed, added], 2);
    LastWriteAppend([removed], added, [y], 2);
    assert [removed] + [added] == [removed, added];
  }
}
