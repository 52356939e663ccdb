/** One base branch when every request runs with all its event handlers to completion. */
module Settled {
  import opened Types
  import opened Queue
  import opened Statuses
  import opened PullRequestManager
  import D = Delayed
  import P = PushNotifications
  import GH = GitHub

  datatype Topic = SendChecks | CancelChecks

  /** A `send.checks` or `cancel.checks` message. */
  datatype Alert = Alert(topic: Topic, to: Recipient, state: Status)

  /** The board, the messages published so far, and the notification centre. */
  datatype World = World(board: Board, firsts: seq<Recipient>, alerts: seq<Alert>, center: P.Center)

  datatype Step =
    | Add(item: Booking)
    | Remove(item: Booking)
    | Close(n: nat, mergedBy: Option<string>)
    | Open(n: nat, sha: string)
    | Sync(n: nat, sha: string)
    | StatusChange(n: nat, state: Status, accepted: bool, elapsed: nat)
    | Wait(now: nat, delivered: set<nat>, expired: set<Recipient>)
    | Uninstall

  // ----- The operations -----

  function Booked(w: World, item: Booking): World {
    match AddEvent(w.board.queue, item)
    case None => w
    case Some(ev) =>
      w.(board := D.Handle(D.Enqueue(w.board, item), ev),
         firsts := w.firsts + if ev.index == 0 then [To(item)] else [])
  }

  function Unbooked(w: World, item: Booking, closed: bool): World {
    var ev := RemoveEvent(w.board.queue, item, closed);
    var b := D.Dequeue(w.board, item);
    w.(board := D.Handle(b, ev),
       firsts := w.firsts + if ev.firstItemChanged && b.queue != [] then [To(b.queue[0])] else [],
       center := P.Cancel(w.center, To(item)))
  }

  function Closed(w: World, n: nat, mergedBy: Option<string>): World {
    var i := IndexOf(w.board.queue, n);
    var w1 := if i >= 0 then Unbooked(w, w.board.queue[i], true) else w;
    w1.(board := D.Forget(w1.board, n, mergedBy))
  }

  function StoredStatus(b: Board, n: nat): Status {
    if n in b.records && b.records[n].status.Some? then b.records[n].status.value else Pending
  }

  function StatusChanged(w: World, n: nat, state: Status, accepted: bool, elapsed: nat): World {
    var b := w.board;
    if n !in b.records || b.queue == [] || b.queue[0].number != n then w
    else
      var b' := b.(records := Merged(b.records, n, Record(None, Some(state))));
      var to := To(b.queue[0]);
      if state == StoredStatus(b, n) then w.(board := b')
      else if state == Pending then
        w.(board := b', alerts := w.alerts + [Alert(CancelChecks, to, state)],
           center := P.Cancel(w.center, to))
      else
        w.(board := b', alerts := w.alerts + [Alert(SendChecks, to, state)],
           center := P.Send(w.center, to, state, accepted, elapsed))
  }

  /** The `installation` webhook, action `deleted`: queues and records go, without events. */
  function Uninstalled(w: World): World {
    w.(board := w.board.(queue := [], records := map[]))
  }

  function Next(w: World, step: Step): World {
    match step
    case Add(item) => Booked(w, item)
    case Remove(item) => Unbooked(w, item, false)
    case Close(n, mergedBy) => Closed(w, n, mergedBy)
    case Open(n, sha) => w.(board := D.Opened(w.board, n, sha))
    case Sync(n, sha) => w.(board := D.Synced(w.board, n, sha))
    case StatusChange(n, state, accepted, elapsed) => StatusChanged(w, n, state, accepted, elapsed)
    case Wait(now, delivered, expired) => w.(center := P.Advance(w.center, now, delivered, expired))
    case Uninstall => Uninstalled(w)
  }

  function Run(w: World, steps: seq<Step>): World
    decreases steps
  {
    if steps == [] then w else Run(Next(w, steps[0]), steps[1..])
  }

  // ----- What the operations do to the queue -----

  /** The removal a step makes, if it makes one. */
  function Removal(w: World, step: Step): Option<Booking> {
    match step
    case Remove(item) => Some(item)
    case Close(n, _) =>
      var i := IndexOf(w.board.queue, n);
      if i >= 0 then Some(w.board.queue[i]) else None
    case _ => None
  }

  lemma NextQueue(w: World, step: Step)
    requires Distinct(w.board.queue)
    ensures var q, q' := w.board.queue, Next(w, step).board.queue;
            Distinct(q') &&
            q' == (if step.Add? then Push(q, step.item)
                   else if Removal(w, step).Some? then Pull(q, Removal(w, step).value)
                   else if step.Uninstall? then [] else q)
  {
    var q := w.board.queue;
    match step {
      case Add(item) =>
        PushIndex(q, item, 0);
        if AddEvent(q, item).Some? { D.HandleKeeps(D.Enqueue(w.board, item), AddEvent(q, item).value); }
      case Remove(item) =>
        PullIndex(q, item, 0);
        D.HandleKeeps(D.Dequeue(w.board, item), RemoveEvent(q, item, false));
      case Close(n, mergedBy) =>
        var i := IndexOf(q, n);
        if i >= 0 {
          PullIndex(q, q[i], 0);
          D.HandleKeeps(D.Dequeue(w.board, q[i]), RemoveEvent(q, q[i], true));
        }
      case _ =>
    }
  }

  lemma NextRecords(w: World, step: Step, m: nat)
    ensures var r, r' := w.board.records, Next(w, step).board.records;
            !step.Uninstall? && !(step.Close? && step.n == m) ==>
            (m in r ==> m in r') &&
            StoredStatus(Next(w, step).board, m) ==
              (if step.StatusChange? && step.n == m && m in r && w.board.queue != [] && w.board.queue[0].number == m
               then step.state else StoredStatus(w.board, m)) &&
            (m in r && !(step.StatusChange? && step.n == m) ==> r'[m].status == r[m].status)
  {
    match step {
      case Add(item) =>
        if AddEvent(w.board.queue, item).Some? {
          D.HandleKeeps(D.Enqueue(w.board, item), AddEvent(w.board.queue, item).value);
        }
      case Remove(item) => D.HandleKeeps(D.Dequeue(w.board, item), RemoveEvent(w.board.queue, item, false));
      case Close(n, mergedBy) =>
        var i := IndexOf(w.board.queue, n);
        if i >= 0 {
          D.HandleKeeps(D.Dequeue(w.board, w.board.queue[i]), RemoveEvent(w.board.queue, w.board.queue[i], true));
        }
      case _ =>
    }
  }

  // ----- Agreement -----

  lemma ForgetCommutes(b: Board, n: nat, mergedBy: Option<string>, m: nat, check: Check)
    requires DistinctShas(b) && m != n
    ensures Write(D.Forget(b, n, mergedBy), m, check) == D.Forget(Write(b, m, check), n, mergedBy)
  {
    assert ShaOf(D.Forget(b, n, mergedBy), m) == ShaOf(b, m);
    if Tracked(b, m) && Tracked(b, n) {
      var s, t, c := ShaOf(b, m).value, ShaOf(b, n).value, D.FinalCheck(mergedBy);
      assert b.checks[t := c][s := check] == b.checks[s := check][t := c];
    }
  }

  /** Refreshing the others and forgetting one pull request may be done in either order. */
  lemma {:induction false} RefreshForget(b: Board, items: seq<Booking>, i: nat, n: nat, mergedBy: Option<string>)
    requires DistinctShas(b) && forall j :: 0 <= j < |items| ==> items[j].number != n
    ensures RefreshFrom(D.Forget(b, n, mergedBy), items, i) == D.Forget(RefreshFrom(b, items, i), n, mergedBy)
    decreases |items| - i
  {
    if i < |items| {
      ForgetCommutes(b, n, mergedBy, items[i].number, StatusAt(i));
      WriteShown(b, items[i].number, StatusAt(i), n);
      RefreshForget(SetByPosition(b, items[i].number, i), items, i + 1, n, mergedBy);
    }
  }

  lemma CloseIsDrained(b: Board, n: nat, mergedBy: Option<string>)
    requires WellFormed(b) && IndexOf(b.queue, n) >= 0
    ensures var item := b.queue[IndexOf(b.queue, n)];
            var ev := RemoveEvent(b.queue, item, true);
            D.Forget(D.Handle(D.Dequeue(b, item), ev), n, mergedBy)
              == D.Handle(D.Forget(D.Dequeue(b, item), n, mergedBy), ev)
  {
    var item := b.queue[IndexOf(b.queue, n)];
    var b0 := D.Dequeue(b, item);
    PullIndex(b.queue, item, n);
    TopIndex(b0.queue, n);
    D.DequeueWellFormed(b, item);
    forall j | 0 <= j < |Top(b0.queue)| ensures Top(b0.queue)[j].number != n {
      IndexOfIsFirst(Top(b0.queue), n, j);
    }
    RefreshForget(b0, Top(b0.queue), 0, n, mergedBy);
  }

  /** Settling an operation is the delayed step followed by the delivery of its event. */
  lemma SettledIsDrained(w: World, step: Step)
    requires step.Add? || step.Remove? || step.Open? || step.Sync? || step.Close?
    requires WellFormed(w.board)
    ensures var delayed := match step
              case Add(item) => D.Add(item)
              case Remove(item) => D.Remove(item)
              case Open(n, sha) => D.Open(n, sha)
              case Close(n, mergedBy) => D.Close(n, mergedBy)
              case _ => D.Sync(step.n, step.sha);
            var net := D.Next(D.Net(w.board, []), delayed);
            Next(w, step).board == D.Drain(net.board, net.events)
  {
    if step.Close? && IndexOf(w.board.queue, step.n) >= 0 { CloseIsDrained(w.board, step.n, step.mergedBy); }
  }

  lemma AgreementIsInv(b: Board)
    ensures WellFormed(b) && Agrees(b) <==> D.Inv(D.Net(b, []), true)
  {
    if WellFormed(b) && Agrees(b) {
      forall n ensures D.SettlesRight(D.Net(b, []), true, n) { assert AgreesOn(b, n); }
    }
    if D.Inv(D.Net(b, []), true) {
      forall n ensures AgreesOn(b, n) { assert D.SettlesRight(D.Net(b, []), true, n); }
    }
  }

  lemma ClosingRemovalAgreesOn(b: Board, i: nat, m: nat)
    requires WellFormed(b) && Agrees(b) && i < |b.queue|
    ensures var b1 := D.Handle(D.Dequeue(b, b.queue[i]), RemoveEvent(b.queue, b.queue[i], true));
            WellFormed(b1) && b1.queue == Without(b.queue, i) && (m != b.queue[i].number ==> AgreesOn(b1, m))
  {
    IndexOfAt(b.queue, i);
    PullOne(b.queue, b.queue[i]);
    D.DequeueWellFormed(b, b.queue[i]);
    D.HandleShown(D.Dequeue(b, b.queue[i]), RemoveEvent(b.queue, b.queue[i], true), m);
    WithoutIndex(b.queue, i, m);
    assert AgreesOn(b, m);
  }

  /** After the closing removal everyone else already shows the new place. */
  lemma ClosingRemoval(b: Board, i: nat)
    requires WellFormed(b) && Agrees(b) && i < |b.queue|
    ensures var b1 := D.Handle(D.Dequeue(b, b.queue[i]), RemoveEvent(b.queue, b.queue[i], true));
            b1.queue == Without(b.queue, i) && b1.records == b.records && WellFormed(b1) &&
            forall m :: m != b.queue[i].number ==> AgreesOn(b1, m)
  {
    D.HandleKeeps(D.Dequeue(b, b.queue[i]), RemoveEvent(b.queue, b.queue[i], true));
    ClosingRemovalAgreesOn(b, i, 0);
    forall m { ClosingRemovalAgreesOn(b, i, m); }
  }

  lemma ForgetAgrees(b: Board, n: nat, mergedBy: Option<string>)
    requires WellFormed(b) && IndexOf(b.queue, n) < 0 && forall m :: m != n ==> AgreesOn(b, m)
    ensures var b' := D.Forget(b, n, mergedBy);
            WellFormed(b') && Agrees(b') && b'.queue == b.queue && b'.records == b.records - {n} &&
            (Tracked(b, n) ==> CheckAt(b', ShaOf(b, n).value) == Some(D.FinalCheck(mergedBy)))
  {
    D.ForgetShown(b, n, mergedBy, n);
    forall m ensures AgreesOn(D.Forget(b, n, mergedBy), m) {
      D.ForgetShown(b, n, mergedBy, m);
      assert m != n ==> AgreesOn(b, m);
    }
  }

  /** Closing takes out exactly that booking, leaves the merge (or its absence) as the last
      status of the pull request, drops its record, and keeps everyone else in agreement. */
  lemma CloseProtocol(w: World, n: nat, mergedBy: Option<string>)
    requires WellFormed(w.board) && Agrees(w.board)
    ensures var b, b' := w.board, Closed(w, n, mergedBy).board;
            b'.queue == (if IndexOf(b.queue, n) < 0 then b.queue else Without(b.queue, IndexOf(b.queue, n))) &&
            b'.records == b.records - {n} && WellFormed(b') && Agrees(b') &&
            (Tracked(b, n) ==> CheckAt(b', ShaOf(b, n).value) == Some(
              if mergedBy.Some? then Check(Passing, MergedBy(mergedBy.value)) else Check(Blocking, NotInQueue)))
  {
    var b := w.board;
    var i := IndexOf(b.queue, n);
    if i >= 0 {
      ClosingRemoval(b, i);
      WithoutIndex(b.queue, i, n);
      ForgetAgrees(D.Handle(D.Dequeue(b, b.queue[i]), RemoveEvent(b.queue, b.queue[i], true)), n, mergedBy);
    } else {
      ForgetAgrees(b, n, mergedBy);
    }
  }

  /** The settled steps that keep the board in agreement. */
  ghost predicate KeepsPlaces(w: World, step: Step) {
    var b := w.board;
    match step
    case Remove(item) => !(FarMisnamed(b.queue, item) && Tracked(b, item.number))
    case Open(n, sha) => IndexOf(b.queue, n) < 0 && ShaFree(b, n, sha)
    case Sync(n, sha) => ShaFree(b, n, sha)
    case _ => true
  }

  /** Each operation leaves every tracked pull request showing exactly its place. */
  lemma StepAgrees(w: World, step: Step)
    requires WellFormed(w.board) && Agrees(w.board) && KeepsPlaces(w, step)
    ensures WellFormed(Next(w, step).board) && Agrees(Next(w, step).board)
  {
    var b, b' := w.board, Next(w, step).board;
    AgreementIsInv(b);
    match step {
      case Add(item) =>
        D.AddKeeps(D.Net(b, []), item, true);
        SettledIsDrained(w, step);
        DrainAgrees(D.Next(D.Net(b, []), D.Add(item)));
      case Remove(item) =>
        D.RemovalConvergesExactly(D.Net(b, []), item);
        SettledIsDrained(w, step);
        D.DequeueWellFormed(b, item);
        D.HandleShown(D.Dequeue(b, item), RemoveEvent(b.queue, item, false), 0);
      case Open(n, sha) => D.StepKeeps(D.Net(b, []), D.Open(n, sha), true); AgreementIsInv(b');
      case Sync(n, sha) => D.StepKeeps(D.Net(b, []), D.Sync(n, sha), true); AgreementIsInv(b');
      case Close(n, mergedBy) => CloseProtocol(w, n, mergedBy);
      case StatusChange(n, state, _, _) =>
        forall k ensures ShaOf(b', k) == ShaOf(b, k) {}
        forall m ensures AgreesOn(b', m) { assert AgreesOn(b, m); }
      case Wait(_, _, _) =>
      case Uninstall =>
    }
  }

  lemma DrainAgrees(net: D.Net)
    requires D.Inv(net, true)
    ensures WellFormed(D.Drain(net.board, net.events)) && Agrees(D.Drain(net.board, net.events))
  {
    D.DrainShown(net.board, net.events, 0);
    forall n ensures AgreesOn(D.Drain(net.board, net.events), n) {
      assert D.SettlesRight(net, true, n);
      D.DrainShown(net.board, net.events, n);
    }
  }

  ghost predicate KeepsPlacesRun(w: World, steps: seq<Step>)
    decreases steps
  {
    steps == [] || (KeepsPlaces(w, steps[0]) && KeepsPlacesRun(Next(w, steps[0]), steps[1..]))
  }

  /** Over a whole run the board agrees after every operation. */
  lemma {:induction false} RunAgrees(w: World, steps: seq<Step>)
    requires WellFormed(w.board) && Agrees(w.board) && KeepsPlacesRun(w, steps)
    ensures WellFormed(Run(w, steps).board) && Agrees(Run(w, steps).board)
    decreases steps
  {
    if steps != [] {
      StepAgrees(w, steps[0]);
      RunAgrees(Next(w, steps[0]), steps[1..]);
    }
  }

  // ----- Who is told to be first -----

  /** The new head, when a step puts another booking at the head. */
  function NewHead(q: seq<Booking>, q': seq<Booking>): seq<Recipient> {
    if q' != [] && Head(q) != Head(q') then [To(q'[0])] else []
  }

  function NewHeads(w: World, steps: seq<Step>): seq<Recipient>
    decreases steps
  {
    if steps == [] then []
    else NewHead(w.board.queue, Next(w, steps[0]).board.queue) + NewHeads(Next(w, steps[0]), steps[1..])
  }

  /** A removal that names the head's number under another username. */
  predicate MisnamesHead(w: World, step: Step) {
    step.Remove? && IndexOf(w.board.queue, step.item.number) == 0 && Misnamed(w.board.queue, step.item)
  }

  function Repeats(w: World, steps: seq<Step>): nat
    decreases steps
  {
    if steps == [] then 0
    else (if MisnamesHead(w, steps[0]) then 1 else 0) + Repeats(Next(w, steps[0]), steps[1..])
  }

  /** What a step logs. */
  function Logged1(w: World, step: Step): seq<Recipient> {
    if MisnamesHead(w, step) then [To(w.board.queue[0])]
    else NewHead(w.board.queue, Next(w, step).board.queue)
  }

  lemma UnbookedFirsts(w: World, item: Booking, closed: bool)
    requires Distinct(w.board.queue)
    ensures var q, w' := w.board.queue, Unbooked(w, item, closed);
            var q' := w'.board.queue;
            q' == Pull(q, item) &&
            w'.firsts == w.firsts + if IndexOf(q, item.number) == 0 && Misnamed(q, item) then [To(q[0])]
                                    else NewHead(q, q')
    ensures IndexOf(w.board.queue, item.number) == 0 && Misnamed(w.board.queue, item)
            ==> Pull(w.board.queue, item) == w.board.queue
  {
    D.HandleKeeps(D.Dequeue(w.board, item), RemoveEvent(w.board.queue, item, closed));
    HeadAfterPull(w.board.queue, item);
    assert w.firsts + [] == w.firsts;
  }

  lemma StepFirsts(w: World, step: Step)
    requires Distinct(w.board.queue)
    ensures Next(w, step).firsts == w.firsts + Logged1(w, step)
    ensures MisnamesHead(w, step) ==> NewHead(w.board.queue, Next(w, step).board.queue) == []
  {
    var q := w.board.queue;
    assert w.firsts + [] == w.firsts;
    match step {
      case Remove(item) => UnbookedFirsts(w, item, false);
      case Close(n, mergedBy) =>
        var i := IndexOf(q, n);
        if i >= 0 {
          IndexOfAt(q, i);
          UnbookedFirsts(w, q[i], true);
        }
      case Add(item) =>
        if AddEvent(q, item).Some? { D.HandleKeeps(D.Enqueue(w.board, item), AddEvent(q, item).value); }
      case _ =>
    }
  }

  function Logged(w: World, steps: seq<Step>): seq<Recipient>
    decreases steps
  {
    if steps == [] then [] else Logged1(w, steps[0]) + Logged(Next(w, steps[0]), steps[1..])
  }

  lemma Associative<T>(a: seq<T>, b: seq<T>, c: seq<T>)
    ensures (a + b) + c == a + (b + c)
  {
  }

  lemma {:induction false} RunLogs(w: World, steps: seq<Step>)
    requires Distinct(w.board.queue)
    ensures Run(w, steps).firsts == w.firsts + Logged(w, steps)
    decreases steps
  {
    if steps == [] {
      assert w.firsts + [] == w.firsts;
    } else {
      var w1 := Next(w, steps[0]);
      StepFirsts(w, steps[0]);
      NextQueue(w, steps[0]);
      RunLogs(w1, steps[1..]);
      Associative(w.firsts, Logged1(w, steps[0]), Logged(w1, steps[1..]));
    }
  }

  lemma {:induction false} LogCounts(w: World, steps: seq<Step>)
    requires Distinct(w.board.queue)
    ensures |Logged(w, steps)| == |NewHeads(w, steps)| + Repeats(w, steps)
    ensures Repeats(w, steps) == 0 ==> Logged(w, steps) == NewHeads(w, steps)
    decreases steps
  {
    if steps != [] {
      StepFirsts(w, steps[0]);
      NextQueue(w, steps[0]);
      LogCounts(Next(w, steps[0]), steps[1..]);
    }
  }

  /** Every new head is told, in order; a message too many is sent for each removal that misnames
      the head, so the log is exact if and only if there was none. */
  lemma FirstsAreTheNewHeads(w: World, steps: seq<Step>)
    requires Distinct(w.board.queue)
    ensures var firsts := Run(w, steps).firsts;
            |firsts| == |w.firsts| + |NewHeads(w, steps)| + Repeats(w, steps) &&
            (firsts == w.firsts + NewHeads(w, steps) <==> Repeats(w, steps) == 0)
  {
    RunLogs(w, steps);
    LogCounts(w, steps);
  }

  // ----- The checks notification of the head -----

  /** An undelivered notification tells the head what its stored status says. */
  ghost predicate TellsTheHead(w: World, id: nat)
    requires id in w.center.pending
  {
    var s, b := w.center.pending[id], w.board;
    b.queue != [] && s.to == To(b.queue[0]) && s.to.number in b.records &&
    StoredStatus(b, s.to.number) != Pending &&
    (s.title == P.ChecksPassed <==> StoredStatus(b, s.to.number) == Success)
  }

  ghost predicate NoticeInv(w: World) {
    Distinct(w.board.queue) && P.Inv(w.center) && forall id :: id in w.center.pending ==> TellsTheHead(w, id)
  }

  lemma UnbookedNotices(w: World, item: Booking, closed: bool)
    requires NoticeInv(w)
    ensures NoticeInv(Unbooked(w, item, closed))
    ensures forall id :: id in Unbooked(w, item, closed).center.pending ==>
              !Matches(w.board.queue[0], item) && Unbooked(w, item, closed).board.queue[0] == w.board.queue[0]
  {
    var w' := Unbooked(w, item, closed);
    D.HandleKeeps(D.Dequeue(w.board, item), RemoveEvent(w.board.queue, item, closed));
    PullIndex(w.board.queue, item, 0);
    PullOne(w.board.queue, item);
    P.CancelRemovesAll(w.center, To(item));
    forall id | id in w'.center.pending
      ensures TellsTheHead(w', id) && !Matches(w.board.queue[0], item) && w'.board.queue[0] == w.board.queue[0]
    {
      assert TellsTheHead(w, id);
      IndexOfAt(w.board.queue, 0);
    }
  }

  lemma ClosedNotices(w: World, n: nat, mergedBy: Option<string>)
    requires NoticeInv(w)
    ensures NoticeInv(Closed(w, n, mergedBy))
  {
    var i := IndexOf(w.board.queue, n);
    var w' := Closed(w, n, mergedBy);
    NextQueue(w, Close(n, mergedBy));
    var w1 := w;
    if i >= 0 {
      w1 := Unbooked(w, w.board.queue[i], true);
      UnbookedNotices(w, w.board.queue[i], true);
    }
    forall id | id in w'.center.pending ensures TellsTheHead(w', id) {
      assert TellsTheHead(w1, id);
      IndexOfAt(w.board.queue, 0);
    }
  }

  lemma StatusNotices(w: World, n: nat, state: Status, accepted: bool, elapsed: nat)
    requires NoticeInv(w)
    ensures NoticeInv(StatusChanged(w, n, state, accepted, elapsed))
  {
    var w' := StatusChanged(w, n, state, accepted, elapsed);
    if n in w.board.records && w.board.queue != [] && w.board.queue[0].number == n {
      P.CancelRemovesAll(w.center, To(w.board.queue[0]));
      P.SendReplaces(w.center, To(w.board.queue[0]), state, accepted, elapsed);
      forall id | id in w'.center.pending ensures TellsTheHead(w', id) {
        if id in w.center.pending { assert TellsTheHead(w, id); }
      }
    }
  }

  /** Deliveries are at most 60 seconds late, and the app is not uninstalled. */
  ghost predicate Timely(w: World, step: Step, latency: nat) {
    !step.Uninstall? &&
    (step.Wait? ==> P.CanAdvance(w.center, step.now, step.delivered, step.expired, latency))
  }

  lemma StepNotices(w: World, step: Step, latency: nat)
    requires NoticeInv(w) && Timely(w, step, latency) && latency <= 60
    ensures NoticeInv(Next(w, step))
  {
    if step.Remove? {
      UnbookedNotices(w, step.item, false);
    } else if step.Close? {
      ClosedNotices(w, step.n, step.mergedBy);
    } else if step.StatusChange? {
      StatusNotices(w, step.n, step.state, step.accepted, step.elapsed);
    } else {
      var w' := Next(w, step);
      NextQueue(w, step);
      if step.Wait? { P.AdvanceKeeps(w.center, step.now, step.delivered, step.expired, latency); }
      forall id | id in w'.center.pending ensures TellsTheHead(w', id) {
        assert TellsTheHead(w, id);
        NextRecords(w, step, w.center.pending[id].to.number);
      }
    }
  }

  ghost predicate TimelyRun(w: World, steps: seq<Step>, latency: nat)
    decreases steps
  {
    steps == [] || (Timely(w, steps[0], latency) && TimelyRun(Next(w, steps[0]), steps[1..], latency))
  }

  /** Whatever is booked, removed (rightly or not), closed, pushed and reported: an undelivered
      checks notification is the only one, it is the head's, and it says what is stored; so there
      is none while the queue is empty or the head's stored status is pending. */
  lemma {:induction false} NoticesTellTheHead(w: World, steps: seq<Step>, latency: nat)
    requires NoticeInv(w) && TimelyRun(w, steps, latency) && latency <= 60
    ensures NoticeInv(Run(w, steps))
    ensures var w' := Run(w, steps);
            forall i, j :: i in w'.center.pending && j in w'.center.pending ==> i == j
    ensures var w' := Run(w, steps);
            (w'.board.queue == [] || StoredStatus(w'.board, w'.board.queue[0].number) == Pending)
            ==> w'.center.pending == map[]
    decreases steps
  {
    if steps == [] {
      assert forall id :: id in w.center.pending ==> TellsTheHead(w, id);
      forall i, j | i in w.center.pending && j in w.center.pending ensures i == j {
        assert TellsTheHead(w, i) && TellsTheHead(w, j);
        P.InvMeansOne(w.center);
      }
    } else {
      StepNotices(w, steps[0], latency);
      NoticesTellTheHead(Next(w, steps[0]), steps[1..], latency);
    }
  }

  // ----- What every operation does to the notifications and the messages -----

  /** The same undelivered notifications but for those of one recipient and, perhaps, a new one. */
  ghost predicate OnlyNew(c: P.Center, c': P.Center, to: Recipient, added: Option<P.Scheduled>) {
    (forall id :: id in c'.pending <==>
      (id in c.pending && c.pending[id].to != to) || (added.Some? && id == c.nextId)) &&
    (forall id :: id in c'.pending && id in c.pending ==> c'.pending[id] == c.pending[id]) &&
    (added.Some? ==> c'.pending[c.nextId] == added.value)
  }

  /** A report on the head is stored as its status and changes nothing else of the board; any other
      report changes nothing at all. */
  lemma StatusIsStored(w: World, n: nat, state: Status, accepted: bool, elapsed: nat)
    ensures var b, w' := w.board, StatusChanged(w, n, state, accepted, elapsed);
            if b.queue == [] || b.queue[0].number != n || n !in b.records then w' == w
            else
              w'.firsts == w.firsts &&
              w'.board == b.(records := b.records[n := Record(b.records[n].sha, Some(state))])
  {
  }

  predicate IsKnown(r: Record, state: Status) {
    r.status == Some(state) || (r.status.None? && state == Pending)
  }

  /** A state of the head that is not the stored one is told: pending cancels, and every other state is
      sent in 60 seconds if the service accepts that. The stored one tells nobody. */
  lemma StatusIsNotified(w: World, head: Booking, state: Status, accepted: bool, elapsed: nat)
    requires P.Inv(w.center) && Head(w.board.queue) == Some(head) && head.number in w.board.records
    ensures var w' := StatusChanged(w, head.number, state, accepted, elapsed);
            var to := Recipient(head.number, head.username);
            if IsKnown(w.board.records[head.number], state) then w'.center == w.center && w'.alerts == w.alerts
            else
              w'.alerts == w.alerts + [Alert(if state == Pending then CancelChecks else SendChecks, to, state)] &&
              OnlyNew(w.center, w'.center, to,
                if state == Pending || !accepted then None
                else Some(P.Scheduled(to, if state == Success then P.ChecksPassed else P.ChecksFailed,
                                      w.center.clock + 60)))
  {
    P.CancelRemovesAll(w.center, To(head));
    P.SendReplaces(w.center, To(head), state, accepted, elapsed);
  }

  /** A removal cancels what the removed username was to be told about that pull request, whether it
      matched a booking or not, and nothing else. */
  lemma RemovalCancels(w: World, item: Booking)
    requires P.Inv(w.center)
    ensures var w' := Next(w, Remove(item));
            OnlyNew(w.center, w'.center, Recipient(item.number, item.username), None) && w'.alerts == w.alerts &&
            w'.center.clock == w.center.clock
  {
    P.CancelRemovesAll(w.center, To(item));
  }

  /** A close cancels what the booker of that pull request was to be told, if it is queued. */
  lemma CloseCancels(w: World, n: nat, mergedBy: Option<string>)
    requires P.Inv(w.center)
    ensures var q, w' := w.board.queue, Next(w, Close(n, mergedBy));
            w'.alerts == w.alerts &&
            if exists i :: 0 <= i < |q| && q[i].number == n
            then exists first :: IsFirstOf(first, q, n) &&
                   OnlyNew(w.center, w'.center, Recipient(n, first.username), None)
            else w'.center == w.center
  {
    var q, r := w.board.queue, IndexOf(w.board.queue, n);
    if r >= 0 {
      assert q[r].number == n;
      FirstIsAtIndex(q, n, q[r]);
      P.CancelRemovesAll(w.center, To(q[r]));
    } else {
      forall i | 0 <= i < |q| ensures q[i].number != n { IndexOfIsFirst(q, n, i); }
    }
  }

  /** No other operation cancels or sends checks notifications, and none but bookings, removals and
      closes tell anybody to be first. */
  lemma OthersTellNobody(w: World, step: Step)
    ensures var w' := Next(w, step);
            (step.Add? || step.Open? || step.Sync? || step.Uninstall? ==> w'.center == w.center) &&
            (!step.StatusChange? ==> w'.alerts == w.alerts) &&
            (step.Open? || step.Sync? || step.StatusChange? || step.Wait? || step.Uninstall? ==>
              w'.firsts == w.firsts)
    ensures var w' := Next(w, step);
            (step.Wait? ==> w'.board == w.board) &&
            (step.Uninstall? ==> w'.board == Board([], map[], w.board.checks))
  {
  }

  // ----- What a pull request is known by -----

  /** Both `opened` and the other actions store the commit and write one check to it. */
  lemma UpsertStores(w: World, step: Step)
    requires step.Open? || step.Sync?
    ensures var b, b' := w.board, Next(w, step).board;
            b'.queue == b.queue &&
            b'.records.Keys == b.records.Keys + {step.n} && b'.records[step.n].sha == Some(step.sha) &&
            (step.n in b.records ==> b'.records[step.n].status == b.records[step.n].status) &&
            (forall m :: m in b.records && m != step.n ==> b'.records[m] == b.records[m]) &&
            b'.checks == b.checks[step.sha :=
              if step.Open? then Check(Blocking, NotInQueue) else StatusAt(IndexOf(b.queue, step.n))]
  {
  }

  /** A close forgets the pull request, takes it off the queue, and leaves the last status on the
      commit it had, whatever else there is. */
  lemma ClosedLeaves(w: World, n: nat, mergedBy: Option<string>)
    ensures var b, b' := w.board, Next(w, Close(n, mergedBy)).board;
            n !in b'.records && (Distinct(b.queue) ==> IndexOf(b'.queue, n) == -1) &&
            forall was :: ShaOf(b, n) == Some(was) ==> CheckAt(b', was) == Some(
              if mergedBy.Some? then Check(Passing, MergedBy(mergedBy.value)) else Check(Blocking, NotInQueue))
  {
    var b, i := w.board, IndexOf(w.board.queue, n);
    if i >= 0 {
      D.HandleKeeps(D.Dequeue(b, b.queue[i]), RemoveEvent(b.queue, b.queue[i], true));
      if Distinct(b.queue) { PullIndex(b.queue, b.queue[i], n); }
    }
  }

  /** Whom a step tracks, and with which commit. */
  lemma StepCommit(w: World, step: Step, n: nat)
    ensures ShaOf(Next(w, step).board, n) ==
            match step
            case Open(m, sha) => if m == n then Some(sha) else ShaOf(w.board, n)
            case Sync(m, sha) => if m == n then Some(sha) else ShaOf(w.board, n)
            case Close(m, _) => if m == n then None else ShaOf(w.board, n)
            case Uninstall => None
            case _ => ShaOf(w.board, n)
  {
    var b := w.board;
    match step
    case Add(item) =>
      if AddEvent(b.queue, item).Some? { D.HandleKeeps(D.Enqueue(b, item), AddEvent(b.queue, item).value); }
    case Remove(item) => D.HandleKeeps(D.Dequeue(b, item), RemoveEvent(b.queue, item, false));
    case Close(m, _) =>
      var i := IndexOf(b.queue, m);
      if i >= 0 { D.HandleKeeps(D.Dequeue(b, b.queue[i]), RemoveEvent(b.queue, b.queue[i], true)); }
    case _ =>
  }

  /** Uninstalling breaks this exactly when a notification is waiting: nothing cancels it. */
  lemma UninstallStrandsNotices(w: World)
    requires NoticeInv(w)
    ensures NoticeInv(Uninstalled(w)) <==> w.center.pending == map[]
    ensures WellFormed(Uninstalled(w).board) && Agrees(Uninstalled(w).board)
  {
  }

  /** The service now holds a new notification that the checks have passed. */
  predicate PassAnnounced(w: World, w': World) {
    var id := w.center.nextId;
    id in w'.center.pending && w'.center.pending[id].title == P.ChecksPassed
  }

  /** The head is told that its checks passed, though they did not all answer and succeed, exactly
      when it was not known as passed, nothing contradicts success and something is unproven. */
  lemma UnearnedSuccessIsAnnounced(w: World, n: nat, suites: Option<seq<Option<string>>>, state: Option<string>,
                                   elapsed: nat)
    requires P.Inv(w.center) && n in w.board.records && w.board.queue != [] && w.board.queue[0].number == n
    ensures var w' := Next(w, StatusChange(n, GH.CombinedStatus(suites, state), true, elapsed));
            PassAnnounced(w, w') && !GH.Earned(suites, state) <==>
            StoredStatus(w.board, n) != Success && GH.Uncontradicted(suites, state) && GH.Unproven(suites, state)
  {
    GH.UnearnedSuccessExactly(suites, state);
    P.CancelRemovesAll(w.center, To(w.board.queue[0]));
    P.SendReplaces(w.center, To(w.board.queue[0]), GH.CombinedStatus(suites, state), true, elapsed);
  }

  // ----- The checks messages of a head -----

  function StatesFor(alerts: seq<Alert>, n: nat): seq<Status> {
    if alerts == [] then []
    else StatesFor(alerts[..|alerts| - 1], n) +
         (if alerts[|alerts| - 1].to.number == n then [alerts[|alerts| - 1].state] else [])
  }

  ghost predicate HeadStays(w: World, steps: seq<Step>, head: Booking)
    decreases steps
  {
    w.board.queue != [] && w.board.queue[0] == head &&
    (steps == [] || HeadStays(Next(w, steps[0]), steps[1..], head))
  }

  function ReportedBy(w: World, step: Step, n: nat): seq<Status> {
    if step.StatusChange? && step.n == n && n in w.board.records then [step.state] else []
  }

  /** The combined states GitHub had when it reported on pull request `n`. */
  function Reported(w: World, steps: seq<Step>, n: nat): seq<Status>
    decreases steps
  {
    if steps == [] then []
    else ReportedBy(w, steps[0], n) + Reported(Next(w, steps[0]), steps[1..], n)
  }

  /** A sequence without its first element and without consecutive repeats. */
  function Changes(ss: seq<Status>): seq<Status> {
    if |ss| < 2 then []
    else (if ss[0] != ss[1] then [ss[1]] else []) + Changes(ss[1..])
  }

  /** No state is announced twice in a row, and the one already known is not announced. */
  lemma {:induction false} ChangesNeverRepeat(ss: seq<Status>)
    requires ss != []
    ensures var cs := [ss[0]] + Changes(ss);
            cs[|cs| - 1] == ss[|ss| - 1] && forall i :: 0 <= i < |cs| - 1 ==> cs[i] != cs[i + 1]
  {
    if |ss| >= 2 {
      ChangesNeverRepeat(ss[1..]);
      var cs, rest := [ss[0]] + Changes(ss), [ss[1]] + Changes(ss[1..]);
      if ss[0] == ss[1] { assert cs == rest; } else { assert cs == [ss[0]] + rest; }
    }
  }

  ghost predicate AddressedTo(alerts: seq<Alert>, head: Booking) {
    forall a :: a in alerts && a.to.number == head.number ==>
      a.to == To(head) && (a.topic == CancelChecks <==> a.state == Pending)
  }

  /** What one step adds to the messages about the head, and to its stored status. */
  ghost predicate AlertsFollow(w: World, step: Step, head: Booking) {
    var n, w' := head.number, Next(w, step);
    var told := ReportedBy(w, step, n);
    StatesFor(w'.alerts, n) == StatesFor(w.alerts, n) + Changes([StoredStatus(w.board, n)] + told) &&
    StoredStatus(w'.board, n) == (if told == [] then StoredStatus(w.board, n) else told[0]) &&
    (AddressedTo(w.alerts, head) ==> AddressedTo(w'.alerts, head))
  }

  lemma AlertAppended(alerts: seq<Alert>, a: Alert, head: Booking)
    ensures StatesFor(alerts + [a], head.number) ==
            StatesFor(alerts, head.number) + if a.to.number == head.number then [a.state] else []
    ensures AddressedTo(alerts + [a], head) <==> AddressedTo(alerts, head) && AddressedTo([a], head)
  {
    assert (alerts + [a])[..|alerts|] == alerts;
    assert StatesFor(alerts, head.number) + [] == StatesFor(alerts, head.number);
    assert forall x :: x in alerts + [a] <==> x in alerts || x in [a];
  }

  /** A changed state of the head is one more message about it. */
  lemma ChangeAppended(alerts: seq<Alert>, was: Status, told: Status, head: Booking)
    ensures var a := Alert(if told == Pending then CancelChecks else SendChecks, To(head), told);
            var alerts' := if told == was then alerts else alerts + [a];
            StatesFor(alerts', head.number) == StatesFor(alerts, head.number) + Changes([was] + [told]) &&
            (AddressedTo(alerts, head) ==> AddressedTo(alerts', head))
  {
    assert [was] + [told] == [was, told] && Changes([was, told][1..]) == [];
    assert StatesFor(alerts, head.number) + [] == StatesFor(alerts, head.number);
    AlertAppended(alerts, Alert(if told == Pending then CancelChecks else SendChecks, To(head), told), head);
  }

  /** The messages a status change publishes. */
  lemma StatusPublishes(w: World, step: Step, head: Booking)
    requires step.StatusChange? && Head(w.board.queue) == Some(head)
    ensures var w', was := Next(w, step), StoredStatus(w.board, head.number);
            if step.n != head.number || head.number !in w.board.records then w' == w
            else
              StoredStatus(w'.board, head.number) == step.state &&
              var a := Alert(if step.state == Pending then CancelChecks else SendChecks, To(head), step.state);
              w'.alerts == if step.state == was then w.alerts else w.alerts + [a]
  {
  }

  lemma StatusAlerts(w: World, step: Step, head: Booking)
    requires step.StatusChange? && w.board.queue != [] && w.board.queue[0] == head
    ensures AlertsFollow(w, step, head)
  {
    var sent, was := StatesFor(w.alerts, head.number), StoredStatus(w.board, head.number);
    assert sent + [] == sent;
    StatusPublishes(w, step, head);
    ChangeAppended(w.alerts, was, step.state, head);
  }

  lemma StepAlerts(w: World, step: Step, head: Booking)
    requires Distinct(w.board.queue)
    requires w.board.queue != [] && w.board.queue[0] == head
    requires Next(w, step).board.queue != [] && Next(w, step).board.queue[0] == head
    ensures Distinct(Next(w, step).board.queue) && AlertsFollow(w, step, head)
  {
    NextQueue(w, step);
    if step.StatusChange? {
      StatusAlerts(w, step, head);
    } else {
      var q, sent := w.board.queue, StatesFor(w.alerts, head.number);
      assert sent + [] == sent;
      if step.Close? && step.n == head.number {
        HeadAfterPull(q, q[0]);
        IndexOfAt(q, 0);
        assert false;
      }
      NextRecords(w, step, head.number);
    }
  }

  lemma ChangesSplit(sent: seq<Status>, p: Status, told: seq<Status>, rest: seq<Status>)
    requires |told| <= 1
    ensures var p' := if told == [] then p else told[0];
            (sent + Changes([p] + told)) + Changes([p'] + rest) == sent + Changes([p] + (told + rest))
  {
    if told == [] {
      assert told + rest == rest && [p] + told == [p] && sent + [] == sent;
    } else {
      assert ([p] + (told + rest))[1..] == [told[0]] + rest;
      assert ([p] + told)[1..] == told && Changes(told) == [];
    }
  }

  /** While a pull request stays the head, the messages about it are the reported states without
      repeats, starting from what was stored (pending, if nothing was); syncs do not disturb it. */
  lemma {:induction false} ChecksAreEdgeTriggered(w: World, steps: seq<Step>, head: Booking)
    requires Distinct(w.board.queue) && HeadStays(w, steps, head)
    ensures var n, w' := head.number, Run(w, steps);
            StatesFor(w'.alerts, n) ==
              StatesFor(w.alerts, n) + Changes([StoredStatus(w.board, n)] + Reported(w, steps, n)) &&
            (AddressedTo(w.alerts, head) ==> AddressedTo(w'.alerts, head))
    decreases steps
  {
    var n := head.number;
    if steps == [] {
      assert StatesFor(w.alerts, n) + [] == StatesFor(w.alerts, n);
    } else {
      var w1 := Next(w, steps[0]);
      StepAlerts(w, steps[0], head);
      ChecksAreEdgeTriggered(w1, steps[1..], head);
      ChangesSplit(StatesFor(w.alerts, n), StoredStatus(w.board, n), ReportedBy(w, steps[0], n),
                   Reported(w1, steps[1..], n));
    }
  }
}
