/** The notifications of one recipient when sends and cancellations interleave. A cancellation looks
    its record up, cancels remotely the id it found, and then deletes whatever record is there; a send
    is a cancellation, then the scheduling, then the saving of the new id. */
module NotificationRace {
  import opened Types
  import opened Lists
  import P = PushNotifications

  /** An operation between two of its calls. */
  datatype Task =
    | Looked(send: bool, id: nat)
    | Deleting(send: bool)
    | Ready
    | Saving(saved: Option<nat>)

  /** The undelivered notifications of the recipient, its record (with the id it holds, if any), the
      next id of the service, and the operations in flight. */
  datatype Race = Race(pending: set<nat>, doc: Option<Option<nat>>, nextId: nat, open: seq<Task>)

  datatype Move =
    | Start(send: bool)
    | Act(i: nat, accepted: bool)
    | Deliver(id: nat)
    | Expire
    | Elsewhere

  function StoredId(r: Race): Option<nat> {
    if r.doc.Some? then r.doc.value else None
  }

  /** The tasks of an operation that has nothing more to cancel. */
  function Onwards(send: bool): seq<Task> {
    if send then [Ready] else []
  }

  /** `getNotification`; without a record, or without an id in it, there is nothing to cancel. */
  function Begun(r: Race, send: bool): Race {
    match StoredId(r)
    case Some(id) => r.(open := r.open + [Looked(send, id)])
    case None => r.(open := r.open + Onwards(send))
  }

  function Instead(open: seq<Task>, i: nat, next: seq<Task>): seq<Task>
    requires i < |open|
  {
    open[..i] + next + open[i + 1..]
  }

  /** The next call of operation `i`; `accepted` matters to a scheduling alone. */
  function Acted(r: Race, i: nat, accepted: bool): Race
    requires i < |r.open|
  {
    match r.open[i]
    case Looked(send, id) =>
      if id in r.pending
      then r.(pending := r.pending - {id}, open := Instead(r.open, i, [Deleting(send)]))
      else r.(open := Instead(r.open, i, Onwards(send)))
    case Deleting(send) => r.(doc := None, open := Instead(r.open, i, Onwards(send)))
    case Ready =>
      if accepted
      then r.(pending := r.pending + {r.nextId}, nextId := r.nextId + 1,
              open := Instead(r.open, i, [Saving(Some(r.nextId))]))
      else r.(open := Instead(r.open, i, [Saving(None)]))
    case Saving(id) =>
      r.(doc := Some(if id.Some? then id else StoredId(r)), open := Instead(r.open, i, []))
  }

  function Moved(r: Race, move: Move): Race {
    match move
    case Start(send) => Begun(r, send)
    case Act(i, accepted) => if i < |r.open| then Acted(r, i, accepted) else r
    case Deliver(id) => r.(pending := r.pending - {id})
    case Expire => r.(doc := None)
    case Elsewhere => r.(nextId := r.nextId + 1)
  }

  function MovedAll(r: Race, moves: seq<Move>): Race
    decreases moves
  {
    if moves == [] then r else MovedAll(Moved(r, moves[0]), moves[1..])
  }

  function Stage(t: Task): nat {
    match t
    case Looked(_, _) => 3
    case Deleting(_) => 2
    case Ready => 1
    case Saving(_) => 0
  }

  /** Everything in flight runs to its end; the service accepts or refuses what is scheduled. */
  function Finished(r: Race, accepted: bool): Race
    decreases |r.open|, if r.open == [] then 0 else Stage(r.open[0])
  {
    if r.open == [] then r else Finished(Acted(r, 0, accepted), accepted)
  }

  // ----- One operation at a time is the serial model -----

  /** What the notification centre says about one recipient. */
  function Of(c: P.Center, to: Recipient): Race {
    Race(set id | id in c.pending && c.pending[id].to == to,
         if to in c.docs then Some(c.docs[to].id) else None, c.nextId, [])
  }

  lemma InsteadOfOne(t: Task, next: seq<Task>)
    ensures Instead([t], 0, next) == next
  {
  }

  lemma FinishedStep(r: Race, t: Task, accepted: bool)
    requires r.open == [t]
    ensures var r' := Acted(r, 0, accepted);
            Finished(r, accepted) == Finished(r', accepted) && |r'.open| <= 1
  {
    InsteadOfOne(t, [Deleting(true)]);
    InsteadOfOne(t, [Deleting(false)]);
    InsteadOfOne(t, [Ready]);
    InsteadOfOne(t, []);
  }

  /** The cancelling half of an operation that runs alone. */
  lemma CancelPart(c: P.Center, to: Recipient, send: bool, accepted: bool)
    requires P.Inv(c)
    ensures Finished(Begun(Of(c, to), send), accepted)
         == Finished(Of(P.Cancel(c, to), to).(open := Onwards(send)), accepted)
  {
    var r, c' := Of(c, to), P.Cancel(c, to);
    if StoredId(r).Some? {
      var id := StoredId(r).value;
      var r1 := Begun(r, send);
      assert r1.open == [Looked(send, id)];
      FinishedStep(r1, Looked(send, id), accepted);
      if id in r.pending {
        var r2 := Acted(r1, 0, accepted);
        InsteadOfOne(Looked(send, id), [Deleting(send)]);
        FinishedStep(r2, Deleting(send), accepted);
        InsteadOfOne(Deleting(send), Onwards(send));
        assert Of(c', to).pending == r.pending - {id};
      } else {
        InsteadOfOne(Looked(send, id), Onwards(send));
      }
    } else {
      assert r.open + Onwards(send) == Onwards(send);
    }
  }

  lemma CancelAlone(c: P.Center, to: Recipient)
    requires P.Inv(c)
    ensures Finished(Begun(Of(c, to), false), true) == Of(P.Cancel(c, to), to)
  {
    CancelPart(c, to, false, true);
  }

  lemma SendAlone(c: P.Center, to: Recipient, state: Status, accepted: bool, elapsed: nat)
    requires P.Inv(c)
    ensures Finished(Begun(Of(c, to), true), accepted) == Of(P.Send(c, to, state, accepted, elapsed), to)
  {
    CancelPart(c, to, true, accepted);
    P.CancelRemovesAll(c, to);
    SendPart(P.Cancel(c, to), c.clock, to, state, accepted, elapsed);
  }

  /** The scheduling and the saving of a send that runs alone. */
  lemma SendPart(c1: P.Center, clock: nat, to: Recipient, state: Status, accepted: bool, elapsed: nat)
    requires P.Inv(c1)
    ensures var s := P.Scheduled(to, P.TitleOf(state), clock + P.SEND_DELAY);
            var c' := P.Save(P.Schedule(c1, s, accepted).(clock := clock + elapsed), to,
                             if accepted then Some(c1.nextId) else None);
            Finished(Of(c1, to).(open := [Ready]), accepted) == Of(c', to)
  {
    var r1 := Of(c1, to).(open := [Ready]);
    var saved := if accepted then Some(c1.nextId) else None;
    FinishedStep(r1, Ready, accepted);
    InsteadOfOne(Ready, [Saving(saved)]);
    var r2 := Acted(r1, 0, accepted);
    FinishedStep(r2, Saving(saved), accepted);
    InsteadOfOne(Saving(saved), []);
    var s := P.Scheduled(to, P.TitleOf(state), clock + P.SEND_DELAY);
    assert Of(P.Schedule(c1, s, accepted), to).pending == r2.pending;
  }

  /** Deliveries and expiries are what passing time does to the recipient, and what is sent to others
      only uses up ids. */
  lemma TimeAndOthers(c: P.Center, to: Recipient, other: Recipient, now: nat, id: nat, state: Status, elapsed: nat)
    requires P.Inv(c) && other != to
    ensures Of(P.Advance(c, now, {id}, {}), to) == Moved(Of(c, to), Deliver(id))
    ensures Of(P.Advance(c, now, {}, {to}), to) == Moved(Of(c, to), Expire)
    ensures Of(P.Send(c, other, state, true, elapsed), to) == Moved(Of(c, to), Elsewhere)
    ensures Of(P.Send(c, other, state, false, elapsed), to) == Of(c, to)
  {
    assert Of(P.Advance(c, now, {id}, {}), to).pending == Of(c, to).pending - {id};
    assert Of(P.Advance(c, now, {}, {to}), to).pending == Of(c, to).pending;
    SendElsewhere(c, to, other, state, true, elapsed);
    SendElsewhere(c, to, other, state, false, elapsed);
  }

  lemma SendElsewhere(c: P.Center, to: Recipient, other: Recipient, state: Status, accepted: bool, elapsed: nat)
    requires P.Inv(c) && other != to
    ensures Of(P.Send(c, other, state, accepted, elapsed), to)
         == Of(c, to).(nextId := c.nextId + if accepted then 1 else 0)
  {
    P.CancelRemovesAll(c, other);
    P.SendReplaces(c, other, state, accepted, elapsed);
    assert Of(P.Send(c, other, state, accepted, elapsed), to).pending == Of(c, to).pending;
  }

  // ----- Claims -----

  /** A send that has not scheduled its notification yet. */
  predicate ToSchedule(t: Task) {
    t == Ready || t == Deleting(true) || (t.Looked? && t.send)
  }

  function Sends(open: seq<Task>): nat {
    |Filter(ToSchedule, open)|
  }

  /** An operation in flight has found this id and will cancel it. */
  predicate Found(open: seq<Task>, id: nat) {
    Looked(true, id) in open || Looked(false, id) in open
  }

  /** The undelivered notifications that nothing in flight will cancel. */
  function Unfound(r: Race): set<nat> {
    set id | id in r.pending && !Found(r.open, id)
  }

  /** Those, and the sends that have not scheduled theirs yet. */
  function Claims(r: Race): nat {
    |Unfound(r)| + Sends(r.open)
  }

  /** The lookup of an operation that starts now finds an unclaimed notification. */
  predicate Finds(r: Race) {
    StoredId(r).Some? && StoredId(r).value in Unfound(r)
  }

  /** Something else is undelivered or about to be scheduled when an operation starts. */
  predicate Misses(r: Race) {
    Claims(r) > if Finds(r) then 1 else 0
  }

  function Gain(r: Race, move: Move): int {
    match move
    case Start(send) => (if send then 1 else 0) - (if Finds(r) then 1 else 0)
    case Act(i, accepted) => if i < |r.open| && r.open[i] == Ready && !accepted then -1 else 0
    case Deliver(id) => if id in Unfound(r) then -1 else 0
    case _ => 0
  }

  function Gains(r: Race, moves: seq<Move>): int
    decreases moves
  {
    if moves == [] then 0 else Gain(r, moves[0]) + Gains(Moved(r, moves[0]), moves[1..])
  }

  /** Every id in sight was issued by the service. */
  ghost predicate Valid(r: Race) {
    (forall id :: id in r.pending ==> id < r.nextId) &&
    (forall id: nat :: Found(r.open, id) ==> id < r.nextId) &&
    (forall t :: t in r.open && t.Saving? && t.saved.Some? ==> t.saved.value < r.nextId) &&
    (StoredId(r).Some? ==> StoredId(r).value < r.nextId)
  }

  lemma InsteadIs(open: seq<Task>, i: nat, next: seq<Task>)
    requires i < |open|
    ensures Sends(Instead(open, i, next)) == Sends(open) - Sends([open[i]]) + Sends(next)
    ensures forall t :: t in Instead(open, i, next) <==> t in open[..i] || t in next || t in open[i + 1..]
    ensures forall t :: t in open <==> t in open[..i] || t == open[i] || t in open[i + 1..]
  {
    assert open == open[..i] + ([open[i]] + open[i + 1..]);
    assert Instead(open, i, next) == open[..i] + (next + open[i + 1..]);
    FilterAppend(ToSchedule, open[..i], [open[i]] + open[i + 1..]);
    FilterAppend(ToSchedule, [open[i]], open[i + 1..]);
    FilterAppend(ToSchedule, open[..i], next + open[i + 1..]);
    FilterAppend(ToSchedule, next, open[i + 1..]);
  }

  lemma SendsOfOne(t: Task)
    ensures Sends([t]) == if ToSchedule(t) then 1 else 0
  {
    assert [t][1..] == [] && Filter(ToSchedule, []) == [];
    assert Filter(ToSchedule, [t]) == if ToSchedule(t) then [t] else [];
  }

  lemma AppendIs(open: seq<Task>, t: Task)
    ensures Sends(open + [t]) == Sends(open) + if ToSchedule(t) then 1 else 0
    ensures forall x :: x in open + [t] <==> x in open || x == t
  {
    FilterAppend(ToSchedule, open, [t]);
    SendsOfOne(t);
  }

  lemma StartClaims(r: Race, send: bool)
    requires Valid(r)
    ensures Valid(Begun(r, send)) && Claims(Begun(r, send)) == Claims(r) + Gain(r, Start(send))
  {
    var r' := Begun(r, send);
    if StoredId(r).Some? {
      var id := StoredId(r).value;
      AppendIs(r.open, Looked(send, id));
      assert forall x: nat :: Found(r'.open, x) <==> Found(r.open, x) || x == id;
      assert Unfound(r') == Unfound(r) - {id};
    } else if send {
      AppendIs(r.open, Ready);
      assert forall x: nat :: Found(r'.open, x) <==> Found(r.open, x);
      assert Unfound(r') == Unfound(r);
    } else {
      assert r'.open == r.open;
    }
  }

  lemma LookedClaims(r: Race, i: nat, accepted: bool)
    requires Valid(r) && i < |r.open| && r.open[i].Looked?
    ensures Valid(Acted(r, i, accepted)) && Claims(Acted(r, i, accepted)) == Claims(r)
  {
    var r', t := Acted(r, i, accepted), r.open[i];
    var next := if t.id in r.pending then [Deleting(t.send)] else Onwards(t.send);
    InsteadIs(r.open, i, next);
    SendsOfOne(t);
    if next != [] { SendsOfOne(next[0]); }
    assert forall id: nat :: Found(r'.open, id) ==> Found(r.open, id);
    forall id ensures id in Unfound(r') <==> id in Unfound(r) {
      assert id != t.id ==> (Found(r'.open, id) <==> Found(r.open, id));
      assert Found(r.open, t.id);
    }
    assert Unfound(r') == Unfound(r);
  }

  lemma AcceptedClaims(r: Race, i: nat)
    requires Valid(r) && i < |r.open| && r.open[i] == Ready
    ensures Valid(Acted(r, i, true)) && Claims(Acted(r, i, true)) == Claims(r)
  {
    var r', next := Acted(r, i, true), Saving(Some(r.nextId));
    InsteadIs(r.open, i, [next]);
    SendsOfOne(Ready);
    SendsOfOne(next);
    assert forall id: nat :: Found(r'.open, id) <==> Found(r.open, id);
    assert Unfound(r') == Unfound(r) + {r.nextId};
  }

  lemma RefusedClaims(r: Race, i: nat)
    requires Valid(r) && i < |r.open| && r.open[i] == Ready
    ensures Valid(Acted(r, i, false)) && Claims(Acted(r, i, false)) == Claims(r) - 1
  {
    var r', next := Acted(r, i, false), Saving(None);
    InsteadIs(r.open, i, [next]);
    SendsOfOne(Ready);
    SendsOfOne(next);
    assert forall id: nat :: Found(r'.open, id) <==> Found(r.open, id);
    assert Unfound(r') == Unfound(r);
  }

  lemma StoredClaims(r: Race, i: nat, accepted: bool)
    requires Valid(r) && i < |r.open| && (r.open[i].Deleting? || r.open[i].Saving?)
    ensures Valid(Acted(r, i, accepted)) && Claims(Acted(r, i, accepted)) == Claims(r)
  {
    var r', t := Acted(r, i, accepted), r.open[i];
    var next := if t.Deleting? then Onwards(t.send) else [];
    InsteadIs(r.open, i, next);
    SendsOfOne(t);
    if next != [] { SendsOfOne(next[0]); }
    assert forall id: nat :: Found(r'.open, id) <==> Found(r.open, id);
    assert Unfound(r') == Unfound(r);
  }

  lemma ActClaims(r: Race, i: nat, accepted: bool)
    requires Valid(r) && i < |r.open|
    ensures Valid(Acted(r, i, accepted))
    ensures Claims(Acted(r, i, accepted)) == Claims(r) + Gain(r, Act(i, accepted))
  {
    match r.open[i]
    case Looked(_, _) => LookedClaims(r, i, accepted);
    case Ready => if accepted { AcceptedClaims(r, i); } else { RefusedClaims(r, i); }
    case _ => StoredClaims(r, i, accepted);
  }

  lemma MoveClaims(r: Race, move: Move)
    requires Valid(r)
    ensures Valid(Moved(r, move)) && Claims(Moved(r, move)) == Claims(r) + Gain(r, move)
  {
    match move
    case Start(send) => StartClaims(r, send);
    case Act(i, accepted) => if i < |r.open| { ActClaims(r, i, accepted); }
    case Deliver(id) => assert Unfound(Moved(r, move)) == Unfound(r) - {id};
    case _ => assert Unfound(Moved(r, move)) == Unfound(r);
  }

  /** However operations interleave: the claims grow by one at the start of a send, and shrink by one
      at a lookup that finds an unclaimed notification, at its delivery and at a refusal; at rest they
      are the undelivered notifications. */
  lemma {:induction false} NotificationsAreClaims(r: Race, moves: seq<Move>)
    requires Valid(r)
    ensures var r' := MovedAll(r, moves);
            Valid(r') && Claims(r') == Claims(r) + Gains(r, moves) &&
            (r'.open == [] ==> |r'.pending| == Claims(r) + Gains(r, moves))
    decreases moves
  {
    if moves == [] {
      if r.open == [] { assert Unfound(r) == r.pending; }
    } else {
      MoveClaims(r, moves[0]);
      NotificationsAreClaims(Moved(r, moves[0]), moves[1..]);
    }
  }

  /** Claims are what will be undelivered when everything in flight has been done and accepted. */
  lemma {:induction false} FinishedIsClaims(r: Race)
    requires Valid(r)
    ensures |Finished(r, true).pending| == Claims(r)
    decreases |r.open|, if r.open == [] then 0 else Stage(r.open[0])
  {
    if r.open == [] {
      assert Unfound(r) == r.pending;
    } else {
      ActClaims(r, 0, true);
      FinishedIsClaims(Acted(r, 0, true));
    }
  }

  /** Whenever what is in flight is done and accepted, at most one notification is undelivered. */
  ghost predicate NeverTwo(r: Race, moves: seq<Move>)
    decreases moves
  {
    |Finished(r, true).pending| <= 1 && (moves == [] || NeverTwo(Moved(r, moves[0]), moves[1..]))
  }

  /** Some send starts when something its lookup does not find is undelivered or about to be scheduled. */
  ghost predicate SendMisses(r: Race, moves: seq<Move>)
    decreases moves
  {
    moves != [] &&
    ((moves[0] == Start(true) && Misses(r)) || SendMisses(Moved(r, moves[0]), moves[1..]))
  }

  /** Over every interleaving of sends, cancellations, deliveries, expiries and refusals, there is
      never more than one exactly when no send misses anything. */
  lemma {:induction false} OverlappingSendsExactly(r: Race, moves: seq<Move>)
    requires Valid(r) && Claims(r) <= 1
    ensures NeverTwo(r, moves) <==> !SendMisses(r, moves)
    decreases moves
  {
    FinishedIsClaims(r);
    if moves != [] {
      var r' := Moved(r, moves[0]);
      MoveClaims(r, moves[0]);
      if Claims(r') <= 1 {
        OverlappingSendsExactly(r', moves[1..]);
      } else {
        FinishedIsClaims(r');
      }
    }
  }

  /** A cancellation leaves nothing to be delivered exactly when its lookup misses nothing. */
  lemma CancelClearsExactly(r: Race)
    requires Valid(r)
    ensures Finished(Begun(r, false), true).pending == {} <==> !Misses(r)
  {
    StartClaims(r, false);
    FinishedIsClaims(Begun(r, false));
  }

  // ----- What is undelivered, and what the record holds -----

  /** Whether a move schedules notification `id`, takes it away, or leaves it alone. */
  function Touches(r: Race, move: Move, id: nat): Option<bool> {
    match move
    case Deliver(gone) => if gone == id then Some(false) else None
    case Act(i, accepted) =>
      if i >= |r.open| then None
      else if r.open[i] == Ready && accepted && r.nextId == id then Some(true)
      else if r.open[i].Looked? && r.open[i].id == id then Some(false)
      else None
    case _ => None
  }

  function LastTouch(r: Race, moves: seq<Move>, id: nat): Option<bool>
    decreases moves
  {
    if moves == [] then None
    else
      var later := LastTouch(Moved(r, moves[0]), moves[1..], id);
      if later.Some? then later else Touches(r, moves[0], id)
  }

  /** Over every interleaving a notification is undelivered exactly when it was scheduled, and neither
      delivered nor cancelled by an operation that had found it since. */
  lemma {:induction false} PendingIsItsHistory(r: Race, moves: seq<Move>, id: nat)
    ensures id in MovedAll(r, moves).pending <==>
            match LastTouch(r, moves, id)
            case Some(scheduled) => scheduled
            case None => id in r.pending
    decreases moves
  {
    if moves != [] { PendingIsItsHistory(Moved(r, moves[0]), moves[1..], id); }
  }

  /** What a move leaves as the stored id, if it changes that: a deletion and an expiry leave none, a
      save leaves its own id, or the one before when the service had refused. */
  function Stores(r: Race, move: Move): Option<Option<nat>> {
    match move
    case Expire => Some(None)
    case Act(i, _) =>
      if i >= |r.open| then None
      else if r.open[i].Deleting? then Some(None)
      else if r.open[i].Saving? && r.open[i].saved.Some? then Some(r.open[i].saved)
      else None
    case _ => None
  }

  function LastStored(r: Race, moves: seq<Move>): Option<Option<nat>>
    decreases moves
  {
    if moves == [] then None
    else
      var later := LastStored(Moved(r, moves[0]), moves[1..]);
      if later.Some? then later else Stores(r, moves[0])
  }

  /** Over every interleaving the record holds the id that was saved last, unless it was deleted or
      expired since, by whichever operation. */
  lemma {:induction false} RecordIsItsHistory(r: Race, moves: seq<Move>)
    ensures StoredId(MovedAll(r, moves)) ==
            match LastStored(r, moves)
            case Some(id) => id
            case None => StoredId(r)
    decreases moves
  {
    if moves != [] { RecordIsItsHistory(Moved(r, moves[0]), moves[1..]); }
  }

  // ----- Two interleavings that go wrong -----

  const QUIET := Race({}, None, 0, [])

  /** A removal cancels between the scheduling of a send and its saving: the notification stays. */
  lemma UnsavedSurvivesRemoval()
    ensures var scheduled := Acted(Begun(QUIET, true), 0, true);
            var r := Acted(Begun(scheduled, false), 0, true);
            Misses(scheduled) && r.open == [] && r.pending == {0}
  {
    var scheduled := Acted(Begun(QUIET, true), 0, true);
    assert scheduled == Race({0}, None, 1, [Saving(Some(0))]);
    assert Begun(scheduled, false) == scheduled;
    InsteadOfOne(Saving(Some(0)), []);
    CancelClearsExactly(scheduled);
    FinishedStep(scheduled, Saving(Some(0)), true);
  }

  lemma QuietSend(doc: Option<Option<nat>>, pending: set<nat>, id: nat)
    requires doc.None? || doc.value.None?
    ensures Finished(Begun(Race(pending, doc, id, []), true), true)
         == Race(pending + {id}, Some(Some(id)), id + 1, [])
  {
    var r := Race(pending + {id}, doc, id + 1, [Saving(Some(id))]);
    FinishedStep(Race(pending, doc, id, [Ready]), Ready, true);
    InsteadOfOne(Ready, [Saving(Some(id))]);
    FinishedStep(r, Saving(Some(id)), true);
    InsteadOfOne(Saving(Some(id)), []);
  }

  /** A whole send while a cancellation still has its record to delete. */
  lemma SendBeforeDelete(r: Race, id: nat)
    requires r.open == [Deleting(false)] && StoredId(r) == Some(id) && id !in r.pending
    ensures var sent := Acted(Acted(Acted(Begun(r, true), 1, true), 1, true), 1, true);
            sent == Race(r.pending + {r.nextId}, Some(Some(r.nextId)), r.nextId + 1, [Deleting(false)])
  {
    var looked := Begun(r, true);
    assert looked.open == [Deleting(false), Looked(true, id)];
    var ready := Acted(looked, 1, true);
    assert ready.open == [Deleting(false), Ready];
    var saving := Acted(ready, 1, true);
    assert saving.open == [Deleting(false), Saving(Some(r.nextId))];
  }

  /** No two sends overlap, but a cancellation deletes the record that a later send has saved; the
      send after that does not find its notification. */
  lemma LateDeleteMisleads()
    ensures var first := Finished(Begun(QUIET, true), true);
            var cancelled := MovedAll(first, [Start(false), Act(0, true)]);
            var second := MovedAll(cancelled, [Start(true), Act(1, true), Act(1, true), Act(1, true)]);
            var deleted := Moved(second, Act(0, true));
            var third := Finished(Begun(deleted, true), true);
            first.open == [] && second.open == [Deleting(false)] && deleted.open == [] && third.open == [] &&
            Misses(deleted) && third.pending == {1, 2}
  {
    QuietSend(None, {}, 0);
    var first := Race({0}, Some(Some(0)), 1, []);
    assert Begun(QUIET, true).open == [Ready] && {} + {0} == {0};
    assert Finished(Begun(QUIET, true), true) == first;
    var cancelled := Race({}, Some(Some(0)), 1, [Deleting(false)]);
    assert Moved(Moved(first, Start(false)), Act(0, true)) == cancelled;
    MovedTwo(first, Start(false), Act(0, true));
    SendBeforeDelete(cancelled, 0);
    var second := Race({1}, Some(Some(1)), 2, [Deleting(false)]);
    MovedTwo(cancelled, Start(true), Act(1, true));
    var scheduling := Moved(Moved(cancelled, Start(true)), Act(1, true));
    MovedTwo(scheduling, Act(1, true), Act(1, true));
    assert [Start(true), Act(1, true), Act(1, true), Act(1, true)][1..][1..] == [Act(1, true), Act(1, true)];
    assert Moved(Moved(scheduling, Act(1, true)), Act(1, true)) == second;
    var deleted := Race({1}, None, 2, []);
    InsteadOfOne(Deleting(false), []);
    assert Moved(second, Act(0, true)) == deleted && Unfound(deleted) == {1};
    QuietSend(None, {1}, 2);
    assert {1} + {2} == {1, 2};
  }

  lemma MovedTwo(r: Race, a: Move, b: Move)
    ensures MovedAll(r, [a, b]) == Moved(Moved(r, a), b)
  {
    assert [a, b][1..] == [b] && [b][1..] == [];
    assert MovedAll(Moved(r, a), [b]) == MovedAll(Moved(Moved(r, a), b), []);
  }
}
