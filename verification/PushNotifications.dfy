/** handler-notification-push.js and manager-notification-push.js: a checks notification is
    scheduled remotely for later, and a database record keeps the id that cancels it. */
module PushNotifications {
  import opened Types

  const SEND_DELAY := 60
  /** The expiry of the records, migrations/2018-11-06-pushNotification.js:33. */
  const EXPIRE_AFTER := 120

  datatype Title = ChecksPassed | ChecksFailed

  function TitleOf(state: Status): Title {
    if state == Success then ChecksPassed else ChecksFailed
  }

  /** A notification the remote service has accepted and not yet delivered. */
  datatype Scheduled = Scheduled(to: Recipient, title: Title, sendAt: nat)

  /** The record of the last notification; it has no id when the service refused that one. */
  datatype Doc = Doc(id: Option<nat>, createdAt: nat)

  /** Time in seconds, the remote schedule, and the records by recipient. */
  datatype Center = Center(clock: nat, pending: map<nat, Scheduled>, docs: map<Recipient, Doc>, nextId: nat)

  /** `cancelNotification`: without a record, or when the remote refuses, nothing changes. */
  function Cancel(c: Center, to: Recipient): Center {
    if to in c.docs && c.docs[to].id.Some? && c.docs[to].id.value in c.pending
    then c.(pending := c.pending - {c.docs[to].id.value}, docs := c.docs - {to})
    else c
  }

  /** The remote accepts the notification under a new id, or refuses it. */
  function Schedule(c: Center, s: Scheduled, accepted: bool): Center {
    if accepted then c.(pending := c.pending[c.nextId := s], nextId := c.nextId + 1) else c
  }

  /** `saveNotification` merges: a refused notification keeps the id stored before. */
  function Save(c: Center, to: Recipient, id: Option<nat>): Center {
    var kept := if id.Some? then id else if to in c.docs then c.docs[to].id else None;
    c.(docs := c.docs[to := Doc(kept, c.clock)])
  }

  /** `sendChecksNotification`: cancel, schedule, then save, `elapsed` seconds after the start. */
  function Send(c: Center, to: Recipient, state: Status, accepted: bool, elapsed: nat): Center {
    var s := Scheduled(to, TitleOf(state), c.clock + SEND_DELAY);
    var c1 := Schedule(Cancel(c, to), s, accepted);
    Save(c1.(clock := c.clock + elapsed), to, if accepted then Some(c.nextId) else None)
  }

  /** Time passes: some notifications are delivered and some records expire. */
  function Advance(c: Center, now: nat, delivered: set<nat>, expired: set<Recipient>): Center {
    c.(clock := now, pending := c.pending - delivered, docs := c.docs - expired)
  }

  /** Nothing is delivered early, everything within `latency` of its time; no record goes early. */
  ghost predicate CanAdvance(c: Center, now: nat, delivered: set<nat>, expired: set<Recipient>, latency: nat) {
    && c.clock <= now
    && (forall id :: id in delivered && id in c.pending ==> c.pending[id].sendAt <= now)
    && (forall id :: id in c.pending && c.pending[id].sendAt + latency <= now ==> id in delivered)
    && (forall to :: to in expired && to in c.docs ==> c.docs[to].createdAt + EXPIRE_AFTER <= now)
  }

  // ----- One undelivered notification per recipient -----

  ghost predicate OnePerRecipient(c: Center) {
    forall i, j :: i in c.pending && j in c.pending && c.pending[i].to == c.pending[j].to ==> i == j
  }

  /** The record of an undelivered notification is there, holds its id, and expires late enough. */
  ghost predicate Cancellable(c: Center, id: nat)
    requires id in c.pending
  {
    var s := c.pending[id];
    s.to in c.docs && c.docs[s.to].id == Some(id) && s.sendAt <= c.docs[s.to].createdAt + SEND_DELAY
  }

  /** A stored id was issued by the service, and only for this recipient. */
  ghost predicate OwnId(c: Center, to: Recipient, id: nat) {
    id < c.nextId && (id in c.pending ==> c.pending[id].to == to)
  }

  ghost predicate Inv(c: Center) {
    && (forall id :: id in c.pending ==> id < c.nextId && Cancellable(c, id))
    && (forall to :: to in c.docs && c.docs[to].id.Some? ==> OwnId(c, to, c.docs[to].id.value))
  }

  lemma InvMeansOne(c: Center)
    requires Inv(c)
    ensures OnePerRecipient(c)
  {
  }

  /** Cancelling removes exactly the undelivered notifications of the recipient. */
  lemma CancelRemovesAll(c: Center, to: Recipient)
    requires Inv(c)
    ensures var c' := Cancel(c, to);
            Inv(c') && c'.clock == c.clock && c'.nextId == c.nextId &&
            forall id :: id in c'.pending <==> id in c.pending && c.pending[id].to != to
    ensures forall id :: id in Cancel(c, to).pending ==> Cancel(c, to).pending[id] == c.pending[id]
    ensures Cancel(c, to).docs ==
            if exists id :: id in c.pending && c.pending[id].to == to then c.docs - {to} else c.docs
  {
    if id :| id in c.pending && c.pending[id].to == to { assert Cancellable(c, id); }
  }

  /** After a send the recipient has the new notification, or none if it was refused. */
  lemma SendReplaces(c: Center, to: Recipient, state: Status, accepted: bool, elapsed: nat)
    requires Inv(c)
    ensures var c' := Send(c, to, state, accepted, elapsed);
            Inv(c') &&
            (forall id :: id in c'.pending <==>
              (id in c.pending && c.pending[id].to != to) || (accepted && id == c.nextId)) &&
            (forall id :: id in c'.pending && id < c.nextId ==> c'.pending[id] == c.pending[id]) &&
            (accepted ==> c'.pending[c.nextId] == Scheduled(to, TitleOf(state), c.clock + SEND_DELAY))
    ensures var c' := Send(c, to, state, accepted, elapsed);
            c'.clock == c.clock + elapsed && c'.nextId == c.nextId + (if accepted then 1 else 0) &&
            c'.docs.Keys == c.docs.Keys + {to} && c'.docs[to].createdAt == c.clock + elapsed &&
            (accepted ==> c'.docs[to].id == Some(c.nextId)) &&
            (!accepted ==> forall id :: c'.docs[to].id == Some(id) ==> id !in c'.pending) &&
            (forall other :: other in c.docs && other != to ==> c'.docs[other] == c.docs[other])
  {
    CancelRemovesAll(c, to);
    var c1 := Cancel(c, to);
    var c' := Send(c, to, state, accepted, elapsed);
    forall id | id in c'.pending ensures id < c'.nextId && Cancellable(c', id) {
      if id in c1.pending { assert Cancellable(c1, id); }
    }
  }

  lemma AdvanceKeeps(c: Center, now: nat, delivered: set<nat>, expired: set<Recipient>, latency: nat)
    requires Inv(c) && latency <= EXPIRE_AFTER - SEND_DELAY
    requires CanAdvance(c, now, delivered, expired, latency)
    ensures Inv(Advance(c, now, delivered, expired))
  {
  }

  // ----- Runs -----

  datatype Step =
    | SendChecks(to: Recipient, state: Status, accepted: bool, elapsed: nat)
    | CancelChecks(to: Recipient)
    | Pass(now: nat, delivered: set<nat>, expired: set<Recipient>)

  function Next(c: Center, step: Step): Center {
    match step
    case SendChecks(to, state, accepted, elapsed) => Send(c, to, state, accepted, elapsed)
    case CancelChecks(to) => Cancel(c, to)
    case Pass(now, delivered, expired) => Advance(c, now, delivered, expired)
  }

  function Run(c: Center, steps: seq<Step>): Center
    decreases steps
  {
    if steps == [] then c else Run(Next(c, steps[0]), steps[1..])
  }

  ghost predicate AllowedRun(c: Center, steps: seq<Step>, latency: nat)
    decreases steps
  {
    steps == [] ||
    ((steps[0].Pass? ==> CanAdvance(c, steps[0].now, steps[0].delivered, steps[0].expired, latency)) &&
     AllowedRun(Next(c, steps[0]), steps[1..], latency))
  }

  const START := Center(0, map[], map[], 0)

  lemma {:induction false} RunKeeps(c: Center, steps: seq<Step>, latency: nat)
    requires Inv(c) && AllowedRun(c, steps, latency) && latency <= EXPIRE_AFTER - SEND_DELAY
    ensures Inv(Run(c, steps))
    decreases steps
  {
    if steps != [] {
      match steps[0] {
        case SendChecks(to, state, accepted, elapsed) => SendReplaces(c, to, state, accepted, elapsed);
        case CancelChecks(to) => CancelRemovesAll(c, to);
        case Pass(now, delivered, expired) => AdvanceKeeps(c, now, delivered, expired, latency);
      }
      RunKeeps(Next(c, steps[0]), steps[1..], latency);
    }
  }

  /** No run, however it sends, cancels and waits, leaves a recipient two undelivered notifications. */
  ghost predicate NeverTwo(latency: nat) {
    forall steps: seq<Step> :: AllowedRun(START, steps, latency) ==> OnePerRecipient(Run(START, steps))
  }

  /** A run that outlives its record: the record expires while a late delivery is still due. */
  function LateRun(to: Recipient): seq<Step> {
    [SendChecks(to, Success, true, 0), Pass(EXPIRE_AFTER, {}, {to}), SendChecks(to, Failure, true, 0)]
  }

  lemma LateRunSendsTwice(to: Recipient, latency: nat)
    requires latency > EXPIRE_AFTER - SEND_DELAY
    ensures AllowedRun(START, LateRun(to), latency) && !OnePerRecipient(Run(START, LateRun(to)))
  {
    var steps := LateRun(to);
    var c1 := Next(START, steps[0]);
    var c2 := Next(c1, steps[1]);
    var c3 := Next(c2, steps[2]);
    assert c1.pending == map[0 := Scheduled(to, ChecksPassed, SEND_DELAY)];
    assert c1.docs == map[to := Doc(Some(0), 0)];
    assert c2.pending == c1.pending && c2.docs == map[];
    assert steps[1..][1..] == steps[2..] && steps[2..][1..] == [];
    assert steps[1..][0] == steps[1] && steps[2..][0] == steps[2];
    assert AllowedRun(c3, [], latency);
    assert AllowedRun(c2, steps[2..], latency);
    assert AllowedRun(c1, steps[1..], latency);
    assert Run(c2, steps[2..]) == Run(c3, []) == c3;
    assert Run(c1, steps[1..]) == c3;
    assert 0 in c3.pending && 1 in c3.pending && c3.pending[0].to == c3.pending[1].to;
  }

  /** The expiry of 120 seconds is safe exactly for deliveries at most 60 seconds late. */
  lemma ExpiryIsTight(latency: nat)
    ensures NeverTwo(latency) <==> latency <= 60
  {
    if latency <= EXPIRE_AFTER - SEND_DELAY {
      forall steps: seq<Step> | AllowedRun(START, steps, latency) ensures OnePerRecipient(Run(START, steps)) {
        RunKeeps(START, steps, latency);
        InvMeansOne(Run(START, steps));
      }
    } else {
      LateRunSendsTwice(Recipient(0, ""), latency);
    }
  }

  /** While a notification is undelivered, its record is there and holds its id. */
  lemma RecordOutlivesNotification(steps: seq<Step>, latency: nat, id: nat)
    requires latency <= 60 && AllowedRun(START, steps, latency)
    requires id in Run(START, steps).pending
    ensures var c := Run(START, steps);
            c.pending[id].to in c.docs && c.docs[c.pending[id].to].id == Some(id)
  {
    RunKeeps(START, steps, latency);
    assert Cancellable(Run(START, steps), id);
  }

  // ----- The handler -----

  class PushNotificationHandler {
    var clock: nat
    var pending: map<nat, Scheduled>
    var docs: map<Recipient, Doc>
    var nextId: nat

    ghost function State(): Center reads this {
      Center(clock, pending, docs, nextId)
    }

    constructor ()
      ensures State() == START
    {
      clock, pending, docs, nextId := 0, map[], map[], 0;
    }

    method CancelChecksNotification(to: Recipient)
      modifies this
      ensures State() == Cancel(old(State()), to)
    {
      if to in docs {
        var notification := docs[to];
        if notification.id.Some? && notification.id.value in pending {
          pending := pending - {notification.id.value};
          docs := docs - {to};
        }
      }
    }

    method SendNotification(s: Scheduled, accepted: bool) returns (id: Option<nat>)
      modifies this
      ensures State() == Schedule(old(State()), s, accepted)
      ensures id == if accepted then Some(old(nextId)) else None
    {
      id := None;
      if accepted {
        id := Some(nextId);
        pending := pending[nextId := s];
        nextId := nextId + 1;
      }
    }

    method SaveNotification(to: Recipient, id: Option<nat>)
      modifies this
      ensures State() == Save(old(State()), to, id)
    {
      var stored := id;
      if id.None? && to in docs {
        stored := docs[to].id;
      }
      docs := docs[to := Doc(stored, clock)];
    }

    method SendChecksNotification(to: Recipient, state: Status, accepted: bool, elapsed: nat)
      modifies this
      ensures State() == Send(old(State()), to, state, accepted, elapsed)
    {
      var sendAt := clock + SEND_DELAY;
      CancelChecksNotification(to);
      var id := SendNotification(Scheduled(to, TitleOf(state), sendAt), accepted);
      clock := clock + elapsed;
      SaveNotification(to, id);
    }

    method Wait(now: nat, delivered: set<nat>, expired: set<Recipient>)
      modifies this
      ensures State() == Advance(old(State()), now, delivered, expired)
    {
      clock := now;
      pending := pending - delivered;
      docs := docs - expired;
    }
  }
}
