/** handler-pullrequest.js: the check run each tracked pull request of one base branch shows. */
module Statuses {
  import opened Types
  import opened Queue

  const MAX_REPORTED_QUEUE_POSITION := 5

  /** The queue of the branch, the records of its pull requests, and this app's check by commit. */
  datatype Board = Board(
    queue: seq<Booking>,
    records: map<nat, Record>,
    checks: map<string, Check>)

  const BLOCKED := Check(Blocking, NotInQueue)

  /** The choice of `setPullRequestStatusByPosition`. */
  function StatusAt(index: int): Check {
    if index == 0 then Check(Passing, First)
    else if index < 0 then BLOCKED
    else if index <= MAX_REPORTED_QUEUE_POSITION then Check(Blocking, Before(index))
    else Check(Blocking, Over(MAX_REPORTED_QUEUE_POSITION))
  }

  function ShaOf(b: Board, n: nat): Option<string> {
    if n in b.records then b.records[n].sha else None
  }

  predicate Tracked(b: Board, n: nat) {
    ShaOf(b, n).Some?
  }

  /** The check GitHub shows on the head commit of pull request `n`. */
  function Shown(b: Board, n: nat): Option<Check> {
    match ShaOf(b, n)
    case None => None
    case Some(sha) => if sha in b.checks then Some(b.checks[sha]) else None
  }

  function CheckAt(b: Board, sha: string): Option<Check> {
    if sha in b.checks then Some(b.checks[sha]) else None
  }

  /** `_getPullRequestAndUpdateStatus`: nothing is written for an unknown pull request. */
  function Write(b: Board, n: nat, check: Check): Board {
    match ShaOf(b, n)
    case None => b
    case Some(sha) => b.(checks := b.checks[sha := check])
  }

  function SetByPosition(b: Board, n: nat, index: int): Board {
    Write(b, n, StatusAt(index))
  }

  /** Write the status of items[i..], each by its own position in `items`. */
  function RefreshFrom(b: Board, items: seq<Booking>, i: nat): Board
    decreases |items| - i
  {
    if i >= |items| then b
    else RefreshFrom(SetByPosition(b, items[i].number, i), items, i + 1)
  }

  function Top(q: seq<Booking>): seq<Booking> {
    if |q| <= MAX_REPORTED_QUEUE_POSITION + 1 then q else q[..MAX_REPORTED_QUEUE_POSITION + 1]
  }

  /** `setAllPullRequestsStatuses` rewrites no more than the first six. */
  function Refresh(b: Board): Board {
    RefreshFrom(b, Top(b.queue), 0)
  }

  /** The refresh without the cut: every queued pull request is rewritten. */
  function FullRefresh(b: Board): Board {
    RefreshFrom(b, b.queue, 0)
  }

  lemma RefreshKeeps(b: Board, items: seq<Booking>, i: nat)
    ensures RefreshFrom(b, items, i).queue == b.queue && RefreshFrom(b, items, i).records == b.records
    decreases |items| - i
  {
    if i < |items| { RefreshKeeps(SetByPosition(b, items[i].number, i), items, i + 1); }
  }

  // ----- Agreement -----

  ghost predicate DistinctShas(b: Board) {
    forall m, n :: m != n && Tracked(b, m) && Tracked(b, n) ==> ShaOf(b, m) != ShaOf(b, n)
  }

  /** The commit belongs to no other tracked pull request. */
  ghost predicate ShaFree(b: Board, n: nat, sha: string) {
    forall m :: m != n && Tracked(b, m) ==> ShaOf(b, m) != Some(sha)
  }

  ghost predicate WellFormed(b: Board) {
    Distinct(b.queue) && DistinctShas(b)
  }

  function Expected(b: Board, n: nat): Check {
    StatusAt(IndexOf(b.queue, n))
  }

  ghost predicate AgreesOn(b: Board, n: nat) {
    Tracked(b, n) ==> Shown(b, n) == Some(Expected(b, n))
  }

  /** Every tracked pull request shows exactly its place in the queue. */
  ghost predicate Agrees(b: Board) {
    forall n :: AgreesOn(b, n)
  }

  /** Once the board agrees, what a pull request shows is literally true of the queue. */
  lemma ShownPlaceIsReal(b: Board, n: nat)
    requires Agrees(b) && Tracked(b, n)
    ensures Shown(b, n).Some?
    ensures var q, c := b.queue, Shown(b, n).value;
            match c.description
            case First => c.conclusion == Passing && q != [] && q[0].number == n
            case Before(k) => c.conclusion == Blocking && 1 <= k <= 5 && k < |q| && q[k].number == n
            case Over(k) => c.conclusion == Blocking && k == 5 && exists i :: 5 < i < |q| && q[i].number == n
            case NotInQueue => c.conclusion == Blocking && forall i :: 0 <= i < |q| ==> q[i].number != n
            case MergedBy(_) => false
  {
    assert AgreesOn(b, n);
    if IndexOf(b.queue, n) < 0 {
      forall i | 0 <= i < |b.queue| ensures b.queue[i].number != n { IndexOfIsFirst(b.queue, n, i); }
    }
  }

  lemma WriteShown(b: Board, n: nat, check: Check, m: nat)
    requires DistinctShas(b)
    ensures var b' := Write(b, n, check);
            b'.queue == b.queue && b'.records == b.records && DistinctShas(b') &&
            Shown(b', m) == if m == n && Tracked(b, n) then Some(check) else Shown(b, m)
  {
    var b' := Write(b, n, check);
    forall k ensures ShaOf(b', k) == ShaOf(b, k) {}
  }

  /** A refresh writes the items it covers, each by position, and no other pull request. */
  lemma {:induction false} RefreshFromShown(b: Board, items: seq<Booking>, i: nat, m: nat)
    requires DistinctShas(b) && Distinct(items)
    ensures var b' := RefreshFrom(b, items, i);
            b'.queue == b.queue && b'.records == b.records && DistinctShas(b') &&
            Shown(b', m) == if Tracked(b, m) && IndexOf(items, m) >= i
                            then Some(StatusAt(IndexOf(items, m))) else Shown(b, m)
    decreases |items| - i
  {
    if i < |items| {
      IndexOfAt(items, i);
      var n := items[i].number;
      WriteShown(b, n, StatusAt(i), m);
      RefreshFromShown(SetByPosition(b, n, i), items, i + 1, m);
    }
  }

  lemma TopIndex(q: seq<Booking>, n: nat)
    requires Distinct(q)
    ensures Distinct(Top(q))
    ensures IndexOf(Top(q), n) ==
            if IndexOf(q, n) <= MAX_REPORTED_QUEUE_POSITION then IndexOf(q, n) else -1
  {
    assert q == Top(q) + q[|Top(q)|..];
    IndexOfAppend(Top(q), q[|Top(q)|..], n);
  }

  lemma RefreshShown(b: Board, m: nat)
    requires WellFormed(b)
    ensures var b' := Refresh(b);
            b'.queue == b.queue && b'.records == b.records && DistinctShas(b') &&
            Shown(b', m) == if Tracked(b, m) && 0 <= IndexOf(b.queue, m) <= MAX_REPORTED_QUEUE_POSITION
                            then Some(Expected(b, m)) else Shown(b, m)
  {
    TopIndex(b.queue, m);
    RefreshFromShown(b, Top(b.queue), 0, m);
  }

  // ----- The truncated refresh is the full one -----

  lemma {:induction false} RefreshFromSplit(b: Board, items: seq<Booking>, i: nat, k: nat)
    requires i <= k <= |items|
    ensures RefreshFrom(b, items, i) == RefreshFrom(RefreshFrom(b, items[..k], i), items, k)
    decreases k - i
  {
    if i < k {
      RefreshFromSplit(SetByPosition(b, items[i].number, i), items, i + 1, k);
    }
  }

  /** Rewriting items that already show their place changes nothing. */
  lemma {:induction false} RefreshIdempotent(b: Board, items: seq<Booking>, i: nat)
    requires forall j :: i <= j < |items| && Tracked(b, items[j].number)
               ==> Shown(b, items[j].number) == Some(StatusAt(j))
    ensures RefreshFrom(b, items, i) == b
    decreases |items| - i
  {
    if i < |items| {
      var n := items[i].number;
      if Tracked(b, n) {
        assert b.checks[ShaOf(b, n).value := StatusAt(i)] == b.checks;
      }
      RefreshIdempotent(b, items, i + 1);
    }
  }

  /** The pull and the block of a removal, before the refresh. */
  function PullAndBlock(b: Board, item: Booking): Board {
    Write(b.(queue := Pull(b.queue, item)), item.number, BLOCKED)
  }

  /** A misnamed removal of a pull request beyond the places a refresh reaches. */
  predicate FarMisnamed(q: seq<Booking>, item: Booking) {
    Misnamed(q, item) && IndexOf(q, item.number) > MAX_REPORTED_QUEUE_POSITION
  }

  /** A misnamed removal of a pull request within those places. */
  predicate NearMisnamed(q: seq<Booking>, item: Booking) {
    Misnamed(q, item) && IndexOf(q, item.number) <= MAX_REPORTED_QUEUE_POSITION
  }

  /** What the block leaves outside the first six places is already right, unless the removal is
      misnamed and far back: then the blocked pull request itself is wrong. */
  lemma TailAlreadyRight(b: Board, item: Booking, n: nat)
    requires WellFormed(b) && Agrees(b)
    ensures var b1 := PullAndBlock(b, item);
            WellFormed(b1) && b1.records == b.records && b1.queue == Pull(b.queue, item)
    ensures var b1 := PullAndBlock(b, item);
            var k := IndexOf(b1.queue, n);
            Tracked(b, n) && !(0 <= k <= MAX_REPORTED_QUEUE_POSITION) ==>
              (Shown(b1, n) == Some(StatusAt(k)) <==> !(n == item.number && FarMisnamed(b.queue, item)))
  {
    PullIndex(b.queue, item, n);
    PullIndex(b.queue, item, item.number);
    var b0 := b.(queue := Pull(b.queue, item));
    forall k ensures ShaOf(b0, k) == ShaOf(b, k) {}
    WriteShown(b0, item.number, BLOCKED, n);
    assert AgreesOn(b, n);
  }

  lemma TruncatedRefreshAgrees(b: Board, item: Booking)
    requires WellFormed(b) && Agrees(b)
    requires !(FarMisnamed(b.queue, item) && Tracked(b, item.number))
    ensures var b1 := PullAndBlock(b, item);
            Refresh(b1) == FullRefresh(b1) && Agrees(Refresh(b1))
  {
    var b1 := PullAndBlock(b, item);
    TailAlreadyRight(b, item, 0);
    var q := b1.queue;
    var cut := |Top(q)|;
    RefreshFromSplit(b1, q, 0, cut);
    assert q[..cut] == Top(q);
    forall j | cut <= j < |q| && Tracked(Refresh(b1), q[j].number)
      ensures Shown(Refresh(b1), q[j].number) == Some(StatusAt(j))
    {
      RefreshShown(b1, q[j].number);
      IndexOfAt(q, j);
      TailAlreadyRight(b, item, q[j].number);
    }
    RefreshIdempotent(Refresh(b1), q, cut);
    forall n ensures AgreesOn(Refresh(b1), n) {
      RefreshShown(b1, n);
      TailAlreadyRight(b, item, n);
    }
  }

  /** After a removal, rewriting six statuses gives the very board that rewriting all of them
      gives, exactly when the removal does not misname a tracked pull request behind the sixth
      place; and then the board agrees. */
  lemma TruncatedRefreshIsFull(b: Board, item: Booking)
    requires WellFormed(b) && Agrees(b)
    ensures var b1 := PullAndBlock(b, item);
            var far := FarMisnamed(b.queue, item) && Tracked(b, item.number);
            (Refresh(b1) == FullRefresh(b1) <==> !far) && (Agrees(Refresh(b1)) <==> !far)
  {
    var b1, n := PullAndBlock(b, item), item.number;
    if FarMisnamed(b.queue, item) && Tracked(b, n) {
      TailAlreadyRight(b, item, n);
      PullIndex(b.queue, item, n);
      RefreshShown(b1, n);
      RefreshFromShown(b1, b1.queue, 0, n);
      assert !AgreesOn(Refresh(b1), n);
    } else {
      TruncatedRefreshAgrees(b, item);
    }
  }

  // ----- The order of the writes -----

  datatype StatusWrite = StatusWrite(number: nat, check: Check)

  function ApplyWrites(b: Board, ws: seq<StatusWrite>): Board {
    if ws == [] then b
    else Write(ApplyWrites(b, ws[..|ws| - 1]), ws[|ws| - 1].number, ws[|ws| - 1].check)
  }

  /** The writes of a refresh, by position. */
  function RefreshWrites(items: seq<Booking>): (ws: seq<StatusWrite>)
  {
    seq(|items|, (i: nat) requires i < |items| => StatusWrite(items[i].number, StatusAt(i)))
  }

  /** All the writes a removal causes: the block and at most six refreshed places. */
  function RemovalWrites(q: seq<Booking>, item: Booking): seq<StatusWrite> {
    [StatusWrite(item.number, BLOCKED)] + RefreshWrites(Top(Pull(q, item)))
  }

  ghost predicate DistinctTargets(ws: seq<StatusWrite>) {
    forall i, j :: 0 <= i < j < |ws| ==> ws[i].number != ws[j].number
  }

  lemma {:induction false} ApplyWritesKeeps(b: Board, ws: seq<StatusWrite>)
    ensures var b' := ApplyWrites(b, ws); b'.queue == b.queue && b'.records == b.records
  {
    if ws != [] { ApplyWritesKeeps(b, ws[..|ws| - 1]); }
  }

  lemma {:induction false} ApplyWritesAppend(b: Board, ws: seq<StatusWrite>, vs: seq<StatusWrite>)
    ensures ApplyWrites(b, ws + vs) == ApplyWrites(ApplyWrites(b, ws), vs)
  {
    if vs == [] {
      assert ws + vs == ws;
    } else {
      ApplyWritesAppend(b, ws, vs[..|vs| - 1]);
      assert (ws + vs)[..|ws + vs| - 1] == ws + vs[..|vs| - 1];
    }
  }

  lemma {:induction false} RefreshAsWrites(b: Board, items: seq<Booking>, i: nat)
    requires i <= |items|
    ensures RefreshFrom(b, items, i) == ApplyWrites(b, RefreshWrites(items)[i..])
    decreases |items| - i
  {
    var ws := RefreshWrites(items);
    if i < |items| {
      var b1 := SetByPosition(b, items[i].number, i);
      RefreshAsWrites(b1, items, i + 1);
      ApplyWritesAppend(b, [ws[i]], ws[i + 1..]);
      assert ws[i..] == [ws[i]] + ws[i + 1..];
      assert ApplyWrites(b, [ws[i]]) == b1 by { assert [ws[i]][..0] == []; }
    }
  }

  /** One of `ws` writes to the check run of `sha`. */
  ghost predicate Hit(b: Board, ws: seq<StatusWrite>, w: StatusWrite, sha: string) {
    w in ws && ShaOf(b, w.number) == Some(sha)
  }

  /** A check run ends as one of the writes aimed at it, or unchanged if there is none. */
  lemma {:induction false} ApplyWritesAt(b: Board, ws: seq<StatusWrite>, sha: string)
    ensures var shown := CheckAt(ApplyWrites(b, ws), sha);
            (exists w :: Hit(b, ws, w, sha) && shown == Some(w.check)) ||
            ((forall w :: !Hit(b, ws, w, sha)) && shown == CheckAt(b, sha))
  {
    if ws != [] {
      var k := |ws| - 1;
      ApplyWritesAt(b, ws[..k], sha);
      ApplyWritesKeeps(b, ws[..k]);
      assert ws == ws[..k] + [ws[k]];
      if ShaOf(b, ws[k].number) == Some(sha) {
        assert Hit(b, ws, ws[k], sha);
      } else if w :| Hit(b, ws[..k], w, sha) && CheckAt(ApplyWrites(b, ws[..k]), sha) == Some(w.check) {
        assert Hit(b, ws, w, sha);
      } else {
        forall w ensures !Hit(b, ws, w, sha) { assert !Hit(b, ws[..k], w, sha); }
      }
    }
  }

  /** Write number `i` delivered after all the others. */
  function Last(ws: seq<StatusWrite>, i: nat): seq<StatusWrite>
    requires i < |ws|
  {
    ws[..i] + ws[i + 1..] + [ws[i]]
  }

  lemma LastWins(b: Board, ws: seq<StatusWrite>, i: nat)
    requires i < |ws| && Tracked(b, ws[i].number)
    ensures multiset(Last(ws, i)) == multiset(ws)
    ensures CheckAt(ApplyWrites(b, Last(ws, i)), ShaOf(b, ws[i].number).value) == Some(ws[i].check)
  {
    assert ws == ws[..i] + [ws[i]] + ws[i + 1..];
    ApplyWritesKeeps(b, ws[..i] + ws[i + 1..]);
    assert Last(ws, i)[..|ws| - 1] == ws[..i] + ws[i + 1..];
  }

  /** Writes aimed at one check run write the same. */
  ghost predicate Consistent(b: Board, ws: seq<StatusWrite>) {
    forall u, v :: u in ws && v in ws && Tracked(b, u.number) && ShaOf(b, u.number) == ShaOf(b, v.number)
      ==> u.check == v.check
  }

  lemma ConsistentCommute(b: Board, ws: seq<StatusWrite>, vs: seq<StatusWrite>)
    requires Consistent(b, ws) && multiset(ws) == multiset(vs)
    ensures ApplyWrites(b, ws) == ApplyWrites(b, vs)
  {
    var x, y := ApplyWrites(b, ws), ApplyWrites(b, vs);
    ApplyWritesKeeps(b, ws);
    ApplyWritesKeeps(b, vs);
    SameMembers(ws, vs);
    forall sha ensures CheckAt(x, sha) == CheckAt(y, sha) {
      ApplyWritesAt(b, ws, sha);
      ApplyWritesAt(b, vs, sha);
      forall w ensures Hit(b, ws, w, sha) <==> Hit(b, vs, w, sha) {}
    }
    assert forall sha :: sha in x.checks <==> CheckAt(x, sha).Some?;
    assert forall sha :: sha in y.checks <==> CheckAt(y, sha).Some?;
    assert x.checks == y.checks;
  }

  lemma SameMembers(ws: seq<StatusWrite>, vs: seq<StatusWrite>)
    requires multiset(ws) == multiset(vs)
    ensures forall w :: w in ws <==> w in vs
  {
    assert forall w :: w in ws <==> w in multiset(ws);
    assert forall w :: w in vs <==> w in multiset(vs);
  }

  /** Writes commute, whatever they are, exactly when they are consistent. */
  lemma WritesCommuteExactly(b: Board, ws: seq<StatusWrite>)
    ensures (forall vs: seq<StatusWrite> :: multiset(vs) == multiset(ws) ==> ApplyWrites(b, vs) == ApplyWrites(b, ws))
            <==> Consistent(b, ws)
  {
    if Consistent(b, ws) {
      forall vs: seq<StatusWrite> | multiset(vs) == multiset(ws) ensures ApplyWrites(b, vs) == ApplyWrites(b, ws) {
        ConsistentCommute(b, ws, vs);
      }
    } else {
      var u, v :| u in ws && v in ws && Tracked(b, u.number) && ShaOf(b, u.number) == ShaOf(b, v.number)
                  && u.check != v.check;
      var i :| 0 <= i < |ws| && ws[i] == u;
      var j :| 0 <= j < |ws| && ws[j] == v;
      LastWins(b, ws, i);
      LastWins(b, ws, j);
    }
  }

  ghost predicate AllRight(b: Board, ws: seq<StatusWrite>) {
    forall w :: w in ws && Tracked(b, w.number) ==> w.check == Expected(b, w.number)
  }

  ghost predicate Untouched(ws: seq<StatusWrite>, n: nat) {
    forall w :: w in ws ==> w.number != n
  }

  /** Whatever writes are on their way, from whichever handlers: every order of them ends in
      agreement exactly when each writes the right check and whoever gets none shows it already. */
  lemma WritesSettleExactly(b: Board, ws: seq<StatusWrite>)
    requires DistinctShas(b)
    ensures (forall vs: seq<StatusWrite> :: multiset(vs) == multiset(ws) ==> Agrees(ApplyWrites(b, vs))) <==>
            AllRight(b, ws) && forall n :: Untouched(ws, n) ==> AgreesOn(b, n)
  {
    if AllRight(b, ws) && forall n :: Untouched(ws, n) ==> AgreesOn(b, n) {
      forall vs: seq<StatusWrite> | multiset(vs) == multiset(ws) ensures Agrees(ApplyWrites(b, vs)) {
        SameMembers(ws, vs);
        forall n ensures AgreesOn(ApplyWrites(b, vs), n) { RightWritesAgree(b, vs, n); }
      }
    } else if w :| w in ws && Tracked(b, w.number) && w.check != Expected(b, w.number) {
      var i :| 0 <= i < |ws| && ws[i] == w;
      LastWins(b, ws, i);
      ApplyWritesKeeps(b, Last(ws, i));
      assert !AgreesOn(ApplyWrites(b, Last(ws, i)), w.number);
    } else {
      var n :| Untouched(ws, n) && !AgreesOn(b, n);
      ApplyWritesKeeps(b, ws);
      ApplyWritesAt(b, ws, ShaOf(b, n).value);
      assert !AgreesOn(ApplyWrites(b, ws), n);
    }
  }

  lemma RightWritesAgree(b: Board, ws: seq<StatusWrite>, n: nat)
    requires DistinctShas(b)
    requires AllRight(b, ws) && (Untouched(ws, n) ==> AgreesOn(b, n))
    ensures AgreesOn(ApplyWrites(b, ws), n)
  {
    var b' := ApplyWrites(b, ws);
    ApplyWritesKeeps(b, ws);
    assert ShaOf(b', n) == ShaOf(b, n) && Expected(b', n) == Expected(b, n);
    if Tracked(b, n) {
      var sha := ShaOf(b, n).value;
      ApplyWritesAt(b, ws, sha);
      if w :| Hit(b, ws, w, sha) && CheckAt(b', sha) == Some(w.check) {
        assert w.number == n;
      } else {
        forall w | w in ws ensures w.number != n { assert !Hit(b, ws, w, sha); }
      }
    }
  }

  // ----- The writes of a removal -----

  lemma RemovalTargets(q: seq<Booking>, item: Booking)
    requires Distinct(q)
    ensures DistinctTargets(RemovalWrites(q, item)) <==> !NearMisnamed(q, item)
  {
    var all, top := RemovalWrites(q, item), Top(Pull(q, item));
    PullIndex(q, item, item.number);
    TopIndex(Pull(q, item), item.number);
    if NearMisnamed(q, item) {
      var k := IndexOf(top, item.number);
      assert all[0].number == all[k + 1].number;
    } else {
      forall i, j | 0 <= i < j < |all| ensures all[i].number != all[j].number {
        assert all[j].number == top[j - 1].number;
        if i > 0 { assert all[i].number == top[i - 1].number; } else { IndexOfIsFirst(top, item.number, j - 1); }
      }
    }
  }

  lemma RemovalAsWrites(b: Board, item: Booking)
    ensures ApplyWrites(b.(queue := Pull(b.queue, item)), RemovalWrites(b.queue, item))
         == Refresh(PullAndBlock(b, item))
  {
    var b0 := b.(queue := Pull(b.queue, item));
    var block, rs := StatusWrite(item.number, BLOCKED), RefreshWrites(Top(b0.queue));
    ApplyWritesAppend(b0, [block], rs);
    assert [block][..0] == [];
    assert ApplyWrites(b0, [block]) == PullAndBlock(b, item);
    RefreshAsWrites(PullAndBlock(b, item), Top(b0.queue), 0);
    assert rs[0..] == rs;
  }

  /** The block and the refreshes reach GitHub in some order; none of the orders matters. */
  ghost predicate AnyOrder(b: Board, item: Booking) {
    forall ws: seq<StatusWrite> :: multiset(ws) == multiset(RemovalWrites(b.queue, item)) ==>
      ApplyWrites(b.(queue := Pull(b.queue, item)), ws) == Refresh(PullAndBlock(b, item))
  }

  /** A near misnamed removal aims two different writes at one pull request; if the block comes
      last it stays, even on the head. */
  lemma BlockLastIsWrong(b: Board, item: Booking)
    requires WellFormed(b) && NearMisnamed(b.queue, item) && Tracked(b, item.number)
    ensures var n, rs := item.number, RefreshWrites(Top(b.queue));
            var blockLast := rs + [StatusWrite(n, BLOCKED)];
            multiset(blockLast) == multiset(RemovalWrites(b.queue, item)) &&
            Shown(ApplyWrites(b, blockLast), n) == Some(BLOCKED) &&
            Shown(Refresh(PullAndBlock(b, item)), n) == Some(Expected(b, n)) &&
            Expected(b, n) != BLOCKED && Pull(b.queue, item) == b.queue
  {
    var n, rs := item.number, RefreshWrites(Top(b.queue));
    var block := StatusWrite(n, BLOCKED);
    PullOne(b.queue, item);
    assert b.(queue := b.queue) == b;
    ApplyWritesKeeps(b, rs);
    assert (rs + [block])[..|rs|] == rs;
    WriteShown(b, n, BLOCKED, n);
    RefreshShown(PullAndBlock(b, item), n);
  }

  /** The block is the only write to its pull request if the removal is no near misnamed one. */
  lemma BlockedOnce(b: Board, item: Booking, j: nat)
    requires WellFormed(b) && !NearMisnamed(b.queue, item) && j < |Top(Pull(b.queue, item))|
    ensures Top(Pull(b.queue, item))[j].number != item.number
  {
    PullIndex(b.queue, item, item.number);
    TopIndex(Pull(b.queue, item), item.number);
    IndexOfIsFirst(Top(Pull(b.queue, item)), item.number, j);
  }

  lemma RemovalIsConsistent(b: Board, item: Booking)
    requires WellFormed(b) && !(NearMisnamed(b.queue, item) && Tracked(b, item.number))
    ensures Consistent(b.(queue := Pull(b.queue, item)), RemovalWrites(b.queue, item))
  {
    var b0, all, top := b.(queue := Pull(b.queue, item)), RemovalWrites(b.queue, item), Top(Pull(b.queue, item));
    forall k ensures ShaOf(b0, k) == ShaOf(b, k) {}
    PullIndex(b.queue, item, item.number);
    forall i, j | 0 <= i < j < |all| && Tracked(b, all[i].number) ensures all[i].number != all[j].number {
      assert all[j].number == top[j - 1].number;
      if i > 0 { assert all[i].number == top[i - 1].number; } else { BlockedOnce(b, item, j - 1); }
    }
  }

  lemma RemovalWritesCommute(b: Board, item: Booking)
    requires WellFormed(b) && !(NearMisnamed(b.queue, item) && Tracked(b, item.number))
    ensures AnyOrder(b, item)
  {
    RemovalIsConsistent(b, item);
    RemovalAsWrites(b, item);
    WritesCommuteExactly(b.(queue := Pull(b.queue, item)), RemovalWrites(b.queue, item));
  }

  lemma MisnamedOrderMatters(b: Board, item: Booking)
    requires WellFormed(b) && NearMisnamed(b.queue, item) && Tracked(b, item.number)
    ensures !AnyOrder(b, item)
  {
    BlockLastIsWrong(b, item);
    assert b.(queue := Pull(b.queue, item)) == b;
    var blockLast := RefreshWrites(Top(b.queue)) + [StatusWrite(item.number, BLOCKED)];
    assert ApplyWrites(b, blockLast) != Refresh(PullAndBlock(b, item));
  }

  /** The writes of a removal may reach GitHub in any order exactly when it does not misname a
      tracked pull request among the first six. */
  lemma WriteOrderMattersExactly(b: Board, item: Booking)
    requires WellFormed(b)
    ensures AnyOrder(b, item) <==> !(NearMisnamed(b.queue, item) && Tracked(b, item.number))
  {
    if NearMisnamed(b.queue, item) && Tracked(b, item.number) {
      MisnamedOrderMatters(b, item);
    } else {
      RemovalWritesCommute(b, item);
    }
  }
}
