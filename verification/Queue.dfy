/** manager-queue.js: one ordered list of bookings per base branch. */
module Queue {
  import opened Types
  import opened Lists

  /** No two bookings of a queue name the same pull request. */
  ghost predicate Distinct(q: seq<Booking>) {
    forall i, j :: 0 <= i < j < |q| ==> q[i].number != q[j].number
  }

  /** Ramda's `findIndex`: the first booking of pull request `n`, or -1. */
  function IndexOf(q: seq<Booking>, n: nat): (r: int)
    ensures -1 <= r < |q|
    ensures r >= 0 ==> q[r].number == n
  {
    if q == [] then -1
    else if q[0].number == n then 0
    else
      var r := IndexOf(q[1..], n);
      if r < 0 then -1 else r + 1
  }

  /** Nothing before the index found names the pull request; -1 means nothing does. */
  lemma {:induction false} IndexOfIsFirst(q: seq<Booking>, n: nat, j: nat)
    requires j < |q| && (IndexOf(q, n) < 0 || j < IndexOf(q, n))
    ensures q[j].number != n
  {
    if j > 0 { IndexOfIsFirst(q[1..], n, j - 1); }
  }

  /** The booking is in the queue, is of pull request `n`, and none before it is. */
  ghost predicate IsFirstOf(booking: Booking, q: seq<Booking>, n: nat) {
    booking.number == n &&
    exists i :: 0 <= i < |q| && q[i] == booking && forall j :: 0 <= j < i ==> q[j].number != n
  }

  lemma FirstIsAtIndex(q: seq<Booking>, n: nat, booking: Booking)
    ensures IsFirstOf(booking, q, n) <==> IndexOf(q, n) >= 0 && booking == q[IndexOf(q, n)]
  {
    var r := IndexOf(q, n);
    forall j | 0 <= j < |q| && (r < 0 || j < r) ensures q[j].number != n {
      IndexOfIsFirst(q, n, j);
    }
  }

  /** In a queue without repeats, the booking's position determines its index. */
  lemma IndexOfAt(q: seq<Booking>, i: int)
    requires Distinct(q) && 0 <= i < |q|
    ensures IndexOf(q, q[i].number) == i
  {
    var r := IndexOf(q, q[i].number);
    if r < 0 || i < r { IndexOfIsFirst(q, q[i].number, i); }
  }

  lemma {:induction false} IndexOfAppend(a: seq<Booking>, b: seq<Booking>, n: nat)
    ensures IndexOf(a + b, n) == if IndexOf(a, n) >= 0 then IndexOf(a, n)
                                 else if IndexOf(b, n) >= 0 then |a| + IndexOf(b, n) else -1
  {
    if a == [] {
      assert a + b == b;
    } else {
      IndexOfAppend(a[1..], b, n);
      assert (a + b)[1..] == a[1..] + b;
    }
  }

  function Head(q: seq<Booking>): Option<Booking> {
    if q == [] then None else Some(q[0])
  }

  // ----- The two updates -----

  /** `$push` guarded by `$ne`: a second booking of a pull request is refused. */
  function Push(q: seq<Booking>, item: Booking): seq<Booking> {
    if IndexOf(q, item.number) >= 0 then q else q + [item]
  }

  /** A booking matches a removal on username and number; `createdAt` plays no part. */
  predicate Matches(booking: Booking, item: Booking) {
    booking.username == item.username && booking.number == item.number
  }

  function Spared(item: Booking): Booking -> bool {
    (booking: Booking) => !Matches(booking, item)
  }

  /** `$pull` drops every matching booking. */
  function Pull(q: seq<Booking>, item: Booking): seq<Booking> {
    Filter(Spared(item), q)
  }

  /** The payload of `item.add`, taken from the queue after the push; none when refused. */
  function AddEvent(q: seq<Booking>, item: Booking): Option<Event> {
    if IndexOf(q, item.number) >= 0 then None else Some(Added(item, |Push(q, item)| - 1))
  }

  /** The payload of `item.remove`: it compares only the number, with the queue before the pull. */
  function RemoveEvent(q: seq<Booking>, item: Booking, closed: bool): Event {
    Removed(item, closed, q != [] && q[0].number == item.number)
  }

  /** The pull request is queued, but not under the username the removal names. */
  predicate Misnamed(q: seq<Booking>, item: Booking) {
    var i := IndexOf(q, item.number);
    i >= 0 && q[i].username != item.username
  }

  // ----- What they do to positions -----

  /** The queue without its booking number `i`. */
  function Without(q: seq<Booking>, i: int): seq<Booking>
    requires 0 <= i < |q|
  {
    if i == 0 then q[1..] else [q[0]] + Without(q[1..], i - 1)
  }

  predicate Hits(q: seq<Booking>, item: Booking) {
    var i := IndexOf(q, item.number);
    i >= 0 && q[i].username == item.username
  }

  /** A removal takes out the one booking it matches, if any, and nothing else. */
  lemma {:induction false} PullOne(q: seq<Booking>, item: Booking)
    requires Distinct(q)
    ensures Pull(q, item) == if Hits(q, item) then Without(q, IndexOf(q, item.number)) else q
  {
    if q != [] {
      if q[0].number == item.number {
        FilterAll(Spared(item), q[1..]);
      } else {
        PullOne(q[1..], item);
      }
    }
  }

  lemma {:induction false} WithoutAt(q: seq<Booking>, i: int, j: int)
    requires 0 <= i < |q| && 0 <= j < |q| - 1
    ensures |Without(q, i)| == |q| - 1
    ensures Without(q, i)[j] == q[if j < i then j else j + 1]
  {
    if i > 0 && j > 0 { WithoutAt(q[1..], i - 1, j - 1); }
    else if i > 0 && |q| > 2 { WithoutAt(q[1..], i - 1, 0); }
  }

  lemma IndexOfCons(x: Booking, q: seq<Booking>, n: nat)
    ensures IndexOf([x] + q, n) == if x.number == n then 0 else if IndexOf(q, n) < 0 then -1 else IndexOf(q, n) + 1
  {
    assert ([x] + q)[1..] == q;
  }

  /** In a queue without repeats the head is not in the tail. */
  lemma HeadOnlyOnce(q: seq<Booking>)
    requires Distinct(q) && q != []
    ensures Distinct(q[1..]) && IndexOf(q[1..], q[0].number) == -1
  {
    assert forall j :: 0 <= j < |q[1..]| ==> q[1..][j] == q[j + 1] && q[j + 1].number != q[0].number;
  }

  lemma {:induction false} WithoutIndex(q: seq<Booking>, i: int, n: nat)
    requires Distinct(q) && 0 <= i < |q|
    ensures var k := IndexOf(q, n);
            IndexOf(Without(q, i), n) == if k == i then -1 else if k > i then k - 1 else k
  {
    HeadOnlyOnce(q);
    if i > 0 {
      WithoutIndex(q[1..], i - 1, n);
      IndexOfCons(q[0], Without(q[1..], i - 1), n);
    }
  }

  lemma WithoutDistinct(q: seq<Booking>, i: int)
    requires Distinct(q) && 0 <= i < |q|
    ensures |Without(q, i)| == |q| - 1 && Distinct(Without(q, i))
  {
    if |q| > 1 { WithoutAt(q, i, 0); }
    var r := Without(q, i);
    forall a, b | 0 <= a < b < |r| ensures r[a].number != r[b].number {
      WithoutAt(q, i, a);
      WithoutAt(q, i, b);
    }
  }

  /** The index of every pull request after a removal. */
  lemma PullIndex(q: seq<Booking>, item: Booking, n: nat)
    requires Distinct(q)
    ensures Distinct(Pull(q, item))
    ensures var i, k := IndexOf(q, item.number), IndexOf(q, n);
            IndexOf(Pull(q, item), n) ==
            if !Hits(q, item) then k else if k == i then -1 else if k > i then k - 1 else k
  {
    PullOne(q, item);
    if Hits(q, item) {
      WithoutDistinct(q, IndexOf(q, item.number));
      WithoutIndex(q, IndexOf(q, item.number), n);
    }
  }

  /** The index of every pull request after a booking; only the new one moves. */
  lemma PushIndex(q: seq<Booking>, item: Booking, n: nat)
    requires Distinct(q)
    ensures Distinct(Push(q, item))
    ensures IndexOf(Push(q, item), n) ==
            if IndexOf(q, n) < 0 && n == item.number then |q| else IndexOf(q, n)
  {
    if IndexOf(q, item.number) < 0 {
      IndexOfAppend(q, [item], n);
      forall j | 0 <= j < |q| ensures q[j].number != item.number { IndexOfIsFirst(q, item.number, j); }
    }
  }

  /** A booking is announced exactly when it was not refused, with the place it has just got. */
  lemma AddEventIsItsPlace(q: seq<Booking>, item: Booking)
    requires Distinct(q)
    ensures var q', ev := Push(q, item), AddEvent(q, item);
            match ev
            case None => q' == q && exists i :: 0 <= i < |q| && q[i].number == item.number
            case Some(added) =>
              added.Added? && added.item == item && 0 <= added.index < |q'| && q'[added.index] == item &&
              added.index == IndexOf(q', item.number) && q'[..added.index] == q
  {
    PushIndex(q, item, item.number);
    if AddEvent(q, item).None? { assert q[IndexOf(q, item.number)].number == item.number; }
  }

  /** `firstItemChanged` announces a new head exactly, unless the head is misnamed. */
  lemma FirstItemChangedIsExact(q: seq<Booking>, item: Booking, closed: bool)
    requires Distinct(q)
    ensures var ev := RemoveEvent(q, item, closed);
            ev.Removed? && ev.item == item && ev.closed == closed
    ensures var ev := RemoveEvent(q, item, closed);
            (ev.firstItemChanged <==> Head(q) != Head(Pull(q, item)))
            <==> !(q != [] && q[0].number == item.number && Misnamed(q, item))
  {
    PullOne(q, item);
    if q != [] { IndexOfAt(q, 0); }
  }

  /** The head after a removal: another one, unless the head is not named or is misnamed. */
  lemma HeadAfterPull(q: seq<Booking>, item: Booking)
    requires Distinct(q)
    ensures IndexOf(q, item.number) == 0 <==> q != [] && q[0].number == item.number
    ensures var q' := Pull(q, item);
            if IndexOf(q, item.number) != 0 then Head(q') == Head(q)
            else if Misnamed(q, item) then q' == q
            else Head(q') != Head(q)
  {
    PullOne(q, item);
    if q != [] { IndexOfAt(q, 0); }
  }

  // ----- Histories -----

  datatype Op = PushOp(item: Booking) | PullOp(item: Booking)

  function Apply(q: seq<Booking>, op: Op): seq<Booking> {
    match op
    case PushOp(item) => Push(q, item)
    case PullOp(item) => Pull(q, item)
  }

  function RunFrom(q: seq<Booking>, ops: seq<Op>): seq<Booking> {
    if ops == [] then q
    else Apply(RunFrom(q, ops[..|ops| - 1]), ops[|ops| - 1])
  }

  lemma {:induction false} RunDistinct(q: seq<Booking>, ops: seq<Op>)
    requires Distinct(q)
    ensures Distinct(RunFrom(q, ops))
  {
    if ops != [] {
      var k := |ops| - 1;
      RunDistinct(q, ops[..k]);
      PushIndex(RunFrom(q, ops[..k]), ops[k].item, 0);
      PullIndex(RunFrom(q, ops[..k]), ops[k].item, 0);
    }
  }

  /** Add number `i` of a history was not refused: nothing with its number was live then. */
  ghost predicate Accepted(ops: seq<Op>, i: nat)
    requires i < |ops|
    decreases i, 0
  {
    ops[i].PushOp? &&
    forall k :: 0 <= k < i && ops[k].item.number == ops[i].item.number ==> !Live(ops[..i], k)
  }

  /** Add number `i` was accepted and no later removal names its number and username. */
  ghost predicate Live(ops: seq<Op>, i: nat)
    requires i < |ops|
    decreases i, 1
  {
    Accepted(ops, i) &&
    forall j :: i < j < |ops| && ops[j].PullOp? ==> !Matches(ops[i].item, ops[j].item)
  }

  /** The live adds among the first `m` operations, in order. */
  ghost function Survivors(ops: seq<Op>, m: nat): seq<Booking>
    requires m <= |ops|
  {
    if m == 0 then []
    else Survivors(ops, m - 1) + (if Live(ops, m - 1) then [ops[m - 1].item] else [])
  }

  lemma LiveStep(ops: seq<Op>, i: nat)
    requires i < |ops| - 1
    ensures var last := ops[|ops| - 1];
            Live(ops, i) <==> Live(ops[..|ops| - 1], i) &&
                              !(last.PullOp? && Matches(ops[i].item, last.item))
  {
    var pre := ops[..|ops| - 1];
    assert pre[..i] == ops[..i];
    assert Accepted(ops, i) <==> Accepted(pre, i);
    if Live(pre, i) && !(ops[|ops| - 1].PullOp? && Matches(ops[i].item, ops[|ops| - 1].item)) {
      forall j | i < j < |ops| && ops[j].PullOp? ensures !Matches(ops[i].item, ops[j].item) {
        if j < |pre| { assert pre[j] == ops[j]; }
      }
    }
    if Live(ops, i) {
      forall j | i < j < |pre| && pre[j].PullOp? ensures !Matches(pre[i].item, pre[j].item) {
        assert ops[j] == pre[j];
      }
    }
  }

  lemma {:induction false} SurvivorsStep(ops: seq<Op>, m: nat)
    requires m < |ops|
    ensures var pre, last := ops[..|ops| - 1], ops[|ops| - 1];
            Survivors(ops, m) == if last.PullOp? then Pull(Survivors(pre, m), last.item)
                                 else Survivors(pre, m)
  {
    if m > 0 {
      var pre, last := ops[..|ops| - 1], ops[|ops| - 1];
      SurvivorsStep(ops, m - 1);
      LiveStep(ops, m - 1);
      if last.PullOp? {
        FilterAppend(Spared(last.item), Survivors(pre, m - 1), if Live(pre, m - 1) then [ops[m - 1].item] else []);
      }
    }
  }

  lemma {:induction false} SurvivorsNumbers(ops: seq<Op>, m: nat, n: nat)
    requires m <= |ops|
    ensures (exists b :: b in Survivors(ops, m) && b.number == n) <==>
            (exists k :: 0 <= k < m && ops[k].item.number == n && Live(ops, k))
  {
    if m > 0 {
      SurvivorsNumbers(ops, m - 1, n);
      var s, s' := Survivors(ops, m), Survivors(ops, m - 1);
      assert forall b :: b in s <==> b in s' || (Live(ops, m - 1) && b == ops[m - 1].item);
      if exists b :: b in s && b.number == n {
        var b :| b in s && b.number == n;
        if b in s' {
          var k :| 0 <= k < m - 1 && ops[k].item.number == n && Live(ops, k);
        } else {
          assert Live(ops, m - 1) && ops[m - 1].item.number == n;
        }
      }
      if exists k :: 0 <= k < m && ops[k].item.number == n && Live(ops, k) {
        var k :| 0 <= k < m && ops[k].item.number == n && Live(ops, k);
        if k == m - 1 {
          assert ops[k].item in s;
        } else {
          var b :| b in s' && b.number == n;
          assert b in s;
        }
      }
    }
  }

  /** The last add of a history is accepted exactly when its number is not among the survivors. */
  lemma LastAddIsLive(ops: seq<Op>)
    requires ops != [] && ops[|ops| - 1].PushOp?
    ensures var m, pre := |ops| - 1, ops[..|ops| - 1];
            Live(ops, m) <==> IndexOf(Survivors(pre, m), ops[m].item.number) < 0
  {
    var m, pre := |ops| - 1, ops[..|ops| - 1];
    var q, n := Survivors(pre, m), ops[m].item.number;
    SurvivorsNumbers(pre, m, n);
    if b :| b in q && b.number == n {
      var j :| 0 <= j < |q| && q[j] == b;
      if IndexOf(q, n) < 0 { IndexOfIsFirst(q, n, j); }
    }
    assert IndexOf(q, n) >= 0 <==> exists b :: b in q && b.number == n;
    assert pre == ops[..m] && forall k :: 0 <= k < m ==> pre[k] == ops[k];
    assert Live(ops, m) <==> Accepted(ops, m);
  }

  /** The queue is, in order, the accepted adds no later removal has taken out. */
  lemma {:induction false} QueueIsItsHistory(ops: seq<Op>)
    ensures RunFrom([], ops) == Survivors(ops, |ops|)
    ensures Distinct(RunFrom([], ops))
  {
    RunDistinct([], ops);
    if ops != [] {
      var m, pre := |ops| - 1, ops[..|ops| - 1];
      QueueIsItsHistory(pre);
      SurvivorsStep(ops, m);
      if ops[m].PushOp? {
        LastAddIsLive(ops);
      } else {
        assert !Accepted(ops, m);
      }
      assert Survivors(ops, m + 1) == Apply(Survivors(pre, m), ops[m]);
    } else {
      assert Survivors(ops, 0) == [];
    }
  }

  /** The operation does not remove this booking. */
  ghost predicate Spares(booking: Booking, op: Op) {
    op.PullOp? ==> !Matches(booking, op.item)
  }

  /** Whether a booking behind number `i` of the queue moves up. */
  function Gap(q: seq<Booking>, op: Op, k: int): nat {
    if op.PullOp? && Hits(q, op.item) && IndexOf(q, op.item.number) < k then 1 else 0
  }

  lemma PushStays(q: seq<Booking>, item: Booking, k: nat)
    requires Distinct(q) && k < |q|
    ensures |Push(q, item)| > k && Push(q, item)[k] == q[k] && IndexOf(Push(q, item), q[k].number) == k
  {
    IndexOfAt(q, k);
    PushIndex(q, item, q[k].number);
  }

  lemma WithoutMoves(q: seq<Booking>, i: nat, k: nat)
    requires i < |q| && k < |q| && k != i
    ensures var k' := if i < k then k - 1 else k; k' < |Without(q, i)| && Without(q, i)[k'] == q[k]
  {
    WithoutAt(q, i, if i < k then k - 1 else k);
  }

  lemma WithoutAdvances(q: seq<Booking>, i: nat, k: nat)
    requires Distinct(q) && i < |q| && k < |q| && k != i
    ensures var k' := if i < k then k - 1 else k;
            k' < |Without(q, i)| && Without(q, i)[k'] == q[k] && IndexOf(Without(q, i), q[k].number) == k'
  {
    WithoutMoves(q, i, k);
    WithoutDistinct(q, i);
    IndexOfAt(Without(q, i), if i < k then k - 1 else k);
  }

  lemma PullAdvances(q: seq<Booking>, item: Booking, k: nat)
    requires Distinct(q) && k < |q| && !Matches(q[k], item)
    ensures var k' := k - Gap(q, PullOp(item), k);
            0 <= k' < |Pull(q, item)| && Pull(q, item)[k'] == q[k] && IndexOf(Pull(q, item), q[k].number) == k'
  {
    PullOne(q, item);
    if Hits(q, item) { WithoutAdvances(q, IndexOf(q, item.number), k); } else { IndexOfAt(q, k); }
  }

  /** One operation that leaves a booking alone moves it forward by at most one place. */
  lemma AdvanceStep(q: seq<Booking>, op: Op, k: nat)
    requires Distinct(q) && k < |q| && Spares(q[k], op)
    ensures var q', k' := Apply(q, op), k - Gap(q, op, k);
            0 <= k' < |q'| && q'[k'] == q[k] && IndexOf(q', q[k].number) == k'
  {
    if op.PushOp? { PushStays(q, op.item, k); } else { PullAdvances(q, op.item, k); }
  }

  /** Bookings `x` and `y` are both in the queue, no further back than `i` and `j`, in that order. */
  ghost predicate InOrder(q: seq<Booking>, x: Booking, y: Booking, i: int, j: int) {
    var i', j' := IndexOf(q, x.number), IndexOf(q, y.number);
    0 <= i' <= i && i' < j' <= j && q[i'] == x && q[j'] == y
  }

  /** A booking that stays behind another stays behind it. */
  lemma GapsKeepOrder(q: seq<Booking>, op: Op, i: nat, j: nat)
    requires i < j < |q| && Spares(q[i], op)
    ensures i - Gap(q, op, i) < j - Gap(q, op, j)
  {
  }

  lemma InOrderStep(q: seq<Booking>, op: Op, x: Booking, y: Booking, i: int, j: int)
    requires Distinct(q) && InOrder(q, x, y, i, j) && Spares(x, op) && Spares(y, op)
    ensures InOrder(Apply(q, op), x, y, i, j)
  {
    var i', j' := IndexOf(q, x.number), IndexOf(q, y.number);
    AdvanceStep(q, op, i');
    AdvanceStep(q, op, j');
    GapsKeepOrder(q, op, i', j');
  }

  /** While two bookings stay, neither ever moves back and they keep their order. */
  lemma {:induction false} BookingsOnlyAdvance(q: seq<Booking>, ops: seq<Op>, i: nat, j: nat)
    requires Distinct(q) && i < j < |q|
    requires forall k :: 0 <= k < |ops| ==> Spares(q[i], ops[k]) && Spares(q[j], ops[k])
    ensures InOrder(RunFrom(q, ops), q[i], q[j], i, j)
  {
    if ops == [] {
      IndexOfAt(q, i);
      IndexOfAt(q, j);
    } else {
      var k := |ops| - 1;
      RunDistinct(q, ops[..k]);
      BookingsOnlyAdvance(q, ops[..k], i, j);
      InOrderStep(RunFrom(q, ops[..k]), ops[k], q[i], q[j], i, j);
    }
  }
}
