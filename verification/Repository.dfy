/** All branches of one repository: each has its queue and its events in flight, while records and
    check runs are shared, keyed by number and by commit. */
module Repository {
  import opened Types
  import opened Lists
  import opened Queue
  import opened Statuses
  import opened PullRequestManager
  import D = Delayed

  datatype Repo = Repo(
    queues: map<string, seq<Booking>>,
    events: map<string, seq<Event>>,
    records: map<nat, Record>,
    checks: map<string, Check>)

  function QueueOf(repo: Repo, branch: string): seq<Booking> {
    if branch in repo.queues then repo.queues[branch] else []
  }

  function InFlight(repo: Repo, branch: string): seq<Event> {
    if branch in repo.events then repo.events[branch] else []
  }

  /** What a step on one branch works with: its queue and events, everybody's records and checks. */
  function Lane(repo: Repo, branch: string): D.Net {
    D.Net(Board(QueueOf(repo, branch), repo.records, repo.checks), InFlight(repo, branch))
  }

  /** The records and the check runs without any queue. */
  function Whole(repo: Repo): Board {
    Board([], repo.records, repo.checks)
  }

  datatype Step = On(branch: string, step: D.Step)

  function Next(repo: Repo, s: Step): Repo {
    var net := D.Next(Lane(repo, s.branch), s.step);
    Repo(repo.queues[s.branch := net.board.queue], repo.events[s.branch := net.events],
         net.board.records, net.board.checks)
  }

  function Run(repo: Repo, steps: seq<Step>): Repo
    decreases steps
  {
    if steps == [] then repo else Run(Next(repo, steps[0]), steps[1..])
  }

  function Start(checks: map<string, Check>): Repo {
    Repo(map[], map[], map[], checks)
  }

  // ----- The base branch of a pull request -----

  type Bases = nat -> string

  /** The step is about a pull request of its branch. */
  predicate AtHome(base: Bases, s: Step) {
    match s.step
    case Add(item) => base(item.number) == s.branch
    case Remove(item) => base(item.number) == s.branch
    case Deliver => true
    case Open(n, _) => base(n) == s.branch
    case Sync(n, _) => base(n) == s.branch
    case Close(n, _) => base(n) == s.branch
  }

  ghost predicate Allowed(base: Bases, repo: Repo, s: Step, exact: bool) {
    AtHome(base, s) && D.Allowed(Lane(repo, s.branch), s.step, exact)
  }

  ghost predicate AllowedRun(base: Bases, repo: Repo, steps: seq<Step>, exact: bool)
    decreases steps
  {
    steps == [] ||
    (Allowed(base, repo, steps[0], exact) && AllowedRun(base, Next(repo, steps[0]), steps[1..], exact))
  }

  // ----- One branch seen alone -----

  function OwnRecords(base: Bases, branch: string, records: map<nat, Record>): map<nat, Record> {
    map n | n in records && base(n) == branch :: records[n]
  }

  /** The board without the records of other branches. */
  function Own(base: Bases, branch: string, b: Board): Board {
    b.(records := OwnRecords(base, branch, b.records))
  }

  function View(base: Bases, branch: string, net: D.Net): D.Net {
    D.Net(Own(base, branch, net.board), net.events)
  }

  ghost predicate BookedAtHome(base: Bases, branch: string, q: seq<Booking>) {
    forall booking :: booking in q ==> base(booking.number) == branch
  }

  ghost predicate LaneAtHome(base: Bases, branch: string, net: D.Net) {
    BookedAtHome(base, branch, net.board.queue) &&
    forall ev :: ev in net.events ==> base(ev.item.number) == branch
  }

  lemma {:induction false} OwnRefreshFrom(base: Bases, branch: string, b: Board, items: seq<Booking>, i: nat)
    requires BookedAtHome(base, branch, items)
    ensures Own(base, branch, RefreshFrom(b, items, i)) == RefreshFrom(Own(base, branch, b), items, i)
    ensures RefreshFrom(b, items, i).queue == b.queue
    decreases |items| - i
  {
    if i < |items| { OwnRefreshFrom(base, branch, SetByPosition(b, items[i].number, i), items, i + 1); }
  }

  lemma OwnHandle(base: Bases, branch: string, b: Board, ev: Event)
    requires BookedAtHome(base, branch, b.queue) && base(ev.item.number) == branch
    ensures Own(base, branch, D.Handle(b, ev)) == D.Handle(Own(base, branch, b), ev)
    ensures D.Handle(b, ev).queue == b.queue
  {
    if ev.Removed? {
      var b1 := if ev.closed then b else Write(b, ev.item.number, BLOCKED);
      OwnRefreshFrom(base, branch, b1, Top(b.queue), 0);
    }
  }

  lemma OwnUpsert(base: Bases, branch: string, b: Board, n: nat, sha: string, check: Check)
    requires base(n) == branch
    ensures var own := Own(base, branch, b);
            Own(base, branch, Write(D.Upsert(b, n, sha), n, check)) == Write(D.Upsert(own, n, sha), n, check)
  {
    assert Own(base, branch, D.Upsert(b, n, sha)) == D.Upsert(Own(base, branch, b), n, sha);
  }

  lemma OwnForget(base: Bases, branch: string, b: Board, n: nat, mergedBy: Option<string>)
    requires base(n) == branch
    ensures Own(base, branch, D.Forget(b, n, mergedBy)) == D.Forget(Own(base, branch, b), n, mergedBy)
  {
    var b1 := Write(b, n, D.FinalCheck(mergedBy));
    assert Own(base, branch, b1) == Write(Own(base, branch, b), n, D.FinalCheck(mergedBy));
  }

  /** A step of a branch does to the branch alone what the branch alone would do. */
  lemma OwnStep(base: Bases, net: D.Net, s: Step)
    requires AtHome(base, s) && LaneAtHome(base, s.branch, net)
    ensures View(base, s.branch, D.Next(net, s.step)) == D.Next(View(base, s.branch, net), s.step)
  {
    var b := net.board;
    match s.step
    case Add(item) =>
    case Remove(item) =>
    case Deliver => if net.events != [] { OwnHandle(base, s.branch, b, net.events[0]); }
    case Open(n, sha) => OwnUpsert(base, s.branch, b, n, sha, BLOCKED);
    case Sync(n, sha) => OwnUpsert(base, s.branch, b, n, sha, Expected(b, n));
    case Close(n, mergedBy) => OwnForget(base, s.branch, D.DequeueNumber(b, n), n, mergedBy);
  }

  lemma StaysAtHome(base: Bases, net: D.Net, s: Step)
    requires AtHome(base, s) && LaneAtHome(base, s.branch, net)
    ensures LaneAtHome(base, s.branch, D.Next(net, s.step))
  {
    var q := net.board.queue;
    match s.step
    case Add(item) =>
    case Remove(item) => FilterIn(Spared(item), q);
    case Deliver => if net.events != [] { OwnHandle(base, s.branch, net.board, net.events[0]); }
    case Open(n, sha) =>
    case Sync(n, sha) =>
    case Close(n, mergedBy) => if IndexOf(q, n) >= 0 { FilterIn(Spared(q[IndexOf(q, n)]), q); }
  }

  // ----- The other branches -----

  /** A step of a branch leaves the pull requests of other branches as they are. */
  lemma StepSpares(base: Bases, net: D.Net, s: Step, exact: bool, n: nat)
    requires AtHome(base, s) && LaneAtHome(base, s.branch, net) && WellFormed(net.board)
    requires D.Allowed(net, s.step, exact)
    ensures var b, c := net.board, D.Next(net, s.step).board;
            DistinctShas(c) &&
            (base(n) != s.branch ==> ShaOf(c, n) == ShaOf(b, n) && Shown(c, n) == Shown(b, n))
  {
    var b := net.board;
    match s.step
    case Add(item) => assert forall k :: ShaOf(D.Enqueue(b, item), k) == ShaOf(b, k);
    case Remove(item) => D.DequeueWellFormed(b, item);
    case Deliver => if net.events != [] { D.HandleShown(b, net.events[0], n); }
    case Open(m, sha) => UpsertSpares(b, m, sha, BLOCKED, n);
    case Sync(m, sha) => UpsertSpares(b, m, sha, Expected(b, m), n);
    case Close(m, mergedBy) => D.ClosedShown(b, m, mergedBy, n);
  }

  lemma UpsertSpares(b: Board, m: nat, sha: string, check: Check, n: nat)
    requires DistinctShas(b) && ShaFree(b, m, sha)
    ensures var c := Write(D.Upsert(b, m, sha), m, check);
            DistinctShas(c) && (m != n ==> ShaOf(c, n) == ShaOf(b, n) && Shown(c, n) == Shown(b, n))
  {
    var b1 := D.Upsert(b, m, sha);
    assert forall k :: ShaOf(b1, k) == if k == m then Some(sha) else ShaOf(b, k);
    WriteShown(b1, m, check, n);
  }

  // ----- The invariant of every branch at once -----

  ghost predicate LaneInv(base: Bases, branch: string, repo: Repo, exact: bool) {
    LaneAtHome(base, branch, Lane(repo, branch)) &&
    D.Inv(View(base, branch, Lane(repo, branch)), exact)
  }

  ghost predicate Inv(base: Bases, repo: Repo, exact: bool) {
    (forall branch :: DistinctShas(Lane(repo, branch).board)) &&
    forall branch :: LaneInv(base, branch, repo, exact)
  }

  lemma OwnBranchKeeps(base: Bases, repo: Repo, s: Step, exact: bool)
    requires Inv(base, repo, exact) && Allowed(base, repo, s, exact)
    ensures LaneInv(base, s.branch, Next(repo, s), exact)
  {
    var net := Lane(repo, s.branch);
    assert LaneInv(base, s.branch, repo, exact);
    OwnStep(base, net, s);
    StaysAtHome(base, net, s);
    var view := View(base, s.branch, net);
    assert forall m :: Tracked(view.board, m) ==> ShaOf(view.board, m) == ShaOf(net.board, m);
    D.StepKeeps(view, s.step, exact);
    assert Lane(Next(repo, s), s.branch) == D.Next(net, s.step);
  }

  lemma OtherBranchShown(base: Bases, repo: Repo, s: Step, branch: string, exact: bool, n: nat)
    requires Inv(base, repo, exact) && Allowed(base, repo, s, exact) && branch != s.branch
    ensures var was, now := Own(base, branch, Lane(repo, branch).board),
                            Own(base, branch, Lane(Next(repo, s), branch).board);
            ShaOf(now, n) == ShaOf(was, n) && Shown(now, n) == Shown(was, n)
  {
    assert LaneInv(base, s.branch, repo, exact);
    if base(n) == branch { StepSpares(base, Lane(repo, s.branch), s, exact, n); }
  }

  lemma OtherBranchKeeps(base: Bases, repo: Repo, s: Step, branch: string, exact: bool)
    requires Inv(base, repo, exact) && Allowed(base, repo, s, exact) && branch != s.branch
    ensures LaneInv(base, branch, Next(repo, s), exact)
  {
    assert LaneInv(base, branch, repo, exact);
    var was, now := View(base, branch, Lane(repo, branch)), View(base, branch, Lane(Next(repo, s), branch));
    forall n { OtherBranchShown(base, repo, s, branch, exact, n); }
    forall n ensures D.SettlesRight(now, exact, n) {
      assert D.SettlesRight(was, exact, n);
    }
  }

  lemma StepKeeps(base: Bases, repo: Repo, s: Step, exact: bool)
    requires Inv(base, repo, exact) && Allowed(base, repo, s, exact)
    ensures Inv(base, Next(repo, s), exact)
  {
    var net := Lane(repo, s.branch);
    assert LaneInv(base, s.branch, repo, exact);
    StepSpares(base, net, s, exact, 0);
    forall branch ensures DistinctShas(Lane(Next(repo, s), branch).board) {
      var b, c := Lane(Next(repo, s), branch).board, D.Next(net, s.step).board;
      assert forall k :: ShaOf(b, k) == ShaOf(c, k);
    }
    forall branch ensures LaneInv(base, branch, Next(repo, s), exact) {
      if branch == s.branch { OwnBranchKeeps(base, repo, s, exact); }
      else { OtherBranchKeeps(base, repo, s, branch, exact); }
    }
  }

  lemma {:induction false} RunKeeps(base: Bases, repo: Repo, steps: seq<Step>, exact: bool)
    requires Inv(base, repo, exact) && AllowedRun(base, repo, steps, exact)
    ensures Inv(base, Run(repo, steps), exact)
    decreases steps
  {
    if steps != [] {
      StepKeeps(base, repo, steps[0], exact);
      RunKeeps(base, Next(repo, steps[0]), steps[1..], exact);
    }
  }

  // ----- The theorems -----

  ghost predicate Mergeable(repo: Repo, n: nat) {
    D.Mergeable(Whole(repo), n)
  }

  /** Over every run of all branches, each in its own order and all of them interleaved: a pull
      request of a branch with nothing in flight shows exactly its place in that branch's queue. */
  lemma EveryBranchConverges(base: Bases, checks: map<string, Check>, steps: seq<Step>, n: nat)
    requires AllowedRun(base, Start(checks), steps, true)
    ensures var repo := Run(Start(checks), steps);
            InFlight(repo, base(n)) == [] ==> AgreesOn(Lane(repo, base(n)).board, n)
  {
    var repo := Run(Start(checks), steps);
    StartInv(base, checks, true);
    RunKeeps(base, Start(checks), steps, true);
    assert LaneInv(base, base(n), repo, true);
    assert D.SettlesRight(View(base, base(n), Lane(repo, base(n))), true, n);
  }

  /** Whatever names the removals use, a pull request of a branch with nothing in flight is mergeable
      if and only if it heads that branch's queue, so no branch has two. */
  lemma OneMergeablePerBranch(base: Bases, checks: map<string, Check>, steps: seq<Step>, m: nat, n: nat)
    requires AllowedRun(base, Start(checks), steps, false)
    requires InFlight(Run(Start(checks), steps), base(n)) == []
    ensures var repo := Run(Start(checks), steps);
            var q := QueueOf(repo, base(n));
            (n in repo.records && repo.records[n].sha.Some? ==>
              (Mergeable(repo, n) <==> q != [] && q[0].number == n)) &&
            (Mergeable(repo, m) && Mergeable(repo, n) && base(m) == base(n) ==> m == n)
  {
    var repo := Run(Start(checks), steps);
    StartInv(base, checks, false);
    RunKeeps(base, Start(checks), steps, false);
    assert LaneInv(base, base(n), repo, false);
    var view := View(base, base(n), Lane(repo, base(n)));
    assert D.SettlesRight(view, false, n) && D.SettlesRight(view, false, m);
    if view.board.queue != [] { IndexOfAt(view.board.queue, 0); }
  }

  lemma StartInv(base: Bases, checks: map<string, Check>, exact: bool)
    ensures Inv(base, Start(checks), exact)
  {
  }
}
