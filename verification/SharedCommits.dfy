/** The repository when pull requests, of one branch or of several, may have the same head commit and
    so the same check run. Each step runs with all its handlers to completion. */
module SharedCommits {
  import opened Types
  import opened Lists
  import opened Queue
  import opened Statuses
  import opened PullRequestManager
  import opened Repository
  import D = Delayed
  import P = PushNotifications
  import S = Settled

  datatype Operation = At(branch: string, step: S.Step)

  /** What a settled step does to the board it works on; messages and notifications play no part. */
  function After(b: Board, step: S.Step): (b': Board)
    ensures forall w: S.World :: w.board == b ==> S.Next(w, step).board == b'
  {
    S.Next(S.World(b, [], [], P.START), step).board
  }

  /** An operation on one branch; uninstalling drops every queue and record. */
  function Operated(repo: Repo, op: Operation): Repo {
    if op.step.Uninstall? then repo.(queues := map[], records := map[])
    else
      var b := After(Lane(repo, op.branch).board, op.step);
      repo.(queues := repo.queues[op.branch := b.queue], records := b.records, checks := b.checks)
  }

  /** An operation does to its branch what the settled step does, and nothing to other queues;
      uninstalling empties queues and records and leaves the check runs. */
  lemma OperatedIsSettled(repo: Repo, op: Operation, w: S.World, other: string)
    requires w.board == Lane(repo, op.branch).board
    ensures Lane(Operated(repo, op), op.branch).board == S.Next(w, op.step).board
    ensures Operated(repo, op).events == repo.events
    ensures other != op.branch ==>
              QueueOf(Operated(repo, op), other) == if op.step.Uninstall? then [] else QueueOf(repo, other)
  {
  }

  /** The operation is about a pull request of its branch. */
  predicate Local(base: Bases, op: Operation) {
    match op.step
    case Add(item) => base(item.number) == op.branch
    case Remove(item) => base(item.number) == op.branch
    case Close(n, _) => base(n) == op.branch
    case Open(n, _) => base(n) == op.branch
    case Sync(n, _) => base(n) == op.branch
    case _ => true
  }

  /** The queues hold pull requests of their branches, each once. */
  ghost predicate Housed(base: Bases, repo: Repo) {
    forall branch :: Distinct(QueueOf(repo, branch)) && BookedAtHome(base, branch, QueueOf(repo, branch))
  }

  lemma OperatedHoused(base: Bases, repo: Repo, op: Operation)
    requires Housed(base, repo) && Local(base, op)
    ensures Housed(base, Operated(repo, op))
  {
    var w := S.World(Lane(repo, op.branch).board, [], [], P.START);
    var q := w.board.queue;
    S.NextQueue(w, op.step);
    if S.Removal(w, op.step).Some? { FilterIn(Spared(S.Removal(w, op.step).value), q); }
    forall branch | branch != op.branch && !op.step.Uninstall?
      ensures QueueOf(Operated(repo, op), branch) == QueueOf(repo, branch) {}
  }

  // ----- Places and the check runs that show them -----

  function Place(base: Bases, repo: Repo, n: nat): int {
    IndexOf(QueueOf(repo, base(n)), n)
  }

  /** The pull request shows its place; if not `exact`, its conclusion alone. */
  ghost predicate Shows(base: Bases, repo: Repo, exact: bool, n: nat) {
    D.Keeps(Lane(repo, base(n)).board, exact, n)
  }

  ghost predicate AllShow(base: Bases, repo: Repo, exact: bool) {
    forall n :: Shows(base, repo, exact, n)
  }

  /** Two positions with the same description, or the same conclusion. */
  predicate SamePlace(exact: bool, i: int, j: int) {
    if exact then i == j || (i > MAX_REPORTED_QUEUE_POSITION && j > MAX_REPORTED_QUEUE_POSITION)
    else i == 0 <==> j == 0
  }

  predicate Sharing(repo: Repo, m: nat, n: nat) {
    Tracked(Whole(repo), m) && ShaOf(Whole(repo), m) == ShaOf(Whole(repo), n)
  }

  /** Pull requests with one head commit stand in the same place of their queues, or are all
      unqueued, or all behind the sixth place. */
  ghost predicate SharersStandAlike(base: Bases, repo: Repo, exact: bool) {
    forall m, n :: Sharing(repo, m, n) ==> SamePlace(exact, Place(base, repo, m), Place(base, repo, n))
  }

  /** The last status of a closed pull request is right for a pull request in this place. */
  predicate FinalFits(exact: bool, mergedBy: Option<string>, place: int) {
    if exact then mergedBy.None? && place < 0 else mergedBy.Some? <==> place == 0
  }

  /** What an operation itself must not do: open a queued pull request, misname one behind the sixth
      place, or close one whose commit others have unless the last status is right for them. */
  ghost predicate Fits(base: Bases, repo: Repo, op: Operation, exact: bool) {
    match op.step
    case Open(n, _) => if exact then Place(base, repo, n) < 0 else Place(base, repo, n) != 0
    case Remove(item) =>
      exact ==> !(FarMisnamed(QueueOf(repo, op.branch), item) && Tracked(Whole(repo), item.number))
    case Close(n, mergedBy) =>
      forall m :: m != n && Sharing(repo, m, n) ==>
        FinalFits(exact, mergedBy, Place(base, Operated(repo, op), m))
    case _ => true
  }

  function Wanted(base: Bases, repo: Repo, exact: bool, n: nat): Check {
    D.Promised(exact, StatusAt(Place(base, repo, n)))
  }

  lemma ShowsHere(base: Bases, repo: Repo, exact: bool, n: nat)
    ensures Shows(base, repo, exact, n) <==>
            match ShaOf(Whole(repo), n)
            case None => true
            case Some(sha) =>
              var c := CheckAt(Whole(repo), sha);
              c.Some? && D.Promised(exact, c.value) == Wanted(base, repo, exact, n)
  {
  }

  lemma SameWanted(exact: bool, i: int, j: int)
    requires i >= -1 && j >= -1
    ensures D.Promised(exact, StatusAt(i)) == D.Promised(exact, StatusAt(j)) <==> SamePlace(exact, i, j)
  {
  }

  lemma SharersOfShown(base: Bases, repo: Repo, exact: bool)
    requires AllShow(base, repo, exact)
    ensures SharersStandAlike(base, repo, exact)
  {
    forall m, n | Sharing(repo, m, n)
      ensures SamePlace(exact, Place(base, repo, m), Place(base, repo, n))
    {
      ShowsHere(base, repo, exact, m);
      ShowsHere(base, repo, exact, n);
      SameWanted(exact, Place(base, repo, m), Place(base, repo, n));
    }
  }

  /** With the right conclusions, exactly the heads of the queues are mergeable. */
  lemma ShownHeadsAreMergeable(base: Bases, repo: Repo, n: nat)
    requires Housed(base, repo) && Shows(base, repo, false, n) && Tracked(Whole(repo), n)
    ensures var q := QueueOf(repo, base(n)); Mergeable(repo, n) <==> q != [] && q[0].number == n
  {
    ShowsHere(base, repo, false, n);
    if QueueOf(repo, base(n)) != [] { IndexOfAt(QueueOf(repo, base(n)), 0); }
  }

  // ----- What each operation leaves on a commit -----

  lemma WriteAt(b: Board, n: nat, check: Check, sha: string)
    ensures CheckAt(Write(b, n, check), sha) == if ShaOf(b, n) == Some(sha) then Some(check) else CheckAt(b, sha)
  {
  }

  /** A pull request among the first six with that head commit. */
  predicate TopSharer(b: Board, i: int, sha: string) {
    0 <= i < |Top(b.queue)| && ShaOf(b, b.queue[i].number) == Some(sha)
  }

  /** After a refresh a commit shows the place of one of the first six that have it, if any does. */
  lemma RefreshAt(b: Board, sha: string)
    ensures var shown := CheckAt(Refresh(b), sha);
            (exists i :: TopSharer(b, i, sha) && shown == Some(StatusAt(i))) ||
            ((forall i :: !TopSharer(b, i, sha)) && shown == CheckAt(b, sha))
  {
    var top := Top(b.queue);
    var ws := RefreshWrites(top);
    RefreshAsWrites(b, top, 0);
    assert ws[0..] == ws;
    ApplyWritesAt(b, ws, sha);
    if w :| Hit(b, ws, w, sha) && CheckAt(Refresh(b), sha) == Some(w.check) {
      var i :| 0 <= i < |ws| && ws[i] == w;
      assert TopSharer(b, i, sha);
    } else {
      forall i ensures !TopSharer(b, i, sha) {
        if 0 <= i < |top| { assert !Hit(b, ws, ws[i], sha); }
      }
    }
  }

  // ----- Each operation, for one pull request -----

  lemma Kept(base: Bases, repo: Repo, repo': Repo, exact: bool, m: nat)
    requires Shows(base, repo, exact, m) && ShaOf(Whole(repo'), m) == ShaOf(Whole(repo), m)
    requires Tracked(Whole(repo), m) ==>
      var sha := ShaOf(Whole(repo), m).value;
      CheckAt(Whole(repo'), sha) == CheckAt(Whole(repo), sha) &&
      Wanted(base, repo', exact, m) == Wanted(base, repo, exact, m)
    ensures Shows(base, repo', exact, m)
  {
    ShowsHere(base, repo, exact, m);
    ShowsHere(base, repo', exact, m);
  }

  /** A check that is right for one pull request is right for those that share its commit. */
  lemma ShownForSharer(base: Bases, repo: Repo, exact: bool, m: nat, k: nat, check: Check)
    requires SharersStandAlike(base, repo, exact) && Sharing(repo, m, k)
    requires CheckAt(Whole(repo), ShaOf(Whole(repo), m).value) == Some(check)
    requires D.Promised(exact, check) == Wanted(base, repo, exact, k)
    ensures Shows(base, repo, exact, m)
  {
    ShowsHere(base, repo, exact, m);
    SameWanted(exact, Place(base, repo, m), Place(base, repo, k));
  }

  lemma AddEffect(repo: Repo, op: Operation, sha: string)
    requires op.step.Add?
    ensures var q, item, repo' := QueueOf(repo, op.branch), op.step.item, Operated(repo, op);
            repo'.records == repo.records && repo'.queues == repo.queues[op.branch := Push(q, item)] &&
            CheckAt(Whole(repo'), sha) ==
            if IndexOf(q, item.number) < 0 && ShaOf(Whole(repo), item.number) == Some(sha)
            then Some(StatusAt(|q|)) else CheckAt(Whole(repo), sha)
  {
    WriteAt(D.Enqueue(Lane(repo, op.branch).board, op.step.item), op.step.item.number,
            StatusAt(|QueueOf(repo, op.branch)|), sha);
  }

  lemma AddPlace(base: Bases, repo: Repo, op: Operation, m: nat)
    requires Housed(base, repo) && Local(base, op) && op.step.Add?
    ensures var q, item := QueueOf(repo, op.branch), op.step.item;
            Place(base, Operated(repo, op), m) ==
            if IndexOf(q, item.number) < 0 && m == item.number then |q| else Place(base, repo, m)
  {
    PushIndex(QueueOf(repo, op.branch), op.step.item, m);
    AddEffect(repo, op, "");
  }

  lemma AddShows(base: Bases, repo: Repo, op: Operation, exact: bool, m: nat)
    requires Housed(base, repo) && Local(base, op) && op.step.Add? && Shows(base, repo, exact, m)
    requires SharersStandAlike(base, Operated(repo, op), exact)
    ensures Shows(base, Operated(repo, op), exact, m)
  {
    var q, item, repo' := QueueOf(repo, op.branch), op.step.item, Operated(repo, op);
    AddEffect(repo, op, if Tracked(Whole(repo), m) then ShaOf(Whole(repo), m).value else "");
    AddPlace(base, repo, op, m);
    if IndexOf(q, item.number) < 0 && Sharing(repo, m, item.number) {
      AddPlace(base, repo, op, item.number);
      ShownForSharer(base, repo', exact, m, item.number, StatusAt(|q|));
    } else {
      Kept(base, repo, repo', exact, m);
    }
  }

  lemma UpsertEffect(repo: Repo, op: Operation, sha: string)
    requires op.step.Open? || op.step.Sync?
    ensures var b, n, repo' := Lane(repo, op.branch).board, op.step.n, Operated(repo, op);
            repo'.queues == repo.queues[op.branch := b.queue] &&
            (forall k :: ShaOf(Whole(repo'), k) == if k == n then Some(op.step.sha) else ShaOf(Whole(repo), k)) &&
            CheckAt(Whole(repo'), sha) ==
            if sha == op.step.sha then Some(if op.step.Open? then BLOCKED else Expected(b, n))
            else CheckAt(Whole(repo), sha)
  {
  }

  lemma OpenOrSyncShows(base: Bases, repo: Repo, op: Operation, exact: bool, m: nat)
    requires op.step.Open? || op.step.Sync?
    requires Housed(base, repo) && Local(base, op) && Fits(base, repo, op, exact)
    requires SharersStandAlike(base, Operated(repo, op), exact) && Shows(base, repo, exact, m)
    ensures Shows(base, Operated(repo, op), exact, m)
  {
    var repo', n := Operated(repo, op), op.step.n;
    UpsertEffect(repo, op, if Tracked(Whole(repo'), m) then ShaOf(Whole(repo'), m).value else "");
    if Sharing(repo', m, n) {
      SameWanted(exact, -1, Place(base, repo, n));
      ShownForSharer(base, repo', exact, m, n, if op.step.Open? then BLOCKED else StatusAt(Place(base, repo, n)));
    } else {
      Kept(base, repo, repo', exact, m);
    }
  }

  lemma RemoveEffect(repo: Repo, op: Operation)
    requires op.step.Remove?
    ensures var b, item, repo' := Lane(repo, op.branch).board, op.step.item, Operated(repo, op);
            repo'.records == repo.records && repo'.queues == repo.queues[op.branch := Pull(b.queue, item)] &&
            repo'.checks == Refresh(PullAndBlock(b, item)).checks
  {
    var b := Lane(repo, op.branch).board;
    D.HandleKeeps(D.Dequeue(b, op.step.item), RemoveEvent(b.queue, op.step.item, false));
  }

  /** Whoever a removal leaves outside the first six places keeps its description, unless it is
      the removed pull request itself. */
  lemma OutsideTop(q: seq<Booking>, item: Booking, m: nat)
    requires Distinct(q) && m != item.number && D.Window(Pull(q, item), m) < 0
    ensures StatusAt(IndexOf(Pull(q, item), m)) == StatusAt(IndexOf(q, m))
  {
    PullIndex(q, item, m);
    PullIndex(q, item, item.number);
  }

  /** A tracked pull request in one of the first six places is one the refresh rewrites. */
  lemma WindowIsTop(b: Board, m: nat, sha: string)
    requires Distinct(b.queue) && D.Window(b.queue, m) >= 0 && ShaOf(b, m) == Some(sha)
    ensures TopSharer(b, IndexOf(b.queue, m), sha)
  {
  }

  lemma TopPlace(base: Bases, repo: Repo, branch: string, i: nat)
    requires Housed(base, repo) && i < |QueueOf(repo, branch)|
    ensures Place(base, repo, QueueOf(repo, branch)[i].number) == i
  {
    var q := QueueOf(repo, branch);
    assert q[i] in q;
    IndexOfAt(q, i);
  }

  /** The place a refresh writes is right for everybody with that commit. */
  lemma TopShows(base: Bases, repo: Repo, branch: string, b: Board, i: int, sha: string, exact: bool, m: nat)
    requires Housed(base, repo) && SharersStandAlike(base, repo, exact) && QueueOf(repo, branch) == b.queue
    requires ShaOf(Whole(repo), m) == Some(sha) && TopSharer(b, i, sha)
    requires ShaOf(Whole(repo), b.queue[i].number) == Some(sha) && CheckAt(Whole(repo), sha) == Some(StatusAt(i))
    ensures Shows(base, repo, exact, m)
  {
    TopPlace(base, repo, branch, i);
    ShownForSharer(base, repo, exact, m, b.queue[i].number, StatusAt(i));
  }

  /** What an untouched pull request has to show stays when another one leaves a queue. */
  lemma WantedStays(
    base: Bases, repo: Repo, repo': Repo, branch: string, item: Booking, b: Board, sha: string, exact: bool, m: nat)
    requires Housed(base, repo) && m != item.number
    requires b.queue == Pull(QueueOf(repo, branch), item) && repo'.queues == repo.queues[branch := b.queue]
    requires ShaOf(b, m) == Some(sha) && forall i :: !TopSharer(b, i, sha)
    ensures Wanted(base, repo', exact, m) == Wanted(base, repo, exact, m)
  {
    var q := QueueOf(repo, branch);
    PullIndex(q, item, m);
    if base(m) == branch {
      if D.Window(b.queue, m) >= 0 { WindowIsTop(b, m, sha); }
      OutsideTop(q, item, m);
    }
  }

  /** What a removal leaves for those that share the commit of the removed pull request. */
  lemma BlockShows(base: Bases, repo: Repo, op: Operation, exact: bool, m: nat)
    requires Housed(base, repo) && Local(base, op) && op.step.Remove? && Fits(base, repo, op, exact)
    requires SharersStandAlike(base, Operated(repo, op), exact) && Sharing(Operated(repo, op), m, op.step.item.number)
    requires CheckAt(Whole(Operated(repo, op)), ShaOf(Whole(Operated(repo, op)), m).value) == Some(BLOCKED)
    requires D.Window(QueueOf(Operated(repo, op), op.branch), op.step.item.number) < 0
    ensures Shows(base, Operated(repo, op), exact, m)
  {
    RemoveEffect(repo, op);
    BlockFits(QueueOf(repo, op.branch), op.step.item, exact);
    ShownForSharer(base, Operated(repo, op), exact, m, op.step.item.number, BLOCKED);
  }

  /** The block is right for the removed pull request, unless it stays behind the sixth place and
      shows exact places. */
  lemma BlockFits(q: seq<Booking>, item: Booking, exact: bool)
    requires Distinct(q) && D.Window(Pull(q, item), item.number) < 0 && (exact ==> !FarMisnamed(q, item))
    ensures D.Promised(exact, BLOCKED) == D.Promised(exact, StatusAt(IndexOf(Pull(q, item), item.number)))
  {
    PullIndex(q, item, item.number);
  }

  lemma RemoveShows(base: Bases, repo: Repo, op: Operation, exact: bool, m: nat)
    requires Housed(base, repo) && Local(base, op) && op.step.Remove? && Fits(base, repo, op, exact)
    requires SharersStandAlike(base, Operated(repo, op), exact)
    requires Shows(base, repo, exact, m) && Tracked(Whole(repo), m)
    ensures Shows(base, Operated(repo, op), exact, m)
  {
    var b, item, repo' := Lane(repo, op.branch).board, op.step.item, Operated(repo, op);
    var sha, b1 := ShaOf(Whole(repo), m).value, PullAndBlock(b, item);
    RemoveEffect(repo, op);
    OperatedHoused(base, repo, op);
    WriteAt(b.(queue := Pull(b.queue, item)), item.number, BLOCKED, sha);
    RefreshAt(b1, sha);
    if i :| TopSharer(b1, i, sha) && CheckAt(Refresh(b1), sha) == Some(StatusAt(i)) {
      TopShows(base, repo', op.branch, b1, i, sha, exact, m);
    } else if Sharing(repo', m, item.number) {
      if D.Window(b1.queue, item.number) >= 0 { WindowIsTop(b1, item.number, sha); }
      BlockShows(base, repo, op, exact, m);
    } else {
      WantedStays(base, repo, repo', op.branch, item, b1, sha, exact, m);
      Kept(base, repo, repo', exact, m);
    }
  }

  // ----- Closing -----

  /** The board of the branch when the handlers of the closing removal are done. */
  function Vacated(b: Board, n: nat): Board {
    var i := IndexOf(b.queue, n);
    if i < 0 then b else Refresh(D.Dequeue(b, b.queue[i]))
  }

  lemma CloseEffect(repo: Repo, op: Operation, sha: string)
    requires op.step.Close?
    ensures var b, n, repo' := Lane(repo, op.branch).board, op.step.n, Operated(repo, op);
            var b1 := Vacated(b, n);
            b1.queue == D.DequeueNumber(b, n).queue && b1.records == b.records &&
            repo'.records == repo.records - {n} && repo'.queues == repo.queues[op.branch := b1.queue] &&
            CheckAt(Whole(repo'), sha) ==
              if ShaOf(b, n) == Some(sha) then Some(D.FinalCheck(op.step.mergedBy)) else CheckAt(b1, sha)
  {
    var b, n := Lane(repo, op.branch).board, op.step.n;
    var i := IndexOf(b.queue, n);
    if i >= 0 { D.HandleKeeps(D.Dequeue(b, b.queue[i]), RemoveEvent(b.queue, b.queue[i], true)); }
    WriteAt(Vacated(b, n), n, D.FinalCheck(op.step.mergedBy), sha);
  }

  lemma QueuedCloseShows(
    base: Bases, repo: Repo, repo': Repo, branch: string, item: Booking, b: Board, sha: string, exact: bool, m: nat)
    requires Housed(base, repo) && Housed(base, repo') && m != item.number
    requires b.queue == Pull(QueueOf(repo, branch), item) && IndexOf(b.queue, item.number) < 0
    requires b.records == repo.records && repo'.records == repo.records - {item.number}
    requires repo'.queues == repo.queues[branch := b.queue]
    requires ShaOf(b, m) == Some(sha) && CheckAt(Whole(repo'), sha) == CheckAt(Refresh(b), sha)
    requires CheckAt(b, sha) == CheckAt(Whole(repo), sha)
    requires SharersStandAlike(base, repo', exact) && Shows(base, repo, exact, m)
    ensures Shows(base, repo', exact, m)
  {
    RefreshAt(b, sha);
    if i :| TopSharer(b, i, sha) && CheckAt(Refresh(b), sha) == Some(StatusAt(i)) {
      IndexOfIsFirst(b.queue, item.number, i);
      TopShows(base, repo', branch, b, i, sha, exact, m);
    } else {
      WantedStays(base, repo, repo', branch, item, b, sha, exact, m);
      Kept(base, repo, repo', exact, m);
    }
  }

  /** Whoever shares the commit of a closed pull request is left with its last status. */
  lemma CloseDecidesSharers(base: Bases, repo: Repo, op: Operation, exact: bool, m: nat)
    requires op.step.Close? && m != op.step.n && Sharing(repo, m, op.step.n)
    ensures var repo' := Operated(repo, op);
            Shows(base, repo', exact, m) <==> FinalFits(exact, op.step.mergedBy, Place(base, repo', m))
    ensures Mergeable(Operated(repo, op), m) <==> op.step.mergedBy.Some?
  {
    var repo' := Operated(repo, op);
    CloseEffect(repo, op, ShaOf(Whole(repo), m).value);
    ShowsHere(base, repo', exact, m);
  }

  lemma CloseShows(base: Bases, repo: Repo, op: Operation, exact: bool, m: nat)
    requires Housed(base, repo) && Local(base, op) && op.step.Close? && Fits(base, repo, op, exact)
    requires SharersStandAlike(base, Operated(repo, op), exact) && Shows(base, repo, exact, m)
    ensures Shows(base, Operated(repo, op), exact, m)
  {
    CloseEffect(repo, op, if Tracked(Whole(repo), m) then ShaOf(Whole(repo), m).value else "");
    if m != op.step.n && Tracked(Whole(repo), m) {
      if Sharing(repo, m, op.step.n) {
        CloseDecidesSharers(base, repo, op, exact, m);
      } else if IndexOf(QueueOf(repo, op.branch), op.step.n) >= 0 {
        var b := Lane(repo, op.branch).board;
        var item := b.queue[IndexOf(b.queue, op.step.n)];
        PullIndex(b.queue, item, item.number);
        OperatedHoused(base, repo, op);
        QueuedCloseShows(base, repo, Operated(repo, op), op.branch, item, D.Dequeue(b, item),
                         ShaOf(Whole(repo), m).value, exact, m);
      } else {
        Kept(base, repo, Operated(repo, op), exact, m);
      }
    }
  }

  // ----- One operation -----

  lemma StatusEffect(repo: Repo, op: Operation)
    requires op.step.StatusChange? || op.step.Wait?
    ensures var repo' := Operated(repo, op);
            repo'.queues == repo.queues[op.branch := QueueOf(repo, op.branch)] && repo'.checks == repo.checks &&
            forall k :: ShaOf(Whole(repo'), k) == ShaOf(Whole(repo), k)
  {
  }

  lemma OthersShow(base: Bases, repo: Repo, op: Operation, exact: bool, m: nat)
    requires op.step.StatusChange? || op.step.Wait? || op.step.Uninstall?
    requires Shows(base, repo, exact, m)
    ensures Shows(base, Operated(repo, op), exact, m)
  {
    if !op.step.Uninstall? {
      StatusEffect(repo, op);
      Kept(base, repo, Operated(repo, op), exact, m);
    }
  }

  lemma StepShows(base: Bases, repo: Repo, op: Operation, exact: bool, m: nat)
    requires Housed(base, repo) && Local(base, op) && AllShow(base, repo, exact) && Fits(base, repo, op, exact)
    requires SharersStandAlike(base, Operated(repo, op), exact)
    ensures Shows(base, Operated(repo, op), exact, m)
  {
    assert Shows(base, repo, exact, m);
    match op.step
    case Add(_) => AddShows(base, repo, op, exact, m);
    case Remove(_) =>
      RemoveEffect(repo, op);
      if Tracked(Whole(repo), m) { RemoveShows(base, repo, op, exact, m); }
      else { Kept(base, repo, Operated(repo, op), exact, m); }
    case Close(_, _) => CloseShows(base, repo, op, exact, m);
    case Open(_, _) => OpenOrSyncShows(base, repo, op, exact, m);
    case Sync(_, _) => OpenOrSyncShows(base, repo, op, exact, m);
    case _ => OthersShow(base, repo, op, exact, m);
  }

  /** What a misnamed removal leaves of a pull request behind the sixth place. */
  lemma FarChecks(b: Board, item: Booking, sha: string)
    requires Distinct(b.queue) && FarMisnamed(b.queue, item) && ShaOf(b, item.number) == Some(sha)
    ensures var c := CheckAt(Refresh(PullAndBlock(b, item)), sha);
            c != Some(StatusAt(IndexOf(Pull(b.queue, item), item.number)))
  {
    PullIndex(b.queue, item, item.number);
    WriteAt(b.(queue := Pull(b.queue, item)), item.number, BLOCKED, sha);
    RefreshAt(PullAndBlock(b, item), sha);
  }

  lemma FarRemovalShows(base: Bases, repo: Repo, op: Operation)
    requires Housed(base, repo) && Local(base, op) && op.step.Remove?
    requires FarMisnamed(QueueOf(repo, op.branch), op.step.item) && Tracked(Whole(repo), op.step.item.number)
    ensures !Shows(base, Operated(repo, op), true, op.step.item.number)
  {
    var item := op.step.item;
    RemoveEffect(repo, op);
    FarChecks(Lane(repo, op.branch).board, item, ShaOf(Whole(repo), item.number).value);
    ShowsHere(base, Operated(repo, op), true, item.number);
  }

  lemma OpenShows(base: Bases, repo: Repo, op: Operation, exact: bool)
    requires Local(base, op) && op.step.Open?
    ensures Shows(base, Operated(repo, op), exact, op.step.n) <==> Fits(base, repo, op, exact)
  {
    ShowsHere(base, Operated(repo, op), exact, op.step.n);
  }

  lemma ShownFits(base: Bases, repo: Repo, op: Operation, exact: bool)
    requires Housed(base, repo) && Local(base, op) && AllShow(base, Operated(repo, op), exact)
    ensures Fits(base, repo, op, exact)
  {
    match op.step
    case Remove(item) =>
      if FarMisnamed(QueueOf(repo, op.branch), item) && Tracked(Whole(repo), item.number) {
        FarRemovalShows(base, repo, op);
      }
    case Close(n, mergedBy) =>
      forall m | m != n && Sharing(repo, m, n)
        ensures FinalFits(exact, mergedBy, Place(base, Operated(repo, op), m))
      {
        CloseDecidesSharers(base, repo, op, exact, m);
      }
    case Open(_, _) => OpenShows(base, repo, op, exact);
    case _ =>
  }

  /** From places that are all shown, an operation leaves all shown exactly when it fits and then
      pull requests with one head commit stand alike. */
  lemma OperationShowsExactly(base: Bases, repo: Repo, op: Operation, exact: bool)
    requires Housed(base, repo) && Local(base, op) && AllShow(base, repo, exact)
    ensures AllShow(base, Operated(repo, op), exact) <==>
            Fits(base, repo, op, exact) && SharersStandAlike(base, Operated(repo, op), exact)
  {
    if AllShow(base, Operated(repo, op), exact) {
      SharersOfShown(base, Operated(repo, op), exact);
      ShownFits(base, repo, op, exact);
    } else if Fits(base, repo, op, exact) && SharersStandAlike(base, Operated(repo, op), exact) {
      forall m { StepShows(base, repo, op, exact, m); }
    }
  }

  // ----- Whole runs -----

  ghost predicate AllLocal(base: Bases, ops: seq<Operation>) {
    forall i :: 0 <= i < |ops| ==> Local(base, ops[i])
  }

  /** Every place is shown after every operation. */
  ghost predicate AlwaysShow(base: Bases, repo: Repo, ops: seq<Operation>, exact: bool)
    decreases ops
  {
    ops == [] ||
    (AllShow(base, Operated(repo, ops[0]), exact) && AlwaysShow(base, Operated(repo, ops[0]), ops[1..], exact))
  }

  ghost predicate AlwaysAlike(base: Bases, repo: Repo, ops: seq<Operation>, exact: bool)
    decreases ops
  {
    ops == [] ||
    (Fits(base, repo, ops[0], exact) && SharersStandAlike(base, Operated(repo, ops[0]), exact) &&
     AlwaysAlike(base, Operated(repo, ops[0]), ops[1..], exact))
  }

  /** Over every run of all branches, whatever commits are shared: every pull request shows its place
      (or the right conclusion) after every operation exactly when every operation fits and those with
      one head commit always stand alike. */
  lemma {:induction false} RunShowsExactly(base: Bases, repo: Repo, ops: seq<Operation>, exact: bool)
    requires Housed(base, repo) && AllLocal(base, ops) && AllShow(base, repo, exact)
    ensures AlwaysShow(base, repo, ops, exact) <==> AlwaysAlike(base, repo, ops, exact)
    decreases ops
  {
    if ops != [] {
      OperationShowsExactly(base, repo, ops[0], exact);
      if AllShow(base, Operated(repo, ops[0]), exact) {
        OperatedHoused(base, repo, ops[0]);
        RunShowsExactly(base, Operated(repo, ops[0]), ops[1..], exact);
      }
    }
  }

  /** Two pull requests of different branches with one commit, both shown rightly. */
  lemma TwoOpened(base: Bases, checks: map<string, Check>)
    requires base(1) == "master" && base(2) == "release"
    ensures var repo := Operated(Operated(Start(checks), At("master", S.Open(1, "s"))), At("release", S.Open(2, "s")));
            repo.queues == map["master" := [], "release" := []] && repo.checks == checks["s" := BLOCKED] &&
            repo.records == map[1 := Record(Some("s"), None), 2 := Record(Some("s"), None)] &&
            AllShow(base, repo, true)
  {
    var repo1 := Operated(Start(checks), At("master", S.Open(1, "s")));
    var repo := Operated(repo1, At("release", S.Open(2, "s")));
    assert repo1.queues == map["master" := []] && repo1.checks == checks["s" := BLOCKED];
    assert repo1.records == map[1 := Record(Some("s"), None)];
    assert repo.checks == repo1.checks["s" := BLOCKED];
    forall n ensures Shows(base, repo, true, n) { ShowsHere(base, repo, true, n); }
  }

  /** Merging the second lets the first be merged, although nobody has queued it. */
  lemma MergeUnblocksSharer(base: Bases, checks: map<string, Check>)
    requires base(1) == "master" && base(2) == "release"
    ensures var repo := Operated(Operated(Start(checks), At("master", S.Open(1, "s"))), At("release", S.Open(2, "s")));
            var repo' := Operated(repo, At("release", S.Close(2, Some("ann"))));
            AllShow(base, repo, true) && SharersStandAlike(base, repo', true) &&
            Place(base, repo', 1) == -1 && Mergeable(repo', 1)
  {
    TwoOpened(base, checks);
    var repo := Operated(Operated(Start(checks), At("master", S.Open(1, "s"))), At("release", S.Open(2, "s")));
    CloseEffect(repo, At("release", S.Close(2, Some("ann"))), "s");
    CloseDecidesSharers(base, repo, At("release", S.Close(2, Some("ann"))), true, 1);
  }
}
