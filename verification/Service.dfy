/** The handlers over the stores, settled: every message is handled before a method returns. */
module Service {
  import opened Types
  import opened Queue
  import opened Statuses
  import QM = QueueManager
  import PM = PullRequestManager
  import GH = GitHub
  import P = PushNotifications
  import D = Delayed
  import S = Settled

  /** routes-webhook.js: any action but `closed` and `opened` is a synchronization. */
  function StepOf(action: string, n: nat, sha: string, mergedBy: Option<string>): S.Step {
    if action == "closed" then S.Close(n, mergedBy)
    else if action == "opened" then S.Open(n, sha)
    else S.Sync(n, sha)
  }

  class BranchService {
    const branch: QM.Branch
    const queues: QM.QueueManager
    const records: PM.PullRequestManager
    const github: GH.CheckRunApi
    const push: P.PushNotificationHandler
    var firsts: seq<Recipient>   // `send.queue.first` messages published
    var alerts: seq<S.Alert>     // `send.checks` and `cancel.checks` messages published

    ghost predicate Valid() reads github {
      github.Valid()
    }

    ghost function Board(): Board reads queues, records, github {
      Statuses.Board(queues.Items(branch), records.docs, github.Checks())
    }

    ghost function World(): S.World reads this, queues, records, github, push {
      S.World(Board(), firsts, alerts, push.State())
    }

    /** The queues of the other branches. */
    ghost function Elsewhere(): map<QM.Branch, seq<Booking>> reads queues {
      queues.docs - {branch}
    }

    constructor (branch: QM.Branch, app: nat)
      ensures Valid()
      ensures World() == S.World(Statuses.Board([], map[], map[]), [], [], P.START)
      ensures WellFormed(Board()) && Agrees(Board()) && S.NoticeInv(World())
    {
      this.branch := branch;
      queues := new QM.QueueManager();
      records := new PM.PullRequestManager();
      github := new GH.CheckRunApi(app);
      push := new P.PushNotificationHandler();
      firsts, alerts := [], [];
    }

    // ----- handler-pullrequest.js: statuses -----

    method GetPullRequestAndUpdateStatus(n: nat, check: Check)
      requires Valid()
      modifies github
      ensures Valid() && Board() == Write(old(Board()), n, check)
    {
      var info := records.GetPullRequestInfo(n);
      if info.Some? && info.value.sha.Some? {
        github.CreateCheckRunForPullRequest(info.value.sha.value, check);
      }
    }

    method BlockPullRequest(n: nat, description: Description := NotInQueue)
      requires Valid()
      modifies github
      ensures Valid() && Board() == Write(old(Board()), n, Check(Blocking, description))
    {
      GetPullRequestAndUpdateStatus(n, Check(Blocking, description));
    }

    method UnblockPullRequest(n: nat, description: Description := First)
      requires Valid()
      modifies github
      ensures Valid() && Board() == Write(old(Board()), n, Check(Passing, description))
    {
      GetPullRequestAndUpdateStatus(n, Check(Passing, description));
    }

    method SetPullRequestStatusByPosition(n: nat, index: int)
      requires Valid()
      modifies github
      ensures Valid() && Board() == SetByPosition(old(Board()), n, index)
    {
      if index == 0 {
        UnblockPullRequest(n);
        return;
      }
      var description := Over(MAX_REPORTED_QUEUE_POSITION);
      if index < 0 {
        description := NotInQueue;
      } else if index <= MAX_REPORTED_QUEUE_POSITION {
        description := Before(index);
      }
      BlockPullRequest(n, description);
    }

    method SetAllPullRequestsStatuses()
      requires Valid()
      modifies github
      ensures Valid() && Board() == Refresh(old(Board()))
    {
      var items := queues.Items(branch);
      if |items| > MAX_REPORTED_QUEUE_POSITION + 1 { items := items[..MAX_REPORTED_QUEUE_POSITION + 1]; }
      var i := 0;
      while i < |items|
        invariant 0 <= i <= |items|
        invariant Valid()
        invariant RefreshFrom(Board(), items, i) == RefreshFrom(old(Board()), items, 0)
      {
        SetPullRequestStatusByPosition(items[i].number, i);
        i := i + 1;
      }
    }

    // ----- handler-event-queue.js and the cancelling subscription -----

    method OnItemAdd(item: Booking, index: int)
      requires Valid()
      modifies this, github
      ensures Valid() && Board() == D.Handle(old(Board()), Added(item, index))
      ensures firsts == old(firsts) + (if index == 0 then [To(item)] else [])
      ensures alerts == old(alerts)
    {
      if index == 0 { firsts := firsts + [To(item)]; }
      SetPullRequestStatusByPosition(item.number, index);
    }

    method OnItemRemove(item: Booking, closed: bool, firstItemChanged: bool)
      requires Valid()
      modifies this, github
      ensures Valid() && Board() == D.Handle(old(Board()), Removed(item, closed, firstItemChanged))
      ensures var q := old(Board()).queue;
              firsts == old(firsts) + if firstItemChanged && q != [] then [To(q[0])] else []
      ensures alerts == old(alerts)
    {
      if !closed { BlockPullRequest(item.number); }
      if firstItemChanged {
        var first := queues.GetFirstItem(branch);
        if first.Some? { firsts := firsts + [To(first.value)]; }
      }
      SetAllPullRequestsStatuses();
    }

    // ----- Requests -----

    method AddItem(item: Booking)
      requires Valid()
      modifies this, queues, github
      ensures Valid() && World() == S.Next(old(World()), S.Add(item)) && Elsewhere() == old(Elsewhere())
    {
      var published := queues.AddItem(branch, item);
      if published.Some? {
        OnItemAdd(published.value.item, published.value.index);
      }
    }

    method RemoveAndHandle(item: Booking, closed: bool)
      requires Valid()
      modifies this, queues, github, push
      ensures Valid() && World() == S.Unbooked(old(World()), item, closed) && Elsewhere() == old(Elsewhere())
    {
      var published := queues.RemoveItem(branch, item, closed);
      push.CancelChecksNotification(To(item));
      OnItemRemove(published.item, published.closed, published.firstItemChanged);
    }

    method RemoveItem(item: Booking)
      requires Valid()
      modifies this, queues, github, push
      ensures Valid() && World() == S.Next(old(World()), S.Remove(item)) && Elsewhere() == old(Elsewhere())
    {
      RemoveAndHandle(item, false);
    }

    // ----- Webhooks -----

    method HandleClosed(n: nat, mergedBy: Option<string>)
      requires Valid()
      modifies this, queues, records, github, push
      ensures Valid() && World() == S.Next(old(World()), S.Close(n, mergedBy)) && Elsewhere() == old(Elsewhere())
    {
      var item := queues.GetItem(branch, n);
      if item.Some? {
        FirstIsAtIndex(queues.Items(branch), n, item.value);
        RemoveAndHandle(item.value, true);
      }
      if mergedBy.Some? {
        UnblockPullRequest(n, MergedBy(mergedBy.value));
      } else {
        BlockPullRequest(n);
      }
      records.DeletePullRequestInfo(n);
    }

    method HandleOpened(n: nat, sha: string)
      requires Valid()
      modifies records, github
      ensures Valid() && World() == S.Next(old(World()), S.Open(n, sha)) && Elsewhere() == old(Elsewhere())
    {
      records.SetPullRequestInfo(n, Record(Some(sha), None));
      BlockPullRequest(n);
    }

    method HandleSync(n: nat, sha: string)
      requires Valid()
      modifies records, github
      ensures Valid() && World() == S.Next(old(World()), S.Sync(n, sha)) && Elsewhere() == old(Elsewhere())
    {
      records.SetPullRequestInfo(n, Record(Some(sha), None));
      var bookingData := queues.Items(branch);
      SetPullRequestStatusByPosition(n, IndexOf(bookingData, n));
    }

    method HandlePullRequest(action: string, n: nat, sha: string, mergedBy: Option<string>)
      requires Valid()
      modifies this, queues, records, github, push
      ensures Valid() && World() == S.Next(old(World()), StepOf(action, n, sha, mergedBy))
      ensures Elsewhere() == old(Elsewhere())
      ensures action == "closed" ==>
                n !in records.docs && (Distinct(old(Board()).queue) ==> IndexOf(Board().queue, n) == -1) &&
                forall was :: ShaOf(old(Board()), n) == Some(was) ==> CheckAt(Board(), was) == Some(
                  if mergedBy.Some? then Check(Passing, MergedBy(mergedBy.value)) else Check(Blocking, NotInQueue))
      ensures action == "opened" ==>
                Board().queue == old(Board()).queue && ShaOf(Board(), n) == Some(sha) &&
                CheckAt(Board(), sha) == Some(Check(Blocking, NotInQueue))
      ensures action != "closed" && action != "opened" ==>
                Board().queue == old(Board()).queue && ShaOf(Board(), n) == Some(sha) &&
                CheckAt(Board(), sha) == Some(StatusAt(IndexOf(Board().queue, n)))
    {
      S.ClosedLeaves(World(), n, mergedBy);
      if action == "closed" {
        HandleClosed(n, mergedBy);
      } else if action == "opened" {
        HandleOpened(n, sha);
      } else {
        HandleSync(n, sha);
      }
    }

    /** The head's state is stored; a change of it is published and handled. */
    method ReportStatus(to: Recipient, was: Status, githubStatus: Status, accepted: bool, elapsed: nat)
      requires Valid()
      requires Board().queue != [] && to == To(Board().queue[0]) && to.number in records.docs
      requires was == S.StoredStatus(Board(), to.number)
      modifies this, records, push
      ensures Valid()
      ensures World() == S.Next(old(World()), S.StatusChange(to.number, githubStatus, accepted, elapsed))
    {
      records.SetPullRequestInfo(to.number, Record(None, Some(githubStatus)));
      if githubStatus != was {
        if githubStatus == Pending {
          alerts := alerts + [S.Alert(S.CancelChecks, to, githubStatus)];
          push.CancelChecksNotification(to);
        } else {
          alerts := alerts + [S.Alert(S.SendChecks, to, githubStatus)];
          push.SendChecksNotification(to, githubStatus, accepted, elapsed);
        }
      }
    }

    /** `suites` and `state` are what GitHub answers about the commit; `accepted` and `elapsed`
        say whether and how fast the notification service takes a new notification. */
    method HandleStatusChange(sha: string, suites: Option<seq<Option<string>>>, state: Option<string>,
                              accepted: bool, elapsed: nat)
      returns (found: Option<nat>)
      requires Valid()
      modifies this, records, push
      ensures Valid() && Elsewhere() == old(Elsewhere())
      ensures match found
              case None => World() == old(World()) && forall n :: ShaOf(old(Board()), n) != Some(sha)
              case Some(n) =>
                ShaOf(old(Board()), n) == Some(sha) &&
                World() == S.Next(old(World()), S.StatusChange(n, GH.CombinedStatus(suites, state), accepted, elapsed))
    {
      found := records.GetPullRequestInfoBySha(sha);
      if found.None? { return; }
      var data := records.GetPullRequestInfo(found.value);
      var firstItem := queues.GetFirstItem(branch);
      if firstItem.None? || firstItem.value.number != found.value { return; }
      ReportStatus(To(firstItem.value), GH.GetOr(data.value.status, Pending),
                   GH.CombinedStatus(suites, state), accepted, elapsed);
    }

    /** The `installation` webhook, action `deleted`. */
    method HandleUninstall()
      modifies queues, records
      ensures World() == S.Next(old(World()), S.Uninstall)
      ensures Elsewhere() == map b | b in old(Elsewhere()) && b.owner != branch.owner :: old(Elsewhere())[b]
    {
      records.DeletePullRequestInfos();
      queues.DeleteQueue(branch.owner);
    }
  }
}
