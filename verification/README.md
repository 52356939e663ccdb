# A verified model of the merge queue

ugo keeps one ordered queue of bookings per owner, repository and base branch. Only the pull
request at the head of the queue should carry a passing check run. Requests change the queue,
GitHub webhooks change what is tracked, and event handlers rewrite check runs and schedule push
notifications. This project models those four pieces of state and proves that they stay
consistent, over whole runs.

The files follow the program.

- `Types.dfy`, `Lists.dfy`: the shared values, and `filter`.
- `Queue.dfy`, `QueueManager.dfy`: manager-queue.js. What the two database updates do to
  positions and over histories; the store itself as a class.
- `PullRequestManager.dfy`: manager-pullrequest.js, the merging updates of the records.
- `GitHub.dfy`: github.js, the combined state of a commit and the find-or-create of check runs.
- `Statuses.dfy`: the statuses of handler-pullrequest.js and the truncated refresh.
- `Delayed.dfy`: **model D**. A database step is atomic and fixes the payload of its event; events
  wait in a FIFO; each handler runs atomically against the queue as it is at delivery.
- `Repository.dfy`: all branches of a repository at once, over one record store; each branch has
  its queue and its FIFO, and their steps interleave freely.
- `SharedCommits.dfy`: the same repository with settled operations, when pull requests may have
  the same head commit and so the same check run.
- `HeadNotices.dfy`: the `send.queue.first` message when database steps, deliveries in any order,
  reads of the head and publications are all separate steps.
- `PushNotifications.dfy`: handler-notification-push.js and manager-notification-push.js with a
  clock, a remote schedule and expiring records.
- `NotificationRace.dfy`: the same for one recipient when the calls of sends and cancellations
  interleave.
- `Settled.dfy`: **model S**. Every operation runs with all its handlers to completion.
- `Service.dfy`: the handlers as a class over the store classes; each method is proved to be a
  step of model S, with the queues of all other branches unchanged.
- `StoreKeys.dfy`: the hyphen-joined `_id` strings.
- `InstallationInfoManager.dfy`: the read-through cache of installation infos.

## What is assumed

- One fixed owner and repository, except for the queues. A pull request is booked only on the
  queue of its own base branch, and no two tracked pull requests have the same head commit
  (`ShaFree`), which `SharedCommits.dfy` does without. Everything but `QueueManager.dfy` and `Repository.dfy` looks at one base branch at a
  time. The stores are maps by branch, number or recipient; `StoreKeys` shows when the strings of
  the program really are such keys.
- A status write and a remote check-run call succeed, except that a lookup can fail. A remote
  cancellation succeeds exactly when it is given the id of an undelivered notification. Whether the
  service accepts a new notification, and how long a send takes, are parameters.
- GitHub's answers, the time, the deliveries and the expiries are parameters of the steps.

## What turned out to be false, and exactly when

- A removal is matched on username *and* number, but its event and the block that follows use the
  number alone. Naming a queued pull request under a wrong username leaves a wrong description
  exactly when it is tracked and behind the sixth place (`RemovalConvergesExactly`), makes the
  order of the parallel writes matter exactly if it is tracked and within the first six
  (`WriteOrderMattersExactly`), and sends one `send.queue.first` too many exactly at the head (`FirstsAreTheNewHeads`).
  Conclusions survive it when the block is written first (`OnlyTheHeadIsMergeable`).
- Closing a pull request while its add is still in flight makes a reopened one show a stale place;
  `CloseConvergesExactly` gives the condition. `opened` on a queued pull request is wrong exactly
  when nothing in flight rewrites it (`OpenConvergesExactly`).
- The events in flight may be delivered in any order exactly when none of them is stale: an add
  whose captured index no longer gives the check of the current one, or a removal that is not a
  closing one of a pull request that now stands behind the sixth place
  (`AnyOrderConvergesExactly`; `OutOfOrderDeliveryMisleads` is a stale add at work). Handlers whose
  writes interleave settle right in every order exactly when each write is right and whoever gets
  none shows its place already (`WritesSettleExactly`).
- Pull requests with one head commit, of one branch or of two, share a check run. Over every run of
  settled operations all places are shown after each one exactly when those with one commit always
  have the same description to show and every operation fits: none opens a queued pull request,
  misnames a tracked one behind the sixth place, or closes one whose commit another still has,
  except unmerged while the other is not queued (`RunShowsExactly`; its `exact == false` says the
  same of conclusions). Whoever shares the commit of a closed pull request is left with its last
  status, and so can be merged exactly when that one was merged (`CloseDecidesSharers`;
  `MergeUnblocksSharer` is such a run).
- The app can get a second check run on a commit: exactly when it looks for one while an earlier
  lookup that found none has not created its run yet, or when the lookup fails although there is
  one (`OverlappingWritesExactly`).
- The head is told that all checks passed although they did not exactly when this was not its stored
  status, nothing is missing a conclusion, pending or `failure`, and something is unproven: one of
  the two requests failed, the state is none the program knows (`error`), or a conclusion is neither
  `success` nor `failure` (`timed_out`, `cancelled`) (`UnearnedSuccessIsAnnounced`, `UnearnedSuccessExactly`; `UnearnedSuccessWitnesses`
  has two such inputs).
- A recipient can get two checks notifications: exactly when a send looks its record up while
  something that lookup does not find is undelivered or about to be scheduled
  (`OverlappingSendsExactly`). Besides overlapping sends, a cancellation that deletes the record of
  a later send does it (`LateDeleteMisleads`). A removal leaves a notification for a pull request
  that is no longer queued exactly when its cancellation misses something in the same sense
  (`CancelClearsExactly`), as between the scheduling and the saving of a send
  (`UnsavedSurvivesRemoval`).
- A read of an installation's info can bring an invalidated answer back; reads stay fresh exactly
  when no answer is stored whose installation was invalidated since GitHub was asked, with GitHub
  answering otherwise then and ever since (`ReadsAreFreshExactly`).
- The 120 second expiry, explained in the migration as twice the delay, tolerates deliveries up to
  60 seconds late and no later (`ExpiryIsTight`).
- Uninstalling cancels no notification (`UninstallStrandsNotices`).
- The keys of different owners or repositories can collide: GitHub names may hold hyphens
  (`SharedIffHyphenated`).

## Model

| member | source | states |
|---|---|---|
| Queue.IndexOfIsFirst | handler-pullrequest.js:144 | `findIndex` gives the first booking of the pull request; -1 means there is none |
| Queue.PullOne | manager-queue.js:69-80 | a removal takes out the one booking with its username and number, if any, and nothing else |
| Queue.PullIndex | manager-queue.js:69-80 | the index of every pull request after a removal, and that the queue stays free of repeats |
| Queue.PushIndex | manager-queue.js:17-36 | the index of every pull request after a booking: only the new one moves, and a second booking of a number is refused |
| Queue.AddEventIsItsPlace | manager-queue.js:37-58 | a booking is announced if and only if it was not refused, under its own name and with the index it has just got, behind all that were there |
| Queue.FirstItemChangedIsExact | manager-queue.js:79-91 | the event of a removal carries the item given; `firstItemChanged` holds exactly when the head changes, unless the removal misnames the head |
| Queue.QueueIsItsHistory | manager-queue.js:14-95 | after any operations the queue is, in order, the accepted adds that no later removal matches, and no two bookings share a number |
| Queue.BookingsOnlyAdvance | manager-queue.js:14-95 | over any run, two bookings that are not removed never move back and never change order |
| QueueManager.QueueManager.AddItem | manager-queue.js:14-59 | the branch's queue becomes the pushed one, the other queues stay; the event carries the index in the queue after the push, and a refused add publishes nothing |
| QueueManager.QueueManager.RemoveItem | manager-queue.js:61-95 | the branch's queue becomes the pulled one, the other queues stay; the event is published even when nothing matched, with `firstItemChanged` from the queue before |
| QueueManager.QueueManager.GetItems | manager-queue.js:97-115 | the first `limit` bookings |
| QueueManager.QueueManager.GetItem | manager-queue.js:117-133 | a booking of the pull request with none of that number before it; nothing only if no booking has that number |
| QueueManager.QueueManager.GetFirstItem | manager-queue.js:135-138 | the head, if any |
| QueueManager.QueueManager.GetLength | manager-queue.js:140-157 | the length, zero without a document |
| QueueManager.QueueManager.DeleteQueue | manager-queue.js:8-12 | every queue of the owner goes, in any repository, and no queue of another owner |
| PullRequestManager.PullRequestManager.SetPullRequestInfo | manager-pullrequest.js:6-36 | the fields given win, the stored others survive, a missing record is created |
| PullRequestManager.PullRequestManager.GetPullRequestInfoBySha | manager-pullrequest.js:55-61 | a record with that head commit, and none only if there is none |
| PullRequestManager.PullRequestManager.DeletePullRequestInfo | manager-pullrequest.js:63-77 | exactly that record goes |
| GitHub.CombinedIsJoin | github.js:94-117 | for any suites and state, missing responses included, the result is the maximum of the parts under success < failure < pending |
| GitHub.CombinedIgnoresOrder | github.js:94-117 | permuting the suites changes nothing |
| GitHub.CombinedDistributes | github.js:94-117 | combining two batches of suites is the join of combining each |
| GitHub.UnearnedSuccessExactly | github.js:94-117 | success is reported if and only if no conclusion is missing or `failure` and the state is neither `pending` nor `failure`; it is unearned if and only if moreover a response is missing, the state is unknown, or a conclusion is neither success nor failure |
| GitHub.UpsertedShows | github.js:135-177 | a write makes its commit show it, leaves every other run in place, and never adds a second run of the app on the commit |
| GitHub.OneRunPerCommit | github.js:167-177 | over any serial history at most one run of the app per commit, showing the last write to it |
| GitHub.RunsAreEmptyLooks | github.js:135-177 | however lookups, creations and patches interleave with each other and with other apps, the runs on a commit and those about to be created grow by one exactly at a lookup that finds none |
| GitHub.OverlappingWritesExactly | github.js:135-177 | once all have acted there are as many runs as at first plus the lookups that found none; at most one if and only if no lookup ran while an earlier empty one was open, and none failed although there was a run |
| GitHub.RunsShowTheirLastWrite | github.js:135-177 | over every interleaving each run of the app shows the commit and the check of the last write aimed at it, and a run nobody wrote to is as it was |
| GitHub.WritesComeFromLooks | github.js:167-177 | a write in flight has the commit and the check of a lookup that was made |
| GitHub.ActShows | github.js:152-165 | a write leaves its check on a run of the app on its commit |
| GitHub.ForeignRunsUntouched | github.js:135-177 | over any serial history the runs of other apps are exactly what those apps added |
| GitHub.CheckRunApi.CreateCheckRunForPullRequest | github.js:168-177 | the method as one such write on the remote, a lookup directly followed by its creation or patch |
| Statuses.ShownPlaceIsReal | handler-pullrequest.js:258-292 | on a board in agreement every description is literally true: first, k bookings before, more than five before, or not queued |
| Statuses.RefreshShown | handler-pullrequest.js:245-256 | a refresh writes exactly the tracked pull requests at index 0 to 5, each by its place |
| Statuses.TruncatedRefreshIsFull | handler-pullrequest.js:245-281 | after a removal, blocking and rewriting six statuses gives the same board as rewriting all if and only if it does not misname a tracked pull request behind the sixth place, and exactly then the board agrees; for queues of any length and any position |
| Statuses.WritesCommuteExactly | handler-event-queue.js:71-75 | any writes give the same board in every order if and only if no two give different checks to one commit |
| Statuses.WritesSettleExactly | handler-pullrequest.js:215-256 | whatever writes are on their way, from whichever handlers, every order of them ends in agreement if and only if each is right and whoever gets none shows its place already |
| Statuses.RemovalTargets | handler-event-queue.js:45-75 | the block and the refresh writes of a removal have pairwise distinct targets if and only if it does not misname one of the first six |
| Statuses.WriteOrderMattersExactly | handler-event-queue.js:71-75 | every order of a removal's writes gives the settled board if and only if it does not misname a tracked pull request among the first six |
| Statuses.BlockLastIsWrong | handler-event-queue.js:45-75 | for a removal that misnames one of the first six, the block written last stays, even on the head |
| Delayed.RunKeeps | handler-event-queue.js:6-77 | the invariant over every run: delivering what is in flight against the current queue settles every pull request right |
| Delayed.StepQueue | manager-queue.js:14-95 | what each step does to the queue; a close pulls the first booking of its pull request |
| Delayed.EventsAreConserved | manager-queue.js:44-91 | over every run the events published are, in order, those delivered followed by those in flight |
| Delayed.TrackedIsItsHistory | handler-pullrequest.js:83-158 | over every run the tracked pull requests are those opened or pushed and not closed since, each with the commit given last |
| Delayed.DelayedConvergence | handler-pullrequest.js:245-292 | for every run, draining the events leaves each tracked pull request with exactly the check of its current index, although adds captured theirs earlier |
| Delayed.OnlyTheHeadIsMergeable | handler-event-queue.js:45-76 | for every run, whatever usernames removals give, once drained a tracked pull request passes if and only if it heads the queue, so at most one passes |
| Delayed.RemovalConvergesExactly | manager-queue.js:69-91 | a removal keeps the drained board in agreement if and only if it does not misname a tracked pull request behind the sixth place |
| Delayed.CloseConvergesExactly | handler-pullrequest.js:98-106 | close then reopen settles right if and only if the last event in flight naming the pull request is not its add |
| Delayed.OpenConvergesExactly | handler-pullrequest.js:115-133 | `opened` settles right if and only if the pull request is not queued or something in flight still writes to it |
| Delayed.AnyOrderConvergesExactly | manager-queue.js:44-95 | from any net on its way to agreement, the events in flight settle right in every order if and only if none is stale: a captured index whose check is not that of the current one, or a removal, not closing, of a pull request that now stands behind the sixth place; for exact descriptions and for conclusions alone |
| Delayed.OutOfOrderDeliveryMisleads | manager-queue.js:48 | the witness of a stale add: a captured index delivered after a newer removal leaves a head that shows one booking before it |
| Repository.EveryBranchConverges | handler-pullrequest.js:245-292 | over every interleaving of all branches on one record store, a tracked pull request of a branch with nothing in flight shows exactly its place in that branch's queue |
| Repository.OneMergeablePerBranch | handler-event-queue.js:45-76 | over every interleaving, whatever usernames removals give, a tracked pull request of a branch with nothing in flight passes if and only if it heads that branch's queue, so at most one passes per branch |
| Repository.OwnStep | handler-pullrequest.js:215-292 | a step of a branch on the shared records does to that branch what it does to the branch alone |
| Repository.StepSpares | handler-pullrequest.js:215-292 | a step of a branch leaves commit and check of every pull request of another branch as they were |
| SharedCommits.CloseDecidesSharers | handler-pullrequest.js:98-106 | whoever shares the head commit of a closed pull request is left with its last status: mergeable if and only if that one was merged, and showing its place if and only if that status fits it |
| SharedCommits.OperationShowsExactly | handler-pullrequest.js:83-292 | with any shared commits, an operation of any branch leaves every place shown if and only if afterwards those with one commit stand in the same place, and it opens no queued pull request, misnames none behind the sixth place, and closes none whose last status does not fit the others on its commit; the same for conclusions |
| SharedCommits.RunShowsExactly | handler-pullrequest.js:83-292 | the same over whole runs of all branches: all places are shown after every operation if and only if this holds of every operation |
| SharedCommits.ShownHeadsAreMergeable | handler-pullrequest.js:258-292 | with the right conclusions a tracked pull request is mergeable if and only if it heads the queue of its branch |
| SharedCommits.RefreshAt | handler-pullrequest.js:245-256 | after a refresh a commit shows the place of one of the first six pull requests that have it, and is unchanged if none has |
| SharedCommits.OperatedIsSettled | handler-pullrequest.js:83-292 | an operation does to its branch what the settled step does and leaves the other queues; uninstalling empties them all |
| SharedCommits.MergeUnblocksSharer | handler-pullrequest.js:98-106 | a run: two pull requests opened with one commit against two branches; merging the second makes the first mergeable though nobody queued it |
| HeadNotices.HeadIsAlwaysTold | handler-event-queue.js:14-69 | under every interleaving the head was told since it became head or a message is on its way; when nothing is in flight it was told |
| HeadNotices.OnlyHeadsAreTold | handler-event-queue.js:14-69 | under every interleaving nobody is told to be first who had not become head before |
| HeadNotices.MessagesAreHeadChanges | handler-event-queue.js:14-69 | under every interleaving the messages sent and on their way, with the reads that found the queue empty, are as many as the changes of the head and the removals that misname it |
| PushNotifications.CancelRemovesAll | handler-notification-push.js:67-91 | a cancellation removes all and only the undelivered notifications of the recipient, and its record if there was one |
| PushNotifications.SendReplaces | handler-notification-push.js:112-148 | after a send the recipient has only the new notification, due 60 seconds after the start, or none if it was refused; its record is dated at the end of the send and holds the new id, or none that is undelivered; the others are unchanged |
| PushNotifications.RecordOutlivesNotification | manager-notification-push.js:13-44 | over every run, while a notification is undelivered its record is there and holds its id |
| PushNotifications.ExpiryIsTight | migrations/2018-11-06-pushNotification.js:29-35 | no run gives a recipient two undelivered notifications if and only if deliveries are at most 60 seconds late |
| NotificationRace.SendAlone | handler-notification-push.js:112-148 | a send whose calls nothing interleaves with does to its recipient what the serial send does |
| NotificationRace.CancelAlone | handler-notification-push.js:67-91 | a cancellation whose calls nothing interleaves with is the serial one |
| NotificationRace.TimeAndOthers | handler-notification-push.js:67-148 | deliveries, expiries and the sends of other recipients are those of the serial model |
| NotificationRace.PendingIsItsHistory | handler-notification-push.js:67-148 | over every interleaving a notification is undelivered if and only if it was scheduled and since then neither delivered nor cancelled by an operation that had found it |
| NotificationRace.RecordIsItsHistory | manager-notification-push.js:13-44 | over every interleaving the record holds the id saved last, unless it was deleted or expired since, by whichever operation |
| NotificationRace.NotificationsAreClaims | handler-notification-push.js:67-148 | however sends, cancellations, deliveries, expiries and refusals interleave, the claims (undelivered notifications that nothing in flight has found, and sends that have not scheduled yet) grow by one at the start of a send and shrink by one at a lookup that finds an unclaimed notification, at its delivery and at a refusal; at rest they are the undelivered notifications |
| NotificationRace.FinishedIsClaims | handler-notification-push.js:67-148 | once everything in flight is done and accepted, as many notifications are undelivered as there are claims |
| NotificationRace.OverlappingSendsExactly | handler-notification-push.js:112-148 | over every interleaving there are never two undelivered notifications once what is in flight is done if and only if no send looks up while something its lookup does not find is undelivered or about to be scheduled |
| NotificationRace.CancelClearsExactly | handler-notification-push.js:67-91 | after a cancellation nothing is left to deliver once what is in flight is done if and only if its lookup misses nothing |
| NotificationRace.LateDeleteMisleads | manager-notification-push.js:40-44 | a run without overlapping sends: a cancellation deletes the record of a later send, and the send after that leaves two notifications |
| NotificationRace.UnsavedSurvivesRemoval | handler-notification-push.js:182-198 | a run: the cancellation of a removal between the scheduling and the saving of a send leaves the notification |
| PushNotifications.PushNotificationHandler.SendChecksNotification | handler-notification-push.js:112-148 | the method is the cancel, schedule and save of the model, in this order |
| PushNotifications.PushNotificationHandler.CancelChecksNotification | handler-notification-push.js:67-91 | the method is the model's cancellation |
| PushNotifications.PushNotificationHandler.SaveNotification | manager-notification-push.js:13-30 | the merging save: a refused notification keeps the id stored before |
| Settled.SettledIsDrained | handler-event-queue.js:6-77 | a settled booking, removal, opening, synchronization or close is the delayed step followed by the delivery of its event |
| Settled.RunAgrees | handler-pullrequest.js:245-292 | over a whole settled run every tracked pull request shows exactly its place after every operation |
| Settled.CloseProtocol | handler-pullrequest.js:83-113 | closing takes out exactly that booking, the last status is the merge by its user or "not in queue", the record is gone, everyone else agrees with the shorter queue |
| Settled.ClosedLeaves | handler-pullrequest.js:83-113 | on any board, a close leaves the pull request unknown and off the queue, and the last status on the commit it had |
| Settled.UpsertStores | handler-pullrequest.js:115-158 | `opened` and the other actions store the commit and keep the stored status, the queue and everybody else's record; the commit shows "not in queue" or the place |
| Settled.StepCommit | handler-pullrequest.js:83-158 | which commit each step leaves a pull request tracked with |
| Settled.FirstsAreTheNewHeads | handler-event-queue.js:14-69 | the log of `send.queue.first` has one message per new head plus one per removal misnaming the head, and is exactly the new heads in order if and only if there was no such removal |
| Settled.NoticesTellTheHead | handler-pullrequest.js:176-211 | over every run without uninstall there is at most one undelivered checks notification; it is for the head under the head's username, its title matches the stored status, and nothing waits while the queue is empty or the head's stored status is pending |
| Settled.StatusIsNotified | handler-pullrequest.js:192-209 | a state of the head that is not the stored one is told to its booker: pending cancels, success and failure schedule a notification with their title in 60 seconds if the service accepts it, in place of any other; the stored state changes no notification and publishes nothing |
| Settled.StatusIsStored | handler-pullrequest.js:160-193 | a report on the head is stored and changes nothing else of the board; a report on anybody else changes nothing |
| Settled.RemovalCancels | handler-notification-push.js:182-198 | a removal cancels the undelivered notifications for the number and the username it names and no others |
| Settled.CloseCancels | handler-pullrequest.js:98-99 | a close cancels those of the booker of the pull request if it is queued, and no others |
| Settled.OthersTellNobody | handler-notification-push.js:170-198 | bookings, openings, synchronizations and uninstalling leave the notifications as they are; only status changes publish checks messages, and only bookings, removals and closes `send.queue.first` |
| Settled.UnearnedSuccessIsAnnounced | handler-pullrequest.js:170-209 | a notification that all checks passed is scheduled for the head although they did not if and only if success is not the stored status, nothing contradicts it and something is unproven |
| Settled.UninstallStrandsNotices | routes-webhook.js:183-189 | uninstalling keeps the board in agreement, and breaks the notification invariant if and only if one is waiting |
| Settled.ChecksAreEdgeTriggered | handler-pullrequest.js:170-209 | while a pull request stays head, the states published about it are the reported ones without repeats, starting from the stored one; all to its booker, `cancel.checks` exactly for pending |
| Settled.ChangesNeverRepeat | handler-pullrequest.js:194 | such a sequence never repeats a state, not even the one known before, and ends with the last report |
| Service.BranchService.SetPullRequestStatusByPosition | handler-pullrequest.js:258-292 | the method writes the status of the position to that pull request and nothing else |
| Service.BranchService.SetAllPullRequestsStatuses | handler-pullrequest.js:245-256 | the loop over at most six items is the model's refresh |
| Service.BranchService.OnItemAdd | handler-event-queue.js:6-34 | an add event is handled as in the model, and index 0 sends the message to the booker |
| Service.BranchService.OnItemRemove | handler-event-queue.js:36-77 | a remove event is handled as in the model, and a changed head is told |
| Service.BranchService.AddItem | manager-queue.js:14-59 | a booking with its handlers is the settled step; other branches are unchanged |
| Service.BranchService.RemoveItem | manager-queue.js:61-95 | a removal with its handlers and the cancelling subscription is the settled step; other branches are unchanged |
| Service.BranchService.HandleClosed | handler-pullrequest.js:83-113 | is the settled close |
| Service.BranchService.HandleOpened | handler-pullrequest.js:115-133 | is the settled open |
| Service.BranchService.HandleSync | handler-pullrequest.js:135-158 | is the settled synchronization |
| Service.BranchService.HandleStatusChange | handler-pullrequest.js:160-213 | resolves the commit to a tracked pull request and is the settled status change with the combined state, or changes nothing |
| Service.BranchService.HandlePullRequest | routes-webhook.js:141-156 | `closed` leaves the pull request unknown, off the queue and its commit showing the merge or "not in queue"; `opened` stores the commit, which shows "not in queue"; every other action stores the commit, which shows the place in the queue |
| Service.BranchService.HandleUninstall | routes-webhook.js:183-189 | the records and every queue of the owner go, other owners' queues, check runs and notifications stay |
| StoreKeys.DecimalIsInjective | manager-pullrequest.js:10 | printed numbers differ when the numbers do |
| StoreKeys.DecimalIsRead | manager-pullrequest.js:10 | a number is printed in digits that read as the number, without leading zeros |
| StoreKeys.KeysAreSpelled | manager-notification-push.js:5-11 | how the four keys are spelled, part by part |
| StoreKeys.BranchesHaveTheirOwnQueue | manager-queue.js:20 | within a repository the queue key tells the branch, hyphens included |
| StoreKeys.PullRequestsHaveTheirOwnRecord | manager-pullrequest.js:10 | within a repository the record key tells the number |
| StoreKeys.RecipientsHaveTheirOwnNotification | manager-notification-push.js:5-11 | within a repository the notification key tells number, username and kind, for hyphen-free kinds |
| StoreKeys.TokensHaveTheirOwnInstallationInfo | manager-installation-info.js:17 | the cache key tells installation and token |
| StoreKeys.PlainOwnersNeverCollide | manager-queue.js:20 | with hyphen-free owner and repository a queue key tells all its parts |
| StoreKeys.SharedIffHyphenated | manager-queue.js:20 | a queue key belongs to one owner, repository and branch if and only if none of them holds a hyphen |
| StoreKeys.RecordSharedIffHyphenated | manager-pullrequest.js:10 | a record key belongs to one owner, repository and number if and only if owner and repository hold no hyphen |
| InstallationInfoManager.PickAll | manager-installation-info.js:49 | each repository keeps its name and permissions, in order |
| InstallationInfoManager.ReadsAreFreshExactly | manager-installation-info.js:13-85 | with asking and storing as separate steps that interleave with changes and invalidations, every read finds what GitHub answered for that token at some moment since the last invalidation if and only if no answer is stored for which the installation was invalidated between question and store, with GitHub answering otherwise then and ever since |
| InstallationInfoManager.OvertakenExactly | manager-installation-info.js:47-51 | for an answer waiting to be stored there was such an invalidation if and only if GitHub has not answered so since the last one |
| InstallationInfoManager.UninterruptedReadsAreFresh | manager-installation-info.js:47-51 | reads of an installation that no invalidation of it interrupts keep every read fresh |
| InstallationInfoManager.InterruptedReadIsStale | manager-installation-info.js:47-51 | an answer asked for before a change and its invalidation, and stored after, makes reads stale |
| InstallationInfoManager.DroppedIsAskedAgain | manager-installation-info.js:21-24 | after an expiry or an invalidation the next read asks GitHub again; other installations keep their entries |
| InstallationInfoManager.InstallationInfoManager.SetInstallationInfo | manager-installation-info.js:53-83 | the storing step of the model, whatever else waits to be stored |
| InstallationInfoManager.InstallationInfoManager.GetInstallationInfo | manager-installation-info.js:13-51 | a hit returns the stored info; a miss returns and stores the answer's count and client and the name and permissions of each of its repositories; the two steps of the model, one directly after the other |
| InstallationInfoManager.InstallationInfoManager.DeleteInstallationInfos | manager-installation-info.js:30-45 | every entry of the installation goes, whatever the token, and no other; the invalidation of the model |

## Left out

- Delayed.RunKeeps: handlers are atomic at delivery and events are delivered in order, while the program awaits database and network calls in between; `AnyOrderConvergesExactly` and `WritesSettleExactly` say exactly what other orders of events and of writes do.
- Delayed.DelayedConvergence: the same atomic handlers and order of delivery as `Delayed.RunKeeps`.
- Delayed.OnlyTheHeadIsMergeable: the same atomic handlers and order of delivery as `Delayed.RunKeeps`; for conclusions `AnyOrderConvergesExactly` gives the condition on other orders.
- Repository.EveryBranchConverges: within each branch, the same atomic handlers and order of delivery, and head commits are distinct; between branches any order. `RunShowsExactly` does without distinct commits for settled operations, not for events in flight.
- Repository.OneMergeablePerBranch: the same conditions as `Repository.EveryBranchConverges`.
- GitHub.OneRunPerCommit: writes are serial here; `OverlappingWritesExactly` says what interleaved ones do.
- InstallationInfoManager.ReadsAreFreshExactly: the 86400 second expiry is an arbitrary step that drops an entry.
- PushNotifications.ExpiryIsTight: sends and cancellations for one recipient do not overlap here, for which see `NotificationRace.OverlappingSendsExactly`, and the delay is the default of 60 seconds, not a string from the environment.
- Settled.NoticesTellTheHead: sends and cancellations are settled, for other orders see `CancelClearsExactly`; and the message `send.queue.first` is sent at once and cannot be cancelled, so it has no part in the schedule.
- A pull request booked on a queue that is not its base branch's, or whose base branch is changed while it is queued.
- Failed network calls other than lookups of check runs, suites and states and refused notifications (a failed patch of a check run is swallowed too), and failed database calls.
- The fields of a record that feed nothing back (title, author, url, assignees, installation), the time stamps and the url of a check run, and its `actions`, which are always absent because an environment string is compared with `true`.
- Descriptions and titles as localized strings: they are a datatype here.
- HTTP routing, authentication, signature and schema validation, tokens, JWT signing, and the OneSignal, Pusher and MongoDB clients.
- `check_run` and `check_suite` dispatch beyond the handlers they call, `send.update`, metrics, analytics and logging.
- The database switched off: notifications without records, and installation infos without a cache.
