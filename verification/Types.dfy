/** The values the queue, the pull request records, the check runs and the notifications share. */
module Types {

  datatype Option<+T> = None | Some(value: T)

  /** One booking of a queue (validator-queue.js:4-8). */
  datatype Booking = Booking(number: nat, username: string, createdAt: nat)

  /** Whom a push notification is about and addressed to, within one owner and repository. */
  datatype Recipient = Recipient(number: nat, username: string)

  function To(item: Booking): Recipient {
    Recipient(item.number, item.username)
  }

  /** The state of the checks of one commit, as github.js combines it. */
  datatype Status = Success | Failure | Pending

  /** The conclusion of this app's own check run. */
  datatype Conclusion = Passing | Blocking

  /** The title of this app's own check run (messages/en.json:2-10). */
  datatype Description =
    | NotInQueue
    | First
    | Before(position: int)
    | Over(number: int)
    | MergedBy(username: string)

  datatype Check = Check(conclusion: Conclusion, description: Description)

  /** What `item.add` and `item.remove` carry, fixed when the database answered. */
  datatype Event =
    | Added(item: Booking, index: int)
    | Removed(item: Booking, closed: bool, firstItemChanged: bool)

  /** The stored record of a pull request; both fields are set by merging updates. */
  datatype Record = Record(sha: Option<string>, status: Option<Status>)
}
