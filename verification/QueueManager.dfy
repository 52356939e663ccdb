/** manager-queue.js: the queue documents, by owner, repository and branch. */
module QueueManager {
  import opened Types
  import opened Queue

  datatype Branch = Branch(owner: string, repo: string, name: string)

  class QueueManager {
    var docs: map<Branch, seq<Booking>>

    /** A branch without a document has an empty queue. */
    function Items(branch: Branch): seq<Booking>
      reads this
    {
      if branch in docs then docs[branch] else []
    }

    constructor ()
      ensures docs == map[]
    {
      docs := map[];
    }

    method AddItem(branch: Branch, item: Booking) returns (published: Option<Event>)
      modifies this
      ensures docs == old(docs)[branch := Push(old(Items(branch)), item)]
      ensures published == AddEvent(old(Items(branch)), item)
    {
      var queue := Items(branch);
      if IndexOf(queue, item.number) >= 0 {
        published := None;
      } else {
        docs := docs[branch := queue + [item]];
        published := Some(Added(item, |Items(branch)| - 1));
      }
    }

    method RemoveItem(branch: Branch, item: Booking, closed: bool) returns (published: Event)
      modifies this
      ensures docs.Keys == old(docs.Keys)
      ensures Items(branch) == Pull(old(Items(branch)), item)
      ensures forall other :: other in docs && other != branch ==> docs[other] == old(docs)[other]
      ensures published == RemoveEvent(old(Items(branch)), item, closed)
    {
      var before := Items(branch);
      if branch in docs {
        docs := docs[branch := Pull(docs[branch], item)];
      }
      var first := Head(before);
      published := Removed(item, closed, first.Some? && first.value.number == item.number);
    }

    method GetItems(branch: Branch, limit: nat) returns (items: seq<Booking>)
      ensures items <= Items(branch)
      ensures |items| == if |Items(branch)| < limit then |Items(branch)| else limit
    {
      items := Items(branch);
      if |items| > limit { items := items[..limit]; }
    }

    /** `$elemMatch` projects the first booking of the pull request. */
    method GetItem(branch: Branch, n: nat) returns (item: Option<Booking>)
      ensures item.Some? ==> IsFirstOf(item.value, Items(branch), n)
      ensures item.None? ==> forall i :: 0 <= i < |Items(branch)| ==> Items(branch)[i].number != n
    {
      var items := Items(branch);
      var i := IndexOf(items, n);
      forall j | i < 0 && 0 <= j < |items| ensures items[j].number != n {
        IndexOfIsFirst(items, n, j);
      }
      item := if i < 0 then None else Some(items[i]);
      if item.Some? { FirstIsAtIndex(items, n, item.value); }
    }

    method GetFirstItem(branch: Branch) returns (item: Option<Booking>)
      ensures item == Head(Items(branch))
    {
      var items := GetItems(branch, 1);
      item := if items == [] then None else Some(items[0]);
    }

    method GetLength(branch: Branch) returns (length: nat)
      ensures length == |Items(branch)|
    {
      length := if branch in docs then |docs[branch]| else 0;
    }

    /** Every queue of the owner goes, and no other. */
    method DeleteQueue(owner: string)
      modifies this
      ensures forall branch :: branch in docs <==> branch in old(docs) && branch.owner != owner
      ensures forall branch ::
                Items(branch) == if branch.owner == owner then [] else old(Items(branch))
    {
      docs := map branch | branch in docs && branch.owner != owner :: docs[branch];
    }
  }
}
