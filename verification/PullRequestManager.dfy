/** manager-pullrequest.js: the stored records, by number, of one owner and repository. */
module PullRequestManager {
  import opened Types

  function OrElse<T>(x: Option<T>, y: Option<T>): Option<T> {
    if x.Some? then x else y
  }

  /** `updateOne` with `$set` and `upsert`: fields of the patch win, the others stay. */
  function Merged(docs: map<nat, Record>, n: nat, patch: Record): map<nat, Record> {
    var was := if n in docs then docs[n] else Record(None, None);
    docs[n := Record(OrElse(patch.sha, was.sha), OrElse(patch.status, was.status))]
  }

  class PullRequestManager {
    var docs: map<nat, Record>

    constructor ()
      ensures docs == map[]
    {
      docs := map[];
    }

    method SetPullRequestInfo(n: nat, patch: Record)
      modifies this
      ensures docs == Merged(old(docs), n, patch)
    {
      var was := Record(None, None);
      if n in docs { was := docs[n]; }
      if patch.sha.Some? { was := was.(sha := patch.sha); }
      if patch.status.Some? { was := was.(status := patch.status); }
      docs := docs[n := was];
    }

    method GetPullRequestInfo(n: nat) returns (info: Option<Record>)
      ensures info == if n in docs then Some(docs[n]) else None
    {
      info := if n in docs then Some(docs[n]) else None;
    }

    /** Some record with this head commit, if there is any. */
    method GetPullRequestInfoBySha(sha: string) returns (found: Option<nat>)
      ensures match found
              case Some(n) => n in docs && docs[n].sha == Some(sha)
              case None => forall n :: n in docs ==> docs[n].sha != Some(sha)
    {
      var left := docs.Keys;
      while left != {}
        invariant left <= docs.Keys
        invariant forall n :: n in docs && n !in left ==> docs[n].sha != Some(sha)
        decreases left
      {
        var n :| n in left;
        if docs[n].sha == Some(sha) { return Some(n); }
        left := left - {n};
      }
      return None;
    }

    method DeletePullRequestInfo(n: nat)
      modifies this
      ensures docs == old(docs) - {n}
    {
      docs := docs - {n};
    }

    method DeletePullRequestInfos()
      modifies this
      ensures docs == map[]
    {
      docs := map[];
    }
  }
}
