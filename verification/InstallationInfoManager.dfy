/** manager-installation-info.js: a read-through cache of what GitHub answers about an
    installation, filled by token and emptied by installation. */
module InstallationInfoManager {
  import opened Types

  datatype Repository = Repository(fullName: string, permissions: string, rest: string)

  /** GitHub's answer for a token. */
  datatype Answer = Answer(totalCount: nat, repositories: seq<Repository>, clientId: string)

  datatype Picked = Picked(fullName: string, permissions: string)

  datatype Info = Info(totalCount: nat, repositories: seq<Picked>, clientId: string)

  datatype Key = Key(installationId: nat, token: string)

  function PickAll(rs: seq<Repository>): (picked: seq<Picked>)
    ensures |picked| == |rs|
    ensures forall i :: 0 <= i < |rs| ==> picked[i] == Picked(rs[i].fullName, rs[i].permissions)
  {
    if rs == [] then [] else [Picked(rs[0].fullName, rs[0].permissions)] + PickAll(rs[1..])
  }

  /** `evolve({ repositories: map(pick([...])) })` */
  function Project(a: Answer): Info {
    Info(a.totalCount, PickAll(a.repositories), a.clientId)
  }

  // ----- Reads, GitHub's answers and invalidations, interleaved -----

  /** A miss asks GitHub as operation `at`, and stores the answer later. */
  datatype Asked = Asked(key: Key, info: Info, at: nat)

  /** The stored infos, what GitHub would answer now, and the answers not stored yet. */
  datatype State = State(docs: map<Key, Info>, remote: map<Key, Answer>, asked: seq<Asked>)

  datatype Op =
    | Read(key: Key)
    | Store(i: nat)
    | RemoteChange(key: Key, answer: Answer)
    | Invalidate(installationId: nat)
    | Expire(key: Key)

  function Answered(remote: map<Key, Answer>, key: Key): Info {
    Project(if key in remote then remote[key] else Answer(0, [], ""))
  }

  function Dropped(docs: map<Key, Info>, installationId: nat): map<Key, Info> {
    map key | key in docs && key.installationId != installationId :: docs[key]
  }

  /** Operation number `now`. */
  function Apply(s: State, op: Op, now: nat): State {
    match op
    case Read(key) =>
      if key in s.docs then s else s.(asked := s.asked + [Asked(key, Answered(s.remote, key), now)])
    case Store(i) =>
      if i >= |s.asked| then s
      else s.(docs := s.docs[s.asked[i].key := s.asked[i].info], asked := s.asked[..i] + s.asked[i + 1..])
    case RemoteChange(key, answer) => s.(remote := s.remote[key := answer])
    case Invalidate(installationId) => s.(docs := Dropped(s.docs, installationId))
    case Expire(key) => s.(docs := s.docs - {key})
  }

  function StateAfter(ops: seq<Op>): State {
    if ops == [] then State(map[], map[], [])
    else Apply(StateAfter(ops[..|ops| - 1]), ops[|ops| - 1], |ops| - 1)
  }

  lemma StateAfterAppend(ops: seq<Op>, op: Op)
    ensures StateAfter(ops + [op]) == Apply(StateAfter(ops), op, |ops|)
  {
    assert (ops + [op])[..|ops|] == ops;
  }

  /** What GitHub answers after the first `s` operations. */
  function AnswerAfter(ops: seq<Op>, s: nat, key: Key): Info
    requires s <= |ops|
  {
    Answered(StateAfter(ops[..s]).remote, key)
  }

  // ----- Freshness -----

  /** GitHub answered with `info` after the first `s` of `ops`, and no invalidation followed. */
  ghost predicate AnsweredAt(ops: seq<Op>, s: nat, key: Key, info: Info)
    requires s <= |ops|
  {
    info == AnswerAfter(ops, s, key) &&
    forall j :: s <= j < |ops| ==> ops[j] != Invalidate(key.installationId)
  }

  /** GitHub answered so at some moment since the last invalidation of the installation. */
  ghost predicate Fresh(ops: seq<Op>, key: Key, info: Info) {
    exists s :: 0 <= s <= |ops| && AnsweredAt(ops, s, key, info)
  }

  lemma AnswerBefore(ops: seq<Op>, op: Op, s: nat, key: Key)
    requires s <= |ops|
    ensures AnswerAfter(ops + [op], s, key) == AnswerAfter(ops, s, key)
  {
    assert (ops + [op])[..s] == ops[..s];
  }

  lemma AnsweredStep(ops: seq<Op>, op: Op, s: nat, key: Key, info: Info)
    requires s <= |ops|
    ensures AnsweredAt(ops + [op], s, key, info) <==>
            AnsweredAt(ops, s, key, info) && op != Invalidate(key.installationId)
  {
    AnswerBefore(ops, op, s, key);
    assert (ops + [op])[|ops|] == op;
    if AnsweredAt(ops + [op], s, key, info) {
      assert forall j :: s <= j < |ops| ==> (ops + [op])[j] == ops[j];
    }
  }

  lemma FreshStep(ops: seq<Op>, op: Op, key: Key, info: Info)
    ensures Fresh(ops + [op], key, info) <==>
            info == Answered(StateAfter(ops + [op]).remote, key) ||
            (Fresh(ops, key, info) && op != Invalidate(key.installationId))
  {
    var ops' := ops + [op];
    assert ops'[..|ops'|] == ops';
    assert AnsweredAt(ops', |ops'|, key, info) <==> info == Answered(StateAfter(ops').remote, key);
    forall s | 0 <= s <= |ops|
      ensures AnsweredAt(ops', s, key, info) <==>
              AnsweredAt(ops, s, key, info) && op != Invalidate(key.installationId)
    {
      AnsweredStep(ops, op, s, key, info);
    }
  }

  // ----- Answers that wait to be stored -----

  /** Since the question the installation was invalidated, with GitHub answering otherwise at that
      moment and at every moment since. */
  ghost predicate Overtaken(ops: seq<Op>, ask: Asked) {
    exists v :: ask.at <= v < |ops| && Overtakes(ops, v, ask.key, ask.info)
  }

  ghost predicate Overtakes(ops: seq<Op>, v: nat, key: Key, info: Info)
    requires v < |ops|
  {
    ops[v] == Invalidate(key.installationId) &&
    forall s :: v < s <= |ops| ==> AnswerAfter(ops, s, key) != info
  }

  /** An answer waiting after a step is the read's own, or waited before it. */
  lemma AskedFrom(s: State, op: Op, now: nat, i: nat)
    requires i < |Apply(s, op, now).asked|
    ensures var ask, was := Apply(s, op, now).asked[i], if op.Store? && op.i <= i then i + 1 else i;
            if was >= |s.asked| then op.Read? && ask == Asked(op.key, Answered(s.remote, op.key), now)
            else ask == s.asked[was]
  {
  }

  lemma {:induction false} AskedBefore(ops: seq<Op>, i: nat)
    requires i < |StateAfter(ops).asked|
    ensures var ask := StateAfter(ops).asked[i];
            ask.at < |ops| && ops[ask.at] == Read(ask.key) && ask.info == AnswerAfter(ops, ask.at, ask.key)
  {
    var k := |ops| - 1;
    var pre, op := ops[..k], ops[k];
    AskedFrom(StateAfter(pre), op, k, i);
    var was := if op.Store? && op.i <= i then i + 1 else i;
    if was < |StateAfter(pre).asked| {
      AskedBefore(pre, was);
      assert pre[..StateAfter(pre).asked[was].at] == ops[..StateAfter(pre).asked[was].at];
    }
  }

  lemma {:induction false} LastInvalidation(ops: seq<Op>, id: nat, j: nat) returns (v: nat)
    requires j < |ops| && ops[j] == Invalidate(id)
    ensures j <= v < |ops| && ops[v] == Invalidate(id) && forall k :: v < k < |ops| ==> ops[k] != Invalidate(id)
    decreases |ops| - j
  {
    if k :| j < k < |ops| && ops[k] == Invalidate(id) { v := LastInvalidation(ops, id, k); } else { v := j; }
  }

  /** An answer not stored yet is overtaken exactly when it is no longer fresh. */
  lemma OvertakenExactly(ops: seq<Op>, i: nat)
    requires i < |StateAfter(ops).asked|
    ensures var ask := StateAfter(ops).asked[i]; Overtaken(ops, ask) <==> !Fresh(ops, ask.key, ask.info)
  {
    var ask := StateAfter(ops).asked[i];
    AskedBefore(ops, i);
    if Overtaken(ops, ask) {
      var v :| ask.at <= v < |ops| && Overtakes(ops, v, ask.key, ask.info);
      forall s | 0 <= s <= |ops| ensures !AnsweredAt(ops, s, ask.key, ask.info) {
        if s > v { assert AnswerAfter(ops, s, ask.key) != ask.info; }
      }
    }
    if !Fresh(ops, ask.key, ask.info) {
      assert !AnsweredAt(ops, ask.at, ask.key, ask.info);
      var j :| ask.at <= j < |ops| && ops[j] == Invalidate(ask.key.installationId);
      var v := LastInvalidation(ops, ask.key.installationId, j);
      forall s | v < s <= |ops| ensures AnswerAfter(ops, s, ask.key) != ask.info {
        assert !AnsweredAt(ops, s, ask.key, ask.info);
      }
      assert Overtakes(ops, v, ask.key, ask.info);
    }
  }

  lemma NowIsFresh(ops: seq<Op>, key: Key)
    ensures Fresh(ops, key, Answered(StateAfter(ops).remote, key))
  {
    assert ops[..|ops|] == ops;
    assert AnsweredAt(ops, |ops|, key, Answered(StateAfter(ops).remote, key));
  }

  /** At every moment, a read that finds an entry finds a fresh one. */
  ghost predicate ReadsFresh(ops: seq<Op>) {
    forall k, key :: 0 <= k <= |ops| && key in StateAfter(ops[..k]).docs ==>
      Fresh(ops[..k], key, StateAfter(ops[..k]).docs[key])
  }

  ghost predicate StoresOvertaken(ops: seq<Op>, op: Op) {
    op.Store? && op.i < |StateAfter(ops).asked| && Overtaken(ops, StateAfter(ops).asked[op.i])
  }

  /** No overtaken answer is stored. */
  ghost predicate Undisturbed(ops: seq<Op>) {
    forall k :: 0 <= k < |ops| ==> !StoresOvertaken(ops[..k], ops[k])
  }

  lemma UndisturbedBefore(ops: seq<Op>, k: nat)
    requires Undisturbed(ops) && k <= |ops|
    ensures Undisturbed(ops[..k])
  {
    forall j | 0 <= j < k ensures !StoresOvertaken(ops[..k][..j], ops[..k][j]) {
      assert ops[..k][..j] == ops[..j];
    }
  }

  /** An entry after a step was stored by it, or was there before and not dropped. */
  lemma StoredFrom(s: State, op: Op, now: nat, key: Key)
    requires key in Apply(s, op, now).docs
    ensures if op.Store? && op.i < |s.asked| && s.asked[op.i].key == key
            then Apply(s, op, now).docs[key] == s.asked[op.i].info
            else key in s.docs && Apply(s, op, now).docs[key] == s.docs[key] &&
                 op != Invalidate(key.installationId)
  {
  }

  lemma {:induction false} StoredIsFresh(ops: seq<Op>, key: Key)
    requires Undisturbed(ops) && key in StateAfter(ops).docs
    ensures Fresh(ops, key, StateAfter(ops).docs[key])
  {
    var pre, op := ops[..|ops| - 1], ops[|ops| - 1];
    assert ops == pre + [op];
    var s := StateAfter(pre);
    assert !StoresOvertaken(pre, ops[|ops| - 1]);
    StoredFrom(s, op, |pre|, key);
    FreshStep(pre, op, key, StateAfter(ops).docs[key]);
    if op.Store? && op.i < |s.asked| && s.asked[op.i].key == key {
      OvertakenExactly(pre, op.i);
    } else {
      UndisturbedBefore(ops, |pre|);
      StoredIsFresh(pre, key);
    }
  }

  lemma OvertakenStoreIsStale(ops: seq<Op>, op: Op)
    requires StoresOvertaken(ops, op)
    ensures var key, docs := StateAfter(ops).asked[op.i].key, StateAfter(ops + [op]).docs;
            key in docs && !Fresh(ops + [op], key, docs[key])
  {
    var ask := StateAfter(ops).asked[op.i];
    OvertakenExactly(ops, op.i);
    StateAfterAppend(ops, op);
    FreshStep(ops, op, ask.key, ask.info);
    NowIsFresh(ops, ask.key);
  }

  /** Whatever overlaps, reads find what GitHub answered for that token at some moment since the
      last invalidation of the installation if and only if no overtaken answer is stored. */
  lemma ReadsAreFreshExactly(ops: seq<Op>)
    ensures ReadsFresh(ops) <==> Undisturbed(ops)
  {
    if Undisturbed(ops) {
      forall k, key | 0 <= k <= |ops| && key in StateAfter(ops[..k]).docs
        ensures Fresh(ops[..k], key, StateAfter(ops[..k]).docs[key])
      {
        UndisturbedBefore(ops, k);
        StoredIsFresh(ops[..k], key);
      }
    }
    if !Undisturbed(ops) {
      var k :| 0 <= k < |ops| && StoresOvertaken(ops[..k], ops[k]);
      assert ops[..k + 1] == ops[..k] + [ops[k]];
      OvertakenStoreIsStale(ops[..k], ops[k]);
    }
  }

  /** No installation is invalidated while an answer for it waits to be stored. */
  ghost predicate InvalidatedBetweenReads(ops: seq<Op>) {
    forall k, i :: 0 <= k < |ops| && 0 <= i < |StateAfter(ops[..k]).asked| ==>
      ops[k] != Invalidate(StateAfter(ops[..k]).asked[i].key.installationId)
  }

  lemma BetweenReadsBefore(ops: seq<Op>, k: nat)
    requires InvalidatedBetweenReads(ops) && k <= |ops|
    ensures InvalidatedBetweenReads(ops[..k])
  {
    forall j, i | 0 <= j < k && 0 <= i < |StateAfter(ops[..k][..j]).asked|
      ensures ops[..k][j] != Invalidate(StateAfter(ops[..k][..j]).asked[i].key.installationId)
    {
      assert ops[..k][..j] == ops[..j];
    }
  }

  lemma {:induction false} NotInvalidatedSince(ops: seq<Op>, i: nat, v: nat)
    requires InvalidatedBetweenReads(ops) && i < |StateAfter(ops).asked|
    requires StateAfter(ops).asked[i].at <= v < |ops|
    ensures ops[v] != Invalidate(StateAfter(ops).asked[i].key.installationId)
  {
    var k := |ops| - 1;
    var pre, op := ops[..k], ops[k];
    var s := StateAfter(pre);
    AskedFrom(s, op, k, i);
    var was := if op.Store? && op.i <= i then i + 1 else i;
    if was < |s.asked| && v < k {
      BetweenReadsBefore(ops, k);
      NotInvalidatedSince(pre, was, v);
    }
  }

  /** Reads that no invalidation of their installation interrupts keep every read fresh. */
  lemma UninterruptedReadsAreFresh(ops: seq<Op>)
    requires InvalidatedBetweenReads(ops)
    ensures ReadsFresh(ops)
  {
    forall k | 0 <= k < |ops| ensures !StoresOvertaken(ops[..k], ops[k]) {
      BetweenReadsBefore(ops, k);
      if ops[k].Store? && ops[k].i < |StateAfter(ops[..k]).asked| {
        var ask := StateAfter(ops[..k]).asked[ops[k].i];
        forall v | ask.at <= v < k ensures ops[..k][v] != Invalidate(ask.key.installationId) {
          NotInvalidatedSince(ops[..k], ops[k].i, v);
        }
      }
    }
    ReadsAreFreshExactly(ops);
  }

  /** One that is interrupted can bring the old answer back after the invalidation. */
  lemma InterruptedReadIsStale(key: Key, answer: Answer)
    requires Project(answer) != Answered(map[], key)
    ensures !ReadsFresh([Read(key), RemoteChange(key, answer), Invalidate(key.installationId), Store(0)])
  {
    var a, b, c, d := Read(key), RemoteChange(key, answer), Invalidate(key.installationId), Store(0);
    var ops := [a, b, c, d];
    StateAfterAppend([], a);
    StateAfterAppend([a], b);
    StateAfterAppend([a, b], c);
    assert [a] + [b] == [a, b] && [a, b] + [c] == [a, b, c] && ops[..3] == [a, b, c];
    assert [a, b, c][..3] == [a, b, c];
    assert Overtakes([a, b, c], 2, key, Answered(map[], key));
    assert StoresOvertaken(ops[..3], ops[3]);
    ReadsAreFreshExactly(ops);
  }

  /** A read whose answer is stored at once leaves nothing waiting. */
  lemma ReadAlone(s: State, key: Key, now: nat)
    ensures Apply(Apply(s, Read(key), now), Store(|s.asked|), now + 1) ==
            if key in s.docs then s else s.(docs := s.docs[key := Answered(s.remote, key)])
  {
    if key !in s.docs {
      var asked := Apply(s, Read(key), now).asked;
      assert asked[..|s.asked|] + asked[|s.asked| + 1..] == s.asked;
    }
  }

  /** After an expiry or an invalidation the next read asks again, and is told what GitHub answers then. */
  lemma DroppedIsAskedAgain(s: State, op: Op, key: Key, now: nat)
    requires op == Expire(key) || op == Invalidate(key.installationId)
    ensures var asked := Apply(Apply(s, op, now), Read(key), now + 1).asked;
            asked == s.asked + [Asked(key, Answered(s.remote, key), now + 1)]
    ensures forall other :: other in s.docs && other.installationId != key.installationId ==>
              other in Apply(s, op, now).docs && Apply(s, op, now).docs[other] == s.docs[other]
  {
  }

  // ----- The manager -----

  class InstallationInfoManager {
    var docs: map<Key, Info>
    /** What GitHub would answer. */
    var remote: map<Key, Answer>

    /** The state, given the answers that other reads still have to store. */
    ghost function With(asked: seq<Asked>): State
      reads this
    {
      State(docs, remote, asked)
    }

    constructor (remote: map<Key, Answer>)
      ensures docs == map[] && this.remote == remote
    {
      docs := map[];
      this.remote := remote;
    }

    /** A read that nothing interrupts: it asks only on a miss, and stores what it was told. */
    method GetInstallationInfo(key: Key) returns (info: Info)
      modifies this
      ensures info == if key in old(docs) then old(docs)[key] else Answered(old(remote), key)
      ensures key in docs && docs[key] == info
      ensures key !in old(docs) && key in old(remote) ==>
                var answer := old(remote)[key];
                info.totalCount == answer.totalCount && info.clientId == answer.clientId &&
                |info.repositories| == |answer.repositories| &&
                forall i :: 0 <= i < |answer.repositories| ==>
                  info.repositories[i].fullName == answer.repositories[i].fullName &&
                  info.repositories[i].permissions == answer.repositories[i].permissions
      ensures key !in old(docs) && key !in old(remote) ==> info == Info(0, [], "")
      ensures forall asked, now: nat ::
                With(asked) == Apply(Apply(old(With(asked)), Read(key), now), Store(|asked|), now + 1)
    {
      if key in docs {
        info := docs[key];
      } else {
        info := Answered(remote, key);
        SetInstallationInfo(key, info);
      }
      forall asked, now: nat
        ensures With(asked) == Apply(Apply(old(With(asked)), Read(key), now), Store(|asked|), now + 1)
      {
        ReadAlone(old(With(asked)), key, now);
      }
    }

    /** The last step of a miss. */
    method SetInstallationInfo(key: Key, info: Info)
      modifies this
      ensures docs == old(docs)[key := info] && remote == old(remote)
      ensures forall asked: seq<Asked>, i: nat, now: nat ::
                i < |asked| && asked[i].key == key && asked[i].info == info ==>
                With(asked[..i] + asked[i + 1..]) == Apply(old(With(asked)), Store(i), now)
    {
      docs := docs[key := info];
    }

    method DeleteInstallationInfos(installationId: nat)
      modifies this
      ensures forall key :: key in docs <==> key in old(docs) && key.installationId != installationId
      ensures forall key :: key in docs ==> docs[key] == old(docs)[key]
      ensures forall asked, now: nat ::
                With(asked) == Apply(old(With(asked)), Invalidate(installationId), now)
    {
      docs := map key | key in docs && key.installationId != installationId :: docs[key];
    }
  }
}
