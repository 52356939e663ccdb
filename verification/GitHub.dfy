/** github.js: the combined state of a commit, and this app's check run on it. */
module GitHub {
  import opened Types
  import opened Lists

  // ----- getCombinedStatus -----

  const CHECK_SUITE_CONCLUSION_FAILURE := "failure"
  const STATUS_PENDING := "pending"
  const STATUS_FAILURE := "failure"

  function GetOr<T>(x: Option<T>, default: T): T {
    if x.Some? then x.value else default
  }

  /** Both responses may be missing; a suite without conclusion is still running. */
  function CombinedStatus(suites: Option<seq<Option<string>>>, state: Option<string>): Status {
    var conclusions := GetOr(suites, []);
    var githubStatus := GetOr(state, "");
    if Filter((c: Option<string>) => c.None?, conclusions) != [] || githubStatus == STATUS_PENDING then Pending
    else if Filter((c: Option<string>) => c == Some(CHECK_SUITE_CONCLUSION_FAILURE), conclusions) != []
            || githubStatus == STATUS_FAILURE then Failure
    else Success
  }

  /** The order success < failure < pending. */
  function Rank(s: Status): nat {
    match s case Success => 0 case Failure => 1 case Pending => 2
  }

  function Join(s: Status, t: Status): Status {
    if Rank(s) < Rank(t) then t else s
  }

  /** What one suite alone says: anything concluded but a failure counts as success. */
  function SuiteStatus(conclusion: Option<string>): Status {
    match conclusion
    case None => Pending
    case Some(c) => if c == "failure" then Failure else Success
  }

  /** What the commit status alone says: `error` and an unknown state count as success. */
  function CommitStatus(state: Option<string>): Status {
    if state == Some("pending") then Pending else if state == Some("failure") then Failure else Success
  }

  /** The status is an upper bound of all the parts, and one of them (or success). */
  ghost predicate IsJoin(r: Status, conclusions: seq<Option<string>>, state: Option<string>) {
    && (forall c :: c in conclusions ==> Rank(SuiteStatus(c)) <= Rank(r))
    && Rank(CommitStatus(state)) <= Rank(r)
    && (r == CommitStatus(state) || exists c :: c in conclusions && SuiteStatus(c) == r)
  }

  /** The combined status is the join of its parts under success < failure < pending. */
  lemma CombinedIsJoin(suites: Option<seq<Option<string>>>, state: Option<string>)
    ensures IsJoin(CombinedStatus(suites, state), GetOr(suites, []), state)
  {
    var conclusions := GetOr(suites, []);
    var none, fail := (c: Option<string>) => c.None?, (c: Option<string>) => c == Some(CHECK_SUITE_CONCLUSION_FAILURE);
    FilterSome(none, conclusions);
    FilterSome(fail, conclusions);
    var r := CombinedStatus(suites, state);
    if r.Pending? && state != Some("pending") {
      var c :| c in conclusions && none(c);
      assert SuiteStatus(c) == r;
    }
    if r.Failure? && state != Some("failure") {
      var c :| c in conclusions && fail(c);
      assert SuiteStatus(c) == r;
    }
    forall c | c in conclusions ensures Rank(SuiteStatus(c)) <= Rank(r) {
      assert none(c) ==> r.Pending?;
      assert fail(c) ==> Rank(r) >= 1;
    }
  }

  lemma JoinIsUnique(r: Status, s: Status, xs: seq<Option<string>>, ys: seq<Option<string>>, state: Option<string>)
    requires IsJoin(r, xs, state) && IsJoin(s, ys, state)
    requires forall x :: x in xs <==> x in ys
    ensures r == s
  {
  }

  /** Neither the order nor the repetition of suites matters. */
  lemma CombinedIgnoresOrder(xs: seq<Option<string>>, ys: seq<Option<string>>, state: Option<string>)
    requires multiset(xs) == multiset(ys)
    ensures CombinedStatus(Some(xs), state) == CombinedStatus(Some(ys), state)
  {
    CombinedIsJoin(Some(xs), state);
    CombinedIsJoin(Some(ys), state);
    forall x ensures x in xs <==> x in ys { assert x in multiset(xs) <==> x in multiset(ys); }
    JoinIsUnique(CombinedStatus(Some(xs), state), CombinedStatus(Some(ys), state), xs, ys, state);
  }

  /** Two batches of suites may be combined apart and joined. */
  lemma CombinedDistributes(xs: seq<Option<string>>, ys: seq<Option<string>>, state: Option<string>)
    ensures CombinedStatus(Some(xs + ys), state) ==
            Join(CombinedStatus(Some(xs), state), CombinedStatus(Some(ys), state))
  {
    var a, b := CombinedStatus(Some(xs), state), CombinedStatus(Some(ys), state);
    CombinedIsJoin(Some(xs), state);
    CombinedIsJoin(Some(ys), state);
    CombinedIsJoin(Some(xs + ys), state);
    var j := Join(a, b);
    assert forall c :: c in xs + ys <==> c in xs || c in ys;
    if j != CommitStatus(state) {
      if j == a { var c :| c in xs && SuiteStatus(c) == j; assert c in xs + ys; }
      else { var c :| c in ys && SuiteStatus(c) == j; assert c in xs + ys; }
    }
    assert IsJoin(j, xs + ys, state);
    JoinIsUnique(CombinedStatus(Some(xs + ys), state), j, xs + ys, xs + ys, state);
  }

  /** Everything answered and everything succeeded. */
  predicate Earned(suites: Option<seq<Option<string>>>, state: Option<string>) {
    suites.Some? && state == Some("success") && forall c :: c in suites.value ==> c == Some("success")
  }

  /** Nothing is known to be running or to have failed. */
  predicate Uncontradicted(suites: Option<seq<Option<string>>>, state: Option<string>) {
    None !in GetOr(suites, []) && Some("failure") !in GetOr(suites, []) &&
    state != Some("pending") && state != Some("failure")
  }

  /** A request failed, the state is one the program does not know (`error`), or a suite concluded with
      neither success nor failure (`timed_out`, `cancelled`, `action_required`). */
  predicate Unproven(suites: Option<seq<Option<string>>>, state: Option<string>) {
    suites.None? || state.None? || state.value !in ["success", "failure", "pending"] ||
    exists c :: c in suites.value && c.Some? && c.value !in ["success", "failure"]
  }

  /** Success is reported exactly when nothing contradicts it; it has not been earned exactly when
      moreover something is unproven. */
  lemma UnearnedSuccessExactly(suites: Option<seq<Option<string>>>, state: Option<string>)
    ensures CombinedStatus(suites, state) == Success <==> Uncontradicted(suites, state)
    ensures CombinedStatus(suites, state) == Success && !Earned(suites, state) <==>
            Uncontradicted(suites, state) && Unproven(suites, state)
  {
    var conclusions := GetOr(suites, []);
    var none, fail := (c: Option<string>) => c.None?, (c: Option<string>) => c == Some(CHECK_SUITE_CONCLUSION_FAILURE);
    FilterSome(none, conclusions);
    FilterSome(fail, conclusions);
    if None in conclusions { assert none(None); }
    if Some("failure") in conclusions { assert fail(Some("failure")); }
    if Uncontradicted(suites, state) && !Unproven(suites, state) {
      forall c | c in suites.value ensures c == Some("success") {
        assert c.Some?;
      }
    }
  }

  /** Two inputs it happens for: both requests failed, and nothing that ran succeeded. */
  lemma UnearnedSuccessWitnesses()
    ensures CombinedStatus(None, None) == Success && !Earned(None, None)
    ensures var suites := Some([Some("timed_out"), Some("cancelled")]);
            CombinedStatus(suites, Some("error")) == Success && !Earned(suites, Some("error"))
  {
    UnearnedSuccessExactly(None, None);
    var suites := Some([Some("timed_out"), Some("cancelled")]);
    UnearnedSuccessExactly(suites, Some("error"));
    assert suites.value[0] in suites.value;
  }

  // ----- Check runs -----

  datatype CheckRun = CheckRun(id: nat, app: nat, sha: string, check: Check)

  function On(app: nat, sha: string): CheckRun -> bool {
    (run: CheckRun) => run.app == app && run.sha == sha
  }

  function NotOn(app: nat, sha: string): CheckRun -> bool {
    (run: CheckRun) => !(run.app == app && run.sha == sha)
  }

  function NotOf(app: nat): CheckRun -> bool {
    (run: CheckRun) => run.app != app
  }

  /** `getCheckRunsForSha`: the runs of one app on one commit, in GitHub's order. */
  function RunsOf(runs: seq<CheckRun>, app: nat, sha: string): seq<CheckRun> {
    Filter(On(app, sha), runs)
  }

  /** All the runs that are not this app's on this commit, in order. */
  function OtherRuns(runs: seq<CheckRun>, app: nat, sha: string): seq<CheckRun> {
    Filter(NotOn(app, sha), runs)
  }

  /** The runs of the other apps, in order. */
  function Foreign(runs: seq<CheckRun>, app: nat): seq<CheckRun> {
    Filter(NotOf(app), runs)
  }

  /** What each commit shows for the app: its first run there. */
  function ChecksOf(runs: seq<CheckRun>, app: nat): map<string, Check> {
    if runs == [] then map[]
    else
      var rest := ChecksOf(runs[1..], app);
      if runs[0].app == app then rest[runs[0].sha := runs[0].check] else rest
  }

  /** `PATCH check-runs/:id` */
  function Patch(runs: seq<CheckRun>, id: nat, sha: string, check: Check): seq<CheckRun> {
    if runs == [] then []
    else [if runs[0].id == id then runs[0].(sha := sha, check := check) else runs[0]]
         + Patch(runs[1..], id, sha, check)
  }

  ghost predicate DistinctIds(runs: seq<CheckRun>) {
    forall i, j :: 0 <= i < j < |runs| ==> runs[i].id != runs[j].id
  }

  /** `createCheckRunForPullRequest`: update the app's first run on the commit, or create one. */
  function Upserted(runs: seq<CheckRun>, newId: nat, app: nat, sha: string, check: Check): seq<CheckRun> {
    var found := RunsOf(runs, app, sha);
    if found == [] then runs + [CheckRun(newId, app, sha, check)]
    else Patch(runs, found[0].id, sha, check)
  }

  lemma {:induction false} PatchMisses(runs: seq<CheckRun>, id: nat, sha: string, check: Check)
    requires forall i :: 0 <= i < |runs| ==> runs[i].id != id
    ensures Patch(runs, id, sha, check) == runs
  {
    if runs != [] { PatchMisses(runs[1..], id, sha, check); }
  }

  lemma {:induction false} ChecksOfAppend(xs: seq<CheckRun>, ys: seq<CheckRun>, app: nat)
    ensures ChecksOf(xs + ys, app) == ChecksOf(ys, app) + ChecksOf(xs, app)
  {
    if xs == [] {
      assert xs + ys == ys;
    } else {
      ChecksOfAppend(xs[1..], ys, app);
      assert (xs + ys)[1..] == xs[1..] + ys;
    }
  }

  lemma {:induction false} ShownIffFound(runs: seq<CheckRun>, app: nat, sha: string)
    ensures sha in ChecksOf(runs, app) <==> RunsOf(runs, app, sha) != []
  {
    if runs != [] { ShownIffFound(runs[1..], app, sha); }
  }

  lemma {:induction false} FoundIsRun(runs: seq<CheckRun>, app: nat, sha: string)
    ensures forall run :: run in RunsOf(runs, app, sha) ==> run in runs && run.app == app && run.sha == sha
  {
    if runs != [] { FoundIsRun(runs[1..], app, sha); }
  }

  lemma {:induction false} PatchKeepsIds(runs: seq<CheckRun>, id: nat, sha: string, check: Check)
    ensures var runs' := Patch(runs, id, sha, check);
            |runs'| == |runs| && forall i :: 0 <= i < |runs| ==> runs'[i].id == runs[i].id
  {
    if runs != [] { PatchKeepsIds(runs[1..], id, sha, check); }
  }

  lemma {:induction false} PatchFirst(runs: seq<CheckRun>, app: nat, sha: string, check: Check)
    requires DistinctIds(runs) && RunsOf(runs, app, sha) != []
    ensures var runs' := Patch(runs, RunsOf(runs, app, sha)[0].id, sha, check);
            ChecksOf(runs', app) == ChecksOf(runs, app)[sha := check] &&
            OtherRuns(runs', app, sha) == OtherRuns(runs, app, sha) &&
            |RunsOf(runs', app, sha)| == |RunsOf(runs, app, sha)|
  {
    var id := RunsOf(runs, app, sha)[0].id;
    var runs' := Patch(runs, id, sha, check);
    if On(app, sha)(runs[0]) {
      PatchMisses(runs[1..], id, sha, check);
      assert runs'[1..] == runs[1..];
    } else {
      FoundIsRun(runs[1..], app, sha);
      assert RunsOf(runs[1..], app, sha)[0] in runs[1..];
      PatchFirst(runs[1..], app, sha, check);
      assert runs'[0] == runs[0] && runs'[1..] == Patch(runs[1..], id, sha, check);
    }
  }

  lemma CreatedShows(runs: seq<CheckRun>, newId: nat, app: nat, sha: string, check: Check)
    requires RunsOf(runs, app, sha) == []
    ensures var runs' := runs + [CheckRun(newId, app, sha, check)];
            ChecksOf(runs', app) == ChecksOf(runs, app)[sha := check] &&
            OtherRuns(runs', app, sha) == OtherRuns(runs, app, sha) && |RunsOf(runs', app, sha)| == 1
  {
    var added := [CheckRun(newId, app, sha, check)];
    FilterAppend(On(app, sha), runs, added);
    FilterAppend(NotOn(app, sha), runs, added);
    ChecksOfAppend(runs, added, app);
    assert added[1..] == [];
    assert Filter(On(app, sha), added) == added && Filter(NotOn(app, sha), added) == [];
    ShownIffFound(runs, app, sha);
  }

  /** One write: the commit shows it, every other run stays in place, and a second run of the
      app on the commit never appears. */
  lemma UpsertedShows(runs: seq<CheckRun>, newId: nat, app: nat, sha: string, check: Check)
    requires DistinctIds(runs) && (forall run :: run in runs ==> run.id < newId)
    ensures var runs' := Upserted(runs, newId, app, sha, check);
            ChecksOf(runs', app) == ChecksOf(runs, app)[sha := check] &&
            OtherRuns(runs', app, sha) == OtherRuns(runs, app, sha) &&
            |RunsOf(runs', app, sha)| == (if |RunsOf(runs, app, sha)| == 0 then 1 else |RunsOf(runs, app, sha)|)
  {
    if RunsOf(runs, app, sha) == [] {
      CreatedShows(runs, newId, app, sha, check);
    } else {
      PatchFirst(runs, app, sha, check);
    }
  }

  lemma UpsertedIds(runs: seq<CheckRun>, newId: nat, app: nat, sha: string, check: Check)
    requires DistinctIds(runs) && (forall run :: run in runs ==> run.id < newId)
    ensures var runs' := Upserted(runs, newId, app, sha, check);
            DistinctIds(runs') && (forall run :: run in runs' ==> run.id <= newId)
  {
    if RunsOf(runs, app, sha) != [] { PatchKeepsIds(runs, RunsOf(runs, app, sha)[0].id, sha, check); }
  }

  // ----- Histories of writes -----

  /** A write of this app, or a run some other app adds. */
  datatype Call = Ours(sha: string, check: Check) | Theirs(app: nat, sha: string, check: Check)

  datatype Remote = Remote(runs: seq<CheckRun>, nextId: nat)

  ghost predicate ValidRemote(r: Remote) {
    DistinctIds(r.runs) && forall run :: run in r.runs ==> run.id < r.nextId
  }

  function Serve(r: Remote, app: nat, call: Call): Remote {
    match call
    case Ours(sha, check) => Remote(Upserted(r.runs, r.nextId, app, sha, check), r.nextId + 1)
    case Theirs(other, sha, check) =>
      if other == app then r
      else Remote(r.runs + [CheckRun(r.nextId, other, sha, check)], r.nextId + 1)
  }

  function ServeAll(r: Remote, app: nat, calls: seq<Call>): Remote {
    if calls == [] then r else Serve(ServeAll(r, app, calls[..|calls| - 1]), app, calls[|calls| - 1])
  }

  /** The last check this app wrote to a commit. */
  function LastOurs(calls: seq<Call>, sha: string): Option<Check> {
    if calls == [] then None
    else
      var last := calls[|calls| - 1];
      if last.Ours? && last.sha == sha then Some(last.check) else LastOurs(calls[..|calls| - 1], sha)
  }

  /** What the other apps added, in order: a history with this app's writes left out. */
  function ForeignCalls(r: Remote, app: nat, calls: seq<Call>): seq<CheckRun> {
    if calls == [] then Foreign(r.runs, app)
    else
      var pre, last := calls[..|calls| - 1], calls[|calls| - 1];
      ForeignCalls(r, app, pre) +
      (if last.Theirs? && last.app != app
       then [CheckRun(ServeAll(r, app, pre).nextId, last.app, last.sha, last.check)] else [])
  }

  /** Over any serial history of writes there is at most one run of this app per commit, and it
      shows the last write to that commit. */
  lemma {:induction false} OneRunPerCommit(r: Remote, app: nat, calls: seq<Call>, sha: string)
    requires ValidRemote(r) && |RunsOf(r.runs, app, sha)| <= 1
    ensures var r' := ServeAll(r, app, calls);
            ValidRemote(r') && |RunsOf(r'.runs, app, sha)| <= 1 &&
            match LastOurs(calls, sha)
            case Some(check) => sha in ChecksOf(r'.runs, app) && ChecksOf(r'.runs, app)[sha] == check
            case None => RunsOf(r'.runs, app, sha) == RunsOf(r.runs, app, sha)
  {
    if calls != [] {
      var pre, last := calls[..|calls| - 1], calls[|calls| - 1];
      var mid := ServeAll(r, app, pre);
      OneRunPerCommit(r, app, pre, sha);
      match last {
        case Ours(s, check) =>
          UpsertedShows(mid.runs, mid.nextId, app, s, check);
          UpsertedIds(mid.runs, mid.nextId, app, s, check);
          if s != sha {
            FilterFilter(On(app, sha), NotOn(app, s), Upserted(mid.runs, mid.nextId, app, s, check));
            FilterFilter(On(app, sha), NotOn(app, s), mid.runs);
          }
        case Theirs(other, s, check) =>
          var added := [CheckRun(mid.nextId, other, s, check)];
          FilterAppend(On(app, sha), mid.runs, added);
          ChecksOfAppend(mid.runs, added, app);
          if other != app { assert RunsOf(added, app, sha) == [] && ChecksOf(added, app) == map[]; }
      }
    }
  }

  /** The same history leaves the runs of the other apps exactly as those apps left them. */
  lemma {:induction false} ForeignRunsUntouched(r: Remote, app: nat, calls: seq<Call>)
    requires ValidRemote(r)
    ensures var r' := ServeAll(r, app, calls);
            ValidRemote(r') && Foreign(r'.runs, app) == ForeignCalls(r, app, calls)
  {
    if calls != [] {
      var pre, last := calls[..|calls| - 1], calls[|calls| - 1];
      var mid := ServeAll(r, app, pre);
      ForeignRunsUntouched(r, app, pre);
      match last {
        case Ours(s, check) =>
          UpsertedShows(mid.runs, mid.nextId, app, s, check);
          UpsertedIds(mid.runs, mid.nextId, app, s, check);
          FilterFilter(NotOf(app), NotOn(app, s), Upserted(mid.runs, mid.nextId, app, s, check));
          FilterFilter(NotOf(app), NotOn(app, s), mid.runs);
        case Theirs(other, s, check) =>
          var added := [CheckRun(mid.nextId, other, s, check)];
          FilterAppend(NotOf(app), mid.runs, added);
          if other != app { assert Foreign(added, app) == added; }
      }
    }
  }

  // ----- Overlapping writes -----

  /** A write between its lookup and its answer: which run it found, if any. */
  datatype Lookup = Lookup(sha: string, check: Check, found: Option<nat>)

  /** The remote, and the writes that have looked and not yet acted. */
  datatype Race = Race(remote: Remote, open: seq<Lookup>)

  datatype Move =
    | Look(sha: string, check: Check, answered: bool)
    | Act(i: nat)
    | Elsewhere(app: nat, sha: string, check: Check)

  /** `getCheckRunsForSha` and the choice of the first run found; a failed request finds none. */
  function LookedUp(r: Remote, app: nat, sha: string, check: Check, answered: bool): Lookup {
    var runs := if answered then RunsOf(r.runs, app, sha) else [];
    Lookup(sha, check, if runs == [] then None else Some(runs[0].id))
  }

  /** Create, or patch the run found. */
  function Acted(r: Remote, app: nat, l: Lookup): Remote {
    match l.found
    case None => Remote(r.runs + [CheckRun(r.nextId, app, l.sha, l.check)], r.nextId + 1)
    case Some(id) => Remote(Patch(r.runs, id, l.sha, l.check), r.nextId)
  }

  function Moved(race: Race, app: nat, move: Move): Race {
    match move
    case Look(sha, check, answered) =>
      race.(open := race.open + [LookedUp(race.remote, app, sha, check, answered)])
    case Act(i) =>
      if i >= |race.open| then race
      else Race(Acted(race.remote, app, race.open[i]), TakeOut(race.open, i))
    case Elsewhere(other, sha, check) => race.(remote := Serve(race.remote, app, Theirs(other, sha, check)))
  }

  function MovedAll(race: Race, app: nat, moves: seq<Move>): Race
    decreases moves
  {
    if moves == [] then race else MovedAll(Moved(race, app, moves[0]), app, moves[1..])
  }

  /** A write to `sha` that found no run. */
  function Empty(sha: string): Lookup -> bool {
    (l: Lookup) => l.sha == sha && l.found.None?
  }

  function OpenEmpty(race: Race, sha: string): nat {
    |Filter(Empty(sha), race.open)|
  }

  /** This move looks for a run on `sha` and finds none. */
  predicate FindsNone(race: Race, app: nat, sha: string, move: Move) {
    move.Look? && move.sha == sha && (!move.answered || RunsOf(race.remote.runs, app, sha) == [])
  }

  function EmptyLooks(race: Race, app: nat, sha: string, moves: seq<Move>): nat
    decreases moves
  {
    if moves == [] then 0
    else (if FindsNone(race, app, sha, moves[0]) then 1 else 0)
         + EmptyLooks(Moved(race, app, moves[0]), app, sha, moves[1..])
  }

  /** A lookup for `sha` runs while another that found nothing has not created its run yet, or
      fails although there is a run. */
  predicate Misses(race: Race, app: nat, sha: string, move: Move) {
    move.Look? && move.sha == sha &&
    (OpenEmpty(race, sha) > 0 || (!move.answered && RunsOf(race.remote.runs, app, sha) != []))
  }

  ghost predicate Misled(race: Race, app: nat, sha: string, moves: seq<Move>)
    decreases moves
  {
    moves != [] &&
    (Misses(race, app, sha, moves[0]) || Misled(Moved(race, app, moves[0]), app, sha, moves[1..]))
  }

  /** A lookup that found something found a run of this app on its commit. */
  ghost predicate Sound(r: Remote, app: nat, l: Lookup) {
    l.found.Some? ==> exists run :: run in r.runs && run.id == l.found.value && run.app == app && run.sha == l.sha
  }

  ghost predicate ValidRace(race: Race, app: nat) {
    ValidRemote(race.remote) && forall l :: l in race.open ==> Sound(race.remote, app, l)
  }

  /** Patching a run of the commit moves no run to or from any commit. */
  lemma {:induction false} PatchInPlace(
    runs: seq<CheckRun>, app: nat, id: nat, sha: string, check: Check, other: string)
    requires DistinctIds(runs)
    requires forall run :: run in runs && run.id == id ==> run.app == app && run.sha == sha
    ensures |RunsOf(Patch(runs, id, sha, check), app, other)| == |RunsOf(runs, app, other)|
  {
    if runs != [] { PatchInPlace(runs[1..], app, id, sha, check, other); }
  }

  lemma {:induction false} PatchMembers(runs: seq<CheckRun>, id: nat, sha: string, check: Check, run: CheckRun)
    requires run in runs
    ensures (if run.id == id then run.(sha := sha, check := check) else run) in Patch(runs, id, sha, check)
  {
    if run != runs[0] { PatchMembers(runs[1..], id, sha, check, run); }
  }

  lemma PatchKeepsSound(r: Remote, app: nat, l: Lookup, m: Lookup)
    requires DistinctIds(r.runs) && l.found.Some? && Sound(r, app, l) && Sound(r, app, m)
    ensures Sound(Acted(r, app, l), app, m)
  {
    if m.found.Some? {
      var run :| run in r.runs && run.id == m.found.value && run.app == app && run.sha == m.sha;
      var hit :| hit in r.runs && hit.id == l.found.value && hit.app == app && hit.sha == l.sha;
      assert run.id == hit.id ==> run == hit;
      PatchMembers(r.runs, hit.id, l.sha, l.check, run);
    }
  }

  lemma CreateKeepsSound(r: Remote, run: CheckRun, app: nat, m: Lookup)
    requires Sound(r, app, m)
    ensures Sound(Remote(r.runs + [run], r.nextId + 1), app, m)
  {
    if m.found.Some? {
      var found :| found in r.runs && found.id == m.found.value && found.app == app && found.sha == m.sha;
      assert found in r.runs + [run];
    }
  }

  lemma PatchKeepsRemote(r: Remote, id: nat, sha: string, check: Check)
    requires ValidRemote(r)
    ensures ValidRemote(Remote(Patch(r.runs, id, sha, check), r.nextId))
  {
    var runs' := Patch(r.runs, id, sha, check);
    PatchKeepsIds(r.runs, id, sha, check);
    forall run | run in runs' ensures run.id < r.nextId {
      var i :| 0 <= i < |runs'| && runs'[i] == run;
      assert r.runs[i] in r.runs;
    }
  }

  lemma ActKeepsValid(race: Race, app: nat, l: Lookup)
    requires ValidRace(race, app) && l in race.open
    ensures ValidRace(Race(Acted(race.remote, app, l), race.open), app)
  {
    var r := race.remote;
    assert Sound(r, app, l);
    if l.found.Some? { PatchKeepsRemote(r, l.found.value, l.sha, l.check); }
    forall m | m in race.open ensures Sound(Acted(r, app, l), app, m) {
      assert Sound(r, app, m);
      if l.found.Some? { PatchKeepsSound(r, app, l, m); }
      else { CreateKeepsSound(r, CheckRun(r.nextId, app, l.sha, l.check), app, m); }
    }
  }

  /** Runs of the commit, those about to be created included. */
  function Claims(race: Race, app: nat, sha: string): nat {
    |RunsOf(race.remote.runs, app, sha)| + OpenEmpty(race, sha)
  }

  /** Acting turns a creation into a run, and leaves the number of runs otherwise. */
  lemma ActedRuns(race: Race, app: nat, l: Lookup, sha: string)
    requires ValidRace(race, app) && l in race.open
    ensures |RunsOf(Acted(race.remote, app, l).runs, app, sha)| ==
            |RunsOf(race.remote.runs, app, sha)| + if Empty(sha)(l) then 1 else 0
  {
    if l.found.None? {
      var added := [CheckRun(race.remote.nextId, app, l.sha, l.check)];
      FilterAppend(On(app, sha), race.remote.runs, added);
      assert added[1..] == [];
    } else {
      assert Sound(race.remote, app, l);
      PatchInPlace(race.remote.runs, app, l.found.value, l.sha, l.check, sha);
    }
  }

  lemma ActKeepsClaims(race: Race, app: nat, i: nat, sha: string)
    requires ValidRace(race, app) && i < |race.open|
    ensures ValidRace(Moved(race, app, Act(i)), app)
    ensures Claims(Moved(race, app, Act(i)), app, sha) == Claims(race, app, sha)
  {
    ActKeepsValid(race, app, race.open[i]);
    ActedRuns(race, app, race.open[i], sha);
    FilterTakeOut(Empty(sha), race.open, i);
  }

  lemma LookClaims(race: Race, app: nat, look: Move, sha: string)
    requires ValidRace(race, app) && look.Look?
    ensures ValidRace(Moved(race, app, look), app)
    ensures Claims(Moved(race, app, look), app, sha) ==
            Claims(race, app, sha) + if FindsNone(race, app, sha, look) then 1 else 0
  {
    var l := LookedUp(race.remote, app, look.sha, look.check, look.answered);
    FilterAppend(Empty(sha), race.open, [l]);
    assert [l][1..] == [];
    FoundIsRun(race.remote.runs, app, look.sha);
    if l.found.Some? { assert RunsOf(race.remote.runs, app, look.sha)[0] in race.remote.runs; }
    assert Sound(race.remote, app, l);
  }

  lemma TheirsClaims(race: Race, app: nat, move: Move, sha: string)
    requires ValidRace(race, app) && move.Elsewhere?
    ensures ValidRace(Moved(race, app, move), app)
    ensures Claims(Moved(race, app, move), app, sha) == Claims(race, app, sha)
  {
    var r := race.remote;
    var run := CheckRun(r.nextId, move.app, move.sha, move.check);
    if move.app != app {
      FilterAppend(On(app, sha), r.runs, [run]);
      assert [run][1..] == [];
      forall l | l in race.open ensures Sound(Remote(r.runs + [run], r.nextId + 1), app, l) {
        CreateKeepsSound(r, run, app, l);
      }
    }
  }

  lemma MoveClaims(race: Race, app: nat, move: Move, sha: string)
    requires ValidRace(race, app)
    ensures ValidRace(Moved(race, app, move), app)
    ensures Claims(Moved(race, app, move), app, sha) ==
            Claims(race, app, sha) + if FindsNone(race, app, sha, move) then 1 else 0
  {
    match move
    case Look(_, _, _) => LookClaims(race, app, move, sha);
    case Act(i) => if i < |race.open| { ActKeepsClaims(race, app, i, sha); }
    case Elsewhere(_, _, _) => TheirsClaims(race, app, move, sha);
  }

  /** However the writes overlap, every lookup that finds nothing ends as one more run. */
  lemma {:induction false} RunsAreEmptyLooks(race: Race, app: nat, sha: string, moves: seq<Move>)
    requires ValidRace(race, app)
    ensures Claims(MovedAll(race, app, moves), app, sha) == Claims(race, app, sha) + EmptyLooks(race, app, sha, moves)
    decreases moves
  {
    if moves != [] {
      MoveClaims(race, app, moves[0], sha);
      RunsAreEmptyLooks(Moved(race, app, moves[0]), app, sha, moves[1..]);
    }
  }

  /** From at most one claim on, there is a second exactly when a lookup misses the first. */
  lemma {:induction false} SecondClaimIsMissed(race: Race, app: nat, sha: string, moves: seq<Move>)
    requires ValidRace(race, app) && Claims(race, app, sha) <= 1
    ensures Claims(race, app, sha) + EmptyLooks(race, app, sha, moves) <= 1 <==> !Misled(race, app, sha, moves)
    decreases moves
  {
    if moves != [] {
      var race' := Moved(race, app, moves[0]);
      MoveClaims(race, app, moves[0], sha);
      if Claims(race', app, sha) <= 1 { SecondClaimIsMissed(race', app, sha, moves[1..]); }
    }
  }

  /** Once all writes have acted, the app has at most one run on the commit exactly when no lookup
      ran while another that had found nothing was still to create its run, and none failed although
      there was a run. */
  lemma OverlappingWritesExactly(r: Remote, app: nat, sha: string, moves: seq<Move>)
    requires ValidRemote(r) && |RunsOf(r.runs, app, sha)| <= 1
    requires MovedAll(Race(r, []), app, moves).open == []
    ensures |RunsOf(MovedAll(Race(r, []), app, moves).remote.runs, app, sha)|
         == |RunsOf(r.runs, app, sha)| + EmptyLooks(Race(r, []), app, sha, moves)
    ensures |RunsOf(MovedAll(Race(r, []), app, moves).remote.runs, app, sha)| <= 1
            <==> !Misled(Race(r, []), app, sha, moves)
  {
    RunsAreEmptyLooks(Race(r, []), app, sha, moves);
    SecondClaimIsMissed(Race(r, []), app, sha, moves);
  }

  // ----- What each run shows -----

  /** What a move writes to run `id` of this app, if it writes to it. */
  function Written(race: Race, move: Move, id: nat): Option<Lookup> {
    if !move.Act? || move.i >= |race.open| then None
    else
      var l := race.open[move.i];
      if id == (if l.found.Some? then l.found.value else race.remote.nextId) then Some(l) else None
  }

  function LastWritten(race: Race, app: nat, moves: seq<Move>, id: nat): Option<Lookup>
    decreases moves
  {
    if moves == [] then None
    else
      var later := LastWritten(Moved(race, app, moves[0]), app, moves[1..], id);
      if later.Some? then later else Written(race, moves[0], id)
  }

  lemma {:induction false} PatchedFrom(runs: seq<CheckRun>, id: nat, sha: string, check: Check, run: CheckRun)
    requires run in Patch(runs, id, sha, check)
    ensures exists was :: was in runs && run == if was.id == id then was.(sha := sha, check := check) else was
  {
    var head := if runs[0].id == id then runs[0].(sha := sha, check := check) else runs[0];
    if run == head {
      assert runs[0] in runs;
    } else {
      PatchedFrom(runs[1..], id, sha, check, run);
      var was :| was in runs[1..] && run == if was.id == id then was.(sha := sha, check := check) else was;
      assert was in runs;
    }
  }

  /** A run of the app was written so, or was there before. */
  ghost predicate Explained(race: Race, was: Option<Lookup>, run: CheckRun) {
    match was
    case Some(l) => run.sha == l.sha && run.check == l.check
    case None => run in race.remote.runs
  }

  lemma MoveExplains(race: Race, app: nat, move: Move, run: CheckRun)
    requires ValidRace(race, app) && run in Moved(race, app, move).remote.runs && run.app == app
    ensures Explained(race, Written(race, move, run.id), run)
  {
    if move.Act? && move.i < |race.open| {
      var l, runs := race.open[move.i], race.remote.runs;
      assert l in race.open && Sound(race.remote, app, l);
      if l.found.Some? {
        PatchedFrom(runs, l.found.value, l.sha, l.check, run);
        var was :| was in runs && run == if was.id == l.found.value then was.(sha := l.sha, check := l.check) else was;
        var found :| found in runs && found.id == l.found.value && found.app == app && found.sha == l.sha;
        assert was.id == found.id ==> was == found;
      }
    }
  }

  /** However the writes overlap, each run of the app shows the commit and the check of the last write
      that was aimed at it; the runs nobody wrote to are as they were. */
  lemma {:induction false} RunsShowTheirLastWrite(race: Race, app: nat, moves: seq<Move>, run: CheckRun)
    requires ValidRace(race, app) && run in MovedAll(race, app, moves).remote.runs && run.app == app
    ensures Explained(race, LastWritten(race, app, moves, run.id), run)
    decreases moves
  {
    if moves != [] {
      MoveClaims(race, app, moves[0], "");
      RunsShowTheirLastWrite(Moved(race, app, moves[0]), app, moves[1..], run);
      if LastWritten(Moved(race, app, moves[0]), app, moves[1..], run.id).None? {
        MoveExplains(race, app, moves[0], run);
      }
    }
  }

  /** What is written is what was asked for: a write in flight has the commit and the check of a
      lookup that was made. */
  lemma {:induction false} WritesComeFromLooks(race: Race, app: nat, moves: seq<Move>, l: Lookup)
    requires l in MovedAll(race, app, moves).open
    ensures l in race.open ||
            exists k, answered :: 0 <= k < |moves| && moves[k] == Look(l.sha, l.check, answered)
    decreases moves
  {
    if moves != [] {
      var race' := Moved(race, app, moves[0]);
      WritesComeFromLooks(race', app, moves[1..], l);
      if l in race'.open {
        if l !in race.open {
          assert moves[0].Look? && moves[0] == Look(l.sha, l.check, moves[0].answered);
        }
      } else {
        var k, answered :| 0 <= k < |moves[1..]| && moves[1..][k] == Look(l.sha, l.check, answered);
        assert moves[k + 1] == Look(l.sha, l.check, answered);
      }
    }
  }

  /** A write leaves its check on a run of its commit. */
  lemma ActShows(race: Race, app: nat, i: nat)
    requires ValidRace(race, app) && i < |race.open|
    ensures var l := race.open[i];
            exists run :: run in Moved(race, app, Act(i)).remote.runs &&
                          run.app == app && run.sha == l.sha && run.check == l.check
  {
    var l := race.open[i];
    assert l in race.open && Sound(race.remote, app, l);
    if l.found.Some? {
      var found :| found in race.remote.runs && found.id == l.found.value && found.app == app && found.sha == l.sha;
      PatchMembers(race.remote.runs, found.id, l.sha, l.check, found);
      assert found.(check := l.check) in Moved(race, app, Act(i)).remote.runs;
    } else {
      assert CheckRun(race.remote.nextId, app, l.sha, l.check) in Moved(race, app, Act(i)).remote.runs;
    }
  }

  /** The remote as this app uses it. */
  class CheckRunApi {
    const app: nat
    var runs: seq<CheckRun>
    var nextId: nat

    ghost predicate Valid() reads this {
      ValidRemote(Remote(runs, nextId))
    }

    ghost function Checks(): map<string, Check> reads this {
      ChecksOf(runs, app)
    }

    constructor (app: nat)
      ensures Valid() && this.app == app && runs == []
    {
      this.app := app;
      runs, nextId := [], 0;
    }

    method CreateCheckRunForPullRequest(sha: string, check: Check)
      requires Valid()
      modifies this
      ensures Valid()
      ensures Checks() == old(Checks())[sha := check]
      ensures OtherRuns(runs, app, sha) == old(OtherRuns(runs, app, sha))
      ensures |RunsOf(runs, app, sha)| == if old(|RunsOf(runs, app, sha)|) == 0 then 1
                                          else old(|RunsOf(runs, app, sha)|)
      ensures var was := old(Remote(runs, nextId));
              runs == Acted(was, app, LookedUp(was, app, sha, check, true)).runs
    {
      UpsertedShows(runs, nextId, app, sha, check);
      UpsertedIds(runs, nextId, app, sha, check);
      var checkRuns := RunsOf(runs, app, sha);
      if checkRuns == [] {
        runs := runs + [CheckRun(nextId, app, sha, check)];
      } else {
        runs := Patch(runs, checkRuns[0].id, sha, check);
      }
      nextId := nextId + 1;
    }
  }
}
