/** The `_id` strings of the stores: parts joined with hyphens, any of which may hold hyphens. */
module StoreKeys {

  function Decimal(n: nat): string {
    (if n < 10 then [] else Decimal(n / 10)) + [('0' as int + n % 10) as char]
  }

  function Dash(a: string, b: string): string {
    a + "-" + b
  }

  /** manager-queue.js:20 */
  function QueueKey(owner: string, repo: string, branch: string): string {
    Dash(owner, Dash(repo, branch))
  }

  /** manager-pullrequest.js:10 */
  function RecordKey(owner: string, repo: string, number: nat): string {
    Dash(owner, Dash(repo, Decimal(number)))
  }

  /** manager-notification-push.js:5-11 */
  function NotificationKey(owner: string, repo: string, number: nat, username: string, kind: string): string {
    Dash(owner, Dash(repo, Dash(Decimal(number), Dash(username, kind))))
  }

  /** manager-installation-info.js:17 */
  function InstallationKey(installationId: nat, token: string): string {
    Dash(Decimal(installationId), token)
  }

  predicate Plain(s: string) {
    '-' !in s
  }

  lemma {:induction false} DecimalIsPlain(n: nat)
    ensures Plain(Decimal(n))
  {
    if n >= 10 { DecimalIsPlain(n / 10); }
  }

  predicate Digits(s: string) {
    forall i :: 0 <= i < |s| ==> '0' <= s[i] <= '9'
  }

  /** The number a string of digits is read as. */
  function Value(s: string): nat
    requires Digits(s)
  {
    if s == [] then 0 else 10 * Value(s[..|s| - 1]) + (s[|s| - 1] as int - '0' as int)
  }

  /** A number is printed in digits that read as the number, without leading zeros. */
  lemma {:induction false} DecimalIsRead(n: nat)
    ensures Digits(Decimal(n)) && Value(Decimal(n)) == n && |Decimal(n)| > 0
    ensures Decimal(n)[0] == '0' ==> n == 0 && Decimal(n) == "0"
  {
    if n >= 10 {
      DecimalIsRead(n / 10);
      assert Decimal(n)[..|Decimal(n)| - 1] == Decimal(n / 10);
    }
  }

  /** How the keys are spelled. */
  lemma KeysAreSpelled(owner: string, repo: string, branch: string, n: nat, username: string, kind: string)
    ensures QueueKey(owner, repo, branch) == owner + "-" + repo + "-" + branch
    ensures RecordKey(owner, repo, n) == owner + "-" + repo + "-" + Decimal(n)
    ensures NotificationKey(owner, repo, n, username, kind)
         == owner + "-" + repo + "-" + Decimal(n) + "-" + username + "-" + kind
    ensures InstallationKey(n, username) == Decimal(n) + "-" + username
  {
    Joined(owner, repo, branch);
    Joined(owner, repo, Decimal(n));
    Joined(owner, repo, Dash(Decimal(n), Dash(username, kind)));
    Joined(Decimal(n), username, kind);
    assert owner + "-" + repo + "-" + (Decimal(n) + "-" + username + "-" + kind)
        == owner + "-" + repo + "-" + Decimal(n) + "-" + username + "-" + kind;
  }

  lemma Joined(a: string, b: string, c: string)
    ensures Dash(a, Dash(b, c)) == a + "-" + b + "-" + c
  {
  }

  lemma {:induction false} DecimalIsInjective(m: nat, n: nat)
    requires Decimal(m) == Decimal(n)
    ensures m == n
  {
    var s := Decimal(m);
    assert s[|s| - 1] == ('0' as int + m % 10) as char == ('0' as int + n % 10) as char;
    assert m % 10 == n % 10;
    DecimalLength(m);
    DecimalLength(n);
    if m >= 10 && n >= 10 {
      assert Decimal(m / 10) == s[..|s| - 1] == Decimal(n / 10);
      DecimalIsInjective(m / 10, n / 10);
    }
  }

  lemma DecimalLength(n: nat)
    ensures |Decimal(n)| >= 1 && (n >= 10 <==> |Decimal(n)| >= 2)
  {
  }

  // ----- Where a key can be cut -----

  /** The first hyphen is found when what comes before it has none. */
  lemma FirstDash(a: string, b: string, c: string, d: string)
    requires Plain(a) && Plain(c) && Dash(a, b) == Dash(c, d)
    ensures a == c && b == d
  {
    var s := Dash(a, b);
    assert s[|a|] == '-' && s[|c|] == '-';
    assert forall i :: 0 <= i < |a| ==> s[i] == a[i];
    assert forall i :: 0 <= i < |c| ==> s[i] == c[i];
    assert |a| == |c|;
    assert a == s[..|a|] && c == s[..|c|];
    assert b == s[|a| + 1..] && d == s[|c| + 1..];
  }

  /** The last hyphen is found when what comes after it has none. */
  lemma LastDash(a: string, b: string, c: string, d: string)
    requires Plain(b) && Plain(d) && Dash(a, b) == Dash(c, d)
    ensures a == c && b == d
  {
    var s := Dash(a, b);
    assert s[|a|] == '-' && s[|c|] == '-';
    assert forall i :: |a| < i < |s| ==> s[i] == b[i - |a| - 1];
    assert forall i :: |c| < i < |s| ==> s[i] == d[i - |c| - 1];
    assert |a| == |c|;
    assert a == s[..|a|] && c == s[..|c|];
    assert b == s[|a| + 1..] && d == s[|c| + 1..];
  }

  lemma SamePrefix(a: string, b: string, c: string)
    requires Dash(a, b) == Dash(a, c)
    ensures b == c
  {
    assert b == Dash(a, b)[|a| + 1..] && c == Dash(a, c)[|a| + 1..];
  }

  // ----- Within one owner and repository -----

  lemma BranchesHaveTheirOwnQueue(owner: string, repo: string, branch: string, branch': string)
    requires QueueKey(owner, repo, branch) == QueueKey(owner, repo, branch')
    ensures branch == branch'
  {
    SamePrefix(owner, Dash(repo, branch), Dash(repo, branch'));
    SamePrefix(repo, branch, branch');
  }

  lemma PullRequestsHaveTheirOwnRecord(owner: string, repo: string, n: nat, n': nat)
    requires RecordKey(owner, repo, n) == RecordKey(owner, repo, n')
    ensures n == n'
  {
    BranchesHaveTheirOwnQueue(owner, repo, Decimal(n), Decimal(n'));
    DecimalIsInjective(n, n');
  }

  /** Usernames may hold hyphens; the kind of notification (`checks`) does not. */
  lemma RecipientsHaveTheirOwnNotification(owner: string, repo: string, n: nat, user: string, kind: string,
                                           n': nat, user': string, kind': string)
    requires Plain(kind) && Plain(kind')
    requires NotificationKey(owner, repo, n, user, kind) == NotificationKey(owner, repo, n', user', kind')
    ensures n == n' && user == user' && kind == kind'
  {
    BranchesHaveTheirOwnQueue(owner, repo, Dash(Decimal(n), Dash(user, kind)), Dash(Decimal(n'), Dash(user', kind')));
    DecimalIsPlain(n);
    DecimalIsPlain(n');
    FirstDash(Decimal(n), Dash(user, kind), Decimal(n'), Dash(user', kind'));
    DecimalIsInjective(n, n');
    LastDash(user, kind, user', kind');
  }

  lemma TokensHaveTheirOwnInstallationInfo(id: nat, token: string, id': nat, token': string)
    requires InstallationKey(id, token) == InstallationKey(id', token')
    ensures id == id' && token == token'
  {
    DecimalIsPlain(id);
    DecimalIsPlain(id');
    FirstDash(Decimal(id), token, Decimal(id'), token');
    DecimalIsInjective(id, id');
  }

  // ----- Across owners and repositories -----

  /** No other owner, repository and rest gives the same key. */
  ghost predicate Unshared(owner: string, repo: string, rest: string) {
    forall o, r, b :: QueueKey(o, r, b) == QueueKey(owner, repo, rest) ==> o == owner && r == repo && b == rest
  }

  function Dashes(s: string): nat {
    if s == "" then 0 else (if s[0] == '-' then 1 else 0) + Dashes(s[1..])
  }

  lemma {:induction false} DashesAppend(a: string, b: string)
    ensures Dashes(a + b) == Dashes(a) + Dashes(b)
  {
    if a == "" {
      assert a + b == b;
    } else {
      DashesAppend(a[1..], b);
      assert (a + b)[1..] == a[1..] + b;
    }
  }

  lemma {:induction false} PlainHasNoDashes(s: string)
    ensures Plain(s) <==> Dashes(s) == 0
  {
    if s != "" {
      PlainHasNoDashes(s[1..]);
      assert s == [s[0]] + s[1..];
    }
  }

  lemma KeyDashes(o: string, r: string, b: string)
    ensures Dashes(QueueKey(o, r, b)) == Dashes(o) + Dashes(r) + Dashes(b) + 2
  {
    DashesAppend(r + "-", b);
    DashesAppend(r, "-");
    DashesAppend(o + "-", Dash(r, b));
    DashesAppend(o, "-");
    assert Dashes("-") == 1;
  }

  lemma CutAtDash(s: string) returns (a: string, b: string)
    requires !Plain(s)
    ensures s == Dash(a, b)
  {
    var i :| 0 <= i < |s| && s[i] == '-';
    a, b := s[..i], s[i + 1..];
  }

  /** A key belongs to one owner, repository and rest exactly when none of them holds a hyphen. */
  lemma SharedIffHyphenated(owner: string, repo: string, rest: string)
    ensures Unshared(owner, repo, rest) <==> Plain(owner) && Plain(repo) && Plain(rest)
  {
    if Plain(owner) && Plain(repo) && Plain(rest) {
      forall o, r, b | QueueKey(o, r, b) == QueueKey(owner, repo, rest)
        ensures o == owner && r == repo && b == rest
      {
        KeyDashes(o, r, b);
        KeyDashes(owner, repo, rest);
        PlainHasNoDashes(owner);
        PlainHasNoDashes(repo);
        PlainHasNoDashes(rest);
        PlainHasNoDashes(o);
        PlainHasNoDashes(r);
        FirstDash(o, Dash(r, b), owner, Dash(repo, rest));
        FirstDash(r, b, repo, rest);
      }
    } else if !Plain(owner) {
      var a, b := CutAtDash(owner);
      assert QueueKey(a, Dash(b, repo), rest) == QueueKey(owner, repo, rest);
      assert |a| < |owner|;
    } else if !Plain(repo) {
      var a, b := CutAtDash(repo);
      assert QueueKey(Dash(owner, a), b, rest) == QueueKey(owner, repo, rest);
      assert |b| < |repo|;
    } else {
      var a, b := CutAtDash(rest);
      assert QueueKey(owner, Dash(repo, a), b) == QueueKey(owner, repo, rest);
      assert |b| < |rest|;
    }
  }

  /** With hyphen-free owners and repositories every queue key and every record key tells its parts. */
  lemma PlainOwnersNeverCollide(o: string, r: string, b: string, o': string, r': string, b': string)
    requires Plain(o) && Plain(r) && Plain(o') && Plain(r')
    requires QueueKey(o, r, b) == QueueKey(o', r', b')
    ensures o == o' && r == r' && b == b'
  {
    FirstDash(o, Dash(r, b), o', Dash(r', b'));
    FirstDash(r, b, r', b');
  }

  /** A record is shared with no other owner and repository exactly when both are hyphen-free. */
  lemma RecordSharedIffHyphenated(owner: string, repo: string, n: nat)
    ensures (forall o, r, m :: RecordKey(o, r, m) == RecordKey(owner, repo, n) ==> o == owner && r == repo && m == n)
            <==> Plain(owner) && Plain(repo)
  {
    DecimalIsPlain(n);
    SharedIffHyphenated(owner, repo, Decimal(n));
    if Plain(owner) && Plain(repo) {
      forall o, r, m | RecordKey(o, r, m) == RecordKey(owner, repo, n) ensures o == owner && r == repo && m == n {
        assert QueueKey(o, r, Decimal(m)) == QueueKey(owner, repo, Decimal(n));
        DecimalIsInjective(m, n);
      }
    } else if !Plain(owner) {
      var a, b := CutAtDash(owner);
      assert RecordKey(a, Dash(b, repo), n) == RecordKey(owner, repo, n);
      assert |a| < |owner|;
    } else {
      var a, b := CutAtDash(repo);
      assert RecordKey(Dash(owner, a), b, n) == RecordKey(owner, repo, n);
      assert |b| < |repo|;
    }
  }
}
