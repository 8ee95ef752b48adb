/**
 * FastSearch of hw3_bench over the decoded lines of the users file: it
 * reports the users who have both an Android and an MSIE browser, with
 * their line number and their e-mail disguised, and counts the distinct
 * browsers of either kind over all users.
 */
module LogScan {
  import opened GoStrings
  import opened Strconv
  import Seqs

  /** A decoded line (the fields the scan reads). */
  datatype User = User(browsers: seq<string>, email: string, name: string)

  predicate IsAndroid(browser: string) {
    Contains(browser, "Android")
  }

  predicate IsMsie(browser: string) {
    Contains(browser, "MSIE")
  }

  predicate HasAndroid(u: User) {
    AnyAndroid(u.browsers)
  }

  predicate HasMsie(u: User) {
    AnyMsie(u.browsers)
  }

  predicate AnyAndroid(bs: seq<string>) {
    exists b :: b in bs && IsAndroid(b)
  }

  predicate AnyMsie(bs: seq<string>) {
    exists b :: b in bs && IsMsie(b)
  }

  /** A user is reported when both kinds of browser occur among theirs. */
  predicate Reported(u: User) {
    HasAndroid(u) && HasMsie(u)
  }

  /** The line printed for the user read as line `index`. */
  function Line(index: nat, u: User): string {
    "[" + Itoa(index) + "] " + u.name + " <" + ReplaceChar(u.email, '@', " [at] ") + ">\n"
  }

  /** The text `line` prints for `users`, the first of which is line `first`. */
  function Lines(users: seq<User>, first: nat, line: (nat, User) -> string): string {
    if users == [] then ""
    else
      var n := |users| - 1;
      Lines(users[..n], first, line) + line(first + n, users[n])
  }

  /** The lines printed for `users`, the first of which is line `first`. */
  function FoundLines(users: seq<User>, first: nat): string {
    Lines(users, first, LineIf)
  }

  /** What the user read as line `index` prints. */
  function LineIf(index: nat, u: User): string {
    if Reported(u) then Line(index, u) else ""
  }

  /** The browsers, of either kind, seen on any line. */
  function UniqueBrowsers(users: seq<User>): set<string> {
    set k, b | 0 <= k < |users| && b in users[k].browsers && (IsAndroid(b) || IsMsie(b)) :: b
  }

  /** Everything FastSearch writes. */
  function Report(users: seq<User>): string {
    "found users:\n" + FoundLines(users, 0) + "\n" + "Total unique browsers " + Itoa(|UniqueBrowsers(users)|) + "\n"
  }

  /** FastSearch, with the lines already decoded; the output is returned. */
  method FastSearch(users: seq<User>) returns (out: string)
    ensures out == Report(users)
  {
    var seenBrowsers: set<string> := {};
    out := "found users:\n";
    ghost var lines := "";
    var i := 0;
    while i < |users|
      invariant 0 <= i <= |users|
      invariant lines == FoundLines(users[..i], 0)
      invariant out == "found users:\n" + lines
      invariant seenBrowsers == UniqueBrowsers(users[..i])
    {
      var user := users[i];
      var isAndroid, isMsie;
      isAndroid, isMsie, seenBrowsers := ScanBrowsers(user, seenBrowsers);
      ScanStep(users, i);
      LinesSnoc(users, i, 0, LineIf);
      if isAndroid && isMsie {
        Seqs.AppendAssoc("found users:\n", lines, Line(i, user));
        out := out + Line(i, user);
      } else {
        assert LineIf(i, user) == "";
      }
      lines := lines + LineIf(i, user);
      i := i + 1;
    }
    assert users[..i] == users;
    out := out + "\n";
    out := out + "Total unique browsers " + Itoa(|seenBrowsers|) + "\n";
  }

  /** The browsers of one user that are counted. */
  function Counted(u: User): set<string> {
    CountedIn(u.browsers)
  }

  /** The loop over one user's browsers in FastSearch. */
  method ScanBrowsers(user: User, seen: set<string>) returns (isAndroid: bool, isMsie: bool, seenAfter: set<string>)
    ensures isAndroid == HasAndroid(user) && isMsie == HasMsie(user)
    ensures seenAfter == seen + Counted(user)
  {
    isAndroid, isMsie, seenAfter := false, false, seen;
    for j := 0 to |user.browsers|
      invariant isAndroid == AnyAndroid(user.browsers[..j])
      invariant isMsie == AnyMsie(user.browsers[..j])
      invariant seenAfter == seen + CountedIn(user.browsers[..j])
    {
      var browser := user.browsers[j];
      BrowserStep(user.browsers, j);
      if Contains(browser, "Android") {
        isAndroid := true;
        if browser !in seenAfter {
          seenAfter := seenAfter + {browser};
        }
      }
      if Contains(browser, "MSIE") {
        isMsie := true;
        if browser !in seenAfter {
          seenAfter := seenAfter + {browser};
        }
      }
    }
    assert user.browsers[..|user.browsers|] == user.browsers;
  }

  /** The browsers of either kind among `bs`. */
  function CountedIn(bs: seq<string>): set<string> {
    set b | b in bs && (IsAndroid(b) || IsMsie(b))
  }

  /** One more browser: what the scan of browsers has seen grows by it alone. */
  lemma BrowserStep(bs: seq<string>, j: nat)
    requires j < |bs|
    ensures AnyAndroid(bs[..j + 1]) == (AnyAndroid(bs[..j]) || IsAndroid(bs[j]))
    ensures AnyMsie(bs[..j + 1]) == (AnyMsie(bs[..j]) || IsMsie(bs[j]))
    ensures CountedIn(bs[..j + 1]) ==
              CountedIn(bs[..j]) + (if IsAndroid(bs[j]) || IsMsie(bs[j]) then {bs[j]} else {})
  {
    assert bs[..j + 1] == bs[..j] + [bs[j]];
    assert forall b :: b in bs[..j + 1] <==> b in bs[..j] || b == bs[j];
  }

  /** One more line: its counted browsers are added. */
  lemma ScanStep(users: seq<User>, i: nat)
    requires i < |users|
    ensures UniqueBrowsers(users[..i + 1]) ==
              UniqueBrowsers(users[..i]) + Counted(users[i])
  {
    var pre, next := users[..i], users[..i + 1];
    assert next[..i] == pre;
    forall b | b in UniqueBrowsers(next)
      ensures b in UniqueBrowsers(pre) + Counted(users[i])
    {
      var k :| 0 <= k < |next| && b in next[k].browsers && (IsAndroid(b) || IsMsie(b));
      if k < i {
        assert pre[k] == next[k];
      }
    }
    forall b | b in UniqueBrowsers(pre) ensures b in UniqueBrowsers(next) {
      var k :| 0 <= k < |pre| && b in pre[k].browsers && (IsAndroid(b) || IsMsie(b));
      assert next[k] == pre[k];
    }
    forall b | b in Counted(users[i]) ensures b in UniqueBrowsers(next) {
      assert next[i] == users[i];
    }
  }

  // ---------------------------------------------------------------------
  // Properties of the report

  lemma LinesSnoc(users: seq<User>, i: nat, first: nat, line: (nat, User) -> string)
    requires i < |users|
    ensures Lines(users[..i + 1], first, line) == Lines(users[..i], first, line) + line(first + i, users[i])
  {
    assert users[..i + 1][..i] == users[..i];
  }

  /** Lines are numbered by their position among all lines: the report of
      two runs of lines is the first's followed by the second's, numbered on. */
  lemma FoundLinesConcat(xs: seq<User>, ys: seq<User>, first: nat)
    ensures FoundLines(xs + ys, first) == FoundLines(xs, first) + FoundLines(ys, first + |xs|)
  {
    LinesConcat(xs, ys, first, LineIf);
  }

  lemma {:induction false} LinesConcat(xs: seq<User>, ys: seq<User>, first: nat, line: (nat, User) -> string)
    ensures Lines(xs + ys, first, line) == Lines(xs, first, line) + Lines(ys, first + |xs|, line)
  {
    if ys == [] {
      assert xs + ys == xs;
    } else {
      var n, zs := |ys| - 1, xs + ys;
      var tail := line(first + |xs| + n, ys[n]);
      LinesConcat(xs, ys[..n], first, line);
      assert zs[..|zs| - 1] == xs + ys[..n];
      assert zs[|zs| - 1] == ys[n];
      calc {
        Lines(zs, first, line);
        Lines(xs + ys[..n], first, line) + tail;
        (Lines(xs, first, line) + Lines(ys[..n], first + |xs|, line)) + tail;
        Lines(xs, first, line) + (Lines(ys[..n], first + |xs|, line) + tail);
        Lines(xs, first, line) + Lines(ys, first + |xs|, line);
      }
    }
  }

  /** A single line prints its user exactly when the user is reported. */
  lemma FoundLinesSingle(u: User, index: nat)
    ensures FoundLines([u], index) == if Reported(u) then Line(index, u) else ""
  {
    assert [u][..0] == [];
    assert Lines([u], index, LineIf) == Lines([], index, LineIf) + LineIf(index, u);
  }

  /** The e-mail in a reported line holds no "@". */
  lemma LineHidesAt(u: User)
    ensures '@' !in ReplaceChar(u.email, '@', " [at] ")
  {
    ReplaceCharRemoves(u.email, '@', " [at] ");
  }

  /** Every reported user contributes a counted browser, and so does every
      user with a browser of either kind, reported or not. */
  lemma CountedBrowsers(users: seq<User>, k: nat, b: string)
    requires k < |users| && b in users[k].browsers
    ensures b in UniqueBrowsers(users) <==> IsAndroid(b) || IsMsie(b)
  {
  }

  /** A browser of neither kind is never counted. */
  lemma UncountedBrowsers(users: seq<User>, b: string)
    requires !IsAndroid(b) && !IsMsie(b)
    ensures b !in UniqueBrowsers(users)
  {
  }
}
