/**
 * Logging in to the controller and caching the session per target: the
 * cookie header assembled from Set-Cookie lines, the CSRF token taken from
 * the token page, the Basic credentials, and the process-wide session map.
 */
module Session {
  import opened Js

  // ---------------------------------------------------------------------
  // Splitting on one character

  /** `s.split(sep)[0]`: the longest prefix of `s` without `sep`. */
  function Before(s: string, sep: char): (r: string)
    ensures r <= s && sep !in r
    ensures |r| < |s| ==> s[|r|] == sep
  {
    if s == [] || s[0] == sep then [] else [s[0]] + Before(s[1..], sep)
  }

  /** `s.split(sep)` for a one-character separator. */
  function Split(s: string, sep: char): (r: seq<string>)
    ensures |r| > 0 && forall i :: 0 <= i < |r| ==> sep !in r[i]
    decreases |s|
  {
    var b := Before(s, sep);
    if |b| == |s| then [s] else [b] + Split(s[|b| + 1..], sep)
  }

  lemma SplitFields(s: string, sep: char)
    ensures var b := Before(s, sep);
      Split(s, sep)[0] == b && (|b| < |s| ==> Split(s, sep) == [b] + Split(s[|b| + 1..], sep))
  {
  }

  lemma BeforeWhole(a: string, sep: char)
    requires sep !in a
    ensures Before(a, sep) == a
  {
  }

  lemma {:induction false} BeforeConcat(a: string, sep: char, rest: string)
    requires sep !in a
    ensures Before(a + [sep] + rest, sep) == a
  {
    if a != [] {
      assert (a + [sep] + rest)[1..] == a[1..] + [sep] + rest;
      BeforeConcat(a[1..], sep, rest);
    }
  }

  /** Joining the fields with the separator gives the text back. */
  lemma {:induction false} SplitJoin(s: string, sep: char)
    ensures Join(Split(s, sep), [sep]) == s
    decreases |s|
  {
    var b := Before(s, sep);
    if |b| < |s| {
      var rest := s[|b| + 1..];
      SplitJoin(rest, sep);
      var f := Split(rest, sep);
      SplitFields(s, sep);
      assert Split(s, sep) == [b] + f;
      assert ([b] + f)[0] == b && ([b] + f)[1..] == f;
      assert Join([b] + f, [sep]) == b + [sep] + Join(f, [sep]);
      assert s == b + [sep] + rest;
    }
  }

  /** Splitting a join of separator-free fields gives the fields back. */
  lemma {:induction false} JoinSplit(ps: seq<string>, sep: char)
    requires |ps| > 0 && forall i :: 0 <= i < |ps| ==> sep !in ps[i]
    ensures Split(Join(ps, [sep]), sep) == ps
  {
    if |ps| == 1 {
      BeforeWhole(ps[0], sep);
    } else {
      var rest := Join(ps[1..], [sep]);
      var whole := ps[0] + [sep] + rest;
      assert Join(ps, [sep]) == whole;
      BeforeConcat(ps[0], sep, rest);
      assert whole[|ps[0]| + 1..] == rest;
      SplitFields(whole, sep);
      assert Split(whole, sep) == [ps[0]] + Split(rest, sep);
      JoinSplit(ps[1..], sep);
      assert ps == [ps[0]] + ps[1..];
    }
  }

  // ---------------------------------------------------------------------
  // The cookie header

  /** `c.split(";")[0]`: the name=value part of one Set-Cookie line. */
  function CookiePart(c: string): string {
    Before(c, ';')
  }

  function CookieParts(cs: seq<string>): (r: seq<string>)
    ensures |r| == |cs|
  {
    seq(|cs|, i requires 0 <= i < |cs| => CookiePart(cs[i]))
  }

  /** `setCookie.map((c) => c.split(";")[0]).join("; ")`. */
  function CookieHeader(cs: seq<string>): string {
    Join(CookieParts(cs), "; ")
  }

  /** The cookie header before the login request: empty when the first reply sets none. */
  function InitialCookies(setCookie: Option<seq<string>>): string {
    if setCookie.Some? then CookieHeader(setCookie.value) else ""
  }

  /**
   * The cookie header after the login request. A Set-Cookie list on the
   * login reply, even an empty one, replaces the initial header.
   */
  function AuthCookies(initial: Option<seq<string>>, login: Option<seq<string>>): string {
    if login.Some? then CookieHeader(login.value) else InitialCookies(initial)
  }

  /** How a server reads a cookie header back: fields at `;`, each after the first losing one space. */
  function Cookies(h: string): seq<string> {
    var f := Split(h, ';');
    [f[0]] + seq(|f| - 1, i requires 0 <= i < |f| - 1 => Unpad(f[i + 1]))
  }

  function Unpad(s: string): string {
    if s != [] && s[0] == ' ' then s[1..] else s
  }

  function Spaced(qs: seq<string>): (r: seq<string>)
    ensures |r| == |qs|
  {
    seq(|qs|, i requires 0 <= i < |qs| => " " + qs[i])
  }

  lemma JoinHead(a: string, x: string, rest: seq<string>, sep: string)
    ensures Join([a + x] + rest, sep) == a + Join([x] + rest, sep)
  {
    if rest != [] {
      assert ([a + x] + rest)[1..] == rest;
      assert ([x] + rest)[1..] == rest;
    }
  }

  /** Joining with `"; "` is joining with `;` after padding every field but the first. */
  lemma {:induction false} JoinSpaced(p: string, qs: seq<string>)
    ensures Join([p] + qs, "; ") == Join([p] + Spaced(qs), ";")
    decreases |qs|
  {
    if qs != [] {
      JoinSpaced(qs[0], qs[1..]);
      assert Spaced(qs) == [" " + qs[0]] + Spaced(qs[1..]);
      JoinHead(" ", qs[0], Spaced(qs[1..]), ";");
      assert ([p] + qs)[1..] == [qs[0]] + qs[1..];
      assert ([p] + Spaced(qs))[1..] == [" " + qs[0]] + Spaced(qs[1..]);
    }
  }

  /** Each Set-Cookie line contributes exactly its part before the first `;`, in order. */
  lemma CookieHeaderRoundTrip(cs: seq<string>)
    requires cs != []
    ensures Cookies(CookieHeader(cs)) == CookieParts(cs)
  {
    var ps := CookieParts(cs);
    var padded := [ps[0]] + Spaced(ps[1..]);
    assert ps == [ps[0]] + ps[1..];
    JoinSpaced(ps[0], ps[1..]);
    PaddedFree(ps);
    JoinSplit(padded, ';');
    CookiesOfPadded(CookieHeader(cs), ps);
  }

  lemma PaddedFree(ps: seq<string>)
    requires |ps| > 0 && forall i :: 0 <= i < |ps| ==> ';' !in ps[i]
    ensures var padded := [ps[0]] + Spaced(ps[1..]); forall i :: 0 <= i < |padded| ==> ';' !in padded[i]
  {
    var padded := [ps[0]] + Spaced(ps[1..]);
    forall i | 0 < i < |padded|
      ensures ';' !in padded[i]
    {
      assert padded[i] == " " + ps[i];
    }
  }

  lemma CookiesOfPadded(h: string, ps: seq<string>)
    requires |ps| > 0 && Split(h, ';') == [ps[0]] + Spaced(ps[1..])
    ensures Cookies(h) == ps
  {
    var c := Cookies(h);
    assert |c| == |ps| && c[0] == ps[0];
    forall i | 0 < i < |ps|
      ensures c[i] == ps[i]
    {
      var f := Split(h, ';');
      assert f[i] == Spaced(ps[1..])[i - 1] == " " + ps[i];
      assert c[i] == Unpad(f[i]);
      assert (" " + ps[i])[1..] == ps[i];
    }
  }

  /** A Set-Cookie list on the login reply replaces the initial cookies, whatever they were. */
  lemma LoginCookiesReplace(initial: Option<seq<string>>, login: seq<string>)
    requires login != []
    ensures Cookies(AuthCookies(initial, Some(login))) == CookieParts(login)
  {
    CookieHeaderRoundTrip(login);
  }

  /** Without one, the initial cookies stay. */
  lemma InitialCookiesKept(initial: seq<string>)
    requires initial != []
    ensures Cookies(AuthCookies(Some(initial), None)) == CookieParts(initial)
  {
    CookieHeaderRoundTrip(initial);
  }

  // ---------------------------------------------------------------------
  // The CSRF token: /cs[f|r]{2}Token\s*=\s*['"]([^'"]*)['"]/i

  predicate IsQuote(c: char) {
    c == '\'' || c == '"'
  }

  /** One character of the class `[f|r]` under the `i` flag. */
  predicate FrChar(c: char) {
    c == 'f' || c == 'F' || c == 'r' || c == 'R' || c == '|'
  }

  /** `c` matches a letter under the `i` flag: its lower-case or its upper-case form. */
  predicate Letter(c: char, lower: char, upper: char) {
    c == lower || c == upper
  }

  /** `cs[f|r]{2}Token` at position `i`. */
  predicate NameAt(s: string, i: nat) {
    i + 9 <= |s| && Letter(s[i], 'c', 'C') && Letter(s[i + 1], 's', 'S') && FrChar(s[i + 2]) && FrChar(s[i + 3])
    && Letter(s[i + 4], 't', 'T') && Letter(s[i + 5], 'o', 'O') && Letter(s[i + 6], 'k', 'K') && Letter(s[i + 7], 'e', 'E')
    && Letter(s[i + 8], 'n', 'N')
  }

  /** `\s*` from `i`: the first position that is not white space. */
  function SkipWs(s: string, i: nat): (j: nat)
    requires i <= |s|
    ensures i <= j <= |s| && (j < |s| ==> !IsSpace(s[j]))
    ensures forall k :: i <= k < j ==> IsSpace(s[k])
    decreases |s| - i
  {
    if i < |s| && IsSpace(s[i]) then SkipWs(s, i + 1) else i
  }

  /** `[^'"]*` from `i`: the first quote at or after `i`, or the end. */
  function QuoteEnd(s: string, i: nat): (j: nat)
    requires i <= |s|
    ensures i <= j <= |s| && (j < |s| ==> IsQuote(s[j]))
    ensures forall k :: i <= k < j ==> !IsQuote(s[k])
    decreases |s| - i
  {
    if i < |s| && !IsQuote(s[i]) then QuoteEnd(s, i + 1) else i
  }

  /**
   * The capture of the match starting at `i`, if one does. The white-space
   * runs end before `=` and before the quote, and the capture before the
   * closing quote, so no backtracking changes where a match ends.
   */
  function MatchAt(s: string, i: nat): (r: Option<string>)
    requires i <= |s|
    ensures r.Some? ==> NameAt(s, i) && forall c :: c in r.value ==> !IsQuote(c)
  {
    if !NameAt(s, i) then None
    else
      var j := SkipWs(s, i + 9);
      if j == |s| || s[j] != '=' then None
      else
        var k := SkipWs(s, j + 1);
        if k == |s| || !IsQuote(s[k]) then None
        else
          var e := QuoteEnd(s, k + 1);
          if e == |s| then None else Some(s[k + 1..e])
  }

  /** `regex.exec` tried at every position of the text, in order. */
  function Matches(s: string): (ms: seq<Option<string>>)
    ensures |ms| == |s| + 1 && forall k :: 0 <= k < |ms| ==> ms[k] == MatchAt(s, k)
  {
    seq(|s| + 1, k requires 0 <= k <= |s| => MatchAt(s, k))
  }

  /** The first present entry of `ms` at or after `i`. */
  function FirstFrom(ms: seq<Option<string>>, i: nat): Option<string>
    requires i <= |ms|
    decreases |ms| - i
  {
    if i == |ms| then None else if ms[i].Some? then ms[i] else FirstFrom(ms, i + 1)
  }

  /** The first match at or after `i`. */
  function CsrfFrom(s: string, i: nat): Option<string>
    requires i <= |s|
  {
    FirstFrom(Matches(s), i)
  }

  /** `page.match(regex)`, its group 1 when it matches. */
  function Csrf(page: string): Option<string> {
    CsrfFrom(page, 0)
  }

  /** The token is the capture of the leftmost match; there is none exactly when no position matches. */
  lemma CsrfLeftmost(s: string, i: nat)
    requires i <= |s|
    ensures CsrfFrom(s, i).Some? ==>
      exists j :: i <= j <= |s| && MatchAt(s, j) == CsrfFrom(s, i) && forall k :: i <= k < j ==> MatchAt(s, k).None?
    ensures CsrfFrom(s, i).None? <==> forall j :: i <= j <= |s| ==> MatchAt(s, j).None?
  {
    var ms := Matches(s);
    FirstNone(ms, i);
    if CsrfFrom(s, i).Some? {
      var j := FirstIndex(ms, i);
      assert MatchAt(s, j) == ms[j];
      assert forall k :: i <= k < j ==> MatchAt(s, k) == ms[k];
    }
  }

  /** The position of the first present entry at or after `i`, when there is one. */
  lemma {:induction false} FirstIndex(ms: seq<Option<string>>, i: nat) returns (j: nat)
    requires i <= |ms| && FirstFrom(ms, i).Some?
    ensures i <= j < |ms| && ms[j] == FirstFrom(ms, i)
    ensures forall k :: i <= k < j ==> ms[k].None?
    decreases |ms| - i
  {
    if ms[i].Some? {
      j := i;
    } else {
      j := FirstIndex(ms, i + 1);
    }
  }

  /** Nothing is found exactly when no entry from `i` on is present. */
  lemma {:induction false} FirstNone(ms: seq<Option<string>>, i: nat)
    requires i <= |ms|
    ensures FirstFrom(ms, i).None? <==> forall j :: i <= j < |ms| ==> ms[j].None?
    decreases |ms| - i
  {
    if i < |ms| && ms[i].None? {
      FirstNone(ms, i + 1);
    }
  }

  /** Absent entries before `n` are passed over. */
  lemma {:induction false} FirstSkip(ms: seq<Option<string>>, i: nat, n: nat)
    requires i <= n <= |ms| && forall k :: i <= k < n ==> ms[k].None?
    ensures FirstFrom(ms, i) == FirstFrom(ms, n)
    decreases n - i
  {
    if i < n {
      FirstSkip(ms, i + 1, n);
    }
  }

  /** The token never holds a quote. */
  lemma CsrfQuoteFree(page: string)
    requires Csrf(page).Some?
    ensures forall c :: c in Csrf(page).value ==> !IsQuote(c)
  {
    CsrfLeftmost(page, 0);
  }

  /** A match needs the name at its start. */
  lemma NoMatchWithoutC(s: string, i: nat)
    requires i < |s| && s[i] != 'c' && s[i] != 'C'
    ensures MatchAt(s, i).None?
  {
  }

  /** `csrfToken = "t"`: an assignment with white space around `=` in double quotes. */
  function Assignment(t: string): string {
    "csrfToken = \"" + t + "\""
  }

  /** A quote-free token assigned after text with no `c` is read back. */
  lemma CsrfRoundTrip(p: string, t: string, rest: string)
    requires forall c :: c in p ==> c != 'c' && c != 'C'
    requires forall c :: c in t ==> !IsQuote(c)
    ensures Csrf(p + Assignment(t) + rest) == Some(t)
  {
    var s := p + Assignment(t) + rest;
    var n := |p|;
    assert forall k :: 0 <= k < n ==> s[k] == p[k];
    forall k | 0 <= k < n
      ensures MatchAt(s, k).None?
    {
      assert s[k] in p;
      NoMatchWithoutC(s, k);
    }
    AssignmentMatch(s, n, t);
    var ms := Matches(s);
    assert forall k :: 0 <= k < n ==> ms[k] == MatchAt(s, k);
    FirstSkip(ms, 0, n);
    assert ms[n] == Some(t);
  }

  lemma AssignmentMatch(s: string, n: nat, t: string)
    requires forall c :: c in t ==> !IsQuote(c)
    requires n + |Assignment(t)| <= |s| && s[n..n + |Assignment(t)|] == Assignment(t)
    ensures MatchAt(s, n) == Some(t)
  {
    var pre := "csrfToken = \"";
    AssignmentParts(s, n, t, pre);
    AssignmentPrefix(s, n, pre);
    QuoteEndOf(s, n + 13, t);
  }

  /** The pieces of an assignment found at `n`: its prefix, the token and the closing quote. */
  lemma AssignmentParts(s: string, n: nat, t: string, pre: string)
    requires pre == "csrfToken = \""
    requires n + |Assignment(t)| <= |s| && s[n..n + |Assignment(t)|] == Assignment(t)
    ensures n + 14 + |t| <= |s|
    ensures s[n..n + 13] == pre && s[n + 13..n + 13 + |t|] == t && s[n + 13 + |t|] == '"'
  {
    var a := Assignment(t);
    var w := s[n..n + |a|];
    assert a == pre + t + "\"";
    assert |a| == 14 + |t|;
    assert w[..13] == pre by {
      assert forall k :: 0 <= k < 13 ==> w[k] == a[k];
    }
    assert s[n..n + 13] == w[..13];
    assert a[13 + |t|] == '"';
    assert s[n + 13 + |t|] == w[13 + |t|];
    assert w[13..13 + |t|] == t by {
      assert forall k :: 0 <= k < |t| ==> w[13 + k] == a[13 + k] == t[k];
    }
    SliceOfSlice(s, n, n + |a|, 13, 13 + |t|);
  }

  /** A slice of a slice is a slice of the whole. */
  lemma SliceOfSlice(s: string, n: nat, m: nat, i: nat, j: nat)
    requires n <= m <= |s| && i <= j <= m - n
    ensures s[n..m][i..j] == s[n + i..n + j]
  {
    assert forall k :: 0 <= k < j - i ==> s[n..m][i..j][k] == s[n + i + k];
  }

  /** `csrfToken = "` at `n`: a name, one space, `=`, one space and a quote. */
  lemma AssignmentPrefix(s: string, n: nat, pre: string)
    requires pre == "csrfToken = \""
    requires n + 13 <= |s| && s[n..n + 13] == pre
    ensures NameAt(s, n) && SkipWs(s, n + 9) == n + 10 && s[n + 10] == '='
    ensures SkipWs(s, n + 11) == n + 12 && IsQuote(s[n + 12])
  {
    var w := s[n..n + 13];
    assert s[n] == w[0] == 'c' && s[n + 1] == w[1] == 's' && s[n + 2] == w[2] == 'r' && s[n + 3] == w[3] == 'f';
    assert s[n + 4] == w[4] == 'T' && s[n + 5] == w[5] == 'o' && s[n + 6] == w[6] == 'k';
    assert s[n + 7] == w[7] == 'e' && s[n + 8] == w[8] == 'n';
    assert s[n + 9] == w[9] == ' ' && s[n + 10] == w[10] == '=' && s[n + 11] == w[11] == ' ';
    assert s[n + 12] == w[12] == '"';
    assert SkipWs(s, n + 10) == n + 10;
    assert SkipWs(s, n + 12) == n + 12;
  }

  lemma {:induction false} QuoteEndOf(s: string, i: nat, t: string)
    requires forall c :: c in t ==> !IsQuote(c)
    requires i + |t| < |s| && s[i..i + |t|] == t && IsQuote(s[i + |t|])
    ensures QuoteEnd(s, i) == i + |t|
    decreases |t|
  {
    if t != [] {
      assert s[i] == t[0];
      assert s[i + 1..i + 1 + |t[1..]|] == t[1..];
      QuoteEndOf(s, i + 1, t[1..]);
    }
  }

  // ---------------------------------------------------------------------
  // Basic credentials

  /** `authHeader.split(" ")[1]` on a header that starts with `Basic `. */
  function BasicToken(h: string): (r: string)
    requires "Basic " <= h
    ensures r == Before(h[6..], ' ') && ' ' !in r
  {
    var rest := h[6..];
    assert h == "Basic" + [' '] + rest;
    BeforeConcat("Basic", ' ', rest);
    SplitFields(h, ' ');
    SplitFields(rest, ' ');
    Split(h, ' ')[1]
  }

  datatype Credentials = Credentials(user: string, pass: Option<string>)

  /** `const [user, pass] = text.split(":")`, as written: a later `:` ends the password. */
  function CredentialsAsWritten(text: string): Credentials {
    var f := Split(text, ':');
    Credentials(f[0], if |f| > 1 then Some(f[1]) else None)
  }

  /** The user-id ends at the first `:`, and the password is all that follows it. */
  function CredentialsOf(text: string): Credentials {
    var u := Before(text, ':');
    Credentials(u, if |u| < |text| then Some(text[|u| + 1..]) else None)
  }

  /** Any password, colons included, survives `user:password`. */
  lemma CredentialsRoundTrip(user: string, pass: string)
    requires ':' !in user
    ensures CredentialsOf(user + ":" + pass) == Credentials(user, Some(pass))
  {
    BeforeConcat(user, ':', pass);
    assert (user + [':'] + pass)[|user| + 1..] == pass;
  }

  /** A colon-free password survives the split as written as well. */
  lemma CredentialsAsWrittenRoundTrip(user: string, pass: string)
    requires ':' !in user && ':' !in pass
    ensures CredentialsAsWritten(user + ":" + pass) == Credentials(user, Some(pass))
  {
    JoinSplit([user, pass], ':');
    assert Join([user, pass], [':']) == user + ":" + pass;
  }

  /** As written, a password with a colon loses everything from that colon on. */
  lemma CredentialsAsWrittenTruncates(user: string, p1: string, p2: string)
    requires ':' !in user && ':' !in p1 && ':' !in p2
    ensures CredentialsAsWritten(user + ":" + p1 + ":" + p2) == Credentials(user, Some(p1))
    ensures CredentialsOf(user + ":" + p1 + ":" + p2) == Credentials(user, Some(p1 + ":" + p2))
  {
    JoinSplit([user, p1, p2], ':');
    assert [user, p1, p2][1..] == [p1, p2] && [p1, p2][1..] == [p2];
    assert Join([p1, p2], [':']) == p1 + ":" + p2;
    assert Join([user, p1, p2], [':']) == user + ":" + (p1 + ":" + p2);
    CredentialsRoundTrip(user, p1 + ":" + p2);
    assert user + ":" + p1 + ":" + p2 == user + ":" + (p1 + ":" + p2);
  }

  // ---------------------------------------------------------------------
  // Login

  datatype Session = Session(csrfToken: string, authCookies: string)

  /**
   * What the login exchange returned: the Set-Cookie lists of the login
   * page and of the login reply, and the token page. `None` stands for a
   * request that failed.
   */
  datatype LoginReplies = LoginReplies(initCookies: Option<seq<string>>, loginCookies: Option<seq<string>>, tokenPage: string)

  /** `ruckusLogin`'s result: a session exactly when the exchange completed and the token was found. */
  function LoginResult(replies: Option<LoginReplies>): Option<Session> {
    if replies.None? then None
    else
      var r := replies.value;
      var token := Csrf(r.tokenPage);
      if token.None? then None else Some(Session(token.value, AuthCookies(r.initCookies, r.loginCookies)))
  }

  /** A session carries the page's token and the cookies of the last reply that set any. */
  lemma LoginResultCases(replies: Option<LoginReplies>)
    ensures LoginResult(replies).Some? <==> replies.Some? && Csrf(replies.value.tokenPage).Some?
    ensures LoginResult(replies).Some? ==>
      var r := replies.value;
      var s := LoginResult(replies).value;
      (forall c :: c in s.csrfToken ==> !IsQuote(c)) &&
      (r.loginCookies.Some? && r.loginCookies.value != [] ==> Cookies(s.authCookies) == CookieParts(r.loginCookies.value)) &&
      (r.loginCookies.None? && r.initCookies.Some? && r.initCookies.value != [] ==> Cookies(s.authCookies) == CookieParts(r.initCookies.value))
  {
    if LoginResult(replies).Some? {
      var r := replies.value;
      CsrfQuoteFree(r.tokenPage);
      if r.loginCookies.Some? && r.loginCookies.value != [] {
        LoginCookiesReplace(r.initCookies, r.loginCookies.value);
      }
      if r.loginCookies.None? && r.initCookies.Some? && r.initCookies.value != [] {
        InitialCookiesKept(r.initCookies.value);
      }
    }
  }

  // ---------------------------------------------------------------------
  // The process-wide session cache

  /** `sessionCache`: the session of each target. */
  class SessionCache {
    var sessions: map<string, Session>

    constructor ()
      ensures sessions == map[]
    {
      sessions := map[];
    }

    /** `sessionCache.get(target)`. */
    method Cached(target: string) returns (s: Option<Session>)
      ensures s.Some? <==> target in sessions
      ensures s.Some? ==> s.value == sessions[target]
    {
      if target in sessions {
        s := Some(sessions[target]);
      } else {
        s := None;
      }
    }

    /** `ruckusLogin(target, ...)`: the entry is written only when a session results. */
    method Login(target: string, replies: Option<LoginReplies>) returns (s: Option<Session>)
      modifies this
      ensures s == LoginResult(replies)
      ensures sessions == if s.Some? then old(sessions)[target := s.value] else old(sessions)
    {
      s := None;
      if replies.Some? {
        var r := replies.value;
        var cookies := InitialCookies(r.initCookies);
        if r.loginCookies.Some? {
          cookies := CookieHeader(r.loginCookies.value);
        }
        var token := Csrf(r.tokenPage);
        if token.Some? {
          s := Some(Session(token.value, cookies));
          sessions := sessions[target := s.value];
        }
      }
    }

    /** `sessionCache.delete(target)`. */
    method Forget(target: string)
      modifies this
      ensures sessions == old(sessions) - {target}
    {
      sessions := sessions - {target};
    }
  }
}
