/** How sv_os.cpp hides the credentials and the host of a URI before it is logged. The C++ edits a
    character buffer in place; a text is what stands in the buffer before the first zero. */
module UriMask {
  import opened Media

  const NUL: char := '\0'

  ghost predicate IsText(s: string) {
    NUL !in s
  }

  // ----- What masking does -----

  /** The first index from `i` on that holds `c`; the length if there is none. */
  function Find(s: string, i: nat, c: char): (k: nat)
    requires i <= |s|
    ensures i <= k <= |s|
    ensures c !in s[i..k]
    ensures k < |s| ==> s[k] == c
    decreases |s| - i
  {
    if i == |s| || s[i] == c then i
    else
      var k := Find(s, i + 1, c);
      assert s[i..k] == [s[i]] + s[i+1..k];
      k
  }

  /** Where the authority begins: the first character that is no slash after two slashes in a row. It
      is the length if a question mark or the end comes before. */
  function Authority(s: string, i: nat, slashes: nat): (k: nat)
    requires i <= |s|
    ensures i <= k <= |s|
    ensures k < |s| ==> s[k] != '/' && s[k] != '?'
    decreases |s| - i
  {
    if i == |s| || s[i] == '?' then |s|
    else if s[i] == '/' then Authority(s, i + 1, if slashes < 2 then slashes + 1 else 2)
    else if slashes == 2 then i
    else Authority(s, i + 1, 0)
  }

  /** Where an authority that begins at `k` ends. */
  function AuthorityEnd(s: string, k: nat): (e: nat)
    requires k <= |s|
    ensures k <= e <= |s|
  {
    var slash, query := Find(s, k, '/'), Find(s, k, '?');
    if slash < query then slash else query
  }

  /** Credentials count when their `@` comes before the end of the authority, and in an authority that
      runs to the end of the text, before its last character. */
  predicate HasUser(s: string, k: nat)
    requires k < |s|
  {
    var end := AuthorityEnd(s, k);
    Find(s, k, '@') < if end < |s| then end else |s| - 1
  }

  /** Credentials of three characters or more become `u:p`. */
  predicate IsShortened(s: string, k: nat)
    requires k < |s|
  {
    HasUser(s, k) && Find(s, k, '@') - k >= 3
  }

  function MaskChar(c: char): char {
    if c == '/' || c == '.' || c == '@' || c == ':' then c else 'x'
  }

  function Mask(s: string): (r: string)
    ensures |r| == |s|
    ensures forall i :: 0 <= i < |s| ==> r[i] == MaskChar(s[i])
  {
    seq(|s|, i requires 0 <= i < |s| => MaskChar(s[i]))
  }

  function Sanitized(s: string): string {
    var k := Authority(s, 0, 0);
    if k == |s| then s
    else
      var end := AuthorityEnd(s, k);
      if IsShortened(s, k) then s[..k] + "u:p" + Mask(s[Find(s, k, '@')..end]) + s[end..]
      else s[..k] + Mask(s[k..end]) + s[end..]
  }

  // ----- Masking twice is masking once -----

  lemma FindMeans(s: string, i: nat, c: char)
    requires i <= |s|
    ensures forall j :: i <= j < Find(s, i, c) ==> s[j] != c
  {
    var f := Find(s, i, c);
    forall j | i <= j < f ensures s[j] != c {
      assert s[i..f][j-i] == s[j];
    }
  }

  lemma FindIs(s: string, i: nat, c: char, k: nat)
    requires i <= k <= |s|
    requires forall j :: i <= j < k ==> s[j] != c
    requires k < |s| ==> s[k] == c
    ensures Find(s, i, c) == k
  {
    FindMeans(s, i, c);
  }

  predicate EndsAuthority(c: char) {
    c == '/' || c == '?'
  }

  lemma AuthorityEndIs(s: string, k: nat, e: nat)
    requires k <= e <= |s|
    requires forall j :: k <= j < e ==> !EndsAuthority(s[j])
    requires e < |s| ==> EndsAuthority(s[e])
    ensures AuthorityEnd(s, k) == e
  {
    hide Find;
    FindMeans(s, k, '/');
    FindMeans(s, k, '?');
  }

  lemma AuthorityEndMeans(s: string, k: nat)
    requires k <= |s|
    ensures var e := AuthorityEnd(s, k);
            && (forall j :: k <= j < e ==> !EndsAuthority(s[j]))
            && (e < |s| ==> EndsAuthority(s[e]))
  {
    hide Find;
    FindMeans(s, k, '/');
    FindMeans(s, k, '?');
  }

  lemma {:induction false} AuthorityIs(s: string, t: string, i: nat, slashes: nat)
    requires i <= |s| && Authority(s, i, slashes) < |s|
    requires var k := Authority(s, i, slashes); |t| > k && t[..k] == s[..k] && t[k] != '/' && t[k] != '?'
    ensures Authority(t, i, slashes) == Authority(s, i, slashes)
    decreases |s| - i
  {
    var k := Authority(s, i, slashes);
    if i < k {
      assert t[..k][i] == s[..k][i];
      if s[i] == '/' {
        AuthorityIs(s, t, i + 1, if slashes < 2 then slashes + 1 else 2);
      } else {
        AuthorityIs(s, t, i + 1, 0);
      }
    }
  }

  lemma MaskIsIdempotent(s: string)
    ensures Mask(Mask(s)) == Mask(s)
  {
  }

  lemma ThreeParts(a: string, b: string, c: string)
    ensures var t := a + b + c; t[..|a|] == a && t[|a|..|a| + |b|] == b && t[|a| + |b|..] == c
    ensures forall j :: 0 <= j < |b| ==> (a + b + c)[|a| + j] == b[j]
    ensures c != [] ==> (a + b + c)[|a| + |b|] == c[0]
  {
  }

  predicate IsMaskedFrom(t: string, s: string, k: nat, e: nat) {
    && |t| == |s|
    && (forall j :: 0 <= j < |s| ==> t[j] == if k <= j < e then MaskChar(s[j]) else s[j])
  }

  lemma MaskingIsPointwise(s: string, k: nat, e: nat)
    requires k <= e <= |s|
    ensures IsMaskedFrom(s[..k] + Mask(s[k..e]) + s[e..], s, k, e)
  {
  }

  /** Masking an authority moves none of its marks. */
  lemma MaskingMovesNothing(s: string, t: string, k: nat)
    requires k < |s| && k == Authority(s, 0, 0) && IsMaskedFrom(t, s, k, AuthorityEnd(s, k))
    ensures Authority(t, 0, 0) == k && AuthorityEnd(t, k) == AuthorityEnd(s, k) && Find(t, k, '@') == Find(s, k, '@')
  {
    hide Find, Authority, AuthorityEnd;
    AuthorityEndMeans(s, k);
    assert AuthorityEnd(s, k) > k;
    assert t[..k] == s[..k];
    AuthorityIs(s, t, 0, 0);
    AuthorityEndIs(t, k, AuthorityEnd(s, k));
    FindMeans(s, k, '@');
    FindIs(t, k, '@', Find(s, k, '@'));
  }

  /** A text without credentials to shorten keeps the shape of its authority. */
  lemma MaskedOnce(s: string, k: nat)
    requires k < |s| && k == Authority(s, 0, 0) && !IsShortened(s, k)
    ensures Sanitized(Sanitized(s)) == Sanitized(s)
  {
    hide Find, Authority, AuthorityEnd, Mask;
    var e := AuthorityEnd(s, k);
    var t := s[..k] + Mask(s[k..e]) + s[e..];
    MaskingIsPointwise(s, k, e);
    MaskingMovesNothing(s, t, k);
    ThreeParts(s[..k], Mask(s[k..e]), s[e..]);
    MaskIsIdempotent(s[k..e]);
    assert !IsShortened(t, k);
  }

  predicate IsMaskedHost(host: string, b: string) {
    && host != [] && host[0] == '@' && Mask(host) == host
    && (forall j :: 0 <= j < |host| ==> !EndsAuthority(host[j]))
    && (if b == [] then |host| > 1 else EndsAuthority(b[0]))
  }

  predicate HasShortenedAt(t: string, k: nat, host: string) {
    && |t| >= k + 3 + |host|
    && t[k] == 'u' && t[k+1] == ':' && t[k+2] == 'p'
    && (forall j :: k + 3 <= j < k + 3 + |host| ==> t[j] == host[j - (k + 3)])
  }

  lemma ShorteningIsPointwise(a: string, host: string, b: string)
    ensures var t := a + "u:p" + host + b;
            && HasShortenedAt(t, |a|, host)
            && t[..|a|] == a && t[|a| + 3 + |host|..] == b && t[|a| + 3..|a| + 3 + |host|] == host
  {
  }

  lemma ShortenedMarks(t: string, k: nat, host: string, b: string)
    requires HasShortenedAt(t, k, host) && IsMaskedHost(host, b) && t[k + 3 + |host|..] == b
    ensures AuthorityEnd(t, k) == k + 3 + |host| && Find(t, k, '@') == k + 3
  {
    hide Find, AuthorityEnd, Mask;
    AuthorityEndIs(t, k, k + 3 + |host|);
    FindIs(t, k, '@', k + 3);
  }

  /** The shape of a text whose credentials have been shortened. */
  lemma ShortenedShape(a: string, host: string, b: string)
    requires IsMaskedHost(host, b)
    requires Authority(a + "u:p" + host + b, 0, 0) == |a|
    ensures var t := a + "u:p" + host + b; Sanitized(t) == t
  {
    hide Find, Authority, AuthorityEnd, Mask, Sanitized, HasShortenedAt;
    var t := a + "u:p" + host + b;
    ShorteningIsPointwise(a, host, b);
    ShortenedMarks(t, |a|, host, b);
    ShortenedInside(t, |a|, host, b);
    SanitizedShort(t, |a|, |a| + 3, |a| + 3 + |host|, a, host, b);
  }

  lemma ShortenedInside(t: string, k: nat, host: string, b: string)
    requires HasShortenedAt(t, k, host) && t[k + 3 + |host|..] == b && IsMaskedHost(host, b)
    requires AuthorityEnd(t, k) == k + 3 + |host| && Find(t, k, '@') == k + 3
    ensures k < |t| && IsShortened(t, k) && Mask(host) == host
  {
    hide Find, AuthorityEnd;
  }

  lemma MaskedHost(s: string, k: nat)
    requires k < |s| && IsShortened(s, k)
    ensures var e := AuthorityEnd(s, k); IsMaskedHost(Mask(s[Find(s, k, '@')..e]), s[e..])
  {
    hide Find, AuthorityEnd;
    var e, at := AuthorityEnd(s, k), Find(s, k, '@');
    AuthorityEndMeans(s, k);
    MaskIsIdempotent(s[at..e]);
    assert s[at..e][0] == '@';
  }

  /** Shortened credentials are credentials of three characters, and shortened to themselves. */
  lemma ShortenedOnce(s: string, k: nat)
    requires k < |s| && k == Authority(s, 0, 0) && IsShortened(s, k)
    ensures Sanitized(Sanitized(s)) == Sanitized(s)
  {
    hide Find, Authority, AuthorityEnd, Mask;
    var e, at := AuthorityEnd(s, k), Find(s, k, '@');
    AuthorityEndMeans(s, k);
    var t := Sanitized(s);
    var host := Mask(s[at..e]);
    assert t == s[..k] + "u:p" + host + s[e..];
    assert t[..k] == s[..k] && t[k] == 'u';
    AuthorityIs(s, t, 0, 0);
    MaskedHost(s, k);
    ShortenedShape(s[..k], host, s[e..]);
  }

  lemma {:induction false} SanitizingIsIdempotent(s: string)
    ensures Sanitized(Sanitized(s)) == Sanitized(s)
  {
    hide Find, AuthorityEnd;
    var k := Authority(s, 0, 0);
    if k < |s| {
      if IsShortened(s, k) {
        ShortenedOnce(s, k);
      } else {
        MaskedOnce(s, k);
      }
    }
  }

  // ----- What is left to see -----

  /** A character that is no slash, right behind two slashes and with no question mark up to it. */
  predicate BeginsAuthority(s: string, k: nat) {
    && 2 <= k < |s| && s[k-2] == '/' && s[k-1] == '/' && s[k] != '/'
    && forall j :: 0 <= j <= k ==> s[j] != '?'
  }

  /** How many slashes in a row, up to two, stand before `i`. */
  predicate SlashesBefore(s: string, i: nat, slashes: nat) {
    && i <= |s| && slashes <= 2
    && (slashes >= 1 <==> i >= 1 && s[i-1] == '/')
    && (slashes == 2 <==> i >= 2 && s[i-1] == '/' && s[i-2] == '/')
  }

  lemma {:induction false} AuthorityIsFirstFrom(s: string, i: nat, slashes: nat)
    requires SlashesBefore(s, i, slashes) && forall j :: 0 <= j < i ==> s[j] != '?' && !BeginsAuthority(s, j)
    ensures var k := Authority(s, i, slashes);
            && (k < |s| ==> BeginsAuthority(s, k))
            && forall j :: 0 <= j < k ==> !BeginsAuthority(s, j)
    decreases |s| - i
  {
    if i < |s| && s[i] != '?' {
      if s[i] == '/' {
        AuthorityIsFirstFrom(s, i + 1, if slashes < 2 then slashes + 1 else 2);
      } else if slashes != 2 {
        AuthorityIsFirstFrom(s, i + 1, 0);
      }
    }
  }

  /** The authority begins at the first character that is no slash and follows two slashes in a row,
      with no question mark before it; there is none if and only if there is no such character. */
  lemma AuthorityFollowsSlashes(s: string)
    ensures var k := Authority(s, 0, 0);
            && (k < |s| ==> BeginsAuthority(s, k))
            && forall j :: 0 <= j < k ==> !BeginsAuthority(s, j)
  {
    AuthorityIsFirstFrom(s, 0, 0);
  }

  /** The result is no longer than the text, begins as the text does up to the authority and ends as the
      text does from the end of the authority on. */
  lemma OnlyTheAuthorityChanges(s: string)
    ensures var k, t := Authority(s, 0, 0), Sanitized(s);
            && |t| <= |s|
            && t[..k] == s[..k]
            && (k < |s| ==> var e := AuthorityEnd(s, k); |t| >= |s| - e && t[|t| - (|s| - e)..] == s[e..])
  {
    hide Find;
  }

  /** In place of the authority, only its punctuation, the letter that masks and `u:p` show. */
  lemma OnlyMarksShow(s: string, j: nat)
    requires var k := Authority(s, 0, 0);
             k < |s| && k <= j < |Sanitized(s)| - (|s| - AuthorityEnd(s, k))
    ensures Sanitized(s)[j] in "x.@:/" || (j < Authority(s, 0, 0) + 3 && Sanitized(s)[j] in "u:p")
  {
    hide Find, AuthorityEnd, Authority;
  }

  lemma SanitizedShort(s: string, k: nat, at: nat, e: nat, a: string, host: string, b: string)
    requires k < |s| && Authority(s, 0, 0) == k && AuthorityEnd(s, k) == e && Find(s, k, '@') == at && at < e
    requires IsShortened(s, k)
    requires s[..k] == a && s[at..e] == host && s[e..] == b
    ensures Sanitized(s) == a + "u:p" + Mask(host) + b
  {
    hide Authority, AuthorityEnd, Find, IsShortened, Mask;
  }

  /** Credentials of three characters or more leave no trace: not what they are, nor how long. */
  lemma {:induction false} CredentialsVanish(a: string, credentials: string, b: string)
    requires |credentials| >= 3 && forall c :: c in credentials ==> c != '@' && !EndsAuthority(c)
    requires b != [] && b[0] == '@' && (AuthorityEnd(b, 0) < |b| || |b| > 1)
    requires Authority(a + credentials + b, 0, 0) == |a|
    ensures var e := AuthorityEnd(b, 0);
            Sanitized(a + credentials + b) == a + "u:p" + Mask(b[..e]) + b[e..]
  {
    hide Find, AuthorityEnd, Authority, Mask, Sanitized;
    var s := a + credentials + b;
    var k, at, e := |a|, |a| + |credentials|, AuthorityEnd(b, 0);
    AuthorityEndMeans(b, 0);
    CredentialsSlices(a, credentials, b, e);
    EndAfter(s, credentials, b, k, e);
    FindIs(s, k, '@', at);
    assert e > 0 && IsShortened(s, k);
    SanitizedShort(s, k, at, at + e, a, b[..e], b[e..]);
  }

  lemma CredentialsSlices(a: string, c: string, b: string, e: nat)
    requires e <= |b| && b != []
    ensures var s, at := a + c + b, |a| + |c|;
            && s[..|a|] == a && s[|a|..at] == c && s[at..] == b && s[at] == b[0]
            && s[at..at + e] == b[..e] && s[at + e..] == b[e..]
            && forall j :: |a| <= j < at ==> s[j] in c
  {
    ThreeParts(a, c, b);
    SliceOfRest(a + c + b, |a| + |c|, e);
  }

  lemma EndAfter(s: string, credentials: string, b: string, k: nat, e: nat)
    requires |s| == k + |credentials| + |b|
    requires s[k..k + |credentials|] == credentials && s[k + |credentials|..] == b
    requires forall c :: c in credentials ==> !EndsAuthority(c)
    requires e == AuthorityEnd(b, 0)
    ensures AuthorityEnd(s, k) == k + |credentials| + e
  {
    hide AuthorityEnd;
    var at := k + |credentials|;
    AuthorityEndMeans(b, 0);
    assert forall j :: k <= j < at ==> s[j] == s[k..at][j-k];
    assert forall j :: at <= j < |s| ==> s[j] == s[at..][j-at];
    AuthorityEndIs(s, k, at + e);
  }

  /** A text with everything hidden but slashes, dots, at-signs and colons. */
  function Hidden(s: string): string {
    seq(|s|, i requires 0 <= i < |s| => if s[i] in "/.@:" then s[i] else 'x')
  }

  lemma MaskHides(s: string)
    ensures Mask(s) == Hidden(s)
  {
  }

  function UserPart(user: Option<string>): string {
    if user.Some? then user.value + "@" else ""
  }

  /** `authority` stands in `s` from `k` on and ends there. */
  ghost predicate StandsAt(s: string, k: nat, authority: string, rest: string) {
    && k + |authority| <= |s| && authority != "" && s[k..k + |authority|] == authority
    && s[k + |authority|..] == rest && Authority(s, 0, 0) == k
    && (forall j :: 0 <= j < |authority| ==> authority[j] != '/' && authority[j] != '?')
    && (rest != "" ==> rest[0] == '/' || rest[0] == '?')
  }

  lemma StandsUntilItsEnd(s: string, k: nat, authority: string, rest: string)
    requires StandsAt(s, k, authority, rest)
    ensures AuthorityEnd(s, k) == k + |authority|
  {
    hide Authority, AuthorityEnd;
    var e := k + |authority|;
    assert forall j :: k <= j < e ==> s[j] == s[k..e][j - k];
    assert e < |s| ==> s[e] == s[e..][0];
    AuthorityEndIs(s, k, e);
  }

  lemma MaskedWithoutUser(s: string, k: nat, authority: string, rest: string)
    requires StandsAt(s, k, authority, rest)
    requires '@' !in authority
    ensures Sanitized(s) == s[..k] + Hidden(authority) + rest
  {
    hide Find, AuthorityEnd, Authority, Mask, Hidden;
    StandsUntilItsEnd(s, k, authority, rest);
    assert forall j :: k <= j < k + |authority| ==> s[j] == s[k..k + |authority|][j - k];
    MaskHides(authority);
  }

  lemma UserEndsAt(s: string, k: nat, n: nat, host: string, authority: string, rest: string)
    requires StandsAt(s, k, authority, rest) && n < |authority| && authority[n..] == "@" + host
    requires forall j :: 0 <= j < n ==> authority[j] != '@'
    ensures Find(s, k, '@') == k + n && s[k + n..k + |authority|] == "@" + host
    ensures IsShortened(s, k) <==> n >= 3 && host + rest != ""
  {
    hide Find, AuthorityEnd, Authority;
    StandsUntilItsEnd(s, k, authority, rest);
    var e := k + |authority|;
    assert forall j :: k <= j < e ==> s[j] == s[k..e][j - k];
    assert authority[n] == authority[n..][0] == '@';
    FindIs(s, k, '@', k + n);
    assert s[k + n..e] == s[k..e][n..];
    assert |authority| == n + |authority[n..]| && |s| == e + |rest|;
  }

  lemma MaskedWithUser(s: string, k: nat, n: nat, host: string, authority: string, rest: string)
    requires StandsAt(s, k, authority, rest) && n < |authority| && authority[n..] == "@" + host
    requires forall j :: 0 <= j < n ==> authority[j] != '@'
    ensures Sanitized(s)
         == if n >= 3 && host + rest != "" then s[..k] + "u:p" + Hidden("@" + host) + rest
            else s[..k] + Hidden(authority) + rest
  {
    hide Find, AuthorityEnd, Authority, Mask, Hidden, IsShortened, Sanitized;
    StandsUntilItsEnd(s, k, authority, rest);
    UserEndsAt(s, k, n, host, authority, rest);
    if n >= 3 && host + rest != "" {
      SanitizedShort(s, k, k + n, k + |authority|, s[..k], "@" + host, rest);
      MaskHides("@" + host);
    } else {
      SanitizedPlain(s, k);
      MaskHides(authority);
    }
  }

  lemma SanitizedPlain(s: string, k: nat)
    requires k < |s| && Authority(s, 0, 0) == k && !IsShortened(s, k)
    ensures var e := AuthorityEnd(s, k);
      Sanitized(s) == s[..k] + Mask(s[k..e]) + s[e..]
  {
    hide Find, AuthorityEnd, Authority, Mask, IsShortened;
  }

  lemma StandsBetween(a: string, authority: string, rest: string)
    requires authority != "" && forall c :: c in authority ==> c != '/' && c != '?'
    requires rest != "" ==> rest[0] == '/' || rest[0] == '?'
    requires Authority(a + authority + rest, 0, 0) == |a|
    ensures StandsAt(a + authority + rest, |a|, authority, rest) && (a + authority + rest)[..|a|] == a
  {
    hide Authority;
    ThreeParts(a, authority, rest);
    assert forall j :: 0 <= j < |authority| ==> authority[j] in authority;
  }

  /** What masking makes of a URI, part by part: the authority is hidden, and credentials of three
      characters or more become `u:p` unless their at-sign is the last character of the text. */
  lemma {:induction false} MasksExactly(a: string, user: Option<string>, host: string, rest: string)
    requires UserPart(user) + host != "" && forall c :: c in UserPart(user) + host ==> c != '/' && c != '?'
    requires if user.Some? then '@' !in user.value else '@' !in host
    requires rest != "" ==> rest[0] == '/' || rest[0] == '?'
    requires Authority(a + (UserPart(user) + host) + rest, 0, 0) == |a|
    ensures Sanitized(a + (UserPart(user) + host) + rest)
         == if user.Some? && |user.value| >= 3 && host + rest != "" then a + "u:p" + Hidden("@" + host) + rest
            else a + Hidden(UserPart(user) + host) + rest
  {
    hide Authority, Mask, Hidden, Sanitized, StandsAt;
    var authority := UserPart(user) + host;
    var s := a + authority + rest;
    StandsBetween(a, authority, rest);
    if user.Some? {
      UserThenHost(user.value, host);
      MaskedWithUser(s, |a|, |user.value|, host, authority, rest);
    } else {
      assert authority == host;
      MaskedWithoutUser(s, |a|, authority, rest);
    }
  }

  lemma UserThenHost(user: string, host: string)
    ensures (user + "@" + host)[|user|..] == "@" + host && |user| < |user + "@" + host|
    ensures forall j :: 0 <= j < |user| ==> (user + "@" + host)[j] == user[j]
  {
  }

  /** A text without an authority stays as it is. */
  lemma NoAuthorityNoChange(s: string)
    requires forall j :: 0 <= j < |s| ==> !BeginsAuthority(s, j)
    ensures Sanitized(s) == s
  {
    hide Authority, AuthorityEnd;
    AuthorityFollowsSlashes(s);
  }

  // ----- In place -----

  ghost predicate Holds(buffer: array<char>, s: string)
    reads buffer
  {
    |s| < buffer.Length && buffer[..|s|] == s && buffer[|s|] == NUL
  }

  /** The text once its credentials are shortened, and where masking begins in it. */
  function Revealed(s: string, k: nat): (string, nat)
    requires k < |s|
  {
    if IsShortened(s, k) then (s[..k] + "u:p" + s[Find(s, k, '@')..], k + 3) else (s, k)
  }

  predicate IsDone(t: string, v: string, m: nat, e: nat) {
    && m <= e <= |v| && IsMaskedFrom(t, v, m, e)
    && (forall j :: m <= j < e ==> !EndsAuthority(v[j]))
    && (e < |v| ==> EndsAuthority(v[e]))
  }

  lemma MaskedFromIs(t: string, v: string, m: nat, e: nat)
    requires m <= e <= |v| && IsMaskedFrom(t, v, m, e)
    ensures t == v[..m] + Mask(v[m..e]) + v[e..]
  {
    MaskingIsPointwise(v, m, e);
  }

  lemma PlainIsSanitized(s: string, t: string, e: nat)
    requires Authority(s, 0, 0) < |s| && !IsShortened(s, Authority(s, 0, 0))
    requires IsDone(t, s, Authority(s, 0, 0), e)
    ensures t == Sanitized(s)
  {
    hide Find, AuthorityEnd, Authority, Mask, IsMaskedFrom;
    MaskedFromIs(t, s, Authority(s, 0, 0), e);
    AuthorityEndIs(s, Authority(s, 0, 0), e);
  }

  lemma ShortenedSlices(a: string, b: string, m: nat, e: nat)
    requires m == |a| + 3 <= e <= m + |b|
    ensures var v := a + "u:p" + b; v[..m] == a + "u:p" && v[m..e] == b[..e-m] && v[e..] == b[e-m..] && v[m..] == b
  {
  }

  lemma SliceOfRest(s: string, i: nat, n: nat)
    requires i + n <= |s|
    ensures s[i..][..n] == s[i..i + n] && s[i..][n..] == s[i + n..]
  {
  }

  lemma EndIsAfterUser(s: string, k: nat)
    requires k < |s| && IsShortened(s, k)
    ensures Find(s, k, '@') < AuthorityEnd(s, k)
  {
    hide Find, AuthorityEnd;
  }

  lemma ShortenedIsSanitized(s: string, t: string, e: nat)
    requires Authority(s, 0, 0) < |s| && IsShortened(s, Authority(s, 0, 0))
    requires var (v, m) := Revealed(s, Authority(s, 0, 0)); IsDone(t, v, m, e)
    ensures t == Sanitized(s)
  {
    hide Find, AuthorityEnd, Authority, Mask, IsMaskedFrom, EndsAuthority, Sanitized;
    var k := Authority(s, 0, 0);
    var (v, m) := Revealed(s, k);
    var at := Find(s, k, '@');
    MaskedFromIs(t, v, m, e);
    RevealedEnd(s, k, e);
    ShortenedSlices(s[..k], s[at..], m, e);
    SliceOfRest(s, at, e - m);
    EndIsAfterUser(s, k);
    SanitizedShort(s, k, at, at + (e - m), s[..k], v[m..e], v[e..]);
  }

  lemma RevealedEnd(s: string, k: nat, e: nat)
    requires k < |s| && IsShortened(s, k)
    requires var (v, m) := Revealed(s, k);
             && m <= e <= |v|
             && (forall j :: m <= j < e ==> !EndsAuthority(v[j]))
             && (e < |v| ==> EndsAuthority(v[e]))
    ensures AuthorityEnd(s, k) == Find(s, k, '@') + (e - Revealed(s, k).1)
  {
    hide Find, AuthorityEnd;
    var (v, m) := Revealed(s, k);
    var at := Find(s, k, '@');
    AuthorityEndMeans(s, k);
    ShortenedSlices(s[..k], s[at..], m, e);
    assert forall j :: at <= j < |s| ==> s[j] == v[m..][j - at];
    assert AuthorityEnd(s, k) >= at;
    AuthorityEndIs(s, k, at + (e - m));
  }

  method CopyText(buffer: array<char>, text: string)
    requires buffer.Length > 0 && IsText(text)
    modifies buffer
    ensures Holds(buffer, if |text| < buffer.Length then text else text[..buffer.Length-1])
  {
    var n := if |text| < buffer.Length then |text| else buffer.Length - 1;
    forall i | 0 <= i < buffer.Length {
      buffer[i] := if i < n then text[i] else NUL;
    }
    assert buffer[..n] == text[..n];
  }

  /** `memmove` towards the front of the buffer. */
  method Shift(buffer: array<char>, to: nat, from: nat, n: nat)
    requires to <= from && from + n <= buffer.Length
    modifies buffer
    ensures buffer[..to] == old(buffer[..to])
    ensures buffer[to..to + n] == old(buffer[from..from + n])
  {
    forall i | 0 <= i < n {
      buffer[to + i] := buffer[from + i];
    }
  }

  lemma ThreeInARow(buffer: array<char>, i: nat, j: nat, len: nat)
    requires i <= j <= len <= buffer.Length
    ensures buffer[..len] == buffer[..i] + buffer[i..j] + buffer[j..len]
  {
  }

  /** Puts `u:p` at `nPos` and moves the text from `atPos` on up behind it. */
  method MoveUp(buffer: array<char>, nPos: nat, atPos: nat, nLen: nat) returns (pos: nat, len: nat)
    requires nPos + 3 <= atPos < nLen < buffer.Length && buffer[nLen] == NUL
    modifies buffer
    ensures pos == nPos + 3 && len == pos + (nLen - atPos) && len <= nLen && buffer[len] == NUL
    ensures buffer[..len] == old(buffer[..nPos]) + "u:p" + old(buffer[atPos..nLen])
  {
    ghost var rest := buffer[atPos..nLen + 1];
    ghost var front := buffer[..nPos];
    buffer[nPos], buffer[nPos+1], buffer[nPos+2] := 'u', ':', 'p';
    pos := nPos + 3;
    len := nLen - (atPos - pos);
    assert buffer[atPos..nLen + 1] == rest && buffer[..pos] == front + "u:p";
    Shift(buffer, pos, atPos, nLen - atPos + 1);
    assert buffer[pos..len + 1] == rest;
    assert buffer[len] == rest[len - pos];
    ThreeInARow(buffer, pos, pos, len);
    assert buffer[pos..len] == buffer[pos..len + 1][..len - pos];
  }

  /** Replaces the credentials at `nPos`, if there are any, and moves the rest of the text up. */
  method ShortenUser(buffer: array<char>, nPos: nat, nLen: nat) returns (pos: nat, len: nat)
    requires nPos < nLen < buffer.Length && buffer[nLen] == NUL
    modifies buffer
    ensures nPos <= pos < len <= nLen && buffer[len] == NUL
    ensures (buffer[..len], pos) == Revealed(old(buffer[..nLen]), nPos)
  {
    hide Find, AuthorityEnd, HasUser;
    pos, len := nPos, nLen;
    ghost var text := buffer[..nLen];
    var atPos := Find(buffer[..nLen], nPos, '@');
    if atPos < nLen {
      var slashPos := Find(buffer[..nLen], nPos, '/');
      var qmPos := Find(buffer[..nLen], nPos, '?');
      var termPos := nLen - 1;
      if slashPos < nLen && qmPos < nLen {
        termPos := if slashPos < qmPos then slashPos else qmPos;
      } else if slashPos < nLen {
        termPos := slashPos;
      } else if qmPos < nLen {
        termPos := qmPos;
      }
      TermIs(text, nPos, slashPos, qmPos, termPos);
      if atPos < termPos && atPos - nPos >= 3 {
        assert text[..nPos] == buffer[..nPos] && text[atPos..] == buffer[atPos..nLen];
        pos, len := MoveUp(buffer, nPos, atPos, nLen);
      }
    } else {
      NoUser(text, nPos);
    }
  }

  lemma NoUser(s: string, k: nat)
    requires k < |s| && Find(s, k, '@') == |s|
    ensures !HasUser(s, k)
  {
    hide Find;
  }

  lemma TermIs(s: string, k: nat, slash: nat, query: nat, term: nat)
    requires k < |s| && slash == Find(s, k, '/') && query == Find(s, k, '?') && Find(s, k, '@') < |s|
    requires term == (if slash < |s| && query < |s| then (if slash < query then slash else query)
                      else if slash < |s| then slash
                      else if query < |s| then query
                      else |s| - 1)
    ensures HasUser(s, k) <==> Find(s, k, '@') < term
  {
  }

  /** How far the loop has come: still looking for the authority, or masking it. */
  ghost predicate Progress(t: string, s: string, pos: nat, replacing: bool, prevSlash: bool)
    requires pos <= |t|
  {
    var k := Authority(s, 0, 0);
    if !replacing || prevSlash then
      t == s && k == Authority(s, pos, if replacing then 2 else if prevSlash then 1 else 0)
    else
      && k < |s|
      && var (v, m) := Revealed(s, k);
      && m <= pos && IsMaskedFrom(t, v, m, pos)
      && forall j :: m <= j < pos ==> !EndsAuthority(v[j])
  }

  lemma SlashIsProgress(t: string, s: string, pos: nat, replacing: bool, prevSlash: bool)
    requires pos < |t| && t[pos] == '/' && !(replacing && !prevSlash)
    requires Progress(t, s, pos, replacing, prevSlash)
    ensures Progress(t, s, pos + 1, replacing || prevSlash, true)
  {
  }

  lemma LookingIsProgress(t: string, s: string, pos: nat, prevSlash: bool)
    requires pos < |t| && t[pos] != '/' && t[pos] != '?'
    requires Progress(t, s, pos, false, prevSlash)
    ensures Progress(t, s, pos + 1, false, false)
  {
  }

  lemma ShorteningIsProgress(t: string, s: string, pos: nat)
    requires pos < |t| && t[pos] != '/' && t[pos] != '?'
    requires Progress(t, s, pos, true, true)
    ensures t == s && pos == Authority(s, 0, 0)
    ensures var (v, m) := Revealed(t, pos);
            m < |v| && Progress(v, s, m, true, false) && !EndsAuthority(v[m])
  {
    hide AuthorityEnd, Find;
  }

  lemma MaskingIsProgress(t: string, s: string, pos: nat)
    requires pos < |t| && !EndsAuthority(t[pos])
    requires Progress(t, s, pos, true, false)
    ensures Progress(t[pos := MaskChar(t[pos])], s, pos + 1, true, false)
  {
    hide Revealed, Authority;
  }

  lemma ProgressEnds(t: string, s: string, pos: nat, replacing: bool, prevSlash: bool)
    requires pos <= |t| && Progress(t, s, pos, replacing, prevSlash)
    requires pos == |t| || t[pos] == '?' || (t[pos] == '/' && replacing && !prevSlash)
    ensures t == Sanitized(s)
  {
    hide AuthorityEnd, Find, Revealed;
    var k := Authority(s, 0, 0);
    if replacing && !prevSlash {
      var (v, m) := Revealed(s, k);
      assert IsDone(t, v, m, pos);
      if IsShortened(s, k) {
        ShortenedIsSanitized(s, t, pos);
      } else {
        RevealedPlain(s, k);
        PlainIsSanitized(s, t, pos);
      }
    }
  }

  lemma RevealedPlain(s: string, k: nat)
    requires k < |s| && !IsShortened(s, k)
    ensures Revealed(s, k) == (s, k)
  {
  }

  /** The masking loop, on a text of length `len`. */
  method MaskBuffer(buffer: array<char>, len: nat)
    requires len < buffer.Length && buffer[len] == NUL
    modifies buffer
    ensures Holds(buffer, Sanitized(old(buffer[..len])))
  {
    hide Authority, Revealed, Progress, Sanitized;
    ghost var s := buffer[..len];
    var nPos, nLen := 0, len;
    var bReplacing, bPrevSlash := false, false;
    ProgressStarts(s);
    while nPos < nLen
      invariant nPos <= nLen < buffer.Length && buffer[nLen] == NUL
      invariant Progress(buffer[..nLen], s, nPos, bReplacing, bPrevSlash)
      decreases nLen - nPos
    {
      var ch := buffer[nPos];
      if ch == '?' {
        break;
      } else if ch == '/' {
        if bReplacing && !bPrevSlash {
          break;
        }
        SlashIsProgress(buffer[..nLen], s, nPos, bReplacing, bPrevSlash);
        if bPrevSlash {
          bReplacing := true;
        }
        bPrevSlash := true;
      } else {
        if bReplacing && bPrevSlash {
          ShorteningIsProgress(buffer[..nLen], s, nPos);
          nPos, nLen := ShortenUser(buffer, nPos, nLen);
          ch := buffer[nPos];
        } else if !bReplacing {
          LookingIsProgress(buffer[..nLen], s, nPos, bPrevSlash);
        }
        bPrevSlash := false;
      }
      if bReplacing && !bPrevSlash {
        MaskingIsProgress(buffer[..nLen], s, nPos);
      }
      ghost var before := buffer[..nLen];
      if bReplacing {
        if ch != '/' && ch != '.' && ch != '@' && ch != ':' {
          buffer[nPos] := 'x';
        }
      }
      assert buffer[..nLen] == if bReplacing then before[nPos := MaskChar(ch)] else before;
      nPos := nPos + 1;
    }
    ProgressEnds(buffer[..nLen], s, nPos, bReplacing, bPrevSlash);
  }

  lemma ProgressStarts(s: string)
    ensures Progress(s, s, 0, false, false)
  {
  }

  method SanitizeUri(uri: Option<string>, buffer: array?<char>) returns (ok: bool)
    requires uri.Some? ==> IsText(uri.value)
    modifies if buffer == null then {} else {buffer}
    ensures ok <==> buffer != null && buffer.Length > 0
    ensures ok ==> var text := if uri.Some? then uri.value else "NULL";
                   Holds(buffer, Sanitized(if |text| < buffer.Length then text else text[..buffer.Length-1]))
  {
    hide Sanitized;
    if buffer == null || buffer.Length == 0 {
      return false;
    }
    var text := if uri.Some? then uri.value else "NULL";
    CopyText(buffer, text);
    MaskBuffer(buffer, if |text| < buffer.Length then |text| else buffer.Length - 1);
    return true;
  }
}
