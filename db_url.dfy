/**
 * How the database setup and reset scripts read `DATABASE_URL`. The database name
 * is what the pattern `postgres(?:ql)?://[^/]+/(\w+)` captures at its leftmost
 * match: after a `postgres://` or `postgresql://` scheme and a non-empty host part
 * without a slash, the longest run of word characters after the next slash. The
 * scripts try `createdb` only for a URL that mentions `localhost` and names the
 * demo database.
 */
module DbUrl {
  import opened Optional
  import opened Text

  const DemoDatabase: string := "mathlingo_demo"
  const LocalHost: string := "localhost"

  /**
   * Where the host part starts when a scheme matches at `p`. The optional `ql` is
   * tried first; when it is present but not followed by `://`, the shorter scheme
   * needs `://` where the `q` is, so the match fails.
   */
  function SchemeEnd(s: string, p: nat): (r: Option<nat>)
    ensures r.Some? ==> r.value <= |s| && MatchesAt(s, "postgres", p, false)
    ensures r.Some? ==> r.value == p + 11 || r.value == p + 13
  {
    if !MatchesAt(s, "postgres", p, false) then None
    else if MatchesAt(s, "ql://", p + 8, false) then Some(p + 13)
    else if MatchesAt(s, "://", p + 8, false) then Some(p + 11)
    else None
  }

  /**
   * `name` is a maximal run of word characters right after the slash at `e`: what
   * the greedy group `(\w+)` captures there.
   */
  predicate NameAfterSlash(s: string, e: nat, name: string) {
    && e + 1 + |name| <= |s|
    && s[e] == '/'
    && name != []
    && AllWordChars(name)
    && s[e + 1..e + 1 + |name|] == name
    && (e + 1 + |name| == |s| || !IsWordChar(s[e + 1 + |name|]))
  }

  /**
   * The capture of a match starting at `p`, if the pattern matches there. The
   * greedy `[^/]+` can only give back characters that are not slashes, so it
   * takes exactly the run up to the next slash.
   */
  function MatchAt(s: string, p: nat): Option<string> {
    match SchemeEnd(s, p)
    case None => None
    case Some(h) =>
      var e := SlashFreeEnd(s, h);
      if e == h || e == |s| then None
      else
        var w := WordEnd(s, e + 1);
        if w == e + 1 then None else Some(s[e + 1..w])
  }

  /**
   * The shape of a match at `p` that captures `name`: a scheme, a non-empty host
   * part running up to the first slash after the scheme, and `name` right after
   * that slash.
   */
  predicate MatchShape(s: string, p: nat, name: string) {
    && SchemeEnd(s, p).Some?
    && SchemeEnd(s, p).value < SlashFreeEnd(s, SchemeEnd(s, p).value)
    && NameAfterSlash(s, SlashFreeEnd(s, SchemeEnd(s, p).value), name)
  }

  /**
   * A match starts with the scheme, and captures the whole run of word characters
   * after the first slash that follows a non-empty host part.
   */
  lemma MatchAtCaptures(s: string, p: nat)
    ensures MatchAt(s, p).Some? ==> MatchesAt(s, "postgres", p, false)
    ensures MatchAt(s, p).Some? ==> exists e :: p < e && NameAfterSlash(s, e, MatchAt(s, p).value)
    ensures MatchAt(s, p).Some? ==> MatchShape(s, p, MatchAt(s, p).value)
  {
    match SchemeEnd(s, p)
    case None =>
    case Some(h) =>
      var e := SlashFreeEnd(s, h);
      if e != h && e != |s| {
        var w := WordEnd(s, e + 1);
        if w != e + 1 {
          assert NameAfterSlash(s, e, s[e + 1..w]);
        }
      }
  }

  /** Conversely, that shape is a match, and it captures exactly that name. */
  lemma MatchShapeIsMatch(s: string, p: nat, name: string)
    requires MatchShape(s, p, name)
    ensures MatchAt(s, p) == Some(name)
  {
    var e := SlashFreeEnd(s, SchemeEnd(s, p).value);
    WordEndOf(s, e + 1, name);
  }

  /** The first position from `p` on, below `n`, where `f` holds, or `n` when there is none. */
  function FirstWhere(f: nat -> bool, p: nat, n: nat): (q: nat)
    requires p <= n
    ensures p <= q <= n
    ensures forall k :: p <= k < q ==> !f(k)
    ensures q == n || f(q)
    decreases n - p
  {
    if p == n || f(p) then p else FirstWhere(f, p + 1, n)
  }

  /** The leftmost position where the pattern matches, or `|s|` when there is none. */
  function FirstMatchPos(s: string): (q: nat)
    ensures q <= |s|
    ensures forall k :: 0 <= k < q ==> MatchAt(s, k).None?
    ensures q == |s| || MatchAt(s, q).Some?
  {
    var matches := (k: nat) => MatchAt(s, k).Some?;
    var q := FirstWhere(matches, 0, |s|);
    assert forall k :: 0 <= k < q ==> MatchAt(s, k).None? by {
      forall k | 0 <= k < q
        ensures MatchAt(s, k).None?
      {
        assert !matches(k);
      }
    }
    q
  }

  /**
   * The database name in the URL: the capture at the leftmost match. Undefined and
   * empty URLs have none, and so does a URL where the pattern matches nowhere.
   */
  function GetDbNameFromUrl(url: Option<string>): (r: Option<string>)
    ensures !IsSet(url) ==> r.None?
    ensures IsSet(url) ==> (r.None? <==> forall q :: 0 <= q <= |url.value| ==> MatchAt(url.value, q).None?)
    ensures r.Some? ==> r.value != [] && AllWordChars(r.value)
    ensures r.Some? ==> exists e :: NameAfterSlash(url.value, e, r.value)
    ensures r.Some? ==> MatchShape(url.value, FirstMatchPos(url.value), r.value)
  {
    if !IsSet(url) then None
    else
      MatchAtCaptures(url.value, FirstMatchPos(url.value));
      MatchAt(url.value, FirstMatchPos(url.value))
  }

  /** A URL without the word `postgres` names no database. */
  lemma NoSchemeNoName(url: string)
    requires !Contains(url, "postgres")
    ensures GetDbNameFromUrl(Some(url)).None?
  {
    assert forall q :: 0 <= q <= |url| ==> !MatchesAt(url, "postgres", q, false);
  }

  /** A run of characters other than `/` that a slash closes is exactly what `[^/]+` takes. */
  lemma SlashFreeEndOf(s: string, i: nat, x: string)
    requires i + |x| < |s| && s[i..i + |x|] == x && s[i + |x|] == '/'
    requires forall k :: 0 <= k < |x| ==> x[k] != '/'
    ensures SlashFreeEnd(s, i) == i + |x|
  {
    assert forall k :: i <= k < i + |x| ==> s[k] == x[k - i];
  }

  /** A run of word characters that a non-word character or the end closes is what `\w+` takes. */
  lemma WordEndOf(s: string, i: nat, x: string)
    requires i + |x| <= |s| && s[i..i + |x|] == x && AllWordChars(x)
    requires i + |x| == |s| || !IsWordChar(s[i + |x|])
    ensures WordEnd(s, i) == i + |x|
  {
    assert forall k :: i <= k < i + |x| ==> s[k] == x[k - i];
  }

  lemma MatchesSlice(s: string, pat: string, i: nat)
    requires i + |pat| <= |s| && s[i..i + |pat|] == pat
    ensures MatchesAt(s, pat, i, false)
  {
    assert forall k :: i <= k < i + |pat| ==> s[k] == pat[k - i];
  }

  /** What follows `postgres` in the two schemes the pattern accepts. */
  function SchemeSeparator(ql: bool): string {
    if ql then "ql://" else "://"
  }

  /** The host part of a URL starts after `postgres://` or `postgresql://`. */
  lemma SchemeEndOf(ql: bool, s: string)
    requires 8 + |SchemeSeparator(ql)| <= |s| && s[..8 + |SchemeSeparator(ql)|] == "postgres" + SchemeSeparator(ql)
    ensures SchemeEnd(s, 0) == Some(8 + |SchemeSeparator(ql)|)
  {
    var sep := SchemeSeparator(ql);
    assert s[0..8] == "postgres" by {
      assert forall k :: 0 <= k < 8 ==> s[k] == s[..8 + |sep|][k];
    }
    MatchesSlice(s, "postgres", 0);
    assert s[8..8 + |sep|] == sep by {
      assert forall k :: 8 <= k < 8 + |sep| ==> s[k] == s[..8 + |sep|][k];
    }
    MatchesSlice(s, sep, 8);
    if !ql {
      assert s[8] == ':';
      assert !CharEq(s[8], "ql://"[0], false);
    }
  }

  /** Where the parts of a database URL sit. */
  lemma UrlLayout(head: string, host: string, name: string, rest: string)
    ensures var s := head + host + "/" + name + rest;
            var e := |head| + |host|;
            && |s| == e + 1 + |name| + |rest|
            && s[..|head|] == head
            && s[|head|..e] == host
            && s[e] == '/'
            && s[e + 1..e + 1 + |name|] == name
            && s[e + 1 + |name|..] == rest
  {
  }

  /**
   * A URL laid out as scheme, host, slash and database name gives back that name,
   * whatever follows it, provided the name is not continued by a word character.
   */
  lemma NameRoundTrip(ql: bool, host: string, name: string, rest: string)
    requires host != [] && forall k :: 0 <= k < |host| ==> host[k] != '/'
    requires name != [] && AllWordChars(name)
    requires rest == [] || !IsWordChar(rest[0])
    ensures GetDbNameFromUrl(Some("postgres" + SchemeSeparator(ql) + host + "/" + name + rest)) == Some(name)
  {
    MatchAtStart(ql, host, name, rest);
    LeftmostAtStart("postgres" + SchemeSeparator(ql) + host + "/" + name + rest);
  }

  /** A URL that matches at its first character has its name read from there. */
  lemma LeftmostAtStart(s: string)
    requires s != [] && MatchAt(s, 0).Some?
    ensures GetDbNameFromUrl(Some(s)) == MatchAt(s, 0)
  {
  }

  lemma MatchAtStart(ql: bool, host: string, name: string, rest: string)
    requires host != [] && forall k :: 0 <= k < |host| ==> host[k] != '/'
    requires name != [] && AllWordChars(name)
    requires rest == [] || !IsWordChar(rest[0])
    ensures MatchAt("postgres" + SchemeSeparator(ql) + host + "/" + name + rest, 0) == Some(name)
  {
    var head := "postgres" + SchemeSeparator(ql);
    var s := head + host + "/" + name + rest;
    var e := |head| + |host|;
    UrlLayout(head, host, name, rest);
    SchemeEndOf(ql, s);
    SlashFreeEndOf(s, |head|, host);
    if rest != [] {
      assert s[e + 1 + |name|] == rest[0];
    }
    WordEndOf(s, e + 1, name);
  }

  /** The scripts' guard for running `createdb`. */
  predicate ShouldCreateDatabase(url: Option<string>) {
    IsSet(url) && Contains(url.value, LocalHost) && GetDbNameFromUrl(url) == Some(DemoDatabase)
  }

  /** A local URL naming the demo database passes the guard. */
  lemma LocalDemoUrlCreates(ql: bool, host: string, rest: string)
    requires Contains(host, LocalHost) && forall k :: 0 <= k < |host| ==> host[k] != '/'
    requires rest == [] || !IsWordChar(rest[0])
    ensures ShouldCreateDatabase(Some("postgres" + SchemeSeparator(ql) + host + "/" + DemoDatabase + rest))
  {
    var head := "postgres" + SchemeSeparator(ql);
    assert host != [];
    assert AllWordChars(DemoDatabase);
    NameRoundTrip(ql, host, DemoDatabase, rest);
    ContainsInSuffix(head, host, LocalHost);
    ContainsInPrefix(head + host, "/", LocalHost);
    ContainsInPrefix(head + host + "/", DemoDatabase, LocalHost);
    ContainsInPrefix(head + host + "/" + DemoDatabase, rest, LocalHost);
  }

  /**
   * The capture is greedy: a database whose name merely starts with the demo name
   * does not pass the guard, even on localhost.
   */
  lemma LongerNameDoesNotCreate(ql: bool, host: string, more: string, rest: string)
    requires host != [] && forall k :: 0 <= k < |host| ==> host[k] != '/'
    requires more != [] && AllWordChars(more)
    requires rest == [] || !IsWordChar(rest[0])
    ensures !ShouldCreateDatabase(Some("postgres" + SchemeSeparator(ql) + host + "/" + (DemoDatabase + more) + rest))
  {
    assert AllWordChars(DemoDatabase + more) by {
      assert AllWordChars(DemoDatabase);
    }
    NameRoundTrip(ql, host, DemoDatabase + more, rest);
    assert |DemoDatabase + more| != |DemoDatabase|;
  }
}
