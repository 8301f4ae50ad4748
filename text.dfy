/** The optional value used wherever the source has `null`, `undefined` or a failed match. */
module Optional {
  datatype Option<+T> = None | Some(value: T) {
    /** `x ?? fallback`. */
    function UnwrapOr(fallback: T): (r: T)
      ensures Some? ==> r == value
      ensures None? ==> r == fallback
    {
      match this
      case Some(v) => v
      case None => fallback
    }
  }
}

/**
 * String primitives of the JavaScript runtime that the routes and scripts rely on:
 * the white-space class shared by `String.prototype.trim`, the regular-expression
 * class `\s` and `parseFloat`; line terminators (what `.` does not match); `\w`;
 * substring search with and without the `i` flag; and decimal rendering of integers.
 */
module Text {
  import opened Optional

  /** ECMAScript LineTerminator: the characters that end a `.+` run. */
  predicate IsLineTerminator(c: char) {
    c == '\n' || c == '\r' || c == '\U{2028}' || c == '\U{2029}'
  }

  /** ECMAScript WhiteSpace or LineTerminator: `\s`, `trim` and `parseFloat` all use this set. */
  predicate IsWhitespace(c: char) {
    || c == '\t' || c == '\U{000B}' || c == '\U{000C}' || c == ' '
    || c == '\U{00A0}' || c == '\U{1680}' || ('\U{2000}' <= c <= '\U{200A}')
    || c == '\U{202F}' || c == '\U{205F}' || c == '\U{3000}' || c == '\U{FEFF}'
    || IsLineTerminator(c)
  }

  /** The regular-expression class `\w`. */
  predicate IsWordChar(c: char) {
    ('a' <= c <= 'z') || ('A' <= c <= 'Z') || ('0' <= c <= '9') || c == '_'
  }

  predicate IsDigit(c: char) {
    '0' <= c <= '9'
  }

  predicate AllWhitespace(s: string) {
    forall i :: 0 <= i < |s| ==> IsWhitespace(s[i])
  }

  predicate AllWordChars(s: string) {
    forall i :: 0 <= i < |s| ==> IsWordChar(s[i])
  }

  predicate AllDigits(s: string) {
    forall i :: 0 <= i < |s| ==> IsDigit(s[i])
  }

  /** JavaScript truthiness of a string that may be undefined, as `if (!process.env.X)` tests it. */
  predicate IsSet(v: Option<string>) {
    v.Some? && v.value != ""
  }

  // ---------------------------------------------------------------------------
  // Maximal runs

  /** End of the maximal run of white space starting at `i`. */
  function WhitespaceEnd(s: string, i: nat): (j: nat)
    requires i <= |s|
    ensures i <= j <= |s|
    ensures forall k :: i <= k < j ==> IsWhitespace(s[k])
    ensures j == |s| || !IsWhitespace(s[j])
    decreases |s| - i
  {
    if i < |s| && IsWhitespace(s[i]) then WhitespaceEnd(s, i + 1) else i
  }

  /** End of the line that position `i` is on: the first line terminator at or after `i`, or `|s|`. */
  function LineEnd(s: string, i: nat): (j: nat)
    requires i <= |s|
    ensures i <= j <= |s|
    ensures forall k :: i <= k < j ==> !IsLineTerminator(s[k])
    ensures j == |s| || IsLineTerminator(s[j])
    decreases |s| - i
  {
    if i < |s| && !IsLineTerminator(s[i]) then LineEnd(s, i + 1) else i
  }

  /** End of the maximal run of `\w` characters starting at `i`. */
  function WordEnd(s: string, i: nat): (j: nat)
    requires i <= |s|
    ensures i <= j <= |s|
    ensures forall k :: i <= k < j ==> IsWordChar(s[k])
    ensures j == |s| || !IsWordChar(s[j])
    decreases |s| - i
  {
    if i < |s| && IsWordChar(s[i]) then WordEnd(s, i + 1) else i
  }

  /** End of the maximal run of decimal digits starting at `i`. */
  function DigitEnd(s: string, i: nat): (j: nat)
    requires i <= |s|
    ensures i <= j <= |s|
    ensures forall k :: i <= k < j ==> IsDigit(s[k])
    ensures j == |s| || !IsDigit(s[j])
    decreases |s| - i
  {
    if i < |s| && IsDigit(s[i]) then DigitEnd(s, i + 1) else i
  }

  /** End of the maximal run of characters other than `/` starting at `i` (the class `[^/]`). */
  function SlashFreeEnd(s: string, i: nat): (j: nat)
    requires i <= |s|
    ensures i <= j <= |s|
    ensures forall k :: i <= k < j ==> s[k] != '/'
    ensures j == |s| || s[j] == '/'
    decreases |s| - i
  {
    if i < |s| && s[i] != '/' then SlashFreeEnd(s, i + 1) else i
  }

  // ---------------------------------------------------------------------------
  // trim

  /** Start of the maximal run of white space ending at `j`. */
  function WhitespaceStart(s: string, j: nat): (i: nat)
    requires j <= |s|
    ensures i <= j
    ensures forall k :: i <= k < j ==> IsWhitespace(s[k])
    ensures i == 0 || !IsWhitespace(s[i - 1])
  {
    if j > 0 && IsWhitespace(s[j - 1]) then WhitespaceStart(s, j - 1) else j
  }

  /**
   * `String.prototype.trim`: the slice of `s` between its leading and its trailing
   * white space; empty when `s` is white space only.
   */
  function Trim(s: string): (r: string)
    ensures |r| <= |s|
    ensures r == [] || (!IsWhitespace(r[0]) && !IsWhitespace(r[|r| - 1]))
    ensures r == [] <==> AllWhitespace(s)
  {
    var i := WhitespaceEnd(s, 0);
    if i == |s| then []
    else
      var j := WhitespaceStart(s, |s|);
      assert i < j by {
        assert !IsWhitespace(s[i]);
      }
      s[i..j]
  }

  /** Trimming is idempotent, and a string without white space at its ends is its own trim. */
  lemma TrimOfTrimmed(s: string)
    requires s == [] || (!IsWhitespace(s[0]) && !IsWhitespace(s[|s| - 1]))
    ensures Trim(s) == s
  {
    if s != [] {
      assert WhitespaceEnd(s, 0) == 0;
      assert WhitespaceStart(s, |s|) == |s|;
      assert s[0..|s|] == s;
    }
  }

  lemma TrimIdempotent(s: string)
    ensures Trim(Trim(s)) == Trim(s)
  {
    TrimOfTrimmed(Trim(s));
  }

  /** Leading white space does not change the trim. */
  lemma TrimSkipsLeading(s: string, k: nat)
    requires k <= |s|
    requires forall i :: 0 <= i < k ==> IsWhitespace(s[i])
    ensures Trim(s[k..]) == Trim(s)
  {
    if WhitespaceEnd(s, 0) < |s| {
      TrimSkipsLeadingToText(s, k);
    } else {
      BlankSuffix(s, k);
    }
  }

  lemma BlankSuffix(s: string, k: nat)
    requires k <= |s| && WhitespaceEnd(s, 0) == |s|
    ensures AllWhitespace(s) && AllWhitespace(s[k..])
  {
    assert forall i :: k <= i < |s| ==> s[k..][i - k] == s[i];
  }

  lemma TrimSkipsLeadingToText(s: string, k: nat)
    requires k <= |s| && WhitespaceEnd(s, 0) < |s|
    requires forall i :: 0 <= i < k ==> IsWhitespace(s[i])
    ensures Trim(s[k..]) == Trim(s)
  {
    TrimOfSuffix(s, k, WhitespaceEnd(s, 0), WhitespaceStart(s, |s|));
    TrimIs(s, WhitespaceEnd(s, 0), WhitespaceStart(s, |s|));
  }

  /** The trim of a suffix that only drops leading white space, as a slice of the whole string. */
  lemma TrimOfSuffix(s: string, k: nat, e: nat, j: nat)
    requires k <= |s| && e == WhitespaceEnd(s, 0) < |s| && j == WhitespaceStart(s, |s|)
    requires forall i :: 0 <= i < k ==> IsWhitespace(s[i])
    ensures k <= e < j
    ensures Trim(s[k..]) == s[e..j]
  {
    SuffixRuns(s, k, e, j);
    var t := s[k..];
    TrimIs(t, e - k, j - k);
    assert Trim(t) == t[e - k..j - k];
    SliceOfSuffix(s, k, e, j);
  }

  lemma SliceOfSuffix(s: string, k: nat, a: nat, b: nat)
    requires k <= a <= b <= |s|
    ensures s[k..][a - k..b - k] == s[a..b]
  {
  }

  /** The trim of a string that is not all white space, by its two runs. */
  lemma TrimIs(s: string, i: nat, j: nat)
    requires i == WhitespaceEnd(s, 0) < |s| && j == WhitespaceStart(s, |s|)
    ensures i < j && Trim(s) == s[i..j]
  {
    assert !IsWhitespace(s[i]);
  }

  /** Seen from `s[k..]`, past leading white space, the white space runs at both ends move by `k`. */
  lemma SuffixRuns(s: string, k: nat, e: nat, j: nat)
    requires k <= |s| && e == WhitespaceEnd(s, 0) < |s| && j == WhitespaceStart(s, |s|)
    requires forall i :: 0 <= i < k ==> IsWhitespace(s[i])
    ensures k <= e < j
    ensures WhitespaceEnd(s[k..], 0) == e - k
    ensures WhitespaceStart(s[k..], |s[k..]|) == j - k
  {
    var t := s[k..];
    assert !IsWhitespace(s[e]);
    assert forall i :: 0 <= i < |t| ==> t[i] == s[k + i];
  }

  // ---------------------------------------------------------------------------
  // Substring search

  /** ASCII lower-casing: for an ASCII pattern this is exactly the case folding of a non-unicode `/i` regex. */
  function LowerAscii(c: char): (r: char)
    ensures 'A' <= c <= 'Z' ==> 'a' <= r <= 'z' && r as int == c as int + 32
    ensures !('A' <= c <= 'Z') ==> r == c
  {
    if 'A' <= c <= 'Z' then (c as int + 32) as char else c
  }

  predicate CharEq(a: char, b: char, ignoreCase: bool) {
    if ignoreCase then LowerAscii(a) == LowerAscii(b) else a == b
  }

  /** `pat` occurs in `s` at position `i`. */
  predicate MatchesAt(s: string, pat: string, i: nat, ignoreCase: bool) {
    i + |pat| <= |s| && forall k :: 0 <= k < |pat| ==> CharEq(s[i + k], pat[k], ignoreCase)
  }

  /** The first position at or after `from` where `pat` occurs, if any. */
  function IndexOf(s: string, pat: string, from: nat, ignoreCase: bool): (r: Option<nat>)
    ensures r.Some? ==> from <= r.value && MatchesAt(s, pat, r.value, ignoreCase)
    ensures r.Some? ==> forall k :: from <= k < r.value ==> !MatchesAt(s, pat, k, ignoreCase)
    ensures r.None? ==> forall k :: from <= k ==> !MatchesAt(s, pat, k, ignoreCase)
    decreases |s| - from
  {
    if from + |pat| > |s| then None
    else if MatchesAt(s, pat, from, ignoreCase) then Some(from)
    else IndexOf(s, pat, from + 1, ignoreCase)
  }

  /** `String.prototype.includes`. */
  predicate Contains(s: string, pat: string) {
    IndexOf(s, pat, 0, false).Some?
  }

  lemma ContainsAt(s: string, pat: string, i: nat)
    requires i + |pat| <= |s| && s[i..i + |pat|] == pat
    ensures Contains(s, pat)
  {
    assert MatchesAt(s, pat, i, false);
  }

  lemma ContainsMiddle(a: string, b: string, c: string)
    ensures Contains(a + b + c, b)
  {
    ContainsAt(a + b + c, b, |a|);
  }

  lemma ContainsInPrefix(t: string, b: string, pat: string)
    requires Contains(t, pat)
    ensures Contains(t + b, pat)
  {
    var i := IndexOf(t, pat, 0, false).value;
    assert forall k :: i <= k < i + |pat| ==> (t + b)[k] == t[k];
    assert MatchesAt(t + b, pat, i, false);
  }

  lemma ContainsInSuffix(a: string, t: string, pat: string)
    requires Contains(t, pat)
    ensures Contains(a + t, pat)
  {
    var i := IndexOf(t, pat, 0, false).value;
    assert forall k :: 0 <= k < |pat| ==> CharEq((a + t)[|a| + i + k], pat[k], false);
    assert MatchesAt(a + t, pat, |a| + i, false);
  }

  // ---------------------------------------------------------------------------
  // Decimal digits

  function DigitValue(c: char): (d: nat)
    requires IsDigit(c)
    ensures d < 10
  {
    c as int - '0' as int
  }

  function DigitChar(d: nat): (c: char)
    requires d < 10
    ensures IsDigit(c) && DigitValue(c) == d
  {
    ('0' as int + d) as char
  }

  /** The value of a run of decimal digits, most significant first. */
  function DigitsValue(s: string): nat
    requires AllDigits(s)
  {
    if s == [] then 0 else DigitsValue(s[..|s| - 1]) * 10 + DigitValue(s[|s| - 1])
  }

  /** Decimal rendering of a natural number, as template literals print it. */
  function NatToString(n: nat): (r: string)
    ensures r != [] && AllDigits(r)
    ensures |r| > 1 ==> r[0] != '0'
  {
    if n < 10 then [DigitChar(n)] else NatToString(n / 10) + [DigitChar(n % 10)]
  }

  /** Decimal rendering of an integer (`${n}` for an integral number). */
  function IntToString(n: int): (r: string)
    ensures r != []
    ensures n < 0 <==> r[0] == '-'
  {
    if n < 0 then "-" + NatToString(-n) else NatToString(n)
  }

  /** Reading the digits back gives the number: the rendering loses nothing. */
  lemma {:induction false} NatToStringValue(n: nat)
    ensures DigitsValue(NatToString(n)) == n
  {
    var r := NatToString(n);
    if n >= 10 {
      NatToStringValue(n / 10);
      assert r[..|r| - 1] == NatToString(n / 10);
    }
  }
}
