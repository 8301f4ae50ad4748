/**
 * `parseFloat`: skip leading white space, then read the longest prefix that is a
 * decimal literal (optional sign, digits, optional fraction, optional exponent) or
 * `Infinity`. No such prefix gives NaN, modelled as `None`. The value is kept as an
 * exact `real`; rounding to a double is not modelled.
 */
module NumericPrefix {
  import opened Optional
  import opened Text

  datatype Number = Finite(value: real) | PosInfinity | NegInfinity

  /** The value of the digits after a decimal point: `"25"` is a quarter. */
  function FractionValue(f: string): (r: real)
    requires AllDigits(f)
    ensures 0.0 <= r < 1.0
  {
    if f == [] then 0.0 else (DigitValue(f[0]) as real + FractionValue(f[1..])) / 10.0
  }

  /** `x` times ten to the power `e`. */
  function Scale(x: real, e: int): real
    decreases if e >= 0 then e else -e
  {
    if e == 0 then x else if e > 0 then Scale(x, e - 1) * 10.0 else Scale(x, e + 1) / 10.0
  }

  const InfinityWord: string := "Infinity"

  /**
   * An ExponentPart starting at `i`: its end and its value. When the characters at `i`
   * do not form a complete exponent (`e`, an optional sign, at least one digit) the
   * literal stops at `i` and the exponent is 0.
   */
  function ExponentPart(u: string, i: nat): (r: (nat, int))
    requires i <= |u|
    ensures i <= r.0 <= |u|
    ensures r.0 == i ==> r.1 == 0
  {
    if i < |u| && (u[i] == 'e' || u[i] == 'E') then
      var signed := i + 1 < |u| && (u[i + 1] == '+' || u[i + 1] == '-');
      var j := if signed then i + 2 else i + 1;
      var k := DigitEnd(u, j);
      if k > j then
        var magnitude: int := DigitsValue(u[j..k]);
        (k, if signed && u[i + 1] == '-' then -magnitude else magnitude)
      else (i, 0)
    else (i, 0)
  }

  /** The value of the longest unsigned decimal literal (or `Infinity`) at the start of `u`. */
  function UnsignedPrefix(u: string): Option<Number> {
    if |u| >= |InfinityWord| && u[..|InfinityWord|] == InfinityWord then Some(PosInfinity)
    else
      var i := DigitEnd(u, 0);
      var dot := i < |u| && u[i] == '.';
      var fracStart := if dot then i + 1 else i;
      var f := DigitEnd(u, fracStart);
      if i == 0 && f == fracStart then None
      else
        var e := ExponentPart(u, f);
        var mantissa := DigitsValue(u[..i]) as real + FractionValue(u[fracStart..f]);
        Some(Finite(Scale(mantissa, e.1)))
  }

  function Negate(n: Number): Number {
    match n
    case Finite(v) => Finite(-v)
    case PosInfinity => NegInfinity
    case NegInfinity => PosInfinity
  }

  /** `u` begins like a number: `Infinity`, a digit, or a point followed by a digit. */
  predicate StartsUnsignedNumber(u: string) {
    || (|u| >= |InfinityWord| && u[..|InfinityWord|] == InfinityWord)
    || (|u| > 0 && IsDigit(u[0]))
    || (|u| > 1 && u[0] == '.' && IsDigit(u[1]))
  }

  /** The length of the optional sign at the start of `t`. */
  function SignLength(t: string): (k: nat)
    ensures k <= |t|
  {
    if t != [] && (t[0] == '-' || t[0] == '+') then 1 else 0
  }

  /** The text after leading white space and an optional sign begins like a number. */
  predicate HasNumericPrefix(s: string) {
    var t := s[WhitespaceEnd(s, 0)..];
    StartsUnsignedNumber(t[SignLength(t)..])
  }

  /** `parseFloat(s)`; `None` is NaN. */
  function ParseFloat(s: string): (r: Option<Number>)
    ensures r.Some? <==> HasNumericPrefix(s)
  {
    var t := s[WhitespaceEnd(s, 0)..];
    var k := SignLength(t);
    UnsignedDefined(t[k..]);
    match UnsignedPrefix(t[k..])
    case None => None
    case Some(n) => Some(if k == 1 && t[0] == '-' then Negate(n) else n)
  }

  lemma UnsignedDefined(u: string)
    ensures UnsignedPrefix(u).Some? <==> StartsUnsignedNumber(u)
  {
    var i := DigitEnd(u, 0);
    if |u| > 0 && IsDigit(u[0]) {
      assert i > 0;
    }
    if |u| > 1 && u[0] == '.' && IsDigit(u[1]) {
      assert i == 0 && DigitEnd(u, 1) > 1;
    }
  }

  /** A plain run of digits reads as its decimal value. */
  lemma DigitsParse(u: string)
    requires u != [] && AllDigits(u)
    ensures UnsignedPrefix(u) == Some(Finite(DigitsValue(u) as real))
  {
    assert u[..|u|] == u;
    assert IsDigit(u[0]) && !IsDigit(InfinityWord[0]);
    var i := DigitEnd(u, 0);
    assert i == |u|;
    assert DigitEnd(u, i) == i;
    assert ExponentPart(u, i) == (i, 0);
    assert u[i..i] == [];
  }

  /** A plain run of digits, with nothing around it, reads as its decimal value. */
  lemma WholeParse(w: string)
    requires w != [] && AllDigits(w)
    ensures ParseFloat(w) == Some(Finite(DigitsValue(w) as real))
  {
    DigitsParse(w);
    assert IsDigit(w[0]);
    assert WhitespaceEnd(w, 0) == 0;
    assert w[0..] == w;
    assert SignLength(w) == 0;
  }

  lemma {:induction false} DigitEndIs(u: string, i: nat, j: nat)
    requires i <= j <= |u|
    requires forall k :: i <= k < j ==> IsDigit(u[k])
    requires j == |u| || !IsDigit(u[j])
    ensures DigitEnd(u, i) == j
    decreases j - i
  {
    if i < j {
      DigitEndIs(u, i + 1, j);
    }
  }

  /**
   * Digits followed by text that cannot continue a number (not a digit, point or
   * exponent letter) read as the digits' value: the rest is ignored.
   */
  lemma WholeThenText(w: string, rest: string)
    requires w != [] && AllDigits(w)
    requires rest == [] || (!IsDigit(rest[0]) && rest[0] != '.' && rest[0] != 'e' && rest[0] != 'E')
    ensures ParseFloat(w + rest) == Some(Finite(DigitsValue(w) as real))
  {
    var u := w + rest;
    assert u[0] == w[0] && IsDigit(u[0]);
    assert WhitespaceEnd(u, 0) == 0;
    assert u[0..] == u;
    assert !IsDigit(InfinityWord[0]);
    DigitEndIs(u, 0, |w|);
    assert u[..|w|] == w;
    assert |w| < |u| ==> u[|w|] == rest[0];
    assert DigitEnd(u, |w|) == |w|;
    assert ExponentPart(u, |w|) == (|w|, 0);
    assert u[|w|..|w|] == [];
  }

  /** The value of the decimal literal `w.f`. */
  function DecimalValue(w: string, f: string): real
    requires AllDigits(w) && AllDigits(f)
  {
    DigitsValue(w) as real + FractionValue(f)
  }

  /** Digits, a point and digits read as the whole part plus the fraction. */
  lemma DecimalParse(w: string, f: string)
    requires w != [] && AllDigits(w) && AllDigits(f)
    ensures ParseFloat(w + "." + f) == Some(Finite(DecimalValue(w, f)))
  {
    var u := w + "." + f;
    var e := |u|;
    assert u[0] == w[0] && IsDigit(u[0]);
    assert WhitespaceEnd(u, 0) == 0;
    assert u[0..] == u;
    assert !IsDigit(InfinityWord[0]);
    assert u[|w|] == '.';
    DigitEndIs(u, 0, |w|);
    assert forall k :: |w| + 1 <= k < e ==> u[k] == f[k - |w| - 1];
    DigitEndIs(u, |w| + 1, e);
    assert ExponentPart(u, e) == (e, 0);
    assert u[..|w|] == w;
    assert u[|w| + 1..e] == f;
    var m := DecimalValue(w, f);
    assert Scale(m, 0) == m;
    assert UnsignedPrefix(u) == Some(Finite(m));
    assert u[0] != '-' && u[0] != '+';
  }

  /** A minus sign before a run of digits negates its value. */
  lemma NegativeWholeParse(s: string)
    requires |s| >= 2 && s[0] == '-' && AllDigits(s[1..])
    ensures ParseFloat(s) == Some(Finite(-(DigitsValue(s[1..]) as real)))
  {
    DigitsParse(s[1..]);
    assert WhitespaceEnd(s, 0) == 0;
    assert s[0..] == s;
    assert SignLength(s) == 1;
  }

  /** Reading back the decimal rendering of an integer gives that integer. */
  lemma IntToStringParses(n: int)
    ensures ParseFloat(IntToString(n)) == Some(Finite(n as real))
  {
    var s := IntToString(n);
    if n < 0 {
      var u := NatToString(-n);
      assert s == "-" + u;
      NatToStringValue(-n);
      assert s[1..] == u;
      NegativeWholeParse(s);
      assert -(DigitsValue(u) as real) == n as real;
    } else {
      assert s == NatToString(n);
      NatToStringValue(n);
      WholeParse(s);
    }
  }
}
