/**
 * The grading route: the demo problem is graded by comparing the trimmed answer with
 * "4"; a stored problem is graded by `isEquivalent` (trimmed text equality, or numeric
 * prefixes within one millionth), and earns 10 XP when correct. An unknown id is a 404.
 */
module GradeRoute {
  import opened Optional
  import opened Text
  import opened Json
  import opened NumericPrefix
  import opened Cache
  import opened DemoProblem

  /** Both numbers are finite and differ by less than one millionth (`Math.abs(n1 - n2) < 1e-6`). */
  predicate WithinTolerance(x: Number, y: Number) {
    x.Finite? && y.Finite? && -1.0 / 1000000.0 < x.value - y.value < 1.0 / 1000000.0
  }

  /** `isEquivalent(correctAns, guess)`. */
  function IsEquivalent(correctAnswer: string, guess: string): (r: bool)
    ensures Trim(correctAnswer) == Trim(guess) ==> r
    ensures r && Trim(correctAnswer) != Trim(guess) ==>
              HasNumericPrefix(correctAnswer) && HasNumericPrefix(guess)
              && ParseFloat(correctAnswer).value.Finite? && ParseFloat(guess).value.Finite?
  {
    if Trim(correctAnswer) == Trim(guess) then true
    else
      var n1 := ParseFloat(correctAnswer);
      var n2 := ParseFloat(guess);
      if n1.Some? && n2.Some? then WithinTolerance(n1.value, n2.value) else false
  }

  lemma EquivalenceReflexive(a: string)
    ensures IsEquivalent(a, a)
  {
  }

  /** The order of the arguments does not matter. */
  lemma EquivalenceSymmetric(a: string, b: string)
    ensures IsEquivalent(a, b) == IsEquivalent(b, a)
  {
  }

  /** Text without a numeric prefix is accepted only when it matches after trimming. */
  lemma NonNumericNeedsExactText(a: string, b: string)
    requires !HasNumericPrefix(b)
    ensures IsEquivalent(a, b) <==> Trim(a) == Trim(b)
  {
  }

  /** The request body: the problem id and the learner's answer. */
  datatype GradeRequest = GradeRequest(id: string, learnerAnswer: string)

  /** What a grading decides: the verdict, the explanation and the XP earned. */
  datatype Verdict = Verdict(correct: bool, explanation: string, xpGained: int)

  const DemoCorrectExplanation: string := "Great job! 2 + 2 = 4 is correct."
  const DemoWrongExplanation: string := "The correct answer is 4. 2 + 2 = 4."
  const CorrectXp: int := 10

  const WrongLead: string := "Correct answer was "
  const WrongMid: string := ". Review the following steps:\n\n"

  /** The explanation shown after a wrong answer: the fixed lead, the expected answer, the fixed middle, then the solution. */
  function WrongAnswerExplanation(p: Problem): (r: string)
    ensures |r| == |WrongLead| + |p.answer| + |WrongMid| + |p.solution|
    ensures r[..|WrongLead|] == WrongLead
    ensures r[|WrongLead|..|WrongLead| + |p.answer|] == p.answer
    ensures r[|WrongLead| + |p.answer|..|r| - |p.solution|] == WrongMid
    ensures r[|r| - |p.solution|..] == p.solution
  {
    WrongLead + p.answer + WrongMid + p.solution
  }

  /** The verdict for a request against the store `m`; `None` when the id is unknown. */
  function Grade(m: map<string, Problem>, req: GradeRequest): (r: Option<Verdict>)
    ensures r.None? <==> req.id != DemoId && req.id !in m
    ensures r.Some? ==> (r.value.xpGained == CorrectXp <==> r.value.correct)
    ensures r.Some? ==> (r.value.xpGained == 0 <==> !r.value.correct)
    ensures req.id == DemoId ==> r.Some? && (r.value.correct <==> Trim(req.learnerAnswer) == "4")
    ensures req.id == DemoId ==>
              r.Some? && r.value.explanation == (if r.value.correct then DemoCorrectExplanation else DemoWrongExplanation)
    ensures req.id != DemoId && req.id in m ==>
              r.Some? && r.value.correct == IsEquivalent(m[req.id].answer, req.learnerAnswer)
    ensures req.id != DemoId && r.Some? && r.value.correct ==> r.value.explanation == m[req.id].solution
    ensures req.id != DemoId && r.Some? && !r.value.correct ==>
              r.value.explanation == WrongAnswerExplanation(m[req.id])
  {
    if req.id == DemoId then
      var correct := Trim(req.learnerAnswer) == "4";
      Some(Verdict(correct, if correct then DemoCorrectExplanation else DemoWrongExplanation,
                   if correct then CorrectXp else 0))
    else if req.id !in m then None
    else
      var entry := m[req.id];
      var correct := IsEquivalent(entry.answer, req.learnerAnswer);
      Some(Verdict(correct, if correct then entry.solution else WrongAnswerExplanation(entry),
                   if correct then CorrectXp else 0))
  }

  /** The HTTP response: the verdict as JSON with status 200, or the text "Not found" with 404. */
  function GradeResponse(m: map<string, Problem>, req: GradeRequest): (r: Response)
    ensures r.status == 404 <==> Grade(m, req).None?
    ensures r.status == 404 ==> r.body == TextBody("Not found")
    ensures r.status != 404 ==> r.status == 200 && BodyKeys(r.body) == ["correct", "explanation", "xpGained"]
    ensures r.status == 200 ==>
              && r.body.JsonBody?
              && Lookup(r.body.fields, "correct") == Some(JBool(Grade(m, req).value.correct))
              && Lookup(r.body.fields, "explanation") == Some(JStr(Grade(m, req).value.explanation))
              && Lookup(r.body.fields, "xpGained") == Some(JNum(Grade(m, req).value.xpGained as real))
  {
    match Grade(m, req)
    case None => Response(404, TextBody("Not found"))
    case Some(v) =>
      Response(200, JsonBody([("correct", JBool(v.correct)), ("explanation", JStr(v.explanation)),
                              ("xpGained", JNum(v.xpGained as real))]))
  }

  /** The demo id is graded without looking at the store, even when the store holds that id. */
  lemma DemoIgnoresStore(m1: map<string, Problem>, m2: map<string, Problem>, answer: string)
    ensures Grade(m1, GradeRequest(DemoId, answer)) == Grade(m2, GradeRequest(DemoId, answer))
  {
  }

  /** Grading never looks at a record's age: an expired record is still graded. */
  lemma GradeIgnoresTimestamp(m: map<string, Problem>, id: string, answer: string, t: Option<int>)
    requires id in m
    ensures Grade(m[id := m[id].(timestamp := t)], GradeRequest(id, answer)) == Grade(m, GradeRequest(id, answer))
  {
  }

  /** Integer answers, written plainly, are equivalent exactly when they are equal. */
  lemma IntegerAnswers(a: int, b: int)
    ensures IsEquivalent(IntToString(a), IntToString(b)) <==> a == b
  {
    IntToStringTrimmed(a);
    IntToStringTrimmed(b);
    IntToStringParses(a);
    IntToStringParses(b);
  }

  lemma IntToStringTrimmed(n: int)
    ensures Trim(IntToString(n)) == IntToString(n)
  {
    var s := IntToString(n);
    var m: nat := if n < 0 then -n else n;
    var digits := NatToString(m);
    assert s[|s| - 1] == digits[|digits| - 1];
    assert s[0] == '-' || s[0] == digits[0];
    TrimOfTrimmed(s);
  }

  /** The stored answer itself is always graded correct, with its solution as explanation. */
  lemma OwnAnswerIsCorrect(m: map<string, Problem>, id: string)
    requires id in m && id != DemoId
    ensures Grade(m, GradeRequest(id, m[id].answer)) == Some(Verdict(true, m[id].solution, CorrectXp))
  {
    EquivalenceReflexive(m[id].answer);
  }

  /** Leading white space in the learner's answer is ignored. */
  lemma LeadingSpaceIgnored(a: string, guess: string, pad: string)
    requires forall i :: 0 <= i < |pad| ==> IsWhitespace(pad[i])
    requires Trim(a) == Trim(guess)
    ensures IsEquivalent(a, pad + guess)
  {
    assert (pad + guess)[|pad|..] == guess;
    TrimSkipsLeading(pad + guess, |pad|);
  }

  // ---------------------------------------------------------------------------
  // Worked cases, for any whole number `w` written in digits (such as "4")

  /** A run of zeros is worth nothing. */
  lemma {:induction false} ZerosValue(z: string)
    requires forall i :: 0 <= i < |z| ==> z[i] == '0'
    ensures AllDigits(z) && FractionValue(z) == 0.0
  {
    if z != [] {
      ZerosValue(z[1..]);
    }
  }

  /** Two texts whose numeric prefixes are within the tolerance are equivalent. */
  lemma EquivalentByValue(a: string, b: string, x: real, y: real)
    requires ParseFloat(a) == Some(Finite(x)) && ParseFloat(b) == Some(Finite(y))
    requires -1.0 / 1000000.0 < x - y < 1.0 / 1000000.0
    ensures IsEquivalent(a, b)
  {
  }

  /** `w` and `w.0…0` are the same number, so "4" and "4.0" are equivalent. */
  lemma TrailingZeroFraction(w: string, zeros: string)
    requires w != [] && AllDigits(w)
    requires forall i :: 0 <= i < |zeros| ==> zeros[i] == '0'
    ensures IsEquivalent(w, w + "." + zeros)
  {
    ZerosValue(zeros);
    WholeParse(w);
    DecimalParse(w, zeros);
    EquivalentByValue(w, w + "." + zeros, DigitsValue(w) as real, DecimalValue(w, zeros));
  }

  /** A number followed by words is read by its numeric prefix, so "4" and "4 apples" are equivalent. */
  lemma NumberWithWords(w: string, words: string)
    requires w != [] && AllDigits(w)
    requires words != [] && IsWhitespace(words[0])
    ensures IsEquivalent(w, w + words)
  {
    WholeParse(w);
    WholeThenText(w, words);
    EquivalentByValue(w, w + words, DigitsValue(w) as real, DigitsValue(w) as real);
  }

  /** A fraction below one millionth is within the tolerance, so "4" and "4.0000005" are equivalent. */
  lemma WithinMillionth(w: string, f: string)
    requires w != [] && AllDigits(w) && AllDigits(f)
    requires FractionValue(f) < 1.0 / 1000000.0
    ensures IsEquivalent(w, w + "." + f)
  {
    WholeParse(w);
    DecimalParse(w, f);
    EquivalentByValue(w, w + "." + f, DigitsValue(w) as real, DecimalValue(w, f));
  }

  /**
   * A fraction of exactly one millionth is too far, since the comparison is strict:
   * "4" and "4.000001" are not equivalent.
   */
  lemma OneMillionthApart(w: string, f: string)
    requires w != [] && AllDigits(w) && AllDigits(f)
    requires FractionValue(f) == 1.0 / 1000000.0
    ensures !IsEquivalent(w, w + "." + f)
  {
    WholeParse(w);
    DecimalParse(w, f);
    FractionTrimsDiffer(w, f);
    NotEquivalentByValue(w, w + "." + f, DigitsValue(w) as real, DecimalValue(w, f));
  }

  /** Texts that differ after trimming, with numeric prefixes outside the tolerance, are not equivalent. */
  lemma NotEquivalentByValue(a: string, b: string, x: real, y: real)
    requires Trim(a) != Trim(b)
    requires ParseFloat(a) == Some(Finite(x)) && ParseFloat(b) == Some(Finite(y))
    requires !(-1.0 / 1000000.0 < x - y < 1.0 / 1000000.0)
    ensures !IsEquivalent(a, b)
  {
  }

  /** `w` and `w.f` are different texts even after trimming. */
  lemma FractionTrimsDiffer(w: string, f: string)
    requires w != [] && AllDigits(w) && AllDigits(f)
    ensures Trim(w) != Trim(w + "." + f)
  {
    var v := w + "." + f;
    assert v[0] == w[0] && (v[|v| - 1] == '.' || IsDigit(v[|v| - 1]));
    TrimOfTrimmed(w);
    TrimOfTrimmed(v);
    assert |v| != |w|;
  }

  /** The fraction `000001` is one millionth. */
  lemma MillionthFraction()
    ensures AllDigits("000001") && FractionValue("000001") == 1.0 / 1000000.0
  {
  }

  /** The fraction `0000005` is half a millionth. */
  lemma HalfMillionthFraction()
    ensures AllDigits("0000005") && FractionValue("0000005") == 5.0 / 10000000.0
  {
  }

  /** The tolerance makes the relation non-transitive: `w` ≈ `w.f` ≈ `w.g`, yet `w` ≉ `w.g`. */
  lemma NotTransitive(w: string, f: string, g: string)
    requires w != [] && AllDigits(w) && AllDigits(f) && AllDigits(g)
    requires FractionValue(f) == 5.0 / 10000000.0 && FractionValue(g) == 1.0 / 1000000.0
    ensures IsEquivalent(w, w + "." + f) && IsEquivalent(w + "." + f, w + "." + g)
    ensures !IsEquivalent(w, w + "." + g)
  {
    WithinMillionth(w, f);
    DecimalParse(w, f);
    DecimalParse(w, g);
    EquivalentByValue(w + "." + f, w + "." + g, DecimalValue(w, f), DecimalValue(w, g));
    OneMillionthApart(w, g);
  }

  /** "pi" is not a number: against it only an answer that trims to "pi" is accepted, so never "3.14159". */
  lemma PiIsNotANumber(a: string)
    ensures IsEquivalent(a, "pi") <==> Trim(a) == "pi"
  {
    NotNumeric("pi");
    TrimOfTrimmed("pi");
  }

  /** Text starting with a letter other than `I` has no numeric prefix. */
  lemma NotNumeric(s: string)
    requires s != [] && ('a' <= s[0] <= 'z' || ('A' <= s[0] <= 'Z' && s[0] != 'I'))
    ensures !HasNumericPrefix(s)
  {
    assert WhitespaceEnd(s, 0) == 0;
    assert s[0..] == s;
  }

  /** The demo compares text only: "4.0" is wrong for the demo, though a stored "4" accepts it. */
  lemma DemoIsTextual(m: map<string, Problem>, id: string, zeros: string)
    requires id in m && id != DemoId && m[id].answer == "4"
    requires zeros != [] && forall i :: 0 <= i < |zeros| ==> zeros[i] == '0'
    ensures !Grade(m, GradeRequest(DemoId, "4" + "." + zeros)).value.correct
    ensures Grade(m, GradeRequest(id, "4" + "." + zeros)).value.correct
  {
    var v := "4" + "." + zeros;
    assert v[0] == '4' && v[|v| - 1] == '0';
    TrimOfTrimmed(v);
    assert |v| != 1;
    TrailingZeroFraction("4", zeros);
  }
}
