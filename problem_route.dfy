/**
 * The problem-generation route: adapts the requested difficulty to the last three
 * outcomes, describes the difficulty in words, asks the language model for a
 * problem, reads the `PROMPT:` / `ANSWER:` / `SOLUTION:` fields out of its reply,
 * stores the record under a fresh id and answers with the public fields only.
 * The model's reply, the API key and the generated id are parameters.
 */
module ProblemRoute {
  import opened Optional
  import opened Text
  import opened Json
  import opened Cache
  import opened History
  import opened DemoProblem

  // ---------------------------------------------------------------------------
  // Adaptive difficulty

  const MinDifficulty: int := 1
  const MaxDifficulty: int := 10

  /** `problemHistory.slice(-3)`. */
  function LastThree(h: seq<HistoryEntry>): (r: seq<HistoryEntry>)
    ensures |r| == if |h| < 3 then |h| else 3
    ensures forall j :: 0 <= j < |r| ==> r[j] == h[|h| - |r| + j]
  {
    if |h| <= 3 then h else h[|h| - 3..]
  }

  /** `entries.filter(p => p.correct).length`. */
  function CountCorrect(entries: seq<HistoryEntry>): (n: nat)
    ensures n <= |entries|
  {
    if entries == [] then 0
    else (if entries[0].correct then 1 else 0) + CountCorrect(entries[1..])
  }

  /** Every entry is correct exactly when all of them count, and none is when the count is 0. */
  lemma {:induction false} CountCorrectExtremes(entries: seq<HistoryEntry>)
    ensures CountCorrect(entries) == |entries| <==> forall j :: 0 <= j < |entries| ==> entries[j].correct
    ensures CountCorrect(entries) == 0 <==> forall j :: 0 <= j < |entries| ==> !entries[j].correct
  {
    if entries != [] {
      CountCorrectExtremes(entries[1..]);
      assert forall j :: 1 <= j < |entries| ==> entries[j] == entries[1..][j - 1];
    }
  }

  /**
   * The adjusted difficulty: with some history, three correct answers among the last
   * three raise it (capped at 10) and no correct answer among the last (up to) three
   * lowers it (floored at 1); anything else, and an empty history, leaves it alone.
   */
  function AdjustDifficulty(difficulty: int, history: seq<HistoryEntry>): (r: int)
    ensures history == [] ==> r == difficulty
    ensures (|history| >= 3 && forall i :: |history| - 3 <= i < |history| ==> history[i].correct) ==>
              r == (if difficulty + 1 < MaxDifficulty then difficulty + 1 else MaxDifficulty)
    ensures (history != [] && forall i :: 0 <= i < |history| && |history| - 3 <= i ==> !history[i].correct) ==>
              r == (if difficulty - 1 > MinDifficulty then difficulty - 1 else MinDifficulty)
    ensures ((exists i :: 0 <= i < |history| && |history| - 3 <= i && history[i].correct)
             && (|history| < 3 || exists i :: |history| - 3 <= i < |history| && !history[i].correct)) ==>
              r == difficulty
    ensures MinDifficulty <= difficulty <= MaxDifficulty ==>
              MinDifficulty <= r <= MaxDifficulty && difficulty - 1 <= r <= difficulty + 1
  {
    if |history| > 0 then
      var recent := LastThree(history);
      CountCorrectExtremes(recent);
      StepDifficulty(difficulty, CountCorrect(recent))
    else difficulty
  }

  /** The step the count of correct recent answers calls for: up on three, down on none. */
  function StepDifficulty(difficulty: int, correctCount: nat): int {
    if correctCount == 3 then
      if difficulty + 1 < MaxDifficulty then difficulty + 1 else MaxDifficulty
    else if correctCount == 0 then
      if difficulty - 1 > MinDifficulty then difficulty - 1 else MinDifficulty
    else difficulty
  }

  /** Entries older than the last three never matter. */
  lemma OnlyLastThreeMatter(difficulty: int, older: seq<HistoryEntry>, recent: seq<HistoryEntry>)
    requires |recent| == 3
    ensures AdjustDifficulty(difficulty, older + recent) == AdjustDifficulty(difficulty, recent)
  {
    var h := older + recent;
    assert LastThree(h) == recent;
    assert LastThree(recent) == recent;
    assert AdjustDifficulty(difficulty, h) == StepDifficulty(difficulty, CountCorrect(recent));
  }

  /** One or two answers, all wrong, already lower the difficulty. */
  lemma ShortWrongHistoryLowers(difficulty: int, history: seq<HistoryEntry>)
    requires 1 <= |history| <= 2 && forall i :: 0 <= i < |history| ==> !history[i].correct
    requires difficulty > MinDifficulty
    ensures AdjustDifficulty(difficulty, history) == difficulty - 1
  {
  }

  // ---------------------------------------------------------------------------
  // Difficulty bands

  const VeryEasyBand: string := "very easy - basic concepts"
  const EasyBand: string := "easy - fundamental skills"
  const ModerateBand: string := "moderate - standard problems"
  const ChallengingBand: string := "challenging - complex problems"
  const AdvancedBand: string := "advanced - expert level"

  /** `getDifficultyDescription`: the band a difficulty falls in. */
  function DifficultyDescription(difficulty: int): (r: string)
    ensures r == VeryEasyBand <==> difficulty <= 2
    ensures r == EasyBand <==> 3 <= difficulty <= 4
    ensures r == ModerateBand <==> 5 <= difficulty <= 6
    ensures r == ChallengingBand <==> 7 <= difficulty <= 8
    ensures r == AdvancedBand <==> difficulty > 8
  {
    if difficulty <= 2 then VeryEasyBand
    else if difficulty <= 4 then EasyBand
    else if difficulty <= 6 then ModerateBand
    else if difficulty <= 8 then ChallengingBand
    else AdvancedBand
  }

  // ---------------------------------------------------------------------------
  // Reading the labelled fields

  /** The first content block of the model's reply. */
  datatype ContentBlock = TextBlock(text: string) | OtherBlock

  /** The reply text: the first block's text when it is a text block, otherwise "". */
  function ReplyText(content: seq<ContentBlock>): (r: string)
    ensures r != "" ==> content != [] && content[0] == TextBlock(r)
    ensures content != [] && content[0].TextBlock? ==> r == content[0].text
    ensures !(content != [] && content[0].TextBlock?) ==> r == ""
  {
    if content != [] && content[0].TextBlock? then content[0].text else ""
  }

  const PromptLabel: string := "PROMPT:"
  const AnswerLabel: string := "ANSWER:"
  const SolutionLabel: string := "SOLUTION:"

  /** The last position in `[lo, hi)` holding a character other than a line terminator. */
  function LastNonTerminator(s: string, lo: nat, hi: nat): (r: Option<nat>)
    requires lo <= hi <= |s|
    ensures r.Some? ==> lo <= r.value < hi && !IsLineTerminator(s[r.value])
    ensures r.Some? ==> forall j :: r.value < j < hi ==> IsLineTerminator(s[j])
    ensures r.None? ==> forall j :: lo <= j < hi ==> IsLineTerminator(s[j])
    decreases hi - lo
  {
    if hi == lo then None
    else if !IsLineTerminator(s[hi - 1]) then Some(hi - 1)
    else LastNonTerminator(s, lo, hi - 1)
  }

  /**
   * The capture of `\s*(.+)` tried at position `p`. The greedy `\s*` takes all white space;
   * if text remains, `.+` takes the rest of that line. If it reached the end, `\s*` gives
   * back characters one at a time until `.+` can take one that is not a line terminator.
   */
  function RestOfLineAt(s: string, p: nat): (r: Option<string>)
    requires p <= |s|
    ensures r.None? <==> forall j :: p <= j < |s| ==> IsLineTerminator(s[j])
    ensures r.Some? ==> r.value != [] && forall j :: 0 <= j < |r.value| ==> !IsLineTerminator(r.value[j])
  {
    var q := WhitespaceEnd(s, p);
    if q < |s| then
      Some(s[q..LineEnd(s, q)])
    else
      match LastNonTerminator(s, p, q)
      case Some(k) => Some(s[k..LineEnd(s, k)])
      case None => None
  }

  /**
   * Where the capture sits: after a run of white space, up to a line terminator or the
   * end of the text; and when anything but white space follows `p`, the capture starts
   * at the first such character.
   */
  lemma RestOfLineCapture(s: string, p: nat)
    requires p <= |s|
    ensures var r := RestOfLineAt(s, p);
            r.Some? ==> exists k :: p <= k && k + |r.value| <= |s| && s[k..k + |r.value|] == r.value
                                    && AllWhitespace(s[p..k])
                                    && (k + |r.value| == |s| || IsLineTerminator(s[k + |r.value|]))
    ensures WhitespaceEnd(s, p) < |s| ==> RestOfLineAt(s, p).Some? && !IsWhitespace(RestOfLineAt(s, p).value[0])
  {
    var q := WhitespaceEnd(s, p);
    if q < |s| {
      var e := LineEnd(s, q);
      assert RestOfLineAt(s, p) == Some(s[q..e]);
      assert AllWhitespace(s[p..q]) by {
        assert forall i :: 0 <= i < q - p ==> s[p..q][i] == s[p + i];
      }
      assert s[q..q + |s[q..e]|] == s[q..e];
    } else {
      match LastNonTerminator(s, p, q)
      case Some(k) =>
        var e := LineEnd(s, k);
        assert RestOfLineAt(s, p) == Some(s[k..e]);
        assert AllWhitespace(s[p..k]) by {
          assert forall i :: 0 <= i < k - p ==> s[p..k][i] == s[p + i];
        }
        assert s[k..k + |s[k..e]|] == s[k..e];
      case None =>
    }
  }


  /**
   * `s.match(/LABEL\s*(.+)/i)?.[1]`: the capture at the leftmost position, from `pos` on,
   * where the tag occurs (ignoring ASCII case) and the rest of the pattern matches.
   */
  function LabelCapture(s: string, tag: string, pos: nat): Option<string>
    decreases |s| - pos
  {
    if pos + |tag| > |s| then None
    else if MatchesAt(s, tag, pos, true) && RestOfLineAt(s, pos + |tag|).Some? then
      RestOfLineAt(s, pos + |tag|)
    else LabelCapture(s, tag, pos + 1)
  }

  /** The capture after the first occurrence of the tag from `pos` on, the plain reading of the regex. */
  function CaptureAfterFirst(s: string, tag: string, pos: nat := 0): Option<string> {
    match IndexOf(s, tag, pos, true)
    case Some(i) => RestOfLineAt(s, i + |tag|)
    case None => None
  }

  /** A character that folds to `:` is `:`. */
  lemma ColonFolds(c: char)
    ensures CharEq(c, ':', true) <==> c == ':'
  {
  }

  lemma {:induction false} NoOccurrenceNoCapture(s: string, tag: string, pos: nat)
    requires forall k :: pos <= k ==> !MatchesAt(s, tag, k, true)
    ensures LabelCapture(s, tag, pos).None?
    decreases |s| - pos
  {
    if pos + |tag| <= |s| {
      NoOccurrenceNoCapture(s, tag, pos + 1);
    }
  }

  /** Once the capture fails after an occurrence, only line terminators follow, so no colon does. */
  lemma NoLaterOccurrence(s: string, tag: string, pos: nat)
    requires |tag| > 0 && tag[|tag| - 1] == ':'
    requires pos + |tag| <= |s| && RestOfLineAt(s, pos + |tag|).None?
    ensures forall k :: pos < k ==> !MatchesAt(s, tag, k, true)
  {
    forall k | pos < k
      ensures !MatchesAt(s, tag, k, true)
    {
      if k + |tag| <= |s| {
        assert IsLineTerminator(s[k + (|tag| - 1)]);
        ColonFolds(s[k + (|tag| - 1)]);
        assert !CharEq(s[k + (|tag| - 1)], tag[|tag| - 1], true);
      }
    }
  }

  /** At an occurrence, the regex and its plain reading agree. */
  lemma CaptureAtOccurrence(s: string, tag: string, pos: nat)
    requires |tag| > 0 && tag[|tag| - 1] == ':'
    requires MatchesAt(s, tag, pos, true)
    ensures LabelCapture(s, tag, pos) == CaptureAfterFirst(s, tag, pos)
  {
    assert IndexOf(s, tag, pos, true) == Some(pos);
    if RestOfLineAt(s, pos + |tag|).None? {
      NoLaterOccurrence(s, tag, pos);
      NoOccurrenceNoCapture(s, tag, pos + 1);
    }
  }

  /** A position without an occurrence is skipped by both. */
  lemma CaptureSkipsNonOccurrence(s: string, tag: string, pos: nat)
    requires pos + |tag| <= |s| && !MatchesAt(s, tag, pos, true)
    requires LabelCapture(s, tag, pos + 1) == CaptureAfterFirst(s, tag, pos + 1)
    ensures LabelCapture(s, tag, pos) == CaptureAfterFirst(s, tag, pos)
  {
    assert IndexOf(s, tag, pos, true) == IndexOf(s, tag, pos + 1, true);
  }

  /**
   * For a label ending in a colon, the regex is decided at the label's first occurrence:
   * if the capture fails there, only line terminators follow, so no later occurrence exists.
   */
  lemma {:induction false} LabelCaptureFromFirst(s: string, tag: string, pos: nat)
    requires |tag| > 0 && tag[|tag| - 1] == ':'
    ensures LabelCapture(s, tag, pos) == CaptureAfterFirst(s, tag, pos)
    decreases |s| - pos
  {
    if pos + |tag| > |s| {
    } else if MatchesAt(s, tag, pos, true) {
      CaptureAtOccurrence(s, tag, pos);
    } else {
      LabelCaptureFromFirst(s, tag, pos + 1);
      CaptureSkipsNonOccurrence(s, tag, pos);
    }
  }

  lemma LabelCaptureIsFirst(s: string, tag: string)
    requires |tag| > 0 && tag[|tag| - 1] == ':'
    ensures LabelCapture(s, tag, 0) == CaptureAfterFirst(s, tag)
  {
    LabelCaptureFromFirst(s, tag, 0);
  }

  /** `s.replace(/pat/i, "")`: the first occurrence of the pattern removed. */
  function RemoveFirst(s: string, pat: string): (r: string)
    ensures IndexOf(s, pat, 0, true).None? ==> r == s
    ensures IndexOf(s, pat, 0, true).Some? ==> |r| == |s| - |pat|
    ensures IndexOf(s, pat, 0, true).Some? ==>
              var i := IndexOf(s, pat, 0, true).value;
              r[..i] == s[..i] && r[i..] == s[i + |pat|..]
  {
    match IndexOf(s, pat, 0, true)
    case Some(i) => s[..i] + s[i + |pat|..]
    case None => s
  }

  /**
   * The solution field: `s.match(/SOLUTION:[\s\S]*$/i)` is everything from the first
   * tag on; the tag is then removed and the rest trimmed. "" without the tag.
   */
  function SolutionText(s: string): string {
    match IndexOf(s, SolutionLabel, 0, true)
    case Some(i) => Trim(RemoveFirst(s[i..], SolutionLabel))
    case None => ""
  }

  /** An occurrence of `tag` at `i` is an occurrence at the start of `s[i..]`. */
  lemma MatchesAtSuffix(s: string, tag: string, i: nat)
    requires MatchesAt(s, tag, i, true)
    ensures MatchesAt(s[i..], tag, 0, true)
  {
    assert forall k :: 0 <= k < |tag| ==> s[i..][k] == s[i + k];
  }

  /** Removing a tag that starts the text leaves what follows it. */
  lemma RemoveFirstAtStart(t: string, tag: string)
    requires MatchesAt(t, tag, 0, true)
    ensures RemoveFirst(t, tag) == t[|tag|..]
  {
    assert IndexOf(t, tag, 0, true) == Some(0);
    assert t[..0] + t[|tag|..] == t[|tag|..];
  }

  /** The solution is the trimmed text after the first `SOLUTION:` tag. */
  lemma SolutionAfterLabel(s: string)
    ensures IndexOf(s, SolutionLabel, 0, true).Some? ==>
      var i := IndexOf(s, SolutionLabel, 0, true).value;
      SolutionText(s) == Trim(s[i + |SolutionLabel|..])
    ensures IndexOf(s, SolutionLabel, 0, true).None? ==> SolutionText(s) == ""
  {
    match IndexOf(s, SolutionLabel, 0, true)
    case Some(i) =>
      MatchesAtSuffix(s, SolutionLabel, i);
      RemoveFirstAtStart(s[i..], SolutionLabel);
      assert s[i..][|SolutionLabel|..] == s[i + |SolutionLabel|..];
    case None =>
  }

  /**
   * The record read from a reply: `None` when the prompt or the answer field is missing.
   * Prompt and answer are the trimmed rest of the line after each tag's first occurrence.
   */
  function ParseReply(text: string): (r: Option<Problem>)
    ensures r.None? <==> CaptureAfterFirst(text, PromptLabel).None? || CaptureAfterFirst(text, AnswerLabel).None?
    ensures r.Some? ==> r.value.prompt == Trim(CaptureAfterFirst(text, PromptLabel).value)
    ensures r.Some? ==> r.value.answer == Trim(CaptureAfterFirst(text, AnswerLabel).value)
    ensures r.Some? ==> r.value.solution == SolutionText(text)
    ensures r.Some? ==> r.value.kind.None? && r.value.timestamp.None?
  {
    LabelCaptureIsFirst(text, PromptLabel);
    LabelCaptureIsFirst(text, AnswerLabel);
    var promptMatch := LabelCapture(text, PromptLabel, 0);
    var answerMatch := LabelCapture(text, AnswerLabel, 0);
    if promptMatch.None? || answerMatch.None? then None
    else Some(Problem(Trim(promptMatch.value), Trim(answerMatch.value), SolutionText(text), None, None))
  }

  // ---------------------------------------------------------------------------
  // A reply in the requested format reads back

  /** The reply format the generation request asks for. */
  function RenderReply(prompt: string, answer: string, solution: string): string {
    "PROMPT: " + prompt + "\nANSWER: " + answer + "\nSOLUTION: " + solution
  }

  predicate NoLineTerminator(s: string) {
    forall j :: 0 <= j < |s| ==> !IsLineTerminator(s[j])
  }

  lemma {:induction false} WhitespaceEndIs(s: string, i: nat, j: nat)
    requires i <= j <= |s|
    requires forall k :: i <= k < j ==> IsWhitespace(s[k])
    requires j == |s| || !IsWhitespace(s[j])
    ensures WhitespaceEnd(s, i) == j
    decreases j - i
  {
    if i < j {
      WhitespaceEndIs(s, i + 1, j);
    }
  }

  lemma {:induction false} LineEndIs(s: string, i: nat, j: nat)
    requires i <= j <= |s|
    requires forall k :: i <= k < j ==> !IsLineTerminator(s[k])
    requires j == |s| || IsLineTerminator(s[j])
    ensures LineEnd(s, i) == j
    decreases j - i
  {
    if i < j {
      LineEndIs(s, i + 1, j);
    }
  }

  lemma IndexOfIs(s: string, pat: string, at: nat)
    requires MatchesAt(s, pat, at, true)
    requires forall k :: 0 <= k < at ==> !MatchesAt(s, pat, k, true)
    ensures IndexOf(s, pat, 0, true) == Some(at)
  {
  }

  /** When text remains after the white space, `.+` takes the rest of that line. */
  lemma RestOfLineIs(s: string, p: nat, q: nat, e: nat)
    requires p <= q < |s| && WhitespaceEnd(s, p) == q && LineEnd(s, q) == e
    ensures RestOfLineAt(s, p) == Some(s[q..e])
  {
  }

  /** `s[start..e]` is a field: white space just before it, a line terminator just after, none inside. */
  predicate FieldLayout(s: string, start: nat, e: nat) {
    && 1 <= start <= e < |s|
    && IsWhitespace(s[start - 1]) && IsLineTerminator(s[e])
    && forall k :: start <= k < e ==> !IsLineTerminator(s[k])
  }

  /** Before a non-blank field, the white space run from the character ahead of it ends inside it. */
  lemma BlankBeforeField(s: string, start: nat, x: string)
    requires FieldLayout(s, start, start + |x|) && s[start..start + |x|] == x && !AllWhitespace(x)
    ensures WhitespaceEnd(s, start - 1) == WhitespaceEnd(s, start) < start + |x|
  {
    var j :| 0 <= j < |x| && !IsWhitespace(x[j]);
    assert s[start + j] == x[j];
  }

  /** A field that is not all white space is what `.+` takes after the white space ahead of it. */
  lemma FieldRestOfLine(s: string, start: nat, x: string)
    requires FieldLayout(s, start, start + |x|) && s[start..start + |x|] == x && !AllWhitespace(x)
    ensures WhitespaceEnd(s, start) < start + |x|
    ensures RestOfLineAt(s, start - 1) == Some(s[WhitespaceEnd(s, start)..start + |x|])
  {
    BlankBeforeField(s, start, x);
    LineEndIs(s, WhitespaceEnd(s, start), start + |x|);
    RestOfLineIs(s, start - 1, WhitespaceEnd(s, start), start + |x|);
  }

  /** A non-blank field is captured as itself without its leading white space, so trims the same. */
  lemma FieldCapture(s: string, start: nat, x: string)
    requires FieldLayout(s, start, start + |x|) && s[start..start + |x|] == x && Trim(x) != []
    ensures RestOfLineAt(s, start - 1).Some?
    ensures Trim(RestOfLineAt(s, start - 1).value) == Trim(x)
  {
    FieldRestOfLine(s, start, x);
    FieldTrim(s, start, WhitespaceEnd(s, start), x);
  }

  lemma FieldTrim(s: string, start: nat, q: nat, x: string)
    requires start <= q < start + |x| <= |s| && 1 <= start && s[start..start + |x|] == x
    requires q == WhitespaceEnd(s, start) && RestOfLineAt(s, start - 1) == Some(s[q..start + |x|])
    ensures RestOfLineAt(s, start - 1).Some?
    ensures Trim(RestOfLineAt(s, start - 1).value) == Trim(x)
  {
    TrimOfInnerSlice(s, start, q, x);
    TrimOfCapture(s, start - 1, s[q..start + |x|], x);
  }

  lemma TrimOfCapture(s: string, p: nat, r: string, x: string)
    requires p <= |s| && RestOfLineAt(s, p) == Some(r) && Trim(r) == Trim(x)
    ensures RestOfLineAt(s, p).Some? && Trim(RestOfLineAt(s, p).value) == Trim(x)
  {
  }

  /** Dropping white space at the front of a slice keeps its trim. */
  lemma TrimOfInnerSlice(s: string, start: nat, q: nat, x: string)
    requires start <= q <= start + |x| <= |s| && s[start..start + |x|] == x
    requires forall k :: start <= k < q ==> IsWhitespace(s[k])
    ensures Trim(s[q..start + |x|]) == Trim(x)
  {
    InnerSlice(s, start, q, x);
    TrimOfBlankPrefixed(x, q - start, s[q..start + |x|]);
  }

  lemma TrimOfBlankPrefixed(x: string, k: nat, t: string)
    requires k <= |x| && t == x[k..] && forall i :: 0 <= i < k ==> IsWhitespace(x[i])
    ensures Trim(t) == Trim(x)
  {
    TrimSkipsLeading(x, k);
  }

  /** The tail of a slice from `q` on, and the white space before `q` seen from inside the slice. */
  lemma InnerSlice(s: string, start: nat, q: nat, x: string)
    requires start <= q <= start + |x| <= |s| && s[start..start + |x|] == x
    requires forall k :: start <= k < q ==> IsWhitespace(s[k])
    ensures x[q - start..] == s[q..start + |x|]
    ensures forall i :: 0 <= i < q - start ==> IsWhitespace(x[i])
  {
    assert forall i :: 0 <= i < |x| ==> x[i] == s[start + i];
  }

  /** Where the pieces of a rendered reply sit. */
  lemma RenderedLayout(prompt: string, answer: string, solution: string)
    ensures var s := RenderReply(prompt, answer, solution);
            var a0 := |prompt| + 9;
            var s0 := a0 + |answer| + 9;
            && |s| == s0 + 10 + |solution|
            && s[..7] == PromptLabel && s[7] == ' '
            && s[8..8 + |prompt|] == prompt && s[8 + |prompt|] == '\n'
            && s[a0..a0 + 7] == AnswerLabel && s[a0 + 7] == ' '
            && s[a0 + 8..a0 + 8 + |answer|] == answer && s[a0 + 8 + |answer|] == '\n'
            && s[s0..s0 + 9] == SolutionLabel && s[s0 + 9] == ' '
            && s[s0 + 10..] == solution
  {
  }

  lemma LabelAt(s: string, tag: string, at: nat)
    requires at + |tag| <= |s| && s[at..at + |tag|] == tag
    ensures MatchesAt(s, tag, at, true)
  {
    assert forall k :: 0 <= k < |tag| ==> s[at + k] == tag[k];
  }

  lemma FieldIn(s: string, start: nat, x: string)
    requires 1 <= start && start + |x| < |s| && s[start..start + |x|] == x
    requires IsWhitespace(s[start - 1]) && IsLineTerminator(s[start + |x|]) && NoLineTerminator(x)
    ensures FieldLayout(s, start, start + |x|)
  {
    assert forall k :: start <= k < start + |x| ==> s[k] == x[k - start];
  }

  /**
   * The first occurrence of a label followed by a space and a non-blank one-line field:
   * the regex reads the field back, up to white space at its ends.
   */
  lemma CaptureOfField(s: string, tag: string, at: nat, x: string)
    requires at + |tag| + 1 + |x| < |s|
    requires s[at..at + |tag|] == tag && forall k :: 0 <= k < at ==> !MatchesAt(s, tag, k, true)
    requires IsWhitespace(s[at + |tag|]) && s[at + |tag| + 1..at + |tag| + 1 + |x|] == x
    requires IsLineTerminator(s[at + |tag| + 1 + |x|])
    requires NoLineTerminator(x) && Trim(x) != []
    ensures CaptureAfterFirst(s, tag).Some? && Trim(CaptureAfterFirst(s, tag).value) == Trim(x)
  {
    LabelAt(s, tag, at);
    FieldIn(s, at + |tag| + 1, x);
    CaptureOfLaidOutField(s, tag, at, x);
  }

  lemma CaptureOfLaidOutField(s: string, tag: string, at: nat, x: string)
    requires MatchesAt(s, tag, at, true) && forall k :: 0 <= k < at ==> !MatchesAt(s, tag, k, true)
    requires FieldLayout(s, at + |tag| + 1, at + |tag| + 1 + |x|)
    requires s[at + |tag| + 1..at + |tag| + 1 + |x|] == x && Trim(x) != []
    ensures CaptureAfterFirst(s, tag).Some? && Trim(CaptureAfterFirst(s, tag).value) == Trim(x)
  {
    var start := at + |tag| + 1;
    IndexOfIs(s, tag, at);
    assert CaptureAfterFirst(s, tag) == RestOfLineAt(s, start - 1);
    FieldCapture(s, start, x);
  }

  /** In a rendered reply the prompt field is read back as the prompt. */
  lemma RenderedPrompt(prompt: string, answer: string, solution: string)
    requires NoLineTerminator(prompt) && Trim(prompt) != []
    ensures var s := RenderReply(prompt, answer, solution);
            CaptureAfterFirst(s, PromptLabel).Some? && Trim(CaptureAfterFirst(s, PromptLabel).value) == Trim(prompt)
  {
    var s := RenderReply(prompt, answer, solution);
    RenderedLayout(prompt, answer, solution);
    CaptureOfField(s, PromptLabel, 0, prompt);
  }

  /** Before the solution text, a rendered reply has colons only at the ends of its three labels. */
  lemma RenderedColon(prompt: string, answer: string, solution: string, c: nat)
    requires ':' !in prompt && ':' !in answer
    requires c < |prompt| + |answer| + 28
    ensures var s := RenderReply(prompt, answer, solution);
            s[c] == ':' ==> c == 6 || c == |prompt| + 15 || c == |prompt| + |answer| + 26
  {
    var s := RenderReply(prompt, answer, solution);
    var a0 := |prompt| + 9;
    var s0 := a0 + |answer| + 9;
    RenderedLayout(prompt, answer, solution);
    if c < 7 {
      assert s[c] == s[..7][c];
    } else if c == 7 {
    } else if c < 8 + |prompt| {
      assert s[c] == s[8..8 + |prompt|][c - 8];
    } else if c == 8 + |prompt| {
    } else if c < a0 + 7 {
      assert s[c] == s[a0..a0 + 7][c - a0];
    } else if c == a0 + 7 {
    } else if c < a0 + 8 + |answer| {
      assert s[c] == s[a0 + 8..a0 + 8 + |answer|][c - a0 - 8];
    } else if c == a0 + 8 + |answer| {
    } else if c < s0 + 9 {
      assert s[c] == s[s0..s0 + 9][c - s0];
    }
  }

  /** No `ANSWER:` starts before the rendered one. */
  lemma NoEarlierAnswer(prompt: string, answer: string, solution: string, k: nat)
    requires ':' !in prompt && ':' !in answer && k < |prompt| + 9
    ensures !MatchesAt(RenderReply(prompt, answer, solution), AnswerLabel, k, true)
  {
    var s := RenderReply(prompt, answer, solution);
    RenderedLayout(prompt, answer, solution);
    if k == 0 {
      assert s[0] == s[..7][0];
      assert !CharEq(s[0], AnswerLabel[0], true);
    } else if k + 7 <= |s| {
      RenderedColon(prompt, answer, solution, k + 6);
      ColonFolds(s[k + 6]);
      assert !CharEq(s[k + 6], AnswerLabel[6], true);
    }
  }

  /** No `SOLUTION:` starts before the rendered one. */
  lemma NoEarlierSolution(prompt: string, answer: string, solution: string, k: nat)
    requires ':' !in prompt && ':' !in answer && k < |prompt| + |answer| + 18
    ensures !MatchesAt(RenderReply(prompt, answer, solution), SolutionLabel, k, true)
  {
    var s := RenderReply(prompt, answer, solution);
    RenderedLayout(prompt, answer, solution);
    if k == |prompt| + 7 {
      assert s[k + 1] == '\n';
      assert !CharEq(s[k + 1], SolutionLabel[1], true);
    } else if k + 9 <= |s| {
      RenderedColon(prompt, answer, solution, k + 8);
      ColonFolds(s[k + 8]);
      assert !CharEq(s[k + 8], SolutionLabel[8], true);
    }
  }

  /** In a rendered reply the first `ANSWER:` is the rendered one: the only earlier colon ends `PROMPT:`. */
  lemma RenderedAnswer(prompt: string, answer: string, solution: string)
    requires NoLineTerminator(answer) && ':' !in prompt && ':' !in answer && Trim(answer) != []
    ensures var s := RenderReply(prompt, answer, solution);
            CaptureAfterFirst(s, AnswerLabel).Some? && Trim(CaptureAfterFirst(s, AnswerLabel).value) == Trim(answer)
  {
    var s := RenderReply(prompt, answer, solution);
    var a0 := |prompt| + 9;
    RenderedLayout(prompt, answer, solution);
    forall k | 0 <= k < a0
      ensures !MatchesAt(s, AnswerLabel, k, true)
    {
      NoEarlierAnswer(prompt, answer, solution, k);
    }
    CaptureOfField(s, AnswerLabel, a0, answer);
  }

  /** In a rendered reply the first `SOLUTION:` is the rendered one, and the rest of the reply is the solution. */
  lemma RenderedSolution(prompt: string, answer: string, solution: string)
    requires ':' !in prompt && ':' !in answer
    ensures SolutionText(RenderReply(prompt, answer, solution)) == Trim(solution)
  {
    var s := RenderReply(prompt, answer, solution);
    var s0 := |prompt| + |answer| + 18;
    RenderedLayout(prompt, answer, solution);
    forall k | 0 <= k < s0
      ensures !MatchesAt(s, SolutionLabel, k, true)
    {
      NoEarlierSolution(prompt, answer, solution, k);
    }
    SolutionOfField(s, s0, solution);
  }

  /** The first `SOLUTION:` followed by white space and `x` to the end: the solution is `x` trimmed. */
  lemma SolutionOfField(s: string, at: nat, x: string)
    requires at + 10 <= |s| && s[at..at + 9] == SolutionLabel && IsWhitespace(s[at + 9]) && s[at + 10..] == x
    requires forall k :: 0 <= k < at ==> !MatchesAt(s, SolutionLabel, k, true)
    ensures SolutionText(s) == Trim(x)
  {
    LabelAt(s, SolutionLabel, at);
    IndexOfIs(s, SolutionLabel, at);
    SolutionAfterLabel(s);
    var rest := s[at + 9..];
    assert rest[1..] == x;
    TrimSkipsLeading(rest, 1);
  }

  /**
   * A reply written in the requested format, whose prompt and answer are non-blank,
   * single-line and free of colons, is read back as that prompt, answer and solution.
   */
  lemma ParseRenderedReply(prompt: string, answer: string, solution: string)
    requires NoLineTerminator(prompt) && NoLineTerminator(answer)
    requires ':' !in prompt && ':' !in answer
    requires Trim(prompt) != [] && Trim(answer) != []
    ensures ParseReply(RenderReply(prompt, answer, solution))
              == Some(Problem(Trim(prompt), Trim(answer), Trim(solution), None, None))
  {
    RenderedPrompt(prompt, answer, solution);
    RenderedAnswer(prompt, answer, solution);
    RenderedSolution(prompt, answer, solution);
  }

  // ---------------------------------------------------------------------------
  // The handler

  /** The JSON body `req.json()` yields; `problemHistory` defaults to `[]`. */
  datatype ProblemRequest = ProblemRequest(topic: string, difficulty: int, history: seq<HistoryEntry>)

  /** What one request does: the response, the record stored (if any), and the prompts sent to the model. */
  datatype Generation = Generation(response: Response, stored: Option<(string, Problem)>, modelPrompts: seq<string>)

  const MissingKeyError: string := "ANTHROPIC_API_KEY not configured. Please add it to your environment variables."
  const GenerationFailedError: string := "Failed to generate problem. Please try again."
  const BadOutputText: string := "Bad LLM output"

  /** The fixed demo problem, returned with status 200 and an error message. */
  function DemoFallback(error: string): (r: Response)
    ensures r.status == 200 && BodyKeys(r.body) == ["error", "prompt", "id"]
    ensures "answer" !in BodyKeys(r.body) && "solution" !in BodyKeys(r.body)
    ensures r.body.JsonBody? && Lookup(r.body.fields, "error") == Some(JStr(error))
    ensures Lookup(r.body.fields, "prompt") == Some(JStr(DemoPrompt)) && Lookup(r.body.fields, "id") == Some(JStr(DemoId))
  {
    Response(200, JsonBody([("error", JStr(error)), ("prompt", JStr(DemoPrompt)), ("id", JStr(DemoId))]))
  }

  const QueryHead: string := "Create a math exercise for a learner. \nTopic: "
  const DifficultyLead: string := "\nDifficulty: "
  const FormatLines: string :=
    "\nFormat:\nPROMPT: <problem text>\nANSWER: <numeric or simplified expression>\nSOLUTION: <markdown step-by-step>"

  /** The level out of ten, as the request writes it after the band. */
  function LevelNote(level: int): string {
    " (level " + IntToString(level) + "/10)"
  }

  /** The part of the generation request after the topic: the band, then the level out of ten. */
  function QueryTail(level: int): (t: string)
    ensures Contains(t, DifficultyDescription(level))
    ensures Contains(t, LevelNote(level))
  {
    var description := DifficultyDescription(level);
    var t := DifficultyLead + description + LevelNote(level) + FormatLines;
    ContainsMiddle(DifficultyLead, description, LevelNote(level));
    ContainsInPrefix(DifficultyLead + description + LevelNote(level), FormatLines, description);
    ContainsMiddle(DifficultyLead + description, LevelNote(level), FormatLines);
    t
  }

  /**
   * The generation request sent to the model: it names the topic, the band of the
   * adjusted level and the level itself out of ten.
   */
  function GenerationQuery(topic: string, level: int): (q: string)
    ensures Contains(q, topic) && Contains(q, DifficultyDescription(level))
    ensures Contains(q, LevelNote(level))
  {
    var tail := QueryTail(level);
    ContainsMiddle(QueryHead, topic, tail);
    ContainsInSuffix(QueryHead + topic, tail, DifficultyDescription(level));
    ContainsInSuffix(QueryHead + topic, tail, LevelNote(level));
    QueryHead + topic + tail
  }

  /** The success body: the id, the prompt and the adjusted difficulty, never the answer or the solution. */
  function PublicFields(newId: string, p: Problem, level: int): (r: Response)
    ensures r.status == 200 && BodyKeys(r.body) == ["id", "prompt", "difficulty"]
    ensures r.body.JsonBody? && Lookup(r.body.fields, "prompt") == Some(JStr(p.prompt))
    ensures Lookup(r.body.fields, "id") == Some(JStr(newId))
    ensures Lookup(r.body.fields, "difficulty") == Some(JNum(level as real))
    ensures "answer" !in BodyKeys(r.body) && "solution" !in BodyKeys(r.body)
  {
    Response(200, JsonBody([("id", JStr(newId)), ("prompt", JStr(p.prompt)), ("difficulty", JNum(level as real))]))
  }

  /**
   * `POST /api/problem`. `apiKey` is the environment variable, `request` the parsed body
   * (`None` when `req.json()` throws), `reply` the model's content (`None` when the call
   * throws) and `newId` the id `uuid()` yields.
   */
  function Generate(apiKey: Option<string>, request: Option<ProblemRequest>,
                    reply: Option<seq<ContentBlock>>, newId: string): (g: Generation)
    ensures "answer" !in BodyKeys(g.response.body) && "solution" !in BodyKeys(g.response.body)
    ensures !IsSet(apiKey) ==> g.response == DemoFallback(MissingKeyError) && g.modelPrompts == []
    ensures IsSet(apiKey) && (request.None? || reply.None?) ==> g.response == DemoFallback(GenerationFailedError)
    ensures g.response.status == 500 <==>
              IsSet(apiKey) && request.Some? && reply.Some? && ParseReply(ReplyText(reply.value)).None?
    ensures g.response.status == 500 ==> g.response.body == TextBody(BadOutputText) && g.stored.None?
    ensures g.stored.Some? ==>
              && request.Some? && reply.Some?
              && ParseReply(ReplyText(reply.value)) == Some(g.stored.value.1) && g.stored.value.0 == newId
              && g.response == PublicFields(newId, g.stored.value.1,
                                            AdjustDifficulty(request.value.difficulty, request.value.history))
    ensures g.stored.None? ==> g.response.status == 500 || BodyKeys(g.response.body) == ["error", "prompt", "id"]
    ensures IsSet(apiKey) && request.Some? && reply.Some? && ParseReply(ReplyText(reply.value)).Some? ==>
              g.stored == Some((newId, ParseReply(ReplyText(reply.value)).value))
    ensures IsSet(apiKey) && request.None? ==> g.modelPrompts == []
    ensures IsSet(apiKey) && request.Some? ==>
              g.modelPrompts == [GenerationQuery(request.value.topic,
                                                 AdjustDifficulty(request.value.difficulty, request.value.history))]
  {
    if !IsSet(apiKey) then Generation(DemoFallback(MissingKeyError), None, [])
    else if request.None? then Generation(DemoFallback(GenerationFailedError), None, [])
    else
      var req := request.value;
      var level := AdjustDifficulty(req.difficulty, req.history);
      var query := GenerationQuery(req.topic, level);
      if reply.None? then Generation(DemoFallback(GenerationFailedError), None, [query])
      else
        match ParseReply(ReplyText(reply.value))
        case None => Generation(Response(500, TextBody(BadOutputText)), None, [query])
        case Some(p) => Generation(PublicFields(newId, p, level), Some((newId, p)), [query])
  }

  /** The handler: runs `Generate` and performs its store insertion (`problemCache.set`). */
  method HandleProblemPost(store: ProblemStore, apiKey: Option<string>, request: Option<ProblemRequest>,
                           reply: Option<seq<ContentBlock>>, newId: string) returns (response: Response)
    modifies store
    ensures response == Generate(apiKey, request, reply, newId).response
    ensures Generate(apiKey, request, reply, newId).stored.None? ==> store.entries == old(store.entries)
    ensures Generate(apiKey, request, reply, newId).stored.Some? ==>
              var (id, p) := Generate(apiKey, request, reply, newId).stored.value;
              store.entries == old(store.entries)[id := p]
  {
    var g := Generate(apiKey, request, reply, newId);
    if g.stored.Some? {
      store.Set(g.stored.value.0, g.stored.value.1);
    }
    response := g.response;
  }

  /** Records the route stores carry no timestamp, so no sweep ever removes them. */
  lemma RouteRecordsNeverExpire(apiKey: Option<string>, request: Option<ProblemRequest>,
                                reply: Option<seq<ContentBlock>>, newId: string,
                                m: map<string, Problem>, now: int)
    requires Generate(apiKey, request, reply, newId).stored.Some?
    ensures var (id, p) := Generate(apiKey, request, reply, newId).stored.value;
            id in Swept(m[id := p], now)
  {
  }

  /** With an empty history at difficulty 3 the request asks for the easy band, at level 3. */
  lemma EmptyHistoryAtThreeAsksEasy()
    ensures AdjustDifficulty(3, []) == 3
    ensures DifficultyDescription(AdjustDifficulty(3, [])) == EasyBand
  {
  }

  /** Three correct answers in a row at difficulty 5 lead to difficulty 6. */
  lemma ThreeCorrectAtFiveGivesSix(h: seq<HistoryEntry>)
    requires |h| == 3 && h[0].correct && h[1].correct && h[2].correct
    ensures AdjustDifficulty(5, h) == 6
  {
  }
}
