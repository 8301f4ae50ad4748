/**
 * The solve-and-critique route: one model call solves the problem, a second critiques
 * that solution and is asked for a JSON object with a critique and a confidence. The
 * object is cut out of the reply with the greedy regex `/\{[\s\S]*\}/` and parsed;
 * when that fails the defaults "(no critique)" and 0.5 stand. The model's replies and
 * `JSON.parse` are parameters.
 */
module SolveRoute {
  import opened Optional
  import opened Text
  import opened Json

  /** One chat-completion request: its system message, its user message and its token budget. */
  datatype ChatCall = ChatCall(system: string, user: string, maxTokens: nat)

  /** The request body; `problem` is `None` when the body has no such member. */
  datatype SolveRequest = SolveRequest(problem: Option<string>)

  /** The response and the model calls made, in order. */
  datatype SolveOutcome = SolveOutcome(response: Response, calls: seq<ChatCall>)

  const MissingKeySolution: string :=
    "OpenAI API key not configured. Please add OPENAI_API_KEY to your environment variables."
  const ErrorSolution: string := "Error processing request."
  const NoCritique: string := "(no critique)"
  const DefaultConfidence: real := 0.5

  const TutorSystem: string :=
    "You are a helpful math tutor. Always show clear, numbered steps and the final answer on its own line prefixed with 'ANSWER:'."
  const ReviewerSystem: string :=
    "You are a strict math TA who never hallucinates. If unsure, give lower confidence."
  const SolveHead: string := "Solve the following problem.\n\n"
  const CritiqueHead: string := "Here is your earlier solution in markdown:\n\n---\n"
  const CritiqueTail: string :=
    "\n---\n\nPlease critique it for correctness, clarity, and completeness. Then output a JSON object ONLY with keys: critique (string) and confidence (number 0‑1)."

  /** `${problem}`: an absent member renders as "undefined". */
  function Rendered(problem: Option<string>): (r: string)
    ensures problem.Some? ==> r == problem.value
  {
    match problem
    case Some(p) => p
    case None => "undefined"
  }

  /** The first call: solve the problem. */
  function SolveCall(problem: Option<string>): (c: ChatCall)
    ensures |c.user| >= |SolveHead| && c.user[|SolveHead|..] == Rendered(problem) && c.maxTokens == 512
  {
    ChatCall(TutorSystem, SolveHead + Rendered(problem), 512)
  }

  /** The critique request embeds the solution between two `---` lines. */
  function CritiquePrompt(solution: string): (r: string)
    ensures |r| == |CritiqueHead| + |solution| + |CritiqueTail|
  {
    CritiqueHead + solution + CritiqueTail
  }

  /** The solution can be read back out of the critique request: the embedding loses nothing. */
  lemma CritiquePromptHoldsSolution(solution: string)
    ensures var r := CritiquePrompt(solution);
            r[|CritiqueHead|..|CritiqueHead| + |solution|] == solution && Contains(r, solution)
  {
    ContainsMiddle(CritiqueHead, solution, CritiqueTail);
  }

  /** Different solutions give different critique requests. */
  lemma CritiquePromptInjective(s1: string, s2: string)
    requires CritiquePrompt(s1) == CritiquePrompt(s2)
    ensures s1 == s2
  {
    CritiquePromptHoldsSolution(s1);
    CritiquePromptHoldsSolution(s2);
  }

  // ---------------------------------------------------------------------------
  // The brace regex

  /** The first position at or after `pos` holding `c`. */
  function FirstIndexOf(s: string, c: char, pos: nat): (r: Option<nat>)
    ensures r.Some? ==> pos <= r.value < |s| && s[r.value] == c
    ensures r.Some? ==> forall k :: pos <= k < r.value ==> s[k] != c
    ensures r.None? ==> forall k :: pos <= k < |s| ==> s[k] != c
    decreases |s| - pos
  {
    if pos >= |s| then None
    else if s[pos] == c then Some(pos)
    else FirstIndexOf(s, c, pos + 1)
  }

  /** The last position holding `c`. */
  function LastIndexOf(s: string, c: char): (r: Option<nat>)
    ensures r.Some? ==> r.value < |s| && s[r.value] == c
    ensures r.Some? ==> forall k :: r.value < k < |s| ==> s[k] != c
    ensures r.None? ==> forall k :: 0 <= k < |s| ==> s[k] != c
  {
    if s == [] then None
    else if s[|s| - 1] == c then Some(|s| - 1)
    else
      var r := LastIndexOf(s[..|s| - 1], c);
      assert forall k :: 0 <= k < |s| - 1 ==> s[..|s| - 1][k] == s[k];
      r
  }

  /**
   * `/\{[\s\S]*\}/` tried from `pos` on: at the leftmost `{` from which the greedy
   * `[\s\S]*` can give back to some `}`, the match runs to the last `}` of the text.
   */
  function BraceMatchFrom(s: string, pos: nat): Option<string>
    decreases |s| - pos
  {
    if pos >= |s| then None
    else if s[pos] == '{' && LastIndexOf(s, '}').Some? && LastIndexOf(s, '}').value > pos then
      Some(s[pos..LastIndexOf(s, '}').value + 1])
    else BraceMatchFrom(s, pos + 1)
  }

  function BraceMatch(s: string): Option<string> {
    BraceMatchFrom(s, 0)
  }

  lemma {:induction false} BraceMatchFromSpan(s: string, pos: nat)
    ensures BraceMatchFrom(s, pos) ==
      match (FirstIndexOf(s, '{', pos), LastIndexOf(s, '}'))
      case (Some(i), Some(j)) => if i < j then Some(s[i..j + 1]) else None
      case _ => None
    decreases |s| - pos
  {
    if pos < |s| && s[pos] != '{' {
      BraceMatchFromSpan(s, pos + 1);
    } else if pos < |s| && !(LastIndexOf(s, '}').Some? && LastIndexOf(s, '}').value > pos) {
      BraceMatchFromSpan(s, pos + 1);
      match FirstIndexOf(s, '{', pos + 1)
      case Some(i) =>
      case None =>
    }
  }

  /** The match runs from the first `{` to the last `}`, and exists exactly when the first comes before the last. */
  lemma BraceMatchSpan(s: string)
    ensures BraceMatch(s).Some? <==>
              FirstIndexOf(s, '{', 0).Some? && LastIndexOf(s, '}').Some?
              && FirstIndexOf(s, '{', 0).value < LastIndexOf(s, '}').value
    ensures BraceMatch(s).Some? ==>
              BraceMatch(s).value == s[FirstIndexOf(s, '{', 0).value..LastIndexOf(s, '}').value + 1]
  {
    BraceMatchFromSpan(s, 0);
  }

  /** An object wrapped in text without braces (a code fence, say) is cut out exactly. */
  lemma WrappedObject(pre: string, obj: string, post: string)
    requires '{' !in pre && '}' !in post
    requires |obj| >= 2 && obj[0] == '{' && obj[|obj| - 1] == '}'
    ensures BraceMatch(pre + obj + post) == Some(obj)
  {
    var s := pre + obj + post;
    var i := |pre|;
    var j := |pre| + |obj| - 1;
    assert forall k :: 0 <= k < |pre| ==> s[k] == pre[k] && s[k] != '{';
    assert forall k :: j < k < |s| ==> s[k] == post[k - j - 1] && s[k] != '}';
    assert s[i] == '{' && s[j] == '}';
    assert FirstIndexOf(s, '{', 0) == Some(i);
    assert LastIndexOf(s, '}') == Some(j);
    BraceMatchSpan(s);
    assert s[i..j + 1] == obj;
  }

  // ---------------------------------------------------------------------------
  // Reading the critique

  /** The two values the response reports; `None` is `undefined`, which `JSON.stringify` leaves out. */
  datatype Critique = Critique(critique: Option<Json>, confidence: Option<Json>)

  const Defaults: Critique := Critique(Some(JStr(NoCritique)), Some(JNum(DefaultConfidence)))

  /**
   * The critique read from the second reply. `parse` is `JSON.parse` (`None` when it
   * throws). On `null` the property access throws and the defaults stand; on another
   * non-object value both properties are `undefined`.
   */
  function ReadCritique(content: Option<string>, parse: string -> Option<Json>): (c: Critique)
    ensures content.None? || BraceMatch(content.value).None? ==> c == Defaults
    ensures c != Defaults ==>
              content.Some? && BraceMatch(content.value).Some? && parse(BraceMatch(content.value).value).Some?
    ensures (content.Some? && BraceMatch(content.value).Some?
             && parse(BraceMatch(content.value).value).Some? && parse(BraceMatch(content.value).value).value.JObj?) ==>
              var members := parse(BraceMatch(content.value).value).value.members;
              c == Critique(Lookup(members, "critique"), Lookup(members, "confidence"))
  {
    if content.None? then Defaults
    else
      match BraceMatch(content.value)
      case None => Defaults
      case Some(m) =>
        match parse(m)
        case None => Defaults
        case Some(JNull) => Defaults
        case Some(JObj(members)) => Critique(Lookup(members, "critique"), Lookup(members, "confidence"))
        case Some(_) => Critique(None, None)
  }

  /** The members of the success body: the solution, then whichever of the two values are defined. */
  function SuccessFields(solution: string, c: Critique): (fields: seq<(string, Json)>)
    ensures |fields| >= 1 && fields[0] == ("solution", JStr(solution))
    ensures "critique" in Keys(fields) <==> c.critique.Some?
    ensures "confidence" in Keys(fields) <==> c.confidence.Some?
    ensures c.critique.Some? && c.confidence.Some? ==>
              fields == [("solution", JStr(solution)), ("critique", c.critique.value), ("confidence", c.confidence.value)]
    ensures c.critique.None? && c.confidence.None? ==> fields == [("solution", JStr(solution))]
  {
    var p3 := [("confidence", c.confidence)];
    var p2 := [("critique", c.critique)] + p3;
    var pairs := [("solution", Some(JStr(solution)))] + p2;
    assert pairs[1..] == p2 && p2[1..] == p3 && p3[1..] == [];
    var m3 := if c.confidence.Some? then [("confidence", c.confidence.value)] else [];
    assert Members(p3) == m3 by {
      assert Members(p3[1..]) == [];
    }
    var m2 := if c.critique.Some? then [("critique", c.critique.value)] + m3 else m3;
    assert Members(p2) == m2;
    assert Members(pairs) == [("solution", JStr(solution))] + m2;
    assert pairs[0].0 == "solution" && pairs[1].0 == "critique" && pairs[2].0 == "confidence";
    Members(pairs)
  }

  /** The body of both 500 responses. */
  function FailureBody(solution: string): (b: Body)
    ensures BodyKeys(b) == ["solution", "critique", "confidence"]
    ensures b.JsonBody? && Lookup(b.fields, "solution") == Some(JStr(solution))
    ensures Lookup(b.fields, "critique") == Some(JStr("")) && Lookup(b.fields, "confidence") == Some(JNum(0.0))
  {
    JsonBody([("solution", JStr(solution)), ("critique", JStr("")), ("confidence", JNum(0.0))])
  }

  /**
   * `POST /api/solve`. `request` is the parsed body (`None` when parsing throws);
   * `solveReply` and `critiqueReply` are the calls' first message contents (outer
   * `None` when the call throws, inner `None` when the content is null or missing).
   */
  function Solve(apiKey: Option<string>, request: Option<SolveRequest>,
                 solveReply: Option<Option<string>>, critiqueReply: Option<Option<string>>,
                 parse: string -> Option<Json>): (r: SolveOutcome)
    ensures r.response.status == 200 || r.response.status == 500
    ensures r.response.status == 200 <==>
              IsSet(apiKey) && request.Some? && solveReply.Some? && critiqueReply.Some?
    ensures !IsSet(apiKey) ==> r.response == Response(500, FailureBody(MissingKeySolution)) && r.calls == []
    ensures IsSet(apiKey) && r.response.status == 500 ==> r.response == Response(500, FailureBody(ErrorSolution))
    ensures |r.calls| <= 2
    ensures IsSet(apiKey) && request.None? ==> r.calls == []
    ensures IsSet(apiKey) && request.Some? ==> |r.calls| >= 1 && r.calls[0] == SolveCall(request.value.problem)
    ensures |r.calls| == 2 ==>
              && solveReply.Some?
              && r.calls[1] == ChatCall(ReviewerSystem, CritiquePrompt(solveReply.value.UnwrapOr("")), 256)
    ensures r.response.status == 200 ==>
              var solution := solveReply.value.UnwrapOr("");
              r.response.body == JsonBody(SuccessFields(solution, ReadCritique(critiqueReply.value, parse)))
  {
    if !IsSet(apiKey) then SolveOutcome(Response(500, FailureBody(MissingKeySolution)), [])
    else if request.None? then SolveOutcome(Response(500, FailureBody(ErrorSolution)), [])
    else
      var first := SolveCall(request.value.problem);
      if solveReply.None? then SolveOutcome(Response(500, FailureBody(ErrorSolution)), [first])
      else
        var solution := solveReply.value.UnwrapOr("");
        var second := ChatCall(ReviewerSystem, CritiquePrompt(solution), 256);
        if critiqueReply.None? then SolveOutcome(Response(500, FailureBody(ErrorSolution)), [first, second])
        else
          var critique := ReadCritique(critiqueReply.value, parse);
          SolveOutcome(Response(200, JsonBody(SuccessFields(solution, critique))), [first, second])
  }

  /**
   * A critique reply that wraps a well-formed object in a code fence is reported as it is:
   * the response carries the solution, that critique and that confidence.
   */
  lemma FencedCritiqueReported(apiKey: Option<string>, request: SolveRequest, solution: string,
                               pre: string, obj: string, post: string, parse: string -> Option<Json>,
                               critique: string, confidence: real)
    requires IsSet(apiKey) && '{' !in pre && '}' !in post
    requires |obj| >= 2 && obj[0] == '{' && obj[|obj| - 1] == '}'
    requires parse(obj) == Some(JObj([("critique", JStr(critique)), ("confidence", JNum(confidence))]))
    ensures Solve(apiKey, Some(request), Some(Some(solution)), Some(Some(pre + obj + post)), parse).response
              == Response(200, JsonBody([("solution", JStr(solution)), ("critique", JStr(critique)),
                                         ("confidence", JNum(confidence))]))
  {
    WrappedObject(pre, obj, post);
    var members := [("critique", JStr(critique)), ("confidence", JNum(confidence))];
    assert Lookup(members, "critique") == Some(JStr(critique));
    assert Lookup(members, "confidence") == Some(JNum(confidence));
  }

  /** A reply without an object keeps the defaults "(no critique)" and 0.5. */
  lemma NoObjectKeepsDefaults(apiKey: Option<string>, request: SolveRequest, solution: string,
                              reply: string, parse: string -> Option<Json>)
    requires IsSet(apiKey) && '{' !in reply
    ensures Solve(apiKey, Some(request), Some(Some(solution)), Some(Some(reply)), parse).response
              == Response(200, JsonBody([("solution", JStr(solution)), ("critique", JStr(NoCritique)),
                                         ("confidence", JNum(DefaultConfidence))]))
  {
    BraceMatchSpan(reply);
  }

  /** An object without the two keys leaves both out of the response: only the solution is sent. */
  lemma MissingKeysDropped(apiKey: Option<string>, request: SolveRequest, solution: string,
                           reply: string, parse: string -> Option<Json>)
    requires IsSet(apiKey) && BraceMatch(reply).Some? && parse(BraceMatch(reply).value) == Some(JObj([]))
    ensures Solve(apiKey, Some(request), Some(Some(solution)), Some(Some(reply)), parse).response
              == Response(200, JsonBody([("solution", JStr(solution))]))
  {
    assert ReadCritique(Some(reply), parse) == Critique(None, None);
  }
}
