/**
 * The demo learner component: one problem at a time at the learner's level, typed
 * or drawn answers, the same gamified counters as the adaptive component, and after
 * each graded answer an attempt record and an optional thumbs-up/down report. The
 * component's state variables are the fields of `Demo`; each handler is a method
 * that runs to completion, with the replies it awaits and the clock as parameters.
 */
module DemoSession {
  import opened Optional
  import opened Text
  import opened GradeRoute
  import opened Gamification

  const Graphing: string := "graphing"
  const FormulaDrawing: string := "formula_drawing"

  /** The problem types answered on a drawing pad rather than in the text input. */
  predicate IsDrawingType(problemType: Option<string>) {
    problemType == Some(Graphing) || problemType == Some(FormulaDrawing)
  }

  /** The answer sent for grading: the drawing for a drawing type, the typed text otherwise. */
  function SubmittedAnswer(problemType: Option<string>, answer: string, drawingAnswer: string): string {
    if IsDrawingType(problemType) then drawingAnswer else answer
  }

  /** The submit button's `disabled`: while loading, or on a drawing problem with nothing drawn. */
  predicate SubmitDisabledFor(loading: bool, problemType: Option<string>, drawingAnswer: string) {
    loading || (IsSet(problemType) && IsDrawingType(problemType) && drawingAnswer == [])
  }

  /** An enabled submit on a drawing problem always sends the (non-empty) drawing. */
  lemma EnabledDrawingSubmitSendsDrawing(loading: bool, problemType: Option<string>, answer: string, drawingAnswer: string)
    requires !SubmitDisabledFor(loading, problemType, drawingAnswer) && IsDrawingType(problemType)
    ensures SubmittedAnswer(problemType, answer, drawingAnswer) == drawingAnswer != []
  {
    assert IsSet(problemType);
  }

  /** `Math.round(ms / 1000)`: the nearest whole number of seconds, halves rounded up. */
  function RoundedSeconds(ms: int): (r: int)
    ensures 1000 * r - 500 <= ms < 1000 * r + 500
  {
    (ms + 500) / 1000
  }

  /** `Math.round` picks the only whole number within half a second of the time. */
  lemma RoundedSecondsUnique(ms: int, r: int)
    requires 1000 * r - 500 <= ms < 1000 * r + 500
    ensures RoundedSeconds(ms) == r
  {
  }

  /** The seconds taken on a problem; `None` (JSON `null`) when the start time is not truthy. */
  function TimeTaken(startTime: Option<int>, now: int): (r: Option<int>)
    ensures r.Some? <==> startTime.Some? && startTime.value != 0
    ensures r.Some? ==> 1000 * r.value - 500 <= now - startTime.value < 1000 * r.value + 500
  {
    if startTime.Some? && startTime.value != 0 then Some(RoundedSeconds(now - startTime.value)) else None
  }

  /** JavaScript truthiness of an attempt id: set and not 0. */
  predicate IsTruthyId(id: Option<int>) {
    id.Some? && id.value != 0
  }

  /** The members the component reads from a problem response; `None` is `undefined`. */
  datatype DemoProblemData = DemoProblemData(prompt: Option<string>, id: Option<string>, problemType: Option<string>)

  /** The body sent to the problem route: `{ skill: level }`. */
  datatype ProblemQuery = ProblemQuery(skill: int)

  /** The attempt record posted after a grade; its `user_id` is always `null` and is left out. */
  datatype AttemptRecord = AttemptRecord(questionText: Option<string>, studentAnswer: string, llmAnswer: string,
                                         timeTakenSeconds: Option<int>, points: int)

  /** The feedback report posted for an attempt. */
  datatype FeedbackReport = FeedbackReport(attemptId: int, thumbsUp: bool, comment: string)

  /** Every state variable of the component, as one value. */
  datatype DemoState = DemoState(
    problem: Option<string>,
    problemId: Option<string>,
    problemType: Option<string>,
    answer: string,
    drawingAnswer: string,
    feedback: Option<Verdict>,
    loading: bool,
    attemptId: Option<int>,
    showFeedbackUI: bool,
    thumbs: Option<bool>,
    comment: string,
    feedbackSubmitted: bool,
    startTime: Option<int>,
    counters: Stats)

  class Demo {
    var problem: Option<string>
    var problemId: Option<string>
    var problemType: Option<string>
    var answer: string
    var drawingAnswer: string
    var feedback: Option<Verdict>
    var loading: bool
    var xp: int
    var hearts: int
    var streak: int
    var level: int
    var attemptId: Option<int>
    var showFeedbackUI: bool
    var thumbs: Option<bool>
    var comment: string
    var feedbackSubmitted: bool
    var startTime: Option<int>

    function Counters(): Stats
      reads this
    {
      Stats(xp, hearts, streak, level)
    }

    function State(): DemoState
      reads this
    {
      DemoState(problem, problemId, problemType, answer, drawingAnswer, feedback, loading, attemptId,
                showFeedbackUI, thumbs, comment, feedbackSubmitted, startTime, Counters())
    }

    /** The submit button's `disabled` in the current state. */
    predicate SubmitDisabled()
      reads this
    {
      SubmitDisabledFor(loading, problemType, drawingAnswer)
    }

    /** The initial state: no problem, fresh counters, no attempt. */
    constructor ()
      ensures State() == DemoState(None, None, None, [], [], None, false, None, false, None, [], false, None, Initial)
    {
      problem, problemId, problemType, answer, drawingAnswer := None, None, None, [], [];
      feedback, loading := None, false;
      xp, hearts, streak, level := 0, MaxHearts, 0, 1;
      attemptId, showFeedbackUI, thumbs, comment, feedbackSubmitted, startTime := None, false, None, [], false, None;
    }

    /**
     * Requests a problem at the current level. On a reply its prompt, id and type are
     * adopted (a type that is not truthy becomes `None`), every per-problem input and
     * the feedback state are cleared, and the clock starts at `now`. `data` is `None`
     * when the request or its JSON parsing throws; then only `loading` is touched.
     */
    method FetchProblem(data: Option<DemoProblemData>, now: int) returns (query: ProblemQuery)
      modifies this
      ensures query == ProblemQuery(old(level))
      ensures data.None? ==> State() == old(State()).(loading := false)
      ensures data.Some? ==>
                var d := data.value;
                State() == old(State()).(problem := d.prompt, problemId := d.id,
                                        problemType := if IsSet(d.problemType) then d.problemType else None,
                                        answer := [], drawingAnswer := [], feedback := None, attemptId := None,
                                        showFeedbackUI := false, thumbs := None, comment := [],
                                        feedbackSubmitted := false, startTime := Some(now), loading := false)
    {
      loading := true;
      query := ProblemQuery(level);
      if data.Some? {
        ShowProblem(data.value, now);
      }
      loading := false;
    }

    /** Adopts a fetched problem and clears everything that belonged to the previous one. */
    method ShowProblem(d: DemoProblemData, now: int)
      modifies this
      ensures State() == old(State()).(problem := d.prompt, problemId := d.id,
                                      problemType := if IsSet(d.problemType) then d.problemType else None,
                                      answer := [], drawingAnswer := [], feedback := None, attemptId := None,
                                      showFeedbackUI := false, thumbs := None, comment := [],
                                      feedbackSubmitted := false, startTime := Some(now))
    {
      problem, problemId := d.prompt, d.id;
      problemType := if IsSet(d.problemType) then d.problemType else None;
      ClearInputs();
      ClearAttempt();
      ClearReport(now);
    }

    /** A blank answer, no drawing and no verdict shown. */
    method ClearInputs()
      modifies this
      ensures State() == old(State()).(answer := [], drawingAnswer := [], feedback := None)
    {
      answer, drawingAnswer, feedback := [], [], None;
    }

    /** No recorded attempt, the feedback panel hidden, no thumbs chosen. */
    method ClearAttempt()
      modifies this
      ensures State() == old(State()).(attemptId := None, showFeedbackUI := false, thumbs := None)
    {
      attemptId, showFeedbackUI, thumbs := None, false, None;
    }

    /** An empty comment, nothing reported, and the clock started at `now`. */
    method ClearReport(now: int)
      modifies this
      ensures State() == old(State()).(comment := [], feedbackSubmitted := false, startTime := Some(now))
    {
      comment, feedbackSubmitted, startTime := [], false, Some(now);
    }

    /** The mount effect: a first problem is fetched when there is none to show. */
    method OnMount(data: Option<DemoProblemData>, now: int) returns (query: Option<ProblemQuery>)
      modifies this
      ensures query.None? <==> IsSet(old(problem))
      ensures query.None? ==> State() == old(State())
      ensures query.Some? ==> query.value == ProblemQuery(old(level))
    {
      if IsSet(problem) {
        return None;
      }
      var q := FetchProblem(data, now);
      query := Some(q);
    }

    /**
     * Submits the answer. Without a problem id nothing happens. Otherwise the drawing
     * or the typed answer is sent for grading; `verdict` is `None` when that request
     * or its JSON parsing throws (a 404 reply is text, so parsing it throws). On a
     * verdict the feedback is shown and the counters move as `Rewarded` says, then
     * the attempt is recorded with the verdict's XP as its points. `attemptReply` is
     * the `id` member of the attempt reply (`None` inside when it has none), or `None`
     * when that request or its parsing throws, which leaves the feedback panel hidden.
     */
    method HandleSubmit(verdict: Option<Verdict>, attemptReply: Option<Option<int>>, now: int)
      returns (grade: Option<GradeRequest>, attempt: Option<AttemptRecord>)
      modifies this
      ensures grade.None? <==> !IsSet(old(problemId))
      ensures grade.None? ==> attempt.None? && State() == old(State())
      ensures grade.Some? ==>
                grade.value == GradeRequest(old(problemId).value,
                                            SubmittedAnswer(old(problemType), old(answer), old(drawingAnswer)))
      ensures attempt.Some? <==> grade.Some? && verdict.Some?
      ensures grade.Some? && verdict.None? ==> State() == old(State()).(loading := false)
      ensures attempt.Some? ==>
                var v := verdict.value;
                && attempt.value == AttemptRecord(old(problem), grade.value.learnerAnswer, v.explanation,
                                                  TimeTaken(old(startTime), now), v.xpGained)
                && State() == old(State()).(
                     feedback := verdict,
                     counters := Rewarded(old(Counters()), v.correct, v.xpGained),
                     attemptId := if attemptReply.Some? then attemptReply.value else old(attemptId),
                     showFeedbackUI := attemptReply.Some? || old(showFeedbackUI),
                     loading := false)
    {
      if !IsSet(problemId) {
        return None, None;
      }
      loading := true;
      var userAnswer := SubmittedAnswer(problemType, answer, drawingAnswer);
      grade := Some(GradeRequest(problemId.value, userAnswer));
      if verdict.None? {
        attempt := None;
      } else {
        var v := verdict.value;
        attempt := Some(AttemptRecord(problem, userAnswer, v.explanation, TimeTaken(startTime, now), v.xpGained));
        ShowVerdict(v, attemptReply);
      }
      loading := false;
    }

    /** Shows the verdict, moves the counters, and adopts the recorded attempt's id when one came back. */
    method ShowVerdict(v: Verdict, attemptReply: Option<Option<int>>)
      modifies this
      ensures State() == old(State()).(
                feedback := Some(v),
                counters := Rewarded(old(Counters()), v.correct, v.xpGained),
                attemptId := if attemptReply.Some? then attemptReply.value else old(attemptId),
                showFeedbackUI := attemptReply.Some? || old(showFeedbackUI))
    {
      feedback := Some(v);
      Reward(v.correct, v.xpGained);
      if attemptReply.Some? {
        attemptId := attemptReply.value;
        showFeedbackUI := true;
      }
    }

    /**
     * The counters after a graded answer. The level-up test reads the XP and level
     * the handler's closure saw, before the gain, which is what `Rewarded` states.
     */
    method Reward(correct: bool, gain: int)
      modifies this
      ensures State() == old(State()).(counters := Rewarded(old(Counters()), correct, gain))
      ensures Consistent(old(Counters())) && 0 <= gain <= 100 ==> Consistent(Counters())
    {
      ghost var expected := Rewarded(Counters(), correct, gain);
      if Consistent(Counters()) && 0 <= gain <= 100 {
        RewardKeepsConsistent(Counters(), correct, gain);
      }
      if correct {
        var levelUp := ReachesNextLevel(xp, gain, level);
        xp := xp + gain;
        streak := streak + 1;
        if levelUp {
          level := level + 1;
        }
      } else {
        hearts := if hearts - 1 > 0 then hearts - 1 else 0;
        streak := 0;
      }
      assert Counters() == expected;
    }

    /** A thumbs button: records the learner's choice. */
    method ChooseThumbs(up: bool)
      modifies this
      ensures State() == old(State()).(thumbs := Some(up))
    {
      thumbs := Some(up);
    }

    /**
     * Sends the feedback report. Nothing happens unless there is a truthy attempt id
     * and a thumbs choice. `delivered` says whether the request went through (`fetch`
     * only throws when it cannot be sent); only then is the report marked submitted
     * and the panel hidden.
     */
    method HandleFeedbackSubmit(delivered: bool) returns (report: Option<FeedbackReport>)
      modifies this
      ensures report.None? <==> !IsTruthyId(old(attemptId)) || old(thumbs).None?
      ensures report.None? ==> State() == old(State())
      ensures report.Some? ==> report.value == FeedbackReport(old(attemptId).value, old(thumbs).value, old(comment))
      ensures report.Some? && delivered ==>
                State() == old(State()).(feedbackSubmitted := true, showFeedbackUI := false, loading := false)
      ensures report.Some? && !delivered ==> State() == old(State()).(loading := false)
    {
      if !IsTruthyId(attemptId) || thumbs.None? {
        return None;
      }
      loading := true;
      report := Some(FeedbackReport(attemptId.value, thumbs.value, comment));
      if delivered {
        feedbackSubmitted := true;
        showFeedbackUI := false;
      }
      loading := false;
    }
  }
}
