# MathLingo, modelled in Dafny

MathLingo is a Next.js maths tutor. This project models its core:

- **Problem route** (`POST /api/problem`). It adapts the requested difficulty to the learner's last three answers, names the difficulty band, and asks the language model for a problem in a `PROMPT:` / `ANSWER:` / `SOLUTION:` format. It reads those fields back with the route's regular expressions, stores the record under a fresh id, and answers with the public fields only. When something goes wrong it returns a fixed demo problem instead.
- **Problem store.** The shared problem map, its timestamped insert, and its thirty-minute sweep.
- **Grade route** (`POST /api/grade`). The demo problem is graded by exact text. Stored problems are graded by `isEquivalent`, which accepts trimmed-text equality or `parseFloat` prefixes within one millionth. An unknown id gets a 404.
- **Solve route** (`POST /api/solve`). One model call solves the problem and a second critiques the solution. The critique object is cut out of the reply with a greedy brace regex, with defaults when that fails.
- **Two learner components**, `AdaptiveMathLingo` and `MathLingoDemo`. Each is a class whose fields are the component's state variables, and each handler is a method. The replies a handler awaits and the clock are parameters. Both components share one rule for XP, hearts, streak and level.
- **Database scripts.** `getDbNameFromUrl` and the guard that decides whether the setup and reset scripts run `createdb`.

Module layout:

| file | module | models |
|---|---|---|
| `text.dfy` | `Optional`, `Text` | JavaScript truthiness, `trim`, white space, ASCII case folding, `indexOf`, number rendering |
| `json.dfy` | `Json` | JSON values, `JSON.stringify` dropping `undefined`, property access |
| `numeric.dfy` | `NumericPrefix` | `parseFloat`: the longest numeric prefix |
| `history.dfy` | `History` | the history entries the adaptive client sends |
| `cache.dfy` | `Cache` | `src/lib/cache.ts` |
| `problem_route.dfy` | `ProblemRoute` | `src/app/api/problem/route.ts` |
| `grade_route.dfy` | `GradeRoute` | `src/app/api/grade/route.ts` |
| `solve_route.dfy` | `SolveRoute` | `src/app/api/solve/route.ts` |
| `gamification.dfy` | `Gamification` | the XP / hearts / streak / level update both components perform |
| `adaptive_session.dfy` | `AdaptiveSession` | `src/components/AdaptiveMathLingo.tsx` |
| `demo_session.dfy` | `DemoSession` | `src/components/MathLingoDemo.tsx` |
| `demo_problem.dfy` | `DemoProblem` | the demo problem shared by `src/app/api/problem/route.ts` and `src/app/api/grade/route.ts` |
| `db_url.dfy` | `DbUrl` | `getDbNameFromUrl` and the `createdb` guard of `src/lib/db-setup.ts` and `src/lib/db-reset.ts` |

Where the wording around the code and the code disagree, the model follows the code. The topic-confirmation message promises a "moderate" starting difficulty. The adaptive component actually starts at difficulty 3, and `getDifficultyDescription` puts 3 in the "easy - fundamental skills" band. `ProblemRoute.EmptyHistoryAtThreeAsksEasy` states what the code does.

## Model

| member | source | states |
|---|---|---|
| Cache.Options | src/lib/cache.ts:1-34 | A record has options exactly when it is a multiple-choice question, and they are that question's options. |
| Cache.Stamped | src/lib/cache.ts:53-57 | The stamped record keeps prompt, answer, solution and kind, and carries the given time as its timestamp. |
| Cache.ProblemStore.constructor | src/lib/cache.ts:37 | The store starts empty. |
| Cache.ProblemStore.Get | src/app/api/grade/route.ts:25 | Lookup yields the stored record exactly when the id is present. |
| Cache.ProblemStore.Set | src/app/api/problem/route.ts:73-77 | Insertion replaces any earlier record for the id and leaves every other entry alone. |
| Cache.ProblemStore.SetWithTimestamp | src/lib/cache.ts:53-59 | The id maps to the record stamped with `now`; no other key is added, removed or changed. |
| Cache.ProblemStore.Cleanup | src/lib/cache.ts:40-50 | Deleting while visiting every entry leaves exactly the sweep's result: the entries that are not expired, with their values unchanged. |
| Cache.SweptHasNoExpired | src/lib/cache.ts:46-47 | After a sweep, no remaining entry is expired. |
| Cache.SweptOnlyDeletes | src/lib/cache.ts:44-49 | The sweep never adds or alters an entry; it only deletes. |
| Cache.SweptKeepsUnstamped | src/lib/cache.ts:46 | An entry with no timestamp, or with timestamp 0 (falsy), survives every sweep. |
| Cache.SweptKeepsExactlyThirtyMinutes | src/lib/cache.ts:42-46 | The age test is strict: an entry exactly thirty minutes old survives. |
| Cache.SweptDropsOneMillisecondLater | src/lib/cache.ts:42-47 | The same entry one millisecond older is deleted, unless its timestamp is 0. |
| Cache.StampedSurvivesThirtyMinutes | src/lib/cache.ts:53-59 | A record inserted with a timestamp survives any sweep within thirty minutes of insertion. |
| Cache.SweptIdempotent | src/lib/cache.ts:40-50 | A second sweep at the same time removes nothing more. |
| Cache.SweptMonotoneInTime | src/lib/cache.ts:41-46 | A later sweep keeps at most what an earlier one keeps. |
| ProblemRoute.LastThree | src/app/api/problem/route.ts:39 | `slice(-3)` yields the last min(3, n) entries, in order. |
| ProblemRoute.CountCorrect | src/app/api/problem/route.ts:40 | The count of correct entries is at most the number of entries. |
| ProblemRoute.CountCorrectExtremes | src/app/api/problem/route.ts:40-47 | The count equals the length exactly when every entry is correct, and is 0 exactly when none is. |
| ProblemRoute.AdjustDifficulty | src/app/api/problem/route.ts:37-50 | An empty history keeps the difficulty. Three correct among the last three raises it, capped at 10. No correct among the last (up to) three lowers it, floored at 1. Anything else keeps it. From 1..10 the result stays in 1..10 and moves by at most one. |
| ProblemRoute.OnlyLastThreeMatter | src/app/api/problem/route.ts:39 | Entries older than the last three never change the adjustment. |
| ProblemRoute.ShortWrongHistoryLowers | src/app/api/problem/route.ts:38-47 | One or two answers, all wrong, already lower the difficulty; a full window of three is not needed. |
| ProblemRoute.DifficultyDescription | src/app/api/problem/route.ts:8-14 | Each band is named exactly for its range (≤2, 3-4, 5-6, 7-8, >8), both directions. |
| ProblemRoute.ReplyText | src/app/api/problem/route.ts:64 | When the first content block is a text block, the reply text is its text; when there is no first block or it is not text, the reply text is empty. |
| ProblemRoute.RestOfLineAt | src/app/api/problem/route.ts:65-66 | `\s*(.+)` fails exactly when only line terminators follow; a capture is a non-empty run without line terminators. |
| ProblemRoute.RestOfLineCapture | src/app/api/problem/route.ts:65-66 | A capture starts after a run of white space and runs to a line terminator or the end of the text. When anything but white space follows, the capture starts at the first such character. |
| ProblemRoute.LabelCaptureIsFirst | src/app/api/problem/route.ts:65-66 | For a tag ending in a colon, the leftmost regex match is decided at the first occurrence of the tag (ignoring case): no later occurrence can match once the first fails. |
| ProblemRoute.RemoveFirst | src/app/api/problem/route.ts:76 | With an occurrence of the pattern, the first occurrence (case-insensitive) is cut out: the text before it and the text after it are kept as they were. Without one the text is unchanged. |
| ProblemRoute.SolutionAfterLabel | src/app/api/problem/route.ts:67-76 | The solution is the trimmed text after the first `SOLUTION:`, or "" without one. |
| ProblemRoute.ParseReply | src/app/api/problem/route.ts:65-76 | A record is read exactly when both the prompt and the answer patterns match. Prompt and answer are their trimmed captures, and the solution is the solution text. The record has no kind and no timestamp. |
| ProblemRoute.RenderedPrompt | src/app/api/problem/route.ts:53-65 | In a reply written in the requested format, the prompt capture trims to the written prompt. |
| ProblemRoute.RenderedAnswer | src/app/api/problem/route.ts:53-66 | In such a reply the first `ANSWER:` is the written one, and its capture trims to the written answer. |
| ProblemRoute.RenderedSolution | src/app/api/problem/route.ts:53-76 | In such a reply the solution read back is the written solution, trimmed. |
| ProblemRoute.ParseRenderedReply | src/app/api/problem/route.ts:53-77 | Round trip: a reply in the requested format, with non-blank single-line colon-free prompt and answer, parses back to that prompt, answer and solution, each trimmed. |
| ProblemRoute.DemoFallback | src/app/api/problem/route.ts:87-97 | The fallback is a 200 response carrying the given error, the prompt "What is 2 + 2?" and the id "demo-123", never an answer or a solution. |
| ProblemRoute.QueryTail | src/app/api/problem/route.ts:55-56 | The request's tail names the difficulty band of the level and the level itself as "(level N/10)". |
| ProblemRoute.GenerationQuery | src/app/api/problem/route.ts:52-56 | The generation request names the topic, the band of the adjusted level and the level as "(level N/10)". |
| ProblemRoute.PublicFields | src/app/api/problem/route.ts:79-86 | The success body carries exactly id, prompt and difficulty, with the given values, and never the answer or the solution. |
| ProblemRoute.Generate | src/app/api/problem/route.ts:16-98 | No response ever reveals the answer or the solution. Without a key: the demo problem, and no model call. A body or model failure gives the demo problem. Status 500 ("Bad LLM output") exactly when the reply lacks a prompt or answer field. A reply that parses is always stored, under the new id, and a stored record is exactly that parsed reply, answered with its public fields at the adjusted difficulty. An unparsable body makes no model call; otherwise the single model request names the topic and the adjusted band. |
| ProblemRoute.HandleProblemPost | src/app/api/problem/route.ts:72-86 | The handler answers with the route's response and inserts exactly the record the route stores, nothing when it stores none. |
| ProblemRoute.RouteRecordsNeverExpire | src/app/api/problem/route.ts:73-77 | Records the route stores carry no timestamp, so no sweep ever deletes them. |
| ProblemRoute.EmptyHistoryAtThreeAsksEasy | src/app/api/problem/route.ts:8-14 | A first request at difficulty 3 stays at 3 and asks for the easy band. |
| ProblemRoute.ThreeCorrectAtFiveGivesSix | src/app/api/problem/route.ts:42-44 | Three correct answers at difficulty 5 lead to difficulty 6. |
| NumericPrefix.ParseFloat | src/app/api/grade/route.ts:45-46 | `parseFloat` is a number (not NaN) exactly when, after white space and an optional sign, the text begins like a number. |
| NumericPrefix.WholeParse | src/app/api/grade/route.ts:45 | A run of digits reads as its decimal value. |
| NumericPrefix.WholeThenText | src/app/api/grade/route.ts:45 | Digits followed by text that cannot continue a number read as the digits' value. |
| NumericPrefix.DecimalParse | src/app/api/grade/route.ts:45 | `w.f` reads as the whole part plus the fraction. |
| NumericPrefix.NegativeWholeParse | src/app/api/grade/route.ts:45 | A minus sign negates the digits' value. |
| NumericPrefix.IntToStringParses | src/app/api/grade/route.ts:45 | The decimal rendering of any integer reads back as that integer. |
| GradeRoute.IsEquivalent | src/app/api/grade/route.ts:43-49 | Equal trimmed texts are equivalent. Otherwise equivalence needs both texts to have finite numeric prefixes. |
| GradeRoute.EquivalenceReflexive | src/app/api/grade/route.ts:44 | Every answer is equivalent to itself. |
| GradeRoute.EquivalenceSymmetric | src/app/api/grade/route.ts:43-49 | The order of the two arguments does not matter. |
| GradeRoute.NonNumericNeedsExactText | src/app/api/grade/route.ts:44-48 | A guess without a numeric prefix is accepted exactly when it matches after trimming. |
| GradeRoute.IntegerAnswers | src/app/api/grade/route.ts:43-49 | Integer answers written plainly are equivalent exactly when they are equal. |
| GradeRoute.LeadingSpaceIgnored | src/app/api/grade/route.ts:44 | Leading white space in the learner's answer never changes acceptance. |
| GradeRoute.TrailingZeroFraction | src/app/api/grade/route.ts:45-47 | "4" and "4.000" are equivalent. |
| GradeRoute.NumberWithWords | src/app/api/grade/route.ts:45-47 | "4" and "4 apples" are equivalent, because only the numeric prefix is read. |
| GradeRoute.WithinMillionth | src/app/api/grade/route.ts:47 | A difference below one millionth is accepted. |
| GradeRoute.OneMillionthApart | src/app/api/grade/route.ts:47 | In the exact-rational model the tolerance is strict: a difference of exactly one millionth is rejected. |
| GradeRoute.EquivalentByValue | src/app/api/grade/route.ts:45-47 | Two texts whose numeric prefixes are finite and less than one millionth apart are equivalent. |
| GradeRoute.NotEquivalentByValue | src/app/api/grade/route.ts:44-47 | Texts that differ after trimming, with numeric prefixes at least one millionth apart, are not equivalent. |
| GradeRoute.NotTransitive | src/app/api/grade/route.ts:43-49 | In the exact-rational model the relation is not transitive: w ≈ w.0000005 ≈ w.000001, yet w ≉ w.000001. |
| GradeRoute.PiIsNotANumber | src/app/api/grade/route.ts:44-48 | Against the answer "pi" only text trimming to "pi" is accepted. |
| GradeRoute.WrongAnswerExplanation | src/app/api/grade/route.ts:34 | The explanation for a wrong answer is "Correct answer was ", the answer, ". Review the following steps:" and a blank line, then the solution, in that order and nothing else. |
| GradeRoute.Grade | src/app/api/grade/route.ts:11-34 | There is no verdict exactly for an unknown id that is not the demo's. The XP is 10 exactly when correct and 0 exactly when wrong. The demo is correct exactly when the answer trims to "4", and its explanation is "Great job! 2 + 2 = 4 is correct." or "The correct answer is 4. 2 + 2 = 4." accordingly. A stored problem is correct exactly when `isEquivalent` holds. The explanation is the solution when correct, and the wrong-answer text otherwise. |
| GradeRoute.GradeResponse | src/app/api/grade/route.ts:11-39 | Status 404 with "Not found" exactly when there is no verdict; otherwise status 200 with keys correct, explanation and xpGained, whose values are the verdict's. |
| GradeRoute.DemoIgnoresStore | src/app/api/grade/route.ts:11-23 | The demo id is graded the same whatever the store holds. |
| GradeRoute.GradeIgnoresTimestamp | src/app/api/grade/route.ts:25-34 | Grading never looks at a record's age. |
| GradeRoute.OwnAnswerIsCorrect | src/app/api/grade/route.ts:28-33 | The stored answer itself is graded correct, with the solution and 10 XP. |
| GradeRoute.DemoIsTextual | src/app/api/grade/route.ts:11-28 | "4.0" is wrong for the demo, yet right for a stored answer "4". |
| Json.Members | src/app/api/solve/route.ts:61-62 | Serialisation keeps exactly the keys whose value is defined, and no more members than pairs. |
| Json.MembersFromPairs | src/app/api/solve/route.ts:61-62 | Every member is, key and value, one of the defined pairs. |
| Json.MembersAllDefined | src/app/api/solve/route.ts:61-62 | When every value is defined, the members are the pairs themselves, position by position. |
| Json.MembersAppend | src/app/api/solve/route.ts:61-62 | Serialisation keeps the pairs' order: the members of a concatenation are the members of each part in turn. |
| Json.Lookup | src/app/api/solve/route.ts:56-57 | Property access finds a value exactly when some member has that key, and yields the last such member's value. |
| SolveRoute.Rendered | src/app/api/solve/route.ts:33 | A present problem is interpolated as itself. |
| SolveRoute.SolveCall | src/app/api/solve/route.ts:28-35 | The first call's user message is the fixed lead followed by the problem, with a budget of 512 tokens. |
| SolveRoute.CritiquePrompt | src/app/api/solve/route.ts:39 | The critique request is as long as the two fixed parts plus the solution. |
| SolveRoute.CritiquePromptHoldsSolution | src/app/api/solve/route.ts:39 | The solution sits in the critique request at a fixed offset. |
| SolveRoute.CritiquePromptInjective | src/app/api/solve/route.ts:39 | Different solutions give different critique requests. |
| SolveRoute.BraceMatchSpan | src/app/api/solve/route.ts:51 | The greedy regex matches exactly when the first `{` precedes the last `}`, and the match runs from the one to the other. |
| SolveRoute.WrappedObject | src/app/api/solve/route.ts:50-51 | An object wrapped in text without braces (a code fence) is cut out exactly. |
| SolveRoute.ReadCritique | src/app/api/solve/route.ts:51-59 | Without a reply or a brace match the defaults stand, and anything else needs a successful parse. A parsed object yields its critique and confidence members. |
| SolveRoute.SuccessFields | src/app/api/solve/route.ts:61-62 | The body starts with the solution and carries critique and confidence exactly when they are defined. |
| SolveRoute.FailureBody | src/app/api/solve/route.ts:67-73 | The failure body has keys solution, critique and confidence: the given solution, an empty critique and confidence 0. |
| SolveRoute.Solve | src/app/api/solve/route.ts:11-76 | Status 200 exactly when the key is set and the body and both calls succeed; 500 otherwise. A missing key gives its own message and makes no call; every other failure gives "Error processing request.", and an unparsable body makes no call either. At most two calls: the solve call, then the critique of that solution. On success the body holds the solution and what the critique reading yields. |
| SolveRoute.FencedCritiqueReported | src/app/api/solve/route.ts:50-63 | A fenced JSON critique is reported as written. |
| SolveRoute.NoObjectKeepsDefaults | src/app/api/solve/route.ts:52 | A reply without a brace keeps "(no critique)" and 0.5. |
| SolveRoute.MissingKeysDropped | src/app/api/solve/route.ts:55-62 | An object without the two keys sends only the solution, because undefined members vanish. |
| Gamification.ReachesNextLevelInIntegers | src/components/AdaptiveMathLingo.tsx:180 | The level-up test on numbers is the same as: new XP ≥ 100 × level. |
| Gamification.Rewarded | src/components/AdaptiveMathLingo.tsx:177-184 | The level rises by at most one, and does so exactly on a correct answer whose new XP reaches 100 × level. A correct answer adds the XP and extends the streak. A wrong one costs a heart, never below 0, and resets the streak. |
| Gamification.InitialConsistent | src/components/AdaptiveMathLingo.tsx:68-71 | A fresh session satisfies the invariant that the level is one more than the hundreds of XP. |
| Gamification.RewardKeepsConsistent | src/components/AdaptiveMathLingo.tsx:177-184 | Any grade worth 0-100 XP preserves that invariant. |
| Gamification.LargeGainOutrunsLevel | src/components/AdaptiveMathLingo.tsx:180 | A gain above 100 XP breaks the invariant, because only one level-up happens per answer. |
| Gamification.ReplayFromInitial | src/components/AdaptiveMathLingo.tsx:177-184 | From a fresh session with grades as the route gives them: XP is the sum earned, the streak is the trailing run of correct answers, hearts are 3 minus the wrong answers (floored at 0), and the invariant holds. |
| AdaptiveSession.TopicChosen | src/components/AdaptiveMathLingo.tsx:123 | The confirmation quotes the chosen topic. |
| AdaptiveSession.TopicReplyMessages | src/components/AdaptiveMathLingo.tsx:100-113 | A failed request adds the apology. A reply adds its response exactly when that is non-empty, and nothing otherwise. |
| AdaptiveSession.Session.constructor | src/components/AdaptiveMathLingo.tsx:46-71 | The session starts in the discussion at difficulty 3, with no history and fresh counters. |
| AdaptiveSession.Session.OnMount | src/components/AdaptiveMathLingo.tsx:74-81 | An empty discussion opens with the greeting; nothing else changes. |
| AdaptiveSession.Session.HandleTopicMessage | src/components/AdaptiveMathLingo.tsx:83-117 | A blank message changes nothing. Otherwise the request carries the message and the earlier conversation; the message and then the reply messages are appended, and the input is cleared. |
| AdaptiveSession.Session.SelectSuggestedTopic | src/components/AdaptiveMathLingo.tsx:119-125 | The topic is selected and the conversation restarts with its confirmation. |
| AdaptiveSession.Session.FetchProblem | src/components/AdaptiveMathLingo.tsx:132-156 | The query carries topic, difficulty and history. On a reply, the prompt, id and difficulty are adopted, the answer and feedback are cleared, and the count goes up by one. A failure changes nothing but `loading`. |
| AdaptiveSession.Session.ShowProblem | src/components/AdaptiveMathLingo.tsx:145-150 | The problem's fields are adopted and the slot is advanced; nothing else changes. |
| AdaptiveSession.Session.NextSlot | src/components/AdaptiveMathLingo.tsx:148-150 | Blank answer, no feedback, count plus one. |
| AdaptiveSession.Session.StartProblemSet | src/components/AdaptiveMathLingo.tsx:127-130 | The discussion ends and the first problem is requested with the current topic, difficulty and history. |
| AdaptiveSession.Session.HandleSubmit | src/components/AdaptiveMathLingo.tsx:158-190 | Without a problem id nothing happens. A verdict is shown, appended to the history at the current difficulty, and applied to the counters as `Rewarded` says. A failure changes nothing but `loading`. |
| AdaptiveSession.Session.Reward | src/components/AdaptiveMathLingo.tsx:177-184 | The counters become `Rewarded` of the old ones, and the level invariant is preserved for gains of 0-100 XP. |
| AdaptiveSession.Session.CompleteSet | src/components/AdaptiveMathLingo.tsx:193-202 | Back to the discussion, with the count, history and difficulty reset and the completion message shown. |
| AdaptiveSession.Session.NextProblem | src/components/AdaptiveMathLingo.tsx:192-206 | After ten problems the set completes and nothing is fetched. Before that the next problem is requested, and the count never passes ten. |
| DemoSession.EnabledDrawingSubmitSendsDrawing | src/components/MathLingoDemo.tsx:224-231 | On a drawing problem an enabled submit button sends the drawing, which is non-empty. |
| DemoSession.RoundedSeconds | src/components/MathLingoDemo.tsx:124 | `Math.round(ms / 1000)` is within half a second of the elapsed time. |
| DemoSession.RoundedSecondsUnique | src/components/MathLingoDemo.tsx:124 | It is the only whole number within half a second. |
| DemoSession.TimeTaken | src/components/MathLingoDemo.tsx:124 | The time is reported exactly when the start time is truthy, and then rounded to the nearest second. |
| DemoSession.Demo.constructor | src/components/MathLingoDemo.tsx:39-65 | The demo starts with no problem, fresh counters and no attempt. |
| DemoSession.Demo.FetchProblem | src/components/MathLingoDemo.tsx:73-99 | The query is the current level. On a reply, prompt, id and truthy type are adopted, every input and all feedback state are cleared, and the clock starts. A failure changes nothing but `loading`. |
| DemoSession.Demo.ShowProblem | src/components/MathLingoDemo.tsx:82-93 | The whole per-problem state is replaced at once. |
| DemoSession.Demo.ClearInputs | src/components/MathLingoDemo.tsx:85-87 | Blank answer and drawing, no feedback. |
| DemoSession.Demo.ClearAttempt | src/components/MathLingoDemo.tsx:88-90 | No attempt, panel hidden, no thumbs. |
| DemoSession.Demo.ClearReport | src/components/MathLingoDemo.tsx:91-93 | Empty comment, not submitted, clock started. |
| DemoSession.Demo.OnMount | src/components/MathLingoDemo.tsx:68-71 | A problem is fetched exactly when none is shown; otherwise nothing changes. |
| DemoSession.Demo.HandleSubmit | src/components/MathLingoDemo.tsx:101-145 | Without a problem id nothing happens. The graded answer is the drawing for drawing types and the text otherwise. On a verdict, an attempt with the problem, the answer, the explanation, the time taken and the verdict's points is recorded, and the counters move as `Rewarded` says. The panel opens only when the attempt request succeeds. |
| DemoSession.Demo.ShowVerdict | src/components/MathLingoDemo.tsx:113-139 | Shows the verdict, moves the counters, and adopts the attempt id when the attempt reply came back. |
| DemoSession.Demo.Reward | src/components/MathLingoDemo.tsx:115-122 | The counters become `Rewarded` of the old ones, and the level invariant is preserved for gains of 0-100 XP. |
| DemoSession.Demo.ChooseThumbs | src/components/MathLingoDemo.tsx:261-268 | Records the thumbs choice only. |
| DemoSession.Demo.HandleFeedbackSubmit | src/components/MathLingoDemo.tsx:147-167 | A report is sent exactly when the attempt id is truthy and thumbs are chosen, and it carries them and the comment. Delivery marks it submitted and hides the panel; a failure changes nothing but `loading`. |
| DbUrl.MatchAtCaptures | src/lib/db-setup.ts:8 | A match starts with the scheme, has a non-empty host part, and captures the maximal run of word characters right after the first slash that follows the scheme. |
| DbUrl.MatchShapeIsMatch | src/lib/db-setup.ts:8 | Conversely, a scheme, a non-empty host part, the first slash and a maximal word run after it are a match capturing that run. |
| DbUrl.FirstMatchPos | src/lib/db-setup.ts:8 | The search position is the leftmost match, with no match before it. |
| DbUrl.GetDbNameFromUrl | src/lib/db-setup.ts:6-10 | An unset or empty URL has no name. Otherwise there is no name exactly when the pattern matches nowhere. A name is the maximal run of word characters after the first slash that follows the host part, at the leftmost match. |
| DbUrl.NoSchemeNoName | src/lib/db-reset.ts:6-10 | A URL that never mentions `postgres` names no database. |
| DbUrl.LeftmostAtStart | src/lib/db-setup.ts:8-9 | A URL matching at its start has its name read there. |
| DbUrl.NameRoundTrip | src/lib/db-setup.ts:6-10 | Round trip: `postgres[ql]://host/name…` yields that name, whatever follows a non-word character. |
| DbUrl.LocalDemoUrlCreates | src/lib/db-reset.ts:16-18 | A localhost URL naming `mathlingo_demo` passes the `createdb` guard. |
| DbUrl.LongerNameDoesNotCreate | src/lib/db-setup.ts:16-18 | A name merely starting with `mathlingo_demo` does not pass the guard, because the capture is greedy. |

## Left out

- The language-model, topic-discussion, attempt and feedback endpoints are not modelled; only their replies are. Those replies, `Date.now()`, `uuid()`, `JSON.parse` (the `parse` parameter of `SolveRoute.ReadCritique`, `SolveRoute.Solve` and the critique lemmas) and environment variables are parameters.
- The database pool, its queries and `execSync("createdb …")` are left out; the model stops at the guard that decides whether `createdb` runs.
- The `createdb` error handling (ignoring "already exists") and every `console` call are left out, because they only log.
- Rendering (JSX) and the input setters (`setAnswer`, `setComment`, `setCurrentMessage`, the drawing pads) are left out. The model starts from the state they leave, apart from the submit button's `disabled` test. The feedback button's `disabled` is not needed either, because the handler repeats its thumbs test.
- Asynchrony is left out. React's batched, deferred state updates and interleaved handlers are modelled as handlers that run to completion one at a time. Functional updates and closure reads (the level-up test reading the pre-update XP) are modelled as the source writes them.
- `NumericPrefix.ParseFloat` uses exact rationals: it does not model IEEE-754 rounding of long literals, the `1e-6` literal's binary value, or the overflow of a literal such as `1e400` to `Infinity`, after which the comparison is always false.
- Only decimal literals are treated as numbers; hexadecimal and other forms `parseFloat` rejects are outside the model.
- Request bodies are typed values; malformed JSON is an absent request. Problem-route difficulties are integers, so a missing or non-numeric difficulty (which a fallback response can leave in the adaptive client) is not modelled. The demo client posts only `{ skill: level }` (`src/components/MathLingoDemo.tsx:79`), so the route sees no topic and no difficulty; the model's request is the typed one.
- The grade route's body parsing is outside any `try`, so a malformed body there gives the framework's own error. That is not modelled, and the request is assumed to be parsed.
- Attempt ids are integers; a non-numeric `id` in the attempt reply is not modelled. The attempt record's `user_id` is always `null` and is omitted.
- `Json.Lookup` models property access on an object's own members only; inherited properties are not modelled.
- AdaptiveSession.Session.StartProblemSet: on a reply it states only the discussion flag, the problem id and the count; the rest follows from `FetchProblem`'s contract.
- AdaptiveSession.Session.NextProblem: on a reply it states only the problem count, and the rest follows from `FetchProblem`'s contract.
- DemoSession.Demo.OnMount: when it fetches, it states the query only, and the new state follows from `FetchProblem`'s contract.
- GradeRoute.OneMillionthApart: holds for exact rationals only. With IEEE-754 doubles the difference between w and w.000001 rounds to a value that depends on w; for w = 1 it is just below `1e-6`, so that pair is accepted.
- GradeRoute.NotTransitive: holds for exact rationals only, for the same reason; with doubles, which triples witness it depends on w.
- GradeRoute.IntegerAnswers: holds for exact integers only. Doubles collapse integers above 2^53, so two different long integers can compare equivalent; overflow of a literal such as `1e400` to `Infinity` is not modelled either.
- Cache.Swept: its own contract states only that keys are never added; what survives is stated by the `Swept…` lemmas.
