/**
 * The adaptive learner component: a topic discussion, then a set of ten problems
 * whose difficulty the problem route adapts from the learner's recent answers.
 * The component's state variables are the fields of `Session`; each handler is a
 * method that runs to completion (the network reply it awaits is a parameter:
 * `None` when the request or its JSON parsing throws).
 */
module AdaptiveSession {
  import opened Optional
  import opened Text
  import opened History
  import opened GradeRoute
  import opened Gamification

  datatype Role = UserRole | AssistantRole
  datatype Message = Message(role: Role, content: string)

  const Greeting: string :=
    "Hi! I'm here to help you choose what math problems to work on. What kind of math topics interest you? You can tell me about subjects you enjoy, things you find challenging, or areas you'd like to improve in!"
  const Apology: string := "Sorry, I'm having trouble understanding. Could you try again?"
  const SetComplete: string :=
    "Great job completing the problem set! Would you like to try a different topic or work on more problems in the same area?"
  const TotalProblems: int := 10
  const StartDifficulty: int := 3

  const TopicChosenLead: string := "Great choice! Let's work on \""
  const TopicChosenTail: string :=
    "\". I'll generate 10 problems for you, starting at a moderate difficulty level that will adapt based on how you do. Ready to begin?"

  /** The assistant's confirmation of a suggested topic, quoting the topic. */
  function TopicChosen(topic: string): (r: string)
    ensures Contains(r, topic)
  {
    ContainsMiddle(TopicChosenLead, topic, TopicChosenTail);
    TopicChosenLead + topic + TopicChosenTail
  }

  /** The body sent to the topic-discussion route. */
  datatype TopicRequest = TopicRequest(message: string, history: seq<Message>)

  /** The body sent to the problem route; an undefined difficulty is left out of the JSON. */
  datatype ProblemQuery = ProblemQuery(topic: string, difficulty: Option<int>, history: seq<HistoryEntry>)

  /** The members the component reads from a problem response; `None` is `undefined`. */
  datatype ProblemData = ProblemData(prompt: Option<string>, id: Option<string>, difficulty: Option<int>)

  /**
   * The assistant messages a topic reply adds: the apology when the request throws,
   * the reply when its `response` member is a non-empty string, nothing otherwise.
   */
  function TopicReplyMessages(reply: Option<Option<string>>): (r: seq<Message>)
    ensures |r| <= 1
    ensures reply.None? ==> r == [Message(AssistantRole, Apology)]
    ensures reply.Some? ==> (r == [] <==> !IsSet(reply.value))
    ensures reply.Some? && r != [] ==> r == [Message(AssistantRole, reply.value.value)]
  {
    match reply
    case None => [Message(AssistantRole, Apology)]
    case Some(response) => if IsSet(response) then [Message(AssistantRole, response.value)] else []
  }

  /** Every state variable of the component, as one value. */
  datatype SessionState = SessionState(
    isDiscussingTopic: bool,
    conversation: seq<Message>,
    currentMessage: string,
    discussionLoading: bool,
    selectedTopic: string,
    problem: Option<string>,
    problemId: Option<string>,
    answer: string,
    feedback: Option<Verdict>,
    loading: bool,
    currentDifficulty: Option<int>,
    problemHistory: seq<HistoryEntry>,
    problemNumber: int,
    counters: Stats)

  class Session {
    var isDiscussingTopic: bool
    var conversation: seq<Message>
    var currentMessage: string
    var discussionLoading: bool
    var selectedTopic: string
    var problem: Option<string>
    var problemId: Option<string>
    var answer: string
    var feedback: Option<Verdict>
    var loading: bool
    var currentDifficulty: Option<int>
    var problemHistory: seq<HistoryEntry>
    var problemNumber: int
    var xp: int
    var hearts: int
    var streak: int
    var level: int

    function Counters(): Stats
      reads this
    {
      Stats(xp, hearts, streak, level)
    }

    function State(): SessionState
      reads this
    {
      SessionState(isDiscussingTopic, conversation, currentMessage, discussionLoading, selectedTopic,
                   problem, problemId, answer, feedback, loading, currentDifficulty, problemHistory,
                   problemNumber, Counters())
    }

    /** The initial state: discussing a topic, difficulty 3, no history, and fresh counters. */
    constructor ()
      ensures State() == SessionState(true, [], [], false, [], None, None, [], None, false,
                                      Some(StartDifficulty), [], 0, Initial)
    {
      isDiscussingTopic, conversation, currentMessage, discussionLoading, selectedTopic := true, [], [], false, [];
      problem, problemId, answer, feedback, loading := None, None, [], None, false;
      currentDifficulty, problemHistory, problemNumber := Some(StartDifficulty), [], 0;
      xp, hearts, streak, level := 0, MaxHearts, 0, 1;
    }

    /** The mount effect: an empty discussion opens with the greeting. */
    method OnMount()
      modifies this
      ensures State() == old(State()).(conversation :=
                if old(isDiscussingTopic) && old(conversation) == [] then [Message(AssistantRole, Greeting)]
                else old(conversation))
    {
      if isDiscussingTopic && |conversation| == 0 {
        conversation := [Message(AssistantRole, Greeting)];
      }
    }

    /**
     * Sends the typed message. A blank message (one that trims to nothing, which by
     * the contract of `Trim` is one made of white space only) is ignored. Otherwise the request
     * carries the message and the conversation as it was before the message was
     * appended; the message, then the reply, are appended and the input is cleared.
     */
    method HandleTopicMessage(reply: Option<Option<string>>) returns (request: Option<TopicRequest>)
      modifies this
      ensures request.None? <==> AllWhitespace(old(currentMessage))
      ensures request.None? ==> State() == old(State())
      ensures request.Some? ==> request.value == TopicRequest(old(currentMessage), old(conversation))
      ensures request.Some? ==>
                State() == old(State()).(
                  conversation := old(conversation) + [Message(UserRole, old(currentMessage))] + TopicReplyMessages(reply),
                  currentMessage := [],
                  discussionLoading := false)
    {
      if AllWhitespace(currentMessage) {
        return None;
      }
      var userMessage := Message(UserRole, currentMessage);
      request := Some(TopicRequest(currentMessage, conversation));
      conversation := conversation + [userMessage];
      currentMessage := [];
      discussionLoading := true;
      conversation := conversation + TopicReplyMessages(reply);
      discussionLoading := false;
    }

    /** Picks a suggested topic: the conversation restarts with the confirmation. */
    method SelectSuggestedTopic(topic: string)
      modifies this
      ensures State() == old(State()).(selectedTopic := topic,
                                      conversation := [Message(AssistantRole, TopicChosen(topic))])
    {
      selectedTopic := topic;
      conversation := [Message(AssistantRole, TopicChosen(topic))];
    }

    /**
     * Requests a problem with the current topic, difficulty and history. On a reply
     * the prompt, id and difficulty are adopted (absent ones become `None`), the answer
     * and feedback are cleared and the problem number goes up by one.
     */
    method FetchProblem(data: Option<ProblemData>) returns (query: ProblemQuery)
      modifies this
      ensures query == ProblemQuery(old(selectedTopic), old(currentDifficulty), old(problemHistory))
      ensures data.None? ==> State() == old(State()).(loading := false)
      ensures data.Some? ==>
                var d := data.value;
                State() == old(State()).(problem := d.prompt, problemId := d.id, currentDifficulty := d.difficulty,
                                        answer := [], feedback := None, problemNumber := old(problemNumber) + 1,
                                        loading := false)
    {
      loading := true;
      query := ProblemQuery(selectedTopic, currentDifficulty, problemHistory);
      if data.Some? {
        ShowProblem(data.value);
      }
      loading := false;
    }

    /** Adopts a fetched problem: the new prompt, id and difficulty, a blank answer and no feedback. */
    method ShowProblem(d: ProblemData)
      modifies this
      ensures State() == old(State()).(problem := d.prompt, problemId := d.id, currentDifficulty := d.difficulty,
                                      answer := [], feedback := None, problemNumber := old(problemNumber) + 1)
    {
      problem, problemId, currentDifficulty := d.prompt, d.id, d.difficulty;
      NextSlot();
    }

    /** A blank answer, no verdict shown, and the problem count advanced. */
    method NextSlot()
      modifies this
      ensures State() == old(State()).(answer := [], feedback := None, problemNumber := old(problemNumber) + 1)
    {
      answer, feedback, problemNumber := [], None, problemNumber + 1;
    }

    /** Leaves the discussion and fetches the first problem. */
    method StartProblemSet(data: Option<ProblemData>) returns (query: ProblemQuery)
      modifies this
      ensures query == ProblemQuery(old(selectedTopic), old(currentDifficulty), old(problemHistory))
      ensures !isDiscussingTopic
      ensures data.Some? ==> problemNumber == old(problemNumber) + 1 && problemId == data.value.id
      ensures data.None? ==> State() == old(State()).(isDiscussingTopic := false, loading := false)
    {
      isDiscussingTopic := false;
      query := FetchProblem(data);
    }

    /**
     * Submits the answer. Without a problem id nothing happens. On a verdict the
     * feedback is shown, one history entry records the verdict at the current
     * difficulty, and the counters move as `Rewarded` says.
     */
    method HandleSubmit(verdict: Option<Verdict>) returns (request: Option<GradeRequest>)
      modifies this
      ensures request.None? <==> !IsSet(old(problemId))
      ensures request.None? ==> State() == old(State())
      ensures request.Some? ==> request.value == GradeRequest(old(problemId).value, old(answer))
      ensures request.Some? && verdict.None? ==> State() == old(State()).(loading := false)
      ensures request.Some? && verdict.Some? ==>
                var v := verdict.value;
                State() == old(State()).(
                  feedback := verdict,
                  problemHistory := old(problemHistory) + [HistoryEntry(v.correct, old(currentDifficulty))],
                  counters := Rewarded(old(Counters()), v.correct, v.xpGained),
                  loading := false)
    {
      if !IsSet(problemId) {
        return None;
      }
      loading := true;
      request := Some(GradeRequest(problemId.value, answer));
      if verdict.Some? {
        var v := verdict.value;
        feedback := verdict;
        problemHistory := problemHistory + [HistoryEntry(v.correct, currentDifficulty)];
        Reward(v.correct, v.xpGained);
      }
      loading := false;
    }

    /**
     * The counters after a graded answer. The level-up test uses the XP before the
     * gain, as the handler's closure does, which is what `Rewarded` states.
     */
    method Reward(correct: bool, gain: int)
      modifies this
      ensures State() == old(State()).(counters := Rewarded(old(Counters()), correct, gain))
      ensures Consistent(old(Counters())) && 0 <= gain <= 100 ==> Consistent(Counters())
    {
      ghost var expected := Rewarded(Counters(), correct, gain);
      if Consistent(Counters()) && 0 <= gain <= 100 {
        RewardKeepsConsistent(Counters(), correct, gain);
      }
      if correct {
        var levelUp := ReachesNextLevel(xp, gain, level);
        xp := xp + gain;
        streak := streak + 1;
        if levelUp {
          level := level + 1;
        }
      } else {
        hearts := if hearts - 1 > 0 then hearts - 1 else 0;
        streak := 0;
      }
      assert Counters() == expected;
    }

    /** Back to the discussion, announcing the finished set, with the set's progress reset. */
    method CompleteSet()
      modifies this
      ensures State() == old(State()).(isDiscussingTopic := true, problemNumber := 0, problemHistory := [],
                                      currentDifficulty := Some(StartDifficulty),
                                      conversation := [Message(AssistantRole, SetComplete)])
    {
      isDiscussingTopic, problemNumber, problemHistory := true, 0, [];
      currentDifficulty, conversation := Some(StartDifficulty), [Message(AssistantRole, SetComplete)];
    }

    /**
     * After the tenth problem the set is complete: back to the discussion with the
     * problem count, history and difficulty reset. Before that, the next problem is fetched.
     */
    method NextProblem(data: Option<ProblemData>) returns (query: Option<ProblemQuery>)
      modifies this
      ensures query.None? <==> old(problemNumber) >= TotalProblems
      ensures query.None? ==>
                State() == old(State()).(isDiscussingTopic := true, problemNumber := 0, problemHistory := [],
                                        currentDifficulty := Some(StartDifficulty),
                                        conversation := [Message(AssistantRole, SetComplete)])
      ensures query.Some? ==>
                query.value == ProblemQuery(old(selectedTopic), old(currentDifficulty), old(problemHistory))
      ensures query.Some? && data.Some? ==> problemNumber == old(problemNumber) + 1 <= TotalProblems
    {
      if problemNumber >= TotalProblems {
        CompleteSet();
        query := None;
      } else {
        var q := FetchProblem(data);
        query := Some(q);
      }
    }
  }
}
