/** The LangChain/AutoGen interviewer of `backend/app/agent.py`: the question
    budget of `next_question`, `generate_question`'s narrowing of the officer's
    reply, `evaluate_answer`'s history and reply parsing, `generate_feedback`'s
    fallbacks, and `_get_relevant_topics`.

    Each agent's `a_generate` call is a parameter: it raised, or it returned a
    reply whose `content` key is present (`Some`) or missing (`None`). The
    question `retrieve_question_from_chroma` would supply for the first turns is
    an abstract string. */
module Agent {
  import opened Wrappers
  import opened Strings
  import opened Json
  import opened Extract
  import Orchestration

  /** `_get_relevant_topics`. */
  function RelevantTopics(visaType: string): (r: seq<string>)
    ensures visaType == "tourist" || visaType == "student" <==> |r| == 5
    ensures visaType != "tourist" && visaType != "student" <==> |r| == 3
    ensures "financial means" in r <==> visaType != "student"
  {
    if visaType == "tourist" then
      ["travel plans", "duration of stay", "financial means", "return intentions", "purpose of visit"]
    else if visaType == "student" then
      ["educational background", "chosen program", "financial support", "career plans", "language proficiency"]
    else
      ["purpose of visit", "duration of stay", "financial means"]
  }

  // ------------------------------------------------------------ agent state

  datatype AgentState = AgentState(
    visaType: string,
    questionCount: int,
    questionsAsked: int,
    history: seq<(string, string)>,
    current: Option<string>)

  /** `InterviewAgent(visa_type, question_count)`. */
  function NewAgent(visaType: string, questionCount: int): (s: AgentState)
    ensures s.questionsAsked == 0 && s.history == [] && s.current == None
    ensures s.visaType == visaType && s.questionCount == questionCount
  {
    AgentState(visaType, questionCount, 0, [], None)
  }

  /** What an agent's `a_generate` call ended with. */
  datatype AgentReply = ReplyRaised | Replied(content: Option<string>)

  /** `response.get("content", "")`. */
  function ContentOf(content: Option<string>): string {
    content.GetOr("")
  }

  // ------------------------------------------------------------ questions

  /** `generate_question`'s treatment of the officer's reply: strip it, and when it
      holds a `?`, narrow it to what the question regex captures, if it captures
      anything. */
  function NarrowReply(reply: string): (r: string)
    ensures !Contains(Strip(reply), '?') ==> r == Strip(reply)
    ensures (exists q :: 0 <= q < |Strip(reply)| && QualifyingMark(Strip(reply), q)) ==>
      |r| >= 1 && r[|r| - 1] == '?' && forall k :: 0 <= k < |r| ==> r[k] != '.'
    ensures IsSubstring(r, Strip(reply))
  {
    var q := Strip(reply);
    if Contains(q, '?') then
      match QuestionMatch(q)
      case Some(g) => g
      case None =>
        assert OccursAt(q, 0, q);
        q
    else
      assert OccursAt(q, 0, q);
      q
  }

  /** The inline narrowing is `extract_question_from_text` of the stripped reply. */
  lemma NarrowIsExtract(reply: string)
    ensures NarrowReply(reply) == ExtractQuestion(Strip(reply))
  {
    StripIdempotent(reply);
  }

  datatype Ask = Exhausted | Failed | Asked(question: string)

  datatype Asking = Asking(state: AgentState, outcome: Ask)

  /** The officer is consulted once a question was asked and answered; before
      that the question comes from retrieval. */
  predicate UsesOfficer(s: AgentState) {
    s.questionsAsked > 0 && s.history != []
  }

  /** `generate_question`: `Failed` when the officer's call raised, which leaves
      the state as it was. */
  function GenerateQuestion(s: AgentState, officer: AgentReply, retrieved: string): (r: Asking)
    ensures r.outcome.Asked? ==> r.state == s.(current := Some(r.outcome.question), questionsAsked := s.questionsAsked + 1)
    ensures r.outcome.Failed? <==> UsesOfficer(s) && officer.ReplyRaised?
    ensures r.outcome.Failed? ==> r.state == s
    ensures !r.outcome.Exhausted?
    ensures !UsesOfficer(s) ==> r.outcome == Asked(retrieved)
    ensures UsesOfficer(s) && officer.Replied? ==> r.outcome == Asked(NarrowReply(ContentOf(officer.content)))
  {
    var q :=
      if !UsesOfficer(s) then Some(retrieved)
      else match officer
        case ReplyRaised => None
        case Replied(content) => Some(NarrowReply(ContentOf(content)));
    match q
    case None => Asking(s, Failed)
    case Some(question) => Asking(s.(current := Some(question), questionsAsked := s.questionsAsked + 1), Asked(question))
  }

  /** `next_question`: nothing once the budget is spent. */
  function NextQuestion(s: AgentState, officer: AgentReply, retrieved: string): (r: Asking)
    ensures s.questionsAsked >= s.questionCount <==> r.outcome.Exhausted?
    ensures r.outcome.Exhausted? ==> r.state == s
    ensures r.outcome.Asked? ==> r.state.questionsAsked == s.questionsAsked + 1 && r.state.current == Some(r.outcome.question)
    ensures !r.outcome.Asked? ==> r.state == s
    ensures s.questionsAsked < s.questionCount ==> r == GenerateQuestion(s, officer, retrieved)
  {
    if s.questionsAsked >= s.questionCount then Asking(s, Exhausted)
    else GenerateQuestion(s, officer, retrieved)
  }

  function Max(a: int, b: int): int {
    if a >= b then a else b
  }

  function Min(a: int, b: int): int {
    if a <= b then a else b
  }

  /** `next_question` never pushes the count of asked questions past
      `max(0, question_count)`. */
  lemma NextQuestionKeepsBudget(s: AgentState, officer: AgentReply, retrieved: string)
    requires 0 <= s.questionsAsked <= Max(0, s.questionCount)
    ensures var t := NextQuestion(s, officer, retrieved).state;
      s.questionsAsked <= t.questionsAsked <= Max(0, s.questionCount) && t.questionCount == s.questionCount
  {
  }

  /** The state after asking with each of `calls` (the officer's reply and the
      retrieved question for that call) in turn. */
  function AskAll(s: AgentState, calls: seq<(AgentReply, string)>): (t: AgentState)
    ensures t.questionCount == s.questionCount
    ensures s.questionsAsked <= t.questionsAsked <= s.questionsAsked + |calls|
    ensures s.questionsAsked <= Max(0, s.questionCount) ==> t.questionsAsked <= Max(0, s.questionCount)
    decreases |calls|
  {
    if |calls| == 0 then s
    else AskAll(NextQuestion(s, calls[0].0, calls[0].1).state, calls[1..])
  }

  /** When no officer call raises, `n` calls add questions until the budget is
      spent: `min(asked + n, max(0, question_count))` questions are asked in all. */
  lemma {:induction false} AskAllCount(s: AgentState, calls: seq<(AgentReply, string)>)
    requires 0 <= s.questionsAsked <= Max(0, s.questionCount)
    requires forall k :: 0 <= k < |calls| ==> calls[k].0.Replied?
    ensures AskAll(s, calls).questionsAsked == Min(s.questionsAsked + |calls|, Max(0, s.questionCount))
    decreases |calls|
  {
    if |calls| > 0 {
      var t := NextQuestion(s, calls[0].0, calls[0].1).state;
      NextQuestionKeepsBudget(s, calls[0].0, calls[0].1);
      assert forall k :: 0 <= k < |calls[1..]| ==> calls[1..][k].0.Replied? by {
        forall k | 0 <= k < |calls[1..]| ensures calls[1..][k].0.Replied? {
          assert calls[1..][k] == calls[k + 1];
        }
      }
      AskAllCount(t, calls[1..]);
    }
  }

  // ------------------------------------------------------------ answers

  /** Per-answer metrics used without a key or when the reply yields nothing usable. */
  function DefaultAnswerMetrics(): (r: Json)
    ensures r.JObj? && |r.fields| == 4
  {
    NumberObject(Orchestration.AnswerMetricDefaults)
  }

  /** The parse cascade of `evaluate_answer`: a `json`-tagged fence if there is one
      (an unparsable one raises into the outer handler), else the brace span,
      else the defaults. */
  function ParseAnswerMetrics(content: string, parse: Parser): (r: Json)
    ensures r == DefaultAnswerMetrics() || exists c :: IsSubstring(c, content) && parse(c) == Some(r)
    ensures FencedCandidate(content, true).Some? ==>
      r == parse(FencedCandidate(content, true).value).GetOr(DefaultAnswerMetrics())
    ensures FencedCandidate(content, true).None? && BraceCandidate(content).Some? ==>
      r == parse(BraceCandidate(content).value).GetOr(DefaultAnswerMetrics())
    ensures FencedCandidate(content, true).None? && BraceCandidate(content).None? ==> r == DefaultAnswerMetrics()
  {
    match FencedCandidate(content, true)
    case Some(body) => parse(body).GetOr(DefaultAnswerMetrics())
    case None =>
      match BraceCandidate(content)
      case Some(c) => parse(c).GetOr(DefaultAnswerMetrics())
      case None => DefaultAnswerMetrics()
  }

  /** Unlike `extract_json_from_text`, an unparsable tagged fence does not fall
      through to the brace span. */
  lemma UnparsableFenceGivesDefaults(content: string, parse: Parser)
    requires FencedCandidate(content, true).Some? && parse(FencedCandidate(content, true).value).None?
    ensures ParseAnswerMetrics(content, parse) == DefaultAnswerMetrics()
  {
  }

  datatype Evaluated = Evaluated(state: AgentState, metrics: Option<Json>)

  /** `evaluate_answer`: `metrics` is `None` when the evaluator's call raised,
      which propagates after the history was extended. */
  function EvaluateAnswer(s: AgentState, answer: string, hasKey: bool, evaluator: AgentReply, parse: Parser): (r: Evaluated)
    ensures r.state == s.(history := r.state.history)
    ensures Orchestration.Truthy(s.current) ==> r.state.history == s.history + [(s.current.value, answer)]
    ensures !Orchestration.Truthy(s.current) ==> r.state.history == s.history
    ensures !hasKey ==> r.metrics == Some(DefaultAnswerMetrics())
    ensures r.metrics.None? <==> hasKey && evaluator.ReplyRaised?
    ensures hasKey && evaluator.Replied? ==> r.metrics == Some(ParseAnswerMetrics(ContentOf(evaluator.content), parse))
  {
    var history := if Orchestration.Truthy(s.current) then s.history + [(s.current.value, answer)] else s.history;
    var s1 := s.(history := history);
    if !hasKey then Evaluated(s1, Some(DefaultAnswerMetrics()))
    else match evaluator
      case ReplyRaised => Evaluated(s1, None)
      case Replied(content) => Evaluated(s1, Some(ParseAnswerMetrics(ContentOf(content), parse)))
  }

  /** Once a question was asked, answering it records the pair, so the next
      question comes from the officer. */
  lemma AnsweringEnablesOfficer(s: AgentState, officer: AgentReply, retrieved: string, answer: string,
                                hasKey: bool, evaluator: AgentReply, parse: Parser)
    requires s.questionsAsked >= 0
    requires NextQuestion(s, officer, retrieved).outcome.Asked?
    requires NextQuestion(s, officer, retrieved).outcome.question != ""
    ensures var t := EvaluateAnswer(NextQuestion(s, officer, retrieved).state, answer, hasKey, evaluator, parse).state;
      UsesOfficer(t) && t.history[|t.history| - 1] == (NextQuestion(s, officer, retrieved).outcome.question, answer)
  {
  }

  // ------------------------------------------------------------ feedback

  const ShortFallbackFeedback: string :=
    "Based on your interview responses, you demonstrated adequate knowledge about your visa application. "
    + "To improve, consider providing more detailed and specific answers to questions."
  const LongFallbackFeedback: string :=
    ShortFallbackFeedback
    + " Overall, your application shows promise, but would benefit from better preparation on the key requirements for this visa type."
  const ThanksFeedback: string := "Thank you for completing the interview."

  /** `generate_feedback`'s default metrics: 7.0 for each of the four keys. */
  function DefaultFeedbackMetrics(): (r: Json)
    ensures r.JObj? && |r.fields| == 4
    ensures forall k :: 0 <= k < 4 ==> r.fields[k].1 == JNum(7.0)
  {
    NumberObject([("fluency", 7.0), ("confidence", 7.0), ("contentAccuracy", 7.0), ("responseTime", 7.0)])
  }

  datatype FeedbackResult = FeedbackResult(metrics: Json, feedback: Json)

  /** The result object built around a feedback text, with the default metrics. */
  function TextFeedbackObject(text: string): (r: Json)
    ensures r.JObj? && Lookup(r.fields, "feedback") == Some(JStr(text))
    ensures Lookup(r.fields, "metrics") == Some(DefaultFeedbackMetrics())
  {
    var r := JObj([("feedback", JStr(text)), ("metrics", DefaultFeedbackMetrics())]);
    assert r.fields[..1] == [("feedback", JStr(text))];
    r
  }

  /** The `result` object the parse cascade settles on, or `None` when the outer
      handler takes over (a tagged fence that does not parse). A brace span that
      does not parse gives the long fallback text; a reply with neither becomes
      the feedback text itself. */
  function FeedbackObject(content: string, parse: Parser): (r: Option<Json>)
    ensures FencedCandidate(content, true).Some? ==> r == parse(FencedCandidate(content, true).value)
    ensures FencedCandidate(content, true).None? ==> r.Some?
    ensures FencedCandidate(content, true).None? && BraceCandidate(content).Some? ==>
      r == Some(parse(BraceCandidate(content).value).GetOr(TextFeedbackObject(LongFallbackFeedback)))
    ensures FencedCandidate(content, true).None? && BraceCandidate(content).None? ==>
      r == Some(TextFeedbackObject(content))
  {
    match FencedCandidate(content, true)
    case Some(body) => parse(body)
    case None =>
      match BraceCandidate(content)
      case Some(c) => Some(parse(c).GetOr(TextFeedbackObject(LongFallbackFeedback)))
      case None => Some(TextFeedbackObject(content))
  }

  /** `generate_feedback`. */
  function GenerateFeedback(s: AgentState, hasKey: bool, feedbackAgent: AgentReply, parse: Parser): (r: FeedbackResult)
    ensures s.history == [] || !hasKey || feedbackAgent.ReplyRaised? ==>
      r == FeedbackResult(DefaultFeedbackMetrics(), JStr(ShortFallbackFeedback))
    ensures s.history != [] && hasKey && feedbackAgent.Replied? ==>
      var obj := FeedbackObject(ContentOf(feedbackAgent.content), parse);
      && (obj.Some? && obj.value.JObj? ==>
            r == FeedbackResult(Lookup(obj.value.fields, "metrics").GetOr(DefaultFeedbackMetrics()),
                                Lookup(obj.value.fields, "feedback").GetOr(JStr(ThanksFeedback))))
      && (obj.None? || !obj.value.JObj? ==> r == FeedbackResult(DefaultFeedbackMetrics(), JStr(ShortFallbackFeedback)))
  {
    var fallback := FeedbackResult(DefaultFeedbackMetrics(), JStr(ShortFallbackFeedback));
    if s.history == [] || !hasKey then fallback
    else match feedbackAgent
      case ReplyRaised => fallback
      case Replied(content) =>
        match FeedbackObject(ContentOf(content), parse)
        case Some(JObj(fields)) =>
          FeedbackResult(Lookup(fields, "metrics").GetOr(DefaultFeedbackMetrics()),
                         Lookup(fields, "feedback").GetOr(JStr(ThanksFeedback)))
        case _ => fallback
  }

  /** A parsed feedback object is read with `.get` defaults: its `metrics` and
      `feedback` values when present, the all-7.0 metrics and the short thanks
      otherwise; a parsed value that is not an object takes the fallback. */
  lemma ParsedFeedbackRead(s: AgentState, feedbackAgent: AgentReply, parse: Parser, v: Json)
    requires s.history != [] && feedbackAgent.Replied?
    requires FeedbackObject(ContentOf(feedbackAgent.content), parse) == Some(v)
    ensures var r := GenerateFeedback(s, true, feedbackAgent, parse);
      && (v.JObj? ==> r.metrics == Lookup(v.fields, "metrics").GetOr(DefaultFeedbackMetrics()))
      && (v.JObj? ==> r.feedback == Lookup(v.fields, "feedback").GetOr(JStr(ThanksFeedback)))
      && (!v.JObj? ==> r == FeedbackResult(DefaultFeedbackMetrics(), JStr(ShortFallbackFeedback)))
  {
  }

  /** A tagged fence that does not parse raises into the outer handler, which
      returns the short fallback text; the brace span is never tried. */
  lemma UnparsableFeedbackFenceGivesFallback(s: AgentState, content: string, parse: Parser)
    requires s.history != []
    requires FencedCandidate(content, true).Some? && parse(FencedCandidate(content, true).value).None?
    ensures GenerateFeedback(s, true, Replied(Some(content)), parse) ==
      FeedbackResult(DefaultFeedbackMetrics(), JStr(ShortFallbackFeedback))
  {
  }

  /** A brace span that parses decides the result, read with `.get` defaults. */
  lemma ParsedBraceFeedback(s: AgentState, content: string, parse: Parser, fields: seq<(string, Json)>)
    requires s.history != []
    requires FencedCandidate(content, true).None? && BraceCandidate(content).Some?
    requires parse(BraceCandidate(content).value) == Some(JObj(fields))
    ensures GenerateFeedback(s, true, Replied(Some(content)), parse) ==
      FeedbackResult(Lookup(fields, "metrics").GetOr(DefaultFeedbackMetrics()),
                     Lookup(fields, "feedback").GetOr(JStr(ThanksFeedback)))
  {
  }

  /** A reply with neither a tagged fence nor a brace span becomes the feedback
      text itself, with the default metrics. */
  lemma PlainReplyIsFeedback(s: AgentState, content: string, parse: Parser)
    requires s.history != []
    requires FencedCandidate(content, true).None? && BraceCandidate(content).None?
    ensures GenerateFeedback(s, true, Replied(Some(content)), parse) ==
      FeedbackResult(DefaultFeedbackMetrics(), JStr(content))
  {
  }

  /** A brace span that does not parse gives the long fallback text. */
  lemma UnparsableBraceGivesLongText(s: AgentState, content: string, parse: Parser)
    requires s.history != []
    requires FencedCandidate(content, true).None? && BraceCandidate(content).Some?
    requires parse(BraceCandidate(content).value).None?
    ensures GenerateFeedback(s, true, Replied(Some(content)), parse) ==
      FeedbackResult(DefaultFeedbackMetrics(), JStr(LongFallbackFeedback))
  {
  }
}
