/** Session scoring of `backend/app/evaluation.py`: `evaluate_session` and
    `generate_feedback_from_metrics`.

    The HTTP call to the scoring service is a parameter (`Scorer.call`) that
    receives the formatted transcript and answers with a status and a reply
    text, or raises. JSON decoding and Python's `float(str)` are parameters too.
    Scores are `real`: floating-point rounding is not modelled. */
module Evaluation {
  import opened Wrappers
  import opened Strings
  import opened Json

  /** One `(question, answer, timestamp)` entry of the session log. */
  datatype LogEntry = LogEntry(question: string, answer: string, timestamp: int)

  /** The four session metrics: `fluency`, `confidence`, `contentAccuracy`, `responseTime`. */
  datatype Scores = Scores(fluency: real, confidence: real, contentAccuracy: real, responseTime: real)

  /** What `evaluate_session` returns: metrics and feedback. Parsed feedback is
      whatever JSON value the reply held under `feedback`. */
  datatype SessionEvaluation = SessionEvaluation(metrics: Scores, feedback: Json)

  const EmptyLogScores: Scores := Scores(5.0, 5.0, 5.0, 5.0)
  const EmptyLogFeedback: string := "No interview data available for evaluation."
  /** The metrics used whenever scoring fails or is unavailable. */
  const DefaultScores: Scores := Scores(7.0, 6.5, 7.5, 8.0)
  /** The value of a metric the parsed reply leaves out. */
  const MissingScore: real := 7.0

  const ExcellentFeedback: string :=
    "Excellent interview performance! You communicated clearly and confidently. "
    + "Your answers were relevant and well-structured. You're well-prepared for your visa interview."
  const GoodFeedback: string :=
    "Good interview performance. You answered most questions adequately, but there's room for improvement. "
    + "Try to be more specific in your answers and work on expressing yourself more confidently."
  const WeakFeedback: string :=
    "Your interview needs improvement. Focus on providing more relevant answers and practice speaking more fluently. "
    + "Make sure to listen carefully to questions and take your time to formulate complete responses."

  // ------------------------------------------------------------ banding

  function Mean(s: Scores): real {
    (s.fluency + s.confidence + s.contentAccuracy + s.responseTime) / 4.0
  }

  /** `generate_feedback_from_metrics`: the text of the band the mean score falls in. */
  function FeedbackFromMetrics(s: Scores): (r: string)
    ensures r == ExcellentFeedback <==> Mean(s) >= 8.0
    ensures r == GoodFeedback <==> 6.0 <= Mean(s) < 8.0
    ensures r == WeakFeedback <==> Mean(s) < 6.0
  {
    if Mean(s) >= 8.0 then ExcellentFeedback
    else if Mean(s) >= 6.0 then GoodFeedback
    else WeakFeedback
  }

  /** Bands ordered from weakest to best. */
  function BandRank(text: string): nat {
    if text == ExcellentFeedback then 2 else if text == GoodFeedback then 1 else 0
  }

  predicate ScoresAtMost(a: Scores, b: Scores) {
    a.fluency <= b.fluency && a.confidence <= b.confidence
    && a.contentAccuracy <= b.contentAccuracy && a.responseTime <= b.responseTime
  }

  /** Raising every score never lowers the feedback band. */
  lemma BandMonotone(a: Scores, b: Scores)
    requires ScoresAtMost(a, b)
    ensures BandRank(FeedbackFromMetrics(a)) <= BandRank(FeedbackFromMetrics(b))
  {
    assert Mean(a) <= Mean(b);
  }

  /** The default metrics average 7.25, so their feedback is always the "Good" text. */
  lemma DefaultsAreGood()
    ensures Mean(DefaultScores) == 7.25
    ensures FeedbackFromMetrics(DefaultScores) == GoodFeedback
  {
  }

  // ------------------------------------------------------------ transcript

  /** `f"Q{i+1}: {question}\nA{i+1}: {answer}\n"` for the entry at index `i`. */
  function Block(i: nat, e: LogEntry): string {
    "Q" + NatToString(i + 1) + ": " + e.question + "\nA" + NatToString(i + 1) + ": " + e.answer + "\n"
  }

  function Blocks(log: seq<LogEntry>): (bs: seq<string>)
    ensures |bs| == |log|
    ensures forall i :: 0 <= i < |log| ==> bs[i] == Block(i, log[i])
  {
    seq(|log|, i requires 0 <= i < |log| => Block(i, log[i]))
  }

  /** The transcript sent for scoring: the blocks joined by `\n`. */
  function Transcript(log: seq<LogEntry>): (r: string)
    ensures log == [] ==> r == ""
    ensures |log| == 1 ==> r == Block(0, log[0])
  {
    Join("\n", Blocks(log))
  }

  /** Appending an entry appends one block, numbered after the ones before it. */
  lemma TranscriptSnoc(log: seq<LogEntry>, e: LogEntry)
    ensures Transcript(log + [e]) ==
      if log == [] then Block(0, e) else Transcript(log) + "\n" + Block(|log|, e)
  {
    assert Blocks(log + [e])[..|log|] == Blocks(log);
  }

  /** The transcript starts with the first block and is numbered from 1. */
  lemma TranscriptStartsWithFirstBlock(log: seq<LogEntry>)
    requires |log| > 0
    ensures |Block(0, log[0])| <= |Transcript(log)|
    ensures Transcript(log)[..|Block(0, log[0])|] == Block(0, log[0])
    ensures Block(0, log[0])[..3] == "Q1:"
  {
    assert NatToString(1) == "1";
    JoinStartsWithFirst("\n", Blocks(log));
  }

  // ------------------------------------------------------------ scoring

  /** The scoring service's answer: it raised, or it returned a status and a body
      whose `choices[0].message.content` is present (`Some`) or missing (`None`). */
  datatype ApiReply = Raised | Response(status: int, content: Option<string>)

  /** The collaborators of `evaluate_session`. */
  datatype Scorer = Scorer(
    hasKey: bool,                        // MISTRAL_API_KEY is set
    call: string -> ApiReply,            // the request, given the transcript
    parse: Parser,                       // json.loads
    parseReal: string -> Option<real>)   // float(str)

  /** `float(evaluation.get(key, 7.0))`; `None` when the conversion raises. */
  function ReadScore(fields: seq<(string, Json)>, key: string, parseReal: string -> Option<real>): (r: Option<real>)
    ensures Lookup(fields, key).None? ==> r == Some(MissingScore)
    ensures Lookup(fields, key).Some? && Lookup(fields, key).value.JNum? ==> r == Some(Lookup(fields, key).value.n)
  {
    match Lookup(fields, key)
    case None => Some(MissingScore)
    case Some(v) => ToReal(v, parseReal)
  }

  /** The metrics read from a parsed evaluation, keys `fluency`, `confidence`,
      `content_accuracy`, `response_time`; `None` when the value is not an object
      (`.get` raises) or a present value does not convert. */
  function ParsedScores(evaluation: Json, parseReal: string -> Option<real>): (r: Option<Scores>)
    ensures r.Some? ==> evaluation.JObj?
    ensures r.Some? ==>
      && ReadScore(evaluation.fields, "fluency", parseReal) == Some(r.value.fluency)
      && ReadScore(evaluation.fields, "confidence", parseReal) == Some(r.value.confidence)
      && ReadScore(evaluation.fields, "content_accuracy", parseReal) == Some(r.value.contentAccuracy)
      && ReadScore(evaluation.fields, "response_time", parseReal) == Some(r.value.responseTime)
    ensures (&& evaluation.JObj?
             && ReadScore(evaluation.fields, "fluency", parseReal).Some?
             && ReadScore(evaluation.fields, "confidence", parseReal).Some?
             && ReadScore(evaluation.fields, "content_accuracy", parseReal).Some?
             && ReadScore(evaluation.fields, "response_time", parseReal).Some?) ==> r.Some?
  {
    match evaluation
    case JObj(fields) =>
      var f := ReadScore(fields, "fluency", parseReal);
      var c := ReadScore(fields, "confidence", parseReal);
      var ca := ReadScore(fields, "content_accuracy", parseReal);
      var rt := ReadScore(fields, "response_time", parseReal);
      if f.Some? && c.Some? && ca.Some? && rt.Some? then Some(Scores(f.value, c.value, ca.value, rt.value))
      else None
    case _ => None
  }

  /** The result of every failure path: default metrics, feedback from them. */
  function DefaultEvaluation(): (r: SessionEvaluation)
    ensures r.metrics == DefaultScores && r.feedback == JStr(GoodFeedback)
  {
    SessionEvaluation(DefaultScores, JStr(FeedbackFromMetrics(DefaultScores)))
  }

  /** The parsed evaluation the reply yields, if the call succeeded with status 200
      and its content decodes. */
  function ParsedReply(log: seq<LogEntry>, scorer: Scorer): (r: Option<Json>)
    ensures var reply := scorer.call(Transcript(log));
      reply.Response? && reply.status == 200 && reply.content.Some? ==> r == scorer.parse(reply.content.value)
    ensures var reply := scorer.call(Transcript(log));
      reply.Raised? || reply.status != 200 || reply.content.None? ==> r.None?
  {
    match scorer.call(Transcript(log))
    case Raised => None
    case Response(status, content) =>
      if status != 200 || content.None? then None else scorer.parse(content.value)
  }

  /** `evaluate_session`. */
  function EvaluateSession(log: seq<LogEntry>, scorer: Scorer): (r: SessionEvaluation)
    ensures log == [] ==> r == SessionEvaluation(EmptyLogScores, JStr(EmptyLogFeedback))
    ensures log != [] && !scorer.hasKey ==> r == DefaultEvaluation()
    ensures log != [] ==> r.metrics == DefaultScores || ParsedReply(log, scorer).Some?
    ensures log != [] && scorer.hasKey && ParsedReply(log, scorer).Some?
              && ParsedScores(ParsedReply(log, scorer).value, scorer.parseReal).Some? ==>
      Some(r.metrics) == ParsedScores(ParsedReply(log, scorer).value, scorer.parseReal)
    ensures log != [] && scorer.hasKey
              && (ParsedReply(log, scorer).None? || ParsedScores(ParsedReply(log, scorer).value, scorer.parseReal).None?) ==>
      r == DefaultEvaluation()
  {
    if log == [] then SessionEvaluation(EmptyLogScores, JStr(EmptyLogFeedback))
    else if !scorer.hasKey then DefaultEvaluation()
    else match ParsedReply(log, scorer)
      case None => DefaultEvaluation()
      case Some(evaluation) =>
        match ParsedScores(evaluation, scorer.parseReal)
        case None => DefaultEvaluation()
        case Some(metrics) =>
          var feedback := Lookup(evaluation.fields, "feedback").GetOr(JStr(FeedbackFromMetrics(metrics)));
          SessionEvaluation(metrics, feedback)
  }

  /** Every failure path ends at the defaults: the call raised, a non-200 status,
      a missing content, undecodable JSON, a non-object, or a value `float` rejects. */
  lemma FailuresGiveDefaults(log: seq<LogEntry>, scorer: Scorer)
    requires log != [] && scorer.hasKey
    requires ParsedReply(log, scorer).None? || ParsedScores(ParsedReply(log, scorer).value, scorer.parseReal).None?
    ensures EvaluateSession(log, scorer) == DefaultEvaluation()
  {
  }

  /** A parsed evaluation maps `fluency`, `confidence`, `content_accuracy` and
      `response_time` onto the four metrics, a present number read as it stands
      and each missing key reading 7.0, and the
      feedback is the parsed `feedback` value if present, else generated from the
      parsed metrics. */
  lemma ParsedEvaluationMapping(log: seq<LogEntry>, scorer: Scorer, fields: seq<(string, Json)>)
    requires log != [] && scorer.hasKey
    requires ParsedReply(log, scorer) == Some(JObj(fields))
    requires ParsedScores(JObj(fields), scorer.parseReal).Some?
    ensures var r := EvaluateSession(log, scorer);
      && Some(r.metrics) == ParsedScores(JObj(fields), scorer.parseReal)
      && (Lookup(fields, "fluency").Some? && Lookup(fields, "fluency").value.JNum? ==>
            r.metrics.fluency == Lookup(fields, "fluency").value.n)
      && (Lookup(fields, "confidence").Some? && Lookup(fields, "confidence").value.JNum? ==>
            r.metrics.confidence == Lookup(fields, "confidence").value.n)
      && (Lookup(fields, "content_accuracy").Some? && Lookup(fields, "content_accuracy").value.JNum? ==>
            r.metrics.contentAccuracy == Lookup(fields, "content_accuracy").value.n)
      && (Lookup(fields, "response_time").Some? && Lookup(fields, "response_time").value.JNum? ==>
            r.metrics.responseTime == Lookup(fields, "response_time").value.n)
      && (Lookup(fields, "fluency").None? ==> r.metrics.fluency == MissingScore)
      && (Lookup(fields, "confidence").None? ==> r.metrics.confidence == MissingScore)
      && (Lookup(fields, "content_accuracy").None? ==> r.metrics.contentAccuracy == MissingScore)
      && (Lookup(fields, "response_time").None? ==> r.metrics.responseTime == MissingScore)
      && (Lookup(fields, "contentAccuracy").Some? && Lookup(fields, "content_accuracy").None? ==>
            r.metrics.contentAccuracy == MissingScore)
      && (Lookup(fields, "feedback").Some? ==> r.feedback == Lookup(fields, "feedback").value)
      && (Lookup(fields, "feedback").None? ==> r.feedback == JStr(FeedbackFromMetrics(r.metrics)))
  {
    var m := ParsedScores(JObj(fields), scorer.parseReal).value;
    assert EvaluateSession(log, scorer) == SessionEvaluation(m, Lookup(fields, "feedback").GetOr(JStr(FeedbackFromMetrics(m))));
  }
}
