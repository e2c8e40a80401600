/** The interview session of `backend/app/main.py`: the configuration read from
    the first client message, `InterviewSession`, and the turn loop of
    `interview_agent` with the messages it sends.

    Each loop iteration is described by a `TurnOutcome`: how far the turn got
    before a collaborator raised (question retrieval, speech synthesis,
    transcription), or the question, its audio and the client's audio receipts
    when it got through. End-of-speech detection runs on those receipts with the
    detector of `Vad`; the transcriber is a parameter. A finite sequence of
    outcomes drives the loop; running out of them is a modelling artifact
    (`OutOfOutcomes`), not a behaviour of the program. */
module Session {
  import opened Wrappers
  import opened Json
  import opened Vad
  import opened Evaluation

  const DefaultVisaType: string := "tourist"
  const DefaultVoice: string := "VoiceA"
  const DefaultQuestionCount: int := 5

  const TurnErrorPrefix: string := "Error processing question: "
  const ConfigErrorPrefix: string := "Invalid JSON format: "
  const GenericError: string := "An error occurred during the interview."

  datatype Config = Config(visaType: string, voice: string, questionCount: int)

  /** A string field of the configuration object, `default` when absent; `None`
      when present with another JSON type. */
  function StringField(fields: seq<(string, Json)>, key: string, default: string): (r: Option<string>)
    ensures Lookup(fields, key).None? ==> r == Some(default)
    ensures Lookup(fields, key).Some? ==> (r.Some? <==> Lookup(fields, key).value.JStr?)
    ensures r.Some? && Lookup(fields, key).Some? ==> Lookup(fields, key).value == JStr(r.value)
  {
    match Lookup(fields, key)
    case None => Some(default)
    case Some(JStr(s)) => Some(s)
    case Some(_) => None
  }

  /** The question count, 5 when absent; `None` unless it is a whole number. */
  function CountField(fields: seq<(string, Json)>): (r: Option<int>)
    ensures Lookup(fields, "questionCount").None? ==> r == Some(DefaultQuestionCount)
    ensures r.Some? && Lookup(fields, "questionCount").Some? ==>
      Lookup(fields, "questionCount").value == JNum(r.value as real)
    ensures forall n: int :: Lookup(fields, "questionCount") == Some(JNum(n as real)) ==> r == Some(n)
  {
    match Lookup(fields, "questionCount")
    case None => Some(DefaultQuestionCount)
    case Some(JNum(n)) => if n == n.Floor as real then Some(n.Floor) else None
    case Some(_) => None
  }

  /** `config.get("visaType", "tourist")`, `config.get("voice", "VoiceA")`,
      `config.get("questionCount", 5)`. */
  function ReadConfig(fields: seq<(string, Json)>): (r: Option<Config>)
    ensures r.Some? && Lookup(fields, "visaType").None? ==> r.value.visaType == DefaultVisaType
    ensures r.Some? && Lookup(fields, "voice").None? ==> r.value.voice == DefaultVoice
    ensures r.Some? && Lookup(fields, "questionCount").None? ==> r.value.questionCount == DefaultQuestionCount
    ensures r.Some? && Lookup(fields, "visaType").Some? ==> Lookup(fields, "visaType").value == JStr(r.value.visaType)
    ensures r.Some? && Lookup(fields, "voice").Some? ==> Lookup(fields, "voice").value == JStr(r.value.voice)
    ensures r.Some? ==> CountField(fields) == Some(r.value.questionCount)
    ensures r.Some? <==>
      && (Lookup(fields, "visaType").None? || Lookup(fields, "visaType").value.JStr?)
      && (Lookup(fields, "voice").None? || Lookup(fields, "voice").value.JStr?)
      && CountField(fields).Some?
  {
    var v := StringField(fields, "visaType", DefaultVisaType);
    var voice := StringField(fields, "voice", DefaultVoice);
    var n := CountField(fields);
    if v.Some? && voice.Some? && n.Some? then Some(Config(v.value, voice.value, n.value)) else None
  }

  /** An empty configuration object selects every default. */
  lemma EmptyConfigDefaults()
    ensures ReadConfig([]) == Some(Config("tourist", "VoiceA", 5))
  {
  }

  /** The configuration object a client sends for `cfg` reads back as `cfg`. */
  lemma ConfigRoundTrip(cfg: Config)
    ensures ReadConfig([("visaType", JStr(cfg.visaType)), ("voice", JStr(cfg.voice)),
                        ("questionCount", JNum(cfg.questionCount as real))]) == Some(cfg)
  {
    var fields := [("visaType", JStr(cfg.visaType)), ("voice", JStr(cfg.voice)),
                   ("questionCount", JNum(cfg.questionCount as real))];
    assert Lookup(fields, "questionCount") == Some(JNum(cfg.questionCount as real));
    assert fields[..2][..1] == [fields[0]];
    assert Lookup(fields, "voice") == Some(JStr(cfg.voice));
    assert Lookup(fields, "visaType") == Some(JStr(cfg.visaType));
  }

  // ------------------------------------------------------------ session state

  datatype SessionState = SessionState(
    visaType: string,
    voice: string,
    remaining: int,
    log: seq<LogEntry>,
    current: Option<string>)

  /** `InterviewSession(visa_type, voice, question_count)`. */
  function NewSession(cfg: Config): (s: SessionState)
    ensures s.remaining == cfg.questionCount && s.log == [] && s.current == None
    ensures s.visaType == cfg.visaType && s.voice == cfg.voice
  {
    SessionState(cfg.visaType, cfg.voice, cfg.questionCount, [], None)
  }

  /** The messages the server sends over the socket. */
  datatype Outbound =
    | QuestionText(question: string)              // {"question": ...}
    | AudioBytes(audio: seq<Byte>)                // send_bytes
    | StartRecord                                 // {"cmd": "start_record"}
    | Ack(answerText: string)                     // {"cmd": "ack", "answerText": ...}
    | ErrorNotice(message: string)                // {"cmd": "error", "message": ...}
    | Complete(metrics: Scores, feedback: Json)   // {"cmd": "complete", ...}

  /** What happened in one loop iteration, as far as the collaborators decide it. */
  datatype TurnOutcome =
    | RetrievalFailed(reason: string)
    | SynthesisFailed(question: string, reason: string)
    | Recorded(question: string, audio: seq<Byte>, receipts: seq<Receipt>, timestamp: int)
    | Disconnected

  /** What the transcriber made of the joined audio: a text, or it raised. */
  datatype Transcription = Transcribed(text: string) | TranscribeFailed(reason: string)

  /** The collaborators the loop consults inside a turn. */
  datatype Listener = Listener(classify: Classifier, transcribe: seq<Byte> -> Transcription)

  /** `b''.join(chunks)`. */
  function Flatten(chunks: seq<Chunk>): (r: seq<Byte>)
    ensures |chunks| > 0 ==> r == Flatten(chunks[..|chunks| - 1]) + chunks[|chunks| - 1]
  {
    if |chunks| == 0 then [] else Flatten(chunks[..|chunks| - 1]) + chunks[|chunks| - 1]
  }

  datatype StepResult = StepResult(state: SessionState, sent: seq<Outbound>)

  /** One iteration of the `while` body of `interview_agent` for an outcome other
      than a dropped connection. */
  function Step(s: SessionState, o: TurnOutcome, env: Listener): (r: StepResult)
    requires !o.Disconnected?
    ensures r.state.visaType == s.visaType && r.state.voice == s.voice
    ensures r.state.log == s.log || (|r.state.log| == |s.log| + 1 && r.state.log[..|s.log|] == s.log)
    ensures |r.state.log| + r.state.remaining == |s.log| + s.remaining
    ensures r.state.log != s.log <==> r.state.remaining == s.remaining - 1
    ensures |r.sent| > 0 && (o.Recorded? ==> |r.sent| >= 3 && r.sent[..3] == [QuestionText(o.question), AudioBytes(o.audio), StartRecord])
    ensures o.RetrievalFailed? ==> r.state == s && r.sent == [ErrorNotice(TurnErrorPrefix + o.reason)]
    ensures o.SynthesisFailed? ==> r.sent == [QuestionText(o.question), ErrorNotice(TurnErrorPrefix + o.reason)]
    ensures o.Recorded? && DetectEndOfSpeech(env.classify, o.receipts).chunks != []
              && env.transcribe(Flatten(DetectEndOfSpeech(env.classify, o.receipts).chunks)).TranscribeFailed? ==>
      r.sent == [QuestionText(o.question), AudioBytes(o.audio), StartRecord,
                 ErrorNotice(TurnErrorPrefix + env.transcribe(Flatten(DetectEndOfSpeech(env.classify, o.receipts).chunks)).reason)]
  {
    match o
    case RetrievalFailed(reason) =>
      StepResult(s, [ErrorNotice(TurnErrorPrefix + reason)])
    case SynthesisFailed(q, reason) =>
      StepResult(s.(current := Some(q)), [QuestionText(q), ErrorNotice(TurnErrorPrefix + reason)])
    case Recorded(q, audio, receipts, ts) =>
      var opening := [QuestionText(q), AudioBytes(audio), StartRecord];
      var s1 := s.(current := Some(q));
      var chunks := DetectEndOfSpeech(env.classify, receipts).chunks;
      if chunks == [] then StepResult(s1, opening)
      else match env.transcribe(Flatten(chunks))
        case TranscribeFailed(reason) => StepResult(s1, opening + [ErrorNotice(TurnErrorPrefix + reason)])
        case Transcribed(answer) =>
          StepResult(s1.(log := s.log + [LogEntry(q, answer, ts)], remaining := s.remaining - 1),
                     opening + [Ack(answer)])
  }

  /** A turn in which detection yields nothing sends the question, its audio and
      `start_record`, and changes neither the log nor the count. */
  lemma NoAudioRetriesSlot(s: SessionState, o: TurnOutcome, env: Listener)
    requires o.Recorded? && DetectEndOfSpeech(env.classify, o.receipts).chunks == []
    ensures var r := Step(s, o, env);
      r.state.log == s.log && r.state.remaining == s.remaining
      && r.sent == [QuestionText(o.question), AudioBytes(o.audio), StartRecord]
  {
  }

  /** A transcribed turn appends exactly `(question, answer, ts)` and decrements
      the count by one; its messages are question, audio, `start_record`, `ack`.
      Detection yields something exactly when the first receipt is a non-empty
      chunk, which is how the turn is picked out here. */
  lemma AnsweredTurn(s: SessionState, o: TurnOutcome, env: Listener, answer: string)
    requires o.Recorded? && |o.receipts| > 0 && o.receipts[0].Received? && |o.receipts[0].data| > 0
    requires env.transcribe(Flatten(DetectEndOfSpeech(env.classify, o.receipts).chunks)) == Transcribed(answer)
    ensures var r := Step(s, o, env);
      r.state.log == s.log + [LogEntry(o.question, answer, o.timestamp)]
      && r.state.remaining == s.remaining - 1
      && r.sent == [QuestionText(o.question), AudioBytes(o.audio), StartRecord, Ack(answer)]
  {
  }

  /** A failing turn ends with exactly one error message, is the only error it
      sends, and leaves the log and count as they were. The error carries the
      collaborator's message after `Error processing question: `; a failed
      retrieval sends nothing before it, a failed synthesis only the question
      text, and a failed transcription the question, its audio and
      `start_record`. */
  lemma FailedTurnSendsOneError(s: SessionState, o: TurnOutcome, env: Listener)
    requires !o.Disconnected?
    requires o.RetrievalFailed? || o.SynthesisFailed?
      || (o.Recorded? && DetectEndOfSpeech(env.classify, o.receipts).chunks != []
          && env.transcribe(Flatten(DetectEndOfSpeech(env.classify, o.receipts).chunks)).TranscribeFailed?)
    ensures var r := Step(s, o, env);
      r.state.log == s.log && r.state.remaining == s.remaining
      && r.sent[|r.sent| - 1].ErrorNotice?
      && (forall k :: 0 <= k < |r.sent| - 1 ==> !r.sent[k].ErrorNotice?)
      && r.sent[|r.sent| - 1] == ErrorNotice(TurnErrorPrefix + FailureReason(o, env))
      && (o.RetrievalFailed? ==> |r.sent| == 1)
      && (o.SynthesisFailed? ==> r.sent[..|r.sent| - 1] == [QuestionText(o.question)])
      && (o.Recorded? ==> r.sent[..|r.sent| - 1] == [QuestionText(o.question), AudioBytes(o.audio), StartRecord])
  {
  }

  /** The message of the collaborator that raised in a failing turn. */
  function FailureReason(o: TurnOutcome, env: Listener): string {
    match o
    case RetrievalFailed(reason) => reason
    case SynthesisFailed(_, reason) => reason
    case Recorded(_, _, receipts, _) =>
      (match env.transcribe(Flatten(DetectEndOfSpeech(env.classify, receipts).chunks))
       case TranscribeFailed(reason) => reason
       case Transcribed(_) => "")
    case Disconnected => ""
  }

  // ------------------------------------------------------------ the loop

  /** Why the loop stopped: the count reached zero, the connection dropped, or the
      model ran out of outcomes. */
  datatype LoopEnd = Finished | Dropped | OutOfOutcomes

  datatype Run = Run(state: SessionState, trace: seq<Outbound>, end: LoopEnd)

  /** `while session.remaining_questions > 0: ...`, one outcome per iteration. */
  function RunLoop(s: SessionState, outcomes: seq<TurnOutcome>, env: Listener): (r: Run)
    ensures |r.state.log| + r.state.remaining == |s.log| + s.remaining
    ensures |s.log| <= |r.state.log| && r.state.log[..|s.log|] == s.log
    ensures r.end.Finished? <==> r.state.remaining <= 0
    ensures s.remaining >= 0 ==> r.state.remaining >= 0
    ensures s.remaining <= 0 ==> r == Run(s, [], Finished)
    decreases |outcomes|
  {
    if s.remaining <= 0 then Run(s, [], Finished)
    else if |outcomes| == 0 then Run(s, [], OutOfOutcomes)
    else if outcomes[0].Disconnected? then Run(s, [], Dropped)
    else
      var st := Step(s, outcomes[0], env);
      var rest := RunLoop(st.state, outcomes[1..], env);
      Run(rest.state, st.sent + rest.trace, rest.end)
  }

  /** The answers acknowledged in a trace, in order. */
  function AckedAnswers(trace: seq<Outbound>): seq<string> {
    if |trace| == 0 then []
    else AckedAnswers(trace[..|trace| - 1]) + (if trace[|trace| - 1].Ack? then [trace[|trace| - 1].answerText] else [])
  }

  function Answers(log: seq<LogEntry>): (r: seq<string>)
    ensures |r| == |log|
    ensures forall k :: 0 <= k < |log| ==> r[k] == log[k].answer
  {
    seq(|log|, k requires 0 <= k < |log| => log[k].answer)
  }

  lemma {:induction false} AckedAnswersAppend(a: seq<Outbound>, b: seq<Outbound>)
    ensures AckedAnswers(a + b) == AckedAnswers(a) + AckedAnswers(b)
    decreases |b|
  {
    if |b| == 0 {
      assert a + b == a;
    } else {
      assert (a + b)[..|a + b| - 1] == a + b[..|b| - 1];
      AckedAnswersAppend(a, b[..|b| - 1]);
    }
  }

  lemma {:induction false} NoAcks(t: seq<Outbound>)
    requires forall k :: 0 <= k < |t| ==> !t[k].Ack?
    ensures AckedAnswers(t) == []
    decreases |t|
  {
    if |t| > 0 {
      NoAcks(t[..|t| - 1]);
    }
  }

  /** One turn acknowledges exactly the answer it logs, if any. */
  lemma StepAcks(s: SessionState, o: TurnOutcome, env: Listener)
    requires !o.Disconnected?
    ensures var st := Step(s, o, env);
      AckedAnswers(st.sent) == Answers(st.state.log[|s.log|..])
  {
    var st := Step(s, o, env);
    if st.state.log == s.log {
      assert st.state.log[|s.log|..] == [];
      NoAcks(st.sent);
    } else {
      var opening := [QuestionText(o.question), AudioBytes(o.audio), StartRecord];
      var chunks := DetectEndOfSpeech(env.classify, o.receipts).chunks;
      var answer := env.transcribe(Flatten(chunks)).text;
      assert st.sent == opening + [Ack(answer)];
      assert st.state.log[|s.log|..] == [LogEntry(o.question, answer, o.timestamp)];
      NoAcks(opening);
      AckedAnswersAppend(opening, [Ack(answer)]);
      assert AckedAnswers([Ack(answer)]) == [answer] by {
        assert [Ack(answer)][..0] == [];
      }
    }
  }

  lemma AnswersAppend(a: seq<LogEntry>, b: seq<LogEntry>)
    ensures Answers(a + b) == Answers(a) + Answers(b)
  {
  }

  /** Each logged answer was acknowledged to the client, in order, and nothing
      else was: the `ack` messages of the trace carry exactly the new log answers. */
  lemma {:induction false} AcksMatchLog(s: SessionState, outcomes: seq<TurnOutcome>, env: Listener)
    ensures var r := RunLoop(s, outcomes, env);
      AckedAnswers(r.trace) == Answers(r.state.log[|s.log|..])
    decreases |outcomes|
  {
    var r := RunLoop(s, outcomes, env);
    if s.remaining <= 0 || |outcomes| == 0 || outcomes[0].Disconnected? {
      assert r.state.log[|s.log|..] == [];
    } else {
      var st := Step(s, outcomes[0], env);
      var rest := RunLoop(st.state, outcomes[1..], env);
      assert r == Run(rest.state, st.sent + rest.trace, rest.end);
      AcksMatchLog(st.state, outcomes[1..], env);
      AckedAnswersAppend(st.sent, rest.trace);
      StepAcks(s, outcomes[0], env);
      var a := st.state.log[|s.log|..];
      var b := rest.state.log[|st.state.log|..];
      LogSuffixSplit(s.log, st.state.log, rest.state.log);
      AnswersAppend(a, b);
    }
  }

  /** Splitting the growth of a log at an intermediate log. */
  lemma LogSuffixSplit(x: seq<LogEntry>, y: seq<LogEntry>, z: seq<LogEntry>)
    requires |x| <= |y| && y[..|x|] == x
    requires |y| <= |z| && z[..|y|] == y
    ensures z[|x|..] == y[|x|..] + z[|y|..]
  {
  }

  // ------------------------------------------------------------ the connection

  /** What the client sent first and how the server reads it. */
  datatype Connection = Connection(
    initText: string,     // the first text frame
    parse: Parser,        // json.loads
    decodeError: string)  // str(e) of the decode error, when it raises

  datatype Interview = Interview(config: Option<Config>, run: Option<Run>, sent: seq<Outbound>)

  /** `interview_agent`: read the configuration, run the loop, and send the
      evaluation when the loop finished. */
  function RunInterview(conn: Connection, outcomes: seq<TurnOutcome>, env: Listener, scorer: Scorer): (r: Interview)
    ensures conn.parse(conn.initText).None? ==> r.sent == [ErrorNotice(ConfigErrorPrefix + conn.decodeError)]
    ensures r.config.None? ==> |r.sent| == 1 && r.sent[0].ErrorNotice? && r.run.None?
    ensures r.run.Some? ==>
      && r.config.Some?
      && |r.run.value.state.log| + r.run.value.state.remaining == r.config.value.questionCount
    ensures r.run.Some? && r.run.value.end.Finished? ==>
      r.sent == r.run.value.trace + [Complete(EvaluateSession(r.run.value.state.log, scorer).metrics,
                                              EvaluateSession(r.run.value.state.log, scorer).feedback)]
    ensures r.run.Some? && !r.run.value.end.Finished? ==> r.sent == r.run.value.trace
    ensures r.run.Some? <==>
      && conn.parse(conn.initText).Some?
      && conn.parse(conn.initText).value.JObj?
      && ReadConfig(conn.parse(conn.initText).value.fields).Some?
    ensures r.run.Some? ==>
      && r.config == ReadConfig(conn.parse(conn.initText).value.fields)
      && r.run.value == RunLoop(NewSession(r.config.value), outcomes, env)
    ensures conn.parse(conn.initText).Some? && r.config.None? ==> r.sent == [ErrorNotice(GenericError)]
  {
    match conn.parse(conn.initText)
    case None => Interview(None, None, [ErrorNotice(ConfigErrorPrefix + conn.decodeError)])
    case Some(JObj(fields)) =>
      (match ReadConfig(fields)
       case None => Interview(None, None, [ErrorNotice(GenericError)])
       case Some(cfg) =>
         var run := RunLoop(NewSession(cfg), outcomes, env);
         if run.end.Finished? then
           var ev := EvaluateSession(run.state.log, scorer);
           Interview(Some(cfg), Some(run), run.trace + [Complete(ev.metrics, ev.feedback)])
         else Interview(Some(cfg), Some(run), run.trace))
    case Some(_) => Interview(None, None, [ErrorNotice(GenericError)])
  }

  /** With a non-negative question count, a finished loop has logged exactly that
      many answers and the last message is the evaluation of that log; a negative
      count runs no turn and evaluates the empty log. */
  lemma FinishedSessionIsComplete(conn: Connection, outcomes: seq<TurnOutcome>, env: Listener, scorer: Scorer)
    requires RunInterview(conn, outcomes, env, scorer).run.Some?
    requires RunInterview(conn, outcomes, env, scorer).run.value.end.Finished?
    ensures var r := RunInterview(conn, outcomes, env, scorer);
      var n := r.config.value.questionCount;
      var log := r.run.value.state.log;
      && (n >= 0 ==> |log| == n)
      && (n < 0 ==> log == [] && r.sent == [Complete(EmptyLogScores, JStr(EmptyLogFeedback))])
      && r.sent[|r.sent| - 1] == Complete(EvaluateSession(log, scorer).metrics, EvaluateSession(log, scorer).feedback)
  {
  }
}
