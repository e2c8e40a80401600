# VisaAgent interview engine in Dafny

This project models the deterministic core of the VisaAgent backend, a spoken
visa-interview simulator, and proves properties of it. The backend asks a
question by synthesized speech and records the spoken answer over a websocket.
It decides when the applicant has stopped talking, transcribes and logs the
answer, and after a fixed number of turns scores the session. The core pieces
are these:

- `Vad` (`backend/app/vad.py`): the end-of-speech detector. It runs over a
  finite sequence of websocket receipts. The voice-activity classifier is a
  parameter that returns speech, silence, or an error.
- `Extract` (`backend/app/utils.py`): the question extractor and the JSON
  extractor. Their regular expressions are written out as scans. JSON decoding
  is an abstract `Parser`.
- `Session` (`backend/app/main.py`): the configuration read from the first
  message, `InterviewSession`, and the turn loop of `interview_agent` with the
  messages it sends. Each loop iteration is described by a `TurnOutcome`.
- `Evaluation` (`backend/app/evaluation.py`): `evaluate_session` and
  `generate_feedback_from_metrics`.
- `Rag` (`backend/app/rag.py`): the sample-question fallback of
  `retrieve_question_from_chroma` and the batch `init_chroma_collection` builds.
- `Orchestration` (`backend/app/orchestration.py`): the round budget, and what
  `start_interview`, `process_response` and `complete_interview` read back from
  the group-chat history (message selection and metric scraping).
- `Agent` (`backend/app/agent.py`): the question budget of `next_question`, the
  narrowing of the officer's reply, the history and parse cascade of
  `evaluate_answer`, the fallbacks of `generate_feedback`, and
  `_get_relevant_topics`.
- `Strings`, `Json` and `Wrappers` hold the shared helpers: Python's `strip`,
  `isspace`, `str(n)`, `join` and `re.search`'s leftmost scan; decoded JSON
  values with `dict.get`; `Option`.

Every external collaborator is a parameter of the operation that consults it:
the websocket, the classifier, speech synthesis, transcription, the vector
store, the LLM and HTTP replies, `json.loads`, `float(str)` and
`random.choice`. The environment variables that hold API keys are booleans.
Where an exception changes the control flow, the collaborator's result says
that it raised.

Scraped and parsed scores are taken as they stand; nothing clamps them. The
metrics `agent.py` parses from a reply are returned as parsed, without filling
in missing keys from the defaults.

## Model

| member | source | states |
|---|---|---|
| Vad.DetectFrom | backend/app/vad.py:30-58 | Nothing past the input is consumed and every yielded chunk is a consumed receipt. An empty chunk or a failed receive is consumed but not yielded. The chunk that reaches the threshold is yielded. The counter never exceeds 50, and detection stops on the threshold exactly when the counter is 50. |
| Vad.DetectEndOfSpeech | backend/app/vad.py:15-58 | Starting from a counter of 0, the final counter is the number of silence verdicts since the last speech verdict among the yielded chunks. Detection stops on the threshold exactly when that number is 50. Nothing past the input is consumed. |
| Vad.YieldsReceivedPrefix | backend/app/vad.py:30-38 | The yielded chunks are the first received chunks, in arrival order, and every one of them is non-empty. An empty-chunk stop ends on an empty receipt and a receive-error stop ends on a failed receive. |
| Vad.CounterTracksChunks | backend/app/vad.py:41-58 | The final counter is the loop's counter over the yielded chunks. After every yielded chunk but the last it is below 50, so listening stops at the first chunk that reaches the threshold. |
| Vad.CounterIsTrailingSilence | backend/app/vad.py:41-53 | The counter equals the number of silence verdicts since the last speech verdict. Chunks under 320 bytes and classifier errors give no verdict. |
| Vad.ThresholdStop | backend/app/vad.py:56-58 | A threshold stop means at least 50 chunks were yielded, the last yielded chunk was classified as silence, and the last 50 verdicts were all silence. |
| Vad.StopsAtFirstThreshold | backend/app/vad.py:26-58 | Every proper prefix of the yielded chunks has fewer than 50 trailing silence verdicts. |
| Vad.DetectAppend | backend/app/vad.py:30-58 | Detection that reads all of one input without stopping continues on the next input with the counter it reached. |
| Vad.NothingConsumedAfterStop | backend/app/vad.py:30-58 | Once detection has stopped, receipts appended after the input change nothing. |
| Vad.EmptyChunkEnds | backend/app/vad.py:34-35 | An empty chunk ends detection. Everything before it is yielded as without it, the empty chunk is not yielded, and nothing after it is read. |
| Vad.NoVerdictKeepsCounter | backend/app/vad.py:38-46 | A chunk shorter than 320 bytes, or one the classifier raises on, is yielded and detection goes on with the counter unchanged. |
| Vad.ClassifiedChunkUpdatesCounter | backend/app/vad.py:44-58 | Only the first 320 bytes are classified. Speech resets the counter to 0 and silence adds exactly one. The silence verdict that makes 50 stops detection, and its chunk is the last one yielded. |
| Vad.DetectLoop | backend/app/vad.py:25-65 | The imperative receive loop yields the same chunks and stops for the same reason as the recursive definition. |
| Extract.QuestionSpanFrom | backend/app/utils.py:107 | The search from the start of a `.`-separated piece finds a span exactly when a `?` the regex can end on lies at or after that piece. The span is in the first piece holding such a mark, ends at the last `?` of that piece, and contains no `.`. |
| Extract.QuestionMatch | backend/app/utils.py:107-109 | The stripped group exists exactly when some `?` qualifies. It ends with `?`, contains no `.`, starts with a non-space character and occurs in the input. |
| Extract.ExtractQuestion | backend/app/utils.py:94-111 | Without a qualifying `?`, and in particular without any `?`, the result is `text.strip()`. With one, the result ends with `?` and has no `.`. It always occurs in the input. |
| Extract.QuestionIsFixedPoint | backend/app/utils.py:107-109 | A `.`-free text that starts with a non-space and ends with `?` extracts to itself. |
| Extract.StripKeepsNoMark | backend/app/utils.py:107-111 | Stripping a text without a qualifying `?` cannot create one. |
| Extract.ExtractQuestionIdempotent | backend/app/utils.py:94-111 | Extracting from an extracted question gives it back unchanged. |
| Extract.OpeningAt | backend/app/utils.py:76 | A fence opens with three backquotes, `json` and a newline (tried first) or, for the untagged pattern, three backquotes and a newline. The body starts right after the opening. |
| Extract.CloseFrom | backend/app/utils.py:76 | The lazy body stops at the first newline followed by three backquotes after its start. There is no fence when no closing follows. |
| Extract.FindFenceLeftmost | backend/app/utils.py:76 | The fence search succeeds exactly when a closed fence opens somewhere, and no fence opens before the one it reports. |
| Extract.FenceAt | backend/app/utils.py:76 | A fence body starts right after an opening at the position: the tagged opening when present, otherwise, only for the untagged pattern, the plain one. It ends at the first closing after its start. An opening followed by any closing always gives a body. |
| Extract.OpeningsExclusive | backend/app/utils.py:76 | A plain opening is never a tagged one, so backtracking over `(?:json)?` cannot change where the body starts. |
| Extract.FencedCandidate | backend/app/utils.py:76-79 | There is a fenced body exactly when a closed fence opens somewhere. It is the text of the body of the leftmost such fence, and a substring of the text. |
| Extract.BraceSpan | backend/app/utils.py:84 | The span runs from the first `{` to the last `}`. It exists exactly when some `}` follows some `{`. |
| Extract.BraceCandidate | backend/app/utils.py:84-87 | The brace candidate starts with `{`, ends with `}` and is a substring of the text. |
| Extract.ExtractJson | backend/app/utils.py:62-92 | The extractor never raises. Its result is `{}` or the parse of some substring of the text. |
| Extract.FenceWins | backend/app/utils.py:76-79 | A fenced block that parses is the result, whatever brace span exists. |
| Extract.UnparsableFenceFallsThrough | backend/app/utils.py:76-89 | A fenced block that does not parse falls through to the brace candidate. |
| Extract.NothingParsesGivesEmpty | backend/app/utils.py:76-92 | When neither candidate parses, the result is `{}`. |
| Json.Lookup | backend/app/evaluation.py:99-105 | `.get` finds a value exactly when the key is bound. The value is that of the key's last binding. |
| Json.ToReal | backend/app/evaluation.py:99-102 | `float` keeps a number as it is and raises on null, lists and objects. |
| Strings.Strip | backend/app/utils.py:109-111 | `strip()` gives the slice between whitespace-only margins. The slice starts and ends with non-space characters. |
| Strings.StripIdempotent | backend/app/utils.py:109-111 | Stripping twice is stripping once. |
| Evaluation.FeedbackFromMetrics | backend/app/evaluation.py:121-139 | The excellent text exactly when the mean is at least 8, the good text exactly when it is in [6, 8), and the weak text exactly when it is below 6. |
| Evaluation.BandMonotone | backend/app/evaluation.py:121-139 | Raising every score never lowers the feedback band. |
| Evaluation.DefaultsAreGood | backend/app/evaluation.py:33-50 | The default metrics 7.0/6.5/7.5/8.0 average 7.25, so their feedback is the good text. |
| Evaluation.TranscriptSnoc | backend/app/evaluation.py:41-45 | Appending a log entry appends one `Qn:`/`An:` block, numbered after the earlier ones and separated by a newline. |
| Evaluation.Transcript | backend/app/evaluation.py:41-45 | An empty log gives the empty transcript, and a single entry gives its `Q1:`/`A1:` block alone. |
| Evaluation.TranscriptStartsWithFirstBlock | backend/app/evaluation.py:41-45 | The transcript begins with the first entry's block, numbered `Q1:`. |
| Evaluation.ReadScore | backend/app/evaluation.py:99-102 | A missing key reads 7.0 and a numeric value reads as itself. |
| Evaluation.ParsedReply | backend/app/evaluation.py:54-95 | A reply is decoded exactly when the call answered with status 200 and a present content, and the result is the decoding of that content. A raised call, another status or a missing content gives nothing. |
| Evaluation.ParsedScores | backend/app/evaluation.py:98-103 | Scores exist exactly when the value is an object whose four keys each convert (or are missing), in both directions. `content_accuracy` and `response_time` feed `contentAccuracy` and `responseTime`. |
| Evaluation.DefaultEvaluation | backend/app/evaluation.py:50 | The failure result is the default metrics with the good text. |
| Evaluation.EvaluateSession | backend/app/evaluation.py:13-119 | An empty log gives 5.0 everywhere and the no-data text. Without a key the result is the defaults. With a key, a reply that parses to an object whose four scores convert gives exactly those scores; every other reply gives the defaults. |
| Evaluation.FailuresGiveDefaults | backend/app/evaluation.py:110-119 | These failures each give the defaults: a raised call, a non-200 status, missing content, undecodable JSON, a non-object, or a value `float` rejects. |
| Evaluation.ParsedEvaluationMapping | backend/app/evaluation.py:98-108 | The metrics are the four scores read from the parsed object. A present number under `fluency`, `confidence`, `content_accuracy` or `response_time` becomes `fluency`, `confidence`, `contentAccuracy` or `responseTime` as it stands. Each missing snake_case key reads 7.0, even when the camelCase key is present. The parsed `feedback` is used if present; otherwise the feedback is generated from the parsed metrics. |
| Rag.SampleQuestions | backend/app/rag.py:70 | Only the exact key `student` selects the student list. Every other visa type gets the tourist list of ten. |
| Rag.SampleQuestionMarks | backend/app/rag.py:27-51 | Every tourist sample ends with `?`. The last student sample ends with `.`. |
| Rag.Context | backend/app/rag.py:84-92 | There is context exactly when the query returned a non-empty first document list. |
| Rag.ReplyText | backend/app/rag.py:121-123 | There is a reply text exactly when the status is 200 and the content is present. |
| Rag.RetrieveQuestion | backend/app/rag.py:54-146 | Without the store or the key, the result is the picked sample. Any other result is the stripped completion of a successful query and completion. |
| Rag.RetrievalOutcomes | backend/app/rag.py:54-146 | A failed or empty query, or a failed completion, gives the picked sample for the visa type. A successful completion gives its text stripped. |
| Rag.NoQueryWithoutStore | backend/app/rag.py:68-73 | Without the store or the key the answer does not depend on what the store or the completion service would return. |
| Rag.Labelled | backend/app/rag.py:167-176 | One labelling loop gives ten documents in sample order, each tagged with the visa type and numbered from 0. |
| Rag.InitCollection | backend/app/rag.py:148-176 | There is nothing to add exactly when the store is missing or holds documents. Otherwise the batch is the ten tourist then the ten student samples. |
| Rag.SeedBatchLabels | backend/app/rag.py:162-176 | Positions 0-9 are tourist samples labelled `tourist` with ids `tourist_i`. Positions 10-19 are student samples labelled `student` with ids `student_i`. |
| Rag.SeedIdsDistinct | backend/app/rag.py:166-176 | The twenty ids are pairwise distinct. |
| Session.StringField | backend/app/main.py:81-82 | A missing key gives the default. A present key is accepted exactly when its value is a string, and that string is taken as it is. |
| Session.CountField | backend/app/main.py:83 | A missing count gives 5. Every whole number is accepted as itself, and an accepted count is always the number the client sent. |
| Session.ReadConfig | backend/app/main.py:79-83 | A configuration is accepted exactly when `visaType` and `voice` are missing or strings and the count is accepted. Each missing key takes its default: `tourist`, `VoiceA`, 5. Each present key gives the configured value. |
| Session.ConfigRoundTrip | backend/app/main.py:79-83 | The configuration object sent for any visa type, voice and count reads back as that configuration. |
| Session.EmptyConfigDefaults | backend/app/main.py:81-83 | An empty configuration object gives `tourist`, `VoiceA` and 5 questions. |
| Session.NewSession | backend/app/main.py:64-69 | A new session has the whole question count remaining, an empty log and no current question. |
| Session.Step | backend/app/main.py:92-152 | A turn keeps the visa type and voice, leaves the log alone or appends one entry, and keeps log length plus remaining count constant. It decrements exactly when it logs. A recorded turn first sends the question, its audio and `start_record`. A failed retrieval sends only the error and changes nothing; a failed synthesis sends the question text, then the error; a failed transcription sends question, audio and `start_record`, then the error. Each error is `Error processing question: ` followed by the collaborator's message. |
| Session.NoAudioRetriesSlot | backend/app/main.py:113-121 | A turn with no yielded chunks sends question, audio and `start_record` only, and changes neither the log nor the count. |
| Session.AnsweredTurn | backend/app/main.py:124-140 | A transcribed turn appends exactly `(question, answer, ts)` and decrements the count by one. It sends question, audio, `start_record`, `ack`. |
| Session.FailedTurnSendsOneError | backend/app/main.py:92-152 | A turn that fails sends one error message, as its last message, carrying `Error processing question: ` and the collaborator's message, and leaves the log and count alone. Nothing precedes it after a failed retrieval, only the question text after a failed synthesis, and the question, audio and `start_record` after a failed transcription. |
| Session.RunLoop | backend/app/main.py:91-152 | Log length plus remaining count is invariant and the log only grows. The loop finishes exactly when the count is not positive, and the count never goes below zero from a non-negative start. |
| Session.StepAcks | backend/app/main.py:133-140 | The `ack` messages of a turn carry exactly the answer it logged, if any. |
| Session.AcksMatchLog | backend/app/main.py:91-152 | Over the whole loop, the acknowledged answers are exactly the newly logged answers, in order. |
| Session.RunInterview | backend/app/main.py:72-191 | An undecodable first message sends one `Invalid JSON format` error. A rejected configuration sends one error and runs nothing; a decodable but rejected one sends exactly the generic error text. The loop runs exactly when the first message decodes to an object whose configuration is accepted, and it is the loop of a fresh session for that configuration. A finished loop ends with the `complete` message of the session's evaluation, and a dropped connection sends nothing more. |
| Session.FinishedSessionIsComplete | backend/app/main.py:154-165 | A finished session with a non-negative count has logged exactly that many answers. A negative count evaluates the empty log. |
| Orchestration.NewOrchestrator | backend/app/orchestration.py:99 | The group chat gets two rounds per question plus five. |
| Orchestration.LastMatch | backend/app/orchestration.py:240-243 | The reverse scan finds the latest matching message, and none exactly when no message matches. |
| Orchestration.LatestNonEmpty | backend/app/orchestration.py:176-183 | A content is selected exactly when some message from the name has non-empty content. It is the content of the latest such message, and it is non-empty. |
| Orchestration.SelectLatest | backend/app/orchestration.py:171-183 | The reverse scan with its early `break` ends with the latest non-empty evaluator and questioner contents. Each is empty or missing only when no such message exists. |
| Orchestration.NumberAt | backend/app/orchestration.py:199-203 | A number is read exactly when a digit stands at the position. Its whole part is the full digit run there, and it carries a fraction below one only when a `.` and a digit follow that run. |
| Orchestration.DigitsBelowPow10 | backend/app/orchestration.py:199-203 | `n` digits spell a number below `10^n`, so the digits after the point add less than one. |
| Orchestration.FirstMatchLeftmost | backend/app/orchestration.py:200 | The search finds a match exactly when the pattern matches somewhere, and never matches before the reported position. |
| Orchestration.MatchAt | backend/app/orchestration.py:199-203 | A match at a position needs the key there up to ASCII case, then a `[:\s]` character. The key followed by any non-empty separator run and a digit always matches, with the number read after the whole run. |
| Orchestration.ScrapeSeparatorRoundTrip | backend/app/orchestration.py:199-203 | The key, any non-empty run of `:` and whitespace, then `n`, scrapes back to `n`. |
| Orchestration.Scrape | backend/app/orchestration.py:199-203 | A value is scraped exactly when `key[:\s]+digits` matches somewhere, and it is non-negative. It is the value at the first position where the pattern matches. |
| Orchestration.ScrapeRoundTrip | backend/app/orchestration.py:199-203 | `key: n` scrapes back to `n`. |
| Orchestration.ScrapeDecimalRoundTrip | backend/app/orchestration.py:199-203 | `key: a.ds` scrapes back to `a` plus the fraction `0.ds`. |
| Orchestration.NumberAtDecimal | backend/app/orchestration.py:199-203 | A digit run, a `.` and a digit run to the end of the text read as the whole part plus the fraction. |
| Orchestration.MatchIgnoresKeyCase | backend/app/orchestration.py:199-200 | Keys equal up to ASCII case match at the same positions with the same value. |
| Orchestration.ScrapeIgnoresKeyCase | backend/app/orchestration.py:200 | Keys equal up to ASCII case scrape the same value. |
| Orchestration.ScrapeMetrics | backend/app/orchestration.py:188-205 | The keys keep their order. Each value is the scraped number when the text is non-empty and matches, and the default otherwise. |
| Orchestration.ScoresAreNotClamped | backend/app/orchestration.py:199-203 | `clarity: 42` yields a clarity of 42. |
| Orchestration.StartInterview | backend/app/orchestration.py:120-134 | The greeting is fixed. The first question is the second message's content when it has one, and the default otherwise. |
| Orchestration.NextInterviewQuestion | backend/app/orchestration.py:207-215 | The next question is never empty. Without a questioner message it asks to elaborate. Otherwise it is the question found in that message, which ends with `?`, or the message itself. |
| Orchestration.ProcessResponse | backend/app/orchestration.py:136-216 | Four metrics in source order, and the next question taken from the latest non-empty questioner message. |
| Orchestration.AnswerMetricsFromEvaluation | backend/app/orchestration.py:188-205 | Each per-answer metric is the number scraped from the latest non-empty evaluation, or its default. |
| Orchestration.CompleteInterview | backend/app/orchestration.py:218-268 | Four final metrics in source order. The feedback is the latest feedback message's content when that is non-empty, and the default text otherwise. |
| Orchestration.EmptyLatestFeedbackWins | backend/app/orchestration.py:240-267 | An empty latest feedback message hides an earlier non-empty one: the default text is used. |
| Orchestration.FinalMetricsFromFeedback | backend/app/orchestration.py:245-263 | Without a feedback message the final metrics are 7.5/7.0/7.0/8.0. A key keeps its default when the latest feedback message is empty or does not match the key; otherwise the scraped value replaces the default. |
| Agent.RelevantTopics | backend/app/agent.py:128-135 | Five topics for `tourist` and `student`, three otherwise. "financial means" is a topic for every visa type but `student`. |
| Agent.NewAgent | backend/app/agent.py:30-35 | A new agent has asked nothing and has an empty history and no current question. |
| Agent.NarrowReply | backend/app/agent.py:155-161 | A stripped reply without `?` is kept. With a qualifying `?` the question ends with `?` and has no `.`. It always occurs in the stripped reply. |
| Agent.NarrowIsExtract | backend/app/agent.py:155-161 | The inline narrowing is the question extractor applied to the stripped reply. |
| Agent.GenerateQuestion | backend/app/agent.py:138-168 | The officer is consulted only after a question was asked and answered; before that the retrieved question is used. An officer failure changes nothing. A question asked becomes current and is counted. |
| Agent.NextQuestion | backend/app/agent.py:348-354 | Nothing is asked exactly when the budget is spent. Asking counts one question and makes it current. Within budget the result is that of `generate_question`. |
| Agent.NextQuestionKeepsBudget | backend/app/agent.py:348-354 | The asked count never passes `max(0, question_count)`. |
| Agent.AskAllCount | backend/app/agent.py:348-354 | When no officer call raises, `n` calls ask `min(asked + n, max(0, question_count))` questions. |
| Agent.AskAll | backend/app/agent.py:348-354 | Repeated `next_question` calls never lower the asked count and add at most one per call. Starting within the budget, they never pass `max(0, question_count)`. |
| Agent.ParseAnswerMetrics | backend/app/agent.py:221-263 | The result is the defaults or the parse of a substring. A tagged fence decides alone, even when it does not parse; otherwise the brace span decides; otherwise the defaults are used. |
| Agent.UnparsableFenceGivesDefaults | backend/app/agent.py:228-263 | An unparsable tagged fence gives the defaults, without trying the brace span. |
| Agent.EvaluateAnswer | backend/app/agent.py:171-263 | The answer is recorded with the current question exactly when there is one. Without a key the result is the defaults. A raised evaluator call propagates. Otherwise the result is the parse cascade's. |
| Agent.AnsweringEnablesOfficer | backend/app/agent.py:141-183 | Once a question is asked and answered, the next question comes from the officer, and the last history entry is that pair. |
| Agent.FeedbackObject | backend/app/agent.py:310-333 | A tagged fence gives its parse, or nothing when it does not parse. Without one, an object is always produced: the parsed brace span, or the long fallback text when it does not parse, or the reply itself as feedback when there is no brace span, each fallback with the all-7.0 metrics. |
| Agent.GenerateFeedback | backend/app/agent.py:266-346 | An empty history, a missing key or a raised call gives the all-7.0 metrics and the short fallback text. Otherwise a settled object is read with `.get` defaults, and an unparsable fence or a non-object gives the short fallback. |
| Agent.UnparsableFeedbackFenceGivesFallback | backend/app/agent.py:311-313 | An unparsable tagged fence raises into the outer handler: the short fallback text and the all-7.0 metrics, with no brace span tried. |
| Agent.ParsedBraceFeedback | backend/app/agent.py:317-320 | A brace span that parses to an object decides the metrics and feedback, read with `.get` defaults. |
| Agent.ParsedFeedbackRead | backend/app/agent.py:335-338 | A parsed object is read with `.get` defaults. A parsed non-object takes the fallback. |
| Agent.PlainReplyIsFeedback | backend/app/agent.py:321-327 | A reply with neither fence nor braces becomes the feedback text itself, with the default metrics. |
| Agent.UnparsableBraceGivesLongText | backend/app/agent.py:328-333 | An unparsable brace span gives the long fallback text. |

## Left out

- Audio I/O, speech synthesis, transcription, the vector store, LLM and HTTP calls, logging and `asyncio.sleep` are parameters or are dropped. Only their outcomes (a value, or "it raised") enter the model.
- The webrtcvad classifier itself: it is an abstract function of the 320-byte frame.
- Floating point: scores are `real`, so rounding is not modelled. Neither are NaN and ±Infinity, which `json.loads` and `float` can produce and a `real` cannot hold. A NaN mean fails every comparison and falls into the weak band (evaluation.py:123-139).
- LangChain's `@tool` decorator on `generate_question`, `evaluate_answer` and `generate_feedback` (agent.py:137, 170, 265) is ignored. The model treats them as the plain coroutines whose bodies are written there and that `next_question`, `process_answer` and `complete_interview` await.
- Unicode: `\d` is ASCII digits and `re.IGNORECASE` is ASCII case folding, while Python's `str` patterns also match other Unicode digits and letters.
- The health endpoints, `create_llm_config`, the TTS/ASR modules and the server entry point are not part of this model.
- The evaluation-error branch of `interview_agent` (main.py:166-172) is not modelled: the modelled `evaluate_session` never raises.
- A disconnect inside a turn is modelled as ending the session with no further message (`Disconnected` → `Dropped`). In the code the inner handler catches it, and the next send fails out of the loop.
- `OutOfOutcomes` is a modelling artifact: the loop runs on a finite sequence of turn outcomes.
- The failing turn outcomes over-approximate the code. `RetrievalFailed` cannot arise from `retrieve_question_from_chroma`, which catches every exception and returns a sample (rag.py:140-146). `SynthesisFailed` and a failed transcription cannot arise from the TTS and ASR modules, which return empty audio or a placeholder text instead of raising. The model allows them so that the loop's error path (main.py:145-152) is covered.
- A client that disconnects before sending its configuration is not modelled. `interview_agent` then sends nothing (main.py:174-175), while `RunInterview` always starts from a received first message.
- The RAG call in `generate_question` (agent.py:164) is not awaited, so the code stores a coroutine. The model takes the retrieved question as an abstract string.
- A `null` value and a missing key for a reply's `content` are treated alike. Replies that are not dictionaries are not modelled.
- `random.choice` is the index `pick` it would return.
- Session.ReadConfig: a `visaType` or `voice` that is not a string, and a `questionCount` that is a boolean or a non-whole number, are treated as the generic configuration error. Python would go on with such values.
- Orchestration.StartInterview: a second message whose `content` is `null` gives the default question, where Python returns `None`.
- The store's presence in `retrieve_question_from_chroma` and `init_chroma_collection` is a boolean: the truthiness of the collection object is not modelled.
