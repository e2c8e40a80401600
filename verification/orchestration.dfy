/** The group-chat orchestrator of `backend/app/orchestration.py`:
    `VisaInterviewOrchestrator`'s round budget, and what `start_interview`,
    `process_response` and `complete_interview` read back from the chat history.

    The AutoGen agents and their replies are not modelled: each operation takes
    the chat history as it stands after the operation's own sends. */
module Orchestration {
  import opened Wrappers
  import opened Strings
  import opened Extract

  const Greeting: string := "Welcome to your visa interview."
  const DefaultFirstQuestion: string := "Could you tell us about your travel plans?"
  const ElaborateQuestion: string := "Could you elaborate on your previous answer?"
  const DefaultFinalFeedback: string :=
    "Thank you for completing the interview. Based on your responses, you have demonstrated adequate understanding of the visa requirements."

  const EvaluatorName: string := "ResponseEvaluator"
  const QuestionerName: string := "QuestionGenerator"
  const FeedbackName: string := "FeedbackGenerator"

  /** Per-answer metrics and their defaults, in the source's key order. */
  const AnswerMetricDefaults: seq<(string, real)> :=
    [("relevance", 7.0), ("clarity", 7.0), ("detail", 6.0), ("consistency", 8.0)]
  /** Final metrics and their defaults. */
  const FinalMetricDefaults: seq<(string, real)> :=
    [("fluency", 7.5), ("confidence", 7.0), ("contentAccuracy", 7.0), ("responseTime", 8.0)]

  /** A chat message; `None` stands for a missing key. */
  datatype ChatMessage = ChatMessage(name: Option<string>, content: Option<string>)

  /** Python truthiness of an optional string: present and non-empty. */
  predicate Truthy(s: Option<string>) {
    s.Some? && s.value != ""
  }

  // ------------------------------------------------------------ the orchestrator

  datatype Orchestrator = Orchestrator(visaType: string, questionCount: int, maxRound: int)

  /** `VisaInterviewOrchestrator(visa_type, question_count)`: the group chat gets
      two rounds per question and five more. */
  function NewOrchestrator(visaType: string, questionCount: int): (o: Orchestrator)
    ensures o.visaType == visaType && o.questionCount == questionCount
    ensures o.maxRound - 5 == 2 * questionCount
  {
    Orchestrator(visaType, questionCount, questionCount * 2 + 5)
  }

  // ------------------------------------------------------------ message selection

  /** `msg` was sent by `name`, and when `needContent`, has non-empty content. */
  predicate Selects(msg: ChatMessage, name: string, needContent: bool) {
    msg.name == Some(name) && (!needContent || Truthy(msg.content))
  }

  /** Index of the most recent message `Selects` picks. */
  function LastMatch(chat: seq<ChatMessage>, name: string, needContent: bool): (r: Option<nat>)
    ensures r.Some? ==> r.value < |chat| && Selects(chat[r.value], name, needContent)
    ensures r.Some? ==> forall j :: r.value < j < |chat| ==> !Selects(chat[j], name, needContent)
    ensures r.None? <==> forall j :: 0 <= j < |chat| ==> !Selects(chat[j], name, needContent)
  {
    if |chat| == 0 then None
    else if Selects(chat[|chat| - 1], name, needContent) then Some(|chat| - 1)
    else LastMatch(chat[..|chat| - 1], name, needContent)
  }

  /** Content of the most recent message from `name` whose content is non-empty. */
  function LatestNonEmpty(chat: seq<ChatMessage>, name: string): (r: Option<string>)
    ensures r.Some? ==> r.value != ""
    ensures r.Some? <==> exists k :: 0 <= k < |chat| && chat[k].name == Some(name) && Truthy(chat[k].content)
    ensures r.Some? ==> exists k ::
      && 0 <= k < |chat| && chat[k].name == Some(name) && chat[k].content == r
      && forall j :: k < j < |chat| ==> !(chat[j].name == Some(name) && Truthy(chat[j].content))
  {
    match LastMatch(chat, name, true)
    case None => None
    case Some(k) => chat[k].content
  }

  /** The reverse scan of `process_response`, with its early `break`: each of the
      two variables takes the first truthy content met from the end. */
  method SelectLatest(chat: seq<ChatMessage>) returns (evaluation: Option<string>, nextQuestion: Option<string>)
    ensures Truthy(evaluation) <==> LatestNonEmpty(chat, EvaluatorName).Some?
    ensures Truthy(evaluation) ==> evaluation == LatestNonEmpty(chat, EvaluatorName)
    ensures Truthy(nextQuestion) <==> LatestNonEmpty(chat, QuestionerName).Some?
    ensures Truthy(nextQuestion) ==> nextQuestion == LatestNonEmpty(chat, QuestionerName)
  {
    evaluation := None;
    nextQuestion := None;
    ghost var ei: nat := 0;
    ghost var qi: nat := 0;
    var i := |chat|;
    while i > 0
      invariant 0 <= i <= |chat|
      invariant !Truthy(evaluation) ==> forall j :: i <= j < |chat| ==> !Selects(chat[j], EvaluatorName, true)
      invariant Truthy(evaluation) ==>
        && i <= ei < |chat| && Selects(chat[ei], EvaluatorName, true) && evaluation == chat[ei].content
        && forall j :: ei < j < |chat| ==> !Selects(chat[j], EvaluatorName, true)
      invariant !Truthy(nextQuestion) ==> forall j :: i <= j < |chat| ==> !Selects(chat[j], QuestionerName, true)
      invariant Truthy(nextQuestion) ==>
        && i <= qi < |chat| && Selects(chat[qi], QuestionerName, true) && nextQuestion == chat[qi].content
        && forall j :: qi < j < |chat| ==> !Selects(chat[j], QuestionerName, true)
    {
      i := i - 1;
      var msg := chat[i];
      var content := msg.content.GetOr("");
      if msg.name == Some(EvaluatorName) && !Truthy(evaluation) {
        evaluation := Some(content);
        ei := i;
      }
      if msg.name == Some(QuestionerName) && !Truthy(nextQuestion) {
        nextQuestion := Some(content);
        qi := i;
      }
      if Truthy(evaluation) && Truthy(nextQuestion) {
        break;
      }
    }
  }

  // ------------------------------------------------------------ metric scraping

  /** A character of the class `[:\s]`. */
  predicate IsSep(c: char) {
    c == ':' || IsSpace(c)
  }

  /** End of the run of `[:\s]` characters starting at `i`. */
  function SkipSeps(text: string, i: nat): (j: nat)
    requires i <= |text|
    ensures i <= j <= |text|
    ensures forall k :: i <= k < j ==> IsSep(text[k])
    ensures j < |text| ==> !IsSep(text[j])
    decreases |text| - i
  {
    if i < |text| && IsSep(text[i]) then SkipSeps(text, i + 1) else i
  }

  /** End of the run of digits starting at `i`. */
  function SkipDigits(text: string, i: nat): (j: nat)
    requires i <= |text|
    ensures i <= j <= |text|
    ensures AllDigits(text[i..j])
    ensures j < |text| ==> !IsDigit(text[j])
    decreases |text| - i
  {
    if i < |text| && IsDigit(text[i]) then
      var j := SkipDigits(text, i + 1);
      assert text[i..j] == [text[i]] + text[i + 1..j];
      j
    else i
  }

  function Pow10(n: nat): (r: nat)
    ensures r >= 1
  {
    if n == 0 then 1 else 10 * Pow10(n - 1)
  }

  /** `float("0." + ds)`: the value of the digits after a decimal point. */
  function Fraction(ds: string): (r: real)
    requires AllDigits(ds)
    ensures 0.0 <= r < 1.0
  {
    DigitsBelowPow10(ds);
    RatioBelowOne(DigitsValue(ds) as real, Pow10(|ds|) as real);
    DigitsValue(ds) as real / Pow10(|ds|) as real
  }

  lemma RatioBelowOne(n: real, m: real)
    requires 0.0 <= n < m
    ensures 0.0 <= n / m < 1.0
  {
  }

  /** `n` digits spell a number below `10^n`. */
  lemma {:induction false} DigitsBelowPow10(ds: string)
    requires AllDigits(ds)
    ensures DigitsValue(ds) < Pow10(|ds|)
  {
    if ds != [] {
      DigitsBelowPow10(ds[..|ds| - 1]);
    }
  }

  /** `key` occurs at `p`, compared up to ASCII case. */
  predicate KeyAt(text: string, key: string, p: nat) {
    p + |key| <= |text| && EqualsIgnoreCase(text[p..p + |key|], key)
  }

  /** The value of `\d+(?:\.\d+)?` matched at `e`: the whole digit run, then a
      fraction when a `.` and a digit follow it. */
  function NumberAt(text: string, e: nat): (r: Option<real>)
    requires e <= |text|
    ensures r.Some? <==> e < |text| && IsDigit(text[e])
    ensures r.Some? ==> r.value >= 0.0
    ensures r.Some? ==> var whole := DigitsValue(text[e..SkipDigits(text, e)]) as real;
      whole <= r.value < whole + 1.0
    ensures r.Some? ==> var d := SkipDigits(text, e);
      !(d + 1 < |text| && text[d] == '.' && IsDigit(text[d + 1])) ==>
        r.value == DigitsValue(text[e..d]) as real
  {
    var d := SkipDigits(text, e);
    if d == e then None
    else
      var whole := DigitsValue(text[e..d]) as real;
      if d + 1 < |text| && text[d] == '.' && IsDigit(text[d + 1]) then
        var f := SkipDigits(text, d + 1);
        Some(whole + Fraction(text[d + 1..f]))
      else Some(whole)
  }

  /** The value `key[:\s]+(\d+(?:\.\d+)?)` captures when it matches at `p`.
      `[:\s]` and `\d` share no character, so the separator run and each digit
      run are taken whole. */
  function MatchAt(text: string, key: string, p: nat): (r: Option<real>)
    ensures r.Some? ==> r.value >= 0.0
    ensures r.Some? ==> KeyAt(text, key, p) && p + |key| < |text| && IsSep(text[p + |key|])
    ensures KeyAt(text, key, p) && SkipSeps(text, p + |key|) > p + |key|
              && SkipSeps(text, p + |key|) < |text| && IsDigit(text[SkipSeps(text, p + |key|)]) ==>
      r == NumberAt(text, SkipSeps(text, p + |key|))
  {
    if !KeyAt(text, key, p) then None
    else
      var e := SkipSeps(text, p + |key|);
      if e == p + |key| then None else NumberAt(text, e)
  }

  /** Whether the pattern matches at each position of `text`. */
  function MatchScan(text: string, key: string): (matches: nat -> bool)
    ensures forall p: nat :: matches(p) == MatchAt(text, key, p).Some?
  {
    (p: nat) => MatchAt(text, key, p).Some?
  }

  /** Leftmost position at or after `from` where the pattern matches. */
  function FirstMatch(text: string, key: string, from: nat): (r: Option<nat>)
    requires from <= |text|
    ensures r.Some? ==> from <= r.value <= |text| && MatchAt(text, key, r.value).Some?
  {
    Leftmost(MatchScan(text, key), from, |text|)
  }

  /** The search matches exactly when the pattern matches somewhere at or after
      `from`, and it never matches before the position it reports. */
  lemma FirstMatchLeftmost(text: string, key: string, from: nat)
    requires from <= |text|
    ensures FirstMatch(text, key, from).None? <==> forall p :: from <= p <= |text| ==> MatchAt(text, key, p).None?
    ensures FirstMatch(text, key, from).Some? ==>
      forall p :: from <= p < FirstMatch(text, key, from).value ==> MatchAt(text, key, p).None?
  {
    LeftmostFound(MatchScan(text, key), from, |text|);
    if FirstMatch(text, key, from).Some? {
      LeftmostIsFirst(MatchScan(text, key), from, |text|);
    }
  }

  /** `re.search(fr"{key}[:\s]+(\d+(?:\.\d+)?)", text, re.IGNORECASE)` and `float` of
      its group. */
  function Scrape(text: string, key: string): (r: Option<real>)
    ensures r.Some? ==> r.value >= 0.0
    ensures r.None? <==> forall p :: 0 <= p <= |text| ==> MatchAt(text, key, p).None?
    ensures r.Some? ==> exists p :: 0 <= p <= |text| && MatchAt(text, key, p) == r
                                    && forall q :: 0 <= q < p ==> MatchAt(text, key, q).None?
  {
    FirstMatchLeftmost(text, key, 0);
    match FirstMatch(text, key, 0)
    case None => None
    case Some(p) => MatchAt(text, key, p)
  }

  /** `key: n` reads back as `n`. */
  lemma ScrapeRoundTrip(key: string, n: nat)
    ensures Scrape(key + ": " + NatToString(n), key) == Some(n as real)
  {
    var text := key + ": " + NatToString(n);
    var ds := NatToString(n);
    assert text[..|key|] == key;
    assert KeyAt(text, key, 0);
    assert text[|key|] == ':' && text[|key| + 1] == ' ' && text[|key| + 2] == ds[0];
    assert SkipSeps(text, |key| + 2) == |key| + 2;
    assert SkipSeps(text, |key|) == |key| + 2;
    assert text[|key| + 2..] == ds;
    NumberToEnd(text, |key| + 2);
    NatToStringRoundTrip(n);
    assert MatchAt(text, key, 0) == Some(n as real);
  }

  /** `key`, any non-empty run of `:` and whitespace, then `n`, reads back as `n`. */
  lemma ScrapeSeparatorRoundTrip(key: string, sep: string, n: nat)
    requires |sep| > 0 && forall k :: 0 <= k < |sep| ==> IsSep(sep[k])
    ensures Scrape(key + sep + NatToString(n), key) == Some(n as real)
  {
    var ds := NatToString(n);
    var text := key + sep + ds;
    var e := |key| + |sep|;
    assert text[..|key|] == key;
    assert KeyAt(text, key, 0);
    forall k | |key| <= k < e
      ensures IsSep(text[k])
    {
      assert text[k] == sep[k - |key|];
    }
    assert text[e] == ds[0];
    SkipSepsRun(text, |key|, e);
    assert text[e..] == ds;
    NumberToEnd(text, e);
    NatToStringRoundTrip(n);
    assert MatchAt(text, key, 0) == Some(n as real);
  }

  /** The separator scan stops exactly at the end of a maximal separator run. */
  lemma {:induction false} SkipSepsRun(text: string, i: nat, j: nat)
    requires i <= j <= |text| && forall k :: i <= k < j ==> IsSep(text[k])
    requires j < |text| ==> !IsSep(text[j])
    ensures SkipSeps(text, i) == j
    decreases j - i
  {
    if i < j {
      SkipSepsRun(text, i + 1, j);
    }
  }

  /** `key: a.ds` reads back as `a` plus the fraction `0.ds`. */
  lemma ScrapeDecimalRoundTrip(key: string, a: nat, ds: string)
    requires |ds| > 0 && AllDigits(ds)
    ensures Scrape(key + ": " + NatToString(a) + "." + ds, key) == Some(a as real + Fraction(ds))
  {
    var ns := NatToString(a);
    var text := key + ": " + ns + "." + ds;
    var e := |key| + 2;
    var d := e + |ns|;
    assert text[..|key|] == key;
    assert KeyAt(text, key, 0);
    assert text[|key|] == ':' && text[|key| + 1] == ' ' && text[e] == ns[0];
    assert SkipSeps(text, e) == e;
    assert SkipSeps(text, |key|) == e;
    assert text[e..d] == ns;
    assert text[d] == '.';
    assert text[d + 1..] == ds;
    NumberAtDecimal(text, e, d);
    NatToStringRoundTrip(a);
    assert MatchAt(text, key, 0) == Some(a as real + Fraction(ds));
  }

  /** A digit run, a `.` and a digit run to the end of the text read as a decimal. */
  lemma NumberAtDecimal(text: string, e: nat, d: nat)
    requires e < d && d + 1 < |text|
    requires AllDigits(text[e..d]) && text[d] == '.' && AllDigits(text[d + 1..])
    ensures NumberAt(text, e) == Some(DigitsValue(text[e..d]) as real + Fraction(text[d + 1..]))
  {
    SkipDigitsRun(text, e, d);
    assert text[d + 1..|text|] == text[d + 1..];
    SkipDigitsRun(text, d + 1, |text|);
    assert text[e] == text[e..d][0];
    assert text[d + 1] == text[d + 1..][0];
  }

  /** The digit scan stops exactly at the end of a maximal digit run. */
  lemma {:induction false} SkipDigitsRun(text: string, i: nat, j: nat)
    requires i <= j <= |text| && AllDigits(text[i..j])
    requires j < |text| ==> !IsDigit(text[j])
    ensures SkipDigits(text, i) == j
    decreases j - i
  {
    if i < j {
      assert text[i] == text[i..j][0];
      assert text[i + 1..j] == text[i..j][1..];
      SkipDigitsRun(text, i + 1, j);
    }
  }

  /** A digit run reaching the end of the text is read as a whole number. */
  lemma NumberToEnd(text: string, e: nat)
    requires e < |text| && AllDigits(text[e..])
    ensures NumberAt(text, e) == Some(DigitsValue(text[e..]) as real)
  {
    forall k | e <= k < |text|
      ensures IsDigit(text[k])
    {
      assert text[k] == text[e..][k - e];
    }
    SkipDigitsToEnd(text, e);
    assert text[e..|text|] == text[e..];
  }

  lemma {:induction false} SkipDigitsToEnd(text: string, i: nat)
    requires i <= |text|
    requires forall k :: i <= k < |text| ==> IsDigit(text[k])
    ensures SkipDigits(text, i) == |text|
    decreases |text| - i
  {
    if i < |text| {
      SkipDigitsToEnd(text, i + 1);
    }
  }

  /** Keys equal up to case match at the same positions with the same value. */
  lemma MatchIgnoresKeyCase(text: string, key1: string, key2: string, p: nat)
    requires EqualsIgnoreCase(key1, key2)
    ensures MatchAt(text, key1, p) == MatchAt(text, key2, p)
  {
    if p + |key1| <= |text| {
      var w := text[p..p + |key1|];
      forall k | 0 <= k < |w|
        ensures Lower(w[k]) == Lower(key1[k]) <==> Lower(w[k]) == Lower(key2[k])
      {
      }
      assert EqualsIgnoreCase(w, key1) == EqualsIgnoreCase(w, key2);
    }
    assert KeyAt(text, key1, p) == KeyAt(text, key2, p);
  }

  /** The key is matched up to ASCII case: keys that differ only in case scrape
      the same value. */
  lemma ScrapeIgnoresKeyCase(text: string, key1: string, key2: string)
    requires EqualsIgnoreCase(key1, key2)
    ensures Scrape(text, key1) == Scrape(text, key2)
  {
    forall p: nat
      ensures MatchAt(text, key1, p) == MatchAt(text, key2, p)
    {
      MatchIgnoresKeyCase(text, key1, key2, p);
    }
    FirstMatchLeftmost(text, key1, 0);
    FirstMatchLeftmost(text, key2, 0);
    var m1 := FirstMatch(text, key1, 0);
    var m2 := FirstMatch(text, key2, 0);
    if m1.Some? && m2.Some? {
      assert !(m1.value < m2.value) && !(m2.value < m1.value);
    }
  }

  /** The metrics dictionary after the scraping loop: every key keeps its default
      unless `text` is truthy and the key's pattern matches it. */
  function ScrapeMetrics(text: Option<string>, defaults: seq<(string, real)>): (r: seq<(string, real)>)
    ensures |r| == |defaults|
    ensures forall i :: 0 <= i < |r| ==> r[i].0 == defaults[i].0
    ensures forall i :: 0 <= i < |r| ==>
      r[i].1 == (if Truthy(text) && Scrape(text.value, defaults[i].0).Some? then Scrape(text.value, defaults[i].0).value
                 else defaults[i].1)
  {
    seq(|defaults|, i requires 0 <= i < |defaults| =>
      (defaults[i].0, if Truthy(text) then Scrape(text.value, defaults[i].0).GetOr(defaults[i].1) else defaults[i].1))
  }

  /** Scraped values are never clamped: any number written after the key is
      taken as it stands, so a "score" above 10 survives. */
  lemma ScoresAreNotClamped()
    ensures ScrapeMetrics(Some("clarity: 42"), AnswerMetricDefaults)[1] == ("clarity", 42.0)
  {
    assert NatToString(42) == "42";
    assert "clarity" + ": " + NatToString(42) == "clarity: 42";
    ScrapeRoundTrip("clarity", 42);
  }

  // ------------------------------------------------------------ the three calls

  datatype Opening = Opening(greeting: string, firstQuestion: string)

  /** `start_interview`: the second chat message's content, when that message
      exists and has one. */
  function StartInterview(chat: seq<ChatMessage>): (r: Opening)
    ensures r.greeting == Greeting
    ensures |chat| > 1 && chat[1].content.Some? ==> r.firstQuestion == chat[1].content.value
    ensures |chat| <= 1 || chat[1].content.None? ==> r.firstQuestion == DefaultFirstQuestion
  {
    if |chat| > 1 then Opening(Greeting, chat[1].content.GetOr(DefaultFirstQuestion))
    else Opening(Greeting, DefaultFirstQuestion)
  }

  datatype ResponseResult = ResponseResult(metrics: seq<(string, real)>, nextQuestion: string)

  /** The question sent next: the question extracted from the latest non-empty
      questioner message (the message itself when no question is found in it), or
      the request to elaborate when there is none. */
  function NextInterviewQuestion(latest: Option<string>): (q: string)
    requires latest.Some? ==> latest.value != ""
    ensures q != ""
    ensures latest.None? ==> q == ElaborateQuestion
    ensures latest.Some? && QuestionMatch(latest.value).Some? ==>
      q == QuestionMatch(latest.value).value && q[|q| - 1] == '?'
    ensures latest.Some? && QuestionMatch(latest.value).None? ==> q == latest.value
  {
    match latest
    case None => ElaborateQuestion
    case Some(t) => QuestionMatch(t).GetOr(t)
  }

  /** `process_response` after its three sends. */
  function ProcessResponse(chat: seq<ChatMessage>): (r: ResponseResult)
    ensures |r.metrics| == 4
    ensures forall i :: 0 <= i < 4 ==> r.metrics[i].0 == AnswerMetricDefaults[i].0
    ensures r.nextQuestion == NextInterviewQuestion(LatestNonEmpty(chat, QuestionerName))
  {
    var evaluation := LatestNonEmpty(chat, EvaluatorName);
    ResponseResult(ScrapeMetrics(evaluation, AnswerMetricDefaults), NextInterviewQuestion(LatestNonEmpty(chat, QuestionerName)))
  }

  /** Each per-answer metric is the number scraped from the latest non-empty
      evaluation, or its default. */
  lemma AnswerMetricsFromEvaluation(chat: seq<ChatMessage>, i: nat)
    requires i < 4
    ensures var r := ProcessResponse(chat);
      var ev := LatestNonEmpty(chat, EvaluatorName);
      && (ev.None? || Scrape(ev.value, AnswerMetricDefaults[i].0).None? ==> r.metrics[i] == AnswerMetricDefaults[i])
      && (ev.Some? && Scrape(ev.value, AnswerMetricDefaults[i].0).Some? ==>
            r.metrics[i].1 == Scrape(ev.value, AnswerMetricDefaults[i].0).value)
  {
  }

  datatype FinalResult = FinalResult(metrics: seq<(string, real)>, feedback: string)

  /** `complete_interview` after its two sends: the most recent feedback-agent
      message is taken whatever its content, and the scan stops there. */
  function CompleteInterview(chat: seq<ChatMessage>): (r: FinalResult)
    ensures |r.metrics| == 4
    ensures forall i :: 0 <= i < 4 ==> r.metrics[i].0 == FinalMetricDefaults[i].0
    ensures r.feedback != ""
    ensures LastMatch(chat, FeedbackName, false).None? ==> r.feedback == DefaultFinalFeedback
    ensures LastMatch(chat, FeedbackName, false).Some? ==>
      var c := chat[LastMatch(chat, FeedbackName, false).value].content;
      r.feedback == if Truthy(c) then c.value else DefaultFinalFeedback
  {
    var feedback :=
      match LastMatch(chat, FeedbackName, false)
      case None => None
      case Some(k) => Some(chat[k].content.GetOr(""));
    var metrics := ScrapeMetrics(feedback, FinalMetricDefaults);
    FinalResult(metrics, if Truthy(feedback) then feedback.value else DefaultFinalFeedback)
  }

  /** An empty latest feedback message hides older ones: the default text is used
      even when an earlier feedback message had content. */
  lemma EmptyLatestFeedbackWins(older: string)
    requires older != ""
    ensures var chat := [ChatMessage(Some(FeedbackName), Some(older)), ChatMessage(Some(FeedbackName), Some(""))];
      CompleteInterview(chat).feedback == DefaultFinalFeedback
      && LatestNonEmpty(chat, FeedbackName) == Some(older)
  {
    var chat := [ChatMessage(Some(FeedbackName), Some(older)), ChatMessage(Some(FeedbackName), Some(""))];
    assert chat[..1] == [chat[0]];
    assert LastMatch(chat, FeedbackName, false) == Some(1);
  }

  /** The final metrics are scraped from the feedback text over the defaults
      7.5 / 7.0 / 7.0 / 8.0: a key keeps its default when there is no feedback
      message, when the latest one is empty, or when the key is not matched. */
  lemma FinalMetricsFromFeedback(chat: seq<ChatMessage>, i: nat)
    requires i < 4
    ensures var r := CompleteInterview(chat);
      var k := LastMatch(chat, FeedbackName, false);
      && (k.None? ==> r.metrics == FinalMetricDefaults)
      && (k.Some? && (!Truthy(chat[k.value].content) || Scrape(chat[k.value].content.value, FinalMetricDefaults[i].0).None?) ==>
            r.metrics[i] == FinalMetricDefaults[i])
      && (k.Some? && Truthy(chat[k.value].content) && Scrape(chat[k.value].content.value, FinalMetricDefaults[i].0).Some? ==>
            r.metrics[i].1 == Scrape(chat[k.value].content.value, FinalMetricDefaults[i].0).value)
  {
  }
}
