/** Question retrieval of `backend/app/rag.py`: the built-in sample questions,
    `retrieve_question_from_chroma` and `init_chroma_collection`.

    The vector store, the completion service and `random.choice` are parameters:
    the store's query and the completion service are functions of the text sent
    to them, and `random.choice` is the index `pick` it would return. */
module Rag {
  import opened Wrappers
  import opened Strings

  const TouristQuestions: seq<string> := [
    "What is the purpose of your visit to our country?",
    "How long do you plan to stay?",
    "Where will you be staying during your visit?",
    "Have you visited our country before?",
    "What places are you planning to visit during your stay?",
    "Do you have relatives or friends in our country?",
    "How much money are you bringing for your trip?",
    "What is your occupation in your home country?",
    "Who is sponsoring your trip?",
    "When are you planning to return to your home country?"
  ]

  const StudentQuestions: seq<string> := [
    "Which university have you been accepted to?",
    "What program will you be studying?",
    "Why did you choose this specific university?",
    "How will your studies in our country benefit your career?",
    "How are you planning to finance your education?",
    "Have you paid the tuition fees yet?",
    "What are your plans after completing your studies?",
    "Do you have any family members studying or working in our country?",
    "How proficient are you in our language?",
    "Tell me about your previous educational background."
  ]

  /** `SAMPLE_QUESTIONS.get(visa_type, SAMPLE_QUESTIONS["tourist"])`: only the exact
      key `student` selects the student list; every other visa type gets the tourist list. */
  function SampleQuestions(visaType: string): (qs: seq<string>)
    ensures |qs| == 10
    ensures visaType == "student" ==> qs == StudentQuestions
    ensures visaType != "student" ==> qs == TouristQuestions
  {
    if visaType == "student" then StudentQuestions else TouristQuestions
  }

  /** Every tourist sample ends with a question mark; the last student sample is an
      instruction ending with a full stop. */
  lemma SampleQuestionMarks()
    ensures forall k :: 0 <= k < |TouristQuestions| ==> TouristQuestions[k][|TouristQuestions[k]| - 1] == '?'
    ensures forall k :: 0 <= k < 9 ==> StudentQuestions[k][|StudentQuestions[k]| - 1] == '?'
    ensures StudentQuestions[9][|StudentQuestions[9]| - 1] == '.'
  {
  }

  /** What the store's `query` returned: it raised, or the `documents` lists, one
      per query text. */
  datatype QueryResult = QueryFailed | Documents(lists: seq<seq<string>>)

  /** What the completion request ended with. */
  datatype Completion = TimedOut | Raised | Response(status: int, content: Option<string>)

  /** The collaborators of `retrieve_question_from_chroma`. */
  datatype Retriever = Retriever(
    collectionPresent: bool,             // the store opened at import time
    hasKey: bool,                        // MISTRAL_API_KEY is set
    query: string -> QueryResult,        // the store's query, given the query text
    complete: string -> Completion,      // the completion request, given the user prompt
    pick: nat)                           // the index random.choice picks

  function QueryText(visaType: string): string {
    "question about " + visaType + " visa"
  }

  function Prompt(visaType: string, context: string): string {
    "Generate a single question for a " + visaType
      + " visa interview. Make it concise and natural as if spoken by a visa officer. Context: " + context
  }

  /** The documents the query returned for its one query text, if there are any. */
  function Context(result: QueryResult): (r: Option<string>)
    ensures r.Some? <==> result.Documents? && |result.lists| > 0 && |result.lists[0]| > 0
  {
    if result.Documents? && |result.lists| > 0 && |result.lists[0]| > 0
    then Some(Join("\n", result.lists[0]))
    else None
  }

  /** The text of a successful completion: status 200 and a content present. */
  function ReplyText(c: Completion): (r: Option<string>)
    ensures r.Some? <==> c.Response? && c.status == 200 && c.content.Some?
  {
    if c.Response? && c.status == 200 then c.content else None
  }

  /** `retrieve_question_from_chroma`. */
  function RetrieveQuestion(visaType: string, env: Retriever): (r: string)
    requires env.pick < 10
    ensures !env.collectionPresent || !env.hasKey ==> r == SampleQuestions(visaType)[env.pick]
    ensures r != SampleQuestions(visaType)[env.pick] ==>
      && env.collectionPresent && env.hasKey
      && Context(env.query(QueryText(visaType))).Some?
      && ReplyText(env.complete(Prompt(visaType, Context(env.query(QueryText(visaType))).value))).Some?
      && r == Strip(ReplyText(env.complete(Prompt(visaType, Context(env.query(QueryText(visaType))).value))).value)
  {
    var fallback := SampleQuestions(visaType)[env.pick];
    if !env.collectionPresent || !env.hasKey then fallback
    else match Context(env.query(QueryText(visaType)))
      case None => fallback
      case Some(context) =>
        match ReplyText(env.complete(Prompt(visaType, context)))
        case None => fallback
        case Some(text) => Strip(text)
  }

  /** Whatever fails along the way, the answer is the picked sample question for
      the visa type, and a successful completion's text comes back stripped. */
  lemma RetrievalOutcomes(visaType: string, env: Retriever)
    requires env.pick < 10
    ensures var r := RetrieveQuestion(visaType, env);
      var ctx := Context(env.query(QueryText(visaType)));
      var fallback := SampleQuestions(visaType)[env.pick];
      && (ctx.None? ==> r == fallback)
      && (ctx.Some? && ReplyText(env.complete(Prompt(visaType, ctx.value))).None? ==> r == fallback)
      && (env.collectionPresent && env.hasKey && ctx.Some? && ReplyText(env.complete(Prompt(visaType, ctx.value))).Some? ==>
            r == Strip(ReplyText(env.complete(Prompt(visaType, ctx.value))).value))
  {
  }

  /** Without the store or the key nothing is queried: the store's and the
      completion service's answers make no difference. */
  lemma NoQueryWithoutStore(visaType: string, env: Retriever, query: string -> QueryResult, complete: string -> Completion)
    requires env.pick < 10
    requires !env.collectionPresent || !env.hasKey
    ensures RetrieveQuestion(visaType, env) == RetrieveQuestion(visaType, env.(query := query, complete := complete))
  {
  }

  // ------------------------------------------------------------ seeding the store

  /** What `init_chroma_collection` hands to `add`: aligned documents, metadata
      `visa_type` values and ids. */
  datatype Batch = Batch(documents: seq<string>, visaTypes: seq<string>, ids: seq<string>)

  function SeedId(prefix: string, i: nat): string {
    prefix + "_" + NatToString(i)
  }

  /** One `enumerate` loop of `init_chroma_collection`: the samples of a visa type,
      each labelled with that type and numbered from 0. */
  function Labelled(visaType: string): (b: Batch)
    ensures |b.documents| == 10 && |b.visaTypes| == 10 && |b.ids| == 10
    ensures forall i :: 0 <= i < 10 ==> b.documents[i] == SampleQuestions(visaType)[i]
    ensures forall i :: 0 <= i < 10 ==> b.visaTypes[i] == visaType && b.ids[i] == SeedId(visaType, i)
  {
    Batch(SampleQuestions(visaType), seq(10, i => visaType), seq(10, i requires 0 <= i => SeedId(visaType, i)))
  }

  /** The lists of `x` followed by those of `y`. */
  function Then(x: Batch, y: Batch): Batch {
    Batch(x.documents + y.documents, x.visaTypes + y.visaTypes, x.ids + y.ids)
  }

  /** `init_chroma_collection`: nothing when the store is missing or already holds
      documents; otherwise the ten tourist then ten student samples. */
  function InitCollection(collectionPresent: bool, count: int): (r: Option<Batch>)
    ensures r.None? <==> !collectionPresent || count > 0
    ensures r.Some? ==>
      && |r.value.documents| == 20 && |r.value.visaTypes| == 20 && |r.value.ids| == 20
      && r.value.documents == TouristQuestions + StudentQuestions
  {
    if !collectionPresent || count > 0 then None
    else Some(Then(Labelled("tourist"), Labelled("student")))
  }

  /** Each document is labelled with the visa type of the list it came from, and
      its id names that type and the document's position in that list. */
  lemma SeedBatchLabels(count: int)
    requires count <= 0
    ensures var b := InitCollection(true, count).value;
      && (forall i :: 0 <= i < 10 ==>
            b.visaTypes[i] == "tourist" && b.documents[i] == TouristQuestions[i] && b.ids[i] == SeedId("tourist", i))
      && (forall i :: 10 <= i < 20 ==>
            b.visaTypes[i] == "student" && b.documents[i] == StudentQuestions[i - 10] && b.ids[i] == SeedId("student", i - 10))
  {
    var t, u := Labelled("tourist"), Labelled("student");
    var b := InitCollection(true, count).value;
    assert b == Then(t, u);
    assert SampleQuestions("tourist") == TouristQuestions && SampleQuestions("student") == StudentQuestions;
    forall i | 10 <= i < 20
      ensures b.visaTypes[i] == "student" && b.documents[i] == StudentQuestions[i - 10] && b.ids[i] == SeedId("student", i - 10)
    {
      var j := i - 10;
      assert b.visaTypes[i] == u.visaTypes[j] && b.documents[i] == u.documents[j] && b.ids[i] == u.ids[j];
    }
  }

  /** No two ids of the seed batch coincide. */
  lemma SeedIdsDistinct(count: int)
    requires count <= 0
    ensures var b := InitCollection(true, count).value;
      forall i, j :: 0 <= i < j < 20 ==> b.ids[i] != b.ids[j]
  {
    var b := InitCollection(true, count).value;
    forall i, j | 0 <= i < j < 20
      ensures b.ids[i] != b.ids[j]
    {
      var pi := if i < 10 then "tourist" else "student";
      var pj := if j < 10 then "tourist" else "student";
      var ni := if i < 10 then i else i - 10;
      var nj := if j < 10 then j else j - 10;
      assert b.ids[i] == SeedId(pi, ni) && b.ids[j] == SeedId(pj, nj);
      SeedIdsDiffer(pi, ni, pj, nj);
    }
  }

  /** Two ids agree only when prefix and number both agree. */
  lemma SeedIdsDiffer(p: string, m: nat, q: string, n: nat)
    requires p in {"tourist", "student"} && q in {"tourist", "student"}
    requires p != q || m != n
    ensures SeedId(p, m) != SeedId(q, n)
  {
    if SeedId(p, m) == SeedId(q, n) {
      assert SeedId(p, m)[0] == p[0] && SeedId(q, n)[0] == q[0];
      assert |p| == 7 && |q| == 7 && p == q;
      assert SeedId(p, m)[8..] == NatToString(m);
      assert SeedId(q, n)[8..] == NatToString(n);
      NatToStringInjective(m, n);
    }
  }
}
