/** The retrieval-augmented answer (src/services/ragQueryService.ts): embed
    the question, search the article index, build a grounding context and a
    prompt, ask the generator, and fall back to fixed strings. The three
    remote calls are parameters; each either returns or throws. */
module RagQuery {
  import opened Base
  import opened Strings
  import opened Qdrant

  const DEFAULT_TOP_K := 5
  const MODEL := "gemini-2.5-flash"
  const SYSTEM_INSTRUCTION := "You are a helpful assistant answering questions based on the above news context."
  const LOADING := "Loading...."
  const BUSY := "Server is busy, Please try again later."
  const RECORD_SEPARATOR := "\n\n"

  datatype GenerateRequest = GenerateRequest(model: string, contents: seq<string>, systemInstruction: string)

  /** The remote services: the embedding endpoint (one call for a list of
      texts), the vector search of the configured collection, and the text
      generator, whose reply text is "" when the response carries none. */
  datatype Services = Services(
    embed: seq<string> -> Outcome<seq<Vector>>,
    search: SearchRequest -> Outcome<seq<ScoredPoint>>,
    generate: GenerateRequest -> Outcome<string>)

  /** The two payload fields a context block shows. */
  datatype PayloadKey = Title | Content

  /** A template-literal field `${r.payload?.title}` or `${r.payload?.content}`:
      "undefined" without a payload. */
  function PayloadText(p: ScoredPoint, key: PayloadKey): (text: string)
    ensures p.payload.None? ==> text == "undefined"
    ensures p.payload.Some? && key == Title ==> text == p.payload.value.title
    ensures p.payload.Some? && key == Content ==> text == p.payload.value.content
  {
    match p.payload
    case None => "undefined"
    case Some(payload) => if key == Title then payload.title else payload.content
  }

  /** One search hit as a context block. */
  function Render(p: ScoredPoint): (block: string)
    ensures var title, content := PayloadText(p, Title), PayloadText(p, Content);
      |block| == 7 + |title| + 10 + |content| &&
      block[..7] == "Title: " &&
      block[7..7 + |title|] == title &&
      block[7 + |title|..|block| - |content|] == "\nContent: " &&
      block[|block| - |content|..] == content
  {
    "Title: " + PayloadText(p, Title) + "\nContent: " + PayloadText(p, Content)
  }

  function RenderAll(hits: seq<ScoredPoint>): (blocks: seq<string>)
    ensures |blocks| == |hits| && forall i :: 0 <= i < |hits| ==> blocks[i] == Render(hits[i])
  {
    seq(|hits|, i requires 0 <= i < |hits| => Render(hits[i]))
  }

  /** The grounding context: the hits in returned order, blank-line separated. */
  function Context(hits: seq<ScoredPoint>): (context: string)
    ensures |hits| == 0 ==> context == ""
    ensures |hits| == 1 ==> context == Render(hits[0])
  {
    Join(RenderAll(hits), RECORD_SEPARATOR)
  }

  /** The context of no hits is empty; of one hit, its block; and the context
      of two runs of hits is their contexts joined by a blank line, so each hit
      contributes exactly its block, in order. */
  lemma ContextShape(a: seq<ScoredPoint>, b: seq<ScoredPoint>)
    ensures Context([]) == ""
    ensures |a| == 1 ==> Context(a) == Render(a[0])
    ensures |a| > 0 && |b| > 0 ==> Context(a + b) == Context(a) + RECORD_SEPARATOR + Context(b)
  {
    if |a| > 0 && |b| > 0 {
      assert RenderAll(a + b) == RenderAll(a) + RenderAll(b);
      JoinAppend(RenderAll(a), RenderAll(b), RECORD_SEPARATOR);
    }
  }

  /** The single prompt: the context followed by the literal question. */
  function Prompt(context: string, query: string): (prompt: string)
    ensures |prompt| == 9 + |context| + 17 + |query|
    ensures prompt[..9] == "Context:\n"
  {
    "Context:\n" + context + "\n\nUser question: " + query
  }

  /** The question and the context can be read back from the prompt. */
  lemma PromptParts(context: string, query: string)
    ensures var p := Prompt(context, query);
      p[|p| - |query|..] == query &&
      p[9..9 + |context|] == context &&
      p[9 + |context|..|p| - |query|] == "\n\nUser question: "
  {
  }

  /** The generation request: one prompt, sent to the fixed model with the
      fixed system instruction. */
  function Request(context: string, query: string): (request: GenerateRequest)
    ensures request.model == "gemini-2.5-flash"
    ensures request.systemInstruction == SYSTEM_INSTRUCTION
    ensures |request.contents| == 1 && |request.contents[0]| >= 9 && request.contents[0][..9] == "Context:\n"
    ensures var prompt := request.contents[0]; |prompt| >= |query| && prompt[|prompt| - |query|..] == query
  {
    PromptParts(context, query);
    GenerateRequest(MODEL, [Prompt(context, query)], SYSTEM_INSTRUCTION)
  }

  /** The vector the search is sent: the first one the embedding call returned. */
  function FirstVector(vs: seq<Vector>): (first: Option<Vector>)
    ensures first.Some? <==> |vs| > 0
    ensures first.Some? ==> first.value == vs[0]
  {
    if |vs| > 0 then Some(vs[0]) else None
  }

  /** queryArticles: never throws and never answers with the empty string. */
  function QueryArticles(query: string, topK: int, svc: Services): (answer: string)
    ensures answer != ""
  {
    match svc.embed([query])
    case Threw => BUSY
    case Ok(vectors) =>
      match SearchArticles(svc.search, FirstVector(vectors), topK)
      case Threw => BUSY
      case Ok(hits) =>
        match svc.generate(Request(Context(hits), query))
        case Threw => BUSY
        case Ok(text) => if text != "" then text else LOADING
  }

  /** The answer is the busy message, the loading message, or the text the
      generator produced. It is the busy message whenever a call threw. When
      embedding and search succeed, the generator is asked about exactly the
      hits the search returned, and its non-empty text is the answer, while
      empty text gives the loading message. */
  lemma AnswerCases(query: string, topK: int, svc: Services)
    ensures var answer := QueryArticles(query, topK, svc);
      (answer == BUSY || answer == LOADING ||
       exists hits :: svc.generate(Request(Context(hits), query)) == Ok(answer)) &&
      (svc.embed([query]).Threw? ==> answer == BUSY) &&
      (svc.embed([query]).Ok? && svc.search(SearchRequest(FirstVector(svc.embed([query]).value), topK)).Threw? ==> answer == BUSY)
    ensures var answer := QueryArticles(query, topK, svc);
      svc.embed([query]).Ok? && svc.search(SearchRequest(FirstVector(svc.embed([query]).value), topK)).Ok? ==>
        var hits := svc.search(SearchRequest(FirstVector(svc.embed([query]).value), topK)).value;
        var generated := svc.generate(Request(Context(hits), query));
        (generated.Threw? ==> answer == BUSY) &&
        (generated.Ok? && generated.value != "" ==> answer == generated.value) &&
        (generated == Ok("") ==> answer == LOADING)
  {
    var answer := QueryArticles(query, topK, svc);
    if svc.embed([query]).Ok? {
      var first := FirstVector(svc.embed([query]).value);
      var found := svc.search(SearchRequest(first, topK));
      if found.Ok? {
        var generated := svc.generate(Request(Context(found.value), query));
        if generated.Ok? && generated.value != "" {
          assert svc.generate(Request(Context(found.value), query)) == Ok(answer);
        }
      }
    }
  }

  /** Only the first returned embedding matters, and the search is asked for
      exactly `topK` results: two sets of services that agree on those calls
      give the same answer. */
  lemma OnlyFirstEmbeddingAndTopK(query: string, topK: int, s1: Services, s2: Services)
    requires s1.embed([query]).Threw? == s2.embed([query]).Threw?
    requires s1.embed([query]).Ok? ==> FirstVector(s1.embed([query]).value) == FirstVector(s2.embed([query]).value)
    requires s1.embed([query]).Ok? ==>
      s1.search(SearchRequest(FirstVector(s1.embed([query]).value), topK)) ==
      s2.search(SearchRequest(FirstVector(s1.embed([query]).value), topK))
    requires s1.generate == s2.generate
    ensures QueryArticles(query, topK, s1) == QueryArticles(query, topK, s2)
  {
  }

  /** An empty index still reaches the generator, with an empty context. */
  lemma EmptyIndexStillAsks(query: string, topK: int, svc: Services)
    requires svc.embed([query]).Ok?
    requires svc.search(SearchRequest(FirstVector(svc.embed([query]).value), topK)) == Ok([])
    ensures svc.generate(GenerateRequest(MODEL, ["Context:\n\n\nUser question: " + query], SYSTEM_INSTRUCTION)).Ok? ==>
      QueryArticles(query, topK, svc) in {svc.generate(GenerateRequest(MODEL, ["Context:\n\n\nUser question: " + query], SYSTEM_INSTRUCTION)).value, LOADING}
    ensures svc.generate(GenerateRequest(MODEL, ["Context:\n\n\nUser question: " + query], SYSTEM_INSTRUCTION)).Threw? ==>
      QueryArticles(query, topK, svc) == BUSY
  {
    assert Context([]) == "";
    assert "Context:\n" + "" == "Context:\n";
    assert "Context:\n" + "\n\nUser question: " == "Context:\n\n\nUser question: ";
    assert Prompt("", query) == "Context:\n\n\nUser question: " + query;
    assert Request(Context([]), query) == GenerateRequest(MODEL, ["Context:\n\n\nUser question: " + query], SYSTEM_INSTRUCTION);
  }
}
