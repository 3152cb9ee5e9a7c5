/** The query lambda (lambda/query_pipeline.py): embed the question, fetch the
    nearest chunks with a k-NN search, render them into the prompt, and stream the
    model's answer as server-sent events. The embedding model, the search client,
    the streaming model and the JSON encoder are parameters. */
module QueryPipeline {
  import opened Wrappers
  import opened Text
  import opened IndexRecords

  // ---------------------------------------------------------------------------
  // search_opensearch

  /** `top_k` when the caller gives none. */
  const DefaultTopK: nat := 3

  /** `{"knn": {field: {"vector": ..., "k": ...}}}` */
  datatype KnnClause = KnnClause(field: string, vector: Vector, k: nat)

  /** `{"size": ..., "query": <knn clause>}`: the whole body; it has no filter. */
  datatype SearchBody = SearchBody(size: nat, knn: KnnClause)

  /** The request body for the `top_k` nearest neighbours of the query embedding. */
  function SearchBodyFor(queryEmbedding: Vector, topK: nat): (body: SearchBody)
    ensures body.size == topK && body.knn.k == topK
    ensures body.knn.field == "embedding" && body.knn.vector == queryEmbedding
  {
    SearchBody(topK, KnnClause("embedding", queryEmbedding, topK))
  }

  /** One entry of `response['hits']['hits']`. */
  datatype Hit = Hit(id: string, score: real, source: Record)

  /** `[hit['_source'] for hit in hits]`: one record per hit, in hit order. */
  function HitSources(hits: seq<Hit>): (sources: seq<Record>)
    ensures |sources| == |hits|
    ensures forall i :: 0 <= i < |hits| ==> sources[i] == hits[i].source
  {
    seq(|hits|, i requires 0 <= i < |hits| => hits[i].source)
  }

  // ---------------------------------------------------------------------------
  // construct_prompt: the context

  /** The `page_number` shown when the record has no `metadata` or no `page`. */
  const MissingPage: string := "N/A"

  /** `chunk.get('metadata', {}).get('page', 'N/A')`, formatted by the f-string: a
      `page` key holding JSON `null` is present, so it shows as `None`. */
  function PageLabel(r: Record): (shown: string)
    ensures r.metadata.None? || r.metadata.value.page.None? ==> shown == MissingPage
    ensures r.metadata.Some? && r.metadata.value.page.Some? && r.metadata.value.page.value.PageText? ==>
      shown == r.metadata.value.page.value.text
    ensures r.metadata.Some? && r.metadata.value.page.Some? && r.metadata.value.page.value.PageNumber? ==>
      (forall j :: 0 <= j < |shown| ==> IsDigit(shown[j])) && DecimalValue(shown) == r.metadata.value.page.value.number
    ensures r.metadata.Some? && r.metadata.value.page.Some? && r.metadata.value.page.value.PageBool? ==>
      shown == (if r.metadata.value.page.value.flag then "True" else "False")
    ensures r.metadata.Some? && r.metadata.value.page == Some(PageNull) ==> shown == "None"
  {
    match r.metadata
    case None => MissingPage
    case Some(m) =>
      match m.page
      case None => MissingPage
      case Some(PageText(t)) => t
      case Some(PageNumber(n)) => DecimalRoundTrip(n); NatToDecimal(n)
      case Some(PageBool(b)) => if b then "True" else "False"
      case Some(PageNull) => "None"
  }

  /** The `<document>` block of the `i`-th chunk, numbered from 1. */
  function DocumentBlock(i: nat, r: Record): string {
    "<document index=\"" + NatToDecimal(i + 1) + "\" page_number=\"" + PageLabel(r) + "\">\n" + r.text + "\n</document>"
  }

  /** `context_parts` once the loop has run. */
  function Blocks(chunks: seq<Record>): (blocks: seq<string>)
    ensures |blocks| == |chunks|
    ensures forall i :: 0 <= i < |chunks| ==> blocks[i] == DocumentBlock(i, chunks[i])
  {
    seq(|chunks|, i requires 0 <= i < |chunks| => DocumentBlock(i, chunks[i]))
  }

  /** `"\n\n".join(context_parts)` */
  function Context(chunks: seq<Record>): string {
    Join(Blocks(chunks), "\n\n")
  }

  /** The loop of `construct_prompt` that appends one block per chunk, then the join. */
  method RenderContext(chunks: seq<Record>) returns (context: string)
    ensures context == Context(chunks)
  {
    var parts: seq<string> := [];
    for i := 0 to |chunks|
      invariant |parts| == i
      invariant forall k :: 0 <= k < i ==> parts[k] == DocumentBlock(k, chunks[k])
    {
      parts := parts + [DocumentBlock(i, chunks[i])];
    }
    assert parts == Blocks(chunks);
    context := Join(parts, "\n\n");
  }

  /** The `index` attribute of the `i`-th block is the decimal numeral of `i + 1`:
      digits only, so it cannot end the attribute early, and it reads back as `i + 1`. */
  lemma BlockNumbering(i: nat, r: Record)
    ensures exists d: string ::
      && DocumentBlock(i, r) == "<document index=\"" + d + "\" page_number=\"" + PageLabel(r) + "\">\n" + r.text + "\n</document>"
      && (forall j :: 0 <= j < |d| ==> IsDigit(d[j]))
      && DecimalValue(d) == i + 1
  {
    DecimalRoundTrip(i + 1);
    var d := NatToDecimal(i + 1);
    assert DocumentBlock(i, r) == "<document index=\"" + d + "\" page_number=\"" + PageLabel(r) + "\">\n" + r.text + "\n</document>";
  }

  /** The context holds the blocks in chunk order: the `i`-th block sits at its offset,
      and the next one starts two characters (the `"\n\n"`) after it ends. */
  lemma BlocksInOrder(chunks: seq<Record>, i: nat)
    requires i < |chunks|
    ensures var o := JoinOffset(Blocks(chunks), "\n\n", i);
      && o + |DocumentBlock(i, chunks[i])| <= |Context(chunks)|
      && Context(chunks)[o..o + |DocumentBlock(i, chunks[i])|] == DocumentBlock(i, chunks[i])
      && (i + 1 < |chunks| ==>
            JoinOffset(Blocks(chunks), "\n\n", i + 1) == o + |DocumentBlock(i, chunks[i])| + 2)
  {
    JoinPlacesParts(Blocks(chunks), "\n\n", i);
  }

  // ---------------------------------------------------------------------------
  // construct_prompt: the prompt

  const HumanTurn: string := "Human:"

  /** The role, the instructions and the two worked examples, up to the `<context>`
      tag inside `<task>`. */
  function Instructions(): string {
    @" 
<role>
당신은 'Bobcat T590' 건설 장비의 기술 매뉴얼을 분석하는 AI 전문가입니다. 당신의 임무는 주어진 <context> 문서 내용에만 근거하여 사용자의 질문에 답변하는 것입니다.
</role>

<instructions>
1. 제공된 <context>의 내용을 주의 깊게 분석합니다.
2. 사용자의 <question>을 이해하고, <context> 내에서만 답변의 근거를 찾습니다.
3. 답변은 명확하고 간결한 한국어로 작성하며, 필요시 글머리 기호를 사용해 가독성을 높입니다.
4. **매우 중요**: 답변의 마지막에는 반드시 근거가 된 문서의 페이지 번호를 `(출처: Page X)` 형식으로 포함해야 합니다. 여러 페이지를 참고한 경우 모두 표기합니다. (예: `(출처: Page 45, 48)`)
5. **매우 중요**: <context> 내용만으로 질문에 답변할 수 없는 경우, 절대로 외부 지식을 사용하지 말고, ""매뉴얼에서 관련 정보를 찾을 수 없습니다.""라고만 답변합니다. 출처는 표기하지 않습니다.
</instructions>

<examples>
---
<example index=""1"">
<context>
<document index=""1"" page_number=""52"">
안전 장비
운전자는 장비 작동 전 항상 다음 안전 장비를 확인해야 합니다.
- 좌석 벨트: 마모나 손상이 없는지 확인합니다.
- 시트 바: 정상적으로 내려오고 올라가는지 확인합니다.
- 운전실 (ROPS/FOPS): 구조적 손상이 없는지 확인합니다.
- 안전 표지판: 모든 데칼이 부착되어 있고 읽을 수 있는지 확인합니다.
</document>
</context>
<question>
T590 로더의 안전 장비 목록에는 무엇이 있나요?
</question>
<answer>
T590 로더에서 운전자가 확인해야 할 안전 장비 목록은 다음과 같습니다.
- 좌석 벨트
- 시트 바
- 운전실 (ROPS/FOPS)
- 안전 표지판 (데칼)
(출처: Page 52)
</answer>
</example>
---
<example index=""2"">
<context>
<document index=""1"" page_number=""78"">
엔진 오일 및 필터 사양
- 등급: API CJ-4
- 점도: SAE 10W-30
- 교체 주기: 500시간
</document>
</context>
<question>
이 장비의 재고는 언제쯤 다시 들어오나요?
</question>
<answer>
매뉴얼에서 관련 정보를 찾을 수 없습니다.
</answer>
</example>
---
</examples>

<task>
위의 역할, 지침, 예시를 엄격히 따라서 다음 실제 과업을 수행하세요.

"
  }

  const ContextOpen: string := "<context>\n"
  const ContextClose: string := "\n</context>\n\n<question>\n"
  const QuestionClose: string := "\n</question>\n</task>\n\n"
  const AssistantTurn: string := "Assistant:"

  /** The prompt for a question and a rendered context, around the given instructions
      (always `Instructions()` in the handler, see `PromptFor`). It opens the human turn, closes with
      the assistant turn, and holds the context and the question verbatim between
      their tags. */
  function Prompt(instructions: string, query: string, context: string): (p: string)
    ensures var c := |HumanTurn| + |instructions| + |ContextOpen|;
      var q := c + |context| + |ContextClose|;
      && |p| == q + |query| + |QuestionClose| + |AssistantTurn|
      && p[..|HumanTurn|] == HumanTurn
      && p[c - |ContextOpen|..c] == ContextOpen
      && p[c..c + |context|] == context
      && p[c + |context|..q] == ContextClose
      && p[q..q + |query|] == query
      && p[q + |query|..q + |query| + |QuestionClose|] == QuestionClose
      && p[|p| - |AssistantTurn|..] == AssistantTurn
  {
    HumanTurn + instructions + ContextOpen + context + ContextClose + query + QuestionClose + AssistantTurn
  }

  /** The prompt the handler sends: `Prompt` around the fixed instructions. */
  function PromptFor(query: string, context: string): string {
    Prompt(Instructions(), query, context)
  }

  /** `construct_prompt(query, context_chunks)` */
  method ConstructPrompt(query: string, chunks: seq<Record>) returns (prompt: string)
    ensures prompt == PromptFor(query, Context(chunks))
  {
    var context := RenderContext(chunks);
    prompt := PromptFor(query, context);
  }

  // ---------------------------------------------------------------------------
  // Server-sent events

  /** The JSON object a frame carries: `{"text": ...}` or `{"error": ...}`. */
  datatype Payload = TextPayload(text: string) | ErrorPayload(error: string)

  /** One server-sent event: `data: `, the encoded payload, and a blank line. */
  function Frame(encode: Payload -> string, p: Payload): (f: string)
    ensures |f| == 6 + |encode(p)| + 2
    ensures f[..6] == "data: " && f[6..|f| - 2] == encode(p) && f[|f| - 2..] == "\n\n"
  {
    "data: " + encode(p) + "\n\n"
  }

  function Frames(encode: Payload -> string, payloads: seq<Payload>): seq<string> {
    seq(|payloads|, k requires 0 <= k < |payloads| => Frame(encode, payloads[k]))
  }

  /** The `data:` line of each frame. */
  function DataLines(encode: Payload -> string, payloads: seq<Payload>): seq<string> {
    seq(|payloads|, k requires 0 <= k < |payloads| => "data: " + encode(payloads[k]))
  }

  /** A frame's `data:` line has a newline only where its payload's encoding has one. */
  lemma DataLineNoNewline(encode: Payload -> string, p: Payload)
    requires NoNewline(encode(p))
    ensures NoNewline("data: " + encode(p))
  {
    var line := "data: " + encode(p);
    forall i | 0 <= i < |line| ensures line[i] != '\n' {
      if i >= 6 { assert line[i] == encode(p)[i - 6]; }
    }
  }

  /** A client that splits the byte stream at blank lines gets back each frame's
      `data:` line, in order, then the empty remainder, provided the encoder never
      emits a newline (as `json.dumps` with its default escaping does not). */
  lemma {:induction false} FramesSplit(encode: Payload -> string, payloads: seq<Payload>)
    requires forall k :: 0 <= k < |payloads| ==> NoNewline(encode(payloads[k]))
    ensures SplitBlankLines(Concat(Frames(encode, payloads))) == DataLines(encode, payloads) + [""]
  {
    if payloads != [] {
      var line := "data: " + encode(payloads[0]);
      var rest := Concat(Frames(encode, payloads[1..]));
      FramesCons(encode, payloads);
      DataLineNoNewline(encode, payloads[0]);
      SplitAfterLine(line, rest);
      FramesSplit(encode, payloads[1..]);
    }
  }

  /** The stream is the first frame followed by the stream of the others, and likewise
      for the `data:` lines. */
  lemma FramesCons(encode: Payload -> string, payloads: seq<Payload>)
    requires payloads != []
    ensures Concat(Frames(encode, payloads))
      == "data: " + encode(payloads[0]) + "\n\n" + Concat(Frames(encode, payloads[1..]))
    ensures DataLines(encode, payloads) == ["data: " + encode(payloads[0])] + DataLines(encode, payloads[1..])
  {
    assert Frames(encode, payloads)[1..] == Frames(encode, payloads[1..]);
  }

  // ---------------------------------------------------------------------------
  // stream_response_from_bedrock

  /** What `invoke_model_with_response_stream` gives: the exception it raised, or the
      events of the response stream, each a completion or the exception raised while
      reading or decoding it. */
  type StreamResult = Result<seq<Result<string>>>

  /** What the consumer of a generator gets by running it to the end: the payloads of
      the frames yielded, in order, and the exception that ended it, if one did. */
  datatype Delivery = Delivery(payloads: seq<Payload>, raised: Option<string>)

  /** The loop over the events: one text payload per completion, until the first
      event that raises. */
  function EventPayloads(events: seq<Result<string>>): (d: Delivery)
    ensures |d.payloads| <= |events|
    ensures forall k :: 0 <= k < |d.payloads| ==>
      events[k].Success? && d.payloads[k] == TextPayload(events[k].value)
    ensures d.raised.None? ==> |d.payloads| == |events|
    ensures d.raised.Some? ==> |d.payloads| < |events| && events[|d.payloads|] == Failure(d.raised.value)
  {
    if events == [] then Delivery([], None)
    else if events[0].Failure? then Delivery([], Some(events[0].error))
    else
      var rest := EventPayloads(events[1..]);
      Delivery([TextPayload(events[0].value)] + rest.payloads, rest.raised)
  }

  /** The generator's whole run: the call that opens the stream, then the loop. */
  function StreamPayloads(stream: StreamResult): Delivery {
    if stream.Failure? then Delivery([], Some(stream.error)) else EventPayloads(stream.value)
  }

  /** Some step of the generation raised: opening the stream, or one of its events. */
  predicate StreamFails(stream: StreamResult) {
    stream.Failure? || exists k :: 0 <= k < |stream.value| && stream.value[k].Failure?
  }

  /** `stream_response_from_bedrock(prompt)` run to the end. `invoke` is
      `invoke_model_with_response_stream` with the prompt in its request body: the
      generator yields the frames of what the model returns for this prompt and lets
      out the exception that ends it. */
  method StreamResponse(encode: Payload -> string, invoke: string -> StreamResult, prompt: string)
    returns (frames: seq<string>, raised: Option<string>)
    ensures frames == Frames(encode, StreamPayloads(invoke(prompt)).payloads)
    ensures raised == StreamPayloads(invoke(prompt)).raised
  {
    var stream := invoke(prompt);
    if stream.Failure? {
      return [], Some(stream.error);
    }
    var events := stream.value;
    ghost var d := EventPayloads(events);
    frames := [];
    var i := 0;
    while i < |events|
      invariant 0 <= i <= |events|
      invariant forall k :: 0 <= k < i ==> events[k].Success?
      invariant |frames| == i
      invariant forall k :: 0 <= k < i ==> frames[k] == Frame(encode, TextPayload(events[k].value))
    {
      if events[i].Failure? {
        assert |d.payloads| == i;
        assert frames == Frames(encode, d.payloads);
        return frames, Some(events[i].error);
      }
      frames := frames + [Frame(encode, TextPayload(events[i].value))];
      i := i + 1;
    }
    assert frames == Frames(encode, d.payloads);
    raised := None;
  }

  // ---------------------------------------------------------------------------
  // lambda_handler

  /** `f"Error: {str(e)}"` */
  function ErrorText(e: string): string {
    "Error: " + e
  }

  const QueryMissingMessage: string := "Query not found in the request body."
  const NotFoundMessage: string := "문서에서 관련 정보를 찾을 수 없습니다."

  /** A call the handler makes to a remote service, in the order made. */
  datatype Call = EmbedCall(text: string) | SearchCall(body: SearchBody)

  /** What the handler returns: a plain response, a generator of fixed frames, or the
      model's stream for the prompt built from the question and the retrieved records
      (`ConstructPrompt(query, chunks)`). */
  datatype Outcome =
    | Response(statusCode: nat, message: string)
    | FixedFrames(payloads: seq<Payload>)
    | Generation(query: string, chunks: seq<Record>)

  /** `lambda_handler`. `request` is the parsed body's `query` (a failure when the body
      is not JSON); `embed` and `search` are `get_embedding` and the search call. */
  method HandleQuery(request: Result<Option<string>>, embed: string -> Result<Vector>,
                     search: SearchBody -> Result<seq<Hit>>)
    returns (outcome: Outcome, calls: seq<Call>)
    ensures request.Failure? ==>
      calls == [] && outcome == FixedFrames([ErrorPayload(ErrorText(request.error))])
    ensures request.Success? && (request.value.None? || request.value.value == []) ==>
      calls == [] && outcome == Response(400, QueryMissingMessage)
    ensures request.Success? && request.value.Some? && request.value.value != [] ==>
      var q := request.value.value;
      && |calls| >= 1 && calls[0] == EmbedCall(q)
      && (embed(q).Failure? ==>
            calls == [EmbedCall(q)] && outcome == FixedFrames([ErrorPayload(ErrorText(embed(q).error))]))
      && (embed(q).Success? ==>
            var body := SearchBodyFor(embed(q).value, DefaultTopK);
            && calls == [EmbedCall(q), SearchCall(body)]
            && (search(body).Failure? ==>
                  outcome == FixedFrames([ErrorPayload(ErrorText(search(body).error))]))
            && (search(body).Success? && search(body).value == [] ==>
                  outcome == FixedFrames([TextPayload(NotFoundMessage)]))
            && (search(body).Success? && search(body).value != [] ==>
                  outcome == Generation(q, HitSources(search(body).value))))
  {
    calls := [];
    if request.Failure? {
      return FixedFrames([ErrorPayload(ErrorText(request.error))]), calls;
    }
    if request.value.None? || request.value.value == [] {
      return Response(400, QueryMissingMessage), calls;
    }
    var query := request.value.value;
    calls := calls + [EmbedCall(query)];
    var embedding := embed(query);
    if embedding.Failure? {
      return FixedFrames([ErrorPayload(ErrorText(embedding.error))]), calls;
    }
    var body := SearchBodyFor(embedding.value, DefaultTopK);
    calls := calls + [SearchCall(body)];
    var response := search(body);
    if response.Failure? {
      return FixedFrames([ErrorPayload(ErrorText(response.error))]), calls;
    }
    var chunks := HitSources(response.value);
    if chunks == [] {
      return FixedFrames([TextPayload(NotFoundMessage)]), calls;
    }
    outcome := Generation(query, chunks);
  }

  // ---------------------------------------------------------------------------
  // What the client receives

  /** Text payloads only. */
  predicate AllText(ps: seq<Payload>) {
    forall k :: 0 <= k < |ps| ==> ps[k].TextPayload?
  }

  /** Text payloads, then exactly one error payload, last. */
  predicate TextsThenError(ps: seq<Payload>) {
    |ps| > 0 && ps[|ps| - 1].ErrorPayload? && AllText(ps[..|ps| - 1])
  }

  /** As written: the handler's `try` ends when it returns the generator, so iterating
      the model's stream runs outside it and an exception there escapes to the runtime.
      For a generation, `stream` is what the model returns for its prompt, as
      `Generate` states. */
  function Delivered(outcome: Outcome, stream: StreamResult): Delivery
    requires !outcome.Response?
  {
    if outcome.FixedFrames? then Delivery(outcome.payloads, None)
    else StreamPayloads(stream)
  }

  /** The generation branch of `lambda_handler` run by its consumer: the prompt is built
      from the question and the records, the model is invoked with it, and the
      generator is run to the end. */
  method Generate(encode: Payload -> string, invoke: string -> StreamResult, query: string, chunks: seq<Record>)
    returns (prompt: string, frames: seq<string>, raised: Option<string>)
    ensures prompt == PromptFor(query, Context(chunks))
    ensures frames == Frames(encode, StreamPayloads(invoke(prompt)).payloads)
    ensures raised == StreamPayloads(invoke(prompt)).raised
  {
    prompt := ConstructPrompt(query, chunks);
    frames, raised := StreamResponse(encode, invoke, prompt);
  }

  /** As written, a failing generation never produces an error frame: the client gets
      the text frames before the failure and the exception leaves the handler. */
  lemma UnguardedStreamLosesFailure(query: string, chunks: seq<Record>, stream: StreamResult)
    requires StreamFails(stream)
    ensures AllText(Delivered(Generation(query, chunks), stream).payloads)
    ensures Delivered(Generation(query, chunks), stream).raised.Some?
  {
    if stream.Success? {
      var k :| 0 <= k < |stream.value| && stream.value[k].Failure?;
      var d := EventPayloads(stream.value);
      assert k >= |d.payloads|;
    }
  }

  /** A model throttled after one completion: one text frame, no error frame. */
  lemma ThrottledStreamExample(query: string, chunks: seq<Record>)
    ensures var d := Delivered(Generation(query, chunks), Success([Success("Hello"), Failure("ThrottlingException")]));
      d.payloads == [TextPayload("Hello")] && d.raised == Some("ThrottlingException")
  {
    var events: seq<Result<string>> := [Success("Hello"), Failure("ThrottlingException")];
    assert events[1..] == [Failure("ThrottlingException")];
  }

  /** The handler's error reporting extended over the generation: an exception while
      streaming becomes one error frame after the frames already sent. */
  function Guarded(d: Delivery): (g: Delivery)
    ensures g.raised.None?
  {
    if d.raised.Some? then Delivery(d.payloads + [ErrorPayload(ErrorText(d.raised.value))], None) else d
  }

  /** `stream_response_from_bedrock` with its body inside the handler's `try`: the
      frames yielded before an exception, then the exception's error frame. */
  method StreamResponseGuarded(encode: Payload -> string, invoke: string -> StreamResult, prompt: string)
    returns (frames: seq<string>)
    ensures frames == Frames(encode, Guarded(StreamPayloads(invoke(prompt))).payloads)
  {
    var raised;
    frames, raised := StreamResponse(encode, invoke, prompt);
    if raised.Some? {
      ghost var d := StreamPayloads(invoke(prompt));
      frames := frames + [Frame(encode, ErrorPayload(ErrorText(raised.value)))];
      assert frames == Frames(encode, d.payloads + [ErrorPayload(ErrorText(raised.value))]);
    }
  }

  /** What the client receives with the error handling covering the generation. */
  function DeliveredGuarded(outcome: Outcome, stream: StreamResult): (d: Delivery)
    requires !outcome.Response?
    ensures d.raised.None?
  {
    if outcome.FixedFrames? then Delivery(outcome.payloads, None)
    else Guarded(StreamPayloads(stream))
  }

  /** With the guard, a generation never raises: when some step fails the client gets
      the completions before it, in order, then exactly one error frame; otherwise one
      text frame per completion, in order. */
  lemma GuardedStreamReportsFailure(query: string, chunks: seq<Record>, stream: StreamResult)
    ensures var d := DeliveredGuarded(Generation(query, chunks), stream);
      && (StreamFails(stream) ==> TextsThenError(d.payloads))
      && (StreamFails(stream) && stream.Success? ==>
            forall k :: 0 <= k < |d.payloads| - 1 ==> d.payloads[k] == TextPayload(stream.value[k].value))
      && (!StreamFails(stream) ==>
            && |d.payloads| == |stream.value|
            && forall k :: 0 <= k < |stream.value| ==> d.payloads[k] == TextPayload(stream.value[k].value))
  {
    var u := StreamPayloads(stream);
    if StreamFails(stream) {
      UnguardedStreamLosesFailure(query, chunks, stream);
      var d := DeliveredGuarded(Generation(query, chunks), stream);
      assert d.payloads[..|d.payloads| - 1] == u.payloads;
    }
  }
}
