# rag_chat text core, in Dafny

This project models the text-handling core of a retrieval-augmented chat backend for
an equipment manual. Three pieces are covered:

- **The header chunker** (`making_markdown.py`). It splits Markdown text at header
  lines: a line start, one to six `#`, then a space. The text before the first header
  becomes one chunk if it is not blank. Each header gives one chunk that runs to the
  next header. Every chunk is stripped and empty ones are dropped. A text with no
  header falls back to the paragraph chunker.
- **The ingestion lambda** (`lambda/embedding_pipeline.py`). The paragraph chunker
  splits at every `"\n\n"`, strips each piece and drops the blank ones. The indexing
  loop builds one bulk action per chunk, tagged with the object key and the chunk's
  position. The handler returns the status and message for each outcome.
- **The query lambda** (`lambda/query_pipeline.py`). It covers:
  - the k-NN search body and the hits' sources;
  - the `<document>` context and the prompt built around it;
  - the server-sent event frames and the streaming loop;
  - the handler's branches: a missing query, an error, no hits, and generation.

The Python string operations the code relies on are modelled from their definitions in
`Text`: `str.strip` with the `str.isspace` character set, `str.split("\n\n")`,
`str.count("\n\n")`, `str.join` and `str(n)`. The regular expression
`^(#){1,6} .*` under `re.MULTILINE` is an explicit scan, shown to agree with the
pattern read with backtracking. `re.finditer` is a scan that resumes at the end of each
matched line; a lemma shows that it finds every header position.

The embedding model, the search service and the bulk indexer are parameters: Dafny
functions returning a `Result`, where `Failure` carries the text of the exception the
call raised. The streaming model is the parameter `invoke`, a function from the prompt
to a `Result` whose `Success` holds the events of the response stream, each itself a
`Result`. The JSON encoder of a frame is the parameter `encode`, a function from a
payload to a string.

Modules:
- `Wrappers`: `Option` and `Result`.
- `Text`: the string operations above.
- `Paragraphs`: the paragraph chunker.
- `MarkdownChunker`: the header test, `finditer`, and the header chunker as a method with
  its loop.
- `HeaderSections`: what the header chunker guarantees about its slices and chunks.
- `IndexRecords`: the `_source` document both lambdas share.
- `EmbeddingPipeline`: the indexing loop and the ingestion handler.
- `QueryPipeline`: search, the prompt, the stream and the query handler.
- `IngestedPages`: how the query side renders records the ingestion side wrote.

Points where the code's behaviour is easy to misread, each modelled as the code does it:
- Errors are streamed to the client, as the comment at `lambda/query_pipeline.py:226`
  says: in the query handler an embedding or search failure gives one
  `{"error": ...}` frame, not an error status code.
- Ingestion does not skip a chunk that fails to embed. The loop at
  `lambda/embedding_pipeline.py:94-108` has no `try`, so the first failure aborts the
  run with status 500 and nothing is sent to the bulk indexer.
- The comment at `lambda/query_pipeline.py:73` builds the context with page numbers,
  but the record written at `lambda/embedding_pipeline.py:99-106` has no `page`. So the
  query side renders `"N/A"` for every record the ingestion side wrote.
- A comment at `making_markdown.py:21` gives the header pattern as `.+`. The code uses
  `.*`, so a header line may have an empty title.

## Model

| member | source | states |
|---|---|---|
| Text.LeadingSpace | lambda/embedding_pipeline.py:44 | the count of leading characters removed by `strip`: all of them are whitespace, and the next character is not |
| Text.TrailingSpace | lambda/embedding_pipeline.py:44 | the count of trailing characters removed by `strip`: all of them are whitespace, and the one before them is not |
| Text.StripLeft | lambda/embedding_pipeline.py:44 | `lstrip` leaves an empty string or one that starts with a non-whitespace character |
| Text.StripRight | lambda/embedding_pipeline.py:44 | `rstrip` leaves an empty string or one that ends with a non-whitespace character |
| Text.StripLeftDrops | lambda/embedding_pipeline.py:44 | `lstrip` drops exactly the leading whitespace run |
| Text.StripRightDrops | lambda/embedding_pipeline.py:44 | `rstrip` drops exactly the trailing whitespace run |
| Text.Strip | lambda/embedding_pipeline.py:44 | the result of `strip` neither starts nor ends with whitespace |
| Text.StripSlice | lambda/embedding_pipeline.py:44 | `s.strip()` is a slice `s[a:b]` whose prefix `s[:a]` and suffix `s[b:]` are blank |
| Text.StripEmptyIffBlank | lambda/embedding_pipeline.py:44 | `s.strip()` is empty if and only if `s` is all whitespace, and it is never longer than `s` |
| Text.StripUnique | lambda/embedding_pipeline.py:44 | any slice with blank surroundings and stripped ends is `s.strip()` |
| Text.StripIdempotent | lambda/embedding_pipeline.py:44 | stripping a stripped string changes nothing |
| Text.StripKeepsPrefix | making_markdown.py:49 | a string that starts with a non-whitespace character strips to a prefix of itself, and the rest is blank |
| Text.FirstBreakFrom | lambda/embedding_pipeline.py:43 | `s.find("\n\n", j)`: the first break at or after `j`, or the length when there is none |
| Text.BreakInSlice | lambda/embedding_pipeline.py:43 | a `"\n\n"` inside a slice is a `"\n\n"` of the whole string |
| Text.SplitBlankLines | lambda/embedding_pipeline.py:43 | `split("\n\n")` returns at least one piece |
| Text.SplitPiecesHaveNoBreak | lambda/embedding_pipeline.py:43 | no piece of `split("\n\n")` contains `"\n\n"` |
| Text.SplitJoin | lambda/embedding_pipeline.py:43 | `"\n\n".join(s.split("\n\n")) == s` |
| Text.CountSkip | lambda/embedding_pipeline.py:43 | skipping a stretch with no `"\n\n"` leaves `count("\n\n")` unchanged |
| Text.SplitCount | lambda/embedding_pipeline.py:43 | `len(s.split("\n\n")) == s.count("\n\n") + 1` |
| Text.SplitAfterLine | lambda/query_pipeline.py:176 | a line with no newline followed by `"\n\n"` splits off as the first piece, and the split continues on what follows |
| Text.JoinPlacesParts | lambda/query_pipeline.py:80 | in `sep.join(parts)` each part sits at its offset, and the next part starts `len(sep)` characters after it ends |
| Text.NonEmpty | making_markdown.py:52 | `[c for c in xs if c]` has no empty element and is no longer than `xs` |
| Text.NonEmptyMembers | making_markdown.py:52 | `x` is kept if and only if it is in `xs` and is not empty |
| Text.NonEmptyIsEmpty | making_markdown.py:52 | the filter gives `[]` if and only if every element is empty |
| Text.NonEmptyAppend | making_markdown.py:52 | filtering a concatenation concatenates the filtered parts |
| Text.NonEmptyKeepsAll | making_markdown.py:52 | a list with no empty element passes the filter unchanged |
| Text.KeepStrippedClean | lambda/embedding_pipeline.py:44 | every element of the stripped, filtered list is non-empty and stripped |
| Text.StripEachEmptyIffBlank | lambda/embedding_pipeline.py:44 | an element strips to empty if and only if it is blank |
| Text.StripEachAppend | making_markdown.py:40-50 | stripping a concatenation strips each part |
| Text.ConcatAppend | making_markdown.py:38-50 | `"".join` of a concatenation joins the parts' joins |
| Text.JoinBlank | lambda/embedding_pipeline.py:43 | blank parts joined by a blank separator give a blank string |
| Text.NatToDecimal | lambda/query_pipeline.py:78 | `str(n)` is a non-empty string of decimal digits with no leading zero |
| Text.DecimalRoundTrip | lambda/query_pipeline.py:78 | `int(str(n)) == n` |
| Paragraphs.ChunksAreClean | lambda/embedding_pipeline.py:43-44 | every chunk is non-empty, has no leading or trailing whitespace, and contains no `"\n\n"` |
| Paragraphs.ChunksAreStrippedPieces | lambda/embedding_pipeline.py:43-44 | a string is a chunk if and only if it is the stripped form of a non-blank piece of `split("\n\n")` |
| Paragraphs.ChunkIdempotent | lambda/embedding_pipeline.py:43-44 | chunking any chunk again gives exactly that chunk |
| Paragraphs.ChunkCount | lambda/embedding_pipeline.py:43 | there are at most `text.count("\n\n") + 1` chunks |
| Paragraphs.BlankTextBlankPieces | lambda/embedding_pipeline.py:43 | every piece of a blank text is blank |
| Paragraphs.NoChunksIffBlank | lambda/embedding_pipeline.py:44 | there are no chunks if and only if the text is all whitespace |
| MarkdownChunker.HashRun | making_markdown.py:23 | the length of the maximal run of `#` at a position |
| MarkdownChunker.HeaderIsPatternMatch | making_markdown.py:23-27 | the header test holds if and only if the position is a line start and some count of one to six `#` followed by a space matches there |
| MarkdownChunker.HashRunIs | making_markdown.py:23 | `n` hashes followed by a different character form a run of exactly `n` |
| MarkdownChunker.NonHeaderExamples | making_markdown.py:23-27 | `"####### x"`, `"#x"` and a `#` that is not at a line start are not headers |
| MarkdownChunker.HeaderExamples | making_markdown.py:23-27 | `"###### x"`, `"# "` with an empty title, and `## Setup` after a newline are headers |
| MarkdownChunker.IncreasingOrdered | making_markdown.py:27 | positions that increase step by step are ordered between any two indices |
| MarkdownChunker.HeadersFrom | making_markdown.py:27 | the header positions from `i` on are strictly increasing and lie in the text |
| MarkdownChunker.HeadersFromSound | making_markdown.py:27 | every listed position is a header |
| MarkdownChunker.HeadersFromComplete | making_markdown.py:27 | every header position at or after `i` is listed |
| MarkdownChunker.NoHeadersBetween | making_markdown.py:27 | a stretch with no header adds no position |
| MarkdownChunker.NoHeadersInLine | making_markdown.py:27 | positions inside a line, after its start, hold no header |
| MarkdownChunker.LineEnd | making_markdown.py:23 | the end of the line that `.*` consumes: the next newline, or the end of the text |
| MarkdownChunker.FindIterFindsAllHeaders | making_markdown.py:27 | `finditer`, resuming after each matched line, reports exactly the header positions, in order |
| MarkdownChunker.HeaderSlices | making_markdown.py:43-49 | one slice per header, from its start to the next header's start or the end of the text |
| MarkdownChunker.StrippedSectionsAreChunks | making_markdown.py:38-52 | the stripped prefix plus the stripped slices, once filtered, are the chunks, each non-empty and stripped |
| MarkdownChunker.AppendHeaderSections | making_markdown.py:43-50 | the loop appends exactly the stripped header slices, in order, to the list built so far |
| MarkdownChunker.ChunkMarkdown | making_markdown.py:15-52 | the method returns the specified chunks; with no header it returns the paragraph chunks; every chunk is non-empty and stripped |
| HeaderSections.NotHeaderBetween | making_markdown.py:47 | no header lies strictly between one header start and the next |
| HeaderSections.NotHeaderBefore | making_markdown.py:38 | no header lies before the first header start |
| HeaderSections.HashRunSlice | making_markdown.py:49 | a `#` run inside a slice is the text's run, cut at the slice's end |
| HeaderSections.HeaderInSlice | making_markdown.py:49 | a header of a slice is a header of the text, when the slice starts at a line start or the header is not at the slice's start |
| HeaderSections.HeaderLineInSlice | making_markdown.py:49 | a header of the text is a header of a slice that ends at a line end |
| HeaderSections.PrefixHasNoHeader | making_markdown.py:38-40 | the text before the first header contains no header |
| HeaderSections.SectionStartsWithHeader | making_markdown.py:44-49 | each header slice starts with a header |
| HeaderSections.SectionNoLaterHeader | making_markdown.py:44-49 | each header slice has no header after its start |
| HeaderSections.SectionHasOneHeader | making_markdown.py:43-49 | each header slice has exactly one header, at position 0 |
| HeaderSections.SectionChunkShape | making_markdown.py:49 | each header chunk is non-empty, starts with `#`, and has no header after its start |
| HeaderSections.SlicesCover | making_markdown.py:43-49 | the header slices from the `i`-th on concatenate to the text from that header to the end |
| HeaderSections.SectionsCover | making_markdown.py:38-50 | the prefix and the header slices concatenate back to the whole text, with nothing lost or repeated |
| HeaderSections.HeaderChunksShape | making_markdown.py:38-52 | the chunks are the stripped prefix when it is not blank, then exactly one chunk per header in order; their count is the header count plus one for a non-blank prefix |
| HeaderSections.HeaderChunksEmptyIffBlank | making_markdown.py:29-52 | there are no chunks if and only if the text is all whitespace |
| EmbeddingPipeline.ChunkAction | lambda/embedding_pipeline.py:97-107 | the action for chunk `i` targets the index and carries the chunk text, `source` set to the object key, `chunk_id` set to `i`, no page, and the vector |
| EmbeddingPipeline.BuildActions | lambda/embedding_pipeline.py:93-108 | the loop succeeds if and only if every embedding succeeds; then action `i` is the action for chunk `i`, in order; otherwise it fails with the first failing chunk's error |
| EmbeddingPipeline.HandleIngest | lambda/embedding_pipeline.py:75-132 | blank text gives 200 "No text extracted." and sends nothing; an embedding failure gives 500 with the error and sends nothing; otherwise one action per chunk is sent, and the reply is 200 with the indexed count, or 500 if the bulk call fails |
| EmbeddingPipeline.IndexedChunksAreClean | lambda/embedding_pipeline.py:93-108 | indexed texts are non-empty, stripped and free of `"\n\n"`; action `i` carries the object key as `source` and `i` as `chunk_id`, so no two actions share a chunk id |
| QueryPipeline.SearchBodyFor | lambda/query_pipeline.py:44-56 | both `size` and `k` equal `top_k`; the search is on the `embedding` field with the query vector; there is no filter |
| QueryPipeline.HitSources | lambda/query_pipeline.py:65 | one `_source` per hit, in hit order |
| QueryPipeline.PageLabel | lambda/query_pipeline.py:76-78 | `"N/A"` when `metadata` or `page` is missing; a text page as itself; a numeric page as digits that read back as its value; `true`/`false` as `True`/`False`; a `null` page as `None` |
| QueryPipeline.Blocks | lambda/query_pipeline.py:75-79 | one `<document>` block per chunk, in order |
| QueryPipeline.RenderContext | lambda/query_pipeline.py:74-80 | the loop and join produce the specified context |
| QueryPipeline.BlockNumbering | lambda/query_pipeline.py:78 | the `index` attribute of block `i` is a run of digits that reads back as `i + 1` |
| QueryPipeline.BlocksInOrder | lambda/query_pipeline.py:80 | each block sits in the context at its offset, and the next block starts two characters (`"\n\n"`) after it ends |
| QueryPipeline.Prompt | lambda/query_pipeline.py:83-153 | the prompt starts with `"Human:"`, ends with `"Assistant:"`, and holds the context and the question verbatim between their tags |
| QueryPipeline.ConstructPrompt | lambda/query_pipeline.py:67-155 | the method returns the prompt for the question and the rendered context |
| QueryPipeline.Frame | lambda/query_pipeline.py:176 | a frame is `"data: "`, then the encoded payload, then `"\n\n"` |
| QueryPipeline.DataLineNoNewline | lambda/query_pipeline.py:176 | a frame's data line has no newline when the payload's encoding has none |
| QueryPipeline.FramesSplit | lambda/query_pipeline.py:173-176 | splitting the concatenated frames at blank lines gives each frame's data line, in order, then an empty remainder |
| QueryPipeline.FramesCons | lambda/query_pipeline.py:173-176 | the stream is the first frame followed by the stream of the rest |
| QueryPipeline.EventPayloads | lambda/query_pipeline.py:173-176 | one text payload per event, in order, until the first event that raises; that event's error is the one raised |
| QueryPipeline.StreamResponse | lambda/query_pipeline.py:157-176 | the generator yields one frame per completion the model returns for the given prompt, in order, and raises the error of the opening call or of the first failing event |
| QueryPipeline.Generate | lambda/query_pipeline.py:213-219 | the generation branch sends the model exactly the prompt built from the question and the retrieved records, and yields the frames of the model's reply to that prompt |
| QueryPipeline.HandleQuery | lambda/query_pipeline.py:188-227 | see the list below the table |
| QueryPipeline.UnguardedStreamLosesFailure | lambda/query_pipeline.py:219-227 | as written, a failing generation yields only text frames and the exception escapes the handler |
| QueryPipeline.ThrottledStreamExample | lambda/query_pipeline.py:219-227 | a stream that fails after one completion yields one text frame and raises, with no error frame |
| QueryPipeline.Guarded | lambda/query_pipeline.py:221-227 | with the error handling applied, nothing is raised |
| QueryPipeline.DeliveredGuarded | lambda/query_pipeline.py:207-227 | what the client receives never raises |
| QueryPipeline.StreamResponseGuarded | lambda/query_pipeline.py:168-227 | the generator with the error handling inside it yields the frames of the model's reply to the prompt, then one error frame if a step raised, and raises nothing |
| QueryPipeline.GuardedStreamReportsFailure | lambda/query_pipeline.py:173-227 | a failing generation gives the completions before the failure, in order, then exactly one error frame; a successful one gives one text frame per completion, in order |
| IngestedPages.ChunkActionIsIngested | lambda/embedding_pipeline.py:101-104 | an indexed record has a source key and a chunk id, and no page |
| IngestedPages.IngestedBlocksShowNoPage | lambda/query_pipeline.py:76-78 | every block rendered from ingested records shows `page_number="N/A"` |

What `QueryPipeline.HandleQuery` states:
- A body that is not JSON gives one error frame, with no call made.
- A missing or empty query gives status 400 before any embedding or search call.
- An embedding failure gives one error frame, after the embedding call only.
- After a successful embedding, the search is made with three neighbours. A search
  failure gives one error frame.
- No hits give one frame with the fixed not-found message, and no generation.
- Hits give a generation for the question and the hits' sources.

## Left out

- Network and storage calls are not modelled; their results are parameters. These are
  Bedrock `invoke_model` and `invoke_model_with_response_stream`, the OpenSearch client,
  `bulk`, and S3 `get_object`.
- `pymupdf4llm.to_markdown` and `pdf_to_markdown` are left out. They are a foreign
  library and file access; the extracted Markdown is an input.
- JSON is not modelled. `json.loads` of the request body is the `request` parameter. The
  JSON encoder of a frame is the `encode` parameter. The JSON encoding of a reply
  `body` is left out: replies carry the message string itself.
- `urllib.parse.unquote_plus` of the object key, environment variables and client set-up
  are left out, as configuration.
- The sampling parameters `temperature`, `top_p` and `max_tokens_to_sample` are left out.
  They are fixed numbers passed to the model.
- Log output (`print`, `traceback`) is left out, including the logging of bulk items
  that `bulk` reports as failed.
- The `__main__` demonstration in `making_markdown.py` is left out. It reads a file and
  prints.
- The Streamlit UI, the template module and the test scripts are left out. No modelled
  code uses them.
- A request whose `query` is not a string is left out. So are a hit whose `metadata` is
  JSON `null` and a page that is a negative or fractional number.
- A hit whose `_source` has no `text` is left out: `Record.text` always exists. In the
  code, `chunk['text']` at `lambda/query_pipeline.py:78` then raises `KeyError` inside
  the handler's `try`, and the client gets one `{"error": ...}` frame instead of a
  generation.
- QueryPipeline.HandleQuery: its generation outcome carries the question and the
  retrieved records, not the prompt string. `QueryPipeline.Generate` builds the prompt
  from them with `QueryPipeline.ConstructPrompt` and invokes the model with it. The code
  builds the prompt inside the handler, and building it cannot fail, so the behaviour
  is the same.
- QueryPipeline.UnguardedStreamLosesFailure: this lemma and the other delivery lemmas
  hold for every model stream, so they take the stream itself. For a generation, that
  stream is `invoke(prompt)` for the prompt `QueryPipeline.Generate` states.
- QueryPipeline.Prompt: its layout lemma holds for any instructions text. The fixed
  instructions (`QueryPipeline.Instructions`) are copied verbatim but not analysed.
- QueryPipeline.StreamResponse: the generator is run to its end at once. How its frames
  interleave with the network over time is not modelled.

## Findings

| source | as written | input that shows it | evidently intended | confidence | as-written member | corrected member |
|---|---|---|---|---|---|---|
| lambda/query_pipeline.py:188-227 | `lambda_handler` returns the generator from `stream_response_from_bedrock`. That generator's body runs only when the runtime iterates it, outside the handler's `try`. So an exception from the streaming call or from a stream event is never turned into an `{"error": ...}` frame, and it escapes to the runtime. | the model stream yields one completion `"Hello"`, then raises `ThrottlingException` | the `except` branch's error frame for any failure: the frames sent so far, then exactly one `{"error": "Error: ..."}` frame | medium, not executed | QueryPipeline.UnguardedStreamLosesFailure | QueryPipeline.StreamResponseGuarded |
