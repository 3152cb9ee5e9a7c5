/** The ingestion lambda (lambda/embedding_pipeline.py): the text extracted from an
    uploaded PDF is cut into paragraph chunks, each chunk is embedded, and one index
    action per chunk is handed to the bulk indexer. The object download, the PDF
    conversion, the embedding model and the bulk call are parameters. */
module EmbeddingPipeline {
  import opened Wrappers
  import opened Text
  import opened IndexRecords
  import Paragraphs

  /** One bulk-index action: `{"_index": ..., "_source": ...}`. */
  datatype Action = Action(index: string, source: Record)

  /** The action for the `i`-th chunk: its text, the object key as `source`, its
      position as `chunk_id`, no `page`, and its vector. */
  function ChunkAction(indexName: string, objectKey: string, i: nat, chunk: string, vector: Vector): (a: Action)
    ensures a.index == indexName && a.source.text == chunk && a.source.embedding == vector
    ensures a.source.metadata == Some(Metadata(Some(objectKey), Some(i), None))
  {
    Action(indexName, Record(chunk, Some(Metadata(Some(objectKey), Some(i), None)), vector))
  }

  /** The loop that fills `actions`: embed each chunk in order and append its action.
      The first embedding failure aborts the loop with that failure. */
  method BuildActions(indexName: string, objectKey: string, chunks: seq<string>, embed: string -> Result<Vector>)
    returns (r: Result<seq<Action>>)
    ensures r.Success? <==> forall i :: 0 <= i < |chunks| ==> embed(chunks[i]).Success?
    ensures r.Success? ==>
      && |r.value| == |chunks|
      && forall i :: 0 <= i < |chunks| ==>
           r.value[i] == ChunkAction(indexName, objectKey, i, chunks[i], embed(chunks[i]).value)
    ensures r.Failure? ==>
      exists j :: 0 <= j < |chunks| && embed(chunks[j]).Failure? && r.error == embed(chunks[j]).error
                  && forall i :: 0 <= i < j ==> embed(chunks[i]).Success?
  {
    var actions: seq<Action> := [];
    for i := 0 to |chunks|
      invariant |actions| == i
      invariant forall k :: 0 <= k < i ==> embed(chunks[k]).Success?
      invariant forall k :: 0 <= k < i ==>
        actions[k] == ChunkAction(indexName, objectKey, k, chunks[k], embed(chunks[k]).value)
    {
      var vector := embed(chunks[i]);
      if vector.Failure? {
        return Failure(vector.error);
      }
      actions := actions + [ChunkAction(indexName, objectKey, i, chunks[i], vector.value)];
    }
    return Success(actions);
  }

  /** The handler's reply: `statusCode` and the message that `body` carries. */
  datatype Reply = Reply(statusCode: nat, message: string)

  const NoTextMessage: string := "No text extracted."

  /** `f'Successfully processed and indexed {success} chunks from {object_key}.'` */
  function IndexedMessage(success: nat, objectKey: string): string {
    "Successfully processed and indexed " + NatToDecimal(success) + " chunks from " + objectKey + "."
  }

  /** `f'Error processing file: {str(e)}'` */
  function ProcessingError(error: string): string {
    "Error processing file: " + error
  }

  /** The body of `lambda_handler` after the object key is known. `markdown` is the
      downloaded and converted text, or the error either step raised; `bulk` indexes
      the actions and returns the success count, or the error it raised. `sent` is
      what was handed to `bulk` (empty when it was not called). */
  method HandleIngest(indexName: string, objectKey: string, markdown: Result<string>,
                      embed: string -> Result<Vector>, bulk: seq<Action> -> Result<nat>)
    returns (reply: Reply, sent: seq<Action>)
    ensures markdown.Failure? ==> reply == Reply(500, ProcessingError(markdown.error)) && sent == []
    ensures markdown.Success? && Blank(markdown.value) ==> reply == Reply(200, NoTextMessage) && sent == []
    ensures markdown.Success? && !Blank(markdown.value) ==>
      var chunks := Paragraphs.ChunkMarkdown(markdown.value);
      if exists j :: 0 <= j < |chunks| && embed(chunks[j]).Failure? then
        sent == [] && reply.statusCode == 500 &&
        exists j :: 0 <= j < |chunks| && embed(chunks[j]).Failure?
                    && (forall i :: 0 <= i < j ==> embed(chunks[i]).Success?)
                    && reply.message == ProcessingError(embed(chunks[j]).error)
      else
        |sent| == |chunks| > 0 &&
        (forall i :: 0 <= i < |chunks| ==> sent[i] == ChunkAction(indexName, objectKey, i, chunks[i], embed(chunks[i]).value)) &&
        reply == (if bulk(sent).Success? then Reply(200, IndexedMessage(bulk(sent).value, objectKey))
                  else Reply(500, ProcessingError(bulk(sent).error)))
  {
    sent := [];
    if markdown.Failure? {
      return Reply(500, ProcessingError(markdown.error)), [];
    }
    var text := markdown.value;
    if Strip(text) == [] {
      StripEmptyIffBlank(text);
      return Reply(200, NoTextMessage), [];
    }
    StripEmptyIffBlank(text);
    var chunks := Paragraphs.ChunkMarkdown(text);
    Paragraphs.NoChunksIffBlank(text);
    var actions := BuildActions(indexName, objectKey, chunks, embed);
    if actions.Failure? {
      return Reply(500, ProcessingError(actions.error)), [];
    }
    sent := actions.value;
    var indexed := bulk(sent);
    if indexed.Failure? {
      return Reply(500, ProcessingError(indexed.error)), sent;
    }
    reply := Reply(200, IndexedMessage(indexed.value, objectKey));
  }

  /** Every indexed text is a clean paragraph chunk, and action `i` carries the object
      key and `chunk_id` `i`, so no two actions of one file share a `chunk_id`. */
  lemma IndexedChunksAreClean(text: string, indexName: string, objectKey: string,
                              embed: string -> Result<Vector>, actions: seq<Action>)
    requires |actions| == |Paragraphs.ChunkMarkdown(text)|
    requires forall i :: 0 <= i < |actions| ==> embed(Paragraphs.ChunkMarkdown(text)[i]).Success?
    requires forall i :: 0 <= i < |actions| ==>
      actions[i] == ChunkAction(indexName, objectKey, i, Paragraphs.ChunkMarkdown(text)[i],
                                embed(Paragraphs.ChunkMarkdown(text)[i]).value)
    ensures forall i :: 0 <= i < |actions| ==>
      var t := actions[i].source.text; t != [] && IsStripped(t) && !HasBreak(t)
    ensures forall i :: 0 <= i < |actions| ==>
      actions[i].source.metadata.Some? && actions[i].source.metadata.value.chunkId == Some(i)
      && actions[i].source.metadata.value.source == Some(objectKey)
    ensures forall i, j :: 0 <= i < j < |actions| ==>
      actions[i].source.metadata.value.chunkId != actions[j].source.metadata.value.chunkId
  {
    Paragraphs.ChunksAreClean(text);
  }
}
