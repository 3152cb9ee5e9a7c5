/** What the query lambda renders for records the ingestion lambda wrote. */
module IngestedPages {
  import opened Wrappers
  import opened IndexRecords
  import EmbeddingPipeline
  import QueryPipeline
  import Text

  /** A record with the metadata the ingestion lambda writes: a source key and a
      chunk id, never a page. */
  predicate Ingested(r: Record) {
    && r.metadata.Some?
    && r.metadata.value.source.Some?
    && r.metadata.value.chunkId.Some?
    && r.metadata.value.page.None?
  }

  /** Every record the indexing loop builds has that shape. */
  lemma ChunkActionIsIngested(indexName: string, objectKey: string, i: nat, chunk: string, vector: Vector)
    ensures Ingested(EmbeddingPipeline.ChunkAction(indexName, objectKey, i, chunk, vector).source)
  {
  }

  /** So every `<document>` block rendered from ingested records shows `page_number="N/A"`. */
  lemma IngestedBlocksShowNoPage(records: seq<Record>)
    requires forall k :: 0 <= k < |records| ==> Ingested(records[k])
    ensures forall k :: 0 <= k < |records| ==>
      QueryPipeline.Blocks(records)[k]
        == "<document index=\"" + Text.NatToDecimal(k + 1) + "\" page_number=\"N/A\">\n" + records[k].text + "\n</document>"
  {
  }
}
