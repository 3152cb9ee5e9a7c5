/** The `_source` document both lambdas share: the ingestion lambda writes it into
    the search index and the query lambda reads it back from the search hits. */
module IndexRecords {
  import opened Wrappers

  /** An embedding vector; its values are never inspected, only passed along. */
  type Vector = seq<real>

  /** A `page` value as JSON gives it: a string, a number, `true`/`false` or `null`. */
  datatype PageValue = PageText(text: string) | PageNumber(number: nat) | PageBool(flag: bool) | PageNull

  /** The `metadata` object. Each key may be absent. */
  datatype Metadata = Metadata(source: Option<string>, chunkId: Option<nat>, page: Option<PageValue>)

  /** The `_source` document: the chunk text, its metadata (the key may be absent) and
      its embedding. */
  datatype Record = Record(text: string, metadata: Option<Metadata>, embedding: Vector)
}
