/** The header chunker of making_markdown.py (`chunk_markdown`). Header lines are
    found with the pattern `^(#){1,6} .*` under `re.MULTILINE`. A text without a
    header falls back to paragraph chunking. Otherwise the text before the first
    header is one chunk, and each header starts a chunk that runs up to the next
    header or the end of the text. Every chunk is stripped and blank ones are dropped. */
module MarkdownChunker {
  import opened Text
  import Paragraphs

  // ---------------------------------------------------------------------------
  // Header lines

  /** `^` under `re.MULTILINE`: the start of the text or just after a newline. */
  predicate IsLineStart(s: string, p: nat) {
    p == 0 || (p <= |s| && s[p - 1] == '\n')
  }

  /** Length of the run of `#` characters that starts at `p`. */
  function HashRun(s: string, p: nat): (n: nat)
    requires p <= |s|
    ensures p + n <= |s|
    ensures forall j :: p <= j < p + n ==> s[j] == '#'
    ensures p + n < |s| ==> s[p + n] != '#'
    decreases |s| - p
  {
    if p < |s| && s[p] == '#' then 1 + HashRun(s, p + 1) else 0
  }

  /** A header line starts at `p`: a line start, one to six `#`, then a space. The
      rest of the line may be empty, since the pattern ends in `.*`. */
  predicate IsHeaderAt(s: string, p: nat) {
    p < |s| && IsLineStart(s, p) &&
    var n := HashRun(s, p);
    1 <= n <= 6 && p + n < |s| && s[p + n] == ' '
  }

  /** `(#){1,6} ` matches at `p` taking exactly `k` of the `#`, as the regex engine
      may when it backtracks. */
  predicate PatternMatchesAt(s: string, p: nat, k: nat) {
    1 <= k <= 6 && p + k < |s| && (forall j :: p <= j < p + k ==> s[j] == '#') && s[p + k] == ' '
  }

  /** The header test agrees with the regular expression read with backtracking:
      some count of `#` from one to six followed by a space, at a line start. */
  lemma HeaderIsPatternMatch(s: string, p: nat)
    requires p < |s|
    ensures IsHeaderAt(s, p) <==> IsLineStart(s, p) && exists k :: PatternMatchesAt(s, p, k)
  {
    if IsLineStart(s, p) && exists k :: PatternMatchesAt(s, p, k) {
      var k :| PatternMatchesAt(s, p, k);
      var n := HashRun(s, p);
      if n < k { assert s[p + n] == '#'; }
      if n > k { assert s[p + k] == '#'; }
    }
    if IsHeaderAt(s, p) {
      assert PatternMatchesAt(s, p, HashRun(s, p));
    }
  }

  /** The `#` run at `p` is exactly `n` long when `n` hashes are followed by something else. */
  lemma {:induction false} HashRunIs(s: string, p: nat, n: nat)
    requires p + n <= |s|
    requires forall j :: p <= j < p + n ==> s[j] == '#'
    requires p + n == |s| || s[p + n] != '#'
    ensures HashRun(s, p) == n
    decreases n
  {
    if n > 0 { HashRunIs(s, p + 1, n - 1); }
  }

  /** Seven `#` or a `#` directly followed by text do not start a header. */
  lemma NonHeaderExamples()
    ensures !IsHeaderAt("####### x", 0)
    ensures !IsHeaderAt("#x", 0)
    ensures !IsHeaderAt(" # x", 1)
  {
    HashRunIs("####### x", 0, 7);
    HashRunIs("#x", 0, 1);
  }

  /** One to six `#` and a space start a header, even with an empty title. */
  lemma HeaderExamples()
    ensures IsHeaderAt("###### x", 0)
    ensures IsHeaderAt("# ", 0)
    ensures IsHeaderAt("intro\n## Setup", 6)
  {
    HashRunIs("###### x", 0, 6);
    HashRunIs("# ", 0, 1);
    HashRunIs("intro\n## Setup", 6, 2);
  }

  /** Each position lies below the next one. */
  predicate StrictlyIncreasing(xs: seq<nat>) {
    forall i :: 0 < i < |xs| ==> xs[i - 1] < xs[i]
  }

  /** A strictly increasing sequence is ordered between any two indices. */
  lemma {:induction false} IncreasingOrdered(xs: seq<nat>, i: nat, j: nat)
    requires StrictlyIncreasing(xs) && i < j < |xs|
    ensures xs[i] < xs[j]
    decreases j - i
  {
    if i + 1 < j { IncreasingOrdered(xs, i, j - 1); }
  }

  /** The header positions at or after `i`, in order. */
  function HeadersFrom(s: string, i: nat): (hs: seq<nat>)
    requires i <= |s|
    decreases |s| - i
    ensures StrictlyIncreasing(hs)
    ensures forall k :: 0 <= k < |hs| ==> i <= hs[k] < |s|
  {
    if i == |s| then []
    else
      var rest := HeadersFrom(s, i + 1);
      if IsHeaderAt(s, i) then
        assert StrictlyIncreasing([i] + rest) by {
          assert forall a :: 0 < a < |rest| + 1 ==> ([i] + rest)[a] == rest[a - 1];
        }
        [i] + rest
      else
        rest
  }

  /** Every reported position is a header position. */
  lemma {:induction false} HeadersFromSound(s: string, i: nat, k: nat)
    requires i <= |s| && k < |HeadersFrom(s, i)|
    ensures IsHeaderAt(s, HeadersFrom(s, i)[k])
    decreases |s| - i
  {
    if i < |s| {
      var rest := HeadersFrom(s, i + 1);
      if IsHeaderAt(s, i) {
        if k > 0 { HeadersFromSound(s, i + 1, k - 1); }
      } else {
        HeadersFromSound(s, i + 1, k);
      }
    }
  }

  /** No header position at or after `i` is missing. */
  lemma {:induction false} HeadersFromComplete(s: string, i: nat, p: nat)
    requires i <= |s| && i <= p
    ensures IsHeaderAt(s, p) ==> p in HeadersFrom(s, i)
    decreases |s| - i
  {
    if i < p && i < |s| { HeadersFromComplete(s, i + 1, p); }
  }

  /** Every header position of the text, in order. */
  function HeaderStarts(s: string): seq<nat> {
    HeadersFrom(s, 0)
  }

  /** A stretch without header positions contributes nothing. */
  lemma {:induction false} NoHeadersBetween(s: string, a: nat, b: nat)
    requires a <= b <= |s|
    requires forall p: nat :: a <= p < b ==> !IsHeaderAt(s, p)
    ensures HeadersFrom(s, a) == HeadersFrom(s, b)
    decreases b - a
  {
    if a < b { NoHeadersBetween(s, a + 1, b); }
  }

  /** Positions inside a line, away from its start, hold no header. */
  lemma {:induction false} NoHeadersInLine(s: string, a: nat, b: nat)
    requires 0 < a <= b <= |s|
    requires forall j :: a - 1 <= j < b - 1 ==> s[j] != '\n'
    ensures HeadersFrom(s, a) == HeadersFrom(s, b)
    decreases b - a
  {
    if a < b { NoHeadersInLine(s, a + 1, b); }
  }

  // ---------------------------------------------------------------------------
  // re.finditer

  /** End of the line holding `p`: the next newline, or the end of the text. */
  function LineEnd(s: string, p: nat): (e: nat)
    requires p <= |s|
    ensures p <= e <= |s|
    ensures forall j :: p <= j < e ==> s[j] != '\n'
    ensures e < |s| ==> s[e] == '\n'
    decreases |s| - p
  {
    if p == |s| || s[p] == '\n' then p else LineEnd(s, p + 1)
  }

  /** `re.finditer` from `pos`: try each position in turn; after a match at `p` the
      trailing `.*` has taken the rest of the line, so the search resumes at the
      line's end. */
  function FindIterFrom(s: string, pos: nat): seq<nat>
    requires pos <= |s|
    decreases |s| - pos
  {
    if pos == |s| then []
    else if IsHeaderAt(s, pos) then
      var e := LineEnd(s, pos);
      assert e != pos by { assert s[pos] == '#'; }
      [pos] + FindIterFrom(s, e)
    else FindIterFrom(s, pos + 1)
  }

  /** Resuming after each matched line loses no header: `finditer` reports every
      header position. */
  lemma {:induction false} FindIterFindsAllHeaders(s: string, pos: nat)
    requires pos <= |s|
    ensures FindIterFrom(s, pos) == HeadersFrom(s, pos)
    decreases |s| - pos
  {
    if pos < |s| {
      if IsHeaderAt(s, pos) {
        var e := LineEnd(s, pos);
        assert s[pos] == '#';
        NoHeadersInLine(s, pos + 1, e);
        FindIterFindsAllHeaders(s, e);
      } else {
        FindIterFindsAllHeaders(s, pos + 1);
      }
    }
  }

  // ---------------------------------------------------------------------------
  // The slices between headers

  /** Where the chunk of the `i`-th header ends: at the next header, or at the end
      of the text for the last one. */
  function NextStart(s: string, hs: seq<nat>, i: nat): nat
    requires i < |hs|
  {
    if i + 1 < |hs| then hs[i + 1] else |s|
  }

  predicate ValidStarts(s: string, hs: seq<nat>) {
    StrictlyIncreasing(hs) && forall k :: 0 <= k < |hs| ==> hs[k] < |s|
  }

  /** `text[header_start:next_chunk_start]` for each header from the `i`-th on. */
  function HeaderSlices(s: string, hs: seq<nat>, i: nat): (slices: seq<string>)
    requires ValidStarts(s, hs) && i <= |hs|
    decreases |hs| - i
    ensures |slices| == |hs| - i
    ensures forall k :: 0 <= k < |slices| ==> slices[k] == s[hs[i + k]..NextStart(s, hs, i + k)]
  {
    if i == |hs| then [] else [s[hs[i]..NextStart(s, hs, i)]] + HeaderSlices(s, hs, i + 1)
  }

  /** The slices the loop strips: the text before the first header when that header
      is not at position 0, then one slice per header. */
  function Sections(s: string): seq<string>
    requires HeaderStarts(s) != []
  {
    var hs := HeaderStarts(s);
    (if hs[0] > 0 then [s[..hs[0]]] else []) + HeaderSlices(s, hs, 0)
  }

  /** What `chunk_markdown` returns. */
  function HeaderChunks(s: string): seq<string> {
    if HeaderStarts(s) == [] then Paragraphs.ChunkMarkdown(s) else KeepStripped(Sections(s))
  }

  /** The stripped text before the first header, when that header is not at position 0. */
  function StrippedPrefix(text: string, hs: seq<nat>): seq<string>
    requires hs != [] && hs[0] <= |text|
  {
    if hs[0] > 0 then [Strip(text[..hs[0]])] else []
  }

  /** The list the loop builds, once its empty strings are dropped, is `HeaderChunks`. */
  lemma StrippedSectionsAreChunks(text: string, pre: seq<string>, stripped: seq<string>)
    requires HeaderStarts(text) != []
    requires pre == StrippedPrefix(text, HeaderStarts(text))
    requires stripped == pre + StripEach(HeaderSlices(text, HeaderStarts(text), 0))
    ensures NonEmpty(stripped) == HeaderChunks(text)
    ensures forall k :: 0 <= k < |NonEmpty(stripped)| ==> NonEmpty(stripped)[k] != [] && IsStripped(NonEmpty(stripped)[k])
  {
    var hs := HeaderStarts(text);
    StripEachAppend(if hs[0] > 0 then [text[..hs[0]]] else [], HeaderSlices(text, hs, 0));
    KeepStrippedClean(Sections(text));
  }

  /** The loop of `chunk_markdown`: append `text[header_start:next_chunk_start].strip()`
      for each header to the list built so far. */
  method AppendHeaderSections(text: string, headers: seq<nat>, stripped0: seq<string>) returns (stripped: seq<string>)
    requires ValidStarts(text, headers)
    ensures stripped == stripped0 + StripEach(HeaderSlices(text, headers, 0))
  {
    stripped := stripped0;
    ghost var slices := HeaderSlices(text, headers, 0);
    ghost var body: seq<string> := [];
    for i := 0 to |headers|
      invariant stripped == stripped0 + body
      invariant |body| == i
      invariant forall k :: 0 <= k < i ==> body[k] == Strip(slices[k])
    {
      var headerStart := headers[i];
      var nextChunkStart := if i + 1 < |headers| then headers[i + 1] else |text|;
      assert slices[i] == text[headerStart..nextChunkStart];
      stripped := stripped + [Strip(text[headerStart..nextChunkStart])];
      body := body + [Strip(slices[i])];
    }
    assert body == StripEach(slices);
  }

  /** `chunk_markdown(text)`: find the headers, then append the stripped prefix and
      one stripped slice per header, and drop the empty ones. */
  method ChunkMarkdown(text: string) returns (chunks: seq<string>)
    ensures chunks == HeaderChunks(text)
    ensures HeaderStarts(text) == [] ==> chunks == Paragraphs.ChunkMarkdown(text)
    ensures forall k :: 0 <= k < |chunks| ==> chunks[k] != [] && IsStripped(chunks[k])
  {
    var headers := FindIterFrom(text, 0);
    FindIterFindsAllHeaders(text, 0);
    if |headers| == 0 {
      chunks := Paragraphs.ChunkMarkdown(text);
      KeepStrippedClean(SplitBlankLines(text));
      return;
    }
    var stripped: seq<string> := [];
    var firstHeaderStart := headers[0];
    if firstHeaderStart > 0 {
      stripped := stripped + [Strip(text[..firstHeaderStart])];
    }
    ghost var pre := stripped;
    stripped := AppendHeaderSections(text, headers, stripped);
    StrippedSectionsAreChunks(text, pre, stripped);
    chunks := NonEmpty(stripped);
  }
}
