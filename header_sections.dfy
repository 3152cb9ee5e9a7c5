/** Properties of the header chunker: the sections cover the text, the text before
    the first header holds no header, each header section holds exactly its own
    header, and the chunks are the stripped sections in order. */
module HeaderSections {
  import opened Text
  import opened MarkdownChunker
  import Paragraphs

  // ---------------------------------------------------------------------------
  // Header positions of the whole text

  /** A position strictly between a header start and the next one is not a header. */
  lemma NotHeaderBetween(s: string, i: nat, x: nat)
    requires i < |HeaderStarts(s)|
    requires HeaderStarts(s)[i] < x < NextStart(s, HeaderStarts(s), i)
    ensures !IsHeaderAt(s, x)
  {
    var hs := HeaderStarts(s);
    HeadersFromComplete(s, 0, x);
    forall m | 0 <= m < |hs| ensures hs[m] != x {
      if m < i { IncreasingOrdered(hs, m, i); }
      else if m > i + 1 { IncreasingOrdered(hs, i + 1, m); }
    }
  }

  /** No position before the first header start is a header. */
  lemma NotHeaderBefore(s: string, x: nat)
    requires HeaderStarts(s) != [] && x < HeaderStarts(s)[0]
    ensures !IsHeaderAt(s, x)
  {
    var hs := HeaderStarts(s);
    HeadersFromComplete(s, 0, x);
    forall m | 0 < m < |hs| ensures hs[m] != x {
      IncreasingOrdered(hs, 0, m);
    }
  }

  // ---------------------------------------------------------------------------
  // Headers of a slice

  /** The `#` run inside the slice `s[a..b]` is the run of `s`, cut at the slice's end. */
  lemma {:induction false} HashRunSlice(s: string, a: nat, b: nat, p: nat)
    requires a <= b <= |s| && p <= b - a
    ensures HashRun(s[a..b], p) ==
      if HashRun(s, a + p) <= b - a - p then HashRun(s, a + p) else b - a - p
    decreases b - a - p
  {
    if p < b - a {
      assert s[a..b][p] == s[a + p];
      HashRunSlice(s, a, b, p + 1);
    }
  }

  /** A header of the slice `s[a..b]` is a header of `s`, provided the slice starts
      at a line start of `s` or the header is not at the slice's start. */
  lemma HeaderInSlice(s: string, a: nat, b: nat, p: nat)
    requires a <= b <= |s| && p < b - a
    requires p > 0 || IsLineStart(s, a)
    ensures IsHeaderAt(s[a..b], p) ==> IsHeaderAt(s, a + p)
  {
    HashRunSlice(s, a, b, p);
    if p > 0 { assert s[a..b][p - 1] == s[a + p - 1]; }
    var n := HashRun(s[a..b], p);
    if p + n < b - a { assert s[a..b][p + n] == s[a + p + n]; }
  }

  /** A header of `s` inside a slice that ends at the end of a line is a header of
      the slice: its `#` run and the space after it stay on its line. */
  lemma HeaderLineInSlice(s: string, a: nat, b: nat, p: nat)
    requires a <= b <= |s| && p < b - a
    requires b == |s| || s[b - 1] == '\n'
    ensures IsHeaderAt(s, a + p) ==> IsHeaderAt(s[a..b], p)
  {
    HashRunSlice(s, a, b, p);
    if p > 0 { assert s[a..b][p - 1] == s[a + p - 1]; }
    var n := HashRun(s, a + p);
    if IsHeaderAt(s, a + p) {
      assert forall j :: a + p <= j <= a + p + n ==> s[j] != '\n';
      assert a + p + n < b;
      assert s[a..b][p + n] == s[a + p + n];
    }
  }

  // ---------------------------------------------------------------------------
  // The sections

  /** The text before the first header holds no header. */
  lemma PrefixHasNoHeader(s: string)
    requires HeaderStarts(s) != []
    ensures HeaderStarts(s[..HeaderStarts(s)[0]]) == []
  {
    var h := HeaderStarts(s)[0];
    var t := s[..h];
    assert t == s[0..h];
    forall p: nat | 0 <= p < h ensures !IsHeaderAt(t, p) {
      HeaderInSlice(s, 0, h, p);
      NotHeaderBefore(s, p);
    }
    NoHeadersBetween(t, 0, |t|);
  }

  /** A header section starts with its header. */
  lemma SectionStartsWithHeader(s: string, i: nat)
    requires i < |HeaderStarts(s)|
    ensures var hs := HeaderStarts(s); IsHeaderAt(s[hs[i]..NextStart(s, hs, i)], 0)
  {
    var hs := HeaderStarts(s);
    HeadersFromSound(s, 0, i);
    if i + 1 < |hs| { HeadersFromSound(s, 0, i + 1); }
    HeaderLineInSlice(s, hs[i], NextStart(s, hs, i), 0);
  }

  /** A header section holds no header after its start. */
  lemma SectionNoLaterHeader(s: string, i: nat, p: nat)
    requires i < |HeaderStarts(s)|
    requires var hs := HeaderStarts(s); 0 < p < NextStart(s, hs, i) - hs[i]
    ensures var hs := HeaderStarts(s); !IsHeaderAt(s[hs[i]..NextStart(s, hs, i)], p)
  {
    var hs := HeaderStarts(s);
    HeaderInSlice(s, hs[i], NextStart(s, hs, i), p);
    NotHeaderBetween(s, i, hs[i] + p);
  }

  /** Each header section `text[header_start:next_chunk_start]` holds exactly one
      header, at its start. */
  lemma SectionHasOneHeader(s: string, i: nat)
    requires i < |HeaderStarts(s)|
    ensures var hs := HeaderStarts(s);
      HeaderStarts(s[hs[i]..NextStart(s, hs, i)]) == [0]
  {
    var hs := HeaderStarts(s);
    var t := s[hs[i]..NextStart(s, hs, i)];
    SectionStartsWithHeader(s, i);
    forall p: nat | 1 <= p < |t| ensures !IsHeaderAt(t, p) {
      SectionNoLaterHeader(s, i, p);
    }
    NoHeadersBetween(t, 1, |t|);
  }

  /** The chunk of a header section starts with `#` and holds no other header. */
  lemma SectionChunkShape(s: string, i: nat)
    requires i < |HeaderStarts(s)|
    ensures var hs := HeaderStarts(s); var c := Strip(s[hs[i]..NextStart(s, hs, i)]);
      c != [] && c[0] == '#' && forall p :: 0 < p < |c| ==> !IsHeaderAt(c, p)
  {
    var hs := HeaderStarts(s);
    var t := s[hs[i]..NextStart(s, hs, i)];
    SectionHasOneHeader(s, i);
    HeadersFromSound(t, 0, 0);
    StripEmptyIffBlank(t);
    var b := StripKeepsPrefix(t);
    assert t[..b] == t[0..b];
    forall p | 0 < p < b ensures !IsHeaderAt(t[..b], p) {
      HeaderInSlice(t, 0, b, p);
      HeadersFromComplete(t, 0, p);
    }
  }

  /** Concatenating the header sections from the `i`-th on gives the text from that
      header to the end. */
  lemma {:induction false} SlicesCover(s: string, hs: seq<nat>, i: nat)
    requires ValidStarts(s, hs) && i < |hs|
    ensures Concat(HeaderSlices(s, hs, i)) == s[hs[i]..]
    decreases |hs| - i
  {
    var first := s[hs[i]..NextStart(s, hs, i)];
    var rest := HeaderSlices(s, hs, i + 1);
    assert HeaderSlices(s, hs, i) == [first] + rest;
    assert ([first] + rest)[1..] == rest;
    if i + 1 < |hs| {
      SlicesCover(s, hs, i + 1);
      assert s[hs[i]..] == first + s[hs[i + 1]..];
    } else {
      assert s[hs[i]..] == first;
    }
  }

  /** The sections, concatenated, give the text back: nothing is lost or repeated. */
  lemma SectionsCover(s: string)
    requires HeaderStarts(s) != []
    ensures Concat(Sections(s)) == s
  {
    var hs := HeaderStarts(s);
    SlicesCover(s, hs, 0);
    var prefix := if hs[0] > 0 then [s[..hs[0]]] else [];
    ConcatAppend(prefix, HeaderSlices(s, hs, 0));
    assert s == s[..hs[0]] + s[hs[0]..];
    if hs[0] > 0 { assert prefix[1..] == []; }
  }

  // ---------------------------------------------------------------------------
  // The chunks

  /** The chunks are the stripped text before the first header, when it is not
      blank, followed by exactly one chunk per header, in order. */
  lemma HeaderChunksShape(s: string)
    requires HeaderStarts(s) != []
    ensures var hs := HeaderStarts(s);
      HeaderChunks(s) == NonEmpty(StrippedPrefix(s, hs)) + StripEach(HeaderSlices(s, hs, 0))
    ensures var hs := HeaderStarts(s);
      |HeaderChunks(s)| == |hs| + if hs[0] > 0 && !Blank(s[..hs[0]]) then 1 else 0
  {
    var hs := HeaderStarts(s);
    var slices := HeaderSlices(s, hs, 0);
    var prefix := if hs[0] > 0 then [s[..hs[0]]] else [];
    StripEachAppend(prefix, slices);
    NonEmptyAppend(StripEach(prefix), StripEach(slices));
    forall i | 0 <= i < |slices| ensures StripEach(slices)[i] != [] {
      SectionChunkShape(s, i);
    }
    NonEmptyKeepsAll(StripEach(slices));
    if hs[0] > 0 { StripEmptyIffBlank(s[..hs[0]]); }
    assert StripEach(prefix) == StrippedPrefix(s, hs);
  }

  /** No chunk at all exactly when the text is blank. */
  lemma HeaderChunksEmptyIffBlank(s: string)
    ensures HeaderChunks(s) == [] <==> Blank(s)
  {
    if HeaderStarts(s) == [] {
      Paragraphs.NoChunksIffBlank(s);
    } else {
      HeaderChunksShape(s);
      HeadersFromSound(s, 0, 0);
    }
  }
}
