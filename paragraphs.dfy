/** The paragraph chunker: `chunk_markdown` of the ingestion lambda, which the
    header chunker also falls back to when a text has no header line. It splits
    on every blank line `"\n\n"`, strips each piece and drops the blank ones. */
module Paragraphs {
  import opened Text

  /** `[c.strip() for c in text.split("\n\n") if c.strip()]`. */
  function ChunkMarkdown(text: string): seq<string> {
    KeepStripped(SplitBlankLines(text))
  }

  /** No chunk is empty, none has leading or trailing whitespace and none contains `"\n\n"`. */
  lemma {:induction false} ChunksAreClean(text: string)
    ensures forall k :: 0 <= k < |ChunkMarkdown(text)| ==>
      var c := ChunkMarkdown(text)[k];
      c != [] && IsStripped(c) && !HasBreak(c)
  {
    var pieces := SplitBlankLines(text);
    KeepStrippedClean(pieces);
    SplitPiecesHaveNoBreak(text);
    forall k | 0 <= k < |ChunkMarkdown(text)|
      ensures !HasBreak(ChunkMarkdown(text)[k])
    {
      var c := ChunkMarkdown(text)[k];
      NonEmptyMembers(StripEach(pieces), c);
      var j :| 0 <= j < |pieces| && StripEach(pieces)[j] == c;
      var a, b := StripSlice(pieces[j]);
      BreakInSlice(pieces[j], a, b);
    }
  }

  /** The chunks are exactly the stripped non-blank pieces between blank lines. */
  lemma {:induction false} ChunksAreStrippedPieces(text: string, c: string)
    ensures c in ChunkMarkdown(text) ==>
      exists j :: 0 <= j < |SplitBlankLines(text)| && !Blank(SplitBlankLines(text)[j])
                  && c == Strip(SplitBlankLines(text)[j])
    ensures (exists j :: 0 <= j < |SplitBlankLines(text)| && !Blank(SplitBlankLines(text)[j])
                  && c == Strip(SplitBlankLines(text)[j])) ==> c in ChunkMarkdown(text)
  {
    var pieces := SplitBlankLines(text);
    NonEmptyMembers(StripEach(pieces), c);
    StripEachEmptyIffBlank(pieces);
    if c in ChunkMarkdown(text) {
      var j :| 0 <= j < |pieces| && StripEach(pieces)[j] == c;
      assert !Blank(pieces[j]) && c == Strip(pieces[j]);
    } else {
      forall j | 0 <= j < |pieces| && c == Strip(pieces[j]) ensures Blank(pieces[j]) {
        assert c == StripEach(pieces)[j] && c in StripEach(pieces);
      }
    }
  }

  /** Chunking a chunk again gives that chunk alone. */
  lemma {:induction false} ChunkIdempotent(text: string, c: string)
    requires c in ChunkMarkdown(text)
    ensures ChunkMarkdown(c) == [c]
  {
    ChunksAreClean(text);
    var k :| 0 <= k < |ChunkMarkdown(text)| && ChunkMarkdown(text)[k] == c;
    assert !HasBreak(c);
    var i := FirstBreakFrom(c, 0);
    assert i == |c|;
    assert SplitBlankLines(c) == [c];
    ChunksAreStrippedPieces(text, c);
    var pieces := SplitBlankLines(text);
    var j :| 0 <= j < |pieces| && !Blank(pieces[j]) && c == Strip(pieces[j]);
    StripIdempotent(pieces[j]);
    assert StripEach([c]) == [c];
  }

  /** At most one chunk more than there are blank-line separators. */
  lemma {:induction false} ChunkCount(text: string)
    ensures |ChunkMarkdown(text)| <= CountBreaks(text) + 1
  {
    SplitCount(text);
  }

  /** Every piece between blank lines of a blank text is blank. */
  lemma {:induction false} BlankTextBlankPieces(text: string)
    requires Blank(text)
    ensures forall j :: 0 <= j < |SplitBlankLines(text)| ==> Blank(SplitBlankLines(text)[j])
  {
    var pieces := SplitBlankLines(text);
    SplitJoin(text);
    forall j | 0 <= j < |pieces| ensures Blank(pieces[j]) {
      JoinPlacesParts(pieces, "\n\n", j);
      var o := JoinOffset(pieces, "\n\n", j);
      var t := Join(pieces, "\n\n");
      forall i | 0 <= i < |pieces[j]| ensures IsSpace(pieces[j][i]) {
        assert pieces[j][i] == t[o..o + |pieces[j]|][i] == t[o + i];
      }
    }
  }

  /** No chunk at all exactly when the text is blank. */
  lemma {:induction false} NoChunksIffBlank(text: string)
    ensures ChunkMarkdown(text) == [] <==> Blank(text)
  {
    var pieces := SplitBlankLines(text);
    NonEmptyIsEmpty(StripEach(pieces));
    StripEachEmptyIffBlank(pieces);
    if Blank(text) {
      BlankTextBlankPieces(text);
    }
    if ChunkMarkdown(text) == [] {
      JoinBlank(pieces, "\n\n");
      SplitJoin(text);
    }
  }
}
