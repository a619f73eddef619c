/** Blank-line paragraphs, oversized ones split further (ai-service/app/services/chunking/paragraph_chunker.py). */
module ParagraphChunker {
  import opened Text
  import opened BaseChunker

  const SENTENCE_SEPARATORS: seq<string> :=
    ["\n", "\U{3002}", "\U{FF01}", "\U{FF1F}", "\U{FF1B}", "\U{FF0C}", " ", ""]

  /** A match of the blank-line pattern: two line breaks with only white space between them. */
  predicate IsBlank(text: string, i: nat, j: nat) {
    i + 2 <= j <= |text| && text[i] == '\n' && text[j - 1] == '\n' && AllSpace(text[i..j])
  }

  /** The end of the longest match starting at `i`, given white space from `i` to `k` and `best` among the ends up to
      `k`. */
  function LongestFrom(text: string, i: nat, k: nat, best: nat): (j: nat)
    requires i < k <= |text| && text[i] == '\n' && AllSpace(text[i..k])
    requires best == 0 || (best <= k && IsBlank(text, i, best))
    requires forall e: nat :: IsBlank(text, i, e) && e <= k ==> e <= best
    ensures j == 0 || IsBlank(text, i, j)
    ensures forall e: nat :: IsBlank(text, i, e) ==> e <= j
    decreases |text| - k
  {
    if k == |text| || !IsSpace(text[k]) then
      assert forall e: nat :: IsBlank(text, i, e) && e > k ==> text[i..e][k - i] == text[k];
      best
    else
      assert AllSpace(text[i..k + 1]) by {
        assert text[i..k + 1] == text[i..k] + [text[k]];
      }
      LongestFrom(text, i, k + 1, if text[k] == '\n' then k + 1 else best)
  }

  /** The leftmost longest match at or after `from`, as a regular expression search finds it. */
  function NextBlank(text: string, from: nat): (m: Option<(nat, nat)>)
    requires from <= |text|
    ensures m.Some? ==> from <= m.value.0 && IsBlank(text, m.value.0, m.value.1)
    ensures m.Some? ==> forall e: nat :: IsBlank(text, m.value.0, e) ==> e <= m.value.1
    ensures forall i, e: nat :: from <= i && IsBlank(text, i, e) ==> m.Some? && m.value.0 <= i
    decreases |text| - from
  {
    if from == |text| then None
    else
      var j := if text[from] == '\n' then LongestFrom(text, from, from + 1, 0) else 0;
      if j > 0 then Some((from, j)) else NextBlank(text, from + 1)
  }

  /** The slice from `cursor` to `stop` as a paragraph, unless it is blank. */
  function Paragraph(text: string, cursor: nat, stop: nat): (ps: seq<Piece>)
    requires cursor <= stop <= |text|
    ensures |ps| <= 1 && forall p :: p in ps ==> p == Piece(text[cursor..stop], cursor, stop) && cursor < stop
    ensures ps == [] <==> AllSpace(text[cursor..stop])
  {
    StripEmpty(text[cursor..stop]);
    if Strip(text[cursor..stop]) == "" then [] else [Piece(text[cursor..stop], cursor, stop)]
  }

  /** The paragraphs of `text` from `cursor` on: what lies between blank-line matches and is not blank itself. */
  ghost function Paragraphs(text: string, cursor: nat): (ps: seq<Piece>)
    requires cursor <= |text|
    decreases |text| - cursor
  {
    match NextBlank(text, cursor)
    case None => Paragraph(text, cursor, |text|)
    case Some((i, j)) => Paragraph(text, cursor, i) + Paragraphs(text, j)
  }

  /** Paragraphs are slices of the text. */
  lemma {:induction false} ParagraphAt(text: string, cursor: nat, p: Piece)
    requires cursor <= |text| && p in Paragraphs(text, cursor)
    ensures cursor <= p.start < p.end <= |text| && p.text == text[p.start..p.end]
    decreases |text| - cursor
  {
    match NextBlank(text, cursor)
    case None =>
    case Some((i, j)) =>
      if p in Paragraphs(text, j) {
        ParagraphAt(text, j, p);
      }
  }

  /** Distinct paragraphs are at least a blank line apart. */
  lemma {:induction false} ParagraphsApart(text: string, cursor: nat, j: nat, k: nat)
    requires cursor <= |text| && j < k < |Paragraphs(text, cursor)|
    ensures Paragraphs(text, cursor)[j].end + 2 <= Paragraphs(text, cursor)[k].start
    decreases |text| - cursor
  {
    match NextBlank(text, cursor)
    case Some((i, e)) =>
      var first := |Paragraph(text, cursor, i)|;
      ParagraphAt(text, e, Paragraphs(text, e)[k - first]);
      if j >= first {
        ParagraphsApart(text, e, j - first, k - first);
      } else {
        assert Paragraphs(text, cursor)[j] == Paragraph(text, cursor, i)[j];
      }
  }

  /** What lies outside every paragraph is white space. */
  lemma {:induction false} OutsideIsSpace(text: string, cursor: nat, pos: nat)
    requires cursor <= pos < |text|
    requires forall p :: p in Paragraphs(text, cursor) ==> !(p.start <= pos < p.end)
    ensures IsSpace(text[pos])
    decreases |text| - cursor
  {
    match NextBlank(text, cursor)
    case None =>
      SpaceInside(text, cursor, |text|, pos);
    case Some((i, j)) =>
      if pos < i {
        SpaceInside(text, cursor, i, pos);
      } else if pos < j {
        assert text[i..j][pos - i] == text[pos];
      } else {
        OutsideIsSpace(text, j, pos);
      }
  }

  /** No paragraph contains a match of the blank-line pattern. */
  lemma {:induction false} NoBlankInParagraph(text: string, cursor: nat, p: Piece, a: nat, b: nat)
    requires cursor <= |text| && p in Paragraphs(text, cursor) && p.start <= a && IsBlank(text, a, b)
    ensures p.end < b
    decreases |text| - cursor
  {
    match NextBlank(text, cursor)
    case None => ParagraphAt(text, cursor, p);
    case Some((i, j)) =>
      ParagraphAt(text, cursor, p);
      if p in Paragraphs(text, j) {
        NoBlankInParagraph(text, j, p, a, b);
      }
  }

  /** Two characters that are not white space stand in one paragraph, unless a blank line separates them. */
  lemma {:induction false} SameParagraph(text: string, cursor: nat, x: nat, y: nat) returns (p: Piece)
    requires cursor <= x <= y < |text| && !IsSpace(text[x]) && !IsSpace(text[y])
    requires forall a, b :: x < a < b <= y ==> !IsBlank(text, a, b)
    ensures p in Paragraphs(text, cursor) && p.start <= x && y < p.end
    decreases |text| - cursor
  {
    match NextBlank(text, cursor)
    case None =>
      p := TheParagraph(text, cursor, |text|, x);
    case Some((i, j)) =>
      NotBlank(text, i, j, x);
      NotBlank(text, i, j, y);
      if x < i {
        assert y < i;
        p := TheParagraph(text, cursor, i, x);
      } else {
        p := SameParagraph(text, j, x, y);
      }
  }

  lemma NotBlank(text: string, i: nat, j: nat, x: nat)
    requires IsBlank(text, i, j) && x < |text| && !IsSpace(text[x])
    ensures x < i || j <= x
  {
    forall k | i <= k < j ensures IsSpace(text[k]) {
      assert text[i..j][k - i] == text[k];
    }
  }

  lemma TheParagraph(text: string, cursor: nat, stop: nat, x: nat) returns (p: Piece)
    requires cursor <= x < stop <= |text| && !IsSpace(text[x])
    ensures p in Paragraph(text, cursor, stop) && p.start == cursor && p.end == stop
  {
    p := Piece(text[cursor..stop], cursor, stop);
    assert text[cursor..stop][x - cursor] == text[x];
    assert Paragraph(text, cursor, stop)[0] == p;
  }

  lemma SpaceInside(text: string, cursor: nat, stop: nat, pos: nat)
    requires cursor <= pos < stop <= |text|
    requires forall p :: p in Paragraph(text, cursor, stop) ==> !(p.start <= pos < p.end)
    ensures IsSpace(text[pos])
  {
    assert text[cursor..stop][pos - cursor] == text[pos];
    assert forall p :: p in Paragraph(text, cursor, stop) ==> p.start <= pos < p.end;
  }

  lemma {:induction false} NextParagraph(text: string, cursor: nat, raw: seq<Piece>)
    requires cursor <= |text| && NextBlank(text, cursor).Some?
    ensures var (i, j) := NextBlank(text, cursor).value;
            raw + Paragraphs(text, cursor) == (raw + Paragraph(text, cursor, i)) + Paragraphs(text, j)
  {
    var (i, j) := NextBlank(text, cursor).value;
    AppendAssoc(raw, Paragraph(text, cursor, i), Paragraphs(text, j));
  }

  /** The first loop: collect the paragraphs. */
  method FindParagraphs(text: string) returns (raw: seq<Piece>)
    ensures raw == Paragraphs(text, 0)
  {
    raw := [];
    var cursor := 0;
    var m := NextBlank(text, cursor);
    while m.Some?
      invariant 0 <= cursor <= |text| && m == NextBlank(text, cursor)
      invariant raw + Paragraphs(text, cursor) == Paragraphs(text, 0)
      decreases |text| - cursor
    {
      var (start, end) := m.value;
      NextParagraph(text, cursor, raw);
      raw := raw + Paragraph(text, cursor, start);
      cursor := end;
      m := NextBlank(text, cursor);
    }
    raw := raw + Paragraph(text, cursor, |text|);
  }

  /** Slices of `text`, in order and a blank line apart, as the paragraphs are. */
  ghost predicate Apart(paras: seq<Piece>, text: string) {
    && (forall k :: 0 <= k < |paras| ==> Slice(paras[k], text))
    && (forall j, k :: 0 <= j < k < |paras| ==> paras[j].end + 2 <= paras[k].start)
  }

  ghost predicate Slice(p: Piece, text: string) {
    0 <= p.start < p.end <= |text| && p.text == text[p.start..p.end]
  }

  lemma ParagraphsAreApart(text: string)
    ensures Apart(Paragraphs(text, 0), text)
  {
    var ps := Paragraphs(text, 0);
    forall k | 0 <= k < |ps| ensures Slice(ps[k], text) {
      ParagraphAt(text, 0, ps[k]);
    }
    forall j, k | 0 <= j < k < |ps| ensures ps[j].end + 2 <= ps[k].start {
      ParagraphsApart(text, 0, j, k);
    }
  }

  /** `piece` lies in paragraph `p` and starts where the sentence separators allow. */
  ghost predicate InParagraph(c: Chunker, p: Piece, piece: Piece) {
    && p.start <= piece.start && piece.end <= p.end
    && (piece.start == p.start
        || c.MayCut(p.text, p.start, ["\n", "\U{3002}", "\U{FF01}", "\U{FF1F}", "\U{FF1B}", "\U{FF0C}", " ", ""],
               piece.start))
  }

  ghost predicate Within(c: Chunker, paras: seq<Piece>, n: nat, piece: Piece)
    requires n <= |paras|
  {
    exists k :: 0 <= k < n && InParagraph(c, paras[k], piece)
  }

  ghost predicate Covers(pieces: seq<Piece>, pos: int) {
    exists i :: 0 <= i < |pieces| && pieces[i].start <= pos < pieces[i].end
  }

  ghost predicate CoversParagraph(c: Chunker, pieces: seq<Piece>, p: Piece) {
    && (forall pos :: p.start <= pos < p.end ==> Covers(pieces, pos))
    && (c.Fits(p.text) ==> p in pieces)
  }

  /** The pieces are ordered slices of `text`, and those that touch could not have been one piece. */
  ghost predicate Ordered(c: Chunker, pieces: seq<Piece>, text: string) {
    && (forall i :: 0 <= i < |pieces| ==> Slice(pieces[i], text))
    && (forall i, j :: 0 <= i < j < |pieces| ==> pieces[i].end <= pieces[j].start)
    && (forall i, j :: 0 <= i < j < |pieces| && j == i + 1 && pieces[i].end == pieces[j].start ==>
          c.CannotAbsorb(pieces[i].text, pieces[j].text))
  }

  /** The pieces split exactly the first `n` paragraphs. */
  ghost predicate Splits(c: Chunker, pieces: seq<Piece>, paras: seq<Piece>, n: nat)
    requires n <= |paras|
  {
    && (forall i :: 0 <= i < |pieces| ==> Within(c, paras, n, pieces[i]))
    && (forall k :: 0 <= k < n ==> CoversParagraph(c, pieces, paras[k]))
  }

  /** Split one paragraph, or keep it whole. */
  method SplitParagraph(c: Chunker, ghost text: string, p: Piece) returns (pieces: seq<Piece>)
    requires c.Valid() && Slice(p, text)
    ensures c.Bounded(pieces) && Ordered(c, pieces, text)
    ensures forall i :: 0 <= i < |pieces| ==> InParagraph(c, p, pieces[i])
    ensures CoversParagraph(c, pieces, p)
  {
    if c.Oversize(p.text) {
      pieces := c.SplitText(p.text, p.start, SENTENCE_SEPARATORS, true);
    } else {
      pieces := [Piece(p.text, p.start, p.start + |p.text|)];
      c.WholePiece(p.text, p.start, SENTENCE_SEPARATORS);
    }
    TilingOfParagraph(c, text, p, pieces);
  }

  lemma TilingOfParagraph(c: Chunker, text: string, p: Piece, pieces: seq<Piece>)
    requires Slice(p, text) && Tiles(pieces, p.text, p.start) && c.Packed(pieces)
    requires c.CutsAllowed(pieces, p.text, p.start, SENTENCE_SEPARATORS)
    requires c.Fits(p.text) ==> pieces == [Piece(p.text, p.start, p.start + |p.text|)]
    ensures Ordered(c, pieces, text)
    ensures forall i :: 0 <= i < |pieces| ==> InParagraph(c, p, pieces[i])
    ensures CoversParagraph(c, pieces, p)
  {
    forall i | 0 <= i < |pieces| ensures Slice(pieces[i], text) && InParagraph(c, p, pieces[i]) {
      PieceOfParagraph(c, text, p, pieces, i);
    }
    forall i, j | 0 <= i < j < |pieces| ensures pieces[i].end <= pieces[j].start {
      TilesOrdered(pieces, p.text, p.start, |p.text|, i, j);
    }
    PiecesCover(c, text, p, pieces);
  }

  lemma {:induction false} PieceOfParagraph(c: Chunker, text: string, p: Piece, pieces: seq<Piece>, i: nat)
    requires Slice(p, text) && Tiles(pieces, p.text, p.start) && i < |pieces|
    requires c.CutsAllowed(pieces, p.text, p.start, SENTENCE_SEPARATORS)
    ensures Slice(pieces[i], text) && InParagraph(c, p, pieces[i])
  {
    PieceIsSlice(text, p, pieces, i);
  }

  lemma {:induction false} PieceIsSlice(text: string, p: Piece, pieces: seq<Piece>, i: nat)
    requires Slice(p, text) && Tiles(pieces, p.text, p.start) && i < |pieces|
    ensures Slice(pieces[i], text) && p.start <= pieces[i].start && pieces[i].end <= p.end
  {
    TilesAt(pieces, p.text, p.start, |p.text|, i);
    SliceOfSlice(text, p.start, p.end, pieces[i].start - p.start, pieces[i].end - p.start);
  }

  lemma {:induction false} PiecesCover(c: Chunker, text: string, p: Piece, pieces: seq<Piece>)
    requires Slice(p, text) && Tiles(pieces, p.text, p.start)
    requires c.Fits(p.text) ==> pieces == [Piece(p.text, p.start, p.start + |p.text|)]
    ensures CoversParagraph(c, pieces, p)
  {
    forall pos | p.start <= pos < p.end ensures Covers(pieces, pos) {
      var i := TilesCover(pieces, p.text, p.start, |p.text|, pos);
    }
  }

  /** Paragraph chunking of a whole text. */
  method Split(c: Chunker, text: string, resourceId: string, metadata: map<string, MetaValue>)
    returns (chunks: seq<Chunk>)
    requires c.Valid()
    ensures Numbered(c, chunks, PiecesOf(chunks), resourceId, metadata)
    ensures Splits(c, PiecesOf(chunks), Paragraphs(text, 0), |Paragraphs(text, 0)|)
    ensures Ordered(c, PiecesOf(chunks), text) && c.Bounded(PiecesOf(chunks))
  {
    if text == "" {
      assert Paragraphs("", 0) == [];
      return [];
    }
    var raw := FindParagraphs(text);
    ParagraphsAreApart(text);
    ghost var pieces;
    chunks, pieces := SplitAll(c, text, raw, resourceId, metadata);
    NumberedPieces(c, chunks, pieces, resourceId, metadata);
  }

  /** The second loop: split the paragraphs and number the pieces. */
  method SplitAll(c: Chunker, ghost text: string, raw: seq<Piece>, resourceId: string, metadata: map<string, MetaValue>)
    returns (chunks: seq<Chunk>, ghost pieces: seq<Piece>)
    requires c.Valid() && Apart(raw, text)
    ensures Numbered(c, chunks, pieces, resourceId, metadata)
    ensures Splits(c, pieces, raw, |raw|)
    ensures Ordered(c, pieces, text) && c.Bounded(pieces)
  {
    chunks, pieces := [], [];
    for n := 0 to |raw|
      invariant Numbered(c, chunks, pieces, resourceId, metadata)
      invariant Splits(c, pieces, raw, n)
      invariant Ordered(c, pieces, text) && c.Bounded(pieces)
    {
      var more := SplitParagraph(c, text, raw[n]);
      chunks := AddChunks(c, chunks, pieces, more, resourceId, metadata);
      AddParagraph(c, raw, n, pieces, more);
      AddOrdered(c, text, raw, n, pieces, more);
      pieces := pieces + more;
    }
  }

  lemma AddParagraph(c: Chunker, paras: seq<Piece>, n: nat, pieces: seq<Piece>, more: seq<Piece>)
    requires n < |paras| && Splits(c, pieces, paras, n)
    requires forall i :: 0 <= i < |more| ==> InParagraph(c, paras[n], more[i])
    requires CoversParagraph(c, more, paras[n])
    ensures Splits(c, pieces + more, paras, n + 1)
  {
    forall k | 0 <= k < n + 1 ensures CoversParagraph(c, pieces + more, paras[k]) {
      MoreCovers(c, pieces, more, paras[k]);
    }
    forall i | 0 <= i < |pieces + more| ensures Within(c, paras, n + 1, (pieces + more)[i]) {
      if i < |pieces| {
        assert Within(c, paras, n, pieces[i]);
      } else {
        assert InParagraph(c, paras[n], more[i - |pieces|]);
      }
    }
  }

  lemma MoreCovers(c: Chunker, pieces: seq<Piece>, more: seq<Piece>, p: Piece)
    requires CoversParagraph(c, pieces, p) || CoversParagraph(c, more, p)
    ensures CoversParagraph(c, pieces + more, p)
  {
    forall pos | p.start <= pos < p.end ensures Covers(pieces + more, pos) {
      if Covers(pieces, pos) {
        var i :| 0 <= i < |pieces| && pieces[i].start <= pos < pieces[i].end;
        assert (pieces + more)[i] == pieces[i];
      } else {
        assert Covers(more, pos);
        var i :| 0 <= i < |more| && more[i].start <= pos < more[i].end;
        assert (pieces + more)[|pieces| + i] == more[i];
      }
    }
  }

  lemma AddOrdered(c: Chunker, text: string, paras: seq<Piece>, n: nat, pieces: seq<Piece>, more: seq<Piece>)
    requires Apart(paras, text) && n < |paras| && Splits(c, pieces, paras, n)
    requires Ordered(c, pieces, text) && Ordered(c, more, text)
    requires forall i :: 0 <= i < |more| ==> InParagraph(c, paras[n], more[i])
    ensures Ordered(c, pieces + more, text)
  {
    forall i | 0 <= i < |pieces| ensures pieces[i].end + 2 <= paras[n].start {
      assert Within(c, paras, n, pieces[i]);
    }
  }

  /** Only white space is dropped: every other character lies in a chunk. */
  lemma OnlySpaceDropped(c: Chunker, text: string, pieces: seq<Piece>, pos: nat)
    requires Splits(c, pieces, Paragraphs(text, 0), |Paragraphs(text, 0)|)
    requires pos < |text| && !IsSpace(text[pos])
    ensures Covers(pieces, pos)
  {
    var ps := Paragraphs(text, 0);
    if forall p :: p in ps ==> !(p.start <= pos < p.end) {
      OutsideIsSpace(text, 0, pos);
    } else {
      var p :| p in ps && p.start <= pos < p.end;
      var k :| 0 <= k < |ps| && ps[k] == p;
      assert CoversParagraph(c, pieces, ps[k]);
    }
  }

  /** No piece spans the blank line after paragraph `j`. */
  lemma NoPieceSpansParagraphs(c: Chunker, text: string, paras: seq<Piece>, pieces: seq<Piece>, i: nat, j: nat)
    requires Apart(paras, text) && Splits(c, pieces, paras, |paras|) && i < |pieces| && j + 1 < |paras|
    ensures pieces[i].end <= paras[j].end || paras[j + 1].start <= pieces[i].start
  {
    var m := HomeOf(c, paras, pieces, i);
    Neighbours(paras, text, m, j);
  }

  /** No piece contains a blank line. */
  lemma NoBlankInPiece(c: Chunker, text: string, pieces: seq<Piece>, i: nat, a: nat, b: nat)
    requires Splits(c, pieces, Paragraphs(text, 0), |Paragraphs(text, 0)|) && i < |pieces|
    requires IsBlank(text, a, b) && pieces[i].start <= a
    ensures pieces[i].end < b
  {
    var m := HomeOf(c, Paragraphs(text, 0), pieces, i);
    NoBlankInParagraph(text, 0, Paragraphs(text, 0)[m], a, b);
  }

  /** Two characters that are not white space and have no blank line between them belong to one paragraph, and to one
      piece if that is within the limits. */
  lemma KeptTogether(c: Chunker, text: string, pieces: seq<Piece>, x: nat, y: nat) returns (p: Piece)
    requires Splits(c, pieces, Paragraphs(text, 0), |Paragraphs(text, 0)|)
    requires x <= y < |text| && !IsSpace(text[x]) && !IsSpace(text[y])
    requires forall a, b :: x < a < b <= y ==> !IsBlank(text, a, b)
    ensures p in Paragraphs(text, 0) && p.start <= x && y < p.end && (c.Fits(p.text) ==> p in pieces)
  {
    p := SameParagraph(text, 0, x, y);
    var k :| 0 <= k < |Paragraphs(text, 0)| && Paragraphs(text, 0)[k] == p;
    assert CoversParagraph(c, pieces, Paragraphs(text, 0)[k]);
  }

  lemma HomeOf(c: Chunker, paras: seq<Piece>, pieces: seq<Piece>, i: nat) returns (m: nat)
    requires Splits(c, pieces, paras, |paras|) && i < |pieces|
    ensures m < |paras| && paras[m].start <= pieces[i].start && pieces[i].end <= paras[m].end
  {
    assert Within(c, paras, |paras|, pieces[i]);
    m :| 0 <= m < |paras| && InParagraph(c, paras[m], pieces[i]);
  }

  lemma Neighbours(paras: seq<Piece>, text: string, m: nat, j: nat)
    requires Apart(paras, text) && m < |paras| && j + 1 < |paras|
    ensures paras[m].end <= paras[j].end || paras[j + 1].start <= paras[m].start
  {
    if m < j {
      assert paras[m].end + 2 <= paras[j].start;
      assert Slice(paras[j], text);
    } else if j + 1 < m {
      assert paras[j + 1].end + 2 <= paras[m].start;
      assert Slice(paras[j + 1], text);
    }
  }
}
