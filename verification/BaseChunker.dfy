/** The recursive coarse-to-fine splitter shared by the chunking strategies
    (ai-service/app/services/chunking/base_chunker.py). */
module BaseChunker {
  import opened Text

  /** A slice of the text being chunked, with its offsets. */
  datatype Piece = Piece(text: string, start: int, end: int)

  /** `part` stands in `text` at `at`. */
  ghost predicate IsSub(part: string, text: string, at: int) {
    0 <= at && at + |part| <= |text| && forall k :: 0 <= k < |part| ==> part[k] == text[at + k]
  }

  /** A piece that is not empty and is the slice of `text` at its own offsets. */
  ghost predicate SliceAt(p: Piece, text: string, start: int) {
    start <= p.start < p.end == p.start + |p.text| && IsSub(p.text, text, p.start - start)
  }

  lemma SubIsSlice(part: string, text: string, at: int)
    ensures IsSub(part, text, at) <==> 0 <= at && at + |part| <= |text| && part == text[at..at + |part|]
  {
  }

  /** The pieces lie edge to edge from `start`, are not empty, and together are the first `upTo`
      characters of `text`, each piece being the slice at its own offsets. */
  ghost predicate TilesUpTo(pieces: seq<Piece>, text: string, start: int, upTo: int) {
    && (forall i :: 0 <= i < |pieces| ==> SliceAt(pieces[i], text, start))
    && (forall i, j :: 0 <= i < j < |pieces| && j == i + 1 ==> pieces[i].end == pieces[j].start)
    && (if pieces == [] then upTo == 0 else pieces[0].start == start && pieces[|pieces| - 1].end == start + upTo)
  }

  ghost predicate Tiles(pieces: seq<Piece>, text: string, start: int) {
    TilesUpTo(pieces, text, start, |text|)
  }

  lemma {:induction false} TilesOrdered(pieces: seq<Piece>, text: string, start: int, upTo: int, i: nat, j: nat)
    requires TilesUpTo(pieces, text, start, upTo) && i < j < |pieces|
    ensures pieces[i].end <= pieces[j].start
    decreases j - i
  {
    assert pieces[j - 1].end == pieces[j].start;
    if i + 1 < j {
      TilesOrdered(pieces, text, start, upTo, i, j - 1);
      assert SliceAt(pieces[j - 1], text, start);
    }
  }

  /** What a tiling says about its piece `i`. */
  lemma TilesAt(pieces: seq<Piece>, text: string, start: int, upTo: int, i: nat)
    requires TilesUpTo(pieces, text, start, upTo) && i < |pieces|
    ensures SliceAt(pieces[i], text, start)
    ensures start <= pieces[i].start < pieces[i].end <= start + upTo <= start + |text|
    ensures pieces[i].start == if i == 0 then start else pieces[i - 1].end
    ensures i == |pieces| - 1 ==> pieces[i].end == start + upTo
  {
    var n := |pieces| - 1;
    if i < n {
      TilesOrdered(pieces, text, start, upTo, i, n);
      assert SliceAt(pieces[n], text, start);
    }
    if i > 0 {
      assert pieces[i - 1].end == pieces[i].start;
    }
  }

  /** A tiling without its last pieces. */
  lemma TilesPrefix(pieces: seq<Piece>, text: string, start: int, upTo: int, n: nat)
    requires TilesUpTo(pieces, text, start, upTo) && n < |pieces|
    ensures TilesUpTo(pieces[..n], text, start, pieces[n].start - start)
    ensures 0 <= pieces[n].start - start < upTo <= |text|
  {
    TilesAt(pieces, text, start, upTo, n);
    assert SliceAt(pieces[|pieces| - 1], text, start);
    if n > 0 {
      assert pieces[..n][n - 1] == pieces[n - 1];
    }
  }

  /** Every position of the tiled text lies in a piece. */
  lemma {:induction false} TilesCover(pieces: seq<Piece>, text: string, start: int, upTo: int, pos: int)
    returns (i: nat)
    requires TilesUpTo(pieces, text, start, upTo) && start <= pos < start + upTo
    ensures i < |pieces| && pieces[i].start <= pos < pieces[i].end
    decreases |pieces|
  {
    var n := |pieces| - 1;
    if pos < pieces[n].start {
      TilesPrefix(pieces, text, start, upTo, n);
      i := TilesCover(pieces[..n], text, start, pieces[n].start - start, pos);
    } else {
      i := n;
    }
  }

  /** One more piece, the slice that comes next. */
  lemma TilesAdd(pieces: seq<Piece>, piece: Piece, text: string, start: int, mid: int, upTo: int)
    requires TilesUpTo(pieces, text, start, mid) && SliceAt(piece, text, start)
    requires piece.start == start + mid && piece.end == start + upTo
    ensures TilesUpTo(pieces + [piece], text, start, upTo)
  {
    var all := pieces + [piece];
    forall i, j | 0 <= i < j < |all| && j == i + 1 ensures all[i].end == all[j].start {
      assert all[i] == pieces[i];
    }
  }

  /** Growing the last piece of a tiling by the slice that follows it. */
  lemma TilesExtend(pieces: seq<Piece>, next: Piece, text: string, start: int, mid: int)
    requires TilesUpTo(pieces, text, start, mid) && pieces != []
    requires SliceAt(next, text, start) && next.start == start + mid
    ensures var last := pieces[|pieces| - 1];
            TilesUpTo(pieces[..|pieces| - 1] + [Piece(last.text + next.text, last.start, next.end)],
                      text, start, next.end - start)
  {
    var n := |pieces| - 1;
    var last := pieces[n];
    TilesPrefix(pieces, text, start, mid, n);
    SliceGrows(last, next, text, start);
    TilesAdd(pieces[..n], Piece(last.text + next.text, last.start, next.end), text, start, last.start - start,
        next.end - start);
  }

  lemma SliceGrows(last: Piece, next: Piece, text: string, start: int)
    requires SliceAt(last, text, start) && SliceAt(next, text, start) && last.end == next.start
    ensures SliceAt(Piece(last.text + next.text, last.start, next.end), text, start)
  {
  }

  /** A slice of a slice of `text` is a slice of `text`. */
  lemma SliceInside(p: Piece, slice: string, at: int, text: string, start: int)
    requires SliceAt(p, slice, at) && IsSub(slice, text, at - start)
    ensures SliceAt(p, text, start)
  {
    forall k | 0 <= k < |p.text| ensures p.text[k] == text[p.start - start + k] {
      assert p.text[k] == slice[p.start - at + k];
    }
  }

  /** A tiling of a prefix followed by a tiling of the slice that comes next. */
  lemma TilesAppend(pieces: seq<Piece>, more: seq<Piece>, text: string, start: int, mid: int, slice: string, at: int)
    requires TilesUpTo(pieces, text, start, mid) && at == start + mid && Tiles(more, slice, at)
             && IsSub(slice, text, mid)
    ensures TilesUpTo(pieces + more, text, start, mid + |slice|)
  {
    var all := pieces + more;
    forall i | 0 <= i < |all| ensures SliceAt(all[i], text, start) {
      if i >= |pieces| {
        assert SliceAt(more[i - |pieces|], slice, at);
        SliceInside(all[i], slice, at, text, start);
      }
    }
    forall i, j | 0 <= i < j < |all| && j == i + 1 ensures all[i].end == all[j].start {
      if j < |pieces| {
        assert all[i] == pieces[i] && all[j] == pieces[j];
      } else if i >= |pieces| {
        assert all[i] == more[i - |pieces|] && all[j] == more[j - |pieces|];
      } else {
        assert all[i] == pieces[|pieces| - 1] && all[j] == more[0];
      }
    }
  }

  function Texts(pieces: seq<Piece>): (r: seq<string>) {
    if pieces == [] then [] else Texts(pieces[..|pieces| - 1]) + [pieces[|pieces| - 1].text]
  }

  /** The texts of a tiling, concatenated, are the text. */
  lemma {:induction false} TilingRebuilds(pieces: seq<Piece>, text: string, start: int, upTo: int)
    requires TilesUpTo(pieces, text, start, upTo)
    ensures Concat(Texts(pieces)) == text[..upTo]
    decreases |pieces|
  {
    if pieces != [] {
      var n := |pieces| - 1;
      var mid := pieces[n].start - start;
      TilesPrefix(pieces, text, start, upTo, n);
      TilingRebuilds(pieces[..n], text, start, mid);
      ConcatSnoc(Texts(pieces[..n]), pieces[n].text);
      Rejoin(text, pieces[n].text, mid, upTo);
    }
  }

  lemma Rejoin(text: string, part: string, mid: int, upTo: int)
    requires IsSub(part, text, mid) && upTo == mid + |part|
    ensures text[..upTo] == text[..mid] + part
  {
  }

  /** The non-empty parts `text.split(sep)` yields, each with its separator put back in front. */
  ghost function Parts(text: string, sep: string): seq<string>
    requires sep != ""
  {
    NonEmpty(Split(text, sep), sep)
  }

  /** A raw part with its separator; the first part has none. */
  function Part(raw: seq<string>, sep: string, i: nat): string
    requires i < |raw|
  {
    if i == 0 then raw[i] else sep + raw[i]
  }

  /** How many parts are left out: the first one, when it is empty. */
  function LeftOut(raw: seq<string>): nat
    requires raw != []
  {
    if raw[0] == "" then 1 else 0
  }

  ghost function NonEmpty(raw: seq<string>, sep: string): (parts: seq<string>)
    requires sep != "" && raw != []
    ensures |parts| == |raw| - LeftOut(raw)
    ensures forall i :: 0 <= i < |parts| ==> parts[i] == Part(raw, sep, i + LeftOut(raw))
  {
    seq(|raw| - LeftOut(raw), i requires 0 <= i < |raw| - LeftOut(raw) => Part(raw, sep, i + LeftOut(raw)))
  }

  lemma PartsRebuild(text: string, sep: string)
    requires sep != ""
    ensures Concat(Parts(text, sep)) == text
    ensures forall i :: 0 <= i < |Parts(text, sep)| ==> Parts(text, sep)[i] != ""
  {
    GlueRebuilds(text, sep);
    NonEmptyConcat(Split(text, sep), sep);
  }

  lemma NonEmptyConcat(raw: seq<string>, sep: string)
    requires sep != "" && raw != []
    ensures Concat(NonEmpty(raw, sep)) == Concat(Glue(raw, sep))
  {
    var glued := Glue(raw, sep);
    if raw[0] == "" {
      assert NonEmpty(raw, sep) == glued[1..];
      assert "" + Concat(glued[1..]) == Concat(glued[1..]);
    } else {
      assert NonEmpty(raw, sep) == glued;
    }
  }

  /** Strings laid out one after the other from `start`. */
  ghost function Laid(parts: seq<string>, start: int): seq<Piece> {
    if parts == [] then []
    else
      var n := |parts| - 1;
      var at := start + |Concat(parts[..n])|;
      Laid(parts[..n], start) + [Piece(parts[n], at, at + |parts[n]|)]
  }

  /** What lies before part `n` of a concatenation, and part `n` itself. */
  lemma ConcatSplit(parts: seq<string>, n: nat)
    requires n < |parts|
    ensures var at := |Concat(parts[..n])|;
            && at + |parts[n]| <= |Concat(parts)|
            && Concat(parts)[..at] == Concat(parts[..n])
            && Concat(parts)[at..at + |parts[n]|] == parts[n]
            && Concat(parts[..n + 1]) == Concat(parts[..n]) + parts[n]
  {
    assert parts == parts[..n + 1] + parts[n + 1..];
    ConcatAppend(parts[..n + 1], parts[n + 1..]);
    assert parts[..n + 1] == parts[..n] + [parts[n]];
    ConcatSnoc(parts[..n], parts[n]);
  }

  lemma LaidStep(parts: seq<string>, n: nat, start: int)
    requires n < |parts|
    ensures var at := start + |Concat(parts[..n])|;
            && Laid(parts[..n + 1], start) == Laid(parts[..n], start) + [Piece(parts[n], at, at + |parts[n]|)]
            && start + |Concat(parts[..n + 1])| == at + |parts[n]|
  {
    ConcatSplit(parts, n);
    assert parts[..n + 1][..n] == parts[..n];
  }

  /** Parts laid out from `start` tile the text that begins with them. */
  lemma {:induction false} LaidTiles(parts: seq<string>, whole: string, start: int)
    requires forall i :: 0 <= i < |parts| ==> parts[i] != ""
    requires Concat(parts) <= whole
    ensures TilesUpTo(Laid(parts, start), whole, start, |Concat(parts)|)
  {
    if parts != [] {
      var n := |parts| - 1;
      var init, last := parts[..n], parts[n];
      assert parts == init + [last];
      ConcatSnoc(init, last);
      AppendIsPrefix(Concat(init), last, whole);
      LaidTiles(init, whole, start);
      LaidSnoc(init, last, start);
      LaidAdd(Laid(parts, start), Laid(init, start), last, whole, start, |Concat(init)|, |Concat(parts)|);
    }
  }

  lemma LaidAdd(all: seq<Piece>, pieces: seq<Piece>, last: string, whole: string, start: int, at: nat, upTo: nat)
    requires all == pieces + [Piece(last, start + at, start + at + |last|)] && last != ""
    requires upTo == at + |last| && IsSub(last, whole, at)
    requires TilesUpTo(pieces, whole, start, at)
    ensures TilesUpTo(all, whole, start, upTo)
  {
    TilesAdd(pieces, Piece(last, start + at, start + at + |last|), whole, start, at, upTo);
  }

  lemma LaidSnoc(init: seq<string>, last: string, start: int)
    ensures var at := start + |Concat(init)|;
            Laid(init + [last], start) == Laid(init, start) + [Piece(last, at, at + |last|)]
  {
    assert (init + [last])[..|init|] == init;
  }

  lemma AppendIsPrefix(a: string, b: string, whole: string)
    requires a + b <= whole
    ensures a <= whole && IsSub(b, whole, |a|)
  {
    assert forall i :: 0 <= i < |b| ==> (a + b)[|a| + i] == b[i];
    assert forall i :: 0 <= i < |a| ==> (a + b)[i] == a[i];
  }

  /** The first-level cut of `text` at a separator. */
  ghost function Coarse(text: string, start: int, sep: string): seq<Piece>
    requires sep != ""
  {
    Laid(Parts(text, sep), start)
  }

  lemma CoarseTiles(text: string, start: int, sep: string)
    requires sep != ""
    ensures Tiles(Coarse(text, start, sep), text, start)
  {
    PartsRebuild(text, sep);
    LaidTiles(Parts(text, sep), text, start);
  }

  /** A part without its leading separator. */
  function Body(part: string, sep: string): string {
    if sep <= part then part[|sep|..] else part
  }

  /** No part contains the separator, except in front. */
  lemma PartsAreFree(text: string, sep: string, i: nat, k: nat)
    requires sep != "" && i < |Parts(text, sep)|
    ensures !OccursAt(Body(Parts(text, sep)[i], sep), sep, k)
  {
    var raw, parts := Split(text, sep), Parts(text, sep);
    var j := i + (|raw| - |parts|);
    SplitPartsAreFree(text, sep);
    if j == 0 {
      PrefixOccurs(raw[0], sep);
    } else {
      assert parts[i] == sep + raw[j] && (sep + raw[j])[|sep|..] == raw[j];
    }
    assert !OccursAt(raw[j], sep, k);
  }

  lemma PrefixOccurs(s: string, sep: string)
    ensures sep <= s <==> OccursAt(s, sep, 0)
  {
  }

  lemma {:induction false} LaidText(parts: seq<string>, start: int, i: nat)
    requires i < |parts|
    ensures |Laid(parts, start)| == |parts| && Laid(parts, start)[i].text == parts[i]
  {
    var n := |parts| - 1;
    if i < n {
      LaidText(parts[..n], start, i);
    } else if n > 0 {
      LaidText(parts[..n], start, n - 1);
    }
  }

  lemma {:induction false} LaidLength(parts: seq<string>, start: int)
    ensures |Laid(parts, start)| == |parts|
  {
    if parts != [] {
      LaidText(parts, start, 0);
    }
  }

  /** No piece of the first-level cut contains the separator, except in front. */
  lemma CoarseIsFree(text: string, start: int, sep: string, i: nat, k: nat)
    requires sep != "" && i < |Coarse(text, start, sep)|
    ensures !OccursAt(Body(Coarse(text, start, sep)[i].text, sep), sep, k)
  {
    LaidLength(Parts(text, sep), start);
    LaidText(Parts(text, sep), start, i);
    PartsAreFree(text, sep, i, k);
  }

  ghost predicate StartsAt(pieces: seq<Piece>, pos: int) {
    exists j :: 0 <= j < |pieces| && pieces[j].start == pos
  }

  /** Every start of `merged` is a start of `pieces`: merging removes cuts and adds none. */
  ghost predicate StartsAmong(merged: seq<Piece>, pieces: seq<Piece>) {
    forall i :: 0 <= i < |merged| ==> StartsAt(pieces, merged[i].start)
  }

  /** `n` is `d` added up some number of times. */
  ghost predicate Multiple(n: int, d: int)
    requires d > 0
  {
    n == 0 || (n >= d && Multiple(n - d, d))
  }

  /** A metadata value: page numbers and times are numbers, the rest strings. */
  datatype MetaValue = Str(s: string) | Num(r: real)

  /** A chunk as it is handed to embedding. */
  datatype Chunk = Chunk(id: string, resourceId: string, index: nat, text: string, startPos: int, endPos: int,
                         metadata: map<string, MetaValue>, tokenCount: int)

  /** What a chunker is configured with: the size limit, which the configuration demands to be
      positive, whether source metadata is kept, and the token estimator. */
  datatype Chunker = Chunker(size: int, preserveMetadata: bool, count: string -> int) {

    function MakeChunk(text: string, resourceId: string, metadata: map<string, MetaValue>, index: nat,
                       start: int, end: int): Chunk
    {
      Chunk(resourceId + "-" + Decimal(index), resourceId, index, text, start, end,
            if preserveMetadata then metadata else map[], count(text))
    }

    /** Chunks of one resource share an id only when they share an index. */
    lemma IdsAreDistinct(resourceId: string, i: nat, j: nat)
      requires resourceId + "-" + Decimal(i) == resourceId + "-" + Decimal(j)
      ensures i == j
    {
      var p := resourceId + "-";
      assert (p + Decimal(i))[|p|..] == Decimal(i) && (p + Decimal(j))[|p|..] == Decimal(j);
      ValueOfDecimal(i);
      ValueOfDecimal(j);
    }

    predicate Valid() {
      size > 0 && count("") == 0
    }

    predicate Oversize(text: string) {
      |text| > size || count(text) > size
    }

    predicate Bounded(pieces: seq<Piece>) {
      forall i :: 0 <= i < |pieces| ==> |pieces[i].text| <= size
    }

    /** Some non-empty beginning of `right` is already too much for `left`. */
    ghost predicate CannotAbsorb(left: string, right: string) {
      exists k :: 0 < k <= |right| && !Fits(left + right[..k])
    }

    /** No piece leaves room for what follows it. */
    ghost predicate Packed(pieces: seq<Piece>) {
      forall i, j :: 0 <= i < j < |pieces| && j == i + 1 ==> CannotAbsorb(pieces[i].text, pieces[j].text)
    }

    /** Where the splitter may cut: an oversize text only, at the starts of its first-separator parts,
        inside a part only where that part may be cut by the finer separators, and every `size`
        characters once no separator is left. */
    ghost predicate MayCut(text: string, start: int, separators: seq<string>, pos: int)
      decreases |separators|
    {
      && Valid() && Oversize(text) && start < pos < start + |text|
      && if separators == [] || separators[0] == "" then Multiple(pos - start, size)
         else
           var coarse := Coarse(text, start, separators[0]);
           exists i :: 0 <= i < |coarse| && coarse[i].start <= pos < coarse[i].end
                       && (pos == coarse[i].start
                           || MayCut(coarse[i].text, coarse[i].start, separators[1..], pos))
    }

    ghost predicate CutsAllowed(pieces: seq<Piece>, text: string, start: int, separators: seq<string>) {
      forall i :: 0 <= i < |pieces| && pieces[i].start != start ==> MayCut(text, start, separators, pieces[i].start)
    }

    /** Within both limits, counted in characters and in tokens. */
    ghost predicate Fits(text: string) {
      |text| <= size && count(text) <= size
    }

    /** The piece is a run of `size` characters, or the end, of a part in which no separator is left to cut at. */
    ghost predicate LastResort(piece: Piece, text: string, start: int, separators: seq<string>)
      decreases |separators|
    {
      if separators == [] || separators[0] == "" then
        && Valid() && start <= piece.start < piece.end <= start + |text| && Multiple(piece.start - start, size)
        && (piece.end == piece.start + size || piece.end == start + |text|)
      else
        var coarse := Coarse(text, start, separators[0]);
        exists i :: 0 <= i < |coarse| && LastResort(piece, coarse[i].text, coarse[i].start, separators[1..])
    }

    /** Every piece is within both limits, unless it is a last resort. */
    ghost predicate AllFit(pieces: seq<Piece>, text: string, start: int, separators: seq<string>) {
      forall i :: 0 <= i < |pieces| ==> Fits(pieces[i].text) || LastResort(pieces[i], text, start, separators)
    }

    /** Every first-separator part of an oversize text starts a piece of its own. */
    ghost predicate KeepsBoundaries(pieces: seq<Piece>, text: string, start: int, separators: seq<string>) {
      Oversize(text) && separators != [] && separators[0] != "" ==>
        StartsAmong(Coarse(text, start, separators[0]), pieces)
    }

    /** Runs of exactly `size` characters up to `pos`, except that the run ending the text may be shorter. */
    ghost predicate Runs(pieces: seq<Piece>, text: string, start: int, pos: int)
      requires Valid()
    {
      && TilesUpTo(pieces, text, start, pos) && Bounded(pieces)
      && (forall i :: 0 <= i < |pieces| ==> Multiple(pieces[i].start - start, size) && pieces[i].text != "")
      && (forall i :: 0 <= i < |pieces| - (if pos < |text| then 0 else 1) ==> |pieces[i].text| == size)
      && (pos < |text| ==> Multiple(pos, size))
    }

    /** The last-resort splitter: runs of `size` characters. */
    method SplitChars(text: string, start: int) returns (pieces: seq<Piece>)
      requires Valid()
      ensures Tiles(pieces, text, start)
      ensures forall i :: 0 <= i < |pieces| ==> Multiple(pieces[i].start - start, size)
      ensures Bounded(pieces) && Packed(pieces)
      ensures forall i :: 0 <= i < |pieces| - 1 ==> |pieces[i].text| == size
    {
      pieces := [];
      var pos := 0;
      while pos < |text|
        invariant Runs(pieces, text, start, pos)
      {
        var end := if pos + size < |text| then pos + size else |text|;
        RunStep(pieces, text, start, pos, end);
        pieces := pieces + [Piece(text[pos..end], start + pos, start + end)];
        pos := end;
      }
      FullRunsArePacked(pieces);
    }

    lemma {:induction false} RunStep(pieces: seq<Piece>, text: string, start: int, pos: int, end: int)
      requires Valid() && Runs(pieces, text, start, pos) && pos < |text|
      requires end == if pos + size < |text| then pos + size else |text|
      ensures Runs(pieces + [Piece(text[pos..end], start + pos, start + end)], text, start, end)
    {
      SubIsSlice(text[pos..end], text, pos);
      NextRun(pieces, Piece(text[pos..end], start + pos, start + end), text, start, pos, end);
    }

    lemma NextRun(pieces: seq<Piece>, piece: Piece, text: string, start: int, pos: int, end: int)
      requires Valid() && Runs(pieces, text, start, pos) && pos < |text|
      requires end == if pos + size < |text| then pos + size else |text|
      requires SliceAt(piece, text, start) && piece.start == start + pos && piece.end == start + end
      ensures Runs(pieces + [piece], text, start, end)
    {
      TilesAdd(pieces, piece, text, start, pos, end);
    }

    lemma FullRunsArePacked(pieces: seq<Piece>)
      requires forall i :: 0 <= i < |pieces| ==> pieces[i].text != ""
      requires forall i :: 0 <= i < |pieces| - 1 ==> |pieces[i].text| == size
      ensures Packed(pieces)
    {
      forall i, j | 0 <= i < j < |pieces| && j == i + 1
        ensures CannotAbsorb(pieces[i].text, pieces[j].text)
      {
        assert !Fits(pieces[i].text + pieces[j].text[..1]);
      }
    }

    /** What merging has reached after the first `n` pieces. */
    ghost predicate MergedTo(merged: seq<Piece>, pieces: seq<Piece>, n: int, text: string, start: int) {
      && merged != [] && 0 < n <= |pieces|
      && TilesUpTo(merged, text, start, pieces[n - 1].end - start)
      && StartsAmong(merged, pieces) && Bounded(merged) && Packed(merged)
      && FitOrAmong(merged, pieces)
    }

    /** Every piece of `merged` is within both limits, or stands in `pieces` as it is. */
    ghost predicate FitOrAmong(merged: seq<Piece>, pieces: seq<Piece>) {
      forall i :: 0 <= i < |merged| ==> Fits(merged[i].text) || merged[i] in pieces
    }

    /** Greedy left-to-right merging of neighbours while the result still fits. */
    method MergePieces(pieces: seq<Piece>, ghost text: string, ghost start: int) returns (merged: seq<Piece>)
      requires Tiles(pieces, text, start) && Bounded(pieces)
      ensures Tiles(merged, text, start)
      ensures StartsAmong(merged, pieces) && FitOrAmong(merged, pieces)
      ensures Bounded(merged) && Packed(merged)
    {
      if pieces == [] {
        return [];
      }
      merged := [pieces[0]];
      FirstStep(pieces, text, start);
      for n := 1 to |pieces|
        invariant MergedTo(merged, pieces, n, text, start)
      {
        var prev, piece := merged[|merged| - 1], pieces[n];
        var combined := prev.text + piece.text;
        if |combined| <= size && count(combined) <= size {
          JoinStep(merged, pieces, n, text, start);
          merged := merged[..|merged| - 1] + [Piece(combined, prev.start, piece.end)];
        } else {
          KeepStep(merged, pieces, n, text, start);
          merged := merged + [piece];
        }
      }
    }

    lemma {:induction false} FirstStep(pieces: seq<Piece>, text: string, start: int)
      requires Tiles(pieces, text, start) && Bounded(pieces) && pieces != []
      ensures MergedTo([pieces[0]], pieces, 1, text, start)
    {
      FirstTile(pieces, text, start);
      assert StartsAt(pieces, pieces[0].start);
    }

    lemma {:induction false} FirstTile(pieces: seq<Piece>, text: string, start: int)
      requires Tiles(pieces, text, start) && pieces != []
      ensures TilesUpTo([pieces[0]], text, start, pieces[0].end - start)
    {
      TilesAt(pieces, text, start, |text|, 0);
    }

    lemma {:induction false} JoinStep(merged: seq<Piece>, pieces: seq<Piece>, n: int, text: string, start: int)
      requires Tiles(pieces, text, start) && n < |pieces| && MergedTo(merged, pieces, n, text, start)
      requires !Oversize(merged[|merged| - 1].text + pieces[n].text)
      ensures var prev := merged[|merged| - 1];
              MergedTo(merged[..|merged| - 1] + [Piece(prev.text + pieces[n].text, prev.start, pieces[n].end)],
                       pieces, n + 1, text, start)
    {
      var prev := merged[|merged| - 1];
      JoinTiles(merged, pieces, n, text, start);
      ExtendLast(merged, Piece(prev.text + pieces[n].text, prev.start, pieces[n].end));
    }

    lemma {:induction false} JoinTiles(merged: seq<Piece>, pieces: seq<Piece>, n: int, text: string, start: int)
      requires Tiles(pieces, text, start) && 0 < n < |pieces| && merged != []
      requires TilesUpTo(merged, text, start, pieces[n - 1].end - start)
      ensures var prev := merged[|merged| - 1];
              TilesUpTo(merged[..|merged| - 1] + [Piece(prev.text + pieces[n].text, prev.start, pieces[n].end)],
                        text, start, pieces[n].end - start)
    {
      TilesAt(pieces, text, start, |text|, n);
      TilesExtend(merged, pieces[n], text, start, pieces[n - 1].end - start);
    }

    lemma {:induction false} KeepStep(merged: seq<Piece>, pieces: seq<Piece>, n: int, text: string, start: int)
      requires Tiles(pieces, text, start) && Bounded(pieces) && n < |pieces| && MergedTo(merged, pieces, n, text, start)
      requires Oversize(merged[|merged| - 1].text + pieces[n].text)
      ensures MergedTo(merged + [pieces[n]], pieces, n + 1, text, start)
    {
      TilesAt(pieces, text, start, |text|, n);
      TilesAdd(merged, pieces[n], text, start, pieces[n - 1].end - start, pieces[n].end - start);
      SnocPacked(merged, pieces[n]);
      assert StartsAt(pieces, pieces[n].start);
    }

    /** Lengthening the last piece keeps the pieces packed. */
    lemma ExtendLast(merged: seq<Piece>, longer: Piece)
      requires merged != [] && Packed(merged) && merged[|merged| - 1].text <= longer.text
      ensures Packed(merged[..|merged| - 1] + [longer])
    {
      var n := |merged| - 1;
      if n > 0 {
        var left, right := merged[n - 1].text, merged[n].text;
        assert CannotAbsorb(left, right);
        var k :| 0 < k <= |right| && !Fits(left + right[..k]);
        assert longer.text[..k] == right[..k];
        assert CannotAbsorb(left, longer.text);
      }
    }

    lemma SnocPacked(merged: seq<Piece>, piece: Piece)
      requires merged != [] && Packed(merged) && piece.text != ""
      requires Oversize(merged[|merged| - 1].text + piece.text)
      ensures Packed(merged + [piece])
    {
      assert piece.text[..|piece.text|] == piece.text;
      assert CannotAbsorb(merged[|merged| - 1].text, piece.text);
    }

    /** The first loop of the recursive case: the parts of `text` laid out from `start`. */
    method CutAtSeparator(text: string, start: int, sep: string) returns (pieces: seq<Piece>)
      requires sep != ""
      ensures pieces == Coarse(text, start, sep) && Tiles(pieces, text, start)
      ensures forall i: nat, k: nat :: i < |pieces| ==> !OccursAt(Body(pieces[i].text, sep), sep, k)
    {
      var raw := Split(text, sep);
      KeepsNonEmpty(raw, sep);
      pieces := LayOut(raw, sep, start, NonEmpty(raw, sep));
      CoarseTiles(text, start, sep);
      forall i: nat, k: nat | i < |pieces| ensures !OccursAt(Body(pieces[i].text, sep), sep, k) {
        CoarseIsFree(text, start, sep, i, k);
      }
    }

    /** The first `m` parts are laid out, and the cursor is where they end. */
    ghost predicate LaidTo(pieces: seq<Piece>, cursor: int, parts: seq<string>, m: int, start: int) {
      0 <= m <= |parts| && pieces == Laid(parts[..m], start) && cursor == start + |Concat(parts[..m])|
    }

    lemma LaidToStep(pieces: seq<Piece>, cursor: int, parts: seq<string>, m: nat, start: int)
      requires LaidTo(pieces, cursor, parts, m, start) && m < |parts|
      ensures LaidTo(pieces + [Piece(parts[m], cursor, cursor + |parts[m]|)], cursor + |parts[m]|, parts, m + 1, start)
    {
      LaidStep(parts, m, start);
    }

    /** `parts` are the raw parts with their separators; only an empty first one is left out. */
    ghost predicate Keeps(raw: seq<string>, sep: string, parts: seq<string>) {
      |parts| <= |raw| && forall i :: 0 <= i < |raw| ==> KeepsPart(raw, sep, parts, i)
    }

    ghost predicate KeepsPart(raw: seq<string>, sep: string, parts: seq<string>, i: nat)
      requires i < |raw|
    {
      var m := i - (|raw| - |parts|);
      if Part(raw, sep, i) == "" then m == -1 else 0 <= m < |parts| && parts[m] == Part(raw, sep, i)
    }

    lemma KeepsNonEmpty(raw: seq<string>, sep: string)
      requires sep != "" && raw != []
      ensures Keeps(raw, sep, NonEmpty(raw, sep))
    {
      forall i | 0 <= i < |raw| ensures KeepsPart(raw, sep, NonEmpty(raw, sep), i) {
        assert |Part(raw, sep, i)| >= if i == 0 then 0 else |sep|;
      }
    }

    method LayOut(raw: seq<string>, sep: string, start: int, ghost parts: seq<string>) returns (pieces: seq<Piece>)
      requires Keeps(raw, sep, parts)
      ensures pieces == Laid(parts, start)
    {
      pieces := [];
      var cursor := start;
      ghost var m := 0;
      for i := 0 to |raw|
        invariant LaidTo(pieces, cursor, parts, m, start) && m == if i == 0 then 0 else i - (|raw| - |parts|)
      {
        var part := Part(raw, sep, i);
        assert KeepsPart(raw, sep, parts, i);
        if part == "" {
          cursor := cursor + |part|;
        } else {
          LaidToStep(pieces, cursor, parts, m, start);
          pieces := pieces + [Piece(part, cursor, cursor + |part|)];
          cursor := cursor + |part|;
          m := m + 1;
        }
      }
      assert parts[..|parts|] == parts;
    }

    /** What the second loop of the recursive case has reached after the first `n` parts. */
    ghost predicate SplitTo(sub: seq<Piece>, n: int, parts: seq<Piece>, text: string, start: int,
                            separators: seq<string>) {
      && 0 <= n <= |parts|
      && TilesUpTo(sub, text, start, if n == 0 then 0 else parts[n - 1].end - start) && Bounded(sub)
      && CutsAllowed(sub, text, start, separators) && AllFit(sub, text, start, separators)
      && StartsAmong(parts[..n], sub)
    }

    /** Recursive splitting by the separators, coarse to fine. */
    method SplitText(text: string, start: int, separators: seq<string>, mergeAcross: bool)
      returns (pieces: seq<Piece>)
      requires Valid()
      ensures Tiles(pieces, text, start) && Bounded(pieces)
      ensures CutsAllowed(pieces, text, start, separators) && AllFit(pieces, text, start, separators)
      ensures text != "" && Fits(text) ==> pieces == [Piece(text, start, start + |text|)]
      ensures mergeAcross ==> Packed(pieces)
      ensures !mergeAcross ==> KeepsBoundaries(pieces, text, start, separators)
      decreases |separators|, 1, 0
    {
      if text == "" {
        return [];
      }
      if !Oversize(text) {
        pieces := [Piece(text, start, start + |text|)];
        WholePiece(text, start, separators);
      } else if separators == [] || separators[0] == "" {
        pieces := SplitChars(text, start);
        CharCuts(pieces, text, start, separators);
        CharsAreLastResort(pieces, text, start, separators);
      } else {
        pieces := SplitParts(text, start, separators);
        if mergeAcross {
          var sub := pieces;
          pieces := MergePieces(sub, text, start);
          FewerCuts(pieces, sub, text, start, separators);
          StillFit(pieces, sub, text, start, separators);
        }
      }
    }

    /** The recursive case before merging: each first-separator part split by the finer separators. */
    method SplitParts(text: string, start: int, separators: seq<string>) returns (sub: seq<Piece>)
      requires Valid() && Oversize(text) && separators != [] && separators[0] != ""
      ensures Tiles(sub, text, start) && Bounded(sub)
      ensures CutsAllowed(sub, text, start, separators) && AllFit(sub, text, start, separators)
      ensures StartsAmong(Coarse(text, start, separators[0]), sub)
      decreases |separators|, 0, 1
    {
      var parts := CutAtSeparator(text, start, separators[0]);
      sub := SplitEach(parts, text, start, separators);
      SplitDone(sub, parts, text, start, separators);
    }

    method SplitEach(parts: seq<Piece>, text: string, start: int, separators: seq<string>) returns (sub: seq<Piece>)
      requires Valid() && Oversize(text) && separators != [] && separators[0] != ""
      requires parts == Coarse(text, start, separators[0])
      ensures SplitTo(sub, |parts|, parts, text, start, separators)
      decreases |separators|, 0, 0
    {
      sub := [];
      for n := 0 to |parts|
        invariant SplitTo(sub, n, parts, text, start, separators)
      {
        var more := SplitText(parts[n].text, parts[n].start, separators[1..], true);
        SplitStep(sub, more, n, parts, text, start, separators);
        sub := sub + more;
      }
    }

    lemma {:induction false} WholePiece(text: string, start: int, separators: seq<string>)
      requires text != ""
      ensures Tiles([Piece(text, start, start + |text|)], text, start)
      ensures CutsAllowed([Piece(text, start, start + |text|)], text, start, separators)
    {
      assert text[0..|text|] == text;
    }

    lemma {:induction false} CharCuts(pieces: seq<Piece>, text: string, start: int, separators: seq<string>)
      requires Valid() && Oversize(text) && (separators == [] || separators[0] == "")
      requires Tiles(pieces, text, start)
      requires forall i :: 0 <= i < |pieces| ==> Multiple(pieces[i].start - start, size)
      ensures CutsAllowed(pieces, text, start, separators)
    {
      InnerStarts(pieces, text, start);
    }

    lemma {:induction false} SplitDone(sub: seq<Piece>, parts: seq<Piece>, text: string, start: int,
                                       separators: seq<string>)
      requires Tiles(parts, text, start) && SplitTo(sub, |parts|, parts, text, start, separators)
      ensures Tiles(sub, text, start)
      ensures StartsAmong(parts, sub) && AllFit(sub, text, start, separators)
    {
      assert parts[..|parts|] == parts;
    }

    lemma {:induction false} SplitStep(sub: seq<Piece>, more: seq<Piece>, n: nat, parts: seq<Piece>, text: string,
                                       start: int, separators: seq<string>)
      requires Valid() && Oversize(text) && separators != [] && separators[0] != ""
      requires parts == Coarse(text, start, separators[0])
      requires SplitTo(sub, n, parts, text, start, separators) && n < |parts|
      requires Tiles(more, parts[n].text, parts[n].start) && Bounded(more)
      requires CutsAllowed(more, parts[n].text, parts[n].start, separators[1..])
      requires AllFit(more, parts[n].text, parts[n].start, separators[1..])
      ensures SplitTo(sub + more, n + 1, parts, text, start, separators)
    {
      CoarseTiles(text, start, separators[0]);
      FinerCuts(more, text, start, separators, n);
      FinerFit(more, text, start, separators, n);
      JoinPart(sub, more, n, parts, text, start, separators);
    }

    lemma {:induction false} JoinPart(sub: seq<Piece>, more: seq<Piece>, n: nat, parts: seq<Piece>, text: string,
                                      start: int, separators: seq<string>)
      requires SplitTo(sub, n, parts, text, start, separators) && n < |parts| && Tiles(parts, text, start)
      requires Tiles(more, parts[n].text, parts[n].start) && Bounded(more)
      requires CutsAllowed(more, text, start, separators) && AllFit(more, text, start, separators)
      ensures SplitTo(sub + more, n + 1, parts, text, start, separators)
    {
      AppendPart(sub, more, parts, n, text, start);
      FirstStart(sub, more, parts, n);
      BothAllowed(sub, more, text, start, separators);
    }

    lemma BothAllowed(sub: seq<Piece>, more: seq<Piece>, text: string, start: int, separators: seq<string>)
      requires CutsAllowed(sub, text, start, separators) && CutsAllowed(more, text, start, separators)
      requires AllFit(sub, text, start, separators) && AllFit(more, text, start, separators)
      ensures CutsAllowed(sub + more, text, start, separators) && AllFit(sub + more, text, start, separators)
    {
    }

    lemma CharsAreLastResort(pieces: seq<Piece>, text: string, start: int, separators: seq<string>)
      requires Valid() && (separators == [] || separators[0] == "") && Tiles(pieces, text, start)
      requires forall i :: 0 <= i < |pieces| ==> Multiple(pieces[i].start - start, size)
      requires forall i :: 0 <= i < |pieces| - 1 ==> |pieces[i].text| == size
      ensures AllFit(pieces, text, start, separators)
    {
      forall i | 0 <= i < |pieces| ensures LastResort(pieces[i], text, start, separators) {
        TilesAt(pieces, text, start, |text|, i);
      }
    }

    lemma FinerFit(more: seq<Piece>, text: string, start: int, separators: seq<string>, n: nat)
      requires separators != [] && separators[0] != "" && n < |Coarse(text, start, separators[0])|
      requires var part := Coarse(text, start, separators[0])[n];
               AllFit(more, part.text, part.start, separators[1..])
      ensures AllFit(more, text, start, separators)
    {
    }

    lemma StillFit(merged: seq<Piece>, pieces: seq<Piece>, text: string, start: int, separators: seq<string>)
      requires FitOrAmong(merged, pieces) && AllFit(pieces, text, start, separators)
      ensures AllFit(merged, text, start, separators)
    {
    }

    lemma AppendPart(sub: seq<Piece>, more: seq<Piece>, parts: seq<Piece>, n: nat, text: string, start: int)
      requires Tiles(parts, text, start) && n < |parts| && Tiles(more, parts[n].text, parts[n].start)
      requires TilesUpTo(sub, text, start, if n == 0 then 0 else parts[n - 1].end - start)
      ensures TilesUpTo(sub + more, text, start, parts[n].end - start) && parts[n].text != ""
    {
      TilesAt(parts, text, start, |text|, n);
      TilesAppend(sub, more, text, start, parts[n].start - start, parts[n].text, parts[n].start);
    }

    lemma InnerStarts(pieces: seq<Piece>, text: string, start: int)
      requires Tiles(pieces, text, start)
      ensures forall i :: 0 <= i < |pieces| ==> start <= pieces[i].start < start + |text|
    {
      forall i | 0 <= i < |pieces| ensures start <= pieces[i].start < start + |text| {
        TilesAt(pieces, text, start, |text|, i);
      }
    }

    /** The cuts inside part `n`, and its start, are cuts allowed in the whole text. */
    lemma FinerCuts(more: seq<Piece>, text: string, start: int, separators: seq<string>, n: nat)
      requires Valid() && Oversize(text) && separators != [] && separators[0] != ""
      requires n < |Coarse(text, start, separators[0])|
      requires var part := Coarse(text, start, separators[0])[n];
               Tiles(more, part.text, part.start) && CutsAllowed(more, part.text, part.start, separators[1..])
      ensures CutsAllowed(more, text, start, separators)
    {
      var coarse := Coarse(text, start, separators[0]);
      CoarseTiles(text, start, separators[0]);
      TilesAt(coarse, text, start, |text|, n);
      InnerStarts(more, coarse[n].text, coarse[n].start);
    }

    lemma FirstStart(sub: seq<Piece>, more: seq<Piece>, parts: seq<Piece>, n: nat)
      requires n < |parts| && StartsAmong(parts[..n], sub)
      requires Tiles(more, parts[n].text, parts[n].start) && parts[n].text != ""
      ensures StartsAmong(parts[..n + 1], sub + more)
    {
      TilesAt(more, parts[n].text, parts[n].start, |parts[n].text|, 0);
      assert (sub + more)[|sub|].start == parts[n].start;
      forall i | 0 <= i < n ensures StartsAt(sub + more, parts[i].start) {
        assert StartsAt(sub, parts[..n][i].start);
        var j :| 0 <= j < |sub| && sub[j].start == parts[i].start;
        assert (sub + more)[j] == sub[j];
      }
    }

    lemma FewerCuts(merged: seq<Piece>, pieces: seq<Piece>, text: string, start: int, separators: seq<string>)
      requires StartsAmong(merged, pieces) && CutsAllowed(pieces, text, start, separators)
      ensures CutsAllowed(merged, text, start, separators)
    {
    }

    /** With an estimator that never counts more tokens than characters, the character bound is a token bound. */
    lemma TokensBounded(pieces: seq<Piece>)
      requires Bounded(pieces)
      requires forall t :: count(t) <= |t|
      ensures forall i :: 0 <= i < |pieces| ==> count(pieces[i].text) <= size
    {
      forall i | 0 <= i < |pieces| ensures count(pieces[i].text) <= size {
        assert count(pieces[i].text) <= |pieces[i].text|;
      }
    }

    /** Under the one-token-per-character estimator two neighbours of a packed list never fit together. */
    lemma NeighboursOverflow(pieces: seq<Piece>, i: nat)
      requires forall t :: count(t) == |t|
      requires Packed(pieces) && i + 1 < |pieces|
      ensures |pieces[i].text| + |pieces[i + 1].text| > size
    {
      var left, right := pieces[i].text, pieces[i + 1].text;
      assert CannotAbsorb(left, right);
      var k :| 0 < k <= |right| && !Fits(left + right[..k]);
    }

    /** `width` for every pair among `n` things. */
    ghost function Pairs(n: nat, width: int): int {
      if n < 2 then 0 else Pairs(n - 2, width) + width
    }

    lemma {:induction false} PairsIsProduct(n: nat, width: int)
      ensures Pairs(n, width) == (n / 2) * width
    {
      if n >= 2 {
        PairsIsProduct(n - 2, width);
        assert (n - 2) / 2 == n / 2 - 1;
        assert (n / 2 - 1) * width == (n / 2) * width - width;
      }
    }

    /** So a text of length L yields at most about 2L/size pieces. */
    lemma FewPieces(pieces: seq<Piece>, text: string, start: int)
      requires size > 0 && forall t :: count(t) == |t|
      requires Tiles(pieces, text, start) && Packed(pieces)
      ensures (|pieces| / 2) * (size + 1) <= |text|
    {
      PairsFill(pieces, text, start, |text|);
      PairsIsProduct(|pieces|, size + 1);
    }

    lemma {:induction false} PairsFill(pieces: seq<Piece>, text: string, start: int, upTo: int)
      requires forall t :: count(t) == |t|
      requires TilesUpTo(pieces, text, start, upTo) && Packed(pieces)
      ensures Pairs(|pieces|, size + 1) <= upTo
      decreases |pieces|
    {
      if |pieces| >= 2 {
        var n := |pieces| - 2;
        DropTwo(pieces, text, start, upTo);
        PairsFill(pieces[..n], text, start, pieces[n].start - start);
      }
    }

    lemma {:induction false} DropTwo(pieces: seq<Piece>, text: string, start: int, upTo: int)
      requires forall t :: count(t) == |t|
      requires TilesUpTo(pieces, text, start, upTo) && Packed(pieces) && |pieces| >= 2
      ensures var n := |pieces| - 2;
              && TilesUpTo(pieces[..n], text, start, pieces[n].start - start) && Packed(pieces[..n])
              && pieces[n].start - start + size + 1 <= upTo
    {
      var n := |pieces| - 2;
      NeighboursOverflow(pieces, n);
      assert pieces[..n + 1][..n] == pieces[..n];
    }
  }

  /** The pieces as chunks of one resource, numbered from zero, each with the tokens of its text. */
  ghost predicate Numbered(c: Chunker, chunks: seq<Chunk>, pieces: seq<Piece>, resourceId: string,
                           metadata: map<string, MetaValue>) {
    && |chunks| == |pieces|
    && forall i :: 0 <= i < |chunks| ==>
         var piece := pieces[i];
         chunks[i] == Chunk(resourceId + "-" + Decimal(i), resourceId, i, piece.text, piece.start, piece.end,
                            if c.preserveMetadata then metadata else map[], c.count(piece.text))
  }

  /** The slices the chunks are made of. */
  function PiecesOf(chunks: seq<Chunk>): (pieces: seq<Piece>)
    ensures |pieces| == |chunks|
    ensures forall i :: 0 <= i < |chunks| ==> pieces[i] == Piece(chunks[i].text, chunks[i].startPos, chunks[i].endPos)
  {
    seq(|chunks|, i requires 0 <= i < |chunks| => Piece(chunks[i].text, chunks[i].startPos, chunks[i].endPos))
  }

  lemma NumberedPieces(c: Chunker, chunks: seq<Chunk>, pieces: seq<Piece>, resourceId: string,
                       metadata: map<string, MetaValue>)
    requires Numbered(c, chunks, pieces, resourceId, metadata)
    ensures PiecesOf(chunks) == pieces
  {
  }

  lemma NumberedSnoc(c: Chunker, chunks: seq<Chunk>, text: string, resourceId: string, metadata: map<string, MetaValue>,
                     start: int, end: int)
    requires Numbered(c, chunks, PiecesOf(chunks), resourceId, metadata)
    ensures var all := chunks + [c.MakeChunk(text, resourceId, metadata, |chunks|, start, end)];
            Numbered(c, all, PiecesOf(all), resourceId, metadata)
  {
  }

  /** The numbering loop: more pieces become chunks. */
  method AddChunks(c: Chunker, before: seq<Chunk>, ghost pieces: seq<Piece>, more: seq<Piece>, resourceId: string,
                   metadata: map<string, MetaValue>)
    returns (chunks: seq<Chunk>)
    requires Numbered(c, before, pieces, resourceId, metadata)
    ensures Numbered(c, chunks, pieces + more, resourceId, metadata)
  {
    chunks := before;
    for i := 0 to |more|
      invariant Numbered(c, chunks, pieces + more[..i], resourceId, metadata)
    {
      chunks := chunks + [c.MakeChunk(more[i].text, resourceId, metadata, |chunks|, more[i].start, more[i].end)];
      assert pieces + more[..i + 1] == pieces + more[..i] + [more[i]];
    }
    assert more[..|more|] == more;
  }
}
