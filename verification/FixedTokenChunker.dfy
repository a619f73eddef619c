/** The token-window chunker built on two binary searches (ai-service/app/services/chunking/fixed_token_chunker.py) and
    the arithmetic sliding window of the map-reduce summarizer
    (ai-service/app/services/summary/map_reduce_summarizer.py). */
module FixedTokenChunker {
  import opened Text
  import opened BaseChunker

  /** `end` fits, and the next longer slice does not. */
  ghost predicate IsMaxEnd(c: Chunker, text: string, start: int, end: int) {
    && 0 <= start <= end <= |text|
    && c.count(text[start..end]) <= c.size
    && (end < |text| ==> c.count(text[start..end + 1]) > c.size)
  }

  /** The `k` characters before `end` fit into the overlap, and one more does not. */
  ghost predicate IsOverlap(c: Chunker, text: string, start: int, end: int, overlap: int, k: int) {
    && 0 <= start <= end - k <= end <= |text|
    && if overlap <= 0 || end <= start then k == 0
       else
         && c.count(text[end - k..end]) <= overlap
         && (k < end - start ==> c.count(text[end - k - 1..end]) > overlap)
  }

  ghost predicate CharFits(c: Chunker, text: string, i: int)
    requires 0 <= i < |text|
  {
    c.count(text[i..i + 1]) <= c.size
  }

  /** Binary search for the end of the window; correct for any estimator that gives the empty text no tokens. */
  method FindMaxEnd(c: Chunker, text: string, start: int) returns (end: int)
    requires c.Valid() && 0 <= start < |text|
    ensures IsMaxEnd(c, text, start, end)
  {
    var lo := start + 1;
    var hi := |text| + 1;
    assert text[start..start] == "";
    while lo < hi
      invariant start + 1 <= lo <= hi <= |text| + 1
      invariant c.count(text[start..lo - 1]) <= c.size
      invariant hi <= |text| ==> c.count(text[start..hi]) > c.size
    {
      var mid := (lo + hi) / 2;
      if c.count(text[start..mid]) <= c.size {
        lo := mid + 1;
      } else {
        hi := mid;
      }
    }
    end := lo - 1;
  }

  /** Binary search for the overlap. */
  method FindOverlapChars(c: Chunker, text: string, start: int, end: int, overlap: int) returns (k: int)
    requires c.Valid() && 0 <= start <= end <= |text|
    ensures IsOverlap(c, text, start, end, overlap, k)
  {
    if overlap <= 0 || end <= start {
      return 0;
    }
    var lo := 0;
    var hi := end - start + 1;
    assert text[end..end] == "";
    while lo < hi
      invariant 0 <= lo <= hi <= end - start + 1 && 0 < hi
      invariant lo > 0 ==> c.count(text[end - (lo - 1)..end]) <= overlap
      invariant hi <= end - start ==> c.count(text[end - hi..end]) > overlap
    {
      var mid := (lo + hi) / 2;
      if c.count(text[end - mid..end]) <= overlap {
        lo := mid + 1;
      } else {
        hi := mid;
      }
    }
    k := lo - 1;
  }

  function Max(a: int, b: int): int { if a < b then b else a }
  function Min(a: int, b: int): int { if a < b then a else b }

  /** The window after the one from `start` to `end` starts at `next`: where the overlap begins, or one past
      `start` when the overlap takes in the whole window. */
  ghost predicate NextStart(c: Chunker, text: string, overlap: int, start: int, end: int, next: int) {
    || (next > start && IsOverlap(c, text, start, end, overlap, end - next))
    || (next == start + 1 && IsOverlap(c, text, start, end, overlap, end - start))
  }

  ghost predicate Follows(c: Chunker, text: string, overlap: int, a: Chunk, b: Chunk) {
    NextStart(c, text, overlap, a.startPos, a.endPos, b.startPos)
  }

  ghost predicate Window(c: Chunker, text: string, chunk: Chunk) {
    && IsMaxEnd(c, text, chunk.startPos, chunk.endPos)
    && chunk.startPos < |text|
    && chunk.text == text[chunk.startPos..chunk.endPos]
    && chunk.tokenCount == c.count(chunk.text)
  }

  /** Windows from the beginning of the text, each following the one before. */
  ghost predicate Chain(c: Chunker, text: string, overlap: int, chunks: seq<Chunk>) {
    && (forall i :: 0 <= i < |chunks| ==> chunks[i].index == i && Window(c, text, chunks[i]))
    && (chunks != [] ==> chunks[0].startPos == 0)
    && Linked(c, text, overlap, chunks)
  }

  ghost predicate Linked(c: Chunker, text: string, overlap: int, chunks: seq<Chunk>) {
    && (forall i :: 0 <= i < |chunks| - 1 ==> chunks[i].endPos < |text|)
    && (forall i, j :: 0 <= i < j < |chunks| && j == i + 1 ==> Follows(c, text, overlap, chunks[i], chunks[j]))
  }

  /** A chain that ran to the end: it reached the end of the text, or skipped a last character that fits no window. */
  ghost predicate Complete(text: string, chunks: seq<Chunk>) {
    if text == "" then chunks == []
    else
      && chunks != []
      && var last := chunks[|chunks| - 1];
         last.endPos == |text| || last.startPos == last.endPos == |text| - 1
  }

  method Split(c: Chunker, chunkOverlap: int, text: string, resourceId: string, metadata: map<string, MetaValue>)
    returns (chunks: seq<Chunk>)
    requires c.Valid()
    ensures var overlap := if chunkOverlap < 0 then 0 else if chunkOverlap < c.size then chunkOverlap else c.size - 1;
            Chain(c, text, overlap, chunks)
    ensures Complete(text, chunks)
    ensures Numbered(c, chunks, PiecesOf(chunks), resourceId, metadata)
  {
    if text == "" {
      return [];
    }
    chunks := [];
    var start := 0;
    var overlap := ClampedOverlap(c, chunkOverlap);
    while start < |text|
      invariant Chain(c, text, overlap, chunks) && ReadyAt(c, text, overlap, chunks, start)
      invariant Numbered(c, chunks, PiecesOf(chunks), resourceId, metadata)
      decreases |text| - start
    {
      var end := FindMaxEnd(c, text, start);
      var chunk := c.MakeChunk(text[start..end], resourceId, metadata, |chunks|, start, end);
      ChainStep(c, text, overlap, chunks, chunk);
      NumberedSnoc(c, chunks, text[start..end], resourceId, metadata, start, end);
      chunks := chunks + [chunk];
      if end >= |text| {
        return;
      }
      start := FindNextStart(c, text, start, end, overlap);
    }
    NothingLeft(c, text, overlap, chunks, start);
  }

  lemma NothingLeft(c: Chunker, text: string, overlap: int, chunks: seq<Chunk>, start: int)
    requires text != "" && start >= |text| && ReadyAt(c, text, overlap, chunks, start)
    ensures Complete(text, chunks)
  {
  }

  /** Where the window after the one from `start` to `end` starts. */
  method FindNextStart(c: Chunker, text: string, start: int, end: int, overlap: int) returns (next: int)
    requires c.Valid() && 0 <= start <= end < |text|
    ensures NextStart(c, text, overlap, start, end, next)
  {
    var overlapChars := FindOverlapChars(c, text, start, end, overlap);
    next := end - overlapChars;
    if next <= start {
      next := start + 1;
    }
  }

  /** The next window is to start at `start`. */
  ghost predicate ReadyAt(c: Chunker, text: string, overlap: int, chunks: seq<Chunk>, start: int) {
    if chunks == [] then start == 0
    else
      var last := chunks[|chunks| - 1];
      last.endPos < |text| && NextStart(c, text, overlap, last.startPos, last.endPos, start)
  }

  lemma ChainStep(c: Chunker, text: string, overlap: int, chunks: seq<Chunk>, chunk: Chunk)
    requires Chain(c, text, overlap, chunks) && ReadyAt(c, text, overlap, chunks, chunk.startPos)
    requires chunk.index == |chunks| && Window(c, text, chunk)
    ensures Chain(c, text, overlap, chunks + [chunk])
  {
    LinkedSnoc(c, text, overlap, chunks, chunk);
    var all := chunks + [chunk];
    forall i | 0 <= i < |all| ensures all[i].index == i && Window(c, text, all[i]) {
      if i < |chunks| {
        assert all[i] == chunks[i];
      }
    }
    assert all[0] == if chunks == [] then chunk else chunks[0];
  }

  lemma LinkedSnoc(c: Chunker, text: string, overlap: int, chunks: seq<Chunk>, chunk: Chunk)
    requires Linked(c, text, overlap, chunks)
    requires chunks != [] ==>
               chunks[|chunks| - 1].endPos < |text| && Follows(c, text, overlap, chunks[|chunks| - 1], chunk)
    ensures Linked(c, text, overlap, chunks + [chunk])
  {
    var all := chunks + [chunk];
    forall i, j | 0 <= i < j < |all| && j == i + 1
      ensures Follows(c, text, overlap, all[i], all[j])
    {
      assert all[i] == chunks[i] && all[j] == if j < |chunks| then chunks[j] else chunk;
    }
  }

  function ClampedOverlap(c: Chunker, chunkOverlap: int): int {
    Max(0, Min(chunkOverlap, c.size - 1))
  }

  /** For any estimator: starts strictly increase and every chunk is within the token limit. */
  lemma StartsIncrease(c: Chunker, text: string, overlap: int, chunks: seq<Chunk>)
    requires Chain(c, text, overlap, chunks)
    ensures forall i, j :: 0 <= i < j < |chunks| ==> chunks[i].startPos < chunks[j].startPos
    ensures forall i :: 0 <= i < |chunks| ==> chunks[i].tokenCount <= c.size
  {
    forall i, j | 0 <= i < j < |chunks| ensures chunks[i].startPos < chunks[j].startPos {
      StartsBefore(c, text, overlap, chunks, i, j);
    }
    forall i | 0 <= i < |chunks| ensures chunks[i].tokenCount <= c.size {
      assert Window(c, text, chunks[i]);
    }
  }

  lemma {:induction false} StartsBefore(c: Chunker, text: string, overlap: int, chunks: seq<Chunk>, i: nat, j: nat)
    requires Chain(c, text, overlap, chunks) && i < j < |chunks|
    ensures chunks[i].startPos < chunks[j].startPos
    decreases j - i
  {
    assert Follows(c, text, overlap, chunks[j - 1], chunks[j]);
    if i < j - 1 {
      StartsBefore(c, text, overlap, chunks, i, j - 1);
    }
  }

  /** A window whose first character fits is not empty. */
  lemma WindowNotEmpty(c: Chunker, text: string, chunk: Chunk)
    requires Window(c, text, chunk) && CharFits(c, text, chunk.startPos)
    ensures chunk.startPos < chunk.endPos
  {
  }

  /** If every single character fits, the chunks overlap or touch, and the last one ends the text. */
  lemma NoGaps(c: Chunker, text: string, overlap: int, chunks: seq<Chunk>)
    requires Chain(c, text, overlap, chunks) && Complete(text, chunks)
    requires forall i :: 0 <= i < |text| ==> CharFits(c, text, i)
    ensures forall i, j :: 0 <= i < j < |chunks| && j == i + 1 ==> chunks[j].startPos <= chunks[i].endPos
    ensures text != "" ==> chunks[|chunks| - 1].endPos == |text|
  {
    forall i, j | 0 <= i < j < |chunks| && j == i + 1
      ensures chunks[j].startPos <= chunks[i].endPos
    {
      WindowNotEmpty(c, text, chunks[i]);
    }
    if text != "" {
      WindowNotEmpty(c, text, chunks[|chunks| - 1]);
    }
  }

  ghost predicate Covered(chunks: seq<Chunk>, pos: int) {
    exists i :: 0 <= i < |chunks| && chunks[i].startPos <= pos < chunks[i].endPos
  }

  lemma {:induction false} NoGapsCover(chunks: seq<Chunk>, n: nat, pos: int)
    requires 0 < n <= |chunks| && chunks[0].startPos == 0 && 0 <= pos < chunks[n - 1].endPos
    requires forall i, j :: 0 <= i < j < |chunks| && j == i + 1 ==> chunks[j].startPos <= chunks[i].endPos
    ensures Covered(chunks, pos)
  {
    if n > 1 && pos < chunks[n - 1].startPos {
      assert chunks[n - 1].startPos <= chunks[n - 2].endPos;
      NoGapsCover(chunks, n - 1, pos);
    }
  }

  /** The estimator never gives a part of a text more tokens than the whole. */
  ghost predicate MonotoneOnParts(c: Chunker, text: string) {
    forall a, b, d, e :: 0 <= a <= b <= d <= e <= |text| ==> c.count(text[b..d]) <= c.count(text[a..e])
  }

  /** With a monotone estimator the chunks cover the whole text exactly when every single character fits. */
  lemma CoverIffCharsFit(c: Chunker, text: string, overlap: int, chunks: seq<Chunk>)
    requires Chain(c, text, overlap, chunks) && Complete(text, chunks)
    requires MonotoneOnParts(c, text)
    ensures (forall i :: 0 <= i < |text| ==> CharFits(c, text, i))
       <==> (forall i :: 0 <= i < |text| ==> Covered(chunks, i))
  {
    if forall i :: 0 <= i < |text| ==> CharFits(c, text, i) {
      NoGaps(c, text, overlap, chunks);
      forall i | 0 <= i < |text| ensures Covered(chunks, i) {
        NoGapsCover(chunks, |chunks|, i);
      }
    }
    if forall i :: 0 <= i < |text| ==> Covered(chunks, i) {
      forall i | 0 <= i < |text| ensures CharFits(c, text, i) {
        assert Covered(chunks, i);
        var k :| 0 <= k < |chunks| && chunks[k].startPos <= i < chunks[k].endPos;
        assert Window(c, text, chunks[k]);
        assert c.count(text[i..i + 1]) <= c.count(text[chunks[k].startPos..chunks[k].endPos]);
      }
    }
  }

  /** With an estimator monotone on prefixes each chunk is the longest that fits. */
  lemma LongestThatFits(c: Chunker, text: string, chunk: Chunk, end: int)
    requires Window(c, text, chunk) && chunk.endPos < end <= |text|
    requires forall d, e :: chunk.startPos <= d <= e <= |text| ==>
               c.count(text[chunk.startPos..d]) <= c.count(text[chunk.startPos..e])
    ensures c.count(text[chunk.startPos..end]) > c.size
  {
    assert c.count(text[chunk.startPos..chunk.endPos + 1]) <= c.count(text[chunk.startPos..end]);
  }

  /** The arithmetic sliding window: `limit` characters every `step`, up to the first window that reaches the end. */
  function Windows(text: string, start: nat, limit: nat, step: nat): (ws: seq<string>)
    requires start <= |text| && 0 < step <= limit
    ensures ws != []
    decreases |text| - start
  {
    if start + limit >= |text| then [text[start..]]
    else [text[start..start + limit]] + Windows(text, start + step, limit, step)
  }

  /** One token per character. */
  function Encode(text: string): (tokens: seq<int>)
    ensures |tokens| == |text| && forall i :: 0 <= i < |text| ==> tokens[i] == text[i] as int
  {
    seq(|text|, i requires 0 <= i < |text| => text[i] as int)
  }

  predicate IsScalar(n: int) {
    0 <= n < 0xD800 || 0xE000 <= n < 0x11_0000
  }

  function Decode(tokens: seq<int>): (text: string)
    requires forall i :: 0 <= i < |tokens| ==> IsScalar(tokens[i])
    ensures |tokens| == |text| && forall i :: 0 <= i < |text| ==> tokens[i] == text[i] as int
  {
    seq(|tokens|, i requires 0 <= i < |tokens| && IsScalar(tokens[i]) => tokens[i] as char)
  }

  lemma DecodeSlice(text: string, a: nat, b: nat)
    requires a <= b <= |text|
    ensures Decode(Encode(text)[a..b]) == text[a..b]
  {
    var d := Decode(Encode(text)[a..b]);
    forall i | 0 <= i < b - a ensures d[i] == text[a..b][i] {
      assert d[i] as int == text[a + i] as int;
    }
  }

  /** The summarizer's chunks, with the one-character-per-token estimator. */
  method SplitChunks(text: string, limit: int, overlap: int) returns (chunks: seq<string>)
    ensures limit <= 0 ==> chunks == [text]
    ensures limit > 0 ==>
              var step := if overlap <= 0 then limit else if overlap < limit then limit - overlap else 1;
              chunks == Windows(text, 0, limit, step)
  {
    if limit <= 0 {
      return [text];
    }
    var tokens := Encode(text);
    if |tokens| <= limit {
      assert text[0..] == text;
      return [text];
    }
    var step := Max(1, limit - Max(0, overlap));
    chunks := [];
    var start := 0;
    while start < |tokens|
      invariant 0 <= start < |text|
      invariant chunks + Windows(text, start, limit, step) == Windows(text, 0, limit, step)
      decreases |text| - start
    {
      var end := Min(start + limit, |tokens|);
      DecodeSlice(text, start, end);
      ghost var before := chunks;
      chunks := chunks + [Decode(tokens[start..end])];
      if start + limit >= |tokens| {
        assert text[start..|text|] == text[start..];
        break;
      }
      assert before + ([text[start..end]] + Windows(text, start + step, limit, step))
          == chunks + Windows(text, start + step, limit, step);
      start := start + step;
    }
  }

  /** The fallback estimator, one token per character. */
  ghost predicate CountsChars(c: Chunker) {
    forall t :: c.count(t) == |t|
  }

  ghost function ChunkTexts(chunks: seq<Chunk>, from: nat): (r: seq<string>)
    requires from <= |chunks|
    decreases |chunks| - from
  {
    if from == |chunks| then [] else [chunks[from].text] + ChunkTexts(chunks, from + 1)
  }

  /** With the fallback estimator a window is `size` characters, and the next one starts `size - overlap` further on. */
  lemma StepIsFixed(c: Chunker, text: string, overlap: int, a: Chunk, b: Chunk)
    requires CountsChars(c) && 0 <= overlap < c.size
    requires Window(c, text, a) && a.endPos < |text| && Follows(c, text, overlap, a, b)
    ensures a.endPos == a.startPos + c.size
    ensures b.startPos == a.startPos + (c.size - overlap)
  {
  }

  /** The chunk is `limit` characters of the text, or fewer where the text ends. */
  ghost predicate Placed(text: string, chunk: Chunk, limit: int) {
    && limit >= 0 && 0 <= chunk.startPos < |text|
    && chunk.text == text[chunk.startPos..Min(chunk.startPos + limit, |text|)]
  }

  /** Chunks at every `step`, of which only the last reaches the end of the text. */
  ghost predicate Regular(text: string, chunks: seq<Chunk>, limit: int, step: int) {
    && (forall i :: 0 <= i < |chunks| ==> Placed(text, chunks[i], limit))
    && (forall i :: 0 <= i < |chunks| - 1 ==> chunks[i].startPos + limit < |text|)
    && (forall i, j :: 0 <= i < j < |chunks| && j == i + 1 ==> chunks[j].startPos == chunks[i].startPos + step)
    && (chunks != [] ==> chunks[0].startPos == 0)
  }

  lemma ChainIsRegular(c: Chunker, text: string, overlap: int, chunks: seq<Chunk>)
    requires CountsChars(c) && 0 <= overlap < c.size && Chain(c, text, overlap, chunks)
    ensures Regular(text, chunks, c.size, c.size - overlap)
  {
    AllPlaced(c, text, overlap, chunks);
    AllSteps(c, text, overlap, chunks);
  }

  lemma AllSteps(c: Chunker, text: string, overlap: int, chunks: seq<Chunk>)
    requires CountsChars(c) && 0 <= overlap < c.size && Chain(c, text, overlap, chunks)
    ensures forall i :: 0 <= i < |chunks| - 1 ==> chunks[i].startPos + c.size < |text|
    ensures forall i, j :: 0 <= i < j < |chunks| && j == i + 1 ==>
              chunks[j].startPos == chunks[i].startPos + (c.size - overlap)
  {
    forall i | 0 <= i < |chunks| - 1 ensures chunks[i].startPos + c.size < |text| {
      StepOfChain(c, text, overlap, chunks, i, i + 1);
    }
    forall i, j | 0 <= i < j < |chunks| && j == i + 1
      ensures chunks[j].startPos == chunks[i].startPos + (c.size - overlap) {
      StepOfChain(c, text, overlap, chunks, i, j);
    }
  }

  lemma AllPlaced(c: Chunker, text: string, overlap: int, chunks: seq<Chunk>)
    requires CountsChars(c) && Chain(c, text, overlap, chunks)
    ensures forall i :: 0 <= i < |chunks| ==> Placed(text, chunks[i], c.size)
  {
    forall i | 0 <= i < |chunks| ensures Placed(text, chunks[i], c.size) {
      assert Window(c, text, chunks[i]);
      WindowIsPlaced(c, text, chunks[i]);
    }
  }

  lemma StepOfChain(c: Chunker, text: string, overlap: int, chunks: seq<Chunk>, i: nat, j: nat)
    requires CountsChars(c) && 0 <= overlap < c.size && Chain(c, text, overlap, chunks) && i < j < |chunks|
             && j == i + 1
    ensures chunks[i].startPos + c.size < |text| && chunks[j].startPos == chunks[i].startPos + (c.size - overlap)
  {
    assert Window(c, text, chunks[i]);
    assert Follows(c, text, overlap, chunks[i], chunks[j]);
    StepIsFixed(c, text, overlap, chunks[i], chunks[j]);
  }

  lemma WindowIsPlaced(c: Chunker, text: string, chunk: Chunk)
    requires CountsChars(c) && Window(c, text, chunk)
    ensures Placed(text, chunk, c.size)
  {
  }

  lemma {:induction false} RegularIsWindows(text: string, chunks: seq<Chunk>, limit: nat, step: nat, i: nat)
    requires 0 < step <= limit && Regular(text, chunks, limit, step) && i < |chunks|
    requires chunks[|chunks| - 1].startPos + limit >= |text|
    ensures 0 <= chunks[i].startPos <= |text|
    ensures ChunkTexts(chunks, i) == Windows(text, chunks[i].startPos, limit, step)
    decreases |chunks| - i
  {
    assert Placed(text, chunks[i], limit);
    if i + 1 < |chunks| {
      assert chunks[i + 1].startPos == chunks[i].startPos + step;
      RegularIsWindows(text, chunks, limit, step, i + 1);
    } else {
      assert ChunkTexts(chunks, i + 1) == [];
      assert text[chunks[i].startPos..|text|] == text[chunks[i].startPos..];
    }
  }

  /** With the fallback estimator the binary searches find exactly the arithmetic windows. */
  lemma ChainIsWindows(c: Chunker, text: string, overlap: int, chunks: seq<Chunk>)
    requires CountsChars(c) && 0 <= overlap < c.size
    requires Chain(c, text, overlap, chunks) && Complete(text, chunks) && text != ""
    ensures ChunkTexts(chunks, 0) == Windows(text, 0, c.size, c.size - overlap)
  {
    ChainIsRegular(c, text, overlap, chunks);
    assert Window(c, text, chunks[|chunks| - 1]);
    LastWindow(c, text, chunks[|chunks| - 1]);
    RegularIsWindows(text, chunks, c.size, c.size - overlap, 0);
  }

  lemma LastWindow(c: Chunker, text: string, chunk: Chunk)
    requires CountsChars(c) && c.size > 0 && Window(c, text, chunk)
    requires chunk.endPos == |text| || chunk.startPos == chunk.endPos == |text| - 1
    ensures chunk.startPos + c.size >= |text|
  {
  }

  /** Refinement: the binary-search chunker and the summarizer's arithmetic window cut every non-empty text
      alike; the empty text gives the one nothing and the other a single empty window. */
  method BothChunkers(c: Chunker, overlap: int, text: string) returns (chunks: seq<Chunk>, windows: seq<string>)
    requires c.Valid() && CountsChars(c) && 0 <= overlap < c.size
    ensures text != "" ==> ChunkTexts(chunks, 0) == windows
    ensures text == "" ==> chunks == [] && windows == [""]
  {
    chunks := SplitByChars(c, overlap, text);
    windows := SplitChunks(text, c.size, overlap);
    assert text == "" ==> Windows(text, 0, c.size, c.size - overlap) == [text[0..]];
  }

  method SplitByChars(c: Chunker, overlap: int, text: string) returns (chunks: seq<Chunk>)
    requires c.Valid() && CountsChars(c) && 0 <= overlap < c.size
    ensures text != "" ==> ChunkTexts(chunks, 0) == Windows(text, 0, c.size, c.size - overlap)
    ensures text == "" ==> chunks == []
  {
    chunks := Split(c, overlap, text, "", map[]);
    if text != "" {
      ChainIsWindows(c, text, overlap, chunks);
    }
  }

  /** Chunk `i` starts at `i * (limit - overlap)`. */
  lemma StartOfChunk(c: Chunker, text: string, overlap: int, chunks: seq<Chunk>, i: nat)
    requires CountsChars(c) && 0 <= overlap < c.size
    requires Chain(c, text, overlap, chunks) && i < |chunks|
    ensures chunks[i].startPos == i * (c.size - overlap)
  {
    ChainIsRegular(c, text, overlap, chunks);
    StartOfRegular(text, chunks, c.size, c.size - overlap, i);
  }

  lemma {:induction false} StartOfRegular(text: string, chunks: seq<Chunk>, limit: int, step: int, i: nat)
    requires Regular(text, chunks, limit, step) && i < |chunks|
    ensures chunks[i].startPos == i * step
  {
    if i > 0 {
      StartOfRegular(text, chunks, limit, step, i - 1);
      assert chunks[i].startPos == chunks[i - 1].startPos + step;
      OneStep(i, step);
    }
  }

  lemma OneStep(i: nat, step: int)
    requires i > 0
    ensures i * step == (i - 1) * step + step
  {
  }

  /** The windows with the overlap removed from all but the first. */
  function Unlapped(ws: seq<string>, overlap: nat): string
    requires ws != []
  {
    if |ws| == 1 then ws[0] else ws[0] + DropPrefixes(ws[1..], overlap)
  }

  function DropPrefixes(ws: seq<string>, overlap: nat): string {
    if ws == [] then ""
    else (if overlap <= |ws[0]| then ws[0][overlap..] else "") + DropPrefixes(ws[1..], overlap)
  }

  /** Dropping the overlap prefixes rebuilds the text. */
  lemma {:induction false} UnlapRebuilds(text: string, start: nat, limit: nat, step: nat)
    requires start <= |text| && 0 < step <= limit
    ensures Unlapped(Windows(text, start, limit, step), limit - step) == text[start..]
    decreases |text| - start
  {
    var ws := Windows(text, start, limit, step);
    if start + limit < |text| {
      var rest := Windows(text, start + step, limit, step);
      assert ws[1..] == rest;
      UnlapRebuilds(text, start + step, limit, step);
      DropFirst(rest, limit - step, text[start + step..]);
      Rejoin(text, start, limit, step);
    }
  }

  lemma Rejoin(text: string, start: nat, limit: nat, step: nat)
    requires step <= limit && start + limit <= |text|
    ensures text[start..] == text[start..start + limit] + text[start + step..][limit - step..]
  {
  }

  lemma {:induction false} DropFirst(ws: seq<string>, overlap: nat, whole: string)
    requires ws != [] && Unlapped(ws, overlap) == whole && overlap <= |ws[0]|
    ensures DropPrefixes(ws, overlap) == whole[overlap..]
  {
    if |ws| == 1 {
      assert ws[1..] == [];
    } else {
      assert ws[0][overlap..] + DropPrefixes(ws[1..], overlap) == whole[overlap..];
    }
  }
}
