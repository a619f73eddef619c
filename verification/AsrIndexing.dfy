/** From recognised speech to timed chunks: joining the segments, chunking the joined text and mapping
    chunk offsets back to audio times (ai-service/app/services/vector_indexing/vector_index_service.py). */
module AsrIndexing {
  import opened Text
  import opened BaseChunker
  import opened Asr
  import Para = ParagraphChunker
  import Fixed = FixedTokenChunker
  import Semantic = SemanticChunker

  /** Where a segment lies in the joined text, and when it was spoken. */
  datatype Range = Range(start: int, end: int, timeStart: real, timeEnd: real)

  /** The segments that have text, in order. */
  function Spoken(segments: seq<AsrSegment>): seq<AsrSegment> {
    if segments == [] then []
    else
      var init, last := segments[..|segments| - 1], segments[|segments| - 1];
      if last.text == "" then Spoken(init) else Spoken(init) + [last]
  }

  /** They are the segments with text, all of them and in order. */
  lemma {:induction false} SpokenAreAll(segments: seq<AsrSegment>, x: AsrSegment)
    ensures Subsequence(Spoken(segments), segments)
    ensures multiset(Spoken(segments))[x] == if x.text == "" then 0 else multiset(segments)[x]
  {
    if segments != [] {
      var init, last := segments[..|segments| - 1], segments[|segments| - 1];
      assert segments == init + [last];
      SpokenAreAll(init, x);
      SubsequenceSnoc(Spoken(init), init, last);
    }
  }

  /** `" ".join(parts)`. */
  function JoinSpace(parts: seq<string>): string {
    if |parts| <= 1 then (if parts == [] then "" else parts[0])
    else JoinSpace(parts[..|parts| - 1]) + " " + parts[|parts| - 1]
  }

  ghost predicate RangeOf(r: Range, full: string, segment: AsrSegment) {
    && 0 <= r.start < r.end <= |full| && full[r.start..r.end] == segment.text
    && r.timeStart == segment.start && r.timeEnd == segment.end
  }

  predicate SpaceAt(full: string, pos: int) {
    0 <= pos < |full| && full[pos] == ' '
  }

  /** Each range slices the joined text back to its segment, and one space separates neighbours. */
  ghost predicate Recorded(ranges: seq<Range>, full: string, spoken: seq<AsrSegment>) {
    && Located(ranges, full, spoken)
    && (if ranges == [] then full == "" else ranges[0].start == 0 && ranges[|ranges| - 1].end == |full|)
  }

  ghost predicate Located(ranges: seq<Range>, full: string, spoken: seq<AsrSegment>) {
    && |ranges| == |spoken|
    && (forall i :: 0 <= i < |ranges| ==> RangeOf(ranges[i], full, spoken[i]))
    && (forall i, j :: 0 <= i < j < |ranges| && j == i + 1 ==> ranges[j].start == ranges[i].end + 1)
    && (forall i :: 0 <= i < |ranges| - 1 ==> SpaceAt(full, ranges[i].end))
  }

  method BuildTextRanges(segments: seq<AsrSegment>) returns (full: string, ranges: seq<Range>)
    ensures Recorded(ranges, full, Spoken(segments))
  {
    var parts: seq<string> := [];
    ranges := [];
    var cursor := 0;
    for n := 0 to |segments|
      invariant Built(ranges, parts, cursor, Spoken(segments[..n]))
    {
      SpokenStep(segments, n);
      if segments[n].text != "" {
        ranges, parts, cursor := Append(ranges, parts, cursor, segments[n], Spoken(segments[..n]));
      }
    }
    assert segments[..|segments|] == segments;
    full := JoinSpace(parts);
  }

  /** One round of the loop: a segment with text takes its range after the text so far and a space. */
  method Append(ranges0: seq<Range>, parts0: seq<string>, cursor0: int, segment: AsrSegment,
                ghost spoken: seq<AsrSegment>)
    returns (ranges: seq<Range>, parts: seq<string>, cursor: int)
    requires Built(ranges0, parts0, cursor0, spoken) && segment.text != ""
    ensures Built(ranges, parts, cursor, spoken + [segment])
  {
    AddSegment(ranges0, parts0, cursor0, spoken, segment);
    cursor := cursor0;
    if parts0 != [] {
      cursor := cursor + 1;
    }
    var end := cursor + |segment.text|;
    ranges := ranges0 + [Range(cursor, end, segment.start, segment.end)];
    parts := parts0 + [segment.text];
    cursor := end;
  }

  lemma SpokenStep(segments: seq<AsrSegment>, n: nat)
    requires n < |segments|
    ensures Spoken(segments[..n + 1])
         == if segments[n].text == "" then Spoken(segments[..n]) else Spoken(segments[..n]) + [segments[n]]
  {
    assert segments[..n + 1][..n] == segments[..n];
  }

  ghost predicate Built(ranges: seq<Range>, parts: seq<string>, cursor: int, spoken: seq<AsrSegment>) {
    Recorded(ranges, JoinSpace(parts), spoken) && cursor == |JoinSpace(parts)| && |parts| == |ranges|
  }

  lemma AddSegment(ranges: seq<Range>, parts: seq<string>, cursor: int, spoken: seq<AsrSegment>, segment: AsrSegment)
    requires Built(ranges, parts, cursor, spoken) && segment.text != ""
    ensures var at := cursor + (if parts == [] then 0 else 1);
            Built(ranges + [Range(at, at + |segment.text|, segment.start, segment.end)], parts + [segment.text],
                  at + |segment.text|, spoken + [segment])
  {
    JoinSnoc(parts, segment.text);
    Extended(ranges, JoinSpace(parts), JoinSpace(parts + [segment.text]), spoken, segment);
  }

  lemma JoinSnoc(parts: seq<string>, x: string)
    ensures JoinSpace(parts + [x]) == if parts == [] then x else JoinSpace(parts) + " " + x
  {
    assert (parts + [x])[..|parts|] == parts;
  }

  lemma Extended(ranges: seq<Range>, joined: string, longer: string, spoken: seq<AsrSegment>, segment: AsrSegment)
    requires Recorded(ranges, joined, spoken) && segment.text != ""
    requires longer == if ranges == [] then segment.text else joined + " " + segment.text
    ensures var at := |joined| + (if ranges == [] then 0 else 1);
            && |longer| == at + |segment.text|
            && Recorded(ranges + [Range(at, at + |segment.text|, segment.start, segment.end)], longer,
                spoken + [segment])
  {
    var at := |joined| + (if ranges == [] then 0 else 1);
    var r := Range(at, at + |segment.text|, segment.start, segment.end);
    LastPart(joined, longer, segment.text, at);
    LongerText(ranges, joined, longer, spoken);
    LocatedSnoc(ranges, longer, spoken, r, segment);
  }

  lemma LastPart(joined: string, longer: string, text: string, at: nat)
    requires if at == |joined| then joined == "" && longer == text
             else at == |joined| + 1 && longer == joined + " " + text
    ensures joined <= longer && |longer| == at + |text| && longer[at..at + |text|] == text
    ensures at > |joined| ==> longer[|joined|] == ' '
  {
  }

  lemma LocatedSnoc(ranges: seq<Range>, full: string, spoken: seq<AsrSegment>, r: Range, segment: AsrSegment)
    requires Located(ranges, full, spoken) && RangeOf(r, full, segment)
    requires ranges != [] ==> r.start == ranges[|ranges| - 1].end + 1 && SpaceAt(full, ranges[|ranges| - 1].end)
    ensures Located(ranges + [r], full, spoken + [segment])
  {
    var all := ranges + [r];
    forall i, j | 0 <= i < j < |all| && j == i + 1 ensures all[j].start == all[i].end + 1 {
      if j < |ranges| {
        assert all[i] == ranges[i] && all[j] == ranges[j];
      }
    }
    forall i | 0 <= i < |all| ensures RangeOf(all[i], full, (spoken + [segment])[i]) {
      if i < |ranges| {
        assert RangeOf(ranges[i], full, spoken[i]);
      }
    }
  }

  lemma LongerText(ranges: seq<Range>, full: string, longer: string, spoken: seq<AsrSegment>)
    requires Located(ranges, full, spoken) && full <= longer
    ensures Located(ranges, longer, spoken)
  {
    assert forall pos :: 0 <= pos < |full| ==> longer[pos] == full[pos];
    forall i | 0 <= i < |ranges| - 1 ensures SpaceAt(longer, ranges[i].end) {
      assert SpaceAt(full, ranges[i].end);
    }
    forall i | 0 <= i < |ranges| ensures RangeOf(ranges[i], longer, spoken[i]) {
      assert RangeOf(ranges[i], full, spoken[i]);
      assert longer[ranges[i].start..ranges[i].end] == full[ranges[i].start..ranges[i].end];
    }
  }

  function Max(a: int, b: int): int { if a < b then b else a }
  function Min(a: int, b: int): int { if a < b then a else b }

  predicate Overlaps(chunk: Chunk, r: Range) {
    Min(chunk.endPos, r.end) - Max(chunk.startPos, r.start) > 0
  }

  /** `lo` and `hi` are the least start and greatest end among the first `n` ranges that overlap the chunk. */
  ghost predicate SpanOf(chunk: Chunk, ranges: seq<Range>, n: nat, lo: Option<real>, hi: Option<real>)
    requires n <= |ranges|
  {
    && (lo.Some? <==> hi.Some?)
    && (forall i :: 0 <= i < n && Overlaps(chunk, ranges[i]) ==>
          lo.Some? && lo.value <= ranges[i].timeStart && ranges[i].timeEnd <= hi.value)
    && (lo.Some? ==> exists i :: 0 <= i < n && Overlaps(chunk, ranges[i]) && ranges[i].timeStart == lo.value)
    && (hi.Some? ==> exists i :: 0 <= i < n && Overlaps(chunk, ranges[i]) && ranges[i].timeEnd == hi.value)
  }

  /** The inner loop: the time span of one chunk. */
  method TimeSpan(chunk: Chunk, ranges: seq<Range>) returns (lo: Option<real>, hi: Option<real>)
    ensures SpanOf(chunk, ranges, |ranges|, lo, hi)
  {
    lo, hi := None, None;
    for n := 0 to |ranges|
      invariant SpanOf(chunk, ranges, n, lo, hi)
    {
      var r := ranges[n];
      var overlap := Min(chunk.endPos, r.end) - Max(chunk.startPos, r.start);
      if overlap > 0 {
        if lo.None? || r.timeStart < lo.value {
          lo := Some(r.timeStart);
        }
        if hi.None? || r.timeEnd > hi.value {
          hi := Some(r.timeEnd);
        }
      }
    }
  }

  /** The chunk with its times added to the metadata. */
  ghost predicate TimedBy(timed: Chunk, chunk: Chunk, ranges: seq<Range>) {
    exists lo, hi :: SpanOf(chunk, ranges, |ranges|, lo, hi)
        && timed == chunk.(metadata := WithTimes(chunk.metadata, lo, hi))
  }

  function WithTimes(metadata: map<string, MetaValue>, lo: Option<real>, hi: Option<real>): map<string, MetaValue> {
    var m := if lo.Some? then metadata["start_time" := Num(lo.value)] else metadata;
    if hi.Some? then m["end_time" := Num(hi.value)] else m
  }

  method ApplyTimeRanges(chunks: seq<Chunk>, ranges: seq<Range>) returns (mapped: seq<Chunk>)
    ensures |mapped| == |chunks|
    ensures ranges == [] ==> mapped == chunks
    ensures ranges != [] ==> forall i :: 0 <= i < |chunks| ==> TimedBy(mapped[i], chunks[i], ranges)
  {
    if ranges == [] {
      return chunks;
    }
    mapped := [];
    for n := 0 to |chunks|
      invariant |mapped| == n
      invariant forall i :: 0 <= i < n ==> TimedBy(mapped[i], chunks[i], ranges)
    {
      var lo, hi := TimeSpan(chunks[n], ranges);
      mapped := mapped + [chunks[n].(metadata := WithTimes(chunks[n].metadata, lo, hi))];
    }
  }

  /** The chunk carries times that contain the range's interval. */
  ghost predicate TimesContain(chunk: Chunk, r: Range) {
    && "start_time" in chunk.metadata && "end_time" in chunk.metadata
    && chunk.metadata["start_time"].Num? && chunk.metadata["end_time"].Num?
    && chunk.metadata["start_time"].r <= r.timeStart && r.timeEnd <= chunk.metadata["end_time"].r
  }

  /** The character at `pos` is in a chunk whose times contain those of the range. */
  ghost predicate Findable(chunks: seq<Chunk>, full: string, r: Range, pos: int)
    requires 0 <= pos < |full|
  {
    exists i :: 0 <= i < |chunks| && chunks[i].startPos <= pos < chunks[i].endPos
                && chunks[i].text == Sub(full, chunks[i].startPos, chunks[i].endPos) && TimesContain(chunks[i], r)
  }

  /** Every non-space character of every segment is in a chunk whose times contain the segment's. */
  ghost predicate AllFindable(chunks: seq<Chunk>, full: string, ranges: seq<Range>) {
    forall k, pos ::
      0 <= k < |ranges| && ranges[k].start <= pos < ranges[k].end && 0 <= pos < |full| && !IsSpace(full[pos]) ==>
      Findable(chunks, full, ranges[k], pos)
  }

  function Sub(s: string, a: int, b: int): string {
    if 0 <= a <= b <= |s| then s[a..b] else ""
  }

  predicate Within(pos: int, start: int, end: int) {
    start <= pos < end
  }

  /** Chunk and segment share a character of the text. */
  ghost predicate Meet(chunk: Chunk, r: Range) {
    exists pos :: Within(pos, chunk.startPos, chunk.endPos) && Within(pos, r.start, r.end)
  }

  lemma OverlapIsMeeting(chunk: Chunk, r: Range)
    ensures Overlaps(chunk, r) <==> Meet(chunk, r)
  {
    if Overlaps(chunk, r) {
      var pos := Max(chunk.startPos, r.start);
      assert Within(pos, chunk.startPos, chunk.endPos) && Within(pos, r.start, r.end);
    }
  }

  /** A chunk's times are the least start and the greatest end of the segments it meets; without such a segment it has
      none. */
  ghost predicate TimesAttained(chunk: Chunk, ranges: seq<Range>) {
    && (forall i :: 0 <= i < |ranges| && Meet(chunk, ranges[i]) ==> TimesContain(chunk, ranges[i]))
    && ("start_time" in chunk.metadata ==>
          exists i :: 0 <= i < |ranges| && Meet(chunk, ranges[i])
              && chunk.metadata["start_time"] == Num(ranges[i].timeStart))
    && ("end_time" in chunk.metadata ==>
          exists i :: 0 <= i < |ranges| && Meet(chunk, ranges[i])
              && chunk.metadata["end_time"] == Num(ranges[i].timeEnd))
  }

  /** A chunk covering a position of a range is given times that contain the range's. */
  lemma TimedContains(timed: Chunk, chunk: Chunk, ranges: seq<Range>, k: nat, pos: int)
    requires k < |ranges| && TimedBy(timed, chunk, ranges)
    requires chunk.startPos <= pos < chunk.endPos && ranges[k].start <= pos < ranges[k].end
    ensures TimesContain(timed, ranges[k])
  {
    assert Overlaps(chunk, ranges[k]);
  }

  lemma TimedAttained(timed: Chunk, chunk: Chunk, ranges: seq<Range>)
    requires TimedBy(timed, chunk, ranges)
    requires "start_time" !in chunk.metadata && "end_time" !in chunk.metadata
    ensures TimesAttained(timed, ranges)
  {
    var lo, hi :| SpanOf(chunk, ranges, |ranges|, lo, hi)
        && timed == chunk.(metadata := WithTimes(chunk.metadata, lo, hi));
    forall i | 0 <= i < |ranges| ensures Overlaps(chunk, ranges[i]) <==> Meet(timed, ranges[i]) {
      OverlapIsMeeting(timed, ranges[i]);
    }
  }

  /** The chunking strategies, with what each is configured with. */
  datatype Strategy = ByParagraph | BySeparators(separators: seq<string>) | ByTokens(overlap: int)

  /** The chunks are numbered slices of the text. */
  ghost predicate Chunked(c: Chunker, chunks: seq<Chunk>, full: string, resourceId: string,
                          metadata: map<string, MetaValue>) {
    && Numbered(c, chunks, PiecesOf(chunks), resourceId, metadata)
    && (forall i :: 0 <= i < |chunks| ==> StandsIn(chunks[i], full))
  }

  ghost predicate StandsIn(chunk: Chunk, full: string) {
    0 <= chunk.startPos <= chunk.endPos <= |full| && chunk.text == full[chunk.startPos..chunk.endPos]
  }

  /** Every character that is not white space lies in a chunk. */
  ghost predicate CoversText(chunks: seq<Chunk>, full: string) {
    forall pos :: 0 <= pos < |full| && !IsSpace(full[pos]) ==> Para.Covers(PiecesOf(chunks), pos)
  }

  /** What the strategy needs to cover a text: windows of tokens need every single character to fit one. */
  ghost predicate Suits(c: Chunker, strategy: Strategy, full: string) {
    strategy.ByTokens? ==> forall i :: 0 <= i < |full| ==> Fixed.CharFits(c, full, i)
  }

  /** Chunk a text with the configured strategy. */
  method ChunkText(c: Chunker, strategy: Strategy, full: string, resourceId: string, metadata: map<string, MetaValue>)
    returns (chunks: seq<Chunk>)
    requires c.Valid()
    ensures Chunked(c, chunks, full, resourceId, metadata)
    ensures Suits(c, strategy, full) ==> CoversText(chunks, full)
  {
    match strategy {
      case ByParagraph =>
        chunks := Para.Split(c, full, resourceId, metadata);
        ParagraphsCover(c, chunks, full);
      case BySeparators(separators) =>
        chunks := Semantic.Split(c, full, resourceId, metadata, separators);
        TilesCoverText(chunks, full);
      case ByTokens(overlap) =>
        chunks := Fixed.Split(c, overlap, full, resourceId, metadata);
        WindowsCover(c, chunks, full, Fixed.ClampedOverlap(c, overlap));
    }
  }

  lemma ParagraphsCover(c: Chunker, chunks: seq<Chunk>, full: string)
    requires Para.Ordered(c, PiecesOf(chunks), full)
    requires Para.Splits(c, PiecesOf(chunks), Para.Paragraphs(full, 0), |Para.Paragraphs(full, 0)|)
    ensures CoversText(chunks, full) && forall i :: 0 <= i < |chunks| ==> StandsIn(chunks[i], full)
  {
    forall pos | 0 <= pos < |full| && !IsSpace(full[pos]) ensures Para.Covers(PiecesOf(chunks), pos) {
      Para.OnlySpaceDropped(c, full, PiecesOf(chunks), pos);
    }
    forall i | 0 <= i < |chunks| ensures StandsIn(chunks[i], full) {
      assert Para.Slice(PiecesOf(chunks)[i], full);
    }
  }

  lemma TilesCoverText(chunks: seq<Chunk>, full: string)
    requires Tiles(PiecesOf(chunks), full, 0)
    ensures CoversText(chunks, full) && forall i :: 0 <= i < |chunks| ==> StandsIn(chunks[i], full)
  {
    var pieces := PiecesOf(chunks);
    forall pos | 0 <= pos < |full| && !IsSpace(full[pos]) ensures Para.Covers(pieces, pos) {
      var i := TilesCover(pieces, full, 0, |full|, pos);
    }
    forall i | 0 <= i < |chunks| ensures StandsIn(chunks[i], full) {
      assert SliceAt(pieces[i], full, 0);
      SubIsSlice(pieces[i].text, full, pieces[i].start);
    }
  }

  lemma WindowsCover(c: Chunker, chunks: seq<Chunk>, full: string, overlap: int)
    requires Fixed.Chain(c, full, overlap, chunks) && Fixed.Complete(full, chunks)
    ensures forall i :: 0 <= i < |chunks| ==> StandsIn(chunks[i], full)
    ensures (forall i :: 0 <= i < |full| ==> Fixed.CharFits(c, full, i)) ==> CoversText(chunks, full)
  {
    forall i | 0 <= i < |chunks| ensures StandsIn(chunks[i], full) {
      assert Fixed.Window(c, full, chunks[i]);
    }
    if forall i :: 0 <= i < |full| ==> Fixed.CharFits(c, full, i) {
      Fixed.NoGaps(c, full, overlap, chunks);
      forall pos | 0 <= pos < |full| && !IsSpace(full[pos]) ensures Para.Covers(PiecesOf(chunks), pos) {
        Fixed.NoGapsCover(chunks, |chunks|, pos);
        var i :| 0 <= i < |chunks| && chunks[i].startPos <= pos < chunks[i].endPos;
        assert PiecesOf(chunks)[i].start <= pos < PiecesOf(chunks)[i].end;
      }
    }
  }

  /** Indexing a transcript, up to embedding: the joined text, the ranges and the timed chunks. */
  method IndexAsr(c: Chunker, strategy: Strategy, segments: seq<AsrSegment>, resourceId: string)
    returns (full: string, ranges: seq<Range>, mapped: seq<Chunk>)
    requires c.Valid()
    ensures Recorded(ranges, full, Spoken(segments))
    ensures Suits(c, strategy, full) ==> AllFindable(mapped, full, ranges)
    ensures forall i :: 0 <= i < |mapped| ==>
              AudioChunk(c, mapped[i], full, resourceId, i) && TimesAttained(mapped[i], ranges)
    ensures Strip(full) == "" ==> mapped == []
  {
    if segments == [] {
      return "", [], [];
    }
    full, ranges := BuildTextRanges(segments);
    StripEmpty(full);
    if Strip(full) == "" {
      return full, ranges, [];
    }
    var metadata := map["source_type" := Str("audio")];
    var chunks := ChunkText(c, strategy, full, resourceId, metadata);
    mapped := ApplyTimeRanges(chunks, ranges);
    TimesFollow(c, full, ranges, resourceId, metadata, chunks, mapped);
    if Suits(c, strategy, full) {
      EndToEnd(c, full, ranges, resourceId, metadata, chunks, mapped);
    }
  }

  /** Chunk `i` of the recording: a slice of the text with its tokens counted, marked as audio if metadata is kept. */
  ghost predicate AudioChunk(c: Chunker, chunk: Chunk, full: string, resourceId: string, i: nat) {
    && StandsIn(chunk, full)
    && chunk.id == resourceId + "-" + Decimal(i) && chunk.resourceId == resourceId && chunk.index == i
    && chunk.tokenCount == c.count(chunk.text)
    && chunk.metadata - {"start_time", "end_time"}
         == if c.preserveMetadata then map["source_type" := Str("audio")] else map[]
  }

  ghost predicate TimedAll(mapped: seq<Chunk>, chunks: seq<Chunk>, ranges: seq<Range>) {
    |mapped| == |chunks| && forall i :: 0 <= i < |chunks| ==> TimedBy(mapped[i], chunks[i], ranges)
  }

  lemma TimesFollow(c: Chunker, full: string, ranges: seq<Range>, resourceId: string, metadata: map<string, MetaValue>,
                    chunks: seq<Chunk>, mapped: seq<Chunk>)
    requires Chunked(c, chunks, full, resourceId, metadata) && TimedAll(mapped, chunks, ranges)
    requires metadata == map["source_type" := Str("audio")]
    ensures forall i :: 0 <= i < |mapped| ==>
              AudioChunk(c, mapped[i], full, resourceId, i) && TimesAttained(mapped[i], ranges)
  {
    forall i | 0 <= i < |mapped|
      ensures AudioChunk(c, mapped[i], full, resourceId, i) && TimesAttained(mapped[i], ranges)
    {
      assert TimedBy(mapped[i], chunks[i], ranges) && StandsIn(chunks[i], full);
      TimedAttained(mapped[i], chunks[i], ranges);
    }
  }

  lemma EndToEnd(c: Chunker, full: string, ranges: seq<Range>, resourceId: string, metadata: map<string, MetaValue>,
                 chunks: seq<Chunk>, mapped: seq<Chunk>)
    requires Chunked(c, chunks, full, resourceId, metadata) && TimedAll(mapped, chunks, ranges)
    requires CoversText(chunks, full)
    ensures AllFindable(mapped, full, ranges)
  {
    forall k, pos | 0 <= k < |ranges| && ranges[k].start <= pos < ranges[k].end && 0 <= pos < |full|
        && !IsSpace(full[pos])
      ensures Findable(mapped, full, ranges[k], pos)
    {
      assert Para.Covers(PiecesOf(chunks), pos);
      FoundIn(full, ranges, chunks, mapped, k, pos);
    }
  }

  lemma FoundIn(full: string, ranges: seq<Range>, chunks: seq<Chunk>, mapped: seq<Chunk>, k: nat, pos: nat)
    requires forall i :: 0 <= i < |chunks| ==> StandsIn(chunks[i], full)
    requires TimedAll(mapped, chunks, ranges)
    requires k < |ranges| && ranges[k].start <= pos < ranges[k].end && pos < |full|
    requires Para.Covers(PiecesOf(chunks), pos)
    ensures Findable(mapped, full, ranges[k], pos)
  {
    var i :| 0 <= i < |chunks| && PiecesOf(chunks)[i].start <= pos < PiecesOf(chunks)[i].end;
    assert TimedBy(mapped[i], chunks[i], ranges) && StandsIn(chunks[i], full);
    TimedContains(mapped[i], chunks[i], ranges, k, pos);
  }
}
