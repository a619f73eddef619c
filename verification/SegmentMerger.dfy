/** Merging short subtitle segments and splitting long ones (ai-service/app/services/segment_merger.py). */
module SegmentMerger {
  import opened Text
  import opened Asr
  import opened StableSort

  datatype Config = Config(minDuration: real, maxDuration: real, maxChars: int, language: Option<string>)

  predicate WritesWithoutSpaces(language: Option<string>) {
    language.Some? && language.value in ["zh", "zh-cn", "zh-tw", "ja", "ko"]
  }

  function JoinText(left: string, right: string, language: Option<string>): string {
    if WritesWithoutSpaces(language) then left + right else Strip(left + " " + right)
  }

  /** The texts of the cues, end to end. */
  function CueText(cues: seq<AsrSegment>): string {
    if cues == [] then "" else CueText(cues[..|cues| - 1]) + cues[|cues| - 1].text
  }

  lemma CueTextSnoc(cues: seq<AsrSegment>, cue: AsrSegment)
    ensures CueText(cues + [cue]) == CueText(cues) + cue.text
  {
    assert (cues + [cue])[..|cues|] == cues;
  }

  lemma {:induction false} CueTextAppend(a: seq<AsrSegment>, b: seq<AsrSegment>)
    ensures CueText(a + b) == CueText(a) + CueText(b)
  {
    if b == [] {
      assert a + b == a;
    } else {
      var n := |b| - 1;
      CueTextAppend(a, b[..n]);
      assert a + b == (a + b[..n]) + [b[n]];
      CueTextSnoc(a + b[..n], b[n]);
      AppendAssoc(CueText(a), CueText(b[..n]), b[n].text);
    }
  }

  // ----- splitting a long cue -----

  /** Adjacent cues do not overlap. */
  ghost predicate Chronological(cues: seq<AsrSegment>) {
    && (forall i :: 0 <= i < |cues| ==> cues[i].start <= cues[i].end)
    && (forall i, j :: 0 <= i < j < |cues| ==> cues[i].end <= cues[j].start)
  }

  /** Seconds per character. */
  function Rate(segment: AsrSegment): real
    requires segment.text != ""
  {
    (segment.end - segment.start) / (|segment.text| as real)
  }

  /** The time `n` characters take at `rate`: `n` times `rate`. */
  function Share(rate: real, n: nat): real {
    if n == 0 then 0.0 else Share(rate, n - 1) + rate
  }

  lemma {:induction false} ShareIsProduct(rate: real, n: nat)
    ensures Share(rate, n) == rate * (n as real)
  {
    if n > 0 {
      ShareIsProduct(rate, n - 1);
    }
  }

  lemma {:induction false} ShareAdds(rate: real, a: nat, b: nat)
    ensures Share(rate, a + b) == Share(rate, a) + Share(rate, b)
    ensures rate >= 0.0 ==> Share(rate, b) >= 0.0
  {
    if b > 0 {
      ShareAdds(rate, a, b - 1);
    }
  }

  /** The pieces carry the segment's text in runs of `maxChars`, share its confidence, touch each other,
      span its interval, and last in proportion to their length. */
  ghost predicate IsSplit(pieces: seq<AsrSegment>, segment: AsrSegment, maxChars: int) {
    if |segment.text| <= maxChars then pieces == [segment]
    else
      && segment.text != "" && pieces != [] && CueText(pieces) == segment.text && Chronological(pieces)
      && pieces[0].start == segment.start && pieces[|pieces| - 1].end == segment.end
      && (forall i :: 0 <= i < |pieces| ==> PieceOf(pieces[i], segment, Rate(segment), maxChars))
      && (forall i :: 0 <= i < |pieces| - 1 ==> |pieces[i].text| == maxChars)
      && (forall i, j :: 0 <= i < j < |pieces| && j == i + 1 ==> pieces[i].end == pieces[j].start)
  }

  ghost predicate PieceOf(piece: AsrSegment, segment: AsrSegment, rate: real, maxChars: int) {
    && 0 < |piece.text| <= maxChars && piece.confidence == segment.confidence
    && piece.end - piece.start == Share(rate, |piece.text|)
  }

  /** The first loop: runs of `maxChars` characters. */
  method TextRuns(text: string, maxChars: int) returns (chunks: seq<string>)
    requires maxChars >= 1
    ensures Concat(chunks) == text
    ensures forall i :: 0 <= i < |chunks| ==> 0 < |chunks[i]| <= maxChars
    ensures forall i :: 0 <= i < |chunks| - 1 ==> |chunks[i]| == maxChars
  {
    chunks := [];
    var i := 0;
    while i < |text|
      invariant 0 <= i
      invariant Concat(chunks) == text[..if i < |text| then i else |text|]
      invariant forall k :: 0 <= k < |chunks| ==> 0 < |chunks[k]| <= maxChars
      invariant forall k :: 0 <= k < |chunks| - (if i < |text| then 0 else 1) ==> |chunks[k]| == maxChars
    {
      var end := if i + maxChars < |text| then i + maxChars else |text|;
      ConcatSnoc(chunks, text[i..end]);
      assert text[..i] + text[i..end] == text[..end];
      chunks := chunks + [text[i..end]];
      i := i + maxChars;
    }
    assert text[..|text|] == text;
  }

  /** The time loop after `n` runs: `at` is where the next piece starts. */
  ghost predicate Timed(pieces: seq<AsrSegment>, segment: AsrSegment, rate: real, chunks: seq<string>, maxChars: int,
                        n: nat, at: real)
    requires n <= |chunks|
  {
    && |pieces| == n && CueText(pieces) == Concat(chunks[..n])
    && at == segment.start + Share(rate, |Concat(chunks[..n])|)
    && Touching(pieces, segment.start, at)
    && (forall i :: 0 <= i < n ==> PieceOf(pieces[i], segment, rate, maxChars) && pieces[i].text == chunks[i])
  }

  /** The cues run from `from` to `to`, each starting where the one before ends. */
  ghost predicate Touching(cues: seq<AsrSegment>, from: real, to: real) {
    && (if cues == [] then from == to else cues[0].start == from && cues[|cues| - 1].end == to)
    && (forall i :: 0 <= i < |cues| ==> cues[i].start <= cues[i].end <= to)
    && (forall i, j :: 0 <= i < j < |cues| ==> cues[i].end <= cues[j].start)
    && (forall i, j :: 0 <= i < j < |cues| && j == i + 1 ==> cues[i].end == cues[j].start)
  }

  lemma TouchingSnoc(cues: seq<AsrSegment>, from: real, to: real, cue: AsrSegment)
    requires Touching(cues, from, to) && cue.start == to <= cue.end
    ensures Touching(cues + [cue], from, cue.end)
  {
  }

  /** A run's part of the duration, as the code computes it, is its share at the segment's rate. */
  lemma ShareOfDuration(segment: AsrSegment, len: nat)
    requires segment.text != ""
    ensures (segment.end - segment.start) * (len as real / |segment.text| as real) == Share(Rate(segment), len)
  {
    ShareIsProduct(Rate(segment), len);
    var d, t, l := segment.end - segment.start, |segment.text| as real, len as real;
    Fractions(d, t, l);
  }

  lemma Fractions(d: real, t: real, l: real)
    requires t > 0.0
    ensures d * (l / t) == (d / t) * l
  {
  }

  lemma WholeDuration(segment: AsrSegment)
    requires segment.text != ""
    ensures Share(Rate(segment), |segment.text|) == segment.end - segment.start
  {
    ShareIsProduct(Rate(segment), |segment.text|);
  }

  lemma RateNotNegative(segment: AsrSegment)
    requires segment.text != "" && segment.start <= segment.end
    ensures Rate(segment) >= 0.0
  {
  }

  /** The end computed for run `n` is its start plus its share of the duration, on the last run too. */
  lemma EndOfRun(segment: AsrSegment, chunks: seq<string>, n: nat, at: real, end: real)
    requires segment.text != "" && segment.start <= segment.end && Concat(chunks) == segment.text && n < |chunks|
    requires at == segment.start + Share(Rate(segment), |Concat(chunks[..n])|)
    requires var share := at + Share(Rate(segment), |chunks[n]|);
             end == if n == |chunks| - 1 then segment.end else if share < segment.end then share else segment.end
    ensures end == at + Share(Rate(segment), |chunks[n]|) && at <= end
    ensures end == segment.start + Share(Rate(segment), |Concat(chunks[..n + 1])|)
  {
    var r := Rate(segment);
    var upTo, len := |Concat(chunks[..n])|, |chunks[n]|;
    ConcatPrefix(chunks, n);
    WholeDuration(segment);
    RateNotNegative(segment);
    ShareAdds(r, upTo, len);
    ShareAdds(r, upTo + len, |segment.text| - (upTo + len));
    if n == |chunks| - 1 {
      assert chunks[..n + 1] == chunks;
    }
  }

  lemma ConcatPrefix(chunks: seq<string>, n: nat)
    requires n < |chunks|
    ensures |Concat(chunks[..n + 1])| == |Concat(chunks[..n])| + |chunks[n]|
    ensures Concat(chunks[..n + 1]) == Concat(chunks[..n]) + chunks[n]
    ensures |Concat(chunks[..n + 1])| <= |Concat(chunks)|
  {
    assert chunks[..n + 1] == chunks[..n] + [chunks[n]];
    ConcatSnoc(chunks[..n], chunks[n]);
    assert chunks == chunks[..n + 1] + chunks[n + 1..];
    ConcatAppend(chunks[..n + 1], chunks[n + 1..]);
  }

  lemma TimedStep(pieces: seq<AsrSegment>, segment: AsrSegment, rate: real, chunks: seq<string>, maxChars: int, n: nat,
                  at: real, end: real)
    requires n < |chunks| && Timed(pieces, segment, rate, chunks, maxChars, n, at)
    requires 0 < |chunks[n]| <= maxChars && at <= end
    requires end == at + Share(rate, |chunks[n]|)
    requires end == segment.start + Share(rate, |Concat(chunks[..n + 1])|)
    ensures Timed(pieces + [AsrSegment(at, end, chunks[n], segment.confidence)], segment, rate, chunks, maxChars,
            n + 1, end)
  {
    var piece := AsrSegment(at, end, chunks[n], segment.confidence);
    ConcatPrefix(chunks, n);
    CueTextSnoc(pieces, piece);
    TouchingSnoc(pieces, segment.start, at, piece);
    PiecesSnoc(pieces, piece, segment, rate, chunks, maxChars, n);
  }

  lemma PiecesSnoc(pieces: seq<AsrSegment>, piece: AsrSegment, segment: AsrSegment, rate: real, chunks: seq<string>,
                   maxChars: int, n: nat)
    requires n < |chunks| && |pieces| == n
    requires forall i :: 0 <= i < n ==> PieceOf(pieces[i], segment, rate, maxChars) && pieces[i].text == chunks[i]
    requires PieceOf(piece, segment, rate, maxChars) && piece.text == chunks[n]
    ensures forall i :: 0 <= i < n + 1 ==>
              PieceOf((pieces + [piece])[i], segment, rate, maxChars) && (pieces + [piece])[i].text == chunks[i]
  {
  }

  /** Where a run starting at `at` ends: after its share of the duration, or with the segment if it is the last. */
  method RunEnd(segment: AsrSegment, at: real, len: nat, isLast: bool) returns (end: real)
    requires segment.text != "" && segment.start <= segment.end
    ensures var share := at + Share(Rate(segment), len);
            end == if isLast then segment.end else if share < segment.end then share else segment.end
  {
    var duration := if segment.end - segment.start > 0.0 then segment.end - segment.start else 0.0;
    ShareOfDuration(segment, len);
    if isLast {
      end := segment.end;
    } else {
      var ratio := len as real / |segment.text| as real;
      end := if at + duration * ratio < segment.end then at + duration * ratio else segment.end;
    }
  }

  /** Split a cue that is too long, sharing its time by length. */
  method SplitLongSegment(segment: AsrSegment, maxChars: int) returns (pieces: seq<AsrSegment>)
    requires maxChars >= 1 && segment.start <= segment.end
    ensures IsSplit(pieces, segment, maxChars)
  {
    if |segment.text| <= maxChars {
      return [segment];
    }
    var chunks := TextRuns(segment.text, maxChars);
    pieces := [];
    var at := segment.start;
    ghost var rate := Rate(segment);
    for idx := 0 to |chunks|
      invariant Timed(pieces, segment, rate, chunks, maxChars, idx, at)
    {
      var end := RunEnd(segment, at, |chunks[idx]|, idx == |chunks| - 1);
      EndOfRun(segment, chunks, idx, at, end);
      TimedStep(pieces, segment, rate, chunks, maxChars, idx, at, end);
      pieces := pieces + [AsrSegment(at, end, chunks[idx], segment.confidence)];
      at := end;
    }
    SplitDone(pieces, segment, chunks, maxChars, at);
  }

  lemma SplitDone(pieces: seq<AsrSegment>, segment: AsrSegment, chunks: seq<string>, maxChars: int, at: real)
    requires |segment.text| > maxChars >= 1 && Concat(chunks) == segment.text
    requires forall i :: 0 <= i < |chunks| - 1 ==> |chunks[i]| == maxChars
    requires Timed(pieces, segment, Rate(segment), chunks, maxChars, |chunks|, at)
    ensures IsSplit(pieces, segment, maxChars)
  {
    assert chunks[..|chunks|] == chunks;
    WholeDuration(segment);
  }

  method EnsureMaxChars(config: Config, segment: AsrSegment) returns (pieces: seq<AsrSegment>)
    requires config.maxChars >= 1 && segment.start <= segment.end
    ensures IsSplit(pieces, segment, config.maxChars)
  {
    if |segment.text| <= config.maxChars {
      return [segment];
    }
    pieces := SplitLongSegment(segment, config.maxChars);
  }

  // ----- normalizing -----

  function StartOf(): AsrSegment -> real { (s: AsrSegment) => s.start }

  function Fix(s: AsrSegment): (r: AsrSegment) {
    var start := if s.start > 0.0 then s.start else 0.0;
    s.(start := start, end := if s.end < start then start else s.end)
  }

  /** The input sorted by start, with negative starts and durations repaired. */
  function Normalized(segments: seq<AsrSegment>): seq<AsrSegment> {
    Map(Sort(segments, StartOf()), Fix)
  }

  /** Segment by segment the texts and confidences of the sorted input, with negative starts raised to zero and ends
      raised to the start. */
  ghost predicate Repaired(normalized: seq<AsrSegment>, sorted: seq<AsrSegment>) {
    && |normalized| == |sorted|
    && forall i :: 0 <= i < |sorted| ==>
         && normalized[i].text == sorted[i].text && normalized[i].confidence == sorted[i].confidence
         && normalized[i].start == (if sorted[i].start >= 0.0 then sorted[i].start else 0.0)
         && normalized[i].end == (if sorted[i].end >= normalized[i].start then sorted[i].end else normalized[i].start)
  }

  /** Normalizing repairs the input sorted by start, equal starts in their order. */
  method Normalize(segments: seq<AsrSegment>) returns (normalized: seq<AsrSegment>)
    ensures normalized == Normalized(segments)
    ensures Repaired(normalized, Sort(segments, StartOf()))
  {
    NormalizedIsRepaired(segments);
    var sorted := Sort(segments, StartOf());
    normalized := [];
    for n := 0 to |sorted|
      invariant normalized == Map(sorted[..n], Fix)
    {
      var segment := sorted[n];
      var start := if segment.start > 0.0 then segment.start else 0.0;
      var end := segment.end;
      if end < start {
        end := start;
      }
      normalized := normalized + [segment.(start := start, end := end)];
    }
    assert sorted[..|sorted|] == sorted;
  }

  lemma NormalizedIsRepaired(segments: seq<AsrSegment>)
    ensures Repaired(Normalized(segments), Sort(segments, StartOf()))
  {
  }

  /** Times that need no repair. */
  ghost predicate ValidTimes(segments: seq<AsrSegment>) {
    forall i :: 0 <= i < |segments| ==> 0.0 <= segments[i].start <= segments[i].end
  }

  /** Input with valid times is only sorted. */
  lemma ValidIsKept(segments: seq<AsrSegment>)
    requires ValidTimes(segments)
    ensures Normalized(segments) == Sort(segments, StartOf())
  {
    var sorted := Sort(segments, StartOf());
    forall i | 0 <= i < |sorted| ensures 0.0 <= sorted[i].start <= sorted[i].end {
      SameElements(segments, StartOf(), sorted[i]);
    }
  }

  ghost predicate Normal(s: seq<AsrSegment>) {
    && (forall i :: 0 <= i < |s| ==> s[i].start <= s[i].end)
    && (forall i, j :: 0 <= i < j < |s| ==> s[i].start <= s[j].start)
  }

  /** Normalizing orders the starts and loses no text. */
  lemma NormalizedIsNormal(segments: seq<AsrSegment>)
    ensures Normal(Normalized(segments))
    ensures CueText(Normalized(segments)) == CueText(Sort(segments, StartOf()))
  {
    SortSorts(segments, StartOf());
    FixedIsNormal(Sort(segments, StartOf()));
    SameTexts(Sort(segments, StartOf()));
  }

  lemma FixedIsNormal(sorted: seq<AsrSegment>)
    requires Sorted(sorted, StartOf())
    ensures Normal(Map(sorted, Fix))
  {
    forall i, j | 0 <= i < j < |sorted| ensures Fix(sorted[i]).start <= Fix(sorted[j]).start {
      assert StartOf()(sorted[i]) <= StartOf()(sorted[j]);
    }
  }

  lemma {:induction false} SameTexts(sorted: seq<AsrSegment>)
    ensures CueText(Map(sorted, Fix)) == CueText(sorted)
  {
    if sorted != [] {
      var n := |sorted| - 1;
      SameTexts(sorted[..n]);
      assert Map(sorted, Fix)[..n] == Map(sorted[..n], Fix);
    }
  }

  // ----- merging -----

  /** A group of consecutive segments as one cue. */
  function Fold(group: seq<AsrSegment>, language: Option<string>): AsrSegment
    requires group != []
  {
    if |group| == 1 then group[0]
    else
      var init, last := Fold(group[..|group| - 1], language), group[|group| - 1];
      init.(end := last.end, text := JoinText(init.text, last.text, language))
  }

  /** The merge rule: the next segment joins a very short cue always, a short one while the text stays short. */
  predicate Joins(config: Config, current: AsrSegment, segment: AsrSegment) {
    var duration := segment.end - current.start;
    duration < config.minDuration
    || (duration < config.maxDuration && |JoinText(current.text, segment.text, config.language)| < config.maxChars)
  }

  /** Every segment of the group after the first was allowed to join the ones before it. */
  ghost predicate Formed(config: Config, group: seq<AsrSegment>) {
    && group != []
    && forall k :: 0 < k < |group| ==> Joins(config, Fold(group[..k], config.language), group[k])
  }

  function Flatten<T>(groups: seq<seq<T>>): seq<T> {
    if groups == [] then [] else Flatten(groups[..|groups| - 1]) + groups[|groups| - 1]
  }

  lemma FlattenSnoc<T>(groups: seq<seq<T>>, g: seq<T>)
    ensures Flatten(groups + [g]) == Flatten(groups) + g
  {
    assert (groups + [g])[..|groups|] == groups;
  }

  /** Groups that could not have grown: the first segment of each was not allowed to join the group before. */
  ghost predicate Grouped(config: Config, groups: seq<seq<AsrSegment>>) {
    && (forall i :: 0 <= i < |groups| ==> Formed(config, groups[i]))
    && (forall i, j :: 0 <= i < j < |groups| && j == i + 1 ==>
          !Joins(config, Fold(groups[i], config.language), groups[j][0]))
  }

  /** `parts[i]` are the cues of `groups[i]`. */
  ghost predicate Rendered(config: Config, parts: seq<seq<AsrSegment>>, groups: seq<seq<AsrSegment>>) {
    && |parts| == |groups|
    && forall i :: 0 <= i < |groups| ==>
         groups[i] != [] && IsSplit(parts[i], Fold(groups[i], config.language), config.maxChars)
  }

  /** The fold after `n` segments: `groups` are closed and rendered, `group` is being formed as `current`. */
  ghost predicate Merging(config: Config, normalized: seq<AsrSegment>, n: nat, groups: seq<seq<AsrSegment>>,
                          group: seq<AsrSegment>, current: AsrSegment, parts: seq<seq<AsrSegment>>,
                          merged: seq<AsrSegment>) {
    && 0 < n <= |normalized| && group != [] && Fold(group, config.language) == current && current.start <= current.end
    && Flatten(groups) + group == normalized[..n]
    && Grouped(config, groups + [group])
    && Flatten(parts) == merged && Rendered(config, parts, groups)
    && current.start <= normalized[n - 1].start && current.end == normalized[n - 1].end
  }

  /** Merge segments into subtitle cues. The groups are the maximal runs the merge rule allows. */
  method Merge(config: Config, segments: seq<AsrSegment>)
    returns (merged: seq<AsrSegment>, ghost groups: seq<seq<AsrSegment>>, ghost parts: seq<seq<AsrSegment>>)
    requires config.maxChars >= 1
    ensures Flatten(groups) == Normalized(segments) && Grouped(config, groups)
    ensures Flatten(parts) == merged && Rendered(config, parts, groups)
    ensures Promised(config, segments, merged)
  {
    if segments == [] {
      assert Normalized([]) == [];
      merged, groups, parts := [], [], [];
    } else {
      var normalized := Normalize(segments);
      NormalizedIsNormal(segments);
      merged, groups, parts := MergeNormalized(config, normalized);
    }
    MergePromises(config, segments, groups, parts);
  }

  /** What a caller of the merger relies on: the text is kept, cues fit and are not reversed, and
      non-overlapping input stays non-overlapping over the same interval. */
  ghost predicate Promised(config: Config, segments: seq<AsrSegment>, merged: seq<AsrSegment>) {
    && KeepsText(config, Sort(segments, StartOf()), merged)
    && (forall i :: 0 <= i < |merged| ==> |merged[i].text| <= config.maxChars && merged[i].start <= merged[i].end)
    && KeepsTime(Normalized(segments), merged)
    && (ValidTimes(segments) ==> KeepsTime(Sort(segments, StartOf()), merged))
  }

  ghost predicate KeepsText(config: Config, segments: seq<AsrSegment>, merged: seq<AsrSegment>) {
    && NonSpace(CueText(merged)) == NonSpace(CueText(segments))
    && (config.language in UNSPACED ==> CueText(merged) == CueText(segments))
  }

  ghost predicate KeepsTime(segments: seq<AsrSegment>, merged: seq<AsrSegment>) {
    Chronological(segments) ==> Chronological(merged) && SameSpan(merged, segments)
  }

  /** The languages written without spaces. */
  const UNSPACED := [Some("zh"), Some("zh-cn"), Some("zh-tw"), Some("ja"), Some("ko")]

  ghost predicate SameSpan(a: seq<AsrSegment>, b: seq<AsrSegment>) {
    if a == [] || b == [] then a == b == []
    else a[0].start == b[0].start && a[|a| - 1].end == b[|b| - 1].end
  }

  lemma MergePromises(config: Config, segments: seq<AsrSegment>, groups: seq<seq<AsrSegment>>,
                      parts: seq<seq<AsrSegment>>)
    requires Flatten(groups) == Normalized(segments) && Rendered(config, parts, groups)
    ensures Promised(config, segments, Flatten(parts))
  {
    PromisesText(config, segments, groups, parts);
    PromisesTime(config, segments, groups, parts);
    MergeBoundsText(config, groups, parts);
  }

  lemma PromisesText(config: Config, segments: seq<AsrSegment>, groups: seq<seq<AsrSegment>>,
                     parts: seq<seq<AsrSegment>>)
    requires Flatten(groups) == Normalized(segments) && Rendered(config, parts, groups)
    ensures KeepsText(config, Sort(segments, StartOf()), Flatten(parts))
  {
    NormalizedIsNormal(segments);
    MergeKeepsText(config, groups, parts);
    Unspaced(config.language);
  }

  lemma Unspaced(language: Option<string>)
    ensures WritesWithoutSpaces(language) <==> language in UNSPACED
  {
  }

  lemma PromisesTime(config: Config, segments: seq<AsrSegment>, groups: seq<seq<AsrSegment>>,
                     parts: seq<seq<AsrSegment>>)
    requires Flatten(groups) == Normalized(segments) && Rendered(config, parts, groups)
    ensures forall i :: 0 <= i < |Flatten(parts)| ==> Flatten(parts)[i].start <= Flatten(parts)[i].end
    ensures KeepsTime(Normalized(segments), Flatten(parts))
    ensures ValidTimes(segments) ==> KeepsTime(Sort(segments, StartOf()), Flatten(parts))
  {
    NormalizedIsNormal(segments);
    MergeOrdersCues(config, groups, parts);
    GroupsKeepTime(config, groups, parts);
    if ValidTimes(segments) {
      ValidIsKept(segments);
    }
  }

  lemma GroupsKeepTime(config: Config, groups: seq<seq<AsrSegment>>, parts: seq<seq<AsrSegment>>)
    requires Rendered(config, parts, groups) && Normal(Flatten(groups))
    ensures KeepsTime(Flatten(groups), Flatten(parts))
  {
    if Chronological(Flatten(groups)) {
      MergeKeepsTime(config, groups, parts);
    }
  }

  method MergeNormalized(config: Config, normalized: seq<AsrSegment>)
    returns (merged: seq<AsrSegment>, ghost groups: seq<seq<AsrSegment>>, ghost parts: seq<seq<AsrSegment>>)
    requires config.maxChars >= 1 && normalized != [] && Normal(normalized)
    ensures Flatten(groups) == normalized && Grouped(config, groups)
    ensures Flatten(parts) == merged && Rendered(config, parts, groups)
  {
    groups, parts, merged := [], [], [];
    var current := normalized[0];
    ghost var group := [current];
    MergeStarts(config, normalized);
    for n := 1 to |normalized|
      invariant Merging(config, normalized, n, groups, group, current, parts, merged)
    {
      current, merged, groups, group, parts := Advance(config, normalized, n, current, merged, groups, group, parts);
    }
    var cues := EnsureMaxChars(config, current);
    MergeEnds(config, normalized, groups, group, current, parts, merged, cues);
    merged, parts, groups := merged + cues, parts + [cues], groups + [group];
  }

  /** One round of the merge loop: segment `n` joins the current cue, or closes it and starts the next. */
  method Advance(config: Config, normalized: seq<AsrSegment>, n: nat, current0: AsrSegment, merged0: seq<AsrSegment>,
                 ghost groups0: seq<seq<AsrSegment>>, ghost group0: seq<AsrSegment>, ghost parts0: seq<seq<AsrSegment>>)
    returns (current: AsrSegment, merged: seq<AsrSegment>,
             ghost groups: seq<seq<AsrSegment>>, ghost group: seq<AsrSegment>, ghost parts: seq<seq<AsrSegment>>)
    requires config.maxChars >= 1 && Normal(normalized) && n < |normalized|
    requires Merging(config, normalized, n, groups0, group0, current0, parts0, merged0)
    ensures Merging(config, normalized, n + 1, groups, group, current, parts, merged)
  {
    current, merged, groups, group, parts := current0, merged0, groups0, group0, parts0;
    var segment := normalized[n];
    var candidateDuration := segment.end - current.start;
    var candidateText := JoinText(current.text, segment.text, config.language);
    var shouldMerge := candidateDuration < config.minDuration
      || (candidateDuration < config.maxDuration && |candidateText| < config.maxChars);
    if shouldMerge {
      MergeJoins(config, normalized, n, groups, group, current, parts, merged);
      current := current.(end := segment.end, text := candidateText);
      group := group + [segment];
    } else {
      var cues := EnsureMaxChars(config, current);
      MergeCloses(config, normalized, n, groups, group, current, parts, merged, cues);
      merged, parts, groups := merged + cues, parts + [cues], groups + [group];
      current, group := segment, [segment];
    }
  }

  lemma MergeStarts(config: Config, normalized: seq<AsrSegment>)
    requires normalized != [] && Normal(normalized)
    ensures Merging(config, normalized, 1, [], [normalized[0]], normalized[0], [], [])
  {
    assert normalized[..1] == [] + [normalized[0]];
    assert [] + [[normalized[0]]] == [[normalized[0]]];
  }

  lemma MergeJoins(config: Config, normalized: seq<AsrSegment>, n: nat, groups: seq<seq<AsrSegment>>,
                   group: seq<AsrSegment>, current: AsrSegment, parts: seq<seq<AsrSegment>>, merged: seq<AsrSegment>)
    requires Normal(normalized) && n < |normalized|
             && Merging(config, normalized, n, groups, group, current, parts, merged)
    requires Joins(config, current, normalized[n])
    ensures Merging(config, normalized, n + 1, groups, group + [normalized[n]],
                    current.(end := normalized[n].end, text := JoinText(current.text, normalized[n].text,
                        config.language)),
                    parts, merged)
  {
    TakeOneMore(groups, group, normalized, n);
    GroupGrows(config, groups, group, normalized[n]);
  }

  lemma MergeCloses(config: Config, normalized: seq<AsrSegment>, n: nat, groups: seq<seq<AsrSegment>>,
                    group: seq<AsrSegment>, current: AsrSegment, parts: seq<seq<AsrSegment>>, merged: seq<AsrSegment>,
                    cues: seq<AsrSegment>)
    requires Normal(normalized) && n < |normalized|
             && Merging(config, normalized, n, groups, group, current, parts, merged)
    requires !Joins(config, current, normalized[n]) && IsSplit(cues, current, config.maxChars)
    ensures Merging(config, normalized, n + 1, groups + [group], [normalized[n]], normalized[n], parts + [cues],
            merged + cues)
  {
    TakeOneMore(groups, group, normalized, n);
    GroupEnds(config, groups, group, normalized[n]);
    CuesAdded(config, parts, groups, cues, group);
  }

  lemma MergeEnds(config: Config, normalized: seq<AsrSegment>, groups: seq<seq<AsrSegment>>,
                  group: seq<AsrSegment>, current: AsrSegment, parts: seq<seq<AsrSegment>>, merged: seq<AsrSegment>,
                  cues: seq<AsrSegment>)
    requires Merging(config, normalized, |normalized|, groups, group, current, parts, merged)
    requires IsSplit(cues, current, config.maxChars)
    ensures Flatten(groups + [group]) == normalized
    ensures Flatten(parts + [cues]) == merged + cues && Rendered(config, parts + [cues], groups + [group])
  {
    CuesAdded(config, parts, groups, cues, group);
    FlattenSnoc(groups, group);
    assert normalized[..|normalized|] == normalized;
  }

  lemma TakeOneMore(groups: seq<seq<AsrSegment>>, group: seq<AsrSegment>, normalized: seq<AsrSegment>, n: nat)
    requires n < |normalized| && Flatten(groups) + group == normalized[..n]
    ensures Flatten(groups) + (group + [normalized[n]]) == normalized[..n + 1]
    ensures Flatten(groups + [group]) + [normalized[n]] == normalized[..n + 1]
  {
    FlattenSnoc(groups, group);
    AppendAssoc(Flatten(groups), group, [normalized[n]]);
  }

  lemma GroupGrows(config: Config, groups: seq<seq<AsrSegment>>, group: seq<AsrSegment>, segment: AsrSegment)
    requires group != [] && Grouped(config, groups + [group]) && Joins(config, Fold(group, config.language), segment)
    ensures Grouped(config, groups + [group + [segment]])
    ensures Fold(group + [segment], config.language)
         == Fold(group, config.language).(end := segment.end, text := JoinText(Fold(group, config.language).text,
             segment.text, config.language))
  {
    var longer := group + [segment];
    assert longer[..|group|] == group;
    assert (groups + [group])[|groups|] == group;
    assert Formed(config, longer) by {
      forall k | 0 < k < |longer| ensures Joins(config, Fold(longer[..k], config.language), longer[k]) {
        if k < |group| {
          assert longer[..k] == group[..k];
        }
      }
    }
    var a, b := groups + [group], groups + [longer];
    forall i | 0 <= i < |b| ensures Formed(config, b[i]) {
      assert i < |groups| ==> b[i] == a[i];
    }
    forall i, j | 0 <= i < j < |b| && j == i + 1
      ensures !Joins(config, Fold(b[i], config.language), b[j][0])
    {
      assert b[i] == a[i] && b[j][0] == a[j][0];
    }
  }

  lemma GroupEnds(config: Config, groups: seq<seq<AsrSegment>>, group: seq<AsrSegment>, segment: AsrSegment)
    requires group != [] && Grouped(config, groups + [group]) && !Joins(config, Fold(group, config.language), segment)
    ensures Grouped(config, groups + [group] + [[segment]])
  {
    var a := groups + [group];
    var b := a + [[segment]];
    forall i | 0 <= i < |b| ensures Formed(config, b[i]) {
      assert i < |a| ==> b[i] == a[i];
    }
    forall i, j | 0 <= i < j < |b| && j == i + 1
      ensures !Joins(config, Fold(b[i], config.language), b[j][0])
    {
      assert b[i] == a[i];
      assert j < |a| ==> b[j] == a[j];
    }
  }

  lemma CuesAdded(config: Config, parts: seq<seq<AsrSegment>>, groups: seq<seq<AsrSegment>>, cues: seq<AsrSegment>,
                  group: seq<AsrSegment>)
    requires Rendered(config, parts, groups) && group != []
    requires IsSplit(cues, Fold(group, config.language), config.maxChars)
    ensures Rendered(config, parts + [cues], groups + [group])
    ensures Flatten(parts + [cues]) == Flatten(parts) + cues
  {
    FlattenSnoc(parts, cues);
  }

  /** As far as a group was formed, its cue is shorter than the minimal duration, or shorter than the maximal one with a
      short text. */
  lemma GroupStaysShort(config: Config, group: seq<AsrSegment>, k: nat)
    requires Formed(config, group) && 2 <= k <= |group|
    ensures var duration := group[k - 1].end - group[0].start;
            || duration < config.minDuration
            || (duration < config.maxDuration && |Fold(group[..k], config.language).text| < config.maxChars)
  {
    var init := group[..k - 1];
    assert Joins(config, Fold(init, config.language), group[k - 1]);
    FoldSpan(init, config.language);
    FoldSnoc(init, group[k - 1], config.language);
    assert group[..k] == init + [group[k - 1]];
  }

  /** With the next segment it would be neither. */
  lemma GroupCannotGrow(config: Config, groups: seq<seq<AsrSegment>>, i: nat, j: nat)
    requires Grouped(config, groups) && i < j < |groups| && j == i + 1
    ensures groups[i] != [] && groups[j] != []
    ensures var next := groups[j][0];
            var duration := next.end - groups[i][0].start;
            && duration >= config.minDuration
            && (duration >= config.maxDuration || |Fold(groups[i] + [next], config.language).text| >= config.maxChars)
  {
    assert Formed(config, groups[i]) && Formed(config, groups[j]);
    assert !Joins(config, Fold(groups[i], config.language), groups[j][0]);
    FoldSpan(groups[i], config.language);
    FoldSnoc(groups[i], groups[j][0], config.language);
  }

  lemma FoldSnoc(group: seq<AsrSegment>, segment: AsrSegment, language: Option<string>)
    requires group != []
    ensures Fold(group + [segment], language).text == JoinText(Fold(group, language).text, segment.text, language)
  {
    assert (group + [segment])[..|group|] == group;
  }

  /** The texts of a group, one space between neighbours. */
  function Spaced(group: seq<AsrSegment>): string
    requires group != []
  {
    if |group| == 1 then group[0].text else Spaced(group[..|group| - 1]) + " " + group[|group| - 1].text
  }

  /** For every other language a group of texts without surrounding white space reads with single spaces between
      them. */
  lemma {:induction false} FoldSpaces(group: seq<AsrSegment>, language: Option<string>)
    requires group != [] && language !in UNSPACED
    requires forall i :: 0 <= i < |group| ==> group[i].text != "" && Trimmed(group[i].text)
    ensures Fold(group, language).text == Spaced(group) && Spaced(group) != "" && Trimmed(Spaced(group))
  {
    if |group| > 1 {
      var init := group[..|group| - 1];
      FoldSpaces(init, language);
      var joined := Spaced(init) + " " + group[|group| - 1].text;
      assert joined[0] == Spaced(init)[0];
      assert joined[|joined| - 1] == group[|group| - 1].text[|group[|group| - 1].text| - 1];
      StripIsTrimmed(joined);
    }
  }

  // ----- what merging promises -----

  lemma SpaceBetween(left: string, right: string)
    ensures NonSpace(left + " " + right) == NonSpace(left) + NonSpace(right)
  {
    NonSpaceConcat(left + " ", right);
    NonSpaceConcat(left, " ");
    NonSpaceOfSpace(" ");
    assert NonSpace(left) + "" == NonSpace(left);
  }

  lemma JoinKeepsNonSpace(left: string, right: string, language: Option<string>)
    ensures NonSpace(JoinText(left, right, language)) == NonSpace(left) + NonSpace(right)
  {
    if WritesWithoutSpaces(language) {
      NonSpaceConcat(left, right);
    } else {
      SpaceBetween(left, right);
      StripKeepsNonSpace(left + " " + right);
    }
  }

  /** Folding a group keeps its non-space characters, and its exact text when no spaces are written. */
  lemma {:induction false} FoldKeepsText(group: seq<AsrSegment>, language: Option<string>)
    requires group != []
    ensures NonSpace(Fold(group, language).text) == NonSpace(CueText(group))
    ensures WritesWithoutSpaces(language) ==> Fold(group, language).text == CueText(group)
  {
    if |group| == 1 {
      CueTextOne(group[0]);
      assert group == [group[0]];
    } else {
      FoldKeepsText(group[..|group| - 1], language);
      JoinStep(Fold(group[..|group| - 1], language).text, group[|group| - 1].text, CueText(group[..|group| - 1]),
          language);
    }
  }

  lemma JoinStep(left: string, right: string, text: string, language: Option<string>)
    requires NonSpace(left) == NonSpace(text) && (WritesWithoutSpaces(language) ==> left == text)
    ensures NonSpace(JoinText(left, right, language)) == NonSpace(text + right)
    ensures WritesWithoutSpaces(language) ==> JoinText(left, right, language) == text + right
  {
    JoinKeepsNonSpace(left, right, language);
    NonSpaceConcat(text, right);
  }

  lemma CueTextOne(cue: AsrSegment)
    ensures CueText([cue]) == cue.text
  {
    assert [cue][..0] == [];
    assert "" + cue.text == cue.text;
  }

  lemma SplitText(pieces: seq<AsrSegment>, segment: AsrSegment, maxChars: int)
    requires IsSplit(pieces, segment, maxChars)
    ensures CueText(pieces) == segment.text
    ensures forall i :: 0 <= i < |pieces| ==> |pieces[i].text| <= maxChars
  {
    if |segment.text| <= maxChars {
      CueTextOne(segment);
    }
  }

  /** The cues hold exactly the non-space characters of the start-sorted input, in order; for languages
      written without spaces, exactly its text. */
  lemma {:induction false} MergeKeepsText(config: Config, groups: seq<seq<AsrSegment>>, parts: seq<seq<AsrSegment>>)
    requires Rendered(config, parts, groups)
    ensures NonSpace(CueText(Flatten(parts))) == NonSpace(CueText(Flatten(groups)))
    ensures WritesWithoutSpaces(config.language) ==> CueText(Flatten(parts)) == CueText(Flatten(groups))
    decreases |groups|
  {
    if groups != [] {
      var n := |groups| - 1;
      MergeKeepsText(config, groups[..n], parts[..n]);
      SplitText(parts[n], Fold(groups[n], config.language), config.maxChars);
      FoldKeepsText(groups[n], config.language);
      CueTextAppend(Flatten(parts[..n]), parts[n]);
      CueTextAppend(Flatten(groups[..n]), groups[n]);
      NonSpaceConcat(CueText(Flatten(parts[..n])), CueText(parts[n]));
      NonSpaceConcat(CueText(Flatten(groups[..n])), CueText(groups[n]));
    }
  }

  /** No cue is longer than the limit. */
  lemma {:induction false} MergeBoundsText(config: Config, groups: seq<seq<AsrSegment>>, parts: seq<seq<AsrSegment>>)
    requires Rendered(config, parts, groups)
    ensures forall i :: 0 <= i < |Flatten(parts)| ==> |Flatten(parts)[i].text| <= config.maxChars
    decreases |groups|
  {
    if groups != [] {
      var n := |groups| - 1;
      MergeBoundsText(config, groups[..n], parts[..n]);
      SplitText(parts[n], Fold(groups[n], config.language), config.maxChars);
    }
  }

  lemma {:induction false} FoldSpan(group: seq<AsrSegment>, language: Option<string>)
    requires group != []
    ensures Fold(group, language).start == group[0].start
    ensures Fold(group, language).end == group[|group| - 1].end
  {
    if |group| > 1 {
      FoldSpan(group[..|group| - 1], language);
    }
  }

  /** The cues of a group run from the start of its first segment to the end of its last. */
  lemma CuesSpan(config: Config, cues: seq<AsrSegment>, group: seq<AsrSegment>)
    requires group != [] && Normal(group) && IsSplit(cues, Fold(group, config.language), config.maxChars)
    ensures cues != [] && cues[0].start == group[0].start && cues[|cues| - 1].end == group[|group| - 1].end
    ensures Chronological(cues)
  {
    FoldSpan(group, config.language);
    assert group[0].start <= group[|group| - 1].start <= group[|group| - 1].end;
  }

  lemma FlattenInit(groups: seq<seq<AsrSegment>>)
    requires groups != [] && Normal(Flatten(groups))
    ensures Normal(Flatten(groups[..|groups| - 1])) && Normal(groups[|groups| - 1])
    ensures Chronological(Flatten(groups)) ==> Chronological(Flatten(groups[..|groups| - 1]))
  {
    NormalParts(Flatten(groups[..|groups| - 1]), groups[|groups| - 1]);
  }

  lemma NormalParts(a: seq<AsrSegment>, b: seq<AsrSegment>)
    requires Normal(a + b)
    ensures Normal(a) && Normal(b)
    ensures Chronological(a + b) ==> Chronological(a)
  {
    var all := a + b;
    assert forall i :: 0 <= i < |a| ==> a[i] == all[i];
    forall i, j | 0 <= i < j < |b| ensures b[i].start <= b[j].start && b[i].start <= b[i].end {
      assert all[|a| + i] == b[i] && all[|a| + j] == b[j];
    }
    forall i | 0 <= i < |b| ensures b[i].start <= b[i].end {
      assert all[|a| + i] == b[i];
    }
  }

  /** Every cue has its start no later than its end. */
  lemma {:induction false} MergeOrdersCues(config: Config, groups: seq<seq<AsrSegment>>, parts: seq<seq<AsrSegment>>)
    requires Rendered(config, parts, groups) && Normal(Flatten(groups))
    ensures forall i :: 0 <= i < |Flatten(parts)| ==> Flatten(parts)[i].start <= Flatten(parts)[i].end
    decreases |groups|
  {
    if groups != [] {
      var n := |groups| - 1;
      FlattenInit(groups);
      MergeOrdersCues(config, groups[..n], parts[..n]);
      CuesSpan(config, parts[n], groups[n]);
    }
  }

  /** On non-overlapping input the cues do not overlap either and span the same interval. */
  lemma {:induction false} MergeKeepsTime(config: Config, groups: seq<seq<AsrSegment>>, parts: seq<seq<AsrSegment>>)
    requires Rendered(config, parts, groups) && Normal(Flatten(groups)) && Chronological(Flatten(groups))
    ensures Chronological(Flatten(parts)) && SameSpan(Flatten(parts), Flatten(groups))
    decreases |groups|
  {
    if groups != [] {
      var n := |groups| - 1;
      var earlier, group, before, cues := groups[..n], groups[n], parts[..n], parts[n];
      FlattenInit(groups);
      RenderedInit(config, parts, groups);
      MergeKeepsTime(config, earlier, before);
      CuesSpan(config, cues, group);
      AppendKeepsTime(Flatten(earlier), group, Flatten(before), cues);
      assert Flatten(groups) == Flatten(earlier) + group && Flatten(parts) == Flatten(before) + cues;
    }
  }

  lemma RenderedInit(config: Config, parts: seq<seq<AsrSegment>>, groups: seq<seq<AsrSegment>>)
    requires Rendered(config, parts, groups) && groups != []
    ensures var n := |groups| - 1;
            && Rendered(config, parts[..n], groups[..n])
            && groups[n] != [] && IsSplit(parts[n], Fold(groups[n], config.language), config.maxChars)
  {
  }

  lemma AppendKeepsTime(a: seq<AsrSegment>, b: seq<AsrSegment>, p: seq<AsrSegment>, q: seq<AsrSegment>)
    requires b != [] && q != [] && Chronological(a + b) && Chronological(p) && Chronological(q) && SameSpan(p, a)
    requires q[0].start == b[0].start && q[|q| - 1].end == b[|b| - 1].end
    ensures Chronological(p + q) && SameSpan(p + q, a + b)
  {
    AppendChronological(a, b, p, q);
  }

  lemma AppendChronological(a: seq<AsrSegment>, b: seq<AsrSegment>, p: seq<AsrSegment>, q: seq<AsrSegment>)
    requires b != [] && q != [] && Chronological(a + b) && Chronological(p) && Chronological(q)
    requires p == [] <==> a == []
    requires a != [] ==> p[0].start == a[0].start && p[|p| - 1].end == a[|a| - 1].end
    requires q[0].start == b[0].start
    ensures Chronological(p + q)
  {
    if a != [] {
      assert (a + b)[|a| - 1].end <= (a + b)[|a|].start;
      forall i | 0 <= i < |p| ensures p[i].end <= q[0].start {
        if i < |p| - 1 {
          assert p[i].end <= p[|p| - 1].start;
        }
      }
      forall j | 0 <= j < |q| ensures q[0].start <= q[j].start {
        if j > 0 {
          assert q[0].end <= q[j].start;
        }
      }
    }
  }
}
