/** Server-Sent Events between the two services: the AI service prints them
    (ai-service/app/models/qa.py), the gateway reads and re-prints them
    (gateway/internal/service/ai_client.go). The format is that of section 9.2 of the WHATWG HTML Living Standard. */
module SseCodec {
  import opened Text

  /** An event as the gateway holds it; `raw` is what it sends on to the browser. */
  datatype SseEvent = SseEvent(kind: string, data: string, raw: string)

  // ----- printing -----

  /** `format_sse_event`, with the payload already rendered as JSON text. */
  function Print(kind: string, data: string): string {
    "event: " + kind + "\ndata: " + data + "\n\n"
  }

  /** A printed stream. */
  function PrintAll(events: seq<(string, string)>): string {
    if events == [] then "" else Print(events[0].0, events[0].1) + PrintAll(events[1..])
  }

  // ----- Go's string helpers -----

  /** `unicode.IsSpace`: narrower than Python's notion, it lacks the four separators 28 to 31. */
  predicate GoSpace(c: char) {
    IsSpace(c) && !(28 <= c as int <= 31)
  }

  function GoTrimLeft(s: string): string {
    if s != "" && GoSpace(s[0]) then GoTrimLeft(s[1..]) else s
  }

  function GoTrimRight(s: string): string {
    if s != "" && GoSpace(s[|s| - 1]) then GoTrimRight(s[..|s| - 1]) else s
  }

  /** `strings.TrimSpace`. */
  function GoTrim(s: string): string {
    GoTrimRight(GoTrimLeft(s))
  }

  predicate GoTrimmed(s: string) {
    s == "" || (!GoSpace(s[0]) && !GoSpace(s[|s| - 1]))
  }

  /** `strings.TrimRight(line, "\r\n")` on a line whose `\n` is already cut off. */
  function TrimCr(s: string): string {
    if s != "" && (s[|s| - 1] == '\r' || s[|s| - 1] == '\n') then TrimCr(s[..|s| - 1]) else s
  }

  function JoinLines(lines: seq<string>): string {
    if |lines| <= 1 then (if lines == [] then "" else lines[0])
    else lines[0] + "\n" + JoinLines(lines[1..])
  }

  // ----- parsing -----

  /** What the reader has collected since the last blank line. */
  datatype Pending = Pending(kind: string, data: seq<string>)

  const NOTHING := Pending("", [])

  /** `flushEvent`, up to the channel send. */
  function Flush(p: Pending): seq<SseEvent> {
    if p.kind == "" && p.data == [] then []
    else
      var kind := if p.kind == "" then "message" else p.kind;
      [SseEvent(kind, JoinLines(p.data), Print(kind, JoinLines(p.data)))]
  }

  /** One trimmed line: a blank line flushes, `event:` and `data:` lines are collected, anything else is ignored. */
  function OnLine(p: Pending, line: string): (Pending, seq<SseEvent>) {
    if line == "" then (NOTHING, Flush(p))
    else if "event:" <= line then (p.(kind := GoTrim(line[6..])), [])
    else if "data:" <= line then (p.(data := p.data + [GoTrim(line[5..])]), [])
    else (p, [])
  }

  /** Every event of a body, given what is pending before it. */
  function Parse(body: string, p: Pending): seq<SseEvent>
    decreases |body|
  {
    var k := Find(body, "\n");
    if k < |body| then
      var (next, events) := OnLine(p, TrimCr(body[..k]));
      events + Parse(body[k + 1..], next)
    else
      var (next, events) := if body == "" then (p, []) else OnLine(p, TrimCr(body));
      events + Flush(next)
  }

  /** The events that found a free slot in the channel; `room(k)` says whether the `k`-th send did. */
  function Deliver<T>(events: seq<T>, room: nat -> bool): seq<T> {
    if events == [] then []
    else
      var n := |events| - 1;
      Deliver(events[..n], room) + (if room(n) then [events[n]] else [])
  }

  /** The gateway's read loop. `cancelled(n)` says whether the request is cancelled before line `n` is read. */
  method ReadStream(body: string, room: nat -> bool, cancelled: nat -> bool) returns (sent: seq<SseEvent>)
    ensures exists n :: 0 <= n <= |Parse(body, NOTHING)| && sent == Deliver(Parse(body, NOTHING)[..n], room)
    ensures (forall n :: !cancelled(n)) ==> sent == Deliver(Parse(body, NOTHING), room)
  {
    sent := [];
    ghost var parsed: seq<SseEvent> := [];
    var p := NOTHING;
    var rest := body;
    var flushed: nat, lines: nat := 0, 0;
    while true
      invariant Reading(body, rest, p, parsed, sent, flushed, room)
      decreases |rest|
    {
      if cancelled(lines) {
        ReadPart(body, rest, p, parsed, sent, flushed, room);
        return;
      }
      lines := lines + 1;
      var k := Find(rest, "\n");
      if k == |rest| {
        ReadEnd(body, rest, p, parsed, sent, flushed, room);
        var (next, events) := AtEnd(rest, p);
        sent, flushed := Send(events, room, sent, flushed), flushed + |events|;
        sent := Send(Flush(next), room, sent, flushed);
        return;
      }
      ReadLine(body, rest, p, parsed, sent, flushed, room, k);
      var (next, events) := OnLine(p, TrimCr(rest[..k]));
      sent, flushed, parsed := Send(events, room, sent, flushed), flushed + |events|, parsed + events;
      p, rest := next, rest[k + 1..];
    }
  }

  /** The last line of a body that does not end in a line break. */
  function AtEnd(rest: string, p: Pending): (Pending, seq<SseEvent>) {
    if rest == "" then (p, []) else OnLine(p, TrimCr(rest))
  }

  /** The read loop: `parsed` are the events so far, `sent` those that found room, `rest` is still to be read. */
  ghost predicate Reading(body: string, rest: string, p: Pending, parsed: seq<SseEvent>, sent: seq<SseEvent>,
                          flushed: nat, room: nat -> bool) {
    Delivered(sent, parsed, flushed, room) && parsed + Parse(rest, p) == Parse(body, NOTHING)
  }

  lemma ReadPart(body: string, rest: string, p: Pending, parsed: seq<SseEvent>, sent: seq<SseEvent>, flushed: nat,
                 room: nat -> bool)
    requires Reading(body, rest, p, parsed, sent, flushed, room)
    ensures |parsed| <= |Parse(body, NOTHING)| && sent == Deliver(Parse(body, NOTHING)[..|parsed|], room)
  {
    assert (parsed + Parse(rest, p))[..|parsed|] == parsed;
  }

  lemma ReadLine(body: string, rest: string, p: Pending, parsed: seq<SseEvent>, sent: seq<SseEvent>, flushed: nat,
                 room: nat -> bool, k: nat)
    requires Reading(body, rest, p, parsed, sent, flushed, room) && k == Find(rest, "\n") < |rest|
    ensures var (next, events) := OnLine(p, TrimCr(rest[..k]));
            Reading(body, rest[k + 1..], next, parsed + events, Send(events, room, sent, flushed),
                flushed + |events|, room)
  {
    var (next, events) := OnLine(p, TrimCr(rest[..k]));
    AppendAssoc(parsed, events, Parse(rest[k + 1..], next));
    SendDelivers(events, room, sent, parsed, flushed);
  }

  lemma ReadEnd(body: string, rest: string, p: Pending, parsed: seq<SseEvent>, sent: seq<SseEvent>, flushed: nat,
                room: nat -> bool)
    requires Reading(body, rest, p, parsed, sent, flushed, room) && Find(rest, "\n") == |rest|
    ensures var (next, events) := AtEnd(rest, p);
            Send(Flush(next), room, Send(events, room, sent, flushed), flushed + |events|)
              == Deliver(Parse(body, NOTHING), room)
    ensures Parse(body, NOTHING)[..|Parse(body, NOTHING)|] == Parse(body, NOTHING)
  {
    var (next, events) := AtEnd(rest, p);
    AppendAssoc(parsed, events, Flush(next));
    SendDelivers(events, room, sent, parsed, flushed);
    SendDelivers(Flush(next), room, Send(events, room, sent, flushed), parsed + events, flushed + |events|);
  }

  ghost predicate Delivered(sent: seq<SseEvent>, parsed: seq<SseEvent>, flushed: nat, room: nat -> bool) {
    sent == Deliver(parsed, room) && flushed == |parsed|
  }

  /** The channel send of `flushEvent`: an event that finds no free slot is dropped. */
  function Send(events: seq<SseEvent>, room: nat -> bool, sent: seq<SseEvent>, flushed: nat): seq<SseEvent> {
    if events != [] && room(flushed) then sent + events else sent
  }

  lemma SendDelivers(events: seq<SseEvent>, room: nat -> bool, sent: seq<SseEvent>, parsed: seq<SseEvent>, flushed: nat)
    requires |events| <= 1 && Delivered(sent, parsed, flushed, room)
    ensures Delivered(Send(events, room, sent, flushed), parsed + events, flushed + |events|, room)
  {
    if events != [] {
      DeliverSnoc(parsed, events[0], room);
      assert events == [events[0]];
    } else {
      assert parsed + events == parsed;
    }
  }

  lemma DeliverSnoc(events: seq<SseEvent>, e: SseEvent, room: nat -> bool)
    ensures Deliver(events + [e], room) == Deliver(events, room) + (if room(|events|) then [e] else [])
  {
    assert (events + [e])[..|events|] == events;
  }

  // ----- delivery -----

  lemma {:induction false} DeliverIsSubsequence<T>(events: seq<T>, room: nat -> bool)
    ensures Subsequence(Deliver(events, room), events)
  {
    if events != [] {
      var n := |events| - 1;
      DeliverIsSubsequence(events[..n], room);
      if room(n) {
        assert Deliver(events, room)[..|Deliver(events[..n], room)|] == Deliver(events[..n], room);
      } else {
        assert Deliver(events, room) == Deliver(events[..n], room);
      }
    }
  }

  /** While the buffer never fills, nothing is lost. */
  lemma {:induction false} DeliverAll<T>(events: seq<T>, room: nat -> bool)
    requires forall k: nat :: k < |events| ==> room(k)
    ensures Deliver(events, room) == events
  {
    if events != [] {
      DeliverAll(events[..|events| - 1], room);
    }
  }

  // ----- the round trip -----

  predicate OneLine(s: string) {
    forall i :: 0 <= i < |s| ==> s[i] != '\n'
  }

  lemma FindNewline(line: string, rest: string)
    requires OneLine(line)
    ensures Find(line + "\n" + rest, "\n") == |line|
  {
    var s := line + "\n" + rest;
    assert s[|line|] == '\n';
    assert OccursAt(s, "\n", |line|);
    forall k: nat | k < |line| ensures !OccursAt(s, "\n", k) {
      assert s[k..k + 1][0] == line[k];
    }
  }

  lemma ParseLine(line: string, rest: string, p: Pending)
    requires OneLine(line)
    ensures var (next, events) := OnLine(p, TrimCr(line));
            Parse(line + "\n" + rest, p) == events + Parse(rest, next)
  {
    FindNewline(line, rest);
    var s := line + "\n" + rest;
    assert s[..|line|] == line && s[|line| + 1..] == rest;
  }

  lemma {:induction false} TrimCrKeeps(pre: string, s: string)
    requires pre != "" && pre[|pre| - 1] != '\r' && pre[|pre| - 1] != '\n'
    ensures TrimCr(pre + s) == pre + TrimCr(s)
  {
    if s == "" {
      assert pre + s == pre;
    } else {
      assert (pre + s)[..|pre + s| - 1] == pre + s[..|s| - 1];
      TrimCrKeeps(pre, s[..|s| - 1]);
    }
  }

  lemma {:induction false} TrimLeftSnoc(s: string, c: char)
    requires GoSpace(c)
    ensures GoTrimLeft(s + [c]) == if GoTrimLeft(s) == "" then "" else GoTrimLeft(s) + [c]
  {
    if s == "" {
      assert s + [c] == [c];
      assert GoTrimLeft([c][1..]) == "";
    } else if GoSpace(s[0]) {
      assert (s + [c])[1..] == s[1..] + [c];
      TrimLeftSnoc(s[1..], c);
    }
  }

  /** White space at the end of a line does not matter to what is read from it. */
  lemma TrimSnoc(s: string, c: char)
    requires GoSpace(c)
    ensures GoTrim(s + [c]) == GoTrim(s)
  {
    TrimLeftSnoc(s, c);
    var l := GoTrimLeft(s);
    assert l != "" ==> (l + [c])[..|l|] == l;
  }

  lemma {:induction false} TrimOfCr(s: string)
    ensures GoTrim(TrimCr(s)) == GoTrim(s)
  {
    if s != "" && (s[|s| - 1] == '\r' || s[|s| - 1] == '\n') {
      TrimOfCr(s[..|s| - 1]);
      TrimSnoc(s[..|s| - 1], s[|s| - 1]);
      assert s[..|s| - 1] + [s[|s| - 1]] == s;
    }
  }

  lemma TrimLeadingSpace(s: string)
    ensures GoTrim(" " + s) == GoTrim(s)
  {
    assert (" " + s)[1..] == s;
  }

  lemma EventLine(kind: string, p: Pending)
    ensures OnLine(p, TrimCr("event: " + kind)) == (p.(kind := GoTrim(kind)), [])
  {
    TrimCrKeeps("event: ", kind);
    var line := "event: " + TrimCr(kind);
    assert line[..6] == "event:" && line[6..] == " " + TrimCr(kind);
    TrimLeadingSpace(TrimCr(kind));
    TrimOfCr(kind);
  }

  lemma DataLine(data: string, p: Pending)
    ensures OnLine(p, TrimCr("data: " + data)) == (p.(data := p.data + [GoTrim(data)]), [])
  {
    TrimCrKeeps("data: ", data);
    var line := "data: " + TrimCr(data);
    assert line[0] == 'd';
    assert line[..5] == "data:" && line[5..] == " " + TrimCr(data);
    TrimLeadingSpace(TrimCr(data));
    TrimOfCr(data);
  }

  /** What becomes of a printed event: the kind and data trimmed, an empty kind replaced by the default. */
  function Relayed(e: (string, string)): SseEvent {
    var kind := if GoTrim(e.0) == "" then "message" else GoTrim(e.0);
    SseEvent(kind, GoTrim(e.1), Print(kind, GoTrim(e.1)))
  }

  lemma ParsePrinted(e: (string, string), rest: string)
    requires OneLine(e.0) && OneLine(e.1)
    ensures Parse(Print(e.0, e.1) + rest, NOTHING) == [Relayed(e)] + Parse(rest, NOTHING)
  {
    var dataOn := "data: " + e.1 + "\n" + ("" + "\n" + rest);
    PrintedLines(e, rest);
    ParseLine("event: " + e.0, dataOn, NOTHING);
    EventLine(e.0, NOTHING);
    ParseData(e, rest);
  }

  lemma PrintedLines(e: (string, string), rest: string)
    ensures Print(e.0, e.1) + rest == "event: " + e.0 + "\n" + ("data: " + e.1 + "\n" + ("" + "\n" + rest))
  {
  }

  lemma ParseData(e: (string, string), rest: string)
    requires OneLine(e.1)
    ensures Parse("data: " + e.1 + "\n" + ("" + "\n" + rest), Pending(GoTrim(e.0), []))
            == [Relayed(e)] + Parse(rest, NOTHING)
  {
    ParseLine("data: " + e.1, "" + "\n" + rest, Pending(GoTrim(e.0), []));
    DataLine(e.1, Pending(GoTrim(e.0), []));
    assert [] + [GoTrim(e.1)] == [GoTrim(e.1)];
    ParseBlank(e, rest);
  }

  lemma ParseBlank(e: (string, string), rest: string)
    ensures Parse("" + "\n" + rest, Pending(GoTrim(e.0), [GoTrim(e.1)])) == [Relayed(e)] + Parse(rest, NOTHING)
  {
    ParseLine("", rest, Pending(GoTrim(e.0), [GoTrim(e.1)]));
    assert JoinLines([GoTrim(e.1)]) == GoTrim(e.1);
  }

  /** Reading a printed stream gives the relayed form of each event, in order. */
  lemma {:induction false} ParsePrintAll(events: seq<(string, string)>)
    requires forall i :: 0 <= i < |events| ==> OneLine(events[i].0) && OneLine(events[i].1)
    ensures |Parse(PrintAll(events), NOTHING)| == |events|
    ensures forall i :: 0 <= i < |events| ==> Parse(PrintAll(events), NOTHING)[i] == Relayed(events[i])
  {
    if events == [] {
      assert Parse("", NOTHING) == [] + Flush(NOTHING);
    } else {
      ParsePrinted(events[0], PrintAll(events[1..]));
      ParsePrintAll(events[1..]);
    }
  }

  // ----- any stream -----

  /** A line of a stream without its line break: a kind, a line of data, or one the reader ignores; `cr` is what stands
      before the line break, usually nothing or a carriage return. */
  datatype WireLine = KindLine(text: string, cr: string) | DataLine(text: string, cr: string) | OtherLine(text: string)

  function LineText(line: WireLine): string {
    match line
    case KindLine(text, cr) => "event:" + text + cr
    case DataLine(text, cr) => "data:" + text + cr
    case OtherLine(text) => text
  }

  ghost predicate WellFormed(line: WireLine) {
    && OneLine(LineText(line))
    && match line
       case OtherLine(text) => TrimCr(text) != "" && !("event:" <= text) && !("data:" <= text)
       case _ => forall i :: 0 <= i < |line.cr| ==> line.cr[i] == '\r'
  }

  function Wire(lines: seq<WireLine>): string {
    if lines == [] then "" else Wire(lines[..|lines| - 1]) + (LineText(lines[|lines| - 1]) + "\n")
  }

  /** The last kind among the lines, if any. */
  function LastKind(lines: seq<WireLine>): string {
    if lines == [] then ""
    else
      var n := |lines| - 1;
      if lines[n].KindLine? then GoTrim(lines[n].text) else LastKind(lines[..n])
  }

  /** The lines of data, trimmed. */
  function DataOf(lines: seq<WireLine>): seq<string> {
    if lines == [] then []
    else
      var n := |lines| - 1;
      DataOf(lines[..n]) + (if lines[n].DataLine? then [GoTrim(lines[n].text)] else [])
  }

  lemma {:induction false} TrimCrDrops(s: string, cr: string)
    requires forall i :: 0 <= i < |cr| ==> cr[i] == '\r'
    ensures TrimCr(s + cr) == TrimCr(s)
  {
    if cr == "" {
      assert s + cr == s;
    } else {
      assert (s + cr)[..|s + cr| - 1] == s + cr[..|cr| - 1];
      TrimCrDrops(s, cr[..|cr| - 1]);
    }
  }

  lemma ReadKind(line: WireLine, p: Pending)
    requires line.KindLine? && WellFormed(line)
    ensures OnLine(p, TrimCr(LineText(line))) == (p.(kind := GoTrim(line.text)), [])
  {
    TrimCrDrops("event:" + line.text, line.cr);
    TrimCrKeeps("event:", line.text);
    var read := "event:" + TrimCr(line.text);
    assert read[..6] == "event:" && read[6..] == TrimCr(line.text);
    TrimOfCr(line.text);
  }

  lemma ReadData(line: WireLine, p: Pending)
    requires line.DataLine? && WellFormed(line)
    ensures OnLine(p, TrimCr(LineText(line))) == (p.(data := p.data + [GoTrim(line.text)]), [])
  {
    TrimCrDrops("data:" + line.text, line.cr);
    TrimCrKeeps("data:", line.text);
    var read := "data:" + TrimCr(line.text);
    assert read[0] == 'd';
    assert read[..5] == "data:" && read[5..] == TrimCr(line.text);
    TrimOfCr(line.text);
  }

  lemma {:induction false} TrimCrIsPrefix(s: string)
    ensures TrimCr(s) <= s
  {
    if s != "" && (s[|s| - 1] == '\r' || s[|s| - 1] == '\n') {
      TrimCrIsPrefix(s[..|s| - 1]);
    }
  }

  lemma ReadOther(line: WireLine, p: Pending)
    requires line.OtherLine? && WellFormed(line)
    ensures OnLine(p, TrimCr(LineText(line))) == (p, [])
  {
    TrimCrIsPrefix(line.text);
  }

  /** Reading lines leaves their last kind and their data pending. */
  lemma {:induction false} ReadLines(lines: seq<WireLine>, rest: string)
    requires forall i :: 0 <= i < |lines| ==> WellFormed(lines[i])
    ensures Parse(Wire(lines) + rest, NOTHING) == Parse(rest, Pending(LastKind(lines), DataOf(lines)))
  {
    if lines == [] {
      assert "" + rest == rest;
    } else {
      var init, line := lines[..|lines| - 1], lines[|lines| - 1];
      AppendAssoc(Wire(init), LineText(line) + "\n", rest);
      ReadLines(init, LineText(line) + "\n" + rest);
      ReadLast(init, line, rest);
      assert init + [line] == lines;
    }
  }

  lemma ReadLast(init: seq<WireLine>, line: WireLine, rest: string)
    requires WellFormed(line)
    ensures Parse(LineText(line) + "\n" + rest, Pending(LastKind(init), DataOf(init)))
         == Parse(rest, Pending(LastKind(init + [line]), DataOf(init + [line])))
  {
    ParseLine(LineText(line), rest, Pending(LastKind(init), DataOf(init)));
    ReadOne(init, line);
  }

  lemma ReadOne(before: seq<WireLine>, line: WireLine)
    requires WellFormed(line)
    ensures OnLine(Pending(LastKind(before), DataOf(before)), TrimCr(LineText(line)))
         == (Pending(LastKind(before + [line]), DataOf(before + [line])), [])
  {
    var p := Pending(LastKind(before), DataOf(before));
    assert (before + [line])[..|before|] == before && (before + [line])[|before|] == line;
    assert DataOf(before) + [] == DataOf(before);
    match line
    case KindLine(_, _) => ReadKind(line, p);
    case DataLine(_, _) => ReadData(line, p);
    case OtherLine(_) => ReadOther(line, p);
  }

  /** What a block of lines says: nothing without a kind and data, else one event of the last kind, by default a
      message, with the lines of data one below the other. */
  ghost predicate Says(lines: seq<WireLine>, events: seq<SseEvent>) {
    var data := JoinLines(DataOf(lines));
    if LastKind(lines) == "" && DataOf(lines) == [] then events == []
    else
      var kind := if LastKind(lines) == "" then "message" else LastKind(lines);
      events == [SseEvent(kind, data, "event: " + kind + "\ndata: " + data + "\n\n")]
  }

  /** A blank line, or the end of the body, turns the lines before it into an event. */
  lemma ParseBlock(lines: seq<WireLine>, rest: string) returns (events: seq<SseEvent>)
    requires forall i :: 0 <= i < |lines| ==> WellFormed(lines[i])
    ensures Says(lines, events)
    ensures Parse(Wire(lines) + ("\n" + rest), NOTHING) == events + Parse(rest, NOTHING)
    ensures Parse(Wire(lines), NOTHING) == events
  {
    var p := Pending(LastKind(lines), DataOf(lines));
    events := Flush(p);
    ReadLines(lines, "\n" + rest);
    ReadLines(lines, "");
    assert Wire(lines) + "" == Wire(lines);
    ParseLine("", rest, p);
    assert "" + "\n" + rest == "\n" + rest;
    assert Parse("", p) == [] + Flush(p);
  }

  lemma NoNewline(s: string)
    requires OneLine(s)
    ensures Find(s, "\n") == |s|
  {
    forall k: nat ensures !OccursAt(s, "\n", k) {
      if k < |s| {
        assert s[k..k + 1][0] == s[k];
      }
    }
  }

  /** Nothing of the data is lost in joining its lines: they can be split again. */
  lemma {:induction false} JoinedLinesSplit(lines: seq<string>)
    requires lines != [] && forall i :: 0 <= i < |lines| ==> OneLine(lines[i])
    ensures Split(JoinLines(lines), "\n") == lines
  {
    if |lines| == 1 {
      NoNewline(lines[0]);
    } else {
      FindNewline(lines[0], JoinLines(lines[1..]));
      var s := JoinLines(lines);
      assert s[..|lines[0]|] == lines[0] && s[|lines[0]| + 1..] == JoinLines(lines[1..]);
      JoinedLinesSplit(lines[1..]);
    }
  }

  /** The relay is faithful: same kind, same data, and a raw text identical to what was printed. */
  predicate Faithful(e: (string, string)) {
    Relayed(e) == SseEvent(e.0, e.1, Print(e.0, e.1))
  }

  lemma {:induction false} TrimLeftShortens(s: string)
    ensures |GoTrimLeft(s)| <= |s|
    ensures s != "" && GoSpace(s[0]) ==> |GoTrimLeft(s)| < |s|
  {
    if s != "" && GoSpace(s[0]) {
      TrimLeftShortens(s[1..]);
    }
  }

  lemma {:induction false} TrimRightShortens(s: string)
    ensures |GoTrimRight(s)| <= |s|
    ensures s != "" && GoSpace(s[|s| - 1]) ==> |GoTrimRight(s)| < |s|
  {
    if s != "" && GoSpace(s[|s| - 1]) {
      TrimRightShortens(s[..|s| - 1]);
    }
  }

  lemma TrimFixesTrimmed(s: string)
    ensures GoTrim(s) == s <==> GoTrimmed(s)
  {
    TrimLeftShortens(s);
    TrimRightShortens(GoTrimLeft(s));
    if GoTrim(s) == s && s != "" {
      assert GoTrimLeft(s) == s;
    }
  }

  /** The round trip is exact for an event on one line precisely when its kind is not empty and neither the kind
      nor the data has white space around it. */
  lemma FaithfulIff(e: (string, string))
    requires OneLine(e.0) && OneLine(e.1)
    ensures Faithful(e) <==> e.0 != "" && GoTrimmed(e.0) && GoTrimmed(e.1)
  {
    TrimFixesTrimmed(e.0);
    TrimFixesTrimmed(e.1);
    assert GoTrimmed("message");
  }
}
