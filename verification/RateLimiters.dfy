/** The web search tool's sliding-window limiter (ai-service/app/agent/tools/web_search_tool.py) and the gateway's
    fixed-window limiter (gateway/internal/middleware/ratelimit.go). */
module RateLimiters {
  import opened Text

  ghost predicate Ascending(times: seq<real>) {
    forall i, j :: 0 <= i < j < |times| ==> times[i] <= times[j]
  }

  /** How many of the times fall into `[from, to)`. */
  function CountIn(times: seq<real>, from: real, to: real): nat {
    if times == [] then 0
    else CountIn(times[..|times| - 1], from, to) + if from <= times[|times| - 1] < to then 1 else 0
  }

  /** It is the number of positions that hold such a time. */
  lemma {:induction false} CountsPositions(times: seq<real>, from: real, to: real)
    ensures CountIn(times, from, to) == |set i | 0 <= i < |times| && from <= times[i] < to|
  {
    var all := set i | 0 <= i < |times| && from <= times[i] < to;
    if times == [] {
      assert all == {};
    } else {
      var n := |times| - 1;
      CountsPositions(times[..n], from, to);
      var before := set i | 0 <= i < |times[..n]| && from <= times[..n][i] < to;
      assert all == before + if from <= times[n] < to then {n} else {};
    }
  }

  /** Times before the interval are not counted. */
  lemma {:induction false} CountTail(times: seq<real>, m: nat, from: real, to: real)
    requires m <= |times| && forall i :: 0 <= i < m ==> times[i] < from
    ensures CountIn(times, from, to) <= |times| - m
  {
    if times != [] {
      var n := |times| - 1;
      CountTail(times[..n], if m <= n then m else n, from, to);
    }
  }

  // ----- sliding window -----

  /** Forget the calls that are a whole window old. */
  function Prune(calls: seq<real>, now: real, window: real): seq<real> {
    if calls != [] && now - calls[0] >= window then Prune(calls[1..], now, window) else calls
  }

  class SlidingWindow {
    const limit: int
    const window: real
    var calls: seq<real>

    constructor (limit: int, window: real)
      ensures this.limit == limit && this.window == window && calls == []
    {
      this.limit, this.window, calls := limit, window, [];
    }

    /** Admit a call at `now`, or refuse it. */
    method Acquire(now: real) returns (ok: bool)
      modifies this
      ensures ok == Admits(old(calls), now, limit, window)
      ensures calls == Remember(old(calls), now, limit, window)
    {
      if limit <= 0 {
        return false;
      }
      while calls != [] && now - calls[0] >= window
        invariant Prune(calls, now, window) == Prune(old(calls), now, window)
        decreases |calls|
      {
        calls := calls[1..];
      }
      if |calls| >= limit {
        return false;
      }
      calls := calls + [now];
      ok := true;
    }
  }

  predicate Admits(calls: seq<real>, now: real, limit: int, window: real) {
    limit > 0 && |Prune(calls, now, window)| < limit
  }

  function Remember(calls: seq<real>, now: real, limit: int, window: real): seq<real> {
    if limit <= 0 then calls
    else if Admits(calls, now, limit, window) then Prune(calls, now, window) + [now]
    else Prune(calls, now, window)
  }

  /** A limiter with the times of all calls it ever admitted. */
  datatype Sliding = Sliding(calls: seq<real>, admitted: seq<real>, clock: real)

  function Ask(s: Sliding, now: real, limit: int, window: real): Sliding {
    Sliding(Remember(s.calls, now, limit, window),
            if Admits(s.calls, now, limit, window) then s.admitted + [now] else s.admitted,
            now)
  }

  function AskAll(times: seq<real>, start: real, limit: int, window: real): Sliding {
    if times == [] then Sliding([], [], start)
    else Ask(AskAll(times[..|times| - 1], start, limit, window), times[|times| - 1], limit, window)
  }

  /** `calls` are the latest admitted times, and everything older is a window away from `clock`. */
  ghost predicate Recalls(calls: seq<real>, admitted: seq<real>, clock: real, window: real) {
    && |calls| <= |admitted| && calls == admitted[|admitted| - |calls|..]
    && forall i :: 0 <= i < |admitted| - |calls| ==> clock - admitted[i] >= window
  }

  /** Times `limit` apart in the list are a window apart. */
  ghost predicate Spaced(times: seq<real>, limit: int, window: real) {
    forall i, j :: 0 <= i < j < |times| && j - i >= limit ==> times[j] - times[i] >= window
  }

  ghost predicate SlidingInv(s: Sliding, limit: int, window: real) {
    && Ascending(s.admitted) && (forall i :: 0 <= i < |s.admitted| ==> s.admitted[i] <= s.clock)
    && Recalls(s.calls, s.admitted, s.clock, window)
    && (s.calls != [] ==> |s.calls| <= limit)
    && (limit <= 0 ==> s.admitted == [])
    && Spaced(s.admitted, limit, window)
  }

  lemma {:induction false} PruneKeepsRecent(calls: seq<real>, now: real, window: real)
    requires Ascending(calls)
    ensures var p := Prune(calls, now, window);
            && |p| <= |calls| && p == calls[|calls| - |p|..]
            && (forall i :: 0 <= i < |calls| - |p| ==> now - calls[i] >= window)
            && (forall i :: 0 <= i < |p| ==> now - p[i] < window)
  {
    if calls != [] {
      if now - calls[0] >= window {
        var rest := calls[1..];
        assert forall i :: 0 <= i < |rest| ==> rest[i] == calls[i + 1];
        PruneKeepsRecent(rest, now, window);
      }
    }
  }

  lemma SuffixOfSuffix(s: seq<real>, a: nat, b: nat)
    requires a <= |s| && b <= |s[a..]|
    ensures s[a..][b..] == s[a + b..]
  {
  }

  lemma SuffixAscends(a: seq<real>, d: nat)
    requires Ascending(a) && d <= |a|
    ensures Ascending(a[d..])
  {
  }

  /** Pruning at a later time keeps `calls` the recent part of the admitted times. */
  lemma PruneRecalls(calls: seq<real>, admitted: seq<real>, clock: real, now: real, window: real)
    requires Ascending(admitted) && Recalls(calls, admitted, clock, window) && clock <= now
    ensures var p := Prune(calls, now, window);
            && |p| <= |calls| && Recalls(p, admitted, now, window)
            && forall i :: 0 <= i < |p| ==> now - p[i] < window
  {
    SuffixAscends(admitted, |admitted| - |calls|);
    PruneKeepsRecent(calls, now, window);
    PrunedSuffix(admitted, calls, Prune(calls, now, window), now, window);
  }

  lemma PrunedSuffix(a: seq<real>, calls: seq<real>, p: seq<real>, now: real, window: real)
    requires |p| <= |calls| && Recalls(calls, a, now, window) && p == calls[|calls| - |p|..]
    requires forall i :: 0 <= i < |calls| - |p| ==> now - calls[i] >= window
    ensures Recalls(p, a, now, window)
  {
    var d := |a| - |calls|;
    SuffixOfSuffix(a, d, |calls| - |p|);
    forall i | 0 <= i < |a| - |p| ensures now - a[i] >= window {
      if i >= d {
        assert a[i] == calls[i - d];
      }
    }
  }

  lemma AskKeepsInv(s: Sliding, now: real, limit: int, window: real)
    requires SlidingInv(s, limit, window) && s.clock <= now
    ensures SlidingInv(Ask(s, now, limit, window), limit, window)
  {
    if limit > 0 {
      PruneRecalls(s.calls, s.admitted, s.clock, now, window);
      var p := Prune(s.calls, now, window);
      if |p| < limit {
        AdmitKeepsInv(s, p, now, limit, window);
      } else {
        RefuseKeepsInv(s, p, now, limit, window);
      }
    }
  }

  lemma AdmitKeepsInv(s: Sliding, p: seq<real>, now: real, limit: int, window: real)
    requires SlidingInv(s, limit, window) && s.clock <= now && |p| < limit && Recalls(p, s.admitted, now, window)
    ensures SlidingInv(Sliding(p + [now], s.admitted + [now], now), limit, window)
  {
    AscendingSnoc(s.admitted, now);
    RecallsSnoc(p, s.admitted, now, window);
    SpacedSnoc(p, s.admitted, now, limit, window);
  }

  lemma RefuseKeepsInv(s: Sliding, p: seq<real>, now: real, limit: int, window: real)
    requires SlidingInv(s, limit, window) && s.clock <= now && |p| <= |s.calls| && Recalls(p, s.admitted, now, window)
    ensures SlidingInv(Sliding(p, s.admitted, now), limit, window)
  {
  }

  lemma AscendingSnoc(times: seq<real>, now: real)
    requires Ascending(times) && forall i :: 0 <= i < |times| ==> times[i] <= now
    ensures Ascending(times + [now])
  {
  }

  lemma RecallsSnoc(p: seq<real>, a: seq<real>, now: real, window: real)
    requires Recalls(p, a, now, window)
    ensures Recalls(p + [now], a + [now], now, window)
  {
  }

  lemma SpacedSnoc(p: seq<real>, times: seq<real>, now: real, limit: int, window: real)
    requires |p| < limit && Recalls(p, times, now, window) && Spaced(times, limit, window)
    ensures Spaced(times + [now], limit, window)
  {
    var a := times + [now];
    forall i, j | 0 <= i < j < |a| && j - i >= limit ensures a[j] - a[i] >= window {
      if j < |times| {
        assert a[j] == times[j] && a[i] == times[i];
      }
    }
  }

  lemma {:induction false} AskAllInv(times: seq<real>, start: real, limit: int, window: real)
    requires Ascending(times) && forall i :: 0 <= i < |times| ==> start <= times[i]
    ensures SlidingInv(AskAll(times, start, limit, window), limit, window)
    ensures AskAll(times, start, limit, window).clock == if times == [] then start else times[|times| - 1]
  {
    if times != [] {
      var n := |times| - 1;
      AskAllInv(times[..n], start, limit, window);
      AskKeepsInv(AskAll(times[..n], start, limit, window), times[n], limit, window);
    }
  }

  /** Calls `limit` apart in the list are a window apart in time, so no window holds more than `limit`. */
  lemma {:induction false} FewInWindow(times: seq<real>, limit: int, window: real, from: real)
    requires Ascending(times) && (limit <= 0 ==> times == [])
    requires Spaced(times, limit, window)
    ensures CountIn(times, from, from + window) <= if limit > 0 then limit else 0
    decreases |times|
  {
    if times != [] {
      var n := |times| - 1;
      if from <= times[n] < from + window {
        LastInWindow(times, limit, window, from);
      } else {
        FewInWindow(times[..n], limit, window, from);
      }
    }
  }

  lemma LastInWindow(times: seq<real>, limit: int, window: real, from: real)
    requires limit > 0 && times != [] && times[|times| - 1] < from + window
    requires Spaced(times, limit, window)
    ensures CountIn(times, from, from + window) <= limit
  {
    var n := |times| - 1;
    var m := if |times| > limit then |times| - limit else 0;
    forall i | 0 <= i < m ensures times[i] < from {
      assert times[n] - times[i] >= window;
    }
    CountTail(times, m, from, from + window);
  }

  /** Under a monotone clock no half-open interval of the window length holds more than `limit` admitted calls. */
  lemma SlidingLimitHolds(times: seq<real>, start: real, limit: int, window: real, from: real)
    requires Ascending(times) && forall i :: 0 <= i < |times| ==> start <= times[i]
    ensures CountIn(AskAll(times, start, limit, window).admitted, from, from + window) <= if limit > 0 then limit else 0
  {
    AskAllInv(times, start, limit, window);
    FewInWindow(AskAll(times, start, limit, window).admitted, limit, window, from);
  }

  /** How many of the times are less than a window old. */
  function Recent(times: seq<real>, now: real, window: real): nat {
    if times == [] then 0
    else Recent(times[..|times| - 1], now, window) + if now - times[|times| - 1] < window then 1 else 0
  }

  lemma {:induction false} RecentOfSuffix(times: seq<real>, now: real, window: real, n: nat)
    requires n <= |times|
    requires forall i :: 0 <= i < |times| - n ==> now - times[i] >= window
    requires forall i :: |times| - n <= i < |times| ==> now - times[i] < window
    ensures Recent(times, now, window) == n
    decreases |times|
  {
    if times != [] {
      RecentOfSuffix(times[..|times| - 1], now, window, if n > 0 then n - 1 else 0);
    }
  }

  /** A call is refused exactly when the limit is not positive or `limit` calls were admitted within the last window. */
  lemma RefusesOnlyWhenFull(times: seq<real>, start: real, limit: int, window: real, now: real)
    requires Ascending(times) && forall i :: 0 <= i < |times| ==> start <= times[i]
    requires AskAll(times, start, limit, window).clock <= now
    ensures var s := AskAll(times, start, limit, window);
            !Admits(s.calls, now, limit, window) <==> limit <= 0 || Recent(s.admitted, now, window) >= limit
  {
    AskAllInv(times, start, limit, window);
    if limit > 0 {
      RecentAreKept(AskAll(times, start, limit, window), now, limit, window);
    }
  }

  lemma RecentAreKept(s: Sliding, now: real, limit: int, window: real)
    requires SlidingInv(s, limit, window) && s.clock <= now && limit > 0
    ensures Recent(s.admitted, now, window) == |Prune(s.calls, now, window)|
  {
    PruneRecalls(s.calls, s.admitted, s.clock, now, window);
    RecentOfRecalled(s.admitted, Prune(s.calls, now, window), now, window);
  }

  lemma RecentOfRecalled(a: seq<real>, p: seq<real>, now: real, window: real)
    requires Recalls(p, a, now, window) && forall i :: 0 <= i < |p| ==> now - p[i] < window
    ensures Recent(a, now, window) == |p|
  {
    assert forall i :: |a| - |p| <= i < |a| ==> a[i] == p[i - (|a| - |p|)];
    RecentOfSuffix(a, now, window, |p|);
  }

  // ----- fixed window -----

  datatype Record = Record(count: nat, start: real)

  /** One request against a client's record. */
  function Serve(r: Option<Record>, now: real, requests: int, window: real): (Record, bool) {
    if r.None? || now > r.value.start + window then (Record(1, now), true)
    else (Record(r.value.count + 1, r.value.start), r.value.count + 1 <= requests)
  }

  class FixedWindow {
    const requests: int
    const window: real
    var records: map<string, Record>

    constructor (requests: int, window: real)
      ensures this.requests == requests && this.window == window && records == map[]
    {
      this.requests, this.window, records := requests, window, map[];
    }

    ghost function RecordOf(key: string): Option<Record>
      reads this
    {
      if key in records then Some(records[key]) else None
    }

    /** Count a request of `key`; other keys are not touched. */
    method Limit(key: string, now: real) returns (ok: bool)
      modifies this
      ensures ok == Serve(old(RecordOf(key)), now, requests, window).1
      ensures records == old(records)[key := Serve(old(RecordOf(key)), now, requests, window).0]
    {
      if key !in records || now > records[key].start + window {
        records := records[key := Record(1, now)];
        return true;
      }
      var rec := records[key];
      rec := rec.(count := rec.count + 1);
      records := records[key := rec];
      ok := rec.count <= requests;
    }
  }

  /** The requests admitted since one reset of a record. */
  datatype Window = Window(start: real, times: seq<real>)

  /** A client's record with everything admitted for it, window by window. */
  datatype Fixed = Fixed(record: Option<Record>, windows: seq<Window>)

  function Request(f: Fixed, now: real, requests: int, window: real): Fixed {
    var (r, ok) := Serve(f.record, now, requests, window);
    var n := |f.windows| - 1;
    Fixed(Some(r),
          if f.record.None? || now > f.record.value.start + window then f.windows + [Window(now, [now])]
          else if ok && n >= 0 then f.windows[..n] + [f.windows[n].(times := f.windows[n].times + [now])]
          else f.windows)
  }

  function RequestAll(times: seq<real>, requests: int, window: real): Fixed {
    if times == [] then Fixed(None, [])
    else Request(RequestAll(times[..|times| - 1], requests, window), times[|times| - 1], requests, window)
  }

  /** A window starts with its first request, holds at most `requests`, and none later than its length. */
  ghost predicate WindowOk(w: Window, requests: int, window: real) {
    && 0 < |w.times| <= requests && w.times[0] == w.start
    && forall i :: 0 <= i < |w.times| ==> w.start <= w.times[i] <= w.start + window
  }

  ghost predicate WindowsOk(ws: seq<Window>, requests: int, window: real) {
    && (forall i :: 0 <= i < |ws| ==> WindowOk(ws[i], requests, window))
    && (forall i, j :: 0 <= i < j < |ws| ==> ws[j].start > ws[i].start + window)
  }

  ghost predicate FixedInv(f: Fixed, requests: int, window: real, clock: real) {
    && WindowsOk(f.windows, requests, window)
    && (f.record.None? <==> f.windows == [])
    && (f.record.Some? ==>
          && f.record.value.start == f.windows[|f.windows| - 1].start <= clock
          && |f.windows[|f.windows| - 1].times| == if f.record.value.count < requests
              then f.record.value.count else requests)
  }

  lemma RequestKeepsInv(f: Fixed, requests: int, window: real, clock: real, now: real)
    requires requests >= 1 && window >= 0.0 && FixedInv(f, requests, window, clock) && clock <= now
    ensures FixedInv(Request(f, now, requests, window), requests, window, now)
  {
    var n := |f.windows| - 1;
    if f.record.None? || now > f.record.value.start + window {
      NewWindow(f.windows, requests, window, now);
    } else if f.record.value.count < requests {
      JoinWindow(f.windows, requests, window, now);
    }
  }

  lemma NewWindow(ws: seq<Window>, requests: int, window: real, now: real)
    requires requests >= 1 && window >= 0.0 && WindowsOk(ws, requests, window)
    requires ws != [] ==> now > ws[|ws| - 1].start + window
    ensures WindowsOk(ws + [Window(now, [now])], requests, window)
  {
    forall i | 0 <= i < |ws| ensures now > ws[i].start + window {
      if i < |ws| - 1 {
        assert ws[|ws| - 1].start > ws[i].start + window;
      }
    }
  }

  lemma JoinWindow(ws: seq<Window>, requests: int, window: real, now: real)
    requires ws != [] && WindowsOk(ws, requests, window)
    requires var w := ws[|ws| - 1]; w.start <= now <= w.start + window && |w.times| < requests
    ensures var n := |ws| - 1;
            WindowsOk(ws[..n] + [ws[n].(times := ws[n].times + [now])], requests, window)
  {
    var n := |ws| - 1;
    var longer := ws[n].(times := ws[n].times + [now]);
    assert WindowOk(ws[n], requests, window);
    assert WindowOk(longer, requests, window);
    var all := ws[..n] + [longer];
    assert forall i :: 0 <= i < |all| ==> all[i].start == ws[i].start;
  }

  lemma {:induction false} RequestAllInv(times: seq<real>, requests: int, window: real, clock: real)
    requires requests >= 1 && window >= 0.0 && Ascending(times) && forall i :: 0 <= i < |times| ==> times[i] <= clock
    ensures FixedInv(RequestAll(times, requests, window), requests, window, clock)
  {
    if times != [] {
      var n := |times| - 1;
      RequestAllInv(times[..n], requests, window, times[n]);
      RequestKeepsInv(RequestAll(times[..n], requests, window), requests, window, times[n], times[n]);
    }
  }

  /** How many requests of one window fall into the closed interval `[from, from + window]`. */
  function CountClosed(times: seq<real>, from: real, to: real): nat {
    if times == [] then 0
    else CountClosed(times[..|times| - 1], from, to) + if from <= times[|times| - 1] <= to then 1 else 0
  }

  function CountAdmitted(ws: seq<Window>, from: real, to: real): nat {
    if ws == [] then 0
    else CountAdmitted(ws[..|ws| - 1], from, to) + CountClosed(ws[|ws| - 1].times, from, to)
  }

  lemma {:induction false} ClosedBounds(times: seq<real>, from: real, to: real)
    ensures CountClosed(times, from, to) <= |times|
    ensures times != [] && times[0] < from ==> CountClosed(times, from, to) < |times|
    ensures CountClosed(times, from, to) > 0 ==> exists i :: 0 <= i < |times| && from <= times[i] <= to
    ensures (forall i :: 0 <= i < |times| ==> times[i] < from) ==> CountClosed(times, from, to) == 0
  {
    if times != [] {
      ClosedBounds(times[..|times| - 1], from, to);
    }
  }

  /** Windows that all end before the interval contribute nothing. */
  lemma {:induction false} EarlyWindows(ws: seq<Window>, requests: int, window: real, from: real, to: real)
    requires WindowsOk(ws, requests, window) && forall i :: 0 <= i < |ws| ==> ws[i].start + window < from
    ensures CountAdmitted(ws, from, to) == 0
  {
    if ws != [] {
      var n := |ws| - 1;
      EarlyWindows(ws[..n], requests, window, from, to);
      assert WindowOk(ws[n], requests, window);
      ClosedBounds(ws[n].times, from, to);
    }
  }

  /** Any closed interval of the window length holds at most `2 * requests - 1` admitted requests. */
  lemma {:induction false} FewAdmitted(ws: seq<Window>, requests: int, window: real, from: real)
    requires requests >= 1 && window >= 0.0 && WindowsOk(ws, requests, window)
    ensures CountAdmitted(ws, from, from + window) <= 2 * requests - 1
    decreases |ws|
  {
    if ws != [] {
      var n := |ws| - 1;
      assert WindowOk(ws[n], requests, window);
      ClosedBounds(ws[n].times, from, from + window);
      if CountClosed(ws[n].times, from, from + window) == 0 {
        FewAdmitted(ws[..n], requests, window, from);
      } else {
        assert ws[n].start <= from + window;
        LastTwo(ws, requests, window, from);
      }
    }
  }

  lemma LastTwo(ws: seq<Window>, requests: int, window: real, from: real)
    requires requests >= 1 && window >= 0.0 && WindowsOk(ws, requests, window) && ws != []
    requires ws[|ws| - 1].start <= from + window
    ensures CountAdmitted(ws[..|ws| - 1], from, from + window) <= requests - 1
  {
    var n := |ws| - 1;
    if n > 0 {
      var m := n - 1;
      assert ws[n].start > ws[m].start + window;
      assert WindowOk(ws[m], requests, window);
      ClosedBounds(ws[m].times, from, from + window);
      assert ws[..n][..m] == ws[..m];
      WindowsBefore(ws, requests, window, from, m);
    }
  }

  lemma WindowsBefore(ws: seq<Window>, requests: int, window: real, from: real, m: nat)
    requires WindowsOk(ws, requests, window) && m < |ws| && ws[m].start < from
    ensures CountAdmitted(ws[..m], from, from + window) == 0
  {
    forall i | 0 <= i < m ensures ws[..m][i].start + window < from {
      assert ws[m].start > ws[i].start + window;
    }
    EarlyWindows(ws[..m], requests, window, from, from + window);
  }

  /** The gateway's limiter under a monotone clock. */
  lemma FixedLimitHolds(times: seq<real>, requests: int, window: real, from: real)
    requires requests >= 1 && window >= 0.0 && Ascending(times)
    ensures CountAdmitted(RequestAll(times, requests, window).windows, from, from + window) <= 2 * requests - 1
  {
    RequestAllInv(times, requests, window, if times == [] then 0.0 else times[|times| - 1]);
    FewAdmitted(RequestAll(times, requests, window).windows, requests, window, from);
  }

  // ----- the bound is attained -----

  function Repeat(x: real, n: nat): (r: seq<real>)
    ensures |r| == n && forall i :: 0 <= i < n ==> r[i] == x
  {
    if n == 0 then [] else Repeat(x, n - 1) + [x]
  }

  lemma RequestSnoc(times: seq<real>, now: real, requests: int, window: real)
    ensures RequestAll(times + [now], requests, window)
            == Request(RequestAll(times, requests, window), now, requests, window)
  {
    assert (times + [now])[..|times|] == times;
  }

  /** `n` requests at the same time. */
  function RequestTimes(f: Fixed, now: real, n: nat, requests: int, window: real): Fixed {
    if n == 0 then f else Request(RequestTimes(f, now, n - 1, requests, window), now, requests, window)
  }

  lemma {:induction false} RequestRepeat(times: seq<real>, now: real, n: nat, requests: int, window: real)
    ensures RequestAll(times + Repeat(now, n), requests, window)
         == RequestTimes(RequestAll(times, requests, window), now, n, requests, window)
  {
    if n == 0 {
      assert times + Repeat(now, 0) == times;
    } else {
      RequestRepeat(times, now, n - 1, requests, window);
      RequestSnoc(times + Repeat(now, n - 1), now, requests, window);
      AppendAssoc(times, Repeat(now, n - 1), [now]);
    }
  }

  /** The record and windows after `n` requests at `now` joined the last window `w`. */
  function Joined(ws: seq<Window>, w: Window, now: real, n: nat): Fixed {
    Fixed(Some(Record(|w.times| + n, w.start)), ws + [Window(w.start, w.times + Repeat(now, n))])
  }

  /** Requests within an open window with room are admitted into it. */
  lemma {:induction false} PromptRequests(f: Fixed, ws: seq<Window>, w: Window, now: real, n: nat, requests: int,
                                          window: real)
    requires now <= w.start + window && |w.times| + n <= requests && f == Joined(ws, w, now, 0)
    ensures RequestTimes(f, now, n, requests, window) == Joined(ws, w, now, n)
  {
    if n > 0 {
      PromptRequests(f, ws, w, now, n - 1, requests, window);
      JoinedOnce(ws, w, now, n, requests, window);
    }
  }

  lemma JoinedOnce(ws: seq<Window>, w: Window, now: real, n: nat, requests: int, window: real)
    requires n > 0 && now <= w.start + window && |w.times| + n <= requests
    ensures Request(Joined(ws, w, now, n - 1), now, requests, window) == Joined(ws, w, now, n)
  {
    OneMorePrompt(ws, w, Repeat(now, n - 1), now, requests, window);
  }

  lemma OneMorePrompt(ws: seq<Window>, w: Window, r: seq<real>, now: real, requests: int, window: real)
    requires now <= w.start + window && |w.times| + |r| + 1 <= requests
    ensures Request(Fixed(Some(Record(|w.times| + |r|, w.start)), ws + [Window(w.start, w.times + r)]), now,
            requests, window)
         == Fixed(Some(Record(|w.times| + |r| + 1, w.start)), ws + [Window(w.start, w.times + (r + [now]))])
  {
    PromptRequest(ws, Window(w.start, w.times + r), now, requests, window);
    AppendAssoc(w.times, r, [now]);
  }

  lemma PromptRequest(ws: seq<Window>, w: Window, now: real, requests: int, window: real)
    requires now <= w.start + window && |w.times| + 1 <= requests
    ensures Request(Fixed(Some(Record(|w.times|, w.start)), ws + [w]), now, requests, window)
         == Fixed(Some(Record(|w.times| + 1, w.start)), ws + [Window(w.start, w.times + [now])])
  {
    assert (ws + [w])[..|ws|] == ws;
  }

  lemma RepeatedRequests(times: seq<real>, ws: seq<Window>, w: Window, now: real, n: nat, requests: int, window: real)
    requires RequestAll(times, requests, window) == Fixed(Some(Record(|w.times|, w.start)), ws + [w])
    requires now <= w.start + window && |w.times| + n <= requests
    ensures RequestAll(times + Repeat(now, n), requests, window)
         == Fixed(Some(Record(|w.times| + n, w.start)), ws + [Window(w.start, w.times + Repeat(now, n))])
  {
    RequestRepeat(times, now, n, requests, window);
    assert w.times + Repeat(now, 0) == w.times;
    PromptRequests(RequestAll(times, requests, window), ws, w, now, n, requests, window);
  }

  /** A request after the window has passed opens a new one. */
  lemma LateRequest(times: seq<real>, ws: seq<Window>, count: nat, start: real, now: real, requests: int, window: real)
    requires RequestAll(times, requests, window) == Fixed(Some(Record(count, start)), ws) && now > start + window
    ensures RequestAll(times + [now], requests, window) == Fixed(Some(Record(1, now)), ws + [Window(now, [now])])
  {
    RequestSnoc(times, now, requests, window);
  }

  lemma {:induction false} CountRepeat(x: real, n: nat, from: real, to: real)
    requires from <= x <= to
    ensures CountClosed(Repeat(x, n), from, to) == n
  {
    if n > 0 {
      CountRepeat(x, n - 1, from, to);
      assert Repeat(x, n)[..n - 1] == Repeat(x, n - 1);
    }
  }

  lemma {:induction false} CountCons(x: real, times: seq<real>, from: real, to: real)
    ensures CountClosed([x] + times, from, to) == (if from <= x <= to then 1 else 0) + CountClosed(times, from, to)
  {
    if times == [] {
      assert [x] + times == [x] && [x][..0] == [];
    } else {
      var n := |times| - 1;
      CountCons(x, times[..n], from, to);
      assert ([x] + times)[..n + 1] == [x] + times[..n];
    }
  }

  /** One request, the rest of the budget at the last moment of its window, and a full budget a window later. */
  function Burst(requests: int, window: real): seq<real>
    requires requests >= 1
  {
    [0.0] + Repeat(window, requests - 1) + [window + window] + Repeat(window + window, requests - 1)
  }

  function FirstWindow(requests: int, window: real): Window
    requires requests >= 1
  {
    Window(0.0, [0.0] + Repeat(window, requests - 1))
  }

  function SecondWindow(requests: int, window: real): Window
    requires requests >= 1
  {
    Window(window + window, [window + window] + Repeat(window + window, requests - 1))
  }

  lemma FirstRequest(requests: int, window: real)
    ensures RequestAll([0.0], requests, window) == Fixed(Some(Record(1, 0.0)), [] + [Window(0.0, [0.0])])
  {
    RequestSnoc([], 0.0, requests, window);
    assert [] + [0.0] == [0.0];
  }

  lemma BurstFirst(requests: int, window: real)
    requires requests >= 1 && window > 0.0
    ensures RequestAll([0.0] + Repeat(window, requests - 1), requests, window)
         == Fixed(Some(Record(requests, 0.0)), [FirstWindow(requests, window)])
  {
    FirstRequest(requests, window);
    RepeatedRequests([0.0], [], Window(0.0, [0.0]), window, requests - 1, requests, window);
    assert [] + [FirstWindow(requests, window)] == [FirstWindow(requests, window)];
  }

  lemma BurstWindows(requests: int, window: real)
    requires requests >= 1 && window > 0.0
    ensures RequestAll(Burst(requests, window), requests, window).windows
         == [FirstWindow(requests, window)] + [SecondWindow(requests, window)]
  {
    var late, sofar := window + window, [0.0] + Repeat(window, requests - 1);
    BurstFirst(requests, window);
    LateRequest(sofar, [FirstWindow(requests, window)], requests, 0.0, late, requests, window);
    RepeatedRequests(sofar + [late], [FirstWindow(requests, window)], Window(late, [late]), late, requests - 1,
        requests, window);
  }

  /** The bound is attained for every budget: `2 * requests - 1` within one window length, although the limiter is
      described as a sliding window of `requests`. */
  lemma BoundIsTight(requests: int, window: real)
    requires requests >= 1 && window > 0.0
    ensures Ascending(Burst(requests, window))
    ensures CountAdmitted(RequestAll(Burst(requests, window), requests, window).windows, window,
            window + window) == 2 * requests - 1
  {
    BurstWindows(requests, window);
    BurstCounts(requests, window);
    TwoWindows(FirstWindow(requests, window), SecondWindow(requests, window), window, window + window);
    BurstAscends(requests, window);
  }

  /** At most the budget is admitted in the interval of the window length that begins at `from`. */
  ghost predicate WithinBudget(times: seq<real>, from: real, requests: int, window: real) {
    CountAdmitted(RequestAll(times, requests, window).windows, from, from + window) <= requests
  }

  /** The limiter keeps its budget in every interval of the window length, in every run, only for a budget of one. */
  lemma KeepsBudgetIffOne(requests: int, window: real)
    requires requests >= 1 && window > 0.0
    ensures (forall times, from :: Ascending(times) ==> WithinBudget(times, from, requests, window)) <==> requests == 1
  {
    if requests == 1 {
      forall times, from | Ascending(times) ensures WithinBudget(times, from, requests, window) {
        FixedLimitHolds(times, requests, window, from);
      }
    } else {
      BoundIsTight(requests, window);
      assert !WithinBudget(Burst(requests, window), window, requests, window);
    }
  }

  lemma BurstAscends(requests: int, window: real)
    requires requests >= 1 && window > 0.0
    ensures Ascending(Burst(requests, window))
  {
  }

  lemma BurstCounts(requests: int, window: real)
    requires requests >= 1 && window > 0.0
    ensures CountClosed(FirstWindow(requests, window).times, window, window + window) == requests - 1
    ensures CountClosed(SecondWindow(requests, window).times, window, window + window) == requests
  {
    var late := window + window;
    CountBurst(0.0, window, requests - 1, window, late);
    CountBurst(late, late, requests - 1, window, late);
  }

  lemma CountBurst(x: real, y: real, n: nat, from: real, to: real)
    requires from <= y <= to
    ensures CountClosed([x] + Repeat(y, n), from, to) == n + if from <= x <= to then 1 else 0
  {
    CountCons(x, Repeat(y, n), from, to);
    CountRepeat(y, n, from, to);
  }

  lemma TwoWindows(a: Window, b: Window, from: real, to: real)
    ensures CountAdmitted([a] + [b], from, to) == CountClosed(a.times, from, to) + CountClosed(b.times, from, to)
  {
    var ws := [a] + [b];
    assert ws[..1] == [a] && [a][..0] == [];
    assert CountAdmitted([a], from, to) == CountClosed(a.times, from, to);
  }
}
