/** The life of a processing task under worker reports, progress updates and manual retries
    (gateway/internal/service/task_service.go and gateway/internal/repository/task_repository.go).
    Each operation is applied atomically; reports may be lost, repeated or reordered, so a run is any list of
    operations. */
module TaskLifecycle {
  import opened Text

  const PENDING := "pending"
  const RUNNING := "running"
  const COMPLETED := "completed"
  const FAILED := "failed"

  /** A row of the task table. */
  datatype Row = Row(
    status: string,
    progress: nat,
    result: Option<string>,
    errorMessage: string,
    startedAt: Option<real>,
    completedAt: Option<real>,
    retryCount: nat,
    updatedAt: real)

  datatype Published = Published(eventType: string, status: string, progress: nat, message: Option<string>)

  /** A worker's report (`InternalStatusUpdate`). */
  datatype Report = Report(status: string, result: Option<string>, errorMessage: string, attemptCount: Option<nat>)

  datatype Outcome = Accepted | NotRetryable | TooFrequent | InvalidTransition | NotRunning | InvalidProgress

  predicate CanTransition(from: string, to: string) {
    if from == PENDING then to == RUNNING
    else if from == RUNNING then to == RUNNING || to == COMPLETED || to == FAILED
    else if from == FAILED then to == RUNNING
    else false
  }

  /** The row a report leaves behind. */
  function Reported(row: Row, report: Report, now: real): Row {
    var progress := if report.status == RUNNING then row.progress else if report.status == COMPLETED then 100 else 0;
    Row(report.status, progress, report.result,
        if report.errorMessage != "" then report.errorMessage else row.errorMessage,
        if report.status == RUNNING then Some(now) else row.startedAt,
        if report.status == COMPLETED || report.status == FAILED then Some(now) else row.completedAt,
        if report.attemptCount.Some? then report.attemptCount.value else row.retryCount,
        now)
  }

  function Reset(row: Row, now: real): Row {
    Row(PENDING, 0, None, "", row.startedAt, None, 0, now)
  }

  /** The event a report publishes. */
  function Announcement(report: Report, progress: nat): Published {
    Published(if report.status == COMPLETED then "done" else if report.status == FAILED then "error" else "status",
              report.status, progress,
              if report.status == FAILED && report.errorMessage != "" then Some(report.errorMessage) else None)
  }

  /** A stored task together with the events published for it. */
  class Task {
    var status: string
    var progress: nat
    var result: Option<string>
    var errorMessage: string
    var startedAt: Option<real>
    var completedAt: Option<real>
    var retryCount: nat
    var updatedAt: real
    var published: seq<Published>

    ghost function View(): Row
      reads this
    {
      Row(status, progress, result, errorMessage, startedAt, completedAt, retryCount, updatedAt)
    }

    constructor (now: real)
      ensures View() == Row("pending", 0, None, "", None, None, 0, now) == Created(now).row && published == []
    {
      status, progress, result, errorMessage := PENDING, 0, None, "";
      startedAt, completedAt, retryCount, updatedAt := None, None, 0, now;
      published := [];
    }

    /** Repository: write status, progress and result, and the fields that depend on the status. */
    method UpdateStatus(newStatus: string, newProgress: nat, newResult: Option<string>, error: string, now: real)
      modifies this
      ensures View() == old(View()).(
        status := newStatus, progress := newProgress, result := newResult,
        errorMessage := if error != "" then error else old(errorMessage),
        startedAt := if newStatus == RUNNING then Some(now) else old(startedAt),
        completedAt := if newStatus == COMPLETED || newStatus == FAILED then Some(now) else old(completedAt),
        updatedAt := now)
      ensures published == old(published)
    {
      status, progress, result := newStatus, newProgress, newResult;
      if error != "" {
        errorMessage := error;
      }
      if newStatus == RUNNING || newStatus == COMPLETED || newStatus == FAILED {
        if newStatus == RUNNING {
          startedAt := Some(now);
        }
        if newStatus == COMPLETED || newStatus == FAILED {
          completedAt := Some(now);
        }
      }
      updatedAt := now;
    }

    /** Repository: the same, recording the attempt too. */
    method UpdateStatusWithAttempt(newStatus: string, newProgress: nat, newResult: Option<string>, error: string,
                                   attemptCount: nat, now: real)
      modifies this
      ensures View() == old(View()).(
        status := newStatus, progress := newProgress, result := newResult, retryCount := attemptCount,
        errorMessage := if error != "" then error else old(errorMessage),
        startedAt := if newStatus == RUNNING then Some(now) else old(startedAt),
        completedAt := if newStatus == COMPLETED || newStatus == FAILED then Some(now) else old(completedAt),
        updatedAt := now)
      ensures published == old(published)
    {
      status, progress, result, retryCount := newStatus, newProgress, newResult, attemptCount;
      if error != "" {
        errorMessage := error;
      }
      if newStatus == RUNNING {
        startedAt := Some(now);
      }
      if newStatus == COMPLETED || newStatus == FAILED {
        completedAt := Some(now);
      }
      updatedAt := now;
    }

    /** Repository: back to pending, with the previous outcome cleared. */
    method ResetForRetry(now: real)
      modifies this
      ensures View() == Reset(old(View()), now) && published == old(published)
    {
      status, progress, retryCount, errorMessage, result, completedAt := PENDING, 0, 0, "", None, None;
      updatedAt := now;
    }

    /** Apply a worker's report: an allowed one changes the row and publishes one event, any other does nothing. */
    method ProcessInternalStatusUpdate(report: Report, now: real) returns (outcome: Outcome)
      modifies this
      ensures var ok := (report.status == "running" && old(status) in ["pending", "running", "failed"])
                        || (report.status in ["completed", "failed"] && old(status) == "running");
              && outcome == (if ok then Accepted else InvalidTransition)
              && (!ok ==> View() == old(View()) && published == old(published))
              && (ok ==>
                    && status == report.status && result == report.result && updatedAt == now
                    && progress == (if report.status == "completed" then 100
                                    else if report.status == "failed" then 0 else old(progress))
                    && errorMessage == (if report.errorMessage == "" then old(errorMessage) else report.errorMessage)
                    && startedAt == (if report.status == "running" then Some(now) else old(startedAt))
                    && completedAt == (if report.status == "running" then old(completedAt) else Some(now))
                    && retryCount == (if report.attemptCount.None? then old(retryCount) else report.attemptCount.value)
                    && published == old(published)
                         + [Published(if report.status == "completed" then "done"
                                      else if report.status == "failed" then "error" else "status", status, progress,
                                      if report.status == "failed" && report.errorMessage != "" then
                                        Some(report.errorMessage) else None)])
      ensures outcome == Next(old(View()), OnReport(report), 0.0, now).outcome
      ensures View() == Next(old(View()), OnReport(report), 0.0, now).row
      ensures published == old(published) + Next(old(View()), OnReport(report), 0.0, now).events
    {
      if !CanTransition(status, report.status) {
        return InvalidTransition;
      }
      var newProgress := 0;
      if report.status == RUNNING {
        newProgress := progress;
      } else if report.status == COMPLETED {
        newProgress := 100;
      }
      if report.attemptCount.Some? {
        UpdateStatusWithAttempt(report.status, newProgress, report.result, report.errorMessage,
            report.attemptCount.value, now);
      } else {
        UpdateStatus(report.status, newProgress, report.result, report.errorMessage, now);
      }
      var eventType, message: Option<string> := "status", None;
      if report.status == COMPLETED {
        eventType := "done";
      } else if report.status == FAILED {
        eventType := "error";
        if report.errorMessage != "" {
          message := Some(report.errorMessage);
        }
      }
      published := published + [Published(eventType, report.status, newProgress, message)];
      outcome := Accepted;
    }

    /** Record the progress of a running task. */
    method UpdateProgress(newProgress: nat, now: real) returns (outcome: Outcome)
      modifies this
      ensures outcome == if newProgress > 100 then InvalidProgress
                         else if old(status) != "running" then NotRunning else Accepted
      ensures View() == if outcome != Accepted then old(View())
                        else old(View()).(progress := newProgress, updatedAt := now)
      ensures published
           == old(published) + if outcome != Accepted then [] else [Published("progress", "running", newProgress, None)]
      ensures outcome == Next(old(View()), OnProgress(newProgress), 0.0, now).outcome
      ensures View() == Next(old(View()), OnProgress(newProgress), 0.0, now).row
      ensures published == old(published) + Next(old(View()), OnProgress(newProgress), 0.0, now).events
    {
      if newProgress > 100 {
        return InvalidProgress;
      }
      if status != RUNNING {
        return NotRunning;
      }
      progress, updatedAt := newProgress, now;
      published := published + [Published("progress", RUNNING, newProgress, None)];
      outcome := Accepted;
    }

    /** A user's retry of a finished task. */
    method Retry(cooldown: real, now: real) returns (outcome: Outcome)
      modifies this
      ensures outcome == if old(status) !in ["failed", "completed"] then NotRetryable
                         else if now - old(updatedAt) < cooldown then TooFrequent else Accepted
      ensures View() == if outcome != Accepted then old(View())
                        else Row("pending", 0, None, "", old(startedAt), None, 0, now)
      ensures outcome == Next(old(View()), OnRetry, cooldown, now).outcome
      ensures View() == Next(old(View()), OnRetry, cooldown, now).row
      ensures published == old(published)
    {
      if status != FAILED && status != COMPLETED {
        return NotRetryable;
      }
      if now - updatedAt < cooldown {
        return TooFrequent;
      }
      ResetForRetry(now);
      outcome := Accepted;
    }
  }

  // ----- one operation -----

  datatype Op = OnReport(report: Report) | OnProgress(progress: nat) | OnRetry

  datatype Result = Result(outcome: Outcome, row: Row, events: seq<Published>)

  function Next(row: Row, op: Op, cooldown: real, now: real): Result {
    match op
    case OnReport(report) =>
      if !CanTransition(row.status, report.status) then Result(InvalidTransition, row, [])
      else
        var after := Reported(row, report, now);
        Result(Accepted, after, [Announcement(report, after.progress)])
    case OnProgress(p) =>
      if p > 100 then Result(InvalidProgress, row, [])
      else if row.status != RUNNING then Result(NotRunning, row, [])
      else Result(Accepted, row.(progress := p, updatedAt := now), [Published("progress", RUNNING, p, None)])
    case OnRetry =>
      if row.status != FAILED && row.status != COMPLETED then Result(NotRetryable, row, [])
      else if now - row.updatedAt < cooldown then Result(TooFrequent, row, [])
      else Result(Accepted, Reset(row, now), [])
  }

  // ----- whole runs -----

  /** The row with what an observer has counted: done events, accepted retries and when they happened, the time of the
      last operation, and the last error reported since the last reset. */
  datatype History = History(row: Row, done: nat, retries: nat, resets: seq<real>, clock: real, lastError: string)

  function Created(now: real): History {
    History(Row(PENDING, 0, None, "", None, None, 0, now), 0, 0, [], now, "")
  }

  function Advance(h: History, op: Op, cooldown: real, now: real): History {
    var r := Next(h.row, op, cooldown, now);
    var reset := op.OnRetry? && r.outcome == Accepted;
    History(
      r.row,
      h.done + (if |r.events| > 0 && r.events[0].eventType == "done" then 1 else 0),
      h.retries + (if reset then 1 else 0),
      if reset then h.resets + [now] else h.resets,
      now,
      if reset then ""
      else if op.OnReport? && r.outcome == Accepted && op.report.errorMessage != "" then op.report.errorMessage
      else h.lastError)
  }

  /** Operations with the times they are applied at. */
  function Play(h: History, ops: seq<(Op, real)>, cooldown: real): History {
    if ops == [] then h
    else
      var n := |ops| - 1;
      Advance(Play(h, ops[..n], cooldown), ops[n].0, cooldown, ops[n].1)
  }

  ghost predicate Monotone(start: real, ops: seq<(Op, real)>) {
    && (forall i :: 0 <= i < |ops| ==> start <= ops[i].1)
    && (forall i, j :: 0 <= i < j < |ops| ==> ops[i].1 <= ops[j].1)
  }

  /** The row itself: progress agrees with the status. */
  ghost predicate RowOk(row: Row) {
    && row.status in [PENDING, RUNNING, COMPLETED, FAILED]
    && row.progress <= 100
    && (row.status == COMPLETED ==> row.progress == 100 && row.completedAt.Some?)
    && (row.status == PENDING ==>
          row.progress == 0 && row.completedAt.None? && row.result.None? && row.errorMessage == "")
    && (row.status == FAILED ==> row.progress == 0 && row.completedAt.Some?)
  }

  ghost predicate Spaced(resets: seq<real>, cooldown: real) {
    forall i, j :: 0 <= i < j < |resets| ==> resets[j] - resets[i] >= cooldown
  }

  ghost predicate HistoryOk(h: History, cooldown: real) {
    && RowOk(h.row)
    && h.row.errorMessage == h.lastError
    && h.done <= h.retries + (if h.row.status == COMPLETED then 1 else 0)
    && |h.resets| == h.retries && Spaced(h.resets, cooldown)
    && h.row.updatedAt <= h.clock
    && (forall i :: 0 <= i < |h.resets| ==> h.resets[i] <= h.row.updatedAt)
  }

  lemma NextKeepsRow(row: Row, op: Op, cooldown: real, now: real)
    requires RowOk(row)
    ensures RowOk(Next(row, op, cooldown, now).row)
  {
  }

  lemma DoneMeansCompleted(row: Row, op: Op, cooldown: real, now: real)
    requires RowOk(row)
    ensures var r := Next(row, op, cooldown, now);
            |r.events| > 0 && r.events[0].eventType == "done" ==> row.status == RUNNING && r.row.status == COMPLETED
    ensures Next(row, op, cooldown, now).row.status != COMPLETED && row.status == COMPLETED ==>
              op.OnRetry? && Next(row, op, cooldown, now).outcome == Accepted
  {
  }

  lemma RetryIsSpaced(h: History, cooldown: real, now: real)
    requires HistoryOk(h, cooldown) && Next(h.row, OnRetry, cooldown, now).outcome == Accepted
    ensures Spaced(h.resets + [now], cooldown)
  {
    forall i | 0 <= i < |h.resets| ensures now - h.resets[i] >= cooldown {
      assert h.resets[i] <= h.row.updatedAt;
    }
  }

  lemma TimesAdvance(row: Row, op: Op, cooldown: real, now: real)
    requires row.updatedAt <= now
    ensures row.updatedAt <= Next(row, op, cooldown, now).row.updatedAt <= now
    ensures op.OnRetry? && Next(row, op, cooldown, now).outcome == Accepted ==>
              Next(row, op, cooldown, now).row.updatedAt == now
  {
  }

  lemma ErrorFollows(h: History, op: Op, cooldown: real, now: real)
    requires h.row.errorMessage == h.lastError
    ensures var h' := Advance(h, op, cooldown, now); h'.row.errorMessage == h'.lastError
  {
  }

  lemma AdvanceKeepsOk(h: History, op: Op, cooldown: real, now: real)
    requires HistoryOk(h, cooldown) && h.clock <= now
    ensures HistoryOk(Advance(h, op, cooldown, now), cooldown)
  {
    NextKeepsRow(h.row, op, cooldown, now);
    DoneMeansCompleted(h.row, op, cooldown, now);
    TimesAdvance(h.row, op, cooldown, now);
    ErrorFollows(h, op, cooldown, now);
    var r := Next(h.row, op, cooldown, now);
    if op.OnRetry? && r.outcome == Accepted {
      RetryIsSpaced(h, cooldown, now);
    }
  }

  /** Every run from creation keeps the history consistent. */
  lemma {:induction false} PlayIsOk(start: real, ops: seq<(Op, real)>, cooldown: real)
    requires Monotone(start, ops)
    ensures HistoryOk(Play(Created(start), ops, cooldown), cooldown)
    ensures Play(Created(start), ops, cooldown).clock == if ops == [] then start else ops[|ops| - 1].1
  {
    if ops != [] {
      var n := |ops| - 1;
      PlayIsOk(start, ops[..n], cooldown);
      AdvanceKeepsOk(Play(Created(start), ops[..n], cooldown), ops[n].0, cooldown, ops[n].1);
    }
  }

  /** Done events number at most one more than the accepted retries, and accepted retries are a cooldown apart. */
  lemma DoneAndRetries(start: real, ops: seq<(Op, real)>, cooldown: real)
    requires Monotone(start, ops)
    ensures var h := Play(Created(start), ops, cooldown);
            h.done <= 1 + h.retries && Spaced(h.resets, cooldown) && |h.resets| == h.retries
  {
    PlayIsOk(start, ops, cooldown);
  }

  // ----- moments of a run -----

  /** A run moment by moment: `hs[i]` is the history before operation `i`. */
  ghost predicate Moments(hs: seq<History>, start: real, ops: seq<(Op, real)>, cooldown: real) {
    && |hs| == |ops| + 1 && hs[0] == Created(start)
    && forall i, j :: 0 <= i < j < |hs| && j == i + 1 ==> hs[j] == Advance(hs[i], ops[i].0, cooldown, ops[i].1)
  }

  /** Every run has such moments. */
  lemma {:induction false} MomentsExist(start: real, ops: seq<(Op, real)>, cooldown: real) returns (hs: seq<History>)
    ensures Moments(hs, start, ops, cooldown) && hs[|ops|] == Play(Created(start), ops, cooldown)
  {
    if ops == [] {
      hs := [Created(start)];
    } else {
      var n := |ops| - 1;
      var before := MomentsExist(start, ops[..n], cooldown);
      MomentsSnoc(before, start, ops[..n], ops[n], cooldown);
      assert ops == ops[..n] + [ops[n]];
      hs := before + [Advance(before[n], ops[n].0, cooldown, ops[n].1)];
    }
  }

  lemma MomentsSnoc(hs: seq<History>, start: real, ops: seq<(Op, real)>, op: (Op, real), cooldown: real)
    requires Moments(hs, start, ops, cooldown)
    ensures Moments(hs + [Advance(hs[|ops|], op.0, cooldown, op.1)], start, ops + [op], cooldown)
  {
    var all := hs + [Advance(hs[|ops|], op.0, cooldown, op.1)];
    forall i, j | 0 <= i < j < |all| && j == i + 1
      ensures all[j] == Advance(all[i], (ops + [op])[i].0, cooldown, (ops + [op])[i].1) {
      assert all[i] == hs[i];
      if j < |hs| {
        assert all[j] == hs[j] == Advance(hs[i], ops[i].0, cooldown, ops[i].1);
      }
    }
  }

  lemma {:induction false} MomentIsOk(hs: seq<History>, start: real, ops: seq<(Op, real)>, cooldown: real, n: nat)
    requires Moments(hs, start, ops, cooldown) && Monotone(start, ops) && n <= |ops|
    ensures HistoryOk(hs[n], cooldown) && hs[n].clock == if n == 0 then start else ops[n - 1].1
  {
    if n > 0 {
      MomentIsOk(hs, start, ops, cooldown, n - 1);
      assert hs[n] == Advance(hs[n - 1], ops[n - 1].0, cooldown, ops[n - 1].1);
      assert n > 1 ==> ops[n - 2].1 <= ops[n - 1].1;
      AdvanceKeepsOk(hs[n - 1], ops[n - 1].0, cooldown, ops[n - 1].1);
    }
  }

  predicate Accepts(h: History, op: (Op, real), cooldown: real) {
    Next(h.row, op.0, cooldown, op.1).outcome == Accepted
  }

  ghost predicate IsTerminal(op: Op) {
    op.OnReport? && op.report.status in ["completed", "failed"]
  }

  /** The operation is a retry that is accepted. */
  ghost predicate Retries(h: History, op: (Op, real), cooldown: real) {
    op.0.OnRetry? && Accepts(h, op, cooldown)
  }

  /** The operation is a report that the task is running, and is accepted. */
  ghost predicate Starts(h: History, op: (Op, real), cooldown: real) {
    op.0.OnReport? && op.0.report.status == RUNNING && Accepts(h, op, cooldown)
  }

  /** The operation writes or clears the error message. */
  ghost predicate TouchesError(h: History, op: (Op, real), cooldown: real) {
    Retries(h, op, cooldown) || (op.0.OnReport? && op.0.report.errorMessage != "" && Accepts(h, op, cooldown))
  }

  /** What one operation leaves alone. */
  lemma StepKeeps(h: History, op: (Op, real), cooldown: real)
    ensures var row := Advance(h, op.0, cooldown, op.1).row;
            && (h.row.status == COMPLETED && !Retries(h, op, cooldown) ==> row == h.row)
            && (h.row.status != RUNNING && !Starts(h, op, cooldown) ==> row.status != RUNNING)
            && (!TouchesError(h, op, cooldown) ==> row.errorMessage == h.row.errorMessage)
  {
  }

  /** In every run a completed task keeps its whole row until a retry is accepted. */
  lemma {:induction false} CompletedUntilRetried(hs: seq<History>, start: real, ops: seq<(Op, real)>, cooldown: real,
                                                 m: nat, n: nat)
    requires Moments(hs, start, ops, cooldown) && m <= n <= |ops| && hs[m].row.status == COMPLETED
    requires forall i :: m <= i < n ==> !Retries(hs[i], ops[i], cooldown)
    ensures hs[n].row == hs[m].row
    decreases n
  {
    if m < n {
      CompletedUntilRetried(hs, start, ops, cooldown, m, n - 1);
      StepKeeps(hs[n - 1], ops[n - 1], cooldown);
      assert hs[n] == Advance(hs[n - 1], ops[n - 1].0, cooldown, ops[n - 1].1);
    }
  }

  /** In every run a task that is not running stays so until a report that it is running is accepted. */
  lemma {:induction false} StoppedUntilStarted(hs: seq<History>, start: real, ops: seq<(Op, real)>, cooldown: real,
                                               m: nat, n: nat)
    requires Moments(hs, start, ops, cooldown) && m <= n <= |ops| && hs[m].row.status != RUNNING
    requires forall i :: m <= i < n ==> !Starts(hs[i], ops[i], cooldown)
    ensures hs[n].row.status != RUNNING
    decreases n
  {
    if m < n {
      StoppedUntilStarted(hs, start, ops, cooldown, m, n - 1);
      StepKeeps(hs[n - 1], ops[n - 1], cooldown);
      assert hs[n] == Advance(hs[n - 1], ops[n - 1].0, cooldown, ops[n - 1].1);
    }
  }

  /** In every run a terminal report is accepted exactly when the task is running, and otherwise refused without a
      trace. */
  lemma TerminalReports(hs: seq<History>, start: real, ops: seq<(Op, real)>, cooldown: real, i: nat)
    requires Moments(hs, start, ops, cooldown) && Monotone(start, ops) && i < |ops| && IsTerminal(ops[i].0)
    ensures Accepts(hs[i], ops[i], cooldown) <==> hs[i].row.status == RUNNING
    ensures !Accepts(hs[i], ops[i], cooldown) ==> hs[i + 1] == hs[i].(clock := ops[i].1)
  {
    MomentIsOk(hs, start, ops, cooldown, i);
    assert hs[i + 1] == Advance(hs[i], ops[i].0, cooldown, ops[i].1);
  }

  /** So a repeated or late terminal report is refused: after one was accepted in a run, no other is until the task was
      reported running again. */
  lemma OneTerminalReport(hs: seq<History>, start: real, ops: seq<(Op, real)>, cooldown: real, i: nat, j: nat)
    requires Moments(hs, start, ops, cooldown) && Monotone(start, ops)
    requires i < j < |ops| && IsTerminal(ops[i].0) && IsTerminal(ops[j].0) && Accepts(hs[i], ops[i], cooldown)
    requires forall k :: i < k < j ==> !Starts(hs[k], ops[k], cooldown)
    ensures !Accepts(hs[j], ops[j], cooldown)
  {
    assert hs[i + 1] == Advance(hs[i], ops[i].0, cooldown, ops[i].1);
    StoppedUntilStarted(hs, start, ops, cooldown, i + 1, j);
    TerminalReports(hs, start, ops, cooldown, j);
  }

  /** In every run an error message outlives whatever follows, a later completion too, until a retry or an accepted
      report with a message. */
  lemma {:induction false} ErrorOutlives(hs: seq<History>, start: real, ops: seq<(Op, real)>, cooldown: real, m: nat,
                                         n: nat)
    requires Moments(hs, start, ops, cooldown) && m <= n <= |ops|
    requires forall i :: m <= i < n ==> !TouchesError(hs[i], ops[i], cooldown)
    ensures hs[n].row.errorMessage == hs[m].row.errorMessage
    decreases n
  {
    if m < n {
      ErrorOutlives(hs, start, ops, cooldown, m, n - 1);
      StepKeeps(hs[n - 1], ops[n - 1], cooldown);
      assert hs[n] == Advance(hs[n - 1], ops[n - 1].0, cooldown, ops[n - 1].1);
    }
  }

  /** The accepted reports of a completion among the first `n` operations of a run. */
  function Completions(hs: seq<History>, ops: seq<(Op, real)>, cooldown: real, n: nat): nat
    requires n <= |ops| && |hs| == |ops| + 1
  {
    if n == 0 then 0
    else
      Completions(hs, ops, cooldown, n - 1)
      + if ops[n - 1].0.OnReport? && ops[n - 1].0.report.status == "completed"
          && Accepts(hs[n - 1], ops[n - 1], cooldown)
        then 1 else 0
  }

  /** In every run the "done" events are as many as the accepted reports of a completion. */
  lemma {:induction false} DoneCountsCompletions(hs: seq<History>, start: real, ops: seq<(Op, real)>, cooldown: real,
                                                 n: nat)
    requires Moments(hs, start, ops, cooldown) && n <= |ops|
    ensures hs[n].done == Completions(hs, ops, cooldown, n)
  {
    if n > 0 {
      DoneCountsCompletions(hs, start, ops, cooldown, n - 1);
      assert hs[n] == Advance(hs[n - 1], ops[n - 1].0, cooldown, ops[n - 1].1);
      ReportPublishes(hs[n - 1].row, ops[n - 1].0, cooldown, ops[n - 1].1);
    }
  }

  /** What an operation publishes: an accepted completion exactly one "done" with progress 100, an accepted failure one
      "error" with progress 0 and its message, any other accepted report one "status" with the progress so far, accepted
      progress one "progress"; retries and refused operations nothing. */
  lemma ReportPublishes(row: Row, op: Op, cooldown: real, now: real)
    ensures var r := Next(row, op, cooldown, now);
            r.events == if r.outcome != Accepted || op.OnRetry? then []
                        else if op.OnProgress? then [Published("progress", "running", op.progress, None)]
                        else if op.report.status == "completed" then [Published("done", "completed", 100, None)]
                        else if op.report.status == "failed" then
                          [Published("error", "failed", 0,
                                     if op.report.errorMessage == "" then None else Some(op.report.errorMessage))]
                        else [Published("status", "running", row.progress, None)]
  {
  }

  /** For instance, a task that fails, is picked up again and completes shows the message of its failure. */
  lemma ErrorSurvivesCompletion(start: real, cooldown: real, message: string)
    ensures var run := OnReport(Report(RUNNING, None, "", None));
            var fail := OnReport(Report(FAILED, None, message, None));
            var complete := OnReport(Report(COMPLETED, None, "", None));
            var ops := [(run, start), (fail, start), (run, start), (complete, start)];
            var row := Play(Created(start), ops, cooldown).row;
            row.status == COMPLETED && row.errorMessage == message
  {
    var run := OnReport(Report(RUNNING, None, "", None));
    var fail := OnReport(Report(FAILED, None, message, None));
    var complete := OnReport(Report(COMPLETED, None, "", None));
    var ops := [(run, start), (fail, start), (run, start), (complete, start)];
    FourOps((run, start), (fail, start), (run, start), (complete, start), Created(start), cooldown);
  }

  lemma FourOps(a: (Op, real), b: (Op, real), c: (Op, real), d: (Op, real), h: History, cooldown: real)
    ensures var h1 := Advance(h, a.0, cooldown, a.1);
            var h2 := Advance(h1, b.0, cooldown, b.1);
            var h3 := Advance(h2, c.0, cooldown, c.1);
            Play(h, [a, b, c, d], cooldown) == Advance(h3, d.0, cooldown, d.1)
  {
    PlaySnoc(h, [], a, cooldown);
    PlaySnoc(h, [a], b, cooldown);
    PlaySnoc(h, [a, b], c, cooldown);
    PlaySnoc(h, [a, b, c], d, cooldown);
    assert [] + [a] == [a] && [a] + [b] == [a, b] && [a, b] + [c] == [a, b, c] && [a, b, c] + [d] == [a, b, c, d];
  }

  lemma PlaySnoc(h: History, ops: seq<(Op, real)>, op: (Op, real), cooldown: real)
    ensures Play(h, ops + [op], cooldown) == Advance(Play(h, ops, cooldown), op.0, cooldown, op.1)
  {
    assert (ops + [op])[..|ops|] == ops;
  }
}
