/** The gateway's question-answering stream as a state machine: one goroutine relays AI events to the client,
    accumulates the answer and saves it, under cancellation (gateway/internal/service/qa_service.go).
    A run is any interleaving of the goroutine's steps with arrivals, client reads and cancellation. */
module QaStream {
  import opened Text
  import opened SseCodec

  /** The capacity of the channel to the client. */
  const OUT_CAPACITY := 64

  /** The two JSON readers applied to an event's data: the `delta` string (empty when absent) and the citation, if
      any. */
  datatype Readers = Readers(delta: string -> string, citation: string -> Option<string>)

  /** What `saveAssistant` is called with. */
  datatype Saved = Saved(answer: string, reasoning: string, citations: seq<string>)

  datatype Phase = Selecting | Sending(ev: SseEvent) | Finished

  /** `arrived` and `forwarded` are histories: all events put into the inbox, all events sent on to the client. */
  datatype State = State(
    phase: Phase,
    inbox: seq<SseEvent>,
    inboxClosed: bool,
    cancelled: bool,
    outBuffer: seq<SseEvent>,
    received: seq<SseEvent>,
    outCloses: nat,
    answer: string,
    reasoning: string,
    citations: seq<string>,
    saves: seq<Saved>,
    persisted: seq<Saved>,
    arrived: seq<SseEvent>,
    forwarded: seq<SseEvent>)

  const INITIAL := State(Selecting, [], false, false, [], [], 0, "", "", [], [], [], [], [])

  datatype Step =
    | Arrive(ev: SseEvent)   // the AI client puts an event into the inbox
    | CloseInbox             // the AI client closes the inbox
    | Cancel                 // the request context is cancelled
    | ClientTakes            // the client reads an event
    | SeeCancel              // select: ctx.Done()
    | Take                   // select: an event from the inbox
    | SeeClosed              // select: the inbox is closed and drained
    | Send                   // inner select: the event goes to the client
    | CancelSend             // inner select: ctx.Done()

  predicate IsTerminal(ev: SseEvent) {
    ev.kind == "done" || ev.kind == "error"
  }

  predicate Enabled(s: State, step: Step) {
    match step
    case Arrive(_) => !s.inboxClosed
    case CloseInbox => !s.inboxClosed
    case Cancel => !s.cancelled
    case ClientTakes => s.outBuffer != []
    case SeeCancel => s.phase.Selecting? && s.cancelled
    case Take => s.phase.Selecting? && s.inbox != []
    case SeeClosed => s.phase.Selecting? && s.inbox == [] && s.inboxClosed
    case Send => s.phase.Sending? && |s.outBuffer| < OUT_CAPACITY
    case CancelSend => s.phase.Sending? && s.cancelled
  }

  /** `saveAssistant` followed by the deferred close. Nothing is stored for an entirely empty answer. */
  function SaveAndReturn(s: State): State {
    var saved := Saved(s.answer, s.reasoning, s.citations);
    s.(phase := Finished,
       outCloses := s.outCloses + 1,
       saves := s.saves + [saved],
       persisted := if saved == Saved("", "", []) then s.persisted else s.persisted + [saved])
  }

  /** The bookkeeping after a successful send. */
  function Accumulate(r: Readers, s: State, ev: SseEvent): State {
    if ev.kind == "chunk" then s.(answer := s.answer + r.delta(ev.data))
    else if ev.kind == "reasoning" then s.(reasoning := s.reasoning + r.delta(ev.data))
    else if ev.kind == "citation" && r.citation(ev.data).Some? then
      s.(citations := s.citations + [r.citation(ev.data).value])
    else s
  }

  function Apply(r: Readers, s: State, step: Step): State
    requires Enabled(s, step)
  {
    match step
    case Arrive(ev) => s.(inbox := s.inbox + [ev], arrived := s.arrived + [ev])
    case CloseInbox => s.(inboxClosed := true)
    case Cancel => s.(cancelled := true)
    case ClientTakes => s.(outBuffer := s.outBuffer[1..], received := s.received + [s.outBuffer[0]])
    case SeeCancel => SaveAndReturn(s)
    case Take => s.(phase := Sending(s.inbox[0]), inbox := s.inbox[1..])
    case SeeClosed => SaveAndReturn(s)
    case Send =>
      var ev := s.phase.ev;
      var sent := s.(phase := Selecting, outBuffer := s.outBuffer + [ev], forwarded := s.forwarded + [ev]);
      var noted := Accumulate(r, sent, ev);
      if IsTerminal(ev) then SaveAndReturn(noted) else noted
    case CancelSend => SaveAndReturn(s)
  }

  /** `steps` can be taken one after the other from `s`. */
  predicate Possible(r: Readers, s: State, steps: seq<Step>)
    decreases |steps|
  {
    steps == [] || (Enabled(s, steps[0]) && Possible(r, Apply(r, s, steps[0]), steps[1..]))
  }

  function After(r: Readers, s: State, steps: seq<Step>): State
    requires Possible(r, s, steps)
    decreases |steps|
  {
    if steps == [] then s else After(r, Apply(r, s, steps[0]), steps[1..])
  }

  // ----- what the accumulated fields mean -----

  /** The deltas of the events of one kind, concatenated. */
  function Deltas(r: Readers, events: seq<SseEvent>, kind: string): string {
    if events == [] then ""
    else
      var n := |events| - 1;
      Deltas(r, events[..n], kind) + (if events[n].kind == kind then r.delta(events[n].data) else "")
  }

  /** The citations among the events, in order. */
  function Citations(r: Readers, events: seq<SseEvent>): seq<string> {
    if events == [] then []
    else
      var n := |events| - 1;
      Citations(r, events[..n])
      + (if events[n].kind == "citation" && r.citation(events[n].data).Some?
          then [r.citation(events[n].data).value] else [])
  }

  /** What a save must hold after exactly `events` were forwarded. */
  function Transcript(r: Readers, events: seq<SseEvent>): Saved {
    Saved(Deltas(r, events, "chunk"), Deltas(r, events, "reasoning"), Citations(r, events))
  }

  /** No event before the last is terminal. */
  ghost predicate QuietBeforeLast(events: seq<SseEvent>) {
    forall i :: 0 <= i < |events| - 1 ==> events[i].kind != "done" && events[i].kind != "error"
  }

  ghost predicate Ended(events: seq<SseEvent>) {
    events != [] && (events[|events| - 1].kind == "done" || events[|events| - 1].kind == "error")
  }

  function InFlight(s: State): seq<SseEvent> {
    if s.phase.Sending? then [s.phase.ev] else []
  }

  /** True at every moment: the fields are the transcript of what was forwarded, the client gets it in order,
      and nothing was forwarded after a terminal event. */
  ghost predicate Relaying(r: Readers, s: State) {
    && Saved(s.answer, s.reasoning, s.citations) == Transcript(r, s.forwarded)
    && s.forwarded == s.received + s.outBuffer && |s.outBuffer| <= 64
    && QuietBeforeLast(s.forwarded)
  }

  /** Before the goroutine returns: nothing is saved or closed, and no event is lost. */
  ghost predicate Running(s: State) {
    && !s.phase.Finished? && s.outCloses == 0 && s.saves == [] && s.persisted == []
    && s.arrived == s.forwarded + InFlight(s) + s.inbox
  }

  /** After it returned: one close, one save, and a reason for stopping. */
  ghost predicate Returned(r: Readers, s: State) {
    && s.phase.Finished? && s.outCloses == 1 && s.saves == [Transcript(r, s.forwarded)] && s.forwarded <= s.arrived
    && s.persisted == (if Transcript(r, s.forwarded) == Saved("", "", []) then [] else [Transcript(r, s.forwarded)])
    && Stops(s)
  }

  ghost predicate Stops(s: State) {
    s.cancelled || Ended(s.forwarded) || (s.inboxClosed && s.forwarded == s.arrived)
  }

  ghost predicate Inv(r: Readers, s: State) {
    Relaying(r, s) && (Returned(r, s) || (Running(s) && !Ended(s.forwarded)))
  }

  lemma TranscriptSnoc(r: Readers, events: seq<SseEvent>, ev: SseEvent)
    ensures Transcript(r, events + [ev]).answer
         == Transcript(r, events).answer + (if ev.kind == "chunk" then r.delta(ev.data) else "")
    ensures Transcript(r, events + [ev]).reasoning
         == Transcript(r, events).reasoning + (if ev.kind == "reasoning" then r.delta(ev.data) else "")
    ensures Transcript(r, events + [ev]).citations == Transcript(r, events).citations
            + (if ev.kind == "citation" && r.citation(ev.data).Some? then [r.citation(ev.data).value] else [])
  {
    assert (events + [ev])[..|events|] == events;
  }

  /** Noting a forwarded event keeps the fields equal to the transcript. */
  lemma AccumulateIsTranscript(r: Readers, s: State, ev: SseEvent)
    requires s.forwarded != [] && s.forwarded[|s.forwarded| - 1] == ev
    requires Saved(s.answer, s.reasoning, s.citations) == Transcript(r, s.forwarded[..|s.forwarded| - 1])
    ensures var t := Accumulate(r, s, ev);
            Saved(t.answer, t.reasoning, t.citations) == Transcript(r, s.forwarded)
  {
    var before := s.forwarded[..|s.forwarded| - 1];
    assert s.forwarded == before + [ev];
    TranscriptSnoc(r, before, ev);
  }

  lemma ReturnKeepsInv(r: Readers, s: State)
    requires Relaying(r, s) && Running(s) && Stops(s)
    ensures Inv(r, SaveAndReturn(s))
  {
    PrefixOf(s.forwarded, InFlight(s), s.inbox);
  }

  lemma PrefixOf<T>(a: seq<T>, b: seq<T>, c: seq<T>)
    ensures a <= a + b + c
  {
    AppendAssoc(a, b, c);
  }

  /** The state between a send and the check for a terminal event. */
  function Noted(r: Readers, s: State): State
    requires Enabled(s, Send)
  {
    var ev := s.phase.ev;
    Accumulate(r, s.(phase := Selecting, outBuffer := s.outBuffer + [ev], forwarded := s.forwarded + [ev]), ev)
  }

  lemma SendRelays(r: Readers, s: State)
    requires Relaying(r, s) && !Ended(s.forwarded) && Enabled(s, Send)
    ensures Relaying(r, Noted(r, s))
  {
    var ev := s.phase.ev;
    var sent := s.(phase := Selecting, outBuffer := s.outBuffer + [ev], forwarded := s.forwarded + [ev]);
    assert sent.forwarded[..|s.forwarded|] == s.forwarded;
    AccumulateIsTranscript(r, sent, ev);
    AppendAssoc(s.received, s.outBuffer, [ev]);
    QuietSnoc(s.forwarded, ev);
  }

  lemma QuietSnoc(events: seq<SseEvent>, ev: SseEvent)
    requires QuietBeforeLast(events) && !Ended(events)
    ensures QuietBeforeLast(events + [ev])
  {
  }

  lemma SendRuns(r: Readers, s: State)
    requires Running(s) && Enabled(s, Send)
    ensures Running(Noted(r, s))
  {
    assert s.forwarded + [s.phase.ev] + [] == s.forwarded + [s.phase.ev];
  }

  lemma SendKeepsInv(r: Readers, s: State)
    requires Inv(r, s) && Enabled(s, Send)
    ensures Inv(r, Apply(r, s, Send))
  {
    SendRelays(r, s);
    SendRuns(r, s);
    if IsTerminal(s.phase.ev) {
      ReturnKeepsInv(r, Noted(r, s));
    }
  }

  lemma OutsideKeepsInv(r: Readers, s: State, step: Step)
    requires Inv(r, s) && Enabled(s, step) && (step.Arrive? || step.CloseInbox? || step.Cancel? || step.ClientTakes?)
    ensures Inv(r, Apply(r, s, step))
  {
    match step
    case Arrive(ev) =>
      AppendAssoc(s.forwarded + InFlight(s), s.inbox, [ev]);
    case ClientTakes =>
      assert s.received + s.outBuffer == (s.received + [s.outBuffer[0]]) + s.outBuffer[1..];
    case _ =>
  }

  lemma TakeKeepsInv(r: Readers, s: State)
    requires Inv(r, s) && Enabled(s, Take)
    ensures Inv(r, Apply(r, s, Take))
  {
    assert s.forwarded + [] == s.forwarded;
    assert s.inbox == [s.inbox[0]] + s.inbox[1..];
    AppendAssoc(s.forwarded, [s.inbox[0]], s.inbox[1..]);
  }

  lemma StepKeepsInv(r: Readers, s: State, step: Step)
    requires Inv(r, s) && Enabled(s, step)
    ensures Inv(r, Apply(r, s, step))
  {
    match step
    case SeeCancel => ReturnKeepsInv(r, s);
    case CancelSend => ReturnKeepsInv(r, s);
    case SeeClosed =>
      assert s.forwarded + [] + [] == s.forwarded;
      ReturnKeepsInv(r, s);
    case Take => TakeKeepsInv(r, s);
    case Send => SendKeepsInv(r, s);
    case _ => OutsideKeepsInv(r, s, step);
  }

  /** The invariant holds in every state of every run. */
  lemma {:induction false} InvAlways(r: Readers, s: State, steps: seq<Step>)
    requires Inv(r, s) && Possible(r, s, steps)
    ensures Inv(r, After(r, s, steps))
    decreases |steps|
  {
    if steps != [] {
      StepKeepsInv(r, s, steps[0]);
      InvAlways(r, Apply(r, s, steps[0]), steps[1..]);
    }
  }

  lemma InitialInv(r: Readers)
    ensures Inv(r, INITIAL)
  {
  }

  /** Every run: the output is closed and the answer saved at most once, exactly once when the goroutine has returned,
      and the save holds the deltas of exactly the forwarded events. */
  lemma SavedOnce(r: Readers, steps: seq<Step>)
    requires Possible(r, INITIAL, steps)
    ensures var s := After(r, INITIAL, steps);
            && |s.saves| == s.outCloses == (if s.phase.Finished? then 1 else 0)
            && (s.phase.Finished? ==> s.saves[0] == Transcript(r, s.forwarded))
            && s.persisted == if s.saves == [] || s.saves == [Saved("", "", [])] then [] else s.saves
  {
    InitialInv(r);
    InvAlways(r, INITIAL, steps);
  }

  /** Every run: what the client reads is a prefix of what was forwarded, which is a prefix of what arrived,
      with no event after the first terminal one. */
  lemma ForwardedInOrder(r: Readers, steps: seq<Step>)
    requires Possible(r, INITIAL, steps)
    ensures var s := After(r, INITIAL, steps);
            && s.received <= s.forwarded <= s.arrived
            && QuietBeforeLast(s.forwarded)
  {
    InitialInv(r);
    InvAlways(r, INITIAL, steps);
    var s := After(r, INITIAL, steps);
    if Running(s) {
      PrefixOf(s.forwarded, InFlight(s), s.inbox);
    }
  }

  /** The events up to and including the first terminal one. */
  function UpToTerminal(events: seq<SseEvent>): seq<SseEvent> {
    if events == [] then []
    else if events[0].kind == "done" || events[0].kind == "error" then [events[0]]
    else [events[0]] + UpToTerminal(events[1..])
  }

  lemma {:induction false} PrefixUpToTerminal(a: seq<SseEvent>, b: seq<SseEvent>)
    requires a <= b && QuietBeforeLast(a) && (Ended(a) || (a == b && !Ended(a)))
    ensures a == UpToTerminal(b)
    decreases |b|
  {
    if b != [] {
      if a == [] {
      } else if b[0].kind == "done" || b[0].kind == "error" {
        assert a == [b[0]];
      } else {
        var a1, b1 := a[1..], b[1..];
        assert a == [b[0]] + a1;
        assert forall i :: 0 <= i < |a1| ==> a1[i] == a[i + 1];
        PrefixUpToTerminal(a1, b1);
      }
    }
  }

  /** Without cancellation a finished stream has forwarded and saved everything up to the first terminal event. */
  lemma UncancelledIsComplete(r: Readers, steps: seq<Step>)
    requires Possible(r, INITIAL, steps)
    requires After(r, INITIAL, steps).phase.Finished? && !After(r, INITIAL, steps).cancelled
    ensures var s := After(r, INITIAL, steps);
            s.forwarded == UpToTerminal(s.arrived) && s.saves == [Transcript(r, UpToTerminal(s.arrived))]
  {
    InitialInv(r);
    InvAlways(r, INITIAL, steps);
    var s := After(r, INITIAL, steps);
    PrefixUpToTerminal(s.forwarded, s.arrived);
  }

  /** What is still to be done before the goroutine returns, if nothing more arrives. */
  ghost function Remaining(s: State): nat {
    3 * |s.inbox| + (if s.phase.Sending? then 2 else 0) + |s.outBuffer|
    + (if s.inboxClosed then 0 else 1) + (if s.phase.Finished? then 0 else 1)
  }

  /** What the goroutine, its client or the AI client can do next without another arrival. */
  function Onward(s: State): Step {
    match s.phase
    case Sending(_) => if |s.outBuffer| < OUT_CAPACITY then Send else ClientTakes
    case _ => if s.inbox != [] then Take else if s.inboxClosed then SeeClosed else CloseInbox
  }

  /** From every state of a run the stream can be brought to its end without cancelling it and without losing anything:
      with what has arrived it finishes, and then has forwarded and saved all of it up to the first terminal event. */
  lemma {:induction false} CanFinish(r: Readers, s: State) returns (steps: seq<Step>)
    requires Inv(r, s) && !s.cancelled && !s.phase.Finished?
    ensures Possible(r, s, steps)
    ensures var s' := After(r, s, steps);
            s'.phase.Finished? && !s'.cancelled && s'.arrived == s.arrived
            && s'.forwarded == UpToTerminal(s.arrived) && s'.saves == [Transcript(r, s'.forwarded)]
    decreases Remaining(s)
  {
    OnwardAdvances(r, s);
    var next := Apply(r, s, Onward(s));
    StepKeepsInv(r, s, Onward(s));
    var rest := [];
    if next.phase.Finished? {
      PrefixUpToTerminal(next.forwarded, next.arrived);
    } else {
      rest := CanFinish(r, next);
    }
    steps := [Onward(s)] + rest;
    RunCons(r, s, Onward(s), rest);
  }

  lemma RunCons(r: Readers, s: State, step: Step, rest: seq<Step>)
    requires Enabled(s, step) && Possible(r, Apply(r, s, step), rest)
    ensures Possible(r, s, [step] + rest) && After(r, s, [step] + rest) == After(r, Apply(r, s, step), rest)
  {
    assert ([step] + rest)[1..] == rest;
  }

  lemma OnwardAdvances(r: Readers, s: State)
    requires Inv(r, s) && !s.phase.Finished?
    ensures Enabled(s, Onward(s)) && Remaining(Apply(r, s, Onward(s))) < Remaining(s)
    ensures Apply(r, s, Onward(s)).cancelled == s.cancelled && Apply(r, s, Onward(s)).arrived == s.arrived
  {
  }

  predicate IsOwnStep(step: Step) {
    step.SeeCancel? || step.Take? || step.SeeClosed? || step.Send? || step.CancelSend?
  }

  /** The goroutine is never stuck for another reason than an open, empty inbox or a full channel to the client,
      and never once the request is cancelled. */
  lemma WaitsOnlyFor(s: State)
    requires !s.phase.Finished?
    ensures (forall step :: IsOwnStep(step) ==> !Enabled(s, step))
       <==> !s.cancelled
            && (if s.phase.Selecting? then s.inbox == [] && !s.inboxClosed else |s.outBuffer| >= 64)
  {
    assert IsOwnStep(SeeCancel) && IsOwnStep(Take) && IsOwnStep(SeeClosed) && IsOwnStep(Send) && IsOwnStep(CancelSend);
    if forall step :: IsOwnStep(step) ==> !Enabled(s, step) {
      assert !Enabled(s, SeeCancel) && !Enabled(s, Take) && !Enabled(s, SeeClosed) && !Enabled(s, Send)
             && !Enabled(s, CancelSend);
    }
  }
}
