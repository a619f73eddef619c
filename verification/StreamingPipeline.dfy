/** The whole answer path: the agent's events, printed by the AI service, read by the gateway and relayed to the
    client, with the answer saved at the end. */
module StreamingPipeline {
  import opened Text
  import opened SseCodec
  import Agent = AgentRun
  import Qa = QaStream

  function KindOf(e: Agent.Event): string {
    match e
    case NodeStart(_) => "node_start"
    case NodeEnd(_) => "node_end"
    case Chunk(_, _) => "chunk"
    case Reasoning(_, _) => "reasoning"
    case Citation(_) => "citation"
    case Done(_, _) => "done"
    case Error(_) => "error"
  }

  /** What the pipeline needs of JSON: a rendered payload is one line without surrounding white space, and the gateway
      reads back the delta or the citation that was rendered. */
  ghost predicate JsonWorks(render: Agent.Event -> string, r: Qa.Readers) {
    && (forall e :: OneLine(render(e)) && GoTrimmed(render(e)))
    && (forall d, i :: r.delta(render(Agent.Chunk(d, i))) == d && r.delta(render(Agent.Reasoning(d, i))) == d)
    && (forall c :: r.citation(render(Agent.Citation(c))) == Some(c))
  }

  /** The events as printed. */
  function Wire(events: seq<Agent.Event>, render: Agent.Event -> string): (w: seq<(string, string)>)
    ensures |w| == |events|
    ensures forall i :: 0 <= i < |w| ==> w[i] == (KindOf(events[i]), render(events[i]))
  {
    seq(|events|, i requires 0 <= i < |events| => (KindOf(events[i]), render(events[i])))
  }

  lemma KindIsFaithful(e: Agent.Event, render: Agent.Event -> string, r: Qa.Readers)
    requires JsonWorks(render, r)
    ensures OneLine(KindOf(e)) && OneLine(render(e)) && Faithful((KindOf(e), render(e)))
  {
    KindIsClean(e);
    FaithfulIff((KindOf(e), render(e)));
  }

  lemma KindIsClean(e: Agent.Event)
    ensures OneLine(KindOf(e)) && KindOf(e) != "" && GoTrimmed(KindOf(e))
  {
  }

  /** The SSE event an agent event becomes. */
  function Carried(e: Agent.Event, render: Agent.Event -> string): SseEvent {
    SseEvent(KindOf(e), render(e), Print(KindOf(e), render(e)))
  }

  /** Agent events and the SSE events they became. */
  ghost predicate Carries(arrived: seq<SseEvent>, events: seq<Agent.Event>, render: Agent.Event -> string) {
    |arrived| == |events| && forall i :: 0 <= i < |events| ==> arrived[i] == Carried(events[i], render)
  }

  /** The gateway reads exactly the events the agent emitted. */
  lemma ReadBack(events: seq<Agent.Event>, render: Agent.Event -> string, r: Qa.Readers)
    requires JsonWorks(render, r)
    ensures Carries(Parse(PrintAll(Wire(events, render)), NOTHING), events, render)
  {
    var w := Wire(events, render);
    forall i | 0 <= i < |w| ensures OneLine(w[i].0) && OneLine(w[i].1) && Faithful(w[i]) {
      KindIsFaithful(events[i], render, r);
    }
    ParsePrintAll(w);
    var arrived := Parse(PrintAll(w), NOTHING);
    forall i | 0 <= i < |events| ensures arrived[i] == Carried(events[i], render) {
      assert Faithful(w[i]);
    }
  }

  /** Dropping events before or after they are carried makes no difference. */
  lemma {:induction false} DeliverCarries(arrived: seq<SseEvent>, events: seq<Agent.Event>,
                                          render: Agent.Event -> string, room: nat -> bool)
    requires Carries(arrived, events, render)
    ensures Carries(Deliver(arrived, room), Deliver(events, room), render)
  {
    if events != [] {
      var n := |events| - 1;
      DeliverCarries(arrived[..n], events[..n], render, room);
      if room(n) {
        CarriesSnoc(Deliver(arrived[..n], room), Deliver(events[..n], room), render, arrived[n], events[n]);
      }
    }
  }

  lemma CarriesSnoc(arrived: seq<SseEvent>, events: seq<Agent.Event>, render: Agent.Event -> string, ev: SseEvent,
                    e: Agent.Event)
    requires Carries(arrived, events, render) && ev == Carried(e, render)
    ensures Carries(arrived + [ev], events + [e], render)
  {
  }

  /** The gateway's transcript of the carried events is what the agent told by them. */
  lemma {:induction false} TranscriptIsTold(arrived: seq<SseEvent>, events: seq<Agent.Event>,
                                            render: Agent.Event -> string, r: Qa.Readers)
    requires JsonWorks(render, r) && Carries(arrived, events, render)
    ensures Qa.Transcript(r, arrived) == SavedAs(Agent.Told(events))
  {
    if events != [] {
      var n := |events| - 1;
      TranscriptIsTold(arrived[..n], events[..n], render, r);
      TranscriptStep(arrived[..n], events[..n], events[n], render, r);
      assert arrived == arrived[..n] + [Carried(events[n], render)] && events == events[..n] + [events[n]];
    }
  }

  lemma TranscriptStep(arrived: seq<SseEvent>, events: seq<Agent.Event>, e: Agent.Event, render: Agent.Event -> string,
                       r: Qa.Readers)
    requires JsonWorks(render, r) && Qa.Transcript(r, arrived) == SavedAs(Agent.Told(events))
    ensures Qa.Transcript(r, arrived + [Carried(e, render)]) == SavedAs(Agent.Told(events + [e]))
  {
    Qa.TranscriptSnoc(r, arrived, Carried(e, render));
    Agent.ToldSnoc(events, e);
    OneMore(Agent.Told(events), e, render, r);
  }

  function SavedAs(told: Agent.Transcript): Qa.Saved {
    Qa.Saved(told.answer, told.thoughts, told.citations)
  }

  /** What one carried event adds to the gateway's transcript is what the agent event tells. */
  lemma OneMore(told: Agent.Transcript, e: Agent.Event, render: Agent.Event -> string, r: Qa.Readers)
    requires JsonWorks(render, r)
    ensures var ev := Carried(e, render);
            var now := Agent.Tell(told, e);
            && now.answer == told.answer + (if ev.kind == "chunk" then r.delta(ev.data) else "")
            && now.thoughts == told.thoughts + (if ev.kind == "reasoning" then r.delta(ev.data) else "")
            && now.citations == told.citations
                 + (if ev.kind == "citation" && r.citation(ev.data).Some? then [r.citation(ev.data).value] else [])
  {
    KindsDiffer(e);
    match e
    case Chunk(delta, index) => assert r.delta(render(Agent.Chunk(delta, index))) == delta;
    case Reasoning(delta, index) => assert r.delta(render(Agent.Reasoning(delta, index))) == delta;
    case Citation(payload) => assert r.citation(render(Agent.Citation(payload))) == Some(payload);
    case _ =>
  }

  lemma KindsDiffer(e: Agent.Event)
    ensures KindOf(e) == "chunk" <==> e.Chunk?
    ensures KindOf(e) == "reasoning" <==> e.Reasoning?
    ensures KindOf(e) == "citation" <==> e.Citation?
    ensures KindOf(e) == "done" || KindOf(e) == "error" <==> Agent.IsTerminal(e)
  {
  }

  lemma {:induction false} NothingAfterTerminal(arrived: seq<SseEvent>)
    requires Qa.QuietBeforeLast(arrived)
    ensures Qa.UpToTerminal(arrived) == arrived
  {
    if arrived != [] {
      if |arrived| > 1 {
        assert !Qa.IsTerminal(arrived[0]);
        var rest := arrived[1..];
        assert forall i :: 0 <= i < |rest| - 1 ==> rest[i] == arrived[i + 1];
        NothingAfterTerminal(rest);
      } else {
        assert arrived == [arrived[0]];
        assert Qa.UpToTerminal(arrived[1..]) == [];
      }
    }
  }

  lemma TerminalKinds(arrived: seq<SseEvent>, events: seq<Agent.Event>, render: Agent.Event -> string)
    requires Carries(arrived, events, render) && Agent.Over(events)
    ensures Qa.QuietBeforeLast(arrived)
  {
    forall i | 0 <= i < |arrived| - 1 ensures !Qa.IsTerminal(arrived[i]) {
      Agent.TerminalIsLast(events, i);
      KindsDiffer(events[i]);
    }
  }

  /** Dropping events keeps a terminal event from standing anywhere but last. */
  lemma {:induction false} DeliverIsQuiet(arrived: seq<SseEvent>, room: nat -> bool)
    requires Qa.QuietBeforeLast(arrived)
    ensures Qa.QuietBeforeLast(Deliver(arrived, room))
  {
    if arrived != [] {
      var n := |arrived| - 1;
      var init := arrived[..n];
      QuietAll(init, room);
      assert forall i :: 0 <= i < n ==> !Qa.IsTerminal(arrived[i]);
      assert forall i :: 0 <= i < |Deliver(init, room)| ==> !Qa.IsTerminal(Deliver(init, room)[i]);
    }
  }

  lemma {:induction false} QuietAll(arrived: seq<SseEvent>, room: nat -> bool)
    requires forall i :: 0 <= i < |arrived| ==> !Qa.IsTerminal(arrived[i])
    ensures forall i :: 0 <= i < |Deliver(arrived, room)| ==> !Qa.IsTerminal(Deliver(arrived, room)[i])
  {
    if arrived != [] {
      QuietAll(arrived[..|arrived| - 1], room);
    }
  }

  /** For every agent run, and every gateway run in which the events that found room in the gateway's buffer arrived,
      nothing was cancelled and the relay finished: exactly these events were forwarded, with raw texts identical to
      what the AI service printed, and the one save holds the answer, the reasoning and the citations they tell. */
  lemma StreamArrives(events: seq<Agent.Event>, render: Agent.Event -> string, r: Qa.Readers, steps: seq<Qa.Step>,
                      room: nat -> bool)
    requires Agent.Over(events) && JsonWorks(render, r) && Qa.Possible(r, Qa.INITIAL, steps)
    requires var s := Qa.After(r, Qa.INITIAL, steps);
             && s.phase.Finished? && !s.cancelled
             && s.arrived == Deliver(Parse(PrintAll(Wire(events, render)), NOTHING), room)
    ensures var s := Qa.After(r, Qa.INITIAL, steps);
            && Carries(s.forwarded, Deliver(events, room), render)
            && s.saves == [SavedAs(Agent.Told(Deliver(events, room)))]
  {
    var s := Qa.After(r, Qa.INITIAL, steps);
    var parsed := Parse(PrintAll(Wire(events, render)), NOTHING);
    ReadBack(events, render, r);
    TerminalKinds(parsed, events, render);
    DeliverIsQuiet(parsed, room);
    DeliverCarries(parsed, events, render, room);
    NothingAfterTerminal(s.arrived);
    Qa.UncancelledIsComplete(r, steps);
    TranscriptIsTold(s.arrived, Deliver(events, room), render, r);
  }

  /** While the buffer never fills, the client and the save get everything the agent told. */
  lemma AnswerArrives(events: seq<Agent.Event>, render: Agent.Event -> string, r: Qa.Readers, steps: seq<Qa.Step>)
    requires Agent.Over(events) && JsonWorks(render, r) && Qa.Possible(r, Qa.INITIAL, steps)
    requires var s := Qa.After(r, Qa.INITIAL, steps);
             && s.phase.Finished? && !s.cancelled
             && s.arrived == Parse(PrintAll(Wire(events, render)), NOTHING)
    ensures var s := Qa.After(r, Qa.INITIAL, steps);
            && Carries(s.forwarded, events, render)
            && s.saves == [SavedAs(Agent.Told(events))]
  {
    var always := (k: nat) => true;
    DeliverAll(Parse(PrintAll(Wire(events, render)), NOTHING), always);
    DeliverAll(events, always);
    StreamArrives(events, render, r, steps, always);
  }
}
