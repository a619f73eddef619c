/** One run of the agent workflow as the stream of events it emits
    (ai-service/app/agent/runner.py, router.py and nodes/agent_nodes.py).
    Everything the run asks of the outside world is an arbitrary answer in `World`. */
module AgentRun {
  import opened Text

  datatype Exception = Forbidden | Recursion | Api(code: string) | Other

  datatype Outcome<+T> = Value(v: T) | Raised(e: Exception)

  datatype Event =
    | NodeStart(node: string)
    | NodeEnd(node: string)
    | Chunk(delta: string, index: nat)
    | Reasoning(delta: string, index: nat)
    | Citation(payload: string)
    | Done(iterations: int, citationCount: nat)
    | Error(code: string)

  /** One chunk of the language model's stream. */
  datatype LlmChunk = LlmChunk(delta: string, reasoningDelta: string, finishReason: string)

  datatype Config = Config(recursionLimit: int, maxIterations: int, fallback: string)

  /** The part of the shared state the run depends on. */
  datatype AgentState = AgentState(
    intent: string,
    hasResources: bool,
    chunks: seq<string>,
    citations: seq<string>,
    draft: string,
    iterations: int,
    validationPassed: bool)

  /** The answers of memory, intent classification, the k-th retrieval, the model, the validator's traceability
      check, citation building and the final saves. */
  datatype World = World(
    memory: Outcome<()>,
    intent: Outcome<string>,
    retrieve: nat -> Outcome<seq<string>>,
    llm: seq<LlmChunk>,
    llmEnd: Outcome<()>,
    passes: AgentState -> bool,
    buildCitations: AgentState -> Outcome<seq<string>>,
    save: Outcome<()>)

  // ----- watching the event stream -----

  /** What an observer of the stream has seen: the node left open, the nodes entered so far, counters, and whether the
      protocol was kept. */
  datatype Seen = Seen(open: Option<string>, nodes: seq<string>, chunks: nat, reasonings: nat, validations: nat,
                       terminals: nat, ok: bool)

  predicate IsTerminal(e: Event) {
    e.Done? || e.Error?
  }

  /** One more event: nothing may follow a terminal event, nodes open and close in pairs without overlapping,
      chunk and reasoning indices count up from zero, and a run that is done has left no node open. */
  function Watch(s: Seen, e: Event): Seen {
    var ok := s.ok && s.terminals == 0;
    match e
    case NodeStart(n) =>
      s.(ok := ok && s.open.None?, open := Some(n), nodes := s.nodes + [n],
         validations := s.validations + if n == "validate" then 1 else 0)
    case NodeEnd(n) => s.(ok := ok && s.open == Some(n), open := None)
    case Chunk(_, i) => s.(ok := ok && i == s.chunks, chunks := s.chunks + 1)
    case Reasoning(_, i) => s.(ok := ok && i == s.reasonings, reasonings := s.reasonings + 1)
    case Citation(_) => s.(ok := ok && s.open.None?)
    case Done(_, _) => s.(ok := ok && s.open.None?, terminals := s.terminals + 1)
    case Error(_) => s.(ok := ok, terminals := s.terminals + 1)
  }

  function WatchAll(events: seq<Event>): Seen {
    if events == [] then Seen(None, [], 0, 0, 0, 0, true)
    else Watch(WatchAll(events[..|events| - 1]), events[|events| - 1])
  }

  lemma WatchSnoc(events: seq<Event>, e: Event)
    ensures WatchAll(events + [e]) == Watch(WatchAll(events), e)
  {
    assert (events + [e])[..|events|] == events;
  }

  /** What a stream tells its reader: the answer, the reasoning and the citations. */
  datatype Transcript = Transcript(answer: string, thoughts: string, citations: seq<string>)

  const SILENCE := Transcript("", "", [])

  function Tell(t: Transcript, e: Event): Transcript {
    match e
    case Chunk(delta, _) => t.(answer := t.answer + delta)
    case Reasoning(delta, _) => t.(thoughts := t.thoughts + delta)
    case Citation(payload) => t.(citations := t.citations + [payload])
    case _ => t
  }

  function Told(events: seq<Event>): Transcript {
    if events == [] then SILENCE else Tell(Told(events[..|events| - 1]), events[|events| - 1])
  }

  lemma ToldSnoc(events: seq<Event>, e: Event)
    ensures Told(events + [e]) == Tell(Told(events), e)
  {
    assert (events + [e])[..|events|] == events;
  }

  /** The nodes entered, in order. */
  function Visited(events: seq<Event>): seq<string> {
    WatchAll(events).nodes
  }

  /** So far the protocol is kept, no terminal event was sent, and `open` is the open node. */
  ghost predicate Live(events: seq<Event>, open: Option<string>, validations: nat) {
    var s := WatchAll(events);
    s.ok && s.terminals == 0 && s.open == open && s.validations == validations
  }

  // ----- the run -----

  function RouteByIntent(s: AgentState): string {
    if s.intent in ["summarize", "qa", "compare", "generate"] then s.intent else "qa"
  }

  predicate RouteAfterValidate(s: AgentState, c: Config) {
    s.validationPassed || s.iterations >= c.maxIterations
  }

  /** `validate_node`: an untraceable answer passes anyway once the budget is spent. */
  function Validate(w: World, c: Config, s: AgentState): AgentState {
    var iterations := s.iterations + 1;
    var passed := w.passes(s);
    s.(iterations := iterations, validationPassed := passed || iterations >= c.maxIterations)
  }

  /** Nothing was told between the two streams. */
  ghost predicate SameText(before: seq<Event>, after: seq<Event>) {
    && Told(after) == Told(before)
    && WatchAll(after).chunks == WatchAll(before).chunks && WatchAll(after).reasonings == WatchAll(before).reasonings
  }

  method Start(events: seq<Event>, node: string, ghost validations: nat) returns (out: seq<Event>)
    requires Live(events, None, validations)
    ensures out == events + [NodeStart(node)]
    ensures Live(out, Some(node), validations + if node == "validate" then 1 else 0)
    ensures SameText(events, out) && Visited(out) == Visited(events) + [node]
  {
    WatchSnoc(events, NodeStart(node));
    ToldSnoc(events, NodeStart(node));
    out := events + [NodeStart(node)];
  }

  method End(events: seq<Event>, node: string, ghost validations: nat) returns (out: seq<Event>)
    requires Live(events, Some(node), validations)
    ensures out == events + [NodeEnd(node)] && Live(out, None, validations)
    ensures SameText(events, out) && Visited(out) == Visited(events)
  {
    WatchSnoc(events, NodeEnd(node));
    ToldSnoc(events, NodeEnd(node));
    out := events + [NodeEnd(node)];
  }

  /** What a phase leaves behind: a clean stream, or an exception with at most one node open. */
  ghost predicate Phase(events: seq<Event>, raised: Option<Exception>, validations: nat) {
    Live(events, None, validations) || (raised.Some? && Live(events, WatchAll(events).open, validations))
  }

  /** The state after the k-th retrieval of the run. */
  function Retrieved(w: World, s: AgentState, k: nat): Outcome<AgentState> {
    if !s.hasResources then Value(s.(chunks := [], citations := []))
    else
      match w.retrieve(k)
      case Raised(e) => Raised(e)
      case Value(chunks) => Value(s.(chunks := chunks, citations := []))
  }

  /** What a phase hands on: its value, or the exception that stopped it. */
  function Handed<T>(v: T, raised: Option<Exception>): Outcome<T> {
    if raised.Some? then Raised(raised.value) else Value(v)
  }

  /** A retrieval between its two node events; `k` counts the retrievals of the run. */
  method Retrieve(w: World, events: seq<Event>, s: AgentState, k: nat, ghost validations: nat)
    returns (out: seq<Event>, s': AgentState, raised: Option<Exception>)
    requires Live(events, None, validations)
    ensures Phase(out, raised, validations) && SameText(events, out)
    ensures Visited(out) == Visited(events) + ["retrieve"]
    ensures Retrieved(w, s, k) == Handed(s', raised)
  {
    out := Start(events, "retrieve", validations);
    s' := s;
    var found: seq<string> := [];
    if s.hasResources {
      match w.retrieve(k) {
        case Raised(e) => return out, s, Some(e);
        case Value(chunks) => found := chunks;
      }
    }
    s' := s.(chunks := found, citations := []);
    out := End(out, "retrieve", validations);
    raised := None;
  }

  /** The stream is finished: the protocol was kept and exactly one terminal event was sent. */
  ghost predicate Over(events: seq<Event>) {
    events != [] && WatchAll(events).ok && WatchAll(events).terminals == 1
  }

  lemma Finish(events: seq<Event>, e: Event, open: Option<string>, validations: nat)
    requires Live(events, open, validations) && IsTerminal(e) && (e.Done? ==> open.None?)
    ensures Over(events + [e]) && Told(events + [e]) == Told(events)
    ensures WatchAll(events + [e]).validations == validations && Visited(events + [e]) == Visited(events)
  {
    WatchSnoc(events, e);
    ToldSnoc(events, e);
  }

  // ----- the model's stream -----

  predicate Finishes(chunk: LlmChunk) {
    chunk.finishReason == "stop" || chunk.finishReason == "error"
  }

  /** The answer and the reasoning the model produced: its deltas up to the first chunk that gives a finish reason. */
  function Produced(llm: seq<LlmChunk>): Transcript {
    if llm == [] then SILENCE
    else
      var later := if Finishes(llm[0]) then SILENCE else Produced(llm[1..]);
      Transcript(llm[0].delta + later.answer, llm[0].reasoningDelta + later.thoughts, [])
  }

  /** Some chunk gives a finish reason. */
  predicate Stops(llm: seq<LlmChunk>) {
    exists i :: 0 <= i < |llm| && Finishes(llm[i])
  }

  /** The first finish reason is an error, and the chunk that gives it carries text. */
  predicate BreaksOff(llm: seq<LlmChunk>) {
    llm != []
    && if Finishes(llm[0]) then llm[0].finishReason == "error" && (llm[0].delta != "" || llm[0].reasoningDelta != "")
       else BreaksOff(llm[1..])
  }

  /** Text followed by what is still to come. */
  function Joined(told: Transcript, later: Transcript): Transcript {
    Transcript(told.answer + later.answer, told.thoughts + later.thoughts, told.citations + later.citations)
  }

  /** The relay loop before chunk `i`: `told` and what is still to be relayed make up what the model produced. */
  ghost predicate Relaying(llm: seq<LlmChunk>, i: nat, stopped: bool, told: Transcript) {
    && i <= |llm| && (stopped ==> Stops(llm) && !BreaksOff(llm))
    && Produced(llm) == Joined(told, if stopped then SILENCE else Produced(llm[i..]))
    && (!stopped ==> (BreaksOff(llm) <==> BreaksOff(llm[i..])) && (forall j :: 0 <= j < i ==> !Finishes(llm[j])))
  }

  lemma RelayStep(llm: seq<LlmChunk>, i: nat, told: Transcript)
    requires i < |llm| && Relaying(llm, i, false, told)
    ensures var now := Joined(told, Transcript(llm[i].delta, llm[i].reasoningDelta, []));
            var broken := llm[i].finishReason == "error" && (llm[i].delta != "" || llm[i].reasoningDelta != "");
            if broken then BreaksOff(llm) && Produced(llm) == now
            else Relaying(llm, i + 1, Finishes(llm[i]), now)
  {
    assert llm[i..][1..] == llm[i + 1..];
    var later := if Finishes(llm[i]) then SILENCE else Produced(llm[i + 1..]);
    AppendAssoc(told.answer, llm[i].delta, later.answer);
    AppendAssoc(told.thoughts, llm[i].reasoningDelta, later.thoughts);
    AppendAssoc(told.citations, [], later.citations);
  }

  lemma RelayEnds(llm: seq<LlmChunk>, told: Transcript)
    requires Relaying(llm, |llm|, false, told)
    ensures !Stops(llm) && !BreaksOff(llm) && Produced(llm) == told
  {
    assert llm[|llm|..] == [];
  }

  /** The generating node relays the model's stream: `failed` means an error event ended the run, which happens exactly
      when the stream breaks off with text; an exception escapes exactly when the stream raises before any finish. */
  method Generate(w: World, c: Config, events: seq<Event>, branch: string)
    returns (out: seq<Event>, draft: string, raised: Option<Exception>, failed: bool)
    requires Live(events, None, 0) && branch != "validate" && Told(events) == SILENCE
    requires WatchAll(events).chunks == 0 && WatchAll(events).reasonings == 0
    ensures Told(out) == Produced(w.llm) && Visited(out) == Visited(events) + [branch]
    ensures failed <==> BreaksOff(w.llm)
    ensures raised == if Stops(w.llm) || w.llmEnd.Value? then None else Some(w.llmEnd.e)
    ensures failed ==> raised.None?
    ensures if failed then Over(out) && WatchAll(out).validations == 0 && out[|out| - 1] == Error("AGENT_LLM_ERROR")
            else Phase(out, raised, 0)
    ensures !failed && raised.None? ==> draft == Drafted(w, c)
  {
    out := Start(events, branch, 0);
    draft, raised, failed := "", None, false;
    ghost var told := SILENCE;
    var chunkIndex, reasoningIndex := 0, 0;
    var i, stopped := 0, false;
    assert w.llm[0..] == w.llm;
    while i < |w.llm| && !stopped
      invariant Relaying(w.llm, i, stopped, told) && told.answer == draft
      invariant Relayed(out, branch, chunkIndex, reasoningIndex, told) && Visited(out) == Visited(events) + [branch]
    {
      var chunk := w.llm[i];
      RelayStep(w.llm, i, told);
      out, chunkIndex, reasoningIndex := Relay(out, branch, chunk, chunkIndex, reasoningIndex, told);
      draft := draft + chunk.delta;
      told := Joined(told, Transcript(chunk.delta, chunk.reasoningDelta, []));
      if (chunk.delta != "" || chunk.reasoningDelta != "") && chunk.finishReason == "error" {
        BreaksOffStops(w.llm);
        Finish(out, Error("AGENT_LLM_ERROR"), Some(branch), 0);
        return out + [Error("AGENT_LLM_ERROR")], draft, None, true;
      }
      i, stopped := i + 1, Finishes(chunk);
    }
    if !stopped {
      RelayEnds(w.llm, told);
      if w.llmEnd.Raised? {
        raised := Some(w.llmEnd.e);
        return;
      }
    }
    draft := if draft == "" then c.fallback else draft;
    out := End(out, branch, 0);
  }

  lemma {:induction false} BreaksOffStops(llm: seq<LlmChunk>)
    requires BreaksOff(llm)
    ensures Stops(llm)
  {
    if !Finishes(llm[0]) {
      BreaksOffStops(llm[1..]);
      var i :| 0 <= i < |llm[1..]| && Finishes(llm[1..][i]);
      assert Finishes(llm[i + 1]);
    }
  }

  /** The draft answer: what the model produced, or the fallback message. */
  function Drafted(w: World, c: Config): string {
    if Produced(w.llm).answer == "" then c.fallback else Produced(w.llm).answer
  }

  /** Inside the generating node: `told` is what was relayed so far, and the counters are the next indices. */
  ghost predicate Relayed(events: seq<Event>, branch: string, chunkIndex: nat, reasoningIndex: nat, told: Transcript) {
    && Live(events, Some(branch), 0) && Told(events) == told
    && WatchAll(events).chunks == chunkIndex && WatchAll(events).reasonings == reasoningIndex
  }

  /** One chunk of the model's stream: its deltas become events with the next indices. */
  method Relay(events: seq<Event>, branch: string, chunk: LlmChunk, chunkIndex: nat, reasoningIndex: nat,
               ghost told: Transcript)
    returns (out: seq<Event>, chunkIndex': nat, reasoningIndex': nat)
    requires Relayed(events, branch, chunkIndex, reasoningIndex, told)
    ensures Relayed(out, branch, chunkIndex', reasoningIndex',
                    Joined(told, Transcript(chunk.delta, chunk.reasoningDelta, [])))
    ensures Visited(out) == Visited(events)
  {
    out, chunkIndex', reasoningIndex' := events, chunkIndex, reasoningIndex;
    if chunk.delta != "" {
      WatchSnoc(out, Chunk(chunk.delta, chunkIndex));
      ToldSnoc(out, Chunk(chunk.delta, chunkIndex));
      out := out + [Chunk(chunk.delta, chunkIndex)];
      chunkIndex' := chunkIndex + 1;
    }
    if chunk.reasoningDelta != "" {
      WatchSnoc(out, Reasoning(chunk.reasoningDelta, reasoningIndex));
      ToldSnoc(out, Reasoning(chunk.reasoningDelta, reasoningIndex));
      out := out + [Reasoning(chunk.reasoningDelta, reasoningIndex)];
      reasoningIndex' := reasoningIndex + 1;
    }
  }

  // ----- validating -----

  /** No more validations than the loop bound, nor than what is left of the iteration budget, but at least one. */
  ghost predicate InBudget(validations: nat, c: Config, iterations0: int) {
    && (validations == 0 || validations <= c.recursionLimit)
    && (validations <= 1 || validations <= c.maxIterations - iterations0)
  }

  /** The state that passes validation, when at most `left` validations are allowed: an answer that fails is retrieved
      for again, and running out of validations is a recursion error. */
  function Validated(w: World, c: Config, s: AgentState, k: nat, left: int): Outcome<AgentState>
    decreases left
  {
    if left <= 0 then Raised(Recursion)
    else
      var checked := Validate(w, c, s);
      if RouteAfterValidate(checked, c) then Value(checked)
      else
        match Retrieved(w, checked, k)
        case Raised(e) => Raised(e)
        case Value(again) => Validated(w, c, again, k + 1, left - 1)
  }

  lemma ValidatedUnfolds(w: World, c: Config, s: AgentState, k: nat, left: int)
    requires left > 0
    ensures var checked := Validate(w, c, s);
            Validated(w, c, s, k, left)
              == if RouteAfterValidate(checked, c) then Value(checked)
                 else if Retrieved(w, checked, k).Raised? then Raised(Retrieved(w, checked, k).e)
                 else Validated(w, c, Retrieved(w, checked, k).v, k + 1, left - 1)
  {
  }

  /** Every answer without citations passes, as with the shipped validator. */
  ghost predicate UncitedPasses(w: World) {
    forall t: AgentState :: t.citations == [] ==> w.passes(t)
  }

  /** The loop after some validations, none of which passed: what it still computes is what it had to compute. */
  ghost predicate Retrying(w: World, c: Config, s: AgentState, k: nat, s': AgentState, validations: nat) {
    && Validated(w, c, s, k, c.recursionLimit)
         == Validated(w, c, s', k + validations, c.recursionLimit - validations)
    && (validations == 0 || validations <= c.recursionLimit)
    && (if validations == 0 then s' == s else s'.iterations < c.maxIterations)
    && s'.iterations == s.iterations + validations
    && (UncitedPasses(w) && s.citations == [] ==> validations == 0)
  }

  /** What the loop has computed once it ends. */
  ghost predicate Ends(w: World, c: Config, s: AgentState, k: nat, s': AgentState, raised: Option<Exception>,
                       validations: nat) {
    && Validated(w, c, s, k, c.recursionLimit) == Handed(s', raised)
    && InBudget(validations, c, s.iterations)
    && (raised.None? ==> validations >= 1 && s'.iterations == s.iterations + validations)
    && (UncitedPasses(w) && s.citations == [] ==> validations <= 1)
  }

  /** What one validation, and the retrieval after a failed one, left behind. */
  ghost predicate Checked(w: World, c: Config, s: AgentState, k: nat, s': AgentState, passed: bool,
                          raised: Option<Exception>) {
    var checked := Validate(w, c, s);
    if RouteAfterValidate(checked, c) then passed && raised.None? && s' == checked
    else !passed && Retrieved(w, checked, k) == Handed(s', raised)
  }

  lemma RetryingStep(w: World, c: Config, s: AgentState, k: nat, before: AgentState, validations: nat, s': AgentState,
                     passed: bool, raised: Option<Exception>)
    requires Retrying(w, c, s, k, before, validations) && validations < c.recursionLimit
    requires Checked(w, c, before, k + validations, s', passed, raised)
    ensures if passed || raised.Some? then Ends(w, c, s, k, s', raised, validations + 1)
            else Retrying(w, c, s, k, s', validations + 1)
  {
    ValidatedUnfolds(w, c, before, k + validations, c.recursionLimit - validations);
  }

  /** One validation and, if the answer does not pass, one more retrieval. */
  method Round(w: World, c: Config, events: seq<Event>, s: AgentState, k: nat, ghost validations: nat)
    returns (out: seq<Event>, s': AgentState, passed: bool, raised: Option<Exception>)
    requires Live(events, None, validations)
    ensures Phase(out, raised, validations + 1) && Told(out) == Told(events)
    ensures Checked(w, c, s, k, s', passed, raised) && (raised.Some? ==> !passed)
    ensures Visited(out) == Visited(events) + if passed then ["validate"] else ["validate", "retrieve"]
  {
    out := Start(events, "validate", validations);
    s' := Validate(w, c, s);
    out := End(out, "validate", validations + 1);
    passed, raised := RouteAfterValidate(s', c), None;
    if !passed {
      out, s', raised := Retrieve(w, out, s', k, validations + 1);
    }
  }

  /** After `before` come that many validations, each followed by a retrieval unless the last one passed. */
  ghost predicate Rounds(nodes: seq<string>, before: seq<string>, validations: nat, passed: bool) {
    var n := |before|;
    && |nodes| == n + 2 * validations - (if passed then 1 else 0)
    && (forall i :: 0 <= i < n ==> i < |nodes| && nodes[i] == before[i])
    && (forall i :: n <= i < |nodes| ==> nodes[i] == if (i - n) % 2 == 0 then "validate" else "retrieve")
  }

  lemma RoundsGrow(nodes: seq<string>, before: seq<string>, validations: nat, passed: bool)
    requires Rounds(nodes, before, validations, false)
    ensures Rounds(nodes + if passed then ["validate"] else ["validate", "retrieve"], before, validations + 1, passed)
  {
  }

  /** The validate and retry loop. Falling through it raises a recursion error. */
  method ValidateLoop(w: World, c: Config, events: seq<Event>, s: AgentState, k: nat)
    returns (out: seq<Event>, s': AgentState, raised: Option<Exception>, validations: nat)
    requires Live(events, None, 0)
    ensures Phase(out, raised, validations) && Told(out) == Told(events)
    ensures Ends(w, c, s, k, s', raised, validations)
    ensures Rounds(Visited(out), Visited(events), validations, raised.None?)
  {
    out, s', validations, raised := events, s, 0, None;
    while validations < c.recursionLimit
      invariant Live(out, None, validations) && Told(out) == Told(events)
      invariant Retrying(w, c, s, k, s', validations)
      invariant Rounds(Visited(out), Visited(events), validations, false)
      decreases c.recursionLimit - validations
    {
      ghost var before, nodes := s', Visited(out);
      var passed;
      out, s', passed, raised := Round(w, c, out, s', k + validations, validations);
      RoundsGrow(nodes, Visited(events), validations, passed);
      RetryingStep(w, c, s, k, before, validations, s', passed, raised);
      validations := validations + 1;
      if passed || raised.Some? {
        return;
      }
    }
    raised := Some(Recursion);
  }

  // ----- the whole run -----

  /** The branch and the state before generating, and the number of retrievals so far. */
  datatype Plan = Plan(branch: string, state: AgentState, retrievals: nat)

  function Initial(intent: string, hasResources: bool, iterations: int): AgentState {
    AgentState(intent, hasResources, [], [], "", iterations, true)
  }

  /** Loading the memory, classifying the intent and the first retrieval. */
  function Planned(w: World, hasResources: bool, iterations0: int): Outcome<Plan> {
    if w.memory.Raised? then Raised(w.memory.e)
    else if w.intent.Raised? then Raised(w.intent.e)
    else
      var s := Initial(w.intent.v, hasResources, iterations0);
      var branch := RouteByIntent(s);
      if branch == "qa" || branch == "compare" || (branch == "summarize" && hasResources) then
        match Retrieved(w, s, 0)
        case Raised(e) => Raised(e)
        case Value(s') => Value(Plan(branch, s', 1))
      else Value(Plan(branch, s, 0))
  }

  /** How a run ends: its last event and everything it told. */
  datatype Ending = Ending(last: Event, told: Transcript)

  function Failing(e: Exception, told: Transcript): Ending {
    Ending(Error(ErrorCode(e)), told)
  }

  /** The ending of a run that has got as far as the plan. */
  function EndingFrom(w: World, c: Config, plan: Plan): Ending {
    var told := Produced(w.llm);
    if BreaksOff(w.llm) then Ending(Error("AGENT_LLM_ERROR"), told)
    else if !Stops(w.llm) && w.llmEnd.Raised? then Failing(w.llmEnd.e, told)
    else
      match Validated(w, c, plan.state.(draft := Drafted(w, c)), plan.retrievals, c.recursionLimit)
      case Raised(e) => Failing(e, told)
      case Value(s) =>
        match w.buildCitations(s)
        case Raised(e) => Failing(e, told)
        case Value(citations) =>
          var cited := told.(citations := citations);
          if w.save.Raised? then Failing(w.save.e, cited) else Ending(Done(s.iterations, |citations|), cited)
  }

  /** The ending of a run whose answers are those of `w`. */
  function EndingOf(w: World, c: Config, hasResources: bool, iterations0: int): Ending {
    match Planned(w, hasResources, iterations0)
    case Raised(e) => Failing(e, SILENCE)
    case Value(plan) => EndingFrom(w, c, plan)
  }

  /** A stream with this ending: finished, or stopped by the exception that makes its last event. */
  ghost predicate EndsAs(events: seq<Event>, raised: Option<Exception>, ending: Ending) {
    && Told(events) == ending.told
    && match raised
       case None => Over(events) && events[|events| - 1] == ending.last
       case Some(e) =>
         Live(events, WatchAll(events).open, WatchAll(events).validations) && ending.last == Error(ErrorCode(e))
  }

  /** What every run keeps about validations. */
  ghost predicate ValidationsOk(w: World, c: Config, events: seq<Event>, iterations0: int) {
    && InBudget(WatchAll(events).validations, c, iterations0)
    && (UncitedPasses(w) ==> WatchAll(events).validations <= 1)
    && (events != [] && events[|events| - 1].Done? ==>
          WatchAll(events).validations >= 1 && events[|events| - 1].iterations
              == iterations0 + WatchAll(events).validations)
  }

  lemma LiveIsNotDone(events: seq<Event>, open: Option<string>, validations: nat)
    requires Live(events, open, validations)
    ensures events != [] ==> !events[|events| - 1].Done?
  {
  }

  /** The run asks for a retrieval before it generates: always, except to generate freely or to summarize nothing. */
  ghost predicate LooksUp(intent: string, hasResources: bool) {
    intent !in ["generate", "summarize"] || (intent == "summarize" && hasResources)
  }

  /** The nodes of a run: none before the memory is loaded, then the intent, the retrieval it calls for, the generating
      node, and rounds of validation. */
  ghost predicate Itinerary(nodes: seq<string>, w: World, hasResources: bool) {
    if w.memory.Raised? then nodes == []
    else if w.intent.Raised? then nodes == ["intent"]
    else
      var opening := if LooksUp(w.intent.v, hasResources) then ["intent", "retrieve"] else ["intent"];
      if LooksUp(w.intent.v, hasResources) && hasResources && w.retrieve(0).Raised? then nodes == opening
      else GoesThrough(nodes, opening, if w.intent.v in ["summarize", "compare", "generate"] then w.intent.v else "qa")
  }

  /** The events of a run up to an exception, if one escapes. */
  method RunNodes(w: World, c: Config, hasResources: bool, iterations0: int)
    returns (out: seq<Event>, raised: Option<Exception>)
    ensures EndsAs(out, raised, EndingOf(w, c, hasResources, iterations0))
    ensures ValidationsOk(w, c, out, iterations0)
    ensures Itinerary(Visited(out), w, hasResources)
  {
    var plan;
    out, plan, raised := Prepare(w, hasResources, iterations0);
    if raised.Some? {
      LiveIsNotDone(out, WatchAll(out).open, 0);
      return;
    }
    out, raised := GenerateAndCheck(w, c, out, plan);
  }

  /** Nothing failed before the run generates: it entered the intent node and the retrieval the intent calls for, found
      what that retrieval answers, and goes on in the node of the intent. */
  ghost predicate Prepared(nodes: seq<string>, plan: Plan, w: World, hasResources: bool) {
    && w.memory.Value? && w.intent.Value?
    && var intent := w.intent.v;
       && nodes == (if LooksUp(intent, hasResources) then ["intent", "retrieve"] else ["intent"])
       && plan.retrievals == (if LooksUp(intent, hasResources) then 1 else 0)
       && plan.branch == (if intent in ["summarize", "compare", "generate"] then intent else "qa")
       && (LooksUp(intent, hasResources) && hasResources ==> w.retrieve(0) == Value(plan.state.chunks))
       && (!(LooksUp(intent, hasResources) && hasResources) ==> plan.state.chunks == [])
  }

  /** The first half of a run: memory, intent, and the first retrieval. */
  method Prepare(w: World, hasResources: bool, iterations0: int)
    returns (out: seq<Event>, plan: Plan, raised: Option<Exception>)
    ensures Planned(w, hasResources, iterations0) == Handed(plan, raised)
    ensures Phase(out, raised, 0) && SameText([], out)
    ensures raised.None? ==>
              plan.branch != "validate" && plan.state.citations == [] && plan.state.iterations == iterations0
    ensures raised.Some? ==> Itinerary(Visited(out), w, hasResources)
    ensures raised.None? ==> Prepared(Visited(out), plan, w, hasResources)
  {
    out, raised := [], None;
    plan := Plan("qa", Initial("", hasResources, iterations0), 0);
    if w.memory.Raised? {
      return out, plan, Some(w.memory.e);
    }
    out := Start(out, "intent", 0);
    if w.intent.Raised? {
      return out, plan, Some(w.intent.e);
    }
    var s := Initial(w.intent.v, hasResources, iterations0);
    out := End(out, "intent", 0);

    var branch := RouteByIntent(s);
    var k := 0;
    if branch == "qa" || branch == "compare" || (branch == "summarize" && hasResources) {
      out, s, raised := Retrieve(w, out, s, 0, 0);
      if raised.Some? {
        return;
      }
      k := 1;
      if branch != "summarize" {
        branch := if s.intent == "compare" then "compare" else "qa";
      }
    }
    plan := Plan(branch, s, k);
  }

  /** The second half of a run: generate, validate, cite, save. */
  method GenerateAndCheck(w: World, c: Config, events: seq<Event>, plan: Plan)
    returns (out: seq<Event>, raised: Option<Exception>)
    requires Live(events, None, 0) && plan.branch != "validate" && Told(events) == SILENCE
    requires WatchAll(events).chunks == 0 && WatchAll(events).reasonings == 0 && plan.state.citations == []
    ensures EndsAs(out, raised, EndingFrom(w, c, plan))
    ensures ValidationsOk(w, c, out, plan.state.iterations)
    ensures GoesThrough(Visited(out), Visited(events), plan.branch)
  {
    var draft, failed;
    out, draft, raised, failed := Generate(w, c, events, plan.branch);
    if failed {
      return;
    }
    if raised.Some? {
      LiveIsNotDone(out, WatchAll(out).open, 0);
      return;
    }
    var s, validations;
    assert Visited(out) == Visited(events) + [plan.branch];
    out, s, raised, validations := ValidateLoop(w, c, out, plan.state.(draft := draft), plan.retrievals);
    RoundsGoThrough(Visited(out), Visited(events), plan.branch, validations, raised.None?);
    LiveIsNotDone(out, WatchAll(out).open, validations);
    if raised.Some? {
      return;
    }
    match w.buildCitations(s) {
      case Raised(e) => raised := Some(e);
      case Value(citations) =>
        out := Cite(out, citations, validations);
        LiveIsNotDone(out, None, validations);
        if w.save.Raised? {
          return out, Some(w.save.e);
        }
        Finish(out, Done(s.iterations, |citations|), None, validations);
        out := out + [Done(s.iterations, |citations|)];
    }
  }

  /** After `before` the node `branch` and rounds of validation. */
  ghost predicate GoesThrough(nodes: seq<string>, before: seq<string>, branch: string) {
    var n := |before|;
    && |nodes| > n && nodes[..n] == before && nodes[n] == branch
    && forall i :: n < i < |nodes| ==> nodes[i] == if (i - n) % 2 == 1 then "validate" else "retrieve"
  }

  lemma RoundsGoThrough(nodes: seq<string>, before: seq<string>, branch: string, validations: nat, passed: bool)
    requires Rounds(nodes, before + [branch], validations, passed) && (passed ==> validations >= 1)
    ensures GoesThrough(nodes, before, branch)
  {
    assert (before + [branch])[|before|] == branch;
    assert forall i :: 0 <= i < |before| ==> (before + [branch])[i] == before[i];
  }

  method Cite(events: seq<Event>, citations: seq<string>, ghost validations: nat) returns (out: seq<Event>)
    requires Live(events, None, validations)
    ensures Live(out, None, validations) && Visited(out) == Visited(events)
    ensures Told(out) == Told(events).(citations := Told(events).citations + citations)
  {
    out := events;
    for i := 0 to |citations|
      invariant Live(out, None, validations) && Visited(out) == Visited(events)
      invariant Told(out) == Told(events).(citations := Told(events).citations + citations[..i])
    {
      WatchSnoc(out, Citation(citations[i]));
      ToldSnoc(out, Citation(citations[i]));
      AppendAssoc(Told(events).citations, citations[..i], [citations[i]]);
      assert citations[..i + 1] == citations[..i] + [citations[i]];
      out := out + [Citation(citations[i])];
    }
    assert citations[..|citations|] == citations;
  }

  function ErrorCode(e: Exception): string {
    match e
    case Forbidden => "FORBIDDEN"
    case Recursion => "AGENT_TIMEOUT"
    case Api(code) => code
    case Other => "AGENT_INTERNAL_ERROR"
  }

  /** A whole run: an escaping exception becomes the one error event. */
  method RunStream(w: World, c: Config, hasResources: bool, iterations0: int) returns (events: seq<Event>)
    ensures Over(events)
    ensures Ending(events[|events| - 1], Told(events)) == EndingOf(w, c, hasResources, iterations0)
    ensures ValidationsOk(w, c, events, iterations0)
    ensures events[|events| - 1].Done? <==> Succeeds(w, c, hasResources, iterations0)
    ensures Itinerary(Visited(events), w, hasResources)
  {
    var raised;
    events, raised := RunNodes(w, c, hasResources, iterations0);
    if raised.Some? {
      Finish(events, Error(ErrorCode(raised.value)), WatchAll(events).open, WatchAll(events).validations);
      events := events + [Error(ErrorCode(raised.value))];
    }
    DoneIff(w, c, hasResources, iterations0);
  }

  // ----- when a run is done -----

  /** Nothing the run asks for fails: the preparation, the model's stream, some validation within the bound, the
      citations and the save. */
  predicate Succeeds(w: World, c: Config, hasResources: bool, iterations0: int) {
    var planned := Planned(w, hasResources, iterations0);
    && planned.Value?
    && !BreaksOff(w.llm) && (Stops(w.llm) || w.llmEnd.Value?)
    && var plan := planned.v;
       var validated := Validated(w, c, plan.state.(draft := Drafted(w, c)), plan.retrievals, c.recursionLimit);
       && validated.Value? && w.buildCitations(validated.v).Value? && w.save.Value?
  }

  lemma DoneIff(w: World, c: Config, hasResources: bool, iterations0: int)
    ensures EndingOf(w, c, hasResources, iterations0).last.Done? <==> Succeeds(w, c, hasResources, iterations0)
  {
  }

  // ----- what a run generates, checks and cites -----

  /** The error code an exception is reported by. */
  ghost predicate ReportedAs(e: Exception, code: string) {
    && (e.Forbidden? ==> code == "FORBIDDEN") && (e.Recursion? ==> code == "AGENT_TIMEOUT")
    && (e.Api? ==> code == e.code) && (e.Other? ==> code == "AGENT_INTERNAL_ERROR")
  }

  /** A run that fails before it generates tells nothing but the error. */
  lemma FailedPreparation(w: World, c: Config, hasResources: bool, iterations0: int)
    ensures var failed := w.memory.Raised? || w.intent.Raised?
              || (LooksUp(w.intent.v, hasResources) && hasResources && w.retrieve(0).Raised?);
            var e := if w.memory.Raised? then w.memory.e else if w.intent.Raised? then w.intent.e
                     else if w.retrieve(0).Raised? then w.retrieve(0).e else Other;
            failed ==>
              && EndingOf(w, c, hasResources, iterations0).told == SILENCE
              && EndingOf(w, c, hasResources, iterations0).last.Error?
              && ReportedAs(e, EndingOf(w, c, hasResources, iterations0).last.code)
  {
  }

  /** The state in which the run validates for the first time: the draft is what the model produced, and the chunks are
      those of the retrieval the intent calls for, if there are resources to look in. */
  function FirstDraft(w: World, c: Config, hasResources: bool, iterations0: int): AgentState
    requires w.memory.Value? && w.intent.Value?
  {
    var intent := w.intent.v;
    var looksUp := hasResources && intent != "generate";
    AgentState(intent, hasResources, if looksUp && w.retrieve(0).Value? then w.retrieve(0).v else [], [],
               if Produced(w.llm).answer == "" then c.fallback else Produced(w.llm).answer, iterations0, true)
  }

  lemma PlannedDraft(w: World, c: Config, hasResources: bool, iterations0: int)
    requires w.memory.Value? && w.intent.Value?
    requires hasResources && w.intent.v != "generate" ==> w.retrieve(0).Value?
    ensures var planned := Planned(w, hasResources, iterations0);
            planned.Value?
            && planned.v.state.(draft := Drafted(w, c)) == FirstDraft(w, c, hasResources, iterations0)
  {
  }

  lemma FirstCheck(w: World, c: Config, s: AgentState, k: nat)
    requires c.recursionLimit >= 1 && (w.passes(s) || s.iterations + 1 >= c.maxIterations) && s.validationPassed
    ensures Validated(w, c, s, k, c.recursionLimit) == Value(s.(iterations := s.iterations + 1))
  {
    ValidatedUnfolds(w, c, s, k, c.recursionLimit);
  }

  /** A run that generates and passes its first validation ends with the citations built from its first draft. */
  lemma FirstValidationPasses(w: World, c: Config, hasResources: bool, iterations0: int)
    requires w.memory.Value? && w.intent.Value?
    requires hasResources && w.intent.v != "generate" ==> w.retrieve(0).Value?
    requires !BreaksOff(w.llm) && (Stops(w.llm) || w.llmEnd.Value?) && c.recursionLimit >= 1
    requires w.passes(FirstDraft(w, c, hasResources, iterations0)) || iterations0 + 1 >= c.maxIterations
    ensures var cited := w.buildCitations(FirstDraft(w, c, hasResources, iterations0).(iterations := iterations0 + 1));
            var ending := EndingOf(w, c, hasResources, iterations0);
            && (cited.Value? ==> ending.told == Produced(w.llm).(citations := cited.v))
            && (cited.Value? && w.save.Value? ==> ending.last == Done(iterations0 + 1, |cited.v|))
            && (cited.Raised? ==> ending.told == Produced(w.llm))
            && (cited.Raised? || w.save.Raised? ==>
                  ending.last.Error?
                  && ReportedAs(if cited.Raised? then cited.e else w.save.e, ending.last.code))
  {
    PlannedDraft(w, c, hasResources, iterations0);
    FirstCheck(w, c, FirstDraft(w, c, hasResources, iterations0), Planned(w, hasResources, iterations0).v.retrievals);
  }

  /** The state validated after `n` validations of `s` failed, the next retrieval being the `k`-th. */
  function AtRound(w: World, s: AgentState, k: nat, n: nat): AgentState {
    if n == 0 then s
    else
      var found := w.retrieve(k + n - 1);
      s.(chunks := if s.hasResources && found.Value? then found.v else [], citations := [],
         iterations := s.iterations + n, validationPassed := false)
  }

  /** The `n`-th validation, from zero, fails with some of the iteration budget left. */
  ghost predicate FailsAt(w: World, c: Config, s: AgentState, k: nat, n: nat) {
    !w.passes(AtRound(w, s, k, n)) && s.iterations + n + 1 < c.maxIterations
  }

  /** The n-th retrieval for another try raises an exception. */
  ghost predicate LostAt(w: World, s: AgentState, k: nat, n: nat) {
    s.hasResources && w.retrieve(k + n).Raised?
  }

  lemma NextRound(w: World, c: Config, s: AgentState, k: nat, n: nat)
    ensures AtRound(w, AtRound(w, s, k, 1), k + 1, n) == AtRound(w, s, k, n + 1)
    ensures FailsAt(w, c, AtRound(w, s, k, 1), k + 1, n) == FailsAt(w, c, s, k, n + 1)
    ensures LostAt(w, AtRound(w, s, k, 1), k + 1, n) == LostAt(w, s, k, n + 1)
  {
  }

  /** The loop tries again exactly as long as validation fails and the retrieval answers: it ends in the first state
      that passes, in the first exception, or out of validations. */
  lemma {:induction false} FirstRoundThatEnds(w: World, c: Config, s: AgentState, k: nat, left: nat) returns (n: nat)
    ensures n <= left
    ensures forall j: nat :: j < n ==> FailsAt(w, c, s, k, j) && !LostAt(w, s, k, j)
    ensures var validated := Validated(w, c, s, k, left);
            if n == left then validated == Raised(Recursion)
            else if FailsAt(w, c, s, k, n) then LostAt(w, s, k, n) && validated == Raised(w.retrieve(k + n).e)
            else validated == Value(AtRound(w, s, k, n).(iterations := s.iterations + n + 1, validationPassed := true))
    decreases left
  {
    if left == 0 {
      return 0;
    }
    ValidatedUnfolds(w, c, s, k, left);
    if !FailsAt(w, c, s, k, 0) || LostAt(w, s, k, 0) {
      return 0;
    }
    var again := AtRound(w, s, k, 1);
    var m := FirstRoundThatEnds(w, c, again, k + 1, left - 1);
    NextRound(w, c, s, k, m);
    forall j: nat | j < m + 1 ensures FailsAt(w, c, s, k, j) && !LostAt(w, s, k, j) {
      if j > 0 {
        NextRound(w, c, s, k, j - 1);
        assert FailsAt(w, c, again, k + 1, j - 1) && !LostAt(w, again, k + 1, j - 1);
      }
    }
    return m + 1;
  }

  // ----- an interrupted model stream -----

  /** The chunk by which the language-model client reports an interrupted stream. */
  const INTERRUPTED := LlmChunk("", "", "error")

  const STOPPED := LlmChunk("", "", "stop")

  ghost predicate Unfinished(sent: seq<LlmChunk>) {
    forall i :: 0 <= i < |sent| ==> !Finishes(sent[i])
  }

  /** A stream that ends in an error breaks off if and only if the chunk that says so carries text. */
  lemma {:induction false} BreaksOffIff(sent: seq<LlmChunk>, end: LlmChunk)
    requires Unfinished(sent) && end.finishReason == "error"
    ensures BreaksOff(sent + [end]) <==> end.delta != "" || end.reasoningDelta != ""
  {
    if sent != [] {
      assert (sent + [end])[1..] == sent[1..] + [end];
      BreaksOffIff(sent[1..], end);
    }
  }

  lemma {:induction false} SameProduct(sent: seq<LlmChunk>, a: LlmChunk, b: LlmChunk)
    requires Unfinished(sent) && Finishes(a) && Finishes(b) && a.delta == b.delta
             && a.reasoningDelta == b.reasoningDelta
    ensures Produced(sent + [a]) == Produced(sent + [b]) && Stops(sent + [a]) && Stops(sent + [b])
  {
    assert (sent + [a])[|sent|] == a && (sent + [b])[|sent|] == b;
    if sent != [] {
      assert (sent + [a])[1..] == sent[1..] + [a] && (sent + [b])[1..] == sent[1..] + [b];
      SameProduct(sent[1..], a, b);
    }
  }

  lemma {:induction false} StoppedIsWhole(sent: seq<LlmChunk>)
    requires Unfinished(sent)
    ensures !BreaksOff(sent + [STOPPED])
  {
    if sent != [] {
      assert (sent + [STOPPED])[1..] == sent[1..] + [STOPPED];
      StoppedIsWhole(sent[1..]);
    }
  }

  lemma {:induction false} ValidatedIgnoresStream(w: World, c: Config, s: AgentState, k: nat, left: int,
                                                  llm: seq<LlmChunk>)
    ensures Validated(w.(llm := llm), c, s, k, left) == Validated(w, c, s, k, left)
    decreases left
  {
    if left > 0 {
      var again := Retrieved(w, Validate(w, c, s), k);
      assert Retrieved(w.(llm := llm), Validate(w.(llm := llm), c, s), k) == again;
      if again.Value? {
        ValidatedIgnoresStream(w, c, again.v, k + 1, left - 1, llm);
      }
    }
  }

  /** A run whose model stream is interrupted ends exactly like one whose stream stopped in the same place: the client's
      report carries no text, so it is dropped, and the part that arrived passes for the whole answer. */
  lemma InterruptionPassesForEnd(w: World, c: Config, hasResources: bool, iterations0: int, sent: seq<LlmChunk>)
    requires Unfinished(sent)
    ensures EndingOf(w.(llm := sent + [INTERRUPTED]), c, hasResources, iterations0)
         == EndingOf(w.(llm := sent + [STOPPED]), c, hasResources, iterations0)
  {
    BreaksOffIff(sent, INTERRUPTED);
    StoppedIsWhole(sent);
    SameProduct(sent, INTERRUPTED, STOPPED);
    var planned := Planned(w, hasResources, iterations0);
    if planned.Value? {
      SameEnding(w, c, planned.v, sent + [INTERRUPTED], sent + [STOPPED]);
    }
  }

  /** Of a model stream that does not break off and gives a finish reason, only what it produced matters. */
  lemma SameEnding(w: World, c: Config, plan: Plan, a: seq<LlmChunk>, b: seq<LlmChunk>)
    requires !BreaksOff(a) && !BreaksOff(b) && Stops(a) && Stops(b) && Produced(a) == Produced(b)
    ensures EndingFrom(w.(llm := a), c, plan) == EndingFrom(w.(llm := b), c, plan)
  {
    var s := plan.state.(draft := Drafted(w.(llm := a), c));
    ValidatedIgnoresStream(w, c, s, plan.retrievals, c.recursionLimit, a);
    ValidatedIgnoresStream(w, c, s, plan.retrievals, c.recursionLimit, b);
  }

  /** For instance, a run that is cut off after a few words, and otherwise succeeds, is done. */
  lemma InterruptedRunIsDone()
    ensures var w := World(Value(()), Value("generate"), k => Value([]), [LlmChunk("The answer", "", ""), INTERRUPTED],
                           Value(()), s => true, s => Value([]), Value(()));
            EndingOf(w, Config(3, 3, ""), false, 0) == Ending(Done(1, 0), Transcript("The answer", "", []))
  {
    var sent := [LlmChunk("The answer", "", "")];
    var llm := sent + [INTERRUPTED];
    assert llm == [LlmChunk("The answer", "", ""), INTERRUPTED] && llm[1..] == [INTERRUPTED];
    BreaksOffIff(sent, INTERRUPTED);
    SameProduct(sent, INTERRUPTED, INTERRUPTED);
    assert Produced([INTERRUPTED]) == SILENCE;
    assert Produced(llm) == Transcript("The answer" + "", "" + "", []);
    assert "The answer" + "" == "The answer";
  }

  // ----- what a kept protocol means -----

  lemma {:induction false} WatchPrefix(events: seq<Event>, n: nat)
    requires n <= |events| && WatchAll(events).ok
    ensures WatchAll(events[..n]).ok && WatchAll(events[..n]).terminals <= WatchAll(events).terminals
    ensures n < |events| ==> WatchAll(events[..n]).terminals == 0
    decreases |events|
  {
    if n == |events| {
      assert events[..n] == events;
    } else {
      var m := |events| - 1;
      WatchPrefix(events[..m], n);
      assert events[..m][..n] == events[..n];
    }
  }

  /** A finished stream has exactly one terminal event, and it is the last. */
  lemma TerminalIsLast(events: seq<Event>, i: nat)
    requires Over(events) && i < |events|
    ensures IsTerminal(events[i]) <==> i == |events| - 1
  {
    WatchPrefix(events, i);
    WatchPrefix(events, i + 1);
    assert events[..i + 1][..i] == events[..i];
  }

  /** Node events pair up without nesting; only a run that ends in an error leaves one open. */
  lemma NodesPair(events: seq<Event>, i: nat)
    requires Over(events) && i < |events|
    ensures events[i].NodeStart? ==> WatchAll(events[..i]).open.None?
    ensures events[i].NodeEnd? ==> WatchAll(events[..i]).open == Some(events[i].node)
    ensures events[i].Done? ==> WatchAll(events[..i]).open.None?
    ensures events[i].Chunk? ==> events[i].index == WatchAll(events[..i]).chunks
    ensures events[i].Reasoning? ==> events[i].index == WatchAll(events[..i]).reasonings
  {
    WatchPrefix(events, i + 1);
    assert events[..i + 1][..i] == events[..i];
  }
}
