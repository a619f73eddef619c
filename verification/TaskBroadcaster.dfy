/** The in-memory task broadcaster under every interleaving of its callers
    (gateway/internal/service/task_broadcaster.go). Each step is one critical section or one channel operation;
    `Publish` and `Close` work on the channels they copied out after releasing the lock. */
module TaskBroadcaster {
  import opened Text
  import opened Lists

  type TaskId = string
  datatype TaskEvent = TaskEvent(eventType: string, taskId: TaskId, progress: nat, status: string)

  datatype Limits = Limits(maxSubscribers: nat, bufferSize: nat)

  /** Where a subscriber channel stands: registered, taken out by closer `c` and not closed yet, or closed. */
  datatype Place = Registered | Closing(c: nat) | Closed

  /** A subscriber channel. `delivered` is everything ever sent into it, of which `buffered` are still unread. */
  datatype Channel = Channel(task: TaskId, place: Place, closes: nat, buffered: nat, delivered: seq<TaskEvent>)

  /** A `Publish` call after its snapshot: the channels still to be tried. */
  datatype Publisher = Publisher(task: TaskId, event: TaskEvent, pending: seq<nat>)

  /** `log` is the history of events per task, in the order of their snapshots. `panicked` means some send hit a closed
      channel; the request that published is lost, everything else goes on. */
  datatype State = State(
    subs: map<TaskId, seq<nat>>,
    channels: seq<Channel>,
    publishers: seq<Publisher>,
    closers: seq<seq<nat>>,
    log: map<TaskId, seq<TaskEvent>>,
    panicked: bool)

  const INITIAL := State(map[], [], [], [], map[], false)

  function SubsOf(s: State, t: TaskId): seq<nat> {
    if t in s.subs then s.subs[t] else []
  }

  function LogOf(s: State, t: TaskId): seq<TaskEvent> {
    if t in s.log then s.log[t] else []
  }

  datatype Step =
    | Subscribe(t: TaskId)
    | Snapshot(t: TaskId, event: TaskEvent)   // Publish, under the read lock
    | SendNext(p: nat)                        // Publish, one channel operation
    | Abort(p: nat)                           // Publish, its context is done
    | Detach(t: TaskId)                       // Close, under the lock
    | CloseNext(c: nat)                       // Close, one channel
    | Remove(t: TaskId, ch: nat)              // removeSubscriber
    | Receive(ch: nat)                        // the subscriber reads

  predicate Enabled(s: State, step: Step) {
    match step
    case SendNext(p) => p < |s.publishers| && s.publishers[p].pending != []
    case Abort(p) => p < |s.publishers|
    case CloseNext(c) => c < |s.closers| && s.closers[c] != []
    case Receive(ch) => ch < |s.channels| && s.channels[ch].buffered > 0
    case _ => true
  }

  /** The list without the first occurrence of `ch`. */
  function WithoutFirst(subs: seq<nat>, ch: nat): seq<nat> {
    if subs == [] then []
    else if subs[0] == ch then subs[1..]
    else [subs[0]] + WithoutFirst(subs[1..], ch)
  }

  function MarkClosing(channels: seq<Channel>, taken: seq<nat>, c: nat): (r: seq<Channel>)
    ensures |r| == |channels|
    ensures forall k :: 0 <= k < |r| ==> r[k] == if k in taken then channels[k].(place := Closing(c)) else channels[k]
  {
    seq(|channels|, k requires 0 <= k < |channels| =>
      if k in taken then channels[k].(place := Closing(c)) else channels[k])
  }

  function CloseChannel(s: State, ch: nat): State {
    if ch < |s.channels| then
      s.(channels := s.channels[ch := s.channels[ch].(place := Closed, closes := s.channels[ch].closes + 1)])
    else s
  }

  function Apply(l: Limits, s: State, step: Step): State
    requires Enabled(s, step)
  {
    match step
    case Subscribe(t) =>
      if |SubsOf(s, t)| >= l.maxSubscribers then s
      else s.(subs := s.subs[t := SubsOf(s, t) + [|s.channels|]],
              channels := s.channels + [Channel(t, Registered, 0, 0, [])])
    case Snapshot(t, event) =>
      s.(publishers := s.publishers + [Publisher(t, event, SubsOf(s, t))], log := s.log[t := LogOf(s, t) + [event]])
    case SendNext(p) =>
      var pub := s.publishers[p];
      var ch := pub.pending[0];
      var moved := s.(publishers := s.publishers[p := pub.(pending := pub.pending[1..])]);
      if ch >= |s.channels| then moved
      else
        var channel := s.channels[ch];
        if channel.place.Closed? then
          s.(publishers := s.publishers[p := pub.(pending := [])], panicked := true)
        else if channel.buffered < l.bufferSize then
          moved.(channels := s.channels[ch := channel.(buffered := channel.buffered + 1,
              delivered := channel.delivered + [pub.event])])
        else moved
    case Abort(p) => s.(publishers := s.publishers[p := s.publishers[p].(pending := [])])
    case Detach(t) =>
      var taken := SubsOf(s, t);
      s.(subs := s.subs - {t}, closers := s.closers + [taken], channels := MarkClosing(s.channels, taken, |s.closers|))
    case CloseNext(c) =>
      CloseChannel(s.(closers := s.closers[c := s.closers[c][1..]]), s.closers[c][0])
    case Remove(t, ch) =>
      if ch in SubsOf(s, t) then
        var rest := WithoutFirst(SubsOf(s, t), ch);
        CloseChannel(s.(subs := if rest == [] then s.subs - {t} else s.subs[t := rest]), ch)
      else if SubsOf(s, t) == [] then s.(subs := s.subs - {t})
      else s
    case Receive(ch) => s.(channels := s.channels[ch := s.channels[ch].(buffered := s.channels[ch].buffered - 1)])
  }

  // ----- safety -----

  /** What holds of one channel: it is registered, awaiting its close, or closed once, and its buffer is bounded. */
  ghost predicate ChannelOk(l: Limits, c: Channel) {
    && c.closes == (if c.place.Closed? then 1 else 0)
    && c.buffered <= l.bufferSize && c.buffered <= |c.delivered|
  }

  /** A task's list: within the limit, no channel twice, all registered for this task. */
  ghost predicate SubsOk(l: Limits, channels: seq<Channel>, t: TaskId, list: seq<nat>) {
    && |list| <= l.maxSubscribers && Distinct(list)
    && forall i :: 0 <= i < |list| ==>
         list[i] < |channels| && channels[list[i]].place == Registered && channels[list[i]].task == t
  }

  /** A closer's list: no channel twice, all awaiting this closer. */
  ghost predicate CloserOk(channels: seq<Channel>, c: nat, list: seq<nat>) {
    && Distinct(list)
    && forall i :: 0 <= i < |list| ==> list[i] < |channels| && channels[list[i]].place == Closing(c)
  }

  ghost predicate Inv(l: Limits, s: State) {
    && (forall t :: t in s.subs ==> SubsOk(l, s.channels, t, s.subs[t]))
    && (forall c :: 0 <= c < |s.closers| ==> CloserOk(s.channels, c, s.closers[c]))
    && (forall k :: 0 <= k < |s.channels| ==> ChannelOk(l, s.channels[k]))
  }

  lemma SubscribeKeepsInv(l: Limits, s: State, t: TaskId)
    requires Inv(l, s) && Enabled(s, Subscribe(t))
    ensures Inv(l, Apply(l, s, Subscribe(t)))
  {
    if |SubsOf(s, t)| < l.maxSubscribers {
      var s' := Apply(l, s, Subscribe(t));
      forall u | u in s'.subs ensures SubsOk(l, s'.channels, u, s'.subs[u]) {
        assert u in s.subs ==> SubsOk(l, s.channels, u, s.subs[u]);
      }
      forall c | 0 <= c < |s'.closers| ensures CloserOk(s'.channels, c, s'.closers[c]) {
        assert CloserOk(s.channels, c, s.closers[c]);
      }
    }
  }

  lemma DetachKeepsInv(l: Limits, s: State, t: TaskId)
    requires Inv(l, s) && Enabled(s, Detach(t))
    ensures Inv(l, Apply(l, s, Detach(t)))
  {
    var taken, s' := SubsOf(s, t), Apply(l, s, Detach(t));
    assert t in s.subs ==> SubsOk(l, s.channels, t, s.subs[t]);
    forall u | u in s'.subs ensures SubsOk(l, s'.channels, u, s'.subs[u]) {
      assert SubsOk(l, s.channels, u, s.subs[u]);
    }
    forall c | 0 <= c < |s'.closers| ensures CloserOk(s'.channels, c, s'.closers[c]) {
      if c < |s.closers| {
        assert CloserOk(s.channels, c, s.closers[c]);
      }
    }
    forall k | 0 <= k < |s'.channels| ensures ChannelOk(l, s'.channels[k]) {
      assert ChannelOk(l, s.channels[k]);
      assert k in taken ==> s.channels[k].place.Registered?;
    }
  }

  lemma CloseNextKeepsInv(l: Limits, s: State, c: nat)
    requires Inv(l, s) && Enabled(s, CloseNext(c))
    ensures Inv(l, Apply(l, s, CloseNext(c)))
  {
    var s' := Apply(l, s, CloseNext(c));
    var ch := s.closers[c][0];
    assert CloserOk(s.channels, c, s.closers[c]);
    forall u | u in s'.subs ensures SubsOk(l, s'.channels, u, s'.subs[u]) {
      assert SubsOk(l, s.channels, u, s.subs[u]);
    }
    forall d | 0 <= d < |s'.closers| ensures CloserOk(s'.channels, d, s'.closers[d]) {
      assert CloserOk(s.channels, d, s.closers[d]);
      if d == c {
        assert forall i :: 0 <= i < |s'.closers[d]| ==> s'.closers[d][i] == s.closers[d][i + 1] != ch;
      }
    }
  }

  /** Removing one entry of a list without repetitions keeps the others. */
  lemma {:induction false} WithoutAt(list: seq<nat>, ch: nat)
    requires Distinct(list)
    ensures |WithoutFirst(list, ch)| <= |list| && Distinct(WithoutFirst(list, ch))
    ensures forall i :: 0 <= i < |WithoutFirst(list, ch)| ==>
              WithoutFirst(list, ch)[i] in list && WithoutFirst(list, ch)[i] != ch
  {
    if list != [] {
      var rest := list[1..];
      assert forall i :: 0 <= i < |rest| ==> rest[i] == list[i + 1];
      assert list[0] !in rest;
      if list[0] != ch {
        WithoutAt(rest, ch);
      }
    }
  }

  lemma RemoveKeepsInv(l: Limits, s: State, t: TaskId, ch: nat)
    requires Inv(l, s) && Enabled(s, Remove(t, ch)) && ch in SubsOf(s, t)
    ensures Inv(l, Apply(l, s, Remove(t, ch)))
  {
    var s' := Apply(l, s, Remove(t, ch));
    assert SubsOk(l, s.channels, t, s.subs[t]);
    WithoutAt(s.subs[t], ch);
    forall u | u in s'.subs ensures SubsOk(l, s'.channels, u, s'.subs[u]) {
      assert SubsOk(l, s.channels, u, s.subs[u]);
    }
    forall d | 0 <= d < |s'.closers| ensures CloserOk(s'.channels, d, s'.closers[d]) {
      assert CloserOk(s.channels, d, s.closers[d]);
    }
  }

  lemma OthersKeepInv(l: Limits, s: State, step: Step)
    requires Inv(l, s) && Enabled(s, step)
    requires step.SendNext? || step.Abort? || step.Snapshot? || step.Receive?
             || (step.Remove? && step.ch !in SubsOf(s, step.t))
    ensures Inv(l, Apply(l, s, step))
  {
    var s' := Apply(l, s, step);
    assert |s'.channels| == |s.channels|;
    forall u | u in s'.subs ensures SubsOk(l, s'.channels, u, s'.subs[u]) {
      assert SubsOk(l, s.channels, u, s.subs[u]);
    }
    forall d | 0 <= d < |s'.closers| ensures CloserOk(s'.channels, d, s'.closers[d]) {
      assert CloserOk(s.channels, d, s.closers[d]);
    }
  }

  lemma StepKeepsInv(l: Limits, s: State, step: Step)
    requires Inv(l, s) && Enabled(s, step)
    ensures Inv(l, Apply(l, s, step))
  {
    match step
    case Subscribe(t) => SubscribeKeepsInv(l, s, t);
    case Detach(t) => DetachKeepsInv(l, s, t);
    case CloseNext(c) => CloseNextKeepsInv(l, s, c);
    case Remove(t, ch) =>
      if ch in SubsOf(s, t) {
        RemoveKeepsInv(l, s, t, ch);
      } else {
        OthersKeepInv(l, s, step);
      }
    case _ => OthersKeepInv(l, s, step);
  }

  predicate Possible(l: Limits, s: State, steps: seq<Step>)
    decreases |steps|
  {
    steps == [] || (Enabled(s, steps[0]) && Possible(l, Apply(l, s, steps[0]), steps[1..]))
  }

  function After(l: Limits, s: State, steps: seq<Step>): State
    requires Possible(l, s, steps)
    decreases |steps|
  {
    if steps == [] then s else After(l, Apply(l, s, steps[0]), steps[1..])
  }

  /** In every reachable state: the subscriber limit holds, no channel is registered twice, registered channels are
      open, and no channel was closed twice. */
  lemma {:induction false} InvAlways(l: Limits, s: State, steps: seq<Step>)
    requires Inv(l, s) && Possible(l, s, steps)
    ensures Inv(l, After(l, s, steps))
    decreases |steps|
  {
    if steps != [] {
      StepKeepsInv(l, s, steps[0]);
      InvAlways(l, Apply(l, s, steps[0]), steps[1..]);
    }
  }

  lemma SafeRuns(l: Limits, steps: seq<Step>, t: TaskId, i: nat)
    requires Possible(l, INITIAL, steps) && i < |SubsOf(After(l, INITIAL, steps), t)|
    ensures var s := After(l, INITIAL, steps);
            var ch := SubsOf(s, t)[i];
            && |SubsOf(s, t)| <= l.maxSubscribers
            && ch < |s.channels| && s.channels[ch].closes == 0
            && (forall u, j :: 0 <= j < |SubsOf(s, u)| && SubsOf(s, u)[j] == ch ==> u == t && j == i)
  {
    InvAlways(l, INITIAL, steps);
    var s := After(l, INITIAL, steps);
    var ch := SubsOf(s, t)[i];
    assert SubsOk(l, s.channels, t, s.subs[t]);
    assert ChannelOk(l, s.channels[ch]);
    forall u, j | 0 <= j < |SubsOf(s, u)| && SubsOf(s, u)[j] == ch ensures u == t && j == i {
      assert SubsOk(l, s.channels, u, s.subs[u]);
    }
  }

  /** No channel is ever closed twice. */
  lemma ClosedAtMostOnce(l: Limits, steps: seq<Step>, ch: nat)
    requires Possible(l, INITIAL, steps) && ch < |After(l, INITIAL, steps).channels|
    ensures After(l, INITIAL, steps).channels[ch].closes <= 1
  {
    InvAlways(l, INITIAL, steps);
    assert ChannelOk(l, After(l, INITIAL, steps).channels[ch]);
  }

  // ----- order of delivery -----

  /** Publishing is sequential per task: a new `Publish` starts only when the task's earlier ones have finished. */
  ghost predicate Sequential(s: State, step: Step) {
    step.Snapshot? ==> forall p :: 0 <= p < |s.publishers| && s.publishers[p].task == step.t ==>
        s.publishers[p].pending == []
  }

  /** Some publisher of the channel's task has yet to try it. */
  ghost predicate Awaited(s: State, ch: nat) {
    exists p :: 0 <= p < |s.publishers| && ch in s.publishers[p].pending
  }

  ghost predicate PublisherOk(s: State, pub: Publisher) {
    && Distinct(pub.pending)
    && (forall ch :: ch in pub.pending ==> ch < |s.channels| && s.channels[ch].task == pub.task)
    && (pub.pending != [] ==> LogOf(s, pub.task) != [] && pub.event == LogOf(s, pub.task)[|LogOf(s, pub.task)| - 1])
  }

  ghost predicate InOrder(s: State, ch: nat)
    requires ch < |s.channels|
  {
    var log := LogOf(s, s.channels[ch].task);
    if Awaited(s, ch) then log != [] && Subsequence(s.channels[ch].delivered, log[..|log| - 1])
    else Subsequence(s.channels[ch].delivered, log)
  }

  ghost predicate OrderInv(s: State) {
    && (forall p :: 0 <= p < |s.publishers| ==> PublisherOk(s, s.publishers[p]))
    && (forall p, q :: 0 <= p < q < |s.publishers| && s.publishers[p].task == s.publishers[q].task ==>
          s.publishers[p].pending == [] || s.publishers[q].pending == [])
    && (forall ch :: 0 <= ch < |s.channels| ==> InOrder(s, ch))
  }

  /** Steps that touch neither the publishers nor what was delivered. */
  lemma OrderFrame(s: State, s': State)
    requires OrderInv(s) && s'.publishers == s.publishers && s'.log == s.log && |s'.channels| == |s.channels|
    requires forall k :: 0 <= k < |s.channels| ==>
               s'.channels[k].task == s.channels[k].task && s'.channels[k].delivered == s.channels[k].delivered
    ensures OrderInv(s')
  {
    forall p | 0 <= p < |s'.publishers| ensures PublisherOk(s', s'.publishers[p]) {
      assert PublisherOk(s, s.publishers[p]);
    }
    forall ch | 0 <= ch < |s'.channels| ensures InOrder(s', ch) {
      assert InOrder(s, ch);
      assert Awaited(s', ch) <==> Awaited(s, ch);
    }
  }

  lemma OrderSubscribe(l: Limits, s: State, t: TaskId)
    requires OrderInv(s) && Enabled(s, Subscribe(t))
    ensures OrderInv(Apply(l, s, Subscribe(t)))
  {
    var s' := Apply(l, s, Subscribe(t));
    forall p | 0 <= p < |s'.publishers| ensures PublisherOk(s', s'.publishers[p]) {
      assert PublisherOk(s, s.publishers[p]);
    }
    forall ch | 0 <= ch < |s'.channels| ensures InOrder(s', ch) {
      if ch < |s.channels| {
        assert InOrder(s, ch);
        assert Awaited(s', ch) <==> Awaited(s, ch);
      } else {
        assert !Awaited(s', ch);
      }
    }
  }

  /** Before a sequential snapshot no channel of the task is awaited. */
  lemma NotAwaited(s: State, step: Step, ch: nat)
    requires OrderInv(s) && step.Snapshot? && Sequential(s, step) && ch < |s.channels| && s.channels[ch].task == step.t
    ensures !Awaited(s, ch)
  {
    forall p | 0 <= p < |s.publishers| ensures ch !in s.publishers[p].pending {
      assert PublisherOk(s, s.publishers[p]);
    }
  }

  lemma OrderSnapshot(l: Limits, s: State, t: TaskId, event: TaskEvent)
    requires Inv(l, s) && OrderInv(s) && Enabled(s, Snapshot(t, event)) && Sequential(s, Snapshot(t, event))
    ensures OrderInv(Apply(l, s, Snapshot(t, event)))
  {
    var s' := Apply(l, s, Snapshot(t, event));
    assert t in s.subs ==> SubsOk(l, s.channels, t, s.subs[t]);
    forall p | 0 <= p < |s'.publishers| ensures PublisherOk(s', s'.publishers[p]) {
      if p < |s.publishers| {
        assert PublisherOk(s, s.publishers[p]);
      }
    }
    forall ch | 0 <= ch < |s'.channels| ensures InOrder(s', ch) {
      SnapshotChannel(l, s, t, event, ch);
    }
  }

  lemma SnapshotChannel(l: Limits, s: State, t: TaskId, event: TaskEvent, ch: nat)
    requires Inv(l, s) && OrderInv(s) && Enabled(s, Snapshot(t, event)) && Sequential(s, Snapshot(t, event))
    requires ch < |s.channels|
    ensures InOrder(Apply(l, s, Snapshot(t, event)), ch)
  {
    assert InOrder(s, ch);
    SnapshotAwaits(l, s, t, event, ch);
    if s.channels[ch].task == t {
      NotAwaited(s, Snapshot(t, event), ch);
      SubsequenceSnoc(s.channels[ch].delivered, LogOf(s, t), event);
      assert (LogOf(s, t) + [event])[..|LogOf(s, t)|] == LogOf(s, t);
    }
  }

  lemma SnapshotAwaits(l: Limits, s: State, t: TaskId, event: TaskEvent, ch: nat)
    requires Inv(l, s) && Enabled(s, Snapshot(t, event)) && ch < |s.channels|
    ensures Awaited(Apply(l, s, Snapshot(t, event)), ch) <==> Awaited(s, ch) || ch in SubsOf(s, t)
    ensures ch in SubsOf(s, t) ==> s.channels[ch].task == t
  {
    var s' := Apply(l, s, Snapshot(t, event));
    assert t in s.subs ==> SubsOk(l, s.channels, t, s.subs[t]);
    if Awaited(s, ch) {
      var p :| 0 <= p < |s.publishers| && ch in s.publishers[p].pending;
      assert s'.publishers[p] == s.publishers[p];
    }
    if ch in SubsOf(s, t) {
      assert s'.publishers[|s.publishers|].pending == SubsOf(s, t);
    }
  }

  /** Only publisher `p` awaits the channels it has pending. */
  lemma OnlyAwaiter(s: State, p: nat, q: nat, ch: nat)
    requires OrderInv(s) && p < |s.publishers| && q < |s.publishers|
    requires ch in s.publishers[p].pending && ch in s.publishers[q].pending
    ensures p == q
  {
    assert PublisherOk(s, s.publishers[p]) && PublisherOk(s, s.publishers[q]);
  }

  /** Dropping publisher `p`'s claim on `ch`, with or without a delivery of its event, leaves `ch` in order. */
  lemma Released(s: State, p: nat, ch: nat)
    requires OrderInv(s) && p < |s.publishers| && ch in s.publishers[p].pending && ch < |s.channels|
    ensures var log := LogOf(s, s.channels[ch].task);
            && Subsequence(s.channels[ch].delivered, log)
            && Subsequence(s.channels[ch].delivered + [s.publishers[p].event], log)
  {
    assert PublisherOk(s, s.publishers[p]) && InOrder(s, ch) && Awaited(s, ch);
    var log := LogOf(s, s.channels[ch].task);
    assert log == log[..|log| - 1] + [log[|log| - 1]];
    SubsequenceSnoc(s.channels[ch].delivered, log[..|log| - 1], log[|log| - 1]);
  }

  /** The next send of publisher `p` is into a closed channel. */
  predicate HitsClosed(s: State, p: nat)
    requires Enabled(s, SendNext(p))
  {
    var ch := s.publishers[p].pending[0];
    ch < |s.channels| && s.channels[ch].place.Closed?
  }

  lemma OrderSend(l: Limits, s: State, p: nat)
    requires OrderInv(s) && Enabled(s, SendNext(p))
    ensures OrderInv(Apply(l, s, SendNext(p)))
  {
    if HitsClosed(s, p) {
      OrderAbort(l, s, p);
      OrderFrame(Apply(l, s, Abort(p)), Apply(l, s, SendNext(p)));
    } else {
      OrderTry(l, s, p);
    }
  }

  lemma OrderTry(l: Limits, s: State, p: nat)
    requires OrderInv(s) && Enabled(s, SendNext(p)) && !HitsClosed(s, p)
    ensures OrderInv(Apply(l, s, SendNext(p)))
  {
    var s' := Apply(l, s, SendNext(p));
    forall q | 0 <= q < |s'.publishers| ensures PublisherOk(s', s'.publishers[q]) {
      SendPublisher(l, s, p, q);
    }
    forall ch | 0 <= ch < |s'.channels| ensures InOrder(s', ch) {
      SendChannel(l, s, p, ch);
    }
    forall q, r | 0 <= q < r < |s'.publishers| && s'.publishers[q].task == s'.publishers[r].task
      ensures s'.publishers[q].pending == [] || s'.publishers[r].pending == [] {
      SendPublisher(l, s, p, q);
      SendPublisher(l, s, p, r);
    }
  }

  lemma SendPublisher(l: Limits, s: State, p: nat, q: nat)
    requires OrderInv(s) && Enabled(s, SendNext(p)) && !HitsClosed(s, p) && q < |s.publishers|
    ensures var s' := Apply(l, s, SendNext(p));
            && |s'.publishers| == |s.publishers| && PublisherOk(s', s'.publishers[q])
            && s'.publishers[q].task == s.publishers[q].task
            && (s.publishers[q].pending == [] ==> s'.publishers[q].pending == [])
  {
    var s' := Apply(l, s, SendNext(p));
    assert PublisherOk(s, s.publishers[q]);
    if q == p {
      TailIsPart(s.publishers[p].pending);
    }
    PublisherFrame(s, s', s.publishers[q], s'.publishers[q]);
  }

  lemma TailIsPart(pending: seq<nat>)
    requires pending != [] && Distinct(pending)
    ensures Distinct(pending[1..]) && forall ch :: ch in pending[1..] ==> ch in pending
  {
    var tail := pending[1..];
    assert forall i :: 0 <= i < |tail| ==> tail[i] == pending[i + 1];
  }

  /** A publisher with fewer channels to try, in a state with the same tasks and log. */
  lemma PublisherFrame(s: State, s': State, pub: Publisher, pub': Publisher)
    requires PublisherOk(s, pub) && pub'.task == pub.task && pub'.event == pub.event && s'.log == s.log
    requires Distinct(pub'.pending) && forall ch :: ch in pub'.pending ==> ch in pub.pending
    requires |s'.channels| == |s.channels| && forall k :: 0 <= k < |s.channels| ==>
               s'.channels[k].task == s.channels[k].task
    ensures PublisherOk(s', pub')
  {
    if pub'.pending != [] {
      assert pub'.pending[0] in pub.pending;
    }
  }

  lemma SendChannel(l: Limits, s: State, p: nat, ch: nat)
    requires OrderInv(s) && Enabled(s, SendNext(p)) && !HitsClosed(s, p) && ch < |s.channels|
    ensures |Apply(l, s, SendNext(p)).channels| == |s.channels| && InOrder(Apply(l, s, SendNext(p)), ch)
  {
    SendAwaits(l, s, p, ch);
    SendEffect(l, s, p, ch);
    if ch == s.publishers[p].pending[0] {
      Released(s, p, ch);
      TriedInOrder(s, Apply(l, s, SendNext(p)), ch, s.publishers[p].event);
    } else {
      assert InOrder(s, ch);
    }
  }

  lemma SendEffect(l: Limits, s: State, p: nat, ch: nat)
    requires Enabled(s, SendNext(p)) && !HitsClosed(s, p) && ch < |s.channels|
    ensures var s' := Apply(l, s, SendNext(p));
            && |s'.channels| == |s.channels| && s'.log == s.log
            && s'.channels[ch].task == s.channels[ch].task
            && (s'.channels[ch].delivered == s.channels[ch].delivered
                || (ch == s.publishers[p].pending[0]
                    && s'.channels[ch].delivered == s.channels[ch].delivered + [s.publishers[p].event]))
  {
  }

  /** A channel just tried is in order with or without the event, when it is no longer awaited. */
  lemma TriedInOrder(s: State, s': State, ch: nat, event: TaskEvent)
    requires ch < |s.channels| == |s'.channels| && s'.log == s.log && !Awaited(s', ch)
    requires s'.channels[ch].task == s.channels[ch].task
    requires s'.channels[ch].delivered in [s.channels[ch].delivered, s.channels[ch].delivered + [event]]
    requires Subsequence(s.channels[ch].delivered, LogOf(s, s.channels[ch].task))
    requires Subsequence(s.channels[ch].delivered + [event], LogOf(s, s.channels[ch].task))
    ensures InOrder(s', ch)
  {
  }

  lemma SendAwaits(l: Limits, s: State, p: nat, ch: nat)
    requires OrderInv(s) && Enabled(s, SendNext(p)) && !HitsClosed(s, p) && ch < |s.channels|
    ensures Awaited(Apply(l, s, SendNext(p)), ch) <==> Awaited(s, ch) && ch != s.publishers[p].pending[0]
  {
    var s' := Apply(l, s, SendNext(p));
    var pending := s.publishers[p].pending;
    assert PublisherOk(s, s.publishers[p]);
    assert pending == [pending[0]] + pending[1..];
    assert s'.publishers[p].pending == pending[1..];
    if ch == pending[0] {
      forall q | 0 <= q < |s'.publishers| ensures ch !in s'.publishers[q].pending {
        if q != p && ch in s.publishers[q].pending {
          OnlyAwaiter(s, p, q, ch);
        }
      }
    } else {
      forall q | 0 <= q < |s'.publishers| ensures ch in s'.publishers[q].pending <==> ch in s.publishers[q].pending {
        assert q != p ==> s'.publishers[q] == s.publishers[q];
      }
    }
  }

  lemma OrderAbort(l: Limits, s: State, p: nat)
    requires OrderInv(s) && Enabled(s, Abort(p))
    ensures OrderInv(Apply(l, s, Abort(p)))
  {
    var s' := Apply(l, s, Abort(p));
    forall q | 0 <= q < |s'.publishers| ensures PublisherOk(s', s'.publishers[q]) {
      assert PublisherOk(s, s.publishers[q]);
    }
    forall ch | 0 <= ch < |s'.channels| ensures InOrder(s', ch) {
      assert InOrder(s, ch);
      if ch in s.publishers[p].pending {
        Released(s, p, ch);
        forall q | 0 <= q < |s'.publishers| ensures ch !in s'.publishers[q].pending {
          if q != p && ch in s.publishers[q].pending {
            OnlyAwaiter(s, p, q, ch);
          }
        }
      } else {
        assert forall q :: 0 <= q < |s.publishers| ==>
                 (ch in s'.publishers[q].pending <==> ch in s.publishers[q].pending);
        assert Awaited(s', ch) <==> Awaited(s, ch);
      }
    }
  }

  lemma StepKeepsOrder(l: Limits, s: State, step: Step)
    requires Inv(l, s) && OrderInv(s) && Enabled(s, step) && Sequential(s, step)
    ensures OrderInv(Apply(l, s, step))
  {
    match step
    case Subscribe(t) => OrderSubscribe(l, s, t);
    case Snapshot(t, event) => OrderSnapshot(l, s, t, event);
    case SendNext(p) => OrderSend(l, s, p);
    case Abort(p) => OrderAbort(l, s, p);
    case _ => OrderFrame(s, Apply(l, s, step));
  }

  ghost predicate SequentialRun(l: Limits, s: State, steps: seq<Step>)
    requires Possible(l, s, steps)
    decreases |steps|
  {
    steps == [] || (Sequential(s, steps[0]) && SequentialRun(l, Apply(l, s, steps[0]), steps[1..]))
  }

  lemma {:induction false} OrderAlways(l: Limits, s: State, steps: seq<Step>)
    requires Inv(l, s) && OrderInv(s) && Possible(l, s, steps) && SequentialRun(l, s, steps)
    ensures OrderInv(After(l, s, steps))
    decreases |steps|
  {
    if steps != [] {
      StepKeepsInv(l, s, steps[0]);
      StepKeepsOrder(l, s, steps[0]);
      OrderAlways(l, Apply(l, s, steps[0]), steps[1..]);
    }
  }

  /** With sequential publishers every subscriber gets an in-order subsequence of its task's events. */
  lemma DeliveredInOrder(l: Limits, steps: seq<Step>, ch: nat)
    requires Possible(l, INITIAL, steps) && SequentialRun(l, INITIAL, steps)
    requires ch < |After(l, INITIAL, steps).channels|
    ensures var s := After(l, INITIAL, steps);
            Subsequence(s.channels[ch].delivered, LogOf(s, s.channels[ch].task))
  {
    OrderAlways(l, INITIAL, steps);
    var s := After(l, INITIAL, steps);
    assert InOrder(s, ch);
    if Awaited(s, ch) {
      var p :| 0 <= p < |s.publishers| && ch in s.publishers[p].pending;
      Released(s, p, ch);
    }
  }

  // ----- completeness of delivery -----

  /** The step takes nothing from channel `ch` of task `t`: it neither unsubscribes it nor closes the task, stops no
      publisher that has yet to try it, and does not try it while its buffer is full. */
  ghost predicate Undisturbed(l: Limits, s: State, step: Step, t: TaskId, ch: nat)
    requires Enabled(s, step)
  {
    match step
    case Detach(u) => u != t
    case Remove(_, k) => k != ch
    case Abort(p) => ch !in s.publishers[p].pending
    case SendNext(p) =>
      && (HitsClosed(s, p) ==> ch !in s.publishers[p].pending)
      && (s.publishers[p].pending[0] == ch ==> HasRoom(l, s, ch))
    case _ => true
  }

  predicate HasRoom(l: Limits, s: State, ch: nat) {
    ch < |s.channels| && s.channels[ch].buffered < l.bufferSize
  }

  lemma ChannelsStay(l: Limits, s: State, step: Step)
    requires Enabled(s, step)
    ensures |s.channels| <= |Apply(l, s, step).channels|
    ensures forall ch :: 0 <= ch < |s.channels| ==>
              Apply(l, s, step).channels[ch].task == s.channels[ch].task
              && IsPrefix(s.channels[ch].delivered, Apply(l, s, step).channels[ch].delivered)
  {
  }

  predicate IsPrefix<T(==)>(a: seq<T>, b: seq<T>) {
    |a| <= |b| && forall i :: 0 <= i < |a| ==> a[i] == b[i]
  }

  ghost predicate UndisturbedRun(l: Limits, s: State, steps: seq<Step>, t: TaskId, ch: nat)
    requires Possible(l, s, steps)
    decreases |steps|
  {
    steps == []
    || (Undisturbed(l, s, steps[0], t, ch) && UndisturbedRun(l, Apply(l, s, steps[0]), steps[1..], t, ch))
  }

  /** Channel `ch` is subscribed to `t` and was sent every event of `t` after the first ones, `base`, but for the last
      if its publisher has yet to try the channel. */
  ghost predicate Complete(s: State, t: TaskId, ch: nat, base: seq<TaskEvent>) {
    && ch < |s.channels| && s.channels[ch].task == t && ch in SubsOf(s, t)
    && if Awaited(s, ch) then
         LogOf(s, t) != [] && base + s.channels[ch].delivered == LogOf(s, t)[..|LogOf(s, t)| - 1]
       else base + s.channels[ch].delivered == LogOf(s, t)
  }

  lemma CompleteFrame(s: State, s': State, t: TaskId, ch: nat, base: seq<TaskEvent>)
    requires Complete(s, t, ch, base) && s'.publishers == s.publishers && s'.log == s.log && ch < |s'.channels|
    requires s'.channels[ch].task == t && s'.channels[ch].delivered == s.channels[ch].delivered && ch in SubsOf(s', t)
    ensures Complete(s', t, ch, base)
  {
    assert Awaited(s', ch) <==> Awaited(s, ch);
  }

  lemma {:induction false} OthersRemain(list: seq<nat>, k: nat, ch: nat)
    requires ch in list && k != ch
    ensures ch in WithoutFirst(list, k)
  {
    if list[0] != k && list[0] != ch {
      assert list == [list[0]] + list[1..];
      OthersRemain(list[1..], k, ch);
    }
  }

  lemma CompleteSnapshot(l: Limits, s: State, u: TaskId, event: TaskEvent, t: TaskId, ch: nat, base: seq<TaskEvent>)
    requires Inv(l, s) && OrderInv(s) && Complete(s, t, ch, base)
    requires Enabled(s, Snapshot(u, event)) && Sequential(s, Snapshot(u, event))
    ensures Complete(Apply(l, s, Snapshot(u, event)), t, ch, base)
  {
    SnapshotAwaits(l, s, u, event, ch);
    if u == t {
      NotAwaited(s, Snapshot(u, event), ch);
      assert (LogOf(s, t) + [event])[..|LogOf(s, t)|] == LogOf(s, t);
    }
  }

  lemma SubscribedIsOpen(l: Limits, s: State, t: TaskId, ch: nat)
    requires Inv(l, s) && ch in SubsOf(s, t)
    ensures ch < |s.channels| && s.channels[ch].place == Registered
  {
    assert SubsOk(l, s.channels, t, s.subs[t]);
  }

  lemma CompleteSend(l: Limits, s: State, p: nat, t: TaskId, ch: nat, base: seq<TaskEvent>)
    requires Inv(l, s) && OrderInv(s) && Complete(s, t, ch, base)
    requires Enabled(s, SendNext(p)) && Undisturbed(l, s, SendNext(p), t, ch)
    ensures Complete(Apply(l, s, SendNext(p)), t, ch, base)
  {
    SubscribedIsOpen(l, s, t, ch);
    if HitsClosed(s, p) {
      CompleteAbort(l, s, p, t, ch, base);
      CompleteFrame(Apply(l, s, Abort(p)), Apply(l, s, SendNext(p)), t, ch, base);
    } else if s.publishers[p].pending[0] == ch {
      CompleteTried(l, s, p, t, ch, base);
    } else {
      SendAwaits(l, s, p, ch);
    }
  }

  lemma CompleteTried(l: Limits, s: State, p: nat, t: TaskId, ch: nat, base: seq<TaskEvent>)
    requires OrderInv(s) && Complete(s, t, ch, base) && Enabled(s, SendNext(p)) && !HitsClosed(s, p)
    requires s.publishers[p].pending[0] == ch && HasRoom(l, s, ch)
    ensures Complete(Apply(l, s, SendNext(p)), t, ch, base)
  {
    SendAwaits(l, s, p, ch);
    assert PublisherOk(s, s.publishers[p]) && Awaited(s, ch);
    LastDelivered(base, s.channels[ch].delivered, LogOf(s, t), s.publishers[p].event);
  }

  lemma LastDelivered(base: seq<TaskEvent>, delivered: seq<TaskEvent>, log: seq<TaskEvent>, event: TaskEvent)
    requires log != [] && base + delivered == log[..|log| - 1] && event == log[|log| - 1]
    ensures base + (delivered + [event]) == log
  {
    AppendAssoc(base, delivered, [event]);
  }

  lemma CompleteAbort(l: Limits, s: State, p: nat, t: TaskId, ch: nat, base: seq<TaskEvent>)
    requires Complete(s, t, ch, base) && Enabled(s, Abort(p)) && ch !in s.publishers[p].pending
    ensures Complete(Apply(l, s, Abort(p)), t, ch, base)
  {
    var s' := Apply(l, s, Abort(p));
    assert forall q :: 0 <= q < |s.publishers| ==> (ch in s'.publishers[q].pending <==> ch in s.publishers[q].pending);
    assert Awaited(s', ch) <==> Awaited(s, ch);
  }

  lemma StepKeepsComplete(l: Limits, s: State, step: Step, t: TaskId, ch: nat, base: seq<TaskEvent>)
    requires Inv(l, s) && OrderInv(s) && Complete(s, t, ch, base)
    requires Enabled(s, step) && Sequential(s, step) && Undisturbed(l, s, step, t, ch)
    ensures Complete(Apply(l, s, step), t, ch, base)
  {
    match step
    case Snapshot(u, event) => CompleteSnapshot(l, s, u, event, t, ch, base);
    case SendNext(p) => CompleteSend(l, s, p, t, ch, base);
    case Abort(p) => CompleteAbort(l, s, p, t, ch, base);
    case Remove(u, k) => CompleteRemove(l, s, u, k, t, ch, base);
    case _ => CompleteOther(l, s, step, t, ch, base);
  }

  lemma CompleteRemove(l: Limits, s: State, u: TaskId, k: nat, t: TaskId, ch: nat, base: seq<TaskEvent>)
    requires Complete(s, t, ch, base) && k != ch
    ensures Complete(Apply(l, s, Remove(u, k)), t, ch, base)
  {
    OthersRemain(SubsOf(s, t), k, ch);
    CompleteFrame(s, Apply(l, s, Remove(u, k)), t, ch, base);
  }

  lemma CompleteOther(l: Limits, s: State, step: Step, t: TaskId, ch: nat, base: seq<TaskEvent>)
    requires Complete(s, t, ch, base) && Enabled(s, step) && step != Detach(t)
    requires step.Subscribe? || step.Detach? || step.CloseNext? || step.Receive?
    ensures Complete(Apply(l, s, step), t, ch, base)
  {
    CompleteFrame(s, Apply(l, s, step), t, ch, base);
  }

  lemma {:induction false} RunKeepsComplete(l: Limits, s: State, steps: seq<Step>, t: TaskId, ch: nat,
                                            base: seq<TaskEvent>)
    requires Inv(l, s) && OrderInv(s) && Complete(s, t, ch, base)
    requires Possible(l, s, steps) && SequentialRun(l, s, steps) && UndisturbedRun(l, s, steps, t, ch)
    ensures Complete(After(l, s, steps), t, ch, base)
    decreases |steps|
  {
    if steps != [] {
      StepKeepsInv(l, s, steps[0]);
      StepKeepsOrder(l, s, steps[0]);
      StepKeepsComplete(l, s, steps[0], t, ch, base);
      RunKeepsComplete(l, Apply(l, s, steps[0]), steps[1..], t, ch, base);
    }
  }

  /** With sequential publishers, a subscriber below the limit that nothing disturbs is sent every event published since
      it subscribed, in order: all of them once no publisher has yet to try its channel, else all but the last. */
  lemma DeliveredAll(l: Limits, before: seq<Step>, steps: seq<Step>, t: TaskId)
    requires Possible(l, INITIAL, before) && SequentialRun(l, INITIAL, before)
    requires |SubsOf(After(l, INITIAL, before), t)| < l.maxSubscribers
    requires var s := After(l, INITIAL, before);
             var s1 := Apply(l, s, Subscribe(t));
             Possible(l, s1, steps) && SequentialRun(l, s1, steps) && UndisturbedRun(l, s1, steps, t, |s.channels|)
    ensures var s := After(l, INITIAL, before);
            var ch, s' := |s.channels|, After(l, Apply(l, s, Subscribe(t)), steps);
            && ch < |s'.channels| && ch in SubsOf(s', t)
            && (!Awaited(s', ch) ==> LogOf(s', t) == LogOf(s, t) + s'.channels[ch].delivered)
            && (Awaited(s', ch) ==>
                  LogOf(s', t) != []
                  && LogOf(s', t)[..|LogOf(s', t)| - 1] == LogOf(s, t) + s'.channels[ch].delivered)
  {
    OrderAlways(l, INITIAL, before);
    InvAlways(l, INITIAL, before);
    var s := After(l, INITIAL, before);
    var s1 := Apply(l, s, Subscribe(t));
    SubscribeKeepsInv(l, s, t);
    OrderSubscribe(l, s, t);
    NewIsComplete(l, s, t);
    RunKeepsComplete(l, s1, steps, t, |s.channels|, LogOf(s, t));
  }

  lemma NewIsComplete(l: Limits, s: State, t: TaskId)
    requires OrderInv(s) && |SubsOf(s, t)| < l.maxSubscribers
    ensures Complete(Apply(l, s, Subscribe(t)), t, |s.channels|, LogOf(s, t))
  {
    var s', ch := Apply(l, s, Subscribe(t)), |s.channels|;
    forall p | 0 <= p < |s'.publishers| ensures ch !in s'.publishers[p].pending {
      assert PublisherOk(s, s.publishers[p]);
    }
    assert LogOf(s, t) + [] == LogOf(s, t);
    assert SubsOf(s', t)[|SubsOf(s, t)|] == ch;
  }

  /** The step does not keep publisher `p` from delivering to `ch`: it does not stop it, and does not try the channel
      while it is closed or full. */
  ghost predicate LetsThrough(l: Limits, s: State, step: Step, p: nat, ch: nat)
    requires Enabled(s, step)
  {
    && step != Abort(p)
    && (step == SendNext(p) ==> !HitsClosed(s, p) && (s.publishers[p].pending[0] == ch ==> HasRoom(l, s, ch)))
  }

  ghost predicate LetsThroughRun(l: Limits, s: State, steps: seq<Step>, p: nat, ch: nat)
    requires Possible(l, s, steps)
    decreases |steps|
  {
    steps == []
    || (LetsThrough(l, s, steps[0], p, ch) && LetsThroughRun(l, Apply(l, s, steps[0]), steps[1..], p, ch))
  }

  /** Whatever the interleaving, an event misses a channel its publisher found registered only if the channel was closed
      or full when tried, or the publisher stopped before. */
  lemma {:induction false} SentUnlessHindered(l: Limits, s: State, steps: seq<Step>, p: nat, ch: nat)
    requires Possible(l, s, steps) && p < |s.publishers| && ch < |s.channels| && ch in s.publishers[p].pending
    requires LetsThroughRun(l, s, steps, p, ch)
    ensures var s' := After(l, s, steps);
            && p < |s'.publishers| && ch < |s'.channels|
            && IsPrefix(s.channels[ch].delivered, s'.channels[ch].delivered)
            && (ch in s'.publishers[p].pending
                || s.publishers[p].event in s'.channels[ch].delivered[|s.channels[ch].delivered|..])
    decreases |steps|
  {
    if steps != [] {
      var s1, s' := Apply(l, s, steps[0]), After(l, s, steps);
      var n := |s.channels[ch].delivered|;
      ChannelsStay(l, s, steps[0]);
      StepSends(l, s, steps[0], p, ch);
      DeliveredGrows(l, s1, steps[1..], ch);
      if ch in s1.publishers[p].pending {
        SentUnlessHindered(l, s1, steps[1..], p, ch);
      } else {
        assert s'.channels[ch].delivered[n..][0] == s.publishers[p].event;
      }
    }
  }

  lemma StepSends(l: Limits, s: State, step: Step, p: nat, ch: nat)
    requires Enabled(s, step) && p < |s.publishers| && ch < |s.channels| && ch in s.publishers[p].pending
    requires LetsThrough(l, s, step, p, ch)
    ensures p < |Apply(l, s, step).publishers| && ch < |Apply(l, s, step).channels|
    ensures Apply(l, s, step).publishers[p].event == s.publishers[p].event
    ensures ch in Apply(l, s, step).publishers[p].pending
            || Apply(l, s, step).channels[ch].delivered == s.channels[ch].delivered + [s.publishers[p].event]
  {
    var pending := s.publishers[p].pending;
    assert pending == [pending[0]] + pending[1..];
  }

  /** What was delivered stays, and a publisher is never forgotten. */
  lemma {:induction false} DeliveredGrows(l: Limits, s: State, steps: seq<Step>, ch: nat)
    requires Possible(l, s, steps) && ch < |s.channels|
    ensures var s' := After(l, s, steps);
            && ch < |s'.channels| && |s.publishers| <= |s'.publishers|
            && IsPrefix(s.channels[ch].delivered, s'.channels[ch].delivered)
    decreases |steps|
  {
    if steps != [] {
      ChannelsStay(l, s, steps[0]);
      DeliveredGrows(l, Apply(l, s, steps[0]), steps[1..], ch);
    }
  }

  // ----- reading, leaving and closing -----

  /** How often the subscriber of `ch` read. */
  function Reads(steps: seq<Step>, ch: nat): nat {
    if steps == [] then 0 else (if steps[0] == Receive(ch) then 1 else 0) + Reads(steps[1..], ch)
  }

  lemma StepReads(l: Limits, s: State, step: Step, ch: nat)
    requires Enabled(s, step) && ch < |s.channels|
    ensures ch < |Apply(l, s, step).channels|
    ensures |Apply(l, s, step).channels[ch].delivered| - Apply(l, s, step).channels[ch].buffered
         == |s.channels[ch].delivered| - s.channels[ch].buffered + if step == Receive(ch) then 1 else 0
  {
  }

  /** Every delivered event is still buffered or was read: reads and buffer add up to what was delivered. */
  lemma {:induction false} ReadsAndBuffer(l: Limits, s: State, steps: seq<Step>, ch: nat)
    requires Inv(l, s) && Possible(l, s, steps) && ch < |s.channels|
    ensures var s' := After(l, s, steps);
            && ch < |s'.channels|
            && |s'.channels[ch].delivered| - s'.channels[ch].buffered
                 == |s.channels[ch].delivered| - s.channels[ch].buffered + Reads(steps, ch)
    decreases |steps|
  {
    if steps != [] {
      StepReads(l, s, steps[0], ch);
      StepKeepsInv(l, s, steps[0]);
      ReadsAndBuffer(l, Apply(l, s, steps[0]), steps[1..], ch);
    }
  }

  /** The subscriber can read everything it was sent. */
  lemma {:induction false} CanReadAll(l: Limits, s: State, ch: nat) returns (steps: seq<Step>)
    requires Inv(l, s) && ch < |s.channels|
    ensures Possible(l, s, steps) && |steps| == s.channels[ch].buffered && Reads(steps, ch) == |steps|
    ensures ch < |After(l, s, steps).channels| && After(l, s, steps).channels[ch].buffered == 0
    decreases s.channels[ch].buffered
  {
    if s.channels[ch].buffered == 0 {
      return [];
    }
    StepKeepsInv(l, s, Receive(ch));
    var rest := CanReadAll(l, Apply(l, s, Receive(ch)), ch);
    RunCons(l, s, Receive(ch), rest);
    steps := [Receive(ch)] + rest;
    assert steps[1..] == rest;
  }

  /** A closed channel stays closed, and no task has it. */
  lemma {:induction false} ClosedStays(l: Limits, s: State, steps: seq<Step>, ch: nat)
    requires Inv(l, s) && Possible(l, s, steps) && ch < |s.channels| && s.channels[ch].place.Closed?
    ensures var s' := After(l, s, steps);
            ch < |s'.channels| && s'.channels[ch].place.Closed? && forall t :: ch !in SubsOf(s', t)
    decreases |steps|
  {
    if steps == [] {
      forall t ensures ch !in SubsOf(s, t) {
        assert t in s.subs ==> SubsOk(l, s.channels, t, s.subs[t]);
      }
    } else {
      StepKeepsInv(l, s, steps[0]);
      StepKeepsClosed(l, s, steps[0], ch);
      ClosedStays(l, Apply(l, s, steps[0]), steps[1..], ch);
    }
  }

  lemma StepKeepsClosed(l: Limits, s: State, step: Step, ch: nat)
    requires Inv(l, s) && Enabled(s, step) && ch < |s.channels| && s.channels[ch].place.Closed?
    ensures ch < |Apply(l, s, step).channels| && Apply(l, s, step).channels[ch].place.Closed?
  {
    if step.Detach? && step.t in s.subs {
      assert SubsOk(l, s.channels, step.t, s.subs[step.t]);
    }
  }

  /** A subscriber that leaves has its channel closed for good. */
  lemma LeavingCloses(l: Limits, s: State, t: TaskId, ch: nat, steps: seq<Step>)
    requires Inv(l, s) && ch in SubsOf(s, t) && Possible(l, Apply(l, s, Remove(t, ch)), steps)
    ensures var s' := After(l, Apply(l, s, Remove(t, ch)), steps);
            ch < |s'.channels| && s'.channels[ch].place.Closed? && forall u :: ch !in SubsOf(s', u)
  {
    SubscribedIsOpen(l, s, t, ch);
    StepKeepsInv(l, s, Remove(t, ch));
    ClosedStays(l, Apply(l, s, Remove(t, ch)), steps, ch);
  }

  /** Closer `c` has yet to close `ch`, or it is closed. */
  ghost predicate ClosingOrClosed(s: State, c: nat, ch: nat) {
    c < |s.closers| && ch < |s.channels| && (ch in s.closers[c] || s.channels[ch].place.Closed?)
  }

  /** A task that is closed has no subscriber left, and every channel it had is closed once the closer is through. */
  lemma ClosingClosesAll(l: Limits, s: State, t: TaskId, steps: seq<Step>)
    requires Inv(l, s) && Possible(l, Apply(l, s, Detach(t)), steps)
    ensures SubsOf(Apply(l, s, Detach(t)), t) == []
    ensures var s' := After(l, Apply(l, s, Detach(t)), steps);
            var c := |s.closers|;
            && c < |s'.closers|
            && (s'.closers[c] == [] ==>
                  forall ch :: ch in SubsOf(s, t) ==> ch < |s'.channels| && s'.channels[ch].place.Closed?)
  {
    var s1, c := Apply(l, s, Detach(t)), |s.closers|;
    DetachKeepsInv(l, s, t);
    ClosersStay(l, s1, steps);
    forall ch | ch in SubsOf(s, t) ensures ClosingOrClosed(After(l, s1, steps), c, ch) {
      SubscribedIsOpen(l, s, t, ch);
      ClosingGoesOn(l, s1, steps, c, ch);
    }
  }

  lemma {:induction false} ClosersStay(l: Limits, s: State, steps: seq<Step>)
    requires Possible(l, s, steps)
    ensures |s.closers| <= |After(l, s, steps).closers|
    decreases |steps|
  {
    if steps != [] {
      ClosersStay(l, Apply(l, s, steps[0]), steps[1..]);
    }
  }

  lemma {:induction false} ClosingGoesOn(l: Limits, s: State, steps: seq<Step>, c: nat, ch: nat)
    requires Inv(l, s) && Possible(l, s, steps) && ClosingOrClosed(s, c, ch)
    ensures ClosingOrClosed(After(l, s, steps), c, ch)
    decreases |steps|
  {
    if steps != [] {
      StepKeepsInv(l, s, steps[0]);
      StepKeepsClosing(l, s, steps[0], c, ch);
      ClosingGoesOn(l, Apply(l, s, steps[0]), steps[1..], c, ch);
    }
  }

  lemma StepKeepsClosing(l: Limits, s: State, step: Step, c: nat, ch: nat)
    requires Inv(l, s) && Enabled(s, step) && ClosingOrClosed(s, c, ch)
    ensures ClosingOrClosed(Apply(l, s, step), c, ch)
  {
    ChannelsStay(l, s, step);
    if s.channels[ch].place.Closed? {
      StepKeepsClosed(l, s, step, ch);
    } else if step == CloseNext(c) {
      assert s.closers[c] == [s.closers[c][0]] + s.closers[c][1..];
    }
  }

  /** A publisher has fewer and fewer channels to try; one that stopped, or whose send hit a closed channel, tries
      none. */
  lemma {:induction false} PendingShrinks(l: Limits, s: State, steps: seq<Step>, p: nat)
    requires Possible(l, s, steps) && p < |s.publishers|
    ensures var s' := After(l, s, steps);
            && p < |s'.publishers| && |s'.publishers[p].pending| <= |s.publishers[p].pending|
            && (steps != [] && (steps[0] == Abort(p) || (steps[0] == SendNext(p) && HitsClosed(s, p))) ==>
                  s'.publishers[p].pending == [])
    decreases |steps|
  {
    if steps != [] {
      PendingShrinks(l, Apply(l, s, steps[0]), steps[1..], p);
    }
  }

  // ----- sending on a closed channel -----

  /** The lock is released before the sends, so a subscriber that leaves in between makes `Publish` panic. */
  lemma PublishCanPanic(l: Limits, t: TaskId, event: TaskEvent)
    requires l.maxSubscribers >= 1
    ensures var steps := [Subscribe(t), Snapshot(t, event), Remove(t, 0), SendNext(0)];
            Possible(l, INITIAL, steps) && After(l, INITIAL, steps).panicked
  {
    var s1 := Apply(l, INITIAL, Subscribe(t));
    assert SubsOf(s1, t) == [0];
    var s2 := Apply(l, s1, Snapshot(t, event));
    assert s2.publishers == [Publisher(t, event, [0])];
    var s3 := Apply(l, s2, Remove(t, 0));
    assert s3.channels[0].place.Closed?;
    var s4 := Apply(l, s3, SendNext(0));
    assert s4.panicked;
    RunCons(l, s3, SendNext(0), []);
    RunCons(l, s2, Remove(t, 0), [SendNext(0)] + []);
    RunCons(l, s1, Snapshot(t, event), [Remove(t, 0)] + ([SendNext(0)] + []));
    RunCons(l, INITIAL, Subscribe(t), [Snapshot(t, event)] + ([Remove(t, 0)] + ([SendNext(0)] + [])));
    FourSteps(Subscribe(t), Snapshot(t, event), Remove(t, 0), SendNext(0));
  }

  lemma FourSteps(a: Step, b: Step, c: Step, d: Step)
    ensures [a] + ([b] + ([c] + ([d] + []))) == [a, b, c, d]
  {
  }

  lemma RunCons(l: Limits, s: State, step: Step, rest: seq<Step>)
    requires Enabled(s, step) && Possible(l, Apply(l, s, step), rest)
    ensures Possible(l, s, [step] + rest)
    ensures After(l, s, [step] + rest) == After(l, Apply(l, s, step), rest)
  {
    assert ([step] + rest)[1..] == rest;
  }

  ghost predicate SomeClosed(channels: seq<Channel>, pending: seq<nat>) {
    exists i :: 0 <= i < |pending| && pending[i] < |channels| && channels[pending[i]].place.Closed?
  }

  /** A channel publisher `p` has yet to try was closed since its snapshot. */
  ghost predicate Exposed(s: State, p: nat)
    requires p < |s.publishers|
  {
    SomeClosed(s.channels, s.publishers[p].pending)
  }

  /** No send has hit a closed channel so far, and none is about to. */
  ghost predicate Unexposed(s: State) {
    !s.panicked && forall p :: 0 <= p < |s.publishers| ==> !Exposed(s, p)
  }

  /** The step closes a channel that some publisher has yet to try. */
  ghost predicate ClosesAwaited(s: State, step: Step)
    requires Enabled(s, step)
  {
    match step
    case CloseNext(c) => Awaited(s, s.closers[c][0])
    case Remove(t, ch) => ch in SubsOf(s, t) && Awaited(s, ch)
    case _ => false
  }

  /** No step of the run closes a channel that some publisher has yet to try. */
  ghost predicate Guarded(l: Limits, s: State, steps: seq<Step>)
    requires Possible(l, s, steps)
    decreases |steps|
  {
    steps == [] || (!ClosesAwaited(s, steps[0]) && Guarded(l, Apply(l, s, steps[0]), steps[1..]))
  }

  /** A step of a `Publish` call that took its snapshot before. */
  predicate IsPublishing(step: Step) {
    step.SendNext? || step.Abort?
  }

  ghost predicate OnlyPublishing(steps: seq<Step>) {
    forall i :: 0 <= i < |steps| ==> IsPublishing(steps[i])
  }

  /** The `Publish` calls under way can go on so that one of them panics, or one already did. */
  ghost predicate CanPanic(l: Limits, s: State) {
    exists more :: OnlyPublishing(more) && Possible(l, s, more) && After(l, s, more).panicked
  }

  /** At some moment of the run the `Publish` calls under way can go on so that one of them panics. */
  ghost predicate CanPanicDuring(l: Limits, s: State, steps: seq<Step>)
    requires Possible(l, s, steps)
    decreases |steps|
  {
    CanPanic(l, s) || (steps != [] && CanPanicDuring(l, Apply(l, s, steps[0]), steps[1..]))
  }

  /** A step that closes no awaited channel exposes no publisher. */
  lemma GuardedStepKeepsUnexposed(l: Limits, s: State, step: Step)
    requires Inv(l, s) && Unexposed(s) && Enabled(s, step) && !ClosesAwaited(s, step)
    ensures Unexposed(Apply(l, s, step))
  {
    match step
    case Subscribe(t) =>
      OtherStepKeepsUnexposed(l, s, step);
    case Snapshot(t, event) =>
      SnapshotKeepsUnexposed(l, s, t, event);
    case SendNext(p) =>
      assert !Exposed(s, p);
      SendKeepsUnexposed(l, s, p);
    case Abort(p) =>
      AbortKeepsUnexposed(l, s, p);
    case CloseNext(c) =>
      CloseNextKeepsUnexposed(l, s, c);
    case Remove(t, ch) =>
      RemoveKeepsUnexposed(l, s, t, ch);
    case _ =>
      OtherStepKeepsUnexposed(l, s, step);
  }

  /** No channel newly stands among the pending ones and none becomes closed. */
  lemma UnexposedFrame(s: State, s': State)
    requires Unexposed(s) && !s'.panicked && s'.publishers == s.publishers && |s.channels| <= |s'.channels|
    requires forall k :: 0 <= k < |s.channels| && s'.channels[k].place.Closed? ==> s.channels[k].place.Closed?
    requires forall k :: |s.channels| <= k < |s'.channels| ==> !s'.channels[k].place.Closed?
    ensures Unexposed(s')
  {
    forall p | 0 <= p < |s'.publishers| ensures !Exposed(s', p) {
      assert !Exposed(s, p);
    }
  }

  lemma OtherStepKeepsUnexposed(l: Limits, s: State, step: Step)
    requires Unexposed(s) && Enabled(s, step) && (step.Subscribe? || step.Detach? || step.Receive?)
    ensures Unexposed(Apply(l, s, step))
  {
    UnexposedFrame(s, Apply(l, s, step));
  }

  lemma SnapshotKeepsUnexposed(l: Limits, s: State, t: TaskId, event: TaskEvent)
    requires Inv(l, s) && Unexposed(s) && Enabled(s, Snapshot(t, event))
    ensures Unexposed(Apply(l, s, Snapshot(t, event)))
  {
    var s' := Apply(l, s, Snapshot(t, event));
    assert t in s.subs ==> SubsOk(l, s.channels, t, s.subs[t]);
    forall p | 0 <= p < |s'.publishers| ensures !Exposed(s', p) {
      if p < |s.publishers| {
        assert !Exposed(s, p);
      }
    }
  }

  lemma SendKeepsUnexposed(l: Limits, s: State, p: nat)
    requires Unexposed(s) && Enabled(s, SendNext(p))
    ensures Unexposed(Apply(l, s, SendNext(p)))
  {
    var s', pending := Apply(l, s, SendNext(p)), s.publishers[p].pending;
    assert !Exposed(s, p);
    assert pending[0] < |s.channels| ==> !s.channels[pending[0]].place.Closed?;
    forall q | 0 <= q < |s'.publishers| ensures !Exposed(s', q) {
      assert !Exposed(s, q);
      assert q == p ==> forall i :: 0 <= i < |pending| - 1 ==> s'.publishers[q].pending[i] == pending[i + 1];
    }
  }

  lemma AbortKeepsUnexposed(l: Limits, s: State, p: nat)
    requires Unexposed(s) && Enabled(s, Abort(p))
    ensures Unexposed(Apply(l, s, Abort(p)))
  {
    var s' := Apply(l, s, Abort(p));
    forall q | 0 <= q < |s'.publishers| ensures !Exposed(s', q) {
      assert !Exposed(s, q);
    }
  }

  lemma CloseUnawaited(s: State, ch: nat)
    requires Unexposed(s) && !Awaited(s, ch)
    ensures Unexposed(CloseChannel(s, ch))
  {
    var s' := CloseChannel(s, ch);
    forall p | 0 <= p < |s'.publishers| ensures !Exposed(s', p) {
      assert !Exposed(s, p) && ch !in s.publishers[p].pending;
      assert forall i :: 0 <= i < |s.publishers[p].pending| ==> s.publishers[p].pending[i] != ch;
    }
  }

  lemma CloseNextKeepsUnexposed(l: Limits, s: State, c: nat)
    requires Unexposed(s) && Enabled(s, CloseNext(c)) && !ClosesAwaited(s, CloseNext(c))
    ensures Unexposed(Apply(l, s, CloseNext(c)))
  {
    var left := s.(closers := s.closers[c := s.closers[c][1..]]);
    UnexposedFrame(s, left);
    assert !Awaited(left, s.closers[c][0]);
    CloseUnawaited(left, s.closers[c][0]);
  }

  lemma RemoveKeepsUnexposed(l: Limits, s: State, t: TaskId, ch: nat)
    requires Unexposed(s) && !ClosesAwaited(s, Remove(t, ch))
    ensures Unexposed(Apply(l, s, Remove(t, ch)))
  {
    if ch in SubsOf(s, t) {
      var rest := WithoutFirst(SubsOf(s, t), ch);
      var left := s.(subs := if rest == [] then s.subs - {t} else s.subs[t := rest]);
      UnexposedFrame(s, left);
      assert !Awaited(left, ch);
      CloseUnawaited(left, ch);
    } else {
      UnexposedFrame(s, Apply(l, s, Remove(t, ch)));
    }
  }

  /** A step that closes an awaited channel exposes the publisher that has yet to try it. */
  lemma UnguardedStepExposes(l: Limits, s: State, step: Step) returns (p: nat)
    requires Inv(l, s) && Enabled(s, step) && ClosesAwaited(s, step)
    ensures p < |Apply(l, s, step).publishers| && Exposed(Apply(l, s, step), p)
  {
    var s' := Apply(l, s, step);
    var ch := if step.CloseNext? then s.closers[step.c][0] else step.ch;
    if step.CloseNext? {
      assert CloserOk(s.channels, step.c, s.closers[step.c]);
    } else {
      assert SubsOk(l, s.channels, step.t, s.subs[step.t]);
    }
    p :| 0 <= p < |s.publishers| && ch in s.publishers[p].pending;
    var i :| 0 <= i < |s.publishers[p].pending| && s.publishers[p].pending[i] == ch;
    assert s'.publishers[p].pending[i] < |s'.channels| && s'.channels[s'.publishers[p].pending[i]].place.Closed?;
  }

  /** An exposed publisher that goes on panics. */
  lemma {:induction false} ExposedCanPanic(l: Limits, s: State, p: nat) returns (more: seq<Step>)
    requires p < |s.publishers| && Exposed(s, p)
    ensures OnlyPublishing(more) && Possible(l, s, more) && After(l, s, more).panicked
    decreases |s.publishers[p].pending|
  {
    var s' := Apply(l, s, SendNext(p));
    if HitsClosed(s, p) {
      more := [SendNext(p)];
      RunCons(l, s, SendNext(p), []);
      assert [SendNext(p)] + [] == [SendNext(p)];
    } else {
      SendKeepsExposed(l, s, p);
      var rest := ExposedCanPanic(l, s', p);
      RunCons(l, s, SendNext(p), rest);
      more := [SendNext(p)] + rest;
    }
  }

  /** A send that does not panic leaves its publisher as exposed as it was. */
  lemma SendKeepsExposed(l: Limits, s: State, p: nat)
    requires Enabled(s, SendNext(p)) && !HitsClosed(s, p) && Exposed(s, p)
    ensures var s' := Apply(l, s, SendNext(p));
            |s'.publishers| == |s.publishers| && Exposed(s', p)
                && |s'.publishers[p].pending| < |s.publishers[p].pending|
  {
    var s', pending := Apply(l, s, SendNext(p)), s.publishers[p].pending;
    var i :| 0 <= i < |pending| && pending[i] < |s.channels| && s.channels[pending[i]].place.Closed?;
    assert s'.publishers[p].pending[i - 1] == pending[i];
    assert s'.channels[pending[i]].place == s.channels[pending[i]].place;
  }

  /** While no publisher is exposed, the `Publish` calls under way cannot panic. */
  lemma {:induction false} UnexposedCannotPanic(l: Limits, s: State, more: seq<Step>)
    requires Unexposed(s) && OnlyPublishing(more) && Possible(l, s, more)
    ensures !After(l, s, more).panicked
    decreases |more|
  {
    if more != [] {
      var step := more[0];
      assert IsPublishing(step);
      if step.SendNext? {
        SendKeepsUnexposed(l, s, step.p);
      } else {
        AbortKeepsUnexposed(l, s, step.p);
      }
      assert forall i :: 0 <= i < |more[1..]| ==> more[1..][i] == more[i + 1];
      UnexposedCannotPanic(l, Apply(l, s, step), more[1..]);
    }
  }

  /** The `Publish` calls under way can panic if and only if one of them is exposed, or one already did. */
  lemma PanicsIffExposed(l: Limits, s: State)
    ensures CanPanic(l, s) <==> !Unexposed(s)
  {
    if Unexposed(s) {
      forall more | OnlyPublishing(more) && Possible(l, s, more) ensures !After(l, s, more).panicked {
        UnexposedCannotPanic(l, s, more);
      }
    } else if s.panicked {
      assert OnlyPublishing([]) && Possible(l, s, []) && After(l, s, []).panicked;
    } else {
      var p :| 0 <= p < |s.publishers| && Exposed(s, p);
      var more := ExposedCanPanic(l, s, p);
    }
  }

  /** From any state without an exposed publisher, over every interleaving: a panic is possible at some moment of the
      run if and only if some step of the run closes a channel that a publisher has yet to try. */
  lemma {:induction false} PanicsIffUnguarded(l: Limits, s: State, steps: seq<Step>)
    requires Inv(l, s) && Unexposed(s) && Possible(l, s, steps)
    ensures CanPanicDuring(l, s, steps) <==> !Guarded(l, s, steps)
    ensures Guarded(l, s, steps) ==> !After(l, s, steps).panicked
    decreases |steps|
  {
    PanicsIffExposed(l, s);
    if steps != [] {
      var s' := Apply(l, s, steps[0]);
      if ClosesAwaited(s, steps[0]) {
        var p := UnguardedStepExposes(l, s, steps[0]);
        PanicsIffExposed(l, s');
        assert CanPanicDuring(l, s', steps[1..]);
      } else {
        StepKeepsInv(l, s, steps[0]);
        GuardedStepKeepsUnexposed(l, s, steps[0]);
        PanicsIffUnguarded(l, s', steps[1..]);
      }
    }
  }

  /** The same for every run from the start. */
  lemma PublishPanicsIffUnguarded(l: Limits, steps: seq<Step>)
    requires Possible(l, INITIAL, steps)
    ensures CanPanicDuring(l, INITIAL, steps) <==> !Guarded(l, INITIAL, steps)
    ensures Guarded(l, INITIAL, steps) ==> !After(l, INITIAL, steps).panicked
  {
    PanicsIffUnguarded(l, INITIAL, steps);
  }
}
