/** What a schedule asks for, read off its steps: the calls that were made, what each invocation's handler yielded, and
    what was broadcast. Session's state is compared with it. */
module SessionHistory {
  import opened Prelude
  import opened Frames
  import opened HubClient
  import opened Session
  import Q = ResponseQueue

  /** A handler's value, serialized, or its exception. */
  datatype Yield = Value(payload: bytes) | Exception(body: ErrorBody)

  /** A method and its serialized argument. */
  datatype Asked = Asked(methodId: int, payload: bytes)

  /** `results[k]`: what the handler of the k-th message taken from the request stream yielded, in order. */
  datatype History = History(calls: seq<Asked>, fired: seq<Asked>, results: seq<seq<Yield>>, broadcasts: seq<(int, bytes)>)

  function Yielded(results: seq<seq<Yield>>, y: Yield): seq<seq<Yield>> {
    if results == [] then [] else results[|results| - 1 := results[|results| - 1] + [y]]
  }

  /** The main loop takes a message it has a handler for. */
  predicate Takes(cfg: Config, s: Session)
    requires |s.server.served| < |s.up.wire|
  {
    var h := FetchHeader(s.up.wire[|s.server.served|]);
    h.Some? && h.value.methodId in cfg.handlers
  }

  function Record(cfg: Config, s: Session, h: History, step: Step): History
    requires Enabled(cfg, s, step)
  {
    match step
    case RegisterCall(methodId, payload) => h.(calls := h.calls + [Asked(methodId, payload)])
    case Fire(methodId, payload) => h.(fired := h.fired + [Asked(methodId, payload)])
    case Begin => if Takes(cfg, s) then h.(results := h.results + [[]]) else h
    case Respond(payload) => h.(results := Yielded(h.results, Value(payload)))
    case Throw(body) => h.(results := Yielded(h.results, Exception(body)))
    case BroadcastToClient(methodId, payload) =>
      if s.down.outbox.completed then h else h.(broadcasts := h.broadcasts + [(methodId, payload)])
    case _ => h
  }

  /** The history of a schedule from the start; steps that are not enabled are not taken. */
  function HistoryOf(cfg: Config, steps: seq<Step>): History {
    if steps == [] then History([], [], [], [])
    else
      var front, step := steps[..|steps| - 1], steps[|steps| - 1];
      var s := Run(cfg, Connected(), front);
      if Enabled(cfg, s, step) then Record(cfg, s, HistoryOf(cfg, front), step) else HistoryOf(cfg, front)
  }

  // ----- what the state must show

  /** The frame, read as the client reads it, carries what was yielded to the request. */
  predicate Carries(h: Header, y: Yield, frame: bytes) {
    match y
    case Value(payload) => ReadServerFrame(frame) == ResponseTo(h.messageId, h.methodId, payload)
    case Exception(body) => ReadServerFrame(frame) == ErrorTo(h.messageId, body)
  }

  /** What the caller gets for it: the value as the method's result type, or the error's parts. */
  ghost predicate Delivers(ty: int, y: Yield, o: Outcome) {
    match y
    case Value(payload) => o == Result(ty, payload)
    case Exception(body) => IsErrorOf(body, o)
  }

  predicate InvocationCarries(inv: Invocation, results: seq<Yield>) {
    inv.header.messageId != VOID_MESSAGE_ID ==>
      |inv.replies| == |results| && forall i | 0 <= i < |results| :: Carries(inv.header, results[i], inv.replies[i])
  }

  predicate ServerCarries(server: Server, results: seq<seq<Yield>>) {
    |results| == |server.served| && forall k | 0 <= k < |results| :: InvocationCarries(server.served[k], results[k])
  }

  predicate IsCallOf(cfg: Config, call: Call, a: Asked) {
    && call.methodId == a.methodId && call.payload == a.payload
    && a.methodId in cfg.hub.cases && call.ty == cfg.hub.cases[a.methodId]
  }

  predicate CallsAre(cfg: Config, calls: seq<Call>, asked: seq<Asked>) {
    |calls| == |asked| && forall n | 0 <= n < |calls| :: IsCallOf(cfg, calls[n], asked[n])
  }

  predicate VoidsAre(voids: seq<bytes>, fired: seq<Asked>) {
    |voids| == |fired| && forall n | 0 <= n < |voids| :: FetchHeader(voids[n]) == Some(Header(fired[n].methodId, VOID_MESSAGE_ID, fired[n].payload))
  }

  /** The broadcasts among frames. */
  function BroadcastsIn(log: seq<bytes>): seq<(int, bytes)> {
    if log == [] then []
    else
      var last := ReadServerFrame(log[|log| - 1]);
      BroadcastsIn(log[..|log| - 1]) + if last.BroadcastOf? then [(last.methodId, last.payload)] else []
  }

  predicate Shows(cfg: Config, s: Session, h: History) {
    && CallsAre(cfg, s.client.calls, h.calls) && VoidsAre(s.up.voids, h.fired)
    && ServerCarries(s.server, h.results)
    && BroadcastsIn(s.down.outbox.accepted) == h.broadcasts
    && s.down.consumed <= |s.down.stream| && s.client.received == BroadcastsIn(Seen(s.down))
  }

  lemma {:induction false} BroadcastsBehindMarker(log: seq<bytes>)
    ensures BroadcastsIn([Marker()] + log) == BroadcastsIn(log)
  {
    if log == [] {
      ServerFramesRoundTrip(0, 0, [], ErrorBody(0, None, None));
      BroadcastsMore([], Marker());
      assert [Marker()] + log == [] + [Marker()];
    } else {
      BroadcastsBehindMarker(log[..|log| - 1]);
      assert ([Marker()] + log)[..|log|] == [Marker()] + log[..|log| - 1];
    }
  }

  // ----- steps

  lemma BroadcastsMore(log: seq<bytes>, frame: bytes)
    ensures var f := ReadServerFrame(frame);
            BroadcastsIn(log + [frame]) == BroadcastsIn(log) + if f.BroadcastOf? then [(f.methodId, f.payload)] else []
  {
    assert (log + [frame])[..|log|] == log;
  }

  lemma {:induction false} BroadcastsPrefix(log: seq<bytes>, longer: seq<bytes>)
    requires log <= longer
    ensures BroadcastsIn(log) <= BroadcastsIn(longer)
    decreases |longer|
  {
    if log != longer {
      BroadcastsPrefix(log, longer[..|longer| - 1]);
    } else {
      assert log == longer;
    }
  }

  lemma RegisterShows(cfg: Config, s: Session, h: History, methodId: int, payload: bytes)
    requires Shows(cfg, s, h) && Enabled(cfg, s, RegisterCall(methodId, payload))
    ensures Shows(cfg, Apply(cfg, s, RegisterCall(methodId, payload)), Record(cfg, s, h, RegisterCall(methodId, payload)))
  {
  }

  lemma FireShows(cfg: Config, s: Session, h: History, methodId: int, payload: bytes)
    requires Shows(cfg, s, h) && Enabled(cfg, s, Fire(methodId, payload))
    ensures Shows(cfg, Apply(cfg, s, Fire(methodId, payload)), Record(cfg, s, h, Fire(methodId, payload)))
  {
    RequestsRoundTrip(0, methodId, payload);
  }

  lemma BeginShows(cfg: Config, s: Session, h: History)
    requires Shows(cfg, s, h) && Enabled(cfg, s, Begin)
    ensures Shows(cfg, Apply(cfg, s, Begin), Record(cfg, s, h, Begin))
  {
  }

  lemma YieldCarried(server: Server, results: seq<seq<Yield>>, y: Yield, frame: bytes, server': Server)
    requires ServerCarries(server, results) && server.served != [] && Carries(Current(server).header, y, frame)
    requires server'.served == server.served[|server.served| - 1 := Invocation(Current(server).header, Current(server).replies + [frame])]
    ensures ServerCarries(server', Yielded(results, y))
  {
    var last := |server.served| - 1;
    forall k | 0 <= k < |results| ensures InvocationCarries(server'.served[k], Yielded(results, y)[k]) {
      assert InvocationCarries(server.served[k], results[k]);
    }
  }

  lemma VoidYield(server: Server, results: seq<seq<Yield>>, y: Yield)
    requires ServerCarries(server, results) && server.served != [] && Current(server).header.messageId == VOID_MESSAGE_ID
    ensures ServerCarries(server, Yielded(results, y))
  {
    forall k | 0 <= k < |results| ensures InvocationCarries(server.served[k], Yielded(results, y)[k]) {
      assert InvocationCarries(server.served[k], results[k]);
    }
  }

  /** A frame that is no broadcast is queued. */
  lemma QueueShows(q: Q.Queue, frame: bytes)
    requires !ReadServerFrame(frame).BroadcastOf?
    ensures BroadcastsIn(Q.Write(q, frame).accepted) == BroadcastsIn(q.accepted)
  {
    BroadcastsMore(q.accepted, frame);
  }

  /** The running invocation's frame is recorded and queued. */
  lemma ReplyShows(cfg: Config, s: Session, h: History, y: Yield, frame: bytes)
    requires Shows(cfg, s, h) && s.server.served != [] && Carries(Current(s.server).header, y, frame)
    ensures Shows(cfg, Reply(s, frame), h.(results := Yielded(h.results, y)))
  {
    YieldCarried(s.server, h.results, y, frame, Reply(s, frame).server);
    QueueShows(s.down.outbox, frame);
    assert Seen(Reply(s, frame).down) == Seen(s.down);
  }

  lemma RespondShows(cfg: Config, s: Session, h: History, payload: bytes)
    requires Shows(cfg, s, h) && Enabled(cfg, s, Respond(payload))
    ensures Shows(cfg, Apply(cfg, s, Respond(payload)), Record(cfg, s, h, Respond(payload)))
  {
    var header := Current(s.server).header;
    if header.messageId == VOID_MESSAGE_ID {
      VoidYield(s.server, h.results, Value(payload));
    } else {
      ServerFramesRoundTrip(header.messageId, header.methodId, payload, ErrorBody(0, None, None));
      ReplyShows(cfg, s, h, Value(payload), Response(header.messageId, header.methodId, payload));
    }
  }

  lemma StopShows(cfg: Config, s: Session, h: History)
    requires Shows(cfg, s, h)
    ensures Shows(cfg, s.(server := s.server.(running := false)), h)
  {
  }

  lemma ThrowShows(cfg: Config, s: Session, h: History, body: ErrorBody)
    requires Shows(cfg, s, h) && Enabled(cfg, s, Throw(body))
    ensures Shows(cfg, Apply(cfg, s, Throw(body)), Record(cfg, s, h, Throw(body)))
  {
    var header := Current(s.server).header;
    var h' := h.(results := Yielded(h.results, Exception(body)));
    if header.messageId == VOID_MESSAGE_ID {
      VoidYield(s.server, h.results, Exception(body));
      StopShows(cfg, s, h');
    } else {
      var frame := ErrorFrame(header.messageId, body.status, body.detail, body.message);
      ServerFramesRoundTrip(header.messageId, 0, [], body);
      ReplyShows(cfg, s, h, Exception(body), frame);
      StopShows(cfg, Reply(s, frame), h');
    }
  }

  lemma BroadcastShows(cfg: Config, s: Session, h: History, methodId: int, payload: bytes)
    requires Shows(cfg, s, h) && Enabled(cfg, s, BroadcastToClient(methodId, payload))
    ensures Shows(cfg, Apply(cfg, s, BroadcastToClient(methodId, payload)), Record(cfg, s, h, BroadcastToClient(methodId, payload)))
  {
    var frame := Broadcast(methodId, payload);
    ServerFramesRoundTrip(0, methodId, payload, ErrorBody(0, None, None));
    BroadcastsMore(s.down.outbox.accepted, frame);
    assert Seen(Apply(cfg, s, BroadcastToClient(methodId, payload)).down) == Seen(s.down);
  }

  lemma ConsumeShows(cfg: Config, s: Session, h: History)
    requires Shows(cfg, s, h) && Enabled(cfg, s, Consume)
    ensures Shows(cfg, Apply(cfg, s, Consume), Record(cfg, s, h, Consume))
  {
    var s', frame := Apply(cfg, s, Consume), s.down.stream[s.down.consumed];
    assert Seen(s'.down) == Seen(s.down) + [frame];
    BroadcastsMore(Seen(s.down), frame);
    if ReadServerFrame(frame).BroadcastOf? {
      BroadcastDelivered(cfg.hub, s.client, frame);
    } else {
      OthersNotDelivered(cfg.hub, s.client, frame);
    }
    ConsumeKeepsCalls(cfg, s.client, frame, h.calls);
  }

  lemma ConsumeKeepsCalls(cfg: Config, c: Client, frame: bytes, asked: seq<Asked>)
    requires IsTable(c) && CallsAre(cfg, c.calls, asked)
    ensures CallsAre(cfg, ConsumeData(cfg.hub, c, frame).calls, asked)
  {
    var c' := ConsumeData(cfg.hub, c, frame);
    if c.calls == [] { assert forall id :: id !in c.table; }
    forall n | 0 <= n < |c.calls| ensures |c'.calls| == |c.calls| && IsCallOf(cfg, c'.calls[n], asked[n]) {
      ConsumeSetsOnce(cfg.hub, c, frame, n);
      assert IsCallOf(cfg, c.calls[n], asked[n]);
    }
  }

  /** The steps that carry things along. */
  lemma OtherShows(cfg: Config, s: Session, h: History, step: Step)
    requires Shows(cfg, s, h) && Enabled(cfg, s, step)
    requires !step.RegisterCall? && !step.Fire? && !step.Begin? && !step.Respond? && !step.Throw? && !step.BroadcastToClient? && !step.Consume?
    ensures Shows(cfg, Apply(cfg, s, step), Record(cfg, s, h, step))
  {
    var s' := Apply(cfg, s, step);
    assert s'.down.outbox.accepted == s.down.outbox.accepted;
    assert Seen(s'.down) == Seen(s.down);
  }

  lemma StepShows(cfg: Config, s: Session, h: History, step: Step)
    requires Shows(cfg, s, h) && Enabled(cfg, s, step)
    ensures Shows(cfg, Apply(cfg, s, step), Record(cfg, s, h, step))
  {
    match step
    case RegisterCall(methodId, payload) => RegisterShows(cfg, s, h, methodId, payload);
    case Fire(methodId, payload) => FireShows(cfg, s, h, methodId, payload);
    case Begin => BeginShows(cfg, s, h);
    case Respond(payload) => RespondShows(cfg, s, h, payload);
    case Throw(body) => ThrowShows(cfg, s, h, body);
    case BroadcastToClient(methodId, payload) => BroadcastShows(cfg, s, h, methodId, payload);
    case Consume => ConsumeShows(cfg, s, h);
    case _ => OtherShows(cfg, s, h, step);
  }

  /** Every schedule: the client's calls are those that were made, each invocation's frames carry what its handler yielded,
      in order, and what the client has received is the broadcasts among the frames it has consumed. */
  lemma {:induction false} RunShows(cfg: Config, steps: seq<Step>)
    ensures Shows(cfg, Run(cfg, Connected(), steps), HistoryOf(cfg, steps))
  {
    if steps != [] {
      var front, step := steps[..|steps| - 1], steps[|steps| - 1];
      RunShows(cfg, front);
      var s := Run(cfg, Connected(), front);
      if Enabled(cfg, s, step) { StepShows(cfg, s, HistoryOf(cfg, front), step); }
    }
  }
}
