/** One StreamingHub connection: client, request stream, server, response queue, response stream and disposal, as a
    machine over the steps its threads take (StreamingHubClientBase.cs, StreamingHub.cs, AsyncLock.cs,
    QueuedResponseWriter.cs). The two gRPC streams are ordered and deliver a prefix. */
module Session {
  import opened Prelude
  import opened Frames
  import opened HubClient
  import Q = ResponseQueue

  /** The client's generated cases and the method ids the server has handlers for. */
  datatype Config = Config(hub: Hub, handlers: set<int>)

  /** From the client's calls to the request stream. `requested`, `voids` and `dropped` are history. */
  datatype Upstream = Upstream(
    waiting: seq<bytes>,      // frames whose writer waits for the lock
    permits: nat,             // the semaphore of AsyncLock
    writing: seq<bytes>,      // frames whose writer holds the lock
    closed: bool,             // CompleteAsync has been called
    wire: seq<bytes>,         // everything the request stream carried
    dropped: seq<bytes>,      // writes that threw
    requested: seq<bytes>,    // the request frame of each call
    voids: seq<bytes>)        // the void frames

  /** A message taken from the request stream, and the frames written in answer so far. */
  datatype Invocation = Invocation(header: Header, replies: seq<bytes>)

  datatype Server = Server(served: seq<Invocation>, running: bool, up: bool)

  datatype Downstream = Downstream(
    outbox: Q.Queue,
    stream: seq<bytes>,       // everything the response stream carried
    broken: bool,             // the connection is gone: nothing arrives any more
    consumed: nat)            // how much of it the client has read

  /** The subscription loop: reading, in its `finally`, over. */
  datatype Reader = Reads | Leaving | Left

  datatype Owner = Nobody | User | Loop

  datatype Cleanup = NotBegun | Closing | Visiting(todo: set<int>) | Finished

  datatype Ending = Ending(disposed: bool, owner: Owner, cleanup: Cleanup, reader: Reader, cleanups: nat, registeredBefore: nat)

  /** `entering`: calls that have passed `ThrowIfDisposed` and not yet registered. */
  datatype Session = Session(client: Client, entering: nat, up: Upstream, server: Server, down: Downstream, ending: Ending)

  function Connected(): Session {
    Session(
      Client([], map[], []), 0,
      Upstream([], 1, [], false, [], [], [], []),
      Server([], false, true),
      Downstream(Q.Empty(), [Marker()], false, 0),
      Ending(false, Nobody, NotBegun, Reads, 0, 0))
  }

  datatype Step =
    | Enter
    | RegisterCall(methodId: int, payload: bytes)
    | Fire(methodId: int, payload: bytes)
    | Grant(i: nat)
    | WriteRequest(i: nat)
    | Begin
    | Respond(payload: bytes)
    | Throw(body: ErrorBody)
    | Return
    | BroadcastToClient(methodId: int, payload: bytes)
    | Pump
    | ServerDown
    | CompleteOutbox
    | Break
    | Consume
    | StopReading
    | UserDispose
    | LoopDispose
    | CloseRequests
    | BeginVisit
    | Visit(id: int)
    | EndVisit

  function Current(server: Server): Invocation
    requires server.served != []
  {
    server.served[|server.served| - 1]
  }

  predicate HeaderOk(h: Header) {
    IsInt32(h.methodId) && IsInt32(h.messageId)
  }

  predicate Enabled(cfg: Config, s: Session, step: Step) {
    match step
    case Enter => !s.ending.disposed
    case RegisterCall(methodId, _) => s.entering > 0 && methodId in cfg.hub.cases && IsInt32(methodId)
    case Fire(methodId, _) => s.entering > 0 && methodId in cfg.hub.cases && IsInt32(methodId)
    case Grant(i) => i < |s.up.waiting| && s.up.permits > 0
    case WriteRequest(i) => i < |s.up.writing|
    case Begin => s.server.up && !s.server.running && |s.server.served| < |s.up.wire|
    case Respond(_) => s.server.running && s.server.served != [] && HeaderOk(Current(s.server).header)
    case Throw(body) =>
      && s.server.running && s.server.served != [] && HeaderOk(Current(s.server).header)
      && IsInt32(body.status) && IsText(body.detail) && IsText(body.message)
    case Return => s.server.running
    case BroadcastToClient(methodId, _) => IsInt32(methodId)
    case Pump => Q.CanStep(s.down.outbox)
    case ServerDown => !s.server.running
    case CompleteOutbox => s.down.outbox.disconnected
    case Break => true
    case Consume => s.ending.reader.Reads? && s.down.consumed < |s.down.stream| && IsTable(s.client)
    case StopReading => s.ending.reader.Reads?
    case UserDispose => !s.ending.disposed
    case LoopDispose => s.ending.reader.Leaving? && !s.ending.owner.Loop?
    case CloseRequests => s.ending.cleanup.Closing?
    case BeginVisit => s.ending.cleanup.Closing? && (s.ending.owner.User? ==> s.ending.reader.Left?)
    case Visit(id) => s.ending.cleanup.Visiting? && id in s.client.table && IsTable(s.client)
    case EndVisit => s.ending.cleanup.Visiting? && s.ending.cleanup.todo == {}
  }

  function RemoveAt(s: seq<bytes>, i: nat): seq<bytes>
    requires i < |s|
  {
    s[..i] + s[i + 1..]
  }

  /** The lock holder's `WriteAsync` returns or throws; either way the lock is released. */
  function FinishWrite(up: Upstream, i: nat, refused: bool): Upstream
    requires i < |up.writing|
  {
    var up' := up.(writing := RemoveAt(up.writing, i), permits := up.permits + 1);
    if refused then up'.(dropped := up.dropped + [up.writing[i]]) else up'.(wire := up.wire + [up.writing[i]])
  }

  function Stopping(s: Session): Session {
    s.(server := s.server.(up := false), down := s.down.(outbox := Q.Disconnect(s.down.outbox)))
  }

  /** A frame of the running invocation is recorded and queued. */
  function Reply(s: Session, frame: bytes): Session
    requires s.server.served != []
  {
    var k := |s.server.served| - 1;
    var inv := s.server.served[k];
    s.(server := s.server.(served := s.server.served[k := inv.(replies := inv.replies + [frame])]),
       down := s.down.(outbox := Q.Write(s.down.outbox, frame)))
  }

  /** The main loop takes the next message; a malformed header or an unknown method id ends the connection. */
  function BeginNext(cfg: Config, s: Session): Session
    requires |s.server.served| < |s.up.wire|
  {
    var h := FetchHeader(s.up.wire[|s.server.served|]);
    if h.Some? && h.value.methodId in cfg.handlers then
      s.(server := s.server.(served := s.server.served + [Invocation(h.value, [])], running := true))
    else Stopping(s)
  }

  function Apply(cfg: Config, s: Session, step: Step): Session
    requires Enabled(cfg, s, step)
  {
    match step
    case Enter => s.(entering := s.entering + 1)
    case RegisterCall(methodId, payload) =>
      var frame := Request(MessageId(|s.client.calls|), methodId, payload);
      s.(client := Register(s.client, methodId, cfg.hub.cases[methodId], payload),
         entering := s.entering - 1,
         up := s.up.(waiting := s.up.waiting + [frame], requested := s.up.requested + [frame]))
    case Fire(methodId, payload) =>
      var frame := VoidRequest(methodId, payload);
      s.(entering := s.entering - 1, up := s.up.(waiting := s.up.waiting + [frame], voids := s.up.voids + [frame]))
    case Grant(i) =>
      s.(up := s.up.(waiting := RemoveAt(s.up.waiting, i), writing := s.up.writing + [s.up.waiting[i]], permits := s.up.permits - 1))
    case WriteRequest(i) => s.(up := FinishWrite(s.up, i, s.up.closed || s.down.broken))
    case Begin => BeginNext(cfg, s)
    case Respond(payload) =>
      var h := Current(s.server).header;
      if h.messageId == VOID_MESSAGE_ID then s else Reply(s, Response(h.messageId, h.methodId, payload))
    case Throw(body) =>
      var h := Current(s.server).header;
      var s' := if h.messageId == VOID_MESSAGE_ID then s
                else Reply(s, ErrorFrame(h.messageId, body.status, body.detail, body.message));
      s'.(server := s'.server.(running := false))
    case Return => s.(server := s.server.(running := false))
    case BroadcastToClient(methodId, payload) =>
      s.(down := s.down.(outbox := Q.Write(s.down.outbox, Broadcast(methodId, payload))))
    case Pump =>
      var outbox := Q.ConsumerStep(s.down.outbox);
      if s.down.outbox.consumer.Awaiting? && !s.down.broken then
        s.(down := s.down.(outbox := outbox, stream := s.down.stream + [s.down.outbox.consumer.item]))
      else s.(down := s.down.(outbox := outbox))
    case ServerDown => Stopping(s)
    case CompleteOutbox => s.(down := s.down.(outbox := Q.Complete(s.down.outbox)))
    case Break => s.(down := s.down.(broken := true))
    case Consume =>
      s.(client := ConsumeData(cfg.hub, s.client, s.down.stream[s.down.consumed]), down := s.down.(consumed := s.down.consumed + 1))
    case StopReading => s.(ending := s.ending.(reader := Leaving))
    case UserDispose => s.(ending := s.ending.(disposed := true, owner := User, cleanup := Closing))
    case LoopDispose =>
      if s.ending.disposed then s.(ending := s.ending.(reader := Left))
      else s.(ending := s.ending.(disposed := true, owner := Loop, cleanup := Closing))
    case CloseRequests => s.(up := s.up.(closed := true))
    case BeginVisit =>
      s.(ending := s.ending.(cleanup := Visiting(s.client.table.Keys), cleanups := s.ending.cleanups + 1,
                             registeredBefore := |s.client.calls|))
    case Visit(id) =>
      s.(client := CancelOne(s.client, id), ending := s.ending.(cleanup := Visiting(s.ending.cleanup.todo - {id})))
    case EndVisit =>
      s.(ending := s.ending.(cleanup := Finished, reader := if s.ending.owner.Loop? then Left else s.ending.reader))
  }

  /** A schedule; steps that are not enabled when their turn comes are skipped. */
  function Run(cfg: Config, s: Session, steps: seq<Step>): Session {
    if steps == [] then s
    else
      var p := Run(cfg, s, steps[..|steps| - 1]);
      var step := steps[|steps| - 1];
      if Enabled(cfg, p, step) then Apply(cfg, p, step) else p
  }

  // ----- the frames of one message id

  predicate IsFor(frame: bytes, id: int) {
    ReadAddress(frame).Some? && ReadAddress(frame).value.messageId == id
  }

  function ForId(log: seq<bytes>, id: int): seq<bytes> {
    if log == [] then []
    else
      var last := log[|log| - 1];
      ForId(log[..|log| - 1], id) + (if IsFor(last, id) then [last] else [])
  }

  lemma ForIdAppend(log: seq<bytes>, frame: bytes, id: int)
    ensures ForId(log + [frame], id) == ForId(log, id) + (if IsFor(frame, id) then [frame] else [])
  {
    assert (log + [frame])[..|log|] == log;
  }

  lemma {:induction false} ForIdPrefix(log: seq<bytes>, longer: seq<bytes>, id: int)
    requires log <= longer
    ensures ForId(log, id) <= ForId(longer, id)
    decreases |longer|
  {
    if log != longer {
      ForIdPrefix(log, longer[..|longer| - 1], id);
    } else {
      assert log == longer;
    }
  }

  lemma {:induction false} ForIdMember(log: seq<bytes>, i: nat, id: int)
    requires i < |log| && IsFor(log[i], id)
    ensures log[i] in ForId(log, id)
    decreases |log|
  {
    if i < |log| - 1 {
      ForIdMember(log[..|log| - 1], i, id);
    }
  }

  // ----- invariant

  predicate CallsOk(cfg: Config, calls: seq<Call>, requested: seq<bytes>) {
    && |requested| == |calls| <= MAX_CALLS
    && (forall n | 0 <= n < |calls| ::
          && IsCall(calls[n]) && calls[n].methodId in cfg.hub.cases && calls[n].ty == cfg.hub.cases[calls[n].methodId]
          && requested[n] == RequestFrame(n, calls[n]))
  }

  /** Every frame that was ever built is in exactly one place. */
  ghost predicate UpOk(up: Upstream) {
    && up.permits + |up.writing| == 1
    && multiset(up.waiting) + multiset(up.writing) + multiset(up.wire) + multiset(up.dropped)
       == multiset(up.requested) + multiset(up.voids)
    && (forall v | v in up.voids :: FetchHeader(v).Some? && FetchHeader(v).value.messageId == VOID_MESSAGE_ID)
  }

  predicate IsReply(h: Header, frame: bytes) {
    match ReadServerFrame(frame)
    case ResponseTo(id, methodId, _) => id == h.messageId && methodId == h.methodId
    case ErrorTo(id, _) => id == h.messageId
    case _ => false
  }

  predicate InvocationOk(inv: Invocation) {
    && HeaderOk(inv.header)
    && (inv.header.messageId == VOID_MESSAGE_ID ==> inv.replies == [])
    && (forall r | r in inv.replies :: IsReply(inv.header, r))
  }

  predicate ServerOk(wire: seq<bytes>, server: Server) {
    && |server.served| <= |wire|
    && (forall k | 0 <= k < |server.served| ::
          InvocationOk(server.served[k]) && FetchHeader(wire[k]) == Some(server.served[k].header))
    && (server.running ==> server.served != [] && server.up)
  }

  predicate IsServed(server: Server, id: int) {
    exists k :: 0 <= k < |server.served| && server.served[k].header.messageId == id
  }

  /** What was queued for an id is exactly what its invocation wrote. */
  ghost predicate EmittedOk(server: Server, emitted: seq<bytes>) {
    && (forall k | 0 <= k < |server.served| && server.served[k].header.messageId != VOID_MESSAGE_ID ::
          ForId(emitted, server.served[k].header.messageId) == server.served[k].replies)
    && (forall id {:trigger ForId(emitted, id)} :: !IsServed(server, id) || id == VOID_MESSAGE_ID ==> ForId(emitted, id) == [])
  }

  predicate DownOk(down: Downstream) {
    && Q.Invariant(down.outbox)
    && down.consumed <= |down.stream|
    && down.stream <= [Marker()] + down.outbox.attempted
    && (!down.broken ==> |down.stream| == 1 + down.outbox.finished)
  }

  predicate Visited(ending: Ending) {
    ending.cleanup.Visiting? || ending.cleanup.Finished?
  }

  /** The state of a future is a function of the frames consumed for its id. */
  predicate FutureOk(cfg: Config, client: Client, n: nat, seen: seq<bytes>, visited: bool)
    requires n < |client.calls|
  {
    var call := client.calls[n];
    if seen == [] then
      && MessageId(n) in client.table && client.table[MessageId(n)] == n
      && (call.future.Pending? || (call.future.Canceled? && visited))
    else
      && MessageId(n) !in client.table
      && ReadAddress(seen[0]).Some?
      && var v := Verdict(cfg.hub, call.ty, ReadAddress(seen[0]).value);
         v.Some? && call.future == Done(v.value)
  }

  function Seen(down: Downstream): seq<bytes>
    requires down.consumed <= |down.stream|
  {
    down.stream[..down.consumed]
  }

  predicate ClientOk(cfg: Config, client: Client, log: seq<bytes>, visited: bool) {
    && (forall id | id in client.table :: client.table[id] < |client.calls| && MessageId(client.table[id]) == id)
    && (forall n | 0 <= n < |client.calls| :: FutureOk(cfg, client, n, ForId(log, MessageId(n)), visited))
  }

  predicate EndingOk(e: Ending, client: Client) {
    && (e.disposed <==> !e.cleanup.NotBegun?) && (e.disposed <==> !e.owner.Nobody?)
    && (Visited(e) || (e.owner.Loop? && e.cleanup.Closing?) ==> !e.reader.Reads?)
    && (e.owner.User? && Visited(e) ==> e.reader.Left?)
    && (e.owner.Loop? ==> (e.reader.Left? <==> e.cleanup.Finished?))
    && (e.reader.Left? ==> e.disposed)
    && e.cleanups == (if Visited(e) then 1 else 0)
    && (Visited(e) ==> e.registeredBefore <= |client.calls|)
    && (e.cleanup.Visiting? ==>
          forall n | 0 <= n < e.registeredBefore :: client.calls[n].future.Pending? ==> MessageId(n) in e.cleanup.todo)
    && (e.cleanup.Finished? ==> forall n | 0 <= n < e.registeredBefore :: !client.calls[n].future.Pending?)
  }

  ghost predicate Invariant(cfg: Config, s: Session) {
    && CallsOk(cfg, s.client.calls, s.up.requested)
    && UpOk(s.up)
    && ServerOk(s.up.wire, s.server)
    && EmittedOk(s.server, s.down.outbox.accepted)
    && DownOk(s.down)
    && (s.server.up <==> !s.down.outbox.disconnected)
    && ClientOk(cfg, s.client, Seen(s.down), Visited(s.ending))
    && EndingOk(s.ending, s.client)
  }
}
