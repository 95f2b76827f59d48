/** Safety of a connection over every schedule: correlation of answers with calls, mutual exclusion of writes,
    service at most once, and disposal. */
module SessionSafety {
  import opened Prelude
  import opened Frames
  import opened HubClient
  import opened Session
  import opened SessionHistory
  import Q = ResponseQueue

  // ----- multisets of frames

  lemma RemoveAtMultiset(s: seq<bytes>, i: nat)
    requires i < |s|
    ensures multiset(RemoveAt(s, i)) + multiset{s[i]} == multiset(s)
  {
    assert s == s[..i] + ([s[i]] + s[i + 1..]);
  }

  lemma CountDistinct(s: seq<bytes>, f: bytes)
    requires forall i, j | 0 <= i < j < |s| :: s[i] != s[j]
    ensures multiset(s)[f] <= 1
  {
    if f in s {
      var i :| 0 <= i < |s| && s[i] == f;
      assert s == s[..i] + [f] + s[i + 1..];
      assert f !in s[..i] && f !in s[i + 1..];
      assert multiset(s[..i])[f] == 0 && multiset(s[i + 1..])[f] == 0;
    }
  }

  lemma CountTwice(s: seq<bytes>, i: nat, j: nat)
    requires i < j < |s| && s[i] == s[j]
    ensures multiset(s)[s[i]] >= 2
  {
    assert s == s[..j] + [s[j]] + s[j + 1..];
    assert s[..j][i] == s[i];
    assert s[i] in multiset(s[..j]);
  }

  // ----- requests

  lemma RequestedDistinct(cfg: Config, calls: seq<Call>, requested: seq<bytes>, i: nat, j: nat)
    requires CallsOk(cfg, calls, requested) && i < |calls| && j < |calls|
    ensures requested[i] == requested[j] ==> i == j
  {
    RequestsRoundTrip(MessageId(i), calls[i].methodId, calls[i].payload);
    RequestsRoundTrip(MessageId(j), calls[j].methodId, calls[j].payload);
    MessageIdsUsable(i, j);
  }

  /** A request on the wire is the frame of exactly one call. */
  lemma WireIsCall(cfg: Config, calls: seq<Call>, up: Upstream, k: nat) returns (n: nat)
    requires CallsOk(cfg, calls, up.requested) && UpOk(up) && k < |up.wire|
    requires FetchHeader(up.wire[k]).Some? && FetchHeader(up.wire[k]).value.messageId != VOID_MESSAGE_ID
    ensures n < |calls| && up.wire[k] == up.requested[n]
    ensures FetchHeader(up.wire[k]).value == Header(calls[n].methodId, MessageId(n), calls[n].payload)
  {
    var f := up.wire[k];
    assert f in multiset(up.wire);
    assert f in multiset(up.requested) + multiset(up.voids);
    assert f in up.requested;
    n :| 0 <= n < |up.requested| && up.requested[n] == f;
    RequestsRoundTrip(MessageId(n), calls[n].methodId, calls[n].payload);
  }

  /** No request is on the wire twice. */
  lemma WireOnce(cfg: Config, calls: seq<Call>, up: Upstream, k: nat, l: nat)
    requires CallsOk(cfg, calls, up.requested) && UpOk(up) && k < l < |up.wire|
    requires FetchHeader(up.wire[k]).Some? && FetchHeader(up.wire[k]).value.messageId != VOID_MESSAGE_ID
    requires FetchHeader(up.wire[l]).Some?
    ensures FetchHeader(up.wire[k]).value.messageId != FetchHeader(up.wire[l]).value.messageId
  {
    var f := up.wire[k];
    var n := WireIsCall(cfg, calls, up, k);
    forall i, j | 0 <= i < j < |up.requested| ensures up.requested[i] != up.requested[j] {
      RequestedDistinct(cfg, calls, up.requested, i, j);
    }
    CountDistinct(up.requested, f);
    assert multiset(up.voids)[f] == 0 by { assert f !in up.voids; }
    assert (multiset(up.waiting) + multiset(up.writing) + multiset(up.wire) + multiset(up.dropped))[f] <= 1;
    if FetchHeader(up.wire[k]).value.messageId == FetchHeader(up.wire[l]).value.messageId {
      var m := WireIsCall(cfg, calls, up, l);
      MessageIdsUsable(n, m);
      CountTwice(up.wire, k, l);
    }
  }

  lemma ServedIsCall(cfg: Config, s: Session, k: nat) returns (n: nat)
    requires Invariant(cfg, s) && k < |s.server.served| && s.server.served[k].header.messageId != VOID_MESSAGE_ID
    ensures n < |s.client.calls|
    ensures s.server.served[k].header == Header(s.client.calls[n].methodId, MessageId(n), s.client.calls[n].payload)
  {
    n := WireIsCall(cfg, s.client.calls, s.up, k);
  }

  lemma ServedDistinct(cfg: Config, s: Session, k: nat, l: nat)
    requires Invariant(cfg, s) && k < |s.server.served| && l < |s.server.served|
    requires s.server.served[k].header.messageId == s.server.served[l].header.messageId != VOID_MESSAGE_ID
    ensures k == l
  {
    if k < l { WireOnce(cfg, s.client.calls, s.up, k, l); }
    if l < k { WireOnce(cfg, s.client.calls, s.up, l, k); }
  }

  // ----- answers

  lemma ReplyAddress(h: Header, frame: bytes)
    requires IsReply(h, frame)
    ensures ReadAddress(frame).Some? && ReadAddress(frame).value.messageId == h.messageId
  {
    AddressOfServerFrame(frame);
  }

  lemma MarkerAddress(id: int)
    requires id != VOID_MESSAGE_ID
    ensures !IsFor(Marker(), id)
  {
    ServerFramesRoundTrip(0, 0, [], ErrorBody(0, None, None));
    AddressOfServerFrame(Marker());
  }

  lemma {:induction false} ForIdBehindMarker(log: seq<bytes>, id: int)
    requires id != VOID_MESSAGE_ID
    ensures ForId([Marker()] + log, id) == ForId(log, id)
  {
    MarkerAddress(id);
    if log == [] {
      ForIdAppend([], Marker(), id);
      assert [Marker()] + log == [] + [Marker()];
    } else {
      var front := log[..|log| - 1];
      ForIdBehindMarker(front, id);
      assert ([Marker()] + log)[..|log|] == [Marker()] + front;
    }
  }

  /** What the client has seen for an id is a prefix of what was queued for it. */
  lemma SeenIsPrefix(down: Downstream, id: int)
    requires DownOk(down) && id != VOID_MESSAGE_ID
    ensures ForId(Seen(down), id) <= ForId(down.outbox.accepted, id)
    ensures Seen(down) <= [Marker()] + down.outbox.accepted
  {
    var q := down.outbox;
    assert q.attempted <= q.accepted;
    assert [Marker()] + q.attempted <= [Marker()] + q.accepted;
    ForIdPrefix(Seen(down), [Marker()] + q.accepted, id);
    ForIdBehindMarker(q.accepted, id);
  }

  lemma NothingForUnserved(s: Session, id: int)
    requires EmittedOk(s.server, s.down.outbox.accepted) && DownOk(s.down) && id != VOID_MESSAGE_ID && !IsServed(s.server, id)
    ensures ForId(s.down.outbox.accepted, id) == [] && ForId(Seen(s.down), id) == []
  {
    SeenIsPrefix(s.down, id);
  }

  /** An answer to a call, whatever it says, settles a future of the call's type. */
  lemma ReplyVerdict(cfg: Config, call: Call, h: Header, frame: bytes)
    requires IsReply(h, frame) && h.methodId == call.methodId
    requires call.methodId in cfg.hub.cases && cfg.hub.cases[call.methodId] == call.ty
    ensures ReadAddress(frame).Some? && Verdict(cfg.hub, call.ty, ReadAddress(frame).value) == Some(AnswerOf(call, frame))
  {
    AddressOfServerFrame(frame);
  }

  /** The outcome a reply carries, read off the frame alone. */
  function AnswerOf(call: Call, frame: bytes): Outcome {
    match ReadServerFrame(frame)
    case ResponseTo(_, _, payload) => Result(call.ty, payload)
    case ErrorTo(_, body) => ErrorOutcome(body)
    case _ => InvalidCast
  }

  // ----- steps of the client's writers

  lemma MultisetAppend(s: seq<bytes>, f: bytes)
    ensures multiset(s + [f]) == multiset(s) + multiset{f}
  {
  }

  lemma NewRequestOk(up: Upstream, frame: bytes)
    requires UpOk(up)
    ensures UpOk(up.(waiting := up.waiting + [frame], requested := up.requested + [frame]))
  {
    MultisetAppend(up.waiting, frame);
    MultisetAppend(up.requested, frame);
    assert multiset(up.waiting + [frame]) + multiset(up.writing) + multiset(up.wire) + multiset(up.dropped)
        == multiset(up.waiting) + multiset(up.writing) + multiset(up.wire) + multiset(up.dropped) + multiset{frame}
        == multiset(up.requested) + multiset(up.voids) + multiset{frame}
        == multiset(up.requested + [frame]) + multiset(up.voids);
  }

  lemma NewVoidOk(up: Upstream, methodId: int, payload: bytes)
    requires UpOk(up) && IsInt32(methodId)
    ensures var frame := VoidRequest(methodId, payload);
            UpOk(up.(waiting := up.waiting + [frame], voids := up.voids + [frame]))
  {
    var frame := VoidRequest(methodId, payload);
    RequestsRoundTrip(0, methodId, payload);
    MultisetAppend(up.waiting, frame);
    MultisetAppend(up.voids, frame);
    assert multiset(up.waiting + [frame]) + multiset(up.writing) + multiset(up.wire) + multiset(up.dropped)
        == multiset(up.waiting) + multiset(up.writing) + multiset(up.wire) + multiset(up.dropped) + multiset{frame}
        == multiset(up.requested) + multiset(up.voids) + multiset{frame}
        == multiset(up.requested) + multiset(up.voids + [frame]);
  }

  /** Nothing has been seen for the next call's id. */
  lemma NextIdUnseen(cfg: Config, s: Session)
    requires Invariant(cfg, s) && |s.client.calls| < MAX_CALLS
    ensures ForId(Seen(s.down), MessageId(|s.client.calls|)) == []
  {
    var m := |s.client.calls|;
    MessageIdsUsable(m, m);
    if IsServed(s.server, MessageId(m)) {
      var k :| 0 <= k < |s.server.served| && s.server.served[k].header.messageId == MessageId(m);
      var i := ServedIsCall(cfg, s, k);
      MessageIdsUsable(i, m);
      assert false;
    }
    NothingForUnserved(s, MessageId(m));
  }

  lemma RegisterClientOk(cfg: Config, c: Client, log: seq<bytes>, visited: bool, methodId: int, ty: int, payload: bytes)
    requires ClientOk(cfg, c, log, visited) && |c.calls| < MAX_CALLS
    requires ForId(log, MessageId(|c.calls|)) == []
    ensures ClientOk(cfg, Register(c, methodId, ty, payload), log, visited)
  {
    var c' := Register(c, methodId, ty, payload);
    var m := |c.calls|;
    forall n | 0 <= n < |c'.calls| ensures FutureOk(cfg, c', n, ForId(log, MessageId(n)), visited) {
      MessageIdsUsable(n, m);
      assert n < m ==> FutureOk(cfg, c, n, ForId(log, MessageId(n)), visited);
    }
  }

  lemma RegisterInvariant(cfg: Config, s: Session, methodId: int, payload: bytes)
    requires Invariant(cfg, s) && Enabled(cfg, s, RegisterCall(methodId, payload)) && |s.client.calls| < MAX_CALLS
    ensures Invariant(cfg, Apply(cfg, s, RegisterCall(methodId, payload)))
  {
    NextIdUnseen(cfg, s);
    RegisterClientOk(cfg, s.client, Seen(s.down), Visited(s.ending), methodId, cfg.hub.cases[methodId], payload);
    NewRequestOk(s.up, Request(MessageId(|s.client.calls|), methodId, payload));
  }

  lemma FireInvariant(cfg: Config, s: Session, methodId: int, payload: bytes)
    requires Invariant(cfg, s) && Enabled(cfg, s, Fire(methodId, payload))
    ensures Invariant(cfg, Apply(cfg, s, Fire(methodId, payload)))
  {
    NewVoidOk(s.up, methodId, payload);
  }

  lemma GrantInvariant(cfg: Config, s: Session, i: nat)
    requires Invariant(cfg, s) && Enabled(cfg, s, Grant(i))
    ensures Invariant(cfg, Apply(cfg, s, Grant(i)))
  {
    RemoveAtMultiset(s.up.waiting, i);
  }

  lemma FinishWriteOk(up: Upstream, i: nat, refused: bool)
    requires UpOk(up) && i < |up.writing|
    ensures UpOk(FinishWrite(up, i, refused))
  {
    RemoveAtMultiset(up.writing, i);
  }

  lemma WriteInvariant(cfg: Config, s: Session, i: nat)
    requires Invariant(cfg, s) && Enabled(cfg, s, WriteRequest(i))
    ensures Invariant(cfg, Apply(cfg, s, WriteRequest(i)))
  {
    FinishWriteOk(s.up, i, s.up.closed || s.down.broken);
  }

  // ----- steps of the server

  /** The message just taken has an id that no earlier one had. */
  lemma NewIdUnserved(cfg: Config, s: Session)
    requires Invariant(cfg, s) && |s.server.served| < |s.up.wire|
    requires FetchHeader(s.up.wire[|s.server.served|]).Some?
    ensures var id := FetchHeader(s.up.wire[|s.server.served|]).value.messageId;
            id != VOID_MESSAGE_ID ==> !IsServed(s.server, id)
  {
    var l := |s.server.served|;
    var id := FetchHeader(s.up.wire[l]).value.messageId;
    if id != VOID_MESSAGE_ID && IsServed(s.server, id) {
      var k :| 0 <= k < l && s.server.served[k].header.messageId == id;
      WireOnce(cfg, s.client.calls, s.up, k, l);
      assert false;
    }
  }

  lemma BeginEmittedOk(server: Server, server': Server, emitted: seq<bytes>, inv: Invocation)
    requires EmittedOk(server, emitted) && inv.replies == []
    requires inv.header.messageId != VOID_MESSAGE_ID ==> !IsServed(server, inv.header.messageId)
    requires server'.served == server.served + [inv]
    ensures EmittedOk(server', emitted)
  {
    SameServed(server, server');
  }

  lemma BeginInvariant(cfg: Config, s: Session)
    requires Invariant(cfg, s) && Enabled(cfg, s, Begin) && Apply(cfg, s, Begin).server.up
    ensures Invariant(cfg, Apply(cfg, s, Begin))
  {
    var s' := Apply(cfg, s, Begin);
    NewIdUnserved(cfg, s);
    BeginEmittedOk(s.server, s'.server, s.down.outbox.accepted, s'.server.served[|s.server.served|]);
    BeginServerOk(s.up.wire, s.server, s'.server);
  }

  lemma BeginServerOk(wire: seq<bytes>, server: Server, server': Server)
    requires ServerOk(wire, server) && server.up && |server.served| < |wire| && FetchHeader(wire[|server.served|]).Some?
    requires server'.served == server.served + [Invocation(FetchHeader(wire[|server.served|]).value, [])]
    requires server'.up
    ensures ServerOk(wire, server')
  {
    forall k | 0 <= k < |server.served|
      ensures InvocationOk(server'.served[k]) && FetchHeader(wire[k]) == Some(server'.served[k].header)
    {
      assert InvocationOk(server.served[k]) && FetchHeader(wire[k]) == Some(server.served[k].header);
    }
  }

  /** The frames of each id after one more frame, which is for `target` alone. */
  lemma EmitFor(emitted: seq<bytes>, frame: bytes, target: int)
    requires IsFor(frame, target)
    ensures ForId(emitted + [frame], target) == ForId(emitted, target) + [frame]
    ensures forall id | id != target :: ForId(emitted + [frame], id) == ForId(emitted, id)
  {
    ForIdAppend(emitted, frame, target);
    forall id | id != target ensures ForId(emitted + [frame], id) == ForId(emitted, id) {
      ForIdAppend(emitted, frame, id);
    }
  }

  lemma EmitReplyOk(server: Server, emitted: seq<bytes>, server': Server, more: seq<bytes>, frame: bytes, target: int)
    requires EmittedOk(server, emitted) && server.served != []
    requires Current(server).header.messageId == target != VOID_MESSAGE_ID
    requires forall l | 0 <= l < |server.served| - 1 :: server.served[l].header.messageId != target
    requires server'.served == server.served[|server.served| - 1 := Invocation(Current(server).header, Current(server).replies + [frame])]
    requires ForId(more, target) == ForId(emitted, target) + [frame]
    requires forall id | id != target :: ForId(more, id) == ForId(emitted, id)
    ensures EmittedOk(server', more)
  {
    SameServed(server, server');
    assert server'.served[|server.served| - 1].header.messageId == target;
    forall id {:trigger ForId(more, id)} | !IsServed(server', id) || id == VOID_MESSAGE_ID ensures ForId(more, id) == [] {
      assert id != target;
      assert ForId(emitted, id) == [];
    }
  }

  lemma SameServed(server: Server, server': Server)
    requires |server.served| <= |server'.served|
    requires forall k | 0 <= k < |server.served| :: server'.served[k].header == server.served[k].header
    ensures forall id | IsServed(server, id) :: IsServed(server', id)
    ensures |server.served| == |server'.served| ==> forall id | IsServed(server', id) :: IsServed(server, id)
  {
    forall id | IsServed(server, id) ensures IsServed(server', id) {
      var l :| 0 <= l < |server.served| && server.served[l].header.messageId == id;
      assert server'.served[l].header.messageId == id;
    }
    if |server.served| == |server'.served| {
      forall id | IsServed(server', id) ensures IsServed(server, id) {
        var l :| 0 <= l < |server'.served| && server'.served[l].header.messageId == id;
        assert server.served[l].header.messageId == id;
      }
    }
  }

  lemma ReplyInvocationOk(inv: Invocation, frame: bytes)
    requires InvocationOk(inv) && inv.header.messageId != VOID_MESSAGE_ID && IsReply(inv.header, frame)
    ensures InvocationOk(Invocation(inv.header, inv.replies + [frame]))
  {
  }

  lemma ReplyServerOk(wire: seq<bytes>, server: Server, server': Server, frame: bytes)
    requires ServerOk(wire, server) && server.running
    requires Current(server).header.messageId != VOID_MESSAGE_ID && IsReply(Current(server).header, frame)
    requires server' == server.(served := server.served[|server.served| - 1 :=
                                                          Invocation(Current(server).header, Current(server).replies + [frame])])
    ensures ServerOk(wire, server')
  {
    ReplyInvocationOk(Current(server), frame);
    forall l | 0 <= l < |server'.served|
      ensures InvocationOk(server'.served[l]) && FetchHeader(wire[l]) == Some(server'.served[l].header)
    {
      assert InvocationOk(server.served[l]) && FetchHeader(wire[l]) == Some(server.served[l].header);
    }
  }

  lemma CurrentDistinct(cfg: Config, s: Session)
    requires Invariant(cfg, s) && s.server.served != [] && Current(s.server).header.messageId != VOID_MESSAGE_ID
    ensures forall l | 0 <= l < |s.server.served| - 1 :: s.server.served[l].header.messageId != Current(s.server).header.messageId
  {
    forall l | 0 <= l < |s.server.served| - 1 ensures s.server.served[l].header.messageId != Current(s.server).header.messageId {
      DistinctFromCurrent(cfg, s, l);
    }
  }

  lemma ServedHeader(wire: seq<bytes>, server: Server, k: nat)
    requires ServerOk(wire, server) && k < |server.served|
    ensures FetchHeader(wire[k]) == Some(server.served[k].header)
  {
  }

  lemma DistinctFromCurrent(cfg: Config, s: Session, l: nat)
    requires CallsOk(cfg, s.client.calls, s.up.requested) && UpOk(s.up) && ServerOk(s.up.wire, s.server)
    requires l < |s.server.served| - 1 && Current(s.server).header.messageId != VOID_MESSAGE_ID
    ensures s.server.served[l].header.messageId != Current(s.server).header.messageId
  {
    var k := |s.server.served| - 1;
    ServedHeader(s.up.wire, s.server, l);
    ServedHeader(s.up.wire, s.server, k);
    if s.server.served[l].header.messageId != VOID_MESSAGE_ID {
      WireOnce(cfg, s.client.calls, s.up, l, k);
    }
  }

  lemma QueueDownOk(down: Downstream, frame: bytes)
    requires DownOk(down)
    ensures var down' := down.(outbox := Q.Write(down.outbox, frame));
            && DownOk(down') && Seen(down') == Seen(down) && down'.outbox.disconnected == down.outbox.disconnected
            && down'.outbox.accepted == if down.outbox.completed then down.outbox.accepted else down.outbox.accepted + [frame]
  {
    Q.WriteInvariant(down.outbox, frame);
  }

  lemma ReplyEmittedOk(server: Server, emitted: seq<bytes>, server': Server, frame: bytes)
    requires EmittedOk(server, emitted) && server.served != []
    requires Current(server).header.messageId != VOID_MESSAGE_ID && IsReply(Current(server).header, frame)
    requires forall l | 0 <= l < |server.served| - 1 :: server.served[l].header.messageId != Current(server).header.messageId
    requires server'.served == server.served[|server.served| - 1 := Invocation(Current(server).header, Current(server).replies + [frame])]
    ensures EmittedOk(server', emitted + [frame])
  {
    var target := Current(server).header.messageId;
    ReplyAddress(Current(server).header, frame);
    EmitFor(emitted, frame, target);
    EmitReplyOk(server, emitted, server', emitted + [frame], frame, target);
  }

  /** Only the server and the outbox have changed. */
  lemma ServerStep(cfg: Config, s: Session, s': Session)
    requires Invariant(cfg, s)
    requires s'.up == s.up && s'.client == s.client && s'.ending == s.ending
    requires ServerOk(s.up.wire, s'.server) && EmittedOk(s'.server, s'.down.outbox.accepted)
    requires DownOk(s'.down) && Seen(s'.down) == Seen(s.down) && (s'.server.up <==> !s'.down.outbox.disconnected)
    ensures Invariant(cfg, s')
  {
  }

  lemma ReplyServerStep(cfg: Config, s: Session, frame: bytes)
    requires Invariant(cfg, s) && s.server.running
    requires IsReply(Current(s.server).header, frame) && Current(s.server).header.messageId != VOID_MESSAGE_ID
    ensures ServerOk(s.up.wire, Reply(s, frame).server)
    ensures EmittedOk(Reply(s, frame).server, s.down.outbox.accepted + [frame])
  {
    CurrentDistinct(cfg, s);
    ReplyEmittedOk(s.server, s.down.outbox.accepted, Reply(s, frame).server, frame);
    ReplyServerOk(s.up.wire, s.server, Reply(s, frame).server, frame);
  }

  /** Queuing a frame of the running invocation. */
  lemma ReplyInvariant(cfg: Config, s: Session, frame: bytes)
    requires Invariant(cfg, s) && s.server.running
    requires IsReply(Current(s.server).header, frame) && Current(s.server).header.messageId != VOID_MESSAGE_ID
    ensures Invariant(cfg, Reply(s, frame))
  {
    ReplyServerStep(cfg, s, frame);
    QueueDownOk(s.down, frame);
    ServerStep(cfg, s, Reply(s, frame));
  }

  lemma RespondInvariant(cfg: Config, s: Session, payload: bytes)
    requires Invariant(cfg, s) && Enabled(cfg, s, Respond(payload))
    ensures Invariant(cfg, Apply(cfg, s, Respond(payload)))
  {
    var h := Current(s.server).header;
    if h.messageId != VOID_MESSAGE_ID {
      ServerFramesRoundTrip(h.messageId, h.methodId, payload, ErrorBody(0, None, None));
      ReplyInvariant(cfg, s, Response(h.messageId, h.methodId, payload));
    }
  }

  lemma ThrowInvariant(cfg: Config, s: Session, body: ErrorBody)
    requires Invariant(cfg, s) && Enabled(cfg, s, Throw(body))
    ensures Invariant(cfg, Apply(cfg, s, Throw(body)))
  {
    var h := Current(s.server).header;
    if h.messageId != VOID_MESSAGE_ID {
      ServerFramesRoundTrip(h.messageId, h.methodId, [], body);
      var frame := ErrorFrame(h.messageId, body.status, body.detail, body.message);
      ReplyInvariant(cfg, s, frame);
      StopRunningInvariant(cfg, Reply(s, frame));
    } else {
      StopRunningInvariant(cfg, s);
    }
  }

  lemma StopRunningInvariant(cfg: Config, s: Session)
    requires Invariant(cfg, s)
    ensures Invariant(cfg, s.(server := s.server.(running := false)))
  {
    var s' := s.(server := s.server.(running := false));
    assert forall id :: IsServed(s'.server, id) <==> IsServed(s.server, id);
  }

  lemma StoppingInvariant(cfg: Config, s: Session)
    requires Invariant(cfg, s) && !s.server.running
    ensures Invariant(cfg, Stopping(s))
  {
    assert forall id :: IsServed(Stopping(s).server, id) <==> IsServed(s.server, id);
  }

  lemma EmitBroadcastOk(server: Server, emitted: seq<bytes>, methodId: int, payload: bytes)
    requires EmittedOk(server, emitted) && IsInt32(methodId)
    ensures EmittedOk(server, emitted + [Broadcast(methodId, payload)])
  {
    var frame := Broadcast(methodId, payload);
    ServerFramesRoundTrip(0, methodId, payload, ErrorBody(0, None, None));
    AddressOfServerFrame(frame);
    forall id ensures ForId(emitted + [frame], id) == ForId(emitted, id) {
      ForIdAppend(emitted, frame, id);
    }
  }

  lemma BroadcastInvariant(cfg: Config, s: Session, methodId: int, payload: bytes)
    requires Invariant(cfg, s) && Enabled(cfg, s, BroadcastToClient(methodId, payload))
    ensures Invariant(cfg, Apply(cfg, s, BroadcastToClient(methodId, payload)))
  {
    var s' := Apply(cfg, s, BroadcastToClient(methodId, payload));
    Q.WriteInvariant(s.down.outbox, Broadcast(methodId, payload));
    EmitBroadcastOk(s.server, s.down.outbox.accepted, methodId, payload);
    assert Seen(s'.down) == Seen(s.down);
  }

  // ----- steps of the queue's consumer and of the client's

  lemma PumpInvariant(cfg: Config, s: Session)
    requires Invariant(cfg, s) && Enabled(cfg, s, Pump)
    ensures Invariant(cfg, Apply(cfg, s, Pump))
  {
    var s' := Apply(cfg, s, Pump);
    var q, q' := s.down.outbox, s'.down.outbox;
    Q.ConsumerInvariant(q);
    var carried := [Marker()] + q.attempted;
    if q.consumer.Awaiting? && !s.down.broken {
      assert s'.down.stream == carried;
    } else {
      assert carried <= [Marker()] + q'.attempted;
    }
    assert Seen(s'.down) == Seen(s.down);
  }

  lemma ConsumeClientOk(cfg: Config, c: Client, log: seq<bytes>, frame: bytes)
    requires ClientOk(cfg, c, log, false) && |c.calls| <= MAX_CALLS
    requires forall n | 0 <= n < |c.calls| && IsFor(frame, MessageId(n)) ::
               Verdict(cfg.hub, c.calls[n].ty, ReadAddress(frame).value).Some?
    ensures ClientOk(cfg, ConsumeData(cfg.hub, c, frame), log + [frame], false)
  {
    var c' := ConsumeData(cfg.hub, c, frame);
    if c.calls != [] { ConsumeSetsOnce(cfg.hub, c, frame, 0); }
    forall n | 0 <= n < |c'.calls| ensures FutureOk(cfg, c', n, ForId(log + [frame], MessageId(n)), false) {
      ConsumeSetsOnce(cfg.hub, c, frame, n);
      ConsumeFutureOk(cfg, c, log, frame, n);
    }
  }

  lemma ConsumeFutureOk(cfg: Config, c: Client, log: seq<bytes>, frame: bytes, n: nat)
    requires ClientOk(cfg, c, log, false) && n < |c.calls| == |ConsumeData(cfg.hub, c, frame).calls|
    requires IsFor(frame, MessageId(n)) ==> Verdict(cfg.hub, c.calls[n].ty, ReadAddress(frame).value).Some?
    ensures FutureOk(cfg, ConsumeData(cfg.hub, c, frame), n, ForId(log + [frame], MessageId(n)), false)
  {
    ForIdAppend(log, frame, MessageId(n));
    assert FutureOk(cfg, c, n, ForId(log, MessageId(n)), false);
    if IsFor(frame, MessageId(n)) {
      AddressedFutureOk(cfg, c, ForId(log, MessageId(n)), frame, n);
    } else {
      OtherFutureOk(cfg, c, ForId(log, MessageId(n)), frame, n);
    }
  }

  lemma AddressedFutureOk(cfg: Config, c: Client, seen: seq<bytes>, frame: bytes, n: nat)
    requires IsTable(c) && n < |c.calls| && FutureOk(cfg, c, n, seen, false)
    requires IsFor(frame, MessageId(n)) && Verdict(cfg.hub, c.calls[n].ty, ReadAddress(frame).value).Some?
    ensures |ConsumeData(cfg.hub, c, frame).calls| == |c.calls|
    ensures FutureOk(cfg, ConsumeData(cfg.hub, c, frame), n, seen + [frame], false)
  {
    assert seen == [] ==> (seen + [frame])[0] == frame;
  }

  lemma OtherFutureOk(cfg: Config, c: Client, seen: seq<bytes>, frame: bytes, n: nat)
    requires IsTable(c) && n < |c.calls| && FutureOk(cfg, c, n, seen, false)
    requires forall id | id in c.table :: MessageId(c.table[id]) == id
    requires !IsFor(frame, MessageId(n))
    ensures |ConsumeData(cfg.hub, c, frame).calls| == |c.calls|
    ensures FutureOk(cfg, ConsumeData(cfg.hub, c, frame), n, seen, false)
  {
  }

  lemma ConsumeInvariant(cfg: Config, s: Session)
    requires Invariant(cfg, s) && Enabled(cfg, s, Consume)
    ensures Invariant(cfg, Apply(cfg, s, Consume))
  {
    var s' := Apply(cfg, s, Consume);
    var frame := s.down.stream[s.down.consumed];
    assert Seen(s'.down) == Seen(s.down) + [frame];
    ConsumedIsReply(cfg, s);
    ConsumeClientOk(cfg, s.client, Seen(s.down), frame);
    ConsumeCallsOk(cfg, s.client, s.up.requested, frame);
  }

  lemma ConsumeCallsOk(cfg: Config, c: Client, requested: seq<bytes>, frame: bytes)
    requires IsTable(c) && CallsOk(cfg, c.calls, requested)
    ensures CallsOk(cfg, ConsumeData(cfg.hub, c, frame).calls, requested)
  {
    if c.calls == [] {
      assert forall id :: id !in c.table;
    }
    forall n | 0 <= n < |c.calls|
      ensures |ConsumeData(cfg.hub, c, frame).calls| == |c.calls|
      ensures ConsumeData(cfg.hub, c, frame).calls[n].(future := c.calls[n].future) == c.calls[n]
    {
      ConsumeSetsOnce(cfg.hub, c, frame, n);
    }
  }

  /** The next frame, if it is addressed to a call, is an answer of that call's invocation. */
  lemma ConsumedIsReply(cfg: Config, s: Session)
    requires Invariant(cfg, s) && s.down.consumed < |s.down.stream|
    ensures var frame := s.down.stream[s.down.consumed];
            forall n | 0 <= n < |s.client.calls| && IsFor(frame, MessageId(n)) ::
              Verdict(cfg.hub, s.client.calls[n].ty, ReadAddress(frame).value) == Some(AnswerOf(s.client.calls[n], frame))
  {
    var frame := s.down.stream[s.down.consumed];
    forall n | 0 <= n < |s.client.calls| && IsFor(frame, MessageId(n))
      ensures Verdict(cfg.hub, s.client.calls[n].ty, ReadAddress(frame).value) == Some(AnswerOf(s.client.calls[n], frame))
    {
      var id := MessageId(n);
      MessageIdsUsable(n, n);
      ForIdMember(s.down.stream, s.down.consumed, id);
      assert s.down.(consumed := |s.down.stream|).stream[..|s.down.stream|] == s.down.stream;
      SeenIsPrefix(s.down.(consumed := |s.down.stream|), id);
      assert frame in ForId(s.down.outbox.accepted, id);
      assert IsServed(s.server, id);
      var k :| 0 <= k < |s.server.served| && s.server.served[k].header.messageId == id;
      assert frame in s.server.served[k].replies;
      var m := ServedIsCall(cfg, s, k);
      MessageIdsUsable(n, m);
      ReplyVerdict(cfg, s.client.calls[n], s.server.served[k].header, frame);
    }
  }

  // ----- steps of the disposal

  lemma VisitClientOk(cfg: Config, c: Client, log: seq<bytes>, id: int)
    requires ClientOk(cfg, c, log, true) && |c.calls| <= MAX_CALLS && id in c.table
    ensures ClientOk(cfg, CancelOne(c, id), log, true)
  {
    var c' := CancelOne(c, id);
    forall n | 0 <= n < |c.calls| ensures FutureOk(cfg, c', n, ForId(log, MessageId(n)), true) {
      assert FutureOk(cfg, c, n, ForId(log, MessageId(n)), true);
    }
  }

  /** Visiting an entry of the table leaves no pending future without an entry still to visit. */
  lemma VisitEndingOk(cfg: Config, c: Client, e: Ending, log: seq<bytes>, id: int)
    requires ClientOk(cfg, c, log, true) && EndingOk(e, c) && e.cleanup.Visiting? && id in c.table
    ensures EndingOk(e.(cleanup := Visiting(e.cleanup.todo - {id})), CancelOne(c, id))
  {
    forall n | 0 <= n < e.registeredBefore && c.calls[n].future.Pending? && MessageId(n) == id ensures c.table[id] == n {
      assert FutureOk(cfg, c, n, ForId(log, MessageId(n)), true);
    }
  }

  lemma VisitInvariant(cfg: Config, s: Session, id: int)
    requires Invariant(cfg, s) && Enabled(cfg, s, Visit(id))
    ensures Invariant(cfg, Apply(cfg, s, Visit(id)))
  {
    VisitClientOk(cfg, s.client, Seen(s.down), id);
    VisitEndingOk(cfg, s.client, s.ending, Seen(s.down), id);
  }

  lemma EndingInvariant(cfg: Config, s: Session, step: Step)
    requires Invariant(cfg, s) && Enabled(cfg, s, step)
    requires step.StopReading? || step.UserDispose? || step.LoopDispose? || step.BeginVisit? || step.EndVisit?
    ensures Invariant(cfg, Apply(cfg, s, step))
  {
    var s' := Apply(cfg, s, step);
    assert s'.down == s.down && s'.client == s.client && s'.up == s.up && s'.server == s.server;
    forall n | 0 <= n < |s.client.calls|
      ensures FutureOk(cfg, s.client, n, ForId(Seen(s.down), MessageId(n)), Visited(s'.ending))
      ensures s.client.calls[n].future.Pending? ==> MessageId(n) in s.client.table
    {
      assert FutureOk(cfg, s.client, n, ForId(Seen(s.down), MessageId(n)), Visited(s.ending));
    }
  }

  lemma EnterInvariant(cfg: Config, s: Session)
    requires Invariant(cfg, s) && Enabled(cfg, s, Enter)
    ensures Invariant(cfg, Apply(cfg, s, Enter))
  {
    var s' := Apply(cfg, s, Enter);
    assert s' == s.(entering := s'.entering);
  }

  lemma CloseRequestsInvariant(cfg: Config, s: Session)
    requires Invariant(cfg, s) && Enabled(cfg, s, CloseRequests)
    ensures Invariant(cfg, Apply(cfg, s, CloseRequests))
  {
    var s' := Apply(cfg, s, CloseRequests);
    assert s' == s.(up := s.up.(closed := true));
  }

  /** The downstream may change within what it is for the other parts. */
  lemma DownInvariant(cfg: Config, s: Session, down: Downstream)
    requires Invariant(cfg, s) && DownOk(down) && Seen(down) == Seen(s.down)
    requires down.outbox.accepted == s.down.outbox.accepted && down.outbox.disconnected == s.down.outbox.disconnected
    ensures Invariant(cfg, s.(down := down))
  {
  }

  lemma DownFlagInvariant(cfg: Config, s: Session, step: Step)
    requires Invariant(cfg, s) && Enabled(cfg, s, step) && (step.CompleteOutbox? || step.Break?)
    ensures Invariant(cfg, Apply(cfg, s, step))
  {
    DownInvariant(cfg, s, Apply(cfg, s, step).down);
  }

  // ----- every run

  predicate IsServerStep(step: Step) {
    step.Begin? || step.Respond? || step.Throw? || step.Return? || step.BroadcastToClient? || step.Pump? || step.ServerDown?
  }

  predicate IsEndingStep(step: Step) {
    step.StopReading? || step.UserDispose? || step.LoopDispose? || step.BeginVisit? || step.EndVisit?
  }

  lemma ServerStepInvariant(cfg: Config, s: Session, step: Step)
    requires Invariant(cfg, s) && Enabled(cfg, s, step) && IsServerStep(step)
    ensures Invariant(cfg, Apply(cfg, s, step))
  {
    match step
    case Begin => if Apply(cfg, s, Begin).server.up { BeginInvariant(cfg, s); } else { StoppingInvariant(cfg, s); }
    case Respond(payload) => RespondInvariant(cfg, s, payload);
    case Throw(body) => ThrowInvariant(cfg, s, body);
    case Return => StopRunningInvariant(cfg, s);
    case BroadcastToClient(methodId, payload) => BroadcastInvariant(cfg, s, methodId, payload);
    case Pump => PumpInvariant(cfg, s);
    case ServerDown => StoppingInvariant(cfg, s);
  }

  lemma StepInvariant(cfg: Config, s: Session, step: Step)
    requires Invariant(cfg, s) && Enabled(cfg, s, step) && |Apply(cfg, s, step).client.calls| <= MAX_CALLS
    ensures Invariant(cfg, Apply(cfg, s, step))
  {
    if IsServerStep(step) {
      ServerStepInvariant(cfg, s, step);
    } else if IsEndingStep(step) {
      EndingInvariant(cfg, s, step);
    } else {
      match step
      case RegisterCall(methodId, payload) => RegisterInvariant(cfg, s, methodId, payload);
      case Fire(methodId, payload) => FireInvariant(cfg, s, methodId, payload);
      case Grant(i) => GrantInvariant(cfg, s, i);
      case WriteRequest(i) => WriteInvariant(cfg, s, i);
      case Consume => ConsumeInvariant(cfg, s);
      case Visit(id) => VisitInvariant(cfg, s, id);
      case Enter => EnterInvariant(cfg, s);
      case CloseRequests => CloseRequestsInvariant(cfg, s);
      case _ => DownFlagInvariant(cfg, s, step);
    }
  }

  /** One step never takes a call away, alters what it asked for, or changes a future that is already set. */
  lemma StepKeepsCalls(cfg: Config, s: Session, step: Step)
    requires Enabled(cfg, s, step)
    ensures var s' := Apply(cfg, s, step);
            && |s.client.calls| <= |s'.client.calls|
            && forall n | 0 <= n < |s.client.calls| ::
                 && s'.client.calls[n].(future := s.client.calls[n].future) == s.client.calls[n]
                 && (!s.client.calls[n].future.Pending? ==> s'.client.calls[n] == s.client.calls[n])
  {
    if step.Consume? {
      forall n | 0 <= n < |s.client.calls|
        ensures var c' := ConsumeData(cfg.hub, s.client, s.down.stream[s.down.consumed]);
                c'.calls[n].(future := s.client.calls[n].future) == s.client.calls[n]
                && (!s.client.calls[n].future.Pending? ==> c'.calls[n] == s.client.calls[n])
      {
        ConsumeSetsOnce(cfg.hub, s.client, s.down.stream[s.down.consumed], n);
      }
    }
  }

  /** Each future gets at most one terminal outcome, whatever follows: no schedule changes it again. */
  lemma {:induction false} TerminalForEver(cfg: Config, s: Session, steps: seq<Step>, n: nat)
    requires n < |s.client.calls|
    ensures var s' := Run(cfg, s, steps);
            && |s.client.calls| <= |s'.client.calls|
            && s'.client.calls[n].(future := s.client.calls[n].future) == s.client.calls[n]
            && (!s.client.calls[n].future.Pending? ==> s'.client.calls[n] == s.client.calls[n])
  {
    if steps != [] {
      TerminalForEver(cfg, s, steps[..|steps| - 1], n);
      var p := Run(cfg, s, steps[..|steps| - 1]);
      var step := steps[|steps| - 1];
      if Enabled(cfg, p, step) { StepKeepsCalls(cfg, p, step); }
    }
  }

  lemma ConnectedInvariant(cfg: Config)
    ensures Invariant(cfg, Connected())
  {
  }

  lemma {:induction false} RunInvariant(cfg: Config, s: Session, steps: seq<Step>)
    requires Invariant(cfg, s) && |Run(cfg, s, steps).client.calls| <= MAX_CALLS
    ensures Invariant(cfg, Run(cfg, s, steps))
  {
    if steps != [] {
      var p := Run(cfg, s, steps[..|steps| - 1]);
      var step := steps[|steps| - 1];
      if Enabled(cfg, p, step) {
        StepKeepsCalls(cfg, p, step);
        RunInvariant(cfg, s, steps[..|steps| - 1]);
        StepInvariant(cfg, p, step);
      } else {
        RunInvariant(cfg, s, steps[..|steps| - 1]);
      }
    }
  }

  // ----- theorems

  /** Every schedule: a completed future holds what the handler of exactly this call's request first yielded, as the method's
      result type or as the error's parts, and the server ran that handler once: for this method id, argument and message
      id. */
  lemma AnswersMatchCalls(cfg: Config, steps: seq<Step>, n: nat) returns (k: nat)
    requires var s := Run(cfg, Connected(), steps); n < |s.client.calls| <= MAX_CALLS && s.client.calls[n].future.Done?
    ensures var s, h := Run(cfg, Connected(), steps), HistoryOf(cfg, steps);
            && |h.calls| == |s.client.calls| && |h.results| == |s.server.served| && k < |h.results|
            && s.server.served[k].header == Header(h.calls[n].methodId, MessageId(n), h.calls[n].payload)
            && (forall l | 0 <= l < |s.server.served| && s.server.served[l].header.messageId == MessageId(n) :: l == k)
            && h.results[k] != [] && h.calls[n].methodId in cfg.hub.cases
            && Delivers(cfg.hub.cases[h.calls[n].methodId], h.results[k][0], s.client.calls[n].future.outcome)
  {
    var s := Run(cfg, Connected(), steps);
    ConnectedInvariant(cfg);
    RunInvariant(cfg, Connected(), steps);
    RunShows(cfg, steps);
    k := AnswerOfCall(cfg, s, n);
    AnswerShows(cfg, s, HistoryOf(cfg, steps), n, k);
  }

  /** The invocation k ran for call n, and its first frame completed the call. */
  predicate AnsweredBy(s: Session, n: nat, k: nat)
    requires n < |s.client.calls|
  {
    var call := s.client.calls[n];
    && k < |s.server.served|
    && s.server.served[k].header == Header(call.methodId, MessageId(n), call.payload)
    && s.server.served[k].replies != []
    && IsReply(s.server.served[k].header, s.server.served[k].replies[0])
    && call.future == Done(AnswerOf(call, s.server.served[k].replies[0]))
    && forall l | 0 <= l < |s.server.served| && s.server.served[l].header.messageId == MessageId(n) :: l == k
  }

  lemma AnswerShows(cfg: Config, s: Session, h: History, n: nat, k: nat)
    requires Shows(cfg, s, h) && n < |s.client.calls| <= MAX_CALLS && AnsweredBy(s, n, k)
    ensures |h.calls| == |s.client.calls| && k < |h.results| && h.results[k] != [] && h.calls[n].methodId in cfg.hub.cases
    ensures s.server.served[k].header == Header(h.calls[n].methodId, MessageId(n), h.calls[n].payload)
    ensures Delivers(cfg.hub.cases[h.calls[n].methodId], h.results[k][0], s.client.calls[n].future.outcome)
  {
    assert IsCallOf(cfg, s.client.calls[n], h.calls[n]);
    assert InvocationCarries(s.server.served[k], h.results[k]);
    MessageIdsUsable(n, n);
    var frame := s.server.served[k].replies[0];
    assert Carries(s.server.served[k].header, h.results[k][0], frame);
    if h.results[k][0].Exception? { ErrorOutcomeIs(h.results[k][0].body); }
  }

  lemma AnswerOfCall(cfg: Config, s: Session, n: nat) returns (k: nat)
    requires Invariant(cfg, s) && n < |s.client.calls| && s.client.calls[n].future.Done?
    ensures AnsweredBy(s, n, k)
  {
    var id := MessageId(n);
    MessageIdsUsable(n, n);
    assert FutureOk(cfg, s.client, n, ForId(Seen(s.down), id), Visited(s.ending));
    SeenIsPrefix(s.down, id);
    assert IsServed(s.server, id);
    k :| 0 <= k < |s.server.served| && s.server.served[k].header.messageId == id;
    var m := ServedIsCall(cfg, s, k);
    MessageIdsUsable(n, m);
    var first := s.server.served[k].replies[0];
    assert first in s.server.served[k].replies;
    ReplyVerdict(cfg, s.client.calls[n], s.server.served[k].header, first);
    forall l | 0 <= l < |s.server.served| && s.server.served[l].header.messageId == id ensures l == k {
      ServedDistinct(cfg, s, k, l);
    }
  }

  /** Every schedule: the handler of a void request runs for a method and argument that were fired. */
  lemma VoidIsFired(cfg: Config, steps: seq<Step>, k: nat) returns (n: nat)
    requires var s := Run(cfg, Connected(), steps);
             && |s.client.calls| <= MAX_CALLS && k < |s.server.served| && s.server.served[k].header.messageId == VOID_MESSAGE_ID
    ensures var s, h := Run(cfg, Connected(), steps), HistoryOf(cfg, steps);
            n < |h.fired| && s.server.served[k].header == Header(h.fired[n].methodId, VOID_MESSAGE_ID, h.fired[n].payload)
  {
    var s := Run(cfg, Connected(), steps);
    ConnectedInvariant(cfg);
    RunInvariant(cfg, Connected(), steps);
    RunShows(cfg, steps);
    ServedHeader(s.up.wire, s.server, k);
    n := WireIsVoid(cfg, s.client.calls, s.up, k);
  }

  lemma WireIsVoid(cfg: Config, calls: seq<Call>, up: Upstream, k: nat) returns (n: nat)
    requires CallsOk(cfg, calls, up.requested) && UpOk(up) && k < |up.wire|
    requires FetchHeader(up.wire[k]).Some? && FetchHeader(up.wire[k]).value.messageId == VOID_MESSAGE_ID
    ensures n < |up.voids| && up.voids[n] == up.wire[k]
  {
    var f := up.wire[k];
    assert f in multiset(up.wire);
    assert f in multiset(up.requested) + multiset(up.voids);
    if f in up.requested {
      var m :| 0 <= m < |up.requested| && up.requested[m] == f;
      RequestsRoundTrip(MessageId(m), calls[m].methodId, calls[m].payload);
      MessageIdsUsable(m, m);
      assert false;
    }
    n :| 0 <= n < |up.voids| && up.voids[n] == f;
  }

  /** Every schedule: the receiver has been handed a prefix of what was broadcast, in order and each once. */
  lemma BroadcastsInOrder(cfg: Config, steps: seq<Step>)
    requires |Run(cfg, Connected(), steps).client.calls| <= MAX_CALLS
    ensures Run(cfg, Connected(), steps).client.received <= HistoryOf(cfg, steps).broadcasts
  {
    var s := Run(cfg, Connected(), steps);
    ConnectedInvariant(cfg);
    RunInvariant(cfg, Connected(), steps);
    RunShows(cfg, steps);
    SeenIsPrefix(s.down, 0);
    BroadcastsPrefix(Seen(s.down), [Marker()] + s.down.outbox.accepted);
    BroadcastsBehindMarker(s.down.outbox.accepted);
  }

  /** Every schedule: one writer at a time holds the lock, and no request is served twice. */
  lemma ExclusiveWritesServedOnce(cfg: Config, steps: seq<Step>)
    requires |Run(cfg, Connected(), steps).client.calls| <= MAX_CALLS
    ensures var s := Run(cfg, Connected(), steps);
            && |s.up.writing| <= 1
            && forall k, l | 0 <= k < l < |s.server.served| && s.server.served[k].header.messageId != VOID_MESSAGE_ID ::
                 s.server.served[k].header.messageId != s.server.served[l].header.messageId
  {
    var s := Run(cfg, Connected(), steps);
    ConnectedInvariant(cfg);
    RunInvariant(cfg, Connected(), steps);
    forall k, l | 0 <= k < l < |s.server.served| && s.server.served[k].header.messageId != VOID_MESSAGE_ID
      ensures s.server.served[k].header.messageId != s.server.served[l].header.messageId
    {
      if s.server.served[k].header.messageId == s.server.served[l].header.messageId { ServedDistinct(cfg, s, k, l); }
    }
  }

  /** Every schedule: no future is lost. While one is pending it is in the table under its own id. */
  lemma NoFutureLost(cfg: Config, steps: seq<Step>, n: nat)
    requires var s := Run(cfg, Connected(), steps); n < |s.client.calls| <= MAX_CALLS && s.client.calls[n].future.Pending?
    ensures var s := Run(cfg, Connected(), steps);
            MessageId(n) in s.client.table && s.client.table[MessageId(n)] == n
  {
    var s := Run(cfg, Connected(), steps);
    ConnectedInvariant(cfg);
    RunInvariant(cfg, Connected(), steps);
    assert FutureOk(cfg, s.client, n, ForId(Seen(s.down), MessageId(n)), Visited(s.ending));
  }

  /** Every interleaving of the user's dispose and the end of the stream: the clean-up runs at most once, nothing is
      consumed once it has begun, and after it every future registered before it is terminal. */
  lemma CleanupOnce(cfg: Config, steps: seq<Step>)
    requires |Run(cfg, Connected(), steps).client.calls| <= MAX_CALLS
    ensures var s := Run(cfg, Connected(), steps);
            && s.ending.cleanups <= 1
            && (s.ending.cleanups == 1 ==> s.ending.disposed && !Enabled(cfg, s, Consume) && !Enabled(cfg, s, BeginVisit))
            && (s.ending.cleanup.Finished? ==>
                  forall n | 0 <= n < s.ending.registeredBefore ::
                    n < |s.client.calls| && !s.client.calls[n].future.Pending?)
  {
    ConnectedInvariant(cfg);
    RunInvariant(cfg, Connected(), steps);
  }

  /** Every schedule: once the request stream is closed or the connection gone, nothing is written to it any more; once the
      connection is gone, nothing arrives; once the server's loop has ended, of itself or at a request that it cannot take, no
      handler is run; once either side has disposed of the client, only calls that had passed the check are made. */
  lemma NothingAfterTheEnd(cfg: Config, s: Session, step: Step, after: seq<Step>)
    requires Enabled(cfg, s, step)
    ensures var s' := Run(cfg, Apply(cfg, s, step), after);
            && (step.CloseRequests? || step.Break? ==> s'.up.wire == s.up.wire)
            && (step.Break? ==> s'.down.stream == s.down.stream)
            && (step.ServerDown? || (step.Begin? && !Takes(cfg, s)) ==> !s'.server.up && |s'.server.served| == |s.server.served|)
            && (step.UserDispose? || step.LoopDispose? ==>
                  |s'.client.calls| + |s'.up.voids| + s'.entering == |s.client.calls| + |s.up.voids| + s.entering)
  {
    AfterTheEnd(cfg, Apply(cfg, s, step), after);
    DownForGood(cfg, Apply(cfg, s, step), after);
  }

  lemma {:induction false} DownForGood(cfg: Config, s: Session, steps: seq<Step>)
    ensures var s' := Run(cfg, s, steps); !s.server.up ==> !s'.server.up && |s'.server.served| == |s.server.served|
  {
    if steps != [] { DownForGood(cfg, s, steps[..|steps| - 1]); }
  }

  lemma {:induction false} AfterTheEnd(cfg: Config, s: Session, steps: seq<Step>)
    ensures var s' := Run(cfg, s, steps);
            && (s.up.closed ==> s'.up.closed) && (s.down.broken ==> s'.down.broken) && (s.ending.disposed ==> s'.ending.disposed)
            && (s.up.closed || s.down.broken ==> s'.up.wire == s.up.wire)
            && (s.down.broken ==> s'.down.stream == s.down.stream)
            && (s.ending.disposed ==>
                  |s'.client.calls| + |s'.up.voids| + s'.entering == |s.client.calls| + |s.up.voids| + s.entering)
  {
    if steps != [] {
      AfterTheEnd(cfg, s, steps[..|steps| - 1]);
      var p := Run(cfg, s, steps[..|steps| - 1]);
      if Enabled(cfg, p, steps[|steps| - 1]) { StepAfterTheEnd(cfg, p, steps[|steps| - 1]); }
    }
  }

  lemma StepAfterTheEnd(cfg: Config, s: Session, step: Step)
    requires Enabled(cfg, s, step)
    ensures var s' := Apply(cfg, s, step);
            && (s.up.closed ==> s'.up.closed) && (s.down.broken ==> s'.down.broken) && (s.ending.disposed ==> s'.ending.disposed)
            && (s.up.closed || s.down.broken ==> s'.up.wire == s.up.wire)
            && (s.down.broken ==> s'.down.stream == s.down.stream)
            && (s.ending.disposed ==>
                  |s'.client.calls| + |s'.up.voids| + s'.entering == |s.client.calls| + |s.up.voids| + s.entering)
  {
    if step.Consume? && s.client.calls != [] { ConsumeSetsOnce(cfg.hub, s.client, s.down.stream[s.down.consumed], 0); }
  }

  /** A call that had passed the disposed check but registers after the clean-up is stranded: no schedule completes it. */
  lemma {:induction false} StrandedForEver(cfg: Config, s: Session, steps: seq<Step>, n: nat)
    requires s.ending.cleanup.Finished? && s.ending.disposed && !s.ending.reader.Reads?
    requires n < |s.client.calls| && s.client.calls[n].future.Pending?
    ensures var s' := Run(cfg, s, steps);
            && s'.ending.cleanup.Finished? && s'.ending.disposed && !s'.ending.reader.Reads?
            && n < |s'.client.calls| && s'.client.calls[n].future.Pending?
  {
    if steps != [] {
      StrandedForEver(cfg, s, steps[..|steps| - 1], n);
    }
  }

  /** Such a schedule exists, so "registered before the clean-up" cannot be dropped from `CleanupOnce`. */
  lemma LateCallStranded(cfg: Config, methodId: int)
    requires methodId in cfg.hub.cases && IsInt32(methodId)
    ensures var s := Run(cfg, Connected(), [Enter] + [StopReading] + [LoopDispose] + [BeginVisit] + [EndVisit] + [RegisterCall(methodId, [])]);
            s.ending.cleanup.Finished? && !s.ending.reader.Reads? && s.client.calls == [Call(methodId, cfg.hub.cases[methodId], [], Pending)]
  {
    var c := Connected().(entering := 1);
    var s2 := c.(ending := Ending(false, Nobody, NotBegun, Leaving, 0, 0));
    var s3 := c.(ending := Ending(true, Loop, Closing, Leaving, 0, 0));
    var s4 := c.(ending := Ending(true, Loop, Visiting({}), Leaving, 1, 0));
    var s5 := c.(ending := Ending(true, Loop, Finished, Left, 1, 0));
    LateCallSteps(cfg, c, s2, s3, s4, s5);
    RunNext(cfg, [], Connected(), Enter);
    assert [] + [Enter] == [Enter];
    RunNext(cfg, [Enter], c, StopReading);
    RunNext(cfg, [Enter] + [StopReading], s2, LoopDispose);
    RunNext(cfg, [Enter] + [StopReading] + [LoopDispose], s3, BeginVisit);
    RunNext(cfg, [Enter] + [StopReading] + [LoopDispose] + [BeginVisit], s4, EndVisit);
    RunNext(cfg, [Enter] + [StopReading] + [LoopDispose] + [BeginVisit] + [EndVisit], s5, RegisterCall(methodId, []));
  }

  lemma LateCallSteps(cfg: Config, c: Session, s2: Session, s3: Session, s4: Session, s5: Session)
    requires c == Connected().(entering := 1)
    requires s2 == c.(ending := Ending(false, Nobody, NotBegun, Leaving, 0, 0))
    requires s3 == c.(ending := Ending(true, Loop, Closing, Leaving, 0, 0))
    requires s4 == c.(ending := Ending(true, Loop, Visiting({}), Leaving, 1, 0))
    requires s5 == c.(ending := Ending(true, Loop, Finished, Left, 1, 0))
    ensures Apply(cfg, Connected(), Enter) == c && Apply(cfg, c, StopReading) == s2 && Apply(cfg, s2, LoopDispose) == s3
    ensures Apply(cfg, s3, BeginVisit) == s4 && Apply(cfg, s4, EndVisit) == s5
  {
    assert Connected().client.table.Keys == {};
  }

  lemma RunNext(cfg: Config, steps: seq<Step>, s: Session, step: Step)
    requires Run(cfg, Connected(), steps) == s && Enabled(cfg, s, step)
    ensures Run(cfg, Connected(), steps + [step]) == Apply(cfg, s, step)
  {
    assert (steps + [step])[..|steps|] == steps;
  }
}
