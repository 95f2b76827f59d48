/** The Redis back-plane (RedisGroup.cs, NativeGuidArrayFormatter.cs): a write is published to a channel as
      [isExcept, connectionIds, frame]
    and every subscribed server hands the frame to its in-memory dictionary group. Many servers together behave
    as one dictionary group. */
module RedisGroups {
  import opened Prelude
  import opened MessagePack
  import opened Frames
  import opened GroupWrites
  import opened GroupRegistry
  import opened GroupObjects

  // ----- lists of connection ids on the wire: a guid is a 16-byte binary

  function WriteGuids(ids: seq<Guid>): bytes {
    if ids == [] then [] else WriteBinary(ids[0]) + WriteGuids(ids[1..])
  }

  function SerializeGuids(ids: Option<seq<Guid>>): bytes
    requires ids.Some? ==> IsLength(|ids.value|)
  {
    match ids
    case None => [NIL]
    case Some(v) => WriteArrayHeader(|v|) + WriteGuids(v)
  }

  function ReadGuid(b: bytes): Read<Guid> {
    match ReadBinary(b)
    case Fail => Fail
    case Got(v, r) => if |v| == 16 then Got(v, r) else Fail
  }

  function ReadGuids(b: bytes, n: nat): Read<seq<Guid>> {
    if n == 0 then Got([], b)
    else
      match ReadGuid(b)
      case Fail => Fail
      case Got(id, r) => Prepend([id], ReadGuids(r, n - 1))
  }

  function Prepend(ids: seq<Guid>, r: Read<seq<Guid>>): Read<seq<Guid>> {
    match r
    case Fail => Fail
    case Got(more, rest) => Got(ids + more, rest)
  }

  function DeserializeGuids(b: bytes): Read<Option<seq<Guid>>> {
    if b != [] && b[0] == NIL then Got(None, b[1..])
    else
      match ReadArrayHeader(b)
      case Fail => Fail
      case Got(n, r) =>
        match ReadGuids(r, n)
        case Fail => Fail
        case Got(ids, rest) => Got(Some(ids), rest)
  }

  lemma ReadGuidWritten(id: Guid, rest: bytes)
    ensures ReadGuid(WriteBinary(id) + rest) == Got(id, rest)
  {
    ReadBinaryWritten(id, rest);
  }

  lemma WriteGuidsHead(ids: seq<Guid>, rest: bytes)
    requires ids != []
    ensures WriteGuids(ids) + rest == WriteBinary(ids[0]) + (WriteGuids(ids[1..]) + rest)
  {
    RegroupBytes(WriteBinary(ids[0]), WriteGuids(ids[1..]), rest);
  }

  lemma RegroupBytes(a: bytes, b: bytes, c: bytes)
    ensures a + b + c == a + (b + c)
  {
  }

  lemma {:induction false} ReadGuidsWritten(ids: seq<Guid>, rest: bytes)
    ensures ReadGuids(WriteGuids(ids) + rest, |ids|) == Got(ids, rest)
  {
    if ids == [] {
      assert WriteGuids(ids) + rest == rest;
    } else {
      WriteGuidsHead(ids, rest);
      ReadGuidWritten(ids[0], WriteGuids(ids[1..]) + rest);
      ReadGuidsWritten(ids[1..], rest);
      assert [ids[0]] + ids[1..] == ids;
    }
  }

  /** Null, empty and filled lists read back as written, and exactly their bytes are consumed. */
  lemma GuidsRoundTrip(ids: Option<seq<Guid>>, rest: bytes)
    requires ids.Some? ==> IsLength(|ids.value|)
    ensures DeserializeGuids(SerializeGuids(ids) + rest) == Got(ids, rest)
  {
    match ids
    case None => assert (SerializeGuids(ids) + rest)[1..] == rest;
    case Some(v) =>
      assert SerializeGuids(ids) + rest == WriteArrayHeader(|v|) + (WriteGuids(v) + rest);
      ReadArrayHeaderWritten(|v|, WriteGuids(v) + rest);
      ReadGuidsWritten(v, rest);
  }

  /** The formatter's `Serialize`: appends to what the writer holds. */
  method Serialize(buffer: bytes, ids: Option<seq<Guid>>) returns (written: bytes)
    requires ids.Some? ==> IsLength(|ids.value|)
    ensures written == buffer + SerializeGuids(ids)
  {
    if ids.None? { return buffer + [NIL]; }
    var value := ids.value;
    written := buffer + WriteArrayHeader(|value|);
    for i := 0 to |value|
      invariant written + WriteGuids(value[i..]) == buffer + SerializeGuids(ids)
    {
      assert value[i..][1..] == value[i + 1..];
      written := written + WriteBinary(value[i]);
    }
  }

  lemma PrependNothing(r: Read<seq<Guid>>)
    ensures Prepend([], r) == r
  {
    if r.Got? { assert [] + r.value == r.value; }
  }

  lemma PrependOneMore(ids: seq<Guid>, id: Guid, r: Read<seq<Guid>>)
    ensures Prepend(ids, Prepend([id], r)) == Prepend(ids + [id], r)
  {
    if r.Got? { assert ids + ([id] + r.value) == ids + [id] + r.value; }
  }

  /** The formatter's `Deserialize`: fills an array; `Fail` is the exception of the first id that cannot be read. */
  method Deserialize(b: bytes) returns (r: Read<Option<seq<Guid>>>)
    ensures r == DeserializeGuids(b)
  {
    if b != [] && b[0] == NIL { return Got(None, b[1..]); }
    var header := ReadArrayHeader(b);
    if header.Fail? { return Fail; }
    var ids := ReadInto(header.value, header.rest);
    if ids.Fail? { return Fail; }
    return Got(Some(ids.value), ids.rest);
  }

  /** Its loop, which fills an array. */
  method ReadInto(n: nat, b: bytes) returns (r: Read<seq<Guid>>)
    ensures r == ReadGuids(b, n)
  {
    var reader := b;
    var result := new Guid[n];
    PrependNothing(ReadGuids(b, n));
    assert result[..0] == [];
    for i := 0 to n
      invariant ReadGuids(b, n) == Prepend(result[..i], ReadGuids(reader, n - i))
    {
      var id := ReadGuid(reader);
      if id.Fail? { return Fail; }
      ReadOneMore(result[..i], reader, n - i);
      result[i] := id.value;
      reader := id.rest;
      assert result[..i + 1] == result[..i] + [id.value];
    }
    PrependToNothing(result[..n], reader);
    assert result[..n] == result[..];
    return Got(result[..], reader);
  }

  lemma ReadOneMore(ids: seq<Guid>, b: bytes, n: nat)
    requires n > 0 && ReadGuid(b).Got?
    ensures Prepend(ids, ReadGuids(b, n)) == Prepend(ids + [ReadGuid(b).value], ReadGuids(ReadGuid(b).rest, n - 1))
  {
    PrependOneMore(ids, ReadGuid(b).value, ReadGuids(ReadGuid(b).rest, n - 1));
  }

  lemma PrependToNothing(ids: seq<Guid>, b: bytes)
    ensures Prepend(ids, ReadGuids(b, 0)) == Got(ids, b)
  {
    assert ids + [] == ids;
  }

  // ----- published messages

  function Message(isExcept: bool, ids: Option<seq<Guid>>, methodId: int, payload: bytes): bytes
    requires ids.Some? ==> IsLength(|ids.value|)
    requires IsInt32(methodId)
  {
    WriteArrayHeader(3) + WriteBoolean(isExcept) + SerializeGuids(ids) + Broadcast(methodId, payload)
  }

  /** What a server makes of a message: a raw write to its in-memory group, nothing, or an exception. */
  datatype Received = Routed(w: Write, frame: bytes) | Ignored | Broken

  function ReadMessage(b: bytes): Received {
    match ReadArrayHeader(b)
    case Fail => Broken
    case Got(n, r) => if n == 3 then ReadRouting(r) else Ignored
  }

  function ReadRouting(b: bytes): Received {
    match ReadBoolean(b)
    case Fail => Broken
    case Got(isExcept, r) =>
      match DeserializeGuids(r)
      case Fail => Broken
      case Got(ids, frame) => Routed(RawWrite(isExcept, ids), frame)
  }

  function RawWrite(isExcept: bool, ids: Option<seq<Guid>>): Write {
    if isExcept then ExceptRaw(ids) else ToRaw(ids)
  }

  lemma ReadRoutingWritten(isExcept: bool, ids: Option<seq<Guid>>, frame: bytes)
    requires ids.Some? ==> IsLength(|ids.value|)
    ensures ReadRouting(WriteBoolean(isExcept) + (SerializeGuids(ids) + frame)) == Routed(RawWrite(isExcept, ids), frame)
  {
    var b := WriteBoolean(isExcept) + (SerializeGuids(ids) + frame);
    assert b[1..] == SerializeGuids(ids) + frame;
    GuidsRoundTrip(ids, frame);
  }

  /** Every message a group publishes is routed as it says, and the bytes handed on are the very bytes an in-memory
      group would have queued. */
  lemma MessageRoundTrip(isExcept: bool, ids: Option<seq<Guid>>, methodId: int, payload: bytes)
    requires ids.Some? ==> IsLength(|ids.value|)
    requires IsInt32(methodId)
    ensures ReadMessage(Message(isExcept, ids, methodId, payload))
         == Routed(RawWrite(isExcept, ids), Broadcast(methodId, payload))
  {
    MessageParts(isExcept, ids, methodId, payload);
    ReadArrayHeaderWritten(3, WriteBoolean(isExcept) + (SerializeGuids(ids) + Broadcast(methodId, payload)));
    ReadRoutingWritten(isExcept, ids, Broadcast(methodId, payload));
  }

  lemma MessageParts(isExcept: bool, ids: Option<seq<Guid>>, methodId: int, payload: bytes)
    requires ids.Some? ==> IsLength(|ids.value|)
    requires IsInt32(methodId)
    ensures Message(isExcept, ids, methodId, payload)
         == WriteArrayHeader(3) + (WriteBoolean(isExcept) + (SerializeGuids(ids) + Broadcast(methodId, payload)))
  {
    RegroupFour(WriteArrayHeader(3), WriteBoolean(isExcept), SerializeGuids(ids), Broadcast(methodId, payload));
  }

  lemma RegroupFour(a: bytes, b: bytes, c: bytes, d: bytes)
    ensures a + b + c + d == a + (b + (c + d))
  {
  }

  /** The bytes of a message, */
  lemma MessageBytes(isExcept: bool, ids: Option<seq<Guid>>, methodId: int, payload: bytes)
    requires (ids.Some? ==> IsLength(|ids.value|)) && IsInt32(methodId)
    ensures var n := if methodId < 0 then methodId + 0x1_0000_0000 else methodId;
            var frame := [0x92, 0xd2, n / 0x100_0000, n / 0x1_0000 % 0x100, n / 0x100 % 0x100, n % 0x100] + payload;
            && Message(isExcept, ids, methodId, payload) == [0x93, if isExcept then 0xc3 else 0xc2] + SerializeGuids(ids) + frame
            && Broadcast(methodId, payload) == frame
  {
    WrittenLengths(2);
    WrittenLengths(3);
    WrittenIntegers(methodId);
    var tag := if isExcept then 0xc3 else 0xc2;
    assert WriteArrayHeader(3) + WriteBoolean(isExcept) == [0x93, tag];
  }

  /** and of its list of ids. */
  lemma GuidsBytes(ids: seq<Guid>)
    requires IsLength(|ids|)
    ensures SerializeGuids(None) == [0xc0] && SerializeGuids(Some(ids)) == WriteArrayHeader(|ids|) + WriteGuids(ids)
    ensures WriteGuids([]) == [] && (ids != [] ==> WriteGuids(ids) == [0xc4, 0x10] + ids[0] + WriteGuids(ids[1..]))
  {
    WrittenLengths(16);
  }

  // ----- the write members of a Redis group

  /** The write members that publish; the two raw ones are refused. */
  predicate Publishes(w: Write) {
    match w
    case Except(ids) => IsLength(|ids|)
    case To(ids) => IsLength(|ids|)
    case ExceptRaw(_) => false
    case ToRaw(_) => false
    case _ => true
  }

  function Routing(w: Write): (bool, Option<seq<Guid>>)
    requires Publishes(w)
  {
    match w
    case All => (true, None)
    case ExceptOne(id) => (true, Some([id]))
    case Except(ids) => (true, Some(ids))
    case ToOne(id) => (false, Some([id]))
    case To(ids) => (false, Some(ids))
  }

  function Published(w: Write, methodId: int, payload: bytes): bytes
    requires Publishes(w) && IsInt32(methodId)
  {
    Message(Routing(w).0, Routing(w).1, methodId, payload)
  }

  /** The raw write a server performs addresses the same members as the write that was asked for. */
  lemma RoutingKeepsTargets(members: set<Guid>, w: Write, c: Guid)
    requires Publishes(w)
    ensures DictionaryCopies(members, RawWrite(Routing(w).0, Routing(w).1), c) == DictionaryCopies(members, w, c)
  {
    match w
    case ExceptOne(id) => assert c in [id] <==> c == id;
    case ToOne(id) => assert multiset([id])[c] == if c == id then 1 else 0;
    case _ =>
  }

  /** What one server queues to connection c for message b. */
  function ServerQueues(members: set<Guid>, b: bytes, c: Guid): seq<bytes> {
    match ReadMessage(b)
    case Routed(w, frame) => Copies(frame, DictionaryCopies(members, w, c))
    case _ => []
  }

  /** One server, holding all members: publishing and delivering is the write itself. */
  lemma ServerRefines(members: set<Guid>, w: Write, methodId: int, payload: bytes, c: Guid)
    requires Publishes(w) && IsInt32(methodId)
    ensures ServerQueues(members, Published(w, methodId, payload), c)
         == Copies(Broadcast(methodId, payload), DictionaryCopies(members, w, c))
  {
    MessageRoundTrip(Routing(w).0, Routing(w).1, methodId, payload);
    RoutingKeepsTargets(members, w, c);
  }

  // ----- many servers

  type Servers = seq<set<Guid>>

  function ClusterQueues(servers: Servers, b: bytes, c: Guid): seq<bytes> {
    if servers == [] then []
    else ClusterQueues(servers[..|servers| - 1], b, c) + ServerQueues(servers[|servers| - 1], b, c)
  }

  function Union(servers: Servers): (all: set<Guid>)
    ensures forall c :: c in all <==> exists i :: 0 <= i < |servers| && c in servers[i]
  {
    if servers == [] then {}
    else
      var front, last := servers[..|servers| - 1], servers[|servers| - 1];
      assert forall i | 0 <= i < |front| :: front[i] == servers[i];
      Union(front) + last
  }

  /** A connection is connected to one server. */
  ghost predicate OneServerEach(servers: Servers) {
    forall i, j, c | 0 <= i < j < |servers| && c in servers[i] :: c !in servers[j]
  }

  lemma AddMember(front: set<Guid>, last: set<Guid>, w: Write, c: Guid)
    requires c in front ==> c !in last
    ensures DictionaryCopies(front + last, w, c) == DictionaryCopies(front, w, c) + DictionaryCopies(last, w, c)
  {
  }

  /** A cluster refines one in-memory dictionary group: however the members are split over the servers, every
      connection is queued the same frame, as often, as by the group that holds the union. */
  lemma {:induction false} ClusterRefines(servers: Servers, w: Write, methodId: int, payload: bytes, c: Guid)
    requires OneServerEach(servers) && Publishes(w) && IsInt32(methodId)
    ensures ClusterQueues(servers, Published(w, methodId, payload), c)
         == Copies(Broadcast(methodId, payload), DictionaryCopies(Union(servers), w, c))
  {
    if servers != [] {
      var front, last := servers[..|servers| - 1], servers[|servers| - 1];
      ClusterRefines(front, w, methodId, payload, c);
      ServerRefines(last, w, methodId, payload, c);
      AddMember(Union(front), last, w, c);
    }
  }

  /** And only then: a connection that is a member on two servers gets a broadcast twice. */
  lemma {:induction false} ClusterCopies(servers: Servers, methodId: int, payload: bytes, c: Guid)
    requires IsInt32(methodId)
    ensures |ClusterQueues(servers, Published(All, methodId, payload), c)| == Homes(servers, c)
  {
    if servers != [] {
      ClusterCopies(servers[..|servers| - 1], methodId, payload, c);
      ServerRefines(servers[|servers| - 1], All, methodId, payload, c);
    }
  }

  function Homes(servers: Servers, c: Guid): nat {
    if servers == [] then 0
    else Homes(servers[..|servers| - 1], c) + if c in servers[|servers| - 1] then 1 else 0
  }

  // ----- runs of a cluster

  datatype ClusterOp = JoinHome(c: Guid) | LeaveHome(c: Guid) | Publish(w: Write, methodId: int, payload: bytes)

  predicate Legal(op: ClusterOp) {
    op.Publish? ==> Publishes(op.w) && IsInt32(op.methodId)
  }

  predicate LegalOps(ops: seq<ClusterOp>) {
    forall i | 0 <= i < |ops| :: Legal(ops[i])
  }

  /** The members of server i when `home` says which server a connection is on. */
  function ServerMembers(home: Guid -> nat, i: nat, ops: seq<ClusterOp>): set<Guid> {
    if ops == [] then {}
    else
      var before := ServerMembers(home, i, ops[..|ops| - 1]);
      match ops[|ops| - 1]
      case JoinHome(c) => if home(c) == i then before + {c} else before
      case LeaveHome(c) => if home(c) == i then before - {c} else before
      case Publish(_, _, _) => before
  }

  function Members(home: Guid -> nat, n: nat, ops: seq<ClusterOp>): Servers {
    seq(n, i requires 0 <= i => ServerMembers(home, i, ops))
  }

  function ClusterReceived(home: Guid -> nat, n: nat, ops: seq<ClusterOp>, c: Guid): seq<bytes>
    requires LegalOps(ops)
  {
    if ops == [] then []
    else
      var before := ops[..|ops| - 1];
      ClusterReceived(home, n, before, c)
      + match ops[|ops| - 1]
        case Publish(w, methodId, payload) => ClusterQueues(Members(home, n, before), Published(w, methodId, payload), c)
        case _ => []
  }

  /** The same run on one in-memory group. */
  function OnOneGroup(ops: seq<ClusterOp>): (one: seq<Op>)
    requires LegalOps(ops)
    ensures |one| == |ops|
  {
    if ops == [] then []
    else
      OnOneGroup(ops[..|ops| - 1])
      + [match ops[|ops| - 1]
         case JoinHome(c) => Join(c)
         case LeaveHome(c) => Leave(c)
         case Publish(w, methodId, payload) => Send(w, Broadcast(methodId, payload))]
  }

  lemma OnOneGroupFront(ops: seq<ClusterOp>)
    requires LegalOps(ops) && ops != []
    ensures OnOneGroup(ops)[..|ops| - 1] == OnOneGroup(ops[..|ops| - 1])
  {
    var front := OnOneGroup(ops[..|ops| - 1]);
    assert OnOneGroup(ops) == front + [OnOneGroup(ops)[|ops| - 1]];
  }

  lemma {:induction false} HomeMembers(home: Guid -> nat, i: nat, ops: seq<ClusterOp>, c: Guid)
    requires LegalOps(ops)
    ensures c in ServerMembers(home, i, ops) <==> i == home(c) && c in DictionaryMembers(OnOneGroup(ops))
  {
    if ops != [] {
      OnOneGroupFront(ops);
      HomeMembers(home, i, ops[..|ops| - 1], c);
    }
  }

  lemma MembersUnion(home: Guid -> nat, n: nat, ops: seq<ClusterOp>)
    requires LegalOps(ops) && forall c :: home(c) < n
    ensures OneServerEach(Members(home, n, ops)) && Union(Members(home, n, ops)) == DictionaryMembers(OnOneGroup(ops))
  {
    var servers := Members(home, n, ops);
    forall i, j, c | 0 <= i < j < |servers| && c in servers[i] ensures c !in servers[j] {
      HomeMembers(home, i, ops, c);
      HomeMembers(home, j, ops, c);
    }
    forall c ensures c in Union(servers) <==> c in DictionaryMembers(OnOneGroup(ops)) {
      HomeMembers(home, home(c), ops, c);
      assert servers[home(c)] == ServerMembers(home, home(c), ops);
      if c in Union(servers) {
        var i :| 0 <= i < |servers| && c in servers[i];
        HomeMembers(home, i, ops, c);
      }
    }
    assert Union(servers) == DictionaryMembers(OnOneGroup(ops));
  }

  /** Over every run of joins, leaves (redundant ones included) and writes, on any number of servers: every connection
      receives the same frames in the same order as from one in-memory dictionary group. */
  lemma {:induction false} ClusterRunRefines(home: Guid -> nat, n: nat, ops: seq<ClusterOp>, c: Guid)
    requires LegalOps(ops) && forall d :: home(d) < n
    ensures ClusterReceived(home, n, ops, c) == DictionaryReceived(OnOneGroup(ops), c)
  {
    if ops != [] {
      var before := ops[..|ops| - 1];
      ClusterRunRefines(home, n, before, c);
      OnOneGroupFront(ops);
      match ops[|ops| - 1]
      case Publish(w, methodId, payload) =>
        MembersUnion(home, n, before);
        ClusterRefines(Members(home, n, before), w, methodId, payload, c);
      case _ =>
    }
  }

  // ----- deliveries that happen later

  /** The servers with `log`, the channel's messages in publication order, of which server i has taken `seen[i]`.
      `got` is what one observed connection was queued. */
  datatype Channel = Channel(servers: Servers, log: seq<bytes>, seen: seq<nat>, got: seq<bytes>)

  datatype ChannelStep =
    | JoinAt(i: nat, d: Guid)
    | LeaveAt(i: nat, d: Guid)
    | PublishMessage(b: bytes)
    | DeliverAt(i: nat)

  predicate ChannelOk(s: Channel) {
    |s.seen| == |s.servers| && forall i | 0 <= i < |s.seen| :: s.seen[i] <= |s.log|
  }

  function ChannelNext(s: Channel, step: ChannelStep, c: Guid): (s': Channel)
    requires ChannelOk(s)
    ensures ChannelOk(s')
  {
    match step
    case JoinAt(i, d) => if i < |s.servers| then s.(servers := s.servers[i := s.servers[i] + {d}]) else s
    case LeaveAt(i, d) => if i < |s.servers| then s.(servers := s.servers[i := s.servers[i] - {d}]) else s
    case PublishMessage(b) => s.(log := s.log + [b])
    case DeliverAt(i) =>
      if i < |s.seen| && s.seen[i] < |s.log| then
        s.(seen := s.seen[i := s.seen[i] + 1], got := s.got + ServerQueues(s.servers[i], s.log[s.seen[i]], c))
      else s
  }

  function ChannelRun(s: Channel, steps: seq<ChannelStep>, c: Guid): (s': Channel)
    requires ChannelOk(s)
    ensures ChannelOk(s')
  {
    if steps == [] then s else ChannelNext(ChannelRun(s, steps[..|steps| - 1], c), steps[|steps| - 1], c)
  }

  /** What a message says to a connection that is a member. */
  function Says(c: Guid): bytes -> seq<bytes> {
    b => ServerQueues({c}, b, c)
  }

  function Addressed(messages: seq<bytes>, says: bytes -> seq<bytes>): seq<bytes> {
    if messages == [] then []
    else Addressed(messages[..|messages| - 1], says) + says(messages[|messages| - 1])
  }

  ghost predicate LivesAt(s: Channel, c: Guid, home: nat) {
    forall i | 0 <= i < |s.servers| :: c in s.servers[i] <==> i == home
  }

  /** The step neither takes c out of its server nor brings it to another. */
  predicate StepStays(step: ChannelStep, c: Guid, home: nat) {
    && (step.LeaveAt? && step.d == c ==> step.i != home)
    && (step.JoinAt? && step.d == c ==> step.i == home)
  }

  lemma StepLives(s: Channel, step: ChannelStep, c: Guid, home: nat)
    requires ChannelOk(s) && home < |s.servers| && LivesAt(s, c, home) && StepStays(step, c, home)
    ensures var s' := ChannelNext(s, step, c); |s'.servers| == |s.servers| && LivesAt(s', c, home)
  {
  }

  /** From s to s', server `home` took one message or none, and the connection got what that message says to it. */
  predicate Takes(s: Channel, s': Channel, says: bytes -> seq<bytes>, home: nat)
    requires ChannelOk(s) && ChannelOk(s') && home < |s.servers| && home < |s'.servers|
  {
    && s.log <= s'.log
    && (if s'.seen[home] == s.seen[home] then s'.got == s.got
        else s'.seen[home] == s.seen[home] + 1 && s'.got == s.got + says(s'.log[s.seen[home]]))
  }

  lemma StepTakes(s: Channel, step: ChannelStep, c: Guid, home: nat)
    requires ChannelOk(s) && home < |s.servers| && LivesAt(s, c, home)
    ensures Takes(s, ChannelNext(s, step, c), Says(c), home)
  {
    if step.DeliverAt? && step.i < |s.seen| && s.seen[step.i] < |s.log| {
      OwnServerOnly(s.servers[step.i], s.log[s.seen[step.i]], c);
    }
  }

  lemma OwnServerOnly(members: set<Guid>, b: bytes, c: Guid)
    ensures ServerQueues(members, b, c) == if c in members then ServerQueues({c}, b, c) else []
  {
    match ReadMessage(b)
    case Routed(w, frame) =>
      assert DictionaryCopies(members, w, c) == if c in members then DictionaryCopies({c}, w, c) else 0;
    case _ =>
  }

  lemma AddressedNext(log: seq<bytes>, from: nat, to: nat, says: bytes -> seq<bytes>)
    requires from <= to < |log|
    ensures Addressed(log[from..to + 1], says) == Addressed(log[from..to], says) + says(log[to])
  {
    var taken := log[from..to + 1];
    assert taken[..|taken| - 1] == log[from..to];
    assert taken[|taken| - 1] == log[to];
  }

  /** The connection got exactly what the messages taken from s to s' say to it. */
  predicate GotAll(s: Channel, s': Channel, says: bytes -> seq<bytes>, home: nat)
    requires ChannelOk(s) && ChannelOk(s') && home < |s.servers| && home < |s'.servers|
  {
    && s.log <= s'.log && s.seen[home] <= s'.seen[home]
    && s'.got == s.got + Addressed(s'.log[s.seen[home]..s'.seen[home]], says)
  }

  lemma GotAllNext(s: Channel, p: Channel, s': Channel, says: bytes -> seq<bytes>, home: nat)
    requires ChannelOk(s) && ChannelOk(p) && ChannelOk(s')
    requires home < |s.servers| && home < |p.servers| && home < |s'.servers|
    requires GotAll(s, p, says, home) && Takes(p, s', says, home)
    ensures GotAll(s, s', says, home)
  {
    var from, to := s.seen[home], p.seen[home];
    SamePart(p.log, s'.log, from, to);
    if s'.seen[home] != to {
      AddressedNext(s'.log, from, to, says);
      Regroup(s.got, Addressed(p.log[from..to], says), says(s'.log[to]));
    }
  }

  lemma SamePart(log: seq<bytes>, longer: seq<bytes>, from: nat, to: nat)
    requires log <= longer && from <= to <= |log|
    ensures longer[from..to] == log[from..to]
  {
  }

  lemma Regroup(a: seq<bytes>, b: seq<bytes>, c: seq<bytes>)
    ensures (a + b) + c == a + (b + c)
  {
  }

  /** However deliveries on all servers interleave with publications and with other connections' joins and leaves: a
      connection that stays a member gets, in publication order and without gap or repetition, exactly what the messages
      its server has taken since say to it. */
  lemma {:induction false} MemberGetsEverything(s: Channel, steps: seq<ChannelStep>, c: Guid, home: nat)
    requires ChannelOk(s) && home < |s.servers| && LivesAt(s, c, home)
    requires forall i | 0 <= i < |steps| :: StepStays(steps[i], c, home)
    ensures var s' := ChannelRun(s, steps, c);
            |s'.servers| == |s.servers| && LivesAt(s', c, home) && GotAll(s, s', Says(c), home)
  {
    if steps == [] {
      assert s.log[s.seen[home]..s.seen[home]] == [];
    } else {
      var step := steps[|steps| - 1];
      MemberGetsEverything(s, steps[..|steps| - 1], c, home);
      var p := ChannelRun(s, steps[..|steps| - 1], c);
      StepLives(p, step, c, home);
      StepTakes(p, step, c, home);
      GotAllNext(s, p, ChannelNext(p, step, c), Says(c), home);
    }
  }

  // ----- objects

  /** The shared counters and one channel. A missing key counts as zero. */
  class Redis {
    var counts: map<string, int>
    var channel: seq<bytes>

    constructor ()
      ensures counts == map[] && channel == []
    {
      counts, channel := map[], [];
    }

    function Count(key: string): int
      reads this
    {
      if key in counts then counts[key] else 0
    }

    method StringIncrement(key: string)
      modifies this`counts
      ensures counts == old(counts)[key := old(Count(key)) + 1]
    {
      counts := counts[key := Count(key) + 1];
    }

    method StringDecrement(key: string) returns (n: int)
      modifies this`counts
      ensures n == old(Count(key)) - 1 && counts == old(counts)[key := n]
    {
      n := Count(key) - 1;
      counts := counts[key := n];
    }

    method KeyDelete(key: string)
      modifies this`counts
      ensures counts == old(counts) - {key}
    {
      counts := counts - {key};
    }
  }

  class RedisGroup {
    const counterKey: string
    const inmemoryGroup: ConcurrentDictionaryGroup
    const redis: Redis
    var subscribed: bool

    constructor (counterKey: string, inmemoryGroup: ConcurrentDictionaryGroup, redis: Redis)
      ensures this.counterKey == counterKey && this.inmemoryGroup == inmemoryGroup && this.redis == redis && subscribed
    {
      this.counterKey, this.inmemoryGroup, this.redis := counterKey, inmemoryGroup, redis;
      subscribed := true;
    }

    /** Counts the call, whether or not the connection is new to the group. */
    method AddAsync(c: Guid)
      requires inmemoryGroup.Valid()
      modifies inmemoryGroup, redis`counts
      ensures inmemoryGroup.Valid() && inmemoryGroup.View() == Add(DictionaryKind, old(inmemoryGroup.View()), c)
      ensures redis.counts == old(redis.counts)[counterKey := old(redis.Count(counterKey)) + 1]
    {
      redis.StringIncrement(counterKey);
      inmemoryGroup.AddAsync(c);
    }

    /** Counts the call down; when the local group left its repository, the last member deletes the key and the
        subscription ends. */
    method RemoveAsync(c: Guid) returns (removed: bool)
      requires inmemoryGroup.Valid()
      modifies this, inmemoryGroup, inmemoryGroup.parent, redis`counts
      ensures inmemoryGroup.Valid() && inmemoryGroup.View() == Remove(DictionaryKind, old(inmemoryGroup.View()), c)
      ensures removed == (Unregisters(DictionaryKind, old(inmemoryGroup.View()), c)
                          && inmemoryGroup.groupName in old(inmemoryGroup.parent.dictionary))
      ensures subscribed == (old(subscribed) && !removed)
      ensures var n := old(redis.Count(counterKey)) - 1;
              redis.counts == if removed && n == 0 then old(redis.counts) - {counterKey} else old(redis.counts)[counterKey := n]
    {
      removed := inmemoryGroup.RemoveAsync(c);
      var n := redis.StringDecrement(counterKey);
      if removed {
        if n == 0 {
          redis.KeyDelete(counterKey);
          assert redis.counts == old(redis.counts) - {counterKey};
        }
        subscribed := false;
      }
    }

    method BuildMessage(methodId: int, payload: bytes, ids: Option<seq<Guid>>, isExcept: bool) returns (message: bytes)
      requires ids.Some? ==> IsLength(|ids.value|)
      requires IsInt32(methodId)
      ensures message == Message(isExcept, ids, methodId, payload)
    {
      var buffer := WriteArrayHeader(3) + WriteBoolean(isExcept);
      buffer := Serialize(buffer, ids);
      buffer := buffer + WriteArrayHeader(2) + WriteInt32(methodId);
      message := buffer + payload;
      assert message == WriteArrayHeader(3) + WriteBoolean(isExcept) + SerializeGuids(ids) + Broadcast(methodId, payload);
    }

    /** The write members: `NotSupported` for the raw ones, whatever the fire-and-forget flag for the others. */
    method Send(w: Write, methodId: int, payload: bytes) returns (supported: bool)
      requires (w.Except? || w.To?) ==> IsLength(|w.ids|)
      requires IsInt32(methodId)
      modifies redis`channel
      ensures supported == !(w.ExceptRaw? || w.ToRaw?)
      ensures redis.channel == if supported then old(redis.channel) + [Published(w, methodId, payload)] else old(redis.channel)
    {
      var message: bytes;
      match w {
        case All => message := BuildMessage(methodId, payload, None, true);
        case ExceptOne(id) => message := BuildMessage(methodId, payload, Some([id]), true);
        case Except(ids) => message := BuildMessage(methodId, payload, Some(ids), true);
        case ToOne(id) => message := BuildMessage(methodId, payload, Some([id]), false);
        case To(ids) => message := BuildMessage(methodId, payload, Some(ids), false);
        case _ => return false;
      }
      redis.channel := redis.channel + [message];
      return true;
    }
  }

  /** Delivery on one server; `broken` is an exception of the reader. */
  method PublishFromRedisToMemoryGroup(value: bytes, group: ConcurrentDictionaryGroup) returns (broken: bool, order: seq<Guid>)
    requires group.Valid()
    modifies group.connections
    ensures Enumerates(order, group.Keys())
    ensures match ReadMessage(value)
            case Routed(w, frame) =>
              !broken && group.connections.queues == Deliver(old(group.connections.queues), DictionaryTargets(order, w), frame)
            case Ignored => !broken && group.connections.queues == old(group.connections.queues)
            case Broken => broken && group.connections.queues == old(group.connections.queues)
  {
    order := group.Enumerate();
    var header := ReadArrayHeader(value);
    if header.Fail? { return true, order; }
    if header.value != 3 { return false, order; }
    var isExcept := ReadBoolean(header.rest);
    if isExcept.Fail? { return true, order; }
    var ids := Deserialize(isExcept.rest);
    if ids.Fail? { return true, order; }
    var _, seen := group.Send(RawWrite(isExcept.value, ids.value), ids.rest, true);
    return false, seen;
  }

  /** So what a delivery queues to each connection is what `ServerQueues` says, in whatever order the keys are seen. */
  lemma DeliveryQueues(q: Queues, order: seq<Guid>, members: set<Guid>, b: bytes, c: Guid)
    requires Enumerates(order, members) && ReadMessage(b).Routed?
    ensures var m := ReadMessage(b);
            QueueOf(Deliver(q, DictionaryTargets(order, m.w), m.frame), c) == QueueOf(q, c) + ServerQueues(members, b, c)
  {
    var m := ReadMessage(b);
    DeliveredTo(q, DictionaryTargets(order, m.w), m.frame, c);
    DictionaryTargetsCount(order, members, m.w, c);
  }
}
