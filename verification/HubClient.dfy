/** The client side of a hub connection (StreamingHubClientBase.cs): message ids, the table of pending futures,
    and the consumer of server frames. A future is named by the number of the call that created it. */
module HubClient {
  import opened Prelude
  import opened MessagePack
  import opened Frames

  // ----- futures

  /** `Result` stands for `Deserialize<ty>(payload)`, whether that yields a value or throws. */
  datatype Outcome =
    | Result(ty: int, payload: bytes)
    | RpcError(status: int, detail: bytes, extra: Option<bytes>)
    | InvalidCast

  datatype Future = Pending | Done(outcome: Outcome) | Canceled

  /** Completion sources have try-set semantics: only a pending one changes. */
  function TrySet(f: Future, g: Future): Future {
    if f.Pending? then g else f
  }

  datatype Call = Call(methodId: int, ty: int, payload: bytes, future: Future)

  /** `cases` are the cases of the generated `OnResponseEvent`: method id to result type. */
  datatype Hub = Hub(cases: map<int, int>)

  datatype Client = Client(calls: seq<Call>, table: map<int, nat>, received: seq<(int, bytes)>)

  predicate IsTable(c: Client) {
    forall id | id in c.table :: c.table[id] < |c.calls|
  }

  // ----- message ids

  const TWO32: int := 0x1_0000_0000

  /** Int32 arithmetic wraps around. */
  function Wrap32(v: int): (r: int)
    ensures IsInt32(r)
  {
    (v + 0x8000_0000) % TWO32 - 0x8000_0000
  }

  /** The id of the n-th call, counted from 0: the counter is incremented before use. */
  function MessageId(n: nat): (id: int)
    ensures IsInt32(id)
  {
    Wrap32(n + 1)
  }

  /** Calls after which an id is used again or taken for a void call. */
  const MAX_CALLS: nat := 0xffff_fffe

  lemma Congruent(x: int, y: int)
    ensures x % TWO32 == y % TWO32 <==> (x - y) % TWO32 == 0
  {
    var qx, qy := x / TWO32, y / TWO32;
    assert x - y == (qx - qy) * TWO32 + (x % TWO32 - y % TWO32);
  }

  lemma NextMessageId(n: nat)
    ensures MessageId(n) == if Wrap32(n) == INT32_MAX then INT32_MIN else Wrap32(n) + 1
  {
    var q := (n + 0x8000_0000) / TWO32;
    assert n + 1 + 0x8000_0000 == q * TWO32 + ((n + 0x8000_0000) % TWO32 + 1);
  }

  /** Two calls share an id exactly when they are a multiple of 2^32 calls apart. */
  lemma SameMessageId(i: nat, j: nat)
    ensures MessageId(i) == MessageId(j) <==> (i - j) % TWO32 == 0
  {
    Congruent(i + 1 + 0x8000_0000, j + 1 + 0x8000_0000);
  }

  /** A call is taken for a void call exactly when its number is 2^32 - 2 modulo 2^32. */
  lemma VoidMessageId(n: nat)
    ensures MessageId(n) == VOID_MESSAGE_ID <==> n % TWO32 == MAX_CALLS
  {
    Congruent(n + 1 + 0x8000_0000, 0x7fff_ffff);
    Congruent(n, MAX_CALLS);
    assert (n + 1 + 0x8000_0000) - 0x7fff_ffff == n - MAX_CALLS + TWO32;
    assert (n - MAX_CALLS + TWO32) % TWO32 == (n - MAX_CALLS) % TWO32 by { Congruent(n - MAX_CALLS + TWO32, n - MAX_CALLS); }
  }

  /** Up to `MAX_CALLS` calls, ids are pairwise distinct and none is the void id; the next call's id is. */
  lemma MessageIdsUsable(i: nat, j: nat)
    requires i < MAX_CALLS && j < MAX_CALLS
    ensures MessageId(i) == MessageId(j) <==> i == j
    ensures MessageId(i) != VOID_MESSAGE_ID && MessageId(MAX_CALLS) == VOID_MESSAGE_ID
  {
    SameMessageId(i, j);
    VoidMessageId(i);
    VoidMessageId(MAX_CALLS);
  }

  // ----- calls

  function Register(c: Client, methodId: int, ty: int, payload: bytes): Client {
    Client(c.calls + [Call(methodId, ty, payload, Pending)], c.table[MessageId(|c.calls|) := |c.calls|], c.received)
  }

  predicate IsCall(call: Call) {
    IsInt32(call.methodId)
  }

  function RequestFrame(n: nat, call: Call): bytes
    requires IsCall(call)
  {
    Request(MessageId(n), call.methodId, call.payload)
  }

  // ----- frames

  /** The length of the white space that UTF-8 text begins with, as `char.IsWhiteSpace` has it; 0 when it begins with
      none. */
  function SpaceBytes(s: bytes): (n: nat)
    ensures n <= |s|
  {
    if s == [] then 0
    else if s[0] == 0x20 || 0x09 <= s[0] <= 0x0d then 1
    else if |s| >= 2 && s[0] == 0xc2 && (s[1] == 0x85 || s[1] == 0xa0) then 2
    else if |s| < 3 then 0
    else if s[0] == 0xe1 && s[1] == 0x9a && s[2] == 0x80 then 3
    else if s[0] == 0xe2 && s[1] == 0x80 && (0x80 <= s[2] <= 0x8a || s[2] == 0xa8 || s[2] == 0xa9 || s[2] == 0xaf) then 3
    else if s[0] == 0xe2 && s[1] == 0x81 && s[2] == 0x9f then 3
    else if s[0] == 0xe3 && s[1] == 0x80 && s[2] == 0x80 then 3
    else 0
  }

  /** `string.IsNullOrWhiteSpace` of UTF-8 text. */
  predicate IsWhiteSpace(s: bytes) {
    s == [] || (SpaceBytes(s) > 0 && IsWhiteSpace(s[SpaceBytes(s)..]))
  }

  // ----- white space, said of the text

  /** Code points that `char.IsWhiteSpace` accepts. */
  predicate IsSpaceChar(c: nat) {
    || 0x09 <= c <= 0x0d || c == 0x20 || c == 0x85 || c == 0xa0 || c == 0x1680 || 0x2000 <= c <= 0x200a
    || c == 0x2028 || c == 0x2029 || c == 0x202f || c == 0x205f || c == 0x3000
  }

  function Utf8(c: nat): bytes
    requires c < 0x10000
  {
    if c < 0x80 then [c]
    else if c < 0x800 then [0xc0 + c / 0x40, 0x80 + c % 0x40]
    else [0xe0 + c / 0x1000, 0x80 + c / 0x40 % 0x40, 0x80 + c % 0x40]
  }

  ghost predicate IsSpace(t: bytes) {
    exists c: nat :: c < 0x10000 && IsSpaceChar(c) && t == Utf8(c)
  }

  ghost predicate SpaceAt(s: bytes, a: nat, b: nat) {
    a < b <= |s| && IsSpace(s[a..b])
  }

  /** Byte i belongs to a white-space character. */
  ghost predicate InSpace(s: bytes, i: nat) {
    exists a: nat, b: nat :: a <= i < b && SpaceAt(s, a, b)
  }

  /** Some byte belongs to none. */
  ghost predicate HasText(s: bytes) {
    exists i: nat | i < |s| :: !InSpace(s, i)
  }

  /** Only the first byte of a white-space character can begin one. */
  lemma SpaceShape(t: bytes)
    requires IsSpace(t)
    ensures 1 <= |t| <= 3 && !(0x80 <= t[0] < 0xc0) && forall j | 0 < j < |t| :: 0x80 <= t[j] < 0xc0
  {
    var c: nat :| c < 0x10000 && IsSpaceChar(c) && t == Utf8(c);
  }

  lemma SpaceFound(s: bytes)
    requires SpaceBytes(s) > 0
    ensures IsSpace(s[..SpaceBytes(s)])
  {
    var n := SpaceBytes(s);
    if n == 1 {
      assert s[..n] == Utf8(s[0]) && IsSpaceChar(s[0]);
    } else if n == 2 {
      assert s[..n] == Utf8(s[1]) && IsSpaceChar(s[1]);
    } else {
      var x: int, y: int, z: int := s[0], s[1], s[2];
      var c := (x - 0xe0) * 0x1000 + (y - 0x80) * 0x40 + (z - 0x80);
      assert s[..n] == Utf8(c) && IsSpaceChar(c);
    }
  }

  lemma SpaceIsFound(s: bytes, n: nat)
    requires n <= |s| && IsSpace(s[..n])
    ensures SpaceBytes(s) == n
  {
    var t := s[..n];
    var c: nat :| c < 0x10000 && IsSpaceChar(c) && t == Utf8(c);
    assert forall j | 0 <= j < n :: s[j] == t[j];
  }

  /** A white-space character that begins within one at the front is that one. */
  lemma SpaceAtFront(s: bytes, n: nat, a: nat, b: nat)
    requires SpaceAt(s, 0, n) && SpaceAt(s, a, b) && a < n
    ensures a == 0 && b == n
  {
    SpaceShape(s[0..n]);
    SpaceShape(s[a..b]);
    assert s[a..b][0] == s[0..n][a];
    assert s[..n] == s[0..n] && s[..b] == s[0..b];
    SpaceIsFound(s, n);
    SpaceIsFound(s, b);
  }

  lemma SpaceShifts(s: bytes, n: nat, a: nat, b: nat)
    requires n <= |s|
    ensures SpaceAt(s[n..], a, b) <==> SpaceAt(s, a + n, b + n)
  {
    if a < b <= |s| - n { assert s[n..][a..b] == s[a + n..b + n]; }
  }

  lemma TailInSpace(s: bytes, n: nat, i: nat)
    requires n <= i < |s| && SpaceAt(s, 0, n)
    ensures InSpace(s, i) <==> InSpace(s[n..], i - n)
  {
    if InSpace(s, i) {
      var a: nat, b: nat :| a <= i < b && SpaceAt(s, a, b);
      if a < n { SpaceAtFront(s, n, a, b); }
      SpaceShifts(s, n, a - n, b - n);
    }
    if InSpace(s[n..], i - n) {
      var a: nat, b: nat :| a <= i - n < b && SpaceAt(s[n..], a, b);
      SpaceShifts(s, n, a, b);
    }
  }

  /** The reader's test is right for every byte string. */
  lemma {:induction false} WhiteSpaceIff(s: bytes)
    ensures IsWhiteSpace(s) <==> !HasText(s)
    decreases |s|
  {
    if s != [] {
      var n := SpaceBytes(s);
      if n > 0 {
        SpaceFound(s);
        WhiteSpaceIff(s[n..]);
        assert SpaceAt(s, 0, n) by { assert s[0..n] == s[..n]; }
        forall i: nat | n <= i < |s| ensures InSpace(s, i) <==> InSpace(s[n..], i - n) { TailInSpace(s, n, i); }
        if HasText(s[n..]) {
          var j: nat :| j < |s[n..]| && !InSpace(s[n..], j);
          assert !InSpace(s, j + n);
        }
      } else if InSpace(s, 0) {
        var a: nat, b: nat :| a <= 0 < b && SpaceAt(s, a, b);
        assert s[..b] == s[a..b];
        SpaceIsFound(s, b);
      }
    }
  }

  // ----- what a frame makes of a future

  function ErrorOutcome(e: ErrorBody): Outcome {
    RpcError(e.status, if e.detail.Some? then e.detail.value else [],
             if e.message.Some? && !IsWhiteSpace(e.message.value) then e.message else None)
  }

  /** What an error frame's status, detail and message mean to the caller: a missing detail is empty, and the message counts
      when it has text. */
  ghost predicate IsErrorOf(e: ErrorBody, o: Outcome) {
    && o.RpcError? && o.status == e.status
    && o.detail == (if e.detail.Some? then e.detail.value else [])
    && o.extra == (if e.message.Some? && HasText(e.message.value) then e.message else None)
  }

  lemma ErrorOutcomeIs(e: ErrorBody)
    ensures IsErrorOf(e, ErrorOutcome(e))
  {
    if e.message.Some? { WhiteSpaceIff(e.message.value); }
  }

  /** What the rest of an addressed frame makes of a future of type `ty`; `None` when nothing sets it. */
  function Verdict(hub: Hub, ty: int, a: Address): Option<Outcome> {
    if a.isError then
      match ReadErrorBody(a.rest)
      case None => None
      case Some(e) => Some(ErrorOutcome(e))
    else
      match ReadInt32(a.rest)
      case Fail => None
      case Got(methodId, payload) =>
        if methodId !in hub.cases then None
        else if hub.cases[methodId] != ty then Some(InvalidCast)
        else Some(Result(ty, payload))
  }

  function Settle(c: Client, n: nat, f: Future): Client
    requires n < |c.calls|
  {
    c.(calls := c.calls[n := c.calls[n].(future := TrySet(c.calls[n].future, f))])
  }

  /** `ConsumeData` on any bytes whatever. Exceptions are logged and leave the client as it was then. */
  function ConsumeData(hub: Hub, c: Client, data: bytes): Client
    requires IsTable(c)
  {
    match ReadAddress(data)
    case Some(a) =>
      if a.messageId !in c.table then c
      else
        var n := c.table[a.messageId];
        var c' := c.(table := c.table - {a.messageId});
        var v := Verdict(hub, c.calls[n].ty, a);
        if v.None? then c' else Settle(c', n, Done(v.value))
    case None =>
      if ReadServerFrame(data).BroadcastOf? then
        c.(received := c.received + [(ReadServerFrame(data).methodId, ReadServerFrame(data).payload)])
      else c
  }

  /** The futures still in the table are cancelled; the table itself is left alone. */
  function CancelOne(c: Client, id: int): Client
    requires IsTable(c)
  {
    if id in c.table then Settle(c, c.table[id], Canceled) else c
  }

  /** For every frame, well-formed or not: a future that is set keeps its value, calls are never altered otherwise,
      and only the future the frame is addressed to can change. */
  lemma ConsumeSetsOnce(hub: Hub, c: Client, data: bytes, n: nat)
    requires IsTable(c) && n < |c.calls|
    ensures var c' := ConsumeData(hub, c, data);
            && IsTable(c') && |c'.calls| == |c.calls|
            && c'.calls[n].(future := c.calls[n].future) == c.calls[n]
            && (!c.calls[n].future.Pending? ==> c'.calls[n] == c.calls[n])
            && (c'.calls[n] != c.calls[n] ==>
                  var a := ReadAddress(data);
                  a.Some? && a.value.messageId in c.table && c.table[a.value.messageId] == n && a.value.messageId !in c'.table)
  {
  }

  /** A pending future that a frame takes out of the table without setting it stays pending for ever: it is lost.
      That happens exactly when the frame is malformed behind its message id, or is a response whose method id
      has no case. */
  lemma FutureLostIff(hub: Hub, c: Client, data: bytes)
    requires IsTable(c)
    requires ReadAddress(data).Some? && ReadAddress(data).value.messageId in c.table
    requires c.calls[c.table[ReadAddress(data).value.messageId]].future.Pending?
    ensures var id := ReadAddress(data).value.messageId;
            var c' := ConsumeData(hub, c, data);
            var f := ReadServerFrame(data);
            id !in c'.table &&
            (c'.calls[c.table[id]].future.Pending? <==> f.Malformed? || (f.ResponseTo? && f.methodId !in hub.cases))
  {
    AddressOfServerFrame(data);
  }

  /** A call in the table whose future is pending, under its own id. */
  predicate Waits(c: Client, n: nat) {
    n < |c.calls| && MessageId(n) in c.table && c.table[MessageId(n)] == n && c.calls[n].future.Pending?
  }

  /** A frame read as a response completes its call with exactly the payload, if the method's type is the call's, and fails it
      otherwise; one read as an error fails it with what the frame says. The call leaves the table, and nothing else changes. */
  lemma AnswerDelivered(hub: Hub, c: Client, n: nat, data: bytes)
    requires IsTable(c) && Waits(c, n)
    ensures var c' := ConsumeData(hub, c, data);
            match ReadServerFrame(data)
            case ResponseTo(id, methodId, payload) =>
              id == MessageId(n) && methodId in hub.cases ==>
                && c'.calls == c.calls[n := c.calls[n].(future := c'.calls[n].future)] && c'.table == c.table - {id} && c'.received == c.received
                && c'.calls[n].future == Done(if hub.cases[methodId] == c.calls[n].ty then Result(c.calls[n].ty, payload) else InvalidCast)
            case ErrorTo(id, body) =>
              id == MessageId(n) ==>
                && c'.calls == c.calls[n := c.calls[n].(future := c'.calls[n].future)] && c'.table == c.table - {id} && c'.received == c.received
                && c'.calls[n].future.Done? && IsErrorOf(body, c'.calls[n].future.outcome)
            case _ => true
  {
    AddressOfServerFrame(data);
    if ReadServerFrame(data).ErrorTo? { ErrorOutcomeIs(ReadServerFrame(data).body); }
  }

  /** In bytes: whatever legal encoding a response uses, */
  lemma AnswerCompletes(hub: Hub, c: Client, n: nat, h: LengthFormat, f: IntFormat, g: IntFormat, methodId: int, payload: bytes)
    requires IsTable(c) && Waits(c, n) && methodId in hub.cases && hub.cases[methodId] == c.calls[n].ty
    requires LengthFits(ArrayFamily, h, 3) && Fits(f, MessageId(n)) && Fits(g, methodId) && IsInt32(methodId)
    ensures ConsumeData(hub, c, Header2(h, 3, f, MessageId(n), g, methodId, payload)).calls[n].future == Done(Result(c.calls[n].ty, payload))
  {
    ReadResponse(h, f, MessageId(n), g, methodId, payload);
    AnswerDelivered(hub, c, n, Header2(h, 3, f, MessageId(n), g, methodId, payload));
  }

  /** and whatever legal encoding an error uses. */
  lemma ErrorCompletes(hub: Hub, c: Client, n: nat, h: LengthFormat, f: IntFormat, b: bytes, g: IntFormat, detail: bytes,
                       message: bytes, rest: bytes, body: ErrorBody)
    requires IsTable(c) && Waits(c, n)
    requires LengthFits(ArrayFamily, h, 4) && Fits(f, MessageId(n)) && IsErrorBody(b, g, detail, message, rest, body)
    ensures var future := ConsumeData(hub, c, Header1(h, 4, f, MessageId(n), b)).calls[n].future;
            && future.Done? && future.outcome.RpcError? && future.outcome.status == body.status
            && (body.detail.Some? ==> future.outcome.detail == body.detail.value) && (body.detail.None? ==> future.outcome.detail == [])
            && (future.outcome.extra.Some? <==> body.message.Some? && HasText(body.message.value))
            && (future.outcome.extra.Some? ==> future.outcome.extra == body.message)
  {
    ReadErrorFrame(h, f, MessageId(n), b, g, detail, message, rest, body);
    AnswerDelivered(hub, c, n, Header1(h, 4, f, MessageId(n), b));
  }

  /** A broadcast is handed on, and nothing else changes. */
  lemma BroadcastDelivered(hub: Hub, c: Client, data: bytes)
    requires IsTable(c) && ReadServerFrame(data).BroadcastOf?
    ensures var f := ReadServerFrame(data); ConsumeData(hub, c, data) == c.(received := c.received + [(f.methodId, f.payload)])
  {
    AddressOfServerFrame(data);
  }

  /** No other frame is. */
  lemma OthersNotDelivered(hub: Hub, c: Client, data: bytes)
    requires IsTable(c) && !ReadServerFrame(data).BroadcastOf?
    ensures ConsumeData(hub, c, data).received == c.received
  {
  }

  /** While the marker's id is not that of a pending call, the marker changes nothing. */
  lemma MarkerIgnored(hub: Hub, c: Client)
    requires IsTable(c) && VOID_MESSAGE_ID !in c.table
    ensures ConsumeData(hub, c, Marker()) == c
  {
    ServerFramesRoundTrip(0, 0, [], ErrorBody(0, None, None));
    AddressOfServerFrame(Marker());
  }

  /** Frames one after the other, and the clean-up when there are no more. */
  function ConsumeAll(hub: Hub, c: Client, frames: seq<bytes>): (c': Client)
    requires IsTable(c)
    ensures IsTable(c') && |c'.calls| == |c.calls|
  {
    if frames == [] then c
    else ConsumeData(hub, ConsumeAll(hub, c, frames[..|frames| - 1]), frames[|frames| - 1])
  }

  /** Every future of the table that is still pending is cancelled. */
  ghost predicate CancelledFrom(c: Client, c': Client) {
    && c'.table == c.table && c'.received == c.received && |c'.calls| == |c.calls|
    && forall n | 0 <= n < |c.calls| ::
         c'.calls[n] == if n in c.table.Values then c.calls[n].(future := TrySet(c.calls[n].future, Canceled)) else c.calls[n]
  }

  /** Whatever frames arrive, however malformed or often repeated, a future keeps the first outcome it is given. */
  lemma {:induction false} ConsumeAllSetsOnce(hub: Hub, c: Client, frames: seq<bytes>, n: nat)
    requires IsTable(c) && n < |c.calls|
    ensures var c' := ConsumeAll(hub, c, frames);
            && c'.calls[n].(future := c.calls[n].future) == c.calls[n]
            && (!c.calls[n].future.Pending? ==> c'.calls[n] == c.calls[n])
  {
    if frames != [] {
      ConsumeAllSetsOnce(hub, c, frames[..|frames| - 1], n);
      ConsumeSetsOnce(hub, ConsumeAll(hub, c, frames[..|frames| - 1]), frames[|frames| - 1], n);
    }
  }

  /** When the frames have ended and the clean-up is done: a call that the frames completed keeps its outcome, one still
      in the table is cancelled, and only one that a frame took out of the table without completing it stays pending. */
  lemma SubscriptionEnds(hub: Hub, c: Client, frames: seq<bytes>, c': Client, n: nat)
    requires IsTable(c) && n < |c.calls| && CancelledFrom(ConsumeAll(hub, c, frames), c')
    ensures var consumed := ConsumeAll(hub, c, frames);
            && c'.calls[n].(future := c.calls[n].future) == c.calls[n]
            && (!consumed.calls[n].future.Pending? ==> c'.calls[n].future == consumed.calls[n].future)
            && (consumed.calls[n].future.Pending? && n in consumed.table.Values ==> c'.calls[n].future.Canceled?)
            && (c'.calls[n].future.Pending? <==> consumed.calls[n].future.Pending? && n !in consumed.table.Values)
  {
    ConsumeAllSetsOnce(hub, c, frames, n);
  }

  // ----- the object

  lemma SomeKey(keys: set<int>)
    requires keys != {}
    ensures exists id :: id in keys
  {
    if forall id :: id !in keys { assert false; }
  }

  method AnyKey(keys: set<int>) returns (id: int)
    requires keys != {}
    ensures id in keys
  {
    SomeKey(keys);
    id :| id in keys;
  }

  lemma KeyOf(table: map<int, nat>, n: nat) returns (id: int)
    requires n in table.Values
    ensures id in table && table[id] == n
  {
    if forall id :: id in table ==> table[id] != n { assert false; }
    id :| id in table && table[id] == n;
  }

  class StreamingHubClient {
    var messageId: int
    var responseFutures: map<int, nat>
    var calls: seq<Call>
    var received: seq<(int, bytes)>
    /** The request stream exists. */
    var connected: bool
    var disposed: bool

    ghost predicate Valid()
      reads this
    {
      messageId == Wrap32(|calls|) && IsTable(View())
    }

    ghost function View(): Client
      reads this
    {
      Client(calls, responseFutures, received)
    }

    constructor ()
      ensures Valid() && View() == Client([], map[], []) && !connected && !disposed
    {
      messageId := 0;
      responseFutures, calls, received, connected, disposed := map[], [], [], false, false;
    }

    method Connect()
      modifies this`connected
      ensures connected
    {
      connected := true;
    }

    /** `WriteMessageWithResponseAsync` up to the point where it waits for the lock: `None` when the client is
        disposed, otherwise the frame to be written. */
    method WriteMessageWithResponse(methodId: int, ty: int, message: bytes) returns (frame: Option<bytes>)
      requires Valid() && IsInt32(methodId)
      modifies this
      ensures Valid() && disposed == old(disposed) && connected == old(connected)
      ensures old(disposed) ==> frame == None && View() == old(View())
      ensures !old(disposed) ==>
                && View() == Register(old(View()), methodId, ty, message)
                && frame == Some(Request(MessageId(old(|calls|)), methodId, message))
    {
      if disposed { return None; }
      NextMessageId(|calls|);
      messageId := if messageId == INT32_MAX then INT32_MIN else messageId + 1;
      var mid := messageId;
      responseFutures := responseFutures[mid := |calls|];
      calls := calls + [Call(methodId, ty, message, Pending)];
      frame := Some(Request(mid, methodId, message));
    }

    method TryRemove(id: int) returns (n: Option<nat>)
      modifies this`responseFutures
      ensures n == if id in old(responseFutures) then Some(old(responseFutures)[id]) else None
      ensures responseFutures == old(responseFutures) - {id}
    {
      n := if id in responseFutures then Some(responseFutures[id]) else None;
      responseFutures := responseFutures - {id};
    }

    method TrySetFuture(n: nat, f: Future)
      requires n < |calls|
      modifies this`calls
      ensures calls == old(calls)[n := old(calls)[n].(future := TrySet(old(calls)[n].future, f))]
    {
      calls := calls[n := calls[n].(future := TrySet(calls[n].future, f))];
    }

    method ConsumeFrame(hub: Hub, data: bytes)
      requires Valid()
      modifies this`responseFutures, this`calls, this`received
      ensures Valid() && View() == ConsumeData(hub, old(View()), data)
    {
      var header := ReadArrayHeader(data);
      if header.Fail? { return; }
      var first := ReadInt32(header.rest);
      if first.Fail? { return; }
      if header.value == 3 {
        var future := TryRemove(first.value);
        if future.Some? {
          var methodId := ReadInt32(first.rest);
          if methodId.Got? {
            OnResponseEvent(hub, methodId.value, future.value, methodId.rest);
          }
        } else {
          assert responseFutures == old(responseFutures);
        }
      } else if header.value == 4 {
        var future := TryRemove(first.value);
        if future.Some? {
          var body := ReadErrorBody(first.rest);
          if body.Some? {
            TrySetFuture(future.value, Done(ErrorOutcome(body.value)));
          }
        } else {
          assert responseFutures == old(responseFutures);
        }
      } else {
        received := received + [(first.value, first.rest)];
      }
    }

    /** The generated switch: no default case, and a cast of the completion source. */
    method OnResponseEvent(hub: Hub, methodId: int, n: nat, data: bytes)
      requires n < |calls|
      modifies this`calls
      ensures methodId !in hub.cases ==> calls == old(calls)
      ensures methodId in hub.cases ==>
                calls == old(calls)[n := old(calls)[n].(future := TrySet(old(calls)[n].future,
                           Done(if hub.cases[methodId] == old(calls)[n].ty then Result(old(calls)[n].ty, data) else InvalidCast)))]
    {
      if methodId in hub.cases {
        if hub.cases[methodId] == calls[n].ty {
          TrySetFuture(n, Done(Result(calls[n].ty, data)));
        } else {
          TrySetFuture(n, Done(InvalidCast));
        }
      }
    }

    /** The subscription loop and its `finally`. */
    method StartSubscribe(hub: Hub, frames: seq<bytes>)
      requires Valid()
      modifies this`responseFutures, this`calls, this`received, this`disposed
      ensures Valid() && disposed == (old(disposed) || connected)
      ensures if old(disposed) || !connected then View() == ConsumeAll(hub, old(View()), frames)
              else CancelledFrom(ConsumeAll(hub, old(View()), frames), View())
    {
      for i := 0 to |frames|
        invariant Valid() && disposed == old(disposed) && View() == ConsumeAll(hub, old(View()), frames[..i])
      {
        assert frames[..i + 1][..i] == frames[..i];
        ConsumeFrame(hub, frames[i]);
      }
      assert frames[..|frames|] == frames;
      DisposeAsyncCore();
    }

    /** Only the first of two disposals cleans up. */
    method DisposeAsyncCore()
      requires Valid()
      modifies this`calls, this`disposed
      ensures Valid() && disposed == (old(disposed) || connected)
      ensures if old(disposed) || !connected then View() == old(View()) else CancelledFrom(old(View()), View())
    {
      if disposed || !connected { return; }
      disposed := true;
      CancelPending();
    }

    /** The clean-up loop of `DisposeAsyncCore`: afterwards every future of the table is terminal. */
    method CancelPending()
      requires Valid()
      modifies this`calls
      ensures Valid() && CancelledFrom(old(View()), View())
    {
      var table: map<int, nat> := responseFutures;
      var todo: set<int> := table.Keys;
      while todo != {}
        invariant todo <= table.Keys && responseFutures == table
        invariant Valid() && |calls| == old(|calls|)
        invariant forall n | 0 <= n < |calls| ::
                    || calls[n] == old(calls)[n]
                    || (n in responseFutures.Values && calls[n] == old(calls)[n].(future := TrySet(old(calls)[n].future, Canceled)))
        invariant forall id | id in responseFutures && id !in todo :: !calls[responseFutures[id]].future.Pending?
        decreases |todo|
      {
        var id := AnyKey(todo);
        TrySetFuture(responseFutures[id], Canceled);
        todo := todo - {id};
      }
      forall n | 0 <= n < |calls| && n in responseFutures.Values
        ensures calls[n] == old(calls)[n].(future := TrySet(old(calls)[n].future, Canceled))
      {
        var id := KeyOf(table, n);
      }
    }
  }
}
