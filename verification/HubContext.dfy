/** Where frames are built and queued: the `BuildMessage` functions of client, hub and groups, and the per-invocation
    context of the server (StreamingHubContext.cs). */
module HubContext {
  import opened Prelude
  import opened MessagePack
  import opened Frames
  import opened BufferWriter
  import ResponseQueue

  function Chunks(parts: seq<bytes>): (cs: seq<Chunk>)
    ensures |cs| == |parts|
    ensures forall i | 0 <= i < |parts| :: cs[i] == Chunk(|parts[i]|, parts[i])
    ensures IsLegal(cs)
  {
    seq(|parts|, i requires 0 <= i < |parts| => Chunk(|parts[i]|, parts[i]))
  }

  function Concat(parts: seq<bytes>): bytes {
    if parts == [] then [] else Concat(parts[..|parts| - 1]) + parts[|parts| - 1]
  }

  lemma {:induction false} FlattenChunks(parts: seq<bytes>)
    ensures Flatten(Chunks(parts)) == Concat(parts)
  {
    if parts != [] {
      FlattenChunks(parts[..|parts| - 1]);
      assert Chunks(parts)[..|parts| - 1] == Chunks(parts[..|parts| - 1]);
    }
  }

  lemma {:induction false} FlattenPart(chunks: seq<Chunk>, i: nat)
    requires i < |chunks|
    ensures |Flatten(chunks[..i])| + |chunks[i].data| <= |Flatten(chunks)|
  {
    if i < |chunks| - 1 {
      FlattenPart(chunks[..|chunks| - 1], i);
      assert chunks[..|chunks| - 1][..i] == chunks[..i];
    }
  }

  /** Only a message of about a gigabyte cannot be built. */
  predicate TooLong(message: bytes): (r: bool)
    ensures r ==> |message| > 0x3fff_0000
  {
    |message| + MINIMUM_BUFFER_SIZE > INT32_MAX / 2
  }

  lemma ConcatAppend(parts: seq<bytes>, last: bytes)
    ensures Concat(parts + [last]) == Concat(parts) + last
  {
    assert (parts + [last])[..|parts|] == parts;
  }

  lemma ConcatUpTo5(a: bytes, b: bytes, c: bytes, d: bytes, e: bytes)
    ensures Concat([a, b, c]) == a + b + c
    ensures Concat([a, b, c, d]) == a + b + c + d
    ensures Concat([a, b, c, d, e]) == a + b + c + d + e
  {
    assert [a, b] == [a] + [b] && [a, b, c] == [a, b] + [c];
    assert [a, b, c, d] == [a, b, c] + [d] && [a, b, c, d, e] == [a, b, c, d] + [e];
    ConcatAppend([], a);
    assert [] + [a] == [a];
    ConcatAppend([a], b);
    ConcatAppend([a, b], c);
    ConcatAppend([a, b, c], d);
    ConcatAppend([a, b, c, d], e);
  }

  /** Rent, write the parts, copy out, return: the shape all message builders share. `None` is the size overflow. */
  method BuildMessage(w: ArrayPoolBufferWriter, parts: seq<bytes>) returns (message: Option<bytes>)
    requires w.Valid() && w.buffer == null
    modifies w, w.pool, w.pool.free
    ensures w.Valid() && w.buffer == null && w.pool.rented == old(w.pool.rented)
    ensures forall x | x in w.pool.free && x !in old(w.pool.free) :: fresh(x)
    ensures if message.Some? then message.value == Concat(parts) else TooLong(Concat(parts))
  {
    FlattenChunks(parts);
    message := w.Build(Chunks(parts));
    if message.None? {
      ghost var i :| Overflows(Chunks(parts), i);
      FlattenPart(Chunks(parts), i);
    }
  }

  method BuildRequest(w: ArrayPoolBufferWriter, messageId: int, methodId: int, payload: bytes) returns (message: Option<bytes>)
    requires w.Valid() && w.buffer == null && IsInt32(messageId) && IsInt32(methodId)
    modifies w, w.pool, w.pool.free
    ensures w.Valid() && w.buffer == null && w.pool.rented == old(w.pool.rented)
    ensures if message.Some? then message.value == Request(messageId, methodId, payload) else TooLong(Request(messageId, methodId, payload))
  {
    ConcatUpTo5(WriteArrayHeader(3), WriteInt(messageId), WriteInt(methodId), payload, []);
    message := BuildMessage(w, [WriteArrayHeader(3), WriteInt(messageId), WriteInt(methodId), payload]);
  }

  method BuildVoidRequest(w: ArrayPoolBufferWriter, methodId: int, payload: bytes) returns (message: Option<bytes>)
    requires w.Valid() && w.buffer == null && IsInt32(methodId)
    modifies w, w.pool, w.pool.free
    ensures w.Valid() && w.buffer == null && w.pool.rented == old(w.pool.rented)
    ensures if message.Some? then message.value == VoidRequest(methodId, payload) else TooLong(VoidRequest(methodId, payload))
  {
    ConcatUpTo5(WriteArrayHeader(2), WriteInt(methodId), payload, [], []);
    message := BuildMessage(w, [WriteArrayHeader(2), WriteInt(methodId), payload]);
  }

  /** The builder of both in-memory groups. */
  method BuildBroadcast(w: ArrayPoolBufferWriter, methodId: int, payload: bytes) returns (message: Option<bytes>)
    requires w.Valid() && w.buffer == null && IsInt32(methodId)
    modifies w, w.pool, w.pool.free
    ensures w.Valid() && w.buffer == null && w.pool.rented == old(w.pool.rented)
    ensures if message.Some? then message.value == Broadcast(methodId, payload) else TooLong(Broadcast(methodId, payload))
  {
    ConcatUpTo5(WriteArrayHeader(2), WriteInt32(methodId), payload, [], []);
    message := BuildMessage(w, [WriteArrayHeader(2), WriteInt32(methodId), payload]);
  }

  method BuildMarkerResponse(w: ArrayPoolBufferWriter) returns (message: Option<bytes>)
    requires w.Valid() && w.buffer == null
    modifies w, w.pool, w.pool.free
    ensures w.Valid() && w.buffer == null && w.pool.rented == old(w.pool.rented)
    ensures message == Some(Marker())
  {
    ConcatUpTo5(WriteArrayHeader(3), WriteInt(VOID_MESSAGE_ID), WriteInt(0), [NIL], []);
    message := BuildMessage(w, [WriteArrayHeader(3), WriteInt(VOID_MESSAGE_ID), WriteInt(0), [NIL]]);
  }

  /** Created per invocation of a hub method. */
  class StreamingHubContext {
    const messageId: int
    const methodId: int
    const serviceContext: ResponseQueue.StreamingServiceContext
    const writer: ArrayPoolBufferWriter
    var responseSize: int

    ghost predicate Valid()
      reads serviceContext, serviceContext.streamingResponseWriter, writer, writer.pool
    {
      IsInt32(messageId) && IsInt32(methodId) && serviceContext.Valid() && writer.Valid() && writer.buffer == null
    }

    constructor (messageId: int, methodId: int, serviceContext: ResponseQueue.StreamingServiceContext, writer: ArrayPoolBufferWriter)
      requires IsInt32(messageId) && IsInt32(methodId) && serviceContext.Valid() && writer.Valid() && writer.buffer == null
      ensures Valid() && responseSize == -1
      ensures this.messageId == messageId && this.methodId == methodId
      ensures this.serviceContext == serviceContext && this.writer == writer
    {
      this.messageId, this.methodId := messageId, methodId;
      this.serviceContext, this.writer := serviceContext, writer;
      responseSize := -1;
    }

    method Queue(message: bytes)
      requires Valid()
      modifies this, serviceContext`streamingResponseWriter, serviceContext.streamingResponseWriter
      ensures Valid() && responseSize == |message|
      ensures serviceContext.streamingResponseWriter == old(serviceContext.streamingResponseWriter) || fresh(serviceContext.streamingResponseWriter)
      ensures serviceContext.View() == ResponseQueue.Write(old(serviceContext.View()), message)
    {
      serviceContext.QueueResponseStreamWrite(message);
      responseSize := |message|;
    }

    /** The method's value was serialized to `payload`. A void call writes nothing; otherwise one response frame,
        with this invocation's ids, is queued, unless building it overflows. */
    method WriteResponseMessage(payload: bytes) returns (ok: bool)
      requires Valid()
      modifies this, serviceContext`streamingResponseWriter, serviceContext.streamingResponseWriter
      modifies writer, writer.pool, writer.pool.free
      ensures Valid() && writer.pool.rented == old(writer.pool.rented)
      ensures forall x | x in writer.pool.free && x !in old(writer.pool.free) :: fresh(x)
      ensures serviceContext.streamingResponseWriter == old(serviceContext.streamingResponseWriter) || fresh(serviceContext.streamingResponseWriter)
      ensures messageId == VOID_MESSAGE_ID || !ok ==>
                serviceContext.View() == old(serviceContext.View()) && responseSize == old(responseSize)
      ensures !ok ==> messageId != VOID_MESSAGE_ID && TooLong(Response(messageId, methodId, payload))
      ensures messageId != VOID_MESSAGE_ID && ok ==>
                && serviceContext.View() == ResponseQueue.Write(old(serviceContext.View()), Response(messageId, methodId, payload))
                && responseSize == |Response(messageId, methodId, payload)|
    {
      if messageId == VOID_MESSAGE_ID { return true; }
      ConcatUpTo5(WriteArrayHeader(3), WriteInt(messageId), WriteInt(methodId), payload, []);
      var result := BuildMessage(writer, [WriteArrayHeader(3), WriteInt(messageId), WriteInt(methodId), payload]);
      if result.None? { return false; }
      Queue(result.value);
      return true;
    }

    method WriteResponseMessageNil() returns (ok: bool)
      requires Valid()
      modifies this, serviceContext`streamingResponseWriter, serviceContext.streamingResponseWriter
      modifies writer, writer.pool, writer.pool.free
      ensures Valid() && writer.pool.rented == old(writer.pool.rented)
      ensures forall x | x in writer.pool.free && x !in old(writer.pool.free) :: fresh(x)
      ensures serviceContext.streamingResponseWriter == old(serviceContext.streamingResponseWriter) || fresh(serviceContext.streamingResponseWriter)
      ensures messageId == VOID_MESSAGE_ID || !ok ==>
                serviceContext.View() == old(serviceContext.View()) && responseSize == old(responseSize)
      ensures !ok ==> messageId != VOID_MESSAGE_ID && TooLong(Response(messageId, methodId, [NIL]))
      ensures messageId != VOID_MESSAGE_ID && ok ==>
                && serviceContext.View() == ResponseQueue.Write(old(serviceContext.View()), Response(messageId, methodId, [NIL]))
                && responseSize == |Response(messageId, methodId, [NIL])|
    {
      ok := WriteResponseMessage([NIL]);
    }

    /** The exception text is sent only when the option asks for it; otherwise the message is null. */
    method WriteErrorMessage(status: int, detail: Option<bytes>, ex: Option<bytes>, isReturnExceptionStackTraceInErrorDetail: bool)
      returns (ok: bool)
      requires Valid() && IsInt32(status) && IsText(detail) && IsText(ex)
      modifies this, serviceContext`streamingResponseWriter, serviceContext.streamingResponseWriter
      modifies writer, writer.pool, writer.pool.free
      ensures Valid() && writer.pool.rented == old(writer.pool.rented)
      ensures forall x | x in writer.pool.free && x !in old(writer.pool.free) :: fresh(x)
      ensures serviceContext.streamingResponseWriter == old(serviceContext.streamingResponseWriter) || fresh(serviceContext.streamingResponseWriter)
      ensures !ok ==> serviceContext.View() == old(serviceContext.View()) && responseSize == old(responseSize)
      ensures !ok ==> TooLong(ErrorFrame(messageId, status, detail, if isReturnExceptionStackTraceInErrorDetail then ex else None))
      ensures ok ==>
                var frame := ErrorFrame(messageId, status, detail, if isReturnExceptionStackTraceInErrorDetail then ex else None);
                && serviceContext.View() == ResponseQueue.Write(old(serviceContext.View()), frame)
                && responseSize == |frame|
    {
      var msg := if isReturnExceptionStackTraceInErrorDetail && ex.Some? then ex else None;
      ConcatUpTo5(WriteArrayHeader(4), WriteInt(messageId), WriteInt(status), WriteString(detail), WriteString(msg));
      var result := BuildMessage(writer, [WriteArrayHeader(4), WriteInt(messageId), WriteInt(status),
                                          WriteString(detail), WriteString(msg)]);
      if result.None? { return false; }
      Queue(result.value);
      return true;
    }
  }
}
