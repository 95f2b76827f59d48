/** The frames of the StreamingHub protocol, as bytes.
      client to server   void request:  [methodId, argument]
                         request:       [messageId, methodId, argument]
      server to client   broadcast:     [methodId, argument]
                         response:      [messageId, methodId, result]
                         error:         [messageId, statusCode, detail, message]
    The payload is opaque: whatever the configured serializer wrote behind the header. */
module Frames {
  import opened Prelude
  import opened MessagePack

  // ----- writers

  function VoidRequest(methodId: int, payload: bytes): bytes
    requires IsInt32(methodId)
  {
    WriteArrayHeader(2) + WriteInt(methodId) + payload
  }

  function Request(messageId: int, methodId: int, payload: bytes): bytes
    requires IsInt32(messageId) && IsInt32(methodId)
  {
    WriteArrayHeader(3) + WriteInt(messageId) + WriteInt(methodId) + payload
  }

  /** A response has the layout of the request it answers. */
  function Response(messageId: int, methodId: int, payload: bytes): bytes
    requires IsInt32(messageId) && IsInt32(methodId)
  {
    Request(messageId, methodId, payload)
  }

  predicate IsText(s: Option<bytes>) {
    s.Some? ==> IsLength(|s.value|)
  }

  function ErrorFrame(messageId: int, status: int, detail: Option<bytes>, message: Option<bytes>): bytes
    requires IsInt32(messageId) && IsInt32(status) && IsText(detail) && IsText(message)
  {
    WriteArrayHeader(4) + WriteInt(messageId) + WriteInt(status) + WriteString(detail) + WriteString(message)
  }

  /** Broadcasts write the method id in the five-byte family. */
  function Broadcast(methodId: int, payload: bytes): bytes
    requires IsInt32(methodId)
  {
    WriteArrayHeader(2) + WriteInt32(methodId) + payload
  }

  const VOID_MESSAGE_ID := -1

  /** First message of the response stream; its id is never that of a request. */
  function Marker(): bytes {
    WriteArrayHeader(3) + WriteInt(VOID_MESSAGE_ID) + WriteInt(0) + [NIL]
  }

  // ----- server side reader

  datatype Header = Header(methodId: int, messageId: int, payload: bytes)

  /** `FetchHeader`; `None` is the exception that ends the connection. The offset it returns is where `payload` starts. */
  function FetchHeader(data: bytes): (h: Option<Header>)
    ensures h.Some? ==> IsInt32(h.value.methodId) && IsInt32(h.value.messageId)
  {
    match ReadArrayHeader(data)
    case Fail => None
    case Got(n, r) =>
      if n == 2 then
        match ReadInt32(r)
        case Fail => None
        case Got(methodId, rest) => Some(Header(methodId, VOID_MESSAGE_ID, rest))
      else if n == 3 then
        match ReadInt32(r)
        case Fail => None
        case Got(messageId, r1) =>
          match ReadInt32(r1)
          case Fail => None
          case Got(methodId, rest) => Some(Header(methodId, messageId, rest))
      else None
  }

  // ----- client side reader

  datatype ErrorBody = ErrorBody(status: int, detail: Option<bytes>, message: Option<bytes>)

  /** What a frame says to the client, read in full. */
  datatype ServerFrame =
    | ResponseTo(messageId: int, methodId: int, payload: bytes)
    | ErrorTo(messageId: int, body: ErrorBody)
    | BroadcastOf(methodId: int, payload: bytes)
    | Malformed

  function ReadErrorBody(b: bytes): Option<ErrorBody> {
    match ReadInt32(b)
    case Fail => None
    case Got(status, r1) =>
      match ReadString(r1)
      case Fail => None
      case Got(detail, r2) =>
        match ReadString(r2)
        case Fail => None
        case Got(message, _) => Some(ErrorBody(status, detail, message))
  }

  function ReadServerFrame(data: bytes): ServerFrame {
    match ReadArrayHeader(data)
    case Fail => Malformed
    case Got(n, r) =>
      match ReadInt32(r)
      case Fail => Malformed
      case Got(first, rest) =>
        if n == 3 then
          match ReadInt32(rest)
          case Fail => Malformed
          case Got(methodId, payload) => ResponseTo(first, methodId, payload)
        else if n == 4 then
          match ReadErrorBody(rest)
          case None => Malformed
          case Some(body) => ErrorTo(first, body)
        else BroadcastOf(first, rest)
  }

  /** The message id a frame is addressed to, and the bytes behind it. */
  datatype Address = Address(messageId: int, isError: bool, rest: bytes)

  /** What `ConsumeData` has read when it looks the id up in its table. */
  function ReadAddress(data: bytes): Option<Address> {
    match ReadArrayHeader(data)
    case Fail => None
    case Got(n, r) =>
      if n != 3 && n != 4 then None
      else
        match ReadInt32(r)
        case Fail => None
        case Got(messageId, rest) => Some(Address(messageId, n == 4, rest))
  }

  // ----- round trips, for every legal encoding of header and integers

  function Header1(h: LengthFormat, n: nat, f: IntFormat, a: int, tail: bytes): bytes
    requires LengthFits(ArrayFamily, h, n) && Fits(f, a)
  {
    EncodeLengthAs(ArrayFamily, h, n) + EncodeIntAs(f, a) + tail
  }

  function Header2(h: LengthFormat, n: nat, f: IntFormat, a: int, g: IntFormat, b: int, tail: bytes): bytes
    requires LengthFits(ArrayFamily, h, n) && Fits(f, a) && Fits(g, b)
  {
    Header1(h, n, f, a, EncodeIntAs(g, b) + tail)
  }

  lemma ReadHeader1(h: LengthFormat, n: nat, f: IntFormat, a: int, tail: bytes)
    requires LengthFits(ArrayFamily, h, n) && Fits(f, a) && IsInt32(a)
    ensures var r := ReadArrayHeader(Header1(h, n, f, a, tail));
            r.Got? && r.value == n && ReadInt32(r.rest) == Got(a, tail)
  {
    assert Header1(h, n, f, a, tail) == EncodeLengthAs(ArrayFamily, h, n) + (EncodeIntAs(f, a) + tail);
    ReadLengthAny(ArrayFamily, h, n, EncodeIntAs(f, a) + tail);
    ReadInt32Any(f, a, tail);
  }

  /** A void request, however its header is encoded, is read as such; the offset is where the payload starts. */
  lemma FetchVoidRequest(h: LengthFormat, f: IntFormat, methodId: int, payload: bytes)
    requires LengthFits(ArrayFamily, h, 2) && Fits(f, methodId) && IsInt32(methodId)
    ensures FetchHeader(Header1(h, 2, f, methodId, payload)) == Some(Header(methodId, VOID_MESSAGE_ID, payload))
  {
    ReadHeader1(h, 2, f, methodId, payload);
  }

  lemma FetchRequest(h: LengthFormat, f: IntFormat, messageId: int, g: IntFormat, methodId: int, payload: bytes)
    requires LengthFits(ArrayFamily, h, 3)
    requires Fits(f, messageId) && IsInt32(messageId) && Fits(g, methodId) && IsInt32(methodId)
    ensures FetchHeader(Header2(h, 3, f, messageId, g, methodId, payload)) == Some(Header(methodId, messageId, payload))
  {
    ReadHeader1(h, 3, f, messageId, EncodeIntAs(g, methodId) + payload);
    ReadInt32Any(g, methodId, payload);
  }

  lemma ReadHeader1Only(data: bytes) returns (h: LengthFormat, f: IntFormat)
    requires ReadArrayHeader(data).Got? && ReadInt32(ReadArrayHeader(data).rest).Got?
    ensures var n := ReadArrayHeader(data).value;
            var a := ReadInt32(ReadArrayHeader(data).rest);
            IsInt32(a.value) && LengthFits(ArrayFamily, h, n) && Fits(f, a.value) && data == Header1(h, n, f, a.value, a.rest)
  {
    h := ReadLengthOnly(ArrayFamily, data);
    f := ReadInt32Only(ReadArrayHeader(data).rest);
    var a := ReadInt32(ReadArrayHeader(data).rest);
    var head := EncodeLengthAs(ArrayFamily, h, ReadArrayHeader(data).value);
    assert data == head + (EncodeIntAs(f, a.value) + a.rest) == head + EncodeIntAs(f, a.value) + a.rest;
  }

  /** Conversely, whatever the server accepts is a legal encoding of the void request or the request it reports. */
  lemma FetchHeaderOnly(data: bytes) returns (h: LengthFormat, f: IntFormat, g: IntFormat)
    requires FetchHeader(data).Some?
    ensures var m := FetchHeader(data).value;
            IsInt32(m.methodId) && IsInt32(m.messageId) &&
            if ReadArrayHeader(data).value == 2 then
              && LengthFits(ArrayFamily, h, 2) && Fits(f, m.methodId)
              && data == Header1(h, 2, f, m.methodId, m.payload) && m.messageId == VOID_MESSAGE_ID
            else
              && LengthFits(ArrayFamily, h, 3) && Fits(f, m.messageId) && Fits(g, m.methodId)
              && data == Header2(h, 3, f, m.messageId, g, m.methodId, m.payload)
  {
    h, f := ReadHeader1Only(data);
    g := f;
    if ReadArrayHeader(data).value == 3 {
      g := ReadInt32Only(ReadInt32(ReadArrayHeader(data).rest).rest);
    }
  }

  /** The same on the client: a frame taken for a response or a broadcast is a legal encoding of just that. */
  lemma ReadServerFrameOnly(data: bytes) returns (h: LengthFormat, f: IntFormat, g: IntFormat)
    requires ReadServerFrame(data).ResponseTo? || ReadServerFrame(data).BroadcastOf?
    ensures match ReadServerFrame(data)
            case ResponseTo(id, methodId, payload) =>
              && LengthFits(ArrayFamily, h, 3) && IsInt32(id) && Fits(f, id) && IsInt32(methodId) && Fits(g, methodId)
              && data == Header2(h, 3, f, id, g, methodId, payload)
            case BroadcastOf(methodId, payload) =>
              var n := ReadArrayHeader(data).value;
              && n != 3 && n != 4 && LengthFits(ArrayFamily, h, n) && IsInt32(methodId) && Fits(f, methodId)
              && data == Header1(h, n, f, methodId, payload)
            case _ => true
  {
    h, f := ReadHeader1Only(data);
    g := f;
    if ReadServerFrame(data).ResponseTo? {
      g := ReadInt32Only(ReadInt32(ReadArrayHeader(data).rest).rest);
    }
  }

  lemma ReadResponse(h: LengthFormat, f: IntFormat, messageId: int, g: IntFormat, methodId: int, payload: bytes)
    requires LengthFits(ArrayFamily, h, 3)
    requires Fits(f, messageId) && IsInt32(messageId) && Fits(g, methodId) && IsInt32(methodId)
    ensures ReadServerFrame(Header2(h, 3, f, messageId, g, methodId, payload)) == ResponseTo(messageId, methodId, payload)
  {
    ReadHeader1(h, 3, f, messageId, EncodeIntAs(g, methodId) + payload);
    ReadInt32Any(g, methodId, payload);
  }

  lemma ReadBroadcast(h: LengthFormat, f: IntFormat, methodId: int, payload: bytes)
    requires LengthFits(ArrayFamily, h, 2) && Fits(f, methodId) && IsInt32(methodId)
    ensures ReadServerFrame(Header1(h, 2, f, methodId, payload)) == BroadcastOf(methodId, payload)
  {
    ReadHeader1(h, 2, f, methodId, payload);
  }

  /** The parts of an error body, each in any legal encoding, and whatever follows them. */
  ghost predicate IsErrorBody(b: bytes, g: IntFormat, detail: bytes, message: bytes, rest: bytes, body: ErrorBody) {
    && Fits(g, body.status) && IsInt32(body.status)
    && IsStringEncoding(detail, body.detail) && IsStringEncoding(message, body.message)
    && b == EncodeIntAs(g, body.status) + (detail + (message + rest))
  }

  lemma ReadErrorBodyAny(b: bytes, g: IntFormat, detail: bytes, message: bytes, rest: bytes, body: ErrorBody)
    requires IsErrorBody(b, g, detail, message, rest, body)
    ensures ReadErrorBody(b) == Some(body)
  {
    ReadInt32Any(g, body.status, detail + (message + rest));
    ReadStringAny(detail, body.detail, message + rest);
    ReadStringAny(message, body.message, rest);
  }

  lemma ReadErrorBodyOnly(b: bytes) returns (g: IntFormat, detail: bytes, message: bytes, rest: bytes)
    requires ReadErrorBody(b).Some?
    ensures IsErrorBody(b, g, detail, message, rest, ReadErrorBody(b).value)
  {
    g := ReadInt32Only(b);
    var r1 := ReadInt32(b).rest;
    detail := ReadStringOnly(r1);
    var r2 := ReadString(r1).rest;
    message := ReadStringOnly(r2);
    rest := ReadString(r2).rest;
  }

  /** An error frame, however its header, numbers and strings are encoded, is read as such. */
  lemma ReadErrorFrame(h: LengthFormat, f: IntFormat, messageId: int, b: bytes, g: IntFormat, detail: bytes, message: bytes,
                       rest: bytes, body: ErrorBody)
    requires LengthFits(ArrayFamily, h, 4) && Fits(f, messageId) && IsInt32(messageId)
    requires IsErrorBody(b, g, detail, message, rest, body)
    ensures ReadServerFrame(Header1(h, 4, f, messageId, b)) == ErrorTo(messageId, body)
  {
    ReadHeader1(h, 4, f, messageId, b);
    ReadErrorBodyAny(b, g, detail, message, rest, body);
  }

  /** And a frame taken for an error is a legal encoding of just that error: header, message id, status, detail, message. */
  lemma ReadErrorFrameOnly(data: bytes) returns (h: LengthFormat, f: IntFormat, b: bytes, g: IntFormat, detail: bytes,
                                                 message: bytes, rest: bytes)
    requires ReadServerFrame(data).ErrorTo?
    ensures var e := ReadServerFrame(data);
            && LengthFits(ArrayFamily, h, 4) && IsInt32(e.messageId) && Fits(f, e.messageId)
            && data == Header1(h, 4, f, e.messageId, b) && IsErrorBody(b, g, detail, message, rest, e.body)
  {
    h, f := ReadHeader1Only(data);
    b := ReadInt32(ReadArrayHeader(data).rest).rest;
    g, detail, message, rest := ReadErrorBodyOnly(b);
  }

  // ----- the frames the code writes

  lemma RequestShape(messageId: int, methodId: int, payload: bytes)
    requires IsInt32(messageId) && IsInt32(methodId)
    ensures Request(messageId, methodId, payload)
         == Header2(ShortestLength(ArrayFamily, 3), 3, ShortestInt(messageId), messageId, ShortestInt(methodId), methodId, payload)
  {
    assert Request(messageId, methodId, payload)
        == WriteArrayHeader(3) + WriteInt(messageId) + (WriteInt(methodId) + payload);
  }

  /** Server: each request kind decodes to what the client encoded. */
  lemma RequestsRoundTrip(messageId: int, methodId: int, payload: bytes)
    requires IsInt32(messageId) && IsInt32(methodId)
    ensures FetchHeader(Request(messageId, methodId, payload)) == Some(Header(methodId, messageId, payload))
    ensures FetchHeader(VoidRequest(methodId, payload)) == Some(Header(methodId, VOID_MESSAGE_ID, payload))
  {
    RequestShape(messageId, methodId, payload);
    FetchRequest(ShortestLength(ArrayFamily, 3), ShortestInt(messageId), messageId, ShortestInt(methodId), methodId, payload);
    FetchVoidRequest(ShortestLength(ArrayFamily, 2), ShortestInt(methodId), methodId, payload);
  }

  /** Client: each frame kind decodes to what the server encoded. */
  lemma ServerFramesRoundTrip(messageId: int, methodId: int, payload: bytes, body: ErrorBody)
    requires IsInt32(messageId) && IsInt32(methodId)
    requires IsInt32(body.status) && IsText(body.detail) && IsText(body.message)
    ensures ReadServerFrame(Response(messageId, methodId, payload)) == ResponseTo(messageId, methodId, payload)
    ensures ReadServerFrame(ErrorFrame(messageId, body.status, body.detail, body.message)) == ErrorTo(messageId, body)
    ensures ReadServerFrame(Broadcast(methodId, payload)) == BroadcastOf(methodId, payload)
    ensures ReadServerFrame(Marker()) == ResponseTo(VOID_MESSAGE_ID, 0, [NIL])
  {
    RequestShape(messageId, methodId, payload);
    ReadResponse(ShortestLength(ArrayFamily, 3), ShortestInt(messageId), messageId, ShortestInt(methodId), methodId, payload);
    RequestShape(VOID_MESSAGE_ID, 0, [NIL]);
    ReadResponse(ShortestLength(ArrayFamily, 3), ShortestInt(VOID_MESSAGE_ID), VOID_MESSAGE_ID, ShortestInt(0), 0, [NIL]);
    Int32Fits(methodId);
    ReadBroadcast(ShortestLength(ArrayFamily, 2), Int32, methodId, payload);
    ErrorShape(messageId, body);
    var tail := EncodeIntAs(ShortestInt(body.status), body.status) + (WriteString(body.detail) + WriteString(body.message));
    ReadHeader1(ShortestLength(ArrayFamily, 4), 4, ShortestInt(messageId), messageId, tail);
    ErrorBodyWritten(body);
  }

  lemma ErrorBodyWritten(body: ErrorBody)
    requires IsInt32(body.status) && IsText(body.detail) && IsText(body.message)
    ensures ReadErrorBody(EncodeIntAs(ShortestInt(body.status), body.status) + (WriteString(body.detail) + WriteString(body.message)))
         == Some(body)
  {
    var detail, message := WriteString(body.detail), WriteString(body.message);
    WriteStringIsEncoding(body.detail);
    WriteStringIsEncoding(body.message);
    assert message + [] == message;
    ReadErrorBodyAny(EncodeIntAs(ShortestInt(body.status), body.status) + (detail + message), ShortestInt(body.status), detail, message, [], body);
  }

  lemma ErrorShape(messageId: int, body: ErrorBody)
    requires IsInt32(messageId) && IsInt32(body.status) && IsText(body.detail) && IsText(body.message)
    ensures ErrorFrame(messageId, body.status, body.detail, body.message)
         == Header1(ShortestLength(ArrayFamily, 4), 4, ShortestInt(messageId), messageId,
                    EncodeIntAs(ShortestInt(body.status), body.status) + (WriteString(body.detail) + WriteString(body.message)))
  {
    assert ErrorFrame(messageId, body.status, body.detail, body.message)
        == WriteArrayHeader(4) + WriteInt(messageId)
           + (WriteInt(body.status) + (WriteString(body.detail) + WriteString(body.message)));
  }

  /** `ReadAddress` is what a full read says about the id. */
  lemma AddressOfServerFrame(data: bytes)
    ensures match ReadServerFrame(data)
            case ResponseTo(id, methodId, payload) =>
              && ReadAddress(data).Some? && ReadAddress(data).value.messageId == id && !ReadAddress(data).value.isError
              && ReadInt32(ReadAddress(data).value.rest) == Got(methodId, payload)
            case ErrorTo(id, body) =>
              && ReadAddress(data).Some? && ReadAddress(data).value.messageId == id && ReadAddress(data).value.isError
              && ReadErrorBody(ReadAddress(data).value.rest) == Some(body)
            case BroadcastOf(_, _) => ReadAddress(data) == None
            case Malformed => true
  {
  }
}
