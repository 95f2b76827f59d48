/** A connection's life on the server as methods (StreamingHub.cs): one request after the other, whatever bytes they are,
    whatever the handlers do and however the user's hooks end. Its answers are those of the steps in Session. */
module HubServer {
  import opened Prelude
  import opened Frames
  import opened BufferWriter
  import opened HubContext
  import opened GroupObjects
  import ResponseQueue
  import Session
  import SessionHistory

  // ----- handlers

  /** How a handler ends: with the serialized result, or with one of the two kinds of exception. */
  datatype Handled =
    | Returned(payload: bytes)
    | StatusException(status: int, detail: Option<bytes>)
    | OtherException(text: bytes)

  /** What it does before: join a group, leave the k-th group joined, or send a frame to its own connection. */
  datatype Effect = JoinGroup(name: string) | LeaveGroup(k: nat) | SendFrame(frame: bytes)

  /** A turn of the loop: what is done while it waits for the request, what is done until the request's handler is through,
      and how that ends. Nobody awaits the handler of a void request: what it does later belongs to the turns it is done in.
      Handlers may keep state, so runs for equal requests may differ. */
  datatype Execution = Execution(before: seq<Effect>, effects: seq<Effect>, outcome: Handled)

  /** A run of `OnConnecting` or `OnDisconnected`. */
  datatype Hook = Hook(effects: seq<Effect>, throws: bool)

  predicate NoLeaves(effects: seq<Effect>) {
    forall e | e in effects :: !e.LeaveGroup?
  }

  predicate OnlySends(effects: seq<Effect>) {
    forall e | e in effects :: e.SendFrame?
  }

  predicate Sendable(r: Handled) {
    match r
    case Returned(_) => true
    case StatusException(status, detail) => IsInt32(status) && IsText(detail)
    case OtherException(text) => IsLength(|text|)
  }

  function FramesOf(effects: seq<Effect>): seq<bytes> {
    if effects == [] then []
    else
      var last := effects[|effects| - 1];
      FramesOf(effects[..|effects| - 1]) + if last.SendFrame? then [last.frame] else []
  }

  const STATUS_INTERNAL := 13

  /** The known method ids, and the texts of error frames: `withText` is the option to send exception texts, `overflow`
      the text of the exception that a result too long to frame raises. */
  datatype Settings = Settings(handlers: set<int>, withText: bool, internalDetail: bytes, overflow: bytes)

  predicate SettingsOk(c: Settings) {
    IsLength(|c.internalDetail|) && IsLength(|c.overflow|)
  }

  // ----- answers

  /** The error frame for an exception, or for a result too long to frame. */
  function ErrorFor(c: Settings, h: Header, r: Handled): bytes
    requires SettingsOk(c) && IsInt32(h.messageId) && Sendable(r)
  {
    match r
    case Returned(_) => ErrorFrame(h.messageId, STATUS_INTERNAL, Some(c.internalDetail), if c.withText then Some(c.overflow) else None)
    case StatusException(status, detail) => ErrorFrame(h.messageId, status, detail, None)
    case OtherException(text) => ErrorFrame(h.messageId, STATUS_INTERNAL, Some(c.internalDetail), if c.withText then Some(text) else None)
  }

  /** A request whose header can be read and whose method is known. */
  predicate IsKnown(c: Settings, data: bytes) {
    FetchHeader(data).Some? && FetchHeader(data).value.methodId in c.handlers
  }

  /** The answer to one request: no frame to a void one; one to another, the result if it can be framed. */
  predicate IsAnswer(c: Settings, data: bytes, r: Handled, answer: seq<bytes>)
    requires SettingsOk(c) && IsKnown(c, data) && Sendable(r)
  {
    var h := FetchHeader(data).value;
    if h.messageId == VOID_MESSAGE_ID then answer == [] else |answer| == 1 && IsAnswerFrame(c, h, r, answer[0])
  }

  predicate IsAnswerFrame(c: Settings, h: Header, r: Handled, frame: bytes)
    requires SettingsOk(c) && IsInt32(h.messageId) && IsInt32(h.methodId) && Sendable(r)
  {
    || (r.Returned? && frame == Response(h.messageId, h.methodId, r.payload))
    || ((r.Returned? ==> TooLong(Response(h.messageId, h.methodId, r.payload))) && frame == ErrorFor(c, h, r))
  }

  /** What ends the connection: a malformed header, an unknown method id, an error frame that is too long. */
  predicate EndsConnection(c: Settings, data: bytes, r: Handled)
    requires SettingsOk(c) && Sendable(r)
  {
    IsKnown(c, data) ==>
      var h := FetchHeader(data).value;
      h.messageId != VOID_MESSAGE_ID && TooLong(ErrorFor(c, h, r))
  }

  /** What handlers send in a turn. */
  function SentIn(x: Execution): seq<bytes> {
    FramesOf(x.before) + FramesOf(x.effects)
  }

  /** The frames queued in a turn: what handlers sent, then the answer. */
  predicate Answers(c: Settings, data: bytes, x: Execution, frames: seq<bytes>) {
    && SettingsOk(c) && IsKnown(c, data) && Sendable(x.outcome)
    && SentIn(x) <= frames && IsAnswer(c, data, x.outcome, frames[|SentIn(x)|..])
  }

  /** What was sent in the turn that ended the loop. */
  function Unanswered(c: Settings, requests: seq<bytes>, xs: seq<Execution>, last: seq<Effect>, served: nat): seq<bytes>
    requires served <= |requests| == |xs|
  {
    if served == |requests| then FramesOf(last)
    else if IsKnown(c, requests[served]) then SentIn(xs[served])
    else FramesOf(xs[served].before)
  }

  /** Nothing that is done before the loop has ended is a leave. */
  predicate NeverLeaves(xs: seq<Execution>, last: seq<Effect>) {
    NoLeaves(last) && forall x | x in xs :: NoLeaves(x.before) && NoLeaves(x.effects)
  }

  /** The first requests were executed and answered, in order. */
  predicate Served(c: Settings, requests: seq<bytes>, xs: seq<Execution>, answers: seq<seq<bytes>>) {
    |answers| <= |requests| && |answers| <= |xs| && AllAnswered(requests, xs, answers, AnswersBy(c))
  }

  predicate AllAnswered(requests: seq<bytes>, xs: seq<Execution>, answers: seq<seq<bytes>>, p: (bytes, Execution, seq<bytes>) -> bool)
    requires |answers| <= |requests| && |answers| <= |xs|
  {
    forall k | 0 <= k < |answers| :: p(requests[k], xs[k], answers[k])
  }

  function AnswersBy(c: Settings): (bytes, Execution, seq<bytes>) -> bool {
    (data, x, frames) => Answers(c, data, x, frames)
  }

  lemma AllAnsweredMore(requests: seq<bytes>, xs: seq<Execution>, answers: seq<seq<bytes>>, frames: seq<bytes>,
                        p: (bytes, Execution, seq<bytes>) -> bool)
    requires |answers| < |requests| && |answers| < |xs| && AllAnswered(requests, xs, answers, p)
    requires p(requests[|answers|], xs[|answers|], frames)
    ensures AllAnswered(requests, xs, answers + [frames], p)
  {
  }

  lemma ServedMore(c: Settings, requests: seq<bytes>, xs: seq<Execution>, answers: seq<seq<bytes>>, frames: seq<bytes>)
    requires Served(c, requests, xs, answers) && |answers| < |requests| && |answers| < |xs|
    requires Answers(c, requests[|answers|], xs[|answers|], frames)
    ensures Served(c, requests, xs, answers + [frames])
  {
    AllAnsweredMore(requests, xs, answers, frames, AnswersBy(c));
  }

  /** What the caller is to read: the result, or its exception. A result too long to frame is one, with the text of the
      exception that this raises; the text of an exception is sent only if the option says so. */
  predicate IsYieldOf(c: Settings, h: Header, r: Handled, y: SessionHistory.Yield)
    requires IsInt32(h.messageId) && IsInt32(h.methodId)
  {
    match r
    case Returned(payload) =>
      || y == SessionHistory.Value(payload)
      || (TooLong(Response(h.messageId, h.methodId, payload))
          && y == SessionHistory.Exception(ErrorBody(13, Some(c.internalDetail), if c.withText then Some(c.overflow) else None)))
    case StatusException(status, detail) => y == SessionHistory.Exception(ErrorBody(status, detail, None))
    case OtherException(text) => y == SessionHistory.Exception(ErrorBody(13, Some(c.internalDetail), if c.withText then Some(text) else None))
  }

  /** Each answer is one that the machine's steps `Respond` and `Throw` give: its message and method ids are those of
      the request, it carries how this request's handler ended, and a void request has none. */
  lemma AnswerIsInvocation(c: Settings, data: bytes, x: Execution, frames: seq<bytes>) returns (y: SessionHistory.Yield)
    requires Answers(c, data, x, frames)
    ensures var h, answer := FetchHeader(data).value, frames[|SentIn(x)|..];
            && Session.InvocationOk(Session.Invocation(h, answer))
            && IsYieldOf(c, h, x.outcome, y)
            && (h.messageId != VOID_MESSAGE_ID ==> SessionHistory.InvocationCarries(Session.Invocation(h, answer), [y]) && |answer| == 1)
  {
    var h, answer := FetchHeader(data).value, frames[|SentIn(x)|..];
    if h.messageId != VOID_MESSAGE_ID {
      y := AnswerFrameCarries(c, h, x.outcome, answer[0]);
      OneReply(h, answer);
    } else {
      y := YieldOf(c, x.outcome);
    }
  }

  lemma TurnAnswers(c: Settings, data: bytes, x: Execution, rest: seq<bytes>)
    requires SettingsOk(c) && IsKnown(c, data) && Sendable(x.outcome) && FramesOf(x.effects) <= rest
    requires IsAnswer(c, data, x.outcome, rest[|FramesOf(x.effects)|..])
    ensures Answers(c, data, x, FramesOf(x.before) + rest)
  {
    var frames := FramesOf(x.before) + rest;
    assert rest == FramesOf(x.effects) + rest[|FramesOf(x.effects)|..];
    assert frames == SentIn(x) + rest[|FramesOf(x.effects)|..];
  }

  lemma OneReply(h: Header, answer: seq<bytes>)
    requires Session.HeaderOk(h) && h.messageId != VOID_MESSAGE_ID && |answer| == 1 && Session.IsReply(h, answer[0])
    ensures Session.InvocationOk(Session.Invocation(h, answer))
  {
  }

  lemma AnswerFrameCarries(c: Settings, h: Header, r: Handled, frame: bytes) returns (y: SessionHistory.Yield)
    requires SettingsOk(c) && IsInt32(h.messageId) && IsInt32(h.methodId) && Sendable(r) && IsAnswerFrame(c, h, r, frame)
    ensures IsYieldOf(c, h, r, y) && SessionHistory.Carries(h, y, frame) && Session.IsReply(h, frame)
  {
    if r.Returned? && frame == Response(h.messageId, h.methodId, r.payload) {
      y := SessionHistory.Value(r.payload);
      ServerFramesRoundTrip(h.messageId, h.methodId, r.payload, ErrorBody(0, None, None));
    } else {
      y := YieldOf(c, r);
      ErrorForCarries(c, h, r);
      if r.Returned? {
        y := SessionHistory.Exception(ErrorBody(13, Some(c.internalDetail), if c.withText then Some(c.overflow) else None));
      }
    }
  }

  /** For a result, itself. */
  function YieldOf(c: Settings, r: Handled): SessionHistory.Yield {
    match r
    case Returned(payload) => SessionHistory.Value(payload)
    case StatusException(status, detail) => SessionHistory.Exception(ErrorBody(status, detail, None))
    case OtherException(text) => SessionHistory.Exception(ErrorBody(13, Some(c.internalDetail), if c.withText then Some(text) else None))
  }

  lemma ErrorForCarries(c: Settings, h: Header, r: Handled)
    requires SettingsOk(c) && IsInt32(h.messageId) && IsInt32(h.methodId) && Sendable(r)
    ensures var internal := Some(c.internalDetail);
            ReadServerFrame(ErrorFor(c, h, r))
            == ErrorTo(h.messageId, match r
                                    case Returned(_) => ErrorBody(13, internal, if c.withText then Some(c.overflow) else None)
                                    case StatusException(status, detail) => ErrorBody(status, detail, None)
                                    case OtherException(text) => ErrorBody(13, internal, if c.withText then Some(text) else None))
  {
    var internal := Some(c.internalDetail);
    match r
    case Returned(_) =>
      ServerFramesRoundTrip(h.messageId, 0, [], ErrorBody(13, internal, if c.withText then Some(c.overflow) else None));
    case StatusException(status, detail) => ServerFramesRoundTrip(h.messageId, 0, [], ErrorBody(status, detail, None));
    case OtherException(text) =>
      ServerFramesRoundTrip(h.messageId, 0, [], ErrorBody(13, internal, if c.withText then Some(text) else None));
  }

  // ----- what is queued

  function WriteAll(q: ResponseQueue.Queue, frames: seq<bytes>): ResponseQueue.Queue {
    if frames == [] then q else ResponseQueue.Write(WriteAll(q, frames[..|frames| - 1]), frames[|frames| - 1])
  }

  function Sent(answers: seq<seq<bytes>>): seq<bytes> {
    if answers == [] then [] else Sent(answers[..|answers| - 1]) + answers[|answers| - 1]
  }

  lemma WriteOneMore(q: ResponseQueue.Queue, frames: seq<bytes>, frame: bytes)
    ensures WriteAll(q, frames + [frame]) == ResponseQueue.Write(WriteAll(q, frames), frame)
  {
    assert (frames + [frame])[..|frames|] == frames;
  }

  lemma WriteJustOne(q: ResponseQueue.Queue, frame: bytes)
    ensures WriteAll(q, [frame]) == ResponseQueue.Write(q, frame)
  {
    assert [frame][..0] == [];
  }

  lemma {:induction false} WriteBoth(q: ResponseQueue.Queue, a: seq<bytes>, b: seq<bytes>)
    ensures WriteAll(q, a + b) == WriteAll(WriteAll(q, a), b)
  {
    if b == [] {
      assert a + b == a;
    } else {
      WriteBoth(q, a, b[..|b| - 1]);
      WriteOneMore(q, a + b[..|b| - 1], b[|b| - 1]);
      assert a + b == a + b[..|b| - 1] + [b[|b| - 1]];
    }
  }

  lemma FramesOfNext(q: ResponseQueue.Queue, effects: seq<Effect>, i: nat)
    requires i < |effects|
    ensures var before := WriteAll(q, FramesOf(effects[..i]));
            WriteAll(q, FramesOf(effects[..i + 1])) == if effects[i].SendFrame? then ResponseQueue.Write(before, effects[i].frame) else before
  {
    assert effects[..i + 1][..i] == effects[..i];
    if effects[i].SendFrame? {
      WriteOneMore(q, FramesOf(effects[..i]), effects[i].frame);
    } else {
      assert FramesOf(effects[..i]) + [] == FramesOf(effects[..i]);
    }
  }

  lemma SentMore(q: ResponseQueue.Queue, answers: seq<seq<bytes>>, frames: seq<bytes>)
    ensures WriteAll(q, Sent(answers + [frames])) == WriteAll(WriteAll(q, Sent(answers)), frames)
  {
    assert (answers + [frames])[..|answers|] == answers;
    WriteBoth(q, Sent(answers), frames);
  }

  /** Once completed, the queue takes nothing more. */
  lemma {:induction false} NothingWritten(q: ResponseQueue.Queue, frames: seq<bytes>)
    requires q.completed && !q.consumer.NotStarted?
    ensures WriteAll(q, frames) == q
  {
    if frames != [] { NothingWritten(q, frames[..|frames| - 1]); }
  }

  // ----- the hub

  class StreamingHub {
    const settings: Settings
    const serviceContext: ResponseQueue.StreamingServiceContext
    const writer: ArrayPoolBufferWriter
    const group: HubGroupRepository

    ghost predicate Valid()
      reads serviceContext, serviceContext.streamingResponseWriter, writer, writer.pool
    {
      SettingsOk(settings) && serviceContext.Valid() && writer.Valid() && writer.buffer == null
    }

    /** The hub of one connection; its group repository knows no group yet. */
    constructor (settings: Settings, serviceContext: ResponseQueue.StreamingServiceContext, writer: ArrayPoolBufferWriter,
                 connectionId: Guid, repository: ImmutableArrayGroupRepository)
      requires SettingsOk(settings) && serviceContext.Valid() && writer.Valid() && writer.buffer == null
      requires repository.Valid() && forall g | g in repository.table.dictionary.Values :: connectionId !in g.members
      ensures Valid() && this.settings == settings && this.serviceContext == serviceContext && this.writer == writer
      ensures fresh(group) && group.connectionId == connectionId && group.repository == repository
      ensures group.Valid() && group.addedGroups == [] && group.InAll()
    {
      this.settings, this.serviceContext, this.writer := settings, serviceContext, writer;
      group := new HubGroupRepository(connectionId, repository);
    }

    /** The groups there are now are groups there were before, or new ones. */
    twostate predicate OnlyNewGroups()
      reads group, group.repository.table
    {
      && (forall g | g in group.repository.table.dictionary.Values :: g in old(group.repository.table.dictionary.Values) || fresh(g))
      && (forall g | g in group.addedGroups ::
            g in old(group.addedGroups) || g in old(group.repository.table.dictionary.Values) || fresh(g))
    }

    /** No group is touched. */
    twostate predicate GroupsUntouched()
      reads group, group.repository.table, group.repository.table.dictionary.Values, set g | g in group.addedGroups
    {
      && unchanged(group) && unchanged(group.repository.table)
      && unchanged(old(group.repository.table.dictionary.Values)) && unchanged(set g | g in old(group.addedGroups))
    }

    twostate lemma GroupsKept()
      requires old(group.Valid()) && GroupsUntouched()
      ensures group.Valid() && (old(group.InAll()) ==> group.InAll())
    {
    }

    method PerformOne(e: Effect)
      requires Valid() && group.Valid()
      modifies serviceContext`streamingResponseWriter, serviceContext.streamingResponseWriter
      modifies group, group.repository.table, group.repository.table.dictionary.Values, set g | g in group.addedGroups
      ensures Valid() && group.Valid() && OnlyNewGroups()
      ensures !e.LeaveGroup? && old(group.InAll()) ==> group.InAll()
      ensures e.SendFrame? ==> GroupsUntouched()
      ensures serviceContext.streamingResponseWriter == old(serviceContext.streamingResponseWriter) || fresh(serviceContext.streamingResponseWriter)
      ensures serviceContext.View() == if e.SendFrame? then ResponseQueue.Write(old(serviceContext.View()), e.frame) else old(serviceContext.View())
    {
      match e {
        case JoinGroup(name) => var _ := group.Join(name);
        case LeaveGroup(k) => if k < |group.addedGroups| { group.Leave(k); }
        case SendFrame(frame) =>
          serviceContext.QueueResponseStreamWrite(frame);
          GroupsKept();
      }
    }

    /** What is done one after the other. */
    method Perform(effects: seq<Effect>)
      requires Valid() && group.Valid()
      modifies serviceContext`streamingResponseWriter, serviceContext.streamingResponseWriter
      modifies group, group.repository.table, group.repository.table.dictionary.Values, set g | g in group.addedGroups
      ensures Valid() && group.Valid() && OnlyNewGroups()
      ensures NoLeaves(effects) && old(group.InAll()) ==> group.InAll()
      ensures OnlySends(effects) ==> GroupsUntouched()
      ensures serviceContext.streamingResponseWriter == old(serviceContext.streamingResponseWriter) || fresh(serviceContext.streamingResponseWriter)
      ensures serviceContext.View() == WriteAll(old(serviceContext.View()), FramesOf(effects))
    {
      for i := 0 to |effects|
        invariant Valid() && group.Valid() && OnlyNewGroups()
        invariant NoLeaves(effects) && old(group.InAll()) ==> group.InAll()
        invariant OnlySends(effects) ==> GroupsUntouched()
        invariant serviceContext.streamingResponseWriter == old(serviceContext.streamingResponseWriter) || fresh(serviceContext.streamingResponseWriter)
        invariant serviceContext.View() == WriteAll(old(serviceContext.View()), FramesOf(effects[..i]))
      {
        assert effects[i] in effects;
        PerformOne(effects[i]);
        FramesOfNext(old(serviceContext.View()), effects, i);
      }
      assert effects[..|effects|] == effects;
    }

    /** The answer to a request that is not void; `ok` is false when the error frame cannot be built either. */
    method Answer(h: Header, r: Handled) returns (ok: bool, ghost frame: bytes)
      requires Valid() && IsInt32(h.messageId) && IsInt32(h.methodId) && Sendable(r) && h.messageId != VOID_MESSAGE_ID
      modifies serviceContext`streamingResponseWriter, serviceContext.streamingResponseWriter
      modifies writer, writer.pool, writer.pool.free
      ensures Valid()
      ensures forall x | x in writer.pool.free && x !in old(writer.pool.free) :: fresh(x)
      ensures serviceContext.streamingResponseWriter == old(serviceContext.streamingResponseWriter) || fresh(serviceContext.streamingResponseWriter)
      ensures ok ==> IsAnswerFrame(settings, h, r, frame) && serviceContext.View() == ResponseQueue.Write(old(serviceContext.View()), frame)
      ensures !ok ==> TooLong(ErrorFor(settings, h, r)) && serviceContext.View() == old(serviceContext.View())
    {
      var context := new StreamingHubContext(h.messageId, h.methodId, serviceContext, writer);
      match r {
        case Returned(payload) =>
          ok := context.WriteResponseMessage(payload);
          frame := Response(h.messageId, h.methodId, payload);
          if !ok {
            ok := context.WriteErrorMessage(STATUS_INTERNAL, Some(settings.internalDetail), Some(settings.overflow), settings.withText);
            frame := ErrorFor(settings, h, r);
          }
        case StatusException(status, detail) =>
          ok := context.WriteErrorMessage(status, detail, None, false);
          frame := ErrorFor(settings, h, r);
        case OtherException(text) =>
          ok := context.WriteErrorMessage(STATUS_INTERNAL, Some(settings.internalDetail), Some(text), settings.withText);
          frame := ErrorFor(settings, h, r);
      }
    }

    /** The rest of a turn of the loop, once the handler has run. */
    method AnswerUnlessVoid(h: Header, r: Handled) returns (ok: bool, ghost answer: seq<bytes>)
      requires Valid() && IsInt32(h.messageId) && IsInt32(h.methodId) && Sendable(r)
      modifies serviceContext`streamingResponseWriter, serviceContext.streamingResponseWriter
      modifies writer, writer.pool, writer.pool.free
      ensures Valid()
      ensures forall x | x in writer.pool.free && x !in old(writer.pool.free) :: fresh(x)
      ensures serviceContext.streamingResponseWriter == old(serviceContext.streamingResponseWriter) || fresh(serviceContext.streamingResponseWriter)
      ensures serviceContext.View() == WriteAll(old(serviceContext.View()), answer)
      ensures ok ==> if h.messageId == VOID_MESSAGE_ID then answer == [] else |answer| == 1 && IsAnswerFrame(settings, h, r, answer[0])
      ensures !ok ==> h.messageId != VOID_MESSAGE_ID && TooLong(ErrorFor(settings, h, r)) && answer == []
    {
      answer := [];
      if h.messageId == VOID_MESSAGE_ID { return true, []; }
      ghost var frame;
      ok, frame := Answer(h, r);
      if ok {
        answer := [frame];
        WriteJustOne(old(serviceContext.View()), frame);
      }
    }

    /** The groups stay as the handler left them. */
    method AnswerKeepingGroups(h: Header, r: Handled) returns (ok: bool, ghost answer: seq<bytes>)
      requires Valid() && group.Valid() && IsInt32(h.messageId) && IsInt32(h.methodId) && Sendable(r)
      modifies serviceContext`streamingResponseWriter, serviceContext.streamingResponseWriter
      modifies writer, writer.pool, writer.pool.free
      ensures Valid() && group.Valid()
      ensures forall x | x in writer.pool.free && x !in old(writer.pool.free) :: fresh(x)
      ensures serviceContext.streamingResponseWriter == old(serviceContext.streamingResponseWriter) || fresh(serviceContext.streamingResponseWriter)
      ensures serviceContext.View() == WriteAll(old(serviceContext.View()), answer)
      ensures ok ==> if h.messageId == VOID_MESSAGE_ID then answer == [] else |answer| == 1 && IsAnswerFrame(settings, h, r, answer[0])
      ensures !ok ==> h.messageId != VOID_MESSAGE_ID && TooLong(ErrorFor(settings, h, r)) && answer == []
      ensures old(group.InAll()) ==> group.InAll()
    {
      ok, answer := AnswerUnlessVoid(h, r);
      GroupsKept();
    }

    /** A turn of the loop for a known request. */
    method HandleKnown(h: Header, x: Execution) returns (ok: bool, ghost answer: seq<bytes>)
      requires Valid() && group.Valid() && IsInt32(h.messageId) && IsInt32(h.methodId) && Sendable(x.outcome)
      modifies serviceContext`streamingResponseWriter, serviceContext.streamingResponseWriter
      modifies writer, writer.pool, writer.pool.free
      modifies group, group.repository.table, group.repository.table.dictionary.Values, set g | g in group.addedGroups
      ensures Valid() && group.Valid() && OnlyNewGroups()
      ensures NoLeaves(x.effects) && old(group.InAll()) ==> group.InAll()
      ensures forall a | a in writer.pool.free && a !in old(writer.pool.free) :: fresh(a)
      ensures serviceContext.streamingResponseWriter == old(serviceContext.streamingResponseWriter) || fresh(serviceContext.streamingResponseWriter)
      ensures serviceContext.View() == WriteAll(WriteAll(old(serviceContext.View()), FramesOf(x.effects)), answer)
      ensures ok ==> if h.messageId == VOID_MESSAGE_ID then answer == [] else |answer| == 1 && IsAnswerFrame(settings, h, x.outcome, answer[0])
      ensures !ok ==> h.messageId != VOID_MESSAGE_ID && TooLong(ErrorFor(settings, h, x.outcome)) && answer == []
    {
      Perform(x.effects);
      ok, answer := AnswerKeepingGroups(h, x.outcome);
    }

    /** A turn of the loop from the request on; `ok` is false when an exception leaves it, and then `frames` is what had been
        sent. */
    method HandleOne(data: bytes, x: Execution) returns (ok: bool, ghost frames: seq<bytes>)
      requires Valid() && group.Valid() && Sendable(x.outcome)
      modifies serviceContext`streamingResponseWriter, serviceContext.streamingResponseWriter
      modifies writer, writer.pool, writer.pool.free
      modifies group, group.repository.table, group.repository.table.dictionary.Values, set g | g in group.addedGroups
      ensures Valid() && group.Valid() && OnlyNewGroups()
      ensures NoLeaves(x.effects) && old(group.InAll()) ==> group.InAll()
      ensures forall a | a in writer.pool.free && a !in old(writer.pool.free) :: fresh(a)
      ensures serviceContext.streamingResponseWriter == old(serviceContext.streamingResponseWriter) || fresh(serviceContext.streamingResponseWriter)
      ensures serviceContext.View() == WriteAll(old(serviceContext.View()), frames)
      ensures if ok then
                && IsKnown(settings, data) && FramesOf(x.effects) <= frames
                && IsAnswer(settings, data, x.outcome, frames[|FramesOf(x.effects)|..])
              else EndsConnection(settings, data, x.outcome) && frames == if IsKnown(settings, data) then FramesOf(x.effects) else []
    {
      frames := [];
      var header := FetchHeader(data);
      if header.None? || header.value.methodId !in settings.handlers { return false, []; }
      ghost var answer;
      ok, answer := HandleKnown(header.value, x);
      WriteBoth(old(serviceContext.View()), FramesOf(x.effects), answer);
      frames := FramesOf(x.effects) + answer;
      assert frames[|FramesOf(x.effects)|..] == answer;
    }

    /** A whole turn. */
    method Turn(data: bytes, x: Execution) returns (ok: bool, ghost frames: seq<bytes>)
      requires Valid() && group.Valid() && Sendable(x.outcome)
      modifies serviceContext`streamingResponseWriter, serviceContext.streamingResponseWriter
      modifies writer, writer.pool, writer.pool.free
      modifies group, group.repository.table, group.repository.table.dictionary.Values, set g | g in group.addedGroups
      ensures Valid() && group.Valid() && OnlyNewGroups()
      ensures NoLeaves(x.before) && NoLeaves(x.effects) && old(group.InAll()) ==> group.InAll()
      ensures forall a | a in writer.pool.free && a !in old(writer.pool.free) :: fresh(a)
      ensures serviceContext.streamingResponseWriter == old(serviceContext.streamingResponseWriter) || fresh(serviceContext.streamingResponseWriter)
      ensures serviceContext.View() == WriteAll(old(serviceContext.View()), frames)
      ensures if ok then Answers(settings, data, x, frames)
              else EndsConnection(settings, data, x.outcome)
                   && frames == if IsKnown(settings, data) then SentIn(x) else FramesOf(x.before)
    {
      Perform(x.before);
      ghost var rest;
      ok, rest := HandleOne(data, x);
      WriteBoth(old(serviceContext.View()), FramesOf(x.before), rest);
      frames := FramesOf(x.before) + rest;
      if ok { TurnAnswers(settings, data, x, rest); }
    }

    /** The main loop, until the requests end or one ends the connection. `xs[k]` is the turn of the k-th request, `last` what
        is still done before the requests end. */
    method HandleMessageAsync(requests: seq<bytes>, xs: seq<Execution>, last: seq<Effect>)
      returns (served: nat, ghost answers: seq<seq<bytes>>)
      requires Valid() && group.Valid() && |xs| == |requests| && forall k | 0 <= k < |xs| :: Sendable(xs[k].outcome)
      modifies serviceContext`streamingResponseWriter, serviceContext.streamingResponseWriter
      modifies writer, writer.pool, writer.pool.free
      modifies group, group.repository.table, group.repository.table.dictionary.Values, set g | g in group.addedGroups
      ensures Valid() && group.Valid() && OnlyNewGroups() && served == |answers| <= |requests|
      ensures NeverLeaves(xs, last) && old(group.InAll()) ==> group.InAll()
      ensures serviceContext.streamingResponseWriter == old(serviceContext.streamingResponseWriter) || fresh(serviceContext.streamingResponseWriter)
      ensures Served(settings, requests, xs, answers)
      ensures served < |requests| ==> EndsConnection(settings, requests[served], xs[served].outcome)
      ensures serviceContext.View()
           == WriteAll(WriteAll(old(serviceContext.View()), Sent(answers)), Unanswered(settings, requests, xs, last, served))
    {
      served, answers := 0, [];
      while served < |requests|
        invariant Valid() && group.Valid() && OnlyNewGroups() && served == |answers| <= |requests|
        invariant NeverLeaves(xs, last) && old(group.InAll()) ==> group.InAll()
        invariant forall a | a in writer.pool.free && a !in old(writer.pool.free) :: fresh(a)
        invariant serviceContext.streamingResponseWriter == old(serviceContext.streamingResponseWriter) || fresh(serviceContext.streamingResponseWriter)
        invariant Served(settings, requests, xs, answers)
        invariant serviceContext.View() == WriteAll(old(serviceContext.View()), Sent(answers))
      {
        assert xs[served] in xs;
        var ok, frames := Turn(requests[served], xs[served]);
        if !ok { return; }
        SentMore(old(serviceContext.View()), answers, frames);
        ServedMore(settings, requests, xs, answers, frames);
        answers := answers + [frames];
        served := served + 1;
      }
      Perform(last);
    }

    /** A connection's life: the user's first hook, the loop unless that throws, and then, however these ended, the clean-up,
        which is false when the user's last hook throws. */
    method Connect(connecting: Hook, requests: seq<bytes>, xs: seq<Execution>, last: seq<Effect>, disconnected: Hook)
      returns (served: nat, ghost answers: seq<seq<bytes>>, ok: bool)
      requires Valid() && group.Valid() && |xs| == |requests| && forall k | 0 <= k < |xs| :: Sendable(xs[k].outcome)
      modifies serviceContext, serviceContext.streamingResponseWriter
      modifies writer, writer.pool, writer.pool.free
      modifies group, group.repository.table, group.repository.table.dictionary.Values, set g | g in group.addedGroups
      ensures served == |answers| <= |requests| && Served(settings, requests, xs, answers)
      ensures connecting.throws ==> served == 0
      ensures !connecting.throws && served < |requests| ==> EndsConnection(settings, requests[served], xs[served].outcome)
      ensures var entered := WriteAll(old(serviceContext.View()), FramesOf(connecting.effects));
              var unanswered := if connecting.throws then [] else Unanswered(settings, requests, xs, last, served);
              var written := WriteAll(WriteAll(entered, Sent(answers)), unanswered);
              serviceContext.View() == ResponseQueue.Complete(ResponseQueue.Disconnect(written))
      ensures ok <==> !disconnected.throws
      ensures ok ==> InNoGroup()
      ensures !ok && old(group.InAll()) && NoLeaves(connecting.effects) && NeverLeaves(xs, last) && NoLeaves(disconnected.effects) ==> group.InAll()
    {
      served, answers := 0, [];
      Perform(connecting.effects);
      if !connecting.throws {
        served, answers := HandleMessageAsync(requests, xs, last);
      }
      ok := CleanUp(disconnected);
    }

    /** The connection is in no group it ever joined, and in no registered one. */
    ghost predicate InNoGroup()
      reads group, group.repository.table, group.repository.table.dictionary.Values, set g | g in group.addedGroups
    {
      && (forall g | g in group.addedGroups :: group.connectionId !in g.members)
      && (forall g | g in group.repository.table.dictionary.Values :: group.connectionId !in g.members)
    }

    /** The `finally` of `Connect`. When the hook throws, no group is left, and the groups are as before but for what the hook
        itself did. */
    method CleanUp(disconnected: Hook) returns (ok: bool)
      requires Valid() && group.Valid()
      modifies serviceContext, serviceContext.streamingResponseWriter
      modifies group, group.repository.table, group.repository.table.dictionary.Values, set g | g in group.addedGroups
      ensures serviceContext.View() == ResponseQueue.Complete(ResponseQueue.Disconnect(old(serviceContext.View())))
      ensures ok <==> !disconnected.throws
      ensures ok ==> InNoGroup()
      ensures !ok ==> group.Valid()
      ensures !ok && NoLeaves(disconnected.effects) && old(group.InAll()) ==> group.InAll()
      ensures !ok && OnlySends(disconnected.effects) ==> GroupsUntouched()
    {
      serviceContext.CompleteStreamingHub();
      GroupsKept();
      Perform(disconnected.effects);
      NothingWritten(ResponseQueue.Complete(ResponseQueue.Disconnect(old(serviceContext.View()))), FramesOf(disconnected.effects));
      if disconnected.throws { return false; }
      group.DisposeAsync();
      ok := true;
    }
  }
}
