/** Progress of a connection: when no further call is made and nothing fails, every schedule ends, and when it has
    ended no future is pending. */
module SessionProgress {
  import opened Prelude
  import opened Frames
  import opened HubClient
  import opened Session
  import opened SessionHistory
  import opened SessionSafety
  import Q = ResponseQueue

  /** Written in full: every invocation before the running one has been answered unless it is void. */
  predicate Answered(inv: Invocation) {
    inv.header.messageId != VOID_MESSAGE_ID ==> inv.replies != []
  }

  /** Nothing has failed, nothing is being torn down, and no call is about to be made. */
  predicate FaultFree(cfg: Config, s: Session) {
    && s.entering == 0 && !s.ending.disposed && s.ending.reader.Reads?
    && !s.up.closed && !s.down.broken && s.up.dropped == []
    && s.server.up && !s.down.outbox.disconnected
    && (forall f | f in s.up.waiting + s.up.writing + s.up.wire :: FetchHeader(f).Some? && FetchHeader(f).value.methodId in cfg.handlers)
    && (forall k | 0 <= k < |s.server.served| && !(s.server.running && k == |s.server.served| - 1) :: Answered(s.server.served[k]))
  }

  ghost predicate Healthy(cfg: Config, s: Session) {
    Invariant(cfg, s) && FaultFree(cfg, s)
  }

  /** The running invocation still owes its one frame. */
  predicate Owes(s: Session) {
    s.server.running && s.server.served != [] && !Answered(Current(s.server))
  }

  /** The steps of the threads that carry a message along. A filter that calls `next` exactly once and does not
      throw afterwards writes one frame per invocation, and a void invocation none. */
  predicate Orderly(cfg: Config, s: Session, step: Step) {
    && Enabled(cfg, s, step)
    && match step
       case Grant(_) => true
       case WriteRequest(_) => true
       case Begin => true
       case Respond(_) => Owes(s)
       case Throw(_) => Owes(s) || Current(s.server).header.messageId == VOID_MESSAGE_ID
       case Return => !Owes(s)
       case Pump => true
       case Consume => true
       case _ => false
  }

  // ----- the measure

  function QueueWork(q: Q.Queue): nat {
    10 * |q.channel| +
    match q.consumer
    case NotStarted => 0
    case Reading => 2
    case Checking(_) => 11
    case Sending(_) => 10
    case Awaiting(_) => 9
    case LoopExit => if q.channel == [] then 1 else 4
    case Waiting => if q.channel == [] then 0 else 3
    case Stopped => 0
  }

  function Work(s: Session): int {
    40 * |s.up.waiting| + 39 * |s.up.writing| + 38 * (|s.up.wire| - |s.server.served|)
    + (if s.server.running then (if Owes(s) then 20 else 1) else 0)
    + QueueWork(s.down.outbox) + (|s.down.stream| - s.down.consumed)
  }

  lemma PumpWork(q: Q.Queue)
    requires Q.CanStep(q) && !q.disconnected && !q.completed
    ensures QueueWork(Q.ConsumerStep(q)) + (if q.consumer.Awaiting? then 1 else 0) < QueueWork(q)
  {
  }

  lemma QueueWriteWork(q: Q.Queue, frame: bytes)
    ensures QueueWork(Q.Write(q, frame)) <= QueueWork(q) + 13
  {
  }

  lemma ReplyWork(s: Session, frame: bytes)
    requires s.server.running && Owes(s)
    ensures var s' := Reply(s, frame);
            !Owes(s') && Work(s') < Work(s)
  {
    QueueWriteWork(s.down.outbox, frame);
  }

  /** Every orderly step does some of the work that is left. */
  lemma WorkDecreases(cfg: Config, s: Session, step: Step)
    requires Healthy(cfg, s) && Orderly(cfg, s, step)
    ensures Work(Apply(cfg, s, step)) < Work(s)
  {
    match step
    case Respond(payload) => ReplyWork(s, Response(Current(s.server).header.messageId, Current(s.server).header.methodId, payload));
    case Throw(body) =>
      if Owes(s) {
        ReplyWork(s, ErrorFrame(Current(s.server).header.messageId, body.status, body.detail, body.message));
      }
    case Pump => PumpWork(s.down.outbox);
    case _ =>
  }

  lemma BeginFaultFree(cfg: Config, s: Session)
    requires FaultFree(cfg, s) && Orderly(cfg, s, Begin)
    ensures FaultFree(cfg, Apply(cfg, s, Begin))
  {
    var f := s.up.wire[|s.server.served|];
    assert f in s.up.waiting + s.up.writing + s.up.wire;
  }

  lemma MoveFaultFree(cfg: Config, s: Session, step: Step)
    requires FaultFree(cfg, s) && Orderly(cfg, s, step) && (step.Grant? || step.WriteRequest?)
    ensures FaultFree(cfg, Apply(cfg, s, step))
  {
    var s' := Apply(cfg, s, step);
    forall f | f in s'.up.waiting + s'.up.writing + s'.up.wire ensures f in s.up.waiting + s.up.writing + s.up.wire {
    }
  }

  lemma AnswerFaultFree(cfg: Config, s: Session, step: Step)
    requires FaultFree(cfg, s) && Orderly(cfg, s, step) && s.server.served != [] && (step.Respond? || step.Throw? || step.Return?)
    ensures FaultFree(cfg, Apply(cfg, s, step))
  {
    var s' := Apply(cfg, s, step);
    assert s'.up == s.up && |s'.server.served| == |s.server.served|;
    forall k | 0 <= k < |s'.server.served| && !(s'.server.running && k == |s'.server.served| - 1)
      ensures Answered(s'.server.served[k])
    {
      assert k < |s.server.served| - 1 ==> Answered(s.server.served[k]);
    }
  }

  lemma StepKeepsCount(cfg: Config, s: Session, step: Step)
    requires Orderly(cfg, s, step)
    ensures |Apply(cfg, s, step).client.calls| == |s.client.calls|
  {
  }

  lemma HealthyStep(cfg: Config, s: Session, step: Step)
    requires Healthy(cfg, s) && Orderly(cfg, s, step)
    ensures Healthy(cfg, Apply(cfg, s, step))
  {
    StepKeepsCount(cfg, s, step);
    StepInvariant(cfg, s, step);
    FaultFreeStep(cfg, s, step);
  }

  lemma FaultFreeStep(cfg: Config, s: Session, step: Step)
    requires FaultFree(cfg, s) && Orderly(cfg, s, step) && (s.server.running ==> s.server.served != [])
    ensures FaultFree(cfg, Apply(cfg, s, step))
  {
    match step
    case Begin => BeginFaultFree(cfg, s);
    case Grant(_) => MoveFaultFree(cfg, s, step);
    case WriteRequest(_) => MoveFaultFree(cfg, s, step);
    case Pump =>
    case Consume =>
    case _ => AnswerFaultFree(cfg, s, step);
  }

  // ----- no schedule gets stuck

  /** While anything is left to do, some orderly step can be taken. */
  lemma SomeStep(cfg: Config, s: Session) returns (step: Step)
    requires Healthy(cfg, s)
    requires || s.up.waiting != [] || s.up.writing != [] || |s.server.served| < |s.up.wire| || s.server.running
             || Q.CanStep(s.down.outbox) || s.down.consumed < |s.down.stream|
    ensures Orderly(cfg, s, step)
  {
    if s.server.running {
      if Owes(s) { step := Respond([]); } else { step := Return; }
    } else if |s.server.served| < |s.up.wire| {
      step := Begin;
    } else if s.up.writing != [] {
      step := WriteRequest(0);
    } else if s.up.waiting != [] {
      step := Grant(0);
    } else if Q.CanStep(s.down.outbox) {
      step := Pump;
    } else {
      step := Consume;
    }
  }

  /** When no orderly step is left, every call has its answer. */
  lemma QuietMeansDone(cfg: Config, s: Session, n: nat)
    requires Healthy(cfg, s) && (forall step :: !Orderly(cfg, s, step)) && n < |s.client.calls|
    ensures s.client.calls[n].future.Done?
  {
    Quiet(cfg, s);
    var id := MessageId(n);
    MessageIdsUsable(n, n);
    var k := CallIsServed(cfg, s, n);
    assert Answered(s.server.served[k]);
    EverythingSeen(s.down);
    ForIdBehindMarker(s.down.outbox.accepted, id);
    assert FutureOk(cfg, s.client, n, ForId(Seen(s.down), id), Visited(s.ending));
  }

  lemma EverythingSeen(down: Downstream)
    requires DownOk(down) && !down.broken && !down.outbox.disconnected && down.consumed == |down.stream|
    requires down.outbox.channel == [] && (down.outbox.consumer.Waiting? || down.outbox.consumer.NotStarted?)
    ensures Seen(down) == [Marker()] + down.outbox.accepted
  {
    var q := down.outbox;
    assert q.accepted == q.attempted && |down.stream| == 1 + |q.attempted|;
  }

  lemma Quiet(cfg: Config, s: Session)
    requires Healthy(cfg, s) && forall step :: !Orderly(cfg, s, step)
    ensures s.up.waiting == s.up.writing == [] && |s.server.served| == |s.up.wire| && !s.server.running
    ensures s.down.outbox.channel == [] && (s.down.outbox.consumer.Waiting? || s.down.outbox.consumer.NotStarted?)
    ensures s.down.consumed == |s.down.stream|
  {
    if || s.up.waiting != [] || s.up.writing != [] || |s.server.served| < |s.up.wire| || s.server.running
       || Q.CanStep(s.down.outbox) || s.down.consumed < |s.down.stream| {
      var step := SomeStep(cfg, s);
      assert false;
    }
  }

  /** With nobody waiting or writing and nothing refused, every request has reached the wire. */
  lemma RequestOnWire(up: Upstream, n: nat) returns (k: nat)
    requires UpOk(up) && up.waiting == up.writing == up.dropped == [] && n < |up.requested|
    ensures k < |up.wire| && up.wire[k] == up.requested[n]
  {
    var f := up.requested[n];
    assert f in multiset(up.requested) + multiset(up.voids);
    assert f in multiset(up.wire);
    k :| 0 <= k < |up.wire| && up.wire[k] == f;
  }

  lemma CallIsServed(cfg: Config, s: Session, n: nat) returns (k: nat)
    requires CallsOk(cfg, s.client.calls, s.up.requested) && UpOk(s.up) && ServerOk(s.up.wire, s.server)
    requires n < |s.client.calls|
    requires s.up.waiting == s.up.writing == s.up.dropped == [] && |s.server.served| == |s.up.wire|
    ensures k < |s.server.served| && s.server.served[k].header.messageId == MessageId(n)
  {
    k := RequestOnWire(s.up, n);
    RequestsRoundTrip(MessageId(n), s.client.calls[n].methodId, s.client.calls[n].payload);
    assert FetchHeader(s.up.wire[k]) == Some(s.server.served[k].header);
  }

  // ----- every maximal schedule

  ghost predicate OrderlyRun(cfg: Config, s: Session, steps: seq<Step>)
    decreases |steps|
  {
    steps == [] || (Orderly(cfg, s, steps[0]) && OrderlyRun(cfg, Apply(cfg, s, steps[0]), steps[1..]))
  }

  function Final(cfg: Config, s: Session, steps: seq<Step>): Session
    requires OrderlyRun(cfg, s, steps)
    decreases |steps|
  {
    if steps == [] then s else Final(cfg, Apply(cfg, s, steps[0]), steps[1..])
  }

  /** No schedule is longer than the work at its start; one that cannot be extended has completed every future,
      each with the first answer of the invocation of its own request. */
  lemma {:induction false} EverySchedule(cfg: Config, s: Session, steps: seq<Step>)
    requires Healthy(cfg, s) && OrderlyRun(cfg, s, steps)
    ensures |steps| <= Work(s)
    ensures Healthy(cfg, Final(cfg, s, steps)) && |Final(cfg, s, steps).client.calls| == |s.client.calls|
    ensures (forall step :: !Orderly(cfg, Final(cfg, s, steps), step)) ==>
              forall n | 0 <= n < |s.client.calls| :: Final(cfg, s, steps).client.calls[n].future.Done?
    decreases |steps|
  {
    if steps == [] {
      if forall step :: !Orderly(cfg, s, step) {
        forall n | 0 <= n < |s.client.calls| ensures s.client.calls[n].future.Done? { QuietMeansDone(cfg, s, n); }
      }
      WorkNonNegative(cfg, s);
    } else {
      HealthyStep(cfg, s, steps[0]);
      WorkDecreases(cfg, s, steps[0]);
      StepKeepsCount(cfg, s, steps[0]);
      EverySchedule(cfg, Apply(cfg, s, steps[0]), steps[1..]);
    }
  }

  lemma WorkNonNegative(cfg: Config, s: Session)
    requires Healthy(cfg, s)
    ensures Work(s) >= 0
  {
  }

  lemma {:induction false} RunAppend(cfg: Config, s: Session, a: seq<Step>, b: seq<Step>)
    ensures Run(cfg, s, a + b) == Run(cfg, Run(cfg, s, a), b)
  {
    if b == [] {
      assert a + b == a;
    } else {
      RunAppend(cfg, s, a, b[..|b| - 1]);
      assert (a + b)[..|a + b| - 1] == a + b[..|b| - 1];
    }
  }

  /** An orderly schedule skips nothing. */
  lemma {:induction false} OrderlyIsRun(cfg: Config, s: Session, steps: seq<Step>)
    requires OrderlyRun(cfg, s, steps)
    ensures Run(cfg, s, steps) == Final(cfg, s, steps)
    decreases |steps|
  {
    if steps != [] {
      OrderlyIsRun(cfg, Apply(cfg, s, steps[0]), steps[1..]);
      RunAppend(cfg, s, [steps[0]], steps[1..]);
      assert [steps[0]] + steps[1..] == steps;
      assert [steps[0]][..0] == [];
    }
  }

  /** The whole of two schedules, the second of carrying steps that cannot be extended. */
  ghost predicate Maximal(cfg: Config, before: seq<Step>, steps: seq<Step>) {
    var s := Run(cfg, Connected(), before);
    && |s.client.calls| <= MAX_CALLS && FaultFree(cfg, s) && OrderlyRun(cfg, s, steps)
    && forall step :: !Orderly(cfg, Final(cfg, s, steps), step)
  }

  lemma MaximalEnd(cfg: Config, before: seq<Step>, steps: seq<Step>)
    requires Maximal(cfg, before, steps)
    ensures var f := Run(cfg, Connected(), before + steps);
            && Healthy(cfg, f) && |f.client.calls| == |Run(cfg, Connected(), before).client.calls|
            && (forall step :: !Orderly(cfg, f, step)) && Shows(cfg, f, HistoryOf(cfg, before + steps))
            && forall n | 0 <= n < |f.client.calls| :: f.client.calls[n].future.Done?
  {
    var s := Run(cfg, Connected(), before);
    ConnectedInvariant(cfg);
    RunInvariant(cfg, Connected(), before);
    EverySchedule(cfg, s, steps);
    RunAppend(cfg, Connected(), before, steps);
    OrderlyIsRun(cfg, s, steps);
    RunShows(cfg, before + steps);
  }

  /** From any reachable fault-free state: when a schedule of the carrying steps cannot be extended, every call holds what
      the handler of exactly its request first yielded. */
  lemma EveryCallAnswered(cfg: Config, before: seq<Step>, steps: seq<Step>, n: nat) returns (k: nat)
    requires Maximal(cfg, before, steps) && n < |Run(cfg, Connected(), before).client.calls|
    ensures var f, h := Run(cfg, Connected(), before + steps), HistoryOf(cfg, before + steps);
            && n < |f.client.calls| == |h.calls| && k < |f.server.served| == |h.results|
            && f.server.served[k].header == Header(h.calls[n].methodId, MessageId(n), h.calls[n].payload)
            && h.results[k] != [] && h.calls[n].methodId in cfg.hub.cases && f.client.calls[n].future.Done?
            && Delivers(cfg.hub.cases[h.calls[n].methodId], h.results[k][0], f.client.calls[n].future.outcome)
  {
    MaximalEnd(cfg, before, steps);
    var f := Run(cfg, Connected(), before + steps);
    k := AnswerOfCall(cfg, f, n);
    AnswerShows(cfg, f, HistoryOf(cfg, before + steps), n, k);
  }

  /** And the receiver has been handed everything that was broadcast, in order. */
  lemma EveryBroadcastReceived(cfg: Config, before: seq<Step>, steps: seq<Step>)
    requires Maximal(cfg, before, steps)
    ensures Run(cfg, Connected(), before + steps).client.received == HistoryOf(cfg, before + steps).broadcasts
  {
    MaximalEnd(cfg, before, steps);
    var f := Run(cfg, Connected(), before + steps);
    Quiet(cfg, f);
    EverythingSeen(f.down);
    BroadcastsBehindMarker(f.down.outbox.accepted);
  }
}
