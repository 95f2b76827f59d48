/** The per-connection response queue: QueuedResponseWriter.cs and the two members of ServiceContext.Streaming.cs
    that use it. Writers, the consumer and the disconnect interleave, so the queue is a machine over their steps. */
module ResponseQueue {
  import opened Prelude

  /** Where the consumer stands in `ConsumeQueueAsync`. */
  datatype Consumer =
    | NotStarted                // the lazily created writer does not exist yet
    | Reading                   // about to call TryRead
    | Checking(item: bytes)     // item taken, about to test IsDisconnected
    | Sending(item: bytes)      // test passed, about to call WriteAsync
    | Awaiting(item: bytes)     // WriteAsync has been called and has not finished
    | LoopExit                  // behind the inner loop, about to test IsDisconnected
    | Waiting                   // in WaitToReadAsync
    | Stopped

  /** `accepted`: writes the channel took; `attempted`: items passed to WriteAsync; `finished`: how many of those returned. */
  datatype Queue = Queue(
    channel: seq<bytes>,
    completed: bool,
    disconnected: bool,
    consumer: Consumer,
    accepted: seq<bytes>,
    attempted: seq<bytes>,
    finished: nat,
    abandoned: seq<bytes>)

  function Empty(): Queue {
    Queue([], false, false, NotStarted, [], [], 0, [])
  }

  /** First use of `streamingResponseWriter.Value`. */
  function Create(q: Queue): Queue {
    if q.consumer.NotStarted? then q.(consumer := Reading) else q
  }

  /** `QueueResponseStreamWrite`: `TryWrite` drops the value once the channel is completed. */
  function Write(q: Queue, value: bytes): Queue {
    var q' := Create(q);
    if q'.completed then q' else q'.(channel := q'.channel + [value], accepted := q'.accepted + [value])
  }

  /** `CompleteStreamingHub` is two steps: the flag, then the channel. */
  function Disconnect(q: Queue): Queue {
    q.(disconnected := true)
  }

  function Complete(q: Queue): Queue {
    Create(q).(completed := true)
  }

  /** Whether the consumer can move: it is blocked only while it waits for an item that may still come. */
  predicate CanStep(q: Queue) {
    match q.consumer
    case NotStarted => false
    case Waiting => q.channel != [] || q.completed
    case Stopped => false
    case _ => true
  }

  function ConsumerStep(q: Queue): Queue
    requires CanStep(q)
  {
    match q.consumer
    case Reading =>
      if q.channel != [] then q.(channel := q.channel[1..], consumer := Checking(q.channel[0]))
      else q.(consumer := LoopExit)
    case Checking(item) =>
      if q.disconnected then q.(consumer := LoopExit, abandoned := q.abandoned + [item])
      else q.(consumer := Sending(item))
    case Sending(item) => q.(consumer := Awaiting(item), attempted := q.attempted + [item])
    case Awaiting(_) => q.(consumer := Reading, finished := q.finished + 1)
    case LoopExit => if q.disconnected then q.(consumer := Stopped) else q.(consumer := Waiting)
    case Waiting => if q.channel != [] then q.(consumer := Reading) else q.(consumer := Stopped)
  }

  datatype Step = DoWrite(value: bytes) | DoDisconnect | DoComplete | DoConsume

  predicate Enabled(q: Queue, s: Step) {
    match s
    case DoWrite(_) => true
    case DoDisconnect => true
    case DoComplete => q.disconnected
    case DoConsume => CanStep(q)
  }

  function Apply(q: Queue, s: Step): Queue
    requires Enabled(q, s)
  {
    match s
    case DoWrite(value) => Write(q, value)
    case DoDisconnect => Disconnect(q)
    case DoComplete => Complete(q)
    case DoConsume => ConsumerStep(q)
  }

  /** A schedule: steps that are not enabled when their turn comes are skipped. */
  function Run(q: Queue, steps: seq<Step>): Queue {
    if steps == [] then q
    else
      var p := Run(q, steps[..|steps| - 1]);
      var s := steps[|steps| - 1];
      if Enabled(p, s) then Apply(p, s) else p
  }

  // ----- invariant

  /** The item between the channel and the stream. */
  function InHand(c: Consumer): seq<bytes> {
    match c
    case Checking(item) => [item]
    case Sending(item) => [item]
    case _ => []
  }

  predicate Invariant(q: Queue) {
    && q.accepted == q.attempted + InHand(q.consumer) + q.abandoned + q.channel
    && (q.abandoned != [] ==> q.disconnected && (q.consumer.LoopExit? || q.consumer.Stopped?))
    && |q.attempted| == q.finished + (if q.consumer.Awaiting? then 1 else 0)
    && (q.consumer.Awaiting? ==> q.attempted[|q.attempted| - 1] == q.consumer.item)
    && (q.consumer.NotStarted? ==> q.accepted == [] && !q.completed)
    && (q.completed ==> q.disconnected)
    && (q.consumer.Stopped? ==> q.disconnected)
  }

  lemma WriteInvariant(q: Queue, value: bytes)
    requires Invariant(q)
    ensures Invariant(Write(q, value))
  {
    var head := q.attempted + InHand(q.consumer) + q.abandoned;
    assert head + (q.channel + [value]) == head + q.channel + [value];
  }

  lemma TakeOrder(attempted: seq<bytes>, channel: seq<bytes>)
    requires channel != []
    ensures attempted + [] + [] + channel == attempted + [channel[0]] + [] + channel[1..]
  {
  }

  lemma MoveOrder(attempted: seq<bytes>, item: bytes, channel: seq<bytes>)
    ensures attempted + [item] + [] + channel == (attempted + [item]) + [] + [] + channel
    ensures attempted + [item] + [] + channel == attempted + [] + ([] + [item]) + channel
  {
  }

  lemma ConsumerInvariant(q: Queue)
    requires Invariant(q) && CanStep(q)
    ensures Invariant(ConsumerStep(q))
  {
    assert q.consumer.LoopExit? || q.abandoned == [];
    match q.consumer
    case Reading =>
      if q.channel != [] { TakeOrder(q.attempted, q.channel); }
    case Checking(item) => MoveOrder(q.attempted, item, q.channel);
    case Sending(item) => MoveOrder(q.attempted, item, q.channel);
    case _ =>
  }

  lemma StepInvariant(q: Queue, s: Step)
    requires Invariant(q) && Enabled(q, s)
    ensures Invariant(Apply(q, s))
  {
    match s
    case DoWrite(value) => WriteInvariant(q, value);
    case DoConsume => ConsumerInvariant(q);
    case _ =>
  }

  lemma {:induction false} RunInvariant(q: Queue, steps: seq<Step>)
    requires Invariant(q)
    ensures Invariant(Run(q, steps))
  {
    if steps != [] {
      RunInvariant(q, steps[..|steps| - 1]);
      var p := Run(q, steps[..|steps| - 1]);
      if Enabled(p, steps[|steps| - 1]) { StepInvariant(p, steps[|steps| - 1]); }
    }
  }

  /** Every schedule: the writes attempted are a prefix, in order, of the writes accepted, and at most one is outstanding. */
  lemma AttemptsArePrefix(steps: seq<Step>)
    ensures var q := Run(Empty(), steps);
            q.attempted <= q.accepted && q.finished <= |q.attempted| <= q.finished + 1
  {
    RunInvariant(Empty(), steps);
  }

  /** Nothing accepted is passed over before the disconnect: what has not been attempted is still to come. */
  lemma NothingLostWhileConnected(steps: seq<Step>)
    ensures var q := Run(Empty(), steps);
            !q.disconnected ==> q.accepted == q.attempted + InHand(q.consumer) + q.channel
  {
    RunInvariant(Empty(), steps);
  }

  // ----- after the disconnect

  function AttemptsLeft(q: Queue): nat {
    if q.consumer.Sending? then 1 else 0
  }

  /** Once the flag is set no new write is started, except the one whose test had already passed. */
  lemma {:induction false} FewAttemptsAfterDisconnect(q: Queue, steps: seq<Step>)
    requires q.disconnected
    ensures var q' := Run(q, steps);
            && q'.disconnected
            && |q'.attempted| + AttemptsLeft(q') <= |q.attempted| + AttemptsLeft(q)
            && q.attempted <= q'.attempted
  {
    if steps != [] {
      FewAttemptsAfterDisconnect(q, steps[..|steps| - 1]);
    }
  }

  function Remaining(c: Consumer): nat {
    match c
    case NotStarted => 0
    case Sending(_) => 5
    case Awaiting(_) => 4
    case Waiting => 4
    case Reading => 3
    case Checking(_) => 2
    case LoopExit => 1
    case Stopped => 0
  }

  function ConsumerSteps(q: Queue, n: nat): Queue
    decreases n
  {
    if n == 0 || !CanStep(q) then q else ConsumerSteps(ConsumerStep(q), n - 1)
  }

  /** Once the hub is completed the consumer stops within five of its own steps, however much is queued, */
  lemma {:induction false} ConsumerTerminates(q: Queue, n: nat)
    requires q.disconnected && q.completed && !q.consumer.NotStarted? && n >= Remaining(q.consumer)
    ensures ConsumerSteps(q, n).consumer.Stopped?
    decreases n
  {
    if !q.consumer.Stopped? {
      ConsumerTerminates(ConsumerStep(q), n - 1);
    }
  }

  /** and no other step keeps it from moving or lengthens its way: later writes are dropped. */
  lemma LaterWritesDropped(q: Queue, s: Step)
    requires Invariant(q) && q.completed && Enabled(q, s)
    ensures s.DoWrite? ==> Apply(q, s) == q
    ensures CanStep(q) || q.consumer.Stopped?
    ensures if s.DoConsume? then Remaining(Apply(q, s).consumer) < Remaining(q.consumer)
            else Apply(q, s).consumer == q.consumer
  {
  }

  // ----- the objects

  class QueuedResponseWriter {
    var channel: seq<bytes>
    var completed: bool
    var consumer: Consumer
    ghost var accepted: seq<bytes>
    ghost var abandoned: seq<bytes>
    var attempted: seq<bytes>
    ghost var finished: nat

    constructor ()
      ensures channel == accepted == abandoned == attempted == [] && finished == 0
      ensures !completed && consumer == Reading
    {
      channel, accepted, abandoned, attempted, finished := [], [], [], [], 0;
      completed, consumer := false, Reading;
    }

    method Write(value: bytes)
      modifies this`channel, this`accepted
      ensures channel == if completed then old(channel) else old(channel) + [value]
      ensures accepted == if completed then old(accepted) else old(accepted) + [value]
    {
      if !completed {
        channel := channel + [value];
        accepted := accepted + [value];
      }
    }

    method Dispose()
      modifies this`completed
      ensures completed
    {
      completed := true;
    }

    /** The two nested loops of `ConsumeQueueAsync`, from a read up to the next wait or the end, when nothing else
        runs: while connected, everything queued is written in order; when disconnected, one item at most is taken
        and none is written. */
    method ConsumeQueue(isDisconnected: bool)
      requires consumer == Reading
      modifies this
      ensures completed == old(completed) && accepted == old(accepted)
      ensures !isDisconnected ==>
                && attempted == old(attempted) + old(channel) && channel == [] && abandoned == old(abandoned)
                && consumer == Waiting && finished == old(finished) + |old(channel)|
      ensures isDisconnected ==>
                && attempted == old(attempted) && consumer == Stopped && finished == old(finished)
                && abandoned + channel == old(abandoned) + old(channel) && |channel| >= |old(channel)| - 1
    {
      ghost var done: nat := 0;
      var go := true;
      while go && channel != []
        invariant done <= |old(channel)|
        invariant go ==> channel == old(channel)[done..] && abandoned == old(abandoned)
        invariant go ==> attempted == old(attempted) + old(channel)[..done] && finished == old(finished) + done
        invariant go && isDisconnected ==> done == 0
        invariant !go ==> isDisconnected && attempted == old(attempted) && finished == old(finished)
        invariant !go ==> |old(channel)| > 0 && channel == old(channel)[1..] && abandoned == old(abandoned) + [old(channel)[0]]
        invariant completed == old(completed) && accepted == old(accepted)
        decreases |channel|
      {
        var item := channel[0];
        channel := channel[1..];
        if isDisconnected {
          abandoned := abandoned + [item];
          go := false;
        } else {
          attempted := attempted + [item];
          finished := finished + 1;
          done := done + 1;
        }
      }
      if isDisconnected {
        consumer := Stopped;
      } else {
        consumer := Waiting;
      }
    }
  }

  class StreamingServiceContext {
    var isDisconnected: bool
    var streamingResponseWriter: QueuedResponseWriter?

    ghost function View(): Queue
      reads this, streamingResponseWriter
    {
      var w := streamingResponseWriter;
      if w == null then Empty().(disconnected := isDisconnected)
      else Queue(w.channel, w.completed, isDisconnected, w.consumer, w.accepted, w.attempted, w.finished, w.abandoned)
    }

    ghost predicate Valid()
      reads this, streamingResponseWriter
    {
      Invariant(View()) && (streamingResponseWriter != null ==> !streamingResponseWriter.consumer.NotStarted?)
    }

    constructor ()
      ensures Valid() && View() == Empty() && streamingResponseWriter == null
    {
      isDisconnected := false;
      streamingResponseWriter := null;
    }

    method Value() returns (w: QueuedResponseWriter)
      requires Valid()
      modifies this`streamingResponseWriter
      ensures Valid() && streamingResponseWriter == w && View() == Create(old(View()))
      ensures w == old(streamingResponseWriter) || fresh(w)
    {
      if streamingResponseWriter == null {
        streamingResponseWriter := new QueuedResponseWriter();
      }
      w := streamingResponseWriter;
    }

    method QueueResponseStreamWrite(value: bytes)
      requires Valid()
      modifies this`streamingResponseWriter, streamingResponseWriter
      ensures Valid() && View() == Write(old(View()), value)
      ensures streamingResponseWriter == old(streamingResponseWriter) || fresh(streamingResponseWriter)
    {
      StepInvariant(View(), DoWrite(value));
      var w := Value();
      w.Write(value);
    }

    method CompleteStreamingHub()
      requires Valid()
      modifies this, streamingResponseWriter
      ensures Valid() && View() == Complete(Disconnect(old(View())))
      ensures streamingResponseWriter == old(streamingResponseWriter) || fresh(streamingResponseWriter)
    {
      StepInvariant(View(), DoDisconnect);
      StepInvariant(Disconnect(View()), DoComplete);
      isDisconnected := true;
      var w := Value();
      w.Dispose();
    }
  }
}
