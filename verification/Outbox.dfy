/**
 Session, queue, writer and socket together, in every interleaving: what is on the wire compared with
 what the session sent.
 */
module Delivery {
  import opened Prelude
  import opened Messages
  import opened Codec

  datatype Writer = Working | Finished | Failed | Aborted

  /** `produced` is history: the messages whose send succeeded.  `refused` counts failed sends. */
  datatype Link = Link(
    running: bool,
    produced: seq<MessageWrapper>,
    refused: nat,
    queue: seq<MessageWrapper>,
    writer: Writer,
    buffer: Bytes,
    wire: Bytes)

  const INIT := Link(true, [], 0, [], Working, [], [])

  datatype Step =
    | Send(payload: Payload)  // a handler sends a response
    | Stop                    // the session loop ends and its outbox is dropped
    | Take                    // the writer takes a message and feeds it
    | Write(count: nat)       // the socket accepts some bytes
    | SocketError             // feed or flush fails: the writer ends and the queue is dropped
    | Abort                   // the drain timeout of a stopped session
    | Finish                  // queue closed and empty, everything flushed

  ghost predicate Can(l: Link, step: Step) {
    match step
    case Send(_) => l.running
    case Stop => l.running
    case Take => l.writer == Working && l.queue != []
    case Write(n) => l.writer == Working && n <= |l.buffer|
    case SocketError => l.writer == Working
    case Abort => l.writer == Working && !l.running
    case Finish => l.writer == Working && !l.running && l.queue == [] && l.buffer == []
  }

  function Do(c: BodyCodec<MessageWrapper>, l: Link, step: Step): Link
    requires Can(l, step)
  {
    match step
    case Send(p) =>
      if l.writer == Working && |l.queue| < MAX_SEND_QUEUE_SIZE
      then l.(queue := l.queue + [Wrap(p)], produced := l.produced + [Wrap(p)])
      else l.(running := false, refused := l.refused + 1) // the handler breaks the loop
    case Stop => l.(running := false)
    case Take => l.(queue := l.queue[1..], buffer := l.buffer + Frame(c, l.queue[0]))
    case Write(n) => l.(wire := l.wire + l.buffer[..n], buffer := l.buffer[n..])
    case SocketError => l.(writer := Failed, queue := [])
    case Abort => l.(writer := Aborted, queue := [])
    case Finish => l.(writer := Finished)
  }

  ghost predicate Linked(c: BodyCodec<MessageWrapper>, states: seq<Link>, steps: seq<Step>, i: nat)
    requires i < |steps| < |states|
  {
    Can(states[i], steps[i]) && states[i + 1] == Do(c, states[i], steps[i])
  }

  ghost predicate IsTrace(c: BodyCodec<MessageWrapper>, states: seq<Link>, steps: seq<Step>) {
    && |states| == |steps| + 1 && states[0] == INIT
    && forall i: nat {:trigger Linked(c, states, steps, i)} | i < |steps| :: Linked(c, states, steps, i)
  }

  /** The steps lead from a new connection to `l`. */
  ghost predicate Reaches(c: BodyCodec<MessageWrapper>, steps: seq<Step>, l: Link) {
    exists states :: IsTrace(c, states, steps) && Last(states) == l
  }

  ghost predicate Reachable(c: BodyCodec<MessageWrapper>, l: Link) {
    exists steps :: Reaches(c, steps, l)
  }

  lemma Extend(c: BodyCodec<MessageWrapper>, l: Link, step: Step)
    requires Reachable(c, l) && Can(l, step)
    ensures Reachable(c, Do(c, l, step))
  {
    var steps :| Reaches(c, steps, l);
    var states :| IsTrace(c, states, steps) && Last(states) == l;
    var states', steps' := states + [Do(c, l, step)], steps + [step];
    forall i: nat | i < |steps'| ensures Linked(c, states', steps', i) {
      assert i < |steps| ==> Linked(c, states, steps, i);
    }
    assert IsTrace(c, states', steps') && Last(states') == Do(c, l, step);
    assert Reaches(c, steps', Do(c, l, step));
  }

  lemma InitReachable(c: BodyCodec<MessageWrapper>)
    ensures Reachable(c, INIT)
  {
    assert IsTrace(c, [INIT], []) && Last([INIT]) == INIT;
    assert Reaches(c, [], INIT);
  }

  /** The hypothesis on protobuf: decoding inverts encoding, and a set payload takes some bytes. */
  ghost predicate Protobuf(c: BodyCodec<MessageWrapper>) {
    RoundTrips(c) && forall w: MessageWrapper :: w.payload.Some? ==> c.encode(w) != []
  }

  ghost predicate Inv(c: BodyCodec<MessageWrapper>, l: Link) {
    && |l.queue| <= MAX_SEND_QUEUE_SIZE
    && (forall i | 0 <= i < |l.produced| :: l.produced[i].payload.Some?)
    && (l.refused > 0 ==> !l.running && l.refused == 1)
    && match l.writer {
         case Working => l.wire + l.buffer + FrameAll(c, l.queue) == FrameAll(c, l.produced)
         case Finished => l.wire == FrameAll(c, l.produced) && !l.running
         case _ => l.wire <= FrameAll(c, l.produced) && l.queue == []
       }
  }

  lemma StepKeepsInv(c: BodyCodec<MessageWrapper>, l: Link, step: Step)
    requires Inv(c, l) && Can(l, step)
    ensures Inv(c, Do(c, l, step))
  {
    match step
    case Send(p) => SendKeepsInv(c, l, p);
    case Take => TakeKeepsInv(c, l);
    case Write(n) => WriteKeepsInv(c, l, n);
    case _ => EndKeepsInv(c, l, step);
  }

  lemma TakeKeepsInv(c: BodyCodec<MessageWrapper>, l: Link)
    requires Inv(c, l) && Can(l, Take)
    ensures Inv(c, Do(c, l, Take))
  {
    var frame := Frame(c, l.queue[0]);
    Associates(l.wire, l.buffer, frame);
    Associates(l.wire + l.buffer, frame, FrameAll(c, l.queue[1..]));
  }

  lemma WriteKeepsInv(c: BodyCodec<MessageWrapper>, l: Link, n: nat)
    requires Inv(c, l) && Can(l, Write(n))
    ensures Inv(c, Do(c, l, Write(n)))
  {
    assert (l.wire + l.buffer[..n]) + l.buffer[n..] == l.wire + l.buffer;
  }

  /** A send is accepted exactly while the writer is at work and fewer than 200 messages wait. */
  lemma AcceptedIff(c: BodyCodec<MessageWrapper>, l: Link, p: Payload)
    requires Can(l, Send(p))
    ensures var l' := Do(c, l, Send(p));
            && l'.wire == l.wire && l'.buffer == l.buffer && l'.writer == l.writer
            && if l.writer == Working && |l.queue| < 200
               then l'.produced == l.produced + [Wrap(p)] && l'.queue == l.queue + [Wrap(p)] && l'.running
               else l'.produced == l.produced && l'.queue == l.queue && !l'.running
  {
  }

  lemma EndKeepsInv(c: BodyCodec<MessageWrapper>, l: Link, step: Step)
    requires Inv(c, l) && Can(l, step) && (step.Stop? || step.SocketError? || step.Abort? || step.Finish?)
    ensures Inv(c, Do(c, l, step))
  {
    if l.writer == Working {
      assert l.wire <= l.wire + l.buffer + FrameAll(c, l.queue);
    }
  }

  lemma SendKeepsInv(c: BodyCodec<MessageWrapper>, l: Link, p: Payload)
    requires Inv(c, l) && Can(l, Send(p))
    ensures Inv(c, Do(c, l, Send(p)))
  {
    assert forall i | 0 <= i < |l.produced| :: (l.produced + [Wrap(p)])[i] == l.produced[i];
    if l.writer == Working {
      FramesGrow(c, l.wire + l.buffer, l.queue, l.produced, Wrap(p));
    }
  }

  lemma FramesGrow(c: BodyCodec<MessageWrapper>, sent: Bytes, queue: seq<MessageWrapper>,
                   produced: seq<MessageWrapper>, m: MessageWrapper)
    requires sent + FrameAll(c, queue) == FrameAll(c, produced)
    ensures sent + FrameAll(c, queue + [m]) == FrameAll(c, produced + [m])
  {
    FrameAllAppend(c, queue, [m]);
    FrameAllAppend(c, produced, [m]);
    Associates(sent, FrameAll(c, queue), FrameAll(c, [m]));
  }

  lemma Associates(a: Bytes, b: Bytes, c: Bytes)
    ensures a + (b + c) == a + b + c
  {
  }

  lemma {:induction false} TraceInv(c: BodyCodec<MessageWrapper>, states: seq<Link>, steps: seq<Step>, i: nat)
    requires IsTrace(c, states, steps) && i < |states|
    ensures Inv(c, states[i])
  {
    if i == 0 {
    } else {
      TraceInv(c, states, steps, i - 1);
      assert Linked(c, states, steps, i - 1);
      StepKeepsInv(c, states[i - 1], steps[i - 1]);
    }
  }

  lemma ReachableInv(c: BodyCodec<MessageWrapper>, steps: seq<Step>, l: Link)
    requires Reaches(c, steps, l)
    ensures Inv(c, l)
  {
    var states :| IsTrace(c, states, steps) && Last(states) == l;
    TraceInv(c, states, steps, |steps|);
  }

  /**
   End-to-end delivery.  At any moment the bytes on the wire decode without error to a prefix, in
   order and without gaps, of the messages sent (less those over the size limit); no message whose
   frame is on the wire is missing; the queue is bounded; at most one send is ever refused; and when
   the writer finishes, everything sent has been delivered.
   */
  lemma EndToEnd(c: BodyCodec<MessageWrapper>, steps: seq<Step>, l: Link)
    requires Protobuf(c) && Reaches(c, steps, l)
    ensures var d := Drain(c, l.wire);
            d.error.None? && d.messages <= Kept(c, l.produced) &&
            (forall k | 0 <= k <= |l.produced| && |FrameAll(c, l.produced[..k])| <= |l.wire| ::
               Kept(c, l.produced[..k]) <= d.messages) &&
            (l.writer == Finished ==> d == Drained(Kept(c, l.produced), None, []))
    ensures |l.queue| <= 200 && l.refused <= 1
  {
    ReachableInv(c, steps, l);
    assert NonEmptyBodies(c, l.produced);
    assert l.wire <= FrameAll(c, l.produced);
    PrefixDecodesToPrefix(c, l.wire, l.produced);
    SequenceRoundTripIff(c, l.produced);
  }
}

/** The send path: a bounded queue filled by the session and drained by a writer task. */
module Outboxes {
  import opened Prelude
  import opened Messages
  import opened Codec
  import opened SessionRegistries
  import D = Delivery

  datatype SendQueueFull = SendQueueFull

  class Outbox {
    var queue: seq<MessageWrapper>
    /** The writer task has ended and dropped its end of the queue. */
    var closed: bool
    /** Everything that was ever queued. */
    ghost var sent: seq<MessageWrapper>

    ghost predicate Valid()
      reads this
    {
      |queue| <= MAX_SEND_QUEUE_SIZE
    }

    ghost predicate CanSend()
      reads this
    {
      !closed && |queue| < MAX_SEND_QUEUE_SIZE
    }

    constructor ()
      ensures Valid() && queue == [] && !closed && sent == []
    {
      queue := [];
      closed := false;
      sent := [];
    }

    method Send(payload: Payload) returns (r: Result<(), SendQueueFull>)
      requires Valid()
      modifies this
      ensures Valid() && closed == old(closed)
      ensures r.Ok? <==> !closed && |old(queue)| < 200
      ensures queue == if r.Ok? then old(queue) + [Wrap(payload)] else old(queue)
      ensures sent == if r.Ok? then old(sent) + [Wrap(payload)] else old(sent)
    {
      if closed || |queue| >= MAX_SEND_QUEUE_SIZE {
        return Err(SendQueueFull);
      }
      queue := queue + [MessageWrapper(0, Some(payload))];
      sent := sent + [Wrap(payload)];
      return Ok(());
    }

    method SendFlow(payload: Payload) returns (flow: Flow)
      requires Valid()
      modifies this
      ensures Valid() && closed == old(closed)
      ensures flow == if old(CanSend()) then Continue else Break
      ensures queue == if flow == Continue then old(queue) + [Wrap(payload)] else old(queue)
      ensures sent == if flow == Continue then old(sent) + [Wrap(payload)] else old(sent)
    {
      var r := Send(payload);
      flow := if r.Ok? then Continue else Break;
    }
  }

  // ---------------------------------------------------------------- writer task

  /**
   The writer's end of the queue.  `script` is what the writer will see: the messages in order, with a
   `None` wherever it finds the queue momentarily empty; the script ends when the session closes it.
   */
  class Receiver {
    var script: seq<Option<MessageWrapper>>

    /** Waits for a message; `None` once the queue is closed and empty. */
    method Recv() returns (m: Option<MessageWrapper>)
      modifies this
      ensures m.None? ==> script == [] && Arriving(old(script)) == []
      ensures m.Some? ==> |script| < |old(script)| && Arriving(old(script)) == [m.value] + Arriving(script)
    {
      while script != [] && script[0].None?
        invariant Arriving(script) == Arriving(old(script))
        invariant |script| <= |old(script)|
        decreases |script|
      {
        script := script[1..];
      }
      if script == [] {
        return None;
      }
      m := script[0];
      script := script[1..];
    }

    /** Does not wait. */
    method TryRecv() returns (m: Option<MessageWrapper>)
      modifies this
      ensures m.None? ==> Arriving(script) == Arriving(old(script)) && |script| <= |old(script)|
      ensures m.Some? ==> |script| < |old(script)| && Arriving(old(script)) == [m.value] + Arriving(script)
    {
      if script == [] {
        return None;
      }
      m := script[0];
      script := script[1..];
    }
  }

  function Arriving(script: seq<Option<MessageWrapper>>): seq<MessageWrapper> {
    if script == [] then []
    else if script[0].None? then Arriving(script[1..])
    else [script[0].value] + Arriving(script[1..])
  }

  /**
   `FramedWrite` over a socket.  `capacity` is how many more bytes the socket takes before it fails
   (`None`: it never fails); `boundary` is the buffer length above which `Feed` flushes first.
   */
  class FramedWrite {
    const codec: BodyCodec<MessageWrapper>
    const boundary: nat
    var buffer: Bytes
    var wire: Bytes
    var capacity: Option<nat>

    constructor (codec: BodyCodec<MessageWrapper>, boundary: nat, capacity: Option<nat>)
      ensures this.codec == codec && buffer == [] && wire == []
    {
      this.codec, this.boundary, this.capacity := codec, boundary, capacity;
      buffer, wire := [], [];
    }

    /** `written` is how many bytes of the buffer reached the wire. */
    method Flush() returns (ok: bool, ghost written: nat)
      modifies this
      ensures written <= |old(buffer)| && (ok ==> written == |old(buffer)|)
      ensures wire == old(wire) + old(buffer)[..written] && buffer == old(buffer)[written..]
    {
      if capacity.Some? && capacity.value < |buffer| {
        written := capacity.value;
        wire := wire + buffer[..capacity.value];
        buffer := buffer[capacity.value..];
        capacity := Some(0);
        return false, written;
      }
      capacity := if capacity.Some? then Some(capacity.value - |buffer|) else None;
      wire := wire + buffer;
      buffer := [];
      return true, |old(buffer)|;
    }

    method Feed(m: MessageWrapper) returns (ok: bool, ghost written: nat)
      modifies this
      ensures written <= |old(buffer)| && wire == old(wire) + old(buffer)[..written]
      ensures buffer == old(buffer)[written..] + if ok then Frame(codec, m) else []
    {
      written := 0;
      if |buffer| >= boundary {
        ok, written := Flush();
        if !ok {
          return;
        }
      }
      var dst := new BytesMut();
      dst.Put(buffer);
      Encode(codec, m, dst);
      buffer := dst.data;
      ok := true;
    }
  }

  // ---------------------------------------------------------------- the writer against `Delivery`

  /** A message as `Outbox.Send` queues it. */
  predicate IsWrapped(m: MessageWrapper) {
    m.payload.Some? && m == Wrap(m.payload.value)
  }

  ghost predicate AllWrapped(ms: seq<MessageWrapper>) {
    forall i | 0 <= i < |ms| :: IsWrapped(ms[i])
  }

  /** A state of `Delivery` that can be reached, in which the session is at work and its queue empty. */
  ghost predicate Shows(c: BodyCodec<MessageWrapper>, l: D.Link, buffer: Bytes, wire: Bytes) {
    D.Reachable(c, l) && l.running && l.writer == D.Working && l.queue == [] && l.buffer == buffer && l.wire == wire
  }

  /** The state after some bytes are written and, perhaps, a message is sent and taken. */
  function Moved(c: BodyCodec<MessageWrapper>, l: D.Link, sent: seq<MessageWrapper>, written: nat): D.Link
    requires written <= |l.buffer|
  {
    l.(produced := l.produced + sent,
       wire := l.wire + l.buffer[..written],
       buffer := l.buffer[written..] + FrameAll(c, sent))
  }

  lemma FrameOfOne(c: BodyCodec<MessageWrapper>, m: MessageWrapper)
    ensures FrameAll(c, [m]) == Frame(c, m)
  {
    assert Frame(c, m) + [] == Frame(c, m);
  }

  /** Feeding a message is: it was sent, some bytes were written, and the writer took it. */
  lemma FeedIsSteps(c: BodyCodec<MessageWrapper>, l: D.Link, m: MessageWrapper, written: nat)
    requires Shows(c, l, l.buffer, l.wire) && IsWrapped(m) && written <= |l.buffer|
    ensures D.Reachable(c, Moved(c, l, [m], written))
  {
    D.Extend(c, l, D.Send(m.payload.value));
    var l1 := D.Do(c, l, D.Send(m.payload.value));
    assert l1.queue == [m];
    D.Extend(c, l1, D.Write(written));
    var l2 := D.Do(c, l1, D.Write(written));
    D.Extend(c, l2, D.Take);
    FrameOfOne(c, m);
    assert [m][1..] == [];
    assert D.Do(c, l2, D.Take) == Moved(c, l, [m], written);
  }

  lemma FlushIsStep(c: BodyCodec<MessageWrapper>, l: D.Link, written: nat)
    requires Shows(c, l, l.buffer, l.wire) && written <= |l.buffer|
    ensures D.Reachable(c, Moved(c, l, [], written))
  {
    D.Extend(c, l, D.Write(written));
    assert l.produced + [] == l.produced && l.buffer[written..] + [] == l.buffer[written..];
    assert D.Do(c, l, D.Write(written)) == Moved(c, l, [], written);
  }

  /** A failure to write is a partial write and an error; the message being fed, if any, is lost. */
  lemma FailureIsSteps(c: BodyCodec<MessageWrapper>, l: D.Link, sent: seq<MessageWrapper>, written: nat)
    requires Shows(c, l, l.buffer, l.wire) && |sent| <= 1 && AllWrapped(sent) && written <= |l.buffer|
    ensures D.Reachable(c, Failed(l, sent, written))
  {
    var l1 := l;
    if sent == [] {
      assert l.produced + sent == l.produced;
    } else {
      assert IsWrapped(sent[0]);
      D.Extend(c, l, D.Send(sent[0].payload.value));
      l1 := D.Do(c, l, D.Send(sent[0].payload.value));
      assert sent == [sent[0]];
    }
    D.Extend(c, l1, D.Write(written));
    var l2 := D.Do(c, l1, D.Write(written));
    D.Extend(c, l2, D.SocketError);
    assert D.Do(c, l2, D.SocketError) == Failed(l, sent, written);
  }

  function Failed(l: D.Link, sent: seq<MessageWrapper>, written: nat): D.Link
    requires written <= |l.buffer|
  {
    l.(produced := l.produced + sent, wire := l.wire + l.buffer[..written], buffer := l.buffer[written..],
       writer := D.Failed)
  }

  lemma FinishIsSteps(c: BodyCodec<MessageWrapper>, l: D.Link)
    requires Shows(c, l, [], l.wire)
    ensures D.Reachable(c, l.(running := false, writer := D.Finished))
  {
    D.Extend(c, l, D.Stop);
    D.Extend(c, D.Do(c, l, D.Stop), D.Finish);
  }

  /** What a step of the writer leads to: it goes on, or it has failed. */
  ghost predicate Follows(c: BodyCodec<MessageWrapper>, ok: bool, l: D.Link, buffer: Bytes, wire: Bytes) {
    if ok then Shows(c, l, buffer, wire) else D.Reachable(c, l) && l.writer == D.Failed && l.wire == wire
  }

  lemma FeedFollows(c: BodyCodec<MessageWrapper>, l: D.Link, m: MessageWrapper, ok: bool,
                    buffer: Bytes, wire: Bytes, written: nat)
    returns (l': D.Link)
    requires written <= |buffer|
    ensures Shows(c, l, buffer, wire) && IsWrapped(m) ==>
              && Follows(c, ok, l', buffer[written..] + (if ok then Frame(c, m) else []), wire + buffer[..written])
              && l'.produced == l.produced + [m]
  {
    l' := l;
    if Shows(c, l, buffer, wire) && IsWrapped(m) {
      FrameOfOne(c, m);
      if ok {
        FeedIsSteps(c, l, m, written);
        l' := Moved(c, l, [m], written);
      } else {
        FailureIsSteps(c, l, [m], written);
        l' := Failed(l, [m], written);
      }
    }
  }

  lemma FlushFollows(c: BodyCodec<MessageWrapper>, l: D.Link, ok: bool, buffer: Bytes, wire: Bytes, written: nat)
    returns (l': D.Link)
    requires written <= |buffer|
    ensures Shows(c, l, buffer, wire) ==>
              Follows(c, ok, l', buffer[written..], wire + buffer[..written]) && l'.produced == l.produced
  {
    l' := l;
    if Shows(c, l, buffer, wire) {
      assert l.produced + [] == l.produced && buffer[written..] + [] == buffer[written..];
      if ok {
        FlushIsStep(c, l, written);
        l' := Moved(c, l, [], written);
      } else {
        FailureIsSteps(c, l, [], written);
        l' := Failed(l, [], written);
      }
    }
  }

  /** Where the writer is in a run of `Delivery`: `rest` is still to come of all that it is ever sent. */
  ghost predicate OnTrack(c: BodyCodec<MessageWrapper>, l: D.Link, buffer: Bytes, wire: Bytes,
                          rest: seq<MessageWrapper>, all: seq<MessageWrapper>)
  {
    Shows(c, l, buffer, wire) && AllWrapped(all) && l.produced + rest == all
  }

  ghost predicate FailedOnTrack(c: BodyCodec<MessageWrapper>, l: D.Link, wire: Bytes, all: seq<MessageWrapper>) {
    D.Reachable(c, l) && l.writer == D.Failed && l.wire == wire && l.produced <= all
  }

  method FeedLinked(sink: FramedWrite, m: MessageWrapper, ghost l: D.Link) returns (ok: bool, ghost l': D.Link)
    modifies sink
    ensures old(sink.wire) <= sink.wire
    ensures ok ==> sink.wire + sink.buffer == old(sink.wire) + old(sink.buffer) + Frame(sink.codec, m)
    ensures !ok ==> sink.wire <= old(sink.wire) + old(sink.buffer)
    ensures old(Shows(sink.codec, l, sink.buffer, sink.wire)) && IsWrapped(m) ==>
              Follows(sink.codec, ok, l', sink.buffer, sink.wire) && l'.produced == l.produced + [m]
  {
    ghost var written;
    ghost var buffer, wire := sink.buffer, sink.wire;
    ok, written := sink.Feed(m);
    assert buffer == buffer[..written] + buffer[written..];
    l' := FeedFollows(sink.codec, l, m, ok, buffer, wire, written);
  }

  method FlushLinked(sink: FramedWrite, ghost l: D.Link) returns (ok: bool, ghost l': D.Link)
    modifies sink
    ensures old(sink.wire) <= sink.wire <= old(sink.wire) + old(sink.buffer)
    ensures ok ==> sink.wire == old(sink.wire) + old(sink.buffer) && sink.buffer == []
    ensures old(Shows(sink.codec, l, sink.buffer, sink.wire)) ==>
              Follows(sink.codec, ok, l', sink.buffer, sink.wire) && l'.produced == l.produced
  {
    ghost var written;
    ghost var buffer, wire := sink.buffer, sink.wire;
    ok, written := sink.Flush();
    assert buffer == buffer[..written] + buffer[written..];
    l' := FlushFollows(sink.codec, l, ok, buffer, wire, written);
  }

  /**
   The writer task.  If the socket never fails, everything that arrives is on the wire when the loop
   ends; otherwise a prefix of it is, and the session is kicked.  On a new connection, what it does is
   a run of `Delivery` to the state `l`, in which each message is queued just before it is taken.
   */
  method WriteLoop(sink: FramedWrite, rx: Receiver, kick: CancellationToken) returns (ok: bool, ghost l: D.Link)
    modifies sink, rx, kick
    ensures old(sink.wire) <= sink.wire
    ensures sink.wire <= old(sink.wire) + old(sink.buffer) + FrameAll(sink.codec, Arriving(old(rx.script)))
    ensures ok && old(sink.buffer) == [] ==>
              sink.wire == old(sink.wire) + FrameAll(sink.codec, Arriving(old(rx.script)))
    ensures kick.cancelled == (old(kick.cancelled) || !ok)
    ensures old(sink.buffer) == [] && old(sink.wire) == [] && AllWrapped(Arriving(old(rx.script))) ==>
              && D.Reachable(sink.codec, l) && l.wire == sink.wire && l.produced <= Arriving(old(rx.script))
              && (if ok then l.writer == D.Finished && l.produced == Arriving(old(rx.script)) else l.writer == D.Failed)
  {
    ghost var all := Arriving(rx.script);
    l := D.INIT;
    D.InitReachable(sink.codec);
    ok, l := Pump(sink, rx, l, all);
    if !ok {
      kick.Cancel();
    } else if OnTrack(sink.codec, l, [], sink.wire, [], all) {
      FinishIsSteps(sink.codec, l);
      l := l.(running := false, writer := D.Finished);
    }
  }

  /** Batch after batch, until the queue is closed and empty or the socket fails. */
  method Pump(sink: FramedWrite, rx: Receiver, ghost l: D.Link, ghost all: seq<MessageWrapper>)
    returns (ok: bool, ghost l': D.Link)
    modifies sink, rx
    ensures old(sink.wire) <= sink.wire
    ensures var total := old(sink.wire) + old(sink.buffer) + FrameAll(sink.codec, Arriving(old(rx.script)));
            if ok then sink.wire + sink.buffer == total else sink.wire <= total
    ensures ok && old(sink.buffer) == [] ==> sink.buffer == []
    ensures OnTrack(sink.codec, l, old(sink.buffer), old(sink.wire), Arriving(old(rx.script)), all) ==>
              if ok then OnTrack(sink.codec, l', sink.buffer, sink.wire, [], all)
              else FailedOnTrack(sink.codec, l', sink.wire, all)
  {
    ghost var total := sink.wire + sink.buffer + FrameAll(sink.codec, Arriving(rx.script));
    ghost var linked := OnTrack(sink.codec, l, sink.buffer, sink.wire, Arriving(rx.script), all);
    ok, l' := true, l;
    while true
      invariant ok && old(sink.wire) <= sink.wire
      invariant old(sink.buffer) == [] ==> sink.buffer == []
      invariant sink.wire + sink.buffer + FrameAll(sink.codec, Arriving(rx.script)) == total
      invariant linked ==> OnTrack(sink.codec, l', sink.buffer, sink.wire, Arriving(rx.script), all)
      decreases |rx.script|
    {
      var next := rx.Recv();
      if next.None? {
        return;
      }
      ok, l' := WriteBatch(sink, rx, next.value, l', all);
      if !ok {
        return;
      }
    }
  }

  /** One turn of the outer loop: a message, whatever else is queued, and a flush. */
  method WriteBatch(sink: FramedWrite, rx: Receiver, first: MessageWrapper,
                    ghost l: D.Link, ghost all: seq<MessageWrapper>)
    returns (ok: bool, ghost l': D.Link)
    modifies sink, rx
    ensures old(sink.wire) <= sink.wire && |rx.script| <= |old(rx.script)|
    ensures var total := old(sink.wire) + old(sink.buffer) + FrameAll(sink.codec, [first] + Arriving(old(rx.script)));
            if ok then sink.buffer == [] && sink.wire + FrameAll(sink.codec, Arriving(rx.script)) == total
            else sink.wire <= total
    ensures OnTrack(sink.codec, l, old(sink.buffer), old(sink.wire), [first] + Arriving(old(rx.script)), all) ==>
              if ok then OnTrack(sink.codec, l', sink.buffer, sink.wire, Arriving(rx.script), all)
              else FailedOnTrack(sink.codec, l', sink.wire, all)
  {
    ok, l' := FeedAndDrain(sink, rx, first, l, all);
    if ok {
      ok, l' := FlushLinked(sink, l');
    }
  }

  lemma FrameFirst(c: BodyCodec<MessageWrapper>, before: Bytes, m: MessageWrapper, ms: seq<MessageWrapper>)
    ensures before + FrameAll(c, [m] + ms) == before + Frame(c, m) + FrameAll(c, ms)
  {
    assert ([m] + ms)[1..] == ms;
    assert before + (Frame(c, m) + FrameAll(c, ms)) == before + Frame(c, m) + FrameAll(c, ms);
  }

  /**
   The inner loop of the writer: feed a message and whatever else is queued.  `l` is the state of
   `Delivery` so far and `all` everything that this writer is ever sent.
   */
  method FeedAndDrain(sink: FramedWrite, rx: Receiver, first: MessageWrapper,
                      ghost l: D.Link, ghost all: seq<MessageWrapper>)
    returns (ok: bool, ghost l': D.Link)
    modifies sink, rx
    ensures old(sink.wire) <= sink.wire && |rx.script| <= |old(rx.script)|
    ensures var total := old(sink.wire) + old(sink.buffer) + FrameAll(sink.codec, [first] + Arriving(old(rx.script)));
            if ok then sink.wire + sink.buffer + FrameAll(sink.codec, Arriving(rx.script)) == total
            else sink.wire <= total
    ensures OnTrack(sink.codec, l, old(sink.buffer), old(sink.wire), [first] + Arriving(old(rx.script)), all) ==>
              if ok then OnTrack(sink.codec, l', sink.buffer, sink.wire, Arriving(rx.script), all)
              else FailedOnTrack(sink.codec, l', sink.wire, all)
  {
    ghost var total := sink.wire + sink.buffer + FrameAll(sink.codec, [first] + Arriving(rx.script));
    ghost var linked := OnTrack(sink.codec, l, sink.buffer, sink.wire, [first] + Arriving(rx.script), all);
    var next := Some(first);
    ok, l' := true, l;
    while next.Some?
      invariant ok && old(sink.wire) <= sink.wire && |rx.script| <= |old(rx.script)|
      invariant sink.wire + sink.buffer + FrameAll(sink.codec, Pending(next, rx.script)) == total
      invariant linked ==> OnTrack(sink.codec, l', sink.buffer, sink.wire, Pending(next, rx.script), all)
      decreases next.Some?, |rx.script|
    {
      ghost var before := sink.wire + sink.buffer;
      FrameFirst(sink.codec, before, next.value, Arriving(rx.script));
      if linked {
        NextIsWrapped(l'.produced, next.value, Arriving(rx.script));
      }
      ok, l' := FeedLinked(sink, next.value, l');
      if !ok {
        assert before <= total;
        return;
      }
      next := rx.TryRecv();
    }
  }

  function Pending(next: Option<MessageWrapper>, script: seq<Option<MessageWrapper>>): seq<MessageWrapper> {
    if next.Some? then [next.value] + Arriving(script) else Arriving(script)
  }

  lemma NextIsWrapped(done: seq<MessageWrapper>, m: MessageWrapper, rest: seq<MessageWrapper>)
    ensures done + ([m] + rest) == (done + [m]) + rest
    ensures AllWrapped(done + ([m] + rest)) ==> IsWrapped(m)
  {
    assert (done + ([m] + rest))[|done|] == m;
  }
}
