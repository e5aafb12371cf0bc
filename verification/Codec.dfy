/**
 Framing: [2-byte little-endian body length][body].  The protobuf body codec is a parameter; the
 framing is concrete.  `Decode` and `Encode` work in place on a byte buffer.
 */
module Codec {
  import opened Prelude

  const HEADER_SIZE: nat := 2
  const MAX_MESSAGE_BODY_SIZE: nat := 8192 - 2

  datatype CodecError = InvalidLength(size: nat) | BodyError

  /** prost's `encode` and `decode` for one message type. */
  datatype BodyCodec<!M(!new)> = BodyCodec(encode: M -> Bytes, decode: Bytes -> Option<M>)

  /** The hypothesis on the body codec: decoding inverts encoding. */
  ghost predicate RoundTrips<M(!new)>(c: BodyCodec<M>) {
    forall m: M :: c.decode(c.encode(m)) == Some(m)
  }

  // ---------------------------------------------------------------- one frame

  /** What one call of `decode` does: its result and what is left in the buffer. */
  datatype Step<+M> = Step(result: Result<Option<M>, CodecError>, rest: Bytes)

  function BodySize(data: Bytes): nat
    requires |data| >= HEADER_SIZE
  {
    data[0] as nat + 256 * (data[1] as nat)
  }

  function DecodeStep<M(!new)>(c: BodyCodec<M>, data: Bytes): Step<M> {
    if |data| < HEADER_SIZE then Step(Ok(None), data) else
    var size := BodySize(data);
    if size == 0 || size > MAX_MESSAGE_BODY_SIZE then Step(Err(InvalidLength(size)), data)
    else if |data| < HEADER_SIZE + size then Step(Ok(None), data)
    else
      var rest := data[HEADER_SIZE + size..];
      match c.decode(data[HEADER_SIZE..HEADER_SIZE + size])
      case Some(m) => Step(Ok(Some(m)), rest)
      case None => Step(Err(BodyError), rest)
  }

  /** A message as bytes; a body over the limit is dropped. */
  function Frame<M(!new)>(c: BodyCodec<M>, m: M): Bytes {
    var body := c.encode(m);
    if |body| > MAX_MESSAGE_BODY_SIZE then [] else [|body| % 256, |body| / 256] + body
  }

  class BytesMut {
    var data: Bytes

    constructor ()
      ensures data == []
    {
      data := [];
    }

    method Advance(n: nat)
      requires n <= |data|
      modifies this
      ensures data == old(data)[n..]
    {
      data := data[n..];
    }

    method SplitTo(n: nat) returns (front: Bytes)
      requires n <= |data|
      modifies this
      ensures front == old(data)[..n] && data == old(data)[n..]
    {
      front := data[..n];
      data := data[n..];
    }

    method Put(bytes: Bytes)
      modifies this
      ensures data == old(data) + bytes
    {
      data := data + bytes;
    }
  }

  method Decode<M(!new)>(c: BodyCodec<M>, src: BytesMut) returns (r: Result<Option<M>, CodecError>)
    modifies src
    ensures Step(r, src.data) == DecodeStep(c, old(src.data))
  {
    if |src.data| < HEADER_SIZE {
      return Ok(None);
    }
    var bodySize := src.data[0] as nat + 256 * (src.data[1] as nat);
    if bodySize == 0 || bodySize > MAX_MESSAGE_BODY_SIZE {
      return Err(InvalidLength(bodySize));
    }
    var frameSize := HEADER_SIZE + bodySize;
    if |src.data| < frameSize {
      return Ok(None);
    }
    src.Advance(HEADER_SIZE);
    var body := src.SplitTo(bodySize);
    assert body == old(src.data)[HEADER_SIZE..frameSize];
    assert src.data == old(src.data)[frameSize..];
    match c.decode(body) {
      case Some(m) => r := Ok(Some(m));
      case None => r := Err(BodyError);
    }
  }

  method Encode<M(!new)>(c: BodyCodec<M>, m: M, dst: BytesMut)
    modifies dst
    ensures dst.data == old(dst.data) + Frame(c, m)
  {
    var body := c.encode(m);
    if |body| > MAX_MESSAGE_BODY_SIZE {
      return;
    }
    dst.Put([|body| % 256, |body| / 256]);
    dst.Put(body);
  }

  /**
   A header is judged before any of the body has arrived, and by its length alone: a length of 0 or
   over 8190 is refused, leaving the buffer as it was, and no other length is.
   */
  lemma HeaderRefusedIff<M(!new)>(c: BodyCodec<M>, data: Bytes)
    requires |data| >= 2
    ensures var n, step := data[0] as nat + 256 * (data[1] as nat), DecodeStep(c, data);
            && (step == Step(Err(InvalidLength(n)), data) <==> n == 0 || n > 8190)
            && (step.result.Err? && step.result.error.InvalidLength? <==> n == 0 || n > 8190)
  {
  }

  /** Otherwise it waits exactly until the frame is there, and then consumes exactly the frame. */
  lemma FrameConsumedIff<M(!new)>(c: BodyCodec<M>, data: Bytes)
    ensures var step := DecodeStep(c, data);
            && (|data| < 2 ==> step == Step(Ok(None), data))
            && (|data| >= 2 ==>
                  var n := data[0] as nat + 256 * (data[1] as nat);
                  && (1 <= n <= 8190 && |data| < n + 2 ==> step == Step(Ok(None), data))
                  && (1 <= n <= 8190 && |data| >= n + 2 ==>
                        && step.rest == data[n + 2..]
                        && step.result == match c.decode(data[2..n + 2]) {
                                            case Some(m) => Ok(Some(m))
                                            case None => Err(BodyError)
                                          }))
  {
  }

  // ---------------------------------------------------------------- a whole stream

  /** What a reader has produced so far; after an error nothing more is read. */
  datatype Drained<+M> = Drained(messages: seq<M>, error: Option<CodecError>, rest: Bytes)

  /** Call `decode` until it asks for more bytes or fails. */
  function Drain<M(!new)>(c: BodyCodec<M>, data: Bytes): Drained<M>
    decreases |data|
  {
    var step := DecodeStep(c, data);
    match step.result
    case Ok(None) => Drained([], None, step.rest)
    case Err(e) => Drained([], Some(e), step.rest)
    case Ok(Some(m)) =>
      var tail := Drain(c, step.rest);
      Drained([m] + tail.messages, tail.error, tail.rest)
  }

  /** A chunk arrives: it is appended to the unread bytes and the buffer is drained again. */
  function Feed<M(!new)>(c: BodyCodec<M>, d: Drained<M>, chunk: Bytes): Drained<M> {
    if d.error.Some? then d else
    var more := Drain(c, d.rest + chunk);
    Drained(d.messages + more.messages, more.error, more.rest)
  }

  function FeedAll<M(!new)>(c: BodyCodec<M>, chunks: seq<Bytes>): Drained<M> {
    if chunks == [] then Drained([], None, []) else Feed(c, FeedAll(c, Front(chunks)), Last(chunks))
  }

  function Join(chunks: seq<Bytes>): Bytes {
    if chunks == [] then [] else Join(Front(chunks)) + Last(chunks)
  }

  lemma {:induction false} DecodeStepExtends<M(!new)>(c: BodyCodec<M>, data: Bytes, more: Bytes)
    ensures var step := DecodeStep(c, data);
            step.result != Ok(None) ==>
              DecodeStep(c, data + more) == Step(step.result, step.rest + more)
    ensures DecodeStep(c, data).result == Ok(None) ==> DecodeStep(c, data).rest == data
  {
    if |data| >= HEADER_SIZE {
      var end := HEADER_SIZE + BodySize(data);
      assert BodySize(data + more) == BodySize(data);
      if end <= |data| {
        assert (data + more)[HEADER_SIZE..end] == data[HEADER_SIZE..end];
        assert (data + more)[end..] == data[end..] + more;
      }
    }
  }

  /** Draining in two goes is draining at once. */
  lemma {:induction false} DrainExtends<M(!new)>(c: BodyCodec<M>, data: Bytes, more: Bytes)
    ensures var d := Drain(c, data); var whole := Drain(c, data + more);
            if d.error.Some?
            then whole.messages == d.messages && whole.error == d.error
            else whole == Feed(c, d, more)
    decreases |data|
  {
    DecodeStepExtends(c, data, more);
    var step := DecodeStep(c, data);
    match step.result
    case Ok(None) =>
      var whole := Drain(c, data + more);
      assert [] + whole.messages == whole.messages;
    case Err(e) =>
    case Ok(Some(m)) =>
      DrainExtends(c, step.rest, more);
      if Drain(c, step.rest).error.None? {
        FeedAfterFirst(c, m, Drain(c, step.rest), more);
      }
  }

  lemma FeedAfterFirst<M(!new)>(c: BodyCodec<M>, m: M, tail: Drained<M>, more: Bytes)
    requires tail.error.None?
    ensures var d := Feed(c, tail, more);
            Feed(c, Drained([m] + tail.messages, None, tail.rest), more) == Drained([m] + d.messages, d.error, d.rest)
  {
    var extra := Drain(c, tail.rest + more);
    assert [m] + (tail.messages + extra.messages) == ([m] + tail.messages) + extra.messages;
  }

  /**
   Chunking independence: however a stream is split, the reader yields the messages of the whole
   stream and its first error; with no error it is left with the same unread bytes.
   */
  lemma {:induction false} ChunkingIndependent<M(!new)>(c: BodyCodec<M>, chunks: seq<Bytes>)
    ensures var d := FeedAll(c, chunks); var whole := Drain(c, Join(chunks));
            d.messages == whole.messages && d.error == whole.error &&
            (whole.error.None? ==> d.rest == whole.rest)
  {
    if chunks == [] {
    } else {
      ChunkingIndependent(c, Front(chunks));
      DrainExtends(c, Join(Front(chunks)), Last(chunks));
    }
  }

  /** A reader that has met no error never holds as much as the buffer's 8192 bytes. */
  lemma {:induction false} UnreadIsShort<M(!new)>(c: BodyCodec<M>, data: Bytes)
    ensures Drain(c, data).error.None? ==> |Drain(c, data).rest| < 8192
    decreases |data|
  {
    var step := DecodeStep(c, data);
    if step.result.Ok? && step.result.value.Some? {
      UnreadIsShort(c, step.rest);
    } else {
      FrameConsumedIff(c, data);
    }
  }

  // ---------------------------------------------------------------- round trip

  function FrameAll<M(!new)>(c: BodyCodec<M>, ms: seq<M>): Bytes {
    if ms == [] then [] else Frame(c, ms[0]) + FrameAll(c, ms[1..])
  }

  /** What is written for a message: nothing if its body is over 8190 bytes, else its length and its body. */
  lemma FrameIs<M(!new)>(c: BodyCodec<M>, m: M)
    ensures var body := c.encode(m);
            if |body| > 8190 then Frame(c, m) == []
            else |Frame(c, m)| == |body| + 2 && Frame(c, m)[2..] == body
                 && Frame(c, m)[0] as nat + 256 * (Frame(c, m)[1] as nat) == |body|
  {
  }

  /** The messages that are not dropped for their size. */
  function Kept<M(!new)>(c: BodyCodec<M>, ms: seq<M>): seq<M> {
    if ms == [] then []
    else if |c.encode(ms[0])| > MAX_MESSAGE_BODY_SIZE then Kept(c, ms[1..])
    else [ms[0]] + Kept(c, ms[1..])
  }

  ghost predicate NonEmptyBodies<M(!new)>(c: BodyCodec<M>, ms: seq<M>) {
    forall i | 0 <= i < |ms| :: c.encode(ms[i]) != []
  }

  lemma FrameDecodes<M(!new)>(c: BodyCodec<M>, m: M, more: Bytes)
    requires RoundTrips(c)
    requires |c.encode(m)| <= MAX_MESSAGE_BODY_SIZE
    ensures DecodeStep(c, Frame(c, m) + more) ==
            if c.encode(m) == [] then Step(Err(InvalidLength(0)), Frame(c, m) + more) else Step(Ok(Some(m)), more)
  {
    var body := c.encode(m);
    var data := Frame(c, m) + more;
    assert BodySize(data) == |body|;
    if body != [] {
      assert data[HEADER_SIZE..HEADER_SIZE + |body|] == body;
      assert data[HEADER_SIZE + |body|..] == more;
    }
  }

  /**
   Sequence round trip: decoding the concatenated encodings of any messages gives back exactly those
   within the size limit with nothing left over -- if and only if no body is empty.
   */
  lemma {:induction false} SequenceRoundTripIff<M(!new)>(c: BodyCodec<M>, ms: seq<M>)
    requires RoundTrips(c)
    ensures Drain(c, FrameAll(c, ms)) == Drained(Kept(c, ms), None, []) <==> NonEmptyBodies(c, ms)
    ensures !NonEmptyBodies(c, ms) ==> Drain(c, FrameAll(c, ms)).error == Some(InvalidLength(0))
  {
    if ms == [] {
    } else {
      var m, tail := ms[0], ms[1..];
      SequenceRoundTripIff(c, tail);
      assert NonEmptyBodies(c, ms) <==> c.encode(m) != [] && NonEmptyBodies(c, tail) by {
        assert forall i | 0 <= i < |tail| :: ms[i + 1] == tail[i];
        assert forall i | 1 <= i < |ms| :: ms[i] == tail[i - 1];
      }
      if |c.encode(m)| <= MAX_MESSAGE_BODY_SIZE {
        FrameDecodes(c, m, FrameAll(c, tail));
        assert Frame(c, m) + FrameAll(c, tail) == FrameAll(c, ms);
      } else {
        assert Frame(c, m) + FrameAll(c, tail) == FrameAll(c, tail);
      }
    }
  }

  lemma {:induction false} FrameAllAppend<M(!new)>(c: BodyCodec<M>, a: seq<M>, b: seq<M>)
    ensures FrameAll(c, a + b) == FrameAll(c, a) + FrameAll(c, b)
    ensures Kept(c, a + b) == Kept(c, a) + Kept(c, b)
  {
    if a == [] {
      assert a + b == b;
    } else {
      assert (a + b)[0] == a[0] && (a + b)[1..] == a[1..] + b;
      FrameAllAppend(c, a[1..], b);
    }
  }

  /**
   Any prefix of the encodings decodes without error to a prefix of the messages, and no message
   whose frame has arrived in full is missing.
   */
  lemma PrefixDecodesToPrefix<M(!new)>(c: BodyCodec<M>, wire: Bytes, ms: seq<M>)
    requires RoundTrips(c) && NonEmptyBodies(c, ms)
    requires wire <= FrameAll(c, ms)
    ensures var d := Drain(c, wire);
            d.error.None? && d.messages <= Kept(c, ms) &&
            (forall k | 0 <= k <= |ms| && |FrameAll(c, ms[..k])| <= |wire| :: Kept(c, ms[..k]) <= d.messages)
  {
    SequenceRoundTripIff(c, ms);
    var whole := FrameAll(c, ms);
    var more := whole[|wire|..];
    assert wire + more == whole;
    DrainExtends(c, wire, more);
    forall k | 0 <= k <= |ms| && |FrameAll(c, ms[..k])| <= |wire|
      ensures Kept(c, ms[..k]) <= Drain(c, wire).messages
    {
      var head := ms[..k];
      assert head + ms[k..] == ms;
      FrameAllAppend(c, head, ms[k..]);
      var bytes := FrameAll(c, head);
      assert bytes == whole[..|bytes|] == wire[..|bytes|];
      assert NonEmptyBodies(c, head);
      SequenceRoundTripIff(c, head);
      assert bytes + wire[|bytes|..] == wire;
      DrainExtends(c, bytes, wire[|bytes|..]);
    }
  }
}
