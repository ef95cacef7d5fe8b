/**
 The incremental decoder and the encoder, in the form the transport library has
 them: an object that owns a growing buffer, and routines that fill byte arrays.

 The run theorems are about every sequence of `append` and `nextFrame` calls.
 */
module FrameDecoding {
  import opened Framing

  datatype FrameStatus = StatusReady | StatusNeedMoreData | StatusTooLarge

  function StatusOf(d: Decoded): FrameStatus {
    match d
    case Ready(_, _) => StatusReady
    case NeedMoreData => StatusNeedMoreData
    case TooLarge => StatusTooLarge
  }

  method WriteBigEndian32(value: nat, out: array<Byte>)
    requires value < WORD && out.Length >= HEADER_SIZE
    modifies out
    ensures out[..HEADER_SIZE] == BigEndian32(value)
    ensures ReadBigEndian32(out[..HEADER_SIZE]) == value
    ensures out[HEADER_SIZE..] == old(out[HEADER_SIZE..])
  {
    out[0] := value / 0x100_0000 % 256;
    out[1] := value / 0x1_0000 % 256;
    out[2] := value / 0x100 % 256;
    out[3] := value % 256;
    assert out[..HEADER_SIZE] == BigEndian32(value);
    HeaderRoundTrip(value);
  }

  method EncodeFrameArray(payload: Bytes) returns (frame: array<Byte>)
    ensures fresh(frame) && frame[..] == EncodeFrame(payload)
  {
    frame := new Byte[HEADER_SIZE + |payload|](_ => 0);
    WriteBigEndian32(|payload| % WORD, frame);
    var i := 0;
    while i < |payload|
      invariant 0 <= i <= |payload|
      invariant frame[..HEADER_SIZE] == BigEndian32(|payload| % WORD)
      invariant frame[HEADER_SIZE..HEADER_SIZE + i] == payload[..i]
    {
      frame[HEADER_SIZE + i] := payload[i];
      i := i + 1;
      assert frame[HEADER_SIZE..HEADER_SIZE + i] == payload[..i];
    }
    assert frame[..] == frame[..HEADER_SIZE] + frame[HEADER_SIZE..HEADER_SIZE + i];
  }

  class FrameDecoder {
    const maxFrameSize: nat
    var buffer: Bytes

    constructor (maxFrameSize: nat)
      ensures this.maxFrameSize == maxFrameSize && buffer == []
    {
      this.maxFrameSize := maxFrameSize;
      buffer := [];
    }

    method Append(data: Bytes)
      modifies this
      ensures buffer == old(buffer) + data
    {
      if |data| == 0 {
        assert buffer == buffer + data;
        return;
      }
      buffer := buffer + data;
    }

    method NextFrame() returns (status: FrameStatus, payload: Bytes)
      modifies this
      ensures status == StatusOf(Framing.NextFrame(old(buffer), maxFrameSize))
      ensures status.StatusReady? ==> Framing.NextFrame(old(buffer), maxFrameSize) == Ready(payload, buffer)
      ensures !status.StatusReady? ==> payload == [] && buffer == old(buffer)
    {
      payload := [];
      if |buffer| < HEADER_SIZE {
        return StatusNeedMoreData, payload;
      }
      var payloadSize := ReadBigEndian32(buffer);
      if payloadSize > maxFrameSize {
        return StatusTooLarge, payload;
      }
      var totalSize := HEADER_SIZE + payloadSize;
      if |buffer| < totalSize {
        return StatusNeedMoreData, payload;
      }
      payload := buffer[HEADER_SIZE..totalSize];
      buffer := buffer[totalSize..];
      return StatusReady, payload;
    }

    method BufferedBytes() returns (n: nat)
      ensures n == |buffer|
    {
      n := |buffer|;
    }

    method Clear()
      modifies this
      ensures buffer == []
    {
      buffer := [];
    }
  }

  // ----- every sequence of append and nextFrame calls

  datatype Call = Append(data: Bytes) | Next

  /** A decoder together with what came out. */
  datatype Trace = Trace(buffer: Bytes, ready: seq<Bytes>, last: Decoded)

  function Start(): Trace { Trace([], [], NeedMoreData) }

  function Apply(t: Trace, call: Call, maxFrameSize: nat): Trace {
    match call
    case Append(data) => t.(buffer := t.buffer + data)
    case Next =>
      var d := NextFrame(t.buffer, maxFrameSize);
      match d
      case Ready(p, rest) => t.(buffer := rest, ready := t.ready + [p], last := d)
      case _ => t.(last := d)
  }

  /** The decoder after `calls`, from `t`. */
  function Run(t: Trace, calls: seq<Call>, maxFrameSize: nat): Trace {
    if calls == [] then t
    else Apply(Run(t, calls[..|calls| - 1], maxFrameSize), calls[|calls| - 1], maxFrameSize)
  }

  /** The bytes handed to a call. */
  function Handed(call: Call): Bytes {
    match call
    case Append(data) => data
    case Next => []
  }

  /** The bytes appended, in order. */
  function Fed(calls: seq<Call>): Bytes {
    if calls == [] then [] else Fed(calls[..|calls| - 1]) + Handed(calls[|calls| - 1])
  }

  /**
   Nothing is lost, invented or reordered, on every byte stream and every call
   sequence: the frames handed out, re-encoded, followed by the buffer, are the
   bytes appended.
   */
  lemma {:induction false} BytesAreConserved(calls: seq<Call>, maxFrameSize: nat)
    ensures var t := Run(Start(), calls, maxFrameSize);
            Fed(calls) == Wire(t.ready) + t.buffer && AllFit(t.ready, maxFrameSize)
  {
    if calls != [] {
      BytesAreConserved(calls[..|calls| - 1], maxFrameSize);
      CallConserves(Run(Start(), calls[..|calls| - 1], maxFrameSize), calls[|calls| - 1], maxFrameSize);
    }
  }

  lemma CallConserves(t: Trace, call: Call, maxFrameSize: nat)
    requires AllFit(t.ready, maxFrameSize)
    ensures var u := Apply(t, call, maxFrameSize);
            Wire(t.ready) + t.buffer + Handed(call) == Wire(u.ready) + u.buffer && AllFit(u.ready, maxFrameSize)
  {
    match call
    case Append(data) => Assoc(Wire(t.ready), t.buffer, data);
    case Next =>
      match NextFrame(t.buffer, maxFrameSize)
      case Ready(p, rest) =>
        ReadyIsEncoding(t.buffer, maxFrameSize);
        WireAppend(t.ready, p);
        Assoc(Wire(t.ready), EncodeFrame(p), rest);
      case _ =>
  }

  /**
   Confluence: when the calls were made does not matter. What has come out,
   followed by what draining the buffer would give, is what draining all the
   bytes at once gives, with the same bytes left over.
   */
  lemma CallOrderDoesNotMatter(calls: seq<Call>, maxFrameSize: nat)
    ensures var t := Run(Start(), calls, maxFrameSize);
            && Frames(Fed(calls), maxFrameSize) == t.ready + Frames(t.buffer, maxFrameSize)
            && Leftover(Fed(calls), maxFrameSize) == Leftover(t.buffer, maxFrameSize)
  {
    var t := Run(Start(), calls, maxFrameSize);
    BytesAreConserved(calls, maxFrameSize);
    FramesOfWire(t.ready, t.buffer, maxFrameSize);
  }

  /**
   Chunking does not matter: while the bytes appended so far are a prefix of the
   stream for `payloads`, what is Ready is a prefix of `payloads`, TooLarge is
   never reported, and once the whole stream is in, draining gives the missing
   payloads and empties the buffer.
   */
  lemma ChunkingDoesNotMatter(payloads: seq<Bytes>, calls: seq<Call>, future: Bytes, maxFrameSize: nat)
    requires AllFit(payloads, maxFrameSize)
    requires Fed(calls) + future == Wire(payloads)
    ensures var t := Run(Start(), calls, maxFrameSize);
            && t.ready <= payloads
            && NextFrame(t.buffer, maxFrameSize) != TooLarge
            && (future == [] ==>
                  Frames(t.buffer, maxFrameSize) == payloads[|t.ready|..] && Leftover(t.buffer, maxFrameSize) == [])
  {
    var t := Run(Start(), calls, maxFrameSize);
    BytesAreConserved(calls, maxFrameSize);
    var remaining := t.buffer + future;
    assert Wire(payloads) == Wire(t.ready) + remaining;
    FramesOfWholeWire(payloads, maxFrameSize);
    FramesOfWire(t.ready, remaining, maxFrameSize);
    var later := Frames(remaining, maxFrameSize);
    assert payloads == t.ready + later;
    assert later == payloads[|t.ready|..];
    VerdictIsStable(t.buffer, future, maxFrameSize);
    if future == [] {
      assert remaining == t.buffer;
    }
  }

  /** While the next frame is oversized no later call takes it out, and every `nextFrame` reports it again. */
  lemma {:induction false} OversizeIsAbsorbing(t: Trace, calls: seq<Call>, maxFrameSize: nat)
    requires NextFrame(t.buffer, maxFrameSize) == TooLarge
    ensures var u := Run(t, calls, maxFrameSize);
            && u.ready == t.ready
            && t.buffer <= u.buffer
            && NextFrame(u.buffer, maxFrameSize) == TooLarge
            && (Next in calls ==> u.last == TooLarge)
  {
    if calls != [] {
      var before := Run(t, calls[..|calls| - 1], maxFrameSize);
      OversizeIsAbsorbing(t, calls[..|calls| - 1], maxFrameSize);
      match calls[|calls| - 1]
      case Append(data) => VerdictIsStable(before.buffer, data, maxFrameSize);
      case Next =>
    }
  }

  /**
   A reader that asks until it is told NeedMoreData never holds a full maximal
   frame; and the only other way to stop is TooLarge.
   */
  lemma BufferingIsBounded(buffer: Bytes, maxFrameSize: nat)
    ensures var left := Leftover(buffer, maxFrameSize);
            NextFrame(left, maxFrameSize) == TooLarge || |left| < HEADER_SIZE + maxFrameSize
  {
    FramesAreEncodings(buffer, maxFrameSize);
    VerdictIsStable(Leftover(buffer, maxFrameSize), [], maxFrameSize);
  }
}
