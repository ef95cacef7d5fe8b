/**
 The length-prefixed frame format of the transport: a four byte big-endian
 length followed by that many payload bytes, and the meaning of "the next frame
 of a byte stream".

 Everything that reads frames (the incremental decoder, the two blocking
 readers) is specified by `NextFrame`; everything that writes them by
 `EncodeFrame`.
 */
module Framing {

  type Byte = b: int | 0 <= b < 256
  type Bytes = seq<Byte>

  const HEADER_SIZE: nat := 4
  const WORD: nat := 0x1_0000_0000

  /** The four bytes that `writeBigEndian32` stores: shifts and masks as division and remainder. */
  function BigEndian32(value: nat): (b: Bytes)
    ensures |b| == HEADER_SIZE
  {
    [value / 0x100_0000 % 256, value / 0x1_0000 % 256, value / 0x100 % 256, value % 256]
  }

  function ReadBigEndian32(data: Bytes): (value: nat)
    requires |data| >= HEADER_SIZE
    ensures value < WORD
  {
    var b0: int, b1: int, b2: int, b3: int := data[0], data[1], data[2], data[3];
    b0 * 0x100_0000 + b1 * 0x1_0000 + b2 * 0x100 + b3
  }

  /** `static_cast<std::uint32_t>(payload.size())` truncates: the header is the size modulo 2^32. */
  function EncodeFrame(payload: Bytes): (frame: Bytes)
    ensures |frame| == HEADER_SIZE + |payload|
    ensures frame[HEADER_SIZE..] == payload
  {
    BigEndian32(|payload| % WORD) + payload
  }

  datatype Decoded =
    | NeedMoreData
    | TooLarge
    | Ready(payload: Bytes, rest: Bytes)

  /** What a stream that starts with `buffer` says about its first frame. */
  function NextFrame(buffer: Bytes, maxFrameSize: nat): (d: Decoded)
    ensures d.Ready? ==> |d.rest| < |buffer|
  {
    if |buffer| < HEADER_SIZE then NeedMoreData
    else
      var size := ReadBigEndian32(buffer);
      if size > maxFrameSize then TooLarge
      else if |buffer| < HEADER_SIZE + size then NeedMoreData
      else Ready(buffer[HEADER_SIZE..HEADER_SIZE + size], buffer[HEADER_SIZE + size..])
  }

  /** The payloads for which a frame says what was sent: short enough for the reader and for the header. */
  predicate Fits(payload: Bytes, maxFrameSize: nat) {
    |payload| <= maxFrameSize && |payload| < WORD
  }

  predicate AllFit(payloads: seq<Bytes>, maxFrameSize: nat) {
    forall p | p in payloads :: Fits(p, maxFrameSize)
  }

  /** The byte stream that carries a list of payloads. */
  function Wire(payloads: seq<Bytes>): (w: Bytes) {
    if payloads == [] then [] else EncodeFrame(payloads[0]) + Wire(payloads[1..])
  }

  /** Calling `nextFrame` until it stops being Ready: the payloads that come out. */
  function Frames(buffer: Bytes, maxFrameSize: nat): (ps: seq<Bytes>)
    decreases |buffer|
  {
    var d := NextFrame(buffer, maxFrameSize);
    if d.Ready? then [d.payload] + Frames(d.rest, maxFrameSize) else []
  }

  /** And the bytes that stay in the buffer. */
  function Leftover(buffer: Bytes, maxFrameSize: nat): (left: Bytes)
    decreases |buffer|
  {
    var d := NextFrame(buffer, maxFrameSize);
    if d.Ready? then Leftover(d.rest, maxFrameSize) else buffer
  }

  // ----- the header

  lemma HeaderRoundTrip(value: nat)
    requires value < WORD
    ensures ReadBigEndian32(BigEndian32(value)) == value
  {
    var q3 := value / 0x100;
    var q2 := q3 / 0x100;
    var q1 := q2 / 0x100;
    assert value / 0x1_0000 == q2;
    assert value / 0x100_0000 == q1;
    assert value == q3 * 0x100 + value % 0x100;
    assert q3 == q2 * 0x100 + q3 % 0x100;
    assert q2 == q1 * 0x100 + q2 % 0x100;
    assert q1 < 0x100;
  }

  lemma HeaderInverse(data: Bytes)
    requires |data| == HEADER_SIZE
    ensures BigEndian32(ReadBigEndian32(data)) == data
  {
    var b0: int, b1: int, b2: int, b3: int := data[0], data[1], data[2], data[3];
    var v := ReadBigEndian32(data);
    DigitOf(v, b0 * 0x1_0000 + b1 * 0x100 + b2, b3);
    DigitOf(b0 * 0x1_0000 + b1 * 0x100 + b2, b0 * 0x100 + b1, b2);
    DigitOf(b0 * 0x100 + b1, b0, b1);
    assert v / 0x1_0000 == b0 * 0x100 + b1;
    assert v / 0x100_0000 == b0;
    assert BigEndian32(v) == [b0, b1, b2, b3];
  }

  lemma DigitOf(value: nat, high: nat, low: nat)
    requires value == high * 0x100 + low && low < 0x100
    ensures value / 0x100 == high && value % 0x100 == low
  {
  }

  // ----- one frame

  /**
   A frame, whatever follows it, is read back as its payload exactly when the
   payload is within the reader's limit and below 2^32 bytes.
   */
  lemma FrameRoundTrip(payload: Bytes, tail: Bytes, maxFrameSize: nat)
    ensures Fits(payload, maxFrameSize)
       <==> NextFrame(EncodeFrame(payload) + tail, maxFrameSize) == Ready(payload, tail)
  {
    var stream := EncodeFrame(payload) + tail;
    HeaderRoundTrip(|payload| % WORD);
    assert stream[..HEADER_SIZE] == BigEndian32(|payload| % WORD);
    assert ReadBigEndian32(stream) == ReadBigEndian32(stream[..HEADER_SIZE]);
    if Fits(payload, maxFrameSize) {
      assert stream[HEADER_SIZE..HEADER_SIZE + |payload|] == payload;
      assert stream[HEADER_SIZE + |payload|..] == tail;
    }
  }

  /** The header depends on the first four bytes only. */
  lemma SameHeader(a: Bytes, b: Bytes)
    requires |a| >= HEADER_SIZE && |b| >= HEADER_SIZE
    requires a[0] == b[0] && a[1] == b[1] && a[2] == b[2] && a[3] == b[3]
    ensures ReadBigEndian32(a) == ReadBigEndian32(b)
  {
  }

  /** A frame announces the size of its payload. */
  lemma EncodedHeader(payload: Bytes)
    requires |payload| < WORD
    ensures ReadBigEndian32(EncodeFrame(payload)) == |payload|
  {
    HeaderRoundTrip(|payload|);
    SameHeader(EncodeFrame(payload), BigEndian32(|payload|));
  }

  lemma HeaderOfStream(buffer: Bytes)
    requires |buffer| >= HEADER_SIZE
    ensures BigEndian32(ReadBigEndian32(buffer)) == buffer[..HEADER_SIZE]
  {
    HeaderInverse(buffer[..HEADER_SIZE]);
    SameHeader(buffer, buffer[..HEADER_SIZE]);
  }

  lemma EncodedAs(payload: Bytes, header: Bytes)
    requires |payload| < WORD && header == BigEndian32(|payload|)
    ensures EncodeFrame(payload) == header + payload
  {
    assert |payload| % WORD == |payload|;
  }

  lemma CutInThree(buffer: Bytes, size: nat)
    requires HEADER_SIZE + size <= |buffer|
    ensures buffer == buffer[..HEADER_SIZE] + buffer[HEADER_SIZE..HEADER_SIZE + size] + buffer[HEADER_SIZE + size..]
  {
  }

  /** Conversely, what is read as one frame is exactly the encoding of the payload that is returned. */
  lemma ReadyIsEncoding(buffer: Bytes, maxFrameSize: nat)
    requires NextFrame(buffer, maxFrameSize).Ready?
    ensures var d := NextFrame(buffer, maxFrameSize);
            Fits(d.payload, maxFrameSize) && buffer == EncodeFrame(d.payload) + d.rest
  {
    var d := NextFrame(buffer, maxFrameSize);
    HeaderOfStream(buffer);
    EncodedAs(d.payload, buffer[..HEADER_SIZE]);
    CutInThree(buffer, |d.payload|);
  }

  /** More bytes never change a verdict that has been reached. */
  lemma VerdictIsStable(buffer: Bytes, more: Bytes, maxFrameSize: nat)
    ensures match NextFrame(buffer, maxFrameSize)
            case Ready(p, rest) => NextFrame(buffer + more, maxFrameSize) == Ready(p, rest + more)
            case TooLarge => NextFrame(buffer + more, maxFrameSize) == TooLarge
            case NeedMoreData => |buffer| < HEADER_SIZE + maxFrameSize
  {
    if |buffer| >= HEADER_SIZE {
      var size := ReadBigEndian32(buffer);
      assert ReadBigEndian32(buffer + more) == size;
      if size <= maxFrameSize && |buffer| >= HEADER_SIZE + size {
        assert (buffer + more)[HEADER_SIZE..HEADER_SIZE + size] == buffer[HEADER_SIZE..HEADER_SIZE + size];
        assert (buffer + more)[HEADER_SIZE + size..] == buffer[HEADER_SIZE + size..] + more;
      }
    }
  }

  /** A torn frame (a strict prefix of an encoding) is never mistaken for a frame. */
  lemma TornFrameIsIncomplete(payload: Bytes, sent: nat, maxFrameSize: nat)
    requires Fits(payload, maxFrameSize) && sent < |EncodeFrame(payload)|
    ensures NextFrame(EncodeFrame(payload)[..sent], maxFrameSize) == NeedMoreData
  {
    var frame := EncodeFrame(payload);
    VerdictIsStable(frame[..sent], frame[sent..], maxFrameSize);
    assert frame[..sent] + frame[sent..] == frame == frame + [];
    FrameRoundTrip(payload, [], maxFrameSize);
  }

  // ----- streams of frames

  lemma Assoc(a: Bytes, b: Bytes, c: Bytes)
    ensures (a + b) + c == a + (b + c)
  {
  }

  lemma HeadTail(s: seq<Bytes>, t: seq<Bytes>)
    requires s != []
    ensures [s[0]] + (s[1..] + t) == s + t
  {
  }

  lemma WireHead(payloads: seq<Bytes>, tail: Bytes)
    requires payloads != []
    ensures Wire(payloads) + tail == EncodeFrame(payloads[0]) + (Wire(payloads[1..]) + tail)
  {
    Assoc(EncodeFrame(payloads[0]), Wire(payloads[1..]), tail);
  }

  /** A stream that starts with whole frames gives their payloads first, then those of the rest. */
  lemma {:induction false} FramesOfWire(payloads: seq<Bytes>, tail: Bytes, maxFrameSize: nat)
    requires AllFit(payloads, maxFrameSize)
    ensures Frames(Wire(payloads) + tail, maxFrameSize) == payloads + Frames(tail, maxFrameSize)
    ensures Leftover(Wire(payloads) + tail, maxFrameSize) == Leftover(tail, maxFrameSize)
  {
    if payloads == [] {
      assert Wire(payloads) + tail == tail;
    } else {
      var p, rest := payloads[0], payloads[1..];
      WireHead(payloads, tail);
      FrameRoundTrip(p, Wire(rest) + tail, maxFrameSize);
      FramesOfWire(rest, tail, maxFrameSize);
      HeadTail(payloads, Frames(tail, maxFrameSize));
    }
  }

  /** The stream of `payloads` and nothing else reads back as `payloads` and nothing else. */
  lemma FramesOfWholeWire(payloads: seq<Bytes>, maxFrameSize: nat)
    requires AllFit(payloads, maxFrameSize)
    ensures Frames(Wire(payloads), maxFrameSize) == payloads
    ensures Leftover(Wire(payloads), maxFrameSize) == []
  {
    FramesOfWire(payloads, [], maxFrameSize);
    assert Wire(payloads) + [] == Wire(payloads);
  }

  /** On every byte stream, what is consumed is exactly the encodings of what comes out. */
  lemma {:induction false} FramesAreEncodings(buffer: Bytes, maxFrameSize: nat)
    ensures AllFit(Frames(buffer, maxFrameSize), maxFrameSize)
    ensures buffer == Wire(Frames(buffer, maxFrameSize)) + Leftover(buffer, maxFrameSize)
    ensures !NextFrame(Leftover(buffer, maxFrameSize), maxFrameSize).Ready?
    decreases |buffer|
  {
    var d := NextFrame(buffer, maxFrameSize);
    if d.Ready? {
      ReadyIsEncoding(buffer, maxFrameSize);
      FramesAreEncodings(d.rest, maxFrameSize);
      WireHead(Frames(buffer, maxFrameSize), Leftover(buffer, maxFrameSize));
    }
  }

  lemma {:induction false} WireAppend(payloads: seq<Bytes>, payload: Bytes)
    ensures Wire(payloads + [payload]) == Wire(payloads) + EncodeFrame(payload)
  {
    if payloads == [] {
      assert payloads + [payload] == [payload];
      assert Wire([payload][1..]) == [];
    } else {
      WireAppend(payloads[1..], payload);
      assert (payloads + [payload])[1..] == payloads[1..] + [payload];
    }
  }

  /** The stream determines the payloads: the framing is uniquely decodable. */
  lemma WireIsInjective(ps: seq<Bytes>, qs: seq<Bytes>, maxFrameSize: nat)
    requires AllFit(ps, maxFrameSize) && AllFit(qs, maxFrameSize)
    requires Wire(ps) == Wire(qs)
    ensures ps == qs
  {
    calc {
      ps;
      { FramesOfWholeWire(ps, maxFrameSize); }
      Frames(Wire(ps), maxFrameSize);
      { FramesOfWholeWire(qs, maxFrameSize); }
      qs;
    }
  }

  /** Above the header's range the round trip fails: a 2^32 byte payload is announced as empty. */
  lemma HeaderTruncationLosesPayload(payload: Bytes, maxFrameSize: nat)
    requires |payload| == WORD
    ensures NextFrame(EncodeFrame(payload), maxFrameSize) == Ready([], payload)
  {
    HeaderRoundTrip(0);
    var frame := EncodeFrame(payload);
    assert frame[..HEADER_SIZE] == BigEndian32(0);
    assert ReadBigEndian32(frame) == ReadBigEndian32(frame[..HEADER_SIZE]) == 0;
  }
}
