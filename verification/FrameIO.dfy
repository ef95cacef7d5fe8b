/**
 Blocking frame I/O over a stream socket, in both versions the repository has:
 over the socket interface (a size_t result, zero for "closed or failed") and
 over native handles (a signed result, negative for "failed").

 A socket is a byte stream plus an arbitrary chunk schedule: how much one call
 moves, and whether it fails, is not determined.
 */
module FrameIO {
  import opened Framing
  import opened FrameDecoding

  class Socket {
    /** Bytes the peer sent and this side has not read; the peer has closed after them. */
    var input: Bytes
    /** Bytes handed to the transport. */
    var output: Bytes
    /** False for a handle that has been set to the invalid value. */
    var valid: bool
    /** When set, no receive call fails; sends may still fail. */
    const reliable: bool

    constructor (input: Bytes, reliable: bool)
      ensures this.input == input && output == [] && valid && this.reliable == reliable
    {
      this.input, output, valid, this.reliable := input, [], true, reliable;
    }

    /** `::send`: any non-empty prefix of the data, or a failure. */
    method SendNative(data: Bytes) returns (n: int)
      requires |data| > 0
      modifies this`output
      ensures n <= |data|
      ensures output == old(output) + (if n <= 0 then [] else data[..n])
    {
      n :| -1 <= n <= |data|;
      if n > 0 {
        output := output + data[..n];
      }
    }

    /** `::recv`: some bytes of the input, zero at its end, or a failure, always on the invalid handle. */
    method RecvNative(buffer: array<Byte>, at: nat, maxlen: nat) returns (n: int)
      requires maxlen > 0 && at + maxlen <= buffer.Length
      modifies this`input, buffer
      ensures n <= maxlen && n <= |old(input)|
      ensures n == 0 ==> old(input) == []
      ensures reliable && valid ==> n >= 0
      ensures !valid ==> n < 0
      ensures input == (if n <= 0 then old(input) else old(input)[n..])
      ensures n > 0 ==> buffer[at..at + n] == old(input)[..n]
      ensures buffer[..at] == old(buffer[..at])
      ensures n > 0 ==> buffer[at + n..] == old(buffer[at + n..])
      ensures n <= 0 ==> buffer[..] == old(buffer[..])
    {
      if !valid {
        return -1;
      }
      if !reliable {
        var broken: bool :| true;
        if broken {
          return -1;
        }
      }
      if input == [] {
        return 0;
      }
      n :| 0 < n <= maxlen && n <= |input|;
      forall i | 0 <= i < n {
        buffer[at + i] := input[i];
      }
      assert buffer[at..at + n] == input[..n];
      input := input[n..];
    }

    /** The socket interface: zero for any failure. */
    method Send(data: Bytes) returns (n: nat)
      modifies this`output
      ensures n <= |data|
      ensures output == old(output) + data[..n]
    {
      if !valid || |data| == 0 {
        return 0;
      }
      var sent := SendNative(data);
      n := if sent < 0 then 0 else sent;
    }

    method Receive(buffer: array<Byte>, at: nat, maxlen: nat) returns (n: nat)
      requires at + maxlen <= buffer.Length
      modifies this`input, buffer
      ensures n <= maxlen && n <= |old(input)|
      ensures reliable && valid && n == 0 && maxlen > 0 ==> old(input) == []
      ensures input == old(input)[n..]
      ensures buffer[at..at + n] == old(input)[..n]
      ensures buffer[..at] == old(buffer[..at])
      ensures buffer[at + n..] == old(buffer[at + n..])
    {
      if !valid || maxlen == 0 {
        return 0;
      }
      var received := RecvNative(buffer, at, maxlen);
      n := if received < 0 then 0 else received;
    }
  }

  // ----- sending

  /** What a `sendAll` of `data` may leave on the wire: everything, or on failure a strict prefix. */
  ghost predicate SendOutcome(data: Bytes, emitted: Bytes, ok: bool) {
    if ok then emitted == data else emitted <= data && (emitted == data ==> data == [])
  }

  method SendAll(socket: Socket, data: Bytes) returns (ok: bool)
    modifies socket`output
    ensures old(socket.output) <= socket.output
    ensures SendOutcome(data, socket.output[|old(socket.output)|..], ok)
  {
    var sent := 0;
    while sent < |data|
      invariant 0 <= sent <= |data|
      invariant socket.output == old(socket.output) + data[..sent]
    {
      var chunk := socket.Send(data[sent..]);
      if chunk == 0 {
        return false;
      }
      assert data[..sent] + data[sent..][..chunk] == data[..sent + chunk];
      sent := sent + chunk;
    }
    return true;
  }

  method SendAllNative(socket: Socket, data: Bytes) returns (ok: bool)
    modifies socket`output
    ensures old(socket.output) <= socket.output
    ensures SendOutcome(data, socket.output[|old(socket.output)|..], ok)
    ensures !socket.valid ==> !ok && socket.output == old(socket.output)
  {
    if !socket.valid {
      return false;
    }
    var sent := 0;
    while sent < |data|
      invariant 0 <= sent <= |data|
      invariant socket.output == old(socket.output) + data[..sent]
    {
      var n := socket.SendNative(data[sent..]);
      if n <= 0 {
        return false;
      }
      assert data[..sent] + data[sent..][..n] == data[..sent + n];
      sent := sent + n;
    }
    return true;
  }

  /** What `sendFrame` may do: refuse an oversized payload untouched, or send its frame. */
  ghost predicate SendFrameOutcome(payload: Bytes, maxFrameSize: nat, emitted: Bytes, ok: bool) {
    if |payload| > maxFrameSize then !ok && emitted == []
    else SendOutcome(EncodeFrame(payload), emitted, ok)
  }

  method SendFrame(socket: Socket, payload: Bytes, maxFrameSize: nat) returns (ok: bool)
    modifies socket`output
    ensures old(socket.output) <= socket.output
    ensures SendFrameOutcome(payload, maxFrameSize, socket.output[|old(socket.output)|..], ok)
  {
    if |payload| > maxFrameSize {
      return false;
    }
    var frame := EncodeFrameArray(payload);
    ok := SendAll(socket, frame[..]);
  }

  method SendFrameNative(socket: Socket, payload: Bytes, maxFrameSize: nat) returns (ok: bool)
    modifies socket`output
    ensures old(socket.output) <= socket.output
    ensures SendFrameOutcome(payload, maxFrameSize, socket.output[|old(socket.output)|..], ok)
    ensures !socket.valid ==> !ok && socket.output == old(socket.output)
  {
    if |payload| > maxFrameSize {
      return false;
    }
    var frame := EncodeFrameArray(payload);
    ok := SendAllNative(socket, frame[..]);
  }

  // ----- receiving

  datatype ReceiveStatus = ReceiveOk | ReceiveClosed | ReceiveError | ReceiveTooLarge

  /** The result of one blocking read: the status, the payload if there is one, and the unread stream. */
  datatype Received = Received(status: ReceiveStatus, payload: Bytes, rest: Bytes)

  /**
   What reading one frame from a stream that ends after `stream` comes to, given
   what the reader reports when the stream ends inside a body.
   */
  function ReadFrame(stream: Bytes, maxFrameSize: nat, tornBody: ReceiveStatus): Received {
    match NextFrame(stream, maxFrameSize)
    case Ready(p, rest) => Received(ReceiveOk, p, rest)
    case TooLarge => Received(ReceiveTooLarge, [], stream[HEADER_SIZE..])
    case NeedMoreData =>
      if stream == [] then Received(ReceiveClosed, [], [])
      else if |stream| < HEADER_SIZE then Received(ReceiveError, [], [])
      else Received(tornBody, ZeroPadded(stream[HEADER_SIZE..], ReadBigEndian32(stream)), [])
  }

  /** A payload string resized to the announced size, of which only the front was received. */
  function ZeroPadded(front: Bytes, size: nat): (s: Bytes)
    ensures front <= s && (forall i | |front| <= i < |s| :: s[i] == 0)
    ensures |s| == if |front| < size then size else |front|
  {
    if |front| < size then front + seq(size - |front|, _ => 0) else front
  }

  /** Over the socket interface a body cut short is an error, over native handles it reads as closed. */
  function ReadFramePortable(stream: Bytes, maxFrameSize: nat): Received {
    ReadFrame(stream, maxFrameSize, ReceiveError)
  }

  function ReadFrameNative(stream: Bytes, maxFrameSize: nat): Received {
    ReadFrame(stream, maxFrameSize, ReceiveClosed)
  }

  /** The receive loop: read until the buffer is full or a call returns zero. */
  method Fill(socket: Socket, buffer: array<Byte>) returns (received: nat)
    modifies socket`input, buffer
    ensures received <= buffer.Length && received <= |old(socket.input)|
    ensures buffer[..received] == old(socket.input)[..received]
    ensures buffer[received..] == old(buffer[received..])
    ensures socket.input == old(socket.input)[received..]
    ensures received < buffer.Length && socket.reliable && socket.valid ==> socket.input == []
  {
    received := 0;
    while received < buffer.Length
      invariant received <= buffer.Length && received <= |old(socket.input)|
      invariant buffer[..received] == old(socket.input)[..received]
      invariant buffer[received..] == old(buffer[received..])
      invariant socket.input == old(socket.input)[received..]
    {
      var n := socket.Receive(buffer, received, buffer.Length - received);
      if n == 0 {
        return;
      }
      PrefixGrows(old(socket.input), received, n, buffer[..received], buffer[received..received + n]);
      assert buffer[..received + n] == buffer[..received] + buffer[received..received + n];
      received := received + n;
    }
  }

  /** The same loop over a native handle; `n` is the result that stopped it early. */
  method FillNative(socket: Socket, buffer: array<Byte>) returns (received: nat, n: int)
    modifies socket`input, buffer
    ensures received <= buffer.Length && received <= |old(socket.input)|
    ensures buffer[..received] == old(socket.input)[..received]
    ensures buffer[received..] == old(buffer[received..])
    ensures socket.input == old(socket.input)[received..]
    ensures received < buffer.Length ==>
              n <= 0 && (n == 0 ==> socket.input == []) && (socket.reliable && socket.valid ==> n == 0)
    ensures !socket.valid ==> received == 0 && (buffer.Length > 0 ==> n < 0)
  {
    received, n := 0, 0;
    while received < buffer.Length
      invariant received <= buffer.Length && received <= |old(socket.input)|
      invariant buffer[..received] == old(socket.input)[..received]
      invariant buffer[received..] == old(buffer[received..])
      invariant socket.input == old(socket.input)[received..]
      invariant !socket.valid ==> received == 0
    {
      n := socket.RecvNative(buffer, received, buffer.Length - received);
      if n <= 0 {
        return;
      }
      PrefixGrows(old(socket.input), received, n, buffer[..received], buffer[received..received + n]);
      assert buffer[..received + n] == buffer[..received] + buffer[received..received + n];
      received := received + n;
    }
  }

  method ReceiveFrame(socket: Socket, maxFrameSize: nat) returns (status: ReceiveStatus, payload: Bytes)
    modifies socket`input
    ensures status.ReceiveOk? ==>
              NextFrame(old(socket.input), maxFrameSize) == Ready(payload, socket.input)
    ensures socket.reliable && socket.valid ==>
              var r := ReadFramePortable(old(socket.input), maxFrameSize);
              status == r.status && socket.input == r.rest && payload == r.payload
  {
    payload := [];
    var header := new Byte[HEADER_SIZE](_ => 0);
    var received := Fill(socket, header);
    if received < HEADER_SIZE {
      return if received == 0 then ReceiveClosed else ReceiveError, payload;
    }
    assert header[..] == header[..HEADER_SIZE] == old(socket.input)[..HEADER_SIZE];
    var payloadSize := ReadBigEndian32(header[..]);
    if payloadSize > maxFrameSize {
      return ReceiveTooLarge, payload;
    }
    var body := new Byte[payloadSize](_ => 0);
    received := Fill(socket, body);
    if received < payloadSize {
      TornBody(old(socket.input), body[..], received);
      return ReceiveError, body[..];
    }
    assert body[..] == body[..payloadSize] == old(socket.input)[HEADER_SIZE..][..payloadSize];
    return ReceiveOk, body[..];
  }

  method ReceiveFrameNative(socket: Socket, maxFrameSize: nat) returns (status: ReceiveStatus, payload: Bytes)
    modifies socket`input
    ensures status.ReceiveOk? ==>
              NextFrame(old(socket.input), maxFrameSize) == Ready(payload, socket.input)
    ensures !socket.valid ==> status == ReceiveError && payload == [] && socket.input == old(socket.input)
    ensures socket.reliable && socket.valid ==>
              var r := ReadFrameNative(old(socket.input), maxFrameSize);
              status == r.status && socket.input == r.rest && payload == r.payload
  {
    payload := [];
    var header := new Byte[HEADER_SIZE](_ => 0);
    var received, n := FillNative(socket, header);
    if received < HEADER_SIZE {
      return if n == 0 && received == 0 then ReceiveClosed else ReceiveError, payload;
    }
    assert header[..] == header[..HEADER_SIZE] == old(socket.input)[..HEADER_SIZE];
    var payloadSize := ReadBigEndian32(header[..]);
    if payloadSize > maxFrameSize {
      return ReceiveTooLarge, payload;
    }
    var body := new Byte[payloadSize](_ => 0);
    received, n := FillNative(socket, body);
    if received < payloadSize {
      TornBody(old(socket.input), body[..], received);
      return if n == 0 then ReceiveClosed else ReceiveError, body[..];
    }
    assert body[..] == body[..payloadSize] == old(socket.input)[HEADER_SIZE..][..payloadSize];
    return ReceiveOk, body[..];
  }

  lemma TornBody(stream: Bytes, body: Bytes, received: nat)
    requires |stream| >= HEADER_SIZE && received < |body| == ReadBigEndian32(stream)
    requires HEADER_SIZE + received <= |stream|
    requires body[..received] == stream[HEADER_SIZE..][..received]
    requires forall i | received <= i < |body| :: body[i] == 0
    ensures HEADER_SIZE + received == |stream| ==> body == ZeroPadded(stream[HEADER_SIZE..], |body|)
  {
    if HEADER_SIZE + received == |stream| {
      assert stream[HEADER_SIZE..][..received] == stream[HEADER_SIZE..];
      var padded := ZeroPadded(stream[HEADER_SIZE..], |body|);
      assert forall i | 0 <= i < received :: body[i] == body[..received][i] == padded[i];
      assert body == padded;
    }
  }

  lemma PrefixGrows(stream: Bytes, received: nat, n: nat, done: Bytes, chunk: Bytes)
    requires received + n <= |stream|
    requires done == stream[..received] && chunk == stream[received..][..n]
    ensures done + chunk == stream[..received + n]
    ensures stream[received..][n..] == stream[received + n..]
  {
  }

  // ----- the three readers agree

  /** What a reader made of a stream: the payload, and the bytes it has left. */
  datatype Reading<S> = Reading(status: S, payload: Bytes, unread: Bytes)

  /** The incremental decoder, fed with the stream in any chunks until it has a verdict. */
  method Decode(stream: Bytes, maxFrameSize: nat) returns (r: Reading<FrameStatus>)
    ensures match NextFrame(stream, maxFrameSize)
            case Ready(payload, rest) => r == Reading(StatusReady, payload, rest)
            case TooLarge => r == Reading(StatusTooLarge, [], stream)
            case NeedMoreData => r == Reading(StatusNeedMoreData, [], stream)
  {
    var decoder := new FrameDecoder(maxFrameSize);
    var status, payload := decoder.NextFrame();
    var fed := 0;
    while status.StatusNeedMoreData? && fed < |stream|
      invariant 0 <= fed <= |stream|
      invariant status == StatusOf(NextFrame(stream[..fed], maxFrameSize)) && decoder.maxFrameSize == maxFrameSize
      invariant status.StatusReady? ==> NextFrame(stream[..fed], maxFrameSize) == Ready(payload, decoder.buffer)
      invariant !status.StatusReady? ==> decoder.buffer == stream[..fed] && payload == []
      decreases |stream| - fed
    {
      var size :| 0 < size <= |stream| - fed;
      decoder.Append(stream[fed..fed + size]);
      assert stream[..fed] + stream[fed..fed + size] == stream[..fed + size];
      fed := fed + size;
      status, payload := decoder.NextFrame();
    }
    VerdictIsStable(stream[..fed], stream[fed..], maxFrameSize);
    assert stream[..fed] + stream[fed..] == stream;
    r := Reading(status, payload, decoder.buffer + stream[fed..]);
  }

  /**
   On every finite stream, over every schedule of appends and short reads without
   receive errors: the incremental decoder and both blocking readers agree on
   whole frames, with the same payload and the same bytes left, and on oversized
   ones. The two readers differ exactly when the stream ends inside a body.
   */
  method ReadThreeWays(stream: Bytes, maxFrameSize: nat)
    returns (d: Reading<FrameStatus>, p: Reading<ReceiveStatus>, n: Reading<ReceiveStatus>)
    ensures (p.status == ReceiveOk <==> d.status == StatusReady) && (n.status == ReceiveOk <==> d.status == StatusReady)
    ensures d.status == StatusReady ==>
              && p == n && p.payload == d.payload && p.unread == d.unread
              && stream == EncodeFrame(d.payload) + d.unread
    ensures (p.status == ReceiveTooLarge <==> d.status == StatusTooLarge)
         && (n.status == ReceiveTooLarge <==> d.status == StatusTooLarge)
    ensures d.status == StatusTooLarge ==>
              |stream| >= HEADER_SIZE && d.unread == stream && p.unread == n.unread == stream[HEADER_SIZE..]
    ensures p.payload == n.payload && p.unread == n.unread
    ensures p.status != n.status <==> d.status == StatusNeedMoreData && |stream| >= HEADER_SIZE
    ensures p.status != n.status ==> p.status == ReceiveError && n.status == ReceiveClosed
  {
    d := Decode(stream, maxFrameSize);
    var portable := new Socket(stream, true);
    var native := new Socket(stream, true);
    var status, payload := ReceiveFrame(portable, maxFrameSize);
    p := Reading(status, payload, portable.input);
    status, payload := ReceiveFrameNative(native, maxFrameSize);
    n := Reading(status, payload, native.input);
    if d.status == StatusReady {
      ReadyIsEncoding(stream, maxFrameSize);
    }
  }

  // ----- end to end

  /** One `sendFrame` call as seen on the wire. */
  datatype SendCall = SendCall(payload: Bytes, emitted: Bytes, ok: bool)

  ghost predicate ValidCalls(calls: seq<SendCall>, maxFrameSize: nat) {
    forall c | c in calls :: SendFrameOutcome(c.payload, maxFrameSize, c.emitted, c.ok) && |c.payload| < WORD
  }

  function Emitted(calls: seq<SendCall>): Bytes {
    if calls == [] then [] else calls[0].emitted + Emitted(calls[1..])
  }

  function Payloads(calls: seq<SendCall>): seq<Bytes> {
    if calls == [] then [] else [calls[0].payload] + Payloads(calls[1..])
  }

  /** Reading `n` frames one after the other, by either reader. */
  function ReadFrames(stream: Bytes, n: nat, maxFrameSize: nat, tornBody: ReceiveStatus): seq<Received>
    decreases n
  {
    if n == 0 then []
    else
      var r := ReadFrame(stream, maxFrameSize, tornBody);
      [r] + ReadFrames(r.rest, n - 1, maxFrameSize, tornBody)
  }

  /** What the reader should get: each payload in turn, and after it exactly the later frames unread. */
  function InOrder(calls: seq<SendCall>, tail: Bytes): seq<Received> {
    if calls == [] then []
    else [Received(ReceiveOk, calls[0].payload, Emitted(calls[1..]) + tail)] + InOrder(calls[1..], tail)
  }

  /**
   If every call of a sequence of `sendFrame` calls succeeded, over whatever
   short writes, that many reads over whatever short reads return the payloads
   in order, each read consuming exactly its frame; `tail` is untouched.
   */
  lemma {:induction false} EndToEnd(calls: seq<SendCall>, tail: Bytes, maxFrameSize: nat, tornBody: ReceiveStatus)
    requires ValidCalls(calls, maxFrameSize)
    requires forall c | c in calls :: c.ok
    ensures ReadFrames(Emitted(calls) + tail, |calls|, maxFrameSize, tornBody) == InOrder(calls, tail)
  {
    if calls != [] {
      var c, later := calls[0], calls[1..];
      assert c in calls;
      Assoc(EncodeFrame(c.payload), Emitted(later), tail);
      FrameRoundTrip(c.payload, Emitted(later) + tail, maxFrameSize);
      EndToEnd(later, tail, maxFrameSize, tornBody);
    }
  }

  /**
   After a failed send the reader sees the frames before it and then nothing
   whole: a torn frame is never delivered.
   */
  lemma FailedSendIsNotDelivered(calls: seq<SendCall>, last: SendCall, maxFrameSize: nat, tornBody: ReceiveStatus)
    requires ValidCalls(calls + [last], maxFrameSize)
    requires (forall c | c in calls :: c.ok) && !last.ok && !tornBody.ReceiveOk?
    ensures Frames(Emitted(calls) + last.emitted, maxFrameSize) == Payloads(calls)
    ensures Leftover(Emitted(calls) + last.emitted, maxFrameSize) == last.emitted
    ensures !ReadFrame(last.emitted, maxFrameSize, tornBody).status.ReceiveOk?
  {
    assert last in calls + [last];
    if |last.payload| <= maxFrameSize {
      var frame := EncodeFrame(last.payload);
      assert last.emitted == frame[..|last.emitted|];
      TornFrameIsIncomplete(last.payload, |last.emitted|, maxFrameSize);
    }
    assert ValidCalls(calls, maxFrameSize) by {
      assert forall c | c in calls :: c in calls + [last];
    }
    EmittedIsWire(calls, maxFrameSize);
    FramesOfWire(Payloads(calls), last.emitted, maxFrameSize);
    assert Payloads(calls) + [] == Payloads(calls);
  }

  lemma {:induction false} EmittedIsWire(calls: seq<SendCall>, maxFrameSize: nat)
    requires ValidCalls(calls, maxFrameSize) && forall c | c in calls :: c.ok
    ensures Emitted(calls) == Wire(Payloads(calls)) && AllFit(Payloads(calls), maxFrameSize)
  {
    if calls != [] {
      assert calls[0] in calls;
      EmittedIsWire(calls[1..], maxFrameSize);
      assert Payloads(calls)[1..] == Payloads(calls[1..]);
    }
  }

  /** One end sends the payloads until a send fails, in either version, over any short writes. */
  method SendAllFrames(socket: Socket, payloads: seq<Bytes>, maxFrameSize: nat, native: bool) returns (sent: nat)
    requires socket.output == [] && forall p | p in payloads :: |p| < WORD
    modifies socket`output
    ensures sent <= |payloads| && AllFit(payloads[..sent], maxFrameSize)
    ensures Frames(socket.output, maxFrameSize) == payloads[..sent]
    ensures sent == |payloads| ==> Leftover(socket.output, maxFrameSize) == []
  {
    sent := 0;
    while sent < |payloads|
      invariant sent <= |payloads| && AllFit(payloads[..sent], maxFrameSize)
      invariant socket.output == Wire(payloads[..sent])
    {
      ghost var before, payload := socket.output, payloads[sent];
      var ok: bool;
      if native {
        ok := SendFrameNative(socket, payloads[sent], maxFrameSize);
      } else {
        ok := SendFrame(socket, payloads[sent], maxFrameSize);
      }
      assert socket.output == before + socket.output[|before|..];
      if !ok {
        StopsAtTear(payloads[..sent], payload, socket.output[|before|..], maxFrameSize);
        return;
      }
      WireAppend(payloads[..sent], payload);
      assert payloads[..sent + 1] == payloads[..sent] + [payload];
      sent := sent + 1;
    }
    FramesOfWholeWire(payloads[..sent], maxFrameSize);
  }

  lemma StopsAtTear(payloads: seq<Bytes>, payload: Bytes, emitted: Bytes, maxFrameSize: nat)
    requires AllFit(payloads, maxFrameSize) && |payload| < WORD
    requires SendFrameOutcome(payload, maxFrameSize, emitted, false)
    ensures Frames(Wire(payloads) + emitted, maxFrameSize) == payloads
  {
    if |payload| <= maxFrameSize {
      var frame := EncodeFrame(payload);
      assert emitted == frame[..|emitted|];
      TornFrameIsIncomplete(payload, |emitted|, maxFrameSize);
    }
    FramesOfWire(payloads, emitted, maxFrameSize);
    assert payloads + [] == payloads;
  }

  /** The other end reads until a read is not Ok, in either version, over any short reads. */
  method ReceiveAllFrames(socket: Socket, maxFrameSize: nat, native: bool)
    returns (payloads: seq<Bytes>, last: ReceiveStatus)
    requires socket.reliable && socket.valid
    modifies socket`input
    ensures payloads == Frames(old(socket.input), maxFrameSize)
    ensures last != ReceiveOk && (Leftover(old(socket.input), maxFrameSize) == [] ==> last == ReceiveClosed)
  {
    payloads := [];
    ghost var stream := socket.input;
    while true
      invariant payloads + Frames(socket.input, maxFrameSize) == Frames(stream, maxFrameSize)
      invariant Leftover(socket.input, maxFrameSize) == Leftover(stream, maxFrameSize)
      decreases |socket.input|
    {
      var payload: Bytes;
      last, payload := ReceiveEither(socket, maxFrameSize, native);
      if last != ReceiveOk {
        assert payloads + [] == payloads;
        return;
      }
      OneMorePayload(payloads, payload, Frames(socket.input, maxFrameSize));
      payloads := payloads + [payload];
    }
  }

  lemma OneMorePayload(payloads: seq<Bytes>, payload: Bytes, rest: seq<Bytes>)
    ensures payloads + ([payload] + rest) == payloads + [payload] + rest
  {
  }

  /** One read in either version, as a step of draining the stream. */
  method ReceiveEither(socket: Socket, maxFrameSize: nat, native: bool) returns (status: ReceiveStatus, payload: Bytes)
    requires socket.reliable && socket.valid
    modifies socket`input
    ensures status == ReceiveOk ==>
              && |socket.input| < |old(socket.input)|
              && Frames(old(socket.input), maxFrameSize) == [payload] + Frames(socket.input, maxFrameSize)
              && Leftover(old(socket.input), maxFrameSize) == Leftover(socket.input, maxFrameSize)
    ensures status != ReceiveOk ==>
              && Frames(old(socket.input), maxFrameSize) == []
              && (Leftover(old(socket.input), maxFrameSize) == [] ==> status == ReceiveClosed)
  {
    if native {
      status, payload := ReceiveFrameNative(socket, maxFrameSize);
    } else {
      status, payload := ReceiveFrame(socket, maxFrameSize);
    }
  }

  /**
   End to end, in either version: what the receiver gets is exactly the payloads
   whose sends succeeded, in order, and after a complete transfer the next read
   reports the end of the connection.
   */
  method Exchange(payloads: seq<Bytes>, maxFrameSize: nat, native: bool)
    returns (sent: nat, received: seq<Bytes>, last: ReceiveStatus)
    requires forall p | p in payloads :: |p| < WORD
    ensures sent <= |payloads| && received == payloads[..sent]
    ensures last != ReceiveOk && (sent == |payloads| ==> last == ReceiveClosed)
  {
    var near := new Socket([], false);
    sent := SendAllFrames(near, payloads, maxFrameSize, native);
    var far := new Socket(near.output, true);
    received, last := ReceiveAllFrames(far, maxFrameSize, native);
  }
}
