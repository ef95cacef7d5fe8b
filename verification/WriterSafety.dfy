/**
 What the wire says in every interleaving of concurrent writers, what the peer
 makes of it, and what becomes of it after a torn frame.
 */
module WriterSafety {
  import opened Options
  import opened Framing
  import opened ConcurrentWriters

  /** The completed calls of one thread, in lock order. */
  function CompletedBy(log: seq<Entry>, t: ThreadId): seq<Bytes> {
    if log == [] then []
    else
      var last := log[|log| - 1];
      CompletedBy(log[..|log| - 1], t) + (if last.thread == t then [last.payload] else [])
  }

  /** The part of its frame that the lock holder has written. */
  function InProgress(s: State): Bytes {
    if s.holder.Some? && IsWriting(s, s.holder.value) then
      var ph := s.threads[s.holder.value].phase;
      var frame := EncodeFrame(ph.payload);
      if ph.sent <= |frame| then frame[..ph.sent] else frame
    else []
  }

  /** The lock holder has written all of its frame and has not returned yet. */
  predicate HolderFinished(s: State) {
    && s.holder.Some? && IsWriting(s, s.holder.value)
    && s.threads[s.holder.value].phase.sent == |EncodeFrame(s.threads[s.holder.value].phase.payload)|
  }

  ghost predicate MutualExclusion(s: State) {
    && (s.holder.Some? ==> IsWriting(s, s.holder.value))
    && (forall t | IsWriting(s, t) ::
          && s.holder == Some(t)
          && s.threads[t].phase.sent <= |EncodeFrame(s.threads[t].phase.payload)|)
  }

  ghost predicate OwnOrder(s: State) {
    && (forall t | t in s.threads :: s.threads[t].accepted == CompletedBy(s.log, t))
    && (forall e | e in s.log :: e.thread in s.threads)
  }

  ghost predicate WireShape(s: State) {
    && |s.wire| == |Wire(Completed(s.log))| + |InProgress(s)| + s.torn
    && (s.torn == 0 ==> s.wire == Wire(Completed(s.log)) + InProgress(s))
  }

  ghost predicate SizesChecked(s: State, maxFrameSize: nat) {
    && (forall p | p in Completed(s.log) :: |p| <= maxFrameSize)
    && (forall t | IsWriting(s, t) && s.threads[t].phase.sent > 0 :: |s.threads[t].phase.payload| <= maxFrameSize)
  }

  ghost predicate Inv(s: State, maxFrameSize: nat) {
    MutualExclusion(s) && OwnOrder(s) && WireShape(s) && SizesChecked(s, maxFrameSize)
  }

  lemma CompletedAppend(log: seq<Entry>, e: Entry)
    ensures Completed(log + [e]) == Completed(log) + [e.payload]
    ensures forall t :: CompletedBy(log + [e], t)
                     == CompletedBy(log, t) + (if e.thread == t then [e.payload] else [])
  {
    assert (log + [e])[..|log|] == log;
  }

  lemma StepKeepsMutualExclusion(s: State, step: Step, maxFrameSize: nat)
    requires MutualExclusion(s) && Enabled(s, step, maxFrameSize)
    ensures MutualExclusion(After(s, step, maxFrameSize))
  {
  }

  lemma StepKeepsOrder(s: State, step: Step, maxFrameSize: nat)
    requires OwnOrder(s) && Enabled(s, step, maxFrameSize)
    ensures OwnOrder(After(s, step, maxFrameSize))
  {
    var s' := After(s, step, maxFrameSize);
    if step.Succeed? {
      CompletedAppend(s.log, Entry(step.thread, s.threads[step.thread].phase.payload));
    }
    assert s'.threads.Keys == s.threads.Keys;
    forall t | t in s'.threads ensures s'.threads[t].accepted == CompletedBy(s'.log, t) {
      assert s.threads[t].accepted == CompletedBy(s.log, t);
    }
  }

  lemma StepKeepsWire(s: State, step: Step, maxFrameSize: nat)
    requires MutualExclusion(s) && WireShape(s) && Enabled(s, step, maxFrameSize)
    ensures WireShape(After(s, step, maxFrameSize))
  {
    var s' := After(s, step, maxFrameSize);
    match step
    case Call(t, _) => assert InProgress(s') == InProgress(s);
    case Lock(t) => assert InProgress(s') == InProgress(s) == [];
    case Send(t, n) =>
      var frame, sent := EncodeFrame(s.threads[t].phase.payload), s.threads[t].phase.sent;
      assert InProgress(s') == InProgress(s) + frame[sent..sent + n];
      Assoc(Wire(Completed(s.log)), InProgress(s), frame[sent..sent + n]);
    case Succeed(t) =>
      var p := s.threads[t].phase.payload;
      CompletedAppend(s.log, Entry(t, p));
      WireAppend(Completed(s.log), p);
      assert InProgress(s) == EncodeFrame(p);
      assert s'.wire == Wire(Completed(s'.log)) + [] || s.torn != 0;
    case Fail(t) =>
      if s'.torn == 0 {
        assert InProgress(s) == [];
      }
  }

  lemma StepKeepsSizes(s: State, step: Step, maxFrameSize: nat)
    requires MutualExclusion(s) && SizesChecked(s, maxFrameSize) && Enabled(s, step, maxFrameSize)
    ensures SizesChecked(After(s, step, maxFrameSize), maxFrameSize)
  {
    if step.Succeed? {
      CompletedAppend(s.log, Entry(step.thread, s.threads[step.thread].phase.payload));
    }
  }

  lemma StepKeepsInv(s: State, step: Step, maxFrameSize: nat)
    requires Inv(s, maxFrameSize) && Enabled(s, step, maxFrameSize)
    ensures Inv(After(s, step, maxFrameSize), maxFrameSize)
  {
    StepKeepsOrder(s, step, maxFrameSize);
    StepKeepsWire(s, step, maxFrameSize);
    StepKeepsSizes(s, step, maxFrameSize);
    StepKeepsMutualExclusion(s, step, maxFrameSize);
  }

  lemma {:induction false} RunKeepsInv(s: State, steps: seq<Step>, maxFrameSize: nat)
    requires Inv(s, maxFrameSize) && Legal(s, steps, maxFrameSize)
    ensures Inv(Reach(s, steps, maxFrameSize), maxFrameSize)
    decreases |steps|
  {
    if steps != [] {
      StepKeepsInv(s, steps[0], maxFrameSize);
      RunKeepsInv(After(s, steps[0], maxFrameSize), steps[1..], maxFrameSize);
    }
  }

  // ----- main results

  /**
   In every run, from any number of threads: at most one thread writes; the wire
   is the encodings of the completed payloads in lock order followed by what the
   lock holder has written of its frame, exactly when no send has failed in the
   middle of a frame; and each thread's completed payloads appear on the wire in
   that thread's own order.
   */
  lemma WritersLinearise(init: State, steps: seq<Step>, maxFrameSize: nat)
    requires Init(init) && Legal(init, steps, maxFrameSize)
    ensures var s := Reach(init, steps, maxFrameSize);
            && MutualExclusion(s)
            && (s.torn == 0 <==> s.wire == Wire(Completed(s.log)) + InProgress(s))
            && (forall t | t in s.threads :: s.threads[t].accepted == CompletedBy(s.log, t))
  {
    assert Wire(Completed(init.log)) == [];
    RunKeepsInv(init, steps, maxFrameSize);
  }

  /** Every payload handed to a call is below 2^32 bytes. */
  ghost predicate SmallCalls(steps: seq<Step>) {
    forall i | 0 <= i < |steps| && steps[i].Call? :: |steps[i].payload| < WORD
  }

  /** The payload a thread is in the middle of sending. */
  function Current(ph: Phase): Bytes {
    match ph
    case Outside => []
    case Waiting(p) => p
    case Writing(p, _) => p
  }

  ghost predicate Small(s: State) {
    && (forall t | t in s.threads :: |Current(s.threads[t].phase)| < WORD)
    && (forall p | p in Completed(s.log) :: |p| < WORD)
    && (s.tear.Some? ==> |s.tear.value.payload| < WORD && forall p | p in s.tear.value.done :: |p| < WORD)
  }

  lemma StepKeepsSmall(s: State, step: Step, maxFrameSize: nat)
    requires Small(s) && Enabled(s, step, maxFrameSize) && (step.Call? ==> |step.payload| < WORD)
    ensures Small(After(s, step, maxFrameSize))
  {
    if step.Succeed? {
      var p := s.threads[step.thread].phase.payload;
      CompletedAppend(s.log, Entry(step.thread, p));
      assert p == Current(s.threads[step.thread].phase);
    }
  }

  lemma {:induction false} RunKeepsSmall(s: State, steps: seq<Step>, maxFrameSize: nat)
    requires Small(s) && Legal(s, steps, maxFrameSize) && SmallCalls(steps)
    ensures Small(Reach(s, steps, maxFrameSize))
    decreases |steps|
  {
    if steps != [] {
      StepKeepsSmall(s, steps[0], maxFrameSize);
      RunKeepsSmall(After(s, steps[0], maxFrameSize), steps[1..], maxFrameSize);
    }
  }

  /**
   What the peer decodes: exactly the completed payloads in lock order, and, if
   the holder has written its whole frame, that payload too; the bytes it has to
   keep are the holder's torn frame.
   */
  lemma PeerDecodesCompletedPayloads(init: State, steps: seq<Step>, maxFrameSize: nat)
    requires Init(init) && Legal(init, steps, maxFrameSize) && SmallCalls(steps)
    requires Reach(init, steps, maxFrameSize).torn == 0
    ensures var s := Reach(init, steps, maxFrameSize);
            if HolderFinished(s) then
              && Frames(s.wire, maxFrameSize) == Completed(s.log) + [s.threads[s.holder.value].phase.payload]
              && Leftover(s.wire, maxFrameSize) == []
            else
              && Frames(s.wire, maxFrameSize) == Completed(s.log)
              && Leftover(s.wire, maxFrameSize) == InProgress(s)
  {
    var s := Reach(init, steps, maxFrameSize);
    assert Wire(Completed(init.log)) == [];
    RunKeepsInv(init, steps, maxFrameSize);
    RunKeepsSmall(init, steps, maxFrameSize);
    FramesOfWire(Completed(s.log), InProgress(s), maxFrameSize);
    HolderFrame(s, maxFrameSize);
  }

  lemma HolderFrame(s: State, maxFrameSize: nat)
    requires Inv(s, maxFrameSize) && Small(s)
    ensures if HolderFinished(s) then
              && Frames(InProgress(s), maxFrameSize) == [s.threads[s.holder.value].phase.payload]
              && Leftover(InProgress(s), maxFrameSize) == []
            else
              Frames(InProgress(s), maxFrameSize) == [] && Leftover(InProgress(s), maxFrameSize) == InProgress(s)
  {
    if s.holder.Some? {
      var ph := s.threads[s.holder.value].phase;
      assert ph.payload == Current(ph);
      if HolderFinished(s) {
        FramesOfWholeWire([ph.payload], maxFrameSize);
        assert Wire([ph.payload]) == EncodeFrame(ph.payload) == InProgress(s);
      } else if ph.sent > 0 {
        TornFrameIsIncomplete(ph.payload, ph.sent, maxFrameSize);
      }
    }
  }

  /** The payload of a thread's last call, if it has not returned yet. */
  function Outstanding(steps: seq<Step>, t: ThreadId): Option<Bytes> {
    if steps == [] then None
    else
      var front, last := steps[..|steps| - 1], steps[|steps| - 1];
      if last.thread != t then Outstanding(front, t)
      else
        match last
        case Call(_, p) => Some(p)
        case Succeed(_) => None
        case Fail(_) => None
        case _ => Outstanding(front, t)
  }

  /** The payloads of the calls of a thread that have returned true, in order. */
  function Granted(steps: seq<Step>, t: ThreadId): seq<Bytes> {
    if steps == [] then []
    else
      var front, last := steps[..|steps| - 1], steps[|steps| - 1];
      if last == Succeed(t) && Outstanding(front, t).Some? then Granted(front, t) + [Outstanding(front, t).value]
      else Granted(front, t)
  }

  /**
   A call that returns true has written the payload it was given: the completed
   payloads of each thread are those of its own calls, in the order of the calls.
   */
  lemma CallsWriteTheirOwnPayload(init: State, steps: seq<Step>, maxFrameSize: nat, t: ThreadId)
    requires Init(init) && Legal(init, steps, maxFrameSize) && t in init.threads
    ensures var s := Reach(init, steps, maxFrameSize);
            && t in s.threads
            && CompletedBy(s.log, t) == Granted(steps, t)
            && (if s.threads[t].phase.Outside? then Outstanding(steps, t) == None
                else Outstanding(steps, t) == Some(Current(s.threads[t].phase)))
  {
    WritersLinearise(init, steps, maxFrameSize);
    CallsSoFar(init, steps, maxFrameSize, t);
  }

  ghost predicate Accounted(s: State, steps: seq<Step>, t: ThreadId) {
    && t in s.threads && s.threads[t].accepted == Granted(steps, t)
    && Outstanding(steps, t) == if s.threads[t].phase.Outside? then None else Some(Current(s.threads[t].phase))
  }

  lemma {:induction false} CallsSoFar(init: State, steps: seq<Step>, maxFrameSize: nat, t: ThreadId)
    requires Init(init) && Legal(init, steps, maxFrameSize) && t in init.threads
    ensures Accounted(Reach(init, steps, maxFrameSize), steps, t)
    decreases |steps|
  {
    if steps != [] {
      var front, last := steps[..|steps| - 1], steps[|steps| - 1];
      assert steps == front + [last];
      LastStep(init, front, last, maxFrameSize);
      CallsSoFar(init, front, maxFrameSize, t);
      AccountedAfter(Reach(init, front, maxFrameSize), front, last, maxFrameSize, t);
    }
  }

  lemma AccountedAfter(s: State, front: seq<Step>, last: Step, maxFrameSize: nat, t: ThreadId)
    requires Accounted(s, front, t) && Enabled(s, last, maxFrameSize)
    ensures Accounted(After(s, last, maxFrameSize), front + [last], t)
  {
    assert (front + [last])[..|front|] == front;
  }

  lemma {:induction false} LastStep(s: State, front: seq<Step>, last: Step, maxFrameSize: nat)
    requires Legal(s, front + [last], maxFrameSize)
    ensures Legal(s, front, maxFrameSize) && Enabled(Reach(s, front, maxFrameSize), last, maxFrameSize)
    ensures Reach(s, front + [last], maxFrameSize) == After(Reach(s, front, maxFrameSize), last, maxFrameSize)
    decreases |front|
  {
    if front != [] {
      assert (front + [last])[1..] == front[1..] + [last];
      LastStep(After(s, front[0], maxFrameSize), front[1..], last, maxFrameSize);
    }
  }

  // ----- after a tear

  /** The bytes of the torn frame that reached the wire. */
  function TornPart(t: Tear): Bytes {
    var frame := EncodeFrame(t.payload);
    if t.sent <= |frame| then frame[..t.sent] else frame
  }

  /** The wire up to and including the first torn frame, as far as it was written. */
  function UpToTear(t: Tear): Bytes {
    Wire(t.done) + TornPart(t)
  }

  /** The first tear is where it happened, and whatever follows comes after it. */
  ghost predicate TearShape(s: State, maxFrameSize: nat) {
    && (s.tear.None? <==> s.torn == 0)
    && (s.tear.Some? ==>
          && 0 < s.tear.value.sent < |EncodeFrame(s.tear.value.payload)| && |s.tear.value.payload| <= maxFrameSize
          && (forall p | p in s.tear.value.done :: |p| <= maxFrameSize)
          && s.tear.value.done <= Completed(s.log)
          && UpToTear(s.tear.value) <= s.wire)
  }

  lemma StepKeepsTear(s: State, step: Step, maxFrameSize: nat)
    requires Inv(s, maxFrameSize) && TearShape(s, maxFrameSize) && Enabled(s, step, maxFrameSize)
    ensures TearShape(After(s, step, maxFrameSize), maxFrameSize)
  {
    if step.Succeed? {
      CompletedAppend(s.log, Entry(step.thread, s.threads[step.thread].phase.payload));
    } else if step.Fail? && s.tear.None? && s.threads[step.thread].phase.sent > 0 {
      var ph := s.threads[step.thread].phase;
      assert TornPart(Tear(Completed(s.log), ph.payload, ph.sent)) == InProgress(s);
    }
  }

  lemma {:induction false} RunKeepsTear(s: State, steps: seq<Step>, maxFrameSize: nat)
    requires Inv(s, maxFrameSize) && TearShape(s, maxFrameSize) && Legal(s, steps, maxFrameSize)
    ensures TearShape(Reach(s, steps, maxFrameSize), maxFrameSize)
    decreases |steps|
  {
    if steps != [] {
      StepKeepsTear(s, steps[0], maxFrameSize);
      StepKeepsInv(s, steps[0], maxFrameSize);
      RunKeepsTear(After(s, steps[0], maxFrameSize), steps[1..], maxFrameSize);
    }
  }

  /**
   What the peer decodes once a frame has been torn and the bytes `since` have
   followed. If the header was complete: the payloads from before the tear, as
   long as fewer bytes have followed than the torn frame still owes, and then the
   front of the torn payload with the missing bytes taken from later frames. If
   the header itself was torn: the payloads from before until four bytes are there,
   and then whatever the bytes that follow make of the rest of a header.
   */
  lemma DecodingAfterTear(init: State, steps: seq<Step>, maxFrameSize: nat)
    requires Init(init) && Legal(init, steps, maxFrameSize) && SmallCalls(steps)
    requires Reach(init, steps, maxFrameSize).tear.Some?
    ensures var s := Reach(init, steps, maxFrameSize);
            var t := s.tear.value;
            && t.done <= Completed(s.log) && UpToTear(t) <= s.wire
            && var since := s.wire[|UpToTear(t)|..];
               DecodedSince(s.wire, t, since, maxFrameSize)
  {
    assert Wire(Completed(init.log)) == [];
    RunKeepsTear(init, steps, maxFrameSize);
    RunKeepsSmall(init, steps, maxFrameSize);
    var s := Reach(init, steps, maxFrameSize);
    WireSinceTear(s.wire, s.tear.value, maxFrameSize);
  }

  lemma WireSinceTear(wire: Bytes, t: Tear, maxFrameSize: nat)
    requires UpToTear(t) <= wire && Fits(t.payload, maxFrameSize) && AllFit(t.done, maxFrameSize)
    requires 0 < t.sent < |EncodeFrame(t.payload)|
    ensures DecodedSince(wire, t, wire[|UpToTear(t)|..], maxFrameSize)
  {
    var since := wire[|UpToTear(t)|..];
    assert wire == UpToTear(t) + since;
    TornThenSince(t, since, maxFrameSize);
  }

  ghost predicate DecodedSince(wire: Bytes, t: Tear, since: Bytes, maxFrameSize: nat) {
    if t.sent < HEADER_SIZE then
      && Frames(wire, maxFrameSize) == t.done + Frames(TornPart(t) + since, maxFrameSize)
      && (t.sent + |since| < HEADER_SIZE ==> Frames(wire, maxFrameSize) == t.done)
    else
      var owed := HEADER_SIZE + |t.payload| - t.sent;
      if |since| < owed then Frames(wire, maxFrameSize) == t.done
      else
        owed >= 0 && t.sent - HEADER_SIZE <= |t.payload|
        && Frames(wire, maxFrameSize)
           == t.done + ([t.payload[..t.sent - HEADER_SIZE] + since[..owed]] + Frames(since[owed..], maxFrameSize))
  }

  lemma TornThenSince(t: Tear, since: Bytes, maxFrameSize: nat)
    requires 0 < t.sent < |EncodeFrame(t.payload)| && Fits(t.payload, maxFrameSize) && AllFit(t.done, maxFrameSize)
    ensures DecodedSince(UpToTear(t) + since, t, since, maxFrameSize)
  {
    Assoc(Wire(t.done), TornPart(t), since);
    FramesOfWire(t.done, TornPart(t) + since, maxFrameSize);
    if t.sent >= HEADER_SIZE {
      TornBodyFrame(t, since, maxFrameSize);
    }
    assert t.done + [] == t.done;
  }

  lemma TornPartHeader(t: Tear, since: Bytes)
    requires HEADER_SIZE <= t.sent < |EncodeFrame(t.payload)| && |t.payload| < WORD
    ensures ReadBigEndian32(TornPart(t) + since) == |t.payload|
  {
    EncodedHeader(t.payload);
    SameHeader(TornPart(t) + since, EncodeFrame(t.payload));
  }

  lemma TornBodyFrame(t: Tear, since: Bytes, maxFrameSize: nat)
    requires HEADER_SIZE <= t.sent < |EncodeFrame(t.payload)| && Fits(t.payload, maxFrameSize)
    ensures var owed := HEADER_SIZE + |t.payload| - t.sent;
            NextFrame(TornPart(t) + since, maxFrameSize)
            == if |since| < owed then NeedMoreData
               else Ready(t.payload[..t.sent - HEADER_SIZE] + since[..owed], since[owed..])
  {
    var stream := TornPart(t) + since;
    var owed := HEADER_SIZE + |t.payload| - t.sent;
    TornPartHeader(t, since);
    if |since| >= owed {
      assert TornPart(t)[HEADER_SIZE..] == t.payload[..t.sent - HEADER_SIZE];
      assert stream[HEADER_SIZE..HEADER_SIZE + |t.payload|] == t.payload[..t.sent - HEADER_SIZE] + since[..owed];
      assert stream[HEADER_SIZE + |t.payload|..] == since[owed..];
    }
  }

  /** A torn header misleads at once: after three of its bytes, the next frame makes an empty one. */
  lemma TornHeaderMisleads(payload: Bytes, maxFrameSize: nat)
    requires |payload| < 0x100_0000
    ensures NextFrame([0, 0, 0] + EncodeFrame(payload), maxFrameSize) == Ready([], EncodeFrame(payload)[1..])
  {
    var stream := [0, 0, 0] + EncodeFrame(payload);
    assert stream[3] == EncodeFrame(payload)[0] == 0;
    assert ReadBigEndian32(stream) == 0;
    assert stream[4..4] == [] && stream[4..] == EncodeFrame(payload)[1..];
  }

  // ----- runs with a tear

  /** One thread, at rest. */
  function Resting(wire: Bytes, accepted: seq<Bytes>, log: seq<Entry>, torn: nat, tear: Option<Tear>): State {
    State(map[0 := Sender(Outside, accepted)], None, wire, log, torn, tear)
  }

  function WithPhase(s: State, phase: Phase, holder: Option<ThreadId>): State
    requires 0 in s.threads
  {
    s.(threads := map[0 := s.threads[0].(phase := phase)], holder := holder)
  }

  /** A thread that sends one payload in one piece. */
  lemma SendWhole(s: State, payload: Bytes, maxFrameSize: nat) returns (steps: seq<Step>, s': State)
    requires s.threads.Keys == {0} && s.threads[0] == Sender(Outside, []) && s.holder == None && s.log == []
    requires |payload| <= maxFrameSize
    ensures Legal(s, steps, maxFrameSize) && Reach(s, steps, maxFrameSize) == s'
    ensures s'.wire == s.wire + EncodeFrame(payload) && s'.log == [Entry(0, payload)] && s'.tear == s.tear
  {
    var n := |EncodeFrame(payload)|;
    var s1 := WithPhase(s, Waiting(payload), None);
    var s2 := WithPhase(s, Writing(payload, 0), Some(0));
    var s3 := WithPhase(s, Writing(payload, n), Some(0)).(wire := s.wire + EncodeFrame(payload));
    s' := After(s3, Succeed(0), maxFrameSize);
    assert s'.log == [Entry(0, payload)];
    steps := [Succeed(0)];
    LegalCons(s3, steps, maxFrameSize);
    assert EncodeFrame(payload)[0..n] == EncodeFrame(payload);
    assert After(s2, Send(0, n), maxFrameSize) == s3;
    steps := [Send(0, n)] + steps;
    LegalCons(s2, steps, maxFrameSize);
    assert After(s1, Lock(0), maxFrameSize) == s2;
    steps := [Lock(0)] + steps;
    LegalCons(s1, steps, maxFrameSize);
    assert s.threads == map[0 := s.threads[0]];
    assert After(s, Call(0, payload), maxFrameSize) == s1;
    steps := [Call(0, payload)] + steps;
    LegalCons(s, steps, maxFrameSize);
  }

  /** A thread whose send fails after `sent` bytes. */
  lemma TearAFrame(payload: Bytes, sent: nat, maxFrameSize: nat) returns (steps: seq<Step>)
    requires 0 < sent < |EncodeFrame(payload)| && |payload| <= maxFrameSize
    ensures var s0 := Resting([], [], [], 0, None);
            && Init(s0) && Legal(s0, steps, maxFrameSize)
            && Reach(s0, steps, maxFrameSize)
               == Resting(EncodeFrame(payload)[..sent], [], [], sent, Some(Tear([], payload, sent)))
  {
    var s0 := Resting([], [], [], 0, None);
    var s1 := WithPhase(s0, Waiting(payload), None);
    var s2 := WithPhase(s0, Writing(payload, 0), Some(0));
    var s3 := WithPhase(s0, Writing(payload, sent), Some(0)).(wire := EncodeFrame(payload)[..sent]);
    var s4 := Resting(EncodeFrame(payload)[..sent], [], [], sent, Some(Tear([], payload, sent)));
    assert After(s3, Fail(0), maxFrameSize) == s4;
    steps := [Fail(0)];
    LegalCons(s3, steps, maxFrameSize);
    assert s2.wire + EncodeFrame(payload)[0..sent] == EncodeFrame(payload)[..sent];
    assert After(s2, Send(0, sent), maxFrameSize) == s3;
    steps := [Send(0, sent)] + steps;
    LegalCons(s2, steps, maxFrameSize);
    assert After(s1, Lock(0), maxFrameSize) == s2;
    steps := [Lock(0)] + steps;
    LegalCons(s1, steps, maxFrameSize);
    assert After(s0, Call(0, payload), maxFrameSize) == s1;
    steps := [Call(0, payload)] + steps;
    LegalCons(s0, steps, maxFrameSize);
  }

  lemma {:induction false} LegalAppend(s: State, a: seq<Step>, b: seq<Step>, maxFrameSize: nat)
    requires Legal(s, a, maxFrameSize) && Legal(Reach(s, a, maxFrameSize), b, maxFrameSize)
    ensures Legal(s, a + b, maxFrameSize)
    ensures Reach(s, a + b, maxFrameSize) == Reach(Reach(s, a, maxFrameSize), b, maxFrameSize)
    decreases |a|
  {
    if a == [] {
      assert a + b == b;
    } else {
      assert (a + b)[0] == a[0] && (a + b)[1..] == a[1..] + b;
      LegalAppend(After(s, a[0], maxFrameSize), a[1..], b, maxFrameSize);
    }
  }

  /** The mutex lets the next frame follow a torn one, for every payload and every place of the tear. */
  lemma TearThenSend(torn: Bytes, sent: nat, payload: Bytes, maxFrameSize: nat) returns (init: State, steps: seq<Step>)
    requires 0 < sent < |EncodeFrame(torn)| && |torn| <= maxFrameSize && |payload| <= maxFrameSize
    ensures Init(init) && Legal(init, steps, maxFrameSize)
    ensures var s := Reach(init, steps, maxFrameSize);
            s.wire == EncodeFrame(torn)[..sent] + EncodeFrame(payload) && Completed(s.log) == [payload]
  {
    init := Resting([], [], [], 0, None);
    var first := TearAFrame(torn, sent, maxFrameSize);
    var s4 := Reach(init, first, maxFrameSize);
    var second, s8 := SendWhole(s4, payload, maxFrameSize);
    LegalAppend(init, first, second, maxFrameSize);
    steps := first + second;
    CompletedAppend([], Entry(0, payload));
    assert [] + [Entry(0, payload)] == [Entry(0, payload)];
  }

  /**
   Once a frame is torn the stream can no longer be trusted: here a peer decodes
   a payload that nobody sent, built from the front of a failed frame and the
   header of the next one.
   */
  lemma TornFrameCorruptsTheStream() returns (init: State, steps: seq<Step>)
    ensures Init(init) && Legal(init, steps, 64)
    ensures var s := Reach(init, steps, 64);
            Completed(s.log) == [[]] && [[1, 0]] <= Frames(s.wire, 64)
  {
    init, steps := TearThenSend([1, 2], 5, [], 64);
    var wire := Reach(init, steps, 64).wire;
    assert EncodeFrame([1, 2])[..5] == [0, 0, 0, 2, 1] && EncodeFrame([]) == [0, 0, 0, 0];
    InventedPayload(wire);
  }

  lemma InventedPayload(wire: Bytes)
    requires wire == [0, 0, 0, 2, 1] + [0, 0, 0, 0]
    ensures [[1, 0]] <= Frames(wire, 64)
  {
    assert ReadBigEndian32(wire) == 2;
    assert wire[4..6] == [1, 0] && wire[6..] == [0, 0, 0];
    assert NextFrame(wire, 64) == Ready([1, 0], [0, 0, 0]);
  }

  /** And a torn header misleads at once: whatever is sent next, the peer first decodes an empty payload. */
  lemma TornHeaderCorruptsTheStream(payload: Bytes, maxFrameSize: nat) returns (init: State, steps: seq<Step>)
    requires 1 <= maxFrameSize && |payload| <= maxFrameSize && |payload| < 0x100_0000
    ensures Init(init) && Legal(init, steps, maxFrameSize)
    ensures var s := Reach(init, steps, maxFrameSize);
            Completed(s.log) == [payload] && [[]] <= Frames(s.wire, maxFrameSize)
  {
    init, steps := TearThenSend([7], 3, payload, maxFrameSize);
    assert EncodeFrame([7])[..3] == [0, 0, 0];
    TornHeaderMisleads(payload, maxFrameSize);
  }

  lemma LegalCons(s: State, steps: seq<Step>, maxFrameSize: nat)
    requires steps != [] && Enabled(s, steps[0], maxFrameSize)
    requires Legal(After(s, steps[0], maxFrameSize), steps[1..], maxFrameSize)
    ensures Legal(s, steps, maxFrameSize)
    ensures Reach(s, steps, maxFrameSize) == Reach(After(s, steps[0], maxFrameSize), steps[1..], maxFrameSize)
  {
  }
}
