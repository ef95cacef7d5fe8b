/**
 Any number of threads call `sendResponse` on one handler: the handler thread
 for its replies, other handlers' threads for pushes and kicks. Each call takes
 the send mutex, writes one frame in arbitrarily short chunks, and releases it.

 The system is a set of threads with a program counter each; one step is one
 lock operation or one `::send`.
 */
module ConcurrentWriters {
  import opened Options
  import opened Framing

  type ThreadId = nat

  datatype Phase =
    | Outside
    | Waiting(payload: Bytes)
    | Writing(payload: Bytes, sent: nat)

  /** A thread, with the payloads for which its calls have returned true, in its own order. */
  datatype Sender = Sender(phase: Phase, accepted: seq<Bytes>)

  datatype Entry = Entry(thread: ThreadId, payload: Bytes)

  /** A frame whose sending failed part way, and the payloads that were complete before it. */
  datatype Tear = Tear(done: seq<Bytes>, payload: Bytes, sent: nat)

  /**
   `log` lists the completed calls in the order in which they held the lock;
   `torn` counts the bytes of frames whose sending failed part way, and `tear` is
   the first of these.
   */
  datatype State = State(
    threads: map<ThreadId, Sender>,
    holder: Option<ThreadId>,
    wire: Bytes,
    log: seq<Entry>,
    torn: nat,
    tear: Option<Tear>)

  datatype Step =
    | Call(thread: ThreadId, payload: Bytes)
    | Lock(thread: ThreadId)
    | Send(thread: ThreadId, count: nat)
    | Succeed(thread: ThreadId)
    | Fail(thread: ThreadId)

  ghost predicate Init(s: State) {
    && (forall t | t in s.threads :: s.threads[t] == Sender(Outside, []))
    && s.holder == None && s.wire == [] && s.log == [] && s.torn == 0 && s.tear == None
  }

  predicate IsWriting(s: State, t: ThreadId) {
    t in s.threads && s.threads[t].phase.Writing?
  }

  predicate Enabled(s: State, step: Step, maxFrameSize: nat) {
    match step
    case Call(t, _) => t in s.threads && s.threads[t].phase.Outside?
    case Lock(t) => t in s.threads && s.threads[t].phase.Waiting? && s.holder == None
    case Send(t, n) =>
      && IsWriting(s, t)
      && |s.threads[t].phase.payload| <= maxFrameSize
      && 0 < n <= |EncodeFrame(s.threads[t].phase.payload)| - s.threads[t].phase.sent
    case Succeed(t) =>
      IsWriting(s, t) && s.threads[t].phase.sent == |EncodeFrame(s.threads[t].phase.payload)|
    case Fail(t) =>
      IsWriting(s, t) && s.threads[t].phase.sent < |EncodeFrame(s.threads[t].phase.payload)|
  }

  function After(s: State, step: Step, maxFrameSize: nat): State
    requires Enabled(s, step, maxFrameSize)
  {
    var sender := s.threads[step.thread];
    match step
    case Call(t, p) => s.(threads := s.threads[t := sender.(phase := Waiting(p))])
    case Lock(t) =>
      s.(threads := s.threads[t := sender.(phase := Writing(sender.phase.payload, 0))], holder := Some(t))
    case Send(t, n) =>
      var frame, sent := EncodeFrame(sender.phase.payload), sender.phase.sent;
      s.(threads := s.threads[t := sender.(phase := Writing(sender.phase.payload, sent + n))],
         wire := s.wire + frame[sent..sent + n])
    case Succeed(t) =>
      var p := sender.phase.payload;
      s.(threads := s.threads[t := Sender(Outside, sender.accepted + [p])],
         holder := None, log := s.log + [Entry(t, p)])
    case Fail(t) =>
      s.(threads := s.threads[t := sender.(phase := Outside)],
         holder := None, torn := s.torn + sender.phase.sent,
         tear := if s.tear.None? && sender.phase.sent > 0
                 then Some(Tear(Completed(s.log), sender.phase.payload, sender.phase.sent)) else s.tear)
  }

  ghost predicate Legal(s: State, steps: seq<Step>, maxFrameSize: nat)
    decreases |steps|
  {
    steps == [] ||
    (Enabled(s, steps[0], maxFrameSize) && Legal(After(s, steps[0], maxFrameSize), steps[1..], maxFrameSize))
  }

  ghost function Reach(s: State, steps: seq<Step>, maxFrameSize: nat): State
    requires Legal(s, steps, maxFrameSize)
    decreases |steps|
  {
    if steps == [] then s else Reach(After(s, steps[0], maxFrameSize), steps[1..], maxFrameSize)
  }

  /** The payloads of the completed calls, in lock order. */
  function Completed(log: seq<Entry>): seq<Bytes> {
    if log == [] then [] else Completed(log[..|log| - 1]) + [log[|log| - 1].payload]
  }
}
