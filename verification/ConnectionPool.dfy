/**
 The blocking database connection pool: a mutex, a condition variable, a queue
 of idle connections and move-only leases.

 One step is one section under the mutex, one `notify_one`, or one operation of
 a thread on leases it owns. Waiting follows section 33.5.3 of ISO/IEC
 14882:2017 ([thread.condition.condvar]): `notify_one` wakes some sleeping
 thread if there is one, a thread may also wake up for no reason, and a woken
 thread tests its predicate again under the mutex.
 */
module ConnectionPool {
  import opened Options

  type ThreadId = nat
  type LeaseId = nat
  type Connection = nat

  /** A lease object; `attached` says that its pool pointer is not null. */
  datatype Lease =
    | Destroyed
    | Lease(owner: ThreadId, attached: bool, held: Option<Connection>)

  datatype Assignment = Assignment(target: LeaseId, source: LeaseId)

  datatype Phase =
    | Running                                                  // outside the pool
    | Acquiring                                                // called acquire, mutex not yet taken
    | Sleeping                                                 // waiting on the condition variable
    | Woken                                                    // woken, has to take the mutex and test again
    | Releasing(held: Connection, next: Option<Assignment>)    // called release, mutex not yet taken
    | Notifying(next: Option<Assignment>)                      // connection returned, notify_one not yet called
    | Assigning(assignment: Assignment)                        // second half of a move assignment

  datatype State = State(available: seq<Connection>, threads: seq<Phase>, leases: seq<Lease>)

  datatype Step =
    | Enter(thread: ThreadId)
    | TakeOrSleep(thread: ThreadId)
    | WakeSpuriously(thread: ThreadId)
    | Destroy(thread: ThreadId, lease: LeaseId)
    | MoveConstruct(thread: ThreadId, source: LeaseId)
    | MoveAssign(thread: ThreadId, target: LeaseId, source: LeaseId)
    | FinishAssign(thread: ThreadId)
    | ReturnConnection(thread: ThreadId)
    | NotifyOne(thread: ThreadId, woken: Option<ThreadId>)

  ghost predicate Init(s: State, poolSize: nat) {
    && s.available == seq(poolSize, i => i)
    && (forall t | 0 <= t < |s.threads| :: s.threads[t] == Running)
    && s.leases == []
  }

  predicate Owns(s: State, t: ThreadId, l: LeaseId) {
    l < |s.leases| && s.leases[l].Lease? && s.leases[l].owner == t
  }

  predicate Live(l: Lease) {
    l.Lease? && l.attached && l.held.Some?
  }

  predicate Enabled(s: State, step: Step) {
    && step.thread < |s.threads|
    && var phase := s.threads[step.thread];
       match step
       case Enter(t) => phase.Running?
       case TakeOrSleep(t) => phase.Acquiring? || phase.Woken?
       case WakeSpuriously(t) => phase.Sleeping?
       case Destroy(t, l) => phase.Running? && Owns(s, t, l)
       case MoveConstruct(t, l) => phase.Running? && Owns(s, t, l)
       case MoveAssign(t, target, source) => phase.Running? && Owns(s, t, target) && Owns(s, t, source)
       case FinishAssign(t) => phase.Assigning?
       case ReturnConnection(t) => phase.Releasing?
       case NotifyOne(t, woken) =>
         && phase.Notifying?
         && match woken
            case Some(w) => w < |s.threads| && s.threads[w].Sleeping?
            case None => forall p | p in s.threads :: !p.Sleeping?
  }

  /** What a moved-from lease is: its pool pointer and its connection are null. */
  function MovedFrom(l: Lease): Lease {
    if l.Lease? then Lease(l.owner, false, None) else l
  }

  /** The assignment that a thread still has to finish refers to two of its leases, the target emptied. */
  predicate CanFinish(s: State, t: ThreadId, a: Assignment) {
    && Owns(s, t, a.target) && Owns(s, t, a.source) && a.target != a.source
    && s.leases[a.target].held == None
  }

  /** The move assignment that a thread is in the middle of. */
  function Pending(p: Phase): Option<Assignment> {
    match p
    case Releasing(_, next) => next
    case Notifying(next) => next
    case Assigning(a) => Some(a)
    case _ => None
  }

  predicate PendingIsValid(s: State, t: ThreadId)
    requires t < |s.threads|
  {
    Pending(s.threads[t]).Some? ==> CanFinish(s, t, Pending(s.threads[t]).value)
  }

  /** What the code relies on: leases of live threads only, and a held connection implies a pool pointer. */
  predicate WellFormed(s: State) {
    && (forall t | 0 <= t < |s.threads| :: PendingIsValid(s, t))
    && LeasesAreValid(s)
  }

  predicate LeasesAreValid(s: State) {
    forall i | 0 <= i < |s.leases| && s.leases[i].Lease? ::
      s.leases[i].owner < |s.threads| && (s.leases[i].held.Some? ==> s.leases[i].attached)
  }

  /** Where the thread that takes the step goes. */
  function NextPhase(s: State, step: Step): Phase
    requires Enabled(s, step)
  {
    var phase := s.threads[step.thread];
    match step
    case Enter(_) => Acquiring
    case TakeOrSleep(_) => if s.available == [] then Sleeping else Running
    case WakeSpuriously(_) => Woken
    case Destroy(_, l) => if Live(s.leases[l]) then Releasing(s.leases[l].held.value, None) else Running
    case MoveConstruct(_, _) => Running
    case MoveAssign(_, target, source) =>
      if target == source then Running
      else if Live(s.leases[target]) then Releasing(s.leases[target].held.value, Some(Assignment(target, source)))
      else Assigning(Assignment(target, source))
    case FinishAssign(_) => Running
    case ReturnConnection(_) => Notifying(phase.next)
    case NotifyOne(_, _) => if phase.next.Some? then Assigning(phase.next.value) else Running
  }

  function NextThreads(s: State, step: Step): seq<Phase>
    requires Enabled(s, step)
  {
    var moved := s.threads[step.thread := NextPhase(s, step)];
    if step.NotifyOne? && step.woken.Some? then moved[step.woken.value := Woken] else moved
  }

  function NextLeases(s: State, step: Step): seq<Lease>
    requires WellFormed(s) && Enabled(s, step)
  {
    match step
    case TakeOrSleep(t) =>
      if s.available == [] then s.leases else s.leases + [Lease(t, true, Some(s.available[0]))]
    case Destroy(_, l) => s.leases[l := Destroyed]
    case MoveConstruct(_, source) =>
      s.leases[source := MovedFrom(s.leases[source])] + [s.leases[source]]
    case MoveAssign(_, target, source) =>
      if target != source && Live(s.leases[target]) then s.leases[target := s.leases[target].(held := None)]
      else s.leases
    case FinishAssign(t) =>
      var a := s.threads[t].assignment;
      assert PendingIsValid(s, t);
      s.leases[a.target := s.leases[a.source]][a.source := MovedFrom(s.leases[a.source])]
    case _ => s.leases
  }

  function NextAvailable(s: State, step: Step): seq<Connection>
    requires Enabled(s, step)
  {
    match step
    case TakeOrSleep(_) => if s.available == [] then [] else s.available[1..]
    case ReturnConnection(t) => s.available + [s.threads[t].held]
    case _ => s.available
  }

  function After(s: State, step: Step): State
    requires WellFormed(s) && Enabled(s, step)
  {
    State(NextAvailable(s, step), NextThreads(s, step), NextLeases(s, step))
  }

  ghost predicate Legal(s: State, steps: seq<Step>)
    requires WellFormed(s)
    decreases |steps|
  {
    steps == [] ||
    (Enabled(s, steps[0]) && (StepKeepsWellFormed(s, steps[0]); Legal(After(s, steps[0]), steps[1..])))
  }

  ghost function Reach(s: State, steps: seq<Step>): State
    requires WellFormed(s) && Legal(s, steps)
    decreases |steps|
  {
    if steps == [] then s else StepKeepsWellFormed(s, steps[0]); Reach(After(s, steps[0]), steps[1..])
  }

  lemma StepKeepsWellFormed(s: State, step: Step)
    requires WellFormed(s) && Enabled(s, step)
    ensures WellFormed(After(s, step))
  {
    StepKeepsLeases(s, step);
    forall t | 0 <= t < |s.threads| ensures PendingIsValid(After(s, step), t) {
      if t == step.thread {
        StepLeavesValidPending(s, step);
      } else {
        StepKeepsOthersPending(s, step, t);
      }
    }
  }

  lemma StepKeepsLeases(s: State, step: Step)
    requires WellFormed(s) && Enabled(s, step)
    ensures LeasesAreValid(After(s, step)) && |After(s, step).threads| == |s.threads|
  {
    assert PendingIsValid(s, step.thread);
  }

  lemma StepLeavesValidPending(s: State, step: Step)
    requires WellFormed(s) && Enabled(s, step)
    ensures PendingIsValid(After(s, step), step.thread)
  {
    assert PendingIsValid(s, step.thread);
  }

  lemma StepKeepsOthersPending(s: State, step: Step, t: ThreadId)
    requires WellFormed(s) && Enabled(s, step) && t < |s.threads| && t != step.thread
    ensures PendingIsValid(After(s, step), t)
  {
    assert PendingIsValid(s, t);
    if Pending(s.threads[t]).Some? {
      var a := Pending(s.threads[t]).value;
      OthersLeasesAreKept(s, step, t, a.target);
      OthersLeasesAreKept(s, step, t, a.source);
    }
  }

  /** A step touches only the leases of the thread that takes it. */
  lemma OthersLeasesAreKept(s: State, step: Step, t: ThreadId, l: LeaseId)
    requires WellFormed(s) && Enabled(s, step) && t != step.thread && Owns(s, t, l)
    ensures l < |After(s, step).leases| && After(s, step).leases[l] == s.leases[l]
  {
    assert PendingIsValid(s, step.thread);
  }
}
