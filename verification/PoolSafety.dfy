/**
 What every interleaving of the connection pool keeps: each connection is in one
 place, no wakeup is lost, and, if nobody acquires while holding, sleeping threads
 are served.
 */
module PoolSafety {
  import opened Options
  import opened Counting
  import opened ConnectionPool

  // ----- conservation

  function HeldBy(c: Connection): Lease -> int {
    (l: Lease) => if l.Lease? && l.held == Some(c) then 1 else 0
  }

  function InTransit(c: Connection): Phase -> int {
    (p: Phase) => if p.Releasing? && p.held == c then 1 else 0
  }

  /** In how many places a connection is: the queue, leases, and threads on their way to return it. */
  function Places(s: State, c: Connection): int {
    multiset(s.available)[c] + Sum(s.leases, HeldBy(c)) + Sum(s.threads, InTransit(c))
  }

  /** How a step changes a sum over the leases. */
  function LeaseChange(s: State, step: Step, f: Lease -> int): int
    requires WellFormed(s) && Enabled(s, step)
  {
    match step
    case TakeOrSleep(t) => if s.available == [] then 0 else f(Lease(t, true, Some(s.available[0])))
    case Destroy(_, l) => f(Destroyed) - f(s.leases[l])
    case MoveConstruct(_, source) => f(MovedFrom(s.leases[source]))
    case MoveAssign(_, target, source) =>
      if target != source && Live(s.leases[target]) then
        f(s.leases[target].(held := None)) - f(s.leases[target])
      else 0
    case FinishAssign(t) =>
      var a := s.threads[t].assignment;
      assert PendingIsValid(s, t);
      f(MovedFrom(s.leases[a.source])) - f(s.leases[a.target])
    case _ => 0
  }

  lemma {:induction false} LeasesAfter(s: State, step: Step, f: Lease -> int)
    requires WellFormed(s) && Enabled(s, step)
    ensures Sum(NextLeases(s, step), f) == Sum(s.leases, f) + LeaseChange(s, step, f)
  {
    match step
    case TakeOrSleep(t) =>
      if s.available != [] {
        SumAppend(s.leases, Lease(t, true, Some(s.available[0])), f);
      }
    case Destroy(_, l) => SumUpdate(s.leases, l, Destroyed, f);
    case MoveConstruct(_, source) => MoveConstructed(s.leases, source, f);
    case MoveAssign(_, target, _) => SumUpdate(s.leases, target, s.leases[target].(held := None), f);
    case FinishAssign(t) =>
      assert PendingIsValid(s, t);
      MoveAssigned(s.leases, s.threads[t].assignment, f);
    case _ =>
  }

  lemma {:induction false} MoveConstructed(leases: seq<Lease>, source: LeaseId, f: Lease -> int)
    requires source < |leases|
    ensures Sum(leases[source := MovedFrom(leases[source])] + [leases[source]], f)
         == Sum(leases, f) + f(MovedFrom(leases[source]))
  {
    SumUpdate(leases, source, MovedFrom(leases[source]), f);
    SumAppend(leases[source := MovedFrom(leases[source])], leases[source], f);
  }

  lemma {:induction false} MoveAssigned(leases: seq<Lease>, a: Assignment, f: Lease -> int)
    requires a.source < |leases| && a.target < |leases| && a.source != a.target
    ensures Sum(leases[a.target := leases[a.source]][a.source := MovedFrom(leases[a.source])], f)
         == Sum(leases, f) + f(MovedFrom(leases[a.source])) - f(leases[a.target])
  {
    var moved := leases[a.source];
    SumUpdate(leases, a.target, moved, f);
    SumUpdate(leases[a.target := moved], a.source, MovedFrom(moved), f);
  }

  lemma {:induction false} QueueAfter(s: State, step: Step, c: Connection)
    requires Enabled(s, step)
    ensures multiset(NextAvailable(s, step))[c] == multiset(s.available)[c]
              - (if step.TakeOrSleep? && s.available != [] && s.available[0] == c then 1 else 0)
              + (if step.ReturnConnection? then InTransit(c)(s.threads[step.thread]) else 0)
  {
    if step.TakeOrSleep? && s.available != [] {
      assert s.available == [s.available[0]] + s.available[1..];
    }
  }

  lemma {:induction false} ThreadsAfter(s: State, step: Step, f: Phase -> int)
    requires WellFormed(s) && Enabled(s, step)
    ensures var t, s' := step.thread, After(s, step);
            Sum(s'.threads, f) == Sum(s.threads, f) - f(s.threads[t]) + f(s'.threads[t])
              + (if step.NotifyOne? && step.woken.Some? then f(Woken) - f(Sleeping) else 0)
  {
    var t, p := step.thread, NextPhase(s, step);
    SumUpdate(s.threads, t, p, f);
    if step.NotifyOne? && step.woken.Some? {
      SumUpdate(s.threads[t := p], step.woken.value, Woken, f);
    }
  }

  /** No step creates, copies or loses a connection. */
  lemma {:induction false} StepConservesConnections(s: State, step: Step, c: Connection)
    requires WellFormed(s) && Enabled(s, step)
    ensures Places(After(s, step), c) == Places(s, c)
  {
    LeasesAfter(s, step, HeldBy(c));
    ThreadsAfter(s, step, InTransit(c));
    QueueAfter(s, step, c);
    HandOver(s, step, c);
  }

  /** What leaves the leases goes into the hands of the thread, and from there to the queue. */
  lemma {:induction false} HandOver(s: State, step: Step, c: Connection)
    requires WellFormed(s) && Enabled(s, step)
    ensures LeaseChange(s, step, HeldBy(c))
              + InTransit(c)(NextPhase(s, step)) - InTransit(c)(s.threads[step.thread])
         == (if step.TakeOrSleep? && s.available != [] && s.available[0] == c then 1 else 0)
              - (if step.ReturnConnection? then InTransit(c)(s.threads[step.thread]) else 0)
  {
    assert PendingIsValid(s, step.thread);
  }

  // ----- no lost wakeup

  function IsSleeping(p: Phase): int { if p.Sleeping? then 1 else 0 }
  function IsWoken(p: Phase): int { if p.Woken? then 1 else 0 }
  function IsNotifying(p: Phase): int { if p.Notifying? then 1 else 0 }

  ghost predicate NoLostWakeup(s: State) {
    Sum(s.threads, IsSleeping) > 0 ==>
      |s.available| <= Sum(s.threads, IsWoken) + Sum(s.threads, IsNotifying)
  }

  lemma {:induction false} StepKeepsWakeups(s: State, step: Step)
    requires WellFormed(s) && Enabled(s, step) && NoLostWakeup(s)
    ensures NoLostWakeup(After(s, step))
  {
    ThreadsAfter(s, step, IsSleeping);
    ThreadsAfter(s, step, IsWoken);
    ThreadsAfter(s, step, IsNotifying);
    SumBounds(After(s, step).threads, IsWoken);
    SumBounds(After(s, step).threads, IsNotifying);
    if step.NotifyOne? && step.woken.None? {
      NoneSum(s.threads, IsSleeping);
    }
  }

  // ----- every run

  lemma {:induction false} RunKeeps(s: State, steps: seq<Step>, c: Connection)
    requires WellFormed(s) && NoLostWakeup(s) && Legal(s, steps)
    ensures WellFormed(Reach(s, steps)) && NoLostWakeup(Reach(s, steps))
    ensures Places(Reach(s, steps), c) == Places(s, c)
    decreases |steps|
  {
    if steps != [] {
      StepKeepsWellFormed(s, steps[0]);
      StepKeepsWakeups(s, steps[0]);
      StepConservesConnections(s, steps[0], c);
      RunKeeps(After(s, steps[0]), steps[1..], c);
    }
  }

  lemma {:induction false} InitialPlaces(s: State, poolSize: nat, c: Connection)
    requires Init(s, poolSize)
    ensures WellFormed(s) && NoLostWakeup(s)
    ensures Places(s, c) == if c < poolSize then 1 else 0
  {
    forall t | 0 <= t < |s.threads| ensures PendingIsValid(s, t) {
      assert s.threads[t] in s.threads;
    }
    NoneSum(s.threads, IsSleeping);
    NoneSum(s.threads, InTransit(c));
    OnceInRange(poolSize, c);
  }

  lemma {:induction false} OnceInRange(n: nat, c: Connection)
    ensures multiset(seq(n, i => i))[c] == if c < n then 1 else 0
  {
    if n > 0 {
      OnceInRange(n - 1, c);
      assert seq(n, i => i) == seq(n - 1, i => i) + [n - 1];
    }
  }

  /**
   In every interleaving each of the `poolSize` connections is in exactly one
   place: idle in the queue, held by exactly one lease, or being returned by
   exactly one thread, also through move construction and move assignment. And
   while a thread sleeps, the idle connections do not outnumber the threads that
   are awake or about to be woken for them.
   */
  lemma {:induction false} PoolIsSafe(init: State, poolSize: nat, steps: seq<Step>, c: Connection)
    requires Init(init, poolSize) && Legal(init, steps)
    ensures Places(Reach(init, steps), c) == if c < poolSize then 1 else 0
    ensures NoLostWakeup(Reach(init, steps))
  {
    InitialPlaces(init, poolSize, c);
    RunKeeps(init, steps, c);
  }

  /** In particular, no two leases ever hold the same connection, and no leased connection is idle. */
  lemma LeasesAreExclusive(init: State, poolSize: nat, steps: seq<Step>, i: LeaseId, j: LeaseId, c: Connection)
    requires Init(init, poolSize) && Legal(init, steps)
    requires var s := Reach(init, steps);
             i < |s.leases| && j < |s.leases| && HeldBy(c)(s.leases[i]) == 1 && HeldBy(c)(s.leases[j]) == 1
    ensures i == j && c < poolSize && c !in Reach(init, steps).available
  {
    var s := Reach(init, steps);
    PoolIsSafe(init, poolSize, steps, c);
    SumBounds(s.leases, HeldBy(c));
    SumBounds(s.threads, InTransit(c));
    if i < j {
      SumOfTwo(s.leases, i, j, HeldBy(c));
    } else if j < i {
      SumOfTwo(s.leases, j, i, HeldBy(c));
    }
  }

  // ----- progress

  /** A thread that is not asleep and still has something to do in the pool or with a lease. */
  ghost predicate Busy(s: State, t: ThreadId) {
    && t < |s.threads| && !s.threads[t].Sleeping?
    && (s.threads[t].Running? ==> exists l: LeaseId :: Owns(s, t, l) && Live(s.leases[l]))
  }

  ghost predicate HeldBySleeper(s: State, c: Connection) {
    exists l | 0 <= l < |s.leases| ::
      s.leases[l].Lease? && s.leases[l].held == Some(c)
      && s.leases[l].owner < |s.threads| && s.threads[s.leases[l].owner].Sleeping?
  }

  /**
   The only way for sleeping threads to be stuck with nobody left to wake them
   is that sleeping threads themselves hold every connection.
   */
  lemma StuckOnlyIfSleepersHoldEverything(init: State, poolSize: nat, steps: seq<Step>, c: Connection)
    requires Init(init, poolSize) && Legal(init, steps) && c < poolSize
    requires exists t :: 0 <= t < |Reach(init, steps).threads| && Reach(init, steps).threads[t].Sleeping?
    requires forall t :: !Busy(Reach(init, steps), t)
    ensures HeldBySleeper(Reach(init, steps), c)
  {
    var s := Reach(init, steps);
    InitialPlaces(init, poolSize, c);
    RunKeeps(init, steps, c);
    forall p | p in s.threads ensures IsWoken(p) == 0 && IsNotifying(p) == 0 && InTransit(c)(p) == 0 {
      var t :| 0 <= t < |s.threads| && s.threads[t] == p;
      assert !Busy(s, t);
    }
    NoneSum(s.threads, IsWoken);
    NoneSum(s.threads, IsNotifying);
    NoneSum(s.threads, InTransit(c));
    SumBounds(s.threads, IsSleeping);
    assert s.available == [];
    var l := SumWitness(s.leases, HeldBy(c));
    var t := s.leases[l].owner;
    assert Owns(s, t, l) && Live(s.leases[l]);
    assert !Busy(s, t);
  }

  /** The discipline of every method of `Database`: no acquire while holding a lease. */
  ghost predicate Disciplined(s: State, steps: seq<Step>)
    requires WellFormed(s) && Legal(s, steps)
    decreases |steps|
  {
    steps == [] || (
      && (steps[0].Enter? ==> forall l: LeaseId | Owns(s, steps[0].thread, l) :: !Live(s.leases[l]))
      && (StepKeepsWellFormed(s, steps[0]); Disciplined(After(s, steps[0]), steps[1..])))
  }

  predicate WaitsForConnection(p: Phase) {
    p.Acquiring? || p.Sleeping? || p.Woken?
  }

  ghost predicate WaitersHoldNothing(s: State) {
    forall i | 0 <= i < |s.leases| && Live(s.leases[i]) && s.leases[i].owner < |s.threads| ::
      !WaitsForConnection(s.threads[s.leases[i].owner])
  }

  lemma StepKeepsDiscipline(s: State, step: Step)
    requires WellFormed(s) && Enabled(s, step) && WaitersHoldNothing(s)
    requires step.Enter? ==> forall l: LeaseId | Owns(s, step.thread, l) :: !Live(s.leases[l])
    ensures WaitersHoldNothing(After(s, step))
  {
    var s' := After(s, step);
    forall i | 0 <= i < |s'.leases| && Live(s'.leases[i]) && s'.leases[i].owner < |s'.threads|
      ensures !WaitsForConnection(s'.threads[s'.leases[i].owner])
    {
      if step.FinishAssign? {
        assert PendingIsValid(s, step.thread);
      } else if i < |s.leases| && s.leases[i] == s'.leases[i] {
        assert Owns(s, s.leases[i].owner, i);
      }
    }
  }

  lemma {:induction false} RunKeepsDiscipline(s: State, steps: seq<Step>)
    requires WellFormed(s) && Legal(s, steps) && WaitersHoldNothing(s) && Disciplined(s, steps)
    ensures WaitersHoldNothing(Reach(s, steps))
    decreases |steps|
  {
    if steps != [] {
      StepKeepsWellFormed(s, steps[0]);
      StepKeepsDiscipline(s, steps[0]);
      RunKeepsDiscipline(After(s, steps[0]), steps[1..]);
    }
  }

  /** With a non-empty pool and that discipline, whenever a thread sleeps some other thread can move. */
  lemma WaitersNeverDeadlock(init: State, poolSize: nat, steps: seq<Step>)
    requires Init(init, poolSize) && poolSize > 0 && Legal(init, steps)
    requires Disciplined(init, steps)
    requires exists t :: 0 <= t < |Reach(init, steps).threads| && Reach(init, steps).threads[t].Sleeping?
    ensures exists t :: Busy(Reach(init, steps), t)
  {
    var s := Reach(init, steps);
    if forall t :: !Busy(s, t) {
      StuckOnlyIfSleepersHoldEverything(init, poolSize, steps, 0);
      RunKeepsDiscipline(init, steps);
      var l :| 0 <= l < |s.leases| && s.leases[l].Lease? && s.leases[l].held == Some(0)
        && s.leases[l].owner < |s.threads| && s.threads[s.leases[l].owner].Sleeping?;
      InitialPlaces(init, poolSize, 0);
      RunKeeps(init, steps, 0);
      assert false;
    }
  }

  /** Steps that the pool itself takes, as opposed to new calls, lease moves and spurious wakeups. */
  predicate Productive(step: Step) {
    !(step.Enter? || step.WakeSpuriously? || step.MoveConstruct? || step.MoveAssign?)
  }

  lemma BusyThreadsCanMove(s: State, t: ThreadId) returns (step: Step)
    requires WellFormed(s) && Busy(s, t)
    ensures Productive(step) && Enabled(s, step) && step.thread == t
  {
    match s.threads[t]
    case Running =>
      var l: LeaseId :| Owns(s, t, l) && Live(s.leases[l]);
      step := Destroy(t, l);
    case Acquiring => step := TakeOrSleep(t);
    case Woken => step := TakeOrSleep(t);
    case Releasing(_, _) => step := ReturnConnection(t);
    case Assigning(_) => step := FinishAssign(t);
    case Notifying(_) =>
      if w: ThreadId :| w < |s.threads| && s.threads[w].Sleeping? {
        step := NotifyOne(t, Some(w));
      } else {
        step := NotifyOne(t, None);
      }
  }

  /** A potential that every productive step lowers. */
  function PhaseWeight(p: Phase): int {
    match p
    case Running => 0
    case Acquiring => 7
    case Sleeping => 5
    case Woken => 6
    case Releasing(_, next) => if next.Some? then 4 else 3
    case Notifying(next) => if next.Some? then 3 else 2
    case Assigning(_) => 1
  }

  function LeaseWeight(l: Lease): int {
    if l.Destroyed? then 0 else if l.held.Some? then 4 else 1
  }

  function Potential(s: State): int {
    Sum(s.threads, PhaseWeight) + Sum(s.leases, LeaseWeight)
  }

  /** How many pool steps the other steps pay for, counting themselves. */
  function Allowance(step: Step): int {
    match step
    case Enter(_) => 8
    case WakeSpuriously(_) => 2
    case MoveConstruct(_, _) => 2
    case MoveAssign(_, _, _) => 2
    case _ => 0
  }

  lemma StepLowersPotential(s: State, step: Step)
    requires WellFormed(s) && Enabled(s, step)
    ensures Potential(After(s, step)) + 1 <= Potential(s) + Allowance(step)
  {
    LeasesAfter(s, step, LeaseWeight);
    ThreadsAfter(s, step, PhaseWeight);
    assert PendingIsValid(s, step.thread);
  }

  lemma {:induction false} RunIsBounded(s: State, steps: seq<Step>)
    requires WellFormed(s) && Legal(s, steps)
    ensures |steps| + Potential(Reach(s, steps)) <= Potential(s) + Sum(steps, Allowance)
    decreases |steps|
  {
    if steps != [] {
      StepKeepsWellFormed(s, steps[0]);
      StepLowersPotential(s, steps[0]);
      RunIsBounded(After(s, steps[0]), steps[1..]);
      SumHead(steps, Allowance);
    }
  }

  /**
   The pool makes progress: in every disciplined run of a non-empty pool, as long
   as a thread sleeps the pool can take a step of its own, and it cannot take
   such steps forever: a run is no longer than eight steps for each acquire and
   two for each spurious wakeup and lease move.
   */
  lemma PoolMakesProgress(init: State, poolSize: nat, steps: seq<Step>)
    requires Init(init, poolSize) && poolSize > 0 && Legal(init, steps)
    requires Disciplined(init, steps)
    ensures |steps| <= Sum(steps, Allowance)
    ensures (exists p | p in Reach(init, steps).threads :: p.Sleeping?) ==>
              exists step :: Productive(step) && Enabled(Reach(init, steps), step)
  {
    var s := Reach(init, steps);
    InitialPlaces(init, poolSize, 0);
    RunKeeps(init, steps, 0);
    RunLength(init, poolSize, steps);
    if exists p | p in s.threads :: p.Sleeping? {
      var step := ProductiveStep(init, poolSize, steps);
    }
  }

  lemma RunLength(init: State, poolSize: nat, steps: seq<Step>)
    requires Init(init, poolSize) && Legal(init, steps)
    ensures |steps| <= Sum(steps, Allowance)
  {
    RunIsBounded(init, steps);
    NoPotential(init, poolSize);
    PotentialBounds(Reach(init, steps));
  }

  lemma NoPotential(init: State, poolSize: nat)
    requires Init(init, poolSize)
    ensures Potential(init) == 0
  {
    NoneSum(init.threads, PhaseWeight);
  }

  lemma PotentialBounds(s: State)
    ensures Potential(s) >= 0
  {
    SumBounds(s.threads, PhaseWeight);
    SumBounds(s.leases, LeaseWeight);
  }

  lemma ProductiveStep(init: State, poolSize: nat, steps: seq<Step>) returns (step: Step)
    requires Init(init, poolSize) && poolSize > 0 && Legal(init, steps)
    requires Disciplined(init, steps)
    requires exists p | p in Reach(init, steps).threads :: p.Sleeping?
    ensures Productive(step) && Enabled(Reach(init, steps), step)
  {
    var s := Reach(init, steps);
    InitialPlaces(init, poolSize, 0);
    RunKeeps(init, steps, 0);
    var p :| p in s.threads && p.Sleeping?;
    var i :| 0 <= i < |s.threads| && s.threads[i] == p;
    WaitersNeverDeadlock(init, poolSize, steps);
    var t: ThreadId :| Busy(s, t);
    step := BusyThreadsCanMove(s, t);
  }

  /** Without the discipline there is a deadlock: one connection, one thread that acquires twice. */
  lemma NestedAcquireDeadlocks() returns (init: State, steps: seq<Step>)
    ensures Init(init, 1) && Legal(init, steps)
    ensures Reach(init, steps).threads == [Sleeping]
    ensures forall t: ThreadId :: !Busy(Reach(init, steps), t)
  {
    init := State(seq(1, i => i), [Running], []);
    var s1 := State([0], [Acquiring], []);
    var s2 := State([], [Running], [Lease(0, true, Some(0))]);
    steps := SecondAcquire(s2);
    assert init.available == [0];
    assert After(s1, TakeOrSleep(0)) == s2;
    steps := Cons(s1, TakeOrSleep(0), steps);
    assert After(init, Enter(0)) == s1;
    steps := Cons(init, Enter(0), steps);
  }

  lemma SecondAcquire(s2: State) returns (steps: seq<Step>)
    requires s2 == State([], [Running], [Lease(0, true, Some(0))])
    ensures WellFormed(s2) && Legal(s2, steps) && Reach(s2, steps) == s2.(threads := [Sleeping])
  {
    var s3, s4 := s2.(threads := [Acquiring]), s2.(threads := [Sleeping]);
    assert After(s3, TakeOrSleep(0)) == s4;
    steps := Cons(s3, TakeOrSleep(0), []);
    assert After(s2, Enter(0)) == s3;
    steps := Cons(s2, Enter(0), steps);
  }

  lemma Cons(s: State, step: Step, later: seq<Step>) returns (steps: seq<Step>)
    requires WellFormed(s) && Enabled(s, step) && WellFormed(After(s, step)) && Legal(After(s, step), later)
    ensures Legal(s, steps) && Reach(s, steps) == Reach(After(s, step), later)
  {
    steps := [step] + later;
    assert steps[1..] == later;
  }
}
