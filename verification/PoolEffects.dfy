/**
 What the operations on the connection pool do when nobody comes in between:
 acquiring takes the connection that has been idle longest, a lease that goes
 returns its connection, and a move hands the connection over.
 */
module PoolEffects {
  import opened Options
  import opened ConnectionPool
  import opened PoolSafety

  // ----- runs

  ghost predicate RunTo(s: State, steps: seq<Step>, s': State) {
    WellFormed(s) && Legal(s, steps) && Reach(s, steps) == s'
  }

  lemma Here(s: State)
    requires WellFormed(s)
    ensures RunTo(s, [], s)
  {
  }

  lemma First(s: State, step: Step, later: seq<Step>, s': State) returns (steps: seq<Step>)
    requires WellFormed(s) && Enabled(s, step) && RunTo(After(s, step), later, s')
    ensures RunTo(s, steps, s')
  {
    steps := Cons(s, step, later);
  }

  // ----- what is where

  /** The connection of a lease that would give one back. */
  function Freed(l: Lease): seq<Connection> {
    if Live(l) then [l.held.value] else []
  }

  /** Every lease but these two is as it was. */
  predicate OthersKept(s: State, s': State, a: LeaseId, b: LeaseId) {
    && |s.leases| <= |s'.leases|
    && forall l | 0 <= l < |s.leases| && l != a && l != b :: s'.leases[l] == s.leases[l]
  }

  predicate Emptied(l: Lease) {
    l.Lease? ==> !l.attached && l.held == None
  }

  predicate AtRest(s: State, t: ThreadId) {
    WellFormed(s) && t < |s.threads| && s.threads[t].Running?
  }

  // ----- acquire

  /** With an idle connection the thread gets the one that was returned first; without one it sleeps. */
  lemma AcquireTakesOldest(s: State, t: ThreadId) returns (steps: seq<Step>, s': State)
    requires AtRest(s, t)
    ensures RunTo(s, steps, s') && |s'.threads| == |s.threads|
    ensures if s.available == [] then s'.threads[t].Sleeping? && s'.leases == s.leases && s'.available == []
            else
              && AtRest(s', t) && s.available == [s.available[0]] + s'.available
              && s'.leases == s.leases + [Lease(t, true, Some(s.available[0]))]
  {
    var mid := After(s, Enter(t));
    StepKeepsWellFormed(s, Enter(t));
    s' := After(mid, TakeOrSleep(t));
    StepKeepsWellFormed(mid, TakeOrSleep(t));
    Here(s');
    var later := First(mid, TakeOrSleep(t), [], s');
    steps := First(s, Enter(t), later, s');
  }

  // ----- release

  /** From the return to the notification. */
  lemma ReleaseIsARun(s: State, t: ThreadId) returns (steps: seq<Step>, s': State)
    requires WellFormed(s) && t < |s.threads| && s.threads[t].Releasing?
    ensures RunTo(s, steps, s') && WellFormed(s') && |s'.threads| == |s.threads|
    ensures s'.available == s.available + [s.threads[t].held] && s'.leases == s.leases
    ensures s'.threads[t] == if s.threads[t].next.Some? then Assigning(s.threads[t].next.value) else Running
  {
    var mid := After(s, ReturnConnection(t));
    StepKeepsWellFormed(s, ReturnConnection(t));
    var notify := SomeNotification(mid, t);
    s' := After(mid, notify);
    StepKeepsWellFormed(mid, notify);
    Here(s');
    var later := First(mid, notify, [], s');
    steps := First(s, ReturnConnection(t), later, s');
  }

  lemma SomeNotification(s: State, t: ThreadId) returns (step: Step)
    requires t < |s.threads| && s.threads[t].Notifying?
    ensures step.NotifyOne? && step.thread == t && Enabled(s, step)
  {
    if w: ThreadId :| w < |s.threads| && s.threads[w].Sleeping? {
      step := NotifyOne(t, Some(w));
    } else {
      step := NotifyOne(t, None);
    }
  }

  /** A lease that is destroyed gives its connection back, behind the idle ones, if it has one. */
  lemma DestroyReturns(s: State, t: ThreadId, l: LeaseId) returns (steps: seq<Step>, s': State)
    requires AtRest(s, t) && Owns(s, t, l)
    ensures RunTo(s, steps, s') && AtRest(s', t)
    ensures s'.available == s.available + Freed(s.leases[l])
    ensures OthersKept(s, s', l, l) && |s'.leases| == |s.leases| && s'.leases[l].Destroyed?
  {
    var mid := After(s, Destroy(t, l));
    StepKeepsWellFormed(s, Destroy(t, l));
    if Live(s.leases[l]) {
      var later;
      later, s' := ReleaseIsARun(mid, t);
      steps := First(s, Destroy(t, l), later, s');
    } else {
      s' := mid;
      Here(s');
      steps := First(s, Destroy(t, l), [], s');
    }
  }

  // ----- moves

  /** A new lease takes over what the source holds, and the source is left empty. */
  lemma MoveHandsOver(s: State, t: ThreadId, source: LeaseId) returns (steps: seq<Step>, s': State)
    requires AtRest(s, t) && Owns(s, t, source)
    ensures RunTo(s, steps, s') && AtRest(s', t) && s'.available == s.available
    ensures OthersKept(s, s', source, source) && |s'.leases| == |s.leases| + 1
    ensures s'.leases[|s.leases|] == s.leases[source] && Emptied(s'.leases[source])
  {
    s' := After(s, MoveConstruct(t, source));
    StepKeepsWellFormed(s, MoveConstruct(t, source));
    Here(s');
    steps := First(s, MoveConstruct(t, source), [], s');
  }

  /**
   An assignment gives back the connection of the target, if it has one, hands over
   what the source holds and leaves the source empty; to itself it does nothing.
   */
  lemma AssignmentHandsOver(s: State, t: ThreadId, target: LeaseId, source: LeaseId)
    returns (steps: seq<Step>, s': State)
    requires AtRest(s, t) && Owns(s, t, target) && Owns(s, t, source)
    ensures RunTo(s, steps, s') && AtRest(s', t)
    ensures if target == source then s' == s
            else
              && s'.available == s.available + Freed(s.leases[target])
              && OthersKept(s, s', target, source) && |s'.leases| == |s.leases|
              && s'.leases[target] == s.leases[source] && Emptied(s'.leases[source])
  {
    var step := MoveAssign(t, target, source);
    var mid, later := After(s, step), [];
    StepKeepsWellFormed(s, step);
    if target == source {
      s' := mid;
      Here(s');
    } else if Live(s.leases[target]) {
      var after, rest;
      rest, after := ReleaseIsARun(mid, t);
      later, s' := FinishIsARun(after, t);
      later := Chain(mid, rest, after, later, s');
    } else {
      later, s' := FinishIsARun(mid, t);
    }
    steps := First(s, step, later, s');
  }

  lemma FinishIsARun(s: State, t: ThreadId) returns (steps: seq<Step>, s': State)
    requires WellFormed(s) && t < |s.threads| && s.threads[t].Assigning?
    ensures RunTo(s, steps, s') && AtRest(s', t) && s'.available == s.available
    ensures var a := s.threads[t].assignment;
            && CanFinish(s, t, a) && OthersKept(s, s', a.target, a.source) && |s'.leases| == |s.leases|
            && s'.leases[a.target] == s.leases[a.source] && Emptied(s'.leases[a.source])
  {
    assert PendingIsValid(s, t);
    s' := After(s, FinishAssign(t));
    StepKeepsWellFormed(s, FinishAssign(t));
    Here(s');
    steps := First(s, FinishAssign(t), [], s');
  }

  lemma {:induction false} Chain(s: State, a: seq<Step>, mid: State, b: seq<Step>, s': State)
    returns (steps: seq<Step>)
    requires RunTo(s, a, mid) && RunTo(mid, b, s')
    ensures RunTo(s, steps, s')
    decreases |a|
  {
    if a == [] {
      steps := b;
    } else {
      StepKeepsWellFormed(s, a[0]);
      var later := Chain(After(s, a[0]), a[1..], mid, b, s');
      steps := First(s, a[0], later, s');
    }
  }
}
