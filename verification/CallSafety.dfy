/**
 No `Database` method acquires while it holds a connection, so for threads that
 call these methods no hypothesis is left: waiting threads never deadlock, and
 once no new calls begin every call comes to its end.
 */
module CallSafety {
  import opened Options
  import opened Counting
  import opened ConnectionPool
  import opened PoolSafety
  import opened DatabaseCalls

  // ----- where a thread is in its call

  /** The thread is between its acquire and the end of that lease. */
  predicate InScope(p: Phase, c: Client) {
    WaitsForConnection(p) || c.lease.Some?
  }

  predicate ScriptFits(p: Phase, c: Client) {
    && (if InScope(p, c) then Next(c, Release) && Alternates(c.script[1..]) else Alternates(c.script))
    && (c.lease.Some? ==> p.Running?)
    && Pending(p) == None
  }

  /** The thread's only live lease is the one it knows of. */
  predicate LeaseFits(s: State, t: ThreadId, c: Client) {
    && (c.lease.Some? ==> Owns(s, t, c.lease.value) && Live(s.leases[c.lease.value]))
    && forall l: LeaseId | l < |s.leases| && Owns(s, t, l) && Live(s.leases[l]) :: c.lease == Some(l)
  }

  predicate ClientFits(w: World, t: ThreadId)
    requires Ready(w) && t < |w.clients|
  {
    ScriptFits(w.pool.threads[t], w.clients[t]) && LeaseFits(w.pool, t, w.clients[t])
  }

  predicate AllFit(w: World) {
    Ready(w) && forall t: ThreadId | t < |w.clients| :: ClientFits(w, t)
  }

  lemma ScriptOfMover(w: World, m: Move, t: ThreadId)
    requires AllFit(w) && CanMove(w, m) && t == (if m.Begin? then m.caller else m.step.thread)
    ensures ScriptFits(AfterMove(w, m).pool.threads[t], AfterMove(w, m).clients[t])
  {
    assert ClientFits(w, t);
    if m.Begin? {
      MethodsNeverNest(m.callee);
    }
  }

  lemma ScriptOfOther(w: World, m: Move, t: ThreadId)
    requires AllFit(w) && CanMove(w, m) && t < |w.clients| && t != (if m.Begin? then m.caller else m.step.thread)
    ensures ScriptFits(AfterMove(w, m).pool.threads[t], AfterMove(w, m).clients[t])
  {
    assert ClientFits(w, t);
  }

  lemma LeaseOfMover(w: World, step: Step)
    requires AllFit(w) && CanMove(w, PoolStep(step))
    ensures LeaseFits(After(w.pool, step), step.thread, NextClients(w, PoolStep(step))[step.thread])
  {
    assert ClientFits(w, step.thread);
  }

  lemma LeaseOfOther(w: World, step: Step, t: ThreadId)
    requires AllFit(w) && CanMove(w, PoolStep(step)) && t < |w.clients| && t != step.thread
    ensures LeaseFits(After(w.pool, step), t, w.clients[t])
  {
    var s' := After(w.pool, step);
    assert ClientFits(w, t) && ClientFits(w, step.thread);
    forall l: LeaseId | l < |w.pool.leases| && Owns(w.pool, t, l) ensures s'.leases[l] == w.pool.leases[l] {
      OthersLeasesAreKept(w.pool, step, t, l);
    }
  }

  lemma MoveKeepsFit(w: World, m: Move)
    requires AllFit(w) && CanMove(w, m)
    ensures AllFit(AfterMove(w, m))
  {
    var w' := AfterMove(w, m);
    MoveKeepsReady(w, m);
    forall t: ThreadId | t < |w'.clients| ensures ClientFits(w', t) {
      assert ClientFits(w, t);
      if t == (if m.Begin? then m.caller else m.step.thread) {
        ScriptOfMover(w, m, t);
        if m.PoolStep? {
          LeaseOfMover(w, m.step);
        }
      } else {
        ScriptOfOther(w, m, t);
        if m.PoolStep? {
          LeaseOfOther(w, m.step, t);
        }
      }
    }
  }

  // ----- the pool's view of such a run

  function StepsOf(moves: seq<Move>): seq<Step> {
    if moves == [] then []
    else (if moves[0].PoolStep? then [moves[0].step] else []) + StepsOf(moves[1..])
  }

  lemma InitFits(w: World, poolSize: nat)
    requires InitWorld(w, poolSize)
    ensures AllFit(w)
  {
    forall t: ThreadId | t < |w.clients| ensures Ready(w) && ClientFits(w, t) {
    }
    assert Ready(w);
  }

  /** Every interleaving of method calls is a run of the pool in which nobody acquires while holding. */
  lemma {:induction false} CallsAreDisciplined(w: World, moves: seq<Move>)
    requires AllFit(w) && LegalMoves(w, moves)
    ensures Legal(w.pool, StepsOf(moves)) && Disciplined(w.pool, StepsOf(moves))
    ensures AllFit(ReachWorld(w, moves)) && ReachWorld(w, moves).pool == Reach(w.pool, StepsOf(moves))
    decreases |moves|
  {
    if moves != [] {
      var m, rest := moves[0], moves[1..];
      MoveKeepsFit(w, m);
      CallsAreDisciplined(AfterMove(w, m), rest);
      if m.PoolStep? {
        var steps := StepsOf(moves);
        assert steps == [m.step] + StepsOf(rest) && steps[1..] == StepsOf(rest);
        if m.step.Enter? {
          NothingHeldAtEnter(w, m.step.thread);
        }
      } else {
        assert StepsOf(moves) == StepsOf(rest);
      }
    }
  }

  lemma NothingHeldAtEnter(w: World, t: ThreadId)
    requires AllFit(w) && t < |w.clients| && w.pool.threads[t].Running? && Next(w.clients[t], Acquire)
    ensures forall l: LeaseId | Owns(w.pool, t, l) :: !Live(w.pool.leases[l])
  {
    assert ClientFits(w, t);
  }

  // ----- no deadlock

  /** The thread is in the middle of a call. */
  predicate InCall(w: World, t: ThreadId)
    requires Ready(w) && t < |w.clients|
  {
    !w.pool.threads[t].Running? || w.clients[t].script != []
  }

  /** A move that carries a call on, as opposed to a new call or a spurious wakeup. */
  predicate CarriesOn(m: Move) {
    m.PoolStep? && !m.step.WakeSpuriously?
  }

  /** A thread that is in a call and not asleep can move. */
  lemma AwakeCanMove(w: World, t: ThreadId) returns (m: Move)
    requires AllFit(w) && t < |w.clients| && InCall(w, t) && !w.pool.threads[t].Sleeping?
    ensures CarriesOn(m) && CanMove(w, m)
  {
    assert ClientFits(w, t);
    if w.pool.threads[t].Running? {
      if w.clients[t].lease.Some? {
        m := PoolStep(Destroy(t, w.clients[t].lease.value));
      } else {
        m := PoolStep(Enter(t));
      }
    } else {
      assert Busy(w.pool, t);
      var step := BusyThreadsCanMove(w.pool, t);
      m := PoolStep(step);
    }
  }

  /**
   In every interleaving of any threads' calls of any `Database` methods on a
   non-empty pool: as long as a thread is in a call, asleep or not, some thread can
   carry its call on.
   */
  lemma DatabaseCallsNeverDeadlock(init: World, poolSize: nat, moves: seq<Move>, t: ThreadId) returns (m: Move)
    requires InitWorld(init, poolSize) && poolSize > 0 && Ready(init) && LegalMoves(init, moves)
    ensures var w := ReachWorld(init, moves);
            Ready(w) && (t < |w.clients| && InCall(w, t) ==> CarriesOn(m) && CanMove(w, m))
  {
    var w := ReachWorld(init, moves);
    InitFits(init, poolSize);
    CallsAreDisciplined(init, moves);
    m := PoolStep(Enter(t));
    if t < |w.clients| && InCall(w, t) {
      if w.pool.threads[t].Sleeping? {
        WaitersNeverDeadlock(init.pool, poolSize, StepsOf(moves));
        var busy: ThreadId :| Busy(w.pool, busy);
        BusyIsInCall(w, busy);
        m := AwakeCanMove(w, busy);
      } else {
        m := AwakeCanMove(w, t);
      }
    }
  }

  lemma BusyIsInCall(w: World, t: ThreadId)
    requires AllFit(w) && Busy(w.pool, t)
    ensures t < |w.clients| && InCall(w, t)
  {
    assert ClientFits(w, t);
  }

  // ----- and no call goes on forever

  function Work(c: Client): int {
    8 * Acquires(c.script)
  }

  function WorldPotential(w: World): int {
    Potential(w.pool) + Sum(w.clients, Work)
  }

  /** How many moves a move pays for, counting itself. */
  function Pays(m: Move): int {
    match m
    case Begin(_, _) => 17
    case PoolStep(step) => if step.WakeSpuriously? then 2 else 0
  }

  lemma WorkAfter(w: World, m: Move)
    requires AllFit(w) && CanMove(w, m)
    ensures Sum(NextClients(w, m), Work)
         <= Sum(w.clients, Work) + (if m.Begin? then 16 else if m.step.Enter? then -8 else 0)
  {
    match m
    case Begin(t, callee) =>
      MethodsNeverNest(callee);
      SumUpdate(w.clients, t, Client(Program(callee), None), Work);
    case PoolStep(step) =>
      var t := step.thread;
      var c := w.clients[t];
      match step
      case Enter(_) => SumUpdate(w.clients, t, c.(script := c.script[1..]), Work);
      case TakeOrSleep(_) => SumUpdate(w.clients, t, c.(lease := Some(|w.pool.leases|)), Work);
      case Destroy(_, _) => SumUpdate(w.clients, t, Client(c.script[1..], None), Work);
      case _ =>
  }

  lemma MoveLowersPotential(w: World, m: Move)
    requires AllFit(w) && CanMove(w, m)
    ensures WorldPotential(AfterMove(w, m)) + 1 <= WorldPotential(w) + Pays(m)
  {
    WorkAfter(w, m);
    if m.PoolStep? {
      StepLowersPotential(w.pool, m.step);
    }
  }

  lemma {:induction false} MovesAreBounded(w: World, moves: seq<Move>)
    requires AllFit(w) && LegalMoves(w, moves)
    ensures |moves| + WorldPotential(ReachWorld(w, moves)) <= WorldPotential(w) + Sum(moves, Pays)
    decreases |moves|
  {
    if moves != [] {
      MoveKeepsFit(w, moves[0]);
      MoveLowersPotential(w, moves[0]);
      MovesAreBounded(AfterMove(w, moves[0]), moves[1..]);
      SumHead(moves, Pays);
    }
  }

  /**
   Every run of calls is bounded: at most seventeen moves for each call begun and
   two for each spurious wakeup.
   */
  lemma DatabaseCallsEnd(init: World, poolSize: nat, moves: seq<Move>)
    requires InitWorld(init, poolSize) && Ready(init) && LegalMoves(init, moves)
    ensures |moves| <= Sum(moves, Pays)
  {
    InitFits(init, poolSize);
    MovesAreBounded(init, moves);
    NoPotential(init.pool, poolSize);
    NoneSum(init.clients, Work);
    PotentialBounds(ReachWorld(init, moves).pool);
    SumBounds(ReachWorld(init, moves).clients, Work);
  }

  lemma {:induction false} MovesAppend(w: World, a: seq<Move>, b: seq<Move>)
    requires Ready(w) && LegalMoves(w, a) && Ready(ReachWorld(w, a)) && LegalMoves(ReachWorld(w, a), b)
    ensures LegalMoves(w, a + b) && ReachWorld(w, a + b) == ReachWorld(ReachWorld(w, a), b)
    decreases |a|
  {
    if a == [] {
      assert a + b == b;
    } else {
      assert (a + b)[0] == a[0] && (a + b)[1..] == a[1..] + b;
      MoveKeepsReady(w, a[0]);
      MovesAppend(AfterMove(w, a[0]), a[1..], b);
    }
  }

  lemma {:induction false} NothingPaid(moves: seq<Move>)
    requires forall i | 0 <= i < |moves| :: CarriesOn(moves[i])
    ensures Sum(moves, Pays) == 0
  {
    NoneSum(moves, Pays);
  }

  /**
   Once no new calls begin, and apart from spurious wakeups, every call comes to
   its end: wherever a run of calls has led to, every continuation that only carries
   calls on is bounded, and when it can go no further no thread is in a call.
   */
  lemma CallsEndOnceNoneBegin(init: World, poolSize: nat, moves: seq<Move>, more: seq<Move>)
    requires InitWorld(init, poolSize) && poolSize > 0 && Ready(init) && LegalMoves(init, moves)
    requires Ready(ReachWorld(init, moves)) && LegalMoves(ReachWorld(init, moves), more)
    requires forall i | 0 <= i < |more| :: CarriesOn(more[i])
    ensures |more| <= WorldPotential(ReachWorld(init, moves))
    ensures var w := ReachWorld(ReachWorld(init, moves), more);
            && Ready(w)
            && ((forall m | CarriesOn(m) :: !CanMove(w, m)) ==> forall t: ThreadId | t < |w.clients| :: !InCall(w, t))
  {
    var w := ReachWorld(init, moves);
    InitFits(init, poolSize);
    CallsAreDisciplined(init, moves);
    BoundedByPotential(w, more);
    CallsAreDisciplined(w, more);
    MovesAppend(init, moves, more);
    var last := ReachWorld(w, more);
    if forall m | CarriesOn(m) :: !CanMove(last, m) {
      forall t: ThreadId | t < |last.clients| ensures !InCall(last, t) {
        if InCall(last, t) {
          var m := DatabaseCallsNeverDeadlock(init, poolSize, moves + more, t);
        }
      }
    }
  }

  lemma BoundedByPotential(w: World, more: seq<Move>)
    requires AllFit(w) && LegalMoves(w, more) && forall i | 0 <= i < |more| :: CarriesOn(more[i])
    ensures |more| <= WorldPotential(w)
  {
    CallsAreDisciplined(w, more);
    MovesAreBounded(w, more);
    NothingPaid(more);
    PotentialBounds(ReachWorld(w, more).pool);
    SumBounds(ReachWorld(w, more).clients, Work);
  }
}
