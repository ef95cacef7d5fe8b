/**
 Threads that use the connection pool the way the `Database` methods do. A
 method's body, as far as the pool sees it, acquires a connection for a scope and
 calls other methods; any number of threads run any methods one after the other.
 */
module DatabaseCalls {
  import opened Options
  import opened ConnectionPool

  // ----- the methods

  /** The methods of `Database`; the flags say which way a method branches where that matters to the pool. */
  datatype Method =
    | Ping
    | HashPassword
    | VerifyPassword
    | HashInTransaction
    | VerifyInTransaction
    | Audit
    | RegisterUser(valid: bool)
    | LoginUser
    | LogoutUser
    | GetUserId
    | GetUserByLogin
    | ListUsers
    | SendMessage(valid: bool)
    | GetInbox
    | GetHistory(found: bool)
    | GetAllMessages
    | HasModeratorRights
    | BanUser
    | UnbanUser
    | KickUser
    | MarkUserOffline

  /** What a body does with the pool: a lease begins, a lease ends. */
  datatype Op = Acquire | Release

  datatype Statement = Do(op: Op) | Invoke(callee: Method)

  /** Methods call only methods of lower rank. */
  function Rank(m: Method): nat {
    match m
    case HashInTransaction => 0
    case VerifyInTransaction => 0
    case Audit => 0
    case GetHistory(_) => 2
    case _ => 1
  }

  predicate CallsBelow(code: seq<Statement>, rank: nat) {
    forall i | 0 <= i < |code| && code[i].Invoke? :: Rank(code[i].callee) < rank
  }

  /**
   The bodies. The helpers that are handed a transaction use the connection of
   their caller; a return or an exception inside a scope ends the lease as well.
   */
  function Body(m: Method): (code: seq<Statement>)
    ensures CallsBelow(code, Rank(m))
  {
    match m
    case HashInTransaction => []
    case VerifyInTransaction => []
    case Audit => []
    case HashPassword => [Do(Acquire), Invoke(HashInTransaction), Do(Release)]
    case VerifyPassword => [Do(Acquire), Invoke(VerifyInTransaction), Do(Release)]
    case RegisterUser(valid) =>
      if valid then [Do(Acquire), Invoke(HashInTransaction), Invoke(Audit), Do(Release)] else []
    case LoginUser => [Do(Acquire), Invoke(VerifyInTransaction), Invoke(Audit), Do(Release)]
    case SendMessage(valid) => if valid then [Do(Acquire), Do(Release)] else []
    case GetHistory(found) => [Invoke(GetUserId)] + if found then [Do(Acquire), Do(Release)] else []
    case BanUser => [Do(Acquire), Invoke(Audit), Do(Release)]
    case UnbanUser => [Do(Acquire), Invoke(Audit), Do(Release)]
    case KickUser => [Do(Acquire), Invoke(Audit), Do(Release)]
    case _ => [Do(Acquire), Do(Release)]
  }

  /** A body with its calls carried out. */
  function Expand(code: seq<Statement>, rank: nat): seq<Op>
    requires CallsBelow(code, rank)
    decreases rank, |code|
  {
    if code == [] then []
    else
      (match code[0]
       case Do(op) => [op]
       case Invoke(callee) => Expand(Body(callee), Rank(callee)))
      + Expand(code[1..], rank)
  }

  /** What a call of the method does with the pool. */
  function Program(m: Method): seq<Op> {
    Expand(Body(m), Rank(m))
  }

  /** One lease after the other, never one inside another. */
  predicate Alternates(ops: seq<Op>) {
    ops == [] || (|ops| >= 2 && ops[0] == Acquire && ops[1] == Release && Alternates(ops[2..]))
  }

  function Acquires(ops: seq<Op>): nat {
    if ops == [] then 0 else (if ops[0] == Acquire then 1 else 0) + Acquires(ops[1..])
  }

  lemma SilentHelpers(m: Method)
    requires Rank(m) == 0
    ensures Program(m) == []
  {
  }

  /** A scope whose statements do nothing with the pool. */
  lemma {:induction false} OneScope(inner: seq<Statement>, rank: nat)
    requires CallsBelow(inner, rank) && forall i | 0 <= i < |inner| :: inner[i].Invoke? && Rank(inner[i].callee) == 0
    ensures CallsBelow(inner + [Do(Release)], rank) && Expand(inner + [Do(Release)], rank) == [Release]
  {
    var code := inner + [Do(Release)];
    if inner == [] {
      assert code == [Do(Release)] && code[1..] == [];
    } else {
      SilentHelpers(inner[0].callee);
      OneScope(inner[1..], rank);
      assert code[1..] == inner[1..] + [Do(Release)];
    }
  }

  lemma Scope(inner: seq<Statement>, rank: nat)
    requires CallsBelow(inner, rank) && forall i | 0 <= i < |inner| :: inner[i].Invoke? && Rank(inner[i].callee) == 0
    ensures var code := [Do(Acquire)] + (inner + [Do(Release)]);
            CallsBelow(code, rank) && Expand(code, rank) == [Acquire, Release]
  {
    var code := [Do(Acquire)] + (inner + [Do(Release)]);
    OneScope(inner, rank);
    assert code[1..] == inner + [Do(Release)];
  }

  /** The methods that acquire once. */
  lemma SimpleProgram(m: Method)
    requires Rank(m) == 1 && Body(m) != []
    ensures Program(m) == [Acquire, Release]
  {
    var code := Body(m);
    var inner := code[1..|code| - 1];
    assert code == [Do(Acquire)] + (inner + [Do(Release)]);
    Scope(inner, 1);
  }

  lemma HistoryProgram(found: bool)
    ensures Program(GetHistory(found)) == if found then [Acquire, Release, Acquire, Release] else [Acquire, Release]
  {
    var code := Body(GetHistory(found));
    var rest := code[1..];
    SimpleProgram(GetUserId);
    assert code[0] == Invoke(GetUserId);
    assert Program(GetHistory(found)) == [Acquire, Release] + Expand(rest, 2);
    if found {
      Scope([], 2);
      assert rest == [Do(Acquire)] + ([] + [Do(Release)]);
    } else {
      assert rest == [];
    }
  }

  lemma OnceAndTwice()
    ensures Alternates([Acquire, Release]) && Acquires([Acquire, Release]) == 1
    ensures Alternates([Acquire, Release, Acquire, Release]) && Acquires([Acquire, Release, Acquire, Release]) == 2
  {
    var once, twice := [Acquire, Release], [Acquire, Release, Acquire, Release];
    assert once[2..] == [] && once[1..] == [Release] && [Release][1..] == [];
    assert Acquires([Release]) == 0 && Acquires(once) == 1;
    var rest := [Release, Acquire, Release];
    assert twice[2..] == once && twice[1..] == rest && rest[1..] == once;
    assert Acquires(rest) == 1;
  }

  /** No method of `Database` acquires while it holds a connection, and none acquires more than twice. */
  lemma MethodsNeverNest(m: Method)
    ensures Alternates(Program(m)) && Acquires(Program(m)) <= 2
  {
    OnceAndTwice();
    if Rank(m) == 0 {
      SilentHelpers(m);
    } else if m.GetHistory? {
      HistoryProgram(m.found);
    } else if Body(m) != [] {
      SimpleProgram(m);
    }
  }

  // ----- threads that call methods

  /** What a thread still has to do in its current call, and the lease it holds. */
  datatype Client = Client(script: seq<Op>, lease: Option<LeaseId>)

  datatype World = World(pool: State, clients: seq<Client>)

  datatype Move = Begin(caller: ThreadId, callee: Method) | PoolStep(step: Step)

  const IDLE: Client := Client([], None)

  ghost predicate InitWorld(w: World, poolSize: nat) {
    && Init(w.pool, poolSize) && |w.clients| == |w.pool.threads|
    && forall t | 0 <= t < |w.clients| :: w.clients[t] == IDLE
  }

  predicate Next(c: Client, op: Op) {
    c.script != [] && c.script[0] == op
  }

  predicate Ready(w: World) {
    WellFormed(w.pool) && |w.clients| == |w.pool.threads|
  }

  /** Threads enter and leave the pool as their methods say, and never move a lease. */
  predicate CanMove(w: World, m: Move)
    requires Ready(w)
  {
    match m
    case Begin(t, _) => t < |w.clients| && w.pool.threads[t].Running? && w.clients[t] == IDLE
    case PoolStep(step) =>
      && Enabled(w.pool, step)
      && (match step
          case Enter(t) => Next(w.clients[t], Acquire)
          case Destroy(t, l) => Next(w.clients[t], Release) && w.clients[t].lease == Some(l)
          case MoveConstruct(_, _) => false
          case MoveAssign(_, _, _) => false
          case _ => true)
  }

  function NextClients(w: World, m: Move): seq<Client>
    requires Ready(w) && CanMove(w, m)
  {
    match m
    case Begin(t, callee) => w.clients[t := Client(Program(callee), None)]
    case PoolStep(step) =>
      (match step
       case Enter(t) => w.clients[t := w.clients[t].(script := w.clients[t].script[1..])]
       case TakeOrSleep(t) =>
         if w.pool.available == [] then w.clients
         else w.clients[t := w.clients[t].(lease := Some(|w.pool.leases|))]
       case Destroy(t, _) => w.clients[t := Client(w.clients[t].script[1..], None)]
       case _ => w.clients)
  }

  function AfterMove(w: World, m: Move): World
    requires Ready(w) && CanMove(w, m)
  {
    World(if m.PoolStep? then After(w.pool, m.step) else w.pool, NextClients(w, m))
  }

  lemma MoveKeepsReady(w: World, m: Move)
    requires Ready(w) && CanMove(w, m)
    ensures Ready(AfterMove(w, m))
  {
    if m.PoolStep? {
      StepKeepsWellFormed(w.pool, m.step);
    }
  }

  ghost predicate LegalMoves(w: World, moves: seq<Move>)
    requires Ready(w)
    decreases |moves|
  {
    moves == [] ||
    (CanMove(w, moves[0]) && (MoveKeepsReady(w, moves[0]); LegalMoves(AfterMove(w, moves[0]), moves[1..])))
  }

  ghost function ReachWorld(w: World, moves: seq<Move>): World
    requires Ready(w) && LegalMoves(w, moves)
    decreases |moves|
  {
    if moves == [] then w else MoveKeepsReady(w, moves[0]); ReachWorld(AfterMove(w, moves[0]), moves[1..])
  }
}
