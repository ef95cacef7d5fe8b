/**
 The worker pool: a FIFO queue of tasks, worker threads that sleep on a
 condition variable, and a destructor that announces the shutdown, wakes
 everybody and joins.

 One step is one section under the queue mutex, one notification, the end of a
 task, or the end of the join. Spurious wakeups are steps too.
 */
module ThreadPool {
  import opened Options
  import opened Counting

  type Task = nat
  type WorkerId = nat

  datatype Worker =
    | Ready                  // about to take the mutex and test the predicate
    | Sleeping
    | Woken
    | Running(task: Task)
    | Exited

  datatype Shutdown =
    | Alive
    | Announced              // stop_ is set, notify_all not yet called
    | Joining
    | Joined

  /** `accepted`, `started` and `finished` record the history of tasks. */
  datatype State = State(
    tasks: seq<Task>,
    stop: bool,
    workers: seq<Worker>,
    notifies: nat,
    shutdown: Shutdown,
    accepted: seq<Task>,
    started: seq<Task>,
    finished: seq<Task>)

  datatype Step =
    | Enqueue(task: Task)
    | NotifyOne(woken: Option<WorkerId>)
    | TakeOrSleep(worker: WorkerId)
    | WakeSpuriously(worker: WorkerId)
    | Finish(worker: WorkerId)
    | AnnounceStop
    | NotifyAll
    | Join

  ghost predicate Init(s: State) {
    && (forall i | 0 <= i < |s.workers| :: s.workers[i] == Ready)
    && s == State([], false, s.workers, 0, Alive, [], [], [])
  }

  predicate Enabled(s: State, step: Step) {
    match step
    case Enqueue(_) => !s.shutdown.Joined?
    case NotifyOne(woken) =>
      && s.notifies > 0
      && (match woken
          case Some(w) => w < |s.workers| && s.workers[w].Sleeping?
          case None => forall w | w in s.workers :: !w.Sleeping?)
    case TakeOrSleep(w) => w < |s.workers| && (s.workers[w].Ready? || s.workers[w].Woken?)
    case WakeSpuriously(w) => w < |s.workers| && s.workers[w].Sleeping?
    case Finish(w) => w < |s.workers| && s.workers[w].Running?
    case AnnounceStop => s.shutdown.Alive?
    case NotifyAll => s.shutdown.Announced?
    case Join => s.shutdown.Joining? && AllExited(s.workers)
  }

  predicate AllExited(workers: seq<Worker>) {
    forall i | 0 <= i < |workers| :: workers[i].Exited?
  }

  function WakeAll(workers: seq<Worker>): (woken: seq<Worker>)
    ensures |woken| == |workers|
    ensures forall i | 0 <= i < |workers| ::
              woken[i] == if workers[i].Sleeping? then Woken else workers[i]
  {
    if workers == [] then []
    else
      var last := workers[|workers| - 1];
      WakeAll(workers[..|workers| - 1]) + [if last.Sleeping? then Woken else last]
  }

  function After(s: State, step: Step): State
    requires Enabled(s, step)
  {
    match step
    case Enqueue(task) =>
      if s.stop then s // throws, nothing is queued
      else s.(tasks := s.tasks + [task], accepted := s.accepted + [task], notifies := s.notifies + 1)
    case NotifyOne(woken) =>
      var t := s.(notifies := s.notifies - 1);
      if woken.Some? then t.(workers := s.workers[woken.value := Woken]) else t
    case TakeOrSleep(w) =>
      if !s.stop && s.tasks == [] then s.(workers := s.workers[w := Sleeping])
      else if s.tasks == [] then s.(workers := s.workers[w := Exited])
      else s.(workers := s.workers[w := Running(s.tasks[0])],
              tasks := s.tasks[1..], started := s.started + [s.tasks[0]])
    case WakeSpuriously(w) => s.(workers := s.workers[w := Woken])
    case Finish(w) =>
      s.(workers := s.workers[w := Ready], finished := s.finished + [s.workers[w].task])
    case AnnounceStop => s.(stop := true, shutdown := Announced)
    case NotifyAll => s.(workers := WakeAll(s.workers), shutdown := Joining)
    case Join => s.(shutdown := Joined)
  }

  ghost predicate Legal(s: State, steps: seq<Step>)
    decreases |steps|
  {
    steps == [] || (Enabled(s, steps[0]) && Legal(After(s, steps[0]), steps[1..]))
  }

  ghost function Reach(s: State, steps: seq<Step>): State
    requires Legal(s, steps)
    decreases |steps|
  {
    if steps == [] then s else Reach(After(s, steps[0]), steps[1..])
  }

  // ----- sums over the workers

  function IsSleeping(w: Worker): int { if w.Sleeping? then 1 else 0 }
  function IsWoken(w: Worker): int { if w.Woken? then 1 else 0 }
  function Runs(task: Task): Worker -> int {
    (w: Worker) => if w == Running(task) then 1 else 0
  }

  /** The worker whose state a step changes. */
  function Mover(step: Step): Option<WorkerId> {
    match step
    case NotifyOne(woken) => woken
    case TakeOrSleep(w) => Some(w)
    case WakeSpuriously(w) => Some(w)
    case Finish(w) => Some(w)
    case _ => None
  }

  lemma WorkersAfter(s: State, step: Step, f: Worker -> int)
    requires Enabled(s, step) && !step.NotifyAll?
    ensures Sum(After(s, step).workers, f) == Sum(s.workers, f) +
              (match Mover(step)
               case Some(w) => f(After(s, step).workers[w]) - f(s.workers[w])
               case None => 0)
  {
    if Mover(step).Some? {
      var w := Mover(step).value;
      SumUpdate(s.workers, w, After(s, step).workers[w], f);
      assert After(s, step).workers == s.workers[w := After(s, step).workers[w]];
    }
  }

  lemma {:induction false} WakeAllSums(workers: seq<Worker>, f: Worker -> int)
    requires f(Sleeping) <= f(Woken) <= f(Sleeping) + 1
    ensures Sum(WakeAll(workers), f) <= Sum(workers, f) + |workers|
    ensures f(Sleeping) == f(Woken) ==> Sum(WakeAll(workers), f) == Sum(workers, f)
  {
    if workers != [] {
      var front, last := workers[..|workers| - 1], workers[|workers| - 1];
      WakeAllSums(front, f);
      SumAppend(WakeAll(front), if last.Sleeping? then Woken else last, f);
    }
  }

  // ----- invariants

  ghost predicate QueueIsFifo(s: State) {
    s.accepted == s.started + s.tasks
  }

  ghost predicate StartedIsRunningOrDone(s: State, task: Task) {
    multiset(s.started)[task] == multiset(s.finished)[task] + Sum(s.workers, Runs(task))
  }

  ghost predicate ShutdownShape(s: State) {
    && (s.stop <==> !s.shutdown.Alive?)
    && (forall i | 0 <= i < |s.workers| && s.workers[i].Exited? :: s.stop && s.tasks == [])
    && (s.shutdown.Joined? ==> AllExited(s.workers))
  }

  /** Nobody sleeps through work or through the shutdown. */
  ghost predicate NoLostWakeup(s: State) {
    Sum(s.workers, IsSleeping) > 0 ==>
      if s.stop then s.shutdown.Announced?
      else |s.tasks| <= Sum(s.workers, IsWoken) + s.notifies
  }

  lemma StepKeepsQueue(s: State, step: Step)
    requires Enabled(s, step) && QueueIsFifo(s)
    ensures QueueIsFifo(After(s, step))
  {
    if step.TakeOrSleep? && s.tasks != [] {
      assert s.tasks == [s.tasks[0]] + s.tasks[1..];
    }
  }

  lemma StepKeepsHistory(s: State, step: Step, task: Task)
    requires Enabled(s, step) && StartedIsRunningOrDone(s, task)
    ensures StartedIsRunningOrDone(After(s, step), task)
  {
    if step.NotifyAll? {
      WakeAllSums(s.workers, Runs(task));
    } else {
      WorkersAfter(s, step, Runs(task));
      HistoryAfter(s, step, task);
    }
  }

  lemma HistoryAfter(s: State, step: Step, task: Task)
    requires Enabled(s, step) && !step.NotifyAll?
    ensures var s' := After(s, step);
            multiset(s'.started)[task] + multiset(s.finished)[task]
            == multiset(s.started)[task] + multiset(s'.finished)[task] +
                 (match Mover(step)
                  case Some(w) => Runs(task)(s'.workers[w]) - Runs(task)(s.workers[w])
                  case None => 0)
  {
  }

  lemma StepKeepsShutdown(s: State, step: Step)
    requires Enabled(s, step) && ShutdownShape(s)
    ensures ShutdownShape(After(s, step))
  {
  }

  lemma StepKeepsWakeups(s: State, step: Step)
    requires Enabled(s, step) && NoLostWakeup(s) && ShutdownShape(s)
    ensures NoLostWakeup(After(s, step))
  {
    var s' := After(s, step);
    SumBounds(s'.workers, IsWoken);
    if step.NotifyAll? {
      NoneSum(s'.workers, IsSleeping);
    } else {
      WorkersAfter(s, step, IsSleeping);
      WorkersAfter(s, step, IsWoken);
      if step.NotifyOne? && step.woken.None? {
        NoneSum(s.workers, IsSleeping);
      } else if step.Join? {
        NoneSum(s.workers, IsSleeping);
      }
    }
  }

  ghost predicate Inv(s: State, task: Task) {
    QueueIsFifo(s) && StartedIsRunningOrDone(s, task) && ShutdownShape(s) && NoLostWakeup(s)
  }

  lemma InitialInv(s: State, task: Task)
    requires Init(s)
    ensures Inv(s, task)
  {
    NoneSum(s.workers, Runs(task));
    NoneSum(s.workers, IsSleeping);
  }

  lemma {:induction false} RunKeepsInv(s: State, steps: seq<Step>, task: Task)
    requires Inv(s, task) && Legal(s, steps)
    ensures Inv(Reach(s, steps), task) && |Reach(s, steps).workers| == |s.workers|
    decreases |steps|
  {
    if steps != [] {
      StepKeepsQueue(s, steps[0]);
      StepKeepsHistory(s, steps[0], task);
      StepKeepsShutdown(s, steps[0]);
      StepKeepsWakeups(s, steps[0]);
      RunKeepsInv(After(s, steps[0]), steps[1..], task);
    }
  }

  // ----- main results

  /** At every moment the started tasks are a prefix of the accepted ones, in order and without repetition. */
  lemma TasksStartOnceInOrder(init: State, steps: seq<Step>)
    requires Init(init) && Legal(init, steps)
    ensures var s := Reach(init, steps); s.started <= s.accepted && s.tasks == s.accepted[|s.started|..]
  {
    InitialInv(init, 0);
    RunKeepsInv(init, steps, 0);
  }

  /** The tasks handed to `enqueue` before the shutdown was announced, in order. */
  function Submitted(steps: seq<Step>): seq<Task> {
    if steps == [] || steps[0].AnnounceStop? then []
    else (if steps[0].Enqueue? then [steps[0].task] else []) + Submitted(steps[1..])
  }

  /** The accepted tasks are exactly these; after the announcement `enqueue` throws. */
  lemma AcceptedAreSubmitted(init: State, steps: seq<Step>)
    requires Init(init) && Legal(init, steps)
    ensures Reach(init, steps).accepted == Submitted(steps)
  {
    AcceptedSince(init, steps);
  }

  lemma AppendAssoc(a: seq<Task>, b: seq<Task>, c: seq<Task>)
    ensures (a + b) + c == a + (b + c)
  {
  }

  lemma AcceptedNow(s: State, step: Step)
    requires Enabled(s, step)
    ensures After(s, step).stop == (s.stop || step.AnnounceStop?)
    ensures After(s, step).accepted == s.accepted + (if step.Enqueue? && !s.stop then [step.task] else [])
  {
  }

  lemma {:induction false} AcceptedSince(s: State, steps: seq<Step>)
    requires Legal(s, steps)
    ensures Reach(s, steps).accepted == s.accepted + (if s.stop then [] else Submitted(steps))
    decreases |steps|
  {
    if steps != [] {
      var s', head := After(s, steps[0]), if steps[0].Enqueue? && !s.stop then [steps[0].task] else [];
      AcceptedNow(s, steps[0]);
      AcceptedSince(s', steps[1..]);
      AppendAssoc(s.accepted, head, if s'.stop then [] else Submitted(steps[1..]));
    }
  }

  /**
   When the destructor has joined its workers, every accepted task has been
   started and has finished, exactly if there is a worker at all or nothing was
   accepted.
   */
  lemma DestructorDrains(init: State, steps: seq<Step>)
    requires Init(init) && Legal(init, steps) && Reach(init, steps).shutdown.Joined?
    ensures var s := Reach(init, steps);
            (s.started == s.accepted && multiset(s.finished) == multiset(s.accepted))
              <==> (|init.workers| > 0 || s.accepted == [])
  {
    var s := Reach(init, steps);
    InitialInv(init, 0);
    RunKeepsInv(init, steps, 0);
    if |s.workers| > 0 || s.accepted == [] {
      assert |s.workers| > 0 ==> s.workers[0].Exited?;
      AllDone(init, steps);
    } else {
      NothingStartsWithoutWorkers(init, steps);
    }
  }

  lemma AllDone(init: State, steps: seq<Step>)
    requires Init(init) && Legal(init, steps) && Reach(init, steps).shutdown.Joined?
    requires Reach(init, steps).tasks == []
    ensures var s := Reach(init, steps);
            s.started == s.accepted && multiset(s.finished) == multiset(s.accepted)
  {
    var s := Reach(init, steps);
    forall task: Task ensures multiset(s.finished)[task] == multiset(s.started)[task] {
      InitialInv(init, task);
      RunKeepsInv(init, steps, task);
      NoneSum(s.workers, Runs(task));
    }
    InitialInv(init, 0);
    RunKeepsInv(init, steps, 0);
    assert s.started + [] == s.started;
  }

  lemma {:induction false} NothingStartsWithoutWorkers(s: State, steps: seq<Step>)
    requires s.workers == [] && s.started == [] && Legal(s, steps)
    ensures Reach(s, steps).started == []
    decreases |steps|
  {
    if steps != [] {
      NothingStartsWithoutWorkers(After(s, steps[0]), steps[1..]);
    }
  }

  // ----- progress

  /** Steps that the pool takes by itself, as opposed to its callers and to spurious wakeups. */
  predicate Productive(step: Step) {
    !(step.Enqueue? || step.WakeSpuriously? || step.AnnounceStop?)
  }

  /** With a worker, queued work or an announced shutdown always lets the pool move. */
  lemma WorkIsNeverStuck(init: State, steps: seq<Step>) returns (step: Step)
    requires Init(init) && |init.workers| > 0 && Legal(init, steps)
    requires var s := Reach(init, steps); s.tasks != [] || (s.stop && !s.shutdown.Joined?)
    ensures Productive(step) && Enabled(Reach(init, steps), step)
  {
    var s := Reach(init, steps);
    InitialInv(init, 0);
    RunKeepsInv(init, steps, 0);
    if w: WorkerId :| w < |s.workers| && (s.workers[w].Ready? || s.workers[w].Woken?) {
      step := TakeOrSleep(w);
    } else if w: WorkerId :| w < |s.workers| && s.workers[w].Running? {
      step := Finish(w);
    } else if s.shutdown.Announced? {
      step := NotifyAll;
    } else if w: WorkerId :| w < |s.workers| && s.workers[w].Sleeping? {
      SumBounds(s.workers, IsSleeping);
      NoneSum(s.workers, IsWoken);
      step := NotifyOne(Some(w));
    } else {
      step := Join;
    }
  }

  function WorkerWeight(w: Worker): int {
    match w
    case Ready => 2
    case Sleeping => 1
    case Woken => 2
    case Running(_) => 3
    case Exited => 0
  }

  function ShutdownWeight(s: State): int {
    match s.shutdown
    case Alive => |s.workers| + 3
    case Announced => |s.workers| + 2
    case Joining => 1
    case Joined => 0
  }

  function Potential(s: State): int {
    Sum(s.workers, WorkerWeight) + 2 * |s.tasks| + 2 * s.notifies + ShutdownWeight(s)
  }

  function Allowance(step: Step): int {
    match step
    case Enqueue(_) => 5
    case WakeSpuriously(_) => 2
    case _ => 0
  }

  lemma StepLowersPotential(s: State, step: Step)
    requires Enabled(s, step)
    ensures Potential(After(s, step)) + 1 <= Potential(s) + Allowance(step)
  {
    if step.NotifyAll? {
      NotifyAllLowersPotential(s);
    } else {
      WorkersAfter(s, step, WorkerWeight);
      match step
      case Enqueue(_) =>
      case NotifyOne(_) =>
      case TakeOrSleep(_) => TakingLowersPotential(s, step);
      case WakeSpuriously(_) =>
      case Finish(_) =>
      case AnnounceStop =>
      case Join =>
    }
  }

  lemma NotifyAllLowersPotential(s: State)
    requires Enabled(s, NotifyAll)
    ensures Potential(After(s, NotifyAll)) + 1 <= Potential(s)
  {
    WakeAllSums(s.workers, WorkerWeight);
  }

  /** A worker that takes a task, goes to sleep or exits. */
  lemma TakingLowersPotential(s: State, step: Step)
    requires Enabled(s, step) && step.TakeOrSleep?
    ensures Potential(After(s, step)) + 1 <= Potential(s)
  {
    WorkersAfter(s, step, WorkerWeight);
  }

  lemma {:induction false} RunIsBounded(s: State, steps: seq<Step>)
    requires Legal(s, steps)
    ensures |steps| + Potential(Reach(s, steps)) <= Potential(s) + Sum(steps, Allowance)
    decreases |steps|
  {
    if steps != [] {
      StepLowersPotential(s, steps[0]);
      RunIsBounded(After(s, steps[0]), steps[1..]);
      SumHead(steps, Allowance);
    }
  }

  lemma {:induction false} AllReady(workers: seq<Worker>)
    requires forall i | 0 <= i < |workers| :: workers[i] == Ready
    ensures Sum(workers, WorkerWeight) == 2 * |workers|
  {
    if workers != [] {
      AllReady(workers[..|workers| - 1]);
    }
  }

  /**
   Every run ends: it has at most three steps for each worker, five for each
   enqueue and two for each spurious wakeup, and three more. Together with
   `WorkIsNeverStuck`, once nothing more is enqueued every queued task is taken, and
   an announced shutdown ends with all workers joined.
   */
  lemma EveryRunIsBounded(init: State, steps: seq<Step>)
    requires Init(init) && Legal(init, steps)
    ensures |steps| <= 3 * |init.workers| + 3 + Sum(steps, Allowance)
  {
    RunIsBounded(init, steps);
    AllReady(init.workers);
    SumBounds(Reach(init, steps).workers, WorkerWeight);
  }

  /** Without workers a shutdown leaves accepted tasks behind. */
  lemma NoWorkersNoDrain() returns (init: State, steps: seq<Step>)
    ensures Init(init) && Legal(init, steps)
    ensures var s := Reach(init, steps); s.shutdown.Joined? && s.accepted == [7] && s.finished == []
  {
    init := State([], false, [], 0, Alive, [], [], []);
    steps := [Enqueue(7), AnnounceStop, NotifyAll, Join];
    var s1 := init.(tasks := [7], accepted := [7], notifies := 1);
    var s2 := s1.(stop := true, shutdown := Announced);
    var s3 := s2.(shutdown := Joining);
    assert After(s3, Join) == s3.(shutdown := Joined);
    assert Legal(s3, steps[3..]);
    assert After(s2, NotifyAll) == s3;
    assert Legal(s2, steps[2..]);
    assert After(s1, AnnounceStop) == s2;
    assert Legal(s1, steps[1..]);
    assert After(init, Enqueue(7)) == s1;
  }
}
