/**
 What is left of "banned users cannot act" in the interleaved server: as long as
 no ban is outrun or abandoned, a handler of a banned user has lost its socket or
 is about to, and once it has, it acts at most on the command it had already read.
 */
module BannedActions {
  import opened Tables
  import opened Interleaving
  import opened InterleavingSafety
  import opened BanReach

  // ----- who is registered

  /** Logged in, not in the middle of a login or logout, and not unwound. */
  predicate Settled(me: Handler) {
    me.authed && !me.pc.Adding? && !me.pc.LoggingOut? && me.pc != Removing(ThenExit)
  }

  predicate SettledAreRegistered(s: State) {
    forall h | h in s.handlers && Settled(s.handlers[h]) :: h in SessionsOf(s, s.handlers[h].userId)
  }

  /** A handler's own step keeps its user while it stays settled. */
  lemma SettledBefore(s: State, step: Step, maxClients: int)
    requires Inv(s) && Enabled(s, step, maxClients) && !step.Admit? && !step.Count? && !step.Spawn?
    requires Settled(NextSelf(s, step, maxClients)) && !step.Add?
    ensures Settled(s.handlers[step.h]) && NextSelf(s, step, maxClients).userId == s.handlers[step.h].userId
    ensures !step.Remove?
  {
    assert PcFits(s.handlers[step.h]);
  }

  lemma StepKeepsSettled(s: State, step: Step, maxClients: int)
    requires Inv(s) && Enabled(s, step, maxClients) && SettledAreRegistered(s)
    ensures SettledAreRegistered(After(s, step, maxClients))
  {
    var s' := After(s, step, maxClients);
    forall h | h in s'.handlers && Settled(s'.handlers[h]) ensures h in SessionsOf(s', s'.handlers[h].userId) {
      HandlersAfter(s, step, maxClients, h);
      if step != Add(h) {
        if Moves(step, h) {
          SettledBefore(s, step, maxClients);
        }
        RegisteredStays(s, step, maxClients, h, s.handlers[h].userId);
      }
    }
  }

  /** In every interleaving, at every moment, every settled handler is registered for its user. */
  lemma {:induction false} SettledHandlersAreRegistered(init: State, steps: seq<Step>, maxClients: int, k: nat)
    requires Init(init) && Legal(init, steps, maxClients) && k <= |steps|
    ensures SettledAreRegistered(At(init, steps, k, maxClients))
    decreases k
  {
    if k > 0 {
      SettledHandlersAreRegistered(init, steps, maxClients, k - 1);
      AtStep(init, steps, k - 1, maxClients);
      StepKeepsSettled(At(init, steps, k - 1, maxClients), steps[k - 1], maxClients);
    }
  }

  // ----- what banned users can still do

  /** The handler's socket is shut, or some thread is going to shut it. */
  ghost predicate OnTheWayOut(s: State, h: HandlerId)
    requires h in s.handlers
  {
    s.handlers[h].open ==> exists g | g in s.handlers :: WillClose(s, g, h, s.handlers[h].userId)
  }

  lemma SettledIsOnTheWayOut(s: State, h: HandlerId)
    requires Inv(s) && SettledAreRegistered(s) && Covered(s)
    requires h in s.handlers && Settled(s.handlers[h]) && IsBanned(s.db, s.handlers[h].userId)
    ensures OnTheWayOut(s, h)
  {
    var user := s.handlers[h].userId;
    assert h in SessionsOf(s, user);
    if s.handlers[h].open {
      assert OpenForBanned(s, h, user);
      var g :| g in s.handlers && g !in {} && WillClose(s, g, h, user);
    }
  }

  /**
   In every interleaving in which no ban is outrun or abandoned, at every moment:
   a settled handler of a banned user, so in particular one that is about to store
   a message, to moderate, or to read its next command, has lost its socket or has
   a thread on its way to shut it.
   */
  lemma BannedHandlersAreOnTheWayOut(init: State, steps: seq<Step>, maxClients: int, k: nat, h: HandlerId)
    requires Init(init) && Legal(init, steps, maxClients) && k <= |steps|
    requires Never(init, steps, maxClients, (s, step) => Races(s, step))
    requires var s := At(init, steps, k, maxClients);
             h in s.handlers && Settled(s.handlers[h]) && IsBanned(s.db, s.handlers[h].userId)
    ensures OnTheWayOut(At(init, steps, k, maxClients), h)
  {
    AtStep(init, steps, k, maxClients);
    SettledHandlersAreRegistered(init, steps, maxClients, k);
    BansReachEverySession(init, steps, maxClients);
    SettledIsOnTheWayOut(At(init, steps, k, maxClients), h);
  }

  // ----- the last command

  /** The step stores or moderates in the name of the handler's user. */
  predicate Acts(step: Step, h: HandlerId) {
    (step.StoreCommit? || step.ModerateCommit?) && step.h == h
  }

  function ActsOf(steps: seq<Step>, h: HandlerId): nat {
    if steps == [] then 0 else (if Acts(steps[0], h) then 1 else 0) + ActsOf(steps[1..], h)
  }

  /** How many times a handler that can read no more can still act: on the command it has read. */
  function ActsLeft(pc: Pc): nat {
    if pc.Handling? || pc.Allowed? then 1 else 0
  }

  lemma ShutStepActs(s: State, step: Step, maxClients: int, h: HandlerId)
    requires Valid(s.db) && Enabled(s, step, maxClients)
    requires h in s.handlers && !s.handlers[h].open && step != Retire(h)
    ensures var s' := After(s, step, maxClients);
            && h in s'.handlers && !s'.handlers[h].open
            && ActsLeft(s'.handlers[h].pc) + (if Acts(step, h) then 1 else 0) <= ActsLeft(s.handlers[h].pc)
  {
    HandlersStay(s, step, maxClients, h);
    HandlersAfter(s, step, maxClients, h);
  }

  /**
   From every state, through every continuation: a handler whose socket has been
   shut acts at most once more before it is gone, and not at all unless it was in
   the middle of a command.
   */
  lemma {:induction false} ShutHandlersActAtMostOnce(s: State, steps: seq<Step>, maxClients: int, h: HandlerId)
    requires Valid(s.db) && Legal(s, steps, maxClients) && h in s.handlers && !s.handlers[h].open
    requires forall i | 0 <= i < |steps| :: steps[i] != Retire(h)
    ensures ActsOf(steps, h) <= ActsLeft(s.handlers[h].pc) <= 1
    decreases |steps|
  {
    if steps != [] {
      StepFollows(s, steps[0], maxClients);
      assert steps[0] != Retire(h);
      ShutStepActs(s, steps[0], maxClients, h);
      ShutHandlersActAtMostOnce(After(s, steps[0], maxClients), steps[1..], maxClients, h);
    }
  }
}
