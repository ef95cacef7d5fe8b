/**
 What the status `online` is worth in the interleaved server: at which steps
 exactly a user is left online with no session to show for it.
 */
module OnlineStatus {
  import opened Tables
  import opened Interleaving
  import opened InterleavingSafety

  predicate PendingLogin(me: Handler, user: int) {
    match me.pc
    case Joining(t) => t.id == user
    case Removing(ThenJoin(t)) => t.id == user
    case LoggingOut(ThenJoin(t)) => t.id == user
    case Adding => me.userId == user
    case _ => false
  }

  /** The handler accounts for its user being online: registered, on its way in, or on its way out. */
  predicate Justifies(s: State, h: HandlerId, user: int) {
    h in s.handlers &&
    (h in SessionsOf(s, user)
     || PendingLogin(s.handlers[h], user)
     || (s.handlers[h].pc.LoggingOut? && s.handlers[h].userId == user))
  }

  predicate IsOnline(s: State, user: int) {
    user in s.db.users && s.db.users[user].status == Online
  }

  /** Some handler but `except` accounts for the user. */
  ghost predicate Accounted(s: State, user: int, except: set<HandlerId>) {
    exists h | h in s.handlers && h !in except :: Justifies(s, h, user)
  }

  ghost predicate OnlineIsJustified(s: State) {
    forall user | IsOnline(s, user) :: Accounted(s, user, {})
  }

  // ----- the steps that fail

  /**
   The step takes away what its own handler had to show for the user: it unwinds a
   handler that is not registered, on its way in or out, or it is a logout that
   fails and is not on the way to another login as the same user.
   */
  predicate GivesUp(s: State, step: Step, user: int) {
    match step
    case Crash(h) => Justifies(s, h, user) && h !in SessionsOf(s, user)
    case CrashInAdd(h) => Justifies(s, h, user)
    case LogoutCommit(h, _, up) =>
      !up && h in s.handlers && s.handlers[h].userId == user && !PendingLogin(s.handlers[h], user)
    case _ => false
  }

  /** The step leaves somebody online whom no other handler accounts for. */
  ghost predicate Orphans(s: State, step: Step) {
    exists user :: IsOnline(s, user) && GivesUp(s, step, user) && !Accounted(s, user, {step.h})
  }

  // ----- one step

  /** Only a login makes a user online. */
  lemma OnlyLoginMakesOnline(s: State, step: Step, maxClients: int, user: int)
    requires Valid(s.db) && Enabled(s, step, maxClients) && IsOnline(After(s, step, maxClients), user)
    ensures (IsOnline(s, user) && !(step.LogoutCommit? && step.up && s.handlers[step.h].userId == user))
            || (step.LoginCommit? && PendingLogin(NextSelf(s, step, maxClients), user))
  {
  }

  /** What a handler's own step does to its pending login or logout. */
  lemma PendingMovesOn(s: State, step: Step, maxClients: int, h: HandlerId, user: int)
    requires Inv(s) && Enabled(s, step, maxClients) && Moves(step, h) && step != Retire(h)
    requires PendingLogin(s.handlers[h], user) || (s.handlers[h].pc.LoggingOut? && s.handlers[h].userId == user)
    requires h !in SessionsOf(s, user) && !GivesUp(s, step, user)
    requires !(step.LogoutCommit? && step.up && s.handlers[h].userId == user && !PendingLogin(s.handlers[h], user))
    ensures var me := NextSelf(s, step, maxClients);
            PendingLogin(me, user) || (me.pc.LoggingOut? && me.userId == user)
            || h in SessionsOf(After(s, step, maxClients), user)
  {
    assert PcFits(s.handlers[h]);
    match s.handlers[h].pc
    case Joining(_) => assert step == SetFields(h);
    case Removing(_) => assert step == Remove(h);
    case LoggingOut(_) => assert step.LogoutCommit?;
    case Adding => assert step == Add(h);
  }

  lemma JustifiedStays(s: State, step: Step, maxClients: int, h: HandlerId, user: int)
    requires Inv(s) && Enabled(s, step, maxClients) && Justifies(s, h, user)
    requires Moves(step, h) ==> !GivesUp(s, step, user)
    requires !(step.LogoutCommit? && step.up && s.handlers[step.h].userId == user)
    ensures Justifies(After(s, step, maxClients), h, user)
  {
    assert PcFits(s.handlers[h]);
    HandlersStay(s, step, maxClients, h);
    if h in SessionsOf(s, user) {
      assert Enrolled(s.handlers[h], user);
      if step != Remove(h) {
        RegisteredStays(s, step, maxClients, h, user);
      }
    } else {
      HandlersAfter(s, step, maxClients, h);
      if Moves(step, h) {
        PendingMovesOn(s, step, maxClients, h, user);
      }
    }
  }

  lemma StaysJustified(s: State, step: Step, maxClients: int, user: int)
    requires Inv(s) && Enabled(s, step, maxClients) && OnlineIsJustified(s) && !Orphans(s, step)
    requires IsOnline(After(s, step, maxClients), user)
    ensures Accounted(After(s, step, maxClients), user, {})
  {
    var s' := After(s, step, maxClients);
    OnlyLoginMakesOnline(s, step, maxClients, user);
    if step.LoginCommit? && PendingLogin(NextSelf(s, step, maxClients), user) {
      assert s'.handlers[step.h] == NextSelf(s, step, maxClients);
      assert Justifies(s', step.h, user);
    } else {
      var h := Accountant(s, step, user);
      JustifiedStays(s, step, maxClients, h, user);
    }
  }

  /** Somebody who accounts for the user and does not give up at this step. */
  lemma Accountant(s: State, step: Step, user: int) returns (h: HandlerId)
    requires OnlineIsJustified(s) && IsOnline(s, user) && !Orphans(s, step)
    ensures Justifies(s, h, user) && (Moves(step, h) ==> !GivesUp(s, step, user))
  {
    if GivesUp(s, step, user) {
      assert Accounted(s, user, {step.h});
      h :| h in s.handlers && h !in {step.h} && Justifies(s, h, user);
    } else {
      h :| h in s.handlers && h !in {} && Justifies(s, h, user);
    }
  }

  /** A step that gives up changes neither the tables nor what other handlers have to show. */
  lemma GivenUp(s: State, step: Step, maxClients: int, user: int, h: HandlerId)
    requires Inv(s) && Enabled(s, step, maxClients) && GivesUp(s, step, user)
    requires Justifies(After(s, step, maxClients), h, user)
    ensures h in s.handlers && h != step.h && Justifies(s, h, user)
  {
    assert PcFits(s.handlers[step.h]);
    HandlersAfter(s, step, maxClients, h);
  }

  lemma OrphanedIsUnjustified(s: State, step: Step, maxClients: int)
    requires Inv(s) && Enabled(s, step, maxClients) && Orphans(s, step)
    ensures !OnlineIsJustified(After(s, step, maxClients))
  {
    var s' := After(s, step, maxClients);
    var user :| IsOnline(s, user) && GivesUp(s, step, user) && !Accounted(s, user, {step.h});
    assert IsOnline(s', user);
    forall h | h in s'.handlers && h !in {} ensures !Justifies(s', h, user) {
      if Justifies(s', h, user) {
        GivenUp(s, step, maxClients, user, h);
      }
    }
    assert !Accounted(s', user, {});
  }

  lemma StepJustifies(s: State, step: Step, maxClients: int)
    requires Inv(s) && Enabled(s, step, maxClients) && OnlineIsJustified(s)
    ensures OnlineIsJustified(After(s, step, maxClients)) <==> !Orphans(s, step)
  {
    if Orphans(s, step) {
      OrphanedIsUnjustified(s, step, maxClients);
    } else {
      forall user | IsOnline(After(s, step, maxClients), user) ensures Accounted(After(s, step, maxClients), user, {}) {
        StaysJustified(s, step, maxClients, user);
      }
    }
  }

  // ----- every run

  /**
   Starting with nobody online, in every interleaving: at every moment a user who
   is `online` has a registered session, or a handler between its login and its
   registration, or one between its removal and its logout, if and only if no step
   of the run unwinds an unregistered handler, or fails a logout, that was the last
   to account for an online user.
   */
  lemma OnlineUsersAreJustified(init: State, steps: seq<Step>, maxClients: int)
    requires Init(init) && Legal(init, steps, maxClients)
    requires forall id | id in init.db.users :: init.db.users[id].status != Online
    ensures Always(init, steps, maxClients, s => OnlineIsJustified(s))
       <==> Never(init, steps, maxClients, (s, step) => Orphans(s, step))
  {
    var good, bad := s => OnlineIsJustified(s), (s, step) => Orphans(s, step);
    forall s, step | Inv(s) && Enabled(s, step, maxClients) && good(s)
      ensures good(After(s, step, maxClients)) <==> !bad(s, step)
    {
      StepJustifies(s, step, maxClients);
    }
    AlwaysIffNever(init, steps, maxClients, good, bad);
  }

  /** No exception unwinds a handler, and logging out does not fail. */
  predicate Calm(step: Step) {
    !step.Crash? && !step.CrashInAdd? && (step.LogoutCommit? ==> step.up)
  }

  /** In particular without exceptions and failed logouts. */
  lemma CalmRunsAreJustified(init: State, steps: seq<Step>, maxClients: int)
    requires Init(init) && Legal(init, steps, maxClients) && forall i | 0 <= i < |steps| :: Calm(steps[i])
    requires forall id | id in init.db.users :: init.db.users[id].status != Online
    ensures Always(init, steps, maxClients, s => OnlineIsJustified(s))
  {
    OnlineUsersAreJustified(init, steps, maxClients);
    forall k: nat | k < |steps| ensures !Orphans(At(init, steps, k, maxClients), steps[k]) {
      assert Calm(steps[k]);
    }
  }
}
