/**
 When a ban reaches every session of its user in the interleaved server: exactly
 the steps at which it fails to, over every run.
 */
module BanReach {
  import opened Tables
  import opened Interleaving
  import opened InterleavingSafety

  /** Some handler is still going to shut this socket down because of a ban or kick of `user`. */
  predicate WillClose(s: State, g: HandlerId, h: HandlerId, user: int) {
    g in s.handlers &&
    (s.handlers[g].pc == Snapshotting(user) || (s.handlers[g].pc.Closing? && h in s.handlers[g].pc.rest))
  }

  /** An open session, registered for a user who is banned. */
  predicate OpenForBanned(s: State, h: HandlerId, user: int) {
    && IsBanned(s.db, user) && user in s.sessions && h in s.sessions[user]
    && h in s.handlers && s.handlers[h].open
  }

  /** Nobody but perhaps `except` is going to shut the session down. */
  ghost predicate LeftOpen(s: State, h: HandlerId, user: int, except: set<HandlerId>) {
    forall g | g in s.handlers && g !in except :: !WillClose(s, g, h, user)
  }

  /** Every open session of a banned user is about to be shut down. */
  ghost predicate Covered(s: State) {
    forall h, user | OpenForBanned(s, h, user) :: !LeftOpen(s, h, user, {})
  }

  // ----- the two steps that fail

  /** A session is registered, open, for a user who is already banned, and nobody is about to shut it down. */
  ghost predicate Outruns(s: State, step: Step) {
    && step.Add? && step.h in s.handlers && s.handlers[step.h].open
    && IsBanned(s.db, s.handlers[step.h].userId)
    && LeftOpen(s, step.h, s.handlers[step.h].userId, {})
  }

  /** A thread is unwound that was the only one to shut down some open session of a banned user. */
  ghost predicate Abandons(s: State, step: Step) {
    && step.Crash?
    && exists h, user :: OpenForBanned(s, h, user) && LeftOpen(s, h, user, {step.h})
  }

  // ----- one step

  lemma OnlyBanBans(s: State, step: Step, maxClients: int, user: int)
    requires Valid(s.db) && Enabled(s, step, maxClients) && user in s.db.users
    requires IsBanned(After(s, step, maxClients).db, user)
    ensures IsBanned(s.db, user)
         || (step.ModerateCommit? && After(s, step, maxClients).handlers[step.h].pc == Snapshotting(user))
  {
  }

  /** What a step leaves of the plan to shut a registered session down. */
  lemma WillCloseStays(s: State, step: Step, maxClients: int, g: HandlerId, h: HandlerId, user: int)
    requires Inv(s) && Enabled(s, step, maxClients) && step != Crash(g)
    requires WillClose(s, g, h, user) && (step == Add(h) || (user in s.sessions && h in s.sessions[user]))
    requires h in After(s, step, maxClients).handlers && After(s, step, maxClients).handlers[h].open
    ensures WillClose(After(s, step, maxClients), g, h, user)
  {
    HandlersStay(s, step, maxClients, g);
    HandlersAfter(s, step, maxClients, g);
    if Moves(step, g) {
      PlanIsCarriedOut(s, step, maxClients, g, h, user);
    }
  }

  /** A thread with such a plan takes its snapshot, or shuts the first handler of its list. */
  lemma PlanIsCarriedOut(s: State, step: Step, maxClients: int, g: HandlerId, h: HandlerId, user: int)
    requires Inv(s) && Enabled(s, step, maxClients) && step != Crash(g) && Moves(step, g)
    requires WillClose(s, g, h, user) && (step == Add(h) || (user in s.sessions && h in s.sessions[user]))
    requires h in After(s, step, maxClients).handlers && After(s, step, maxClients).handlers[h].open
    ensures var me := NextSelf(s, step, maxClients);
            me.pc == Snapshotting(user) || (me.pc.Closing? && h in me.pc.rest)
  {
    assert step == Snapshot(g) || step == Close(g);
  }

  /** Registration and unwinding make no new plans. */
  lemma NoNewPlans(s: State, step: Step, maxClients: int, g: HandlerId, h: HandlerId, user: int)
    requires Valid(s.db) && Enabled(s, step, maxClients) && (step.Add? || step.Crash?)
    requires WillClose(After(s, step, maxClients), g, h, user)
    ensures g in s.handlers && WillClose(s, g, h, user) && step != Crash(g)
  {
  }

  lemma RegisteredBefore(s: State, step: Step, maxClients: int, h: HandlerId, user: int)
    requires Inv(s) && Enabled(s, step, maxClients)
    requires var s' := After(s, step, maxClients); user in s'.sessions && h in s'.sessions[user]
    ensures (step == Add(h) && s.handlers[h].userId == user) || (user in s.sessions && h in s.sessions[user])
  {
  }

  /** The user of a session is stored. */
  lemma SessionUserExists(s: State, h: HandlerId, user: int)
    requires Inv(s) && user in s.sessions && h in s.sessions[user]
    ensures h in s.handlers && user in s.db.users
  {
    assert RolesFit(s.db, s.handlers[h]);
  }

  /** A session that was not left open before the step is not left open after it, unless the step is one of the two. */
  lemma StaysCovered(s: State, step: Step, maxClients: int, h: HandlerId, user: int)
    requires Inv(s) && Enabled(s, step, maxClients) && Covered(s) && !Outruns(s, step) && !Abandons(s, step)
    requires OpenForBanned(After(s, step, maxClients), h, user)
    ensures !LeftOpen(After(s, step, maxClients), h, user, {})
  {
    var s' := After(s, step, maxClients);
    RegisteredBefore(s, step, maxClients, h, user);
    HandlersAfter(s, step, maxClients, h);
    if step == Add(h) && s.handlers[h].userId == user {
      CoveredWhenAdded(s, step, maxClients, h, user);
    } else {
      SessionUserExists(s, h, user);
      OnlyBanBans(s, step, maxClients, user);
      if !IsBanned(s.db, user) {
        assert WillClose(s', step.h, h, user);
      } else {
        var g := Closer(s, step, h, user);
        WillCloseStays(s, step, maxClients, g, h, user);
      }
    }
  }

  lemma CoveredWhenAdded(s: State, step: Step, maxClients: int, h: HandlerId, user: int)
    requires Inv(s) && Enabled(s, step, maxClients) && !Outruns(s, step)
    requires step == Add(h) && s.handlers[h].userId == user
    requires OpenForBanned(After(s, step, maxClients), h, user)
    ensures !LeftOpen(After(s, step, maxClients), h, user, {})
  {
    var g :| g in s.handlers && g !in {} && WillClose(s, g, h, user);
    WillCloseStays(s, step, maxClients, g, h, user);
  }

  /** Somebody who shuts the session down and is not unwound by the step. */
  lemma Closer(s: State, step: Step, h: HandlerId, user: int) returns (g: HandlerId)
    requires Covered(s) && OpenForBanned(s, h, user) && !Abandons(s, step)
    ensures g in s.handlers && WillClose(s, g, h, user) && step != Crash(g)
  {
    if step.Crash? {
      assert !LeftOpen(s, h, user, {step.h});
      g :| g in s.handlers && g !in {step.h} && WillClose(s, g, h, user);
    } else {
      g :| g in s.handlers && g !in {} && WillClose(s, g, h, user);
    }
  }

  lemma OutrunIsLeftOpen(s: State, step: Step, maxClients: int)
    requires Inv(s) && Enabled(s, step, maxClients) && Outruns(s, step)
    ensures var s' := After(s, step, maxClients);
            OpenForBanned(s', step.h, s.handlers[step.h].userId)
            && LeftOpen(s', step.h, s.handlers[step.h].userId, {})
  {
    var s', user := After(s, step, maxClients), s.handlers[step.h].userId;
    forall g | g in s'.handlers && g !in {} ensures !WillClose(s', g, step.h, user) {
      if WillClose(s', g, step.h, user) {
        NoNewPlans(s, step, maxClients, g, step.h, user);
      }
    }
  }

  lemma AbandonedIsLeftOpen(s: State, step: Step, maxClients: int) returns (h: HandlerId, user: int)
    requires Inv(s) && Enabled(s, step, maxClients) && Abandons(s, step)
    ensures OpenForBanned(After(s, step, maxClients), h, user) && LeftOpen(After(s, step, maxClients), h, user, {})
  {
    h, user :| OpenForBanned(s, h, user) && LeftOpen(s, h, user, {step.h});
    var s' := After(s, step, maxClients);
    HandlersStay(s, step, maxClients, h);
    HandlersAfter(s, step, maxClients, h);
    forall g | g in s'.handlers && g !in {} ensures !WillClose(s', g, h, user) {
      if WillClose(s', g, h, user) {
        NoNewPlans(s, step, maxClients, g, h, user);
      }
    }
  }

  /** Exactly those two steps leave a session open. */
  lemma StepCovers(s: State, step: Step, maxClients: int)
    requires Inv(s) && Enabled(s, step, maxClients) && Covered(s)
    ensures Covered(After(s, step, maxClients)) <==> !Outruns(s, step) && !Abandons(s, step)
  {
    var s' := After(s, step, maxClients);
    if Outruns(s, step) {
      OutrunIsLeftOpen(s, step, maxClients);
    } else if Abandons(s, step) {
      var h, user := AbandonedIsLeftOpen(s, step, maxClients);
    } else {
      forall h, user | OpenForBanned(s', h, user) ensures !LeftOpen(s', h, user, {}) {
        StaysCovered(s, step, maxClients, h, user);
      }
    }
  }

  // ----- every run

  /** One of the two. */
  ghost predicate Races(s: State, step: Step) {
    Outruns(s, step) || Abandons(s, step)
  }

  /**
   In every interleaving, crashes included: at every moment every open session of
   a banned user is about to be shut down, if and only if no step of the run
   registers an open session past a ban that nobody is carrying out any more, or
   unwinds the only thread that is still to shut one down.
   */
  lemma BansReachEverySession(init: State, steps: seq<Step>, maxClients: int)
    requires Init(init) && Legal(init, steps, maxClients)
    ensures Always(init, steps, maxClients, s => Covered(s))
       <==> Never(init, steps, maxClients, (s, step) => Races(s, step))
  {
    var good, bad := s => Covered(s), (s, step) => Races(s, step);
    forall s, step | Inv(s) && Enabled(s, step, maxClients) && good(s)
      ensures good(After(s, step, maxClients)) <==> !bad(s, step)
    {
      StepCovers(s, step, maxClients);
    }
    AlwaysIffNever(init, steps, maxClients, good, bad);
  }
}
