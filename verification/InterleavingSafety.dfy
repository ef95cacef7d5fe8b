/**
 What every interleaving of the accept loop and the handler threads keeps: the
 registry, the roles behind moderation, what `online` means, how a ban can be
 outrun, and how many clients there can be.
 */
module InterleavingSafety {
  import opened Tables
  import opened Registry
  import opened Interleaving

  // ----- who is in the registry

  /** A handler that may be registered for `user`. */
  predicate Enrolled(me: Handler, user: int) {
    me.authed && me.userId == user && !me.pc.Adding? && !me.pc.LoggingOut?
  }

  /** Which program points a handler can be at while logged in, and while not. */
  predicate PcFits(me: Handler) {
    match me.pc
    case Starting => !me.authed
    case Joining(_) => !me.authed
    case Finished => !me.authed
    case Idle => true
    case Handling => true
    case Snapshotting(_) => true
    case Closing(_) => true
    case _ => me.authed
  }

  predicate RegistryFits(s: State) {
    && (forall h | h in s.handlers :: PcFits(s.handlers[h]))
    && (forall user | user in s.sessions ::
          NoDup(s.sessions[user])
          && forall h | h in s.sessions[user] :: h in s.handlers && Enrolled(s.handlers[h], user))
  }

  /** Two views of a handler that differ at most in its socket. */
  predicate SameButSocket(a: Handler, b: Handler) {
    a.(open := b.open) == b
  }

  predicate Moves(step: Step, h: HandlerId) {
    !step.Admit? && !step.Count? && !step.Spawn? && step.h == h
  }

  /** A step changes its own handler as `NextSelf` says and of others at most the socket. */
  lemma HandlersAfter(s: State, step: Step, maxClients: int, h: HandlerId)
    requires Valid(s.db) && Enabled(s, step, maxClients)
    requires h in After(s, step, maxClients).handlers
    ensures var me := After(s, step, maxClients).handlers[h];
            if h !in s.handlers then step == Spawn(h) && me == FRESH
            else if Moves(step, h) then SameButSocket(NextSelf(s, step, maxClients), me)
            else SameButSocket(s.handlers[h], me)
  {
  }

  lemma HandlersStay(s: State, step: Step, maxClients: int, h: HandlerId)
    requires Valid(s.db) && Enabled(s, step, maxClients) && h in s.handlers
    ensures h in After(s, step, maxClients).handlers || step == Retire(h)
  {
  }

  lemma SelfKeepsFit(s: State, step: Step, maxClients: int)
    requires Valid(s.db) && Enabled(s, step, maxClients) && RegistryFits(s)
    requires !step.Admit? && !step.Count? && !step.Spawn?
    ensures PcFits(NextSelf(s, step, maxClients))
    ensures forall user :: Enrolled(s.handlers[step.h], user) && !step.Remove? ==>
                             Enrolled(NextSelf(s, step, maxClients), user)
  {
  }

  lemma StepKeepsHandlers(s: State, step: Step, maxClients: int)
    requires Valid(s.db) && Enabled(s, step, maxClients) && RegistryFits(s)
    ensures forall h | h in After(s, step, maxClients).handlers :: PcFits(After(s, step, maxClients).handlers[h])
  {
    var s' := After(s, step, maxClients);
    forall h | h in s'.handlers ensures PcFits(s'.handlers[h]) {
      HandlersAfter(s, step, maxClients, h);
      if Moves(step, h) {
        SelfKeepsFit(s, step, maxClients);
      }
    }
  }

  lemma EnrolledStays(s: State, step: Step, maxClients: int, h: HandlerId, user: int)
    requires Valid(s.db) && Enabled(s, step, maxClients) && RegistryFits(s)
    requires h in s.handlers && Enrolled(s.handlers[h], user) && step != Remove(h)
    ensures h in After(s, step, maxClients).handlers && Enrolled(After(s, step, maxClients).handlers[h], user)
  {
    HandlersStay(s, step, maxClients, h);
    assert PcFits(s.handlers[h]);
    HandlersAfter(s, step, maxClients, h);
    if Moves(step, h) {
      SelfKeepsFit(s, step, maxClients);
    }
  }

  lemma StepKeepsRegistry(s: State, step: Step, maxClients: int)
    requires Valid(s.db) && Enabled(s, step, maxClients) && RegistryFits(s)
    ensures RegistryFits(After(s, step, maxClients))
  {
    var s' := After(s, step, maxClients);
    StepKeepsHandlers(s, step, maxClients);
    forall user | user in s'.sessions
      ensures NoDup(s'.sessions[user])
      ensures forall h | h in s'.sessions[user] :: h in s'.handlers && Enrolled(s'.handlers[h], user)
    {
      if step.Remove? && user == s.handlers[step.h].userId && user in s.sessions {
        WithoutKeepsNoDup(s.sessions[user], step.h);
      }
      forall h | h in s'.sessions[user] ensures h in s'.handlers && Enrolled(s'.handlers[h], user) {
        if user in s.sessions && h in s.sessions[user] {
          EnrolledStays(s, step, maxClients, h, user);
        }
      }
    }
  }

  /** Only a handler's own removal takes it out of the registry. */
  lemma RegisteredStays(s: State, step: Step, maxClients: int, h: HandlerId, user: int)
    requires Valid(s.db) && Enabled(s, step, maxClients) && h in SessionsOf(s, user) && step != Remove(h)
    ensures h in SessionsOf(After(s, step, maxClients), user)
  {
  }

  /** A handler whose registration failed after it had made the user's list, and that has not cleaned up yet. */
  predicate Stranded(me: Handler, user: int) {
    me.authed && me.userId == user && me.pc == Removing(ThenExit)
  }

  /** A list is empty only while such a handler is on its way out. */
  predicate EmptyIsStranded(s: State) {
    forall user | user in s.sessions && s.sessions[user] == [] ::
      exists h | h in s.handlers :: Stranded(s.handlers[h], user)
  }

  lemma StrandedStays(s: State, step: Step, maxClients: int, h: HandlerId, user: int)
    requires Valid(s.db) && Enabled(s, step, maxClients) && h in s.handlers && Stranded(s.handlers[h], user)
    requires step != Remove(h)
    ensures h in After(s, step, maxClients).handlers && Stranded(After(s, step, maxClients).handlers[h], user)
  {
    HandlersStay(s, step, maxClients, h);
    HandlersAfter(s, step, maxClients, h);
  }

  lemma NewlyEmpty(s: State, step: Step, maxClients: int, user: int)
    requires Valid(s.db) && Enabled(s, step, maxClients) && RegistryFits(s)
    requires var sessions := After(s, step, maxClients).sessions; user in sessions && sessions[user] == []
    ensures (user in s.sessions && s.sessions[user] == [] && !(step.Remove? && s.handlers[step.h].userId == user))
            || (step.CrashInAdd? && step.h in s.handlers && Stranded(NextSelf(s, step, maxClients), user))
  {
    if step.CrashInAdd? {
      assert PcFits(s.handlers[step.h]);
    }
  }

  lemma StepKeepsEmpty(s: State, step: Step, maxClients: int)
    requires Valid(s.db) && Enabled(s, step, maxClients) && RegistryFits(s) && EmptyIsStranded(s)
    ensures EmptyIsStranded(After(s, step, maxClients))
  {
    var s' := After(s, step, maxClients);
    forall user | user in s'.sessions && s'.sessions[user] == []
      ensures exists h | h in s'.handlers :: Stranded(s'.handlers[h], user)
    {
      NewlyEmpty(s, step, maxClients, user);
      if step.CrashInAdd? && Stranded(NextSelf(s, step, maxClients), user) {
        assert step.h in s'.handlers && s'.handlers[step.h] == NextSelf(s, step, maxClients);
      } else {
        var h :| h in s.handlers && Stranded(s.handlers[h], user);
        StrandedStays(s, step, maxClients, h, user);
      }
    }
  }

  // ----- whom a handler acts for

  predicate KnowsUser(t: Tables, id: int, role: Role) {
    id in t.users && t.users[id].role == role
  }

  /** Sessions and tickets name stored users with their stored role; only moderators get past the check. */
  predicate RolesFit(t: Tables, me: Handler) {
    && (me.authed ==> KnowsUser(t, me.userId, me.role))
    && (me.pc.Joining? ==> KnowsUser(t, me.pc.ticket.id, me.pc.ticket.role))
    && ((me.pc.Removing? || me.pc.LoggingOut?) && me.pc.next.ThenJoin? ==>
          KnowsUser(t, me.pc.next.ticket.id, me.pc.next.ticket.role))
    && (me.pc.Allowed? ==> me.role == Admin || me.role == Moderator)
  }

  predicate AllRolesFit(s: State) {
    forall h | h in s.handlers :: RolesFit(s.db, s.handlers[h])
  }

  lemma SelfKeepsRoles(s: State, step: Step, maxClients: int)
    requires Valid(s.db) && Enabled(s, step, maxClients)
    requires !step.Admit? && !step.Count? && !step.Spawn?
    requires RolesFit(s.db, s.handlers[step.h]) && PcFits(s.handlers[step.h])
    ensures RolesFit(s.db, NextSelf(s, step, maxClients))
  {
    if step.LoginCommit? {
      LoginKeepsRoles(s, step, maxClients);
    } else if step.CheckRights? || step.ModerateCommit? || step.Snapshot? || step.Close? {
      ModerationKeepsRoles(s, step, maxClients);
    } else {
      OtherKeepsRoles(s, step, maxClients);
    }
  }

  lemma LoginKeepsRoles(s: State, step: Step, maxClients: int)
    requires Valid(s.db) && Enabled(s, step, maxClients) && step.LoginCommit? && RolesFit(s.db, s.handlers[step.h])
    ensures RolesFit(s.db, NextSelf(s, step, maxClients))
  {
  }

  lemma ModerationKeepsRoles(s: State, step: Step, maxClients: int)
    requires Valid(s.db) && Enabled(s, step, maxClients)
    requires step.CheckRights? || step.ModerateCommit? || step.Snapshot? || step.Close?
    requires RolesFit(s.db, s.handlers[step.h])
    ensures RolesFit(s.db, NextSelf(s, step, maxClients))
  {
  }

  lemma OtherKeepsRoles(s: State, step: Step, maxClients: int)
    requires Valid(s.db) && Enabled(s, step, maxClients)
    requires !step.Admit? && !step.Count? && !step.Spawn? && !step.LoginCommit?
    requires !step.CheckRights? && !step.ModerateCommit? && !step.Snapshot? && !step.Close?
    requires RolesFit(s.db, s.handlers[step.h]) && PcFits(s.handlers[step.h])
    ensures RolesFit(s.db, NextSelf(s, step, maxClients))
  {
  }

  lemma GrowthKeepsRoles(t: Tables, t': Tables, me: Handler)
    requires Grows(t, t') && RolesFit(t, me)
    ensures RolesFit(t', me)
  {
  }

  lemma StepKeepsRoles(s: State, step: Step, maxClients: int)
    requires Valid(s.db) && Enabled(s, step, maxClients) && RegistryFits(s) && AllRolesFit(s)
    ensures AllRolesFit(After(s, step, maxClients))
  {
    var s' := After(s, step, maxClients);
    StepFollows(s, step, maxClients);
    forall h | h in s'.handlers ensures RolesFit(s'.db, s'.handlers[h]) {
      HandlersAfter(s, step, maxClients, h);
      if Moves(step, h) {
        SelfKeepsRoles(s, step, maxClients);
        GrowthKeepsRoles(s.db, s'.db, NextSelf(s, step, maxClients));
      } else if h in s.handlers {
        GrowthKeepsRoles(s.db, s'.db, s.handlers[h]);
      }
    }
  }

  predicate IsModeration(a: Action) {
    a == BannedUser || a == UnbannedUser || a == KickedUser
  }

  /** New moderation rows name an actor whose stored role allows it. */
  predicate ModeratedByRole(t: Tables, t': Tables) {
    forall i | |t.audit| <= i < |t'.audit| && IsModeration(t'.audit[i].action) ::
      t'.audit[i].actor.Some? && t'.audit[i].actor.value in t'.users
      && (t'.users[t'.audit[i].actor.value].role == Admin || t'.users[t'.audit[i].actor.value].role == Moderator)
  }

  lemma StepModeratesByRole(s: State, step: Step, maxClients: int)
    requires Valid(s.db) && Enabled(s, step, maxClients) && RegistryFits(s) && AllRolesFit(s)
    ensures ModeratedByRole(s.db, After(s, step, maxClients).db)
  {
    if step.ModerateCommit? {
      assert RolesFit(s.db, s.handlers[step.h]) && PcFits(s.handlers[step.h]);
      ModeratorsModerate(s, step, maxClients);
    } else {
      OthersDoNotModerate(s, step, maxClients);
    }
  }

  lemma ModeratorsModerate(s: State, step: Step, maxClients: int)
    requires Valid(s.db) && Enabled(s, step, maxClients) && step.ModerateCommit?
    requires RolesFit(s.db, s.handlers[step.h]) && PcFits(s.handlers[step.h])
    ensures ModeratedByRole(s.db, NextDb(s, step, maxClients))
  {
  }

  lemma OthersDoNotModerate(s: State, step: Step, maxClients: int)
    requires Valid(s.db) && Enabled(s, step, maxClients) && !step.ModerateCommit?
    ensures ModeratedByRole(s.db, NextDb(s, step, maxClients))
  {
  }

  // ----- every run

  predicate Inv(s: State) {
    Valid(s.db) && RegistryFits(s) && EmptyIsStranded(s) && AllRolesFit(s)
  }

  lemma StepKeepsInv(s: State, step: Step, maxClients: int)
    requires Inv(s) && Enabled(s, step, maxClients)
    ensures Inv(After(s, step, maxClients)) && Follows(s.db, After(s, step, maxClients).db)
  {
    StepFollows(s, step, maxClients);
    StepKeepsRegistry(s, step, maxClients);
    StepKeepsEmpty(s, step, maxClients);
    StepKeepsRoles(s, step, maxClients);
  }

  lemma {:induction false} RunKeepsInv(s: State, steps: seq<Step>, maxClients: int)
    requires Inv(s) && Legal(s, steps, maxClients)
    ensures Inv(Reach(s, steps, maxClients)) && Follows(s.db, Reach(s, steps, maxClients).db)
    ensures ModeratedByRole(s.db, Reach(s, steps, maxClients).db)
    decreases |steps|
  {
    if steps == [] {
      FollowsIsReflexive(s.db);
    } else {
      var s' := After(s, steps[0], maxClients);
      StepKeepsInv(s, steps[0], maxClients);
      StepModeratesByRole(s, steps[0], maxClients);
      RunKeepsInv(s', steps[1..], maxClients);
      FollowsIsTransitive(s.db, s'.db, Reach(s', steps[1..], maxClients).db);
      ModeratedByRoleChains(s.db, s'.db, Reach(s', steps[1..], maxClients).db);
    }
  }

  lemma ModeratedByRoleChains(t: Tables, u: Tables, v: Tables)
    requires Grows(t, u) && Grows(u, v) && ModeratedByRole(t, u) && ModeratedByRole(u, v)
    ensures ModeratedByRole(t, v)
  {
    forall i | |t.audit| <= i < |v.audit| && IsModeration(v.audit[i].action)
      ensures v.audit[i].actor.Some? && v.audit[i].actor.value in v.users
      ensures v.users[v.audit[i].actor.value].role == Admin || v.users[v.audit[i].actor.value].role == Moderator
    {
      if i < |u.audit| {
        assert v.audit[i] == u.audit[i];
        var actor := u.audit[i].actor.value;
        assert actor in u.users && v.users[actor].role == u.users[actor].role;
      }
    }
  }

  /**
   In every interleaving, also with crashes and failing transactions: a handler is
   in the registry at most once, only under its own user and while logged in; every
   registered handler still exists and has not finished its cleanup; and a user
   maps to an empty list only while a handler whose registration failed half way
   has not cleaned up yet.
   */
  lemma RegistryAgreement(init: State, steps: seq<Step>, maxClients: int)
    requires Init(init) && Legal(init, steps, maxClients)
    ensures var s := Reach(init, steps, maxClients);
            && (forall user | user in s.sessions :: NoDup(s.sessions[user]))
            && (forall user, h | user in s.sessions && h in s.sessions[user] ::
                  && h in s.handlers && s.handlers[h].authed && s.handlers[h].userId == user
                  && !s.handlers[h].pc.Finished? && !s.handlers[h].pc.LoggingOut?)
            && (forall user, other, h | user in s.sessions && other in s.sessions && h in s.sessions[user]
                                        && h in s.sessions[other] :: user == other)
            && EmptyIsStranded(s)
  {
    RunKeepsInv(init, steps, maxClients);
    var s := Reach(init, steps, maxClients);
    assert forall h | h in s.handlers :: PcFits(s.handlers[h]);
  }

  // ----- moments of a run

  /** What every state of a run keeps, and how it leads to the next. */
  lemma {:induction false} AtStep(s: State, steps: seq<Step>, k: nat, maxClients: int)
    requires Inv(s) && Legal(s, steps, maxClients) && k <= |steps|
    ensures Inv(At(s, steps, k, maxClients))
    ensures k < |steps| ==>
              && Enabled(At(s, steps, k, maxClients), steps[k], maxClients)
              && At(s, steps, k + 1, maxClients) == After(At(s, steps, k, maxClients), steps[k], maxClients)
    decreases k
  {
    if steps != [] {
      StepKeepsInv(s, steps[0], maxClients);
      if k > 0 {
        AtStep(After(s, steps[0], maxClients), steps[1..], k - 1, maxClients);
      }
    }
  }

  /** A property of every moment of a run. */
  ghost predicate Always(s: State, steps: seq<Step>, maxClients: int, good: State -> bool)
    requires Valid(s.db) && Legal(s, steps, maxClients)
  {
    forall k: nat | k <= |steps| :: good(At(s, steps, k, maxClients))
  }

  /** No step of a run is of some kind. */
  ghost predicate Never(s: State, steps: seq<Step>, maxClients: int, bad: (State, Step) -> bool)
    requires Valid(s.db) && Legal(s, steps, maxClients)
  {
    forall k: nat | k < |steps| :: !bad(At(s, steps, k, maxClients), steps[k])
  }

  /** A property is lost exactly at the bad steps. */
  ghost predicate LostAt(maxClients: int, good: State -> bool, bad: (State, Step) -> bool) {
    forall s, step | Inv(s) && Enabled(s, step, maxClients) && good(s) ::
      good(After(s, step, maxClients)) <==> !bad(s, step)
  }

  lemma {:induction false} GoodAt(s: State, steps: seq<Step>, k: nat, maxClients: int, good: State -> bool,
                                  bad: (State, Step) -> bool)
    requires Inv(s) && Legal(s, steps, maxClients) && k <= |steps| && good(s)
    requires LostAt(maxClients, good, bad) && Never(s, steps, maxClients, bad)
    ensures good(At(s, steps, k, maxClients))
    decreases k
  {
    if k > 0 {
      GoodAt(s, steps, k - 1, maxClients, good, bad);
      AtStep(s, steps, k - 1, maxClients);
    }
  }

  /** A property that holds at first and is lost exactly at the bad steps holds always if and only if there is none. */
  lemma AlwaysIffNever(s: State, steps: seq<Step>, maxClients: int, good: State -> bool, bad: (State, Step) -> bool)
    requires Inv(s) && Legal(s, steps, maxClients) && good(s) && LostAt(maxClients, good, bad)
    ensures Always(s, steps, maxClients, good) <==> Never(s, steps, maxClients, bad)
  {
    if Never(s, steps, maxClients, bad) {
      forall k: nat | k <= |steps| ensures good(At(s, steps, k, maxClients)) {
        GoodAt(s, steps, k, maxClients, good, bad);
      }
    } else {
      var k: nat :| k < |steps| && bad(At(s, steps, k, maxClients), steps[k]);
      AtStep(s, steps, k, maxClients);
      assert good(At(s, steps, k, maxClients)) ==> !good(At(s, steps, k + 1, maxClients));
    }
  }

  // ----- empty lists

  predicate NoneEmpty(s: State) {
    forall user | user in s.sessions :: s.sessions[user] != []
  }

  /** A registration throws after it has made the first list of its user. */
  predicate FailsHalfWay(s: State, step: Step) {
    step.CrashInAdd? && step.h in s.handlers && s.handlers[step.h].userId !in s.sessions
  }

  lemma StepKeepsNoneEmpty(s: State, step: Step, maxClients: int)
    requires Valid(s.db) && Enabled(s, step, maxClients) && NoneEmpty(s)
    ensures NoneEmpty(After(s, step, maxClients)) <==> !FailsHalfWay(s, step)
  {
    if FailsHalfWay(s, step) {
      assert After(s, step, maxClients).sessions[s.handlers[step.h].userId] == [];
    }
  }

  /**
   In every interleaving: no user ever maps to an empty list, if and only if no
   registration throws after it has made the first list of its user.
   */
  lemma NoEmptyLists(init: State, steps: seq<Step>, maxClients: int)
    requires Init(init) && Legal(init, steps, maxClients)
    ensures Always(init, steps, maxClients, NoneEmpty) <==> Never(init, steps, maxClients, FailsHalfWay)
  {
    forall s, step | Inv(s) && Enabled(s, step, maxClients) && NoneEmpty(s)
      ensures NoneEmpty(After(s, step, maxClients)) <==> !FailsHalfWay(s, step)
    {
      StepKeepsNoneEmpty(s, step, maxClients);
    }
    AlwaysIffNever(init, steps, maxClients, NoneEmpty, FailsHalfWay);
  }

  /** Replaying the audit trail gives the banned users, and every moderation was done with the role for it. */
  lemma AuditIsTrustworthy(init: State, steps: seq<Step>, maxClients: int)
    requires Init(init) && Legal(init, steps, maxClients)
    ensures var t := Reach(init, steps, maxClients).db;
            && Follows(init.db, t)
            && ModeratedByRole(init.db, t)
  {
    RunKeepsInv(init, steps, maxClients);
  }

  // ----- admission

  /** Handlers between their construction and the end of their destructor. */
  function LiveHandlers(s: State): set<HandlerId> {
    set h | h in s.handlers && !s.handlers[h].pc.Starting? && !s.handlers[h].pc.Finished?
  }

  /** All entries of the registry, over all users. */
  ghost function Entries(sessions: map<int, seq<HandlerId>>): nat {
    EntriesOf(sessions, sessions.Keys)
  }

  ghost function Pick<T>(choices: set<T>): (choice: T)
    requires choices != {}
    ensures choice in choices
  {
    var choice :| choice in choices;
    choice
  }

  ghost function EntriesOf(sessions: map<int, seq<HandlerId>>, users: set<int>): nat
    requires users <= sessions.Keys
    decreases users
  {
    if users == {} then 0
    else
      var user := Pick(users);
      |sessions[user]| + EntriesOf(sessions, users - {user})
  }

  lemma {:induction false} DistinctFit(hs: seq<HandlerId>, pool: set<HandlerId>)
    requires NoDup(hs) && forall h | h in hs :: h in pool
    ensures |hs| + |pool - (set h | h in hs)| == |pool|
  {
    if hs == [] {
      assert pool - (set h | h in hs) == pool;
    } else {
      var last, front := hs[|hs| - 1], hs[..|hs| - 1];
      DistinctFit(front, pool);
      assert last !in front;
      assert pool - (set h | h in hs) == (pool - (set h | h in front)) - {last};
    }
  }

  /** Different lists of different handlers, all from one pool, have together at most the size of the pool. */
  lemma {:induction false} EntriesFit(sessions: map<int, seq<HandlerId>>, users: set<int>, pool: set<HandlerId>)
    requires users <= sessions.Keys
    requires forall user | user in users :: NoDup(sessions[user]) && forall h | h in sessions[user] :: h in pool
    requires forall u, v, h | u in users && v in users && u != v && h in sessions[u] :: h !in sessions[v]
    ensures EntriesOf(sessions, users) <= |pool|
    decreases users
  {
    if users != {} {
      var user := Pick(users);
      DistinctFit(sessions[user], pool);
      EntriesFit(sessions, users - {user}, pool - (set h | h in sessions[user]));
    }
  }

  predicate Admission(s: State, maxClients: int) {
    && s.active == |s.handlers| + (if s.acceptor.Counted? then 1 else 0)
    && s.active + (if s.acceptor.Admitted? then 1 else 0) <= (if maxClients < 0 then 0 else maxClients)
  }

  /** Handlers appear when spawned and disappear when retired. */
  lemma HandlerCount(s: State, step: Step, maxClients: int)
    requires Valid(s.db) && Enabled(s, step, maxClients)
    ensures |NextHandlers(s, step, maxClients)|
         == |s.handlers| + (if step.Spawn? then 1 else if step.Retire? then -1 else 0)
  {
    var after := NextHandlers(s, step, maxClients);
    assert |after| == |after.Keys| && |s.handlers| == |s.handlers.Keys|;
    assert after.Keys == if step.Spawn? then s.handlers.Keys + {step.h}
                         else if step.Retire? then s.handlers.Keys - {step.h} else s.handlers.Keys;
  }

  lemma StepKeepsAdmission(s: State, step: Step, maxClients: int)
    requires Valid(s.db) && Enabled(s, step, maxClients) && Admission(s, maxClients)
    ensures Admission(After(s, step, maxClients), maxClients)
  {
    HandlerCount(s, step, maxClients);
  }

  lemma {:induction false} RunKeepsAdmission(s: State, steps: seq<Step>, maxClients: int)
    requires Inv(s) && Admission(s, maxClients) && Legal(s, steps, maxClients)
    ensures Admission(Reach(s, steps, maxClients), maxClients)
    decreases |steps|
  {
    if steps != [] {
      StepKeepsInv(s, steps[0], maxClients);
      StepKeepsAdmission(s, steps[0], maxClients);
      RunKeepsAdmission(After(s, steps[0], maxClients), steps[1..], maxClients);
    }
  }

  /** In every interleaving: registry entries <= live handlers <= the client counter <= the limit. */
  lemma AdmissionBoundsTheRegistry(init: State, steps: seq<Step>, maxClients: nat)
    requires Init(init) && Legal(init, steps, maxClients)
    ensures var s := Reach(init, steps, maxClients);
            Entries(s.sessions) <= |LiveHandlers(s)| <= s.active <= maxClients
  {
    var s := Reach(init, steps, maxClients);
    RunKeepsInv(init, steps, maxClients);
    RunKeepsAdmission(init, steps, maxClients);
    assert forall h | h in s.handlers :: PcFits(s.handlers[h]);
    EntriesFit(s.sessions, s.sessions.Keys, LiveHandlers(s));
    assert LiveHandlers(s) <= s.handlers.Keys;
    SubsetIsSmaller(LiveHandlers(s), s.handlers.Keys);
  }

  lemma {:induction false} SubsetIsSmaller(a: set<HandlerId>, b: set<HandlerId>)
    requires a <= b
    ensures |a| <= |b|
  {
    assert b == a + (b - a);
  }
}
