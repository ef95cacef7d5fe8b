/**
 The interleaved server does not promise that a ban reaches every session, that no
 user maps to an empty list, that an online user is there, or that a banned
 moderator does nothing more. Here are runs from an empty server: a ban, with its
 disconnect, is complete before the session it should have shut is registered; a
 moderator's thread is unwound between a ban and its disconnect; a registration
 fails half way; a thread is unwound after its login; a moderator carries out a
 ban after their own.
 */
module BanRace {
  import opened Options
  import opened Tables
  import opened Interleaving
  import opened Runs
  import opened OnlineStatus
  import opened BanReach

  // ----- logs in, up to the registration of its session

  predicate CanLogIn(t: Tables, login: string) {
    Valid(t) && login in t.ids && t.ids[login] in t.users && t.users[t.ids[login]].status != Banned
  }

  function LoggedIn(t: Tables, login: string, now: Timestamp): Tables
    requires Valid(t)
  {
    LoginUser(t, login, true, now, true).0
  }

  /** A handler that has taken over its user's fields and is not registered yet. */
  function Arriving(t: Tables, login: string): Handler
    requires CanLogIn(t, login)
  {
    Handler(Adding, true, true, t.ids[login], t.users[t.ids[login]].role)
  }

  function SignedIn(s: State, h: HandlerId, login: string, now: Timestamp): State
    requires CanLogIn(s.db, login)
  {
    WithHandler(s.(db := LoggedIn(s.db, login, now)), h, Arriving(s.db, login))
  }

  /** The login has committed, the handler has not taken over the fields yet. */
  function Ticketed(s: State, h: HandlerId, login: string, now: Timestamp): State
    requires CanLogIn(s.db, login)
  {
    var id := s.db.ids[login];
    WithHandler(s.(db := LoggedIn(s.db, login, now)), h, CONNECTED.(pc := Joining(Ticket(id, s.db.users[id].role))))
  }

  lemma LogIn(init: State, steps: seq<Step>, s: State, h: HandlerId, login: string, now: Timestamp, maxClients: int)
    returns (more: seq<Step>)
    requires RunTo(init, steps, s, maxClients)
    requires h in s.handlers && s.handlers[h] == CONNECTED && CanLogIn(s.db, login)
    ensures RunTo(init, more, Ticketed(s, h, login, now), maxClients)
  {
    var commit := LoginCommit(h, login, true, now, true);
    var s1 := WithHandler(s, h, CONNECTED.(pc := Handling));
    Go(init, steps, s, Read(h), s1, maxClients);
    LoginFollows(s.db, login, true, now, true);
    assert Ticketed(s, h, login, now).handlers == s1.handlers[h := Ticketed(s, h, login, now).handlers[h]];
    Go(init, steps + [Read(h)], s1, commit, Ticketed(s, h, login, now), maxClients);
    more := steps + [Read(h)] + [commit];
  }

  lemma SignIn(init: State, steps: seq<Step>, s: State, h: HandlerId, login: string, now: Timestamp, maxClients: int)
    returns (more: seq<Step>)
    requires RunTo(init, steps, s, maxClients)
    requires h in s.handlers && s.handlers[h] == CONNECTED && CanLogIn(s.db, login)
    ensures Valid(s.db) && RunTo(init, more, SignedIn(s, h, login, now), maxClients)
  {
    var s1 := Ticketed(s, h, login, now);
    more := LogIn(init, steps, s, h, login, now, maxClients);
    assert SignedIn(s, h, login, now).handlers == s1.handlers[h := Arriving(s.db, login)];
    Go(init, more, s1, SetFields(h), SignedIn(s, h, login, now), maxClients);
    more := more + [SetFields(h)];
  }

  // ----- a moderator is registered and passes the check

  function Permitted(s: State, g: HandlerId, login: string): State
    requires g in s.handlers
  {
    var me := s.handlers[g];
    WithHandler(s.(sessions := s.sessions[me.userId := [g]]), g, me.(pc := Allowed(ToBan, login)))
  }

  predicate IsModerator(t: Tables, id: int) {
    id in t.users && t.users[id].status != Banned && (t.users[id].role == Admin || t.users[id].role == Moderator)
  }

  lemma PassCheck(init: State, steps: seq<Step>, s: State, g: HandlerId, login: string, maxClients: int)
    returns (more: seq<Step>)
    requires RunTo(init, steps, s, maxClients)
    requires g in s.handlers && IsModerator(s.db, s.handlers[g].userId) && s.handlers[g].userId !in s.sessions
    requires s.handlers[g]
          == Handler(Adding, true, true, s.handlers[g].userId, s.db.users[s.handlers[g].userId].role)
    ensures RunTo(init, more, Permitted(s, g, login), maxClients)
  {
    var me := s.handlers[g];
    Join(init, steps, s, g, me.userId, maxClients);
    var s1 := Joined(s, g);
    var s2 := WithHandler(s1, g, me.(pc := Handling));
    Go(init, steps + [Add(g)], s1, Read(g), s2, maxClients);
    var check := CheckRights(g, ToBan, login, true);
    assert Permitted(s, g, login).handlers == s2.handlers[g := me.(pc := Allowed(ToBan, login))];
    Go(init, steps + [Add(g)] + [Read(g)], s2, check, Permitted(s, g, login), maxClients);
    more := steps + [Add(g)] + [Read(g)] + [check];
  }

  // ----- the ban runs to its end before the session is registered

  predicate AboutToJoin(s: State, h: HandlerId, user: int) {
    h in s.handlers && s.handlers[h].pc == Adding && s.handlers[h].open && s.handlers[h].authed
    && s.handlers[h].userId == user && user !in s.sessions
  }

  /**
   The session is registered and open, its user banned, nobody is going to shut it
   down, and it can read its next command.
   */
  ghost predicate Escaped(s: State, h: HandlerId, user: int) {
    && OpenForBanned(s, h, user) && LeftOpen(s, h, user, {})
    && CanRead(s, h) && s.handlers[h].authed && s.handlers[h].userId == user
  }

  /** No thread is on its way to shut sessions down. */
  predicate NoPlans(s: State) {
    forall g | g in s.handlers :: !s.handlers[g].pc.Snapshotting? && !s.handlers[g].pc.Closing?
  }

  lemma BanCommits(init: State, steps: seq<Step>, s: State, g: HandlerId, login: string, now: Timestamp,
                   maxClients: int) returns (s': State)
    requires RunTo(init, steps, s, maxClients)
    requires g in s.handlers && s.handlers[g].pc == Allowed(ToBan, login) && login in s.db.ids
    requires s.handlers[g].userId in s.db.users
    ensures s' == WithHandler(s.(db := s'.db), g, s.handlers[g].(pc := Snapshotting(s.db.ids[login])))
    ensures IsBanned(s'.db, s.db.ids[login]) && forall id | IsBanned(s.db, id) :: IsBanned(s'.db, id)
    ensures s'.db.ids == s.db.ids && forall id | id in s.db.users :: id in s'.db.users
    ensures s'.db.audit == s.db.audit + [AuditEntry(Some(s.handlers[g].userId), BannedUser, login)]
    ensures RunTo(init, steps + [ModerateCommit(g, now, true)], s', maxClients)
  {
    var me := s.handlers[g];
    BanFollows(s.db, me.userId, login, true);
    s' := WithHandler(s.(db := BanUser(s.db, me.userId, login, true).0), g, me.(pc := Snapshotting(s.db.ids[login])));
    Go(init, steps, s, ModerateCommit(g, now, true), s', maxClients);
  }

  lemma NobodyToDisconnect(init: State, steps: seq<Step>, s: State, g: HandlerId, user: int, maxClients: int)
    requires RunTo(init, steps, s, maxClients)
    requires g in s.handlers && s.handlers[g].pc == Snapshotting(user) && user !in s.sessions
    ensures RunTo(init, steps + [Snapshot(g)] + [Close(g)], WithHandler(s, g, s.handlers[g].(pc := Idle)), maxClients)
  {
    var me := s.handlers[g];
    var s1, s2 := WithHandler(s, g, me.(pc := Closing([]))), WithHandler(s, g, me.(pc := Idle));
    Go(init, steps, s, Snapshot(g), s1, maxClients);
    CloseNone(init, steps + [Snapshot(g)], s1, g, maxClients);
    assert s2.handlers == s1.handlers[g := me.(pc := Idle)];
  }

  function Joined(s: State, h: HandlerId): State
    requires h in s.handlers
  {
    var me := s.handlers[h];
    WithHandler(s.(sessions := s.sessions[me.userId := [h]]), h, me.(pc := Idle))
  }

  lemma Join(init: State, steps: seq<Step>, s: State, h: HandlerId, user: int, maxClients: int)
    requires RunTo(init, steps, s, maxClients) && AboutToJoin(s, h, user)
    ensures RunTo(init, steps + [Add(h)], Joined(s, h), maxClients)
  {
    var none: seq<HandlerId> := [];
    assert none + [h] == [h];
    Go(init, steps, s, Add(h), Joined(s, h), maxClients);
  }

  lemma Unwind(init: State, steps: seq<Step>, s: State, g: HandlerId, maxClients: int)
    requires RunTo(init, steps, s, maxClients)
    requires g in s.handlers && s.handlers[g].pc.Snapshotting? && s.handlers[g].authed
    ensures RunTo(init, steps + [Crash(g)], WithHandler(s, g, s.handlers[g].(pc := Removing(ThenExit))), maxClients)
  {
    Go(init, steps, s, Crash(g), WithHandler(s, g, s.handlers[g].(pc := Removing(ThenExit))), maxClients);
  }

  /** A moderator, handler 0, past the check, and the other user, handler 1, about to be registered. */
  lemma ModeratorAndVictim(init: State, moderator: string, victim: string, now: Timestamp, maxClients: int)
    returns (steps: seq<Step>, s: State)
    requires Init(init) && maxClients >= 2
    requires moderator in init.db.ids && IsModerator(init.db, init.db.ids[moderator])
    requires victim in init.db.ids && victim != moderator && !IsBanned(init.db, init.db.ids[victim])
    ensures RunTo(init, steps, s, maxClients)
    ensures s.handlers.Keys == {0, 1} && s.handlers[0].pc == Allowed(ToBan, victim) && s.handlers[0].authed
    ensures s.handlers[0].userId in s.db.users
    ensures AboutToJoin(s, 1, init.db.ids[victim])
    ensures victim in s.db.ids && s.db.ids[victim] == init.db.ids[victim]
  {
    var s1 := Connected(init, 0);
    steps := Connect(init, [], init, 0, maxClients);
    var s2 := Connected(s1, 1);
    steps := Connect(init, steps, s1, 1, maxClients);
    var s3 := SignedIn(s2, 0, moderator, now);
    steps := SignIn(init, steps, s2, 0, moderator, now, maxClients);
    var s4 := Permitted(s3, 0, victim);
    steps := PassCheck(init, steps, s3, 0, victim, maxClients);
    s := SignedIn(s4, 1, victim, now);
    steps := SignIn(init, steps, s4, 1, victim, now, maxClients);
  }

  /**
   Whenever there is room for two clients, a moderator and another user who is not
   banned: some run without a crash ends with that user banned and with a
   registered, open session that nobody will shut and that can go on to act.
   */
  lemma BanCanBeOutrun(init: State, moderator: string, victim: string, now: Timestamp, maxClients: int)
    returns (steps: seq<Step>)
    requires Init(init) && maxClients >= 2
    requires moderator in init.db.ids && IsModerator(init.db, init.db.ids[moderator])
    requires victim in init.db.ids && victim != moderator && !IsBanned(init.db, init.db.ids[victim])
    ensures Legal(init, steps, maxClients) && Escaped(Reach(init, steps, maxClients), 1, init.db.ids[victim])
  {
    var user, s := init.db.ids[victim], init;
    steps, s := ModeratorAndVictim(init, moderator, victim, now, maxClients);
    var banned := BanCommits(init, steps, s, 0, victim, now, maxClients);
    steps := steps + [ModerateCommit(0, now, true)];
    NobodyToDisconnect(init, steps, banned, 0, user, maxClients);
    steps := steps + [Snapshot(0)] + [Close(0)];
    var done := WithHandler(banned, 0, banned.handlers[0].(pc := Idle));
    Join(init, steps, done, 1, user, maxClients);
    steps := steps + [Add(1)];
    assert NoPlans(Joined(done, 1));
  }

  /**
   And some run ends like that because the moderator's thread is unwound between
   the ban and its disconnect.
   */
  lemma BanCanBeAbandoned(init: State, moderator: string, victim: string, now: Timestamp, maxClients: int)
    returns (steps: seq<Step>)
    requires Init(init) && maxClients >= 2
    requires moderator in init.db.ids && IsModerator(init.db, init.db.ids[moderator])
    requires victim in init.db.ids && victim != moderator && !IsBanned(init.db, init.db.ids[victim])
    ensures Legal(init, steps, maxClients) && Escaped(Reach(init, steps, maxClients), 1, init.db.ids[victim])
  {
    var user, s := init.db.ids[victim], init;
    steps, s := ModeratorAndVictim(init, moderator, victim, now, maxClients);
    Join(init, steps, s, 1, user, maxClients);
    steps := steps + [Add(1)];
    var banned := BanCommits(init, steps, Joined(s, 1), 0, victim, now, maxClients);
    steps := steps + [ModerateCommit(0, now, true)];
    Unwind(init, steps, banned, 0, maxClients);
    steps := steps + [Crash(0)];
    var unwound := WithHandler(banned, 0, banned.handlers[0].(pc := Removing(ThenExit)));
    assert NoPlans(unwound);
  }

  /** A registration that fails half way leaves an empty list behind, for a while. */
  lemma RegistrationCanFailHalfWay(init: State, login: string, now: Timestamp, maxClients: int)
    returns (steps: seq<Step>)
    requires Init(init) && maxClients >= 1 && CanLogIn(init.db, login)
    ensures Legal(init, steps, maxClients)
    ensures var s := Reach(init, steps, maxClients);
            init.db.ids[login] in s.sessions && s.sessions[init.db.ids[login]] == []
  {
    var s1 := Connected(init, 0);
    steps := Connect(init, [], init, 0, maxClients);
    var s2 := SignedIn(s1, 0, login, now);
    steps := SignIn(init, steps, s1, 0, login, now, maxClients);
    FailHalfWay(init, steps, s2, 0, maxClients);
    steps := steps + [CrashInAdd(0)];
  }

  lemma FailHalfWay(init: State, steps: seq<Step>, s: State, h: HandlerId, maxClients: int)
    requires RunTo(init, steps, s, maxClients) && h in s.handlers && AboutToJoin(s, h, s.handlers[h].userId)
    ensures var me := s.handlers[h];
            RunTo(init, steps + [CrashInAdd(h)],
                  WithHandler(s.(sessions := s.sessions[me.userId := []]), h, me.(pc := Removing(ThenExit))),
                  maxClients)
  {
    var me := s.handlers[h];
    Go(init, steps, s, CrashInAdd(h),
       WithHandler(s.(sessions := s.sessions[me.userId := []]), h, me.(pc := Removing(ThenExit))), maxClients);
  }

  /** An exception after a login's commit leaves the user online with nobody to account for it. */
  lemma OnlineCanBeOrphaned(init: State, login: string, now: Timestamp, maxClients: int) returns (steps: seq<Step>)
    requires Init(init) && maxClients >= 1 && CanLogIn(init.db, login)
    ensures Legal(init, steps, maxClients)
    ensures var s := Reach(init, steps, maxClients);
            IsOnline(s, init.db.ids[login]) && !Accounted(s, init.db.ids[login], {})
  {
    var s1 := Connected(init, 0);
    steps := Connect(init, [], init, 0, maxClients);
    var s2 := Ticketed(s1, 0, login, now);
    steps := LogIn(init, steps, s1, 0, login, now, maxClients);
    UnwindLogin(init, steps, s2, 0, maxClients);
    steps := steps + [Crash(0)];
    NobodyAccounts(WithHandler(s2, 0, s2.handlers[0].(pc := Finished)), 0, init.db.ids[login]);
  }

  lemma UnwindLogin(init: State, steps: seq<Step>, s: State, h: HandlerId, maxClients: int)
    requires RunTo(init, steps, s, maxClients) && h in s.handlers && s.handlers[h].pc.Joining? && !s.handlers[h].authed
    ensures RunTo(init, steps + [Crash(h)], WithHandler(s, h, s.handlers[h].(pc := Finished)), maxClients)
  {
    Go(init, steps, s, Crash(h), WithHandler(s, h, s.handlers[h].(pc := Finished)), maxClients);
  }

  lemma NobodyAccounts(s: State, h: HandlerId, user: int)
    requires s.handlers.Keys == {h} && s.handlers[h].pc == Finished && s.sessions == map[]
    ensures !Accounted(s, user, {})
  {
  }

  // ----- a moderator acts after their own ban

  lemma DisconnectOne(init: State, steps: seq<Step>, s: State, g: HandlerId, h: HandlerId, user: int, maxClients: int)
    returns (more: seq<Step>)
    requires RunTo(init, steps, s, maxClients)
    requires g in s.handlers && s.handlers[g].pc == Snapshotting(user) && user in s.sessions && s.sessions[user] == [h]
    requires h in s.handlers && h != g
    ensures RunTo(init, more, Shut(s, g, h), maxClients)
  {
    var s1 := WithHandler(s, g, s.handlers[g].(pc := Closing([h])));
    Go(init, steps, s, Snapshot(g), s1, maxClients);
    CloseOne(init, steps + [Snapshot(g)], s1, g, h, maxClients);
    CloseNone(init, steps + [Snapshot(g)] + [Close(g)], Closed(s1, g, h), g, maxClients);
    ShutAtLast(s, g, h);
    more := steps + [Snapshot(g)] + [Close(g)] + [Close(g)];
  }

  /** Handler `g` has shut the last handler of its list. */
  function Closed(s: State, g: HandlerId, h: HandlerId): State
    requires g in s.handlers && h in s.handlers && g != h
  {
    WithHandler(WithHandler(s, g, s.handlers[g].(pc := Closing([]))), h, s.handlers[h].(open := false))
  }

  lemma ShutAtLast(s: State, g: HandlerId, h: HandlerId)
    requires g in s.handlers && h in s.handlers && g != h
    ensures var s2 := Closed(WithHandler(s, g, s.handlers[g].(pc := Closing([h]))), g, h);
            WithHandler(s2, g, s2.handlers[g].(pc := Idle)) == Shut(s, g, h)
  {
  }

  lemma CloseOne(init: State, steps: seq<Step>, s: State, g: HandlerId, h: HandlerId, maxClients: int)
    requires RunTo(init, steps, s, maxClients)
    requires g in s.handlers && s.handlers[g].pc == Closing([h]) && h in s.handlers && h != g
    ensures RunTo(init, steps + [Close(g)], Closed(s, g, h), maxClients)
  {
    assert [h][1..] == [];
    Go(init, steps, s, Close(g), Closed(s, g, h), maxClients);
  }

  lemma CloseNone(init: State, steps: seq<Step>, s: State, g: HandlerId, maxClients: int)
    requires RunTo(init, steps, s, maxClients) && g in s.handlers && s.handlers[g].pc == Closing([])
    ensures RunTo(init, steps + [Close(g)], WithHandler(s, g, s.handlers[g].(pc := Idle)), maxClients)
  {
    Go(init, steps, s, Close(g), WithHandler(s, g, s.handlers[g].(pc := Idle)), maxClients);
  }

  /** Handler `h` has been disconnected by handler `g`. */
  function Shut(s: State, g: HandlerId, h: HandlerId): State
    requires g in s.handlers && h in s.handlers && g != h
  {
    WithHandler(WithHandler(s, h, s.handlers[h].(open := false)), g, s.handlers[g].(pc := Idle))
  }

  /** A moderator, handler 0, past the check, and a new connection, handler 1. */
  lemma OneModerator(init: State, first: string, victim: string, now: Timestamp, maxClients: int)
    returns (steps: seq<Step>, s: State)
    requires Init(init) && maxClients >= 2 && first in init.db.ids && IsModerator(init.db, init.db.ids[first])
    ensures RunTo(init, steps, s, maxClients) && s.handlers.Keys == {0, 1} && s.db == LoggedIn(init.db, first, now)
    ensures s.handlers[0].pc == Allowed(ToBan, victim) && s.handlers[0].userId == init.db.ids[first]
    ensures s.handlers[1] == CONNECTED && s.sessions == map[init.db.ids[first] := [0]]
  {
    var s1 := Connected(init, 0);
    steps := Connect(init, [], init, 0, maxClients);
    var s2 := Connected(s1, 1);
    steps := Connect(init, steps, s1, 1, maxClients);
    var s3 := SignedIn(s2, 0, first, now);
    steps := SignIn(init, steps, s2, 0, first, now, maxClients);
    s := Permitted(s3, 0, victim);
    steps := PassCheck(init, steps, s3, 0, victim, maxClients);
  }

  lemma LoginChangesOneUser(t: Tables, login: string, now: Timestamp, id: int)
    requires CanLogIn(t, login) && id in t.users && id != t.ids[login]
    ensures var t' := LoggedIn(t, login, now);
            Valid(t') && t'.ids == t.ids && t'.users.Keys == t.users.Keys && t'.users[id] == t.users[id]
  {
    LoginFollows(t, login, true, now, true);
  }

  /** Two moderators, handlers 0 and 1, past their checks: the first to ban the victim, the second to ban the first. */
  lemma TwoModerators(init: State, first: string, second: string, victim: string, now: Timestamp, maxClients: int)
    returns (steps: seq<Step>, s: State)
    requires Init(init) && maxClients >= 2 && first != second && victim in init.db.ids
    requires first in init.db.ids && IsModerator(init.db, init.db.ids[first])
    requires second in init.db.ids && IsModerator(init.db, init.db.ids[second])
    ensures RunTo(init, steps, s, maxClients) && s.handlers.Keys == {0, 1} && s.db.ids == init.db.ids
    ensures s.handlers[0].pc == Allowed(ToBan, victim) && s.handlers[0].userId == init.db.ids[first]
    ensures s.handlers[1].pc == Allowed(ToBan, first) && s.handlers[1].userId == init.db.ids[second]
    ensures init.db.ids[first] in s.sessions && s.sessions[init.db.ids[first]] == [0]
    ensures s.db.users.Keys == init.db.users.Keys
  {
    var s4 := init;
    steps, s4 := OneModerator(init, first, victim, now, maxClients);
    LoginChangesOneUser(init.db, first, now, init.db.ids[second]);
    var s5 := SignedIn(s4, 1, second, now);
    steps := SignIn(init, steps, s4, 1, second, now, maxClients);
    LoginChangesOneUser(s4.db, second, now, init.db.ids[first]);
    s := Permitted(s5, 1, first);
    steps := PassCheck(init, steps, s5, 1, first, maxClients);
  }

  /**
   A moderator who has passed the check carries the ban out although their own ban,
   with its whole disconnect, has come first.
   */
  lemma BannedModeratorCanStillBan(init: State, first: string, second: string, victim: string, now: Timestamp,
                                   maxClients: int) returns (steps: seq<Step>)
    requires Init(init) && maxClients >= 2 && first != second && victim in init.db.ids
    requires first in init.db.ids && IsModerator(init.db, init.db.ids[first])
    requires second in init.db.ids && IsModerator(init.db, init.db.ids[second])
    ensures steps != [] && Legal(init, steps, maxClients) && Legal(init, steps[..|steps| - 1], maxClients)
    ensures var before, after := Reach(init, steps[..|steps| - 1], maxClients), Reach(init, steps, maxClients);
            && IsBanned(before.db, init.db.ids[first]) && 0 in before.handlers && !before.handlers[0].open
            && IsBanned(after.db, init.db.ids[victim])
            && after.db.audit == before.db.audit + [AuditEntry(Some(init.db.ids[first]), BannedUser, victim)]
  {
    var s := init;
    steps, s := TwoModerators(init, first, second, victim, now, maxClients);
    var banned := BanCommits(init, steps, s, 1, first, now, maxClients);
    steps := steps + [ModerateCommit(1, now, true)];
    steps := DisconnectOne(init, steps, banned, 1, 0, init.db.ids[first], maxClients);
    var before := Shut(banned, 1, 0);
    var after := BanCommits(init, steps, before, 0, victim, now, maxClients);
    var longer := steps + [ModerateCommit(0, now, true)];
    assert longer[..|longer| - 1] == steps;
    steps := longer;
  }
}
