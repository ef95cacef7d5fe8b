/**
 What every command-level run keeps: the registry and the handlers agree, no
 banned user has an open session, and the audit trail tells who is banned.
 */
module ChatSafety {
  import opened Lines
  import opened Tables
  import opened Registry
  import opened Chat

  // ----- invariants

  /** Every registry entry is a non-empty list of different handlers that are logged in as that user. */
  predicate RegistryNamesHandlers<H(==)>(w: World<H>) {
    forall user | user in w.sessions ::
      && w.sessions[user] != []
      && NoDup(w.sessions[user])
      && (forall h | h in w.sessions[user] ::
            h in w.handlers && w.handlers[h].authed && w.handlers[h].userId == user)
  }

  /** Every logged-in handler is registered, and knows its user's login; the role it knows may be out of date. */
  predicate HandlersAreRegistered<H(==)>(w: World<H>) {
    forall h | h in w.handlers && w.handlers[h].authed ::
      var me := w.handlers[h];
      && me.userId in w.sessions && h in w.sessions[me.userId]
      && me.userId in w.db.users
      && me.username == w.db.users[me.userId].login
  }

  predicate Agreement<H(==)>(w: World<H>) {
    Valid(w.db) && RegistryNamesHandlers(w) && HandlersAreRegistered(w)
  }

  /** A logged-in handler with an open socket does not belong to a banned user. */
  predicate BannedIsShut<H(==)>(w: World<H>) {
    forall h | h in w.handlers && w.handlers[h].authed && w.handlers[h].open ::
      !IsBanned(w.db, w.handlers[h].userId)
  }

  predicate Inv<H(==)>(w: World<H>) {
    Agreement(w) && BannedIsShut(w)
  }

  /** The state a server starts in: some tables, nobody connected. */
  predicate Init<H(==)>(w: World<H>) {
    Valid(w.db) && w.sessions == map[] && w.handlers == map[] && w.log == []
  }

  // ----- building blocks

  /** Two worlds that differ only in what has been sent. */
  predicate OnlySent<H(==)>(w: World<H>, w': World<H>) {
    w'.db == w.db && w'.sessions == w.sessions && w'.handlers == w.handlers && w.log <= w'.log
  }

  lemma {:induction false} RespondAllOnlySends<H>(w: World<H>, h: H, lines: seq<Line>, env: Env<H>)
    ensures OnlySent(w, RespondAll(w, h, lines, env))
  {
    if lines != [] {
      RespondAllOnlySends(w, h, lines[..|lines| - 1], env);
    }
  }

  lemma {:induction false} PushOnlySends<H>(w: World<H>, hs: seq<H>, line: Line, env: Env<H>)
    ensures OnlySent(w, PushTo(w, hs, line, env))
  {
    if hs != [] {
      PushOnlySends(w, hs[..|hs| - 1], line, env);
    }
  }

  /** After a disconnect exactly the named handlers have lost their sockets, and nothing else changed. */
  lemma {:induction false} DisconnectShuts<H>(w: World<H>, hs: seq<H>, env: Env<H>)
    ensures var w' := Disconnect(w, hs, env);
            && w'.db == w.db && w'.sessions == w.sessions && w'.handlers.Keys == w.handlers.Keys
            && (forall h | h in w.handlers ::
                  w'.handlers[h] == w.handlers[h].(open := w.handlers[h].open && h !in hs))
            && w.log <= w'.log
  {
    if hs != [] {
      var front, last := hs[..|hs| - 1], hs[|hs| - 1];
      DisconnectShuts(w, front, env);
      assert forall h | h in w.handlers :: h in hs <==> (h in front || h == last);
    }
  }

  /** New tables under unchanged handlers. */
  lemma NewTables<H>(w: World<H>, db: Tables)
    requires Inv(w) && Valid(db) && Keeps(w.db, db)
    requires forall id | id in w.db.users :: IsBanned(db, id) ==> IsBanned(w.db, id)
    ensures Inv(w.(db := db))
  {
  }

  lemma CleanupKeepsInv<H>(w: World<H>, h: H, env: Env<H>)
    requires Inv(w) && h in w.handlers
    ensures var w' := Cleanup(w, h, env);
            && Inv(w') && Follows(w.db, w'.db)
            && h in w'.handlers && w'.handlers[h].open == w.handlers[h].open && !w'.handlers[h].authed
            && (forall user | user in w'.sessions :: h !in w'.sessions[user])
            && (forall id | id in w.db.users :: IsBanned(w'.db, id) <==> IsBanned(w.db, id))
  {
    var me := w.handlers[h];
    FollowsIsReflexive(w.db);
    if me.authed {
      var db := LogoutUser(w.db, me.userId, env.now, env.upNext);
      LogoutFollows(w.db, me.userId, env.now, env.upNext);
      NewTables(w, db);
      ForgetSession(w.(db := db), h);
    }
  }

  /** Taking a handler out of the registry and logging it out go together. */
  lemma ForgetSession<H>(w: World<H>, h: H)
    requires Inv(w) && h in w.handlers && w.handlers[h].authed
    ensures var me := w.handlers[h];
            var sessions := RemoveSession(w.sessions, me.userId, h);
            var out := me.(authed := false, userId := -1, username := "", role := OrdinaryUser);
            && Inv(w.(sessions := sessions, handlers := w.handlers[h := out]))
            && (forall user | user in sessions :: h !in sessions[user])
  {
    WithoutKeepsNoDup(w.sessions[w.handlers[h].userId], h);
  }

  lemma StartSessionKeepsInv<H>(w: World<H>, h: H, r: LoginResult)
    requires Inv(w) && h in w.handlers && forall user | user in w.sessions :: h !in w.sessions[user]
    requires !w.handlers[h].authed
    requires r.id in w.db.users && w.db.users[r.id].login == r.login && w.db.users[r.id].role == r.role
    requires !IsBanned(w.db, r.id)
    ensures Inv(StartSession(w, h, r))
  {
    var w' := StartSession(w, h, r);
    forall user | user in w'.sessions
      ensures w'.sessions[user] != [] && NoDup(w'.sessions[user])
      ensures forall x | x in w'.sessions[user] ::
                x in w'.handlers && w'.handlers[x].authed && w'.handlers[x].userId == user
    {
      if user == r.id && user in w.sessions {
        assert w'.sessions[user] == w.sessions[user] + [h];
      }
    }
  }

  // ----- the commands

  lemma LoginKeepsInv<H>(w: World<H>, h: H, login: string, env: Env<H>)
    requires Inv(w) && h in w.handlers
    ensures Inv(HandleLogin(w, h, login, env)) && Follows(w.db, HandleLogin(w, h, login, env).db)
  {
    var (db, r) := LoginUser(w.db, login, env.passwordOk, env.now, env.up);
    LoginFollows(w.db, login, env.passwordOk, env.now, env.up);
    NewTables(w, db);
    if r.status == Ok {
      var clean := Cleanup(w.(db := db), h, env);
      CleanupKeepsInv(w.(db := db), h, env);
      FollowsIsTransitive(w.db, db, clean.db);
      StartSessionKeepsInv(clean, h, r);
    }
  }

  lemma MessageKeepsInv<H>(w: World<H>, h: H, to: string, text: string, env: Env<H>)
    requires Inv(w) && h in w.handlers
    ensures Inv(HandleMessage(w, h, to, text, env)) && Follows(w.db, HandleMessage(w, h, to, text, env).db)
  {
    FollowsIsReflexive(w.db);
    if w.handlers[h].authed {
      var (db, r) := SendMessage(w.db, w.handlers[h].userId, to, text, env.now, env.up);
      SendFollows(w.db, w.handlers[h].userId, to, text, env.now, env.up);
      NewTables(w, db);
      if r.status == Ok {
        AfterStoreOnlySends(w.(db := db), h, to, text, r.id, env);
      }
    }
  }

  lemma AfterStoreOnlySends<H>(w: World<H>, h: H, to: string, text: string, id: nat, env: Env<H>)
    requires h in w.handlers
    ensures OnlySent(w, AfterStore(w, h, to, text, id, env))
  {
    var answered := Respond(w, h, MessageOk(id), env);
    match UserIdByLogin(w.db, to, env.upNext)
    case None =>
    case Some(user) =>
      PushOnlySends(answered, SessionsOf(w, user), Pushed(w.handlers[h].username, text), env);
  }

  /** The heart of it: a ban and the disconnect that goes with it leave no open session of the banned user. */
  lemma BanKeepsInv<H>(w: World<H>, h: H, login: string, env: Env<H>)
    requires Inv(w) && h in w.handlers
    ensures Inv(HandleBan(w, h, login, env)) && Follows(w.db, HandleBan(w, h, login, env).db)
  {
    FollowsIsReflexive(w.db);
    if MayModerate(w, h, env) {
      var (db, r) := BanUser(w.db, w.handlers[h].userId, login, env.upNext);
      BanFollows(w.db, w.handlers[h].userId, login, env.upNext);
      if r.status == Ok {
        DisconnectShuts(w.(db := db), SessionsOf(w, r.id), env);
        DisconnectedKeepsInv(w, db, SessionsOf(w, r.id), Disconnect(w.(db := db), SessionsOf(w, r.id), env));
      } else {
        NewTables(w, db);
      }
    }
  }

  /** Tables may ban more users as long as all sessions of those users lose their sockets. */
  lemma DisconnectedKeepsInv<H>(w: World<H>, db: Tables, hs: seq<H>, w': World<H>)
    requires Inv(w) && Valid(db) && Keeps(w.db, db)
    requires w'.db == db && w'.sessions == w.sessions && w'.handlers.Keys == w.handlers.Keys
    requires forall h | h in w.handlers ::
               w'.handlers[h] == w.handlers[h].(open := w.handlers[h].open && h !in hs)
    requires forall id | id in w.db.users :: IsBanned(db, id) ==> IsBanned(w.db, id) || hs == SessionsOf(w, id)
    ensures Inv(w')
  {
    forall h | h in w'.handlers && w'.handlers[h].authed && w'.handlers[h].open
      ensures !IsBanned(w'.db, w'.handlers[h].userId)
    {
      assert h in w.handlers && w.handlers[h].open;
      assert h in SessionsOf(w, w.handlers[h].userId);
    }
  }

  lemma UnbanKeepsInv<H>(w: World<H>, h: H, login: string, env: Env<H>)
    requires Inv(w) && h in w.handlers
    ensures Inv(HandleUnban(w, h, login, env)) && Follows(w.db, HandleUnban(w, h, login, env).db)
  {
    FollowsIsReflexive(w.db);
    if MayModerate(w, h, env) {
      var (db, r) := UnbanUser(w.db, w.handlers[h].userId, login, env.upNext);
      UnbanFollows(w.db, w.handlers[h].userId, login, env.upNext);
      NewTables(w, db);
    }
  }

  lemma KickKeepsInv<H>(w: World<H>, h: H, login: string, env: Env<H>)
    requires Inv(w) && h in w.handlers
    ensures Inv(HandleKick(w, h, login, env)) && Follows(w.db, HandleKick(w, h, login, env).db)
  {
    FollowsIsReflexive(w.db);
    if MayModerate(w, h, env) {
      var (db, r) := KickUser(w.db, w.handlers[h].userId, login, env.now, env.upNext);
      KickFollows(w.db, w.handlers[h].userId, login, env.now, env.upNext);
      if r.status == Ok {
        DisconnectShuts(w.(db := db), SessionsOf(w, r.id), env);
        DisconnectedKeepsInv(w, db, SessionsOf(w, r.id), Disconnect(w.(db := db), SessionsOf(w, r.id), env));
      } else {
        NewTables(w, db);
      }
    }
  }

  lemma RegisterKeepsInv<H>(w: World<H>, h: H, login: string, pass: string, env: Env<H>)
    requires Inv(w)
    ensures Inv(HandleRegister(w, h, login, pass, env)) && Follows(w.db, HandleRegister(w, h, login, pass, env).db)
  {
    RegisterFollows(w.db, login, pass, env.hash, env.up);
    NewTables(w, RegisterUser(w.db, login, pass, env.hash, env.up).0);
  }

  lemma LogoutKeepsInv<H>(w: World<H>, h: H, env: Env<H>)
    requires Inv(w) && h in w.handlers
    ensures Inv(HandleLogout(w, h, env)) && Follows(w.db, HandleLogout(w, h, env).db)
  {
    CleanupKeepsInv(w, h, env);
  }

  lemma LeaveKeepsInv<H>(w: World<H>, e: Event<H>)
    requires Inv(w) && e.Leave? && Enabled(w, e)
    ensures Inv(After(w, e)) && Follows(w.db, After(w, e).db)
  {
    var told := if e.tooLarge then Respond(w, e.h, FrameTooLarge, e.env) else w;
    CleanupKeepsInv(told, e.h, e.env);
    GoneKeepsInv(Cleanup(told, e.h, e.env), e.h);
  }

  /** A handler that is nobody's session can go. */
  lemma GoneKeepsInv<H>(w: World<H>, h: H)
    requires Inv(w) && h in w.handlers && !w.handlers[h].authed
    requires forall user | user in w.sessions :: h !in w.sessions[user]
    ensures Inv(w.(handlers := w.handlers - {h}))
  {
  }

  lemma CommandKeepsInv<H>(w: World<H>, h: H, c: Command, env: Env<H>)
    requires Inv(w) && h in w.handlers
    ensures Inv(HandleCommand(w, h, c, env)) && Follows(w.db, HandleCommand(w, h, c, env).db)
  {
    FollowsIsReflexive(w.db);
    match c
    case Register(login, pass) => RegisterKeepsInv(w, h, login, pass, env);
    case Login(login, _) => LoginKeepsInv(w, h, login, env);
    case Logout => LogoutKeepsInv(w, h, env);
    case Message(to, text) => MessageKeepsInv(w, h, to, text, env);
    case Ban(login) => BanKeepsInv(w, h, login, env);
    case Unban(login) => UnbanKeepsInv(w, h, login, env);
    case Kick(login) => KickKeepsInv(w, h, login, env);
    case _ => RespondAllOnlySends(w, h, Answer(w, h, c, env), env);
  }

  lemma StepKeepsInv<H>(w: World<H>, e: Event<H>)
    requires Inv(w) && Enabled(w, e)
    ensures Inv(After(w, e)) && Evolves(w.db, After(w, e).db)
  {
    match e
    case Accept(h) => FollowsIsReflexive(w.db); FollowsEvolves(w.db, w.db);
    case Frame(h, frame, env) =>
      CommandKeepsInv(w, h, ParseCommand(frame), env);
      FollowsEvolves(w.db, After(w, e).db);
    case Leave(_, _, _) =>
      LeaveKeepsInv(w, e);
      FollowsEvolves(w.db, After(w, e).db);
    case Operate(user, role) => OperateKeepsInv(w, user, role);
  }

  lemma OperateKeepsInv<H>(w: World<H>, user: int, role: Role)
    requires Inv(w) && user in w.db.users
    ensures Inv(w.(db := SetRole(w.db, user, role))) && Evolves(w.db, SetRole(w.db, user, role))
  {
    SetRoleEvolves(w.db, user, role);
    NewTables(w, SetRole(w.db, user, role));
  }

  // ----- runs

  ghost predicate Legal<H>(w: World<H>, events: seq<Event<H>>)
    requires Inv(w)
    decreases |events|
  {
    events == [] ||
    (Enabled(w, events[0]) && (StepKeepsInv(w, events[0]); Legal(After(w, events[0]), events[1..])))
  }

  ghost function Reach<H>(w: World<H>, events: seq<Event<H>>): World<H>
    requires Inv(w) && Legal(w, events)
    decreases |events|
  {
    if events == [] then w else StepKeepsInv(w, events[0]); Reach(After(w, events[0]), events[1..])
  }

  /** The world after the first `k` events of a run. */
  ghost function At<H>(w: World<H>, events: seq<Event<H>>, k: nat): World<H>
    requires Inv(w) && Legal(w, events) && k <= |events|
    decreases k
  {
    if k == 0 then w else StepKeepsInv(w, events[0]); At(After(w, events[0]), events[1..], k - 1)
  }

  lemma {:induction false} RunKeepsInv<H>(w: World<H>, events: seq<Event<H>>)
    requires Inv(w) && Legal(w, events)
    ensures Inv(Reach(w, events)) && Evolves(w.db, Reach(w, events).db)
    decreases |events|
  {
    if events == [] {
      FollowsIsReflexive(w.db);
      FollowsEvolves(w.db, w.db);
    } else {
      StepKeepsInv(w, events[0]);
      RunKeepsInv(After(w, events[0]), events[1..]);
      EvolvesIsTransitive(w.db, After(w, events[0]).db, Reach(w, events).db);
    }
  }

  // ----- main results

  /**
   In every run, every session registered for a banned user has a closed socket,
   and replaying the ban and unban rows gives exactly the banned users.
   */
  lemma BannedUsersHaveNoOpenSession<H>(init: World<H>, events: seq<Event<H>>, user: int, h: H)
    requires Init(init) && Legal(init, events)
    requires IsBanned(Reach(init, events).db, user) && h in SessionsOf(Reach(init, events), user)
    ensures h in Reach(init, events).handlers && !Reach(init, events).handlers[h].open
  {
    RunKeepsInv(init, events);
  }

  lemma AuditTellsWhoIsBanned<H>(init: World<H>, events: seq<Event<H>>)
    requires Init(init) && Legal(init, events)
    ensures var db := Reach(init, events).db;
            && Valid(db) && init.db.audit <= db.audit
            && BannedLogins(db) == Replay(BannedLogins(init.db), db.audit[|init.db.audit|..])
  {
    RunKeepsInv(init, events);
  }

  /** What a step may do in the name of a user: the user exists, is not banned, and moderates only with the role. */
  predicate ActsProperly(db: Tables, db': Tables) {
    && (forall i | |db.messages| <= i < |db'.messages| ::
          db'.messages[i].sender in db.users && !IsBanned(db, db'.messages[i].sender))
    && (forall i | |db.audit| <= i < |db'.audit| && Moderation(db'.audit[i].action) ::
          && db'.audit[i].actor.Some?
          && var actor := db'.audit[i].actor.value;
             actor in db.users && !IsBanned(db, actor)
             && (db.users[actor].role == Admin || db.users[actor].role == Moderator))
  }

  predicate Moderation(a: Action) {
    a == BannedUser || a == UnbannedUser || a == KickedUser
  }

  lemma StepActsProperly<H>(w: World<H>, e: Event<H>)
    requires Inv(w) && Enabled(w, e)
    ensures ActsProperly(w.db, After(w, e).db)
  {
    match e
    case Accept(_) =>
    case Operate(_, _) =>
    case Leave(h, _, env) => CleanupActsProperly(w, h, env);
    case Frame(h, frame, env) => CommandActsProperly(w, h, ParseCommand(frame), env);
  }

  lemma CommandActsProperly<H>(w: World<H>, h: H, c: Command, env: Env<H>)
    requires Inv(w) && h in w.handlers && w.handlers[h].open
    ensures ActsProperly(w.db, HandleCommand(w, h, c, env).db)
  {
    match c
    case Register(login, pass) => RegisterActsProperly(w, h, login, pass, env);
    case Login(login, _) => LoginActsProperly(w, h, login, env);
    case Logout => CleanupActsProperly(w, h, env);
    case Message(to, text) => MessageActsProperly(w, h, to, text, env);
    case Ban(login) => BanActsProperly(w, h, login, env);
    case Unban(login) => UnbanActsProperly(w, h, login, env);
    case Kick(login) => KickActsProperly(w, h, login, env);
    case _ => RespondAllOnlySends(w, h, Answer(w, h, c, env), env);
  }

  lemma RegisterActsProperly<H>(w: World<H>, h: H, login: string, pass: string, env: Env<H>)
    ensures ActsProperly(w.db, HandleRegister(w, h, login, pass, env).db)
  {
  }

  lemma CleanupActsProperly<H>(w: World<H>, h: H, env: Env<H>)
    requires h in w.handlers
    ensures Cleanup(w, h, env).db.messages == w.db.messages && Cleanup(w, h, env).db.audit == w.db.audit
    ensures ActsProperly(w.db, HandleLogout(w, h, env).db)
  {
  }

  lemma LoginActsProperly<H>(w: World<H>, h: H, login: string, env: Env<H>)
    requires Inv(w) && h in w.handlers && w.handlers[h].open
    ensures ActsProperly(w.db, HandleLogin(w, h, login, env).db)
  {
    var (db, r) := LoginUser(w.db, login, env.passwordOk, env.now, env.up);
    CleanupActsProperly(w.(db := db), h, env);
  }

  lemma MessageActsProperly<H>(w: World<H>, h: H, to: string, text: string, env: Env<H>)
    requires Inv(w) && h in w.handlers && w.handlers[h].open
    ensures ActsProperly(w.db, HandleMessage(w, h, to, text, env).db)
  {
    if w.handlers[h].authed {
      var (db, r) := SendMessage(w.db, w.handlers[h].userId, to, text, env.now, env.up);
      if r.status == Ok {
        AfterStoreOnlySends(w.(db := db), h, to, text, r.id, env);
      }
    }
  }

  lemma BanActsProperly<H>(w: World<H>, h: H, login: string, env: Env<H>)
    requires Inv(w) && h in w.handlers && w.handlers[h].open
    ensures ActsProperly(w.db, HandleBan(w, h, login, env).db)
  {
    if MayModerate(w, h, env) {
      var (db, r) := BanUser(w.db, w.handlers[h].userId, login, env.upNext);
      DisconnectShuts(w.(db := db), SessionsOf(w, r.id), env);
    }
  }

  lemma UnbanActsProperly<H>(w: World<H>, h: H, login: string, env: Env<H>)
    requires Inv(w) && h in w.handlers && w.handlers[h].open
    ensures ActsProperly(w.db, HandleUnban(w, h, login, env).db)
  {
  }

  lemma KickActsProperly<H>(w: World<H>, h: H, login: string, env: Env<H>)
    requires Inv(w) && h in w.handlers && w.handlers[h].open
    ensures ActsProperly(w.db, HandleKick(w, h, login, env).db)
  {
    if MayModerate(w, h, env) {
      var (db, r) := KickUser(w.db, w.handlers[h].userId, login, env.now, env.upNext);
      DisconnectShuts(w.(db := db), SessionsOf(w, r.id), env);
    }
  }

  /**
   Banned users cannot act: in every run, no step stores a message or performs a
   ban, unban or kick in the name of a user who is banned when the step begins,
   and every moderation names an actor with the stored role for it, although
   neither `sendMessage` nor `hasModeratorRights` looks at the ban.
   */
  lemma BannedUsersCannotAct<H>(init: World<H>, events: seq<Event<H>>, e: Event<H>)
    requires Init(init) && Legal(init, events) && Enabled(Reach(init, events), e)
    ensures Inv(Reach(init, events))
    ensures ActsProperly(Reach(init, events).db, After(Reach(init, events), e).db)
  {
    RunKeepsInv(init, events);
    StepActsProperly(Reach(init, events), e);
  }
}
