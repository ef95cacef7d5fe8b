/**
 What each command line brings about, from the frame to the tables, the registry,
 the sockets and the lines sent: when it is carried out, and what is answered when
 it is not.
 */
module FrameEffects {
  import opened Lines
  import opened CommandLines
  import opened Tables
  import opened TransactionLaws
  import opened Registry
  import opened Chat
  import opened ChatSafety
  import opened ChatEffects
  import opened ChatDelivery

  // ----- what is sent

  /** One call: whether it succeeds is up to the socket, and it is recorded for the user of the session. */
  predicate Recorded<H(==)>(w: World<H>, e: Sent<H>, h: H, line: Line, env: Env<H>) {
    && h in w.handlers && e.to == h && e.line == line && e.stored == |w.db.messages|
    && (e.ok <==> w.handlers[h].open && env.accepts(h, line))
    && (e.user.Some? <==> w.handlers[h].authed) && (e.user.Some? ==> e.user.value == w.handlers[h].userId)
  }

  /** Exactly the lines were sent, in order, to one handler. */
  predicate Answered<H(==)>(w: World<H>, w': World<H>, h: H, lines: seq<Line>, env: Env<H>) {
    && w.log <= w'.log && |w'.log| == |w.log| + |lines|
    && forall i | 0 <= i < |lines| :: Recorded(w', w'.log[|w.log| + i], h, lines[i], env)
  }

  /** No session, socket or handler changed. */
  predicate SameSessions<H(==)>(w: World<H>, w': World<H>) {
    w'.sessions == w.sessions && w'.handlers == w.handlers
  }

  lemma OneAnswer<H>(w: World<H>, h: H, line: Line, env: Env<H>)
    requires h in w.handlers
    ensures Answered(w, Respond(w, h, line, env), h, [line], env)
  {
  }

  /** The same, when something else than the log changed before. */
  lemma AnsweredAfter<H>(w: World<H>, v: World<H>, h: H, line: Line, env: Env<H>)
    requires h in v.handlers && v.log == w.log
    ensures Answered(w, Respond(v, h, line, env), h, [line], env)
  {
  }

  lemma {:induction false} AllAnswered<H>(w: World<H>, h: H, lines: seq<Line>, env: Env<H>)
    requires h in w.handlers
    ensures var w' := RespondAll(w, h, lines, env);
            Answered(w, w', h, lines, env) && SameSessions(w, w') && w'.db == w.db
  {
    if lines != [] {
      AllAnswered(w, h, lines[..|lines| - 1], env);
    }
  }

  // ----- accounts and sessions

  /** The line that answers a registration. */
  function RegisterAnswer(r: DbResult): Line {
    if r.status == Ok then RegisterOk else RegisterError(r.status, r.reason)
  }

  lemma RegisterTakesHold<H>(w: World<H>, h: H, login: string, pass: string, env: Env<H>)
    requires Inv(w) && Word(login) && Word(pass)
    requires Enabled(w, Frame(h, Spaced("REGISTER", Spaced(login, pass)), env))
    ensures var w' := After(w, Frame(h, Spaced("REGISTER", Spaced(login, pass)), env));
            var r := RegisterUser(w.db, login, pass, env.hash, env.up).1;
            && RegisterMeans(w.db, w'.db, r, login, pass, env.hash, env.up) && SameSessions(w, w')
            && Answered(w, w', h, [RegisterAnswer(r)], env)
  {
    RegisterLine(login, pass);
    RegisterLaw(w.db, login, pass, env.hash, env.up);
    var (db, r) := RegisterUser(w.db, login, pass, env.hash, env.up);
    AnsweredAfter(w, w.(db := db), h, RegisterAnswer(r), env);
  }

  /** A session has ended: the handler is as new except for its socket, and is in no list. */
  ghost predicate SessionEnded<H>(w: World<H>, w': World<H>, h: H) {
    && h in w.handlers && w'.handlers == w.handlers[h := Handler(w.handlers[h].open, false, -1, "", OrdinaryUser)]
    && (forall user: int :: SessionsOf(w', user) == Without(SessionsOf(w, user), h))
    && (forall user | user in w'.sessions :: w'.sessions[user] != [])
  }

  lemma CleanupEndsSession<H>(w: World<H>, h: H, env: Env<H>)
    requires Inv(w) && h in w.handlers && w.handlers[h].authed
    ensures var w' := Cleanup(w, h, env);
            && SessionEnded(w, w', h) && w'.log == w.log
            && LogoutMeans(w.db, w'.db, w.handlers[h].userId, env.now, env.upNext)
  {
    LogoutLaw(w.db, w.handlers[h].userId, env.now, env.upNext);
    var w' := Cleanup(w, h, env);
    forall user: int ensures SessionsOf(w', user) == Without(SessionsOf(w, user), h) {
      if user != w.handlers[h].userId {
        WithoutAbsent(SessionsOf(w, user), h);
      }
    }
  }

  /** A logout ends the session and logs its user out; without a session it only answers. */
  lemma LogoutTakesHold<H>(w: World<H>, h: H, env: Env<H>)
    requires Inv(w) && Enabled(w, Frame(h, "LOGOUT", env))
    ensures var w' := After(w, Frame(h, "LOGOUT", env));
            && Answered(w, w', h, [LogoutOk], env)
            && if w.handlers[h].authed then
                 SessionEnded(w, w', h) && LogoutMeans(w.db, w'.db, w.handlers[h].userId, env.now, env.upNext)
               else SameSessions(w, w') && w'.db == w.db
  {
    LogoutLine("");
    var clean := Cleanup(w, h, env);
    if w.handlers[h].authed {
      CleanupEndsSession(w, h, env);
      SentAfterwards(w, clean, h, LogoutOk, env);
    }
    AnsweredAfter(w, clean, h, LogoutOk, env);
  }

  /** Sending a line changes nothing about how a session ended. */
  lemma SentAfterwards<H>(w: World<H>, v: World<H>, h: H, line: Line, env: Env<H>)
    requires SessionEnded(w, v, h)
    ensures SessionEnded(w, Respond(v, h, line, env), h)
  {
    var w' := Respond(v, h, line, env);
    forall user: int ensures SessionsOf(w', user) == SessionsOf(v, user) {
    }
  }

  /** A connection that goes away ends its session the same way, and then the handler is gone. */
  lemma LeaveTakesHold<H>(w: World<H>, h: H, tooLarge: bool, env: Env<H>)
    requires Inv(w) && Enabled(w, Leave(h, tooLarge, env))
    ensures var w' := After(w, Leave(h, tooLarge, env));
            && w'.handlers == w.handlers - {h}
            && (forall user: int :: SessionsOf(w', user) == Without(SessionsOf(w, user), h))
            && (if w.handlers[h].authed then LogoutMeans(w.db, w'.db, w.handlers[h].userId, env.now, env.upNext)
                else w'.db == w.db && w'.sessions == w.sessions)
            && w'.log == (if tooLarge then Respond(w, h, FrameTooLarge, env).log else w.log)
  {
    var told := if tooLarge then Respond(w, h, FrameTooLarge, env) else w;
    var clean := Cleanup(told, h, env);
    if w.handlers[h].authed {
      CleanupEndsSession(told, h, env);
      assert clean.handlers - {h} == w.handlers - {h};
    }
    var w' := After(w, Leave(h, tooLarge, env));
    forall user: int ensures SessionsOf(w', user) == Without(SessionsOf(w, user), h) {
      assert SessionsOf(w', user) == SessionsOf(clean, user) && SessionsOf(told, user) == SessionsOf(w, user);
      if !w.handlers[h].authed {
        WithoutAbsent(SessionsOf(w, user), h);
      }
    }
  }

  /** A new connection is open, logged out and can be read from. */
  lemma AcceptTakesHold<H>(w: World<H>, h: H, frame: string, env: Env<H>)
    requires Inv(w) && h !in w.handlers
    ensures Enabled(w, Event.Accept(h))
    ensures var w' := After(w, Event.Accept(h));
            && w'.handlers == w.handlers[h := Handler(true, false, -1, "", OrdinaryUser)]
            && w'.sessions == w.sessions && w'.db == w.db && w'.log == w.log
            && Enabled(w', Frame(h, frame, env))
  {
  }

  // ----- logging in

  function LoginAnswer(r: LoginResult): Line {
    if r.status == Ok then LoginOk(r.role) else LoginError(r.status, r.reason)
  }

  /** The tables after a login, and after the logout of the session it replaces. */
  predicate LoginTables<H(==)>(w: World<H>, w': World<H>, h: H, login: string, env: Env<H>)
    requires Valid(w.db) && h in w.handlers
  {
    var (mid, r) := LoginUser(w.db, login, env.passwordOk, env.now, env.up);
    && LoginMeans(w.db, mid, r, login, env.passwordOk, env.now, env.up)
    && (if r.status == Ok && w.handlers[h].authed
        then LogoutMeans(mid, w'.db, w.handlers[h].userId, env.now, env.upNext) else w'.db == mid)
  }

  lemma LoginTablesOf<H>(w: World<H>, h: H, login: string, env: Env<H>)
    requires Inv(w) && h in w.handlers
    ensures LoginTables(w, HandleLogin(w, h, login, env), h, login, env)
  {
    var (mid, r) := LoginUser(w.db, login, env.passwordOk, env.now, env.up);
    LoginLaw(w.db, login, env.passwordOk, env.now, env.up);
    if r.status == Ok && w.handlers[h].authed {
      LogoutLaw(mid, w.handlers[h].userId, env.now, env.upNext);
    }
  }

  /** A session has started: whatever session there was has ended, and the handler is last in its user's list. */
  ghost predicate SessionStarted<H>(w: World<H>, w': World<H>, h: H, r: LoginResult) {
    && h in w.handlers
    && w'.handlers == w.handlers[h := Handler(w.handlers[h].open, true, r.id, r.login, r.role)]
    && (forall user: int ::
          SessionsOf(w', user) == Without(SessionsOf(w, user), h) + (if user == r.id then [h] else []))
  }

  lemma SessionStartedOf<H>(w: World<H>, h: H, r: LoginResult, env: Env<H>)
    requires Inv(w) && h in w.handlers
    ensures SessionStarted(w, StartSession(Cleanup(w, h, env), h, r), h, r)
    ensures StartSession(Cleanup(w, h, env), h, r).log == w.log
  {
    var clean := Cleanup(w, h, env);
    var w' := StartSession(clean, h, r);
    if w.handlers[h].authed {
      CleanupEndsSession(w, h, env);
    }
    forall user: int
      ensures SessionsOf(w', user) == Without(SessionsOf(w, user), h) + (if user == r.id then [h] else [])
    {
      if !w.handlers[h].authed {
        WithoutAbsent(SessionsOf(w, user), h);
      }
      assert SessionsOf(clean, user) == Without(SessionsOf(w, user), h);
    }
  }

  /** What a login command leaves behind. */
  ghost predicate LoginOutcome<H>(w: World<H>, w': World<H>, h: H, login: string, env: Env<H>)
    requires Valid(w.db) && h in w.handlers
  {
    var r := LoginUser(w.db, login, env.passwordOk, env.now, env.up).1;
    && LoginTables(w, w', h, login, env) && Answered(w, w', h, [LoginAnswer(r)], env)
    && (if r.status == Ok then SessionStarted(w, w', h, r) else SameSessions(w, w'))
  }

  lemma LoginOutcomeOf<H>(w: World<H>, h: H, login: string, env: Env<H>)
    requires Inv(w) && h in w.handlers
    ensures LoginOutcome(w, HandleLogin(w, h, login, env), h, login, env)
  {
    LoginTablesOf(w, h, login, env);
    var (mid, r) := LoginUser(w.db, login, env.passwordOk, env.now, env.up);
    if r.status == Ok {
      LoginFollows(w.db, login, env.passwordOk, env.now, env.up);
      NewTables(w, mid);
      var v := w.(db := mid);
      SessionStartedOf(v, h, r, env);
      var started := StartSession(Cleanup(v, h, env), h, r);
      AnsweredAfter(w, started, h, LoginOk(r.role), env);
      StartedFor(w, v, started, Respond(started, h, LoginOk(r.role), env), h, r);
    } else {
      AnsweredAfter(w, w.(db := mid), h, LoginError(r.status, r.reason), env);
    }
  }

  /** Tables and log play no part in how a session started. */
  lemma StartedFor<H>(w: World<H>, v: World<H>, started: World<H>, w': World<H>, h: H, r: LoginResult)
    requires SessionStarted(v, started, h, r) && SameSessions(w, v) && SameSessions(started, w')
    ensures SessionStarted(w, w', h, r)
  {
    forall user: int
      ensures SessionsOf(w', user) == SessionsOf(started, user) && SessionsOf(w, user) == SessionsOf(v, user)
    {
    }
  }

  lemma LoginFrameTakesHold<H>(w: World<H>, h: H, login: string, pass: string, env: Env<H>)
    requires Inv(w) && Word(login) && Word(pass)
    requires Enabled(w, Frame(h, Spaced("LOGIN", Spaced(login, pass)), env))
    ensures LoginOutcome(w, After(w, Frame(h, Spaced("LOGIN", Spaced(login, pass)), env)), h, login, env)
  {
    LoginLine(login, pass);
    LoginOutcomeOf(w, h, login, env);
  }

  // ----- messages

  /** What a message command leaves behind, by the result of its transaction. */
  predicate MessageOutcome<H(==)>(w: World<H>, w': World<H>, h: H, to: string, text: string, env: Env<H>)
    requires Valid(w.db) && h in w.handlers
  {
    var r := SendMessage(w.db, w.handlers[h].userId, to, text, env.now, env.up).1;
    && SendMeans(w.db, w'.db, r, w.handlers[h].userId, to, text, env.now, env.up) && SameSessions(w, w')
    && (if r.status != Ok then Answered(w, w', h, [MessageError(r.status, r.reason)], env)
        else if !env.upNext then r.id >= 0 && Answered(w, w', h, [MessageOk(r.id)], env)
        else
          && r.id >= 0 && to in w.db.ids && |w'.log| > |w.log|
          && Recorded(w', w'.log[|w.log|], h, MessageOk(r.id), env)
          && Offers(w, w', SessionsOf(w, w.db.ids[to]), w.db.ids[to], Pushed(w.handlers[h].username, text), env))
  }

  lemma MessageOutcomeOf<H>(w: World<H>, h: H, to: string, text: string, env: Env<H>)
    requires Inv(w) && h in w.handlers && w.handlers[h].authed
    ensures MessageOutcome(w, HandleMessage(w, h, to, text, env), h, to, text, env)
  {
    var (db, r) := SendMessage(w.db, w.handlers[h].userId, to, text, env.now, env.up);
    SendLaw(w.db, w.handlers[h].userId, to, text, env.now, env.up);
    SendsAfterStore(w, h, to, text, env);
    if r.status == Ok {
      AfterStoreOnlySends(w.(db := db), h, to, text, r.id, env);
      if env.upNext {
        StoredMessageIsOffered(w, h, to, text, env);
        FirstAnswer(w, h, to, text, r.id, env);
      }
    }
  }

  lemma FirstAnswer<H>(w: World<H>, h: H, to: string, text: string, id: nat, env: Env<H>)
    requires Inv(w) && h in w.handlers && w.handlers[h].authed
    requires SendMessage(w.db, w.handlers[h].userId, to, text, env.now, env.up).1 == DbResult(Ok, MessageStored, id)
    ensures var w' := HandleMessage(w, h, to, text, env);
            |w'.log| > |w.log| && Recorded(w', w'.log[|w.log|], h, MessageOk(id), env)
  {
    var db := SendMessage(w.db, w.handlers[h].userId, to, text, env.now, env.up).0;
    var v := w.(db := db);
    var answered := Respond(v, h, MessageOk(id), env);
    AfterStoreOnlySends(v, h, to, text, id, env);
    match UserIdByLogin(v.db, to, env.upNext)
    case None =>
    case Some(user) => PushOnlySends(answered, SessionsOf(v, user), Pushed(v.handlers[h].username, text), env);
  }

  lemma MessageFrameTakesHold<H>(w: World<H>, h: H, to: string, text: string, env: Env<H>)
    requires Inv(w) && Word(to) && '\n' !in text && Enabled(w, Frame(h, MessageCommand(to, text), env))
    ensures var w' := After(w, Frame(h, MessageCommand(to, text), env));
            if w.handlers[h].authed then MessageOutcome(w, w', h, to, text, env)
            else SameSessions(w, w') && w'.db == w.db && Answered(w, w', h, [NotAuth], env)
  {
    MessageCommandRoundTrip(to, text);
    if w.handlers[h].authed {
      MessageOutcomeOf(w, h, to, text, env);
    } else {
      OneAnswer(w, h, NotAuth, env);
    }
  }

  // ----- moderation

  predicate IsModeratorRole(r: Role) {
    r == Admin || r == Moderator
  }

  /** The session carries a moderator's role, and so does its user in the tables. */
  predicate Moderates<H(==)>(w: World<H>, h: H, env: Env<H>)
    requires h in w.handlers
  {
    var me := w.handlers[h];
    && me.authed && IsModeratorRole(me.role) && env.up
    && me.userId in w.db.users && IsModeratorRole(w.db.users[me.userId].role)
  }

  lemma ModeratesIff<H>(w: World<H>, h: H, env: Env<H>)
    requires h in w.handlers
    ensures Moderates(w, h, env) <==> MayModerate(w, h, env)
  {
  }

  /** A command that needs a moderator and does not get one. */
  predicate TurnedAway<H(==)>(w: World<H>, w': World<H>, h: H, env: Env<H>)
    requires h in w.handlers
  {
    && SameSessions(w, w') && w'.db == w.db
    && Answered(w, w', h, [if w.handlers[h].authed then Forbidden else NotAuth], env)
  }

  /** Each session of the user was told over the socket it had, and lost it; then the moderator was answered. */
  predicate ShutOut<H(==)>(w: World<H>, w': World<H>, user: int, h: H, answer: Line, env: Env<H>) {
    var hs, n := SessionsOf(w, user), |w.log|;
    && Shut(w, w', user) && w.log <= w'.log && |w'.log| == n + |hs| + 1
    && (forall i | 0 <= i < |hs| :: Recorded(w, w'.log[n + i], hs[i], Kicked, env))
    && Recorded(w', w'.log[n + |hs|], h, answer, env)
  }

  lemma ShutOutOf<H>(w: World<H>, w': World<H>, user: int, h: H, answer: Line, env: Env<H>)
    requires Inv(w) && h in w.handlers && Shut(w, w', user) && Told(w, w', user, h, answer, env)
    ensures ShutOut(w, w', user, h, answer, env)
  {
    var hs, n := SessionsOf(w, user), |w.log|;
    forall i | 0 <= i < |hs| ensures Recorded(w, w'.log[n + i], hs[i], Kicked, env) {
      assert w'.log[n + i] == Record(w, hs[i], Kicked, env);
      assert hs[i] in w.sessions[user];
    }
  }

  /** What a ban command leaves behind. */
  predicate BanOutcome<H(==)>(w: World<H>, w': World<H>, h: H, login: string, env: Env<H>)
    requires Valid(w.db) && h in w.handlers
  {
    if !Moderates(w, h, env) then TurnedAway(w, w', h, env)
    else
      var actor := w.handlers[h].userId;
      var r := BanUser(w.db, actor, login, env.upNext).1;
      && BanMeans(w.db, w'.db, r, actor, login, env.upNext)
      && (if r.status == Ok then ShutOut(w, w', r.id, h, Done, env)
          else SameSessions(w, w') && Answered(w, w', h, [Refused(r.status, r.reason)], env))
  }

  lemma BanFrameTakesHold<H>(w: World<H>, h: H, login: string, env: Env<H>)
    requires Inv(w) && Word(login) && Enabled(w, Frame(h, Spaced("BAN", login), env))
    ensures BanOutcome(w, After(w, Frame(h, Spaced("BAN", login), env)), h, login, env)
  {
    BanLine(login);
    BanOutcomeOf(w, h, login, env);
  }

  lemma BanOutcomeOf<H>(w: World<H>, h: H, login: string, env: Env<H>)
    requires Inv(w) && h in w.handlers
    ensures BanOutcome(w, HandleBan(w, h, login, env), h, login, env)
  {
    ModeratesIff(w, h, env);
    if !Moderates(w, h, env) {
      OneAnswer(w, h, ModerationRefusal(w, h), env);
    } else {
      var actor := w.handlers[h].userId;
      var (db, r) := BanUser(w.db, actor, login, env.upNext);
      BanLaw(w.db, actor, login, env.upNext);
      if r.status == Ok {
        DisconnectShutsUser(w, db, r.id, env);
        DisconnectTellsUser(w, db, r.id, h, Done, env);
        ShutOutOf(w, HandleBan(w, h, login, env), r.id, h, Done, env);
      } else {
        AnsweredAfter(w, w.(db := db), h, Refused(r.status, r.reason), env);
      }
    }
  }

  predicate UnbanOutcome<H(==)>(w: World<H>, w': World<H>, h: H, login: string, env: Env<H>)
    requires Valid(w.db) && h in w.handlers
  {
    if !Moderates(w, h, env) then TurnedAway(w, w', h, env)
    else
      var actor := w.handlers[h].userId;
      var r := UnbanUser(w.db, actor, login, env.upNext).1;
      && UnbanMeans(w.db, w'.db, r, actor, login, env.upNext) && SameSessions(w, w')
      && Answered(w, w', h, [if r.status == Ok then Done else Refused(r.status, r.reason)], env)
  }

  lemma UnbanFrameTakesHold<H>(w: World<H>, h: H, login: string, env: Env<H>)
    requires Inv(w) && Word(login) && Enabled(w, Frame(h, Spaced("UNBAN", login), env))
    ensures UnbanOutcome(w, After(w, Frame(h, Spaced("UNBAN", login), env)), h, login, env)
  {
    UnbanLine(login);
    UnbanOutcomeOf(w, h, login, env);
  }

  lemma UnbanOutcomeOf<H>(w: World<H>, h: H, login: string, env: Env<H>)
    requires Inv(w) && h in w.handlers
    ensures UnbanOutcome(w, HandleUnban(w, h, login, env), h, login, env)
  {
    ModeratesIff(w, h, env);
    if !Moderates(w, h, env) {
      OneAnswer(w, h, ModerationRefusal(w, h), env);
    } else {
      var actor := w.handlers[h].userId;
      var (db, r) := UnbanUser(w.db, actor, login, env.upNext);
      UnbanLaw(w.db, actor, login, env.upNext);
      AnsweredAfter(w, w.(db := db), h, if r.status == Ok then Done else Refused(r.status, r.reason), env);
    }
  }

  predicate KickOutcome<H(==)>(w: World<H>, w': World<H>, h: H, login: string, env: Env<H>)
    requires Valid(w.db) && h in w.handlers
  {
    if !Moderates(w, h, env) then TurnedAway(w, w', h, env)
    else
      var actor := w.handlers[h].userId;
      var r := KickUser(w.db, actor, login, env.now, env.upNext).1;
      && KickMeans(w.db, w'.db, r, actor, login, env.now, env.upNext)
      && (if r.status == Ok then
            ShutOut(w, w', r.id, h, if SessionsOf(w, r.id) != [] then Done else NoActiveSession, env)
          else SameSessions(w, w') && Answered(w, w', h, [Refused(r.status, r.reason)], env))
  }

  lemma KickFrameTakesHold<H>(w: World<H>, h: H, login: string, env: Env<H>)
    requires Inv(w) && Word(login) && Enabled(w, Frame(h, Spaced("KICK", login), env))
    ensures KickOutcome(w, After(w, Frame(h, Spaced("KICK", login), env)), h, login, env)
  {
    KickLine(login);
    KickOutcomeOf(w, h, login, env);
  }

  lemma KickOutcomeOf<H>(w: World<H>, h: H, login: string, env: Env<H>)
    requires Inv(w) && h in w.handlers
    ensures KickOutcome(w, HandleKick(w, h, login, env), h, login, env)
  {
    ModeratesIff(w, h, env);
    if !Moderates(w, h, env) {
      OneAnswer(w, h, ModerationRefusal(w, h), env);
    } else {
      var actor := w.handlers[h].userId;
      var (db, r) := KickUser(w.db, actor, login, env.now, env.upNext);
      KickLaw(w.db, actor, login, env.now, env.upNext);
      if r.status == Ok {
        var answer := if SessionsOf(w, r.id) != [] then Done else NoActiveSession;
        DisconnectShutsUser(w, db, r.id, env);
        DisconnectTellsUser(w, db, r.id, h, answer, env);
        ShutOutOf(w, HandleKick(w, h, login, env), r.id, h, answer, env);
      } else {
        AnsweredAfter(w, w.(db := db), h, Refused(r.status, r.reason), env);
      }
    }
  }
}
