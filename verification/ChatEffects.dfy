/**
 What the commands bring about when they are allowed to: whom a ban or a kick
 shuts out, and what a login leaves behind.
 */
module ChatEffects {
  import opened Lines
  import opened Tables
  import opened Registry
  import opened Chat
  import opened ChatSafety

  /** Each session of a snapshot without repetitions is told once, in order, over the socket it still has. */
  lemma {:induction false} DisconnectTells<H>(w: World<H>, hs: seq<H>, env: Env<H>)
    requires NoDup(hs)
    ensures var log := Disconnect(w, hs, env).log;
            && |log| == |w.log| + |hs| && w.log <= log
            && forall i | 0 <= i < |hs| :: log[|w.log| + i] == Record(w, hs[i], Kicked, env)
  {
    if hs != [] {
      var front, last := hs[..|hs| - 1], hs[|hs| - 1];
      DisconnectTells(w, front, env);
      DisconnectShuts(w, front, env);
      assert last !in front;
      assert forall i | 0 <= i < |front| :: hs[i] == front[i];
    }
  }

  /** Exactly the sessions of `user` have lost their sockets. */
  predicate Shut<H(==)>(w: World<H>, w': World<H>, user: int) {
    && w'.sessions == w.sessions && w'.handlers.Keys == w.handlers.Keys
    && (forall x | x in w.handlers ::
          w'.handlers[x] == if w.handlers[x].authed && w.handlers[x].userId == user
                            then w.handlers[x].(open := false) else w.handlers[x])
  }

  /** The sessions of `user` were told once each, over the sockets they had, and then `h` was answered. */
  predicate Told<H(==)>(w: World<H>, w': World<H>, user: int, h: H, answer: Line, env: Env<H>) {
    var hs, n := SessionsOf(w, user), |w.log|;
    && |w'.log| == n + |hs| + 1 && w.log <= w'.log
    && (forall i | 0 <= i < |hs| :: w'.log[n + i] == Record(w, hs[i], Kicked, env))
    && w'.log[n + |hs|] == Record(w', h, answer, env)
  }

  lemma DisconnectShutsUser<H>(w: World<H>, db: Tables, user: int, env: Env<H>)
    requires Inv(w)
    ensures Shut(w, Disconnect(w.(db := db), SessionsOf(w, user), env), user)
    ensures Disconnect(w.(db := db), SessionsOf(w, user), env).db == db
  {
    DisconnectShuts(w.(db := db), SessionsOf(w, user), env);
  }

  lemma DisconnectTellsUser<H>(w: World<H>, db: Tables, user: int, h: H, answer: Line, env: Env<H>)
    requires NoDup(SessionsOf(w, user)) && |db.messages| == |w.db.messages|
    ensures Told(w, Respond(Disconnect(w.(db := db), SessionsOf(w, user), env), h, answer, env), user, h, answer, env)
  {
    var v, hs := w.(db := db), SessionsOf(w, user);
    var shut := Disconnect(v, hs, env);
    DisconnectTells(v, hs, env);
    var w' := Respond(shut, h, answer, env);
    assert w'.log == shut.log + [Record(shut, h, answer, env)];
    assert Record(shut, h, answer, env) == Record(w', h, answer, env);
    assert forall i | 0 <= i < |hs| :: Record(v, hs[i], Kicked, env) == Record(w, hs[i], Kicked, env);
  }

  /** What `handleLogin` makes of a successful transaction. */
  function LoggedIn<H(==)>(w: World<H>, h: H, r: LoginResult, env: Env<H>): World<H>
    requires h in w.handlers
  {
    StartSession(Cleanup(w, h, env), h, r)
  }

  lemma JoinsTheList<H>(w: World<H>, h: H, r: LoginResult, env: Env<H>)
    requires Inv(w) && h in w.handlers
    ensures var w' := LoggedIn(w, h, r, env);
            && r.id in w'.sessions && w'.sessions[r.id] == Without(SessionsOf(w, r.id), h) + [h]
            && (forall other | other in w'.sessions && other != r.id :: h !in w'.sessions[other])
            && h in w'.handlers
            && w'.handlers[h] == Handler(w.handlers[h].open, true, r.id, r.login, r.role)
            && w'.log == w.log
  {
    CleanupKeepsInv(w, h, env);
    if !w.handlers[h].authed || w.handlers[h].userId != r.id {
      WithoutAbsent(SessionsOf(w, r.id), h);
    }
  }

  /** The handler's session so far belongs to `id`, and its logout commits. */
  predicate LogsOut<H(==)>(w: World<H>, h: H, id: int, env: Env<H>)
    requires h in w.handlers
  {
    w.handlers[h].authed && w.handlers[h].userId == id && env.upNext
  }

  /**
   What a successful login does to the users table: the user is online, unless
   the handler was already logged in as that user, whose old session then takes
   the status back; the user of any other old session is offline unless banned;
   nobody else is touched.
   */
  predicate StatusesAfterLogin<H(==)>(w: World<H>, w': World<H>, h: H, user: int, env: Env<H>)
    requires h in w.handlers
  {
    && w'.db.users.Keys == w.db.users.Keys
    && forall id | id in w.db.users ::
         w'.db.users[id].status == if LogsOut(w, h, id, env) && w.db.users[id].status != Banned then Offline
                                   else if id == user then Online else w.db.users[id].status
  }

  lemma StatusesOf<H>(w: World<H>, h: H, login: string, env: Env<H>)
    requires Valid(w.db) && h in w.handlers
    requires env.up && login in w.db.ids && !IsBanned(w.db, w.db.ids[login]) && env.passwordOk
    ensures StatusesAfterLogin(w, HandleLogin(w, h, login, env), h, w.db.ids[login], env)
  {
  }

  /**
   A login succeeds exactly for a known, unbanned user with the right password;
   the handler then stands last among the sessions of that user and of no other,
   whatever session it had before. A second login as the same user leaves the
   user offline with a live session.
   */
  lemma LoginTakesHold<H>(w: World<H>, h: H, login: string, env: Env<H>)
    requires Inv(w) && h in w.handlers
    ensures var w' := HandleLogin(w, h, login, env);
            if env.up && login in w.db.ids && !IsBanned(w.db, w.db.ids[login]) && env.passwordOk then
              var user := w.db.ids[login];
              var role := w.db.users[user].role;
              && h in w'.handlers && w'.handlers[h] == Handler(w.handlers[h].open, true, user, login, role)
              && user in w'.sessions && w'.sessions[user] == Without(SessionsOf(w, user), h) + [h]
              && (forall other | other in w'.sessions && other != user :: h !in w'.sessions[other])
              && StatusesAfterLogin(w, w', h, user, env)
              && |w'.log| == |w.log| + 1 && w'.log[|w.log|].to == h && w'.log[|w.log|].line == LoginOk(role)
            else
              w'.handlers == w.handlers && w'.sessions == w.sessions && w'.db == w.db
              && |w'.log| == |w.log| + 1 && w'.log[|w.log|].to == h && w'.log[|w.log|].line.LoginError?
  {
    var (db, r) := LoginUser(w.db, login, env.passwordOk, env.now, env.up);
    if r.status == Ok {
      LoginFollows(w.db, login, env.passwordOk, env.now, env.up);
      NewTables(w, db);
      JoinsTheList(w.(db := db), h, r, env);
      StatusesOf(w, h, login, env);
    }
  }

  // ----- answers tell the truth

  /** The last line a step sent to the handler that asked. */
  function LastLine<H>(w: World<H>): Line {
    if w.log == [] then UnknownCommand else w.log[|w.log| - 1].line
  }

  /** REGISTER_OK is answered exactly when an account was opened. */
  lemma RegisterAnswerIsTrue<H>(w: World<H>, h: H, login: string, pass: string, env: Env<H>)
    requires Valid(w.db)
    ensures var w' := HandleRegister(w, h, login, pass, env);
            && |w'.log| == |w.log| + 1
            && (LastLine(w') == RegisterOk <==> w'.db.users.Keys != w.db.users.Keys)
  {
    RegistrationOpensAnAccount(w.db, login, pass, env.hash, env.now, env.up);
    var r := RegisterUser(w.db, login, pass, env.hash, env.up).1;
    assert r.status == Ok ==> r.id !in w.db.users.Keys;
  }

  /** The first answer to a message is MESSAGE_OK exactly when the message was stored, and then carries its id. */
  lemma MessageAnswerIsTrue<H>(w: World<H>, h: H, to: string, text: string, env: Env<H>)
    requires Inv(w) && h in w.handlers
    ensures var w', n := HandleMessage(w, h, to, text, env), |w.db.messages|;
            && |w'.log| > |w.log| && w'.log[|w.log|].to == h
            && (w'.log[|w.log|].line.MessageOk? <==> |w'.db.messages| == n + 1)
            && (w'.log[|w.log|].line.MessageOk? ==>
                  w'.log[|w.log|].line.id == w'.db.messages[n].id && w'.db.messages[n].text == text)
  {
    if w.handlers[h].authed {
      var (db, r) := SendMessage(w.db, w.handlers[h].userId, to, text, env.now, env.up);
      if r.status == Ok {
        StoredAnswer(w.(db := db), h, to, text, r.id, env);
      }
    }
  }

  lemma StoredAnswer<H>(w: World<H>, h: H, to: string, text: string, id: nat, env: Env<H>)
    requires h in w.handlers
    ensures var w' := AfterStore(w, h, to, text, id, env);
            && w'.db == w.db && |w'.log| > |w.log|
            && w'.log[|w.log|].to == h && w'.log[|w.log|].line == MessageOk(id)
  {
    var answered := Respond(w, h, MessageOk(id), env);
    match UserIdByLogin(w.db, to, env.upNext)
    case None =>
    case Some(user) =>
      PushOnlySends(answered, SessionsOf(w, user), Pushed(w.handlers[h].username, text), env);
  }

  /** A moderation command. */
  predicate IsModeration(c: Command) {
    c.Ban? || c.Unban? || c.Kick?
  }

  /**
   A moderation command is answered as carried out exactly when it left an audit
   row, and whatever happened, at most one row was written.
   */
  lemma ModerationAnswerIsTrue<H>(w: World<H>, h: H, c: Command, env: Env<H>)
    requires Inv(w) && h in w.handlers && IsModeration(c)
    ensures var w' := HandleCommand(w, h, c, env);
            && |w'.log| > |w.log| && |w'.db.audit| <= |w.db.audit| + 1
            && (LastLine(w') == Done || LastLine(w') == NoActiveSession <==> |w'.db.audit| == |w.db.audit| + 1)
  {
    match c
    case Ban(login) => BanAnswerIsTrue(w, h, login, env);
    case Unban(_) =>
    case Kick(login) => KickAnswerIsTrue(w, h, login, env);
  }

  lemma BanAnswerIsTrue<H>(w: World<H>, h: H, login: string, env: Env<H>)
    requires Inv(w) && h in w.handlers
    ensures var w' := HandleBan(w, h, login, env);
            && |w'.log| > |w.log| && |w'.db.audit| <= |w.db.audit| + 1
            && LastLine(w') != NoActiveSession
            && (LastLine(w') == Done <==> |w'.db.audit| == |w.db.audit| + 1)
  {
    if MayModerate(w, h, env) {
      var (db, r) := BanUser(w.db, w.handlers[h].userId, login, env.upNext);
      DisconnectShuts(w.(db := db), SessionsOf(w, r.id), env);
    }
  }

  lemma KickAnswerIsTrue<H>(w: World<H>, h: H, login: string, env: Env<H>)
    requires Inv(w) && h in w.handlers
    ensures var w' := HandleKick(w, h, login, env);
            && |w'.log| > |w.log| && |w'.db.audit| <= |w.db.audit| + 1
            && (LastLine(w') == Done || LastLine(w') == NoActiveSession <==> |w'.db.audit| == |w.db.audit| + 1)
  {
    if MayModerate(w, h, env) {
      var (db, r) := KickUser(w.db, w.handlers[h].userId, login, env.now, env.upNext);
      DisconnectShuts(w.(db := db), SessionsOf(w, r.id), env);
    }
  }

  // ----- who sees what

  /** The line shows the stored message, in the form of the query. */
  predicate Shows(t: Tables, q: Query, line: Line, i: nat) {
    i < |t.messages| && t.messages[i].sender in t.users && t.messages[i].receiver in t.users
    && Matches(q, t.messages[i]) && line == RowOf(t, q, t.messages[i])
  }

  lemma {:induction false} QueryRowsMatch(t: Tables, q: Query, rows: seq<nat>, limit: nat, k: nat) returns (i: nat)
    requires Valid(t) && k < |QueryRows(t, q, rows, limit)|
    ensures Shows(t, q, QueryRows(t, q, rows, limit)[k], i)
    decreases |rows|
  {
    if rows[0] < |t.messages| && Matches(q, t.messages[rows[0]]) {
      if k == 0 {
        i := rows[0];
      } else {
        i := QueryRowsMatch(t, q, rows[1..], limit - 1, k - 1);
      }
    } else {
      i := QueryRowsMatch(t, q, rows[1..], limit, k);
    }
  }

  /** A line of an answer that shows a message. */
  predicate IsRow(line: Line) {
    line.InboxRow? || line.HistoryRow? || line.MessageRow?
  }

  /** The user may see the message: it is theirs, or they moderate with the stored role. */
  predicate MaySee(t: Tables, user: int, i: nat) {
    i < |t.messages| && user in t.users
    && (t.messages[i].sender == user || t.messages[i].receiver == user
        || t.users[user].role == Admin || t.users[user].role == Moderator)
  }

  /** The line shows a stored message: its text, its time, and the logins of its sender and receiver. */
  predicate ShowsMessage(t: Tables, line: Line, i: nat) {
    && i < |t.messages| && IsRow(line)
    && var m := t.messages[i];
       && line.text == m.text && line.createdAt == m.createdAt
       && m.sender in t.users && line.sender == t.users[m.sender].login
       && m.receiver in t.users && (!line.InboxRow? ==> line.receiver == t.users[m.receiver].login)
  }

  /**
   Whatever a handler is shown by a query is a stored message of its own user,
   sent or received, unless that user is a moderator in the tables.
   */
  lemma QueriesShowOnlyOwnMessages<H>(w: World<H>, h: H, c: Command, env: Env<H>, k: nat) returns (i: nat)
    requires Inv(w) && h in w.handlers && k < |Answer(w, h, c, env)| && IsRow(Answer(w, h, c, env)[k])
    ensures w.handlers[h].authed
    ensures ShowsMessage(w.db, Answer(w, h, c, env)[k], i) && MaySee(w.db, w.handlers[h].userId, i)
  {
    match c
    case List =>
      NoMessageRows(w.db, env.users);
      assert false;
    case Inbox => i := InboxIsOwn(w, h, env, k);
    case History(target, limit, offset) => i := HistoryIsOwn(w, h, target, limit, offset, env, k);
    case AllMessages(limit) => i := AllMessagesForModerators(w, h, limit, env, k);
    case _ => assert false;
  }

  lemma InboxIsOwn<H>(w: World<H>, h: H, env: Env<H>, k: nat) returns (i: nat)
    requires Inv(w) && h in w.handlers && k < |Answer(w, h, Inbox, env)| && IsRow(Answer(w, h, Inbox, env)[k])
    ensures w.handlers[h].authed
    ensures ShowsMessage(w.db, Answer(w, h, Inbox, env)[k], i) && MaySee(w.db, w.handlers[h].userId, i)
  {
    i := QueryRowsMatch(w.db, InboxOf(w.handlers[h].userId), env.rows, 100, k - 1);
  }

  lemma HistoryIsOwn<H>(w: World<H>, h: H, target: string, limit: int, offset: int, env: Env<H>, k: nat)
    returns (i: nat)
    requires Inv(w) && h in w.handlers && k < |Answer(w, h, History(target, limit, offset), env)|
    requires IsRow(Answer(w, h, History(target, limit, offset), env)[k])
    ensures w.handlers[h].authed
    ensures ShowsMessage(w.db, Answer(w, h, History(target, limit, offset), env)[k], i)
    ensures MaySee(w.db, w.handlers[h].userId, i)
  {
    var other := UserIdByLogin(w.db, target, env.up);
    var q := Between(w.handlers[h].userId, other.value);
    i := QueryRowsMatch(w.db, q, Skipped(w.db, q, env.rows, offset), ClampLimit(limit), k - 1);
  }

  lemma AllMessagesForModerators<H>(w: World<H>, h: H, limit: int, env: Env<H>, k: nat) returns (i: nat)
    requires Inv(w) && h in w.handlers && k < |Answer(w, h, AllMessages(limit), env)|
    requires IsRow(Answer(w, h, AllMessages(limit), env)[k])
    ensures w.handlers[h].authed
    ensures ShowsMessage(w.db, Answer(w, h, AllMessages(limit), env)[k], i)
    ensures MaySee(w.db, w.handlers[h].userId, i)
  {
    i := QueryRowsMatch(w.db, Everything, env.rows, ClampLimit(limit), k - 1);
  }

  lemma {:induction false} NoMessageRows(t: Tables, users: seq<int>)
    ensures forall k | 0 <= k < |UserRows(t, users)| :: UserRows(t, users)[k].UserRow?
  {
    if users != [] {
      NoMessageRows(t, users[1..]);
    }
  }

  // ----- a role that is taken away

  /**
   Once the operator has made a user an ordinary one, sessions that still carry the
   old role are refused: the check reads the stored role again.
   */
  lemma DemotionTakesHold<H>(w: World<H>, h: H, c: Command, env: Env<H>)
    requires Inv(w) && h in w.handlers && w.handlers[h].authed && (IsModeration(c) || c.AllMessages?)
    ensures var demotion := Operate(w.handlers[h].userId, OrdinaryUser);
            && Enabled(w, demotion)
            && var w' := After(w, demotion);
               Valid(w'.db) && HandleCommand(w', h, c, env) == Respond(w', h, Forbidden, env)
  {
    SetRoleEvolves(w.db, w.handlers[h].userId, OrdinaryUser);
    var w' := After(w, Operate(w.handlers[h].userId, OrdinaryUser));
    assert !MayModerate(w', h, env);
    if c.AllMessages? {
      OneLine(w', h, Forbidden, env);
    }
  }

  lemma OneLine<H>(w: World<H>, h: H, line: Line, env: Env<H>)
    ensures RespondAll(w, h, [line], env) == Respond(w, h, line, env)
  {
    assert [line][..0] == [];
  }
}
