/**
 The server at command level: one step is one accepted connection, one command
 frame handled to its end, or one connection going away. Handlers are known by
 an identity of some type `H`.

 What is not determined by the code (the clock, password hashes, whether a
 transaction fails, which peers can still be reached, the order in which a
 query lists its rows) comes with each step as an `Env`.
 */
module Chat {
  import opened Options
  import opened Lines
  import opened Tables
  import opened Registry

  // ----- what the server says

  /** The server's answers and events, before they are turned into text. */
  datatype Line =
    | RegisterOk
    | RegisterError(status: DbStatus, reason: Reason)
    | LoginOk(role: Role)
    | LoginError(status: DbStatus, reason: Reason)
    | LogoutOk
    | UsersBegin
    | UserRow(login: string, userStatus: Status, role: Role, lastSeen: Option<Timestamp>)
    | UsersEnd
    | InboxBegin
    | InboxRow(sender: string, createdAt: Timestamp, text: string)
    | InboxEnd
    | MessageOk(id: nat)
    | MessageError(status: DbStatus, reason: Reason)
    | Pushed(sender: string, text: string)
    | HistoryBegin
    | HistoryRow(sender: string, receiver: string, createdAt: Timestamp, text: string)
    | HistoryEnd
    | AllMessagesBegin
    | MessageRow(sender: string, receiver: string, createdAt: Timestamp, text: string)
    | AllMessagesEnd
    | Done
    | Refused(status: DbStatus, reason: Reason)
    | NoActiveSession
    | Kicked
    | NotAuth
    | Forbidden
    | FrameTooLarge
    | UnknownCommand

  // ----- state

  datatype Handler = Handler(open: bool, authed: bool, userId: int, username: string, role: Role)

  /**
   One `sendResponse` call: the handler, the line, whether it returned true, and,
   as they were at that moment, the user the handler was logged in as and the
   number of stored messages.
   */
  datatype Sent<H> = Sent(to: H, line: Line, ok: bool, user: Option<int>, stored: nat)

  datatype World<H> = World(
    db: Tables,
    sessions: map<int, seq<H>>,
    handlers: map<H, Handler>,
    log: seq<Sent<H>>)

  datatype Env<!H> = Env(
    accepts: (H, Line) -> bool,   // whether an open socket takes the whole frame
    now: Timestamp,
    hash: string,
    passwordOk: bool,
    up: bool,                     // the command's first transaction succeeds
    upNext: bool,                 // and its second
    rows: seq<nat>,               // the order in which queries list messages
    users: seq<int>)              // and users

  const LOGGED_OUT: Handler := Handler(true, false, -1, "", OrdinaryUser)

  // ----- sending

  predicate Delivers<H(==)>(w: World<H>, h: H, line: Line, env: Env<H>) {
    h in w.handlers && w.handlers[h].open && env.accepts(h, line)
  }

  /** The user a handler is logged in as. */
  function UserOf<H(==)>(w: World<H>, h: H): Option<int> {
    if h in w.handlers && w.handlers[h].authed then Some(w.handlers[h].userId) else None
  }

  function Record<H(==)>(w: World<H>, h: H, line: Line, env: Env<H>): Sent<H> {
    Sent(h, line, Delivers(w, h, line, env), UserOf(w, h), |w.db.messages|)
  }

  function Respond<H(==)>(w: World<H>, h: H, line: Line, env: Env<H>): World<H> {
    w.(log := w.log + [Record(w, h, line, env)])
  }

  function RespondAll<H(==)>(w: World<H>, h: H, lines: seq<Line>, env: Env<H>): World<H> {
    if lines == [] then w
    else Respond(RespondAll(w, h, lines[..|lines| - 1], env), h, lines[|lines| - 1], env)
  }

  // ----- through the session registry

  function SessionsOf<H>(w: World<H>, user: int): seq<H> {
    if user in w.sessions then w.sessions[user] else []
  }

  /** The delivery loop over a snapshot of a user's sessions. */
  function PushTo<H(==)>(w: World<H>, hs: seq<H>, line: Line, env: Env<H>): World<H> {
    if hs == [] then w
    else Respond(PushTo(w, hs[..|hs| - 1], line, env), hs[|hs| - 1], line, env)
  }

  function CloseSocket<H(==)>(w: World<H>, h: H): World<H> {
    if h in w.handlers then w.(handlers := w.handlers[h := w.handlers[h].(open := false)]) else w
  }

  /** `disconnectFromAdmin` on each handler of a snapshot. */
  function Disconnect<H(==)>(w: World<H>, hs: seq<H>, env: Env<H>): World<H> {
    if hs == [] then w
    else
      var h := hs[|hs| - 1];
      CloseSocket(Respond(Disconnect(w, hs[..|hs| - 1], env), h, Kicked, env), h)
  }

  // ----- the handler

  function Cleanup<H(==)>(w: World<H>, h: H, env: Env<H>): World<H>
    requires h in w.handlers
  {
    var me := w.handlers[h];
    if !me.authed then w
    else
      w.(sessions := RemoveSession(w.sessions, me.userId, h),
         db := LogoutUser(w.db, me.userId, env.now, env.upNext),
         handlers := w.handlers[h := me.(authed := false, userId := -1, username := "", role := OrdinaryUser)])
  }

  predicate MayModerate<H(==)>(w: World<H>, h: H, env: Env<H>)
    requires h in w.handlers
  {
    var me := w.handlers[h];
    me.authed && (me.role == Admin || me.role == Moderator) && HasModeratorRights(w.db, me.userId, env.up)
  }

  /** What a moderation command answers when the check fails. */
  function ModerationRefusal<H(==)>(w: World<H>, h: H): Line
    requires h in w.handlers
  {
    if !w.handlers[h].authed then NotAuth else Forbidden
  }

  function HandleRegister<H(==)>(w: World<H>, h: H, login: string, pass: string, env: Env<H>): World<H> {
    var (db, r) := RegisterUser(w.db, login, pass, env.hash, env.up);
    Respond(w.(db := db), h,
            if r.status == Ok then RegisterOk else RegisterError(r.status, r.reason), env)
  }

  function StartSession<H(==)>(w: World<H>, h: H, r: LoginResult): World<H>
    requires h in w.handlers
  {
    w.(handlers := w.handlers[h := w.handlers[h].(authed := true, userId := r.id, username := r.login, role := r.role)],
       sessions := AddSession(w.sessions, r.id, h))
  }

  function HandleLogin<H(==)>(w: World<H>, h: H, login: string, env: Env<H>): World<H>
    requires Valid(w.db) && h in w.handlers
  {
    var (db, r) := LoginUser(w.db, login, env.passwordOk, env.now, env.up);
    if r.status != Ok then Respond(w.(db := db), h, LoginError(r.status, r.reason), env)
    else
      var clean := Cleanup(w.(db := db), h, env);
      Respond(StartSession(clean, h, r), h, LoginOk(r.role), env)
  }

  function HandleLogout<H(==)>(w: World<H>, h: H, env: Env<H>): World<H>
    requires h in w.handlers
  {
    Respond(Cleanup(w, h, env), h, LogoutOk, env)
  }

  /** `sendMessage` has committed; answer, look the receiver up, and push to the sessions it has now. */
  function AfterStore<H(==)>(w: World<H>, h: H, to: string, text: string, id: nat, env: Env<H>): World<H>
    requires h in w.handlers
  {
    var answered := Respond(w, h, MessageOk(id), env);
    match UserIdByLogin(w.db, to, env.upNext)
    case None => answered
    case Some(user) =>
      PushTo(answered, SessionsOf(w, user), Pushed(w.handlers[h].username, text), env)
  }

  function HandleMessage<H(==)>(w: World<H>, h: H, to: string, text: string, env: Env<H>): World<H>
    requires Valid(w.db) && h in w.handlers
  {
    if !w.handlers[h].authed then Respond(w, h, NotAuth, env)
    else
      var (db, r) := SendMessage(w.db, w.handlers[h].userId, to, text, env.now, env.up);
      if r.status != Ok then Respond(w.(db := db), h, MessageError(r.status, r.reason), env)
      else AfterStore(w.(db := db), h, to, text, r.id, env)
  }

  function HandleBan<H(==)>(w: World<H>, h: H, login: string, env: Env<H>): World<H>
    requires Valid(w.db) && h in w.handlers
  {
    if !MayModerate(w, h, env) then Respond(w, h, ModerationRefusal(w, h), env)
    else
      var (db, r) := BanUser(w.db, w.handlers[h].userId, login, env.upNext);
      if r.status != Ok then Respond(w.(db := db), h, Refused(r.status, r.reason), env)
      else Respond(Disconnect(w.(db := db), SessionsOf(w, r.id), env), h, Done, env)
  }

  function HandleUnban<H(==)>(w: World<H>, h: H, login: string, env: Env<H>): World<H>
    requires Valid(w.db) && h in w.handlers
  {
    if !MayModerate(w, h, env) then Respond(w, h, ModerationRefusal(w, h), env)
    else
      var (db, r) := UnbanUser(w.db, w.handlers[h].userId, login, env.upNext);
      Respond(w.(db := db), h, if r.status == Ok then Done else Refused(r.status, r.reason), env)
  }

  function HandleKick<H(==)>(w: World<H>, h: H, login: string, env: Env<H>): World<H>
    requires Valid(w.db) && h in w.handlers
  {
    if !MayModerate(w, h, env) then Respond(w, h, ModerationRefusal(w, h), env)
    else
      var (db, r) := KickUser(w.db, w.handlers[h].userId, login, env.now, env.upNext);
      if r.status != Ok then Respond(w.(db := db), h, Refused(r.status, r.reason), env)
      else
        var targets := SessionsOf(w, r.id);
        Respond(Disconnect(w.(db := db), targets, env), h,
                if targets != [] then Done else NoActiveSession, env)
  }

  // ----- queries

  const MAX_LIMIT: nat := 500

  function ClampLimit(limit: int): nat {
    if limit <= 0 then 50 else if limit < MAX_LIMIT then limit else MAX_LIMIT
  }

  datatype Query = InboxOf(user: int) | Between(user: int, other: int) | Everything

  predicate Matches(q: Query, m: StoredMessage) {
    match q
    case InboxOf(user) => m.receiver == user
    case Between(user, other) =>
      (m.sender == user && m.receiver == other) || (m.sender == other && m.receiver == user)
    case Everything => true
  }

  function RowOf(t: Tables, q: Query, m: StoredMessage): Line
    requires m.sender in t.users && m.receiver in t.users
  {
    var sender, receiver := t.users[m.sender].login, t.users[m.receiver].login;
    match q
    case InboxOf(_) => InboxRow(sender, m.createdAt, m.text)
    case Between(_, _) => HistoryRow(sender, receiver, m.createdAt, m.text)
    case Everything => MessageRow(sender, receiver, m.createdAt, m.text)
  }

  /** The rows of a query, listed in the order `rows`, at most `limit` of them. */
  function QueryRows(t: Tables, q: Query, rows: seq<nat>, limit: nat): (lines: seq<Line>)
    requires Valid(t)
    ensures |lines| <= limit
  {
    if rows == [] || limit == 0 then []
    else if rows[0] < |t.messages| && Matches(q, t.messages[rows[0]]) then
      [RowOf(t, q, t.messages[rows[0]])] + QueryRows(t, q, rows[1..], limit - 1)
    else QueryRows(t, q, rows[1..], limit)
  }

  /** The listed rows after the first `offset` of the query. */
  function Skipped(t: Tables, q: Query, rows: seq<nat>, offset: int): seq<nat> {
    if rows == [] || offset <= 0 then rows
    else if rows[0] < |t.messages| && Matches(q, t.messages[rows[0]]) then Skipped(t, q, rows[1..], offset - 1)
    else Skipped(t, q, rows[1..], offset)
  }

  function HistoryRows(t: Tables, user: int, other: int, rows: seq<nat>, limit: int, offset: int): seq<Line>
    requires Valid(t)
  {
    var q := Between(user, other);
    QueryRows(t, q, Skipped(t, q, rows, offset), ClampLimit(limit))
  }

  function UserRows(t: Tables, users: seq<int>): seq<Line> {
    if users == [] then []
    else
      var id, rest := users[0], UserRows(t, users[1..]);
      if id !in t.users then rest
      else
        var u := t.users[id];
        [UserRow(u.login, u.status, u.role, u.lastSeen)] + rest
  }

  /** What a query command answers, line by line. */
  function Answer<H(==)>(w: World<H>, h: H, c: Command, env: Env<H>): seq<Line>
    requires Valid(w.db) && h in w.handlers
  {
    var me := w.handlers[h];
    match c
    case List =>
      if !me.authed then [NotAuth]
      else [UsersBegin] + (if env.up then UserRows(w.db, env.users) else []) + [UsersEnd]
    case Inbox =>
      if !me.authed then [NotAuth]
      else
        [InboxBegin] + (if env.up then QueryRows(w.db, InboxOf(me.userId), env.rows, 100) else [])
        + [InboxEnd]
    case History(target, limit, offset) =>
      if !me.authed then [NotAuth]
      else
        var other := UserIdByLogin(w.db, target, env.up);
        [HistoryBegin]
        + (if other.Some? && env.upNext
           then HistoryRows(w.db, me.userId, other.value, env.rows, limit, offset) else [])
        + [HistoryEnd]
    case AllMessages(limit) =>
      if !MayModerate(w, h, env) then [ModerationRefusal(w, h)]
      else
        [AllMessagesBegin]
        + (if env.upNext then QueryRows(w.db, Everything, env.rows, ClampLimit(limit)) else [])
        + [AllMessagesEnd]
    case _ => [UnknownCommand]
  }

  // ----- steps

  function HandleCommand<H(==)>(w: World<H>, h: H, c: Command, env: Env<H>): World<H>
    requires Valid(w.db) && h in w.handlers
  {
    match c
    case Register(login, pass) => HandleRegister(w, h, login, pass, env)
    case Login(login, _) => HandleLogin(w, h, login, env)
    case Logout => HandleLogout(w, h, env)
    case Message(to, text) => HandleMessage(w, h, to, text, env)
    case Ban(login) => HandleBan(w, h, login, env)
    case Unban(login) => HandleUnban(w, h, login, env)
    case Kick(login) => HandleKick(w, h, login, env)
    case _ => RespondAll(w, h, Answer(w, h, c, env), env)
  }

  datatype Event<!H> =
    | Accept(h: H)
    | Frame(h: H, frame: string, env: Env<H>)
    | Leave(h: H, tooLarge: bool, env: Env<H>)
    | Operate(user: int, role: Role)               // the operator changes a role in the table

  predicate Enabled<H(==)>(w: World<H>, e: Event<H>) {
    match e
    case Accept(h) => h !in w.handlers
    case Frame(h, _, _) => h in w.handlers && w.handlers[h].open
    case Leave(h, tooLarge, _) => h in w.handlers && (tooLarge ==> w.handlers[h].open)
    case Operate(user, _) => user in w.db.users
  }

  /**
   A handler reads frames only while its socket is open; when the read fails, for
   whatever reason, it cleans up its session and is destroyed.
   */
  function After<H(==)>(w: World<H>, e: Event<H>): World<H>
    requires Valid(w.db) && Enabled(w, e)
  {
    match e
    case Accept(h) => w.(handlers := w.handlers[h := LOGGED_OUT])
    case Frame(h, frame, env) => HandleCommand(w, h, ParseCommand(frame), env)
    case Leave(h, tooLarge, env) =>
      var told := if tooLarge then Respond(w, h, FrameTooLarge, env) else w;
      var clean := Cleanup(told, h, env);
      clean.(handlers := clean.handlers - {h})
    case Operate(user, role) => w.(db := SetRole(w.db, user, role))
  }
}
