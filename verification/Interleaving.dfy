/**
 The server with its threads interleaved: the accept loop and any number of
 handler threads share the tables, the session registry and the client counter.
 One step is one database transaction, one section under the registry mutex, one
 socket shutdown, or one change of the counter; every handler has a program
 counter. Transactions are serial.
 */
module Interleaving {
  import opened Tables
  import opened Registry

  type HandlerId = nat

  // ----- state

  /** What a successful login carries from the transaction to the registry. */
  datatype Ticket = Ticket(id: int, role: Role)

  /** Where a handler goes on after cleaning up its session. */
  datatype Next = ThenJoin(ticket: Ticket) | ThenReply | ThenExit

  datatype Moderation = ToBan | ToUnban | ToKick

  datatype Pc =
    | Starting                                     // counted, handler not constructed yet
    | Idle                                         // waiting for a frame
    | Handling                                     // a frame has been read, nothing done about it yet
    | Removing(next: Next)                         // in cleanupSession, before removeSession
    | LoggingOut(next: Next)                       // in cleanupSession, between removeSession and logoutUser
    | Joining(ticket: Ticket)                      // loginUser has committed, fields not set yet
    | Adding                                       // fields set, before addSession
    | Allowed(action: Moderation, login: string)   // passed requireModerator
    | Snapshotting(user: int)                      // ban or kick has committed, before the snapshot
    | Closing(rest: seq<HandlerId>)                // disconnecting the handlers of the snapshot
    | Finished                                     // destructor done, counter not decremented yet

  datatype Handler = Handler(pc: Pc, open: bool, authed: bool, userId: int, role: Role)

  datatype Acceptor = Listening | Admitted | Counted

  datatype State = State(
    db: Tables,
    sessions: map<int, seq<HandlerId>>,
    handlers: map<HandlerId, Handler>,
    acceptor: Acceptor,
    active: int)

  const FRESH: Handler := Handler(Starting, true, false, -1, OrdinaryUser)

  // ----- steps

  datatype Step =
    | Admit
    | Count
    | Spawn(h: HandlerId)
    | Begin(h: HandlerId)
    | Read(h: HandlerId)
    | Reply(h: HandlerId)                          // to a command without a transaction that changes anything
    | RegisterCommit(h: HandlerId, login: string, password: string, hash: string, now: Timestamp, up: bool)
    | LoginCommit(h: HandlerId, login: string, passwordOk: bool, now: Timestamp, up: bool)
    | Remove(h: HandlerId)
    | LogoutCommit(h: HandlerId, now: Timestamp, up: bool)
    | SetFields(h: HandlerId)
    | Add(h: HandlerId)
    | LogoutCommand(h: HandlerId)
    | StoreCommit(h: HandlerId, to: string, text: string, now: Timestamp, up: bool)
    | CheckRights(h: HandlerId, action: Moderation, login: string, up: bool)
    | ModerateCommit(h: HandlerId, now: Timestamp, up: bool)
    | Snapshot(h: HandlerId)
    | Close(h: HandlerId)
    | Leave(h: HandlerId)
    | Crash(h: HandlerId)
    | CrashInAdd(h: HandlerId)                     // addSession throws after it has made the user's list
    | Retire(h: HandlerId)

  predicate CanRead(s: State, h: HandlerId) {
    h in s.handlers && s.handlers[h].pc.Idle? && s.handlers[h].open
  }

  /** The handler has read a command; its socket may have been shut since. */
  predicate HasRead(s: State, h: HandlerId) {
    h in s.handlers && s.handlers[h].pc.Handling?
  }

  predicate Enabled(s: State, step: Step, maxClients: int) {
    match step
    case Admit => s.acceptor.Listening? && s.active < maxClients
    case Count => s.acceptor.Admitted?
    case Spawn(h) => s.acceptor.Counted? && h !in s.handlers
    case Begin(h) => h in s.handlers && s.handlers[h].pc.Starting?
    case Read(h) => CanRead(s, h)
    case Reply(h) => HasRead(s, h)
    case RegisterCommit(h, _, _, _, _, _) => HasRead(s, h)
    case LoginCommit(h, _, _, _, _) => HasRead(s, h)
    case Remove(h) => h in s.handlers && s.handlers[h].pc.Removing?
    case LogoutCommit(h, _, _) => h in s.handlers && s.handlers[h].pc.LoggingOut?
    case SetFields(h) => h in s.handlers && s.handlers[h].pc.Joining?
    case Add(h) => h in s.handlers && s.handlers[h].pc.Adding?
    case LogoutCommand(h) => HasRead(s, h)
    case StoreCommit(h, _, _, _, _) => HasRead(s, h) && s.handlers[h].authed
    case CheckRights(h, _, _, _) => HasRead(s, h)
    case ModerateCommit(h, _, _) => h in s.handlers && s.handlers[h].pc.Allowed?
    case Snapshot(h) => h in s.handlers && s.handlers[h].pc.Snapshotting?
    case Close(h) => h in s.handlers && s.handlers[h].pc.Closing?
    case Leave(h) => h in s.handlers && s.handlers[h].pc.Idle?
    case Crash(h) =>
      h in s.handlers && !s.handlers[h].pc.Starting? && !s.handlers[h].pc.Finished? && !Exiting(s.handlers[h].pc)
    case CrashInAdd(h) => h in s.handlers && s.handlers[h].pc.Adding?
    case Retire(h) => h in s.handlers && s.handlers[h].pc.Finished?
  }

  predicate Exiting(pc: Pc) {
    (pc.Removing? || pc.LoggingOut?) && pc.next.ThenExit?
  }

  function SessionsOf(s: State, user: int): seq<HandlerId> {
    if user in s.sessions then s.sessions[user] else []
  }

  /** `cleanupSession` and then `next`, from a handler that may or may not be logged in. */
  function CleanupThen(me: Handler, next: Next): Pc {
    if me.authed then Removing(next)
    else
      match next
      case ThenJoin(t) => Joining(t)
      case ThenReply => Idle
      case ThenExit => Finished
  }

  /** The tables after a step. */
  function NextDb(s: State, step: Step, maxClients: int): Tables
    requires Valid(s.db) && Enabled(s, step, maxClients)
  {
    match step
    case RegisterCommit(h, login, password, hash, _, up) => RegisterUser(s.db, login, password, hash, up).0
    case LoginCommit(h, login, ok, now, up) => LoginUser(s.db, login, ok, now, up).0
    case LogoutCommit(h, now, up) => LogoutUser(s.db, s.handlers[h].userId, now, up)
    case StoreCommit(h, to, text, now, up) => SendMessage(s.db, s.handlers[h].userId, to, text, now, up).0
    case ModerateCommit(h, now, up) =>
      var me := s.handlers[h];
      (match me.pc.action
       case ToBan => BanUser(s.db, me.userId, me.pc.login, up).0
       case ToUnban => UnbanUser(s.db, me.userId, me.pc.login, up).0
       case ToKick => KickUser(s.db, me.userId, me.pc.login, now, up).0)
    case _ => s.db
  }

  /** The registry after a step. */
  function NextSessions(s: State, step: Step, maxClients: int): map<int, seq<HandlerId>>
    requires Enabled(s, step, maxClients)
  {
    match step
    case Remove(h) => RemoveSession(s.sessions, s.handlers[h].userId, h)
    case Add(h) => AddSession(s.sessions, s.handlers[h].userId, h)
    case CrashInAdd(h) => s.sessions[s.handlers[h].userId := SessionsOf(s, s.handlers[h].userId)]
    case _ => s.sessions
  }

  /** The handler that takes the step, after it. */
  function NextSelf(s: State, step: Step, maxClients: int): Handler
    requires Valid(s.db) && Enabled(s, step, maxClients) && !step.Admit? && !step.Count? && !step.Spawn?
  {
    var me := s.handlers[step.h];
    match step
    case Begin(_) => me.(pc := Idle)
    case Read(_) => me.(pc := Handling)
    case Reply(_) => me.(pc := Idle)
    case RegisterCommit(_, _, _, _, _, _) => me.(pc := Idle)
    case StoreCommit(_, _, _, _, _) => me.(pc := Idle)
    case LoginCommit(_, login, ok, now, up) =>
      var r := LoginUser(s.db, login, ok, now, up).1;
      if r.status == Ok then me.(pc := CleanupThen(me, ThenJoin(Ticket(r.id, r.role)))) else me.(pc := Idle)
    case Remove(_) => me.(pc := LoggingOut(me.pc.next))
    case LogoutCommit(_, _, _) =>
      var out := me.(authed := false, userId := -1, role := OrdinaryUser);
      out.(pc := CleanupThen(out, me.pc.next))
    case SetFields(_) =>
      me.(pc := Adding, authed := true, userId := me.pc.ticket.id, role := me.pc.ticket.role)
    case Add(_) => me.(pc := Idle)
    case LogoutCommand(_) => me.(pc := CleanupThen(me, ThenReply))
    case CheckRights(_, action, login, up) =>
      if me.authed && (me.role == Admin || me.role == Moderator) && HasModeratorRights(s.db, me.userId, up)
      then me.(pc := Allowed(action, login)) else me.(pc := Idle)
    case ModerateCommit(_, now, up) =>
      var r := match me.pc.action
               case ToBan => BanUser(s.db, me.userId, me.pc.login, up).1
               case ToUnban => UnbanUser(s.db, me.userId, me.pc.login, up).1
               case ToKick => KickUser(s.db, me.userId, me.pc.login, now, up).1;
      if r.status == Ok && !me.pc.action.ToUnban? then me.(pc := Snapshotting(r.id)) else me.(pc := Idle)
    case Snapshot(_) => me.(pc := Closing(SessionsOf(s, me.pc.user)))
    case Close(h) =>
      if me.pc.rest == [] then me.(pc := Idle)
      else me.(pc := Closing(me.pc.rest[1..]), open := me.open && me.pc.rest[0] != h)
    case Leave(_) => me.(pc := CleanupThen(me, ThenExit))
    case Crash(_) => me.(pc := CleanupThen(me, ThenExit))
    case CrashInAdd(_) => me.(pc := CleanupThen(me, ThenExit))
    case _ => me
  }

  function NextHandlers(s: State, step: Step, maxClients: int): map<HandlerId, Handler>
    requires Valid(s.db) && Enabled(s, step, maxClients)
  {
    match step
    case Admit => s.handlers
    case Count => s.handlers
    case Spawn(h) => s.handlers[h := FRESH]
    case Retire(h) => s.handlers - {h}
    case Close(h) =>
      var moved := s.handlers[h := NextSelf(s, step, maxClients)];
      var rest := s.handlers[h].pc.rest;
      // the target's socket is shut down; a target that is gone is left alone
      if rest != [] && rest[0] in moved then moved[rest[0] := moved[rest[0]].(open := false)] else moved
    case _ => s.handlers[step.h := NextSelf(s, step, maxClients)]
  }

  function After(s: State, step: Step, maxClients: int): State
    requires Valid(s.db) && Enabled(s, step, maxClients)
  {
    State(NextDb(s, step, maxClients), NextSessions(s, step, maxClients), NextHandlers(s, step, maxClients),
          (if step.Admit? then Admitted else if step.Count? then Counted
           else if step.Spawn? then Listening else s.acceptor),
          (if step.Count? then s.active + 1 else if step.Retire? then s.active - 1 else s.active))
  }

  lemma StepFollows(s: State, step: Step, maxClients: int)
    requires Valid(s.db) && Enabled(s, step, maxClients)
    ensures Follows(s.db, After(s, step, maxClients).db)
  {
    match step
    case RegisterCommit(h, login, password, hash, _, up) => RegisterFollows(s.db, login, password, hash, up);
    case LoginCommit(h, login, ok, now, up) => LoginFollows(s.db, login, ok, now, up);
    case LogoutCommit(h, now, up) => LogoutFollows(s.db, s.handlers[h].userId, now, up);
    case StoreCommit(h, to, text, now, up) => SendFollows(s.db, s.handlers[h].userId, to, text, now, up);
    case ModerateCommit(h, now, up) =>
      var me := s.handlers[h];
      match me.pc.action {
        case ToBan => BanFollows(s.db, me.userId, me.pc.login, up);
        case ToUnban => UnbanFollows(s.db, me.userId, me.pc.login, up);
        case ToKick => KickFollows(s.db, me.userId, me.pc.login, now, up);
      }
    case _ => FollowsIsReflexive(s.db);
  }

  ghost predicate Legal(s: State, steps: seq<Step>, maxClients: int)
    requires Valid(s.db)
    decreases |steps|
  {
    steps == [] ||
    (Enabled(s, steps[0], maxClients) &&
     (StepFollows(s, steps[0], maxClients); Legal(After(s, steps[0], maxClients), steps[1..], maxClients)))
  }

  ghost function Reach(s: State, steps: seq<Step>, maxClients: int): State
    requires Valid(s.db) && Legal(s, steps, maxClients)
    decreases |steps|
  {
    if steps == [] then s
    else
      StepFollows(s, steps[0], maxClients);
      Reach(After(s, steps[0], maxClients), steps[1..], maxClients)
  }

  /** The state after the first `k` steps of a run. */
  ghost function At(s: State, steps: seq<Step>, k: nat, maxClients: int): State
    requires Valid(s.db) && Legal(s, steps, maxClients) && k <= |steps|
    decreases k
  {
    if k == 0 then s
    else
      StepFollows(s, steps[0], maxClients);
      At(After(s, steps[0], maxClients), steps[1..], k - 1, maxClients)
  }

  /** The server starts with some tables and no connections. */
  ghost predicate Init(s: State) {
    Valid(s.db) && s.sessions == map[] && s.handlers == map[] && s.acceptor == Listening && s.active == 0
  }
}
