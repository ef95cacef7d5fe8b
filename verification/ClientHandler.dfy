/**
 The objects of the server: client handlers that change their own fields, the
 registry that refers to them, and the tables they share. Each method is proved
 to take the server's world where the command-level model says.
 */
module ChatServer {
  import opened Options
  import opened Lines
  import opened Tables
  import opened Registry
  import opened Databases
  import opened Chat
  import opened ChatSafety
  import Model = Chat

  /** The sockets' side of the server: a record of every `sendResponse` call. */
  class Network {
    ghost var log: seq<Sent<ClientHandler>>

    constructor ()
      ensures log == []
    {
      log := [];
    }
  }

  /** How many of the recorded calls returned true. */
  ghost function Successes<H>(log: seq<Sent<H>>): nat {
    if log == [] then 0
    else Successes(log[..|log| - 1]) + (if log[|log| - 1].ok then 1 else 0)
  }

  /** How many of the handlers take the line. */
  ghost function Takers<H>(w: World<H>, hs: seq<H>, line: Line, env: Env<H>): nat {
    if hs == [] then 0
    else Takers(w, hs[..|hs| - 1], line, env) + (if Delivers(w, hs[|hs| - 1], line, env) then 1 else 0)
  }

  /** The delivery loop's counter is the number of calls in its part of the record that returned true. */
  lemma {:induction false} TakersAreSuccesses<H>(w: World<H>, hs: seq<H>, line: Line, env: Env<H>)
    ensures w.log <= PushTo(w, hs, line, env).log
    ensures Takers(w, hs, line, env) == Successes(PushTo(w, hs, line, env).log[|w.log|..])
  {
    PushOnlySends(w, hs, line, env);
    var log := PushTo(w, hs, line, env).log;
    if hs == [] {
      assert log[|w.log|..] == [];
    } else {
      var front := hs[..|hs| - 1];
      TakersAreSuccesses(w, front, line, env);
      PushOnlySends(w, front, line, env);
      var before := PushTo(w, front, line, env).log;
      assert log[|w.log|..] == before[|w.log|..] + [log[|log| - 1]];
    }
  }

  lemma OneMoreTaker<H>(w: World<H>, hs: seq<H>, i: nat, line: Line, env: Env<H>)
    requires i < |hs|
    ensures var before := PushTo(w, hs[..i], line, env);
            && PushTo(w, hs[..i + 1], line, env) == Respond(before, hs[i], line, env)
            && Takers(w, hs[..i + 1], line, env)
               == Takers(w, hs[..i], line, env) + (if Delivers(before, hs[i], line, env) then 1 else 0)
  {
    assert hs[..i + 1][..i] == hs[..i];
    PushOnlySends(w, hs[..i], line, env);
  }

  class SessionRegistry {
    var sessions: map<int, seq<ClientHandler>>
    const net: Network
    ghost const db: Database
    var live: set<ClientHandler>         // the handlers that exist

    constructor (net: Network, ghost db: Database)
      ensures sessions == map[] && live == {} && this.net == net && this.db == db
    {
      this.net := net;
      this.db := db;
      sessions := map[];
      live := {};
    }

    /** All handlers work on the same tables, registry and network, and the registry refers to none that are gone. */
    ghost predicate Wired()
      reads this
    {
      && (forall h | h in live :: h.registry == this && h.db == db && h.net == net)
      && (forall user | user in sessions :: forall h | h in sessions[user] :: h in live)
    }

    /** The server as the command-level model sees it. */
    ghost function World(): World<ClientHandler>
      reads this, db, net, live
    {
      Model.World(db.tables, sessions, map h | h in live :: h.View(), net.log)
    }

    method AddSession(user: int, h: ClientHandler)
      requires Wired() && h in live
      modifies this
      ensures Wired()
      ensures sessions == Registry.AddSession(old(sessions), user, h) && live == old(live)
    {
      if user !in sessions {
        sessions := sessions[user := []];
      }
      sessions := sessions[user := sessions[user] + [h]];
    }

    method RemoveSession(user: int, h: ClientHandler)
      requires Wired()
      modifies this
      ensures Wired()
      ensures sessions == Registry.RemoveSession(old(sessions), user, h) && live == old(live)
    {
      if user !in sessions {
        return;
      }
      sessions := sessions[user := Without(sessions[user], h)];
      if sessions[user] == [] {
        sessions := sessions - {user};
      }
    }

    /** Offers the line to every session of the user; the result is the number of sends that succeeded. */
    method DeliverToUser(user: int, line: Line, env: Env<ClientHandler>)
      returns (delivered: nat)
      requires Wired()
      modifies net
      ensures World() == PushTo(old(World()), SessionsOf(old(World()), user), line, env)
      ensures old(net.log) <= net.log && delivered == Successes(net.log[|old(net.log)|..])
    {
      TakersAreSuccesses(World(), SessionsOf(World(), user), line, env);
      if user !in sessions {
        return 0;
      }
      delivered := Offer(sessions[user], line, env);
    }

    /** The delivery loop over a snapshot. */
    method Offer(handlers: seq<ClientHandler>, line: Line, env: Env<ClientHandler>)
      returns (delivered: nat)
      requires Wired() && forall h | h in handlers :: h in live
      modifies net
      ensures World() == PushTo(old(World()), handlers, line, env)
      ensures delivered == Takers(old(World()), handlers, line, env)
    {
      ghost var w := World();
      delivered := 0;
      for i := 0 to |handlers|
        invariant World() == PushTo(w, handlers[..i], line, env)
        invariant delivered == Takers(w, handlers[..i], line, env)
      {
        var h := handlers[i];
        assert h.Attached() && h.registry == this;
        OneMoreTaker(w, handlers, i, line, env);
        var ok := h.SendResponse(line, env);
        if ok {
          delivered := delivered + 1;
        }
      }
      assert handlers[..|handlers|] == handlers;
    }

    /** Tells every session of the user and closes its socket; the result is the number of sessions. */
    method DisconnectUser(user: int, env: Env<ClientHandler>) returns (count: nat)
      requires Wired()
      modifies net, live
      ensures World() == Disconnect(old(World()), SessionsOf(old(World()), user), env)
      ensures count == |SessionsOf(old(World()), user)|
    {
      ghost var w := World();
      if user !in sessions {
        return 0;
      }
      var handlers := sessions[user];
      for i := 0 to |handlers|
        invariant World() == Disconnect(w, handlers[..i], env)
      {
        handlers[i].DisconnectFromAdmin(env);
        assert handlers[..i + 1][..i] == handlers[..i];
      }
      assert handlers[..|handlers|] == handlers;
      return |handlers|;
    }
  }

  class ClientHandler {
    const db: Database
    const registry: SessionRegistry
    const net: Network
    var open: bool
    var authed: bool
    var userId: int
    var username: string
    var role: Role

    constructor (db: Database, registry: SessionRegistry)
      ensures this.db == db && this.registry == registry && net == registry.net
      ensures View() == LOGGED_OUT
    {
      this.db := db;
      this.registry := registry;
      net := registry.net;
      open := true;
      authed, userId, username, role := false, -1, "", OrdinaryUser;
    }

    ghost function View(): Handler
      reads this
    {
      Handler(open, authed, userId, username, role)
    }

    /** This handler exists and is connected with the others. */
    ghost predicate Attached()
      reads registry
    {
      this in registry.live && registry.Wired() && registry.db == db && registry.net == net
    }

    method SendResponse(line: Line, env: Env<ClientHandler>) returns (ok: bool)
      requires Attached()
      modifies net
      ensures registry.World() == Respond(old(registry.World()), this, line, env)
      ensures ok == Delivers(old(registry.World()), this, line, env)
    {
      ok := open && env.accepts(this, line);
      net.log := net.log + [Sent(this, line, ok, if authed then Some(userId) else None, |db.tables.messages|)];
    }

    method DisconnectFromAdmin(env: Env<ClientHandler>)
      requires Attached()
      modifies this, net
      ensures registry.World() == CloseSocket(Respond(old(registry.World()), this, Kicked, env), this)
    {
      ghost var w := registry.World();
      var _ := SendResponse(Kicked, env);
      open := false;
      assert registry.World().handlers == w.handlers[this := View()];
    }

    /** The same object with a new view, everything else as it was. */
    twostate lemma OnlyThisMoved()
      requires old(registry.live) == registry.live && this in registry.live
      requires forall h | h in registry.live && h != this :: h.View() == old(h.View())
      ensures registry.World().handlers == old(registry.World()).handlers[this := View()]
    {
    }

    method CleanupSession(env: Env<ClientHandler>)
      requires Attached() && Valid(db.tables)
      modifies this, db, registry
      ensures registry.live == old(registry.live) && Attached() && Valid(db.tables)
      ensures registry.World() == Cleanup(old(registry.World()), this, env)
    {
      if !authed {
        return;
      }
      registry.RemoveSession(userId, this);
      db.LogoutUser(userId, env.now, env.upNext);
      authed := false;
      userId := -1;
      username := "";
      role := OrdinaryUser;
      OnlyThisMoved();
    }

    method RequireModerator(env: Env<ClientHandler>) returns (ok: bool)
      requires Attached()
      modifies net
      ensures ok == MayModerate(old(registry.World()), this, env)
      ensures registry.World() ==
              if ok then old(registry.World())
              else Respond(old(registry.World()), this, ModerationRefusal(old(registry.World()), this), env)
    {
      if !authed {
        var _ := SendResponse(NotAuth, env);
        return false;
      }
      if role != Admin && role != Moderator {
        var _ := SendResponse(Forbidden, env);
        return false;
      }
      if !HasModeratorRights(db.tables, userId, env.up) {
        var _ := SendResponse(Forbidden, env);
        return false;
      }
      return true;
    }

    method HandleRegister(login: string, pass: string, env: Env<ClientHandler>)
      requires Attached() && Valid(db.tables)
      modifies db, net
      ensures registry.World() == Model.HandleRegister(old(registry.World()), this, login, pass, env)
      ensures Attached() && Valid(db.tables)
    {
      var r := RegisterInTables(login, pass, env);
      var _ := SendResponse(if r.status == Ok then RegisterOk else RegisterError(r.status, r.reason), env);
    }

    method HandleLogin(login: string, env: Env<ClientHandler>)
      requires Attached() && Valid(db.tables)
      modifies this, db, registry, net
      ensures registry.live == old(registry.live) && Attached() && Valid(db.tables)
      ensures registry.World() == Model.HandleLogin(old(registry.World()), this, login, env)
    {
      var r := LoginInTables(login, env);
      if r.status != Ok {
        var _ := SendResponse(LoginError(r.status, r.reason), env);
        return;
      }
      ChangeSession(r, env);
    }

    method ChangeSession(r: LoginResult, env: Env<ClientHandler>)
      requires Attached() && Valid(db.tables)
      modifies this, db, registry, net
      ensures registry.live == old(registry.live) && Attached() && Valid(db.tables)
      ensures registry.World() ==
              Respond(Model.StartSession(Cleanup(old(registry.World()), this, env), this, r),
                      this, LoginOk(r.role), env)
    {
      CleanupSession(env);
      StartSession(r);
      var _ := SendResponse(LoginOk(role), env);
    }

    method StartSession(r: LoginResult)
      requires Attached() && Valid(db.tables)
      modifies this, registry
      ensures registry.live == old(registry.live) && Attached() && role == r.role
      ensures registry.World() == Model.StartSession(old(registry.World()), this, r)
    {
      authed := true;
      userId := r.id;
      username := r.login;
      role := r.role;
      registry.AddSession(userId, this);
      OnlyThisMoved();
    }

    method HandleLogout(env: Env<ClientHandler>)
      requires Attached() && Valid(db.tables)
      modifies this, db, registry, net
      ensures registry.live == old(registry.live) && Attached() && Valid(db.tables)
      ensures registry.World() == Model.HandleLogout(old(registry.World()), this, env)
    {
      CleanupSession(env);
      var _ := SendResponse(LogoutOk, env);
    }

    method HandleMessage(to: string, text: string, env: Env<ClientHandler>)
      requires Attached() && Valid(db.tables)
      modifies db, net
      ensures Attached() && Valid(db.tables)
      ensures registry.World() == Model.HandleMessage(old(registry.World()), this, to, text, env)
    {
      if !authed {
        var _ := SendResponse(NotAuth, env);
        return;
      }
      var r := SendInTables(to, text, env);
      if r.status != Ok {
        var _ := SendResponse(MessageError(r.status, r.reason), env);
        return;
      }
      Announce(to, text, r.id, env);
    }

    /** The message is stored: answer, and push it to the receiver's sessions. */
    method Announce(to: string, text: string, id: nat, env: Env<ClientHandler>)
      requires Attached()
      modifies net
      ensures registry.World() == AfterStore(old(registry.World()), this, to, text, id, env)
    {
      var _ := SendResponse(MessageOk(id), env);
      var receiver := UserIdByLogin(db.tables, to, env.upNext);
      if receiver.Some? {
        var _ := registry.DeliverToUser(receiver.value, Pushed(username, text), env);
      }
    }

    // A transaction changes the world in the tables only.

    method RegisterInTables(login: string, pass: string, env: Env<ClientHandler>) returns (r: DbResult)
      requires Attached() && Valid(db.tables)
      modifies db
      ensures Valid(db.tables) && registry.World() == old(registry.World()).(db := db.tables)
      ensures (db.tables, r) == RegisterUser(old(db.tables), login, pass, env.hash, env.up)
    {
      r := db.RegisterUser(login, pass, env.hash, env.up);
    }

    method LoginInTables(login: string, env: Env<ClientHandler>) returns (r: LoginResult)
      requires Attached() && Valid(db.tables)
      modifies db
      ensures Valid(db.tables) && registry.World() == old(registry.World()).(db := db.tables)
      ensures (db.tables, r) == LoginUser(old(db.tables), login, env.passwordOk, env.now, env.up)
    {
      r := db.LoginUser(login, env.passwordOk, env.now, env.up);
    }

    method SendInTables(to: string, text: string, env: Env<ClientHandler>) returns (r: DbResult)
      requires Attached() && Valid(db.tables)
      modifies db
      ensures Valid(db.tables) && registry.World() == old(registry.World()).(db := db.tables)
      ensures (db.tables, r) == SendMessage(old(db.tables), userId, to, text, env.now, env.up)
    {
      r := db.SendMessage(userId, to, text, env.now, env.up);
    }

    method BanInTables(login: string, env: Env<ClientHandler>) returns (r: DbResult)
      requires Attached() && Valid(db.tables)
      modifies db
      ensures Valid(db.tables) && registry.World() == old(registry.World()).(db := db.tables)
      ensures (db.tables, r) == BanUser(old(db.tables), userId, login, env.upNext)
    {
      r := db.BanUser(userId, login, env.upNext);
    }

    method UnbanInTables(login: string, env: Env<ClientHandler>) returns (r: DbResult)
      requires Attached() && Valid(db.tables)
      modifies db
      ensures Valid(db.tables) && registry.World() == old(registry.World()).(db := db.tables)
      ensures (db.tables, r) == UnbanUser(old(db.tables), userId, login, env.upNext)
    {
      r := db.UnbanUser(userId, login, env.upNext);
    }

    method KickInTables(login: string, env: Env<ClientHandler>) returns (r: DbResult)
      requires Attached() && Valid(db.tables)
      modifies db
      ensures Valid(db.tables) && registry.World() == old(registry.World()).(db := db.tables)
      ensures (db.tables, r) == KickUser(old(db.tables), userId, login, env.now, env.upNext)
    {
      r := db.KickUser(userId, login, env.now, env.upNext);
    }

    method HandleBan(login: string, env: Env<ClientHandler>)
      requires Attached() && Valid(db.tables)
      modifies db, net, registry.live
      ensures Attached() && Valid(db.tables)
      ensures registry.World() == Model.HandleBan(old(registry.World()), this, login, env)
    {
      var allowed := RequireModerator(env);
      if !allowed {
        return;
      }
      CarryOutBan(login, env);
    }

    method CarryOutBan(login: string, env: Env<ClientHandler>)
      requires Attached() && Valid(db.tables) && MayModerate(registry.World(), this, env)
      modifies db, net, registry.live
      ensures Attached() && Valid(db.tables)
      ensures registry.World() == Model.HandleBan(old(registry.World()), this, login, env)
    {
      var r := BanInTables(login, env);
      if r.status == Ok {
        var _ := registry.DisconnectUser(r.id, env);
        var _ := SendResponse(Done, env);
        return;
      }
      var _ := SendResponse(Refused(r.status, r.reason), env);
    }

    method HandleUnban(login: string, env: Env<ClientHandler>)
      requires Attached() && Valid(db.tables)
      modifies db, net
      ensures Attached() && Valid(db.tables)
      ensures registry.World() == Model.HandleUnban(old(registry.World()), this, login, env)
    {
      var allowed := RequireModerator(env);
      if !allowed {
        return;
      }
      var r := UnbanInTables(login, env);
      var _ := SendResponse(if r.status == Ok then Done else Refused(r.status, r.reason), env);
    }

    method HandleKick(login: string, env: Env<ClientHandler>)
      requires Attached() && Valid(db.tables)
      modifies db, net, registry.live
      ensures Attached() && Valid(db.tables)
      ensures registry.World() == Model.HandleKick(old(registry.World()), this, login, env)
    {
      var allowed := RequireModerator(env);
      if !allowed {
        return;
      }
      CarryOutKick(login, env);
    }

    method CarryOutKick(login: string, env: Env<ClientHandler>)
      requires Attached() && Valid(db.tables) && MayModerate(registry.World(), this, env)
      modifies db, net, registry.live
      ensures Attached() && Valid(db.tables)
      ensures registry.World() == Model.HandleKick(old(registry.World()), this, login, env)
    {
      var r := KickInTables(login, env);
      if r.status != Ok {
        var _ := SendResponse(Refused(r.status, r.reason), env);
        return;
      }
      var kicked := registry.DisconnectUser(r.id, env);
      var _ := SendResponse(if kicked > 0 then Done else NoActiveSession, env);
    }

    /** Sends the lines one by one. */
    method SendAll(lines: seq<Line>, env: Env<ClientHandler>)
      requires Attached()
      modifies net
      ensures registry.World() == RespondAll(old(registry.World()), this, lines, env)
    {
      for i := 0 to |lines|
        invariant registry.World() == RespondAll(old(registry.World()), this, lines[..i], env)
      {
        assert lines[..i + 1][..i] == lines[..i];
        var _ := SendResponse(lines[i], env);
      }
      assert lines[..|lines|] == lines;
    }

    method HandleList(env: Env<ClientHandler>)
      requires Attached() && Valid(db.tables)
      modifies net
      ensures registry.World() ==
              RespondAll(old(registry.World()), this, Answer(old(registry.World()), this, List, env), env)
    {
      if !authed {
        SendAll([NotAuth], env);
        return;
      }
      SendAll([UsersBegin] + (if env.up then UserRows(db.tables, env.users) else []) + [UsersEnd], env);
    }

    method HandleInbox(env: Env<ClientHandler>)
      requires Attached() && Valid(db.tables)
      modifies net
      ensures registry.World() ==
              RespondAll(old(registry.World()), this, Answer(old(registry.World()), this, Inbox, env), env)
    {
      if !authed {
        SendAll([NotAuth], env);
        return;
      }
      SendAll([InboxBegin] + (if env.up then QueryRows(db.tables, InboxOf(userId), env.rows, 100) else [])
              + [InboxEnd], env);
    }

    method HandleHistory(target: string, limit: int, offset: int, env: Env<ClientHandler>)
      requires Attached() && Valid(db.tables)
      modifies net
      ensures registry.World() ==
              RespondAll(old(registry.World()), this,
                         Answer(old(registry.World()), this, History(target, limit, offset), env), env)
    {
      if !authed {
        SendAll([NotAuth], env);
        return;
      }
      var other := UserIdByLogin(db.tables, target, env.up);
      SendAll([HistoryBegin]
              + (if other.Some? && env.upNext
                 then HistoryRows(db.tables, userId, other.value, env.rows, limit, offset) else [])
              + [HistoryEnd], env);
    }

    method HandleAllMessages(limit: int, env: Env<ClientHandler>)
      requires Attached() && Valid(db.tables)
      modifies net
      ensures registry.World() ==
              RespondAll(old(registry.World()), this,
                         Answer(old(registry.World()), this, AllMessages(limit), env), env)
    {
      var allowed := RequireModerator(env);
      if !allowed {
        return;
      }
      SendAll([AllMessagesBegin]
              + (if env.upNext then QueryRows(db.tables, Everything, env.rows, ClampLimit(limit)) else [])
              + [AllMessagesEnd], env);
    }

    /** The commands that only answer. */
    method AnswerQuery(c: Command, env: Env<ClientHandler>)
      requires Attached() && Valid(db.tables)
      modifies net
      ensures registry.World() ==
              RespondAll(old(registry.World()), this, Answer(old(registry.World()), this, c, env), env)
    {
      match c {
        case List => HandleList(env);
        case Inbox => HandleInbox(env);
        case History(target, limit, offset) => HandleHistory(target, limit, offset, env);
        case AllMessages(limit) => HandleAllMessages(limit, env);
        case _ => SendAll([UnknownCommand], env);
      }
    }

    method Moderate(c: Command, env: Env<ClientHandler>)
      requires Attached() && Valid(db.tables) && (c.Ban? || c.Unban? || c.Kick?)
      modifies db, net, registry.live
      ensures Attached() && Valid(db.tables)
      ensures registry.World() == HandleCommand(old(registry.World()), this, c, env)
    {
      match c {
        case Ban(login) => HandleBan(login, env);
        case Unban(login) => HandleUnban(login, env);
        case Kick(login) => HandleKick(login, env);
      }
    }

    /** The dispatch in the command loop. */
    method Dispatch(c: Command, env: Env<ClientHandler>)
      requires Attached() && Valid(db.tables)
      modifies this, db, registry, net, registry.live
      ensures registry.live == old(registry.live) && Attached() && Valid(db.tables)
      ensures registry.World() == HandleCommand(old(registry.World()), this, c, env)
    {
      match c {
        case Register(login, pass) => HandleRegister(login, pass, env);
        case Login(login, _) => HandleLogin(login, env);
        case Logout => HandleLogout(env);
        case Message(to, text) => HandleMessage(to, text, env);
        case Ban(_) => Moderate(c, env);
        case Unban(_) => Moderate(c, env);
        case Kick(_) => Moderate(c, env);
        case _ => AnswerQuery(c, env);
      }
    }

    /** One iteration of the command loop: a command, or what ends the loop and the handler. */
    method TakeTurn(incoming: Incoming)
      requires Attached() && Inv(registry.World())
      modifies this, db, registry, net, registry.live
      ensures registry.Wired() && Inv(registry.World()) && registry.live <= old(registry.live)
      ensures registry.World() == After(old(registry.World()), EventOf(old(registry.World()), this, incoming))
    {
      StepKeepsInv(registry.World(), EventOf(registry.World(), this, incoming));
      if !open || incoming.Ended? {
        Finish(false, incoming.env);
      } else if incoming.Oversize? {
        Finish(true, incoming.env);
      } else {
        Dispatch(ParseCommand(incoming.frame), incoming.env);
      }
    }

    /** What follows the loop, up to the end of the destructor. */
    method Finish(tooLarge: bool, env: Env<ClientHandler>)
      requires Attached() && Inv(registry.World()) && (tooLarge ==> open)
      modifies this, db, registry, net
      ensures registry.Wired() && registry.live == old(registry.live) - {this}
      ensures registry.World() == After(old(registry.World()), Leave(this, tooLarge, env))
    {
      if tooLarge {
        var _ := SendResponse(FrameTooLarge, env);
      }
      assert Inv(registry.World());
      CleanupKeepsInv(registry.World(), this, env);
      CleanupSession(env);
      ghost var clean := registry.World();
      registry.live := registry.live - {this};
      assert registry.World().handlers == clean.handlers - {this};
    }
  }

  /** What one receive brings: a frame, the notice of an oversized one, or the end of the connection. */
  datatype Incoming =
    | Received(frame: string, env: Env<ClientHandler>)
    | Oversize(env: Env<ClientHandler>)
    | Ended(env: Env<ClientHandler>)

  /** What a read of the handler amounts to: a command, or the end of the handler. */
  ghost function EventOf(w: World<ClientHandler>, h: ClientHandler, incoming: Incoming): Event<ClientHandler>
    requires h in w.handlers
  {
    if !w.handlers[h].open || incoming.Ended? then Leave(h, false, incoming.env)
    else if incoming.Oversize? then Leave(h, true, incoming.env)
    else Frame(h, incoming.frame, incoming.env)
  }

  /** A handler's next read. */
  datatype Turn = Turn(h: ClientHandler, incoming: Incoming)

  /** The world after a turn; a handler that is gone has no more turns. */
  ghost function AfterTurn(w: World<ClientHandler>, t: Turn): World<ClientHandler>
    requires Inv(w)
  {
    if t.h in w.handlers then After(w, EventOf(w, t.h, t.incoming)) else w
  }

  lemma TurnKeepsInv(w: World<ClientHandler>, t: Turn)
    requires Inv(w)
    ensures Inv(AfterTurn(w, t))
  {
    if t.h in w.handlers {
      StepKeepsInv(w, EventOf(w, t.h, t.incoming));
    }
  }

  /** The events of a schedule of turns. */
  ghost function Script(w: World<ClientHandler>, turns: seq<Turn>): seq<Event<ClientHandler>>
    requires Inv(w)
    decreases |turns|
  {
    if turns == [] then []
    else
      TurnKeepsInv(w, turns[0]);
      (if turns[0].h in w.handlers then [EventOf(w, turns[0].h, turns[0].incoming)] else [])
      + Script(AfterTurn(w, turns[0]), turns[1..])
  }

  lemma {:induction false} ScriptIsLegal(w: World<ClientHandler>, turns: seq<Turn>)
    requires Inv(w)
    ensures Legal(w, Script(w, turns))
    ensures turns == [] ==> Reach(w, Script(w, turns)) == w
    decreases |turns|, 1
  {
    if turns != [] {
      ScriptStep(w, turns);
    }
  }

  lemma {:induction false} ScriptStep(w: World<ClientHandler>, turns: seq<Turn>)
    requires Inv(w) && turns != []
    ensures var next := AfterTurn(w, turns[0]);
            && Inv(next) && Legal(next, Script(next, turns[1..])) && Legal(w, Script(w, turns))
            && Reach(w, Script(w, turns)) == Reach(next, Script(next, turns[1..]))
    decreases |turns|, 0
  {
    var t, next := turns[0], AfterTurn(w, turns[0]);
    TurnKeepsInv(w, t);
    ScriptIsLegal(next, turns[1..]);
    if t.h in w.handlers {
      var e, rest := EventOf(w, t.h, t.incoming), Script(next, turns[1..]);
      assert Script(w, turns) == [e] + rest && ([e] + rest)[1..] == rest;
    } else {
      assert Script(w, turns) == Script(next, turns[1..]);
    }
  }

  /**
   Any schedule of the handlers' loops, a turn at a time, takes the objects
   through the run of the command-level model that the schedule spells out.
   */
  method Serve(registry: SessionRegistry, turns: seq<Turn>)
    requires registry.Wired() && Inv(registry.World())
    modifies registry.db, registry, registry.net, registry.live
    ensures registry.Wired() && Inv(registry.World())
    ensures Legal(old(registry.World()), Script(old(registry.World()), turns))
    ensures registry.World() == Reach(old(registry.World()), Script(old(registry.World()), turns))
  {
    ghost var w := registry.World();
    ScriptIsLegal(w, turns);
    for i := 0 to |turns|
      invariant registry.Wired() && registry.live <= old(registry.live) && Inv(registry.World())
      invariant Legal(registry.World(), Script(registry.World(), turns[i..]))
      invariant Reach(registry.World(), Script(registry.World(), turns[i..])) == Reach(w, Script(w, turns))
    {
      ScriptStep(registry.World(), turns[i..]);
      assert turns[i..][0] == turns[i] && turns[i..][1..] == turns[i + 1..];
      if turns[i].h in registry.live {
        turns[i].h.TakeTurn(turns[i].incoming);
      }
    }
    ScriptIsLegal(registry.World(), turns[|turns|..]);
  }

  /** The server takes a connection. */
  method Accept(db: Database, registry: SessionRegistry) returns (h: ClientHandler)
    requires registry.Wired() && registry.db == db && Valid(db.tables)
    modifies registry
    ensures fresh(h) && h !in old(registry.live)
    ensures h.Attached() && h.registry == registry && registry.live == old(registry.live) + {h}
    ensures registry.World() == After(old(registry.World()), Event.Accept(h))
  {
    h := new ClientHandler(db, registry);
    registry.live := registry.live + {h};
    assert registry.World().handlers == old(registry.World()).handlers[h := LOGGED_OUT];
  }
}
