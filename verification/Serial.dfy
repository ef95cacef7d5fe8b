/**
 The two views of the server agree: when nobody comes in between, the steps of a
 handler for one command lead exactly where the command-level model says, and so
 every command-level run is one of the interleavings.
 */
module Serial {
  import opened Lines
  import opened Tables
  import opened Registry
  import opened Interleaving
  import opened Runs
  import C = Chat
  import Safety = ChatSafety

  // ----- the state between commands

  function AbsHandler(x: C.Handler): Handler {
    Handler(Idle, x.open, x.authed, x.userId, x.role)
  }

  /** The interleaved server when every handler is waiting for a frame. */
  function Abs(w: C.World<HandlerId>): State {
    State(w.db, w.sessions, map h | h in w.handlers :: AbsHandler(w.handlers[h]), Listening, |w.handlers|)
  }

  /** In between, one handler is somewhere else. */
  function Busy(w: C.World<HandlerId>, h: HandlerId, me: Handler): State {
    WithHandler(Abs(w), h, me)
  }

  lemma BusyAgain(w: C.World<HandlerId>, h: HandlerId, a: Handler, b: Handler)
    ensures WithHandler(Busy(w, h, a), h, b) == Busy(w, h, b)
  {
    assert Busy(w, h, a).handlers[h := b] == Abs(w).handlers[h := b];
  }

  /** Only the log differs. */
  lemma LogIsNotSeen(w: C.World<HandlerId>, v: C.World<HandlerId>)
    requires v.db == w.db && v.sessions == w.sessions && v.handlers == w.handlers
    ensures Abs(v) == Abs(w)
  {
  }

  /** The handler is waiting again. */
  lemma BackToIdle(w: C.World<HandlerId>, h: HandlerId, x: C.Handler)
    requires h in w.handlers
    ensures Busy(w, h, AbsHandler(x)) == Abs(w.(handlers := w.handlers[h := x]))
  {
    var v := w.(handlers := w.handlers[h := x]);
    assert v.handlers.Keys == w.handlers.Keys;
    assert |v.handlers| == |v.handlers.Keys| && |w.handlers| == |w.handlers.Keys|;
    assert Abs(v).handlers == Abs(w).handlers[h := AbsHandler(x)];
  }

  lemma SameAgain(w: C.World<HandlerId>, h: HandlerId)
    requires h in w.handlers
    ensures Busy(w, h, AbsHandler(w.handlers[h])) == Abs(w)
  {
    BackToIdle(w, h, w.handlers[h]);
    assert w.handlers[h := w.handlers[h]] == w.handlers;
  }

  // ----- steps of one handler

  predicate IsOwn(step: Step, h: HandlerId) {
    !step.Admit? && !step.Count? && !step.Spawn? && !step.Retire? && !step.Close? && step.h == h
  }

  /** A step of the handler that is busy changes the tables, the registry and itself. */
  lemma OwnStep(init: State, steps: seq<Step>, w: C.World<HandlerId>, h: HandlerId, me: Handler, step: Step,
                v: C.World<HandlerId>, me': Handler, maxClients: int)
    requires RunTo(init, steps, Busy(w, h, me), maxClients) && IsOwn(step, h)
    requires Enabled(Busy(w, h, me), step, maxClients)
    requires v == w.(db := NextDb(Busy(w, h, me), step, maxClients),
                     sessions := NextSessions(Busy(w, h, me), step, maxClients))
    requires NextSelf(Busy(w, h, me), step, maxClients) == me' && Valid(v.db)
    ensures RunTo(init, steps + [step], Busy(v, h, me'), maxClients)
  {
    BusyAgain(w, h, me, me');
    assert Abs(v).handlers == Abs(w).handlers;
    Go(init, steps, Busy(w, h, me), step, Busy(v, h, me'), maxClients);
  }

  lemma ReadFrame(init: State, steps: seq<Step>, w: C.World<HandlerId>, h: HandlerId, maxClients: int)
    requires RunTo(init, steps, Abs(w), maxClients) && h in w.handlers && w.handlers[h].open
    ensures RunTo(init, steps + [Read(h)], Busy(w, h, AbsHandler(w.handlers[h]).(pc := Handling)), maxClients)
  {
    Go(init, steps, Abs(w), Read(h), Busy(w, h, AbsHandler(w.handlers[h]).(pc := Handling)), maxClients);
  }

  // ----- registration, messages, queries

  lemma RegisterIsARun(init: State, steps: seq<Step>, w: C.World<HandlerId>, h: HandlerId, login: string, pass: string,
                       env: C.Env<HandlerId>, maxClients: int) returns (more: seq<Step>)
    requires RunTo(init, steps, Abs(w), maxClients) && h in w.handlers && w.handlers[h].open
    ensures RunTo(init, more, Abs(C.HandleRegister(w, h, login, pass, env)), maxClients)
  {
    var me := AbsHandler(w.handlers[h]);
    var step := RegisterCommit(h, login, pass, env.hash, env.now, env.up);
    var v := w.(db := RegisterUser(w.db, login, pass, env.hash, env.up).0);
    RegisterFollows(w.db, login, pass, env.hash, env.up);
    ReadFrame(init, steps, w, h, maxClients);
    OwnStep(init, steps + [Read(h)], w, h, me.(pc := Handling), step, v, me, maxClients);
    SameAgain(v, h);
    LogIsNotSeen(v, C.HandleRegister(w, h, login, pass, env));
    more := steps + [Read(h)] + [step];
  }

  lemma ReplyIsARun(init: State, steps: seq<Step>, w: C.World<HandlerId>, h: HandlerId, maxClients: int)
    returns (more: seq<Step>)
    requires RunTo(init, steps, Abs(w), maxClients) && h in w.handlers && w.handlers[h].open
    ensures RunTo(init, more, Abs(w), maxClients)
  {
    var me := AbsHandler(w.handlers[h]);
    ReadFrame(init, steps, w, h, maxClients);
    OwnStep(init, steps + [Read(h)], w, h, me.(pc := Handling), Reply(h), w, me, maxClients);
    SameAgain(w, h);
    more := steps + [Read(h)] + [Reply(h)];
  }

  lemma MessageIsARun(init: State, steps: seq<Step>, w: C.World<HandlerId>, h: HandlerId, to: string, text: string,
                      env: C.Env<HandlerId>, maxClients: int) returns (more: seq<Step>)
    requires RunTo(init, steps, Abs(w), maxClients) && h in w.handlers && w.handlers[h].open && Valid(w.db)
    ensures RunTo(init, more, Abs(C.HandleMessage(w, h, to, text, env)), maxClients)
  {
    var me := AbsHandler(w.handlers[h]);
    if !me.authed {
      more := ReplyIsARun(init, steps, w, h, maxClients);
      LogIsNotSeen(w, C.HandleMessage(w, h, to, text, env));
    } else {
      var step := StoreCommit(h, to, text, env.now, env.up);
      var (db, r) := SendMessage(w.db, me.userId, to, text, env.now, env.up);
      var v := w.(db := db);
      SendFollows(w.db, me.userId, to, text, env.now, env.up);
      ReadFrame(init, steps, w, h, maxClients);
      OwnStep(init, steps + [Read(h)], w, h, me.(pc := Handling), step, v, me, maxClients);
      SameAgain(v, h);
      if r.status == Ok {
        Safety.AfterStoreOnlySends(v, h, to, text, r.id, env);
      }
      LogIsNotSeen(v, C.HandleMessage(w, h, to, text, env));
      more := steps + [Read(h)] + [step];
    }
  }

  lemma QueryIsARun(init: State, steps: seq<Step>, w: C.World<HandlerId>, h: HandlerId, c: Command,
                    env: C.Env<HandlerId>, maxClients: int) returns (more: seq<Step>)
    requires RunTo(init, steps, Abs(w), maxClients) && h in w.handlers && w.handlers[h].open && Valid(w.db)
    ensures RunTo(init, more, Abs(C.RespondAll(w, h, C.Answer(w, h, c, env), env)), maxClients)
  {
    more := ReplyIsARun(init, steps, w, h, maxClients);
    Safety.RespondAllOnlySends(w, h, C.Answer(w, h, c, env), env);
    LogIsNotSeen(w, C.RespondAll(w, h, C.Answer(w, h, c, env), env));
  }

  // ----- sessions

  /** A logged-in handler on its way through `cleanupSession`. */
  function Leaving(x: C.Handler, next: Next): Handler {
    AbsHandler(x).(pc := Removing(next))
  }

  /** The handler after it, on its way on. */
  function Left(x: C.Handler, next: Next): Handler {
    var out := Handler(Idle, x.open, false, -1, OrdinaryUser);
    out.(pc := CleanupThen(out, next))
  }

  /** The world after `cleanupSession`, apart from the handler's own fields. */
  function WithoutSession(w: C.World<HandlerId>, h: HandlerId, env: C.Env<HandlerId>): C.World<HandlerId>
    requires h in w.handlers && Valid(w.db)
  {
    var x := w.handlers[h];
    if !x.authed then w
    else w.(sessions := RemoveSession(w.sessions, x.userId, h),
            db := LogoutUser(w.db, x.userId, env.now, env.upNext))
  }

  lemma CleanupIsARun(init: State, steps: seq<Step>, w: C.World<HandlerId>, v: C.World<HandlerId>, h: HandlerId,
                      next: Next, env: C.Env<HandlerId>, maxClients: int) returns (more: seq<Step>)
    requires h in w.handlers && w.handlers[h].authed && Valid(w.db)
    requires RunTo(init, steps, Busy(w, h, Leaving(w.handlers[h], next)), maxClients)
    requires v == WithoutSession(w, h, env)
    ensures RunTo(init, more, Busy(v, h, Left(w.handlers[h], next)), maxClients)
  {
    var me := Leaving(w.handlers[h], next);
    var mid := w.(sessions := RemoveSession(w.sessions, me.userId, h));
    var out := LogoutCommit(h, env.now, env.upNext);
    OwnStep(init, steps, w, h, me, Remove(h), mid, me.(pc := LoggingOut(next)), maxClients);
    LogoutFollows(w.db, me.userId, env.now, env.upNext);
    OwnStep(init, steps + [Remove(h)], mid, h, me.(pc := LoggingOut(next)), out, v, Left(w.handlers[h], next),
            maxClients);
    more := steps + [Remove(h)] + [out];
  }

  lemma LogoutIsARun(init: State, steps: seq<Step>, w: C.World<HandlerId>, h: HandlerId, env: C.Env<HandlerId>,
                     maxClients: int) returns (more: seq<Step>)
    requires RunTo(init, steps, Abs(w), maxClients) && h in w.handlers && w.handlers[h].open && Valid(w.db)
    ensures RunTo(init, more, Abs(C.HandleLogout(w, h, env)), maxClients)
  {
    var x := w.handlers[h];
    var me := AbsHandler(x);
    ReadFrame(init, steps, w, h, maxClients);
    more := steps + [Read(h)];
    if !x.authed {
      OwnStep(init, more, w, h, me.(pc := Handling), LogoutCommand(h), w, me, maxClients);
      SameAgain(w, h);
      LogIsNotSeen(w, C.HandleLogout(w, h, env));
      more := more + [LogoutCommand(h)];
    } else {
      OwnStep(init, more, w, h, me.(pc := Handling), LogoutCommand(h), w, Leaving(x, ThenReply), maxClients);
      more := more + [LogoutCommand(h)];
      var v := WithoutSession(w, h, env);
      more := CleanupIsARun(init, more, w, v, h, ThenReply, env, maxClients);
      var x' := x.(authed := false, userId := -1, username := "", role := OrdinaryUser);
      BackToIdle(v, h, x');
      LogIsNotSeen(v.(handlers := v.handlers[h := x']), C.HandleLogout(w, h, env));
    }
  }

  /** From a ticket to a registered session. */
  lemma JoinIsARun(init: State, steps: seq<Step>, w: C.World<HandlerId>, h: HandlerId, me: Handler, r: LoginResult,
                   maxClients: int) returns (more: seq<Step>)
    requires h in w.handlers && !me.authed && me.open == w.handlers[h].open
    requires me.pc == Joining(Ticket(r.id, r.role)) && RunTo(init, steps, Busy(w, h, me), maxClients)
    ensures RunTo(init, more, Abs(C.StartSession(w, h, r)), maxClients)
  {
    var set' := me.(pc := Adding, authed := true, userId := r.id, role := r.role);
    OwnStep(init, steps, w, h, me, SetFields(h), w, set', maxClients);
    var v := w.(sessions := AddSession(w.sessions, r.id, h));
    OwnStep(init, steps + [SetFields(h)], w, h, set', Add(h), v, set'.(pc := Idle), maxClients);
    var x := w.handlers[h].(authed := true, userId := r.id, username := r.login, role := r.role);
    BackToIdle(v, h, x);
    more := steps + [SetFields(h)] + [Add(h)];
  }

  lemma LoginIsARun(init: State, steps: seq<Step>, w: C.World<HandlerId>, h: HandlerId, login: string,
                    env: C.Env<HandlerId>, maxClients: int) returns (more: seq<Step>)
    requires RunTo(init, steps, Abs(w), maxClients) && h in w.handlers && w.handlers[h].open && Valid(w.db)
    ensures RunTo(init, more, Abs(C.HandleLogin(w, h, login, env)), maxClients)
  {
    var x := w.handlers[h];
    var me := AbsHandler(x);
    var (db, r) := LoginUser(w.db, login, env.passwordOk, env.now, env.up);
    var v := w.(db := db);
    var step := LoginCommit(h, login, env.passwordOk, env.now, env.up);
    LoginFollows(w.db, login, env.passwordOk, env.now, env.up);
    ReadFrame(init, steps, w, h, maxClients);
    more := steps + [Read(h)];
    if r.status != Ok {
      OwnStep(init, more, w, h, me.(pc := Handling), step, v, me, maxClients);
      SameAgain(v, h);
      LogIsNotSeen(v, C.HandleLogin(w, h, login, env));
      more := more + [step];
    } else {
      var ticket := Ticket(r.id, r.role);
      var next := CleanupThen(me, ThenJoin(ticket));
      OwnStep(init, more, w, h, me.(pc := Handling), step, v, me.(pc := next), maxClients);
      more := LoginGoesOn(init, more + [step], v, h, r, env, maxClients);
      LogIsNotSeen(C.StartSession(C.Cleanup(v, h, env), h, r), C.HandleLogin(w, h, login, env));
    }
  }

  lemma LoginGoesOn(init: State, steps: seq<Step>, w: C.World<HandlerId>, h: HandlerId, r: LoginResult,
                    env: C.Env<HandlerId>, maxClients: int) returns (more: seq<Step>)
    requires h in w.handlers && Valid(w.db)
    requires var me := AbsHandler(w.handlers[h]);
             RunTo(init, steps, Busy(w, h, me.(pc := CleanupThen(me, ThenJoin(Ticket(r.id, r.role))))), maxClients)
    ensures RunTo(init, more, Abs(C.StartSession(C.Cleanup(w, h, env), h, r)), maxClients)
  {
    var x := w.handlers[h];
    var next := ThenJoin(Ticket(r.id, r.role));
    if !x.authed {
      more := JoinIsARun(init, steps, w, h, AbsHandler(x).(pc := Joining(next.ticket)), r, maxClients);
    } else {
      var v := WithoutSession(w, h, env);
      more := CleanupIsARun(init, steps, w, v, h, next, env, maxClients);
      more := JoinIsARun(init, more, v, h, Left(x, next), r, maxClients);
      FieldsAreSetAnyway(w, v, h, r, env);
    }
  }

  /** The login sets the fields that the cleanup has reset. */
  lemma FieldsAreSetAnyway(w: C.World<HandlerId>, v: C.World<HandlerId>, h: HandlerId, r: LoginResult,
                           env: C.Env<HandlerId>)
    requires h in w.handlers && w.handlers[h].authed && Valid(w.db)
    requires v == WithoutSession(w, h, env)
    ensures C.StartSession(C.Cleanup(w, h, env), h, r) == C.StartSession(v, h, r)
  {
    assert C.StartSession(C.Cleanup(w, h, env), h, r).handlers == C.StartSession(v, h, r).handlers;
  }

  // ----- moderation

  /** The handlers of a list have lost their sockets. */
  function Shut(w: C.World<HandlerId>, hs: seq<HandlerId>): C.World<HandlerId> {
    w.(handlers := map h | h in w.handlers :: w.handlers[h].(open := w.handlers[h].open && h !in hs))
  }

  function InTheMiddle(w: C.World<HandlerId>, g: HandlerId, pc: Pc): State
    requires g in w.handlers
  {
    Busy(w, g, AbsHandler(w.handlers[g]).(pc := pc))
  }

  /** A close step that finds its target. */
  lemma CloseStep(s: State, g: HandlerId, k: HandlerId, maxClients: int)
    requires Valid(s.db) && g in s.handlers && k in s.handlers
    requires s.handlers[g].pc.Closing? && s.handlers[g].pc.rest != [] && s.handlers[g].pc.rest[0] == k
    ensures Enabled(s, Close(g), maxClients)
    ensures var me := s.handlers[g];
            var moved := s.handlers[g := me.(pc := Closing(me.pc.rest[1..]), open := me.open && k != g)];
            After(s, Close(g), maxClients) == s.(handlers := moved[k := moved[k].(open := false)])
  {
  }

  lemma CloseFirst(init: State, steps: seq<Step>, w: C.World<HandlerId>, g: HandlerId, rest: seq<HandlerId>,
                   maxClients: int)
    requires g in w.handlers && rest != [] && rest[0] in w.handlers
    requires RunTo(init, steps, InTheMiddle(w, g, Closing(rest)), maxClients)
    ensures RunTo(init, steps + [Close(g)], InTheMiddle(Shut(w, [rest[0]]), g, Closing(rest[1..])), maxClients)
  {
    var s, s' := InTheMiddle(w, g, Closing(rest)), InTheMiddle(Shut(w, [rest[0]]), g, Closing(rest[1..]));
    SameSize(w, Shut(w, [rest[0]]));
    CloseStep(s, g, rest[0], maxClients);
    if rest[0] == g {
      ShutItself(w, g, rest);
    } else {
      ShutAnother(w, g, rest);
    }
    Go(init, steps, s, Close(g), s', maxClients);
  }

  /** The first handler of the list is the moderator's own. */
  lemma ShutItself(w: C.World<HandlerId>, g: HandlerId, rest: seq<HandlerId>)
    requires g in w.handlers && rest != [] && rest[0] == g
    ensures var after := AbsHandler(w.handlers[g]).(pc := Closing(rest[1..]), open := false);
            InTheMiddle(w, g, Closing(rest)).handlers[g := after][g := after]
            == InTheMiddle(Shut(w, [g]), g, Closing(rest[1..])).handlers
  {
    ShutHandlers(w, g);
  }

  lemma ShutAnother(w: C.World<HandlerId>, g: HandlerId, rest: seq<HandlerId>)
    requires g in w.handlers && rest != [] && rest[0] in w.handlers && rest[0] != g
    ensures var k := rest[0];
            InTheMiddle(w, g, Closing(rest)).handlers
              [g := AbsHandler(w.handlers[g]).(pc := Closing(rest[1..]))]
              [k := AbsHandler(w.handlers[k]).(open := false)]
            == InTheMiddle(Shut(w, [k]), g, Closing(rest[1..])).handlers
  {
    ShutHandlers(w, rest[0]);
  }

  lemma ShutHandlers(w: C.World<HandlerId>, k: HandlerId)
    requires k in w.handlers
    ensures Abs(Shut(w, [k])).handlers == Abs(w).handlers[k := AbsHandler(w.handlers[k]).(open := false)]
  {
  }

  lemma SameSize(w: C.World<HandlerId>, v: C.World<HandlerId>)
    requires w.handlers.Keys == v.handlers.Keys
    ensures |w.handlers| == |v.handlers|
  {
    assert |v.handlers| == |v.handlers.Keys| && |w.handlers| == |w.handlers.Keys|;
  }

  lemma ShutTwice(w: C.World<HandlerId>, hs: seq<HandlerId>)
    requires hs != []
    ensures Shut(Shut(w, [hs[0]]), hs[1..]) == Shut(w, hs)
  {
    assert forall h | h in w.handlers :: h in hs <==> h in [hs[0]] || h in hs[1..];
    assert Shut(Shut(w, [hs[0]]), hs[1..]).handlers == Shut(w, hs).handlers;
  }

  lemma ShutNone(w: C.World<HandlerId>)
    ensures Shut(w, []) == w
  {
    assert Shut(w, []).handlers == w.handlers;
  }

  /** The disconnect loop, up to the return to the command loop. */
  lemma {:induction false} CloseAll(init: State, steps: seq<Step>, w: C.World<HandlerId>, g: HandlerId,
                                    rest: seq<HandlerId>, maxClients: int) returns (more: seq<Step>)
    requires g in w.handlers && forall i | 0 <= i < |rest| :: rest[i] in w.handlers
    requires RunTo(init, steps, InTheMiddle(w, g, Closing(rest)), maxClients)
    ensures RunTo(init, more, Abs(Shut(w, rest)), maxClients)
    decreases |rest|
  {
    if rest == [] {
      OwnClose(init, steps, w, g, maxClients);
      ShutNone(w);
      more := steps + [Close(g)];
    } else {
      CloseFirst(init, steps, w, g, rest, maxClients);
      more := CloseAll(init, steps + [Close(g)], Shut(w, [rest[0]]), g, rest[1..], maxClients);
      ShutTwice(w, rest);
    }
  }

  lemma OwnClose(init: State, steps: seq<Step>, w: C.World<HandlerId>, g: HandlerId, maxClients: int)
    requires g in w.handlers && RunTo(init, steps, InTheMiddle(w, g, Closing([])), maxClients)
    ensures RunTo(init, steps + [Close(g)], Abs(w), maxClients)
  {
    var me := AbsHandler(w.handlers[g]);
    SameAgain(w, g);
    BusyAgain(w, g, me.(pc := Closing([])), me);
    Go(init, steps, InTheMiddle(w, g, Closing([])), Close(g), Abs(w), maxClients);
  }

  /** Read, and the check: passed or not. */
  lemma CheckIsARun(init: State, steps: seq<Step>, w: C.World<HandlerId>, h: HandlerId, action: Moderation,
                    login: string, env: C.Env<HandlerId>, maxClients: int)
    requires RunTo(init, steps, Abs(w), maxClients) && h in w.handlers && w.handlers[h].open
    ensures var more := steps + [Read(h)] + [CheckRights(h, action, login, env.up)];
            if C.MayModerate(w, h, env) then RunTo(init, more, InTheMiddle(w, h, Allowed(action, login)), maxClients)
            else RunTo(init, more, Abs(w), maxClients)
  {
    var me := AbsHandler(w.handlers[h]);
    var check := CheckRights(h, action, login, env.up);
    ReadFrame(init, steps, w, h, maxClients);
    SameAgain(w, h);
    OwnStep(init, steps + [Read(h)], w, h, me.(pc := Handling), check, w,
            if C.MayModerate(w, h, env) then me.(pc := Allowed(action, login)) else me, maxClients);
  }

  /** What each of the three transactions returns. */
  function Moderated(t: Tables, action: Moderation, actor: int, login: string, now: Timestamp, up: bool)
    : (Tables, DbResult)
    requires Valid(t)
  {
    match action
    case ToBan => BanUser(t, actor, login, up)
    case ToUnban => UnbanUser(t, actor, login, up)
    case ToKick => KickUser(t, actor, login, now, up)
  }

  lemma ModeratedFollows(t: Tables, action: Moderation, actor: int, login: string, now: Timestamp, up: bool)
    requires Valid(t)
    ensures Follows(t, Moderated(t, action, actor, login, now, up).0)
  {
    match action
    case ToBan => BanFollows(t, actor, login, up);
    case ToUnban => UnbanFollows(t, actor, login, up);
    case ToKick => KickFollows(t, actor, login, now, up);
  }

  /** The world a moderation command leaves behind, apart from the lines sent. */
  function AfterModeration(w: C.World<HandlerId>, h: HandlerId, action: Moderation, login: string,
                           env: C.Env<HandlerId>): C.World<HandlerId>
    requires Valid(w.db) && h in w.handlers
  {
    if !C.MayModerate(w, h, env) then w
    else
      var (db, r) := Moderated(w.db, action, w.handlers[h].userId, login, env.now, env.upNext);
      if r.status == Ok && !action.ToUnban? then Shut(w.(db := db), C.SessionsOf(w, r.id)) else w.(db := db)
  }

  lemma ModerationIsARun(init: State, steps: seq<Step>, w: C.World<HandlerId>, h: HandlerId, action: Moderation,
                         login: string, env: C.Env<HandlerId>, maxClients: int) returns (more: seq<Step>)
    requires RunTo(init, steps, Abs(w), maxClients) && h in w.handlers && w.handlers[h].open && Safety.Inv(w)
    ensures RunTo(init, more, Abs(AfterModeration(w, h, action, login, env)), maxClients)
  {
    CheckIsARun(init, steps, w, h, action, login, env, maxClients);
    more := steps + [Read(h)] + [CheckRights(h, action, login, env.up)];
    if C.MayModerate(w, h, env) {
      var (db, r) := Moderated(w.db, action, w.handlers[h].userId, login, env.now, env.upNext);
      CommitIsARun(init, more, w, h, action, login, env, maxClients);
      more := more + [ModerateCommit(h, env.now, env.upNext)];
      if r.status == Ok && !action.ToUnban? {
        more := DisconnectIsARun(init, more, w.(db := db), h, r.id, maxClients);
      }
    }
  }

  lemma CommitIsARun(init: State, steps: seq<Step>, w: C.World<HandlerId>, h: HandlerId, action: Moderation,
                     login: string, env: C.Env<HandlerId>, maxClients: int)
    requires h in w.handlers && Valid(w.db) && RunTo(init, steps, InTheMiddle(w, h, Allowed(action, login)), maxClients)
    ensures var (db, r) := Moderated(w.db, action, w.handlers[h].userId, login, env.now, env.upNext);
            RunTo(init, steps + [ModerateCommit(h, env.now, env.upNext)],
                  if r.status == Ok && !action.ToUnban? then InTheMiddle(w.(db := db), h, Snapshotting(r.id))
                  else Abs(w.(db := db)), maxClients)
  {
    var me := AbsHandler(w.handlers[h]);
    var (db, r) := Moderated(w.db, action, me.userId, login, env.now, env.upNext);
    ModeratedFollows(w.db, action, me.userId, login, env.now, env.upNext);
    SameAgain(w.(db := db), h);
    OwnStep(init, steps, w, h, me.(pc := Allowed(action, login)), ModerateCommit(h, env.now, env.upNext), w.(db := db),
            if r.status == Ok && !action.ToUnban? then me.(pc := Snapshotting(r.id)) else me, maxClients);
  }

  lemma DisconnectIsARun(init: State, steps: seq<Step>, w: C.World<HandlerId>, h: HandlerId, user: int, maxClients: int)
    returns (more: seq<Step>)
    requires h in w.handlers && RunTo(init, steps, InTheMiddle(w, h, Snapshotting(user)), maxClients)
    requires forall x | x in C.SessionsOf(w, user) :: x in w.handlers
    ensures RunTo(init, more, Abs(Shut(w, C.SessionsOf(w, user))), maxClients)
  {
    var me, hs := AbsHandler(w.handlers[h]), C.SessionsOf(w, user);
    OwnStep(init, steps, w, h, me.(pc := Snapshotting(user)), Snapshot(h), w, me.(pc := Closing(hs)), maxClients);
    more := CloseAll(init, steps + [Snapshot(h)], w, h, hs, maxClients);
  }

  /** The command-level moderation commands leave exactly that behind. */
  lemma DisconnectIsShut(w: C.World<HandlerId>, hs: seq<HandlerId>, env: C.Env<HandlerId>)
    ensures var v := C.Disconnect(w, hs, env);
            v.db == w.db && v.sessions == w.sessions && v.handlers == Shut(w, hs).handlers
  {
    Safety.DisconnectShuts(w, hs, env);
    assert C.Disconnect(w, hs, env).handlers == Shut(w, hs).handlers;
  }

  lemma BanIsARun(init: State, steps: seq<Step>, w: C.World<HandlerId>, h: HandlerId, login: string,
                   env: C.Env<HandlerId>, maxClients: int) returns (more: seq<Step>)
    requires RunTo(init, steps, Abs(w), maxClients) && h in w.handlers && w.handlers[h].open && Safety.Inv(w)
    ensures RunTo(init, more, Abs(C.HandleBan(w, h, login, env)), maxClients)
  {
    more := ModerationIsARun(init, steps, w, h, ToBan, login, env, maxClients);
    BanLeaves(w, h, login, env);
  }

  lemma UnbanIsARun(init: State, steps: seq<Step>, w: C.World<HandlerId>, h: HandlerId, login: string,
                   env: C.Env<HandlerId>, maxClients: int) returns (more: seq<Step>)
    requires RunTo(init, steps, Abs(w), maxClients) && h in w.handlers && w.handlers[h].open && Safety.Inv(w)
    ensures RunTo(init, more, Abs(C.HandleUnban(w, h, login, env)), maxClients)
  {
    more := ModerationIsARun(init, steps, w, h, ToUnban, login, env, maxClients);
    LogIsNotSeen(AfterModeration(w, h, ToUnban, login, env), C.HandleUnban(w, h, login, env));
  }

  lemma KickIsARun(init: State, steps: seq<Step>, w: C.World<HandlerId>, h: HandlerId, login: string,
                   env: C.Env<HandlerId>, maxClients: int) returns (more: seq<Step>)
    requires RunTo(init, steps, Abs(w), maxClients) && h in w.handlers && w.handlers[h].open && Safety.Inv(w)
    ensures RunTo(init, more, Abs(C.HandleKick(w, h, login, env)), maxClients)
  {
    more := ModerationIsARun(init, steps, w, h, ToKick, login, env, maxClients);
    KickLeaves(w, h, login, env);
  }

  lemma BanLeaves(w: C.World<HandlerId>, h: HandlerId, login: string, env: C.Env<HandlerId>)
    requires Safety.Inv(w) && h in w.handlers
    ensures Abs(C.HandleBan(w, h, login, env)) == Abs(AfterModeration(w, h, ToBan, login, env))
  {
    var (db, r) := BanUser(w.db, w.handlers[h].userId, login, env.upNext);
    DisconnectIsShut(w.(db := db), C.SessionsOf(w, r.id), env);
    LogIsNotSeen(AfterModeration(w, h, ToBan, login, env), C.HandleBan(w, h, login, env));
  }

  lemma KickLeaves(w: C.World<HandlerId>, h: HandlerId, login: string, env: C.Env<HandlerId>)
    requires Safety.Inv(w) && h in w.handlers
    ensures Abs(C.HandleKick(w, h, login, env)) == Abs(AfterModeration(w, h, ToKick, login, env))
  {
    var (db, r) := KickUser(w.db, w.handlers[h].userId, login, env.now, env.upNext);
    DisconnectIsShut(w.(db := db), C.SessionsOf(w, r.id), env);
    LogIsNotSeen(AfterModeration(w, h, ToKick, login, env), C.HandleKick(w, h, login, env));
  }

  // ----- whole commands and whole runs

  lemma CommandIsARun(init: State, steps: seq<Step>, w: C.World<HandlerId>, h: HandlerId, c: Command,
                      env: C.Env<HandlerId>, maxClients: int) returns (more: seq<Step>)
    requires RunTo(init, steps, Abs(w), maxClients) && h in w.handlers && w.handlers[h].open && Safety.Inv(w)
    ensures RunTo(init, more, Abs(C.HandleCommand(w, h, c, env)), maxClients)
  {
    match c
    case Register(login, pass) => more := RegisterIsARun(init, steps, w, h, login, pass, env, maxClients);
    case Login(login, _) => more := LoginIsARun(init, steps, w, h, login, env, maxClients);
    case Logout => more := LogoutIsARun(init, steps, w, h, env, maxClients);
    case Message(to, text) => more := MessageIsARun(init, steps, w, h, to, text, env, maxClients);
    case Ban(login) => more := BanIsARun(init, steps, w, h, login, env, maxClients);
    case Unban(login) => more := UnbanIsARun(init, steps, w, h, login, env, maxClients);
    case Kick(login) => more := KickIsARun(init, steps, w, h, login, env, maxClients);
    case _ => more := QueryIsARun(init, steps, w, h, c, env, maxClients);
  }

  lemma AcceptIsARun(init: State, steps: seq<Step>, w: C.World<HandlerId>, h: HandlerId, maxClients: int)
    returns (more: seq<Step>)
    requires RunTo(init, steps, Abs(w), maxClients) && h !in w.handlers && |w.handlers| < maxClients
    ensures RunTo(init, more, Abs(w.(handlers := w.handlers[h := C.LOGGED_OUT])), maxClients)
  {
    more := Connect(init, steps, Abs(w), h, maxClients);
    AbsAccept(w, h);
  }

  lemma AbsAccept(w: C.World<HandlerId>, h: HandlerId)
    requires h !in w.handlers
    ensures Abs(w.(handlers := w.handlers[h := C.LOGGED_OUT])) == Connected(Abs(w), h)
  {
    var v := w.(handlers := w.handlers[h := C.LOGGED_OUT]);
    assert v.handlers.Keys == w.handlers.Keys + {h};
    assert |v.handlers| == |v.handlers.Keys| && |w.handlers| == |w.handlers.Keys|;
    assert Abs(v).handlers == Connected(Abs(w), h).handlers;
  }

  /** What is left behind when a handler goes. */
  lemma LeaveLeaves(w: C.World<HandlerId>, h: HandlerId, tooLarge: bool, env: C.Env<HandlerId>)
    requires Valid(w.db) && C.Enabled(w, C.Leave(h, tooLarge, env))
    ensures var v := WithoutSession(w, h, env);
            Abs(C.After(w, C.Leave(h, tooLarge, env))) == Abs(v.(handlers := v.handlers - {h}))
  {
    var v, w' := WithoutSession(w, h, env), C.After(w, C.Leave(h, tooLarge, env));
    assert w'.handlers == v.handlers - {h};
    LogIsNotSeen(v.(handlers := v.handlers - {h}), w');
  }

  /** The way out of the command loop, up to the end of the destructor. */
  lemma ExitIsARun(init: State, steps: seq<Step>, w: C.World<HandlerId>, h: HandlerId, env: C.Env<HandlerId>,
                   maxClients: int) returns (more: seq<Step>, me: Handler)
    requires RunTo(init, steps, Abs(w), maxClients) && Valid(w.db) && h in w.handlers
    ensures me.pc == Finished && RunTo(init, more, Busy(WithoutSession(w, h, env), h, me), maxClients)
  {
    var x := w.handlers[h];
    me := AbsHandler(x);
    SameAgain(w, h);
    OwnStep(init, steps, w, h, me, Leave(h), w, me.(pc := CleanupThen(me, ThenExit)), maxClients);
    more := steps + [Leave(h)];
    if x.authed {
      more := CleanupIsARun(init, more, w, WithoutSession(w, h, env), h, ThenExit, env, maxClients);
      me := Left(x, ThenExit);
    } else {
      me := me.(pc := Finished);
    }
  }

  lemma LeaveIsARun(init: State, steps: seq<Step>, w: C.World<HandlerId>, h: HandlerId, tooLarge: bool,
                    env: C.Env<HandlerId>, maxClients: int) returns (more: seq<Step>)
    requires RunTo(init, steps, Abs(w), maxClients) && Valid(w.db) && C.Enabled(w, C.Leave(h, tooLarge, env))
    ensures RunTo(init, more, Abs(C.After(w, C.Leave(h, tooLarge, env))), maxClients)
  {
    var me;
    more, me := ExitIsARun(init, steps, w, h, env, maxClients);
    RetireIsARun(init, more, WithoutSession(w, h, env), h, me, maxClients);
    LeaveLeaves(w, h, tooLarge, env);
    more := more + [Retire(h)];
  }

  lemma RetireIsARun(init: State, steps: seq<Step>, w: C.World<HandlerId>, h: HandlerId, me: Handler, maxClients: int)
    requires h in w.handlers && me.pc == Finished && RunTo(init, steps, Busy(w, h, me), maxClients)
    ensures RunTo(init, steps + [Retire(h)], Abs(w.(handlers := w.handlers - {h})), maxClients)
  {
    AbsRetire(w, h, me);
    Go(init, steps, Busy(w, h, me), Retire(h), Abs(w.(handlers := w.handlers - {h})), maxClients);
  }

  lemma AbsRetire(w: C.World<HandlerId>, h: HandlerId, me: Handler)
    requires h in w.handlers
    ensures var s := Busy(w, h, me);
            Abs(w.(handlers := w.handlers - {h})) == s.(handlers := s.handlers - {h}, active := s.active - 1)
  {
    var v := w.(handlers := w.handlers - {h});
    assert v.handlers.Keys == w.handlers.Keys - {h};
    assert |v.handlers| == |v.handlers.Keys| && |w.handlers| == |w.handlers.Keys|;
    assert Abs(v).handlers == Busy(w, h, me).handlers - {h};
  }

  /** There is room for every new connection, and the operator leaves the roles alone. */
  ghost predicate Fits(w: C.World<HandlerId>, events: seq<C.Event<HandlerId>>, maxClients: int)
    requires Safety.Inv(w) && Safety.Legal(w, events)
    decreases |events|
  {
    events == [] ||
    (!events[0].Operate? && (events[0].Accept? ==> |w.handlers| < maxClients)
     && (Safety.StepKeepsInv(w, events[0]); Fits(C.After(w, events[0]), events[1..], maxClients)))
  }

  lemma {:induction false} EventsAreARun(init: State, steps: seq<Step>, w: C.World<HandlerId>,
                                         events: seq<C.Event<HandlerId>>, maxClients: int) returns (more: seq<Step>)
    requires RunTo(init, steps, Abs(w), maxClients) && Safety.Inv(w) && Safety.Legal(w, events)
    requires Fits(w, events, maxClients)
    ensures RunTo(init, more, Abs(Safety.Reach(w, events)), maxClients)
    decreases |events|
  {
    if events == [] {
      more := steps;
    } else {
      var e := events[0];
      match e {
        case Accept(h) => more := AcceptIsARun(init, steps, w, h, maxClients);
        case Frame(h, frame, env) =>
          more := CommandIsARun(init, steps, w, h, ParseCommand(frame), env, maxClients);
        case Leave(h, tooLarge, env) => more := LeaveIsARun(init, steps, w, h, tooLarge, env, maxClients);
        case Operate(_, _) => more := steps;
      }
      Safety.StepKeepsInv(w, e);
      more := EventsAreARun(init, more, C.After(w, e), events[1..], maxClients);
    }
  }

  /**
   Every command-level run with room for its connections is an interleaving of the
   server's threads: there are steps that lead, from the same tables, to a state with
   exactly the tables, the registry and the handlers of the command-level run.
   */
  lemma CommandRunsAreInterleavings(init: C.World<HandlerId>, events: seq<C.Event<HandlerId>>, maxClients: int)
    returns (steps: seq<Step>)
    requires Safety.Init(init) && Safety.Legal(init, events) && Fits(init, events, maxClients)
    ensures Init(Abs(init)) && Legal(Abs(init), steps, maxClients)
    ensures Reach(Abs(init), steps, maxClients) == Abs(Safety.Reach(init, events))
  {
    assert Abs(init).handlers == map[];
    assert RunTo(Abs(init), [], Abs(init), maxClients);
    steps := EventsAreARun(Abs(init), [], init, events, maxClients);
  }
}
