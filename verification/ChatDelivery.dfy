/**
 What every command-level run sends: pushes match stored
 messages, each at most once per session; stored data stays inside the limits the
 line formats need; and no answer is too long.
 */
module ChatDelivery {
  import opened Options
  import opened Lines
  import opened Auth
  import opened Tables
  import opened Registry
  import opened Chat
  import opened ChatSafety
  import opened ResponseText

  // ----- invariants

  predicate StoredDataIsClean(t: Tables) {
    && (forall id | id in t.users :: IsValidLogin(t.users[id].login))
    && (forall i | 0 <= i < |t.messages| :: '\n' !in t.messages[i].text)
  }

  /**
   A MESSAGE frame carries the message that had been stored last when it was
   offered, with its sender's login, to a handler that was then logged in as the
   message's receiver.
   */
  predicate PushMatches<H(==)>(t: Tables, e: Sent<H>) {
    e.line.Pushed? ==>
      && 0 < e.stored <= |t.messages|
      && var m := t.messages[e.stored - 1];
         && e.user == Some(m.receiver)
         && m.sender in t.users
         && e.line == Pushed(t.users[m.sender].login, m.text)
  }

  predicate LogMatches<H(==)>(w: World<H>) {
    forall i | 0 <= i < |w.log| :: PushMatches(w.db, w.log[i])
  }

  /** No message is offered twice to the same handler. */
  predicate OncePerSession<H(==)>(w: World<H>) {
    forall i, j | 0 <= i < j < |w.log| && w.log[i].line.Pushed? && w.log[j].line.Pushed?
                  && w.log[i].stored == w.log[j].stored ::
      w.log[i].to != w.log[j].to
  }

  predicate CleanIf(t: Tables, clean: bool) {
    clean ==> StoredDataIsClean(t)
  }

  predicate LogIsClean<H(==)>(w: World<H>) {
    forall i | 0 <= i < |w.log| :: Clean(w.log[i].line)
  }

  /** What every run keeps; `clean` says whether the store was clean at the start. */
  predicate Tidy<H(==)>(w: World<H>, clean: bool) {
    Inv(w) && LogMatches(w) && OncePerSession(w) && (clean ==> StoredDataIsClean(w.db) && LogIsClean(w))
  }

  // ----- steps that only answer

  /** Any line but a MESSAGE frame, made of clean data if that is what there is. */
  predicate IsAnswer(line: Line, clean: bool) {
    !line.Pushed? && (clean ==> Clean(line))
  }

  /** All new log entries are answers. */
  predicate OnlyAnswers<H(==)>(w: World<H>, w': World<H>, clean: bool) {
    && w.log <= w'.log
    && (forall i | |w.log| <= i < |w'.log| :: IsAnswer(w'.log[i].line, clean))
  }

  lemma AnswersKeepTidy<H>(w: World<H>, w': World<H>, clean: bool)
    requires Tidy(w, clean) && Inv(w') && Keeps(w.db, w'.db) && CleanIf(w'.db, clean) && OnlyAnswers(w, w', clean)
    ensures Tidy(w', clean)
  {
    forall i | 0 <= i < |w'.log| ensures PushMatches(w'.db, w'.log[i]) && (clean ==> Clean(w'.log[i].line)) {
      if i < |w.log| {
        assert w'.log[i] == w.log[i];
        assert PushMatches(w.db, w.log[i]);
      }
    }
    assert forall i | 0 <= i < |w'.log| && w'.log[i].line.Pushed? :: i < |w.log| && w'.log[i] == w.log[i];
  }

  lemma {:induction false} RespondAllAnswers<H>(w: World<H>, h: H, lines: seq<Line>, env: Env<H>, clean: bool)
    requires forall i | 0 <= i < |lines| :: IsAnswer(lines[i], clean)
    ensures OnlyAnswers(w, RespondAll(w, h, lines, env), clean)
  {
    if lines != [] {
      RespondAllAnswers(w, h, lines[..|lines| - 1], env, clean);
    }
  }

  lemma {:induction false} DisconnectAnswers<H>(w: World<H>, hs: seq<H>, env: Env<H>, clean: bool)
    ensures OnlyAnswers(w, Disconnect(w, hs, env), clean)
  {
    if hs != [] {
      DisconnectAnswers(w, hs[..|hs| - 1], env, clean);
    }
  }

  lemma {:induction false} QueryRowsAreClean(t: Tables, q: Query, rows: seq<nat>, limit: nat, clean: bool)
    requires Valid(t) && CleanIf(t, clean)
    ensures forall i | 0 <= i < |QueryRows(t, q, rows, limit)| :: IsAnswer(QueryRows(t, q, rows, limit)[i], clean)
  {
    if rows != [] && limit > 0 {
      QueryRowsAreClean(t, q, rows[1..], limit - 1, clean);
      QueryRowsAreClean(t, q, rows[1..], limit, clean);
    }
  }

  lemma {:induction false} UserRowsAreClean(t: Tables, users: seq<int>, clean: bool)
    requires CleanIf(t, clean)
    ensures forall i | 0 <= i < |UserRows(t, users)| :: IsAnswer(UserRows(t, users)[i], clean)
  {
    if users != [] {
      UserRowsAreClean(t, users[1..], clean);
      var rest := UserRows(t, users[1..]);
      var id := users[0];
      if id in t.users {
        var u := t.users[id];
        var row := UserRow(u.login, u.status, u.role, u.lastSeen);
        assert IsAnswer(row, clean) && UserRows(t, users) == [row] + rest;
      }
    }
  }

  predicate AreAnswers(lines: seq<Line>, clean: bool) {
    forall i | 0 <= i < |lines| :: IsAnswer(lines[i], clean)
  }

  /** Rows between two markers. */
  lemma FramedAnswers(first: Line, rows: seq<Line>, last: Line, clean: bool)
    requires IsAnswer(first, clean) && AreAnswers(rows, clean) && IsAnswer(last, clean)
    ensures AreAnswers([first] + rows + [last], clean)
  {
  }

  lemma AnswerIsClean<H>(w: World<H>, h: H, c: Command, env: Env<H>, clean: bool)
    requires Valid(w.db) && CleanIf(w.db, clean) && h in w.handlers
    ensures AreAnswers(Answer(w, h, c, env), clean)
  {
    match c
    case List =>
      var rows := if env.up then UserRows(w.db, env.users) else [];
      UserRowsAreClean(w.db, env.users, clean);
      FramedAnswers(UsersBegin, rows, UsersEnd, clean);
    case Inbox =>
      var q := InboxOf(w.handlers[h].userId);
      QueryRowsAreClean(w.db, q, env.rows, 100, clean);
      FramedAnswers(InboxBegin, if env.up then QueryRows(w.db, q, env.rows, 100) else [], InboxEnd, clean);
    case History(_, _, _) => HistoryIsClean(w, h, c, env, clean);
    case AllMessages(limit) =>
      var rows := QueryRows(w.db, Everything, env.rows, ClampLimit(limit));
      QueryRowsAreClean(w.db, Everything, env.rows, ClampLimit(limit), clean);
      FramedAnswers(AllMessagesBegin, if env.upNext then rows else [], AllMessagesEnd, clean);
    case _ =>
  }

  lemma HistoryIsClean<H>(w: World<H>, h: H, c: Command, env: Env<H>, clean: bool)
    requires Valid(w.db) && CleanIf(w.db, clean) && h in w.handlers && c.History?
    ensures AreAnswers(Answer(w, h, c, env), clean)
  {
    var other := UserIdByLogin(w.db, c.target, env.up);
    if other.Some? && env.upNext {
      var q := Between(w.handlers[h].userId, other.value);
      var places := Skipped(w.db, q, env.rows, c.offset);
      QueryRowsAreClean(w.db, q, places, ClampLimit(c.limit), clean);
      FramedAnswers(HistoryBegin, QueryRows(w.db, q, places, ClampLimit(c.limit)), HistoryEnd, clean);
    } else {
      FramedAnswers(HistoryBegin, [], HistoryEnd, clean);
    }
  }

  lemma OneMoreAnswer<H>(w: World<H>, w': World<H>, h: H, line: Line, env: Env<H>, clean: bool)
    requires OnlyAnswers(w, w', clean) && IsAnswer(line, clean)
    ensures OnlyAnswers(w, Respond(w', h, line, env), clean)
  {
  }

  lemma RegisterAnswers<H>(w: World<H>, h: H, login: string, pass: string, env: Env<H>, clean: bool)
    requires Valid(w.db) && CleanIf(w.db, clean)
    ensures var w' := HandleRegister(w, h, login, pass, env);
            OnlyAnswers(w, w', clean) && CleanIf(w'.db, clean)
  {
  }

  lemma CleanupIsQuiet<H>(w: World<H>, h: H, env: Env<H>)
    requires h in w.handlers
    ensures Cleanup(w, h, env).log == w.log
    ensures StoredDataIsClean(w.db) ==> StoredDataIsClean(Cleanup(w, h, env).db)
  {
  }

  lemma LoginAnswers<H>(w: World<H>, h: H, login: string, env: Env<H>, clean: bool)
    requires Valid(w.db) && CleanIf(w.db, clean) && h in w.handlers
    ensures var w' := HandleLogin(w, h, login, env);
            OnlyAnswers(w, w', clean) && CleanIf(w'.db, clean)
  {
    var (db, r) := LoginUser(w.db, login, env.passwordOk, env.now, env.up);
    CleanupIsQuiet(w.(db := db), h, env);
  }

  lemma BanAnswers<H>(w: World<H>, h: H, login: string, env: Env<H>, clean: bool)
    requires Valid(w.db) && CleanIf(w.db, clean) && h in w.handlers
    ensures var w' := HandleBan(w, h, login, env);
            OnlyAnswers(w, w', clean) && CleanIf(w'.db, clean)
  {
    if MayModerate(w, h, env) {
      var (db, r) := BanUser(w.db, w.handlers[h].userId, login, env.upNext);
      ShutOutAnswers(w, db, SessionsOf(w, r.id), h, Done, env, clean);
    }
  }

  /** Disconnecting and then answering adds answers only. */
  lemma ShutOutAnswers<H>(w: World<H>, db: Tables, hs: seq<H>, h: H, answer: Line, env: Env<H>, clean: bool)
    requires IsAnswer(answer, clean)
    ensures var w' := Respond(Disconnect(w.(db := db), hs, env), h, answer, env);
            OnlyAnswers(w, w', clean) && w'.db == db
  {
    DisconnectAnswers(w.(db := db), hs, env, clean);
    DisconnectShuts(w.(db := db), hs, env);
    OneMoreAnswer(w, Disconnect(w.(db := db), hs, env), h, answer, env, clean);
  }

  lemma UnbanAnswers<H>(w: World<H>, h: H, login: string, env: Env<H>, clean: bool)
    requires Valid(w.db) && CleanIf(w.db, clean) && h in w.handlers
    ensures var w' := HandleUnban(w, h, login, env);
            OnlyAnswers(w, w', clean) && CleanIf(w'.db, clean)
  {
  }

  lemma KickAnswers<H>(w: World<H>, h: H, login: string, env: Env<H>, clean: bool)
    requires Valid(w.db) && CleanIf(w.db, clean) && h in w.handlers
    ensures var w' := HandleKick(w, h, login, env);
            OnlyAnswers(w, w', clean) && CleanIf(w'.db, clean)
  {
    if MayModerate(w, h, env) {
      var (db, r) := KickUser(w.db, w.handlers[h].userId, login, env.now, env.upNext);
      var targets := SessionsOf(w, r.id);
      ShutOutAnswers(w, db, targets, h, if targets != [] then Done else NoActiveSession, env, clean);
    }
  }

  lemma QueryAnswers<H>(w: World<H>, h: H, c: Command, env: Env<H>, clean: bool)
    requires Valid(w.db) && CleanIf(w.db, clean) && h in w.handlers
    ensures var w' := RespondAll(w, h, Answer(w, h, c, env), env);
            OnlyAnswers(w, w', clean) && w'.db == w.db
  {
    AnswerIsClean(w, h, c, env, clean);
    RespondAllAnswers(w, h, Answer(w, h, c, env), env, clean);
    RespondAllOnlySends(w, h, Answer(w, h, c, env), env);
  }

  // ----- messages

  /** What the delivery loop offers: the line to each handler of the snapshot, in order, once. */
  lemma {:induction false} PushesInOrder<H>(w: World<H>, hs: seq<H>, line: Line, env: Env<H>)
    ensures var log := PushTo(w, hs, line, env).log;
            && |log| == |w.log| + |hs| && w.log <= log
            && (forall k | 0 <= k < |hs| :: log[|w.log| + k] == Record(w, hs[k], line, env))
  {
    if hs != [] {
      PushesInOrder(w, hs[..|hs| - 1], line, env);
      PushOnlySends(w, hs[..|hs| - 1], line, env);
    }
  }

  /**
   What storing a message adds to the log: one answer, then the line once to each
   handler of `hs`, in order, each logged in as `user`.
   */
  predicate Offers<H(==)>(w: World<H>, w': World<H>, hs: seq<H>, user: int, line: Line, env: Env<H>) {
    && |w'.log| == |w.log| + 1 + |hs| && w.log <= w'.log
    && IsAnswer(w'.log[|w.log|].line, true)
    && (forall k | 0 <= k < |hs| ::
          w'.log[|w.log| + 1 + k]
          == Sent(hs[k], line, Delivers(w, hs[k], line, env), Some(user), |w.db.messages| + 1))
  }

  /** The message that the command stores, if it stores one. */
  predicate Stores<H(==)>(w: World<H>, h: H, to: string, text: string, env: Env<H>)
    requires Valid(w.db) && h in w.handlers
  {
    w.handlers[h].authed && SendMessage(w.db, w.handlers[h].userId, to, text, env.now, env.up).1.status == Ok
  }

  /** The new row, in the terms of the world before. */
  lemma StoredRow<H>(w: World<H>, h: H, to: string, text: string, env: Env<H>)
    requires Valid(w.db) && h in w.handlers && Stores(w, h, to, text, env)
    ensures to in w.db.ids
    ensures var w', n := HandleMessage(w, h, to, text, env), |w.db.messages|;
            && |w'.db.messages| == n + 1 && w.db.messages <= w'.db.messages
            && w'.db.messages[n].sender == w.handlers[h].userId
            && w'.db.messages[n].receiver == w.db.ids[to] && w'.db.messages[n].text == text
  {
    SendsAfterStore(w, h, to, text, env);
  }

  /**
   A stored message is answered, and then offered exactly once to each session
   that its receiver has at that moment, in registration order.
   */
  lemma StoredMessageIsOffered<H>(w: World<H>, h: H, to: string, text: string, env: Env<H>)
    requires Inv(w) && h in w.handlers && Stores(w, h, to, text, env) && env.upNext
    ensures to in w.db.ids && NoDup(SessionsOf(w, w.db.ids[to]))
    ensures Offers(w, HandleMessage(w, h, to, text, env), SessionsOf(w, w.db.ids[to]), w.db.ids[to],
                   Pushed(w.handlers[h].username, text), env)
  {
    var (db, r) := SendMessage(w.db, w.handlers[h].userId, to, text, env.now, env.up);
    var user, line := w.db.ids[to], Pushed(w.handlers[h].username, text);
    var answered := Respond(w.(db := db), h, MessageOk(r.id), env);
    var hs := SessionsOf(w, user);
    PushesInOrder(answered, hs, line, env);
    forall k | 0 <= k < |hs|
      ensures Record(answered, hs[k], line, env)
           == Sent(hs[k], line, Delivers(w, hs[k], line, env), Some(user), |w.db.messages| + 1)
    {
      assert hs[k] in w.sessions[user];
    }
    assert HandleMessage(w, h, to, text, env) == PushTo(answered, hs, line, env);
  }

  lemma OffersKeepLog<H>(w: World<H>, w': World<H>, hs: seq<H>, user: int, line: Line, env: Env<H>)
    requires LogMatches(w) && Grows(w.db, w'.db) && Offers(w, w', hs, user, line, env)
    requires |w'.db.messages| == |w.db.messages| + 1
    requires var m := w'.db.messages[|w.db.messages|];
             m.receiver == user && m.sender in w'.db.users && line == Pushed(w'.db.users[m.sender].login, m.text)
    requires forall i | 0 <= i < |w.db.messages| :: w.db.messages[i].sender in w.db.users
    ensures LogMatches(w')
  {
    forall i | 0 <= i < |w'.log| ensures PushMatches(w'.db, w'.log[i]) {
      if i < |w.log| {
        assert w'.log[i] == w.log[i];
        assert PushMatches(w.db, w.log[i]);
      } else if i > |w.log| {
        var k := i - |w.log| - 1;
        assert w'.log[|w.log| + 1 + k].to == hs[k];
      }
    }
  }

  lemma OffersAreClean<H>(w: World<H>, w': World<H>, hs: seq<H>, user: int, line: Line, env: Env<H>)
    requires LogIsClean(w) && Offers(w, w', hs, user, line, env) && Clean(line)
    ensures LogIsClean(w')
  {
    forall i | 0 <= i < |w'.log| ensures Clean(w'.log[i].line) {
      if i < |w.log| {
        assert w'.log[i] == w.log[i];
      } else if i > |w.log| {
        var k := i - |w.log| - 1;
        assert w'.log[|w.log| + 1 + k].to == hs[k];
      }
    }
  }

  lemma OffersAreNew<H>(w: World<H>, w': World<H>, hs: seq<H>, user: int, line: Line, env: Env<H>)
    requires LogMatches(w) && OncePerSession(w) && NoDup(hs) && Offers(w, w', hs, user, line, env)
    ensures OncePerSession(w')
  {
    var n := |w.log|;
    forall i | 0 <= i < n && w'.log[i].line.Pushed?
      ensures w'.log[i] == w.log[i] && w'.log[i].stored <= |w.db.messages|
    {
      assert PushMatches(w.db, w.log[i]);
    }
    forall i | n <= i < |w'.log| && w'.log[i].line.Pushed?
      ensures i > n && w'.log[i].to == hs[i - n - 1] && w'.log[i].stored == |w.db.messages| + 1
    {
      var k := i - n - 1;
      assert i == n + 1 + k;
    }
  }

  lemma StoredTextIsClean(t: Tables, sender: int, to: string, text: string, now: Timestamp, up: bool, clean: bool)
    requires Valid(t) && CleanIf(t, clean) && '\n' !in text
    ensures CleanIf(SendMessage(t, sender, to, text, now, up).0, clean)
  {
  }

  lemma QuietMessage<H>(w: World<H>, h: H, to: string, text: string, env: Env<H>, clean: bool)
    requires Valid(w.db) && CleanIf(w.db, clean) && h in w.handlers && '\n' !in text
    requires !(Stores(w, h, to, text, env) && env.upNext)
    ensures var w' := HandleMessage(w, h, to, text, env);
            OnlyAnswers(w, w', clean) && CleanIf(w'.db, clean)
  {
    StoredTextIsClean(w.db, w.handlers[h].userId, to, text, env.now, env.up, clean);
  }

  lemma DeliveryKeepsTidy<H>(w: World<H>, h: H, to: string, text: string, env: Env<H>, clean: bool)
    requires Tidy(w, clean) && h in w.handlers && Stores(w, h, to, text, env) && env.upNext && '\n' !in text
    requires Inv(HandleMessage(w, h, to, text, env)) && Follows(w.db, HandleMessage(w, h, to, text, env).db)
    ensures Tidy(HandleMessage(w, h, to, text, env), clean)
  {
    var w' := HandleMessage(w, h, to, text, env);
    StoredRow(w, h, to, text, env);
    StoredMessageIsOffered(w, h, to, text, env);
    var user, line := w.db.ids[to], Pushed(w.handlers[h].username, text);
    StoredTextIsClean(w.db, w.handlers[h].userId, to, text, env.now, env.up, clean);
    SendsAfterStore(w, h, to, text, env);
    OffersKeepLog(w, w', SessionsOf(w, user), user, line, env);
    if clean {
      OffersAreClean(w, w', SessionsOf(w, user), user, line, env);
    }
    OffersAreNew(w, w', SessionsOf(w, user), user, line, env);
  }

  lemma SendsAfterStore<H>(w: World<H>, h: H, to: string, text: string, env: Env<H>)
    requires Valid(w.db) && h in w.handlers && w.handlers[h].authed
    ensures HandleMessage(w, h, to, text, env).db
         == SendMessage(w.db, w.handlers[h].userId, to, text, env.now, env.up).0
  {
    var (db, r) := SendMessage(w.db, w.handlers[h].userId, to, text, env.now, env.up);
    if r.status == Ok {
      AfterStoreOnlySends(w.(db := db), h, to, text, r.id, env);
    }
  }

  // ----- every step and every run

  /** The command stores a message and finds its receiver again. */
  predicate Announces<H(==)>(w: World<H>, h: H, c: Command, env: Env<H>)
    requires Valid(w.db) && h in w.handlers
  {
    c.Message? && Stores(w, h, c.to, c.text, env) && env.upNext
  }

  /** Every other command only answers. */
  lemma CommandAnswers<H>(w: World<H>, h: H, c: Command, env: Env<H>, clean: bool)
    requires Valid(w.db) && CleanIf(w.db, clean) && h in w.handlers && !Announces(w, h, c, env)
    requires c.Message? ==> '\n' !in c.text
    ensures var w' := HandleCommand(w, h, c, env);
            OnlyAnswers(w, w', clean) && CleanIf(w'.db, clean)
  {
    match c
    case Register(login, pass) => RegisterAnswers(w, h, login, pass, env, clean);
    case Login(login, _) => LoginAnswers(w, h, login, env, clean);
    case Logout => CleanupIsQuiet(w, h, env);
    case Message(to, text) => QuietMessage(w, h, to, text, env, clean);
    case Ban(login) => BanAnswers(w, h, login, env, clean);
    case Unban(login) => UnbanAnswers(w, h, login, env, clean);
    case Kick(login) => KickAnswers(w, h, login, env, clean);
    case _ => QueryAnswers(w, h, c, env, clean);
  }

  lemma CommandKeepsTidy<H>(w: World<H>, h: H, c: Command, env: Env<H>, clean: bool)
    requires Tidy(w, clean) && h in w.handlers
    requires c.Message? ==> '\n' !in c.text
    ensures Tidy(HandleCommand(w, h, c, env), clean)
  {
    CommandKeepsInv(w, h, c, env);
    if Announces(w, h, c, env) {
      DeliveryKeepsTidy(w, h, c.to, c.text, env, clean);
    } else {
      CommandAnswers(w, h, c, env, clean);
      AnswersKeepTidy(w, HandleCommand(w, h, c, env), clean);
    }
  }

  lemma LeaveAnswers<H>(w: World<H>, e: Event<H>, clean: bool)
    requires Valid(w.db) && CleanIf(w.db, clean) && e.Leave? && Enabled(w, e)
    ensures OnlyAnswers(w, After(w, e), clean) && CleanIf(After(w, e).db, clean)
    ensures After(w, e).db.messages == w.db.messages
  {
    CleanupIsQuiet(if e.tooLarge then Respond(w, e.h, FrameTooLarge, e.env) else w, e.h, e.env);
  }

  lemma StepKeepsTidy<H>(w: World<H>, e: Event<H>, clean: bool)
    requires Tidy(w, clean) && Enabled(w, e)
    ensures Tidy(After(w, e), clean)
  {
    StepKeepsInv(w, e);
    match e
    case Accept(_) =>
    case Frame(h, frame, env) => CommandKeepsTidy(w, h, ParseCommand(frame), env, clean);
    case Operate(_, _) =>
      assert forall i | 0 <= i < |w.log| :: PushMatches(w.db, w.log[i]) && PushMatches(After(w, e).db, w.log[i]);
    case Leave(_, _, _) =>
      LeaveAnswers(w, e, clean);
      AnswersKeepTidy(w, After(w, e), clean);
  }

  lemma {:induction false} RunKeepsTidy<H>(w: World<H>, events: seq<Event<H>>, clean: bool)
    requires Tidy(w, clean) && Legal(w, events)
    ensures Tidy(Reach(w, events), clean)
    decreases |events|
  {
    if events != [] {
      StepKeepsInv(w, events[0]);
      StepKeepsTidy(w, events[0], clean);
      RunKeepsTidy(After(w, events[0]), events[1..], clean);
    }
  }

  // ----- main results

  /**
   In every run, each MESSAGE frame that was offered to a handler carries a
   message that was already stored, with its sender's login, and the handler was
   logged in as its receiver; and no message was offered twice to one handler.
   */
  lemma PushesAreStoredMessages<H>(init: World<H>, events: seq<Event<H>>)
    requires Init(init) && Legal(init, events)
    ensures var w := Reach(init, events);
            (forall i | 0 <= i < |w.log| :: PushMatches(w.db, w.log[i])) && OncePerSession(w)
  {
    RunKeepsTidy(init, events, false);
  }

  /**
   Every line the server builds is at most 4224 bytes, so no frame limit of at
   least that size, such as the 64 KiB default, refuses one.
   */
  lemma ResponsesFit<H>(init: World<H>, events: seq<Event<H>>, i: nat, maxFrameSize: nat)
    requires Init(init) && StoredDataIsClean(init.db) && Legal(init, events)
    requires i < |Reach(init, events).log| && maxFrameSize >= MAX_LINE
    ensures |Text(Reach(init, events).log[i].line)| <= maxFrameSize
  {
    RunKeepsTidy(init, events, true);
    CleanLinesAreShort(Reach(init, events).log[i].line);
  }

  /**
   In every state reached from a clean store every login is valid and every text
   is one line of 1 to 4096 characters; hence every line built from a stored
   message comes apart, at the client and in the admin window, into exactly its
   fields.
   */
  lemma StoredMessagesReadBack<H>(init: World<H>, events: seq<Event<H>>, i: nat)
    requires Init(init) && StoredDataIsClean(init.db) && Legal(init, events)
    requires i < |Reach(init, events).db.messages|
    ensures var t := Reach(init, events).db;
            var m := t.messages[i];
            && (forall id | id in t.users :: IsValidLogin(t.users[id].login))
            && m.sender in t.users && m.receiver in t.users && CleanText(m.text)
            && ReadsBack(t.users[m.sender].login, t.users[m.receiver].login, m)
  {
    RunKeepsTidy(init, events, true);
    var t := Reach(init, events).db;
    var m := t.messages[i];
    CleanMessageReadsBack(t.users[m.sender].login, t.users[m.receiver].login, m);
  }

  predicate ReadsBack(sender: string, receiver: string, m: StoredMessage) {
    && ClientParse(Text(Pushed(sender, m.text))) == ShownPush(sender, " " + m.text)
    && ClientParse(Text(InboxRow(sender, m.createdAt, m.text))) == ShownInbox(sender, m.createdAt, " " + m.text)
    && ClientParse(Text(HistoryRow(sender, receiver, m.createdAt, m.text)))
       == ShownHistory(sender, receiver, m.createdAt, " " + m.text)
    && AdminWindow.ParseRow(Text(MessageRow(sender, receiver, m.createdAt, m.text)))
       == Some(AdminWindow.Row(sender, receiver, m.createdAt, m.text))
  }

  lemma CleanMessageReadsBack(sender: string, receiver: string, m: StoredMessage)
    requires IsValidLogin(sender) && IsValidLogin(receiver) && CleanText(m.text)
    ensures ReadsBack(sender, receiver, m)
  {
    CleanRowsReadBack(Pushed(sender, m.text));
    CleanRowsReadBack(InboxRow(sender, m.createdAt, m.text));
    CleanRowsReadBack(HistoryRow(sender, receiver, m.createdAt, m.text));
    CleanRowsReadBack(MessageRow(sender, receiver, m.createdAt, m.text));
  }
}
