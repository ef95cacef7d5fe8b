/**
 Every stored message is offered exactly once to every session that its receiver
 has when it is stored: the record of a whole run, message by message.
 */
module OfferedOnce {
  import opened Options
  import opened Lines
  import opened Tables
  import opened Registry
  import opened Chat
  import opened ChatSafety
  import opened ChatDelivery

  /** The handlers that were offered message number `n` as a MESSAGE frame, in order, with repetitions. */
  function OfferedTo<H>(log: seq<Sent<H>>, n: nat): seq<H> {
    if log == [] then []
    else
      var e := log[|log| - 1];
      OfferedTo(log[..|log| - 1], n) + (if e.line.Pushed? && e.stored == n + 1 then [e.to] else [])
  }

  lemma {:induction false} OfferedAppend<H>(a: seq<Sent<H>>, b: seq<Sent<H>>, n: nat)
    ensures OfferedTo(a + b, n) == OfferedTo(a, n) + OfferedTo(b, n)
  {
    if b == [] {
      assert a + b == a;
    } else {
      OfferedAppend(a, b[..|b| - 1], n);
      assert (a + b)[..|a + b| - 1] == a + b[..|b| - 1];
    }
  }

  lemma {:induction false} NoneOffered<H>(log: seq<Sent<H>>, n: nat)
    requires forall i | 0 <= i < |log| :: !(log[i].line.Pushed? && log[i].stored == n + 1)
    ensures OfferedTo(log, n) == []
  {
    if log != [] {
      NoneOffered(log[..|log| - 1], n);
    }
  }

  lemma {:induction false} AllOffered<H>(log: seq<Sent<H>>, hs: seq<H>, n: nat)
    requires |log| == |hs|
    requires forall i | 0 <= i < |log| :: log[i].line.Pushed? && log[i].stored == n + 1 && log[i].to == hs[i]
    ensures OfferedTo(log, n) == hs
  {
    if log != [] {
      AllOffered(log[..|log| - 1], hs[..|hs| - 1], n);
      assert hs == hs[..|hs| - 1] + [hs[|hs| - 1]];
    }
  }

  // ----- one step

  /** Only a message command that stores adds to the message table. */
  lemma OnlyMessagesStore<H>(w: World<H>, h: H, c: Command, env: Env<H>)
    requires Valid(w.db) && h in w.handlers
    ensures var w' := HandleCommand(w, h, c, env);
            w'.db.messages != w.db.messages ==> c.Message? && Stores(w, h, c.to, c.text, env)
  {
    match c
    case Register(_, _) =>
    case Login(_, _) =>
    case Logout =>
    case Message(to, text) =>
      if !Stores(w, h, to, text, env) {
        QuietTables(w, h, to, text, env);
      }
    case Ban(login) => BanTables(w, h, login, env);
    case Unban(_) =>
    case Kick(login) => KickTables(w, h, login, env);
    case _ => RespondAllOnlySends(w, h, Answer(w, h, c, env), env);
  }

  lemma BanTables<H>(w: World<H>, h: H, login: string, env: Env<H>)
    requires Valid(w.db) && h in w.handlers
    ensures HandleBan(w, h, login, env).db.messages == w.db.messages
  {
    var (db, r) := BanUser(w.db, w.handlers[h].userId, login, env.upNext);
    DisconnectShuts(w.(db := db), SessionsOf(w, r.id), env);
  }

  lemma KickTables<H>(w: World<H>, h: H, login: string, env: Env<H>)
    requires Valid(w.db) && h in w.handlers
    ensures HandleKick(w, h, login, env).db.messages == w.db.messages
  {
    var (db, r) := KickUser(w.db, w.handlers[h].userId, login, env.now, env.upNext);
    DisconnectShuts(w.(db := db), SessionsOf(w, r.id), env);
  }

  lemma QuietTables<H>(w: World<H>, h: H, to: string, text: string, env: Env<H>)
    requires Valid(w.db) && h in w.handlers && !Stores(w, h, to, text, env)
    ensures HandleMessage(w, h, to, text, env).db.messages == w.db.messages
  {
  }

  lemma AnswerThenPushes<H>(log: seq<Sent<H>>, answer: Sent<H>, pushes: seq<Sent<H>>, hs: seq<H>, m: nat, n: nat)
    requires !answer.line.Pushed? && |pushes| == |hs|
    requires forall i | 0 <= i < |hs| :: pushes[i].line.Pushed? && pushes[i].stored == m + 1 && pushes[i].to == hs[i]
    ensures OfferedTo(log + ([answer] + pushes), n) == OfferedTo(log, n) + (if n == m then hs else [])
  {
    OfferedAppend(log, [answer] + pushes, n);
    OfferedAppend([answer], pushes, n);
    NoneOffered([answer], n);
    if n == m {
      AllOffered(pushes, hs, n);
    } else {
      NoneOffered(pushes, n);
    }
  }

  /** What the answer and the pushes of a stored message add to the record of message `n`. */
  lemma OffersAdd<H>(w: World<H>, w': World<H>, hs: seq<H>, user: int, line: Line, env: Env<H>, n: nat)
    requires Offers(w, w', hs, user, line, env) && line.Pushed?
    ensures OfferedTo(w'.log, n) == OfferedTo(w.log, n) + (if n == |w.db.messages| then hs else [])
  {
    var k := |w.log|;
    var pushes := w'.log[k + 1..];
    forall i | 0 <= i < |hs|
      ensures pushes[i].line == line && pushes[i].stored == |w.db.messages| + 1 && pushes[i].to == hs[i]
    {
      OneOffer(w, w', hs, user, line, env, i);
    }
    AnswerThenPushes(w.log, w'.log[k], pushes, hs, |w.db.messages|, n);
    LogInThree(w'.log, w.log);
  }

  lemma OneOffer<H>(w: World<H>, w': World<H>, hs: seq<H>, user: int, line: Line, env: Env<H>, i: nat)
    requires Offers(w, w', hs, user, line, env) && i < |hs|
    ensures var e := w'.log[|w.log| + 1 + i];
            e.line == line && e.stored == |w.db.messages| + 1 && e.to == hs[i]
  {
    var x := hs[i];
    assert w'.log[|w.log| + 1 + i]
        == Sent(x, line, Delivers(w, x, line, env), Some(user), |w.db.messages| + 1);
  }

  lemma LogInThree<H>(log: seq<Sent<H>>, front: seq<Sent<H>>)
    requires front <= log && |log| > |front|
    ensures log == front + ([log[|front|]] + log[|front| + 1..])
  {
  }

  lemma AnswersAdd<H>(w: World<H>, w': World<H>, n: nat)
    requires OnlyAnswers(w, w', false)
    ensures OfferedTo(w'.log, n) == OfferedTo(w.log, n)
  {
    var answers := w'.log[|w.log|..];
    assert w'.log == w.log + answers;
    OfferedAppend(w.log, answers, n);
    NoneOffered(answers, n);
  }

  /** The step stores message number `n`, and its receiver is found again. */
  predicate Announced<H(==)>(w: World<H>, e: Event<H>, n: nat)
    requires Valid(w.db) && Enabled(w, e)
  {
    && |w.db.messages| == n && |After(w, e).db.messages| == n + 1
    && e.Frame? && e.env.upNext
  }

  /** What a step adds to the record of message `n`: the receiver's sessions if it stores it, otherwise nothing. */
  lemma StepOffers<H>(w: World<H>, e: Event<H>, n: nat)
    requires Tidy(w, false) && Enabled(w, e)
    ensures var w' := After(w, e);
            && OfferedTo(w'.log, n)
               == OfferedTo(w.log, n) + (if Announced(w, e, n) then SessionsOf(w, w'.db.messages[n].receiver) else [])
            && |w.db.messages| <= |w'.db.messages| <= |w.db.messages| + 1
            && (|w'.db.messages| > |w.db.messages| ==> e.Frame?)
  {
    match e
    case Accept(_) =>
    case Operate(_, _) =>
    case Leave(_, _, _) =>
      LeaveAnswers(w, e, false);
      AnswersAdd(w, After(w, e), n);
    case Frame(h, frame, env) => CommandOffers(w, h, ParseCommand(frame), env, n);
  }

  lemma CommandOffers<H>(w: World<H>, h: H, c: Command, env: Env<H>, n: nat)
    requires Tidy(w, false) && h in w.handlers && (c.Message? ==> '\n' !in c.text)
    ensures var w' := HandleCommand(w, h, c, env);
            var announced := |w.db.messages| == n && |w'.db.messages| == n + 1 && env.upNext;
            && OfferedTo(w'.log, n)
               == OfferedTo(w.log, n) + (if announced then SessionsOf(w, w'.db.messages[n].receiver) else [])
            && |w.db.messages| <= |w'.db.messages| <= |w.db.messages| + 1
  {
    OnlyMessagesStore(w, h, c, env);
    if c.Message? && Stores(w, h, c.to, c.text, env) {
      StoredRow(w, h, c.to, c.text, env);
    }
    if Announces(w, h, c, env) {
      StoredMessageIsOffered(w, h, c.to, c.text, env);
      var user := w.db.ids[c.to];
      OffersAdd(w, HandleCommand(w, h, c, env), SessionsOf(w, user), user,
                Pushed(w.handlers[h].username, c.text), env, n);
    } else {
      CommandAnswers(w, h, c, env, false);
      AnswersAdd(w, HandleCommand(w, h, c, env), n);
    }
  }

  // ----- whole runs

  /** Once a message is stored, nothing later in a run offers it. */
  lemma {:induction false} NeverOfferedLater<H>(w: World<H>, events: seq<Event<H>>, n: nat)
    requires Tidy(w, false) && Legal(w, events) && n < |w.db.messages|
    ensures OfferedTo(Reach(w, events).log, n) == OfferedTo(w.log, n)
    decreases |events|
  {
    if events != [] {
      StepOffers(w, events[0], n);
      StepKeepsTidy(w, events[0], false);
      NeverOfferedLater(After(w, events[0]), events[1..], n);
    }
  }

  lemma NotOfferedYet<H>(w: World<H>, n: nat)
    requires LogMatches(w) && |w.db.messages| <= n
    ensures OfferedTo(w.log, n) == []
  {
    forall i | 0 <= i < |w.log| ensures !(w.log[i].line.Pushed? && w.log[i].stored == n + 1) {
      assert PushMatches(w.db, w.log[i]);
    }
    NoneOffered(w.log, n);
  }

  /**
   Step `k` stores a message: then the whole run offers it to exactly the sessions
   its receiver had at that step, each once and in registration order, or to
   nobody if the receiver could not be looked up again.
   */
  predicate OfferedExactlyOnce<H(==)>(w: World<H>, w': World<H>, e: Event<H>, log: seq<Sent<H>>) {
    var n := |w.db.messages|;
    |w'.db.messages| > n ==>
      && |w'.db.messages| == n + 1 && e.Frame?
      && OfferedTo(log, n) == (if e.env.upNext then SessionsOf(w, w'.db.messages[n].receiver) else [])
      && NoDup(OfferedTo(log, n))
  }

  lemma {:induction false} OfferedOnceFrom<H>(w: World<H>, events: seq<Event<H>>, k: nat)
    requires Tidy(w, false) && Legal(w, events) && k < |events|
    ensures OfferedExactlyOnce(At(w, events, k), At(w, events, k + 1), events[k], Reach(w, events).log)
    decreases k
  {
    var w' := After(w, events[0]);
    StepKeepsTidy(w, events[0], false);
    if k > 0 {
      OfferedOnceFrom(w', events[1..], k - 1);
    } else {
      var n := |w.db.messages|;
      StepOffers(w, events[0], n);
      NotOfferedYet(w, n);
      if |w'.db.messages| > n {
        NeverOfferedLater(w', events[1..], n);
        NoDupSessions(w, w'.db.messages[n].receiver);
      }
      assert At(w', events[1..], 0) == w';
    }
  }

  lemma NoDupSessions<H>(w: World<H>, user: int)
    requires Inv(w)
    ensures NoDup(SessionsOf(w, user))
  {
  }

  /** In every command-level run, at every step that stores a message, the message is offered exactly once. */
  lemma EveryMessageIsOfferedOnce<H>(init: World<H>, events: seq<Event<H>>, k: nat)
    requires Init(init) && Legal(init, events) && k < |events|
    ensures OfferedExactlyOnce(At(init, events, k), At(init, events, k + 1), events[k], Reach(init, events).log)
  {
    OfferedOnceFrom(init, events, k);
  }
}
