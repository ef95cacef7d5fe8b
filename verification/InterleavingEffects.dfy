/**
 What the steps of the interleaved server do to the tables: which transaction each
 program point commits, for whom, and what that means for accounts, messages and
 the audit trail at every moment of every run.
 */
module InterleavingEffects {
  import opened Lines
  import opened Tables
  import opened TransactionLaws
  import opened Interleaving
  import opened InterleavingSafety

  // ----- one step

  /** What a moderation action means, with the result its transaction gives. */
  predicate ModerationMeans(t: Tables, t': Tables, r: DbResult, action: Moderation, actor: int, login: string,
                            now: Timestamp, up: bool)
    requires Valid(t)
  {
    match action
    case ToBan => BanMeans(t, t', r, actor, login, up)
    case ToUnban => UnbanMeans(t, t', r, actor, login, up)
    case ToKick => KickMeans(t, t', r, actor, login, now, up)
  }

  /** A commit step means its transaction, in the name of the handler's user; the others leave the tables alone. */
  ghost predicate StepMeans(s: State, step: Step, t': Tables)
    requires Valid(s.db)
  {
    match step
    case RegisterCommit(_, login, password, hash, _, up) =>
      exists r :: RegisterMeans(s.db, t', r, login, password, hash, up)
    case LoginCommit(_, login, ok, now, up) => exists r :: LoginMeans(s.db, t', r, login, ok, now, up)
    case LogoutCommit(h, now, up) => h in s.handlers && LogoutMeans(s.db, t', s.handlers[h].userId, now, up)
    case StoreCommit(h, to, text, now, up) =>
      h in s.handlers && exists r :: SendMeans(s.db, t', r, s.handlers[h].userId, to, text, now, up)
    case ModerateCommit(h, now, up) =>
      && h in s.handlers && s.handlers[h].pc.Allowed?
      && var me := s.handlers[h];
         exists r :: ModerationMeans(s.db, t', r, me.pc.action, me.userId, me.pc.login, now, up)
    case _ => t' == s.db
  }

  lemma StepHasItsMeaning(s: State, step: Step, maxClients: int)
    requires Valid(s.db) && Enabled(s, step, maxClients)
    ensures StepMeans(s, step, After(s, step, maxClients).db)
  {
    match step
    case RegisterCommit(_, _, _, _, _, _) => AccountStepHasItsMeaning(s, step, maxClients);
    case LoginCommit(_, _, _, _, _) => AccountStepHasItsMeaning(s, step, maxClients);
    case LogoutCommit(h, now, up) => LogoutLaw(s.db, s.handlers[h].userId, now, up);
    case StoreCommit(h, to, text, now, up) => SendLaw(s.db, s.handlers[h].userId, to, text, now, up);
    case ModerateCommit(h, now, up) => var r := ModerationHasItsMeaning(s, h, now, up, maxClients);
    case _ => assert After(s, step, maxClients).db == s.db;
  }

  lemma AccountStepHasItsMeaning(s: State, step: Step, maxClients: int)
    requires Valid(s.db) && Enabled(s, step, maxClients) && (step.RegisterCommit? || step.LoginCommit?)
    ensures StepMeans(s, step, After(s, step, maxClients).db)
  {
    if step.RegisterCommit? {
      RegisterLaw(s.db, step.login, step.password, step.hash, step.up);
    } else {
      LoginLaw(s.db, step.login, step.passwordOk, step.now, step.up);
    }
  }

  /** A handler that passed the check commits that action, and a ban or a kick goes on to the sessions. */
  lemma ModerationHasItsMeaning(s: State, h: HandlerId, now: Timestamp, up: bool, maxClients: int)
    returns (r: DbResult)
    requires Valid(s.db) && Enabled(s, ModerateCommit(h, now, up), maxClients)
    ensures var me, s' := s.handlers[h], After(s, ModerateCommit(h, now, up), maxClients);
            && ModerationMeans(s.db, s'.db, r, me.pc.action, me.userId, me.pc.login, now, up)
            && h in s'.handlers
            && s'.handlers[h] ==
                 me.(pc := if r.status == Ok && !me.pc.action.ToUnban? then Snapshotting(r.id) else Idle)
  {
    var me := s.handlers[h];
    match me.pc.action
    case ToBan =>
      r := BanUser(s.db, me.userId, me.pc.login, up).1;
      BanLaw(s.db, me.userId, me.pc.login, up);
    case ToUnban =>
      r := UnbanUser(s.db, me.userId, me.pc.login, up).1;
      UnbanLaw(s.db, me.userId, me.pc.login, up);
    case ToKick =>
      r := KickUser(s.db, me.userId, me.pc.login, now, up).1;
      KickLaw(s.db, me.userId, me.pc.login, now, up);
  }

  // ----- who is banned, step by step

  /** The step is about to commit an action that can succeed. */
  predicate Acts(s: State, step: Step, action: Moderation) {
    && step.ModerateCommit? && step.h in s.handlers && s.handlers[step.h].pc.Allowed?
    && s.handlers[step.h].pc.action == action && step.up && s.handlers[step.h].pc.login in s.db.ids
  }

  /** The banned logins after a step, told from the program point alone. */
  function BannedNext(s: State, step: Step): set<string>
    requires Valid(s.db)
  {
    if Acts(s, step, ToBan) then BannedLogins(s.db) + {s.handlers[step.h].pc.login}
    else if Acts(s, step, ToUnban) then BannedLogins(s.db) - {s.handlers[step.h].pc.login}
    else BannedLogins(s.db)
  }

  lemma BannedAfter(s: State, step: Step, maxClients: int)
    requires Inv(s) && Enabled(s, step, maxClients)
    ensures Valid(After(s, step, maxClients).db)
    ensures BannedLogins(After(s, step, maxClients).db) == BannedNext(s, step)
  {
    StepFollows(s, step, maxClients);
    if step.ModerateCommit? {
      ModerationBans(s, step, maxClients);
    } else {
      StepHasItsMeaning(s, step, maxClients);
      OthersBanNobody(s, step, After(s, step, maxClients).db);
    }
  }

  lemma ModerationBans(s: State, step: Step, maxClients: int)
    requires Inv(s) && Enabled(s, step, maxClients) && step.ModerateCommit?
    requires Valid(After(s, step, maxClients).db)
    ensures BannedLogins(After(s, step, maxClients).db) == BannedNext(s, step)
  {
    assert RolesFit(s.db, s.handlers[step.h]) && PcFits(s.handlers[step.h]);
    var me := s.handlers[step.h];
    var r := ModerationHasItsMeaning(s, step.h, step.now, step.up, maxClients);
    MeaningForBanned(s.db, After(s, step, maxClients).db, r, me.pc.action, me.userId, me.pc.login, step.now, step.up);
  }

  lemma MeaningForBanned(t: Tables, t': Tables, r: DbResult, action: Moderation, actor: int, login: string,
                         now: Timestamp, up: bool)
    requires Valid(t) && ActorExists(t, actor) && ModerationMeans(t, t', r, action, actor, login, now, up)
    ensures BannedLogins(t') == if !up || login !in t.ids || action == ToKick then BannedLogins(t)
                                else if action == ToBan then BannedLogins(t) + {login}
                                else BannedLogins(t) - {login}
  {
  }

  lemma OthersBanNobody(s: State, step: Step, t': Tables)
    requires Valid(s.db) && !step.ModerateCommit? && StepMeans(s, step, t') && Follows(s.db, t')
    ensures BannedLogins(t') == BannedLogins(s.db)
  {
    match step
    case RegisterCommit(_, _, _, _, _, _) => QuietRows(s.db, t');
    case LoginCommit(_, _, _, _, _) => QuietRows(s.db, t');
    case StoreCommit(_, _, _, _, _) => QuietRows(s.db, t');
    case _ =>
  }

  /** Without a row of moderation nobody is banned or freed. */
  lemma QuietRows(t: Tables, t': Tables)
    requires Valid(t) && Follows(t, t') && |t'.audit| <= |t.audit| + 1
    requires |t'.audit| > |t.audit| ==> !IsModeration(t'.audit[|t.audit|].action)
    ensures BannedLogins(t') == BannedLogins(t)
  {
    var rows := t'.audit[|t.audit|..];
    assert Replay(BannedLogins(t), []) == BannedLogins(t);
    if rows != [] {
      assert rows == [rows[0]] && rows[..0] == [] && !IsModeration(rows[0].action);
    }
  }

  // ----- which messages are stored, step by step

  /** The step stores a message. */
  predicate Stores(s: State, step: Step)
    requires Valid(s.db)
  {
    && step.StoreCommit? && step.h in s.handlers && s.handlers[step.h].userId in s.db.users
    && step.up && StorableText(step.text) && s.db.nextMessage <= MAX_INT
    && step.to in s.db.ids && step.to !in BannedLogins(s.db)
  }

  /** A stored message is added exactly by such a step, as the step has it. */
  ghost predicate MessagesGrow(s: State, step: Step, t': Tables)
    requires Valid(s.db)
  {
    if Stores(s, step) then
      && |t'.messages| == |s.db.messages| + 1 && s.db.messages <= t'.messages
      && var m := t'.messages[|s.db.messages|];
         && m.sender == s.handlers[step.h].userId && m.receiver == s.db.ids[step.to]
         && m.text == step.text && m.createdAt == step.now
    else t'.messages == s.db.messages
  }

  lemma MessagesAfter(s: State, step: Step, maxClients: int)
    requires Valid(s.db) && Enabled(s, step, maxClients)
    ensures MessagesGrow(s, step, After(s, step, maxClients).db)
  {
    StepHasItsMeaning(s, step, maxClients);
  }

  // ----- the way out

  /** The handler has left its loop, or was thrown out of it. */
  predicate Leaves(me: Handler) {
    me.pc.Finished? || Exiting(me.pc)
  }

  lemma UnwindingLeaves(s: State, step: Step, maxClients: int)
    requires Valid(s.db) && Enabled(s, step, maxClients) && (step.Leave? || step.Crash? || step.CrashInAdd?)
    ensures step.h in After(s, step, maxClients).handlers && Leaves(After(s, step, maxClients).handlers[step.h])
  {
  }

  /**
   Leaving is final: all that such a handler still does is to remove its session, to log
   its user out and to be retired, and when it is retired it stands in no list.
   */
  lemma LeavingIsFinal(s: State, step: Step, maxClients: int, h: HandlerId)
    requires Inv(s) && Enabled(s, step, maxClients) && h in s.handlers && Leaves(s.handlers[h])
    ensures var s' := After(s, step, maxClients);
            && (Moves(step, h) ==> step.Remove? || step.LogoutCommit? || step.Retire?)
            && (h in s'.handlers ==> Leaves(s'.handlers[h]))
            && (h !in s'.handlers ==> step == Retire(h) && forall u | u in s'.sessions :: h !in s'.sessions[u])
  {
    OwnStepLeaves(s, step, maxClients, h);
    HandlersStay(s, step, maxClients, h);
    if step == Retire(h) {
      RetiredIsUnlisted(s, h, maxClients);
    } else {
      HandlersAfter(s, step, maxClients, h);
    }
  }

  lemma OwnStepLeaves(s: State, step: Step, maxClients: int, h: HandlerId)
    requires Valid(s.db) && Enabled(s, step, maxClients) && h in s.handlers && Leaves(s.handlers[h])
    ensures Moves(step, h) ==>
              (step.Remove? || step.LogoutCommit? || step.Retire?)
              && (!step.Retire? ==> Leaves(NextSelf(s, step, maxClients)))
  {
  }

  lemma RetiredIsUnlisted(s: State, h: HandlerId, maxClients: int)
    requires Inv(s) && Enabled(s, Retire(h), maxClients)
    ensures var s' := After(s, Retire(h), maxClients);
            h !in s'.handlers && forall u | u in s'.sessions :: h !in s'.sessions[u]
  {
    assert PcFits(s.handlers[h]);
  }

  // ----- every run

  /** How many messages a run stores. */
  ghost function StoredIn(s: State, steps: seq<Step>, maxClients: int): nat
    requires Valid(s.db) && Legal(s, steps, maxClients)
    decreases |steps|
  {
    if steps == [] then 0
    else
      StepFollows(s, steps[0], maxClients);
      (if Stores(s, steps[0]) then 1 else 0) + StoredIn(After(s, steps[0], maxClients), steps[1..], maxClients)
  }

  lemma {:induction false} NoMessageComesFromNowhere(s: State, steps: seq<Step>, maxClients: int)
    requires Valid(s.db) && Legal(s, steps, maxClients)
    ensures |Reach(s, steps, maxClients).db.messages| == |s.db.messages| + StoredIn(s, steps, maxClients)
    decreases |steps|
  {
    if steps != [] {
      StepFollows(s, steps[0], maxClients);
      MessagesAfter(s, steps[0], maxClients);
      NoMessageComesFromNowhere(After(s, steps[0], maxClients), steps[1..], maxClients);
    }
  }

  /** At every moment of every run the next step does to the tables what its program point says, and no more. */
  lemma EveryStepMeansItsTransaction(init: State, steps: seq<Step>, k: nat, maxClients: int)
    requires Init(init) && Legal(init, steps, maxClients) && k < |steps|
    ensures var s, s' := At(init, steps, k, maxClients), At(init, steps, k + 1, maxClients);
            && Valid(s.db) && Valid(s'.db)
            && StepMeans(s, steps[k], s'.db)
            && BannedLogins(s'.db) == BannedNext(s, steps[k])
            && MessagesGrow(s, steps[k], s'.db)
  {
    AtStep(init, steps, k, maxClients);
    var s := At(init, steps, k, maxClients);
    StepHasItsMeaning(s, steps[k], maxClients);
    BannedAfter(s, steps[k], maxClients);
    MessagesAfter(s, steps[k], maxClients);
  }
}
