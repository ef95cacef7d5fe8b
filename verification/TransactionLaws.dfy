/**
 What each transaction means for the rows of the tables: when it succeeds, which
 account and which audit row it changes then, that everything else stays, and
 which reason it gives otherwise.
 */
module TransactionLaws {
  import opened Options
  import opened Lines
  import opened Auth
  import opened Tables

  // ----- what a transaction is judged by

  /** The account of a login. */
  predicate KnownAs(t: Tables, id: int, login: string) {
    id in t.users && t.users[id].login == login
  }

  /** Every account but one is as it was, and no message changed. */
  predicate Untouched(t: Tables, t': Tables, id: int) {
    && t'.messages == t.messages
    && (forall other | other in t.users && other != id :: other in t'.users && t'.users[other] == t.users[other])
  }

  /** Exactly one audit row was written. */
  predicate OneRow(t: Tables, t': Tables, actor: int, action: Action, target: string) {
    && |t'.audit| == |t.audit| + 1 && t.audit <= t'.audit
    && var row := t'.audit[|t.audit|];
       && row.action == action && row.target == target
       && (row.actor.Some? <==> actor > 0) && (row.actor.Some? ==> row.actor.value == actor)
  }

  /** The status that goes with a reason. */
  function StatusOf(r: Reason): DbStatus {
    match r
    case BadLogin => ValidationError
    case ShortPassword => ValidationError
    case WeakPassword => ValidationError
    case BadText => ValidationError
    case DatabaseError => Error
    case LoginExists => Duplicate
    case BadCredentials => Unauthorized
    case UserIsBanned => BannedStatus
    case ReceiverIsBanned => BannedStatus
    case NoReceiver => NotFound
    case NoUser => NotFound
    case NoBannedUser => NotFound
    case NoActiveUser => NotFound
    case _ => Ok
  }

  // ----- registration

  predicate RegisterMeans(t: Tables, t': Tables, r: DbResult, login: string, password: string, hash: string, up: bool)
    requires Valid(t)
  {
    && Follows(t, t') && r.status == StatusOf(r.reason)
    && (r.status == Ok <==> IsValidLogin(login) && IsValidPassword(password) && up && login !in t.ids)
    && (r.status == Ok ==>
          && r.id !in t.users && t'.users.Keys == t.users.Keys + {r.id} && Untouched(t, t', r.id)
          && t'.users[r.id] == User(login, hash, OrdinaryUser, Offline, None)
          && OneRow(t, t', r.id, Registered, login))
    && (r.status != Ok ==>
          && t' == t.(nextUser := t'.nextUser)
          && (r.reason == BadLogin <==> !IsValidLogin(login))
          && (r.reason == LoginExists <==> IsValidLogin(login) && IsValidPassword(password) && up)
          && (r.reason == ShortPassword <==> IsValidLogin(login) && |password| < 10)
          && (r.reason == WeakPassword <==> IsValidLogin(login) && |password| >= 10 && !IsValidPassword(password)))
  }

  lemma RegisterLaw(t: Tables, login: string, password: string, hash: string, up: bool)
    requires Valid(t)
    ensures var (t', r) := RegisterUser(t, login, password, hash, up);
            RegisterMeans(t, t', r, login, password, hash, up)
  {
    RegisterFollows(t, login, password, hash, up);
  }

  // ----- sessions

  predicate LoginMeans(t: Tables, t': Tables, r: LoginResult, login: string, passwordOk: bool, now: Timestamp, up: bool)
    requires Valid(t)
  {
    && Follows(t, t') && r.status == StatusOf(r.reason)
    && (r.status == Ok <==> up && passwordOk && login in t.ids && login !in BannedLogins(t))
    && (r.status == Ok ==>
          && KnownAs(t, r.id, login) && Untouched(t, t', r.id)
          && t'.users.Keys == t.users.Keys
          && t'.users[r.id] == t.users[r.id].(status := Online, lastSeen := Some(now))
          && r.role == t.users[r.id].role && r.login == login
          && OneRow(t, t', r.id, LoggedIn, login))
    && (r.status != Ok ==>
          && t' == t
          && (r.reason == DatabaseError <==> !up)
          && (r.reason == UserIsBanned <==> up && login in BannedLogins(t))
          && (r.reason == BadCredentials <==> up && login !in BannedLogins(t)))
  }

  lemma LoginLaw(t: Tables, login: string, passwordOk: bool, now: Timestamp, up: bool)
    requires Valid(t)
    ensures var (t', r) := LoginUser(t, login, passwordOk, now, up);
            LoginMeans(t, t', r, login, passwordOk, now, up)
  {
    LoginFollows(t, login, passwordOk, now, up);
  }

  predicate LogoutMeans(t: Tables, t': Tables, id: int, now: Timestamp, up: bool)
    requires Valid(t)
  {
    && Follows(t, t') && Untouched(t, t', id) && t'.audit == t.audit && BannedLogins(t') == BannedLogins(t)
    && t'.users.Keys == t.users.Keys
    && (id in t.users ==>
          t'.users[id] == if up && !IsBanned(t, id) then t.users[id].(status := Offline, lastSeen := Some(now))
                          else t.users[id])
  }

  lemma LogoutLaw(t: Tables, id: int, now: Timestamp, up: bool)
    requires Valid(t)
    ensures LogoutMeans(t, LogoutUser(t, id, now, up), id, now, up)
  {
    LogoutFollows(t, id, now, up);
  }

  // ----- messages

  predicate SendMeans(t: Tables, t': Tables, r: DbResult, sender: int, receiver: string, text: string, now: Timestamp,
                      up: bool)
    requires Valid(t)
  {
    && Follows(t, t') && r.status == StatusOf(r.reason)
    && (r.status == Ok <==>
          && up && StorableText(text) && sender in t.users && t.nextMessage <= MAX_INT
          && receiver in t.ids && receiver !in BannedLogins(t))
    && t'.users == t.users && t'.audit == t.audit
    && (r.status == Ok ==>
          && |t'.messages| == |t.messages| + 1 && t.messages <= t'.messages
          && var m := t'.messages[|t.messages|];
             && m.id == r.id && m.sender == sender && KnownAs(t, m.receiver, receiver)
             && m.text == text && m.createdAt == now)
    && (r.status != Ok ==>
          && t' == t.(nextMessage := t'.nextMessage)
          && (r.reason == BadText <==> |text| == 0 || |text| > 4096)
          && (r.reason == NoReceiver <==> 1 <= |text| <= 4096 && up && receiver !in t.ids)
          && (r.reason == ReceiverIsBanned <==> 1 <= |text| <= 4096 && up && receiver in BannedLogins(t)))
  }

  lemma SendLaw(t: Tables, sender: int, receiver: string, text: string, now: Timestamp, up: bool)
    requires Valid(t)
    ensures var (t', r) := SendMessage(t, sender, receiver, text, now, up);
            SendMeans(t, t', r, sender, receiver, text, now, up)
  {
    SendFollows(t, sender, receiver, text, now, up);
  }

  // ----- moderation

  predicate BanMeans(t: Tables, t': Tables, r: DbResult, actor: int, login: string, up: bool)
    requires Valid(t)
  {
    && Follows(t, t') && r.status == StatusOf(r.reason)
    && (r.status == Ok <==> up && login in t.ids && ActorExists(t, actor))
    && (r.status == Ok ==>
          && KnownAs(t, r.id, login) && Untouched(t, t', r.id)
          && t'.users.Keys == t.users.Keys && t'.users[r.id] == t.users[r.id].(status := Banned)
          && BannedLogins(t') == BannedLogins(t) + {login}
          && OneRow(t, t', actor, BannedUser, login))
    && (r.status != Ok ==> t' == t && (r.reason == NoUser <==> up && login !in t.ids))
  }

  lemma BanLaw(t: Tables, actor: int, login: string, up: bool)
    requires Valid(t)
    ensures var (t', r) := BanUser(t, actor, login, up);
            BanMeans(t, t', r, actor, login, up)
  {
    BanFollows(t, actor, login, up);
    if login in t.ids {
      StatusChange(t, t.ids[login], Banned);
    }
  }

  predicate UnbanMeans(t: Tables, t': Tables, r: DbResult, actor: int, login: string, up: bool)
    requires Valid(t)
  {
    && Follows(t, t') && r.status == StatusOf(r.reason)
    && (r.status == Ok <==> up && login in BannedLogins(t) && ActorExists(t, actor))
    && (r.status == Ok ==>
          && KnownAs(t, r.id, login) && Untouched(t, t', r.id)
          && t'.users.Keys == t.users.Keys && t'.users[r.id] == t.users[r.id].(status := Offline)
          && BannedLogins(t') == BannedLogins(t) - {login}
          && OneRow(t, t', actor, UnbannedUser, login))
    && (r.status != Ok ==> t' == t && (r.reason == NoBannedUser <==> up && login !in BannedLogins(t)))
  }

  lemma UnbanLaw(t: Tables, actor: int, login: string, up: bool)
    requires Valid(t)
    ensures var (t', r) := UnbanUser(t, actor, login, up);
            UnbanMeans(t, t', r, actor, login, up)
  {
    UnbanFollows(t, actor, login, up);
    if login in t.ids {
      StatusChange(t, t.ids[login], Offline);
    }
  }

  predicate KickMeans(t: Tables, t': Tables, r: DbResult, actor: int, login: string, now: Timestamp, up: bool)
    requires Valid(t)
  {
    && Follows(t, t') && r.status == StatusOf(r.reason)
    && (r.status == Ok <==> up && login in t.ids && login !in BannedLogins(t) && ActorExists(t, actor))
    && (r.status == Ok ==>
          && KnownAs(t, r.id, login) && Untouched(t, t', r.id)
          && t'.users.Keys == t.users.Keys
          && t'.users[r.id] == t.users[r.id].(status := Offline, lastSeen := Some(now))
          && BannedLogins(t') == BannedLogins(t)
          && OneRow(t, t', actor, KickedUser, login))
    && (r.status != Ok ==>
          t' == t && (r.reason == NoActiveUser <==> up && (login !in t.ids || login in BannedLogins(t))))
  }

  lemma KickLaw(t: Tables, actor: int, login: string, now: Timestamp, up: bool)
    requires Valid(t)
    ensures var (t', r) := KickUser(t, actor, login, now, up);
            KickMeans(t, t', r, actor, login, now, up)
  {
    KickFollows(t, actor, login, now, up);
    if login in t.ids {
      var id := t.ids[login];
      StatusChange(t, id, Offline);
      SeenChange(WithStatus(t, id, Offline), id, now);
    }
  }
}
