/**
 The database as the server sees it: three tables, and one atomic transaction
 for each `Database` method. SQL is replaced by what it does to the tables; the
 password check and the clock are inputs. A transaction that throws (`up` is
 false) changes nothing and reports a database error.
 */
module Tables {
  import opened Options
  import opened Lines
  import opened Auth

  datatype Role = OrdinaryUser | Moderator | Admin
  datatype Status = Online | Offline | Banned

  /** What `to_char` makes of a time: twenty characters without white space. */
  type Timestamp = s: string | |s| == 20 && SpaceFree(s) witness seq(20, _ => '0')

  datatype User = User(login: string, passwordHash: string, role: Role, status: Status, lastSeen: Option<Timestamp>)
  datatype StoredMessage = StoredMessage(id: int, sender: int, receiver: int, text: string, createdAt: Timestamp)
  datatype Action = Registered | LoggedIn | BannedUser | UnbannedUser | KickedUser
  datatype AuditEntry = AuditEntry(actor: Option<int>, action: Action, target: string)

  /** `ids` is the unique index on logins; the two counters are the id sequences. */
  datatype Tables = Tables(
    users: map<int, User>,
    ids: map<string, int>,
    nextUser: int,
    messages: seq<StoredMessage>,
    nextMessage: int,
    audit: seq<AuditEntry>)

  datatype DbStatus = Ok | ValidationError | Unauthorized | NotFound | Duplicate | BannedStatus | Error

  /** The fixed texts that go with a status. */
  datatype Reason =
    | BadLogin
    | ShortPassword
    | WeakPassword
    | DatabaseError
    | LoginExists
    | RegisteredNow
    | BadCredentials
    | UserIsBanned
    | LoginDone
    | BadText
    | NoReceiver
    | ReceiverIsBanned
    | MessageStored
    | NoUser
    | BanDone
    | NoBannedUser
    | UnbanDone
    | NoActiveUser
    | KickDone

  function ReasonText(r: Reason): string {
    match r
    case BadLogin => "login must be 3-50 chars: letters, digits, '.', '_' or '-'"
    case ShortPassword => "password must be at least 10 characters"
    case WeakPassword => "password must contain letters and digits"
    case DatabaseError => "database error"
    case LoginExists => "login already exists"
    case RegisteredNow => "registered"
    case BadCredentials => "invalid login or password"
    case UserIsBanned => "user is banned"
    case LoginDone => "login ok"
    case BadText => "message must be 1-4096 characters"
    case NoReceiver => "receiver not found"
    case ReceiverIsBanned => "receiver is banned"
    case MessageStored => "message stored"
    case NoUser => "user not found"
    case BanDone => "user banned"
    case NoBannedUser => "banned user not found"
    case UnbanDone => "user unbanned"
    case NoActiveUser => "active non-banned user not found"
    case KickDone => "user kicked"
  }

  datatype DbResult = DbResult(status: DbStatus, reason: Reason, id: int)
  datatype LoginResult = LoginResult(status: DbStatus, reason: Reason, id: int, login: string, role: Role)

  const FAILED: DbResult := DbResult(Error, DatabaseError, -1)

  predicate IndexAgrees(t: Tables) {
    && (forall l | l in t.ids :: t.ids[l] in t.users && t.users[t.ids[l]].login == l)
    && (forall id | id in t.users :: t.users[id].login in t.ids && t.ids[t.users[id].login] == id)
  }

  /** The check constraints on message texts. */
  predicate StorableText(text: string) {
    1 <= |text| <= 4096 && exists c | c in text :: c != ' '
  }

  /** The constraints the schema enforces: keys, references, checks. */
  predicate Valid(t: Tables) {
    && IndexAgrees(t)
    && (forall id | id in t.users :: 0 < id < t.nextUser)
    && 0 < t.nextUser && 0 < t.nextMessage
    && (forall i | 0 <= i < |t.messages| ::
          t.messages[i].sender in t.users && t.messages[i].receiver in t.users && StorableText(t.messages[i].text))
  }

  function WithStatus(t: Tables, id: int, status: Status): Tables
    requires id in t.users
  {
    t.(users := t.users[id := t.users[id].(status := status)])
  }

  function Seen(t: Tables, id: int, now: Timestamp): Tables
    requires id in t.users
  {
    t.(users := t.users[id := t.users[id].(lastSeen := Some(now))])
  }

  /** A new account: an ordinary user, offline, under the next id. */
  function WithUser(t: Tables, login: string, hash: string): Tables {
    t.(users := t.users[t.nextUser := User(login, hash, OrdinaryUser, Offline, None)],
       ids := t.ids[login := t.nextUser],
       nextUser := t.nextUser + 1)
  }

  /** An audit row; an actor that is no id is stored as NULL. */
  function Audited(t: Tables, actor: int, action: Action, target: string): Tables {
    t.(audit := t.audit + [AuditEntry(if actor <= 0 then None else Some(actor), action, target)])
  }

  /** The reference from an audit row to its actor. */
  predicate ActorExists(t: Tables, actor: int) {
    actor <= 0 || actor in t.users
  }

  // ----- the transactions

  function RegisterUser(t: Tables, login: string, password: string, hash: string, up: bool): (Tables, DbResult) {
    if !IsValidLogin(login) then
      (t, DbResult(ValidationError, BadLogin, -1))
    else if |password| < 10 then (t, DbResult(ValidationError, ShortPassword, -1))
    else if !IsValidPassword(password) then
      (t, DbResult(ValidationError, WeakPassword, -1))
    else if !up then (t, FAILED)
    else if login in t.ids then // a failed insert still uses up an id
      (t.(nextUser := t.nextUser + 1), DbResult(Duplicate, LoginExists, -1))
    else
      (Audited(WithUser(t, login, hash), t.nextUser, Registered, login), DbResult(Ok, RegisteredNow, t.nextUser))
  }

  function LoginUser(t: Tables, login: string, passwordOk: bool, now: Timestamp, up: bool): (Tables, LoginResult)
    requires Valid(t)
  {
    if !up then (t, LoginResult(Error, DatabaseError, -1, "", OrdinaryUser))
    else if login !in t.ids then (t, LoginResult(Unauthorized, BadCredentials, -1, "", OrdinaryUser))
    else
      var id := t.ids[login];
      var role := t.users[id].role;
      if t.users[id].status == Banned then (t, LoginResult(BannedStatus, UserIsBanned, id, login, role))
      else if !passwordOk then (t, LoginResult(Unauthorized, BadCredentials, -1, "", OrdinaryUser))
      else
        (Audited(Seen(WithStatus(t, id, Online), id, now), id, LoggedIn, login),
         LoginResult(Ok, LoginDone, id, login, role))
  }

  function LogoutUser(t: Tables, id: int, now: Timestamp, up: bool): Tables {
    if up && id in t.users && t.users[id].status != Banned then Seen(WithStatus(t, id, Offline), id, now) else t
  }

  /** The sender's status is not looked at. */
  function SendMessage(t: Tables, sender: int, receiver: string, text: string, now: Timestamp, up: bool)
    : (Tables, DbResult)
    requires Valid(t)
  {
    if |text| == 0 || |text| > 4096 then (t, DbResult(ValidationError, BadText, -1))
    else if !up then (t, FAILED)
    else if receiver !in t.ids then (t, DbResult(NotFound, NoReceiver, -1))
    else if t.users[t.ids[receiver]].status == Banned then (t, DbResult(BannedStatus, ReceiverIsBanned, -1))
    else if sender !in t.users || !StorableText(text) || t.nextMessage > MAX_INT then
      (t.(nextMessage := t.nextMessage + 1), FAILED)
    else
      (t.(messages := t.messages + [StoredMessage(t.nextMessage, sender, t.ids[receiver], text, now)],
          nextMessage := t.nextMessage + 1),
       DbResult(Ok, MessageStored, t.nextMessage))
  }

  function UserIdByLogin(t: Tables, login: string, up: bool): Option<int> {
    if up && login in t.ids then Some(t.ids[login]) else None
  }

  function HasModeratorRights(t: Tables, id: int, up: bool): bool {
    up && id in t.users && (t.users[id].role == Admin || t.users[id].role == Moderator)
  }

  function BanUser(t: Tables, actor: int, login: string, up: bool): (Tables, DbResult)
    requires Valid(t)
  {
    if !up then (t, FAILED)
    else if login !in t.ids then (t, DbResult(NotFound, NoUser, -1))
    else if !ActorExists(t, actor) then (t, FAILED)
    else
      (Audited(WithStatus(t, t.ids[login], Banned), actor, BannedUser, login),
       DbResult(Ok, BanDone, t.ids[login]))
  }

  function UnbanUser(t: Tables, actor: int, login: string, up: bool): (Tables, DbResult)
    requires Valid(t)
  {
    if !up then (t, FAILED)
    else if login !in t.ids || t.users[t.ids[login]].status != Banned then
      (t, DbResult(NotFound, NoBannedUser, -1))
    else if !ActorExists(t, actor) then (t, FAILED)
    else
      (Audited(WithStatus(t, t.ids[login], Offline), actor, UnbannedUser, login),
       DbResult(Ok, UnbanDone, t.ids[login]))
  }

  function KickUser(t: Tables, actor: int, login: string, now: Timestamp, up: bool): (Tables, DbResult)
    requires Valid(t)
  {
    if !up then (t, FAILED)
    else if login !in t.ids || t.users[t.ids[login]].status == Banned then
      (t, DbResult(NotFound, NoActiveUser, -1))
    else if !ActorExists(t, actor) then (t, FAILED)
    else
      (Audited(Seen(WithStatus(t, t.ids[login], Offline), t.ids[login], now), actor, KickedUser, login),
       DbResult(Ok, KickDone, t.ids[login]))
  }

  // ----- every transaction as one thing

  datatype Call =
    | CallRegister(login: string, password: string, hash: string)
    | CallLogin(login: string, passwordOk: bool)
    | CallLogout(id: int)
    | CallSend(id: int, login: string, text: string)
    | CallBan(id: int, login: string)
    | CallUnban(id: int, login: string)
    | CallKick(id: int, login: string)

  function Commit(t: Tables, call: Call, now: Timestamp, up: bool): Tables
    requires Valid(t)
  {
    match call
    case CallRegister(login, password, hash) => RegisterUser(t, login, password, hash, up).0
    case CallLogin(login, passwordOk) => LoginUser(t, login, passwordOk, now, up).0
    case CallLogout(id) => LogoutUser(t, id, now, up)
    case CallSend(id, login, text) => SendMessage(t, id, login, text, now, up).0
    case CallBan(id, login) => BanUser(t, id, login, up).0
    case CallUnban(id, login) => UnbanUser(t, id, login, up).0
    case CallKick(id, login) => KickUser(t, id, login, now, up).0
  }

  // ----- what every transaction keeps

  predicate IsBanned(t: Tables, id: int) {
    id in t.users && t.users[id].status == Banned
  }

  function BannedLogins(t: Tables): set<string>
    requires IndexAgrees(t)
  {
    set l | l in t.ids && t.users[t.ids[l]].status == Banned
  }

  /** What the audit trail says about who is banned. */
  function Replay(banned: set<string>, audit: seq<AuditEntry>): set<string> {
    if audit == [] then banned
    else
      var before, last := Replay(banned, audit[..|audit| - 1]), audit[|audit| - 1];
      match last.action
      case BannedUser => before + {last.target}
      case UnbannedUser => before - {last.target}
      case _ => before
  }

  /** Rows are never removed; logins, roles, messages and audit rows never change. */
  predicate Grows(t: Tables, t': Tables) {
    && (forall id | id in t.users ::
          id in t'.users && t'.users[id].login == t.users[id].login && t'.users[id].role == t.users[id].role)
    && t.messages <= t'.messages
    && t.audit <= t'.audit
  }

  /** The same without the roles, which the operator may change. */
  predicate Keeps(t: Tables, t': Tables) {
    && (forall id | id in t.users :: id in t'.users && t'.users[id].login == t.users[id].login)
    && t.messages <= t'.messages
    && t.audit <= t'.audit
  }

  /** A transaction keeps the tables valid and changes who is banned exactly as the rows it audits say. */
  predicate Follows(t: Tables, t': Tables)
    requires Valid(t)
  {
    && Valid(t') && Grows(t, t')
    && BannedLogins(t') == Replay(BannedLogins(t), t'.audit[|t.audit|..])
  }

  /** What the server's transactions and the operator together keep. */
  predicate Evolves(t: Tables, t': Tables)
    requires Valid(t)
  {
    && Valid(t') && Keeps(t, t')
    && BannedLogins(t') == Replay(BannedLogins(t), t'.audit[|t.audit|..])
  }

  function ReplayOne(banned: set<string>, action: Action, target: string): set<string> {
    match action
    case BannedUser => banned + {target}
    case UnbannedUser => banned - {target}
    case _ => banned
  }

  lemma StatusChange(t: Tables, id: int, status: Status)
    requires Valid(t) && id in t.users
    ensures var t' := WithStatus(t, id, status);
            && Valid(t') && Grows(t, t')
            && BannedLogins(t') == if status == Banned then BannedLogins(t) + {t.users[id].login}
                                   else BannedLogins(t) - {t.users[id].login}
  {
    assert forall i | i in t.users && i != id :: WithStatus(t, id, status).users[i] == t.users[i];
  }

  lemma SeenChange(t: Tables, id: int, now: Timestamp)
    requires Valid(t) && id in t.users
    ensures Valid(Seen(t, id, now)) && Grows(t, Seen(t, id, now)) && BannedLogins(Seen(t, id, now)) == BannedLogins(t)
  {
  }

  lemma QuietFollows(t: Tables, t': Tables)
    requires Valid(t) && Valid(t') && Grows(t, t') && t'.audit == t.audit && BannedLogins(t') == BannedLogins(t)
    ensures Follows(t, t')
  {
    assert t'.audit[|t.audit|..] == [];
  }

  lemma AuditedFollows(t: Tables, u: Tables, actor: int, action: Action, target: string)
    requires Valid(t) && Valid(u) && Grows(t, u) && u.audit == t.audit
    requires BannedLogins(u) == ReplayOne(BannedLogins(t), action, target)
    ensures Follows(t, Audited(u, actor, action, target))
  {
    var t' := Audited(u, actor, action, target);
    var rows := t'.audit[|t.audit|..];
    assert rows == [t'.audit[|t.audit|]] && rows[..0] == [];
    assert Replay(BannedLogins(t), rows[..0]) == BannedLogins(t);
    assert BannedLogins(t') == BannedLogins(u);
  }

  lemma RegisterFollows(t: Tables, login: string, password: string, hash: string, up: bool)
    requires Valid(t)
    ensures Follows(t, RegisterUser(t, login, password, hash, up).0)
  {
    var (t', r) := RegisterUser(t, login, password, hash, up);
    if r.status == Ok {
      NewUser(t, login, hash);
      AuditedFollows(t, WithUser(t, login, hash), t.nextUser, Registered, login);
    } else {
      QuietFollows(t, t');
    }
  }

  lemma NewUser(t: Tables, login: string, hash: string)
    requires Valid(t) && login !in t.ids
    ensures var t' := WithUser(t, login, hash);
            Valid(t') && Grows(t, t') && BannedLogins(t') == BannedLogins(t)
  {
    var t' := WithUser(t, login, hash);
    assert forall l | l in t.ids :: t'.ids[l] == t.ids[l] && t.ids[l] in t.users;
    assert IndexAgrees(t');
  }

  lemma LoginFollows(t: Tables, login: string, passwordOk: bool, now: Timestamp, up: bool)
    requires Valid(t)
    ensures Follows(t, LoginUser(t, login, passwordOk, now, up).0)
  {
    var (t', r) := LoginUser(t, login, passwordOk, now, up);
    if r.status == Ok {
      var id := t.ids[login];
      StatusChange(t, id, Online);
      var online := WithStatus(t, id, Online);
      SeenChange(online, id, now);
      AuditedFollows(t, Seen(online, id, now), id, LoggedIn, login);
    } else {
      QuietFollows(t, t');
    }
  }

  lemma LogoutFollows(t: Tables, id: int, now: Timestamp, up: bool)
    requires Valid(t)
    ensures Follows(t, LogoutUser(t, id, now, up))
  {
    if up && id in t.users && t.users[id].status != Banned {
      StatusChange(t, id, Offline);
      SeenChange(WithStatus(t, id, Offline), id, now);
    }
    QuietFollows(t, LogoutUser(t, id, now, up));
  }

  lemma SendFollows(t: Tables, sender: int, receiver: string, text: string, now: Timestamp, up: bool)
    requires Valid(t)
    ensures Follows(t, SendMessage(t, sender, receiver, text, now, up).0)
  {
    QuietFollows(t, SendMessage(t, sender, receiver, text, now, up).0);
  }

  lemma BanFollows(t: Tables, actor: int, login: string, up: bool)
    requires Valid(t)
    ensures Follows(t, BanUser(t, actor, login, up).0)
  {
    var (t', r) := BanUser(t, actor, login, up);
    if r.status == Ok {
      StatusChange(t, t.ids[login], Banned);
      AuditedFollows(t, WithStatus(t, t.ids[login], Banned), actor, BannedUser, login);
    } else {
      QuietFollows(t, t');
    }
  }

  lemma UnbanFollows(t: Tables, actor: int, login: string, up: bool)
    requires Valid(t)
    ensures Follows(t, UnbanUser(t, actor, login, up).0)
  {
    var (t', r) := UnbanUser(t, actor, login, up);
    if r.status == Ok {
      StatusChange(t, t.ids[login], Offline);
      AuditedFollows(t, WithStatus(t, t.ids[login], Offline), actor, UnbannedUser, login);
    } else {
      QuietFollows(t, t');
    }
  }

  lemma KickFollows(t: Tables, actor: int, login: string, now: Timestamp, up: bool)
    requires Valid(t)
    ensures Follows(t, KickUser(t, actor, login, now, up).0)
  {
    var (t', r) := KickUser(t, actor, login, now, up);
    if r.status == Ok {
      var id := t.ids[login];
      StatusChange(t, id, Offline);
      var offline := WithStatus(t, id, Offline);
      SeenChange(offline, id, now);
      AuditedFollows(t, Seen(offline, id, now), actor, KickedUser, login);
    } else {
      QuietFollows(t, t');
    }
  }

  lemma CommitFollows(t: Tables, call: Call, now: Timestamp, up: bool)
    requires Valid(t)
    ensures Follows(t, Commit(t, call, now, up))
  {
    match call
    case CallRegister(login, password, hash) => RegisterFollows(t, login, password, hash, up);
    case CallLogin(login, passwordOk) => LoginFollows(t, login, passwordOk, now, up);
    case CallLogout(id) => LogoutFollows(t, id, now, up);
    case CallSend(id, login, text) => SendFollows(t, id, login, text, now, up);
    case CallBan(id, login) => BanFollows(t, id, login, up);
    case CallUnban(id, login) => UnbanFollows(t, id, login, up);
    case CallKick(id, login) => KickFollows(t, id, login, now, up);
  }

  lemma {:induction false} ReplayAppend(banned: set<string>, a: seq<AuditEntry>, b: seq<AuditEntry>)
    ensures Replay(banned, a + b) == Replay(Replay(banned, a), b)
  {
    if b == [] {
      assert a + b == a;
    } else {
      ReplayAppend(banned, a, b[..|b| - 1]);
      assert (a + b)[..|a + b| - 1] == a + b[..|b| - 1];
    }
  }

  lemma FollowsIsTransitive(t: Tables, u: Tables, v: Tables)
    requires Valid(t) && Follows(t, u) && Follows(u, v)
    ensures Follows(t, v)
  {
    ReplayAppend(BannedLogins(t), u.audit[|t.audit|..], v.audit[|u.audit|..]);
    assert v.audit[|t.audit|..] == u.audit[|t.audit|..] + v.audit[|u.audit|..];
  }

  lemma FollowsIsReflexive(t: Tables)
    requires Valid(t)
    ensures Follows(t, t)
  {
    QuietFollows(t, t);
  }

  lemma EvolvesIsTransitive(t: Tables, u: Tables, v: Tables)
    requires Valid(t) && Evolves(t, u) && Evolves(u, v)
    ensures Evolves(t, v)
  {
    ReplayAppend(BannedLogins(t), u.audit[|t.audit|..], v.audit[|u.audit|..]);
    assert v.audit[|t.audit|..] == u.audit[|t.audit|..] + v.audit[|u.audit|..];
  }

  lemma FollowsEvolves(t: Tables, t': Tables)
    requires Valid(t) && Follows(t, t')
    ensures Evolves(t, t')
  {
  }

  // ----- the operator

  /** The operator gives a user another role, directly in the table. */
  function SetRole(t: Tables, id: int, role: Role): Tables
    requires id in t.users
  {
    t.(users := t.users[id := t.users[id].(role := role)])
  }

  lemma SetRoleEvolves(t: Tables, id: int, role: Role)
    requires Valid(t) && id in t.users
    ensures Evolves(t, SetRole(t, id, role))
    ensures forall other :: IsBanned(SetRole(t, id, role), other) <==> IsBanned(t, other)
  {
    var t' := SetRole(t, id, role);
    assert t'.audit[|t.audit|..] == [];
    assert BannedLogins(t') == BannedLogins(t);
  }

  /** A run of committed transactions, each with the time and outcome it met. */
  datatype Committed = Committed(call: Call, now: Timestamp, up: bool)

  ghost function History(t: Tables, calls: seq<Committed>): Tables
    requires Valid(t)
    decreases |calls|
  {
    if calls == [] then t
    else
      var c := calls[0];
      CommitFollows(t, c.call, c.now, c.up);
      History(Commit(t, c.call, c.now, c.up), calls[1..])
  }

  /**
   After any sequence of transactions, with any arguments and failures, from any
   table: replaying the ban and unban rows written since gives exactly the users
   who are banned now.
   */
  lemma {:induction false} AuditReplay(t: Tables, calls: seq<Committed>)
    requires Valid(t)
    ensures Follows(t, History(t, calls))
    decreases |calls|
  {
    if calls == [] {
      FollowsIsReflexive(t);
    } else {
      var c := calls[0];
      var mid := Commit(t, c.call, c.now, c.up);
      CommitFollows(t, c.call, c.now, c.up);
      AuditReplay(mid, calls[1..]);
      FollowsIsTransitive(t, mid, History(mid, calls[1..]));
    }
  }

  // ----- the life of a status

  /** Why a committed transaction may leave a stored user with a status. */
  predicate Explains(t: Tables, id: int, call: Call, up: bool, status: Status)
    requires IndexAgrees(t) && id in t.users
  {
    var me := t.users[id];
    match status
    case Online => up && call == CallLogin(me.login, true) && me.status != Banned
    case Banned => up && call.CallBan? && call.login == me.login && ActorExists(t, call.id)
    case Offline =>
      up && ((call == CallLogout(id) && me.status != Banned)
             || (call.CallKick? && call.login == me.login && me.status != Banned && ActorExists(t, call.id))
             || (call.CallUnban? && call.login == me.login && me.status == Banned && ActorExists(t, call.id)))
  }

  /** The status is the result of a transaction that explains it, or is unchanged and nothing explains another. */
  ghost predicate Lives(t: Tables, t': Tables, id: int, call: Call, up: bool)
    requires IndexAgrees(t) && id in t.users
  {
    && id in t'.users
    && forall status: Status ::
         t'.users[id].status == status <==>
         (Explains(t, id, call, up, status)
          || (t.users[id].status == status && forall other: Status :: !Explains(t, id, call, up, other)))
  }

  /** At most one status is explained. */
  lemma OneExplanation(t: Tables, id: int, call: Call, up: bool, a: Status, b: Status)
    requires IndexAgrees(t) && id in t.users && Explains(t, id, call, up, a) && Explains(t, id, call, up, b)
    ensures a == b
  {
  }

  lemma LivesBy(t: Tables, t': Tables, id: int, call: Call, up: bool)
    requires IndexAgrees(t) && id in t.users && id in t'.users
    requires Explains(t, id, call, up, t'.users[id].status)
             || (t'.users[id].status == t.users[id].status && forall other: Status :: !Explains(t, id, call, up, other))
    ensures Lives(t, t', id, call, up)
  {
    var seen := t'.users[id].status;
    forall status: Status | Explains(t, id, call, up, status) && Explains(t, id, call, up, seen)
      ensures status == seen
    {
      OneExplanation(t, id, call, up, status, seen);
    }
  }

  lemma QuietCallLife(t: Tables, id: int, call: Call, now: Timestamp, up: bool)
    requires Valid(t) && id in t.users && (call.CallRegister? || call.CallSend?)
    ensures Lives(t, Commit(t, call, now, up), id, call, up)
  {
    LivesBy(t, Commit(t, call, now, up), id, call, up);
  }

  lemma SessionCallLife(t: Tables, id: int, call: Call, now: Timestamp, up: bool)
    requires Valid(t) && id in t.users && (call.CallLogin? || call.CallLogout?)
    ensures Lives(t, Commit(t, call, now, up), id, call, up)
  {
    LivesBy(t, Commit(t, call, now, up), id, call, up);
  }

  lemma BanLife(t: Tables, id: int, call: Call, now: Timestamp, up: bool)
    requires Valid(t) && id in t.users && (call.CallBan? || call.CallUnban?)
    ensures Lives(t, Commit(t, call, now, up), id, call, up)
  {
    LivesBy(t, Commit(t, call, now, up), id, call, up);
  }

  lemma KickLife(t: Tables, id: int, call: Call, now: Timestamp, up: bool)
    requires Valid(t) && id in t.users && call.CallKick?
    ensures Lives(t, Commit(t, call, now, up), id, call, up)
  {
    LivesBy(t, Commit(t, call, now, up), id, call, up);
  }

  /** The only ways through the states of an account. */
  lemma StatusLifeCycle(t: Tables, id: int, call: Call, now: Timestamp, up: bool)
    requires Valid(t) && id in t.users
    ensures Lives(t, Commit(t, call, now, up), id, call, up)
  {
    match call
    case CallRegister(_, _, _) => QuietCallLife(t, id, call, now, up);
    case CallSend(_, _, _) => QuietCallLife(t, id, call, now, up);
    case CallLogin(_, _) => SessionCallLife(t, id, call, now, up);
    case CallLogout(_) => SessionCallLife(t, id, call, now, up);
    case CallBan(_, _) => BanLife(t, id, call, now, up);
    case CallUnban(_, _) => BanLife(t, id, call, now, up);
    case CallKick(_, _) => KickLife(t, id, call, now, up);
  }

  /** The transaction would lift a ban of this login. */
  predicate Lifts(c: Committed, login: string) {
    c.call.CallUnban? && c.call.login == login
  }

  /** The account of a login is banned. */
  predicate BannedAs(t: Tables, login: string, id: int) {
    Valid(t) && login in t.ids && t.ids[login] == id && IsBanned(t, id)
  }

  lemma {:induction false} StaysBanned(t: Tables, login: string, calls: seq<Committed>)
    requires Valid(t) && login in t.ids && IsBanned(t, t.ids[login])
    requires forall i | 0 <= i < |calls| :: !Lifts(calls[i], login)
    ensures BannedAs(History(t, calls), login, t.ids[login])
    decreases |calls|
  {
    if calls != [] {
      var c := calls[0];
      OneMoreBannedStep(t, login, c);
      StaysBanned(Commit(t, c.call, c.now, c.up), login, calls[1..]);
    }
  }

  lemma OneMoreBannedStep(t: Tables, login: string, c: Committed)
    requires Valid(t) && login in t.ids && IsBanned(t, t.ids[login]) && !Lifts(c, login)
    ensures BannedAs(Commit(t, c.call, c.now, c.up), login, t.ids[login])
  {
    CommitFollows(t, c.call, c.now, c.up);
    StatusLifeCycle(t, t.ids[login], c.call, c.now, c.up);
    assert !Explains(t, t.ids[login], c.call, c.up, Offline) && !Explains(t, t.ids[login], c.call, c.up, Online);
  }

  lemma BannedIsRefused(t: Tables, login: string, id: int)
    requires BannedAs(t, login, id)
    ensures forall ok, now ::
              LoginUser(t, login, ok, now, true)
              == (t, LoginResult(BannedStatus, UserIsBanned, id, login, t.users[id].role))
    ensures forall sender, text, now | 0 < |text| <= 4096 ::
              SendMessage(t, sender, login, text, now, true) == (t, DbResult(BannedStatus, ReceiverIsBanned, -1))
  {
  }

  /**
   A ban holds through every history that does not lift it, whatever else is
   committed: the user stays banned, cannot log in with any password, and cannot
   be sent a message.
   */
  lemma BanHolds(t: Tables, login: string, calls: seq<Committed>)
    requires Valid(t) && login in t.ids && IsBanned(t, t.ids[login])
    requires forall i | 0 <= i < |calls| :: !Lifts(calls[i], login)
    ensures var u, id := History(t, calls), t.ids[login];
            && BannedAs(u, login, id)
            && (forall ok, now ::
                  LoginUser(u, login, ok, now, true)
                  == (u, LoginResult(BannedStatus, UserIsBanned, id, login, u.users[id].role)))
            && (forall sender, text, now | 0 < |text| <= 4096 ::
                  SendMessage(u, sender, login, text, now, true) == (u, DbResult(BannedStatus, ReceiverIsBanned, -1)))
  {
    StaysBanned(t, login, calls);
    BannedIsRefused(History(t, calls), login, t.ids[login]);
  }

  // ----- transactions one after the other

  /**
   Registration succeeds exactly for a valid, unused login with a valid password;
   it opens an ordinary account under a new id that can log in at once and whose
   login is taken from then on. A refusal leaves every row alone.
   */
  lemma RegistrationOpensAnAccount(t: Tables, login: string, password: string, hash: string, now: Timestamp, up: bool)
    requires Valid(t)
    ensures var (t', r) := RegisterUser(t, login, password, hash, up);
            && Valid(t')
            && (r.status == Ok <==> IsValidLogin(login) && IsValidPassword(password) && up && login !in t.ids)
            && (r.status != Ok ==> t' == t.(nextUser := t'.nextUser))
            && (r.status == Ok ==>
                  && r.id !in t.users && t'.users.Keys == t.users.Keys + {r.id}
                  && LoginUser(t', login, true, now, true).1 == LoginResult(Ok, LoginDone, r.id, login, OrdinaryUser)
                  && RegisterUser(t', login, password, hash, true).1.status == Duplicate)
  {
    RegisterFollows(t, login, password, hash, up);
  }

  /** An unban takes a ban back, except that the user is offline and both are on record. */
  lemma UnbanUndoesBan(t: Tables, actor: int, other: int, login: string)
    requires Valid(t) && login in t.ids && ActorExists(t, actor) && ActorExists(t, other)
    ensures var banned := BanUser(t, actor, login, true).0;
            && Valid(banned) && BannedLogins(banned) == BannedLogins(t) + {login}
            && var (free, r) := UnbanUser(banned, other, login, true);
               && r == DbResult(Ok, UnbanDone, t.ids[login])
               && free == WithStatus(t, t.ids[login], Offline).(audit := free.audit)
               && |free.audit| == |t.audit| + 2 && t.audit <= free.audit
               && free.audit[|t.audit|].action == BannedUser && free.audit[|t.audit| + 1].action == UnbannedUser
               && Valid(free) && BannedLogins(free) == BannedLogins(t) - {login}
  {
    var id := t.ids[login];
    var banned := BanUser(t, actor, login, true).0;
    BanFollows(t, actor, login, true);
    StatusChange(t, id, Banned);
    var free := UnbanUser(banned, other, login, true).0;
    UnbanFollows(banned, other, login, true);
    StatusChange(t, id, Offline);
    assert free.users == WithStatus(t, id, Offline).users;
  }
}
