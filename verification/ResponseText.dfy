/**
 The text of each line the server sends, how long it can get, and that the
 console client and the admin window read it back.
 */
module ResponseText {
  import opened Options
  import opened Lines
  import opened Auth
  import opened Tables
  import opened Chat
  import AdminWindow

  function StatusText(s: DbStatus): string {
    match s
    case Ok => "OK"
    case ValidationError => "VALIDATION"
    case Unauthorized => "UNAUTHORIZED"
    case NotFound => "NOT_FOUND"
    case Duplicate => "DUPLICATE"
    case BannedStatus => "BANNED"
    case Error => "DB"
  }

  function RoleText(r: Role): string {
    match r
    case OrdinaryUser => "user"
    case Moderator => "moderator"
    case Admin => "admin"
  }

  function UserStatusText(s: Status): string {
    match s
    case Online => "online"
    case Offline => "offline"
    case Banned => "banned"
  }

  function SeenText(t: Option<Timestamp>): string {
    if t.Some? then t.value else ""
  }

  /** The words of the lines without fields. */
  function FixedText(line: Line): string {
    match line
    case RegisterOk => "REGISTER_OK"
    case LogoutOk => "LOGOUT_OK"
    case UsersBegin => "USERS_BEGIN"
    case UsersEnd => "USERS_END"
    case InboxBegin => "INBOX_BEGIN"
    case InboxEnd => "INBOX_END"
    case HistoryBegin => "HISTORY_BEGIN"
    case HistoryEnd => "HISTORY_END"
    case AllMessagesBegin => "ALL_MESSAGES_BEGIN"
    case AllMessagesEnd => "ALL_MESSAGES_END"
    case Done => "OK"
    case NoActiveSession => "ERROR_NOT_FOUND active session not found"
    case Kicked => "KICKED"
    case NotAuth => "ERROR_NOT_AUTH"
    case Forbidden => "ERROR_FORBIDDEN moderator role required"
    case FrameTooLarge => "ERROR_FRAME_TOO_LARGE"
    case _ => "UNKNOWN_CMD"
  }

  function Refusal(word: string, status: DbStatus, reason: Reason): string {
    Spaced(word, Spaced(StatusText(status), ReasonText(reason)))
  }

  function Text(line: Line): string {
    match line
    case RegisterError(status, reason) => Refusal("REGISTER_ERROR", status, reason)
    case LoginOk(role) => Spaced("LOGIN_OK", RoleText(role))
    case LoginError(status, reason) => Refusal("LOGIN_ERROR", status, reason)
    case UserRow(login, status, role, lastSeen) =>
      UserLine(login, UserStatusText(status), RoleText(role), SeenText(lastSeen))
    case InboxRow(sender, createdAt, text) => InboxLine(sender, createdAt, text)
    case MessageOk(id) => Spaced("MESSAGE_OK", Decimal(id))
    case MessageError(status, reason) => Refusal("MESSAGE_ERROR", status, reason)
    case Pushed(sender, text) => PushLine(sender, text)
    case HistoryRow(sender, receiver, createdAt, text) => HistoryLine(sender, receiver, createdAt, text)
    case MessageRow(sender, receiver, createdAt, text) =>
      AdminWindow.RowLine(AdminWindow.Row(sender, receiver, createdAt, text))
    case Refused(status, reason) => Spaced("ERROR_" + StatusText(status), ReasonText(reason))
    case _ => FixedText(line)
  }

  /** What the fields of a line keep to when they come from stored data. */
  predicate Clean(line: Line) {
    match line
    case UserRow(login, _, _, _) => IsValidLogin(login)
    case InboxRow(sender, _, text) => IsValidLogin(sender) && CleanText(text)
    case MessageOk(id) => id <= MAX_INT
    case Pushed(sender, text) => IsValidLogin(sender) && CleanText(text)
    case HistoryRow(sender, receiver, _, text) => IsValidLogin(sender) && IsValidLogin(receiver) && CleanText(text)
    case MessageRow(sender, receiver, _, text) => IsValidLogin(sender) && IsValidLogin(receiver) && CleanText(text)
    case _ => true
  }

  predicate CleanText(text: string) {
    1 <= |text| <= 4096 && '\n' !in text
  }

  // ----- lengths

  /** The longest line: "HIST", two logins of 50, a timestamp, a text of 4096, and the spaces between. */
  const MAX_LINE: nat := 4224

  lemma StatusIsShort(status: DbStatus)
    ensures |StatusText(status)| <= 12
  {
  }

  lemma ReasonIsShort(reason: Reason)
    ensures |ReasonText(reason)| <= 64
  {
  }

  lemma RoleIsShort(role: Role, status: Status)
    ensures |RoleText(role)| <= 9 && |UserStatusText(status)| <= 7
  {
  }

  lemma FixedIsShort(line: Line)
    ensures |FixedText(line)| <= 64
  {
  }

  lemma IdIsShort(id: nat)
    requires id <= MAX_INT
    ensures |Decimal(id)| <= 10
  {
    assert Pow10(2) == 100 && Pow10(4) == 10000 && Pow10(6) == 1000000;
    assert Pow10(8) == 100000000 && Pow10(10) == 10000000000;
    DecimalLength(id, 10);
  }

  lemma RefusalIsShort(word: string, status: DbStatus, reason: Reason)
    requires |word| <= 20
    ensures |Refusal(word, status, reason)| <= 100
  {
    StatusIsShort(status);
    ReasonIsShort(reason);
  }

  lemma RowIsShort(line: Line)
    requires Clean(line)
    requires line.UserRow? || line.InboxRow? || line.Pushed? || line.HistoryRow? || line.MessageRow?
    ensures |Text(line)| <= MAX_LINE
  {
    if line.UserRow? {
      RoleIsShort(line.role, line.userStatus);
    }
  }

  /** Every line built from clean data is at most 4224 bytes long. */
  lemma CleanLinesAreShort(line: Line)
    requires Clean(line)
    ensures |Text(line)| <= MAX_LINE
  {
    match line
    case RegisterError(status, reason) => RefusalIsShort("REGISTER_ERROR", status, reason);
    case LoginError(status, reason) => RefusalIsShort("LOGIN_ERROR", status, reason);
    case MessageError(status, reason) => RefusalIsShort("MESSAGE_ERROR", status, reason);
    case LoginOk(role) => RoleIsShort(role, Online);
    case MessageOk(id) => IdIsShort(id);
    case Refused(status, reason) => StatusIsShort(status); ReasonIsShort(reason);
    case _ =>
      if line.UserRow? || line.InboxRow? || line.Pushed? || line.HistoryRow? || line.MessageRow? {
        RowIsShort(line);
      } else {
        FixedIsShort(line);
      }
  }

  /** The bound is reached: the longest stored message makes a history line of exactly that length. */
  lemma LongestLine(sender: string, receiver: string, createdAt: Timestamp, text: string)
    requires |sender| == 50 && |receiver| == 50 && |text| == 4096
    ensures |Text(HistoryRow(sender, receiver, createdAt, text))| == MAX_LINE
  {
  }

  // ----- reading back

  /** What the console client shows for a row or a push, and what the admin window puts into its table. */
  lemma CleanRowsReadBack(line: Line)
    requires Clean(line)
    ensures match line
            case Pushed(sender, text) => ClientParse(Text(line)) == ShownPush(sender, " " + text)
            case InboxRow(sender, at, text) => ClientParse(Text(line)) == ShownInbox(sender, at, " " + text)
            case HistoryRow(sender, receiver, at, text) =>
              ClientParse(Text(line)) == ShownHistory(sender, receiver, at, " " + text)
            case MessageRow(sender, receiver, at, text) =>
              AdminWindow.ParseRow(Text(line)) == Some(AdminWindow.Row(sender, receiver, at, text))
            case UserRow(login, status, role, lastSeen) =>
              ClientParse(Text(line))
              == ShownUser(login, UserStatusText(status), RoleText(role), SeenText(lastSeen))
            case _ => true
  {
    match line
    case Pushed(sender, text) =>
      ValidLoginIsOneWord(sender);
      PushLineRoundTrip(sender, text);
    case InboxRow(sender, at, text) =>
      ValidLoginIsOneWord(sender);
      InboxLineRoundTrip(sender, at, text);
    case HistoryRow(sender, receiver, at, text) =>
      ValidLoginIsOneWord(sender);
      ValidLoginIsOneWord(receiver);
      HistoryLineRoundTrip(sender, receiver, at, text);
    case MessageRow(sender, receiver, at, text) =>
      ValidLoginIsOneWord(sender);
      ValidLoginIsOneWord(receiver);
      AdminWindow.RowRoundTrip(AdminWindow.Row(sender, receiver, at, text));
    case UserRow(login, status, role, lastSeen) =>
      ValidLoginIsOneWord(login);
      WordsOf(status, role);
      UserLineRoundTrip(login, UserStatusText(status), RoleText(role), SeenText(lastSeen));
    case _ =>
  }

  lemma WordsOf(status: Status, role: Role)
    ensures Word(UserStatusText(status)) && Word(RoleText(role))
  {
  }
}
