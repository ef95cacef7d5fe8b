/**
 How the answers are understood at the other end: every line the server can send is
 taken by the console client for what it is, and the admin window's verdict on a
 moderation command, and its user table, say what happened.
 */
module ClientView {
  import opened Lines
  import opened Auth
  import opened Tables
  import opened Chat
  import opened ResponseText
  import opened AdminWindow

  // ----- the console client

  /** What the receive loop makes of the lines that are no rows. */
  datatype Notice =
    | RegisterDone
    | RegisterFailed(message: string)
    | SignedIn(role: string)
    | LoginFailed(message: string)
    | UsersStart
    | UsersStop
    | InboxStart
    | InboxStop
    | MessageDone
    | MessageFailed(message: string)
    | HistoryStart
    | HistoryStop
    | LogoutDone
    | KickedOut
    | Listed
    | PrintedAsIs

  function NoticeOf(word: string, rest: string): Notice {
    match word
    case "REGISTER_OK" => RegisterDone
    case "REGISTER_ERROR" => RegisterFailed(GetLine(rest))
    case "LOGIN_OK" => SignedIn(Extract(rest).word)
    case "LOGIN_ERROR" => LoginFailed(GetLine(rest))
    case "USERS_BEGIN" => UsersStart
    case "USER" => Listed
    case "USERS_END" => UsersStop
    case "INBOX_BEGIN" => InboxStart
    case "INBOX_MSG" => Listed
    case "INBOX_END" => InboxStop
    case "MESSAGE" => Listed
    case "MESSAGE_OK" => MessageDone
    case "MESSAGE_ERROR" => MessageFailed(GetLine(rest))
    case "HISTORY_BEGIN" => HistoryStart
    case "HIST" => Listed
    case "HISTORY_END" => HistoryStop
    case "LOGOUT_OK" => LogoutDone
    case "KICKED" => KickedOut
    case _ => PrintedAsIs
  }

  function ClientNotice(line: string): Notice {
    var first := Extract(line);
    NoticeOf(first.word, first.rest)
  }

  /** What a line is meant to be taken for. */
  function Meant(line: Line): Notice {
    match line
    case RegisterOk => RegisterDone
    case RegisterError(status, reason) => RegisterFailed(GetLine(" " + Spaced(StatusText(status), ReasonText(reason))))
    case LoginOk(role) => SignedIn(RoleText(role))
    case LoginError(status, reason) => LoginFailed(GetLine(" " + Spaced(StatusText(status), ReasonText(reason))))
    case LogoutOk => LogoutDone
    case UsersBegin => UsersStart
    case UserRow(_, _, _, _) => Listed
    case UsersEnd => UsersStop
    case InboxBegin => InboxStart
    case InboxRow(_, _, _) => Listed
    case InboxEnd => InboxStop
    case MessageOk(_) => MessageDone
    case MessageError(status, reason) => MessageFailed(GetLine(" " + Spaced(StatusText(status), ReasonText(reason))))
    case Pushed(_, _) => Listed
    case HistoryBegin => HistoryStart
    case HistoryRow(_, _, _, _) => Listed
    case HistoryEnd => HistoryStop
    case Kicked => KickedOut
    case _ => PrintedAsIs
  }

  lemma SpacedNotice(word: string, rest: string)
    requires Word(word)
    ensures ClientNotice(Spaced(word, rest)) == NoticeOf(word, " " + rest)
  {
    ExtractSpaced(word, rest);
  }

  lemma BareNotice(word: string)
    requires Word(word)
    ensures ClientNotice(word) == NoticeOf(word, "")
  {
    ExtractWord(word, "");
    assert word + "" == word;
  }

  // Word by word.

  lemma RegisterErrorLine(rest: string)
    ensures ClientNotice(Spaced("REGISTER_ERROR", rest)) == RegisterFailed(GetLine(" " + rest))
  {
    assert Word("REGISTER_ERROR");
    SpacedNotice("REGISTER_ERROR", rest);
  }

  lemma LoginErrorLine(rest: string)
    ensures ClientNotice(Spaced("LOGIN_ERROR", rest)) == LoginFailed(GetLine(" " + rest))
  {
    assert Word("LOGIN_ERROR");
    SpacedNotice("LOGIN_ERROR", rest);
  }

  lemma MessageErrorLine(rest: string)
    ensures ClientNotice(Spaced("MESSAGE_ERROR", rest)) == MessageFailed(GetLine(" " + rest))
  {
    assert Word("MESSAGE_ERROR");
    SpacedNotice("MESSAGE_ERROR", rest);
  }

  lemma LoginOkLine(rest: string)
    ensures ClientNotice(Spaced("LOGIN_OK", rest)) == SignedIn(Extract(" " + rest).word)
  {
    assert Word("LOGIN_OK");
    SpacedNotice("LOGIN_OK", rest);
  }

  lemma MessageOkLine(rest: string)
    ensures ClientNotice(Spaced("MESSAGE_OK", rest)) == MessageDone
  {
    assert Word("MESSAGE_OK");
    SpacedNotice("MESSAGE_OK", rest);
  }

  lemma UserRowLine(rest: string)
    ensures ClientNotice(Spaced("USER", rest)) == Listed
  {
    assert Word("USER");
    SpacedNotice("USER", rest);
  }

  lemma InboxRowLine(rest: string)
    ensures ClientNotice(Spaced("INBOX_MSG", rest)) == Listed
  {
    assert Word("INBOX_MSG");
    SpacedNotice("INBOX_MSG", rest);
  }

  lemma PushedLine(rest: string)
    ensures ClientNotice(Spaced("MESSAGE", rest)) == Listed
  {
    assert Word("MESSAGE");
    SpacedNotice("MESSAGE", rest);
  }

  lemma HistoryRowLine(rest: string)
    ensures ClientNotice(Spaced("HIST", rest)) == Listed
  {
    assert Word("HIST");
    SpacedNotice("HIST", rest);
  }

  lemma RegisterOkLine()
    ensures Word("REGISTER_OK") && NoticeOf("REGISTER_OK", "") == RegisterDone
  {
  }

  lemma LogoutOkLine()
    ensures Word("LOGOUT_OK") && NoticeOf("LOGOUT_OK", "") == LogoutDone
  {
  }

  lemma UsersBeginLine()
    ensures Word("USERS_BEGIN") && NoticeOf("USERS_BEGIN", "") == UsersStart
  {
  }

  lemma UsersEndLine()
    ensures Word("USERS_END") && NoticeOf("USERS_END", "") == UsersStop
  {
  }

  lemma InboxBeginLine()
    ensures Word("INBOX_BEGIN") && NoticeOf("INBOX_BEGIN", "") == InboxStart
  {
  }

  lemma InboxEndLine()
    ensures Word("INBOX_END") && NoticeOf("INBOX_END", "") == InboxStop
  {
  }

  lemma HistoryBeginLine()
    ensures Word("HISTORY_BEGIN") && NoticeOf("HISTORY_BEGIN", "") == HistoryStart
  {
  }

  lemma HistoryEndLine()
    ensures Word("HISTORY_END") && NoticeOf("HISTORY_END", "") == HistoryStop
  {
  }

  lemma KickedLine()
    ensures Word("KICKED") && NoticeOf("KICKED", "") == KickedOut
  {
  }

  lemma RefusalsAreUnderstood(line: Line)
    requires line.RegisterError? || line.LoginError? || line.MessageError?
    ensures ClientNotice(Text(line)) == Meant(line)
  {
    var rest := Spaced(StatusText(line.status), ReasonText(line.reason));
    match line
    case RegisterError(_, _) => RegisterErrorLine(rest);
    case LoginError(_, _) => LoginErrorLine(rest);
    case MessageError(_, _) => MessageErrorLine(rest);
  }

  lemma RowsAreUnderstood(line: Line)
    requires line.UserRow? || line.InboxRow? || line.Pushed? || line.HistoryRow?
    ensures ClientNotice(Text(line)) == Listed
  {
    match line
    case UserRow(_, _, _, _) => UserRowIsUnderstood(line);
    case InboxRow(_, _, _) => InboxRowIsUnderstood(line);
    case Pushed(_, _) => PushIsUnderstood(line);
    case HistoryRow(_, _, _, _) => HistoryRowIsUnderstood(line);
  }

  lemma UserRowIsUnderstood(line: Line)
    requires line.UserRow?
    ensures ClientNotice(Text(line)) == Listed
  {
    var status, role, seen := UserStatusText(line.userStatus), RoleText(line.role), SeenText(line.lastSeen);
    UserRowLine(Spaced(line.login, Spaced(status, Spaced(role, seen))));
  }

  lemma InboxRowIsUnderstood(line: Line)
    requires line.InboxRow?
    ensures ClientNotice(Text(line)) == Listed
  {
    InboxRowLine(Spaced(line.sender, Spaced(line.createdAt, line.text)));
  }

  lemma PushIsUnderstood(line: Line)
    requires line.Pushed?
    ensures ClientNotice(Text(line)) == Listed
  {
    PushedLine(Spaced(line.sender, line.text));
  }

  lemma HistoryRowIsUnderstood(line: Line)
    requires line.HistoryRow?
    ensures ClientNotice(Text(line)) == Listed
  {
    HistoryRowLine(Spaced(line.sender, Spaced(line.receiver, Spaced(line.createdAt, line.text))));
  }

  lemma GrantsAreUnderstood(line: Line)
    requires line.LoginOk? || line.MessageOk?
    ensures ClientNotice(Text(line)) == Meant(line)
  {
    match line
    case LoginOk(role) =>
      LoginOkLine(RoleText(role));
      WordsOf(Online, role);
      ExtractLast(RoleText(role));
    case MessageOk(id) => MessageOkLine(Decimal(id));
  }

  predicate IsMarker(line: Line) {
    line in [RegisterOk, LogoutOk, UsersBegin, UsersEnd, InboxBegin, InboxEnd, HistoryBegin, HistoryEnd, Kicked]
  }

  lemma MarkerWords(line: Line)
    requires IsMarker(line)
    ensures Word(Text(line)) && NoticeOf(Text(line), "") == Meant(line)
  {
    match line
    case RegisterOk => RegisterOkLine();
    case LogoutOk => LogoutOkLine();
    case UsersBegin => UsersBeginLine();
    case UsersEnd => UsersEndLine();
    case InboxBegin => InboxBeginLine();
    case InboxEnd => InboxEndLine();
    case HistoryBegin => HistoryBeginLine();
    case HistoryEnd => HistoryEndLine();
    case Kicked => KickedLine();
  }

  lemma MarkersAreUnderstood(line: Line)
    requires IsMarker(line)
    ensures ClientNotice(Text(line)) == Meant(line)
  {
    MarkerWords(line);
    BareNotice(Text(line));
  }

  /** The lines the client has a branch for. */
  predicate Addressed(line: Line) {
    Meant(line) != PrintedAsIs
  }

  /** Every line that is meant for a branch of the client reaches that branch, with its message. */
  lemma ClientUnderstands(line: Line)
    requires Addressed(line)
    ensures ClientNotice(Text(line)) == Meant(line)
  {
    if line.RegisterError? || line.LoginError? || line.MessageError? {
      RefusalsAreUnderstood(line);
    } else if line.UserRow? || line.InboxRow? || line.Pushed? || line.HistoryRow? {
      RowsAreUnderstood(line);
    } else if line.LoginOk? || line.MessageOk? {
      GrantsAreUnderstood(line);
    } else {
      MarkersAreUnderstood(line);
    }
  }

  // ----- the admin window

  /** The possible last lines of a moderation command. */
  predicate IsVerdict(line: Line) {
    line == Done || line == NoActiveSession || line == NotAuth || line == Forbidden || line.Refused?
  }

  lemma ErrorsStart(line: Line)
    requires IsVerdict(line) && line != Done
    ensures StartsWith(Text(line), "ERROR_")
  {
    match line
    case Refused(status, reason) => RefusedStarts(StatusText(status), ReasonText(reason));
    case NoActiveSession => FixedErrors();
    case NotAuth => FixedErrors();
    case Forbidden => FixedErrors();
  }

  lemma RefusedStarts(status: string, reason: string)
    ensures StartsWith(Spaced("ERROR_" + status, reason), "ERROR_")
  {
    var line := Spaced("ERROR_" + status, reason);
    assert line[..6] == "ERROR_";
  }

  lemma FixedErrors()
    ensures StartsWith("ERROR_NOT_FOUND active session not found", "ERROR_")
    ensures StartsWith("ERROR_NOT_AUTH", "ERROR_")
    ensures StartsWith("ERROR_FORBIDDEN moderator role required", "ERROR_")
  {
  }

  /** The verdict ends the window's reading, and it is "OK" exactly for a command that was carried out. */
  lemma WindowSeesVerdict(command: string, login: string, line: Line)
    requires command == "BAN " + login || command == "UNBAN " + login || command == "KICK " + login
    requires IsVerdict(line)
    ensures CommandFinished(command, Text(line))
    ensures ReportsSuccess([Text(line)]) <==> line == Done
  {
    assert command[0] == 'B' || command[0] == 'U' || command[0] == 'K';
    if line != Done {
      ErrorsStart(line);
      assert Text(line)[0] == "ERROR_"[0] == 'E';
    }
  }

  /** Of the lines of a user list, and of pushes, only the end marker ends the reading. */
  lemma WindowReadsWholeList(line: Line)
    requires line == UsersBegin || line.UserRow? || line == UsersEnd || line.Pushed?
    ensures CommandFinished("LIST", Text(line)) <==> line == UsersEnd
  {
    match line
    case UserRow(_, _, _, _) => assert Text(line)[..5] == "USER " && Text(line)[4] != "USERS_END"[4];
    case Pushed(_, _) => assert Text(line)[0] == 'M';
    case _ =>
  }

  /** A row of the user list comes apart into its fields, also without a last-seen time. */
  lemma WindowSplitsUserRow(line: Line)
    requires line.UserRow? && IsValidLogin(line.login)
    ensures StartsWith(Text(line), "USER ")
    ensures Split(Text(line))
         == ["USER", line.login, UserStatusText(line.userStatus), RoleText(line.role)] + [SeenText(line.lastSeen)]
  {
    ValidLoginIsOneWord(line.login);
    WordsOf(line.userStatus, line.role);
    var status, role, seen := UserStatusText(line.userStatus), RoleText(line.role), SeenText(line.lastSeen);
    SplitUser(line.login, status, role, seen);
    UserStarts(Spaced(line.login, Spaced(status, Spaced(role, seen))));
  }

  lemma SplitUser(login: string, status: string, role: string, seen: string)
    requires ' ' !in login && ' ' !in status && ' ' !in role && ' ' !in seen
    ensures var line := UserLine(login, status, role, seen);
            Split(line) == ["USER", login, status, role] + [seen]
  {
    assert ' ' !in "USER";
    SplitSpaced("USER", Spaced(login, Spaced(status, Spaced(role, seen))));
    SplitSpaced(login, Spaced(status, Spaced(role, seen)));
    SplitSpaced(status, Spaced(role, seen));
    SplitSpaced(role, seen);
    SplitWord(seen);
    FourThen("USER", login, status, role, [seen]);
  }

  lemma UserStarts(rest: string)
    ensures StartsWith(Spaced("USER", rest), "USER ")
  {
    assert Spaced("USER", rest)[..5] == "USER ";
  }

  lemma {:induction false} SplitWord(s: string)
    requires ' ' !in s
    ensures Split(s) == [s]
  {
    NoSpaceAt(s);
  }

  lemma {:induction false} NoSpaceAt(s: string)
    requires ' ' !in s
    ensures SpaceAt(s) == |s|
  {
    if s != "" {
      NoSpaceAt(s[1..]);
    }
  }

  /** The window offers to lift a ban exactly for users who are banned. */
  lemma StatusWords(status: Status)
    ensures UserStatusText(status) == "banned" <==> status == Banned
    ensures UserStatusText(status) == "online" <==> status == Online
  {
  }
}
