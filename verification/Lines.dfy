/**
 The text line protocol inside the frames. Lines are built by concatenation;
 the server and the console client read them with stream extraction and
 `getline`, the admin window with split and join. Strings are sequences of
 bytes written as characters.
 */
module Lines {

  // ----- stream extraction

  /** `isspace` in the C locale. */
  predicate IsSpace(c: char) {
    c == ' ' || c == '\t' || c == '\n' || c == '\r' || c == '\U{000B}' || c == '\U{000C}'
  }

  predicate SpaceFree(s: string) {
    forall c | c in s :: !IsSpace(c)
  }

  /** What `>>` into a string can produce when it succeeds. */
  predicate Word(s: string) {
    s != "" && SpaceFree(s)
  }

  function SkipSpaces(s: string): (r: string)
    ensures |r| <= |s|
    ensures r != "" ==> !IsSpace(r[0])
  {
    if s != "" && IsSpace(s[0]) then SkipSpaces(s[1..]) else s
  }

  function WordLength(s: string): (n: nat)
    ensures n <= |s| && SpaceFree(s[..n])
    ensures n < |s| ==> IsSpace(s[n])
  {
    if s == "" || IsSpace(s[0]) then 0
    else
      var n := 1 + WordLength(s[1..]);
      assert s[..n] == [s[0]] + s[1..][..n - 1];
      n
  }

  /** One `stream >> word`: the word (empty at the end of the input) and the unread rest. */
  datatype Extraction = Extraction(word: string, rest: string)

  function Extract(s: string): (e: Extraction)
    ensures SpaceFree(e.word)
    ensures e.word == "" ==> e.rest == ""
  {
    var t := SkipSpaces(s);
    var n := WordLength(t);
    Extraction(t[..n], t[n..])
  }

  function LineLength(s: string): (n: nat)
    ensures n <= |s| && '\n' !in s[..n]
    ensures n < |s| ==> s[n] == '\n'
  {
    if s == "" || s[0] == '\n' then 0
    else
      var n := 1 + LineLength(s[1..]);
      assert s[..n] == [s[0]] + s[1..][..n - 1];
      n
  }

  /** `std::getline`. */
  function GetLine(s: string): (line: string)
    ensures '\n' !in line
    ensures '\n' !in s ==> line == s
  {
    s[..LineLength(s)]
  }

  /** The server's `tail`: the rest of the line without one leading space. */
  function Tail(s: string): (text: string)
    ensures '\n' !in text && |text| <= |s|
  {
    var value := GetLine(s);
    if value != "" && value[0] == ' ' then value[1..] else value
  }

  lemma {:induction false} WordLengthOf(w: string, rest: string)
    requires SpaceFree(w) && (rest == "" || IsSpace(rest[0]))
    ensures WordLength(w + rest) == |w|
  {
    if w == "" {
      assert w + rest == rest;
    } else {
      assert (w + rest)[1..] == w[1..] + rest;
      WordLengthOf(w[1..], rest);
    }
  }

  /** A word followed by white space or the end is extracted, also after one separating space. */
  lemma ExtractWord(w: string, rest: string)
    requires Word(w) && (rest == "" || IsSpace(rest[0]))
    ensures Extract(w + rest) == Extraction(w, rest)
    ensures Extract(" " + (w + rest)) == Extraction(w, rest)
  {
    assert !IsSpace((w + rest)[0]);
    WordLengthOf(w, rest);
    assert (" " + (w + rest))[1..] == w + rest;
  }

  /** A word, one space, and the rest of the line: how every line is put together. */
  function Spaced(word: string, rest: string): (line: string)
    ensures |line| == |word| + 1 + |rest|
  {
    word + (" " + rest)
  }

  lemma ExtractSpaced(word: string, rest: string)
    requires Word(word)
    ensures Extract(Spaced(word, rest)) == Extraction(word, " " + rest)
    ensures Extract(" " + Spaced(word, rest)) == Extraction(word, " " + rest)
  {
    ExtractWord(word, " " + rest);
  }

  /** A getline after one separating space keeps the text, with its own leading and inner spaces. */
  lemma TailKeepsText(text: string)
    requires '\n' !in text
    ensures Tail(" " + text) == text && GetLine(" " + text) == " " + text
  {
  }

  // ----- numbers

  const MAX_INT: nat := 0x7FFF_FFFF

  function Digits(s: string): (n: nat)
    ensures n <= |s|
  {
    if s != "" && '0' <= s[0] <= '9' then 1 + Digits(s[1..]) else 0
  }

  function Value(digits: string): nat
    requires Digits(digits) == |digits|
  {
    if digits == "" then 0
    else
      DigitsOfPrefix(digits, |digits| - 1);
      Value(digits[..|digits| - 1]) * 10 + (digits[|digits| - 1] as int - '0' as int)
  }

  lemma {:induction false} DigitsOfPrefix(s: string, n: nat)
    requires n <= Digits(s)
    ensures Digits(s[..n]) == n
    ensures forall i | 0 <= i < Digits(s) :: '0' <= s[i] <= '9'
  {
    if s != "" && '0' <= s[0] <= '9' {
      DigitsOfPrefix(s[1..], if n == 0 then 0 else n - 1);
      if n > 0 {
        assert s[..n][1..] == s[1..][..n - 1];
      }
    }
  }

  /** `std::stoi` on a token: an optional sign, then as many digits as there are; anything else falls back. */
  function ParseIntOrDefault(s: string, fallback: int): int {
    var negative := s != "" && s[0] == '-';
    var body := if s != "" && (s[0] == '-' || s[0] == '+') then s[1..] else s;
    var n := Digits(body);
    if n == 0 then fallback
    else
      DigitsOfPrefix(body, n);
      var magnitude: int := Value(body[..n]);
      var v := if negative then -magnitude else magnitude;
      if -(MAX_INT as int) - 1 <= v <= MAX_INT then v else fallback
  }

  /** `std::to_string` of a non-negative number. */
  function Decimal(n: nat): (s: string)
    ensures s != "" && Digits(s) == |s|
    ensures Value(s) == n
  {
    var d := [(n % 10 + '0' as int) as char];
    if n < 10 then
      assert d[..0] == "";
      d
    else
      var s := Decimal(n / 10) + d;
      AllDigits(Decimal(n / 10), d[0]);
      assert s[..|s| - 1] == Decimal(n / 10);
      s
  }

  lemma {:induction false} AllDigits(s: string, c: char)
    requires Digits(s) == |s| && '0' <= c <= '9'
    ensures Digits(s + [c]) == |s| + 1
  {
    if s != "" {
      AllDigits(s[1..], c);
      assert (s + [c])[1..] == s[1..] + [c];
    } else {
      assert s + [c] == [c] && [c][1..] == "";
    }
  }

  function Pow10(k: nat): nat {
    if k == 0 then 1 else 10 * Pow10(k - 1)
  }

  lemma {:induction false} DecimalLength(n: nat, k: nat)
    requires k > 0 && n < Pow10(k)
    ensures |Decimal(n)| <= k
  {
    if n >= 10 {
      assert k > 1 by {
        assert Pow10(1) == 10 * Pow10(0) == 10;
      }
      DecimalLength(n / 10, k - 1);
    }
  }

  // ----- commands to the server

  datatype Command =
    | Register(login: string, pass: string)
    | Login(login: string, pass: string)
    | Logout
    | List
    | Inbox
    | Message(to: string, text: string)
    | History(target: string, limit: int, offset: int)
    | AllMessages(limit: int)
    | Ban(login: string)
    | Unban(login: string)
    | Kick(login: string)
    | Unknown

  /** The command that a first word and the rest of the line make. */
  function CommandOf(word: string, rest: string): (c: Command)
    ensures c.Message? ==> SpaceFree(c.to) && '\n' !in c.text
    ensures c.Register? || c.Login? ==> SpaceFree(c.login) && SpaceFree(c.pass)
  {
    var second := Extract(rest);
    var third := Extract(second.rest);
    match word
    case "REGISTER" => Register(second.word, third.word)
    case "LOGIN" => Login(second.word, third.word)
    case "LOGOUT" => Logout
    case "LIST" => List
    case "INBOX" => Inbox
    case "MESSAGE" => Message(second.word, Tail(second.rest))
    case "HISTORY" =>
      History(second.word, ParseIntOrDefault(third.word, 50), ParseIntOrDefault(Extract(third.rest).word, 0))
    case "ALL_MESSAGES" => AllMessages(ParseIntOrDefault(second.word, 100))
    case "BAN" => Ban(second.word)
    case "UNBAN" => Unban(second.word)
    case "KICK" => Kick(second.word)
    case _ => Unknown
  }

  /** The dispatch in the handler's command loop. */
  function ParseCommand(frame: string): (c: Command)
    ensures c.Message? ==> SpaceFree(c.to) && '\n' !in c.text
    ensures c.Register? || c.Login? ==> SpaceFree(c.login) && SpaceFree(c.pass)
  {
    var first := Extract(frame);
    CommandOf(first.word, first.rest)
  }

  /** The line the console client sends for a message. */
  function MessageCommand(to: string, text: string): string {
    Spaced("MESSAGE", Spaced(to, text))
  }

  /** What the server makes of a message line: the next word, and the text after it. */
  lemma ParseMessage(rest: string)
    ensures var e := Extract(" " + rest);
            ParseCommand(Spaced("MESSAGE", rest)) == Message(e.word, Tail(e.rest))
  {
    assert Word("MESSAGE");
    ExtractSpaced("MESSAGE", rest);
  }

  /**
   A message reaches the server as typed exactly when the recipient is one word
   (or both are empty) and the text has no newline; leading and inner spaces are
   kept.
   */
  lemma MessageCommandRoundTrip(to: string, text: string)
    ensures ParseCommand(MessageCommand(to, text)) == Message(to, text)
       <==> '\n' !in text && (Word(to) || (to == "" && text == ""))
  {
    ParseMessage(Spaced(to, text));
    if Word(to) {
      ExtractSpaced(to, text);
      if '\n' !in text {
        TailKeepsText(text);
      }
    } else if to == "" && text == "" {
      assert SkipSpaces(" " + Spaced(to, text)) == "" by {
        var blanks := " " + Spaced(to, text);
        assert blanks == "  " && blanks[1..] == " " && blanks[1..][1..] == "";
      }
    }
  }

  // ----- lines to the client

  function PushLine(sender: string, text: string): string {
    Spaced("MESSAGE", Spaced(sender, text))
  }

  function InboxLine(sender: string, createdAt: string, text: string): string {
    Spaced("INBOX_MSG", Spaced(sender, Spaced(createdAt, text)))
  }

  function HistoryLine(sender: string, receiver: string, createdAt: string, text: string): string {
    Spaced("HIST", Spaced(sender, Spaced(receiver, Spaced(createdAt, text))))
  }

  function UserLine(login: string, status: string, role: string, lastSeen: string): string {
    Spaced("USER", Spaced(login, Spaced(status, Spaced(role, lastSeen))))
  }

  /** What the client's receive loop reads out of a line; `text` still has its separating space. */
  datatype Shown =
    | ShownPush(sender: string, text: string)
    | ShownInbox(sender: string, createdAt: string, text: string)
    | ShownHistory(sender: string, receiver: string, createdAt: string, text: string)
    | ShownUser(login: string, status: string, role: string, lastSeen: string)
    | ShownOther

  function ClientParse(line: string): Shown {
    var first := Extract(line);
    var second := Extract(first.rest);
    var third := Extract(second.rest);
    var fourth := Extract(third.rest);
    match first.word
    case "MESSAGE" => ShownPush(second.word, GetLine(second.rest))
    case "INBOX_MSG" => ShownInbox(second.word, third.word, GetLine(third.rest))
    case "HIST" => ShownHistory(second.word, third.word, fourth.word, GetLine(fourth.rest))
    case "USER" => ShownUser(second.word, third.word, fourth.word, Extract(fourth.rest).word)
    case _ => ShownOther
  }

  // Every line the server builds from stored data comes apart into exactly its fields.

  lemma PushLineRoundTrip(sender: string, text: string)
    requires Word(sender) && '\n' !in text
    ensures ClientParse(PushLine(sender, text)) == ShownPush(sender, " " + text)
  {
    assert Word("MESSAGE");
    ExtractSpaced("MESSAGE", Spaced(sender, text));
    ExtractSpaced(sender, text);
  }

  lemma InboxLineRoundTrip(sender: string, createdAt: string, text: string)
    requires Word(sender) && Word(createdAt) && '\n' !in text
    ensures ClientParse(InboxLine(sender, createdAt, text)) == ShownInbox(sender, createdAt, " " + text)
  {
    assert Word("INBOX_MSG");
    ExtractSpaced("INBOX_MSG", Spaced(sender, Spaced(createdAt, text)));
    ExtractSpaced(sender, Spaced(createdAt, text));
    ExtractSpaced(createdAt, text);
  }

  lemma HistoryLineRoundTrip(sender: string, receiver: string, createdAt: string, text: string)
    requires Word(sender) && Word(receiver) && Word(createdAt) && '\n' !in text
    ensures ClientParse(HistoryLine(sender, receiver, createdAt, text))
         == ShownHistory(sender, receiver, createdAt, " " + text)
  {
    assert Word("HIST");
    ExtractSpaced("HIST", Spaced(sender, Spaced(receiver, Spaced(createdAt, text))));
    ExtractThree(sender, receiver, createdAt, text);
  }

  lemma UserLineRoundTrip(login: string, status: string, role: string, lastSeen: string)
    requires Word(login) && Word(status) && Word(role) && SpaceFree(lastSeen)
    ensures ClientParse(UserLine(login, status, role, lastSeen)) == ShownUser(login, status, role, lastSeen)
  {
    assert Word("USER");
    ExtractSpaced("USER", Spaced(login, Spaced(status, Spaced(role, lastSeen))));
    ExtractThree(login, status, role, lastSeen);
    ExtractLast(lastSeen);
  }

  lemma ExtractThree(a: string, b: string, c: string, rest: string)
    requires Word(a) && Word(b) && Word(c)
    ensures var first := Extract(" " + Spaced(a, Spaced(b, Spaced(c, rest))));
            var second := Extract(first.rest);
            first.word == a && second.word == b && Extract(second.rest) == Extraction(c, " " + rest)
  {
    ExtractSpaced(a, Spaced(b, Spaced(c, rest)));
    ExtractSpaced(b, Spaced(c, rest));
    ExtractSpaced(c, rest);
  }

  lemma ExtractLast(word: string)
    requires SpaceFree(word)
    ensures Extract(" " + word).word == word
  {
    assert (" " + word)[1..] == word;
    if word != "" {
      ExtractWord(word, "");
      assert word + "" == word;
    }
  }
}
