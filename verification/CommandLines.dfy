/**
 The command lines of the protocol, word by word: what the server makes of every
 line that a client builds, and of every line whose first word is no command.
 */
module CommandLines {
  import opened Lines

  // ----- numbers

  predicate StartsWithDigit(s: string) {
    s != "" && '0' <= s[0] <= '9'
  }

  lemma {:induction false} DigitsBefore(s: string, rest: string)
    requires Digits(s) == |s| && !StartsWithDigit(rest)
    ensures Digits(s + rest) == |s|
  {
    if s == "" {
      assert s + rest == rest;
    } else {
      assert (s + rest)[1..] == s[1..] + rest;
      DigitsBefore(s[1..], rest);
    }
  }

  /**
   A number is read up to the first character that is no digit, with an optional
   sign; out of the range of an int, or without a digit, the default is taken.
   */
  lemma NumbersAreRead(n: nat, rest: string, fallback: int)
    requires !StartsWithDigit(rest)
    ensures ParseIntOrDefault(Decimal(n) + rest, fallback) == if n <= MAX_INT then n else fallback
    ensures ParseIntOrDefault("+" + (Decimal(n) + rest), fallback) == if n <= MAX_INT then n else fallback
    ensures ParseIntOrDefault("-" + (Decimal(n) + rest), fallback) == if n <= MAX_INT + 1 then 0 - n else fallback
    ensures ParseIntOrDefault(rest, fallback) == fallback
         || (rest != "" && (rest[0] == '-' || rest[0] == '+') && StartsWithDigit(rest[1..]))
  {
    var d := Decimal(n);
    var s := d + rest;
    DigitsBefore(d, rest);
    DigitsOfPrefix(d, |d|);
    assert s[0] == d[0] && '0' <= d[0] <= '9';
    assert s[..|d|] == d;
    assert ("+" + s)[1..] == s && ("-" + s)[1..] == s;
  }

  /** A decimal number is one word and is read back as itself. */
  lemma DecimalReadsBack(n: nat, fallback: int)
    requires n <= MAX_INT
    ensures Word(Decimal(n)) && ParseIntOrDefault(Decimal(n), fallback) == n
  {
    var s := Decimal(n);
    DigitsOfPrefix(s, |s|);
    NumbersAreRead(n, "", fallback);
    assert s + "" == s;
    forall i | 0 <= i < |s| ensures !IsSpace(s[i]) {
      assert '0' <= s[i] <= '9';
    }
  }

  // ----- white space

  /** Words are separated by any of the six white-space characters of the C locale. */
  lemma SixSeparators(word: string, c: char, rest: string)
    requires Word(word) && c in [' ', '\t', '\n', '\U{000B}', '\U{000C}', '\r']
    ensures Extract(word + ([c] + rest)) == Extraction(word, [c] + rest)
  {
    ExtractWord(word, [c] + rest);
  }

  // ----- commands with fields

  /** After the first word the next one is extracted, whatever it is. */
  lemma FirstWord(word: string, rest: string)
    requires Word(word)
    ensures Extract(Spaced(word, rest)) == Extraction(word, " " + rest)
    ensures Extract(word) == Extraction(word, "")
  {
    ExtractSpaced(word, rest);
    ExtractWord(word, "");
    assert word + "" == word;
  }

  lemma OneField(field: string)
    requires Word(field)
    ensures Extract(" " + field) == Extraction(field, "")
  {
    ExtractWord(field, "");
    assert field + "" == field;
  }

  lemma NoField()
    ensures Extract("") == Extraction("", "")
  {
  }

  lemma RegisterLine(login: string, pass: string)
    requires Word(login) && Word(pass)
    ensures ParseCommand(Spaced("REGISTER", Spaced(login, pass))) == Register(login, pass)
  {
    assert Word("REGISTER");
    FirstWord("REGISTER", Spaced(login, pass));
    ExtractSpaced(login, pass);
    OneField(pass);
  }

  lemma LoginLine(login: string, pass: string)
    requires Word(login) && Word(pass)
    ensures ParseCommand(Spaced("LOGIN", Spaced(login, pass))) == Login(login, pass)
  {
    assert Word("LOGIN");
    FirstWord("LOGIN", Spaced(login, pass));
    ExtractSpaced(login, pass);
    OneField(pass);
  }

  lemma BanLine(login: string)
    requires Word(login)
    ensures ParseCommand(Spaced("BAN", login)) == Ban(login)
  {
    assert Word("BAN");
    FirstWord("BAN", login);
    OneField(login);
  }

  lemma UnbanLine(login: string)
    requires Word(login)
    ensures ParseCommand(Spaced("UNBAN", login)) == Unban(login)
  {
    assert Word("UNBAN");
    FirstWord("UNBAN", login);
    OneField(login);
  }

  lemma KickLine(login: string)
    requires Word(login)
    ensures ParseCommand(Spaced("KICK", login)) == Kick(login)
  {
    assert Word("KICK");
    FirstWord("KICK", login);
    OneField(login);
  }

  /** The history of a user, with none, one or both of its numbers. */
  lemma HistoryLines(target: string, limit: nat, offset: nat)
    requires Word(target) && limit <= MAX_INT && offset <= MAX_INT
    ensures ParseCommand(Spaced("HISTORY", target)) == History(target, 50, 0)
    ensures ParseCommand(Spaced("HISTORY", Spaced(target, Decimal(limit)))) == History(target, limit, 0)
    ensures ParseCommand(Spaced("HISTORY", Spaced(target, Spaced(Decimal(limit), Decimal(offset)))))
         == History(target, limit, offset)
  {
    DecimalReadsBack(limit, 50);
    DecimalReadsBack(offset, 0);
    HistoryPlain(target);
    HistoryWith(target, Decimal(limit));
    HistoryWithBoth(target, Decimal(limit), Decimal(offset));
  }

  lemma HistoryOf(rest: string)
    ensures var target := Extract(rest);
            var limit := Extract(target.rest);
            CommandOf("HISTORY", rest)
            == History(target.word, ParseIntOrDefault(limit.word, 50), ParseIntOrDefault(Extract(limit.rest).word, 0))
  {
  }

  lemma HistoryParses(rest: string)
    ensures ParseCommand(Spaced("HISTORY", rest)) == CommandOf("HISTORY", " " + rest)
  {
    assert Word("HISTORY");
    ExtractSpaced("HISTORY", rest);
  }

  lemma HistoryPlain(target: string)
    requires Word(target)
    ensures ParseCommand(Spaced("HISTORY", target)) == History(target, 50, 0)
  {
    HistoryParses(target);
    HistoryOf(" " + target);
    OneField(target);
    NoField();
  }

  lemma HistoryWith(target: string, limit: string)
    requires Word(target) && Word(limit)
    ensures ParseCommand(Spaced("HISTORY", Spaced(target, limit))) == History(target, ParseIntOrDefault(limit, 50), 0)
  {
    HistoryParses(Spaced(target, limit));
    HistoryOf(" " + Spaced(target, limit));
    ExtractSpaced(target, limit);
    OneField(limit);
    NoField();
  }

  lemma HistoryWithBoth(target: string, limit: string, offset: string)
    requires Word(target) && Word(limit) && Word(offset)
    ensures ParseCommand(Spaced("HISTORY", Spaced(target, Spaced(limit, offset))))
         == History(target, ParseIntOrDefault(limit, 50), ParseIntOrDefault(offset, 0))
  {
    var rest := Spaced(target, Spaced(limit, offset));
    HistoryParses(rest);
    HistoryOf(" " + rest);
    ExtractSpaced(target, Spaced(limit, offset));
    ExtractSpaced(limit, offset);
    OneField(offset);
  }

  lemma AllMessagesOf(rest: string)
    ensures CommandOf("ALL_MESSAGES", rest) == AllMessages(ParseIntOrDefault(Extract(rest).word, 100))
  {
  }

  lemma AllMessagesPlain()
    ensures ParseCommand("ALL_MESSAGES") == AllMessages(100)
  {
    assert Word("ALL_MESSAGES");
    FirstWord("ALL_MESSAGES", "");
    AllMessagesOf("");
    NoField();
  }

  /** The request for all messages, with and without its number. */
  lemma AllMessagesLines(limit: nat)
    requires limit <= MAX_INT
    ensures ParseCommand("ALL_MESSAGES") == AllMessages(100)
    ensures ParseCommand(Spaced("ALL_MESSAGES", Decimal(limit))) == AllMessages(limit)
  {
    AllMessagesPlain();
    DecimalReadsBack(limit, 100);
    AllMessagesWith(Decimal(limit));
  }

  lemma AllMessagesWith(limit: string)
    requires Word(limit)
    ensures ParseCommand(Spaced("ALL_MESSAGES", limit)) == AllMessages(ParseIntOrDefault(limit, 100))
  {
    assert Word("ALL_MESSAGES");
    ExtractSpaced("ALL_MESSAGES", limit);
    AllMessagesOf(" " + limit);
    OneField(limit);
  }

  /** Commands without fields, whatever follows them on the line. */
  lemma LogoutLine(rest: string)
    ensures ParseCommand("LOGOUT") == ParseCommand(Spaced("LOGOUT", rest)) == Logout
  {
    assert Word("LOGOUT");
    FirstWord("LOGOUT", rest);
  }

  lemma ListLine(rest: string)
    ensures ParseCommand("LIST") == ParseCommand(Spaced("LIST", rest)) == List
  {
    assert Word("LIST");
    FirstWord("LIST", rest);
  }

  lemma InboxCommandLine(rest: string)
    ensures ParseCommand("INBOX") == ParseCommand(Spaced("INBOX", rest)) == Inbox
  {
    assert Word("INBOX");
    FirstWord("INBOX", rest);
  }

  // ----- every other line

  const KEYWORDS: set<string> := {
    "REGISTER", "LOGIN", "LOGOUT", "LIST", "INBOX", "MESSAGE", "HISTORY", "ALL_MESSAGES", "BAN", "UNBAN", "KICK"
  }

  /** A line is unknown exactly if its first word is none of the eleven. */
  lemma UnknownLines(frame: string)
    ensures ParseCommand(frame) == Unknown <==> Extract(frame).word !in KEYWORDS
  {
  }
}
