/**
 How the admin window reads a command's reply: it collects frames until an end
 marker and takes the `MSG` rows apart with split and join. The session is a
 logged-in one, so pushed `MESSAGE` lines may arrive between the reply's lines.
 */
module AdminWindow {
  import opened Options
  import opened Lines

  predicate StartsWith(s: string, prefix: string) {
    prefix <= s
  }

  predicate CommandFinished(command: string, line: string) {
    if StartsWith(command, "LIST") then line == "USERS_END"
    else if StartsWith(command, "ALL_MESSAGES") then line == "ALL_MESSAGES_END"
    else line == "OK" || StartsWith(line, "ERROR_") || StartsWith(line, "UNKNOWN_CMD")
  }

  /** The reply loop over the frames that arrive before the connection ends or times out. */
  method CollectReply(command: string, frames: seq<string>) returns (response: seq<string>)
    ensures response <= frames
    ensures forall i | 0 <= i < |response| - 1 :: !CommandFinished(command, response[i])
    ensures response == frames || (response != [] && CommandFinished(command, response[|response| - 1]))
    ensures response == Collected(command, frames)
  {
    response := [];
    while |response| < |frames|
      invariant response <= frames
      invariant forall i | 0 <= i < |response| :: !CommandFinished(command, frames[i])
      invariant Collected(command, frames) == response + Collected(command, frames[|response|..])
    {
      var line := frames[|response|];
      var rest := frames[|response|..];
      assert rest[0] == line && rest[1..] == frames[|response| + 1..];
      response := response + [line];
      if CommandFinished(command, line) {
        break;
      }
      assert Collected(command, rest) == [line] + Collected(command, rest[1..]);
    }
  }

  function Collected(command: string, frames: seq<string>): seq<string> {
    if frames == [] then []
    else if CommandFinished(command, frames[0]) then [frames[0]]
    else [frames[0]] + Collected(command, frames[1..])
  }

  // ----- split and join

  function SpaceAt(s: string): (n: nat)
    ensures n <= |s| && ' ' !in s[..n] && (n < |s| ==> s[n] == ' ')
  {
    if s == "" || s[0] == ' ' then 0
    else
      var n := 1 + SpaceAt(s[1..]);
      assert s[..n] == [s[0]] + s[1..][..n - 1];
      n
  }

  /** `split(' ', Qt::KeepEmptyParts)`. */
  function Split(s: string): (parts: seq<string>)
    ensures parts != []
    ensures forall p | p in parts :: ' ' !in p
    decreases |s|
  {
    var n := SpaceAt(s);
    if n == |s| then [s] else [s[..n]] + Split(s[n + 1..])
  }

  function JoinParts(parts: seq<string>): string {
    if parts == [] then ""
    else if |parts| == 1 then parts[0]
    else Spaced(parts[0], JoinParts(parts[1..]))
  }

  lemma {:induction false} JoinSplit(s: string)
    ensures JoinParts(Split(s)) == s
    decreases |s|
  {
    var n := SpaceAt(s);
    if n < |s| {
      JoinSplit(s[n + 1..]);
      JoinCons(s[..n], Split(s[n + 1..]));
      CutAtSpace(s, n);
    }
  }

  lemma JoinCons(part: string, parts: seq<string>)
    requires parts != []
    ensures JoinParts([part] + parts) == Spaced(part, JoinParts(parts))
  {
    assert ([part] + parts)[1..] == parts;
  }

  lemma CutAtSpace(s: string, n: nat)
    requires n < |s| && s[n] == ' '
    ensures s == Spaced(s[..n], s[n + 1..])
  {
  }

  lemma {:induction false} SpaceAtWord(word: string, rest: string)
    requires ' ' !in word
    ensures SpaceAt(Spaced(word, rest)) == |word|
  {
    if word != "" {
      SpaceAtWord(word[1..], rest);
      assert Spaced(word, rest)[1..] == Spaced(word[1..], rest);
    }
  }

  lemma SplitSpaced(word: string, rest: string)
    requires ' ' !in word
    ensures Split(Spaced(word, rest)) == [word] + Split(rest)
  {
    SpaceAtWord(word, rest);
    var s := Spaced(word, rest);
    assert s[..|word|] == word;
    assert s[|word| + 1..] == rest;
  }

  // ----- rows

  datatype Row = Row(sender: string, receiver: string, createdAt: string, text: string)

  /** The line `handleAllMessages` sends for a stored message. */
  function RowLine(r: Row): string {
    Spaced("MSG", Spaced(r.sender, Spaced(r.receiver, Spaced(r.createdAt, r.text))))
  }

  /** One line of the reply: a row of the table, or nothing. */
  function ParseRow(line: string): Option<Row> {
    if !StartsWith(line, "MSG ") then None
    else
      var parts := Split(line);
      if |parts| < 5 then None
      else Some(Row(parts[1], parts[2], parts[3], JoinParts(parts[4..])))
  }

  predicate Separable(r: Row) {
    ' ' !in r.sender && ' ' !in r.receiver && ' ' !in r.createdAt
  }

  lemma SplitRowLine(r: Row)
    requires Separable(r)
    ensures Split(RowLine(r)) == ["MSG", r.sender, r.receiver, r.createdAt] + Split(r.text)
  {
    assert ' ' !in "MSG";
    SplitSpaced("MSG", Spaced(r.sender, Spaced(r.receiver, Spaced(r.createdAt, r.text))));
    SplitSpaced(r.sender, Spaced(r.receiver, Spaced(r.createdAt, r.text)));
    SplitSpaced(r.receiver, Spaced(r.createdAt, r.text));
    SplitSpaced(r.createdAt, r.text);
    FourThen("MSG", r.sender, r.receiver, r.createdAt, Split(r.text));
  }

  lemma FourThen(a: string, b: string, c: string, d: string, rest: seq<string>)
    ensures [a] + ([b] + ([c] + ([d] + rest))) == [a, b, c, d] + rest
  {
  }

  lemma SameHead(x: string, xs: seq<string>, y: string, ys: seq<string>)
    requires [x] + xs == [y] + ys
    ensures x == y && xs == ys
  {
    assert ([x] + xs)[0] == x && ([y] + ys)[0] == y;
    assert ([x] + xs)[1..] == xs && ([y] + ys)[1..] == ys;
  }

  lemma RowLineStart(r: Row)
    ensures StartsWith(RowLine(r), "MSG ")
  {
    var line := RowLine(r);
    assert line[..4] == "MSG ";
  }

  /**
   A record comes back unchanged exactly when its two logins and its timestamp
   have no space; the text may be anything.
   */
  lemma RowRoundTrip(r: Row)
    ensures ParseRow(RowLine(r)) == Some(r) <==> Separable(r)
  {
    RowLineStart(r);
    if Separable(r) {
      SplitRowLine(r);
      var parts := Split(RowLine(r));
      assert parts[4..] == Split(r.text);
      JoinSplit(r.text);
    }
  }

  // ----- the whole reply, with pushes in between

  predicate IsPush(line: string) {
    StartsWith(line, "MESSAGE ")
  }

  /** A request for messages; its reply ends with one line only. */
  predicate ListsMessages(command: string) {
    StartsWith(command, "ALL_MESSAGES")
  }

  lemma OneEndMarker(command: string, line: string)
    requires ListsMessages(command)
    ensures CommandFinished(command, line) <==> line == END
  {
    assert command[0] == "ALL_MESSAGES"[0] == 'A' && "LIST"[0] == 'L';
  }

  lemma PushIsNeutral(line: string)
    requires IsPush(line)
    ensures ParseRow(line) == None && line != END
  {
    assert line[..8] == "MESSAGE ";
    assert line[0] == 'M' && line[1] == 'E' && "MSG "[1] == 'S' && END[0] == 'A';
  }

  function WithoutPushes(lines: seq<string>): seq<string> {
    if lines == [] then []
    else (if IsPush(lines[0]) then [] else [lines[0]]) + WithoutPushes(lines[1..])
  }

  function RowLines(rows: seq<Row>): seq<string> {
    if rows == [] then [] else [RowLine(rows[0])] + RowLines(rows[1..])
  }

  /** The table that is filled from the collected lines. */
  function Table(lines: seq<string>): seq<Row> {
    if lines == [] then []
    else
      var row := ParseRow(lines[0]);
      (if row.Some? then [row.value] else []) + Table(lines[1..])
  }

  const END := "ALL_MESSAGES_END"

  method FillTable(lines: seq<string>) returns (table: seq<Row>)
    ensures table == Table(lines)
  {
    table := [];
    for i := 0 to |lines|
      invariant Table(lines) == table + Table(lines[i..])
    {
      assert lines[i..][0] == lines[i] && lines[i..][1..] == lines[i + 1..];
      if StartsWith(lines[i], "MSG ") {
        var parts := Split(lines[i]);
        if |parts| >= 5 {
          table := table + [Row(parts[1], parts[2], parts[3], JoinParts(parts[4..]))];
        }
      }
    }
  }

  lemma {:induction false} RowsSurvivePushes(lines: seq<string>, rows: seq<Row>)
    requires forall r | r in rows :: Separable(r)
    requires WithoutPushes(lines) == RowLines(rows)
    ensures Table(lines + [END]) == rows
    ensures forall i | 0 <= i < |lines| :: lines[i] != END
    decreases |lines|
  {
    if lines == [] {
      EndMarker();
      assert lines + [END] == [END];
      assert rows == [];
    } else {
      var line, rest := lines[0], lines[1..];
      assert (lines + [END])[1..] == rest + [END];
      if IsPush(line) {
        PushIsNeutral(line);
        RowsSurvivePushes(rest, rows);
      } else {
        SameHead(line, WithoutPushes(rest), RowLine(rows[0]), RowLines(rows[1..]));
        RowRoundTrip(rows[0]);
        RowIsNotTheEnd(rows[0]);
        RowsSurvivePushes(rest, rows[1..]);
      }
    }
  }

  /** The loop stops at the first finishing line and takes nothing after it. */
  lemma {:induction false} CollectedStops(command: string, lines: seq<string>, last: string, tail: seq<string>)
    requires forall i | 0 <= i < |lines| :: !CommandFinished(command, lines[i])
    requires CommandFinished(command, last)
    ensures Collected(command, lines + ([last] + tail)) == lines + [last]
    decreases |lines|
  {
    if lines == [] {
      assert lines + ([last] + tail) == [last] + tail;
    } else {
      CollectedStops(command, lines[1..], last, tail);
      assert (lines + ([last] + tail))[1..] == lines[1..] + ([last] + tail);
    }
  }

  lemma EndMarker()
    ensures ParseRow(END) == None
  {
    assert "MSG "[0] != END[0];
  }

  lemma BeginMarker()
    ensures "ALL_MESSAGES_BEGIN" != END && ParseRow("ALL_MESSAGES_BEGIN") == None
  {
    assert "MSG "[0] != "ALL_MESSAGES_BEGIN"[0];
  }

  lemma RowIsNotTheEnd(r: Row)
    ensures RowLine(r) != END
  {
    RowLineStart(r);
    assert RowLine(r)[0] == 'M';
  }

  /**
   Whatever pushes arrive in between, the collection stops exactly at the end
   marker, leaves the later frames alone, and the table shows exactly the
   server's records in order.
   */
  lemma ReplySurvivesInterleaving(command: string, body: seq<string>, rows: seq<Row>, tail: seq<string>)
    requires ListsMessages(command)
    requires forall r | r in rows :: Separable(r)
    requires WithoutPushes(body) == ["ALL_MESSAGES_BEGIN"] + RowLines(rows)
    ensures Collected(command, body + ([END] + tail)) == body + [END]
    ensures Table(body + [END]) == rows
  {
    BodySurvives(body, rows);
    forall i | 0 <= i < |body| ensures !CommandFinished(command, body[i]) {
      OneEndMarker(command, body[i]);
    }
    OneEndMarker(command, END);
    CollectedStops(command, body, END, tail);
  }

  lemma {:induction false} BodySurvives(body: seq<string>, rows: seq<Row>)
    requires forall r | r in rows :: Separable(r)
    requires WithoutPushes(body) == ["ALL_MESSAGES_BEGIN"] + RowLines(rows)
    ensures Table(body + [END]) == rows
    ensures forall i | 0 <= i < |body| :: body[i] != END
    decreases |body|
  {
    var line, rest := body[0], body[1..];
    assert (body + [END])[1..] == rest + [END];
    if IsPush(line) {
      PushIsNeutral(line);
      BodySurvives(rest, rows);
    } else {
      SameHead(line, WithoutPushes(rest), "ALL_MESSAGES_BEGIN", RowLines(rows));
      RowsSurvivePushes(rest, rows);
      BeginMarker();
    }
  }

  // ----- the verdict of a moderation command

  /** The window takes a ban, unban or kick for done if the first collected line is "OK". */
  predicate ReportsSuccess(response: seq<string>) {
    response != [] && response[0] == "OK"
  }

  /**
   A moderation command that the server has answered with OK is reported as done
   exactly when no push arrived before the answer.
   */
  lemma VerdictNeedsQuietLine(command: string, login: string, pushes: seq<string>, tail: seq<string>)
    requires command == "BAN " + login || command == "UNBAN " + login || command == "KICK " + login
    requires forall i | 0 <= i < |pushes| :: IsPush(pushes[i])
    ensures var response := Collected(command, pushes + (["OK"] + tail));
            response == pushes + ["OK"] && (ReportsSuccess(response) <==> pushes == [])
  {
    assert command[0] == 'B' || command[0] == 'U' || command[0] == 'K';
    forall i | 0 <= i < |pushes| ensures !CommandFinished(command, pushes[i]) && pushes[i] != "OK" {
      assert pushes[i][..8] == "MESSAGE ";
      assert pushes[i][0] == 'M';
    }
    CollectedStops(command, pushes, "OK", tail);
  }
}
