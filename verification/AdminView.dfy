/**
 From the message table to the admin window: what the server answers to the
 window's request, what pushes may arrive in between, and what the window shows.
 */
module AdminView {
  import opened Lines
  import opened CommandLines
  import opened Tables
  import opened Chat
  import opened ChatSafety
  import opened ResponseText
  import opened ChatDelivery
  import opened AdminWindow

  /** A stored message as the window should show it. */
  function RowFor(t: Tables, m: StoredMessage): Row
    requires m.sender in t.users && m.receiver in t.users
  {
    Row(t.users[m.sender].login, t.users[m.receiver].login, m.createdAt, m.text)
  }

  /** The messages at the listed places, in that order, at most `limit` of them. */
  function Listed(t: Tables, places: seq<nat>, limit: nat): seq<Row>
    requires Valid(t)
  {
    if places == [] || limit == 0 then []
    else if places[0] < |t.messages| then
      [RowFor(t, t.messages[places[0]])] + Listed(t, places[1..], limit - 1)
    else Listed(t, places[1..], limit)
  }

  function Texts(lines: seq<Line>): seq<string> {
    if lines == [] then [] else [Text(lines[0])] + Texts(lines[1..])
  }

  lemma {:induction false} ListedLines(t: Tables, places: seq<nat>, limit: nat)
    requires Valid(t) && StoredDataIsClean(t)
    ensures Texts(QueryRows(t, Everything, places, limit)) == RowLines(Listed(t, places, limit))
    ensures forall r | r in Listed(t, places, limit) :: Separable(r)
    decreases |places|
  {
    if places != [] && limit > 0 {
      if places[0] < |t.messages| {
        var m := t.messages[places[0]];
        ListedLines(t, places[1..], limit - 1);
        ConsTexts(RowOf(t, Everything, m), QueryRows(t, Everything, places[1..], limit - 1));
        ConsRows(RowFor(t, m), Listed(t, places[1..], limit - 1));
        Auth.ValidLoginIsOneWord(t.users[m.sender].login);
        Auth.ValidLoginIsOneWord(t.users[m.receiver].login);
      } else {
        ListedLines(t, places[1..], limit);
      }
    }
  }

  lemma ConsTexts(line: Line, lines: seq<Line>)
    ensures Texts([line] + lines) == [Text(line)] + Texts(lines)
  {
    assert ([line] + lines)[1..] == lines;
  }

  lemma ConsRows(row: Row, rows: seq<Row>)
    ensures RowLines([row] + rows) == [RowLine(row)] + RowLines(rows)
  {
    assert ([row] + rows)[1..] == rows;
  }

  lemma {:induction false} TextsAppend(a: seq<Line>, b: seq<Line>)
    ensures Texts(a + b) == Texts(a) + Texts(b)
  {
    if a == [] {
      assert a + b == b;
    } else {
      assert (a + b)[1..] == a[1..] + b;
      TextsAppend(a[1..], b);
    }
  }

  // ----- the request

  /** The line that asks for `n` messages. */
  function Request(n: nat): string {
    Spaced("ALL_MESSAGES", Decimal(n))
  }

  /** Every request in the range of an int is understood as what it asks for. */
  lemma RequestIsUnderstood(n: nat)
    requires n <= MAX_INT
    ensures ParseCommand(Request(n)) == AllMessages(n) && ListsMessages(Request(n))
  {
    AllMessagesLines(n);
    assert Request(n)[..12] == "ALL_MESSAGES";
  }

  /** The line the window sends is such a request. */
  lemma WindowCommand()
    ensures Request(200) == "ALL_MESSAGES 200"
  {
    assert Decimal(2) == "2";
    assert Decimal(20) == Decimal(2) + "0" == "20";
    assert Decimal(200) == Decimal(20) + "0" == "200";
  }

  // ----- the reply

  lemma MarkerTexts()
    ensures Text(AllMessagesBegin) == "ALL_MESSAGES_BEGIN" && Text(AllMessagesEnd) == END
  {
  }

  /** The answer, line by line: the begin marker, a row for each listed message, the end marker. */
  lemma AnswerTexts<H>(w: World<H>, h: H, limit: int, env: Env<H>)
    requires Valid(w.db) && StoredDataIsClean(w.db) && h in w.handlers && MayModerate(w, h, env) && env.upNext
    ensures Texts(Answer(w, h, AllMessages(limit), env))
         == ["ALL_MESSAGES_BEGIN"] + RowLines(Listed(w.db, env.rows, ClampLimit(limit))) + [END]
  {
    var rows := QueryRows(w.db, Everything, env.rows, ClampLimit(limit));
    assert Answer(w, h, AllMessages(limit), env) == [AllMessagesBegin] + rows + [AllMessagesEnd];
    ListedLines(w.db, env.rows, ClampLimit(limit));
    FramedTexts(rows);
  }

  lemma FramedTexts(rows: seq<Line>)
    ensures Texts([AllMessagesBegin] + rows + [AllMessagesEnd]) == ["ALL_MESSAGES_BEGIN"] + Texts(rows) + [END]
  {
    MarkerTexts();
    TextsAppend([AllMessagesBegin] + rows, [AllMessagesEnd]);
    ConsTexts(AllMessagesBegin, rows);
    ConsTexts(AllMessagesEnd, []);
    assert [AllMessagesEnd] + [] == [AllMessagesEnd];
  }

  // ----- what reaches the window

  /** The texts that were sent to a handler's client with success, in order. */
  function TextsTo<H(==)>(log: seq<Sent<H>>, h: H): seq<string> {
    if log == [] then []
    else
      var e := log[|log| - 1];
      TextsTo(log[..|log| - 1], h) + (if e.to == h && e.ok then [Text(e.line)] else [])
  }

  /** All of the calls succeeded. */
  predicate AllSent<H>(log: seq<Sent<H>>) {
    forall i | 0 <= i < |log| :: log[i].ok
  }

  lemma TextsSnoc(front: seq<Line>, last: Line)
    ensures Texts(front + [last]) == Texts(front) + [Text(last)]
  {
    TextsAppend(front, [last]);
    OneText(last);
  }

  lemma OneText(line: Line)
    ensures Texts([line]) == [Text(line)]
  {
    assert [line][1..] == [];
  }

  /** The part of the log that a step adds. */
  function New<H>(w: World<H>, w': World<H>): seq<Sent<H>> {
    if |w.log| <= |w'.log| then w'.log[|w.log|..] else []
  }

  /** What answering with some lines adds to the log. */
  lemma {:induction false} AnswerReaches<H>(w: World<H>, h: H, lines: seq<Line>, env: Env<H>)
    ensures var w' := RespondAll(w, h, lines, env);
            && w.log <= w'.log
            && (AllSent(New(w, w')) ==> TextsTo(New(w, w'), h) == Texts(lines))
  {
    if lines != [] {
      var front, last := lines[..|lines| - 1], lines[|lines| - 1];
      var before := RespondAll(w, h, front, env);
      AnswerReaches(w, h, front, env);
      TextsSnoc(front, last);
      assert lines == front + [last];
      var added := New(w, RespondAll(w, h, lines, env));
      assert added[..|added| - 1] == New(w, before);
      assert added[|added| - 1] == Record(before, h, last, env);
      assert AllSent(added) ==> AllSent(added[..|added| - 1]) && added[|added| - 1].ok;
    }
  }

  /**
   In every command-level run from a clean store, when a moderator's request for
   `n` messages is handled and all its sends succeed: if the frames that reach the
   window are those of this step with any pushes in between, the window stops
   reading at the end of the answer, and its table shows exactly the listed
   messages, in order, each with its sender, receiver, time and text.
   */
  lemma WindowShowsStoredMessages<H>(init: World<H>, events: seq<Event<H>>, h: H, n: nat, env: Env<H>,
                                     body: seq<string>, tail: seq<string>)
    requires Init(init) && StoredDataIsClean(init.db) && Legal(init, events) && n <= MAX_INT
    requires var w := Reach(init, events);
             Valid(w.db) && Enabled(w, Frame(h, Request(n), env)) && MayModerate(w, h, env) && env.upNext
    ensures var w := Reach(init, events);
            var w' := After(w, Frame(h, Request(n), env));
            AllSent(New(w, w')) && WithoutPushes(body) + [END] == TextsTo(New(w, w'), h) ==>
              && Collected(Request(n), body + ([END] + tail)) == body + [END]
              && Table(body + [END]) == Listed(w.db, env.rows, ClampLimit(n))
  {
    var w := Reach(init, events);
    var w' := After(w, Frame(h, Request(n), env));
    RunKeepsTidy(init, events, true);
    RequestIsUnderstood(n);
    AnswerReaches(w, h, Answer(w, h, AllMessages(n), env), env);
    AnswerTexts(w, h, n, env);
    if AllSent(New(w, w')) && WithoutPushes(body) + [END] == TextsTo(New(w, w'), h) {
      var rows := Listed(w.db, env.rows, ClampLimit(n));
      ListedLines(w.db, env.rows, ClampLimit(n));
      SameFront(WithoutPushes(body), ["ALL_MESSAGES_BEGIN"] + RowLines(rows), END);
      ReplySurvivesInterleaving(Request(n), body, rows, tail);
    }
  }

  lemma SameFront(a: seq<string>, b: seq<string>, last: string)
    requires a + [last] == b + [last]
    ensures a == b
  {
    assert (a + [last])[..|a|] == a;
    assert (b + [last])[..|b|] == b;
  }
}
