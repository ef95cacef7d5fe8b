/**
 What the query commands show, from the frame to the lines sent: exactly the wanted
 messages at the listed places, in that order and up to the limit, each with the
 logins, the time and the text that are stored.
 */
module QueryEffects {
  import opened Lines
  import opened CommandLines
  import opened Tables
  import opened Chat
  import opened ChatSafety
  import opened FrameEffects

  // ----- which messages

  /** The first `limit` of the listed places that hold a wanted message. */
  function Wanted(t: Tables, places: seq<nat>, limit: nat, want: StoredMessage -> bool): seq<nat> {
    if places == [] || limit == 0 then []
    else if places[0] < |t.messages| && want(t.messages[places[0]]) then
      [places[0]] + Wanted(t, places[1..], limit - 1, want)
    else Wanted(t, places[1..], limit, want)
  }

  /** Only wanted messages are found, and not more than the limit. */
  lemma {:induction false} OnlyWanted(t: Tables, places: seq<nat>, limit: nat, want: StoredMessage -> bool)
    ensures var found := Wanted(t, places, limit, want);
            && |found| <= limit
            && forall i | 0 <= i < |found| ::
                 found[i] in places && found[i] < |t.messages| && want(t.messages[found[i]])
    decreases |places|
  {
    if places != [] && limit > 0 {
      OnlyWanted(t, places[1..], limit - 1, want);
      OnlyWanted(t, places[1..], limit, want);
    }
  }

  predicate InOrder(places: seq<nat>, before: (nat, nat) -> bool) {
    forall i, j | 0 <= i < j < |places| :: before(places[i], places[j])
  }

  /** Whatever order the places are listed in, the wanted ones are in that order too. */
  lemma {:induction false} KeepsOrder(t: Tables, places: seq<nat>, limit: nat, want: StoredMessage -> bool,
                                      before: (nat, nat) -> bool)
    requires InOrder(places, before)
    ensures InOrder(Wanted(t, places, limit, want), before)
    decreases |places|
  {
    if places != [] && limit > 0 {
      var p, rest := places[0], places[1..];
      assert forall i | 0 <= i < |rest| :: before(p, rest[i]);
      if p < |t.messages| && want(t.messages[p]) {
        KeepsOrder(t, rest, limit - 1, want, before);
        OnlyWanted(t, rest, limit - 1, want);
      } else {
        KeepsOrder(t, rest, limit, want, before);
      }
    }
  }

  /** With room for all of them, none is missing. */
  lemma {:induction false} NoneIsMissing(t: Tables, places: seq<nat>, limit: nat, want: StoredMessage -> bool, p: nat)
    requires |places| <= limit && p in places && p < |t.messages| && want(t.messages[p])
    ensures p in Wanted(t, places, limit, want)
  {
    if p != places[0] {
      if places[0] < |t.messages| && want(t.messages[places[0]]) {
        NoneIsMissing(t, places[1..], limit - 1, want, p);
      } else {
        NoneIsMissing(t, places[1..], limit, want, p);
      }
    }
  }

  /** The lines show exactly the stored messages at these places, each in the form `show` gives it. */
  ghost predicate Show(t: Tables, lines: seq<Line>, found: seq<nat>, show: (string, string, StoredMessage) -> Line)
    requires Valid(t)
  {
    && |lines| == |found| && (forall i | 0 <= i < |found| :: found[i] < |t.messages|)
    && forall i | 0 <= i < |found| ::
         var m := t.messages[found[i]];
         lines[i] == show(t.users[m.sender].login, t.users[m.receiver].login, m)
  }

  /** The query wants these messages and shows them like this. */
  ghost predicate Asks(t: Tables, q: Query, want: StoredMessage -> bool,
                       show: (string, string, StoredMessage) -> Line)
    requires Valid(t)
  {
    && (forall m :: Matches(q, m) == want(m))
    && forall i | 0 <= i < |t.messages| ::
         var m := t.messages[i];
         RowOf(t, q, m) == show(t.users[m.sender].login, t.users[m.receiver].login, m)
  }

  lemma {:induction false} RowsAre(t: Tables, q: Query, places: seq<nat>, limit: nat, want: StoredMessage -> bool,
                                   show: (string, string, StoredMessage) -> Line)
    requires Valid(t) && Asks(t, q, want, show)
    ensures Show(t, QueryRows(t, q, places, limit), Wanted(t, places, limit, want), show)
    decreases |places|
  {
    if places != [] && limit > 0 {
      var rest := places[1..];
      if places[0] < |t.messages| && want(t.messages[places[0]]) {
        RowsAre(t, q, rest, limit - 1, want, show);
        OneMoreRow(t, QueryRows(t, q, rest, limit - 1), Wanted(t, rest, limit - 1, want), places[0], show);
      } else {
        RowsAre(t, q, rest, limit, want, show);
      }
    }
  }

  lemma OneMoreRow(t: Tables, lines: seq<Line>, found: seq<nat>, p: nat, show: (string, string, StoredMessage) -> Line)
    requires Valid(t) && Show(t, lines, found, show) && p < |t.messages|
    ensures var m := t.messages[p];
            Show(t, [show(t.users[m.sender].login, t.users[m.receiver].login, m)] + lines, [p] + found, show)
  {
  }

  /** A list without its first elements. */
  function Dropped(all: seq<nat>, offset: int): seq<nat> {
    if offset <= 0 then all else if offset <= |all| then all[offset..] else []
  }

  /** The first elements of a list. */
  function Taken(all: seq<nat>, limit: nat): seq<nat> {
    if limit <= |all| then all[..limit] else all
  }

  /** The part of a list that a limit and an offset leave. */
  function Page(all: seq<nat>, offset: int, limit: nat): seq<nat> {
    Taken(Dropped(all, offset), limit)
  }

  /** Every wanted message of the listed places. */
  function AllWanted(t: Tables, places: seq<nat>, want: StoredMessage -> bool): seq<nat> {
    Wanted(t, places, |places|, want)
  }

  predicate IsWanted(t: Tables, p: nat, want: StoredMessage -> bool) {
    p < |t.messages| && want(t.messages[p])
  }

  lemma NextWanted(t: Tables, places: seq<nat>, want: StoredMessage -> bool)
    requires places != []
    ensures AllWanted(t, places, want)
         == (if IsWanted(t, places[0], want) then [places[0]] else []) + AllWanted(t, places[1..], want)
  {
    EnoughRoom(t, places[1..], |places|, want);
  }

  /** Skipping first and then limiting is the page of the whole. */
  lemma SkippedIsPage(t: Tables, q: Query, places: seq<nat>, offset: int, limit: nat, want: StoredMessage -> bool)
    requires forall m :: Matches(q, m) == want(m)
    ensures Wanted(t, Skipped(t, q, places, offset), limit, want) == Page(AllWanted(t, places, want), offset, limit)
  {
    FirstOnes(t, Skipped(t, q, places, offset), limit, want);
    SkippedDrops(t, q, places, offset, want);
  }

  lemma {:induction false} SkippedDrops(t: Tables, q: Query, places: seq<nat>, offset: int,
                                        want: StoredMessage -> bool)
    requires forall m :: Matches(q, m) == want(m)
    ensures AllWanted(t, Skipped(t, q, places, offset), want) == Dropped(AllWanted(t, places, want), offset)
    decreases |places|
  {
    if places != [] && offset > 0 {
      var p, rest := places[0], places[1..];
      NextWanted(t, places, want);
      if IsWanted(t, p, want) {
        assert Matches(q, t.messages[p]);
        SkippedDrops(t, q, rest, offset - 1, want);
        DropOne(p, AllWanted(t, rest, want), offset);
      } else {
        assert p < |t.messages| ==> !Matches(q, t.messages[p]);
        SkippedDrops(t, q, rest, offset, want);
        assert [] + AllWanted(t, rest, want) == AllWanted(t, rest, want);
      }
    }
  }

  lemma DropOne(p: nat, rest: seq<nat>, offset: int)
    requires offset > 0
    ensures Dropped([p] + rest, offset) == Dropped(rest, offset - 1)
  {
  }

  /** A limit that is never reached does not matter. */
  lemma {:induction false} EnoughRoom(t: Tables, places: seq<nat>, limit: nat, want: StoredMessage -> bool)
    requires |places| <= limit
    ensures Wanted(t, places, limit, want) == Wanted(t, places, |places|, want)
    decreases |places|
  {
    if places != [] {
      var rest := places[1..];
      EnoughRoom(t, rest, limit - 1, want);
      EnoughRoom(t, rest, limit, want);
      EnoughRoom(t, rest, |places|, want);
    }
  }

  /** A limit takes the first ones. */
  lemma {:induction false} FirstOnes(t: Tables, places: seq<nat>, limit: nat, want: StoredMessage -> bool)
    ensures Wanted(t, places, limit, want) == Taken(AllWanted(t, places, want), limit)
    decreases |places|
  {
    if places != [] && limit > 0 {
      NextWanted(t, places, want);
      if IsWanted(t, places[0], want) {
        FirstOnes(t, places[1..], limit - 1, want);
      } else {
        FirstOnes(t, places[1..], limit, want);
      }
    }
  }

  // ----- the queries

  /** The answer: a marker, the rows if the database is up, a marker; nothing else changes. */
  ghost predicate Listing<H>(w: World<H>, w': World<H>, h: H, first: Line, rows: seq<Line>, last: Line, env: Env<H>) {
    SameSessions(w, w') && w'.db == w.db && Answered(w, w', h, [first] + rows + [last], env)
  }

  ghost predicate NotLoggedIn<H>(w: World<H>, w': World<H>, h: H, env: Env<H>) {
    SameSessions(w, w') && w'.db == w.db && Answered(w, w', h, [NotAuth], env)
  }

  function ReceivedBy(user: int): StoredMessage -> bool {
    (m: StoredMessage) => m.receiver == user
  }

  function Inboxed(sender: string, receiver: string, m: StoredMessage): Line {
    InboxRow(sender, m.createdAt, m.text)
  }

  lemma InboxIs(t: Tables, user: int, places: seq<nat>)
    requires Valid(t)
    ensures Show(t, QueryRows(t, InboxOf(user), places, 100), Wanted(t, places, 100, ReceivedBy(user)), Inboxed)
  {
    RowsAre(t, InboxOf(user), places, 100, ReceivedBy(user), Inboxed);
  }

  /** The inbox: messages to the asking user, at most a hundred. */
  lemma InboxShowsReceived<H>(w: World<H>, h: H, env: Env<H>) returns (rows: seq<Line>)
    requires Inv(w) && Enabled(w, Frame(h, "INBOX", env))
    ensures var w', user := After(w, Frame(h, "INBOX", env)), w.handlers[h].userId;
            if !w.handlers[h].authed then NotLoggedIn(w, w', h, env)
            else
              && Listing(w, w', h, InboxBegin, rows, InboxEnd, env)
              && (if env.up then
                    Show(w.db, rows, Wanted(w.db, env.rows, 100, ReceivedBy(user)), Inboxed)
                  else rows == [])
  {
    InboxCommandLine("");
    var user := w.handlers[h].userId;
    rows := if env.up then QueryRows(w.db, InboxOf(user), env.rows, 100) else [];
    InboxIs(w.db, user, env.rows);
    AllAnswered(w, h, Answer(w, h, Inbox, env), env);
  }

  function Recounted(sender: string, receiver: string, m: StoredMessage): Line {
    HistoryRow(sender, receiver, m.createdAt, m.text)
  }

  /** Between two users, either way. */
  predicate Exchanged(m: StoredMessage, user: int, other: int) {
    (m.sender == user || m.receiver == user) && (m.sender == other || m.receiver == other)
    && (user == other ==> m.sender == m.receiver)
  }

  function ExchangedBy(user: int, other: int): StoredMessage -> bool {
    (m: StoredMessage) => Exchanged(m, user, other)
  }

  /** How many rows a limit allows. */
  predicate Clamped(limit: int, n: nat) {
    if limit <= 0 then n == 50 else if limit <= 500 then n == limit else n == 500
  }

  function HistoryCommand(target: string, limit: nat, offset: nat): string {
    Spaced("HISTORY", Spaced(target, Spaced(Decimal(limit), Decimal(offset))))
  }

  /**
   The history with a target: of the messages between the asking user and the account
   of the target, those after the offset and up to the limit.
   */
  lemma HistoryShowsBoth<H>(w: World<H>, h: H, target: string, limit: nat, offset: nat, env: Env<H>)
    returns (rows: seq<Line>, n: nat)
    requires Inv(w) && Word(target) && limit <= MAX_INT && offset <= MAX_INT
    requires Enabled(w, Frame(h, HistoryCommand(target, limit, offset), env))
    ensures var w' := After(w, Frame(h, HistoryCommand(target, limit, offset), env));
            var user := w.handlers[h].userId;
            && Clamped(limit, n)
            && if !w.handlers[h].authed then NotLoggedIn(w, w', h, env)
               else
                 && Listing(w, w', h, HistoryBegin, rows, HistoryEnd, env)
                 && (if target in w.db.ids && env.up && env.upNext then
                       var all := AllWanted(w.db, env.rows, ExchangedBy(user, w.db.ids[target]));
                       Show(w.db, rows, Page(all, offset, n), Recounted)
                     else rows == [])
  {
    HistoryLines(target, limit, offset);
    rows, n := HistoryAnswer(w, h, target, limit, offset, env);
    HistoryIsAnswered(w, h, HistoryCommand(target, limit, offset), target, limit, offset, env, rows);
  }

  lemma HistoryIsAnswered<H>(w: World<H>, h: H, frame: string, target: string, limit: int, offset: int, env: Env<H>,
                             rows: seq<Line>)
    requires Inv(w) && Enabled(w, Frame(h, frame, env)) && ParseCommand(frame) == History(target, limit, offset)
    requires w.handlers[h].authed ==>
               Answer(w, h, History(target, limit, offset), env) == [HistoryBegin] + rows + [HistoryEnd]
    ensures var w' := After(w, Frame(h, frame, env));
            if w.handlers[h].authed then Listing(w, w', h, HistoryBegin, rows, HistoryEnd, env)
            else NotLoggedIn(w, w', h, env)
  {
    AllAnswered(w, h, Answer(w, h, History(target, limit, offset), env), env);
  }

  /** The same for every limit and offset a command can carry, negative ones too. */
  lemma HistoryAnswer<H>(w: World<H>, h: H, target: string, limit: int, offset: int, env: Env<H>)
    returns (rows: seq<Line>, n: nat)
    requires Inv(w) && h in w.handlers
    ensures w.handlers[h].authed ==>
              Answer(w, h, History(target, limit, offset), env) == [HistoryBegin] + rows + [HistoryEnd]
    ensures Clamped(limit, n)
    ensures var user := w.handlers[h].userId;
            if target in w.db.ids && env.up && env.upNext then
              var all := AllWanted(w.db, env.rows, ExchangedBy(user, w.db.ids[target]));
              Show(w.db, rows, Page(all, offset, n), Recounted)
            else rows == []
  {
    var user := w.handlers[h].userId;
    n := ClampLimit(limit);
    if target in w.db.ids && env.up && env.upNext {
      var other := w.db.ids[target];
      var q, want := Between(user, other), ExchangedBy(user, other);
      rows := HistoryRows(w.db, user, other, env.rows, limit, offset);
      RowsAre(w.db, q, Skipped(w.db, q, env.rows, offset), n, want, Recounted);
      SkippedIsPage(w.db, q, env.rows, offset, n, want);
    } else {
      rows := [];
    }
  }

  // ----- users

  /** The listed ids that are accounts. */
  function Accounts(t: Tables, ids: seq<int>): seq<int> {
    if ids == [] then []
    else (if ids[0] in t.users then [ids[0]] else []) + Accounts(t, ids[1..])
  }

  /** The lines show exactly these accounts as they are stored. */
  predicate ShowUsers(t: Tables, lines: seq<Line>, ids: seq<int>) {
    && |lines| == |ids|
    && forall i | 0 <= i < |ids| ::
         && ids[i] in t.users
         && var u := t.users[ids[i]];
            lines[i] == UserRow(u.login, u.status, u.role, u.lastSeen)
  }

  lemma {:induction false} UserRowsAre(t: Tables, ids: seq<int>)
    ensures ShowUsers(t, UserRows(t, ids), Accounts(t, ids))
  {
    if ids != [] {
      UserRowsAre(t, ids[1..]);
    }
  }

  /** The list of users: every listed account with its stored status and role. */
  lemma ListShowsAccounts<H>(w: World<H>, h: H, env: Env<H>) returns (rows: seq<Line>)
    requires Inv(w) && Enabled(w, Frame(h, "LIST", env))
    ensures var w' := After(w, Frame(h, "LIST", env));
            if !w.handlers[h].authed then NotLoggedIn(w, w', h, env)
            else
              && Listing(w, w', h, UsersBegin, rows, UsersEnd, env)
              && (if env.up then ShowUsers(w.db, rows, Accounts(w.db, env.users)) else rows == [])
  {
    ListLine("");
    rows := if env.up then UserRows(w.db, env.users) else [];
    UserRowsAre(w.db, env.users);
    AllAnswered(w, h, Answer(w, h, List, env), env);
  }

  /** A request for all messages by somebody who does not moderate. */
  lemma AllMessagesNeedModerator<H>(w: World<H>, h: H, limit: nat, env: Env<H>)
    requires Inv(w) && limit <= MAX_INT && Enabled(w, Frame(h, Spaced("ALL_MESSAGES", Decimal(limit)), env))
    requires !Moderates(w, h, env)
    ensures TurnedAway(w, After(w, Frame(h, Spaced("ALL_MESSAGES", Decimal(limit)), env)), h, env)
  {
    AllMessagesLines(limit);
    AllMessagesAreRefused(w, h, Spaced("ALL_MESSAGES", Decimal(limit)), limit, env);
  }

  lemma AllMessagesAreRefused<H>(w: World<H>, h: H, frame: string, limit: int, env: Env<H>)
    requires Inv(w) && Enabled(w, Frame(h, frame, env)) && ParseCommand(frame) == AllMessages(limit)
    requires !Moderates(w, h, env)
    ensures TurnedAway(w, After(w, Frame(h, frame, env)), h, env)
  {
    ModeratesIff(w, h, env);
    AllAnswered(w, h, Answer(w, h, AllMessages(limit), env), env);
  }

  /** A line whose first word is no command is answered as unknown and does nothing. */
  lemma UnknownDoesNothing<H>(w: World<H>, h: H, frame: string, env: Env<H>)
    requires Inv(w) && Enabled(w, Frame(h, frame, env)) && Extract(frame).word !in KEYWORDS
    ensures var w' := After(w, Frame(h, frame, env));
            SameSessions(w, w') && w'.db == w.db && Answered(w, w', h, [UnknownCommand], env)
  {
    UnknownLines(frame);
    AllAnswered(w, h, Answer(w, h, Unknown, env), env);
  }
}
