# A verified model of the chat server

The repository is a chat server with a console client and an admin window. Many
handler threads share a user table, a message table, an audit log and a registry
of sessions; they talk to their clients in length-prefixed frames that carry
lines of text. This project models that core in Dafny and proves what holds over
whole runs of it: facts that no single function enforces.

`dafny verify dfyconfig.toml` checks everything.

## How it is organised

| file | models |
|---|---|
| `Framing.dfy` | the frame format as mathematics: encoding, "the next frame of a stream", streams of frames |
| `FrameDecoder.dfy` | the incremental decoder object, the encoder over byte arrays, every sequence of decoder calls |
| `FrameIO.dfy` | a socket with an arbitrary chunk schedule, both versions of `sendAll`, `sendFrame` and `receiveFrame` |
| `ConcurrentWriters.dfy`, `WriterSafety.dfy` | any number of threads in `sendResponse` on one socket, step by step, and what their peer reads |
| `Counting.dfy`, `Options.dfy` | sums over sequences, for the two pools; a value that may be missing |
| `ConnectionPool.dfy`, `PoolSafety.dfy`, `PoolEffects.dfy`, `DatabaseCalls.dfy`, `CallSafety.dfy` | the database connection pool: mutex, condition variable, leases and their moves; what every interleaving keeps; what each operation brings about; and threads that use it as the `Database` methods do |
| `ThreadPool.dfy` | the worker pool with its draining destructor |
| `Lines.dfy`, `AdminWindow.dfy`, `ResponseText.dfy` | the text lines: how they are built, and how server, client and admin window read them |
| `CommandLines.dfy`, `ClientView.dfy` | every command line as the server takes it, and every answer as the client and the admin window take it |
| `AdminView.dfy` | the way of stored messages through the server's answer into the admin window's table |
| `Auth.dfy` | the login and password policy |
| `Registry.dfy` | the session lists, for both views of the server |
| `Tables.dfy`, `TransactionLaws.dfy` | the database as three tables and one atomic transaction for each `Database` method, and what each means for the rows |
| `Chat.dfy` | the server at command level: one client command is one step |
| `ChatSafety.dfy`, `ChatEffects.dfy`, `ChatDelivery.dfy`, `OfferedOnce.dfy` | what every command-level run keeps, what each command brings about, what is sent, and to whom each message is offered |
| `FrameEffects.dfy`, `QueryEffects.dfy` | what each frame brings about, from the text a client sends to tables, sessions, sockets and lines sent, and what the queries show |
| `Database.dfy`, `ClientHandler.dfy` | the `Database`, `SessionRegistry` and `ClientHandler` objects with their fields and loops, each method proved to do what `Tables.dfy` and `Chat.dfy` say, under any schedule of the handlers' loops |
| `Interleaving.dfy`, `InterleavingSafety.dfy`, `InterleavingEffects.dfy`, `OnlineStatus.dfy`, `BanReach.dfy`, `BannedActions.dfy`, `Runs.dfy`, `BanRace.dfy` | the server with its threads interleaved: one transaction, one registry section or one socket shutdown is one step |
| `Serial.dfy` | the two views compared: every command-level run is one of the interleavings |

The command-level and the interleaved server are two views of the same code, and
every run of the first is one of the second (`CommandRunsAreInterleavings`). In the
first, a banned user never has an open session; in the second that is false, and
the project says how it fails and what remains true.

## What the code does not give

Where the code does not keep a property that one might expect, the model follows
the code, and the project holds an input or a run that shows the failure and a
statement of when the property does hold.

- A payload of 2^32 bytes or more is announced with a truncated length
  (`HeaderTruncationLosesPayload`); a frame reads back exactly when it is below
  that and within the reader's limit (`FrameRoundTrip`).
- A send that fails inside a frame leaves a torn frame, and the connection goes
  on: a later frame is then decoded as something nobody sent
  (`TornFrameCorruptsTheStream`). The wire is in order exactly when no frame has
  been torn (`WritersLinearise`). With its header complete, a torn frame does no
  harm until as many bytes have followed as it still owes, and then takes these
  for its own (`DecodingAfterTear`); a torn header misleads as soon as four bytes
  are there (`TornHeaderCorruptsTheStream`).
- A thread that acquires a second connection while holding one can deadlock the
  pool (`NestedAcquireDeadlocks`). No `Database` method does that
  (`MethodsNeverNest`), so calls of these methods never deadlock
  (`DatabaseCallsNeverDeadlock`).
- A worker pool without workers joins without having run what it accepted
  (`NoWorkersNoDrain`); it drains exactly when it has a worker or was given
  nothing (`DestructorDrains`).
- A ban and its whole disconnect can run between a login's commit and the
  registration of its session, which then stays open for a banned user
  (`BanCanBeOutrun`); and an exception can unwind a moderator's thread between the
  ban and the disconnect (`BanCanBeAbandoned`). A ban reaches every session exactly
  when neither of these two steps occurs (`BansReachEverySession`).
- What is left of "banned users cannot act" when threads interleave: as long as no
  ban is outrun or abandoned, a handler of a banned user has lost its socket or is
  about to (`BannedHandlersAreOnTheWayOut`), and after that it acts at most on the
  one command it had read (`ShutHandlersActAtMostOnce`). That one command does get
  through: a moderator past the check can carry out a ban after their own
  (`BannedModeratorCanStillBan`).
- An exception inside `addSession` can leave a user with an empty list
  (`RegistrationCanFailHalfWay`), until the handler that made it cleans up
  (`RegistryAgreement`). No list is ever empty exactly when no registration throws
  after making the first list of its user (`NoEmptyLists`).
- An exception after a login's commit can leave a user online with nobody there
  (`OnlineCanBeOrphaned`). An online user is always accounted for exactly when no
  exception and no failed logout takes away the last handler that does so
  (`OnlineUsersAreJustified`).
- A second login of one handler as the same user leaves the user offline with a
  live session (`LoginTakesHold`).
- The admin window reads only the first collected line of a ban, unban or kick
  reply, so a pushed message before the answer makes a success look like a
  failure (`VerdictNeedsQuietLine`).

## Model

| member | source | states |
|---|---|---|
| Framing.HeaderRoundTrip | root/app/libs/tcp/src/Protocol.cpp:9-27 | the four header bytes of every 32-bit length read back as that length |
| Framing.HeaderInverse | root/app/libs/tcp/src/Protocol.cpp:9-27 | every four bytes are the header of the length they are read as |
| Framing.FrameRoundTrip | root/app/libs/tcp/src/Protocol.cpp:32-77 | a frame, whatever follows it, is read as its payload with exactly the rest left, if and only if the payload is within the limit and below 2^32 bytes |
| Framing.ReadyIsEncoding | root/app/libs/tcp/src/Protocol.cpp:54-77 | whatever is read as a frame is exactly the encoding of the payload returned, followed by the bytes that stay |
| Framing.VerdictIsStable | root/app/libs/tcp/src/Protocol.cpp:54-77 | more bytes never change a Ready or TooLarge verdict, and NeedMoreData means fewer than 4 + limit bytes |
| Framing.TornFrameIsIncomplete | root/app/libs/tcp/src/Protocol.cpp:54-77 | no strict prefix of a frame is taken for a frame |
| Framing.FramesOfWire | root/app/libs/tcp/src/Protocol.cpp:32-77 | a stream that starts with whole frames drains to their payloads in order and then to those of the rest |
| Framing.FramesAreEncodings | root/app/libs/tcp/src/Protocol.cpp:54-77 | on every byte stream, what draining consumes is exactly the encodings of what it returns |
| Framing.WireIsInjective | docs/protocol.md:5-14 | the framing is uniquely decodable: two payload lists with the same stream are the same list |
| Framing.HeaderTruncationLosesPayload | root/app/libs/tcp/src/Protocol.cpp:35-35 | a payload of 2^32 bytes is announced as empty and left in the stream |
| FrameDecoding.WriteBigEndian32 | root/app/libs/tcp/src/Protocol.cpp:21-27 | the value reads back from the first four array cells, the others are untouched |
| FrameDecoding.EncodeFrameArray | root/app/libs/tcp/src/Protocol.cpp:32-38 | the filled array is the encoding of the payload |
| FrameDecoding.FrameDecoder.Append | root/app/libs/tcp/src/Protocol.cpp:45-52 | the buffer grows by exactly the data, also when there is none |
| FrameDecoding.FrameDecoder.NextFrame | root/app/libs/tcp/src/Protocol.cpp:54-77 | the status, the payload and the new buffer are those of the first frame of the buffered stream; without one the buffer stays and the payload is empty |
| FrameDecoding.BytesAreConserved | root/app/libs/tcp/src/Protocol.cpp:45-77 | after every sequence of appends and reads, the frames handed out re-encoded, followed by the buffer, are the data of the appends in order |
| FrameDecoding.CallOrderDoesNotMatter | root/app/libs/tcp/src/Protocol.cpp:45-77 | what has come out followed by what is still to drain is independent of when the calls were made |
| FrameDecoding.ChunkingDoesNotMatter | root/app/libs/tcp/src/Protocol.cpp:32-77 | for every split of a stream into appends interleaved with reads, the Ready payloads are a prefix of the list, TooLarge is never reported, and draining the whole stream gives the list and an empty buffer |
| FrameDecoding.OversizeIsAbsorbing | root/app/libs/tcp/src/Protocol.cpp:45-77 | after TooLarge every later sequence of appends and reads consumes nothing and keeps reporting TooLarge |
| FrameDecoding.BufferingIsBounded | root/app/libs/tcp/src/Protocol.cpp:54-77 | a drained buffer is stuck on an oversized frame or holds fewer than 4 + limit bytes |
| FrameIO.SendAll | root/app/libs/tcp/src/Protocol.cpp:89-102 | over every short-write schedule the loop ends, success has emitted all the data, failure a strict prefix |
| FrameIO.SendAllNative | root/app/libs/tcp/src/SocketOps.cpp:133-151 | the same over native handles; an invalid handle emits nothing |
| FrameIO.SendFrame | root/app/libs/tcp/src/Protocol.cpp:104-112 | an oversized payload is refused with nothing emitted; otherwise the emitted bytes are the frame or on failure a strict prefix of it |
| FrameIO.SendFrameNative | root/app/libs/tcp/src/SocketOps.cpp:153-161 | the same over native handles |
| FrameIO.ReceiveFrame | root/app/libs/tcp/src/Protocol.cpp:114-151 | over every short-read schedule Ok means the first frame of the stream, consumed exactly; without receive errors the status, payload and unread stream are those of the stream itself |
| FrameIO.ReceiveFrameNative | root/app/libs/tcp/src/SocketOps.cpp:163-203 | the same over native handles, where a stream that ends inside a body reads as closed; on the invalid handle the result is Error and nothing is consumed |
| FrameIO.Decode | root/app/libs/tcp/src/Protocol.cpp:45-77 | the decoder, fed in any chunks until it has a verdict, gives the verdict of the whole stream, with the same payload and the same bytes left |
| FrameIO.ReadThreeWays | root/app/libs/tcp/src/SocketOps.cpp:163-203 | the decoder and both blocking readers, run on one stream over any schedules, agree on whole frames, with payload and bytes left, and on oversized ones; the two readers differ exactly when the stream ends inside a body, Error against Closed |
| FrameIO.EndToEnd | root/app/libs/tcp/src/Protocol.cpp:89-151 | if every one of a sequence of sends emitted its frame, as many reads give the payloads in order, each consuming exactly its frame |
| FrameIO.Exchange | root/app/libs/tcp/src/Protocol.cpp:89-151 | in either version, sending payloads over one socket until a send fails and reading the other end until a read fails yields exactly the payloads whose sends succeeded, in order; after a complete transfer the last read says closed |
| FrameIO.FailedSendIsNotDelivered | root/app/libs/tcp/src/Protocol.cpp:89-151 | after a failed send the reader gets the earlier payloads and then no whole frame |
| WriterSafety.WritersLinearise | root/app/server/src/ClientHandler.cpp:93-97 | in every interleaving at most one thread writes; the wire is the encodings of completed payloads in lock order plus what the lock holder has written, if and only if no frame was torn; each thread's payloads are in its own order |
| WriterSafety.CallsWriteTheirOwnPayload | root/app/server/src/ClientHandler.cpp:93-97 | in every interleaving the completed payloads of a thread are those its successful calls were given, in the order of the calls, and a call in progress is sending its own |
| WriterSafety.PeerDecodesCompletedPayloads | root/app/libs/tcp/src/SocketOps.cpp:133-161 | for payloads below 2^32 bytes, the peer decodes exactly the completed payloads, and the holder's once its frame is complete |
| WriterSafety.TornFrameCorruptsTheStream | root/app/server/src/ClientHandler.cpp:93-97 | a run in which a peer decodes a payload that nobody sent |
| WriterSafety.DecodingAfterTear | root/app/libs/tcp/src/SocketOps.cpp:133-161 | in every run with a torn frame: with the header complete the peer decodes the payloads from before the tear until the owed bytes have followed, and then the front of the torn payload completed with these bytes; with the header torn, the payloads from before and then what the torn bytes make together with those that follow, nothing as long as these are fewer than four |
| WriterSafety.TornHeaderMisleads | root/app/libs/tcp/src/Protocol.cpp:54-77 | three bytes of a header followed by any frame below 2^24 bytes are decoded as an empty frame |
| WriterSafety.TornHeaderCorruptsTheStream | root/app/server/src/ClientHandler.cpp:93-97 | for every such payload a run in which it is sent after a torn header and the peer decodes an empty payload first |
| PoolSafety.StepConservesConnections | root/app/server/src/Database.cpp:40-67 | no step, lease moves included, creates, copies or loses a connection |
| PoolSafety.StepKeepsWakeups | root/app/server/src/Database.cpp:93-119 | while a thread sleeps, idle connections never exceed woken waiters plus pending notifies, also with spurious wakeups |
| PoolSafety.PoolIsSafe | root/app/server/src/Database.cpp:74-119 | in every interleaving each of the poolSize connections is in exactly one place, and no wakeup is lost |
| PoolSafety.LeasesAreExclusive | root/app/server/src/Database.cpp:40-67 | two leases never hold the same connection, and a leased connection is not idle |
| PoolEffects.AcquireTakesOldest | root/app/server/src/Database.cpp:93-100 | undisturbed, acquire gives a new lease with the connection that was returned first, or sleeps if none is idle |
| PoolEffects.DestroyReturns | root/app/server/src/Database.cpp:40-46 | undisturbed, destroying a lease puts its connection, if it has one, behind the idle ones and touches no other lease |
| PoolEffects.MoveHandsOver | root/app/server/src/Database.cpp:48-52 | a move construction hands the connection over and leaves the source empty, so that it will return nothing |
| PoolEffects.AssignmentHandsOver | root/app/server/src/Database.cpp:54-67 | undisturbed, a move assignment returns the target's connection, hands the source's over and leaves the source empty; an assignment to itself does nothing |
| PoolSafety.StuckOnlyIfSleepersHoldEverything | root/app/server/src/Database.cpp:93-119 | the only way to be stuck is that sleeping threads hold every connection |
| PoolSafety.WaitersNeverDeadlock | root/app/server/src/Database.cpp:93-119 | for any use of the pool in which no thread acquires while holding: whenever a thread sleeps another one has something to do |
| PoolSafety.PoolMakesProgress | root/app/server/src/Database.cpp:93-119 | under that discipline the pool can always move while a thread sleeps, and cannot move forever: a run is bounded by its acquires, lease moves and spurious wakeups |
| DatabaseCalls.MethodsNeverNest | root/app/server/src/Database.cpp:435-449 | with its calls carried out, no Database method acquires while it holds a connection, and none acquires more than twice |
| CallSafety.CallsAreDisciplined | root/app/server/src/Database.cpp:126-633 | every interleaving of any threads' calls of any Database methods is a run of the pool in which nobody acquires while holding |
| CallSafety.DatabaseCallsNeverDeadlock | root/app/server/src/Database.cpp:443-449 | in every such interleaving on a non-empty pool, as long as a thread is in a call, asleep or not, some thread can carry its call on |
| CallSafety.DatabaseCallsEnd | root/app/server/src/Database.cpp:93-119 | a run has at most seventeen moves for each call begun and two for each spurious wakeup |
| CallSafety.CallsEndOnceNoneBegin | root/app/server/src/Database.cpp:93-119 | wherever a run has led to, every continuation that begins no new calls and has no spurious wakeups is bounded, and when it can go no further no thread is in a call |
| PoolSafety.NestedAcquireDeadlocks | root/app/server/src/Database.cpp:93-100 | without the discipline there is a deadlock |
| ThreadPool.TasksStartOnceInOrder | root/app/libs/threading/src/ThreadPool.cpp:11-20 | at every moment the started tasks are a prefix of the accepted ones and the queue is the rest |
| ThreadPool.AcceptedAreSubmitted | root/app/libs/threading/src/ThreadPool.cpp:37-46 | the accepted tasks are exactly those enqueued before the shutdown was announced, in order |
| ThreadPool.DestructorDrains | root/app/libs/threading/src/ThreadPool.cpp:24-36 | after the join every accepted task has been started and has finished, if and only if there is a worker or nothing was accepted |
| ThreadPool.WorkIsNeverStuck | root/app/libs/threading/src/ThreadPool.cpp:5-46 | with a worker, queued work or an announced shutdown always lets the pool move |
| ThreadPool.EveryRunIsBounded | root/app/libs/threading/src/ThreadPool.cpp:5-46 | a run has a bounded number of steps for its workers, enqueues and spurious wakeups; so with the previous row, once nothing more is enqueued nobody sleeps with work queued or after the shutdown for ever |
| ThreadPool.NoWorkersNoDrain | root/app/libs/threading/src/ThreadPool.cpp:5-8 | a pool of no workers joins with an accepted task that never ran |
| Auth.ValidatePassword | root/app/server/src/Auth.cpp:8-28 | accepts exactly the passwords of at least ten characters with a letter and a digit |
| Auth.ValidLoginIsOneWord | root/app/server/src/Auth.cpp:30-40 | a valid login is one word of at most 50 characters for every line format |
| Lines.MessageCommandRoundTrip | root/app/server/src/ClientHandler.cpp:35-44 | a client-built MESSAGE line is parsed into exactly its recipient and text, if and only if the recipient is one word (or both are empty) and the text has no newline |
| CommandLines.RegisterLine | root/app/server/src/ClientHandler.cpp:341-347 | REGISTER followed by two words is a registration with exactly these |
| CommandLines.LoginLine | root/app/server/src/ClientHandler.cpp:348-354 | LOGIN followed by two words is a login with exactly these |
| CommandLines.BanLine | root/app/server/src/ClientHandler.cpp:387-392 | BAN followed by a word is a ban of it |
| CommandLines.UnbanLine | root/app/server/src/ClientHandler.cpp:393-398 | UNBAN followed by a word is an unban of it |
| CommandLines.KickLine | root/app/server/src/ClientHandler.cpp:399-404 | KICK followed by a word is a kick of it |
| CommandLines.HistoryLines | root/app/server/src/ClientHandler.cpp:373-380 | HISTORY takes its target and the decimals of limit and offset, 50 and 0 where they are missing |
| CommandLines.AllMessagesLines | root/app/server/src/ClientHandler.cpp:381-386 | ALL_MESSAGES takes the decimal of its limit, 100 if it is missing |
| CommandLines.LogoutLine | root/app/server/src/ClientHandler.cpp:355-358 | LOGOUT is a logout, whatever follows on the line |
| CommandLines.ListLine | root/app/server/src/ClientHandler.cpp:359-362 | LIST asks for the users, whatever follows |
| CommandLines.InboxCommandLine | root/app/server/src/ClientHandler.cpp:363-366 | INBOX asks for the inbox, whatever follows |
| CommandLines.UnknownLines | root/app/server/src/ClientHandler.cpp:338-408 | a line is an unknown command if and only if its first word is none of the eleven |
| CommandLines.NumbersAreRead | root/app/server/src/ClientHandler.cpp:46-60 | a number is read up to the first character that is no digit, with its sign; without a digit or outside the range of an int the fallback is taken |
| CommandLines.SixSeparators | root/app/server/src/ClientHandler.cpp:338-339 | any of the six white-space characters ends a word |
| Lines.PushLineRoundTrip | root/app/client/src/Client.cpp:258-265 | a pushed line comes apart into its sender and text |
| Lines.InboxLineRoundTrip | root/app/client/src/Client.cpp:245-253 | an inbox line comes apart into its fields, leading and inner spaces of the text kept |
| Lines.HistoryLineRoundTrip | root/app/client/src/Client.cpp:280-289 | a history line comes apart into its fields |
| Lines.UserLineRoundTrip | root/app/client/src/Client.cpp:223-236 | a user line comes apart into its fields, also without a last-seen time |
| ClientView.ClientUnderstands | root/app/client/src/Client.cpp:178-303 | every line of the server that the client has a branch for reaches exactly that branch, with its role or error text |
| AdminWindow.CollectReply | root/serverGUI/src/mainwindowserver.cpp:460-472 | the reply is the shortest prefix of the frames that ends with a finishing line, or all of them |
| AdminWindow.FillTable | root/serverGUI/src/mainwindowserver.cpp:192-207 | the table is filled with exactly the rows that the lines parse into |
| AdminWindow.JoinSplit | root/serverGUI/src/mainwindowserver.cpp:196-206 | joining what split produced, empty parts kept, gives back every string |
| AdminWindow.RowRoundTrip | root/serverGUI/src/mainwindowserver.cpp:192-207 | a record comes back from its MSG line if and only if its logins and timestamp have no space, whatever its text |
| AdminWindow.ReplySurvivesInterleaving | root/serverGUI/src/mainwindowserver.cpp:460-472 | with any MESSAGE pushes in between, collection stops exactly at the end marker and the table shows exactly the server's records in order |
| AdminWindow.VerdictNeedsQuietLine | root/serverGUI/src/mainwindowserver.cpp:251-273 | a ban, unban or kick answered OK is reported as done if and only if no push came before the answer |
| ClientView.WindowSeesVerdict | root/serverGUI/src/mainwindowserver.cpp:28-39 | every last line of a ban, unban or kick ends the window's reading, and it is read as success if and only if the command was carried out |
| ClientView.WindowReadsWholeList | root/serverGUI/src/mainwindowserver.cpp:28-39 | of the lines of a user list, and of pushes between them, only the end marker ends the reading |
| ClientView.WindowSplitsUserRow | root/serverGUI/src/mainwindowserver.cpp:127-142 | a row of the user list splits into login, status, role and the time last seen, also when that is missing |
| AdminView.RequestIsUnderstood | root/app/server/src/ClientHandler.cpp:381-386 | the request for n messages is parsed as such for every n in the range of an int |
| AdminView.WindowCommand | root/serverGUI/src/mainwindowserver.cpp:182-182 | the line the window sends is the request for two hundred |
| AdminView.WindowShowsStoredMessages | root/app/server/src/ClientHandler.cpp:238-251 | in every command-level run from a clean store, when a moderator's request is handled and its sends succeed: whatever pushes arrive between the frames that this step sent, the window stops at the end marker and its table shows exactly the listed stored messages in order, each with its sender, receiver, time and text |
| Tables.StatusLifeCycle | root/app/server/src/Database.cpp:178-283 | a transaction leaves an account with a status if and only if it is a login, logout, kick, ban or unban of that account that explains it, or the status was there and nothing explains another |
| Tables.BanHolds | root/app/server/src/Database.cpp:533-583 | through every history without an unban of the login, a banned user stays banned, cannot log in with any password and cannot be sent a message |
| Tables.AuditReplay | root/app/server/src/Database.cpp:635-654 | after every sequence of transactions, with any failures, replaying the ban and unban rows gives exactly the banned users; rows are never lost or changed |
| Tables.RegistrationOpensAnAccount | root/app/server/src/Database.cpp:178-216 | registration succeeds exactly for a valid unused login and a valid password, opens an ordinary account under a new id that can log in at once, and takes the login; a refusal leaves every row alone |
| Tables.UnbanUndoesBan | root/app/server/src/Database.cpp:533-583 | an unban after a ban gives back the tables except that the user is offline and both rows are on record |
| TransactionLaws.RegisterLaw | root/app/server/src/Database.cpp:178-216 | for all tables and arguments: when a registration succeeds, the one new account and audit row, and which reason is given otherwise |
| TransactionLaws.LoginLaw | root/app/server/src/Database.cpp:218-263 | when a login succeeds, the one account that becomes online and is seen now, the audit row, and the reason otherwise; a banned login is told so whatever the password |
| TransactionLaws.LogoutLaw | root/app/server/src/Database.cpp:265-283 | a logout makes exactly that account offline and last seen now, unless it is banned or the database is down, and leaves no trace elsewhere |
| TransactionLaws.SendLaw | root/app/server/src/Database.cpp:363-401 | when a message is stored, with exactly the sender, receiver, text and time given, and the reason otherwise |
| TransactionLaws.BanLaw | root/app/server/src/Database.cpp:533-557 | when a ban succeeds: that account alone is banned, one audit row names actor and target; the reason otherwise |
| TransactionLaws.UnbanLaw | root/app/server/src/Database.cpp:559-583 | the same for an unban, which needs a banned login and leaves it offline |
| TransactionLaws.KickLaw | root/app/server/src/Database.cpp:585-609 | the same for a kick, which needs an unbanned login, leaves it offline and last seen now and bans nobody |
| Databases.Database.RegisterUser | root/app/server/src/Database.cpp:178-216 | Ok if and only if login and password are valid, the login is free and the database is up; then exactly one new account and one audit row, everybody else untouched; otherwise every row is as it was; who is banned follows the audit rows |
| Databases.Database.LoginUser | root/app/server/src/Database.cpp:218-263 | Ok if and only if the login is known and not banned and the password right, Banned if and only if it is banned, whatever the password; on Ok that account alone becomes online, with one audit row; otherwise nothing changes |
| Databases.Database.LogoutUser | root/app/server/src/Database.cpp:265-283 | the account, if known and not banned, is offline; who is banned, the audit trail and all other accounts are as they were |
| Databases.Database.SendMessage | root/app/server/src/Database.cpp:363-401 | Ok if and only if the text can be stored, the receiver is known and not banned and the sender exists, banned or not; then exactly one new message, with the returned id; otherwise no row changes |
| Databases.Database.BanUser | root/app/server/src/Database.cpp:533-557 | Ok if and only if the login is known and the actor can be recorded; then the banned logins gain exactly that one and exactly one audit row is written; otherwise nothing changes |
| Databases.Database.UnbanUser | root/app/server/src/Database.cpp:559-583 | Ok if and only if the login is banned and the actor can be recorded; then the banned logins lose exactly that one, the account is offline and exactly one audit row is written; otherwise nothing changes |
| Databases.Database.KickUser | root/app/server/src/Database.cpp:585-609 | Ok if and only if the login is known and not banned and the actor can be recorded; then the account is offline, nobody is banned or freed and exactly one audit row is written; otherwise nothing changes |
| ChatSafety.CommandKeepsInv | root/app/server/src/ClientHandler.cpp:128-312 | every command keeps registry and handlers in agreement, keeps banned users' sockets shut and audits who is banned |
| ChatSafety.BannedUsersHaveNoOpenSession | root/app/server/src/ClientHandler.cpp:253-270 | in every command-level run each session registered for a banned user has a closed socket |
| ChatSafety.BannedUsersCannotAct | root/app/server/src/Database.cpp:363-401 | in every command-level run, with the operator changing roles in between, no message is stored and no ban, unban or kick performed in the name of a banned user, and moderation rows name an actor with the role stored at that moment |
| ChatSafety.AuditTellsWhoIsBanned | root/app/server/src/Database.cpp:533-609 | in every command-level run the audit rows replay to exactly the banned users |
| FrameEffects.RegisterTakesHold | root/app/server/src/ClientHandler.cpp:128-139 | a REGISTER frame has the effect of the registration on the tables, changes no session, and is answered with its result |
| FrameEffects.LoginFrameTakesHold | root/app/server/src/ClientHandler.cpp:141-158 | a LOGIN frame: on success the user is logged in, the old session of the handler, if any, is ended and its user logged out, and the handler stands last in the new user's list and in no other; otherwise no session changes; one answer either way |
| FrameEffects.LogoutTakesHold | root/app/server/src/ClientHandler.cpp:160-169 | a LOGOUT frame leaves the handler logged out with its socket as it was and in no list, its user offline and last seen now unless banned, every other handler, list and account as it was, and sends one LOGOUT_OK; without a session it only answers |
| FrameEffects.LeaveTakesHold | root/app/server/src/ClientHandler.cpp:299-312 | a handler that goes away leaves every list, and its user is logged out the same way; nothing is sent except the notice of an oversized frame |
| FrameEffects.AcceptTakesHold | root/app/server/src/Server.cpp:100-123 | a new connection is open and logged out, and can be read from at once |
| FrameEffects.MessageFrameTakesHold | root/app/server/src/ClientHandler.cpp:201-221 | a MESSAGE frame stores exactly its text for the account of its recipient, answers with the id and then offers the push to the receiver's sessions, or answers with the reason |
| FrameEffects.BanFrameTakesHold | root/app/server/src/ClientHandler.cpp:253-270 | a BAN frame of a moderator bans exactly that login under the moderator's name, tells and shuts exactly that user's sessions, each once and in order, and then answers OK; without the rights or with the transaction refused, nothing changes and the reason is answered |
| FrameEffects.UnbanFrameTakesHold | root/app/server/src/ClientHandler.cpp:272-280 | an UNBAN frame of a moderator frees exactly that login and leaves it offline, with its audit row, changes no session and answers OK; a login that is not banned changes nothing and is answered so |
| FrameEffects.KickFrameTakesHold | root/app/server/src/ClientHandler.cpp:282-297 | a KICK frame of a moderator leaves the user offline and nobody newly banned, tells and shuts exactly that user's sessions, and answers whether there was one; otherwise as for a ban |
| QueryEffects.InboxShowsReceived | root/app/server/src/Database.cpp:403-433 | an INBOX frame shows exactly the listed messages whose receiver is the asking user, at most a hundred, each with the stored sender, time and text, between its markers; nothing else changes |
| QueryEffects.HistoryShowsBoth | root/app/server/src/Database.cpp:435-476 | a HISTORY frame shows, of the listed messages between the asking user and the account of the target, those after the offset and up to the clamped limit |
| QueryEffects.HistoryAnswer | root/app/server/src/Database.cpp:435-476 | the same for every limit and offset, negative ones included |
| QueryEffects.OnlyWanted | root/app/server/src/Database.cpp:403-476 | the messages shown are wanted ones of the listed places, never more than the limit |
| QueryEffects.NoneIsMissing | root/app/server/src/Database.cpp:403-476 | and with room for all of them no wanted one is missing |
| QueryEffects.KeepsOrder | root/app/server/src/Database.cpp:403-476 | and they are shown in the order in which they are listed, whatever that is |
| QueryEffects.ListShowsAccounts | root/app/server/src/Database.cpp:335-361 | a LIST frame shows exactly the listed accounts, each with its stored status, role and time last seen |
| QueryEffects.AllMessagesNeedModerator | root/app/server/src/ClientHandler.cpp:238-251 | an ALL_MESSAGES frame from anybody else is refused and changes nothing |
| QueryEffects.UnknownDoesNothing | root/app/server/src/ClientHandler.cpp:405-408 | a frame that starts with no command word changes nothing and is answered UNKNOWN_CMD |
| ChatEffects.LoginTakesHold | root/app/server/src/ClientHandler.cpp:141-158 | a login succeeds exactly for a known, unbanned user with the right password, and then the handler stands last in that user's list and in no other; the user is online unless the handler's own old session was that user's and logged out; otherwise nothing changes |
| ChatEffects.RegisterAnswerIsTrue | root/app/server/src/ClientHandler.cpp:128-139 | REGISTER_OK is answered if and only if an account was opened |
| ChatEffects.MessageAnswerIsTrue | root/app/server/src/ClientHandler.cpp:201-214 | the sender is answered MESSAGE_OK if and only if the message was stored, and then with its id |
| ChatEffects.ModerationAnswerIsTrue | root/app/server/src/ClientHandler.cpp:253-297 | a ban, unban or kick is answered as carried out if and only if it left exactly one audit row |
| ChatEffects.QueriesShowOnlyOwnMessages | root/app/server/src/ClientHandler.cpp:186-251 | every row a query shows is a stored message, with its sender's and receiver's logins, that the asking user sent or received, unless the user's stored role is moderator or admin |
| ChatEffects.DemotionTakesHold | root/app/server/src/ClientHandler.cpp:109-126 | once the operator has taken a role away in the table, sessions that still carry it are refused every moderation command |
| ChatDelivery.StoredMessageIsOffered | root/app/server/src/ClientHandler.cpp:201-221 | a stored message is answered and then offered exactly once to each session its receiver has, in order |
| ChatDelivery.PushesAreStoredMessages | root/app/server/src/SessionRegistry.cpp:29-51 | in every command-level run each MESSAGE frame offered to a handler carries a message stored before, with its sender's login, while the handler is logged in as its receiver; no message is offered twice to one handler |
| OfferedOnce.EveryMessageIsOfferedOnce | root/app/server/src/ClientHandler.cpp:201-221 | in every command-level run, each message stored by a step is offered by the whole run to exactly the sessions its receiver had at that step, each once and in order, or to nobody if the receiver could not be looked up again |
| ChatDelivery.ResponsesFit | root/app/server/src/ClientHandler.cpp:128-297 | in every command-level run no line is longer than 4224 bytes, so no limit of at least that refuses one |
| ChatDelivery.StoredMessagesReadBack | root/app/server/src/Auth.cpp:30-40 | in every state reached from a clean store every login is valid and every text is one line of 1 to 4096 characters, and every line built from a stored message reads back as exactly its fields at the client and in the admin window |
| ResponseText.CleanLinesAreShort | root/app/server/src/ClientHandler.cpp:128-297 | every line built from clean data is at most 4224 bytes |
| ResponseText.LongestLine | root/app/server/src/ClientHandler.cpp:231-234 | the bound is reached by a history line |
| ChatServer.SessionRegistry.AddSession | root/app/server/src/SessionRegistry.cpp:6-10 | the handler is last in its user's list, other lists unchanged |
| ChatServer.SessionRegistry.RemoveSession | root/app/server/src/SessionRegistry.cpp:12-27 | the list loses every occurrence of the handler, and an empty list its user |
| Registry.WithoutTheOne | root/app/server/src/SessionRegistry.cpp:12-27 | removing the one occurrence leaves the other sessions in their order |
| ChatServer.SessionRegistry.DeliverToUser | root/app/server/src/SessionRegistry.cpp:29-51 | the payload is offered to the snapshot in order, and the returned count is the number of sends that returned true |
| ChatServer.SessionRegistry.DisconnectUser | root/app/server/src/SessionRegistry.cpp:53-74 | every session of the snapshot is told and shut, also the caller's own; the result is their number |
| ChatServer.ClientHandler.CleanupSession | root/app/server/src/ClientHandler.cpp:299-312 | the whole new state of the server, as the command-level model has it |
| ChatServer.ClientHandler.HandleLogin | root/app/server/src/ClientHandler.cpp:141-158 | the same, for which LoginTakesHold and LoginFrameTakesHold are proved |
| ChatServer.ClientHandler.HandleMessage | root/app/server/src/ClientHandler.cpp:201-221 | the same, for which StoredMessageIsOffered is proved |
| ChatServer.ClientHandler.HandleBan | root/app/server/src/ClientHandler.cpp:253-270 | the same, for which BanFrameTakesHold is proved |
| ChatServer.ClientHandler.HandleUnban | root/app/server/src/ClientHandler.cpp:272-280 | the same, for which UnbanFrameTakesHold is proved |
| ChatServer.ClientHandler.HandleKick | root/app/server/src/ClientHandler.cpp:282-297 | the same, for which KickFrameTakesHold is proved |
| ChatServer.ClientHandler.Dispatch | root/app/server/src/ClientHandler.cpp:341-408 | every command is handled as the command-level model says, including the unknown ones; the lemmas of FrameEffects and QueryEffects say what that is |
| ChatServer.ClientHandler.TakeTurn | root/app/server/src/ClientHandler.cpp:318-413 | one turn of the command loop is one event of the command-level model: a frame, parsed as CommandLines says, or the end of the handler up to its destructor |
| ChatServer.Serve | root/app/server/src/Server.cpp:112-123 | any schedule of any handlers' turns takes the objects through exactly the command-level run that the schedule spells out |
| InterleavingSafety.RegistryAgreement | root/app/server/src/SessionRegistry.cpp:6-27 | in every interleaving, with crashes and failures: a handler is registered at most once, only under its own user while logged in and before its cleanup has removed it; a list is empty only while a handler whose registration threw half way has not cleaned up |
| InterleavingSafety.NoEmptyLists | root/app/server/src/SessionRegistry.cpp:6-27 | in every interleaving no user ever maps to an empty list, if and only if no registration throws after it has made the first list of its user |
| InterleavingSafety.AuditIsTrustworthy | root/app/server/src/ClientHandler.cpp:109-126 | in every interleaving the audit rows replay to the banned users, and every moderation row names an actor whose stored role is admin or moderator |
| InterleavingEffects.EveryStepMeansItsTransaction | root/app/server/src/ClientHandler.cpp:128-297 | at every moment of every interleaving the next step does to the tables what its program point says and no more: a handler past the check for a kick, ban or unban of a login commits exactly that in its own user's name, the banned logins gain or lose exactly that login or stay, and a message appears exactly by a store step, with its sender, receiver, text and time |
| InterleavingEffects.ModerationHasItsMeaning | root/app/server/src/ClientHandler.cpp:253-297 | a ban or kick that succeeds goes on to the sessions of exactly that account, everything else back to the loop |
| InterleavingEffects.NoMessageComesFromNowhere | root/app/server/src/Database.cpp:363-401 | in every interleaving the messages grow by exactly the number of store steps that may store |
| InterleavingEffects.LeavingIsFinal | root/app/server/src/ClientHandler.cpp:299-312 | a handler that has left its loop or was thrown out of it only removes its session, logs out and is retired, and then stands in no list |
| Serial.CommandIsARun | root/app/server/src/ClientHandler.cpp:128-297 | whatever run led there: the steps of one handler for one command, with nobody in between, lead exactly where the command-level model says |
| Serial.CommandRunsAreInterleavings | root/app/server/src/ClientHandler.cpp:314-413 | every command-level run with room for its connections is a run of the interleaved server, with the same tables, registry and handlers |
| OnlineStatus.OnlineUsersAreJustified | root/app/server/src/ClientHandler.cpp:143-155 | from a state with nobody online, in every interleaving: at every moment an online user has a registered session, or a handler between login and registration, or one between removal and logout, if and only if no step unwinds an unregistered handler, or fails a logout, that was the last to account for an online user |
| OnlineStatus.CalmRunsAreJustified | root/app/server/src/ClientHandler.cpp:299-312 | in particular without exceptions and failed logouts |
| BanReach.BansReachEverySession | root/app/server/src/ClientHandler.cpp:253-270 | in every interleaving, crashes included: at every moment every open session of a banned user is about to be shut, if and only if no step registers an open session of a banned user that nobody is about to shut, or unwinds the only thread that is to shut one |
| BannedActions.SettledHandlersAreRegistered | root/app/server/src/ClientHandler.cpp:141-158 | in every interleaving, at every moment, a logged-in handler that is not in its own login or logout and not unwound is registered for its user |
| BannedActions.BannedHandlersAreOnTheWayOut | root/app/server/src/ClientHandler.cpp:86-91 | in every interleaving in which no ban is outrun or abandoned, such a handler of a banned user has lost its socket or has a thread on its way to shut it |
| BannedActions.ShutHandlersActAtMostOnce | root/app/server/src/ClientHandler.cpp:318-413 | from every state, through every continuation, a handler whose socket is shut stores or moderates at most once more, and only if it was in the middle of a command |
| InterleavingSafety.AdmissionBoundsTheRegistry | root/app/server/src/Server.cpp:100-123 | in every interleaving registry entries <= live handlers <= activeClients_ <= maxClients |
| BanRace.BanCanBeOutrun | root/app/server/src/ClientHandler.cpp:141-158 | for every server with a moderator, another unbanned user and room for two clients there is a run without a crash to a banned user with an open, registered session that nobody will shut |
| BanRace.BanCanBeAbandoned | root/app/server/src/SessionRegistry.cpp:53-74 | and one in which the moderator's thread is unwound between the ban and the disconnect |
| BanRace.RegistrationCanFailHalfWay | root/app/server/src/SessionRegistry.cpp:6-10 | and a run to a user with an empty list |
| BanRace.OnlineCanBeOrphaned | root/app/server/src/ClientHandler.cpp:143-153 | and a run to an online user for whom no handler accounts |
| BanRace.BannedModeratorCanStillBan | root/app/server/src/ClientHandler.cpp:253-270 | and one in which a moderator carries out a ban after their own ban and disconnect are complete |

## Left out

- SQL text, libpqxx and pgcrypto: tables are maps and sequences, whether a password matches and what its hash is are inputs, timestamps are any twenty characters without white space.
- Transaction isolation below the whole call: transactions are serial. `loginUser` reads the status and updates later without a guard, so with weaker isolation a login could overwrite a ban.
- The operator changes roles at command level only; in the interleaved server stored roles are fixed, because a role taken away between the check and the commit is not seen by the code.
- Serial.CommandRunsAreInterleavings: not for runs in which the operator changes a role, because the interleaved server has no such step.
- The order of a query: the sequence in which the rows are listed is an input, so that newest first is a property of that input, which the answer keeps.
- User ids are unbounded; a message id above 2^31 - 1 fails as the conversion does.
- Native socket set-up, timeouts, name resolution, the Windows and Linux wrappers and TLS: a socket is a byte stream with an arbitrary chunk schedule.
- Shifts and masks are written as division and remainder; size_t is unbounded, the 32-bit length of a header is not.
- Whether a send of the command-level model succeeds on an open socket is an arbitrary function of handler and line, new for every command, which covers every cause of failure, the size limit among them; two equal lines to one handler within one command share their outcome.
- The C++ memory model: unsynchronised access to `clientSocket_`, and handlers destroyed while a snapshot still refers to them. In the interleaved model such a target is left alone.
- DatabasePool, ThreadPool and the accept loop of Server are step systems over values and not objects, because what matters is the interleaving of their sections; the class form is kept for Database, SessionRegistry, ClientHandler and FrameDecoder.
- ChatServer.Serve: the handlers are connected before it starts; connections are taken by ChatServer.Accept between such schedules.
- ChatServer.ClientHandler.HandleList and the other queries send their begin marker before they query; the model queries first, which no client can see.
- Text encodings: strings are sequences of bytes written as characters, and the checks a UTF-8 database makes are not modelled.
- The admin window's filters, date combo, themes and stub data, and the console menus.
- The console client's belief about who is logged in (`pendingLogin_`, `currentUser_`).
- Config, the two loggers and the busy reply of the accept loop: simple look-ups and output.
- `markUserOffline`, which no command uses.
