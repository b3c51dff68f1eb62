# Flight safety system: wire protocol, server and redundant client

This project models the aircraft-control protocol of the flight safety system and the state machines at both of its
ends, and proves properties of them over all inputs and all runs.

* `Words.dfy`, `Messages.dfy`: bytes, machine words in network order, the message kinds and their contents.
* `Wire.dfy`: the byte format as functions: what packing appends, what each decoder reads with its unsigned guards and
  moving offset, what one receive makes of a stream. A read outside the message's bytes is an explicit `Fault`.
* `Codec.dfy`: the packers and unpackers as they are, growing a buffer object and walking an offset, proved against
  `Wire.dfy`.
* `RoundTrip.dfy`, `Guards.dfy`: decoding what was encoded, with the exact condition for every message; the offsets at
  which the decoders' unsigned guards are evaluated.
* `Layout.dfy`: the format once more, in plain numbers at plain places, with the high byte first.
* `Network.dfy`: one connection byte by byte as a transition system; the stream theorem.
* `Mailbox.dfy`, `Transport.dfy`: the receive queue with pull and push delivery; the connection object with its send and
  receive loops over nondeterministic socket calls.
* `Session.dfy`, `Registry.dfy`, `RefusedNames.dfy`: one server client, and all of them (registered, leaving, freed), over
  whole runs; which of them write under a refused name.
* `Answers.dfy`, `Moves.dfy`, `Rounds.dfy`: what a message is answered with and what is written for it; who moves in the
  registry; the periodic rounds, and each client's own history within a run of all.
* `Rtt.dfy`, `RttOverBytes.dfy`, `Resend.dfy`: the round-trip-time protocol with messages in flight, and over the bytes of
  both pipes; the timed resending of commands.
* `Server.dfy`: the server's client objects and registry, changed in place, proved against the two models above.
* `Backoff.dfy`, `ServerLists.dfy`: one server as the client sees it; the client's two server lists and its status.
* `Client.dfy`, `Lists.dfy`: the client's objects, changed in place, and list removal.
* `EndToEnd.dfy`: what a server list, a command and an identity do once they have gone over the wire.

## Main results

* A message survives the wire exactly when it fits the 16-bit length field and is of a kind, with contents, that the
  wire carries (`RoundTripExactly`); what the receiver gets otherwise is a function of the message (`FrameReceived`).
* The frame of every message that fits is laid out byte by byte as the protocol says, words with the high byte first
  (`FrameIsLaidOut`); any bytes are read that way too (`FieldExactly`, `TextFieldExactly`, `ReceiveExactly`, `DecodeExactly`).
* Every guard that a decoder evaluates on a packed message, cut to its header length, is within the buffer, the last one of
  a server list's loop included (`NoGuardWraps`).
* Whatever the splitting of sends and receives, a connection delivers the messages handed to it, in order, with ids
  1, 2, 3, ..., and is at a frame boundary when nothing is in the pipe (`StreamCorrect`); where the receiver is depends
  only on how many bytes it has taken (`ChunkingIrrelevant`). From every state all of it can still arrive (`AllCanArrive`).
* While no handler is set, what the pulls returned and then what is queued is what was received (`PulledInOrder`).
* In every run the outstanding round-trip requests are the answers dropped before identification, then the answers in
  flight, then the requests in flight, with increasing ids; each response that counts matches one entry, and a request
  is recorded at most once (`RunKeeps`, `ResponseMatchesOne`, `AtMostOneRecord`). Every run on the bytes of the two pipes,
  under any splitting, is such a run of whole messages (`RunRefines`), so all of this holds there
  (`CompletedResponseMatches`). Reading alone always leads to every request recorded but those answered too early
  (`AllCanBeRecorded`).
* For every client and message, what goes back and what is written is told by the message: positions and searches with the
  sender's own values, a request's own id, a request for an identity, and after acceptance the due command, the settings
  and the list (`SendsExactlyTheReplies`, `RecordsExactlyTheWrites`, and over the wire `PositionIsStored`,
  `RequestIsAnswered`, `AcceptanceIsAnswered`, `ReportReachesAircraft`).
* In every run each client is registered, leaving or freed, never two of these, and the counter agrees (`RunConserves`).
* In every run, for registered, dropped and not yet registered clients alike, a position is stored only under a name the
  certificate accepts (`PositionsUseAcceptedNames`).
* Other records can carry a refused name: exactly a status, search report or matching response of a client that in an
  earlier step of the run said it is no aircraft while it held a refused name (`NextRecordExactlyWhen`,
  `BorrowersExactlyWhen`, `UnacceptedWritesNeedBorrower`). It happens, before the next cleanup (`RefusedNameIsRecorded`).
* A registered client's name is empty or an accepted aircraft's, in every run, except exactly when messages queued
  before the client object was there leave a refused name (`StepKeepsExactlyWhen`). The exception is real: in the code a
  refusal during the constructor finds no registry entry to drop, and the client is registered afterwards
  (`QueuedRefusalStays`).
* The commands on a wire are exactly those of the lookups that were due, whatever else the client handled in between; the
  same command is more than ten seconds apart, and a changed one goes at once (`SendsAreOnTheWire`, `SameCommandSpacing`,
  `ChangeIsSentAtOnce`, `ResendGap`). Every client in every run of the registry has such a history (`HistoryPlays`), so this
  holds in the server (`CommandRoundSends`, `RoundSendsChange`, `ResendingInTheServer`).
* Over the whole life of a server, connections and closes included, the next attempt after the n-th failure in a row is
  more than min(1000 * 2^n, 32000) ms away (`LifetimeGap`), so n attempts in a row, the ones before the last failed, span
  at least 30000 + 32000 (n - 5) ms for n >= 5 (`LifetimeSpan`); with calls at most d ms apart an attempt is no more than
  the delay and d away (`RetryWithin`).
* Every server listed as connected has a live connection, except exactly after a step that leaves one dead: a connection
  whose closed message was queued before the handler was set, or a stream that ends without a closed message
  (`AliveExactlyWhen`, over runs `AllAliveExactlyWhen`). A server that stops sending anywhere in a frame leaves such a
  stream exactly if it had sent two bytes of it or more (`CutStreamLeavesDead`): the receive loop then goes round for ever.
  The
  dead server stays listed for good (`DeadStaysListed`).
* In every run no address and port is there twice if and only if the configuration repeats nothing and no direct connect
  was to a server already there (`NoServerTwiceExactlyWhen`).
* The reported status is disconnected, one, or two or more exactly with no, one, or two or more connected servers
  (`StatusInNumbers`); it stays so after every step, except exactly after a direct
  connect that changes the class: that call reports nothing (`StatusExactlyWhen`).

## Model

| member | source | states |
|---|---|---|
| `Codec.BufLen.AddData` | src/transport-messages.cpp:51-56 | the buffer grows by the bytes, cut to a 16-bit length |
| `Codec.PackString` | src/transport-messages.cpp:13-23 | a 16-bit length, the text, and 1 to 8 zero bytes up to the next multiple of 8 of the absolute position |
| `Codec.CreateHeader` | src/transport-messages.cpp:177-190 | room for the length, then type and id in network order |
| `Codec.UpdateSize` | src/transport-messages.cpp:192-206 | the length written counts no padding; the buffer is padded to a multiple of 8 |
| `Codec.PackPosition` | src/transport-messages.cpp:336-364 | a position report's fields, with the padded callsign before flags and types |
| `Codec.PackServerList` | src/transport-messages.cpp:791-798 | every entry in order, each at the position where the one before ended |
| `Codec.PackSmm` | src/transport-messages.cpp:718-724 | three padded texts one after another |
| `Codec.PackCommand` | src/transport-messages.cpp:650-664 | an asset command's fields; latitude and longitude as words |
| `Codec.GetPacked` | src/transport-messages.cpp:208-220 | the new buffer holds exactly the message's frame |
| `Codec.UnpackPositionReport` | src/transport-messages.cpp:366-446 | for any bytes: the guarded fields in order, or that a read would be outside |
| `Codec.UnpackServerEntries` | src/transport-messages.cpp:800-818 | the decode loop ends for any bytes, with the entries read or that a read would be outside |
| `Codec.UnpackSmmSettings` | src/transport-messages.cpp:726-754 | for any bytes: three guarded texts, or that a read would be outside |
| `Codec.UnpackName` | src/transport-messages.cpp:241-252 | for any bytes: the name up to its first NUL, through a copy with a NUL behind it, or a read outside |
| `Codec.UnpackRequestId` | src/transport-messages.cpp:295-309 | for any bytes: the guarded request id, 0 when too few bytes are left |
| `Codec.UnpackSystemStatus` | src/transport-messages.cpp:540-561 | for any bytes: battery and charge under one guard and the voltage word under its own, with the moving offset |
| `Codec.UnpackSearchStatus` | src/transport-messages.cpp:598-615 | for any bytes: three words under one guard, all 0 when too few bytes are left |
| `Codec.UnpackAssetCommand` | src/transport-messages.cpp:666-690 | for any bytes: all five fields under one guard, all 0 when too few bytes are left |
| `Codec.UnpackCapabilities` | src/transport-messages.cpp:849-860 | for any bytes: the guarded capability word |
| `Codec.DecodeMessage` | src/transport-messages.cpp:897-946 | for any bytes: the message for the type code, none for closed and unknown, or a read outside |
| `RoundTrip.TextRoundTrip` | src/transport-messages.cpp:732-739 | a text of any bytes packed at any offset is read back there, and reader and writer continue at the same multiple of 8 |
| `RoundTrip.PositionRoundTrip` | src/transport-messages.cpp:366-446 | all fields but the seconds since last contact come back, for every callsign, signed velocity included |
| `RoundTrip.ServersRoundTrip` | src/transport-messages.cpp:800-818 | a list of any length comes back in order, and the loop ends with its offset at the end of the buffer |
| `RoundTrip.SmmRoundTrip` | src/transport-messages.cpp:726-754 | three texts of any bytes come back |
| `RoundTrip.StatusRoundTrip` | src/transport-messages.cpp:540-561 | the status words come back |
| `RoundTrip.SearchRoundTrip` | src/transport-messages.cpp:598-615 | the three search words come back |
| `RoundTrip.CommandRoundTrip` | src/transport-messages.cpp:666-690 | the command's words come back |
| `Layout.ByteOf` | src/transport-messages.cpp:177-190 | byte i of a word of w bytes is n / 256^(w - 1 - i) mod 256: high byte first |
| `Layout.FromBEFirst` | src/transport-messages.cpp:897-905 | a word is read with its first byte as the highest |
| `Layout.FrameIsLaidOut` | src/transport-messages.cpp:177-220 | for every message that fits: unpadded size, kind number and id in bytes 0 to 11, each kind's fields as numbers at their places, zeros between and behind, a multiple of 8 in all |
| `Layout.FieldExactly` | src/transport-messages.cpp:366-446 | a guarded word of 2, 4 or 8 bytes of any buffer: read high byte first, left at its default, or outside, by the offset |
| `Layout.TextFieldExactly` | src/transport-messages.cpp:732-739 | a guarded text of any buffer, and where reading goes on |
| `Layout.ReceiveExactly` | src/transport.cpp:261-295 | for any stream: whether a receive waits, breaks or takes a message, and how many bytes, by the number in the first two |
| `Layout.DecodeExactly` | src/transport-messages.cpp:897-946 | for any bytes: the kind by the number in bytes 2 and 3, the id by bytes 4 to 11, and no message for 0, 1 and above 12 |
| `Layout.ShortContents` | src/transport-messages.cpp:540-561 | contents too short for the guard over them are read as zeros |
| `Layout.CStringIsPrefix` | src/transport-messages.cpp:241-252 | the name read is the part before the first NUL |
| `Layout.ReceivedAs` | src/transport-messages.cpp:888-895 | a message that fits arrives as itself, but for the end of a name after a NUL, the seconds since last contact, and an identity-required, which arrives with the identity's type |
| `Guards.NoGuardWraps` | src/transport-messages.cpp:800-818 | for every message that fits, in the frame cut to its length field: every offset at which its decoder evaluates a guard is at most the length |
| `Guards.InsideMeansNoWrap` | src/transport-messages.cpp:366-446 | for any bytes and every kind: a decode that reads only inside evaluated no guard past the end |
| `Guards.PositionWalks` | src/transport-messages.cpp:366-446 | the walk that gives a report's guard offsets stays inside if and only if the unpacker does |
| `Guards.ListWalkInside` | src/transport-messages.cpp:806-817 | the guard offsets of a list read inside are within the buffer, and the last is where the loop stops |
| `Guards.PositionGuards` | src/transport-messages.cpp:366-446 | a report's thirteen guards are at its fields' places |
| `Guards.SmmGuards` | src/transport-messages.cpp:726-754 | the settings' three guards are where the three texts start |
| `Guards.ListGuards` | src/transport-messages.cpp:800-818 | a list's guards are where its entries start, and one where the last ends |
| `Guards.FixedGuards` | src/transport-messages.cpp:540-615 | where the guards of the kinds of one size are |
| `RoundTrip.FrameShape` | src/transport-messages.cpp:192-206 | the frame's size is the length field rounded up to 8, and the message lies in the unpadded prefix |
| `RoundTrip.FrameReceived` | src/transport.cpp:265-295 | one receive takes exactly one frame off any stream and gets the message, up to what the wire does not carry |
| `RoundTrip.OversizeLeavesRest` | src/transport-messages.cpp:195-204 | a message past the length field never comes out with the stream used up |
| `RoundTrip.RoundTripExactly` | src/transport-messages.cpp:177-220 | for every message: received equal and nothing left over if and only if it fits in 65535 bytes and its kind and contents are carried |
| `RoundTrip.CutNeededOnlyForEmptyList` | src/transport.cpp:290-295 | decoding the padded frame agrees with decoding the prefix if and only if the message is not an empty server list |
| `RoundTrip.EmptyListUncut` | src/transport-messages.cpp:806-817 | without the cut an empty server list's padding is read as an entry and the decoder goes outside |
| `Network.StepKeeps` | src/transport.cpp:200-295 | every submit, partial send and partial receive keeps: delivered, then whole frames in the pipe, ids consecutive |
| `Network.StreamCorrect` | src/transport.cpp:169-312 | over any run: the receiver has a prefix of the messages submitted, with ids 1, 2, 3, ...; all of them if and only if nothing is in the pipe |
| `Network.ChunkingIrrelevant` | src/transport.cpp:278-287 | two schedules for the same messages, at equally many bytes taken: the same messages and the same part of the next |
| `Network.RunDryConsumesAll` | src/transport.cpp:278-287 | nothing is in the pipe if and only if every byte of every message was taken |
| `Network.AllCanArrive` | src/transport.cpp:169-312 | from every state of a run some sends and reads bring over all that was handed in |
| `Network.ParseFrames` | src/transport.cpp:87-112 | repeated receives on a stream of frames give all the messages and leave no byte |
| `Network.CutStreamEnding` | src/transport.cpp:278-287 | a sender of whole frames that stops in the next one: the receiver has all the whole ones, and its loop ends at a boundary if and only if fewer than two bytes of the next came |
| `Mailbox.NothingLost` | src/transport.cpp:87-130 | over any mix of receives, pulls and handler changes: delivered then queued is what was received up to the first closed, and a set handler leaves nothing queued |
| `Mailbox.ClosedOnlyLast` | src/transport.cpp:98-102 | nothing is received after a closed message |
| `Mailbox.EmptyHeadBlocks` | src/transport.cpp:119-127 | an empty message at the head of the queue stops all pulling until a handler is set |
| `Mailbox.PullExactly` | src/transport.cpp:114-130 | a pull returns the head and takes it off, or returns nothing and takes nothing off |
| `Mailbox.PulledInOrder` | src/transport.cpp:114-130 | while no handler was set: what the pulls returned, in order, and then what is queued is what was received |
| `Mailbox.HandlerGetsTheRest` | src/transport.cpp:221-234 | once a handler is set, pulls return nothing more and nothing stays queued |
| `Transport.Connection.Send` | src/transport.cpp:211-216 | the assumption on send(): an error, or a positive number of bytes taken |
| `Transport.Connection.SendBytes` | src/transport.cpp:200-219 | success means the whole buffer went out in order; failure means a proper prefix did |
| `Transport.Connection.GetMessageId` | src/transport.cpp:82-85 | ids count up by one in 64 bits |
| `Transport.Connection.SendMsg` | src/transport.cpp:169-184 | the shared message takes this connection's next id, and its frame goes out whole or as a proper prefix |
| `Transport.Connection.RecvBytes` | src/transport.cpp:236-240 | the assumption on recv(): an error, the end, or a positive number of the bytes there |
| `Transport.Connection.RecvMsg` | src/transport.cpp:261-312 | for any stream: on a reliable channel the next frame's message, closed at the end, none or closed after a single byte, going round for ever where the rest of a frame never comes, outside where the length field or the decoder leads; on any channel never another message |
| `Transport.Connection.ReceiveOne` | src/transport.cpp:93-110 | one turn of the receive loop is an arrival at the mailbox, for any stream; up to where a receive gets stuck or leaves its buffer nothing is delivered |
| `Transport.Connection.ProcessMessages` | src/transport.cpp:87-112 | on a reliable channel, for any stream: every message at its front is handed on or queued; then closed and the end at a frame boundary (one byte over may make an empty message first), going round for ever inside a frame, or leaving the buffer at a bad frame, from where nothing is said |
| `Transport.EndingInNumbers` | src/transport.cpp:261-295 | where a stream ends, by the size number of what is left behind its whole messages |
| `Transport.Connection.GetMsg` | src/transport.cpp:114-130 | the pull, with its result |
| `Transport.Connection.SetHandler` | src/transport.cpp:221-234 | a set handler gets everything queued, in order |
| `Transport.Exchange` | tests/connection.cpp:36-65 | what one connection object sends, the other one's queue or handler gets: the same messages with ids from 1, then closed |
| `Session.HandleKeeps` | src/server.cpp:298-445 | every message leaves the client's flags in order and the ids on its wire 1, 2, 3, ... |
| `Answers.SendsExactlyTheReplies` | src/server.cpp:298-380 | for every client and message: exactly which messages go back, in which order and with which ids |
| `Answers.RecordsExactlyTheWrites` | src/server.cpp:381-434 | for every client and message: exactly which record is made, with the message's own values |
| `Answers.IdentifiedExactlyWhen` | src/server.cpp:314-358 | for every client and message: name and flags afterwards, accepted if and only if the certificate has no names or this one |
| `Session.UnacceptedRecordExactlyWhen` | src/server.cpp:381-434 | something is recorded under a non-empty name the certificate does not accept if and only if the client is identified as no aircraft with such a name and the message is a status, a search report or a response with a matching entry |
| `Session.BorrowsExactlyWhen` | src/server.cpp:354-358 | a client gets into that state exactly by an identity_non_aircraft while it holds a refused name |
| `Registry.RunConserves` | src/server.cpp:150-183 | in every run: registered, leaving and freed clients together are those that ever connected, and the counter is the number not freed |
| `Registry.EachInOnePlace` | src/server.cpp:168-183 | in every run each client is in exactly one of the three places |
| `Moves.RegisteredReads` | src/server.cpp:168-183 | a read by a registered client drops it, and no one else, exactly on closed or a refused identity |
| `Moves.LeavingReads` | src/server.cpp:168-183 | a read by a leaving client moves nobody |
| `Moves.CleanupFrees` | src/server.cpp:150-160 | a cleanup frees exactly the leaving clients |
| `Moves.ConnectRegisters` | src/server.cpp:454-462 | a connect registers exactly one new client, behind the others |
| `Registry.DrainName` | src/server.cpp:219-222 | messages handled before registration leave a good name if and only if no refused non-empty identity is left standing |
| `Registry.StepKeepsExactlyWhen` | src/server.cpp:150-214 | each step keeps all registered clients in order except exactly a connect that queued a refused name |
| `Registry.RunKeepsOk` | src/server.cpp:298-363 | the registry invariant over every run |
| `Registry.LookupsUseAcceptedNames` | src/server.cpp:226-231 | a registered client's name, by which commands and settings are looked up, is empty or an identified, accepted aircraft's, when no connect queued a refused name |
| `Registry.PositionsUseAcceptedNames` | src/server.cpp:407-413 | in every run, with no condition: each aircraft registered or leaving has an accepted name, and so has every position stored by any client |
| `RefusedNames.BorrowersExactlyWhen` | src/server.cpp:354-358 | in every run a client that has a connection is identified as no aircraft under a refused name if and only if a step of the run, or a message queued for it, was its identity_non_aircraft while it held that name |
| `RefusedNames.NextRecordExactlyWhen` | src/server.cpp:381-434 | after every run the next message makes a record under an unaccepted name if and only if such a step came before for its client and the message is one that is recorded |
| `RefusedNames.UnacceptedWritesNeedBorrower` | src/server.cpp:381-434 | every write of a run under an unaccepted name is by a client that such a step came before or with |
| `Registry.RefusedNameIsRecorded` | src/server.cpp:354-358 | the run in which a refused client, not cleaned up yet, says it is no aircraft and has its status stored under the refused name |
| `Registry.QueuedRefusalStays` | src/server.cpp:455-462 | a connection that queued a refused identity is registered with that name |
| `Registry.ReportReachesTheOthers` | src/server.cpp:184-193 | in every run a position report goes once to every registered aircraft but its sender, with each wire's own next id |
| `Registry.RoundNotesOwnIds` | src/server.cpp:201-207 | in a round of requests each client notes the id its own wire carried |
| `Rounds.HistoryPlays` | src/server.cpp:298-445 | in every run each client that has a connection is what its own history of messages, rounds and broadcasts makes of a new one |
| `Rounds.CommandRoundSends` | src/server.cpp:208-214 | in every run a command round adds to each registered client's wire exactly its due command, with its next id |
| `Rounds.SettingsRoundSends` | src/server.cpp:194-200 | in every run a settings round adds exactly the stored settings, each value in its place |
| `Rounds.ListRoundSends` | src/server.cpp:184-193 | in every run a list goes to each registered aircraft and to nobody else |
| `Rounds.RequestRoundSends` | src/server.cpp:201-207 | in every run a round of requests adds one request to each registered client's wire, and notes its id and time |
| `Rounds.RoundIsLookup` | src/server.cpp:208-214 | every command round is a lookup in each registered client's history |
| `Rounds.RoundSendsChange` | src/server.cpp:230-236 | in every run the first round that finds another command for a registered client than was found last sends it |
| `Rounds.ResendingInTheServer` | src/server.cpp:226-253 | in every run, for every client: the commands on its wire are its due lookups', the same one more than 10000 ms and, looked up at most d apart, at most 10000 + d ms apart |
| `RoundTripTime.ResponseRead` | src/server.cpp:381-406 | a response that counts takes its one entry off the list and makes one record; nothing else changes |
| `RoundTripTime.StepKeeps` | src/server.cpp:268-274 | every step keeps the matching of outstanding ids with messages in flight, and each entry's send time |
| `RoundTripTime.RunKeeps` | src/server.cpp:268-274 | the matching over every run with in-order channels and a peer that answers each request |
| `RoundTripTime.ResponseMatchesOne` | src/server.cpp:389-404 | in every run a response read from an identified client matches exactly one outstanding request, and the time recorded is the one since that request was sent |
| `RoundTripTime.AtMostOneRecord` | src/server.cpp:397-404 | in every run a request is recorded at most once, and then is not outstanding |
| `RoundTripTime.NothingInFlight` | src/server.cpp:381-406 | in every run with nothing in flight, every request was recorded once but those whose answers came before identification |
| `RoundTripTime.AllCanBeRecorded` | src/server.cpp:381-406 | from every state of a run reading alone leads there |
| `RttOverBytes.MoveTakesFirst` | src/transport.cpp:261-312 | on a pipe a send or a read takes nothing from the messages in flight, or the first one, as the receiver hears it |
| `RttOverBytes.StepRefines` | src/server.cpp:268-274 | every step on the bytes of the two pipes is a step of the protocol on whole messages, or none |
| `RttOverBytes.RunRefines` | src/server.cpp:268-274 | every run on bytes in which all that is sent fits and none is closed is a run of the protocol on whole messages |
| `RttOverBytes.CompletedResponseMatches` | src/server.cpp:389-404 | after any run on bytes a read that completes a response from an identified client matches exactly one outstanding request, and the time recorded is the one since that request was sent |
| `RttOverBytes.AtMostOneRecord` | src/server.cpp:397-404 | in every run on bytes a request is recorded at most once |
| `Resend.MemoryExactlyWhen` | src/server.cpp:232-236 | of all calls on a client exactly a lookup that is due changes which command was last sent and when |
| `Resend.SameCommandSpacing` | src/server.cpp:226-253 | over any run of calls the same command in a row is sent more than 10000 ms apart |
| `Resend.FreshAfterLookup` | src/server.cpp:230-236 | after any run whose last lookup saw a command, that command was the last one sent, at most 10000 ms before that lookup |
| `Resend.RemembersLastSeen` | src/server.cpp:232-236 | over any run, for any clock, the client remembers the command that a lookup saw last |
| `Resend.ChangeIsSentAtOnce` | src/server.cpp:232-236 | the first lookup that sees another command than the last one seen sends it, for any clock |
| `Resend.ResendGap` | src/server.cpp:208-214 | an unchanged command looked up at most d ms apart is sent again after more than 10000 and at most 10000 + d ms |
| `Resend.SendsAreOnTheWire` | src/server.cpp:237-251 | the command messages on a client's wire after any run are, in order, those of the lookups that were due, each with its id and the stored command's contents |
| `Resend.SendsComeFromLookups` | src/server.cpp:226-253 | each command sent is one a lookup of the run found, at the time of that lookup |
| `Server.FssClient.SendCommand` | src/server.cpp:226-253 | the client object after a poll for its command |
| `Server.FssClient.SendSmmSettings` | src/server.cpp:276-285 | settings go out if the database has any |
| `Server.FssClient.SendRttRequest` | src/server.cpp:268-274 | the entry noted has the id the shared request had on this client's own wire |
| `Server.FssClient.HandleIdentity` | src/server.cpp:320-352 | acceptance by the certificate's names, then command, settings and server list |
| `Server.FssClient.HandleRttResponse` | src/server.cpp:381-406 | the search loop finds the last matching entry, and only that one goes |
| `Server.FssClient.Handle` | src/server.cpp:298-445 | the object follows the model of one message, for every message |
| `Server.FssClient.ProcessMessage` | src/server.cpp:298-445 | the whole registry follows the model, other clients included |
| `Server.ServerClients.CleanupRemovableClients` | src/server.cpp:150-160 | everything leaving is freed, and the counter goes down once for each |
| `Server.ServerClients.ClientConnected` | src/server.cpp:161-167 | one more registered client, and one more counted |
| `Server.ServerClients.ClientDisconnected` | src/server.cpp:168-183 | a registered client moves to the queue; a client that is not registered changes nothing |
| `Server.ServerClients.SendMsg` | src/server.cpp:184-193 | the broadcast of one shared object, without one client |
| `Server.ServerClients.SendRttRequest` | src/server.cpp:201-207 | the round of requests with one shared object |
| `Server.ServerClients.SendCommand` | src/server.cpp:208-214 | a poll for every registered client |
| `Server.ServerClients.SendSmmSettings` | src/server.cpp:194-200 | settings for every registered client |
| `Server.ServerClients.SendServerList` | src/server.cpp:528-533 | the known servers go to every registered aircraft |
| `Server.ServerClients.Turn` | src/server.cpp:516-536 | one turn of the main loop, with list and settings every fifteenth time |
| `Server.NewClientConnect` | src/server.cpp:454-462 | the queue is handled first, by a client that cannot be dropped yet; then the client is registered |
| `Backoff.ReconnectKeeps` | src/client-ssl.cpp:249-283 | the delay stays with the failure count; a reconnect connects exactly when due and working, then starts afresh, and is live unless closed was queued |
| `Backoff.ClosingKeepsExactlyWhen` | src/client-ssl.cpp:295-302 | leaving the delay alone on closing is right if and only if the failure count was 0 |
| `Backoff.DelayIsCapped` | src/client-ssl.cpp:262-266 | the delay is 1000 * 2^min(failures, 5) |
| `Backoff.RetryGap` | src/client-ssl.cpp:249-283 | from any state with n failures behind it: after the i-th failure more the next attempt is further away than the delay of n + i failures |
| `Backoff.RetryWithin` | src/client-ssl.cpp:249-283 | with calls at most d ms apart the next attempt is no further away than the delay and d |
| `Backoff.NextAttemptExactlyWhen` | src/client-ssl.cpp:249-283 | after any failing calls the next one attempts if and only if the delay is over, and connects if and only if that works then |
| `Backoff.FirstAttemptExactlyWhen` | src/client-ssl.cpp:249-302 | a new server, and one whose connection was closed, is tried as soon as the clock is past 1000 ms |
| `Backoff.FailedAttemptsSpan` | src/client-ssl.cpp:249-283 | from any state with no failure behind it n >= 5 failed attempts in a row span at least 30000 + 32000 (n - 5) + (n - 1) ms |
| `Backoff.LifetimeGap` | src/client-ssl.cpp:249-302 | over any life of a server, connections and closes included: after a failure that was the n-th in a row the next attempt is further away than the delay of n failures |
| `Backoff.LifetimeSpan` | src/client-ssl.cpp:249-302 | over any life: from a failure that was the first in a row, n attempts later with no success between, at least the n delays have passed; 30000 + 32000 (n - 4) + n ms for n >= 4 |
| `ServerLists.RunKeeps` | src/client-ssl.cpp:73-171 | in every run each server listed as connected has a connection object and a fresh backoff, each waiting one the delay of its count |
| `ServerLists.WaitingServersBackOff` | src/client-ssl.cpp:73-97 | the retry bound for every server waiting in any reachable state |
| `ServerLists.AliveExactlyWhen` | src/client-ssl.cpp:272-279 | each step keeps every listed server alive, except exactly a connection with closed queued before setHandler, or a listed server's stream that ends without a closed message |
| `ServerLists.AllAliveExactlyWhen` | src/client-ssl.cpp:73-171 | in every run all listed servers are alive if and only if no step has left one dead |
| `ServerLists.CutStreamLeavesDead` | src/transport.cpp:278-287 | a server that stops k bytes into a frame is left listed and dead if and only if k >= 2 |
| `ServerLists.DeadOnArrival` | src/client-ssl.cpp:272-279 | a configured server whose first connection has closed queued: it is listed, connected and not alive, and the status counts it |
| `ServerLists.DeadStaysListed` | src/client-ssl.cpp:158-171 | a listed server with an ended connection is listed in every run from there |
| `ServerLists.MovesKeepAll` | src/client-ssl.cpp:73-97 | reconnecting, closing and the end of a stream only move servers between the lists |
| `ServerLists.CloseMovesThatOne` | src/client-ssl.cpp:158-171 | a close, and a stream that ends with closed, take just that server from the connected ones to the waiting ones; a stream that ends without leaves it listed and not alive |
| `ServerLists.PassExactly` | src/client-ssl.cpp:73-97 | a pass connects exactly the waiting servers that are due and can be reached, and leaves the others waiting |
| `ServerLists.UpdateAddsMissing` | src/client-ssl.cpp:140-156 | an update adds exactly the missing servers, behind the waiting ones, and touches nothing else |
| `ServerLists.MissingExact` | src/client-ssl.cpp:127-138 | the missing servers are those of the list that are in neither list, each once even if repeated |
| `ServerLists.UpdateIdempotent` | src/client-ssl.cpp:140-156 | the same list again changes nothing |
| `ServerLists.TwiceExactlyWhen` | src/client-ssl.cpp:140-156 | each step keeps every address and port once, except exactly a direct connect to one already there |
| `ServerLists.NoServerTwiceExactlyWhen` | src/client-ssl.cpp:127-156 | in every run no address and port is there twice if and only if the configuration repeats none and no direct connect was to one already there |
| `ServerLists.StatusExactlyWhen` | src/client-ssl.cpp:173-188 | each step keeps the status right, by `StatusInNumbers`, except exactly a direct connect that changes its class |
| `ServerLists.StatusStaysRight` | src/client-ssl.cpp:158-188 | without direct connects a right status stays right over any run |
| `ServerLists.StatusFromConfiguration` | src/client-ssl.cpp:14-38 | from a configuration the status is unknown with nothing connected until the first report, and right from then on |
| `ServerLists.StatusInNumbers` | src/client-ssl.cpp:173-188 | in every run without direct connects the status is disconnected, one, or two or more exactly with no, one, or two or more servers connected, from the first report on |
| `ServerLists.ReportsExactlyWhen` | src/client-ssl.cpp:158-188 | which steps report, and for how many servers; no other step does |
| `ServerLists.CloseReports` | src/client-ssl.cpp:158-188 | the report of a close, by the number of servers before |
| `Client.FssServer.Reconnect` | src/client-ssl.cpp:249-283 | the server object follows the backoff model and says whether it connected; a closed message already queued has the status reported and the lists left alone |
| `Client.FssServer.ProcessClosed` | src/client-ssl.cpp:295-302 | a closed connection moves the server to the waiting list if it is listed as connected, and starts its count over; for any other server only the status is reported |
| `Client.FssServer.ReceiveUntilEnd` | src/transport.cpp:87-112 | the receive loop of a connected server's connection object, over any stream: the client takes the server back if and only if a closed message comes at the end |
| `Client.FssClient.AttemptReconnect` | src/client-ssl.cpp:73-97 | both loops: every waiting server is tried once, and the lists stay apart and without repetitions |
| `Client.FssClient.AddServer` | src/client-ssl.cpp:114-125 | a server goes to the list its connection puts it in |
| `Client.FssClient.ConnectTo` | src/client-ssl.cpp:62-71 | a new server object, tried once if asked, added to one list |
| `Client.FssClient.ListMatches` | src/client-ssl.cpp:127-138 | whether some server of the list has this address and port |
| `Client.FssClient.UpdateServers` | src/client-ssl.cpp:140-156 | the loop over a server list, with only new objects added |
| `Client.FssClient.ServerRequiresReconnect` | src/client-ssl.cpp:158-171 | exactly that server moves; the status is reported either way |
| `Client.FssClient.NotifyConnectionStatus` | src/client-ssl.cpp:173-188 | the status is the class of the number of connected servers |
| `EndToEnd.ServerListReachesClient` | src/client-ssl.cpp:345-352 | a server list sent by a server makes the client know exactly its own and the listed servers |
| `EndToEnd.IdentityReachesServer` | src/server.cpp:314-345 | any identity that fits arrives up to its first NUL, and the server accepts or refuses it by that name |
| `EndToEnd.CommandReachesClient` | src/server.cpp:237-251 | a stored command arrives as that command, with its place only for a goto (3) and its altitude only for a change of altitude (7) |
| `EndToEnd.PositionIsStored` | src/server.cpp:407-415 | a report that comes over the wire from an aircraft is stored with the sender's own values and passed on |
| `EndToEnd.StatusIsStored` | src/server.cpp:416-425 | a status that comes over the wire is stored with the sender's own values |
| `EndToEnd.SearchIsStored` | src/server.cpp:426-435 | a search report that comes over the wire is stored with the sender's own values |
| `EndToEnd.RequestIsAnswered` | src/server.cpp:374-380 | a request that comes with id k is answered by one response, which arrives carrying k |
| `EndToEnd.IdentityIsRequired` | src/server.cpp:359-362 | any other message before an identity is answered by one identity-required, which arrives with the identity's type |
| `EndToEnd.AcceptanceIsAnswered` | src/server.cpp:346-352 | an accepted identity is answered by the due command, the settings and the list, and the list makes its receiver know the servers |
| `EndToEnd.SettingsArrive` | src/server.cpp:276-285 | settings arrive with address, user name and password in their places |
| `EndToEnd.ReportReachesAircraft` | src/server.cpp:184-193 | in every run each other registered aircraft receives a report with the values its sender sent |

## Assumptions

* Each public call is one atomic step. The lock around sending makes this so for `sendMsg`; the unlocked iteration over
  the registry and a handler change during a receive are not modelled as races.
* The socket calls return an error or make progress: send() takes at least one byte; recv() returns 0 only at the end of
  the stream. On a reliable channel there are no errors, and two header bytes that are there come in one read; in
  `Network.dfy` the header read is taken only when both bytes are there.
* Of the messages that can be queued when the client's `reconnect` sets the handler, only a closed one is modelled. For the
  server's constructor there is no such restriction: the queue is part of the connect step.
* A connection delivers one closed message at most (`Mailbox.ClosedOnlyLast`).
* After a read outside its buffer the receive loop may or may not come to a closed message: both are allowed, as a
  parameter of the step.
* The clock is any sequence of readings unless a lemma says that it does not go back.
* The peer of the round-trip protocol answers each request once and sends no other response, as the client library does.

## Left out

- Latitude, longitude and voltage: the wire words are the values; the floating-point conversions to and from them are not modelled, and a coordinate that is not a number is one fixed word.
- A position report too short to carry its coordinates decodes to not-a-number ones in the code and to the word 0 here; no packed frame is that short.
- Codec.PackPosition: takes latitude and longitude as wire words, so it does not say how degrees become words.
- Codec.PackCommand: takes latitude and longitude as wire words, as above.
- Codec.UnpackPositionReport: gives latitude and longitude as wire words, and 0 where the code has not-a-number.
- Codec.UnpackSystemStatus: gives the voltage as its wire word.
- Codec.UnpackAssetCommand: gives latitude and longitude as wire words.
- RoundTrip.StatusRoundTrip: the voltage is its wire word; the conversion to and from a float is left out.
- RoundTrip.CommandRoundTrip: latitude and longitude are wire words; the conversion to and from degrees is left out.
- Transport.Connection.ProcessMessages: is about a reliable channel; a read error makes a closed message in the header and an empty one later in the frame, which `Transport.Connection.RecvMsg` allows on any channel.
- Transport.Connection.SendMsg: says nothing about the TLS connection's own send, which makes one call and ignores how much it took.
- Backoff.ReconnectKeeps: the failure count is unbounded, because 2^64 failures at 32 seconds each are out of reach; of the messages queued before the handler is set only a closed one is modelled.
- Client.FssServer.Reconnect: the same for the object; a server list queued there would be handled before the server is listed.
- TLS handshake and certificates (`src/transport-ssl.cpp`): the names of a certificate are a fixed list for each connection.
- The database (`src/db.cpp`): answers are arbitrary, writes are returned as records; whether a name is a stored asset is not modelled.
- Address resolution, listening, threads, `disconnect()` on either side, shutting the registry down, destructors.
- The client's identity message after a reconnect, and its handlers for commands, positions and settings, which do nothing by default.
- Capability bits, message getters, the table of command names, configuration, signals and debug output: they would only add easy members.
