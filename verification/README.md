# Verified model of the chat system

This project models the parts of the two chat systems of the repository that keep
state under interleaving or must agree with an independent definition, and proves
what they are for. To verify: `dafny verify dfyconfig.toml`.

**The C system.** The kernel driver's streaming SHA-1 (`Sha1.dfy`) is proved against
FIPS 180-4 (`Fips180.dfy`), and that definition is worked through on the standard's
two-block example (`Fips180Example.dfy`). The substitution cipher (`Substitution.dfy`) is proved to
be a permutation of the byte alphabet, both ways. The user file (`UserFile.dfy`) is
modelled with the C library's line reading and scanning and proved to behave as a map,
and its answers to follow from the requests before (`UserHistory.dfy`).
The server's connection threads share the locked table of 32 slots (`OnlineTable.dfy`);
`ChatServer.dfy` has one step for each locked operation and each write, and
`ChatServerSafety.dfy` proves what every interleaving keeps, and `ChatServerAnswers.dfy`
when a request is granted and who is behind a delivery. `AckMailbox.dfy` does the
same for the client's sender and receiver threads, the stream in both directions and
the server thread behind it.

**The web system.** `ChatFrames.dfy` and `Exchange.dfy` follow a text from the backend
through the request frame, the processor, the driver and the response frame, and back.
`ChatDomain.dfy` has the chat documents and the service calls on them, `ChatService.dfy`
the same calls on mutable collections, and `ChatUnread.dfy`, `ChatMembership.dfy`,
`ChatDirect.dfy`, `ChatReplay.dfy`, `ChatAttachments.dfy` and `ChatSeen.dfy` prove what
any sequence of calls keeps; `ChatAnswers.dfy` proves when each call succeeds and what it
leaves behind. `AuthSession.dfy` has the refresh sessions, each database call a step of
its own, and `AuthAnswers.dfy` what a login, a refresh, a revoke and an authentication
answer. `HttpRefresh.dfy` has the client's response interceptor, each callback a step,
and `HttpAnswers.dfy` which token goes out with a request.
`ThreadView.dfy` has the chat page's thread, `ThreadPaging.dfy` what a step of paging
conserves, `ThreadWhole.dfy` what whole runs end with, and `ThreadAnswers.dfy` that
scrolling up can always load the rest; `ConversationList.dfy` has the list. Both sort stably (`StableSort.dfy`). `Username.dfy` has the search for a free username.

State machines come in two forms: a function from state to state, about which the
theorems are stated for every run, and a class whose methods update its fields in place
and are proved to take exactly those steps. Where the code does not keep a property in
every case, the condition is proved in both directions, and a run from the start shows
the failure where it takes several steps:

- A connection that logs in again after a success can lose its slot in the online table
  (`ChatServerSafety.NoSlotLostIffNoLeakyLogin`, `ChatServerSafety.SlotLost`).
- A chat message can be written to a descriptor that was closed and reused after the
  lookup (`ChatServerSafety.ChatReachesPeer`, `ChatServerSafety.DescriptorReused`).
- An authentication that read the session before a revoke landed is still accepted
  (`AuthSession.RevocationIsFinal`, `AuthSession.AcceptedAfterRevokeIff`,
  `AuthSession.EarlyReaderRun`).
- A delivery older than the open thread can make paging skip a message or bring one twice
  (`ThreadWhole.WholeHistoryIff` for whole runs, `ThreadPaging.LateDeliveryHarmlessIff`
  for the single delivery), and equal times make the order depend on arrival
  (`ThreadView.ArrivalOrderShowsIff`).
- Adding a member to a direct conversation hides it from its two users
  (`ChatDirect.AddMemberHidesIt`), and its event log does not record who is restored by a
  message, sent or refused (`ChatReplay.ReplayFailsIff`).
- The cipher restores a text exactly if it is non-empty and has no NUL
  (`ChatFrames.RoundTrip`), and a user entry reads back exactly if its payload has no
  white space (`UserFile.EntryReadsBackIff`).

Sockets, databases, JWT signatures, token hashes, object storage and the AI services are
not modelled: their answers are parameters of the steps, or events in any order.

## Model

| member | source | states |
|---|---|---|
| `Sha1Engine.HashInPieces` | driver/module/sha1_digest.c:73-130 | for every byte string and every way of cutting it into updates, init, the updates and final give the FIPS 180-4 SHA-1 digest of the whole |
| `Sha1Engine.Context.Update` | driver/module/sha1_digest.c:84-98 | the context absorbs exactly the new bytes behind the old ones: full blocks are compressed in order, the rest lies in the buffer, every write in bounds |
| `Sha1Engine.Context.Final` | driver/module/sha1_digest.c:100-130 | padding in place, over one block or two, and the final compression give the digest of everything absorbed |
| `Sha1Engine.Context.constructor` | driver/module/sha1_digest.c:73-82 | the initial context has absorbed nothing |
| `Sha1Engine.Context.AbsorbAll` | driver/module/sha1_digest.c:89-97 | the byte loop of update, with a compression at each filled buffer |
| `Sha1Engine.Context.PutMarker` | driver/module/sha1_digest.c:105-113 | the marker and, when the length no longer fits, zeros and an extra block |
| `Sha1Engine.Context.PadToLength` | driver/module/sha1_digest.c:105-116 | the zeros added are exactly those of section 5.1.1 of FIPS 180-4 |
| `Sha1Engine.Context.PutLength` | driver/module/sha1_digest.c:118-120 | the 64-bit big-endian bit count fills the last eight bytes |
| `Sha1Engine.Transform` | driver/module/sha1_digest.c:19-71 | one block changes the five state words as section 6.1.2 of FIPS 180-4 says |
| `Sha1Engine.FillSchedule` | driver/module/sha1_digest.c:21-37 | the 80 schedule words are those of the standard |
| `Sha1Engine.RoundFunction` | driver/module/sha1_digest.c:44-56 | each round uses the standard function and constant for its number |
| `Sha1Engine.DriverChoiceIsCh` | driver/module/sha1_digest.c:44-46 | the choice function, written with or, is the standard one |
| `Sha1Engine.DriverMajorityIsMaj` | driver/module/sha1_digest.c:50-52 | the majority function, written with or, is the standard one |
| `Sha1Engine.ZeroCountIsUnique` | driver/module/sha1_digest.c:105-116 | the number of zero bytes that fills the block up to the length is unique, so it is the least one |
| `Fips180.PadZeroBitsIsSmallest` | driver/module/sha1_digest.c:100-122 | the specified padding is the smallest solution, as section 5.1.1 of FIPS 180-4 defines it |
| `Fips180.PadFillsBlocks` | driver/module/sha1_digest.c:100-122 | padded messages are whole blocks |
| `Sha1Engine.KernelSha1Transform` | driver/module/sha1_digest.c:132-153 | with room for 41 bytes the output is the 40 lower-case hex digits of the digest of the C string and a terminator; with less, an empty string |
| `Sha1Engine.Hex2ReadsBack` | driver/module/sha1_digest.c:149-151 | two hex digits determine the byte and are lower case |
| `Fips180Example.ExampleDigest` | driver/module/sha1_digest.c:19-130 | the reference definition gives the digest of the two-block example of FIPS 180-2, appendix A.2 |
| `Substitution.MapsAreInverse` | driver/module/substitution.c:10-48 | forward and reverse undo each other on every byte, both ways, and keep the character classes |
| `Substitution.MapChar` | driver/module/substitution.c:10-20 | the scan loop finds the first match in the source table |
| `Substitution.MapForward` | driver/module/substitution.c:22-34 | the three classes and everything else |
| `Substitution.MapReverse` | driver/module/substitution.c:36-48 | the three classes and everything else |
| `Substitution.ClassInverse` | driver/module/substitution.c:3-20 | a table of distinct characters and its permutation, scanned both ways, are inverse |
| `Substitution.SubstitutionTransform` | driver/module/substitution.c:50-62 | the buffer holds the mapped C string, cut to size, its terminator, and is otherwise untouched |
| `Substitution.SubstitutionReverseTransform` | driver/module/substitution.c:64-76 | the same for the reverse map |
| `Substitution.AllInverse` | driver/module/substitution.c:50-76 | the transforms are inverse on every byte string and produce no NUL from text without one |
| `Substitution.LowerTable` | driver/module/substitution.c:3-48 | what each small letter becomes and where it comes from |
| `Substitution.UpperTable` | driver/module/substitution.c:3-48 | the same for capitals |
| `Substitution.DigitTable` | driver/module/substitution.c:3-48 | the same for digits |
| `Exchange.OutcomeOf` | backend/src/modules/chat/chat-encryption.service.ts:129-186 | for every sequence of socket events: resolved with exactly the first 588 bytes if that many arrive before the first failure, else rejected with that failure |
| `Exchange.SettledStays` | backend/src/modules/chat/chat-encryption.service.ts:129-186 | settled at most once |
| `Exchange.FailureReported` | backend/src/modules/chat/chat-encryption.service.ts:129-186 | it is rejected with a timeout, a connection error or an early close exactly if that came first and fewer than 588 bytes before it; it stays open exactly if nothing failed and they are too few |
| `Exchange.Socket.Deliver` | backend/src/modules/chat/chat-encryption.service.ts:129-186 | the callbacks, on the shared variables, follow the event machine |
| `ChatFrames.RoundTrip` | backend/src/modules/chat/chat-encryption.service.ts:36-127 | encrypting and then decrypting, each through its own request frame, the processor, the driver and a reply in any chunks, restores the text if and only if it is non-empty and NUL-free, for well-formed UTF-8 of at most 511 bytes, any message ids and a conversation id |
| `ChatFrames.ExchangedIsRemote` | backend/src/modules/chat/chat-encryption.service.ts:88-113 | what the service parses out of the socket events is the answer to the request it built |
| `ChatFrames.RemoteAnswers` | backend/src/modules/chat/chat-encryption.service.ts:88-127 | what one remote call returns, for each mode and every such text |
| `ChatFrames.RestoresOnlyWholeTexts` | backend/src/modules/chat/chat-encryption.service.ts:60-127 | what was stored decrypts to the text exactly if the text was whole |
| `ChatFrames.AnyChunking` | backend/src/modules/chat/chat-encryption.service.ts:129-186 | a reply is received whole however it is cut into chunks |
| `ChatFrames.ChatEncryption.BuildRequest` | backend/src/modules/chat/chat-encryption.service.ts:115-127 | writing the fields in place at fixed offsets gives the 1164-byte frame; an id beyond 32 bits is refused and used up |
| `ChatFrames.RequestReadsBack` | app/shared/protocol.h:52-61 | all eight fields of the request frame read back: no field overlaps another |
| `ChatFrames.ResponseReadsBack` | app/shared/protocol.h:63-70 | a response frame parses back to its id, type, status and payload |
| `ChatFrames.FieldReadsBack` | backend/src/modules/chat/chat-encryption.service.ts:197-207 | a C string written to a field and read from it, cut to the field |
| `ChatFrames.WriteCString` | backend/src/modules/chat/chat-encryption.service.ts:197-201 | the field is written and nothing else |
| `ChatFrames.FillPayload` | driver/module/chat_driver_main.c:71-96 | the zeroed response buffer ends up as the transformed text and zeros |
| `ChatFrames.CipherKeepsWellFormed` | backend/src/modules/chat/chat-encryption.service.ts:203-207 | the cipher keeps UTF-8 well formed, so decoding the stored bytes loses nothing |
| `ChatFrames.CipherRequestIsOnTheWire` | backend/src/modules/chat/chat-encryption.service.ts:115-127 | what the processor reads from the frame is the request that was built |
| `ChatFrames.ReplyRefuses` | app/processor/processor_validation.c:12-68 | an empty payload is refused by validation |
| `ChatFrames.ReplyTransforms` | driver/module/chat_driver_main.c:62-103 | any other text is transformed and comes back under its id |
| `ChatFrames.FrameAcceptedIff` | app/processor/processor_validation.c:12-68 | a frame is accepted if and only if its mode is one of the three and the fields its kind needs were given; which refusal means what |
| `ChatFrames.HeaderReadsBack` | backend/src/modules/chat/chat-encryption.service.ts:188-195 | id, type and status read back: type 0 as an acknowledgement, a status of 2^31 or more as negative |
| `Username.ResolveUsernameCollision` | backend/src/modules/auth/utils/username.util.ts:3-18 | terminates for every finite set of taken names; the base if free, else the base with the least free suffix, at most the number of taken names |
| `Username.LeastFreeIsUnique` | backend/src/modules/auth/utils/username.util.ts:11-17 | that answer is the only one |
| `Username.CandidatesDiffer` | backend/src/modules/auth/utils/username.util.ts:13 | different suffixes are different names, by reading the decimals back |
| `Username.ParseOfDecimal` | backend/src/modules/auth/utils/username.util.ts:13 | decimal printing is injective |
| `UserFile.EmptyFileRun` | app/server/server_protocol.c:60-171 | from an empty file, after any registers and logins: every answer is the map's, usernames are unique, and parsing the printed file gives the entries |
| `UserFile.RunRefines` | app/server/server_protocol.c:60-171 | the same from any file that represents a map, and no accepted hash ever changes |
| `UserFile.StepRefines` | app/server/server_protocol.c:95-171 | one call on the file answers as the map does and represents the map after it |
| `UserFile.EntryReadsBackIff` | app/server/server_protocol.c:75-88 | the line loop reads a printed entry back, and nothing else, if and only if its payload has no white space, newlines included |
| `UserFile.FirstLine` | app/server/server_protocol.c:75 | every printed line fits the line buffer and is read whole |
| `UserFile.ParseAllOfPrintAll` | app/server/server_protocol.c:60-93 | printing then parsing is the identity on whole files |
| `UserFile.ScanIsMap` | app/server/server_protocol.c:60-93 | scanning the file is looking up the map |
| `UserFile.ValidateUsername` | app/server/server_protocol.c:43-58 | the loop accepts exactly the non-empty strings of the allowed alphabet; that a name has at most 31 characters comes from the 32-byte request field |
| `UserFile.UserDb.UserExists` | app/server/server_protocol.c:60-93 | the line loop finds exactly the registered names |
| `UserFile.UserDb.RegisterUser` | app/server/server_protocol.c:95-133 | the branches and the appended line |
| `UserFile.UserDb.ValidateLogin` | app/server/server_protocol.c:135-171 | the branches and the line loop |
| `UserHistory.AnswersFit` | app/server/server_protocol.c:60-171 | from an empty file, each answer is told by the requests and answers before it: a register succeeds exactly if none of that name did, a login exactly with the hash that was registered, and a name never registered is not found |
| `UserHistory.ExistsIffAccepted` | app/server/server_protocol.c:60-93 | after any requests a user exists if and only if a register of that name was accepted |
| `UserHistory.ExistsIffInMap` | app/server/server_protocol.c:60-93 | in a file that represents a map, a user exists if and only if the map has the name |
| `OnlineTable.Table.Register` | app/server/server.c:72-93 | takes a slot exactly if the name is not online and a slot is free; the table as a map gains that entry only |
| `OnlineTable.Table.Unregister` | app/server/server.c:95-108 | releases the name's slot and no other; the empty name releases nothing |
| `OnlineTable.Table.GetFd` | app/server/server.c:110-121 | the descriptor under the name, or -1 |
| `OnlineTable.Table.FindIndex` | app/server/server.c:60-70 | the one active slot of the name, or -1 |
| `OnlineTable.OnlineCount` | app/server/server.c:72-93 | active slots and online names are equally many; all slots are active exactly if 32 names are online |
| `OnlineTable.FillSlot` | app/server/server.c:83-89 | filling a free slot adds one entry and keeps one slot per name |
| `OnlineTable.ClearSlot` | app/server/server.c:101-105 | clearing a slot removes its entry only |
| `ChatServerSafety.EveryRunIsSafe` | app/server/server.c:131-253 | in every interleaving: no two authenticated sessions share a username, each username is mapped to its own session's descriptor, at most 32 are logged in, and each request has its one ack in order |
| `ChatServerSafety.StepKeepsInv` | app/server/server.c:131-253 | every step of every thread keeps the invariant |
| `ChatServerSafety.NoSlotLostIffNoLeakyLogin` | app/server/server.c:144-167 | slots are all released when the connections are gone if and only if no connection logged in again after a success in a way that forgets its name |
| `ChatServerSafety.LeakedAfterStep` | app/server/server.c:144-167 | exactly which step loses which slot |
| `ChatServerSafety.TableIsTheClaims` | app/server/server.c:72-121 | without a lost slot, names in the table and sessions are in bijection |
| `ChatServerSafety.LookupFindsPeer` | app/server/server.c:187-205 | what a chat request's lookup finds |
| `ChatServerSafety.ChatReachesPeer` | app/server/server.c:187-218 | a chat is delivered to the connection that had the name, and to no other, whatever runs in between, if and only if that connection has not been closed meanwhile |
| `ChatServerSafety.DescriptorReused` | app/server/server.c:200-217 | the other case is real: a run from the start in which a reused descriptor brings the message to a stranger |
| `ChatServerSafety.SlotLost` | app/server/server.c:144-151 | losing a slot is real: a run from the start after which no connection is left and the slot is still taken |
| `ChatServer.Threads.DoLoginCheck` | app/server/server.c:144-157 | the validation branch of login on the session and the table |
| `ChatServer.Threads.DoLoginRegister` | app/server/server.c:159-162 | taking the slot, or already online |
| `ChatServer.Threads.DoLoginFinish` | app/server/server.c:164-166 | recording the login in the session |
| `ChatServer.Threads.DoSelectPeer` | app/server/server.c:169-185 | the branches of peer selection |
| `ChatServer.Threads.DoChatLookup` | app/server/server.c:187-205 | the branches of a chat request up to the locked lookup |
| `ChatServer.Threads.DoChatWrite` | app/server/server.c:206-217 | the delivery to whoever has the descriptor, then the ack |
| `ChatServer.Threads.DoUnregister` | app/server/server.c:249-250 | the slot is given back before the descriptor is closed |
| `ChatServerAnswers.DeliveriesWereAskedFor` | app/server/server.c:187-218 | in every run from the start, each delivery was asked for at an earlier step by its sender, logged in under its name, when the peer was online on its descriptor |
| `ChatServerAnswers.ChatAnswer` | app/server/server.c:187-205 | a chat request is sent on, to the descriptor under the peer's name, if and only if its connection is logged in and names a peer who is online; otherwise it is acked at once |
| `ChatServerAnswers.WriteAnswer` | app/server/server.c:206-217 | one delivery, of that message in the sender's name, to exactly the holders of the descriptor, and one ack |
| `ChatServerAnswers.ConversationDelivers` | app/server/server.c:144-218 | with a free descriptor, name and slot, connecting, logging in, selecting an online peer and chatting ends with the message delivered to the peer's descriptor |
| `ChatServerAnswers.SlotDecides` | app/server/server.c:159-162 | after the file's yes a login takes its slot if and only if nobody is online under the name and one of the 32 slots is free |
| `ChatServerAnswers.LoginRefusedByFile` | app/server/server.c:144-151 | a login the file refuses leaves the connection logged out |
| `ChatServerAnswers.LoginFinishes` | app/server/server.c:164-166 | the session is logged in under that name |
| `ChatServerAnswers.SelectAnswer` | app/server/server.c:169-185 | the peer is selected if and only if the connection is logged in and the peer known and online; the request is acked either way |
| `ChatServerAnswers.LogoutAnswer` | app/server/server.c:241-243 | a logout is acked and ends the request loop |
| `ChatServerAnswers.LeavingFrees` | app/server/server.c:247-252 | a connection that leaves gives its name back and is gone |
| `AckMailbox.AcksFollowRequests` | app/client/client.c:244-409 | in every interleaving of sender, receiver and server: acks answer the requests once each and in order, and are consumed in that order |
| `AckMailbox.NoAckOverwritten` | app/client/client.c:268-296 | an ack enters an empty slot only, and a delivery never enters it |
| `AckMailbox.ReadyAckIsMine` | app/client/client.c:250-265 | a waiting sender that finds the slot full finds its own message id in it |
| `AckMailbox.StepKeepsInv` | app/client/client.c:244-409 | every step keeps the order of outstanding requests |
| `AckMailbox.SlotIsFree` | app/client/client.c:283-289 | when an ack is next to be received the slot is empty |
| `AckMailbox.Client.FinishWait` | app/client/client.c:259-265 | the caller gets the ack and the slot is emptied |
| `AckMailbox.Client.ReceiveOne` | app/client/client.c:272-289 | the receiver's two branches |
| `AckMailbox.Client.SubmitAuthRequest` | app/client/client.c:298-319 | the id is raised before it is used, and again at its end |
| `AckMailbox.Client.SubmitRequest` | app/client/client.c:321-409 | the id is used and then raised |
| `AckMailbox.IdsIncrease` | app/client/client.c:298-409 | in every run of fewer than 2^32 steps each request has an id larger than all before it |
| `AckMailbox.RequestAnswer` | app/client/client.c:298-409 | a request waits for its ack if and only if it could be formed and written; otherwise nothing goes out and the menu ends, or goes on for a chat or selection that could not be formed |
| `AckMailbox.NoWaitInVain` | app/client/client.c:244-296 | in every reachable state, while the receiver thread runs and the server thread has not left, steps of these two bring the waiting sender its ack |
| `AckMailbox.WaitEndsIff` | app/client/client.c:250-257 | in every run a waiting sender gives up exactly if the receiver thread has ended, and takes its ack exactly if the slot is full while it runs |
| `AckMailbox.WaitEndsWith` | app/client/client.c:259-265 | the ack of a logout ends the client, any other leaves it ready |
| `AckMailbox.RunKeepsRunning` | app/client/client.c:291-293 | running is set exactly while the receiver thread runs and the menu has not ended |
| `AckMailbox.LastAckIsLast` | app/server/server.c:241-250 | after the ack of a logout the server thread acks nothing more |
| `AuthSession.RevocationIsFinal` | backend/src/modules/auth/auth.service.ts:350-473 | once a revoke's save has landed, whatever else is in flight, no access token of the session authenticates again, except in a call that had already read the session |
| `AuthSession.EarlyReaderAccepted` | backend/src/modules/auth/auth.service.ts:455-473 | a call that read the session before the revoke landed is accepted after it |
| `AuthSession.AcceptedAfterRevokeIff` | backend/src/modules/auth/auth.service.ts:350-473 | after a revoke has landed some continuation still accepts a token of the session if and only if a call in flight read the session before and what it read would be accepted now |
| `AuthSession.EarlyReaderRun` | backend/src/modules/auth/auth.service.ts:350-473 | that is real: a run from the start that ends so, for every configuration with positive lifetimes |
| `AuthSession.RevokeLands` | backend/src/modules/auth/auth.service.ts:428-453 | a revoke lands with its save |
| `AuthSession.RevokedAtStays` | backend/src/modules/auth/auth.service.ts:389-453 | no save clears the revocation, a racing write of `expired` included |
| `AuthSession.LateReadersStayRefused` | backend/src/modules/auth/auth.service.ts:455-473 | whoever reads the session afterwards is refused |
| `AuthSession.LateRefreshSignsNothing` | backend/src/modules/auth/auth.service.ts:350-425 | after a revoke has landed, an access token of the session is signed only by a refresh or login already past its checks or its read |
| `AuthSession.SessionsAreNotExtended` | backend/src/modules/auth/auth.service.ts:310-334 | every successful authentication, after any refreshes, is for the session's own user, earlier than the session's issue plus the refresh lifetime, and its token was verified earlier than its signing plus the access lifetime |
| `AuthSession.StepKeepsInv` | backend/src/modules/auth/auth.service.ts:310-473 | every database step keeps the sessions' issue and expiry, and the facts about what is in flight |
| `AuthSession.ValidMeansBefore` | backend/src/modules/auth/auth.service.ts:548-554 | expiry in whole seconds still ends within the lifetime |
| `AuthSession.AuthService.IssueTokenPair` | backend/src/modules/auth/auth.service.ts:310-347 | the session document saved |
| `AuthSession.AuthService.Sign` | backend/src/modules/auth/auth.service.ts:534-554 | the access token signed |
| `AuthSession.AuthService.FindForRefresh` | backend/src/modules/auth/auth.service.ts:350-363 | verify and find |
| `AuthSession.AuthService.DecideRefresh` | backend/src/modules/auth/auth.service.ts:365-411 | the checks on the document found |
| `AuthSession.AuthService.SaveRefresh` | backend/src/modules/auth/auth.service.ts:389-414 | the two saves, each of its own field only |
| `AuthSession.AuthService.FindForRevoke` | backend/src/modules/auth/auth.service.ts:428-441 | verify and find; errors are ignored |
| `AuthSession.AuthService.SaveRevoke` | backend/src/modules/auth/auth.service.ts:443-445 | the save of both fields |
| `AuthSession.AuthService.CheckSession` | backend/src/modules/auth/auth.service.ts:462-472 | the checks on the document read, and the user |
| `AuthAnswers.DecideAnswer` | backend/src/modules/auth/auth.service.ts:365-411 | a refresh goes on to be granted if and only if the hash matches, the session is neither revoked nor expired, and the user exists; it marks the session exactly if that has only expired |
| `AuthAnswers.RefreshSigns` | backend/src/modules/auth/auth.service.ts:365-425 | a refresh that found its own unrevoked session, unexpired and with its user, ends with a new access token of that session and user |
| `AuthAnswers.RefusedNeverSigns` | backend/src/modules/auth/auth.service.ts:365-425 | a refused refresh signs nothing, whatever runs afterwards |
| `AuthAnswers.FindAnswer` | backend/src/modules/auth/auth.service.ts:350-363 | the session is found if and only if the refresh token has not expired and the session exists |
| `AuthAnswers.SaveAnswer` | backend/src/modules/auth/auth.service.ts:389-414 | each save writes its own field, on the document as it is by then |
| `AuthAnswers.SignAnswer` | backend/src/modules/auth/auth.service.ts:534-554 | exactly one token is added: of this session and user, issued now |
| `AuthAnswers.OnlySigningMints` | backend/src/modules/auth/auth.service.ts:534-554 | no other step signs a token |
| `AuthAnswers.IssueAnswer` | backend/src/modules/auth/auth.service.ts:310-347 | a login adds one active session of the configured lifetime, with its refresh token |
| `AuthAnswers.LoginThenAuthenticate` | backend/src/modules/auth/auth.service.ts:310-473 | a login's token authenticates its user within both lifetimes |
| `AuthAnswers.AuthenticateWorks` | backend/src/modules/auth/auth.service.ts:455-473 | so does every signed token of an active, unrevoked session |
| `AuthAnswers.CheckAnswer` | backend/src/modules/auth/auth.service.ts:462-472 | the user is returned if and only if the session read is active, not revoked and not expired, and the user exists |
| `AuthAnswers.VerifyAnswer` | backend/src/modules/auth/auth.service.ts:455-461 | an access token passes verification until its lifetime is over |
| `AuthAnswers.RevokeFindAnswer` | backend/src/modules/auth/auth.service.ts:428-441 | a revoke goes on if and only if the token has not expired and the session exists |
| `AuthAnswers.RevokeSaveAnswer` | backend/src/modules/auth/auth.service.ts:443-445 | the session is revoked from now on, and nothing else changes |
| `HttpRefresh.OneRefreshInFlight` | frontend/src/services/http.ts:56-68 | in every interleaving at most one refresh started by the interceptor is in flight |
| `HttpRefresh.WaitersShareTheOutcome` | frontend/src/services/http.ts:56-68 | requests that awaited one refresh got the same token or the same failure |
| `HttpRefresh.SentAtMostTwice` | frontend/src/services/http.ts:80-112 | each request goes out once, and once more exactly if its refresh brought a token; requests that opt out never do; a second sending carries a token, and an opted-out request none |
| `HttpRefresh.StartsRefreshIff` | frontend/src/services/http.ts:80-97 | a refresh starts exactly on an expired answer to a request sent once, that has not opted out, while a handler is set and none is pending |
| `HttpRefresh.RefreshesAtMostExpired` | frontend/src/services/http.ts:80-112 | refreshes never outnumber the requests that met an expired token |
| `HttpRefresh.CallbacksRunOut` | frontend/src/services/http.ts:56-112 | without new requests the callbacks end, within a measure each of them lowers |
| `HttpRefresh.NoRequestIsStuck` | frontend/src/services/http.ts:56-112 | while a request is open one of its callbacks can run |
| `HttpRefresh.StepKeepsInv` | frontend/src/services/http.ts:56-112 | every callback keeps the invariant |
| `HttpRefresh.HttpClient.OnReply` | frontend/src/services/http.ts:80-97 | the branches of the response interceptor up to its await |
| `HttpRefresh.HttpClient.RunSharedRefresh` | frontend/src/services/http.ts:56-68 | no handler, the pending refresh, or a new one |
| `HttpRefresh.HttpClient.OnFinally` | frontend/src/services/http.ts:62-64 | the shared promise is cleared before its waiters go on |
| `HttpRefresh.HttpClient.OnRefreshed` | frontend/src/services/http.ts:97-111 | the retry with the token, or giving up |
| `HttpRefresh.HttpClient.OnHandlerDone` | frontend/src/store/auth.store.ts:33-52 | the handler stores the token or clears it |
| `HttpRefresh.HttpClient.SendRequest` | frontend/src/services/http.ts:70-78 | the request interceptor |
| `HttpAnswers.RetryCarriesItsToken` | frontend/src/store/auth.store.ts:33-52 | a refresh that answers a token: whatever runs before a waiter resumes, unless it is a login, another answer or a request given up, the waiter goes out again with exactly that token |
| `HttpAnswers.ExpiredRequestRetried` | frontend/src/services/http.ts:56-106 | from the start, a request refused for an expired token is sent again with the token its refresh brings |
| `HttpAnswers.HandlerAnswer` | frontend/src/store/auth.store.ts:33-52 | the handler's answer becomes the access token and the flight's |
| `HttpAnswers.FinallyAnswer` | frontend/src/services/http.ts:62-64 | the flight is settled with its answer and no longer shared |
| `HttpAnswers.SendAnswer` | frontend/src/services/http.ts:70-78 | a request goes out with the access token of the moment unless it opts out |
| `HttpAnswers.TokenInUse` | frontend/src/services/http.ts:70-78 | after a login the next request carries its token, after a logout none |
| `HttpAnswers.ReplyAnswer` | frontend/src/services/http.ts:80-97 | a request succeeds with a success, waits for a refresh on the expiry of its first sending, and fails otherwise; failing after a retry gives the session up |
| `HttpAnswers.ResumeAnswer` | frontend/src/services/http.ts:97-111 | with a token the request goes out once more; without one it fails and the session is given up |
| `ThreadWhole.WholeHistoryIff` | frontend/src/features/chat/chat.page.tsx:474-485 | first page, then older pages, in any interleaving with new messages, failures and live deliveries in any order: once no page is missing, the thread is the whole history, ascending, without gap or duplicate, if and only if no page brought a message that was there already, no request skipped a message that is not delivered, and every later message was delivered |
| `ThreadWhole.PagingRebuildsIff` | frontend/src/features/chat/chat.page.tsx:986-1011 | under the first two conditions, and only then, it is the history read at first together with what was delivered |
| `ThreadWhole.InOrderIff` | frontend/src/features/chat/chat.page.tsx:1003-1006 | once no page is missing, the thread is ascending and free of duplicates if and only if no page brought a message that was there already |
| `ThreadWhole.CompleteSkipsNothing` | frontend/src/features/chat/chat.page.tsx:986-1000 | a thread that is complete in the end skipped nothing at any request |
| `ThreadWhole.HarmlessRunsAreWhole` | frontend/src/features/chat/chat.page.tsx:986-1011 | a run in which each late delivery is harmless by its own guard meets both conditions |
| `ThreadWhole.LateDeliverySkips` | frontend/src/features/chat/chat.page.tsx:995-1000 | skipping is real: for every history of twelve messages a run that ends without the second |
| `ThreadWhole.LateDeliveryDoubles` | frontend/src/features/chat/chat.page.tsx:1003-1006 | doubling is real: for every history of twelve messages a run that ends with the first one twice |
| `ThreadPaging.StepConserves` | frontend/src/features/chat/chat.page.tsx:986-1011 | every step, but for a late delivery that is not harmless, conserves the thread together with the history below it |
| `ThreadWhole.PagingEnds` | frontend/src/features/chat/chat.page.tsx:986-1011 | paging ends in every run: at most one page arrives for every ten messages read at first, fewer while pages are missing, and exactly that many if nothing is delivered late |
| `ThreadAnswers.AnyRunCanBeCompleted` | frontend/src/features/chat/chat.page.tsx:986-1011 | whatever was stored, delivered or failed before, scrolling up can load the missing pages to the end; if every late delivery was harmless the thread then is the history read at first with what was delivered |
| `ThreadAnswers.ScrollingShowsAll` | frontend/src/features/chat/chat.page.tsx:474-485 | with no live traffic the first page shows the ten newest messages and scrolling up shows all of them in order, in as many pages as there are tens |
| `ThreadAnswers.ScrollToTop` | frontend/src/features/chat/chat.page.tsx:986-1011 | from every state of the invariant the server's last page can be reached |
| `ThreadView.PageIsNewest` | backend/src/modules/chat/chat.service.ts:494-501 | sorting newest first, limiting and reversing is the end of the ascending history below the cursor |
| `ThreadPaging.HistoryUnderInsert` | backend/src/modules/chat/chat.service.ts:494-501 | newer messages do not change a page |
| `ThreadPaging.LateDeliveryHarmlessIff` | frontend/src/features/chat/chat.page.tsx:995-1006 | a delivery older than the thread while pages are missing leaves thread and history as they were, once the page on its way has arrived, if and only if there is no such page and nothing lies between the message and the thread |
| `ThreadView.DeliveryConverges` | frontend/src/features/chat/chat.page.tsx:128-136 | two delivery sequences of the same messages, in any order and with any repetition, give the same strictly ascending thread |
| `ThreadView.ArrivalOrderShowsIff` | frontend/src/features/chat/chat.page.tsx:133-135 | two new messages end up in the same order whichever comes first exactly if their times differ |
| `ThreadView.DeliverIsUnion` | frontend/src/features/chat/chat.page.tsx:128-136 | deliveries add exactly the messages delivered |
| `ThreadView.ChatPage.FirstPageArrived` | frontend/src/features/chat/chat.page.tsx:474-485 | the state after the first page |
| `ThreadView.ChatPage.LoadMoreMessages` | frontend/src/features/chat/chat.page.tsx:986-1003 | the guards, and the cursor sent |
| `ThreadView.ChatPage.OlderPageArrived` | frontend/src/features/chat/chat.page.tsx:1003-1008 | the page goes in front, and fewer than ten messages end paging |
| `ThreadView.ChatPage.OnMessage` | frontend/src/features/chat/chat.page.tsx:528-550 | a live delivery in the open conversation |
| `StableSort.StableSortIsUnique` | frontend/src/features/chat/chat.page.tsx:133-135 | the sort used is the only result a stable sort can have |
| `ConversationList.PreviewMovesOnlyItsConversation` | frontend/src/features/chat/chat.page.tsx:138-168 | the list is reloaded exactly if the conversation is not in it; otherwise it comes back latest first, the named conversation carries exactly the new fields, and the others are unchanged and, if the list was in order, keep their order |
| `ChatUnread.UnreadIsTheCount` | backend/src/modules/chat/chat.service.ts:343-444 | after any calls, each row's counter is the number of messages of others stored while the row was active since its user last sent or marked read, counting bot messages and the message that restores a left direct member |
| `ChatUnread.StepKeepsInv` | backend/src/modules/chat/chat.service.ts:218-731 | every service call keeps that |
| `ChatUnread.SendMovesCounters` | backend/src/modules/chat/chat.service.ts:333-444 | what a successful send does to every row, restored rows included |
| `ChatUnread.FailedSendMovesNothing` | backend/src/modules/chat/chat.service.ts:333-383 | a refused send moves no counter and stores no message |
| `ChatUnread.BotSendMovesCounters` | backend/src/modules/chat/chat.service.ts:462-485 | the bot resets nobody |
| `ChatUnread.MarkReadMovesCounters` | backend/src/modules/chat/chat.service.ts:604-629 | mark-read resets the reader's row only |
| `ChatMembership.LogIsMembership` | backend/src/modules/chat/chat.service.ts:240-270 | in a group, after any calls: at most one active row per user, and one exactly if the user's last event is that they joined or were added |
| `ChatMembership.StepKeepsInv` | backend/src/modules/chat/chat.service.ts:658-731 | every service call keeps that |
| `ChatMembership.EventsAppended` | backend/src/modules/chat/chat.service.ts:258-268 | the event log only grows |
| `ChatReplay.ReplayFailsIff` | backend/src/modules/chat/chat.service.ts:847-880 | in a direct conversation, after any calls that add nobody to one: whoever the replayed log makes a member is active, and a user is active whom it does not make a member if and only if a send of the other side, accepted or refused, passed its sender check while the row was `left` and the user has not departed since |
| `ChatReplay.BroughtBackLooksGone` | backend/src/modules/chat/chat.service.ts:847-880 | the last event of such a user is `left`, or `removed` for one removed after leaving |
| `ChatReplay.SendRestores` | backend/src/modules/chat/chat.service.ts:343-344 | whatever becomes of the send after its sender check, the other row is active again and no event is recorded |
| `ChatReplay.SendBringsBackLeaver` | backend/src/modules/chat/chat.service.ts:343-356 | the failure is real: after every run that leaves two users active in a direct conversation, one of them leaving and the other sending a text, accepted or refused, ends with a user who is active and looks gone |
| `ChatReplay.RefusedAfterRestoring` | backend/src/modules/chat/chat.service.ts:344-356 | such a send is refused for a malformed attachment id after the restoration |
| `ChatReplay.OpenersAreActive` | backend/src/modules/chat/chat.service.ts:240-270 | the users who open a direct conversation are two such users |
| `ChatDirect.OpeningAgainFindsIt` | backend/src/modules/chat/chat.service.ts:224-238 | whatever both sides did since, opening the conversation again from either side returns the same one and changes nothing |
| `ChatDirect.OnePerPair` | backend/src/modules/chat/chat.service.ts:280-331 | at most one direct conversation per pair |
| `ChatDirect.TwoRowsEach` | backend/src/modules/chat/chat.service.ts:246-256 | each direct conversation keeps exactly two rows, of two users |
| `ChatDirect.StepKeepsInv` | backend/src/modules/chat/chat.service.ts:218-731 | every service call but adding a member to a direct conversation keeps that |
| `ChatDirect.AddMemberHidesIt` | backend/src/modules/chat/chat.service.ts:658-686 | adding a member leaves a direct conversation to be found again exactly if that user was active in it already |
| `ChatDirect.FoundIff` | backend/src/modules/chat/chat.service.ts:280-331 | the search finds exactly the conversation of the two |
| `ChatAttachments.AttachedIffLinked` | backend/src/modules/chat/chat.service.ts:346-422 | an attachment is attached exactly if a message names it and it names that message, in one conversation, sender and uploader being one |
| `ChatAttachments.CarriedIffLinked` | backend/src/modules/chat/chat.service.ts:386-415 | the same from the message's side |
| `ChatAttachments.LinkIsOneToOne` | backend/src/modules/chat/chat.service.ts:386-422 | the pairing is one to one |
| `ChatAttachments.StepRises` | backend/src/modules/chat/chat-attachment.service.ts:115-143 | which call moves an attachment from which status to which |
| `ChatAttachments.AttachedIsFinal` | backend/src/modules/chat/chat-attachment.service.ts:134-140 | statuses never fall, and attached is final |
| `ChatAttachments.DownloadsWereSent` | backend/src/modules/chat/chat-attachment.service.ts:164-172 | only a sent attachment passes the download gate, for an active user of its conversation |
| `ChatSeen.SeenIffRead` | backend/src/modules/chat/chat.service.ts:604-649 | after any calls, a message is seen exactly if, after it was stored, an active participant other than its sender marked the conversation read while the sender was active |
| `ChatSeen.MarksStay` | backend/src/modules/chat/chat.service.ts:604-649 | a mark never goes away |
| `ChatSeen.MarkReadIsComplete` | backend/src/modules/chat/chat.service.ts:625-649 | right after a mark-read exactly the messages of the other active participants are newly seen |
| `ChatSeen.StepKeepsSeen` | backend/src/modules/chat/chat.service.ts:218-731 | every service call keeps the correspondence |
| `ChatService.Store.CreateConversation` | backend/src/modules/chat/chat.service.ts:218-270 | the branches and the documents inserted |
| `ChatService.Store.FindDirectConversation` | backend/src/modules/chat/chat.service.ts:280-331 | the maps and loops find the same conversation as the specification |
| `ChatService.Store.SendMessage` | backend/src/modules/chat/chat.service.ts:333-444 | the branches in order, restoration before the checks that can still fail |
| `ChatService.Store.SendAiBotMessage` | backend/src/modules/chat/chat.service.ts:462-485 | the bot's message |
| `ChatService.Store.MarkConversationRead` | backend/src/modules/chat/chat.service.ts:604-656 | the reader's row and the seen marks |
| `ChatService.Store.AddMember` | backend/src/modules/chat/chat.service.ts:658-686 | already a member, or a new row and event |
| `ChatService.Store.RemoveMember` | backend/src/modules/chat/chat.service.ts:688-705 | the row, if any, and always the event |
| `ChatService.Store.MarkConversationLeft` | backend/src/modules/chat/chat.service.ts:715-731 | the same for leaving |
| `ChatService.Store.RestoreDirectParticipantsIfNeeded` | backend/src/modules/chat/chat.service.ts:847-880 | every left row of the others in a direct conversation is active again |
| `ChatService.Store.IncrementUnreadForOtherParticipants` | backend/src/modules/chat/chat.service.ts:882-898 | every active row of the others is raised by one, and no other |
| `ChatService.Store.CreateAttachment` | backend/src/modules/chat/chat-attachment.service.ts:50-97 | the checks and the draft |
| `ChatService.Store.MarkAttachmentUploaded` | backend/src/modules/chat/chat-attachment.service.ts:115-143 | the checks and the status |
| `ChatAnswers.SendSucceedsIff` | backend/src/modules/chat/chat.service.ts:333-398 | a send succeeds if and only if a text or an attachment is given, the sender is active, the attachment is uploaded, theirs and of this conversation, and encryption answered whenever there is a text |
| `ChatAnswers.SendStores` | backend/src/modules/chat/chat.service.ts:384-415 | one message is appended: that conversation, sender, time and command flag, that attachment, and as its content what the driver answered, or nothing without a text |
| `ChatAnswers.SendAttaches` | backend/src/modules/chat/chat.service.ts:417-422 | the attachment is bound to that message and no other changes |
| `ChatAnswers.SendFailsBecause` | backend/src/modules/chat/chat.service.ts:333-382 | what each refusal of a send means |
| `ChatAnswers.BotStores` | backend/src/modules/chat/chat.service.ts:462-472 | the bot's message is appended as it is, marked as the bot's |
| `ChatAnswers.OpenDirectAnswer` | backend/src/modules/chat/chat.service.ts:218-238 | with oneself it is refused, an existing conversation of the two is returned, and only without one a conversation is opened |
| `ChatAnswers.OpenGroupAnswer` | backend/src/modules/chat/chat.service.ts:240-269 | a group is opened |
| `ChatAnswers.CreateOpens` | backend/src/modules/chat/chat.service.ts:240-269 | one active row and one event for the creator, as owner and joined, and for each of the others, as member and added by the creator, each user once |
| `ChatAnswers.AddAnswer` | backend/src/modules/chat/chat.service.ts:658-686 | an active user is a member already and nothing changes; anybody else gets one member row and the event that says who added them |
| `ChatAnswers.RemoveAnswer` | backend/src/modules/chat/chat.service.ts:688-705 | one active row of the user is removed, if there is one, and the event says by whom |
| `ChatAnswers.LeaveAnswer` | backend/src/modules/chat/chat.service.ts:715-731 | one active row of the user is left, if there is one, and the event is recorded |
| `ChatAnswers.MarkReadAnswer` | backend/src/modules/chat/chat.service.ts:604-605 | exactly the active participants can mark a conversation read |
| `ChatAnswers.RequestUploadAnswer` | backend/src/modules/chat/chat-attachment.service.ts:50-97 | a draft of this user in this conversation is recorded if and only if the file is described, within 25 MB, the conversation exists and the user is active in it |
| `ChatAnswers.ConfirmUploadAnswer` | backend/src/modules/chat/chat-attachment.service.ts:115-143 | an upload is confirmed if and only if the user is active in the conversation and the attachment is theirs, of this conversation, and not attached yet |
| `ChatDomain.FirstActive` | backend/src/modules/chat/chat.service.ts:272-278 | the first active row of the user in the conversation, or none |
| `ChatDomain.LatestSentAt` | backend/src/modules/chat/chat.service.ts:606-608 | the greatest time of the conversation's messages |
| `ChatDomain.Dedup` | backend/src/modules/chat/chat.service.ts:246 | each user once |

## Left out

- Concurrency inside one call of the chat services: their reads and writes are not atomic in the code, and each call is one step here.
- Adding a member to a direct conversation is allowed in the unread, attachment and seen theorems, and excluded from the runs of `ChatDirect`; the exact effect is stated.
- `findDirectConversation` orders its candidates by `updatedAt`; the model takes the first created. In the runs of `ChatDirect` there is at most one candidate.
- `lastReadMessageId`, `lastReadAt`, `lastMessageAt`, roles beyond owner, previews and realtime payloads, message search and listing.
- Malformed conversation ids, which are refused before anything is read; and service calls on a conversation that does not exist, for the calls whose callers check membership first (add, remove, leave, bot message).
- Texts over 511 bytes: the frame cuts them, and may cut inside a UTF-8 character. The round trip is stated up to 511 bytes of well-formed UTF-8; JavaScript strings are their UTF-8 bytes.
- An empty conversation id, which the processor refuses; the fallback texts for a disabled or unreachable processor, and the environment settings.
- The SHA-1 mode inside a request frame; the digest itself is in `Sha1Engine`.
- `/dev/device` used by several processes at once: the last response is global, and the pairing of a write with its read holds only when nothing comes between.
- Partial writes to one descriptor by two server threads: one write of a frame is one step.
- `ChatServer.Threads` has no socket errors other than a connection ending; a failed delivery is acknowledged as the code does.
- `AckMailbox.IdsIncrease` ends where the 32-bit counter wraps around, after which ids repeat; the runs of the other theorems have no such bound.
- The client's `main` clears `running` after its menu has ended; in `AckMailbox` that is one step with what ended it.
- I/O failures of the user file, and user files not written by this server.
- `UserFile.EmptyFileRun` is about usernames of 1 to 31 allowed characters and payloads of 1 to 63 characters without white space, as the protocol and the hash in use produce.
- Several conversations opened in turn while pages are in flight: a page that arrives after another conversation was opened is put into that one. The runs of `ThreadWhole` start when a first page arrives and stay in that conversation, and deliveries before that are overwritten by it.
- `handleConversationRead`, which replaces the thread without resetting `hasMoreMessages`; the `isTailOfSenderGroup` flag, computed page by page.
- Negative page limits other than as the database reads them, and equal `sentAt` values in paging, where the strict cursor skips ties.
- `hydrateSession`, which refreshes without the shared promise: `HttpRefresh` covers the refreshes the interceptor starts, and other code may change the token at any time.
- A failing retry clears the access token, whatever the failure; this is modelled as the code does it, and no property says the session survives.
- Role checks, profile texts, notifications, key rotation, moderation and enum names would add easy members only.
