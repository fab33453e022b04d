# A verified model of the account plugin's hard parts

The plugin lets one coding client share several ChatGPT accounts: it refreshes their credentials, spends
reset credits, decides which account serves which session, rewrites requests so that a changed reasoning
effort does not lose the prompt cache, and speaks WebSocket to the provider through a client of its own.
This project models the parts of it that many processes, many requests or many bytes run through at once,
and proves what each of them is for.

`dafny verify dfyconfig.toml` checks everything. One module per component:

- `EffortRewrite`: the mid-conversation effort rewrite. A spliced list still means what the host asked for,
  can be erased back to the host's list, and only ever grows at its end.
- `Frames`, `WebSocketClient`: the WebSocket client after its handshake, after sections 5.1 to 5.4, 5.7 and
  7.4.1 of RFC 6455. Frames are parsed back whatever chunks they arrive in, messages are reassembled, one
  close event is reported, and the peer reads exactly what it is owed, no byte lost or reordered under
  backpressure.
- `ResetCredits`, `ResetProtocol`, `LostAnswers`: the redemption of an irreversible credit, as the code's locked
  edits and as a protocol of any number of processes against a server that dedupes on the pair, and which
  answers of that server may go unrecorded.
- `Credentials`, `RefreshProtocol`, `TiedAnswers`, `Roster`: the account store. Which credential a save keeps,
  the rotation of single-use refresh tokens by many processes and what it depends on, and the entries a writer
  must not lose.
- `StickyPins`, `PinOverlay`, `PinVisibility`, `StaleSnapshots`, `SidebarCache`, `BookkeepingQueue`: the session
  pins. Placement and the bytes it commits, the size limit, the overlay of pins not yet on disk, whether a process reads its
  own pins back, the stat-keyed cache of the file, and the retrying write queue behind it.
- `Killswitch`: per-account floors in two settings vocabularies, the migration between them, and Retry-After.
- `FallbackSend`: the loops that try other accounts, and the responses they must hand on or cancel.
- `VaultDiscovery`: discoveries shared by concurrent callers, each of which needs one that began after it asked.
- `Prelude`, `Arithmetic`: an option type, flattening, and two facts about division.

Where the source edits objects in place, the model has a class with the same fields whose methods are proved
against specification functions; the properties are lemmas about those functions. Where it runs
concurrently, each stretch between two awaits, or under one lock, is one step of a state machine, and the
lemmas speak of every run.

## What holds only under a condition

- A process does not always read its own pins back. A request that still holds a snapshot read before the pin
  was written, while another request has already used a later one, places the session again
  (`StaleSnapshots.LateSnapshotMisses`), or records an older placement that the next read undoes although its
  entry is in the overlay (`StaleSnapshots.StalePlacementIsUndone`). `PinVisibility.VisibleExactly` gives the
  condition in every reachable state and for a snapshot of any age: the entry is in the overlay and the snapshot
  was not read after the entry's write was seen to have landed, or the snapshot itself shows the placement,
  unexpired and on a slot not recorded under another ChatGPT account. `PinVisibility.ReadsItsOwnPins` proves the
  guarantee for runs in which each placement used a snapshot no older than one used before, or found the pin in
  the overlay.
- The cached prefix is lost when a request without any user message asks for another effort than the pin: it is
  sent under its own effort, and the next user message brings the pin back (`EffortRewrite.NoTurnLosesPrefix`).
  `EffortRewrite.PrefixStable` and `EffortRewrite.ConversationKeepsPrefix` say exactly when.
- The killswitch migration changes the floors of an account whose thresholds are not finite numbers, of a
  fallback account named `main`, and of one named like a property every object inherits.
  `Killswitch.MigrationKeepsFloors` is an if-and-only-if on the first, `Killswitch.UncoveredAccountChanges`
  shows the others.
- No double spend depends on which answers fail to be recorded. `LostAnswers.LossSafeExactly` gives the condition
  for every reachable state: losing an answer can lead to a second consumption if and only if the saved pair was
  consumed, the answer is no refusal, no other answer that rules one out is left to record, and a refusal is saved
  or on its way. `LostAnswers.LostAnswerSpendsTwice` and `LostAnswers.LostAnswerFreesRefusal` are a run for each.
- Retry-After is not exact for a floor that is no number: such a window blocks nothing, but its reset is waited for
  (`Killswitch.NotANumberOvershoots`). `Killswitch.RetryAfterExact` says when the answer is exact, and
  `Killswitch.NumbersAreExact` that it always is for floors that compare as numbers.
- Two provider answers in the same millisecond are ordered by expiry only. `TiedAnswers.SingleUseExactly` proves, for
  every reachable state and every answer, that no later step can send a spent token if and only if the answer is
  later in that order; `TiedAnswers.TiedAnswerIsLost` is a run in which it is not.

## Assumptions of the protocols

- `ResetProtocol` (in `Enabled` and `ServerMay`): every process is signed in as the same ChatGPT account; new
  identifiers are unique and credit ids not empty; the server acts on a send before its answer is recorded,
  never refuses a pair it consumed and never consumes one it answered for good; no send of a pair is
  outstanding when the pair is replaced; an answer goes unrecorded only where that is safe (`LossIsSafe`, which
  `LostAnswers` proves exact); fewer than 2^53 unknown answers per pair. The row may hold anything at first, a
  damaged pair or another account's included.
- `ResetProtocol.NoMintInCooldown`: the clocks of the claims do not go back.
- `RefreshProtocol` (in `Enabled`): the lock is exclusive; an answer that rotated the token reaches its
  caller, whose save lands before the lock is released; one clock does not go back, and an answer within the
  millisecond of the last one expires later; each saver's clock is at most five minutes behind it.
- `PinVisibility` (in `Enabled`): nobody else writes or prunes the session's pin; at most 256 sessions are
  remembered; one write attempt at a time is under way for a pin, which `BookkeepingQueue.NothingIsLost`
  proves of the queue; a placement's time is the clock when it is placed.
- `SidebarCache`: the file's stat key does not come back once the file has changed.

## Model

| member | source | states |
|---|---|---|
| EffortRewrite.ApplyMidConversationEffort | packages/opencode/src/index.ts:1324-1399 | the whole function in place: it leaves the session state, the request effort and the input that `Apply` gives, and never the model |
| EffortRewrite.RewriteUnderPin | packages/opencode/src/index.ts:1357-1398 | the part after the pin is known to hold, including the start-over guard |
| EffortRewrite.RecordChange | packages/opencode/src/index.ts:1359-1368 | push, pop or overwrite of the last change is `Revise` |
| EffortRewrite.AnchorsGrow | packages/opencode/src/index.ts:1377-1381 | comparing neighbours decides whether all anchors strictly increase |
| EffortRewrite.InjectUpdates | packages/opencode/src/index.ts:1387-1398 | inserting from the highest anchor down gives the list with every update in front of the item at its original index |
| EffortRewrite.SpliceLowest | packages/opencode/src/index.ts:1387-1398 | inserting the lowest anchor last equals inserting it first: higher insertions do not move lower anchors |
| EffortRewrite.ReviseAlternates | packages/opencode/src/index.ts:1359-1368 | consecutive efforts differ, and the last recorded one is the requested effort |
| EffortRewrite.ReviseKeepsAnchors | packages/opencode/src/index.ts:1358-1376 | recording at the last user message keeps the anchors increasing and fingerprinted |
| EffortRewrite.ApplyKeepsInv | packages/opencode/src/index.ts:1344-1399 | any request keeps the state well formed, and a rewritten one is sent under the pin |
| EffortRewrite.UntouchedUnlessRewritten | packages/opencode/src/index.ts:1324-1399 | for every state and request, the effort or the list sent differs from the host's only where the rewrite applies; a request left alone changes the session only when it starts it over |
| EffortRewrite.HelpersGoUntouched | packages/opencode/src/index.ts:1329-1335 | requests of the title, compaction and summary agents, for other models or without an effort go out exactly as the host made them, in between those of a conversation too, and leave the session as it was; no other request is passed over so |
| EffortRewrite.EveryRunKeepsInv | packages/opencode/src/index.ts:1324-1399 | the same over every sequence of requests |
| EffortRewrite.GuardUnreachable | packages/opencode/src/index.ts:1373-1385 | after every run the start-over guard is not the branch taken |
| EffortRewrite.SpliceMeaning | packages/opencode/src/index.ts:1386-1398 | erasing injected items gives the host's list; folding them over the pin gives the last effort |
| EffortRewrite.SplicePlacement | packages/opencode/src/index.ts:1387-1398 | every injected item precedes a user message with the fingerprint recorded when the change was made |
| EffortRewrite.EffortAtLastUser | packages/opencode/src/index.ts:1386-1398 | all updates are read before the last user message |
| EffortRewrite.RewritePreservesMeaning | packages/opencode/src/index.ts:1316-1399 | on every rewritten request of every run: the provider reads the requested effort at the last user message, erasure gives the host list, no two injected items are adjacent, every change is sent |
| EffortRewrite.PinnedSendIsSplice | packages/opencode/src/index.ts:1344-1399 | a request sent under the pin sends its list with exactly the recorded changes |
| EffortRewrite.GrowthChanged | packages/opencode/src/index.ts:1361-1398 | a changed effort is recorded behind everything sent before |
| EffortRewrite.GrowthKeepsPrefix | packages/opencode/src/index.ts:1316-1399 | a grown list is sent with the earlier sent list as a prefix |
| EffortRewrite.SentUnderPin | packages/opencode/src/index.ts:1344-1372 | a request is sent under the pin if and only if it is not one without a user message and with another effort |
| EffortRewrite.NoTurnGoesOn | packages/opencode/src/index.ts:1369-1372 | after such a request the next ones keep their own effort until a user message comes, and then go back to the pin |
| EffortRewrite.PrefixStable | packages/opencode/src/index.ts:1316-1399 | with helper agents and other models in between, the earlier sent list is a prefix under the same effort if and only if the earlier request was sent under the pin or no user message has come since |
| EffortRewrite.NoTurnLosesPrefix | packages/opencode/src/index.ts:1369-1372 | a concrete pair of requests at which the prefix is lost |
| EffortRewrite.ConversationEffort | packages/opencode/src/index.ts:1344-1399 | the effort each request of a conversation is sent under |
| EffortRewrite.ConversationKeepsPrefix | packages/opencode/src/index.ts:1316-1399 | over a whole conversation, what was sent first stays a prefix of what is sent later, under the same if-and-only-if |
| Frames.XorTwice | packages/opencode/src/raw-ws-bun.ts:373-374 | masking a byte twice gives it back |
| Frames.UnmaskMasked | packages/opencode/src/raw-ws-bun.ts:364-378 | unmasking a masked payload gives the payload, for every key and length |
| Frames.XorBits | packages/opencode/src/raw-ws-bun.ts:373-374 | every bit of the result is the exclusive or of the two bits |
| Frames.MaskedBits | packages/opencode/src/raw-ws-bun.ts:373-374 | each masked octet is the payload's combined, bit by bit, with the key octet at its position modulo four |
| Frames.BigEndianRoundTrip | packages/opencode/src/raw-ws-bun.ts:295-304 | length bytes decode to the length they encode |
| Frames.ParseIgnoresLaterBytes | packages/opencode/src/raw-ws-bun.ts:285-309 | a frame that has arrived is not changed by later bytes |
| Frames.ParseEncoded | packages/opencode/src/raw-ws-bun.ts:283-310 | header decoding consumes exactly the bytes of an encoded frame, in all three length forms, masked or not |
| Frames.ExampleFrames | packages/opencode/src/raw-ws-bun.ts:283-310 | the example frames of section 5.7 of RFC 6455, byte for byte |
| Frames.ExampleHeaders | packages/opencode/src/raw-ws-bun.ts:362-372 | so the headers of its 256 and 65,536 byte examples |
| Frames.DrainInTwo | packages/opencode/src/raw-ws-bun.ts:210-311 | draining a prefix and then the rest equals draining the whole |
| Frames.ChunkIndependence | packages/opencode/src/raw-ws-bun.ts:210-311 | every cutting of a byte stream into chunks gives the same frames and the same remainder |
| Frames.DrainEncoded | packages/opencode/src/raw-ws-bun.ts:283-311 | an encoded frame sequence drains to itself with nothing left |
| WebSocketClient.FrameHeader | packages/opencode/src/raw-ws-bun.ts:362-372 | the header written is the final masked header in the shortest length form |
| WebSocketClient.MaskBytes | packages/opencode/src/raw-ws-bun.ts:373-374 | the loop masks every byte with its key byte |
| WebSocketClient.ConcatAll | packages/opencode/src/raw-ws-bun.ts:444-453 | the parts in order, none lost |
| WebSocketClient.ReadFrame | packages/opencode/src/raw-ws-bun.ts:286-307 | the field-by-field decoding is `ParseFrame`, unfinished frames included |
| WebSocketClient.ReadEightBytes | packages/opencode/src/raw-ws-bun.ts:300-302 | the eight-byte length loop reads a big-endian number |
| WebSocketClient.RawWebSocket.EmitClose | packages/opencode/src/raw-ws-bun.ts:98-105 | only the first reported close is delivered |
| WebSocketClient.RawWebSocket.OnSocketClose | packages/opencode/src/raw-ws-bun.ts:188-199 | the peer's own code is reported when it sent one, 1006 otherwise |
| WebSocketClient.RawWebSocket.FlushWrites | packages/opencode/src/raw-ws-bun.ts:391-407 | accepted and queued bytes together are unchanged, whatever part of each write the socket takes |
| WebSocketClient.RawWebSocket.EnqueueWrite | packages/opencode/src/raw-ws-bun.ts:386-389 | accepted and queued bytes together grow by exactly the new bytes |
| WebSocketClient.RawWebSocket.WriteFrame | packages/opencode/src/raw-ws-bun.ts:362-384 | one more frame is written and outgoing bytes stay exactly the frames written |
| WebSocketClient.RawWebSocket.Send | packages/opencode/src/raw-ws-bun.ts:357-360 | a text frame while open, nothing otherwise |
| WebSocketClient.RawWebSocket.HandleFrame | packages/opencode/src/raw-ws-bun.ts:313-355 | one frame has the effect `AfterFrame` |
| WebSocketClient.RawWebSocket.HandleCloseFrame | packages/opencode/src/raw-ws-bun.ts:320-340 | same outcome whether or not ending the socket runs the TCP close callback first |
| WebSocketClient.RawWebSocket.HandleDataFrame | packages/opencode/src/raw-ws-bun.ts:341-354 | fragments collect and the final one delivers the text |
| WebSocketClient.RawWebSocket.DrainFrames | packages/opencode/src/raw-ws-bun.ts:283-311 | all whole frames are handled in order and the unfinished rest is kept |
| WebSocketClient.RawWebSocket.OnData | packages/opencode/src/raw-ws-bun.ts:210-260 | a chunk after the handshake has the effect `Receive` |
| WebSocketClient.RawWebSocket.Close | packages/opencode/src/raw-ws-bun.ts:409-419 | one close frame, then closed; nothing when already closed |
| WebSocketClient.WriteMovesBytes | packages/opencode/src/raw-ws-bun.ts:394-406 | a partial write moves bytes from the queue to the socket and loses none |
| WebSocketClient.PeerReadsSent | packages/opencode/src/raw-ws-bun.ts:362-407 | what the socket has taken parses, at the peer, to a prefix of the frames written, and to all of them once the queue is empty |
| WebSocketClient.DrainWireAll | packages/opencode/src/raw-ws-bun.ts:362-378 | all frames written, put together, parse back to themselves |
| WebSocketClient.FrameBytes | packages/opencode/src/raw-ws-bun.ts:362-378 | header, key and masked payload, in this order |
| WebSocketClient.StepWritesOwed | packages/opencode/src/raw-ws-bun.ts:313-419 | one step writes the pong, the text or the close it owes and nothing else, under the next key |
| WebSocketClient.WritesWhatIsOwed | packages/opencode/src/raw-ws-bun.ts:313-419 | over every run of received frames, TCP closes, sends and closes the frames written are exactly those owed, in order |
| WebSocketClient.TextsOwed | packages/opencode/src/raw-ws-bun.ts:357-360 | the texts owed are exactly the data of the sends made while the connection was open |
| WebSocketClient.PeerReadsAll | packages/opencode/src/raw-ws-bun.ts:362-378 | the frames written, unmasked with the keys in the bytes, read back to themselves |
| WebSocketClient.PeerReadsTheTexts | packages/opencode/src/raw-ws-bun.ts:313-419 | end to end: over every run the peer has read, unmasked and in order, the first of what it is owed, and all of it once the queue is empty; its texts are exactly those sent while open |
| WebSocketClient.CloseSendsNormalClosure | packages/opencode/src/raw-ws-bun.ts:413 | the close frame sent decodes to code 1000 |
| WebSocketClient.StepReportsFirstClose | packages/opencode/src/raw-ws-bun.ts:100-105 | one frame or TCP close reports a close only if none was reported |
| WebSocketClient.OneCloseEvent | packages/opencode/src/raw-ws-bun.ts:188-199 | over every run of frames, TCP closes and the client's own sends and closes, listeners hear exactly one close, with the first close's own code |
| WebSocketClient.ControlsOnlyAnswer | packages/opencode/src/raw-ws-bun.ts:314-319 | control frames write exactly one pong for each ping, with its payload, and touch nothing else |
| WebSocketClient.FragmentsAnswer | packages/opencode/src/raw-ws-bun.ts:313-355 | so do control frames between fragments |
| WebSocketClient.FragmentsCollect | packages/opencode/src/raw-ws-bun.ts:341-354 | continuations, with control frames between them, are delivered as one concatenation |
| WebSocketClient.MessageReassembled | packages/opencode/src/raw-ws-bun.ts:313-355 | one fragmented text message is one event, the concatenation of its fragments, and its pings are answered; a binary one is no event |
| WebSocketClient.StreamReassembled | packages/opencode/src/raw-ws-bun.ts:313-355 | a stream of messages gives exactly its text messages and its pongs, in order |
| WebSocketClient.ReceiveAllDrains | packages/opencode/src/raw-ws-bun.ts:210-311 | receiving chunk by chunk equals handling the frames of the whole stream |
| WebSocketClient.StreamArrives | packages/opencode/src/raw-ws-bun.ts:210-355 | end to end: any encoded messages, cut anywhere, arrive whole and in order, each ping is answered with its payload, and no byte is left |
| ResetCredits.StoredReadsBack | packages/core/src/reset-credits.ts:264-296 | a pair reads back as written if and only if it is well formed |
| ResetCredits.SelectsSoonest | packages/core/src/reset-credits.ts:789-805 | the credit spent is eligible and expires soonest, the listed order deciding ties; none exactly when none is eligible |
| ResetCredits.UnrefusedPairBlocksSpend | packages/core/src/reset-credits.ts:482-558 | a saved pair of the account with no recorded refusal blocks every new spend, at any time |
| ResetCredits.TerminalAnswerEndsPair | packages/core/src/reset-credits.ts:587-611 | after a terminal answer the pair is gone; every look finds the cooldown for a minute after a spent credit, and a new attempt otherwise |
| ResetCredits.CooldownBindsClaim | packages/core/src/reset-credits.ts:482-558 | while a cooldown runs, the look and the locked claim leave an undamaged row as it is and answer the cooldown, whatever the credits, the account and the identifier |
| ResetCredits.MintsExactly | packages/core/src/reset-credits.ts:482-558 | a claim mints if and only if the row is undamaged, no cooldown is left, a saved pair has expired and is another account's or refused, and some credit may be spent; then exactly the new pair is put in the row |
| ResetCredits.LookAnswers | packages/core/src/reset-credits.ts:406-443 | what the look answers, from the fields of the row, and that a claim that does not mint answers the same unless no credit may be spent |
| ResetCredits.DamageIsDropped | packages/core/src/reset-credits.ts:381-404 | a damaged pair is gone and noted with what was noted before, and a running cooldown still binds |
| ResetCredits.AnswerBindsPair | packages/core/src/reset-credits.ts:626-670 | an answer that settles nothing keeps the pair and leaves it bound to one account |
| ResetCredits.ResetStore.ResolveCorrupt | packages/core/src/reset-credits.ts:459-476 | a damaged pair is dropped and noted, anything else and every other account is left alone |
| ResetCredits.ResetStore.ClaimResetAttempt | packages/core/src/reset-credits.ts:482-558 | the locked claim: exact new state and decision, other accounts untouched, reserved keys refused |
| ResetCredits.ResetStore.FinalizeResetAttempt | packages/core/src/reset-credits.ts:572-611 | the compare-and-set on the pair: a terminal answer clears it, any other is recorded |
| ResetCredits.ResetStore.RecordAnswer | packages/core/src/reset-credits.ts:626-670 | binding, refusal and unknown counter as written, the skipped write included |
| ResetCredits.ConcurrentAnswers | packages/core/src/reset-credits.ts:159-187 | in every write order every unknown answer is counted and a single one leaves no refusal recorded |
| ResetCredits.UnknownAnswerBlocksSpend | packages/core/src/reset-credits.ts:176-187 | after any such order a new spend mints nothing |
| ResetCredits.RecordingEvolves | packages/core/src/reset-credits.ts:626-670 | a refusal is withdrawn only by counting an unknown answer |
| ResetCredits.SkippedWriteAgrees | packages/core/src/reset-credits.ts:635-646 | skipping the write of a repeated refusal agrees with always writing on whether a refusal is recorded |
| ResetProtocol.QuietPhaseKeepsInv | packages/core/src/reset-credits.ts:957-975 | inspecting and deciding keep the invariant |
| ResetProtocol.MintedIsSound | packages/core/src/reset-credits.ts:530-553 | a minted pair is stored well formed, new, and bound to its account |
| ResetProtocol.NothingConsumedIsOpen | packages/core/src/reset-credits.ts:316-336 | when a new pair is minted every consumed one was answered for good |
| ResetProtocol.MintKeepsInv | packages/core/src/reset-credits.ts:1006-1026 | minting keeps the invariant |
| ResetProtocol.ConsumingSendKeepsInv | packages/core/src/reset-credits.ts:1028-1037 | a send the server consumes keeps it |
| ResetProtocol.OtherSendKeepsInv | packages/core/src/reset-credits.ts:1028-1037 | a send the server does not consume keeps it |
| ResetProtocol.TerminalRecordKeepsInv | packages/core/src/reset-credits.ts:587-609 | saving a terminal answer keeps it |
| ResetProtocol.AnnotatingRecordKeepsInv | packages/core/src/reset-credits.ts:647-669 | writing any other answer keeps it |
| ResetProtocol.StepKeepsInv | packages/core/src/reset-credits.ts:940-1050 | every step of every process keeps it, an answer that may go unrecorded included |
| ResetProtocol.RunKeepsInv | packages/core/src/reset-credits.ts:940-1050 | so does every run |
| ResetProtocol.NoDoubleSpend | packages/core/src/reset-credits.ts:940-1050 | from any row, no two distinct pairs are consumed unless a terminal answer for the first was saved in between |
| ResetProtocol.OnlyMintingEndsCooldown | packages/core/src/reset-credits.ts:482-558 | no step but a claim that mints ends a cooldown, and none mints before it is over |
| ResetProtocol.CoolsUntilMint | packages/core/src/reset-credits.ts:572-611 | from the save of a spent credit's answer the cooldown stands until a claim mints |
| ResetProtocol.NoMintInCooldown | packages/core/src/reset-credits.ts:482-611 | over every run, after a terminal answer for a spent credit is saved no process mints for a minute, one that looked before included |
| ResetProtocol.ConsumedPairIsKept | packages/core/src/reset-credits.ts:482-558 | a consumed pair stays saved until its terminal answer is, and no new spend can replace it meanwhile |
| LostAnswers.Respend | packages/core/src/reset-credits.ts:957-1037 | once nobody holds a pair saved with a refusal, a new spend replaces it and is consumed |
| LostAnswers.UnsafeLossExposes | packages/core/src/reset-credits.ts:626-670 | an unsafe loss leaves the consumed pair saved with a refusal, at once or when the outstanding one is recorded |
| LostAnswers.ExposedSpendsTwice | packages/core/src/reset-credits.ts:940-1050 | from there the protocol's own steps lead to a second consumption |
| LostAnswers.LossSafeExactly | packages/core/src/reset-credits.ts:1038-1049 | in every state of the invariant, not recording an answer can lead to a second consumption if and only if the loss is not safe |
| LostAnswers.LostAnswerSpendsTwice | packages/core/src/reset-credits.ts:1038-1049 | a concrete run in which a failed state write after a retried refusal lets two pairs be consumed |
| LostAnswers.LostAnswerFreesRefusal | packages/core/src/reset-credits.ts:1038-1049 | a run in which no refusal is saved yet but another send's is on its way |
| Credentials.SaveKeepsOneWhole | packages/core/src/accounts.ts:1029-1055 | both writers keep one of the two credentials, all five fields of it |
| Credentials.SavesConverge | packages/core/src/accounts.ts:1029-1188 | after any mix and order of full and state saves the stored credential is the newest trusted one, whole |
| Credentials.FarFutureNeverWins | packages/core/src/accounts.ts:1015-1027 | a far-future stamp never beats a trusted non-zero one, from either side |
| Credentials.MergeNeverGoesBack | packages/core/src/accounts.ts:1057-1091 | a state save keeps the newest quota with its error and the latest use, and is idempotent |
| Credentials.StateFile.SaveAccountState | packages/core/src/accounts.ts:1704-1741 | the merge loop and both prunings as one function of the old entries |
| Credentials.StateFile.SaveAccounts | packages/core/src/accounts.ts:1167-1188 | the merge loop of a full save as one function of the old entries |
| Credentials.MergeAllIsBest | packages/core/src/accounts.ts:1715-1725 | an entry is left exactly for ids that are stored or written, with one candidate's credential whole, that whose stamp leads, the newest quota and the latest use |
| Credentials.StateSaveMerges | packages/core/src/accounts.ts:1704-1741 | an account that is written is there with the best of what was stored and what was brought, and an id asked for that the caller no longer holds is gone |
| Credentials.FullSaveChooses | packages/core/src/accounts.ts:1167-1188 | a full save keeps, for an OAuth account, the newest of the stored and the incoming credentials |
| Credentials.FullSaveKeepsTheRest | packages/core/src/accounts.ts:1135-1165 | everything but the credential is the incoming account's |
| Credentials.MapSaveKeepsNewest | packages/core/src/accounts.ts:1057-1188 | after one save of the whole file by either writer the newest credential, once stored or brought, is the one stored unless the save removes the account |
| Credentials.MapSavesConverge | packages/core/src/accounts.ts:1057-1188 | over any sequence of whole-file saves by both writers, each at its own clock, an account ends with its newest credential once some save brought it and none later removes it |
| Credentials.MergeAllOther | packages/core/src/accounts.ts:1715-1725 | an account the save does not write keeps its entry |
| Credentials.StateSaveRespectsRoster | packages/core/src/accounts.ts:1706-1740 | nothing off a readable roster is left in the file, and unasked accounts keep their entries |
| RefreshProtocol.SaveKeepsNewest | packages/core/src/accounts.ts:1029-1048 | a stale save never loses the newest credential |
| RefreshProtocol.SurvivesExactlyWhenLater | packages/core/src/accounts.ts:1029-1048 | a credential survives the save of another if and only if it is the later answer, by stamp and then by expiry |
| RefreshProtocol.StepKeepsKnowledge | packages/core/src/accounts.ts:2830-2942 | every step keeps the store, or the lock holder, in possession of the provider's last answer |
| RefreshProtocol.RunKnows | packages/core/src/accounts.ts:2742-2942 | so does every run |
| RefreshProtocol.TokensAreSingleUse | packages/core/src/accounts.ts:2742-2942 | with copies of any age to save, older than the start included, every token ever sent was the one issued last; with the lock free the store holds the current one |
| TiedAnswers.StaysCurrent | packages/core/src/accounts.ts:2742-2942 | from a state in which the last answer is known, every run sends only current tokens |
| TiedAnswers.OldTokenComesBack | packages/core/src/accounts.ts:1029-1048 | after an answer that is not later is saved, a save of the old copy puts the old token back |
| TiedAnswers.TieSendsSpentToken | packages/core/src/accounts.ts:2742-2942 | six steps then send the spent token |
| TiedAnswers.SingleUseExactly | packages/core/src/accounts.ts:2742-2942 | whatever the provider answers to a refresh, no later step can send a spent token if and only if the answer is later than the credential it replaces |
| TiedAnswers.SingleUseInEveryRun | packages/core/src/accounts.ts:2742-2942 | the same in every reachable state |
| TiedAnswers.TiedAnswerIsLost | packages/core/src/accounts.ts:1029-1048 | a concrete run in which two answers tie and the spent token is sent again |
| Roster.CollectConfigRosterIds | packages/core/src/accounts.ts:1374-1385 | the loop collects the distinct non-blank trimmed ids, or nothing for a missing array |
| Roster.PickRawRosterEntriesForPreservation | packages/core/src/accounts.ts:1408-1434 | the first raw entry of each id that did not load and is not dropped |
| Roster.BuildAdditions | packages/core/src/accounts.ts:1475-1491 | the shared pipeline and the writer's own filter together |
| Roster.RosterIdsAreTheIds | packages/core/src/accounts.ts:1356-1385 | exactly the trimmed ids of the raw entries, each once |
| Roster.FilterIsExclusion | packages/core/src/accounts.ts:1590-1602 | filtering what the writer emits equals excluding it up front |
| Roster.ConfigFile.MutateAccounts | packages/core/src/accounts.ts:1564-1612 | what `mutateAccounts` leaves in the config |
| Roster.ConfigFile.SaveAccounts | packages/core/src/accounts.ts:1310-1345 | what `saveAccounts` leaves in the config |
| Roster.MutateKeepsRoster | packages/core/src/accounts.ts:1509-1522 | an id is written if and only if the mutator emits it, or it was raw, did not load and is not dropped; so a raw id is lost only on purpose |
| Roster.UnionKeepsIds | packages/core/src/accounts.ts:1167-1188 | the union has exactly the ids of both sides |
| Roster.SaveKeepsRoster | packages/core/src/accounts.ts:1310-1345 | every raw id and every incoming id is written, for any mix of loaded and rejected entries |
| Roster.EntriesForPreserved | packages/core/src/accounts.ts:1408-1434 | preserved entries are verbatim raw ones, each id once |
| Roster.AdditionsNeverDuplicate | packages/core/src/accounts.ts:1583-1602 | no appended entry duplicates a written, loaded or dropped id |
| Roster.PreservedInFileOrder | packages/core/src/accounts.ts:1408-1434 | what is carried over is, in file order, the first raw entry of each id |
| Roster.UnionExactly | packages/core/src/accounts.ts:1167-1188 | the accounts on disk keep their places, and under each id there is one account, the last to come in |
| Roster.SaveWritesAccounts | packages/core/src/accounts.ts:1167-1345 | in front of what is carried over each account is written once, as the caller has it, and otherwise as it is on disk |
| Roster.MutateWritesAccounts | packages/core/src/accounts.ts:1583-1612 | what the mutator emits is written verbatim, in its order, and then what is carried over |
| StickyPins.PendingBytesForAssignments | packages/opencode/src/sidebar-state.ts:816-836 | the loop gives each account the sum of the input bytes of the pins on its current quota reading |
| StickyPins.CountingOneMore | packages/opencode/src/sidebar-state.ts:822-834 | one more pin adds its bytes to its own account, if it counts, and nothing elsewhere |
| StickyPins.LimitedToYoungest | packages/opencode/src/sidebar-state.ts:701-724 | at most 256 pins are left, the protected one among them, and none older than one that was dropped |
| StickyPins.FastPathRefines | packages/opencode/src/sidebar-state.ts:1517-1530 | the fast path answers what full planning answers; the writes differ if and only if it was taken with pins to prune |
| StickyPins.PlanKeepsOrPlaces | packages/opencode/src/sidebar-state.ts:1345-1478 | a recorded pin that may be kept keeps its placement with refreshed metadata; otherwise the session goes, from now, where the chooser puts it, or nowhere |
| StickyPins.WeightsExactly | packages/opencode/src/sidebar-state.ts:1426-1440 | what the chooser weighs: on each account the live pins on its current reading, the session's own unless its slot is known to have changed hands |
| StickyPins.PlanWritesWhatChanged | packages/opencode/src/sidebar-state.ts:1355-1478 | nothing is written exactly when every recorded pin is live and the session's pin is the recorded one, or it gets none |
| StickyPins.PlanLeavesOthers | packages/opencode/src/sidebar-state.ts:1355-1478 | the other sessions' live pins are unchanged, and one is dropped only when 256 are left, all of them younger |
| StickyPins.PlanBounded | packages/opencode/src/sidebar-state.ts:1355-1478 | from at most 256 pins every plan writes at most 256, keeps the session's pin and drops only the oldest |
| StickyPins.PlanRaisesPendingExactly | packages/opencode/src/sidebar-state.ts:1355-1478 | the next planner sees, on every account, the others' bytes, the planned pin's on its own account, less what the limit dropped |
| StickyPins.FirstPlacementAddsTheRequest | packages/opencode/src/sidebar-state.ts:1426-1478 | a first placement raises the chosen account by exactly the request and no other |
| StickyPins.ReplanStable | packages/opencode/src/sidebar-state.ts:1346-1478 | planning again on what was written gives the same pin and no write |
| StickyPins.PersistKeepsNewest | packages/opencode/src/sidebar-state.ts:1532-1596 | the stored pin is the newest placement; the same placement keeps the larger request and the later sighting |
| StickyPins.PersistDropsOnlyOldest | packages/opencode/src/sidebar-state.ts:1552-1593 | other live pins are unchanged or, past the limit, older than every kept one |
| StickyPins.PersistsConverge | packages/opencode/src/sidebar-state.ts:1552-1593 | two processes' placements of one session end in the same later placement in either order |
| SidebarCache.SidebarStateCache.StartRead | packages/opencode/src/sidebar-state.ts:1722-1741 | joins the read in flight for the same key, or starts one |
| SidebarCache.SidebarStateCache.Get | packages/opencode/src/sidebar-state.ts:1744-1752 | serves the kept snapshot when the key is unchanged, else waits for a read |
| SidebarCache.SidebarStateCache.BackgroundRefresh | packages/opencode/src/sidebar-state.ts:1761-1765 | starts or joins a read only when the key changed |
| SidebarCache.SidebarStateCache.FinishRead | packages/opencode/src/sidebar-state.ts:1726-1740 | whatever moment since it began the read found, the snapshot is replaced unless it was read later, and the slot is cleared by its own read |
| SidebarCache.SidebarStateCache.ServeRead | packages/opencode/src/sidebar-state.ts:1726-1731 | a caller is given the result of the read it waited for |
| SidebarCache.SidebarStateCache.ServePrevious | packages/opencode/src/sidebar-state.ts:1752-1756 | past the budget the previous snapshot is served |
| SidebarCache.StepKeepsInv | packages/opencode/src/sidebar-state.ts:1703-1767 | every step keeps reads, snapshot and calls no older than the keys they stand under |
| SidebarCache.RunKeepsInv | packages/opencode/src/sidebar-state.ts:1703-1767 | so does every run |
| SidebarCache.CallRemembersItsVersion | packages/opencode/src/sidebar-state.ts:1744-1752 | the version a caller looked at never changes |
| SidebarCache.GetIsFresh | packages/opencode/src/sidebar-state.ts:1688-1767 | within the budget a caller gets the file as it was when it looked or newer, even on a shared read; without a read, the file as it is |
| SidebarCache.ReadTimeIsSafe | packages/opencode/src/sidebar-state.ts:1684-1767 | in every run whatever the file held before the read time of an answer is in the answer: of a caller served in time, of the kept snapshot, and of the one served past the budget |
| SidebarCache.ReadSeesEarlier | packages/opencode/src/sidebar-state.ts:1722-1741 | a read that began after a moment has a key no older than the file was then |
| SidebarCache.StepKeepsFromReads | packages/opencode/src/sidebar-state.ts:1703-1767 | every step keeps each answer's time that at which a read of that version or an older one began |
| SidebarCache.CallFollowsItsRead | packages/opencode/src/sidebar-state.ts:1744-1757 | an unchanged file gives the kept snapshot; otherwise the caller is given what the very read it waited for found, with the time at which that began |
| SidebarCache.OverBudgetGivesKept | packages/opencode/src/sidebar-state.ts:1752-1756 | past the budget the caller has the snapshot kept at that moment |
| SidebarCache.ReadsAreShared | packages/opencode/src/sidebar-state.ts:1722-1741 | no two reads under one key run at once, and once a read has finished the snapshot kept is that of a finished read none began after |
| SidebarCache.RefreshReadsTheFile | packages/opencode/src/sidebar-state.ts:1761-1765 | after a background refresh a read of the file as it is now is running, or the kept snapshot is of it |
| SidebarCache.SnapshotNeverGoesBack | packages/opencode/src/sidebar-state.ts:1726-1729 | the kept snapshot's read time never decreases |
| PinOverlay.NewestAreKept | packages/opencode/src/sidebar-state.ts:1793-1797 | the eviction loop keeps the newest 256 entries |
| PinOverlay.RememberedHasIt | packages/opencode/src/sidebar-state.ts:1784-1799 | the pin is remembered, at most 256 are, and others go only past that, oldest first |
| PinOverlay.AppliedPin | packages/opencode/src/sidebar-state.ts:1801-1824 | pin by pin: the overlay's unless the snapshot was read after it landed, else the snapshot's |
| PinOverlay.StickyPinOverlay.RememberStickyPin | packages/opencode/src/sidebar-state.ts:1785-1799 | delete, append and evict in place give `Remembered` |
| PinOverlay.StickyPinOverlay.MarkPersisted | packages/opencode/src/index.ts:4064-4078 | a landed write marks its own entry and never a later one of the session |
| PinOverlay.StickyPinOverlay.ApplyStickyPinOverlay | packages/opencode/src/sidebar-state.ts:1802-1824 | the loop returns the applied state and drops exactly the entries the snapshot already shows |
| PinVisibility.DecidedPin | packages/opencode/src/index.ts:4023-4045 | a placement keeps a pin it may keep and otherwise places at its own time |
| PinVisibility.ConsultKeepsInv | packages/opencode/src/index.ts:4002-4082 | a placement, recorded or not, keeps the invariant |
| PinVisibility.LandedPin | packages/opencode/src/sidebar-state.ts:1541-1596 | a landing write puts the newest pin on disk, or leaves nothing newer there |
| PinVisibility.StepKeepsInv | packages/opencode/src/index.ts:4002-4082 | every step keeps it, placements using snapshots that do not go back or finding the pin in the overlay |
| PinVisibility.RunKeepsInv | packages/opencode/src/index.ts:4002-4082 | so does every run |
| PinVisibility.ReadsItsOwnPins | packages/opencode/src/sidebar-state.ts:1765-1824 | in such runs a later placement returns the placed account and time, however long the write is delayed, fails or is retried |
| PinVisibility.DroppedOnlyWhenVisible | packages/opencode/src/sidebar-state.ts:1765-1771 | an entry is dropped only for a snapshot read after the write landed, which shows the pin |
| PinVisibility.OtherPlaceFails | packages/opencode/src/sidebar-state.ts:1355-1478 | seeing another placement, some request that could keep the pin does not |
| PinVisibility.SamePlaceReturns | packages/opencode/src/sidebar-state.ts:1355-1478 | seeing the same placement, every request that may keep the pin returns it |
| PinVisibility.LandedIsVisible | packages/opencode/src/sidebar-state.ts:1765-1771 | in a run whose placements are in order, a read begun after the landing was seen is enough |
| PinVisibility.StepKeepsTracked | packages/opencode/src/index.ts:4002-4082 | whatever snapshots are used, the overlay holds the last pin remembered with what is known of its write, or none |
| PinVisibility.RunKeepsTracked | packages/opencode/src/index.ts:4002-4082 | so in every run |
| PinVisibility.VisibleExactly | packages/opencode/src/sidebar-state.ts:1802-1824 | in every reachable state and for a snapshot of any age, while the pin has not expired: every placement that may keep it returns its account and time if and only if the entry is in the overlay and not about to go, or the snapshot shows that placement |
| StaleSnapshots.LateSnapshotMisses | packages/opencode/src/index.ts:4023-4024 | a concrete run in which a request with an older snapshot places the session on a second account |
| StaleSnapshots.StalePlacementIsUndone | packages/opencode/src/index.ts:4023-4078 | a concrete run in which an older placement is recorded, is in the overlay, and is undone by the next read |
| BookkeepingQueue.SidebarBookkeepingQueue.Schedule | packages/opencode/src/sidebar-state.ts:1863-1877 | arms the timer when retries wait and the queue runs |
| BookkeepingQueue.StartedIsLive | packages/opencode/src/sidebar-state.ts:1879-1937 | what a step starts is its key's live write, and only an enqueue makes a new generation |
| BookkeepingQueue.SidebarBookkeepingQueue.Enqueue | packages/opencode/src/sidebar-state.ts:1932-1937 | a new generation supersedes the key's retry and starts at once |
| BookkeepingQueue.SidebarBookkeepingQueue.Cancel | packages/opencode/src/sidebar-state.ts:1938-1942 | the key is forgotten |
| BookkeepingQueue.SidebarBookkeepingQueue.Stop | packages/opencode/src/sidebar-state.ts:1943-1948 | no timer and no retries are left |
| BookkeepingQueue.SidebarBookkeepingQueue.OnTimer | packages/opencode/src/sidebar-state.ts:1865-1875 | every due retry with a generation restarts and the delay doubles up to its maximum |
| BookkeepingQueue.SidebarBookkeepingQueue.OnSuccess | packages/opencode/src/sidebar-state.ts:1891-1903 | only the live generation ends its key |
| BookkeepingQueue.SidebarBookkeepingQueue.OnFailure | packages/opencode/src/sidebar-state.ts:1904-1927 | only the live generation is retried, or dropped once stopped |
| BookkeepingQueue.StepKeepsInv | packages/opencode/src/sidebar-state.ts:1841-1950 | every callback keeps the invariant |
| BookkeepingQueue.RunKeepsInv | packages/opencode/src/sidebar-state.ts:1841-1950 | so does every run |
| BookkeepingQueue.NothingIsLost | packages/opencode/src/sidebar-state.ts:1841-1950 | until stopped each live key has exactly one of a running write and a pending retry; pending retries have an armed timer; the delay stays in bounds |
| BookkeepingQueue.EnqueueStartsNow | packages/opencode/src/sidebar-state.ts:1932-1937 | an enqueued write is running at once as its key's only live one, and no other key is touched |
| BookkeepingQueue.CancelForgets | packages/opencode/src/sidebar-state.ts:1938-1942 | a cancelled key is forgotten while its write runs on, and no other key is touched |
| BookkeepingQueue.OutcomesCountWhenLive | packages/opencode/src/sidebar-state.ts:1890-1927 | the outcome of a write that is not live is ignored; a live one that lands ends its key and one that fails is due again |
| BookkeepingQueue.StoppedStaysQuiet | packages/opencode/src/sidebar-state.ts:1943-1948 | once stopped nothing is retried and only what is enqueued is started |
| BookkeepingQueue.FailingExactly | packages/opencode/src/sidebar-state.ts:1890-1942 | over every run, the failing keys are those with a failure since which they have neither landed nor been cancelled |
| BookkeepingQueue.BackoffExactly | packages/opencode/src/sidebar-state.ts:1863-1903 | over every run, the delay doubles with each firing up to the maximum, and goes back to the base exactly when a write lands that leaves no key failing |
| BookkeepingQueue.TimerRestartsAll | packages/opencode/src/sidebar-state.ts:1865-1875 | every pending retry is running after the timer fires |
| BookkeepingQueue.RetiredStaysRetired | packages/opencode/src/sidebar-state.ts:1850-1858 | a generation that is not live never is again |
| BookkeepingQueue.SupersededNeverRestarts | packages/opencode/src/sidebar-state.ts:1931-1942 | a superseded, cancelled or landed write is never started again |
| BookkeepingQueue.EveryAttemptWasEnqueued | packages/opencode/src/sidebar-state.ts:1879-1937 | every running or waiting write is the one enqueued under its generation |
| Killswitch.KillswitchInFloors | packages/core/src/commands.ts:156-186 | the loop writes a row for main, every roster id and every named one, and the defaults |
| Killswitch.LegacyReaderExactly | packages/core/src/accounts.ts:1823-1888 | the older reader judges an account by its own record, never by the main account's then; by the defaults under another truthy value; and as the main account otherwise |
| Killswitch.MarkedReaderExactly | packages/core/src/accounts.ts:1849-1884 | the newer reader takes the own record or else the defaults, whole, and no floor for a value that is no finite number |
| Killswitch.RefusedExactly | packages/core/src/accounts.ts:1890-1911 | an account is refused if and only if the killswitch is on and a current window is under its floor, or, failing closed, the quota is unknown or out of date |
| Killswitch.FailClosedExactly | packages/core/src/accounts.ts:1890-1911 | failing closed refuses more by exactly the unknown and out-of-date quotas |
| Killswitch.RetryAfterFloor | packages/core/src/accounts.ts:1913-1949 | at least a second, and five minutes with the killswitch off or no known time |
| Killswitch.KillswitchWithDefaultFloors | packages/core/src/commands.ts:195-216 | the loop adds default floors for rows the block does not name |
| Killswitch.DefaultFloorsProtect | packages/core/src/commands.ts:188-216 | what the reader then gives each account, and that doing it twice changes nothing |
| Killswitch.SettingsFile.MigrateLegacySettings | packages/core/src/commands.ts:228-247 | the migrated settings, and true exactly when something changed |
| Killswitch.MigrationKeepsFloors | packages/core/src/commands.ts:141-186 | a covered account, rows added later included, is read the same floors if and only if they were finite numbers |
| Killswitch.UncoveredAccountChanges | packages/core/src/commands.ts:169-176 | for every account left out there is a block that judges it differently once migrated |
| Killswitch.MigrationKeepsVerdicts | packages/core/src/accounts.ts:1890-1911 | so every quota is judged as before |
| Killswitch.MigrationIdempotent | packages/core/src/commands.ts:218-247 | a second migration, against any roster, changes nothing; no cache setting is lost |
| Killswitch.ViolatingResets | packages/core/src/accounts.ts:1928-1941 | the resets of the windows not past and not at their floor or above, floors that are no numbers included, or that one is unknown |
| Killswitch.KillswitchRetryAfterSeconds | packages/core/src/accounts.ts:1913-1949 | the loops compute the seconds to the minimum over accounts of the maximum violating reset |
| Killswitch.PassesOnceReleased | packages/core/src/accounts.ts:1890-1911 | a failing account passes at a later time if and only if every window that blocks it has reset |
| Killswitch.FreeAtReleaseExactly | packages/core/src/accounts.ts:1928-1944 | the time computed for a failing account is never before its release, and is it if and only if no window with a floor that is no number outlasts it |
| Killswitch.FirstIsLeast | packages/core/src/accounts.ts:1946-1947 | the earliest of the known times, and one that attains it |
| Killswitch.FirstOfLater | packages/core/src/accounts.ts:1942-1947 | of later times, the earliest is the same if and only if one that attains it is the same |
| Killswitch.SomePassesFromRelease | packages/core/src/accounts.ts:1890-1911 | some account passes from the earliest release on and none before |
| Killswitch.RetryAfterExact | packages/core/src/accounts.ts:1913-1949 | the computed minimum tells, for every time, whether some account passes then, if and only if an account released first is not kept waiting by a floor that is no number; waiting the seconds reaches it and overshoots by under one second |
| Killswitch.NumbersAreExact | packages/core/src/accounts.ts:1913-1949 | with floors that compare as numbers it always does |
| Killswitch.NotANumberOvershoots | packages/core/src/accounts.ts:1933-1941 | a concrete account released after 1,000 seconds for which the answer is 10,000 |
| FallbackSend.TryFallbackFirst | packages/opencode/src/index.ts:4199-4266 | nobody is tried after the first candidate that serves or throws; only a serving response is handed on and every other one is cancelled once |
| FallbackSend.TryFallbackAccounts | packages/opencode/src/index.ts:4271-4339 | the last response obtained is handed on with the candidate it came from and exactly the earlier ones are cancelled; when the caller aborts the last one is neither |
| VaultDiscovery.OpenAiVault.Discover | packages/core/src/vault.ts:278-283 | the discovery in flight, or a new one |
| VaultDiscovery.OpenAiVault.Start | packages/core/src/vault.ts:249-272 | the first tick, once |
| VaultDiscovery.OpenAiVault.OnTimer | packages/core/src/vault.ts:265-268 | the next tick shares or starts a discovery |
| VaultDiscovery.OpenAiVault.ResumePoll | packages/core/src/vault.ts:257-270 | the timer is armed unless closed or polling is off |
| VaultDiscovery.OpenAiVault.Refresh | packages/core/src/vault.ts:292-296 | waits out a discovery in flight, or shares a new one |
| VaultDiscovery.OpenAiVault.ResumeRefresh | packages/core/src/vault.ts:294-302 | goes on to a new discovery, then resolves |
| VaultDiscovery.OpenAiVault.SettleDiscovery | packages/core/src/vault.ts:279-281 | clears the slot |
| VaultDiscovery.OpenAiVault.Close | packages/core/src/vault.ts:658-663 | the timer is disarmed and nothing starts again |
| VaultDiscovery.StepKeepsInv | packages/core/src/vault.ts:249-303 | every step keeps at most one discovery in flight and each call waiting on one it may trust |
| VaultDiscovery.RunKeepsInv | packages/core/src/vault.ts:249-303 | so does every run |
| VaultDiscovery.CallRemembersItsStart | packages/core/src/vault.ts:292-296 | how many discoveries had begun when a call was made never changes |
| VaultDiscovery.RefreshIsFresh | packages/core/src/vault.ts:285-303 | a resolved refresh had a discovery that began after the call and has ended; one is in flight at most; nobody waits on nothing |
| VaultDiscovery.RefreshTakesTwoAwaits | packages/core/src/vault.ts:285-303 | a refresh waits out a discovery in flight, then has one that is in flight, and resolves when that ends |
| VaultDiscovery.PollGoesOn | packages/core/src/vault.ts:249-272 | once started, with a positive interval, the loop waits for a discovery or its timer until the vault is closed |
| VaultDiscovery.TickAwaitsDiscovery | packages/core/src/vault.ts:256-272 | each tick shares the discovery in flight or begins one, and waits for it |
| VaultDiscovery.StartsOnce | packages/core/src/vault.ts:249-256 | starting again, or starting a closed vault, does nothing |
| VaultDiscovery.ClosedStaysQuiet | packages/core/src/vault.ts:658-663 | once closed the timer is never armed and only refreshes begin discoveries |
| VaultDiscovery.SettlingEnds | packages/core/src/vault.ts:278-283 | a discovery that settles has ended and frees the slot |

## Left out

- All real input and output: files are atomic values, locks exclusive steps, clocks and random values parameters; TLS, the HTTP upgrade, the OAuth server and logging are not modelled.
- Hashes: a fingerprint is the item itself, a session hash a string; SHA-256 collisions are not modelled.
- Text decoding: WebSocket text stays as its UTF-8 bytes, and a close reason too.
- Frame lengths are below 2^64 and exact; rounding of lengths above 2^53 is not modelled.
- The socket's write returns between 0 and the bytes offered; a negative result is not modelled.
- Mask keys come from a fixed stream; nothing is proved about randomness.
- WebSocket frames after a close frame and stray continuation frames are handled as the code does, but the reassembly lemmas speak of well-formed streams.
- packages/opencode/src/raw-ws-node.ts: the same codec without the write queue.
- `refreshAccount` joining an in-process refresh, tombstones, shielded rows, the join wait and backoff: they only prevent or delay provider calls.
- `Credentials.SavesConverge`: does not cover an incoming row that failed to load or an API-key row, because such a row carries no credential to compare.
- `Credentials.StateFile.SaveAccounts`: takes every stored entry to load as an OAuth account, because what the loader makes of an API-key or malformed row depends on the config file; `Credentials.MapSavesConverge` speaks of OAuth accounts for the same reason.
- `ResetProtocol.NoDoubleSpend`: does not cover a row signed in as several ChatGPT accounts in turn, because a pair of another account may always be replaced.
- Redemption reports (`beforeState`, retry texts) and the usage check before a claim: reported or read only.
- `mergeQuotaByWindow`, `normalizeSidebarState` and the sidebar's routing entries: they do not touch pins.
- The cache's background `read`, the length of its read budget, and a stat key that comes back (a file removed, recreated and removed again within one read).
- Quota pushes and use stamps in the fallback loops: advisory, and never awaited.
- The order in which one timer firing restarts several keys' writes: their attempts are a set.
- `localeCompare` on session hashes is modelled as the lexicographic order of hexadecimal text.
- Settings values: percentages and floors are real numbers; a value of another type either converts to a number in comparisons or compares as false; a `main` or `accounts` value that is not a record counts as absent.
- Dates are optional integers; parsing them is not modelled.
- HTTP turn detection, quota refreshing, the account-pool routing of the shared library, menus and dumps.
- An update item the host itself sends: the meaning lemmas of `EffortRewrite` assume it sends none.
