# Fake Artist: the peer-to-peer stack, verified

A drawing game for a group: every round one player, the fake, does not know the word the others draw.
The game runs in the host's browser. This project models that engine, the replicas of the guests, the
protocol between them, the host's fail-over, and the Go server beside them, and proves what holds over
every run.

- **Engine.** `EngineSpec` says what one command does, as a function of the engine's fields; `Engine`
  is the object that does it in place, each method proved to do exactly that. `EngineInvariant` and
  `EngineTheorems` prove fairness of turns, the score ledger, the vote and termination over all runs.
  `GameRules` is the table of phases apart from the handlers, `Words` follows the secret word to the
  verdict, `Roles` says who is told what in private, `Seats` and `Lobby` what players bring in,
  `Replies` what is answered, `Deals` what chance can deal. `Secrecy` compares two runs and shows what a
  listener cannot tell apart. The random source is an arbitrary function, the ids minted from it are
  assumed new.
- **Replica and sync.** `ReplicaSpec` and `Replica`, with `ReplicaSafety` for an arbitrary network,
  `BufferDrain` for what one drain takes, `ReorderBuffer` for strokes in any order, `ReplicaMemory` for
  what is shown, `SyncProtocol` for a sync answered from memory, `SyncRequests` for the requests a
  replica makes and their answers, `LogSync` for one from the log, and `Refinement` for engine and replica end to end. `StrokeLog` and
  `ScanCompleteness` treat the log's records, its string keys and their lexicographic range scan.
- **Rounds drawn by the server.** `Draw` is the server's draw, `DrawRepeats` says when it repeats a
  card, `RevealedDraw` what a reveal tells, `AsyncDraw` interleaves it with the engine and `DrawAnswers`
  follows one answer to the host, with any number of draws in flight and answers late, repeated or lost.
- **Registry and fail-over.** `RegistrySpec`, `Manager` and `RegistryInvariant` for the rooms and their
  checkpoints, `RoomHistory` for what a room is by its history; `HostClaims` and `HostChanges` for
  arbitration on the server; `Election` for the guests' choice and its
  agreement with the server; `IdOrder` for the two string orders both break ties by.
- **Checkpoints, signaling, encodings.** `Checkpoint` and `CheckpointPosts` for the coalescing flush,
  `Hub` and `HubDelivery` for the socket hub, `Utf8` and `Crypto` for the encoder, hexadecimal text and commitments. SHA-256 is an arbitrary
  function.

Code that changes an object in place is a class whose methods are proved equal to a function of the
old fields. Awaits are the boundaries between steps. Loops over a map are proved for every order of the
map.

## Where the code differs from what is said about it

These are results, each with a lemma that shows it.

- Redaction hides the card of a round but leaves the pool's `used` flags, which name it
  (`UsedFlagsNameTheCard`). A sync answer carries the raw state (`ServeSyncReq`), so the secrecy
  theorems are about broadcasts.
- START_ROUND on an empty pool ends the game without announcing it (`DispatchSync`, exactly that case).
- The log's lower bound compares numerals as strings: a guest that asks from stroke 2 never gets
  stroke 10 (`ScanFromTwoMissesTen`, with the exact condition in `ScanMissesNothingIff` and what it
  means for a sync in `LogFillsTheGapExactlyWhen`).
- A sync answer for an older round is drawn into the guest's round, because only the index of a stroke
  is looked at (`OldStrokesAreDrawnInTheNewRound`).
- The log's record of the last stroke keeps the index of the old round when the host records the new
  round's state before its strokes (`StateFirstKeepsTheOldIndex`), as it always does.
- A drain stops behind a repeated entry of the buffer (`RepeatsCanBlockTheDrain`, with the exact
  condition in `NothingStaysExactlyWhen`); a lost sync answer silences the replica's requests
  (`OneRequestOutstanding`).
- A late draw opens a round even after the end of the game (`OnlyAnAnswerReopensTheGame`); drawing a
  round twice loses the first commitment (`RedrawDropsTheFirst`); an unknown pool entry listed twice in
  one call can be drawn twice (`DuplicateEntryIsDrawnTwice`, exactly then by `CardRepeatsExactlyWhen`).
- A commitment does not separate id and nonce (`NonceLengthMatters`; exactly the ids whose octets begin
  one another share one, `SharedExactlyByPrefixes`).
- No handler of the server updates or vacates the host of a room, so no claim ever moves it from the
  room's creator (`ClaimsNeverUnseatTheCreator`), though `internal/rooms/manager.go:225-236` is about
  taking over.
- The replica drops strokes of a round it has not seen (`frontend/p2p/replica.ts:166-170`), but a stroke
  names no round and the check never fires (`NoStrokeIsOfAnotherRound`).
- In a room where nobody sits the empty id counts as the host's (`TheEmptyIdHostsAnEmptyRoom`; in
  every other case `OutsidersChangeNothing`).
- A host's repeated claim is endorsed and not recorded (`AReclaimIsNotRecorded`), though
  `internal/rooms/manager.go:233-236` promises that a worse tuple cannot overtake.
- `internal/rooms/manager.go:279-281` promises the ordering of `election.ts`; the two differ on ids
  outside the first plane (`BrowserAndServerAgree`). Minted ids are ASCII, where they agree.
- Closing a room unbinds a player's newer socket (`NewerSocketLosesItsBinding`), and the hub panics if
  a client is unregistered before its room is bound (`UnregisterBeforeBindRoomPanics`), or after any
  other set-up that comes late, and only then (`PanicsExactlyAfterLateSetUp`); the set-up events travel on separate channels (`internal/signal/client.go:108-110`).
- Five failed posts count as a saved checkpoint (`GivingUpCountsAsSaving`).

## Model

| member | source | states |
|---|---|---|
| EngineObject.Engine.constructor | frontend/p2p/engine.ts:82-89 | A new engine: an empty lobby with the given configuration, version 0, nothing emitted |
| EngineObject.Engine.Dispatch | frontend/p2p/engine.ts:111-126 | Every command goes to its handler; state, version, random position and emissions are those of the specification `EngineSpec.Dispatch`, about which the run theorems are proved |
| EngineObject.Engine.BroadcastState | frontend/p2p/engine.ts:574-577 | The version rises by one and one redacted STATE_UPDATE is emitted |
| EngineObject.Engine.HandleJoin | frontend/p2p/engine.ts:128-172 | Rejoin by id, refusal once rounds are played, or a new seat; then the welcome and, in an active round, the role again |
| EngineObject.Engine.HandleConfigure | frontend/p2p/engine.ts:174-182 | Only the host, only in the lobby; positive values replace old ones, a turn duration may be zero |
| EngineObject.Engine.HandleSubmitWords | frontend/p2p/engine.ts:184-201 | One submission for each player while writing; blank words are skipped and each card gets a minted id |
| EngineObject.Engine.HandleStartGame | frontend/p2p/engine.ts:203-212 | Only the host, only in the lobby, refused below the minimum of players |
| EngineObject.Engine.HandleStartRound | frontend/p2p/engine.ts:214-240 | Opens the first round when all have written, or moves an announced round to drawing; an empty pool ends the game with an error and no announcement |
| EngineObject.Engine.HandleSubmitStroke | frontend/p2p/engine.ts:242-269 | The artist whose turn it is adds a stroke of two or more points; the last one needed opens the vote |
| EngineObject.Engine.HandleCastVote | frontend/p2p/engine.ts:271-289 | A ballot of a player for a player is recorded, replacing an earlier one; the last one needed leads to the guess or to the summary |
| EngineObject.Engine.HandleFakeGuess | frontend/p2p/engine.ts:291-300 | Only the fake, only when caught; compared trimmed and in lower case, never right when blank |
| EngineObject.Engine.HandleNextRound | frontend/p2p/engine.ts:302-319 | The round is archived; then the game ends or the next round opens |
| EngineObject.Engine.HandleEndGame | frontend/p2p/engine.ts:321-330 | The host ends the game in any phase; a summarised round is archived first |
| EngineObject.Engine.ArchiveCurrentRound | frontend/p2p/engine.ts:332-337 | A round is archived once |
| EngineObject.Engine.PrepareRoundServer | frontend/p2p/engine.ts:345-356 | What is captured before the await: the players, the unused cards and the round index |
| EngineObject.Engine.DrawAnswered | frontend/p2p/engine.ts:362-412 | What an answered draw does: the card marked used, the captured roster shuffled, the fake and the word read off the assignments, the round opened |
| EngineObject.Engine.DrawFailed | frontend/p2p/engine.ts:357-360 | A failed draw only sends an error to the host who asked |
| EngineObject.Engine.PrepareRound | frontend/p2p/engine.ts:416-464 | A local draw: false with too few players or, ending the game, with no card left |
| EngineObject.Engine.Shuffle | frontend/p2p/engine.ts:432-436 | The turn order is the shuffle of the ids by the next random numbers |
| EngineObject.Engine.FisherYates | frontend/p2p/engine.ts:432-436 | The in-place swap loop computes the shuffle that `TurnOrderPermutes` shows to be a permutation, for every random source |
| EngineObject.Engine.TallyVotes | frontend/p2p/engine.ts:466-486 | The fake is caught exactly when it has strictly more votes than every other suspect, in whatever order the map is walked; with no votes the winner is the empty id |
| EngineObject.Engine.CountVotes | frontend/p2p/engine.ts:467-471 | Each suspect is counted as often as voters named it, and only named suspects are counted |
| EngineObject.Engine.FinalizeRound | frontend/p2p/engine.ts:488-504 | The word revealed, the outcome set, the points of the outcome awarded |
| EngineObject.Engine.CheckGameOver | frontend/p2p/engine.ts:506-520 | Over exactly when a score has reached the target or no card is unused |
| EngineObject.Engine.AssignWinner | frontend/p2p/engine.ts:522-528 | The winner is the first player with the highest score |
| EngineInvariant.DispatchKeeps | frontend/p2p/engine.ts:111-337 | Every command keeps the engine invariant: phases, rounds, ballots, archive, card count and score ledger |
| EngineInvariant.TurnOrderPermutes | frontend/p2p/engine.ts:431-436 | Whatever the random source, the turn order holds every player exactly once |
| EngineInvariant.FinalizeAwardsPoints | frontend/p2p/engine.ts:488-504 | The award loops raise every score by exactly what the rules give for the finished round |
| EngineInvariant.BallotKeeps | frontend/p2p/engine.ts:271-283 | Votes stay among the members of the turn order, and their number reaches its length exactly when all have voted |
| EngineInvariant.MarkingOneCard | frontend/p2p/engine.ts:424-429 | Marking the drawn card uses up exactly one card |
| EngineInvariant.ArchiveAppends | frontend/p2p/engine.ts:332-337 | Archiving moves the summarised round unchanged to the end of the archive |
| EngineTheorems.ReachableOk | frontend/p2p/engine.ts:111-337 | Every state that any run of commands reaches satisfies the invariant |
| EngineTheorems.TurnsAreFair | frontend/p2p/engine.ts:242-269 | In every reachable round stroke i was drawn by turn_order[i mod n], no two artists' counts differ by more than one, and after drawing everyone has exactly strokes_per_artist |
| EngineTheorems.ScoresAreTheLedger | frontend/p2p/engine.ts:271-337 | In every reachable state each score equals the replay of the finished rounds from their votes and guesses, and the archive is indexed 0, 1, 2, ... |
| EngineTheorems.PluralityIsStrictMaximum | frontend/p2p/engine.ts:474-485 | The tally's criterion is a strict maximum over all suspects, named or not |
| EngineTheorems.RecordedAre | frontend/p2p/engine.ts:276-279 | Recording casts one after the other keeps, for every voter, exactly its last cast, and leaves the votes of the others |
| EngineTheorems.VotesAreTheCasts | frontend/p2p/engine.ts:271-289 | CAST_VOTE commands dispatched while the vote is open leave the engine as one tally of their last casts would, apart from the version, which counts them |
| EngineTheorems.TallyIgnoresOrderAndRevotes | frontend/p2p/engine.ts:271-289 | Two sequences of CAST_VOTE commands dispatched from one state, each voting only while the vote is open, that give every voter the same last ballot leave equal engines apart from the version: status, votes, outcome and scores |
| EngineTheorems.VotingEndsWhenAllVoted | frontend/p2p/engine.ts:271-289 | A vote ends the voting exactly when every member of the turn order has voted; then the fake gets its guess exactly when it leads alone |
| EngineTheorems.ProgressLowersBudget | frontend/p2p/engine.ts:214-319 | Every accepted progress command strictly lowers the budget of unused cards, strokes and votes left |
| EngineTheorems.BudgetNeverRises | frontend/p2p/engine.ts:111-337 | No command raises the budget once writing is over |
| EngineTheorems.GamesAreFinite | frontend/p2p/engine.ts:203-319 | In any run from the first round on, at most budget-many progress commands are accepted |
| EngineTheorems.NoMoreRoundsThanCards | frontend/p2p/engine.ts:416-464 | Used cards are exactly the rounds drawn, so a game has at most as many rounds as cards |
| EngineTheorems.GameOverIsAbsorbing | frontend/p2p/engine.ts:111-337 | With local draws nothing leaves GAME_OVER or changes rounds, cards and scores in it |
| GameRules.PhasesFollowTheRules | frontend/p2p/engine.ts:111-337 | In every reachable state every command leads to exactly the phase of a table of the rules written without the handlers: who may move the game on, when drawing and voting end, when the target score or an exhausted pool ends the game |
| Words.WordsAreTheCards | frontend/p2p/engine.ts:416-504 | In every reachable state every card has a word, the word kept back in an open round is that of the round's card, and every finished round shows the word of its card |
| Words.VerdictOnTheGuess | frontend/p2p/engine.ts:291-300 | The guess wins exactly when, trimmed and in lower case, it says something and is the word of the round's card: FAKE_WON and two points to the fake, otherwise ARTISTS_WON and one to every artist |
| Roles.OpeningTellsTheRoles | frontend/p2p/engine.ts:416-464 | A command that opens a round tells every member of its turn order its role exactly once and nobody else: the fake that it is, everyone else the word of a card that was unused, which is the round's |
| Roles.RejoinTellsTheRole | frontend/p2p/engine.ts:128-172 | Who joins again while a round is open is told its role once more, with the word of the round's card unless it is the fake; in other phases, and to other players, nothing is told |
| Roles.OnlyOwnRolesAreTold | frontend/p2p/engine.ts:111-464 | Over every run and command: what is sent to one player is a welcome, an error, or its own role in the open round, where the fake never gets a word |
| Deals.EveryOrderCanCome | frontend/p2p/engine.ts:431-436 | Every order of the players is dealt by some random source |
| Deals.OrdersAreTheChoices | frontend/p2p/engine.ts:431-436 | Two sources shuffle distinct players alike exactly when they choose alike at every place, so rows of choices and orders correspond one to one |
| Deals.EveryDealCanCome | frontend/p2p/engine.ts:416-451 | Every unused card, order and fake together can be dealt |
| Seats.TheTableIsInOrder | frontend/p2p/engine.ts:128-172 | In every reachable state the first player is host and admin and nobody else, the first ten colours differ, every card has an author who submitted, every stroke has two points or more and its artist's colour, and there is a winner exactly at the end, the first with the most points |
| Seats.SeatsAreForGood | frontend/p2p/engine.ts:128-201 | Over every run nobody loses a seat, id or colour, or takes back a submission |
| Seats.OutsidersChangeNothing | frontend/p2p/engine.ts:111-337 | Nobody without a seat changes anything but by joining |
| Seats.JoinSeatsExactly | frontend/p2p/engine.ts:128-172 | A join changes exactly the connection and name of a player known by id, or adds the last seat before the first round, or nothing |
| Seats.StrokeTakenExactly | frontend/p2p/engine.ts:242-269 | A stroke is taken exactly from the artist whose turn it is, with two points or more, as it came, and is broadcast with the new count; otherwise nothing changes |
| Seats.SpareColourIsHex | frontend/p2p/engine.ts:551-560 | With the palette used up a new player gets a number sign and the six hexadecimal digits of the number drawn |
| Lobby.SettingsTakenExactly | frontend/p2p/engine.ts:174-182 | Each setting is taken exactly from the host, in the lobby, if large enough; nothing else ever changes it |
| Lobby.SettingsStaySensible | frontend/p2p/engine.ts:174-182 | Over every run positive settings stay positive |
| Lobby.WordsBecomeCards | frontend/p2p/engine.ts:184-201 | The first submission of a player while writing adds exactly its words, trimmed and without blank ones, in order, as unused cards in its name |
| Replies.RefusalsAreExplained | frontend/p2p/engine.ts:111-337 | A command is answered with an error exactly when the rules give a reason, with that reason, once, and to its sender only |
| Replies.JoinIsWelcomed | frontend/p2p/engine.ts:128-172 | A join that is not refused is welcomed by the id of its seat first, then announced, then told a role if any |
| Replies.ToldToEveryone | frontend/p2p/engine.ts:574-577 | Whatever is broadcast comes with the version risen by one, and is the redacted new state, or a stroke of SUBMIT_STROKE |
| Sanitizer.SanitizeHidesExactlyTheSecrets | frontend/p2p/sanitize.ts:6-26 | Two states look alike after redaction exactly when they differ only in pool words and, before the reveal, in the secret fields of the round |
| Sanitizer.SanitizeIdempotent | frontend/p2p/sanitize.ts:6-26 | Redacting twice is redacting once |
| Secrecy.DispatchAlike | frontend/p2p/engine.ts:111-319 | Unwinding: states that differ only in secrets answer a command that does not disclose with equal broadcasts, and differ only in secrets afterwards |
| Secrecy.CompleteDrawAlike | frontend/p2p/engine.ts:345-412 | Two answers of a server draw that name the same card, and may differ in the fake, the word and the commitment, make games that differ only in secrets broadcast the same and differ only in secrets afterwards |
| Secrecy.SecretsStaySecret | frontend/p2p/engine.ts:111-412 | Over whole runs without a disclosing command, with local or with server draws, answered or failed, two games that differ only in secrets broadcast the same events; even who is the fake may differ |
| Secrecy.UsedFlagsNameTheCard | frontend/p2p/sanitize.ts:7-16 | What redaction does not hide: opening a round turns exactly one `used` flag of the broadcast pool from false to true, that of the stripped card_id |
| ReplicaObject.Replica.Apply | frontend/p2p/replica.ts:76-103 | Every event does what the specification of the replica says |
| ReplicaObject.Replica.ApplyFrame | frontend/p2p/replica.ts:106-126 | A sync answer: the round context, its strokes, a drain, its state, the request settled, a second drain |
| ReplicaObject.Replica.ApplyState | frontend/p2p/replica.ts:128-156 | The version counts states; a new round resets the floor and the buffer, the same round only raises the floor |
| ReplicaObject.Replica.ApplyStroke | frontend/p2p/replica.ts:158-184 | At the floor a stroke is drawn, above it is buffered and the gap asked for, below it is dropped |
| ReplicaObject.Replica.DrainPending | frontend/p2p/replica.ts:186-197 | The sorted buffer gives up the run at its head; what has fallen below the floor goes |
| ReplicaObject.Replica.DeliverStroke | frontend/p2p/replica.ts:199-203 | One listener call for the stroke and its index |
| ReplicaObject.Replica.RequestSyncIfNeeded | frontend/p2p/replica.ts:205-211 | One request, only when none is in flight |
| ReplicaObject.Replica.RequestSync | frontend/p2p/replica.ts:213-220 | A manual request from the floor |
| ReplicaSafety.StepSafe | frontend/p2p/replica.ts:106-220 | Each arrival keeps delivered indices increasing within an epoch and the floor from going back |
| ReplicaSafety.NothingIsDrawnTwice | frontend/p2p/replica.ts:106-220 | Under any sequence of states, strokes and sync answers, lost, repeated or reordered, no stroke is drawn twice and strokes are drawn in order between floor resets |
| ReplicaSafety.AskingStep | frontend/p2p/replica.ts:205-220 | A step asks at most once, only with nothing outstanding, and only a sync answer settles a request |
| ReplicaSafety.OneRequestOutstanding | frontend/p2p/replica.ts:205-220 | Requests exceed answers by at most one; with the answer lost the replica never asks again |
| SyncRequests.FateOfAStroke | frontend/p2p/replica.ts:158-184 | Above the floor a stroke is buffered and the gap asked for from the floor itself, in its round; at the floor it is drawn and nothing asked; below, nothing happens |
| SyncRequests.FateOfAState | frontend/p2p/replica.ts:128-156 | What a state changes, in full: the floor only rises within its round and is set anew, with an empty buffer, by another |
| SyncRequests.ManualAsksFromTheFloor | frontend/p2p/replica.ts:213-220 | A request by hand asks from the floor, in the round on show |
| SyncRequests.RequestsStayBelowTheFloor | frontend/p2p/replica.ts:106-220 | Over any arrivals the floor is in the round on show, and the request in flight, unless the floor was reset since, is for that round and from no higher than the floor |
| SyncRequests.NoStrokeIsOfAnotherRound | frontend/p2p/replica.ts:158-170 | Over any arrivals the round a stroke is compared with is the replica's own, so the check for another round never fires |
| SyncRequests.AnswerFillsExactlyWhen | frontend/p2p/hostBridge.ts:116-142 | For any round and index asked for, an answer from memory has all of the host's strokes from the guest's floor on drawn exactly when none is missing, or the host is in that round and the index is not above the floor |
| SyncRequests.RequestedSyncClosesTheGap | frontend/p2p/replica.ts:106-126 | The request a replica made itself, after any arrivals, closes the gap when the host is in its round and the floor was not reset since: exactly the missing strokes, then a run of the buffer, and exactly the rest kept |
| ReorderBuffer.AnyOrderDrawsAll | frontend/p2p/replica.ts:158-197 | The strokes of a round from the floor on, each once and in any order, are all drawn, in the order of the round, and nothing stays buffered |
| ReorderBuffer.AnyOrderHolds | frontend/p2p/replica.ts:158-197 | And at any moment before, exactly the strokes up to the first missing one are drawn and the others that have come are buffered |
| ReplicaMemory.ShowsTheLast | frontend/p2p/replica.ts:76-156 | After any arrivals a replica shows the last state of them and their number, the last id welcomed with, every error in order, and the last role told since the last state before the first round |
| Refinement.WireIsTransparent | frontend/p2p/transport.ts:215-256 | Packing events into envelopes and back loses nothing, whatever version and round are stamped on them |
| HostBridges.HostBridge.constructor | frontend/p2p/hostBridge.ts:39-55 | A bridge that has relayed nothing |
| HostBridges.HostBridge.RelayBroadcast | frontend/p2p/hostBridge.ts:62-81 | One envelope to everyone; a stroke is logged under its zero-based index in the engine's round, a state is recorded with the version, and nothing else is written |
| HostBridges.HostBridge.RelayDirect | frontend/p2p/hostBridge.ts:83-91 | One envelope to the addressee |
| HostBridges.HostBridge.ServeSyncReq | frontend/p2p/hostBridge.ts:116-142 | One answer with the raw state; its strokes are, without a log, those of the round from the index asked for, in order, and with a log what the scan returns |
| SyncProtocol.SyncClosesTheGap | frontend/p2p/replica.ts:106-126 | An answer from memory makes the guest draw exactly the host's strokes from its floor on, then a hole-free run of its buffer; it keeps exactly the entries from the new floor on, and if no index was buffered twice the next index is not buffered |
| SyncProtocol.NothingStaysExactlyWhen | frontend/p2p/replica.ts:106-126 | Nothing deliverable stays after such an answer exactly when, up to the first gap of the buffer and its last index aside, no index was buffered twice, or only one and no stale entry was there |
| SyncProtocol.ServedFillsTheGap | frontend/p2p/hostBridge.ts:124-134 | Frames from an index at or below the floor deliver exactly the strokes from the floor on |
| BufferDrain.DrainDeliversRun | frontend/p2p/replica.ts:186-197 | One drain, exactly: none if an entry is stale, else the run up to the first gap or behind the first repeated index; every other entry from the new floor on stays, as often as it was there |
| SyncProtocol.RepeatsCanBlockTheDrain | frontend/p2p/replica.ts:186-197 | A run from a new replica: stroke 0 is lost, 1 and 2 arrive twice and 3 once; after the host's answer stroke 3, which the guest holds and could draw, stays behind |
| LogSync.OrderedFramesAreDrawn | frontend/p2p/replica.ts:115-119 | Frames in order are drawn from the floor on, in the round the guest is in, whatever round they name; what they skip is skipped for good |
| LogSync.LogFillsTheGapExactlyWhen | frontend/p2p/hostBridge.ts:118-124 | The answer from a faithful log makes the guest draw exactly the host's strokes from its floor on, exactly when none of these indices begins with digits that read as less than the index asked for |
| LogSync.OldStrokesAreDrawnInTheNewRound | frontend/p2p/replica.ts:106-126 | An answer for an older round, met by a guest in the host's new round, has the old strokes drawn there |
| Refinement.DispatchSync | frontend/p2p/transport.ts:35-55 | One command keeps an attached replica equal to the redacted engine, exactly unless it is START_ROUND on an empty pool |
| Refinement.MissedEndIsRepaired | frontend/p2p/engine.ts:229-232 | After an unannounced end the next announcement brings the replica back |
| Refinement.LoopbackShowsTheGame | frontend/p2p/transport.ts:35-55 | After any run from the start the attached replica has the engine's version, an empty buffer, no request, and has drawn exactly the strokes of every round, each once and in order; it shows the redacted state exactly unless the last command that changed the game was START_ROUND on an empty pool |
| StrokeLogs.StrokeLog.AppendStroke | frontend/p2p/log.ts:76-106 | A stroke is stored under the key of its room, round and index, and the record of the last round and stroke follows |
| StrokeLogs.StrokeLog.PutState | frontend/p2p/log.ts:151-175 | The state is stored with its version, and the record follows the round and the larger version |
| StrokeLogs.StateFirstKeepsTheOldIndex | frontend/p2p/log.ts:76-175 | The recorded stroke index starts again with a new round exactly as the code intends when strokes alone are logged; once the round's state was recorded first it never falls below the old round's |
| StrokeLogs.VersionIsTheLargest | frontend/p2p/log.ts:76-175 | After any writes the recorded version is the largest a state was written with |
| StrokeLogs.StrokeLog.GetStrokesFrom | frontend/p2p/log.ts:108-139 | The scan returns, strictly ascending, exactly the round's strokes at or above the index whose numeral is not lexicographically below it, in whatever order the cursor runs |
| StrokeLogs.StrokeLog.ClearRoom | frontend/p2p/log.ts:185-208 | Exactly the keys of the room's range go, and the room's two records |
| StrokeLogs.KeysAreInjective | frontend/p2p/log.ts:72-74 | Keys are injective, even for room ids that contain slashes |
| ScanCompleteness.LexIsLeadingDigits | frontend/p2p/log.ts:113-117 | How the string bound treats a larger number is decided by its leading digits |
| ScanCompleteness.ScanMissesNothingIff | frontend/p2p/log.ts:108-139 | The scan is complete exactly when no stored index at or above f begins with digits that read as less than f |
| ScanCompleteness.ScanCompleteCases | frontend/p2p/log.ts:108-139 | So it is complete for f = 0, for powers of ten, and among indices as long as f |
| ScanCompleteness.ScanFromTwoMissesTen | frontend/p2p/log.ts:113-117 | A guest that asks from stroke 2 is never sent stroke 10 |
| ScanCompleteness.ClearRoomReach | frontend/p2p/log.ts:185-208 | Clearing a room takes another room's stroke exactly when one id continues the other after a slash |
| AsyncDraw.HostReadsTheDraw | frontend/p2p/engine.ts:380-387 | In whatever order the assignments are listed, the host reads off the server's fake, and the card's word if anyone was given it |
| AsyncDraw.AnswerNamesTheFake | internal/rooms/draw.go:165-179 | The fake a host reads off an answer is the one the server keeps as the round's secret |
| AsyncDraw.StepKeeps | frontend/p2p/engine.ts:345-412 | Every command, server draw, delivery and loss keeps the joint invariant of host and server |
| AsyncDraw.AnyInterleavingKeepsTheRound | frontend/p2p/engine.ts:345-412 | With any number of draws in flight, answered late, twice or never: stroke_index and votes_cast match their lists, the turn order is a duplicate-free permutation of the roster captured at the begin, the fake is in it, and strokes follow the turns |
| AsyncDraw.CardsAreSpentOnce | internal/rooms/draw.go:84-116 | The server draws no card twice even when answers are lost, and the host's used cards are a subset of the server's |
| AsyncDraw.OnlyAnAnswerReopensTheGame | frontend/p2p/engine.ts:345-412 | With a drawer GAME_OVER lasts exactly until an outstanding answer is delivered, which opens a round again |
| DrawAnswers.DrawIsAskedExactly | frontend/p2p/engine.ts:345-356 | Starting a game with a drawer only asks for a draw: for the players seated, the unused cards and the next round index |
| DrawAnswers.NextDrawIsAskedExactly | frontend/p2p/engine.ts:302-319 | So does the next round, with the finished one archived, unless the game is over |
| DrawAnswers.FailedDrawIsOver | frontend/p2p/engine.ts:357-360 | A failed draw is over, its host told why, and the game as it was |
| DrawAnswers.AnswerOpensTheDrawnRound | frontend/p2p/engine.ts:362-412 | A delivered draw opens the round asked for with the server's card and fake, in an order of the players captured; the host is told its own role, nobody else anything; the word kept back is that of a card the server could pick, unless the fake plays alone |
| Draws.DrawState.MergePool | internal/rooms/draw.go:84-97 | Unknown entries are appended unused; an id repeated within one call is not noticed |
| Draws.DrawState.PickCard | internal/rooms/draw.go:101-116 | An unused card is picked by the random number and marked; an error, and nothing changed, when none is left |
| Draws.DrawState.Draw | internal/rooms/draw.go:118-180 | The whole draw with its four refusals |
| Draws.DrawState.Reveal | internal/rooms/draw.go:184-206 | The secret of the round with its nonce in hexadecimal, or an error if it was never drawn |
| Draws.ExactlyOneFake | internal/rooms/draw.go:165-172 | Everyone of the draw gets a role, exactly one is the fake, and only the others get the word |
| Draws.MergeExtends | internal/rooms/draw.go:84-97 | Merging keeps every entry and its place and adds exactly the ids not known, unused |
| Draws.MergeKeepsDistinctExactlyWhen | internal/rooms/draw.go:84-97 | The merged pool holds no id twice exactly when the pool held none twice and the call lists no unknown id twice |
| DrawRepeats.NoCardTwice | internal/rooms/draw.go:84-116 | Over any calls no card is drawn twice while no call that reaches the merge lists twice an id unknown at that moment |
| DrawRepeats.CardRepeatsExactlyWhen | internal/rooms/draw.go:84-116 | Some continuation of the calls, bringing no words, draws a card twice exactly when a call that reached the merge listed twice an id unknown at that moment |
| DrawRepeats.DuplicateEntryIsDrawnTwice | internal/rooms/draw.go:91-96 | Such calls in a new room: one lists an entry twice, the next brings none, and both draw the same card |
| Draws.HonestRevealVerifies | internal/rooms/draw.go:149-205 | After any draws a round can be revealed exactly when it was drawn, and the reveal of its last draw verifies at every client that reads the id as the same text |
| Draws.RedrawDropsTheFirst | internal/rooms/draw.go:149-205 | Drawing a round again replaces its secret by the second draw's; without digest collisions it opens the first commitment exactly when the second draw chose the same fake and nonce |
| RevealedDraw.RevealTellsTheLastDraw | internal/rooms/draw.go:118-206 | After any calls the reveal of a round names that round, the one player its last draw made the fake, the word that draw gave to every other player, which is the word of a card it could pick under the id it answered with, and its nonce |
| RevealedDraw.RevealedMeansDrawn | internal/rooms/draw.go:184-206 | A round can be revealed exactly when some call has drawn it |
| RevealedDraw.EveryDrawCanCome | internal/rooms/draw.go:101-147 | Every unused card and every player as the fake can be what a call draws |
| RevealedDraw.RefusedExactlyWhen | internal/rooms/draw.go:118-147 | Each refusal exactly: a room that is gone, a caller that is not the host, no players, no card left; and then nothing changes |
| Crypto.BytesToHex | frontend/p2p/crypto.ts:20-24 | Unpadded numerals, padded, give the base 16 of the bytes |
| Crypto.HexToBytes | frontend/p2p/crypto.ts:12-18 | Each pair of digits is parsed into its element; a last odd digit is dropped |
| Crypto.HexRoundTrip | frontend/p2p/crypto.ts:12-24 | hexToBytes undoes bytesToHex on all byte strings |
| Crypto.Base16Exactly | frontend/p2p/crypto.ts:12-24 | bytesToHex undoes hexToBytes on exactly the lower-case digit strings of even length |
| Crypto.Base16IsInjective | frontend/p2p/crypto.ts:20-24 | Different bytes have different hexadecimal text |
| Crypto.ConstantTimeEqual | frontend/p2p/crypto.ts:49-54 | The loop of xor and or is true exactly on equal strings |
| Crypto.ComputeCommitment | frontend/p2p/crypto.ts:27-36 | The hexadecimal digest of the id's octets followed by the nonce |
| Crypto.VerifyCommitment | frontend/p2p/crypto.ts:40-47 | True exactly when the recomputed commitment is the expected one |
| Crypto.CommitmentBinds | frontend/p2p/crypto.ts:40-47 | Without digest collisions one commitment is opened by only one id and nonce, among nonces of one length |
| Crypto.NonceLengthMatters | frontend/p2p/crypto.ts:27-36 | With nonces of different lengths two ids open one commitment, whatever the digest function |
| Crypto.SharedExactlyByPrefixes | frontend/p2p/crypto.ts:27-47 | Without digest collisions two ids can open one commitment exactly when the octets of one begin the octets of the other |
| Utf8.Encode | internal/bundler/polyfills.go:3 | The nested loops output the encoding of the string's code points |
| Utf8.PushPoint | internal/bundler/polyfills.go:3 | The choice of shift and lead bits, and the inner loop, output the octets of section 3 of RFC 3629 |
| Utf8.PushContinuation | internal/bundler/polyfills.go:3 | The inner loop outputs one continuation octet for every six bits left |
| Utf8.EncoderIsRightOnWellFormed | internal/bundler/polyfills.go:3 | The output is valid UTF-8 exactly for well-formed strings, and the reference decoder then gives the string back |
| Utf8.EncoderIsInjective | internal/bundler/polyfills.go:3 | Different strings, well formed or not, have different octets |
| Utf8.DecodedEncodes | internal/bundler/polyfills.go:3 | Every valid UTF-8 text is the encoding of what it decodes to |
| RoomManager.Manager.constructor | internal/rooms/manager.go:71-80 | An empty registry |
| RoomManager.Manager.MintCode | internal/rooms/manager.go:379-387 | The first of fifty random codes that is not taken, or an error |
| RoomManager.Manager.CreateRoom | internal/rooms/manager.go:85-115 | A new room under a free code with its creator as host; nothing changed when no code is free |
| RoomManager.Manager.LookupByCode | internal/rooms/manager.go:119-131 | The room of the code, or an error |
| RoomManager.Manager.RegisterPlayer | internal/rooms/manager.go:147-169 | Re-attachment by a non-empty name, else a new player who is not host |
| RoomManager.Manager.UpdateHost | internal/rooms/manager.go:174-187 | Host and every player's flag replaced |
| RoomManager.Manager.SaveCheckpoint | internal/rooms/manager.go:192-210 | Refused for unknown rooms and for versions not above the current one; otherwise stored, if storage works, and the room's version set |
| RoomManager.Manager.ClaimHost | internal/rooms/manager.go:237-277 | The endorsement rules and the reply with the current best |
| RoomManager.Manager.SetFinished | internal/rooms/manager.go:314-329 | The finished mark set or removed |
| RoomManager.Manager.EvictRoom | internal/rooms/manager.go:295-302 | The locked half of a deletion: both indexes lose the room, its checkpoint is still to be dropped |
| RoomManager.Manager.EvictOutlived | internal/rooms/manager.go:352-364 | The locked half of a sweep: exactly the outlived rooms go, in whatever order the map is walked |
| RoomManager.Manager.FinishRemoval | internal/rooms/manager.go:303-306 | The unlocked half: the checkpoint deleted, or kept when storage fails, and the hook called when the room existed |
| RegistryInvariant.StepKeeps | internal/rooms/manager.go:85-375 | Every operation keeps the registry invariant |
| RegistryInvariant.RegistryStaysConsistent | internal/rooms/manager.go:85-375 | In every run codes and ids stay mutually inverse, a player is flagged exactly when it is the host, a live room's stored checkpoint has its snapshot version, and every stored checkpoint belongs to a live room, one awaiting deletion, or a failed deletion |
| RegistryInvariant.NothingGoesBack | internal/rooms/manager.go:192-210 | Through any interleaving with half-done deletions a live room's version never falls, an evicted room never returns, and its checkpoint is never written again |
| RegistryInvariant.StoredVersionNeverFalls | internal/rooms/manager.go:199-206 | The stored checkpoint of a live room never regresses |
| RegistryInvariant.CreateUsesAFreeCode | internal/rooms/manager.go:85-115 | The new room can be looked up by a code that was free, and the other rooms by theirs |
| RegistryInvariant.RegisterIsIdempotentByName | internal/rooms/manager.go:154-168 | The same non-empty name twice gives the same player and no change |
| RegistryInvariant.SweepIsExact | internal/rooms/manager.go:352-364 | A room is swept exactly when idle beyond its limit; swept rooms cannot be looked up, the others as before |
| RegistryInvariant.EveryEvictionIsNotifiedOnce | internal/rooms/manager.go:295-374 | The hook is called at most once for a room and only after it went; once every removal is finished, exactly once for each room created and gone |
| RoomHistory.RoomsRememberTheLast | internal/rooms/manager.go:85-375 | In every run a live room's stored checkpoint is the last one accepted for it, whole, its activity the time of the last step that touched it, and its mark the last one set |
| RoomHistory.SweepGoesByTheHistory | internal/rooms/manager.go:352-364 | So a sweep spares a room exactly when its last activity is recent enough, by the shorter limit if it is marked |
| RoomHistory.SaveDecidedExactly | internal/rooms/manager.go:192-210 | A checkpoint is stored as it came, but for the time, or refused with its reason, or lost with storage, and then nothing changes |
| RoomHistory.CreatedRoomIs | internal/rooms/manager.go:85-115 | A new room has its creator as its only player and its host, under the first free code of fifty |
| RoomHistory.RegisteredPlayerIs | internal/rooms/manager.go:147-169 | Registering attaches to the first player with the name, changing nothing, or seats a new player, last and not host |
| HostClaims.BeatsIsTotal | internal/rooms/manager.go:282-291 | Of two different claims exactly one beats the other |
| HostClaims.TheBestHoldsTheSlot | internal/rooms/manager.go:237-277 | From a vacated slot, after any claims inside the window, the unique best holds it, and the last claim was endorsed exactly if it is the best |
| HostClaims.ArrivalOrderDoesNotMatter | internal/rooms/manager.go:237-277 | The same claims, in any two orders and at any times inside the window, end with the same host |
| HostClaims.OutsideTheWindowTheFirstStands | internal/rooms/manager.go:253-256 | Outside the window the first claim stands, so the order decides |
| HostClaims.AReclaimIsNotRecorded | internal/rooms/manager.go:245-249 | A host that claims again is endorsed but not recorded: a rival that beats only its old claim still takes the slot |
| HostChanges.ClaimDecidedExactly | internal/rooms/manager.go:237-277 | One claim, exactly: the host re-endorsed, or the claimant endorsed on an empty slot or by displacing the recorded claim inside the window, or the room unchanged and the standing host's tuple in reply |
| HostChanges.AHostWithoutAClaimStands | internal/rooms/manager.go:253-256 | With a host in place and no claim on record, anyone else is rejected with that host, the snapshot version and 0, and the room stays as it is |
| HostChanges.HostChangesExactlyWhen | internal/rooms/manager.go:174-277 | In every run the host of a live room changes only by UpdateHost, by a claim on an empty slot, or by a claim that displaces the recorded one inside the window, and then to the player named |
| HostChanges.ClaimsNeverUnseatTheCreator | internal/rooms/manager.go:237-277 | From its creation on, through any run without UpdateHost, a room's creator stays its host: claims alone never move it |
| Election.Elect | frontend/p2p/election.ts:34-66 | Null exactly when nobody is connected; otherwise a connected player that goes before every other |
| Election.CompareIsTotal | frontend/p2p/election.ts:57-64 | The comparison is zero only for equal candidates and antisymmetric |
| Election.CompareIsTransitive | frontend/p2p/election.ts:57-64 | The comparison is transitive |
| Election.ViewsThatKnowTheSameAgree | frontend/p2p/election.ts:34-66 | Views that know the same tuples elect the same player |
| Election.TheNewestIsElected | frontend/p2p/election.ts:34-66 | The elected has the newest version its view knows among the connected, then the most strokes, then the first id |
| Election.ServerEndorsesTheElected | internal/rooms/manager.go:237-291 | The server ends with the player every guest elects, when each connected player claims once with the tuple of the view and ids compare alike on both sides |
| Election.AsciiIdsAreComparable | internal/rooms/manager.go:401-405 | Ids of the minted form always compare alike |
| Election.CrossedIdsSplitTheVote | internal/rooms/manager.go:279-291 | With equal tuples, browser and server agree exactly when the ids are comparable |
| IdOrder.BytesOrderIsPointOrder | internal/rooms/manager.go:289-290 | The byte order of UTF-8 is the order of code points |
| IdOrder.BrowserAndServerAgree | frontend/p2p/election.ts:60-63 | The browser's order of two ids is the server's exactly unless their first different characters are one beyond U+FFFF and one of U+E000 to U+FFFF |
| IdOrder.AsciiIdsAgree | frontend/p2p/election.ts:60-63 | The two orders agree on ASCII ids |
| Checkpoints.CheckpointDispatcher.constructor | frontend/p2p/checkpoint.ts:42-51 | Nothing flushed, nothing pending |
| Checkpoints.CheckpointDispatcher.Flush | frontend/p2p/checkpoint.ts:89-115 | A flush up to its first await, or a note that one is pending |
| Checkpoints.CheckpointDispatcher.Observe | frontend/p2p/checkpoint.ts:74-87 | Strokes are counted to the threshold; a change of status flushes |
| Checkpoints.CheckpointDispatcher.MaybeFlushByTime | frontend/p2p/checkpoint.ts:67-72 | A flush when none is in flight, the version has moved and the time is up |
| Checkpoints.CheckpointDispatcher.EndFlush | frontend/p2p/checkpoint.ts:119-125 | The end of a flush, successful or not, starts the pending one |
| Checkpoints.CheckpointDispatcher.OnLogRead | frontend/p2p/checkpoint.ts:103-115 | The body is posted with the last 64 logged strokes; a failed read ends the flush |
| Checkpoints.CheckpointDispatcher.OnPostAnswered | frontend/p2p/checkpoint.ts:116-118 | A failed post is repeated up to five times; then, or when accepted or refused as stale, the flush counts as done |
| Checkpoints.OneFlushAtATime | frontend/p2p/checkpoint.ts:89-126 | At most one flush is ever in flight and the versions posted never fall |
| Checkpoints.NoTriggerIsLost | frontend/p2p/checkpoint.ts:89-126 | Once nothing is in flight a snapshot has been taken in the step of the last trigger or later, of a state at least as new |
| Checkpoints.UnansweredMeansPending | frontend/p2p/checkpoint.ts:89-126 | A trigger not yet followed by a snapshot has a flush in flight and another pending |
| Checkpoints.FewStrokesAreUnsaved | frontend/p2p/checkpoint.ts:74-126 | Whenever no flush is in flight at most 2(threshold - 1) strokes were broadcast since the last snapshot, log failures included |
| Checkpoints.SnapshotsAreTheFlushes | frontend/p2p/checkpoint.ts:67-126 | A snapshot is taken exactly when a trigger or the time finds nothing in flight, or a flush ends with another pending, and it is of the redacted state and version of that moment |
| CheckpointPosts.PostsExactly | frontend/p2p/checkpoint.ts:89-126 | Each step posts at most once: the log's answer its flight's snapshot with the last 64 strokes, a failed post the same again, a snapshot without a log at once and without strokes |
| CheckpointPosts.PostsAreSnapshots | frontend/p2p/checkpoint.ts:89-126 | Over any run whatever is posted is a version with the redacted state the engine had at a snapshot of that version |
| CheckpointPosts.FlushedIsRecorded | frontend/p2p/checkpoint.ts:112-118 | The flushed version, its time and the count of strokes change exactly with a flush that ends posted |
| CheckpointPosts.StatusIsTheLastSeen | frontend/p2p/checkpoint.ts:80-86 | A new status is compared with that of the last state broadcast |
| Checkpoints.TailIsTheEnd | frontend/p2p/checkpoint.ts:104-106 | The posted tail is the end of the log, at most 64 strokes, and its first index is stated |
| Checkpoints.GivingUpCountsAsSaving | frontend/p2p/checkpoint.ts:116-118 | After five failed posts the version counts as flushed, and no passage of time flushes it again |
| SignalHub.Hub.constructor | internal/signal/hub.go:51-66 | An empty hub |
| SignalHub.Hub.OnRegister | internal/signal/hub.go:71-72 | The client is registered |
| SignalHub.Hub.OnBindPlayer | internal/signal/hub.go:74-77 | The player's binding is replaced |
| SignalHub.Hub.OnBindRoom | internal/signal/hub.go:79-85 | The client joins its room |
| SignalHub.Hub.DropClient | internal/signal/hub.go:152-171 | A registered client leaves all maps, its player's binding only if it is its own, and its channel is closed; an unregistered one is left alone |
| SignalHub.Hub.TrySend | internal/signal/hub.go:144-150 | A message is sent, or the client dropped if its channel is full |
| SignalHub.Hub.OnBroadcast | internal/signal/hub.go:90-93 | Every registered client is sent the message, in any order |
| SignalHub.Hub.OnDirect | internal/signal/hub.go:95-98 | The bound client is sent the message |
| SignalHub.Hub.OnBroadcastRoom | internal/signal/hub.go:100-105 | Every member of the room is sent the message, in any order |
| SignalHub.Hub.OnCloseRoom | internal/signal/hub.go:107-122 | Every member is told, closed and forgotten, and the room removed |
| SignalHub.StepKeeps | internal/signal/hub.go:68-171 | Every event but a late set-up keeps the maps consistent with the channels |
| SignalHub.CanPanicExactlyWhen | internal/signal/hub.go:68-171 | Some next event makes the hub panic exactly when some map holds a client whose channel is closed |
| SignalHub.OnlyLateSetUpTaints | internal/signal/hub.go:71-88 | From a consistent hub an event puts a closed client into a map exactly when it registers or binds a client whose channel is closed already |
| SignalHub.PanicsExactlyAfterLateSetUp | internal/signal/hub.go:68-171 | A run of events reaches a point where the hub can panic exactly when it handles such a late set-up |
| SignalHub.HubNeverPanics | internal/signal/hub.go:68-171 | In any run without a late set-up no channel is closed twice or written after its close, whoever is in a map and was registered still is, and no room is empty |
| SignalHub.TornDownMeansClosedOnce | internal/signal/hub.go:107-171 | A client that is unregistered, or whose room closes, has its channel closed exactly once |
| SignalHub.LateUnregisterSparesTheNewSocket | internal/signal/hub.go:157-161 | A late Unregister of an old socket leaves the newer one bound, registered and in its room |
| SignalHub.ClosingUnbindsByPlayer | internal/signal/hub.go:116-119 | Closing a room leaves a player bound exactly when no member of the room belongs to that player |
| SignalHub.NewerSocketLosesItsBinding | internal/signal/hub.go:116-119 | So closing an old room unbinds a player's newer socket elsewhere |
| SignalHub.UnregisterBeforeBindRoomPanics | internal/signal/hub.go:79-88 | Such a run: a client unregistered before its room is bound makes the hub write to a closed channel |
| SignalHub.RoomMessageReachesTheRoom | internal/signal/hub.go:100-105 | Each member gets a room message exactly once, except that full ones are dropped and closed |
| HubDelivery.DeliveredExactly | internal/signal/hub.go:68-171 | For every event, client and message, exactly: it is sent once if the event means to reach the client, says that message and finds space; the channel is closed exactly when the event cuts the client off; and who is registered afterwards |
| HubDelivery.BoundExactly | internal/signal/hub.go:74-105 | After every event but a closing: each player's binding and each room's members, exactly |
| HubDelivery.ClosedRoomIsEmpty | internal/signal/hub.go:107-122 | A room that closes is empty and the others are as before |

## Left out

- Aliasing: records are values, so a broadcast payload or a room handed to a caller is not seen to change later; `winner` is the winner's id.
- The random sources are not assumed to be uniform: every sequence of numbers is covered, and nothing is said about probability.
- Freshness of minted ids (cards, players, rooms) is a hypothesis of the run theorems, as is strokes_per_artist of at least one at the start, which the constructor of the engine does not check.
- Listeners of the engine and the replica are the lists of what they were called with; subscribing late or unsubscribing is not modelled.
- `setDrawer` in mid-game: an engine has its drawer from the start or never.
- Transport status, sequence numbers, close and reconnect in transport.ts; the RTC and relay transports share the envelope translation, which is modelled.
- `getState` and `getMeta` of log.ts, which read the two records back.
- Writes to the log are done when the event is relayed; the source does not wait for them, and may answer a request before they land.
- A round suffix in a key other than a decimal numeral, or one with a slash, is not parsed as JavaScript's `Number` would: keys are written by `strokeKey` only.
- Fractional or negative numbers on the wire: indices, versions and rounds are natural numbers there, integers in claims.
- `AsyncDraw` does not carry the score ledger or the termination measure: with several draws in flight a late answer can replace a round or reopen a game.
- The per-player role messages that the server sends over signaling after a draw.
- The HTTP handlers, their authentication, and the storage drivers: storage is a map whose writes and deletions may fail as a whole.
- A restart of the server: the registry starts empty and so does the store.
- The hub's inbound queue, the pumps of client.go and the capacity of a send channel: whether a channel is full is arbitrary at every event.
- Stroke geometry beyond the guard of two points; `turn_duration` and `words_per_player`, which the engine stores and does not use.
- The interface, canvas, export, server rendering and the wiring of the providers and timers.
- The decoder of the polyfill and the other polyfills; the encoder is proved against a reference decoder instead.
- StrokeLogs.StrokeLog.AppendStroke: the time stamp stored with a stroke, which no read returns, is not modelled.
- Secrecy.SecretsStaySecret: covers broadcasts, not sync answers, role messages or the draw request to the server; the two answers of a draw name the same card, as `UsedFlagsNameTheCard` shows they must.
- Draws.DrawState.Draw: the lookup of the room and the locks around its parts are left out; the room's host is an argument, and one call runs as a whole.
- Checkpoints.FewStrokesAreUnsaved: is about snapshots taken, not about snapshots the server accepted.
