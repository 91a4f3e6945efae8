# A verified model of the chat's sync, gate, keys and storage

The application is an offline-first chat. Each client keeps a replicated document per room and syncs it
over a WebSocket; several server instances hold a copy of a room, merge what clients send and fan it out
to each other through Redis. Once an admin has claimed a key epoch for a room, the server refuses every
update that inserts anything but an encrypted envelope. A refused client retracts its own offending
messages and sends its state again; when that cannot help, it throws its document away and rebuilds it.

This project states what those parts do as Dafny programs and proves what they are for. Objects that the
source updates in place are classes with the same fields, loops are loops, and each method is tied to a
function of the old state; the theorems are about those functions, over every run of the state machines
they make up. `dafny verify dfyconfig.toml` checks everything.

## How the modules fit together

* `Replica` is the abstract document: a map from (client, clock) to a live element or a tombstone, merged
  key by key with the tombstone on top. State vectors, diffs, updates and joins are defined and shown to
  form a semilattice on which one exchange makes two replicas equal. `Wire` relates documents to the
  structs of an update.
* `JsonText`, `Envelope`, `EnvelopeGate` give the message envelope with a full JSON reader and writer, and
  the server's check on an update as its nested loops.
* `Engine` and `Provider` are the client: the message array with its backward in-place deletion, and the
  socket provider as a state machine and as an object that takes its steps; `ProviderRuns` says what its
  runs tell the app and put on the socket. `Repair` is the reject, retract and resync exchange, one ask at
  a time; `Exchange` puts the same client and the gate at the two ends of first-in first-out channels with
  anything in flight, `ExchangeBound` and `ExchangeRuns` bound what its runs refuse, `ExchangeTight` has
  the runs that come to the bound, and `ExchangeServer` shows that the server in them is the gateway;
  `Rebuild` is what happens when the client gives up.
* `Cluster` and `ClusterSafety` run any number of instances, clients, Redis queues and epoch claims.
  `Gateway` is one instance as an object whose handlers are tied to the steps of `Cluster`; `EpochLoad` is
  the race between loading a room and hearing an epoch event; `Throttle` bounds its traffic.
* `RoomKeys` is the key grant service with its transactions, `RoomAuthority` who can put a key into a
  room; `RoomRefresh` the client's decision whether a room is encrypted, over overlapping requests, timers
  and persisted flags; `Backoff` the retry delays; `Common` holds what several modules share.
* `Persistence` is the debounced local writer over asynchronous storage, `LocalPersistence` its object.
* `Frames`, `RawSocket`, `RawSocketRuns` and `RawWsClient` are the RFC 6455 client: the wire format and
  its parser, runs of the socket and what they send and report, the object with its parse and masking
  loops. `Base64` is the base64 polyfill with its shifts; `Encodings` is UTF-8 and base64url; `Composer`
  is the path of a message from the text field through the cipher to the gate.

## What the model takes as given

* Yjs is not part of this model. One struct stands for one array element; a struct past a gap is dropped,
  because the next answer to a state vector carries it again. The order of array elements is whatever the
  library settles on: every theorem holds for all arrangements of the live elements.
* Channels are first-in first-out in each direction, Redis loses nothing, storage completes operations in
  the order they were started, and rooms stay loaded.
* Clocks, random bytes, ids, hashes, fetch results, the database's answers and the consumer's choices are
  parameters or events. The AEAD is any pair of functions; where a theorem says so it is correct (a
  ciphertext is 16 bytes longer than its text and opens as it), and opening the one ciphertext at hand under
  the one additional data at hand is no forgery, that is, it was sealed so by a message in a list. That such
  an AEAD exists is `Composer.AuthenticityIsPossible`. Fingerprints are collision free where a theorem says so.
* Strings are sequences of Unicode scalar values, except in `Base64`, where they are 16-bit code units.

## What turned out not to hold

* Two rejections need not end the exchange. If someone else's plaintext shares an id with a message of our
  own, every rejection counts as repaired and the client is refused for ever (`Repair.SharedIdSticks`). A
  null element makes the retraction throw where it stands, which the handler swallows: own messages before
  it in the array are never taken back, and nothing is ever concluded, even if the null itself is one that
  the server already holds (`Repair.HeldNullSticks`). `Repair.LoopEndsExactlyUnlessStuck` is the exact
  condition when nothing else is in flight. With updates and asks in flight even a session that two would end
  is refused c + 3 n + 1 times, for c connections and n offending updates in the queue
  (`ExchangeTight.BoundIsAttained`), and never more often (`ExchangeRuns.RefusalsAreBounded`).
* The rate limiter's constant says 60 messages per window; windows are fixed, so a second can straddle two of
  them: what holds of every second is 120 (`Throttle.AtMostTwiceTheLimit`), and that is reached
  (`Throttle.TwiceTheLimitIsReached`).
* "Once shown as encrypted, stays so" holds for applied lists, epoch frames and the persisted flag only
  (`RoomRefresh.SticksExactlyWhenShown`). A join reply neither sets the sticky flag nor takes part in the
  latest-wins order (`RoomRefresh.JoiningDoesNotStick`), and a reply that was overtaken by a later request's
  is reported although it is not applied (`RoomRefresh.OvertakenReplyDoesNotStick`): both can be followed by
  a room that reads as plaintext.
* A pending list can carry a key that was replaced between its two queries (`RoomKeys.StaleKeyIsListed`); a
  grant sealed to it leaves the epoch pending (`RoomKeys.StaleGrantStaysPending`).
* `discard()` is not final while a load that may adopt the older key is unfinished
  (`Persistence.DiscardIsFinalExactlyWhen`), and a message sent before the load has finished is not written
  by `destroy()`, after the load if nothing else changes the document (`Persistence.EarlyChangeIsLost`) or
  during it in any case (`Persistence.UnloadedChangeIsLost`); `Persistence.DestroySavesExactlyWhen` covers
  both. The app discards only after the load, so `Persistence.DiscardIsFinal` applies to it; it does hand
  out the engine before.
* The recovery stash is spent early if the refused provider had not been synced
  (`Rebuild.StashCanBeSpentEarly`; the server's greeting makes it synced first), and two rejections before
  the rebuild bring messages back twice (`Rebuild.SecondRejectionDuplicates`). A null element, or an own one
  without a string content, makes the filter throw before anything is stashed or discarded: the client has
  given up, and no rebuild follows (`Rebuild.DiscardsExactlyUnlessThrown`). A null in the resynced document
  makes the reinsertion throw after the stash was deleted: what the server lacked is lost
  (`Rebuild.ReinsertConserves` is the exact condition).
* `on()` without an `onMessage` loses what was queued (`RawSocket.PayloadsArriveInOrder` says how much), and of
  several socket errors before `on()` only the last is reported (`RawSocketRuns.ErrorsAreHeard`).
* The gate's comment counts up to 16000 bytes of plaintext; 4000 UTF-16 units are at most 12000 bytes of
  UTF-8, so a ciphertext has at most 16022 of the 21355 characters allowed (`Composer.CiphertextSize`).
* The refresher's comment says `stop` bumps a generation; the code deletes the entry instead, and late
  results are dropped by comparing entries.

## Model

| member | source | states |
|---|---|---|
| `Repair.RepairLands` | packages/sync-engine/src/WebSocketProvider.ts:189-206 | After a rejection whose offending structs were all taken back, the next answer passes the gate and lands, whatever the server learned, and whatever the client received, deleted or typed in well-formed envelopes, in between (new plaintext is excluded); the server then holds everything the client has live, and nothing the server held live is removed but what the client deleted |
| `Repair.RepairedExactlyWhenOwn` | packages/sync-engine/src/SyncEngine.ts:62-74 | Retracting the named ids cleans the next step2 if and only if every offending struct was one's own message with a string id, with no null element at or behind it in the array |
| `Repair.HeldContentNeverBounces` | apps/server/src/sync/sync.gateway.ts:337-365 | Plaintext the server already holds is never in a step2, so legacy messages never bounce |
| `Repair.LoopEndsExactlyUnlessStuck` | packages/sync-engine/src/WebSocketProvider.ts:189-212 | When nothing else is in flight, at most two step2 frames are refused before one passes or the client stops answering, if and only if no foreign offending struct hides behind an id of one's own and no null stops the walk before an offending struct; otherwise it is refused for ever |
| `Repair.UniqueIdsEndTheLoop` | packages/sync-engine/src/WebSocketProvider.ts:196-206 | With unique message ids, no null element and nothing else in flight the exchange ends within two rejections |
| `Repair.SharedIdSticks` | packages/sync-engine/src/WebSocketProvider.ts:198 | A document on which the exchange does not end: own and foreign plaintext under one id |
| `Repair.HeldNullSticks` | packages/sync-engine/src/WebSocketProvider.ts:210-212 | Another one, with unique ids and every offending struct one's own: a null that the server already holds stands behind the message in the array |
| `Repair.ProviderBounces` | packages/sync-engine/src/WebSocketProvider.ts:189-206 | The provider's handling of a rejection is one step of that exchange, null elements or not |
| `ExchangeRuns.RefusalsAreBounded` | apps/server/src/sync/sync.gateway.ts:337-409 | Over every interleaving of both directions, with any number of updates, answers and asks in flight, other members' traffic, timers, drops and reconnects: at most one refusal for each connection, three for each queued update that offends, and one more if something offending that the server lacks has an id |
| `ExchangeRuns.RefusalsToCome` | packages/sync-engine/src/WebSocketProvider.ts:123-213 | From any point of such a run on, at most as many more refusals as the frames in flight, the queue and the due timer weigh, and one for each later connection |
| `ExchangeRuns.QuietMeansRepaired` | packages/sync-engine/src/WebSocketProvider.ts:196-206 | When a connected client has no ask to answer, none is due and nothing on its way offends, it has given up or the server holds every offending element it has |
| `ExchangeTight.BoundIsAttained` | packages/sync-engine/src/WebSocketProvider.ts:222-227 | The bound is exact: for every number n of offending updates in an offline client's queue and every number c > 0 of connections there is such a run with c + 3 n + 1 refusals, in a session that two rejections would have ended, were nothing else in flight |
| `ExchangeServer.HandledAlike` | apps/server/src/sync/sync.gateway.ts:322-378 | The server of these runs is the gateway: whatever sync frame the gateway handles, the step of the run leads to the same document, memory of refusals and frames to the client, with exactly the ids that a fair step names |
| `ExchangeServer.OthersAlike` | apps/server/src/sync/sync.gateway.ts:486-507 | And what another client's accepted update does to this client is the run's step for it |
| `Repair.RetractIsScan` | packages/sync-engine/src/SyncEngine.ts:62-74 | The backward walk leaves exactly the document with the own named messages retracted that stand behind the last null, and throws exactly when there is a null |
| `Provider.RefusalIsAbsorbing` | packages/sync-engine/src/WebSocketProvider.ts:81-90 | Once the state is refused, no run of frames, reconnects and local changes makes the client send a step2 or an update or queue one |
| `Provider.RefusedHasNoQueue` | packages/sync-engine/src/WebSocketProvider.ts:200-206 | In every run a client that has given up has an empty queue |
| `Provider.WebSocketProvider.HandleDocUpdate` | packages/sync-engine/src/WebSocketProvider.ts:81-90 | A local change is sent, queued or dropped as the status says, and nothing else changes |
| `Provider.WebSocketProvider.Flush` | packages/sync-engine/src/WebSocketProvider.ts:222-227 | The queue is sent in order and emptied |
| `Provider.WebSocketProvider.OnOpen` | packages/sync-engine/src/WebSocketProvider.ts:123-129 | The retries are forgotten; its state vector, the queued updates in order and its presence go out |
| `Provider.WebSocketProvider.OnClose` | packages/sync-engine/src/WebSocketProvider.ts:146-156 | A code from 4000 to 4099 is told and not retried, any other is retried after min(1000 * 2^k, 30000) ms and raises k; a destroyed provider does nothing |
| `Provider.WebSocketProvider.HandleRejected` | packages/sync-engine/src/WebSocketProvider.ts:189-206 | Retracts, notes, concludes: the whole new state and the callbacks, with the walk's exception swallowed |
| `Provider.WebSocketProvider.HandleServerMessage` | packages/sync-engine/src/WebSocketProvider.ts:170-213 | Every frame takes the step of the run machine |
| `ProviderRuns.CloseIsRetried` | packages/sync-engine/src/WebSocketProvider.ts:146-156 | In every run a close after k failures, counted from the events since the last open or the start, is retried after exactly min(1000 * 2^k, 30000) ms, and an auth close is not retried |
| `ProviderRuns.LineIsTold` | packages/sync-engine/src/WebSocketProvider.ts:113-156 | In every run the statuses, auth errors and retries that the app sees are, in order, those its events call for |
| `ProviderRuns.NoChangeIsLost` | packages/sync-engine/src/WebSocketProvider.ts:81-90 | Until the client gives up or is destroyed, the updates sent and those queued are, in order, all changes made on its side of the document, however often the line went down; afterwards a prefix |
| `ProviderRuns.EachQuestionIsAnswered` | packages/sync-engine/src/WebSocketProvider.ts:170-182 | The step2 frames sent are exactly the answers, from the document of that moment, to the questions that found the socket up and the client not having given up |
| `ProviderRuns.FramesAreTold` | packages/sync-engine/src/WebSocketProvider.ts:183-187 | The app hears of every epoch frame, and exactly once, at the first step2 applied, that it is synced |
| `ProviderRuns.RejectionsAreTold` | packages/sync-engine/src/WebSocketProvider.ts:189-206 | In every run a rejection gives back exactly the own messages of the array that it names, in order, and the client gives up exactly if no id came or one of them has never been given back |
| `Engine.SyncEngine.RetractMessages` | packages/sync-engine/src/SyncEngine.ts:62-74 | The array and document after the walk, and what it returns in array order |
| `Engine.ScanIsExact` | packages/sync-engine/src/SyncEngine.ts:67-71 | Without a null element the walk removes exactly the user's own messages with a wanted id |
| `Engine.RetractedIsOk` | packages/sync-engine/src/SyncEngine.ts:62-74 | Retraction only turns live cells into tombstones and keeps the array in step with the document |
| `Engine.SyncEngine.ReinsertMessages` | packages/sync-engine/src/SyncEngine.ts:82-87 | Appends exactly the messages whose id the array lacked, and returns them; a null element makes it throw with nothing appended |
| `Engine.MissingIsExact` | packages/sync-engine/src/SyncEngine.ts:83-84 | A message counts as missing if and only if no element had its id |
| `Engine.AppendedIsOk` | packages/sync-engine/src/SyncEngine.ts:48 | Pushing gives fresh operation ids and leaves every cell and the array's front as they were |
| `Replica.ExchangeConverges` | apps/server/src/sync/sync.gateway.ts:358-367 | One exchange of vectors and answers in both directions makes two replicas equal |
| `Replica.DiffCompletes` | packages/sync-engine/src/SyncEngine.ts:115-117 | Answering a peer's vector brings the peer to the join of both documents |
| `Replica.JoinIsSemilattice` | packages/sync-engine/src/SyncEngine.ts:107-109 | Merging is commutative, idempotent and associative |
| `Replica.AbsorbCommutes` | apps/server/src/sync/sync.gateway.ts:137 | Complete updates commute |
| `Replica.VectorCoversExactly` | packages/sync-engine/src/SyncEngine.ts:111-113 | The state vector covers exactly the known operations |
| `Replica.ChangesReplay` | apps/server/src/sync/sync.gateway.ts:487-491 | What a document announces takes its peer exactly to where it went |
| `Wire.GateDecides` | apps/server/src/sync/e2ee-update-gate.ts:49-74 | On an encoding of a change the gate accepts if and only if the change is clean |
| `Wire.RejectionNames` | apps/server/src/sync/e2ee-update-gate.ts:66-71 | The ids a rejection carries are exactly those of the offending structs that have one |
| `EnvelopeGate.CheckEnvelopedUpdate` | apps/server/src/sync/e2ee-update-gate.ts:49-74 | The loops accept exactly the updates all of whose structs are gone or hold sealed messages, with their members written out, and name exactly the offending string ids; bytes that do not decode are refused without a name |
| `EnvelopeGate.CheckValues` | apps/server/src/sync/e2ee-update-gate.ts:66-71 | The inner loop over one struct's values |
| `EnvelopeGate.PassesExactly` | apps/server/src/sync/e2ee-update-gate.ts:58-117 | With every name, number and character written out: an update passes if and only if each struct is gone or holds objects with exactly the six members of a message, whose content is "E2E1" and any JSON text of an object with exactly the four members of an envelope: version 1, a positive whole epoch, 32 and 23 to 21355 base64url characters |
| `EnvelopeGate.NothingRidesBeside` | apps/server/src/sync/e2ee-update-gate.ts:76-86 | Any member added to a passing message, or taken from it, makes every update that inserts it refused |
| `EnvelopeGate.NothingRidesInside` | apps/server/src/sync/e2ee-update-gate.ts:98-117 | The same for the members of its envelope, in whatever JSON text they are written |
| `EnvelopeGate.NamesExactly` | apps/server/src/sync/e2ee-update-gate.ts:66-71 | An id is named if and only if some inserted value that does not pass has it as a string id |
| `EnvelopeGate.NamesOne` | apps/server/src/sync/e2ee-update-gate.ts:66-71 | One value is named once, by its string id, if it does not pass and has one, else not |
| `EnvelopeGate.NamesInOrder` | apps/server/src/sync/e2ee-update-gate.ts:66-71 | The names of an update are those of its structs one after the other, and of a struct those of its values |
| `EnvelopeGate.BuiltEnvelopePasses` | apps/server/src/sync/e2ee-update-gate.ts:98-117 | A built envelope passes if and only if its parts have the sizes and alphabet asked for |
| `EnvelopeGate.AcceptedContentIsReadable` | apps/mobile/src/crypto/e2eeEnvelope.ts:30-45 | Whatever the gate accepts, the client reads as an envelope and never throws on |
| `Envelope.RoundTrip` | apps/mobile/src/crypto/e2eeEnvelope.ts:21-45 | Parsing undoes building for every epoch, nonce and ciphertext text, escapes included |
| `Envelope.ReadsExactly` | apps/mobile/src/crypto/e2eeEnvelope.ts:30-45 | A content is plaintext if and only if it lacks the prefix, and sealed if and only if JSON text of an object with the four members of version 1 follows, whatever else the object holds |
| `Cluster.DrainedMeansEqual` | apps/server/src/sync/sync.gateway.ts:120-137 | When the Redis queues of two instances are drained, their documents are equal, deletions included |
| `Cluster.NothingIsLost` | apps/server/src/sync/sync.gateway.ts:486-507 | In every reachable state an operation of one instance is at any other or on its way there |
| `ClusterSafety.EachIsPublishedOnce` | apps/server/src/sync/sync.gateway.ts:497-503 | An instance publishes an operation and its deletion at most once in any run |
| `ClusterSafety.GatedCopyStaysClean` | apps/server/src/sync/sync.gateway.ts:419-429 | Once a copy is gated, a plaintext element in it was there before or came through Redis, in every run |
| `ClusterSafety.NoPlaintextOnceAllGated` | apps/server/src/sync/sync.gateway.ts:337-378 | Once every instance is gated, no run brings new plaintext into any document |
| `ClusterSafety.EpochsNeverFall` | apps/server/src/sync/sync.gateway.ts:172-181 | No step lowers a copy's epoch |
| `ClusterSafety.EpochsStayBounded` | apps/server/src/sync/sync.gateway.ts:150-161 | No copy, message or announced claim is ever ahead of the database |
| `ClusterSafety.QuietMeansCurrent` | apps/server/src/sync/sync.gateway.ts:150-181 | When everything has been announced and delivered, every copy is at the database's epoch |
| `EpochLoad.LoadedIsNeverBehind` | apps/server/src/sync/sync.gateway.ts:558-568 | A loaded copy is at least at every epoch handled, even one handled between its read and its continuation, and never ahead of the database |
| `EpochLoad.HeardEventsArrive` | apps/server/src/sync/sync.gateway.ts:172-181 | A handled event is in the copy once it is loaded, whenever that is |
| `Gateway.SyncGateway.ClaimCommitted` | apps/server/src/rooms/room-keys.service.ts:171-184 | A claim's commit raises the database's epoch by one and leaves every copy fit |
| `Gateway.SyncGateway.RaiseEpoch` | apps/server/src/sync/sync.gateway.ts:172-181 | Every copy of that room is at least at the epoch, no other is touched, and each joined client is told |
| `Gateway.SyncGateway.GetOrCreateRoom` | apps/server/src/sync/sync.gateway.ts:460-477 | The copy there is, or a blank one that is listed at once |
| `Gateway.SyncGateway.LoadRead` | apps/server/src/sync/sync.gateway.ts:558-571 | The maximum of the copy, the row and the remembered event |
| `Gateway.SyncGateway.Join` | apps/server/src/sync/sync.gateway.ts:225-251 | The joining client has been sent the copy's current nonzero epoch, then the vector and the state |
| `Gateway.SyncGateway.HandleConnection` | apps/server/src/sync/sync.gateway.ts:225-251 | A connection with nothing else happening while its room loads: the client is in the copy, which is at the row's epoch or the event's, and has been sent epoch, vector and state in that order |
| `Gateway.SyncGateway.HandleDisconnect` | apps/server/src/sync/sync.gateway.ts:273-287 | The client leaves the copy, and every copy stays fit |
| `Gateway.SyncGateway.HandleSyncUpdate` | apps/server/src/sync/sync.gateway.ts:337-365 | A refused update changes nothing but its sender's outbox and the memory of it; an accepted one sends what was new in it to the other open clients, to Redis and to the persist timer |
| `Gateway.SyncGateway.HandleMessage` | apps/server/src/sync/sync.gateway.ts:322-378 | Oversized and rate-limited frames close the socket with their code and do nothing else; every other frame's whole effect |
| `Gateway.HandledIsAStep` | apps/server/src/sync/sync.gateway.ts:337-365 | What a handled frame does to the document and to Redis is the step of the run machine |
| `Gateway.SyncGateway.PlaintextIntoE2eeRoom` | apps/server/src/sync/sync.gateway.ts:419-429 | Rejects if and only if the epoch is above 0, the room is not "default" and some struct is neither gone nor all sealed messages, or the bytes do not decode; names the offending ids |
| `Gateway.SyncGateway.OnDocUpdate` | apps/server/src/sync/sync.gateway.ts:486-507 | A change goes to every other client here, and to Redis and the persist timer only if it came from a client |
| `Gateway.SyncGateway.OnRedisUpdate` | apps/server/src/sync/sync.gateway.ts:131-137 | A delivered update is absorbed and fanned out here, and not echoed |
| `Gateway.SyncGateway.IsRateLimited` | apps/server/src/sync/sync.gateway.ts:432-441 | Within 1000 ms of the window's start counts on and limits from the 61st message; else starts a window |
| `Gateway.SyncGateway.AskForResync` | apps/server/src/sync/sync.gateway.ts:386-409 | Asks at once on a new frame; on the k-th repetition schedules the ask min(1000 * 2^(k-1), 30000) ms later, replacing a pending one |
| `Gateway.SyncGateway.OnResyncTimer` | apps/server/src/sync/sync.gateway.ts:393-400 | The scheduled ask goes out once, if the socket is still open, with the vector of that moment |
| `Throttle.AtMostTwiceTheLimit` | apps/server/src/sync/sync.gateway.ts:432-441 | With a non-decreasing clock, any second, ends included, lets at most 120 messages of a client through |
| `Throttle.TwiceTheLimitIsReached` | apps/server/src/sync/sync.gateway.ts:432-441 | From any moment on there is a run of messages in which that second lets 120 through |
| `Throttle.WindowIsBounded` | apps/server/src/sync/sync.gateway.ts:435-440 | A window lets at most 60 through |
| `Throttle.ResendsBackOff` | apps/server/src/sync/sync.gateway.ts:386-409 | However a client that resends only when asked times itself, its n-th refusal, n from 2 on, comes at least min(1000 * 2^(n-2), 30000) ms after the one before, counting from 0, with exactly one ask pending or unanswered |
| `Throttle.DueExactly` | apps/server/src/sync/sync.gateway.ts:386-409 | After any refusals and asks, a frame refused for the first time is asked about at once, and one refused k times before with no other in between exactly min(1000 * 2^(k-1), 30000) ms later |
| `RoomKeys.ClaimsLinearize` | apps/server/src/rooms/room-keys.service.ts:171-184 | Over all interleavings, with every check and the transaction of a claim at a moment of its own, the committed claims of a room are 1, 2, 3, ... with one winner each |
| `RoomKeys.OneWinnerPerEpoch` | apps/server/src/rooms/room-keys.service.ts:175-182 | Of two transactions anywhere in a run that expect the same epoch at most one commits, and one that does not leaves the tables alone |
| `RoomKeys.GrantsStayInRange` | apps/server/src/rooms/room-keys.service.ts:117-184 | Every grant row is for an epoch between 1 and the current one, though uploads and claims make each check and write at a moment of its own |
| `RoomKeys.PendingMeansCannotOpen` | apps/server/src/rooms/room-keys.service.ts:56-81 | Members and grants read at two moments of any run, in either order: a key is listed for a member and an epoch if and only if the tables read show the member, that key and a fingerprint for it, a reached epoch, and no grant sealed to that key; with the same key at both moments that is exactly when the member cannot open the epoch |
| `RoomKeys.StaleKeyIsListed` | apps/server/src/rooms/room-keys.service.ts:56-59 | A key replaced between the two reads is listed although it is no longer published |
| `RoomKeys.StaleGrantStaysPending` | apps/server/src/rooms/room-keys.service.ts:69-78 | A grant sealed to such a key leaves the epoch pending |
| `RoomKeys.ListPending` | apps/server/src/rooms/room-keys.service.ts:61-81 | The nested loops return exactly the pending pairs, each once |
| `RoomKeys.ServingShrinks` | apps/server/src/rooms/room-keys.service.ts:202-216 | Serving a pending pair a current grant removes that pair and adds none |
| `RoomKeys.ServingAll` | apps/server/src/rooms/room-keys.service.ts:202-216 | Serving a whole list, each pair a grant sealed to the listed key, leaves nothing of the room pending, whatever stale rows were there |
| `RoomKeys.CommitServes` | apps/server/src/rooms/room-keys.service.ts:171-184 | A committed transaction raises that room's epoch by one and puts the last item for each row into it, whatever was there; nothing else changes |
| `RoomAuthority.EveryGrantIsAuthorized` | apps/server/src/rooms/room-keys.service.ts:117-134 | In every run each row of the grant table came, as it is, with a request whose sender was a member when it came, an admin if it was a claim, and whose recipients were all members at a later moment |
| `RoomAuthority.EveryEpochIsClaimedByAnAdmin` | apps/server/src/rooms/room-keys.service.ts:154-169 | In every run each committed claim came from somebody who was an admin of the room when it came, with grants for that epoch only |
| `RoomAuthority.UploadGoesThrough` | apps/server/src/rooms/room-keys.service.ts:117-152 | An upload whose checks follow at once gets all its rows on their way exactly when sender and recipients are members and no epoch is above the room's |
| `RoomAuthority.ClaimGoesThrough` | apps/server/src/rooms/room-keys.service.ts:154-184 | A claim whose checks and transaction follow at once commits exactly when the sender is an admin, the recipients are members, all grants are for the claimed epoch and the room is at the expected one |
| `RoomKeys.NewKeyReopensAll` | apps/server/src/users/users.service.ts:36-45 | Replacing a key makes every reached epoch of that member pending, and no one else's |
| `RoomKeys.UsersService.SetPublicKey` | apps/server/src/users/users.service.ts:36-45 | The user's grants are gone and the key is set, no other row changes, or nothing happens for an unknown user |
| `RoomKeys.RoomKeysService.ClaimEpoch` | apps/server/src/rooms/room-keys.service.ts:154-187 | Every refusal in the order of the checks, each on the database as it was then; else the epoch is one higher and, of the items, the last for each row is in it whatever was there, every other row being as before |
| `RoomKeys.RoomKeysService.Authorize` | apps/server/src/rooms/room-keys.service.ts:117-134 | The uploader and every recipient must be members, each when it is asked; the first check that fails decides the error |
| `RoomKeys.RoomKeysService.UploadGrants` | apps/server/src/rooms/room-keys.service.ts:117-152 | The plain path, each check on the database as it was then: every refusal in order; else the last item for each row is in it whatever was there, every other row is as before, and nothing else changes |
| `RoomKeys.RoomKeysService.GetPending` | apps/server/src/rooms/room-keys.service.ts:49-82 | Each query answered at its own moment: not found, forbidden, empty at epoch 0, or the exact list of what was read |
| `RoomRefresh.OneFetchOneTimer` | apps/mobile/src/crypto/roomRefresher.ts:80-120 | At most one refresh per visit runs and at most one retry timer is live, never both for one visit |
| `RoomRefresh.TimersWaitExactly` | apps/mobile/src/crypto/roomRefresher.ts:103-114 | The k-th consecutive failure schedules exactly min(1000 * 2^(k-1), 30000) ms; a success resets it |
| `RoomRefresh.NeverStalls` | apps/mobile/src/crypto/roomRefresher.ts:91-115 | In every run the current visit has a refresh running or a retry timer live, unless its last refresh found the room in a list |
| `RoomRefresh.PendingIsShown` | apps/mobile/src/crypto/roomRefresher.ts:90 | While the current visit's refresh runs, the report is pending, or says encrypted |
| `RoomRefresh.RepliesAreGiven` | apps/mobile/src/crypto/roomRefresher.ts:93-98 | Every outcome other than an HTTP error is a reply that some request was given; without a token there is nothing but an HTTP error |
| `RoomRefresh.StoppedVisitsAreSilent` | apps/mobile/src/crypto/roomRefresher.ts:99-127 | In every run after the stop, re-entries included, the visit is never current again and has no timer and no new outcome, and no later step of its refresh changes the reported state or schedules anything |
| `RoomRefresh.NoDowngrade` | apps/mobile/src/store/rooms.store.ts:146-158 | Once an applied list, an epoch frame or the persisted flag has shown a room as encrypted, it reads so for the rest of the session |
| `RoomRefresh.SummaryMoves` | apps/mobile/src/store/rooms.store.ts:146-187 | The cached epoch is that of the last applied list, raised by frames since; nothing else lowers, sets or forgets it but a join reply for a room that is not there |
| `RoomRefresh.FrameIsReported` | apps/mobile/src/store/rooms.store.ts:146-158 | An epoch frame is reported at once, at no less than its epoch and what was reported before |
| `RoomRefresh.PlaintextIsJustified` | apps/mobile/src/crypto/roomE2eeState.ts:41-48 | Plaintext means this visit's latest outcome was a reply of 0, or no response while the socket was down |
| `RoomRefresh.SticksExactlyWhenShown` | apps/mobile/src/store/rooms.store.ts:146-187 | After any run the room reads as encrypted in every continuation if and only if one of the three has shown it so; otherwise some continuation makes it read as plaintext |
| `RoomRefresh.JoiningDoesNotStick` | apps/mobile/src/store/rooms.store.ts:174-187 | A run in which a room shown as encrypted by a join reply can later read as plaintext |
| `RoomRefresh.OvertakenReplyDoesNotStick` | apps/mobile/src/crypto/roomRefresher.ts:99-117 | Another one: the refresh's own reply shows epoch 3, but a later request's reply was applied before it |
| `RoomRefresh.LatestWins.TryApply` | apps/mobile/src/crypto/roomRefresher.ts:137-151 | Applies exactly what is newer than everything applied |
| `RoomRefresh.RoomWatch.RefreshRoom` | apps/mobile/src/crypto/roomRefresher.ts:80-95 | Deduplicates, clears the timer, reports pending: the step of the run machine |
| `RoomRefresh.RoomWatch.AfterFetch` | apps/mobile/src/crypto/roomRefresher.ts:99-117 | Drops late results, else reports and schedules: the step of the run machine |
| `RoomRefresh.RoomWatch.ApplyList` | apps/mobile/src/store/rooms.store.ts:50-67 | A list is applied only if newer, and remembers what it shows |
| `Backoff.DelaySchedule` | packages/sync-engine/src/WebSocketProvider.ts:239-243 | 1 s doubling to 30 s, the cap reached exactly from the fifth failure on, never decreasing |
| `Persistence.NoChangeIsForgotten` | packages/sync-engine/src/SQLitePersistence.ts:85-100 | In every reachable state after the load, a change no started write covers has its timer running |
| `Persistence.LoadBrings` | packages/sync-engine/src/SQLitePersistence.ts:102-132 | A load that nothing disturbs brings what is stored; if nothing is and the key has an account in it, the older key's document if the policy adopts it, then stored under the key; and the older key is gone, adopted or not |
| `Persistence.TimerRunsExactlyWhen` | packages/sync-engine/src/SQLitePersistence.ts:85-91 | In every run the timer is running if and only if a change came after the load and before the object was told to stop, and the timer has not fired since |
| `Persistence.BurstIsWrittenOnce` | packages/sync-engine/src/SQLitePersistence.ts:87-100 | When it fires, exactly one write is started, of the document as it is then; otherwise nothing is |
| `Persistence.DestroySaves` | packages/sync-engine/src/SQLitePersistence.ts:160-173 | For an app that changes the document only once it is loaded: once destroy() has resolved, before or after the load is done, and the last write did not fail, storage has lost nothing, and holds the document itself if it was loaded |
| `Persistence.DestroySavesExactlyWhen` | packages/sync-engine/src/SQLitePersistence.ts:102-113 | For any app: destroyed after the load, nothing is lost if and only if something was written or what was put into the document early was in storage anyway; destroyed before, if and only if all of it was under the key when the app started, or in the older key's document that the load adopted |
| `Persistence.EarlyChangeIsLost` | packages/sync-engine/src/SQLitePersistence.ts:110-112 | A run in which a message sent during the load is not saved by a destroy() after it |
| `Persistence.UnloadedChangeIsLost` | packages/sync-engine/src/SQLitePersistence.ts:160-173 | Nor by a destroy() during the load |
| `Persistence.DiscardIsFinalExactlyWhen` | packages/sync-engine/src/SQLitePersistence.ts:115-147 | A document can be under the key after discard() has resolved if and only if an unfinished load could still adopt the older key |
| `Persistence.DiscardIsFinal` | packages/sync-engine/src/SQLitePersistence.ts:138-147 | Called after the load, discard() leaves the key absent for ever |
| `LocalPersistence.SQLitePersistence.DocUpdate` | packages/sync-engine/src/SQLitePersistence.ts:85-91 | The debounce handler takes its step |
| `LocalPersistence.SQLitePersistence.OnSettled` | packages/sync-engine/src/SQLitePersistence.ts:102-132 | Load, migration and writes go on as the run machine says when an operation settles |
| `LocalPersistence.SQLitePersistence.Destroy` | packages/sync-engine/src/SQLitePersistence.ts:160-173 | Unsubscribes, flushes, and awaits the last write |
| `LocalPersistence.SQLitePersistence.Discard` | packages/sync-engine/src/SQLitePersistence.ts:138-147 | Unsubscribes, stops the timer, and awaits the last write |
| `Rebuild.DiscardConserves` | apps/mobile/src/hooks/useSync.ts:196-212 | After the rebuild and its first step2, whatever was typed and received before it, everything the server held is in the document, as it was or deleted; and unless that makes it hold a null, of the own encrypted messages of the discarded document exactly those are there that the server sent or whose id it did not |
| `Rebuild.StepTwoBringsServer` | apps/server/src/sync/sync.gateway.ts:247-251 | Absorbing the answer to a vector that covers nothing unknown brings all of the server's document, into any document whose client id is its own |
| `Rebuild.DiscardLosesNothing` | apps/mobile/src/hooks/useSync.ts:196-212 | So with unique ids all of them are there |
| `Rebuild.DiscardsExactlyUnlessThrown` | apps/mobile/src/hooks/useSync.ts:198-205 | A rejection leads to an empty document, ready to be rebuilt, if and only if the filter did not throw on some element; if it threw, every cell stays |
| `Rebuild.ThrowsExactlyWhen` | apps/mobile/src/hooks/useSync.ts:198-200 | The filter throws if and only if the array holds a null or an own message whose content is no string |
| `Rebuild.ReinsertConserves` | packages/sync-engine/src/SyncEngine.ts:82-87 | Nothing that was there changes, and the messages that come back are exactly those whose id was absent, if and only if the document holds no null or lacks none of them |
| `Rebuild.OnceEachExactlyWhen` | packages/sync-engine/src/SyncEngine.ts:82-87 | Without a null, each id is there once if and only if it was so in the resynced document and among the messages put back |
| `Rebuild.SecondRejectionDuplicates` | apps/mobile/src/hooks/useSync.ts:198-201 | Two rejections before the rebuild bring a message the server lacks back twice |
| `Rebuild.StashCanBeSpentEarly` | apps/mobile/src/hooks/useSync.ts:207-212 | Had the refused provider not been synced, its own first step2 could lose every stashed message |
| `Rebuild.SyncedExactlyWhen` | packages/sync-engine/src/WebSocketProvider.ts:183-187 | A provider counts as synced exactly from the first step2 applied since it was made, so only that one can spend the stash |
| `Rebuild.KeptIsExact` | apps/mobile/src/hooks/useSync.ts:198-200 | The stash is exactly the user's own messages that carry the envelope prefix |
| `Rebuild.RoomSync.OnUnrecoverableRejection` | apps/mobile/src/hooks/useSync.ts:196-206 | Stashes what is ours and starts to discard, or throws on an element before it does either |
| `Rebuild.RoomSync.RunEffectAgain` | apps/mobile/src/hooks/useSync.ts:203-205 | Once discard() has resolved: a new engine with a client id of its own, an unsynced provider, and the stash as it was |
| `Rebuild.RoomSync.OnServer` | apps/mobile/src/hooks/useSync.ts:207-212 | The first step2 deletes the stash and puts it back |
| `RawSocket.ChunksDoNotMatter` | apps/server/bench/raw-ws-socket.ts:82-113 | However the bytes are cut, the handshake included, and whatever happens in between, the frames handled and the bytes left over are those of parsing everything at once |
| `RawSocket.SameBytesSameFrames` | apps/server/bench/raw-ws-socket.ts:164-209 | Two runs over the same bytes end in the same link, frames and leftover |
| `RawSocket.EveryPayloadArrives` | apps/server/bench/raw-ws-socket.ts:130-152 | A consumer that attaches with an onMessage gets every payload in order, however late it attaches |
| `RawSocket.PayloadsArriveInOrder` | apps/server/bench/raw-ws-socket.ts:130-152 | In general: all payloads in order but those that came before a late onMessage |
| `RawSocket.CloseIsReportedOnce` | apps/server/bench/raw-ws-socket.ts:233-238 | At most one close is reported, and none before the socket is closed |
| `RawSocket.WireIsReadable` | apps/server/bench/raw-ws-socket.ts:241-264 | What any run has written parses to exactly the frames sent |
| `RawSocket.NothingAfterClose` | apps/server/bench/raw-ws-socket.ts:242 | A closed socket writes nothing |
| `RawSocket.CloseFrameTells` | apps/server/bench/raw-ws-socket.ts:217-220 | The frame close() writes tells the peer that code and reason |
| `RawSocket.HeaderEndExactly` | apps/server/bench/raw-ws-socket.ts:83-88 | The handshake's header ends at the first CR LF CR LF |
| `RawSocketRuns.SentExactly` | apps/server/bench/raw-ws-socket.ts:211-278 | In every run the frames sent are exactly those due until the first close: a pong for each ping, with its payload, the data the consumer sends, and its close |
| `RawSocketRuns.FirstCloseIsReported` | apps/server/bench/raw-ws-socket.ts:233-238 | Of a close frame, close() and the end of the connection the one that comes first is the one reported, with its code, 1005 or 1006, and reason |
| `RawSocketRuns.CloseIsHeard` | apps/server/bench/raw-ws-socket.ts:130-157 | A consumer that attaches with an onClose, however late, hears of it |
| `RawSocketRuns.ErrorsAreHeard` | apps/server/bench/raw-ws-socket.ts:142-162 | A consumer that attaches with an onError hears of the last error before that and of each one since, in order |
| `Frames.FrameRoundTrip` | apps/server/bench/raw-ws-socket.ts:241-264 | For every opcode, key and payload in all three length encodings, parsing what was written gives it back and takes exactly its bytes |
| `Frames.StreamRoundTrip` | apps/server/bench/raw-ws-socket.ts:241-264 | A stream of written frames parses to exactly those frames |
| `Frames.ParseInParts` | apps/server/bench/raw-ws-socket.ts:170-209 | Parsing what has come and then the rest is parsing it all at once |
| `Frames.FirstFrameIsStable` | apps/server/bench/raw-ws-socket.ts:172-197 | More bytes never change a complete frame |
| `Frames.RestWaits` | apps/server/bench/raw-ws-socket.ts:172-197 | What is left over holds no complete frame |
| `Frames.FirstFrameExactly` | apps/server/bench/raw-ws-socket.ts:170-209 | The wire format of section 5.2 of RFC 6455 written out: a frame is read off the front of the buffer, with that size, if and only if the buffer begins with one, masked or not, in any of the three length forms |
| `Frames.ParseExactly` | apps/server/bench/raw-ws-socket.ts:170-209 | Parsing gives these frames and this rest if and only if the buffer is frames of that format, one behind the other, carrying them, and a rest that begins with none |
| `Frames.AppendedIsParsed` | apps/server/bench/raw-ws-socket.ts:170-209 | A frame in that format from any peer, masked or not, behind a stream of whole frames is parsed as that frame |
| `Frames.WrittenExactly` | apps/server/bench/raw-ws-socket.ts:241-264 | What is written is that format: final, masked with the key, the length in as few bytes as it needs |
| `Frames.MaskingIsAnInvolution` | apps/server/bench/raw-ws-socket.ts:261 | Masking twice gives the payload back |
| `Frames.NumberRoundTrip` | apps/server/bench/raw-ws-socket.ts:252-256 | A big-endian number that fits reads back |
| `RawWsClient.Xor` | apps/server/bench/raw-ws-socket.ts:201-202 | The masking loop masks |
| `RawWsClient.RawWsSocket.ProcessBuffer` | apps/server/bench/raw-ws-socket.ts:170-209 | The parse loop ends, having handled exactly the frames that the buffer was made of and kept the rest |
| `RawWsClient.RawWsSocket.TakeHeader` | apps/server/bench/raw-ws-socket.ts:172-195 | The header branches read exactly the header, in all three length forms, masked or not |
| `RawWsClient.RawWsSocket.WriteFrame` | apps/server/bench/raw-ws-socket.ts:241-264 | Writes the encoding of the frame, or nothing once closed |
| `RawWsClient.RawWsSocket.On` | apps/server/bench/raw-ws-socket.ts:130-147 | Adds the handlers and flushes the queued messages, then the close, then the error |
| `Base64.RoundTrip` | apps/mobile/src/polyfills/base64.ts:11-44 | Decoding undoes encoding for every string of codes 0 to 255 |
| `Base64.SymbolExactly` | apps/mobile/src/polyfills/base64.ts:6 | The alphabet is the standard one |
| `Base64.PartsExactly` | apps/mobile/src/polyfills/base64.ts:20-24 | The four places are the bits of the three codes, the highest first |
| `Base64.OutputLength` | apps/mobile/src/polyfills/base64.ts:11-27 | The output has 4 * ceil(n / 3) characters |
| `Base64.PolyBtoa` | apps/mobile/src/polyfills/base64.ts:11-27 | The loop encodes, or throws exactly when some code exceeds 0xff |
| `Base64.PolyAtob` | apps/mobile/src/polyfills/base64.ts:30-44 | The loop decodes what is left of any input after dropping foreign characters |
| `Base64.BuildLookup` | apps/mobile/src/polyfills/base64.ts:7-8 | The table inverts the alphabet and holds nothing else |
| `Base64.BytesRoundTrip` | packages/sync-engine/src/SQLitePersistence.ts:45-61 | Every byte array comes back from the stored text |
| `Base64.Uint8ToBase64` | packages/sync-engine/src/SQLitePersistence.ts:45-52 | The byte loop and the encoder together |
| `Base64.Base64ToUint8` | packages/sync-engine/src/SQLitePersistence.ts:54-61 | The decoder and the byte loop together |
| `Composer.HonestMessagesPass` | apps/server/src/sync/e2ee-update-gate.ts:16-22 | Every text of 1 to 4000 UTF-16 units, sealed under any held epoch, passes the gate, shows that epoch, and opens as the text |
| `Composer.SendsSealedExactlyWhen` | packages/sync-engine/src/SyncEngine.ts:22-50 | A message is sent exactly when it is not blank, not too long and the cipher is ready, and then sealed under the highest epoch held, never in the clear |
| `Composer.CiphertextSize` | apps/server/src/sync/e2ee-update-gate.ts:19-22 | Its ciphertext has 23 to 16022 base64url characters, never 1 more than a multiple of 4 |
| `Composer.EncryptsExactlyWhen` | apps/mobile/src/crypto/LibsodiumContentCipher.ts:49-69 | encrypt() works if and only if a key is held and the highest held epoch is the expected one |
| `Composer.DecryptUndoesEncrypt` | apps/mobile/src/crypto/LibsodiumContentCipher.ts:70-108 | Every holder of that epoch's key reads the text, whatever else it holds |
| `Composer.DecryptsExactly` | apps/mobile/src/crypto/LibsodiumContentCipher.ts:88-108 | decrypt() gives a text if and only if the content is that plaintext, without the prefix, or an envelope of an epoch whose key is held that opens with it under these fields as UTF-8 of that text; else it throws |
| `Composer.PlaintextReadsAsItself` | apps/mobile/src/crypto/LibsodiumContentCipher.ts:88-92 | Content without the prefix reads as itself, whatever keys are held |
| `Composer.DecryptedWasEncrypted` | apps/mobile/src/crypto/LibsodiumContentCipher.ts:88-108 | Where opening it would be no forgery, a sealed content that decrypts was encrypted under the key of its epoch for exactly this id, room, author, name and time, and as the text that comes out |
| `Composer.MovedContentDoesNotOpen` | apps/mobile/src/crypto/LibsodiumContentCipher.ts:99-106 | Under another id, room, author, name or time the content does not open, unless its key and nonce were used for that message too or it is a forgery |
| `Composer.AuthenticityIsPossible` | apps/mobile/src/crypto/LibsodiumContentCipher.ts:77-106 | What these theorems ask of the AEAD can be had, for every list of sealed messages and every message they might be moved to |
| `Composer.AdIsUnambiguous` | apps/mobile/src/crypto/LibsodiumContentCipher.ts:111-119 | Messages with different fields never share their additional data |
| `Composer.TrimIsExact` | packages/sync-engine/src/SyncEngine.ts:23 | trim() removes nothing but white space and leaves neither end white |
| `Composer.LibsodiumContentCipher.SetKey` | apps/mobile/src/crypto/LibsodiumContentCipher.ts:33-38 | The highest epoch ever set stays current |
| `Composer.LibsodiumContentCipher.Encrypt` | apps/mobile/src/crypto/LibsodiumContentCipher.ts:49-86 | Every refusal, or the envelope under the highest epoch |
| `Composer.LibsodiumContentCipher.Decrypt` | apps/mobile/src/crypto/LibsodiumContentCipher.ts:88-108 | Plaintext as it is, every failure, or the opened text |
| `Composer.SendMessage` | packages/sync-engine/src/SyncEngine.ts:22-50 | Pushes exactly the composed message, or throws and pushes nothing |
| `Encodings.UrlRoundTrip` | apps/server/src/sync/e2ee-update-gate.ts:14-16 | n bytes take ceil(4 n / 3) characters of the base64url alphabet and read back |
| `Encodings.GroupIsNumber` | apps/server/src/sync/e2ee-update-gate.ts:14-16 | A group of characters and its bytes are the same number, highest digit first |
| `Encodings.UrlSymbolExactly` | apps/server/src/sync/e2ee-update-gate.ts:14-16 | The alphabet is that of base64url |
| `Encodings.Utf8RoundTrip` | apps/mobile/src/crypto/LibsodiumContentCipher.ts:77-107 | Every text comes back from UTF-8 |
| `Encodings.Utf8CharExactly` | apps/mobile/src/crypto/LibsodiumContentCipher.ts:77-107 | The bytes of a character are those of section 3 of RFC 3629 |
| `Encodings.Utf8Adds` | apps/mobile/src/crypto/LibsodiumContentCipher.ts:77-107 | The bytes of a text are those of its characters, in order |
| `Encodings.Utf8Length` | packages/shared/src/types.ts:24-32 | A text of n UTF-16 units takes at most 3 n bytes |

## Left out

* Yjs, y-protocols and lib0 internals: array ordering, struct and varint encoding, pending structs that are integrated later. Updates with causal gaps between instances are outside the convergence claim; `Replica.AbsorbCommutes` asks for complete updates.
* Room garbage collection and server-side persistence: the 30 s timers act on maps by room name, so "one live copy per room" is not an invariant. Rooms stay loaded here; that a persist timer is set is modelled, what it writes is not.
* Redis loss, and instances that load a room in the middle of traffic: divergence accepted by design.
* Awareness and heartbeat; authentication, membership checks, HTTP and metrics in front of the modelled handlers.
* Failing sends: a frame sent to a client is in its outbox, whether or not the socket still delivers it.
* Restoring drafts after a rejection, and everything the screens show.
* SQLitePersistence: one load per object, as the app calls it; a second load() racing the first is not modelled. removeItem is taken to exist. JSON and base64 of the stored document are `Base64`, its Yjs encoding is not modelled.
* Gateway.SyncGateway.HandleConnection: nothing happens between its awaits; the pieces that can be interleaved are GetOrCreateRoom, LoadRead, LoadUpserted and Join, each of which keeps Valid. A load that fails is not modelled.
* Rebuild: an id of the app's own client in what the server sends is an echo, for no two documents share a client id (`Rebuild.Genuine`); the new persistence finds the key absent (`Persistence.DiscardIsFinal`) and no older key; ids of the user's own messages are strings.
* RoomRefresh: one room; several rooms have independent entries and share only the request order, which is modelled. The promise that refresh() returns is not.
* ExchangeRuns.RefusalsAreBounded: one room copy that is gated throughout and one client that types no new plaintext; no null elements, and message ids that are unique across users. `Repair` covers both of the latter when nothing else is in flight. That frames in flight are eventually handled is not modelled.
* RoomKeys.RoomKeysService.UploadGrants: its rows are written one after another in the order of the request, without interruption; that each row is written at a moment of its own is in the runs of `RoomKeys`.
* RawSocket: URL parsing and the request header of connect(); a number of 2^53 or more in a length field is kept exact (such a frame never completes either way); the close reason stays bytes instead of decoded UTF-8; handlers do not call back into the socket while it is delivering.
* Lone surrogates in JSON escapes and in message text, which cannot be Unicode scalar values; JSON numbers are exact reals instead of doubles.
* Composer: libsodium itself. "Composer ready implies encrypt succeeds" does not hold when the cipher holds a newer epoch than the cached summary; `Composer.EncryptsExactlyWhen` says when it does.
