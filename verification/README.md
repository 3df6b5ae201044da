# chat: a model of the message pipeline

This project models the two scaled-out designs of the chat repository and
proves what they promise about order, loss, duplication and presence.

**proper-scale** accepts a message in a PostgreSQL transaction that also fills
an outbox; a relay publishes the outbox to Kafka; a delivery service sends each
record to the Redis channel of every instance that presence lists; each
instance hands it to the sockets of the room.

- `Contract.dfy`, `MessageId.dfy`: the shared frames and events with their
  checks, and the message identifiers.
- `AcceptProtocol.dfy`: any number of concurrent `Store.Accept` sessions as a
  step machine over the committed tables. `Store.dfy` is the code itself,
  statement by statement, with the other sessions running in between.
  `Socket.dfy` is `handleMessage` on top of it. `Provenance.dfy` traces every
  committed row back to the request it came from.
- `RelayProtocol.dfy`, `SoloRelay.dfy`: any number of relays, and one alone.
  `Relay.dfy` is the code; `RelayProgress.dfy` shows that failing rooms do not
  starve the others.
- `DeliveryProtocol.dfy`, `Delivery.dfy`: consumer claims, and the code.
- `HubModel.dfy`, `WsHub.dfy`, `HubConsumer.dfy`, `FanoutProtocol.dfy`: the
  in-memory hub as a map, as objects, its receive loop, and all instances as a
  step machine.
- `Pipeline.dfy`: all of these interleaved as one machine. Its theorems hold in
  every state of every run. `EndToEnd.dfy` shows that every valid request can
  travel all the way.
- `Presence.dfy`, `PresenceProtocol.dfy`, `PresenceService.dfy`: the presence
  service, its RPCs in any interleaving, and the code. `PresenceOrphans.dfy`
  says when its two indexes are one relation, `Keepalive.dfy` that a ping
  schedule keeps a connection listed, `PresenceExpiry.dfy` what a late ping
  costs.
- `Migrations.dfy`, `MigrationProtocol.dfy`, `Migrator.dfy`: the directory scan
  and its order, concurrent migration runs, and the code.

**naive-scale** drains one outbox from every instance and fans out over Redis
pub/sub.

- `NaiveOutbox.dfy`, `NaiveRelay.dfy`: the relays' transactions as a step
  machine, and the code.
- `NaiveHub.dfy`, `NaiveHubRun.dfy`: the hubs of all instances, and the event
  loop of one.

Each step machine has a `Step` datatype, `Enabled` and `Apply`, invariants that
its steps keep, and `Legal` and `After` for runs. The classes
`Store`, `Relay`, `Consumer`, `Migrator` and `NaiveRelay.Relay` carry a ghost
trace: what they do is a run of their machine, so the theorems about runs are
theorems about them. `Hub` of `NaiveHubRun.dfy` and `ConnectionService` have no
trace; their methods are proved equal to the functions the machines' steps are
made of, and `Hub` of `WsHub.dfy` to the map it stands for. What the code does
not decide (answers, failures, clocks, other processes) comes in through an
`Outside` record of functions over which the contracts quantify.

## Assumptions about the surroundings

- PostgreSQL runs at READ COMMITTED. Row locks, unique-index entries and the
  advisory lock are held to the end of the transaction. A commit may take effect
  although the client is told otherwise.
- A Redis EXEC may take effect although its reply is lost.
- A Kafka publish may append without being acknowledged, but is not acknowledged
  without appending. The partition is a function of the record key.
- Redis MULTI/EXEC is one step; channels are FIFO; an EXEC with an SADD without
  members is refused as a whole.
- Message identifiers are canonical texts; that they are fresh is checked
  against the tables, not assumed. Timestamps are integers, 0 being Go's zero
  time, and a timestamptz column keeps microseconds.

## Where the code and its words differ

- naive-scale's README speaks of exactly-once dispatch; the code gives
  at-least-once, and `NaiveOutbox.HandoffBounds` says precisely when that is
  once.
- Ping carries on after a failed SMEMBERS and then prolongs the client set
  without its rooms' fields (`Presence.PingMirrors`).
- Connect replaces the client set but deletes no fields, so a room it drops goes
  on listing the connection, past a Disconnect too
  (`PresenceOrphans.ConnectCovers`, `PresenceOrphans.ReconnectLeavesOrphan`).
- The socket's Disconnect request names no instance
  (`Keepalive.SocketDisconnectMissesKey`), and a hub's Unregister takes a client
  out by name, its newest connection included (`HubModel.OldConnectionEvictsNew`).
- The ping period leaves 6 s of slack below the presence deadline, while the
  socket write before the ping may take 10 s. A connection that once misses its
  deadline is not listed again by any ping, though its pings succeed and its
  socket stays open (`PresenceExpiry.SlowWriteForGood`,
  `PresenceExpiry.OverdueForGood`).
- A version may be written with a plus sign, so equal width alone does not make
  name order numeric (`Migrations.NameOrder`).
- A retry is answered with the time kept by the database, which can differ from
  the published event below a microsecond (`AcceptProtocol.ReadBackEcho`).

## Model

| member | source | states |
|---|---|---|
| `Pipeline.OrderedPipeline` | proper-scale/services/outbox_relay/internal/postgres/repository.go:45-90 | In every state of every run of sessions, relays, claims and hubs, with failed and ambiguous publishes, failed marks and restarts: each room's published rows are exactly 1..p and stand in the topic with the committed event, no record enters a partition before its room's previous number has, and none is handled before it |
| `Pipeline.SingleRelayClimbs` | proper-scale/services/outbox_relay/internal/relay/relay.go:81-136 | With a single relay, restarted at will, in every partition the first record of a room is number 1 and from one record of the room to its next the number stays or rises by one, whatever created_at values the rows carry |
| `Pipeline.NoCreation` | proper-scale/services/message_service/app/transport/ws/hub.go:63-88 | Every event ever placed in a connection's queue is a committed message, equal to its history row and its outbox row, of a room that connection registered for |
| `Pipeline.QueueGrowsByMembership` | proper-scale/services/message_service/app/transport/ws/hub.go:63-88 | A step that lengthens a queue is a receive step, adds one committed message, and the connection is a member of its room in that instance's hub at that moment |
| `Pipeline.DispatchReaches` | proper-scale/services/message_service/app/transport/ws/hub.go:63-88 | And the converse, in every state of every run: what stands at an instance's cursor is a committed message; a receive step for any members of its room there, up to all, can be taken; then exactly the queues of the served connections grow, each by exactly that message |
| `Pipeline.FromSenderToSocket` | proper-scale/services/message_service/infra/postgres/store.go:96-143 | Every event in any queue carries room, client message id and payload of a request some session of the run began with, and the identifier and time of its insert |
| `EndToEnd.MessageArrives` | proper-scale/services/message_service/infra/redis/consumer.go:72-99 | From the empty system, for every valid request, instance, reader, partitioner and limits of at least one: a run exists in which the request is accepted, published, handled and received, the reader's queue holds exactly the event sent, and the offset is committed |
| `Provenance.RowsComeFromRequests` | proper-scale/services/message_service/infra/postgres/store.go:105-143 | In every state of every run, the rows of each committed slot are those of one request: its client, client message id, room and payload, in both tables |
| `Provenance.StepTraced` | proper-scale/services/message_service/infra/postgres/store.go:85-148 | Each step keeps every session, every uncommitted row and every committed row traced to its request and insert |
| `Pipeline.DeliveredBelowCommitted` | proper-scale/services/delivery_service/infra/kafka/handler.go:29-50 | Every offset below a partition's committed offset was handled successfully at least once, its record sent to every instance presence listed then |
| `Pipeline.NoBlockedRoom` | proper-scale/services/outbox_relay/internal/relay/relay.go:138-150 | Every outbox row any run commits passes validateEntry and the delivery service's checks, and its identifier survives the trip through the uuid column |
| `Pipeline.StepInv` | proper-scale/services/outbox_relay/internal/relay/relay.go:81-136 | Each step of each component keeps the joint invariant of tables, topic, relays, claims, channels, hubs and queues |
| `Pipeline.RunInv` | proper-scale/services/outbox_relay/internal/relay/relay.go:62-110 | The joint invariant holds after every legal run |
| `AcceptProtocol.StepInv` | proper-scale/services/message_service/infra/postgres/store.go:52-149 | Every statement, failure, crash or ambiguous commit of every concurrent Accept keeps: dense room numbers, matching rows, unique keys and identifiers, held locks exclusive, acknowledged rows committed |
| `AcceptProtocol.GapFree` | proper-scale/services/message_service/infra/postgres/store.go:85-148 | After any run, rollbacks after a number was taken included, a room's committed numbers are exactly 1..last_seq in both tables, and the two rows of a number carry the same message |
| `AcceptProtocol.VisibleInOrder` | proper-scale/services/message_service/infra/postgres/store.go:133-148 | Whatever a step makes visible is the next number of one room, in messages and outbox at once, and committed rows never change |
| `AcceptProtocol.RunGrows` | proper-scale/services/message_service/infra/postgres/store.go:118-148 | Over any run the committed rows only grow |
| `AcceptProtocol.OneRowPerKey` | proper-scale/services/message_service/infra/postgres/store.go:60-131 | Over any run of retries, races, lost replies and ambiguous commits a client key has at most one row, and every accepted frame enqueued for it repeats that committed row |
| `AcceptProtocol.ReadBackEcho` | proper-scale/services/message_service/infra/postgres/store.go:151-165 | A retry's event equals the published one exactly when the server clock gave whole microseconds, and otherwise differs in created_at only |
| `AcceptProtocol.NoWaitCycle` | proper-scale/services/message_service/infra/postgres/store.go:85-131 | No chain of sessions waiting for each other's locks closes, and none has more than three members |
| `AcceptProtocol.MovesUnlessWaiting` | proper-scale/services/message_service/infra/postgres/store.go:85-143 | A session that waits for nobody can take its next step: the other unique constraints never stop it |
| `AcceptProtocol.SomeSessionMoves` | proper-scale/services/message_service/infra/postgres/store.go:85-148 | While sessions are in flight, one of them can move |
| `AcceptProtocol.NeverDeadlocked` | proper-scale/services/message_service/infra/postgres/store.go:52-149 | Both of these in every state of every run from the empty database |
| `Store.Store.Accept` | proper-scale/services/message_service/infra/postgres/store.go:52-149 | Whatever the others do between statements: an event is returned only with its row committed; a key already taken gets its first row again; an invalid request changes nothing. Undisturbed, a taken key changes nothing and reads its row back; a fresh key yields the event, the message row and the outbox row with the request's own fields and payload under the next room number, and nothing else |
| `Store.Store.Run` | proper-scale/services/message_service/infra/postgres/store.go:52-83 | The first lookup and the refusal of blank clients and invalid requests, as protocol steps |
| `Store.Store.Transaction` | proper-scale/services/message_service/infra/postgres/store.go:68-148 | From BEGIN to COMMIT or ROLLBACK as protocol steps; undisturbed it leaves exactly the expected rows |
| `Store.Store.Statement` | proper-scale/services/message_service/infra/postgres/store.go:60-66 | One round trip: other sessions run, then the statement is answered or the session has failed with nothing else changed |
| `Store.Store.FindEvent` | proper-scale/services/message_service/infra/postgres/store.go:151-165 | Finds the row of the client key exactly if there is one, and reads its event back |
| `Store.Store.WriteMessage` | proper-scale/services/message_service/infra/postgres/store.go:85-148 | The writing half of the transaction, from the counter to the commit |
| `Store.Store.AllocateNumber` | proper-scale/services/message_service/infra/postgres/store.go:85-94 | Waits for the counter row, then holds the number after the last committed one |
| `Store.Store.InsertMessage` | proper-scale/services/message_service/infra/postgres/store.go:96-131 | On success the row is the event of the request: version 1, the new identifier, its client message id, room and payload, the number taken, the clock; otherwise the idempotency conflict or a failure |
| `Store.Store.AwaitRow` | proper-scale/services/message_service/infra/postgres/store.go:118-122 | Waiting for another transaction's index entries keeps the number taken |
| `Store.Store.WriteRow` | proper-scale/services/message_service/infra/postgres/store.go:118-131 | The three answers of the insert, each with the whole new state |
| `Store.Store.AfterConflict` | proper-scale/services/message_service/infra/postgres/store.go:122-130 | After the lost race the winner's committed row is returned if and only if the lookup does not fail |
| `Store.Store.WriteOutbox` | proper-scale/services/message_service/infra/postgres/store.go:133-143 | The outbox insert never meets a constraint |
| `Store.Store.CommitTx` | proper-scale/services/message_service/infra/postgres/store.go:145-148 | The tables after the commit; success is reported only for committed rows |
| `Store.NextIsFree` | proper-scale/services/message_service/infra/postgres/store.go:85-116 | The number a session has taken is free in messages, and the event it builds is valid for any canonical identifier and set clock |
| `Store.OthersKeepMine` | proper-scale/services/message_service/infra/postgres/store.go:68-149 | Runs of other sessions leave a session's own state alone |
| `Socket.Socket.HandleMessage` | proper-scale/services/message_service/app/transport/ws/ws.go:205-233 | Each frame read is answered by exactly one frame while the connection lasts. What is not a version-1 send frame with both identifiers and a JSON payload is answered rejected, invalid_request, with the store untouched; an accepted frame repeats the committed row of the client's own key. Undisturbed the answer is exact: accepted under the next number for a fresh key, the row's own fields for a taken one, not_accepted for a blank client |
| `Socket.Socket.Submit` | proper-scale/services/message_service/app/transport/ws/ws.go:214-232 | The part that goes through the store, with the same answers |
| `Socket.EchoPasses` | proper-scale/services/message_service/app/transport/ws/ws.go:219-231 | A row read back is acknowledged if and only if the time kept for it is not the zero time |
| `Socket.Socket.EnqueueRejected` | proper-scale/services/message_service/app/transport/ws/ws.go:235-246 | A rejection is queued exactly if its error code is not blank |
| `Socket.Socket.Put` | proper-scale/services/message_service/app/transport/ws/ws.go:248-259 | A frame is appended, or the connection ended first |
| `Contract.TrimSpaceEmpty` | proper-scale/contracts/messages/contract.go:38-43 | Trimming leaves nothing exactly when the text is white space only, the form in which all the checks are stated |
| `Contract.TrimSpaceCuts` | proper-scale/contracts/messages/contract.go:38 | Trimming cuts off white space only, and what is left neither starts nor ends with any |
| `Contract.SendPasses` | proper-scale/contracts/messages/contract.go:31-48 | A request passes exactly when it is a version-1 send frame with both identifiers and a JSON payload |
| `Contract.EventPasses` | proper-scale/contracts/messages/contract.go:60-83 | An event passes exactly when version, identifiers, number, time and payload are in order |
| `Contract.RejectedPasses` | proper-scale/contracts/messages/contract.go:102-113 | A rejection passes exactly when type, version and a non-blank code are there |
| `Contract.AcceptedPasses` | proper-scale/contracts/messages/contract.go:115-138 | An acceptance passes exactly when type, version, identifiers, number and time are in order |
| `MessageId.NewMessageId` | proper-scale/services/message_service/infra/postgres/store.go:172-180 | For all sixteen random bytes: canonical lower-case 8-4-4-4-12 text with version digit 4 and variant 10 (section 5.4 of RFC 9562), parsing back to the stamped bytes; the other 122 bits are kept |
| `MessageId.ParseFormat` | proper-scale/services/message_service/infra/postgres/store.go:172-194 | Parsing the text of any sixteen bytes returns them, and the text is canonical |
| `MessageId.FormatParse` | proper-scale/services/message_service/infra/postgres/store.go:182-194 | What the parser accepts prints back unchanged exactly when it is canonical |
| `MessageId.CanonicalDecodes` | proper-scale/services/message_service/infra/postgres/store.go:182-194 | Every canonical text parses |
| `MessageId.FormatInjective` | proper-scale/services/message_service/infra/postgres/store.go:172-180 | Different identifiers have different texts |
| `MessageId.StampedText` | proper-scale/services/message_service/infra/postgres/store.go:177-179 | Where the version and variant bits show in the text |
| `MessageId.FormatShows` | proper-scale/services/message_service/infra/postgres/store.go:179 | Each byte shows as its two hex digits, in order, after the dashes before it |
| `MessageId.EncodeDecode` | proper-scale/services/message_service/infra/postgres/store.go:182-189 | Hex text that decodes encodes back to itself when lower-case |
| `RelayProtocol.StepInv` | proper-scale/services/outbox_relay/internal/relay/relay.go:81-136 | Any number of relays: fetch, publish, skip, mark and crash keep every published number preceded by all earlier ones and every record preceded by its predecessor's |
| `RelayProtocol.PublishedIsPrefix` | proper-scale/services/outbox_relay/internal/postgres/repository.go:45-90 | A room's published rows are exactly the numbers up to the highest published one |
| `RelayProtocol.HeadPreceded` | proper-scale/services/outbox_relay/internal/postgres/repository.go:46-58 | A row without an earlier pending row of its room has all earlier numbers published |
| `RelayProtocol.MarkOne` | proper-scale/services/outbox_relay/internal/postgres/repository.go:78-90 | The update by message_id marks the entry's own row and no other |
| `RelayProtocol.EntryPasses` | proper-scale/services/outbox_relay/internal/relay/relay.go:138-150 | An entry passes exactly when its value is a valid event with the row's identifier, room and number |
| `RelayProtocol.PublishExact` | proper-scale/services/outbox_relay/internal/kafka/producer.go:44-58 | An appended attempt puts the event under its room's key at the end of that room's partition, acknowledged or not, and changes nothing else of the topic |
| `RelayProtocol.TablesGiveOutbox` | proper-scale/services/message_service/infra/postgres/store.go:133-143 | Committed tables meet what the relay relies on |
| `SoloRelay.StepSolo` | proper-scale/services/outbox_relay/internal/relay/relay.go:81-136 | Every step of a lone relay keeps the top of each room's log at its highest published number or the one after |
| `SoloRelay.HeadsInDistinctRooms` | proper-scale/services/outbox_relay/internal/postgres/repository.go:46-58 | A batch holds at most one row per room |
| `SoloRelay.ClimbsInLog` | proper-scale/services/outbox_relay/internal/relay/relay.go:81-136 | Climbing room numbers mean just that of neighbouring records in the log itself |
| `Relay.Relay.NextPending` | proper-scale/services/outbox_relay/internal/postgres/repository.go:45-76 | Returns the heads of the pending rooms with the earliest created_at, in that order, up to the limit |
| `Relay.Relay.SelectHeads` | proper-scale/services/outbox_relay/internal/postgres/repository.go:46-58 | The selection behind it, by repeated minimum |
| `Relay.Relay.PublishWithRetry` | proper-scale/services/outbox_relay/internal/relay/relay.go:112-136 | Succeeds if and only if some attempt below the limit is acknowledged with no cancelled wait before it; marks nothing itself |
| `Relay.Relay.MarkPublished` | proper-scale/services/outbox_relay/internal/postgres/repository.go:78-90 | The row is published afterwards unless the update did not run; success is reported only if this update changed the row, not when another relay had |
| `Relay.Relay.ProcessEntry` | proper-scale/services/outbox_relay/internal/relay/relay.go:91-106 | A valid entry that is served and whose mark takes effect is published; with no other relay at work exactly its own row is, and success is reported exactly then |
| `Relay.Relay.ProcessBatch` | proper-scale/services/outbox_relay/internal/relay/relay.go:81-110 | One cycle among other relays: every entry that gets through is published, decided entry by entry, so one room's failure never stops another's attempt; no error means every entry is known published; a failed read of the pending rows is an error without effect; with no other relay at work rows added and error are exact |
| `Relay.Relay.ProcessEntries` | proper-scale/services/outbox_relay/internal/relay/relay.go:87-109 | The loop over the entries, up to the end of the context |
| `RelayProgress.OneRowPerRoom` | proper-scale/services/outbox_relay/internal/postgres/repository.go:46-58 | The rooms of a batch are as many as its rows |
| `RelayProgress.BatchHoldsHealthyRoom` | proper-scale/services/outbox_relay/internal/postgres/repository.go:46-58 | With fewer failing rooms than the batch size, a batch reaches past them |
| `RelayProgress.CycleProgress` | proper-scale/services/outbox_relay/internal/relay/relay.go:81-110 | Each cycle then leaves strictly fewer pending rows in the other rooms |
| `RelayProgress.HealthyRoomsDrain` | proper-scale/services/outbox_relay/internal/relay/relay.go:62-110 | After as many cycles as the other rooms had pending rows, none is left |
| `RelayProgress.RunCycles` | proper-scale/services/outbox_relay/internal/relay/relay.go:62-110 | The same for the loop itself, calling processBatch, with other relays acting in between, given of each cycle only that some attempt for each row of the other rooms is acknowledged, nothing is cancelled and the mark takes effect |
| `RelayProgress.FullBatchOfFailuresStarves` | proper-scale/services/outbox_relay/internal/relay/relay.go:81-110 | The bound is needed: a batch filled by failing rooms can come back for ever |
| `DeliveryProtocol.StepInv` | proper-scale/services/delivery_service/infra/kafka/handler.go:29-50 | Overlapping claims, errors, session ends and restarts keep: all offsets below a position handled, listed instances served, channels hold committed events only |
| `DeliveryProtocol.HandledInOrder` | proper-scale/services/delivery_service/infra/kafka/handler.go:29-50 | No room's number is handled before the previous one was |
| `DeliveryProtocol.NothingLost` | proper-scale/services/delivery_service/infra/kafka/handler.go:29-50 | Offsets below the committed one were handled and sent to every listed instance |
| `DeliveryProtocol.AdmitPasses` | proper-scale/services/delivery_service/app/messageService.go:43-54 | A record is admitted exactly when it is a valid event under its room's key |
| `DeliveryProtocol.ClaimAdvances` | proper-scale/services/delivery_service/infra/kafka/consumer.go:38-53 | A claim opens at the committed offset; handling, marking and committing put the committed offset behind the record and reach exactly the targets |
| `DeliveryProtocol.PublishAllReaches` | proper-scale/services/delivery_service/infra/redispubsub/publisher.go:59-92 | Every listed channel gets the record and no channel loses anything |
| `DeliveryProtocol.PublishAllExact` | proper-scale/services/delivery_service/infra/redispubsub/publisher.go:59-92 | For distinct names each listed channel gets exactly one copy at its end, and the others nothing |
| `Delivery.PublishMessage` | proper-scale/services/delivery_service/infra/redispubsub/publisher.go:59-92 | The loop publishes to each name in list order |
| `Delivery.Consumer.Handle` | proper-scale/services/delivery_service/app/messageService.go:43-76 | Succeeds if and only if the record is a valid event under its room's key, presence answers, and the list is empty or every publish goes out; with an empty list the channels are as before and the claim moves on; a failure ends the claim and reaches at most whom the broken pipeline reached |
| `Delivery.Consumer.ConsumeClaim` | proper-scale/services/delivery_service/infra/kafka/handler.go:29-50 | Handles consecutive offsets, each sent to the names presence gave for it, marks an offset only after its success, and stops at the first failure without marking it; over committed records, with presence answering and nothing lost, it never fails and handles all there are or all it may |
| `HubModel.JoinMembers` | proper-scale/services/message_service/app/transport/ws/hub.go:29-47 | Register changes the named rooms and the named client only |
| `HubModel.JoinKeeps` | proper-scale/services/message_service/app/transport/ws/hub.go:29-47 | and leaves no room empty |
| `HubModel.LeaveMembers` | proper-scale/services/message_service/app/transport/ws/hub.go:49-61 | Unregister removes the client from every room and leaves no room empty |
| `HubModel.LeaveUndoesJoin` | proper-scale/services/message_service/app/transport/ws/hub.go:29-61 | Unregister undoes Register for a client that was nowhere before |
| `HubModel.OldConnectionEvictsNew` | proper-scale/services/message_service/app/transport/ws/hub.go:49-61 | Removal is by name: the end of an old connection evicts the client's newest one |
| `WsHub.Hub.Register` | proper-scale/services/message_service/app/transport/ws/hub.go:29-47 | The object graph refines Join: rooms under their own ID, none empty, distinct rooms for distinct keys |
| `WsHub.Hub.Unregister` | proper-scale/services/message_service/app/transport/ws/hub.go:49-61 | The object graph refines Leave, deleting rooms while walking over them |
| `WsHub.Hub.Dispatch` | proper-scale/services/message_service/app/transport/ws/hub.go:63-88 | An uncancelled dispatch appends the event exactly once per member and to nobody else; each error outcome has its exact condition |
| `WsHub.Hub.SendAll` | proper-scale/services/message_service/app/transport/ws/hub.go:79-85 | The send loop: every member once, or a prefix of the work when the context ends |
| `WsHub.Hub.AddTo` | proper-scale/services/message_service/app/transport/ws/hub.go:37-42 | One turn of Register's loop |
| `WsHub.Hub.RemoveFrom` | proper-scale/services/message_service/app/transport/ws/hub.go:53-56 | One turn of Unregister's loop |
| `WsHub.Hub.DistinctRooms` | proper-scale/services/message_service/app/transport/ws/hub.go:37-41 | Distinct keys hold distinct Room objects |
| `WsHub.Room.AddClient` | proper-scale/services/message_service/app/transport/ws/hub.go:108-112 | The client's entry is replaced, the others stay |
| `WsHub.Room.RemoveClient` | proper-scale/services/message_service/app/transport/ws/hub.go:114-118 | The client's entry goes, the others stay |
| `HubConsumer.Receive` | proper-scale/services/message_service/infra/redis/consumer.go:80-97 | One message read from the channel reaches exactly the members of its room, if it decodes, its key matches and it is valid; a bad message changes nothing |
| `HubConsumer.Run` | proper-scale/services/message_service/infra/redis/consumer.go:72-99 | Over any inbox every connection's queue grows by exactly the events its rooms call for, in channel order |
| `HubConsumer.ReceivedAre` | proper-scale/services/message_service/infra/redis/consumer.go:72-99 | and these are exactly the dispatchable events of the connection's rooms |
| `HubConsumer.GetsExactly` | proper-scale/services/message_service/infra/redis/consumer.go:80-93 | A message adds its event exactly for the members of the room that both its key and its event name, if the event is valid |
| `HubConsumer.Take` | proper-scale/services/message_service/infra/redis/consumer.go:76-97 | Reading a message on the object hub is the receive step of the protocol for all members: hub and queues stay in step with the protocol state |
| `FanoutProtocol.StepInv` | proper-scale/services/message_service/infra/redis/consumer.go:72-99 | Registering, unregistering, receiving and losing messages keep queues to committed events of joined rooms |
| `FanoutProtocol.ReceiveEffect` | proper-scale/services/message_service/app/transport/ws/hub.go:63-88 | A queue grows by at most the one dispatched event, and only for a current member |
| `FanoutProtocol.ReceiveExact` | proper-scale/services/message_service/app/transport/ws/hub.go:79-85 | For a valid event under its room's key and a room with members, exactly the queues of the served members grow, each by exactly the event, and the cursor moves by one |
| `FanoutProtocol.ReceiveNothing` | proper-scale/services/message_service/infra/redis/consumer.go:81-93 | Any other message moves the cursor only |
| `FanoutProtocol.ReceiveDelivers` | proper-scale/services/message_service/infra/redis/consumer.go:76-97 | Both cases as one law over the members the hub holds |
| `FanoutProtocol.RegisterExact` | proper-scale/services/message_service/app/transport/ws/hub.go:29-47 | A registered connection is a member of the named rooms of its instance, with an empty queue, and nothing else changes |
| `FanoutProtocol.UnregisterExact` | proper-scale/services/message_service/app/transport/ws/hub.go:49-61 | The client is a member nowhere at that instance, and nothing else changes |
| `PresenceProtocol.SilenceEndsPresence` | proper-scale/services/presence_service/app/grpc.go:83-133 | Under any interleaving, a room lists only instances with a key whose last Connect or Ping executed less than 60 s ago |
| `PresenceProtocol.StepBounded` | proper-scale/services/presence_service/app/grpc.go:19-109 | Every RPC step keeps each deadline within 60 s of the key's last Connect or Ping |
| `PresenceProtocol.OrderlyIndexesAgree` | proper-scale/services/presence_service/app/grpc.go:19-109 | When the RPCs of a key do not overlap and reads do not fail, a live client set and the fields of its rooms agree on the deadline at every moment |
| `PresenceProtocol.StepTidy` | proper-scale/services/presence_service/app/grpc.go:19-109 | Each orderly step keeps that agreement for all keys at once |
| `PresenceProtocol.OverlapBreaksAgreement` | proper-scale/services/presence_service/app/grpc.go:19-109 | With overlap the agreement fails: a Ping that read before a second Connect and executes after it leaves the new room's field with an earlier deadline than the set |
| `PresenceOrphans.IndexesAreOne` | proper-scale/services/presence_service/app/grpc.go:19-109 | In every run without overlap or failed reads, no live field is ever without its live set if and only if no Connect drops a listed room and no Ping executes after its set expired; then both indexes are the same relation, with one deadline, at every moment |
| `PresenceOrphans.StepCovered` | proper-scale/services/presence_service/app/grpc.go:19-109 | Each step of such a run keeps every live field covered exactly when it meets that condition |
| `PresenceOrphans.LeaveClears` | proper-scale/services/presence_service/app/grpc.go:45-81 | A Disconnect takes all live fields of its key out if and only if it read every room that has one |
| `PresenceOrphans.ConnectCovers` | proper-scale/services/presence_service/app/grpc.go:19-41 | A Connect leaves a field without its set exactly when it drops a room with a live field, since it deletes the set but no fields |
| `PresenceOrphans.PingCovers` | proper-scale/services/presence_service/app/grpc.go:83-109 | A Ping does so exactly when it writes rooms its set does not hold by then |
| `PresenceOrphans.OverlapLeavesOrphan` | proper-scale/services/presence_service/app/grpc.go:45-109 | One way to a live field without a set: a Ping overlapping a Disconnect |
| `PresenceOrphans.ReconnectLeavesOrphan` | proper-scale/services/presence_service/app/grpc.go:144-149 | Another, without any overlap: a Connect that drops a room, then a Disconnect |
| `Presence.PingMirrors` | proper-scale/services/presence_service/app/grpc.go:83-109 | Ping ignores an error of its read; it keeps the indexes in step exactly when no live set exists, all rooms were read, or the set was refreshed at this instant |
| `Presence.PingAfterFailedRead` | proper-scale/services/presence_service/app/grpc.go:90-96 | The failing case is reachable: a failed read followed by a successful EXEC |
| `Presence.KeyInjective` | proper-scale/services/presence_service/app/grpc.go:151-153 | The client key determines client and instance when instance names hold no separator |
| `Presence.KeyClash` | proper-scale/services/presence_service/app/grpc.go:151-153 | and need not otherwise |
| `Presence.KeySpacesMeet` | proper-scale/services/presence_service/app/grpc.go:151-157 | A client key is also a room key exactly when the client name starts with the room prefix |
| `PresenceService.ConnectionService.Connect` | proper-scale/services/presence_service/app/grpc.go:19-41 | The transaction with its loop equals the specification, also when only its reply is lost; a refused one changes nothing; success is reported exactly when it is answered |
| `PresenceService.ConnectionService.Disconnect` | proper-scale/services/presence_service/app/grpc.go:45-81 | Deletes the set and the fields of the rooms read before, whatever happened in between; each outcome is exact |
| `PresenceService.ConnectionService.Ping` | proper-scale/services/presence_service/app/grpc.go:83-109 | Refreshes the rooms read before and the set if it is still live then |
| `PresenceService.ConnectionService.IsConnected` | proper-scale/services/presence_service/app/grpc.go:111-133 | Lists exactly the instances with a live field, each once |
| `PresenceService.ConnectionService.SaveRoomFields` | proper-scale/services/presence_service/app/grpc.go:135-142 | The loop writes the field of every named room, repeated names included |
| `Keepalive.ListedThroughout` | proper-scale/services/message_service/app/transport/ws/ws.go:174-203 | From Connect on, whatever other connections do, every joined room lists the instance at every moment, if the first refresh lands within 60 s and each later one within 5 s of its tick |
| `Keepalive.StepKept` | proper-scale/services/message_service/app/transport/ws/ws.go:174-203 | Each allowed step keeps the connection refreshed |
| `Keepalive.GapBelowTtl` | proper-scale/services/message_service/app/transport/ws/ws.go:19-24 | No two refreshes of such a schedule are 60 s apart |
| `PresenceExpiry.ListedUntilDeadline` | proper-scale/services/presence_service/app/grpc.go:111-133 | Without a refresh, and whatever other keys do, a room lists a key all along if and only if the run ends before the field's deadline |
| `PresenceExpiry.SixSecondsOfSlack` | proper-scale/services/message_service/app/transport/ws/ws.go:19-24 | Between two refreshes of a kept connection its rooms list it in every state if and only if the lateness against the 54 s tick grows by less than 6 s |
| `PresenceExpiry.StepLost` | proper-scale/services/presence_service/app/grpc.go:83-109 | A key with no live set, no live field and no rooms read by an RPC under way stays so at every step but its own Connect |
| `PresenceExpiry.OverdueForGood` | proper-scale/services/presence_service/app/grpc.go:83-109 | In any run, once 60 s have passed since a key's last Connect or Ping and no RPC under way read its rooms, no Ping or anything else but its Connect ever lists it in any room again |
| `PresenceExpiry.SlowWriteDelists` | proper-scale/services/message_service/app/transport/ws/ws.go:174-203 | A connection whose writes and RPCs all succeed is still listed after its second ping if and only if the write before that took less than 6 s |
| `PresenceExpiry.SlowWriteForGood` | proper-scale/services/message_service/app/transport/ws/ws.go:19-24 | With a write between 6 s and its own limit of 10 s it is listed nowhere from then on, until it connects anew |
| `Keepalive.SocketDisconnectMissesKey` | proper-scale/services/message_service/app/transport/ws/ws.go:152-161 | The socket's Disconnect names no instance, so it leaves the connection's fields as they were |
| `NaiveOutbox.HandoffsConserved` | naive-scale/internal/storage/outbox.go:97-159 | For any number of relays, rollbacks and crashes: batches in flight are disjoint and undispatched, and a row's hand-offs are exactly its stamp plus the aborted transactions that had handed it over plus the one running |
| `NaiveOutbox.HandoffBounds` | naive-scale/internal/storage/outbox.go:97-159 | Hence never stamped without a hand-off, and exactly one hand-off without aborts |
| `NaiveOutbox.InsertedIsEligible` | naive-scale/internal/storage/outbox.go:23-31 | A new row can be claimed at once, and no other row's standing changes |
| `NaiveOutbox.StepInv` | naive-scale/internal/storage/messages.go:28-41 | Every step of every transaction keeps the count |
| `NaiveOutbox.PlainFetchDuplicates` | naive-scale/internal/storage/outbox.go:35-78 | Fetch and mark as two statements give no such law |
| `NaiveRelay.FirstIsClaim` | naive-scale/internal/storage/outbox.go:100-107 | The rows a relay selects are those the protocol lets it claim |
| `NaiveRelay.ClaimRows` | naive-scale/internal/storage/outbox.go:100-135 | The first unlocked undispatched rows in id order, up to the limit |
| `NaiveRelay.Relay.HandOver` | naive-scale/internal/storage/outbox.go:141-148 | Hands the batch over in order up to the hand-off that fails |
| `NaiveRelay.Relay.StampBatch` | naive-scale/internal/storage/outbox.go:150-154 | The UPDATE runs, or the transaction rolls back |
| `NaiveRelay.Relay.EndTx` | naive-scale/internal/storage/messages.go:37-40 | The COMMIT takes effect, told or not, or nothing is stamped |
| `NaiveRelay.Relay.RunTx` | naive-scale/internal/storage/outbox.go:136-158 | What follows the claim, as protocol steps: the rows it leaves, the count and the error |
| `NaiveRelay.Relay.DispatchBatch` | naive-scale/internal/storage/outbox.go:97-159 | With others acting before every statement: claims the first unlocked rows, hands over in id order, stamps all or none; hand-offs made stay made; the count is the batch size even with an error of the COMMIT, which may have taken effect; every effect is a protocol step |
| `NaiveRelay.Relay.Drain` | naive-scale/internal/outbox/relay.go:64-79 | Ends once inserts stop, whatever the other relays do; on success every row left was locked by another relay at the last claim; alone, everything is handed over once each in ascending id order across all batches |
| `NaiveHub.QueueIsSubsequence` | naive-scale/internal/hub/hub.go:67-147 | A client's queue is a subsequence of its room's publish log: every entry is of that room, carries the payload logged at its place, and the places rise |
| `NaiveHub.ClientsAgreeOnOrder` | naive-scale/internal/hub/hub.go:67-147 | Two clients on any instances have received the messages common to both in the same order, and these are of one room |
| `NaiveHub.NoPanicExactly` | naive-scale/internal/hub/hub.go:91-117 | A run never panics nor comes within one leave of it, if and only if no client registers whose channel is closed; then no send goes to a closed channel and no channel is closed twice |
| `NaiveHub.NoPanic` | naive-scale/internal/transport/ws.go:22-49 | That holds when each client is registered at most once, as the socket handler does |
| `NaiveHub.RegisteringTwicePanics` | naive-scale/internal/hub/hub.go:91-117 | Registering again after leaving ends in a send on a closed channel |
| `NaiveHub.DeliverReachesMembers` | naive-scale/internal/hub/hub.go:114-117 | In any run without closed registrations, a delivery adds the item to the queue of every member of its room at that instance, leaves all others as they were, and does not panic |
| `NaiveHub.DeliverExact` | naive-scale/internal/hub/hub.go:114-117 | The head of an instance's pipe goes to its open members of the room, once each, and to nobody else |
| `NaiveHub.PublishExact` | naive-scale/internal/hub/hub.go:67-80 | A payload goes to the end of its room's log and of the pipe of every instance it reaches |
| `NaiveHub.RegisterExact` | naive-scale/internal/hub/hub.go:91-100 | Registering adds the client to its own room at its own instance only |
| `NaiveHub.UnregisterExact` | naive-scale/internal/hub/hub.go:101-113 | Unregistering takes it out, closes its channel if it was a member, and panics exactly if that was closed |
| `NaiveHub.StepOrdered` | naive-scale/internal/hub/hub.go:83-120 | Each step keeps pipes and queues in log order |
| `NaiveHub.StepOpen` | naive-scale/internal/hub/hub.go:91-113 | A step keeps the channels of all members open exactly when it does not register a closed one |
| `NaiveHubRun.Hub.RegisterCase` | naive-scale/internal/hub/hub.go:91-100 | Adds the member; subscriptions stay exactly the rooms with members |
| `NaiveHubRun.Hub.UnregisterCase` | naive-scale/internal/hub/hub.go:101-113 | Drops the member and closes its channel once; an emptied room and its subscription go |
| `NaiveHubRun.Hub.BroadcastCase` | naive-scale/internal/hub/hub.go:114-117 | Every member gets the payload once; it panics exactly when a member's channel is closed |
| `MigrationProtocol.MigrationRuns` | proper-scale/services/message_service/infra/postgres/migrate.go:17-109 | For any number of instances, older releases, crashes and ambiguous commits: the recorded versions are a prefix of the sorted files, the schema is exactly the statements of these files once each and in order, no version is recorded twice, and an instance that succeeded has all its files recorded |
| `MigrationProtocol.StepInv` | proper-scale/services/message_service/infra/postgres/migrate.go:64-109 | Each statement of each transaction keeps this, under the advisory lock |
| `MigrationProtocol.SomeInstanceMoves` | proper-scale/services/message_service/infra/postgres/migrate.go:71-73 | While an instance is under way, some instance can move without failing |
| `MigrationProtocol.EffectsHold` | proper-scale/services/message_service/infra/postgres/migrate.go:93-101 | The schema of one more file is that of the files before and its statements, whole and in order |
| `Migrator.Migrator.RunMigrations` | proper-scale/services/message_service/infra/postgres/migrate.go:48-61 | Succeeds only with every file recorded, and does succeed when nothing fails and nobody else is at work |
| `Migrator.Migrator.ApplyMigration` | proper-scale/services/message_service/infra/postgres/migrate.go:64-109 | On success the file's version is recorded, by this instance or another |
| `Migrator.Migrator.AcquireLock` | proper-scale/services/message_service/infra/postgres/migrate.go:71-73 | Waits for the advisory lock; on success this instance holds it |
| `Migrator.Migrator.RunStatements` | proper-scale/services/message_service/infra/postgres/migrate.go:93-104 | All statements in order, then the record; the INSERT never meets the primary key |
| `Migrator.Migrator.CommitTx` | proper-scale/services/message_service/infra/postgres/migrate.go:86-108 | The version passed is recorded and the lock is free |
| `Migrations.ScanDirectory` | proper-scale/services/message_service/infra/postgres/migrate.go:28-46 | Succeeds exactly when there are migration files and their versions are valid and distinct; then yields exactly these files, sorted |
| `Migrations.SortNames` | proper-scale/services/message_service/infra/postgres/migrate.go:46 | Sorted by byte order, and a permutation |
| `Migrations.LessExactly` | proper-scale/services/message_service/infra/postgres/migrate.go:46 | In that order the first difference decides, or the shorter name comes first |
| `Migrations.MigrationExactly` | proper-scale/services/message_service/infra/postgres/migrate.go:31 | An entry is taken exactly when it is a file ending in .up.sql |
| `Migrations.MigrationsAre` | proper-scale/services/message_service/infra/postgres/migrate.go:30-42 | The scan keeps exactly the names of such entries |
| `Migrations.VersionExactly` | proper-scale/services/message_service/infra/postgres/migrate.go:111-121 | A name has version v exactly when it is digits, perhaps after a plus sign, up to an underscore, with value v from 1 to the largest int64 |
| `Migrations.ShippedMigration` | proper-scale/services/message_service/migrations/000001_create_message_storage.up.sql:1-36 | For any topic, 000001 with .up.sql is taken as version 1 and its .down.sql is not |
| `Migrations.ScannedPlan` | proper-scale/services/message_service/infra/postgres/migrate.go:28-52 | The scanned files give the instances distinct versions |
| `Migrations.NameOrder` | proper-scale/services/message_service/infra/postgres/migrate.go:46-121 | With versions of one width, names compare as their versions, unless exactly one carries a plus sign; that one then always comes first |
| `Migrations.SortedIsNumeric` | proper-scale/services/message_service/infra/postgres/migrate.go:46-121 | So with one width and no sign mixture the files run in numeric order |
| `Migrations.NameOrderNotNumeric` | proper-scale/services/message_service/infra/postgres/migrate.go:111-121 | Neither condition can be dropped |

## Left out

- single-instance and log-prop: the first repeats naive-scale with one relay and a local hub, the second is a learning sample.
- WebSocket upgrade, read and write pumps, HTTP routes, health checks, configuration and process wiring.
- Rooms, users and history endpoints: single queries.
- JSON text, JSONB normalisation, Kafka headers and record timestamps: an event and its encoding are related as datatypes.
- The length of retry back-off and poll intervals: only their order and their interruption are modelled.
- The rest of NextPending's ORDER BY after created_at: any order among rows of equal created_at is allowed, which includes the one PostgreSQL picks.
- Splitting migration text at semicolons: a migration comes as its list of non-blank statements.
- Relay.Relay.ProcessBatch: takes the outbox as fixed during one cycle, because rows committed meanwhile are met in the next one; Pipeline interleaves relay steps with commits.
- The hub's locks: each hub method runs alone, as its mutex makes it.
- Presence keys of clients and of rooms live in two separate maps, so the clash that KeySpacesMeet describes is not carried into the protocol.
- What sarama, pgx and go-redis do inside: only the step semantics above.
- DeliveryProtocol.NothingLost: says nothing about instances that presence did not list, because the source does not try to reach them.
- NaiveHub.QueueIsSubsequence: does not promise that a published message reaches a client, because a failed Redis publish is only logged.
- WsHub.Hub.Dispatch: for a cancelled dispatch each member has the event or not; which ones is left open, as the map order is.
