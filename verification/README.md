# Chatterbox: a verified model of its shared state

Chatterbox is a chat backend that runs as several FastAPI instances. Each instance holds its own WebSockets; Redis
holds what they share for a short time (presence leases, typing deadlines, counters), PostgreSQL holds messages,
receipts, conversations and attachment rows, and MinIO holds uploaded files. The browser pages through history and
recovers what it missed. This project models the state machines behind those parts and proves what every run of them
keeps. Code that changes state in place is a class whose methods are tied to functions on values; the theorems are
about those functions and about machines whose steps they are.

| files | what they hold |
|---|---|
| `Basics`, `SortedSets` | identifiers, time, lists as sets; the Redis sorted-set commands |
| `PresenceDb`, `PresenceBackend` | the presence scripts as functions, and the Redis keys and one backend as classes |
| `Connections`, `ConnectionManagers` | the socket table of one process, the connection manager, event fan-out |
| `PresenceCluster`, `PresenceRefinement`, `PresenceCommands` | N instances with their maintenance loops and timing, against one manager with all sockets; the same loops with sweeps command by command |
| `PresenceSweep`, `PresenceHistory`, `PresenceDrain`, `PresenceDetection`, `PresenceLimits` | sweeps command by command; what the history of commands says of keys and answers; backlogs and reports over time; how soon a crash is noticed; where presence stops being exact |
| `Typing`, `RateLimit` | typing deadlines and the shared fixed-window limiter |
| `Receipts`, `Delivery`, `DeliveryCluster`, `DeliverySweep`, `Handlers` | receipts; sends crossing connects, over any presence, over the timed cluster and over single commands; the WebSocket handlers |
| `Cursor`, `History`, `ClientRecovery` | cursor text, keyset pages, and the browser's recovery and merged view |
| `Attachments`, `AttachmentService` | the attachment life cycle as a machine, and its transactions as methods |
| `DirectConversations` | the key of a pair and the creation race |

Time is an integer on one shared clock. A step takes the clock value the code reads before its command, so a command
may carry a time that has passed. Where Redis or SQL may answer in several ways (ties in a LIMIT, unordered rows), the
model allows every legal answer.

## Where the code promises less than its documentation or checks suggest

- **Heartbeat shorter than lifetime is not enough.** The settings only check that order. Whether a lease of a connected
  user can lapse depends on the last iteration that can begin before the next heartbeat is due; `RoomIsExact` gives the
  exact room for every accepted timing, `ValidatedTimingLapses` accepted settings that lapse.
- **The final DEL of a presence sweep can take a fresh lease.** `ConnectLostToPurge` is such a run, `PurgeExact` the
  exact condition over all runs; `LeaseLostExactly` says when a connected user has no lease, and `HeartbeatRestores` for
  how long. `DeliveryLostToPurge` carries it on: a recipient with an open, ready connection is
  found offline by a send and the receipt stays undelivered; `SendMissesExactly` says exactly when that happens.
- **A heartbeat can refresh a user who has just left.** The list of local users is taken before the calls.
  `StaleRefreshRun` is such a run, `RefreshExact` the exact condition; the refinement theorem excludes just these
  refreshes, and instances that die with sockets.
- **A sweeper that dies between claim and re-index can drop a user from the index.** `DyingSweeper` says over all runs
  exactly when a leased user is lost, and until when.
- **A user can be reported offline twice without a connect between.** `ReportedTwice` is such a run, `SecondReport` says
  when.
- **An ETag does not fix the content type, nor what the scan reads.** The copy is guarded by the ETag of the version
  whose size and type were verified. A store names bytes by ETag, so the same bytes put again with another content type
  are copied (`TypeSwapped`), and the scan may read other bytes that are replaced again before the copy (`ScanSwapped`).
  `DeliveredBytes` gives the exact conditions; with a new ETag for every upload neither happens (`FreshEtagsSuffice`).
- **The limiter's windows are fixed, not sliding.** "Allowed per user/window" holds per counter lifetime
  (`LifetimeQuota`); any interval of that length admits up to 2 * limit - 1 (`SlidingBound`), and that many are
  reached (`SlidingBoundReached`).
- **A cursor need not be what was issued.** The decoder skips foreign characters (`JunkIsSkipped`); `CursorAccepted` is
  its exact acceptance condition.
- **Cursor recovery closes gaps only behind the newest known message.** `RecoveryCompleteIff`: complete exactly when
  the client already had everything not newer than its newest message and at most 2000 messages are newer.

## Model

| member | source | states |
|---|---|---|
| PresenceCluster.LeaseContinuity | backend/app/websocket/redis_backend.py:317-332 | With each sweep, connect and disconnect one step: in every run of any number of maintenance loops, with instances crashing and joining at any moment, if there is room for the last quiet iteration, a sleep and two bounded iterations, the lease of each user connected to a live instance is unexpired in every state, also for users who connect between heartbeats |
| PresenceCommands.LeaseLostExactly | backend/app/websocket/redis_backend.py:317-376 | Sweeps command by command, the same loops and room: in every run and state the lease of a user connected to a live instance is missing or lapsed if and only if a sweeper read that the user has no lease, then the instance's last connect script for the user ran, and then that sweeper's DEL |
| PresenceCommands.HeartbeatRestores | backend/app/websocket/redis_backend.py:317-332 | In the same runs a user who stays connected for longer than a heartbeat, a sleep and two bounded iterations is refreshed in that time and then has an unexpired lease, until another DEL of the user |
| PresenceCommands.FreshLeaseTaken | backend/app/websocket/redis_backend.py:369-373 | A run with sufficient timing in which a user connects, stays connected and has no lease |
| PresenceCluster.RoomInNumbers | backend/app/websocket/redis_backend.py:321-332 | That room in numbers: the greatest start of an iteration before the next heartbeat is due, plus a sleep and two bounded iterations, is less than the TTL |
| PresenceCluster.LastQuietExact | backend/app/websocket/redis_backend.py:321-332 | The closed form is the greatest time before the next heartbeat is due at which an iteration can begin, whatever its predecessors took |
| PresenceCluster.TwoIterationsSuffice | backend/app/websocket/redis_backend.py:321-332 | Heartbeat + sweep + twice the bounded work at most the TTL is room enough |
| PresenceCluster.StepStaysOnTime | backend/app/websocket/redis_backend.py:317-332 | Every connect, disconnect, presence read, wake-up, refresh, sweep, sleep, crash, join and tick keeps each connected user's lease longer than where the loop is requires |
| PresenceCluster.SweepKeepsFresh | backend/app/websocket/redis_backend.py:354-376 | A sweep of any batch keeps every unexpired lease of every user, with its deadline |
| PresenceRefinement.ClusterRefinesManager | backend/app/websocket/manager.py:96-180 | With each connect and disconnect one step, no stale refresh and no instance dying with sockets: every return value and every presence answer of a run is the one a single manager with all sockets gives; at the end a user's leases are those of exactly the instances with a local socket, and the index score is the latest of them |
| PresenceRefinement.StepCoupled | backend/app/websocket/redis_backend.py:17-39 | One atomic step keeps the instances, the leases and the index coupled with the single manager, and answers as it does |
| PresenceRefinement.ConnectAnswer | backend/app/websocket/redis_backend.py:18-25 | Connect reports "was offline" exactly when no instance had a socket of the user |
| PresenceRefinement.DisconnectAnswer | backend/app/websocket/redis_backend.py:28-38 | Disconnect reports "now offline" exactly when the removed socket was the user's last on all instances |
| PresenceRefinement.SweepFindsNothing | backend/app/websocket/redis_backend.py:355-357 | With no lapsed lease an index query for expired users is empty, so no offline event is made up |
| PresenceLimits.RoomIsExact | backend/app/websocket/redis_backend.py:317-332 | For every timing whose heartbeat is shorter than its TTL, as the settings check: no run lapses if and only if the last quiet start plus a sleep and two bounded iterations is less than the TTL |
| PresenceLimits.ValidatedTimingLapses | backend/app/core/config.py:52-56 | A timing the settings accept in which a connected user's lease lapses |
| PresenceLimits.RefreshExact | backend/app/websocket/redis_backend.py:323-324 | A heartbeat refresh keeps the keys in step with the sockets if and only if the user is still connected there; either way the user is then online |
| PresenceLimits.StaleRefreshRun | backend/app/websocket/redis_backend.py:323-324 | A legal run, for every sufficient timing, whose last answer is online for a user without any socket |
| PresenceSweep.SweepCoverage | backend/app/websocket/redis_backend.py:354-376 | Under every interleaving of single sweep commands of any number of sweepers, none of which dies, with the scripts, reads and key expiry, a user with a lease is in the index or held by a sweep in progress |
| PresenceSweep.StepCovered | backend/app/websocket/redis_backend.py:354-376 | Each single command but a death keeps that coverage |
| PresenceSweep.OnlineMeansRefreshed | backend/app/websocket/redis_backend.py:245-258 | After every history a user is reported online only if some instance refreshed the lease within the last TTL; an index score is some refresh plus the TTL; a lease key never expires before its leases |
| PresenceSweep.HistorySourced | backend/app/websocket/redis_backend.py:20-24 | Every lease, index score and score in a sweeper's hands comes from a past connect script, and EXPIRE outlives each lease by a TTL |
| PresenceSweep.PurgeExact | backend/app/websocket/redis_backend.py:369-373 | Over every run: after a sweep read that no lease is left, its DEL changes somebody's presence if and only if a connect of the user came between whose lease is still there; without a connect between, nobody's presence changes |
| PresenceSweep.ConnectLostToPurge | backend/app/websocket/redis_backend.py:369-373 | A concrete run in which a connect between read and DEL is lost |
| PresenceSweep.SecondReport | backend/app/websocket/redis_backend.py:360-376 | Over every run of single commands, after a report of a user and before the next connect: a sweep's step is another report exactly if it is a last check of the user, and there is one only if right after the first report the index or another sweeper still had the user |
| PresenceSweep.ReportedTwice | backend/app/websocket/redis_backend.py:369-376 | A concrete run with two reports of a user and no connect between |
| PresenceSweep.DyingSweeper | backend/app/websocket/redis_backend.py:360-371 | Over every run: a leased user is unknown to index and sweepers if and only if a sweeper died that was the last to know of the user and no connect or disconnect script of the user has run since |
| PresenceDrain.BacklogDrains | backend/app/websocket/redis_backend.py:354-372 | Over every history of connects, disconnects, reads and atomic sweeps, each at its own time: of n index entries due at some time at most n - 100 k are left after k sweeps from then on, and none is ever added |
| PresenceDrain.ReportedOnce | backend/app/websocket/redis_backend.py:360-376 | Over every such history, each sweep one step: between two reports of a user by any sweeps, the user connects again |
| PresenceDrain.LapseIsReported | backend/app/websocket/redis_backend.py:354-376 | An indexed user whose deadlines have passed, and who neither connects nor disconnects again, is reported exactly once within ceil(n / 100) sweeps, where n entries were due |
| PresenceDetection.DesertionDetected | backend/app/websocket/redis_backend.py:317-332 | From any state of any run: a user whom no live instance serves any more leaves the index and is reported exactly once within a TTL, a sleep and two bounded iterations of one survivor, plus one round for each further 100 entries due |
| PresenceDetection.CrashDetected | backend/app/websocket/redis_backend.py:317-376 | The same from the crash of the only instance that served the user, provided no other instance has a refresh of the user still to run; the index then still holds the user |
| PresenceDetection.SoonDeserted | backend/app/websocket/redis_backend.py:321-324 | Once no live instance has a socket of the user, and the user does not connect, no refresh of the user is left to run after one bounded iteration |
| PresenceDetection.SurvivorDrains | backend/app/websocket/redis_backend.py:317-332 | One surviving loop alone clears what was due within its own rounds, whatever the other instances do |
| PresenceBackend.RedisServer.PresenceConnectScript | backend/app/websocket/redis_backend.py:17-26 | Updates lease and index as `Db.Connect` does, and answers yes exactly if every lease of the user that was stored before the call has lapsed |
| PresenceBackend.RedisServer.PresenceDisconnectScript | backend/app/websocket/redis_backend.py:28-39 | Updates lease and index as `Db.Disconnect` does, and answers yes exactly if every stored lease of the user but the caller's has lapsed |
| PresenceDb.ConnectExact | backend/app/websocket/redis_backend.py:17-26 | From every state, lease by lease: which deadlines are stored and which scores indexed after the connect script, and its answer from the leases stored before |
| PresenceDb.DisconnectExact | backend/app/websocket/redis_backend.py:28-39 | From every state, lease by lease: the same for the disconnect script; the index gets the latest deadline that is left, or loses the user |
| PresenceDb.ReadExact | backend/app/websocket/redis_backend.py:245-258 | From every state: a user is online exactly if some stored lease is unexpired, and only lapsed leases of the user go |
| PresenceHistory.LeasesAreHistory | backend/app/websocket/redis_backend.py:17-39 | After every run of single commands the lease keys hold exactly what a fold over the history says of each user and instance |
| PresenceHistory.AnswersAreHistory | backend/app/websocket/redis_backend.py:17-39 | Over every run: a connect answers yes exactly if no connect script of the user within the last TTL left a lease that still stands; a disconnect exactly if none of another instance did; a presence read finds the user online exactly if one did |
| PresenceHistory.ScoredStep | backend/app/websocket/redis_backend.py:354-376 | What each single command does to a user's score in the index |
| PresenceHistory.RestoresLatest | backend/app/websocket/redis_backend.py:369-372 | A sweep that finds leases re-indexes the user at the latest deadline that it read, whatever came between |
| PresenceHistory.ListsDue | backend/app/websocket/redis_backend.py:355-357 | A sweep lists due users, at most a hundred, and those with the lowest scores if there are more |
| PresenceBackend.RedisServer.ExpiredUsers | backend/app/websocket/redis_backend.py:355-357 | A legal batch: distinct, expired, as many as the limit allows, lowest scores first |
| PresenceBackend.RealtimeBackend.OnlineUserIds | backend/app/websocket/redis_backend.py:245-258 | Undisturbed: answers with the asked users that have an unexpired lease, in order, and only evicts lapsed leases |
| PresenceBackend.OnlineAmongExact | backend/app/websocket/redis_backend.py:254-258 | A user occurs in the answer as often as asked for if online, and otherwise never |
| PresenceBackend.EvictionsKeepOnline | backend/app/websocket/redis_backend.py:249-253 | Reading presence changes nobody's unexpired leases, so the reads of one call do not disturb each other |
| PresenceBackend.HeartbeatsRenew | backend/app/websocket/redis_backend.py:323-324 | A round renews this instance's lease and the index score of each listed user and touches no other user |
| PresenceBackend.RealtimeBackend.HeartbeatRound | backend/app/websocket/redis_backend.py:323-324 | The loop runs the connect script for each local user in turn |
| PresenceBackend.RealtimeBackend.MaintainIteration | backend/app/websocket/redis_backend.py:319-327 | The presence part, undisturbed: heartbeats exactly when due, moves the next one, and then sweeps the state the heartbeats left |
| PresenceBackend.RealtimeBackend.SettleUser | backend/app/websocket/redis_backend.py:358-376 | Undisturbed, the command sequence for one listed user equals one atomic settling, and reports exactly a claimed user without an unexpired lease |
| PresenceBackend.RealtimeBackend.SweepPresence | backend/app/websocket/redis_backend.py:354-376 | Undisturbed, the whole sweep equals `Db.Sweep` of a legal batch, and its reports are `Db.SweepReports` |
| ConnectionManagers.ConnectionManager.Connect | backend/app/websocket/manager.py:96-106 | With Redis reachable, or none attached: each socket of the new table, the new shared keys, and the answer: the user had no socket here and, with Redis, no unexpired lease; Redis is called only for the first local socket |
| ConnectionManagers.ConnectionManager.Disconnect | backend/app/websocket/manager.py:108-124 | With Redis reachable, or none attached: each socket of the new table, the new shared keys, and the answer: the socket was the user's last here and, with Redis, no other instance has an unexpired lease; unknown users and users with sockets left return false |
| ConnectionManagers.ConnectionManager.OnlineUserIds | backend/app/websocket/manager.py:173-180 | With Redis reachable: the backend's answer; with none attached: exactly the asked users with a local socket, once per mention |
| ConnectionManagers.ConnectionManager.SendEach | backend/app/websocket/manager.py:127-134 | Sends to each working socket of the user once and collects exactly the broken ones |
| ConnectionManagers.ConnectionManager.DeliverToUserLocal | backend/app/websocket/manager.py:126-136 | Delivers once to each working socket, drops exactly the broken ones, and releases the lease if none is left |
| ConnectionManagers.ConnectionManager.DeliverToUsersLocal | backend/app/websocket/manager.py:138-141 | Serving the users in turn: the deliveries, each user's remaining sockets, and the leases released, once for each user with only broken sockets |
| ConnectionManagers.CleanedExact | backend/app/websocket/manager.py:126-141 | After serving the users in turn each of them keeps exactly the sockets that are not broken, with no entry left empty; all others keep theirs |
| ConnectionManagers.ConnectionManager.SendToUsers | backend/app/websocket/manager.py:146-160 | Publishes the distinct non-excluded users once with Redis reachable, delivers to them locally with none attached, and does nothing for none |
| ConnectionManagers.FanOutExactlyOnce | backend/app/websocket/redis_backend.py:188-216 | One published event reaches every working socket of every named, non-excluded user on any instance exactly once and no other socket, as one manager with all sockets would deliver it |
| ConnectionManagers.HomeDelivers | backend/app/websocket/redis_backend.py:202 | Only the instance that holds a socket contributes to its deliveries |
| ConnectionManagers.TargetsExact | backend/app/websocket/manager.py:149-151 | The targets are distinct and exactly the named, non-excluded users |
| ConnectionManagers.TargetsInOrder | backend/app/websocket/manager.py:149-151 | They come in the order of their first mention |
| Typing.StoreIsPending | backend/app/websocket/redis_backend.py:274-315 | After every history deadlines and data have the same members: those whose last start was not stopped or claimed, with that start's deadline and event |
| Typing.SweepClaims | backend/app/websocket/redis_backend.py:41-54 | The script returns one stop event per listed member, the one stored for it |
| Typing.ClaimedOnce | backend/app/websocket/redis_backend.py:41-54 | Between two claims of one indicator, or a stop and a claim, there is a start; and the claim comes after the latest start's deadline |
| Typing.BacklogDrains | backend/app/websocket/redis_backend.py:42 | Over every history of starts, stops and sweeps, each at its own time: of n indicators due at some time at most n - 100 k are left after k sweeps from then on |
| Typing.ExpiryIsClaimed | backend/app/websocket/redis_backend.py:41-54 | An indicator that is due and neither restarted nor stopped is claimed exactly once within ceil(n / 100) sweeps, where n were due |
| Typing.TypingKeys.TypingSweepScript | backend/app/websocket/redis_backend.py:41-54 | Lists at most a hundred due members, lowest deadlines first, and leaves and returns what `Store.Sweep` and `Store.Claims` say |
| RateLimit.SlidingBound | backend/app/websocket/redis_backend.py:56-60 | In any run at most 2 * limit - 1 calls are allowed in any half-open interval of the window's length |
| RateLimit.SlidingBoundReached | backend/app/websocket/redis_backend.py:56-60 | For every limit and every window longer than one unit some run reaches that bound |
| RateLimit.LifetimeQuota | backend/app/websocket/redis_backend.py:56-60 | From the call that creates a counter, for one window, exactly the first `limit` calls are allowed |
| RateLimit.RateLimiter.AllowAction | backend/app/websocket/redis_backend.py:260-272 | One counter per sanitized action and user: a missing or expired one starts at one with a new window, another is counted up in its window; allowed exactly up to the limit |
| RateLimit.CountersApart | backend/app/websocket/redis_backend.py:260-272 | After any calls of any users, a key's counter is what the calls of that user and sanitized action alone make of it |
| RateLimit.Sanitized | backend/app/websocket/redis_backend.py:263 | The action with each colon replaced by an underscore and every other character in place |
| Receipts.ReadThroughAll | backend/app/repositories/receipt_repository.py:51-77 | Any list of read-throughs, in any order, leaves the same read set as one through the latest target, and the calls together report exactly those receipts, each once |
| Receipts.UnreadAfter | backend/app/repositories/conversation_repository.py:86-99 | What stays unread, and its count, is what was unread strictly after the target |
| Receipts.ReceiptHistory | backend/app/repositories/receipt_repository.py:16-77 | In every run each message has exactly one receipt per non-sender member, each time is set at most once and never changes, and read implies delivered, not later |
| Receipts.TimesAreClocks | backend/app/repositories/receipt_repository.py:16-77 | Each time that a run sets is the clock of an operation that marked the receipt, for a read time of a read-through |
| Receipts.ReportedOnce | backend/app/services/receipt_service.py:19-43 | Every receipt read in a run is reported read exactly once, and reported delivered at most once |
| Receipts.ReceiptStore.Create | backend/app/services/message_service.py:83-88 | One blank receipt for each member but the sender; every other receipt stays |
| Receipts.ReceiptStore.MarkDelivered | backend/app/repositories/receipt_repository.py:16-34 | Marks and returns exactly the undelivered receipts of the message for the named users, each once, with the time of the call; every other receipt and every read time stays |
| Receipts.ReceiptStore.MarkPendingDelivered | backend/app/repositories/receipt_repository.py:36-49 | Marks and returns exactly the user's undelivered receipts, each once, with the time of the call; every other receipt and every read time stays |
| Receipts.ReceiptStore.MarkRead | backend/app/services/receipt_service.py:31-43 | The error of each refused call; otherwise exactly the user's unread receipts of the conversation up to the target are returned, once each in (created_at, id) order, with the time of the call as read time and as delivery time where there was none; every other receipt stays |
| DeliveryCluster.NoMissedDelivery | backend/app/websocket/handlers.py:41-64 | With sufficient timing and atomic sweeps, the presence read answering from the leases one recipient after the other: in every interleaving of sends, connects, disconnects, reads, heartbeats, sweeps, crashes and joins, once a send and a still-open recipient connection have both finished, the receipt is delivered |
| DeliveryCluster.AskFindsConnected | backend/app/websocket/handlers.py:54-55 | In every reachable state the presence read of a send, at the time it began, finds each recipient with an open connection online |
| DeliverySweep.SendMissesExactly | backend/app/websocket/handlers.py:41-59 | Over every run of single Redis commands: a finished send leaves a recipient's receipt undelivered if and only if its presence read found no unexpired lease of the recipient and since the commit no connection of the recipient started up and the recipient has not read that far |
| DeliverySweep.DeliveryLostToPurge | backend/app/websocket/redis_backend.py:369-373 | A concrete run in which a recipient with an open, ready connection is missed because a sweep's DEL took the lease |
| Delivery.MissedExactly | backend/app/repositories/receipt_repository.py:16-77 | The same condition in terms of what the presence read answered, whatever presence is |
| Delivery.ExactlyOneReport | backend/app/api/websocket.py:46-48 | In every run from the start each delivery is reported by exactly one send or connect, unless reading came first, and then by none |
| Handlers.HandleMessageSend | backend/app/websocket/handlers.py:35-64 | The refusals of a sender who is no member; otherwise the recipients found online are, with Redis, exactly those with an unexpired lease, alone at least those with a working socket; from every chat state with these tables the send is a run of the interleaved machine with the same tables and reports; and the message, and then each delivered receipt, is announced to all members once, and nothing else is |
| Handlers.SendAsMember | backend/app/websocket/handlers.py:41-64 | Commits the message with its receipts, marks and reports exactly the receipts of the recipients found online, and announces the message and each of these to all members |
| Handlers.HandleMessageRead | backend/app/websocket/handlers.py:67-82 | Refuses exactly what MarkRead refuses; otherwise marks what it marks and announces each marked receipt as read to all members, in order, and nothing else |
| Handlers.Announce | backend/app/websocket/manager.py:146-160 | One broadcast: with Redis exactly the named, non-excluded users are published, each once; alone each of their working sockets gets the event once and no other socket does |
| Handlers.OpenConnection | backend/app/api/websocket.py:37-76 | Writes presence before it marks; the user becomes online exactly if there was no socket here and no unexpired lease; afterwards no receipt of the user is pending and the returned ones are exactly those marked; from every chat state with these tables it is a connect and a start-up of the interleaved machine; the connection learns which peers are online, a new presence is announced to the peers, and each marked receipt to its conversation's members |
| Handlers.SendIsItsSteps | backend/app/websocket/handlers.py:41-59 | Commit, one answer per recipient and the marking are legal steps from every chat state and lead to the handler's tables and reports, also when nobody is online |
| Cursor.CursorRoundTrip | backend/app/services/message_service.py:21-30 | Encoding, stripping '=', padding and decoding returns every payload |
| Cursor.CursorAlphabet | backend/app/services/message_service.py:21-23 | A cursor has only alphabet symbols and no padding |
| Cursor.CursorLength | backend/app/services/message_service.py:21-23 | A cursor has four characters for each three bytes, rounded up |
| Cursor.SymbolTable | backend/app/services/message_service.py:21-30 | The symbols are those of the URL-safe alphabet in the order of RFC 4648, and the decoder takes these and '+' and '/' |
| Cursor.TestVectors | backend/app/services/message_service.py:21-23 | The test vectors of section 10 of RFC 4648, without padding |
| Cursor.CursorsDistinct | backend/app/services/message_service.py:21-23 | Different payloads have different cursors |
| Cursor.CursorAccepted | backend/app/services/message_service.py:27-39 | For every text: the base64 stage accepts it if and only if it is ASCII and, once padded, some padding character completes a group or the number of its symbols is a multiple of four |
| Cursor.PlainCursor | backend/app/services/message_service.py:27-30 | A text without '=' is decoded if and only if it is ASCII and its symbols with the padding for the whole length fill their last group, and then to what the symbols say |
| Cursor.AlphabetAccepted | backend/app/services/message_service.py:27-30 | A text of symbols alone is decoded unless it is one symbol over a whole group |
| Cursor.JunkIsSkipped | backend/app/services/message_service.py:27-30 | Four foreign ASCII characters put in anywhere do not change what a cursor says |
| History.List | backend/app/services/message_service.py:95-132 | Refuses exactly both cursors together; otherwise a page of messages of the conversation that are not deleted and lie past the cursor by created_at and then id, in that order, at most the limit; full if it has a next cursor, and what is missing of them lies beyond that |
| History.AfterPageExact | backend/app/repositories/message_repository.py:71-94 | A page after a cursor is sorted and holds everything above the cursor up to its own next cursor, or everything when there is none |
| History.BeforePageExact | backend/app/repositories/message_repository.py:45-69 | The sorted history below a page's next cursor followed by the page is the sorted history below its own cursor |
| History.AscendingOnly | backend/app/repositories/message_repository.py:91 | The ordered listing is the only increasing list of a table's messages |
| History.RecoveryMissesNothing | backend/app/services/message_service.py:108-119 | Following `after` cursors over a growing table yields a strictly increasing list of existing messages that misses none which existed at the start and lies before its end; if it ended, none at all |
| History.RecoveryExact | backend/app/services/message_service.py:108-119 | On an unchanging table n pages give exactly the first n * limit missed messages in order, and end exactly when that is all |
| History.HistoryComplete | backend/app/services/message_service.py:120-132 | n requests that follow `before` cursors, while what is below the first page's cursor stays as it is, come to the end if and only if the history at the first request fits n pages, and then the reversed concatenation of the pages is that history, sorted |
| History.HistoryUnderInserts | backend/app/services/message_service.py:120-132 | So it is while new messages arrive, each with a greater (created_at, id) than all that was there at the first request |
| ClientRecovery.AddAllExact | frontend/src/stores/chatStore.ts:38-47 | Adding messages keeps what is stored in place, stores each id exactly once, and leaves other conversations alone |
| ClientRecovery.Newest | frontend/src/hooks/useRealtimeChat.ts:10-17 | A listed message with no listed message after it; none only for the empty list |
| ClientRecovery.NewestIsLast | frontend/src/hooks/useRealtimeChat.ts:10-17 | It is the last listed of the messages with the greatest (created_at, id) |
| ClientRecovery.Client.Recover | frontend/src/hooks/useRealtimeChat.ts:27-39 | The page loop stores exactly what the walk of up to 20 pages of 100 from the newest known message returns, and nothing if none is known |
| ClientRecovery.RecoveryCompleteIff | frontend/src/hooks/useRealtimeChat.ts:31-38 | The client then knows all messages if and only if it already knew those not newer than its newest one and at most 2000 are newer |
| ClientRecovery.MergeExact | frontend/src/pages/ChatPage.tsx:156-167 | The merged view is strictly sorted and holds exactly the last copy of each message of either list, so its ids are their union, each once |
| ClientRecovery.MergeWithHistory | frontend/src/pages/ChatPage.tsx:156-167 | A complete history merged with later realtime messages is the sorted listing of both |
| Attachments.DeliveryIsImmutable | backend/app/services/attachment_service.py:101-114 | Whatever ETags uploads get: once finalized, an attachment's row, key and stored version stay what they are while its row exists, whatever is put to the staging key; a bound row and its message stay |
| Attachments.DownloadIsVerified | backend/app/services/attachment_service.py:86-138 | Whatever ETags uploads get: a bound attachment has been through one completion, and in every later state its download streams, from the objects namespace, the version that was staged at that completion's copy, which has the ETag of the version whose size and type were verified |
| Attachments.DeliveredBytes | backend/app/core/storage.py:75-89 | If equal ETags mean equal bytes, the download streams the bytes that were verified; it has the verified type if and only if the last upload between stat and copy, if any, has that type; and it streams the bytes that were scanned if and only if the last upload between stat and scan, if any, has the verified bytes |
| Attachments.FreshEtagsSuffice | backend/app/core/storage.py:75-89 | If every upload gets a new ETag, the download streams the very version that was verified and scanned |
| Attachments.SwapRuns | backend/app/services/attachment_service.py:86-106 | Any three versions occur as the verified, the scanned and the delivered one, as long as the last has the ETag of the first |
| Attachments.TypeSwapped | backend/app/services/attachment_service.py:86-106 | For any two types, a run whose ETags name bytes and whose download has a type that was not verified: the same bytes put again between stat and copy |
| Attachments.ScanSwapped | backend/app/services/attachment_service.py:86-106 | For any two uploads of different bytes and ETags, a run whose ETags name bytes and whose download streams the first while its scan read the second |
| Attachments.BoundOnce | backend/app/services/message_service.py:64-82 | In every interleaving an attachment belongs to at most one message for ever, and a message's attachments are distinct, finalized, its sender's and for its conversation |
| Attachments.CleanedStaysGone | backend/app/services/attachment_service.py:140-151 | For all settings within bounds, a never-completed row is cleaned up only after its upload URL expired, and its staging key stays empty in every later state |
| Attachments.RunGood | backend/app/services/attachment_service.py:77-151 | Every run keeps keys, completions, finalized objects, bindings and cleaned reservations consistent |
| Attachments.ParametersIgnored | backend/app/services/attachment_service.py:89 | White space around a content type and parameters after it do not change its base type |
| Attachments.CaseIgnored | backend/app/services/attachment_service.py:89 | The case of ASCII letters does not change it |
| Attachments.ParametersFit | backend/app/services/attachment_service.py:89-93 | An upload of the reserved size and type passes the checks, with whatever case, white space and parameters |
| Attachments.SpaceTable | backend/app/services/message_service.py:58 | White space is exactly Python's |
| AttachmentService.Service.CreateMessage | backend/app/services/message_service.py:49-91 | The exact condition of success and of each error, and on success the bound rows and the message |
| AttachmentService.Service.Complete | backend/app/services/attachment_service.py:77-123 | The errors before the scan exactly; a failed or refused scan, a failed copy and a change told apart by what the scan and the copy found; on success the copied object has the ETag of the version whose size and type were verified, what the scan read was clean unless scanning is off, and the staging object is gone unless its removal raised; no other delivery object changes |
| AttachmentService.Service.ScanAndCopy | backend/app/core/storage.py:75-89 | Copies what it finds only if the ETag is the verified one and a scan, when there is one, passed; uploads may come before each |
| AttachmentService.Service.ListAbandoned | backend/app/repositories/attachment_repository.py:41-49 | The oldest rows without a message, created before the cutoff and not locked, up to the limit; with fewer listed, every other unlocked row has a message or is younger |
| AttachmentService.Service.CleanupAbandoned | backend/app/services/attachment_service.py:140-151 | Deletes exactly the listed rows whose object could be removed, with their objects, and counts them |
| AttachmentService.RoundEffect | backend/app/services/attachment_cleanup.py:70-77 | A round shrinks the eligible set by what it deleted, and a short round without failures and locks empties it |
| Attachments.EligibleShrinks | backend/app/repositories/attachment_repository.py:41-49 | For a cutoff that has passed, no run of the attachment machine makes another row eligible |
| AttachmentService.Service.RunOnce | backend/app/services/attachment_cleanup.py:55-82 | Ends, whatever rows others lock and whatever removals fail in each round; returns the number of rows it deleted, all eligible for one cutoff; does nothing without the lock; frees only its own lock; and leaves nothing eligible unless rows were locked or removals failed; that is, every row left has a message or is younger than the pending time, and no deleted row had or was |
| AttachmentService.TrimmedBlank | backend/app/services/message_service.py:58 | Stripped content is empty exactly when all its characters are white space in Python's sense |
| DirectConversations.KeyIsThePair | backend/app/services/conversation_service.py:20-21 | Two pairs have the same key if and only if they are the same unordered pair |
| DirectConversations.SmallerFirst | backend/app/services/conversation_service.py:20-21 | The key is the smaller text, a colon and the larger text |
| DirectConversations.BeforeAtDifference | backend/app/services/conversation_service.py:20-21 | Smaller is lexicographic: the first difference decides, and a prefix comes first |
| DirectConversations.SamePairSameConversation | backend/app/services/conversation_service.py:39-61 | However creations race, two answered calls have the same conversation if and only if they were for the same two users, and its members are those two |
| DirectConversations.ConversationStore.CreateDirect | backend/app/services/conversation_service.py:31-61 | The exact condition of each error; otherwise the pair's conversation, new exactly when the pair had none, and one conversation per pair stays |

## Left out

- Redis unavailable, lost Pub/Sub messages, listener reconnects and the mixed local and distributed mode: the code makes no exact promise there. Presence, fan-out, typing and limits are modelled with the backend available, the manager also alone.
- The gap between the local table change and the Redis call in connect and disconnect (two separate awaits): the cluster takes each as one step.
- A maintenance iteration that raises: it skips its sweep, so neither LeaseContinuity, LeaseLostExactly nor CrashDetected covers it.
- ClusterRefinesManager: does not cover runs in which a heartbeat refreshes a user who left after it listed them, or an instance dies with sockets, because the statement is false there; RefreshExact and CrashDetected say what holds.
- SweepCoverage: does not cover a sweeper that dies, because the statement is false there; DyingSweeper gives the condition.
- NoMissedDelivery: takes each sweep, connect and disconnect as one step and sufficient timing, because without them the statement is false; SendMissesExactly gives the condition at the grain of single commands.
- LeaseContinuity: takes each sweep as one step, because with sweeps command by command the statement is false; LeaseLostExactly gives the condition.
- LeaseLostExactly: takes the local table change and the Redis call of a connect or disconnect as one step, as every cluster here does.
- CrashDetected: takes each sweep as one step and asks that no other instance is about to refresh the user, since such a refresh can lead to a second report; SoonDeserted bounds how long that can be. Sweepers interleaved command by command are the subject of SweepCoverage, DyingSweeper and SecondReport.
- PresenceDrain.ReportedOnce: takes each sweep as one step, because with sweeps command by command the statement is false; SecondReport gives the condition.
- PresenceDrain.BacklogDrains: counts sweeps of PresenceDrain as one step each, and asks that disconnects read their clock no earlier than the due time, since an earlier one can put a user back among the due.
- RealtimeBackend.SettleUser: takes the whole sequence for one user without interference; PresenceSweep has the interleavings.
- RealtimeBackend.SweepPresence: takes the whole sweep without interference; PresenceSweep has the interleavings.
- RealtimeBackend.MaintainIteration: leaves the typing sweep to Typing and takes the iteration without interference; PresenceCluster has the interleavings.
- RealtimeBackend.OnlineUserIds: reads the users without interference, although the pipeline is not a transaction; DeliveryCluster has the interleaved reads.
- ConnectionManager.Connect: does not include accepting the socket or the fallback when the Redis call raises.
- ConnectionManager.Disconnect: does not include the fallback when the Redis call raises.
- ConnectionManager.OnlineUserIds: does not include the fallback when the Redis call raises.
- ConnectionManager.SendToUsers: does not include local delivery after a failed publish.
- ConnectionManager.DeliverToUsersLocal: delivers to the users in turn; the code gathers them concurrently.
- HandleMessageSend: takes one clock value and sequential broadcasts, and the other refusals of a message are in CreateMessage; the interleavings are in DeliveryCluster and DeliverySweep.
- Complete: takes what other uploads do between its commands as any change to staging objects; which upload wins is the subject of Attachments.
- The machine in Attachments always scans; with scanning disabled the scanned version is nominal.
- HistoryComplete: assumes that messages below the first page's next cursor do not change between requests, which HistoryUnderInserts derives from inserts with greater keys; deletions and late commits with older times are not covered.
- CursorAccepted: is about the base64 stage; the bytes it yields must still be UTF-8, JSON and a time and an identifier.
- The JSON payload of a cursor, `isoformat` and UUID text: library code; a cursor is a list of bytes in Cursor and a (created_at, id) pair in History. An empty cursor counts as none, as in the code.
- Browser `localeCompare` on ISO text and JavaScript object order: messages are compared by (created_at, id).
- Overlapping marking transactions that both read a receipt before either commits: each service call is one transaction.
- Failed commits and crashes between an object-store call and the commit.
- DeliveredBytes: assumes that equal ETags mean equal bytes, which is the object store's concern; DownloadIsVerified assumes nothing about ETags.
- Messages created over REST: they neither broadcast nor mark receipts as delivered.
- Attachment names, allowed types and the size limit at reservation; file suffixes are taken as given.
- Lower-casing beyond ASCII letters.
- TypingTracker (the single-process fallback), the typing handlers and what follows a WebSocket's end: timers and thin sequences of parts proved here.
- Accounts, tokens, passwords, HTTP routing, logging, metrics, migrations and the user interface.
