# go-wst, verified

A Dafny model of the connection and message-log core of go-wst, with proofs about it. Every theorem is about all
inputs and all interleavings the model admits; nothing here is executed.

| file | models |
|---|---|
| `Bits.dfy`, `ModArith.dfy`, `Tally.dfy`, `NestedMap.dfy`, `Wrappers.dfy` | arithmetic on bits and remainders, counting, two-level maps, optional values |
| `ShardHash.dfy` | shard count and shard selection of the hub |
| `Sharded.dfy` | a map split over shards, and scans that visit shards one at a time |
| `Hub.dfy` | the hub: class, flat meaning, histories, overlapping scans |
| `Heartbeat.dfy` | the timeout sweep over the hub |
| `WsServer.dfy`, `WtServer.dfy` | the two protocol servers as transition systems |
| `WsHistory.dfy`, `WtHistory.dfy` | the same servers as functions of the steps taken: their states, and which step may come next |
| `Hybrid.dfy` | both servers composed with the hybrid registry |
| `MessageStore.dfy` | the stateless log, its server, pollers and the notification cursor |
| `Fallback.dfy` | protocol selection and statistics |
| `ChatRooms.dfy`, `ChatCalls.dfy` | the chat example's room index: calls as single steps, and calls taken apart and interleaved |

## How it is modelled

Code that one caller runs alone (hub, store, fallback manager, chat handler, heartbeat) is a class whose methods
update fields in place and are proved against a specification function. Concurrency is a
sequence of steps, each one atomic action of the code: a critical section, an atomic counter operation, a channel
operation, or a foreign call returning. A run is any sequence of enabled steps, so "in every run" means every
interleaving of any number of handlers, pumps, streams and application calls. A `select` with several ready
cases may take any of them, and its `default` only when none is ready. Map iteration picks any order.

Assumptions: connection IDs are unique in the server models (in the hub two objects may share an ID, and the
user-index law says where uniqueness is needed); integers other than the 32-bit hash and the 64-bit shard count are
unbounded; foreign calls (upgrade, authentication, reads, writes) succeed or fail arbitrarily; the context passed to a
`Send` is never cancelled; `Close` is one step; the calls a connection makes on the notification handler and, in
`ChatRooms`, on the chat handler come one after the other, as they do over WebSocket (`ChatCalls` drops that and
proves what it is worth); the hybrid registry's counter, which the code updates without synchronisation, is updated
atomically together with its map; the clock is a parameter.

## Where the code departs from its description

The code is what is modelled.

- `getShard` says FNV-1a, but starts from zero and folds runes (stateful/hub.go:48-53).
- `nextPowerOf2` is not always the next power of two; the exact condition is `ShardHash.NextPowerOf2`.
- `BindUser` never removes an older binding; `HubModel.BindingLaw` and `WsServer.CleanupLaw` say exactly what stays.
- `MaxConnections` in WebTransport is described as concurrent connections (wt/config.go:28); the code bounds the
  sessions of the server's whole lifetime (`WtServer.CounterLaw` to `WtServer.ServiceCanResume`).
- WebTransport never reports a disconnect, so the hybrid registry keeps every WebTransport session, and it also keeps
  WebSocket sessions whose OnConnect failed (`Hybrid.LeftoverLaw`, reached by `Hybrid.FinishedWtIsKept` and
  `Hybrid.RefusedWsIsKept`).
- An OnConnect that waits for its own send after 256 accepted messages waits until somebody closes the connection
  (`WsServer.SendDuringOnConnect`, `WsServer.OnConnectBlocksItself`, and the same for WebTransport).
- A WebTransport connection can be left open with nobody to drain it: after a failed write, when its session ends
  before the first stream, when the server was stopped while the session was on its way in, or when authentication
  failed (`WtServer.FreedIffNotStranded` is the exact law).
- A heartbeat sweep reads the activity time and closes the connection in two steps, so it can close a connection that has
  just become active (`Heartbeat.StillExpiredIff`, `Heartbeat.ActiveIsClosed`).
- The notification example keeps one cursor per connection, not per room; `MessageStore.SharedCursorLaw` says exactly when
  that loses or repeats nothing. It also moves the cursor past messages whose send failed
  (`MessageStore.RefusedSendLaw`).
- Joining a second chat room without leaving the first leaves the user in both (`ChatRooms.InverseIff`), and
  disconnecting then removes only the second (`ChatRooms.EntryRemovedIff`).
- The chat handler reads a connection's room before it takes its lock. With two streams on one WebTransport connection a
  leave can act on a room that is no longer the user's (`ChatCalls.StaleLeaveLosesUser`).
- `CleanupStaleClients` ignores its age argument.

## Model

| member | source | states |
|---|---|---|
| `ShardHash.NextPowerOf2` | stateful/hub.go:145-154 | the result is the least power of two at or above the argument exactly when the argument is at most 2^62 and, less one, has no run of 32 zero bits below its top bit; so always up to 2^32 |
| `ShardHash.SmearWindow` | stateful/hub.go:147-151 | the five shift-and-or updates set bit `i` exactly when one of bits `i..i+31` was set |
| `ShardHash.SmearFills` | stateful/hub.go:146-152 | they fill every bit below the top one if and only if no zero run is 32 long |
| `ShardHash.BoundIsTight` | stateful/hub.go:144-154 | at 2^32 + 1 the result is 2^33 - 1, not the next power of two, so 2^32 is the largest bound |
| `ShardHash.GetShardIndex` | stateful/hub.go:47-55 | the hashing loop computes the xor/multiply fold over runes, masked |
| `ShardHash.HashRecurrence` | stateful/hub.go:49-53 | the hash of the empty key is zero, and one more rune is folded in by xor and a multiplication by 16777619, modulo 2^32 |
| `ShardHash.ShardIndexIsFold` | stateful/hub.go:49-54 | with 2^k shards the masked 32-bit hash equals the same fold run modulo 2^k, and equals the hash modulo 2^k |
| `HubModel.HomeIsRemainder` | stateful/hub.go:24-34 | with a shard count computed from at most 2^32, the selected shard is the hash modulo the shard count |
| `ShardHash.RoundIsBijection` | stateful/hub.go:51-52 | each round is a bijection on k-bit words: an explicit inverse undoes it on both sides |
| `ShardHash.SuffixCancels` | stateful/hub.go:50-53 | a common suffix gives equal states exactly from equal states |
| `ShardHash.OneRuneApart` | stateful/hub.go:47-55 | two keys differing in one rune share a shard if and only if the two runes agree modulo the shard count |
| `ShardHash.DigitsSeparate` | stateful/hub.go:47-55 | decimal IDs differing in one digit are in different shards from 16 shards on |
| `Sharded.ScanNoDuplicates` | stateful/hub.go:120-142 | a shard-by-shard scan never lists a key twice, whatever changes between visits |
| `Sharded.ScanSound` | stateful/hub.go:120-142 | whatever is listed was present when its own shard was visited |
| `Sharded.ScanComplete` | stateful/hub.go:120-142 | a full scan lists every key present when its shard is visited |
| `Sharded.ScanCountBounds` | stateful/hub.go:120-128 | if nothing is deleted, the count lies between the sizes at the start and the end |
| `HubModel.StepRefines` | stateful/hub.go:58-92 | each critical section on the shards is the operation on one flat map with a flat binding relation, keeps every ID in its own shard and leaves no inner user map empty |
| `HubModel.HubRefinesFlat` | stateful/hub.go:24-92 | over every interleaving from `NewHub`, the sharded hub stands for the flat hub run on the same operations |
| `HubModel.BindingLaw` | stateful/hub.go:66-92 | with no hypothesis: a binding is present exactly when some bind made it and no later unregister of a connection carrying that user removed it |
| `HubModel.SingleBindingLaw` | stateful/hub.go:66-92 | if each connection has one non-empty user, set before it is indexed and never after unregister, the index is exactly the bound connections not yet unregistered |
| `HubModel.RebindingLeaksBinding` | stateful/hub.go:71-77 | a run in which a rebound connection leaves its first binding behind |
| `HubModel.TotalUsersBounds` | stateful/hub.go:170-188 | `TotalUsers` is the number of pairs of a shard and a user in it; distinct users <= `TotalUsers` <= total bindings |
| `HubModel.ForEachWhileChanging` | stateful/hub.go:120-142 | a full `ForEach` or `Count` overlapping any other steps repeats nothing, counts what it visits, and visits an ID exactly if it is registered when its shard is visited |
| `HubModel.RegisteredThroughout` | stateful/hub.go:120-142 | an ID registered from the first visit to the last is visited exactly once, one never registered meanwhile not at all |
| `HubModel.CountWhileGrowing` | stateful/hub.go:120-128 | with registrations only, size at start <= `Count` <= size at end |
| `HubModel.GetByUserWhileChanging` | stateful/hub.go:104-117 | an overlapped `GetByUser` repeats nothing and lists an ID exactly if it is bound to the user when its shard is visited |
| `HubModel.Hub.constructor` | stateful/hub.go:24-44 | a non-positive count becomes 32, then the least power of two, at most 2^32 if no more was wanted; all shards empty |
| `HubModel.Hub.Register` | stateful/hub.go:58-63 | adds the connection to the flat map and changes no binding |
| `HubModel.Hub.Unregister` | stateful/hub.go:66-80 | removes the ID from the flat map and the one binding its current user names |
| `HubModel.Hub.BindUser` | stateful/hub.go:83-92 | sets the user, adds the binding, removes none |
| `HubModel.Hub.Get` | stateful/hub.go:95-101 | looks up the flat map |
| `HubModel.Hub.GetByUser` | stateful/hub.go:104-117 | returns exactly the connections bound to the user, no ID twice |
| `HubModel.Hub.Count` | stateful/hub.go:120-128 | is the size of the flat map |
| `HubModel.Hub.ForEach` | stateful/hub.go:131-142 | visits distinct registered connections, all of them unless the callback refused the last |
| `HubModel.Hub.Stats` | stateful/hub.go:170-188 | per-shard numbers; total connections is the size of the flat map; total users is the number of pairs of a shard and a user in it, between distinct users and bindings |
| `Heartbeat.ClosedOnlyWhenExpired` | stateful/heartbeat.go:43-56 | before every close there is the same sweep's read of that connection, at which its activity time was more than `timeout` before the sweep's `now` |
| `Heartbeat.StillExpiredIff` | stateful/heartbeat.go:47-61 | what a sweep closes is still expired at that moment if and only if its activity was not updated between the sweep's read and its close |
| `Heartbeat.ActiveIsClosed` | stateful/heartbeat.go:47-61 | for every timeout, a run in which a connection active at that very moment is closed |
| `Heartbeat.SilentNeverClosed` | stateful/heartbeat.go:48-53 | a connection without `lastActivity` is never closed |
| `Heartbeat.SweepCloses` | stateful/heartbeat.go:43-56 | a complete sweep closes every expired connection that stays registered and quiet during it, whatever else happens meanwhile |
| `Heartbeat.ClosedWithinWindow` | stateful/heartbeat.go:28-56 | with sweeps at most `interval` apart, such a connection is closed by a sweep begun in (t+timeout, t+timeout+interval] |
| `Heartbeat.HeartbeatManager.CheckConnections` | stateful/heartbeat.go:43-56 | an undisturbed sweep closes exactly the registered connections that have expired |
| `Heartbeat.HeartbeatManager.UpdateActivity` | stateful/heartbeat.go:59-61 | records the time and closes nothing |
| `WsServer.ReachableInv` | ws/server.go:162-328 | the inductive invariant behind the laws below holds in every state of every run |
| `WsHistory.StateFromHistory` | ws/server.go:162-328 | in every run, the whole state (handlers, messages, callbacks, user IDs, tables, counter) is the stated function of the steps taken so far |
| `WsHistory.EnabledFromHistory` | ws/server.go:162-328 | in every reachable state, a step may happen exactly if the steps taken allow it, by rules that mention no state |
| `WsHistory.MessagesFromHistory` | ws/connection.go:96-105 | what was accepted is what was given to `Send`, in order; what is written is a prefix of it; callbacks carry the messages read |
| `WsHistory.TablesFromHistory` | ws/server.go:291-328 | registered connections, the users each is indexed under and the counter, from the steps taken |
| `WsHistory.RejectedIff` | ws/server.go:163-167 | a request is turned away for good if and only if there is a positive limit and at least as many connections are counted when it arrives |
| `WsHistory.FailedAuthentication` | ws/server.go:188-196 | a client that fails to authenticate is never registered nor reported; its handler only closes the connection, uncounts it and ends |
| `WsHistory.AuthenticatedIsIndexed` | ws/server.go:198-207 | a client authenticated as a user is indexed under that user by the time it is registered |
| `WsHistory.RegisteredIsAuthenticated` | ws/server.go:180-206 | with authentication on, whoever is registered has passed it |
| `WsServer.AdmissionLaw` | ws/server.go:162-207 | `connCount` is the number of handlers between increment and decrement; with at most W between check and increment, counter plus window <= limit - 1 + W |
| `WsServer.SerialAdmission` | ws/server.go:162-178 | one admission at a time never exceeds the limit |
| `WsServer.AdmissionBoundIsReached` | ws/server.go:162-178 | for every limit and every W some run reaches limit - 1 + W |
| `WsServer.NeverStranded` | ws/server.go:190-225 | past OnConnect the write pump runs or the connection is closed; every exit after the connection exists leaves it closed before it is unregistered |
| `WsServer.BlockedSenderFreed` | ws/connection.go:96-105 | a sender blocked on a full channel is freed by at most two moves of the connection's own pump |
| `WsServer.SendDuringOnConnect` | ws/server.go:205-224 | until OnConnect returns, a sender can proceed if and only if fewer than 256 messages were accepted or the connection is closed |
| `WsServer.OnConnectBlocksItself` | ws/server.go:208-213 | on a full open channel, no continuation in which OnConnect has not returned and nobody closed the connection lets a sender proceed |
| `WsServer.FullDuringOnConnect` | ws/server.go:205-224 | a run that reaches such a state, with that consequence |
| `WsServer.FifoConservation` | ws/server.go:266-287 | accepted = written ++ in hand or dropped ++ channel, at most 256 queued |
| `WsServer.NothingAfterFailedWrite` | ws/server.go:279-282 | once a write has failed nothing more is written |
| `WsServer.CallbackTraces` | ws/server.go:209-256 | callbacks are a prefix of connect-failed, or of connect-ok, messages, one disconnect; a finished session got its one disconnect |
| `WsServer.CleanupLaw` | ws/server.go:299-328 | after exit the tables forget a connection if and only if it was only ever bound to the user its unregister removed, and never later |
| `WsServer.RebindingLeaksEntry` | ws/server.go:311-355 | a run, for any two users, in which a finished handler's connection is still listed under the first |
| `WsServer.CleanupComplete` | ws/server.go:198-207 | which holds if its non-empty user never changes and no bind runs during or after unregister |
| `WtServer.ReachableInv` | wt/server.go:177-396 | the inductive invariant behind the laws below holds in every state of every run |
| `WtHistory.StateFromHistory` | wt/server.go:177-396 | in every run, the whole state is the stated function of the steps taken so far |
| `WtHistory.EnabledFromHistory` | wt/server.go:177-396 | in every reachable state, a step may happen exactly if the steps taken allow it |
| `WtHistory.MessagesFromHistory` | wt/connection.go:135-144 | accepted messages are those given to `Send`, written ones a prefix of them, all on the first stream that was set; callbacks carry the messages read |
| `WtHistory.RejectedIff` | wt/server.go:179-182 | a request is turned away for good if and only if there is a positive limit and the counter has reached it |
| `WtHistory.FailedAuthentication` | wt/server.go:201-206 | a client that fails to authenticate is never counted, inserted nor reported, and only the application ever closes its connection object |
| `WtServer.CounterLaw` | wt/server.go:214-216 | `connCount` = 2 x fully registered + between the two increments + finished |
| `WtServer.CountsLiveSessionsIff` | wt/config.go:28 | it is the number of live sessions if and only if no session has reached its second increment |
| `WtServer.LifetimeAdmissions` | wt/server.go:177-216 | sessions ever admitted plus those in the window <= limit - 1 + W |
| `WtServer.LifetimeBoundIsReached` | wt/server.go:177-216 | for every limit and every W some run admits limit - 1 + W |
| `WtServer.RejectionIsPermanent` | wt/server.go:179-182 | once as many as the limit were admitted, every later request is rejected |
| `WtServer.ServiceCanResume` | wt/server.go:177-216 | until then some continuation lets a new request pass |
| `WtServer.OneSessionExhaustsServer` | wt/server.go:237-259 | a limit of one is used up by one session that came and went, its connection still open |
| `WtServer.ResponseStreamLaw` | wt/connection.go:206-220 | `streamReady` is closed exactly when the response stream is set and at most once, all writes go to that stream, and the no-stream exit is unreachable |
| `WtServer.ResponseStreamIsFinal` | wt/connection.go:206-213 | the response stream never changes once set |
| `WtServer.FifoConservation` | wt/server.go:305-327 | as for WebSocket, on the response stream |
| `WtServer.NeverDisconnects` | wt/server.go:219-292 | callbacks are connect-failed, or connect-ok and messages; never a disconnect |
| `WtServer.NothingAfterFailedWrite` | wt/server.go:318-325 | once a write has failed nothing more is written |
| `WtServer.PumpGoneIffWriteFailed` | wt/server.go:305-327 | while the server runs, an open connection's pump has ended exactly when a write failed |
| `WtServer.FreedIffNotStranded` | wt/server.go:189-327 | in every reachable state with a full, open channel: some continuation in which nobody else closes the connection, and foreign calls return either way, frees a sender if and only if the pump has not ended, authentication did not fail, and the pump does not wait for a first stream with none pending and an accept loop that is over or at its head on a stopped server |
| `WtServer.StrandedForEver` | wt/connection.go:135-144 | a stranded sender stays blocked in every state of every such continuation |
| `WtServer.FailedWriteStrandsSenders` | wt/server.go:322-325 | a run that strands senders by a failed write, never freed |
| `WtServer.NoStreamStrandsSenders` | wt/server.go:244-249 | a run that strands them with no failed write, by ending before the first stream, never freed |
| `WtServer.StopStrandsSenders` | wt/server.go:237-240 | a run that strands them by a `Stop` while the session is on its way in, never freed |
| `WtServer.SendDuringOnConnect` | wt/server.go:219-234 | until OnConnect returns, a sender can proceed if and only if fewer than 256 messages were accepted or the connection is closed |
| `WtServer.OnConnectBlocksItself` | wt/server.go:219-223 | on a full open channel, no continuation in which OnConnect has not returned and nobody closed the connection lets a sender proceed |
| `WtServer.FullDuringOnConnect` | wt/server.go:219-234 | a run that reaches such a state, with that consequence |
| `Hybrid.RegistryLaw` | hybrid/server.go:397-430 | outside running callbacks the registry holds exactly the WebSocket sessions between OnConnect and OnDisconnect, those refused by OnConnect, and every WebTransport session that reached OnConnect; its counter is its size |
| `Hybrid.HeldOnlyWhileInWs` | hybrid/server.go:397-410 | a connected WebSocket session is there only while also in the WebSocket server's table |
| `Hybrid.LeftoverLaw` | hybrid/server.go:238-263 | with everything finished the registry is empty if and only if no WebSocket OnConnect failed and no WebTransport session reached OnConnect |
| `Hybrid.FinishedWtIsKept` | hybrid/server.go:412-430 | a composed run in which a WebTransport session connects and ends, and the registry keeps it |
| `Hybrid.RefusedWsIsKept` | hybrid/server.go:397-405 | a composed run in which OnConnect refuses a WebSocket session, and the registry keeps it |
| `MessageStore.MemoryStore.Fetch` | stateless/store.go:28-48 | returns the slice after the cursor: at most `limit` messages, or one if the limit is below one |
| `MessageStore.MemoryStore.Store` | stateless/store.go:58-72 | appends with the next ID; IDs stay 1..n |
| `MessageStore.MemoryStore.Clear` | stateless/store.go:75-80 | forgets one user's log and numbering |
| `MessageStore.MemoryStore.ClearAll` | stateless/store.go:83-88 | forgets everything |
| `MessageStore.Server.Fetch` | stateless/server.go:36-41 | a non-positive limit means the batch size |
| `MessageStore.Server.Send` | stateless/server.go:44-53 | appends one message of type "message" with the next ID |
| `MessageStore.PageMeaning` | stateless/store.go:37-47 | the slice is exactly the messages after the cursor, in order, cut only by the limit |
| `MessageStore.ExactlyOnce` | stateless/store.go:28-72 | for every interleaving of stores and polls by any number of pollers, the pages of a poller put together are its log from where it started to its cursor |
| `MessageStore.PagesAreAPrefix` | example/notification/main.go:67-90 | from an empty store the pages are a prefix of the log |
| `MessageStore.ClearHidesMessages` | stateless/store.go:75-80 | after a clear, a poller at cursor c never receives the next c messages |
| `MessageStore.DrainsInExactly` | stateless/store.go:37-47 | m pending messages are drained after k polls if and only if k >= ceil(m / max(1, limit)) |
| `MessageStore.Session.Fetch` | example/notification/main.go:67-90 | page of 100 from the given or remembered cursor, one step of the session model; the cursor moves even past sends that failed |
| `MessageStore.Session.Post` | example/notification/main.go:92-99 | the store step of the session model, with a message of type "text" |
| `MessageStore.SharedCursorLaw` | example/notification/main.go:67-90 | over every session of stores and fetches from any rooms: what was received from each room is a prefix of its log in every state if and only if every fetch with something to return starts right after what the session has from that room |
| `MessageStore.OneRoomIsSafe` | example/notification/main.go:67-90 | which holds if it fetches from one room only, from its cursor |
| `MessageStore.AcceptedExactly` | example/notification/main.go:77-81 | the client is sent exactly the fetched messages whose send succeeded, as often as they were fetched |
| `MessageStore.RefusedSendLaw` | example/notification/main.go:77-88 | over a session whose fetches are in place, what the client was sent is a prefix of each room's log in every state if and only if nothing is accepted after something refused |
| `MessageStore.SecondRoomLosesMessage` | example/notification/main.go:69-90 | a session that reads a second room and is handed its second message without its first |
| `Fallback.CountIsHistory` | hybrid/fallback.go:99-102 | a stored count is the number of fallbacks since the client was last reset or the map wiped |
| `Fallback.AutoSelection` | hybrid/fallback.go:72-96 | WebTransport is chosen exactly if supported, available and that number is below the retry limit |
| `Fallback.StatsAreHistory` | hybrid/fallback.go:99-126 | each statistic is the number of recorded events of its kind |
| `Fallback.ConnectionTotals` | hybrid/fallback.go:115-126 | total = WebSocket + WebTransport + anything recorded under another name |
| `Fallback.FallbackTotals` | hybrid/fallback.go:99-112 | stored counts sum to at most the fallbacks tallied plus those still between the two updates; failures <= fallbacks |
| `Fallback.FallbackManager.SelectProtocol` | hybrid/fallback.go:50-69 | WebSocket mode gives WebSocket; WebTransport mode gives WebTransport exactly if the client supports it; automatic mode also needs a server and a count below the retry limit; any other mode gives WebSocket |
| `Fallback.FallbackManager.RecordFallback` | hybrid/fallback.go:99-112 | both updates |
| `Fallback.FallbackManager.RecordConnection` | hybrid/fallback.go:115-126 | total and the protocol's own count |
| `Fallback.FallbackManager.ResetFallbackCount` | hybrid/fallback.go:165-169 | forgets one client |
| `Fallback.FallbackManager.CleanupStaleClients` | hybrid/fallback.go:172-183 | wipes the map above 10000 clients, whatever their age |
| `ChatRooms.AlwaysConsistent` | example/internal/chat/handler.go:74-189 | with whole calls as steps, in every run no room is empty and whoever has a room is in it |
| `ChatRooms.InverseIff` | example/internal/chat/handler.go:105-189 | with whole calls as steps, the two maps are inverse in every state if and only if every join finds its user in no other room and every leave acts on its user's room |
| `ChatRooms.DisciplinedRun` | example/internal/chat/handler.go:105-189 | which holds if, besides, each named user belongs to one connection and joins only while in no room |
| `ChatRooms.DisconnectedInNoRoom` | example/internal/chat/handler.go:74-94 | a disconnected user is then in no room |
| `ChatRooms.EntryLaw` | example/internal/chat/handler.go:74-182 | from the calls alone: a user is in a room exactly if some join put the user there and nothing has taken the user out since, and the entry names the connection of the last such join |
| `ChatRooms.SecondJoinLeavesGhost` | example/internal/chat/handler.go:116-121 | a second join without leaving keeps the user in the first room after it disconnects |
| `ChatRooms.ChangeRemovesIff` | example/internal/chat/handler.go:74-182 | a critical section takes a user out of a room exactly if it exits that user from that room, whenever the room was read, or removes the user while it is the user's room |
| `ChatRooms.EntryRemovedIff` | example/internal/chat/handler.go:74-182 | with whole calls as steps: a leave from a connection whose room it is, or a disconnect while it is the user's room |
| `ChatCalls.InterleavedConsistent` | example/internal/chat/handler.go:74-182 | however the calls are interleaved, no room is empty and whoever has a room is in it |
| `ChatCalls.InterleavedInverseIff` | example/internal/chat/handler.go:74-182 | the two maps are inverse in every state if and only if, whenever a call takes the lock, the user and room it read before still fit |
| `ChatCalls.SerialIsAtomic` | example/internal/chat/handler.go:74-182 | if the calls on each connection come one after the other, every interleaving has at every moment the maps of the whole-call model on the same calls in lock order |
| `ChatCalls.SerialDisciplinedRun` | example/internal/chat/handler.go:105-182 | so the join discipline keeps the maps inverse in such runs |
| `ChatCalls.StaleLeaveLosesUser` | example/internal/chat/handler.go:163-182 | a run with two streams of one connection, in which every join finds its user in no room and a user ends in a room with no entry in the other map |
| `ChatRooms.Handler.HandleJoin` | example/internal/chat/handler.go:105-122 | the join step |
| `ChatRooms.Handler.HandleLeave` | example/internal/chat/handler.go:163-182 | the leave step |
| `ChatRooms.Handler.OnDisconnect` | example/internal/chat/handler.go:74-94 | the disconnect step |
| `ChatRooms.Handler.BroadcastTargets` | example/internal/chat/handler.go:191-209 | each connection is a target exactly as often as there are members of the room it stands for |

## Left out

- The `Connection` and `Server` types of ws and wt are modelled on values inside the transition systems, not as classes; update in place is what their atomic steps stand for, and aliasing between connection objects is not modelled.
- The WebTransport and hybrid user indexes, which run the same code as the WebSocket one: only the latter is modelled.
- `Broadcast`, `BroadcastTo` and `SendTo` appear only as the individual `Send` steps they make; the read lock `Broadcast` holds while it sends is not modelled.
- Stopping a protocol server that has not yet received a request: the stop step names one.
- The calls from the hybrid wrappers to the fallback statistics, and the lost updates that unsynchronised changes of the hybrid counter allow.
- `ShouldFallback` and the unused fallback handler: single decisions and a timer.
- Keys that are not valid UTF-8: Go folds their bytes as replacement runes, while a Dafny string already consists of runes.
- HTTP upgrade, TLS, QUIC set-up, WebSocket framing, authenticators, JSON, logging, metrics, configuration defaults: foreign code or plumbing.
- Buffer pool, codec and example programs other than the chat handler and the notification fetch: they would only add easy members.
- Real time, Go's memory model and goroutine scheduling fairness.
