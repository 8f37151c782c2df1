# Bundle broadcaster: a verified model

The bundle broadcaster receives bundles from trading bots over WebSocket, fans each one out to a set of block
builders ("relays"), simulates it, and writes one tracking record per accepted bundle and builder. This project models
the stateful parts of that program in Dafny and proves what they keep over every run and every interleaving.

| part | files | what is modelled |
|---|---|---|
| tracker (`tracker.go`) | `Tracker*.dfy`, `Folding.dfy` | the goroutine that joins builder hashes with simulation results: two bounded channels, the two-level `pending` map, the simulation cache with its own eviction deadline, the builders' files, `select` in any order, map iteration in any order |
| queue and shutdown (`ws_server.go`, `relay_manager.go`, `main.go`) | `Broadcast*.dfy` | connection handlers, the bounded queue, 64 workers, the relay goroutines and the simulation of each fan-out, both WaitGroups, `Shutdown` and the end of `main`, as a step relation |
| relay client (`relay_client.go`) | `RelayAttempts.dfy`, `RelayClient.dfy`, `RelayCooldown.dfy` | the 429 gate, the retry loop, the three outcome counters, the recorded hash; one call at a time as an object, overlapping calls as a step relation |
| amounts (`simulator.go`, `relay_client.go`) | `WeiRounding.dfy`, `WeiText.dfy`, `SimForward.dfy` | hexadecimal wei to ETH text: parsing, the binary quotient, rounding to nine decimals; when a simulation is forwarded |
| reconnecting client (`client/client.go`) | `ReconnectingClient.dfy` | one connection behind a mutex, as an object for one caller and as a step relation for many |
| refund defaults (`relay_manager.go`) | `RefundMerge.dfy`, `Bundles.dfy` | the merge of configured refund fields into a bundle, and the fan-out of the result |

## How the model is built

* The tracker has two layers. `TrackerLoop` is the meaning: a machine over loop events (a hash arrives, a simulation
  arrives, a flush) that carry the clock readings made while they are handled, with a flat `pending` map keyed by
  (bundle, builder). A policy switches eviction or the copy made at flush off, which gives the two reference trackers it
  is compared with. `TrackerSystem` puts the two channels and the producers around it. `TrackerObject.Tracker` is the
  program: nested maps changed in place, nested loops that pick any remaining key. Its `Valid()` says that the
  fields are the last state of a possible trace of `TrackerSystem`; every method keeps it and names the action it adds,
  so every theorem about traces is a theorem about the object.
* The order of writes inside a flush is a parameter of the flush event; theorems hold for every order. Clock readings are
  arbitrary integers that never go back. Whether a file opens and whether a line is written are arbitrary answers.
* The step relations (`BroadcastQueue`, `RelayCooldown`, the second half of `ReconnectingClient`) make one
  access to shared state one step. Where Go would panic (a send on a closed channel, a write through a nil connection)
  the step exists and leads to an explicit crashed state.
* `Folding` gives order-independent sums over finite maps; conservation statements are equations between multisets of
  whole events or bundles, not counts.

## Where the code and its documentation differ

The model follows the code. Each point below is a lemma.

* `tracker.go:118` says `Stop` flushes all pending records to disk. It closes a channel; the loop's last flush writes
  what is in `pending` and never empties the event channel. `AfterStopOnlyTheChannelIsLeft` is what holds,
  `StopCanLeaveEventsBehind` a run that leaves an accepted event unwritten.
* `tracker.go:145-147` and `DOCS.md:232` say that late hashes are still enriched for 30 seconds. That is
  `PromptRunsHaveNoStaleHash` with `WrittenRecordsCarryLatestSim`. The exact condition under which eviction never
  shows in the tracker's state is `RefinesNeverEvictingIff`, and the one under which it never shows in what is written is
  `WritesAgreeIff`; `BlankLineCanBeWritten` is a run in which it does.
* `relay_manager.go:89-90` says bot-supplied values always take precedence. An explicit `false`, empty text or empty list
  is indistinguishable from an absent one after decoding and is overridden: `BotWinsIff`.
* `simulator.go:289-290` speaks of hexadecimal text; text without a prefix is parsed in base 16 too, so an amount
  written in decimal is read as a larger one exactly when it has two digits or more: `DecimalAmountIsMisreadIff`.
  Accuracy statements are about the value the code parses.
* `DOCS.md:264` and `DOCS.md:284` say the rate-limited counter counts skipped bundles. The call that met the 429 is
  counted there too (`relay_client.go:193`), and `EveryCallIsCounted` needs that.
* `main.go:133` announces a graceful shutdown. What `Shutdown` returning nil guarantees is `ShutdownNilIsABarrier` and
  `ShutdownNilSettles`. Bundles still queued can be abandoned, exactly when there are any (`AbandonedIff`), and after a
  timeout a hash can reach the tracker after it was told to stop, exactly under the condition of `LateHashIff`. A
  simulation can even after a nil return (`LateSimIff`, `SimCanComeLate`): neither WaitGroup counts it and it does not
  use the cancelled context. What is queued at the cancel reaches no relay (`NothingQueuedAtCancelIsSent`).
* `relay_client.go:191-192` reads the clock before it stores the deadline, so two overlapping 429s can move the deadline
  back: `StoreLowersIff`, `DeadlineCanGoBack`.
* `client/client.go:64-65` says a call reconnects and retries. It can instead write through nil: `NilAfterRereadIff` gives
  the exact condition, `CloseInBetweenPanics` a run.

## Model

| member | source | states |
|---|---|---|
| `TrackerTypes.NewRecord` | tracker.go:239-247 | a fresh record carries its hash event and its time stamp and no simulation values |
| `TrackerTypes.CacheEntry` | tracker.go:264-272 | a cache entry carries the simulation's six values and its receipt time |
| `TrackerTypes.Enrich` | tracker.go:197-204 | enriching sets the six simulation values to the cached ones and changes nothing else |
| `TrackerTypes.RecordDetermined` | tracker.go:15-35 | a record is determined by its hash event, time stamp and simulation values |
| `TrackerLoop.FlushAllFilters` | tracker.go:191-211 | writing any distinct pending entries in any order removes exactly those, hands each over once in visiting order with the values the cache held at the start, and changes neither cache nor log |
| `TrackerLoop.FlushFilters` | tracker.go:189-219 | one flush, for every map iteration order: `pending` becomes the entries younger than 2 s (none when forced), as many writes as there were expired entries, and the cache keeps exactly what is at most 30 s old |
| `TrackerLoop.VisitedAreGone` | tracker.go:205-206 | at every point of a flush, what has been visited is what has left `pending` |
| `TrackerLoop.LegalAt` | tracker.go:229-289 | each event of a run was possible in the state the run had then reached, and nothing follows the forced flush |
| `TrackerCache.AlwaysCoherent` | tracker.go:235-284 | in every reachable state each entry's record matches its two keys, and a bundle in both maps has exactly the cached values in all its entries |
| `TrackerCache.ReenrichmentIsRedundant` | tracker.go:196-204 | dropping the copy made inside `flush` changes the state of no run at all |
| `TrackerCache.CacheIsHistory` | tracker.go:213-218 | after any run the cache holds the latest simulation of each bundle that has one, except those that a flush found more than 30 s old |
| `TrackerLimits.PrefilledIff` | tracker.go:235-261 | in every run a hash is pending with its own fields and, field by field, the values of its bundle's latest simulation, unless there is none or a flush since read a clock more than 30,000,000,000 ns past it; then the six fields are empty |
| `TrackerLimits.PromptHashIsPrefilled` | tracker.go:145-147 | in every possible run a hash taken at most 30,000,000,000 ns after its bundle's latest simulation is pending with exactly its values |
| `TrackerLimits.SavedIff` | tracker.go:158-186 | of the writes of a flush exactly those are saved that were answered well, to a file open before or opened by then; opened files stay open |
| `TrackerLimits.HashDroppedIff` | tracker.go:100-107 | in every interleaving a hash offered is queued if and only if fewer than 1024 wait and dropped if and only if 1024 do |
| `TrackerLimits.SimDroppedIff` | tracker.go:111-116 | the same for simulations |
| `TrackerCache.NoStaleHashAgrees` | tracker.go:235-284 | a run that takes no hash whose non-blank simulation was evicted ends with the pending entries, writes, files and overwritten events of the tracker that never evicts |
| `TrackerCache.RefinesNeverEvictingIff` | tracker.go:189-284 | the tracker and the one that never evicts agree after every event of a run if and only if the run takes no such stale hash |
| `TrackerCache.PromptRunsHaveNoStaleHash` | tracker.go:145-147 | if each hash is handled at most 30 s after the latest simulation of its bundle, or none has come, the run takes no stale hash |
| `TrackerWitness.EvictionCanShow` | tracker.go:213-221 | outside that regime, in a concrete run with a flush every 500 ms, a hash taken 31.2 s after its simulation waits with blank simulation fields where the tracker that never evicts holds the simulation |
| `TrackerStale.WritesAgreeIff` | tracker.go:189-284 | the tracker and the one that never evicts hand the same entries to the writer, with the same success, if and only if no flush writes a key under which a stale hash still waits, neither replaced by a later hash nor made up for by a later simulation |
| `TrackerStale.FlushAllTwins` | tracker.go:191-211 | a flush by both from states that differ only under tainted keys writes the same entries if and only if it visits no tainted key |
| `TrackerWitness.TicksIdle` | tracker.go:189-221 | from any run that is on time, any number of ticks that find nothing expired write nothing, keep `pending`, and leave only simulations at most 30 s old in the cache |
| `TrackerWitness.BlankLineCanBeWritten` | tracker.go:189-221 | a concrete run with a flush every 500 ms writes, and saves, a blank record of a bundle whose simulation had come |
| `TrackerCache.NeverOutdated` | tracker.go:189-284 | with any timing, a written record carries the latest simulation processed before the flush that wrote it, or blank fields, never an older simulation |
| `TrackerCache.WrittenRecordsCarryLatestSim` | tracker.go:189-284 | in a run without stale hashes every written record carries the latest simulation of its bundle, blank only if there is none |
| `TrackerOrder.WritesFollowWatermark` | tracker.go:189-211 | in every run everything written by an earlier flush was received and stamped before everything written by a later one, one flush writes no (bundle, builder) twice, and only the forced flush writes before 2 s |
| `TrackerOrder.SameKeyInReceiptOrder` | tracker.go:173-186 | records of one bundle and builder are handed to the writer in the order they were received |
| `TrackerOrder.FlushesRetain` | tracker.go:189-219 | if flushes are at most P apart, at each flush what stays pending is younger than 2 s, what stays cached is at most 30 s old, and nothing was written at age 2 s + P or more |
| `TrackerOrder.RetentionIsBounded` | tracker.go:190-221 | if flushes are at most P apart, nothing is written at age 2 s + P or more; and at any moment at which the next flush is not overdue nothing pending is that old and no cached simulation is older than 30 s + P |
| `TrackerOrder.FilesHoldSavedLines` | tracker.go:158-186 | each builder's file is exactly the successful writes for that builder, in write order |
| `TrackerOrder.FilesAreUnmixed` | tracker.go:158-186 | no file holds another builder's record |
| `TrackerLedger.HashesAreConserved` | tracker.go:235-261 | hash events taken are, as a multiset of whole events, those pending, those overwritten by a later event for the same bundle and builder, and those handed to the writer |
| `TrackerLedger.NothingWaitsAfterStop` | tracker.go:231-233 | after the forced flush `pending` is empty and every event taken was handed over or overwritten |
| `TrackerConfluence.HashSimCommute` | tracker.go:235-284 | taking a hash and a simulation in either order gives the same maps, time stamps erased, of the same bundle or not |
| `TrackerConfluence.HashesFirst` | tracker.go:229-289 | any interleaving without a flush ends where taking all hashes first, then all simulations, ends |
| `TrackerConfluence.InterleavingsAgree` | tracker.go:229-289 | two runs between flushes with the same hash order and the same simulation order end with the same `pending` and cache, time stamps erased |
| `TrackerSystem.ChannelsAreQueues` | tracker.go:100-116 | in every state of every interleaving what each channel accepted is what the loop took, in order, followed by what waits, at most 1024, and the loop's own run is a legal one |
| `TrackerSystem.OfferedHashesAreConserved` | tracker.go:100-107 | hash events offered are those dropped on a full channel, in the channel, pending, overwritten, or handed to the writer |
| `TrackerSystem.AfterStopOnlyTheChannelIsLeft` | tracker.go:231-233 | once the forced flush ran, the only accepted events neither written nor overwritten are the at most 1024 in the channel |
| `TrackerSystem.StopCanLeaveEventsBehind` | tracker.go:118-121 | for any event there is a run that accepts it, stops, and never writes it |
| `TrackerMaps.FlatPut` | tracker.go:236-261 | storing under two keys is one update of the flat map, whether or not the bundle was there |
| `TrackerMaps.FlatDelete` | tracker.go:206 | deleting from an inner map deletes exactly that key of the flat map |
| `TrackerMaps.FlatEnrich` | tracker.go:275-284 | enriching one bundle's inner map enriches exactly that bundle |
| `TrackerMaps.FlatUnexpired` | tracker.go:191-211 | filtering bundle by bundle and dropping emptied bundles removes exactly the expired entries |
| `TrackerObject.Tracker.constructor` | tracker.go:84-94 | a new tracker is the start of a possible trace |
| `TrackerObject.Tracker.RecordHash` | tracker.go:100-107 | queues the event if there is room, drops it if not, and changes nothing else |
| `TrackerObject.Tracker.RecordSim` | tracker.go:111-116 | the same for simulations |
| `TrackerObject.Tracker.Stop` | tracker.go:119-121 | closes the done channel and does nothing else; calling it twice would panic |
| `TrackerObject.Tracker.GetFile` | tracker.go:158-171 | opens a builder's file once; a failed open leaves the table as it was |
| `TrackerObject.Tracker.WriteRecord` | tracker.go:173-186 | appends one line to the file of the record's own builder if open and write succeed, otherwise appends nothing |
| `TrackerObject.Tracker.Fill` | tracker.go:198-203 | the six assignments set the six values and keep the rest |
| `TrackerObject.Tracker.MakeRecord` | tracker.go:239-257 | the record of a hash event is pre-filled exactly when its bundle is cached |
| `TrackerObject.Tracker.TakeHashEvent` | tracker.go:235-261 | the in-place update of the nested map is the flat update under (bundle, builder), a replaced event is accounted as overwritten, no inner map is left empty, and the clock readings are in order |
| `TrackerObject.Tracker.TakeSimEvent` | tracker.go:263-284 | the cache entry is replaced and exactly the bundle's pending records are enriched with it |
| `TrackerObject.Tracker.EnrichBuilders` | tracker.go:276-283 | the loop over a bundle's builders, in any order, enriches each entry once and keeps receipt times |
| `TrackerObject.Tracker.WriteEntry` | tracker.go:196-206 | one entry is enriched, written and deleted from its inner map, as one write of the flat machine |
| `TrackerObject.Tracker.FlushBuilders` | tracker.go:192-207 | the inner delete-while-iterating loop leaves exactly the bundle's unexpired entries and makes exactly the corresponding writes |
| `TrackerObject.Tracker.FlushBundle` | tracker.go:191-210 | a bundle with nothing left is dropped from the outer map |
| `TrackerObject.Tracker.WriteExpired` | tracker.go:190-211 | both loops together visit exactly the expired entries, each once, for every choice of remaining key, and leave no inner map empty |
| `TrackerObject.Tracker.Evict` | tracker.go:213-218 | a cached simulation stays, unchanged, if and only if it is at most 30,000,000,000 ns old |
| `TrackerObject.Tracker.FlushAndEvict` | tracker.go:189-219 | `flush` on the nested maps is one legal flush event of the machine, with its two clock readings in order |
| `TrackerObject.Tracker.ReceiveHashEvent` | tracker.go:235-261 | takes the channel's head, and the object stays on a possible trace |
| `TrackerObject.Tracker.ReceiveSimEvent` | tracker.go:263-284 | the same for the simulation channel |
| `TrackerObject.Tracker.FlushPending` | tracker.go:231-233 | a flush, forced exactly when the goroutine returns, keeps the object on a possible trace |
| `TrackerObject.Tracker.Select` | tracker.go:229-288 | any ready case adds exactly its one action: the done case, possible only after `Stop`, always makes the forced flush, ends the loop and leaves `pending` empty; no other case ends it, and a tick flushes without force |
| `TrackerObject.Tracker.RunWithProducers` | tracker.go:100-290 | after any interleaving of producers, `Stop` and the loop every hash event offered is accounted for, and `pending` is empty once the loop returned |
| `BroadcastQueue.Start` | ws_server.go:53-59 | the state all runs start from: 64 workers, numbered 0 to 63, all idle, each counted in the WaitGroup |
| `BroadcastQueue.RunConserves` | ws_server.go:61-127 | in every state of every interleaving each bundle received is in one place, the queue is first in first out, and what left it is held by one worker or finished |
| `BroadcastQueue.EveryBundleIsAccountedFor` | ws_server.go:114-125 | bundles received = dropped at shutdown + dropped on a full queue + lost to the closed channel + at a handler + queued + at a worker + finished, as multisets; never more than 4096 queued; dequeue order is enqueue order |
| `BroadcastHandlers.SendGoesByTheQueue` | ws_server.go:121-125 | in every run a send on the open channel queues the bundle if and only if fewer than 4096 are queued and drops it as full if and only if 4096 are; on the closed channel, and only there, the bundle is lost and the handler panics |
| `BroadcastHandlers.LoadGoesByTheFlag` | ws_server.go:116-119 | in every run a loaded flag drops the bundle at shutdown if and only if it was stored before; otherwise the handler goes on to send |
| `BroadcastHandlers.NothingElseDrops` | ws_server.go:114-125 | no other step queues, drops or loses a bundle |
| `BroadcastHandlers.RunPhase` | ws_server.go:129-132 | flag, context and channel are set exactly by the three steps of `Shutdown`, in that order |
| `BroadcastHandlers.AllServeUntilCancelled` | ws_server.go:61-75 | until the context is cancelled none of the 64 workers has exited |
| `BroadcastHandlers.IdleWorkersTake` | ws_server.go:68-72 | until then any worker that is not broadcasting can take the head of the queue |
| `BroadcastShutdown.NothingLostBeforeClosing` | ws_server.go:129-132 | no bundle is lost to a closed channel before `close(s.queue)` |
| `BroadcastShutdown.LostAreThoseBetweenCheckAndSend` | ws_server.go:116-132 | the bundles lost to the closed channel, plus those about to be, are at any later moment exactly those handlers held between loading `closed` and sending when it was closed |
| `BroadcastShutdown.AtMost64Broadcasts` | ws_server.go:53-75 | at most 64 bundles are broadcast at any moment |
| `BroadcastShutdown.BroadcastWaitsForAllRelays` | relay_manager.go:125-133 | a worker goes on only when every relay goroutine of its fan-out was started and has returned |
| `BroadcastShutdown.ShutdownNilIsABarrier` | ws_server.go:129-144 | if `Shutdown` returned nil, every worker has exited, no worker or relay step is possible any more, and no hash is recorded after the tracker is stopped; simulations are not covered |
| `BroadcastShutdown.LateHashMeansTimeout` | main.go:138-147 | a hash recorded after the tracker was stopped implies that `Shutdown` returned an error; the exact condition is `BroadcastEndings.LateHashIff` |
| `BroadcastEndings.LateHashIff` | main.go:138-147 | in any run whose context is cancelled, a hash recorded after the tracker was stopped lies ahead if and only if a relay request begun before the cancel has not ended (or it has happened already); later requests fail and record nothing |
| `BroadcastEndings.NoHashFollows` | relay_client.go:136-167 | once no such request is under way, none ever is again and no hash is recorded, in every continuation |
| `BroadcastEndings.TimeoutLetsAHashComeLate` | main.go:138-147 | while one is under way, some continuation stops the tracker first and then records its hash |
| `BroadcastEndings.HashCanComeLate` | main.go:138-147 | with at least one relay there is a run from the start, its request begun before the shutdown, in which a hash comes late |
| `BroadcastEndings.AttemptsAreLogged` | ws_server.go:68-72 | every relay request is for the bundle its worker took, at that bundle's place in the order of queueing |
| `BroadcastEndings.NothingQueuedAtCancelIsSent` | ws_server.go:71 | in every run all relay requests ever made are for bundles dequeued before the context was cancelled: what is queued then, or later, reaches no relay, even if a worker takes it and its broadcast ends |
| `BroadcastEndings.LateSimIff` | simulator.go:93-163 | in any run whose channel is closed, a simulation recorded after the tracker was stopped lies ahead if and only if a simulation is running, or a bundle is queued and a worker has not exited (or it has happened already) |
| `BroadcastEndings.SimOutlivesShutdown` | relay_manager.go:120-123 | from every waiting state in which that holds some continuation has `Shutdown` return nil, the tracker stopped, and then a simulation recorded |
| `BroadcastEndings.SimCanComeLate` | simulator.go:93-163 | there is a run from the start in which a simulation comes late although `Shutdown` returned nil |
| `BroadcastEndings.BundleCanBeLost` | ws_server.go:116-132 | there is a run from the start in which a bundle is lost to the closed channel and its handler panics |
| `BroadcastShutdown.ShutdownNilSettles` | ws_server.go:129-144 | after a nil return what left the queue is exactly the bundles whose broadcast returned, and the rest is still in the queue |
| `BroadcastEndings.QueueCanBeAbandoned` | ws_server.go:61-75 | from every waiting state, whatever the workers are doing, there is a continuation to a nil return that leaves the queue untouched |
| `BroadcastEndings.AbandonedIff` | ws_server.go:129-144 | a nil return with bundles left in the queue is possible if and only if the queue is not empty when `Shutdown` begins to wait |
| `BroadcastEndings.BundleCanBeAbandoned` | ws_server.go:129-144 | there is a run from the start in which an accepted bundle is never sent although `Shutdown` returned nil |
| `BroadcastShutdown.DrainIsBounded` | ws_server.go:61-75 | once the channel is closed, every worker step lowers a measure that no other step raises, so the workers make at most that many steps whichever ready case `select` takes |
| `BroadcastShutdown.DrainMakesProgress` | ws_server.go:61-75 | while a worker has not exited, it has a possible step other than taking another bundle |
| `BroadcastShutdown.DrainedMeansExited` | ws_server.go:133-143 | when no worker step is left, the WaitGroup is at zero |
| `RelayAttempts.IsRetryableConnError` | relay_client.go:205-223 | the loop decides exactly whether the error is a network operation, an end of file, or has one of the seven texts in its lower-cased message |
| `RelayAttempts.WrappingKeepsRetryable` | relay_client.go:205-223 | wrapping an error in a longer message, in any letter case, keeps it retryable |
| `RelayAttempts.TriedAgainIff` | relay_client.go:143-152 | an outcome is tried again if and only if it is an error, of neither a cancelled nor an expired context, that is a network operation, an end of file, or has one of the seven texts, each named, in its lower-cased message |
| `RelayAttempts.VerdictOf` | relay_client.go:172-202 | sent if and only if answered with a status from 200 to 299, rate limited if and only if answered 429 |
| `RelayAttempts.Attempts` | relay_client.go:136-157 | the number of attempts: no earlier one is decisive, at most three, and fewer than three only after a decisive one |
| `RelayAttempts.AttemptsUnique` | relay_client.go:136-157 | those three conditions leave one number only |
| `RelayClientObject.RelayClient.CooldownMs` | relay_client.go:71-76 | the cooldown is the configured one if that is positive, else the default, and always positive |
| `RelayClientObject.RelayClient.SendWithRetries` | relay_client.go:132-157 | the retry loop makes exactly that many requests, all with the same body and signature, and ends with the deciding outcome |
| `RelayClientObject.RelayClient.Broadcast` | relay_client.go:78-203 | one call changes gate, counters, requests and recorded hashes exactly as its verdict says, on all seven exits |
| `RelayClientObject.EveryCallIsCounted` | relay_client.go:78-203 | in every sequence of calls sent + failed + rate limited is the number of calls, no more hashes are recorded than calls sent, and no more than three requests are made per call |
| `RelayClientObject.GateDecides` | relay_client.go:80-126 | after any sequence of calls, the next one is skipped and counted as rate limited before the stored deadline; at or after it, it fails without a request if it cannot be prepared and otherwise makes one |
| `RelayClientObject.AnswerDecides` | relay_client.go:132-203 | after any sequence of calls, by its answer: 200 to 299 adds one to sent and, if tracked with a hash, records its event; 429 adds one to rate limited and sets the deadline; anything else adds one to failed; nothing else changes, and its identical requests are as many as its attempts |
| `RelayClientObject.AcceptedHashesAreRecorded` | relay_client.go:172-189 | in every sequence of calls each hash a tracked relay answered to an accepted call is recorded, for good |
| `RelayClientObject.RecordedHashesWereAccepted` | relay_client.go:172-189 | each hash recorded belongs to a call of a tracked relay that passed the gate and was answered 2xx with a non-empty hash, and carries that call's data under the relay's name |
| `RelayClientObject.GateCoversEveryLimit` | relay_client.go:190-193 | in calls made one after the other the gate never opens earlier than any 429 so far asked for |
| `RelayClientObject.CooldownIsRespected` | relay_client.go:80-86 | no call that starts less than a cooldown after any 429 makes a request; it is counted as rate limited |
| `RelayCooldown.EveryOverlappingCallIsCounted` | relay_client.go:78-203 | over every interleaving of calls each of the three counters is the number of completed calls with that verdict |
| `RelayCooldown.CompletedCallsTriedRight` | relay_client.go:136-203 | over every interleaving a completed call made its attempts up to the first decisive one, at most three, and was sent exactly on a 2xx answer to the last and rate limited exactly on a 429 |
| `RelayCooldown.VerdictsMean` | relay_client.go:88-203 | over every interleaving: a call that cannot be prepared fails without an attempt, and where each outcome leads, by its status |
| `RelayCooldown.StoredIsRead` | relay_client.go:191-192 | over every interleaving the deadline a call stores is a cooldown after the clock it read in the 429 branch |
| `RelayCooldown.GateSkipsIff` | relay_client.go:80-86 | over every interleaving a call is skipped as rate limited if and only if a deadline had been stored when it read the gate and the latest such deadline is ahead of its clock reading |
| `RelayCooldown.NoAttemptInsideTheWindow` | relay_client.go:80-86 | over every interleaving an attempt by a call that read the gate after a deadline was stored comes at least a cooldown after the latest such 429's clock reading |
| `RelayCooldown.PromptStoresNeverGoBack` | relay_client.go:190-193 | if clock read and store are not separated by a later reading, the deadline never decreases |
| `RelayCooldown.PromptStoresCoverEveryLimit` | relay_client.go:80-86 | in such runs the distance holds to every 429 stored before the gate was read |
| `RelayCooldown.StoreLowersIff` | relay_client.go:190-193 | in every run a store lowers the deadline if and only if its clock reading is older than the latest stored one |
| `RelayCooldown.LaterStoreCanLower` | relay_client.go:190-193 | from any state with two calls in the 429 branch there is a continuation in which the deadline goes back |
| `RelayCooldown.DeadlineCanGoBack` | relay_client.go:190-193 | there is a run from the start in which the deadline goes back |
| `WeiRounding.DivRoundEven` | simulator.go:303 | the quotient is a nearest integer, and the even one if two are equally near |
| `WeiRounding.Shift` | simulator.go:303 | the least shift, from the start given, that fills the mantissa |
| `WeiRounding.MantissaIsNormalised` | simulator.go:303 | the scaled value has exactly the quotient's precision in bits before rounding |
| `WeiRounding.PrecisionIs` | simulator.go:303 | the quotient's precision is 64 bits for every value that fits in them and the bit length of any other |
| `WeiRounding.QuotientIsFine` | simulator.go:303 | the binary quotient's unit is less than two wei for a value of any size |
| `WeiRounding.NearestNanoEth` | simulator.go:303-304 | despite double rounding the printed nano-ETH differ from the wei value by at most half a nano-ETH, for every value |
| `WeiRounding.NanoEthIsNearest` | simulator.go:303-304 | except on exact ties the printed number is the one nearest integer |
| `WeiRounding.TiesFollowTheQuotient` | simulator.go:303-304 | on an exact tie the upper neighbour is printed if and only if the binary quotient was rounded up, or was exact and the lower neighbour is odd |
| `WeiRounding.NanoEthIsMonotone` | simulator.go:303-304 | rounding keeps order |
| `WeiText.TextReadsBack` | simulator.go:300 | digits written in any base from 2 to 16 read back as the number |
| `WeiText.FixedReadsBack` | simulator.go:304 | text with nine decimals reads back as the nano-ETH it was made from |
| `WeiText.FormatIsAccurate` | simulator.go:303-304 | the printed text of any wei value, negative ones included, reads back within half a nano-ETH |
| `WeiText.FormatHasNineDecimals` | simulator.go:304 | it has nine decimals, no superfluous zero in front, and a minus exactly if the value is negative |
| `WeiText.BigIntToEthIsAccurate` | relay_client.go:302-308 | what a transaction's value is printed as, for every value, none and zero included, has that form and reads back within half a nano-ETH |
| `WeiText.BigIntToEthIsMonotone` | relay_client.go:302-308 | larger values never print as less, none and zero included |
| `WeiText.WeiHexToEthIsAccurate` | simulator.go:291-305 | for every input text: nothing, "0x" and "0x0" print as "0"; any other wei value becomes nine-decimal text that reads back within half a nano-ETH of it; and anything else is returned as it came |
| `WeiText.SignedTextIsUnderstood` | simulator.go:300 | a sign in front of hexadecimal digits is read as such |
| `WeiText.CaseIsIgnored` | simulator.go:300 | the letter case of the digits does not matter |
| `WeiText.UpperPrefixIsNotUnderstood` | simulator.go:297-302 | text with the prefix "0X" is returned as it came |
| `WeiText.HexTextIsUnderstood` | simulator.go:291-305 | prefixed hexadecimal text of any positive value is read as that value, and both printers agree on it |
| `WeiText.PrintingIsMonotone` | simulator.go:303-304 | larger wei values never print as less, negative ones included |
| `WeiText.DecimalAmountIsMisreadIff` | simulator.go:297-300 | a decimal amount without prefix is always parsed, never as less, and as itself if and only if it has one digit |
| `SimForward.Forward` | simulator.go:93-163 | an event reaches the tracker if and only if the call was answered, not rejected, and no transaction failed, and then carries these values |
| `SimForward.AnchorIsPreviousBlockIff` | simulator.go:147-150 | without a reported block the anchor is the block before the target if and only if the target is not zero |
| `SimForward.ReportedBlockIsTheAnchor` | simulator.go:147-150 | a reported block is the anchor; the number zero is so only if the target is block one |
| `ReconnectingClient.SectionsKeepAccounts` | client/client.go:40-62 | each locked section keeps the connection accounts |
| `ReconnectingClient.Client.New` | client/client.go:26-37 | a client is handed out if and only if the first dial succeeded, and then is in the state all runs start from |
| `ReconnectingClient.Client.Connect` | client/client.go:40-52 | dials if and only if open and unconnected; then it is connected exactly if the dial succeeded |
| `ReconnectingClient.Client.Disconnect` | client/client.go:55-62 | closes the current connection, once, and forgets it |
| `ReconnectingClient.Client.Close` | client/client.go:113-123 | ends closed, without a connection, accounts right |
| `ReconnectingClient.Client.Attempt` | client/client.go:87-101 | one attempt: a dial if and only if it starts unconnected, a write on the connection it had or dialled unless that dial failed, and no connection left after a failed write |
| `ReconnectingClient.Client.SendBytes` | client/client.go:74-110 | for a single caller: a closed client does nothing; an open one makes at most three attempts, with exactly one dial for each that starts unconnected; all writes but the last failed and all dials but the last succeeded; the k-th write goes to the connection it had or the next one dialled; `Ok` if and only if the last write succeeded, a dial error if and only if the last dial failed, a write error if and only if three writes failed, so without a failed dial only `Ok` or that |
| `ReconnectingClient.ConnectionsAreAccounted` | client/client.go:40-123 | in every interleaving dials minus closes is one if connected and zero if not, no connection is closed twice, closed implies unconnected, and no call makes a fourth attempt |
| `ReconnectingClient.ResultsMean` | client/client.go:78-110 | in every interleaving, step by step: each result is returned exactly in the situation it names, every write goes to the connection last seen, and an attempt is repeated exactly after a failed write on a client still open, at most twice |
| `ReconnectingClient.CloseIsFinal` | client/client.go:113-123 | after `Close` no step of any call changes the connection state: nothing is dialled or closed again |
| `ReconnectingClient.UnconnectedIff` | client/client.go:40-62 | at any moment after a call's connect that did not fail, the client has no connection if and only if it was already closed then, or was closed since, or some disconnect since has not been followed by a successful dial |
| `ReconnectingClient.NilAfterRereadIff` | client/client.go:87-96 | a call that connects and later re-reads finds no connection to write to if and only if that holds between the two steps |
| `ReconnectingClient.PanicsComeFromRereading` | client/client.go:79-96 | every call that wrote, or is about to write, through nil had connected, lost the connection in one of these ways, and re-read |
| `ReconnectingClient.CloseInBetweenPanics` | client/client.go:87-96 | there is a run from the start in which a call reconnects, `Close` comes in between, and its write goes through nil |
| `RefundMerge.RelayManager.ApplyRefundDefaults` | relay_manager.go:91-115 | the result shows each refund field of the bundle if set and the configured one if not; it is the caller's own struct on the fast path and a new one otherwise, and the caller's struct is never changed |
| `RefundMerge.RelayManager.Broadcast` | relay_manager.go:117-134 | the simulator, if any, and then each relay client once, are given one and the same struct, which shows the merged bundle and is the caller's own only on the fast path |
| `RefundMerge.FastPathAgrees` | relay_manager.go:93-96 | with nothing configured the general merge changes nothing |
| `RefundMerge.MergeIsIdempotent` | relay_manager.go:98-114 | merging twice is merging once |
| `RefundMerge.UnsetFieldsGetTheDefault` | relay_manager.go:98-114 | field by field: what the bundle leaves unset gets the default, what it sets stays, and every field that is not about refunds stays |
| `RefundMerge.BotWinsIff` | relay_manager.go:88-90 | every value the bot set is the one broadcast if and only if none is an explicit zero value against a configured one |
| `RefundMerge.DelayedRefundCannotBeSwitchedOff` | relay_manager.go:108-110 | a bot's explicit `false` is overridden by a configured delayed refund |

## Left out

- HTTP, TLS, WebSocket framing, the file system, JSON, logging, Prometheus and HTML templates: library behaviour; each attempt, dial and write has an arbitrary outcome instead.
- Signing, transaction decoding, Tenderly links and bundle-hash parsing: library calls; signature, body, decoded transactions and hash are given values.
- `strategies/relays/*` and the registry: payload literals that would only add easy members.
- `auth.go`, configuration defaults, warm-up and the metrics page: one-branch code or not part of the core.
- Failure to create the tracking directory (`tracker.go:153-156`): the goroutine then never starts; what the files held before the start, a partly written line, and closing the files at the end are not modelled either.
- Sharing of inner maps and entries by pointer in the tracker: they are values stored back into the map; one goroutine owns them, so no alias can be seen.
- The nested loops of `flush` are methods of their own, one for each loop and one for the loop body, to keep each proof small.
- Integer widths: times, cooldowns and block numbers are unbounded; only `targetBlock - 1` (`simulator.go:149`) wraps as in 64 bits. Overflow of a very long cooldown is not modelled.
- Lower-casing of error texts is modelled for ASCII letters only.
- The queue, the workers and overlapping calls are step relations over values, not objects with threads; the objects (`Tracker`, `RelayClient`, `Client`, `RelayManager`) each describe one goroutine's use.
- The 500 ms ticker: a flush may happen at any time; `RetentionIsBounded` takes the largest distance between flushes as its parameter.
- Fairness of the Go scheduler: `DrainMakesProgress` says a step is possible, not that it is taken.
- Recovery from a handler's panic by the HTTP server, and the HTTP server's own shutdown (`main.go:142-144`).
- Cancellation of requests in flight by `cancel()`: a request begun before it may still succeed, fail, or be given up; one begun after it never succeeds. The queue model does not count a relay goroutine's attempts; `RelayAttempts` and `RelayCooldown` do.
- The queue model assumes a simulator is configured; without one there is no simulation to come late.
- Process exit: a step after the tracker was stopped can happen until `main` returns; how long that is, is not modelled.
- Reuse of the pooled body buffer after the request returns: library internals decide it.
- SendBytes: the result is stated for one caller; with several, a write may go to a connection another call has closed, and only the accounts and the nil case are stated.
- Forward: assumes a tracker is configured; without one nothing is recorded. What the simulator logs afterwards is not modelled.
- CooldownIsRespected: is about calls made one after the other; overlapping calls are the subject of `RelayCooldown`.
