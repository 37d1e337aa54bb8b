# Verification of lkrequest's concurrent protocols

lkrequest is a Python HTTP client whose Rust side runs several protocols of its own: it counts the futures in flight so
that a shutdown can wait for them, pulls uploads chunk by chunk out of Python, closes sessions under their running
requests, keeps lock-free metrics, shares WebSocket connections and streaming bodies between calls, rotates clients,
and parses address overrides. This project models that code in Dafny and proves what it promises, for every input and
every interleaving.

`dafny verify dfyconfig.toml` checks everything.

## How it is modelled

Concurrent code appears twice. A *protocol* module is a state machine whose actions are the atomic steps of the code
(one atomic operation, one lock section, one call into Python or into an event loop); theorems are about all its runs.
A *code* module holds classes with the fields and methods of the source. Between any two atomic steps of a method
everyone else may take any protocol steps (`Others`), and the contracts say that the code only ever takes steps of the
protocol.

| file | source |
|---|---|
| `Bridge`, `BridgeSafety`, `BridgeDelivery`, `BridgeProgress`, `BridgeWitness`, `BridgeCode` | in-flight counting and `drain`, `src/bridge.rs` |
| `Upload` | pull-driven upload streams, `src/upload.rs` |
| `Session`, `Closing` | closing a session, `src/session_state.rs`, `src/session.rs`, `src/middleware.rs` |
| `Metrics`, `MetricsAgreement`, `MetricsCode` | counters and exporter, `src/metrics.rs` |
| `WebSocket`, `WebSocketCode` | connection ownership, `src/websocket.rs` |
| `StreamingBody` | streaming responses, `src/response.rs` |
| `ClientPool` | round-robin, `src/client_pool.rs` |
| `Dns`, `ConnectTo` | `connect_to=`, `src/dns.rs` |
| `Pcap` | HTTP/2 reassembly, `python/lkrequest/pcap.py` |
| `Basics`, `Totals` | shared definitions |

**The bridge.** A tracked future owns one guard, which moves from its wrapper to a handoff slot, to the frame of
`call_soon_threadsafe`, and is released by a `fetch_sub` followed, if it returned 1, by `notify_waiters`. Loops close,
Python cancels, and other threads take the GIL at any moment. A real loop may also raise an error other than "Event
loop is closed", and an inner future may panic; `Env` says on which loops. `Notify` is its number of notifications, captured by `notified()`.
Timeouts are choices.

The module documentation of `src/bridge.rs` says (lines 33-39) that once Python observes `True` from a drain, *every*
tracked future is done. That is stronger than the code, and `GuaranteedExactly` proves how far the code goes. It fails
in three ways, each with a concrete run in `Refutation`. The callback of a future on another loop than the one that
awaits the drain is in that loop's queue, but may not have run. When the real loop raises anything other than "Event
loop is closed", `call_soon_threadsafe` releases the guard all the same, and the result is lost. And a wrapper whose
inner future panicked releases its guard right there, as the documentation itself says (lines 30-32), with nothing
delivered. On a loop where none of this happens, the guarantee holds. Liveness (`DrainTerminates`) assumes weak fairness,
which includes that inner futures settle and that the 100 ms timer of a waiting drain fires.

**Sessions.** Python callbacks are identities, and the program around them is arbitrary: which calls into the session
the body or the finalizer of a callback makes may differ each time it runs. `depth` is what Python's recursion limit
leaves, and a call beyond it does nothing. A trace records every callback entered or let go and every call into the
session, with its depth, so that the contracts can say what was called, in which order, and that nothing else was.

**Metrics.** Durations are reals. Adding one to the sum is an arbitrary function on the bits of the sum. The exporter
reads the global counters without a lock and the hosts under the lock of their map, so what it prints of the two agrees
up to the records in flight; the page of an export remembers which those are.

**Round-robin.** The word width is a parameter. That every window of as many acquires as clients is a permutation holds
for all indices exactly when the number of clients divides the modulus; otherwise the window at the wrap picks one
client twice.

**Address overrides.** The host and socket address parsers of the libraries are arbitrary functions. Printing and
parsing an origin agree exactly for hosts whose end can be told (`Delimited`).

## Model

| member | source | states |
|---|---|---|
| BridgeDelivery.GuardsConserved | src/bridge.rs:76-96 | after every run the count is the number of live guards, no `fetch_sub` underflows, each guard is released exactly once, and untracked futures own none |
| BridgeDelivery.FailedSubmissionRollsBack | src/bridge.rs:26-29 | a submission that fails synchronously restores count, loops and every other crossing |
| BridgeDelivery.ZeroMeansSettled | src/bridge.rs:33-39 | whenever the count is zero, each tracked future ever registered has its callback at its place in its own loop's queue, or was dropped for a closed loop, a loop error, a late cancellation, an earlier drop, or a failed submission |
| BridgeDelivery.EnqueuedOnce | src/bridge.rs:141-158 | over all loops, no future's callback is enqueued twice |
| BridgeDelivery.NoWakeupLost | src/bridge.rs:248-253 | a drain parked in its wait with the count at zero was notified since it listened, or the dropper that returned 1 is about to notify |
| BridgeDelivery.DrainTrueMeansDone | src/bridge.rs:33-39 | when the callback of a drain that read zero has run, every future registered before that read on the same loop is done, unless that loop raised or the future panicked |
| BridgeDelivery.GuaranteedExactly | src/bridge.rs:30-39 | the documented guarantee over all runs holds if and only if drain and future share the loop, that loop raises only "Event loop is closed", and no future on it panics |
| BridgeDelivery.Refutation | src/bridge.rs:150-156 | in each other case, a concrete run in which Python sees `True` and a tracked future is not done |
| BridgeSafety.StepKeeps | src/bridge.rs:76-158 | every atomic step keeps guard placement, queue ownership, the count, wake-ups and what drains saw |
| BridgeSafety.StepEvolves | src/bridge.rs:122-158 | no step takes back a decided fate, a released guard or a zero that was read |
| BridgeSafety.ZeroIsNotified | src/bridge.rs:90-96 | only a `fetch_sub` brings the count to zero, and whoever took that step is about to notify |
| BridgeSafety.OnlyLoadReadsZero | src/bridge.rs:251-253 | a drain reads zero only by its own load of a zero count, and then has seen every crossing there is |
| BridgeProgress.StepLowersRank | src/bridge.rs:41-46 | each step of a tracked future lowers its rank, each GIL acquisition does while it is stranded, and nothing raises it |
| BridgeProgress.NeverStuck | src/bridge.rs:30-39 | a crossing neither finished nor stranded always has a step of its own |
| BridgeProgress.OneTapFreesAll | src/bridge.rs:254-265 | one GIL acquisition starts the release of every stranded guard |
| BridgeProgress.DrainTerminates | src/bridge.rs:245-275 | under weak fairness and with no new tracked submission, an untimed drain reads zero and returns `True` |
| BridgeWitness.FairDrainExists | src/bridge.rs:254-265 | the assumptions of `DrainTerminates` can be met: a fair run in which the drain starts while the only guard is stranded and nobody but the drain takes the GIL |
| BridgeCode.Process.Register | src/bridge.rs:83-88 | one atomic increment, with the wrapper owning the guard |
| BridgeCode.Process.FetchSub | src/bridge.rs:92 | the old count is answered, is at least one, and the guard is gone |
| BridgeCode.Process.DropGuard | src/bridge.rs:90-96 | whatever runs in between, the guard is released exactly once and the outcome of the future stands |
| BridgeCode.Process.CallSoonThreadsafe | src/bridge.rs:135-158 | on every path the guard is released and the future settled; a loop closed before or in between drops the result; any other error of the real call propagates |
| BridgeCode.Process.SetResult | src/bridge.rs:41-46 | a cancelled future is stranded, any other is settled |
| BridgeCode.Process.FutureIntoPy | src/bridge.rs:185-204 | submitted with the guard in the wrapper, or failed with the guard released |
| BridgeCode.Process.RunWrapper | src/bridge.rs:193-203 | a completed wrapper parks its guard in the slot; a cancelled or panicked one releases it and never completes |
| BridgeCode.Process.RunDrain | src/bridge.rs:245-275 | the steps it takes are those of the loop, round by round; `True` only with a zero count and every tracked future settled, and at once if the count is zero; `False` once the timeout expires; without a notification nobody stays stranded |
| BridgeCode.Process.Wait | src/bridge.rs:260-272 | a wait ends with the overall timeout, with the notification if there was one, or with the tick and its GIL tap, after which nobody is stranded |
| Upload.StreamIsOnePass | src/upload.rs:146-186 | under every schedule of Pending answers, the Ready answers are those of one plain pass over the source |
| Upload.NothingAfterEnd | src/upload.rs:171-184 | after the end or one error the pass yields only the end |
| Upload.ChunksInOrder | src/upload.rs:244-284 | up to there it yields the source's chunks, each once and in order |
| Upload.BlockingSource.ReaderYields | src/upload.rs:188-200 | a reader yields the data it reads until it reads none, be it empty data or None; an exception is an error |
| Upload.BlockingSource.IteratorYields | src/upload.rs:202-210 | an iterator yields every item, empty ones too, until StopIteration; None is a wrong type |
| Upload.AsyncSource.IteratorYields | src/upload.rs:244-294 | an asynchronous iterator yields every item, empty ones too, until StopAsyncIteration, raised at once or when awaited |
| Upload.Backpressure | src/upload.rs:118-124 | pulls started exceed items delivered by at most one, and only by an outstanding pull or the one that found the end |
| Upload.PullsOnlyWhenIdle | src/upload.rs:152-164 | a poll starts a pull only if none is outstanding and the stream is not done, and it answers Pending exactly while the pull is unfinished |
| Upload.BlockingSource.PollNext | src/upload.rs:146-210 | one poll of a reader or iterator, as the plain stream over its replies: empty data and None end a reader, only StopIteration ends an iterator |
| Upload.ConsumeBlocking | src/upload.rs:146-186 | a consumer that polls a blocking source through any schedule collects what one pass over the source gives, with at most one pull more than items |
| Upload.ConsumeAsync | src/upload.rs:244-284 | the same for an asynchronous source |
| Upload.AsyncSource.PollNext | src/upload.rs:244-294 | one poll of an async iterator, including `__anext__` failing before there is anything to await |
| Session.LetsGoTwice | src/session_state.rs:126-138 | what each call leaves true holds over sequences of calls: closing is final, a closed session only lets go, and once a `close` has returned nothing is held |
| Session.ReleasedForGood | src/session_state.rs:175-185 | a session with hooks and slots released stays so in every later state |
| Session.SessionState.Close | src/session_state.rs:179-185 | afterwards the flag is up, both hook lists are empty and all middleware slots are None, whatever the finalizers did |
| Session.SessionState.ClearHooks | src/session_state.rs:63-69 | emptied in place before the finalizers run; stays empty if the session is closed or the finalizers make no calls |
| Session.SessionState.Release | src/middleware.rs:86-92 | both slots are empty afterwards, and the callbacks they held were let go, each once, whatever their finalizers did |
| Session.SessionState.OnRequest | src/session.rs:1257-1260 | registers at the end of the list if open, and refuses and registers nothing if closed |
| Session.SessionState.FireRequest | src/session_state.rs:80-99 | the callbacks it enters are exactly the hooks registered at its start, once each and in order, whatever they do; what they call in turn runs deeper |
| Session.SessionState.FireResponse | src/session_state.rs:101-109 | the same for the response hooks |
| Session.SessionState.RunPython | src/session_state.rs:56-69 | Python code makes just its calls into the session, in order; they keep the session letting go, and a close among them releases everything |
| Session.SessionState.MiddlewareOnRequest | src/middleware.rs:117-132 | the callback fetched is entered once, after all that ran in the gap; none is if the session is closed before the check or between check and fetch |
| Session.SessionState.MiddlewareOnResponse | src/middleware.rs:188-200 | the same for the response callback |
| Session.SessionState.ExecuteRequest | src/session.rs:276-333 | in this order: the request hooks are entered, the request goes out, and, only after a response, the response hooks are entered; none of them once a close has returned, whether before, in a request hook, or while sending |
| Closing.PollTellsTheTruth | src/session_state.rs:215-226 | what any poll answers, even the first and even with every handle dropped: an open session never stops a request, a closed one stops unfinished work at once, and finished work competes with it |
| Closing.WorkedOnlyIfFinished | src/session_state.rs:217-221 | a request ends with the result of its work only if a poll found the work finished |
| Closing.RefusedWhenClosed | src/session_state.rs:168-173 | a request is refused exactly when the session is closed at its start |
| Closing.ClosedOnlyByClose | src/session_state.rs:203-213 | whoever was told "closed" was told after a `close()` that took place, and the session stays closed |
| Closing.StepKeeps | src/session_state.rs:160-173 | handles and running requests together own the senders |
| Metrics.StepKeeps | src/metrics.rs:34-103 | every atomic step keeps each counter equal to what the recorders past its increment contributed, and the sums exact |
| MetricsAgreement.NeverAheadOfRequests | src/metrics.rs:34-44 | at any moment errors and every bucket of a host are at most its requests |
| MetricsAgreement.HostsNeverAheadOfGlobal | src/metrics.rs:92-102 | at any moment the hosts together show at most the global requests, errors and bytes |
| MetricsAgreement.BucketsExactWhenIdle | src/metrics.rs:40-44 | with no record in flight a bucket is the number of durations not above its bound, and the requests are all records |
| MetricsAgreement.ErrorsAndBytesExactWhenIdle | src/metrics.rs:34-39 | with no record in flight the errors of a host are the number of its failed requests, and its bytes the sum of their bodies |
| MetricsAgreement.GlobalsExactWhenIdle | src/metrics.rs:92-98 | with no record in flight the global counters are the number of records, the number of failed ones, and the sum of all bodies |
| MetricsAgreement.BucketsAscendWhenIdle | src/metrics.rs:10 | with no record in flight the buckets are nondecreasing and at most the requests |
| MetricsAgreement.HostsMatchGlobalWhenIdle | src/metrics.rs:92-102 | with no record in flight the hosts together show exactly the global counters |
| MetricsAgreement.SumLosesNothing | src/metrics.rs:45-62 | the sum is the fold, in exchange order, of the durations of exactly the finished records, each once |
| MetricsAgreement.InfCoversBuckets | src/metrics.rs:196-207 | the printed `+Inf` is at least each finite bucket printed for the host |
| MetricsAgreement.PrintedHostsNearTotal | src/metrics.rs:169-207 | the printed hosts together exceed the printed global requests by at most the records counted since these were read |
| MetricsAgreement.PrintedTotalNearHosts | src/metrics.rs:169-207 | once all hosts are printed, they fall short of the printed global requests by at most the records that were between the two increments when these were read |
| MetricsAgreement.PrintedErrorsNearTotal | src/metrics.rs:169-170 | the printed errors exceed the printed requests by at most the records counted since the requests were read |
| MetricsAgreement.QuietExportIsExact | src/metrics.rs:166-210 | an export during which no recorder moves prints exactly the counters, buckets and `+Inf` included |
| MetricsAgreement.InversionsAreInFlight | src/metrics.rs:198-203 | a printed bucket falls short of one printed before it by at most the records in flight at that moment |
| MetricsCode.HostCounters.Record | src/metrics.rs:34-63 | among any increments of others requests grow by one, bytes by the body, errors by one for a failure, each bucket by one if the duration is within its bound; the duration is added exactly once on top of the rivals that came first, through any finite number of failed exchanges |
| MetricsCode.RecordAlone | src/metrics.rs:34-63 | the step program of a recorder, run alone, does to its host what the code does and touches nothing else |
| WebSocket.DroppedOnceWhenUnowned | src/websocket.rs:93-103 | the connection is dropped at most once, and is dropped exactly when the slot is empty and no operation owns a handle |
| WebSocket.DroppedWithLastHandle | src/websocket.rs:93-100 | it is dropped in the very step that leaves the slot empty and no owner |
| WebSocket.AliveWhileUsed | src/websocket.rs:176-184 | an operation that owns a handle keeps the connection alive through any release |
| WebSocket.LateOperationsFail | src/websocket.rs:112-129 | once the slot is empty it stays empty, and operations started from then on raise, or end their iteration, without a handle |
| WebSocket.CloseReleases | src/websocket.rs:186-223 | after a successful close or a finished iteration the slot is empty |
| WebSocketCode.SharedConnection.Get | src/websocket.rs:112-121 | a handle if and only if the slot is filled |
| WebSocketCode.SharedConnection.Release | src/websocket.rs:123-128 | the slot is empty afterwards, and the operation goes on to drop its own handle |
| WebSocketCode.SharedConnection.Operate | src/websocket.rs:156-223 | outcome of every kind of operation on a live and on a released connection, and which of them release it |
| StreamingBody.NothingLostNorRepeated | src/response.rs:605-695 | for any serial order of calls, returned and remaining bytes are the body; once consumed, a prefix of it, and all of it if nothing broke |
| StreamingBody.WholeBodyOnceConsumed | src/response.rs:605-695 | once a call says the stream is consumed, an unbroken body was returned whole and no later call returns data |
| StreamingBody.ConsumedReturnsNothing | src/response.rs:609-611 | on a consumed stream iteration ends and every other call raises |
| StreamingBody.PiecesInOrder | src/response.rs:612-613 | the i-th step over an intact stream, by either call, gives its i-th piece |
| StreamingBody.EndAfterLastPiece | src/response.rs:614-617 | the step after the last piece says so and empties the slot |
| StreamingBody.BrokenPieceRaises | src/response.rs:618 | a step raises an upstream error exactly at a broken piece |
| StreamingBody.FullReadGivesTheRest | src/response.rs:641-672 | after any pieces, a full read empties the slot and gives the rest of the body, or an error if the rest is broken |
| StreamingBody.StreamingResponse.GetChunk | src/response.rs:605-621 | the next piece, and an emptied slot at the end |
| StreamingBody.StreamingResponse.GetNext | src/response.rs:678-695 | the same, ending the iteration |
| StreamingBody.StreamingResponse.TakeRest | src/response.rs:790-800 | the slot is emptied, then the rest of the stream is read whole or fails |
| StreamingBody.StreamingResponse.GetBytes | src/response.rs:641-653 | the rest of the body |
| StreamingBody.StreamingResponse.GetText | src/response.rs:659-672 | the rest of the body, for decoding |
| ClientPool.Pool.Acquire | src/client_pool.rs:54-78 | round-robin picks by the index and advances it with wrap-around; random leaves it alone |
| ClientPool.Pool.Add | src/client_pool.rs:80-87 | the client joins at the end and the index stays |
| ClientPool.PickCountsBalance | src/client_pool.rs:60-64 | from any index, pick counts differ by at most one without a wrap and by at most two across one |
| ClientPool.WindowBeforeWrap | src/client_pool.rs:60-64 | a window of as many acquires as clients that does not wrap picks each once |
| ClientPool.AlwaysPermutationIff | src/client_pool.rs:61-62 | every window does, wrap or not, if and only if the number of clients divides the modulus |
| ClientPool.RepeatsAtWrap | src/client_pool.rs:62 | otherwise the window at the last index picks one client twice |
| ClientPool.BalancedBetweenAdds | src/client_pool.rs:54-64 | after any acquires and adds, the acquires since the last `add` are within the same bounds for all clients, the new one included |
| ClientPool.TakeTurns | src/client_pool.rs:54-87 | through any acquires and adds, a pool hands out the clients in the slots told, and an `add` moves none of them |
| ClientPool.IndexAfter | src/client_pool.rs:60-64 | each acquire advances the index by one modulo the word, and an `add` leaves it alone |
| ClientPool.StrategyByName | src/client_pool.rs:29-43 | a pool needs clients and one of two rotations, each under its own name |
| ClientPool.PickCountsSeamless | src/client_pool.rs:61-62 | with that divisibility counts differ by at most one over any number of wraps |
| ConnectTo.ParseConnectTo | src/dns.rs:67-96 | in every enumeration order: success if and only if each entry is valid and permitted and normalized origins differ, and then the same set of overrides, each from an entry and dialable under the family; an error belongs to some entry |
| ConnectTo.CheckEntry | src/dns.rs:73-88 | a repeated origin is reported as such, before any fault of its address; any other entry is judged by itself |
| ConnectTo.EntryJudged | src/dns.rs:73-88 | an entry by itself needs a valid origin, a valid address and the permission of the family, and its first fault is the one told |
| Dns.FamiliesAllow | src/dns.rs:47-53 | `ipv4` permits the four-octet addresses, `ipv6` the sixteen-octet ones that are not the IPv4-mapped form of any |
| Dns.AddressParsedIff | src/dns.rs:122-130 | an address is accepted exactly if the library parses it and its port is not zero |
| Dns.OriginRoundTrips | src/dns.rs:99-120 | printing a normalized origin and parsing it back gives it, if and only if its host is delimited |
| Dns.PortRoundTrips | src/dns.rs:133-135 | a printed port in 1..65535 parses to itself |
| Dns.PortParsedIff | src/dns.rs:132-135 | the texts of a port are an optional `+`, any number of zeros, and the decimal form of 1 to 65535 |
| Dns.OriginParsedIff | src/dns.rs:99-120 | a key names an origin if and only if it is a delimited host, a colon and a port in 1..65535, and the host normalizes to that of the origin |
| Dns.SplitBracketed | src/dns.rs:105-107 | a bracketed host is split off whole if delimited; otherwise what follows is no port |
| Dns.SplitPlain | src/dns.rs:108-114 | any other host is split at its only colon, and rejected with more |
| Pcap.Extract | python/lkrequest/pcap.py:71-118 | for every packet sequence, in order of each flow's first preface packet, the payloads of the flow from there on, keeping only what is longer than the preface |
| Pcap.Extractor.Packet | python/lkrequest/pcap.py:91-112 | one more packet keeps the dictionary equal to the specification of the packets so far |
| Pcap.FlowsListed | python/lkrequest/pcap.py:106-110 | the flows listed are exactly those with a preface packet, once each |
| Pcap.FlowsInOrder | python/lkrequest/pcap.py:106-110 | they are listed in the order of their first preface packets |
| Pcap.StreamFromPreface | python/lkrequest/pcap.py:106-112 | the stream of a flow is made of its payloads from its first preface packet on |
| Pcap.PayloadsJoin | python/lkrequest/pcap.py:98-112 | payloads are joined packet by packet, only those of the flow's own TCP packets |
| Pcap.LongOnesKept | python/lkrequest/pcap.py:114-116 | exactly the streams longer than the 24 bytes of the preface are kept, in order |

## Left out

- Everything behind the upstream crates (cookies, HSTS, pools, retries, HTTP/2 framing): their code is not in this repository.
- The error that upstream's bridge hands over after a wrapper panicked: it is not counted, so no drain waits for it, and the model leaves such a future undone.
- Memory orderings: atomics are sequentially consistent. Real time: timeouts are choices.
- `blocking_drain_pending`: it returns at the read of zero, where `ZeroMeansSettled` applies, and crosses no loop.
- Cancellation in the middle of an upstream `chunk()` or `bytes()` await: it depends on upstream code.
- `MetricsCollector.reset` while records are in flight, and the order in which `snapshot` reads: runs are reset-free.
- Wrap-around of the 64-bit metric counters, durations that are not numbers, and a poisoned map lock.
- `chunk_decoded`, text decoding, and a decoder named in vain, which raises after the body was consumed. How upstream continues after a broken piece is taken to be with the next piece.
- The rewriting of headers and URLs by middleware, `pool_clear`, request options, and logging.
- The collector's traversal of a session; clearing one is included.
- `_extract_client_hellos` and the building of profiles: a filter that single branches settle.
- `src/session_pool.rs` and `src/proxy.rs`: their capacity rules are upstream.
- Error texts: errors are kinds.
