# Verified model of sparkl-router's concurrent core

`sparkl-router` sits between HTTP clients and inference nodes that hold one WebSocket tunnel each. Behind
the plumbing it runs a handful of small protocols. This project models them in Dafny and proves what they
guarantee:

- **Admission control** (`Capacity*.dfy`): two atomic counters, weak compare-exchange loops and a one-permit
  `Notify`, as a state machine whose steps are single atomic operations, and as a class whose `Acquire` method
  is the acquire loop with arbitrary interference before every operation. A call of the class is proved to
  leave exactly the state the machine reaches when driven the same way.
- **Usage batching** (`Usage*.dfy`): per-session token counters, flushed in batches to a bounded retry loop;
  interleaved at critical sections in `UsageMachine`, sequential and in place in `UsageBatcher`. Both use the
  functions of `UsageBooks`, whose books balance.
- **Tunnel multiplexer and answers** (`Dispatch*.dfy`, `Tunnel.dfy`, `Lifecycle.dfy`, `Collect.dfy`, `Sse.dfy`,
  `StreamAnswers.dfy`, `Quoting.dfy`, `Forward.dfy`): one reader, a bounded channel per request, the fold into a
  plain answer or an event stream, and the path of the capacity guard through all exits of a chat request.
- **Metering** (`Metering.dfy`, `StreamMetering.dfy`, `LineMetering.dfy`): token usage found in JSON bodies and
  event streams, rescanned after every chunk.
- **Catalog** (`Catalog*.dfy`): the union of all nodes' models, rebuilt under a read lock in any map order.
- **Decoders and cursor** (`ChainSession.dfy`, `SessionId.dfy`, `Watcher.dfy`).

A *run* is any sequence of enabled events from the initial state; "reachable" means reached by a run. Nothing
is assumed about scheduling. Time is a choice of the environment: a deadline or an interval has passed when the
event says so.

Eight places where the code does less than one might expect are stated as results, each with the exact
condition under which the stronger promise holds and a run in which it does not: a freed place can stay idle
beside a waiter (`WorkConservation`, `WaitersBesideGuards`), a cancelled acquire never gives its queue place back
(`QueueCountExactly`, `QueuesLeak`), tokens are lost when a counter saturates or a session is removed
(`ConservationExactly`), reported tokens are dropped when their session is not there
(`ReportsAcceptedExactly`), a full channel yields a successful answer with a truncated body
(`TruncationThreshold`, `SilentTruncation`), usage can be reported that the whole text does not contain
(`CutsMatterExactly`, `SpoiltLine`), one malformed entry leaves the catalog stale (`AgreementExactly`), and a
block range that fails while the cursor is 0 is forgotten (`FailedRangeIsRetried`).

Two remarks in the repository do not hold of its code, and the model keeps to the code. The description of
`GET /v1/models` calls `available_slots` a sum over providers; the first entry's own value stays in place when no
provider states a concurrency (`MergedFor`). The comment at `src/consumer/sse.rs:145-146` says that metering does
not wait for the HTTP client to drain the body; the generator that meters only runs when the client polls it, and
a client that leaves earlier is metered as having used nothing (`Completion`).

## Model

| member | source | states |
|---|---|---|
| CapacityProofs.AdmitKeeps | src/capacity/mod.rs:117-134 | a successful compare-exchange adds exactly one place, within the admitted acquire's own limit, and keeps every count and the wake-up invariant |
| CapacityProofs.ReleaseKeeps | src/capacity/mod.rs:171-173 | the decrement of a dropped guard never wraps and keeps the invariant, the releaser now owing a notification |
| CapacityProofs.QueueKeeps | src/capacity/mod.rs:145-154 | taking and returning a queue place moves `queued` by one, never above the taker's `max_queue` |
| CapacityProofs.ParkKeeps | src/capacity/mod.rs:153 | the first poll of `notified()` consumes the permit or parks, and never strands anybody |
| CapacityProofs.PassOnKeeps | src/capacity/mod.rs:153-174 | a notification is never lost: a releaser, an expired waiter and a cancelled waiter all hand it to a parked waiter or to the permit |
| CapacityProofs.StepKeepsInv | src/capacity/mod.rs:97-207 | every atomic step of every operation keeps the whole invariant: exact counts, consistent `Notify`, wake-up in flight |
| CapacityTheorems.AdmissionSafety | src/capacity/mod.rs:116-134 | in every reachable state `active` is the number of guards out and is at most some acquire's limit, slot creation races included |
| CapacityTheorems.FixedLimit | src/capacity/mod.rs:116-134 | with one common limit c at most c guards are ever out at once |
| CapacityTheorems.NoCounterWraps | src/capacity/mod.rs:119-174 | no increment or decrement of either counter ever wraps |
| CapacityTheorems.NoStrandedWaiter | src/capacity/mod.rs:116-176 | with no guard out, a parked acquire always has a wake-up in flight; no permit is stored while anyone is parked |
| CapacityTheorems.WaitingAtRestHasAGuard | src/capacity/mod.rs:116-176 | when nothing can move by itself, a waiter implies a live guard whose drop will notify |
| CapacityTheorems.QueueCount | src/capacity/mod.rs:136-165 | `queued` is the number waiting plus the acquires cancelled while queued; it is within some acquire's `max_queue` |
| CapacityTheorems.QueueCountExactly | src/capacity/mod.rs:136-165 | at the end of a run `queued` is the number waiting exactly when no acquire was cancelled in the queue since the slot was made |
| CapacityTheorems.LeakedQueueStaysShut | src/capacity/mod.rs:136-165 | once q places were lost to cancelled acquires, an acquire with a queue limit of at most q never again gets into the queue while the slot lives, whatever limits the others have |
| CapacityTheorems.QueuesLeak | src/capacity/mod.rs:145-154 | for every limit and every queue size q there is a run after which q places are lost and nobody waits |
| CapacityTheorems.RefusalsAreJustified | src/capacity/mod.rs:118-165 | a refused acquire has seen no place below its limit and, unless it timed out, no room in the queue; which reading each number of the error is, `ReportsAreReadings` says |
| CapacityReports.ReportsAreReadings | src/capacity/mod.rs:116-165 | in every run each number of an error is a reading of its own counter by the refused call itself, in the order of the program: for a full queue `active` at the top of the loop and then `queued`; for a timeout, after the call gave its queue place back, `queued` and then `active` |
| CapacityReports.DeadlineAlone | src/capacity/mod.rs:152-165 | left alone while it waits, a call whose deadline passes leaves the waiter list and the queue and reports both counters, each under its own name and without itself |
| CapacityReports.TimedOutAlone | src/capacity/mod.rs:154-162 | from the two reads of a timeout on, left alone, the error carries `active` and `queued` as they stand |
| CapacityTheorems.PermitsMerge | src/capacity/mod.rs:145-175 | for every limit c and every 1 <= k < c there is a run that ends with k places taken, the others free, a parked acquire and nothing in flight |
| CapacityTheorems.WaitersBesideGuards | src/capacity/mod.rs:116-176 | with a common limit c an acquire can be left waiting at rest beside exactly k guards if and only if k is 1 to c |
| CapacityTheorems.WorkConservation | src/capacity/mod.rs:116-176 | a freed place is never left idle beside a waiter exactly when the limit is one |
| CapacityDriver.OthersLeaveMe | src/capacity/mod.rs:97-207 | nothing other tasks do changes an acquire, except notifying it while it is parked |
| CapacityDriver.DriveIsARun | src/capacity/mod.rs:98-169 | an acquire driven by any turns is a run of the machine |
| CapacityDriver.EveryRunIsDriven | src/capacity/mod.rs:98-169 | conversely, whatever happens around a call in any run, some turns drive the call through exactly that, so a statement for all turns is one about all runs |
| CapacityDriver.EveryDropIsOne | src/capacity/mod.rs:171-207 | every run made of a decrement, any doings of other tasks and a notification is a drop with these doings between |
| CapacityDriver.AloneDecides | src/capacity/mod.rs:116-143 | left alone, a call takes a free place within four operations, and is refused when there is neither a place nor room |
| CapacityDriver.OnlyDroppedCallsVanish | src/capacity/mod.rs:152-154 | a call ends without a result only when it was dropped while waiting |
| CapacityDriver.DropIsARun | src/capacity/mod.rs:171-207 | dropping a guard with others in between is a run that ends its holder's life |
| CapacityTracker.KeyTracker.TryAdmit | src/capacity/mod.rs:119-133 | admits exactly when the value still matches and the exchange does not fail spuriously |
| CapacityTracker.KeyTracker.NotifyFrom | src/capacity/mod.rs:174 | wakes the oldest waiter, or stores the permit when there is none |
| CapacityTracker.KeyTracker.Acquire | src/capacity/mod.rs:98-169 | for every interference the loop leaves exactly the state the machine reaches when driven by the same turns, and returns what that state says, under the limits it was given; without a limit it is let in at once and no counter moves; it is cancelled only if it was dropped |
| CapacityTracker.KeyTracker.AwaitNotified | src/capacity/mod.rs:152-154 | the wait ends notified, timed out, dropped or not at all, each end in the matching state and as the turns drive it |
| CapacityTracker.KeyTracker.SlotFor | src/capacity/mod.rs:178-191 | two turns always suffice to end with a slot present, whoever inserted it |
| CapacityTracker.KeyTracker.DropGuard | src/capacity/mod.rs:171-207 | one decrement, then whatever others do, then one notification, and nothing else |
| UsageBooks.AddKeeps | src/consumer/usage_batch.rs:131-146 | adding tokens keeps the books balanced for every session and direction, the part lost to saturation noted |
| UsageBooks.TakeKeeps | src/consumer/usage_batch.rs:197-228 | taking a batch moves pending tokens into one parcel and loses none |
| UsageBooks.RemoveKeeps | src/consumer/usage_batch.rs:166-169 | removing an entry notes its pending tokens as discarded |
| UsageBooks.SetFateKeeps | src/chain/usage.rs:130-166 | hand-over and every outcome of an attempt move a parcel's tokens between in flight, confirmed and abandoned |
| UsageBooks.ThreeAttempts | src/chain/usage.rs:136-165 | a parcel gets three attempts and no more: a success confirms it at once, the third failure gives it up |
| UsageMachine.JobKeepsObligation | src/consumer/usage_batch.rs:130-159 | whatever steps interleave, a session at the chunk size keeps a committed flusher |
| UsageMachine.StepKeepsInv | src/consumer/usage_batch.rs:83-263 | every step of every operation keeps balance, flush obligation and the match of taken parcels with hand-overs |
| UsageMachine.Conservation | src/consumer/usage_batch.rs:125-250 | pending, in flight, confirmed and abandoned never exceed accepted tokens, with equality exactly when nothing was truncated or discarded; nothing is truncated while 64 bits hold all that was accepted |
| UsageMachine.NothingDiscarded | src/consumer/usage_batch.rs:166-169 | in a run that starts no removal of a session none of its tokens are discarded |
| UsageMachine.ConservationExactly | src/consumer/usage_batch.rs:125-250 | no token is lost in any run with at most this many accepted tokens and with or without removals exactly when the number fits 64 bits and nothing is removed; past either bound some run loses tokens |
| UsageMachine.FlushObligation | src/consumer/usage_batch.rs:130-228 | in every reachable state a session at or over the chunk size has a job that will still run the locked part of a flush |
| UsageMachine.QuietBatcher | src/consumer/usage_batch.rs:130-250 | with nobody at work all sessions are below the chunk and every parcel was handed over exactly once |
| UsageMachine.HandedOnce | src/consumer/usage_batch.rs:239-250 | no parcel is handed to the retry loop twice; one not yet handed over has a job about to do it |
| UsageMachine.AwaitedIsSettled | src/consumer/usage_batch.rs:184-243 | in every run a job that waits for a parcel goes on only once it is confirmed or given up, and the parcel stays so |
| UsageMachine.AddAlone | src/consumer/usage_batch.rs:125-160 | an add by itself leaves its tokens pending below the chunk and otherwise sends all that is pending |
| UsageMachine.RemovalAlone | src/consumer/usage_batch.rs:166-169 | a removal by itself sends what is pending before it takes the entry out |
| UsageMachine.SweepAlone | src/consumer/usage_batch.rs:92-105 | a sweep by itself sends what a listed session holds exactly when its interval has passed, and does not wait |
| UsageMachine.ShutdownAlone | src/consumer/usage_batch.rs:183-187 | a shutdown by itself sends what a listed session holds, whatever its age, and waits for it |
| UsageMachine.ForcedFlushAlone | src/consumer/usage_batch.rs:162-164 | a forced flush by itself sends what is pending, whatever its size or age |
| UsageMachine.MissingSession | src/consumer/usage_batch.rs:108-123 | a session that is not there is made, empty and fresh, when the chain answers, and not made when it does not |
| UsageMachine.RemovalDiscards | src/consumer/usage_batch.rs:166-169 | for every chunk size a run in which an accepted add is lost between the flush and the removal of its session |
| UsageMachine.SaturationTruncates | src/consumer/usage_batch.rs:131-146 | for every chunk size a run in which one token more than 64 bits hold is accepted and lost |
| UsageReports.ReportedIsAcceptedOrDropped | src/consumer/usage_batch.rs:125-159 | once no call of `add_usage` is under way, the tokens reported are those accepted plus those dropped because their session was not there |
| UsageReports.ReportsAcceptedExactly | src/consumer/usage_batch.rs:129-135 | in all runs everything reported is accepted exactly when the chain always answers and the session is not removed; without either some run drops tokens |
| UsageBatcher.Batcher.RecordUsageWithRetry | src/chain/usage.rs:130-166 | at most three attempts, ending with the first success, spelled out result by result; confirmed exactly when one of the three succeeds |
| UsageBatcher.Batcher.FlushSession | src/consumer/usage_batch.rs:190-263 | takes the whole pending batch exactly when something is pending and it is forced, at the chunk, or past its interval; hands it over once, to the first attempt or, when waited for, to its end; otherwise only makes a missing session the chain answers for |
| UsageBatcher.Batcher.AddUsage | src/consumer/usage_batch.rs:125-160 | a call that adds anything returns below the chunk; what was pending and what was added, also for a session made by the call, is pending or in one new parcel of at least the chunk; the interval starts again only when the batch leaves; for a session that is not there and that the chain does not confirm the tokens are dropped; other sessions are untouched |
| UsageBatcher.Batcher.SweepTimeouts | src/consumer/usage_batch.rs:83-106 | empties exactly the listed sessions with pending tokens whose interval has passed; what each held is handed over in one new parcel that is not waited for, and no other parcel is new or changed |
| UsageBatcher.Batcher.RemoveSession | src/consumer/usage_batch.rs:166-169 | by itself it discards nothing: the pending tokens, if any, are handed over in one new parcel first, and no other parcel is new or changed |
| UsageBatcher.Batcher.FlushAllOnShutdown | src/consumer/usage_batch.rs:172-188 | whatever the chain answers for each, what every listed session held is in one new parcel, handed over and seen through to its end; unlisted sessions and older parcels are unchanged |
| Dispatch.CutPrefix | src/tunnel/dispatch.rs:70-77 | the cut of a frame sequence is its prefix through the first terminal frame |
| DispatchProofs.StepKeepsInv | src/tunnel/dispatch.rs:21-67 | every step of routing, receiving, dropping and sweeping keeps each request's history faithful and the table exact |
| DispatchProofs.Faithful | src/tunnel/dispatch.rs:28-77 | what a request has received is a gap-free prefix of its routed frames cut at the first terminal one, plus at most one disconnect error, also when a reconnect (`src/tunnel/connect.rs:122-125`) sweeps the table while the reader is routing; nothing follows a terminal frame |
| DispatchProofs.CompleteAtEnd | src/tunnel/dispatch.rs:40-67 | at the end of its stream a receiver has everything through the terminal frame unless the channel refused a frame or a sweep closed the entry |
| DispatchProofs.FewFramesAreSafe | src/tunnel/dispatch.rs:40-57 | a listener whose request has at most 256 frames up to its terminal one never loses a frame to a full channel |
| DispatchProofs.TableAgreement | src/tunnel/dispatch.rs:21-67 | the pending table is exactly the live unclosed requests, and is empty once all are dropped |
| DispatchProofs.SweepClears | src/tunnel/dispatch.rs:59-67 | a sweep ends when no entry it started with is left, and none of them ever comes back, whatever runs meanwhile and later |
| DispatchProofs.RouteByKind | src/tunnel/dispatch.rs:40-77 | with room, a status or a chunk is buffered and leaves the entry open; an end, an error and an activation take the entry out of the table before they are delivered |
| Tunnel.RouteReaches | src/tunnel/dispatch.rs:40-57 | routing a frame is one or two reader steps with the stated effect on its request |
| Tunnel.NodeTunnel.RegisterPending | src/tunnel/dispatch.rs:28-38 | adds one open request with an empty channel |
| Tunnel.NodeTunnel.RouteInbound | src/tunnel/dispatch.rs:40-77 | delivers into a channel with room; kind by kind, a status or a chunk closes the entry only if refused, an end, an error or an activation always does; nobody else is touched |
| Tunnel.NodeTunnel.FailAllPending | src/tunnel/dispatch.rs:59-67 | in any order, every pending request with room for it is told 502 "node disconnected", and the table ends empty |
| Tunnel.NodeTunnel.DropPending | src/tunnel/dispatch.rs:11-25 | closes the receiver and removes the entry |
| Tunnel.NodeTunnel.InFlightCount | src/state.rs:66-68 | counts the live unclosed requests |
| Collect.CollectHttpResponse | src/consumer/sse.rs:19-81 | the first end or error decides: an error is told with its own code, or 502 for none, an end with its code, or the last status seen, and the joined chunks; without either a closed channel gives status and text so far, and a deadline 504 "upstream timeout" |
| Collect.OrdinaryAnswer | src/consumer/sse.rs:24-73 | a status, any chunks and an end give the code of the end, or else of the status, or else 200, and the data joined in order; an error at the end is told instead |
| Collect.OrdinaryEndToEnd | src/tunnel/dispatch.rs:28-77 | through the multiplexer: a listener sent a status, at most 254 chunks and an end with a valid code, and not swept, is told that code and the data joined |
| Collect.StatusIsLast | src/consumer/sse.rs:30-34 | of several status frames the last one counts, as 200 if it is no valid status |
| Collect.EndToEnd | src/consumer/sse.rs:28-62 | composed with routing: the answer is truthful about all frames sent when the entry ended normally; after a refused frame the body is complete exactly when the lost frames hold no text; after a sweep it is an error or made of the frames delivered by then |
| Collect.ToldInTheEnd | src/consumer/sse.rs:28-62 | the same is settled as soon as the entry is closed, however much is still buffered |
| Collect.SilentTruncation | src/consumer/sse.rs:28-62 | a run in which 257 chunks are sent and 256 are answered with status 200 |
| Collect.TruncationThreshold | src/tunnel/dispatch.rs:29-57 | listeners with at most n frames are never cut off exactly when n is at most the capacity of the channel |
| Lifecycle.HandleInbound | src/tunnel/lifecycle.rs:107-161 | a message gives its own frame to its own request and nothing to any other |
| Lifecycle.TearDown | src/tunnel/lifecycle.rs:95 | empties the table; everyone still listening will be told the truth about what the node said to them |
| Lifecycle.RunTunnelLifecycle | src/tunnel/lifecycle.rs:70-95 | for all messages and all doings of other tasks between them: exactly the messages before the first end of the connection are routed; the requests are exactly those registered, each given precisely what was said to it from the turn of its registration on; the table is what these messages and doings make of it and nothing else; after the node has left nobody waits, and whoever still listens is told the truth |
| Lifecycle.OnlySweepsDisconnect | src/tunnel/dispatch.rs:40-67 | over any number of turns nobody is disconnected but by a sweep |
| Lifecycle.ArrivalIsItsFrame | src/tunnel/lifecycle.rs:109-165 | a message does to the table what its one frame does, and nothing if it carries none |
| Lifecycle.ActionsTakeEffect | src/tunnel/dispatch.rs:11-67 | what registering, reading, dropping and sweeping do to a request, field by field |
| Lifecycle.WireFrames | src/tunnel/lifecycle.rs:143-164 | each wire frame becomes the channel frame of the same kind with all it carries, for its own request only |
| Sse.Consume | src/consumer/sse.rs:152-197 | the loop sends the chunks verbatim and in order, then exactly the error or timeout line that stopped it, if one did, and knows the reported usage exactly when it reaches its completion call |
| Sse.StreamCompletion.Fire | src/consumer/sse.rs:96-106 | releases the guard, then runs the callback, and only the first time |
| Sse.StreamCompletion.Drop | src/consumer/sse.rs:109-122 | does what is left of both, in the same order |
| Sse.StreamCompletion.Run | src/consumer/sse.rs:147-198 | however the stream ends, also unpolled, the guard is dropped exactly once and before the single callback, with the usage of the chunks passed on or none |
| Sse.PlainStreams | src/consumer/sse.rs:161-198 | chunks and then an end, the end of the channel, an error, the deadline or a drop: what the client is sent and what is reported, line by line; after an error or timeout line only if the stream is polled again |
| Sse.ErrorLineCarries | src/consumer/sse.rs:182 | whatever the message, the error event is one line from which the message can be read back unchanged |
| Quoting.QuotedReadsBack | src/consumer/sse.rs:182 | a message quoted as JSON is read back whole and unchanged, up to its own closing quote |
| Sse.ContainsIs | src/consumer/sse.rs:177 | the text contains the mark exactly when the mark stands somewhere in it |
| StreamAnswers.StreamEndToEnd | src/consumer/sse.rs:135-198 | composed with routing: a client whose stream is met to its end gets all the node's text, or that of a proper beginning without a sign of the loss, or that of the frames before a sweep, by the way the entry was closed |
| StreamAnswers.NothingInvented | src/consumer/sse.rs:154-185 | whenever and however the stream ends, the client has a beginning of the text the node sent, verbatim |
| StreamAnswers.StreamBill | src/consumer/sse.rs:154-198 | for a well-formed stream the bill is that of one scan of the text the client was given, on events the node did send; for a whole stream that ended normally it is what the payloads say |
| Forward.ChatCompletions | src/consumer/forward.rs:27-149 | the reply is determined by the checks, by how the acquire was driven under the request's own limits and by what came after; a guard that was got is dropped exactly once on every exit, including being dropped half-way; the answer is that of the frames and the bill what the body's usage fields state; a plain request whose answer does not end in time is told 504 and not billed |
| Forward.AcquiredAlone | src/consumer/forward.rs:71-86 | left alone, the acquire lets the request in when it has no limit or a place is free, and refuses it with both counters when there is neither place nor room |
| Forward.BodyIsBilled | src/consumer/metering.rs:14-33 | a plain answer is billed i input and o output tokens exactly when its body states them |
| Metering.ExtractFromEvents | src/consumer/metering.rs:60-90 | the loop computes the last usage combined with the largest receipt: the input is what the fields of the last usage object state, the output at least that |
| Metering.ExtractMeaning | src/consumer/metering.rs:60-90 | a result exists exactly when some event reports something; input is that of the last usage, 0 without one; output is that of the last usage or of a receipt, and none is larger |
| Metering.UsageExactly | src/consumer/metering.rs:14-28 | usage is reported as (i, o) exactly when the fields say i input and o output, an alias counting only when its key is absent; a key without a number gives nothing |
| Metering.ReceiptExactly | src/consumer/metering.rs:40-47 | a receipt counts n exactly when it is a string under the two keys that decodes to n |
| Metering.TrimIs | src/consumer/metering.rs:51 | trimming takes exactly the white space off both ends |
| Metering.SomeIsMonotone | src/consumer/metering.rs:60-90 | having found usage is never undone by more events |
| StreamMetering.StringsAreSkipped | src/consumer/metering.rs:55 | the bracket count that is assumed of JSON ignores whatever a quoted string holds, escaped quotes and brackets included |
| StreamMetering.PrefixFree | src/consumer/metering.rs:49-57 | from bracket closing alone: no proper prefix of a JSON object parses |
| StreamMetering.BlockFirst | src/consumer/metering.rs:49-57 | a complete event block contributes its event whatever text follows |
| StreamMetering.CutBlock | src/consumer/metering.rs:49-57 | a block cut at any character contributes its event once the payload is complete and nothing before |
| StreamMetering.EventsGrow | src/consumer/metering.rs:49-57 | within a well-formed stream longer prefixes extend the event list |
| StreamMetering.EventsOfStream | src/consumer/metering.rs:49-57 | a whole stream means the events of its payloads |
| StreamMetering.PlainBlock | src/consumer/metering.rs:49-57 | letter by letter: a payload between `data: ` and a blank line is one event, `[DONE]` is none |
| StreamMetering.UnmarkedIsNothing | src/consumer/metering.rs:50 | text in which `data:` does not occur has no events |
| StreamMetering.ChunkingIndependence | src/consumer/sse.rs:154-196 | for every cut into chunks of every beginning of a well-formed stream, the reported usage is that of one scan |
| StreamMetering.WholeStream | src/consumer/sse.rs:154-196 | for a whole stream it is what the payloads say |
| StreamMetering.WhenChunksMatter | src/consumer/sse.rs:154-196 | for arbitrary text the two differ exactly when the whole text reports nothing but some prefix at a chunk boundary does |
| StreamMetering.SpoiltLine | src/consumer/sse.rs:154-196 | and they do: for every usage payload, two chunks whose usage is reported although their text as a whole has none |
| LineMetering.LinesKeepEvents | src/consumer/metering.rs:49-57 | a text that ends with a line never loses an event, whatever follows, with nothing assumed of JSON |
| LineMetering.LineChunksAreSafe | src/consumer/sse.rs:154-196 | for any text, chunks that end where lines end report what one scan reports |
| LineMetering.CutsMatterExactly | src/consumer/sse.rs:154-196 | for any text and any parser, some cut into chunks changes the answer exactly when the text as a whole reports nothing and a beginning of some marked line does |
| Catalog.ApplyAggregatedLoad | src/consumer/models.rs:328-350 | saturating sums of load and of free places; the slots field is written exactly when some provider states a concurrency |
| Catalog.SumsAreTotals | src/consumer/models.rs:328-350 | the running saturated sums are the saturated exact sums over the set of nodes, so independent of order |
| Catalog.RowIsStated | src/consumer/offerings.rs:45-60 | a row carries the load and the limit its entry states, each under its own name and in 32 bits, the older name of the load counting exactly when the newer is absent; its free places are what the limit leaves |
| Catalog.AgreementIsStated | src/consumer/models.rs:328-350 | in a union that agrees with the table the totals are the sums of the fields the entries themselves state, capped at 64 bits |
| Catalog.OneProvider | src/consumer/models.rs:328-350 | a model of one node with load a and limit c > 0 is listed with a active and max(0, c - a) free |
| Catalog.OneProviderWithoutLimit | src/consumer/models.rs:345-349 | without a limit the slots field stays what the entry said |
| Catalog.Merger.MergeModelEntry | src/consumer/models.rs:273-308 | adds one row for the node, as its entry states it, and re-aggregates; panics exactly on a first entry whose sparkl field is no object |
| Catalog.ModelsCatalog.RebuildUnion | src/consumer/models.rs:85-105 | in any iteration order the union agrees with the table, its totals being the sums of what the entries' own fields state; a panic leaves it unchanged |
| Catalog.ModelsCatalog.UpsertNode | src/consumer/models.rs:63-72 | replaces one node's models, after which the union agrees |
| Catalog.ModelsCatalog.RemoveNode | src/consumer/models.rs:75-83 | forgets one node, after which the union agrees; a node that is not there changes nothing |
| CatalogMachine.WriteAgrees | src/consumer/models.rs:85-93 | every write of the union is the merge of the table at that moment: what a rebuild saw when it took the read lock has not changed when it writes |
| CatalogMachine.CatalogAgreement | src/consumer/models.rs:37-105 | whenever the table is the one whose merge was last written, in particular when no rebuild is due and none has died since the table changed, a model is listed exactly when some node offers it, with one row per offering node and exact totals |
| CatalogMachine.AgreementLasts | src/consumer/models.rs:85-105 | agreement lasts until the table changes, panics included |
| CatalogMachine.OneBadEntryIsEnough | src/consumer/models.rs:273-286 | for every malformed upsert a run that comes to rest with an offered model unlisted |
| CatalogMachine.AgreementExactly | src/consumer/models.rs:63-105 | union and table agree at rest in all runs with upserts of a class exactly when the class brings no malformed entry |
| CatalogMachine.HealthyRun | src/consumer/models.rs:273-308 | in runs that bring no malformed entry no rebuild ever panics |
| CatalogMachine.WritesNeedGoodProviders | src/consumer/models.rs:273-286 | no rebuild can finish while some offered model is malformed at all its providers |
| CatalogMachine.MutationsTakeEffect | src/consumer/models.rs:63-82 | an upsert and a removal change their own node and no other |
| CatalogMachine.RebuildsOverlap | src/consumer/models.rs:86 | two rebuilds can hold the read lock at once and see the same table |
| ChainSession.RoundTripPrefixed | src/chain/session.rs:76-120 | every stored session behind an offset word decodes to itself, amounts clamped, whatever follows |
| ChainSession.RoundTripPlain | src/chain/session.rs:76-120 | without the offset word likewise, for every user but the address 0x20 |
| ChainSession.PlainExactly | src/chain/session.rs:84-100 | on a bare head the round trip holds exactly when the user is not the address 0x20 |
| ChainSession.DecodeTotal | src/chain/session.rs:43-102 | decoding fails exactly on data too short for its form |
| ChainSession.TooShortIs | src/chain/session.rs:79-98 | the error says how many bytes the form needs and how many there were |
| ChainSession.Layout | src/chain/session.rs:105-119 | byte by byte, for any data without the offset word, where each field is read and how numbers are capped |
| ChainSession.PrefixedLayout | src/chain/session.rs:84-93 | behind the offset word the same, 32 bytes further on |
| ChainSession.FieldsOfAnyWords | src/chain/session.rs:54-119 | for arbitrary words token counts are kept modulo 2^64 and amounts capped at 2^128-1 |
| ChainSession.BudgetSound | src/chain/session.rs:38-40 | an exhausted 256-bit budget is never missed, and one is reported early exactly when 2^128-1 <= used < locked |
| ChainSession.BudgetExactly | src/chain/session.rs:38-119 | the decoded and the 256-bit test agree for every usage exactly when the lock fits 128 bits |
| SessionId.HexExact | src/consumer/activate.rs:100-121 | for any hex digits after 0x the result is their value if below 2^64 and an error otherwise |
| SessionId.LongNeverSucceeds | src/consumer/activate.rs:111-120 | the branch for more than sixteen significant digits never succeeds |
| SessionId.DecimalExact | src/consumer/activate.rs:122-123 | for decimal digits the result is their value if below 2^64 and an error otherwise |
| SessionId.FormatRoundTrip | src/consumer/activate.rs:69-121 | parsing inverts the 64-digit zero-padded format for every 64-bit id |
| SessionId.ParseExactly | src/consumer/activate.rs:100-124 | for every string exactly when parsing succeeds, and with what value: after 0x only zeros, digits that fit 64 bits, or, after zeros, a plus sign and one to fifteen digits; otherwise decimal digits that fit, perhaps after a plus sign |
| SessionId.ErrorsAre | src/consumer/activate.rs:107-120 | which error a rejected hexadecimal string gets |
| SessionId.DigitValues | src/consumer/activate.rs:107-109 | the value of every digit, upper and lower case alike |
| SessionId.PlusIsAccepted | src/consumer/activate.rs:107-109 | a plus sign right after 0x is accepted |
| Watcher.Poller.PollOnce | src/chain/watcher.rs:54-107 | one poll changes the cursor as the specification function says, and reports success exactly when nothing failed |
| Watcher.CoverageTiles | src/chain/watcher.rs:63-106 | once set, the cursor never goes back, and the ranges covered since tile the blocks above it |
| Watcher.CoveredExactlyOnce | src/chain/watcher.rs:63-106 | once the cursor is set, whatever fails in between, a block above it is covered exactly when the cursor has reached it, and then exactly once |
| Watcher.OneRequest | src/chain/watcher.rs:67-106 | with the cursor set a poll asks once for the blocks above it up to the head; only when all answers came are they covered and the cursor moved |
| Watcher.NextRangeStartsAbove | src/chain/watcher.rs:67 | a poll starts right above the cursor exactly when the cursor is not 2^64-1, where it wraps to block 0 |
| Watcher.FailedRangeIsRetried | src/chain/watcher.rs:63-106 | a failed range is covered by the next successful poll that sees as far exactly when the failed poll left the cursor set, or the chain has not grown beyond block 1 |
| Watcher.FirstAnchor | src/chain/watcher.rs:64-66 | the first poll with a head of two or more sets the cursor just below it, also when it fails |
| Watcher.ZeroCursorSkips | src/chain/watcher.rs:64-66 | the two polls that show it: a failure at block 1, and the blocks after it skipped |

## Left out

- `clear_node` while guards, waiters or acquires still refer to the slot (`src/tunnel/lifecycle.rs:96`): the admission theorems are about runs in which a slot is only removed when nobody uses it; otherwise a late drop can reach a fresh slot of the same key.
- Weak memory: atomic operations are interleaved one at a time, in one order for everybody.
- Other keys of the capacity table: the slots of different keys share nothing, so one key is modelled.
- `max_queue_depth` and its floating-point ratio: the queue limit is any 32-bit number.
- The second channel and relay between tunnel and event stream (`src/consumer/sse.rs:135-143`): it forwards frames in order; the stream model starts at its far end.
- Byte lengths: `accumulated.len()` is counted in characters, which differs for non-ASCII text.
- SessionId.Parse: non-ASCII input, where the source counts bytes and can cut inside a character.
- Response headers collected by `collect_http_response`: the source builds them and does not use them.
- Watermarks and `last_activity` of a session batch: written, never read.
- Cancellation of usage jobs and process exit with retries running: jobs run to their end.
- On-chain effect of a send that succeeds but fails confirmation: a retry may record it twice; only the hand-over is once per batch.
- Actions on logs, and session ids over 64 bits, in the watcher: only the covered ranges are modelled.
- Static fields of merged catalog entries and the flat offerings list: a merged entry keeps the fields of the first node in iteration order, which is arbitrary.
- Catalog.Merger.MergeModelEntry is for entries that are JSON objects, as `parse_model_entries` produces.
- JSON, base64 and UUID libraries: parameters or fresh numbers; of JSON only bracket closing is assumed (`JsonLibrary`).
- Tunnel registry: the old connection's removal is keyed by node id only (`src/tunnel/lifecycle.rs:97`) and can unregister a newer connection, so nothing is claimed about who stays registered; the writer and the pinger of a connection are not modelled either, a pong timeout being a shutdown.
- Authentication, telemetry, metrics, status pages, configuration and catalog query filters.
