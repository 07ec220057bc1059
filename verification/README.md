# ggui: verified models of its stateful core

This project models the parts of the ggui monorepo whose guarantees have to hold over every interleaving or every
input, and proves those guarantees in Dafny 4.11. `dafny verify dfyconfig.toml` checks all of it.

Asynchronous code is modelled as it runs in JavaScript: the code between two awaits is one step. For each component
a total `Step` function gives the effect of one step, `Run` (or `After`) folds it over a sequence of events, and a
theorem about `Run` over an arbitrary sequence is a theorem about every interleaving; an event that cannot happen yet
changes nothing. Beside the functions stands a class with the source's fields, whose methods are the source's
segments, each proved to do to the class's `View()` exactly what the step function says. What the step functions mean
is said by theorems that do not go through them: a status, a reply, an answer or a cache entry is described by the
events that came before it. Loops over locals are methods proved against a specification that does not mention the
loop.

| module | what it models |
|---|---|
| `ToolVisibility` | the relay's tool-visibility cache and the tool-call route that asks it |
| `McpRelay` | the `tools/call` retry loop and the agent's tool catalog |
| `CatalogMemo` | the memo that shares one catalog build between requests |
| `GadgetCatalog` | the caching gadget catalog over any inner adapter |
| `NodeProcess` | the supervised child process: status machine and log lines |
| `RuntimeSupervisor` | the bounded event buffer over a handle whose listeners emit more events |
| `ChatStore`, `ChatRuns` | the in-memory chat store, and concurrent runs and snapshot requests over it |
| `RequestMeter`, `MeterEvents` | the request probe and the meter that finds it again by tag; what each event does to them |
| `Framing`, `Sse`, `SseFrames` | cutting a text that arrives in chunks; the two SSE readers |
| `Json`, `CanonicalJson`, `CardKey` | JSON text, key-sorted JSON, and the social-card key's hash preimage |
| `Ids`, `Base64`, `GuestToken` | base-62 ids, base64 text, and guest tokens from minting to the bearer header |
| `DeviceFlow` | polling of the device-code login |

## What the proofs found

Where the code and its documentation, or the property one would expect, disagree, the model follows the code.

- The comment at `packages/agent-server/src/mcp-client.ts:253-255` says ambiguous network failures throw at once. The
  code retries them once (`McpRelay.AmbiguousFailureIsRetried`).
- `CachingGadgetCatalog` keeps a rejection in flight, for good, exactly when the inner adapter once threw while it was
  called; a rejected promise is never kept (`GadgetCatalog.FailureIsCachedIff`, `InflightIsPending`, `StuckForever`).
  And `invalidate` makes later answers new exactly when no fetch for the app is in flight (`InvalidateIff`).
- A process handle reports `stopped` and then `crashed` exactly when a listener answers the exit handler's own error
  event with the run's first `stop()` (`NodeProcess.StatusPath`, `ExitPathIff`).
- A listener that subscribed ahead of the supervisor and answers a status event with another makes the supervisor
  record the wrong last status; the exact condition is `RuntimeSupervisor.LastStatusIff`, and `HandleRunIff` for runs
  of a process handle.
- The preview client normalises CR LF in its held buffer again at every chunk. Its frames depend on the chunk
  boundaries exactly when a frame closes at or after the first CR CR LF (`SseFrames.FramesDoNotMatterIff`), for a text
  that ends in a blank line exactly when it has a CR CR LF (`ClosedTextIff`).
- Signing bytes do not see members named `__proto__` (`CanonicalJson.SigningTextIff`, `ProtoIsLost`); the card key,
  which builds its objects with `Object.fromEntries`, does.
- Failed `tools/list` reads are not spaced, successful ones are (`ToolVisibility.FailedReadsAreNotSpaced`,
  `ReadsAreSpaced`).
- Who may write to a chat rests on minted ids being new: `ChatRuns.OwnedIff` has the exact condition over whole runs.
- The last device-code poll can be sent after the code has expired (`DeviceFlow.LatePollIff`).

## Model

| member | source | states |
|---|---|---|
| ToolVisibility.AnsweredByItsList | packages/agent-server/src/mcp-client.ts:640-661 | every answered call, in every run: how many reads it heard of follows from the lists it had, each list it heard of was the latest at its start or newer, and the answer is what the last list says of the name, the expired list where its only read failed, or the last read's error |
| ToolVisibility.GoodReadDecides | packages/agent-server/src/mcp-client.ts:643-660 | a call that last heard of a successful read is listed with that list's visibility, or unlisted if the list lacks the name: no older list counts |
| ToolVisibility.RelayedIff | packages/agent-server/src/app.ts:363-389 | a call is relayed exactly when it has a list to rest on and that list lacks the tool, declares no visibility for it, or shows it to the app |
| ToolVisibility.RefusedAs | packages/agent-server/src/app.ts:363-374 | any other call is refused: without a list as unavailable, else as unknown |
| ToolVisibility.OneReadInFlight | packages/agent-server/src/mcp-client.ts:615-631 | in every run at most one read of a server has not left `inflight` |
| ToolVisibility.AnswersAreRead | packages/agent-server/src/mcp-client.ts:633-661 | every `listed` answer is what some successful read of that server said of the name, every `unlisted` one is backed by a successful read that lacked it |
| ToolVisibility.StaleWhileError | packages/agent-server/src/mcp-client.ts:643-652 | a name in the last good list is answered from it unless a read succeeds meanwhile: failing re-reads never make it unlisted or unavailable |
| ToolVisibility.AnsweredAtOnceIff | packages/agent-server/src/mcp-client.ts:641-657 | a lookup is answered without a wait exactly when the server's latest good list is younger than the TTL and names the tool or is younger than the refresh minimum |
| ToolVisibility.RelayedWasVisible | packages/agent-server/src/app.ts:363-389 | a relayed call's tool was absent or app-visible in some successful read of that server, whatever the interleaving and the failed reads |
| ToolVisibility.ModelOnlyIsNeverRelayed | packages/agent-server/src/app.ts:363-374 | a tool that every successful read named without "app" is never relayed |
| ToolVisibility.ReadsAreSpaced | packages/agent-server/src/mcp-client.ts:642-660 | in microtask order a read that follows a successful one starts at least min(ttlMs, refreshMinMs) after it |
| ToolVisibility.FailedReadsAreNotSpaced | packages/agent-server/src/mcp-client.ts:622-630 | failed reads do not move `readAt`: two reads of one server can start at the same moment |
| ToolVisibility.StepKeepsInv | packages/agent-server/src/mcp-client.ts:614-661 | each step, of any lookup or read, keeps the invariant that ties entries, in-flight reads and waiting lookups to the history of successful reads |
| ToolVisibility.ToolVisibilityCache.StartRead | packages/agent-server/src/mcp-client.ts:618-631 | joins the read in flight or starts one and nothing else |
| ToolVisibility.ToolVisibilityCache.OnTools | packages/agent-server/src/mcp-client.ts:622-626 | the new entry maps each name to its last listed visibility and replaces the server's entry |
| ToolVisibility.LastOfItsNameWins | packages/agent-server/src/mcp-client.ts:624-624 | a list's map says of a name what the last tool of that name declares, and nothing of any other name |
| ToolVisibility.ReadIsLatest | packages/agent-server/src/mcp-client.ts:622-626 | a successful read is its server's list from then on, dated now, and touches no other server's |
| ToolVisibility.ReadMoves | packages/agent-server/src/mcp-client.ts:621-630 | each read stores its list or its error once, and then leaves `inflight` |
| ToolVisibility.CallHears | packages/agent-server/src/mcp-client.ts:643-660 | a waiting call goes on exactly when its read has left `inflight`, with that read's result |
| ToolVisibility.SettledReadIsNotJoined | packages/agent-server/src/mcp-client.ts:618-631 | once a read has left `inflight` the next lookup that needs one starts another, until then it is joined, and other servers notice neither |
| ToolVisibility.ToolVisibilityCache.BeginLookup | packages/agent-server/src/mcp-client.ts:640-643 | a lookup up to its first await is the step function's `Begin` |
| ToolVisibility.ToolVisibilityCache.AnswerFrom | packages/agent-server/src/mcp-client.ts:655-658 | answering from a list is the step function's `FromEntry` |
| ToolVisibility.ToolVisibilityCache.ResumeLookup | packages/agent-server/src/mcp-client.ts:643-660 | a lookup from an await to its next one or its answer is the step function's `Resume`, whose answers are those of `AnsweredByItsList` |
| McpRelay.IsPreSendFailure | packages/agent-server/src/mcp-client.ts:206-229 | true exactly when one of the first five links of the cause chain, up to the first non-error, is an error with a pre-send code |
| McpRelay.ProvesUnsentIff | packages/agent-server/src/mcp-client.ts:190-229 | which says that within five links there is one of four codes: two of name resolution, a refused connection, a connect timeout |
| McpRelay.CallMcpToolsCall | packages/agent-server/src/mcp-client.ts:283-311 | the attempts made are the one run the network allows, the delays used are a prefix of the schedule, and the result is the last attempt's |
| McpRelay.RetryBounds | packages/agent-server/src/mcp-client.ts:297-309 | at most three attempts, at most two that may have been delivered, a third only after a pre-send failure of the second, no retry after an abort seen at the check |
| McpRelay.RunIsUnique | packages/agent-server/src/mcp-client.ts:283-311 | what the network holds decides the attempts |
| McpRelay.RunLength | packages/agent-server/src/mcp-client.ts:300-302 | one attempt after a response or an abort, two after a second one of these or a second failure that does not prove that nothing was sent, else three |
| McpRelay.AmbiguousFailureIsRetried | packages/agent-server/src/mcp-client.ts:253-300 | an ambiguous failure is retried once, against the comment above the function |
| McpRelay.BuildAgentCatalog | packages/agent-server/src/mcp-client.ts:509-545 | one rejected server rejects the catalog; else each key is the first model-visible offer of its name in server order, and every name so offered is a key, `__proto__` excepted |
| McpRelay.CatalogIs | packages/agent-server/src/mcp-client.ts:515-545 | a name is a key exactly if some server offers it to the model, and it gets the server and description of the first such tool, server by server and tool by tool |
| CatalogMemo.StartsBuildIff | packages/agent-server/src/app.ts:162-171 | a request starts a build exactly when every build so far was rejected and dropped; never two at once |
| CatalogMemo.RequestIsHanded | packages/agent-server/src/app.ts:162-202 | each request is handed the one build that has not been dropped, new or not |
| CatalogMemo.DeclaredIff | packages/agent-server/src/app.ts:172-202 | the build that succeeded, and no other, is declared, once, exactly where there is a server to declare it to |
| CatalogMemo.BuildMoves | packages/agent-server/src/app.ts:162-202 | each build succeeds or is rejected once, and is dropped when its catch callback has run |
| CatalogMemo.SuccessIsFinal | packages/agent-server/src/app.ts:172-202 | after a success no build starts, every later request gets that catalog, and it is declared at most once |
| CatalogMemo.AgentCatalog.GetAgentCatalog | packages/agent-server/src/app.ts:162-202 | returns the memoized build or starts and memoizes one |
| CatalogMemo.AgentCatalog.OnRejected | packages/agent-server/src/app.ts:169-171 | drops the memo only if it still is this build |
| GadgetCatalog.AnsweredAtOnceIff | packages/gadgets/src/catalog-adapter.ts:191-196 | over every run a list call is answered at once, with the entries of the app's latest completed fetch and no inner call, exactly when ttlMs is positive, that fetch completed less than ttlMs ago, and no invalidate has dropped the app since |
| GadgetCatalog.StartsFetchIff | packages/gadgets/src/catalog-adapter.ts:198-220 | a call not answered at once joins the pending fetch; it calls the inner adapter exactly when there is none and no synchronous throw has left a rejection |
| GadgetCatalog.WaiterGetsItsFetch | packages/gadgets/src/catalog-adapter.ts:198-220 | a waiting call is answered with what its fetch returned, or fails as it did |
| GadgetCatalog.FetchMoves | packages/gadgets/src/catalog-adapter.ts:203-216 | each fetch completes with the inner call's entries or is rejected, once |
| GadgetCatalog.CacheIsLatest | packages/gadgets/src/catalog-adapter.ts:203-233 | for each app the cache holds the latest completed fetch that no invalidate has dropped since, and nothing else |
| GadgetCatalog.OneFetchPerApp | packages/gadgets/src/catalog-adapter.ts:198-220 | at most one inner fetch per app runs at a time |
| GadgetCatalog.AnswersAgreeWithInner | packages/gadgets/src/catalog-adapter.ts:191-220 | every answer is what an inner call for that app returned, joined or completed less than ttlMs ago; every failure is one of an inner call for that app |
| GadgetCatalog.InvalidateIff | packages/gadgets/src/catalog-adapter.ts:222-233 | after invalidate every later answer comes from an inner call started afterwards, exactly when no fetch for the app is in flight |
| GadgetCatalog.FailureIsCachedIff | packages/gadgets/src/catalog-adapter.ts:198-219 | over all runs a rejection stays in flight for an app exactly when a list call for it once called the inner adapter and that threw synchronously |
| GadgetCatalog.InflightIsPending | packages/gadgets/src/catalog-adapter.ts:198-219 | with an inner adapter that returns promises, what is in flight is always a pending fetch: no failure is ever kept |
| GadgetCatalog.StuckForever | packages/gadgets/src/catalog-adapter.ts:198-219 | once a rejection stays, it stays for good and no inner call for the app starts again |
| GadgetCatalog.StepKeepsInv | packages/gadgets/src/catalog-adapter.ts:191-233 | each step keeps cache, in-flight map and calls tied to the inner calls |
| GadgetCatalog.CachingGadgetCatalog.List | packages/gadgets/src/catalog-adapter.ts:191-220 | a fresh entry, else the fetch in flight, else a new fetch, whose key a synchronous throw deletes before it is set |
| GadgetCatalog.CachingGadgetCatalog.OnFetched | packages/gadgets/src/catalog-adapter.ts:205-216 | stores the entry when ttlMs is positive and leaves `inflight`; `CacheIsLatest` and `AnsweredAtOnceIff` say what comes of it |
| GadgetCatalog.CachingGadgetCatalog.OnRejected | packages/gadgets/src/catalog-adapter.ts:213-216 | leaves `inflight` and stores nothing |
| GadgetCatalog.CachingGadgetCatalog.Invalidate | packages/gadgets/src/catalog-adapter.ts:227-233 | drops one app's entry, or all |
| NodeProcess.StatusPath | packages/agent-runtime/src/process.ts:255-426 | in every run, listeners that call stop() included: the status events are starting, optionally ready, at most one of stopped and crashed, exactly when no listener answers the first exit's own error event with the run's first stop(); and the status shown is the last emitted |
| NodeProcess.StatusesAreDistinct | packages/agent-runtime/src/process.ts:407-415 | no status is ever emitted twice |
| NodeProcess.TerminalStays | packages/agent-runtime/src/process.ts:255-408 | after any step that leaves a terminal status, no status event follows, in every run |
| NodeProcess.ExitPathIff | packages/agent-runtime/src/process.ts:358-405 | in that one case, and no other, the run ends in stopped followed by crashed |
| NodeProcess.CrashedIff | packages/agent-runtime/src/process.ts:358-405 | in every run, crashed exactly when the first exit has a signal or a non-zero code and no stop() came before, not even from a listener that hears the last unterminated line |
| NodeProcess.ReadyIff | packages/agent-runtime/src/process.ts:299-336 | in every run ready is emitted exactly when, with a readyCheck, some check passes with no stop() and no exit before; without one, when the timer fires with no exit before and no stop() of a child already gone |
| NodeProcess.StatusIs | packages/agent-runtime/src/process.ts:255-408 | the status after any events, from the events alone: crashed, stopped, ready or starting |
| NodeProcess.ErrorsAre | packages/agent-runtime/src/process.ts:236-242 | the error events are exactly the child's own errors, the live checks that throw, those that fail before any passes, and the first exit if it crashes |
| NodeProcess.NoReadyAfterStop | packages/agent-runtime/src/process.ts:308-336 | with a readyCheck no ready follows stop(), in every run |
| NodeProcess.ReadyMayFollowStop | packages/agent-runtime/src/process.ts:299-306 | without one, ready may appear between stop() and exit |
| NodeProcess.LinesDependOnText | packages/agent-runtime/src/process.ts:338-356 | before exit a stream's lines and held text depend only on the concatenated chunks: cut at LF, one CR dropped, cut to length in UTF-16 units; nothing held contains LF |
| NodeProcess.LinesAre | packages/agent-runtime/src/process.ts:338-356 | one line for each LF of the text: its piece without one last CR, and if longer than the limit, the first units of it and an ellipsis |
| NodeProcess.ExitFlushesTail | packages/agent-runtime/src/process.ts:359-371 | exit adds a non-empty tail once, uncut, without one last CR, and empties the buffer |
| NodeProcess.NodeProcessHandle.RequestStop | packages/agent-runtime/src/process.ts:255-266 | stop() up to the kill is the step function's `Stop` |
| NodeProcess.NodeProcessHandle.OnReadyTimer | packages/agent-runtime/src/process.ts:299-306 | ready only from starting |
| NodeProcess.NodeProcessHandle.OnProbeSettled | packages/agent-runtime/src/process.ts:308-331 | an aborted probe does nothing; a live one raises ready, or its failure an error, from starting only, and its throw an error at any time; `ReadyIff` and `ErrorsAre` say what comes of it |
| NodeProcess.NodeProcessHandle.OnChunk | packages/agent-runtime/src/process.ts:338-356 | the in-place line loop does what cutting the text says |
| NodeProcess.NodeProcessHandle.OnExit | packages/agent-runtime/src/process.ts:358-405 | the exit handler, listeners that call stop() included, is the step function's `Exit` |
| RuntimeSupervisor.RuntimeSupervisor.Observe | packages/dev-stack/src/runtime-supervisor.ts:144-156 | the buffer stays the last min(total, bufferSize) events of the whole history, numbered by their place in it, and lastEventAt the last event's time |
| RuntimeSupervisor.RuntimeSupervisor.Snapshot | packages/dev-stack/src/runtime-supervisor.ts:125-137 | consecutive sequences ending at the total, with exactly those events, and the time of the last event |
| RuntimeSupervisor.RuntimeSupervisor.constructor | packages/dev-stack/src/runtime-supervisor.ts:114-122 | an empty history and a capacity of max(1, bufferSize or 200) |
| RuntimeSupervisor.RuntimeHandle.EmitAll | packages/agent-runtime/src/process.ts:412-426 | nested emissions reach the supervisor, where it was subscribed when emit began, in the order of `Recorded`, and the handle's status is the last emitted |
| RuntimeSupervisor.RecordedIsHeard | packages/agent-runtime/src/process.ts:412-426 | the supervisor misses nothing emitted while it is subscribed and sees nothing twice, however emissions nest |
| RuntimeSupervisor.LastStatusAgrees | packages/dev-stack/src/runtime-supervisor.ts:144-165 | unless the last status was overtaken, the recorded history ends in the status set last, nested events from onEvent included |
| RuntimeSupervisor.LastStatusIff | packages/agent-runtime/src/process.ts:412-426 | and, statuses being distinct, only then |
| RuntimeSupervisor.FirstListenerIsInOrder | packages/dev-stack/src/runtime-supervisor.ts:121-121 | when nothing is caused ahead of the supervisor it records the events in the order they were emitted |
| RuntimeSupervisor.HandleRunIff | packages/agent-runtime/src/process.ts:407-426 | for every run of the process handle the recorded history ends in the handle's status exactly when the last status was not overtaken |
| RuntimeSupervisor.EarlierListenerOvertakes | packages/agent-runtime/src/process.ts:255-264 | a run of the handle, with the child gone at ready, in which an earlier listener's stop() makes the record end in ready |
| RuntimeSupervisor.Supervise | packages/dev-stack/src/runtime-supervisor.ts:114-165 | attached before the first status event, the history ends in the handle's status unless it was overtaken |
| ChatStore.AppendedIsFound | packages/agent-server/src/chat-store.ts:96-130 | after an append get returns the chat with that message last, the first writer as owner, its first creation time and the new update time, and every other chat as before |
| ChatStore.EnsuredIsFound | packages/agent-server/src/chat-store.ts:96-106 | after an ensure get returns the chat it returned before, or an empty one of this owner made now, and every other chat as before |
| ChatStore.InMemoryChatStore.Ensure | packages/agent-server/src/chat-store.ts:99-106 | creates an empty row for an unknown chat, else changes nothing |
| ChatStore.InMemoryChatStore.Append | packages/agent-server/src/chat-store.ts:107-130 | appends, keeping id, owner and creation time; creates the row for an unknown chat |
| ChatStore.AppendedExtends | packages/agent-server/src/chat-store.ts:107-130 | an append loses no chat, no owner, no message and no order |
| ChatStore.EnsuredExtends | packages/agent-server/src/chat-store.ts:99-106 | nor does ensure |
| ChatRuns.GetIff | packages/agent-server/src/app.ts:292-323 | every snapshot request in every run: the owner of a chat in the store gets all messages of that moment, the k-th text being what re-inlining makes of the k-th message; anyone else 403, an unknown id 404, no id 400; and the reply stays so |
| ChatRuns.PostIff | packages/agent-server/src/app.ts:413-439 | a chat request is refused exactly when it names a chat of another principal; otherwise it starts a run for its principal in the chat it names or mints |
| ChatRuns.StoreIs | packages/agent-server/src/app.ts:413-511 | after any events there is a chat exactly for each id that a request was for; its owner is the first such request's principal, its messages are those its runs yielded while running, in order |
| ChatRuns.RunMoves | packages/agent-server/src/app.ts:469-517 | each run is announced, then stores and writes one message after another until it finishes or stores one after an abort; a client that is gone receives nothing |
| ChatRuns.AbortEndsRun | packages/agent-server/src/app.ts:474-516 | once aborted, a run stores at most one more message, none if it is over, and writes none but the one being written |
| ChatRuns.StoreOnlyGrows | packages/agent-server/src/chat-store.ts:93-131 | over every interleaving owner and creation time of a chat never change, its messages stay where they are, and so do the replies |
| ChatRuns.MessagesInterleave | packages/agent-server/src/app.ts:482-517 | a chat's messages are an order-preserving interleaving of what its runs intercepted; what a client saw live is a prefix of what its run stored, all of it while it is connected and nothing is being written; a run not yet announced has stored nothing |
| ChatRuns.SnapshotsGoToTheOwner | packages/agent-server/src/app.ts:292-323 | every 200 snapshot went to the chat's owner and has one text for each of the first messages that the chat holds at any later time |
| ChatRuns.AllocatedStays | packages/agent-server/src/app.ts:439-481 | an id sent in chat-allocated stays in the store |
| ChatRuns.OwnedIff | packages/agent-server/src/app.ts:413-439 | over every interleaving all runs write to chats of their own principal exactly when each minted id was new or the caller's own |
| ChatRuns.MessagesAreTheOwners | packages/agent-server/src/app.ts:413-508 | with such ids every stored message was appended by a run of the chat's owner |
| ChatRuns.StepKeepsInv | packages/agent-server/src/app.ts:292-517 | each step of each request keeps runs, tags, live views and replies consistent with the store |
| ChatRuns.AgentApp.PostChat | packages/agent-server/src/app.ts:413-439 | ownership check, allocation and ensure are one step |
| ChatRuns.AgentApp.SendAllocated | packages/agent-server/src/app.ts:469-481 | the chat-allocated event comes before any message |
| ChatRuns.AgentApp.OnMessage | packages/agent-server/src/app.ts:500-516 | store, then stop if aborted, else write |
| ChatRuns.AgentApp.OnWritten | packages/agent-server/src/app.ts:512-516 | a client that is gone receives nothing more |
| ChatRuns.AgentApp.GetAgent | packages/agent-server/src/app.ts:292-323 | 400, 404, 403, or the snapshot with each stored message re-inlined in its place; `GetIff` says which |
| MeterEvents.EventsAreRecorded | e2e/mcp-host-simulator/src/shell-read.ts:144-187 | in every run a probe records its own first write, every chunk's bytes, first and last byte times, response and first end with how it ended, and nothing of any other event |
| MeterEvents.GateRunsIff | e2e/mcp-host-simulator/src/shell-read.ts:144-187 | in every run the deadline of a gated probe runs, budget milliseconds from the write, exactly until the first byte, the end, the abort or finish() |
| MeterEvents.GateAbortsWhenDue | e2e/mcp-host-simulator/src/shell-read.ts:151-159 | the gate aborts at the first firing at its deadline or later, and at nothing else |
| MeterEvents.SendTakes | e2e/mcp-host-simulator/src/shell-read.ts:376-391 | a resources/read takes the armed probe if there is one, every other POST a new passive one, and its tag leads to that probe |
| MeterEvents.ArmedMoves | e2e/mcp-host-simulator/src/shell-read.ts:342-384 | the armed probe is the last one armed, until it is disarmed or taken |
| MeterEvents.FirstWatcherIsResolved | e2e/mcp-host-simulator/src/shell-read.ts:383-384 | of the waiting watchers that ask for a POST the first is resolved with it and waits no more; the others wait on |
| MeterEvents.WaitsIff | e2e/mcp-host-simulator/src/shell-read.ts:354-384 | a watcher waits exactly while it is registered and neither resolved nor cancelled |
| RequestMeter.RegisteredUntilEnd | e2e/mcp-host-simulator/src/shell-read.ts:387-400 | a post's tag maps to its probe, the probe is in flight and it has not ended: all three or none; it is removed once |
| RequestMeter.OverIsDeregistered | e2e/mcp-host-simulator/src/shell-read.ts:402-438 | a failed fetch, a response without a body, and the end, failure or cancelling of a body each deregister the post |
| RequestMeter.TakenAtMostOnce | e2e/mcp-host-simulator/src/shell-read.ts:379-384 | a probe serves at most one post, an armed one only a resources/read; a watcher gets at most one post, which matches it, and no post goes to two |
| RequestMeter.WaitersAnsweredOnce | e2e/mcp-host-simulator/src/shell-read.ts:161-199 | every header waiter is resolved exactly once, with true exactly when headers arrived |
| RequestMeter.GateAbortsOnlySilence | e2e/mcp-host-simulator/src/shell-read.ts:144-159 | the gate aborts only a request written at least the budget ago with no body byte and no end |
| RequestMeter.StepKeepsInv | e2e/mcp-host-simulator/src/shell-read.ts:331-440 | each segment of any post, watcher or timer keeps the bookkeeping consistent |
| RequestMeter.RequestProbe.OnWritten | e2e/mcp-host-simulator/src/shell-read.ts:144-159 | only the first write counts and starts the gate, unless a byte or the end came first |
| RequestMeter.RequestProbe.OnHeaders | e2e/mcp-host-simulator/src/shell-read.ts:161-167 | the response is noted and all waiters get true |
| RequestMeter.RequestProbe.OnChunk | e2e/mcp-host-simulator/src/shell-read.ts:169-177 | the first byte stops the gate; bytes add up |
| RequestMeter.RequestProbe.OnEnd | e2e/mcp-host-simulator/src/shell-read.ts:180-187 | only the first end counts; it stops the gate and answers the waiters |
| RequestMeter.RequestProbe.HeadersArrived | e2e/mcp-host-simulator/src/shell-read.ts:195-199 | answered at once where the answer is known, else queued |
| RequestMeter.RequestProbe.SettleHeaderWaiters | e2e/mcp-host-simulator/src/shell-read.ts:282-284 | the loop resolves each waiter once, in order, and empties the queue |
| RequestMeter.RequestMeter.constructor | e2e/mcp-host-simulator/src/shell-read.ts:331-336 | a meter with nothing armed, watched or in flight |
| RequestMeter.RequestMeter.Fetch | e2e/mcp-host-simulator/src/shell-read.ts:376-391 | what is not a POST passes through; a POST takes the armed or a new probe, resolves the first matching watcher and registers its tag |
| RequestMeter.RequestMeter.OnResponse | e2e/mcp-host-simulator/src/shell-read.ts:408-412 | notes the headers, and runs done() at once for a response without a body |
| RequestMeter.RequestMeter.OnFetchThrew | e2e/mcp-host-simulator/src/shell-read.ts:402-407 | runs done() |
| RequestMeter.RequestMeter.FindWatcher | e2e/mcp-host-simulator/src/shell-read.ts:383-384 | the first watcher that asked for this post |
| RequestMeter.RequestMeter.RunDone | e2e/mcp-host-simulator/src/shell-read.ts:393-400 | the first done() ends and deregisters, a second does nothing |
| RequestMeter.RequestMeter.OnBodyOver | e2e/mcp-host-simulator/src/shell-read.ts:414-438 | the end, failure or cancelling of a body runs done() |
| RequestMeter.RequestMeter.Cancel | e2e/mcp-host-simulator/src/shell-read.ts:363-366 | takes the watcher out if it still waits |
| Framing.SplitIsUnique | packages/agent-runtime/src/process.ts:340-355 | there is one way to cut a text at every separator |
| Framing.SplitAppend | e2e/wire-scenarios/fixtures/agent-driver.ts:403-412 | cutting a prefix and going on from what it held is cutting the whole |
| Framing.FeedIsSplit | e2e/wire-scenarios/fixtures/agent-driver.ts:403-412 | so any chunking gives the same pieces |
| Sse.ChatStream.OnText | e2e/wire-scenarios/fixtures/agent-driver.ts:403-412 | startChat's frames are always those of the concatenated text |
| Sse.CrLfBecomesLf | packages/dev-stack/hub-preview-client/main.tsx:398-398 | the replacement turns every CR LF into LF and changes nothing else |
| Sse.ReadDependsOnText | packages/dev-stack/hub-preview-client/main.tsx:394-402 | without CR CR LF the preview reader's frames are those of the normalised text |
| Sse.ChunksDoNotMatterIff | packages/dev-stack/hub-preview-client/main.tsx:397-402 | chunk boundaries do not matter to the frames together with the text still held exactly when the text has no CR CR LF |
| Sse.PreviewStream.OnText | packages/dev-stack/hub-preview-client/main.tsx:394-402 | the in-place loop is that reader |
| SseFrames.FramesDoNotMatterIff | packages/dev-stack/hub-preview-client/main.tsx:394-402 | chunk boundaries do not matter to the dispatched frames exactly when no frame closes at or after the first CR CR LF once every CR before an LF is dropped |
| SseFrames.ClosedTextIff | packages/dev-stack/hub-preview-client/main.tsx:397-402 | for a text that ends in a blank line: exactly when it has no CR CR LF |
| SseFrames.FramesBound | packages/dev-stack/hub-preview-client/main.tsx:397-402 | no chunking finds more frames than the text with every CR before an LF dropped |
| SseFrames.FramesBefore | packages/dev-stack/hub-preview-client/main.tsx:394-402 | every chunking finds the frames of the text before the first CR CR LF |
| SseFrames.DripFindsAll | packages/dev-stack/hub-preview-client/main.tsx:394-402 | single characters with empty chunks between them find all frames of the text so stripped |
| Json.PrintRoundTrip | packages/gadget-signing/src/index.ts:211-213 | a reader of JSON text, written from RFC 8259, reads every printed value back, escapes included |
| Json.EscapeIsShortest | packages/gadget-signing/src/index.ts:211-213 | of all texts that read as a character its escape is the shortest, and the only one of that length in lower-case hexadecimal |
| Json.PrintIsInjective | packages/gadget-signing/src/index.ts:211-213 | JSON text determines the value, key order included |
| CanonicalJson.FirstDifferenceDecides | packages/gadget-signing/src/index.ts:221-221 | strings are compared by the first UTF-16 unit in which they differ, a proper prefix first |
| CanonicalJson.OrderExamples | packages/gadget-signing/src/index.ts:220-225 | array indices up to 2^32 - 2 come first by number, then upper before lower case, then surrogate pairs before U+E000 |
| CanonicalJson.SortByOrders | packages/gadget-signing/src/index.ts:220-222 | sorting entries puts distinct keys in JavaScript's string order |
| CanonicalJson.AssignedOrders | packages/gadget-signing/src/index.ts:223-225 | assigning sorted entries to a new object leaves array-index keys first by number and the others in string order |
| CanonicalJson.ArrangedIs | packages/gadget-signing/src/index.ts:220-225 | no member is lost or added but those named `__proto__` |
| CanonicalJson.SortedInPlace | packages/gadget-signing/src/index.ts:215-228 | it does not matter whether a value is sorted before its object is arranged or as it is assigned |
| CanonicalJson.SortedIffSame | packages/gadget-signing/src/index.ts:215-228 | two values sort to the same value exactly when they are equal up to key order at every depth |
| CanonicalJson.SortedIsIdempotent | packages/gadget-signing/src/index.ts:215-228 | canonicalSort is idempotent |
| CanonicalJson.SortedIsSame | packages/gadget-signing/src/index.ts:215-228 | and changes nothing but key order |
| CanonicalJson.SigningTextIff | packages/gadget-signing/src/index.ts:211-228 | canonicalJson is equal exactly for values equal up to key order, over the members not named `__proto__` |
| CanonicalJson.SigningTextIffSame | packages/gadget-signing/src/index.ts:211-228 | and up to key order alone where no member is |
| CanonicalJson.ProtoIsLost | packages/gadget-signing/src/index.ts:224-224 | with one, two different values can have the same bytes |
| CardKey.CardTextIsSorted | packages/brand/src/card-key.ts:69-75 | the replacer-driven text is the text of the sorted value |
| CardKey.PreimageIff | packages/brand/src/card-key.ts:56-62 | for NUL-free digests two preimages are equal exactly when digest, engine (absent is empty, any characters) and input up to key order and default eyebrow are |
| CardKey.WithEyebrowReplaces | packages/brand/src/card-key.ts:57-57 | an eyebrow that is set keeps its value and its place, a null one gets the default, and no other member changes |
| CardKey.WithEyebrowAppends | packages/brand/src/card-key.ts:57-57 | an eyebrow that is not there is added last, with the default |
| CardKey.DefaultEyebrowIsImplied | packages/brand/src/card-key.ts:57-57 | leaving the eyebrow out, or null, keys like naming the default |
| CardKey.NulInDigestCollides | packages/brand/src/card-key.ts:58-58 | with a NUL in the digest the parts could run together |
| Ids.Base62FromBytes | packages/agent-server/src/auth.ts:144-155 | exactly len digits whose base-62 value is the big-endian value of the bytes modulo 62^len |
| Ids.MintChatId | packages/agent-server/src/chat-store.ts:29-41 | the inlined loop computes the same, over 16 bytes and 22 digits |
| Ids.DistinctIdsIff | packages/agent-server/src/auth.ts:144-155 | n-byte inputs get distinct ids exactly when 256^n is at most 62^len |
| Ids.MintedIdsDetermineBytes | packages/agent-server/src/auth.ts:161-163 | 16 bytes and 22 digits: ids are equal exactly when the bytes are |
| Base64.BytesToBase64 | packages/gadget-signing/src/index.ts:158-165 | the padded text, which decodes to the bytes |
| Base64.BytesToBase64Url | packages/gadget-signing/src/index.ts:173-178 | the replacements give the unpadded URL-safe text of section 5 of RFC 4648, which decodes to the bytes |
| Base64.Base64ToBytes | packages/gadget-signing/src/index.ts:180-187 | the bytes that atob's text stands for, or refused where atob throws |
| Base64.AtobOfBtoa | packages/gadget-signing/src/index.ts:158-187 | atob undoes btoa |
| Base64.UrlRoundTrip | packages/agent-server/src/auth.ts:293-325 | URL-safe text decodes to the bytes |
| Base64.UrlTextAlphabet | packages/agent-server/src/auth.ts:298-300 | and has no dot |
| GuestToken.AuthenticatedIff | packages/agent-server/src/auth.ts:303-354 | for every header, secret and time: authenticated as p exactly when the header carries a token whose part before the first dot reads back as JSON naming p, whose rest decodes from hexadecimal to the HMAC of that part, and p has not expired |
| GuestToken.WrongSignatureIsNobody | packages/agent-server/src/auth.ts:310-320 | a token whose rest does not decode to that HMAC authenticates nobody at any time |
| GuestToken.CarriesIff | packages/agent-server/src/auth.ts:340-344 | the header pattern finds a token exactly in white space, "Bearer", white space, the token, white space |
| GuestToken.DecodeIff | packages/agent-server/src/auth.ts:303-338 | a token decodes to p exactly when it is a body naming p, a dot, and the body's HMAC |
| GuestToken.DecodeOfEncode | packages/agent-server/src/auth.ts:293-338 | decoding an encoded payload returns it: the split at the dot is exact and the signature matches |
| GuestToken.BearerOfToken | packages/agent-server/src/auth.ts:340-344 | the header pattern takes the whole token and nothing else |
| GuestToken.MintedAuthenticates | packages/agent-server/src/auth.ts:340-354 | a token as a bearer header authenticates exactly its payload at every time up to and including expiresAt, and never after |
| GuestToken.MintToken | packages/agent-server/src/auth.ts:223-237 | so does every minted one, for the minted id and dates |
| DeviceFlow.PollForTokens | packages/ggui-cli/src/auth-login.ts:142-173 | ends for every server and clock, with the polls and the outcome that the replies and the expiry checks determine |
| DeviceFlow.OutcomeIs | packages/ggui-cli/src/auth-login.ts:152-173 | authorization_pending and slow_down are followed by another poll unless the code has expired; any other answer ends the login as it says |
| DeviceFlow.SentAtIs | packages/ggui-cli/src/auth-login.ts:147-163 | the first poll is sent one interval after the start, each later one the interval, 5 s per slow_down so far, and the sleep's lateness after the answer before |
| DeviceFlow.PollsAreDetermined | packages/ggui-cli/src/auth-login.ts:142-173 | there is one such number of polls and one outcome |
| DeviceFlow.PollsAreBounded | packages/ggui-cli/src/auth-login.ts:149-150 | n polls imply (n - 1) intervals below expires_in |
| DeviceFlow.PollsKeepTheirDistance | packages/ggui-cli/src/auth-login.ts:150-163 | consecutive polls are at least the interval plus 5 s per slow_down so far apart, and all but the last are sent before expiry |
| DeviceFlow.LatePollIff | packages/ggui-cli/src/auth-login.ts:147-152 | in every run a poll is sent after expiry exactly when it is the last and the lifetime left at its check is no longer than its sleep |
| DeviceFlow.LastPollMayBeLate | packages/ggui-cli/src/auth-login.ts:149-152 | which happens whenever the lifetime is no longer than the interval |

## Left out

- HTTP, Hono, sockets, child processes, timers, files and signals: they appear as events or parameters; escalation to SIGKILL is not part of the model.
- Cryptography: HMAC is any function of secret and text, and the hashing and truncation of the card key to 16 hex digits is not modelled.
- GuestToken.MintedAuthenticates: UTF-8 is any encoding that is read back; numbers are whole and below 10^21. How JSON.parse and Buffer read text that the server did not write (white space, stray characters) is modelled only as far as its own tokens need.
- GuestToken.AuthenticatedIff: a body is read with this model's readers of base64 and JSON; what Buffer.from and JSON.parse accept beyond them (`+`, `/` and `=` in a body, white space between JSON tokens) is not modelled.
- Json.PrintIsInjective: values are those JSON text can hold, with distinct keys; undefined, toJSON, numbers beyond their printed text and lone surrogates are not part of it.
- NodeProcess.LinesDependOnText: chunks after exit are outside the claim.
- The order between events of different kinds from one process handle: statuses, errors and lines are kept in separate sequences.
- RuntimeSupervisor.RuntimeSupervisor.constructor: sizes are whole numbers.
- ToolVisibility.ReadsAreSpaced: assumes the waiters of a settled read resume before the clock moves.
- The `onStale` callback, the names and texts of log lines, and a `listTools` that throws synchronously.
- McpRelay.BuildAgentCatalog: what a tool carries beside its name and visibility is opaque, and the warning about a duplicate is not modelled.
- McpRelay.IsPreSendFailure: the message text that is joined from the same walk.
- ChatRuns.OwnedIff: covers the default ownership check; an asynchronous authorizeChat and a custom store are not modelled.
- ChatRuns.AgentApp.GetAgent: what re-inlining makes of a message is any text; the request-body checks before a chat starts are not modelled.
- RequestMeter.RequestMeter.Fetch: probes are kept by number, so the model has no aliasing of probe objects; the tag map is that of one meter, since tags carry the meter's id. How a POST's abort signals are combined, and a request whose headers cannot be built, are not modelled.
- handleFrame and the parsing of frames into events: each frame is handled alone.
- The text decoder in front of both SSE readers.
- DeviceFlow.PollForTokens: intervals beyond what a timer can hold, and fractions of a second.
- The stub runtime: its controller may inject any status.
- Zod schemas and regex grammars, which check the shape of data; React code, console routes, brand geometry and benchmark formatting, which present it. The modules above depend on neither.
