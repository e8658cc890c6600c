# Verified model of the Aegis cognition core

A Dafny model of the concurrent, protocol and decision-making core of `aegis_cognition`, with proofs
of what that core promises over every input, every run and every interleaving.

| files | what they model |
|---|---|
| `LockCore`, `CrossLoopLock`, `LockProtocol`, `LockSafety`, `LockTheorems` | the hand-written lock shared by tasks on different event loops: its guarded blocks as an object and as functions, all interleavings of them as a step system, a token invariant, order and bounded hand-off |
| `ServerGate` | one lock per MCP server for tool calls without a read-only grant, across timeouts and re-registration |
| `RequestGate` | the reader/exclusive gate of a stdio provider and the response limit it guards |
| `JsonTree`, `JsonText`, `SchemaRefs`, `SchemaCompaction`, `SchemaMeaning` | compaction of a tool's JSON schema under a character and a `$ref` budget, and what it keeps at the end of every route into the schema |
| `Bytes`, `StdioFramer`, `SseReader` | the two incremental readers: newline frames, and server-sent events (LF and CRLF subset of sections 9.2.5 and 9.2.6 of the WHATWG HTML standard) |
| `SubscriptionProtocol`, `NotificationSubscription` | the notification subscription as a state machine and as an object |
| `Registry`, `RegistryRuns`, `RegistryMeaning`, `ToolSearch` | the tool registry with its capacity and revision, and paged search over it |
| `DirectoryWalk`, `DirectoryTheorems`, `DirectoryOrder` | bounded discovery of metadata files with an explicit stack: what is found, how often and in which order |
| `SkillLines`, `SkillPaging` | line splitting and paging of skill resources |
| `Statistics`, `StatisticsLaws`, `Measurement`, `MeasurementSession`, `MeasurementMeaning` | sequential measurement: statistics, checkpoint results and what they show, sessions |
| `AnchorOrder`, `AnchorSelection`, `AnchorPlan`, `AnchorTheorems`, `AnchorPriority`, `AnchorInput` | the budgeted anchor planner: plans, their priorities and what is wrong with a call |
| `Options`, `Sorting`, `TextOrder` | shared vocabulary: missing values, stable sorting by an order, text order by code point |

Code that updates objects or loops over state in the source is a class or a method here and is proved equal
to a function; the theorems are about those functions. The `Meaning`, `Laws`, `Order`, `Priority` and `Input` modules
say what such a function computes without naming its steps. `dafny verify dfyconfig.toml` checks the project.

Where the code does something its names or its own checks do not suggest, the model follows the code:

- An overflow during a checkpoint resets the block count but not the observation count, so the result fails its
  own validation. `Measurement.ResultValidates` gives the exact condition, `Measurement.OverflowIsRejected` an input.
- A resource update is published as soon as some resource was acknowledged; its URI is not compared with the
  acknowledged ones. `SubscriptionProtocol.PublishedExactlyWhen` is the exact condition, `UpdatesAreNotMatchedByUri` a run.
- A skill page is refused when the first line that does not fit is over the cap, even if earlier lines of the page
  would fit. `SkillPaging.RefusedForOneLine` is the exact condition, `ShortLineIsRefusedWithLongOne` a text.
- A tool registered under a name that is not its own normal form cannot be invoked by that name.
  `RegistryRuns.ToolsResolveByNormalName` is the exact condition, `CapitalNameIsUnreachable` a run.
- Schema compaction can miss a character limit below 17: its last resort is the bare object schema, which has 17
  characters. `SchemaCompaction.LimitIsMetExactly` is the exact condition, `SmallLimitsMayBeMissed` an input on each side.
- The pending limit of the event-stream reader is named a limit on lines, but counts whole chunks: lines that pass one
  by one can trip it together. `SseReader.LimitIsOnChunks` is the exact condition, `ShortLinesTripTogether` an input;
  `SseReader.ChunkingIsInvisible` shows that this is the only way in which chunking can be noticed.
- The planner tests a sum of costs for overflow before it tests it against the budget, so an optional anchor that would
  only be skipped can block the plan. `AnchorTheorems.BlockedMeansUnsound` is the exact condition,
  `OverflowBlocks` says what the costs alone decide, and `DearOptionalAnchorBlocks` is a family of inputs.
- A request that is cancelled while its finally block waits for the condition lock never gives its slot back.
  `RequestGate.GateIsOpenExactly` and `ProgressExactly` give the exact condition under which requests still get in,
  `LostSlotsBlockForGood` says which are never admitted again, and `SlotCanBeLost` and `ReaderWaitsForGood` are a
  run that loses a slot and a request that then waits for good.

## Model

| member | source | states |
|---|---|---|
| `CrossLoopLock.CrossLoopAsyncLock.Enter` | aegis_cognition/_async_primitives.py:28-35 | Takes a free lock at once; otherwise one fresh waiter joins the end of the queue and nothing else changes |
| `CrossLoopLock.CrossLoopAsyncLock.FinishAcquire` | aegis_cognition/_async_primitives.py:43-46 | Succeeds exactly for a granted waiter, which becomes acquired; otherwise the hand-off was lost and nothing changes |
| `CrossLoopLock.CrossLoopAsyncLock.NextWaiterLocked` | aegis_cognition/_async_primitives.py:62-69 | The loop grants the oldest waiting waiter or opens the lock, over the whole state of the lock and all waiters |
| `CrossLoopLock.CrossLoopAsyncLock.ReleaseLocked` | aegis_cognition/_async_primitives.py:55-59 | Fails exactly on an open lock, without effect; otherwise hands the lock on |
| `CrossLoopLock.CrossLoopAsyncLock.CancelWaiter` | aegis_cognition/_async_primitives.py:71-82 | A waiting waiter leaves the queue; a granted one gives its grant to the next in line; any other is left alone |
| `CrossLoopLock.CrossLoopAsyncLock.AbandonGrant` | aegis_cognition/_async_primitives.py:92-97 | A live grant refused by its loop is cancelled and handed on; a dead one is ignored |
| `CrossLoopLock.CrossLoopAsyncLock.Deliver` | aegis_cognition/_async_primitives.py:99-109 | Which of the four outcomes a delivery has, what it does to the future, and that only a cancelled future hands the lock on |
| `CrossLoopLock.CrossLoopAsyncLock.Dispatch` | aegis_cognition/_async_primitives.py:84-90 | The retry loop ends, refines the recursive dispatch, and only an open loop ends up with the callback |
| `LockCore.DispatchFindsFirstOpen` | aegis_cognition/_async_primitives.py:84-97 | Dispatching serves the line in order: everyone before the first open loop is cancelled, that waiter gets the grant, all others keep their places |
| `LockSafety.StepKeepsInv` | aegis_cognition/_async_primitives.py:28-109 | Every enabled step of acquire, release, cancellation, refusal, delivery and resumption keeps the token, queue and flight invariant |
| `LockTheorems.OneOwner` | aegis_cognition/_async_primitives.py:28-109 | In every state of every interleaving the lock is locked exactly when there is exactly one owner, a holder or a live grant |
| `LockTheorems.NoFault` | aegis_cognition/_async_primitives.py:43-58 | A lost hand-off, a second resolution of a future and a release of an open lock are unreachable |
| `LockTheorems.FifoHandoff` | aegis_cognition/_async_primitives.py:30-46 | Grants follow arrival order without the withdrawn calls, each call is granted once, each grant ends once before the next, an open lock has no queue |
| `LockTheorems.HistoryGrows` | aegis_cognition/_async_primitives.py:30-109 | Along a run the order of arrivals, grants and endings is only extended |
| `LockTheorems.WaitersAreServed` | aegis_cognition/_async_primitives.py:62-109 | While a call waits, someone holds the lock or a grant is in flight with an enabled next step |
| `LockTheorems.HandoffIsBounded` | aegis_cognition/_async_primitives.py:71-109 | Between two holders at most three token moves happen per queued call and three per call that arrives meanwhile |
| `LockTheorems.SecondCallGetsTheLock` | aegis_cognition/_async_primitives.py:28-109 | A concrete run of the steps: a second call waits, is granted on release, and its acquire returns with the lock |
| `ServerGate.EventKeepsInv` | aegis_cognition/extensions.py:7038-7087 | Registration, re-registration, collection of the weak entry, timeouts and settlement keep calls and locks in agreement |
| `ServerGate.OneUngrantedCallPerServer` | aegis_cognition/extensions.py:7055-7087 | Two ungranted calls of one server are never both past their acquire, so at most one is dispatched and unsettled |
| `ServerGate.AcquisitionsMatchReleases` | aegis_cognition/extensions.py:7059-7062 | Acquisitions and releases match one to one, a release happens exactly when its call is done, and a settled call can always release |
| `ServerGate.TimeoutsLeaveNoTrace` | aegis_cognition/extensions.py:7086-7087 | Corollary of the shield: striking every tool timeout from any history leaves a history that ends with the same calls, locks, acquisitions and releases |
| `ServerGate.CallsAdvance` | aegis_cognition/extensions.py:7055-7087 | No event but its own moves a call, and only to the next phase: waiting, owning, queued, running, settled, done; server and lock never change |
| `ServerGate.CallsCanGoOn` | aegis_cognition/extensions.py:7055-7087 | In every consistent state an acquired call can get its task, a queued one dispatch, a running one settle and a settled one give the lock back |
| `ServerGate.CallsCanStart` | aegis_cognition/extensions.py:7055-7060 | A handler can always start a call, which owns a free lock at once and waits for a taken one |
| `SchemaRefs.StripIsExact` | aegis_cognition/extensions.py:7482-7554 | Stripping keeps exactly min(count, budget) refs, spends the budget on just those, and leaves a value within budget unchanged |
| `SchemaRefs.StripExcessSchemaRefs` | aegis_cognition/extensions.py:7530-7554 | The walk over one shared mutable budget cell computes the threaded-budget function and leaves the unspent budget in the cell |
| `SchemaMeaning.StripIsRight` | aegis_cognition/extensions.py:7530-7554 | At the end of every route: the budget goes to references in document order, an object met when it is used up is a stub of its type and its description cut to 160 characters, and everything else stays |
| `JsonText.SizeIsLength` | aegis_cognition/extensions.py:7495-7496 | The length the model works with is the length of the serialized text, separators and escapes written out |
| `JsonText.SwappedMembers` | aegis_cognition/extensions.py:7495-7496 | Exchanging two neighbouring members keeps that length, so sorting the keys cannot change it |
| `SchemaCompaction.PruneShrinks` | aegis_cognition/extensions.py:7557-7589 | No pruning stage lengthens the serialized schema or adds a ref, for every description cap and either definitions policy |
| `SchemaMeaning.PruneIsPruned` | aegis_cognition/extensions.py:7557-7589 | At the end of every route of keys and indices: nothing behind the seven annotation keys or, at the stages that say so, the two definition keys; of a textual description the first n characters of its text without the whitespace at its ends, if any; otherwise the same kind of value, arrays at the same length and every leaf as it was |
| `SchemaMeaning.PruneStaysProper` | aegis_cognition/extensions.py:7557-7589 | No object of a pruned schema names a member twice, if none of the schema does |
| `SchemaCompaction.RequiredIsKept` | aegis_cognition/extensions.py:7653-7658 | Every name kept in required was requested and names a kept property |
| `SchemaCompaction.ShapeGrows` | aegis_cognition/extensions.py:7643-7659 | Listing one more property never shortens the minimal schema, although it also lengthens required |
| `SchemaCompaction.TooLongStaysTooLong` | aegis_cognition/extensions.py:7655-7659 | Once a prefix of the properties is too long, every longer prefix is, so stopping at the first failure keeps the longest prefix |
| `SchemaCompaction.StructuralFallback` | aegis_cognition/extensions.py:7631-7666 | The loop that adds a property to the minimal schema and pops it again when that is too long ends with the outline of the longest property prefix that fits, as a search from the top defines it |
| `SchemaCompaction.FallbackMeetsBudgets` | aegis_cognition/extensions.py:7631-7666 | The fallback holds no ref and at most max(limit, 17) characters |
| `SchemaCompaction.CompactionMeetsBudgets` | aegis_cognition/extensions.py:7592-7666 | For every object schema: at most max_refs refs, at most max(limit, 17) characters, and a schema within both is returned unchanged |
| `SchemaCompaction.LimitIsMetExactly` | aegis_cognition/extensions.py:7592-7666 | The character limit is met if and only if it is at least 17, the size of the bare object schema, or the fully pruned schema is that short itself |
| `SchemaCompaction.SmallLimitsMayBeMissed` | aegis_cognition/extensions.py:7592-7666 | Under a limit of 5, {} is returned within it and a schema with one null member is not |
| `SchemaCompaction.CompactionValidates` | aegis_cognition/extensions.py:7499-7527 | The result passes the repository's own budget validation exactly under that condition, and compacting it again then changes nothing |
| `SchemaCompaction.CompactMcpToolSchema` | aegis_cognition/extensions.py:7592-7666 | The staged method: exact error conditions, the result of the reference, both budgets, and both later re-strip branches unreachable |
| `SchemaMeaning.CompactionIs` | aegis_cognition/extensions.py:7592-7666 | The answer described without its code: the stripped schema if it fits; else the first that fits of three prunings, descriptions cut to 160, 80 and 80 characters and the third without definitions; else the last resort |
| `SchemaMeaning.FallbackIsLastResort` | aegis_cognition/extensions.py:7631-7666 | The last resort: the type, outlines of the first properties, the most that fit, and of the first 32 requested names those outlined; a boolean additionalProperties if it still fits; or the bare object schema |
| `SchemaMeaning.MinimalIs` | aegis_cognition/extensions.py:7643-7659 | Of each number of properties there is one minimal schema with their outlines, type kept where it is a text that is not empty, and the requested names among them in order |
| `RequestGate.StepKeepsInv` | aegis_cognition/extensions.py:4213-4304 | Arrival, wake-up, cancellation, exchange and leaving keep the counters equal to the numbers of requests they count |
| `RequestGate.SubjectMoves` | aegis_cognition/extensions.py:4213-4244 | Where each step takes its own request; an arrival or a wake-up lets it in exactly if nobody exclusive is inside and, for a reader, none is announced and fewer than four readers are inside, for an exclusive request, no reader is |
| `RequestGate.OthersAreNotified` | aegis_cognition/extensions.py:4228-4244 | A step leaves every other request as it was, except that freeing a slot, admitting an exclusive request or taking back its announcement notifies exactly those that wait |
| `RequestGate.AdmissionsAreRecorded` | aegis_cognition/extensions.py:4217-4235 | The history the ordering theorem is about gains one entry for each request let in, which says whether another, exclusive one was waiting, and none otherwise |
| `RequestGate.ExclusiveNeverOverlaps` | aegis_cognition/extensions.py:4215-4244 | Two requests in the slot are both read-only, and at most four are |
| `RequestGate.ReadersNeverOvertake` | aegis_cognition/extensions.py:4217-4235 | At no admission of a reader was any exclusive request waiting, also when waiters are cancelled; the waiter count is exact |
| `RequestGate.LargeResponsesAreExclusive` | aegis_cognition/extensions.py:4253-4304 | The response limit exceeds the configured one only during an exclusive exchange and is then the limit that request asked for |
| `RequestGate.WaitersAreWoken` | aegis_cognition/extensions.py:4220-4244 | With the slot empty and requests waiting, some waiter has been notified and is admitted when it re-checks |
| `RequestGate.RequestSlot.Check` | aegis_cognition/extensions.py:4217-4235 | One predicate check of the wait and the admission it leads to, over all four counters |
| `RequestGate.GateIsOpenExactly` | aegis_cognition/extensions.py:4215-4244 | Once every request waits, is gone or has lost its slot: an exclusive request may enter if and only if no slot was ever lost, a reader if and only if no exclusive slot was lost, fewer than four reader slots were and no exclusive request waits |
| `RequestGate.ProgressExactly` | aegis_cognition/extensions.py:4217-4244 | In such a state some waiting request has been notified and gets in at its next check exactly under that condition, so no wake-up is missing |
| `RequestGate.LostSlotsBlockForGood` | aegis_cognition/extensions.py:4215-4244 | After a lost slot no exclusive request is ever admitted again, and after a lost exclusive slot, or four lost reader slots, no request at all, whatever happens later |
| `RequestGate.SlotCanBeLost` | aegis_cognition/extensions.py:4236-4244 | A run in which an exclusive request is cancelled while its finally block waits for the condition lock, and a reader that comes next is left waiting with nothing under way |
| `RequestGate.ReaderWaitsForGood` | aegis_cognition/extensions.py:4236-4244 | However that run goes on, the reader never gets in |
| `RequestGate.StepMovesGate` | aegis_cognition/extensions.py:4213-4304 | Every step of the protocol changes the counters and the limit as one method of the object does |
| `RequestGate.CountersAreThere` | aegis_cognition/extensions.py:4230-4244 | No counter is ever decremented below zero, and no slot is released that is not held |
| `RequestGate.RequestSlot.Prepare` | aegis_cognition/extensions.py:4257-4272 | Which checks refuse a request before it asks for the slot, and otherwise the limit it will publish |
| `RequestGate.RequestSlot.Arrive` | aegis_cognition/extensions.py:4217-4235 | Announcing an exclusive request, the first predicate check and the admission |
| `RequestGate.RequestSlot.CancelWait` | aegis_cognition/extensions.py:4228-4234 | A cancelled wait takes back exactly its announcement |
| `RequestGate.RequestSlot.Release` | aegis_cognition/extensions.py:4236-4244 | Leaving undoes the admission of the same kind |
| `StdioFramer.Framer.ReadMessage` | aegis_cognition/extensions.py:4438-4475 | However bytes arrive and however the limit changes while the call waits, returns the first newline-separated frame of the whole stream under the limit of the deciding turn and removes exactly it; the peak of the buffer is what it began with or at most 1 byte more than a limit in force |
| `StdioFramer.Framer.ReadAll` | aegis_cognition/extensions.py:4454-4475 | Frames with their newlines and what is left are the stream, each frame fits a limit that was in force, reading stops for the reason the rest gives, the buffer keeps the same bound throughout, and a limit that never changes gives exactly the frames and the tail of the stream |
| `StdioFramer.Writer.WriteMessage` | aegis_cognition/extensions.py:4425-4432 | Accepts exactly newline-free messages within the limit; a refusal leaves no trace |
| `StdioFramer.ReadingUndoesWriting` | aegis_cognition/extensions.py:4425-4475 | Any sequence of writable messages is read back one frame each, then the stream is closed |
| `StdioFramer.FramesCoverTheStream` | aegis_cognition/extensions.py:4456-4475 | Frames with their newlines followed by the tail are the stream; no frame holds a newline or exceeds the limit |
| `SseReader.ChunkingIsInvisible` | aegis_cognition/extensions.py:5738-5788 | A stream fed in chunks is seen as if it had arrived at once if and only if no chunk trips the pending limit |
| `SseReader.SameBytesSameEvents` | aegis_cognition/extensions.py:5738-5788 | Two splits of the same bytes that trip no pending limit dispatch the same events and stop in the same way; one that trips it dispatches the first of those events and no others |
| `SseReader.LimitIsOnChunks` | aegis_cognition/extensions.py:5751-5754 | The pending limit is tripped exactly when the bytes before some chunk do not end the stream and that chunk, together with their unfinished line, is longer than the limit, whatever lines the chunk ends |
| `SseReader.ShortLinesTripTogether` | aegis_cognition/extensions.py:5751-5754 | Three two-byte lines pass a limit of four bytes one by one and trip it in one chunk |
| `SseReader.ShortStreamsNeverTrip` | aegis_cognition/extensions.py:5752-5754 | A stream no longer than the limit never trips the pending limit, whatever the chunks |
| `SseReader.EventsComeBack` | aegis_cognition/extensions.py:5755-5788 | Events of data lines with or without the space, data lines without colon, comments and other fields, with LF or CRLF, are dispatched in order; each payload followed by a line feed is its data lines, each followed by a line feed |
| `SseReader.JoinIsFramed` | aegis_cognition/extensions.py:5763-5763 | The joined data lines are that payload: every line, a line feed between neighbours and nothing else |
| `SseReader.EventStops` | aegis_cognition/extensions.py:5760-5777 | An event whose dispatch ends the stream or fails stops the reader there, with that stop, and no later byte is looked at |
| `SseReader.OversizedEventStops` | aegis_cognition/extensions.py:5780-5788 | An event whose data lines, each counted with one byte more, exceed the limit is not dispatched and fails the stream |
| `SseReader.EventsSurviveChunking` | aegis_cognition/extensions.py:5738-5788 | The same payloads for every split of the encoded stream that trips no limit |
| `SseReader.Worker.HandleLine` | aegis_cognition/extensions.py:5760-5788 | One complete line updates data lines, size, dispatched events and stop reason as the line function says, for a dispatch that goes on, ends the stream, fails, or is not reached |
| `SseReader.Worker.Receive` | aegis_cognition/extensions.py:5752-5788 | One chunk: limit check and inner loop refine the recursive drain of the pending bytes |
| `SubscriptionProtocol.AcceptedStaysWithin` | aegis_cognition/extensions.py:1777-1823 | An accepted acknowledgment asks for nothing beyond the request, lists no resource twice and grants something |
| `SubscriptionProtocol.ReadExactly` | aegis_cognition/extensions.py:1777-1823 | An acknowledgment is read as given filters if and only if no key is unknown, each flag given is a boolean and true only where requested, the at most 256 resources are well formed, requested and distinct, and something is granted |
| `SubscriptionProtocol.EchoIsGranted` | aegis_cognition/extensions.py:1793-1823 | An acknowledgment of exactly what was requested is accepted as it is and grants the subscription |
| `SubscriptionProtocol.MessageDoes` | aegis_cognition/extensions.py:4382-4417 | What every message does to a live subscription, field by field; an ended one is changed by none |
| `SubscriptionProtocol.FreshRun` | aegis_cognition/extensions.py:1752-1851 | Over every order of messages, reads and closes: acknowledged within the request, every published event of an acknowledged kind, at most 1024 queued, consumed followed by queued equals published, no event before acknowledgment is ever the failure |
| `SubscriptionProtocol.RunEvolves` | aegis_cognition/extensions.py:1777-1851 | Acknowledged at most once; after the end nothing is published, acknowledged or failed any more |
| `SubscriptionProtocol.FailureSurfacesLast` | aegis_cognition/extensions.py:1752-1760 | After the end a consumer gets the queued events in order and only then the recorded failure, or the end of the stream |
| `SubscriptionProtocol.PublishedExactlyWhen` | aegis_cognition/extensions.py:4396-4417 | An event is queued exactly when the stream is live, its kind acknowledged, its URI well formed and the queue has room |
| `SubscriptionProtocol.UpdatesAreNotMatchedByUri` | aegis_cognition/extensions.py:4406-4413 | A concrete run in which an update for a resource outside the acknowledged list is published |
| `NotificationSubscription.McpNotificationSubscription.Acknowledge` | aegis_cognition/extensions.py:1777-1823 | The fields after an acknowledgment, accepted, refused or repeated |
| `NotificationSubscription.McpNotificationSubscription.Publish` | aegis_cognition/extensions.py:1825-1834 | The fields after a publication: ignored, refused before acknowledgment, refused when full, or appended |
| `NotificationSubscription.McpNotificationSubscription.Finish` | aegis_cognition/extensions.py:1837-1843 | Ends once and refuses a pending acknowledgment |
| `NotificationSubscription.McpNotificationSubscription.Fail` | aegis_cognition/extensions.py:1845-1851 | The first failure before the end is recorded and ends the stream |
| `NotificationSubscription.McpNotificationSubscription.Dispatch` | aegis_cognition/extensions.py:4382-4417 | Every kind of message changes the object as the protocol function says and keeps the invariant |
| `NotificationSubscription.McpNotificationSubscription.Next` | aegis_cognition/extensions.py:1752-1760 | One turn of the consumer: waits, hands out the oldest event, raises or stops |
| `NotificationSubscription.McpNotificationSubscription.Aclose` | aegis_cognition/extensions.py:1762-1769 | Cancels at most once and ends the stream whether or not the cancellation raises, with any number of consumer turns while it is under way |
| `Registry.OwnersAreDisjoint` | aegis_cognition/extensions.py:6522-6561 | Tools of different extensions have different names |
| `Registry.RegisterKeepsConsistent` | aegis_cognition/extensions.py:6478-6561 | Registering or replacing keeps the tool map the disjoint union of the manifests' names with matching extension ids, within capacity |
| `Registry.UnregisterKeepsConsistent` | aegis_cognition/extensions.py:6613-6622 | Unregistering keeps the same invariant |
| `RegistryMeaning.AcceptedExactly` | aegis_cognition/extensions.py:6478-6540 | A registration is accepted if and only if its id is valid, normal and allowed in its namespace, no given tool has a fault, the sorted names are those of the tools, replacing is asked for exactly where there is something to replace, and there is room without a name clash |
| `RegistryMeaning.FirstFaultDecides` | aegis_cognition/extensions.py:6494-6524 | The error named for the tools is what is wrong with the first faulty one |
| `RegistryMeaning.RegistrationIs` | aegis_cognition/extensions.py:6538-6561 | The catalog after an accepted registration: manifest, tools with their handlers, one revision more, and everything of other extensions as before |
| `RegistryMeaning.UnregistrationIs` | aegis_cognition/extensions.py:6613-6622 | Exactly the manifest and the tools of a known extension are gone, one revision later; an unknown id changes nothing |
| `RegistryMeaning.ResolveIs` | aegis_cognition/extensions.py:6850-6867 | A tool is found if and only if the normal form of the name is registered and each given revision, effect and hash equals what is there; what each refusal means |
| `RegistryMeaning.StartsExactly` | aegis_cognition/extensions.py:6330-6469 | There is a registry if and only if the capacity is from 1 to 4096 and the checks pass for each built-in extension that has room, their ids, tools and capabilities written out |
| `Registry.StartIsConsistent` | aegis_cognition/extensions.py:6322-6469 | The registry after its built-in registrations is consistent whichever of them found room, at revision 0 |
| `Registry.StartFills` | aegis_cognition/extensions.py:6345-6469 | Exactly which built-in tools a registry of a given capacity starts with, derived from their three registrations |
| `Registry.StartSucceeds` | aegis_cognition/extensions.py:6330-6469 | Construction fails only for an invalid capacity when the flat checks accept the built-in extensions: each is tried only while it finds room |
| `RegistryRuns.ExtensionRegistry.Create` | aegis_cognition/extensions.py:6322-6469 | An invalid capacity or a refused built-in registration gives its error and no registry; otherwise three conditional calls of register and the revision reset give the specified start |
| `RegistryRuns.ExtensionRegistry.Register` | aegis_cognition/extensions.py:6478-6561 | Which error is raised first; on any error nothing changed, otherwise both maps and the revision changed together |
| `RegistryRuns.ExtensionRegistry.CheckRegistrations` | aegis_cognition/extensions.py:6494-6524 | The loop over the given tools finds the first faulty one, or their set of names |
| `RegistryRuns.ExtensionRegistry.Install` | aegis_cognition/extensions.py:6541-6561 | Old names out, new tools in, manifest replaced, revision one higher |
| `RegistryRuns.ExtensionRegistry.Unregister` | aegis_cognition/extensions.py:6613-6622 | Removes exactly the extension's tools and reports whether it existed |
| `RegistryRuns.ExtensionRegistry.Authorize` | aegis_cognition/extensions.py:6839-6867 | The lookup of invoke with its checks in order, the shape of an expected hash included |
| `RegistryRuns.RegisterEffect` | aegis_cognition/extensions.py:6538-6561 | After a registration its tools resolve to the given handlers and no tool of another extension changed |
| `RegistryRuns.UnregisterUndoesRegister` | aegis_cognition/extensions.py:6613-6622 | Unregistering after a first registration restores both maps, two revisions later |
| `RegistryRuns.ToolsResolveByNormalName` | aegis_cognition/extensions.py:6850-6867 | A registered tool can be invoked by its own name exactly when that name is its normal form |
| `RegistryRuns.CapitalNameIsUnreachable` | aegis_cognition/extensions.py:6850-6867 | A run that registers a tool called Foo, after which invoking Foo finds no tool |
| `RegistryRuns.RunKeepsConsistent` | aegis_cognition/extensions.py:6478-6622 | Every catalog reachable by any sequence of calls is consistent |
| `RegistryRuns.RevisionIdentifiesCatalog` | aegis_cognition/extensions.py:6561-6621 | Revisions only grow, and an unchanged revision means an unchanged catalog |
| `RegistryRuns.InvokeSeesAuthorizedCatalog` | aegis_cognition/extensions.py:6856-6861 | A call authorized at a revision resolves later against the very catalog of that revision or is refused |
| `ToolSearch.Rank` | aegis_cognition/extensions.py:6722-6737 | Collecting and sorting yields the ranking: every hit, only hits, by score and then name, whatever the order of the map |
| `ToolSearch.RankingIsUnique` | aegis_cognition/extensions.py:6737-6737 | A catalog and query have one ranking |
| `ToolSearch.RankingIs` | aegis_cognition/extensions.py:6722-6737 | A list is the ranking if and only if it holds exactly the tools that score, the three host tools excepted, with their scores, by falling score and then rising name |
| `ToolSearch.ShownIs` | aegis_cognition/extensions.py:6744-6751 | Each shown field is the tool's own; the description is a prefix of its own, all of it up to 512 characters |
| `TextOrder.TextLessMeans` | aegis_cognition/extensions.py:6737-6737 | One text is less than another if and only if it is a proper prefix or has the smaller character where they first differ |
| `ToolSearch.ReadToolSearch` | aegis_cognition/extensions.py:6703-6758 | Refuses bad arguments and a moved catalog in that order and exactly then; otherwise shows the page of the one ranking, descriptions cut to 512 characters |
| `ToolSearch.NextOffsetIsLegal` | aegis_cognition/extensions.py:6709-6756 | Every offset handed out moves on and is accepted in a next request, because a registry holds at most 4096 tools |
| `ToolSearch.PagesEnumerateRanking` | aegis_cognition/extensions.py:6718-6758 | A client that follows next_offset at the first revision, while the catalog may change in between, collects the ranking in order, each hit once, and is told to go on exactly while hits are left |
| `ToolSearch.FollowingFinishes` | aegis_cognition/extensions.py:6709-6756 | Following next_offset with any page sizes ends, and has then collected the rest of the ranking exactly once and in order |
| `ToolSearch.SearchEnumeratesRanking` | aegis_cognition/extensions.py:6703-6758 | From offset 0 that is the whole ranking, because no ranking is longer than the largest legal offset |
| `DirectoryWalk.IterBoundedMetadataFiles` | aegis_cognition/extensions.py:216-290 | The explicit-stack generator yields and ends as the recursive tour driven under the limits does, for every list of roots |
| `DirectoryWalk.WalkTree` | aegis_cognition/extensions.py:255-290 | The stack loop below one root refines the recursive preorder tour; each turn shortens the stops still ahead |
| `DirectoryWalk.Visit` | aegis_cognition/extensions.py:256-290 | One popped directory: counted, yielded and replaced on the stack by its children in order, or the limit that stops it |
| `DirectoryWalk.ScanFolder` | aegis_cognition/extensions.py:257-280 | Fails exactly when the entry limit is passed; otherwise the matching files and the subfolders to enter, links and unreadable entries left out |
| `DirectoryWalk.YieldFiles` | aegis_cognition/extensions.py:282-287 | Yields all files or exactly as many as the file limit has room for |
| `DirectoryOrder.TourIsOrdered` | aegis_cognition/extensions.py:255-290 | Files are found in order: the files of a folder before everything in its subfolders, otherwise by the folded names in which two paths first differ, and in listing order where those agree |
| `DirectoryOrder.FoldersAreNotInterleaved` | aegis_cognition/extensions.py:282-290 | Between two files of one folder, at any depth, only files of that folder are found |
| `DirectoryOrder.TourScansListed` | aegis_cognition/extensions.py:255-290 | The entry count of a tour is the number of entries listed in the folders within reach, each counted once |
| `DirectoryOrder.RootsInOrder` | aegis_cognition/extensions.py:231-290 | The whole walk finds and counts what the roots offer, root by root in the order given |
| `Sorting.SortIsStable` | aegis_cognition/extensions.py:282-289 | Sorting leaves elements of equal rank in the order in which they came |
| `DirectoryTheorems.DiscoveryIsExact` | aegis_cognition/extensions.py:231-290 | Completes exactly when the whole tour respects both limits and then yields all of it; otherwise a prefix was yielded and the reported limit is really exceeded |
| `DirectoryTheorems.TourFindsReachable` | aegis_cognition/extensions.py:255-290 | A file is found exactly when a path of readable, unskipped, unlinked folders within the depth limit leads to it |
| `DirectoryTheorems.TourFindsOnce` | aegis_cognition/extensions.py:255-290 | Where no folder lists a name twice, each file below one root is found once |
| `DirectoryTheorems.DiscoveryFindsOnce` | aegis_cognition/extensions.py:231-290 | Over roots that name different directories, nested ones included, no file is reported twice under one root |
| `SkillLines.IterSkillTextLines` | aegis_cognition/extensions.py:1313-1325 | The character loop yields the bodies of the scanned lines |
| `SkillLines.ScanRebuilds` | aegis_cognition/extensions.py:1313-1325 | Scanned lines with their terminators give back the text, and are properly ended |
| `SkillLines.RebuiltScans` | aegis_cognition/extensions.py:1313-1325 | Every properly ended list of lines is what its text scans to |
| `SkillLines.BreaksAre` | aegis_cognition/extensions.py:1313-1325 | Four characters end a line and no other does |
| `SkillPaging.SkillTextPage` | aegis_cognition/extensions.py:1331-1365 | The one-pass page loop takes the longest run of requested lines that fits, or refuses, and counts all lines |
| `SkillPaging.FittingIsLongest` | aegis_cognition/extensions.py:1344-1355 | A prefix fits on a page exactly when its joined text is within the character cap |
| `SkillPaging.RefusedForOneLine` | aegis_cognition/extensions.py:1350-1355 | A page is refused exactly when the first line that does not fit is longer than the cap by itself |
| `SkillPaging.ShortLineIsRefusedWithLongOne` | aegis_cognition/extensions.py:1350-1355 | A text of a short line and one over the cap: asked for both, the page is refused; asked for one, the short line is given |
| `SkillPaging.PageMovesOn` | aegis_cognition/extensions.py:1356-1365 | A page is within the cap, holds at least one line while there are lines, and has_more tells whether lines are left |
| `SkillPaging.PageIs` | aegis_cognition/extensions.py:1331-1365 | A page is the lines from its start on, joined by line feeds, up to the end of the text, the number asked for, or the first line with which it would exceed 8192 characters |
| `SkillPaging.FollowReadsEveryLine` | aegis_cognition/extensions.py:1331-1365 | Following next_line, with any page sizes, reads every line once and in order if and only if no remaining line is over the cap |
| `SkillPaging.NextLineIsLegal` | aegis_cognition/extensions.py:1252-1257 | The next line of a page may be asked for, for every text shorter than 2^31 - 1 characters |
| `Statistics.CauchySchwarz` | aegis_cognition/aese.py:182-186 | The inequality for sequences of any length |
| `Statistics.LagOneNeedsNoClamp` | aegis_cognition/aese.py:176-194 | Before clamping the lag-one correlation already lies in [-1, 1], so the clamp never changes a value |
| `Statistics.DriftIsNonNegative` | aegis_cognition/aese.py:197-204 | The drift ratio is never negative |
| `Statistics.CriticalIsConservative` | aegis_cognition/aese.py:151-173 | The critical value is at least z and never grows with the degrees of freedom, for every z > 0 |
| `StatisticsLaws.LagOneIs` | aegis_cognition/aese.py:176-194 | The lag-one correlation is the number whose product with the root of both sums of squared deviations is the sum of products of neighbours, zero where one side does not vary, and none below three values |
| `StatisticsLaws.DriftRatioIs` | aegis_cognition/aese.py:197-204 | The drift ratio is the distance of the means of both halves in units of the overall mean or of 1e-12, and none below two values |
| `StatisticsLaws.StandardErrorIs` | aegis_cognition/aese.py:877-880 | The square of the standard error times n(n - 1) is the sum of squared deviations |
| `StatisticsLaws.CriticalIs` | aegis_cognition/aese.py:151-173 | The critical value is z plus the correction in powers of the inverse degrees of freedom, cleared of fractions, and infinite without degrees of freedom |
| `Measurement.StatsAreConsistent` | aegis_cognition/aese.py:866-894 | Statistics are all present or all absent, the interval contains the estimate, and every ratio is in range |
| `MeasurementMeaning.FieldsAre` | aegis_cognition/aese.py:784-894 | What a result shows: the mean of all analyzed values, an interval of critical value times standard error of the block means at an equal share of alpha, its width relative to the estimate, and the two stability ratios |
| `MeasurementMeaning.ValuesAre` | aegis_cognition/aese.py:848-857 | The analyzed values are the first observations, as many as the budget admits and whole blocks hold |
| `MeasurementMeaning.MeanOfBlockMeans` | aegis_cognition/aese.py:866-875 | The mean of the block means is the mean of all analyzed values |
| `MeasurementMeaning.InputIsShown` | aegis_cognition/aese.py:944-984 | What a result says of its input: what was measured, how much of it, under which digests, and the flags raised in order |
| `MeasurementMeaning.ReasonsShown` | aegis_cognition/aese.py:784-943 | Each reason is shown, once, exactly under its condition on the input and on the numbers shown: precision in terms of the shown interval, the baseline in terms of the shown bound of the protocol's direction |
| `Measurement.ResultValidates` | aegis_cognition/aese.py:368-445 | A checkpoint result passes its own validate if and only if nothing overflowed or no value was analyzed |
| `Measurement.OverflowIsRejected` | aegis_cognition/aese.py:895-904 | Two equal observations whose statistics overflow, under the default protocol, give a result that validate rejects |
| `MeasurementSession.EvaluateAdaptiveMeasurement` | aegis_cognition/aese.py:746-984 | Collecting reasons in order while statistics are computed and discarded, then the status cascade, give the specified result |
| `MeasurementSession.DecideStatus` | aegis_cognition/aese.py:920-943 | The cascade of the source, branch by branch, gives the verdict the session theorems are about |
| `MeasurementMeaning.StatusIs` | aegis_cognition/aese.py:920-943 | The status of every checkpoint that does not overflow, from its input and the numbers it shows, in both directions of every branch |
| `MeasurementMeaning.OverflowStatusIs` | aegis_cognition/aese.py:895-943 | With overflow: contaminated if something contaminates the sample, insufficient evidence otherwise |
| `MeasurementMeaning.PassAndFailMean` | aegis_cognition/aese.py:905-943 | PASS and FAIL need a valid protocol and a narrow enough interval; with a baseline, PASS and not FAIL if and only if the lower end is above it where higher is better, or the upper end below it where lower is better |
| `MeasurementSession.ContinueMeansRoom` | aegis_cognition/aese.py:920-943 | CONTINUE is only given under a valid spec, with fewer than max_observations observations, all of them finite |
| `MeasurementSession.SessionsEnd` | aegis_cognition/aese.py:536-548 | Under any spec, a run of attempts accepts at most as many non-empty observation appends as there was room for |
| `MeasurementSession.TerminalIsForever` | aegis_cognition/aese.py:536-548 | A non-CONTINUE checkpoint on a non-empty sample closes the session for good |
| `MeasurementSession.MalformedIsTerminal` | aegis_cognition/aese.py:528-548 | A malformed observation makes the session permanently terminal; a malformed warm-up stops all observations |
| `MeasurementSession.AppendDoes` | aegis_cognition/aese.py:528-548 | An append is refused or puts the given values behind those of its kind and changes nothing else: observations while the checkpoint says CONTINUE, warm-ups also before the first observation |
| `MeasurementSession.AlphaIsNotOverspent` | aegis_cognition/aese.py:880-884 | Looking at every in-budget observation count spends at most the registered alpha |
| `AnchorPriority.SortedIsRanked` | aegis_cognition/aese.py:1824-1833 | Each considered anchor has a greater key than all after it: five numbers compared one by one, mandatory, boundary changed, out of domain, sentinel due, uncertainty, and the id where all agree |
| `AnchorOrder.SortIgnoresOrder` | aegis_cognition/aese.py:2020-2020 | The sorted order of candidates with distinct ids does not depend on the input order |
| `AnchorSelection.GroupsPartition` | aegis_cognition/aese.py:2021-2048 | Each considered id lands in exactly one of the three groups or is turned down for overflow |
| `AnchorSelection.OverflowExactly` | aegis_cognition/aese.py:2028-2035 | The loop meets no overflow exactly when each available cost, added to what a selection without overflow test spends before it, stays below the ceiling |
| `AnchorSelection.OverBudgetIsMandatory` | aegis_cognition/aese.py:2036-2048 | Unless a sum overflows, the over-budget flag, the money spent and the mandatory total agree, and over budget exactly the mandatory anchors are selected |
| `AnchorPlan.SelectAnchorPlan` | aegis_cognition/aese.py:1982-2094 | The whole planner: collection with its reasons, selection loop, blocking and status cascade give the specified plan |
| `AnchorPlan.CollectCandidates` | aegis_cognition/aese.py:2003-2019 | The first candidate of each id is kept; every other element leaves its reason |
| `AnchorPlan.SelectInOrder` | aegis_cognition/aese.py:2021-2048 | The selection loop computes groups, spending and both flags, and records one reason per sum that overflows |
| `AnchorPlan.BuildPlan` | aegis_cognition/aese.py:2049-2094 | Reasons in order without repeats, blocking that clears the selection, and the status cascade |
| `AnchorPlan.PlanAlwaysValidates` | aegis_cognition/aese.py:1863-1906 | Whatever the input, the sealed plan passes AnchorSelectionPlan.validate |
| `AnchorTheorems.BlockedMeansUnsound` | aegis_cognition/aese.py:1988-2069 | A plan is blocked exactly for a bad budget, a bad or duplicate candidate, an unavailable mandatory anchor or a cost that cannot be added to what is spent before it, computed from the costs in priority order, and then selects and spends nothing |
| `AnchorTheorems.OverflowBlocks` | aegis_cognition/aese.py:2028-2048 | For a call that is sound otherwise, from the costs alone in any order: never blocked while the available mandatory total, and each available optional cost beside the larger of that total and the budget, stay below the ceiling; always blocked once that total, or an available optional cost beside it, reaches it; where the mandatory anchors use up the budget the two meet |
| `AnchorTheorems.AffordableInputIsAdded` | aegis_cognition/aese.py:2028-2035 | No sum overflows while the available candidates together cost less than the least sum that is no finite float |
| `AnchorTheorems.DearOptionalAnchorBlocks` | aegis_cognition/aese.py:2028-2048 | An optional anchor beyond the budget is skipped, unless adding its cost overflows: then the whole plan is blocked |
| `AnchorTheorems.PlanPartitionsCandidates` | aegis_cognition/aese.py:2021-2094 | For a sound call the three groups hold every candidate's id exactly once |
| `AnchorTheorems.PlanSpendsWithinBudget` | aegis_cognition/aese.py:2033-2062 | Planned cost is the sum over the selected; it exceeds the budget exactly when the available mandatory anchors alone do, and then only they are selected |
| `AnchorTheorems.SkippedAnchorsDoNotFit` | aegis_cognition/aese.py:2040-2048 | Every skipped anchor is available, optional and dearer than the remaining budget |
| `AnchorPriority.PlanIsGreedy` | aegis_cognition/aese.py:2020-2048 | For a sound call, anchor by anchor: it is unavailable, mandatory and taken, or taken exactly if its cost fits the budget beside what the taken anchors of greater key cost, and skipped otherwise |
| `AnchorPriority.GroupsAreRanked` | aegis_cognition/aese.py:2020-2048 | Each group of a plan lists its anchors by falling key |
| `AnchorInput.FaultsAre` | aegis_cognition/aese.py:2003-2019 | A reason is recorded for the list exactly if it is what is wrong with some element, well-formedness written out and repetition counted among well-formed ones |
| `AnchorInput.KeptAre` | aegis_cognition/aese.py:2003-2019 | Of each id the first well-formed candidate is kept, and nothing else |
| `AnchorInput.ReasonsAre` | aegis_cognition/aese.py:1988-2062 | Each reason about the arguments is in the plan exactly under its condition on them |
| `AnchorInput.StatusShows` | aegis_cognition/aese.py:2049-2094 | The status follows from the reasons and the groups shown, and the amounts from the given budget |
| `AnchorTheorems.PlanIgnoresInputOrder` | aegis_cognition/aese.py:2003-2094 | The plan of a clean candidate list is the same for every order of the list |

## Left out

Assumptions of the lock and gate models:

- Only a holder calls `release`; for progress, a loop that accepted a callback runs it. A grant is offered and delivered by steps that may happen at any time in any order, but each guarded block is atomic.
- Direct cancellation of a dispatched provider task (only its shielded waiter is cancelled) and event-loop teardown.
- Wall-clock time: a timeout is a cancellation that may happen at any point of a wait.

Values and foreign code:

- Floating point is exact real arithmetic. Square root is any function whose result is non-negative and squares back; the normal quantile is any positive number; hashes are opaque functions with digest-shaped results; whether and where the statistics of a checkpoint overflow is an oracle, so all outcomes are covered; a sum of anchor costs overflows from a parameter on.
- JSON, regular expressions, schema compilation and URI syntax: JSON is a tree with a serialized length, the others are parameters. Keys are not sorted in the model; `JsonText.SwappedMembers` shows that the length does not depend on their order.
- Exception classes inside one failure kind, and message texts: a candidate that fails validation is one reason, whatever was raised.
- Type checks of flat fields (`type(x) is int` and the like) are the types of the model, except where a malformed value takes a path of its own.
- The text of a search query is scored by a parameter; the scoring of names and descriptions is not modelled.
- Case folding and name normalization are parameters; nothing is assumed about them.
- DNS, TLS, OAuth, sockets, subprocesses, file contents and links: what a scan or a read returns is data of the model. Files that change while a walk is under way are not modelled.

Narrower statements:

- SchemaMeaning.PruneIsPruned: for trees in which no object names a member twice, which every dictionary meets; the budgets hold for all trees.
- SseReader.EventsSurviveChunking: for splits that trip no pending limit; `SseReader.LimitIsOnChunks` says which do.
- DirectoryTheorems.DiscoveryFindsOnce: a directory given twice as a root reports its files twice (`RepeatedRootRepeats`), and of nested roots each reports the files it reaches.
- AnchorTheorems.PlanIgnoresInputOrder: for lists without malformed or repeated candidates; of candidates with one id the first is kept, so order matters otherwise.
- NotificationSubscription.McpNotificationSubscription.Aclose: the text of the cancellation message is not modelled, only that it is sent and may raise.
- DirectoryWalk.IterBoundedMetadataFiles: a negative file limit is treated as the private helper treats it, like 0; every caller refuses limits below 1 before calling it.

Not modelled, because it would add only flat checks or foreign calls:

- Evidence ledgers, coverage vectors and hardware vectors; `from_dict` and `as_dict` of all entities.
- Skill and plugin discovery beyond the directory walk, prompt catalogs, budgets in words.
- The HTTP provider apart from its event-stream loop; the request retry loop apart from the gate around each attempt.
- Serial tools inside `invoke`, argument and result validation after the lookup.
- `application.py`, `agent.py`, `cli.py`, `config.py`, `prompt.py`, `rag.py`, `benchmark.py`, `metrics.py`, adapters, desktop and cluster services.
