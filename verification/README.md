# Crewplane: verified core

A Dafny model of the parts of Crewplane, a workflow runner for coding agents, whose
correctness rests on more than one function: drawing a workflow graph, the lease queue of
the dots host, the observer hub, the search for sensitive options, review checkpoints and
bounded output capture. `dafny verify dfyconfig.toml` checks everything.

- **Workflow graphs.** `Collections` has sequences without repeats and subsequences. `Graphs`
  has paths, reachability and detours; `Topology` the layout record and workflow order. `Waves` is Kahn's algorithm, `LayoutPass` the placement of nodes
  in waves and lanes, `Pruning` the two stack searches, `RenderMaps` the two pruning passes,
  `Lanes` the lane allocator and `DagView` the way from declared nodes to drawn states.
- **Job queue.** `JobRows` has the guarded row updates. `QueueProtocol` interleaves any number
  of calls, host invocations and marker touches at every transaction and marker test;
  `QueueInvariants` shows what each step keeps, `QueueRuns` what holds over every run.
  `QueueCalls` puts a call's steps together and `JobQueue` is the `Queue` class: every method
  is a run of protocol steps, uninterrupted except for the markers that appear during
  `Complete`, and between two calls other processes do what the protocol allows. So what
  `QueueRuns` proves holds of every such history of a queue object.
- **Sensitive options.** `Text`, `JsonPointer` and `JsonTree` are the codec and pointer
  resolution, `KeyOrder` sorted keys and lists, `OptionWalker` the walker, `WalkerLaws` what it
  finds under any rule and `SensitiveOptions` what that means for the policy in use.
- **Observer hub.** `DeliveryQueue` is the bounded queue, `WorkerHandshake` its worker and
  shutdown statement by statement, `TerminalDelivery` synchronous delivery,
  `TerminalRetries` what a retry does, `DeliveryOutcomes` who is called by an emit and who is
  active after it, `ObserverStart` the start with a timeout.
- **Review checkpoints.** `ArtifactNames` are the file names; `CheckpointState` the records,
  `CheckpointProgress` and `CheckpointNode` the validators, `CheckpointLaws` what acceptance
  implies, `CheckpointAcceptance` exactly what it comes down to and `CheckpointExample` a
  checkpoint that is accepted.
- **Output capture.** `StreamCapture`.

`Results` holds the option and result types and the ways a guarded call ends.

Some results differ from what one might expect of the code, each with a witness and the exact
condition.

- The delivery worker can return with a delivery pending (`ExitCanStrand`); `DrainedIff` says
  exactly when it does.
- An exception outside `Exception` escapes the hub's handlers. It can kill the worker
  (`ObserverCanKill`, `ReturnedUnlessKilled`), make an emit raise for an optional observer
  (`TerminalDelivery.OptionalCanRaise`, `RaisesForRequiredIff`), make the start of an optional
  observer raise (`ObserverStart.OptionalCanRaise`, `RaisesIff`) and bring a cleanup or the
  answer True after a start that never returned (`CleanupCanFollowEscape`,
  `CleanupFollowsStartIff`, `TrueCanFollowEscape`, `TrueMeansNoCleanup`).
- An expired job can still turn cancelled (`ExpiredCanTurnCancelled`); `RowsOnlyAdvance` has all
  the changes of state that occur.
- Timeout cleanup of a started observer can be missed (`CleanupCanBeMissed`,
  `CleanupUnlessBothEarly`).
- Parsing a round name and building it again does not always give the name back, because `int`
  accepts more than `str` writes (`SignedSuffixIsRewritten`, `BuildInvertsParseIff`).

Where the source reads a clock, mints a UUID, calls an observer or a transform, or asks
whether a name is sensitive, the model takes an arbitrary value, a fresh value or an
arbitrary function. The SHA-256 in a marker's file name counts as injective.

## Model

| member | source | states |
|---|---|---|
| `Pruning.AlternatePathLength` | src/crewplane/observability/dag_graph.py:128-152 | On every DAG the stack search terminates although nodes are expanded again for better labels, and returns the length of the longest path of at least two edges, 0 if there is none |
| `Pruning.HasAlternatePathThroughFanin` | src/crewplane/observability/dag_graph.py:155-181 | True if and only if some path of the DAG has a fan-in node strictly inside |
| `RenderMaps.DependentMapFor` | src/crewplane/observability/dag_graph.py:113-125 | The dependents map has exactly the reversed edges, each list in workflow order without repeats |
| `RenderMaps.PruneShortTransitiveDependencies` | src/crewplane/observability/dag_graph.py:74-85 | Drops exactly the edges beside which there is a path of two edges and none of more |
| `RenderMaps.PrunePostFaninTransitiveDependencies` | src/crewplane/observability/dag_graph.py:88-110 | Drops exactly the edges beside which there is a path over a node with two dependencies or more |
| `RenderMaps.ShortPassIff` | src/crewplane/observability/dag_graph.py:74-85 | An edge passes the first pass if and only if it is there and is not doubled by paths of two edges and none of more |
| `RenderMaps.FaninPassIff` | src/crewplane/observability/dag_graph.py:88-110 | An edge passes the second if and only if it is there and no path beside it goes over a node with two dependencies or more |
| `RenderMaps.PassesKeepOrder` | src/crewplane/observability/dag_graph.py:74-110 | Neither pass changes the order of the dependencies that stay |
| `Graphs.DroppingKeepsReach` | src/crewplane/observability/dag_graph.py:66-110 | Dropping at one stroke any set of edges of a DAG that all have a detour, however the detours use each other, keeps the reachability relation |
| `RenderMaps.RenderedKeepsReach` | src/crewplane/observability/dag_graph.py:66-110 | For every DAG the two passes together keep exactly the reachability relation, and a node has a dependency after them if and only if it had one before |
| `RenderMaps.RenderDependencyMaps` | src/crewplane/observability/dag_graph.py:66-71 | The two maps the renderer uses are inverse to each other, acyclic, sorted, and have the reachability of the layout |
| `Lanes.NodeColumnFor` | src/crewplane/observability/dag_graph.py:192-202 | A fresh root gets a new column, any other node its first lane if it has one |
| `Lanes.PlaceActiveColumn` | src/crewplane/observability/dag_graph.py:267-279 | Uses the first free column from the given one on and moves no occupied lane |
| `Lanes.TrimTrailingEmptyColumns` | src/crewplane/observability/dag_graph.py:282-286 | Drops exactly the free columns at the end |
| `Lanes.PrimaryDependentFor` | src/crewplane/observability/dag_graph.py:289-303 | The dependent with the least wave, among those the least lane, among those the first in workflow order |
| `Lanes.OthersInOrder` | src/crewplane/observability/dag_graph.py:225-236 | After the primary dependent the others follow in workflow order, each once |
| `Lanes.AdvanceColumns` | src/crewplane/observability/dag_graph.py:205-254 | Lanes not leading to the current node keep index and target, every other lane of the result is a recorded one, each recorded column holds its dependent, and each dependent has its first lane where lanes are reused and otherwise the first column that was free, from the node's own on or from just past the one taken before; the node's own column is recorded besides exactly if it is new and no dependent took it |
| `Lanes.StepKeepsLanes` | src/crewplane/observability/dag_graph.py:205-254 | One step keeps the lanes in exact correspondence with the undrawn nodes that have a drawn dependency |
| `Lanes.ContinuesInOwnColumn` | src/crewplane/observability/dag_graph.py:216-249 | A node that is no root, or a root with one dependent, is continued by its primary dependent in its own column |
| `Lanes.RootOpensColumns` | src/crewplane/observability/dag_graph.py:236-253 | A root with several dependents leaves those that have a lane in their first one and gives the others consecutive new columns at the end, and its own column is among those recorded |
| `Lanes.BuildGraphStates` | src/crewplane/observability/dag_graph.py:30-63 | Over any topological order: that correspondence before and after each node, the placement of every dependent as above, each state starting from the columns the last one left, and no lane left after the last node |
| `Waves.BuildGraphDependencyMaps` | src/crewplane/core/workflow/graph.py:35-47 | Fails exactly on an unknown dependency; otherwise the dependents hold the edges of all declarations, the dependencies of a repeated id are those of its last one, and for distinct ids the two maps hold the same edges in both directions |
| `Waves.OrderedGraphWaves` | src/crewplane/core/workflow/graph.py:83-111 | For any maps, where a lookup may raise, an id becomes ready at most once, so success means distinct ids, each in exactly one wave; on maps of the given ids that hold the same edges it succeeds if and only if ids are distinct and the graph acyclic, and every wave then holds exactly the nodes whose needs all left before it, in workflow order |
| `Waves.WaveNeeds` | src/crewplane/core/workflow/graph.py:97-107 | Everything a node needs left in an earlier wave, and past the first wave something it needs left in the one just before |
| `Waves.DeepChain` | src/crewplane/core/workflow/graph.py:97-107 | A node of wave i is the end of a dependency chain of i edges |
| `Waves.NoDeeperChain` | src/crewplane/core/workflow/graph.py:97-107 | and of no longer one, so the wave index is the longest chain |
| `LayoutPass.ShiftForCollisions` | src/crewplane/observability/layout.py:122-144 | Terminates with the least right shift that overlaps nothing occupied |
| `LayoutPass.BaseLaneSpan` | src/crewplane/observability/layout.py:99-119 | Fails exactly if a parent is unplaced; otherwise the smallest span around all parents' lanes |
| `LayoutPass.PlaceNode` | src/crewplane/observability/layout.py:55-77 | The loop body: the new node is placed as said among those placed before, and everything said of those stays true |
| `LayoutPass.PlaceAll` | src/crewplane/observability/layout.py:52-77 | Given waves that respect dependencies the missing-placement error never occurs; each root sits on the first lane not used before it, every other node at the least right shift of the hull of its parents that is clear of the nodes placed before it in its wave; spans of a wave are pairwise disjoint and the lane count is one more than the last lane used |
| `LayoutPass.ComputeTopologyLayout` | src/crewplane/observability/layout.py:40-96 | Succeeds if and only if node ids are distinct and dependencies known and acyclic, and then returns a layout with all of the above |
| `DagView.TopologicalNodeOrder` | src/crewplane/observability/node_order.py:6-28 | The displayed nodes in the order of the waves, followed by those the layout does not know in display order: each once, and every one after all it needs when the layout knows them all |
| `DagView.DrawWorkflow` | src/crewplane/observability/dag_graph.py:30-63 | From declared nodes to drawn states: succeeds exactly on distinct nodes with known acyclic dependencies, and then the whole chain of layout, order and lane invariants holds |
| `QueueInvariants.StepKeeps` | plugins/crewplane-dots-host/src/crewplane_dots_host/__init__.py:66-262 | Every step of every client, host invocation or marker touch keeps the protocol invariant, advances rows only, removes no marker and rewrites no log entry |
| `QueueRuns.RowsOnlyAdvance` | plugins/crewplane-dots-host/src/crewplane_dots_host/__init__.py:83-96 | In every run pending rows come from pending ones and claimed from pending or claimed ones, completed and expired rows can only turn cancelled, cancelled ones stay, and request, token and receipt are never rewritten |
| `QueueRuns.ExpiredCanTurnCancelled` | plugins/crewplane-dots-host/src/crewplane_dots_host/__init__.py:195-208 | A run in which an expired row turns cancelled, because reconcile reads the ids of the live rows before its transaction begins |
| `QueueRuns.ClaimTakesPending` | plugins/crewplane-dots-host/src/crewplane_dots_host/__init__.py:83-96 | A claim that succeeds found the job pending without a token and before its deadline and leaves it claimed under the fresh token and the given lease |
| `QueueRuns.ClaimedAtMostOnce` | plugins/crewplane-dots-host/src/crewplane_dots_host/__init__.py:83-96 | In every run a job is claimed successfully at most once, and only if it was pending at every earlier moment, so expired work is never dispatched again |
| `QueueRuns.ReturnedClaimWasGranted` | plugins/crewplane-dots-host/src/crewplane_dots_host/__init__.py:83-96 | A claim that returns normally was granted by a step of the run |
| `QueueRuns.CancellationDominates` | plugins/crewplane-dots-host/src/crewplane_dots_host/__init__.py:66-193 | Once a job's marker exists no claim, renew or complete that starts later returns, and inspect reports cancelled |
| `QueueRuns.CancelledIsMarked` | plugins/crewplane-dots-host/src/crewplane_dots_host/__init__.py:184-208 | A row is cancelled only if marked, and the mark stays |
| `QueueRuns.InvokePrintsOrCancels` | plugins/crewplane-dots-host/src/crewplane_dots_host/__init__.py:211-262 | Every finished invoke printed its output or left its marker, and what it printed is the stored receipt's output |
| `QueueRuns.MarkedInvokeNeverPrints` | plugins/crewplane-dots-host/src/crewplane_dots_host/__init__.py:211-262 | Once the marker of an invoke's job exists, an invoke not yet past its last marker test never prints |
| `QueueRuns.MarkedInvokeStops` | plugins/crewplane-dots-host/src/crewplane_dots_host/__init__.py:231-262 | and one that polls never submits or reads its row again |
| `QueueRuns.PolledIff` | plugins/crewplane-dots-host/src/crewplane_dots_host/__init__.py:238-255 | An invoke polls again if and only if it read a live row, goes on to its output if and only if it read a completed one, in both cases without a marker, and gives up otherwise |
| `QueueRuns.ReceiptStory` | plugins/crewplane-dots-host/src/crewplane_dots_host/__init__.py:138-172 | A stored receipt was written exactly once, by the holder of the job's only token, under a lease and a deadline that lay ahead; a requested model is confirmed as requested, and so is a requested reasoning |
| `QueueRuns.LaterCompleteIsReplay` | plugins/crewplane-dots-host/src/crewplane_dots_host/__init__.py:115-172 | A complete that starts after the job's receipt is stored changes nothing: none of its steps touches table or log, and if it returns, it carried the job's token and that very receipt |
| `QueueRuns.TokensTellJobsApart` | plugins/crewplane-dots-host/src/crewplane_dots_host/__init__.py:83-96 | No two jobs ever share a token |
| `JobQueue.Queue.Submit` | plugins/crewplane-dots-host/src/crewplane_dots_host/__init__.py:40-64 | Adds exactly one row, pending, with the given request and no token, lease or receipt, or refuses a bad duration or a known id and changes nothing; one step of the protocol |
| `JobQueue.Queue.Inspect` | plugins/crewplane-dots-host/src/crewplane_dots_host/__init__.py:66-81 | A run of the protocol's inspect steps that returns exactly the stored row, its state replaced by cancelled if and only if the marker exists |
| `JobQueue.Queue.Claim` | plugins/crewplane-dots-host/src/crewplane_dots_host/__init__.py:83-96 | A run of the protocol's claim steps; it succeeds exactly for an unmarked job that is pending after the sweep with its deadline ahead, which is then claimed under the token and lease, and every other row is as after the sweep |
| `JobQueue.Queue.Renew` | plugins/crewplane-dots-host/src/crewplane_dots_host/__init__.py:103-113 | A run of the protocol's renew steps; it succeeds exactly for an unmarked job claimed under the token with lease and deadline ahead, gives that row the new lease and changes nothing else |
| `JobQueue.Queue.Complete` | plugins/crewplane-dots-host/src/crewplane_dots_host/__init__.py:115-172 | A run of the protocol's complete steps with markers appearing between its three tests; the row is committed exactly for an unmarked job held by the caller whose every non-null requested setting equals the confirmed one, and exactly when the call returns is said besides: a late marker fails the call after the commit, a malformed receipt changes nothing |
| `JobQueue.Queue.Cancel` | plugins/crewplane-dots-host/src/crewplane_dots_host/__init__.py:184-193 | A run of the protocol's cancel steps; a completed unmarked job is left alone, any other gets its marker, and its row is cancelled if it was live |
| `JobQueue.Queue.Reconcile` | plugins/crewplane-dots-host/src/crewplane_dots_host/__init__.py:195-208 | A run of the protocol's sweep; on the fields of each row: selected marked ones become cancelled, others whose lease or deadline has passed expired, all else stays, and the result counts the newly expired |
| `JobQueue.Queue.Meanwhile` | plugins/crewplane-dots-host/src/crewplane_dots_host/__init__.py:184-208 | Between two calls other processes may take any steps that leave the writer lock free, on rows and markers: the object then continues that longer run and is again between calls |
| `JobQueue.ReadReceiptIff` | plugins/crewplane-dots-host/src/crewplane_dots_host/__init__.py:117-137 | The checks at the head of complete accept exactly the values that spell a receipt without blank text, and read that receipt |
| `QueueCalls.ClaimCall` | plugins/crewplane-dots-host/src/crewplane_dots_host/__init__.py:83-96 | From any idle system the protocol can take the steps of a whole claim, and they end with the table and the result that the method promises |
| `QueueCalls.RenewCall` | plugins/crewplane-dots-host/src/crewplane_dots_host/__init__.py:103-113 | The same for renew |
| `QueueCalls.CompleteCall` | plugins/crewplane-dots-host/src/crewplane_dots_host/__init__.py:138-172 | The same for complete, with any markers appearing before its second and before its third test |
| `QueueCalls.CancelCall` | plugins/crewplane-dots-host/src/crewplane_dots_host/__init__.py:184-193 | The same for cancel |
| `JsonPointer.DecodeEncode` | src/crewplane/architecture/contracts/integration_secrets.py:145-156 | Decoding, two sequential replaces, inverts encoding on every token (section 3 of RFC 6901) |
| `JsonPointer.EncodeDecode` | src/crewplane/architecture/contracts/integration_secrets.py:145-156 | and encoding inverts decoding on every token with valid escapes |
| `JsonPointer.ParsePrint` | src/crewplane/architecture/contracts/integration_secrets.py:45-58 | Parsing inverts printing for every nonempty path |
| `JsonPointer.PrintParse` | src/crewplane/architecture/contracts/integration_secrets.py:45-58 | A pointer that parses is the printed form of what it parses to |
| `JsonPointer.PrefixIff` | src/crewplane/architecture/contracts/integration_secrets.py:120-122 | One pointer followed by a slash is a prefix of another if and only if its path is a proper prefix of the other's |
| `JsonTree.JsonPathExists` | src/crewplane/architecture/contracts/integration_secrets.py:125-142 | The loop answers whether the texts resolve, canonical array indices included (section 4 of RFC 6901) |
| `JsonTree.ResolveComplete` | src/crewplane/architecture/contracts/integration_secrets.py:125-142 | The text of every path that leads somewhere resolves, and to that very path |
| `JsonTree.AcceptedIsPrinted` | src/crewplane/architecture/contracts/integration_secrets.py:32-42 | A pointer that passes validation is the printed form of the path it resolves to |
| `JsonTree.PrintedIsAccepted` | src/crewplane/architecture/contracts/integration_secrets.py:32-42 | and the printed form of every nonempty path into the options passes |
| `OptionWalker.SensitiveOptionWalker.Walk` | src/crewplane/architecture/contracts/integration_secrets.py:67-96 | The walk returns the specified tree and appends the specified pointers, in order |
| `WalkerLaws.FoundExactly` | src/crewplane/architecture/contracts/integration_secrets.py:67-113 | A path is matched if and only if it leads to a value, matches, and nothing above it matches |
| `WalkerLaws.FoundInOrder` | src/crewplane/architecture/contracts/integration_secrets.py:67-96 | Places are matched in the order of keys and indices, depth first; so each is matched once and none lies below another |
| `WalkerLaws.FoundIsTransformed` | src/crewplane/architecture/contracts/integration_secrets.py:80-83 | Each matched place holds the transform of its pointer and value, or its value without a transform |
| `WalkerLaws.OutsideUnchanged` | src/crewplane/architecture/contracts/integration_secrets.py:67-96 | Everything neither above nor below a match is unchanged |
| `WalkerLaws.UnfoundKeepsShape` | src/crewplane/architecture/contracts/integration_secrets.py:67-96 | Everything not below a match keeps its keys, length or scalar, and no new path appears |
| `WalkerLaws.NoTransformIsIdentity` | src/crewplane/architecture/contracts/integration_secrets.py:80-96 | Without a transform the walk is the identity |
| `SensitiveOptions.FoundIsTopSecret` | src/crewplane/architecture/contracts/integration_secrets.py:67-122 | With accepted pointers a place is matched if and only if it is secret and nothing above it is; secret, told on the paths, is what an explicit pointer names, a scalar under a sensitive key at any depth, and a mapping or list under its own sensitive key with no explicit pointer below it |
| `SensitiveOptions.SecretIsCovered` | src/crewplane/architecture/contracts/integration_secrets.py:67-122 | Every secret place is matched or lies below one that is |
| `SensitiveOptions.ExplicitIsCovered` | src/crewplane/architecture/contracts/integration_secrets.py:98-113 | Every accepted explicit pointer is covered by a match at or above it |
| `SensitiveOptions.SensitiveScalarIsCovered` | src/crewplane/architecture/contracts/integration_secrets.py:98-118 | So is every scalar at or below a sensitively named key |
| `SensitiveOptions.SensitiveContainerIsCovered` | src/crewplane/architecture/contracts/integration_secrets.py:109-122 | So is every mapping or list under a sensitive key, unless an explicit pointer leads below it |
| `SensitiveOptions.OtherContainerIsKept` | src/crewplane/architecture/contracts/integration_secrets.py:105-122 | A mapping or list that no explicit pointer names is not matched if its own key is not sensitive or an explicit pointer leads below it |
| `SensitiveOptions.FoundHasReason` | src/crewplane/architecture/contracts/integration_secrets.py:98-118 | Nothing is matched without an explicit pointer or a sensitive key at or above it |
| `SensitiveOptions.DescendantIsBelow` | src/crewplane/architecture/contracts/integration_secrets.py:120-122 | For accepted pointers the string test for an explicit descendant agrees with the paths |
| `SensitiveOptions.ReportedPointersApart` | src/crewplane/architecture/contracts/integration_secrets.py:18-29 | The reported pointers are pairwise different and none extends another |
| `SensitiveOptions.ReportedIff` | src/crewplane/architecture/contracts/integration_secrets.py:18-29 | The pointer of a place is reported if and only if the place is secret with nothing secret above it |
| `SensitiveOptions.SecretIsTransformed` | src/crewplane/architecture/contracts/integration_secrets.py:80-83 | and the transform is applied to its pointer and its value there |
| `SensitiveOptions.TransformSensitiveIntegrationOptions` | src/crewplane/architecture/contracts/integration_secrets.py:18-42 | Refuses exactly when some pointer is malformed or resolves to nothing; otherwise returns the walked options, still a mapping, and reports exactly the pointers of the topmost secret places |
| `DeliveryQueue.RunConserves` | src/crewplane/observability/runtime.py:372-382 | After any enqueues, takes and clears: accepted equals removed followed by pending in order, at most 1024 pending, at most one of them without an event |
| `DeliveryQueue.LostOnlyByOverflowOrClear` | src/crewplane/observability/runtime.py:343-382 | A delivery that left without being taken left at an operation that explains it: an enqueue that found the queue full and dropped its oldest entry, or the clear of the stop timeout |
| `DeliveryQueue.TakenInOrder` | src/crewplane/observability/runtime.py:401-409 | Deliveries leave in the order in which they were accepted |
| `DeliveryQueue.Deliveries.EnqueueSnapshot` | src/crewplane/observability/runtime.py:349-386 | A tick is dropped if one is pending; anything else is accepted as the last entry, the oldest of a full queue being dropped for it; warns once and sets the wake flag for what it accepts |
| `DeliveryQueue.Deliveries.TakePendingDelivery` | src/crewplane/observability/runtime.py:401-409 | Takes the oldest entry and nothing else, or clears the flag on an empty queue |
| `DeliveryQueue.Deliveries.ClearPending` | src/crewplane/observability/runtime.py:343-344 | Drops everything pending and records it as cleared |
| `WorkerHandshake.PendingMeansAvailable` | src/crewplane/observability/runtime.py:372-409 | In every interleaving, while the lock is free a nonempty queue means the wake flag is set |
| `WorkerHandshake.AvailableMeansPending` | src/crewplane/observability/runtime.py:372-409 | and before shutdown is signalled the flag is set for nothing else, so an idle worker waits |
| `WorkerHandshake.NeverParkedAfterSignal` | src/crewplane/observability/runtime.py:336-347 | Once shutdown has set both events the worker is never parked on a clear flag, and until it is dead it can move, or the holder of the lock can |
| `WorkerHandshake.DroppedIffFoundAlive` | src/crewplane/observability/runtime.py:336-347 | The queue is dropped only for a worker found alive after the join; when the stopper is through it has dropped it if and only if it found one, and otherwise the worker is dead |
| `WorkerHandshake.ConservedInEveryRun` | src/crewplane/observability/runtime.py:349-409 | Conservation and bounds of the queue hold in every interleaving of emitters, worker and stopper |
| `WorkerHandshake.QueueIsRun` | src/crewplane/observability/runtime.py:336-409 | In every interleaving the queue is exactly what the enqueues, takes and clears of its steps make of it, one after the other |
| `WorkerHandshake.LostInEveryRun` | src/crewplane/observability/runtime.py:343-382 | so in every interleaving a delivery that left without being taken was the oldest of a full queue that made room, or went in the clear |
| `WorkerHandshake.ExitMissesOnlyLateArrivals` | src/crewplane/observability/runtime.py:388-399 | A worker that returned saw the stop event, and whatever is pending was accepted after its last empty take |
| `WorkerHandshake.DrainedIff` | src/crewplane/observability/runtime.py:336-399 | It left the queue empty if and only if nothing was accepted after its last empty take or, if later, the stopper's clear; nothing accepted since that take was ever taken, so where the clear removed nothing the queue is empty if and only if nothing arrived |
| `WorkerHandshake.ReturnedUnlessKilled` | src/crewplane/observability/runtime.py:235-245 | A worker that is dead returned if and only if no exception outside Exception ended its delivery |
| `WorkerHandshake.ObserverCanKill` | src/crewplane/observability/runtime.py:235-245 | A run in which such an exception leaves a dead worker, a pending delivery it never looked at, and no stop event |
| `WorkerHandshake.WorkerApproachesExit` | src/crewplane/observability/runtime.py:388-399 | After the signal each step of the worker brings it nearer its end and no step of another that adds nothing takes it back |
| `WorkerHandshake.WorkerStepsAreBounded` | src/crewplane/observability/runtime.py:388-399 | So in every interleaving without new arrivals the worker takes a bounded number of further steps, at the end of which it is dead |
| `WorkerHandshake.ExitCanStrand` | src/crewplane/observability/runtime.py:391-396 | A run in which the worker returns with a delivery pending: draining before exit is not guaranteed |
| `TerminalDelivery.ServedIsNeverCalledAgain` | src/crewplane/observability/runtime.py:247-308 | Over any emits and retries an observer that took a terminal line is never called with it again |
| `TerminalDelivery.ReturnMeansServed` | src/crewplane/observability/runtime.py:155-165 | Whenever an emit of a terminal event returns, every synchronous observer still active has taken it |
| `TerminalRetries.ReturnMeansCalled` | src/crewplane/observability/runtime.py:155-287 | An emit of any event that returns has called, with success, every synchronous observer still active that did not have the event: with an event that is not terminal, all of them |
| `TerminalRetries.FailedIsRetried` | src/crewplane/observability/runtime.py:247-287 | After an emit of a terminal event that raised for a required observer, the next emit of that event calls nobody before that observer and calls it, whatever comes of the call; if that emit returns, the call succeeded |
| `TerminalRetries.EscapedIsRetried` | src/crewplane/observability/runtime.py:247-287 | After one that an escaping exception ended, the next emit calls the observer it came from, unless that one is optional and disabled by then or an exception of another optional observer escapes first; if that emit returns, the call succeeded or the observer is gone |
| `TerminalDelivery.RaisesForRequiredIff` | src/crewplane/observability/runtime.py:229-287 | An emit that raises does so for a required observer that failed if and only if the last callback ended with an Exception; otherwise that callback ended with an exception the handlers do not catch, whichever observer it belonged to |
| `TerminalDelivery.OptionalCanRaise` | src/crewplane/observability/runtime.py:267-287 | An emit that raises for an optional observer in that way, which stays active with nothing recorded |
| `TerminalDelivery.RequiredStaysActive` | src/crewplane/observability/runtime.py:247-318 | Over any emits required synchronous observers are never disabled, as long as the other threads disable none |
| `TerminalDelivery.OtherLoopsSpareRequired` | src/crewplane/observability/runtime.py:186-318 | and these disable none: not the ticker's synchronous loop, and not the worker's loop, which is handed no synchronous observer |
| `TerminalDelivery.Hub.PublishSynchronousSnapshot` | src/crewplane/observability/runtime.py:247-287 | The loop with its skips, failures, escapes and records, worker and ticker disabling observers between any two turns; what it leaves over are observers that are not synchronous, in the given order, and if it returns all of them that are still active |
| `TerminalDelivery.Hub.PublishSnapshot` | src/crewplane/observability/runtime.py:229-245 | The direct delivery without a worker: it calls the observers still active with the event and disables those that failed unless an exception escapes it |
| `TerminalDelivery.Hub.EmitEvent` | src/crewplane/observability/runtime.py:155-165 | Publishing is skipped for the line last published, and that line is set only when both deliveries return; with a worker a returning emit that leaves observers over puts exactly one delivery with its event, its snapshot and those observers on the queue, and none otherwise; these are not synchronous, in the order of the active ones, and every such observer still active is among them |
| `TerminalDelivery.RemainingExactly` | src/crewplane/observability/runtime.py:247-287 | What an emit hands over, in the order of the active observers: only to ones that are not synchronous, and if it publishes and returns to all of them that are still active |
| `DeliveryOutcomes.StaysActiveIff` | src/crewplane/observability/runtime.py:229-318 | An observer is active after an emit if and only if it was before, no other thread disabled it meanwhile, and its callback did not fail, except that of a required synchronous one or one in a loop that an exception escaped |
| `DeliveryOutcomes.EmitCallsInOrder` | src/crewplane/observability/runtime.py:155-287 | An emit calls with its own event only, in the order of the active observers; with a worker it makes no call but those of synchronous observers |
| `DeliveryOutcomes.HandOverMeansCalled` | src/crewplane/observability/runtime.py:229-245 | Without a worker an emit that publishes and returns has called, with success, every observer still active that is not synchronous |
| `TerminalDelivery.RepeatedEmitDoesNothing` | src/crewplane/observability/runtime.py:155-165 | Over any emits a terminal event whose emit returned does nothing when it is emitted again, unless another terminal event came in between: nobody is called and nothing is handed over |
| `ObserverStart.CleanupAtMostOnce` | src/crewplane/observability/observer_lifecycle.py:42-91 | In every interleaving of starter and caller timeout cleanup, and observer.stop with it, happens at most once, and the thread that does it stops an observer that cleans up before it goes on |
| `ObserverStart.TrueMeansNoCleanup` | src/crewplane/observability/observer_lifecycle.py:73-91 | In a run that returns True no cleanup happens at any time, and the observer did start if and only if its start did not end with an exception outside Exception |
| `ObserverStart.TrueCanFollowEscape` | src/crewplane/observability/observer_lifecycle.py:47-91 | A run in which it did: True is returned for an observer whose start never returned |
| `ObserverStart.CleanupFollowsStartIff` | src/crewplane/observability/observer_lifecycle.py:47-58 | Cleanup follows a successful start if and only if observer.start did not end with an exception outside Exception; never a caught failure |
| `ObserverStart.CleanupCanFollowEscape` | src/crewplane/observability/observer_lifecycle.py:47-79 | A run in which it did: cleanup follows a start that never returned |
| `ObserverStart.CleanupUnlessBothEarly` | src/crewplane/observability/observer_lifecycle.py:57-79 | When both threads are through after a timeout and a successful start, cleanup has run if and only if the starter saw the flag or the caller saw the thread dead |
| `ObserverStart.CleanupCanBeMissed` | src/crewplane/observability/observer_lifecycle.py:57-79 | A run in which both looked too early: cleanup is not exactly-once |
| `ObserverStart.RaisesIff` | src/crewplane/observability/observer_lifecycle.py:60-91 | Raises if and only if the start of the thread failed with something other than RuntimeError, or stop ended the caller's cleanup with something outside Exception, or the observer is required and its thread never ran, the wait timed out or the start failed; and exactly when it returns False and True instead |
| `ObserverStart.ReasonApplies` | src/crewplane/observability/observer_lifecycle.py:60-91 | The exception names the failure that applies: the thread never ran, the wait timed out, or the start ended in time with an error |
| `ObserverStart.OptionalCanRaise` | src/crewplane/observability/observer_lifecycle.py:60-91 | Runs in which an optional observer makes the caller raise, by a thread start that fails with something other than RuntimeError and by an escaping cleanup |
| `ArtifactNames.ParseInvertsBuild` | src/crewplane/architecture/contracts/artifacts.py:114-125 | For every task id, also one containing _round, and every integer round the parser recovers both from the built stem |
| `ArtifactNames.BuildInvertsParseIff` | src/crewplane/architecture/contracts/artifacts.py:114-125 | Building what was parsed gives the stem back if and only if its part after the last _round is a numeral as str writes it |
| `ArtifactNames.SignedSuffixIsRewritten` | src/crewplane/architecture/contracts/artifacts.py:118-125 | A stem for which it does not: a plus sign is accepted and lost |
| `ArtifactNames.FilenameDetermines` | src/crewplane/architecture/contracts/artifacts.py:114-115 | File names are equal exactly for equal task ids and rounds |
| `ArtifactNames.ParseInvertsBuildAudit` | src/crewplane/architecture/contracts/artifacts.py:110-134 | The audit parser recovers every integer from its directory name |
| `ArtifactNames.BuildInvertsParseAuditIff` | src/crewplane/architecture/contracts/artifacts.py:110-134 | and the name is rebuilt if and only if it has the prefix followed by such a numeral |
| `ArtifactNames.ReadsSpelling` | src/crewplane/architecture/contracts/artifacts.py:118-134 | int reads every sign or none before digits with single underscores between them and blanks around |
| `ArtifactNames.SpellsNumber` | src/crewplane/architecture/contracts/artifacts.py:118-134 | and nothing else |
| `ArtifactNames.GroupsJoin` | src/crewplane/architecture/contracts/artifacts.py:118-134 | Groups of digits may be joined by an underscore, which does not change the number read |
| `ArtifactNames.GroupsSplit` | src/crewplane/architecture/contracts/artifacts.py:118-134 | and every spelling with an underscore is joined in that way |
| `CheckpointState.OrDefault` | src/crewplane/core/review_policy.py:9-14 | The configured number if it is positive, 1 if it is missing or zero |
| `CheckpointProgress.ValidateCandidateGroups` | src/crewplane/core/review_checkpoint_progress.py:40-60 | The two loops over groups and the path dictionary find the first mismatch the specification names |
| `CheckpointProgress.CandidateGroupsIff` | src/crewplane/core/review_checkpoint_progress.py:40-87 | The pass accepts if and only if each group is the complete ordered executor phase of one place, candidates that share a path in any groups are equal, and older producers only seed the first round of a later audit |
| `KeyOrder.SortedAlikeIff` | src/crewplane/core/review_checkpoint_progress.py:252-267 | Two lists sort alike if and only if every string occurs equally often in both |
| `KeyOrder.LeqIff` | src/crewplane/architecture/contracts/integration_secrets.py:87-91 | The order of sorted is lexicographic by code point |
| `CheckpointProgress.BatchIff` | src/crewplane/core/review_checkpoint_progress.py:252-272 | A batch passes if and only if it accounts for every compiled reviewer at its place: reviews in compiled order for those that did not fail, failures for exactly the others |
| `CheckpointLaws.UniquePathsIff` | src/crewplane/core/review_checkpoint.py:105-107 | The dictionary of files keeps its length exactly when no two files share a path |
| `CheckpointLaws.CoordinatesIff` | src/crewplane/core/review_checkpoint.py:281-315 | The pass over all records accepts if and only if every one names a compiled task in its role, within cursor and policy bounds, with round zero only for the initial review |
| `CheckpointLaws.PathNamesCall` | src/crewplane/core/review_checkpoint.py:318-343 | Equal expected paths mean equal task id and round, and equal audit where audits have directories |
| `CheckpointLaws.AcceptedIsSound` | src/crewplane/core/review_checkpoint.py:115-343 | In an accepted checkpoint every output has its place, its evidence and its bounds, and every candidate group is complete and consistent |
| `CheckpointLaws.PathDeterminesCall` | src/crewplane/core/review_checkpoint.py:281-343 | In every accepted checkpoint two outputs have the same path if and only if they have the same task, role, audit and round |
| `CheckpointLaws.CandidatesAndReviewsApart` | src/crewplane/core/review_checkpoint.py:115-141 | and no candidate shares a path or a task id with a review |
| `CheckpointLaws.OneCandidatePerCall` | src/crewplane/core/review_checkpoint_progress.py:75-87 | Carried candidates are equal exactly if their calls are, and exactly if their paths are |
| `CheckpointLaws.FinalizeIsSettled` | src/crewplane/core/review_checkpoint.py:178-184 | Accepted for finalization: the selected candidates are complete at one place within bounds, and every reviewer is accounted for at that place |
| `CheckpointLaws.FinalizeHasReason` | src/crewplane/core/review_checkpoint_progress.py:194-231 | Accepted for finalization: the stop reason is consensus, no progress or exhausted consensus, each with exactly its flags; consensus means approving reviews, and without it the policy goes on after failures or, for exhausted consensus, after exhaustion |
| `CheckpointLaws.FinalizationIff` | src/crewplane/core/review_checkpoint_progress.py:194-231 | The finalization check passes if and only if the cursor is the last round and that holds |
| `CheckpointLaws.ConsensusIsUnanimous` | src/crewplane/core/review_checkpoint_progress.py:194-231 | Accepted for finalization by consensus: one place at which every compiled executor, in order, has a candidate with its file and every compiled reviewer, in order, an approving review with its file, no failures, no shared file paths, within cursor and policy bounds |
| `CheckpointLaws.RemediationStartsSettled` | src/crewplane/core/review_checkpoint_progress.py:160-191 | Accepted for remediation: it starts from a candidate complete and settled at an earlier round of the same audit and carries exactly its open findings |
| `CheckpointLaws.ReviewersFaceTheCursor` | src/crewplane/core/review_checkpoint_progress.py:106-114 | Accepted for review: the complete candidate of the cursor's own place is there to review |
| `CheckpointAcceptance.AcceptedIff` | src/crewplane/core/review_checkpoint.py:99-343 | All validators together accept an open checkpoint if and only if it is as described on its fields: its node, its evidence, its groups, cursor, settled reviews, failures and reason, the bounds of every call and the place of every file |
| `CheckpointAcceptance.ReferencesIff` | src/crewplane/core/review_checkpoint.py:99-199 | The part on evidence: distinct file, mapping and destination paths, every output and workspace with the file of its call, and what each phase needs |
| `CheckpointAcceptance.ProgressIff` | src/crewplane/core/review_checkpoint_progress.py:24-272 | The part on progress: groups, cursor and counters, settled batches, failures, finalization |
| `CheckpointAcceptance.CallsIff` | src/crewplane/core/review_checkpoint.py:281-315 | The part on calls: every record names a compiled task in its role, no later than the cursor, within the configured rounds, with round zero for the initial review only |
| `CheckpointAcceptance.CandidatesExactly` | src/crewplane/core/review_checkpoint_state.py:179-185 | The candidates carried are the latest ones and, in an active audit, the current, the previous and the latest valid ones |
| `CheckpointAcceptance.InitialReviewIsSettled` | src/crewplane/core/review_checkpoint_progress.py:137-148 | An accepted checkpoint with a completed initial review has its reviewers settled at audit 1, round 0, on a node that starts with them; one without carries no initial review or failure |
| `CheckpointAcceptance.FailuresNeedPolicy` | src/crewplane/core/review_checkpoint_progress.py:151-157 | In an accepted checkpoint a failed reviewer means a policy that goes on after failures, and a consensus has none |
| `CheckpointAcceptance.ClosedIff` | src/crewplane/core/review_checkpoint.py:218-257 | A closed marker is accepted exactly for its own node |
| `CheckpointExample.ConsensusIsAccepted` | src/crewplane/core/review_checkpoint.py:81-343 | For every stage and any two task ids some checkpoint is accepted as final by consensus, so the laws are not vacuous |
| `StreamCapture.Capture.Append` | plugins/crewplane-ollama/src/crewplane_ollama/command_executor.py:62-73 | The object keeps the first half-limit bytes as head and the last bytes of the rest, at most half the limit, as tail, whatever arrives |
| `StreamCapture.CaptureAll` | plugins/crewplane-ollama/src/crewplane_ollama/command_executor.py:56-73 | So what is held after any chunks depends on their concatenation alone |
| `StreamCapture.NothingLostIff` | plugins/crewplane-ollama/src/crewplane_ollama/command_executor.py:56-80 | Head and tail are the whole stream if and only if it fits the limit, and never longer than the limit |
| `StreamCapture.OnlyTheMiddleIsLost` | plugins/crewplane-ollama/src/crewplane_ollama/command_executor.py:62-73 | Otherwise they are its first and its last half-limit bytes |
| `StreamCapture.TailGrows` | plugins/crewplane-ollama/src/crewplane_ollama/command_executor.py:68-73 | Both ways of updating the tail, replacing it and shifting it, keep the last bytes |
| `StreamCapture.Capture.Truncated` | plugins/crewplane-ollama/src/crewplane_ollama/command_executor.py:78-80 | The flag is set exactly if the kept bytes are not the stream |
| `StreamCapture.Capture.Kept` | plugins/crewplane-ollama/src/crewplane_ollama/command_executor.py:75-76 | The bytes that are decoded: all of a short stream, both ends of a long one |

## Left out

- JobQueue.Queue.Claim: takes a token no row has, in place of a UUID; what other processes do between the transactions of one call is the subject of `QueueProtocol`.
- JobQueue.Queue.Inspect: models the call with an id; without one the source lists all rows in the same way.
- JobQueue.Queue.Complete: blank text is judged by ASCII white space, and a receipt is stored as a value in place of its sorted JSON text.
- JobQueue.Queue.Renew: durations are reals, so NaN and infinities do not occur.
- WorkerHandshake.WorkerStepsAreBounded: bounds the worker's own steps; that the scheduler grants them is not part of the model.
- TerminalDelivery.Hub.EmitEvent: emits are sequential, as the runtime makes them; what the worker and the ticker do with the queue meanwhile is the subject of `WorkerHandshake`.
- ArtifactNames.ParseInvertsBuild: `int` and `str` on ASCII text, without the limit of 4300 digits and without other scripts' digits and spaces.
- The field checks of single checkpoint records (digest and path syntax, nonempty strings) and the fields no validator relates to another, such as stall counters, evaluation text and the resume origin.
- The ticker's schedule, the warning sink, `__enter__` and `__exit__` around the hub, event state and snapshots, and `stop_observers_with_timeout`.
- SQLite itself, its busy retries, signals other than as a step that marks and ends an invocation, sleeping and reading standard input.
- Decoding captured bytes as UTF-8 with replacement characters.
- The regular expressions behind sensitive names.
- Drawing characters, terminal layout, configuration, command-line handling, the file-system layer and release scripts: no property beyond one call, or the semantics of the operating system.
