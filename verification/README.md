# Murmur: a verified model of the orchestration core

Murmur runs LLM agents: groups of them wired into a directed acyclic graph, batches of them over a broker, and cascades in
which one agent spawns others. This project models the parts whose correctness rests on an algorithm or a protocol, and
proves in Dafny what those parts are for. What an agent, a mapper or a condition computes is a parameter: a function of its
input that yields a result or an error. `dafny verify dfyconfig.toml` checks everything.

| module | models |
|---|---|
| `Topology`, `CycleSearch`, `Kahn`, `Tiers`, `GroupSpec` | the group graph: cycle test, both Kahn loops, entry and terminal nodes, construction |
| `Routing`, `RoutedWalk` | type-routed fan-out and the conservation of its items, in one validation and over a finished walk |
| `Dispatch`, `EdgePlaces`, `Confluence`, `GroupWalk`, `GroupRun`, `SkippedDiamond` | resolving one node, why the order of resolving does not matter, the concurrent tier walk, skips, what a run returns, and a group no walk completes |
| `Handover`, `RunResults` | what every node is given and comes to, and what a run returns, said by edges, answers and terminals alone |
| `Numerals` | decimal numerals, padding, order by code point |
| `Collector`, `BatchRuns` | the broker's result protocol, and what its waits return in terms of the steps of a run |
| `SpawnTree`, `Pipeline`, `SpawnLedger`, `Warmup` | cascades, the stages of a run and of a batch, the shared counters, eager provider start |
| `RocksIndex`, `RocksStore`, `RunStream`, `StreamRuns`, `RedisStream`, `RedisRuns` | the event log's key index and its subscribers, and their runs in terms of the steps |
| `Sse`, `SseBlocks`, `Signing`, `SigningText` | the event-stream parser, the signed bytes |
| `WorkerPool`, `PoolRuns`, `RunForest` | the in-process worker pool, the run forest |

Where the source updates state in place the model is a class or a method with loops, proved against a function or a
predicate about which the lemmas then speak. Concurrent parts are state machines whose steps run from one await to the next;
`Runs(s, steps, t)` says that a list of steps leads from one state to another, and a lemma that takes an arbitrary `steps`
speaks of every interleaving.

## What the code does not do

Some properties one might expect are false of the code. Each is answered by a concrete counterexample, by the exact
condition under which it holds, or by both:

- The walker's documentation (`src/murmur/groups/runner.py:29-35`) says that nodes which depend only on skipped edges are
  skipped. That holds of nodes with one incoming edge. A node with several incoming edges, none of them live, raises
  (`src/murmur/groups/runner.py:517-520`): `SkippedDiamond.DiamondRaises` is an accepted group that no walk completes;
  `Dispatch.MultiInputRaisesWhenAllDead` and `GroupRun.SkippedIffChain` say when.
- Routing to exactly one handler needs single inheritance: `Routing.MultipleInheritanceDuplicates` has a group, which
  construction accepts by `RoutedWalk.ForkIsAccepted`; `Routing.ConservedIffOneTaker` is the condition.
- A result with a foreign task id still counts towards a batch: `Collector.ForeignIdWakesEarly` and
  `Collector.FilledIffOwnIds`.
- Streams can end before the last event: `RunStream.StreamCanEndEarly` and `RunStream.CompleteIffNothingSinceFetch`;
  `RedisStream.LeaverCanMissEntries`, `RedisStream.LeaverHasAllIffShort` and `RedisStream.LeaverHasAllBeforeEnd`.
- A push cancelled between its write and its wake-up leaves a subscriber waiting for an event that is in the table:
  `RunStream.CancelledPushStrandsSubscriber` and `RunStream.WaiterHasAllIffNothingSinceFetch`.
- Run ids with a slash share key ranges: `RocksIndex.SlashMixesRuns` and `RocksIndex.ForeignKeyInRange`.
- A hop over the broker restores the parent's own ancestors exactly when its name is not among them, which the permissive
  cycle policy does not ensure: `SpawnTree.HopKeepsParentIffNoReentry` and `SpawnTree.ReentryLosesAncestors`.
- Verification is documented never to raise on a bad signature (`src/murmur/messages.py:248-250`). It raises exactly on a
  signature with a character above 127 when there is a key to compare with: `Signing.Verify`,
  `Signing.AccentedSignatureRaises`.
- A message may verify although its key is not in the list: keys with the same digests stand for each other, as a short key
  and its zero-padded form do under HMAC: `Signing.EquivalentKeysVerify`; `Signing.VerifiesIffSigned` is the condition.
- Printing and parsing server-sent events is not the identity on records with some carriage returns: `Sse.RoundTripIff`.

## Model

| member | source | states |
|---|---|---|
| CycleSearch.HasCycle | src/murmur/groups/spec.py:319-337 | the search terminates and answers true exactly when some walk along the edges returns to its start |
| CycleSearch.Search.Visit | src/murmur/groups/spec.py:323-335 | a visit that answers true has closed a cycle through the gray path; otherwise its node is finished, every edge out of a finished node leads to an earlier finished one, and the gray set is as it was |
| Topology.PredecessorsInsideMakeCycle | src/murmur/groups/spec.py:163-164 | a nonempty set of nodes each of which has a predecessor in the set contains a cycle |
| Topology.RankedIsAcyclic | src/murmur/groups/spec.py:146-165 | a graph whose edges all climb some numbering of the nodes has no cycle |
| Kahn.InDegrees | src/murmur/groups/spec.py:148-152 | the counters are the numbers of edges into each node, repeated edges counted each time |
| Kahn.RemoveEdges | src/murmur/groups/spec.py:158-162 | every counter drops by the number of occurrences and exactly the nodes that reach zero are released, each once |
| Kahn.Release | src/murmur/groups/spec.py:158-162 | consuming a ready node keeps the ready list equal to the unconsumed nodes whose predecessors are all consumed |
| Kahn.TopologicalOrder | src/murmur/groups/spec.py:146-165 | an order is returned exactly when the graph is acyclic; it has every node once, after all its predecessors |
| Kahn.OrderedIsAcyclic | src/murmur/groups/spec.py:146-165 | a graph with a topological order has no cycle |
| Kahn.AcyclicHasOrder | src/murmur/groups/spec.py:146-165 | an acyclic graph has a topological order |
| Kahn.StuckIsCyclic | src/murmur/groups/spec.py:163-164 | when the queue runs empty with nodes left over, those nodes hold a cycle |
| Tiers.TopologicalTiers | src/murmur/groups/spec.py:167-207 | tiers are returned exactly when the graph is acyclic; they hold every node once, tier t holds the nodes whose longest incoming walk has t edges, in declaration order |
| Tiers.LongestWalkIsUnique | src/murmur/groups/spec.py:167-178 | a node has at most one longest-walk length, so the tiers are determined by the graph |
| Tiers.EdgesClimbTiers | src/murmur/groups/spec.py:170-175 | every edge leads to a strictly later tier |
| Tiers.SortedByDeclaration | src/murmur/groups/spec.py:203-204 | sorting a released set by declaration index gives it in declaration order |
| GroupSpec.EntryNodes | src/murmur/groups/spec.py:129-135 | exactly the nodes no edge leads to, in declaration order |
| GroupSpec.TerminalNodes | src/murmur/groups/spec.py:137-144 | exactly the nodes without a target, in declaration order |
| GroupSpec.AcyclicHasEntry | src/murmur/groups/spec.py:103-107 | a nonempty acyclic graph has an entry node |
| GroupSpec.AcyclicHasTerminal | src/murmur/groups/spec.py:108-112 | a nonempty closed acyclic graph has a terminal node |
| GroupSpec.FindDangling | src/murmur/groups/spec.py:91-100 | a dangling reference is reported exactly when some target is not a node |
| GroupSpec.Validate | src/murmur/groups/spec.py:88-118 | construction succeeds exactly for nonempty, closed, acyclic, soundly routed graphs; each error names the first check that fails, and the missing-entry and missing-terminal errors never occur |
| Routing.HeterogeneousDispatchFor | src/murmur/groups/spec.py:209-317 | accepted exactly when no edge of a union source is conditional, no two members are related and the handlers claim the members one to one; the table maps each member to its handler, and an error names a real fault |
| Routing.FindRelated | src/murmur/groups/spec.py:271-280 | an error exactly when two union members are related by subclassing |
| Routing.IndexHandlers | src/murmur/groups/spec.py:282-300 | handlers are indexed exactly when all declare an input type and no two the same one |
| Routing.BuildTable | src/murmur/groups/spec.py:282-317 | a table exactly when handlers and members correspond one to one; otherwise the error names a missing or repeated input type, an unserved member or an orphan handler |
| Routing.DeliveredKeepsOrder | src/murmur/groups/runner.py:430-434 | a handler receives its items in their original order |
| Routing.ConservedIffOneTaker | src/murmur/groups/runner.py:400-434 | all deliveries together are the items, each once, if and only if every item's class falls under exactly one handler type |
| Routing.RoutingConservesItems | src/murmur/groups/spec.py:245-317 | under single inheritance every item of any list reaches exactly one handler of an accepted source, in order |
| Routing.MultipleInheritanceDuplicates | src/murmur/groups/spec.py:267-280 | the validator accepts a union source both of whose handlers are given an item whose class is below two union members |
| RoutedWalk.ForkIsAccepted | src/murmur/groups/spec.py:88-118 | construction accepts that group under that class tree |
| RoutedWalk.TasksAreTheItems | src/murmur/groups/runner.py:430-434 | when each item's class falls under one handler type, the tasks for all handlers together are one task an item |
| RoutedWalk.HandlerGathered | src/murmur/groups/runner.py:400-434 | in a finished walk each handler of an emitting source was gathered over the items of its type, and no item was outside the union |
| RoutedWalk.RoutedWalkConservesItems | src/murmur/groups/runner.py:400-434 | in a finished walk under single inheritance the single-input, mapper-less handlers of a source are given one task for every item it emitted, each handler those of its type |
| Dispatch.IncomingEdges | src/murmur/groups/runner.py:553-564 | the map lists, for every node, one pair per occurrence as a target, in declaration order |
| Dispatch.IncomingMeaning | src/murmur/groups/runner.py:553-564 | the upstreams of a node are exactly the nodes with an edge to it, and it has none exactly if it is an entry node |
| EdgePlaces.IncomingIsEveryPlace | src/murmur/groups/runner.py:553-564 | the pairs into a node are those of every place in the declaration that names it as a target, once each, in the order of node, edge and target |
| Dispatch.DispatchMultiInput | src/murmur/groups/runner.py:448-545 | the aggregation loop decides as the specification over the list of contributions does, error cases in the source's order |
| Dispatch.AggregatorSeesEveryUpstream | src/murmur/groups/runner.py:467-545 | when an aggregation dispatches there is exactly one mapper, called with every upstream's name bound to its contribution |
| Dispatch.LastOfNameCounts | src/murmur/groups/runner.py:480-501 | of two upstreams with one name the later contribution counts |
| Dispatch.MultiInputRaisesWhenAllDead | src/murmur/groups/runner.py:473-520 | a node with several incoming pairs is never skipped; when every upstream is skipped, missing, failed, a failed batch or behind a false condition it raises AllAgentsFailed, or the error about several mappers |
| SkippedDiamond.DiamondRaises | src/murmur/groups/runner.py:29-35 | an accepted diamond with two false conditions: every walk fails, and in sequence the failure is AllAgentsFailed at the last node, which depends on skipped edges only |
| Dispatch.HandlerGetsItsItems | src/murmur/groups/runner.py:400-434 | a routed handler is gathered over exactly the items of its type |
| Dispatch.ResolveNode | src/murmur/groups/runner.py:342-377 | entry, single-input or multi-input dispatch, chosen by the number of incoming pairs |
| Handover.OutputsAreOk | src/murmur/groups/runner.py:630-641 | what a batch passes on is the outputs of exactly its successful results, in order |
| Handover.DeliveredAreOfType | src/murmur/groups/runner.py:430-434 | a routed handler has one task for each item of its type, in order, each the item in text form |
| Handover.FireIsHandedOn | src/murmur/groups/runner.py:400-445 | an edge that fires hands on, with a mapper, a run or a gather of what the mapper returns on the upstream's output; without one, a run on the whole output, or a gather over the items of a fan-out field, all of them or those of the node's type; every error has its cause |
| Handover.SingleInputIsComesFromOne | src/murmur/groups/runner.py:385-445 | a node with one pair is skipped behind a skipped upstream or a false condition, raises when the upstream gives nothing or the condition raises, and otherwise comes to what is handed on; exactly one outcome fits |
| Handover.MultiInputIsComesFromMany | src/murmur/groups/runner.py:448-545 | a node with several pairs comes to what its one mapper makes of every upstream's name bound to what the last upstream of that name adds, or to the error of the first check that fails; exactly one outcome fits |
| Handover.ResolveIsComes | src/murmur/groups/runner.py:342-377 | what a node resolves to is the one outcome that the pairs into it, the store and the answers of user code and runtime call for, whatever the number of pairs |
| Handover.FanOutRunsOneTaskAnItem | src/murmur/groups/runner.py:615-618 | in a finished walk a node fed without a mapper from a fan-out field of one type has the results of one gather with one task an item, under the edge's concurrency |
| Dispatch.ResolveIsLocal | src/murmur/groups/runner.py:351-357 | what a node resolves to depends on what is stored about its upstreams and on nothing else |
| Confluence.ExtendSolution | src/murmur/groups/runner.py:313-339 | storing a node's outcome after its upstreams keeps every stored outcome the one its upstreams determine, with results and skipped disjoint |
| Confluence.SolutionIsUnique | src/murmur/groups/runner.py:81-204 | at most one store settles all nodes of an acyclic group |
| Confluence.RaisingHasNoSolution | src/murmur/groups/runner.py:277-305 | when a node whose upstreams are settled raises, no store settles all nodes, so every walk raises |
| Confluence.FailureIsTheNodes | src/murmur/groups/runner.py:351-357 | what a node raises does not depend on which other nodes were settled before it |
| Confluence.WalkInOrderDecides | src/murmur/groups/runner.py:313-339 | a walk of one node at a time succeeds exactly when a store settling all nodes exists, and then ends with it |
| Confluence.SiblingsUnseen | src/murmur/groups/runner.py:152-156 | a node of a tier resolves to the same before and after its siblings are stored |
| Confluence.OrdersAreConfluent | src/murmur/groups/runner.py:313-339 | any two one-node-at-a-time walks along linear extensions both raise or end with the same store |
| GroupWalk.JobsAreLocal | src/murmur/groups/runner.py:351-357 | in a group walk what a node comes to depends on its upstreams alone |
| GroupWalk.DispatchTierParallel | src/murmur/groups/runner.py:251-305 | whatever order the siblings finish in, each is resolved from the earlier tiers' store at most once; all outcomes come back in tier order, or the first failure is raised |
| Confluence.CommitTier | src/murmur/groups/runner.py:163-167 | storing the outcomes in tier order settles the tier's nodes |
| GroupWalk.TierFrame | src/murmur/groups/runner.py:108-139 | the frame a tier runs under is the one its nodes have by their position in the graph |
| GroupWalk.ResolveTier | src/murmur/groups/runner.py:140-162 | a tier of one node or of several yields the outcome each node has in the group, in tier order, or the failure of one of them |
| GroupWalk.WalkOneTier | src/murmur/groups/runner.py:131-167 | one tier, alone or in parallel, extends the solution by exactly its nodes or shows that there is none |
| GroupWalk.WalkTiers | src/murmur/groups/runner.py:81-170 | under every interleaving the tier walk resolves each node once after all its upstreams, succeeds exactly when a store settling all nodes exists, raises only what some node with settled upstreams raises, and agrees with the walk along every topological order |
| Handover.WalkIsDecidedByAnswers | src/murmur/groups/runner.py:81-170 | a walk may end with a store exactly when every node in it is what its pairs and the answers call for, and with an error exactly when no such store exists and some node comes to that error |
| GroupRun.SkippedIffChain | src/murmur/groups/runner.py:385-398 | a node is skipped if and only if going back over only-upstreams meets a false condition before an entry or multi-input node |
| GroupRun.SkippedByOnlyEdge | src/murmur/groups/runner.py:394-398 | a skipped node has exactly one incoming pair, with a skipped upstream or a false condition |
| GroupRun.LeafNames | src/murmur/groups/runner.py:191-204 | the outputs are keyed by exactly the names of the fired terminals |
| GroupRun.LastLeafCounts | src/murmur/groups/runner.py:200 | a name shared by several fired terminals is bound to the last one's result |
| GroupRun.Conclude | src/murmur/groups/runner.py:172-204 | the number of fired terminals decides between an error, one result and a keyed result with aggregate metadata; a batch at a terminal is an error that names the first such terminal |
| GroupRun.AggregateMetadata | src/murmur/groups/runner.py:207-229 | tokens and cost are the sums over the keyed leaves, the duration is the longest among them |
| GroupRun.RunGroup | src/murmur/groups/runner.py:81-204 | a run of an accepted group concludes from the unique store that settles all nodes; without one it raises what some node raises |
| RunResults.ConcludesIsReturns | src/murmur/groups/runner.py:172-204 | said by the terminals that produced something: none is an error, a batch is an error naming the first declared, one gives its result, several are bound by name, the last declared of a name counting, with their totals |
| RunResults.FinishedRunReturns | src/murmur/groups/runner.py:81-204 | a run whose nodes can all be settled returns what the terminals of the finished store return |
| Collector.TaskIdInjective | src/murmur/backends/job.py:290 | tasks of one batch have different ids |
| Collector.ResultCollector.Register | src/murmur/backends/_collector.py:65-74 | a new batch is entered with its size and no results; a known one is refused and nothing changes |
| Collector.ResultCollector.OnMessage | src/murmur/backends/_collector.py:122-136 | a result is stored under its task id in its own batch only; orphans and undecodable payloads change nothing |
| Collector.ResultCollector.FinishBatch | src/murmur/backends/_collector.py:76-106 | one entry per expected slot in order, and only this batch is removed |
| Collector.FilledIffOwnIds | src/murmur/backends/_collector.py:106-136 | all slots are filled if and only if as many of the stored ids as expected are the batch's own |
| Collector.ForeignIdWakesEarly | src/murmur/backends/_collector.py:134-136 | a foreign task id can wake a batch with an empty slot |
| Collector.BatchUnaffected | src/murmur/backends/_collector.py:122-136 | steps on other batches leave a registered batch as it is |
| Collector.BatchesAreAnswered | src/murmur/backends/job.py:258-308 | under any duplication, reordering and delay a wait returns one slot per task, slot i the last answer to task i that arrived while registered; a wait its event ended has no empty slot |
| Collector.AwakeIffAllArrived | src/murmur/backends/_collector.py:135-136 | a batch's event is set exactly when an answer to each of its tasks has arrived |
| BatchRuns.WaitReturnsTheLastDeliveries | src/murmur/backends/_collector.py:76-136 | in terms of the steps alone: a wait that began at one step and ended at another returned one slot a task, empty if nothing was delivered under the task's id in between, otherwise the last message that was |
| BatchRuns.WakesWhenAllDelivered | src/murmur/backends/_collector.py:135-136 | a waiting batch can be woken exactly when every task has been answered since it was registered, and can time out at any moment |
| BatchRuns.EveryBatchCanComplete | src/murmur/backends/job.py:258-308 | wherever a run has led, a new batch can be registered, published, answered with any payloads and woken |
| SpawnTree.HopKeepsContext | src/murmur/backends/job.py:388-406 | a child context survives the hop over the broker, so the worker admits exactly what the publisher admits |
| SpawnTree.HopKeepsParentIffNoReentry | src/murmur/messages.py:38-66 | the rebuilt parent frame has the parent's ancestors exactly when its own name was not among them |
| SpawnTree.ReentryLosesAncestors | src/murmur/runtime.py:397-403 | a tree the permissive policy accepts, with a frame that has its own name among its ancestors and loses it in a hop |
| SpawnTree.AcceptedExtendsPath | src/murmur/runtime.py:392-447 | an accepted dispatch extends the path of names whatever the context passer returned, hop or not |
| SpawnTree.AcceptedIff | src/murmur/runtime.py:397-403 | a dispatch below a path of names is accepted if and only if the path is shorter than the limit and, under the strict policy, does not have its name; a refusal is a cycle exactly when strict and the name is on the path, else the depth limit |
| SpawnTree.AcceptedFrame | src/murmur/runtime.py:405-447 | an accepted dispatch runs under a frame of its own name and trace, with its parent's name and trace as linkage and the conversation its context passer returned |
| SpawnTree.AdmittedIffChainsFit | src/murmur/runtime.py:392-447 | a whole tree of dispatches is accepted if and only if each of its chains is within the limit and, under the strict policy, repeats no name |
| SpawnTree.DispatchKnowsItsPath | src/murmur/runtime.py:392-447 | in an accepted tree ancestors are exactly the names above, depth is their number and below the limit; under the strict policy no name repeats |
| SpawnTree.ChainsBoundedByRegistry | src/murmur/runtime.py:397-403 | under the strict policy a chain is no longer than the number of registered names |
| SpawnTree.TreesAreBounded | src/murmur/runtime.py:590-623 | a tree that branches at most b ways has at most 1 + b + b^2 + ... dispatches, one term per allowed depth |
| Pipeline.BuildChain | src/murmur/core/pipeline.py:86-103 | the reversed wrapping loop composes the stages so that each is given the rest as its next stage |
| Pipeline.RetryLoop | src/murmur/middleware/retry.py:34-57 | the attempt loop equals the recursive attempts that AttemptsFollow is about |
| Pipeline.AttemptsFollow | src/murmur/middleware/retry.py:34-57 | between one and max attempts are made, stopping at the first that does not fail to spawn; no slot is claimed on the way |
| Pipeline.RetriesUntilSettled | src/murmur/middleware/retry.py:34-57 | in an accepted run that nothing cuts short, some attempt did not fail to spawn, or exactly max attempts were made, at least one, and then the run reports a failed spawn |
| Pipeline.RunIsAnswered | src/murmur/runtime.py:449-505 | every budget read, claim and attempt in a run's log has the answer the world gives at that moment |
| Pipeline.ProtocolIsOrderly | src/murmur/runtime.py:449-481 | along the protocol at most one slot is claimed, nothing is dispatched without it, only failed spawns are retried, and only the last result is charged |
| Pipeline.OneSlotPerRun | src/murmur/runtime.py:416-505 | a run claims one slot exactly when depth, budget and cap let it through, dispatches then and only then, at most max attempts times, and charges what its result reports |
| Pipeline.RejectionIsTheFirstFailedCheck | src/murmur/runtime.py:449-463 | a rejected run has done nothing beyond the check that failed and reports that check's error |
| Pipeline.AcceptedRunReturnsItsLastAttempt | src/murmur/middleware/timeout.py:24-37 | an accepted run returns its last attempt's result; a timeout surfaces as a failed spawn |
| Pipeline.Gather | src/murmur/runtime.py:612-752 | a batch follows the same protocol: the backend is given it exactly when depth, budget and cap let it through, once, and what all results used together is charged before an error is raised |
| SpawnLedger.SpawnCounter.ClaimSpawnBatch | src/murmur/runtime.py:518-542 | all slots or none: the counter grows by the count exactly when it fits, and a refusal leaves it alone and says how many remain |
| SpawnLedger.TokenBudget.Consume | src/murmur/middleware/cost_tracking.py:91-96 | positive charges are subtracted, others ignored |
| SpawnLedger.TokenBudget.Reset | src/murmur/middleware/cost_tracking.py:98-101 | the whole limit is available again |
| SpawnLedger.CountersAgree | src/murmur/runtime.py:518-542 | in every interleaving of processes that follow the protocol, as runs do by Pipeline.OneSlotPerRun and batches by Pipeline.Gather, the counter is the sum of the granted slots, within the cap, nobody dispatches without slots, and the used tokens are the sum of the charges |
| SpawnLedger.RunCanBePlayed | src/murmur/runtime.py:449-542 | every run of the pipeline takes place among the processes: one that begins while the counters answer as the run's world does can take all of the run's actions |
| SpawnLedger.OverspendIsBounded | src/murmur/middleware/cost_tracking.py:122-137 | with at most k slots between budget check and charge and at most t tokens a slot, no interleaving uses more than limit - 1 + k * t |
| Warmup.AtMostOneStart | src/murmur/runtime.py:965-1024 | in every run at most one supervisor and one start per provider |
| Warmup.OutcomeIsTheSupervisors | src/murmur/runtime.py:965-996 | a dispatch passes exactly if all its providers have started, and raises exactly the cached error of the first that failed |
| Warmup.DispatchesSeeTheStarts | src/murmur/runtime.py:965-1024 | in terms of the steps alone: no provider is started or settles twice, a dispatch that passed did so after every provider's start had come back, and one that raised has the very error its current provider's start raised, all earlier ones having come back |
| Warmup.PassedIffAllStarted | src/murmur/runtime.py:1012-1024 | a dispatch that is done passed if and only if the start of each of its providers came back without an error |
| Warmup.DispatchesAreTheArrivals | src/murmur/runtime.py:949-963 | the dispatches are those that arrived, each with its own providers, and none ends cancelled that was not cancelled |
| Warmup.OutcomesAgree | src/murmur/runtime.py:949-956 | dispatches over the same providers never disagree, however far apart they ran |
| Warmup.SomethingMoves | src/murmur/runtime.py:975-996 | while a dispatch is unfinished some step is possible, even with a waiter inside the lock |
| Warmup.WarmupEnds | src/murmur/runtime.py:965-1024 | once no dispatch arrives every run ends within a bound, and a run that cannot continue has freed the lock and finished every dispatch |
| RocksIndex.LimitIsPower | src/murmur/runs/rocksdb.py:63 | twenty digits number the events below ten to the twentieth |
| RocksIndex.EventKeyOrder | src/murmur/runs/rocksdb.py:74-75 | byte order on one run's keys is numeric order |
| RocksIndex.EventKeyParses | src/murmur/runs/rocksdb.py:159-162 | the rest of a key after its prefix parses to its sequence number |
| RocksIndex.EventKeyText | src/murmur/runs/rocksdb.py:70-75 | a key is an e, the run's id between slashes, and the number in twenty digits |
| RocksIndex.ForeignKeyInRange | src/murmur/runs/rocksdb.py:70-75 | another run's key lies in a run's range exactly when the first id and a slash start the other id and a slash |
| RocksIndex.SlashMixesRuns | src/murmur/runs/rocksdb.py:70-71 | ids with a slash can mix |
| RocksStore.RangeIsOwnEvents | src/murmur/runs/rocksdb.py:172-175 | with slash-free ids the keys in a run's range are its own events |
| RocksStore.RocksDBRunStore.constructor | src/murmur/runs/rocksdb.py:85-91 | reopening keeps every log, with empty counters |
| RocksStore.RocksDBRunStore.Create | src/murmur/runs/rocksdb.py:141-151 | a new run gets an empty log; an existing run is refused and unchanged |
| RocksStore.RocksDBRunStore.ScanMaxSeq | src/murmur/runs/rocksdb.py:153-162 | the backwards seek finds the run's last number, -1 without events or without the run |
| RocksStore.RocksDBRunStore.ReadEventsAfter | src/murmur/runs/rocksdb.py:164-188 | exactly the events after any cursor with their numbers, in push order; none after the last, all after a negative one |
| RocksStore.AfterMeaning | src/murmur/runs/rocksdb.py:164-188 | the events after a cursor are exactly those with a larger number, in the order of their numbers |
| RocksStore.RocksDBRunStore.PushEvent | src/murmur/runs/rocksdb.py:273-288 | the log grows by the event, no other log changes and nothing is overwritten, after a restart too |
| RunStream.SQLiteRunStore.InsertEvent | src/murmur/runs/sqlite.py:238-260 | the row is added with one more than the largest number |
| RunStream.SQLiteRunStore.FetchEventsAfter | src/murmur/runs/sqlite.py:124-145 | the rows numbered above the cursor, in order |
| RunStream.SQLiteRunStore.WakeAll | src/murmur/runs/sqlite.py:120-122 | every registered subscriber's flag is set and nothing else of it changes |
| RunStream.SQLiteRunStore.UpdateState | src/murmur/runs/sqlite.py:215-224 | any state may follow any other; listeners are woken exactly on a terminal one |
| RunStream.NumbersAreDense | src/murmur/runs/sqlite.py:240-260 | under the write lock pushes are numbered 0, 1, 2, ... without gap or repeat |
| RunStream.SubscribersSeePrefixes | src/murmur/runs/sqlite.py:263-285 | in every interleaving, with pushes cancelled anywhere, a subscriber has been given a prefix of the log |
| RunStream.NoWakeUpIsLost | src/murmur/runs/rocksdb.py:290-312 | a subscriber waiting with its flag clear has been given the whole log of a run that is not over, unless a writer is between its write and its wake-up or was cancelled there with no wake-up since |
| StreamRuns.LogIsThePushes | src/murmur/runs/sqlite.py:215-261 | the table holds the pushed events in the order of their insertion and the state is the last one set |
| StreamRuns.WaitersMissOnlyUnannounced | src/murmur/runs/sqlite.py:238-291 | in terms of the steps alone: a subscriber waiting with its flag clear has every pushed event of a run that is not over, unless some write has not been followed by a wake-up of its writer, or was cancelled before it with no wake-up since |
| StreamRuns.LeavesOnlyWhenOver | src/murmur/runs/sqlite.py:263-285 | a subscriber has left only if it was abandoned or checked when the last state set was terminal, and a check then makes it leave |
| StreamRuns.SubscribersComeToRest | src/murmur/runs/sqlite.py:263-291 | while nobody writes a subscriber makes at most seven moves more than there are rows |
| StreamRuns.PushGetsThrough | src/murmur/runs/sqlite.py:238-261 | whenever no push holds the lock a new one can run to its end, which adds its event and sets every subscriber's flag |
| RunStream.QuietSubscribersHaveAll | src/murmur/runs/sqlite.py:263-291 | when nothing can move any more and no cancelled write is unannounced, every subscriber that has not left has the whole log |
| RunStream.WaiterHasAllIffNothingSinceFetch | src/murmur/runs/sqlite.py:277-285 | a waiting subscriber has the whole log if and only if nothing was inserted since its last fetch |
| RunStream.CancelledPushStrandsSubscriber | src/murmur/runs/sqlite.py:238-261 | a run in which a push is cancelled after its insert and a subscriber waits for its event with all writers done |
| RunStream.CompleteIffNothingSinceFetch | src/murmur/runs/sqlite.py:277-283 | a subscriber that leaves at its state check has the whole log if and only if nothing was inserted since its last fetch |
| RunStream.StreamCanEndEarly | src/murmur/runs/sqlite.py:277-283 | a run in which a stream ends without the last event |
| RedisStream.TerminalIsFinal | src/murmur/runs/redis.py:54-64 | once terminal the state never changes, and the log only grows |
| RedisStream.PollersSeePrefixes | src/murmur/runs/redis.py:250-297 | in every interleaving a poller has been given a prefix of the log |
| RedisRuns.RunIsItsActions | src/murmur/runs/redis.py:54-64 | the log is the pushed events in order, and the state the first terminal one asked for, or the last one asked for while there is none |
| RedisRuns.PollingGetsThrough | src/murmur/runs/redis.py:250-297 | a subscriber that only polls gets the whole log while the run goes on, and leaves once it is over |
| RedisStream.LeaverHasAllIffShort | src/murmur/runs/redis.py:276-296 | a poller that left has everything its last read could see if and only if that was at most one hundred entries |
| RedisStream.LeaverHasAllBeforeEnd | src/murmur/runs/redis.py:276-296 | a poller that has left, its last read not full, was given every entry pushed before the run was over |
| RedisStream.LeaverCanMissEntries | src/murmur/runs/redis.py:278-280 | a run in which a poller leaves without the last of one hundred and one entries |
| Sse.SeparatorStays | packages/js-client/src/sse.ts:78-84 | text that arrives later does not move the first separator |
| Sse.FoundIff | packages/js-client/src/sse.ts:78-84 | the separator found is the first of either kind |
| Sse.ParseBlock | packages/js-client/src/sse.ts:86-121 | the line loop equals the fold over the block's lines that the round trip is about |
| SseBlocks.BlockIsItsFields | packages/js-client/src/sse.ts:86-121 | cut at its line feeds, each line but the last without a final carriage return, and each line into name and value at its first colon and one space, a block gives no record if it has no data line, otherwise all its data joined by line feeds and its last event and id |
| SseBlocks.BlockHasFields | packages/js-client/src/sse.ts:86-121 | every block can be cut so |
| SseBlocks.FirstBlockIsRead | packages/js-client/src/sse.ts:58-64 | the records of a text are that of the block before its first blank line, written with either line ending, and those of what follows |
| SseBlocks.LastBlockIsRead | packages/js-client/src/sse.ts:66-75 | what no blank line ends is one more block |
| Sse.DrainBlocks | packages/js-client/src/sse.ts:58-64 | complete blocks are taken off the buffer without affecting what the rest of the text will yield |
| Sse.ParseSse | packages/js-client/src/sse.ts:29-76 | any cutting of a text into chunks yields the records of the whole text |
| Sse.PrintedRecordsReadBack | packages/js-client/src/sse.ts:86-121 | printed records with single-line events and ids read back in order, less the carriage returns that end a line |
| Sse.RoundTripIff | examples/events_dashboard.py:43-44 | a list of records survives printing and parsing if and only if no event or id has a line feed or a final carriage return and no data has a carriage return before a line feed |
| Sse.ReadRecordsAreSingleLine | packages/js-client/src/sse.ts:86-121 | no text yields an event or id with a line feed |
| Signing.ReadEscaped | src/murmur/messages.py:201 | an escaped string, whatever follows its closing quote, reads back to the string and what follows |
| Signing.StringsArePrefixFree | src/murmur/messages.py:201 | the codes of two strings agree only when the strings and what follows them agree |
| Signing.SortForgetsOrder | src/murmur/messages.py:191 | sorting the ancestors gives one list however the set is enumerated |
| Signing.PayloadIsCanonical | src/murmur/messages.py:159-201 | the signed bytes do not depend on the enumeration order of the ancestors |
| SigningText.RootPayloadText | src/murmur/messages.py:159-201 | the exact text without a parent: name, null and request under their keys, no spaces |
| SigningText.ChildPayloadText | src/murmur/messages.py:159-201 | the exact text with a parent: its keys in order, its ancestors in code point order |
| SigningText.BasicEscapes | src/murmur/messages.py:201 | control characters and letters beyond ASCII are written as four lower-case hexadecimal digits |
| SigningText.SurrogateEscape | src/murmur/messages.py:201 | a character beyond the basic plane is written as two surrogates |
| Signing.PayloadIsInjective | src/murmur/messages.py:159-201 | equal bytes mean equal agent, request and parent linkage |
| Signing.PayloadIsAscii | src/murmur/messages.py:201 | the payload is printable ASCII, one byte a character |
| Signing.Verify | src/murmur/messages.py:232-263 | raises exactly on a signature with a character above 127 and a nonempty key list; otherwise true exactly when some key in the list gives the signature |
| Signing.AccentedSignatureRaises | src/murmur/messages.py:248-263 | a signature of one accented letter raises |
| Signing.SignedVerifies | src/murmur/messages.py:204-263 | a message signed under any key of the rotation list verifies, without raising, on any routing and enumeration |
| Signing.VerifiesIffSigned | src/murmur/messages.py:204-263 | when no digest computed on receipt collides with the signed one, a signature verifies exactly when its key is listed and agent, request and parent linkage are those signed |
| Signing.EquivalentKeysVerify | src/murmur/messages.py:224-263 | what is signed under one of two keys with the same digests verifies under the other |
| WorkerPool.StartsEachOnce | src/murmur/backends/async_backend.py:219-256 | tasks start in input order, each once, and no more are in flight than the smaller of the task count and the concurrency, at least one |
| WorkerPool.EveryTaskIsAnswered | src/murmur/backends/async_backend.py:223-258 | when the workers have left every task was executed exactly once and its result stands at its index, failures included |
| PoolRuns.ResultsAreTheExecutions | src/murmur/backends/async_backend.py:223-258 | in terms of the steps alone: the result at an index is what the worker that went to the queue in that turn next ended with |
| PoolRuns.FlightsFillThePool | src/murmur/backends/async_backend.py:219-256 | at most as many tasks are in flight as there are tasks and the limit allows, a limit below one allowing one, and some interleaving has that many |
| WorkerPool.PoolDrains | src/murmur/backends/async_backend.py:225-257 | every interleaving ends after exactly two steps a task and one a worker, never stuck before |
| WorkerPool.Gather | src/murmur/backends/async_backend.py:216-258 | for every scheduler the batch returns one result per task in input order |
| RunForest.Accumulate | packages/dashboard/src/transform.ts:90-141 | one pass gives, field by field, what the last event that says anything about it says of each trace, the traces in order of first event |
| RunForest.IdentityIsTheLastReported | packages/dashboard/src/transform.ts:111-118 | parent, name and status of a trace are those of its last event that has one |
| RunForest.MeasuresAreTheLastReported | packages/dashboard/src/transform.ts:119-131 | tokens and duration are the last that an end gave, trust level and backend the last that any event gave, the start that of the last dispatch or spawn |
| RunForest.TroubleIsTheLastReported | packages/dashboard/src/transform.ts:132-141 | the rejection is the last event's, a cycle where a rejected spawn gives no reason; the error is the last text a failure gave |
| RunForest.Wire | packages/dashboard/src/transform.ts:172-181 | each trace becomes a child of its known parent, or a root, in order |
| RunForest.SetDepth | packages/dashboard/src/transform.ts:189-192 | the recursion ends even with cyclic links and sets every depth to the distance from the root |
| RunForest.DepthBelowCount | packages/dashboard/src/transform.ts:189-192 | a depth is smaller than the number of traces |
| RunForest.EventsToRuns | packages/dashboard/src/transform.ts:144-195 | the forest that ForestIsExact is about, its roots in whatever order the sort puts them |
| RunForest.GroundedIffNoCycle | packages/dashboard/src/transform.ts:174-181 | a trace has a depth exactly when going up from it meets no cycle |
| RunForest.ForestIsExact | packages/dashboard/src/transform.ts:144-195 | a trace is in the forest exactly once, at its chain's length, when its parents lead to one without a known parent; traces on or under cycles are not in it |
| RunForest.ForestFollowsParents | packages/dashboard/src/transform.ts:172-192 | in terms of the events alone: a trace whose last reported parent is a known trace stands one level below that parent wherever the parent stands, and is no root |
| RunForest.OthersAreRoots | packages/dashboard/src/transform.ts:179-181 | a trace whose last reported parent is missing, empty or unknown stands at depth zero |
| RunForest.ChildrenAreTheParents | packages/dashboard/src/transform.ts:174-178 | the children of a run in the forest are exactly the traces whose last reported parent is that run's trace |

## Left out

- Model calls, brokers, HTTP, the command line, templates, YAML, registries and emitters: I/O and presentation.
- User code and the runtime inside a group walk are deterministic functions of their inputs; a walk in which a mapper or an
  agent answers differently from one time to the next is not compared with another walk.
- GroupWalk.WalkTiers: which of several failures a walk raises is not fixed, as in the source, where it depends on timing;
  every walk of a failing group fails, with a failure of one of its nodes.
- Cancellation of siblings inside a failed tier: a cancelled sibling stores nothing.
- Task and trace identifiers and timestamps other than those above are folded into fields named `rest` or dropped; costs are
  real numbers.
- The in-memory run store, set_result, progress, and deletion or expiry of runs.
- SQL, RocksDB and Redis internals: a table is a sequence of rows, an index a sorted sequence of keys, a Redis stream a list.
- JSON texts of stored records and events: a stored value is the record itself.
- Wall-clock time: a timeout is a step that may be taken at any point.
- shutdown against a warm-up in progress, and kill against a pending result: the source gives no guarantee there.
- Collector: a batch id is not used again; the source draws it at random. Workers answer with the task's own ids, as
  `src/murmur/messages.py` says, and the worker is not part of this model beyond that and the frame it rebuilds.
- await_handle and single-task spawn of the broker backend: the batch of size one. Turning a result message into a result
  is left out.
- RocksStore.RocksDBRunStore.PushEvent: assumes a slash-free run id (which its run has by construction) and fewer than ten to
  the twentieth events, the width of a key.
- RocksStore.RocksDBRunStore.ReadEventsAfter: assumes a slash-free run id and a cursor whose successor has at most twenty
  digits, the width of a key.
- RunStream: the subscriber loop is a state machine on values, and the class holds what one step does to one run; both use
  NextNumber, RowsAfter and Woken. The RocksDB subscriber is the same machine.
- RunStream.SubscribersSeePrefixes: a write lands before its lock is given back. In the RocksDB store a push cancelled while
  its write runs in a worker thread gives the lock back first; a later push can then land before it, and a subscriber whose
  cursor has passed the earlier number is never given that event.
- Pipeline.Gather: the checks before the depth check, of max_concurrency and of the spawn cycle, do nothing but raise. On a
  backend without its own gather the batch is the runs it starts, which are processes of their own.
- SpawnLedger.OverspendIsBounded: for runs without reset, as the bound itself requires.
- Pipeline: a pipeline without stages is refused by the source; the pipeline of a run always has stages.
- Sse.ParseSse: the abort signal and UTF-8 decoding are left out; the input is characters.
- Signing: strings are sequences of Unicode scalar values; lone surrogates, for which escapes are ambiguous, are excluded.
- Signing.VerifiesIffSigned: assumes that no digest computed on receipt equals the signed one for another key or payload;
  that is a property of the keys and of SHA-256.
- WorkerPool: cancellation of the whole batch.
- RunForest.Accumulate: the conversion of payload values and the clock format of the start time.
- RunForest.EventsToRuns: the order of the roots, which is by text comparison of timestamps in the reader's locale.
