# A model of the PiSSM pipeline, with proofs

PiSSM runs one recurrent language model over several small machines. The orchestrator cuts the
layers into ranges, sends each worker one range, and lets the workers form a chain: every worker
keeps the recurrent state of its own layers, a prompt goes through the chain once, and afterwards
one token at a time does. This project models that system in Dafny and proves that the fast,
sharded, stateful form gives what the slow, whole, stateless one would give, and that the protocols
around it keep their promises.

`dafny verify dfyconfig.toml` checks everything. The modules, from the middle outwards:

| modules | what they are about |
|---|---|
| `Recurrence` | the mathematics: layers as arbitrary step functions, the cached stack, the cache-free reference, greedy decoding |
| `Shard`, `Worker`, `Sharding` | `forward` on a slice, `RunShard` from worker to worker, and why one pass over the chain is one pass over the whole model |
| `Pipeline`, `GenerationLock`, `Interference`, `Deployment` | `generate` and `generate_stream`, their interleavings, what may come between their steps, and the step from a plan to a working pipeline |
| `Dispatch`, `NodeRegistry`, `Decimal` | cutting the layers, chaining the nodes, and where the nodes come from |
| `ResultStore`, `ResultStoreProtocol` | the slot map: each call on its own, then all calls interleaved at their lock sections |
| `WorkerLoad`, `LoadProtocol`, `LoadRuns` | a worker's concurrent loads, the orchestrator's `load()` running against all of them, and three runs of it |
| `ShardLoading`, `ShardWeights`, `ShardRebuild` | which checkpoint tensors a shard takes, under which names, and that the shards make up the model |
| `Assembly` | all of it together: from a checkpoint, through a plan and a `load()`, to the tokens |
| `Lifecycle` | the `model_states` dict under handlers and background loads |
| `Ndjson`, `TensorWire` | the streamed reply, written and read back; tensors as bytes and back |

Code that changes state is modelled as classes and methods, each proved against a function of the
old state; what the system promises is then proved about those functions. Code that runs
concurrently is a state machine whose steps are the sections under a lock, and the promises are
proved of every reachable state of every run.

## Premises

The code relies on these, and the theorems name them in their `requires` clauses or build them into
the steps:

- A layer is any function from (state, row) to (state, row). Its call on several rows is the left
  fold of that function, so a prefill is the same as feeding its rows one by one. Embedding, norm,
  head and argmax act on one row at a time. Equality is exact.
- The nodes of a plan have pairwise distinct `ip:port` addresses. That their node ids are distinct
  is proved from the registry (`Dispatch.PlanIdsApart`).
- A worker runs one `RunShard` at a time for a model. A pass that its step has given up may go on for
  as long as it likes: `GenerationLock` keeps what is left of it, and runs its hops at any time. A
  worker may also unload the model and load it again at any time. The theorems about interleaved
  generations ask one of two things that can be seen from outside: no step gives up on a pass that is
  still under way and no worker is reloaded under a running generation
  (`ContainedRunsDecodeGreedily`), or, more weakly, no generation starts while such a pass is left
  (`SettledDecodesGreedily`). `EveryCallerDecodesGreedily` asks only that no such event changes what a
  running generation relies on. Those about a single call (`Pipeline`, `Deployment`, `Assembly`) are
  about calls with none of it in between.
- A hop fault `ReplyLost` means that the rest of the pass still delivers before the orchestrator's
  wait is over. When it comes too late, the fault is `RunsLate`, and the step times out.
- `run_forward` is not interleaved with a generation. It takes no lock; `RunForwardHijacks` says
  exactly what happens if it is.
- Request ids are fresh. (`ResultStoreProtocol` does not assume it: slots may be created again under
  running waits, and `ReturnsOwnResultExactly` says what a wait then gets.)
- One `load()` runs per model at a time, and when it starts no worker is loading the model or about
  to report on it, and no report on it is still under way: one may arrive after its worker has given
  the call up, at any later time or never. `RetryCoveredExactly` says when that is so after a
  `load()` that failed. Slots and waiting threads that an earlier `load()` left behind are allowed.
  That no worker holds the model already is *not* assumed: `LoadShard` reports success for a
  resident model without comparing ranges, and `LoadSafety` proves exactly what `load()` then
  guarantees.
- Node ids hold no colon (they are host names), so two models' report keys differ.
- Reporting a finished load fails only with `grpc.RpcError`.
- Handlers of the HTTP application run one at a time, in sections; background loads may finish
  between any two sections.
- The registry's methods are atomic, each with one clock reading.
- JSON records are one-line objects that parse back to themselves.

## Where the code falls short of its documentation

Each of these comes with the exact condition under which the code does what one would expect, and
with an input or a run on which it does not.

- `LoadShard` answers success for a resident model whatever its range: `LoadSafety`,
  `ReturnsOverWrongRange`.
- A step that ends in an error while its pass is under way frees the generation lock, and the pass
  may then reset and feed a worker under the next generation, whose tokens are wrong without any step
  failing: `StrayedGeneration`, `StrayHarmsExactly`. They are right whenever nothing is left of
  earlier passes when a generation starts: `SettledDecodesGreedily`.
- A model that is redistributed, or otherwise reloaded, under a running generation starts it again on
  a blank cache, since a worker without a cache makes a new one even when asked not to reset. No step
  fails, and the tokens continue a shorter sequence: `ReloadHarmsExactly`, `ReloadHijacks`,
  `ReloadedGeneration`.
- A delivery that `deliver` accepted is lost whenever the wait gives up, be it before the delivery or
  after its event was set: `DeliveryReachesExactly`, `LostThoughSet`.
- A wait returns the placeholder, or another slot's result, when its slot was created anew or taken
  by another wait meanwhile: `ReturnsOwnResultExactly`, `RecreationReturnsPlaceholder`. A `load()`
  that fails can leave such a wait behind: `FailedWhileWaiting`.
- `get_node` promises a snapshot of a node's record, and hands out the record itself; `list_nodes`
  does the same without the promise. Such a record turns unavailable under its holder's eyes exactly
  when a reap finds it stale before the node's next heartbeat: `HeldChangesExactlyWhen`,
  `OneReapStrikes`.
- A streamed error with an empty message reaches the dashboard as a result:
  `ErrorsSurfaceExactly`.
- Evicting frees ready models only, so a load started beside another one leaves two models loading:
  `StartKeepsOneExactly`, `AtMostOneExactly`, `TwoLoading`.
- A checkpoint that spells one layer number in two ways sends two tensors to one parameter:
  `DestsApartExactly`, `SpellingsCollide`.

## Model

| member | source | states |
|---|---|---|
| `Recurrence.CachedDecode` | inference/shard.py:107-136 | running new rows through the cached stack gives the rows, and the cache, that recomputing the whole longer sequence from nothing gives |
| `Recurrence.StackRunAppend` | inference/shard.py:117-118 | feeding rows in two calls leaves the cache and yields the rows of feeding them in one, for every layer range |
| `Recurrence.StackRunSplit` | inference/shard.py:131-132 | a layer range cut anywhere is its lower part followed by its upper part, state included |
| `Recurrence.StackRunReadsOwnEntries` | inference/shard.py:72-79 | only the cache entries of a range's own global layer numbers influence it |
| `Shard.Forward` | inference/shard.py:107-136 | the loop over layers reads and replaces exactly the cache entries that `ForwardSpec` says, in order, also when a layer raises part way |
| `Shard.ForwardStateless` | inference/shard.py:107-136 | without cache_params every layer starts from its blank state |
| `Shard.WholeShardIsReference` | inference/shard.py:129-136 | the unsharded module run without a cache computes the reference logits that every other result is compared with |
| `Shard.SlicedBlocksAreStack` | inference/shard.py:154-189 | the blocks that from_model cuts out, with their global layer numbers, run as that range of the full stack |
| `Shard.ForwardKeepsForeignEntries` | inference/shard.py:72-79 | no pass, complete or broken off, touches a cache entry outside the shard's own layers |
| `Shard.BrokenForward` | inference/shard.py:131-132 | a pass that raises at a layer returns nothing, has updated the layers below as a whole pass does, has left that layer's entry as it was at the exception, and has not touched the layers above |
| `Shard.NewCache` | inference/shard.py:138-151 | a fresh cache has one blank entry for every layer of the full model |
| `Sharding.HopKeepsForeignEntries` | inference/service.py:287-293 | a worker's entries outside its range are blank or as they were, whatever goes wrong at its hop |
| `Worker.InferenceServiceServicer.Compute` | inference/service.py:276-293 | a worker resets its cache exactly when asked to or when it has none, then runs its shard on it |
| `Worker.InferenceServiceServicer.RunShard` | inference/service.py:265-385 | one request, forwarded from worker to worker, terminates, leaves every worker's cache as `ChainSpec` says, and makes exactly one deliver call, for the original request id, with the readings the request brought followed by the latency and the memory of every hop, each in its place, when rows come out of the whole chain, and none otherwise; nothing is delivered when the chain ends at a worker that does not answer or no longer holds the model; an unknown model is refused without effect; the reply says success exactly when this worker computes and its next call is answered |
| `Worker.InferenceServiceServicer.HandOn` | inference/service.py:316-345 | the last worker delivers to the callback, once; every other one forwards rows, id, readings and the reset flag and delivers nothing itself |
| `Sharding.ForwardOfSlice` | inference/shard.py:129-136 | a shard given the rows below its range yields the rows above it, ids at the first and logits at the last |
| `Sharding.ChainComputes` | inference/service.py:311-345 | a clean pass over any chain of adjacent shards computes the whole stack from the first range on, and keeps every cache in step |
| `Sharding.PassComputesLogits` | orchestrator/pipeline.py:509-551 | a prefill or decode pass delivers the whole, cache-free model's logits for the new rows |
| `Sharding.DeliversIffClean` | inference/service.py:378-385 | a result is delivered exactly when no hop fails before handing on |
| `Sharding.FaultLeavesCache` | inference/service.py:276-293 | what each fault leaves in the cache: nothing is touched when the input does not decode; a failed call or a lost or late reply comes after a whole forward pass; a layer that raises comes after those below it, those above being as they were or, after a reset, blank |
| `Sharding.PassBreaks` | inference/service.py:311-385 | where a pass breaks off, the workers before are left as by a pass over them alone, the worker itself as its own hop leaves it, and those after it are not touched |
| `Sharding.ChainKeepsLength` | inference/service.py:311-345 | what is delivered has one row for every row sent |
| `Sharding.ResetForgets` | inference/service.py:288-289 | a pass that resets depends on nothing that was in the caches |
| `Sharding.GlueIsFullCache` | inference/shard.py:138-151 | the workers' entries for their own ranges, side by side, are the full model's cache |
| `Pipeline.PipelineRunner.RunShardStep` | orchestrator/pipeline.py:553-595 | with nothing running beside it, a step creates its slot, fires the pass and waits; it returns the delivered result, TimeoutError or RpcError as the hops decide, leaves no slot unless the call itself failed, and appends to the log of deliver calls what `StepDelivers` says |
| `Pipeline.DeliversOnceExactly` | inference/service.py:316-345 | that is one call, for the step's own request id, with one row per row sent and, for every k, the latency and the memory that worker k measured, when the call takes effect and no hop fails; and none otherwise |
| `Pipeline.StepSucceedsIffClean` | orchestrator/pipeline.py:577-595 | a step succeeds exactly when its call is answered and no hop fails; its result then holds one row per row sent and, for every k, the latency and the memory that worker k measured |
| `Pipeline.StepFailsWith` | orchestrator/pipeline.py:588-595 | a step that fails ends in RpcError exactly when its call does, and in TimeoutError when the call was answered and a hop failed |
| `Pipeline.StepYieldsNextToken` | orchestrator/pipeline.py:543-551 | on workers in step, argmax of a step's last row is the next greedy token of the whole model |
| `Pipeline.GluedBetweenSteps` | orchestrator/pipeline.py:543-551 | between two steps the glued caches are the full model's after the prompt and every token fed so far |
| `Pipeline.FirstStepForgets` | orchestrator/pipeline.py:546-546 | the first step of a generation depends on its prompt alone, whatever earlier generations left behind |
| `Pipeline.DecodeStep` | orchestrator/pipeline.py:546-551 | one turn of the loop: the next greedy token with the whole model's logits and the readings; or RpcError, TimeoutError, or IndexError on an empty prompt, each exactly when its cause is there |
| `Pipeline.GenerationStream.Next` | orchestrator/pipeline.py:509-551 | every item of the stream extends the greedy continuation by one token, with the whole model's logits for it; an item that fails does so with the error of its own step; the lock is held from the first item to the end, the failure or the close |
| `Pipeline.GenerationStream.Close` | orchestrator/pipeline.py:543-543 | dropping a started generator frees the lock, dropping one that never started does not touch it |
| `Pipeline.Generate` | orchestrator/pipeline.py:474-507 | for every prompt, token count, deployment and prior cache contents: the ids are those of rerunning the whole, cache-free model on the growing sequence, step k's result holds that model's logits and step k's readings; it fails exactly when the prompt is empty or a step is not clean, with the error of the first step that fails |
| `Deployment.PlanDeploys` | orchestrator/dispatch.py:165-192 | workers that hold what a plan assigned to them form a chain on which the theorems about generation apply |
| `Deployment.LoadDeploys` | orchestrator/pipeline.py:352-446 | a load() that returns, of a model resident nowhere before, leaves the workers holding what the plan assigned to them, provided each handle is built for its placement |
| `Assembly.SliceIsShard` | inference/shard.py:154-189 | a module made of a slice of the parameters is the module that from_model cuts out of the whole model |
| `Assembly.LoadedIsBuilt` | inference/shard.py:286-361 | what a worker loads from a complete checkpoint for a placement is built for that placement |
| `Assembly.LoadShardModule` | inference/loader.py:198-275 | loading from a complete checkpoint gives the shard of the checkpoint's own model |
| `Assembly.CheckpointToTokens` | orchestrator/pipeline.py:352-551 | plan, load() and generate: the tokens are those of rerunning the whole model, as the checkpoint holds it, on the growing sequence |
| `Deployment.GenerateOnPlan` | orchestrator/pipeline.py:474-551 | the same as `Generate`, from any plan that dispatch can make, for every layer and node count |
| `GenerationLock.EveryCallerDecodesGreedily` | orchestrator/pipeline.py:543-551 | in every interleaving of any number of generations, some failing or closed part way, with hops of abandoned passes and reloads in between that leave a running generation's caches alone, each caller has received a greedy continuation of its own prompt, tokens and logits |
| `GenerationLock.SettledDecodesGreedily` | orchestrator/pipeline.py:543-551 | the same of every run in which nothing is left of earlier passes whenever a generation takes its first step, and no worker is reloaded under a running one; no condition on values |
| `GenerationLock.ContainedRunsDecodeGreedily` | orchestrator/pipeline.py:577-595 | the same of every run in which no step gives up on a pass that is still under way and no worker is reloaded under a running generation |
| `GenerationLock.SameAsAlone` | orchestrator/pipeline.py:520-524 | a finished caller received the tokens and logits that it would have received alone on fresh workers |
| `GenerationLock.EveryCallerHasItsHistory` | orchestrator/pipeline.py:520-551 | in every run, each caller stands for the prompt and count it arrived with, has a token for every turn of its own but a failed one, has failed exactly when one of its turns did, and is closed exactly when its consumer closed it |
| `GenerationLock.BreakLeaves` | inference/service.py:324-345 | a pass that breaks off leaves its rest behind, with the rows that were handed on, when the worker where it breaks off runs late, and otherwise nothing |
| `GenerationLock.RunOutIsPass` | inference/service.py:311-345 | an abandoned pass that nothing interferes with does to the caches what it would have done in time |
| `GenerationLock.AbandonedPassesEnd` | inference/service.py:324-345 | each hop of an abandoned pass is one less to come, so they end, whatever goes wrong; only a step adds to them, one pass at most |
| `Interference.StrayHarmsExactly` | inference/service.py:287-293 | a hop of an abandoned pass keeps the running generation in step exactly when that generation has not taken its first step, or the hop leaves its worker's cache as it was: no other change of a cache is harmless |
| `Interference.StrayAhead` | inference/service.py:287-293 | a stray hop on a worker that a running pass has not reached is one before that pass |
| `Interference.StrayBehind` | inference/service.py:287-293 | a stray hop on a worker that a running pass has left behind is one after that pass |
| `Interference.StrayedGeneration` | orchestrator/pipeline.py:577-595 | a run from the start of a concrete model on which a generation yields 1, 6 because a pass that an earlier one gave up runs between its steps, and no step fails |
| `Interference.LeftAlone` | orchestrator/pipeline.py:509-551 | the same generation left alone yields 1, 2 |
| `Interference.ReloadHarmsExactly` | inference/service.py:288-289 | a worker that is unloaded and loaded again leaves the running generation in step exactly when it has not taken its first step |
| `Interference.ReloadHijacks` | orchestrator/http_api.py:533-550 | after all workers were reloaded, the next clean step takes the newest token alone for the whole prompt, and succeeds |
| `Interference.ReloadedGeneration` | orchestrator/http_api.py:533-550 | a run from the start on which that generation yields 1, 1 because its worker is reloaded between its steps, and no step fails |
| `Interference.RunForwardHijacks` | orchestrator/pipeline.py:448-472 | a run_forward between two steps makes the generation continue run_forward's input instead of its own ids |
| `Interference.HijackedGeneration` | orchestrator/pipeline.py:448-472 | a run of a concrete model that yields 1, 2 alone and 1, 6 with a run_forward in between |
| `Dispatch.SplitLayers` | orchestrator/dispatch.py:93-129 | the ranges are non-empty, adjacent, ascending and cover all layers; all of the base size but the last, which takes the remainder; and each error case |
| `Dispatch.PlanDispatch` | orchestrator/dispatch.py:132-192 | by the heartbeats and reaps so far: there is one assignment for each node whose last heartbeat no reap has found too old since, and none for any other, at the address of its last heartbeat, in the order of the first heartbeats, each with one range and the next one's address; or NoAvailableNodes when there is no such node, or MoreNodesThanLayers when there are more of them than layers |
| `Dispatch.LayerHasOneOwner` | orchestrator/dispatch.py:122-129 | every layer belongs to exactly one range |
| `Dispatch.WalkVisitsInOrder` | orchestrator/dispatch.py:165-185 | following next addresses from the first node visits every assignment once, in order, and stops |
| `Dispatch.RecomputedFlagsAgree` | inference/service.py:148-149 | the first and last flags a worker recomputes from its range are the plan's own |
| `Dispatch.PlanIdsApart` | orchestrator/node_registry.py:139-156 | no plan made from the registry names a node id twice |
| `Dispatch.AddressInjective` | orchestrator/dispatch.py:171-172 | two nodes share an address only if they share ip and port |
| `NodeRegistry.NodeRegistry.UpdateNode` | orchestrator/node_registry.py:100-156 | the registry shows the replay of its event log with this heartbeat added |
| `NodeRegistry.NodeRegistry.ListNodes` | orchestrator/node_registry.py:170-183 | the registry's own objects whose status matches the filter, all of them, each once, in the order in which their ids first came |
| `NodeRegistry.NodeRegistry.GetNode` | orchestrator/node_registry.py:158-168 | the live record of a node that ever sent a heartbeat |
| `NodeRegistry.ListThenRun` | orchestrator/node_registry.py:170-206 | after any later heartbeats and reaps, each listed record differs from what it showed exactly when a reap found it stale before its node's next heartbeat |
| `NodeRegistry.GetThenRun` | orchestrator/node_registry.py:158-206 | the same of a record from get_node: it is no snapshot |
| `NodeRegistry.HeldChangesExactlyWhen` | orchestrator/node_registry.py:139-206 | exactly when, and in which one way, a record that was handed out changes |
| `NodeRegistry.OneReapStrikes` | orchestrator/node_registry.py:199-205 | one reap suffices for it |
| `NodeRegistry.NodeRegistry.ReapStaleNodes` | orchestrator/node_registry.py:185-206 | marks and reports exactly the nodes that the log says this reap finds stale |
| `NodeRegistry.ListedFromLog` | orchestrator/node_registry.py:139-156 | a node is listed exactly when it ever sent a heartbeat |
| `NodeRegistry.StatusFromLog` | orchestrator/node_registry.py:185-206 | a node shows its last heartbeat, and is available exactly when no reap since then saw a gap above the timeout |
| `NodeRegistry.AvailableIsAlive` | orchestrator/node_registry.py:182-206 | a node is shown available exactly when no reap since its last heartbeat saw too large a gap |
| `NodeRegistry.LatestReapDecides` | orchestrator/node_registry.py:196-205 | on a clock that never runs back, the latest reap alone decides |
| `NodeRegistry.FirstSeenFromLog` | orchestrator/node_registry.py:141-154 | first_seen is the first heartbeat's time |
| `NodeRegistry.OrderFromLog` | orchestrator/node_registry.py:179-180 | listing order is first-heartbeat order |
| `NodeRegistry.ReportedExactlyWhen` | orchestrator/node_registry.py:196-206 | a reap reports a node exactly when it is the first since the node's last heartbeat to see too large a gap |
| `NodeRegistry.ReportedInOrder` | orchestrator/node_registry.py:196-206 | a reap reports each node once, in listing order |
| `NodeRegistry.OneReportPerOutage` | orchestrator/node_registry.py:196-206 | between two reports of a node lies one of its heartbeats |
| `NodeRegistry.EachOutageReported` | orchestrator/node_registry.py:196-206 | of the reaps since the last heartbeat of a node shown unavailable, exactly one reported it |
| `ResultStore.ResultStore.CreateSlot` | orchestrator/pipeline.py:129-146 | the id has an empty slot afterwards, and no other slot changes |
| `ResultStore.ResultStore.Deliver` | orchestrator/pipeline.py:148-171 | True exactly when the id has a slot, which then holds the result and has fired |
| `ResultStore.ResultStore.Wait` | orchestrator/pipeline.py:173-207 | with nothing running beside it: KeyError, TimeoutError or the stored result; the slot is gone in every case |
| `ResultStoreProtocol.ReturnsOwnResultExactly` | orchestrator/pipeline.py:173-207 | in every interleaving, a wait pops its own slot exactly when nobody created it anew or ended another wait for it meanwhile; if it then returns, it returns a result accepted into that slot after its creation, never the placeholder; otherwise its result was not its own |
| `ResultStoreProtocol.AcceptedExactlyWhenOpen` | orchestrator/pipeline.py:165-171 | deliver answers True exactly when the slot was created and no wait for it has ended since |
| `ResultStoreProtocol.EndedWaitLeavesNoSlot` | orchestrator/pipeline.py:202-206 | a wait that has ended, timed out or not, leaves no slot |
| `ResultStoreProtocol.NoLostWakeup` | orchestrator/pipeline.py:165-171 | as long as its slot is its own, a blocked wait's slot holds a result exactly when its event is set or a running deliver is about to set it |
| `ResultStoreProtocol.DeliveryReachesExactly` | orchestrator/pipeline.py:199-207 | the last delivery accepted into an untouched slot is returned exactly when the wait left event.wait woken, which takes a set event, and is lost exactly when it gave up |
| `ResultStoreProtocol.LostThoughSet` | orchestrator/pipeline.py:199-207 | a run on which a delivery is lost that was accepted, and its event set, before the wait gave up |
| `ResultStoreProtocol.RecreationReturnsPlaceholder` | orchestrator/pipeline.py:143-145 | a run on which a slot created anew makes the wait return the placeholder |
| `ResultStoreProtocol.UninterruptedDeliver` | orchestrator/pipeline.py:165-171 | the two halves of deliver, uninterrupted, have the effect proved of the class |
| `WorkerLoad.OneLoadPerName` | inference/service.py:97-164 | in every run, a name is loading exactly when one background load has yet to record its outcome for it, never two, and never while it is resident |
| `WorkerLoad.ReportsConserved` | inference/service.py:97-191 | at every point, a request has been accepted as often as its report was attempted or is still to come; a rejected one has none |
| `WorkerLoad.QuietMeansReported` | inference/service.py:166-191 | once no thread is left, every accepted request has been reported on exactly once |
| `WorkerLoad.ResidentExactly` | inference/service.py:147-164 | at every point of every run, a name is resident with a handle exactly when a load of it brought that handle and since then none brought another and nobody unloaded it |
| `WorkerLoad.ResidentSinceUnload` | inference/service.py:424-440 | a name is resident exactly when a load of it has succeeded since it was last unloaded |
| `Worker.InferenceServiceServicer.LoadShard` | inference/service.py:97-124 | resident and new models are accepted and get one thread, which for a resident one only has success to report; a loading one is rejected, with its message and no thread; only a new one becomes loading |
| `Worker.InferenceServiceServicer.FinishLoad` | inference/service.py:147-191 | the handle is stored or nothing is, the name stops loading, and the thread's report is success with the layer count or the error's own text; all other threads stay |
| `Worker.InferenceServiceServicer.ReportShardReady` | inference/service.py:223-243 | a thread's one report, attempted once |
| `Worker.InferenceServiceServicer.UnloadShard` | inference/service.py:424-440 | the handle is taken out and returned; every other model, what is loading, and the threads stay as they are |
| `LoadProtocol.LoadSafety` | orchestrator/pipeline.py:372-446 | a load() that returns has put every worker's range and next address where the plan wants them if and only if no worker held the model in another way when it began |
| `LoadProtocol.FailedExactly` | orchestrator/pipeline.py:410-443 | in every run, load() has failed exactly when a LoadShard call failed or lost its reply or was rejected, or a thread found no slot, or a wait that was collected had timed out or reported no success |
| `LoadProtocol.ReturnedExactly` | orchestrator/pipeline.py:435-446 | it has returned exactly when nothing of that kind happened and the success of every assignment was collected |
| `LoadProtocol.EndedForGood` | orchestrator/pipeline.py:405-446 | once it has failed or returned it creates, dispatches, starts and collects nothing more |
| `LoadProtocol.DispatchAsks` | orchestrator/pipeline.py:379-408 | each dispatch asks the next worker in plan order, and no other, for its own range, layer total and next address |
| `LoadRuns.ReturnsOverWrongRange` | inference/service.py:97-111 | a run on which load() returns over a worker that holds any other placement than the planned one |
| `LoadProtocol.RetryCoveredExactly` | orchestrator/pipeline.py:435-446 | after any run, failed or not, a new load() is covered by these theorems exactly when no worker has a load of the model in hand or a report on it to make, and no report on it is still under way |
| `LoadRuns.FailedWhileWaiting` | orchestrator/pipeline.py:435-446 | a run on which load() fails and leaves a thread waiting on a slot that a new load() creates again |
| `LoadRuns.FreshLoadReturns` | orchestrator/pipeline.py:352-446 | a run from a worker that holds nothing on which load() returns with the planned placement in place |
| `Deployment.LoadedFreshReached` | orchestrator/pipeline.py:352-446 | so there are runs of the kind that `LoadDeploys` and `CheckpointToTokens` ask for |
| `LoadProtocol.ReturnedMeansHeld` | orchestrator/pipeline.py:412-444 | when load() returns every assigned worker holds the model: what it held before or else exactly its planned placement |
| `LoadProtocol.NoReportBeforeItsSlot` | orchestrator/pipeline.py:372-373 | no worker has a load of the model in hand, or a report to make, before every slot exists |
| `LoadProtocol.NeverRejected` | orchestrator/pipeline.py:402-408 | load() meets no worker that rejects it |
| `LoadProtocol.NeverMissesASlot` | orchestrator/pipeline.py:372-420 | if nobody waited on its slots when it began, each is there for its own thread, which alone waits on it |
| `LoadProtocol.KeyInjective` | orchestrator/pipeline.py:336-350 | report keys of different models or nodes differ |
| `LoadProtocol.ColonsCollide` | orchestrator/pipeline.py:279-281 | why node ids must hold no colon |
| `ShardLoading.TensorLocationsForRange` | inference/shard.py:192-283 | the embedding in front, every layer tensor of the range once, from its own file, renumbered and in the map's order, then the norm and the head, tied or not; or the first name that is missing, in each case exactly when it is |
| `ShardLoading.GatherTensors` | inference/shard.py:349-358 | every needed file is fetched once, every location's tensor is gathered, and it succeeds exactly when all of them are there; an error names a file or a tensor that is not there |
| `ShardLoading.FromTensorLocations` | inference/shard.py:349-361 | strict loading succeeds exactly when the tensors are there and their names are the shard's own parameters, with the errors told apart |
| `ShardWeights.EachLayerTensorOnce` | inference/shard.py:241-258 | for every weight map and plan, a layer tensor below the layer count is read exactly once by all shards together, and any other never |
| `ShardWeights.SourceRecovered` | inference/shard.py:248-258 | adding layer_start back to a destination's number gives the tensor's own name |
| `ShardWeights.DestsApartExactly` | inference/shard.py:241-258 | destination names within a shard are distinct exactly when no two names in range read as the same layer's parameter |
| `ShardWeights.CanonicalNamesApart` | inference/shard.py:20-20 | canonical numerals ensure that |
| `ShardWeights.SpellingsCollide` | inference/shard.py:20-20 | the numerals 7 and 07 do not |
| `ShardRebuild.LoadShardWeights` | inference/shard.py:192-361 | from a complete checkpoint, however cut into files and with a tied head or not, loading a shard succeeds and gives the slice that from_model would cut; from any other, it succeeds exactly when no name is missing, every tensor is stored, and the names are the shard's parameters |
| `ShardRebuild.ShardsRestoreModel` | inference/shard.py:183-189 | the shards of a plan put together again are the whole model |
| `ShardRebuild.LoadAllShards` | inference/shard.py:286-361 | loading every shard of a split rebuilds the checkpoint's model |
| `Lifecycle.SessionsConserved` | orchestrator/http_api.py:252-310 | between handlers, every session that ever became ready is stored or was handed to unload exactly once, never both |
| `Lifecycle.LoadingMeansInFlight` | orchestrator/http_api.py:281-310 | an entry says loading exactly while one background load for it runs |
| `Lifecycle.AtMostOneExactly` | orchestrator/http_api.py:263-285 | over every run, two models are never loading or ready at once exactly if every load is started when none is |
| `Lifecycle.StartKeepsOneExactly` | orchestrator/http_api.py:252-310 | an uninterrupted _ensure_loading_started keeps at most one model active exactly when that model was active, or none was loading, or the plan fails |
| `Lifecycle.StartedExactly` | orchestrator/http_api.py:252-310 | what one uninterrupted call does to dict, loads and unload calls, in both cases |
| `Lifecycle.FirstSectionIsStep` | orchestrator/http_api.py:257-270 | the first section, begun by a call or by a redistribution for its own model, leaves a loading or ready model alone and otherwise takes out exactly what is ready |
| `Lifecycle.TwoLoading` | orchestrator/http_api.py:264-268 | a run that leaves two models loading |
| `Lifecycle.AtMostOneActive` | orchestrator/http_api.py:263-285 | if no load starts while another model loads, at most one model is loading or ready |
| `Lifecycle.TopologyExactly` | orchestrator/http_api.py:596-606 | /topology shows every active model there is exactly when there is at most one |
| `Lifecycle.TopologyShowsTheOne` | orchestrator/http_api.py:596-606 | if no load starts while another model loads, what /topology shows is the active model, or that there is none |
| `Lifecycle.Orchestrator.EnsureLoadingStarted` | orchestrator/http_api.py:252-310 | a model that is loading or ready is left alone, and so is everything else; any other is started: exactly the sessions of the ready entries are unloaded, those entries go, every other entry stays, in order, and the model's entry is Loading with the plan and its load, or Error with the message |
| `Lifecycle.Orchestrator.EnsureFirstSection` | orchestrator/http_api.py:257-270 | the first locked section changes nothing for a loading or ready model; otherwise it takes out exactly the ready entries, each session once |
| `Lifecycle.Orchestrator.EnsureSecondSection` | orchestrator/http_api.py:275-310 | the second one records the dispatch error's message, or the plan and the load in flight, and no other entry changes |
| `Lifecycle.Orchestrator.UnloadHeld` | orchestrator/http_api.py:272-273 | every session taken out is handed to unload once |
| `Lifecycle.Orchestrator.FinishLoad` | orchestrator/http_api.py:287-308 | a background load records its own session or its error's message, with its plan, in its own entry, and no other entry or load changes |
| `Lifecycle.Orchestrator.RedistributeSection` | orchestrator/http_api.py:533-550 | 400 for a model never loaded and 409 for one that is loading, both without effect; otherwise its entry and session are taken out and no other |
| `Lifecycle.Orchestrator.RedistributeModel` | orchestrator/http_api.py:533-558 | a whole redistribution unloads the session of every ready model once, its own among them, and leaves the model loading anew or in error |
| `Lifecycle.Orchestrator.GetTopology` | orchestrator/http_api.py:596-606 | of the loading or ready models with a plan, the one whose entry came first; nothing only if there is none |
| `Ndjson.RunInferenceStream` | dashboard/lib/api.ts:141-178 | tokens handed on and outcome depend on the text alone, however it is cut into chunks |
| `Ndjson.LinesOfParts` | dashboard/lib/api.ts:149-155 | keeping the unfinished line in the buffer loses and invents no line |
| `Ndjson.WriteStream` | orchestrator/http_api.py:390-435 | one line per token and one for the end, unless an exception is caught by nothing |
| `Ndjson.StreamComesBack` | dashboard/lib/api.ts:146-178 | for every token list, ending and cutting, the reader hands on exactly the tokens in order and returns the final record or throws the emitted error; a stream that an uncaught exception ended has no final result |
| `Ndjson.WriteThenRead` | dashboard/lib/api.ts:141-178 | the reader, run on any cutting of what the writer sends, hands on exactly the tokens sent and returns the result or throws the error that ended the stream |
| `Ndjson.ErrorsSurfaceExactly` | dashboard/lib/api.ts:159-160 | an emitted error surfaces as one exactly when its message is not empty |
| `Ndjson.BadLineThrows` | dashboard/lib/api.ts:158-160 | a line that is no JSON record, or an emitted error, ends the reading there: the tokens before were handed on, nothing after it counts, and the outcome is SyntaxError or that error |
| `Ndjson.BlankLineSkipped` | dashboard/lib/api.ts:153-156 | a line of white space makes no difference |
| `Ndjson.TrimExactly` | dashboard/lib/api.ts:153-153 | trimming takes all white space off both ends and nothing else |
| `Ndjson.CutShort` | dashboard/lib/api.ts:175-177 | a stream cut off anywhere yields a prefix of the tokens and says that no final result came |
| `TensorWire.RoundTrip` | inference/tensor_utils.py:34-78 | deserialize after serialize restores shape, dtype and the element at every index, for every shape, rank and stride pattern |
| `TensorWire.WireRoundTrip` | inference/tensor_utils.py:62-78 | every accepted message is the one its tensor serializes to |
| `TensorWire.AcceptedExactly` | inference/tensor_utils.py:62-75 | a buffer is accepted exactly when some tensor serializes to it: the dtype is one of the four, no dimension is negative, and the length is the product of the shape times the item size |
| `TensorWire.RefusedExactly` | inference/tensor_utils.py:62-78 | a message is refused for its dtype if that is none of the four, else for its length if that does not match, else for a negative dimension |
| `TensorWire.GatherAt` | inference/tensor_utils.py:34-35 | row-major order puts the element of every index at that index's row-major position |

## Left out

- PyTorch, transformers and safetensors numerics: a module computes an arbitrary function of its parameters, and equality is exact.
- HuggingFace downloads, metadata reading, `AutoConfig` and `AutoTokenizer`: weight map, files and config enter as inputs.
- gRPC channels, deadlines, HTTP routing, CORS, logging and progress bars. A call either fails before it takes effect, takes effect and loses its reply, takes effect only after its caller has given it up, or is answered.
- The branches of `RunShard` outside pipeline mode, and `Ping`: one-branch claims.
- Manifest validation, `ModelRegistry`, status mapping, and the dashboard outside `runInferenceStream`: they would add easy members only.
- `_get_ready_session`, which polls the shared dict, and `/infer` around it.
- `Worker.InferenceServiceServicer.RunShard`: a handle's cache slot is an object of its own, which a reset fills anew; that the old cache object becomes garbage is not modelled.
- `Worker.InferenceServiceServicer.FinishLoad`: memory readings of loads are not modelled.
- `Interference.ReloadHarmsExactly`: a reload brings the same range back; a redistribution that cuts the layers anew under a running generation changes the model of every worker, and is not followed further.
- `Pipeline.PipelineRunner.RunShardStep`: readings are reals, not the 32-bit floats of the messages. The slot left behind when the call itself fails is modelled and is never removed, as in the code.
- `ResultStore.ResultStore.Wait`: a slot's event is part of the slot here; `ResultStoreProtocol` gives events their own identity.
- `LoadProtocol.LoadSafety`: `load()` is a state machine over its steps, not a method. A plan without assignments, on which the thread pool refuses its size, is excluded. A wait() that finds no slot fails `load()` at once here; in the code its KeyError is raised when its future is collected.
- `ShardLoading.TensorLocationsForRange`: tensor names with line breaks or with digits outside ASCII, which the regular expression treats specially.
- `TensorWire.AcceptedExactly`: the product of the shape is unbounded, so `np.prod` wrapping around at 64 bits is not modelled. Elements are their stored bytes; both ends have the same byte order.
- `Ndjson.RunInferenceStream`: chunks are decoded text; UTF-8 sequences cut between chunks are the decoder's concern. The HTTP status check before the stream is not modelled.
- A session whose tokenizer fails to load after `runner.load()` succeeded never becomes ready and is never unloaded; `Lifecycle` counts ready sessions only.
