/**
 From a dispatch plan to a deployed pipeline: workers that each hold what the plan assigned to
 them form the chain that module Pipeline decodes on.
 */
module Deployment {
  import opened Wrappers
  import opened Recurrence
  import opened Worker
  import opened Sharding
  import opened Dispatch
  import opened Pipeline
  import LoadProtocol
  import LoadRuns

  /** The worker at one assignment's address holds its slice of the model and its next address. */
  ghost predicate HoldsAssignment<S, R>(
    net: map<string, InferenceServiceServicer<S, R>>, name: string, m: LanguageModel<S, R>, a: ShardAssignment,
    h: ModelHandle<S, R>)
    reads net.Values
  {
    var addr := AddressOf(a);
    && addr in net && name in net[addr].models && net[addr].models[name] == h
    && a.layerStart <= a.layerEnd <= |m.layers| && h.model == ShardOf(m, (a.layerStart, a.layerEnd))
    && h.nextWorkerAddress == a.nextWorkerAddress
  }

  ghost predicate AllHold<S, R>(net: map<string, InferenceServiceServicer<S, R>>, name: string, m: LanguageModel<S, R>,
                                shards: seq<ShardAssignment>, hs: seq<ModelHandle<S, R>>)
    reads net.Values
  {
    |shards| == |hs| && forall i :: 0 <= i < |shards| ==> HoldsAssignment(net, name, m, shards[i], hs[i])
  }

  lemma {:induction false} PlanIsLinked<S, R>(
    net: map<string, InferenceServiceServicer<S, R>>, plan: DispatchPlan, manifest: Manifest,
    nodes: seq<NodeRegistry.NodeFacts>, m: LanguageModel<S, R>, hs: seq<ModelHandle<S, R>>, k: nat)
    requires IsPlan(plan, manifest, nodes) && AllHold(net, plan.modelName, m, plan.assignments, hs) && k < |hs|
    ensures LinkedFrom(net, plan.modelName, AddressOf(plan.assignments[k]), hs[k..], true)
    decreases |hs| - k
  {
    var a := plan.assignments[k];
    assert HoldsAssignment(net, plan.modelName, m, a, hs[k]);
    assert |AddressOf(a)| > 0;
    Link(plan, manifest, nodes, k);
    assert hs[k..][1..] == hs[k + 1..];
    if k + 1 < |hs| {
      PlanIsLinked(net, plan, manifest, nodes, m, hs, k + 1);
    }
  }

  lemma {:induction false} ModelsAt<S, R>(hs: seq<ModelHandle<S, R>>, i: nat)
    requires i < |hs|
    ensures Models(hs)[i] == hs[i].model
    decreases i
  {
    if i > 0 {
      ModelsAt(hs[1..], i - 1);
    }
  }

  lemma {:induction false} PlanIsSharded<S, R>(
    net: map<string, InferenceServiceServicer<S, R>>, plan: DispatchPlan, manifest: Manifest,
    nodes: seq<NodeRegistry.NodeFacts>, m: LanguageModel<S, R>, hs: seq<ModelHandle<S, R>>)
    requires IsPlan(plan, manifest, nodes) && AllHold(net, plan.modelName, m, plan.assignments, hs)
    requires manifest.layers == |m.layers|
    ensures Sharded(m, Ranges(plan.assignments), Models(hs))
  {
    var cuts := Ranges(plan.assignments);
    SplitIsCuts(cuts, |m.layers|, |nodes|, 0);
    assert cuts[0..] == cuts;
    forall i | 0 <= i < |cuts|
      ensures cuts[i].0 <= cuts[i].1 <= |m.layers| && Models(hs)[i] == ShardOf(m, cuts[i])
    {
      assert HoldsAssignment(net, plan.modelName, m, plan.assignments[i], hs[i]);
      ModelsAt(hs, i);
    }
    ShardsOfCuts(m, cuts, Models(hs));
  }

  /** Workers that hold their assignments are a deployed pipeline, for every plan dispatch can make. */
  lemma {:induction false} PlanDeploys<S, R>(
    runner: PipelineRunner<S, R>, manifest: Manifest, nodes: seq<NodeRegistry.NodeFacts>, m: LanguageModel<S, R>,
    hs: seq<ModelHandle<S, R>>)
    requires IsPlan(runner.plan, manifest, nodes) && manifest.layers == |m.layers| && runner.pick == m.pick
    requires AllHold(runner.net, runner.plan.modelName, m, runner.plan.assignments, hs) && Separate(hs)
    ensures runner.Deployed(m, Ranges(runner.plan.assignments), hs)
  {
    PlanIsLinked(runner.net, runner.plan, manifest, nodes, m, hs, 0);
    assert hs[0..] == hs;
    PlanIsSharded(runner.net, runner.plan, manifest, nodes, m, hs);
    assert HoldsAssignment(runner.net, runner.plan.modelName, m, runner.plan.assignments[0], hs[0]);
  }

  // ---------- From load() to a deployed pipeline ----------

  /** A handle is what loading built for this placement. */
  ghost predicate BuiltFor<S, R>(h: ModelHandle<S, R>, m: LanguageModel<S, R>, p: LoadProtocol.Placement) {
    && 0 <= p.layerStart <= p.layerEnd <= |m.layers| && h.model == ShardOf(m, (p.layerStart, p.layerEnd))
    && h.nextWorkerAddress == p.nextWorkerAddress
  }

  /** The workers at the plan's addresses are those of a state of the load protocol. */
  ghost predicate Represents<S, R>(
    net: map<string, InferenceServiceServicer<S, R>>, m: LanguageModel<S, R>, plan: DispatchPlan, s: LoadProtocol.State,
    hs: seq<ModelHandle<S, R>>)
    reads net.Values
  {
    && |s.workers| == |plan.assignments| == |hs|
    && forall k :: 0 <= k < |hs| && plan.modelName in s.workers[k].models ==>
         && AddressOf(plan.assignments[k]) in net
         && plan.modelName in net[AddressOf(plan.assignments[k])].models
         && net[AddressOf(plan.assignments[k])].models[plan.modelName] == hs[k]
         && BuiltFor(hs[k], m, s.workers[k].models[plan.modelName])
  }

  /** A load() of a model that was resident nowhere has returned. */
  ghost predicate LoadedFresh(
    plan: DispatchPlan, callback: string, states: seq<LoadProtocol.State>, actions: seq<LoadProtocol.Action>, i: nat) {
    && LoadProtocol.IsRun(plan, callback, states, actions)
    && i < |states| && states[i].verdict == LoadProtocol.Returned
    && forall k :: 0 <= k < |states[0].workers| ==> plan.modelName !in states[0].workers[k].models
  }

  /** There are such runs: on one worker that holds nothing, load() can return. */
  lemma {:induction false} LoadedFreshReached(plan: DispatchPlan, callback: string)
    returns (states: seq<LoadProtocol.State>, actions: seq<LoadProtocol.Action>)
    requires LoadProtocol.GoodPlan(plan) && |plan.assignments| == 1
    ensures LoadedFresh(plan, callback, states, actions, |actions|)
  {
    hide LoadProtocol.Follows, LoadProtocol.Start;
    var s0, s := LoadRuns.FreshLoadReturns(plan, callback);
    states, actions :| LoadProtocol.IsRun(plan, callback, states, actions) && states[0] == s0 && states[|actions|] == s;
  }

  /** Once load() has returned, with the model resident nowhere when it began, the workers hold their
      assignments, whatever else went on meanwhile. */
  lemma {:induction false} LoadDeploys<S, R>(
    net: map<string, InferenceServiceServicer<S, R>>, m: LanguageModel<S, R>, plan: DispatchPlan, callback: string,
    states: seq<LoadProtocol.State>, actions: seq<LoadProtocol.Action>, i: nat, hs: seq<ModelHandle<S, R>>)
    requires LoadedFresh(plan, callback, states, actions, i) && Represents(net, m, plan, states[i], hs)
    ensures AllHold(net, plan.modelName, m, plan.assignments, hs)
  {
    LoadProtocol.LoadSafety(plan, callback, states, actions, i);
    forall k | 0 <= k < |hs|
      ensures HoldsAssignment(net, plan.modelName, m, plan.assignments[k], hs[k])
    {
      assert plan.modelName in states[i].workers[k].models;
    }
  }

  /** Plan the dispatch and generate: the tokens are those of the whole, cache-free model. */
  method GenerateOnPlan<S, R>(
    manifest: Manifest, ghost nodes: seq<NodeRegistry.NodeFacts>, runner: PipelineRunner<S, R>, prompt: seq<R>,
    maxNewTokens: int, envs: seq<StepEnv<S>>, ghost m: LanguageModel<S, R>, ghost hs: seq<ModelHandle<S, R>>)
    returns (r: Result<GenerationResult<R>, StepError>)
    requires IsPlan(runner.plan, manifest, nodes) && manifest.layers == |m.layers| && runner.pick == m.pick
    requires AllHold(runner.net, runner.plan.modelName, m, runner.plan.assignments, hs) && Separate(hs)
    requires AllSized(Models(hs), Caches(hs)) && !runner.generationLocked
    requires |envs| > maxNewTokens && |envs| > 0
    requires forall k :: 0 <= k < |envs| ==> |envs[k].hops| == |hs| && envs[k].requestId !in runner.store.slots
    modifies runner`generationLocked, CacheObjects(hs), runner.store
    ensures r.Ok? <==> maxNewTokens <= 0 || (prompt != [] && forall k :: 0 <= k < maxNewTokens ==> StepClean(envs[k]))
    ensures r.Ok? && maxNewTokens > 0 ==> r.value.outputIds == Greedy(m, prompt, maxNewTokens)
  {
    PlanDeploys(runner, manifest, nodes, m, hs);
    r := Generate(runner, prompt, maxNewTokens, envs, m, Ranges(runner.plan.assignments), hs);
  }
}
