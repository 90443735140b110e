/**
 From a checkpoint to tokens: what a module computes is a function of its parameters, so workers that
 loaded their shards from one checkpoint decode as the whole model read from it would.
 */
module Assembly {
  import opened Wrappers
  import opened Recurrence
  import opened Shard
  import opened Worker
  import opened Sharding
  import opened Dispatch
  import opened ShardLoading
  import opened ShardRebuild
  import opened Pipeline
  import opened Deployment

  /** How modules of this architecture compute from their parameters. */
  datatype Architecture<!T, !S, !R> = Architecture(
    block: map<string, T> -> Step<S, R>,
    embed: T -> (R -> R),
    norm: T -> (R -> R),
    head: T -> (R -> R),
    pick: R -> R,
    blank: nat -> S)

  function ModelOf<T, S, R>(arch: Architecture<T, S, R>, full: FullModel<T>): (m: LanguageModel<S, R>)
    ensures |m.layers| == |full.layers|
  {
    LanguageModel(arch.embed(full.embedding),
                  seq(|full.layers|, i requires 0 <= i < |full.layers| => arch.block(full.layers[i])),
                  arch.norm(full.norm), arch.head(full.head), arch.pick, arch.blank)
  }

  function Loaded<T, S, R>(build: T -> (R -> R), sd: map<string, T>, name: string, wanted: bool): Option<R -> R> {
    if wanted && name in sd then Some(build(sd[name])) else None
  }

  /** The shard module that from_tensor_locations makes of a loaded state dict. */
  ghost function ShardFrom<T, S, R>(
    arch: Architecture<T, S, R>, sd: map<string, T>, parameters: set<string>, total: nat, lo: nat, hi: nat)
    : Result<ShardModule<S, R>, string>
    requires lo <= hi
  {
    NewShard(seq(hi - lo, k requires 0 <= k < hi - lo => Block(lo + k, arch.block(LayerAt(sd, parameters, k)))),
             lo == 0, hi == total,
             Loaded<T, S, R>(arch.embed, sd, EmbeddingDest, lo == 0),
             Loaded<T, S, R>(arch.norm, sd, NormDest, hi == total),
             Loaded<T, S, R>(arch.head, sd, HeadDest, hi == total),
             total, arch.blank)
  }

  lemma {:induction false} SliceBlocks<T, S, R>(arch: Architecture<T, S, R>, full: FullModel<T>, sd: map<string, T>,
                                                parameters: set<string>, lo: nat, hi: nat, k: nat)
    requires IsSlice(sd, full, parameters, lo, hi, lo == 0, hi == |full.layers|) && k < hi - lo
    requires full.layers[lo + k].Keys == parameters
    ensures Block(lo + k, arch.block(LayerAt(sd, parameters, k))) == Slice(ModelOf(arch, full), lo, hi)[k]
  {
    hide LayerAt, Parameters, LayerDest;
    MatchingLayerAt(sd, full, parameters, lo, k);
  }

  /** A slice of the parameters makes the slice of the model. */
  lemma {:induction false} SliceIsShard<T, S, R>(arch: Architecture<T, S, R>, full: FullModel<T>, sd: map<string, T>,
                                                 parameters: set<string>, lo: nat, hi: nat)
    requires IsSlice(sd, full, parameters, lo, hi, lo == 0, hi == |full.layers|)
    requires forall i :: 0 <= i < |full.layers| ==> full.layers[i].Keys == parameters
    ensures ShardFrom(arch, sd, parameters, |full.layers|, lo, hi) == Ok(ShardOf(ModelOf(arch, full), (lo, hi)))
  {
    var m := ModelOf(arch, full);
    var blocks := seq(hi - lo, k requires 0 <= k < hi - lo => Block(lo + k, arch.block(LayerAt(sd, parameters, k))));
    forall k | 0 <= k < hi - lo
      ensures blocks[k] == Slice(m, lo, hi)[k]
    {
      SliceBlocks(arch, full, sd, parameters, lo, hi, k);
    }
    assert blocks == Slice(m, lo, hi);
    assert lo == 0 ==> EmbeddingDest in sd;
    assert hi == |full.layers| ==> NormDest in sd && HeadDest in sd;
  }

  /** What a worker's load leaves in its handle: some state dict that from_tensor_locations gathered
      for this placement, and the module made of it. */
  ghost predicate LoadedFrom<T(!new), S, R>(
    h: ModelHandle<S, R>, c: Checkpoint<T>, arch: Architecture<T, S, R>, parameters: set<string>, total: nat,
    p: LoadProtocol.Placement) {
    && 0 <= p.layerStart <= p.layerEnd <= total && h.nextWorkerAddress == p.nextWorkerAddress
    && OrderedDict.Valid(c.weightMap)
    && Missing(c.weightMap.m, p.layerStart == 0, p.layerEnd == total) == None
    && exists sd: map<string, T> ::
         && Gathered(c.files, sd,
                     Locations(c.weightMap, p.layerStart, p.layerEnd, p.layerStart == 0, p.layerEnd == total))
         && sd.Keys == Parameters(parameters, p.layerEnd - p.layerStart, p.layerStart == 0, p.layerEnd == total)
         && Ok(h.model) == ShardFrom(arch, sd, parameters, total, p.layerStart, p.layerEnd)
  }

  /** Loading from a complete checkpoint builds the slice of the checkpoint's own model. */
  lemma {:induction false} LoadedIsBuilt<T(!new), S, R>(
    h: ModelHandle<S, R>, c: Checkpoint<T>, arch: Architecture<T, S, R>, parameters: set<string>, total: nat,
    p: LoadProtocol.Placement)
    requires Complete(c, total, parameters) && LoadedFrom(h, c, arch, parameters, total, p)
    ensures BuiltFor(h, ModelOf(arch, FullOf(c, total, parameters)), p)
  {
    hide Gathered, Locations, Parameters, ShardFrom, ShardOf, IsSlice, Complete, FullOf;
    var lo, hi, full := p.layerStart, p.layerEnd, FullOf(c, total, parameters);
    var sd: map<string, T> :|
      && Gathered(c.files, sd, Locations(c.weightMap, lo, hi, lo == 0, hi == total))
      && sd.Keys == Parameters(parameters, hi - lo, lo == 0, hi == total)
      && Ok(h.model) == ShardFrom(arch, sd, parameters, total, lo, hi);
    GatheredIsSlice(c, total, parameters, lo, hi, lo == 0, hi == total, sd);
    FullKeys(c, total, parameters);
    SliceIsShard(arch, full, sd, parameters, lo, hi);
  }

  lemma {:induction false} FullKeys<T>(c: Checkpoint<T>, total: nat, parameters: set<string>)
    requires Complete(c, total, parameters)
    ensures forall i :: 0 <= i < total ==> FullOf(c, total, parameters).layers[i].Keys == parameters
  {
    hide LayerSource;
  }

  /** A worker's load, weights and module. */
  method LoadShardModule<T(!new), S, R>(
    c: Checkpoint<T>, arch: Architecture<T, S, R>, parameters: set<string>, total: nat, lo: nat, hi: nat)
    returns (sd: Result<map<string, T>, string>, ghost r: Result<ShardModule<S, R>, string>)
    requires Complete(c, total, parameters) && lo <= hi <= total
    ensures sd.Ok? && r == ShardFrom(arch, sd.value, parameters, total, lo, hi)
    ensures r == Ok(ShardOf(ModelOf(arch, FullOf(c, total, parameters)), (lo, hi)))
  {
    sd := LoadShardWeights(c, total, parameters, lo, hi, lo == 0, hi == total);
    r := ShardFrom(arch, sd.value, parameters, total, lo, hi);
    SliceIsShard(arch, FullOf(c, total, parameters), sd.value, parameters, lo, hi);
  }

  /** The workers at the plan's addresses hold what they loaded from this checkpoint. */
  ghost predicate WorkersLoaded<T(!new), S, R>(net: map<string, InferenceServiceServicer<S, R>>, c: Checkpoint<T>,
                                               arch: Architecture<T, S, R>, parameters: set<string>, plan: DispatchPlan,
                                               s: LoadProtocol.State, hs: seq<ModelHandle<S, R>>)
    reads net.Values
  {
    && |s.workers| == |plan.assignments| == |hs| && plan.totalLayers >= 0
    && forall k :: 0 <= k < |hs| && plan.modelName in s.workers[k].models ==>
         && AddressOf(plan.assignments[k]) in net
         && plan.modelName in net[AddressOf(plan.assignments[k])].models
         && net[AddressOf(plan.assignments[k])].models[plan.modelName] == hs[k]
         && LoadedFrom(hs[k], c, arch, parameters, plan.totalLayers, s.workers[k].models[plan.modelName])
  }

  lemma {:induction false} LoadedRepresents<T(!new), S, R>(
    net: map<string, InferenceServiceServicer<S, R>>, c: Checkpoint<T>, arch: Architecture<T, S, R>,
    parameters: set<string>, plan: DispatchPlan, s: LoadProtocol.State, hs: seq<ModelHandle<S, R>>)
    requires WorkersLoaded(net, c, arch, parameters, plan, s, hs) && Complete(c, plan.totalLayers, parameters)
    ensures Represents(net, ModelOf(arch, FullOf(c, plan.totalLayers, parameters)), plan, s, hs)
  {
    hide LoadedFrom, BuiltFor, ModelOf, FullOf, Complete;
    forall k | 0 <= k < |hs| && plan.modelName in s.workers[k].models
      ensures BuiltFor(hs[k], ModelOf(arch, FullOf(c, plan.totalLayers, parameters)),
                       s.workers[k].models[plan.modelName])
    {
      LoadedIsBuilt(hs[k], c, arch, parameters, plan.totalLayers, s.workers[k].models[plan.modelName]);
    }
  }

  /** A load() of this checkpoint, resident nowhere before, has returned and left the workers so. */
  ghost predicate LoadedBy<T(!new), S, R>(
    net: map<string, InferenceServiceServicer<S, R>>, c: Checkpoint<T>, arch: Architecture<T, S, R>,
    parameters: set<string>, plan: DispatchPlan, callback: string, states: seq<LoadProtocol.State>,
    actions: seq<LoadProtocol.Action>, i: nat, hs: seq<ModelHandle<S, R>>)
    reads net.Values
  {
    && LoadedFresh(plan, callback, states, actions, i)
    && WorkersLoaded(net, c, arch, parameters, plan, states[i], hs)
  }

  lemma {:induction false} LoadedHold<T(!new), S, R>(
    net: map<string, InferenceServiceServicer<S, R>>, c: Checkpoint<T>, arch: Architecture<T, S, R>,
    parameters: set<string>, plan: DispatchPlan, callback: string, states: seq<LoadProtocol.State>,
    actions: seq<LoadProtocol.Action>, i: nat, hs: seq<ModelHandle<S, R>>)
    requires LoadedBy(net, c, arch, parameters, plan, callback, states, actions, i, hs)
    requires Complete(c, plan.totalLayers, parameters)
    ensures AllHold(net, plan.modelName, ModelOf(arch, FullOf(c, plan.totalLayers, parameters)), plan.assignments, hs)
  {
    assert i < |states|;
    hide LoadedFresh, WorkersLoaded, Complete, Represents;
    LoadedRepresents(net, c, arch, parameters, plan, states[i], hs);
    LoadDeploys(net, ModelOf(arch, FullOf(c, plan.totalLayers, parameters)), plan, callback, states, actions, i, hs);
  }

  /** The whole way: plan the dispatch, load() a complete checkpoint that is resident nowhere, and
      generate.  The tokens are those of rerunning the whole model, as the checkpoint holds it, on the
      growing sequence. */
  method CheckpointToTokens<T(!new), S, R>(
    manifest: Manifest, ghost nodes: seq<NodeRegistry.NodeFacts>, runner: PipelineRunner<S, R>, prompt: seq<R>,
    maxNewTokens: int, envs: seq<StepEnv<S>>, ghost c: Checkpoint<T>, ghost arch: Architecture<T, S, R>,
    ghost parameters: set<string>, ghost callback: string, ghost states: seq<LoadProtocol.State>,
    ghost actions: seq<LoadProtocol.Action>, ghost i: nat, ghost hs: seq<ModelHandle<S, R>>)
    returns (r: Result<GenerationResult<R>, StepError>)
    requires IsPlan(runner.plan, manifest, nodes) && runner.pick == arch.pick
    requires Complete(c, manifest.layers, parameters)
    requires LoadedBy(runner.net, c, arch, parameters, runner.plan, callback, states, actions, i, hs) && Separate(hs)
    requires AllSized(Models(hs), Caches(hs)) && !runner.generationLocked
    requires |envs| > maxNewTokens && |envs| > 0
    requires forall k :: 0 <= k < |envs| ==> |envs[k].hops| == |hs| && envs[k].requestId !in runner.store.slots
    modifies runner`generationLocked, CacheObjects(hs), runner.store
    ensures r.Ok? <==> maxNewTokens <= 0 || (prompt != [] && forall k :: 0 <= k < maxNewTokens ==> StepClean(envs[k]))
    ensures r.Ok? && maxNewTokens > 0 ==>
              r.value.outputIds == Greedy(ModelOf(arch, FullOf(c, manifest.layers, parameters)), prompt, maxNewTokens)
  {
    hide IsPlan, LoadedBy, AllHold, Complete, FullOf, Separate, AllSized, Greedy, StepClean;
    PlanCoversAll(runner.plan, manifest, nodes);
    ghost var m := ModelOf(arch, FullOf(c, manifest.layers, parameters));
    LoadedHold(runner.net, c, arch, parameters, runner.plan, callback, states, actions, i, hs);
    r := GenerateOnPlan(manifest, nodes, runner, prompt, maxNewTokens, envs, m, hs);
  }
}
