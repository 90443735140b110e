/**
 orchestrator/pipeline.py, PipelineRunner: greedy generation over the deployed pipeline.
 */
module Pipeline {
  import opened Wrappers
  import opened Recurrence
  import opened Shard
  import opened Worker
  import opened Sharding
  import opened ResultStore
  import opened Dispatch

  datatype StepError = RpcError | TimeoutError | KeyError | IndexError

  /** What becomes of the orchestrator's own call to the first worker: it never arrives, it is given
      up and may still run later, it is answered, or only its answer is lost. */
  datatype Reach = Unreachable | GivenUp | Answered | AnswerLost

  predicate NoEffectYet(reach: Reach) {
    reach == Unreachable || reach == GivenUp
  }

  /** One step's surroundings: its fresh uuid, its call, and each hop's. */
  datatype StepEnv<+S> = StepEnv(requestId: string, reach: Reach, hops: seq<Hop<S>>)

  datatype GenerationStep<+R> = GenerationStep(tokenId: R, stepResult: PipelineResult<R>)

  datatype GenerationResult<+R> = GenerationResult(outputIds: seq<R>, stepResults: seq<PipelineResult<R>>)

  ghost predicate StepClean<S>(env: StepEnv<S>) {
    env.reach == Answered && AllClean(env.hops)
  }

  /** One reading per worker, in plan order. */
  ghost predicate Measures<S, R>(result: PipelineResult<R>, env: StepEnv<S>) {
    && |result.nodeLatenciesMs| == |result.nodePeakMemoryMb| == |env.hops|
    && (forall k :: 0 <= k < |env.hops| ==> result.nodeLatenciesMs[k] == env.hops[k].elapsedMs)
    && (forall k :: 0 <= k < |env.hops| ==> result.nodePeakMemoryMb[k] == env.hops[k].peakMemoryMb)
  }

  /** The error that a step with this call and these hops, on these ids, ends in: the call's own, a
      timeout because some hop failed, or the index error of a step that returns no row. */
  ghost predicate FailsWith<S, R>(env: StepEnv<S>, ids: seq<R>, e: StepError) {
    match e
    case RpcError => env.reach != Answered
    case TimeoutError => env.reach == Answered && !AllClean(env.hops)
    case IndexError => StepClean(env) && ids == []
    case KeyError => false
  }

  /** The effect of one step on the workers' caches, and its result. */
  ghost function StepSpec<S, R>(
    ms: seq<ShardModule<S, R>>, caches: seq<CacheEntry<S>>, input: seq<R>, reset: bool, env: StepEnv<S>)
    : (seq<CacheEntry<S>>, Result<PipelineResult<R>, StepError>)
    requires AllSized(ms, caches) && |ms| == |env.hops|
  {
    if NoEffectYet(env.reach) then (caches, Err(RpcError))
    else
      var pass := ChainSpec(ms, caches, input, reset, env.hops);
      (pass.0,
       if env.reach == AnswerLost then Err(RpcError)
       else match pass.1
         case None => Err(TimeoutError)
         case Some(rows) => Ok(PipelineResult(rows, Latencies(env.hops), Memories(env.hops))))
  }

  class PipelineRunner<S, R> {
    const plan: DispatchPlan
    const store: ResultStore<PipelineResult<R>>
    const net: map<string, InferenceServiceServicer<S, R>>   // who answers at which address
    const pick: R -> R                                       // argmax over a logits row
    var generationLocked: bool

    constructor (plan: DispatchPlan, store: ResultStore<PipelineResult<R>>,
                 net: map<string, InferenceServiceServicer<S, R>>, pick: R -> R)
      ensures this.plan == plan && this.store == store && this.net == net && this.pick == pick
      ensures !generationLocked
    {
      this.plan := plan;
      this.store := store;
      this.net := net;
      this.pick := pick;
      generationLocked := false;
    }

    /** The plan's workers hold the model, cut as planned and chained. */
    ghost predicate Deployed(m: LanguageModel<S, R>, cuts: seq<(nat, nat)>, hs: seq<ModelHandle<S, R>>)
      reads net.Values
    {
      && plan.assignments != [] && AddressOf(plan.assignments[0]) in net && pick == m.pick
      && LinkedFrom(net, plan.modelName, AddressOf(plan.assignments[0]), hs, true)
      && cuts != [] && cuts[0].0 == 0 && Sharded(m, cuts, Models(hs))
      && Separate(hs)
    }

    /** Create the slot, call the first worker, and let the pass run its course. */
    method FirePass(request: RunShardRequest<R>, env: StepEnv<S>, ghost hs: seq<ModelHandle<S, R>>)
      requires plan.assignments != [] && AddressOf(plan.assignments[0]) in net && request.modelName == plan.modelName
      requires LinkedFrom(net, plan.modelName, AddressOf(plan.assignments[0]), hs, true) && Separate(hs)
      requires AllSized(Models(hs), Caches(hs)) && |env.hops| == |hs|
      requires request.requestId == env.requestId
      modifies CacheObjects(hs), store
      ensures NoEffectYet(env.reach) ==>
                Caches(hs) == old(Caches(hs)) && store.View() == WithSlot(old(store.View()), env.requestId)
      ensures !NoEffectYet(env.reach) ==>
                PassDone(hs, old(Caches(hs)), request, env.hops, WithSlot(old(store.View()), env.requestId),
                         store.View(), true)
    {
      hide HopSpec, ChainSpec, AfterPass, Separate, DeliversReadings, Readings;
      store.CreateSlot(env.requestId);
      if !NoEffectYet(env.reach) {
        var _ := net[AddressOf(plan.assignments[0])].RunShard(request, net, store, env.hops, hs, true);
      }
    }

    method RunShardStep(input: seq<R>, resetCache: bool, env: StepEnv<S>, ghost m: LanguageModel<S, R>,
                        ghost cuts: seq<(nat, nat)>, ghost hs: seq<ModelHandle<S, R>>)
      returns (r: Result<PipelineResult<R>, StepError>)
      requires Deployed(m, cuts, hs) && AllSized(Models(hs), Caches(hs)) && |env.hops| == |hs|
      requires env.requestId !in store.slots
      modifies CacheObjects(hs), store
      ensures AllSized(Models(hs), Caches(hs))
      ensures (Caches(hs), r) == StepSpec(Models(hs), old(Caches(hs)), input, resetCache, env)
      ensures r != Err(RpcError) ==> store.slots == old(store.slots)
      ensures r == Err(RpcError) ==> store.slots.Keys == old(store.slots).Keys + {env.requestId}
      ensures store.delivers == old(store.delivers) + StepDelivers(Models(hs), old(Caches(hs)), input, resetCache, env)
    {
      hide HopSpec, ChainSpec, LinkedFrom, Sharded, Separate, AllSized, Latencies, Memories;
      var request := RunShardRequest(plan.modelName, input, env.requestId, [], [], resetCache);
      ghost var caches, view := Caches(hs), store.View();
      FirePass(request, env, hs);
      if NoEffectYet(env.reach) {
        return Err(RpcError);
      }
      ghost var pass := ChainSpec(Models(hs), caches, input, resetCache, env.hops);
      StepSlot(view, request, pass.1, env);
      if env.reach == AnswerLost {
        return Err(RpcError);
      }
      var outcome := store.Wait(env.requestId);
      match outcome
      case Got(Some(result)) => return Ok(result);
      case TimedOut => return Err(TimeoutError);
    }
  }

  ghost function WithSlot<T>(view: StoreView<T>, id: string): StoreView<T> {
    view.(slots := view.slots[id := Slot(false, None)])
  }

  /** The deliver() calls of one step. */
  ghost function StepDelivers<S, R>(ms: seq<ShardModule<S, R>>, caches: seq<CacheEntry<S>>, input: seq<R>, reset: bool,
                                    env: StepEnv<S>): seq<Message<PipelineResult<R>>>
    requires AllSized(ms, caches) && |ms| == |env.hops|
  {
    var out := if NoEffectYet(env.reach) then None else ChainSpec(ms, caches, input, reset, env.hops).1;
    match out
    case None => []
    case Some(rows) => [Message(env.requestId, PipelineResult(rows, Latencies(env.hops), Memories(env.hops)))]
  }

  /** A step whose call takes effect delivers exactly once, for its own request, when no hop fails,
      and otherwise not at all. */
  lemma {:induction false} DeliversOnceExactly<S, R>(
    ms: seq<ShardModule<S, R>>, caches: seq<CacheEntry<S>>, input: seq<R>, reset: bool, env: StepEnv<S>)
    requires AllSized(ms, caches) && |ms| == |env.hops|
    ensures var sent := StepDelivers(ms, caches, input, reset, env);
            && |sent| == (if !NoEffectYet(env.reach) && AllClean(env.hops) then 1 else 0)
            && (sent != [] ==>
                  sent[0].id == env.requestId && Measures(sent[0].result, env) && |sent[0].result.rows| == |input|)
  {
    DeliversIffClean(ms, caches, input, reset, env.hops);
    ChainKeepsLength(ms, caches, input, reset, env.hops);
  }

  /** The step's own slot after a pass, and the others, which are as before. */
  lemma {:induction false} StepSlot<S, R>(view: StoreView<PipelineResult<R>>, request: RunShardRequest<R>,
                                          out: Option<seq<R>>, env: StepEnv<S>)
    requires request.requestId == env.requestId && env.requestId !in view.slots
    requires request.nodeLatenciesMs == [] && request.nodePeakMemoryMb == []
    ensures var after := AfterPass(WithSlot(view, env.requestId), request, out, env.hops);
            && after.slots.Keys == view.slots.Keys + {env.requestId}
            && after.slots - {env.requestId} == view.slots
            && match out
               case None => after.slots[env.requestId] == Slot(false, None) && after.delivers == view.delivers
               case Some(rows) =>
                 var result := PipelineResult(rows, Latencies(env.hops), Memories(env.hops));
                 && after.slots[env.requestId] == Slot(true, Some(result))
                 && after.delivers == view.delivers + [Message(env.requestId, result)]
  {
    assert [] + Latencies(env.hops) == Latencies(env.hops) && [] + Memories(env.hops) == Memories(env.hops);
  }

  // ---------- One step of greedy decoding ----------

  /** What generate_stream sends for its k-th token: the prompt, then only the newest token. */
  ghost function StepInput<R>(ids: seq<R>, k: nat): seq<R> {
    if k == 0 || ids == [] then ids else [ids[|ids| - 1]]
  }

  /** The logits rows that the k-th step of a generation with these ids should return. */
  ghost function StepRows<S, R>(m: LanguageModel<S, R>, ids: seq<R>, k: nat): seq<R> {
    if k == 0 || ids == [] then Logits(m, ids) else Logits(m, ids)[|ids| - 1..]
  }

  /** Before its k-th step, the workers are in step with all ids but the newest. */
  ghost predicate InStep<S, R>(
    m: LanguageModel<S, R>, cuts: seq<(nat, nat)>, caches: seq<CacheEntry<S>>, ids: seq<R>, k: nat) {
    k > 0 && ids != [] ==> Synced(m, cuts, caches, ids[..|ids| - 1])
  }

  /** A step on workers in step yields the next greedy token and leaves them in step; the first
      step asks nothing of them. */
  lemma {:induction false} StepYieldsNextToken<S, R>(
    m: LanguageModel<S, R>, cuts: seq<(nat, nat)>, ms: seq<ShardModule<S, R>>, caches: seq<CacheEntry<S>>, ids: seq<R>,
    k: nat, env: StepEnv<S>)
    requires cuts != [] && cuts[0].0 == 0 && Sharded(m, cuts, ms) && AllSized(ms, caches) && |env.hops| == |ms|
    requires ids != [] && InStep(m, cuts, caches, ids, k) && StepClean(env)
    ensures var r := StepSpec(ms, caches, StepInput(ids, k), k == 0, env);
            && r.1.Ok? && r.1.value.rows != [] && r.1.value.rows == StepRows(m, ids, k)
            && m.pick(r.1.value.rows[|r.1.value.rows| - 1]) == NextToken(m, ids)
            && Synced(m, cuts, r.0, ids)
  {
    hide HopSpec, ChainSpec, Sharded, Synced;
    var x := StepInput(ids, k);
    var fed := if k == 0 then [] else ids[..|ids| - 1];
    assert fed + x == ids;
    PassComputesLogits(m, cuts, ms, caches, fed, x, k == 0, env.hops);
  }

  /** A step succeeds exactly when its call is answered and no hop fails. */
  lemma {:induction false} StepSucceedsIffClean<S, R>(
    ms: seq<ShardModule<S, R>>, caches: seq<CacheEntry<S>>, x: seq<R>, reset: bool, env: StepEnv<S>)
    requires AllSized(ms, caches) && |env.hops| == |ms|
    ensures var r := StepSpec(ms, caches, x, reset, env).1;
            && (r.Ok? <==> StepClean(env))
            && (r.Ok? ==> |r.value.rows| == |x| && Measures(r.value, env))
  {
    DeliversIffClean(ms, caches, x, reset, env.hops);
    ChainKeepsLength(ms, caches, x, reset, env.hops);
  }

  /** A step that fails ends in the error of its call, or in a timeout when a hop failed. */
  lemma {:induction false} StepFailsWith<S, R>(
    ms: seq<ShardModule<S, R>>, caches: seq<CacheEntry<S>>, x: seq<R>, reset: bool, env: StepEnv<S>)
    requires AllSized(ms, caches) && |env.hops| == |ms|
    ensures var r := StepSpec(ms, caches, x, reset, env).1;
            r.Err? ==> !StepClean(env) && FailsWith(env, x, r.error)
  {
    DeliversIffClean(ms, caches, x, reset, env.hops);
  }

  /** Between two steps of a generation, the workers' entries for their own ranges, side by side, are
      the whole model's cache after the prompt and every token fed so far. */
  lemma {:induction false} GluedBetweenSteps<S, R>(
    m: LanguageModel<S, R>, cuts: seq<(nat, nat)>, caches: seq<CacheEntry<S>>, ids: seq<R>, k: nat)
    requires cuts != [] && cuts[0].0 == 0 && CutsTo(cuts, |m.layers|)
    requires InStep(m, cuts, caches, ids, k) && k > 0 && ids != []
    ensures |cuts| == |caches|
    ensures forall i :: 0 <= i < |cuts| ==> caches[i].Some? && cuts[i].0 <= cuts[i].1 <= |caches[i].value|
    ensures Glue(cuts, caches) == FullCache(m, ids[..|ids| - 1])
  {
    GlueIsFullCache(m, cuts, caches, ids[..|ids| - 1]);
  }

  /** No state leaks: what a first step returns depends on its input alone, whatever earlier
      generations left in the caches, and if it succeeds so do the caches. */
  lemma {:induction false} FirstStepForgets<S, R>(
    ms: seq<ShardModule<S, R>>, c1: seq<CacheEntry<S>>, c2: seq<CacheEntry<S>>, input: seq<R>, env: StepEnv<S>)
    requires AllSized(ms, c1) && AllSized(ms, c2) && |ms| == |env.hops|
    ensures var a, b := StepSpec(ms, c1, input, true, env), StepSpec(ms, c2, input, true, env);
            a.1 == b.1 && (a.1.Ok? ==> a.0 == b.0)
  {
    ResetForgets(ms, c1, c2, input, env.hops);
  }

  /** Of the ids, only their absence makes a step fail. */
  lemma {:induction false} FailsAlike<S, R>(env: StepEnv<S>, a: seq<R>, b: seq<R>)
    requires a == [] <==> b == []
    ensures forall e :: FailsWith(env, a, e) <==> FailsWith(env, b, e)
    ensures StepClean(env) && a == [] ==> FailsWith(env, a, IndexError)
  {
  }

  /** One turn of generate_stream's loop: a step, then the argmax of its last row. */
  method DecodeStep<S, R>(runner: PipelineRunner<S, R>, input: seq<R>, k: nat, env: StepEnv<S>, ghost ids: seq<R>,
                          ghost m: LanguageModel<S, R>, ghost cuts: seq<(nat, nat)>, ghost hs: seq<ModelHandle<S, R>>)
    returns (r: Result<GenerationStep<R>, StepError>)
    requires runner.Deployed(m, cuts, hs) && AllSized(Models(hs), Caches(hs)) && |env.hops| == |hs|
    requires env.requestId !in runner.store.slots
    requires input == StepInput(ids, k) && InStep(m, cuts, Caches(hs), ids, k)
    modifies CacheObjects(hs), runner.store
    ensures AllSized(Models(hs), Caches(hs))
    ensures r.Ok? <==> StepClean(env) && ids != []
    ensures r.Err? ==> FailsWith(env, ids, r.error)
    ensures r.Ok? ==>
              && r.value.tokenId == NextToken(m, ids) && Measures(r.value.stepResult, env)
              && r.value.stepResult.rows == StepRows(m, ids, k)
              && InStep(m, cuts, Caches(hs), ids + [r.value.tokenId], k + 1)
              && runner.store.slots == old(runner.store.slots)
  {
    hide HopSpec, ChainSpec, StepSpec, LinkedFrom, Sharded, Synced, NextToken, StepDelivers, AllSized,
         Measures, Separate, FailsWith, StepRows;
    StepSucceedsIffClean(Models(hs), Caches(hs), input, k == 0, env);
    StepFailsWith(Models(hs), Caches(hs), input, k == 0, env);
    FailsAlike(env, ids, input);
    if StepClean(env) && ids != [] {
      StepYieldsNextToken(m, cuts, Models(hs), Caches(hs), ids, k, env);
    }
    var result := runner.RunShardStep(input, k == 0, env, m, cuts, hs);
    if result.Err? {
      return Err(result.error);
    }
    var rows := result.value.rows;
    if rows == [] {
      return Err(IndexError);
    }
    var nextToken := runner.pick(rows[|rows| - 1]);
    assert (ids + [nextToken])[..|ids|] == ids;
    return Ok(GenerationStep(nextToken, result.value));
  }

  // ---------- generate_stream and generate ----------

  datatype Phase = Fresh | Running | Finished

  /** A generator started by generate_stream: it takes the lock at its first step and keeps it,
      between steps too, until it is exhausted, fails or is closed. */
  class GenerationStream<S, R> {
    const runner: PipelineRunner<S, R>
    const maxNewTokens: int
    ghost const prompt: seq<R>
    var phase: Phase
    var step: nat
    var nextInput: seq<R>
    ghost var ids: seq<R>       // the prompt and every token yielded so far

    constructor (runner: PipelineRunner<S, R>, prompt: seq<R>, maxNewTokens: int)
      ensures this.runner == runner && this.maxNewTokens == maxNewTokens && this.prompt == prompt
      ensures phase == Fresh && step == 0 && nextInput == prompt == ids
    {
      this.runner := runner;
      this.maxNewTokens := maxNewTokens;
      this.prompt := prompt;
      phase := Fresh;
      step := 0;
      nextInput := prompt;
      ids := prompt;
    }

    /** So far the stream has yielded the greedy continuation of its prompt. */
    ghost predicate Valid(m: LanguageModel<S, R>)
      reads this, runner
    {
      && (step > 0 ==> prompt != [] && step <= maxNewTokens)
      && ids == Greedy(m, prompt, step)
      && nextInput == StepInput(ids, step)
      && (phase == Fresh ==> step == 0)
      && (phase == Running ==> runner.generationLocked)
    }

    /** The loop body, with the lock held. */
    method Advance(
      env: StepEnv<S>, ghost m: LanguageModel<S, R>, ghost cuts: seq<(nat, nat)>, ghost hs: seq<ModelHandle<S, R>>)
      returns (r: Result<GenerationStep<R>, StepError>)
      requires Valid(m) && runner.Deployed(m, cuts, hs) && AllSized(Models(hs), Caches(hs)) && |env.hops| == |hs|
      requires phase == Running && step < maxNewTokens && InStep(m, cuts, Caches(hs), ids, step)
      requires env.requestId !in runner.store.slots
      modifies this, runner`generationLocked, CacheObjects(hs), runner.store
      ensures Valid(m) && AllSized(Models(hs), Caches(hs))
      ensures r.Ok? <==> StepClean(env) && prompt != []
      ensures r.Ok? ==>
                && phase == Running && step == old(step) + 1
                && ids == old(ids) + [r.value.tokenId] && Measures(r.value.stepResult, env)
                && r.value.stepResult.rows == StepRows(m, old(ids), old(step))
                && InStep(m, cuts, Caches(hs), ids, step)
                && runner.store.slots == old(runner.store.slots)
      ensures r.Err? ==> phase == Finished && !runner.generationLocked && step == old(step) && ids == old(ids)
      ensures r.Err? ==> FailsWith(env, prompt, r.error)
    {
      hide HopSpec, ChainSpec, StepSpec, LinkedFrom, Sharded, Synced, NextToken, Clean, AllClean, InStep,
           AllSized, Measures, PipelineRunner.Deployed, Separate, Greedy, StepRows, FailsWith;
      assert |ids| >= |prompt|;
      FailsAlike(env, ids, prompt);
      r := DecodeStep(runner, nextInput, step, env, ids, m, cuts, hs);
      ghost var caches := Caches(hs);
      if r.Err? {
        Release();
      } else {
        Record(r.value.tokenId, m);
      }
      assert Caches(hs) == caches;
    }

    method Record(token: R, ghost m: LanguageModel<S, R>)
      requires Valid(m) && phase == Running && step < maxNewTokens && prompt != []
      requires token == NextToken(m, ids)
      modifies this`nextInput, this`step, this`ids
      ensures Valid(m) && step == old(step) + 1 && ids == old(ids) + [token]
    {
      nextInput := [token];
      step := step + 1;
      ids := ids + [token];
    }

    method Next(
      env: StepEnv<S>, ghost m: LanguageModel<S, R>, ghost cuts: seq<(nat, nat)>, ghost hs: seq<ModelHandle<S, R>>)
      returns (r: Option<Result<GenerationStep<R>, StepError>>)
      requires Valid(m) && runner.Deployed(m, cuts, hs) && AllSized(Models(hs), Caches(hs)) && |env.hops| == |hs|
      requires phase == Fresh ==> !runner.generationLocked                // otherwise the call blocks
      requires phase == Running ==> InStep(m, cuts, Caches(hs), ids, step)
      requires env.requestId !in runner.store.slots
      modifies this, runner`generationLocked, CacheObjects(hs), runner.store
      ensures Valid(m) && AllSized(Models(hs), Caches(hs))
      ensures r == None <==> old(phase) == Finished || old(step) >= maxNewTokens
      ensures r.Some? ==> (r.value.Ok? <==> StepClean(env) && prompt != [])
      ensures r.Some? && r.value.Ok? ==>
                && phase == Running && step == old(step) + 1
                && ids == old(ids) + [r.value.value.tokenId] && Measures(r.value.value.stepResult, env)
                && r.value.value.stepResult.rows == StepRows(m, old(ids), old(step))
                && InStep(m, cuts, Caches(hs), ids, step)
                && runner.store.slots == old(runner.store.slots)
      ensures r.Some? && r.value.Err? ==> FailsWith(env, prompt, r.value.error)
      ensures r == None || r.value.Err? ==>
                phase == Finished && step == old(step) && ids == old(ids) &&
                (old(phase) != Finished ==> !runner.generationLocked)
    {
      hide HopSpec, ChainSpec, StepSpec, LinkedFrom, Sharded, Synced, NextToken, Greedy, Clean, AllClean,
           InStep, AllSized, Measures, PipelineRunner.Deployed, Separate, StepRows, FailsWith;
      if phase == Finished {
        return None;
      }
      Enter(m, cuts, Caches(hs));
      if step >= maxNewTokens {
        Release();
        return None;
      }
      var next := Advance(env, m, cuts, hs);
      return Some(next);
    }

    /** The first next() takes the lock. */
    method Enter(ghost m: LanguageModel<S, R>, ghost cuts: seq<(nat, nat)>, ghost caches: seq<CacheEntry<S>>)
      requires Valid(m) && phase != Finished
      requires phase == Running ==> InStep(m, cuts, caches, ids, step)
      modifies this`phase, runner`generationLocked
      ensures Valid(m) && phase == Running && InStep(m, cuts, caches, ids, step)
    {
      hide Synced, Greedy;
      if phase == Fresh {
        runner.generationLocked := true;
        phase := Running;
      }
    }

    method Release()
      modifies this`phase, runner`generationLocked
      ensures phase == Finished && !runner.generationLocked
    {
      phase := Finished;
      runner.generationLocked := false;
    }

    /** The consumer drops the generator. */
    method Close()
      modifies this`phase, runner`generationLocked
      ensures phase == Finished
      ensures runner.generationLocked == (old(phase) != Running && old(runner.generationLocked))
    {
      if phase == Running {
        runner.generationLocked := false;
      }
      phase := Finished;
    }
  }

  /** Every result so far came from a clean step, holds the logits that the whole model has for the
      ids of that step, and carries its readings. */
  ghost predicate StepsDone<S, R>(
    m: LanguageModel<S, R>, prompt: seq<R>, results: seq<PipelineResult<R>>, envs: seq<StepEnv<S>>) {
    && |results| <= |envs|
    && forall k :: 0 <= k < |results| ==> StepDone(m, prompt, k, results[k], envs[k])
  }

  ghost predicate StepDone<S, R>(
    m: LanguageModel<S, R>, prompt: seq<R>, k: nat, result: PipelineResult<R>, env: StepEnv<S>) {
    && StepClean(env) && Measures(result, env)
    && prompt != [] && result.rows == StepRows(m, Greedy(m, prompt, k), k)
  }

  lemma {:induction false} FailsFirst<S, R>(
    m: LanguageModel<S, R>, prompt: seq<R>, results: seq<PipelineResult<R>>, envs: seq<StepEnv<S>>, e: StepError)
    requires StepsDone(m, prompt, results, envs) && |results| < |envs| && FailsWith(envs[|results|], prompt, e)
    ensures FirstFailure(envs, prompt, |results|, e)
  {
    hide FailsWith;
    assert results != [] ==> StepDone(m, prompt, 0, results[0], envs[0]);
    forall j | 0 <= j < |results|
      ensures StepClean(envs[j])
    {
      assert StepDone(m, prompt, j, results[j], envs[j]);
    }
  }

  lemma {:induction false} DoneStep<S, R>(
    m: LanguageModel<S, R>, prompt: seq<R>, k: nat, result: PipelineResult<R>, env: StepEnv<S>)
    requires StepClean(env) && Measures(result, env) && prompt != []
    requires result.rows == StepRows(m, Greedy(m, prompt, k), k)
    ensures StepDone(m, prompt, k, result, env)
  {
    hide StepClean, Measures, StepRows, Greedy;
  }

  lemma {:induction false} StepsDoneMore<S, R>(
    m: LanguageModel<S, R>, prompt: seq<R>, results: seq<PipelineResult<R>>, envs: seq<StepEnv<S>>,
    result: PipelineResult<R>)
    requires StepsDone(m, prompt, results, envs) && |results| < |envs|
    requires StepDone(m, prompt, |results|, result, envs[|results|])
    ensures StepsDone(m, prompt, results + [result], envs)
  {
    hide StepDone;
  }

  /** Step k is the first that fails, with this error. */
  ghost predicate FirstFailure<S, R>(envs: seq<StepEnv<S>>, prompt: seq<R>, k: int, e: StepError) {
    && 0 <= k < |envs| && FailsWith(envs[k], prompt, e)
    && (k > 0 ==> prompt != []) && forall j :: 0 <= j < k ==> StepClean(envs[j])
  }

  /** generate(): whatever the workers' caches hold and however they came by it, the ids are those
      of the whole, cache-free model rerun on the growing sequence; it fails exactly when a step does. */
  method Generate<S, R>(runner: PipelineRunner<S, R>, inputIds: seq<R>, maxNewTokens: int, envs: seq<StepEnv<S>>,
                        ghost m: LanguageModel<S, R>, ghost cuts: seq<(nat, nat)>, ghost hs: seq<ModelHandle<S, R>>)
    returns (r: Result<GenerationResult<R>, StepError>)
    requires runner.Deployed(m, cuts, hs) && AllSized(Models(hs), Caches(hs))
    requires !runner.generationLocked
    requires |envs| > maxNewTokens && |envs| > 0
    requires forall k :: 0 <= k < |envs| ==> |envs[k].hops| == |hs| && envs[k].requestId !in runner.store.slots
    modifies runner`generationLocked, CacheObjects(hs), runner.store
    ensures !runner.generationLocked && AllSized(Models(hs), Caches(hs))
    ensures r.Ok? <==> maxNewTokens <= 0 || (inputIds != [] && forall k :: 0 <= k < maxNewTokens ==> StepClean(envs[k]))
    ensures r.Ok? && maxNewTokens <= 0 ==> r.value == GenerationResult(inputIds, [])
    ensures r.Ok? && maxNewTokens > 0 ==>
              && r.value.outputIds == Greedy(m, inputIds, maxNewTokens)
              && |r.value.stepResults| == maxNewTokens
              && forall k :: 0 <= k < maxNewTokens ==>
                   && Measures(r.value.stepResults[k], envs[k])
                   && r.value.stepResults[k].rows == StepRows(m, Greedy(m, inputIds, k), k)
    ensures r.Err? ==> exists k :: k < maxNewTokens && FirstFailure(envs, inputIds, k, r.error)
  {
    hide HopSpec, ChainSpec, StepSpec, LinkedFrom, Sharded, Synced, NextToken, Clean, AllClean,
         PipelineRunner.Deployed, Separate, AllSized, Measures, StepRows;
    var stream := new GenerationStream(runner, inputIds, maxNewTokens);
    assert stream.Valid(m);
    hide Greedy;
    r := Drain(stream, envs, m, cuts, hs);
    if r.Ok? {
      assert forall k :: 0 <= k < |r.value.stepResults| ==>
               StepDone(m, inputIds, k, r.value.stepResults[k], envs[k]);
      hide StepDone;
    } else {
      ghost var k :| k < maxNewTokens && FirstFailure(envs, inputIds, k, r.error);
      FailureIsUnclean(envs, inputIds, k, r.error);
    }
  }

  lemma {:induction false} FailureIsUnclean<S, R>(envs: seq<StepEnv<S>>, prompt: seq<R>, k: int, e: StepError)
    requires FirstFailure(envs, prompt, k, e)
    ensures !StepClean(envs[k]) || prompt == []
  {
  }

  /** The loop that consumes a fresh stream. */
  method Drain<S, R>(stream: GenerationStream<S, R>, envs: seq<StepEnv<S>>,
                     ghost m: LanguageModel<S, R>, ghost cuts: seq<(nat, nat)>, ghost hs: seq<ModelHandle<S, R>>)
    returns (r: Result<GenerationResult<R>, StepError>)
    requires stream.phase == Fresh && stream.Valid(m) && stream.nextInput == stream.prompt
    requires stream.runner.Deployed(m, cuts, hs) && AllSized(Models(hs), Caches(hs)) && !stream.runner.generationLocked
    requires |envs| > stream.maxNewTokens && |envs| > 0
    requires forall k :: 0 <= k < |envs| ==> |envs[k].hops| == |hs| && envs[k].requestId !in stream.runner.store.slots
    modifies stream, stream.runner`generationLocked, CacheObjects(hs), stream.runner.store
    ensures !stream.runner.generationLocked && AllSized(Models(hs), Caches(hs))
    ensures r.Ok? ==>
              && |r.value.stepResults| == (if stream.maxNewTokens > 0 then stream.maxNewTokens else 0)
              && StepsDone(m, stream.prompt, r.value.stepResults, envs)
              && (stream.maxNewTokens > 0 ==> stream.prompt != [])
              && r.value.outputIds == Greedy(m, stream.prompt, |r.value.stepResults|)
    ensures r.Err? ==> exists k :: k < stream.maxNewTokens && FirstFailure(envs, stream.prompt, k, r.error)
  {
    hide HopSpec, ChainSpec, StepSpec, LinkedFrom, Sharded, Synced, NextToken, Clean, AllClean, AllSized,
         Measures, Greedy, StepRows, FailsWith, PipelineRunner.Deployed, Separate, StepDone;
    var outputIds := stream.nextInput;
    var stepResults: seq<PipelineResult<R>> := [];
    ghost var slots := stream.runner.store.slots;
    assert StepsDone(m, stream.prompt, stepResults, envs);
    hide StepsDone;
    while true
      invariant stream.Valid(m) && stream.phase != Finished && stream.step == |stepResults|
      invariant stream.step == 0 || stream.step <= stream.maxNewTokens
      invariant stream.phase == Fresh ==> !stream.runner.generationLocked
      invariant stream.phase == Running ==> InStep(m, cuts, Caches(hs), stream.ids, stream.step)
      invariant AllSized(Models(hs), Caches(hs)) && stream.runner.store.slots == slots
      invariant outputIds == stream.ids && StepsDone(m, stream.prompt, stepResults, envs)
      decreases stream.maxNewTokens - stream.step
    {
      var k := stream.step;
      var next := stream.Next(envs[k], m, cuts, hs);
      match next
      case None => return Ok(GenerationResult(outputIds, stepResults));
      case Some(Err(e)) =>
        FailsFirst(m, stream.prompt, stepResults, envs, e);
        return Err(e);
      case Some(Ok(step)) =>
        outputIds := outputIds + [step.tokenId];
        DoneStep(m, stream.prompt, k, step.stepResult, envs[k]);
        StepsDoneMore(m, stream.prompt, stepResults, envs, step.stepResult);
        stepResults := stepResults + [step.stepResult];
    }
  }
}
