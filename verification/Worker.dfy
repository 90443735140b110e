/**
 inference/service.py, RunShard: one hop of the circular pipeline.  A worker resets or reuses its
 cache, runs its shard and hands the rows to the next worker, or to the orchestrator's
 ResultStore when it is the last.
 */
module Worker {
  import opened Wrappers
  import opened Shard
  import opened ResultStore
  import WorkerLoad

  /** A loaded shard; only its cache ever changes. */
  datatype ModelHandle<!S, !R> = ModelHandle(
    model: ShardModule<S, R>, nextWorkerAddress: string, cache: RecurrentCache<S>)

  datatype PipelineResult<+R> = PipelineResult(rows: seq<R>, nodeLatenciesMs: seq<real>, nodePeakMemoryMb: seq<nat>)

  datatype RunShardRequest<+R> = RunShardRequest(
    modelName: string, input: seq<R>, requestId: string,
    nodeLatenciesMs: seq<real>, nodePeakMemoryMb: seq<nat>, resetCache: bool)

  /** NotFound reaches the caller as an RpcError; a Response does not, and no caller looks at its flag. */
  datatype Reply = NotFound | Response(success: bool)

  /** What can go wrong at one hop: the input does not decode; forward raises; the next call fails
      before it takes effect; only its reply is lost, and the rest of the pass delivers while the
      orchestrator still waits; or its reply is lost and the rest of the pass comes too late for that
      wait, so that its hops are no part of this pass any more (module GenerationLock has them as
      stray hops). */
  datatype HopFault<+S> = Undecodable | Computes(fault: Fault<S>) | SendFails | ReplyLost | RunsLate

  /** One hop's surroundings: its fault and the clock and memory readings it reports. */
  datatype Hop<+S> = Hop(fault: HopFault<S>, elapsedMs: real, peakMemoryMb: nat)

  ghost predicate Clean<S>(hop: Hop<S>) {
    hop.fault == Computes(NoFault) || hop.fault == ReplyLost
  }

  /** The pass, as far as its caller is concerned, goes no further. */
  predicate StopsHere<S>(fault: HopFault<S>) {
    fault.SendFails? || fault.RunsLate?
  }

  type CacheEntry<+S> = Option<seq<S>>

  ghost predicate Sized<S, R>(m: ShardModule<S, R>, cache: CacheEntry<S>) {
    WellFormed(m) && (cache.Some? ==> |cache.value| == m.numHiddenLayers)
  }

  /** The cache a hop leaves and the rows it hands on, if any. */
  ghost function HopSpec<S, R>(m: ShardModule<S, R>, cache: CacheEntry<S>, x: seq<R>, reset: bool, fault: HopFault<S>)
    : (r: (CacheEntry<S>, Option<seq<R>>))
    requires Sized(m, cache)
    ensures Sized(m, r.0)
  {
    if fault.Undecodable? then (cache, None)
    else
      var start := if reset || cache.None? then BlankEntries(m) else cache.value;
      var f := ForwardSpec(m, x, start, if fault.Computes? then fault.fault else NoFault);
      (Some(f.0), if StopsHere(fault) then None else f.1)
  }

  ghost predicate AllSized<S, R>(ms: seq<ShardModule<S, R>>, caches: seq<CacheEntry<S>>) {
    |ms| == |caches| && forall k :: 0 <= k < |ms| ==> Sized(ms[k], caches[k])
  }

  /** One pass over a chain of workers: the caches it leaves, and the rows delivered at its end, if any. */
  ghost function ChainSpec<S, R>(
    ms: seq<ShardModule<S, R>>, caches: seq<CacheEntry<S>>, x: seq<R>, reset: bool, hops: seq<Hop<S>>)
    : (r: (seq<CacheEntry<S>>, Option<seq<R>>))
    requires AllSized(ms, caches) && |ms| <= |hops|
    ensures AllSized(ms, r.0)
    decreases |ms|
  {
    if ms == [] then (caches, Some(x))
    else
      var h := HopSpec(ms[0], caches[0], x, reset, hops[0].fault);
      if h.1.None? then ([h.0] + caches[1..], None)
      else
        var rest := ChainSpec(ms[1..], caches[1..], h.1.value, reset, hops[1..]);
        ([h.0] + rest.0, rest.1)
  }

  ghost function Latencies<S>(hops: seq<Hop<S>>): (ls: seq<real>)
    ensures |ls| == |hops|
  {
    seq(|hops|, i requires 0 <= i < |hops| => hops[i].elapsedMs)
  }

  ghost function Memories<S>(hops: seq<Hop<S>>): (ms: seq<nat>)
    ensures |ms| == |hops|
  {
    seq(|hops|, i requires 0 <= i < |hops| => hops[i].peakMemoryMb)
  }

  /** The store after a pass that delivered `out`, with one deliver() for the pass's own request, or
      that did not, with none. */
  ghost function AfterPass<S, R>(
    view: StoreView<PipelineResult<R>>, request: RunShardRequest<R>, out: Option<seq<R>>, hops: seq<Hop<S>>)
    : StoreView<PipelineResult<R>>
  {
    match out
    case None => view
    case Some(rows) =>
      var result := PipelineResult(rows, request.nodeLatenciesMs + Latencies(hops),
                                   request.nodePeakMemoryMb + Memories(hops));
      StoreView(Delivered(view.slots, request.requestId, result), view.delivers + [Message(request.requestId, result)])
  }

  /** A result's readings are those the request brought, then one of each for every hop, in order. */
  ghost predicate Readings<S, R>(result: PipelineResult<R>, request: RunShardRequest<R>, hops: seq<Hop<S>>) {
    var l, m := |request.nodeLatenciesMs|, |request.nodePeakMemoryMb|;
    && |result.nodeLatenciesMs| == l + |hops| && |result.nodePeakMemoryMb| == m + |hops|
    && (forall k :: 0 <= k < l ==> result.nodeLatenciesMs[k] == request.nodeLatenciesMs[k])
    && (forall k :: 0 <= k < m ==> result.nodePeakMemoryMb[k] == request.nodePeakMemoryMb[k])
    && (forall k :: 0 <= k < |hops| ==> result.nodeLatenciesMs[l + k] == hops[k].elapsedMs)
    && (forall k :: 0 <= k < |hops| ==> result.nodePeakMemoryMb[m + k] == hops[k].peakMemoryMb)
  }

  /** One deliver() for the request, with all readings, or none. */
  ghost predicate DeliversReadings<S, R>(
    before: seq<Message<PipelineResult<R>>>, after: seq<Message<PipelineResult<R>>>, request: RunShardRequest<R>,
    hops: seq<Hop<S>>)
  {
    || after == before
    || (|after| == |before| + 1 && after[..|before|] == before && after[|before|].id == request.requestId &&
        Readings(after[|before|].result, request, hops))
  }

  lemma {:induction false} AfterPassReadings<S, R>(
    view: StoreView<PipelineResult<R>>, request: RunShardRequest<R>, out: Option<seq<R>>, hops: seq<Hop<S>>)
    ensures DeliversReadings(view.delivers, AfterPass(view, request, out, hops).delivers, request, hops)
  {
  }

  // ---------- The heap the program runs on ----------

  ghost function CacheObjects<S, R>(hs: seq<ModelHandle<S, R>>): set<RecurrentCache<S>> {
    set k | 0 <= k < |hs| :: hs[k].cache
  }

  ghost function Models<S, R>(hs: seq<ModelHandle<S, R>>): (ms: seq<ShardModule<S, R>>)
    ensures |ms| == |hs|
  {
    if hs == [] then [] else [hs[0].model] + Models(hs[1..])
  }

  ghost function Caches<S, R>(hs: seq<ModelHandle<S, R>>): (cs: seq<CacheEntry<S>>)
    reads CacheObjects(hs)
    ensures |cs| == |hs|
  {
    if hs == [] then [] else [hs[0].cache.layers] + Caches(hs[1..])
  }

  /** No two handles share a cache. */
  ghost predicate Separate<S, R>(hs: seq<ModelHandle<S, R>>) {
    forall i, j :: 0 <= i < j < |hs| ==> hs[i].cache != hs[j].cache
  }

  class InferenceServiceServicer<S, R> {
    var models: map<string, ModelHandle<S, R>>
    var loading: set<string>
    var threads: seq<WorkerLoad.Thread>             // the background threads started so far
    ghost var log: seq<WorkerLoad.Happening>

    constructor ()
      ensures models == map[] && WorkerLoad.Init(LoadState())
    {
      models, loading, threads, log := map[], {}, [], [];
    }

    /** This worker as module WorkerLoad sees it. */
    ghost function LoadState(): WorkerLoad.State<ModelHandle<S, R>>
      reads this
    {
      WorkerLoad.State(models, loading, threads, log)
    }

    method LoadShard(request: WorkerLoad.LoadRequest) returns (response: WorkerLoad.LoadResponse)
      modifies this`loading, this`threads, this`log
      ensures LoadState() == WorkerLoad.After(old(LoadState()), WorkerLoad.Load(request))
      ensures log == old(log) +
                [if response.success then WorkerLoad.Accepted(request) else WorkerLoad.Rejected(request)]
      ensures response.success ==> response.error == ""
      ensures !response.success ==> response.error == WorkerLoad.AlreadyLoaded(request.modelName)
      ensures response.success <==> request.modelName in models || request.modelName !in old(loading)
      ensures loading == if request.modelName in models then old(loading) else old(loading) + {request.modelName}
      ensures !response.success ==> threads == old(threads)
      ensures response.success ==>
                |threads| == |old(threads)| + 1 && threads[..|old(threads)|] == old(threads) &&
                var thread := threads[|old(threads)|];
                && thread.request == request
                && (request.modelName in models ==>
                      thread.phase == WorkerLoad.Reporting(
                        WorkerLoad.Report(true, "", request.layerEnd - request.layerStart)))
                && (request.modelName !in models ==> thread.phase == WorkerLoad.Loading)
    {
      if request.modelName in models {
        threads := threads + [WorkerLoad.Thread(request, WorkerLoad.Reporting(WorkerLoad.LoadedReport(request)))];
        log := log + [WorkerLoad.Accepted(request)];
        return WorkerLoad.LoadResponse(true, "");
      }
      if request.modelName in loading {
        log := log + [WorkerLoad.Rejected(request)];
        return WorkerLoad.LoadResponse(false, WorkerLoad.AlreadyLoaded(request.modelName));
      }
      loading := loading + {request.modelName};
      threads := threads + [WorkerLoad.Thread(request, WorkerLoad.Loading)];
      log := log + [WorkerLoad.Accepted(request)];
      return WorkerLoad.LoadResponse(true, "");
    }

    /** The background thread records what load_shard_from_metadata returned or raised. */
    method FinishLoad(t: nat, outcome: Result<ModelHandle<S, R>, string>)
      requires WorkerLoad.Enabled(LoadState(), WorkerLoad.Finish(t, outcome))
      modifies this`models, this`loading, this`threads
      ensures LoadState() == WorkerLoad.After(old(LoadState()), WorkerLoad.Finish(t, outcome))
      ensures var request := old(threads)[t].request;
              && loading == old(loading) - {request.modelName}
              && models == (if outcome.Ok? then old(models)[request.modelName := outcome.value] else old(models))
              && |threads| == |old(threads)|
              && (forall u :: 0 <= u < |threads| && u != t ==> threads[u] == old(threads)[u])
              && threads[t].request == request
              && threads[t].phase == WorkerLoad.Reporting(
                   if outcome.Ok? then WorkerLoad.Report(true, "", request.layerEnd - request.layerStart)
                   else WorkerLoad.Report(false, outcome.error, 0))
    {
      var request := threads[t].request;
      var report := WorkerLoad.LoadedReport(request);
      match outcome {
        case Ok(handle) => models := models[request.modelName := handle];
        case Err(error) => report := WorkerLoad.Report(false, error, 0);
      }
      loading := loading - {request.modelName};
      threads := threads[t := WorkerLoad.Thread(request, WorkerLoad.Reporting(report))];
    }

    /** The thread's one call of ReportShardReady; whether it arrives is not this worker's concern. */
    method ReportShardReady(t: nat) returns (report: WorkerLoad.Report)
      requires WorkerLoad.Enabled<ModelHandle<S, R>>(LoadState(), WorkerLoad.Attempt(t))
      modifies this`threads, this`log
      ensures LoadState() == WorkerLoad.After(old(LoadState()), WorkerLoad.Attempt(t))
      ensures old(threads)[t].phase == WorkerLoad.Reporting(report)
      ensures |threads| == |old(threads)| && threads[t].phase == WorkerLoad.Done(report)
      ensures forall u :: 0 <= u < |threads| && u != t ==> threads[u] == old(threads)[u]
      ensures log == old(log) + [WorkerLoad.Attempted(old(threads)[t].request, report)]
    {
      var thread := threads[t];
      report := thread.phase.report;
      threads := threads[t := WorkerLoad.Thread(thread.request, WorkerLoad.Done(report))];
      log := log + [WorkerLoad.Attempted(thread.request, report)];
    }

    method UnloadShard(name: string) returns (handle: Option<ModelHandle<S, R>>)
      modifies this`models
      ensures handle == if name in old(models) then Some(old(models)[name]) else None
      ensures LoadState() == WorkerLoad.After(old(LoadState()), WorkerLoad.Unload(name))
      ensures models.Keys == old(models).Keys - {name}
      ensures forall other :: other in models ==> models[other] == old(models)[other]
      ensures loading == old(loading) && threads == old(threads) && log == old(log)
    {
      handle := if name in models then Some(models[name]) else None;
      models := models - {name};
    }

    /** This worker's own part of RunShard: reset or reuse the cache, then run the shard. */
    method Compute(handle: ModelHandle<S, R>, x: seq<R>, reset: bool, fault: HopFault<S>) returns (out: Option<seq<R>>)
      requires Sized(handle.model, handle.cache.layers)
      modifies handle.cache
      ensures (handle.cache.layers, if StopsHere(fault) then None else out)
                == HopSpec(handle.model, old(handle.cache.layers), x, reset, fault)
      ensures fault == Computes(NoFault) || fault.ReplyLost? ==> out.Some?
      ensures fault.Undecodable? || (fault.Computes? && fault != Computes(NoFault)) ==> out.None?
    {
      if fault.Undecodable? {
        return None;
      }
      if reset || handle.cache.layers == None {
        NewCache(handle.model, handle.cache);
      }
      out := Forward(handle.model, x, handle.cache, if fault.Computes? then fault.fault else NoFault);
    }

    /** Run one request here and, through the network, on every worker after this one. */
    method RunShard(
      request: RunShardRequest<R>, net: map<string, InferenceServiceServicer<S, R>>,
      callbacks: ResultStore<PipelineResult<R>>, hops: seq<Hop<S>>, ghost hs: seq<ModelHandle<S, R>>, ghost whole: bool)
      returns (reply: Reply)
      requires |hs| == |hops|
      requires request.modelName in models ==>
                 && |hs| > 0 && hs[0] == models[request.modelName]
                 && Separate(hs) && AllSized(Models(hs), Caches(hs))
                 && LinkedFrom(net, request.modelName, hs[0].nextWorkerAddress, hs[1..], whole)
      modifies CacheObjects(hs), callbacks
      ensures request.modelName !in models ==>
                && reply == NotFound
                && callbacks.View() == old(callbacks.View())
                && Caches(hs) == old(Caches(hs))
      ensures request.modelName in models ==>
                && reply.Response?
                && PassDone(hs, old(Caches(hs)), request, hops, old(callbacks.View()), callbacks.View(), whole)
                && DeliversReadings(old(callbacks.delivers), callbacks.delivers, request, hops)
                && reply == Response(hops[0].fault == Computes(NoFault) && (whole || |hs| > 1))
      decreases |hs|, 1
    {
      hide ChainSpec, AfterPass, LinkedFrom, Readings, Separate, AllSized;
      if request.modelName !in models {
        return NotFound;
      }
      ghost var view := callbacks.View();
      reply := RunLoaded(models[request.modelName], request, net, callbacks, hops, hs, whole);
      ghost var r := ChainSpec(Models(hs), old(Caches(hs)), request.input, request.resetCache, hops);
      AfterPassReadings(view, request, if whole then r.1 else None, hops);
    }

    /** The request meets the model here, the first of the chain. */
    method RunLoaded(
      handle: ModelHandle<S, R>, request: RunShardRequest<R>, net: map<string, InferenceServiceServicer<S, R>>,
      callbacks: ResultStore<PipelineResult<R>>, hops: seq<Hop<S>>, ghost hs: seq<ModelHandle<S, R>>, ghost whole: bool)
      returns (reply: Reply)
      requires |hs| == |hops| > 0 && hs[0] == handle && Separate(hs) && AllSized(Models(hs), Caches(hs))
      requires LinkedFrom(net, request.modelName, handle.nextWorkerAddress, hs[1..], whole)
      modifies CacheObjects(hs), callbacks
      ensures reply == Response(hops[0].fault == Computes(NoFault) && (whole || |hs| > 1))
      ensures PassDone(hs, old(Caches(hs)), request, hops, old(callbacks.View()), callbacks.View(), whole)
      decreases |hs|, 0
    {
      hide HopSpec, ChainSpec, AfterPass, LinkedFrom;
      var hop := hops[0];
      ghost var rest := hs[1..];
      ghost var caches, view := Caches(hs), callbacks.View();
      var out := ComputeFirst(handle, request, hop.fault, hs);
      if out.None? || StopsHere(hop.fault) {
        PassStops(hs, caches, request, hops, view, whole);
        return Response(false);
      }
      var ok := HandOn(handle.nextWorkerAddress, Forwarded(request, out.value, hop), net, callbacks, hops[1..], rest,
                       whole);
      PassExtends(hs, caches, request, out.value, hops, view, callbacks.View(), whole);
      return Response(ok && hop.fault != ReplyLost);
    }

    /** This worker's own part, and what it leaves to the workers after it. */
    method ComputeFirst(handle: ModelHandle<S, R>, request: RunShardRequest<R>, fault: HopFault<S>,
                        ghost hs: seq<ModelHandle<S, R>>) returns (out: Option<seq<R>>)
      requires hs != [] && hs[0] == handle && Separate(hs) && AllSized(Models(hs), Caches(hs))
      modifies handle.cache
      ensures (handle.cache.layers, if StopsHere(fault) then None else out)
                == HopSpec(handle.model, old(Caches(hs))[0], request.input, request.resetCache, fault)
      ensures fault == Computes(NoFault) || fault.ReplyLost? ==> out.Some?
      ensures fault.Undecodable? || (fault.Computes? && fault != Computes(NoFault)) ==> out.None?
      ensures Caches(hs[1..]) == old(Caches(hs))[1..] && Separate(hs[1..])
      ensures AllSized(Models(hs[1..]), Caches(hs[1..]))
      ensures CacheObjects(hs) == {handle.cache} + CacheObjects(hs[1..]) && handle.cache !in CacheObjects(hs[1..])
    {
      hide HopSpec;
      FirstAndRest(hs);
      out := Compute(handle, request.input, request.resetCache, fault);
    }

    /** Forward to the next worker, or deliver when there is none.  A next worker that does not
        answer, or no longer holds the model, makes the call raise. */
    method HandOn(
      next: string, request: RunShardRequest<R>, net: map<string, InferenceServiceServicer<S, R>>,
      callbacks: ResultStore<PipelineResult<R>>, hops: seq<Hop<S>>, ghost rest: seq<ModelHandle<S, R>>,
      ghost whole: bool)
      returns (ok: bool)
      requires |rest| == |hops|
      requires LinkedFrom(net, request.modelName, next, rest, whole)
      requires Separate(rest) && AllSized(Models(rest), Caches(rest))
      modifies CacheObjects(rest), callbacks
      ensures PassDone(rest, old(Caches(rest)), request, hops, old(callbacks.View()), callbacks.View(), whole)
      ensures ok <==> whole || rest != []
      decreases |rest|, 2
    {
      if next == "" {
        var _ := callbacks.Deliver(request.requestId,
                                   PipelineResult(request.input, request.nodeLatenciesMs, request.nodePeakMemoryMb));
        assert request.nodeLatenciesMs + Latencies(hops) == request.nodeLatenciesMs;
        assert request.nodePeakMemoryMb + Memories(hops) == request.nodePeakMemoryMb;
        return true;
      }
      if next !in net {
        return false;
      }
      var reply := net[next].RunShard(request, net, callbacks, hops, rest, whole);
      return reply.Response?;
    }
  }

  /** The whole effect of one pass over the chain hs. */
  ghost predicate PassDone<S, R>(
    hs: seq<ModelHandle<S, R>>, caches: seq<CacheEntry<S>>, request: RunShardRequest<R>, hops: seq<Hop<S>>,
    before: StoreView<PipelineResult<R>>, after: StoreView<PipelineResult<R>>, whole: bool)
    requires |hs| == |hops|
    reads CacheObjects(hs)
  {
    && AllSized(Models(hs), caches)
    && var r := ChainSpec(Models(hs), caches, request.input, request.resetCache, hops);
       && Caches(hs) == r.0
       && after == AfterPass(before, request, if whole then r.1 else None, hops)
  }

  lemma {:induction false} FirstAndRest<S, R>(hs: seq<ModelHandle<S, R>>)
    requires hs != [] && Separate(hs) && AllSized(Models(hs), Caches(hs))
    ensures Models(hs)[0] == hs[0].model && Models(hs)[1..] == Models(hs[1..])
    ensures Caches(hs)[0] == hs[0].cache.layers && Caches(hs)[1..] == Caches(hs[1..])
    ensures Sized(hs[0].model, hs[0].cache.layers) && AllSized(Models(hs[1..]), Caches(hs[1..]))
    ensures CacheObjects(hs) == {hs[0].cache} + CacheObjects(hs[1..]) && hs[0].cache !in CacheObjects(hs[1..])
    ensures Separate(hs[1..])
  {
    assert Models(hs)[1..] == Models(hs[1..]) && Caches(hs)[1..] == Caches(hs[1..]);
    assert Sized(Models(hs)[0], Caches(hs)[0]);
    forall k | 0 <= k < |hs| - 1
      ensures Sized(Models(hs[1..])[k], Caches(hs[1..])[k])
    {
      assert Sized(Models(hs)[k + 1], Caches(hs)[k + 1]);
    }
  }

  /** A pass that ends at its first worker. */
  lemma {:induction false} PassStops<S, R>(
    hs: seq<ModelHandle<S, R>>, caches: seq<CacheEntry<S>>, request: RunShardRequest<R>, hops: seq<Hop<S>>,
    view: StoreView<PipelineResult<R>>, whole: bool)
    requires |hs| == |hops| > 0 && AllSized(Models(hs), caches) && Caches(hs[1..]) == caches[1..]
    requires HopSpec(hs[0].model, caches[0], request.input, request.resetCache, hops[0].fault)
               == (hs[0].cache.layers, None)
    ensures PassDone(hs, caches, request, hops, view, view, whole)
  {
    hide HopSpec;
  }

  lemma {:induction false} PassExtends<S, R>(
    hs: seq<ModelHandle<S, R>>, caches: seq<CacheEntry<S>>, request: RunShardRequest<R>, out: seq<R>, hops: seq<Hop<S>>,
    before: StoreView<PipelineResult<R>>, after: StoreView<PipelineResult<R>>, whole: bool)
    requires |hs| == |hops| > 0 && AllSized(Models(hs), caches)
    requires HopSpec(hs[0].model, caches[0], request.input, request.resetCache, hops[0].fault) ==
               (hs[0].cache.layers, Some(out))
    requires PassDone(hs[1..], caches[1..], Forwarded(request, out, hops[0]), hops[1..], before, after, whole)
    ensures PassDone(hs, caches, request, hops, before, after, whole)
  {
    var rest := ChainSpec(Models(hs[1..]), caches[1..], out, request.resetCache, hops[1..]);
    assert ChainSpec(Models(hs), caches, request.input, request.resetCache, hops) ==
             ([hs[0].cache.layers] + rest.0, rest.1) by {
      assert Models(hs)[1..] == Models(hs[1..]);
    }
    AfterPassForwarded(before, request, out, if whole then rest.1 else None, hops);
  }

  function Forwarded<S, R>(request: RunShardRequest<R>, out: seq<R>, hop: Hop<S>): RunShardRequest<R> {
    RunShardRequest(request.modelName, out, request.requestId, request.nodeLatenciesMs + [hop.elapsedMs],
                    request.nodePeakMemoryMb + [hop.peakMemoryMb], request.resetCache)
  }

  lemma {:induction false} AfterPassForwarded<S, R>(
    view: StoreView<PipelineResult<R>>, request: RunShardRequest<R>, x: seq<R>, out: Option<seq<R>>,
    hops: seq<Hop<S>>)
    requires hops != []
    ensures AfterPass(view, Forwarded(request, x, hops[0]), out, hops[1..]) == AfterPass(view, request, out, hops)
  {
    assert request.nodeLatenciesMs + Latencies(hops)
        == (request.nodeLatenciesMs + [hops[0].elapsedMs]) + Latencies(hops[1..]);
    assert request.nodePeakMemoryMb + Memories(hops)
        == (request.nodePeakMemoryMb + [hops[0].peakMemoryMb]) + Memories(hops[1..]);
  }

  /** Following next addresses, starting from `next`, visits hs in order; there the chain is whole and
      stops, or it is broken: the next worker does not answer or does not hold the model. */
  ghost predicate LinkedFrom<S, R>(net: map<string, InferenceServiceServicer<S, R>>, name: string, next: string,
                                   hs: seq<ModelHandle<S, R>>, whole: bool)
    reads net.Values
    decreases |hs|
  {
    if hs == [] then
      if whole then next == "" else next != "" && (next in net ==> name !in net[next].models)
    else
      && next != "" && next in net
      && name in net[next].models && net[next].models[name] == hs[0]
      && LinkedFrom(net, name, hs[0].nextWorkerAddress, hs[1..], whole)
  }
}
