/**
 Any number of generate / generate_stream calls on one PipelineRunner, interleaved.

 Each caller consumes its own generator; between two of its steps any other caller may move, a worker
 may run a hop of a pass that an earlier step gave up on, and a worker's model may be unloaded and
 loaded again.  The generator holds the generation lock from its first step until it is exhausted,
 fails or is closed, so only the holder can take a step.  The effect of one step on the workers is
 StepSpec, which PipelineRunner.RunShardStep is proved to have; module Interference says why a stray
 hop need only be considered between steps.
 */
module GenerationLock {
  import opened Wrappers
  import opened Recurrence
  import opened Shard
  import opened Worker
  import opened Sharding
  import opened Pipeline

  datatype CallerPhase = Waiting | Holding | Exhausted | Failed | Closed

  /** A caller, what it asked for, and the tokens and logits rows it has received. */
  datatype Caller<+R> = Caller(
    prompt: seq<R>, maxNewTokens: int, yielded: seq<R>, outputs: seq<seq<R>>, phase: CallerPhase)

  /** What is left of a pass that its step gave up on: the next worker, and what reaches it. */
  datatype LoosePass<+R> = LoosePass(k: nat, input: seq<R>, reset: bool)

  datatype System<+S, +R> = System(
    caches: seq<CacheEntry<S>>, lock: Option<nat>, callers: seq<Caller<R>>, loose: seq<LoosePass<R>>)

  /** A hop of such a pass, with its fault. */
  datatype StrayHop<+S, +R> = StrayHop(k: nat, input: seq<R>, reset: bool, fault: HopFault<S>)

  datatype Action<+S, +R> =
    | Arrive(prompt: seq<R>, maxNewTokens: int)   // a new generator is created
    | Acquire(c: nat)                             // its first next() gets the lock
    | Step(c: nat, env: StepEnv<S>)               // one turn of the loop body
    | Exhaust(c: nat)                             // range(max_new_tokens) runs out
    | Close(c: nat)                               // its consumer drops it
    | Stray(p: nat, fault: HopFault<S>)           // a worker runs the next hop of an abandoned pass
    | Fade(p: nat)                                // an abandoned pass comes to nothing
    | Reload(k: nat)                              // worker k unloads the model and loads it again

  ghost predicate Enabled<S, R>(n: nat, s: System<S, R>, a: Action<S, R>) {
    match a
    case Arrive(_, _) => true
    case Acquire(c) => c < |s.callers| && s.callers[c].phase == Waiting && s.lock == None
    case Step(c, env) =>
      && c < |s.callers| && s.callers[c].phase == Holding
      && |s.callers[c].yielded| < s.callers[c].maxNewTokens && |env.hops| == n
    case Exhaust(c) =>
      c < |s.callers| && s.callers[c].phase == Holding && |s.callers[c].yielded| >= s.callers[c].maxNewTokens
    case Close(c) => c < |s.callers| && (s.callers[c].phase == Holding || s.callers[c].phase == Waiting)
    case Stray(p, _) => p < |s.loose| && s.loose[p].k < n
    case Fade(p) => p < |s.loose|
    case Reload(k) => k < n
  }

  /** One turn of the loop body: the caches it leaves, and its caller, who has failed or has one more token. */
  ghost function Turn<S, R>(
    m: LanguageModel<S, R>, ms: seq<ShardModule<S, R>>, caches: seq<CacheEntry<S>>, me: Caller<R>, env: StepEnv<S>)
    : (r: (seq<CacheEntry<S>>, Caller<R>))
    requires AllSized(ms, caches) && |env.hops| == |ms|
    ensures AllSized(ms, r.0)
  {
    var k := |me.yielded|;
    var r := StepSpec(ms, caches, StepInput(me.prompt + me.yielded, k), k == 0, env);
    (r.0,
     if r.1.Err? || r.1.value.rows == [] then me.(phase := Failed)
     else me.(yielded := me.yielded + [m.pick(r.1.value.rows[|r.1.value.rows| - 1])],
              outputs := me.outputs + [r.1.value.rows]))
  }

  ghost function After<S, R>(m: LanguageModel<S, R>, ms: seq<ShardModule<S, R>>, s: System<S, R>, a: Action<S, R>)
    : System<S, R>
    requires AllSized(ms, s.caches) && Enabled(|ms|, s, a)
  {
    match a
    case Arrive(prompt, n) => s.(callers := s.callers + [Caller(prompt, n, [], [], Waiting)])
    case Acquire(c) => s.(lock := Some(c), callers := s.callers[c := s.callers[c].(phase := Holding)])
    case Step(c, env) =>
      var turn := Turn(m, ms, s.caches, s.callers[c], env);
      System(turn.0, if turn.1.phase == Holding then s.lock else None, s.callers[c := turn.1],
             s.loose + Leftover(ms, s.caches, s.callers[c], env))
    case Exhaust(c) => s.(lock := None, callers := s.callers[c := s.callers[c].(phase := Exhausted)])
    case Close(c) =>
      s.(lock := if s.callers[c].phase == Holding then None else s.lock,
         callers := s.callers[c := s.callers[c].(phase := Closed)])
    case Stray(p, fault) =>
      var hop := HopOf(s.loose[p], fault);
      s.(caches := AfterStray(ms, s.caches, hop),
         loose := s.loose[..p] + Onward(ms, s.caches, hop) + s.loose[p + 1..])
    case Fade(p) => s.(loose := s.loose[..p] + s.loose[p + 1..])
    case Reload(k) => s.(caches := s.caches[k := None])
  }

  ghost function HopOf<S, R>(pass: LoosePass<R>, fault: HopFault<S>): StrayHop<S, R> {
    StrayHop(pass.k, pass.input, pass.reset, fault)
  }

  /** The rows a hop hands on, to a next worker that may no longer be waited for. */
  ghost function Out<S, R>(shard: ShardModule<S, R>, cache: CacheEntry<S>, x: seq<R>, reset: bool, fault: HopFault<S>)
    : Option<seq<R>>
    requires Sized(shard, cache)
  {
    if fault.RunsLate? then HopSpec(shard, cache, x, reset, ReplyLost).1 else HopSpec(shard, cache, x, reset, fault).1
  }

  /** What is left of an abandoned pass after this hop of it. */
  ghost function Onward<S, R>(ms: seq<ShardModule<S, R>>, caches: seq<CacheEntry<S>>, hop: StrayHop<S, R>)
    : seq<LoosePass<R>>
    requires AllSized(ms, caches) && hop.k < |ms|
  {
    var out := Out(ms[hop.k], caches[hop.k], hop.input, hop.reset, hop.fault);
    if out.Some? && hop.k + 1 < |ms| then [LoosePass(hop.k + 1, out.value, hop.reset)] else []
  }

  /** What is left of a pass from its k-th worker on, when one of its hops runs late. */
  ghost function LateRest<S, R>(ms: seq<ShardModule<S, R>>, caches: seq<CacheEntry<S>>, x: seq<R>, reset: bool,
                                hops: seq<Hop<S>>, k: nat): seq<LoosePass<R>>
    requires AllSized(ms, caches) && |hops| == |ms|
    decreases |ms|
  {
    if ms == [] then []
    else
      var out := Out(ms[0], caches[0], x, reset, hops[0].fault);
      if out.None? then []
      else if hops[0].fault.RunsLate? then (if |ms| > 1 then [LoosePass(k + 1, out.value, reset)] else [])
      else LateRest(ms[1..], caches[1..], out.value, reset, hops[1..], k + 1)
  }

  /** What a pass that breaks off at its j-th worker leaves behind: the rest of it, with the rows that
      this worker goes on to hand to the next, when the worker runs late, and otherwise nothing. */
  ghost predicate LeavesRest<S, R>(ms: seq<ShardModule<S, R>>, caches: seq<CacheEntry<S>>, x: seq<R>, reset: bool,
                                   hops: seq<Hop<S>>, k: nat, j: nat)
    requires AllSized(ms, caches) && |hops| == |ms| && j < |ms|
  {
    assert Sized(ms[j], caches[j]);
    var before := ChainSpec(ms[..j], caches[..j], x, reset, hops[..j]);
    && before.1.Some?
    && var rows := HopSpec(ms[j], caches[j], before.1.value, reset, ReplyLost).1;
       && rows.Some?
       && LateRest(ms, caches, x, reset, hops, k) ==
            if hops[j].fault.RunsLate? && j + 1 < |ms| then [LoosePass(k + j + 1, rows.value, reset)] else []
  }

  lemma {:induction false} BreakLeaves<S, R>(
    ms: seq<ShardModule<S, R>>, caches: seq<CacheEntry<S>>, x: seq<R>, reset: bool, hops: seq<Hop<S>>, k: nat, j: nat)
    requires AllSized(ms, caches) && |hops| == |ms| && BreaksAt(hops, j)
    ensures LeavesRest(ms, caches, x, reset, hops, k, j)
    decreases j
  {
    hide HopSpec, ChainSpec, LateRest, LeavesRest;
    var first := hops[0];
    OneHopClean(ms[0], caches[0], x, reset, first);
    if j == 0 {
      LeavesAtFirst(ms, caches, x, reset, hops, k);
    } else {
      assert Clean(hops[..j][0]);
      assert hops[..j][1..] == hops[1..][..j - 1];
      var h := HopSpec(ms[0], caches[0], x, reset, first.fault);
      BreakLeaves(ms[1..], caches[1..], h.1.value, reset, hops[1..], k + 1, j - 1);
      LeavesLater(ms, caches, x, reset, hops, k, j);
    }
  }

  lemma {:induction false} LeavesAtFirst<S, R>(
    ms: seq<ShardModule<S, R>>, caches: seq<CacheEntry<S>>, x: seq<R>, reset: bool, hops: seq<Hop<S>>, k: nat)
    requires AllSized(ms, caches) && |hops| == |ms| > 0 && !Clean(hops[0])
    ensures LeavesRest(ms, caches, x, reset, hops, k, 0)
  {
    hide HopSpec;
    OneHopClean(ms[0], caches[0], x, reset, hops[0]);
    OneHopClean(ms[0], caches[0], x, reset, hops[0].(fault := ReplyLost));
    assert ms[..0] == [] && caches[..0] == [] && hops[..0] == [];
  }

  lemma {:induction false} LeavesLater<S, R>(
    ms: seq<ShardModule<S, R>>, caches: seq<CacheEntry<S>>, x: seq<R>, reset: bool, hops: seq<Hop<S>>, k: nat, j: nat)
    requires AllSized(ms, caches) && |hops| == |ms| && 0 < j < |ms| && Clean(hops[0])
    requires AllSized(ms[1..], caches[1..])
    requires var h := HopSpec(ms[0], caches[0], x, reset, hops[0].fault);
             h.1.Some? && LeavesRest(ms[1..], caches[1..], h.1.value, reset, hops[1..], k + 1, j - 1)
    ensures LeavesRest(ms, caches, x, reset, hops, k, j)
  {
    hide HopSpec, ChainSpec;
    assert |ms| == |caches| && Sized(ms[0], caches[0]) && Sized(ms[j], caches[j]);
    hide AllSized;
    FirstHopOf(ms, caches, x, reset, hops, j);
    assert ms[1..][j - 1] == ms[j] && caches[1..][j - 1] == caches[j] && hops[1..][j - 1] == hops[j];
  }

  /** What is left of a turn's pass: all of it when the call was given up before it took effect, and
      otherwise what comes after a hop that runs late. */
  ghost function Leftover<S, R>(ms: seq<ShardModule<S, R>>, caches: seq<CacheEntry<S>>, me: Caller<R>, env: StepEnv<S>)
    : seq<LoosePass<R>>
    requires AllSized(ms, caches) && |env.hops| == |ms|
  {
    var k := |me.yielded|;
    var input := StepInput(me.prompt + me.yielded, k);
    match env.reach
    case Unreachable => []
    case GivenUp => [LoosePass(0, input, k == 0)]
    case _ => LateRest(ms, caches, input, k == 0, env.hops, 0)
  }

  /** A step that leaves nothing of its pass behind: it is not given up, and no hop of it runs late. */
  ghost predicate Contained<S>(env: StepEnv<S>) {
    env.reach != GivenUp && forall k :: 0 <= k < |env.hops| ==> !env.hops[k].fault.RunsLate?
  }

  lemma {:induction false} NothingLate<S, R>(
    ms: seq<ShardModule<S, R>>, caches: seq<CacheEntry<S>>, x: seq<R>, reset: bool, hops: seq<Hop<S>>, k: nat)
    requires AllSized(ms, caches) && |hops| == |ms|
    requires forall j :: 0 <= j < |hops| ==> !hops[j].fault.RunsLate?
    ensures LateRest(ms, caches, x, reset, hops, k) == []
    decreases |ms|
  {
    hide HopSpec;
    if ms != [] {
      var out := Out(ms[0], caches[0], x, reset, hops[0].fault);
      if out.Some? {
        NothingLate(ms[1..], caches[1..], out.value, reset, hops[1..], k + 1);
      }
    }
  }

  lemma {:induction false} ContainedLeavesNothing<S, R>(
    ms: seq<ShardModule<S, R>>, caches: seq<CacheEntry<S>>, me: Caller<R>, env: StepEnv<S>)
    requires AllSized(ms, caches) && |env.hops| == |ms| && Contained(env)
    ensures Leftover(ms, caches, me, env) == []
  {
    var k := |me.yielded|;
    NothingLate(ms, caches, StepInput(me.prompt + me.yielded, k), k == 0, env.hops, 0);
  }

  ghost function AfterStray<S, R>(ms: seq<ShardModule<S, R>>, caches: seq<CacheEntry<S>>, hop: StrayHop<S, R>)
    : (after: seq<CacheEntry<S>>)
    requires AllSized(ms, caches) && hop.k < |ms|
    ensures AllSized(ms, after)
  {
    caches[hop.k := HopSpec(ms[hop.k], caches[hop.k], hop.input, hop.reset, hop.fault).0]
  }

  /** The caches once an abandoned pass has run to its end with nothing in between; its hop on worker
      i has the i-th fault. */
  ghost function RunOut<S, R>(
    ms: seq<ShardModule<S, R>>, caches: seq<CacheEntry<S>>, pass: LoosePass<R>, hops: seq<Hop<S>>)
    : seq<CacheEntry<S>>
    requires AllSized(ms, caches) && |hops| == |ms| && pass.k < |ms|
    decreases |ms| - pass.k
  {
    var hop := HopOf(pass, hops[pass.k].fault);
    var after, rest := AfterStray(ms, caches, hop), Onward(ms, caches, hop);
    if rest == [] || !(pass.k < rest[0].k < |ms|) then after else RunOut(ms, after, rest[0], hops)
  }

  /** An abandoned pass that nothing interferes with does what it would have done in time. */
  lemma {:induction false} RunOutIsPass<S, R>(
    ms: seq<ShardModule<S, R>>, caches: seq<CacheEntry<S>>, pass: LoosePass<R>, hops: seq<Hop<S>>)
    requires AllSized(ms, caches) && |hops| == |ms| && pass.k < |ms|
    requires forall j :: 0 <= j < |hops| ==> !hops[j].fault.RunsLate?
    ensures RunOut(ms, caches, pass, hops) ==
              caches[..pass.k] + ChainSpec(ms[pass.k..], caches[pass.k..], pass.input, pass.reset, hops[pass.k..]).0
    decreases |ms| - pass.k
  {
    hide HopSpec, RunOut, ChainSpec, AfterStray, Onward, HopOf;
    var k := pass.k;
    var h := HopSpec(ms[k], caches[k], pass.input, pass.reset, hops[k].fault);
    RunOutStep(ms, caches, pass, hops);
    ChainFrom(ms, caches, pass.input, pass.reset, hops, k);
    UpdatedAt(caches, k, h.0);
    if h.1.Some? && k + 1 < |ms| {
      RunOutIsPass(ms, caches[k := h.0], LoosePass(k + 1, h.1.value, pass.reset), hops);
      hide AllSized;
      Regrouped(caches[..k], [h.0],
                ChainSpec(ms[k + 1..], caches[k + 1..], h.1.value, pass.reset, hops[k + 1..]).0);
    }
  }

  lemma {:induction false} Regrouped<T>(a: seq<T>, b: seq<T>, c: seq<T>)
    ensures (a + b) + c == a + (b + c)
  {
  }

  lemma {:induction false} UpdatedAt<T>(s: seq<T>, k: nat, v: T)
    requires k < |s|
    ensures s[k := v] == s[..k] + ([v] + s[k + 1..])
    ensures s[k := v][..k + 1] == s[..k] + [v] && s[k := v][k + 1..] == s[k + 1..]
  {
  }

  lemma {:induction false} RunOutStep<S, R>(
    ms: seq<ShardModule<S, R>>, caches: seq<CacheEntry<S>>, pass: LoosePass<R>, hops: seq<Hop<S>>)
    requires AllSized(ms, caches) && |hops| == |ms| && pass.k < |ms| && !hops[pass.k].fault.RunsLate?
    ensures var k := pass.k;
            var h := HopSpec(ms[k], caches[k], pass.input, pass.reset, hops[k].fault);
            && AllSized(ms, caches[k := h.0])
            && RunOut(ms, caches, pass, hops) ==
                 if h.1.Some? && k + 1 < |ms| then
                   RunOut(ms, caches[k := h.0], LoosePass(k + 1, h.1.value, pass.reset), hops)
                 else caches[k := h.0]
  {
    hide HopSpec;
  }

  lemma {:induction false} ChainFrom<S, R>(
    ms: seq<ShardModule<S, R>>, caches: seq<CacheEntry<S>>, x: seq<R>, reset: bool, hops: seq<Hop<S>>, k: nat)
    requires AllSized(ms, caches) && |hops| == |ms| && k < |ms|
    ensures AllSized(ms[k..], caches[k..]) && AllSized(ms[k + 1..], caches[k + 1..])
    ensures var h := HopSpec(ms[k], caches[k], x, reset, hops[k].fault);
            ChainSpec(ms[k..], caches[k..], x, reset, hops[k..]).0 ==
              [h.0] + if h.1.None? || k + 1 == |ms| then caches[k + 1..]
                      else ChainSpec(ms[k + 1..], caches[k + 1..], h.1.value, reset, hops[k + 1..]).0
  {
    hide HopSpec;
    assert ms[k..][1..] == ms[k + 1..] && caches[k..][1..] == caches[k + 1..] && hops[k..][1..] == hops[k + 1..];
  }

  /** Some generation has taken its first step, which resets every cache, and is still running. */
  ghost predicate UnderWay<S, R>(s: System<S, R>) {
    s.lock.Some? && s.lock.value < |s.callers| && s.callers[s.lock.value].yielded != []
  }

  /** A stray hop or a reload does no harm to a running generation when there is none, or, for a hop,
      when it leaves its worker's cache as it was. */
  ghost predicate Harmless<S, R>(ms: seq<ShardModule<S, R>>, s: System<S, R>, a: Action<S, R>)
    requires AllSized(ms, s.caches) && Enabled(|ms|, s, a)
  {
    UnderWay(s) ==>
      && (a.Stray? ==> AfterStray(ms, s.caches, HopOf(s.loose[a.p], a.fault)) == s.caches)
      && !a.Reload?
  }

  /** The states s0, s1, ... of a run, each following from the one before by an enabled action. */
  ghost predicate IsRun<S, R>(
    m: LanguageModel<S, R>, ms: seq<ShardModule<S, R>>, states: seq<System<S, R>>, actions: seq<Action<S, R>>) {
    && |states| == |actions| + 1
    && forall i, j :: 0 <= i < |actions| && j == i + 1 ==> Follows(m, ms, states[i], actions[i], states[j])
  }

  ghost predicate Follows<S, R>(
    m: LanguageModel<S, R>, ms: seq<ShardModule<S, R>>, s: System<S, R>, a: Action<S, R>, s': System<S, R>) {
    AllSized(ms, s.caches) && Enabled(|ms|, s, a) && s' == After(m, ms, s, a)
  }

  ghost predicate DoesNoHarm<S, R>(ms: seq<ShardModule<S, R>>, s: System<S, R>, a: Action<S, R>) {
    AllSized(ms, s.caches) && Enabled(|ms|, s, a) && Harmless(ms, s, a)
  }

  ghost predicate AllHarmless<S, R>(ms: seq<ShardModule<S, R>>, states: seq<System<S, R>>, actions: seq<Action<S, R>>)
    requires |states| == |actions| + 1
  {
    forall i :: 0 <= i < |actions| ==> DoesNoHarm(ms, states[i], actions[i])
  }

  /** Nobody has called yet; the workers' caches may hold anything left by anyone. */
  ghost predicate Init<S, R>(ms: seq<ShardModule<S, R>>, s: System<S, R>) {
    s.callers == [] && s.lock == None && AllSized(ms, s.caches)
  }

  // ---------- The invariant ----------

  /** The logits rows that n steps of greedy decoding of the whole, cache-free model come to. */
  ghost function GreedyRows<S, R>(m: LanguageModel<S, R>, prompt: seq<R>, n: nat): seq<seq<R>>
    requires n > 0 ==> prompt != []
  {
    if n == 0 then [] else GreedyRows(m, prompt, n - 1) + [StepRows(m, Greedy(m, prompt, n - 1), n - 1)]
  }

  ghost predicate Honest<S, R>(m: LanguageModel<S, R>, c: Caller<R>) {
    && (c.yielded != [] ==> c.prompt != [] && |c.yielded| <= c.maxNewTokens)
    && c.prompt + c.yielded == Greedy(m, c.prompt, |c.yielded|)
    && c.outputs == GreedyRows(m, c.prompt, |c.yielded|)
    && (c.phase == Waiting ==> c.yielded == [])
    && (c.phase == Exhausted ==> |c.yielded| >= c.maxNewTokens)
  }

  ghost predicate AllHonest<S, R>(m: LanguageModel<S, R>, callers: seq<Caller<R>>) {
    forall c :: 0 <= c < |callers| ==> Honest(m, callers[c])
  }

  /** The lock names the one caller that is between its first step and its end. */
  ghost predicate LockNamesHolder<R>(callers: seq<Caller<R>>, lock: Option<nat>) {
    && (forall c :: 0 <= c < |callers| ==> (callers[c].phase == Holding <==> lock == Some(c)))
    && (lock.Some? ==> lock.value < |callers|)
  }

  /** The workers' caches hold what the lock's holder has fed them. */
  ghost predicate HolderInStep<S, R>(
    m: LanguageModel<S, R>, cuts: seq<(nat, nat)>, caches: seq<CacheEntry<S>>, me: Caller<R>) {
    InStep(m, cuts, caches, me.prompt + me.yielded, |me.yielded|)
  }

  ghost predicate Inv<S, R>(
    m: LanguageModel<S, R>, cuts: seq<(nat, nat)>, ms: seq<ShardModule<S, R>>, s: System<S, R>) {
    && AllSized(ms, s.caches) && AllHonest(m, s.callers) && LockNamesHolder(s.callers, s.lock)
    && (s.lock.Some? ==> HolderInStep(m, cuts, s.caches, s.callers[s.lock.value]))
  }

  /** A clean turn on workers that are in step with `ids` takes the greedy token after `ids`,
      provided its caller sends what a generation with these ids would send. */
  lemma {:induction false} CleanTurn<S, R>(m: LanguageModel<S, R>, cuts: seq<(nat, nat)>, ms: seq<ShardModule<S, R>>,
                                           caches: seq<CacheEntry<S>>, me: Caller<R>, ids: seq<R>, env: StepEnv<S>)
    requires cuts != [] && cuts[0].0 == 0 && Sharded(m, cuts, ms) && AllSized(ms, caches) && |env.hops| == |ms|
    requires ids != [] && InStep(m, cuts, caches, ids, |me.yielded|) && StepClean(env)
    requires StepInput(me.prompt + me.yielded, |me.yielded|) == StepInput(ids, |me.yielded|)
    ensures var r := Turn(m, ms, caches, me, env);
            && r.1 == me.(yielded := me.yielded + [NextToken(m, ids)],
                          outputs := me.outputs + [StepRows(m, ids, |me.yielded|)])
            && Synced(m, cuts, r.0, ids)
  {
    StepYieldsNextToken(m, cuts, ms, caches, ids, |me.yielded|, env);
  }

  /** A turn that does not yield marks its caller failed. */
  lemma {:induction false} UncleanTurn<S, R>(
    m: LanguageModel<S, R>, ms: seq<ShardModule<S, R>>, caches: seq<CacheEntry<S>>, me: Caller<R>, env: StepEnv<S>)
    requires AllSized(ms, caches) && |env.hops| == |ms|
    requires !StepClean(env) || me.prompt + me.yielded == []
    ensures Turn(m, ms, caches, me, env).1 == me.(phase := Failed)
  {
    var k := |me.yielded|;
    StepSucceedsIffClean(ms, caches, StepInput(me.prompt + me.yielded, k), k == 0, env);
  }

  /** A caller that takes the next greedy token stays honest. */
  lemma {:induction false} HonestlyExtended<R, S>(m: LanguageModel<S, R>, me: Caller<R>, token: R)
    requires Honest(m, me) && me.phase == Holding && |me.yielded| < me.maxNewTokens
    requires me.prompt + me.yielded != [] && token == NextToken(m, me.prompt + me.yielded)
    ensures Honest(m, me.(yielded := me.yielded + [token],
                          outputs := me.outputs + [StepRows(m, me.prompt + me.yielded, |me.yielded|)]))
  {
    var ids := me.prompt + me.yielded;
    assert me.prompt + (me.yielded + [token]) == ids + [token];
    assert Greedy(m, me.prompt, |me.yielded| + 1) == ids + [token];
  }

  lemma {:induction false} SyncedIsInStep<S, R>(
    m: LanguageModel<S, R>, cuts: seq<(nat, nat)>, caches: seq<CacheEntry<S>>, ids: seq<R>, all: seq<R>, token: R,
    k: nat)
    requires Synced(m, cuts, caches, ids) && all == ids + [token]
    ensures InStep(m, cuts, caches, all, k)
  {
    assert all[..|all| - 1] == ids;
  }

  /** Clean or not, a turn keeps its caller honest; one that yields leaves the workers in step. */
  lemma {:induction false} StepExtends<S, R>(m: LanguageModel<S, R>, cuts: seq<(nat, nat)>, ms: seq<ShardModule<S, R>>,
                                             caches: seq<CacheEntry<S>>, me: Caller<R>, env: StepEnv<S>)
    requires cuts != [] && cuts[0].0 == 0 && Sharded(m, cuts, ms) && AllSized(ms, caches) && |env.hops| == |ms|
    requires me.phase == Holding && Honest(m, me) && |me.yielded| < me.maxNewTokens && HolderInStep(m, cuts, caches, me)
    ensures var r := Turn(m, ms, caches, me, env);
            Honest(m, r.1) && (r.1.phase == Holding ==> HolderInStep(m, cuts, r.0, r.1))
  {
    hide StepSpec, HopSpec, ChainSpec, Synced, Sharded, Turn, Greedy, GreedyRows;
    var ids := me.prompt + me.yielded;
    if StepClean(env) && ids != [] {
      CleanTurn(m, cuts, ms, caches, me, ids, env);
      var r := Turn(m, ms, caches, me, env);
      HonestlyExtended(m, me, NextToken(m, ids));
      SyncedIsInStep(m, cuts, r.0, ids, r.1.prompt + r.1.yielded, NextToken(m, ids), |me.yielded| + 1);
    } else {
      UncleanTurn(m, ms, caches, me, env);
    }
  }

  /** One caller's move leaves the others' tokens and the lock's meaning alone. */
  lemma {:induction false} OthersUntouched<S, R>(m: LanguageModel<S, R>, callers: seq<Caller<R>>, lock: Option<nat>,
                                                 c: nat, me: Caller<R>, lock': Option<nat>)
    requires AllHonest(m, callers) && LockNamesHolder(callers, lock)
    requires c < |callers| && Honest(m, me)
    requires if me.phase == Holding then lock' == Some(c) && (lock == None || lock == lock')
             else lock' == (if lock == Some(c) then None else lock)
    ensures AllHonest(m, callers[c := me]) && LockNamesHolder(callers[c := me], lock')
  {
    hide Honest;
    var after := callers[c := me];
    forall i | 0 <= i < |after|
      ensures Honest(m, after[i])
    {
      assert i != c ==> after[i] == callers[i] && Honest(m, callers[i]);
    }
  }

  lemma {:induction false} StepKeepsInv<S, R>(
    m: LanguageModel<S, R>, cuts: seq<(nat, nat)>, ms: seq<ShardModule<S, R>>, s: System<S, R>, c: nat, env: StepEnv<S>)
    requires cuts != [] && cuts[0].0 == 0 && Sharded(m, cuts, ms)
    requires Inv(m, cuts, ms, s) && Enabled(|ms|, s, Step(c, env))
    ensures Inv(m, cuts, ms, After(m, ms, s, Step(c, env)))
  {
    hide StepSpec, HopSpec, ChainSpec, Synced, Sharded, Honest, Turn, Leftover, InStep;
    var me := s.callers[c];
    assert Honest(m, me);
    StepExtends(m, cuts, ms, s.caches, me, env);
    var turn := Turn(m, ms, s.caches, me, env);
    OthersUntouched(m, s.callers, s.lock, c, turn.1, if turn.1.phase == Holding then s.lock else None);
  }

  /** What happens to a worker behind the callers' backs, when it does no harm. */
  lemma {:induction false} WorkerKeepsInv<S, R>(
    m: LanguageModel<S, R>, cuts: seq<(nat, nat)>, ms: seq<ShardModule<S, R>>, s: System<S, R>, a: Action<S, R>)
    requires cuts != [] && cuts[0].0 == 0 && Sharded(m, cuts, ms)
    requires Inv(m, cuts, ms, s) && Enabled(|ms|, s, a) && Harmless(ms, s, a)
    requires a.Stray? || a.Fade? || a.Reload?
    ensures Inv(m, cuts, ms, After(m, ms, s, a))
  {
    hide StepSpec, HopSpec, ChainSpec, Synced, Sharded, Onward, Turn, Leftover, Honest;
    if a.Reload? {
      assert forall j :: 0 <= j < |ms| ==> Sized(ms[j], s.caches[a.k := None][j]);
    }
  }

  lemma {:induction false} ArrivalKeepsInv<S, R>(
    m: LanguageModel<S, R>, cuts: seq<(nat, nat)>, ms: seq<ShardModule<S, R>>, s: System<S, R>, prompt: seq<R>, n: int)
    requires Inv(m, cuts, ms, s)
    ensures Inv(m, cuts, ms, After(m, ms, s, Arrive(prompt, n)))
  {
    hide StepSpec, HopSpec, ChainSpec, InStep, Onward, Turn, Leftover;
    assert prompt + [] == prompt;
  }

  lemma {:induction false} CallerKeepsInv<S, R>(
    m: LanguageModel<S, R>, cuts: seq<(nat, nat)>, ms: seq<ShardModule<S, R>>, s: System<S, R>, a: Action<S, R>)
    requires Inv(m, cuts, ms, s) && Enabled(|ms|, s, a)
    requires !a.Arrive? && !a.Step? && !a.Stray? && !a.Fade? && !a.Reload?
    ensures Inv(m, cuts, ms, After(m, ms, s, a))
  {
    hide StepSpec, HopSpec, ChainSpec, Synced, Onward, Turn, Leftover, Greedy, GreedyRows;
    assert Honest(m, s.callers[a.c]);
    var s' := After(m, ms, s, a);
    OthersUntouched(m, s.callers, s.lock, a.c, s'.callers[a.c], s'.lock);
  }

  lemma {:induction false} ActionKeepsInv<S, R>(
    m: LanguageModel<S, R>, cuts: seq<(nat, nat)>, ms: seq<ShardModule<S, R>>, s: System<S, R>, a: Action<S, R>)
    requires cuts != [] && cuts[0].0 == 0 && Sharded(m, cuts, ms)
    requires Inv(m, cuts, ms, s) && Enabled(|ms|, s, a) && Harmless(ms, s, a)
    ensures Inv(m, cuts, ms, After(m, ms, s, a))
  {
    hide Inv, After, Harmless, Sharded;
    if a.Step? {
      StepKeepsInv(m, cuts, ms, s, a.c, a.env);
    } else if a.Stray? || a.Fade? || a.Reload? {
      WorkerKeepsInv(m, cuts, ms, s, a);
    } else if a.Arrive? {
      ArrivalKeepsInv(m, cuts, ms, s, a.prompt, a.maxNewTokens);
    } else {
      CallerKeepsInv(m, cuts, ms, s, a);
    }
  }

  lemma {:induction false} RunKeepsInv<S, R>(m: LanguageModel<S, R>, cuts: seq<(nat, nat)>, ms: seq<ShardModule<S, R>>,
                                             states: seq<System<S, R>>, actions: seq<Action<S, R>>, i: nat)
    requires cuts != [] && cuts[0].0 == 0 && Sharded(m, cuts, ms)
    requires IsRun(m, ms, states, actions) && AllHarmless(ms, states, actions) && Init(ms, states[0]) && i < |states|
    ensures Inv(m, cuts, ms, states[i])
    decreases i
  {
    hide After, Greedy, GreedyRows, Sharded, HolderInStep;
    if i > 0 {
      RunKeepsInv(m, cuts, ms, states, actions, i - 1);
      assert Follows(m, ms, states[i - 1], actions[i - 1], states[i]) && DoesNoHarm(ms, states[i - 1], actions[i - 1]);
      ActionKeepsInv(m, cuts, ms, states[i - 1], actions[i - 1]);
    }
  }

  // ---------- Serializability ----------

  /** At every point of every interleaving, what a caller has received so far is the greedy
      continuation of its own prompt, tokens and logits, even if it or others failed or were closed
      part way; an exhausted caller has received all of it. */
  lemma {:induction false} EveryCallerDecodesGreedily<S, R>(
    m: LanguageModel<S, R>, cuts: seq<(nat, nat)>, ms: seq<ShardModule<S, R>>, states: seq<System<S, R>>,
    actions: seq<Action<S, R>>, i: nat, c: nat)
    requires cuts != [] && cuts[0].0 == 0 && Sharded(m, cuts, ms)
    requires IsRun(m, ms, states, actions) && AllHarmless(ms, states, actions) && Init(ms, states[0])
    requires i < |states| && c < |states[i].callers|
    ensures var me := states[i].callers[c];
            && (me.yielded != [] ==> me.prompt != [] && |me.yielded| <= me.maxNewTokens)
            && me.prompt + me.yielded == Greedy(m, me.prompt, |me.yielded|)
            && me.outputs == GreedyRows(m, me.prompt, |me.yielded|)
            && (me.phase == Exhausted && me.maxNewTokens > 0 ==>
                  me.prompt != [] && me.prompt + me.yielded == Greedy(m, me.prompt, me.maxNewTokens))
  {
    hide After, Greedy, GreedyRows, Sharded, AllHarmless;
    RunKeepsInv(m, cuts, ms, states, actions, i);
    assert Honest(m, states[i].callers[c]);
  }

  /** A finished run on a pipeline cut in some way, by harmless steps, from whatever was in the caches. */
  ghost predicate FinishedRun<S, R>(m: LanguageModel<S, R>, cuts: seq<(nat, nat)>, ms: seq<ShardModule<S, R>>,
                                    states: seq<System<S, R>>, actions: seq<Action<S, R>>, c: nat) {
    && cuts != [] && cuts[0].0 == 0 && Sharded(m, cuts, ms)
    && IsRun(m, ms, states, actions) && AllHarmless(ms, states, actions) && Init(ms, states[0])
    && c < |states[|actions|].callers| && states[|actions|].callers[c].phase == Exhausted
  }

  /** Two callers with the same request receive the same tokens and logits, whatever else ran beside
      either of them, whatever was in the caches before, and even on differently cut pipelines: in
      particular, one that ran alone on fresh workers. */
  lemma {:induction false} SameAsAlone<S, R>(
    m: LanguageModel<S, R>, cuts1: seq<(nat, nat)>, ms1: seq<ShardModule<S, R>>, states1: seq<System<S, R>>,
    actions1: seq<Action<S, R>>, c1: nat, cuts2: seq<(nat, nat)>, ms2: seq<ShardModule<S, R>>,
    states2: seq<System<S, R>>, actions2: seq<Action<S, R>>, c2: nat)
    requires FinishedRun(m, cuts1, ms1, states1, actions1, c1) && FinishedRun(m, cuts2, ms2, states2, actions2, c2)
    requires var a, b := states1[|actions1|].callers[c1], states2[|actions2|].callers[c2];
             a.prompt == b.prompt && a.maxNewTokens == b.maxNewTokens
    ensures var a, b := states1[|actions1|].callers[c1], states2[|actions2|].callers[c2];
            a.yielded == b.yielded && a.outputs == b.outputs
  {
    var a, b := states1[|actions1|].callers[c1], states2[|actions2|].callers[c2];
    RunKeepsInv(m, cuts1, ms1, states1, actions1, |actions1|);
    RunKeepsInv(m, cuts2, ms2, states2, actions2, |actions2|);
    assert Honest(m, a) && Honest(m, b);
    assert a.yielded == (a.prompt + a.yielded)[|a.prompt|..];
    assert b.yielded == (b.prompt + b.yielded)[|b.prompt|..];
  }

  // ---------- What becomes of abandoned passes ----------

  /** How many hops the abandoned passes can still run, on n workers. */
  ghost function HopsLeft<R>(loose: seq<LoosePass<R>>, n: nat): nat {
    if loose == [] then 0
    else (if loose[0].k < n then n - loose[0].k else 0) + HopsLeft(loose[1..], n)
  }

  lemma {:induction false} HopsLeftOfParts<R>(a: seq<LoosePass<R>>, b: seq<LoosePass<R>>, n: nat)
    ensures HopsLeft(a + b, n) == HopsLeft(a, n) + HopsLeft(b, n)
    decreases |a|
  {
    if a == [] {
      assert a + b == b;
    } else {
      assert (a + b)[1..] == a[1..] + b;
      HopsLeftOfParts(a[1..], b, n);
    }
  }

  /** Each stray hop is one less to come: the abandoned passes end, whatever their faults.  Only a step
      adds to them, one pass at most, and nothing else changes them but their fading. */
  lemma {:induction false} AbandonedPassesEnd<S, R>(
    m: LanguageModel<S, R>, ms: seq<ShardModule<S, R>>, s: System<S, R>, a: Action<S, R>)
    requires AllSized(ms, s.caches) && Enabled(|ms|, s, a)
    ensures var n, s' := |ms|, After(m, ms, s, a);
            && (a.Stray? ==> HopsLeft(s'.loose, n) < HopsLeft(s.loose, n) && |s'.loose| <= |s.loose|)
            && (a.Fade? ==> HopsLeft(s'.loose, n) <= HopsLeft(s.loose, n) && |s'.loose| == |s.loose| - 1)
            && (a.Step? ==> s.loose <= s'.loose && |s'.loose| <= |s.loose| + 1)
            && (!a.Stray? && !a.Fade? && !a.Step? ==> s'.loose == s.loose)
  {
    hide Turn, HopSpec, StepSpec, HopsLeft, AfterStray;
    if a.Stray? {
      PassReplaced(s.loose, a.p, Onward(ms, s.caches, HopOf(s.loose[a.p], a.fault)), |ms|);
    } else if a.Fade? {
      PassReplaced(s.loose, a.p, [], |ms|);
      assert s.loose[..a.p] + [] == s.loose[..a.p];
    } else if a.Step? {
      AtMostOneLeft(ms, s.caches, s.callers[a.c], a.env);
    }
  }

  /** One pass gives way to at most one that is further on. */
  lemma {:induction false} PassReplaced<R>(loose: seq<LoosePass<R>>, p: nat, rest: seq<LoosePass<R>>, n: nat)
    requires p < |loose| && |rest| <= 1 && (rest != [] ==> rest[0].k > loose[p].k)
    ensures var after := loose[..p] + rest + loose[p + 1..];
            && |after| == |loose| - 1 + |rest|
            && HopsLeft(after, n) <= HopsLeft(loose, n)
            && (loose[p].k < n ==> HopsLeft(after, n) < HopsLeft(loose, n))
  {
    var front, back := loose[..p], loose[p + 1..];
    assert loose == front + [loose[p]] + back;
    HopsLeftOfParts(front + [loose[p]], back, n);
    HopsLeftOfParts(front, [loose[p]], n);
    HopsLeftOfParts(front + rest, back, n);
    HopsLeftOfParts(front, rest, n);
    HopsLeftOfOne([loose[p]], n);
    HopsLeftOfOne(rest, n);
    hide HopsLeft;
  }

  lemma {:induction false} HopsLeftOfOne<R>(loose: seq<LoosePass<R>>, n: nat)
    requires |loose| <= 1
    ensures HopsLeft(loose, n) == if loose != [] && loose[0].k < n then n - loose[0].k else 0
  {
    assert loose != [] ==> loose[1..] == [];
  }

  lemma {:induction false} AtMostOneLeft<S, R>(
    ms: seq<ShardModule<S, R>>, caches: seq<CacheEntry<S>>, me: Caller<R>, env: StepEnv<S>)
    requires AllSized(ms, caches) && |env.hops| == |ms|
    ensures |Leftover(ms, caches, me, env)| <= 1
  {
    var k := |me.yielded|;
    AtMostOneLate(ms, caches, StepInput(me.prompt + me.yielded, k), k == 0, env.hops, 0);
  }

  lemma {:induction false} AtMostOneLate<S, R>(
    ms: seq<ShardModule<S, R>>, caches: seq<CacheEntry<S>>, x: seq<R>, reset: bool, hops: seq<Hop<S>>, k: nat)
    requires AllSized(ms, caches) && |hops| == |ms|
    ensures |LateRest(ms, caches, x, reset, hops, k)| <= 1
    decreases |ms|
  {
    hide HopSpec;
    if ms != [] {
      var out := Out(ms[0], caches[0], x, reset, hops[0].fault);
      if out.Some? {
        AtMostOneLate(ms[1..], caches[1..], out.value, reset, hops[1..], k + 1);
      }
    }
  }

  // ---------- What becomes of a request ----------

  /** A turn fails exactly when its step does or there is nothing to continue, and otherwise yields one token. */
  lemma {:induction false} TurnFailsExactly<S, R>(
    m: LanguageModel<S, R>, ms: seq<ShardModule<S, R>>, caches: seq<CacheEntry<S>>, me: Caller<R>, env: StepEnv<S>)
    requires AllSized(ms, caches) && |env.hops| == |ms|
    ensures var me' := Turn(m, ms, caches, me, env).1;
            && me'.prompt == me.prompt && me'.maxNewTokens == me.maxNewTokens
            && if StepClean(env) && me.prompt + me.yielded != [] then
                 me'.phase == me.phase && |me'.yielded| == |me.yielded| + 1
               else me'.phase == Failed && me'.yielded == me.yielded
  {
    hide StepSpec;
    var k := |me.yielded|;
    StepSucceedsIffClean(ms, caches, StepInput(me.prompt + me.yielded, k), k == 0, env);
  }

  /** The step is a turn of this caller that fails. */
  ghost predicate FailsCaller<S, R>(s: System<S, R>, a: Action<S, R>, c: nat) {
    a.Step? && a.c == c && c < |s.callers| &&
    !(StepClean(a.env) && s.callers[c].prompt + s.callers[c].yielded != [])
  }

  /** How many turns of this caller these actions hold. */
  ghost function Turns<S, R>(actions: seq<Action<S, R>>, c: nat): nat {
    if actions == [] then 0
    else
      var last := actions[|actions| - 1];
      Turns(actions[..|actions| - 1], c) + (if last.Step? && last.c == c then 1 else 0)
  }

  /** What one action does to a caller that is there already. */
  lemma {:induction false} OneActionOnCaller<S, R>(
    m: LanguageModel<S, R>, ms: seq<ShardModule<S, R>>, s: System<S, R>, a: Action<S, R>, c: nat)
    requires AllSized(ms, s.caches) && Enabled(|ms|, s, a) && c < |s.callers|
    ensures var s' := After(m, ms, s, a);
            && c < |s'.callers| && s'.callers[c].prompt == s.callers[c].prompt
            && s'.callers[c].maxNewTokens == s.callers[c].maxNewTokens
            && (s'.callers[c].phase == Failed <==> s.callers[c].phase == Failed || FailsCaller(s, a, c))
            && (s'.callers[c].phase == Closed <==> s.callers[c].phase == Closed || a == Close(c))
            && (FailsCaller(s, a, c) ==> a.Step? && a.c == c && s.callers[c].phase == Holding)
            && |s'.callers[c].yielded| ==
                 |s.callers[c].yielded| + (if a.Step? && a.c == c && !FailsCaller(s, a, c) then 1 else 0)
  {
    hide Turn, Leftover, Onward, AfterStray, StepClean;
    if a.Step? {
      TurnFailsExactly(m, ms, s.caches, s.callers[a.c], a.env);
    }
  }

  lemma {:induction false} OneActionArrives<S, R>(
    m: LanguageModel<S, R>, ms: seq<ShardModule<S, R>>, s: System<S, R>, a: Action<S, R>)
    requires AllSized(ms, s.caches) && Enabled(|ms|, s, a)
    ensures var s' := After(m, ms, s, a);
            if a.Arrive? then s'.callers == s.callers + [Caller(a.prompt, a.maxNewTokens, [], [], Waiting)]
            else |s'.callers| == |s.callers|
  {
    hide Turn, Leftover, Onward, AfterStray;
  }

  /** The caller's request came with this action, and these are its turns since. */
  ghost predicate HistoryOf<S, R>(
    states: seq<System<S, R>>, actions: seq<Action<S, R>>, i: nat, c: nat, me: Caller<R>)
    requires i <= |actions| < |states|
  {
    && (exists k :: 0 <= k < i && |states[k].callers| == c && actions[k] == Arrive(me.prompt, me.maxNewTokens))
    && (me.phase == Failed <==> exists k :: 0 <= k < i && FailsCaller(states[k], actions[k], c))
    && (me.phase == Closed <==> exists k :: 0 <= k < i && actions[k] == Close(c))
    && |me.yielded| == Turns(actions[..i], c) - (if me.phase == Failed then 1 else 0)
  }

  /** No action concerns a caller that has not arrived. */
  lemma {:induction false} NotYetThere<S, R>(
    m: LanguageModel<S, R>, ms: seq<ShardModule<S, R>>, states: seq<System<S, R>>, actions: seq<Action<S, R>>, i: nat,
    c: nat)
    requires IsRun(m, ms, states, actions) && i < |states| && c >= |states[i].callers|
    ensures Turns(actions[..i], c) == 0
    ensures forall k :: 0 <= k < i ==> |states[k].callers| <= c
    ensures forall k :: 0 <= k < i ==> actions[k] != Close(c) && !FailsCaller(states[k], actions[k], c)
    decreases i
  {
    hide After;
    if i > 0 {
      var n := i - 1;
      var s, a := states[n], actions[n];
      assert Follows(m, ms, s, a, states[i]);
      OneActionArrives(m, ms, s, a);
      assert actions[..i][..n] == actions[..n];
      NotYetThere(m, ms, states, actions, n, c);
    }
  }

  /** At every point of every run, a caller stands for the request that arrived under its number: it
      has received a token for each of its turns but a failed one, it has failed exactly when one of
      its turns did, and it is closed exactly when its consumer closed it. */
  lemma {:induction false} EveryCallerHasItsHistory<S, R>(
    m: LanguageModel<S, R>, ms: seq<ShardModule<S, R>>, states: seq<System<S, R>>, actions: seq<Action<S, R>>, i: nat,
    c: nat)
    requires IsRun(m, ms, states, actions) && Init(ms, states[0]) && i < |states| && c < |states[i].callers|
    ensures HistoryOf(states, actions, i, c, states[i].callers[c])
    decreases i
  {
    hide After, Turn;
    if i > 0 {
      var n := i - 1;
      var s, a := states[n], actions[n];
      assert Follows(m, ms, s, a, states[i]);
      OneActionArrives(m, ms, s, a);
      if c < |s.callers| {
        EveryCallerHasItsHistory(m, ms, states, actions, n, c);
        OneActionOnCaller(m, ms, s, a, c);
        hide HistoryOf, FailsCaller;
        HistoryGoesOn(states, actions, n, c, s.callers[c], states[i].callers[c]);
      } else {
        NotYetThere(m, ms, states, actions, n, c);
        assert actions[..i][..n] == actions[..n];
      }
    }
  }

  lemma {:induction false} HistoryGoesOn<S, R>(
    states: seq<System<S, R>>, actions: seq<Action<S, R>>, n: nat, c: nat, me: Caller<R>, me': Caller<R>)
    requires n < |actions| < |states| && HistoryOf(states, actions, n, c, me)
    requires me'.prompt == me.prompt && me'.maxNewTokens == me.maxNewTokens
    requires me'.phase == Failed <==> me.phase == Failed || FailsCaller(states[n], actions[n], c)
    requires me'.phase == Closed <==> me.phase == Closed || actions[n] == Close(c)
    requires var turn := actions[n].Step? && actions[n].c == c;
             && |me'.yielded| == |me.yielded| + (if turn && !FailsCaller(states[n], actions[n], c) then 1 else 0)
             && (FailsCaller(states[n], actions[n], c) ==> turn && me.phase != Failed)
    ensures HistoryOf(states, actions, n + 1, c, me')
  {
    hide FailsCaller;
    assert actions[..n + 1][..n] == actions[..n];
  }

  // ---------- Without asking about values ----------

  /** A step begins a generation only when nothing is left of earlier passes, and nobody reloads a
      worker under a running generation: both can be seen from the outside, before the step. */
  ghost predicate Settled<S, R>(s: System<S, R>, a: Action<S, R>) {
    && (a.Step? && a.c < |s.callers| && s.callers[a.c].yielded == [] ==> s.loose == [])
    && (a.Reload? ==> !UnderWay(s))
  }

  ghost predicate AllSettled<S, R>(states: seq<System<S, R>>, actions: seq<Action<S, R>>)
    requires |states| == |actions| + 1
  {
    forall i :: 0 <= i < |actions| ==> Settled(states[i], actions[i])
  }

  /** While a generation runs, nothing is left of earlier passes. */
  ghost predicate NoneLoose<S, R>(s: System<S, R>) {
    && LockNamesHolder(s.callers, s.lock)
    && (forall c :: 0 <= c < |s.callers| && s.callers[c].phase == Waiting ==> s.callers[c].yielded == [])
    && (UnderWay(s) ==> s.loose == [])
  }

  lemma {:induction false} SettledStep<S, R>(
    m: LanguageModel<S, R>, ms: seq<ShardModule<S, R>>, s: System<S, R>, c: nat, env: StepEnv<S>)
    requires AllSized(ms, s.caches) && Enabled(|ms|, s, Step(c, env)) && NoneLoose(s) && Settled(s, Step(c, env))
    ensures NoneLoose(After(m, ms, s, Step(c, env)))
  {
    hide StepSpec, HopSpec, ChainSpec;
    var me := s.callers[c];
    var turn := Turn(m, ms, s.caches, me, env);
    if StepClean(env) {
      assert Contained(env);
      ContainedLeavesNothing(ms, s.caches, me, env);
    } else {
      UncleanTurn(m, ms, s.caches, me, env);
    }
  }

  lemma {:induction false} SettledKeepsNoneLoose<S, R>(
    m: LanguageModel<S, R>, ms: seq<ShardModule<S, R>>, s: System<S, R>, a: Action<S, R>)
    requires AllSized(ms, s.caches) && Enabled(|ms|, s, a) && NoneLoose(s) && Settled(s, a)
    ensures NoneLoose(After(m, ms, s, a)) && Harmless(ms, s, a)
  {
    hide StepSpec, HopSpec, ChainSpec, Turn, Leftover, Onward, AfterStray, Contained;
    if a.Step? {
      SettledStep(m, ms, s, a.c, a.env);
    }
  }

  lemma {:induction false} SettledSoFar<S, R>(
    m: LanguageModel<S, R>, ms: seq<ShardModule<S, R>>, states: seq<System<S, R>>, actions: seq<Action<S, R>>, i: nat)
    requires IsRun(m, ms, states, actions) && AllSettled(states, actions) && Init(ms, states[0]) && i < |states|
    ensures NoneLoose(states[i])
    decreases i
  {
    hide After;
    if i > 0 {
      SettledSoFar(m, ms, states, actions, i - 1);
      assert Follows(m, ms, states[i - 1], actions[i - 1], states[i]);
      assert Settled(states[i - 1], actions[i - 1]);
      SettledKeepsNoneLoose(m, ms, states[i - 1], actions[i - 1]);
    }
  }

  /** Settled runs do no harm. */
  lemma {:induction false} SettledIsHarmless<S, R>(
    m: LanguageModel<S, R>, ms: seq<ShardModule<S, R>>, states: seq<System<S, R>>, actions: seq<Action<S, R>>)
    requires IsRun(m, ms, states, actions) && AllSettled(states, actions) && Init(ms, states[0])
    ensures AllHarmless(ms, states, actions)
  {
    hide After, Harmless;
    forall i | 0 <= i < |actions|
      ensures DoesNoHarm(ms, states[i], actions[i])
    {
      SettledSoFar(m, ms, states, actions, i);
      var j := i + 1;
      assert Follows(m, ms, states[i], actions[i], states[j]);
      assert Settled(states[i], actions[i]);
      SettledKeepsNoneLoose(m, ms, states[i], actions[i]);
    }
  }

  /** At every point of every settled run, each caller has received a greedy continuation of its own
      prompt; an exhausted caller has received all of it. */
  lemma {:induction false} SettledDecodesGreedily<S, R>(
    m: LanguageModel<S, R>, cuts: seq<(nat, nat)>, ms: seq<ShardModule<S, R>>, states: seq<System<S, R>>,
    actions: seq<Action<S, R>>, i: nat, c: nat)
    requires cuts != [] && cuts[0].0 == 0 && Sharded(m, cuts, ms)
    requires IsRun(m, ms, states, actions) && AllSettled(states, actions) && Init(ms, states[0])
    requires i < |states| && c < |states[i].callers|
    ensures var me := states[i].callers[c];
            && (me.yielded != [] ==> me.prompt != [] && |me.yielded| <= me.maxNewTokens)
            && me.prompt + me.yielded == Greedy(m, me.prompt, |me.yielded|)
            && me.outputs == GreedyRows(m, me.prompt, |me.yielded|)
            && (me.phase == Exhausted && me.maxNewTokens > 0 ==>
                  me.prompt != [] && me.prompt + me.yielded == Greedy(m, me.prompt, me.maxNewTokens))
  {
    hide After, Honest, Turn, Sharded, AllHarmless, AllSettled;
    SettledIsHarmless(m, ms, states, actions);
    EveryCallerDecodesGreedily(m, cuts, ms, states, actions, i, c);
  }

  /** Nothing strays in a run in which every step is contained. */
  lemma {:induction false} ContainedLeavesNoneLoose<S, R>(
    m: LanguageModel<S, R>, ms: seq<ShardModule<S, R>>, states: seq<System<S, R>>, actions: seq<Action<S, R>>, i: nat)
    requires IsRun(m, ms, states, actions) && states[0].loose == [] && i < |states|
    requires forall k :: 0 <= k < |actions| && actions[k].Step? ==> Contained(actions[k].env)
    ensures states[i].loose == []
    decreases i
  {
    hide Turn, HopSpec, AfterStray;
    if i > 0 {
      ContainedLeavesNoneLoose(m, ms, states, actions, i - 1);
      var s, a := states[i - 1], actions[i - 1];
      assert Follows(m, ms, s, a, states[i]);
      if a.Step? {
        ContainedLeavesNothing(ms, s.caches, s.callers[a.c], a.env);
      }
    }
  }

  /** So when no step gave up a pass that was still running, and nobody reloads a worker under a
      running generation, every caller decodes greedily: nothing is asked about values. */
  lemma {:induction false} ContainedRunsDecodeGreedily<S, R>(
    m: LanguageModel<S, R>, cuts: seq<(nat, nat)>, ms: seq<ShardModule<S, R>>, states: seq<System<S, R>>,
    actions: seq<Action<S, R>>, i: nat, c: nat)
    requires cuts != [] && cuts[0].0 == 0 && Sharded(m, cuts, ms)
    requires IsRun(m, ms, states, actions) && Init(ms, states[0]) && states[0].loose == []
    requires forall k :: 0 <= k < |actions| && actions[k].Step? ==> Contained(actions[k].env)
    requires forall k :: 0 <= k < |actions| && actions[k].Reload? ==> !UnderWay(states[k])
    requires i < |states| && c < |states[i].callers|
    ensures var me := states[i].callers[c];
            && (me.yielded != [] ==> me.prompt != [] && |me.yielded| <= me.maxNewTokens)
            && me.prompt + me.yielded == Greedy(m, me.prompt, |me.yielded|)
            && me.outputs == GreedyRows(m, me.prompt, |me.yielded|)
            && (me.phase == Exhausted && me.maxNewTokens > 0 ==>
                  me.prompt != [] && me.prompt + me.yielded == Greedy(m, me.prompt, me.maxNewTokens))
  {
    hide After, Honest, Turn, Sharded, Greedy, GreedyRows;
    forall k | 0 <= k < |actions|
      ensures Settled(states[k], actions[k])
    {
      ContainedLeavesNoneLoose(m, ms, states, actions, k);
    }
    SettledDecodesGreedily(m, cuts, ms, states, actions, i, c);
  }
}
