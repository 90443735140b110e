/**
 What may come between the steps of a generation: hops of passes that were given up, reloads of a
 worker, and run_forward; why looking between steps is enough, what each does to the tokens, and runs
 on which the tokens are wrong.
 */
module Interference {
  import opened Wrappers
  import opened Recurrence
  import opened Shard
  import opened Worker
  import opened Sharding
  import opened Pipeline
  import opened GenerationLock
  import Lock = GenerationLock

  // ---------- Stray hops ----------

  /** What a synced worker's cache holds is determined entry by entry. */
  lemma {:induction false} SyncedIsUnique<S, R>(
    m: LanguageModel<S, R>, cuts: seq<(nat, nat)>, c1: seq<CacheEntry<S>>, c2: seq<CacheEntry<S>>, fed: seq<R>)
    requires Synced(m, cuts, c1, fed) && Synced(m, cuts, c2, fed)
    ensures c1 == c2
    decreases |cuts|
  {
    if cuts != [] {
      SyncedIsUnique(m, cuts[1..], c1[1..], c2[1..], fed);
      assert c1[0].value == c2[0].value;
      assert c1 == [c1[0]] + c1[1..] && c2 == [c2[0]] + c2[1..];
    }
  }

  /** A stray hop keeps the lock's holder in step with the workers exactly when it is harmless. */
  lemma {:induction false} StrayHarmsExactly<S, R>(
    m: LanguageModel<S, R>, cuts: seq<(nat, nat)>, ms: seq<ShardModule<S, R>>, s: System<S, R>, p: nat,
    fault: HopFault<S>)
    requires cuts != [] && cuts[0].0 == 0 && Sharded(m, cuts, ms) && Inv(m, cuts, ms, s)
    requires Enabled(|ms|, s, Stray(p, fault))
    ensures Inv(m, cuts, ms, Lock.After(m, ms, s, Stray(p, fault))) <==> Harmless(ms, s, Stray(p, fault))
  {
    hide HopSpec, Sharded, Honest, Out;
    if Harmless(ms, s, Stray(p, fault)) {
      ActionKeepsInv(m, cuts, ms, s, Stray(p, fault));
    }
    var after := AfterStray(ms, s.caches, HopOf(s.loose[p], fault));
    if UnderWay(s) && HolderInStep(m, cuts, after, s.callers[s.lock.value]) {
      var me := s.callers[s.lock.value];
      var ids := me.prompt + me.yielded;
      SyncedIsUnique(m, cuts, s.caches, after, ids[..|ids| - 1]);
    }
  }

  lemma {:induction false} SyncedIsSome<S, R>(
    m: LanguageModel<S, R>, cuts: seq<(nat, nat)>, caches: seq<CacheEntry<S>>, fed: seq<R>, k: nat)
    requires Synced(m, cuts, caches, fed) && k < |cuts|
    ensures |caches| == |cuts| && caches[k].Some?
    decreases k
  {
    if k > 0 {
      SyncedIsSome(m, cuts[1..], caches[1..], fed, k - 1);
    }
  }

  /** Reloading a worker, as a redistribution does, keeps the lock's holder in step exactly when no
      generation is under way. */
  lemma {:induction false} ReloadHarmsExactly<S, R>(
    m: LanguageModel<S, R>, cuts: seq<(nat, nat)>, ms: seq<ShardModule<S, R>>, s: System<S, R>, k: nat)
    requires cuts != [] && cuts[0].0 == 0 && Sharded(m, cuts, ms) && Inv(m, cuts, ms, s) && k < |ms|
    ensures Inv(m, cuts, ms, Lock.After(m, ms, s, Reload(k))) <==> !UnderWay(s)
  {
    hide HopSpec, Honest;
    var after := s.caches[k := None];
    if !UnderWay(s) {
      ActionKeepsInv(m, cuts, ms, s, Reload(k));
    } else if HolderInStep(m, cuts, after, s.callers[s.lock.value]) {
      var me := s.callers[s.lock.value];
      var ids := me.prompt + me.yielded;
      SyncedIsSome(m, cuts, after, ids[..|ids| - 1], k);
    }
  }

  /** One pass during which a worker runs a stray hop, after the first i hops of the pass. */
  ghost function Interrupted<S, R>(ms: seq<ShardModule<S, R>>, caches: seq<CacheEntry<S>>, x: seq<R>, reset: bool,
                                   hops: seq<Hop<S>>, i: nat, hop: StrayHop<S, R>): (seq<CacheEntry<S>>, Option<seq<R>>)
    requires AllSized(ms, caches) && |hops| == |ms| && i <= |ms| && hop.k < |ms|
    decreases i
  {
    if i == 0 then ChainSpec(ms, AfterStray(ms, caches, hop), x, reset, hops)
    else
      var h := HopSpec(ms[0], caches[0], x, reset, hops[0].fault);
      if h.1.None? then (AfterStray(ms, [h.0] + caches[1..], hop), None)
      else if hop.k == 0 then
        var rest := ChainSpec(ms[1..], caches[1..], h.1.value, reset, hops[1..]);
        ([HopSpec(ms[0], h.0, hop.input, hop.reset, hop.fault).0] + rest.0, rest.1)
      else
        var rest := Interrupted(ms[1..], caches[1..], h.1.value, reset, hops[1..], i - 1, hop.(k := hop.k - 1));
        ([h.0] + rest.0, rest.1)
  }

  lemma {:induction false} StrayInTail<S, R>(
    ms: seq<ShardModule<S, R>>, first: CacheEntry<S>, rest: seq<CacheEntry<S>>, hop: StrayHop<S, R>)
    requires AllSized(ms, [first] + rest) && 0 < hop.k < |ms|
    ensures AllSized(ms[1..], rest)
    ensures AfterStray(ms, [first] + rest, hop) == [first] + AfterStray(ms[1..], rest, hop.(k := hop.k - 1))
  {
    assert ([first] + rest)[1..] == rest;
  }

  lemma {:induction false} ChainStep<S, R>(
    ms: seq<ShardModule<S, R>>, first: CacheEntry<S>, tail: seq<CacheEntry<S>>, x: seq<R>, reset: bool,
    hops: seq<Hop<S>>)
    requires ms != [] && AllSized(ms, [first] + tail) && |hops| == |ms|
    ensures AllSized(ms[1..], tail)
    ensures var h := HopSpec(ms[0], first, x, reset, hops[0].fault);
            ChainSpec(ms, [first] + tail, x, reset, hops) ==
              if h.1.None? then ([h.0] + tail, None)
              else
                var rest := ChainSpec(ms[1..], tail, h.1.value, reset, hops[1..]);
                ([h.0] + rest.0, rest.1)
  {
    assert ([first] + tail)[1..] == tail;
  }

  lemma {:induction false} InterruptedStep<S, R>(
    ms: seq<ShardModule<S, R>>, caches: seq<CacheEntry<S>>, x: seq<R>, reset: bool, hops: seq<Hop<S>>, i: nat,
    hop: StrayHop<S, R>)
    requires AllSized(ms, caches) && |hops| == |ms| && 0 < i <= |ms| && 0 < hop.k < |ms|
    ensures var h := HopSpec(ms[0], caches[0], x, reset, hops[0].fault);
            var tail := hop.(k := hop.k - 1);
            Interrupted(ms, caches, x, reset, hops, i, hop) ==
              if h.1.None? then ([h.0] + AfterStray(ms[1..], caches[1..], tail), None)
              else
                var rest := Interrupted(ms[1..], caches[1..], h.1.value, reset, hops[1..], i - 1, tail);
                ([h.0] + rest.0, rest.1)
  {
    var h := HopSpec(ms[0], caches[0], x, reset, hops[0].fault);
    StrayInTail(ms, h.0, caches[1..], hop);
  }

  lemma {:induction false} InterruptedAtOnce<S, R>(
    ms: seq<ShardModule<S, R>>, caches: seq<CacheEntry<S>>, x: seq<R>, reset: bool, hops: seq<Hop<S>>,
    hop: StrayHop<S, R>)
    requires AllSized(ms, caches) && |hops| == |ms| && hop.k < |ms|
    ensures Interrupted(ms, caches, x, reset, hops, 0, hop) ==
              ChainSpec(ms, AfterStray(ms, caches, hop), x, reset, hops)
  {
  }

  /** A stray hop on a worker that the pass has not reached yet comes to the same as one before the pass. */
  lemma {:induction false} StrayAhead<S, R>(
    ms: seq<ShardModule<S, R>>, caches: seq<CacheEntry<S>>, x: seq<R>, reset: bool, hops: seq<Hop<S>>, i: nat,
    hop: StrayHop<S, R>)
    requires AllSized(ms, caches) && |hops| == |ms| && i <= hop.k < |ms|
    ensures Interrupted(ms, caches, x, reset, hops, i, hop) ==
              ChainSpec(ms, AfterStray(ms, caches, hop), x, reset, hops)
    decreases i
  {
    hide ChainSpec, HopSpec, Interrupted, AfterStray;
    if i == 0 {
      InterruptedAtOnce(ms, caches, x, reset, hops, hop);
    } else {
      var tail := hop.(k := hop.k - 1);
      var h := HopSpec(ms[0], caches[0], x, reset, hops[0].fault);
      InterruptedStep(ms, caches, x, reset, hops, i, hop);
      StrayInFront(ms, caches, hop);
      ChainStep(ms, caches[0], AfterStray(ms[1..], caches[1..], tail), x, reset, hops);
      if h.1.Some? {
        StrayAhead(ms[1..], caches[1..], h.1.value, reset, hops[1..], i - 1, tail);
      }
    }
  }

  lemma {:induction false} StrayInFront<S, R>(
    ms: seq<ShardModule<S, R>>, caches: seq<CacheEntry<S>>, hop: StrayHop<S, R>)
    requires AllSized(ms, caches) && 0 < hop.k < |ms|
    ensures AfterStray(ms, caches, hop) == [caches[0]] + AfterStray(ms[1..], caches[1..], hop.(k := hop.k - 1))
  {
    assert caches == [caches[0]] + caches[1..];
    StrayInTail(ms, caches[0], caches[1..], hop);
  }

  lemma {:induction false} StrayAtFirst<S, R>(
    ms: seq<ShardModule<S, R>>, first: CacheEntry<S>, rest: seq<CacheEntry<S>>, hop: StrayHop<S, R>)
    requires AllSized(ms, [first] + rest) && ms != [] && hop.k == 0
    ensures Sized(ms[0], first)
    ensures AfterStray(ms, [first] + rest, hop) == [HopSpec(ms[0], first, hop.input, hop.reset, hop.fault).0] + rest
  {
    hide HopSpec;
    assert ([first] + rest)[0] == first;
  }

  lemma {:induction false} StrayBehindFirst<S, R>(
    ms: seq<ShardModule<S, R>>, caches: seq<CacheEntry<S>>, x: seq<R>, reset: bool, hops: seq<Hop<S>>, i: nat,
    hop: StrayHop<S, R>)
    requires AllSized(ms, caches) && |hops| == |ms| && hop.k == 0 < i <= |ms|
    ensures var pass := ChainSpec(ms, caches, x, reset, hops);
            Interrupted(ms, caches, x, reset, hops, i, hop) == (AfterStray(ms, pass.0, hop), pass.1)
  {
    hide HopSpec;
    var h := HopSpec(ms[0], caches[0], x, reset, hops[0].fault);
    if h.1.Some? {
      StrayAtFirst(ms, h.0, ChainSpec(ms[1..], caches[1..], h.1.value, reset, hops[1..]).0, hop);
      hide AfterStray;
    }
  }

  /** A stray hop on a worker that the pass has left behind comes to the same as one after the pass. */
  lemma {:induction false} StrayBehind<S, R>(
    ms: seq<ShardModule<S, R>>, caches: seq<CacheEntry<S>>, x: seq<R>, reset: bool, hops: seq<Hop<S>>, i: nat,
    hop: StrayHop<S, R>)
    requires AllSized(ms, caches) && |hops| == |ms| && hop.k < i <= |ms|
    ensures var pass := ChainSpec(ms, caches, x, reset, hops);
            Interrupted(ms, caches, x, reset, hops, i, hop) == (AfterStray(ms, pass.0, hop), pass.1)
    decreases i
  {
    hide HopSpec, Interrupted, AfterStray;
    if hop.k == 0 {
      StrayBehindFirst(ms, caches, x, reset, hops, i, hop);
    } else {
      var tail := hop.(k := hop.k - 1);
      var h := HopSpec(ms[0], caches[0], x, reset, hops[0].fault);
      InterruptedStep(ms, caches, x, reset, hops, i, hop);
      if h.1.Some? {
        StrayBehind(ms[1..], caches[1..], h.1.value, reset, hops[1..], i - 1, tail);
        StrayInTail(ms, h.0, ChainSpec(ms[1..], caches[1..], h.1.value, reset, hops[1..]).0, hop);
      } else {
        StrayInTail(ms, h.0, caches[1..], hop);
      }
    }
  }

  // ---------- Why run_forward must not be mixed in ----------

  /** run_forward resets the caches and steps without taking the lock. */
  ghost function AfterRunForward<S, R>(ms: seq<ShardModule<S, R>>, s: System<S, R>, input: seq<R>, env: StepEnv<S>)
    : System<S, R>
    requires AllSized(ms, s.caches) && |env.hops| == |ms|
  {
    s.(caches := StepSpec(ms, s.caches, input, true, env).0)
  }

  /** After a clean run_forward on `input`, a generation that is already under way continues
      `input` followed by its own newest token: its next token is right exactly when the two
      continuations happen to agree. */
  lemma {:induction false} RunForwardHijacks<S, R>(
    m: LanguageModel<S, R>, cuts: seq<(nat, nat)>, ms: seq<ShardModule<S, R>>, s: System<S, R>, c: nat, input: seq<R>,
    forwardEnv: StepEnv<S>, env: StepEnv<S>)
    requires cuts != [] && cuts[0].0 == 0 && Sharded(m, cuts, ms)
    requires AllSized(ms, s.caches) && Enabled(|ms|, s, Step(c, env)) && s.callers[c].yielded != []
    requires |forwardEnv.hops| == |ms| && StepClean(forwardEnv) && StepClean(env)
    ensures var me := s.callers[c];
            var newest := me.yielded[|me.yielded| - 1];
            var between := AfterRunForward(ms, s, input, forwardEnv);
            Lock.After(m, ms, between, Step(c, env)).callers[c].yielded == me.yielded + [NextToken(m, input + [newest])]
  {
    var caches := AfterRunForward(ms, s, input, forwardEnv).caches;
    ForwardSyncs(m, cuts, ms, s.caches, input, forwardEnv);
    HijackedTurn(m, cuts, ms, caches, s.callers[c], input, env);
  }

  lemma {:induction false} HijackedTurn<S, R>(m: LanguageModel<S, R>, cuts: seq<(nat, nat)>, ms: seq<ShardModule<S, R>>,
                                              caches: seq<CacheEntry<S>>, me: Caller<R>, input: seq<R>, env: StepEnv<S>)
    requires cuts != [] && cuts[0].0 == 0 && Sharded(m, cuts, ms) && AllSized(ms, caches) && |env.hops| == |ms|
    requires me.yielded != [] && Synced(m, cuts, caches, input) && StepClean(env)
    ensures Turn(m, ms, caches, me, env).1.yielded
              == me.yielded + [NextToken(m, input + [me.yielded[|me.yielded| - 1]])]
  {
    var newest := me.yielded[|me.yielded| - 1];
    SyncedIsInStep(m, cuts, caches, input, input + [newest], newest, |me.yielded|);
    CleanTurn(m, cuts, ms, caches, me, input + [newest], env);
  }

  lemma {:induction false} ForwardSyncs<S, R>(m: LanguageModel<S, R>, cuts: seq<(nat, nat)>, ms: seq<ShardModule<S, R>>,
                                              caches: seq<CacheEntry<S>>, input: seq<R>, env: StepEnv<S>)
    requires cuts != [] && cuts[0].0 == 0 && Sharded(m, cuts, ms) && AllSized(ms, caches)
    requires |env.hops| == |ms| && StepClean(env)
    ensures Synced(m, cuts, StepSpec(ms, caches, input, true, env).0, input)
  {
    PassComputesLogits(m, cuts, ms, caches, [], input, true, env.hops);
    assert [] + input == input;
  }

  // ---------- Why a worker must not be reloaded under a generation ----------

  ghost predicate AllReloaded<S>(caches: seq<CacheEntry<S>>) {
    forall k :: 0 <= k < |caches| ==> caches[k] == None
  }

  /** Without caches, a pass that does not reset is one that does. */
  lemma {:induction false} NoCacheIsReset<S, R>(
    ms: seq<ShardModule<S, R>>, caches: seq<CacheEntry<S>>, x: seq<R>, hops: seq<Hop<S>>)
    requires AllSized(ms, caches) && |hops| == |ms| && AllReloaded(caches) && AllClean(hops)
    ensures ChainSpec(ms, caches, x, false, hops) == ChainSpec(ms, caches, x, true, hops)
    decreases |ms|
  {
    if ms != [] {
      var h := HopSpec(ms[0], caches[0], x, true, hops[0].fault);
      assert HopSpec(ms[0], caches[0], x, false, hops[0].fault) == h;
      if h.1.Some? {
        NoCacheIsReset(ms[1..], caches[1..], h.1.value, hops[1..]);
      }
    }
  }

  /** After all workers were reloaded, a generation that is already under way continues its newest
      token alone, and no step fails: its next token is right exactly when the two continuations
      happen to agree. */
  lemma {:induction false} ReloadHijacks<S, R>(
    m: LanguageModel<S, R>, cuts: seq<(nat, nat)>, ms: seq<ShardModule<S, R>>, caches: seq<CacheEntry<S>>,
    me: Caller<R>, env: StepEnv<S>)
    requires cuts != [] && cuts[0].0 == 0 && Sharded(m, cuts, ms) && AllSized(ms, caches) && |env.hops| == |ms|
    requires me.yielded != [] && AllReloaded(caches) && StepClean(env)
    ensures Turn(m, ms, caches, me, env).1.yielded
              == me.yielded + [NextToken(m, [me.yielded[|me.yielded| - 1]])]
  {
    hide ChainSpec, Synced, Sharded, Logits, AllReloaded;
    var newest := me.yielded[|me.yielded| - 1];
    var ids := me.prompt + me.yielded;
    assert StepInput(ids, |me.yielded|) == [newest];
    NoCacheIsReset(ms, caches, [newest], env.hops);
    PassComputesLogits(m, cuts, ms, caches, [], [newest], true, env.hops);
    assert [] + [newest] == [newest];
    assert Logits(m, [newest])[0..] == Logits(m, [newest]);
  }

  /** The two continuations do differ: a one-layer model that adds up its inputs continues 1, 1 by 2
      and 5, 1 by 6. */
  lemma {:induction false} ContinuationsDiffer() returns (m: LanguageModel<int, int>)
    ensures |m.layers| == 1 && NextToken(m, [1]) == 1 && NextToken(m, [1, 1]) == 2 && NextToken(m, [5, 1]) == 6
  {
    var add: Step<int, int> := (s, x) => (s + x, s + x);
    var same := (x: int) => x;
    m := LanguageModel(same, [add], same, same, same, (i: nat) => 0);
    SummingLogits(m, add, same, 1, 1);
    SummingLogits(m, add, same, 5, 1);
    FirstLogits(m, add, same, 1);
  }

  // ---------- Runs on which the tokens are wrong ----------

  ghost predicate Reachable(m: LanguageModel<int, int>, ms: seq<ShardModule<int, int>>, s: System<int, int>) {
    exists states, actions :: IsRun<int, int>(m, ms, states, actions) && Fresh(ms, states[0]) && states[|actions|] == s
  }

  /** Nobody has called yet, and nothing is left of earlier passes. */
  ghost predicate Fresh(ms: seq<ShardModule<int, int>>, s: System<int, int>) {
    Init(ms, s) && s.loose == []
  }

  lemma {:induction false} ReachFresh(m: LanguageModel<int, int>, ms: seq<ShardModule<int, int>>, s: System<int, int>)
    requires Fresh(ms, s)
    ensures Reachable(m, ms, s)
  {
    var none: seq<Action<int, int>> := [];
    assert IsRun(m, ms, [s], none) && [s][|none|] == s;
  }

  lemma {:induction false} Reach(
    m: LanguageModel<int, int>, ms: seq<ShardModule<int, int>>, s: System<int, int>, a: Action<int, int>,
    s': System<int, int>)
    requires Reachable(m, ms, s) && Follows(m, ms, s, a, s')
    ensures Reachable(m, ms, s')
  {
    hide Follows, Fresh;
    var states, actions :| IsRun<int, int>(m, ms, states, actions) && Fresh(ms, states[0]) && states[|actions|] == s;
    var states', actions' := states + [s'], actions + [a];
    forall i, j | 0 <= i < |actions'| && j == i + 1
      ensures Follows(m, ms, states'[i], actions'[i], states'[j])
    {
      assert i < |actions| ==> Follows(m, ms, states[i], actions[i], states[j]);
    }
    assert IsRun(m, ms, states', actions') && states'[|actions'|] == s';
  }

  /** The one-layer model on its one worker. */
  ghost predicate OneWorker(m: LanguageModel<int, int>, cuts: seq<(nat, nat)>, ms: seq<ShardModule<int, int>>) {
    cuts != [] && cuts[0].0 == 0 && Sharded(m, cuts, ms) && |ms| == 1 && WellFormed(ms[0])
  }

  /** The callers that came before c, c itself holding the lock, and what earlier passes left. */
  ghost predicate Holds(s: System<int, int>, c: nat, yielded: seq<int>) {
    && |s.callers| == c + 1 && s.lock == Some(c)
    && s.callers[c].phase == Holding && s.callers[c].prompt == [1] && s.callers[c].maxNewTokens == 2
    && s.callers[c].yielded == yielded
  }

  /** A caller arrives and takes the free lock. */
  lemma {:induction false} EnterLock(
    m: LanguageModel<int, int>, ms: seq<ShardModule<int, int>>, s: System<int, int>, prompt: seq<int>, n: int)
    returns (s': System<int, int>)
    requires Reachable(m, ms, s) && AllSized(ms, s.caches) && s.lock == None
    ensures Reachable(m, ms, s')
    ensures s' == System(s.caches, Some(|s.callers|), s.callers + [Caller(prompt, n, [], [], Holding)], s.loose)
  {
    hide Turn, Leftover, AfterStray, Onward, HopSpec, Reachable;
    var me := Caller(prompt, n, [], [], Holding);
    var s1 := s.(callers := s.callers + [me.(phase := Waiting)]);
    Reach(m, ms, s, Arrive(prompt, n), s1);
    s' := s1.(lock := Some(|s.callers|), callers := s.callers + [me]);
    assert s'.callers == s1.callers[|s.callers| := me];
    Reach(m, ms, s1, Acquire(|s.callers|), s');
  }

  /** The holder takes a step on workers that are in step with `ids`, as far as its input shows. */
  lemma {:induction false} TakeStep(
    m: LanguageModel<int, int>, cuts: seq<(nat, nat)>, ms: seq<ShardModule<int, int>>, s: System<int, int>, c: nat,
    ids: seq<int>, env: StepEnv<int>) returns (s': System<int, int>)
    requires OneWorker(m, cuts, ms) && Reachable(m, ms, s) && AllSized(ms, s.caches) && |env.hops| == 1
    requires c < |s.callers| && s.lock == Some(c) && Enabled(1, s, Step(c, env)) && StepClean(env)
    requires ids != [] && InStep(m, cuts, s.caches, ids, |s.callers[c].yielded|)
    requires var me := s.callers[c];
             StepInput(me.prompt + me.yielded, |me.yielded|) == StepInput(ids, |me.yielded|)
    ensures Reachable(m, ms, s') && AllSized(ms, s'.caches) && Synced(m, cuts, s'.caches, ids)
    ensures s'.lock == s.lock && s'.loose == s.loose
    ensures var me := s.callers[c];
            s'.callers == s.callers[c := me.(yielded := me.yielded + [NextToken(m, ids)],
                                             outputs := me.outputs + [StepRows(m, ids, |me.yielded|)])]
  {
    hide StepSpec, HopSpec, ChainSpec, Reachable, Synced, Sharded, NextToken, StepRows;
    CleanTurn(m, cuts, ms, s.caches, s.callers[c], ids, env);
    assert Contained(env);
    ContainedLeavesNothing(ms, s.caches, s.callers[c], env);
    s' := Lock.After(m, ms, s, Step(c, env));
    Reach(m, ms, s, Step(c, env), s');
  }

  /** On one worker, a stray hop leaves what a pass of one hop leaves. */
  lemma {:induction false} OneHopIsPass(
    ms: seq<ShardModule<int, int>>, caches: seq<CacheEntry<int>>, input: seq<int>, hop: Hop<int>)
    requires |ms| == 1 && AllSized(ms, caches)
    ensures AfterStray(ms, caches, StrayHop(0, input, true, hop.fault)) == ChainSpec(ms, caches, input, true, [hop]).0
  {
    hide HopSpec;
    var h := HopSpec(ms[0], caches[0], input, true, hop.fault);
    assert ms[1..] == [] && caches[1..] == [] && [hop][1..] == [];
    assert caches[0 := h.0] == [h.0] + [];
  }

  /** On one worker, a clean hop that resets leaves it in step with what it was sent. */
  lemma {:induction false} OneHopSyncs(
    m: LanguageModel<int, int>, cuts: seq<(nat, nat)>, ms: seq<ShardModule<int, int>>, caches: seq<CacheEntry<int>>,
    input: seq<int>)
    requires OneWorker(m, cuts, ms) && AllSized(ms, caches)
    ensures Synced(m, cuts, AfterStray(ms, caches, StrayHop(0, input, true, Computes(NoFault))), input)
  {
    hide HopSpec, Synced, Sharded, ChainSpec, AfterStray;
    var hop: Hop<int> := Hop(Computes(NoFault), 0.0, 0);
    PassComputesLogits(m, cuts, ms, caches, [], input, true, [hop]);
    assert [] + input == input;
    OneHopIsPass(ms, caches, input, hop);
  }

  /** A generation on 5 gives its first call up; one on 1 yields its first token; then the abandoned
      pass runs after all. */
  lemma {:induction false} StrayRuns(m: LanguageModel<int, int>, cuts: seq<(nat, nat)>, ms: seq<ShardModule<int, int>>,
                                     env: StepEnv<int>) returns (s: System<int, int>)
    requires OneWorker(m, cuts, ms) && StepClean(env) && |env.hops| == 1 && NextToken(m, [1]) == 1
    ensures Reachable(m, ms, s) && AllSized(ms, s.caches) && Holds(s, 1, [1]) && Synced(m, cuts, s.caches, [5])
  {
    hide Reachable, HopSpec, ChainSpec, Sharded, NextToken, Synced, StepRows;
    var s2 := GivesUp(m, ms, env);
    var s4 := EnterLock(m, ms, s2, [1], 2);
    assert [1] + [] == [1];
    var s5 := TakeStep(m, cuts, ms, s4, 1, [1], env);
    OneHopSyncs(m, cuts, ms, s5.caches, [5]);
    s := Lock.After(m, ms, s5, Stray(0, Computes(NoFault)));
    Reach(m, ms, s5, Stray(0, Computes(NoFault)), s);
  }

  lemma {:induction false} GivesUp(m: LanguageModel<int, int>, ms: seq<ShardModule<int, int>>, env: StepEnv<int>)
    returns (s: System<int, int>)
    requires |ms| == 1 && WellFormed(ms[0]) && |env.hops| == 1
    ensures Reachable(m, ms, s) && s.caches == [None] && s.lock == None && |s.callers| == 1
    ensures s.loose == [LoosePass(0, [5], true)]
  {
    hide Reachable, HopSpec, ChainSpec;
    var s0: System<int, int> := System([None], None, [], []);
    ReachFresh(m, ms, s0);
    var s1 := EnterLock(m, ms, s0, [5], 1);
    var lost := env.(reach := GivenUp);
    assert [5] + [] == [5];
    s := Lock.After(m, ms, s1, Step(0, lost));
    Reach(m, ms, s1, Step(0, lost), s);
  }

  /** One token into a generation on 1, everything in step. */
  lemma {:induction false} OneTokenIn(m: LanguageModel<int, int>, cuts: seq<(nat, nat)>, ms: seq<ShardModule<int, int>>,
                                      env: StepEnv<int>) returns (s: System<int, int>)
    requires OneWorker(m, cuts, ms) && StepClean(env) && |env.hops| == 1 && NextToken(m, [1]) == 1
    ensures Reachable(m, ms, s) && AllSized(ms, s.caches) && Holds(s, 0, [1]) && Synced(m, cuts, s.caches, [1])
  {
    hide Reachable, HopSpec, ChainSpec, Sharded, NextToken, Synced, StepRows;
    var s0: System<int, int> := System([None], None, [], []);
    ReachFresh(m, ms, s0);
    var s1 := EnterLock(m, ms, s0, [1], 2);
    assert [1] + [] == [1];
    s := TakeStep(m, cuts, ms, s1, 0, [1], env);
  }

  /** The holder's second step, whatever its worker is in step with by then. */
  lemma {:induction false} SecondToken(
    m: LanguageModel<int, int>, cuts: seq<(nat, nat)>, ms: seq<ShardModule<int, int>>, s: System<int, int>, c: nat,
    fed: seq<int>, env: StepEnv<int>) returns (s': System<int, int>)
    requires OneWorker(m, cuts, ms) && Reachable(m, ms, s) && AllSized(ms, s.caches) && Holds(s, c, [1])
    requires StepClean(env) && |env.hops| == 1 && Synced(m, cuts, s.caches, fed)
    ensures Reachable(m, ms, s') && Holds(s', c, [1, NextToken(m, fed + [1])])
  {
    hide Reachable, HopSpec, ChainSpec, Sharded, NextToken, Synced, StepRows;
    SyncedIsInStep(m, cuts, s.caches, fed, fed + [1], 1, 1);
    assert s.callers[c].prompt + [1] == [1, 1];
    s' := TakeStep(m, cuts, ms, s, c, fed + [1], env);
    assert [1] + [NextToken(m, fed + [1])] == [1, NextToken(m, fed + [1])];
  }

  /** With the model above, prompt 1 and two tokens to come: a generation left alone yields 1, 2. */
  lemma {:induction false} LeftAlone(env: StepEnv<int>)
    returns (m: LanguageModel<int, int>, ms: seq<ShardModule<int, int>>, s: System<int, int>)
    requires StepClean(env) && |env.hops| == 1
    ensures |m.layers| == 1 && ms == [ShardOf(m, (0, 1))] && NextToken(m, [1]) == 1 && NextToken(m, [1, 1]) == 2
    ensures Reachable(m, ms, s) && Holds(s, 0, [1, 2])
  {
    hide Reachable, HopSpec, ChainSpec, NextToken, Synced, ShardOf;
    var cuts;
    m, cuts, ms := TheModel();
    var s1 := OneTokenIn(m, cuts, ms, env);
    s := SecondToken(m, cuts, ms, s1, 0, [1], env);
    assert [1] + [1] == [1, 1];
  }

  lemma {:induction false} TheModel()
    returns (m: LanguageModel<int, int>, cuts: seq<(nat, nat)>, ms: seq<ShardModule<int, int>>)
    ensures |m.layers| == 1 && ms == [ShardOf(m, (0, 1))] && OneWorker(m, cuts, ms)
    ensures NextToken(m, [1]) == 1 && NextToken(m, [1, 1]) == 2 && NextToken(m, [5, 1]) == 6
  {
    hide NextToken;
    m := ContinuationsDiffer();
    cuts := [(0, 1)];
    ms := [ShardOf(m, (0, 1))];
    assert cuts[1..] == [] && ms[1..] == [];
    assert CutsTo(cuts, 1) && Sharded(m, cuts[1..], ms[1..]);
    assert Sharded(m, cuts, ms);
  }

  /** The same generation when a pass that an earlier one gave up runs in between: 1, 6, and no step fails. */
  lemma {:induction false} StrayedGeneration(env: StepEnv<int>)
    returns (m: LanguageModel<int, int>, ms: seq<ShardModule<int, int>>, s: System<int, int>)
    requires StepClean(env) && |env.hops| == 1
    ensures |m.layers| == 1 && ms == [ShardOf(m, (0, 1))] && NextToken(m, [1]) == 1 && NextToken(m, [1, 1]) == 2
    ensures Reachable(m, ms, s) && Holds(s, 1, [1, 6])
  {
    hide Reachable, HopSpec, ChainSpec, NextToken, Synced, ShardOf;
    var cuts;
    m, cuts, ms := TheModel();
    var s1 := StrayRuns(m, cuts, ms, env);
    s := SecondToken(m, cuts, ms, s1, 1, [5], env);
    assert [5] + [1] == [5, 1];
  }

  /** The same generation when its worker is reloaded in between: 1, 1, and no step fails. */
  lemma {:induction false} ReloadedGeneration(env: StepEnv<int>)
    returns (m: LanguageModel<int, int>, ms: seq<ShardModule<int, int>>, s: System<int, int>)
    requires StepClean(env) && |env.hops| == 1
    ensures |m.layers| == 1 && ms == [ShardOf(m, (0, 1))] && NextToken(m, [1]) == 1 && NextToken(m, [1, 1]) == 2
    ensures Reachable(m, ms, s) && |s.callers| == 1 && s.callers[0].yielded == [1, 1]
  {
    hide Reachable, HopSpec, ChainSpec, NextToken, Synced, ShardOf;
    var cuts;
    m, cuts, ms := TheModel();
    var s1 := OneTokenIn(m, cuts, ms, env);
    var s2 := Lock.After(m, ms, s1, Reload(0));
    assert s2.caches == [None] && Sized(ms[0], None);
    Reach(m, ms, s1, Reload(0), s2);
    ReloadHijacks(m, cuts, ms, s2.caches, s2.callers[0], env);
    s := Lock.After(m, ms, s2, Step(0, env));
    Reach(m, ms, s2, Step(0, env), s);
    assert [1] + [NextToken(m, [1])] == [1, 1];
  }

  /** The same generation when run_forward runs on 5 in between: 1, 6, and no step fails. */
  lemma {:induction false} HijackedGeneration(env: StepEnv<int>)
    returns (m: LanguageModel<int, int>, ms: seq<ShardModule<int, int>>, s: System<int, int>, hijacked: seq<int>)
    requires StepClean(env) && |env.hops| == 1
    ensures |m.layers| == 1 && ms == [ShardOf(m, (0, 1))] && NextToken(m, [1]) == 1 && NextToken(m, [1, 1]) == 2
    ensures Reachable(m, ms, s) && Holds(s, 0, [1]) && AllSized(ms, s.caches) && Enabled(1, s, Step(0, env))
    ensures hijacked == Lock.After(m, ms, AfterRunForward(ms, s, [5], env), Step(0, env)).callers[0].yielded == [1, 6]
  {
    hide Reachable, HopSpec, ChainSpec, NextToken, Synced, ShardOf;
    var cuts;
    m, cuts, ms := TheModel();
    s := OneTokenIn(m, cuts, ms, env);
    RunForwardHijacks(m, cuts, ms, s, 0, [5], env, env);
    hijacked := Lock.After(m, ms, AfterRunForward(ms, s, [5], env), Step(0, env)).callers[0].yielded;
    assert [5] + [1] == [5, 1];
  }

  lemma {:induction false} SummingLogits(
    m: LanguageModel<int, int>, add: Step<int, int>, same: int -> int, a: int, b: int)
    requires m.layers == [add] && m.blank(0) == 0
    requires m.embed == m.norm == m.head == same
    requires add(0, a) == (a, a) && add(a, b) == (a + b, a + b)
    requires same(a) == a && same(b) == b && same(a + b) == a + b
    ensures Logits(m, [a, b]) == [a, a + b]
  {
    var ids, out := [a, b], [a, a + b];
    assert MapRows(same, ids) == ids && MapRows(same, out) == out;
    RunOne(add, 0, a);
    RunOne(add, a, b);
    LayerRunAppend(add, 0, [a], [b]);
    assert [a] + [b] == ids;
    assert Hidden(m, 1, ids) == out;
  }

  lemma {:induction false} RunOne<S, R>(step: Step<S, R>, s: S, x: R)
    ensures LayerRun(step, s, [x]) == (step(s, x).0, [step(s, x).1])
  {
    var xs := [x];
    var before := LayerRun(step, s, xs[..|xs| - 1]);
    assert xs[..|xs| - 1] == [];
    assert before == (s, []);
    var last := step(before.0, xs[|xs| - 1]);
    assert before.1 + [last.1] == [step(s, x).1];
  }

  lemma {:induction false} FirstLogits(m: LanguageModel<int, int>, add: Step<int, int>, same: int -> int, a: int)
    requires m.layers == [add] && m.blank(0) == 0
    requires m.embed == m.norm == m.head == same
    requires add(0, a) == (a, a) && same(a) == a
    ensures Logits(m, [a]) == [a]
  {
    assert MapRows(same, [a]) == [a];
    RunOne(add, 0, a);
    assert Hidden(m, 1, [a]) == [a];
  }
}
