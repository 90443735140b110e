/**
 inference/shard.py: a contiguous slice of the layer stack, run against a recurrent cache that is
 indexed by the layers' global numbers.
 */
module Shard {
  import opened Wrappers
  import opened Recurrence

  /** One entry of a shard's layer list; it keeps its global number after slicing. */
  datatype Block<!S, !R> = Block(layerIdx: nat, step: Step<S, R>)

  datatype ShardModule<!S, !R> = ShardModule(
    layers: seq<Block<S, R>>,
    isFirst: bool,
    isLast: bool,
    embeddings: Option<R -> R>,
    normF: Option<R -> R>,
    lmHead: Option<R -> R>,
    numHiddenLayers: nat,      // of the full model's config, not of this shard
    blank: nat -> S)

  /** A handle's cache and the recurrent state in it, updated in place by every layer.  None is
      Python's None: no cache has been built yet. */
  class RecurrentCache<S> {
    var layers: Option<seq<S>>

    constructor ()
      ensures layers == None
    {
      layers := None;
    }
  }

  /** An exception inside forward: layer `at` raises with its own entry left at `junk`;
      past the last layer it is the norm, the head or the serialisation that raises. */
  datatype Fault<+S> = NoFault | Raises(at: nat, junk: S)

  ghost predicate WellFormed<S, R>(m: ShardModule<S, R>) {
    && (m.isFirst ==> m.embeddings.Some?)
    && (m.isLast ==> m.normF.Some? && m.lmHead.Some?)
    && (forall k :: 0 <= k < |m.layers| ==> m.layers[k].layerIdx < m.numHiddenLayers)
  }

  function NewShard<S, R>(layers: seq<Block<S, R>>, isFirst: bool, isLast: bool, embeddings: Option<R -> R>,
                          normF: Option<R -> R>, lmHead: Option<R -> R>, numHiddenLayers: nat, blank: nat -> S)
    : Result<ShardModule<S, R>, string>
  {
    if isFirst && embeddings.None? then Err("ValueError")
    else if isLast && (normF.None? || lmHead.None?) then Err("ValueError")
    else Ok(ShardModule(layers, isFirst, isLast,
                        if isFirst then embeddings else None,
                        if isLast then normF else None,
                        if isLast then lmHead else None, numHiddenLayers, blank))
  }

  function Slice<S, R>(m: LanguageModel<S, R>, lo: nat, hi: nat): (bs: seq<Block<S, R>>)
    requires lo <= hi <= |m.layers|
    ensures |bs| == hi - lo
  {
    seq(hi - lo, k requires 0 <= k < hi - lo => Block(lo + k, m.layers[lo + k]))
  }

  function FromModel<S, R>(m: LanguageModel<S, R>, lo: nat, hi: nat, isFirst: bool, isLast: bool)
    : (r: Result<ShardModule<S, R>, string>)
    requires lo <= hi <= |m.layers|
    ensures r.Ok? && WellFormed(r.value)
  {
    NewShard(Slice(m, lo, hi), isFirst, isLast,
             if isFirst then Some(m.embed) else None,
             if isLast then Some(m.norm) else None,
             if isLast then Some(m.head) else None, |m.layers|, m.blank)
  }

  function BlankEntries<S, R>(m: ShardModule<S, R>): (c: seq<S>)
    ensures |c| == m.numHiddenLayers
  {
    seq(m.numHiddenLayers, i requires 0 <= i < m.numHiddenLayers => m.blank(i))
  }

  // ---------- What a forward pass means ----------

  function Before<S, R>(m: ShardModule<S, R>, x: seq<R>): (y: seq<R>)
    requires WellFormed(m)
    ensures |y| == |x|
  {
    if m.isFirst then MapRows(m.embeddings.value, x) else x
  }

  function After<S, R>(m: ShardModule<S, R>, x: seq<R>): (y: seq<R>)
    requires WellFormed(m)
    ensures |y| == |x|
  {
    if m.isLast then MapRows(m.lmHead.value, MapRows(m.normF.value, x)) else x
  }

  /** The shard's first k layers on a cache indexed by global layer number. */
  function RunBlocks<S, R>(m: ShardModule<S, R>, k: nat, cache: seq<S>, xs: seq<R>): (r: (seq<S>, seq<R>))
    requires WellFormed(m) && k <= |m.layers| && |cache| == m.numHiddenLayers
    ensures |r.0| == |cache| && |r.1| == |xs|
    decreases k
  {
    if k == 0 then (cache, xs)
    else
      var below := RunBlocks(m, k - 1, cache, xs);
      var b := m.layers[k - 1];
      var top := LayerRun(b.step, below.0[b.layerIdx], below.1);
      (below.0[b.layerIdx := top.0], top.1)
  }

  function RunStateless<S, R>(m: ShardModule<S, R>, k: nat, xs: seq<R>): (ys: seq<R>)
    requires k <= |m.layers|
    ensures |ys| == |xs|
    decreases k
  {
    if k == 0 then xs
    else
      var b := m.layers[k - 1];
      LayerRun(b.step, m.blank(b.layerIdx), RunStateless(m, k - 1, xs)).1
  }

  /** How many layers complete under a fault. */
  function Completed<S, R>(m: ShardModule<S, R>, fault: Fault<S>): (k: nat)
    ensures k <= |m.layers|
  {
    if fault.Raises? && fault.at < |m.layers| then fault.at else |m.layers|
  }

  /** The cache a forward pass leaves, and the rows it returns unless it raised. */
  function ForwardSpec<S, R>(m: ShardModule<S, R>, x: seq<R>, cache: seq<S>, fault: Fault<S>)
    : (r: (seq<S>, Option<seq<R>>))
    requires WellFormed(m) && |cache| == m.numHiddenLayers
    ensures |r.0| == |cache|
  {
    var k := Completed(m, fault);
    var run := RunBlocks(m, k, cache, Before(m, x));
    if k < |m.layers| then (run.0[m.layers[k].layerIdx := fault.junk], None)
    else if fault.Raises? then (run.0, None)
    else (run.0, Some(After(m, run.1)))
  }

  // ---------- The program ----------

  /** Put a freshly built cache in place of whatever was there. */
  method NewCache<S, R>(m: ShardModule<S, R>, cache: RecurrentCache<S>)
    modifies cache
    ensures cache.layers == Some(BlankEntries(m))
  {
    cache.layers := Some(BlankEntries(m));
  }

  method Forward<S, R>(m: ShardModule<S, R>, x0: seq<R>, cache: RecurrentCache<S>, fault: Fault<S>)
    returns (r: Option<seq<R>>)
    requires WellFormed(m) && cache.layers.Some? && |cache.layers.value| == m.numHiddenLayers
    modifies cache
    ensures cache.layers.Some? && (cache.layers.value, r) == ForwardSpec(m, x0, old(cache.layers.value), fault)
  {
    var x := x0;
    if m.isFirst {
      x := MapRows(m.embeddings.value, x);
    }
    ghost var start := x;
    for k := 0 to |m.layers|
      invariant fault.Raises? ==> k <= fault.at
      invariant cache.layers.Some? && (cache.layers.value, x) == RunBlocks(m, k, old(cache.layers.value), start)
    {
      var b := m.layers[k];
      var entries := cache.layers.value;
      if fault.Raises? && fault.at == k {
        cache.layers := Some(entries[b.layerIdx := fault.junk]);
        return None;
      }
      var out := LayerRun(b.step, entries[b.layerIdx], x);
      cache.layers := Some(entries[b.layerIdx := out.0]);
      x := out.1;
    }
    if fault.Raises? {
      return None;
    }
    if m.isLast {
      x := MapRows(m.normF.value, x);
      x := MapRows(m.lmHead.value, x);
    }
    return Some(x);
  }

  /** The same pass without cache_params: every layer starts from its blank state. */
  method ForwardStateless<S, R>(m: ShardModule<S, R>, x0: seq<R>) returns (x: seq<R>)
    requires WellFormed(m)
    ensures x == After(m, RunStateless(m, |m.layers|, Before(m, x0)))
  {
    x := x0;
    if m.isFirst {
      x := MapRows(m.embeddings.value, x);
    }
    ghost var start := x;
    for k := 0 to |m.layers|
      invariant x == RunStateless(m, k, start)
    {
      var b := m.layers[k];
      x := LayerRun(b.step, m.blank(b.layerIdx), x).1;
    }
    if m.isLast {
      x := MapRows(m.normF.value, x);
      x := MapRows(m.lmHead.value, x);
    }
  }

  // ---------- A sliced shard against the full model ----------

  lemma {:induction false} SlicedBlocksAreStack<S, R>(
    m: LanguageModel<S, R>, lo: nat, hi: nat, isFirst: bool, isLast: bool, k: nat, cache: seq<S>, xs: seq<R>)
    requires lo <= hi <= |m.layers| == |cache| && k <= hi - lo
    ensures RunBlocks(FromModel(m, lo, hi, isFirst, isLast).value, k, cache, xs) == StackRun(m, lo, lo + k, cache, xs)
    decreases k
  {
    hide LayerRun;
    if k > 0 {
      SlicedBlocksAreStack(m, lo, hi, isFirst, isLast, k - 1, cache, xs);
    }
  }

  lemma {:induction false} StatelessBlocksAreHidden<S, R>(m: LanguageModel<S, R>, k: nat, ids: seq<R>)
    requires k <= |m.layers|
    ensures RunStateless(FromModel(m, 0, |m.layers|, true, true).value, k, MapRows(m.embed, ids)) == Hidden(m, k, ids)
    decreases k
  {
    if k > 0 {
      StatelessBlocksAreHidden(m, k - 1, ids);
    }
  }

  /** The reference of module Recurrence is the unsharded program run without a cache. */
  lemma {:induction false} WholeShardIsReference<S, R>(m: LanguageModel<S, R>, ids: seq<R>)
    ensures var w := FromModel(m, 0, |m.layers|, true, true).value;
            After(w, RunStateless(w, |w.layers|, Before(w, ids))) == Logits(m, ids)
  {
    StatelessBlocksAreHidden(m, |m.layers|, ids);
  }

  /** Whatever a pass does, even one that raises part way, entries outside its own range stay put. */
  lemma {:induction false} ForwardKeepsForeignEntries<S, R>(
    m: ShardModule<S, R>, x: seq<R>, cache: seq<S>, fault: Fault<S>, j: nat)
    requires WellFormed(m) && |cache| == m.numHiddenLayers && j < |cache|
    requires forall k :: 0 <= k < |m.layers| ==> m.layers[k].layerIdx != j
    ensures ForwardSpec(m, x, cache, fault).0[j] == cache[j]
  {
    BlocksKeepForeignEntries(m, Completed(m, fault), cache, Before(m, x), j);
  }

  lemma {:induction false} BlocksKeepForeignEntries<S, R>(
    m: ShardModule<S, R>, k: nat, cache: seq<S>, xs: seq<R>, j: nat)
    requires WellFormed(m) && k <= |m.layers| && |cache| == m.numHiddenLayers && j < |cache|
    requires forall i :: 0 <= i < |m.layers| ==> m.layers[i].layerIdx != j
    ensures RunBlocks(m, k, cache, xs).0[j] == cache[j]
    decreases k
  {
    if k > 0 {
      BlocksKeepForeignEntries(m, k - 1, cache, xs, j);
    }
  }

  /** Each layer has a number of its own, as the layers of a slice have. */
  ghost predicate NumberedApart<S, R>(m: ShardModule<S, R>) {
    forall i, j :: 0 <= i < j < |m.layers| ==> m.layers[i].layerIdx != m.layers[j].layerIdx
  }

  /** Further layers leave a layer's entry as they find it. */
  lemma {:induction false} LaterBlocksKeepEntry<S, R>(
    m: ShardModule<S, R>, k: nat, n: nat, cache: seq<S>, xs: seq<R>, i: nat)
    requires WellFormed(m) && NumberedApart(m) && |cache| == m.numHiddenLayers
    requires k <= n <= |m.layers| && i < |m.layers| && (i < k || n <= i)
    ensures RunBlocks(m, n, cache, xs).0[m.layers[i].layerIdx] == RunBlocks(m, k, cache, xs).0[m.layers[i].layerIdx]
    decreases n
  {
    hide LayerRun;
    if k < n {
      LaterBlocksKeepEntry(m, k, n - 1, cache, xs, i);
    }
  }

  /** A pass that raises at a layer has updated the layers below it as a whole pass does, has left its
      own entry as the layer left it, and has not touched the layers above. */
  lemma {:induction false} BrokenForward<S, R>(m: ShardModule<S, R>, x: seq<R>, cache: seq<S>, fault: Fault<S>, i: nat)
    requires WellFormed(m) && NumberedApart(m) && |cache| == m.numHiddenLayers && i < |m.layers| && fault.Raises?
    ensures ForwardSpec(m, x, cache, fault).1 == None
    ensures ForwardSpec(m, x, cache, fault).0[m.layers[i].layerIdx] ==
              if i < fault.at then ForwardSpec(m, x, cache, NoFault).0[m.layers[i].layerIdx]
              else if i == fault.at then fault.junk else cache[m.layers[i].layerIdx]
  {
    hide RunBlocks;
    var k, n := Completed(m, fault), |m.layers|;
    if i < k {
      LaterBlocksKeepEntry(m, k, n, cache, Before(m, x), i);
    } else {
      LaterBlocksKeepEntry(m, 0, k, cache, Before(m, x), i);
      NoBlocks(m, cache, Before(m, x));
    }
  }

  lemma {:induction false} NoBlocks<S, R>(m: ShardModule<S, R>, cache: seq<S>, xs: seq<R>)
    requires WellFormed(m) && |cache| == m.numHiddenLayers
    ensures RunBlocks(m, 0, cache, xs) == (cache, xs)
  {
  }
}
