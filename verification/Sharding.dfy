/**
 One pass over a chain of sharded, cached workers against the whole, cache-free model.

 Everything here is about ChainSpec, the effect that module Worker proves RunShard to have.
 */
module Sharding {
  import opened Wrappers
  import opened Recurrence
  import opened Shard
  import opened Worker
  import Dispatch

  /** The shard a worker builds for a range, with the flags it recomputes from that range. */
  ghost function ShardOf<S, R>(m: LanguageModel<S, R>, cut: (nat, nat)): ShardModule<S, R>
    requires cut.0 <= cut.1 <= |m.layers|
  {
    FromModel(m, cut.0, cut.1, cut.0 == 0, cut.1 == |m.layers|).value
  }

  /** Adjacent non-empty ranges that end at n. */
  ghost predicate CutsTo(cuts: seq<(nat, nat)>, n: nat) {
    cuts != [] ==>
      && cuts[0].0 < cuts[0].1 <= n
      && (if |cuts| == 1 then cuts[0].1 == n else cuts[0].1 == cuts[1].0 && cuts[0].1 < n)
      && CutsTo(cuts[1..], n)
  }

  ghost predicate Sharded<S, R>(m: LanguageModel<S, R>, cuts: seq<(nat, nat)>, ms: seq<ShardModule<S, R>>) {
    && CutsTo(cuts, |m.layers|) && |cuts| == |ms|
    && (cuts != [] ==> ms[0] == ShardOf(m, cuts[0]) && Sharded(m, cuts[1..], ms[1..]))
  }

  /** A worker's cache after the rows `fed`: its own entries are the whole model's, the others are untouched. */
  ghost predicate StageSynced<S, R>(m: LanguageModel<S, R>, cut: (nat, nat), cache: CacheEntry<S>, fed: seq<R>) {
    && cache.Some? && |cache.value| == |m.layers|
    && forall j :: 0 <= j < |m.layers| ==>
         cache.value[j] == if cut.0 <= j < cut.1 then FullCache(m, fed)[j] else m.blank(j)
  }

  ghost predicate Synced<S, R>(m: LanguageModel<S, R>, cuts: seq<(nat, nat)>, caches: seq<CacheEntry<S>>, fed: seq<R>) {
    && |cuts| == |caches|
    && (cuts != [] ==> StageSynced(m, cuts[0], caches[0], fed) && Synced(m, cuts[1..], caches[1..], fed))
  }

  ghost predicate AllClean<S>(hops: seq<Hop<S>>) {
    forall k :: 0 <= k < |hops| ==> Clean(hops[k])
  }

  // ---------- One stage ----------

  /** The rows that reach layer lo of the whole model when x follows fed. */
  ghost function RowsBelow<S, R>(m: LanguageModel<S, R>, fed: seq<R>, x: seq<R>, lo: nat): seq<R>
    requires lo <= |m.layers|
  {
    StackRun(m, 0, lo, FullCache(m, fed), MapRows(m.embed, x)).1
  }

  ghost function StageInput<S, R>(m: LanguageModel<S, R>, fed: seq<R>, x: seq<R>, lo: nat): seq<R>
    requires lo <= |m.layers|
  {
    if lo == 0 then x
    else if lo == |m.layers| then MapRows(m.head, MapRows(m.norm, RowsBelow(m, fed, x, lo)))
    else RowsBelow(m, fed, x, lo)
  }

  lemma {:induction false} EmptyRunIsIdle<S, R>(m: LanguageModel<S, R>, lo: nat, hi: nat, cache: seq<S>)
    requires lo <= hi <= |m.layers| && hi <= |cache|
    ensures StackRun(m, lo, hi, cache, []) == (cache, [])
    decreases hi - lo
  {
    if lo < hi {
      EmptyRunIsIdle(m, lo, hi - 1, cache);
      assert cache[hi - 1 := cache[hi - 1]] == cache;
    }
  }

  lemma {:induction false} NothingFed<S, R>(m: LanguageModel<S, R>)
    ensures FullCache(m, []) == Blank(m)
  {
    assert MapRows(m.embed, []) == [];
    EmptyRunIsIdle(m, 0, |m.layers|, Blank(m));
  }

  /** What a stage computes from its own slice is what the whole stack computes there. */
  lemma {:induction false} SliceOfWholeRun<S, R>(
    m: LanguageModel<S, R>, cut: (nat, nat), start: seq<S>, fed: seq<R>, x: seq<R>)
    requires cut.0 < cut.1 <= |m.layers| == |start|
    requires forall j :: cut.0 <= j < cut.1 ==> start[j] == FullCache(m, fed)[j]
    ensures var r := StackRun(m, cut.0, cut.1, start, RowsBelow(m, fed, x, cut.0));
            && r.1 == RowsBelow(m, fed, x, cut.1)
            && (forall j :: 0 <= j < |m.layers| ==>
                r.0[j] == if cut.0 <= j < cut.1 then FullCache(m, fed + x)[j] else start[j])
  {
    var n := |m.layers|;
    var (lo, hi) := cut;
    var full, rows := FullCache(m, fed), MapRows(m.embed, x);
    var below := StackRun(m, 0, lo, full, rows);
    StackRunFrame(m, 0, lo, full, rows);
    StackRunReadsOwnEntries(m, lo, hi, start, below.0, below.1);
    StackRunSplit(m, 0, lo, hi, full, rows);
    StackRunSplit(m, 0, hi, n, full, rows);
    StackRunFrame(m, lo, hi, start, below.1);
    StackRunFrame(m, hi, n, StackRun(m, 0, hi, full, rows).0, StackRun(m, 0, hi, full, rows).1);
    CachedDecode(m, fed, x);
  }

  /** A shard's forward pass is its slice of the stack, between the right kinds of rows. */
  lemma {:induction false} ForwardOfSlice<S, R>(
    m: LanguageModel<S, R>, cut: (nat, nat), start: seq<S>, fed: seq<R>, x: seq<R>)
    requires cut.0 < cut.1 <= |m.layers| == |start|
    requires forall j :: cut.0 <= j < cut.1 ==> start[j] == FullCache(m, fed)[j]
    ensures var r := ForwardSpec(ShardOf(m, cut), StageInput(m, fed, x, cut.0), start, NoFault);
            && r.1 == Some(StageInput(m, fed, x, cut.1))
            && (forall j :: 0 <= j < |m.layers| ==>
                r.0[j] == if cut.0 <= j < cut.1 then FullCache(m, fed + x)[j] else start[j])
  {
    hide RunBlocks, StackRun, FullCache, RowsBelow, StageInput, Before, After;
    var rows := RowsBelow(m, fed, x, cut.0);
    RowsIntoSlice(m, cut, fed, x);
    SlicedBlocksAreStack(m, cut.0, cut.1, cut.0 == 0, cut.1 == |m.layers|, cut.1 - cut.0, start, rows);
    SliceOfWholeRun(m, cut, start, fed, x);
    RowsOutOfSlice(m, cut, fed, x);
  }

  /** What a stage is sent becomes the rows below its range, */
  lemma {:induction false} RowsIntoSlice<S, R>(m: LanguageModel<S, R>, cut: (nat, nat), fed: seq<R>, x: seq<R>)
    requires cut.0 < cut.1 <= |m.layers|
    ensures Before(ShardOf(m, cut), StageInput(m, fed, x, cut.0)) == RowsBelow(m, fed, x, cut.0)
  {
  }

  /** and the rows above it become what the stage sends on. */
  lemma {:induction false} RowsOutOfSlice<S, R>(m: LanguageModel<S, R>, cut: (nat, nat), fed: seq<R>, x: seq<R>)
    requires cut.0 < cut.1 <= |m.layers|
    ensures After(ShardOf(m, cut), RowsBelow(m, fed, x, cut.1)) == StageInput(m, fed, x, cut.1)
  {
  }

  /** A clean hop turns the rows below its range into the rows above it, and keeps its cache in step. */
  lemma {:induction false} StageComputes<S, R>(
    m: LanguageModel<S, R>, cut: (nat, nat), cache: CacheEntry<S>, fed: seq<R>, x: seq<R>, reset: bool, hop: Hop<S>)
    requires cut.0 < cut.1 <= |m.layers| && Sized(ShardOf(m, cut), cache) && Clean(hop)
    requires if reset then fed == [] else StageSynced(m, cut, cache, fed)
    ensures var r := HopSpec(ShardOf(m, cut), cache, StageInput(m, fed, x, cut.0), reset, hop.fault);
            StageSynced(m, cut, r.0, fed + x) && r.1 == Some(StageInput(m, fed, x, cut.1))
  {
    var start := if reset then BlankEntries(ShardOf(m, cut)) else cache.value;
    if reset {
      NothingFed(m);
      assert start == Blank(m);
    }
    ForwardOfSlice(m, cut, start, fed, x);
  }

  /** Clean or not, a hop leaves the entries outside its own range blank or as they were. */
  lemma {:induction false} HopKeepsForeignEntries<S, R>(
    m: LanguageModel<S, R>, cut: (nat, nat), cache: CacheEntry<S>, x: seq<R>, reset: bool, fault: HopFault<S>, j: nat)
    requires cut.0 <= cut.1 <= |m.layers| && Sized(ShardOf(m, cut), cache) && j < |m.layers| && !(cut.0 <= j < cut.1)
    ensures var after := HopSpec(ShardOf(m, cut), cache, x, reset, fault).0;
            after.Some? ==>
              after.value[j] == if fault.Undecodable? || (cache.Some? && !reset) then cache.value[j] else m.blank(j)
  {
    if !fault.Undecodable? {
      var shard := ShardOf(m, cut);
      var start := if reset || cache.None? then BlankEntries(shard) else cache.value;
      ForwardKeepsForeignEntries(shard, x, start, if fault.Computes? then fault.fault else NoFault, j);
    }
  }

  // ---------- The chain ----------

  lemma {:induction false} ChainComputes<S, R>(
    m: LanguageModel<S, R>, cuts: seq<(nat, nat)>, ms: seq<ShardModule<S, R>>, caches: seq<CacheEntry<S>>, fed: seq<R>,
    x: seq<R>, reset: bool, hops: seq<Hop<S>>)
    requires cuts != [] && Sharded(m, cuts, ms) && AllSized(ms, caches) && |hops| == |ms| && AllClean(hops)
    requires if reset then fed == [] else Synced(m, cuts, caches, fed)
    ensures var r := ChainSpec(ms, caches, StageInput(m, fed, x, cuts[0].0), reset, hops);
            Synced(m, cuts, r.0, fed + x) && r.1 == Some(StageInput(m, fed, x, |m.layers|))
    decreases |cuts|
  {
    StageComputes(m, cuts[0], caches[0], fed, x, reset, hops[0]);
    if |cuts| > 1 {
      ChainComputes(m, cuts[1..], ms[1..], caches[1..], fed, x, reset, hops[1..]);
    }
  }

  /** Prefill and decode: a clean pass delivers the whole model's logits for the new rows, and
      leaves every worker's cache in step with all rows fed so far. */
  lemma {:induction false} PassComputesLogits<S, R>(
    m: LanguageModel<S, R>, cuts: seq<(nat, nat)>, ms: seq<ShardModule<S, R>>, caches: seq<CacheEntry<S>>, fed: seq<R>,
    x: seq<R>, reset: bool, hops: seq<Hop<S>>)
    requires cuts != [] && cuts[0].0 == 0 && Sharded(m, cuts, ms) && AllSized(ms, caches) && |hops| == |ms| &&
             AllClean(hops)
    requires if reset then fed == [] else Synced(m, cuts, caches, fed)
    ensures var r := ChainSpec(ms, caches, x, reset, hops);
            Synced(m, cuts, r.0, fed + x) && r.1 == Some(Logits(m, fed + x)[|fed|..])
  {
    var n := |m.layers|;
    ChainComputes(m, cuts, ms, caches, fed, x, reset, hops);
    CachedDecode(m, fed, x);
    assert n > 0;
    MapRowsFrom(m.norm, Hidden(m, n, fed + x), |fed|);
    MapRowsFrom(m.head, MapRows(m.norm, Hidden(m, n, fed + x)), |fed|);
  }

  lemma {:induction false} MapRowsFrom<R>(f: R -> R, xs: seq<R>, k: nat)
    requires k <= |xs|
    ensures MapRows(f, xs[k..]) == MapRows(f, xs)[k..]
  {
  }

  /** A pass delivers exactly when no hop fails before handing on; it never delivers in part. */
  lemma {:induction false} DeliversIffClean<S, R>(
    ms: seq<ShardModule<S, R>>, caches: seq<CacheEntry<S>>, x: seq<R>, reset: bool, hops: seq<Hop<S>>)
    requires AllSized(ms, caches) && |hops| == |ms|
    ensures ChainSpec(ms, caches, x, reset, hops).1.Some? <==> AllClean(hops)
    decreases |ms|
  {
    if ms != [] {
      var h := HopSpec(ms[0], caches[0], x, reset, hops[0].fault);
      assert h.1.Some? <==> Clean(hops[0]);
      assert AllClean(hops) <==> Clean(hops[0]) && AllClean(hops[1..]);
      if h.1.Some? {
        DeliversIffClean(ms[1..], caches[1..], h.1.value, reset, hops[1..]);
      }
    }
  }

  /** What a fault at a hop leaves in the worker's cache.  An input that does not decode touches
      nothing; a call that fails, or whose reply is lost or late, comes after the whole forward pass;
      and a layer that raises comes after the layers below it, and before those above, which are as
      they were, or blank if the hop began by building the cache anew. */
  lemma {:induction false} FaultLeavesCache<S, R>(
    m: ShardModule<S, R>, cache: CacheEntry<S>, x: seq<R>, reset: bool, fault: HopFault<S>, i: nat)
    requires Sized(m, cache) && NumberedApart(m) && i < |m.layers|
    ensures fault.Undecodable? ==> HopSpec(m, cache, x, reset, fault) == (cache, None)
    ensures var clean := HopSpec(m, cache, x, reset, Computes(NoFault));
            && clean.0.Some? && clean.1.Some?
            && (fault.ReplyLost? ==> HopSpec(m, cache, x, reset, fault) == clean)
            && (fault.SendFails? || fault.RunsLate? ==> HopSpec(m, cache, x, reset, fault) == (clean.0, None))
            && (fault.Computes? && fault.fault.Raises? ==>
                  var h, k := HopSpec(m, cache, x, reset, fault), m.layers[i].layerIdx;
                  && h.0.Some? && h.1 == None
                  && h.0.value[k] == if i < fault.fault.at then clean.0.value[k]
                                     else if i == fault.fault.at then fault.fault.junk
                                     else if reset || cache == None then m.blank(k) else cache.value[k])
  {
    hide RunBlocks;
    if fault.Computes? && fault.fault.Raises? {
      var start := if reset || cache.None? then BlankEntries(m) else cache.value;
      BrokenForward(m, x, start, fault.fault, i);
    }
  }

  /** Every hop before the j-th is clean, and the j-th is not. */
  ghost predicate BreaksAt<S>(hops: seq<Hop<S>>, j: nat) {
    j < |hops| && AllClean(hops[..j]) && !Clean(hops[j])
  }

  /** Where a pass breaks off: the workers before that one are left as by a pass over them alone, that
      one as its own hop leaves it, given the rows they handed on, and no worker after it is touched. */
  ghost predicate BrokenPass<S, R>(
    ms: seq<ShardModule<S, R>>, caches: seq<CacheEntry<S>>, x: seq<R>, reset: bool, hops: seq<Hop<S>>, j: nat)
    requires AllSized(ms, caches) && |hops| == |ms| && j < |ms|
  {
    assert Sized(ms[j], caches[j]);
    var before := ChainSpec(ms[..j], caches[..j], x, reset, hops[..j]);
    && before.1.Some?
    && var hop := HopSpec(ms[j], caches[j], before.1.value, reset, hops[j].fault);
       ChainSpec(ms, caches, x, reset, hops) == (before.0 + [hop.0] + caches[j + 1..], None)
  }

  lemma {:induction false} PassBreaks<S, R>(
    ms: seq<ShardModule<S, R>>, caches: seq<CacheEntry<S>>, x: seq<R>, reset: bool, hops: seq<Hop<S>>, j: nat)
    requires AllSized(ms, caches) && |hops| == |ms| && BreaksAt(hops, j)
    ensures BrokenPass(ms, caches, x, reset, hops, j)
    decreases j
  {
    hide HopSpec, ChainSpec, BrokenPass, Clean;
    OneHopClean(ms[0], caches[0], x, reset, hops[0]);
    var h := HopSpec(ms[0], caches[0], x, reset, hops[0].fault);
    if j == 0 {
      FirstBreaks(ms, caches, x, reset, hops);
    } else {
      assert Clean(hops[..j][0]);
      assert hops[..j][1..] == hops[1..][..j - 1];
      PassBreaks(ms[1..], caches[1..], h.1.value, reset, hops[1..], j - 1);
      LaterBreaks(ms, caches, x, reset, hops, j);
    }
  }

  lemma {:induction false} LaterBreaks<S, R>(
    ms: seq<ShardModule<S, R>>, caches: seq<CacheEntry<S>>, x: seq<R>, reset: bool, hops: seq<Hop<S>>, j: nat)
    requires AllSized(ms, caches) && |hops| == |ms| && 0 < j < |ms|
    requires AllSized(ms[1..], caches[1..])
    requires var h := HopSpec(ms[0], caches[0], x, reset, hops[0].fault);
             h.1.Some? && BrokenPass(ms[1..], caches[1..], h.1.value, reset, hops[1..], j - 1)
    ensures BrokenPass(ms, caches, x, reset, hops, j)
  {
    hide HopSpec, ChainSpec;
    assert |ms| == |caches| && Sized(ms[0], caches[0]) && Sized(ms[j], caches[j]);
    hide AllSized;
    FirstHopOf(ms, caches, x, reset, hops, j);
    var h := HopSpec(ms[0], caches[0], x, reset, hops[0].fault);
    var rest := ChainSpec(ms[1..][..j - 1], caches[1..][..j - 1], h.1.value, reset, hops[1..][..j - 1]);
    assert ms[1..][j - 1] == ms[j] && caches[1..][j - 1] == caches[j] && hops[1..][j - 1] == hops[j];
    assert caches[1..][j..] == caches[j + 1..];
    var hop := HopSpec(ms[j], caches[j], rest.1.value, reset, hops[j].fault);
    Prepended(h.0, rest.0, hop.0, caches[j + 1..]);
  }

  lemma {:induction false} Prepended<T>(a: T, b: seq<T>, c: T, d: seq<T>)
    ensures [a] + (b + [c] + d) == ([a] + b) + [c] + d
  {
  }

  lemma {:induction false} FirstBreaks<S, R>(
    ms: seq<ShardModule<S, R>>, caches: seq<CacheEntry<S>>, x: seq<R>, reset: bool, hops: seq<Hop<S>>)
    requires AllSized(ms, caches) && |hops| == |ms| > 0
    requires HopSpec(ms[0], caches[0], x, reset, hops[0].fault).1 == None
    ensures BrokenPass(ms, caches, x, reset, hops, 0)
  {
    hide HopSpec;
    var h := HopSpec(ms[0], caches[0], x, reset, hops[0].fault);
    assert ms[..0] == [] && caches[..0] == [] && hops[..0] == [];
    assert [] + [h.0] + caches[1..] == [h.0] + caches[1..];
  }

  /** A pass, and its part over the first j workers, both begin with the first hop. */
  lemma {:induction false} FirstHopOf<S, R>(
    ms: seq<ShardModule<S, R>>, caches: seq<CacheEntry<S>>, x: seq<R>, reset: bool, hops: seq<Hop<S>>, j: nat)
    requires AllSized(ms, caches) && |hops| == |ms| && 0 < j <= |ms|
    requires HopSpec(ms[0], caches[0], x, reset, hops[0].fault).1.Some?
    ensures AllSized(ms[1..], caches[1..]) && AllSized(ms[1..][..j - 1], caches[1..][..j - 1])
    ensures AllSized(ms[..j], caches[..j])
    ensures var h := HopSpec(ms[0], caches[0], x, reset, hops[0].fault);
            var rest := ChainSpec(ms[1..], caches[1..], h.1.value, reset, hops[1..]);
            var part := ChainSpec(ms[1..][..j - 1], caches[1..][..j - 1], h.1.value, reset, hops[1..][..j - 1]);
            && ChainSpec(ms, caches, x, reset, hops) == ([h.0] + rest.0, rest.1)
            && ChainSpec(ms[..j], caches[..j], x, reset, hops[..j]) == ([h.0] + part.0, part.1)
  {
    hide HopSpec;
    assert ms[..j][1..] == ms[1..][..j - 1] && caches[..j][1..] == caches[1..][..j - 1];
    assert hops[..j][1..] == hops[1..][..j - 1];
    assert ms[..j][0] == ms[0] && caches[..j][0] == caches[0] && hops[..j][0] == hops[0];
  }

  lemma {:induction false} OneHopClean<S, R>(
    m: ShardModule<S, R>, cache: CacheEntry<S>, x: seq<R>, reset: bool, hop: Hop<S>)
    requires Sized(m, cache)
    ensures HopSpec(m, cache, x, reset, hop.fault).1.Some? <==> Clean(hop)
  {
    hide RunBlocks;
  }

  lemma {:induction false} ChainKeepsLength<S, R>(
    ms: seq<ShardModule<S, R>>, caches: seq<CacheEntry<S>>, x: seq<R>, reset: bool, hops: seq<Hop<S>>)
    requires AllSized(ms, caches) && |hops| == |ms|
    ensures var out := ChainSpec(ms, caches, x, reset, hops).1; out.Some? ==> |out.value| == |x|
    decreases |ms|
  {
    if ms != [] {
      var h := HopSpec(ms[0], caches[0], x, reset, hops[0].fault);
      if h.1.Some? {
        ChainKeepsLength(ms[1..], caches[1..], h.1.value, reset, hops[1..]);
      }
    }
  }

  /** A pass that resets forgets whatever was in the caches, on every hop it reaches. */
  lemma {:induction false} ResetForgets<S, R>(
    ms: seq<ShardModule<S, R>>, c1: seq<CacheEntry<S>>, c2: seq<CacheEntry<S>>, x: seq<R>, hops: seq<Hop<S>>)
    requires AllSized(ms, c1) && AllSized(ms, c2) && |hops| == |ms|
    ensures var a, b := ChainSpec(ms, c1, x, true, hops), ChainSpec(ms, c2, x, true, hops);
            a.1 == b.1 && (a.1.Some? ==> a.0 == b.0)
    decreases |ms|
  {
    if ms != [] {
      var h1, h2 := HopSpec(ms[0], c1[0], x, true, hops[0].fault), HopSpec(ms[0], c2[0], x, true, hops[0].fault);
      assert h1.1 == h2.1;
      if h1.1.Some? {
        ResetForgets(ms[1..], c1[1..], c2[1..], h1.1.value, hops[1..]);
      }
    }
  }

  // ---------- Gluing the workers' caches ----------

  /** Each worker's entries for its own range, side by side. */
  ghost function Glue<S>(cuts: seq<(nat, nat)>, caches: seq<CacheEntry<S>>): seq<S>
    requires |cuts| == |caches|
    requires forall i :: 0 <= i < |cuts| ==> caches[i].Some? && cuts[i].0 <= cuts[i].1 <= |caches[i].value|
  {
    if cuts == [] then [] else caches[0].value[cuts[0].0..cuts[0].1] + Glue(cuts[1..], caches[1..])
  }

  lemma {:induction false} SyncedEverywhere<S, R>(
    m: LanguageModel<S, R>, cuts: seq<(nat, nat)>, caches: seq<CacheEntry<S>>, fed: seq<R>, i: nat)
    requires Synced(m, cuts, caches, fed) && CutsTo(cuts, |m.layers|) && i < |cuts|
    ensures StageSynced(m, cuts[i], caches[i], fed) && cuts[i].0 < cuts[i].1 <= |m.layers|
    decreases i
  {
    if i > 0 {
      SyncedEverywhere(m, cuts[1..], caches[1..], fed, i - 1);
    }
  }

  lemma {:induction false} SyncedPresent<S, R>(
    m: LanguageModel<S, R>, cuts: seq<(nat, nat)>, caches: seq<CacheEntry<S>>, fed: seq<R>)
    requires Synced(m, cuts, caches, fed) && CutsTo(cuts, |m.layers|)
    ensures |cuts| == |caches|
    ensures forall i :: 0 <= i < |cuts| ==> caches[i].Some? && cuts[i].0 <= cuts[i].1 <= |caches[i].value|
  {
    forall i | 0 <= i < |cuts|
      ensures caches[i].Some? && cuts[i].0 <= cuts[i].1 <= |caches[i].value|
    {
      SyncedEverywhere(m, cuts, caches, fed, i);
    }
  }

  /** Glued together, the workers' caches are the whole model's cache. */
  lemma {:induction false} GlueIsFullCache<S, R>(
    m: LanguageModel<S, R>, cuts: seq<(nat, nat)>, caches: seq<CacheEntry<S>>, fed: seq<R>)
    requires cuts != [] && Synced(m, cuts, caches, fed) && CutsTo(cuts, |m.layers|)
    ensures forall i :: 0 <= i < |cuts| ==> caches[i].Some? && cuts[i].0 <= cuts[i].1 <= |caches[i].value|
    ensures Glue(cuts, caches) == FullCache(m, fed)[cuts[0].0..]
    decreases |cuts|
  {
    hide FullCache;
    SyncedPresent(m, cuts, caches, fed);
    var full := FullCache(m, fed);
    assert caches[0].value[cuts[0].0..cuts[0].1] == full[cuts[0].0..cuts[0].1];
    hide StageSynced;
    if |cuts| > 1 {
      GlueIsFullCache(m, cuts[1..], caches[1..], fed);
      assert full[cuts[0].0..cuts[0].1] + full[cuts[0].1..] == full[cuts[0].0..];
    }
  }

  // ---------- From a plan ----------

  lemma {:induction false} SplitIsCuts(ranges: seq<(nat, nat)>, total: nat, n: nat, k: nat)
    requires Dispatch.IsSplit(ranges, total, n) && k < n
    ensures CutsTo(ranges[k..], total)
    decreases n - k
  {
    if k == n - 1 {
      assert ranges[k..][1..] == [];
    } else {
      assert ranges[k..][1..] == ranges[k + 1..];
      Dispatch.StartsAscend(ranges, total, n, k, n - 1);
      SplitIsCuts(ranges, total, n, k + 1);
    }
  }

  lemma {:induction false} ShardsOfCuts<S, R>(m: LanguageModel<S, R>, cuts: seq<(nat, nat)>, ms: seq<ShardModule<S, R>>)
    requires CutsTo(cuts, |m.layers|) && |cuts| == |ms|
    requires forall i :: 0 <= i < |cuts| ==> cuts[i].0 <= cuts[i].1 <= |m.layers| && ms[i] == ShardOf(m, cuts[i])
    ensures Sharded(m, cuts, ms)
    decreases |cuts|
  {
    if cuts != [] {
      ShardsOfCuts(m, cuts[1..], ms[1..]);
    }
  }
}
