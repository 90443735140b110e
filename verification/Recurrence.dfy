/**
 The mathematics of a recurrent language model, with values left abstract.

 A layer is an arbitrary step function on a recurrent state and one row (one time step of
 hidden values); a call on several rows is the left fold of that step.  Embedding, norm,
 head and the choice of a token from a logits row are arbitrary functions of one row.
 */
module Recurrence {

  type Step<!S, !R> = (S, R) -> (S, R)

  datatype LanguageModel<!S, !R> = LanguageModel(
    embed: R -> R,
    layers: seq<Step<S, R>>,
    norm: R -> R,
    head: R -> R,
    pick: R -> R,       // argmax of one logits row, as the next token's row
    blank: nat -> S     // a fresh cache's entry for each layer
  )

  function MapRows<R>(f: R -> R, xs: seq<R>): (ys: seq<R>)
    ensures |ys| == |xs|
  {
    seq(|xs|, i requires 0 <= i < |xs| => f(xs[i]))
  }

  /** One layer over several rows: the fold of its step. */
  function LayerRun<S, R>(step: Step<S, R>, s: S, xs: seq<R>): (r: (S, seq<R>))
    ensures |r.1| == |xs|
    decreases |xs|
  {
    if xs == [] then (s, [])
    else
      var before := LayerRun(step, s, xs[..|xs| - 1]);
      var last := step(before.0, xs[|xs| - 1]);
      (last.0, before.1 + [last.1])
  }

  /** Layers lo..hi in order, each reading and replacing its own cache entry. */
  function StackRun<S, R>(m: LanguageModel<S, R>, lo: nat, hi: nat, cache: seq<S>, xs: seq<R>): (r: (seq<S>, seq<R>))
    requires lo <= hi <= |m.layers| && hi <= |cache|
    ensures |r.0| == |cache| && |r.1| == |xs|
    decreases hi - lo
  {
    if lo == hi then (cache, xs)
    else
      var below := StackRun(m, lo, hi - 1, cache, xs);
      var top := LayerRun(m.layers[hi - 1], below.0[hi - 1], below.1);
      (below.0[hi - 1 := top.0], top.1)
  }

  function Blank<S, R>(m: LanguageModel<S, R>): (c: seq<S>)
    ensures |c| == |m.layers|
  {
    seq(|m.layers|, i requires 0 <= i < |m.layers| => m.blank(i))
  }

  /** The whole model's cache once the rows `fed` have gone through it. */
  function FullCache<S, R>(m: LanguageModel<S, R>, fed: seq<R>): (c: seq<S>)
    ensures |c| == |m.layers|
  {
    StackRun(m, 0, |m.layers|, Blank(m), MapRows(m.embed, fed)).0
  }

  // ---------- The reference: no cache, no shards ----------

  /** The hidden rows above the first k layers, recomputed from nothing. */
  function Hidden<S, R>(m: LanguageModel<S, R>, k: nat, ids: seq<R>): (ys: seq<R>)
    requires k <= |m.layers|
    ensures |ys| == |ids|
    decreases k
  {
    if k == 0 then MapRows(m.embed, ids)
    else LayerRun(m.layers[k - 1], m.blank(k - 1), Hidden(m, k - 1, ids)).1
  }

  /** Logits of the whole model over the whole sequence. */
  function Logits<S, R>(m: LanguageModel<S, R>, ids: seq<R>): (ys: seq<R>)
    ensures |ys| == |ids|
  {
    MapRows(m.head, MapRows(m.norm, Hidden(m, |m.layers|, ids)))
  }

  function NextToken<S, R>(m: LanguageModel<S, R>, ids: seq<R>): R
    requires ids != []
  {
    m.pick(Logits(m, ids)[|ids| - 1])
  }

  /** Greedy decoding that reruns the whole model on the growing sequence for every new token. */
  function Greedy<S, R>(m: LanguageModel<S, R>, prompt: seq<R>, n: int): (ids: seq<R>)
    requires n > 0 ==> prompt != []
    ensures |ids| == |prompt| + (if n > 0 then n else 0)
    decreases n
  {
    if n <= 0 then prompt
    else
      var ids := Greedy(m, prompt, n - 1);
      ids + [NextToken(m, ids)]
  }

  // ---------- Folding over rows ----------

  lemma {:induction false} LayerRunAppend<S, R>(step: Step<S, R>, s: S, xs: seq<R>, ys: seq<R>)
    ensures var a := LayerRun(step, s, xs); var b := LayerRun(step, a.0, ys);
            LayerRun(step, s, xs + ys) == (b.0, a.1 + b.1)
    decreases |ys|
  {
    if ys == [] {
      assert xs + ys == xs;
      assert LayerRun(step, s, xs).1 + [] == LayerRun(step, s, xs).1;
    } else {
      var front := ys[..|ys| - 1];
      LayerRunAppend(step, s, xs, front);
      assert (xs + ys)[..|xs + ys| - 1] == xs + front;
      var a := LayerRun(step, s, xs);
      var b := LayerRun(step, a.0, front);
      var last := step(b.0, ys[|ys| - 1]);
      assert LayerRun(step, a.0, ys) == (last.0, b.1 + [last.1]);
      assert (a.1 + b.1) + [last.1] == a.1 + (b.1 + [last.1]);
    }
  }

  lemma {:induction false} MapRowsAppend<R>(f: R -> R, xs: seq<R>, ys: seq<R>)
    ensures MapRows(f, xs + ys) == MapRows(f, xs) + MapRows(f, ys)
  {
  }

  /** Feeding rows in two calls leaves the same cache and rows as feeding them in one. */
  lemma {:induction false} StackRunAppend<S, R>(
    m: LanguageModel<S, R>, lo: nat, hi: nat, cache: seq<S>, xs: seq<R>, ys: seq<R>)
    requires lo <= hi <= |m.layers| && hi <= |cache|
    ensures var a := StackRun(m, lo, hi, cache, xs); var b := StackRun(m, lo, hi, a.0, ys);
            StackRun(m, lo, hi, cache, xs + ys) == (b.0, a.1 + b.1)
    decreases hi - lo
  {
    hide LayerRun;
    if lo < hi {
      StackRunAppend(m, lo, hi - 1, cache, xs, ys);
      var a := StackRun(m, lo, hi - 1, cache, xs);
      var b := StackRun(m, lo, hi - 1, a.0, ys);
      StackRunFrame(m, lo, hi - 1, a.0, ys);
      var step := m.layers[hi - 1];
      var topA := LayerRun(step, a.0[hi - 1], a.1);
      // the layer's own entry is not read by the layers below it
      StackRunUpdateAbove(m, lo, hi - 1, a.0, ys, hi - 1, topA.0);
      var topB := LayerRun(step, topA.0, b.1);
      LayerRunAppend(step, a.0[hi - 1], a.1, b.1);
      assert b.0[hi - 1 := topA.0][hi - 1 := topB.0] == b.0[hi - 1 := topB.0];
    }
  }

  // ---------- Composing and framing layer ranges ----------

  /** Entries outside lo..hi are left as they were. */
  lemma {:induction false} StackRunFrame<S, R>(m: LanguageModel<S, R>, lo: nat, hi: nat, cache: seq<S>, xs: seq<R>)
    requires lo <= hi <= |m.layers| && hi <= |cache|
    ensures forall j :: 0 <= j < |cache| && !(lo <= j < hi) ==> StackRun(m, lo, hi, cache, xs).0[j] == cache[j]
    decreases hi - lo
  {
    if lo < hi {
      StackRunFrame(m, lo, hi - 1, cache, xs);
    }
  }

  lemma {:induction false} StackRunUpdateAbove<S, R>(
    m: LanguageModel<S, R>, lo: nat, hi: nat, cache: seq<S>, xs: seq<R>, at: nat, v: S)
    requires lo <= hi <= |m.layers| && hi <= at < |cache|
    ensures StackRun(m, lo, hi, cache[at := v], xs) ==
              (StackRun(m, lo, hi, cache, xs).0[at := v], StackRun(m, lo, hi, cache, xs).1)
    decreases hi - lo
  {
    if lo < hi {
      StackRunUpdateAbove(m, lo, hi - 1, cache, xs, at, v);
      var below := StackRun(m, lo, hi - 1, cache, xs);
      var top := LayerRun(m.layers[hi - 1], below.0[hi - 1], below.1);
      assert below.0[at := v][hi - 1 := top.0] == below.0[hi - 1 := top.0][at := v];
    }
  }

  /** Only the entries of lo..hi matter to lo..hi. */
  lemma {:induction false} StackRunReadsOwnEntries<S, R>(
    m: LanguageModel<S, R>, lo: nat, hi: nat, c1: seq<S>, c2: seq<S>, xs: seq<R>)
    requires lo <= hi <= |m.layers| && hi <= |c1| == |c2|
    requires forall j :: lo <= j < hi ==> c1[j] == c2[j]
    ensures var a, b := StackRun(m, lo, hi, c1, xs), StackRun(m, lo, hi, c2, xs);
            a.1 == b.1 && forall j :: lo <= j < hi ==> a.0[j] == b.0[j]
    decreases hi - lo
  {
    if lo < hi {
      StackRunReadsOwnEntries(m, lo, hi - 1, c1, c2, xs);
      StackRunFrame(m, lo, hi - 1, c1, xs);
      StackRunFrame(m, lo, hi - 1, c2, xs);
    }
  }

  /** A range cut at mid is its lower part followed by its upper part. */
  lemma {:induction false} StackRunSplit<S, R>(
    m: LanguageModel<S, R>, lo: nat, mid: nat, hi: nat, cache: seq<S>, xs: seq<R>)
    requires lo <= mid <= hi <= |m.layers| && hi <= |cache|
    ensures var a := StackRun(m, lo, mid, cache, xs);
            StackRun(m, lo, hi, cache, xs) == StackRun(m, mid, hi, a.0, a.1)
    decreases hi - mid
  {
    if mid < hi {
      StackRunSplit(m, lo, mid, hi - 1, cache, xs);
    }
  }

  /** The cached stack on a fresh cache computes what the cache-free model computes. */
  lemma {:induction false} FreshStackIsHidden<S, R>(m: LanguageModel<S, R>, k: nat, ids: seq<R>)
    requires k <= |m.layers|
    ensures StackRun(m, 0, k, Blank(m), MapRows(m.embed, ids)).1 == Hidden(m, k, ids)
    decreases k
  {
    if k > 0 {
      FreshStackIsHidden(m, k - 1, ids);
      StackRunFrame(m, 0, k - 1, Blank(m), MapRows(m.embed, ids));
    }
  }

  /** Decoding with the cache of what was fed gives the same rows as recomputing the longer sequence. */
  lemma {:induction false} CachedDecode<S, R>(m: LanguageModel<S, R>, fed: seq<R>, more: seq<R>)
    ensures var r := StackRun(m, 0, |m.layers|, FullCache(m, fed), MapRows(m.embed, more));
            r.0 == FullCache(m, fed + more) && r.1 == Hidden(m, |m.layers|, fed + more)[|fed|..]
  {
    var n := |m.layers|;
    MapRowsAppend(m.embed, fed, more);
    StackRunAppend(m, 0, n, Blank(m), MapRows(m.embed, fed), MapRows(m.embed, more));
    FreshStackIsHidden(m, n, fed + more);
    FreshStackIsHidden(m, n, fed);
  }
}
