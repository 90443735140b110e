/**
 Shards built from a checkpoint against the whole model read from it: each shard is the slice that
 from_model would cut, and the slices put together again are the model.
 */
module ShardRebuild {
  import opened Wrappers
  import opened OrderedDict
  import opened Dispatch
  import opened ShardLoading
  import opened ShardWeights

  datatype Checkpoint<T> = Checkpoint(weightMap: Dict<string, string>, files: Files<T>)

  /** The parameters of a whole model: every layer's by their own names. */
  datatype FullModel<T> = FullModel(embedding: T, layers: seq<map<string, T>>, norm: T, head: T)

  ghost predicate Has<T>(c: Checkpoint<T>, name: string) {
    && name in c.weightMap.m
    && c.weightMap.m[name] in c.files && name in c.files[c.weightMap.m[name]]
  }

  ghost function Weight<T>(c: Checkpoint<T>, name: string): T
    requires Has(c, name)
  {
    c.files[c.weightMap.m[name]][name]
  }

  /** A checkpoint of a model with this many layers, each with these parameters: its index is
      truthful, it lacks nothing, and its layer tensors are named canonically.  It may tie its head
      to the embedding, distribute its tensors over files in any way, and hold further tensors. */
  ghost predicate Complete<T>(c: Checkpoint<T>, total: nat, parameters: set<string>) {
    && Valid(c.weightMap) && "" !in parameters
    && (forall name :: name in c.weightMap.m ==> Has(c, name))
    && EmbeddingName in c.weightMap.m && NormName in c.weightMap.m
    && (forall i: nat, p :: i < total && p in parameters ==> LayerSource(i, p) in c.weightMap.m)
    && (forall name :: name in c.weightMap.m && InRange(name, 0, total) ==>
          Canonical(name) && ParseLayerName(name).value.suffix in parameters)
  }

  ghost function FullOf<T>(c: Checkpoint<T>, total: nat, parameters: set<string>): (full: FullModel<T>)
    requires Complete(c, total, parameters)
    ensures |full.layers| == total
  {
    FullModel(Weight(c, EmbeddingName),
              seq(total, i requires 0 <= i < total => map p | p in parameters :: Weight(c, LayerSource(i, p))),
              Weight(c, NormName),
              Weight(c, HeadSource(c.weightMap.m)))
  }

  /** The parameters a shard's modules have. */
  function Parameters(parameters: set<string>, n: nat, isFirst: bool, isLast: bool): set<string> {
    (set k, p | 0 <= k < n && p in parameters :: LayerDest(k, p))
    + (if isFirst then {EmbeddingDest} else {})
    + (if isLast then {NormDest, HeadDest} else {})
  }

  /** The k-th layer in a shard's state dict is layer lo + k of the whole model. */
  ghost predicate LayerMatches<T>(sd: map<string, T>, full: FullModel<T>, parameters: set<string>, lo: nat, k: nat)
    requires lo + k < |full.layers|
  {
    forall p :: p in parameters ==>
      LayerDest(k, p) in sd && p in full.layers[lo + k] && sd[LayerDest(k, p)] == full.layers[lo + k][p]
  }

  /** The state dict of the shard that from_model cuts out of the whole model. */
  ghost predicate IsSlice<T>(
    sd: map<string, T>, full: FullModel<T>, parameters: set<string>, lo: nat, hi: nat, isFirst: bool, isLast: bool) {
    && lo <= hi <= |full.layers|
    && sd.Keys == Parameters(parameters, hi - lo, isFirst, isLast)
    && (forall k: nat :: k < hi - lo ==> LayerMatches(sd, full, parameters, lo, k))
    && (isFirst ==> sd[EmbeddingDest] == full.embedding)
    && (isLast ==> sd[NormDest] == full.norm && sd[HeadDest] == full.head)
  }

  // ---------- A complete checkpoint's locations ----------

  /** A location of a layer parameter: number and name as the whole model has them. */
  ghost predicate IsLayerOf(parameters: set<string>, lo: nat, hi: nat, x: Location) {
    var parsed := ParseLayerName(x.sourceName);
    && parsed.Some? && lo <= parsed.value.index < hi && parsed.value.suffix in parameters
    && x.destName == LayerDest(parsed.value.index - lo, parsed.value.suffix)
    && x.sourceName == LayerSource(parsed.value.index, parsed.value.suffix)
  }

  ghost predicate IsOtherOf(weightMap: map<string, string>, isFirst: bool, isLast: bool, x: Location) {
    || (isFirst && x.destName == EmbeddingDest && x.sourceName == EmbeddingName)
    || (isLast && x.destName == NormDest && x.sourceName == NormName)
    || (isLast && x.destName == HeadDest && x.sourceName == HeadSource(weightMap))
  }

  lemma {:induction false} LayerOf<T>(
    c: Checkpoint<T>, total: nat, parameters: set<string>, lo: nat, hi: nat, x: Location)
    requires Complete(c, total, parameters) && hi <= total && IsLayerLocation(c.weightMap.m, lo, hi, x)
    ensures IsLayerOf(parameters, lo, hi, x)
  {
    hide LayerDest, LayerSource, ParseLayerName;
    assert InRange(x.sourceName, 0, total) && Canonical(x.sourceName);
  }

  /** A location of a complete checkpoint names one tensor of the whole model, and finds it. */
  lemma {:induction false} LocationFor<T>(c: Checkpoint<T>, total: nat, parameters: set<string>, lo: nat, hi: nat,
                                          isFirst: bool, isLast: bool, x: Location)
    requires Complete(c, total, parameters) && hi <= total
    requires Missing(c.weightMap.m, isFirst, isLast) == None && x in Locations(c.weightMap, lo, hi, isFirst, isLast)
    ensures Stored(c.files, x) && Has(c, x.sourceName) && Tensor(c.files, x) == Weight(c, x.sourceName)
    ensures IsLayerOf(parameters, lo, hi, x) || IsOtherOf(c.weightMap.m, isFirst, isLast, x)
  {
    LocationsExactly(c.weightMap, lo, hi, isFirst, isLast, x);
    if IsLayerLocation(c.weightMap.m, lo, hi, x) {
      LayerOf(c, total, parameters, lo, hi, x);
    }
  }

  lemma {:induction false} LayerHasLocation<T>(c: Checkpoint<T>, total: nat, parameters: set<string>, lo: nat, hi: nat,
                                               isFirst: bool, isLast: bool, k: nat, p: string)
    requires Complete(c, total, parameters) && hi <= total && lo + k < hi && p in parameters
    requires Missing(c.weightMap.m, isFirst, isLast) == None
    ensures exists x :: x in Locations(c.weightMap, lo, hi, isFirst, isLast) && x.destName == LayerDest(k, p)
  {
    hide LayerDest, LayerSource, ParseLayerName;
    var name := LayerSource(lo + k, p);
    ParseLayerSource(lo + k, p);
    LocatedInRange(c.weightMap, lo, hi, isFirst, isLast, name);
    NumberedBack(name, c.weightMap.m[name], lo, hi, k, p);
  }

  lemma {:induction false} NumberedBack(name: string, file: string, lo: nat, hi: nat, k: nat, p: string)
    requires InRange(name, lo, hi) && ParseLayerName(name).value == LayerName(lo + k, p)
    ensures LayerLocation(name, file, lo, hi).destName == LayerDest(k, p)
  {
  }

  lemma {:induction false} OthersHaveLocations(
    wm: Dict<string, string>, lo: nat, hi: nat, isFirst: bool, isLast: bool, d: string)
    requires Valid(wm) && Missing(wm.m, isFirst, isLast) == None
    requires (isFirst && d == EmbeddingDest) || (isLast && (d == NormDest || d == HeadDest))
    ensures exists x :: x in Locations(wm, lo, hi, isFirst, isLast) && x.destName == d
  {
    var x := if d == EmbeddingDest then FirstLocations(wm.m, isFirst)[0]
             else if d == NormDest then LastLocations(wm.m, isLast)[0] else LastLocations(wm.m, isLast)[1];
    LocationsExactly(wm, lo, hi, isFirst, isLast, x);
  }

  /** The locations' destinations are the shard's parameters, no more and no fewer. */
  lemma {:induction false} DestsAreParameters<T>(
    c: Checkpoint<T>, total: nat, parameters: set<string>, lo: nat, hi: nat, isFirst: bool, isLast: bool, d: string)
    requires Complete(c, total, parameters) && lo <= hi <= total
    requires Missing(c.weightMap.m, isFirst, isLast) == None
    ensures d in Parameters(parameters, hi - lo, isFirst, isLast) <==>
            exists x :: x in Locations(c.weightMap, lo, hi, isFirst, isLast) && x.destName == d
  {
    if x :| x in Locations(c.weightMap, lo, hi, isFirst, isLast) && x.destName == d {
      LocationFor(c, total, parameters, lo, hi, isFirst, isLast, x);
      IsParameter(c.weightMap.m, parameters, lo, hi, isFirst, isLast, x);
    }
    if d in Parameters(parameters, hi - lo, isFirst, isLast) {
      if (isFirst && d == EmbeddingDest) || (isLast && (d == NormDest || d == HeadDest)) {
        OthersHaveLocations(c.weightMap, lo, hi, isFirst, isLast, d);
      } else {
        var k, p :| 0 <= k < hi - lo && p in parameters && d == LayerDest(k, p);
        LayerHasLocation(c, total, parameters, lo, hi, isFirst, isLast, k, p);
      }
    }
  }

  lemma {:induction false} IsParameter(
    weightMap: map<string, string>, parameters: set<string>, lo: nat, hi: nat, isFirst: bool, isLast: bool, x: Location)
    requires lo <= hi && (IsLayerOf(parameters, lo, hi, x) || IsOtherOf(weightMap, isFirst, isLast, x))
    ensures x.destName in Parameters(parameters, hi - lo, isFirst, isLast)
  {
    if IsLayerOf(parameters, lo, hi, x) {
      var parsed := ParseLayerName(x.sourceName).value;
      LayerIsParameter(parameters, hi - lo, isFirst, isLast, parsed.index - lo, parsed.suffix);
    }
  }

  lemma {:induction false} LayerIsParameter(
    parameters: set<string>, n: nat, isFirst: bool, isLast: bool, k: nat, p: string)
    requires k < n && p in parameters
    ensures LayerDest(k, p) in Parameters(parameters, n, isFirst, isLast)
  {
  }

  // ---------- Loading is slicing ----------

  /** What was gathered at one layer parameter is what the whole model has there. */
  lemma {:induction false} GatheredLayer<T>(c: Checkpoint<T>, total: nat, parameters: set<string>, lo: nat, hi: nat,
                                            isFirst: bool, isLast: bool, sd: map<string, T>, k: nat, p: string)
    requires Complete(c, total, parameters) && hi <= total && lo + k < hi && p in parameters
    requires Missing(c.weightMap.m, isFirst, isLast) == None
    requires Gathered(c.files, sd, Locations(c.weightMap, lo, hi, isFirst, isLast)) && LayerDest(k, p) in sd
    ensures sd[LayerDest(k, p)] == Weight(c, LayerSource(lo + k, p))
  {
    var d := LayerDest(k, p);
    var x :| x in Locations(c.weightMap, lo, hi, isFirst, isLast) && Stored(c.files, x) && x.destName == d &&
    sd[d] == Tensor(c.files, x);
    LocationFor(c, total, parameters, lo, hi, isFirst, isLast, x);
    OnlySource(c.weightMap.m, parameters, lo, hi, isFirst, isLast, x, k, p);
  }

  lemma {:induction false} OnlySource(
    weightMap: map<string, string>, parameters: set<string>, lo: nat, hi: nat, isFirst: bool, isLast: bool, x: Location,
    k: nat, p: string)
    requires IsLayerOf(parameters, lo, hi, x) || IsOtherOf(weightMap, isFirst, isLast, x)
    requires x.destName == LayerDest(k, p)
    ensures x.sourceName == LayerSource(lo + k, p)
  {
    hide LayerDest, LayerSource, ParseLayerName;
    LayerDestIsNoOther(k, p);
    var parsed := ParseLayerName(x.sourceName).value;
    LayerDestInjective(k, p, parsed.index - lo, parsed.suffix);
  }

  lemma {:induction false} GatheredOther<T>(c: Checkpoint<T>, total: nat, parameters: set<string>, lo: nat, hi: nat,
                                            isFirst: bool, isLast: bool, sd: map<string, T>, d: string)
    requires Complete(c, total, parameters) && hi <= total
    requires Missing(c.weightMap.m, isFirst, isLast) == None
    requires Gathered(c.files, sd, Locations(c.weightMap, lo, hi, isFirst, isLast)) && d in sd
    requires d in {EmbeddingDest, NormDest, HeadDest}
    ensures sd[d] == Weight(c, if d == EmbeddingDest then EmbeddingName else if d ==
                            NormDest then NormName else HeadSource(c.weightMap.m))
  {
    hide LayerDest, LayerSource, ParseLayerName, Locations;
    var x :| x in Locations(c.weightMap, lo, hi, isFirst, isLast) && Stored(c.files, x) && x.destName == d &&
    sd[d] == Tensor(c.files, x);
    LocationFor(c, total, parameters, lo, hi, isFirst, isLast, x);
    OtherNamesAreNoLayers();
    if IsLayerOf(parameters, lo, hi, x) {
      var parsed := ParseLayerName(x.sourceName).value;
      LayerDestIsNoOther(parsed.index - lo, parsed.suffix);
    }
  }

  lemma {:induction false} GatheredLayerMatches<T>(
    c: Checkpoint<T>, total: nat, parameters: set<string>, lo: nat, hi: nat, isFirst: bool, isLast: bool,
    sd: map<string, T>, k: nat)
    requires Complete(c, total, parameters) && hi <= total && lo + k < hi
    requires Missing(c.weightMap.m, isFirst, isLast) == None
    requires Gathered(c.files, sd, Locations(c.weightMap, lo, hi, isFirst, isLast))
    requires sd.Keys == Parameters(parameters, hi - lo, isFirst, isLast)
    ensures LayerMatches(sd, FullOf(c, total, parameters), parameters, lo, k)
  {
    hide LayerDest, LayerSource, ParseLayerName, Complete, Gathered, Locations;
    forall p | p in parameters
      ensures LayerDest(k, p) in sd && sd[LayerDest(k, p)] == FullOf(c, total, parameters).layers[lo + k][p]
    {
      LayerIsParameter(parameters, hi - lo, isFirst, isLast, k, p);
      GatheredLayer(c, total, parameters, lo, hi, isFirst, isLast, sd, k, p);
    }
  }

  lemma {:induction false} GatheredIsSlice<T>(c: Checkpoint<T>, total: nat, parameters: set<string>, lo: nat, hi: nat,
                                              isFirst: bool, isLast: bool, sd: map<string, T>)
    requires Complete(c, total, parameters) && lo <= hi <= total
    requires Missing(c.weightMap.m, isFirst, isLast) == None
    requires Gathered(c.files, sd, Locations(c.weightMap, lo, hi, isFirst, isLast))
    requires sd.Keys == Parameters(parameters, hi - lo, isFirst, isLast)
    ensures IsSlice(sd, FullOf(c, total, parameters), parameters, lo, hi, isFirst, isLast)
  {
    hide LayerDest, LayerSource, ParseLayerName;
    var full := FullOf(c, total, parameters);
    forall k: nat | k < hi - lo
      ensures LayerMatches(sd, full, parameters, lo, k)
    {
      GatheredLayerMatches(c, total, parameters, lo, hi, isFirst, isLast, sd, k);
    }
    OtherNamesAreNoLayers();
    if isFirst {
      GatheredOther(c, total, parameters, lo, hi, isFirst, isLast, sd, EmbeddingDest);
    }
    if isLast {
      GatheredOther(c, total, parameters, lo, hi, isFirst, isLast, sd, NormDest);
      GatheredOther(c, total, parameters, lo, hi, isFirst, isLast, sd, HeadDest);
    }
  }

  /** Resolve a shard's tensors and load them.  For a complete checkpoint this always succeeds, and
      the shard is the slice of the whole model, tied head or not, however the files are cut. */
  method LoadShardWeights<T>(
    c: Checkpoint<T>, ghost total: nat, parameters: set<string>, lo: nat, hi: nat, isFirst: bool, isLast: bool)
    returns (r: Result<map<string, T>, string>)
    requires Valid(c.weightMap) && lo <= hi <= total
    ensures r.Ok? <==>
            && Missing(c.weightMap.m, isFirst, isLast) == None
            && AllStored(c.files, Locations(c.weightMap, lo, hi, isFirst, isLast))
            && Parameters(parameters, hi - lo, isFirst, isLast) ==
                 Dests(Locations(c.weightMap, lo, hi, isFirst, isLast))
    ensures Complete(c, total, parameters) ==>
              r.Ok? && IsSlice(r.value, FullOf(c, total, parameters), parameters, lo, hi, isFirst, isLast)
  {
    var locations := TensorLocationsForRange(c.weightMap, lo, hi, isFirst, isLast);
    if locations.Err? {
      return Err(locations.error);
    }
    r := FromTensorLocations(c.files, locations.value, Parameters(parameters, hi - lo, isFirst, isLast));
    if Complete(c, total, parameters) {
      LoadSucceeds(c, total, parameters, lo, hi, isFirst, isLast);
      if r.Ok? {
        GatheredIsSlice(c, total, parameters, lo, hi, isFirst, isLast, r.value);
      }
    }
  }

  lemma {:induction false} LoadSucceeds<T>(
    c: Checkpoint<T>, total: nat, parameters: set<string>, lo: nat, hi: nat, isFirst: bool, isLast: bool)
    requires Complete(c, total, parameters) && lo <= hi <= total && Missing(c.weightMap.m, isFirst, isLast) == None
    ensures var ls := Locations(c.weightMap, lo, hi, isFirst, isLast);
            && AllStored(c.files, ls)
            && Parameters(parameters, hi - lo, isFirst, isLast) == Dests(ls)
  {
    var ls := Locations(c.weightMap, lo, hi, isFirst, isLast);
    forall k | 0 <= k < |ls|
      ensures Stored(c.files, ls[k])
    {
      LocationFor(c, total, parameters, lo, hi, isFirst, isLast, ls[k]);
    }
    forall d: string
      ensures d in Parameters(parameters, hi - lo, isFirst, isLast) <==> d in Dests(ls)
    {
      DestsAreParameters(c, total, parameters, lo, hi, isFirst, isLast, d);
    }
  }

  // ---------- Putting the shards together again ----------

  ghost function LayerAt<T>(sd: map<string, T>, parameters: set<string>, k: nat): map<string, T> {
    map p | p in parameters && LayerDest(k, p) in sd :: sd[LayerDest(k, p)]
  }

  /** A shard's layers, each with its own parameter names again. */
  ghost function LayersOf<T>(sd: map<string, T>, parameters: set<string>, n: nat): (ls: seq<map<string, T>>)
    ensures |ls| == n
  {
    seq(n, k requires 0 <= k < n => LayerAt(sd, parameters, k))
  }

  ghost function Restack<T>(sds: seq<map<string, T>>, ranges: seq<(nat, nat)>, parameters: set<string>, n: nat)
    : seq<map<string, T>>
    requires n <= |sds| == |ranges| && forall i :: 0 <= i < |ranges| ==> ranges[i].0 < ranges[i].1
  {
    if n == 0 then []
    else Restack(sds, ranges, parameters, n - 1) + LayersOf(sds[n - 1], parameters, ranges[n - 1].1 - ranges[n - 1].0)
  }

  ghost predicate AllSlices<T>(
    sds: seq<map<string, T>>, full: FullModel<T>, ranges: seq<(nat, nat)>, parameters: set<string>) {
    && |sds| == |ranges|
    && forall i :: 0 <= i < |ranges| ==>
         IsSlice(sds[i], full, parameters, ranges[i].0, ranges[i].1, ranges[i].0 == 0, ranges[i].1 == |full.layers|)
  }

  lemma {:induction false} MatchingLayerAt<T>(
    sd: map<string, T>, full: FullModel<T>, parameters: set<string>, lo: nat, k: nat)
    requires lo + k < |full.layers| && LayerMatches(sd, full, parameters, lo, k) &&
             full.layers[lo + k].Keys == parameters
    ensures LayerAt(sd, parameters, k) == full.layers[lo + k]
  {
    hide LayerDest;
  }

  lemma {:induction false} SliceLayers<T>(
    sd: map<string, T>, full: FullModel<T>, parameters: set<string>, lo: nat, hi: nat, isFirst: bool, isLast: bool)
    requires IsSlice(sd, full, parameters, lo, hi, isFirst, isLast)
    requires forall i :: 0 <= i < |full.layers| ==> full.layers[i].Keys == parameters
    ensures LayersOf(sd, parameters, hi - lo) == full.layers[lo..hi]
  {
    forall k: nat | k < hi - lo
      ensures LayersOf(sd, parameters, hi - lo)[k] == full.layers[lo..hi][k]
    {
      MatchingLayerAt(sd, full, parameters, lo, k);
    }
  }

  /** Each shard's layers are the layers of its range. */
  ghost predicate AllRestore<T>(
    sds: seq<map<string, T>>, layers: seq<map<string, T>>, ranges: seq<(nat, nat)>, parameters: set<string>) {
    && |sds| == |ranges|
    && forall i :: 0 <= i < |ranges| ==>
         && ranges[i].0 < ranges[i].1 <= |layers|
         && LayersOf(sds[i], parameters, ranges[i].1 - ranges[i].0) == layers[ranges[i].0..ranges[i].1]
  }

  lemma {:induction false} SlicesRestore<T>(
    sds: seq<map<string, T>>, full: FullModel<T>, ranges: seq<(nat, nat)>, parameters: set<string>)
    requires AllSlices(sds, full, ranges, parameters)
    requires forall i :: 0 <= i < |ranges| ==> ranges[i].0 < ranges[i].1
    requires forall i :: 0 <= i < |full.layers| ==> full.layers[i].Keys == parameters
    ensures AllRestore(sds, full.layers, ranges, parameters)
  {
    forall i | 0 <= i < |ranges|
      ensures ranges[i].1 <= |full.layers|
      ensures LayersOf(sds[i], parameters, ranges[i].1 - ranges[i].0) == full.layers[ranges[i].0..ranges[i].1]
    {
      SliceLayers(sds[i], full, parameters, ranges[i].0, ranges[i].1, ranges[i].0 == 0, ranges[i].1 == |full.layers|);
    }
  }

  lemma {:induction false} RestackedSoFar<T>(
    sds: seq<map<string, T>>, layers: seq<map<string, T>>, ranges: seq<(nat, nat)>, parameters: set<string>, n: nat)
    requires AllRestore(sds, layers, ranges, parameters) && 0 < n <= |ranges| && ranges[0].0 == 0
    requires forall i, j :: 0 <= i < j < |ranges| && j == i + 1 ==> ranges[i].1 == ranges[j].0
    ensures Restack(sds, ranges, parameters, n) == layers[..ranges[n - 1].1]
    decreases n
  {
    var (lo, hi) := ranges[n - 1];
    if n > 1 {
      RestackedSoFar(sds, layers, ranges, parameters, n - 1);
      assert layers[..lo] + layers[lo..hi] == layers[..hi];
    } else {
      assert Restack(sds, ranges, parameters, 0) == [];
    }
  }

  /** The shards of a plan, put together again, are the whole model: its layers in order, its
      embedding in the first shard, and its norm and head in the last. */
  lemma {:induction false} ShardsRestoreModel<T>(
    sds: seq<map<string, T>>, full: FullModel<T>, ranges: seq<(nat, nat)>, parameters: set<string>)
    requires IsSplit(ranges, |full.layers|, |ranges|) && AllSlices(sds, full, ranges, parameters)
    requires forall i :: 0 <= i < |full.layers| ==> full.layers[i].Keys == parameters
    ensures Restack(sds, ranges, parameters, |ranges|) == full.layers
    ensures EmbeddingDest in sds[0] && sds[0][EmbeddingDest] == full.embedding
    ensures var last := sds[|ranges| - 1];
            NormDest in last && HeadDest in last && last[NormDest] == full.norm && last[HeadDest] == full.head
  {
    SlicesRestore(sds, full, ranges, parameters);
    RestackedSoFar(sds, full.layers, ranges, parameters, |ranges|);
  }

  /** Load every shard of a split from a complete checkpoint: together they are the model it holds. */
  method LoadAllShards<T>(c: Checkpoint<T>, total: nat, parameters: set<string>, ranges: seq<(nat, nat)>)
    returns (sds: seq<map<string, T>>)
    requires Complete(c, total, parameters) && IsSplit(ranges, total, |ranges|)
    ensures |sds| == |ranges|
    ensures var full := FullOf(c, total, parameters);
            && Restack(sds, ranges, parameters, |ranges|) == full.layers
            && EmbeddingDest in sds[0] && sds[0][EmbeddingDest] == full.embedding
            && var last := sds[|ranges| - 1];
               NormDest in last && HeadDest in last && last[NormDest] == full.norm && last[HeadDest] == full.head
  {
    sds := [];
    ghost var full := FullOf(c, total, parameters);
    for i := 0 to |ranges|
      invariant |sds| == i && AllSlices(sds, full, ranges[..i], parameters)
    {
      var (lo, hi) := ranges[i];
      RangesWithin(ranges, total, i);
      var sd := LoadShardWeights(c, total, parameters, lo, hi, lo == 0, hi == total);
      OneMoreSlice(sds, sd.value, full, ranges, parameters, i);
      sds := sds + [sd.value];
    }
    assert ranges[..|ranges|] == ranges;
    ShardsRestoreModel(sds, full, ranges, parameters);
  }

  lemma {:induction false} OneMoreSlice<T>(
    sds: seq<map<string, T>>, sd: map<string, T>, full: FullModel<T>, ranges: seq<(nat, nat)>, parameters: set<string>,
    i: nat)
    requires i < |ranges| && AllSlices(sds, full, ranges[..i], parameters)
    requires IsSlice(sd, full, parameters, ranges[i].0, ranges[i].1, ranges[i].0 == 0, ranges[i].1 == |full.layers|)
    ensures AllSlices(sds + [sd], full, ranges[..i + 1], parameters)
  {
    forall k | 0 <= k < i + 1
      ensures IsSlice((sds + [sd])[k], full, parameters, ranges[k].0, ranges[k].1, ranges[k].0 == 0, ranges[k].1 ==
                      |full.layers|)
    {
      assert k < i ==> ranges[..i][k] == ranges[k];
    }
  }

  lemma {:induction false} RangesWithin(ranges: seq<(nat, nat)>, total: nat, i: nat)
    requires IsSplit(ranges, total, |ranges|) && i < |ranges|
    ensures ranges[i].0 <= ranges[i].1 <= total
  {
    if i < |ranges| - 1 {
      StartsAscend(ranges, total, |ranges|, i, |ranges| - 1);
    }
  }
}
