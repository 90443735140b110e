/**
 inference/shard.py, tensor_locations_for_range and from_tensor_locations: which checkpoint tensors
 a shard needs, under which names, and how it gathers them file by file.

 A tensor is an abstract value; a checkpoint is an index from tensor names to files, in the order
 of its entries, and the contents of those files.
 */
module ShardLoading {
  import opened Wrappers
  import opened Decimal
  import opened OrderedDict

  datatype Location = Location(destName: string, sourceName: string, sourceFile: string)

  const EmbeddingName := "backbone.embeddings.weight"
  const NormName := "backbone.norm_f.weight"
  const HeadName := "lm_head.weight"
  const EmbeddingDest := "embeddings.weight"
  const NormDest := "norm_f.weight"
  const HeadDest := "lm_head.weight"

  // ---------- Names ----------

  datatype LayerName = LayerName(index: nat, suffix: string)

  const LayerPrefix := "backbone.layers."

  /** A layer number, a dot and a parameter name. */
  function Numbered(k: nat, suffix: string): string {
    ToDecimal(k) + ("." + suffix)
  }

  function LayerSource(index: nat, suffix: string): string {
    LayerPrefix + Numbered(index, suffix)
  }

  function LayerDest(local: nat, suffix: string): string {
    "layers." + Numbered(local, suffix)
  }

  function ParseNumbered(s: string): (r: Option<LayerName>)
    ensures r.Some? ==> r.value.suffix != ""
  {
    var k := DigitRun(s);
    if 0 < k && k + 1 < |s| && s[k] == '.' then Some(LayerName(ParseDecimal(s[..k]), s[k + 1..])) else None
  }

  /** The regular expression ^backbone\.layers\.(\d+)\.(.+)$ on names without line breaks. */
  function ParseLayerName(name: string): (r: Option<LayerName>)
    ensures r.Some? ==> r.value.suffix != ""
  {
    if LayerPrefix <= name then ParseNumbered(name[|LayerPrefix|..]) else None
  }

  lemma {:induction false} ParseBack(k: nat, suffix: string)
    requires suffix != ""
    ensures ParseNumbered(Numbered(k, suffix)) == Some(LayerName(k, suffix))
  {
    var s, n := Numbered(k, suffix), |ToDecimal(k)|;
    DigitRunStops(ToDecimal(k), "." + suffix);
    ParseToDecimal(k);
    assert s[..n] == ToDecimal(k);
    assert s[n] == '.' && s[n + 1..] == suffix;
  }

  lemma {:induction false} ParseLayerSource(index: nat, suffix: string)
    requires suffix != ""
    ensures ParseLayerName(LayerSource(index, suffix)) == Some(LayerName(index, suffix))
  {
    ParseBack(index, suffix);
    assert LayerSource(index, suffix)[|LayerPrefix|..] == Numbered(index, suffix);
  }

  lemma {:induction false} LayerDestInjective(a: nat, x: string, b: nat, y: string)
    requires LayerDest(a, x) == LayerDest(b, y)
    ensures a == b && x == y
  {
    var s, t := LayerDest(a, x), LayerDest(b, y);
    assert s[7..] == Numbered(a, x) && t[7..] == Numbered(b, y);
    NumeralThenRestInjective(a, "." + x, b, "." + y);
    assert ("." + x)[1..] == x && ("." + y)[1..] == y;
  }

  lemma {:induction false} LayerDestIsNoOther(local: nat, suffix: string)
    ensures LayerDest(local, suffix) !in {EmbeddingDest, NormDest, HeadDest}
  {
    assert LayerDest(local, suffix)[..2] == "la" && EmbeddingDest[..2] == "em" && NormDest[..2] == "no" &&
           HeadDest[..2] == "lm";
  }

  lemma {:induction false} OtherNamesAreNoLayers()
    ensures ParseLayerName(EmbeddingName) == ParseLayerName(NormName) == ParseLayerName(HeadName) == None
    ensures EmbeddingDest != NormDest && NormDest != HeadDest && EmbeddingDest != HeadDest
  {
    assert EmbeddingName[9] == 'e' && NormName[9] == 'n' && HeadName[0] == 'l' && LayerPrefix[9] == 'l' &&
           LayerPrefix[0] == 'b';
    assert EmbeddingDest[0] == 'e' && NormDest[0] == 'n' && HeadDest[0] == 'l';
  }

  // ---------- tensor_locations_for_range ----------

  predicate InRange(name: string, lo: int, hi: int) {
    ParseLayerName(name).Some? && lo <= ParseLayerName(name).value.index < hi
  }

  /** The location of one layer tensor, renumbered from the checkpoint's index to the shard's own. */
  function LayerLocation(name: string, file: string, lo: nat, hi: nat): Location
    requires InRange(name, lo, hi)
  {
    var parsed := ParseLayerName(name).value;
    Location(LayerDest(parsed.index - lo, parsed.suffix), name, file)
  }

  function LayerLocations(names: seq<string>, files: map<string, string>, lo: nat, hi: nat): (ls: seq<Location>)
    requires forall k :: 0 <= k < |names| ==> names[k] in files
    decreases |names|
  {
    if names == [] then []
    else
      var name := names[|names| - 1];
      LayerLocations(names[..|names| - 1], files, lo, hi)
      + (if InRange(name, lo, hi) then [LayerLocation(name, files[name], lo, hi)] else [])
  }

  /** The layer tensors at these ascending positions: all in range, and no other. */
  lemma {:induction false} LayersPicked(names: seq<string>, files: map<string, string>, lo: nat, hi: nat)
    returns (at: seq<nat>)
    requires forall k :: 0 <= k < |names| ==> names[k] in files
    ensures |at| == |LayerLocations(names, files, lo, hi)|
    ensures forall i :: 0 <= i < |at| ==>
              && at[i] < |names| && InRange(names[at[i]], lo, hi)
              && LayerLocations(names, files, lo, hi)[i] == LayerLocation(names[at[i]], files[names[at[i]]], lo, hi)
    ensures forall i, j :: 0 <= i < j < |at| ==> at[i] < at[j]
    ensures forall k :: 0 <= k < |names| && InRange(names[k], lo, hi) ==> k in at
    decreases |names|
  {
    hide InRange, LayerLocation;
    at := [];
    if names != [] {
      var n := |names| - 1;
      var front := names[..n];
      var before := LayersPicked(front, files, lo, hi);
      var layer := if InRange(names[n], lo, hi) then [LayerLocation(names[n], files[names[n]], lo, hi)] else [];
      assert LayerLocations(names, files, lo, hi) == LayerLocations(front, files, lo, hi) + layer;
      hide LayerLocations;
      at := before + (if InRange(names[n], lo, hi) then [n] else []);
      assert forall k :: 0 <= k < |names| && InRange(names[k], lo, hi) && k < n ==>
               front[k] == names[k] && k in before;
      assert InRange(names[n], lo, hi) ==> at[|before|] == n;
    }
  }

  /** The layer number is the shard's own; the rest of the name stays. */
  ghost predicate Renumbered(x: Location, lo: nat, hi: nat) {
    exists index: nat, suffix ::
      && ParseLayerName(x.sourceName) == Some(LayerName(index, suffix))
      && lo <= index < hi && x.destName == LayerDest(index - lo, suffix)
  }

  /** Every layer tensor of the range once, from its own file, renumbered, in the order of the map. */
  ghost predicate AreRangeLayers(ls: seq<Location>, weightMap: Dict<string, string>, lo: nat, hi: nat) {
    && (forall i :: 0 <= i < |ls| ==>
          && ls[i].sourceName in weightMap.m && ls[i].sourceFile == weightMap.m[ls[i].sourceName]
          && Renumbered(ls[i], lo, hi))
    && (forall name :: name in weightMap.m && InRange(name, lo, hi) ==>
          exists i :: 0 <= i < |ls| && ls[i].sourceName == name)
    && (forall i, j :: 0 <= i < j < |ls| ==> ComesBefore(weightMap.keys, ls[i].sourceName, ls[j].sourceName))
  }

  lemma {:induction false} LayerIsRenumbered(name: string, file: string, lo: nat, hi: nat)
    requires InRange(name, lo, hi)
    ensures var x := LayerLocation(name, file, lo, hi);
            x.sourceName == name && x.sourceFile == file && Renumbered(x, lo, hi)
  {
    hide ParseLayerName, LayerDest;
    var parsed := ParseLayerName(name).value;
    assert ParseLayerName(name) == Some(LayerName(parsed.index, parsed.suffix));
  }

  lemma {:induction false} LayersAreRange(weightMap: Dict<string, string>, lo: nat, hi: nat)
    requires Valid(weightMap)
    ensures AreRangeLayers(LayerLocations(weightMap.keys, weightMap.m, lo, hi), weightMap, lo, hi)
  {
    hide LayerLocations, LayerLocation, InRange, Renumbered;
    var keys, ls := weightMap.keys, LayerLocations(weightMap.keys, weightMap.m, lo, hi);
    var at := LayersPicked(keys, weightMap.m, lo, hi);
    forall i | 0 <= i < |ls|
      ensures ls[i].sourceName == keys[at[i]] && ls[i].sourceFile == weightMap.m[keys[at[i]]]
      ensures Renumbered(ls[i], lo, hi)
    {
      LayerIsRenumbered(keys[at[i]], weightMap.m[keys[at[i]]], lo, hi);
    }
    forall name | name in weightMap.m && InRange(name, lo, hi)
      ensures exists i :: 0 <= i < |ls| && ls[i].sourceName == name
    {
      var k :| 0 <= k < |keys| && keys[k] == name;
      var i :| 0 <= i < |at| && at[i] == k;
      assert ls[i].sourceName == name;
    }
    forall i, j | 0 <= i < j < |ls|
      ensures ComesBefore(keys, ls[i].sourceName, ls[j].sourceName)
    {
      assert at[i] < at[j];
    }
  }

  /** The embedding in front, the layers, and the norm and the head, tied or not, behind. */
  ghost predicate AreShardTensors(
    ls: seq<Location>, weightMap: Dict<string, string>, lo: nat, hi: nat, isFirst: bool, isLast: bool)
  {
    var m := weightMap.m;
    var front, back := if isFirst then 1 else 0, if isLast then 2 else 0;
    && front + back <= |ls|
    && (isFirst ==> EmbeddingName in m && ls[0] == Location(EmbeddingDest, EmbeddingName, m[EmbeddingName]))
    && AreRangeLayers(ls[front..|ls| - back], weightMap, lo, hi)
    && (isLast ==> NormName in m && ls[|ls| - 2] == Location(NormDest, NormName, m[NormName]))
    && (isLast && HeadName in m ==> ls[|ls| - 1] == Location(HeadDest, HeadName, m[HeadName]))
    && (isLast && HeadName !in m ==>
          EmbeddingName in m && ls[|ls| - 1] == Location(HeadDest, EmbeddingName, m[EmbeddingName]))
  }

  lemma {:induction false} LocationsAreShardTensors(
    weightMap: Dict<string, string>, lo: nat, hi: nat, isFirst: bool, isLast: bool)
    requires Valid(weightMap) && Missing(weightMap.m, isFirst, isLast) == None
    ensures AreShardTensors(Locations(weightMap, lo, hi, isFirst, isLast), weightMap, lo, hi, isFirst, isLast)
  {
    hide LayerLocations, AreRangeLayers;
    LayersAreRange(weightMap, lo, hi);
    var ls := Locations(weightMap, lo, hi, isFirst, isLast);
    var front, back := if isFirst then 1 else 0, if isLast then 2 else 0;
    assert ls[front..|ls| - back] == LayerLocations(weightMap.keys, weightMap.m, lo, hi);
  }

  function HeadSource(weightMap: map<string, string>): string {
    if HeadName in weightMap then HeadName else EmbeddingName
  }

  /** The first name the shard needs and the checkpoint lacks, if any. */
  function Missing(weightMap: map<string, string>, isFirst: bool, isLast: bool): Option<string> {
    if isFirst && EmbeddingName !in weightMap then Some(EmbeddingName)
    else if isLast && NormName !in weightMap then Some(NormName)
    else if isLast && HeadSource(weightMap) !in weightMap then Some(EmbeddingName)
    else None
  }

  function FirstLocations(weightMap: map<string, string>, isFirst: bool): seq<Location>
    requires isFirst ==> EmbeddingName in weightMap
  {
    if isFirst then [Location(EmbeddingDest, EmbeddingName, weightMap[EmbeddingName])] else []
  }

  function LastLocations(weightMap: map<string, string>, isLast: bool): seq<Location>
    requires isLast ==> NormName in weightMap && HeadSource(weightMap) in weightMap
  {
    if isLast then
      [Location(NormDest, NormName, weightMap[NormName]),
       Location(HeadDest, HeadSource(weightMap), weightMap[HeadSource(weightMap)])]
    else []
  }

  /** The loop over the weight map's items. */
  method LayerTensors(weightMap: Dict<string, string>, lo: nat, hi: nat) returns (locations: seq<Location>)
    requires Valid(weightMap)
    ensures locations == LayerLocations(weightMap.keys, weightMap.m, lo, hi)
  {
    hide ParseLayerName;
    locations := [];
    for k := 0 to |weightMap.keys|
      invariant locations == LayerLocations(weightMap.keys[..k], weightMap.m, lo, hi)
    {
      var name := weightMap.keys[k];
      assert weightMap.keys[..k + 1][..k] == weightMap.keys[..k];
      var parsed := ParseLayerName(name);
      if parsed.Some? && lo <= parsed.value.index < hi {
        var local := parsed.value.index - lo;
        locations := locations + [Location(LayerDest(local, parsed.value.suffix), name, weightMap.m[name])];
      }
    }
    assert weightMap.keys[..|weightMap.keys|] == weightMap.keys;
  }

  function Locations(weightMap: Dict<string, string>, lo: nat, hi: nat, isFirst: bool, isLast: bool): seq<Location>
    requires forall k :: 0 <= k < |weightMap.keys| ==> weightMap.keys[k] in weightMap.m
    requires Missing(weightMap.m, isFirst, isLast) == None
  {
    FirstLocations(weightMap.m, isFirst) + LayerLocations(weightMap.keys, weightMap.m, lo, hi) +
      LastLocations(weightMap.m, isLast)
  }

  method TensorLocationsForRange(weightMap: Dict<string, string>, lo: nat, hi: nat, isFirst: bool, isLast: bool)
    returns (r: Result<seq<Location>, string>)
    requires Valid(weightMap)
    ensures var missing := Missing(weightMap.m, isFirst, isLast);
            r == if missing.Some? then Err(missing.value) else Ok(Locations(weightMap, lo, hi, isFirst, isLast))
    ensures if isFirst && EmbeddingName !in weightMap.m then r == Err(EmbeddingName)
            else if isLast && NormName !in weightMap.m then r == Err(NormName)
            else if isLast && HeadName !in weightMap.m && EmbeddingName !in weightMap.m then r == Err(EmbeddingName)
            else r.Ok? && AreShardTensors(r.value, weightMap, lo, hi, isFirst, isLast)
  {
    hide LayerLocations, AreShardTensors;
    if Missing(weightMap.m, isFirst, isLast) == None {
      LocationsAreShardTensors(weightMap, lo, hi, isFirst, isLast);
    }
    var files := weightMap.m;
    var locations := [];
    if isFirst {
      if EmbeddingName !in files {
        return Err(EmbeddingName);
      }
      locations := [Location(EmbeddingDest, EmbeddingName, files[EmbeddingName])];
    }
    var layers := LayerTensors(weightMap, lo, hi);
    locations := locations + layers;
    if !isLast {
      assert locations == locations + [];
      return Ok(locations);
    }
    if NormName !in files {
      return Err(NormName);
    }
    var norm := Location(NormDest, NormName, files[NormName]);
    var source := if HeadName in files then HeadName else EmbeddingName;
    if source !in files {
      return Err(source);
    }
    var head := Location(HeadDest, source, files[source]);
    assert locations + [norm] + [head] == locations + [norm, head];
    return Ok(locations + [norm] + [head]);
  }

  // ---------- from_tensor_locations ----------

  /** The locations in one file, in order. */
  function OfFile(locations: seq<Location>, file: string): (ls: seq<Location>)
    decreases |locations|
  {
    if locations == [] then []
    else
      var last := locations[|locations| - 1];
      OfFile(locations[..|locations| - 1], file) + (if last.sourceFile == file then [last] else [])
  }

  /** Every location appended to the list of its file, in order. */
  function Grouped(locations: seq<Location>): (byFile: Dict<string, seq<Location>>)
    decreases |locations|
  {
    if locations == [] then Empty()
    else
      var last := locations[|locations| - 1];
      var before := Grouped(locations[..|locations| - 1]);
      var file := last.sourceFile;
      Put(before, file, (if file in before.m then before.m[file] else []) + [last])
  }

  method GroupByFile(locations: seq<Location>) returns (byFile: Dict<string, seq<Location>>)
    ensures byFile == Grouped(locations)
  {
    byFile := Empty();
    for k := 0 to |locations|
      invariant byFile == Grouped(locations[..k])
    {
      var location := locations[k];
      var file := location.sourceFile;
      assert locations[..k + 1][..k] == locations[..k];
      byFile := Put(byFile, file, (if file in byFile.m then byFile.m[file] else []) + [location]);
    }
    assert locations[..|locations|] == locations;
  }

  lemma {:induction false} GroupedValid(locations: seq<Location>)
    ensures Valid(Grouped(locations))
    decreases |locations|
  {
    if locations != [] {
      GroupedValid(locations[..|locations| - 1]);
    }
  }

  lemma {:induction false} GroupedByFile(locations: seq<Location>, file: string)
    ensures var g := Grouped(locations);
            && (file in g.m <==> OfFile(locations, file) != [])
            && (file in g.m ==> g.m[file] == OfFile(locations, file))
    decreases |locations|
  {
    if locations != [] {
      GroupedByFile(locations[..|locations| - 1], file);
    }
  }

  lemma {:induction false} OfFileExactly(locations: seq<Location>, file: string, x: Location)
    ensures x in OfFile(locations, file) <==> x in locations && x.sourceFile == file
    decreases |locations|
  {
    if locations != [] {
      var front, last := locations[..|locations| - 1], locations[|locations| - 1];
      OfFileExactly(front, file, x);
      assert locations == front + [last];
    }
  }

  type Files<T> = map<string, map<string, T>>

  /** What is missing for a location: its file, or the tensor in it. */
  ghost predicate LacksAt<T>(files: Files<T>, x: Location, what: string) {
    if x.sourceFile in files then what == x.sourceName && what !in files[x.sourceFile] else what == x.sourceFile
  }

  /** The checkpoint's file is there and holds the tensor. */
  ghost predicate Stored<T>(files: Files<T>, x: Location) {
    x.sourceFile in files && x.sourceName in files[x.sourceFile]
  }

  ghost function Tensor<T>(files: Files<T>, x: Location): T
    requires Stored(files, x)
  {
    files[x.sourceFile][x.sourceName]
  }

  ghost predicate AllStored<T>(files: Files<T>, ls: seq<Location>) {
    forall k :: 0 <= k < |ls| ==> Stored(files, ls[k])
  }

  /** A state dict after the tensors of these locations were put into it, one after the other. */
  ghost function Overlay<T>(files: Files<T>, sd: map<string, T>, ls: seq<Location>): map<string, T>
    requires AllStored(files, ls)
    decreases |ls|
  {
    if ls == [] then sd
    else Overlay(files, sd, ls[..|ls| - 1])[ls[|ls| - 1].destName := Tensor(files, ls[|ls| - 1])]
  }

  /** The groups one after the other, in the order in which their files first appear. */
  ghost function Flat(byFile: Dict<string, seq<Location>>, n: nat): seq<Location>
    requires n <= |byFile.keys| && forall k :: 0 <= k < |byFile.keys| ==> byFile.keys[k] in byFile.m
  {
    if n == 0 then [] else Flat(byFile, n - 1) + byFile.m[byFile.keys[n - 1]]
  }

  lemma {:induction false} OverlayAppend<T>(files: Files<T>, sd: map<string, T>, a: seq<Location>, b: seq<Location>)
    requires AllStored(files, a) && AllStored(files, b)
    ensures AllStored(files, a + b) && Overlay(files, sd, a + b) == Overlay(files, Overlay(files, sd, a), b)
    decreases |b|
  {
    if b == [] {
      assert a + b == a;
    } else {
      OverlayAppend(files, sd, a, b[..|b| - 1]);
      assert (a + b)[..|a + b| - 1] == a + b[..|b| - 1];
    }
  }

  /** One group per file, none empty, each with that file's locations. */
  ghost predicate IsGrouping(byFile: Dict<string, seq<Location>>, locations: seq<Location>) {
    && Valid(byFile)
    && (forall f :: f in byFile.m ==> byFile.m[f] != [] && forall x :: x in byFile.m[f] ==>
        x in locations && x.sourceFile == f)
    && (forall x :: x in locations ==> x.sourceFile in byFile.m && x in byFile.m[x.sourceFile])
  }

  lemma {:induction false} GroupedIsGrouping(locations: seq<Location>)
    ensures IsGrouping(Grouped(locations), locations)
  {
    var g := Grouped(locations);
    GroupedValid(locations);
    forall f | f in g.m
      ensures g.m[f] != [] && forall x :: x in g.m[f] ==> x in locations && x.sourceFile == f
    {
      GroupedByFile(locations, f);
      forall x | x in g.m[f]
        ensures x in locations && x.sourceFile == f
      {
        OfFileExactly(locations, f, x);
      }
    }
    forall x | x in locations
      ensures x.sourceFile in g.m && x in g.m[x.sourceFile]
    {
      GroupedByFile(locations, x.sourceFile);
      OfFileExactly(locations, x.sourceFile, x);
    }
  }

  /** One file: fetched, then read tensor by tensor. */
  method ReadFile<T>(files: Files<T>, file: string, ls: seq<Location>, sd0: map<string, T>)
    returns (r: Result<map<string, T>, string>)
    requires forall k :: 0 <= k < |ls| ==> ls[k].sourceFile == file
    requires ls != []
    ensures r.Ok? <==> AllStored(files, ls)
    ensures r.Ok? ==> r.value == Overlay(files, sd0, ls)
    ensures r.Err? ==> exists x :: x in ls && LacksAt(files, x, r.error)
  {
    if file !in files {
      assert !Stored(files, ls[0]) && LacksAt(files, ls[0], file);
      return Err(file);
    }
    var sd := sd0;
    for k := 0 to |ls|
      invariant AllStored(files, ls[..k]) && sd == Overlay(files, sd0, ls[..k])
    {
      var location := ls[k];
      if location.sourceName !in files[file] {
        assert !Stored(files, ls[k]) && LacksAt(files, ls[k], location.sourceName);
        return Err(location.sourceName);
      }
      assert ls[..k + 1][..k] == ls[..k];
      sd := sd[location.destName := files[file][location.sourceName]];
    }
    assert ls[..|ls|] == ls;
    return Ok(sd);
  }

  /** What the state dict is once the first k groups have been read. */
  ghost predicate ReadUpTo<T>(files: Files<T>, byFile: Dict<string, seq<Location>>, k: nat, sd: map<string, T>)
    requires k <= |byFile.keys| && Valid(byFile)
  {
    AllStored(files, Flat(byFile, k)) && sd == Overlay(files, map[], Flat(byFile, k))
  }

  lemma {:induction false} NothingRead<T>(files: Files<T>, byFile: Dict<string, seq<Location>>)
    requires Valid(byFile)
    ensures ReadUpTo(files, byFile, 0, map[])
  {
  }

  lemma {:induction false} ReadStep<T>(files: Files<T>, byFile: Dict<string, seq<Location>>, k: nat, sd: map<string, T>)
    requires Valid(byFile) && k < |byFile.keys| && ReadUpTo(files, byFile, k, sd)
    requires AllStored(files, byFile.m[byFile.keys[k]])
    ensures ReadUpTo(files, byFile, k + 1, Overlay(files, sd, byFile.m[byFile.keys[k]]))
  {
    OverlayAppend(files, map[], Flat(byFile, k), byFile.m[byFile.keys[k]]);
  }

  lemma {:induction false} UnreadGroup<T>(
    files: Files<T>, byFile: Dict<string, seq<Location>>, locations: seq<Location>, file: string)
    requires IsGrouping(byFile, locations) && file in byFile.m && !AllStored(files, byFile.m[file])
    ensures !AllStored(files, locations)
  {
    var group := byFile.m[file];
    var j :| 0 <= j < |group| && !Stored(files, group[j]);
    assert group[j] in group;
    var i :| 0 <= i < |locations| && locations[i] == group[j];
  }

  /** Each group's file in turn. */
  method ReadFiles<T>(files: Files<T>, byFile: Dict<string, seq<Location>>, ghost locations: seq<Location>)
    returns (r: Result<map<string, T>, string>, fetched: seq<string>)
    requires IsGrouping(byFile, locations)
    ensures fetched <= byFile.keys
    ensures r.Ok? ==> fetched == byFile.keys && ReadUpTo(files, byFile, |byFile.keys|, r.value)
    ensures r.Err? ==> !AllStored(files, locations)
    ensures r.Err? ==> exists x :: x in locations && LacksAt(files, x, r.error)
  {
    hide OfFile, ReadUpTo, AllStored;
    var sd: map<string, T> := map[];
    fetched := [];
    NothingRead(files, byFile);
    for k := 0 to |byFile.keys|
      invariant fetched == byFile.keys[..k]
      invariant ReadUpTo(files, byFile, k, sd)
    {
      var file := byFile.keys[k];
      fetched := fetched + [file];
      var read := ReadFile(files, file, byFile.m[file], sd);
      if read.Err? {
        UnreadGroup(files, byFile, locations, file);
        return Err(read.error), fetched;
      }
      ReadStep(files, byFile, k, sd);
      sd := read.value;
    }
    return Ok(sd), fetched;
  }

  lemma {:induction false} FlatMembers(byFile: Dict<string, seq<Location>>, n: nat, x: Location)
    requires n <= |byFile.keys| && forall k :: 0 <= k < |byFile.keys| ==> byFile.keys[k] in byFile.m
    ensures x in Flat(byFile, n) <==> exists k :: 0 <= k < n && x in byFile.m[byFile.keys[k]]
    decreases n
  {
    if n > 0 {
      FlatMembers(byFile, n - 1, x);
    }
  }

  /** Grouping loses nothing and adds nothing. */
  lemma {:induction false} FlatOfGrouping(byFile: Dict<string, seq<Location>>, locations: seq<Location>, x: Location)
    requires IsGrouping(byFile, locations)
    ensures x in Flat(byFile, |byFile.keys|) <==> x in locations
  {
    FlatMembers(byFile, |byFile.keys|, x);
    if x in locations {
      assert x.sourceFile in byFile.keys;
    }
  }

  /** A state dict holds the parameters that the locations name, each with the tensor of one of them. */
  ghost predicate Gathered<T>(files: Files<T>, sd: map<string, T>, ls: seq<Location>) {
    && (forall x :: x in ls ==> x.destName in sd)
    && (forall d :: d in sd ==> exists x :: x in ls && Stored(files, x) && x.destName == d && sd[d] == Tensor(files, x))
  }

  ghost function Dests(ls: seq<Location>): (names: set<string>)
  {
    set x | x in ls :: x.destName
  }

  lemma {:induction false} OverlayGathers<T>(files: Files<T>, ls: seq<Location>)
    requires AllStored(files, ls)
    ensures Gathered(files, Overlay(files, map[], ls), ls)
    decreases |ls|
  {
    if ls != [] {
      var front, last := ls[..|ls| - 1], ls[|ls| - 1];
      assert forall x :: x in ls <==> x in front || x == last;
      OverlayGathers(files, front);
    }
  }

  /** Which file a tensor lies in, and in which order the files come, makes no difference. */
  lemma {:induction false} GroupingGathers<T>(
    files: Files<T>, byFile: Dict<string, seq<Location>>, locations: seq<Location>)
    requires IsGrouping(byFile, locations) && AllStored(files, Flat(byFile, |byFile.keys|))
    ensures AllStored(files, locations) &&
            Gathered(files, Overlay(files, map[], Flat(byFile, |byFile.keys|)), locations)
  {
    var flat := Flat(byFile, |byFile.keys|);
    forall x
      ensures x in flat <==> x in locations
    {
      FlatOfGrouping(byFile, locations, x);
    }
    OverlayGathers(files, flat);
    assert forall k :: 0 <= k < |locations| ==> locations[k] in flat;
  }

  /** Fetch every needed file once and gather the tensors. */
  method GatherTensors<T>(files: Files<T>, locations: seq<Location>)
    returns (r: Result<map<string, T>, string>, fetched: seq<string>)
    ensures Distinct(fetched)
    ensures forall f :: f in fetched ==> exists x :: x in locations && x.sourceFile == f
    ensures r.Ok? <==> AllStored(files, locations)
    ensures r.Err? ==> exists x :: x in locations && LacksAt(files, x, r.error)
    ensures r.Ok? ==> Gathered(files, r.value, locations)
    ensures r.Ok? ==> forall x :: x in locations ==> x.sourceFile in fetched
  {
    var byFile := GroupByFile(locations);
    GroupedIsGrouping(locations);
    r, fetched := ReadFiles(files, byFile, locations);
    FetchedFiles(byFile, locations, fetched);
    if r.Ok? {
      GroupingGathers(files, byFile, locations);
    }
  }

  /** Gather the tensors and load them into a fresh shard, which insists on exactly its own parameters. */
  method FromTensorLocations<T>(files: Files<T>, locations: seq<Location>, parameters: set<string>)
    returns (r: Result<map<string, T>, string>)
    ensures r.Ok? <==> AllStored(files, locations) && parameters == Dests(locations)
    ensures r.Ok? ==> r.value.Keys == parameters && Gathered(files, r.value, locations)
    ensures r.Err? && AllStored(files, locations) ==> r.error == "RuntimeError"
    ensures r.Err? && !AllStored(files, locations) ==> exists x :: x in locations && LacksAt(files, x, r.error)
  {
    var gathered, _ := GatherTensors(files, locations);
    if gathered.Err? {
      return Err(gathered.error);
    }
    if gathered.value.Keys != parameters {
      return Err("RuntimeError");
    }
    return Ok(gathered.value);
  }

  lemma {:induction false} FetchedFiles(
    byFile: Dict<string, seq<Location>>, locations: seq<Location>, fetched: seq<string>)
    requires IsGrouping(byFile, locations) && fetched <= byFile.keys
    ensures Distinct(fetched)
    ensures forall f :: f in fetched ==> exists x :: x in locations && x.sourceFile == f
    ensures fetched == byFile.keys ==> forall x :: x in locations ==> x.sourceFile in fetched
  {
    forall f | f in fetched
      ensures exists x :: x in locations && x.sourceFile == f
    {
      assert f in byFile.m;
      assert byFile.m[f][0] in byFile.m[f];
    }
  }
}
