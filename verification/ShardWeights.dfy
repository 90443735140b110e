/**
 What the locations of module ShardLoading are good for: every tensor goes to exactly one shard,
 names survive the renumbering, and the shards built from them are slices of the whole model.
 */
module ShardWeights {
  import opened Wrappers
  import opened Decimal
  import opened OrderedDict
  import opened Dispatch
  import opened ShardLoading

  // ---------- Which locations there are ----------

  lemma {:induction false} LayerLocationsExactly(
    names: seq<string>, files: map<string, string>, lo: nat, hi: nat, x: Location)
    requires forall k :: 0 <= k < |names| ==> names[k] in files
    ensures x in LayerLocations(names, files, lo, hi) <==>
            x.sourceName in names && InRange(x.sourceName, lo, hi) &&
            x == LayerLocation(x.sourceName, files[x.sourceName], lo, hi)
    decreases |names|
  {
    if names != [] {
      var front, last := names[..|names| - 1], names[|names| - 1];
      LayerLocationsExactly(front, files, lo, hi, x);
      assert names == front + [last];
    }
  }

  ghost predicate IsLayerLocation(files: map<string, string>, lo: nat, hi: nat, x: Location) {
    x.sourceName in files && InRange(x.sourceName, lo, hi) &&
    x == LayerLocation(x.sourceName, files[x.sourceName], lo, hi)
  }

  /** A location is the embedding's, the norm's, the head's, or that of a layer tensor in range. */
  lemma {:induction false} LocationsExactly(
    wm: Dict<string, string>, lo: nat, hi: nat, isFirst: bool, isLast: bool, x: Location)
    requires Valid(wm) && Missing(wm.m, isFirst, isLast) == None
    ensures x in Locations(wm, lo, hi, isFirst, isLast) <==>
            IsLayerLocation(wm.m, lo, hi, x) || x in FirstLocations(wm.m, isFirst) || x in LastLocations(wm.m, isLast)
  {
    LayerLocationsExactly(wm.keys, wm.m, lo, hi, x);
  }

  // ---------- Exactly once ----------

  /** How many of the locations read this tensor. */
  ghost function Uses(ls: seq<Location>, name: string): nat
    decreases |ls|
  {
    if ls == [] then 0
    else Uses(ls[..|ls| - 1], name) + (if ls[|ls| - 1].sourceName == name then 1 else 0)
  }

  lemma {:induction false} UsesAppend(a: seq<Location>, b: seq<Location>, name: string)
    ensures Uses(a + b, name) == Uses(a, name) + Uses(b, name)
    decreases |b|
  {
    if b == [] {
      assert a + b == a;
    } else {
      UsesAppend(a, b[..|b| - 1], name);
      assert (a + b)[..|a + b| - 1] == a + b[..|b| - 1];
    }
  }

  lemma {:induction false} LayerUses(names: seq<string>, files: map<string, string>, lo: nat, hi: nat, name: string)
    requires Distinct(names) && forall k :: 0 <= k < |names| ==> names[k] in files
    ensures Uses(LayerLocations(names, files, lo, hi), name) == if name in names && InRange(name, lo, hi) then 1 else 0
    decreases |names|
  {
    if names != [] {
      var front, last := names[..|names| - 1], names[|names| - 1];
      LayerUses(front, files, lo, hi, name);
      assert names == front + [last];
      assert last !in front;
      var ls := LayerLocations(front, files, lo, hi);
      UsesAppend(ls, if InRange(last, lo, hi) then [LayerLocation(last, files[last], lo, hi)] else [], name);
      if InRange(last, lo, hi) {
        OneUse(LayerLocation(last, files[last], lo, hi), name);
      }
    }
  }

  lemma {:induction false} OneUse(x: Location, name: string)
    ensures Uses([x], name) == if x.sourceName == name then 1 else 0
  {
    assert [x][..0] == [];
  }

  lemma {:induction false} NoUse(ls: seq<Location>, name: string)
    requires forall k :: 0 <= k < |ls| ==> ls[k].sourceName != name
    ensures Uses(ls, name) == 0
    decreases |ls|
  {
    if ls != [] {
      NoUse(ls[..|ls| - 1], name);
    }
  }

  /** A shard reads a layer tensor once if the layer is its own, and otherwise not at all. */
  lemma {:induction false} ShardUses(
    wm: Dict<string, string>, lo: nat, hi: nat, isFirst: bool, isLast: bool, name: string)
    requires Valid(wm) && Missing(wm.m, isFirst, isLast) == None && ParseLayerName(name).Some? && name in wm.m
    ensures Uses(Locations(wm, lo, hi, isFirst, isLast), name) == if InRange(name, lo, hi) then 1 else 0
  {
    hide Uses, LayerLocations, ParseLayerName;
    OtherNamesAreNoLayers();
    var first, layers, last := FirstLocations(wm.m, isFirst), LayerLocations(wm.keys, wm.m, lo, hi),
        LastLocations(wm.m, isLast);
    LayerUses(wm.keys, wm.m, lo, hi, name);
    NoUse(first, name);
    NoUse(last, name);
    UsesAppend(first, layers, name);
    UsesAppend(first + layers, last, name);
  }

  /** Uses of a tensor by the first n shards of a plan, whose flags are recomputed from its ranges. */
  ghost function UsesUpTo(wm: Dict<string, string>, ranges: seq<(nat, nat)>, total: nat, n: nat, name: string): nat
    requires n <= |ranges| && Valid(wm) && Missing(wm.m, true, true) == None
  {
    if n == 0 then 0
    else
      var (lo, hi) := ranges[n - 1];
      UsesUpTo(wm, ranges, total, n - 1, name) + Uses(Locations(wm, lo, hi, lo == 0, hi == total), name)
  }

  /** Of the first n shards' ranges together, a tensor is used once if its layer is in them. */
  lemma {:induction false} UsesSoFar(
    wm: Dict<string, string>, ranges: seq<(nat, nat)>, total: nat, nodes: nat, n: nat, name: string)
    requires Valid(wm) && Missing(wm.m, true, true) == None && IsSplit(ranges, total, nodes) && 0 < n <= nodes
    requires ParseLayerName(name).Some? && name in wm.m
    ensures UsesUpTo(wm, ranges, total, n, name) == if ParseLayerName(name).value.index < ranges[n - 1].1 then 1 else 0
    decreases n
  {
    var (lo, hi) := ranges[n - 1];
    ShardUses(wm, lo, hi, lo == 0, hi == total, name);
    if n > 1 {
      UsesSoFar(wm, ranges, total, nodes, n - 1, name);
      assert ranges[n - 2].1 == lo;
    } else {
      assert UsesUpTo(wm, ranges, total, 0, name) == 0;
    }
  }

  /** For every weight map and every plan, each tensor of a layer below the layer count is read
      exactly once by all the shards together, and no other layer tensor is read at all. */
  lemma {:induction false} EachLayerTensorOnce(
    wm: Dict<string, string>, ranges: seq<(nat, nat)>, total: nat, nodes: nat, name: string)
    requires Valid(wm) && Missing(wm.m, true, true) == None && IsSplit(ranges, total, nodes)
    requires ParseLayerName(name).Some? && name in wm.m
    ensures UsesUpTo(wm, ranges, total, nodes, name) == if ParseLayerName(name).value.index < total then 1 else 0
  {
    UsesSoFar(wm, ranges, total, nodes, nodes, name);
  }

  // ---------- Destination names ----------

  /** The name is spelled with the canonical decimal numeral of its layer. */
  ghost predicate Canonical(name: string) {
    ParseLayerName(name).Some? ==>
      name == LayerSource(ParseLayerName(name).value.index, ParseLayerName(name).value.suffix)
  }

  /** However a destination's name is taken apart, adding layer_start back to its number gives the
      tensor's own name. */
  lemma {:induction false} SourceRecovered(
    wm: Dict<string, string>, lo: nat, hi: nat, x: Location, local: nat, suffix: string)
    requires Valid(wm) && x in LayerLocations(wm.keys, wm.m, lo, hi) && Canonical(x.sourceName)
    requires x.destName == LayerDest(local, suffix)
    ensures local < hi - lo && x.sourceName == LayerSource(lo + local, suffix)
  {
    hide ParseLayerName, LayerDest, LayerSource, LayerLocations;
    LayerLocationsExactly(wm.keys, wm.m, lo, hi, x);
    var parsed := ParseLayerName(x.sourceName).value;
    LayerDestInjective(parsed.index - lo, parsed.suffix, local, suffix);
  }

  ghost predicate DestsApart(ls: seq<Location>) {
    forall x, y :: x in ls && y in ls && x.destName == y.destName ==> x == y
  }

  /** No two tensors in range are spelled differently and read as the same layer's parameter. */
  ghost predicate NamesApart(names: set<string>, lo: int, hi: int) {
    forall a, b :: a in names && b in names && InRange(a, lo, hi) && ParseLayerName(a) == ParseLayerName(b) ==> a == b
  }

  lemma {:induction false} LayerDestsApart(files: map<string, string>, lo: nat, hi: nat, x: Location, y: Location)
    requires IsLayerLocation(files, lo, hi, x) && IsLayerLocation(files, lo, hi, y) && x.destName == y.destName
    ensures ParseLayerName(x.sourceName) == ParseLayerName(y.sourceName)
  {
    var a, b := ParseLayerName(x.sourceName).value, ParseLayerName(y.sourceName).value;
    LayerDestInjective(a.index - lo, a.suffix, b.index - lo, b.suffix);
  }

  lemma {:induction false} LayerDestApartFromOthers(files: map<string, string>, lo: nat, hi: nat, x: Location)
    requires IsLayerLocation(files, lo, hi, x)
    ensures x.destName !in {EmbeddingDest, NormDest, HeadDest}
  {
    var a := ParseLayerName(x.sourceName).value;
    LayerDestIsNoOther(a.index - lo, a.suffix);
  }

  /** Two different locations of one shard share a destination only if their names read the same. */
  lemma {:induction false} SameDest(
    wm: Dict<string, string>, lo: nat, hi: nat, isFirst: bool, isLast: bool, x: Location, y: Location)
    requires Valid(wm) && Missing(wm.m, isFirst, isLast) == None
    requires x in Locations(wm, lo, hi, isFirst, isLast) && y in Locations(wm, lo, hi, isFirst, isLast)
    requires x.destName == y.destName && x != y
    ensures IsLayerLocation(wm.m, lo, hi, x) && IsLayerLocation(wm.m, lo, hi, y)
    ensures ParseLayerName(x.sourceName) == ParseLayerName(y.sourceName)
  {
    LocationsExactly(wm, lo, hi, isFirst, isLast, x);
    LocationsExactly(wm, lo, hi, isFirst, isLast, y);
    OtherNamesAreNoLayers();
    if IsLayerLocation(wm.m, lo, hi, x) {
      LayerDestApartFromOthers(wm.m, lo, hi, x);
    }
    if IsLayerLocation(wm.m, lo, hi, y) {
      LayerDestApartFromOthers(wm.m, lo, hi, y);
    }
    if IsLayerLocation(wm.m, lo, hi, x) && IsLayerLocation(wm.m, lo, hi, y) {
      LayerDestsApart(wm.m, lo, hi, x, y);
    }
  }

  lemma {:induction false} LocatedInRange(
    wm: Dict<string, string>, lo: nat, hi: nat, isFirst: bool, isLast: bool, name: string)
    requires Valid(wm) && Missing(wm.m, isFirst, isLast) == None && name in wm.m && InRange(name, lo, hi)
    ensures LayerLocation(name, wm.m[name], lo, hi) in Locations(wm, lo, hi, isFirst, isLast)
  {
    LocationsExactly(wm, lo, hi, isFirst, isLast, LayerLocation(name, wm.m[name], lo, hi));
  }

  lemma {:induction false} SameReading(a: string, b: string, fileA: string, fileB: string, lo: nat, hi: nat)
    requires InRange(a, lo, hi) && ParseLayerName(a) == ParseLayerName(b)
    ensures LayerLocation(a, fileA, lo, hi).destName == LayerLocation(b, fileB, lo, hi).destName
  {
    hide ParseNumbered;
  }

  lemma {:induction false} SpelledTwice(
    wm: Dict<string, string>, lo: nat, hi: nat, isFirst: bool, isLast: bool, a: string, b: string)
    requires Valid(wm) && Missing(wm.m, isFirst, isLast) == None
    requires a in wm.m && b in wm.m && InRange(a, lo, hi) && ParseLayerName(a) == ParseLayerName(b) && a != b
    ensures !DestsApart(Locations(wm, lo, hi, isFirst, isLast))
  {
    LocatedInRange(wm, lo, hi, isFirst, isLast, a);
    LocatedInRange(wm, lo, hi, isFirst, isLast, b);
    SameReading(a, b, wm.m[a], wm.m[b], lo, hi);
    TogetherNotApart(Locations(wm, lo, hi, isFirst, isLast), LayerLocation(a, wm.m[a], lo, hi),
                     LayerLocation(b, wm.m[b], lo, hi));
  }

  lemma {:induction false} TogetherNotApart(ls: seq<Location>, x: Location, y: Location)
    requires x in ls && y in ls && x != y && x.destName == y.destName
    ensures !DestsApart(ls)
  {
  }

  /** Destination names within a shard are pairwise distinct exactly when the checkpoint does not
      spell one layer's number in two ways. */
  lemma {:induction false} DestsApartExactly(wm: Dict<string, string>, lo: nat, hi: nat, isFirst: bool, isLast: bool)
    requires Valid(wm) && Missing(wm.m, isFirst, isLast) == None
    ensures DestsApart(Locations(wm, lo, hi, isFirst, isLast)) <==> NamesApart(wm.m.Keys, lo, hi)
  {
    var ls := Locations(wm, lo, hi, isFirst, isLast);
    forall x, y | x in ls && y in ls && x.destName == y.destName && x != y
      ensures !NamesApart(wm.m.Keys, lo, hi)
    {
      SameDest(wm, lo, hi, isFirst, isLast, x, y);
    }
    forall a, b | a in wm.m.Keys && b in wm.m.Keys && InRange(a, lo, hi) && ParseLayerName(a) == ParseLayerName(b) &&
    a != b
      ensures !DestsApart(ls)
    {
      SpelledTwice(wm, lo, hi, isFirst, isLast, a, b);
    }
  }

  lemma {:induction false} CanonicalNamesApart(names: set<string>, lo: int, hi: int)
    requires forall name :: name in names && InRange(name, lo, hi) ==> Canonical(name)
    ensures NamesApart(names, lo, hi)
  {
  }

  lemma {:induction false} ReadsAsSeven(digits: string)
    requires digits == "7" || digits == "07"
    ensures ParseNumbered(digits + ".D") == Some(LayerName(7, "D"))
  {
    var s := digits + ".D";
    DigitRunStops(digits, ".D");
    assert s[..|digits|] == digits && s[|digits| + 1..] == "D";
    assert digits[..|digits| - 1] == if digits == "7" then "" else "0";
    assert "0"[..0] == "" && ParseDecimal("0") == 0;
  }

  /** The numerals 7 and 07 name one layer: a checkpoint with both sends two tensors to one parameter. */
  lemma {:induction false} SpellingsCollide()
    ensures ParseLayerName(LayerPrefix + ("7" + ".D")) == ParseLayerName(LayerPrefix + ("07" + ".D")) ==
              Some(LayerName(7, "D"))
    ensures !NamesApart({LayerPrefix + ("7" + ".D"), LayerPrefix + ("07" + ".D")}, 0, 8)
  {
    hide ParseNumbered, Canonical;
    var a, b := LayerPrefix + ("7" + ".D"), LayerPrefix + ("07" + ".D");
    ReadsAsSeven("7");
    ReadsAsSeven("07");
    assert a[|LayerPrefix|..] == "7" + ".D" && b[|LayerPrefix|..] == "07" + ".D";
    assert |a| != |b|;
  }
}
