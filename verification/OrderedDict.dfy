/** Python's dict: a map that also remembers the order in which its keys were first inserted. */
module OrderedDict {

  datatype Dict<K(==), V> = Dict(keys: seq<K>, m: map<K, V>)

  ghost predicate Distinct<T>(s: seq<T>) {
    forall i, j :: 0 <= i < j < |s| ==> s[i] != s[j]
  }

  ghost predicate Valid<K(!new), V>(d: Dict<K, V>) {
    && Distinct(d.keys)
    && (forall i :: 0 <= i < |d.keys| ==> d.keys[i] in d.m)
    && (forall k :: k in d.m ==> k in d.keys)
  }

  function Empty<K, V>(): (d: Dict<K, V>)
  {
    Dict([], map[])
  }

  /** Assign to a key; an existing key keeps its place. */
  function Put<K(==,!new), V>(d: Dict<K, V>, k: K, v: V): (r: Dict<K, V>)
    ensures Valid(d) ==> Valid(r)
  {
    Dict(if k in d.m then d.keys else d.keys + [k], d.m[k := v])
  }

  /** Delete a key. */
  function Remove<K(==,!new), V>(d: Dict<K, V>, k: K): (r: Dict<K, V>)
    ensures Valid(d) ==> Valid(r)
  {
    var ks := Without(d.keys, k);
    assert forall i :: 0 <= i < |ks| ==> ks[i] in ks;
    Dict(ks, d.m - {k})
  }

  function Without<K(==,!new)>(ks: seq<K>, k: K): (r: seq<K>)
    ensures forall x :: x in r <==> x in ks && x != k
    ensures Distinct(ks) ==> Distinct(r)
  {
    if ks == [] then []
    else
    assert Distinct(ks) ==> Distinct(ks[1..]) && ks[0] !in ks[1..];
    if ks[0] == k then Without(ks[1..], k)
    else [ks[0]] + Without(ks[1..], k)
  }

  /** The first of these keys comes before the second. */
  ghost predicate ComesBefore<K>(keys: seq<K>, x: K, y: K) {
    exists a, b :: 0 <= a < b < |keys| && keys[a] == x && keys[b] == y
  }

  /** Keys that are still there come in the order in which they came. */
  ghost predicate KeepsOrder<K(!new)>(before: seq<K>, after: seq<K>) {
    forall x, y :: x in after && y in after && ComesBefore(before, x, y) ==> ComesBefore(after, x, y)
  }

  lemma {:induction false} WithoutComesBefore<K(!new)>(ks: seq<K>, k: K, x: K, y: K)
    requires ComesBefore(ks, x, y) && x != k && y != k
    ensures ComesBefore(Without(ks, k), x, y)
    decreases |ks|
  {
    var a, b :| 0 <= a < b < |ks| && ks[a] == x && ks[b] == y;
    var rest := Without(ks[1..], k);
    if a > 0 {
      assert ks[1..][a - 1] == x && ks[1..][b - 1] == y;
      WithoutComesBefore(ks[1..], k, x, y);
      var a', b' :| 0 <= a' < b' < |rest| && rest[a'] == x && rest[b'] == y;
      assert ks[0] != k ==> ([ks[0]] + rest)[a' + 1] == x && ([ks[0]] + rest)[b' + 1] == y;
    } else {
      assert ks[1..][b - 1] == y && y in rest;
      var b' :| 0 <= b' < |rest| && rest[b'] == y;
      assert ([ks[0]] + rest)[0] == x && ([ks[0]] + rest)[b' + 1] == y;
    }
  }

  /** Deleting a key leaves the others in order. */
  lemma {:induction false} WithoutKeepsOrder<K(!new)>(ks: seq<K>, k: K)
    ensures KeepsOrder(ks, Without(ks, k))
  {
    forall x, y | x in Without(ks, k) && y in Without(ks, k) && ComesBefore(ks, x, y)
      ensures ComesBefore(Without(ks, k), x, y)
    {
      WithoutComesBefore(ks, k, x, y);
    }
  }
}
