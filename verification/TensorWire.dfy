/**
 inference/tensor_utils.py: a tensor as raw bytes, a shape and a dtype name, and back.

 An element is the bytes it is stored in.  A tensor is a strided view of a storage, as PyTorch's
 are: transposed and sliced tensors share storage and need not be contiguous.
 */
module TensorWire {
  import opened Wrappers

  type Byte = b: int | 0 <= b < 256

  type Item = seq<Byte>

  datatype Tensor = Tensor(dtype: string, storage: seq<Item>, shape: seq<nat>, strides: seq<int>, offset: int)

  datatype Wire = Wire(data: seq<Byte>, shape: seq<int>, dtype: string)

  datatype WireError = UnsupportedDtype | SizeMismatch | BadShape

  /** DTYPE_MAP, by the size of its elements. */
  function ItemSize(dtype: string): Option<nat> {
    match dtype
    case "torch.float32" => Some(4)
    case "torch.float16" => Some(2)
    case "torch.int64" => Some(8)
    case "torch.int32" => Some(4)
    case _ => None
  }

  // ---------- Shapes and indices ----------

  function Product(shape: seq<int>): int {
    if shape == [] then 1 else shape[0] * Product(shape[1..])
  }

  ghost predicate NonNegative(shape: seq<int>) {
    forall k :: 0 <= k < |shape| ==> shape[k] >= 0
  }

  ghost predicate IsIndex(idx: seq<nat>, shape: seq<nat>) {
    |idx| == |shape| && forall k :: 0 <= k < |idx| ==> idx[k] < shape[k]
  }

  /** The position of an element when the last index runs fastest. */
  ghost function RowMajor(idx: seq<nat>, shape: seq<nat>): int
    requires |idx| == |shape|
  {
    if idx == [] then 0 else idx[0] * Product(shape[1..]) + RowMajor(idx[1..], shape[1..])
  }

  ghost function Dot(idx: seq<nat>, strides: seq<int>): int
    requires |idx| == |strides|
  {
    if idx == [] then 0 else idx[0] * strides[0] + Dot(idx[1..], strides[1..])
  }

  ghost predicate InStorage(shape: seq<nat>, strides: seq<int>, offset: int, size: nat)
    requires |shape| == |strides|
  {
    forall idx :: IsIndex(idx, shape) ==> 0 <= offset + Dot(idx, strides) < size
  }

  /** Every index of the shape lands in the storage, whose items have the dtype's size. */
  ghost predicate WellFormed(t: Tensor, itemSize: nat) {
    && |t.shape| == |t.strides|
    && InStorage(t.shape, t.strides, t.offset, |t.storage|)
    && forall k :: 0 <= k < |t.storage| ==> |t.storage[k]| == itemSize
  }

  ghost function At(t: Tensor, idx: seq<nat>, itemSize: nat): Item
    requires WellFormed(t, itemSize) && IsIndex(idx, t.shape)
  {
    t.storage[t.offset + Dot(idx, t.strides)]
  }

  // ---------- Multiplication ----------

  lemma {:induction false} MulAdd(a: int, b: int, c: int)
    ensures (a + b) * c == a * c + b * c
  {
  }

  lemma {:induction false} ProductNonNegative(shape: seq<int>)
    requires NonNegative(shape)
    ensures Product(shape) >= 0
    decreases |shape|
  {
    if shape != [] {
      ProductNonNegative(shape[1..]);
      MulNonNegative(shape[0], Product(shape[1..]));
    }
  }

  lemma {:induction false} MulNonNegative(a: int, b: int)
    requires a >= 0 && b >= 0
    ensures a * b >= 0
  {
  }

  lemma {:induction false} BlockBound(i: int, n: int, p: int, r: int)
    requires 0 <= i < n && 0 <= r < p
    ensures 0 <= i * p + r < n * p
  {
    MulAdd(i, 1, p);
    MulAdd(i + 1, n - i - 1, p);
    MulNonNegative(n - i - 1, p);
    MulNonNegative(i, p);
  }

  lemma {:induction false} RowMajorBound(idx: seq<nat>, shape: seq<nat>)
    requires IsIndex(idx, shape)
    ensures 0 <= RowMajor(idx, shape) < Product(shape)
    decreases |idx|
  {
    if idx != [] {
      RowMajorBound(idx[1..], shape[1..]);
      BlockBound(idx[0], shape[0], Product(shape[1..]), RowMajor(idx[1..], shape[1..]));
    }
  }

  // ---------- contiguous().numpy().tobytes() ----------

  lemma {:induction false} SubStorage(shape: seq<nat>, strides: seq<int>, offset: int, size: nat, i: nat)
    requires |shape| == |strides| > 0 && InStorage(shape, strides, offset, size) && i < shape[0]
    ensures InStorage(shape[1..], strides[1..], offset + i * strides[0], size)
  {
    forall idx: seq<nat> | IsIndex(idx, shape[1..])
      ensures 0 <= offset + i * strides[0] + Dot(idx, strides[1..]) < size
    {
      var whole := [i] + idx;
      assert whole[1..] == idx;
      assert IsIndex(whole, shape);
    }
  }

  /** The first n blocks of a view along its first dimension, each in row-major order. */
  function Blocks(storage: seq<Item>, shape: seq<nat>, strides: seq<int>, offset: int, n: nat): (items: seq<Item>)
    requires |shape| == |strides| > 0 && n <= shape[0] && InStorage(shape, strides, offset, |storage|)
    decreases |shape|, n
  {
    if n == 0 then []
    else
      SubStorage(shape, strides, offset, |storage|, n - 1);
      Blocks(storage, shape, strides, offset, n - 1) +
        Gather(storage, shape[1..], strides[1..], offset + (n - 1) * strides[0])
  }

  /** A view's items in row-major order. */
  function Gather(storage: seq<Item>, shape: seq<nat>, strides: seq<int>, offset: int): (items: seq<Item>)
    requires |shape| == |strides| && InStorage(shape, strides, offset, |storage|)
    decreases |shape|, if shape == [] then 0 else shape[0] + 1
  {
    if shape == [] then
      assert IsIndex([], shape);
      assert Dot([], strides) == 0;
      [storage[offset]]
    else Blocks(storage, shape, strides, offset, shape[0])
  }

  function ToBytes(items: seq<Item>): seq<Byte> {
    if items == [] then [] else ToBytes(items[..|items| - 1]) + items[|items| - 1]
  }

  function Serialize(t: Tensor, ghost itemSize: nat): Wire
    requires WellFormed(t, itemSize)
  {
    Wire(ToBytes(Gather(t.storage, t.shape, t.strides, t.offset)), t.shape, t.dtype)
  }

  lemma {:induction false} BlocksLength(storage: seq<Item>, shape: seq<nat>, strides: seq<int>, offset: int, n: nat)
    requires |shape| == |strides| > 0 && n <= shape[0] && InStorage(shape, strides, offset, |storage|)
    ensures |Blocks(storage, shape, strides, offset, n)| == n * Product(shape[1..])
    decreases |shape|, n
  {
    if n > 0 {
      BlocksLength(storage, shape, strides, offset, n - 1);
      SubStorage(shape, strides, offset, |storage|, n - 1);
      GatherLength(storage, shape[1..], strides[1..], offset + (n - 1) * strides[0]);
      MulAdd(n - 1, 1, Product(shape[1..]));
    }
  }

  lemma {:induction false} GatherLength(storage: seq<Item>, shape: seq<nat>, strides: seq<int>, offset: int)
    requires |shape| == |strides| && InStorage(shape, strides, offset, |storage|)
    ensures |Gather(storage, shape, strides, offset)| == Product(shape)
    decreases |shape|, if shape == [] then 0 else shape[0] + 1
  {
    if shape != [] {
      BlocksLength(storage, shape, strides, offset, shape[0]);
    }
  }

  /** Row-major order puts the element of every index at that index's row-major position. */
  lemma {:induction false} GatherAt(storage: seq<Item>, shape: seq<nat>, strides: seq<int>, offset: int, idx: seq<nat>)
    requires |shape| == |strides| && InStorage(shape, strides, offset, |storage|) && IsIndex(idx, shape)
    ensures 0 <= RowMajor(idx, shape) < |Gather(storage, shape, strides, offset)|
    ensures Gather(storage, shape, strides, offset)[RowMajor(idx, shape)] == storage[offset + Dot(idx, strides)]
    decreases |shape|, if shape == [] then 0 else shape[0] + 1
  {
    RowMajorBound(idx, shape);
    GatherLength(storage, shape, strides, offset);
    if shape != [] {
      BlocksAt(storage, shape, strides, offset, shape[0], idx);
    }
  }

  lemma {:induction false} BlocksAt(
    storage: seq<Item>, shape: seq<nat>, strides: seq<int>, offset: int, n: nat, idx: seq<nat>)
    requires |shape| == |strides| > 0 && n <= shape[0] && InStorage(shape, strides, offset, |storage|)
    requires IsIndex(idx, shape) && idx[0] < n
    ensures 0 <= RowMajor(idx, shape) < |Blocks(storage, shape, strides, offset, n)|
    ensures Blocks(storage, shape, strides, offset, n)[RowMajor(idx, shape)] == storage[offset + Dot(idx, strides)]
    decreases |shape|, n
  {
    var p := Product(shape[1..]);
    var within := RowMajor(idx[1..], shape[1..]);
    RowMajorBound(idx[1..], shape[1..]);
    BlocksLength(storage, shape, strides, offset, n);
    BlocksLength(storage, shape, strides, offset, n - 1);
    BlockBound(idx[0], n, p, within);
    SubStorage(shape, strides, offset, |storage|, n - 1);
    if idx[0] == n - 1 {
      GatherAt(storage, shape[1..], strides[1..], offset + (n - 1) * strides[0], idx[1..]);
    } else {
      BlocksAt(storage, shape, strides, offset, n - 1, idx);
    }
  }

  // ---------- frombuffer, reshape, copy ----------

  /** A buffer cut into items. */
  function FromBuffer(data: seq<Byte>, itemSize: nat): (items: seq<Item>)
    requires itemSize > 0 && |data| % itemSize == 0
    decreases |data|
  {
    if data == [] then []
    else
      Shorter(|data|, itemSize);
      FromBuffer(data[..|data| - itemSize], itemSize) + [data[|data| - itemSize..]]
  }

  lemma {:induction false} Shorter(n: nat, k: nat)
    requires k > 0 && n > 0 && n % k == 0
    ensures n >= k && (n - k) % k == 0
  {
    var q := n / k;
    assert n == k * q;
    assert q == 0 ==> k * q == 0;
    assert n - k == k * (q - 1);
    MulMod(q - 1, k);
  }

  lemma {:induction false} MulMod(q: nat, k: nat)
    requires k > 0
    ensures (k * q) % k == 0
    decreases q
  {
    if q > 0 {
      MulMod(q - 1, k);
      assert k * q == k * (q - 1) + k;
      ModStep(k * (q - 1), k);
    }
  }

  lemma {:induction false} ModStep(n: nat, k: nat)
    requires k > 0
    ensures (n + k) % k == n % k
  {
    var q, r := n / k, n % k;
    assert n + k == k * (q + 1) + r;
    ModUnique(n + k, k, q + 1, r);
  }

  lemma {:induction false} ModUnique(n: nat, k: nat, q: nat, r: nat)
    requires k > 0 && n == k * q + r && r < k
    ensures n % k == r
  {
    var q', r' := n / k, n % k;
    assert n == k * q' + r';
    if q' > q {
      MulAtLeast(k, q', q);
    } else if q > q' {
      MulAtLeast(k, q, q');
    }
  }

  lemma {:induction false} MulAtLeast(k: nat, a: nat, b: nat)
    requires a > b
    ensures k * a >= k * b + k
  {
    assert k * a == k * b + k * (a - b);
    MulNonNegative(k, a - b - 1);
    assert k * (a - b) == k * (a - b - 1) + k;
  }

  /** The strides of a fresh row-major tensor. */
  function RowStrides(shape: seq<nat>): (strides: seq<int>)
    ensures |strides| == |shape|
  {
    if shape == [] then [] else [Product(shape[1..])] + RowStrides(shape[1..])
  }

  function Deserialize(w: Wire): Result<Tensor, WireError> {
    var itemSize := ItemSize(w.dtype);
    if itemSize.None? then Err(UnsupportedDtype)
    else if |w.data| != Product(w.shape) * itemSize.value then Err(SizeMismatch)
    else if exists k :: 0 <= k < |w.shape| && w.shape[k] < 0 then Err(BadShape)
    else
      ProductNonNegative(w.shape);
      MulMod(Product(w.shape), itemSize.value);
      Ok(Tensor(w.dtype, FromBuffer(w.data, itemSize.value), w.shape, RowStrides(w.shape), 0))
  }

  // ---------- There and back ----------

  lemma {:induction false} RowStridesAreRowMajor(idx: seq<nat>, shape: seq<nat>)
    requires IsIndex(idx, shape)
    ensures Dot(idx, RowStrides(shape)) == RowMajor(idx, shape)
    decreases |idx|
  {
    if idx != [] {
      RowStridesAreRowMajor(idx[1..], shape[1..]);
      assert RowStrides(shape)[1..] == RowStrides(shape[1..]);
    }
  }

  lemma {:induction false} BytesBack(items: seq<Item>, itemSize: nat)
    requires itemSize > 0 && forall k :: 0 <= k < |items| ==> |items[k]| == itemSize
    ensures |ToBytes(items)| == |items| * itemSize
    ensures |ToBytes(items)| % itemSize == 0 && FromBuffer(ToBytes(items), itemSize) == items
    decreases |items|
  {
    if items != [] {
      var front, last := items[..|items| - 1], items[|items| - 1];
      BytesBack(front, itemSize);
      MulAdd(|front|, 1, itemSize);
      ModStep(|ToBytes(front)|, itemSize);
      var data := ToBytes(items);
      assert data[..|data| - itemSize] == ToBytes(front) && data[|data| - itemSize..] == last;
      assert front + [last] == items;
    }
  }

  lemma {:induction false} ItemsFromStorage(storage: seq<Item>, shape: seq<nat>, strides: seq<int>, offset: int, n: nat)
    requires |shape| == |strides| > 0 && n <= shape[0] && InStorage(shape, strides, offset, |storage|)
    ensures forall x :: x in Blocks(storage, shape, strides, offset, n) ==> x in storage
    decreases |shape|, n
  {
    if n > 0 {
      ItemsFromStorage(storage, shape, strides, offset, n - 1);
      SubStorage(shape, strides, offset, |storage|, n - 1);
      GatheredFromStorage(storage, shape[1..], strides[1..], offset + (n - 1) * strides[0]);
    }
  }

  lemma {:induction false} GatheredFromStorage(storage: seq<Item>, shape: seq<nat>, strides: seq<int>, offset: int)
    requires |shape| == |strides| && InStorage(shape, strides, offset, |storage|)
    ensures forall x :: x in Gather(storage, shape, strides, offset) ==> x in storage
    decreases |shape|, if shape == [] then 0 else shape[0] + 1
  {
    if shape == [] {
      assert IsIndex([], shape);
      assert Dot([], strides) == 0;
    } else {
      ItemsFromStorage(storage, shape, strides, offset, shape[0]);
    }
  }

  /** What deserialize makes of a serialized tensor. */
  lemma {:induction false} Received(t: Tensor, itemSize: nat)
    requires ItemSize(t.dtype) == Some(itemSize) && WellFormed(t, itemSize)
    ensures var items := Gather(t.storage, t.shape, t.strides, t.offset);
            && Deserialize(Serialize(t, itemSize)) == Ok(Tensor(t.dtype, items, t.shape, RowStrides(t.shape), 0))
            && forall k :: 0 <= k < |items| ==> |items[k]| == itemSize
  {
    var items := Gather(t.storage, t.shape, t.strides, t.offset);
    GatherLength(t.storage, t.shape, t.strides, t.offset);
    GatheredFromStorage(t.storage, t.shape, t.strides, t.offset);
    assert forall k :: 0 <= k < |items| ==> items[k] in items;
    BytesBack(items, itemSize);
  }

  lemma {:induction false} SameElement(t: Tensor, itemSize: nat, idx: seq<nat>)
    requires WellFormed(t, itemSize) && IsIndex(idx, t.shape)
    ensures var items := Gather(t.storage, t.shape, t.strides, t.offset);
            && 0 <= Dot(idx, RowStrides(t.shape)) < |items|
            && items[Dot(idx, RowStrides(t.shape))] == At(t, idx, itemSize)
  {
    RowStridesAreRowMajor(idx, t.shape);
    GatherAt(t.storage, t.shape, t.strides, t.offset, idx);
  }

  /** For every supported dtype, every shape of any rank, zero-sized dimensions included, and every
      stride pattern: what arrives has the shape, the dtype and, at every index, the element sent. */
  lemma {:induction false} RoundTrip(t: Tensor, itemSize: nat)
    requires ItemSize(t.dtype) == Some(itemSize) && WellFormed(t, itemSize)
    ensures var r := Deserialize(Serialize(t, itemSize));
            && r.Ok? && r.value.dtype == t.dtype && r.value.shape == t.shape && WellFormed(r.value, itemSize)
            && forall idx :: IsIndex(idx, t.shape) ==> At(r.value, idx, itemSize) == At(t, idx, itemSize)
  {
    Received(t, itemSize);
    forall idx: seq<nat> | IsIndex(idx, t.shape)
      ensures var items := Gather(t.storage, t.shape, t.strides, t.offset);
              && 0 <= Dot(idx, RowStrides(t.shape)) < |items|
              && items[Dot(idx, RowStrides(t.shape))] == At(t, idx, itemSize)
    {
      SameElement(t, itemSize, idx);
    }
  }

  // ---------- The other way round ----------

  lemma {:induction false} RowStridesStayInside(shape: seq<nat>, offset: nat, size: nat)
    requires offset + Product(shape) <= size
    ensures InStorage(shape, RowStrides(shape), offset, size)
  {
    forall idx: seq<nat> | IsIndex(idx, shape)
      ensures 0 <= offset + Dot(idx, RowStrides(shape)) < size
    {
      RowStridesAreRowMajor(idx, shape);
      RowMajorBound(idx, shape);
    }
  }

  lemma {:induction false} BlocksInOrder(storage: seq<Item>, shape: seq<nat>, offset: nat, n: nat)
    requires shape != [] && n <= shape[0] && offset + Product(shape) <= |storage|
    requires InStorage(shape, RowStrides(shape), offset, |storage|)
    ensures 0 <= n * Product(shape[1..]) <= Product(shape)
    ensures Blocks(storage, shape, RowStrides(shape), offset, n) == storage[offset..offset + n * Product(shape[1..])]
    decreases |shape|, n
  {
    var p := Product(shape[1..]);
    ProductNonNegative(shape[1..]);
    MulNonNegative(n, p);
    MulNonNegative(shape[0] - n, p);
    MulAdd(n, shape[0] - n, p);
    if n > 0 {
      MulAdd(n - 1, 1, p);
      MulNonNegative(n - 1, p);
      BlocksInOrder(storage, shape, offset, n - 1);
      SubStorage(shape, RowStrides(shape), offset, |storage|, n - 1);
      assert RowStrides(shape)[1..] == RowStrides(shape[1..]);
      InOrder(storage, shape[1..], offset + (n - 1) * p);
    }
  }

  /** A row-major view lists its storage in order. */
  lemma {:induction false} InOrder(storage: seq<Item>, shape: seq<nat>, offset: nat)
    requires offset + Product(shape) <= |storage| && InStorage(shape, RowStrides(shape), offset, |storage|)
    ensures 0 <= Product(shape)
    ensures Gather(storage, shape, RowStrides(shape), offset) == storage[offset..offset + Product(shape)]
    decreases |shape|, if shape == [] then 0 else shape[0] + 1
  {
    ProductNonNegative(shape);
    if shape != [] {
      BlocksInOrder(storage, shape, offset, shape[0]);
    }
  }

  lemma {:induction false} ItemsBack(data: seq<Byte>, itemSize: nat, n: nat)
    requires itemSize > 0 && |data| == n * itemSize && |data| % itemSize == 0
    ensures |FromBuffer(data, itemSize)| == n && ToBytes(FromBuffer(data, itemSize)) == data
    ensures forall k :: 0 <= k < n ==> |FromBuffer(data, itemSize)[k]| == itemSize
    decreases n
  {
    if n > 0 {
      MulAdd(n - 1, 1, itemSize);
      MulNonNegative(n - 1, itemSize);
      Shorter(|data|, itemSize);
      var front, last := data[..|data| - itemSize], data[|data| - itemSize..];
      assert |front| == (n - 1) * itemSize;
      ItemsBack(front, itemSize, n - 1);
      var items := FromBuffer(front, itemSize);
      assert FromBuffer(data, itemSize) == items + [last];
      hide FromBuffer;
      assert (items + [last])[..n - 1] == items;
      assert front + last == data;
    }
  }

  lemma {:induction false} Accepted(w: Wire, itemSize: nat)
    requires Deserialize(w).Ok? && ItemSize(w.dtype) == Some(itemSize)
    ensures NonNegative(w.shape) && Product(w.shape) >= 0 && itemSize > 0
    ensures |w.data| == Product(w.shape) * itemSize && |w.data| % itemSize == 0
    ensures Deserialize(w).value == Tensor(w.dtype, FromBuffer(w.data, itemSize), w.shape, RowStrides(w.shape), 0)
  {
    ProductNonNegative(w.shape);
    MulMod(Product(w.shape), itemSize);
  }

  lemma {:induction false} FreshTensorLists(dtype: string, items: seq<Item>, shape: seq<nat>, itemSize: nat)
    requires |items| == Product(shape) && forall k :: 0 <= k < |items| ==> |items[k]| == itemSize
    ensures var t := Tensor(dtype, items, shape, RowStrides(shape), 0);
            WellFormed(t, itemSize) && Serialize(t, itemSize) == Wire(ToBytes(items), shape, dtype)
  {
    RowStridesStayInside(shape, 0, |items|);
    InOrder(items, shape, 0);
    assert items[0..|items|] == items;
  }

  /** Every message that is accepted is the one message its tensor is sent as. */
  lemma {:induction false} WireRoundTrip(w: Wire, itemSize: nat)
    requires Deserialize(w).Ok? && ItemSize(w.dtype) == Some(itemSize)
    ensures WellFormed(Deserialize(w).value, itemSize) && Serialize(Deserialize(w).value, itemSize) == w
  {
    Accepted(w, itemSize);
    ItemsBack(w.data, itemSize, Product(w.shape));
    FreshTensorLists(w.dtype, FromBuffer(w.data, itemSize), w.shape, itemSize);
  }

  ghost predicate SentBy(w: Wire, t: Tensor, itemSize: nat) {
    ItemSize(t.dtype) == Some(itemSize) && WellFormed(t, itemSize) && Serialize(t, itemSize) == w
  }

  /** A message is accepted exactly when some tensor is sent as it; that is, when its dtype is one of
      the four supported, no dimension is negative, and its length is the product of the shape times
      that dtype's size. */
  lemma {:induction false} AcceptedExactly(w: Wire)
    ensures Deserialize(w).Ok? <==> exists t, itemSize :: SentBy(w, t, itemSize)
    ensures Deserialize(w).Ok? <==>
            && NonNegative(w.shape)
            && var n := Product(w.shape);
               || (w.dtype in {"torch.float32", "torch.int32"} && |w.data| == 4 * n)
               || (w.dtype == "torch.float16" && |w.data| == 2 * n)
               || (w.dtype == "torch.int64" && |w.data| == 8 * n)
  {
    if Deserialize(w).Ok? {
      var itemSize := ItemSize(w.dtype).value;
      WireRoundTrip(w, itemSize);
      assert SentBy(w, Deserialize(w).value, itemSize);
    }
    if t, itemSize :| SentBy(w, t, itemSize) {
      RoundTrip(t, itemSize);
    }
  }

  /** A message is refused for its dtype if that is none of the four; else for its length if that is
      not the product of the shape times the dtype's size; else for a negative dimension. */
  lemma {:induction false} RefusedExactly(w: Wire)
    ensures var known := w.dtype in {"torch.float32", "torch.int32", "torch.float16", "torch.int64"};
            var size := if w.dtype == "torch.int64" then 8 else if w.dtype == "torch.float16" then 2 else 4;
            && (Deserialize(w) == Err(UnsupportedDtype) <==> !known)
            && (Deserialize(w) == Err(SizeMismatch) <==> known && |w.data| != Product(w.shape) * size)
            && (Deserialize(w) == Err(BadShape) <==>
                  known && |w.data| == Product(w.shape) * size && !NonNegative(w.shape))
  {
    hide Product;
  }
}
