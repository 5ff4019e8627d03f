/** Arrays of any rank as nested lists in C order. */
module NdArrays {
  import opened Prelude

  type Elem = int

  datatype Nest = Leaf(value: Elem) | List(items: seq<Nest>)

  datatype NdArray = NdArray(shape: seq<nat>, data: seq<Elem>) {
    ghost predicate Valid() {
      |data| == Product(shape)
    }
  }

  function Product(shape: seq<nat>): nat {
    if shape == [] then 1 else Times(shape[0], Product(shape[1..]))
  }

  function Times(a: nat, b: nat): nat {
    a * b
  }

  /** Refuses data of another length than the shape's product. */
  function New(shape: seq<nat>, data: seq<Elem>): (r: Result<NdArray, (nat, seq<nat>)>)
    ensures r.Ok? ==> r.value.Valid() && r.value.shape == shape && r.value.data == data
    ensures r.Ok? <==> |data| == Product(shape)
    ensures r.Err? ==> r.error == (|data|, shape)
  {
    if Product(shape) != |data| then Err((|data|, shape)) else Ok(NdArray(shape, data))
  }

  /** Where block `i` of `n` begins and ends. */
  lemma BlockBounds(i: nat, n: nat, stride: nat)
    requires i < n
    ensures i * stride + stride == (i + 1) * stride <= n * stride
  {
    assert n * stride == (i + 1) * stride + (n - i - 1) * stride;
  }

  function Block(data: seq<Elem>, i: nat, n: nat, stride: nat): (block: seq<Elem>)
    requires i < n && |data| == n * stride
    ensures |block| == stride
  {
    BlockBounds(i, n, stride);
    data[i * stride..(i + 1) * stride]
  }

  /** The nested lists. */
  function Nested(shape: seq<nat>, data: seq<Elem>): Nest
    requires |data| == Product(shape)
    decreases |shape|
  {
    if shape == [] then Leaf(data[0])
    else
      var n, stride := shape[0], Product(shape[1..]);
      List(seq(n, i requires 0 <= i < n => Nested(shape[1..], Block(data, i, n, stride))))
  }

  /** One serializer call per block, in order; no slice is out of range. */
  method Serialize(shape: seq<nat>, data: seq<Elem>) returns (nest: Nest)
    requires |data| == Product(shape)
    ensures nest == Nested(shape, data)
    decreases |shape|
  {
    if shape == [] {
      return Leaf(data[0]);
    }
    var n, inner := shape[0], shape[1..];
    var stride := Product(inner);
    var items: seq<Nest> := [];
    for i := 0 to n
      invariant |items| == i
      invariant forall k :: 0 <= k < i ==> items[k] == Nested(inner, Block(data, k, n, stride))
    {
      BlockBounds(i, n, stride);
      var item := Serialize(inner, data[i * stride..(i + 1) * stride]);
      items := items + [item];
    }
    nest := List(items);
  }

  // ---- Every element is where C order puts it ----

  ghost predicate InShape(index: seq<nat>, shape: seq<nat>) {
    |index| == |shape| && forall k :: 0 <= k < |shape| ==> index[k] < shape[k]
  }

  /** The sum of each index times the stride of its dimension. */
  function Offset(shape: seq<nat>, index: seq<nat>): nat
    requires |index| == |shape|
  {
    if shape == [] then 0 else Times(index[0], Product(shape[1..])) + Offset(shape[1..], index[1..])
  }

  /** The element the indices lead to. */
  function At(nest: Nest, index: seq<nat>): Option<Elem>
    decreases |index|
  {
    if index == [] then if nest.Leaf? then Some(nest.value) else None
    else if nest.List? && index[0] < |nest.items| then At(nest.items[index[0]], index[1..])
    else None
  }

  lemma {:induction false} OffsetInRange(shape: seq<nat>, index: seq<nat>)
    requires InShape(index, shape)
    ensures Offset(shape, index) < Product(shape)
  {
    if shape != [] {
      OffsetInRange(shape[1..], index[1..]);
      BlockBounds(index[0], shape[0], Product(shape[1..]));
    }
  }

  /** The element at `(i0, .., ik)` is the one at the sum of `i * stride`. */
  lemma {:induction false} ElementAt(shape: seq<nat>, data: seq<Elem>, index: seq<nat>)
    requires |data| == Product(shape) && InShape(index, shape)
    ensures Offset(shape, index) < |data|
    ensures At(Nested(shape, data), index) == Some(data[Offset(shape, index)])
    decreases |shape|
  {
    OffsetInRange(shape, index);
    if shape != [] {
      var n, stride := shape[0], Product(shape[1..]);
      var block := Block(data, index[0], n, stride);
      ElementAt(shape[1..], block, index[1..]);
      BlockBounds(index[0], n, stride);
      assert block[Offset(shape[1..], index[1..])] == data[index[0] * stride + Offset(shape[1..], index[1..])];
    }
  }

  /** There is nothing at any other index, of whatever rank. */
  lemma {:induction false} NothingElsewhere(shape: seq<nat>, data: seq<Elem>, index: seq<nat>)
    requires |data| == Product(shape) && !InShape(index, shape)
    ensures At(Nested(shape, data), index) == None
    decreases |shape|
  {
    if shape != [] && index != [] && index[0] < shape[0] {
      var block := Block(data, index[0], shape[0], Product(shape[1..]));
      InShapeTail(index, shape);
      NothingElsewhere(shape[1..], block, index[1..]);
    }
  }

  lemma InShapeTail(index: seq<nat>, shape: seq<nat>)
    requires shape != [] && index != [] && index[0] < shape[0]
    ensures InShape(index, shape) <==> InShape(index[1..], shape[1..])
  {
    if InShape(index[1..], shape[1..]) {
      forall k | 0 <= k < |shape| ensures index[k] < shape[k] {
        if k > 0 {
          assert index[1..][k - 1] < shape[1..][k - 1];
        }
      }
    }
  }

  // ---- Flattening ----

  function Flatten(nest: Nest): seq<Elem> {
    match nest
    case Leaf(v) => [v]
    case List(items) => FlattenAll(items)
  }

  function FlattenAll(items: seq<Nest>): seq<Elem> {
    if items == [] then [] else Flatten(items[0]) + FlattenAll(items[1..])
  }

  /** Flattening the nested lists gives the data back. */
  lemma {:induction false} FlattenGivesBack(shape: seq<nat>, data: seq<Elem>)
    requires |data| == Product(shape)
    ensures Flatten(Nested(shape, data)) == data
    decreases |shape|, 1, 0
  {
    if shape == [] {
      assert data == [data[0]];
    } else {
      var nest := Nested(shape, data);
      assert nest.items == nest.items[0..];
      FlattenFrom(shape, data, 0);
    }
  }

  lemma SplitBlock(data: seq<Elem>, i: nat, n: nat, stride: nat)
    requires i < n && |data| == n * stride
    ensures i * stride <= (i + 1) * stride <= |data|
    ensures data[i * stride..] == Block(data, i, n, stride) + data[(i + 1) * stride..]
  {
    BlockBounds(i, n, stride);
  }

  lemma FlattenStep(items: seq<Nest>, i: nat)
    requires i < |items|
    ensures FlattenAll(items[i..]) == Flatten(items[i]) + FlattenAll(items[i + 1..])
  {
    assert items[i..][0] == items[i] && items[i..][1..] == items[i + 1..];
  }

  lemma {:induction false} FlattenFrom(shape: seq<nat>, data: seq<Elem>, i: nat)
    requires |data| == Product(shape) && shape != [] && i <= shape[0]
    ensures i * Product(shape[1..]) <= |data|
    ensures FlattenAll(Nested(shape, data).items[i..]) == data[i * Product(shape[1..])..]
    decreases |shape|, 0, shape[0] - i
  {
    var n, stride := shape[0], Product(shape[1..]);
    var items := Nested(shape, data).items;
    if i == n {
      assert items[i..] == [];
    } else {
      SplitBlock(data, i, n, stride);
      FlattenStep(items, i);
      FlattenFrom(shape, data, i + 1);
      FlattenGivesBack(shape[1..], Block(data, i, n, stride));
    }
  }

  /** Two arrays of a shape with the same nested lists are the same array. */
  lemma NestedTellsApart(a: NdArray, b: NdArray)
    requires a.Valid() && b.Valid() && a.shape == b.shape
    ensures Nested(a.shape, a.data) == Nested(b.shape, b.data) <==> a == b
  {
    FlattenGivesBack(a.shape, a.data);
    FlattenGivesBack(b.shape, b.data);
  }

  /** The shape up to its first zero: all that the lists can show of it. */
  function Visible(shape: seq<nat>): seq<nat> {
    if shape == [] then []
    else if shape[0] == 0 then [0]
    else [shape[0]] + Visible(shape[1..])
  }

  /** The shape the lists show. */
  function Shown(nest: Nest): seq<nat> {
    match nest
    case Leaf(_) => []
    case List(items) => if items == [] then [0] else [|items|] + Shown(items[0])
  }

  lemma {:induction false} ShownIsVisible(shape: seq<nat>, data: seq<Elem>)
    requires |data| == Product(shape)
    ensures Shown(Nested(shape, data)) == Visible(shape)
    decreases |shape|
  {
    if shape != [] && shape[0] > 0 {
      var block := Block(data, 0, shape[0], Product(shape[1..]));
      ShownIsVisible(shape[1..], block);
      assert Nested(shape, data).items[0] == Nested(shape[1..], block);
    }
  }

  /** Dimensions past the first zero do not matter. */
  lemma {:induction false} VisibleProduct(shape: seq<nat>)
    ensures Product(Visible(shape)) == Product(shape)
  {
    if shape != [] {
      if shape[0] > 0 {
        VisibleProduct(shape[1..]);
        assert Visible(shape)[1..] == Visible(shape[1..]);
      }
    }
  }

  lemma {:induction false} NestedAsVisible(shape: seq<nat>, data: seq<Elem>)
    requires |data| == Product(shape)
    ensures |data| == Product(Visible(shape)) && Nested(Visible(shape), data) == Nested(shape, data)
    decreases |shape|
  {
    VisibleProduct(shape);
    if shape != [] && shape[0] > 0 {
      var n, inner := shape[0], shape[1..];
      VisibleProduct(inner);
      assert Visible(shape)[0] == n && Visible(shape)[1..] == Visible(inner);
      forall i | 0 <= i < n
        ensures Nested(Visible(shape), data).items[i] == Nested(shape, data).items[i]
      {
        NestedAsVisible(inner, Block(data, i, n, Product(inner)));
      }
    }
  }

  /** Two arrays have the same nested lists if and only if they have the same
      data and shapes alike up to the first zero. */
  lemma NestedAlikeIff(a: NdArray, b: NdArray)
    requires a.Valid() && b.Valid()
    ensures Nested(a.shape, a.data) == Nested(b.shape, b.data) <==> Visible(a.shape) == Visible(b.shape) && a.data == b.data
  {
    FlattenGivesBack(a.shape, a.data);
    FlattenGivesBack(b.shape, b.data);
    ShownIsVisible(a.shape, a.data);
    ShownIsVisible(b.shape, b.data);
    NestedAsVisible(a.shape, a.data);
    NestedAsVisible(b.shape, b.data);
  }

  /** So the shape is lost exactly where a dimension before the last is zero. */
  lemma {:induction false} VisibleWithoutZero(shape: seq<nat>)
    ensures Visible(shape) == shape <==> forall k :: 0 <= k < |shape| - 1 ==> shape[k] != 0
  {
    if shape != [] && shape[0] > 0 {
      VisibleWithoutZero(shape[1..]);
      assert shape == [shape[0]] + shape[1..];
      assert forall k :: 0 <= k < |shape| - 2 ==> shape[1..][k] == shape[k + 1];
      assert forall k :: 1 <= k < |shape| - 1 ==> shape[k] == shape[1..][k - 1];
    }
  }
}
