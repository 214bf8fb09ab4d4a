/**
 * The value of a `lava::TensorArray<int>`: a shape, one stride per axis and a flat
 * element buffer, with the two accessors the library provides (flat index and
 * coordinates).  Elements are unbounded integers; the model does not follow the
 * C++ `int` range.
 */
module StridedArray {
  import opened Wrappers

  /** The exceptions the tensor library raises, by reason. */
  datatype Fault =
    | OutOfRange        // std::out_of_range from an index or coordinate check
    | DimensionMismatch // wrong number of coordinates given to operator()
    | Unsupported       // a rank the operation refuses (matmul, transpose, unsqueezed, removeDim)
    | ShapeMismatch     // inner extents of a matrix product differ
    | DivisionByZero
    | NotImplemented

  datatype Arr = Arr(shape: seq<nat>, strides: seq<nat>, datas: seq<int>)

  /** Number of elements a shape holds. */
  function Product(shape: seq<nat>): nat
  {
    if shape == [] then 1 else shape[0] * Product(shape[1..])
  }

  lemma {:induction false} ProductAppend(a: seq<nat>, b: seq<nat>)
    ensures Product(a + b) == Product(a) * Product(b)
  {
    if a != [] {
      assert (a + b)[1..] == a[1..] + b;
      ProductAppend(a[1..], b);
      calc {
        Product(a + b);
        a[0] * Product(a[1..] + b);
        a[0] * (Product(a[1..]) * Product(b));
        (a[0] * Product(a[1..])) * Product(b);
      }
    } else {
      assert a + b == b;
    }
  }

  /** The product is zero exactly when some extent is zero. */
  lemma {:induction false} ProductZero(shape: seq<nat>)
    ensures Product(shape) == 0 <==> exists k :: 0 <= k < |shape| && shape[k] == 0
  {
    if shape != [] {
      ProductZero(shape[1..]);
      if Product(shape) == 0 && shape[0] != 0 {
        var k :| 0 <= k < |shape[1..]| && shape[1..][k] == 0;
        assert shape[k + 1] == 0;
      }
      if shape[0] != 0 && Product(shape[1..]) != 0 {
        assert Product(shape) != 0 by { MulPositive(shape[0], Product(shape[1..])); }
      }
    }
  }

  lemma MulPositive(x: nat, y: nat)
    requires x > 0 && y > 0
    ensures x * y > 0
  {
  }

  lemma MulPositiveInverse(x: nat, y: nat)
    requires x * y > 0
    ensures x > 0 && y > 0
  {
  }

  lemma MulMono(x: nat, y: nat, z: nat)
    requires x <= y
    ensures x * z <= y * z
  {
  }

  /** Quotient and remainder by p are unique. */
  lemma DivModUnique(q1: nat, r1: nat, q2: nat, r2: nat, p: nat)
    requires r1 < p && r2 < p && q1 * p + r1 == q2 * p + r2
    ensures q1 == q2 && r1 == r2
  {
    if q1 < q2 { MulMono(q1 + 1, q2, p); }
    if q2 < q1 { MulMono(q2 + 1, q1, p); }
  }

  /** Row-major strides: the stride of axis k is the product of the extents after k. */
  function RowMajor(shape: seq<nat>): (r: seq<nat>)
    ensures |r| == |shape|
  {
    seq(|shape|, k requires 0 <= k < |shape| => Product(shape[k + 1..]))
  }

  /** Consecutive row-major strides: the last is 1 and each is the next one times the next extent. */
  lemma RowMajorStep(shape: seq<nat>, k: nat)
    requires k < |shape|
    ensures k == |shape| - 1 ==> RowMajor(shape)[k] == 1
    ensures k < |shape| - 1 ==> RowMajor(shape)[k] == shape[k + 1] * RowMajor(shape)[k + 1]
  {
    if k < |shape| - 1 {
      assert shape[k + 1..][1..] == shape[k + 2..];
    } else {
      assert shape[k + 1..] == [];
    }
  }

  lemma RowMajorTail(shape: seq<nat>)
    requires shape != []
    ensures RowMajor(shape)[1..] == RowMajor(shape[1..])
  {
    forall k | 0 <= k < |shape| - 1
      ensures RowMajor(shape)[1..][k] == RowMajor(shape[1..])[k]
    {
      assert shape[k + 2..] == shape[1..][k + 1..];
    }
  }

  /** Initial contents of the shape constructor; RANDOM is not modelled. */
  datatype Fill = Zero | Ones | Range

  function FillValue(fill: Fill, i: nat): int
  {
    match fill
    case Zero => 0
    case Ones => 1
    case Range => i
  }

  /** The buffer position of a coordinate: the sum of coordinate times stride. */
  function Offset(coords: seq<nat>, strides: seq<nat>): nat
    requires |coords| == |strides|
  {
    if coords == [] then 0 else coords[0] * strides[0] + Offset(coords[1..], strides[1..])
  }

  /** A coordinate whose every component is below the extent of its axis. */
  predicate InShape(coords: seq<nat>, shape: seq<nat>)
  {
    |coords| == |shape| && forall k :: 0 <= k < |coords| ==> coords[k] < shape[k]
  }

  function Pred(n: nat): nat { if n == 0 then 0 else n - 1 }

  /** The offset of the last coordinate of a shape. */
  function MaxOffset(shape: seq<nat>, strides: seq<nat>): nat
    requires |shape| == |strides|
  {
    if shape == [] then 0 else Pred(shape[0]) * strides[0] + MaxOffset(shape[1..], strides[1..])
  }

  /** Every in-shape coordinate, placed by the strides, lands inside the buffer. */
  predicate InBounds(a: Arr)
  {
    |a.shape| == |a.strides| && (Product(a.shape) == 0 || MaxOffset(a.shape, a.strides) < |a.datas|)
  }

  /** An array as every constructor of the library builds it: one stride per axis, one element per cell. */
  predicate Valid(a: Arr)
  {
    InBounds(a) && |a.datas| == Product(a.shape)
  }

  lemma {:induction false} InShapeProduct(coords: seq<nat>, shape: seq<nat>)
    requires InShape(coords, shape)
    ensures Product(shape) > 0
  {
    if shape != [] {
      assert InShape(coords[1..], shape[1..]);
      InShapeProduct(coords[1..], shape[1..]);
      MulPositive(shape[0], Product(shape[1..]));
    }
  }

  /** No in-shape coordinate lies beyond the last one. */
  lemma {:induction false} OffsetAtMost(coords: seq<nat>, shape: seq<nat>, strides: seq<nat>)
    requires InShape(coords, shape) && |strides| == |shape|
    ensures Offset(coords, strides) <= MaxOffset(shape, strides)
  {
    if coords != [] {
      assert InShape(coords[1..], shape[1..]);
      OffsetAtMost(coords[1..], shape[1..], strides[1..]);
      MulMono(coords[0], Pred(shape[0]), strides[0]);
    }
  }

  /** In a valid array every in-shape coordinate addresses an element. */
  lemma OffsetInBuffer(a: Arr, coords: seq<nat>)
    requires InBounds(a) && InShape(coords, a.shape)
    ensures Offset(coords, a.strides) < |a.datas|
  {
    InShapeProduct(coords, a.shape);
    OffsetAtMost(coords, a.shape, a.strides);
  }

  /** With row-major strides the last coordinate is the last element. */
  lemma {:induction false} RowMajorMaxOffset(shape: seq<nat>)
    requires Product(shape) > 0
    ensures MaxOffset(shape, RowMajor(shape)) == Product(shape) - 1
  {
    if shape != [] {
      RowMajorTail(shape);
      var p := Product(shape[1..]);
      MulPositiveInverse(shape[0], p);
      RowMajorMaxOffset(shape[1..]);
      assert RowMajor(shape)[0] == p;
      assert MaxOffset(shape, RowMajor(shape)) == (shape[0] - 1) * p + (p - 1);
    }
  }

  /** A row-major array with one element per cell is valid. */
  lemma RowMajorValid(shape: seq<nat>, datas: seq<int>)
    ensures |datas| == Product(shape) ==> Valid(Arr(shape, RowMajor(shape), datas))
  {
    if Product(shape) > 0 { RowMajorMaxOffset(shape); }
  }

  /** TensorArray::operator[] (both forms): the element at a flat index. */
  function Get(a: Arr, idx: nat): (r: Result<int, Fault>)
    ensures r.Ok? <==> idx < |a.datas|
    ensures r.Ok? ==> r.value == a.datas[idx]
    ensures r.Err? ==> r.error == OutOfRange
  {
    if idx >= |a.datas| then Err(OutOfRange) else Ok(a.datas[idx])
  }

  /** Writing through the mutable operator[]. */
  function SetFlat(a: Arr, idx: nat, v: int): (r: Result<Arr, Fault>)
    ensures r.Ok? <==> idx < |a.datas|
    ensures r.Ok? ==> r.value.shape == a.shape && r.value.strides == a.strides
  {
    if idx >= |a.datas| then Err(OutOfRange) else Ok(a.(datas := a.datas[idx := v]))
  }

  /** The flat accessor reads back what it wrote and leaves every other element alone. */
  lemma SetThenGet(a: Arr, idx: nat, v: int, other: nat)
    requires idx < |a.datas|
    ensures Get(SetFlat(a, idx, v).value, idx) == Ok(v)
    ensures other != idx ==> Get(SetFlat(a, idx, v).value, other) == Get(a, other)
  {
  }

  /**
   * The const operator(): only the number of coordinates is checked; the element is
   * read at the strided offset without a bounds check, so the caller must keep
   * that offset inside the buffer.
   */
  function Read(a: Arr, coords: seq<nat>): (r: Result<int, Fault>)
    requires |coords| == |a.strides| ==> Offset(coords, a.strides) < |a.datas|
    ensures r.Err? <==> |coords| != |a.strides|
    ensures r.Err? ==> r.error == DimensionMismatch
  {
    if |coords| != |a.strides| then Err(DimensionMismatch) else Ok(a.datas[Offset(coords, a.strides)])
  }

  /**
   * The mutable operator(): the number of coordinates is checked, then every
   * coordinate against its extent; the result is the buffer position it refers to.
   */
  function Locate(a: Arr, coords: seq<nat>): (r: Result<nat, Fault>)
    requires InBounds(a)
    ensures r.Ok? <==> InShape(coords, a.shape)
    ensures r.Ok? ==> r.value < |a.datas| && r.value == Offset(coords, a.strides)
    ensures r.Err? && |coords| == |a.strides| ==> r.error == OutOfRange
    ensures r.Err? && |coords| != |a.strides| ==> r.error == DimensionMismatch
  {
    if |coords| != |a.strides| then Err(DimensionMismatch)
    else if !InShape(coords, a.shape) then Err(OutOfRange)
    else
      OffsetInBuffer(a, coords);
      Ok(Offset(coords, a.strides))
  }

  /** Both coordinate accessors agree on every in-shape coordinate. */
  lemma LocateRead(a: Arr, coords: seq<nat>)
    requires InBounds(a) && InShape(coords, a.shape)
    ensures Offset(coords, a.strides) < |a.datas|
    ensures Read(a, coords) == Ok(a.datas[Locate(a, coords).value])
  {
    OffsetInBuffer(a, coords);
  }

  /** A row-major array reads coordinate (i, j) of an m-by-n matrix at i * n + j. */
  lemma RowMajorOffset2(m: nat, n: nat, i: nat, j: nat)
    ensures RowMajor([m, n]) == [n, 1]
    ensures Offset([i, j], [n, 1]) == i * n + j
  {
    assert [m, n][1..] == [n] && [m, n][2..] == [] && [n][1..] == [];
    assert Product([n]) == n * Product([]);
    assert RowMajor([m, n])[0] == n && RowMajor([m, n])[1] == 1;
    assert [i, j][1..] == [j] && [n, 1][1..] == [1];
    assert Offset([j], [1]) == j * 1 + Offset([], []);
  }
}
