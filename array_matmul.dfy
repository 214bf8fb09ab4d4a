/**
 * TensorArray::matmul: the product of two matrices, with a 1-D receiver treated
 * as a single row.  The operation changes its receiver: a 1-D receiver is
 * unsqueezed first and restored only when the product succeeds.
 */
module ArrayMatmul {
  import opened Wrappers
  import opened StridedArray
  import opened ArrayShape
  import opened ArrayOps

  /** Operands whose element (i, j) the product loop reads. */
  predicate Matrix(a: Arr)
  {
    InBounds(a) && |a.shape| == 2
  }

  /** The sum of A(i, j) * B(j, k) over j < n. */
  function Dot(a: Arr, b: Arr, i: nat, k: nat, n: nat): int
    requires Matrix(a) && Matrix(b)
    requires i < a.shape[0] && n <= a.shape[1] && n <= b.shape[0] && k < b.shape[1]
  {
    if n == 0 then 0 else Dot(a, b, i, k, n - 1) + At(a, i, n - 1) * At(b, n - 1, k)
  }

  lemma DivBound(t: nat, m: nat, p: nat)
    requires t < m * p
    ensures p > 0 && t / p < m && t % p < p
  {
    if t / p >= m { MulMono(m, t / p, p); }
  }

  /** The m-by-p result, row-major, whose element (i, k) is the dot product of row i and column k. */
  function Product2D(a: Arr, b: Arr): (r: Arr)
    requires Matrix(a) && Matrix(b) && a.shape[1] == b.shape[0]
    ensures r.shape == [a.shape[0], b.shape[1]] && r.strides == RowMajor(r.shape)
    ensures |r.datas| == a.shape[0] * b.shape[1] && Valid(r)
  {
    var m, p := a.shape[0], b.shape[1];
    RowMajorOffset2(m, p, 0, 0);
    Product2(m, p);
    var d := seq(m * p, t requires 0 <= t < m * p =>
      DivBound(t, m, p);
      Dot(a, b, t / p, t % p, a.shape[1]));
    RowMajorValid([m, p], d);
    Arr([m, p], [p, 1], d)
  }

  /** The zero-filled m-by-p result TensorArray::matmul starts from. */
  function Zeros2(m: nat, p: nat): (r: Arr)
    ensures Valid(r) && r.shape == [m, p] && r.strides == RowMajor([m, p])
    ensures r.datas == Broadcast(0, m * p)
  {
    Product2(m, p);
    RowMajorValid([m, p], Broadcast(0, m * p));
    Arr([m, p], RowMajor([m, p]), Broadcast(0, m * p))
  }

  /** The receiver as the product loop sees it: a 1-D receiver becomes a 1-by-n row. */
  function Lifted(a: Arr): (a1: Arr)
    requires Valid(a)
    ensures Valid(a1)
    ensures |a.shape| == 1 ==> a1.shape == [1, a.shape[0]] && a1.datas == a.datas
    ensures |a.shape| != 1 ==> a1 == a
  {
    if |a.shape| == 1 then
      assert Inserted(a.shape, 0) == [1, a.shape[0]];
      Unsqueeze(a, 0).value
    else a
  }

  /**
   * TensorArray::matmul: the receiver afterwards and the product or the
   * exception.  Both operands 1-D, ranks that differ after the receiver is
   * lifted, and inner extents that differ are refused; the receiver is put back
   * (with row-major strides) only when the product succeeds.  The product loop
   * reads through the two-coordinate accessor, so operands of rank 3 or more
   * raise as soon as the loop runs once.  Two operands of rank 0 make the
   * source read the second extent of an empty shape, which C++ leaves
   * undefined; the model reports OutOfRange there.
   */
  function Matmul(a: Arr, b: Arr): (res: (Arr, Result<Arr, Fault>))
    requires Valid(a) && Valid(b)
    ensures |a.shape| != 1 ==> res.0 == a
    ensures Valid(res.0)
    ensures res.1.Ok? ==> Valid(res.1.value) && |res.1.value.shape| == 2
  {
    if |b.shape| == 1 && |a.shape| == 1 then (a, Err(Unsupported))
    else if |a.shape| == 0 && |b.shape| == 0 then (a, Err(OutOfRange))
    else
      var a1 := Lifted(a);
      if |b.shape| != |a1.shape| then (a1, Err(Unsupported))
      else if a1.shape[1] != b.shape[0] then (a1, Err(ShapeMismatch))
      else if |a1.shape| > 2 then
        if a1.shape[0] > 0 && a1.shape[1] > 0 && b.shape[1] > 0 then (a1, Err(DimensionMismatch))
        else (a1, Ok(Zeros2(a1.shape[0], b.shape[1])))
      else if |a.shape| == 1 then
        assert Removed(a1.shape, 0) == a.shape;
        RowMajorValid(a.shape, a.datas);
        (RemoveDim(a1, 0).value, Ok(Product2D(a1, b)))
      else (a1, Ok(Product2D(a1, b)))
  }

  /**
   * The product of an m-by-n and an n-by-p matrix is the valid m-by-p matrix of
   * dot products, and the receiver is left as it was.
   */
  lemma MatmulMatrices(a: Arr, b: Arr)
    requires Valid(a) && Valid(b) && |a.shape| == 2 && |b.shape| == 2 && a.shape[1] == b.shape[0]
    ensures Matmul(a, b).0 == a && Matmul(a, b).1.Ok?
    ensures Valid(Matmul(a, b).1.value)
    ensures forall i, k :: 0 <= i < a.shape[0] && 0 <= k < b.shape[1] ==>
      InShape([i, k], Matmul(a, b).1.value.shape) &&
      At(Matmul(a, b).1.value, i, k) == Dot(a, b, i, k, a.shape[1])
  {
    var r := Product2D(a, b);
    var m, p := a.shape[0], b.shape[1];
    Product2(m, p);
    RowMajorValid([m, p], r.datas);
    forall i, k | 0 <= i < m && 0 <= k < p
      ensures InShape([i, k], r.shape) && At(r, i, k) == Dot(a, b, i, k, a.shape[1])
    {
      RowMajorOffset2(m, p, i, k);
      RowMajorCell(m, p, i, k);
    }
  }

  /** The dot product reads its left operand only through the cells of row i. */
  lemma {:induction false} DotSameCells(a: Arr, a2: Arr, b: Arr, i: nat, k: nat, n: nat)
    requires Matrix(a) && Matrix(a2) && Matrix(b) && a2.shape == a.shape
    requires i < a.shape[0] && n <= a.shape[1] && n <= b.shape[0] && k < b.shape[1]
    requires forall j :: 0 <= j < n ==> At(a, i, j) == At(a2, i, j)
    ensures Dot(a, b, i, k, n) == Dot(a2, b, i, k, n)
  {
    if n > 0 { DotSameCells(a, a2, b, i, k, n - 1); }
  }

  /** Two left operands that read alike at every cell, whatever their strides, give the same product. */
  lemma ProductSameCells(a: Arr, a2: Arr, b: Arr)
    requires Matrix(a) && Matrix(a2) && Matrix(b) && a2.shape == a.shape && a.shape[1] == b.shape[0]
    requires forall i, j :: 0 <= i < a.shape[0] && 0 <= j < a.shape[1] ==> At(a, i, j) == At(a2, i, j)
    ensures Product2D(a, b) == Product2D(a2, b)
  {
    var m, p := a.shape[0], b.shape[1];
    forall t | 0 <= t < m * p ensures Product2D(a, b).datas[t] == Product2D(a2, b).datas[t] {
      DivBound(t, m, p);
      DotSameCells(a, a2, b, t / p, t % p, a.shape[1]);
    }
  }

  lemma RowMajorCell(m: nat, p: nat, i: nat, k: nat)
    requires i < m && k < p
    ensures i * p + k < m * p && (i * p + k) / p == i && (i * p + k) % p == k
  {
    MulMono(i + 1, m, p);
    var t := i * p + k;
    DivBound(t, m, p);
    DivModUnique(t / p, t % p, i, k, p);
  }

  /**
   * matmul refuses two vectors (receiver untouched), a rank that differs after
   * lifting, and inner extents that differ; it succeeds on two matrices whose
   * inner extents agree.  A refused 1-D receiver stays unsqueezed.
   */
  lemma MatmulFaults(a: Arr, b: Arr)
    requires Valid(a) && Valid(b)
    ensures |a.shape| == 1 && |b.shape| == 1 ==> Matmul(a, b) == (a, Err(Unsupported))
    ensures !(|a.shape| == 1 && |b.shape| == 1) && |Lifted(a).shape| != |b.shape| ==>
      Matmul(a, b) == (Lifted(a), Err(Unsupported))
    ensures |a.shape| == 2 && |b.shape| == 2 ==>
      (Matmul(a, b).1.Ok? <==> a.shape[1] == b.shape[0])
    ensures Matmul(a, b).1.Err? && |a.shape| == 1 && |b.shape| != 1 ==> Matmul(a, b).0.shape == [1] + a.shape
    ensures |a.shape| == 0 && |b.shape| == 0 ==> Matmul(a, b) == (a, Err(OutOfRange))
  {
    if |a.shape| == 1 { assert [1] + a.shape == [1, a.shape[0]]; }
  }

  /**
   * A 1-D receiver of length n times an n-by-p matrix: the 1-by-p row of
   * column dot products; the receiver gets its shape back with stride [1].
   */
  lemma MatmulVector(a: Arr, b: Arr)
    requires Valid(a) && Valid(b) && |a.shape| == 1 && |b.shape| == 2 && a.shape[0] == b.shape[0]
    ensures Matmul(a, b).0 == Arr(a.shape, [1], a.datas)
    ensures Matmul(a, b).1.Ok? && Matmul(a, b).1.value.shape == [1, b.shape[1]]
    ensures forall k :: 0 <= k < b.shape[1] ==>
      Matmul(a, b).1.value.datas[k] == Dot(Lifted(a), b, 0, k, a.shape[0])
  {
    var a1 := Lifted(a);
    assert Removed(a1.shape, 0) == a.shape;
    assert RowMajor(a.shape) == [1] by {
      assert a.shape[1..] == [];
    }
    var p := b.shape[1];
    forall k | 0 <= k < p ensures Product2D(a1, b).datas[k] == Dot(a1, b, 0, k, a.shape[0]) {
      RowMajorCell(1, p, 0, k);
    }
  }
}
