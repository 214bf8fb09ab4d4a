/**
 * `lava::TensorArray<int>` as an object: its constructors, its operations that
 * change the receiver, and the loops of the operations that build a new array.
 * Every method is proved to agree with the functions of StridedArray, ArrayOps,
 * ArrayShape and ArrayMatmul, which state what the operations mean.
 */
module TensorArrays {
  import opened Wrappers
  import opened StridedArray
  import opened ArrayOps
  import opened ArrayShape
  import opened ArrayMatmul

  /** Cell (i, k) of a row-major m-by-p buffer. */
  function RowMajorAt(d: seq<int>, m: nat, p: nat, i: nat, k: nat): int
    requires |d| == m * p && i < m && k < p
  {
    RowMajorCell(m, p, i, k);
    d[i * p + k]
  }

  /**
   * Cell (i2, k2) of TensorArray::matmul's result after the loop has run up to
   * row i, inner index j, column k: finished rows hold the whole dot product, row
   * i holds the terms j2 <= j for columns before k and j2 < j after, later rows are 0.
   */
  ghost function Expected(a: Arr, b: Arr, i: nat, j: nat, k: nat, i2: nat, k2: nat): int
    requires Matrix(a) && Matrix(b) && a.shape[1] == b.shape[0]
    requires i2 < a.shape[0] && k2 < b.shape[1] && j <= a.shape[1] && (j < a.shape[1] || k == 0)
  {
    if i2 < i then Dot(a, b, i2, k2, a.shape[1])
    else if i2 > i then 0
    else if k2 < k then Dot(a, b, i2, k2, j + 1)
    else Dot(a, b, i2, k2, j)
  }

  ghost predicate Partial(acc: seq<int>, a: Arr, b: Arr, i: nat, j: nat, k: nat)
    requires Matrix(a) && Matrix(b) && a.shape[1] == b.shape[0]
    requires j <= a.shape[1] && (j < a.shape[1] || k == 0)
  {
    |acc| == a.shape[0] * b.shape[1] &&
    forall i2, k2 :: 0 <= i2 < a.shape[0] && 0 <= k2 < b.shape[1] ==>
      RowMajorAt(acc, a.shape[0], b.shape[1], i2, k2) == Expected(a, b, i, j, k, i2, k2)
  }

  lemma RowMajorWrite(d: seq<int>, m: nat, p: nat, i: nat, k: nat, v: int)
    requires |d| == m * p && i < m && k < p && i * p + k < |d|
    ensures RowMajorAt(d[i * p + k := v], m, p, i, k) == v
    ensures forall i2, k2 :: 0 <= i2 < m && 0 <= k2 < p && (i2 != i || k2 != k) ==>
      RowMajorAt(d[i * p + k := v], m, p, i2, k2) == RowMajorAt(d, m, p, i2, k2)
  {
    RowMajorCell(m, p, i, k);
    forall i2, k2 | 0 <= i2 < m && 0 <= k2 < p && (i2 != i || k2 != k)
      ensures RowMajorAt(d[i * p + k := v], m, p, i2, k2) == RowMajorAt(d, m, p, i2, k2)
    {
      RowMajorCell(m, p, i2, k2);
      if i2 * p + k2 == i * p + k { DivModUnique(i2, k2, i, k, p); }
    }
  }

  /** Before the loop runs, the zero-filled result holds the empty sums. */
  lemma PartialStart(acc: seq<int>, a: Arr, b: Arr)
    requires Matrix(a) && Matrix(b) && a.shape[1] == b.shape[0]
    requires |acc| == a.shape[0] * b.shape[1] && forall t :: 0 <= t < |acc| ==> acc[t] == 0
    ensures Partial(acc, a, b, 0, 0, 0)
  {
    forall i2, k2 | 0 <= i2 < a.shape[0] && 0 <= k2 < b.shape[1]
      ensures RowMajorAt(acc, a.shape[0], b.shape[1], i2, k2) == Expected(a, b, 0, 0, 0, i2, k2)
    {
      RowMajorCell(a.shape[0], b.shape[1], i2, k2);
    }
  }

  lemma PartialRowDone(acc: seq<int>, a: Arr, b: Arr, i: nat, j: nat)
    requires Matrix(a) && Matrix(b) && a.shape[1] == b.shape[0] && j < a.shape[1]
    requires Partial(acc, a, b, i, j, b.shape[1])
    ensures Partial(acc, a, b, i, j + 1, 0)
  {
  }

  lemma PartialNextRow(acc: seq<int>, a: Arr, b: Arr, i: nat)
    requires Matrix(a) && Matrix(b) && a.shape[1] == b.shape[0]
    requires Partial(acc, a, b, i, a.shape[1], 0)
    ensures Partial(acc, a, b, i + 1, 0, 0)
  {
  }

  lemma PartialDone(acc: seq<int>, a: Arr, b: Arr)
    requires Matrix(a) && Matrix(b) && a.shape[1] == b.shape[0]
    requires Partial(acc, a, b, a.shape[0], 0, 0)
    ensures acc == Product2D(a, b).datas
  {
    var m, p := a.shape[0], b.shape[1];
    forall t | 0 <= t < m * p ensures acc[t] == Product2D(a, b).datas[t] {
      DivBound(t, m, p);
      assert t == (t / p) * p + t % p;
      assert RowMajorAt(acc, m, p, t / p, t % p) == Expected(a, b, m, 0, 0, t / p, t % p);
    }
  }

  lemma PartialStep(acc: seq<int>, a: Arr, b: Arr, i: nat, j: nat, k: nat)
    requires Matrix(a) && Matrix(b) && a.shape[1] == b.shape[0]
    requires i < a.shape[0] && j < a.shape[1] && k < b.shape[1]
    requires Partial(acc, a, b, i, j, k) && i * b.shape[1] + k < |acc|
    ensures Partial(acc[i * b.shape[1] + k := acc[i * b.shape[1] + k] + At(a, i, j) * At(b, j, k)], a, b, i, j, k + 1)
  {
    var m, p := a.shape[0], b.shape[1];
    RowMajorCell(m, p, i, k);
    var v := acc[i * p + k] + At(a, i, j) * At(b, j, k);
    var acc2 := acc[i * p + k := v];
    RowMajorWrite(acc, m, p, i, k, v);
    assert RowMajorAt(acc, m, p, i, k) == Dot(a, b, i, k, j);
    forall i2, k2 | 0 <= i2 < m && 0 <= k2 < p
      ensures RowMajorAt(acc2, m, p, i2, k2) == Expected(a, b, i, j, k + 1, i2, k2)
    {
      if i2 != i || k2 != k {
        assert RowMajorAt(acc2, m, p, i2, k2) == RowMajorAt(acc, m, p, i2, k2);
      }
    }
  }

  class TensorArray {
    var shape: seq<nat>
    var strides: seq<nat>
    var datas: seq<int>

    function Value(): Arr
      reads this
    {
      Arr(shape, strides, datas)
    }

    /** TensorArray::getStride: 1 for the last axis, and for any k past it, else the product of the extents after k. */
    static method GetStride(k: nat, s: seq<nat>) returns (r: nat)
      ensures k < |s| ==> r == Product(s[k + 1..])
      ensures k >= |s| ==> r == 1
    {
      r := 1;
      if k + 1 == |s| {
        assert s[k + 1..] == [];
        return;
      }
      if k >= |s| {
        return;
      }
      var j := k + 1;
      assert s[k + 1..j] == [];
      while j < |s|
        invariant k + 1 <= j <= |s|
        invariant r == Product(s[k + 1..j])
      {
        assert s[k + 1..j + 1] == s[k + 1..j] + [s[j]];
        ProductAppend(s[k + 1..j], [s[j]]);
        assert Product([s[j]]) == s[j] * Product([]);
        r := r * s[j];
        j := j + 1;
      }
      assert s[k + 1..j] == s[k + 1..];
    }

    /** The number of elements of a shape, multiplied out extent by extent. */
    static method SizeOf(s: seq<nat>) returns (size: nat)
      ensures size == Product(s)
    {
      size := 1;
      var t := 0;
      assert s[..0] == [];
      while t < |s|
        invariant t <= |s| && size == Product(s[..t])
      {
        assert s[..t + 1] == s[..t] + [s[t]];
        ProductAppend(s[..t], [s[t]]);
        assert Product([s[t]]) == s[t] * Product([]);
        size := size * s[t];
        t := t + 1;
      }
      assert s[..t] == s;
    }

    /** The shape constructor: row-major strides and product(shape) elements of the chosen fill. */
    constructor OfShape(s: seq<nat>, fill: Fill)
      ensures Value() == Arr(s, RowMajor(s), seq(Product(s), i requires 0 <= i => FillValue(fill, i)))
      ensures Valid(Value())
    {
      var size := SizeOf(s);
      var st: seq<nat> := [];
      var k := 0;
      while k < |s|
        invariant k <= |s| && |st| == k
        invariant forall k2 :: 0 <= k2 < k ==> st[k2] == Product(s[k2 + 1..])
      {
        var x := GetStride(k, s);
        assert x == Product(s[k + 1..]);
        st := st + [x];
        k := k + 1;
      }
      var d: seq<int> := [];
      var i := 0;
      while i < size
        invariant i <= size && |d| == i
        invariant forall i2 :: 0 <= i2 < i ==> d[i2] == FillValue(fill, i2)
      {
        d := d + [FillValue(fill, i)];
        i := i + 1;
      }
      shape, strides, datas := s, st, d;
      assert st == RowMajor(s);
      RowMajorValid(s, d);
    }

    /** The copy constructor (the move constructor has the same result). */
    constructor Copy(t: TensorArray)
      ensures Value() == old(t.Value())
    {
      shape, strides, datas := t.shape, t.strides, t.datas;
    }

    /** The constructor from a buffer: a 1-D shape and `_strides(1)`, a single stride of 0. */
    constructor OfVector(d: seq<int>)
      ensures Value() == Arr([|d|], [0], d)
      ensures Valid(Value())
    {
      shape, strides, datas := [|d|], [0], d;
      assert [|d|][1..] == [];
      assert Product([|d|]) == |d| * Product([]);
    }

    /** The constructor from a shape and strides: the strides as given, product(shape) zeros. */
    constructor WithStrides(s: seq<nat>, st: seq<nat>)
      ensures Value() == Arr(s, st, seq(Product(s), _ => 0))
    {
      var size := SizeOf(s);
      var d: seq<int> := [];
      while |d| < size
        invariant |d| <= size && forall i :: 0 <= i < |d| ==> d[i] == 0
      {
        d := d + [0];
      }
      shape, strides, datas := s, st, d;
    }

    /** The mutable operator[] used as a target: `a[idx] = v`. */
    method Store(idx: nat, v: int) returns (fault: Option<Fault>)
      modifies this
      ensures var w := SetFlat(old(Value()), idx, v);
        if w.Ok? then fault.None? && Value() == w.value else fault == Some(w.error) && Value() == old(Value())
    {
      if idx >= |datas| { return Some(OutOfRange); }
      datas := datas[idx := v];
      return None;
    }

    /** TensorArray::_inPlaceTensorOperation: `this[i] = func(this[i], oth[i])` for every i. */
    method InPlaceTensorOperation(oth: Arr, op: Op) returns (fault: Option<Fault>)
      modifies this
      ensures shape == old(shape) && strides == old(strides)
      ensures (datas, fault) == InPlace(op, old(datas), oth.datas)
    {
      ghost var xs := datas;
      var i := 0;
      while i < |datas|
        invariant shape == old(shape) && strides == old(strides)
        invariant |datas| == |xs| && i <= |xs|
        invariant forall i2 :: 0 <= i2 < i ==>
          StepFault(op, xs, oth.datas, |xs|, i2) == None && Ok(datas[i2]) == Apply(op, xs[i2], oth.datas[i2])
        invariant forall i2 :: i <= i2 < |xs| ==> datas[i2] == xs[i2]
      {
        if i >= |oth.datas| {
          FirstFaultIs(op, xs, oth.datas, |xs|, i);
          assert datas == InPlace(op, xs, oth.datas).0;
          return Some(OutOfRange);
        }
        var v := Apply(op, datas[i], oth.datas[i]);
        if v.Err? {
          FirstFaultIs(op, xs, oth.datas, |xs|, i);
          assert datas == InPlace(op, xs, oth.datas).0;
          return Some(v.error);
        }
        datas := datas[i := v.value];
        i := i + 1;
      }
      FirstFaultIs(op, xs, oth.datas, |xs|, i);
      assert datas == InPlace(op, xs, oth.datas).0;
      return None;
    }

    /** TensorArray::_inPlaceScalarOperation: `this[i] = func(this[i], k)` for every i. */
    method InPlaceScalarOperation(k: int, op: Op) returns (fault: Option<Fault>)
      modifies this
      ensures shape == old(shape) && strides == old(strides)
      ensures (datas, fault) == InPlace(op, old(datas), Broadcast(k, |old(datas)|))
    {
      fault := InPlaceTensorOperation(Arr([], [], Broadcast(k, |datas|)), op);
    }

    /** TensorArray::_tensorOperation: a new array with this shape and strides computed element by element. */
    method TensorOperation(oth: Arr, op: Op) returns (r: Result<Arr, Fault>)
      ensures r == Combine(op, Value(), oth.datas)
    {
      var cap := SizeOf(shape);
      var out := seq(cap, _ => 0);
      var i := 0;
      while i < |datas|
        invariant i <= |datas| && |out| == cap
        invariant forall i2 :: 0 <= i2 < i ==>
          StepFault(op, datas, oth.datas, cap, i2) == None && Ok(out[i2]) == Apply(op, datas[i2], oth.datas[i2])
        invariant forall i2 :: i <= i2 < cap ==> out[i2] == 0
      {
        if i >= |oth.datas| {
          FirstFaultIs(op, datas, oth.datas, cap, i);
          return Err(OutOfRange);
        }
        var v := Apply(op, datas[i], oth.datas[i]);
        if v.Err? {
          FirstFaultIs(op, datas, oth.datas, cap, i);
          return Err(v.error);
        }
        if i >= cap {
          FirstFaultIs(op, datas, oth.datas, cap, i);
          return Err(OutOfRange);
        }
        out := out[i := v.value];
        i := i + 1;
      }
      FirstFaultIs(op, datas, oth.datas, cap, i);
      assert out == Combine(op, Value(), oth.datas).value.datas;
      return Ok(Arr(shape, strides, out));
    }

    /** TensorArray::_scalarOperation. */
    method ScalarOperation(k: int, op: Op) returns (r: Result<Arr, Fault>)
      ensures r == Scalar(op, Value(), k)
    {
      r := TensorOperation(Arr([], [], Broadcast(k, |datas|)), op);
    }

    /** TensorArray::unsqueezed: insert an axis of extent 1, then recompute every stride. */
    method Unsqueezed(dim: nat) returns (fault: Option<Fault>)
      requires |strides| == |shape|
      modifies this
      ensures var u := Unsqueeze(old(Value()), dim);
        if u.Ok? then fault.None? && Value() == u.value else fault == Some(u.error) && Value() == old(Value())
    {
      if dim > |shape| { return Some(Unsupported); }
      var s := shape[..dim] + [1] + shape[dim..];
      var st := strides + [1];
      var k := 0;
      while k < |s|
        invariant k <= |s| && |st| == |s|
        invariant forall k2 :: 0 <= k2 < k ==> st[k2] == RowMajor(s)[k2]
        invariant Value() == old(Value())
      {
        var x := GetStride(k, s);
        st := st[k := x];
        k := k + 1;
      }
      assert st == RowMajor(s);
      shape, strides := s, st;
      return None;
    }

    /** TensorArray::removeDim, refusing every position that names no axis: drop the axis, recompute the strides. */
    method RemoveDim(dim: nat) returns (fault: Option<Fault>)
      requires |strides| == |shape|
      modifies this
      ensures var u := ArrayShape.RemoveDim(old(Value()), dim);
        if u.Ok? then fault.None? && Value() == u.value else fault == Some(u.error) && Value() == old(Value())
    {
      if dim >= |shape| { return Some(Unsupported); }
      var s := shape[..dim] + shape[dim + 1..];
      var st := strides[..|strides| - 1];
      var k := 0;
      while k < |s|
        invariant k <= |s| && |st| == |s|
        invariant forall k2 :: 0 <= k2 < k ==> st[k2] == RowMajor(s)[k2]
        invariant Value() == old(Value())
      {
        var x := GetStride(k, s);
        st := st[k := x];
        k := k + 1;
      }
      assert st == RowMajor(s);
      shape, strides := s, st;
      return None;
    }

    /** TensorArray::transposed: reverse shape and strides of a matrix in place. */
    method Transposed() returns (fault: Option<Fault>)
      requires |strides| == |shape|
      modifies this
      ensures var u := ArrayShape.Transposed(old(Value()));
        if u.Ok? then fault.None? && Value() == u.value else fault == Some(u.error) && Value() == old(Value())
    {
      if |shape| != 2 { return Some(Unsupported); }
      shape := [shape[1], shape[0]];
      strides := [strides[1], strides[0]];
      return None;
    }

    /**
     * TensorArray::transpose as written: copy every element (i, j) to `result({i, j})`
     * of a new array with reversed shape and strides, through its bounds-checked
     * accessor.
     */
    method Transpose() returns (r: Result<Arr, Fault>)
      requires Valid(Value())
      ensures r == ArrayShape.Transpose(Value())
    {
      if |shape| != 2 { return Err(Unsupported); }
      var a := Value();
      var m := shape[0];
      ghost var t := TransposeTarget(a);
      var res := TransposeTarget(a);
      var i := 0;
      while i < m
        invariant i <= m
        invariant TransposeRows(a, t, i, false) == Ok(res)
      {
        var w := TransposeRowLoop(a, res, i);
        if w.Err? {
          TransposeRowsStaysErr(a, t, i + 1, m, false);
          return Err(w.error);
        }
        res := w.value;
        i := i + 1;
      }
      return Ok(res);
    }

    /** The inner loop of TensorArray::transpose: `result({i, j}) = (*this)({i, j})` for every j of row i. */
    static method TransposeRowLoop(a: Arr, row: Arr, i: nat) returns (r: Result<Arr, Fault>)
      requires InBounds(a) && |a.shape| == 2 && i < a.shape[0] && InBounds(row)
      ensures r == TransposeRow(a, row, i, a.shape[1], false)
    {
      var n := a.shape[1];
      var res := row;
      var j := 0;
      while j < n
        invariant j <= n
        invariant TransposeRow(a, row, i, j, false) == Ok(res)
      {
        var w := SetAt(res, [i, j], At(a, i, j));
        if w.Err? {
          TransposeRowStaysErr(a, row, i, j + 1, n, false);
          return Err(w.error);
        }
        res := w.value;
        j := j + 1;
      }
      return Ok(res);
    }

    /**
     * The loop of TensorArray::matmul: `newTensor({i, k}) += this(i, j) * oth(j, k)`
     * over i < m, j < n, k < p.  The accessors take two coordinates, so operands
     * of higher rank raise on the first step.
     */
    static method ProductLoop(a: Arr, b: Arr) returns (r: Result<seq<int>, Fault>)
      requires InBounds(a) && InBounds(b) && |a.shape| >= 2 && |b.shape| == |a.shape|
      requires a.shape[1] == b.shape[0]
      ensures |a.shape| == 2 ==> r == Ok(Product2D(a, b).datas)
      ensures |a.shape| > 2 ==> r == if a.shape[0] > 0 && a.shape[1] > 0 && b.shape[1] > 0
        then Err(DimensionMismatch) else Ok(Broadcast(0, a.shape[0] * b.shape[1]))
    {
      var m, n, p := a.shape[0], a.shape[1], b.shape[1];
      var acc := Broadcast(0, m * p);
      ghost var zeros := acc;
      if |a.shape| == 2 { PartialStart(acc, a, b); }
      var i := 0;
      while i < m
        invariant i <= m && |acc| == m * p
        invariant |a.shape| > 2 && n > 0 && p > 0 ==> i == 0
        invariant |a.shape| > 2 ==> acc == zeros
        invariant |a.shape| == 2 ==> Partial(acc, a, b, i, 0, 0)
      {
        var j := 0;
        while j < n
          invariant j <= n && |acc| == m * p
          invariant |a.shape| > 2 && p > 0 ==> j == 0
          invariant |a.shape| > 2 ==> acc == zeros
          invariant |a.shape| == 2 ==> Partial(acc, a, b, i, j, 0)
        {
          var row := ProductRowLoop(acc, a, b, i, j);
          if row.Err? { return Err(row.error); }
          acc := row.value;
          if |a.shape| == 2 { PartialRowDone(acc, a, b, i, j); }
          j := j + 1;
        }
        if |a.shape| == 2 { PartialNextRow(acc, a, b, i); }
        i := i + 1;
      }
      if |a.shape| == 2 { PartialDone(acc, a, b); }
      return Ok(acc);
    }

    /** The innermost loop of TensorArray::matmul, over the columns k of row i for one inner index j. */
    static method ProductRowLoop(acc: seq<int>, a: Arr, b: Arr, i: nat, j: nat) returns (r: Result<seq<int>, Fault>)
      requires InBounds(a) && InBounds(b) && |a.shape| >= 2 && |b.shape| == |a.shape|
      requires a.shape[1] == b.shape[0] && i < a.shape[0] && j < a.shape[1]
      requires |acc| == a.shape[0] * b.shape[1]
      ensures |a.shape| > 2 ==> r == if b.shape[1] > 0 then Err(DimensionMismatch) else Ok(acc)
      ensures |a.shape| == 2 && Partial(acc, a, b, i, j, 0) ==>
        r.Ok? && Partial(r.value, a, b, i, j, b.shape[1])
    {
      var m, p := a.shape[0], b.shape[1];
      var out := acc;
      ghost var tracking := |a.shape| == 2 && Partial(acc, a, b, i, j, 0);
      var k := 0;
      while k < p
        invariant k <= p && |out| == m * p
        invariant |a.shape| > 2 ==> k == 0 && out == acc
        invariant tracking ==> Partial(out, a, b, i, j, k)
      {
        if |a.strides| != 2 || |b.strides| != 2 { return Err(DimensionMismatch); }
        RowMajorCell(m, p, i, k);
        if tracking { PartialStep(out, a, b, i, j, k); }
        out := out[i * p + k := out[i * p + k] + At(a, i, j) * At(b, j, k)];
        k := k + 1;
      }
      return Ok(out);
    }

    /** TensorArray::matmul, changing the receiver as the source does. */
    method Matmul(oth: Arr) returns (r: Result<Arr, Fault>)
      requires Valid(Value()) && Valid(oth)
      modifies this
      ensures (Value(), r) == ArrayMatmul.Matmul(old(Value()), oth)
    {
      if |oth.shape| == 1 && |shape| == 1 { return Err(Unsupported); }
      if |oth.shape| == 0 && |shape| == 0 { return Err(OutOfRange); }
      var isUnsqueezed := false;
      if |shape| == 1 {
        isUnsqueezed := true;
        assert Inserted(shape, 0) == [1, shape[0]];
        var _ := Unsqueezed(0);
      }
      assert Value() == Lifted(old(Value()));
      if |oth.shape| != |shape| { return Err(Unsupported); }
      if shape[1] != oth.shape[0] { return Err(ShapeMismatch); }
      var m, p := shape[0], oth.shape[1];
      var acc := ProductLoop(Value(), oth);
      if acc.Err? { return Err(acc.error); }
      RowMajorOffset2(m, p, 0, 0);
      if isUnsqueezed { var _ := RemoveDim(0); }
      return Ok(Arr([m, p], [p, 1], acc.value));
    }
  }
}
