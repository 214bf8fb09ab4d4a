/**
 * The shape operations of `lava::TensorArray`: swapping the two axes of a matrix
 * in place (`transposed`), building a transposed copy (`transpose`), and adding
 * or removing an axis of extent 1 (`unsqueezed`, `removeDim`).
 */
module ArrayShape {
  import opened Wrappers
  import opened StridedArray

  /** The receiver after TensorArray::transposed: shape and strides reversed, buffer untouched. */
  function Transposed(a: Arr): (r: Result<Arr, Fault>)
    requires |a.strides| == |a.shape|
    ensures r.Err? <==> |a.shape| != 2
    ensures r.Err? ==> r.error == Unsupported
  {
    if |a.shape| != 2 then Err(Unsupported)
    else Ok(Arr([a.shape[1], a.shape[0]], [a.strides[1], a.strides[0]], a.datas))
  }

  lemma Offset2(i: nat, j: nat, s: seq<nat>)
    requires |s| == 2
    ensures Offset([i, j], s) == i * s[0] + j * s[1]
  {
    assert [i, j][1..] == [j] && s[1..] == [s[1]] && [j][1..] == [];
    assert Offset([j], [s[1]]) == j * s[1] + Offset([], []);
  }

  lemma Product2(x: nat, y: nat)
    ensures Product([x, y]) == x * y
  {
    assert [x, y][1..] == [y] && [y][1..] == [];
    assert Product([y]) == y * Product([]);
  }

  lemma MaxOffset2(shape: seq<nat>, strides: seq<nat>)
    requires |shape| == 2 && |strides| == 2
    ensures MaxOffset(shape, strides) == Pred(shape[0]) * strides[0] + Pred(shape[1]) * strides[1]
  {
    assert shape[1..] == [shape[1]] && strides[1..] == [strides[1]];
    assert [shape[1]][1..] == [] && [strides[1]][1..] == [];
    assert MaxOffset([shape[1]], [strides[1]]) == Pred(shape[1]) * strides[1] + MaxOffset([], []);
  }

  /**
   * Swapping the axes in place is its own inverse, keeps an array valid, and
   * reading (j, i) of the result reads element (i, j) of the receiver.
   */
  lemma TransposedSwapsAxes(a: Arr, i: nat, j: nat)
    requires Valid(a) && |a.shape| == 2
    ensures Transposed(Transposed(a).value) == Ok(a)
    ensures Valid(Transposed(a).value)
    ensures InShape([i, j], a.shape) ==>
      InShape([j, i], Transposed(a).value.shape) && At(Transposed(a).value, j, i) == At(a, i, j)
  {
    var t := Transposed(a).value;
    assert a.shape == [a.shape[0], a.shape[1]] && a.strides == [a.strides[0], a.strides[1]];
    Product2(a.shape[0], a.shape[1]);
    Product2(a.shape[1], a.shape[0]);
    MaxOffset2(a.shape, a.strides);
    MaxOffset2(t.shape, t.strides);
    if InShape([i, j], a.shape) {
      assert InShape([j, i], t.shape);
      OffsetInBuffer(a, [i, j]);
      Offset2(i, j, a.strides);
      Offset2(j, i, t.strides);
    }
  }

  /** The shape with an axis of extent 1 inserted before position dim. */
  function Inserted(shape: seq<nat>, dim: nat): (s: seq<nat>)
    requires dim <= |shape|
    ensures |s| == |shape| + 1 && s[dim] == 1
    ensures Product(s) == Product(shape)
  {
    ProductAppend(shape[..dim] + [1], shape[dim..]);
    ProductAppend(shape[..dim], [1]);
    ProductAppend(shape[..dim], shape[dim..]);
    assert shape[..dim] + shape[dim..] == shape;
    assert Product([1]) == 1 * Product([]);
    shape[..dim] + [1] + shape[dim..]
  }

  /** The shape with axis dim removed. */
  function Removed(shape: seq<nat>, dim: nat): (s: seq<nat>)
    requires dim < |shape|
    ensures |s| == |shape| - 1
  {
    shape[..dim] + shape[dim + 1..]
  }

  /**
   * The receiver after TensorArray::unsqueezed(dim): an axis of extent 1 inserted
   * at dim, every stride recomputed row-major.  Positions up to and including
   * the rank are accepted.
   */
  function Unsqueeze(a: Arr, dim: nat): (r: Result<Arr, Fault>)
    ensures r.Err? <==> dim > |a.shape|
    ensures r.Err? ==> r.error == Unsupported
    ensures r.Ok? ==> |r.value.shape| == |a.shape| + 1 && r.value.shape[dim] == 1
    ensures r.Ok? ==> r.value.datas == a.datas && Product(r.value.shape) == Product(a.shape)
    ensures r.Ok? && |a.datas| == Product(a.shape) ==> Valid(r.value)
  {
    if dim > |a.shape| then Err(Unsupported)
    else
      var s := Inserted(a.shape, dim);
      RowMajorValid(s, a.datas);
      Ok(Arr(s, RowMajor(s), a.datas))
  }

  /**
   * The guard TensorArray::removeDim applies: it refuses only positions beyond
   * the rank, so the position equal to the rank reaches `erase(begin() + dim)`
   * with the end iterator.
   */
  predicate RemoveDimRefusesAsWritten(rank: nat, dim: nat)
  {
    dim > rank
  }

  /** The position equal to the rank passes the guard although it names no axis. */
  lemma RemoveDimGuardAdmitsEnd(shape: seq<nat>)
    ensures !RemoveDimRefusesAsWritten(|shape|, |shape|)
    ensures !(|shape| < |shape|)
  {
  }

  /**
   * The receiver after TensorArray::removeDim(dim), with the guard refusing every
   * position that names no axis: axis dim removed, strides recomputed row-major.
   */
  function RemoveDim(a: Arr, dim: nat): (r: Result<Arr, Fault>)
    ensures r.Err? <==> dim >= |a.shape|
    ensures r.Err? ==> r.error == Unsupported
    ensures r.Ok? ==> |r.value.shape| == |a.shape| - 1 && r.value.datas == a.datas
    ensures r.Ok? ==> forall k :: 0 <= k < |r.value.shape| ==>
      r.value.shape[k] == (if k < dim then a.shape[k] else a.shape[k + 1])
  {
    if dim >= |a.shape| then Err(Unsupported)
    else
      var s := Removed(a.shape, dim);
      Ok(Arr(s, RowMajor(s), a.datas))
  }

  /** Removing the axis just inserted restores the shape, with row-major strides. */
  lemma RemoveDimUndoesUnsqueeze(a: Arr, dim: nat)
    requires dim <= |a.shape|
    ensures RemoveDim(Unsqueeze(a, dim).value, dim) == Ok(Arr(a.shape, RowMajor(a.shape), a.datas))
  {
    var s := Inserted(a.shape, dim);
    assert Removed(s, dim) == a.shape;
  }

  /** Setting one element through the checked coordinate accessor. */
  function SetAt(a: Arr, coords: seq<nat>, v: int): (r: Result<Arr, Fault>)
    requires InBounds(a)
    ensures r.Ok? <==> InShape(coords, a.shape)
    ensures r.Ok? ==> r.value.shape == a.shape && r.value.strides == a.strides && |r.value.datas| == |a.datas|
    ensures r.Ok? ==> r.value.datas == a.datas[Locate(a, coords).value := v]
  {
    var loc := Locate(a, coords);
    if loc.Err? then Err(loc.error) else Ok(a.(datas := a.datas[loc.value := v]))
  }

  /** The element (i, j) of a valid matrix, read by the const accessor. */
  function At(a: Arr, i: nat, j: nat): int
    requires InBounds(a) && InShape([i, j], a.shape)
  {
    OffsetInBuffer(a, [i, j]);
    Read(a, [i, j]).value
  }

  /**
   * The coordinate of the result that TensorArray::transpose writes element (i, j)
   * to: `{i, j}` as written, `{j, i}` when `swapped`.
   */
  function Dest(i: nat, j: nat, swapped: bool): (c: seq<nat>)
    ensures |c| == 2 && c[0] == (if swapped then j else i) && c[1] == (if swapped then i else j)
  {
    if swapped then [j, i] else [i, j]
  }

  /** Row i of TensorArray::transpose's loop, columns 0 .. j - 1: `result(Dest(i, j)) = this(i, j)`. */
  function TransposeRow(a: Arr, r: Arr, i: nat, j: nat, swapped: bool): (w: Result<Arr, Fault>)
    requires InBounds(a) && |a.shape| == 2 && i < a.shape[0] && j <= a.shape[1]
    requires InBounds(r)
    ensures w.Ok? ==> w.value.shape == r.shape && w.value.strides == r.strides && |w.value.datas| == |r.datas|
    ensures w.Ok? ==> InBounds(w.value)
    decreases j
  {
    if j == 0 then Ok(r)
    else
      var prev := TransposeRow(a, r, i, j - 1, swapped);
      if prev.Err? then prev else SetAt(prev.value, Dest(i, j - 1, swapped), At(a, i, j - 1))
  }

  /** Rows 0 .. i - 1 of TensorArray::transpose's loop. */
  function TransposeRows(a: Arr, r: Arr, i: nat, swapped: bool): (w: Result<Arr, Fault>)
    requires InBounds(a) && |a.shape| == 2 && i <= a.shape[0]
    requires InBounds(r)
    ensures w.Ok? ==> w.value.shape == r.shape && w.value.strides == r.strides && |w.value.datas| == |r.datas|
    ensures w.Ok? ==> InBounds(w.value)
    decreases i
  {
    if i == 0 then Ok(r)
    else
      var prev := TransposeRows(a, r, i - 1, swapped);
      if prev.Err? then prev else TransposeRow(a, prev.value, i - 1, a.shape[1], swapped)
  }

  /** The zero-filled array TensorArray::transpose writes into: reversed shape, reversed strides. */
  function TransposeTarget(a: Arr): (r: Arr)
    requires Valid(a) && |a.shape| == 2
    ensures Valid(r)
    ensures r.shape == [a.shape[1], a.shape[0]] && r.strides == [a.strides[1], a.strides[0]]
    ensures |r.datas| == |a.datas|
  {
    var r := Arr([a.shape[1], a.shape[0]], [a.strides[1], a.strides[0]], seq(a.shape[0] * a.shape[1], _ => 0));
    assert a.shape == [a.shape[0], a.shape[1]];
    Product2(a.shape[0], a.shape[1]);
    Product2(a.shape[1], a.shape[0]);
    MaxOffset2(a.shape, a.strides);
    MaxOffset2(r.shape, r.strides);
    r
  }

  /** TensorArray::transpose as written: a new array filled through the bounds-checked accessor of the result. */
  function Transpose(a: Arr): (r: Result<Arr, Fault>)
    requires Valid(a)
    ensures r.Ok? ==> Valid(r.value) && |r.value.shape| == 2
  {
    if |a.shape| != 2 then Err(Unsupported)
    else TransposeRows(a, TransposeTarget(a), a.shape[0], false)
  }

  lemma {:induction false} TransposeRowOk(a: Arr, r: Arr, i: nat, j: nat)
    requires InBounds(a) && |a.shape| == 2 && i < a.shape[0] && j <= a.shape[1]
    requires InBounds(r) && |r.shape| == 2
    ensures TransposeRow(a, r, i, j, false).Ok? <==> j == 0 || (i < r.shape[0] && j <= r.shape[1])
  {
    if j > 0 {
      TransposeRowOk(a, r, i, j - 1);
    }
  }

  lemma {:induction false} TransposeRowsOk(a: Arr, r: Arr, i: nat)
    requires InBounds(a) && |a.shape| == 2 && i <= a.shape[0]
    requires InBounds(r) && |r.shape| == 2
    ensures TransposeRows(a, r, i, false).Ok? <==>
      i == 0 || a.shape[1] == 0 || (i <= r.shape[0] && a.shape[1] <= r.shape[1])
  {
    if i > 0 {
      TransposeRowsOk(a, r, i - 1);
      var prev := TransposeRows(a, r, i - 1, false);
      if prev.Ok? {
        TransposeRowOk(a, prev.value, i - 1, a.shape[1]);
      }
    }
  }

  /**
   * TensorArray::transpose succeeds on a matrix exactly when it is square or
   * empty: every other matrix sends a write outside the reversed shape.
   */
  lemma TransposeOk(a: Arr)
    requires Valid(a)
    ensures Transpose(a).Ok? <==>
      |a.shape| == 2 && (a.shape[0] == a.shape[1] || a.shape[0] == 0 || a.shape[1] == 0)
    ensures Transpose(a).Err? ==> Transpose(a).error == (if |a.shape| != 2 then Unsupported else OutOfRange)
  {
    if |a.shape| == 2 {
      TransposeRowsOk(a, TransposeTarget(a), a.shape[0]);
      TransposeFault(a, TransposeTarget(a), a.shape[0]);
    }
  }

  lemma {:induction false} TransposeFault(a: Arr, r: Arr, i: nat)
    requires InBounds(a) && |a.shape| == 2 && i <= a.shape[0]
    requires InBounds(r) && |r.shape| == 2
    ensures TransposeRows(a, r, i, false).Err? ==> TransposeRows(a, r, i, false).error == OutOfRange
  {
    if i > 0 {
      TransposeFault(a, r, i - 1);
      var prev := TransposeRows(a, r, i - 1, false);
      if prev.Ok? { TransposeRowFault(a, prev.value, i - 1, a.shape[1]); }
    }
  }

  lemma {:induction false} TransposeRowFault(a: Arr, r: Arr, i: nat, j: nat)
    requires InBounds(a) && |a.shape| == 2 && i < a.shape[0] && j <= a.shape[1]
    requires InBounds(r) && |r.shape| == 2
    ensures TransposeRow(a, r, i, j, false).Err? ==> TransposeRow(a, r, i, j, false).error == OutOfRange
  {
    if j > 0 { TransposeRowFault(a, r, i, j - 1); }
  }

  /** Strides of an m-by-m matrix stored row by row or column by column. */
  predicate Dense(st: seq<nat>, m: nat)
  {
    st == [m, 1] || st == [1, m]
  }

  function Pos(st: seq<nat>, i: nat, j: nat): nat
    requires |st| == 2
  {
    i * st[0] + j * st[1]
  }

  lemma PosBound(st: seq<nat>, m: nat, i: nat, j: nat)
    requires Dense(st, m) && i < m && j < m
    ensures Pos(st, i, j) < m * m
  {
    if st == [m, 1] {
      MulMono(i, m - 1, m);
      assert (m - 1) * m + j < m * m;
    } else {
      MulMono(j, m - 1, m);
      assert i + (m - 1) * m < m * m;
    }
  }

  lemma RowMajorInjective(m: nat, i: nat, j: nat, i2: nat, j2: nat)
    requires i < m && j < m && i2 < m && j2 < m && i * m + j == i2 * m + j2
    ensures i == i2 && j == j2
  {
    DivModUnique(i, j, i2, j2, m);
  }

  /** In a dense square matrix distinct coordinates occupy distinct positions. */
  lemma PosInjective(st: seq<nat>, m: nat, i: nat, j: nat, i2: nat, j2: nat)
    requires Dense(st, m) && i < m && j < m && i2 < m && j2 < m
    requires Pos(st, i, j) == Pos(st, i2, j2)
    ensures i == i2 && j == j2
  {
    if st == [m, 1] { RowMajorInjective(m, i, j, i2, j2); }
    else { RowMajorInjective(m, j, i, j2, i2); }
  }

  /** The element at coordinate (i, j) of a dense square matrix. */
  function CellOf(r: Arr, m: nat, i: nat, j: nat): int
    requires Dense(r.strides, m) && |r.datas| == m * m && i < m && j < m
  {
    PosBound(r.strides, m, i, j);
    r.datas[Pos(r.strides, i, j)]
  }

  lemma AtCell(a: Arr, m: nat, i: nat, j: nat)
    requires InBounds(a) && a.shape == [m, m] && Dense(a.strides, m) && |a.datas| == m * m && i < m && j < m
    ensures At(a, i, j) == CellOf(a, m, i, j)
  {
    Offset2(i, j, a.strides);
  }

  lemma {:induction false} RowCells(a: Arr, r: Arr, m: nat, i: nat, j: nat)
    requires Valid(a) && a.shape == [m, m] && i < m && j <= m
    requires InBounds(r) && r.shape == [m, m] && Dense(r.strides, m) && |r.datas| == m * m
    ensures TransposeRow(a, r, i, j, false).Ok?
    ensures forall j2 :: 0 <= j2 < j ==> CellOf(TransposeRow(a, r, i, j, false).value, m, i, j2) == At(a, i, j2)
    ensures forall i2, j2 :: 0 <= i2 < m && 0 <= j2 < m && (i2 != i || j2 >= j) ==>
      CellOf(TransposeRow(a, r, i, j, false).value, m, i2, j2) == CellOf(r, m, i2, j2)
  {
    if j > 0 {
      RowCells(a, r, m, i, j - 1);
      var prev := TransposeRow(a, r, i, j - 1, false).value;
      var w := TransposeRow(a, r, i, j, false).value;
      Offset2(i, j - 1, prev.strides);
      OneWrite(prev, w, m, i, j - 1, At(a, i, j - 1));
    }
  }

  /** Writing one position of a dense square matrix changes that coordinate only. */
  lemma OneWrite(prev: Arr, w: Arr, m: nat, i: nat, j: nat, v: int)
    requires Dense(prev.strides, m) && |prev.datas| == m * m && i < m && j < m
    requires Pos(prev.strides, i, j) < |prev.datas|
    requires w.strides == prev.strides && w.datas == prev.datas[Pos(prev.strides, i, j) := v]
    ensures CellOf(w, m, i, j) == v
    ensures forall i2, j2 :: 0 <= i2 < m && 0 <= j2 < m && (i2 != i || j2 != j) ==>
      CellOf(w, m, i2, j2) == CellOf(prev, m, i2, j2)
  {
    forall i2, j2 | 0 <= i2 < m && 0 <= j2 < m && (i2 != i || j2 != j)
      ensures CellOf(w, m, i2, j2) == CellOf(prev, m, i2, j2)
    {
      PosDistinct(prev.strides, m, i2, j2, i, j);
      PosBound(prev.strides, m, i2, j2);
      var p2 := Pos(prev.strides, i2, j2);
      assert w.datas[p2] == prev.datas[p2];
    }
  }

  lemma PosDistinct(st: seq<nat>, m: nat, i: nat, j: nat, i2: nat, j2: nat)
    requires Dense(st, m) && i < m && j < m && i2 < m && j2 < m
    ensures (i != i2 || j != j2) ==> Pos(st, i, j) != Pos(st, i2, j2)
  {
    if Pos(st, i, j) == Pos(st, i2, j2) {
      PosInjective(st, m, i, j, i2, j2);
    }
  }

  lemma {:induction false} RowsCells(a: Arr, r: Arr, m: nat, i: nat)
    requires Valid(a) && a.shape == [m, m] && i <= m
    requires InBounds(r) && r.shape == [m, m] && Dense(r.strides, m) && |r.datas| == m * m
    ensures TransposeRows(a, r, i, false).Ok?
    ensures forall i2, j2 :: 0 <= i2 < i && 0 <= j2 < m ==>
      CellOf(TransposeRows(a, r, i, false).value, m, i2, j2) == At(a, i2, j2)
  {
    if i > 0 {
      RowsCells(a, r, m, i - 1);
      var prev := TransposeRows(a, r, i - 1, false).value;
      RowCells(a, prev, m, i - 1, m);
    }
  }

  /**
   * On a square matrix stored row by row or column by column,
   * TensorArray::transpose returns the same matrix: it reverses the stride order,
   * and reading the result at (i, j) gives the receiver's element (i, j).
   */
  lemma TransposeSquareReadsSame(a: Arr, m: nat)
    requires Valid(a) && a.shape == [m, m] && Dense(a.strides, m)
    ensures Transpose(a).Ok?
    ensures Transpose(a).value.shape == a.shape
    ensures Transpose(a).value.strides == [a.strides[1], a.strides[0]]
    ensures Valid(Transpose(a).value)
    ensures forall i, j :: 0 <= i < m && 0 <= j < m ==> At(Transpose(a).value, i, j) == At(a, i, j)
  {
    var r := TransposeTarget(a);
    Product2(m, m);
    RowsCells(a, r, m, m);
    var w := Transpose(a).value;
    assert Valid(w);
    forall i, j | 0 <= i < m && 0 <= j < m ensures At(w, i, j) == At(a, i, j) {
      AtCell(w, m, i, j);
    }
  }

  /** Once a write of the row loop raises, the rest of the row passes the same fault on. */
  lemma {:induction false} TransposeRowStaysErr(a: Arr, r: Arr, i: nat, j: nat, j2: nat, swapped: bool)
    requires InBounds(a) && |a.shape| == 2 && i < a.shape[0] && j <= j2 <= a.shape[1]
    requires InBounds(r) && TransposeRow(a, r, i, j, swapped).Err?
    ensures TransposeRow(a, r, i, j2, swapped) == TransposeRow(a, r, i, j, swapped)
    decreases j2 - j
  {
    if j2 > j {
      TransposeRowStaysErr(a, r, i, j, j2 - 1, swapped);
    }
  }

  /** Once a row raises, every later row passes the same fault on. */
  lemma {:induction false} TransposeRowsStaysErr(a: Arr, r: Arr, i: nat, i2: nat, swapped: bool)
    requires InBounds(a) && |a.shape| == 2 && i <= i2 <= a.shape[0]
    requires InBounds(r) && TransposeRows(a, r, i, swapped).Err?
    ensures TransposeRows(a, r, i2, swapped) == TransposeRows(a, r, i, swapped)
    decreases i2 - i
  {
    if i2 > i {
      TransposeRowsStaysErr(a, r, i, i2 - 1, swapped);
    }
  }

  /**
   * TensorArray::transpose as evidently intended, writing `result({j, i})`:
   * every matrix is accepted, and only a non-matrix is refused.
   */
  function TransposeIntended(a: Arr): (r: Result<Arr, Fault>)
    requires Valid(a)
    ensures r.Ok? ==> Valid(r.value) && |r.value.shape| == 2
  {
    if |a.shape| != 2 then Err(Unsupported)
    else TransposeRows(a, TransposeTarget(a), a.shape[0], true)
  }

  /** Position (i, j) of the receiver's buffer already holds the receiver's value there. */
  predicate Copied(a: Arr, w: Arr, i: nat, j: nat)
    requires |a.strides| == 2
  {
    var p := Pos(a.strides, i, j);
    p < |a.datas| && p < |w.datas| && w.datas[p] == a.datas[p]
  }

  /**
   * The intended write of element (i, j) lands at the receiver's own offset of
   * (i, j) and stores the receiver's value there, so it never disturbs a copy
   * made before, whatever the strides.
   */
  lemma {:induction false} IntendedRowCopies(a: Arr, r: Arr, i: nat, j: nat)
    requires Valid(a) && |a.shape| == 2 && i < a.shape[0] && j <= a.shape[1]
    requires InBounds(r) && r.shape == [a.shape[1], a.shape[0]] && r.strides == [a.strides[1], a.strides[0]]
    requires |r.datas| == |a.datas|
    ensures TransposeRow(a, r, i, j, true).Ok?
    ensures forall i2, j2 :: Copied(a, r, i2, j2) ==> Copied(a, TransposeRow(a, r, i, j, true).value, i2, j2)
    ensures forall j2 :: 0 <= j2 < j ==> Copied(a, TransposeRow(a, r, i, j, true).value, i, j2)
  {
    if j > 0 {
      IntendedRowCopies(a, r, i, j - 1);
      var prev := TransposeRow(a, r, i, j - 1, true).value;
      var w := TransposeRow(a, r, i, j, true).value;
      var p := Pos(a.strides, i, j - 1);
      AtPos(a, i, j - 1);
      assert Dest(i, j - 1, true) == [j - 1, i];
      Offset2(j - 1, i, prev.strides);
      assert w.datas == prev.datas[p := a.datas[p]];
      CopyKeeps(a, prev, w, i, j - 1);
    }
  }

  /** The element (i, j) of a matrix sits at position Pos(strides, i, j) of its buffer. */
  lemma AtPos(a: Arr, i: nat, j: nat)
    requires InBounds(a) && |a.shape| == 2 && InShape([i, j], a.shape)
    ensures Pos(a.strides, i, j) < |a.datas| && At(a, i, j) == a.datas[Pos(a.strides, i, j)]
  {
    Offset2(i, j, a.strides);
    OffsetInBuffer(a, [i, j]);
  }

  /** Storing the receiver's own value at the receiver's position of (i, j) keeps every copy. */
  lemma CopyKeeps(a: Arr, prev: Arr, w: Arr, i: nat, j: nat)
    requires |a.strides| == 2 && Pos(a.strides, i, j) < |a.datas| && Pos(a.strides, i, j) < |prev.datas|
    requires w.datas == prev.datas[Pos(a.strides, i, j) := a.datas[Pos(a.strides, i, j)]]
    ensures Copied(a, w, i, j)
    ensures forall i2, j2 :: Copied(a, prev, i2, j2) ==> Copied(a, w, i2, j2)
  {
  }

  lemma {:induction false} IntendedRowsCopy(a: Arr, r: Arr, i: nat)
    requires Valid(a) && |a.shape| == 2 && i <= a.shape[0]
    requires InBounds(r) && r.shape == [a.shape[1], a.shape[0]] && r.strides == [a.strides[1], a.strides[0]]
    requires |r.datas| == |a.datas|
    ensures TransposeRows(a, r, i, true).Ok?
    ensures forall i2, j2 :: 0 <= i2 < i && 0 <= j2 < a.shape[1] ==> Copied(a, TransposeRows(a, r, i, true).value, i2, j2)
  {
    if i > 0 {
      IntendedRowsCopy(a, r, i - 1);
      var prev := TransposeRows(a, r, i - 1, true).value;
      IntendedRowCopies(a, prev, i - 1, a.shape[1]);
    }
  }

  /**
   * The intended transpose accepts exactly the matrices, has the reversed shape,
   * and its element (j, i) is the receiver's element (i, j).
   */
  lemma TransposeIntendedCorrect(a: Arr)
    requires Valid(a)
    ensures TransposeIntended(a).Ok? <==> |a.shape| == 2
    ensures TransposeIntended(a).Err? ==> TransposeIntended(a).error == Unsupported
    ensures TransposeIntended(a).Ok? ==>
      var t := TransposeIntended(a).value;
      t.shape == [a.shape[1], a.shape[0]] &&
      forall i, j :: 0 <= i < a.shape[0] && 0 <= j < a.shape[1] ==> At(t, j, i) == At(a, i, j)
  {
    if |a.shape| == 2 {
      var r := TransposeTarget(a);
      Product2(a.shape[0], a.shape[1]);
      IntendedRowsCopy(a, r, a.shape[0]);
      var t := TransposeIntended(a).value;
      forall i, j | 0 <= i < a.shape[0] && 0 <= j < a.shape[1] ensures At(t, j, i) == At(a, i, j) {
        assert Copied(a, t, i, j);
        AtPos(a, i, j);
        AtPos(t, j, i);
      }
    }
  }

  /** Transposing twice as intended reads back the receiver element for element. */
  lemma TransposeIntendedTwice(a: Arr)
    requires Valid(a) && |a.shape| == 2
    ensures TransposeIntended(a).Ok? && TransposeIntended(TransposeIntended(a).value).Ok?
    ensures var t2 := TransposeIntended(TransposeIntended(a).value).value;
      t2.shape == a.shape &&
      forall i, j :: 0 <= i < a.shape[0] && 0 <= j < a.shape[1] ==> At(t2, i, j) == At(a, i, j)
  {
    TransposeIntendedCorrect(a);
    TransposeIntendedCorrect(TransposeIntended(a).value);
  }

  /** The intended copy reads like the in-place axis swap TensorArray::transposed. */
  lemma TransposeIntendedAgreesWithTransposed(a: Arr)
    requires Valid(a) && |a.shape| == 2
    ensures TransposeIntended(a).Ok? && Transposed(a).Ok?
    ensures TransposeIntended(a).value.shape == Transposed(a).value.shape
    ensures forall i, j :: 0 <= i < a.shape[0] && 0 <= j < a.shape[1] ==>
      At(TransposeIntended(a).value, j, i) == At(Transposed(a).value, j, i)
  {
    TransposeIntendedCorrect(a);
    TransposedSwapsAxes(a, 0, 0);
    forall i, j | 0 <= i < a.shape[0] && 0 <= j < a.shape[1]
      ensures At(TransposeIntended(a).value, j, i) == At(Transposed(a).value, j, i)
    {
      TransposedSwapsAxes(a, i, j);
    }
  }
}
