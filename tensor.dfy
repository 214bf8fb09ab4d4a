/**
 * `lava::Tensor<int>` of Tensor.cpp: a data array, a gradient array, the
 * requires-grad flag and, for the result of an operation, the gradient function
 * createWithGrad stores together with the operand copies it writes into.
 *
 * The copy constructor copies only the data and the gradient, so an operand
 * copy has no gradient function and no previous tensors of its own: the graph
 * behind a result is one level deep.  Its flag is the member's default, which
 * the header shown does not state; it is a parameter here (`flag`).  A gradient
 * function is called with the result tensor itself and reads the result's
 * data (`grad.tensor()`) as the upstream gradient.
 */
module ClosureTensors {
  import opened Wrappers
  import opened StridedArray
  import opened ArrayOps
  import opened ArrayShape
  import opened ArrayMatmul

  /** The closure an operation hands to createWithGrad. */
  datatype GradFn =
    | AddFn | SubFn | MulFn | DivFn | MatmulFn
    | AddScalarFn | SubScalarFn | MulScalarFn(k: int) | DivScalarFn(k: int)

  /** How many operand copies the operation keeps in `_previous`. */
  function Arity(fn: GradFn): (n: nat)
    ensures n == 1 || n == 2
  {
    if fn.AddFn? || fn.SubFn? || fn.MulFn? || fn.DivFn? || fn.MatmulFn? then 2 else 1
  }

  /** What a gradient function reads and writes of a tensor. */
  datatype Operand = Operand(data: Arr, grad: Arr, requiresGrad: bool)

  /** Operands whose data buffers fit their shapes. */
  predicate ValidOperands(ops: seq<Operand>)
  {
    forall i :: 0 <= i < |ops| ==> Valid(ops[i].data)
  }

  /** `TensorArray(shape, strides)`: product(shape) zeros. */
  function ZerosLike(a: Arr): (r: Arr)
    ensures r.shape == a.shape && r.strides == a.strides && |r.datas| == Product(a.shape)
    ensures forall i :: 0 <= i < |r.datas| ==> r.datas[i] == 0
  {
    Arr(a.shape, a.strides, Broadcast(0, Product(a.shape)))
  }

  /**
   * `_grad += delta` (or `-=`), the in-place elementwise operation: a delta that
   * could not be computed raises before the gradient is touched.
   */
  function Accumulate(op: Op, acc: Arr, delta: Result<Arr, Fault>): (r: (Arr, Option<Fault>))
    ensures r.0.shape == acc.shape && r.0.strides == acc.strides && |r.0.datas| == |acc.datas|
    ensures delta.Err? ==> r.0 == acc && r.1.Some?
  {
    if delta.Err? then (acc, Some(delta.error))
    else
      var ip := InPlace(op, acc.datas, delta.value.datas);
      (acc.(datas := ip.0), ip.1)
  }

  /** The array the closure adds to the left operand's gradient, from the upstream array g. */
  function LeftDelta(fn: GradFn, g: Arr, ops: seq<Operand>): Result<Arr, Fault>
    requires |ops| == Arity(fn) && Valid(g) && ValidOperands(ops)
  {
    match fn
    case AddFn => Ok(g)
    case SubFn => Ok(g)
    case MulFn => Combine(Times, g, ops[1].data.datas)
    case DivFn => Combine(Divide, g, ops[1].data.datas)
    case MatmulFn => Matmul(g, ops[1].data).1
    case AddScalarFn => Ok(g)
    case SubScalarFn => Ok(g)
    case MulScalarFn(k) => Scalar(Times, g, k)
    case DivScalarFn(k) => Scalar(Divide, g, k)
  }

  /** The array the closure adds to (or subtracts from) the right operand's gradient. */
  function RightDelta(fn: GradFn, g: Arr, ops: seq<Operand>): Result<Arr, Fault>
    requires |ops| == Arity(fn) == 2 && Valid(g) && ValidOperands(ops)
  {
    match fn
    case MulFn => Combine(Times, g, ops[0].data.datas)
    case DivFn =>
      var num := Combine(Times, g, ops[0].data.datas);
      var den := Combine(Times, ops[1].data, ops[1].data.datas);
      if num.Err? then num
      else if den.Err? then den
      else Combine(Divide, num.value, den.value.datas)
    case MatmulFn =>
      var tr := Transpose(ops[0].data);
      if tr.Err? then tr else Matmul(tr.value, g).1
    case _ => Ok(g)
  }

  /** Sub and Div subtract from the right operand's gradient; the others add. */
  function RightOp(fn: GradFn): Op
  {
    if fn.SubFn? || fn.DivFn? then Minus else Plus
  }

  /**
   * One call of the gradient function: the left copy first, then the right one,
   * each only when its flag is set; an exception from the left part leaves the
   * right copy as it was.
   */
  function RunGradFn(fn: GradFn, g: Arr, ops: seq<Operand>): (r: (seq<Operand>, Option<Fault>))
    requires |ops| == Arity(fn) && Valid(g) && ValidOperands(ops)
    ensures |r.0| == |ops| && ValidOperands(r.0)
    ensures forall i :: 0 <= i < |ops| ==>
      r.0[i].data == ops[i].data && r.0[i].requiresGrad == ops[i].requiresGrad &&
      r.0[i].grad.shape == ops[i].grad.shape && r.0[i].grad.strides == ops[i].grad.strides &&
      |r.0[i].grad.datas| == |ops[i].grad.datas|
    ensures forall i :: 0 <= i < |ops| && !ops[i].requiresGrad ==> r.0[i] == ops[i]
  {
    var t := ops[0];
    var left := if t.requiresGrad then Accumulate(Plus, t.grad, LeftDelta(fn, g, ops)) else (t.grad, None);
    var ops1 := ops[0 := t.(grad := left.0)];
    if left.1.Some? || |ops| == 1 then (ops1, left.1)
    else
      var o := ops[1];
      var right := if o.requiresGrad then Accumulate(RightOp(fn), o.grad, RightDelta(fn, g, ops)) else (o.grad, None);
      (ops1[1 := o.(grad := right.0)], right.1)
  }

  /** The seed backward gives a tensor without gradient function: ones with the data's shape and strides. */
  function Seed(t: Operand): (r: Arr)
    ensures r.shape == t.data.shape && r.strides == t.data.strides && |r.datas| == Product(t.data.shape)
    ensures forall i :: 0 <= i < |r.datas| ==> r.datas[i] == 1
  {
    Arr(t.data.shape, t.data.strides, Broadcast(1, Product(t.data.shape)))
  }

  /** Tensor::backward on a tensor without gradient function: seed an empty gradient, nothing else. */
  function LeafBackward(t: Operand): (r: Operand)
    ensures r.data == t.data && r.requiresGrad == t.requiresGrad
    ensures r.grad != t.grad ==> t.requiresGrad && |t.grad.datas| == 0 && r.grad == Seed(t)
  {
    if t.requiresGrad && |t.grad.datas| == 0 then t.(grad := Seed(t)) else t
  }

  function LeavesBackward(ops: seq<Operand>): (r: seq<Operand>)
    ensures |r| == |ops| && forall i :: 0 <= i < |ops| ==> r[i] == LeafBackward(ops[i])
  {
    seq(|ops|, i requires 0 <= i < |ops| => LeafBackward(ops[i]))
  }

  /**
   * Tensor::backward: nothing without the flag; a seed when there is no gradient
   * function and the gradient is empty; the gradient function, called with the
   * tensor's own data; then backward on every previous tensor that requires
   * grad.  An exception ends the walk where it arises.
   */
  function BackwardSpec(self: Operand, fn: Option<GradFn>, prevs: seq<Operand>): (r: (Operand, seq<Operand>, Option<Fault>))
    requires fn.Some? ==> |prevs| == Arity(fn.value) && Valid(self.data) && ValidOperands(prevs)
    ensures r.0.data == self.data && r.0.requiresGrad == self.requiresGrad && |r.1| == |prevs|
    ensures !self.requiresGrad ==> r == (self, prevs, None)
    ensures fn.Some? ==> r.0 == self
    ensures fn.None? ==> r.2 == None
  {
    if !self.requiresGrad then (self, prevs, None)
    else
      var self1 := if fn.None? then LeafBackward(self) else self;
      var run := if fn.Some? then RunGradFn(fn.value, self.data, prevs) else (prevs, None);
      if run.1.Some? then (self1, run.0, run.1)
      else (self1, LeavesBackward(run.0), None)
  }

  /**
   * The Add and Sub closures: each tracked copy's gradient moves by the upstream
   * array element by element, by +g on the left and by +g (Add) or -g (Sub) on
   * the right.
   */
  lemma AddSubClosure(fn: GradFn, g: Arr, ops: seq<Operand>)
    requires fn == AddFn || fn == SubFn
    requires |ops| == 2 && Valid(g) && ValidOperands(ops)
    requires ops[0].requiresGrad && ops[1].requiresGrad
    requires |ops[0].grad.datas| <= |g.datas| && |ops[1].grad.datas| <= |g.datas|
    ensures RunGradFn(fn, g, ops).1 == None
    ensures forall i :: 0 <= i < |ops[0].grad.datas| ==>
      RunGradFn(fn, g, ops).0[0].grad.datas[i] == ops[0].grad.datas[i] + g.datas[i]
    ensures forall i :: 0 <= i < |ops[1].grad.datas| ==>
      RunGradFn(fn, g, ops).0[1].grad.datas[i] ==
        if fn == AddFn then ops[1].grad.datas[i] + g.datas[i] else ops[1].grad.datas[i] - g.datas[i]
  {
    InPlaceOk(Plus, ops[0].grad.datas, g.datas);
    InPlaceOk(RightOp(fn), ops[1].grad.datas, g.datas);
  }

  /** The Mul closure: the left gradient gains g * right data, the right one g * left data. */
  lemma MulClosure(g: Arr, ops: seq<Operand>)
    requires |ops| == 2 && Valid(g) && ValidOperands(ops)
    requires ops[0].requiresGrad && ops[1].requiresGrad
    requires |g.datas| <= |ops[0].data.datas| && |g.datas| <= |ops[1].data.datas|
    requires |ops[0].grad.datas| <= |g.datas| && |ops[1].grad.datas| <= |g.datas|
    ensures RunGradFn(MulFn, g, ops).1 == None
    ensures forall i :: 0 <= i < |ops[0].grad.datas| ==>
      RunGradFn(MulFn, g, ops).0[0].grad.datas[i] == ops[0].grad.datas[i] + g.datas[i] * ops[1].data.datas[i]
    ensures forall i :: 0 <= i < |ops[1].grad.datas| ==>
      RunGradFn(MulFn, g, ops).0[1].grad.datas[i] == ops[1].grad.datas[i] + g.datas[i] * ops[0].data.datas[i]
  {
    var l := Combine(Times, g, ops[1].data.datas);
    var r := Combine(Times, g, ops[0].data.datas);
    CombineOk(Times, g, ops[1].data.datas);
    CombineOk(Times, g, ops[0].data.datas);
    InPlaceOk(Plus, ops[0].grad.datas, l.value.datas);
    InPlaceOk(Plus, ops[1].grad.datas, r.value.datas);
  }

  /**
   * The Div closure: the left gradient gains g / right, the right one loses
   * (g * left) / (right * right), both with C++'s truncating division.
   */
  lemma DivClosure(g: Arr, ops: seq<Operand>)
    requires |ops| == 2 && Valid(g) && ValidOperands(ops)
    requires ops[0].requiresGrad && ops[1].requiresGrad
    requires |g.datas| <= |ops[0].data.datas| && |g.datas| <= |ops[1].data.datas|
    requires forall i :: 0 <= i < |g.datas| ==> ops[1].data.datas[i] != 0
    requires |ops[0].grad.datas| <= |g.datas| && |ops[1].grad.datas| <= |g.datas|
    ensures RunGradFn(DivFn, g, ops).1 == None
    ensures forall i :: 0 <= i < |ops[0].grad.datas| ==>
      RunGradFn(DivFn, g, ops).0[0].grad.datas[i] ==
        ops[0].grad.datas[i] + TruncDiv(g.datas[i], ops[1].data.datas[i])
    ensures forall i :: 0 <= i < |ops[1].grad.datas| ==>
      RunGradFn(DivFn, g, ops).0[1].grad.datas[i] ==
        ops[1].grad.datas[i] - TruncDiv(g.datas[i] * ops[0].data.datas[i], ops[1].data.datas[i] * ops[1].data.datas[i])
  {
    var b := ops[1].data;
    var l := Combine(Divide, g, b.datas);
    CombineOk(Divide, g, b.datas);
    InPlaceOk(Plus, ops[0].grad.datas, l.value.datas);
    var num := Combine(Times, g, ops[0].data.datas);
    var den := Combine(Times, b, b.datas);
    CombineOk(Times, g, ops[0].data.datas);
    CombineOk(Times, b, b.datas);
    forall i | 0 <= i < |g.datas| ensures den.value.datas[i] != 0 {
      MulNonZero(b.datas[i]);
    }
    var q := Combine(Divide, num.value, den.value.datas);
    CombineOk(Divide, num.value, den.value.datas);
    InPlaceOk(Minus, ops[1].grad.datas, q.value.datas);
  }

  lemma MulNonZero(x: int)
    requires x != 0
    ensures x * x != 0
  {
    if x > 0 { MulPositive(x, x); } else { MulPositive(-x, -x); }
  }

  /**
   * The scalar closures: `+ k` and `- k` pass g on unchanged, `* k` passes
   * g * k and `/ k` passes g / k (truncating); an untracked copy gets nothing.
   */
  lemma ScalarClosure(fn: GradFn, g: Arr, t: Operand)
    requires fn.AddScalarFn? || fn.SubScalarFn? || fn.MulScalarFn? || fn.DivScalarFn?
    requires Valid(g) && Valid(t.data) && t.requiresGrad && |t.grad.datas| <= |g.datas|
    requires fn.DivScalarFn? ==> fn.k != 0
    ensures RunGradFn(fn, g, [t]).1 == None
    ensures forall i :: 0 <= i < |t.grad.datas| ==>
      RunGradFn(fn, g, [t]).0[0].grad.datas[i] == t.grad.datas[i] +
        match fn
        case MulScalarFn(k) => g.datas[i] * k
        case DivScalarFn(k) => TruncDiv(g.datas[i], k)
        case _ => g.datas[i]
  {
    if fn.MulScalarFn? || fn.DivScalarFn? {
      var op := if fn.MulScalarFn? then Times else Divide;
      ScalarOk(op, g, fn.k);
      InPlaceOk(Plus, t.grad.datas, Scalar(op, g, fn.k).value.datas);
    } else {
      InPlaceOk(Plus, t.grad.datas, g.datas);
    }
  }

  /**
   * The Matmul closure on its left copy: the gradient gains the product of the
   * upstream matrix and the right operand's data.
   */
  lemma MatmulClosureLeft(g: Arr, ops: seq<Operand>)
    requires |ops| == 2 && Valid(g) && ValidOperands(ops) && ops[0].requiresGrad
    requires |g.shape| == 2 && |ops[1].data.shape| == 2 && g.shape[1] == ops[1].data.shape[0]
    requires |ops[0].grad.datas| <= g.shape[0] * ops[1].data.shape[1]
    ensures RunGradFn(MatmulFn, g, ops).0[0].grad.datas ==
      InPlace(Plus, ops[0].grad.datas, Product2D(g, ops[1].data).datas).0
    ensures !ops[1].requiresGrad ==> RunGradFn(MatmulFn, g, ops).1 == None
  {
    MatmulMatrices(g, ops[1].data);
    InPlaceOk(Plus, ops[0].grad.datas, Product2D(g, ops[1].data).datas);
  }

  /**
   * The Matmul closure on its right copy: the gradient gains
   * `transpose().matmul(grad)` of the left operand.  TensorArray::transpose
   * writes `result({i, j})`, so on a square left matrix it returns the same
   * matrix and the gradient gains A G rather than the transpose of A times G.
   * When the left copy is tracked too, its gradient first gains G B as in
   * MatmulClosureLeft, and the two updates together raise nothing.
   */
  lemma MatmulClosureRight(g: Arr, ops: seq<Operand>, m: nat)
    requires |ops| == 2 && Valid(g) && ValidOperands(ops) && ops[1].requiresGrad
    requires ops[0].data.shape == [m, m] && Dense(ops[0].data.strides, m) && |g.shape| == 2 && g.shape[0] == m
    requires |ops[1].grad.datas| <= m * g.shape[1]
    requires ops[0].requiresGrad ==>
      |ops[1].data.shape| == 2 && g.shape[1] == ops[1].data.shape[0] &&
      |ops[0].grad.datas| <= m * ops[1].data.shape[1]
    ensures RunGradFn(MatmulFn, g, ops).1 == None
    ensures !ops[0].requiresGrad ==> RunGradFn(MatmulFn, g, ops).0[0] == ops[0]
    ensures ops[0].requiresGrad ==>
      RunGradFn(MatmulFn, g, ops).0[0].grad.datas == InPlace(Plus, ops[0].grad.datas, Product2D(g, ops[1].data).datas).0
    ensures RunGradFn(MatmulFn, g, ops).0[1].grad.datas ==
      InPlace(Plus, ops[1].grad.datas, Product2D(ops[0].data, g).datas).0
  {
    if ops[0].requiresGrad {
      MatmulClosureLeft(g, ops);
    }
    TransposeSquareReadsSame(ops[0].data, m);
    var t := Transpose(ops[0].data).value;
    ProductSameCells(t, ops[0].data, g);
    MatmulMatrices(t, g);
    InPlaceOk(Plus, ops[1].grad.datas, Product2D(t, g).datas);
  }

  /**
   * On a non-square, non-empty left matrix the right part of the Matmul closure
   * raises out_of_range from `transpose()` and leaves the right gradient as it
   * was, after the left part has already updated the left gradient.
   */
  lemma MatmulClosureRightFaults(g: Arr, ops: seq<Operand>)
    requires |ops| == 2 && Valid(g) && ValidOperands(ops) && ops[1].requiresGrad
    requires |ops[0].data.shape| == 2 && ops[0].data.shape[0] != ops[0].data.shape[1]
    requires ops[0].data.shape[0] > 0 && ops[0].data.shape[1] > 0
    ensures var left := if ops[0].requiresGrad then Accumulate(Plus, ops[0].grad, LeftDelta(MatmulFn, g, ops)) else (ops[0].grad, None);
      RunGradFn(MatmulFn, g, ops).0[0].grad == left.0 &&
      RunGradFn(MatmulFn, g, ops).0[1] == ops[1] &&
      RunGradFn(MatmulFn, g, ops).1 == (if left.1.Some? then left.1 else Some(OutOfRange))
  {
    TransposeOk(ops[0].data);
  }

  /**
   * backward on a result whose copies are both tracked and whose upstream array
   * is at least as long as their gradients runs the closure without fault and
   * then leaves every copy's non-empty gradient as the closure wrote it.
   */
  lemma BackwardAfterAdd(self: Operand, prevs: seq<Operand>)
    requires self.requiresGrad && |prevs| == 2 && Valid(self.data) && ValidOperands(prevs)
    requires prevs[0].requiresGrad && prevs[1].requiresGrad
    requires forall i :: 0 <= i < 2 ==> 0 < |prevs[i].grad.datas| <= |self.data.datas|
    ensures BackwardSpec(self, Some(AddFn), prevs) ==
      (self, RunGradFn(AddFn, self.data, prevs).0, None)
  {
    AddSubClosure(AddFn, self.data, prevs);
    var run := RunGradFn(AddFn, self.data, prevs);
    assert LeavesBackward(run.0) == run.0;
  }

  /** The seed backward gives a tracked tensor without gradient function and with an empty gradient. */
  lemma BackwardSeedsLeaf(self: Operand)
    requires self.requiresGrad && |self.grad.datas| == 0
    ensures BackwardSpec(self, None, []).0.grad.shape == self.data.shape
    ensures BackwardSpec(self, None, []).0.grad.strides == self.data.strides
    ensures BackwardSpec(self, None, []).0.grad.datas == Broadcast(1, Product(self.data.shape))
  {
  }

  /** The states of a sequence of tensors, in order. */
  function StatesOf(ts: seq<Tensor>): (r: seq<Operand>)
    reads ts
    ensures |r| == |ts| && forall i :: 0 <= i < |ts| ==> r[i] == ts[i].State()
  {
    if ts == [] then [] else [ts[0].State()] + StatesOf(ts[1..])
  }

  class Tensor {
    var data: Arr
    var grad: Arr
    var requiresGrad: bool
    var gradFn: Option<GradFn>
    var previous: seq<Tensor>

    function State(): Operand
      reads this
    {
      Operand(data, grad, requiresGrad)
    }

    /**
     * The data fit their shape; only the result of an operation has a gradient
     * function, and its previous tensors are distinct operand copies without
     * gradient function or previous tensors of their own.
     */
    ghost predicate Valid()
      reads this, previous
    {
      StridedArray.Valid(data) &&
      (gradFn.None? ==> previous == []) &&
      (gradFn.Some? ==> |previous| == Arity(gradFn.value)) &&
      (forall i :: 0 <= i < |previous| ==>
        previous[i] != this && previous[i].gradFn.None? && previous[i].previous == [] &&
        StridedArray.Valid(previous[i].data)) &&
      (forall i, j :: 0 <= i < j < |previous| ==> previous[i] != previous[j])
    }

    /** `Tensor(shape)`: data and gradient from the one-argument shape constructor, whose fill is `init`. */
    constructor OfShape(s: seq<nat>, init: Fill, flag: bool)
      ensures data == Arr(s, RowMajor(s), seq(Product(s), i requires 0 <= i => FillValue(init, i)))
      ensures grad == data && requiresGrad == flag && gradFn == None && previous == []
      ensures Valid()
    {
      var d := seq(Product(s), i requires 0 <= i => FillValue(init, i));
      RowMajorValid(s, d);
      data := Arr(s, RowMajor(s), d);
      grad := data;
      requiresGrad := flag;
      gradFn := None;
      previous := [];
    }

    /** The copy constructor: data and gradient only. */
    constructor Copy(t: Tensor, flag: bool)
      requires t.Valid()
      ensures data == t.data && grad == t.grad && requiresGrad == flag
      ensures gradFn == None && previous == [] && Valid()
    {
      data := t.data;
      grad := t.grad;
      requiresGrad := flag;
      gradFn := None;
      previous := [];
    }

    /** `Tensor(const TensorArray &)`: a zero gradient with the data's shape and strides. */
    constructor OfArray(a: Arr, flag: bool)
      requires StridedArray.Valid(a)
      ensures data == a && grad == ZerosLike(a) && requiresGrad == flag
      ensures gradFn == None && previous == [] && Valid()
    {
      data := a;
      grad := ZerosLike(a);
      requiresGrad := flag;
      gradFn := None;
      previous := [];
    }

    /** `Tensor(data, requiresGrad)`: a zero gradient, cleared again by zeroGrad when tracked. */
    constructor WithFlag(a: Arr, req: bool)
      requires StridedArray.Valid(a)
      ensures data == a && grad == ZerosLike(a) && requiresGrad == req
      ensures gradFn == None && previous == [] && Valid()
    {
      data := a;
      grad := ZerosLike(a);
      requiresGrad := req;
      gradFn := None;
      previous := [];
      new;
      if req {
        ZeroGrad();
        assert grad.datas == ZerosLike(a).datas;
      }
    }

    /** createWithGrad: a tracked tensor with zero gradient, the operand copies and the closure. */
    constructor CreateWithGrad(d: Arr, prev: seq<Tensor>, fn: GradFn)
      requires StridedArray.Valid(d) && |prev| == Arity(fn)
      requires forall i :: 0 <= i < |prev| ==>
        prev[i].gradFn.None? && prev[i].previous == [] && StridedArray.Valid(prev[i].data)
      requires forall i, j :: 0 <= i < j < |prev| ==> prev[i] != prev[j]
      ensures data == d && grad == ZerosLike(d) && requiresGrad
      ensures gradFn == Some(fn) && previous == prev && Valid()
    {
      data := d;
      grad := ZerosLike(d);
      requiresGrad := true;
      gradFn := Some(fn);
      previous := prev;
    }

    /** Tensor::zeroGrad: zeros over the gradient buffer, only when tracked. */
    method ZeroGrad()
      modifies this
      ensures data == old(data) && requiresGrad == old(requiresGrad)
      ensures gradFn == old(gradFn) && previous == old(previous)
      ensures grad == if requiresGrad then old(grad).(datas := Broadcast(0, |old(grad.datas)|)) else old(grad)
    {
      if requiresGrad {
        grad := grad.(datas := Broadcast(0, |grad.datas|));
      }
    }

    /** The copy assignment: data and gradient only; the flag and the closure stay. */
    method Assign(oth: Tensor)
      requires Valid() && oth.Valid()
      modifies this
      ensures data == old(oth.data) && grad == old(oth.grad)
      ensures requiresGrad == old(requiresGrad) && gradFn == old(gradFn) && previous == old(previous)
      ensures Valid()
    {
      data, grad := oth.data, oth.grad;
    }

    /** The elementwise operation of the closure's forward pass. */
    static function ForwardOp(fn: GradFn): Op
    {
      match fn
      case SubFn => Minus
      case MulFn => Times
      case DivFn => Divide
      case SubScalarFn => Minus
      case MulScalarFn(_) => Times
      case DivScalarFn(_) => Divide
      case _ => Plus
    }

    /**
     * Tensor's `+ - * /` with another tensor: the elementwise result; an
     * untracked plain tensor when neither operand requires grad, otherwise
     * createWithGrad with copies of both operands.
     */
    method Operate(oth: Tensor, fn: GradFn, flag: bool) returns (r: Result<Tensor, Fault>)
      requires fn.AddFn? || fn.SubFn? || fn.MulFn? || fn.DivFn?
      requires Valid() && oth.Valid()
      ensures var res := Combine(ForwardOp(fn), data, oth.data.datas);
        r.Ok? <==> res.Ok? && (r.Ok? ==> fresh(r.value) && r.value.Valid() && r.value.data == res.value)
      ensures r.Ok? && !requiresGrad && !oth.requiresGrad ==>
        !r.value.requiresGrad && r.value.gradFn == None && r.value.previous == []
      ensures r.Ok? && (requiresGrad || oth.requiresGrad) ==>
        r.value.requiresGrad && r.value.gradFn == Some(fn) && |r.value.previous| == 2 &&
        fresh(r.value.previous[0]) && fresh(r.value.previous[1]) &&
        StatesOf(r.value.previous) == [Operand(data, grad, flag), Operand(oth.data, oth.grad, flag)]
    {
      var res := Combine(ForwardOp(fn), data, oth.data.datas);
      if res.Err? { return Err(res.error); }
      if !requiresGrad && !oth.requiresGrad {
        var t := new Tensor.WithFlag(res.value, false);
        return Ok(t);
      }
      var t := Tracked(res.value, this, oth, fn, flag);
      return Ok(t);
    }

    /** `createWithGrad(result, {copy of a, copy of b}, closure)` for an operation with two operands. */
    static method Tracked(d: Arr, a: Tensor, b: Tensor, fn: GradFn, flag: bool) returns (t: Tensor)
      requires StridedArray.Valid(d) && Arity(fn) == 2 && a.Valid() && b.Valid()
      ensures fresh(t) && t.Valid() && t.data == d && t.requiresGrad && t.gradFn == Some(fn)
      ensures |t.previous| == 2 && fresh(t.previous[0]) && fresh(t.previous[1])
      ensures StatesOf(t.previous) == [Operand(a.data, a.grad, flag), Operand(b.data, b.grad, flag)]
    {
      var aCopy := new Tensor.Copy(a, flag);
      var bCopy := new Tensor.Copy(b, flag);
      t := new Tensor.CreateWithGrad(d, [aCopy, bCopy], fn);
    }

    /** The closure an operation with a scalar stores. */
    static function ScalarFn(op: Op, k: int): GradFn
    {
      match op
      case Plus => AddScalarFn
      case Minus => SubScalarFn
      case Times => MulScalarFn(k)
      case Divide => DivScalarFn(k)
    }

    /** Tensor's `+ - * /` with a scalar: tracked exactly when the receiver is. */
    method OperateScalar(op: Op, k: int, flag: bool) returns (r: Result<Tensor, Fault>)
      requires Valid()
      ensures var res := Scalar(op, data, k);
        r.Ok? <==> res.Ok? && (r.Ok? ==> fresh(r.value) && r.value.Valid() && r.value.data == res.value)
      ensures r.Ok? && !requiresGrad ==> !r.value.requiresGrad && r.value.gradFn == None
      ensures r.Ok? && requiresGrad ==>
        r.value.requiresGrad && r.value.gradFn == Some(ScalarFn(op, k)) && |r.value.previous| == 1 &&
        fresh(r.value.previous[0]) && StatesOf(r.value.previous) == [Operand(data, grad, flag)]
    {
      var res := Scalar(op, data, k);
      if res.Err? { return Err(res.error); }
      if !requiresGrad {
        var t := new Tensor.WithFlag(res.value, false);
        return Ok(t);
      }
      var thisCopy := new Tensor.Copy(this, flag);
      var t := new Tensor.CreateWithGrad(res.value, [thisCopy], ScalarFn(op, k));
      return Ok(t);
    }

    /**
     * Tensor::matmul: the receiver's data go through TensorArray::matmul (a 1-D
     * receiver is unsqueezed and, on success, restored), then the copies are
     * taken from the data as they are afterwards.
     */
    method Matmul(oth: Tensor, flag: bool) returns (r: Result<Tensor, Fault>)
      requires Valid() && oth.Valid()
      modifies this
      ensures var m := ArrayMatmul.Matmul(old(data), old(oth.data));
        data == m.0 && (r.Ok? <==> m.1.Ok?) && (r.Ok? ==> fresh(r.value) && r.value.Valid() && r.value.data == m.1.value)
      ensures grad == old(grad) && requiresGrad == old(requiresGrad) && gradFn == old(gradFn) && previous == old(previous)
      ensures r.Ok? && (requiresGrad || oth.requiresGrad) ==>
        r.value.requiresGrad && r.value.gradFn == Some(MatmulFn) && |r.value.previous| == 2 &&
        fresh(r.value.previous[0]) && fresh(r.value.previous[1]) &&
        StatesOf(r.value.previous) == [Operand(data, grad, flag), Operand(oth.data, oth.grad, flag)]
      ensures r.Ok? && !requiresGrad && !oth.requiresGrad ==> !r.value.requiresGrad && r.value.gradFn == None
    {
      var m := ArrayMatmul.Matmul(data, oth.data);
      data := m.0;
      if m.1.Err? { return Err(m.1.error); }
      if !requiresGrad && !oth.requiresGrad {
        var t := new Tensor.WithFlag(m.1.value, false);
        return Ok(t);
      }
      var t := Tracked(m.1.value, this, oth, MatmulFn, flag);
      return Ok(t);
    }

    /** The const `operator[]`: the flat element, or out_of_range. */
    method Item(idx: nat) returns (r: Result<int, Fault>)
      ensures r == Get(data, idx)
    {
      if idx >= |data.datas| { return Err(OutOfRange); }
      return Ok(data.datas[idx]);
    }

    /**
     * Tensor::backward, proved against BackwardSpec.  The previous tensors are
     * copies without previous tensors, so the recursion is one level deep.
     */
    method Backward() returns (fault: Option<Fault>)
      requires Valid()
      modifies this, previous
      decreases |previous|, 2
      ensures Valid() && previous == old(previous) && gradFn == old(gradFn)
      ensures var r := BackwardSpec(old(State()), old(gradFn), old(StatesOf(previous)));
        State() == r.0 && StatesOf(previous) == r.1 && fault == r.2
    {
      if !requiresGrad { return None; }
      if gradFn.None? && |grad.datas| == 0 {
        grad := Seed(State());
      }
      if gradFn.Some? {
        fault := RunClosure();
        if fault.Some? { return; }
      }
      BackwardPrevious();
      return None;
    }

    /** `_gradFn(*this)`: the closure writes the gradients of the operand copies. */
    method RunClosure() returns (fault: Option<Fault>)
      requires Valid() && gradFn.Some?
      modifies previous
      ensures Valid()
      ensures var run := RunGradFn(gradFn.value, data, old(StatesOf(previous)));
        StatesOf(previous) == run.0 && fault == run.1
    {
      var run := RunGradFn(gradFn.value, data, StatesOf(previous));
      previous[0].grad := run.0[0].grad;
      if |previous| == 2 { previous[1].grad := run.0[1].grad; }
      assert forall i :: 0 <= i < |previous| ==>
        (previous[i].data == old(previous[i].data) && previous[i].gradFn == old(previous[i].gradFn) &&
         previous[i].previous == old(previous[i].previous));
      assert StatesOf(previous) == run.0;
      return run.1;
    }

    /** The loop of Tensor::backward over `_previous`: backward on each copy that requires grad. */
    method BackwardPrevious()
      requires Valid()
      modifies previous
      decreases |previous|, 1
      ensures Valid()
      ensures StatesOf(previous) == LeavesBackward(old(StatesOf(previous)))
    {
      ghost var mid := StatesOf(previous);
      var i := 0;
      while i < |previous|
        invariant i <= |previous| && Valid()
        invariant forall j :: 0 <= j < |previous| ==>
          previous[j].State() == if j < i then LeafBackward(mid[j]) else mid[j]
      {
        BackwardAt(i);
        i := i + 1;
      }
      assert StatesOf(previous) == LeavesBackward(mid);
    }

    /** One step of that loop: backward on the copy at position i when it requires grad. */
    method BackwardAt(i: nat)
      requires Valid() && i < |previous|
      modifies previous[i]
      decreases |previous|, 0
      ensures Valid()
      ensures previous[i].State() == LeafBackward(old(previous[i].State()))
    {
      var p := previous[i];
      if p.requiresGrad {
        var f := p.Backward();
        assert f == None;
      }
    }
  }
}
