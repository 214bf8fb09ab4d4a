/**
 * The element-by-element operations of `lava::TensorArray`: tensor with tensor,
 * tensor with scalar, and their in-place forms.  Each walks the receiver's buffer
 * from index 0 and stops at the first step that raises.
 */
module ArrayOps {
  import opened Wrappers
  import opened StridedArray

  /** std::plus, std::minus, std::multiplies and the checked division of the operators. */
  datatype Op = Plus | Minus | Times | Divide

  function Abs(x: int): int { if x < 0 then -x else x }

  /** C++ integer division: the quotient is truncated toward zero, so the remainder has the sign of x. */
  function TruncDiv(x: int, y: int): (q: int)
    requires y != 0
    ensures x >= 0 ==> 0 <= x - q * y < Abs(y)
    ensures x < 0 ==> -Abs(y) < x - q * y <= 0
  {
    var m := Abs(x) / Abs(y);
    QuotientSigns(x, y, m);
    if (x < 0) == (y < 0) then m else -m
  }

  lemma QuotientSigns(x: int, y: int, m: int)
    requires y != 0 && m == Abs(x) / Abs(y)
    ensures var q := if (x < 0) == (y < 0) then m else -m;
      (x >= 0 ==> 0 <= x - q * y < Abs(y)) && (x < 0 ==> -Abs(y) < x - q * y <= 0)
  {
    var ax, ay := Abs(x), Abs(y);
    var r := ax % ay;
    assert ax == m * ay + r && 0 <= r < ay;
    var q := if (x < 0) == (y < 0) then m else -m;
    assert q * y == (if x >= 0 then m * ay else -(m * ay)) by {
      if y < 0 { assert y == -ay; assert q * y == (-q) * ay; }
    }
    assert x - q * y == (if x >= 0 then r else -r);
  }

  /** One application of the operation; the division lambda raises on a zero divisor. */
  function Apply(op: Op, x: int, y: int): (r: Result<int, Fault>)
    ensures r.Err? <==> op == Divide && y == 0
  {
    match op
    case Plus => Ok(x + y)
    case Minus => Ok(x - y)
    case Times => Ok(x * y)
    case Divide => if y == 0 then Err(DivisionByZero) else Ok(TruncDiv(x, y))
  }

  /**
   * What step i of the loop raises, in the order C++17 evaluates
   * `newTensor[i] = func(this[i], oth[i])`: the operand read, the operation,
   * then the write into a result holding `cap` elements.
   */
  function StepFault(op: Op, xs: seq<int>, ys: seq<int>, cap: nat, i: nat): Option<Fault>
    requires i < |xs|
  {
    if i >= |ys| then Some(OutOfRange)
    else if op == Divide && ys[i] == 0 then Some(DivisionByZero)
    else if i >= cap then Some(OutOfRange)
    else None
  }

  /** The first step at or after `from` that raises, or |xs| when none does. */
  function FirstFault(op: Op, xs: seq<int>, ys: seq<int>, cap: nat, from: nat): (n: nat)
    requires from <= |xs|
    ensures from <= n <= |xs|
    ensures forall i :: from <= i < n ==> StepFault(op, xs, ys, cap, i) == None
    ensures n < |xs| ==> StepFault(op, xs, ys, cap, n).Some?
    decreases |xs| - from
  {
    if from == |xs| then from
    else if StepFault(op, xs, ys, cap, from).Some? then from
    else FirstFault(op, xs, ys, cap, from + 1)
  }

  /** No step of the loop raises. */
  predicate Succeeds(op: Op, xs: seq<int>, ys: seq<int>, cap: nat)
  {
    |xs| <= |ys| && |xs| <= cap && (op == Divide ==> forall i :: 0 <= i < |xs| ==> ys[i] != 0)
  }

  lemma FirstFaultSucceeds(op: Op, xs: seq<int>, ys: seq<int>, cap: nat)
    ensures FirstFault(op, xs, ys, cap, 0) == |xs| <==> Succeeds(op, xs, ys, cap)
  {
    var n := FirstFault(op, xs, ys, cap, 0);
    if n == |xs| {
      assert |ys| < |xs| ==> StepFault(op, xs, ys, cap, |ys|).Some?;
      assert cap < |xs| ==> StepFault(op, xs, ys, cap, cap).Some?;
      if op == Divide {
        forall i | 0 <= i < |xs| ensures ys[i] != 0 { assert StepFault(op, xs, ys, cap, i) == None; }
      }
    }
  }

  /**
   * TensorArray::_tensorOperation: a new array with the receiver's shape and
   * strides, zero-filled, whose first |a.datas| elements are computed from the
   * receiver and the operand buffer `ys`; the shapes themselves are not compared.
   */
  function Combine(op: Op, a: Arr, ys: seq<int>): (r: Result<Arr, Fault>)
    ensures r.Ok? ==> r.value.shape == a.shape && r.value.strides == a.strides
    ensures r.Ok? ==> |r.value.datas| == Product(a.shape)
    ensures r.Ok? && Valid(a) ==> Valid(r.value)
  {
    var cap := Product(a.shape);
    var n := FirstFault(op, a.datas, ys, cap, 0);
    if n < |a.datas| then Err(StepFault(op, a.datas, ys, cap, n).value)
    else
      Ok(Arr(a.shape, a.strides,
        seq(cap, i requires 0 <= i < cap =>
          if i < |a.datas| then
            assert StepFault(op, a.datas, ys, cap, i) == None;
            Apply(op, a.datas[i], ys[i]).value
          else 0)))
  }

  /**
   * An element-by-element operation succeeds exactly when the operand holds at
   * least as many elements as the receiver's buffer, the buffer fits the
   * receiver's shape, and (for division) no divisor used is zero.
   */
  lemma CombineOk(op: Op, a: Arr, ys: seq<int>)
    ensures Combine(op, a, ys).Ok? <==> Succeeds(op, a.datas, ys, Product(a.shape))
    ensures Combine(op, a, ys).Ok? ==>
      forall i :: 0 <= i < |a.datas| ==> Ok(Combine(op, a, ys).value.datas[i]) == Apply(op, a.datas[i], ys[i])
  {
    FirstFaultSucceeds(op, a.datas, ys, Product(a.shape));
  }

  /** A failing operation reports the fault of its first failing element. */
  lemma CombineFault(op: Op, a: Arr, ys: seq<int>, n: nat)
    requires n < |a.datas| && StepFault(op, a.datas, ys, Product(a.shape), n).Some?
    requires forall i :: 0 <= i < n ==> StepFault(op, a.datas, ys, Product(a.shape), i) == None
    ensures Combine(op, a, ys) == Err(StepFault(op, a.datas, ys, Product(a.shape), n).value)
  {
    FirstFaultIs(op, a.datas, ys, Product(a.shape), n);
  }

  /** The first failing step is the one before which no step fails. */
  lemma FirstFaultIs(op: Op, xs: seq<int>, ys: seq<int>, cap: nat, n: nat)
    requires n <= |xs|
    requires forall i :: 0 <= i < n ==> StepFault(op, xs, ys, cap, i) == None
    requires n < |xs| ==> StepFault(op, xs, ys, cap, n).Some?
    ensures FirstFault(op, xs, ys, cap, 0) == n
  {
    var m := FirstFault(op, xs, ys, cap, 0);
  }

  /** TensorArray::_scalarOperation: the scalar takes the place of every operand element. */
  function Scalar(op: Op, a: Arr, k: int): (r: Result<Arr, Fault>)
  {
    Combine(op, a, Broadcast(k, |a.datas|))
  }

  /** The scalar repeated once per element. */
  function Broadcast(k: int, n: nat): (ys: seq<int>)
    ensures |ys| == n && forall i :: 0 <= i < n ==> ys[i] == k
  {
    seq(n, _ => k)
  }

  /** Dividing by the scalar 0 raises exactly when there is an element to divide. */
  lemma ScalarDivideByZero(a: Arr)
    requires |a.datas| <= Product(a.shape)
    ensures Scalar(Divide, a, 0).Err? <==> |a.datas| > 0
    ensures Scalar(Divide, a, 0).Err? ==> Scalar(Divide, a, 0).error == DivisionByZero
  {
    var ys := Broadcast(0, |a.datas|);
    CombineOk(Divide, a, ys);
    if |a.datas| > 0 {
      assert StepFault(Divide, a.datas, ys, Product(a.shape), 0) == Some(DivisionByZero);
      CombineFault(Divide, a, ys, 0);
    }
  }

  /** With no zero scalar divisor, every scalar operation on a valid array succeeds. */
  lemma ScalarOk(op: Op, a: Arr, k: int)
    requires Valid(a) && (op == Divide ==> k != 0)
    ensures Scalar(op, a, k).Ok?
    ensures forall i :: 0 <= i < |a.datas| ==> Ok(Scalar(op, a, k).value.datas[i]) == Apply(op, a.datas[i], k)
  {
    CombineOk(op, a, Broadcast(k, |a.datas|));
  }

  /**
   * TensorArray::_inPlaceTensorOperation: the receiver's buffer after the loop,
   * and the fault that ended it.  The elements before the failing step are
   * already overwritten when the exception leaves the loop.
   */
  function InPlace(op: Op, xs: seq<int>, ys: seq<int>): (r: (seq<int>, Option<Fault>))
    ensures |r.0| == |xs|
  {
    var n := FirstFault(op, xs, ys, |xs|, 0);
    (seq(|xs|, i requires 0 <= i < |xs| =>
       if i < n then
         assert StepFault(op, xs, ys, |xs|, i) == None;
         Apply(op, xs[i], ys[i]).value
       else xs[i]),
     if n < |xs| then StepFault(op, xs, ys, |xs|, n) else None)
  }

  /**
   * An in-place operation on a valid array fails exactly when the out-of-place one
   * does, and when it succeeds it leaves the buffer the out-of-place one returns.
   */
  lemma InPlaceAgrees(op: Op, a: Arr, ys: seq<int>)
    requires Valid(a)
    ensures InPlace(op, a.datas, ys).1.None? <==> Combine(op, a, ys).Ok?
    ensures Combine(op, a, ys).Ok? ==> InPlace(op, a.datas, ys).0 == Combine(op, a, ys).value.datas
    ensures InPlace(op, a.datas, ys).1.Some? ==> InPlace(op, a.datas, ys).1 == Some(Combine(op, a, ys).error)
  {
    var n := FirstFault(op, a.datas, ys, |a.datas|, 0);
    forall i | 0 <= i < n ensures StepFault(op, a.datas, ys, Product(a.shape), i) == None {
      assert StepFault(op, a.datas, ys, |a.datas|, i) == None;
    }
    FirstFaultIs(op, a.datas, ys, Product(a.shape), n);
  }

  /**
   * An in-place operation completes exactly when the operand is long enough and
   * (for division) holds no zero divisor, and then every element is combined.
   */
  lemma InPlaceOk(op: Op, xs: seq<int>, ys: seq<int>)
    ensures InPlace(op, xs, ys).1.None? <==> Succeeds(op, xs, ys, |xs|)
    ensures Succeeds(op, xs, ys, |xs|) ==>
      forall i :: 0 <= i < |xs| ==> Ok(InPlace(op, xs, ys).0[i]) == Apply(op, xs[i], ys[i])
  {
    FirstFaultSucceeds(op, xs, ys, |xs|);
  }

  /** Adding then subtracting the same operand gives back the receiver's elements. */
  lemma AddThenSubtract(a: Arr, ys: seq<int>)
    requires Valid(a) && |ys| >= |a.datas|
    ensures Combine(Plus, a, ys).Ok?
    ensures Combine(Minus, Combine(Plus, a, ys).value, ys) == Ok(a)
  {
    CombineOk(Plus, a, ys);
    var b := Combine(Plus, a, ys).value;
    CombineOk(Minus, b, ys);
    assert Combine(Minus, b, ys).value.datas == a.datas;
  }

  /** Multiplying by a non-zero scalar then dividing by it gives back the receiver. */
  lemma ScaleThenDivide(a: Arr, k: int)
    requires Valid(a) && k != 0
    ensures Scalar(Times, a, k).Ok?
    ensures Scalar(Divide, Scalar(Times, a, k).value, k) == Ok(a)
  {
    ScalarOk(Times, a, k);
    var b := Scalar(Times, a, k).value;
    ScalarOk(Divide, b, k);
    forall i | 0 <= i < |a.datas| ensures TruncDiv(a.datas[i] * k, k) == a.datas[i] {
      TruncDivExact(a.datas[i], k);
    }
    assert Scalar(Divide, b, k).value.datas == a.datas;
  }

  lemma TruncDivExact(x: int, k: int)
    requires k != 0
    ensures TruncDiv(x * k, k) == x
  {
    var q := TruncDiv(x * k, k);
    var r := x * k - q * k;
    assert r == (x - q) * k;
    if x - q > 0 { MulAtLeast(x - q, k); }
    if x - q < 0 { MulAtLeast(q - x, k); }
  }

  lemma MulAtLeast(d: int, k: int)
    requires d > 0 && k != 0
    ensures Abs(d * k) >= Abs(k)
  {
  }
}
