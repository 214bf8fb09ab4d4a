/**
 * The autograd nodes whose members change in place: the `_nextGrads` vector of
 * `lava::GradNode`, the persistent scratch arrays of `MMBackward`, the result
 * copy of `CrossEntropyLossBackward` and the mask loop of `ReLUBackward`.  Each
 * method's new state is the one GradNodes.LocalBackward gives the matching
 * variant, so the properties proved there hold of these objects too.
 */
module NodeObjects {
  import opened Wrappers
  import opened StridedArray
  import opened ArrayOps
  import opened MMScratch
  import opened GradNodes

  /** The link vector every node inherits. */
  class GradNode {
    var nextGrads: seq<Option<Node>>

    /** A fresh node has no link. */
    constructor()
      ensures nextGrads == []
    {
      nextGrads := [];
    }

    /** `addNextGrad`: one link appended at the end, the earlier links kept. */
    method AddNextGrad(next: Option<Node>)
      modifies this
      ensures nextGrads == old(nextGrads) + [next]
    {
      nextGrads := nextGrads + [next];
    }

    /** `getNextNodes`. */
    function GetNextNodes(): seq<Option<Node>>
      reads this
    {
      nextGrads
    }
  }

  /** One pass of the innermost loop body on the scratch arrays. */
  method Pass(a: Arr, b: Arr, t: Scratch, i: nat, j: nat, k: nat, dest: BIndex) returns (r: Scratch, fault: Option<Fault>)
    ensures (r, fault) == Step(a, b, t, i, j, k, dest)
  {
    r, fault := t, None;
    var vb := Checked(b, j, k);
    if vb.Err? {
      return r, Some(vb.error);
    }
    var ga := AddAt(r.gradA, i, j, vb.value);
    if ga.Err? {
      return r, Some(ga.error);
    }
    r := r.(gradA := ga.value);
    var va := Checked(a, i, j);
    if va.Err? {
      return r, Some(va.error);
    }
    var gb := AddAt(r.gradB, if dest == JK then j else i, if dest == JK then k else j, va.value);
    if gb.Err? {
      return r, Some(gb.error);
    }
    r := r.(gradB := gb.value);
  }

  /** One more pass of a loop that has raised nothing so far. */
  lemma LoopNext<S>(body: (S, nat) -> (S, Option<Fault>), s: S, n: nat)
    requires Loop(body, s, n).1.None?
    ensures Loop(body, s, n + 1) == body(Loop(body, s, n).0, n)
  {
  }

  /** The k loop at (i, j), stopping at the first exception. */
  method KLoop(a: Arr, b: Arr, s0: Scratch, i: nat, j: nat, dest: BIndex) returns (s: Scratch, fault: Option<Fault>)
    requires Fits(a, b)
    ensures (s, fault) == KRun(a, b, s0, i, j, b.shape[1], dest)
  {
    s := s0;
    var k := 0;
    while k < b.shape[1]
      invariant k <= b.shape[1] && KRun(a, b, s0, i, j, k, dest) == (s, None)
    {
      var t := s;
      s, fault := Pass(a, b, t, i, j, k, dest);
      if fault.Some? {
        LoopFaultsAt(KBody(a, b, i, j, dest), s0, k, b.shape[1]);
        return;
      }
      LoopNext(KBody(a, b, i, j, dest), s0, k);
      k := k + 1;
    }
    fault := None;
  }

  /** The j loop at row i: the k loop once per column of A. */
  method JLoop(a: Arr, b: Arr, s0: Scratch, i: nat, dest: BIndex) returns (s: Scratch, fault: Option<Fault>)
    requires Fits(a, b)
    ensures (s, fault) == JRun(a, b, s0, i, a.shape[1], dest)
  {
    s := s0;
    var j := 0;
    while j < a.shape[1]
      invariant j <= a.shape[1] && JRun(a, b, s0, i, j, dest) == (s, None)
    {
      s, fault := KLoop(a, b, s, i, j, dest);
      if fault.Some? {
        LoopFaultsAt(JBody(a, b, i, dest), s0, j, a.shape[1]);
        return;
      }
      LoopNext(JBody(a, b, i, dest), s0, j);
      j := j + 1;
    }
    fault := None;
  }

  /** The three nested loops on the scratch state `s0`, stopping at the first exception. */
  method Loops(a: Arr, b: Arr, s0: Scratch, dest: BIndex) returns (s: Scratch, fault: Option<Fault>)
    requires Fits(a, b)
    ensures (s, fault) == Run(a, b, s0, dest)
  {
    s := s0;
    var i := 0;
    while i < a.shape[0]
      invariant i <= a.shape[0] && IRun(a, b, s0, i, dest) == (s, None)
    {
      s, fault := JLoop(a, b, s, i, dest);
      if fault.Some? {
        LoopFaultsAt(IBody(a, b, dest), s0, i, a.shape[0]);
        return;
      }
      LoopNext(IBody(a, b, dest), s0, i);
      i := i + 1;
    }
    fault := None;
  }

  /** `lava::MMBackward` with its operand copies and its two persistent scratch arrays. */
  class MMBackward {
    var tensorACpy: Arr
    var tensorBCpy: Arr
    var newGradA: Arr
    var newGradB: Arr
    var nextGrads: seq<Option<Node>>

    /** The node's members as the variant value of GradNodes. */
    function State(): Kind
      reads this
    {
      MMB(tensorACpy, tensorBCpy, Scratch(newGradA, newGradB))
    }

    /** Copies of both operands, zero scratch arrays in their layouts, links [A's node, B's node]. */
    constructor(a: Arr, b: Arr, la: Option<Node>, lb: Option<Node>)
      ensures State() == MMNode(a, b, la, lb).kind && nextGrads == [la, lb]
    {
      tensorACpy, tensorBCpy := a, b;
      newGradA, newGradB := Zeros(a), Zeros(b);
      nextGrads := [la, lb];
    }

    /**
     * The triple loop: for i < A.shape[0], j < A.shape[1], k < B.shape[1],
     * `_newGradA({i, j}) += _tensorBCpy({j, k})` and `_newGradB(dest) += _tensorACpy({i, j})`.
     */
    method ScratchLoops(dest: BIndex) returns (fault: Option<Fault>)
      requires Fits(tensorACpy, tensorBCpy)
      modifies this
      ensures tensorACpy == old(tensorACpy) && tensorBCpy == old(tensorBCpy) && nextGrads == old(nextGrads)
      ensures (Scratch(newGradA, newGradB), fault) == Run(tensorACpy, tensorBCpy, old(Scratch(newGradA, newGradB)), dest)
    {
      var a, b := tensorACpy, tensorBCpy;
      var s0 := Scratch(newGradA, newGradB);
      var s: Scratch;
      s, fault := Loops(a, b, s0, dest);
      newGradA, newGradB := s.gradA, s.gradB;
    }

    /**
     * Either overload up to the calls on the links: the loops (writing the `{j, k}`
     * cell of `_newGradB` in backward(grad) and the `{i, j}` cell in backward()),
     * then the two messages, grad * scratch or the scratch itself.
     */
    method Backward(c: Call) returns (msgs: seq<Result<Arr, Fault>>, fault: Option<Fault>)
      requires Fits(tensorACpy, tensorBCpy)
      modifies this
      ensures nextGrads == old(nextGrads)
      ensures var l := LocalBackward(old(State()), c, []);
        State() == l.kind && msgs == l.msgs && fault == l.fault
    {
      fault := ScratchLoops(MMOrder(c));
      var left := if c.GradCall? then Combine(Times, c.grad, newGradA.datas) else Ok(newGradA);
      var right := if c.GradCall? then Combine(Times, c.grad, newGradB.datas) else Ok(newGradB);
      msgs := [left, right];
    }
  }

  /** `lava::CrossEntropyLossBackward`: a copy of the input data, decremented at the target on every call. */
  class CrossEntropyLossBackward {
    var res: Arr
    var targetIndex: nat
    var nextGrads: seq<Option<Node>>

    function State(): Kind
      reads this
    {
      CrossEntropyB(res, targetIndex)
    }

    constructor(input: Arr, t: nat, link: Option<Node>)
      ensures State() == CrossEntropyNode(input, t, link).kind && nextGrads == [link]
    {
      res, targetIndex := input, t;
      nextGrads := [link];
    }

    /** `_res[_targetIndex] -= 1` through the checked operator[], then `_res * grad` or `_res`. */
    method Backward(c: Call) returns (msg: Result<Arr, Fault>, fault: Option<Fault>)
      modifies this
      ensures nextGrads == old(nextGrads)
      ensures var l := LocalBackward(old(State()), c, []);
        State() == l.kind && [msg] == l.msgs && fault == l.fault
    {
      if targetIndex >= |res.datas| {
        return Err(OutOfRange), Some(OutOfRange);
      }
      res := res.(datas := res.datas[targetIndex := res.datas[targetIndex] - 1]);
      if c.GradCall? {
        msg := Combine(Times, res, c.grad.datas);
      } else {
        msg := Ok(res);
      }
      fault := None;
    }
  }

  /** `lava::ReLUBackward`: the constructor turns its copy of the input into the 0/1 mask in place. */
  class ReLUBackward {
    var reluRes: Arr
    var nextGrads: seq<Option<Node>>

    constructor(input: Arr, link: Option<Node>)
      ensures ReLUB(reluRes) == ReLUNode(input, link).kind && nextGrads == [link]
    {
      var d := input.datas;
      var i := 0;
      while i < |d|
        invariant i <= |d| == |input.datas|
        invariant forall x :: 0 <= x < i ==> d[x] == (if input.datas[x] > 0 then 1 else 0)
        invariant forall x :: i <= x < |d| ==> d[x] == input.datas[x]
      {
        d := d[i := if d[i] > 0 then 1 else 0];
        i := i + 1;
      }
      reluRes := input.(datas := d);
      nextGrads := [link];
    }
  }
}
