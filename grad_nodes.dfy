/**
 * The node-based autograd of lib/Tensor/autograd: a `lava::GradNode` holds a
 * vector of optional links to the nodes of its operands, and each variant
 * forwards a locally derived gradient array to every present link.  The graph is
 * a tree of values here: a node's persistent members (the MM scratch arrays, the
 * cross-entropy result) are part of its value, and a call returns the node with
 * its new members.  The leaf tensors whose `grad` an AccumulateBackward node
 * writes through its reference are a table of gradient arrays, indexed by leaf.
 */
module GradNodes {
  import opened Wrappers
  import opened StridedArray
  import opened ArrayOps
  import opened MMScratch

  /** The variants and the members each one keeps. */
  datatype Kind =
    | Accumulate(leaf: nat)
    | AddB(ones: Arr)
    | SubB(ones: Arr)
    | MulB(aCopy: Arr, bCopy: Arr)
    | MMB(aCopy: Arr, bCopy: Arr, scratch: Scratch)
    | SumB(ones: Arr)
    | ReLUB(mask: Arr)
    | CrossEntropyB(res: Arr, target: nat)
    | SoftmaxB(res: Arr)

  /** A node and its `_nextGrads`; `None` is a null link. */
  datatype Node = Node(kind: Kind, next: seq<Option<Node>>)

  /** `backward(grad)` or `backward()`. */
  datatype Call = GradCall(grad: Arr) | PlainCall

  /** What a call leaves behind: the node with its members, the leaf gradients, the exception raised. */
  datatype Outcome = Outcome(node: Node, leaves: seq<Arr>, fault: Option<Fault>)

  /** How many links the constructor of each variant pushes. */
  function Arity(k: Kind): nat
  {
    match k
    case Accumulate(_) => 0
    case AddB(_) => 2
    case SubB(_) => 2
    case MulB(_, _) => 2
    case MMB(_, _, _) => 2
    case SumB(_) => 1
    case ReLUB(_) => 1
    case CrossEntropyB(_, _) => 1
    case SoftmaxB(_) => 0
  }

  /** The members of a variant fit a table of `size` leaves; MM operands have two axes to loop over. */
  predicate KindWf(k: Kind, size: nat)
  {
    match k
    case Accumulate(l) => l < size
    case MMB(a, b, _) => Fits(a, b)
    case _ => true
  }

  /** A well-formed graph: every node has its variant's number of links, every linked node is well-formed. */
  predicate Wf(n: Node, size: nat)
    decreases n
  {
    KindWf(n.kind, size) && |n.next| == Arity(n.kind) &&
    forall i :: 0 <= i < |n.next| && n.next[i].Some? ==> Wf(n.next[i].value, size)
  }

  /** Every present link is a well-formed graph. */
  predicate LinksWf(links: seq<Option<Node>>, size: nat)
  {
    forall i :: 0 <= i < |links| && links[i].Some? ==> Wf(links[i].value, size)
  }

  // ---------------------------------------------------------------------------
  // Construction
  // ---------------------------------------------------------------------------

  /** A copy of `a` after `std::fill(datas, v)`: same shape and strides, every element v. */
  function FillWith(a: Arr, v: int): (r: Arr)
    ensures r.shape == a.shape && r.strides == a.strides && |r.datas| == |a.datas|
    ensures forall i :: 0 <= i < |r.datas| ==> r.datas[i] == v
  {
    a.(datas := Broadcast(v, |a.datas|))
  }

  /** `TensorArray(shape, strides)`: product(shape) zeros. */
  function Zeros(a: Arr): (r: Arr)
    ensures r.shape == a.shape && r.strides == a.strides && |r.datas| == Product(a.shape)
    ensures forall i :: 0 <= i < |r.datas| ==> r.datas[i] == 0
  {
    Arr(a.shape, a.strides, Broadcast(0, Product(a.shape)))
  }

  /** The ReLUBackward mask: 1 where the input is positive, 0 elsewhere. */
  function Mask(input: Arr): (r: Arr)
    ensures r.shape == input.shape && r.strides == input.strides && |r.datas| == |input.datas|
    ensures forall i :: 0 <= i < |r.datas| ==> (r.datas[i] == 1 <==> input.datas[i] > 0)
    ensures forall i :: 0 <= i < |r.datas| ==> (r.datas[i] == 0 <==> input.datas[i] <= 0)
  {
    input.(datas := seq(|input.datas|, i requires 0 <= i < |input.datas| => if input.datas[i] > 0 then 1 else 0))
  }

  /** The node of leaf `l`: AccumulateBackward holds the tensor and pushes no link. */
  function LeafNode(l: nat): Node
  {
    Node(Accumulate(l), [])
  }

  /** AddBackward(A, B); the one-operand form is `lb == None`. */
  function AddNode(a: Arr, la: Option<Node>, lb: Option<Node>): Node
  {
    Node(AddB(FillWith(a, 1)), [la, lb])
  }

  /** SubBackward(A, B); the one-operand form is `lb == None`. */
  function SubNode(a: Arr, la: Option<Node>, lb: Option<Node>): Node
  {
    Node(SubB(FillWith(a, 1)), [la, lb])
  }

  /** MulBackward(A, B): copies of both operands. */
  function MulNode(a: Arr, b: Arr, la: Option<Node>, lb: Option<Node>): Node
  {
    Node(MulB(a, b), [la, lb])
  }

  /** MulBackward(A, k): B's copy is product(shape) elements in A's layout, filled with k; no right link. */
  function MulScalarNode(a: Arr, k: int, la: Option<Node>): Node
  {
    Node(MulB(a, FillWith(Zeros(a), k)), [la, None])
  }

  /** MMBackward(A, B): operand copies and zero scratch arrays in the operands' layouts. */
  function MMNode(a: Arr, b: Arr, la: Option<Node>, lb: Option<Node>): Node
  {
    Node(MMB(a, b, Scratch(Zeros(a), Zeros(b))), [la, lb])
  }

  /** SumBackward(input). */
  function SumNode(input: Arr, l: Option<Node>): Node
  {
    Node(SumB(FillWith(input, 1)), [l])
  }

  /** ReLUBackward(input). */
  function ReLUNode(input: Arr, l: Option<Node>): Node
  {
    Node(ReLUB(Mask(input)), [l])
  }

  /** CrossEntropyLossBackward(input, target): a copy of the input's data. */
  function CrossEntropyNode(input: Arr, target: nat, l: Option<Node>): Node
  {
    Node(CrossEntropyB(input, target), [l])
  }

  /** SoftmaxBackward(input): a copy of the input, no link. */
  function SoftmaxNode(input: Arr): Node
  {
    Node(SoftmaxB(input), [])
  }

  /** Every constructor yields a well-formed graph with the links it was given, in order. */
  lemma {:induction false} ConstructorsWf(a: Arr, b: Arr, k: int, t: nat, l: nat, la: Option<Node>, lb: Option<Node>, size: nat)
    requires l < size && LinksWf([la, lb], size)
    ensures Wf(LeafNode(l), size) && LeafNode(l).next == []
    ensures Wf(AddNode(a, la, lb), size) && AddNode(a, la, lb).next == [la, lb]
    ensures Wf(SubNode(a, la, lb), size) && SubNode(a, la, lb).next == [la, lb]
    ensures Wf(MulNode(a, b, la, lb), size) && MulNode(a, b, la, lb).next == [la, lb]
    ensures Wf(MulScalarNode(a, k, la), size) && MulScalarNode(a, k, la).next == [la, None]
    ensures Fits(a, b) ==> Wf(MMNode(a, b, la, lb), size) && MMNode(a, b, la, lb).next == [la, lb]
    ensures Wf(SumNode(a, la), size) && SumNode(a, la).next == [la]
    ensures Wf(ReLUNode(a, la), size) && ReLUNode(a, la).next == [la]
    ensures Wf(CrossEntropyNode(a, t, la), size) && CrossEntropyNode(a, t, la).next == [la]
    ensures Wf(SoftmaxNode(a), size) && SoftmaxNode(a).next == []
  {
    assert la.Some? ==> [la, lb][0] == la;
    assert lb.Some? ==> [la, lb][1] == lb;
  }

  // ---------------------------------------------------------------------------
  // Backward
  // ---------------------------------------------------------------------------

  /** What one node does before forwarding: its new members, the leaf table, one message per link, the exception. */
  datatype Local = Local(kind: Kind, leaves: seq<Arr>, msgs: seq<Result<Arr, Fault>>, fault: Option<Fault>)

  /** `grad * x` in backward(grad), x itself in backward(). */
  function Scaled(c: Call, x: Arr): Result<Arr, Fault>
  {
    if c.GradCall? then Combine(Times, c.grad, x.datas) else Ok(x)
  }

  /** The `_newGradB` cell the MM loops write: `{j, k}` in backward(grad), `{i, j}` in backward(). */
  function MMOrder(c: Call): BIndex
  {
    if c.GradCall? then JK else IJ
  }

  /**
   * The part of each variant's `backward` before the calls to its links.  A
   * message is evaluated only when its link is present, so a message that would
   * raise is kept as an `Err` for Forward to raise at that link.
   */
  function LocalBackward(k: Kind, c: Call, leaves: seq<Arr>): (r: Local)
    requires KindWf(k, |leaves|)
    ensures |r.leaves| == |leaves| && KindWf(r.kind, |leaves|) && Arity(r.kind) == Arity(k) && |r.msgs| == Arity(k)
  {
    match k
    case Accumulate(l) =>
      var ys := if c.GradCall? then c.grad.datas else Broadcast(1, |leaves[l].datas|);
      var ip := InPlace(Plus, leaves[l].datas, ys);
      Local(k, leaves[l := leaves[l].(datas := ip.0)], [], ip.1)
    case AddB(ones) =>
      Local(k, leaves, [Scaled(c, ones), Scaled(c, ones)], None)
    case SubB(ones) =>
      var neg := Scalar(Times, ones, -1);
      Local(k, leaves, [Scaled(c, ones), if neg.Err? then neg else Scaled(c, neg.value)], None)
    case MulB(a, b) =>
      Local(k, leaves, [Scaled(c, b), Scaled(c, a)], None)
    case MMB(a, b, s) =>
      var run := Run(a, b, s, MMOrder(c));
      Local(MMB(a, b, run.0), leaves, [Scaled(c, run.0.gradA), Scaled(c, run.0.gradB)], run.1)
    case SumB(ones) =>
      Local(k, leaves, [Scaled(c, ones)], None)
    case ReLUB(mask) =>
      Local(k, leaves, [Scaled(c, mask)], None)
    case CrossEntropyB(res, t) =>
      if t >= |res.datas| then Local(k, leaves, [Err(OutOfRange)], Some(OutOfRange))
      else
        var res2 := res.(datas := res.datas[t := res.datas[t] - 1]);
        Local(CrossEntropyB(res2, t), leaves,
          [if c.GradCall? then Combine(Times, res2, c.grad.datas) else Ok(res2)], None)
    case SoftmaxB(_) =>
      Local(k, leaves, [], Some(NotImplemented))
  }

  /** A call on a node: the local part, then the present links in order, unless the local part raised. */
  function Backward(n: Node, c: Call, leaves: seq<Arr>): (r: Outcome)
    requires Wf(n, |leaves|)
    ensures |r.leaves| == |leaves| && Wf(r.node, |leaves|)
    ensures r.node.kind == LocalBackward(n.kind, c, leaves).kind
    decreases n, 1, 0
  {
    var l := LocalBackward(n.kind, c, leaves);
    if l.fault.Some? then Outcome(Node(l.kind, n.next), l.leaves, l.fault)
    else Forward(n, l.kind, l.msgs, [], l.leaves)
  }

  /**
   * The `if (this->_nextGrads[i]) this->_nextGrads[i]->backward(msg_i)` statements
   * from link |done| on; `done` holds the links already visited, with their new
   * members.  The first exception ends the call.
   */
  function Forward(p: Node, k: Kind, msgs: seq<Result<Arr, Fault>>, done: seq<Option<Node>>, leaves: seq<Arr>): (r: Outcome)
    requires |done| <= |p.next| && |msgs| == |p.next| == Arity(k) && KindWf(k, |leaves|)
    requires LinksWf(done, |leaves|) && LinksWf(p.next, |leaves|)
    ensures |r.leaves| == |leaves| && Wf(r.node, |leaves|) && r.node.kind == k
    decreases p, 0, |p.next| - |done|
  {
    var i := |done|;
    if i == |p.next| then Outcome(Node(k, done), leaves, None)
    else if p.next[i].None? then
      Forward(p, k, msgs, done + [None], leaves)
    else if msgs[i].Err? then
      Outcome(Node(k, done + p.next[i..]), leaves, Some(msgs[i].error))
    else
      var r := Backward(p.next[i].value, GradCall(msgs[i].value), leaves);
      if r.fault.Some? then Outcome(Node(k, done + [Some(r.node)] + p.next[i + 1..]), r.leaves, r.fault)
      else Forward(p, k, msgs, done + [Some(r.node)], r.leaves)
  }

  // ---------------------------------------------------------------------------
  // Messages
  // ---------------------------------------------------------------------------

  /** The elementwise product of g's buffer with xs, in g's layout. */
  function Hadamard(g: Arr, xs: seq<int>): (r: Arr)
    requires |xs| >= |g.datas|
    ensures r.shape == g.shape && r.strides == g.strides && |r.datas| == |g.datas|
    ensures forall i :: 0 <= i < |g.datas| ==> r.datas[i] == g.datas[i] * xs[i]
  {
    g.(datas := seq(|g.datas|, i requires 0 <= i < |g.datas| => g.datas[i] * xs[i]))
  }

  /** `g * x` on a gradient with one element per cell and an operand at least as long is their elementwise product. */
  lemma {:induction false} TimesIsHadamard(g: Arr, xs: seq<int>)
    requires |g.datas| == Product(g.shape) && |xs| >= |g.datas|
    ensures Combine(Times, g, xs) == Ok(Hadamard(g, xs))
  {
    CombineOk(Times, g, xs);
    assert Combine(Times, g, xs).value.datas == Hadamard(g, xs).datas;
  }

  /** Multiplying by an all-ones array gives the gradient back. */
  lemma {:induction false} TimesOnes(g: Arr, a: Arr)
    requires |g.datas| == Product(g.shape) && |a.datas| >= |g.datas|
    ensures Combine(Times, g, FillWith(a, 1).datas) == Ok(g)
  {
    TimesIsHadamard(g, FillWith(a, 1).datas);
    assert Hadamard(g, FillWith(a, 1).datas).datas == g.datas;
  }

  /** `ones * -1` on an array with one element per cell is the all-minus-ones array. */
  lemma {:induction false} NegatedOnes(a: Arr)
    requires |a.datas| == Product(a.shape)
    ensures Scalar(Times, FillWith(a, 1), -1) == Ok(FillWith(a, -1))
  {
    TimesIsHadamard(FillWith(a, 1), Broadcast(-1, |a.datas|));
    assert Hadamard(FillWith(a, 1), Broadcast(-1, |a.datas|)).datas == FillWith(a, -1).datas;
  }

  /** Multiplying by an all-minus-ones array negates the gradient. */
  lemma {:induction false} TimesMinusOnes(g: Arr, a: Arr)
    requires |g.datas| == Product(g.shape) && |a.datas| >= |g.datas|
    ensures Combine(Times, g, FillWith(a, -1).datas) == Ok(Added(Zeros(g), g.datas, -1))
  {
    TimesIsHadamard(g, FillWith(a, -1).datas);
    assert Hadamard(g, FillWith(a, -1).datas).datas == Added(Zeros(g), g.datas, -1).datas;
  }

  // ---------------------------------------------------------------------------
  // Forwarding into leaves
  // ---------------------------------------------------------------------------

  /** `x += sign * m`, elementwise over x's buffer. */
  function Added(x: Arr, m: seq<int>, sign: int): (r: Arr)
    requires |m| >= |x.datas|
    ensures r.shape == x.shape && r.strides == x.strides && |r.datas| == |x.datas|
    ensures forall i :: 0 <= i < |x.datas| ==> r.datas[i] == x.datas[i] + sign * m[i]
  {
    x.(datas := seq(|x.datas|, i requires 0 <= i < |x.datas| => x.datas[i] + sign * m[i]))
  }

  /** The operand of `_tensor.grad() += ...`: grad in backward(grad), the scalar 1 in backward(). */
  function LeafOperand(c: Call, x: Arr): (ys: seq<int>)
  {
    if c.GradCall? then c.grad.datas else Broadcast(1, |x.datas|)
  }

  /** A call on a leaf runs the in-place addition on its gradient and returns the node unchanged. */
  lemma {:induction false} LeafCall(l: nat, c: Call, leaves: seq<Arr>)
    requires l < |leaves|
    ensures var ip := InPlace(Plus, leaves[l].datas, LeafOperand(c, leaves[l]));
      Backward(LeafNode(l), c, leaves) == Outcome(LeafNode(l), leaves[l := leaves[l].(datas := ip.0)], ip.1)
  {
    var ip := InPlace(Plus, leaves[l].datas, LeafOperand(c, leaves[l]));
    var lo := LocalBackward(Accumulate(l), c, leaves);
    assert lo == Local(Accumulate(l), leaves[l := leaves[l].(datas := ip.0)], [], ip.1);
    if ip.1.None? {
      assert Forward(LeafNode(l), lo.kind, [], [], lo.leaves) == Outcome(LeafNode(l), lo.leaves, None);
    }
  }

  /** `+=` with an operand at least as long as the buffer adds every element and raises nothing. */
  lemma {:induction false} InPlacePlus(xs: seq<int>, ys: seq<int>, x: Arr, sign: int)
    requires xs == x.datas && |ys| >= |xs| && sign == 1
    ensures InPlace(Plus, xs, ys) == (Added(x, ys, sign).datas, None)
  {
    InPlaceOk(Plus, xs, ys);
    assert InPlace(Plus, xs, ys).0 == Added(x, ys, sign).datas;
  }

  /**
   * backward(grad) on a leaf adds grad into the leaf's gradient and changes no
   * other leaf; it raises exactly when grad is shorter than the gradient buffer,
   * and then it raises out_of_range.  The node has no link and stays as it was.
   */
  lemma {:induction false} AccumulateGrad(l: nat, g: Arr, leaves: seq<Arr>)
    requires l < |leaves|
    ensures var r := Backward(LeafNode(l), GradCall(g), leaves);
      r.node == LeafNode(l) &&
      (r.fault.None? <==> |g.datas| >= |leaves[l].datas|) &&
      (r.fault.Some? ==> r.fault == Some(OutOfRange)) &&
      (r.fault.None? ==> r.leaves == leaves[l := Added(leaves[l], g.datas, 1)]) &&
      r.leaves[l].shape == leaves[l].shape && r.leaves[l].strides == leaves[l].strides &&
      (forall j :: 0 <= j < |leaves| && j != l ==> r.leaves[j] == leaves[j])
  {
    LeafCall(l, GradCall(g), leaves);
    var xs := leaves[l].datas;
    InPlaceOk(Plus, xs, g.datas);
    if |g.datas| >= |xs| {
      InPlacePlus(xs, g.datas, leaves[l], 1);
    } else {
      var n := FirstFault(Plus, xs, g.datas, |xs|, 0);
      assert StepFault(Plus, xs, g.datas, |xs|, n) == Some(OutOfRange);
    }
  }

  /** `x += v` for every element. */
  function FillAdded(x: Arr, v: int): (r: Arr)
    ensures r.shape == x.shape && r.strides == x.strides && |r.datas| == |x.datas|
    ensures forall i :: 0 <= i < |x.datas| ==> r.datas[i] == x.datas[i] + v
  {
    x.(datas := seq(|x.datas|, i requires 0 <= i < |x.datas| => x.datas[i] + v))
  }

  /** backward() on a leaf adds 1 to every element of its gradient and never raises. */
  lemma {:induction false} AccumulatePlain(l: nat, leaves: seq<Arr>)
    requires l < |leaves|
    ensures Backward(LeafNode(l), PlainCall, leaves) == Outcome(LeafNode(l), leaves[l := FillAdded(leaves[l], 1)], None)
  {
    LeafCall(l, PlainCall, leaves);
    var ys := Broadcast(1, |leaves[l].datas|);
    InPlaceOk(Plus, leaves[l].datas, ys);
    assert InPlace(Plus, leaves[l].datas, ys).0 == FillAdded(leaves[l], 1).datas;
  }

  /** Two calls on a leaf leave its gradient equal to the old one plus both contributions. */
  lemma {:induction false} AccumulateTwice(l: nat, g1: Arr, g2: Arr, leaves: seq<Arr>)
    requires l < |leaves| && |g1.datas| >= |leaves[l].datas| && |g2.datas| >= |leaves[l].datas|
    ensures var r1 := Backward(LeafNode(l), GradCall(g1), leaves);
      var r2 := Backward(r1.node, GradCall(g2), r1.leaves);
      r1.fault.None? && r2.fault.None? && r2.node == LeafNode(l) &&
      |r2.leaves[l].datas| == |leaves[l].datas| &&
      (forall i :: 0 <= i < |leaves[l].datas| ==> r2.leaves[l].datas[i] == leaves[l].datas[i] + g1.datas[i] + g2.datas[i]) &&
      (forall j :: 0 <= j < |leaves| && j != l ==> r2.leaves[j] == leaves[j])
  {
    AccumulateGrad(l, g1, leaves);
    var r1 := Backward(LeafNode(l), GradCall(g1), leaves);
    AccumulateGrad(l, g2, r1.leaves);
  }

  /** Forwarding message m into a leaf link at position i of p. */
  lemma {:induction false} ForwardLeaf(p: Node, k: Kind, msgs: seq<Result<Arr, Fault>>, done: seq<Option<Node>>, l: nat, m: Arr, leaves: seq<Arr>)
    requires |done| < |p.next| && |msgs| == |p.next| == Arity(k) && KindWf(k, |leaves|)
    requires LinksWf(done, |leaves|) && LinksWf(p.next, |leaves|)
    requires p.next[|done|] == Some(LeafNode(l)) && msgs[|done|] == Ok(m)
    requires l < |leaves| && |m.datas| >= |leaves[l].datas|
    ensures LinksWf(done + [Some(LeafNode(l))], |leaves|)
    ensures Forward(p, k, msgs, done, leaves) ==
      Forward(p, k, msgs, done + [Some(LeafNode(l))], leaves[l := Added(leaves[l], m.datas, 1)])
  {
    AccumulateGrad(l, m, leaves);
  }

  /** Skipping a null link at position i of p. */
  lemma {:induction false} ForwardNull(p: Node, k: Kind, msgs: seq<Result<Arr, Fault>>, done: seq<Option<Node>>, leaves: seq<Arr>)
    requires |done| < |p.next| && |msgs| == |p.next| == Arity(k) && KindWf(k, |leaves|)
    requires LinksWf(done, |leaves|) && LinksWf(p.next, |leaves|)
    requires p.next[|done|] == None
    ensures LinksWf(done + [None], |leaves|)
    ensures Forward(p, k, msgs, done, leaves) == Forward(p, k, msgs, done + [None], leaves)
  {
  }

  /** A graph whose links are the leaves l0 and l1 receives m0 into l0 and then m1 into l1. */
  lemma {:induction false} TwoLeafLinks(p: Node, k: Kind, m0: Arr, m1: Arr, l0: nat, l1: nat, leaves: seq<Arr>)
    requires p.next == [Some(LeafNode(l0)), Some(LeafNode(l1))] && Arity(k) == 2 && KindWf(k, |leaves|)
    requires l0 < |leaves| && l1 < |leaves|
    requires |m0.datas| >= |leaves[l0].datas| && |m1.datas| >= |leaves[l1].datas|
    ensures LinksWf(p.next, |leaves|)
    ensures var l1s := leaves[l0 := Added(leaves[l0], m0.datas, 1)];
      Forward(p, k, [Ok(m0), Ok(m1)], [], leaves) ==
        Outcome(Node(k, p.next), l1s[l1 := Added(l1s[l1], m1.datas, 1)], None)
  {
    assert p.next[0] == Some(LeafNode(l0)) && p.next[1] == Some(LeafNode(l1));
    var msgs := [Ok(m0), Ok(m1)];
    ForwardLeaf(p, k, msgs, [], l0, m0, leaves);
    var l1s := leaves[l0 := Added(leaves[l0], m0.datas, 1)];
    assert [] + [Some(LeafNode(l0))] == [Some(LeafNode(l0))];
    ForwardLeaf(p, k, msgs, [Some(LeafNode(l0))], l1, m1, l1s);
    assert [Some(LeafNode(l0))] + [Some(LeafNode(l1))] == p.next;
  }

  /** A graph whose first link is the leaf l0 and whose other link, if any, is null, only reaches l0. */
  lemma {:induction false} OneLeafLink(p: Node, k: Kind, msgs: seq<Result<Arr, Fault>>, l0: nat, leaves: seq<Arr>)
    requires |p.next| == |msgs| == Arity(k) && KindWf(k, |leaves|) && 1 <= |p.next| <= 2
    requires p.next[0] == Some(LeafNode(l0)) && (|p.next| == 2 ==> p.next[1] == None)
    requires l0 < |leaves| && msgs[0].Ok? && |msgs[0].value.datas| >= |leaves[l0].datas|
    ensures LinksWf(p.next, |leaves|)
    ensures Forward(p, k, msgs, [], leaves) ==
      Outcome(Node(k, p.next), leaves[l0 := Added(leaves[l0], msgs[0].value.datas, 1)], None)
  {
    ForwardLeaf(p, k, msgs, [], l0, msgs[0].value, leaves);
    var l1s := leaves[l0 := Added(leaves[l0], msgs[0].value.datas, 1)];
    assert [] + [Some(LeafNode(l0))] == [Some(LeafNode(l0))];
    if |p.next| == 2 {
      ForwardNull(p, k, msgs, [Some(LeafNode(l0))], l1s);
      assert [Some(LeafNode(l0))] + [None] == p.next;
    } else {
      assert [Some(LeafNode(l0))] == p.next;
    }
  }

  // ---------------------------------------------------------------------------
  // The variants
  // ---------------------------------------------------------------------------

  /** AddBackward::backward(grad) sends grad itself (grad * ones) into both leaves, left first. */
  lemma {:induction false} AddForwardsGrad(a: Arr, g: Arr, l0: nat, l1: nat, leaves: seq<Arr>)
    requires l0 < |leaves| && l1 < |leaves| && |g.datas| == Product(g.shape) && |a.datas| >= |g.datas|
    requires |leaves[l0].datas| <= |g.datas| && |leaves[l1].datas| <= |g.datas|
    ensures var n := AddNode(a, Some(LeafNode(l0)), Some(LeafNode(l1)));
      var l1s := leaves[l0 := Added(leaves[l0], g.datas, 1)];
      Backward(n, GradCall(g), leaves) == Outcome(n, l1s[l1 := Added(l1s[l1], g.datas, 1)], None)
  {
    var n := AddNode(a, Some(LeafNode(l0)), Some(LeafNode(l1)));
    TimesOnes(g, a);
    TwoLeafLinks(n, n.kind, g, g, l0, l1, leaves);
  }

  /** AddBackward::backward() sends the all-ones array into both leaves. */
  lemma {:induction false} AddForwardsOnes(a: Arr, l0: nat, l1: nat, leaves: seq<Arr>)
    requires l0 < |leaves| && l1 < |leaves| && |leaves[l0].datas| <= |a.datas| && |leaves[l1].datas| <= |a.datas|
    ensures var n := AddNode(a, Some(LeafNode(l0)), Some(LeafNode(l1)));
      var l1s := leaves[l0 := FillAdded(leaves[l0], 1)];
      Backward(n, PlainCall, leaves) == Outcome(n, l1s[l1 := FillAdded(l1s[l1], 1)], None)
  {
    var n := AddNode(a, Some(LeafNode(l0)), Some(LeafNode(l1)));
    var ones := FillWith(a, 1);
    TwoLeafLinks(n, n.kind, ones, ones, l0, l1, leaves);
    var l1s := leaves[l0 := Added(leaves[l0], ones.datas, 1)];
    assert Added(leaves[l0], ones.datas, 1) == FillAdded(leaves[l0], 1);
    assert Added(l1s[l1], ones.datas, 1) == FillAdded(l1s[l1], 1);
  }

  /** SubBackward::backward(grad) adds grad into the left leaf and subtracts it from the right one. */
  lemma {:induction false} SubForwardsGrad(a: Arr, g: Arr, l0: nat, l1: nat, leaves: seq<Arr>)
    requires l0 < |leaves| && l1 < |leaves| && |g.datas| == Product(g.shape)
    requires |a.datas| == Product(a.shape) && |a.datas| >= |g.datas|
    requires |leaves[l0].datas| <= |g.datas| && |leaves[l1].datas| <= |g.datas|
    ensures var n := SubNode(a, Some(LeafNode(l0)), Some(LeafNode(l1)));
      var l1s := leaves[l0 := Added(leaves[l0], g.datas, 1)];
      Backward(n, GradCall(g), leaves) == Outcome(n, l1s[l1 := Added(l1s[l1], g.datas, -1)], None)
  {
    var n := SubNode(a, Some(LeafNode(l0)), Some(LeafNode(l1)));
    TimesOnes(g, a);
    NegatedOnes(a);
    TimesMinusOnes(g, a);
    var neg := Added(Zeros(g), g.datas, -1);
    TwoLeafLinks(n, n.kind, g, neg, l0, l1, leaves);
    var l1s := leaves[l0 := Added(leaves[l0], g.datas, 1)];
    assert Added(l1s[l1], neg.datas, 1) == Added(l1s[l1], g.datas, -1);
  }

  /** SubBackward::backward() sends ones to the left leaf and minus ones to the right one. */
  lemma {:induction false} SubForwardsOnes(a: Arr, l0: nat, l1: nat, leaves: seq<Arr>)
    requires l0 < |leaves| && l1 < |leaves| && |a.datas| == Product(a.shape)
    requires |leaves[l0].datas| <= |a.datas| && |leaves[l1].datas| <= |a.datas|
    ensures var n := SubNode(a, Some(LeafNode(l0)), Some(LeafNode(l1)));
      var l1s := leaves[l0 := FillAdded(leaves[l0], 1)];
      Backward(n, PlainCall, leaves) == Outcome(n, l1s[l1 := FillAdded(l1s[l1], -1)], None)
  {
    var n := SubNode(a, Some(LeafNode(l0)), Some(LeafNode(l1)));
    var ones := FillWith(a, 1);
    NegatedOnes(a);
    TwoLeafLinks(n, n.kind, ones, FillWith(a, -1), l0, l1, leaves);
    var l1s := leaves[l0 := Added(leaves[l0], ones.datas, 1)];
    assert Added(leaves[l0], ones.datas, 1) == FillAdded(leaves[l0], 1);
    assert Added(l1s[l1], FillWith(a, -1).datas, 1) == FillAdded(l1s[l1], -1);
  }

  /** The one-operand SubBackward has a null right link: only the left leaf is reached. */
  lemma {:induction false} SubUnaryForwardsLeft(a: Arr, g: Arr, l0: nat, leaves: seq<Arr>)
    requires l0 < |leaves| && |g.datas| == Product(g.shape) && |a.datas| >= |g.datas| && |leaves[l0].datas| <= |g.datas|
    ensures var n := SubNode(a, Some(LeafNode(l0)), None);
      Backward(n, GradCall(g), leaves) == Outcome(n, leaves[l0 := Added(leaves[l0], g.datas, 1)], None)
  {
    var n := SubNode(a, Some(LeafNode(l0)), None);
    TimesOnes(g, a);
    OneLeafLink(n, n.kind, LocalBackward(n.kind, GradCall(g), leaves).msgs, l0, leaves);
  }

  /** MulBackward::backward(grad) sends grad * Bcopy to the left leaf and grad * Acopy to the right one. */
  lemma {:induction false} MulForwardsGrad(a: Arr, b: Arr, g: Arr, l0: nat, l1: nat, leaves: seq<Arr>)
    requires l0 < |leaves| && l1 < |leaves| && |g.datas| == Product(g.shape)
    requires |a.datas| >= |g.datas| && |b.datas| >= |g.datas|
    requires |leaves[l0].datas| <= |g.datas| && |leaves[l1].datas| <= |g.datas|
    ensures var n := MulNode(a, b, Some(LeafNode(l0)), Some(LeafNode(l1)));
      var l1s := leaves[l0 := Added(leaves[l0], Hadamard(g, b.datas).datas, 1)];
      Backward(n, GradCall(g), leaves) == Outcome(n, l1s[l1 := Added(l1s[l1], Hadamard(g, a.datas).datas, 1)], None)
  {
    var n := MulNode(a, b, Some(LeafNode(l0)), Some(LeafNode(l1)));
    TimesIsHadamard(g, b.datas);
    TimesIsHadamard(g, a.datas);
    TwoLeafLinks(n, n.kind, Hadamard(g, b.datas), Hadamard(g, a.datas), l0, l1, leaves);
  }

  /** MulBackward::backward() sends Bcopy to the left leaf and Acopy to the right one, unscaled. */
  lemma {:induction false} MulForwardsCopies(a: Arr, b: Arr, l0: nat, l1: nat, leaves: seq<Arr>)
    requires l0 < |leaves| && l1 < |leaves| && |leaves[l0].datas| <= |b.datas| && |leaves[l1].datas| <= |a.datas|
    ensures var n := MulNode(a, b, Some(LeafNode(l0)), Some(LeafNode(l1)));
      var l1s := leaves[l0 := Added(leaves[l0], b.datas, 1)];
      Backward(n, PlainCall, leaves) == Outcome(n, l1s[l1 := Added(l1s[l1], a.datas, 1)], None)
  {
    var n := MulNode(a, b, Some(LeafNode(l0)), Some(LeafNode(l1)));
    TwoLeafLinks(n, n.kind, b, a, l0, l1, leaves);
  }

  /** MulBackward(A, k)::backward(grad) adds grad[i] * k into the left leaf and skips the null right link. */
  lemma {:induction false} MulScalarForwards(a: Arr, k: int, g: Arr, l0: nat, leaves: seq<Arr>)
    requires l0 < |leaves| && |g.datas| == Product(g.shape) && Product(a.shape) >= |g.datas| && |leaves[l0].datas| <= |g.datas|
    ensures var r := Backward(MulScalarNode(a, k, Some(LeafNode(l0))), GradCall(g), leaves);
      r.fault.None? && |r.leaves| == |leaves| && |r.leaves[l0].datas| == |leaves[l0].datas| &&
      (forall i :: 0 <= i < |leaves[l0].datas| ==> r.leaves[l0].datas[i] == leaves[l0].datas[i] + g.datas[i] * k) &&
      (forall j :: 0 <= j < |leaves| && j != l0 ==> r.leaves[j] == leaves[j])
  {
    var n := MulScalarNode(a, k, Some(LeafNode(l0)));
    var kb := FillWith(Zeros(a), k);
    TimesIsHadamard(g, kb.datas);
    OneLeafLink(n, n.kind, LocalBackward(n.kind, GradCall(g), leaves).msgs, l0, leaves);
  }

  /** SumBackward::backward(grad) sends grad into its one leaf, backward() the all-ones array. */
  lemma {:induction false} SumForwards(input: Arr, g: Arr, l: nat, leaves: seq<Arr>)
    requires l < |leaves| && |g.datas| == Product(g.shape) && |input.datas| >= |g.datas| && |leaves[l].datas| <= |g.datas|
    ensures var n := SumNode(input, Some(LeafNode(l)));
      Backward(n, GradCall(g), leaves) == Outcome(n, leaves[l := Added(leaves[l], g.datas, 1)], None) &&
      Backward(n, PlainCall, leaves) == Outcome(n, leaves[l := FillAdded(leaves[l], 1)], None)
  {
    var n := SumNode(input, Some(LeafNode(l)));
    TimesOnes(g, input);
    OneLeafLink(n, n.kind, LocalBackward(n.kind, GradCall(g), leaves).msgs, l, leaves);
    OneLeafLink(n, n.kind, LocalBackward(n.kind, PlainCall, leaves).msgs, l, leaves);
    assert Added(leaves[l], FillWith(input, 1).datas, 1) == FillAdded(leaves[l], 1);
  }

  /** ReLUBackward::backward(grad) passes grad where the input was positive and 0 elsewhere. */
  lemma {:induction false} ReLUForwards(input: Arr, g: Arr, l: nat, leaves: seq<Arr>)
    requires l < |leaves| && |g.datas| == Product(g.shape) && |input.datas| >= |g.datas| && |leaves[l].datas| <= |g.datas|
    ensures var r := Backward(ReLUNode(input, Some(LeafNode(l))), GradCall(g), leaves);
      r.fault.None? && |r.leaves[l].datas| == |leaves[l].datas| &&
      (forall i :: 0 <= i < |leaves[l].datas| ==>
        r.leaves[l].datas[i] == leaves[l].datas[i] + (if input.datas[i] > 0 then g.datas[i] else 0)) &&
      (forall j :: 0 <= j < |leaves| && j != l ==> r.leaves[j] == leaves[j])
  {
    var n := ReLUNode(input, Some(LeafNode(l)));
    TimesIsHadamard(g, Mask(input).datas);
    OneLeafLink(n, n.kind, LocalBackward(n.kind, GradCall(g), leaves).msgs, l, leaves);
  }

  /** ReLUBackward::backward() sends the mask itself: 1 added where the input was positive. */
  lemma {:induction false} ReLUForwardsMask(input: Arr, l: nat, leaves: seq<Arr>)
    requires l < |leaves| && |leaves[l].datas| <= |input.datas|
    ensures var r := Backward(ReLUNode(input, Some(LeafNode(l))), PlainCall, leaves);
      r.fault.None? && |r.leaves[l].datas| == |leaves[l].datas| &&
      (forall i :: 0 <= i < |leaves[l].datas| ==>
        r.leaves[l].datas[i] == leaves[l].datas[i] + (if input.datas[i] > 0 then 1 else 0))
  {
    var n := ReLUNode(input, Some(LeafNode(l)));
    OneLeafLink(n, n.kind, LocalBackward(n.kind, PlainCall, leaves).msgs, l, leaves);
  }

  /** `_res` after `_res[target] -= 1`. */
  function Decremented(res: Arr, t: nat): (r: Arr)
    requires t < |res.datas|
    ensures r.shape == res.shape && r.strides == res.strides && |r.datas| == |res.datas|
    ensures r.datas[t] == res.datas[t] - 1
    ensures forall j :: 0 <= j < |res.datas| && j != t ==> r.datas[j] == res.datas[j]
  {
    res.(datas := res.datas[t := res.datas[t] - 1])
  }

  /**
   * Either overload of CrossEntropyLossBackward::backward decrements `_res[target]`
   * and keeps the result in the node, whatever the link then does; a target
   * outside the buffer raises out_of_range and changes nothing.
   */
  lemma {:induction false} CrossEntropyDecrements(res: Arr, t: nat, link: Option<Node>, c: Call, leaves: seq<Arr>)
    requires link.Some? ==> Wf(link.value, |leaves|)
    ensures Wf(CrossEntropyNode(res, t, link), |leaves|)
    ensures var r := Backward(CrossEntropyNode(res, t, link), c, leaves);
      (t < |res.datas| ==> r.node.kind == CrossEntropyB(Decremented(res, t), t)) &&
      (t >= |res.datas| ==> r == Outcome(CrossEntropyNode(res, t, link), leaves, Some(OutOfRange)))
  {
    assert [link][0] == link;
  }

  /** backward(grad) sends `_res * grad`, with `_res` already decremented, into its leaf; backward() sends `_res`. */
  lemma {:induction false} CrossEntropyForwards(res: Arr, t: nat, g: Arr, l: nat, leaves: seq<Arr>)
    requires t < |res.datas| == Product(res.shape) && |g.datas| >= |res.datas|
    requires l < |leaves| && |leaves[l].datas| <= |res.datas|
    ensures var n := CrossEntropyNode(res, t, Some(LeafNode(l)));
      var n2 := CrossEntropyNode(Decremented(res, t), t, Some(LeafNode(l)));
      Backward(n, GradCall(g), leaves) ==
        Outcome(n2, leaves[l := Added(leaves[l], Hadamard(Decremented(res, t), g.datas).datas, 1)], None) &&
      Backward(n, PlainCall, leaves) == Outcome(n2, leaves[l := Added(leaves[l], Decremented(res, t).datas, 1)], None)
  {
    var n := CrossEntropyNode(res, t, Some(LeafNode(l)));
    TimesIsHadamard(Decremented(res, t), g.datas);
    OneLeafLink(n, CrossEntropyB(Decremented(res, t), t), LocalBackward(n.kind, GradCall(g), leaves).msgs, l, leaves);
    OneLeafLink(n, CrossEntropyB(Decremented(res, t), t), LocalBackward(n.kind, PlainCall, leaves).msgs, l, leaves);
  }

  /** `count` successive calls of the same overload on a node, each on the state the previous one left. */
  function Calls(n: Node, c: Call, leaves: seq<Arr>, count: nat): (r: (Node, seq<Arr>))
    requires Wf(n, |leaves|)
    ensures Wf(r.0, |leaves|) && |r.1| == |leaves|
    decreases count
  {
    if count == 0 then (n, leaves)
    else
      var o := Backward(n, c, leaves);
      Calls(o.node, c, o.leaves, count - 1)
  }

  /** The decrement persists: after n calls `_res[target]` is the input's value minus n, and no other entry moved. */
  lemma {:induction false} CrossEntropyRepeated(n: Node, c: Call, leaves: seq<Arr>, count: nat)
    requires Wf(n, |leaves|) && n.kind.CrossEntropyB? && n.kind.target < |n.kind.res.datas|
    ensures var k := Calls(n, c, leaves, count).0.kind;
      k.CrossEntropyB? && k.target == n.kind.target && |k.res.datas| == |n.kind.res.datas| &&
      k.res.datas[k.target] == n.kind.res.datas[k.target] - count &&
      (forall j :: 0 <= j < |k.res.datas| && j != k.target ==> k.res.datas[j] == n.kind.res.datas[j])
    decreases count
  {
    if count > 0 {
      var o := Backward(n, c, leaves);
      CrossEntropyRepeated(o.node, c, o.leaves, count - 1);
    }
  }

  /** SoftmaxBackward: both overloads raise "Not implemented" and change nothing. */
  lemma {:induction false} SoftmaxFails(input: Arr, c: Call, leaves: seq<Arr>)
    ensures Backward(SoftmaxNode(input), c, leaves) == Outcome(SoftmaxNode(input), leaves, Some(NotImplemented))
  {
  }

  /** Visiting only null links reaches no node and raises nothing. */
  lemma {:induction false} ForwardNulls(p: Node, k: Kind, msgs: seq<Result<Arr, Fault>>, done: seq<Option<Node>>, leaves: seq<Arr>)
    requires |done| <= |p.next| && |msgs| == |p.next| == Arity(k) && KindWf(k, |leaves|)
    requires LinksWf(done, |leaves|) && LinksWf(p.next, |leaves|)
    requires forall i :: |done| <= i < |p.next| ==> p.next[i].None?
    ensures Forward(p, k, msgs, done, leaves) == Outcome(Node(k, done + p.next[|done|..]), leaves, None)
    decreases |p.next| - |done|
  {
    if |done| < |p.next| {
      ForwardNulls(p, k, msgs, done + [None], leaves);
      assert done + [None] + p.next[|done| + 1..] == done + p.next[|done|..];
    }
  }

  /** A node whose links are all null forwards nothing: the leaves stay as the node's own step left them. */
  lemma {:induction false} NullLinksReachNothing(n: Node, c: Call, leaves: seq<Arr>)
    requires Wf(n, |leaves|) && forall i :: 0 <= i < |n.next| ==> n.next[i].None?
    ensures var l := LocalBackward(n.kind, c, leaves);
      Backward(n, c, leaves) == Outcome(Node(l.kind, n.next), l.leaves, l.fault)
  {
    var l := LocalBackward(n.kind, c, leaves);
    if l.fault.None? {
      ForwardNulls(n, l.kind, l.msgs, [], l.leaves);
      assert [] + n.next[0..] == n.next;
    }
  }

  /** What one call of the MM loops adds to cell (i, j) of B's scratch, by overload. */
  function BGain(c: Call, a: Arr, b: Arr, i: nat, j: nat): int
    requires RowMajorMatrix(a) && RowMajorMatrix(b)
  {
    if c.GradCall? then (if i < a.shape[1] then ColSum(a, i, a.shape[0]) else 0)
    else if i < a.shape[0] && j < a.shape[1] then b.shape[1] * Cell(a, i, j) else 0
  }

  /** Operands on which a call's loops stay inside B and inside B's scratch. */
  predicate MMReady(c: Call, a: Arr, b: Arr, s: Scratch)
  {
    if c.GradCall? then Aligned(a, b, s) else AlignedIJ(a, b, s)
  }

  /**
   * One call of either overload on ready operands raises nothing in its loops:
   * A's scratch gains B's row sums, and B's scratch gains the overload's BGain.
   */
  lemma MMOnce(a: Arr, b: Arr, s: Scratch, c: Call)
    requires MMReady(c, a, b, s)
    ensures Run(a, b, s, MMOrder(c)).1 == None
    ensures var r := Run(a, b, s, MMOrder(c)).0;
      Aligned(a, b, r) &&
      (forall i, j :: 0 <= i < a.shape[0] && 0 <= j < a.shape[1] ==>
        Cell(r.gradA, i, j) == Cell(s.gradA, i, j) + RowSum(b, j, b.shape[1])) &&
      (forall i, j :: 0 <= i < b.shape[0] && 0 <= j < b.shape[1] ==>
        Cell(r.gradB, i, j) == Cell(s.gradB, i, j) + BGain(c, a, b, i, j))
  {
    if c.GradCall? { RunSums(a, b, s); } else { RunSumsIJ(a, b, s); }
  }

  /**
   * The MM scratch arrays are never reset: two calls, whatever their links do,
   * leave A's scratch with twice B's row sums added, and B's scratch with what
   * each call's overload adds: A's column sums for backward(grad), B's column
   * count times A(i, j) at (i, j) for backward().
   */
  lemma {:induction false} MMTwice(a: Arr, b: Arr, s: Scratch, links: seq<Option<Node>>, c1: Call, c2: Call, leaves: seq<Arr>)
    requires MMReady(c1, a, b, s) && MMReady(c2, a, b, s) && Wf(Node(MMB(a, b, s), links), |leaves|)
    ensures var r1 := Backward(Node(MMB(a, b, s), links), c1, leaves);
      var r2 := Backward(r1.node, c2, r1.leaves);
      r2.node.kind.MMB? && r2.node.kind.aCopy == a && r2.node.kind.bCopy == b &&
      Aligned(a, b, r2.node.kind.scratch) &&
      (forall i, j :: 0 <= i < a.shape[0] && 0 <= j < a.shape[1] ==>
        Cell(r2.node.kind.scratch.gradA, i, j) == Cell(s.gradA, i, j) + 2 * RowSum(b, j, b.shape[1])) &&
      (forall i, j :: 0 <= i < b.shape[0] && 0 <= j < b.shape[1] ==>
        Cell(r2.node.kind.scratch.gradB, i, j) == Cell(s.gradB, i, j) + BGain(c1, a, b, i, j) + BGain(c2, a, b, i, j))
  {
    MMOnce(a, b, s, c1);
    var t := Run(a, b, s, MMOrder(c1)).0;
    var r1 := Backward(Node(MMB(a, b, s), links), c1, leaves);
    assert r1.node.kind == MMB(a, b, t);
    assert MMReady(c2, a, b, t);
    MMOnce(a, b, t, c2);
  }

  /**
   * MMBackward::backward(grad) runs the scratch loops, then sends grad * _newGradA
   * to the left leaf and grad * _newGradB to the right one.
   */
  lemma {:induction false} MMForwards(a: Arr, b: Arr, s: Scratch, g: Arr, l0: nat, l1: nat, leaves: seq<Arr>)
    requires Fits(a, b) && Run(a, b, s, JK).1 == None
    requires |g.datas| == Product(g.shape) && |Run(a, b, s, JK).0.gradA.datas| >= |g.datas| && |Run(a, b, s, JK).0.gradB.datas| >= |g.datas|
    requires l0 < |leaves| && l1 < |leaves| && |leaves[l0].datas| <= |g.datas| && |leaves[l1].datas| <= |g.datas|
    ensures var t := Run(a, b, s, JK).0;
      var l1s := leaves[l0 := Added(leaves[l0], Hadamard(g, t.gradA.datas).datas, 1)];
      Backward(Node(MMB(a, b, s), [Some(LeafNode(l0)), Some(LeafNode(l1))]), GradCall(g), leaves) ==
        Outcome(Node(MMB(a, b, t), [Some(LeafNode(l0)), Some(LeafNode(l1))]),
          l1s[l1 := Added(l1s[l1], Hadamard(g, t.gradB.datas).datas, 1)], None)
  {
    var t := Run(a, b, s, JK).0;
    var n := Node(MMB(a, b, s), [Some(LeafNode(l0)), Some(LeafNode(l1))]);
    TimesIsHadamard(g, t.gradA.datas);
    TimesIsHadamard(g, t.gradB.datas);
    TwoLeafLinks(n, MMB(a, b, t), Hadamard(g, t.gradA.datas), Hadamard(g, t.gradB.datas), l0, l1, leaves);
  }

  /** An all-ones 2-by-2 gradient leaves a 2-by-2 array unchanged, and adding it to zeros gives it back. */
  lemma OnesAndZeros(g: Arr, x: Arr, z: Arr)
    requires g == M([1, 1, 1, 1]) && |x.datas| == 4 && z == M([0, 0, 0, 0]) && x.shape == [2, 2] && x.strides == [2, 1]
    ensures Hadamard(g, x.datas).datas == x.datas && Added(z, Hadamard(g, x.datas).datas, 1) == x
  {
    assert Added(z, Hadamard(g, x.datas).datas, 1).datas == x.datas;
  }

  lemma Product22()
    ensures Product([2, 2]) == 4
  {
    assert Product([2, 2]) == 2 * Product([2]);
    assert Product([2]) == 2 * Product([]);
  }

  /**
   * For A = [[1, 2], [3, 4]], B = [[5, 6], [7, 8]], two zero leaves and an all-ones
   * grad, MMBackward::backward(grad) gives the leaves [[11, 15], [11, 15]] and [[4, 4], [6, 6]].
   */
  lemma {:induction false} MMExample(a: Arr, b: Arr, g: Arr, z: Arr, leaves: seq<Arr>)
    requires a == M([1, 2, 3, 4]) && b == M([5, 6, 7, 8]) && g == M([1, 1, 1, 1]) && z == M([0, 0, 0, 0])
    requires leaves == [z, z]
    ensures var r := Backward(MMNode(a, b, Some(LeafNode(0)), Some(LeafNode(1))), GradCall(g), leaves);
      r.fault == None && r.leaves == [M([11, 15, 11, 15]), M([4, 4, 6, 6])]
  {
    Product22();
    var s := Scratch(z, z);
    assert Zeros(a) == z && Zeros(b) == z;
    ExampleJK(a, b, s);
    var x, y := M([11, 15, 11, 15]), M([4, 4, 6, 6]);
    MMForwards(a, b, s, g, 0, 1, leaves);
    OnesAndZeros(g, x, z);
    OnesAndZeros(g, y, z);
  }
}
