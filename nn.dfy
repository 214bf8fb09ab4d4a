/**
 * The two layers of `lava::nn` with plain array semantics: the ReLU module
 * (max(0, x) forward, in-place masking backward) and the SGD optimiser
 * (zero-fill of the Linear gradients and the clipped update
 * w[i] -= lr * clamp(g[i], -1, 1)).  The element type is int, as everywhere in
 * the model.
 */
module NeuralNet {
  import opened StridedArray

  function Abs(x: int): int { if x < 0 then -x else x }

  // ---------------------------------------------------------------------------
  // ReLU
  // ---------------------------------------------------------------------------

  /** `std::max(0, x)` entrywise: non-negative, at least the input, and either the input or 0. */
  function Rectified(xs: seq<int>): (r: seq<int>)
    ensures |r| == |xs|
    ensures forall i :: 0 <= i < |r| ==> r[i] >= 0 && r[i] >= xs[i] && (r[i] == xs[i] || r[i] == 0)
  {
    seq(|xs|, i requires 0 <= i < |xs| => if xs[i] > 0 then xs[i] else 0)
  }

  /** The backward rule: a gradient entry survives where the stored input is positive and is 0 elsewhere. */
  function Gated(g: seq<int>, x: seq<int>): (r: seq<int>)
    requires |g| <= |x|
    ensures |r| == |g|
    ensures forall i :: 0 <= i < |g| && x[i] > 0 ==> r[i] == g[i]
    ensures forall i :: 0 <= i < |g| && x[i] <= 0 ==> r[i] == 0
  {
    seq(|g|, i requires 0 <= i < |g| => if x[i] > 0 then g[i] else 0)
  }

  /** Masking twice with the same stored input is masking once. */
  lemma GatedTwice(g: seq<int>, x: seq<int>)
    requires |g| <= |x|
    ensures Gated(Gated(g, x), x) == Gated(g, x)
  {
  }

  /** Where the forward output is positive the gradient passes, and every other entry is cut. */
  lemma GatedByOutput(g: seq<int>, x: seq<int>)
    requires |g| <= |x|
    ensures forall i :: 0 <= i < |g| ==> (Gated(g, x)[i] == g[i] || Rectified(x)[i] == 0)
    ensures forall i :: 0 <= i < |g| && Rectified(x)[i] == 0 ==> Gated(g, x)[i] == 0
  {
  }

  /** `lava::nn::ReLU<int>`: only the data of the last input matters to it. */
  class ReLU {
    var lastInput: Arr

    /** `_lastInput({1})`: a one-element array whose value is the shape constructor's fill. */
    constructor(fill: Fill)
      ensures lastInput == Arr([1], [1], [FillValue(fill, 0)])
    {
      lastInput := Arr([1], [1], [FillValue(fill, 0)]);
    }

    /** Stores the input, then writes max(0, input[i]) into a fresh 1-D array of the same length. */
    method Forward(input: Arr) returns (output: Arr)
      modifies this
      ensures lastInput == input
      ensures output == Arr([|input.datas|], [1], Rectified(input.datas))
    {
      lastInput := input;
      var n := |input.datas|;
      var d := seq(n, _ => 0);
      var i := 0;
      while i < n
        invariant i <= n == |d|
        invariant forall x :: 0 <= x < i ==> d[x] == Rectified(input.datas)[x]
      {
        d := d[i := if input.datas[i] > 0 then input.datas[i] else 0];
        i := i + 1;
      }
      output := Arr([n], [1], d);
    }

    /** Masks the gradient buffer in place against the stored input and hands the same buffer back. */
    method Backward(grad: array<int>)
      requires grad.Length <= |lastInput.datas|
      modifies grad
      ensures grad[..] == Gated(old(grad[..]), lastInput.datas)
    {
      var i := 0;
      while i < grad.Length
        invariant i <= grad.Length
        invariant forall x :: 0 <= x < i ==> grad[x] == Gated(old(grad[..]), lastInput.datas)[x]
        invariant forall x :: i <= x < grad.Length ==> grad[x] == old(grad[x])
      {
        grad[i] := if lastInput.datas[i] > 0 then grad[i] else 0;
        i := i + 1;
      }
    }
  }

  // ---------------------------------------------------------------------------
  // SGD
  // ---------------------------------------------------------------------------

  /** The optimiser's view of a module: a Linear layer's two parameters with their gradients, or anything else. */
  datatype Layer =
    | Linear(weights: seq<int>, weightGrad: seq<int>, biases: seq<int>, biasGrad: seq<int>)
    | Other

  /** Every gradient entry the update reads exists. */
  predicate Readable(l: Layer)
  {
    l.Linear? ==> |l.weightGrad| >= |l.weights| && |l.biasGrad| >= |l.biases|
  }

  /** `std::max(std::min(g, 1), -1)`. */
  function Clamp(g: int): (c: int)
    ensures -1 <= c <= 1
    ensures -1 <= g <= 1 ==> c == g
    ensures g > 1 ==> c == 1
    ensures g < -1 ==> c == -1
  {
    if g > 1 then 1 else if g < -1 then -1 else g
  }

  lemma ScaledUnit(lr: int, c: int)
    requires -1 <= c <= 1
    ensures Abs(lr * c) <= Abs(lr)
  {
  }

  /** One parameter buffer after the update loop: each entry moves by lr times its clamped gradient, so by at most |lr|. */
  function Update(ws: seq<int>, gs: seq<int>, lr: int): (r: seq<int>)
    requires |gs| >= |ws|
    ensures |r| == |ws|
    ensures forall i :: 0 <= i < |ws| ==> Abs(r[i] - ws[i]) <= Abs(lr)
    ensures forall i :: 0 <= i < |ws| && lr >= 0 && gs[i] >= 0 ==> r[i] <= ws[i]
    ensures forall i :: 0 <= i < |ws| && lr >= 0 && gs[i] <= 0 ==> r[i] >= ws[i]
    ensures forall i :: 0 <= i < |ws| && gs[i] == 0 ==> r[i] == ws[i]
  {
    var r := seq(|ws|, i requires 0 <= i < |ws| => ws[i] - lr * Clamp(gs[i]));
    forall i | 0 <= i < |ws|
      ensures Abs(r[i] - ws[i]) <= Abs(lr)
    {
      ScaledUnit(lr, Clamp(gs[i]));
    }
    r
  }

  /** `step` on one layer: weights first, then biases; gradients and other layers untouched. */
  function StepLayer(l: Layer, lr: int): (r: Layer)
    requires Readable(l)
    ensures r.Linear? <==> l.Linear?
    ensures Readable(r)
    ensures r.Linear? ==> r.weightGrad == l.weightGrad && r.biasGrad == l.biasGrad
    ensures r.Linear? ==> |r.weights| == |l.weights| && |r.biases| == |l.biases|
    ensures l.Other? ==> r == l
  {
    match l
    case Linear(w, wg, b, bg) => Linear(Update(w, wg, lr), wg, Update(b, bg, lr), bg)
    case Other => Other
  }

  /** `zeroGrad` on one layer: both gradient buffers filled with 0 at their length. */
  function ZeroLayer(l: Layer): (r: Layer)
    ensures r.Linear? <==> l.Linear?
    ensures r.Linear? ==> r.weights == l.weights && r.biases == l.biases
    ensures r.Linear? ==> |r.weightGrad| == |l.weightGrad| && |r.biasGrad| == |l.biasGrad|
    ensures r.Linear? ==> (forall i :: 0 <= i < |r.weightGrad| ==> r.weightGrad[i] == 0) && (forall i :: 0 <= i < |r.biasGrad| ==> r.biasGrad[i] == 0)
    ensures l.Other? ==> r == l
  {
    match l
    case Linear(w, wg, b, bg) => Linear(w, seq(|wg|, _ => 0), b, seq(|bg|, _ => 0))
    case Other => Other
  }

  /** A step moves every parameter entry of every layer by at most |lr|. */
  lemma StepBounded(l: Layer, lr: int)
    requires Readable(l) && l.Linear?
    ensures forall i :: 0 <= i < |l.weights| ==> Abs(StepLayer(l, lr).weights[i] - l.weights[i]) <= Abs(lr)
    ensures forall i :: 0 <= i < |l.biases| ==> Abs(StepLayer(l, lr).biases[i] - l.biases[i]) <= Abs(lr)
  {
  }

  /** After `zeroGrad` a step changes nothing: every clamped gradient is 0. */
  lemma StepAfterZeroGrad(l: Layer, lr: int)
    ensures Readable(ZeroLayer(l)) ==> StepLayer(ZeroLayer(l), lr) == ZeroLayer(l)
  {
    var z := ZeroLayer(l);
    if z.Linear? && Readable(z) {
      assert Update(z.weights, z.weightGrad, lr) == z.weights;
      assert Update(z.biases, z.biasGrad, lr) == z.biases;
    }
  }

  /** `lava::nn::SGD<int>`: the layer list it updates and its learning rate. */
  class SGD {
    var layers: seq<Layer>
    const learningRate: int

    constructor(ls: seq<Layer>, lr: int)
      ensures layers == ls && learningRate == lr
    {
      layers, learningRate := ls, lr;
    }

    /** Zero-fills both gradient buffers of every Linear layer, in layer order. */
    method ZeroGrad()
      modifies this
      ensures |layers| == |old(layers)|
      ensures forall n :: 0 <= n < |layers| ==> layers[n] == ZeroLayer(old(layers)[n])
    {
      var ls := layers;
      var n := 0;
      while n < |ls|
        invariant n <= |ls| == |old(layers)|
        invariant forall m :: 0 <= m < n ==> ls[m] == ZeroLayer(old(layers)[m])
        invariant forall m :: n <= m < |ls| ==> ls[m] == old(layers)[m]
      {
        ls := ls[n := ZeroLayer(ls[n])];
        n := n + 1;
      }
      layers := ls;
    }

    /** The clipped update of one buffer against its gradient, entry by entry. */
    static method UpdateLoop(ws: seq<int>, gs: seq<int>, lr: int) returns (r: seq<int>)
      requires |gs| >= |ws|
      ensures r == Update(ws, gs, lr)
    {
      r := ws;
      var i := 0;
      while i < |r|
        invariant i <= |r| == |ws|
        invariant forall x :: 0 <= x < i ==> r[x] == ws[x] - lr * Clamp(gs[x])
        invariant forall x :: i <= x < |r| ==> r[x] == ws[x]
      {
        var g := Clamp(gs[i]);
        r := r[i := r[i] - lr * g];
        i := i + 1;
      }
    }

    /** `step`: for each Linear layer the weights, then the biases; gradients are only read. */
    method Step()
      requires forall n :: 0 <= n < |layers| ==> Readable(layers[n])
      modifies this
      ensures |layers| == |old(layers)|
      ensures forall n :: 0 <= n < |layers| ==> layers[n] == StepLayer(old(layers)[n], learningRate)
    {
      var ls := layers;
      var n := 0;
      while n < |ls|
        invariant n <= |ls| == |old(layers)|
        invariant forall m :: 0 <= m < n ==> ls[m] == StepLayer(old(layers)[m], learningRate)
        invariant forall m :: n <= m < |ls| ==> ls[m] == old(layers)[m]
      {
        if ls[n].Linear? {
          var l := ls[n];
          var w := UpdateLoop(l.weights, l.weightGrad, learningRate);
          var b := UpdateLoop(l.biases, l.biasGrad, learningRate);
          ls := ls[n := Linear(w, l.weightGrad, b, l.biasGrad)];
        }
        n := n + 1;
      }
      layers := ls;
    }
  }
}
