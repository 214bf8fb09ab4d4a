/**
 * The deterministic parts of `lava::train::chessTrain`: the class number of an
 * expected-outcome label, the partition of the sample positions into batches,
 * and the predicted class, the first index of a largest network output.
 */
module ChessTraining {
  import opened Parsing
  import opened FenConversion

  /** `getLabelIndex`: a label that mentions Checkmate is class 0 or 1, then Check 2 or 3, Stalemate 4, anything else 5. */
  function LabelIndex(name: string): (r: nat)
    ensures r <= 5
  {
    if Contains(name, "Checkmate") then (if Contains(name, "White") then 0 else 1)
    else if Contains(name, "Check") then (if Contains(name, "White") then 2 else 3)
    else if Contains(name, "Stalemate") then 4
    else 5
  }

  /** Every string containing Checkmate contains Check. */
  lemma {:induction false} CheckmateIsCheck(s: string)
    requires Contains(s, "Checkmate")
    ensures Contains(s, "Check")
    decreases |s|
  {
    if StartsWith(s, "Checkmate") {
      assert s[..5] == s[..9][..5];
    } else {
      CheckmateIsCheck(s[1..]);
    }
  }

  /** A label that mentions both Checkmate and White is class 0, whatever surrounds the words. */
  lemma CheckmateWhite(a: string, b: string, c: string)
    ensures LabelIndex(a + "Checkmate" + b + "White" + c) == 0
  {
    var s := a + "Checkmate" + b + "White" + c;
    ContainsInfix(a, "Checkmate", b + "White" + c);
    assert a + "Checkmate" + (b + "White" + c) == s;
    ContainsInfix(a + "Checkmate" + b, "White", c);
  }

  /** Checkmate without a W anywhere is class 1. */
  lemma CheckmateBlack(a: string, b: string)
    requires 'W' !in a + "Checkmate" + b
    ensures LabelIndex(a + "Checkmate" + b) == 1
  {
    ContainsInfix(a, "Checkmate", b);
    NoContains(a + "Checkmate" + b, "White", 0);
  }

  /** Check and White without an m anywhere (so no Checkmate) is class 2. */
  lemma CheckWhite(a: string, b: string, c: string)
    requires 'm' !in a + "Check" + b + "White" + c
    ensures LabelIndex(a + "Check" + b + "White" + c) == 2
  {
    var s := a + "Check" + b + "White" + c;
    NoContains(s, "Checkmate", 5);
    ContainsInfix(a, "Check", b + "White" + c);
    assert a + "Check" + (b + "White" + c) == s;
    ContainsInfix(a + "Check" + b, "White", c);
  }

  /** Check without an m or a W anywhere is class 3. */
  lemma CheckBlack(a: string, b: string)
    requires 'm' !in a + "Check" + b && 'W' !in a + "Check" + b
    ensures LabelIndex(a + "Check" + b) == 3
  {
    var s := a + "Check" + b;
    NoContains(s, "Checkmate", 5);
    ContainsInfix(a, "Check", b);
    NoContains(s, "White", 0);
  }

  /** Stalemate without a C anywhere is class 4. */
  lemma StalemateClass(a: string, b: string)
    requires 'C' !in a + "Stalemate" + b
    ensures LabelIndex(a + "Stalemate" + b) == 4
  {
    var s := a + "Stalemate" + b;
    NoContains(s, "Checkmate", 0);
    NoContains(s, "Check", 0);
    ContainsInfix(a, "Stalemate", b);
  }

  /** A label with neither a C nor an S is class 5. */
  lemma OtherClass(s: string)
    requires 'C' !in s && 'S' !in s
    ensures LabelIndex(s) == 5
  {
    NoContains(s, "Checkmate", 0);
    NoContains(s, "Check", 0);
    NoContains(s, "Stalemate", 0);
  }

  /** The training classes agree with the converter's table on the six labels. */
  lemma LabelIndexAgrees(k: string)
    requires k in OutResults
    ensures LabelIndex(k) as real == OutResults[k]
  {
    LabelKeys();
    var i :| 0 <= i < 6 && Labels[i] == k;
    LabelClass(i);
  }

  /** Label i of the table is training class i. */
  lemma LabelClass(i: nat)
    requires i < 6
    ensures LabelIndex(Labels[i]) == i
  {
    var k := Labels[i];
    if i == 0 {
      CheckmateWhiteLabel(k);
    } else if i == 1 {
      CheckmateBlackLabel(k);
    } else if i == 2 {
      CheckWhiteLabel(k);
    } else if i == 3 {
      CheckBlackLabel(k);
    } else if i == 4 {
      StalemateLabel(k);
    } else {
      OtherClass(k);
    }
  }

  /** The label "Checkmate White" on its own. */
  lemma CheckmateWhiteLabel(k: string)
    requires k == "Checkmate White"
    ensures LabelIndex(k) == 0
  {
    CheckmateWhite([], " ", []);
    assert [] + "Checkmate" + " " + "White" + [] == k;
  }

  /** The label "Checkmate Black" on its own. */
  lemma CheckmateBlackLabel(k: string)
    requires k == "Checkmate Black"
    ensures LabelIndex(k) == 1
  {
    CheckmateBlack([], " Black");
    assert [] + "Checkmate" + " Black" == k;
  }

  /** The label "Check White" on its own. */
  lemma CheckWhiteLabel(k: string)
    requires k == "Check White"
    ensures LabelIndex(k) == 2
  {
    CheckWhite([], " ", []);
    assert [] + "Check" + " " + "White" + [] == k;
  }

  /** The label "Check Black" on its own. */
  lemma CheckBlackLabel(k: string)
    requires k == "Check Black"
    ensures LabelIndex(k) == 3
  {
    CheckBlack([], " Black");
    assert [] + "Check" + " Black" == k;
  }

  /** The label "Stalemate" on its own. */
  lemma StalemateLabel(k: string)
    requires k == "Stalemate"
    ensures LabelIndex(k) == 4
  {
    StalemateClass([], []);
    assert [] + "Stalemate" + [] == k;
  }

  // ---------------------------------------------------------------------------
  // Batches
  // ---------------------------------------------------------------------------

  /** The positions start, start + 1, ..., end - 1. */
  function Range(start: nat, end: nat): (r: seq<nat>)
    requires start <= end
    ensures |r| == end - start && forall k :: 0 <= k < |r| ==> r[k] == start + k
  {
    seq(end - start, k requires 0 <= k < end - start => start + k)
  }

  /** The positions the batches visit, in order; a batch is its first position and its size. */
  function Visited(batches: seq<(nat, nat)>): seq<nat>
  {
    if batches == [] then []
    else
      var last := batches[|batches| - 1];
      Visited(batches[..|batches| - 1]) + Range(last.0, last.0 + last.1)
  }

  /**
   * The batch loop: from i = 0 in steps of the configured size while i < n, a
   * batch of `std::min(batchSize, n - i)` positions.  Every position is visited
   * exactly once, in order; every batch but the last is full.
   */
  method Batches(n: nat, batchSize: nat) returns (batches: seq<(nat, nat)>)
    requires batchSize > 0 || n == 0
    ensures Visited(batches) == Range(0, n)
    ensures forall t :: 0 <= t < |batches| ==> 0 < batches[t].1 <= batchSize
    ensures forall t :: 0 <= t < |batches| - 1 ==> batches[t].1 == batchSize
  {
    batches := [];
    var i := 0;
    while i < n
      invariant Visited(batches) == Range(0, if i < n then i else n)
      invariant forall t :: 0 <= t < |batches| ==> 0 < batches[t].1 <= batchSize
      invariant forall t :: 0 <= t < |batches| - 1 ==> batches[t].1 == batchSize
      invariant i < n ==> forall t :: 0 <= t < |batches| ==> batches[t].1 == batchSize
      decreases n - i
    {
      var size := if batchSize < n - i then batchSize else n - i;
      ghost var before := batches;
      batches := batches + [(i, size)];
      assert batches[..|batches| - 1] == before;
      assert Range(0, i) + Range(i, i + size) == Range(0, i + size);
      i := i + batchSize;
    }
  }

  // ---------------------------------------------------------------------------
  // Prediction
  // ---------------------------------------------------------------------------

  /** p is the first index of a largest output. */
  predicate FirstMax(outputs: seq<real>, p: nat)
  {
    p < |outputs| && (forall k :: 0 <= k < |outputs| ==> outputs[k] <= outputs[p]) &&
    (forall k :: 0 <= k < p ==> outputs[k] < outputs[p])
  }

  /** The predicted class loop: start at 0 and move only on a strictly larger output. */
  method PredictedClass(outputs: seq<real>) returns (predicted: nat)
    requires |outputs| > 0
    ensures FirstMax(outputs, predicted)
  {
    predicted := 0;
    var maxProb := outputs[0];
    var k := 1;
    while k < |outputs|
      invariant k <= |outputs| && FirstMax(outputs[..k], predicted) && maxProb == outputs[predicted]
    {
      if outputs[k] > maxProb {
        maxProb := outputs[k];
        predicted := k;
      }
      k := k + 1;
    }
    assert outputs[..k] == outputs;
  }

  /** There is one first largest output, so the predicted class is determined by the outputs. */
  lemma FirstMaxUnique(outputs: seq<real>, p: nat, q: nat)
    requires FirstMax(outputs, p) && FirstMax(outputs, q)
    ensures p == q
  {
    assert outputs[p] <= outputs[q] && outputs[q] <= outputs[p];
  }
}
