/**
 * The scratch accumulation of `lava::MMBackward`: a triple loop over (i, j, k)
 * that adds `B(j, k)` into `_newGradA(i, j)` and `A(i, j)` into a cell of
 * `_newGradB`, through the bounds-checked coordinate accessor.  The two scratch
 * arrays are members, so what one call adds stays there for the next call.
 */
module MMScratch {
  import opened Wrappers
  import opened StridedArray
  import opened ArrayOps
  import opened ArrayShape

  /**
   * The buffer position the mutable `operator()({i, j})` refers to: the number of
   * coordinates is checked against the strides, each coordinate against its
   * extent.  The last guard never fires on an array whose in-shape offsets fit
   * its buffer (Locate2Agrees); it keeps the fold total.
   */
  function Locate2(a: Arr, i: nat, j: nat): (r: Result<nat, Fault>)
    ensures r.Ok? ==> r.value < |a.datas|
  {
    if |a.strides| != 2 then Err(DimensionMismatch)
    else if |a.shape| != 2 || i >= a.shape[0] || j >= a.shape[1] then Err(OutOfRange)
    else if i * a.strides[0] + j * a.strides[1] >= |a.datas| then Err(OutOfRange)
    else Ok(i * a.strides[0] + j * a.strides[1])
  }

  /** On arrays the library builds, Locate2 is the shared coordinate accessor on two coordinates. */
  lemma Locate2Agrees(a: Arr, i: nat, j: nat)
    requires InBounds(a)
    ensures Locate2(a, i, j) == Locate(a, [i, j])
  {
    if |a.strides| == 2 {
      Offset2(i, j, a.strides);
      if InShape([i, j], a.shape) { OffsetInBuffer(a, [i, j]); }
    }
  }

  /** `a({i, j})` read through the checked accessor. */
  function Checked(a: Arr, i: nat, j: nat): (r: Result<int, Fault>)
  {
    var loc := Locate2(a, i, j);
    if loc.Err? then Err(loc.error) else Ok(a.datas[loc.value])
  }

  /** `a({i, j}) += v` through the checked accessor. */
  function AddAt(a: Arr, i: nat, j: nat, v: int): (r: Result<Arr, Fault>)
    ensures r.Ok? ==> r.value.shape == a.shape && r.value.strides == a.strides && |r.value.datas| == |a.datas|
  {
    var loc := Locate2(a, i, j);
    if loc.Err? then Err(loc.error) else Ok(a.(datas := a.datas[loc.value := a.datas[loc.value] + v]))
  }

  /** The two persistent scratch arrays `_newGradA` and `_newGradB`. */
  datatype Scratch = Scratch(gradA: Arr, gradB: Arr)

  /** Which cell of `_newGradB` the loop adds to: `{j, k}` in backward(grad), `{i, j}` in backward() as written. */
  datatype BIndex = JK | IJ

  /** Operand copies of rank at least 2: the loop bounds read two axes of each. */
  predicate Fits(a: Arr, b: Arr)
  {
    |a.shape| >= 2 && |b.shape| >= 2
  }

  /** Two scratch states with the same shapes and strides. */
  predicate SameLayout(s: Scratch, t: Scratch)
  {
    s.gradA.shape == t.gradA.shape && s.gradA.strides == t.gradA.strides && |s.gradA.datas| == |t.gradA.datas| &&
    s.gradB.shape == t.gradB.shape && s.gradB.strides == t.gradB.strides && |s.gradB.datas| == |t.gradB.datas|
  }

  /**
   * One pass of the innermost loop body: `_newGradA({i, j}) += B({j, k})` and then
   * `_newGradB(BDest) += A({i, j})`, each right-hand side read before its target.
   * An exception keeps what the earlier statement already wrote.
   */
  function Step(a: Arr, b: Arr, s: Scratch, i: nat, j: nat, k: nat, dest: BIndex): (r: (Scratch, Option<Fault>))
    ensures SameLayout(s, r.0)
  {
    var vb := Checked(b, j, k);
    if vb.Err? then (s, Some(vb.error))
    else
      var ga := AddAt(s.gradA, i, j, vb.value);
      if ga.Err? then (s, Some(ga.error))
      else
        var s1 := s.(gradA := ga.value);
        var va := Checked(a, i, j);
        if va.Err? then (s1, Some(va.error))
        else
          var gb := AddAt(s.gradB, if dest == JK then j else i, if dest == JK then k else j, va.value);
          if gb.Err? then (s1, Some(gb.error)) else (s1.(gradB := gb.value), None)
  }

  /** Runs `body` for counters 0 .. n - 1 and stops at the first fault, keeping the state reached so far. */
  function Loop<S>(body: (S, nat) -> (S, Option<Fault>), s: S, n: nat): (r: (S, Option<Fault>))
    ensures n == 0 ==> r == (s, None)
    decreases n
  {
    if n == 0 then (s, None)
    else
      var prev := Loop(body, s, n - 1);
      if prev.1.Some? then prev else body(prev.0, n - 1)
  }

  /** Once a fault is raised, later counters change nothing. */
  lemma {:induction false} LoopStays<S>(body: (S, nat) -> (S, Option<Fault>), s: S, n: nat, n2: nat)
    requires n <= n2 && Loop(body, s, n).1.Some?
    ensures Loop(body, s, n2) == Loop(body, s, n)
    decreases n2 - n
  {
    if n2 > n { LoopStays(body, s, n, n2 - 1); }
  }

  /** If the pass at counter x takes g(x) to g(x + 1) without fault, the first n passes take g(0) to g(n). */
  lemma {:induction false} LoopTracks<S>(body: (S, nat) -> (S, Option<Fault>), g: nat -> S, n: nat)
    requires forall x: nat :: x < n ==> body(g(x), x) == (g(x + 1), None)
    ensures Loop(body, g(0), n) == (g(n), None)
    decreases n
  {
    if n > 0 { LoopTracks(body, g, n - 1); }
  }

  /** A fault raised by pass n, after n passes without one, is the outcome of every longer run. */
  lemma LoopFaultsAt<S>(body: (S, nat) -> (S, Option<Fault>), s: S, n: nat, m: nat)
    requires n < m && Loop(body, s, n).1.None? && body(Loop(body, s, n).0, n).1.Some?
    ensures Loop(body, s, m) == body(Loop(body, s, n).0, n)
  {
    LoopStays(body, s, n + 1, m);
  }

  /** If every pass keeps inv and raises nothing, neither do the first n passes. */
  lemma {:induction false} LoopKeeps(body: (Scratch, nat) -> (Scratch, Option<Fault>), inv: Scratch -> bool, s: Scratch, n: nat)
    requires inv(s)
    requires forall t: Scratch, x: nat :: inv(t) && x < n ==> body(t, x).1.None? && inv(body(t, x).0)
    ensures Loop(body, s, n).1.None? && inv(Loop(body, s, n).0)
    decreases n
  {
    if n > 0 {
      LoopKeeps(body, inv, s, n - 1);
    }
  }

  /** The body of the k loop at (i, j). */
  function KBody(a: Arr, b: Arr, i: nat, j: nat, dest: BIndex): (Scratch, nat) -> (Scratch, Option<Fault>)
  {
    (t: Scratch, k: nat) => Step(a, b, t, i, j, k, dest)
  }

  /** The k loop for fixed (i, j), columns 0 .. k - 1. */
  function KRun(a: Arr, b: Arr, s: Scratch, i: nat, j: nat, k: nat, dest: BIndex): (Scratch, Option<Fault>)
  {
    Loop(KBody(a, b, i, j, dest), s, k)
  }

  /** The body of the j loop at row i: the whole k loop over B's columns. */
  function JBody(a: Arr, b: Arr, i: nat, dest: BIndex): (Scratch, nat) -> (Scratch, Option<Fault>)
    requires Fits(a, b)
  {
    (t: Scratch, j: nat) => KRun(a, b, t, i, j, b.shape[1], dest)
  }

  /** The j loop for fixed i, columns 0 .. j - 1 of A. */
  function JRun(a: Arr, b: Arr, s: Scratch, i: nat, j: nat, dest: BIndex): (Scratch, Option<Fault>)
    requires Fits(a, b)
  {
    Loop(JBody(a, b, i, dest), s, j)
  }

  /** The body of the i loop: the whole j loop over A's columns. */
  function IBody(a: Arr, b: Arr, dest: BIndex): (Scratch, nat) -> (Scratch, Option<Fault>)
    requires Fits(a, b)
  {
    (t: Scratch, i: nat) => JRun(a, b, t, i, a.shape[1], dest)
  }

  /** The i loop, rows 0 .. i - 1. */
  function IRun(a: Arr, b: Arr, s: Scratch, i: nat, dest: BIndex): (Scratch, Option<Fault>)
    requires Fits(a, b)
  {
    Loop(IBody(a, b, dest), s, i)
  }

  /** The whole triple loop: i < A.shape[0], j < A.shape[1], k < B.shape[1]. */
  function Run(a: Arr, b: Arr, s: Scratch, dest: BIndex): (Scratch, Option<Fault>)
    requires Fits(a, b)
  {
    IRun(a, b, s, a.shape[0], dest)
  }


  // ---------------------------------------------------------------------------
  // What the loop adds, for operands and scratch arrays stored row by row.
  // Each lemma speaks about one cell, so no proof carries a quantified invariant.
  // ---------------------------------------------------------------------------

  /** An m-by-n matrix stored row by row with exactly m * n elements. */
  predicate RowMajorMatrix(a: Arr)
  {
    |a.shape| == 2 && a.strides == [a.shape[1], 1] && |a.datas| == a.shape[0] * a.shape[1]
  }

  lemma RowMajorMatrixValid(a: Arr)
    requires RowMajorMatrix(a)
    ensures Valid(a)
  {
    assert a.shape == [a.shape[0], a.shape[1]];
    RowMajorOffset2(a.shape[0], a.shape[1], 0, 0);
    RowMajorValid(a.shape, a.datas);
  }

  /** The position of cell (i, j) in a row-major buffer with rows of length n: i * n + j. */
  function Idx(n: nat, i: nat, j: nat): nat
    decreases i
  {
    if i == 0 then j else Idx(n, i - 1, j) + n
  }

  lemma {:induction false} IdxMul(n: nat, i: nat, j: nat)
    ensures Idx(n, i, j) == i * n + j
    decreases i
  {
    if i > 0 { IdxMul(n, i - 1, j); }
  }

  lemma IdxBound(m: nat, n: nat, i: nat, j: nat)
    requires i < m && j < n
    ensures Idx(n, i, j) < m * n
  {
    IdxMul(n, i, j);
    MulMono(i, m - 1, n);
    MulPred(m, n);
  }

  lemma MulPred(m: nat, n: nat)
    requires m > 0
    ensures (m - 1) * n + n == m * n
  {
  }

  /** Distinct cells of a row-major matrix sit at distinct positions. */
  lemma IdxDistinct(n: nat, i: nat, j: nat, i2: nat, j2: nat)
    requires j < n && j2 < n && (i != i2 || j != j2)
    ensures Idx(n, i, j) != Idx(n, i2, j2)
  {
    IdxMul(n, i, j);
    IdxMul(n, i2, j2);
    if i * n + j == i2 * n + j2 { DivModUnique(i, j, i2, j2, n); }
  }

  /** Element (i, j) of a row-major matrix. */
  function Cell(a: Arr, i: nat, j: nat): int
    requires RowMajorMatrix(a) && i < a.shape[0] && j < a.shape[1]
  {
    IdxBound(a.shape[0], a.shape[1], i, j);
    a.datas[Idx(a.shape[1], i, j)]
  }

  /** The matrix with v added to cell (i, j). */
  function AddCell(a: Arr, i: nat, j: nat, v: int): (w: Arr)
    requires RowMajorMatrix(a) && i < a.shape[0] && j < a.shape[1]
    ensures RowMajorMatrix(w) && w.shape == a.shape
  {
    IdxBound(a.shape[0], a.shape[1], i, j);
    var x := Idx(a.shape[1], i, j);
    a.(datas := a.datas[x := a.datas[x] + v])
  }

  /** Adding v at cell (i, j) changes that cell by v and no other cell. */
  lemma AddCellAt(a: Arr, i: nat, j: nat, v: int, i2: nat, j2: nat)
    requires RowMajorMatrix(a) && i < a.shape[0] && j < a.shape[1] && i2 < a.shape[0] && j2 < a.shape[1]
    ensures Cell(AddCell(a, i, j, v), i2, j2) == Cell(a, i2, j2) + (if i2 == i && j2 == j then v else 0)
  {
    IdxBound(a.shape[0], a.shape[1], i, j);
    IdxBound(a.shape[0], a.shape[1], i2, j2);
    if i2 != i || j2 != j { IdxDistinct(a.shape[1], i, j, i2, j2); }
  }

  /** In a row-major matrix, the accessor reads cell (i, j) at i * n + j. */
  lemma Locate2RowMajor(a: Arr, i: nat, j: nat)
    requires RowMajorMatrix(a)
    ensures i < a.shape[0] && j < a.shape[1] ==> Locate2(a, i, j) == Ok(Idx(a.shape[1], i, j))
    ensures i >= a.shape[0] || j >= a.shape[1] ==> Locate2(a, i, j) == Err(OutOfRange)
  {
    if i < a.shape[0] && j < a.shape[1] {
      IdxBound(a.shape[0], a.shape[1], i, j);
      IdxMul(a.shape[1], i, j);
    }
  }

  /** B(j, 0) + ... + B(j, k - 1). */
  function RowSum(b: Arr, j: nat, k: nat): int
    requires RowMajorMatrix(b) && j < b.shape[0] && k <= b.shape[1]
    decreases k
  {
    if k == 0 then 0 else RowSum(b, j, k - 1) + Cell(b, j, k - 1)
  }

  /** A(0, j) + ... + A(i - 1, j). */
  function ColSum(a: Arr, j: nat, i: nat): int
    requires RowMajorMatrix(a) && j < a.shape[1] && i <= a.shape[0]
    decreases i
  {
    if i == 0 then 0 else ColSum(a, j, i - 1) + Cell(a, i - 1, j)
  }

  /** Row-major operands with scratch arrays shaped like them; the reads of B may still leave B. */
  predicate Layout(a: Arr, b: Arr, s: Scratch)
  {
    RowMajorMatrix(a) && RowMajorMatrix(b) &&
    RowMajorMatrix(s.gradA) && s.gradA.shape == a.shape &&
    RowMajorMatrix(s.gradB) && s.gradB.shape == b.shape
  }

  /** Operands the closed form speaks about: every row index j < A's column count is a row of B. */
  predicate Aligned(a: Arr, b: Arr, s: Scratch)
  {
    Layout(a, b, s) && a.shape[1] <= b.shape[0]
  }

  lemma AddCellZero(a: Arr, i: nat, j: nat)
    requires RowMajorMatrix(a) && i < a.shape[0] && j < a.shape[1]
    ensures AddCell(a, i, j, 0) == a
  {
    IdxBound(a.shape[0], a.shape[1], i, j);
    var x := Idx(a.shape[1], i, j);
    assert a.datas[x := a.datas[x] + 0] == a.datas;
  }

  lemma AddCellTwice(a: Arr, i: nat, j: nat, v: int, w: int)
    requires RowMajorMatrix(a) && i < a.shape[0] && j < a.shape[1]
    ensures AddCell(AddCell(a, i, j, v), i, j, w) == AddCell(a, i, j, v + w)
  {
    IdxBound(a.shape[0], a.shape[1], i, j);
    var x := Idx(a.shape[1], i, j);
    assert a.datas[x := a.datas[x] + v][x := a.datas[x] + v + w] == a.datas[x := a.datas[x] + (v + w)];
  }

  /** v added to cells (j, 0) .. (j, k - 1). */
  function AddRow(x: Arr, j: nat, k: nat, v: int): (w: Arr)
    requires RowMajorMatrix(x) && j < x.shape[0] && k <= x.shape[1]
    ensures RowMajorMatrix(w) && w.shape == x.shape
    decreases k
  {
    if k == 0 then x else AddCell(AddRow(x, j, k - 1, v), j, k - 1, v)
  }

  /** A's scratch x once row i has run its first j columns: cell (i, j') gains B's row sum j'. */
  function RowGains(x: Arr, b: Arr, i: nat, j: nat): (w: Arr)
    requires RowMajorMatrix(x) && RowMajorMatrix(b) && x.shape[1] <= b.shape[0]
    requires i < x.shape[0] && j <= x.shape[1]
    ensures RowMajorMatrix(w) && w.shape == x.shape
    decreases j
  {
    if j == 0 then x else AddCell(RowGains(x, b, i, j - 1), i, j - 1, RowSum(b, j - 1, b.shape[1]))
  }

  /** B's scratch y once row i has run its first j columns: each cell of row j' gains A(i, j'). */
  function ColGains(y: Arr, a: Arr, i: nat, j: nat): (w: Arr)
    requires RowMajorMatrix(y) && RowMajorMatrix(a) && a.shape[1] <= y.shape[0]
    requires i < a.shape[0] && j <= a.shape[1]
    ensures RowMajorMatrix(w) && w.shape == y.shape
    decreases j
  {
    if j == 0 then y else AddRow(ColGains(y, a, i, j - 1), j - 1, y.shape[1], Cell(a, i, j - 1))
  }

  /** A's scratch x once rows 0 .. i - 1 have run. */
  function AllRowGains(x: Arr, b: Arr, i: nat): (w: Arr)
    requires RowMajorMatrix(x) && RowMajorMatrix(b) && x.shape[1] <= b.shape[0] && i <= x.shape[0]
    ensures RowMajorMatrix(w) && w.shape == x.shape
    decreases i
  {
    if i == 0 then x else RowGains(AllRowGains(x, b, i - 1), b, i - 1, x.shape[1])
  }

  /** B's scratch y once rows 0 .. i - 1 have run. */
  function AllColGains(y: Arr, a: Arr, i: nat): (w: Arr)
    requires RowMajorMatrix(y) && RowMajorMatrix(a) && a.shape[1] <= y.shape[0] && i <= a.shape[0]
    ensures RowMajorMatrix(w) && w.shape == y.shape
    decreases i
  {
    if i == 0 then y else ColGains(AllColGains(y, a, i - 1), a, i - 1, a.shape[1])
  }

  /** One pass of the loop body at an in-range (i, j, k) adds B(j, k) at (i, j) of A's scratch and A(i, j) at (j, k) of B's. */
  lemma StepAdds(a: Arr, b: Arr, s: Scratch, i: nat, j: nat, k: nat)
    requires Layout(a, b, s) && i < a.shape[0] && j < a.shape[1] && j < b.shape[0] && k < b.shape[1]
    ensures Step(a, b, s, i, j, k, JK) == (Scratch(AddCell(s.gradA, i, j, Cell(b, j, k)), AddCell(s.gradB, j, k, Cell(a, i, j))), None)
  {
    Locate2RowMajor(b, j, k);
    Locate2RowMajor(a, i, j);
    Locate2RowMajor(s.gradA, i, j);
    Locate2RowMajor(s.gradB, j, k);
  }

  /** Scratch s after the first k passes of the k loop at (i, j), in closed form. */
  function KGain(a: Arr, b: Arr, s: Scratch, i: nat, j: nat, k: nat): (t: Scratch)
    ensures Layout(a, b, s) ==> Layout(a, b, t)
  {
    if Layout(a, b, s) && i < a.shape[0] && j < a.shape[1] && j < b.shape[0] && k <= b.shape[1] then
      Scratch(AddCell(s.gradA, i, j, RowSum(b, j, k)), AddRow(s.gradB, j, k, Cell(a, i, j)))
    else s
  }

  lemma KGainStep(a: Arr, b: Arr, s: Scratch, i: nat, j: nat, k: nat)
    requires Layout(a, b, s) && i < a.shape[0] && j < a.shape[1] && j < b.shape[0] && k < b.shape[1]
    ensures Step(a, b, KGain(a, b, s, i, j, k), i, j, k, JK) == (KGain(a, b, s, i, j, k + 1), None)
  {
    StepAdds(a, b, KGain(a, b, s, i, j, k), i, j, k);
    AddCellTwice(s.gradA, i, j, RowSum(b, j, k), Cell(b, j, k));
  }

  /** The k loop at (i, j) adds the first k entries of B's row j to cell (i, j) and A(i, j) to the first k cells of row j. */
  lemma KRunAdds(a: Arr, b: Arr, s: Scratch, i: nat, j: nat, k: nat)
    requires Layout(a, b, s) && i < a.shape[0] && j < a.shape[1] && j < b.shape[0] && k <= b.shape[1]
    ensures KRun(a, b, s, i, j, k, JK) == (KGain(a, b, s, i, j, k), None)
  {
    var g := (x: nat) => KGain(a, b, s, i, j, x);
    forall x: nat | x < k
      ensures KBody(a, b, i, j, JK)(g(x), x) == (g(x + 1), None)
    {
      KGainStep(a, b, s, i, j, x);
    }
    AddCellZero(s.gradA, i, j);
    LoopTracks(KBody(a, b, i, j, JK), g, k);
  }

  /** Scratch s after the first j passes of the j loop of row i, in closed form. */
  function JGain(a: Arr, b: Arr, s: Scratch, i: nat, j: nat): (t: Scratch)
    ensures Aligned(a, b, s) ==> Aligned(a, b, t)
  {
    if Aligned(a, b, s) && i < a.shape[0] && j <= a.shape[1] then
      Scratch(RowGains(s.gradA, b, i, j), ColGains(s.gradB, a, i, j))
    else s
  }

  lemma JGainStep(a: Arr, b: Arr, s: Scratch, i: nat, j: nat)
    requires Aligned(a, b, s) && i < a.shape[0] && j < a.shape[1]
    ensures KRun(a, b, JGain(a, b, s, i, j), i, j, b.shape[1], JK) == (JGain(a, b, s, i, j + 1), None)
  {
    KRunAdds(a, b, JGain(a, b, s, i, j), i, j, b.shape[1]);
  }

  /** The j loop of row i, proved against RowGains and ColGains. */
  lemma JRunAdds(a: Arr, b: Arr, s: Scratch, i: nat, j: nat)
    requires Aligned(a, b, s) && i < a.shape[0] && j <= a.shape[1]
    ensures JRun(a, b, s, i, j, JK) == (JGain(a, b, s, i, j), None)
  {
    var g := (x: nat) => JGain(a, b, s, i, x);
    forall x: nat | x < j
      ensures JBody(a, b, i, JK)(g(x), x) == (g(x + 1), None)
    {
      JGainStep(a, b, s, i, x);
    }
    LoopTracks(JBody(a, b, i, JK), g, j);
  }

  /** Scratch s after rows 0 .. i - 1, in closed form. */
  function IGain(a: Arr, b: Arr, s: Scratch, i: nat): (t: Scratch)
    ensures Aligned(a, b, s) ==> Aligned(a, b, t)
  {
    if Aligned(a, b, s) && i <= a.shape[0] then
      Scratch(AllRowGains(s.gradA, b, i), AllColGains(s.gradB, a, i))
    else s
  }

  lemma IGainStep(a: Arr, b: Arr, s: Scratch, i: nat)
    requires Aligned(a, b, s) && i < a.shape[0]
    ensures JRun(a, b, IGain(a, b, s, i), i, a.shape[1], JK) == (IGain(a, b, s, i + 1), None)
  {
    JRunAdds(a, b, IGain(a, b, s, i), i, a.shape[1]);
  }

  /** The i loop, proved against AllRowGains and AllColGains. */
  lemma IRunAdds(a: Arr, b: Arr, s: Scratch, i: nat)
    requires Aligned(a, b, s) && i <= a.shape[0]
    ensures IRun(a, b, s, i, JK) == (IGain(a, b, s, i), None)
  {
    var g := (x: nat) => IGain(a, b, s, x);
    forall x: nat | x < i
      ensures IBody(a, b, JK)(g(x), x) == (g(x + 1), None)
    {
      IGainStep(a, b, s, x);
    }
    LoopTracks(IBody(a, b, JK), g, i);
  }

  lemma {:induction false} AddRowCell(x: Arr, j: nat, k: nat, v: int, j2: nat, k2: nat)
    requires RowMajorMatrix(x) && j < x.shape[0] && k <= x.shape[1] && j2 < x.shape[0] && k2 < x.shape[1]
    ensures Cell(AddRow(x, j, k, v), j2, k2) == Cell(x, j2, k2) + (if j2 == j && k2 < k then v else 0)
    decreases k
  {
    if k > 0 {
      AddRowCell(x, j, k - 1, v, j2, k2);
      AddCellAt(AddRow(x, j, k - 1, v), j, k - 1, v, j2, k2);
    }
  }

  lemma {:induction false} RowGainsCell(x: Arr, b: Arr, i: nat, j: nat, i2: nat, j2: nat)
    requires RowMajorMatrix(x) && RowMajorMatrix(b) && x.shape[1] <= b.shape[0]
    requires i < x.shape[0] && j <= x.shape[1] && i2 < x.shape[0] && j2 < x.shape[1]
    ensures Cell(RowGains(x, b, i, j), i2, j2) == Cell(x, i2, j2) + (if i2 == i && j2 < j then RowSum(b, j2, b.shape[1]) else 0)
    decreases j
  {
    if j > 0 {
      RowGainsCell(x, b, i, j - 1, i2, j2);
      AddCellAt(RowGains(x, b, i, j - 1), i, j - 1, RowSum(b, j - 1, b.shape[1]), i2, j2);
    }
  }

  lemma {:induction false} ColGainsCell(y: Arr, a: Arr, i: nat, j: nat, j2: nat, k2: nat)
    requires RowMajorMatrix(y) && RowMajorMatrix(a) && a.shape[1] <= y.shape[0]
    requires i < a.shape[0] && j <= a.shape[1] && j2 < y.shape[0] && k2 < y.shape[1]
    ensures Cell(ColGains(y, a, i, j), j2, k2) == Cell(y, j2, k2) + (if j2 < j then Cell(a, i, j2) else 0)
    decreases j
  {
    if j > 0 {
      ColGainsCell(y, a, i, j - 1, j2, k2);
      AddRowCell(ColGains(y, a, i, j - 1), j - 1, y.shape[1], Cell(a, i, j - 1), j2, k2);
    }
  }

  lemma {:induction false} AllRowGainsCell(x: Arr, b: Arr, i: nat, i2: nat, j2: nat)
    requires RowMajorMatrix(x) && RowMajorMatrix(b) && x.shape[1] <= b.shape[0]
    requires i <= x.shape[0] && i2 < x.shape[0] && j2 < x.shape[1]
    ensures Cell(AllRowGains(x, b, i), i2, j2) == Cell(x, i2, j2) + (if i2 < i then RowSum(b, j2, b.shape[1]) else 0)
    decreases i
  {
    if i > 0 {
      AllRowGainsCell(x, b, i - 1, i2, j2);
      RowGainsCell(AllRowGains(x, b, i - 1), b, i - 1, x.shape[1], i2, j2);
    }
  }

  lemma {:induction false} AllColGainsCell(y: Arr, a: Arr, i: nat, j2: nat, k2: nat)
    requires RowMajorMatrix(y) && RowMajorMatrix(a) && a.shape[1] <= y.shape[0]
    requires i <= a.shape[0] && j2 < y.shape[0] && k2 < y.shape[1]
    ensures Cell(AllColGains(y, a, i), j2, k2) == Cell(y, j2, k2) + (if j2 < a.shape[1] then ColSum(a, j2, i) else 0)
    decreases i
  {
    if i > 0 {
      AllColGainsCell(y, a, i - 1, j2, k2);
      ColGainsCell(AllColGains(y, a, i - 1), a, i - 1, a.shape[1], j2, k2);
    }
  }

  /**
   * For row-major operands whose inner extents allow every read, one run of the
   * loop adds the row sum of B's row j to every cell (i, j) of A's scratch and
   * the column sum of A's column j to every cell (j, k) of B's scratch.
   */
  lemma RunSums(a: Arr, b: Arr, s: Scratch)
    requires Aligned(a, b, s)
    ensures Run(a, b, s, JK).1 == None
    ensures var r := Run(a, b, s, JK).0;
      Aligned(a, b, r) &&
      (forall i, j :: 0 <= i < a.shape[0] && 0 <= j < a.shape[1] ==>
        Cell(r.gradA, i, j) == Cell(s.gradA, i, j) + RowSum(b, j, b.shape[1])) &&
      (forall j, k :: 0 <= j < b.shape[0] && 0 <= k < b.shape[1] ==>
        Cell(r.gradB, j, k) == Cell(s.gradB, j, k) + (if j < a.shape[1] then ColSum(a, j, a.shape[0]) else 0))
  {
    IRunAdds(a, b, s, a.shape[0]);
    var r := Run(a, b, s, JK).0;
    forall i, j | 0 <= i < a.shape[0] && 0 <= j < a.shape[1]
      ensures Cell(r.gradA, i, j) == Cell(s.gradA, i, j) + RowSum(b, j, b.shape[1])
    {
      AllRowGainsCell(s.gradA, b, a.shape[0], i, j);
    }
    forall j, k | 0 <= j < b.shape[0] && 0 <= k < b.shape[1]
      ensures Cell(r.gradB, j, k) == Cell(s.gradB, j, k) + (if j < a.shape[1] then ColSum(a, j, a.shape[0]) else 0)
    {
      AllColGainsCell(s.gradB, a, a.shape[0], j, k);
    }
  }

  /**
   * The scratch arrays are never reset: a second run adds the same sums again,
   * so after two runs every cell has gained twice its row or column sum.
   */
  lemma RunTwice(a: Arr, b: Arr, s: Scratch)
    requires Aligned(a, b, s)
    ensures Run(a, b, s, JK).1 == None
    ensures Run(a, b, Run(a, b, s, JK).0, JK).1 == None
    ensures Aligned(a, b, Run(a, b, Run(a, b, s, JK).0, JK).0)
    ensures var r := Run(a, b, Run(a, b, s, JK).0, JK).0;
      (forall i, j :: 0 <= i < a.shape[0] && 0 <= j < a.shape[1] ==>
        Cell(r.gradA, i, j) == Cell(s.gradA, i, j) + 2 * RowSum(b, j, b.shape[1])) &&
      (forall j, k :: 0 <= j < a.shape[1] && 0 <= k < b.shape[1] ==>
        Cell(r.gradB, j, k) == Cell(s.gradB, j, k) + 2 * ColSum(a, j, a.shape[0]))
  {
    RunSums(a, b, s);
    RunSums(a, b, Run(a, b, s, JK).0);
  }

  /**
   * When A has more columns than B has rows, the read `B({j, k})` at j = B's row
   * count raises out_of_range (given any row of A and column of B to loop over).
   */
  lemma RunReadsPastB(a: Arr, b: Arr, s: Scratch)
    requires Layout(a, b, s) && b.shape[0] < a.shape[1]
    requires a.shape[0] > 0 && b.shape[1] > 0
    ensures Run(a, b, s, JK).1 == Some(OutOfRange)
  {
    JRunReadsPastB(a, b, s);
    LoopFaultsAt(IBody(a, b, JK), s, 0, a.shape[0]);
  }

  /** The first row's j loop raises out_of_range when it reaches column j = B's row count. */
  lemma JRunReadsPastB(a: Arr, b: Arr, s: Scratch)
    requires Layout(a, b, s) && b.shape[0] < a.shape[1]
    requires a.shape[0] > 0 && b.shape[1] > 0
    ensures JRun(a, b, s, 0, a.shape[1], JK).1 == Some(OutOfRange)
  {
    JRunBeforePastB(a, b, s, b.shape[0]);
    KRunReadsPastB(a, b, JRun(a, b, s, 0, b.shape[0], JK).0, b.shape[0]);
    LoopFaultsAt(JBody(a, b, 0, JK), s, b.shape[0], a.shape[1]);
  }

  /** The k loop at column j = B's row count raises out_of_range on its first read of B. */
  lemma KRunReadsPastB(a: Arr, b: Arr, t: Scratch, n2: nat)
    requires RowMajorMatrix(b) && n2 == b.shape[0] && b.shape[1] > 0
    ensures KRun(a, b, t, 0, n2, b.shape[1], JK).1 == Some(OutOfRange)
  {
    Locate2RowMajor(b, n2, 0);
    LoopFaultsAt(KBody(a, b, 0, n2, JK), t, 0, b.shape[1]);
  }

  /** Every column j < B's row count of the first row reads only inside B. */
  lemma JRunBeforePastB(a: Arr, b: Arr, s: Scratch, j: nat)
    requires Layout(a, b, s) && j <= b.shape[0] < a.shape[1] && a.shape[0] > 0
    ensures JRun(a, b, s, 0, j, JK).1 == None
  {
    var inv := (t: Scratch) => Layout(a, b, t);
    forall t: Scratch, x: nat | inv(t) && x < j
      ensures JBody(a, b, 0, JK)(t, x).1.None? && inv(JBody(a, b, 0, JK)(t, x).0)
    {
      KRunAdds(a, b, t, 0, x, b.shape[1]);
    }
    LoopKeeps(JBody(a, b, 0, JK), inv, s, j);
  }

  /** The 2-by-2 matrix stored row by row in d. */
  function M(d: seq<int>): Arr { Arr([2, 2], [2, 1], d) }

  /** A 2-by-2 row-major matrix is determined by its four cells. */
  lemma Cells2(x: Arr, d: seq<int>)
    requires RowMajorMatrix(x) && x.shape == [2, 2] && |d| == 4
    requires Cell(x, 0, 0) == d[0] && Cell(x, 0, 1) == d[1] && Cell(x, 1, 0) == d[2] && Cell(x, 1, 1) == d[3]
    ensures x == M(d)
  {
    assert Idx(2, 1, 0) == 2 && Idx(2, 1, 1) == 3;
    assert x.datas == d;
  }

  lemma ExampleJK(a: Arr, b: Arr, s: Scratch)
    requires a == M([1, 2, 3, 4]) && b == M([5, 6, 7, 8]) && s == Scratch(M([0, 0, 0, 0]), M([0, 0, 0, 0]))
    ensures Run(a, b, s, JK) == (Scratch(M([11, 15, 11, 15]), M([4, 4, 6, 6])), None)
  {
    RunSums(a, b, s);
    var r := Run(a, b, s, JK).0;
    assert RowSum(b, 0, 2) == 11 && RowSum(b, 1, 2) == 15;
    assert ColSum(a, 0, 2) == 4 && ColSum(a, 1, 2) == 6;
    assert Cell(r.gradA, 0, 0) == 11 && Cell(r.gradA, 0, 1) == 15 && Cell(r.gradA, 1, 0) == 11 && Cell(r.gradA, 1, 1) == 15;
    assert Cell(r.gradB, 0, 0) == 4 && Cell(r.gradB, 0, 1) == 4 && Cell(r.gradB, 1, 0) == 6 && Cell(r.gradB, 1, 1) == 6;
    Cells2(r.gradA, [11, 15, 11, 15]);
    Cells2(r.gradB, [4, 4, 6, 6]);
  }



  // ---------------------------------------------------------------------------
  // backward() as written: `_newGradB({i, j}) += A({i, j})`.
  // ---------------------------------------------------------------------------

  /** Operands for which every cell backward() touches exists: B's scratch is at least as large as A. */
  predicate AlignedIJ(a: Arr, b: Arr, s: Scratch)
  {
    Aligned(a, b, s) && a.shape[0] <= b.shape[0] && a.shape[1] <= b.shape[1]
  }

  /** v added to itself k times. */
  function Times(k: nat, v: int): int
    decreases k
  {
    if k == 0 then 0 else Times(k - 1, v) + v
  }

  lemma {:induction false} TimesMul(k: nat, v: int)
    ensures Times(k, v) == k * v
    decreases k
  {
    if k > 0 { TimesMul(k - 1, v); }
  }

  lemma StepAddsIJ(a: Arr, b: Arr, s: Scratch, i: nat, j: nat, k: nat)
    requires Layout(a, b, s) && i < a.shape[0] && j < a.shape[1] && j < b.shape[0] && k < b.shape[1]
    requires i < b.shape[0] && j < b.shape[1]
    ensures Step(a, b, s, i, j, k, IJ) == (Scratch(AddCell(s.gradA, i, j, Cell(b, j, k)), AddCell(s.gradB, i, j, Cell(a, i, j))), None)
  {
    Locate2RowMajor(b, j, k);
    Locate2RowMajor(a, i, j);
    Locate2RowMajor(s.gradA, i, j);
    Locate2RowMajor(s.gradB, i, j);
  }

  /** Scratch s after the first k passes at (i, j) as written: A(i, j) lands k times on cell (i, j) of B's scratch. */
  function KGainIJ(a: Arr, b: Arr, s: Scratch, i: nat, j: nat, k: nat): (t: Scratch)
    ensures AlignedIJ(a, b, s) ==> AlignedIJ(a, b, t)
  {
    if AlignedIJ(a, b, s) && i < a.shape[0] && j < a.shape[1] && k <= b.shape[1] then
      Scratch(AddCell(s.gradA, i, j, RowSum(b, j, k)), AddCell(s.gradB, i, j, Times(k, Cell(a, i, j))))
    else s
  }

  lemma KGainStepIJ(a: Arr, b: Arr, s: Scratch, i: nat, j: nat, k: nat)
    requires AlignedIJ(a, b, s) && i < a.shape[0] && j < a.shape[1] && k < b.shape[1]
    ensures Step(a, b, KGainIJ(a, b, s, i, j, k), i, j, k, IJ) == (KGainIJ(a, b, s, i, j, k + 1), None)
  {
    StepAddsIJ(a, b, KGainIJ(a, b, s, i, j, k), i, j, k);
    AddCellTwice(s.gradA, i, j, RowSum(b, j, k), Cell(b, j, k));
    AddCellTwice(s.gradB, i, j, Times(k, Cell(a, i, j)), Cell(a, i, j));
  }

  lemma KRunAddsIJ(a: Arr, b: Arr, s: Scratch, i: nat, j: nat, k: nat)
    requires AlignedIJ(a, b, s) && i < a.shape[0] && j < a.shape[1] && k <= b.shape[1]
    ensures KRun(a, b, s, i, j, k, IJ) == (KGainIJ(a, b, s, i, j, k), None)
  {
    var g := (x: nat) => KGainIJ(a, b, s, i, j, x);
    forall x: nat | x < k
      ensures KBody(a, b, i, j, IJ)(g(x), x) == (g(x + 1), None)
    {
      KGainStepIJ(a, b, s, i, j, x);
    }
    AddCellZero(s.gradA, i, j);
    AddCellZero(s.gradB, i, j);
    LoopTracks(KBody(a, b, i, j, IJ), g, k);
  }

  /** B's scratch y once row i has run its first j columns as written: cell (i, j') gains p * A(i, j'). */
  function RowScaled(y: Arr, a: Arr, i: nat, j: nat, p: nat): (w: Arr)
    requires RowMajorMatrix(y) && RowMajorMatrix(a) && a.shape[0] <= y.shape[0] && a.shape[1] <= y.shape[1]
    requires i < a.shape[0] && j <= a.shape[1]
    ensures RowMajorMatrix(w) && w.shape == y.shape
    decreases j
  {
    if j == 0 then y else AddCell(RowScaled(y, a, i, j - 1, p), i, j - 1, Times(p, Cell(a, i, j - 1)))
  }

  /** B's scratch y once rows 0 .. i - 1 have run as written. */
  function AllRowsScaled(y: Arr, a: Arr, i: nat, p: nat): (w: Arr)
    requires RowMajorMatrix(y) && RowMajorMatrix(a) && a.shape[0] <= y.shape[0] && a.shape[1] <= y.shape[1]
    requires i <= a.shape[0]
    ensures RowMajorMatrix(w) && w.shape == y.shape
    decreases i
  {
    if i == 0 then y else RowScaled(AllRowsScaled(y, a, i - 1, p), a, i - 1, a.shape[1], p)
  }

  function JGainIJ(a: Arr, b: Arr, s: Scratch, i: nat, j: nat): (t: Scratch)
    ensures AlignedIJ(a, b, s) ==> AlignedIJ(a, b, t)
  {
    if AlignedIJ(a, b, s) && i < a.shape[0] && j <= a.shape[1] then
      Scratch(RowGains(s.gradA, b, i, j), RowScaled(s.gradB, a, i, j, b.shape[1]))
    else s
  }

  lemma JGainStepIJ(a: Arr, b: Arr, s: Scratch, i: nat, j: nat)
    requires AlignedIJ(a, b, s) && i < a.shape[0] && j < a.shape[1]
    ensures KRun(a, b, JGainIJ(a, b, s, i, j), i, j, b.shape[1], IJ) == (JGainIJ(a, b, s, i, j + 1), None)
  {
    KRunAddsIJ(a, b, JGainIJ(a, b, s, i, j), i, j, b.shape[1]);
  }

  lemma JRunAddsIJ(a: Arr, b: Arr, s: Scratch, i: nat, j: nat)
    requires AlignedIJ(a, b, s) && i < a.shape[0] && j <= a.shape[1]
    ensures JRun(a, b, s, i, j, IJ) == (JGainIJ(a, b, s, i, j), None)
  {
    var g := (x: nat) => JGainIJ(a, b, s, i, x);
    forall x: nat | x < j
      ensures JBody(a, b, i, IJ)(g(x), x) == (g(x + 1), None)
    {
      JGainStepIJ(a, b, s, i, x);
    }
    LoopTracks(JBody(a, b, i, IJ), g, j);
  }

  function IGainIJ(a: Arr, b: Arr, s: Scratch, i: nat): (t: Scratch)
    ensures AlignedIJ(a, b, s) ==> AlignedIJ(a, b, t)
  {
    if AlignedIJ(a, b, s) && i <= a.shape[0] then
      Scratch(AllRowGains(s.gradA, b, i), AllRowsScaled(s.gradB, a, i, b.shape[1]))
    else s
  }

  lemma IGainStepIJ(a: Arr, b: Arr, s: Scratch, i: nat)
    requires AlignedIJ(a, b, s) && i < a.shape[0]
    ensures JRun(a, b, IGainIJ(a, b, s, i), i, a.shape[1], IJ) == (IGainIJ(a, b, s, i + 1), None)
  {
    JRunAddsIJ(a, b, IGainIJ(a, b, s, i), i, a.shape[1]);
  }

  lemma IRunAddsIJ(a: Arr, b: Arr, s: Scratch, i: nat)
    requires AlignedIJ(a, b, s) && i <= a.shape[0]
    ensures IRun(a, b, s, i, IJ) == (IGainIJ(a, b, s, i), None)
  {
    var g := (x: nat) => IGainIJ(a, b, s, x);
    forall x: nat | x < i
      ensures IBody(a, b, IJ)(g(x), x) == (g(x + 1), None)
    {
      IGainStepIJ(a, b, s, x);
    }
    LoopTracks(IBody(a, b, IJ), g, i);
  }

  lemma {:induction false} RowScaledCell(y: Arr, a: Arr, i: nat, j: nat, p: nat, i2: nat, j2: nat)
    requires RowMajorMatrix(y) && RowMajorMatrix(a) && a.shape[0] <= y.shape[0] && a.shape[1] <= y.shape[1]
    requires i < a.shape[0] && j <= a.shape[1] && i2 < y.shape[0] && j2 < y.shape[1]
    ensures Cell(RowScaled(y, a, i, j, p), i2, j2) == Cell(y, i2, j2) + (if i2 == i && j2 < j then Times(p, Cell(a, i, j2)) else 0)
    decreases j
  {
    if j > 0 {
      RowScaledCell(y, a, i, j - 1, p, i2, j2);
      AddCellAt(RowScaled(y, a, i, j - 1, p), i, j - 1, Times(p, Cell(a, i, j - 1)), i2, j2);
    }
  }

  lemma {:induction false} AllRowsScaledCell(y: Arr, a: Arr, i: nat, p: nat, i2: nat, j2: nat)
    requires RowMajorMatrix(y) && RowMajorMatrix(a) && a.shape[0] <= y.shape[0] && a.shape[1] <= y.shape[1]
    requires i <= a.shape[0] && i2 < y.shape[0] && j2 < y.shape[1]
    ensures Cell(AllRowsScaled(y, a, i, p), i2, j2) ==
      Cell(y, i2, j2) + (if i2 < i && j2 < a.shape[1] then Times(p, Cell(a, i2, j2)) else 0)
    decreases i
  {
    if i > 0 {
      AllRowsScaledCell(y, a, i - 1, p, i2, j2);
      RowScaledCell(AllRowsScaled(y, a, i - 1, p), a, i - 1, a.shape[1], p, i2, j2);
    }
  }

  /**
   * backward() as written, on operands whose cells it can reach: A's scratch gains
   * the same row sums as in backward(grad), but B's scratch gains p * A(i, j) at
   * cell (i, j), p being B's column count, instead of A's column sums at (j, k).
   */
  lemma RunSumsIJ(a: Arr, b: Arr, s: Scratch)
    requires AlignedIJ(a, b, s)
    ensures Run(a, b, s, IJ).1 == None
    ensures var r := Run(a, b, s, IJ).0;
      AlignedIJ(a, b, r) &&
      (forall i, j :: 0 <= i < a.shape[0] && 0 <= j < a.shape[1] ==>
        Cell(r.gradA, i, j) == Cell(s.gradA, i, j) + RowSum(b, j, b.shape[1])) &&
      (forall i, j :: 0 <= i < b.shape[0] && 0 <= j < b.shape[1] ==>
        Cell(r.gradB, i, j) == Cell(s.gradB, i, j) + (if i < a.shape[0] && j < a.shape[1] then b.shape[1] * Cell(a, i, j) else 0))
  {
    IRunAddsIJ(a, b, s, a.shape[0]);
    var r := Run(a, b, s, IJ).0;
    forall i, j | 0 <= i < a.shape[0] && 0 <= j < a.shape[1]
      ensures Cell(r.gradA, i, j) == Cell(s.gradA, i, j) + RowSum(b, j, b.shape[1])
    {
      AllRowGainsCell(s.gradA, b, a.shape[0], i, j);
    }
    forall i, j | 0 <= i < b.shape[0] && 0 <= j < b.shape[1]
      ensures Cell(r.gradB, i, j) == Cell(s.gradB, i, j) + (if i < a.shape[0] && j < a.shape[1] then b.shape[1] * Cell(a, i, j) else 0)
    {
      AllRowsScaledCell(s.gradB, a, a.shape[0], b.shape[1], i, j);
      if i < a.shape[0] && j < a.shape[1] { TimesMul(b.shape[1], Cell(a, i, j)); }
    }
  }

  /** On A = [[1, 2], [3, 4]] and B = [[5, 6], [7, 8]], backward() as written leaves [[2, 4], [6, 8]] in B's scratch. */
  lemma ExampleIJ(a: Arr, b: Arr, s: Scratch)
    requires a == M([1, 2, 3, 4]) && b == M([5, 6, 7, 8]) && s == Scratch(M([0, 0, 0, 0]), M([0, 0, 0, 0]))
    ensures Run(a, b, s, IJ) == (Scratch(M([11, 15, 11, 15]), M([2, 4, 6, 8])), None)
    ensures Run(a, b, s, IJ) != Run(a, b, s, JK)
  {
    RunSumsIJ(a, b, s);
    var r := Run(a, b, s, IJ).0;
    assert RowSum(b, 0, 2) == 11 && RowSum(b, 1, 2) == 15;
    assert Cell(r.gradA, 0, 0) == 11 && Cell(r.gradA, 0, 1) == 15 && Cell(r.gradA, 1, 0) == 11 && Cell(r.gradA, 1, 1) == 15;
    assert Cell(r.gradB, 0, 0) == 2 && Cell(r.gradB, 0, 1) == 4 && Cell(r.gradB, 1, 0) == 6 && Cell(r.gradB, 1, 1) == 8;
    Cells2(r.gradA, [11, 15, 11, 15]);
    Cells2(r.gradB, [2, 4, 6, 8]);
    ExampleJK(a, b, s);
    assert M([2, 4, 6, 8]).datas[0] != M([4, 4, 6, 6]).datas[0];
  }
}
