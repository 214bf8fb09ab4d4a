/**
 * `lava::NetworkGenerator::generateNetwork`: the 32-byte header (magic, version,
 * the generator's own architecture hash, 2 * hiddenLayers + 1 as the layer
 * count), then a configuration block (a 16-byte table of section sizes,
 * patched in once the four sections are written), then the records of the
 * generated layers, encoded as the saver encodes them.  The doubles of the
 * configuration are written through `bits`, the IEEE-754 encoding, and the
 * random initial weights through `draw`; neither is modelled further.
 */
module NetworkGeneration {
  import opened Wrappers
  import opened ByteCodec
  import opened NetworkFormat
  import NC = NetworkConfiguration

  // ---------------------------------------------------------------------------
  // The generator's architecture hash
  // ---------------------------------------------------------------------------

  /** The numbers the generator's hash folds in after its seed: the hidden sizes, then the output size. */
  function HashInputs(a: NC.Architecture): seq<nat>
  {
    a.hiddenSizes + [a.outputSize]
  }

  /** The generator's hash of an architecture, in `uint64_t` arithmetic. */
  function GeneratorHash(a: NC.Architecture): nat
  {
    Fold(a.inputSize % Limit64, HashInputs(a))
  }

  /** One step of the fold. */
  lemma FoldOne(seed: nat, x: nat)
    ensures Fold(seed, [x]) == (seed * 31 + x) % Limit64
  {
    assert [x][1..] == [];
  }

  /**
   * `computeArchHash`: the hash starts as the input size (a 64-bit `size_t`)
   * and takes `hash * 31 + size` for every hidden size and then the output
   * size, in `uint64_t` arithmetic.
   */
  method GeneratorArchHash(a: NC.Architecture) returns (hash: nat)
    ensures hash == GeneratorHash(a)
    ensures hash == Polynomial(a.inputSize, HashInputs(a)) % Limit64 && hash < Limit64
  {
    var sizes := a.hiddenSizes;
    var seed := a.inputSize % Limit64;
    hash := seed;
    var i := 0;
    while i < |sizes|
      invariant i <= |sizes| && hash == Fold(seed, sizes[..i])
    {
      FoldAppend(seed, sizes[..i], [sizes[i]]);
      FoldOne(hash, sizes[i]);
      assert sizes[..i + 1] == sizes[..i] + [sizes[i]];
      hash := (hash * 31 + sizes[i]) % Limit64;
      i := i + 1;
    }
    assert sizes[..i] == sizes;
    FoldAppend(seed, sizes, [a.outputSize]);
    FoldOne(hash, a.outputSize);
    hash := (hash * 31 + a.outputSize) % Limit64;
    FoldWraps(a.inputSize, HashInputs(a));
    FoldBound(seed, HashInputs(a));
  }

  // ---------------------------------------------------------------------------
  // The generated layers
  // ---------------------------------------------------------------------------

  /** A layer without its buffers: the kind, and the sizes of a Linear layer. */
  datatype Shape = LinearShape(inputs: nat, outputs: nat) | ReLUShape | SoftmaxShape

  function ShapeOf(l: Layer): Shape
  {
    match l
    case Linear(i, o, _, _) => LinearShape(i, o)
    case ReLU => ReLUShape
    case Softmax => SoftmaxShape
  }

  /** The layers `generateLayers` pushes from a previous size on: a Linear and a ReLU per size, then the output Linear. */
  function Chain(prev: nat, sizes: seq<nat>, out: nat): (c: seq<Shape>)
    ensures |c| == 2 * |sizes| + 1
    decreases |sizes|
  {
    if sizes == [] then [LinearShape(prev, out)]
    else [LinearShape(prev, sizes[0]), ReLUShape] + Chain(sizes[0], sizes[1..], out)
  }

  /** The shapes of one configuration. */
  function Generated(a: NC.Architecture): seq<Shape>
  {
    Chain(a.inputSize, a.hiddenSizes, a.outputSize)
  }

  /** The input size of the Linear layer for hidden size k: the previous hidden size, or the input size for the first. */
  function InputOf(prev: nat, sizes: seq<nat>, k: nat): nat
    requires k <= |sizes|
  {
    if k == 0 then prev else sizes[k - 1]
  }

  /**
   * Every even position holds a Linear layer from the previous size to the
   * next one, every odd position a ReLU; the last layer maps the last hidden
   * size (or the input size) to the output size.
   */
  lemma {:induction false} ChainShapes(prev: nat, sizes: seq<nat>, out: nat)
    ensures var c := Chain(prev, sizes, out);
      (forall k :: 0 <= k < |sizes| ==> c[2 * k] == LinearShape(InputOf(prev, sizes, k), sizes[k]) && c[2 * k + 1] == ReLUShape) &&
      c[2 * |sizes|] == LinearShape(InputOf(prev, sizes, |sizes|), out)
    decreases |sizes|
  {
    if sizes != [] {
      var rest := Chain(sizes[0], sizes[1..], out);
      ChainShapes(sizes[0], sizes[1..], out);
      var c := [LinearShape(prev, sizes[0]), ReLUShape] + rest;
      assert Chain(prev, sizes, out) == c;
      forall k | 1 <= k < |sizes|
        ensures c[2 * k] == LinearShape(InputOf(prev, sizes, k), sizes[k]) && c[2 * k + 1] == ReLUShape
      {
        AfterPair(LinearShape(prev, sizes[0]), ReLUShape, rest, 2 * k);
        AfterPair(LinearShape(prev, sizes[0]), ReLUShape, rest, 2 * k + 1);
        assert 2 * k - 2 == 2 * (k - 1);
        assert sizes[1..][k - 1] == sizes[k];
        assert InputOf(sizes[0], sizes[1..], k - 1) == InputOf(prev, sizes, k);
      }
      AfterPair(LinearShape(prev, sizes[0]), ReLUShape, rest, 2 * |sizes|);
      assert InputOf(sizes[0], sizes[1..], |sizes[1..]|) == InputOf(prev, sizes, |sizes|);
    }
  }

  /** Element i of a sequence behind two elements. */
  lemma AfterPair<T>(x: T, y: T, rest: seq<T>, i: nat)
    requires 2 <= i < 2 + |rest|
    ensures ([x, y] + rest)[i] == rest[i - 2]
  {
  }

  /** Consecutive Linear layers fit together; the first takes the input size and the last gives the output size. */
  lemma ChainLinks(prev: nat, sizes: seq<nat>, out: nat)
    ensures var c := Chain(prev, sizes, out);
      c[0].LinearShape? && c[0].inputs == prev &&
      c[|c| - 1].LinearShape? && c[|c| - 1].outputs == out &&
      forall k :: 0 <= k < |sizes| ==> c[2 * k].LinearShape? && c[2 * k + 2].LinearShape? && c[2 * k].outputs == c[2 * k + 2].inputs
  {
    ChainShapes(prev, sizes, out);
    var c := Chain(prev, sizes, out);
    forall k | 0 <= k < |sizes|
      ensures c[2 * k].LinearShape? && c[2 * k + 2].LinearShape? && c[2 * k].outputs == c[2 * k + 2].inputs
    {
      if k + 1 < |sizes| {
        assert c[2 * (k + 1)] == LinearShape(InputOf(prev, sizes, k + 1), sizes[k + 1]);
      }
    }
  }

  /** `generateLayers` without the initialisation: the loop over the hidden sizes, then the output layer. */
  method GenerateLayers(a: NC.Architecture) returns (layers: seq<Shape>)
    ensures layers == Generated(a)
  {
    var sizes := a.hiddenSizes;
    layers := [];
    var prevSize := a.inputSize;
    var i := 0;
    assert sizes[0..] == sizes;
    while i < |sizes|
      invariant i <= |sizes| && layers + Chain(prevSize, sizes[i..], a.outputSize) == Generated(a)
    {
      assert sizes[i..][1..] == sizes[i + 1..];
      layers := layers + [LinearShape(prevSize, sizes[i])];
      layers := layers + [ReLUShape];
      prevSize := sizes[i];
      i := i + 1;
    }
    layers := layers + [LinearShape(prevSize, a.outputSize)];
  }

  /**
   * `initializeWeights` with its random numbers as a parameter: `draw(i, j)`
   * is the bit pattern of the j-th number drawn for layer i (weights first,
   * then biases); biases are the pattern of 0.0 under `BiasInit::ZEROS`.
   */
  function Initialize(shapes: seq<Shape>, init: NC.Initialization, draw: (nat, nat) -> Word64): (layers: seq<Layer>)
    ensures |layers| == |shapes|
  {
    seq(|shapes|, i requires 0 <= i < |shapes| => LayerOf(shapes[i], i, init, draw))
  }

  /** Layer i of the initialised network: random weights, zero or random biases. */
  function LayerOf(s: Shape, i: nat, init: NC.Initialization, draw: (nat, nat) -> Word64): (l: Layer)
    ensures ShapeOf(l) == s
    ensures l.Linear? ==> |l.weights| == l.inputs * l.outputs && |l.biases| == l.outputs
  {
    match s
    case LinearShape(inputs, outputs) =>
      var count := inputs * outputs;
      var weights := seq(count, j requires 0 <= j => draw(i, j));
      var biases := if init.biasInit == NC.Zeros then seq(outputs, j => 0) else seq(outputs, j requires 0 <= j => draw(i, count + j));
      Linear(inputs, outputs, weights, biases)
    case ReLUShape => ReLU
    case SoftmaxShape => Softmax
  }

  /** Initialisation keeps every shape. */
  lemma InitializeShapes(shapes: seq<Shape>, init: NC.Initialization, draw: (nat, nat) -> Word64)
    ensures var layers := Initialize(shapes, init, draw);
      forall i :: 0 <= i < |shapes| ==> ShapeOf(layers[i]) == shapes[i]
  {
  }

  /** The weights are the first numbers drawn for the layer; the biases are zeros or the numbers drawn next. */
  lemma LayerDraws(s: Shape, i: nat, init: NC.Initialization, draw: (nat, nat) -> Word64)
    requires s.LinearShape?
    ensures var l := LayerOf(s, i, init, draw);
      (forall j :: 0 <= j < |l.weights| ==> l.weights[j] == draw(i, j)) &&
      (init.biasInit == NC.Zeros ==> forall j :: 0 <= j < |l.biases| ==> l.biases[j] == 0) &&
      (init.biasInit != NC.Zeros ==> forall j :: 0 <= j < |l.biases| ==> l.biases[j] == draw(i, |l.weights| + j))
  {
  }

  // ---------------------------------------------------------------------------
  // The configuration block
  // ---------------------------------------------------------------------------

  /** The enumerators' values: `XAVIER, HE, UNIFORM` and `ZEROS, UNIFORM` from 0. */
  function WeightCode(w: NC.WeightInit): nat
  {
    match w
    case Xavier => 0
    case He => 1
    case UniformWeights => 2
  }

  function BiasCode(b: NC.BiasInit): nat
  {
    match b
    case Zeros => 0
    case UniformBiases => 1
  }

  /** Each size as a `uint32_t`, in order. */
  function Sizes(xs: seq<nat>): (bs: seq<Byte>)
    ensures |bs| == 4 * |xs|
  {
    seq(4 * |xs|, i requires 0 <= i < 4 * |xs| => U32(xs[i / 4])[i % 4])
  }

  /** The bytes of a string, one per character. */
  function Chars(s: string): (bs: seq<Byte>)
    ensures |bs| == |s|
  {
    seq(|s|, i requires 0 <= i < |s| => (s[i] as nat) % 256)
  }

  /** Learning rate, batch size, dropout, epochs, samples per epoch: 28 bytes. */
  function HyperparameterBytes(h: NC.Hyperparameters, bits: real -> Word64): (bs: seq<Byte>)
    ensures |bs| == 28
  {
    U64(bits(h.learningRate)) + U32(h.batchSize) + U64(bits(h.dropout)) + U32(h.epochs) + U32(h.samplesPerEpoch)
  }

  /** Input size, output size, hidden layer count, the number of hidden sizes and the sizes: 16 bytes and 4 per size. */
  function ArchitectureBytes(a: NC.Architecture): (bs: seq<Byte>)
    ensures |bs| == 16 + 4 * |a.hiddenSizes|
  {
    U32(a.inputSize) + U32(a.outputSize) + U32(a.hiddenLayers) + U32(|a.hiddenSizes|) + Sizes(a.hiddenSizes)
  }

  /** The two enumerators, four bytes each. */
  function InitializationBytes(i: NC.Initialization): (bs: seq<Byte>)
    ensures |bs| == 8
  {
    U32(WeightCode(i.weightInit)) + U32(BiasCode(i.biasInit))
  }

  /** The length of the type as a `uint32_t`, that many characters, decay rate, decay steps, minimum rate: 24 bytes and the type. */
  function SchedulerBytes(s: NC.LearningRateScheduler, bits: real -> Word64): (bs: seq<Byte>)
    ensures |bs| == 24 + |s.kind| % Limit32
    ensures |s.kind| < Limit32 ==> |bs| == 24 + |s.kind|
  {
    U32(|s.kind|) + Chars(s.kind[..|s.kind| % Limit32]) + U64(bits(s.decayRate)) + U32(s.decaySteps) + U64(bits(s.minLR))
  }

  /** `ConfigHeader`: the four section sizes. */
  function ConfigHeaderBytes(hyperparams: nat, arch: nat, init: nat, lr: nat): (bs: seq<Byte>)
    ensures |bs| == 16
  {
    U32(hyperparams) + U32(arch) + U32(init) + U32(lr)
  }

  /** The four sections after their size table. */
  function Sections(c: NC.Config, bits: real -> Word64): seq<Byte>
  {
    HyperparameterBytes(c.hyperparameters, bits) + ArchitectureBytes(c.architecture) +
    InitializationBytes(c.initialization) + SchedulerBytes(c.lrScheduler, bits)
  }

  /** The block `writeConfiguration` leaves in the file: the table of the section sizes as patched, then the sections. */
  function ConfigBlock(c: NC.Config, bits: real -> Word64): seq<Byte>
  {
    ConfigHeaderBytes(|HyperparameterBytes(c.hyperparameters, bits)|, |ArchitectureBytes(c.architecture)|,
      |InitializationBytes(c.initialization)|, |SchedulerBytes(c.lrScheduler, bits)|) + Sections(c, bits)
  }

  /** Three-part concatenation, regrouped. */
  lemma Assoc<T>(a: seq<T>, b: seq<T>, c: seq<T>)
    ensures a + b + c == a + (b + c)
  {
  }

  /** Appending to a stream that is a prefix and a body appends to the body. */
  lemma Extend<T>(out: seq<T>, prefix: seq<T>, body: seq<T>, x: seq<T>)
    requires out == prefix + body
    ensures out + x == prefix + (body + x)
  {
  }

  /** Replacing the placeholder after a prefix. */
  lemma Patch<T>(a: seq<T>, z: seq<T>, b: seq<T>, h: seq<T>)
    requires |z| == |h|
    ensures (a + z + b)[..|a|] + h + (a + z + b)[|a| + |z|..] == a + h + b
  {
    assert (a + z + b)[..|a|] == a;
    assert (a + z + b)[|a| + |z|..] == b;
  }

  /** The `for (size : hiddenSizes)` loop of `writeConfiguration`. */
  method WriteSizes(xs: seq<nat>) returns (bs: seq<Byte>)
    ensures bs == Sizes(xs)
  {
    bs := [];
    var i := 0;
    while i < |xs|
      invariant i <= |xs| && bs == Sizes(xs[..i])
    {
      SizesSnoc(xs[..i], xs[i]);
      assert xs[..i + 1] == xs[..i] + [xs[i]];
      bs := bs + U32(xs[i]);
      i := i + 1;
    }
    assert xs[..i] == xs;
  }

  /** One size more is four bytes more. */
  lemma SizesSnoc(xs: seq<nat>, x: nat)
    ensures Sizes(xs + [x]) == Sizes(xs) + U32(x)
  {
    var ys := xs + [x];
    var l := Sizes(ys);
    var r := Sizes(xs) + U32(x);
    forall i | 0 <= i < |l|
      ensures l[i] == r[i]
    {
      if i < 4 * |xs| {
        assert ys[i / 4] == xs[i / 4];
      } else {
        assert i / 4 == |xs| && i % 4 == i - 4 * |xs|;
      }
    }
  }

  /**
   * `writeConfiguration` after `file`: a zero placeholder for the size table,
   * the four sections, then the table written over the placeholder.
   */
  method WriteConfiguration(file: seq<Byte>, c: NC.Config, bits: real -> Word64) returns (out: seq<Byte>)
    ensures out == file + ConfigBlock(c, bits)
  {
    var hyperparamsPos := |file|;
    out := file + Zeros(16);
    var hyperparamsSize, archSize, initSize, lrSchedulerSize;
    out, hyperparamsSize, archSize, initSize, lrSchedulerSize := WriteSections(out, c, bits);
    var table := ConfigHeaderBytes(hyperparamsSize, archSize, initSize, lrSchedulerSize);
    assert ConfigBlock(c, bits) == table + Sections(c, bits);
    Patch(file, Zeros(16), Sections(c, bits), table);
    Assoc(file, table, Sections(c, bits));
    out := out[..hyperparamsPos] + table + out[hyperparamsPos + 16..];
  }

  /** The four sections of `writeConfiguration`, each size taken from the stream positions before and after it. */
  method WriteSections(file: seq<Byte>, c: NC.Config, bits: real -> Word64)
    returns (out: seq<Byte>, hyperparamsSize: nat, archSize: nat, initSize: nat, lrSchedulerSize: nat)
    requires |file| >= 16
    ensures out == file + Sections(c, bits)
    ensures hyperparamsSize == 28 && archSize == 16 + 4 * |c.architecture.hiddenSizes| && initSize == 8
    ensures lrSchedulerSize == 24 + |c.lrScheduler.kind| % Limit32
  {
    var hyperparamsPos := |file| - 16;
    var h := c.hyperparameters;
    out := file + HyperparameterBytes(h, bits);
    ghost var body := HyperparameterBytes(h, bits);
    hyperparamsSize := |out| - hyperparamsPos - 16;
    var a := c.architecture;
    var archPos := |out|;
    var sizes := WriteSizes(a.hiddenSizes);
    Extend(out, file, body, ArchitectureBytes(a));
    Assoc(out, ArchitectureHead(a), sizes);
    out, body := out + ArchitectureHead(a) + sizes, body + ArchitectureBytes(a);
    archSize := |out| - archPos;
    var initPos := |out|;
    Extend(out, file, body, InitializationBytes(c.initialization));
    out, body := out + InitializationBytes(c.initialization), body + InitializationBytes(c.initialization);
    initSize := |out| - initPos;
    var lr := c.lrScheduler;
    var lrPos := |out|;
    Extend(out, file, body, SchedulerBytes(lr, bits));
    out, body := out + SchedulerBytes(lr, bits), body + SchedulerBytes(lr, bits);
    lrSchedulerSize := |out| - lrPos;
  }

  /** The four fixed fields of the architecture section, before the sizes. */
  function ArchitectureHead(a: NC.Architecture): (bs: seq<Byte>)
    ensures |bs| == 16
  {
    U32(a.inputSize) + U32(a.outputSize) + U32(a.hiddenLayers) + U32(|a.hiddenSizes|)
  }

  // ---------------------------------------------------------------------------
  // The whole file
  // ---------------------------------------------------------------------------

  /** The layers `generateNetwork` writes. */
  function GeneratedLayers(c: NC.Config, draw: (nat, nat) -> Word64): seq<Layer>
  {
    Initialize(Generated(c.architecture), c.initialization, draw)
  }

  /** What `generateNetwork` writes: header, configuration block, layer records. */
  function GeneratedFile(c: NC.Config, bits: real -> Word64, draw: (nat, nat) -> Word64): seq<Byte>
  {
    HeaderBytes(GeneratorHash(c.architecture), c.architecture.hiddenLayers * 2 + 1) +
    (ConfigBlock(c, bits) + Records(GeneratedLayers(c, draw)))
  }

  /** `generateNetwork` after the file is open. */
  method GenerateNetwork(c: NC.Config, bits: real -> Word64, draw: (nat, nat) -> Word64) returns (file: seq<Byte>)
    ensures file == GeneratedFile(c, bits, draw)
  {
    var a := c.architecture;
    var hash := GeneratorArchHash(a);
    var header := HeaderBytes(hash, a.hiddenLayers * 2 + 1);
    file := WriteConfiguration(header, c, bits);
    var shapes := GenerateLayers(a);
    var layers := Initialize(shapes, c.initialization, draw);
    var records := WriteLayers(layers);
    Assoc(header, ConfigBlock(c, bits), records);
    file := file + records;
  }

  // ---------------------------------------------------------------------------
  // What the generated file promises
  // ---------------------------------------------------------------------------

  /** Sizes a `uint32_t` field holds. */
  predicate SmallSizes(a: NC.Architecture)
  {
    a.inputSize < Limit32 && a.outputSize < Limit32 && forall k :: 0 <= k < |a.hiddenSizes| ==> a.hiddenSizes[k] < Limit32
  }

  /** A shape whose sizes fit 32 bits. */
  predicate SmallShape(s: Shape)
  {
    s.LinearShape? ==> s.inputs < Limit32 && s.outputs < Limit32
  }

  /** Every generated shape takes its sizes from the configuration. */
  lemma GeneratedSmall(a: NC.Architecture, i: nat)
    requires SmallSizes(a) && i < |Generated(a)|
    ensures SmallShape(Generated(a)[i])
  {
    ChainShapes(a.inputSize, a.hiddenSizes, a.outputSize);
    var k := i / 2;
    if i % 2 == 0 {
      assert i == 2 * k;
    } else {
      assert i == 2 * k + 1;
    }
  }

  /** Initialising a shape of 32-bit sizes gives a well-formed layer. */
  lemma LayerWellFormed(s: Shape, i: nat, init: NC.Initialization, draw: (nat, nat) -> Word64)
    requires SmallShape(s)
    ensures WellFormed(LayerOf(s, i, init, draw))
  {
  }

  /** With sizes that fit 32 bits, every generated layer has buffers of its declared sizes. */
  lemma GeneratedWellFormed(a: NC.Architecture, init: NC.Initialization, draw: (nat, nat) -> Word64)
    requires SmallSizes(a)
    ensures var layers := Initialize(Generated(a), init, draw);
      |layers| == 2 * |a.hiddenSizes| + 1 && forall i :: 0 <= i < |layers| ==> WellFormed(layers[i])
  {
    var shapes := Generated(a);
    var layers := Initialize(shapes, init, draw);
    forall i | 0 <= i < |layers|
      ensures WellFormed(layers[i])
    {
      GeneratedSmall(a, i);
      LayerWellFormed(shapes[i], i, init, draw);
    }
  }

  /**
   * The header's layer count, `hiddenLayers * 2 + 1` in 32 bits, is the number
   * of layers generated when the configuration is valid and the count fits.
   */
  lemma HeaderCount(c: NC.Config, bits: real -> Word64, draw: (nat, nat) -> Word64)
    requires c.architecture.hiddenLayers == |c.architecture.hiddenSizes| && 2 * c.architecture.hiddenLayers + 1 < Limit32
    ensures ParseHeader(Take(GeneratedFile(c, bits, draw), 0, 32)).numLayers == |GeneratedLayers(c, draw)|
  {
    var a := c.architecture;
    var n := a.hiddenLayers * 2 + 1;
    SmallCount(n);
    GeneratedCount(c, draw);
    var rest := HeaderFirst(c, bits, draw);
    HeaderRoundTrip(GeneratorHash(a), n, rest);
  }

  /** A Linear and a ReLU layer per hidden size, and the output layer. */
  lemma GeneratedCount(c: NC.Config, draw: (nat, nat) -> Word64)
    ensures |GeneratedLayers(c, draw)| == 2 * |c.architecture.hiddenSizes| + 1
  {
  }

  /** The generated file opens with its header. */
  lemma HeaderFirst(c: NC.Config, bits: real -> Word64, draw: (nat, nat) -> Word64) returns (rest: seq<Byte>)
    ensures GeneratedFile(c, bits, draw) == HeaderBytes(GeneratorHash(c.architecture), c.architecture.hiddenLayers * 2 + 1) + rest
  {
    rest := ConfigBlock(c, bits) + Records(GeneratedLayers(c, draw));
  }

  /** An odd count stays odd, so nonzero, in 32 bits. */
  lemma OddCount(h: nat)
    ensures (h * 2 + 1) % Limit32 != 0
  {
    var n := h * 2 + 1;
    var m := 0x8000_0000 * (n / Limit32);
    assert n == 2 * m + n % Limit32;
  }

  /** The size table, and so the block, starts with the hyperparameter section's size. */
  lemma ConfigBlockStart(c: NC.Config, bits: real -> Word64) returns (tail: seq<Byte>)
    ensures ConfigBlock(c, bits) == U32(|HyperparameterBytes(c.hyperparameters, bits)|) + tail
  {
    var w := U32(|HyperparameterBytes(c.hyperparameters, bits)|);
    var x := U32(|ArchitectureBytes(c.architecture)|);
    var y := U32(|InitializationBytes(c.initialization)|);
    var z := U32(|SchedulerBytes(c.lrScheduler, bits)|);
    tail := x + y + z + Sections(c, bits);
    assert ConfigBlock(c, bits) == w + x + y + z + Sections(c, bits);
  }

  /**
   * The loader refuses every generated file: the header passes its checks,
   * but where the first layer header is expected stands the configuration
   * block, whose first field, the hyperparameter section's size 28, is no
   * layer type.
   */
  lemma GeneratedNotLoadable(c: NC.Config, bits: real -> Word64, draw: (nat, nat) -> Word64)
    ensures Load(Some(GeneratedFile(c, bits, draw))) == Err(UnknownLayerType)
  {
    var a := c.architecture;
    var header := HeaderBytes(GeneratorHash(a), a.hiddenLayers * 2 + 1);
    var records := Records(GeneratedLayers(c, draw));
    var code := |HyperparameterBytes(c.hyperparameters, bits)|;
    var tail := ConfigBlockStart(c, bits);
    Assoc(U32(code), tail, records);
    Assoc(header, U32(code), tail + records);
    HeaderRoundTrip(GeneratorHash(a), a.hiddenLayers * 2 + 1, U32(code) + (tail + records));
    OddCount(a.hiddenLayers);
    UnknownCodeRejected(header, code, tail + records);
  }

  /** Without hidden layers the generator's hash is the one the saver computes for the generated layers. */
  lemma HashesAgreeWithoutHidden(a: NC.Architecture, init: NC.Initialization, draw: (nat, nat) -> Word64)
    requires a.hiddenSizes == []
    ensures GeneratorHash(a) == Fold(0, Dims(Initialize(Generated(a), init, draw)))
  {
    var shapes := Generated(a);
    assert shapes == [LinearShape(a.inputSize, a.outputSize)];
    var layers := Initialize(shapes, init, draw);
    InitializeShapes(shapes, init, draw);
    assert ShapeOf(layers[0]) == shapes[0];
    assert layers[1..] == [];
    assert Dims(layers) == [a.inputSize, a.outputSize];
    assert HashInputs(a) == [a.outputSize];
    FoldPair(0, a.inputSize, a.outputSize);
    FoldOne(a.inputSize % Limit64, a.outputSize);
  }

  /** With one hidden layer the saver folds in the hidden size twice, as output of the first Linear layer and input of the second. */
  lemma OneHiddenDims(a: NC.Architecture, init: NC.Initialization, draw: (nat, nat) -> Word64)
    requires |a.hiddenSizes| == 1
    ensures Dims(Initialize(Generated(a), init, draw)) == [a.inputSize, a.hiddenSizes[0], a.hiddenSizes[0], a.outputSize]
  {
    var h := a.hiddenSizes[0];
    var shapes := Generated(a);
    assert a.hiddenSizes[1..] == [];
    assert Chain(h, a.hiddenSizes[1..], a.outputSize) == [LinearShape(h, a.outputSize)];
    assert shapes == [LinearShape(a.inputSize, h), ReLUShape, LinearShape(h, a.outputSize)];
    var layers := Initialize(shapes, init, draw);
    InitializeShapes(shapes, init, draw);
    assert ShapeOf(layers[0]) == shapes[0] && ShapeOf(layers[1]) == shapes[1] && ShapeOf(layers[2]) == shapes[2];
    assert layers[1..][1..] == [layers[2]] && [layers[2]][1..] == [];
    assert Dims([layers[2]]) == [h, a.outputSize];
    assert Dims(layers[1..]) == [h, a.outputSize];
  }

  /** With one hidden layer of size 1 between sizes 1 and 1, the two hashes differ: 993 against 30784. */
  lemma HashesDifferWithHidden(init: NC.Initialization, draw: (nat, nat) -> Word64)
    ensures var a := NC.Architecture(1, 1, [1], 1);
      GeneratorHash(a) == 993 && Fold(0, Dims(Initialize(Generated(a), init, draw))) == 30784
  {
    var a := NC.Architecture(1, 1, [1], 1);
    OneHiddenDims(a, init, draw);
    assert HashInputs(a) == [1, 1];
    assert Fold(1, [1, 1]) == 993;
    assert Fold(0, [1, 1, 1, 1]) == 30784;
  }
}
