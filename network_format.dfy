/**
 * The binary network file of `NetworkSaver` and `NetworkLoader`: a 32-byte
 * header (magic "LAVA", version 1, an architecture hash, the layer count,
 * twelve reserved zero bytes), then one record per layer.  A record is a
 * 16-byte layer header (type code, input size, output size, activation), and
 * for a Linear layer its weights and then its biases, eight bytes each.
 */
module NetworkFormat {
  import opened Wrappers
  import opened ByteCodec

  /** A layer of a saved or loaded network; weights and biases as the bit patterns of their doubles. */
  datatype Layer =
    | Linear(inputs: nat, outputs: nat, weights: seq<Word64>, biases: seq<Word64>)
    | ReLU
    | Softmax

  /** A Linear layer whose buffers have the sizes of its `{in, out}` weights and `{out, 1}` biases, in 32-bit sizes. */
  predicate WellFormed(l: Layer)
  {
    l.Linear? ==> l.inputs < Limit32 && l.outputs < Limit32 && |l.weights| == l.inputs * l.outputs && |l.biases| == l.outputs
  }

  /** "LAVA". */
  const Magic: seq<Byte> := [0x4C, 0x41, 0x56, 0x41]
  const Version: nat := 1

  /** The version as written: `uint32_t` 1, little-endian. */
  const VersionBytes: seq<Byte> := [1, 0, 0, 0]

  /** `LayerType`. */
  const LinearCode: nat := 1
  const ReLUCode: nat := 2
  const SoftmaxCode: nat := 3

  // ---------------------------------------------------------------------------
  // The architecture hash
  // ---------------------------------------------------------------------------

  /** `hash = hash * 31 + x` over xs in `uint64_t` arithmetic. */
  function Fold(seed: nat, xs: seq<nat>): nat
    decreases |xs|
  {
    if xs == [] then seed else Fold((seed * 31 + xs[0]) % Limit64, xs[1..])
  }

  /** The same fold on unbounded integers: seed * 31^|xs| + the xs as base-31 digits. */
  function Polynomial(seed: nat, xs: seq<nat>): nat
    decreases |xs|
  {
    if xs == [] then seed else Polynomial(seed * 31 + xs[0], xs[1..])
  }

  /** Reducing modulo 2^64 after every step gives the unbounded fold modulo 2^64. */
  lemma {:induction false} FoldWraps(seed: nat, xs: seq<nat>)
    ensures Fold(seed % Limit64, xs) == Polynomial(seed, xs) % Limit64
    decreases |xs|
  {
    if xs == [] {
      assert seed % Limit64 % Limit64 == seed % Limit64;
    } else {
      var q := seed / Limit64;
      var r := seed % Limit64;
      assert seed * 31 + xs[0] == Limit64 * (31 * q) + (r * 31 + xs[0]);
      ModMultiple(31 * q, r * 31 + xs[0]);
      FoldWraps(seed * 31 + xs[0], xs[1..]);
    }
  }

  /** Adding a multiple of 2^64 does not change a value modulo 2^64. */
  lemma ModMultiple(k: nat, y: nat)
    ensures (Limit64 * k + y) % Limit64 == y % Limit64
  {
    var m := Limit64 * k + y;
    assert m == Limit64 * (k + y / Limit64) + y % Limit64;
  }

  /** Folding a concatenation folds the second part from where the first stopped. */
  lemma {:induction false} FoldAppend(seed: nat, xs: seq<nat>, ys: seq<nat>)
    ensures Fold(seed, xs + ys) == Fold(Fold(seed, xs), ys)
    decreases |xs|
  {
    if xs == [] {
      assert xs + ys == ys;
    } else {
      assert (xs + ys)[1..] == xs[1..] + ys;
      FoldAppend((seed * 31 + xs[0]) % Limit64, xs[1..], ys);
    }
  }

  /** The numbers the saver's hash folds in: input then output size of each Linear layer, in order. */
  function Dims(layers: seq<Layer>): seq<nat>
  {
    if layers == [] then []
    else (if layers[0].Linear? then [layers[0].inputs, layers[0].outputs] else []) + Dims(layers[1..])
  }

  /** Dims of one more layer. */
  lemma {:induction false} DimsSnoc(layers: seq<Layer>, l: Layer)
    ensures Dims(layers + [l]) == Dims(layers) + (if l.Linear? then [l.inputs, l.outputs] else [])
  {
    if layers == [] {
      assert [] + [l] == [l];
      assert [l][1..] == [];
    } else {
      assert (layers + [l])[1..] == layers[1..] + [l];
      DimsSnoc(layers[1..], l);
    }
  }

  /** `NetworkSaver::computeArchHash`: only the Linear layers' sizes enter, folded from 0. */
  method SaverArchHash(layers: seq<Layer>) returns (hash: nat)
    ensures hash == Fold(0, Dims(layers))
    ensures hash == Polynomial(0, Dims(layers)) % Limit64 && hash < Limit64
  {
    hash := 0;
    var i := 0;
    while i < |layers|
      invariant i <= |layers| && hash == Fold(0, Dims(layers[..i]))
    {
      var layer := layers[i];
      HashStep(layers[..i], layer, hash);
      assert layers[..i + 1] == layers[..i] + [layer];
      if layer.Linear? {
        hash := (hash * 31 + layer.inputs) % Limit64;
        hash := (hash * 31 + layer.outputs) % Limit64;
      }
      i := i + 1;
    }
    assert layers[..i] == layers;
    HashValue(Dims(layers));
  }

  /** One layer more: a Linear layer folds in its input and output sizes, any other layer leaves the hash. */
  lemma HashStep(prefix: seq<Layer>, l: Layer, hash: nat)
    requires hash == Fold(0, Dims(prefix))
    ensures Fold(0, Dims(prefix + [l])) ==
      if l.Linear? then (((hash * 31 + l.inputs) % Limit64) * 31 + l.outputs) % Limit64 else hash
  {
    DimsSnoc(prefix, l);
    if l.Linear? {
      FoldAppend(0, Dims(prefix), [l.inputs, l.outputs]);
      FoldPair(hash, l.inputs, l.outputs);
    } else {
      assert Dims(prefix) + [] == Dims(prefix);
    }
  }

  /** The fold from 0 is the unbounded polynomial modulo 2^64. */
  lemma HashValue(xs: seq<nat>)
    ensures Fold(0, xs) == Polynomial(0, xs) % Limit64 && Fold(0, xs) < Limit64
  {
    FoldWraps(0, xs);
    FoldBound(0, xs);
  }

  /** Two steps of the fold. */
  lemma FoldPair(seed: nat, a: nat, b: nat)
    ensures Fold(seed, [a, b]) == (((seed * 31 + a) % Limit64) * 31 + b) % Limit64
  {
    var h := (seed * 31 + a) % Limit64;
    assert [a, b][1..] == [b];
    assert [b][1..] == [];
    assert Fold(h, [b]) == Fold((h * 31 + b) % Limit64, []);
  }

  /** Every step of the fold keeps it below 2^64. */
  lemma {:induction false} FoldBound(seed: nat, xs: seq<nat>)
    requires seed < Limit64
    ensures Fold(seed, xs) < Limit64
    decreases |xs|
  {
    if xs != [] {
      FoldBound((seed * 31 + xs[0]) % Limit64, xs[1..]);
    }
  }

  // ---------------------------------------------------------------------------
  // Writing
  // ---------------------------------------------------------------------------

  /** The file header: magic, version, hash, layer count, 12 reserved zero bytes. */
  function HeaderBytes(archHash: nat, numLayers: nat): (bs: seq<Byte>)
    ensures |bs| == 32
  {
    Magic + VersionBytes + U64(archHash) + U32(numLayers) + Zeros(12)
  }

  /** The type codes as written, little-endian. */
  const LinearBytes: seq<Byte> := [1, 0, 0, 0]
  const ReLUBytes: seq<Byte> := [2, 0, 0, 0]
  const SoftmaxBytes: seq<Byte> := [3, 0, 0, 0]

  /** The written codes are the `LayerType` values. */
  lemma CodeBytes()
    ensures LinearBytes == U32(LinearCode) && ReLUBytes == U32(ReLUCode) && SoftmaxBytes == U32(SoftmaxCode)
    ensures VersionBytes == U32(Version) && Zeros(4) == U32(0)
  {
  }

  /** A `LayerHeader`: type code, input size, output size, and activation 0. */
  function LayerHeaderBytes(code: seq<Byte>, inputs: nat, outputs: nat): (bs: seq<Byte>)
    requires |code| == 4
    ensures |bs| == 16
  {
    code + U32(inputs) + U32(outputs) + Zeros(4)
  }

  /** `writeLinearLayer`, `writeReluLayer`, `writeSoftmaxLayer`. */
  function Record(l: Layer): (bs: seq<Byte>)
    ensures |bs| == 16 + (if l.Linear? then 8 * (|l.weights| + |l.biases|) else 0)
  {
    match l
    case Linear(i, o, w, b) => LayerHeaderBytes(LinearBytes, i, o) + Words(w) + Words(b)
    case ReLU => ReLUBytes + Zeros(12)
    case Softmax => SoftmaxBytes + Zeros(12)
  }

  /** The records of the layers in layer order. */
  function Records(layers: seq<Layer>): seq<Byte>
  {
    if layers == [] then [] else Record(layers[0]) + Records(layers[1..])
  }

  /** The whole file `saveNetwork` writes; the layer count is the `uint32_t` of the vector's size. */
  function Saved(layers: seq<Layer>): seq<Byte>
  {
    HeaderBytes(Fold(0, Dims(layers)), |layers|) + Records(layers)
  }

  /** `saveNetwork`: the header, then the loop writing each layer's record. */
  method SaveNetwork(layers: seq<Layer>) returns (file: seq<Byte>)
    ensures file == Saved(layers)
  {
    var hash := SaverArchHash(layers);
    var records := WriteLayers(layers);
    file := HeaderBytes(hash, |layers|) + records;
  }

  /** The loop of `saveNetwork`: each layer's record, in order. */
  method WriteLayers(layers: seq<Layer>) returns (bs: seq<Byte>)
    ensures bs == Records(layers)
  {
    bs := [];
    var i := 0;
    while i < |layers|
      invariant i <= |layers| && Records(layers) == bs + Records(layers[i..])
    {
      assert layers[i..][1..] == layers[i + 1..];
      assert bs + Records(layers[i..]) == (bs + Record(layers[i])) + Records(layers[i + 1..]);
      bs := bs + Record(layers[i]);
      i := i + 1;
    }
    assert bs + [] == bs;
  }

  // ---------------------------------------------------------------------------
  // Reading
  // ---------------------------------------------------------------------------

  /** The `runtime_error`s `loadNetwork` throws, and a file that ends inside a Linear layer's buffers. */
  datatype LoadError = CouldNotOpen | WrongMagic | UnsupportedVersion | NoLayers | UnknownLayerType | Truncated

  datatype Header = Header(magic: seq<Byte>, version: nat, archHash: nat, numLayers: nat)

  /** The header struct over its 32 bytes. */
  function ParseHeader(bs: seq<Byte>): Header
    requires |bs| == 32
  {
    Header(bs[..4], U32At(bs, 4), FromLittleEndian(bs[8..16]), U32At(bs, 16))
  }

  /** `validateHeader`: magic, then version, then a positive layer count. */
  function ValidateHeader(h: Header): (r: Option<LoadError>)
    ensures r == None <==> h.magic == Magic && h.version == Version && h.numLayers > 0
    ensures r == Some(WrongMagic) <==> h.magic != Magic
    ensures r == Some(UnsupportedVersion) <==> h.magic == Magic && h.version != Version
    ensures r == Some(NoLayers) <==> h.magic == Magic && h.version == Version && h.numLayers == 0
  {
    if h.magic != Magic then Some(WrongMagic)
    else if h.version != Version then Some(UnsupportedVersion)
    else if h.numLayers == 0 then Some(NoLayers)
    else None
  }

  /** `readLinearLayer` at stream position pos: in * out weights, then out biases. */
  function ReadLinear(file: seq<Byte>, pos: nat, inputs: nat, outputs: nat): (r: Result<(Layer, nat), LoadError>)
    ensures r.Ok? ==> (r.value.0.Linear? && r.value.0.inputs == inputs && r.value.0.outputs == outputs &&
      |r.value.0.weights| == inputs * outputs && |r.value.0.biases| == outputs && r.value.1 <= |file|)
    ensures r.Err? ==> r.error == Truncated
  {
    var count := inputs * outputs;
    if pos + 8 * count + 8 * outputs > |file| then Err(Truncated)
    else
      var weights := ReadWords(file[pos..], count);
      var biases := ReadWords(file[pos + 8 * count..], outputs);
      Ok((Linear(inputs, outputs, weights, biases), pos + 8 * count + 8 * outputs))
  }

  /** One pass of the layer loop: the layer header, then the layer its type code names. */
  function ReadLayer(file: seq<Byte>, pos: nat): (r: Result<(Layer, nat), LoadError>)
    requires pos <= |file|
    ensures r.Ok? ==> r.value.1 <= |file|
    ensures r.Err? ==> r.error == UnknownLayerType || r.error == Truncated
  {
    var h := Take(file, pos, 16);
    var next := Advance(file, pos, 16);
    var code := U32At(h, 0);
    if code == LinearCode then ReadLinear(file, next, U32At(h, 4), U32At(h, 8))
    else if code == ReLUCode then Ok((ReLU, next))
    else if code == SoftmaxCode then Ok((Softmax, next))
    else Err(UnknownLayerType)
  }

  /** n layers from stream position pos; the first that fails ends the load. */
  function LoadLayers(file: seq<Byte>, pos: nat, n: nat): (r: Result<seq<Layer>, LoadError>)
    requires pos <= |file|
    ensures r.Ok? ==> |r.value| == n
    decreases n
  {
    if n == 0 then Ok([])
    else
      match ReadLayer(file, pos)
      case Err(e) => Err(e)
      case Ok((l, next)) =>
        match LoadLayers(file, next, n - 1)
        case Ok(ls) => Ok([l] + ls)
        case Err(e) => Err(e)
  }

  /** `loadNetwork`: open, read and validate the header, then exactly `numLayers` layers. */
  function Load(file: Option<seq<Byte>>): (r: Result<seq<Layer>, LoadError>)
    ensures r.Ok? ==> (file.Some? && 0 < |r.value| < Limit32 &&
      ValidateHeader(ParseHeader(Take(file.value, 0, 32))) == None &&
      |r.value| == ParseHeader(Take(file.value, 0, 32)).numLayers)
  {
    match file
    case None => Err(CouldNotOpen)
    case Some(f) =>
      var h := ParseHeader(Take(f, 0, 32));
      match ValidateHeader(h)
      case Some(e) => Err(e)
      case None => LoadLayers(f, Advance(f, 0, 32), h.numLayers)
  }

  /** The layers loaded so far in front of the rest of the load. */
  function Prepend(done: seq<Layer>, r: Result<seq<Layer>, LoadError>): Result<seq<Layer>, LoadError>
  {
    match r
    case Ok(ls) => Ok(done + ls)
    case Err(e) => Err(e)
  }

  /** The body of the layer loop: a layer header, then the layer its code names. */
  method ReadLayerAt(file: seq<Byte>, pos: nat) returns (r: Result<(Layer, nat), LoadError>)
    requires pos <= |file|
    ensures r == ReadLayer(file, pos)
  {
    var layerHeader := Take(file, pos, 16);
    var next := Advance(file, pos, 16);
    var code := U32At(layerHeader, 0);
    if code == LinearCode {
      r := ReadLinear(file, next, U32At(layerHeader, 4), U32At(layerHeader, 8));
    } else if code == ReLUCode {
      r := Ok((ReLU, next));
    } else if code == SoftmaxCode {
      r := Ok((Softmax, next));
    } else {
      r := Err(UnknownLayerType);
    }
  }

  /** `loadNetwork` as a loop that pushes each layer it reads. */
  method LoadNetwork(file: Option<seq<Byte>>) returns (r: Result<seq<Layer>, LoadError>)
    ensures r == Load(file)
  {
    if file.None? {
      return Err(CouldNotOpen);
    }
    var f := file.value;
    var header := ParseHeader(Take(f, 0, 32));
    var error := ValidateHeader(header);
    if error.Some? {
      return Err(error.value);
    }
    r := ReadLayers(f, Advance(f, 0, 32), header.numLayers);
  }

  /** The layer loop of `loadNetwork`: n layers pushed in the order they are read, the first failure thrown. */
  method ReadLayers(f: seq<Byte>, start: nat, n: nat) returns (r: Result<seq<Layer>, LoadError>)
    requires start <= |f|
    ensures r == LoadLayers(f, start, n)
  {
    var pos: nat := start;
    var layers: seq<Layer> := [];
    var remaining: nat := n;
    PrependNothing(LoadLayers(f, pos, n));
    while remaining > 0
      invariant pos <= |f| && LoadLayers(f, start, n) == Prepend(layers, LoadLayers(f, pos, remaining))
    {
      var layer := ReadLayerAt(f, pos);
      PrependStep(f, pos, remaining, layers);
      match layer
      case Err(e) =>
        return Err(e);
      case Ok((l, next)) =>
        layers := layers + [l];
        pos := next;
        remaining := remaining - 1;
    }
    assert layers + [] == layers;
    return Ok(layers);
  }

  /** Nothing loaded yet in front of a load is that load. */
  lemma PrependNothing(r: Result<seq<Layer>, LoadError>)
    ensures Prepend([], r) == r
  {
    if r.Ok? {
      assert [] + r.value == r.value;
    }
  }

  /** One pass of the layer loop: a failing read ends the load with its error, a successful one moves the layer to the loaded part. */
  lemma PrependStep(f: seq<Byte>, pos: nat, m: nat, layers: seq<Layer>)
    requires pos <= |f| && m > 0
    ensures ReadLayer(f, pos).Err? ==> Prepend(layers, LoadLayers(f, pos, m)) == Err(ReadLayer(f, pos).error)
    ensures ReadLayer(f, pos).Ok? ==> var (l, next) := ReadLayer(f, pos).value;
      Prepend(layers, LoadLayers(f, pos, m)) == Prepend(layers + [l], LoadLayers(f, next, m - 1))
  {
    if ReadLayer(f, pos).Ok? {
      var (l, next) := ReadLayer(f, pos).value;
      var rest := LoadLayers(f, next, m - 1);
      if rest.Ok? {
        assert layers + ([l] + rest.value) == (layers + [l]) + rest.value;
      }
    }
  }

  // ---------------------------------------------------------------------------
  // The saver-to-loader round trip
  // ---------------------------------------------------------------------------

  /** The header reads back as written, its numbers truncated to their widths. */
  lemma HeaderRoundTrip(archHash: nat, numLayers: nat, rest: seq<Byte>)
    ensures var f := HeaderBytes(archHash, numLayers) + rest;
      ParseHeader(Take(f, 0, 32)) == Header(Magic, Version, archHash % Limit64, numLayers % Limit32) &&
      Advance(f, 0, 32) == 32
  {
    var f := HeaderBytes(archHash, numLayers) + rest;
    var h := Take(f, 0, 32);
    assert h == HeaderBytes(archHash, numLayers);
    assert h[..4] == Magic;
    assert h[4..8] == U32(Version);
    assert h[8..16] == U64(archHash);
    assert h[16..20] == U32(numLayers);
    U32RoundTrip(Version);
    U64RoundTrip(archHash);
    U32RoundTrip(numLayers);
  }

  /** A well-formed layer's record reads back as that layer, and the stream ends up just after it. */
  lemma ReadRecord(p: seq<Byte>, l: Layer, rest: seq<Byte>)
    requires WellFormed(l)
    ensures ReadLayer(p + Record(l) + rest, |p|) == Ok((l, |p + Record(l)|))
  {
    CodeBytes();
    if l.Linear? {
      ReadLinearRecord(p, l, rest);
    } else {
      ReadPlainRecord(p, l, rest);
    }
  }

  /** A ReLU or Softmax record is its header alone. */
  lemma ReadPlainRecord(p: seq<Byte>, l: Layer, rest: seq<Byte>)
    requires !l.Linear?
    requires ReLUBytes == U32(ReLUCode) && SoftmaxBytes == U32(SoftmaxCode)
    ensures ReadLayer(p + Record(l) + rest, |p|) == Ok((l, |p + Record(l)|))
  {
    var f := p + Record(l) + rest;
    var code := if l.ReLU? then ReLUCode else SoftmaxCode;
    var h := Take(f, |p|, 16);
    assert h == Record(l);
    assert h[0..4] == U32(code);
    U32RoundTrip(code);
  }

  /** A Linear record: its header gives the sizes, then the weights and the biases follow. */
  lemma ReadLinearRecord(p: seq<Byte>, l: Layer, rest: seq<Byte>)
    requires l.Linear? && WellFormed(l)
    requires LinearBytes == U32(LinearCode)
    ensures ReadLayer(p + Record(l) + rest, |p|) == Ok((l, |p + Record(l)|))
  {
    var h := LayerHeaderBytes(LinearBytes, l.inputs, l.outputs);
    var tail := Words(l.weights) + Words(l.biases) + rest;
    RecordLinear(l);
    Regroup(p, h, Words(l.weights), Words(l.biases), rest);
    Slices(p, h, tail);
    ReadLinearAt(p + h + tail, |p|, l, rest);
  }

  /** The three parts of a Linear record. */
  lemma RecordLinear(l: Layer)
    requires l.Linear?
    ensures Record(l) == LayerHeaderBytes(LinearBytes, l.inputs, l.outputs) + Words(l.weights) + Words(l.biases)
  {
  }

  /** Moving the parentheses of a five-part concatenation. */
  lemma Regroup<T>(p: seq<T>, h: seq<T>, ws: seq<T>, bs: seq<T>, rest: seq<T>)
    ensures p + (h + ws + bs) + rest == p + h + (ws + bs + rest)
  {
  }

  /** The middle and the end of a three-part concatenation. */
  lemma Slices<T>(p: seq<T>, a: seq<T>, b: seq<T>)
    ensures (p + a + b)[|p|..|p| + |a|] == a && (p + a + b)[|p| + |a|..] == b
  {
  }

  /** A Linear layer header at pos followed by the layer's buffers reads back as the layer. */
  lemma ReadLinearAt(f: seq<Byte>, pos: nat, l: Layer, rest: seq<Byte>)
    requires l.Linear? && WellFormed(l) && LinearBytes == U32(LinearCode)
    requires pos + 16 <= |f| && f[pos..pos + 16] == LayerHeaderBytes(LinearBytes, l.inputs, l.outputs)
    requires f[pos + 16..] == Words(l.weights) + Words(l.biases) + rest
    ensures ReadLayer(f, pos) == Ok((l, pos + 16 + 8 * |l.weights| + 8 * |l.biases|))
  {
    LayerHeaderRoundTrip(l.inputs, l.outputs);
    ReadBuffers(f, pos + 16, l, rest);
  }

  /** The sizes in a Linear layer header read back as written. */
  lemma LayerHeaderRoundTrip(inputs: nat, outputs: nat)
    requires inputs < Limit32 && outputs < Limit32 && LinearBytes == U32(LinearCode)
    ensures var h := LayerHeaderBytes(LinearBytes, inputs, outputs);
      U32At(h, 0) == LinearCode && U32At(h, 4) == inputs && U32At(h, 8) == outputs
  {
    var h := LayerHeaderBytes(LinearBytes, inputs, outputs);
    assert h[0..4] == U32(LinearCode) && h[4..8] == U32(inputs) && h[8..12] == U32(outputs);
    U32RoundTrip(LinearCode);
    U32RoundTrip(inputs);
    U32RoundTrip(outputs);
  }

  /** The weights and biases of a Linear layer read back from where they were written. */
  lemma ReadBuffers(f: seq<Byte>, pos: nat, l: Layer, rest: seq<Byte>)
    requires l.Linear? && WellFormed(l)
    requires pos <= |f| && f[pos..] == Words(l.weights) + Words(l.biases) + rest
    ensures ReadLinear(f, pos, l.inputs, l.outputs) == Ok((l, pos + 8 * |l.weights| + 8 * |l.biases|))
  {
    assert f[pos..] == Words(l.weights) + (Words(l.biases) + rest);
    WordsAt(f, pos, l.weights, Words(l.biases) + rest);
    WordsAt(f, pos + 8 * |l.weights|, l.biases, rest);
  }

  /** Every layer of the sequence is well formed, first to last. */
  predicate AllWellFormed(layers: seq<Layer>)
  {
    layers == [] || (WellFormed(layers[0]) && AllWellFormed(layers[1..]))
  }

  /** The recursive form of "every layer is well formed". */
  lemma {:induction false} AllWellFormedOf(layers: seq<Layer>)
    requires forall l :: l in layers ==> WellFormed(l)
    ensures AllWellFormed(layers)
  {
    if layers != [] {
      assert layers[0] in layers;
      assert forall x :: x in layers[1..] ==> x in layers;
      AllWellFormedOf(layers[1..]);
    }
  }

  /** Records written one after the other read back as the layers, in order. */
  lemma {:induction false} LoadRecords(p: seq<Byte>, layers: seq<Layer>)
    requires AllWellFormed(layers)
    ensures LoadLayers(p + Records(layers), |p|, |layers|) == Ok(layers)
    decreases |layers|
  {
    if layers != [] {
      var l := layers[0];
      ConsSplit(layers);
      RecordsCons(p, layers);
      LoadRecords(p + Record(l), layers[1..]);
      LoadStep(p, l, Records(layers[1..]), layers[1..]);
    }
  }

  /** A non-empty sequence is its first element in front of the rest. */
  lemma ConsSplit<T>(s: seq<T>)
    requires s != []
    ensures [s[0]] + s[1..] == s && |s| == |s[1..]| + 1
  {
  }

  /** The records of a non-empty sequence: the first layer's, then the others'. */
  lemma RecordsCons(p: seq<Byte>, layers: seq<Layer>)
    requires layers != []
    ensures p + Records(layers) == p + Record(layers[0]) + Records(layers[1..])
  {
  }

  /** A record in front of records that load: one more layer loads. */
  lemma LoadStep(p: seq<Byte>, l: Layer, tail: seq<Byte>, ls: seq<Layer>)
    requires WellFormed(l)
    requires LoadLayers(p + Record(l) + tail, |p + Record(l)|, |ls|) == Ok(ls)
    ensures LoadLayers(p + Record(l) + tail, |p|, |ls| + 1) == Ok([l] + ls)
  {
    ReadRecord(p, l, tail);
    LoadCons(p + Record(l) + tail, |p|, |ls| + 1, l, |p + Record(l)|, ls);
  }

  /** A layer read at pos, then the rest of the load from where it ended. */
  lemma LoadCons(file: seq<Byte>, pos: nat, n: nat, l: Layer, next: nat, ls: seq<Layer>)
    requires pos <= |file| && n > 0
    requires ReadLayer(file, pos) == Ok((l, next)) && LoadLayers(file, next, n - 1) == Ok(ls)
    ensures LoadLayers(file, pos, n) == Ok([l] + ls)
  {
  }

  /** Loading what `saveNetwork` wrote gives back every layer: kinds, Linear sizes, weights and biases. */
  lemma SaveLoad(layers: seq<Layer>)
    requires 0 < |layers| < Limit32
    requires forall l :: l in layers ==> WellFormed(l)
    ensures Load(Some(Saved(layers))) == Ok(layers)
  {
    SmallCount(|layers|);
    AllWellFormedOf(layers);
    var hash := Fold(0, Dims(layers));
    var header := HeaderBytes(hash, |layers|);
    var f := Saved(layers);
    assert f == header + Records(layers);
    HeaderRoundTrip(hash, |layers|, Records(layers));
    LoadRecords(header, layers);
    LoadFromHeader(f, hash % Limit64, |layers|);
  }

  /** A count below 2^32 is stored unchanged. */
  lemma SmallCount(n: nat)
    requires n < Limit32
    ensures n % Limit32 == n
  {
  }

  /** A file whose header is valid loads as its layers from offset 32 on. */
  lemma LoadFromHeader(f: seq<Byte>, archHash: nat, numLayers: nat)
    requires 32 <= |f| && numLayers > 0
    requires ParseHeader(Take(f, 0, 32)) == Header(Magic, Version, archHash, numLayers)
    ensures Load(Some(f)) == LoadLayers(f, 32, numLayers)
  {
  }

  /** A saved network with no layers, or with a multiple of 2^32 of them, is refused on loading. */
  lemma SaveEmptyRejected(layers: seq<Layer>)
    requires |layers| % Limit32 == 0
    ensures Load(Some(Saved(layers))) == Err(NoLayers)
  {
    HeaderRoundTrip(Fold(0, Dims(layers)), |layers|, Records(layers));
  }

  /** A layer header with a type code other than 1, 2 and 3 ends the load. */
  lemma UnknownCodeRejected(p: seq<Byte>, code: nat, rest: seq<Byte>)
    requires code % Limit32 !in {LinearCode, ReLUCode, SoftmaxCode}
    ensures ReadLayer(p + U32(code) + rest, |p|) == Err(UnknownLayerType)
  {
    var f := p + U32(code) + rest;
    var h := Take(f, |p|, 16);
    assert forall k :: 0 <= k < 4 ==> h[k] == U32(code)[k];
    assert h[0..4] == U32(code);
    U32RoundTrip(code);
  }
}
