/**
 * The byte layer of the network files: unsigned integers stored little-endian
 * in a fixed number of bytes (what `file.write` of a `uint32_t` or `uint64_t`
 * produces on the x86-64 targets the project builds for), and `file.read`
 * into a zero-initialised struct, which keeps zeros where the file ends early.
 */
module ByteCodec {
  type Byte = b: nat | b < 256

  /** A 64-bit pattern: an unsigned 64-bit integer or the bits of a double. */
  type Word64 = x: nat | x < 0x1_0000_0000_0000_0000

  const Limit32: nat := 0x1_0000_0000
  const Limit64: nat := 0x1_0000_0000_0000_0000

  /** 256^w, the number of values w bytes hold. */
  function Pow256(w: nat): (p: nat)
    ensures p > 0
  {
    if w == 0 then 1 else 256 * Pow256(w - 1)
  }

  /** The w little-endian bytes of x; x must fit (callers truncate first, as the casts in the source do). */
  function LittleEndian(x: nat, w: nat): (bs: seq<Byte>)
    ensures |bs| == w
  {
    if w == 0 then [] else [x % 256] + LittleEndian(x / 256, w - 1)
  }

  /** The value of little-endian bytes. */
  function FromLittleEndian(bs: seq<Byte>): (x: nat)
    ensures x < Pow256(|bs|)
  {
    if |bs| == 0 then 0 else bs[0] + 256 * FromLittleEndian(bs[1..])
  }

  /** Decoding undoes encoding for every value that fits. */
  lemma {:induction false} LittleEndianRoundTrip(x: nat, w: nat)
    requires x < Pow256(w)
    ensures FromLittleEndian(LittleEndian(x, w)) == x
  {
    if w > 0 {
      var bs := LittleEndian(x, w);
      assert bs[1..] == LittleEndian(x / 256, w - 1);
      LittleEndianRoundTrip(x / 256, w - 1);
    }
  }

  /** `uint32_t` on disk: the value truncated to 32 bits, four bytes. */
  function U32(x: nat): (bs: seq<Byte>)
    ensures |bs| == 4
  {
    LittleEndian(x % Limit32, 4)
  }

  /** `uint64_t` on disk: the value truncated to 64 bits, eight bytes. */
  function U64(x: nat): (bs: seq<Byte>)
    ensures |bs| == 8
  {
    LittleEndian(x % Limit64, 8)
  }

  /** Four bytes read back give the value modulo 2^32. */
  lemma U32RoundTrip(x: nat)
    ensures FromLittleEndian(U32(x)) == x % Limit32
  {
    assert Pow256(4) == Limit32;
    LittleEndianRoundTrip(x % Limit32, 4);
  }

  /** Eight bytes read back give the value modulo 2^64. */
  lemma U64RoundTrip(x: nat)
    ensures FromLittleEndian(U64(x)) == x % Limit64
  {
    assert Pow256(8) == Limit64;
    LittleEndianRoundTrip(x % Limit64, 8);
  }

  /** The 32-bit integer stored at offset k of a block. */
  function U32At(bs: seq<Byte>, k: nat): (x: nat)
    requires k + 4 <= |bs|
    ensures x < Limit32
  {
    assert Pow256(4) == Limit32;
    FromLittleEndian(bs[k..k + 4])
  }

  /** A sequence of 64-bit patterns, eight bytes each (`file.write(data(), size() * sizeof(double))`). */
  function Words(xs: seq<Word64>): (bs: seq<Byte>)
    ensures |bs| == 8 * |xs|
  {
    seq(8 * |xs|, i requires 0 <= i < 8 * |xs| => U64(xs[i / 8])[i % 8])
  }

  /** Pattern k of a written sequence occupies bytes 8k to 8k + 8. */
  lemma WordBytes(xs: seq<Word64>, k: nat)
    requires k < |xs|
    ensures Words(xs)[8 * k..8 * k + 8] == U64(xs[k])
  {
    var ws := Words(xs);
    forall j | 0 <= j < 8
      ensures ws[8 * k..8 * k + 8][j] == U64(xs[k])[j]
    {
      assert (8 * k + j) / 8 == k && (8 * k + j) % 8 == j;
    }
  }

  /** The 64-bit pattern stored at offset k. */
  function WordAt(bs: seq<Byte>, k: nat): Word64
    requires k + 8 <= |bs|
  {
    assert Pow256(8) == Limit64;
    FromLittleEndian(bs[k..k + 8])
  }

  /** n patterns of eight bytes each from the front of `bs`. */
  function ReadWords(bs: seq<Byte>, n: nat): (xs: seq<Word64>)
    requires 8 * n <= |bs|
    ensures |xs| == n
  {
    seq(n, k requires 0 <= k < n => WordAt(bs, 8 * k))
  }

  /** Reading as many patterns as were written gives them back, whatever follows. */
  lemma WordsRoundTrip(xs: seq<Word64>, rest: seq<Byte>)
    ensures ReadWords(Words(xs) + rest, |xs|) == xs
  {
    var bs := Words(xs) + rest;
    var ys := ReadWords(bs, |xs|);
    forall k | 0 <= k < |xs|
      ensures ys[k] == xs[k]
    {
      WordBytes(xs, k);
      assert bs[8 * k..8 * k + 8] == Words(xs)[8 * k..8 * k + 8];
      U64RoundTrip(xs[k]);
    }
  }

  /** Patterns written at pos read back from there, and the stream continues just after them. */
  lemma WordsAt(f: seq<Byte>, pos: nat, xs: seq<Word64>, rest: seq<Byte>)
    requires pos <= |f| && f[pos..] == Words(xs) + rest
    ensures pos + 8 * |xs| <= |f| && ReadWords(f[pos..], |xs|) == xs && f[pos + 8 * |xs|..] == rest
  {
    var ws := Words(xs);
    SuffixAfter(f, pos, ws, rest);
    WordsRoundTrip(xs, rest);
    assert ReadWords(ws + rest, |xs|) == xs;
  }

  /** What follows a part that starts at pos. */
  lemma SuffixAfter<T>(f: seq<T>, pos: nat, a: seq<T>, rest: seq<T>)
    requires pos <= |f| && f[pos..] == a + rest
    ensures pos + |a| <= |f| && f[pos + |a|..] == rest
  {
    assert f[pos + |a|..] == f[pos..][|a|..];
  }

  /** n zero bytes. */
  function Zeros(n: nat): (bs: seq<Byte>)
    ensures |bs| == n
  {
    seq(n, i => 0)
  }

  /**
   * `file.read(&s, n)` into a zero-initialised struct at stream position pos:
   * the bytes the file still has, then zeros for the part it lacks.
   */
  function Take(file: seq<Byte>, pos: nat, n: nat): (bs: seq<Byte>)
    ensures |bs| == n
    ensures pos + n <= |file| ==> bs == file[pos..pos + n]
  {
    if pos >= |file| then Zeros(n)
    else if pos + n <= |file| then file[pos..pos + n]
    else file[pos..] + Zeros(pos + n - |file|)
  }

  /** The stream position after that read: n further on, or the end of the file. */
  function Advance(file: seq<Byte>, pos: nat, n: nat): (p: nat)
    ensures p <= |file| || p == pos
    ensures pos + n <= |file| ==> p == pos + n
  {
    if pos + n <= |file| then pos + n else if pos > |file| then pos else |file|
  }
}
