/**
 * The byte cursor the header decoders read from: an immutable byte sequence
 * and a position. Every read is little-endian, consumes exactly the width of
 * its format and fails with `Truncated` when fewer bytes remain; a peek
 * returns the position it started from. Next to each read sits the encoder
 * that writes the same field, and a lemma that reading back what was written
 * yields the written value.
 */
module ByteReader {
  import opened Results

  type byte = b: int | 0 <= b < 0x100
  type Bytes = seq<byte>

  /** Four raw bytes: a fourcc, a `f` float kept uninterpreted, or an integer before decoding. */
  type Word = w: Bytes | |w| == 4 witness [0, 0, 0, 0]

  type u32 = x: int | 0 <= x < 0x1_0000_0000
  type i32 = x: int | -0x8000_0000 <= x < 0x8000_0000
  type i8 = x: int | -0x80 <= x < 0x80

  datatype DecodeError =
    | Truncated                                      // fewer bytes remain than a read, peek or skip needs
    | FileSizeMismatch(declared: u32, actual: nat)   // declared file size differs from the reader's size

  /** A decoded value and the cursor position right after it. */
  datatype Parsed<+T> = Parsed(value: T, next: nat)

  type ReadResult<T> = Result<Parsed<T>, DecodeError>

  /**
   * A string stored out of line: `read_source1_string(0)` consumes one 4-byte
   * offset field and follows it elsewhere in the file. Only the consumed
   * offset field is kept; where it leads is not modelled.
   */
  datatype StrRef = StrRef(offset: Word)

  /** `bytes` sit in `data` starting at `pos`. */
  predicate At(data: Bytes, pos: nat, bytes: Bytes) {
    AtFrom(data, pos, bytes, 0)
  }

  /** The bytes of `bytes` from index `k` on sit in `data` at the matching offsets from `pos`, compared byte by byte. */
  predicate AtFrom(data: Bytes, pos: nat, bytes: Bytes, k: nat)
    requires k <= |bytes|
    decreases |bytes| - k
  {
    if k == |bytes| then pos + |bytes| <= |data|
    else pos + k < |data| && data[pos + k] == bytes[k] && AtFrom(data, pos, bytes, k + 1)
  }

  lemma {:induction false} AtFromBytes(data: Bytes, pos: nat, bytes: Bytes, k: nat)
    requires k <= |bytes|
    ensures AtFrom(data, pos, bytes, k) <==>
      pos + |bytes| <= |data| && forall i :: k <= i < |bytes| ==> data[pos + i] == bytes[i]
    decreases |bytes| - k
  {
    if k < |bytes| {
      AtFromBytes(data, pos, bytes, k + 1);
    }
  }

  /** `At` is agreement on every byte. */
  lemma AtBytes(data: Bytes, pos: nat, bytes: Bytes)
    ensures At(data, pos, bytes) <==> pos + |bytes| <= |data| && forall i :: 0 <= i < |bytes| ==> data[pos + i] == bytes[i]
  {
    AtFromBytes(data, pos, bytes, 0);
  }

  lemma AtAppend(data: Bytes, pos: nat, a: Bytes, b: Bytes)
    requires At(data, pos, a + b)
    ensures At(data, pos, a) && At(data, pos + |a|, b)
  {
    AtBytes(data, pos, a + b);
    AtBytes(data, pos, a);
    AtBytes(data, pos + |a|, b);
    forall i | 0 <= i < |a|
      ensures data[pos + i] == a[i]
    {
      assert (a + b)[i] == a[i];
    }
    forall i | 0 <= i < |b|
      ensures data[pos + |a| + i] == b[i]
    {
      assert (a + b)[|a| + i] == b[i];
    }
  }

  /** Any slice of bytes that sit in `data` sits there at the corresponding offset. */
  lemma AtSlice(data: Bytes, pos: nat, bytes: Bytes, i: nat, j: nat)
    requires At(data, pos, bytes) && i <= j <= |bytes|
    ensures pos + j <= |data| && data[pos + i..pos + j] == bytes[i..j]
  {
    AtBytes(data, pos, bytes);
    forall k | 0 <= k < j - i
      ensures data[pos + i..pos + j][k] == bytes[i..j][k]
    {
      assert bytes[i..j][k] == bytes[i + k];
    }
  }

  // ---------------------------------------------------------------------------
  // Little-endian integers

  /** The unsigned value of `b` read least significant byte first. */
  function LeValue(b: Bytes): nat {
    if |b| == 0 then 0 else b[0] + 0x100 * LeValue(b[1..])
  }

  /** `x` written as `n` bytes, least significant first. */
  function LeBytes(x: nat, n: nat): (b: Bytes)
    ensures |b| == n
  {
    if n == 0 then [] else [x % 0x100] + LeBytes(x / 0x100, n - 1)
  }

  function Pow256(n: nat): (p: nat)
    ensures p > 0
  {
    if n == 0 then 1 else 0x100 * Pow256(n - 1)
  }

  /** Writing `x` in `n` bytes and reading it back yields `x` whenever it fits. */
  lemma {:induction false} LeValueOfBytes(x: nat, n: nat)
    requires x < Pow256(n)
    ensures LeValue(LeBytes(x, n)) == x
  {
    if n > 0 {
      var b := LeBytes(x, n);
      assert b[1..] == LeBytes(x / 0x100, n - 1);
      LeValueOfBytes(x / 0x100, n - 1);
    }
  }

  /** Reading `b` and writing the value back in as many bytes reproduces `b`. */
  lemma {:induction false} LeBytesOfValue(b: Bytes)
    ensures LeBytes(LeValue(b), |b|) == b
  {
    if |b| > 0 {
      LeBytesOfValue(b[1..]);
      var v := LeValue(b);
      assert v % 0x100 == b[0] && v / 0x100 == LeValue(b[1..]);
      assert LeBytes(v, |b|) == [b[0]] + b[1..];
    }
  }

  /** `I`: the four bytes least significant first. */
  function U32Of(w: Word): u32 {
    w[0] as int + 0x100 * w[1] as int + 0x1_0000 * w[2] as int + 0x100_0000 * w[3] as int
  }

  /** The four-byte sum is the general little-endian value. */
  lemma U32OfIsLeValue(w: Word)
    ensures U32Of(w) == LeValue(w)
  {
    assert LeValue(w[3..]) == w[3] + 0x100 * LeValue(w[4..]);
    assert LeValue(w[2..]) == w[2] + 0x100 * LeValue(w[3..]);
    assert LeValue(w[1..]) == w[1] + 0x100 * LeValue(w[2..]);
  }

  function U32Bytes(x: u32): Word {
    LeBytes(x, 4)
  }

  /** Decoding inverts encoding, and encoding inverts decoding: `I` is a bijection on 4-byte words. */
  lemma U32RoundTrip(x: u32, w: Word)
    ensures U32Of(U32Bytes(x)) == x
    ensures U32Bytes(U32Of(w)) == w
  {
    assert Pow256(4) == 0x1_0000_0000;
    LeValueOfBytes(x, 4);
    LeBytesOfValue(w);
    U32OfIsLeValue(w);
    U32OfIsLeValue(U32Bytes(x));
  }

  /** Two's complement reinterpretation of an unsigned 32-bit value (Python's `i` format). */
  function I32Of(w: Word): i32 {
    var u := U32Of(w);
    if u < 0x8000_0000 then u else u - 0x1_0000_0000
  }

  function I32Bytes(x: i32): Word {
    U32Bytes(if x < 0 then x + 0x1_0000_0000 else x)
  }

  lemma I32RoundTrip(x: i32, w: Word)
    ensures I32Of(I32Bytes(x)) == x
    ensures I32Bytes(I32Of(w)) == w
  {
    U32RoundTrip(if x < 0 then x + 0x1_0000_0000 else x, w);
  }

  /** Two's complement reinterpretation of one byte (Python's `b` format). */
  function I8Of(b: byte): i8 {
    if b < 0x80 then b else b - 0x100
  }

  function I8Byte(x: i8): byte {
    if x < 0 then x + 0x100 else x
  }

  lemma I8RoundTrip(b: byte, x: i8)
    ensures I8Byte(I8Of(b)) == b
    ensures I8Of(I8Byte(x)) == x
  {
  }

  // ---------------------------------------------------------------------------
  // Reads

  function ReadBytes(data: Bytes, pos: nat, n: nat): (r: ReadResult<Bytes>)
    ensures r.Success? <==> pos + n <= |data|
    ensures r.Success? ==> r.value.next == pos + n && |r.value.value| == n && At(data, pos, r.value.value)
    ensures r.Failure? ==> r.error == Truncated
  {
    if pos + n <= |data| then
      AtBytes(data, pos, data[pos..pos + n]);
      Success(Parsed(data[pos..pos + n], pos + n))
    else Failure(Truncated)
  }

  /** The four bytes at `pos`, taken one index at a time. */
  function WordAt(data: Bytes, pos: nat): Word
    requires pos + 4 <= |data|
  {
    [data[pos], data[pos + 1], data[pos + 2], data[pos + 3]]
  }

  lemma WordAtSlice(data: Bytes, pos: nat)
    requires pos + 4 <= |data|
    ensures WordAt(data, pos) == data[pos..pos + 4]
  {
  }

  /** One 4-byte word: the fourcc, a float, or an integer before decoding. */
  function ReadWord(data: Bytes, pos: nat): (r: ReadResult<Word>)
    ensures r.Success? <==> pos + 4 <= |data|
    ensures r.Success? ==> r.value.next == pos + 4
    ensures r.Failure? ==> r.error == Truncated
  {
    if pos + 4 <= |data| then Success(Parsed(WordAt(data, pos), pos + 4)) else Failure(Truncated)
  }

  function ReadU32(data: Bytes, pos: nat): (r: ReadResult<u32>)
    ensures r.Success? <==> pos + 4 <= |data|
    ensures r.Success? ==> r.value == Parsed(U32Of(WordAt(data, pos)), pos + 4)
    ensures r.Failure? ==> r.error == Truncated
  {
    var w :- ReadWord(data, pos);
    Success(Parsed(U32Of(w.value), w.next))
  }

  /** The longest prefix of `s` free of NUL bytes. */
  function UntilNul(s: Bytes): (t: Bytes)
    ensures |t| <= |s| && t == s[..|t|]
    ensures 0 !in t
    ensures |t| < |s| ==> s[|t|] == 0
  {
    if |s| == 0 || s[0] == 0 then [] else [s[0]] + UntilNul(s[1..])
  }

  /** `skip(n)`: advances over `n` bytes without interpreting them. */
  function Skip(data: Bytes, pos: nat, n: nat): (r: ReadResult<()>)
    ensures r.Success? <==> pos + n <= |data|
    ensures r.Success? ==> r.value.next == pos + n
    ensures r.Failure? ==> r.error == Truncated
  {
    if pos + n <= |data| then Success(Parsed((), pos + n)) else Failure(Truncated)
  }

  /** `peek_fmt('2I')`: two unsigned ints read from `pos`; the cursor stays at `pos`. */
  function PeekU32Pair(data: Bytes, pos: nat): (r: ReadResult<(u32, u32)>)
    ensures r.Success? <==> pos + 8 <= |data|
    ensures r.Success? ==> r.value.next == pos
    ensures r.Success? ==> r.value.value == (U32Of(WordAt(data, pos)), U32Of(WordAt(data, pos + 4)))
    ensures r.Failure? ==> r.error == Truncated
  {
    var first :- ReadU32(data, pos);
    var second :- ReadU32(data, first.next);
    Success(Parsed((first.value, second.value), pos))
  }

  // ---------------------------------------------------------------------------
  // Encoders and read-back lemmas

  /** A text written into a `width`-byte field and padded with NULs. */
  function NulPadded(text: Bytes, width: nat): (b: Bytes)
    requires |text| <= width
    ensures |b| == width
  {
    text + seq(width - |text|, _ => 0)
  }

  lemma ReadBytesAt(data: Bytes, pos: nat, b: Bytes)
    requires At(data, pos, b)
    ensures ReadBytes(data, pos, |b|) == Success(Parsed(b, pos + |b|))
  {
    AtSlice(data, pos, b, 0, |b|);
    assert b[0..|b|] == b;
  }

  /** A NUL-free text of at most `width` bytes survives being padded into a `width`-byte field. */
  lemma UntilNulPadded(text: Bytes, width: nat)
    requires |text| <= width && 0 !in text
    ensures UntilNul(NulPadded(text, width)) == text
  {
    var s := NulPadded(text, width);
    var t := UntilNul(s);
    assert forall i :: 0 <= i < |text| ==> s[i] == text[i];
    assert forall i :: 0 <= i < |text| ==> text[i] != 0;
    assert |text| < |s| ==> s[|text|] == 0;
    assert |t| == |text|;
    assert t == s[..|text|] == text;
  }
}
