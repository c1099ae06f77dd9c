/**
 * Runs of 4-byte fields. Every `read_fmt` call of the header decoders reads
 * formats whose letters are 4 bytes wide (`I`, `i`, `f`, and `4b` as one
 * unit), and so do `read_fourcc` and `read_source1_string(0)`. A run of such
 * reads is described by a plan, one `Field` per word, and performed by one
 * interpreter: a plan of `n` fields consumes exactly `4 * n` bytes, and the
 * `k`-th value is the `k`-th word decoded by the `k`-th field.
 */
module Fields {
  import opened Results
  import opened ByteReader

  datatype Field =
    | UInt      // `I`
    | Int       // `i`
    | Float     // `f`, kept as its four raw bytes
    | FourCC    // `read_fourcc`
    | StrOffset // `read_source1_string(0)`: the offset field of an out-of-line string
    | SignedBytes // `4b`: four signed bytes

  datatype Value =
    | UIntV(u: u32)
    | IntV(i: i32)
    | FloatV(f: Word)
    | FourCCV(tag: Word)
    | StrV(s: StrRef)
    | SignedBytesV(bs: seq<i8>)

  /** `v` is a value the field `f` can produce. */
  predicate Fits(v: Value, f: Field) {
    match f
    case UInt => v.UIntV?
    case Int => v.IntV?
    case Float => v.FloatV?
    case FourCC => v.FourCCV?
    case StrOffset => v.StrV?
    case SignedBytes => v.SignedBytesV? && |v.bs| == 4
  }

  /** Every value of `vs` fits the field at the same index of `plan`. */
  predicate Conforms(vs: seq<Value>, plan: seq<Field>) {
    |vs| == |plan| && forall k :: 0 <= k < |plan| ==> Fits(vs[k], plan[k])
  }

  /** One word decoded by one field. */
  function Decode(f: Field, w: Word): (v: Value)
    ensures Fits(v, f)
  {
    match f
    case UInt => UIntV(U32Of(w))
    case Int => IntV(I32Of(w))
    case Float => FloatV(w)
    case FourCC => FourCCV(w)
    case StrOffset => StrV(StrRef(w))
    case SignedBytes => SignedBytesV([I8Of(w[0]), I8Of(w[1]), I8Of(w[2]), I8Of(w[3])])
  }

  /** The word that `f` decodes to `v`; a value that does not fit is written as zeros. */
  function Encode(f: Field, v: Value): Word {
    if !Fits(v, f) then [0, 0, 0, 0]
    else match f
      case UInt => U32Bytes(v.u)
      case Int => I32Bytes(v.i)
      case Float => v.f
      case FourCC => v.tag
      case StrOffset => v.s.offset
      case SignedBytes => [I8Byte(v.bs[0]), I8Byte(v.bs[1]), I8Byte(v.bs[2]), I8Byte(v.bs[3])]
  }

  /** Each field is a bijection between its words and the values that fit it. */
  lemma DecodeEncode(f: Field, v: Value, w: Word)
    ensures Fits(v, f) ==> Decode(f, Encode(f, v)) == v
    ensures Encode(f, Decode(f, w)) == w
  {
    match f
    case UInt =>
      if Fits(v, f) { U32RoundTrip(v.u, w); }
      U32RoundTrip(0, w);
    case Int =>
      if Fits(v, f) { I32RoundTrip(v.i, w); }
      I32RoundTrip(0, w);
    case Float =>
    case FourCC =>
    case StrOffset =>
    case SignedBytes =>
      I8RoundTrip(w[0], 0);
      I8RoundTrip(w[1], 0);
      I8RoundTrip(w[2], 0);
      I8RoundTrip(w[3], 0);
      if Fits(v, f) {
        I8RoundTrip(0, v.bs[0]);
        I8RoundTrip(0, v.bs[1]);
        I8RoundTrip(0, v.bs[2]);
        I8RoundTrip(0, v.bs[3]);
        assert [v.bs[0], v.bs[1], v.bs[2], v.bs[3]] == v.bs;
      }
  }

  /** The fields of a plan read in order from `pos`. */
  function ReadFields(data: Bytes, pos: nat, plan: seq<Field>): (r: ReadResult<seq<Value>>)
    ensures r.Success? <==> pos + 4 * |plan| <= |data|
    ensures r.Success? ==> r.value.next == pos + 4 * |plan| && |r.value.value| == |plan|
    ensures r.Failure? ==> r.error == Truncated
  {
    ReadFieldsFrom(data, pos, plan, 0)
  }

  /**
   * The fields of `plan` from index `k` on, read from `pos`. The plan is
   * walked by index rather than cut into tails, which keeps the constant
   * plans of the header whole.
   */
  function ReadFieldsFrom(data: Bytes, pos: nat, plan: seq<Field>, k: nat): (r: ReadResult<seq<Value>>)
    requires k <= |plan|
    ensures r.Success? <==> pos + 4 * (|plan| - k) <= |data|
    ensures r.Success? ==> r.value.next == pos + 4 * (|plan| - k) && |r.value.value| == |plan| - k
    ensures r.Failure? ==> r.error == Truncated
    decreases |plan| - k, data   // `data` keeps the verifier from unrolling constant plans
  {
    if k == |plan| then
      if pos <= |data| then Success(Parsed([], pos)) else Failure(Truncated)
    else
      var first :- ReadWord(data, pos);
      var rest :- ReadFieldsFrom(data, first.next, plan, k + 1);
      Success(Parsed([Decode(plan[k], first.value)] + rest.value, rest.next))
  }

  /** The `j`-th value read from index `k` on is the `j`-th word decoded by the field `k + j`. */
  lemma {:induction false} ReadFieldsFromValue(data: Bytes, pos: nat, plan: seq<Field>, k: nat, j: nat)
    requires k + j < |plan| && pos + 4 * (|plan| - k) <= |data|
    ensures ReadFieldsFrom(data, pos, plan, k).value.value[j] == Decode(plan[k + j], WordAt(data, pos + 4 * j))
    decreases j
  {
    var rest := ReadFieldsFrom(data, pos + 4, plan, k + 1).value.value;
    assert ReadFieldsFrom(data, pos, plan, k).value.value == [Decode(plan[k], WordAt(data, pos))] + rest;
    if j > 0 {
      ReadFieldsFromValue(data, pos + 4, plan, k + 1, j - 1);
      assert pos + 4 + 4 * (j - 1) == pos + 4 * j;
    }
  }

  /** The `k`-th value read is the `k`-th word decoded by the `k`-th field. */
  lemma ReadFieldsValue(data: Bytes, pos: nat, plan: seq<Field>, k: nat)
    requires pos + 4 * |plan| <= |data| && k < |plan|
    ensures ReadFields(data, pos, plan).value.value[k] == Decode(plan[k], WordAt(data, pos + 4 * k))
  {
    ReadFieldsFromValue(data, pos, plan, 0, k);
  }

  /** Two plans of one length read the same values wherever they name the same field. */
  lemma ReadFieldsAgree(data: Bytes, pos: nat, plan: seq<Field>, other: seq<Field>)
    requires |plan| == |other| && pos + 4 * |plan| <= |data|
    ensures forall k :: 0 <= k < |plan| && plan[k] == other[k] ==>
      ReadFields(data, pos, plan).value.value[k] == ReadFields(data, pos, other).value.value[k]
  {
    forall k | 0 <= k < |plan| && plan[k] == other[k]
      ensures ReadFields(data, pos, plan).value.value[k] == ReadFields(data, pos, other).value.value[k]
    {
      ReadFieldsValue(data, pos, plan, k);
      ReadFieldsValue(data, pos, other, k);
    }
  }

  /** The bytes a plan reads back as `vs`. */
  function EncodeFields(plan: seq<Field>, vs: seq<Value>): (b: Bytes)
    requires |vs| == |plan|
    ensures |b| == 4 * |plan|
  {
    EncodeFieldsFrom(plan, vs, 0)
  }

  /** The words of the fields from index `k` on, walked by index as in `ReadFieldsFrom`. */
  function EncodeFieldsFrom(plan: seq<Field>, vs: seq<Value>, k: nat): (b: Bytes)
    requires |vs| == |plan| && k <= |plan|
    ensures |b| == 4 * (|plan| - k)
    decreases |plan| - k, vs   // as for `ReadFieldsFrom`
  {
    if k == |plan| then [] else Encode(plan[k], vs[k]) + EncodeFieldsFrom(plan, vs, k + 1)
  }

  /** The words at `pos` onwards are the encodings of the values from index `k` on. */
  predicate WordsAt(data: Bytes, pos: nat, plan: seq<Field>, vs: seq<Value>, k: nat)
    requires |vs| == |plan| && k <= |plan|
  {
    pos + 4 * (|plan| - k) <= |data|
    && forall j :: k <= j < |plan| ==> WordAt(data, pos + 4 * (j - k)) == Encode(plan[j], vs[j])
  }

  /** Words in place from index `k` on are in place from `k + 1` on, one word further. */
  lemma WordsAtNext(data: Bytes, pos: nat, plan: seq<Field>, vs: seq<Value>, k: nat)
    requires |vs| == |plan| && k < |plan|
    requires WordsAt(data, pos, plan, vs, k)
    ensures WordAt(data, pos) == Encode(plan[k], vs[k])
    ensures WordsAt(data, pos + 4, plan, vs, k + 1)
  {
    assert WordAt(data, pos + 4 * (k - k)) == Encode(plan[k], vs[k]);
    forall j | k + 1 <= j < |plan|
      ensures WordAt(data, pos + 4 + 4 * (j - (k + 1))) == Encode(plan[j], vs[j])
    {
      assert pos + 4 + 4 * (j - (k + 1)) == pos + 4 * (j - k);
    }
  }

  lemma {:induction false} ReadFieldsFromAt(data: Bytes, pos: nat, plan: seq<Field>, vs: seq<Value>, k: nat)
    requires Conforms(vs, plan) && k <= |plan|
    requires WordsAt(data, pos, plan, vs, k)
    ensures ReadFieldsFrom(data, pos, plan, k) == Success(Parsed(vs[k..], pos + 4 * (|plan| - k)))
    decreases |plan| - k
  {
    if k < |plan| {
      WordsAtNext(data, pos, plan, vs, k);
      ReadFieldsFromAt(data, pos + 4, plan, vs, k + 1);
      DecodeEncode(plan[k], vs[k], WordAt(data, pos));
      assert [vs[k]] + vs[k + 1..] == vs[k..];
    } else {
      assert vs[k..] == [];
    }
  }

  /** The `j`-th word of an encoding from index `k` on is the encoding of the `j`-th value. */
  lemma {:induction false} EncodeFieldsFromWord(plan: seq<Field>, vs: seq<Value>, k: nat, j: nat)
    requires |vs| == |plan| && k <= j < |plan|
    ensures EncodeFieldsFrom(plan, vs, k)[4 * (j - k)..4 * (j - k) + 4] == Encode(plan[j], vs[j])
    decreases j - k
  {
    var b := EncodeFieldsFrom(plan, vs, k);
    var rest := EncodeFieldsFrom(plan, vs, k + 1);
    assert b == Encode(plan[k], vs[k]) + rest;
    if j == k {
      assert b[..4] == Encode(plan[k], vs[k]);
    } else {
      EncodeFieldsFromWord(plan, vs, k + 1, j);
      var at := 4 * (j - k);
      assert b[at..at + 4] == rest[at - 4..at];
    }
  }

  /** Bytes that hold an encoding hold it word by word. */
  lemma EncodedWordsAt(data: Bytes, pos: nat, plan: seq<Field>, vs: seq<Value>)
    requires |vs| == |plan|
    requires At(data, pos, EncodeFields(plan, vs))
    ensures WordsAt(data, pos, plan, vs, 0)
  {
    AtBytes(data, pos, EncodeFields(plan, vs));
    forall j | 0 <= j < |plan|
      ensures WordAt(data, pos + 4 * (j - 0)) == Encode(plan[j], vs[j])
    {
      EncodeFieldsFromWord(plan, vs, 0, j);
      AtSlice(data, pos, EncodeFields(plan, vs), 4 * j, 4 * j + 4);
      WordAtSlice(data, pos + 4 * j);
    }
  }

  /** Reading a plan over its own encoding of conforming values yields those values. */
  lemma ReadFieldsAt(data: Bytes, pos: nat, plan: seq<Field>, vs: seq<Value>)
    requires Conforms(vs, plan)
    requires At(data, pos, EncodeFields(plan, vs))
    ensures ReadFields(data, pos, plan) == Success(Parsed(vs, pos + 4 * |plan|))
  {
    EncodedWordsAt(data, pos, plan, vs);
    ReadFieldsFromAt(data, pos, plan, vs, 0);
    assert vs[0..] == vs;
  }

  lemma {:induction false} FieldsFromReEncode(data: Bytes, pos: nat, plan: seq<Field>, vs: seq<Value>, k: nat)
    requires pos + 4 * |plan| <= |data| && k <= |plan|
    requires vs == ReadFields(data, pos, plan).value.value
    ensures EncodeFieldsFrom(plan, vs, k) == data[pos + 4 * k..pos + 4 * |plan|]
    decreases |plan| - k
  {
    if k < |plan| {
      var at := pos + 4 * k;
      FieldsFromReEncode(data, pos, plan, vs, k + 1);
      ReadFieldsValue(data, pos, plan, k);
      DecodeEncode(plan[k], UIntV(0), WordAt(data, at));
      WordAtSlice(data, at);
      assert data[at..pos + 4 * |plan|] == data[at..at + 4] + data[at + 4..pos + 4 * |plan|];
    }
  }

  /** Reading loses nothing: the values read re-encode to exactly the bytes they were read from. */
  lemma FieldsReEncode(data: Bytes, pos: nat, plan: seq<Field>)
    requires pos + 4 * |plan| <= |data|
    ensures Conforms(ReadFields(data, pos, plan).value.value, plan)
    ensures EncodeFields(plan, ReadFields(data, pos, plan).value.value) == data[pos..pos + 4 * |plan|]
  {
    var vs := ReadFields(data, pos, plan).value.value;
    forall k | 0 <= k < |plan|
      ensures Fits(vs[k], plan[k])
    {
      ReadFieldsValue(data, pos, plan, k);
    }
    FieldsFromReEncode(data, pos, plan, vs, 0);
  }

  /** `n` copies of one field: the plan of a `ni` or `nI` format. */
  function Repeat(f: Field, n: nat): (plan: seq<Field>)
    ensures |plan| == n
    ensures forall k :: 0 <= k < n ==> plan[k] == f
  {
    seq(n, _ => f)
  }

  // ---------------------------------------------------------------------------
  // Reading values back out. A value of the wrong kind reads as zero; the
  // plans rule that out wherever these are used.

  function AsU32(v: Value): u32 {
    if v.UIntV? then v.u else 0
  }

  function AsI32(v: Value): i32 {
    if v.IntV? then v.i else 0
  }

  function AsWord(v: Value): Word {
    if v.FloatV? then v.f else if v.FourCCV? then v.tag else [0, 0, 0, 0]
  }

  function AsStr(v: Value): StrRef {
    if v.StrV? then v.s else StrRef([0, 0, 0, 0])
  }

  function AsI8s(v: Value): (bs: seq<i8>)
    ensures |bs| == 4
  {
    if v.SignedBytesV? && |v.bs| == 4 then v.bs else [0, 0, 0, 0]
  }

  /** The integers of a run of `i` values. */
  function Ints(vs: seq<Value>): (xs: seq<i32>)
    ensures |xs| == |vs|
    ensures forall k :: 0 <= k < |vs| && vs[k].IntV? ==> xs[k] == vs[k].i
  {
    seq(|vs|, k requires 0 <= k < |vs| => AsI32(vs[k]))
  }

  function IntValues(xs: seq<i32>): (vs: seq<Value>)
    ensures Conforms(vs, Repeat(Int, |xs|)) && Ints(vs) == xs
  {
    seq(|xs|, k requires 0 <= k < |xs| => IntV(xs[k]))
  }
}
