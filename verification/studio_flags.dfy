/**
 * `StudioHDRFlags`: the header's 32-bit flags word viewed as a set of named
 * bits. Twenty-one bits carry names (0 through 19, and 21); bit 20 and bits
 * 22 through 31 have none. Building the flags from a raw word keeps every
 * bit, named or not.
 */
module StudioFlags {
  import opened Results
  import opened ByteReader

  datatype StudioFlag =
    | AutogeneratedHitbox
    | UsesEnvCubemap
    | ForceOpaque
    | TranslucentTwoPass
    | StaticProp
    | UsesFbTexture
    | HasShadowLod
    | UsesBumpmapping
    | UseShadowLodMaterials
    | Obsolete
    | Unused
    | NoForcedFade
    | ForcePhonemeCrossfade
    | ConstantDirectionalLightDot
    | FlexesConverted
    | BuiltInPreviewMode
    | AmbientBoost
    | DoNotCastShadows
    | CastTextureShadows
    | SubdivisionSurface
    | VertAnimFixedPointScale

  const AllFlags: seq<StudioFlag> := [
    AutogeneratedHitbox, UsesEnvCubemap, ForceOpaque, TranslucentTwoPass, StaticProp,
    UsesFbTexture, HasShadowLod, UsesBumpmapping, UseShadowLodMaterials, Obsolete,
    Unused, NoForcedFade, ForcePhonemeCrossfade, ConstantDirectionalLightDot, FlexesConverted,
    BuiltInPreviewMode, AmbientBoost, DoNotCastShadows, CastTextureShadows, SubdivisionSurface,
    VertAnimFixedPointScale
  ]

  /** The bit position each named flag occupies in the word. */
  function Bit(f: StudioFlag): nat {
    match f
    case AutogeneratedHitbox => 0
    case UsesEnvCubemap => 1
    case ForceOpaque => 2
    case TranslucentTwoPass => 3
    case StaticProp => 4
    case UsesFbTexture => 5
    case HasShadowLod => 6
    case UsesBumpmapping => 7
    case UseShadowLodMaterials => 8
    case Obsolete => 9
    case Unused => 10
    case NoForcedFade => 11
    case ForcePhonemeCrossfade => 12
    case ConstantDirectionalLightDot => 13
    case FlexesConverted => 14
    case BuiltInPreviewMode => 15
    case AmbientBoost => 16
    case DoNotCastShadows => 17
    case CastTextureShadows => 18
    case SubdivisionSurface => 19
    case VertAnimFixedPointScale => 21
  }

  /** The named flag at bit position `k`, if there is one. */
  function FlagAt(k: nat): Option<StudioFlag> {
    if k == 0 then Some(AutogeneratedHitbox)
    else if k == 1 then Some(UsesEnvCubemap)
    else if k == 2 then Some(ForceOpaque)
    else if k == 3 then Some(TranslucentTwoPass)
    else if k == 4 then Some(StaticProp)
    else if k == 5 then Some(UsesFbTexture)
    else if k == 6 then Some(HasShadowLod)
    else if k == 7 then Some(UsesBumpmapping)
    else if k == 8 then Some(UseShadowLodMaterials)
    else if k == 9 then Some(Obsolete)
    else if k == 10 then Some(Unused)
    else if k == 11 then Some(NoForcedFade)
    else if k == 12 then Some(ForcePhonemeCrossfade)
    else if k == 13 then Some(ConstantDirectionalLightDot)
    else if k == 14 then Some(FlexesConverted)
    else if k == 15 then Some(BuiltInPreviewMode)
    else if k == 16 then Some(AmbientBoost)
    else if k == 17 then Some(DoNotCastShadows)
    else if k == 18 then Some(CastTextureShadows)
    else if k == 19 then Some(SubdivisionSurface)
    else if k == 21 then Some(VertAnimFixedPointScale)
    else None
  }

  /** Every named flag sits at a bit inside the word, and that bit names it back. */
  lemma BitNamesFlag(f: StudioFlag)
    ensures Bit(f) < 32 && FlagAt(Bit(f)) == Some(f)
  {
    match f
    case AutogeneratedHitbox =>
    case UsesEnvCubemap =>
    case ForceOpaque =>
    case TranslucentTwoPass =>
    case StaticProp =>
    case UsesFbTexture =>
    case HasShadowLod =>
    case UsesBumpmapping =>
    case UseShadowLodMaterials =>
    case Obsolete =>
    case Unused =>
    case NoForcedFade =>
    case ForcePhonemeCrossfade =>
    case ConstantDirectionalLightDot =>
    case FlexesConverted =>
    case BuiltInPreviewMode =>
    case AmbientBoost =>
    case DoNotCastShadows =>
    case CastTextureShadows =>
    case SubdivisionSurface =>
    case VertAnimFixedPointScale =>
  }

  /** A position that carries a name is that name's bit. */
  lemma PositionNamesBit(k: nat)
    requires FlagAt(k).Some?
    ensures Bit(FlagAt(k).value) == k
  {
    if k < 11 {
      assert k in {0, 1, 2, 3, 4, 5, 6, 7, 8, 9, 10};
    } else {
      assert k in {11, 12, 13, 14, 15, 16, 17, 18, 19, 21};
    }
  }

  /** `AllFlags` lists every named flag: the flag at bit `b` is its entry `b`, or 20 for bit 21. */
  lemma AllFlagsListsFlag(f: StudioFlag)
    ensures f in AllFlags
  {
    BitNamesFlag(f);
    var i := if Bit(f) == 21 then 20 else Bit(f);
    assert AllFlags[i] == f;
  }

  /**
   * Names and positions are in one-to-one correspondence: every named flag
   * sits at a bit inside the word, no two share a bit, every position below
   * 22 other than 20 carries a name, and 20 and 22 onwards carry none.
   */
  lemma NamesMatchPositions()
    ensures forall f :: Bit(f) < 32 && FlagAt(Bit(f)) == Some(f)
    ensures forall k: nat :: FlagAt(k).Some? ==> Bit(FlagAt(k).value) == k
    ensures forall k: nat :: FlagAt(k).None? <==> k == 20 || k >= 22
    ensures forall f :: f in AllFlags
    ensures |AllFlags| == 21
  {
    forall f ensures Bit(f) < 32 && FlagAt(Bit(f)) == Some(f) {
      BitNamesFlag(f);
    }
    forall k: nat | FlagAt(k).Some? ensures Bit(FlagAt(k).value) == k {
      PositionNamesBit(k);
    }
    forall f ensures f in AllFlags {
      AllFlagsListsFlag(f);
    }
  }

  // ---------------------------------------------------------------------------
  // Bits of a word

  /** The low `n` bits of `x`, least significant first. */
  function BitsOf(x: nat, n: nat): (bits: seq<bool>)
    ensures |bits| == n
  {
    if n == 0 then [] else [x % 2 == 1] + BitsOf(x / 2, n - 1)
  }

  /** The value whose bits, least significant first, are `bits`. */
  function ValueOfBits(bits: seq<bool>): nat {
    if |bits| == 0 then 0 else (if bits[0] then 1 else 0) + 2 * ValueOfBits(bits[1..])
  }

  function Pow2(n: nat): (p: nat)
    ensures p > 0
  {
    if n == 0 then 1 else 2 * Pow2(n - 1)
  }

  lemma {:induction false} Pow2Add(a: nat, b: nat)
    ensures Pow2(a + b) == Pow2(a) * Pow2(b)
    decreases a
  {
    if a > 0 {
      Pow2Add(a - 1, b);
    }
  }

  lemma Pow2Of32()
    ensures Pow2(32) == 0x1_0000_0000
  {
    assert Pow2(8) == 0x100;
    Pow2Add(8, 8);
    Pow2Add(16, 16);
  }

  lemma {:induction false} ValueOfBitsOf(x: nat, n: nat)
    requires x < Pow2(n)
    ensures ValueOfBits(BitsOf(x, n)) == x
  {
    if n > 0 {
      var bits := BitsOf(x, n);
      assert bits[1..] == BitsOf(x / 2, n - 1);
      ValueOfBitsOf(x / 2, n - 1);
    }
  }

  /** `x >> k`. */
  function ShiftRight(x: nat, k: nat): nat {
    if k == 0 then x else ShiftRight(x / 2, k - 1)
  }

  /** Bit `k` of the list is the bit an `x & (1 << k)` test examines: the low bit of `x >> k`. */
  lemma {:induction false} BitsOfSelects(x: nat, n: nat, k: nat)
    requires k < n
    ensures BitsOf(x, n)[k] == (ShiftRight(x, k) % 2 == 1)
    decreases k
  {
    if k > 0 {
      assert BitsOf(x, n)[k] == BitsOf(x / 2, n - 1)[k - 1];
      BitsOfSelects(x / 2, n - 1, k - 1);
    }
  }

  // ---------------------------------------------------------------------------
  // The flags value

  /** `StudioHDRFlags(word)`: the value keeps the whole word. */
  datatype Flags = Flags(raw: u32)

  function WordBits(f: Flags): (bits: seq<bool>)
    ensures |bits| == 32
  {
    BitsOf(f.raw, 32)
  }

  predicate Has(f: Flags, flag: StudioFlag) {
    NamesMatchPositions();
    WordBits(f)[Bit(flag)]
  }

  /** A named flag is set exactly when its `1 << Bit(flag)` mask meets the word. */
  lemma HasIsMaskTest(f: Flags, flag: StudioFlag)
    ensures Has(f, flag) <==> ShiftRight(f.raw, Bit(flag)) % 2 == 1
  {
    NamesMatchPositions();
    BitsOfSelects(f.raw, 32, Bit(flag));
  }

  /** The named flags that are set: exactly those whose mask meets the raw word. */
  function Named(f: Flags): (s: set<StudioFlag>)
    ensures forall flag :: flag in s <==> ShiftRight(f.raw, Bit(flag)) % 2 == 1
  {
    NamesMatchPositions();
    forall flag ensures Has(f, flag) <==> ShiftRight(f.raw, Bit(flag)) % 2 == 1 {
      HasIsMaskTest(f, flag);
    }
    set flag | flag in AllFlags && Has(f, flag)
  }

  /** The set bit positions that carry no name: bit 20 and bits 22 through 31 of the raw word. */
  function UnknownBits(f: Flags): (s: set<nat>)
    ensures forall k: nat :: k in s <==> k < 32 && ShiftRight(f.raw, k) % 2 == 1 && (k == 20 || k >= 22)
  {
    NamesMatchPositions();
    forall k: nat | k < 32 ensures WordBits(f)[k] <==> ShiftRight(f.raw, k) % 2 == 1 {
      BitsOfSelects(f.raw, 32, k);
    }
    set k: nat | k < 32 && WordBits(f)[k] && FlagAt(k).None?
  }

  /** The word whose named bits are `named` and whose other set bits are `unknown`. */
  function Rebuild(named: set<StudioFlag>, unknown: set<nat>): nat {
    ValueOfBits(seq(32, k requires 0 <= k < 32 =>
      (FlagAt(k).Some? && FlagAt(k).value in named) || k in unknown))
  }

  /**
   * Nothing is lost in the named view: the named flags that are set together
   * with the unnamed set bits rebuild exactly the word the flags came from.
   */
  lemma {:induction false} NamedViewKeepsEveryBit(raw: u32)
    ensures Rebuild(Named(Flags(raw)), UnknownBits(Flags(raw))) == raw
  {
    var f := Flags(raw);
    NamesMatchPositions();
    var bits := seq(32, k requires 0 <= k < 32 =>
      (FlagAt(k).Some? && FlagAt(k).value in Named(f)) || k in UnknownBits(f));
    forall k | 0 <= k < 32 ensures bits[k] == WordBits(f)[k] {
      if FlagAt(k).Some? {
        assert Has(f, FlagAt(k).value) == WordBits(f)[k];
      }
    }
    assert bits == WordBits(f);
    Pow2Of32();
    ValueOfBitsOf(raw, 32);
  }
}
