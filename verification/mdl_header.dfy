/**
 * The studio-model (`.mdl`, magic "IDST") header decoders for versions 36,
 * 44, 49 and 52 (library/source1/mdl/structs/header.py).
 *
 * Each decoder reads one fixed, little-endian field sequence from a cursor
 * position and either yields the header record together with the position
 * right after it, or fails. The field groups every version shares are read
 * by the same helper; each decoder lists the groups in its own order and
 * adds the reads only it performs. No decoder checks the magic: that is
 * `IsValidFile`'s job, and it does not move the cursor.
 */
module MdlHeader {
  import opened Results
  import opened ByteReader
  import opened StudioFlags
  import opened Fields
  import opened Layouts

  // ---------------------------------------------------------------------------
  // Records

  /** A `3f` vector; the floats stay uninterpreted 4-byte words. */
  datatype Vec3 = Vec3(x: Word, y: Word, z: Word)

  /** A `2I` (count, offset) pair naming a sub-table elsewhere in the file. */
  datatype Table = Table(count: u32, offset: u32)

  /** The six `3f` vectors between the file size and the flags. */
  datatype Bounds = Bounds(
    eyePosition: Vec3,
    illuminationPosition: Vec3,
    hullMin: Vec3,
    hullMax: Vec3,
    viewBBoxMin: Vec3,
    viewBBoxMax: Vec3)

  /** The leading fields every version reads in the same order. */
  datatype Identity = Identity(
    id: Word,
    version: i32,
    checksum: i32,
    name: Bytes,
    fileSize: u32,
    bounds: Bounds,
    flags: Flags)

  /** Bones through local sequences, read by every version right after the flags. */
  datatype AnimationTables = AnimationTables(
    bones: Table,
    boneControllers: Table,
    hitboxSets: Table,
    localAnimations: Table,
    localSequences: Table)

  /** Version 36 only: read after a 16-byte skip, where later versions read two activity words. */
  datatype SequenceGroups = SequenceGroups(
    sequencesIndexedFlag: u32,
    sequenceGroupCount: u32,
    sequenceGroupOffset: i32)

  /** Textures through local attachments. */
  datatype AssetTables = AssetTables(
    textures: Table,
    texturePaths: Table,
    skinReferenceCount: u32,
    skinFamilyCount: u32,
    skinFamilyOffset: u32,
    bodyParts: Table,
    localAttachments: Table)

  /** Version 44 onwards: the `3I` node triple read where version 36 reads its transition pair. */
  datatype NodeTable = NodeTable(count: u32, offset: u32, nameOffset: u32)

  /** Flex descriptors through local pose parameters. */
  datatype FlexTables = FlexTables(
    flexDescs: Table,
    flexControllers: Table,
    flexRules: Table,
    ikChains: Table,
    mouths: Table,
    localPoseParameters: Table)

  /** The surface property string through `contents`. */
  datatype MiscBlock = MiscBlock(
    surfaceProp: StrRef,
    keyValueOffset: u32,
    keyValueSize: u32,
    localIkAutoPlayLocks: Table,
    mass: Word,
    contents: u32)

  datatype BodyV36 = BodyV36(
    identity: Identity,
    animation: AnimationTables,
    sequenceGroups: SequenceGroups,
    assets: AssetTables,
    transitions: Table,
    flex: FlexTables,
    misc: MiscBlock)

  /** The part of the header that versions 44, 49 and 52 read identically. */
  datatype BodyV44 = BodyV44(
    identity: Identity,
    animation: AnimationTables,
    activityListVersion: u32,
    eventsIndexed: u32,
    assets: AssetTables,
    localNodes: NodeTable,
    flex: FlexTables,
    misc: MiscBlock)

  /** Version 44: include models through the zero-frame cache offset. */
  datatype ModelRefsV44 = ModelRefsV44(
    includeModels: Table,
    virtualModelPointer: u32,
    animBlockName: StrRef,
    animBlocks: Table,
    animBlockModelPointer: u32,
    boneTableByNameOffset: u32,
    vertexBasePointer: u32,
    indexBasePointer: u32,
    directionalLightDot: i8,
    rootLod: i8,
    unused: seq<i8>,
    zeroFrameCacheOffset: i32)

  /** Version 44: the flex controller UI table through the name offset. */
  datatype TrailerV44 = TrailerV44(
    flexControllerUi: Table,
    unused3: seq<u32>,
    studioHeader2Offset: u32,
    unused2: u32,
    sourceBoneTransforms: Table,
    illumPositionAttachmentIndex: u32,
    maxEyeDeflection: Word,
    linearBoneOffset: u32,
    nameOffset: u32)

  /** Versions 49 and 52: include models through `unused4`. */
  datatype ModelRefsV49 = ModelRefsV49(
    includeModels: Table,
    virtualModelPointer: u32,
    animBlockNameOffset: u32,
    animBlocks: Table,
    animBlockModelPointer: u32,
    boneTableByNameOffset: u32,
    vertexBasePointer: u32,
    indexBasePointer: u32,
    directionalLightDot: i8,
    rootLod: i8,
    allowedRootLodCount: i8,
    unused: i8,
    unused4: u32)

  /**
   * Versions 49 and 52: the flex controller UI table through the name offset.
   * Version 49 fills `unused2` and has no Maya file name; version 52 reads the
   * Maya file name in that slot and leaves `unused2` at its initial 0.
   */
  datatype TrailerV49 = TrailerV49(
    flexControllerUi: Table,
    vertAnimFixedPointScale: Word,
    unused3: u32,
    studioHeader2Offset: u32,
    unused2: u32,
    mayaFilename: Option<StrRef>,
    sourceBoneTransforms: Table,
    illumPositionAttachmentIndex: u32,
    maxEyeDeflection: Word,
    linearBoneOffset: u32,
    nameOffset: u32)

  datatype HeaderV36 = HeaderV36(body: BodyV36, reserved: seq<i32>)

  datatype HeaderV44 = HeaderV44(body: BodyV44, refs: ModelRefsV44, trailer: TrailerV44, reserved: seq<i32>)

  /** The record of versions 49 and 52 (`MdlHeaderV52` only adds `maya_filename`). */
  datatype HeaderV49 = HeaderV49(
    body: BodyV44,
    refs: ModelRefsV49,
    trailer: TrailerV49,
    boneFlexDriver: Table,
    reserved: seq<i32>)

  // ---------------------------------------------------------------------------
  // Layout constants

  const Magic: Word := [0x49, 0x44, 0x53, 0x54]   // "IDST"
  const NameWidth: nat := 64

  /** Bytes before the file size field: fourcc, version, checksum and name. */
  const FileSizeOffset: nat := 76
  const VersionOffset: nat := 4

  const IdentitySize: nat := 156
  const SequenceGroupsSkip: nat := 16
  const TrailerV44Skip: nat := 36       // `skip(4 * 9)` after the studio header 2 pair
  const TrailerV49Size: nat := 48
  /** Where the trailer of versions 49 and 52 starts, relative to the header start. */
  const TrailerV49Offset: nat := 384

  /** The second peeked word that announces the 20-byte block in version 44 ("SCAL" in ASCII). */
  const VendorBlockSentinel: u32 := 1279345491
  const VendorBlockSize: nat := 20
  /** Where version 44 peeks, relative to the header start. */
  const VendorPeekOffset: nat := 384

  const ReservedV36: nat := 9
  const ReservedV44: nat := 58
  const ReservedV49: nat := 56

  /** Bytes each version consumes; version 44 adds the vendor block, 49 and 52 the bone flex driver pair. */
  const V36Size: nat := 388
  const V44Size: nat := 708
  const V49Size: nat := 656
  const BoneFlexDriverSize: nat := 8
  const BoneFlexDriverMinVersion: int := 48

  /** The version word at the header start. */
  function DeclaredVersion(data: Bytes, pos: nat): i32
    requires pos + VersionOffset + 4 <= |data|
  {
    I32Of(WordAt(data, pos + VersionOffset))
  }

  /** The file size the header declares. */
  function DeclaredFileSize(data: Bytes, pos: nat): u32
    requires pos + FileSizeOffset + 4 <= |data|
  {
    U32Of(WordAt(data, pos + FileSizeOffset))
  }

  /** The second of the two words at `at` is the vendor block sentinel. */
  predicate SentinelAt(data: Bytes, at: nat) {
    at + 8 <= |data| && U32Of(WordAt(data, at + 4)) == VendorBlockSentinel
  }

  /** Whether version 44's peek, 384 bytes into the header, finds the sentinel. */
  predicate HasVendorBlock(data: Bytes, pos: nat) {
    SentinelAt(data, pos + VendorPeekOffset)
  }

  /** Bytes a version 44 header occupies at `pos`: 20 more when the peek finds the sentinel. */
  function V44Length(data: Bytes, pos: nat): nat {
    V44Size + if HasVendorBlock(data, pos) then VendorBlockSize else 0
  }

  /** Bytes a version 49 or 52 header declaring `version` occupies: 8 more from version 48 on. */
  function V49Length(version: int): nat {
    V49Size + if version >= BoneFlexDriverMinVersion then BoneFlexDriverSize else 0
  }

  // ---------------------------------------------------------------------------
  // Plans: the runs of 4-byte reads, one field per word, in source order

  const IdentityPrefixPlan: seq<Field> := [FourCC, Int, Int]   // fourcc, `ii` version and checksum
  /** Six `3f` vectors and the flags `I`. */
  const BoundsFlagsPlan: seq<Field> := [
    Float, Float, Float, Float, Float, Float, Float, Float, Float,
    Float, Float, Float, Float, Float, Float, Float, Float, Float,
    UInt]
  const AnimationTablesPlan: seq<Field> := [UInt, UInt, UInt, UInt, UInt, UInt, UInt, UInt, UInt, UInt]
  const SequenceGroupsPlan: seq<Field> := [UInt, UInt, Int]
  const PairPlan: seq<Field> := [UInt, UInt]   // `2I`
  const AssetTablesPlan: seq<Field> := [UInt, UInt, UInt, UInt, UInt, UInt, UInt, UInt, UInt, UInt, UInt]
  const NodeTablePlan: seq<Field> := [UInt, UInt, UInt]
  const FlexTablesPlan: seq<Field> := [UInt, UInt, UInt, UInt, UInt, UInt, UInt, UInt, UInt, UInt, UInt, UInt]
  const MiscBlockPlan: seq<Field> := [StrOffset, UInt, UInt, UInt, UInt, Float, UInt]
  const ModelRefsV44Plan: seq<Field> := [UInt, UInt, UInt, StrOffset, UInt, UInt, UInt, UInt, UInt, UInt, SignedBytes, Int]
  /** Version 44's trailer before its 36-byte skip: `2I`, `4I`, `2I`. */
  const TrailerV44HeadPlan: seq<Field> := [UInt, UInt, UInt, UInt, UInt, UInt, UInt, UInt]
  /** Version 44's trailer after its skip: `2I`, `If`, `2I`. */
  const TrailerV44TailPlan: seq<Field> := [UInt, UInt, UInt, Float, UInt, UInt]
  const ModelRefsV49Plan: seq<Field> := [UInt, UInt, UInt, UInt, UInt, UInt, UInt, UInt, UInt, UInt, SignedBytes, UInt]
  /** Version 49's trailer; word 5 is `unused2`. */
  const TrailerV49Plan: seq<Field> := [UInt, UInt, Float, UInt, UInt, UInt, UInt, UInt, UInt, Float, UInt, UInt]
  /** Version 52's trailer; word 5 is the Maya file name string. */
  const TrailerV52Plan: seq<Field> := [UInt, UInt, Float, UInt, UInt, StrOffset, UInt, UInt, UInt, Float, UInt, UInt]

  // ---------------------------------------------------------------------------
  // Records from the values of their plans

  function TableAt(vs: seq<Value>, k: nat): Table
    requires k + 1 < |vs|
  {
    Table(AsU32(vs[k]), AsU32(vs[k + 1]))
  }

  function Vec3At(vs: seq<Value>, k: nat): Vec3
    requires k + 2 < |vs|
  {
    Vec3(AsWord(vs[k]), AsWord(vs[k + 1]), AsWord(vs[k + 2]))
  }

  function IdentityOf(prefix: seq<Value>, name: Bytes, fileSize: u32, rest: seq<Value>): Identity
    requires |prefix| == |IdentityPrefixPlan| && |rest| == |BoundsFlagsPlan|
  {
    Identity(
      AsWord(prefix[0]), AsI32(prefix[1]), AsI32(prefix[2]), name, fileSize,
      Bounds(Vec3At(rest, 0), Vec3At(rest, 3), Vec3At(rest, 6), Vec3At(rest, 9), Vec3At(rest, 12), Vec3At(rest, 15)),
      Flags(AsU32(rest[18])))
  }

  function AnimationTablesOf(vs: seq<Value>): AnimationTables
    requires |vs| == |AnimationTablesPlan|
  {
    AnimationTables(TableAt(vs, 0), TableAt(vs, 2), TableAt(vs, 4), TableAt(vs, 6), TableAt(vs, 8))
  }

  function SequenceGroupsOf(vs: seq<Value>): SequenceGroups
    requires |vs| == |SequenceGroupsPlan|
  {
    SequenceGroups(AsU32(vs[0]), AsU32(vs[1]), AsI32(vs[2]))
  }

  function AssetTablesOf(vs: seq<Value>): AssetTables
    requires |vs| == |AssetTablesPlan|
  {
    AssetTables(TableAt(vs, 0), TableAt(vs, 2), AsU32(vs[4]), AsU32(vs[5]), AsU32(vs[6]), TableAt(vs, 7), TableAt(vs, 9))
  }

  function NodeTableOf(vs: seq<Value>): NodeTable
    requires |vs| == |NodeTablePlan|
  {
    NodeTable(AsU32(vs[0]), AsU32(vs[1]), AsU32(vs[2]))
  }

  function FlexTablesOf(vs: seq<Value>): FlexTables
    requires |vs| == |FlexTablesPlan|
  {
    FlexTables(TableAt(vs, 0), TableAt(vs, 2), TableAt(vs, 4), TableAt(vs, 6), TableAt(vs, 8), TableAt(vs, 10))
  }

  function MiscBlockOf(vs: seq<Value>): MiscBlock
    requires |vs| == |MiscBlockPlan|
  {
    MiscBlock(AsStr(vs[0]), AsU32(vs[1]), AsU32(vs[2]), TableAt(vs, 3), AsWord(vs[5]), AsU32(vs[6]))
  }

  /** `directional_light_dot, root_lod, *unused = 4b`: the last two signed bytes stay a list. */
  function ModelRefsV44Of(vs: seq<Value>): ModelRefsV44
    requires |vs| == |ModelRefsV44Plan|
  {
    var packed := AsI8s(vs[10]);
    ModelRefsV44(
      TableAt(vs, 0), AsU32(vs[2]), AsStr(vs[3]), TableAt(vs, 4), AsU32(vs[6]), AsU32(vs[7]),
      AsU32(vs[8]), AsU32(vs[9]), packed[0], packed[1], packed[2..], AsI32(vs[11]))
  }

  function TrailerV44Of(head: seq<Value>, tail: seq<Value>): TrailerV44
    requires |head| == |TrailerV44HeadPlan| && |tail| == |TrailerV44TailPlan|
  {
    TrailerV44(
      TableAt(head, 0), [AsU32(head[2]), AsU32(head[3]), AsU32(head[4]), AsU32(head[5])],
      AsU32(head[6]), AsU32(head[7]), TableAt(tail, 0), AsU32(tail[2]), AsWord(tail[3]),
      AsU32(tail[4]), AsU32(tail[5]))
  }

  function ModelRefsV49Of(vs: seq<Value>): ModelRefsV49
    requires |vs| == |ModelRefsV49Plan|
  {
    var packed := AsI8s(vs[10]);
    ModelRefsV49(
      TableAt(vs, 0), AsU32(vs[2]), AsU32(vs[3]), TableAt(vs, 4), AsU32(vs[6]), AsU32(vs[7]),
      AsU32(vs[8]), AsU32(vs[9]), packed[0], packed[1], packed[2], packed[3], AsU32(vs[11]))
  }

  /**
   * The trailer of versions 49 and 52. Word 5 is `unused2` when read as `I`
   * and the Maya file name when read as a string; the other stays at its
   * initial value (0, or no name).
   */
  function TrailerV49Of(vs: seq<Value>, mayaFilename: bool): TrailerV49
    requires |vs| == |TrailerV49Plan|
  {
    TrailerV49(
      TableAt(vs, 0), AsWord(vs[2]), AsU32(vs[3]), AsU32(vs[4]),
      if mayaFilename then 0 else AsU32(vs[5]),
      if mayaFilename then Some(AsStr(vs[5])) else None,
      TableAt(vs, 6), AsU32(vs[8]), AsWord(vs[9]), AsU32(vs[10]), AsU32(vs[11]))
  }

  // ---------------------------------------------------------------------------
  // Layouts: each decoder's reads, section by section, in source order

  const FileSizePlan: seq<Field> := [UInt]   // the `u32` file size

  /** Fourcc, version, checksum, the 64-byte name and the file size: the reads before versions 49 and 52 check the size. */
  const IdentityHeadLayout: seq<Step> := [Words(IdentityPrefixPlan), Text(NameWidth), Words(FileSizePlan)]

  /** Version 36 after the file size: the 16-byte skip sits where later versions read the activity pair. */
  const BodyV36Layout: seq<Step> := FrontV36Layout + BackV36Layout
  /** Through the sequence groups, where version 36 departs from the later versions. */
  const FrontV36Layout: seq<Step> := [
    Words(BoundsFlagsPlan), Words(AnimationTablesPlan), Gap(SequenceGroupsSkip), Words(SequenceGroupsPlan)]
  const BackV36Layout: seq<Step> := [
    Words(AssetTablesPlan), Words(PairPlan), Words(FlexTablesPlan), Words(MiscBlockPlan), Repeated(Int, ReservedV36)]

  /** The seven groups versions 44, 49 and 52 read identically after the file size. */
  const CommonLayout: seq<Step> := [
    Words(BoundsFlagsPlan), Words(AnimationTablesPlan), Words(PairPlan), Words(AssetTablesPlan),
    Words(NodeTablePlan), Words(FlexTablesPlan), Words(MiscBlockPlan)]

  /**
   * Where version 36 departs from the later versions: both start with the
   * bounds, flags and animation tables; version 36 then skips 16 bytes and
   * reads its sequence groups where the later versions read the activity
   * pair, and reads its transition pair where they read the node triple; the
   * asset, flex and misc groups are the same reads in the same order.
   */
  lemma V36Departures()
    ensures FrontV36Layout[..2] == CommonLayout[..2]
    ensures FrontV36Layout[2..] == [Gap(SequenceGroupsSkip), Words(SequenceGroupsPlan)]
    ensures CommonLayout[2] == Words(PairPlan)
    ensures BackV36Layout[0] == CommonLayout[3] == Words(AssetTablesPlan)
    ensures BackV36Layout[1] == Words(PairPlan) && CommonLayout[4] == Words(NodeTablePlan)
    ensures BackV36Layout[2..4] == CommonLayout[5..7]
  {
  }

  /** Version 44 after the file size, through the model references, where it peeks for the vendor block. */
  const BodyV44Layout: seq<Step> := CommonLayout + [Words(ModelRefsV44Plan)]

  /** Version 44 after the vendor block: the trailer with its 36-byte skip, and 58 reserved `i`. */
  const TailV44Layout: seq<Step> := [
    Words(TrailerV44HeadPlan), Gap(TrailerV44Skip), Words(TrailerV44TailPlan), Repeated(Int, ReservedV44)]

  /** Version 49's trailer, or version 52's when the trailer holds the Maya file name. */
  function TrailerPlanFor(mayaFilename: bool): seq<Field> {
    if mayaFilename then TrailerV52Plan else TrailerV49Plan
  }

  /** Versions 49 and 52 after the file size, through the model references: the reads both versions share. */
  const BodyV49Layout: seq<Step> := CommonLayout + [Words(ModelRefsV49Plan)]

  /** Versions 49 and 52 after the trailer: the bone flex driver pair when the version is above 47, then 56 reserved `i`. */
  function ClosingV49Layout(version: int): (steps: seq<Step>)
    ensures |steps| > 0 && steps[|steps| - 1] == Repeated(Int, ReservedV49)
  {
    if version > 47 then [Words(PairPlan), Repeated(Int, ReservedV49)] else [Repeated(Int, ReservedV49)]
  }

  /** The bytes each layout reads, section by section from the last. */
  lemma LayoutWidths()
    ensures LayoutWidth(IdentityHeadLayout, 0) == FileSizeOffset + 4
    ensures LayoutWidth(BodyV36Layout, 0) == V36Size - FileSizeOffset - 4
    ensures LayoutWidth(BodyV44Layout, 0) == VendorPeekOffset - FileSizeOffset - 4
    ensures LayoutWidth(TailV44Layout, 0) == V44Size - VendorPeekOffset
    ensures LayoutWidth(BodyV49Layout, 0) == TrailerV49Offset - FileSizeOffset - 4
    ensures forall version: int :: LayoutWidth(ClosingV49Layout(version), 0) == V49Length(version) - V49Size + 4 * ReservedV49
  {
    var h := IdentityHeadLayout;
    assert LayoutWidth(h, 3) == 0;
    assert LayoutWidth(h, 2) == 4;
    assert LayoutWidth(h, 1) == 68;
    assert LayoutWidth(h, 0) == 80;
    var f36 := FrontV36Layout;
    assert LayoutWidth(f36, 4) == 0;
    assert LayoutWidth(f36, 3) == 12;
    assert LayoutWidth(f36, 2) == 28;
    assert LayoutWidth(f36, 1) == 68;
    assert LayoutWidth(f36, 0) == 144;
    var b36 := BackV36Layout;
    assert LayoutWidth(b36, 5) == 0;
    assert LayoutWidth(b36, 4) == 36;
    assert LayoutWidth(b36, 3) == 64;
    assert LayoutWidth(b36, 2) == 112;
    assert LayoutWidth(b36, 1) == 120;
    assert LayoutWidth(b36, 0) == 164;
    LayoutWidthAppend(f36, b36);
    var c := CommonLayout;
    assert LayoutWidth(c, 7) == 0;
    assert LayoutWidth(c, 6) == 28;
    assert LayoutWidth(c, 5) == 76;
    assert LayoutWidth(c, 4) == 88;
    assert LayoutWidth(c, 3) == 132;
    assert LayoutWidth(c, 2) == 140;
    assert LayoutWidth(c, 1) == 180;
    assert LayoutWidth(c, 0) == 256;
    var r44 := [Words(ModelRefsV44Plan)];
    assert LayoutWidth(r44, 1) == 0;
    assert LayoutWidth(r44, 0) == 48;
    LayoutWidthAppend(c, r44);
    var t44 := TailV44Layout;
    assert LayoutWidth(t44, 4) == 0;
    assert LayoutWidth(t44, 3) == 232;
    assert LayoutWidth(t44, 2) == 256;
    assert LayoutWidth(t44, 1) == 292;
    assert LayoutWidth(t44, 0) == 324;
    var r49 := [Words(ModelRefsV49Plan)];
    assert LayoutWidth(r49, 1) == 0;
    assert LayoutWidth(r49, 0) == 48;
    LayoutWidthAppend(c, r49);
    forall version: int
      ensures LayoutWidth(ClosingV49Layout(version), 0) == V49Length(version) - V49Size + 4 * ReservedV49
    {
      var c := ClosingV49Layout(version);
      assert LayoutWidth(c, |c| - 1) == 4 * ReservedV49;
    }
  }

  // ---------------------------------------------------------------------------
  // Records from the items of their layouts

  function IdentityFrom(head: seq<Item>, boundsFlags: seq<Value>): Identity
    requires ShapedFrom(head, IdentityHeadLayout, 0) && |boundsFlags| == |BoundsFlagsPlan|
  {
    IdentityOf(head[0].values, head[1].text, AsU32(head[2].values[0]), boundsFlags)
  }

  /** The seven groups versions 44, 49 and 52 read identically, from the first items of a body read by `CommonLayout + rest`. */
  function BodyV44From(head: seq<Item>, body: seq<Item>, rest: seq<Step>): BodyV44
    requires ShapedFrom(head, IdentityHeadLayout, 0) && ShapedFrom(body, CommonLayout + rest, 0)
  {
    BodyV44(
      IdentityFrom(head, body[0].values), AnimationTablesOf(body[1].values),
      AsU32(body[2].values[0]), AsU32(body[2].values[1]), AssetTablesOf(body[3].values),
      NodeTableOf(body[4].values), FlexTablesOf(body[5].values), MiscBlockOf(body[6].values))
  }

  function HeaderV36From(head: seq<Item>, body: seq<Item>): HeaderV36
    requires ShapedFrom(head, IdentityHeadLayout, 0) && ShapedFrom(body, BodyV36Layout, 0)
  {
    HeaderV36(
      BodyV36(
        IdentityFrom(head, body[0].values), AnimationTablesOf(body[1].values),
        SequenceGroupsOf(body[3].values), AssetTablesOf(body[4].values), TableAt(body[5].values, 0),
        FlexTablesOf(body[6].values), MiscBlockOf(body[7].values)),
      Ints(body[8].values))
  }

  function HeaderV44From(head: seq<Item>, body: seq<Item>, tail: seq<Item>): HeaderV44
    requires ShapedFrom(head, IdentityHeadLayout, 0) && ShapedFrom(body, BodyV44Layout, 0)
    requires ShapedFrom(tail, TailV44Layout, 0)
  {
    HeaderV44(
      BodyV44From(head, body, [Words(ModelRefsV44Plan)]), ModelRefsV44Of(body[7].values),
      TrailerV44Of(tail[0].values, tail[2].values), Ints(tail[3].values))
  }

  function HeaderV49From(
    head: seq<Item>, body: seq<Item>, trailer: seq<Value>, mayaFilename: bool, closing: seq<Item>, version: int): HeaderV49
    requires ShapedFrom(head, IdentityHeadLayout, 0) && ShapedFrom(body, BodyV49Layout, 0)
    requires |trailer| == |TrailerV49Plan| && ShapedFrom(closing, ClosingV49Layout(version), 0)
  {
    HeaderV49(
      BodyV44From(head, body, [Words(ModelRefsV49Plan)]), ModelRefsV49Of(body[7].values),
      TrailerV49Of(trailer, mayaFilename),
      if version > 47 then TableAt(closing[0].values, 0) else Table(0, 0),
      Ints(closing[|closing| - 1].values))
  }

  // ---------------------------------------------------------------------------
  // Magic check

  /**
   * `is_valid_file`: the four bytes at the cursor spell "IDST". The fourcc is
   * read inside a saved position, so the cursor ends where it started.
   */
  function IsValidFile(data: Bytes, pos: nat): (r: ReadResult<bool>)
    ensures r.Success? <==> pos + 4 <= |data|
    ensures r.Success? ==> r.value.next == pos
    ensures r.Success? ==> (r.value.value <==> data[pos..pos + 4] == Magic)
    ensures r.Failure? ==> r.error == Truncated
  {
    var fourcc :- ReadWord(data, pos);
    Success(Parsed(fourcc.value == Magic, pos))
  }

  // ---------------------------------------------------------------------------
  // Decoders

  /** The version and file size the identity head reads are the words at offsets 4 and 76. */
  lemma IdentityHeadFields(data: Bytes, pos: nat)
    requires pos + FileSizeOffset + 4 <= |data|
    ensures ReadLayout(data, pos, IdentityHeadLayout).Success?
    ensures ReadLayout(data, pos, IdentityHeadLayout).value.value[0].values[1] == IntV(DeclaredVersion(data, pos))
    ensures ReadLayout(data, pos, IdentityHeadLayout).value.value[2].values[0] == UIntV(DeclaredFileSize(data, pos))
  {
    LayoutWidths();
    var layout := IdentityHeadLayout;
    var last := ReadSteps(data, pos + FileSizeOffset, layout, 2);
    var name := ReadSteps(data, pos + 12, layout, 1);
    assert last.value.value[0] == ReadStep(data, pos + FileSizeOffset, layout[2]).value.value;
    assert name.value.value[1] == last.value.value[0];
    assert ReadSteps(data, pos, layout, 0).value.value[2] == name.value.value[1];
    ReadFieldsValue(data, pos, IdentityPrefixPlan, 1);
    ReadFieldsValue(data, pos + FileSizeOffset, FileSizePlan, 0);
  }

  /**
   * Version 44's optional block: peek two words without consuming them and
   * skip 20 bytes exactly when the second is the sentinel. The result says
   * whether the block was skipped.
   */
  function SkipVendorBlock(data: Bytes, pos: nat): (r: ReadResult<bool>)
    ensures r.Success? <==> pos + 8 <= |data| && (SentinelAt(data, pos) ==> pos + VendorBlockSize <= |data|)
    ensures r.Success? ==> r.value.value == SentinelAt(data, pos)
    ensures r.Success? ==> r.value.next == if SentinelAt(data, pos) then pos + VendorBlockSize else pos
    ensures r.Failure? ==> r.error == Truncated
  {
    var peeked :- PeekU32Pair(data, pos);
    if peeked.value.1 == VendorBlockSentinel then
      var skipped :- Skip(data, peeked.next, VendorBlockSize);
      Success(Parsed(true, skipped.next))
    else
      Success(Parsed(false, peeked.next))
  }

  /** `MdlHeaderV36.read`: the identity head, then the rest of the 388 bytes. */
  function DecodeV36(data: Bytes, pos: nat): (r: ReadResult<HeaderV36>)
    ensures r.Failure? ==> r.error == Truncated
  {
    var head :- ReadLayout(data, pos, IdentityHeadLayout);
    var body :- ReadLayout(data, head.next, BodyV36Layout);
    Success(Parsed(HeaderV36From(head.value, body.value), body.next))
  }

  /**
   * `MdlHeaderV44.read`: the identity head, the body through the model
   * references, the peek for the vendor block, and the trailer. The declared
   * file size is not checked.
   */
  function DecodeV44(data: Bytes, pos: nat): (r: ReadResult<HeaderV44>)
    ensures r.Failure? ==> r.error == Truncated
  {
    var head :- ReadLayout(data, pos, IdentityHeadLayout);
    var body :- ReadLayout(data, head.next, BodyV44Layout);
    var vendor :- SkipVendorBlock(data, body.next);
    var tail :- ReadLayout(data, vendor.next, TailV44Layout);
    Success(Parsed(HeaderV44From(head.value, body.value, tail.value), tail.next))
  }

  /**
   * `MdlHeaderV49.read` and `MdlHeaderV52.read`: the identity head, the file
   * size check, the body through the model references, the trailer, read by
   * the plan of the version at hand, and the closing words, whose first pair
   * depends on the version just read.
   */
  function DecodeV49Layout(data: Bytes, pos: nat, mayaFilename: bool): (r: ReadResult<HeaderV49>)
    ensures r.Failure? ==> r.error == Truncated || r.error == FileSizeMismatch(r.error.declared, |data|)
  {
    var head :- ReadLayout(data, pos, IdentityHeadLayout);
    var fileSize := AsU32(head.value[2].values[0]);
    :- Require(fileSize == |data|, FileSizeMismatch(fileSize, |data|));
    var body :- ReadLayout(data, head.next, BodyV49Layout);
    var trailer :- ReadFields(data, body.next, TrailerPlanFor(mayaFilename));
    var version := AsI32(head.value[0].values[1]);
    var closing :- ReadLayout(data, trailer.next, ClosingV49Layout(version));
    Success(Parsed(HeaderV49From(head.value, body.value, trailer.value, mayaFilename, closing.value, version), closing.next))
  }

  /**
   * `MdlHeaderV49.read`: fails only by running short or on a declared size
   * other than the input's, and a header it yields declares the input's size
   * and has no Maya file name.
   */
  function DecodeV49(data: Bytes, pos: nat): (r: ReadResult<HeaderV49>)
    ensures r.Failure? ==> r.error == Truncated || r.error == FileSizeMismatch(r.error.declared, |data|)
    ensures r.Success? ==> r.value.value.body.identity.fileSize == |data|
    ensures r.Success? ==> r.value.value.trailer.mayaFilename.None?
  {
    DecodeV49Layout(data, pos, false)
  }

  /**
   * `MdlHeaderV52.read`: version 49's layout with the Maya file name in place
   * of `unused2`. It fails only as version 49 may, and a header it yields
   * declares the input's size, has a Maya file name and leaves `unused2` at 0.
   */
  function DecodeV52(data: Bytes, pos: nat): (r: ReadResult<HeaderV49>)
    ensures r.Failure? ==> r.error == Truncated || r.error == FileSizeMismatch(r.error.declared, |data|)
    ensures r.Success? ==> r.value.value.body.identity.fileSize == |data|
    ensures r.Success? ==> r.value.value.trailer.mayaFilename.Some? && r.value.value.trailer.unused2 == 0
  {
    DecodeV49Layout(data, pos, true)
  }

  /** Version 44's decode assembled from its four reads. */
  lemma DecodeV44Parts(data: Bytes, pos: nat, head: seq<Item>, body: seq<Item>, at: nat, tail: seq<Item>, end: nat)
    requires ReadLayout(data, pos, IdentityHeadLayout) == Success(Parsed(head, pos + FileSizeOffset + 4))
    requires ReadLayout(data, pos + FileSizeOffset + 4, BodyV44Layout) == Success(Parsed(body, pos + VendorPeekOffset))
    requires SkipVendorBlock(data, pos + VendorPeekOffset).Success?
    requires SkipVendorBlock(data, pos + VendorPeekOffset).value.next == at
    requires ReadLayout(data, at, TailV44Layout) == Success(Parsed(tail, end))
    ensures DecodeV44(data, pos) == Success(Parsed(HeaderV44From(head, body, tail), end))
  {
  }

  /** Version 49's or 52's decode assembled from its four reads and the file size check. */
  lemma DecodeV49Parts(
    data: Bytes, pos: nat, mayaFilename: bool, head: seq<Item>, body: seq<Item>, trailer: seq<Value>,
    closing: seq<Item>, end: nat)
    requires ReadLayout(data, pos, IdentityHeadLayout) == Success(Parsed(head, pos + FileSizeOffset + 4))
    requires AsU32(head[2].values[0]) == |data|
    requires ReadLayout(data, pos + FileSizeOffset + 4, BodyV49Layout) == Success(Parsed(body, pos + TrailerV49Offset))
    requires ReadFields(data, pos + TrailerV49Offset, TrailerPlanFor(mayaFilename))
      == Success(Parsed(trailer, pos + TrailerV49Offset + TrailerV49Size))
    requires ReadLayout(data, pos + TrailerV49Offset + TrailerV49Size, ClosingV49Layout(AsI32(head[0].values[1])))
      == Success(Parsed(closing, end))
    ensures DecodeV49Layout(data, pos, mayaFilename)
      == Success(Parsed(HeaderV49From(head, body, trailer, mayaFilename, closing, AsI32(head[0].values[1])), end))
  {
  }

  // ---------------------------------------------------------------------------
  // What the decoders consume, and when they fail

  /** Version 36 reads exactly 388 bytes and fails only when fewer remain. */
  lemma DecodeV36Length(data: Bytes, pos: nat)
    ensures DecodeV36(data, pos).Success? <==> pos + V36Size <= |data|
    ensures DecodeV36(data, pos).Success? ==> DecodeV36(data, pos).value.next == pos + V36Size
  {
    LayoutWidths();
  }

  /** Version 44 reads 708 bytes, or 728 when the peek 384 bytes in finds the sentinel, and fails only when fewer remain. */
  lemma DecodeV44Length(data: Bytes, pos: nat)
    ensures DecodeV44(data, pos).Success? <==> pos + V44Length(data, pos) <= |data|
    ensures DecodeV44(data, pos).Success? ==> DecodeV44(data, pos).value.next == pos + V44Length(data, pos)
  {
    LayoutWidths();
    var at := pos + VendorPeekOffset;
    if at <= |data| {
      var r := DecodeV44(data, pos);
      var body := ReadLayout(data, pos + 80, BodyV44Layout);
      assert body.Success? && body.value.next == at;
      var vendor := SkipVendorBlock(data, at);
      if vendor.Success? {
        assert r.Success? <==> ReadLayout(data, vendor.value.next, TailV44Layout).Success?;
      } else {
        assert r.Failure?;
      }
    }
  }

  /**
   * Versions 49 and 52 read 656 bytes, or 664 when the declared version is
   * above 47, and fail with a file size mismatch exactly when the declared
   * size differs from the reader's size and the size field could be read.
   */
  lemma DecodeV49Length(data: Bytes, pos: nat, mayaFilename: bool)
    ensures DecodeV49Layout(data, pos, mayaFilename).Success? <==>
      pos + V49Size <= |data|
      && DeclaredFileSize(data, pos) == |data|
      && pos + V49Length(DeclaredVersion(data, pos)) <= |data|
    ensures DecodeV49Layout(data, pos, mayaFilename).Success? ==>
      DecodeV49Layout(data, pos, mayaFilename).value.next == pos + V49Length(DeclaredVersion(data, pos))
    ensures DecodeV49Layout(data, pos, mayaFilename).Failure? ==>
      (DecodeV49Layout(data, pos, mayaFilename).error.FileSizeMismatch? <==>
        pos + FileSizeOffset + 4 <= |data| && DeclaredFileSize(data, pos) != |data|)
  {
    LayoutWidths();
    if pos + FileSizeOffset + 4 <= |data| {
      IdentityHeadFields(data, pos);
    }
  }

  /** Version 36 reports the version and file size words it read, and nine reserved words. */
  lemma DecodeV36Fields(data: Bytes, pos: nat)
    requires DecodeV36(data, pos).Success?
    ensures DecodeV36(data, pos).value.value.body.identity.version == DeclaredVersion(data, pos)
    ensures DecodeV36(data, pos).value.value.body.identity.fileSize == DeclaredFileSize(data, pos)
    ensures |DecodeV36(data, pos).value.value.reserved| == ReservedV36
  {
    LayoutWidths();
    IdentityHeadFields(data, pos);
  }

  /** Version 44 reports the version and file size words it read, and 58 reserved words. */
  lemma DecodeV44Fields(data: Bytes, pos: nat)
    requires DecodeV44(data, pos).Success?
    ensures DecodeV44(data, pos).value.value.body.identity.version == DeclaredVersion(data, pos)
    ensures DecodeV44(data, pos).value.value.body.identity.fileSize == DeclaredFileSize(data, pos)
    ensures |DecodeV44(data, pos).value.value.reserved| == ReservedV44
  {
    LayoutWidths();
    IdentityHeadFields(data, pos);
  }

  /**
   * Versions 49 and 52 report the version word they read and a file size
   * equal to the reader's size; the bone flex driver pair stays (0, 0) up to
   * version 47; only version 52 has a Maya file name.
   */
  lemma DecodeV49Fields(data: Bytes, pos: nat, mayaFilename: bool)
    requires DecodeV49Layout(data, pos, mayaFilename).Success?
    ensures DecodeV49Layout(data, pos, mayaFilename).value.value.body.identity.version == DeclaredVersion(data, pos)
    ensures DecodeV49Layout(data, pos, mayaFilename).value.value.body.identity.fileSize == |data|
    ensures DeclaredVersion(data, pos) < BoneFlexDriverMinVersion ==>
      DecodeV49Layout(data, pos, mayaFilename).value.value.boneFlexDriver == Table(0, 0)
    ensures DecodeV49Layout(data, pos, mayaFilename).value.value.trailer.mayaFilename.Some? <==> mayaFilename
    ensures |DecodeV49Layout(data, pos, mayaFilename).value.value.reserved| == ReservedV49
  {
    LayoutWidths();
    IdentityHeadFields(data, pos);
  }
}
