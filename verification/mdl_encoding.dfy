/**
 * Writers for every field group of the studio-model header, and the proof
 * that each reader gives back exactly what its writer wrote. Each group's
 * record is first turned into the values of its plan; the plan's encoding of
 * those values is what the group's reader reads back. The bytes a decoder
 * skips are parameters of the writers, so the round trips also show that
 * whatever the skipped bytes hold, the decoded header is the same.
 */
module MdlEncoding {
  import opened Results
  import opened ByteReader
  import opened StudioFlags
  import opened Fields
  import opened Layouts
  import opened MdlHeader

  // ---------------------------------------------------------------------------
  // Which records a writer can produce

  /** The name fits the 64-byte field and holds no NUL, so the reader does not cut it short. */
  predicate ValidName(name: Bytes) {
    |name| <= NameWidth && 0 !in name
  }

  /**
   * The optional version 44 block: either absent, and then the flex
   * controller UI offset (the second word the peek sees) must not be the
   * sentinel, or 20 bytes whose second word is the sentinel.
   */
  predicate ValidVendorBlock(block: Bytes, trailer: TrailerV44) {
    if |block| == 0 then trailer.flexControllerUi.offset != VendorBlockSentinel
    else |block| == VendorBlockSize && U32Of(block[4..8]) == VendorBlockSentinel
  }

  predicate ValidHeaderV36(h: HeaderV36) {
    ValidName(h.body.identity.name) && |h.reserved| == ReservedV36
  }

  predicate ValidHeaderV44(h: HeaderV44) {
    ValidName(h.body.identity.name) && |h.refs.unused| == 2 && |h.trailer.unused3| == 4
    && |h.reserved| == ReservedV44
  }

  /**
   * Common to versions 49 and 52: below version 48 the bone flex driver pair
   * keeps its initial (0, 0), and a trailer with a Maya file name keeps
   * `unused2` at 0.
   */
  predicate ValidHeaderV49Layout(h: HeaderV49) {
    ValidName(h.body.identity.name) && |h.reserved| == ReservedV49
    && (h.body.identity.version < BoneFlexDriverMinVersion ==> h.boneFlexDriver == Table(0, 0))
    && (h.trailer.mayaFilename.Some? ==> h.trailer.unused2 == 0)
  }

  predicate ValidHeaderV49(h: HeaderV49) {
    ValidHeaderV49Layout(h) && h.trailer.mayaFilename.None?
  }

  predicate ValidHeaderV52(h: HeaderV49) {
    ValidHeaderV49Layout(h) && h.trailer.mayaFilename.Some?
  }

  // ---------------------------------------------------------------------------
  // Records as the values of their plans

  function TableValues(t: Table): (vs: seq<Value>)
    ensures Conforms(vs, PairPlan) && TableAt(vs, 0) == t
  {
    [UIntV(t.count), UIntV(t.offset)]
  }

  function IdentityPrefixValues(i: Identity): (vs: seq<Value>)
    ensures Conforms(vs, IdentityPrefixPlan)
  {
    [FourCCV(i.id), IntV(i.version), IntV(i.checksum)]
  }

  function BoundsFlagsValues(i: Identity): (vs: seq<Value>)
    ensures Conforms(vs, BoundsFlagsPlan)
    ensures IdentityOf(IdentityPrefixValues(i), i.name, i.fileSize, vs) == i
  {
    var b := i.bounds;
    [FloatV(b.eyePosition.x), FloatV(b.eyePosition.y), FloatV(b.eyePosition.z),
     FloatV(b.illuminationPosition.x), FloatV(b.illuminationPosition.y), FloatV(b.illuminationPosition.z),
     FloatV(b.hullMin.x), FloatV(b.hullMin.y), FloatV(b.hullMin.z),
     FloatV(b.hullMax.x), FloatV(b.hullMax.y), FloatV(b.hullMax.z),
     FloatV(b.viewBBoxMin.x), FloatV(b.viewBBoxMin.y), FloatV(b.viewBBoxMin.z),
     FloatV(b.viewBBoxMax.x), FloatV(b.viewBBoxMax.y), FloatV(b.viewBBoxMax.z),
     UIntV(i.flags.raw)]
  }

  function AnimationTablesValues(a: AnimationTables): (vs: seq<Value>)
    ensures Conforms(vs, AnimationTablesPlan) && AnimationTablesOf(vs) == a
  {
    [UIntV(a.bones.count), UIntV(a.bones.offset),
     UIntV(a.boneControllers.count), UIntV(a.boneControllers.offset),
     UIntV(a.hitboxSets.count), UIntV(a.hitboxSets.offset),
     UIntV(a.localAnimations.count), UIntV(a.localAnimations.offset),
     UIntV(a.localSequences.count), UIntV(a.localSequences.offset)]
  }

  function SequenceGroupsValues(g: SequenceGroups): (vs: seq<Value>)
    ensures Conforms(vs, SequenceGroupsPlan) && SequenceGroupsOf(vs) == g
  {
    [UIntV(g.sequencesIndexedFlag), UIntV(g.sequenceGroupCount), IntV(g.sequenceGroupOffset)]
  }

  function AssetTablesValues(a: AssetTables): (vs: seq<Value>)
    ensures Conforms(vs, AssetTablesPlan) && AssetTablesOf(vs) == a
  {
    [UIntV(a.textures.count), UIntV(a.textures.offset),
     UIntV(a.texturePaths.count), UIntV(a.texturePaths.offset),
     UIntV(a.skinReferenceCount), UIntV(a.skinFamilyCount), UIntV(a.skinFamilyOffset),
     UIntV(a.bodyParts.count), UIntV(a.bodyParts.offset),
     UIntV(a.localAttachments.count), UIntV(a.localAttachments.offset)]
  }

  function NodeTableValues(n: NodeTable): (vs: seq<Value>)
    ensures Conforms(vs, NodeTablePlan) && NodeTableOf(vs) == n
  {
    [UIntV(n.count), UIntV(n.offset), UIntV(n.nameOffset)]
  }

  function FlexTablesValues(f: FlexTables): (vs: seq<Value>)
    ensures Conforms(vs, FlexTablesPlan) && FlexTablesOf(vs) == f
  {
    [UIntV(f.flexDescs.count), UIntV(f.flexDescs.offset),
     UIntV(f.flexControllers.count), UIntV(f.flexControllers.offset),
     UIntV(f.flexRules.count), UIntV(f.flexRules.offset),
     UIntV(f.ikChains.count), UIntV(f.ikChains.offset),
     UIntV(f.mouths.count), UIntV(f.mouths.offset),
     UIntV(f.localPoseParameters.count), UIntV(f.localPoseParameters.offset)]
  }

  function MiscBlockValues(m: MiscBlock): (vs: seq<Value>)
    ensures Conforms(vs, MiscBlockPlan) && MiscBlockOf(vs) == m
  {
    [StrV(m.surfaceProp), UIntV(m.keyValueOffset), UIntV(m.keyValueSize),
     UIntV(m.localIkAutoPlayLocks.count), UIntV(m.localIkAutoPlayLocks.offset),
     FloatV(m.mass), UIntV(m.contents)]
  }

  function ModelRefsV44Values(refs: ModelRefsV44): (vs: seq<Value>)
    requires |refs.unused| == 2
    ensures Conforms(vs, ModelRefsV44Plan) && ModelRefsV44Of(vs) == refs
  {
    var packed := [refs.directionalLightDot, refs.rootLod, refs.unused[0], refs.unused[1]];
    assert packed[2..] == refs.unused;
    [UIntV(refs.includeModels.count), UIntV(refs.includeModels.offset),
     UIntV(refs.virtualModelPointer), StrV(refs.animBlockName),
     UIntV(refs.animBlocks.count), UIntV(refs.animBlocks.offset),
     UIntV(refs.animBlockModelPointer), UIntV(refs.boneTableByNameOffset),
     UIntV(refs.vertexBasePointer), UIntV(refs.indexBasePointer),
     SignedBytesV(packed), IntV(refs.zeroFrameCacheOffset)]
  }

  function TrailerV44HeadValues(t: TrailerV44): (vs: seq<Value>)
    requires |t.unused3| == 4
    ensures Conforms(vs, TrailerV44HeadPlan)
  {
    [UIntV(t.flexControllerUi.count), UIntV(t.flexControllerUi.offset),
     UIntV(t.unused3[0]), UIntV(t.unused3[1]), UIntV(t.unused3[2]), UIntV(t.unused3[3]),
     UIntV(t.studioHeader2Offset), UIntV(t.unused2)]
  }

  function TrailerV44TailValues(t: TrailerV44): (vs: seq<Value>)
    requires |t.unused3| == 4
    ensures Conforms(vs, TrailerV44TailPlan)
    ensures TrailerV44Of(TrailerV44HeadValues(t), vs) == t
  {
    var head := TrailerV44HeadValues(t);
    assert [AsU32(head[2]), AsU32(head[3]), AsU32(head[4]), AsU32(head[5])] == t.unused3;
    [UIntV(t.sourceBoneTransforms.count), UIntV(t.sourceBoneTransforms.offset),
     UIntV(t.illumPositionAttachmentIndex), FloatV(t.maxEyeDeflection),
     UIntV(t.linearBoneOffset), UIntV(t.nameOffset)]
  }

  function ModelRefsV49Values(refs: ModelRefsV49): (vs: seq<Value>)
    ensures Conforms(vs, ModelRefsV49Plan) && ModelRefsV49Of(vs) == refs
  {
    [UIntV(refs.includeModels.count), UIntV(refs.includeModels.offset),
     UIntV(refs.virtualModelPointer), UIntV(refs.animBlockNameOffset),
     UIntV(refs.animBlocks.count), UIntV(refs.animBlocks.offset),
     UIntV(refs.animBlockModelPointer), UIntV(refs.boneTableByNameOffset),
     UIntV(refs.vertexBasePointer), UIntV(refs.indexBasePointer),
     SignedBytesV([refs.directionalLightDot, refs.rootLod, refs.allowedRootLodCount, refs.unused]),
     UIntV(refs.unused4)]
  }

  /** Word 5 holds `unused2` in version 49 and the Maya file name's offset field in version 52. */
  function TrailerV49Values(t: TrailerV49): (vs: seq<Value>)
    requires t.mayaFilename.Some? ==> t.unused2 == 0
    ensures Conforms(vs, TrailerPlanFor(t.mayaFilename.Some?)) && TrailerV49Of(vs, t.mayaFilename.Some?) == t
  {
    [UIntV(t.flexControllerUi.count), UIntV(t.flexControllerUi.offset),
     FloatV(t.vertAnimFixedPointScale), UIntV(t.unused3), UIntV(t.studioHeader2Offset),
     if t.mayaFilename.Some? then StrV(t.mayaFilename.value) else UIntV(t.unused2),
     UIntV(t.sourceBoneTransforms.count), UIntV(t.sourceBoneTransforms.offset),
     UIntV(t.illumPositionAttachmentIndex), FloatV(t.maxEyeDeflection),
     UIntV(t.linearBoneOffset), UIntV(t.nameOffset)]
  }

  // ---------------------------------------------------------------------------
  // Records as the items of their layouts

  function IdentityHeadItems(i: Identity): (items: seq<Item>)
    requires ValidName(i.name)
    ensures AllWritable(items, IdentityHeadLayout) && ShapedFrom(items, IdentityHeadLayout, 0)
  {
    var items := [WordsI(IdentityPrefixValues(i)), TextI(i.name), WordsI([UIntV(i.fileSize)])];
    WritableShaped(items, IdentityHeadLayout);
    items
  }

  function FrontV36Items(b: BodyV36, skipped: Bytes): (items: seq<Item>)
    requires |skipped| == SequenceGroupsSkip
    ensures AllWritable(items, FrontV36Layout)
  {
    [WordsI(BoundsFlagsValues(b.identity)), WordsI(AnimationTablesValues(b.animation)), GapI(skipped),
     WordsI(SequenceGroupsValues(b.sequenceGroups))]
  }

  function BackV36Items(h: HeaderV36): (items: seq<Item>)
    requires |h.reserved| == ReservedV36
    ensures AllWritable(items, BackV36Layout)
  {
    var b := h.body;
    [WordsI(AssetTablesValues(b.assets)), WordsI(TableValues(b.transitions)), WordsI(FlexTablesValues(b.flex)),
     WordsI(MiscBlockValues(b.misc)), WordsI(IntValues(h.reserved))]
  }

  function BodyV36Items(h: HeaderV36, skipped: Bytes): (items: seq<Item>)
    requires ValidHeaderV36(h) && |skipped| == SequenceGroupsSkip
    ensures AllWritable(items, BodyV36Layout) && ShapedFrom(items, BodyV36Layout, 0)
  {
    var front := FrontV36Items(h.body, skipped);
    var back := BackV36Items(h);
    AllWritableAppend(front, FrontV36Layout, back, BackV36Layout);
    WritableShaped(front + back, BodyV36Layout);
    front + back
  }

  /** The seven groups versions 44, 49 and 52 write identically, in their order. */
  function CommonItems(b: BodyV44): (items: seq<Item>)
    ensures |items| == 7
  {
    [WordsI(BoundsFlagsValues(b.identity)), WordsI(AnimationTablesValues(b.animation)),
     WordsI([UIntV(b.activityListVersion), UIntV(b.eventsIndexed)]), WordsI(AssetTablesValues(b.assets)),
     WordsI(NodeTableValues(b.localNodes)), WordsI(FlexTablesValues(b.flex)), WordsI(MiscBlockValues(b.misc))]
  }

  lemma CommonWritable(b: BodyV44)
    ensures AllWritable(CommonItems(b), CommonLayout)
  {
  }

  function BodyV44Items(h: HeaderV44): (items: seq<Item>)
    requires ValidHeaderV44(h)
    ensures AllWritable(items, BodyV44Layout) && ShapedFrom(items, BodyV44Layout, 0)
  {
    var items := CommonItems(h.body) + [WordsI(ModelRefsV44Values(h.refs))];
    CommonWritable(h.body);
    AllWritableAppend(CommonItems(h.body), CommonLayout, [WordsI(ModelRefsV44Values(h.refs))], [Words(ModelRefsV44Plan)]);
    WritableShaped(items, BodyV44Layout);
    items
  }

  function TailV44Items(h: HeaderV44, skipped: Bytes): (items: seq<Item>)
    requires ValidHeaderV44(h) && |skipped| == TrailerV44Skip
    ensures AllWritable(items, TailV44Layout) && ShapedFrom(items, TailV44Layout, 0)
  {
    var t := h.trailer;
    var items := [
      WordsI(TrailerV44HeadValues(t)), GapI(skipped), WordsI(TrailerV44TailValues(t)),
      WordsI(IntValues(h.reserved))];
    WritableShaped(items, TailV44Layout);
    items
  }

  function BodyV49Items(h: HeaderV49): (items: seq<Item>)
    ensures AllWritable(items, BodyV49Layout) && ShapedFrom(items, BodyV49Layout, 0)
  {
    var own := [WordsI(ModelRefsV49Values(h.refs))];
    CommonWritable(h.body);
    AllWritableAppend(CommonItems(h.body), CommonLayout, own, [Words(ModelRefsV49Plan)]);
    WritableShaped(CommonItems(h.body) + own, BodyV49Layout);
    CommonItems(h.body) + own
  }

  function ClosingV49Items(h: HeaderV49): (items: seq<Item>)
    requires ValidHeaderV49Layout(h)
    ensures var closing := ClosingV49Layout(h.body.identity.version);
      AllWritable(items, closing) && ShapedFrom(items, closing, 0)
  {
    var closing := ClosingV49Layout(h.body.identity.version);
    var items :=
      if h.body.identity.version > 47 then [WordsI(TableValues(h.boneFlexDriver)), WordsI(IntValues(h.reserved))]
      else [WordsI(IntValues(h.reserved))];
    WritableShaped(items, closing);
    items
  }

  // ---------------------------------------------------------------------------
  // The decoders' builders invert the item writers

  lemma HeaderV36Rebuilt(h: HeaderV36, skipped: Bytes)
    requires ValidHeaderV36(h) && |skipped| == SequenceGroupsSkip
    ensures HeaderV36From(IdentityHeadItems(h.body.identity), BodyV36Items(h, skipped)) == h
  {
  }

  lemma HeaderV44Rebuilt(h: HeaderV44, skipped: Bytes)
    requires ValidHeaderV44(h) && |skipped| == TrailerV44Skip
    ensures HeaderV44From(IdentityHeadItems(h.body.identity), BodyV44Items(h), TailV44Items(h, skipped)) == h
  {
  }

  lemma HeaderV49Rebuilt(h: HeaderV49)
    requires ValidHeaderV49Layout(h)
    ensures HeaderV49From(
      IdentityHeadItems(h.body.identity), BodyV49Items(h), TrailerV49Values(h.trailer), h.trailer.mayaFilename.Some?,
      ClosingV49Items(h), h.body.identity.version) == h
  {
  }

  // ---------------------------------------------------------------------------
  // Writers: each version's layouts back to back

  /** Version 36; `skipped` fills the 16 bytes the decoder passes over. */
  function EncodeV36(h: HeaderV36, skipped: Bytes): (b: Bytes)
    requires ValidHeaderV36(h) && |skipped| == SequenceGroupsSkip
    ensures |b| == V36Size
  {
    LayoutWidths();
    EncodeLayout(IdentityHeadLayout, IdentityHeadItems(h.body.identity))
    + EncodeLayout(BodyV36Layout, BodyV36Items(h, skipped))
  }

  /** Version 44; `block` is the optional vendor block and `skipped` the 36 bytes inside the trailer. */
  function EncodeV44(h: HeaderV44, block: Bytes, skipped: Bytes): (b: Bytes)
    requires ValidHeaderV44(h) && ValidVendorBlock(block, h.trailer) && |skipped| == TrailerV44Skip
    ensures |b| == V44Size + |block|
  {
    LayoutWidths();
    EncodeLayout(IdentityHeadLayout, IdentityHeadItems(h.body.identity))
    + (EncodeLayout(BodyV44Layout, BodyV44Items(h))
       + (block + EncodeLayout(TailV44Layout, TailV44Items(h, skipped))))
  }

  /** Versions 49 and 52, told apart by whether the trailer holds a Maya file name. */
  function EncodeV49(h: HeaderV49): (b: Bytes)
    requires ValidHeaderV49Layout(h)
    ensures |b| == V49Length(h.body.identity.version)
  {
    LayoutWidths();
    EncodeLayout(IdentityHeadLayout, IdentityHeadItems(h.body.identity))
    + (EncodeLayout(BodyV49Layout, BodyV49Items(h))
       + (EncodeFields(TrailerPlanFor(h.trailer.mayaFilename.Some?), TrailerV49Values(h.trailer))
          + EncodeLayout(ClosingV49Layout(h.body.identity.version), ClosingV49Items(h))))
  }

  // ---------------------------------------------------------------------------
  // Round trips

  /** Decoding version 36 over its encoding yields the header, whatever the skipped bytes hold. */
  lemma DecodeV36RoundTrip(data: Bytes, pos: nat, h: HeaderV36, skipped: Bytes)
    requires ValidHeaderV36(h) && |skipped| == SequenceGroupsSkip
    requires At(data, pos, EncodeV36(h, skipped))
    ensures DecodeV36(data, pos) == Success(Parsed(h, pos + V36Size))
  {
    LayoutWidths();
    var head := IdentityHeadItems(h.body.identity);
    var body := BodyV36Items(h, skipped);
    AtAppend(data, pos, EncodeLayout(IdentityHeadLayout, head), EncodeLayout(BodyV36Layout, body));
    ReadLayoutAt(data, pos, IdentityHeadLayout, head);
    ReadLayoutAt(data, pos + FileSizeOffset + 4, BodyV36Layout, body);
    HeaderV36Rebuilt(h, skipped);
  }

  /**
   * Where version 44 peeks, the sentinel is found exactly when the vendor
   * block was written: otherwise the second word is the flex controller UI
   * offset, which a valid header keeps off the sentinel.
   */
  lemma VendorPeekAt(data: Bytes, at: nat, h: HeaderV44, block: Bytes, skipped: Bytes)
    requires ValidHeaderV44(h) && ValidVendorBlock(block, h.trailer) && |skipped| == TrailerV44Skip
    requires At(data, at, block + EncodeLayout(TailV44Layout, TailV44Items(h, skipped)))
    ensures SentinelAt(data, at) <==> |block| > 0
  {
    var items := TailV44Items(h, skipped);
    var tail := EncodeLayout(TailV44Layout, items);
    AtAppend(data, at, block, tail);
    LayoutWidths();
    if |block| > 0 {
      AtSlice(data, at, block, 4, 8);
      WordAtSlice(data, at + 4);
    } else {
      EncodedPlaced(data, at, TailV44Layout, items, 0);
      EncodedWordsAt(data, at, TrailerV44HeadPlan, items[0].values);
      assert WordAt(data, at + 4 * (1 - 0)) == Encode(UInt, UIntV(h.trailer.flexControllerUi.offset));
      U32RoundTrip(h.trailer.flexControllerUi.offset, WordAt(data, at + 4));
    }
  }

  /** Decoding version 44 over its encoding yields the header and consumes the vendor block, if written. */
  lemma DecodeV44RoundTrip(data: Bytes, pos: nat, h: HeaderV44, block: Bytes, skipped: Bytes)
    requires ValidHeaderV44(h) && ValidVendorBlock(block, h.trailer) && |skipped| == TrailerV44Skip
    requires At(data, pos, EncodeV44(h, block, skipped))
    ensures DecodeV44(data, pos) == Success(Parsed(h, pos + V44Size + |block|))
  {
    LayoutWidths();
    var head := IdentityHeadItems(h.body.identity);
    var body := BodyV44Items(h);
    var tail := TailV44Items(h, skipped);
    var eh := EncodeLayout(IdentityHeadLayout, head);
    var eb := EncodeLayout(BodyV44Layout, body);
    var et := EncodeLayout(TailV44Layout, tail);
    AtAppend(data, pos, eh, eb + (block + et));
    AtAppend(data, pos + |eh|, eb, block + et);
    AtAppend(data, pos + VendorPeekOffset, block, et);
    ReadLayoutAt(data, pos, IdentityHeadLayout, head);
    ReadLayoutAt(data, pos + |eh|, BodyV44Layout, body);
    VendorPeekAt(data, pos + VendorPeekOffset, h, block, skipped);
    ReadLayoutAt(data, pos + VendorPeekOffset + |block|, TailV44Layout, tail);
    DecodeV44Parts(data, pos, head, body, pos + VendorPeekOffset + |block|, tail, pos + V44Size + |block|);
    HeaderV44Rebuilt(h, skipped);
  }

  /** Each of the four reads of versions 49 and 52 reads back what was written at its place in the encoding. */
  lemma V49ReadsAt(data: Bytes, pos: nat, h: HeaderV49)
    requires ValidHeaderV49Layout(h)
    requires At(data, pos, EncodeV49(h))
    ensures ReadLayout(data, pos, IdentityHeadLayout)
      == Success(Parsed(IdentityHeadItems(h.body.identity), pos + FileSizeOffset + 4))
    ensures ReadLayout(data, pos + FileSizeOffset + 4, BodyV49Layout)
      == Success(Parsed(BodyV49Items(h), pos + TrailerV49Offset))
    ensures ReadFields(data, pos + TrailerV49Offset, TrailerPlanFor(h.trailer.mayaFilename.Some?))
      == Success(Parsed(TrailerV49Values(h.trailer), pos + TrailerV49Offset + TrailerV49Size))
    ensures ReadLayout(data, pos + TrailerV49Offset + TrailerV49Size, ClosingV49Layout(h.body.identity.version))
      == Success(Parsed(ClosingV49Items(h), pos + V49Length(h.body.identity.version)))
  {
    LayoutWidths();
    var plan := TrailerPlanFor(h.trailer.mayaFilename.Some?);
    var closing := ClosingV49Layout(h.body.identity.version);
    var rest := EncodeFields(plan, TrailerV49Values(h.trailer)) + EncodeLayout(closing, ClosingV49Items(h));
    var eb := EncodeLayout(BodyV49Layout, BodyV49Items(h));
    LayoutThenAt(data, pos, IdentityHeadLayout, IdentityHeadItems(h.body.identity), eb + rest);
    LayoutThenAt(data, pos + FileSizeOffset + 4, BodyV49Layout, BodyV49Items(h), rest);
    WordsThenLayoutAt(data, pos + TrailerV49Offset, plan, TrailerV49Values(h.trailer), closing, ClosingV49Items(h));
  }

  /**
   * Decoding version 49 or 52 over its encoding yields the header, provided
   * the header declares the size of the whole input.
   */
  lemma DecodeV49LayoutRoundTrip(data: Bytes, pos: nat, h: HeaderV49)
    requires ValidHeaderV49Layout(h) && h.body.identity.fileSize == |data|
    requires At(data, pos, EncodeV49(h))
    ensures DecodeV49Layout(data, pos, h.trailer.mayaFilename.Some?)
      == Success(Parsed(h, pos + V49Length(h.body.identity.version)))
  {
    V49ReadsAt(data, pos, h);
    DecodeV49Parts(
      data, pos, h.trailer.mayaFilename.Some?, IdentityHeadItems(h.body.identity), BodyV49Items(h),
      TrailerV49Values(h.trailer), ClosingV49Items(h), pos + V49Length(h.body.identity.version));
    HeaderV49Rebuilt(h);
  }

  lemma DecodeV49RoundTrip(data: Bytes, pos: nat, h: HeaderV49)
    requires ValidHeaderV49(h) && h.body.identity.fileSize == |data|
    requires At(data, pos, EncodeV49(h))
    ensures DecodeV49(data, pos) == Success(Parsed(h, pos + V49Length(h.body.identity.version)))
  {
    DecodeV49LayoutRoundTrip(data, pos, h);
  }

  lemma DecodeV52RoundTrip(data: Bytes, pos: nat, h: HeaderV49)
    requires ValidHeaderV52(h) && h.body.identity.fileSize == |data|
    requires At(data, pos, EncodeV49(h))
    ensures DecodeV52(data, pos) == Success(Parsed(h, pos + V49Length(h.body.identity.version)))
  {
    DecodeV49LayoutRoundTrip(data, pos, h);
  }
}
