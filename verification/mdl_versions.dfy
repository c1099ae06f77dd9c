/**
 * How the decoders of the different versions relate when they read the same
 * bytes. All four start with the same identity fields, read the same way, so
 * they agree on them with each other and with `IsValidFile`; and version 52
 * is version 49 with word 5 of the trailer read as a string instead of an
 * integer.
 */
module MdlVersions {
  import opened Results
  import opened ByteReader
  import opened StudioFlags
  import opened Fields
  import opened Layouts
  import opened MdlHeader

  /** Where the flags word sits, relative to the header start: after the 18 bound floats. */
  const FlagsOffset: nat := FileSizeOffset + 4 + 4 * 18

  /** Where versions 49 and 52 read word 5 of the trailer: `unused2`, or the Maya file name. */
  const MayaFilenameOffset: nat := TrailerV49Offset + 4 * 5

  // ---------------------------------------------------------------------------
  // The identity fields

  /**
   * The identity fields on their own: the identity head, then the bounds and
   * flags. Its fourcc is "IDST" exactly when `IsValidFile` accepts the same
   * position.
   */
  function IdentityAt(data: Bytes, pos: nat): (r: ReadResult<Identity>)
    ensures r.Success? <==> pos + IdentitySize <= |data|
    ensures r.Success? ==> r.value.next == pos + IdentitySize
    ensures r.Success? ==> r.value.value.id == WordAt(data, pos)
    ensures r.Success? ==> r.value.value.version == DeclaredVersion(data, pos)
    ensures r.Success? ==> r.value.value.fileSize == DeclaredFileSize(data, pos)
    ensures r.Success? ==> r.value.value.flags == Flags(U32Of(WordAt(data, pos + FlagsOffset)))
    ensures r.Success? ==> (IsValidFile(data, pos).value.value <==> r.value.value.id == Magic)
    ensures r.Failure? ==> r.error == Truncated
  {
    LayoutWidths();
    var head :- ReadLayout(data, pos, IdentityHeadLayout);
    var boundsFlags :- ReadFields(data, head.next, BoundsFlagsPlan);
    IdentityHeadFields(data, pos);
    IdentityHeadPrefix(data, pos);
    ReadFieldsValue(data, head.next, BoundsFlagsPlan, 18);
    WordAtSlice(data, pos);
    Success(Parsed(IdentityFrom(head.value, boundsFlags.value), boundsFlags.next))
  }

  /** The fourcc the identity head reads is the first word, undecoded. */
  lemma IdentityHeadPrefix(data: Bytes, pos: nat)
    requires pos + FileSizeOffset + 4 <= |data|
    ensures ReadLayout(data, pos, IdentityHeadLayout).Success?
    ensures ReadLayout(data, pos, IdentityHeadLayout).value.value[0].values[0] == FourCCV(WordAt(data, pos))
  {
    LayoutWidths();
    FirstItem(data, pos, IdentityHeadLayout);
    ReadFieldsValue(data, pos, IdentityPrefixPlan, 0);
  }

  /** The first item of a layout is what its first step reads. */
  lemma FirstItem(data: Bytes, pos: nat, steps: seq<Step>)
    requires 0 < |steps| && ReadLayout(data, pos, steps).Success?
    ensures ReadStep(data, pos, steps[0]).Success?
    ensures ReadLayout(data, pos, steps).value.value[0] == ReadStep(data, pos, steps[0]).value.value
  {
  }

  /** The bounds and flags a body layout starts with are the words right after the identity head. */
  lemma BodyBoundsFlags(data: Bytes, pos: nat, steps: seq<Step>)
    requires 0 < |steps| && steps[0] == Words(BoundsFlagsPlan)
    requires ReadLayout(data, pos + FileSizeOffset + 4, steps).Success?
    ensures ReadFields(data, pos + FileSizeOffset + 4, BoundsFlagsPlan).Success?
    ensures ReadLayout(data, pos + FileSizeOffset + 4, steps).value.value[0].values
      == ReadFields(data, pos + FileSizeOffset + 4, BoundsFlagsPlan).value.value
  {
    FirstItem(data, pos + FileSizeOffset + 4, steps);
  }

  /** Version 36 reports the identity fields at its start. */
  lemma IdentityV36(data: Bytes, pos: nat)
    requires DecodeV36(data, pos).Success?
    ensures IdentityAt(data, pos).Success?
    ensures DecodeV36(data, pos).value.value.body.identity == IdentityAt(data, pos).value.value
  {
    LayoutWidths();
    assert BodyV36Layout[0] == Words(BoundsFlagsPlan);
    BodyBoundsFlags(data, pos, BodyV36Layout);
  }

  /** Version 44 reports the identity fields at its start. */
  lemma IdentityV44(data: Bytes, pos: nat)
    requires DecodeV44(data, pos).Success?
    ensures IdentityAt(data, pos).Success?
    ensures DecodeV44(data, pos).value.value.body.identity == IdentityAt(data, pos).value.value
  {
    LayoutWidths();
    assert BodyV44Layout[0] == Words(BoundsFlagsPlan);
    BodyBoundsFlags(data, pos, BodyV44Layout);
  }

  /** Versions 49 and 52 report the identity fields at their start. */
  lemma IdentityV49(data: Bytes, pos: nat, mayaFilename: bool)
    requires DecodeV49Layout(data, pos, mayaFilename).Success?
    ensures IdentityAt(data, pos).Success?
    ensures DecodeV49Layout(data, pos, mayaFilename).value.value.body.identity == IdentityAt(data, pos).value.value
  {
    LayoutWidths();
    assert BodyV49Layout[0] == Words(BoundsFlagsPlan);
    BodyBoundsFlags(data, pos, BodyV49Layout);
  }

  // ---------------------------------------------------------------------------
  // Version 36 against version 44

  /** The second item of a layout is what its second step reads, right after the first. */
  lemma SecondItem(data: Bytes, pos: nat, steps: seq<Step>)
    requires 1 < |steps| && ReadLayout(data, pos, steps).Success?
    ensures ReadStep(data, pos + Width(steps[0]), steps[1]).Success?
    ensures ReadLayout(data, pos, steps).value.value[1] == ReadStep(data, pos + Width(steps[0]), steps[1]).value.value
  {
    var rest := ReadSteps(data, pos + Width(steps[0]), steps, 1);
    assert ReadLayout(data, pos, steps).value.value[1] == rest.value.value[0];
  }

  /** A body that starts with the bounds, flags and animation tables reads those tables 156 bytes into the header. */
  lemma BodyAnimationTables(data: Bytes, pos: nat, steps: seq<Step>)
    requires 1 < |steps| && steps[0] == Words(BoundsFlagsPlan) && steps[1] == Words(AnimationTablesPlan)
    requires ReadLayout(data, pos + FileSizeOffset + 4, steps).Success?
    ensures ReadFields(data, pos + IdentitySize, AnimationTablesPlan).Success?
    ensures ReadLayout(data, pos + FileSizeOffset + 4, steps).value.value[1].values
      == ReadFields(data, pos + IdentitySize, AnimationTablesPlan).value.value
  {
    assert Width(steps[0]) == 4 * |BoundsFlagsPlan| == 76;
    SecondItem(data, pos + FileSizeOffset + 4, steps);
  }

  /**
   * On the same bytes, versions 36 and 44 report the same identity fields and
   * the same animation tables: both read them first and in the same order.
   * They part right after, where `V36Departures` says.
   */
  lemma DecodeV36AgreesWithV44(data: Bytes, pos: nat)
    requires DecodeV36(data, pos).Success? && DecodeV44(data, pos).Success?
    ensures DecodeV36(data, pos).value.value.body.identity == DecodeV44(data, pos).value.value.body.identity
    ensures ReadFields(data, pos + IdentitySize, AnimationTablesPlan).Success?
    ensures DecodeV36(data, pos).value.value.body.animation
      == AnimationTablesOf(ReadFields(data, pos + IdentitySize, AnimationTablesPlan).value.value)
    ensures DecodeV44(data, pos).value.value.body.animation
      == AnimationTablesOf(ReadFields(data, pos + IdentitySize, AnimationTablesPlan).value.value)
  {
    IdentityV36(data, pos);
    IdentityV44(data, pos);
    LayoutWidths();
    assert BodyV36Layout[0] == Words(BoundsFlagsPlan) && BodyV36Layout[1] == Words(AnimationTablesPlan);
    assert BodyV44Layout[0] == Words(BoundsFlagsPlan) && BodyV44Layout[1] == Words(AnimationTablesPlan);
    BodyAnimationTables(data, pos, BodyV36Layout);
    BodyAnimationTables(data, pos, BodyV44Layout);
  }

  // ---------------------------------------------------------------------------
  // Version 52 against version 49

  /** The two trailer plans read the same words, and differ only in how they decode word 5. */
  lemma TrailerWords(data: Bytes, at: nat)
    requires at + TrailerV49Size <= |data|
    ensures ReadFields(data, at, TrailerV49Plan).Success? && ReadFields(data, at, TrailerV52Plan).Success?
    ensures forall k :: 0 <= k < |TrailerV49Plan| && k != 5 ==>
      ReadFields(data, at, TrailerV49Plan).value.value[k] == ReadFields(data, at, TrailerV52Plan).value.value[k]
    ensures ReadFields(data, at, TrailerV49Plan).value.value[5] == UIntV(U32Of(WordAt(data, at + 20)))
    ensures ReadFields(data, at, TrailerV52Plan).value.value[5] == StrV(StrRef(WordAt(data, at + 20)))
  {
    ReadFieldsAgree(data, at, TrailerV49Plan, TrailerV52Plan);
    ReadFieldsValue(data, at, TrailerV49Plan, 5);
    ReadFieldsValue(data, at, TrailerV52Plan, 5);
  }

  /** Built from the same reads, the version 52 record is the version 49 one with word 5 taken as the Maya file name. */
  lemma HeaderV52FromV49(
    head: seq<Item>, body: seq<Item>, t49: seq<Value>, t52: seq<Value>, closing: seq<Item>, version: int, w: Word)
    requires ShapedFrom(head, IdentityHeadLayout, 0) && ShapedFrom(body, BodyV49Layout, 0)
    requires ShapedFrom(closing, ClosingV49Layout(version), 0)
    requires |t49| == |TrailerV49Plan| && |t52| == |TrailerV49Plan|
    requires forall k :: 0 <= k < |t49| && k != 5 ==> t49[k] == t52[k]
    requires t52[5] == StrV(StrRef(w))
    ensures var h := HeaderV49From(head, body, t49, false, closing, version);
      HeaderV49From(head, body, t52, true, closing, version)
        == h.(trailer := h.trailer.(unused2 := 0, mayaFilename := Some(StrRef(w))))
  {
    assert TrailerV49Of(t52, true) == TrailerV49Of(t49, false).(unused2 := 0, mayaFilename := Some(StrRef(w)));
  }

  /** When version 49 succeeds, version 52 yields its header with word 5 of the trailer taken as the Maya file name. */
  lemma DecodeV52FromV49(data: Bytes, pos: nat)
    requires DecodeV49(data, pos).Success?
    ensures pos + V49Size <= |data|
    ensures DecodeV52(data, pos).Success?
    ensures DecodeV52(data, pos).value.next == DecodeV49(data, pos).value.next
    ensures DecodeV49(data, pos).value.value.trailer.unused2 == U32Of(WordAt(data, pos + MayaFilenameOffset))
    ensures DecodeV52(data, pos).value.value == DecodeV49(data, pos).value.value.(trailer :=
      DecodeV49(data, pos).value.value.trailer.(
        unused2 := 0, mayaFilename := Some(StrRef(WordAt(data, pos + MayaFilenameOffset)))))
  {
    LayoutWidths();
    var head := ReadLayout(data, pos, IdentityHeadLayout).value.value;
    var body := ReadLayout(data, pos + FileSizeOffset + 4, BodyV49Layout).value.value;
    var at := pos + TrailerV49Offset;
    TrailerWords(data, at);
    var t49 := ReadFields(data, at, TrailerV49Plan).value.value;
    var t52 := ReadFields(data, at, TrailerV52Plan).value.value;
    var version := AsI32(head[0].values[1]);
    var closing := ReadLayout(data, at + TrailerV49Size, ClosingV49Layout(version)).value;
    DecodeV49Parts(data, pos, false, head, body, t49, closing.value, closing.next);
    DecodeV49Parts(data, pos, true, head, body, t52, closing.value, closing.next);
    HeaderV52FromV49(head, body, t49, t52, closing.value, version, WordAt(data, at + 20));
  }

  /**
   * Version 52 succeeds on exactly the inputs version 49 succeeds on, ends
   * at the same place and yields the same header but for word 5 of the
   * trailer: version 49 reads it as `unused2`, version 52 as the offset of
   * the Maya file name, leaving `unused2` at 0.
   */
  lemma DecodeV52AgreesWithV49(data: Bytes, pos: nat)
    ensures DecodeV52(data, pos).Success? <==> DecodeV49(data, pos).Success?
    ensures DecodeV49(data, pos).Success? ==>
      pos + V49Size <= |data|
      && DecodeV52(data, pos).value.next == DecodeV49(data, pos).value.next
      && DecodeV49(data, pos).value.value.trailer.unused2 == U32Of(WordAt(data, pos + MayaFilenameOffset))
      && DecodeV52(data, pos).value.value == DecodeV49(data, pos).value.value.(trailer :=
           DecodeV49(data, pos).value.value.trailer.(
             unused2 := 0, mayaFilename := Some(StrRef(WordAt(data, pos + MayaFilenameOffset)))))
  {
    DecodeV49Length(data, pos, false);
    DecodeV49Length(data, pos, true);
    if DecodeV49(data, pos).Success? {
      DecodeV52FromV49(data, pos);
    }
  }
}
