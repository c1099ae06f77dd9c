/**
 * The `.vtx` version probe (library/source1/vtx/__init__.py). `open_vtx`
 * opens a throw-away reader on its argument, reads one `int32`, releases the
 * reader, and hands the ORIGINAL argument to the decoder of that exact
 * version: 6 or 7. Any other version selects nothing. The decoders
 * themselves are opaque here: a decoder is its version tag and the source it
 * was given.
 */
module Vtx {
  import opened Results
  import opened ByteReader

  datatype VtxDecoder =
    | Vtx6(source: Bytes)
    | Vtx7(source: Bytes)

  /** The version each decoder handles. */
  function DecoderVersion(d: VtxDecoder): i32 {
    match d
    case Vtx6(_) => 6
    case Vtx7(_) => 7
  }

  /** `read_int32` at the start of the source. */
  function ProbeVersion(source: Bytes): (r: ReadResult<i32>)
    ensures r.Success? <==> 4 <= |source|
    ensures r.Success? ==> r.value == Parsed(I32Of(source[..4]), 4)
    ensures r.Failure? ==> r.error == Truncated
  {
    var w :- ReadWord(source, 0);
    WordAtSlice(source, 0);
    Success(Parsed(I32Of(w.value), w.next))
  }

  /**
   * `open_vtx`: `None` for a version other than 6 and 7; a source too short
   * for the probe fails, as `read_int32` raises.
   */
  function OpenVtx(source: Bytes): (r: Result<Option<VtxDecoder>, DecodeError>)
    ensures r.Failure? <==> |source| < 4
    ensures r.Failure? ==> r.error == Truncated
    ensures r.Success? ==> (r.value.Some? <==> I32Of(source[..4]) == 6 || I32Of(source[..4]) == 7)
    ensures r.Success? && r.value.Some? ==>
      DecoderVersion(r.value.value) == I32Of(source[..4]) && r.value.value.source == source
  {
    var probe :- ProbeVersion(source);
    if probe.value == 6 then Success(Some(Vtx6(source)))
    else if probe.value == 7 then Success(Some(Vtx7(source)))
    else Success(None)
  }

  /** The choice depends on the first four bytes only: sources that agree there select the same decoder kind. */
  lemma OpenVtxReadsOnlyProbe(a: Bytes, b: Bytes)
    requires 4 <= |a| && 4 <= |b| && a[..4] == b[..4]
    ensures OpenVtx(a).Success? && OpenVtx(b).Success?
    ensures OpenVtx(a).value.Some? <==> OpenVtx(b).value.Some?
    ensures OpenVtx(a).value.Some? ==> DecoderVersion(OpenVtx(a).value.value) == DecoderVersion(OpenVtx(b).value.value)
  {
  }

  /**
   * A source that starts with the `int32` `version` selects the decoder of
   * exactly that version, given the whole source, whatever follows.
   */
  lemma {:induction false} OpenVtxVersion(version: i32, rest: Bytes)
    ensures var source := I32Bytes(version) + rest;
      OpenVtx(source) == Success(
        if version == 6 then Some(Vtx6(source))
        else if version == 7 then Some(Vtx7(source))
        else None)
  {
    var source := I32Bytes(version) + rest;
    assert source[..4] == I32Bytes(version);
    I32RoundTrip(version, source[..4]);
  }
}
