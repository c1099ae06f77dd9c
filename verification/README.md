# Studio-model header decoders, in Dafny

This project models the header decoders of Valve Source-engine studio models (`.mdl`, magic `"IDST"`) and the version probe for the companion `.vtx` files, from the SourceIO Blender add-on.

An `.mdl` header is decoded by one of four readers: versions 36, 44, 49 and 52. Each reads a fixed sequence of little-endian fields from a cursor and returns the header record and the position after it, or fails. The model has these parts:

- **Byte cursor** (`byte_reader.dfy`, module `ByteReader`). The cursor is an immutable byte sequence and a position.
  - Reads are little-endian and consume exactly the width of their format. They fail with `Truncated` when too few bytes remain.
  - A peek leaves the position unchanged.
  - Floats stay uninterpreted 4-byte words.
  - An out-of-line string (`read_source1_string(0)`) is the 4-byte offset field it consumes.
- **Runs of 4-byte fields** (`fields.dfy`). A run is read by a *plan*: one field kind per word. A plan of `n` fields consumes `4 * n` bytes, and its `k`-th value is the `k`-th word decoded by the `k`-th field.
- **Layouts** (`layouts.dfy`). Each decoder is a sequence of *steps*: runs of fields, the 64-byte name, and skipped gaps. One interpreter reads them all, and a writer for every step proves that reading inverts writing.
- **`StudioHDRFlags`** (`studio_flags.dfy`). The flags word is viewed as a set of named bits. Bit 20 and bits 22 to 31 carry no name, and the named view loses no bit.
- **The four decoders and `is_valid_file`** (`mdl_header.dfy`). This file covers:
  - the record types;
  - the layouts of each version;
  - how many bytes each version consumes;
  - when each version fails;
  - which fields each reports.
- **Round trips** (`mdl_encoding.dfy`). A writer for every version is proved to be inverted by its decoder, whatever the skipped bytes hold.
- **Relations between versions** (`mdl_versions.dfy`):
  - all versions report the same identity fields, which agree with `is_valid_file`;
  - version 52 is version 49 with trailer word 5 read as the Maya file name.
- **`open_vtx`** (`vtx.dfy`). The first `int32` selects the version-6 or version-7 decoder, which is handed the original source.

The model follows the code, which has no dispatcher from an `.mdl` version number to a decoder class, so none is modelled. Each decoder reads its own layout whatever version word the input declares.

Sizes the proofs establish:

| version | bytes consumed |
|---|---|
| 36 | 388 |
| 44 | 708, or 728 when the word 388 bytes in is the "SCAL" sentinel 1279345491 |
| 49 and 52 | 656, or 664 when the declared version is above 47 |

Versions 49 and 52 also fail when the declared file size differs from the input size.

## Model

| member | source | states |
|---|---|---|
| StudioFlags.BitNamesFlag | library/source1/mdl/structs/header.py:6-61 | every named flag occupies one bit below 32, and that bit position names the same flag back |
| StudioFlags.PositionNamesBit | library/source1/mdl/structs/header.py:6-61 | a bit position that carries a name is exactly the bit of the flag it names |
| StudioFlags.NamesMatchPositions | library/source1/mdl/structs/header.py:6-61 | names and bit positions correspond one to one; positions 20 and 22 onwards carry no name; the enumeration lists all 21 named flags |
| StudioFlags.HasIsMaskTest | library/source1/mdl/structs/header.py:6-61 | a flag is set exactly when its `1 << bit` mask meets the word |
| StudioFlags.Named | library/source1/mdl/structs/header.py:163 | a named flag is in the view exactly when its `1 << bit` mask meets the raw word |
| StudioFlags.UnknownBits | library/source1/mdl/structs/header.py:163 | the unnamed set bits are exactly the set bits of the raw word at position 20 or 22 through 31 |
| StudioFlags.NamedViewKeepsEveryBit | library/source1/mdl/structs/header.py:163 | building the flags from a raw `u32` loses nothing: the named flags and the unnamed set bits rebuild the original word |
| ByteReader.U32RoundTrip | library/source1/mdl/structs/header.py:153 | `I` is a bijection between 4-byte words and `0 .. 2^32 - 1` |
| ByteReader.I32RoundTrip | library/source1/mdl/structs/header.py:174 | `i` is a bijection between 4-byte words and `-2^31 .. 2^31 - 1`, taken as two's complement |
| ByteReader.I8RoundTrip | library/source1/mdl/structs/header.py:296 | `b` is a bijection between bytes and `-128 .. 127` |
| ByteReader.ReadU32 | library/source1/mdl/structs/header.py:153 | `read_uint32` succeeds exactly when four bytes remain and then yields their little-endian value and advances by 4 |
| ByteReader.UntilNul | library/source1/mdl/structs/header.py:152 | the name is the longest NUL-free prefix of the 64-byte field: a prefix, with no NUL, cut only at a NUL |
| ByteReader.UntilNulPadded | library/source1/mdl/structs/header.py:152 | a NUL-free name of at most 64 bytes, padded with NULs, reads back unchanged |
| ByteReader.Skip | library/source1/mdl/structs/header.py:172 | `skip(n)` succeeds exactly when `n` bytes remain and advances by exactly `n` |
| ByteReader.PeekU32Pair | library/source1/mdl/structs/header.py:299 | `peek_fmt('2I')` yields the two words at the cursor and leaves the cursor where it was |
| Fields.DecodeEncode | library/source1/mdl/structs/header.py:155-163 | each 4-byte field format is a bijection between words and the values that fit it |
| Fields.ReadFields | library/source1/mdl/structs/header.py:165-171 | a run of `n` 4-byte fields succeeds exactly when `4 * n` bytes remain and consumes exactly that many |
| Fields.ReadFieldsValue | library/source1/mdl/structs/header.py:165-171 | the `k`-th value of a run is the word `4 * k` bytes in, decoded by the `k`-th field |
| Fields.ReadFieldsAgree | library/source1/mdl/structs/header.py:389-391 | two runs over the same bytes yield equal values wherever their formats name the same field |
| Fields.FieldsReEncode | library/source1/mdl/structs/header.py:165-171 | writing back the values a run read reproduces the bytes it read |
| Layouts.ReadLayoutAt | library/source1/mdl/structs/header.py:148-199 | a layout read over the encoding of its items yields those items and ends after the layout's width |
| MdlHeader.IsValidFile | library/source1/mdl/structs/header.py:143-146 | true exactly when the four bytes at the cursor are "IDST"; the cursor is unchanged; fails only when fewer than four bytes remain |
| MdlHeader.ClosingV49Layout | library/source1/mdl/structs/header.py:397-400 | whatever the version, the closing section ends with the 56 reserved `i` |
| MdlHeader.LayoutWidths | library/source1/mdl/structs/header.py:148-199 | the sections of each version span 80, 308, 304, 324 and 304 bytes, and the closing section of versions 49 and 52 spans 8 more bytes above version 47 |
| MdlHeader.IdentityHeadFields | library/source1/mdl/structs/header.py:149-153 | the version and file size the decoders read are the words at offsets 4 and 76 |
| MdlHeader.SkipVendorBlock | library/source1/mdl/structs/header.py:299-301 | the peek consumes nothing; exactly 20 bytes are skipped when the second peeked word is 1279345491, and none otherwise |
| MdlHeader.DecodeV36 | library/source1/mdl/structs/header.py:148-199 | version 36 fails only by running out of bytes |
| MdlHeader.DecodeV44 | library/source1/mdl/structs/header.py:238-311 | version 44 fails only by running out of bytes; it never checks the declared file size |
| MdlHeader.DecodeV49Layout | library/source1/mdl/structs/header.py:328-400 | versions 49 and 52 fail only by running out of bytes or by a file size mismatch |
| MdlHeader.DecodeV49 | library/source1/mdl/structs/header.py:328-400 | version 49 fails only by running short or on a declared file size other than the input's; a header it yields declares the input's size and has no Maya file name |
| MdlHeader.DecodeV52 | library/source1/mdl/structs/header.py:408-482 | version 52 fails only as version 49 may; a header it yields declares the input's size, carries the Maya file name offset and leaves `unused2` at 0 |
| MdlHeader.DecodeV36Length | library/source1/mdl/structs/header.py:148-199 | version 36 succeeds exactly when 388 bytes remain and then ends 388 bytes on |
| MdlHeader.DecodeV44Length | library/source1/mdl/structs/header.py:299-311 | version 44 succeeds exactly when 708 bytes remain, or 728 when the peek 384 bytes in finds the sentinel, and ends that far on |
| MdlHeader.DecodeV49Length | library/source1/mdl/structs/header.py:333-400 | versions 49 and 52 succeed exactly when 656 bytes remain, the declared size equals the input size, and 8 more bytes remain above version 47; they end that far on; a failure is a size mismatch exactly when the size word was readable and differs |
| MdlHeader.DecodeV36Fields | library/source1/mdl/structs/header.py:149-199 | version 36 reports the version and file size words it read, unchecked, and nine reserved ints |
| MdlHeader.DecodeV44Fields | library/source1/mdl/structs/header.py:239-311 | version 44 reports the version and file size words it read, unchecked, and 58 reserved ints |
| MdlHeader.DecodeV49Fields | library/source1/mdl/structs/header.py:397-400 | versions 49 and 52 report the version read and a file size equal to the input size; the bone flex driver pair stays (0, 0) up to version 47; only version 52 has a Maya file name; 56 reserved ints |
| MdlEncoding.EncodeV36 | library/source1/mdl/structs/header.py:148-199 | the writer of version 36 produces exactly the 388 bytes the decoder consumes |
| MdlEncoding.EncodeV44 | library/source1/mdl/structs/header.py:238-311 | the writer of version 44 produces 708 bytes plus the optional vendor block |
| MdlEncoding.EncodeV49 | library/source1/mdl/structs/header.py:328-400 | the writer of versions 49 and 52 produces 656 bytes, plus 8 above version 47 |
| MdlEncoding.DecodeV36RoundTrip | library/source1/mdl/structs/header.py:172-183 | decoding version 36 over its encoding yields the header and ends 388 bytes on, whatever the 16 skipped bytes hold |
| MdlEncoding.VendorPeekAt | library/source1/mdl/structs/header.py:299-302 | over an encoded header, the peek finds the sentinel exactly when a vendor block was written |
| MdlEncoding.DecodeV44RoundTrip | library/source1/mdl/structs/header.py:238-311 | decoding version 44 over its encoding yields the header and consumes the vendor block if one was written, whatever the 36 skipped trailer bytes hold |
| MdlEncoding.V49ReadsAt | library/source1/mdl/structs/header.py:328-400 | each read of versions 49 and 52 reads back what was written at its place |
| MdlEncoding.DecodeV49LayoutRoundTrip | library/source1/mdl/structs/header.py:328-400 | decoding versions 49 and 52 over their encoding yields the header when it declares the input's size |
| MdlEncoding.DecodeV49RoundTrip | library/source1/mdl/structs/header.py:328-400 | the version 49 decoder inverts the writer for headers without a Maya file name |
| MdlEncoding.DecodeV52RoundTrip | library/source1/mdl/structs/header.py:408-482 | the version 52 decoder inverts the writer for headers with a Maya file name |
| MdlVersions.IdentityAt | library/source1/mdl/structs/header.py:149-163 | the identity fields span 156 bytes; they give the fourcc, version, file size and flags words at their offsets; their fourcc is "IDST" exactly when `is_valid_file` accepts |
| MdlVersions.IdentityHeadPrefix | library/source1/mdl/structs/header.py:149 | the fourcc is the first word, undecoded |
| MdlVersions.IdentityV36 | library/source1/mdl/structs/header.py:149-163 | a successful version 36 decode reports exactly the identity fields at its start |
| MdlVersions.IdentityV44 | library/source1/mdl/structs/header.py:239-253 | a successful version 44 decode reports exactly the identity fields at its start |
| MdlVersions.IdentityV49 | library/source1/mdl/structs/header.py:329-344 | a successful version 49 or 52 decode reports exactly the identity fields at its start |
| MdlHeader.V36Departures | library/source1/mdl/structs/header.py:172-183 | version 36 skips 16 bytes and reads its sequence groups where versions 44 onwards read the activity pair (header.py:262), and its transition pair where they read the node triple (header.py:270); the other groups match in order |
| MdlVersions.DecodeV36AgreesWithV44 | library/source1/mdl/structs/header.py:148-171 | on the same bytes, successful version 36 and version 44 decodes report the same identity fields and the same animation tables, read 156 bytes in |
| MdlVersions.TrailerWords | library/source1/mdl/structs/header.py:469-473 | the trailers of versions 49 and 52 read the same words and differ only at word 5: an unsigned int against a string offset |
| MdlVersions.HeaderV52FromV49 | library/source1/mdl/structs/header.py:469-477 | built from the same reads, the version 52 record is the version 49 one with `unused2` at 0 and word 5 as the Maya file name |
| MdlVersions.DecodeV52FromV49 | library/source1/mdl/structs/header.py:469-477 | when version 49 succeeds, version 52 ends at the same place with the same header but for word 5 of the trailer |
| MdlVersions.DecodeV52AgreesWithV49 | library/source1/mdl/structs/header.py:408-482 | versions 52 and 49 succeed on the same inputs; they differ only in how they keep word 5 of the trailer, 404 bytes in |
| Vtx.ProbeVersion | library/source1/vtx/__init__.py:10-11 | the probe succeeds exactly when four bytes are present and yields the `int32` they hold, consuming exactly those four |
| Vtx.OpenVtx | library/source1/vtx/__init__.py:9-17 | the result is a decoder exactly for versions 6 and 7, of that version and given the whole original source; other versions give none; only an input too short for the probe fails |
| Vtx.OpenVtxReadsOnlyProbe | library/source1/vtx/__init__.py:10-17 | sources with the same first four bytes select the same decoder kind |
| Vtx.OpenVtxVersion | library/source1/vtx/__init__.py:14-17 | a source starting with the `int32` v selects the version-6 decoder for 6, the version-7 decoder for 7, and none otherwise, whatever follows |

## Left out

- `ByteIO` is not part of this model. Its reads are modelled as little-endian reads over an immutable byte sequence. A read past the end fails with `Truncated`, standing for the exception a short `struct` read raises.
- MdlHeader.IsValidFile: with fewer than four bytes at the cursor the model fails with `Truncated`, like every other short read. A `read_fourcc` that returned a shorter string would make `is_valid_file` answer false instead.
- Skipping past the end fails in the model. The real reader may seek past the end and fail on the next read; every skip in the decoders is followed by a read, so the two agree on whether the decode succeeds.
- Floats (`3f`, `mass`, `max_eye_deflection`, `vert_anim_fixed_point_scale`) stay uninterpreted 4-byte words; no floating point is modelled.
- Out-of-line strings (`surface_prop`, `anim_block_name`, `maya_filename`) keep only the 4-byte offset field they consume. The seek to the string and its text are not modelled.
- The 64-byte name is kept as raw bytes up to the first NUL; its character decoding is not modelled.
- `store_value('mdl_version', …)` is a diagnostic sink with no effect on the decode, so it is left out.
- Fields that `__init__` sets and `read` never assigns are not part of the records. The exceptions are `unused2`, the bone flex driver pair and `maya_filename`, which versions 49 and 52 may leave at their initial values.
- Bytes the decoders skip (16 in version 36, 36 in the version 44 trailer, the 20-byte vendor block) are discarded. The round trips take them as parameters instead.
- MdlEncoding.EncodeV36: re-encoding a decoded header is not claimed to reproduce the input bytes, because the name field's NUL padding and the skipped bytes are not kept. The round trips go from header to bytes to header.
- MdlHeader.DecodeV49Layout: the file size check is an `assert`, which Python skips under `-O`. The model always performs it.
- `Vtx6` and `Vtx7` are not part of this model: a selected decoder is its version tag and the source it receives.
- Vtx.OpenVtx: releasing the probe reader (`reader.file = None; del reader`) has no observable effect on a pure byte sequence. The model instead states that the decoder receives the untouched original source.
- Accepting a path or a stream in `open_vtx` is file I/O. The source is the byte sequence itself. A stream argument is not modelled: if `ByteIO` wraps the caller's stream rather than copying it, the probe's `read_int32` advances it and nothing seeks back, so the decoder may start 4 bytes in.
