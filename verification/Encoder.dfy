/** The streaming BMP encoder over a short-writing, failing, seekable stream (src/bitmap.rs). */
module Encoder {
  import opened Basics
  import opened Wire
  import opened Bmp
  import opened ScanJob

  // ---- The output stream ----

  function Overlay(content: seq<Byte>, at: nat, bytes: seq<Byte>): seq<Byte>
    requires at <= |content|
  {
    content[..at] + bytes + if at + |bytes| <= |content| then content[at + |bytes|..] else []
  }

  predicate Signed(content: seq<Byte>) {
    |content| >= 2 && content[..2] == SIGNATURE
  }

  lemma OverlayInParts(content: seq<Byte>, at: nat, a: seq<Byte>, b: seq<Byte>)
    requires at <= |content|
    ensures at + |a| <= |Overlay(content, at, a)| && at + |a| + |b| <= |Overlay(content, at, a + b)|
    ensures Overlay(Overlay(content, at, a), at + |a|, b) == Overlay(content, at, a + b)
  {
  }

  lemma NothingOverlaid(content: seq<Byte>, at: nat)
    requires at <= |content|
    ensures Overlay(content, at, []) == content
  {
  }

  /** What a write may leave behind when it fails: any leading part of the bytes, all of them included. */
  ghost predicate Cut(content: seq<Byte>, before: seq<Byte>, at: nat, bytes: seq<Byte>)
    requires at <= |before|
  {
    exists k :: 0 <= k <= |bytes| && content == Overlay(before, at, bytes[..k])
  }

  /** A cut in the second part of a write is a cut in the whole. */
  lemma CutInParts(content: seq<Byte>, before: seq<Byte>, at: nat, a: seq<Byte>, b: seq<Byte>)
    requires at <= |before| && at + |a| <= |Overlay(before, at, a)|
    requires Cut(content, Overlay(before, at, a), at + |a|, b)
    ensures Cut(content, before, at, a + b)
  {
    hide Overlay;
    var k :| 0 <= k <= |b| && content == Overlay(Overlay(before, at, a), at + |a|, b[..k]);
    OverlayInParts(before, at, a, b[..k]);
    assert (a + b)[..|a| + k] == a + b[..k];
  }

  /** Whatever the caller supplied as output. A call that fails, makes no progress or claims an
      impossible count leaves it `broken`, with some leading part of the bytes written. */
  class Stream {
    var content: seq<Byte>
    var position: nat
    ghost var broken: bool
    ghost var calls: nat
    /** The call after which the contents first began with the BMP signature. */
    ghost var signedAt: Option<nat>

    constructor ()
      ensures content == [] && position == 0 && !broken && signedAt.None?
    {
      content, position, broken, calls, signedAt := [], 0, false, 0, None;
    }

    method Write(bytes: seq<Byte>) returns (r: IoResult<nat>)
      requires position <= |content|
      modifies this
      ensures calls == old(calls) + 1
      ensures signedAt == (if old(signedAt).None? && Signed(content) then Some(calls) else old(signedAt))
      ensures r.Ok? && 0 < r.value <= |bytes| ==>
                && content == Overlay(old(content), old(position), bytes[..r.value])
                && position == old(position) + r.value && broken == old(broken)
      ensures !(r.Ok? && 0 < r.value <= |bytes|) ==> broken && Cut(content, old(content), old(position), bytes)
    {
      var count: nat :| count >= 0;
      var error: IoError := *;
      var fails: bool := *;
      r := if fails then Err(error) else Ok(count);
      calls := calls + 1;
      if r.Ok? && 0 < r.value <= |bytes| {
        content, position := Overlay(content, position, bytes[..r.value]), position + r.value;
      } else {
        var part: nat :| part <= |bytes|;
        broken, content, position := true, Overlay(content, position, bytes[..part]), *;
      }
      signedAt := if signedAt.None? && Signed(content) then Some(calls) else signedAt;
    }

    method Seek(at: nat) returns (r: IoResult<()>)
      modifies this
      ensures calls == old(calls) + 1 && content == old(content) && signedAt == old(signedAt)
      ensures r.Ok? ==> position == at && broken == old(broken)
      ensures r.Err? ==> broken
    {
      r := *;
      calls := calls + 1;
      if r.Ok? {
        position := at;
      } else {
        broken, position := true, *;
      }
    }

    method SeekEnd() returns (r: IoResult<nat>)
      modifies this
      ensures calls == old(calls) + 1 && content == old(content) && signedAt == old(signedAt)
      ensures r.Ok? ==> r.value == |content| == position && broken == old(broken)
      ensures r.Err? ==> broken
    {
      var error: IoError := *;
      var fails: bool := *;
      calls := calls + 1;
      if fails {
        broken, position := true, *;
        return Err(error);
      }
      position := |content|;
      r := Ok(position);
    }
  }

  ghost predicate Healthy(stream: Stream)
    reads stream
  {
    !stream.broken && stream.position <= |stream.content|
  }

  /** The contents have never looked committed. */
  ghost predicate Uncommitted(stream: Stream)
    reads stream
  {
    stream.signedAt.None? && !Signed(stream.content)
  }

  /** No proper part of this write makes the contents look committed. */
  ghost predicate Discreet(content: seq<Byte>, at: nat, bytes: seq<Byte>)
    requires at <= |content|
  {
    forall k :: 0 <= k < |bytes| ==> !Signed(Overlay(content, at, bytes[..k]))
  }

  lemma OnlyWholeSigns(content: seq<Byte>, before: seq<Byte>, at: nat, bytes: seq<Byte>)
    requires at <= |before| && Discreet(before, at, bytes) && Cut(content, before, at, bytes)
    ensures Signed(content) ==> content == Overlay(before, at, bytes)
  {
    hide Overlay, Signed;
    var k :| 0 <= k <= |bytes| && content == Overlay(before, at, bytes[..k]);
    assert k == |bytes| ==> bytes[..k] == bytes;
  }

  method WriteBounded(stream: Stream, bytes: seq<Byte>) returns (r: IoResult<()>)
    requires Healthy(stream) && Uncommitted(stream) && Discreet(stream.content, stream.position, bytes)
    modifies stream
    ensures r.Ok? ==> Healthy(stream) && stream.content == Overlay(old(stream.content), old(stream.position), bytes)
                      && stream.position == old(stream.position) + |bytes|
                      && stream.signedAt == if Signed(stream.content) then Some(stream.calls) else None
    ensures r.Err? ==> stream.broken && Cut(stream.content, old(stream.content), old(stream.position), bytes)
    ensures stream.signedAt.Some? <==> Signed(stream.content)
    ensures Signed(stream.content) ==> stream.content == Overlay(old(stream.content), old(stream.position), bytes)
    ensures stream.calls >= old(stream.calls)
  {
    hide Overlay, Signed;
    var rest := bytes;
    ghost var done: seq<Byte> := [];
    ghost var content0, at := stream.content, stream.position;
    NothingOverlaid(content0, at);
    while rest != []
      invariant Healthy(stream) && bytes == done + rest
      invariant stream.content == Overlay(content0, at, done) && stream.position == at + |done|
      invariant stream.signedAt == if Signed(stream.content) then Some(stream.calls) else None
      invariant rest != [] ==> !Signed(stream.content)
      invariant stream.calls >= old(stream.calls)
      decreases |rest|
    {
      var written := stream.Write(rest);
      if written.Err? || !(0 < written.value <= |rest|) {
        CutInParts(stream.content, content0, at, done, rest);
        OnlyWholeSigns(stream.content, content0, at, bytes);
        return if written.Err? then Err(written.error)
               else if written.value == 0 then Err(Fail(WriteZero, "BMP writer made no progress"))
               else Err(Fail(InvalidData, "BMP writer returned more bytes than provided"));
      }
      OverlayInParts(content0, at, done, rest[..written.value]);
      done, rest := done + rest[..written.value], rest[written.value..];
      assert bytes[..|done|] == done;
    }
    assert done == bytes;
    r := Ok(());
  }

  // ---- Validation (pure) ----

  const MAX_PIXEL_BYTES := 256 * 1024 * 1024
  const MAX_PUSHED_BANDS: nat := 4096

  /** An inch is 254 tenths of a millimetre: the nearest whole number of pixels per metre. */
  function DpiToPpm(dpi: U32): (r: IoResult<U32>)
    ensures r.Ok? ==> r.value <= I32_MAX && 254 * r.value - 127 <= dpi as int * 10_000 <= 254 * r.value + 127
    ensures r.Ok? <==> 0 < dpi as int * 10_000 < 254 * I32_MAX + 127
    ensures r.Err? ==> !r.error.hostCancelled
  {
    if dpi == 0 then Err(Fail(InvalidInput, "BMP DPI must be non-zero"))
    else
      var ppm := (dpi as int * 10_000 + 127) / 254;
      if ppm > I32_MAX then Err(Fail(InvalidInput, "BMP pixels-per-metre does not fit i32")) else Ok(ppm)
  }

  /** `validate_band_geometry`: the row and pixel sizes of an acceptable band. */
  function Geometry(band: ImageBand, mode: ColorMode): (r: IoResult<nat>)
    ensures r.Ok? ==> r.value == RowBytes(band.width, mode) && 0 < r.value <= MAX_ROW_BYTES
                      && band.mode == mode && band.rows > 0
                      && |band.pixels| == band.rows * r.value
  {
    var rowBytes := RowBytes(band.width, mode);
    if band.mode != mode then Err(Fail(InvalidData, "Image band mode differs from BMP mode"))
    else if band.width == 0 || band.rows == 0 then
      Err(Fail(InvalidData, "Image band width and rows must be non-zero"))
    else if band.width > I32_MAX then Err(Fail(InvalidData, "BMP width does not fit i32"))
    else if rowBytes > MAX_ROW_BYTES then Err(Fail(InvalidData, "Image row exceeds the 65536-byte limit"))
    else if |band.pixels| != band.rows * rowBytes then
      Err(Fail(InvalidData, "Image band pixel length does not match expected"))
    else Ok(rowBytes)
  }

  /** `validate_accumulation` after a successful `Geometry`. */
  function Accumulate(height: nat, bands: nat, bytes: nat, rows: nat, pixelBytes: nat): IoResult<()> {
    if bands >= MAX_PUSHED_BANDS then Err(Fail(InvalidData, "BMP image exceeds the 4096-band limit"))
    else if height + rows >= U32_LIMIT then Err(Fail(InvalidData, "BMP image height overflow"))
    else if height + rows > I32_MAX then Err(Fail(InvalidData, "BMP image height does not fit i32"))
    else if bytes + pixelBytes > MAX_PIXEL_BYTES then
      Err(Fail(InvalidData, "BMP image exceeds the 256 MiB pixel limit"))
    else Ok(())
  }

  function AllPixels(bands: seq<ImageBand>): seq<Byte> {
    if bands == [] then [] else AllPixels(bands[..|bands| - 1]) + bands[|bands| - 1].pixels
  }

  /** What the encoder accepts after `bands`. */
  predicate Admissible(bands: seq<ImageBand>, mode: ColorMode, band: ImageBand) {
    && Geometry(band, mode).Ok?
    && (bands != [] ==> bands[0].width == band.width)
    && Accumulate(RowTotal(bands), |bands|, ByteTotal(bands), band.rows, |band.pixels|).Ok?
  }

  /** A sequence of bands every prefix of which the encoder accepted. */
  predicate AllAdmissible(bands: seq<ImageBand>, mode: ColorMode) {
    bands != [] ==> AllAdmissible(bands[..|bands| - 1], mode)
                    && Admissible(bands[..|bands| - 1], mode, bands[|bands| - 1])
  }

  lemma {:induction false} AdmissibleShape(bands: seq<ImageBand>, mode: ColorMode)
    requires AllAdmissible(bands, mode) && bands != []
    ensures bands[0].mode == mode && 0 < bands[0].width <= I32_MAX && RowBytes(bands[0].width, mode) <= MAX_ROW_BYTES
    ensures |AllPixels(bands)| == ByteTotal(bands) == RowTotal(bands) * RowBytes(bands[0].width, mode)
    ensures 0 < RowTotal(bands) <= I32_MAX && ByteTotal(bands) <= MAX_PIXEL_BYTES && |bands| <= MAX_PUSHED_BANDS
  {
    hide RowBytes, Stride;
    var n := |bands| - 1;
    var rowBytes := RowBytes(bands[0].width, mode);
    if n > 0 {
      AdmissibleShape(bands[..n], mode);
      assert bands[..n][0] == bands[0];
      Distribute(RowTotal(bands[..n]), bands[n].rows, rowBytes);
    } else {
      assert bands[..n] == [];
    }
  }

  lemma Distribute(a: nat, b: nat, k: nat)
    ensures (a + b) * k == a * k + b * k
  {
  }

  lemma FourTimes(rows: nat, rowBytes: nat, stride: nat)
    requires stride <= 4 * rowBytes
    ensures rows * stride <= 4 * (rows * rowBytes)
  {
    assert rows * (4 * rowBytes - stride) >= 0;
  }

  lemma RowIsNotEmpty(width: nat, mode: ColorMode)
    requires width > 0
    ensures RowBytes(width, mode) > 0 && Stride(RowBytes(width, mode)) <= 4 * RowBytes(width, mode)
  {
  }

  /** The file always fits: padding at most quadruples a row, so the pixel array stays within 1 GiB. */
  lemma SizesNeverOverflow(bands: seq<ImageBand>, mode: ColorMode)
    requires AllAdmissible(bands, mode) && bands != []
    ensures RowTotal(bands) * Stride(RowBytes(bands[0].width, mode)) <= 4 * MAX_PIXEL_BYTES
    ensures Fits(bands[0].width, RowTotal(bands), mode)
  {
    hide RowBytes, Stride, RowTotal, ByteTotal;
    AdmissibleShape(bands, mode);
    var rowBytes := RowBytes(bands[0].width, mode);
    RowIsNotEmpty(bands[0].width, mode);
    FourTimes(RowTotal(bands), rowBytes, Stride(rowBytes));
  }

  lemma OneMoreBand(bands: seq<ImageBand>, mode: ColorMode, band: ImageBand)
    requires AllAdmissible(bands, mode) && Admissible(bands, mode, band)
    ensures AllAdmissible(bands + [band], mode)
    ensures AllPixels(bands + [band]) == AllPixels(bands) + band.pixels
    ensures Summarize(bands + [band])
            == ScanSummary(band.width, RowTotal(bands) + band.rows, |bands| + 1, ByteTotal(bands) + |band.pixels|)
  {
    assert (bands + [band])[..|bands|] == bands;
    SummaryGrows(bands, band);
  }

  // ---- Appending and patching ----

  lemma AppendIsDiscreet(content: seq<Byte>, bytes: seq<Byte>)
    requires |content| >= 2 && !Signed(content)
    ensures Overlay(content, |content|, bytes) == content + bytes
    ensures Discreet(content, |content|, bytes) && !Signed(content + bytes)
  {
    forall k | 0 <= k <= |bytes|
      ensures !Signed(Overlay(content, |content|, bytes[..k]))
    {
      assert Overlay(content, |content|, bytes[..k])[..2] == content[..2];
    }
    assert bytes[..|bytes|] == bytes;
  }

  lemma PatchIsDiscreet(content: seq<Byte>, at: nat, bytes: seq<Byte>)
    requires 2 <= at <= |content| && !Signed(content)
    ensures Discreet(content, at, bytes) && !Signed(Overlay(content, at, bytes))
  {
    forall k | 0 <= k <= |bytes|
      ensures !Signed(Overlay(content, at, bytes[..k]))
    {
      assert Overlay(content, at, bytes[..k])[..2] == content[..2];
    }
    assert bytes[..|bytes|] == bytes;
  }

  lemma SameOutside(f: seq<Byte>, g: seq<Byte>, at: nat, bytes: seq<Byte>)
    requires |f| == |g| && at + |bytes| <= |f|
    requires f[..at] == g[..at] && g[at..at + |bytes|] == bytes && f[at + |bytes|..] == g[at + |bytes|..]
    ensures Overlay(f, at, bytes) == g
  {
    assert g == g[..at] + g[at..at + |bytes|] + g[at + |bytes|..];
  }

  /** Writing a field in place changes that field of the file and nothing else. */
  lemma PatchedFile(mode: ColorMode, ppm: U32, width: U32, p: Patch, rows: seq<Byte>, fileSize: U32, height: I32,
      imageSize: U32)
    requires |p.signature| == 2
    ensures Overlay(File(mode, ppm, width, p, rows), 2, ToLe32(fileSize))
            == File(mode, ppm, width, p.(fileSize := fileSize), rows)
    ensures Overlay(File(mode, ppm, width, p, rows), 22, ToLe32(Pattern32(height)))
            == File(mode, ppm, width, p.(height := height), rows)
    ensures Overlay(File(mode, ppm, width, p, rows), 34, ToLe32(imageSize))
            == File(mode, ppm, width, p.(imageSize := imageSize), rows)
    ensures Overlay(File(mode, ppm, width, p, rows), 0, SIGNATURE)
            == File(mode, ppm, width, p.(signature := SIGNATURE), rows)
  {
    PatchedField(mode, ppm, width, p, p.(fileSize := fileSize), rows);
    PatchedField(mode, ppm, width, p, p.(height := height), rows);
    PatchedField(mode, ppm, width, p, p.(imageSize := imageSize), rows);
    PatchedField(mode, ppm, width, p, p.(signature := SIGNATURE), rows);
  }

  lemma PatchedField(mode: ColorMode, ppm: U32, width: U32, p: Patch, q: Patch, rows: seq<Byte>)
    requires |p.signature| == |q.signature| == 2
    ensures var f, g := File(mode, ppm, width, p, rows), File(mode, ppm, width, q, rows);
            && |f| == |g| >= 54
            && (q == p.(fileSize := q.fileSize) ==> Overlay(f, 2, ToLe32(q.fileSize)) == g)
            && (q == p.(height := q.height) ==> Overlay(f, 22, ToLe32(Pattern32(q.height))) == g)
            && (q == p.(imageSize := q.imageSize) ==> Overlay(f, 34, ToLe32(q.imageSize)) == g)
            && (q == p.(signature := q.signature) ==> Overlay(f, 0, q.signature) == g)
  {
    hide File, ToLe32, Palette, Overlay;
    var f, g := File(mode, ppm, width, p, rows), File(mode, ppm, width, q, rows);
    Fields(mode, ppm, width, p, rows);
    Fields(mode, ppm, width, q, rows);
    InSegments(f, PixelOffset(mode));
    InSegments(g, PixelOffset(mode));
    if q == p.(fileSize := q.fileSize) {
      SameOutside(f, g, 2, ToLe32(q.fileSize));
    }
    if q == p.(height := q.height) {
      SameOutside(f, g, 22, ToLe32(Pattern32(q.height)));
    }
    if q == p.(imageSize := q.imageSize) {
      SameOutside(f, g, 34, ToLe32(q.imageSize));
    }
    if q == p.(signature := q.signature) {
      SameOutside(f, g, 0, q.signature);
    }
  }

  lemma InSegments(f: seq<Byte>, offset: nat)
    requires 54 <= offset <= |f|
    ensures f[38..] == f[38..54] + (f[54..offset] + f[offset..])
    ensures f[26..] == f[26..34] + (f[34..38] + f[38..])
    ensures f[2..] == f[2..6] + f[6..] && f[6..] == f[6..22] + (f[22..26] + f[26..])
    ensures f[..22] == f[..2] + (f[2..6] + f[6..22])
    ensures f[..34] == f[..22] + (f[22..26] + f[26..34])
  {
  }

  lemma BlankIsUnsigned(mode: ColorMode, ppm: U32, width: U32, p: Patch, rows: seq<Byte>)
    requires p.signature == [0, 0]
    ensures var f := File(mode, ppm, width, p, rows);
            && |f| >= 54 && !Signed(f)
            && Discreet(f, 0, SIGNATURE) && Signed(Overlay(f, 0, SIGNATURE))
  {
    hide File, ToLe32, Palette;
    var f := File(mode, ppm, width, p, rows);
    Fields(mode, ppm, width, p, rows);
    forall k | 0 <= k < 2
      ensures !Signed(Overlay(f, 0, SIGNATURE[..k]))
    {
      assert Overlay(f, 0, SIGNATURE[..k])[1] == f[..2][1] == 0;
    }
    assert Overlay(f, 0, SIGNATURE)[..2] == SIGNATURE;
  }

  /** The uncommitted stream after `bands`: blank header fields and every row so far. */
  function Unfinished(mode: ColorMode, ppm: U32, bands: seq<ImageBand>): seq<Byte>
    requires AllAdmissible(bands, mode) && bands != []
  {
    AdmissibleShape(bands, mode);
    File(mode, ppm, bands[0].width, BLANK, RowsOf(bands, mode))
  }

  /** Every row of `bands` in file order. */
  function RowsOf(bands: seq<ImageBand>, mode: ColorMode): seq<Byte>
    requires AllAdmissible(bands, mode) && bands != []
  {
    AdmissibleShape(bands, mode);
    EncodedRows(AllPixels(bands), RowBytes(bands[0].width, mode), RowTotal(bands), mode)
  }

  /** The committed file for `bands`. */
  function Published(mode: ColorMode, ppm: U32, bands: seq<ImageBand>): seq<Byte>
    requires AllAdmissible(bands, mode) && bands != []
  {
    AdmissibleShape(bands, mode);
    SizesNeverOverflow(bands, mode);
    Finished(mode, ppm, bands[0].width, RowTotal(bands), AllPixels(bands))
  }

  lemma RowsOfSize(bands: seq<ImageBand>, mode: ColorMode)
    requires AllAdmissible(bands, mode) && bands != []
    ensures |RowsOf(bands, mode)| == Stride(RowBytes(bands[0].width, mode)) * RowTotal(bands)
    ensures PixelOffset(mode) + |RowsOf(bands, mode)| < U32_LIMIT
    ensures 0 < RowTotal(bands) <= I32_MAX && 0 < bands[0].width <= I32_MAX
  {
    hide EncodedRows, RowBytes, Stride, RowTotal, AllPixels, AllAdmissible;
    SizesNeverOverflow(bands, mode);
    AdmissibleShape(bands, mode);
    var rows, stride := RowTotal(bands), Stride(RowBytes(bands[0].width, mode));
    assert rows * stride == stride * rows;
  }

  lemma ImageSize(bands: seq<ImageBand>, mode: ColorMode, rowStride: nat, height: nat)
    requires AllAdmissible(bands, mode) && bands != []
    requires rowStride == Stride(RowBytes(bands[0].width, mode)) && height == RowTotal(bands)
    ensures rowStride * height == |RowsOf(bands, mode)|
  {
    RowsOfSize(bands, mode);
  }

  lemma FinalFile(bands: seq<ImageBand>, mode: ColorMode, ppm: U32)
    requires AllAdmissible(bands, mode) && bands != []
    ensures PixelOffset(mode) + |RowsOf(bands, mode)| < U32_LIMIT && RowTotal(bands) <= I32_MAX
        && bands[0].width < U32_LIMIT
    ensures var rows := RowsOf(bands, mode);
            && Unfinished(mode, ppm, bands) == File(mode, ppm, bands[0].width, BLANK, rows)
            && Published(mode, ppm, bands)
               == File(mode, ppm, bands[0].width,
                       Patch(SIGNATURE, PixelOffset(mode) + |rows|, 0 - RowTotal(bands) as int, |rows|), rows)
  {
    hide File, RowBytes, Stride, RowTotal, AllPixels;
    RowsOfSize(bands, mode);
  }

  lemma FileIsBasePlusRows(mode: ColorMode, ppm: U32, width: U32, rows: seq<Byte>)
    ensures File(mode, ppm, width, BLANK, rows) == File(mode, ppm, width, BLANK, []) + rows
  {
  }

  /** Before a further band the stream is the header followed by the rows of the bands so far. */
  lemma Opened(mode: ColorMode, ppm: U32, earlier: seq<ImageBand>, band: ImageBand)
    requires AllAdmissible(earlier, mode) && Admissible(earlier, mode, band)
    ensures var rowBytes := RowBytes(band.width, mode);
            && |AllPixels(earlier)| == RowTotal(earlier) * rowBytes
            && (if earlier == [] then File(mode, ppm, band.width, BLANK, []) else Unfinished(mode, ppm, earlier))
               == File(mode, ppm, band.width, BLANK, [])
                  + EncodedRows(AllPixels(earlier), rowBytes, RowTotal(earlier), mode)
    ensures var content :=
              if earlier == [] then File(mode, ppm, band.width, BLANK, []) else Unfinished(mode, ppm, earlier);
            |content| >= 54 && !Signed(content)
  {
    var rowBytes := RowBytes(band.width, mode);
    if earlier != [] {
      AdmissibleShape(earlier, mode);
    }
    var rows := EncodedRows(AllPixels(earlier), rowBytes, RowTotal(earlier), mode);
    FileIsBasePlusRows(mode, ppm, band.width, rows);
    BlankIsUnsigned(mode, ppm, band.width, BLANK, rows);
  }

  /** `PatchedFile` and `BlankIsUnsigned` for one intermediate state of `Finish`. */
  lemma PatchSteps(mode: ColorMode, ppm: U32, width: U32, p: Patch, rows: seq<Byte>, fileSize: U32, height: I32,
      imageSize: U32)
    requires p.signature == [0, 0]
    ensures var f := File(mode, ppm, width, p, rows);
            && |f| >= 54 && !Signed(f) && Discreet(f, 0, SIGNATURE)
            && Overlay(f, 2, ToLe32(fileSize)) == File(mode, ppm, width, p.(fileSize := fileSize), rows)
            && Overlay(f, 22, ToLe32(Pattern32(height))) == File(mode, ppm, width, p.(height := height), rows)
            && Overlay(f, 34, ToLe32(imageSize)) == File(mode, ppm, width, p.(imageSize := imageSize), rows)
            && Overlay(f, 0, SIGNATURE) == File(mode, ppm, width, p.(signature := SIGNATURE), rows)
            && Signed(Overlay(f, 0, SIGNATURE))
  {
    BlankIsUnsigned(mode, ppm, width, p, rows);
    PatchedFile(mode, ppm, width, p, rows, fileSize, height, imageSize);
  }

  method SwapRow(row: seq<Byte>) returns (converted: seq<Byte>)
    requires |row| % 3 == 0
    ensures converted == Swapped(row)
  {
    var out := new Byte[|row|];
    for x := 0 to |row| / 3
      invariant forall i :: 0 <= i < 3 * x ==> out[i] == row[Mirror(i)]
    {
      out[3 * x] := row[3 * x + 2];
      out[3 * x + 1] := row[3 * x + 1];
      out[3 * x + 2] := row[3 * x];
    }
    converted := out[..];
  }

  method Append(stream: Stream, bytes: seq<Byte>) returns (r: IoResult<()>)
    requires Healthy(stream) && Uncommitted(stream) && stream.position == |stream.content| >= 2
    modifies stream
    ensures Uncommitted(stream) && (r.Err? ==> stream.broken)
    ensures r.Ok? ==> Healthy(stream) && stream.position == |stream.content|
                      && stream.content == old(stream.content) + bytes
  {
    AppendIsDiscreet(stream.content, bytes);
    r := WriteBounded(stream, bytes);
  }

  class BmpEncoder {
    const stream: Stream
    const mode: ColorMode
    const pixelsPerMetre: nat
    var width: Option<nat>
    var height: nat
    var bands: nat
    var bytes: nat
    var rowStride: nat
    var headerWritten: bool
    var poisoned: Option<IoError>
    ghost var pushed: seq<ImageBand>

    ghost predicate Valid()
      reads this, stream
    {
      && pixelsPerMetre <= I32_MAX
      && AllAdmissible(pushed, mode)
      && Uncommitted(stream)
      && (poisoned.None? ==> Current())
      && (poisoned.Some? ==> !poisoned.value.hostCancelled)
    }

    /** No error yet: the stream holds exactly the uncommitted file for the bands pushed. */
    ghost predicate Current()
      requires pixelsPerMetre <= I32_MAX && AllAdmissible(pushed, mode)
      reads this, stream
    {
      && Healthy(stream) && stream.position == |stream.content|
      && ScanSummary(if width.Some? then width.value else 0, height, bands, bytes) == Summarize(pushed)
      && width.Some? == headerWritten == (pushed != [])
      && (if pushed == [] then stream.content == []
          else rowStride == Stride(RowBytes(pushed[0].width, mode))
               && stream.content == Unfinished(mode, pixelsPerMetre, pushed))
    }

    constructor (stream: Stream, ppm: nat, mode: ColorMode)
      requires ppm <= I32_MAX
      requires Healthy(stream) && stream.content == [] && stream.position == 0 && stream.signedAt.None?
      ensures Valid() && this.stream == stream && this.mode == mode && pixelsPerMetre == ppm
      ensures poisoned.None? && pushed == []
    {
      this.stream, this.mode, pixelsPerMetre := stream, mode, ppm;
      width, height, bands, bytes, rowStride := None, 0, 0, 0, 0;
      headerWritten, poisoned, pushed := false, None, [];
    }

    method WriteInitialHeader(width: U32) returns (r: IoResult<()>)
      requires Healthy(stream) && stream.signedAt.None? && stream.content == [] && pixelsPerMetre <= I32_MAX
      modifies stream, this`headerWritten
      ensures Uncommitted(stream) && (r.Err? ==> stream.broken)
      ensures r.Ok? ==> headerWritten && Healthy(stream)
                        && stream.position == |stream.content|
                        && stream.content == File(mode, pixelsPerMetre, width, BLANK, [])
    {
      hide ToLe32, Palette;
      var rewound := stream.Seek(0);
      if rewound.Err? {
        return rewound;
      }
      var header := FileHeader(mode, BLANK);
      HeaderIsDiscreet(header);
      var first := WriteBounded(stream, header);
      if first.Err? {
        return first;
      }
      var second := Append(stream, InfoHeader(mode, pixelsPerMetre, width, BLANK));
      if second.Err? {
        return second;
      }
      if mode.Gray? {
        var third := Append(stream, Palette(mode));
        if third.Err? {
          return third;
        }
      }
      headerWritten := true;
      assert mode.Rgb? ==> Palette(mode) == [];
      r := Ok(());
    }

    method WriteRow(samples: seq<Byte>) returns (r: IoResult<()>)
      requires WholePixels(|samples|, mode)
      requires Healthy(stream) && Uncommitted(stream) && stream.position == |stream.content| >= 2
      modifies stream
      ensures Uncommitted(stream) && (r.Err? ==> stream.broken)
      ensures r.Ok? ==> Healthy(stream) && stream.position == |stream.content|
                        && stream.content == old(stream.content) + EncodedRow(samples, mode)
    {
      var converted := samples;
      if mode.Rgb? {
        converted := SwapRow(samples);
      }
      var written := Append(stream, converted);
      if written.Err? {
        return written;
      }
      r := Append(stream, Zeros(Stride(|samples|) - |samples|));
    }

    /** Appends the rows of an accepted band, one at a time. */
    method WriteBand(band: ImageBand, rowBytes: nat, ghost base: seq<Byte>, ghost before: seq<Byte>, ghost rows: nat)
      returns (r: IoResult<()>)
      requires WholePixels(rowBytes, mode) && |band.pixels| == band.rows * rowBytes && |before| == rows * rowBytes
      requires Healthy(stream) && Uncommitted(stream) && stream.position == |stream.content| >= 2
      requires stream.content == base + EncodedRows(before, rowBytes, rows, mode)
      modifies stream
      ensures Uncommitted(stream) && (r.Err? ==> stream.broken)
      ensures r.Ok? ==> Healthy(stream) && stream.position == |stream.content|
                        && |before + band.pixels| == (rows + band.rows) * rowBytes
                        && |stream.content| >= |old(stream.content)|
                        && stream.content == base + EncodedRows(before + band.pixels, rowBytes, rows + band.rows, mode)
    {
      hide EncodedRows, EncodedRow, Signed, Stride;
      var rest := band.pixels;
      ghost var done := before;
      var row := 0;
      assert before + band.pixels == done + rest;
      while row < band.rows
        invariant 0 <= row <= band.rows
        invariant |rest| == (band.rows - row) * rowBytes && |done| == (rows + row) * rowBytes
        invariant before + band.pixels == done + rest
        invariant Healthy(stream) && Uncommitted(stream) && stream.position == |stream.content| >= 2
        invariant |stream.content| >= |old(stream.content)|
        invariant stream.content == base + EncodedRows(done, rowBytes, rows + row, mode)
      {
        RowAdvance(band.rows, rows, row, rowBytes);
        var samples := rest[..rowBytes];
        var written := WriteRow(samples);
        if written.Err? {
          return written;
        }
        RowAppended(base, done, samples, rest[rowBytes..], rowBytes, rows + row, mode);
        assert rest == samples + rest[rowBytes..];
        done, rest, row := done + samples, rest[rowBytes..], row + 1;
      }
      assert done == before + band.pixels;
      r := Ok(());
    }

    method Poison(error: IoError) returns (r: IoResult<()>)
      modifies this`poisoned
      ensures r == Err(error) && poisoned == Some(Reworded(error))
    {
      poisoned := Some(Reworded(error));
      r := Err(error);
    }

    /** Appends one band. After the first error the stream is never touched again. */
    method Push(band: ImageBand) returns (r: IoResult<()>)
      requires Valid()
      modifies this, stream
      ensures Valid()
      ensures old(poisoned).Some? ==> r == Err(old(poisoned).value) && poisoned == old(poisoned)
                                      && stream.calls == old(stream.calls) && stream.content == old(stream.content)
      ensures r.Ok? ==> poisoned.None? && pushed == old(pushed) + [band] && Admissible(old(pushed), mode, band)
                        && |stream.content| >= |old(stream.content)|
      ensures r.Err? ==> pushed == old(pushed) && poisoned == Some(Reworded(r.error))
      ensures r.Err? && old(poisoned).None? ==> stream.broken || !Admissible(old(pushed), mode, band)
      ensures old(stream.broken) == stream.broken || r.Err?
    {
      hide File, EncodedRows, AllPixels, Stride, RowBytes, RowTotal, ByteTotal, Signed, Geometry, Accumulate,
        AllAdmissible;
      if poisoned.Some? {
        return Err(poisoned.value);
      }
      var geometry := Geometry(band, mode);
      if geometry.Err? {
        r := Poison(geometry.error);
        return;
      }
      if width.Some? && width.value != band.width {
        r := Poison(Fail(InvalidData, "Image band width changed"));
        return;
      }
      var rowBytes := geometry.value;
      var accumulated := Accumulate(height, bands, bytes, band.rows, |band.pixels|);
      if accumulated.Err? {
        r := Poison(accumulated.error);
        return;
      }
      assert Admissible(pushed, mode, band);
      var written := Emit(band, rowBytes);
      if written.Err? {
        r := Poison(written.error);
        return;
      }
      OneMoreBand(pushed, mode, band);
      height, bands, bytes := height + band.rows, bands + 1, bytes + |band.pixels|;
      pushed := pushed + [band];
      r := Ok(());
    }

    /** The header, if this is the first band, and the band's rows. */
    method Emit(band: ImageBand, rowBytes: nat) returns (r: IoResult<()>)
      requires Valid() && poisoned.None? && Admissible(pushed, mode, band) && rowBytes == RowBytes(band.width, mode)
      modifies stream, this`headerWritten, this`width, this`rowStride
      ensures Uncommitted(stream) && (r.Err? ==> stream.broken)
      ensures r.Ok? ==> AllAdmissible(pushed + [band], mode)
                        && Healthy(stream) && stream.position == |stream.content|
                        && stream.content == Unfinished(mode, pixelsPerMetre, pushed + [band])
                        && width == Some(band.width) && headerWritten && rowStride == Stride(rowBytes)
                        && |stream.content| >= |old(stream.content)|
    {
      hide File, EncodedRows, AllPixels, Stride, RowBytes, RowTotal, ByteTotal, Signed, Geometry, Accumulate,
        AllAdmissible;
      ghost var all := pushed + [band];
      OneMoreBand(pushed, mode, band);
      Opened(mode, pixelsPerMetre, pushed, band);
      AdmissibleShape(all, mode);
      assert all[0].width == band.width;
      if width.None? {
        var started := WriteInitialHeader(band.width);
        if started.Err? {
          return started;
        }
        width := Some(band.width);
        rowStride := Stride(rowBytes);
      }
      ghost var base := File(mode, pixelsPerMetre, band.width, BLANK, []);
      r := WriteBand(band, rowBytes, base, AllPixels(pushed), RowTotal(pushed));
      FileIsBasePlusRows(mode, pixelsPerMetre, band.width, EncodedRows(AllPixels(all), rowBytes, RowTotal(all), mode));
    }

    /** Rows delivered and the exact length of the file so far. */
    method Progress() returns (rows: nat, fileBytes: nat)
      requires Valid() && poisoned.None?
      ensures rows == RowTotal(pushed) && fileBytes == |stream.content|
    {
      if pushed != [] {
        AdmissibleShape(pushed, mode);
        Fields(mode, pixelsPerMetre, pushed[0].width, BLANK,
               EncodedRows(AllPixels(pushed), RowBytes(pushed[0].width, mode), RowTotal(pushed), mode));
      }
      rows := height;
      fileBytes := if height == 0 then 0 else PixelOffset(mode) + height * rowStride;
    }

    method WriteAt(offset: nat, field: seq<Byte>) returns (r: IoResult<()>)
      requires Healthy(stream) && Uncommitted(stream) && 2 <= offset <= |stream.content|
      modifies stream
      ensures Uncommitted(stream) && (r.Err? ==> stream.broken)
      ensures r.Ok? ==> Healthy(stream) && stream.content == Overlay(old(stream.content), offset, field)
    {
      PatchIsDiscreet(stream.content, offset, field);
      var moved := stream.Seek(offset);
      if moved.Err? {
        return moved;
      }
      r := WriteBounded(stream, field);
    }

    /** Commits the file if `summary` matches what was delivered; the signature is the last write. */
    method Finish(summary: ScanSummary) returns (r: IoResult<()>)
      requires Valid()
      modifies stream
      ensures poisoned.Some? ==> r == Err(poisoned.value) && stream.calls == old(stream.calls)
      ensures poisoned.None? && (pushed == [] || summary != Summarize(pushed)) ==>
                r.Err? && stream.calls == old(stream.calls) && stream.content == old(stream.content)
      ensures poisoned.None? && pushed != [] && summary == Summarize(pushed) ==> r.Ok? || stream.broken
      ensures r.Ok? ==> pushed != [] && summary == Summarize(pushed)
                        && stream.content == Published(mode, pixelsPerMetre, pushed)
                        && stream.position == 2 && stream.signedAt == Some(stream.calls)
      // A failing writer leaves no signature, unless what failed was the last write and the file is whole.
      ensures stream.signedAt.Some? <==> Signed(stream.content)
      ensures Signed(stream.content) ==>
                poisoned.None? && pushed != [] && summary == Summarize(pushed)
                && stream.content == Published(mode, pixelsPerMetre, pushed)
    {
      if poisoned.Some? {
        return Err(poisoned.value);
      }
      if width.None? {
        return Err(Fail(InvalidData, "Cannot finish BMP without an image band"));
      }
      if !headerWritten || summary.width != width.value || summary.height != height
         || summary.bands != bands || summary.bytes != bytes
      {
        return Err(Fail(InvalidData, "BMP scan summary does not match delivered image data"));
      }
      r := Seal();
    }

    /** The size conversions and the four patches; the sizes of delivered bands always convert. */
    method Seal() returns (r: IoResult<()>)
      requires Valid() && poisoned.None? && pushed != []
      modifies stream
      ensures r.Ok? || stream.broken
      ensures r.Ok? ==> Signed(stream.content) && stream.position == 2 && stream.signedAt == Some(stream.calls)
      ensures stream.signedAt.Some? <==> Signed(stream.content)
      ensures Signed(stream.content) ==> stream.content == Published(mode, pixelsPerMetre, pushed)
    {
      hide File, EncodedRows, AllPixels, Stride, RowBytes, RowTotal, ByteTotal, Signed, ToLe32, AllAdmissible,
        Unfinished, Published, Overlay, RowsOf;
      FinalFile(pushed, mode, pixelsPerMetre);
      ImageSize(pushed, mode, rowStride, height);
      var imageSize := rowStride * height;
      var fileSize := PixelOffset(mode) + imageSize;
      if fileSize >= U32_LIMIT {
        return Err(Fail(InvalidData, "BMP file size does not fit u32"));
      }
      if height > I32_MAX {
        return Err(Fail(InvalidData, "BMP image height does not fit i32"));
      }
      r := Commit(fileSize, 0 - height as int, imageSize, pushed[0].width, RowsOf(pushed, mode));
    }

    method Commit(fileSize: U32, height: I32, imageSize: U32, ghost width: U32, ghost rows: seq<Byte>)
      returns (r: IoResult<()>)
      requires pixelsPerMetre <= I32_MAX
      requires Healthy(stream) && Uncommitted(stream)
      requires stream.content == File(mode, pixelsPerMetre, width, BLANK, rows)
      modifies stream
      ensures r.Err? ==> stream.broken
      ensures r.Ok? ==> Signed(stream.content) && stream.position == 2 && stream.signedAt == Some(stream.calls)
      ensures stream.signedAt.Some? <==> Signed(stream.content)
      ensures Signed(stream.content) ==>
                stream.content
                == File(mode, pixelsPerMetre, width, Patch(SIGNATURE, fileSize, height, imageSize), rows)
    {
      hide File, ToLe32, Overlay, Signed, Discreet;
      ghost var p0 := BLANK;
      ghost var p1 := p0.(fileSize := fileSize);
      ghost var p2 := p1.(height := height);
      ghost var p3 := p2.(imageSize := imageSize);
      PatchSteps(mode, pixelsPerMetre, width, p0, rows, fileSize, height, imageSize);
      r := WriteAt(2, ToLe32(fileSize));
      if r.Err? {
        return;
      }
      PatchSteps(mode, pixelsPerMetre, width, p1, rows, fileSize, height, imageSize);
      r := WriteAt(22, ToLe32(Pattern32(height)));
      if r.Err? {
        return;
      }
      PatchSteps(mode, pixelsPerMetre, width, p2, rows, fileSize, height, imageSize);
      r := WriteAt(34, ToLe32(imageSize));
      if r.Err? {
        return;
      }
      PatchSteps(mode, pixelsPerMetre, width, p3, rows, fileSize, height, imageSize);
      // The signature is the commit point: nothing may follow it.
      r := stream.Seek(0);
      if r.Err? {
        return;
      }
      r := WriteBounded(stream, SIGNATURE);
    }
  }

  lemma UnfinishedIsUncommitted(encoder: BmpEncoder)
    requires encoder.Valid()
    ensures Uncommitted(encoder.stream)
  {
  }

  /** `BmpEncoder::new`: only an empty stream is accepted, and nothing is written to it. */
  method NewEncoder(stream: Stream, dpi: U32, mode: ColorMode) returns (r: IoResult<BmpEncoder>)
    requires !stream.broken && stream.signedAt.None?
    modifies stream
    ensures r.Ok? ==> fresh(r.value) && r.value.Valid() && r.value.stream == stream && r.value.mode == mode
                      && DpiToPpm(dpi) == Ok(r.value.pixelsPerMetre)
                      && r.value.poisoned.None? && r.value.pushed == [] && stream.content == old(stream.content) == []
    ensures old(stream.content) != [] ==> r.Err?
    ensures r.Err? ==> stream.broken || ((DpiToPpm(dpi).Err? || old(stream.content) != []) && !r.error.hostCancelled)
    ensures stream.content == old(stream.content) && stream.signedAt == old(stream.signedAt)
  {
    var ppm := DpiToPpm(dpi);
    if ppm.Err? {
      return Err(ppm.error);
    }
    var original := stream.position;
    var end := stream.SeekEnd();
    if end.Err? {
      return Err(end.error);
    }
    if end.value != 0 {
      var _ := stream.Seek(original);
      return Err(Fail(InvalidInput, "BMP output stream must be empty"));
    }
    var encoder := new BmpEncoder(stream, ppm.value, mode);
    r := Ok(encoder);
  }

  lemma RowAppended(base: seq<Byte>, done: seq<Byte>, samples: seq<Byte>, rest: seq<Byte>, rowBytes: nat, rows: nat,
                    mode: ColorMode)
    requires |done| == rows * rowBytes && |samples| == rowBytes && WholePixels(rowBytes, mode)
    requires |done + samples| == (rows + 1) * rowBytes
    ensures base + EncodedRows(done, rowBytes, rows, mode) + EncodedRow(samples, mode)
            == base + EncodedRows(done + samples, rowBytes, rows + 1, mode)
    ensures done + (samples + rest) == done + samples + rest
  {
    hide EncodedRows, EncodedRow;
    EncodeOneMore(done, samples, rowBytes, rows, mode);
  }

  lemma RowAdvance(total: nat, before: nat, row: nat, rowBytes: nat)
    requires row < total
    ensures (total - row) * rowBytes == (total - row - 1) * rowBytes + rowBytes
    ensures (before + row + 1) * rowBytes == (before + row) * rowBytes + rowBytes
    ensures (total - row - 1) * rowBytes >= 0
  {
  }

  lemma HeaderIsDiscreet(header: seq<Byte>)
    requires |header| >= 2 && header[0] == 0
    ensures Overlay([], 0, header) == header && Discreet([], 0, header) && !Signed(header)
  {
    forall k | 0 <= k < |header|
      ensures !Signed(Overlay([], 0, header[..k]))
    {
      assert Overlay([], 0, header[..k]) == header[..k];
      assert k > 0 ==> header[..k][0] == 0;
    }
  }
}
