/** The BMP file as a value: what the encoder's stream must hold, and a reader for it. */
module Bmp {
  import opened Basics
  import opened Wire

  // ---- Rows ----

  /** `row_bytes + 3 & !3`. */
  function Stride(rowBytes: nat): (s: nat)
    ensures rowBytes <= s < rowBytes + 4 && s % 4 == 0
  {
    (rowBytes + 3) / 4 * 4
  }

  /** The mirror position inside a pixel triple; BGR and RGB are each other's swap. */
  function Mirror(i: nat): nat {
    if i % 3 == 0 then i + 2 else if i % 3 == 1 then i else i - 2
  }

  function Swapped(row: seq<Byte>): (out: seq<Byte>)
    requires |row| % 3 == 0
    ensures |out| == |row|
  {
    seq(|row|, i requires 0 <= i < |row| => row[Mirror(i)])
  }

  lemma SwapTwice(row: seq<Byte>)
    requires |row| % 3 == 0
    ensures Swapped(Swapped(row)) == row
  {
  }

  predicate WholePixels(bytes: nat, mode: ColorMode) {
    mode.Gray? || bytes % 3 == 0
  }

  function RowBytes(width: nat, mode: ColorMode): (n: nat)
    ensures WholePixels(n, mode) && n == width * mode.Channels()
  {
    if mode.Gray? then width else 3 * width
  }

  lemma LastRow(rows: nat, rowBytes: nat)
    requires rows > 0
    ensures 0 <= (rows - 1) * rowBytes == rows * rowBytes - rowBytes
  {
  }

  function InFileOrder(row: seq<Byte>, mode: ColorMode): (out: seq<Byte>)
    requires WholePixels(|row|, mode)
    ensures |out| == |row|
  {
    if mode.Gray? then row else Swapped(row)
  }

  function Zeros(n: nat): (z: seq<Byte>)
    ensures |z| == n && forall i :: 0 <= i < n ==> z[i] == 0
  {
    seq(n, _ => 0)
  }

  function EncodedRow(row: seq<Byte>, mode: ColorMode): (out: seq<Byte>)
    requires WholePixels(|row|, mode)
    ensures |out| == Stride(|row|)
  {
    InFileOrder(row, mode) + Zeros(Stride(|row|) - |row|)
  }

  /** `rows` rows of samples in file order, each padded to its stride. */
  function EncodedRows(pixels: seq<Byte>, rowBytes: nat, rows: nat, mode: ColorMode): (out: seq<Byte>)
    requires |pixels| == rows * rowBytes && WholePixels(rowBytes, mode)
    ensures |out| == rows * Stride(rowBytes)
    decreases rows
  {
    if rows == 0 then []
    else
      LastRow(rows, rowBytes);
      var cut := (rows - 1) * rowBytes;
      LastRow(rows, Stride(rowBytes));
      EncodedRows(pixels[..cut], rowBytes, rows - 1, mode) + EncodedRow(pixels[cut..], mode)
  }

  lemma EncodeOneMore(pixels: seq<Byte>, row: seq<Byte>, rowBytes: nat, rows: nat, mode: ColorMode)
    requires |pixels| == rows * rowBytes && |row| == rowBytes && WholePixels(rowBytes, mode)
    ensures |pixels + row| == (rows + 1) * rowBytes
    ensures EncodedRows(pixels + row, rowBytes, rows + 1, mode)
            == EncodedRows(pixels, rowBytes, rows, mode) + EncodedRow(row, mode)
  {
    assert (pixels + row)[..|pixels|] == pixels && (pixels + row)[|pixels|..] == row;
  }

  // ---- Headers ----

  const FILE_HEADER_BYTES := 14
  const INFO_HEADER_BYTES := 40
  const GRAY_PALETTE_BYTES := 1024

  function PixelOffset(mode: ColorMode): nat {
    FILE_HEADER_BYTES + INFO_HEADER_BYTES + if mode.Gray? then GRAY_PALETTE_BYTES else 0
  }

  /** 256 grey entries: blue, green, red, reserved. */
  function Palette(mode: ColorMode): (p: seq<Byte>)
    ensures |p| == if mode.Gray? then GRAY_PALETTE_BYTES else 0
  {
    if mode.Gray? then seq(1024, i requires 0 <= i < 1024 => if i % 4 == 3 then 0 else i / 4) else []
  }

  /** The fields `finish` patches. */
  datatype Patch = Patch(signature: seq<Byte>, fileSize: U32, height: I32, imageSize: U32)

  const BLANK := Patch([0, 0], 0, 0, 0)

  function FileHeader(mode: ColorMode, p: Patch): (h: seq<Byte>)
    requires |p.signature| == 2
    ensures |h| == FILE_HEADER_BYTES
  {
    p.signature + ToLe32(p.fileSize) + [0, 0, 0, 0] + ToLe32(PixelOffset(mode))
  }

  function InfoHeader(mode: ColorMode, ppm: U32, width: U32, p: Patch): (h: seq<Byte>)
    ensures |h| == INFO_HEADER_BYTES
  {
    ToLe32(40) + ToLe32(width) + ToLe32(Pattern32(p.height)) + [1, 0, if mode.Gray? then 8 else 24, 0]
    + ToLe32(0) + ToLe32(p.imageSize) + ToLe32(ppm) + ToLe32(ppm)
    + ToLe32(if mode.Gray? then 256 else 0) + ToLe32(0)
  }

  /** A whole file, with `p` in the patched fields. */
  function File(mode: ColorMode, ppm: U32, width: U32, p: Patch, rows: seq<Byte>): seq<Byte>
    requires |p.signature| == 2
  {
    FileHeader(mode, p) + InfoHeader(mode, ppm, width, p) + Palette(mode) + rows
  }

  /** The patched fields and what lies between them. */
  lemma Fields(mode: ColorMode, ppm: U32, width: U32, p: Patch, rows: seq<Byte>)
    requires |p.signature| == 2
    ensures var f := File(mode, ppm, width, p, rows);
            && |f| == PixelOffset(mode) + |rows|
            && f[..2] == p.signature && f[2..6] == ToLe32(p.fileSize)
            && f[6..22] == [0, 0, 0, 0] + ToLe32(PixelOffset(mode)) + ToLe32(40) + ToLe32(width)
            && f[22..26] == ToLe32(Pattern32(p.height))
            && f[26..34] == [1, 0, if mode.Gray? then 8 else 24, 0] + ToLe32(0)
            && f[34..38] == ToLe32(p.imageSize)
            && f[38..54] == ToLe32(ppm) + ToLe32(ppm) + ToLe32(if mode.Gray? then 256 else 0) + ToLe32(0)
            && f[54..PixelOffset(mode)] == Palette(mode)
            && f[PixelOffset(mode)..] == rows
  {
    hide ToLe32, Palette;
    var h, i := FileHeader(mode, p), InfoHeader(mode, ppm, width, p);
    var f := File(mode, ppm, width, p, rows);
    assert f[..14] == h && f[14..54] == i;
    assert h[2..6] == ToLe32(p.fileSize) && h[6..14] == [0, 0, 0, 0] + ToLe32(PixelOffset(mode));
    assert i[..8] == ToLe32(40) + ToLe32(width) && i[8..12] == ToLe32(Pattern32(p.height));
    assert i[12..20] == [1, 0, if mode.Gray? then 8 else 24, 0] + ToLe32(0) && i[20..24] == ToLe32(p.imageSize);
    assert i[24..] == ToLe32(ppm) + ToLe32(ppm) + ToLe32(if mode.Gray? then 256 else 0) + ToLe32(0);
    assert f[6..22] == h[6..14] + i[..8];
    assert f[2..6] == h[2..6] && f[22..26] == i[8..12] && f[26..34] == i[12..20] && f[34..38] == i[20..24];
    assert f[38..54] == i[24..];
  }

  // ---- Reading a BMP file back ----

  /** The reader knows the file format only: nothing below uses the writer's layout. */
  datatype Picture = Picture(mode: ColorMode, ppm: U32, width: nat, height: nat, pixels: seq<Byte>)

  /** A colour as it is shown. */
  datatype Colour = Colour(red: Byte, green: Byte, blue: Byte)

  /** Four bytes, least significant first. */
  function Number(f: seq<Byte>, at: nat): nat
    requires at + 4 <= |f|
  {
    f[at] as int + 0x100 * f[at + 1] as int + 0x1_0000 * f[at + 2] as int + 0x100_0000 * f[at + 3] as int
  }

  function SignedNumber(f: seq<Byte>, at: nat): int
    requires at + 4 <= |f|
  {
    if Number(f, at) < 0x8000_0000 then Number(f, at) else Number(f, at) - 0x1_0000_0000
  }

  function BitsPerPixel(mode: ColorMode): nat {
    if mode.Gray? then 8 else 24
  }

  /** The length of a scan line: whole 32-bit words. */
  function LineSize(width: nat, mode: ColorMode): nat {
    (width * BitsPerPixel(mode) + 31) / 32 * 4
  }

  lemma LineHoldsPixels(width: nat, mode: ColorMode)
    ensures LineSize(width, mode) >= width * mode.Channels()
  {
  }

  /** Pixel `x` of a line. A palette entry and a 24-bit pixel both go blue, green, red. */
  function Shown(palette: seq<Byte>, line: seq<Byte>, x: nat, mode: ColorMode): Colour
    requires if mode.Gray? then x < |line| && |palette| == 1024 else 3 * x + 2 < |line|
  {
    if mode.Gray? then
      var entry := 4 * line[x] as int;
      Colour(palette[entry + 2], palette[entry + 1], palette[entry])
    else Colour(line[3 * x + 2], line[3 * x + 1], line[3 * x])
  }

  /** The samples of a line: one grey level, or red, green and blue, per pixel. */
  function ReadLine(palette: seq<Byte>, line: seq<Byte>, width: nat, mode: ColorMode): (samples: seq<Byte>)
    requires |line| == LineSize(width, mode) && (mode.Gray? ==> |palette| == 1024)
    ensures |samples| == RowBytes(width, mode)
  {
    LineHoldsPixels(width, mode);
    if mode.Gray? then seq(width, x requires 0 <= x < width => Shown(palette, line, x, mode).green)
    else
      seq(3 * width, i requires 0 <= i < 3 * width =>
        var colour := Shown(palette, line, i / 3, mode);
        if i % 3 == 0 then colour.red else if i % 3 == 1 then colour.green else colour.blue)
  }

  function ReadRows(palette: seq<Byte>, body: seq<Byte>, width: nat, rows: nat, mode: ColorMode): (pixels: seq<Byte>)
    requires |body| == rows * LineSize(width, mode) && (mode.Gray? ==> |palette| == 1024)
    decreases rows
  {
    if rows == 0 then []
    else
      LastRow(rows, LineSize(width, mode));
      var cut := (rows - 1) * LineSize(width, mode);
      ReadRows(palette, body[..cut], width, rows - 1, mode) + ReadLine(palette, body[cut..], width, mode)
  }

  /** Every entry of the palette is a grey: as much red as green as blue. */
  predicate GreyPalette(palette: seq<Byte>)
    requires |palette| == 1024
  {
    forall v: nat :: v < 256 ==> palette[4 * v] == palette[4 * v + 1] == palette[4 * v + 2]
  }

  datatype Head = Head(
    fileSize: nat, offset: nat, infoSize: nat, width: int, height: int, planes: nat, bits: nat, compression: nat,
    imageSize: nat, ppm: nat)

  function ReadHead(f: seq<Byte>): Head
    requires |f| >= 54
  {
    Head(Number(f, 2), Number(f, 10), Number(f, 14), SignedNumber(f, 18), SignedNumber(f, 22),
         f[26] as int + 0x100 * f[27] as int, f[28] as int + 0x100 * f[29] as int,
         Number(f, 30), Number(f, 34), Number(f, 38))
  }

  /** A strict reader: one plane, uncompressed, rows from the top, 8-bit greys or 24-bit colour. */
  function ReadBmp(f: seq<Byte>): Option<Picture> {
    if |f| < 54 || f[0] != 'B' as int || f[1] != 'M' as int then None
    else
      var h := ReadHead(f);
      if h.fileSize != |f| || h.infoSize != 40 || h.width <= 0 || h.height >= 0
         || h.planes != 1 || h.compression != 0 || h.bits !in {8, 24} || h.ppm >= U32_LIMIT
      then None
      else
        var mode := if h.bits == 8 then Gray else Rgb;
        var width, height := h.width, 0 - h.height;
        if h.offset != (if mode.Gray? then 54 + 4 * 256 else 54) || |f| < h.offset
           || (mode.Gray? && !GreyPalette(f[54..h.offset]))
           || |f| - h.offset != height * LineSize(width, mode) || h.imageSize != |f| - h.offset
        then None
        else
          Some(Picture(mode, h.ppm, width, height, ReadRows(f[54..h.offset], f[h.offset..], width, height, mode)))
  }

  // ---- What the writer wrote, the reader reads ----

  lemma LineIsStride(width: nat, mode: ColorMode)
    ensures LineSize(width, mode) == Stride(RowBytes(width, mode))
  {
  }

  /** Level `v` of the palette shows as grey `v`. */
  lemma PaletteShowsGreys(v: Byte)
    ensures Palette(Gray)[4 * v] == Palette(Gray)[4 * v + 1] == Palette(Gray)[4 * v + 2] == v
    ensures Palette(Gray)[4 * v + 3] == 0
  {
  }

  lemma LineRoundTrip(row: seq<Byte>, width: nat, mode: ColorMode)
    requires |row| == RowBytes(width, mode)
    ensures |EncodedRow(row, mode)| == LineSize(width, mode)
    ensures ReadLine(Palette(mode), EncodedRow(row, mode), width, mode) == row
  {
    hide Palette, LineSize, EncodedRow, Shown, Stride;
    LineIsStride(width, mode);
    LineHoldsPixels(width, mode);
    var line := EncodedRow(row, mode);
    var read := ReadLine(Palette(mode), line, width, mode);
    forall i | 0 <= i < |row|
      ensures read[i] == row[i]
    {
      if mode.Gray? {
        GreyShows(row, i);
      } else {
        ColourShows(row, i / 3);
      }
    }
  }

  lemma GreyShows(row: seq<Byte>, x: nat)
    requires x < |row|
    ensures Shown(Palette(Gray), EncodedRow(row, Gray), x, Gray) == Colour(row[x], row[x], row[x])
  {
    hide Palette;
    PaletteShowsGreys(row[x]);
  }

  lemma ColourShows(row: seq<Byte>, x: nat)
    requires |row| % 3 == 0 && 3 * x + 2 < |row|
    ensures Shown([], EncodedRow(row, Rgb), x, Rgb) == Colour(row[3 * x], row[3 * x + 1], row[3 * x + 2])
  {
    hide Stride, Swapped, Zeros;
    SwappedPixel(row, x);
    var line := EncodedRow(row, Rgb);
    assert line[3 * x] == Swapped(row)[3 * x] && line[3 * x + 1] == Swapped(row)[3 * x + 1];
    assert line[3 * x + 2] == Swapped(row)[3 * x + 2];
  }

  /** In the file a pixel goes blue, green, red. */
  lemma SwappedPixel(row: seq<Byte>, x: nat)
    requires |row| % 3 == 0 && 3 * x + 2 < |row|
    ensures Swapped(row)[3 * x] == row[3 * x + 2] && Swapped(row)[3 * x + 1] == row[3 * x + 1]
    ensures Swapped(row)[3 * x + 2] == row[3 * x]
  {
  }

  lemma {:induction false} RowsRoundTrip(pixels: seq<Byte>, width: nat, rows: nat, mode: ColorMode)
    requires |pixels| == rows * RowBytes(width, mode)
    ensures rows * Stride(RowBytes(width, mode)) == rows * LineSize(width, mode)
    ensures ReadRows(Palette(mode), EncodedRows(pixels, RowBytes(width, mode), rows, mode), width, rows, mode) == pixels
    decreases rows
  {
    hide EncodedRows, EncodedRow, ReadRows, ReadLine, Stride, WholePixels, LineSize, RowBytes, Palette;
    LineIsStride(width, mode);
    if rows == 0 {
      NoRows(width, mode);
    } else {
      var cut := EncodedLastRow(pixels, RowBytes(width, mode), rows, mode);
      var body := EncodedRows(pixels[..cut], RowBytes(width, mode), rows - 1, mode);
      var line := EncodedRow(pixels[cut..], mode);
      ReadLastRow(Palette(mode), body, line, width, rows, mode);
      RowsRoundTrip(pixels[..cut], width, rows - 1, mode);
      LineRoundTrip(pixels[cut..], width, mode);
      assert pixels[..cut] + pixels[cut..] == pixels;
    }
  }

  lemma NoRows(width: nat, mode: ColorMode)
    ensures EncodedRows([], RowBytes(width, mode), 0, mode) == [] && ReadRows(Palette(mode), [], width, 0, mode) == []
  {
  }

  lemma EncodedLastRow(pixels: seq<Byte>, rowBytes: nat, rows: nat, mode: ColorMode) returns (cut: nat)
    requires rows > 0 && |pixels| == rows * rowBytes && WholePixels(rowBytes, mode)
    ensures cut == (rows - 1) * rowBytes && |pixels| == cut + rowBytes
    ensures EncodedRows(pixels, rowBytes, rows, mode)
            == EncodedRows(pixels[..cut], rowBytes, rows - 1, mode) + EncodedRow(pixels[cut..], mode)
  {
    LastRow(rows, rowBytes);
    cut := (rows - 1) * rowBytes;
  }

  lemma ReadLastRow(palette: seq<Byte>, body: seq<Byte>, line: seq<Byte>, width: nat, rows: nat, mode: ColorMode)
    requires rows > 0 && |body| == (rows - 1) * LineSize(width, mode) && |line| == LineSize(width, mode)
    requires mode.Gray? ==> |palette| == 1024
    ensures |body + line| == rows * LineSize(width, mode)
    ensures ReadRows(palette, body + line, width, rows, mode)
            == ReadRows(palette, body, width, rows - 1, mode) + ReadLine(palette, line, width, mode)
  {
    hide ReadLine;
    LastRow(rows, LineSize(width, mode));
    assert (body + line)[..|body|] == body && (body + line)[|body|..] == line;
  }

  // ---- Where every sample is ----

  lemma RowBegins(row: nat, rows: nat, size: nat)
    requires row < rows
    ensures 0 <= row * size && row * size + size <= rows * size
  {
    assert (rows - row - 1) * size >= 0;
    assert rows * size == row * size + size + (rows - row - 1) * size;
  }

  /** Byte `k` of encoded row `row`. */
  lemma {:induction false} EncodedAt(pixels: seq<Byte>, rowBytes: nat, rows: nat, mode: ColorMode, row: nat, k: nat)
    requires |pixels| == rows * rowBytes && WholePixels(rowBytes, mode) && row < rows && k < Stride(rowBytes)
    ensures row * Stride(rowBytes) + k < rows * Stride(rowBytes) && row * rowBytes + rowBytes <= |pixels|
    ensures 0 <= row * rowBytes
    ensures EncodedRows(pixels, rowBytes, rows, mode)[row * Stride(rowBytes) + k]
            == EncodedRow(pixels[row * rowBytes..row * rowBytes + rowBytes], mode)[k]
    decreases rows
  {
    hide EncodedRows, EncodedRow, Stride, WholePixels;
    RowBegins(row, rows, Stride(rowBytes));
    RowBegins(row, rows, rowBytes);
    var cut := EncodedLastRow(pixels, rowBytes, rows, mode);
    LastRow(rows, Stride(rowBytes));
    if row < rows - 1 {
      RowBegins(row, rows - 1, Stride(rowBytes));
      RowBegins(row, rows - 1, rowBytes);
      EncodedAt(pixels[..cut], rowBytes, rows - 1, mode, row, k);
      assert pixels[..cut][row * rowBytes..row * rowBytes + rowBytes]
             == pixels[row * rowBytes..row * rowBytes + rowBytes];
    } else {
      assert pixels[row * rowBytes..row * rowBytes + rowBytes] == pixels[cut..];
    }
  }

  const SIGNATURE: seq<Byte> := ['B' as int, 'M' as int]

  predicate Fits(width: nat, height: nat, mode: ColorMode) {
    0 < width <= I32_MAX && height <= I32_MAX
    && PixelOffset(mode) + height * Stride(RowBytes(width, mode)) < U32_LIMIT
  }

  /** The committed file for an image. */
  function Finished(mode: ColorMode, ppm: U32, width: nat, height: nat, pixels: seq<Byte>): seq<Byte>
    requires Fits(width, height, mode) && |pixels| == height * RowBytes(width, mode)
  {
    var rows := EncodedRows(pixels, RowBytes(width, mode), height, mode);
    File(mode, ppm, width, Committed(mode, height, |rows|), rows)
  }

  function Committed(mode: ColorMode, height: nat, imageSize: nat): Patch
    requires height <= I32_MAX && PixelOffset(mode) + imageSize < U32_LIMIT
  {
    Patch(SIGNATURE, PixelOffset(mode) + imageSize, 0 - height as int, imageSize)
  }

  /** Each header field, byte by byte, least significant first. */
  lemma HeadReadsBack(mode: ColorMode, ppm: U32, width: I32, p: Patch, rows: seq<Byte>)
    requires |p.signature| == 2 && width >= 0
    ensures var f := File(mode, ppm, width, p, rows);
            && |f| >= 54
            && ReadHead(f)
               == Head(p.fileSize, if mode.Gray? then 1078 else 54, 40, width, p.height, 1, BitsPerPixel(mode), 0,
                       p.imageSize, ppm)
  {
    hide ToLe32, Palette, FileHeader, InfoHeader, File;
    Fields(mode, ppm, width, p, rows);
    var f := File(mode, ppm, width, p, rows);
    var gap, offset, size, span := [0, 0, 0, 0], ToLe32(PixelOffset(mode)), ToLe32(40), ToLe32(width);
    FieldOf(f, 6, 22, gap, offset, size + span);
    FieldOf(f, 6, 22, gap + offset, size, span);
    FieldOf(f, 6, 22, gap + offset + size, span, []);
    var shape: seq<Byte> := [1, 0, if mode.Gray? then 8 else 24, 0];
    FieldOf(f, 26, 34, [], shape, ToLe32(0));
    FieldOf(f, 26, 34, shape, ToLe32(0), []);
    var colours := ToLe32(if mode.Gray? then 256 else 0);
    FieldOf(f, 38, 54, [], ToLe32(ppm), ToLe32(ppm) + colours + ToLe32(0));
    hide Number;
    NumberAt(f, 2, p.fileSize);
    NumberAt(f, 10, PixelOffset(mode));
    NumberAt(f, 14, 40);
    NumberAt(f, 18, width);
    NumberAt(f, 22, Pattern32(p.height));
    NumberAt(f, 30, 0);
    NumberAt(f, 34, p.imageSize);
    NumberAt(f, 38, ppm);
    assert f[26..30] == shape;
    assert f[26] == shape[0] && f[27] == shape[1] && f[28] == shape[2] && f[29] == shape[3];
  }

  lemma NumberAt(f: seq<Byte>, at: nat, n: U32)
    requires at + 4 <= |f| && f[at..at + 4] == ToLe32(n)
    ensures Number(f, at) == n
  {
    hide ToLe32;
    LittleEnd(n);
    var b := f[at..at + 4];
    assert b[0] == f[at] && b[1] == f[at + 1] && b[2] == f[at + 2] && b[3] == f[at + 3];
  }

  lemma LittleEnd(n: U32)
    ensures Number(ToLe32(n), 0) == n as int
  {
  }

  /** A field inside a larger piece of the file. */
  lemma FieldOf(f: seq<Byte>, from: nat, to: nat, before: seq<Byte>, field: seq<Byte>, after: seq<Byte>)
    requires from <= to <= |f| && f[from..to] == before + field + after
    ensures f[from + |before|..from + |before| + |field|] == field
  {
    var piece := f[from..to];
    forall k | 0 <= k < |field|
      ensures f[from + |before| + k] == field[k]
    {
      assert piece[|before| + k] == field[k];
    }
  }

  lemma PaletteIsGrey()
    ensures GreyPalette(Palette(Gray))
  {
  }

  /** Reading a committed file gives back exactly the image. */
  lemma FinishedReadsBack(mode: ColorMode, ppm: U32, width: nat, height: nat, pixels: seq<Byte>)
    requires Fits(width, height, mode) && 0 < height && |pixels| == height * RowBytes(width, mode)
    ensures ReadBmp(Finished(mode, ppm, width, height, pixels)) == Some(Picture(mode, ppm, width, height, pixels))
  {
    hide EncodedRows, ReadRows, ReadHead, Palette, File, Stride, GreyPalette, LineSize;
    var rowBytes := RowBytes(width, mode);
    var rows := EncodedRows(pixels, rowBytes, height, mode);
    var p := Committed(mode, height, |rows|);
    HeadReadsBack(mode, ppm, width, p, rows);
    Fields(mode, ppm, width, p, rows);
    PaletteIsGrey();
    var f := File(mode, ppm, width, p, rows);
    assert f[0] == f[..2][0] && f[1] == f[..2][1];
    RowsRoundTrip(pixels, width, height, mode);
  }

  /** Where each sample of a committed colour file is: rows from the top, blue before green before red. */
  lemma ColourSampleInFile(ppm: U32, width: nat, height: nat, pixels: seq<Byte>, row: nat, x: nat, channel: nat)
    requires Fits(width, height, Rgb) && |pixels| == height * (3 * width)
    requires row < height && x < width && channel < 3
    ensures var f, at := Finished(Rgb, ppm, width, height, pixels), 54 + row * LineSize(width, Rgb) + 3 * x + channel;
            && 0 <= at < |f| && 0 <= row * (3 * width) && row * (3 * width) + 3 * x + 2 < |pixels|
            && f[at] == pixels[row * (3 * width) + 3 * x + 2 - channel]
  {
    hide EncodedRows, Finished, Stride, LineSize, Swapped, Fits;
    LineIsStride(width, Rgb);
    FilePixel(Rgb, ppm, width, height, pixels, row, 3 * x + channel);
    var base := row * (3 * width);
    var samples := pixels[base..base + 3 * width];
    SwappedPixel(samples, x);
    assert samples[3 * x] == pixels[base + 3 * x] && samples[3 * x + 1] == pixels[base + 3 * x + 1];
    assert samples[3 * x + 2] == pixels[base + 3 * x + 2];
  }

  /** Where each sample of a committed grey file is, after a palette that shows level `v` as grey `v`. */
  lemma GreySampleInFile(ppm: U32, width: nat, height: nat, pixels: seq<Byte>, row: nat, x: nat, v: Byte)
    requires Fits(width, height, Gray) && |pixels| == height * width && row < height && x < width
    ensures var f, at := Finished(Gray, ppm, width, height, pixels), 1078 + row * LineSize(width, Gray) + x;
            && 0 <= at < |f| && 0 <= row * width && row * width + x < |pixels|
            && f[at] == pixels[row * width + x]
            && f[54 + 4 * v] == f[54 + 4 * v + 1] == f[54 + 4 * v + 2] == v
  {
    hide EncodedRows, File, Stride, LineSize, Palette;
    LineIsStride(width, Gray);
    FilePixel(Gray, ppm, width, height, pixels, row, x);
    PaletteShowsGreys(v);
    var rows := EncodedRows(pixels, width, height, Gray);
    var f := Finished(Gray, ppm, width, height, pixels);
    Fields(Gray, ppm, width, Committed(Gray, height, |rows|), rows);
    var palette := f[54..1078];
    assert f[54 + 4 * v] == palette[4 * v] && f[54 + 4 * v + 1] == palette[4 * v + 1];
    assert f[54 + 4 * v + 2] == palette[4 * v + 2];
  }

  lemma FilePixel(mode: ColorMode, ppm: U32, width: nat, height: nat, pixels: seq<Byte>, row: nat, k: nat)
    requires Fits(width, height, mode) && |pixels| == height * RowBytes(width, mode)
    requires row < height && k < RowBytes(width, mode)
    ensures var f, rowBytes := Finished(mode, ppm, width, height, pixels), RowBytes(width, mode);
            var at := PixelOffset(mode) + row * Stride(rowBytes) + k;
            && 0 <= row * rowBytes && row * rowBytes + rowBytes <= |pixels|
            && 0 <= at < |f|
            && f[at] == InFileOrder(pixels[row * rowBytes..row * rowBytes + rowBytes], mode)[k]
  {
    hide EncodedRows, File, InFileOrder, RowBytes;
    var rowBytes := RowBytes(width, mode);
    var rows := EncodedRows(pixels, rowBytes, height, mode);
    var f := Finished(mode, ppm, width, height, pixels);
    Fields(mode, ppm, width, Committed(mode, height, |rows|), rows);
    EncodedAt(pixels, rowBytes, height, mode, row, k);
    RowBegins(row, height, Stride(rowBytes));
    assert f[PixelOffset(mode)..][row * Stride(rowBytes) + k] == f[PixelOffset(mode) + (row * Stride(rowBytes) + k)];
  }
}
