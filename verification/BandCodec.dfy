/** Channel order: decoding a drained band, and the independent checker for it. */
module BandCodec {
  import opened Basics
  import opened Wire

  /** Where byte `i` of an interleaved row of `width` pixels sits in the planar row. */
  function PlanarIndex(width: nat, i: nat): (p: nat)
    ensures i < 3 * width ==> p < 3 * width
  {
    (if i % 3 == 0 then 0 else if i % 3 == 1 then width else 2 * width) + i / 3
  }

  function InterleavedRow(row: seq<Byte>, width: nat): (out: seq<Byte>)
    requires |row| == 3 * width
    ensures |out| == |row|
  {
    seq(3 * width, i requires 0 <= i < 3 * width => row[PlanarIndex(width, i)])
  }

  /** Row-by-row reordering of `rows` planar rows. */
  function Interleaved(raw: seq<Byte>, width: nat, rows: nat): (out: seq<Byte>)
    requires |raw| == rows * (3 * width)
    ensures |out| == |raw|
    decreases rows
  {
    if rows == 0 then []
    else
      var cut := (rows - 1) * (3 * width);
      Interleaved(raw[..cut], width, rows - 1) + InterleavedRow(raw[cut..], width)
  }

  /** `BandInfo::decode` as a function: what the drained bytes mean. */
  function Decoded(info: BandInfo, raw: seq<Byte>, mode: ColorMode, order: Byte): (r: IoResult<seq<Byte>>)
    requires info.PixelBytes(mode) <= info.length
    ensures r.Err? ==> !r.error.hostCancelled
  {
    if |raw| != info.length || (mode.Rgb? && order > 1) then
      Err(Fail(InvalidData, "Incomplete image band or unsupported channel order"))
    else if mode.Rgb? && order == 1 then
      Ok(Interleaved(raw[..info.PixelBytes(mode)], info.width, info.rows))
    else
      Ok(raw[..info.PixelBytes(mode)])
  }

  method DecodeRow(input: seq<Byte>, width: nat) returns (output: seq<Byte>)
    requires |input| == 3 * width
    ensures output == InterleavedRow(input, width)
  {
    var row := new Byte[3 * width];
    for x := 0 to width
      invariant forall i :: 0 <= i < 3 * x ==> row[i] == input[PlanarIndex(width, i)]
    {
      for c := 0 to 3
        invariant forall i :: 0 <= i < 3 * x + c ==> row[i] == input[PlanarIndex(width, i)]
      {
        assert PlanarIndex(width, x * 3 + c) == c * width + x;
        row[x * 3 + c] := input[c * width + x];
      }
    }
    output := row[..];
  }

  lemma NoRows(width: nat)
    ensures Interleaved([], width, 0) == []
  {
  }

  lemma OneMoreRow(wire: seq<Byte>, width: nat, row: nat, cut: nat)
    requires cut == row * (3 * width) && cut + 3 * width <= |wire|
    ensures cut + 3 * width == (row + 1) * (3 * width)
    ensures Interleaved(wire[..cut + 3 * width], width, row + 1)
            == Interleaved(wire[..cut], width, row) + InterleavedRow(wire[cut..][..3 * width], width)
  {
    hide InterleavedRow;
    NextRow(row, row + 1, 3 * width);
    var longer := wire[..cut + 3 * width];
    assert longer[..cut] == wire[..cut] && longer[cut..] == wire[cut..][..3 * width];
  }

  method Decode(info: BandInfo, raw: seq<Byte>, mode: ColorMode, order: Byte) returns (r: IoResult<seq<Byte>>)
    requires info.PixelBytes(mode) <= info.length
    ensures r == Decoded(info, raw, mode, order)
  {
    if |raw| != info.length || (mode.Rgb? && order > 1) {
      return Err(Fail(InvalidData, "Incomplete image band or unsupported channel order"));
    }
    hide Interleaved, InterleavedRow;
    var size := info.PixelBytes(mode);
    var pixels := raw[..size];
    if mode.Rgb? && order == 1 {
      var stride := 3 * info.width;
      var input := pixels;
      ghost var wire := pixels;
      pixels := [];
      var row := 0;
      NoRows(info.width);
      while row < info.rows
        invariant 0 <= row <= info.rows
        invariant |wire| == info.rows * stride && row * stride <= |wire|
        invariant input == wire[row * stride..]
        invariant pixels == Interleaved(wire[..row * stride], info.width, row)
      {
        NextRow(row, info.rows, stride);
        var output := DecodeRow(input[..stride], info.width);
        OneMoreRow(wire, info.width, row, row * stride);
        pixels, input, row := pixels + output, input[stride..], row + 1;
      }
      assert wire[..row * stride] == wire;
    }
    r := Ok(pixels);
  }

  lemma NextRow(row: nat, rows: nat, stride: nat)
    requires row < rows
    ensures (row + 1) * stride == row * stride + stride <= rows * stride
  {
    assert rows * stride - (row + 1) * stride == (rows - row - 1) * stride;
  }

  // ---- The independent checker (examples/scan_stability.rs, verify_band) ----

  predicate Addressable(band: ImageBand) {
    && band.width > 0 && band.rows > 0
    && |band.pixels| == band.width * band.rows * band.mode.Channels()
    && |band.pixels| <= |band.wireData|
  }

  lemma InBounds(width: nat, rows: nat, row: nat, x: nat, channel: nat)
    requires row < rows && x < width && channel < 3
    ensures 0 <= row * width * 3 + channel * width + x < width * rows * 3
    ensures 0 <= (row * width + x) * 3 + channel < width * rows * 3
    ensures (row * width + x) * 3 + channel == row * (3 * width) + (3 * x + channel)
    ensures row * width * 3 + channel * width + x == row * (3 * width) + PlanarIndex(width, 3 * x + channel)
  {
    NextRow(row, rows, width);
    assert width * rows * 3 >= (row * width + width) * 3;
    assert channel * width <= 2 * width;
  }

  /** Sample by sample, as the checker addresses them. */
  predicate SamplesMatch(band: ImageBand, row: nat, x: nat, channel: nat)
    requires Addressable(band) && band.mode.Rgb?
    requires row < band.rows && x < band.width && channel < 3
  {
    InBounds(band.width, band.rows, row, x, channel);
    band.pixels[(row * band.width + x) * 3 + channel]
      == band.wireData[row * band.width * 3 + channel * band.width + x]
  }

  predicate Verified(mode: ColorMode, order: Byte, band: ImageBand) {
    && band.mode == mode
    && !(mode.Rgb? && order > 1)
    && Addressable(band)
    && if mode.Rgb? && order == 1 then
         forall row: nat, x: nat, channel: nat | row < band.rows && x < band.width && channel < 3 ::
           SamplesMatch(band, row, x, channel)
       else
         band.pixels == band.wireData[..|band.pixels|]
  }

  lemma SamplesCompared(band: ImageBand, row: nat, x: nat, channel: nat)
    requires Addressable(band) && band.mode.Rgb?
    requires row < band.rows && x < band.width && channel < 3
    requires (row * band.width + x) * 3 + channel < |band.pixels|
    requires row * band.width * 3 + channel * band.width + x < |band.wireData|
    ensures SamplesMatch(band, row, x, channel) <==>
              band.pixels[(row * band.width + x) * 3 + channel]
              == band.wireData[row * band.width * 3 + channel * band.width + x]
  {
  }

  method VerifyBand(mode: ColorMode, order: Byte, band: ImageBand) returns (accepted: bool)
    ensures accepted <==> Verified(mode, order, band)
  {
    if band.mode != mode || (mode.Rgb? && order > 1) || !Addressable(band) {
      return false;
    }
    hide SamplesMatch;
    if mode.Gray? || order == 0 {
      return band.pixels == band.wireData[..|band.pixels|];
    }
    for row := 0 to band.rows
      invariant forall r: nat, x: nat, c: nat | r < row && x < band.width && c < 3 :: SamplesMatch(band, r, x, c)
    {
      for x := 0 to band.width
        invariant forall x': nat, c: nat | x' < x && c < 3 :: SamplesMatch(band, row, x', c)
      {
        for channel := 0 to 3
          invariant forall c: nat | c < channel :: SamplesMatch(band, row, x, c)
        {
          InBounds(band.width, band.rows, row, x, channel);
          SamplesCompared(band, row, x, channel);
          if band.pixels[(row * band.width + x) * 3 + channel]
             != band.wireData[row * band.width * 3 + channel * band.width + x]
          {
            return false;
          }
        }
      }
    }
    accepted := true;
  }

  lemma {:induction false} InterleavedAt(raw: seq<Byte>, width: nat, rows: nat, row: nat, i: nat)
    requires |raw| == rows * (3 * width) && row < rows && i < 3 * width
    ensures row * (3 * width) + 3 * width <= |raw|
    ensures Interleaved(raw, width, rows)[row * (3 * width) + i] == raw[row * (3 * width) + PlanarIndex(width, i)]
    decreases rows
  {
    hide Interleaved, PlanarIndex;
    NextRow(row, rows, 3 * width);
    var cut := (rows - 1) * (3 * width);
    if row < rows - 1 {
      NextRow(row, rows - 1, 3 * width);
      InEarlierRows(raw, width, rows, cut, row * (3 * width) + i);
      InterleavedAt(raw[..cut], width, rows - 1, row, i);
      assert row * (3 * width) + PlanarIndex(width, i) < cut;
    } else {
      InLastRow(raw, width, rows, cut, i);
    }
  }

  lemma InEarlierRows(raw: seq<Byte>, width: nat, rows: nat, cut: nat, k: nat)
    requires rows > 0 && |raw| == rows * (3 * width) && cut == (rows - 1) * (3 * width) && k < cut
    ensures cut < |raw| && Interleaved(raw, width, rows)[k] == Interleaved(raw[..cut], width, rows - 1)[k]
  {
    NextRow(rows - 1, rows, 3 * width);
    hide InterleavedRow;
  }

  lemma InLastRow(raw: seq<Byte>, width: nat, rows: nat, cut: nat, i: nat)
    requires rows > 0 && |raw| == rows * (3 * width) && cut == (rows - 1) * (3 * width) && i < 3 * width
    ensures cut + 3 * width == |raw| && Interleaved(raw, width, rows)[cut + i] == raw[cut + PlanarIndex(width, i)]
  {
    NextRow(rows - 1, rows, 3 * width);
    hide PlanarIndex;
    assert Interleaved(raw, width, rows)[cut + i] == InterleavedRow(raw[cut..], width)[i];
  }

  lemma SampleDecides(band: ImageBand, wire: seq<Byte>, row: nat, x: nat, channel: nat)
    requires Addressable(band) && band.mode.Rgb?
    requires wire == band.wireData[..|band.pixels|] && |wire| == band.rows * (3 * band.width)
    requires row < band.rows && x < band.width && channel < 3
    ensures 0 <= row * (3 * band.width) + (3 * x + channel) < |wire|
    ensures SamplesMatch(band, row, x, channel)
            <==> band.pixels[row * (3 * band.width) + (3 * x + channel)]
                 == Interleaved(wire, band.width, band.rows)[row * (3 * band.width) + (3 * x + channel)]
  {
    hide Interleaved, InterleavedRow, PlanarIndex;
    var k := row * (3 * band.width) + (3 * x + channel);
    var p := row * (3 * band.width) + PlanarIndex(band.width, 3 * x + channel);
    InterleavedAt(wire, band.width, band.rows, row, 3 * x + channel);
    InBounds(band.width, band.rows, row, x, channel);
    assert Interleaved(wire, band.width, band.rows)[k] == wire[p] == band.wireData[p];
    assert SamplesMatch(band, row, x, channel) <==> band.pixels[k] == band.wireData[p];
  }

  lemma PlanarSamplesDecide(band: ImageBand, wire: seq<Byte>)
    requires Addressable(band) && band.mode.Rgb?
    requires wire == band.wireData[..|band.pixels|] && |wire| == band.rows * (3 * band.width)
    ensures Verified(Rgb, 1, band) <==> band.pixels == Interleaved(wire, band.width, band.rows)
  {
    hide Interleaved, InterleavedRow, PlanarIndex;
    var expected := Interleaved(wire, band.width, band.rows);
    if Verified(Rgb, 1, band) {
      forall k | 0 <= k < |expected|
        ensures band.pixels[k] == expected[k]
      {
        var (row, i) := RowOf(k, band.width, band.rows);
        SampleDecides(band, wire, row, i / 3, i % 3);
        assert SamplesMatch(band, row, i / 3, i % 3);
      }
    }
    if band.pixels == expected {
      forall row: nat, x: nat, channel: nat | row < band.rows && x < band.width && channel < 3
        ensures SamplesMatch(band, row, x, channel)
      {
        SampleDecides(band, wire, row, x, channel);
      }
    }
  }

  /** Whatever `Decode` returns passes the checker, and the checker accepts nothing else. */
  lemma VerifiedExactlyWhenDecoded(info: BandInfo, mode: ColorMode, order: Byte, raw: seq<Byte>, pixels: seq<Byte>)
    requires ValidBand(info, mode) && |raw| == info.length
    ensures Verified(mode, order, ImageBand(info.width, info.rows, mode, pixels, raw))
            <==> Decoded(info, raw, mode, order) == Ok(pixels)
  {
    var band := ImageBand(info.width, info.rows, mode, pixels, raw);
    var wire := raw[..info.PixelBytes(mode)];
    if mode.Rgb? && order == 1 && |pixels| == |wire| {
      PlanarSamplesDecide(band, wire);
    }
  }

  function RowOf(k: nat, width: nat, rows: nat): (at: (nat, nat))
    requires k < rows * (3 * width)
    ensures at.0 < rows && at.1 < 3 * width && k == at.0 * (3 * width) + at.1
    decreases rows
  {
    if k >= (rows - 1) * (3 * width) then (rows - 1, k - (rows - 1) * (3 * width))
    else RowOf(k, width, rows - 1)
  }

  // ---- Reordering a row loses nothing ----

  /** The planar row that `InterleavedRow` came from. */
  function PlanarRow(row: seq<Byte>, width: nat): (out: seq<Byte>)
    requires |row| == 3 * width
    ensures |out| == |row|
  {
    seq(width, x requires 0 <= x < width => row[3 * x])
    + seq(width, x requires 0 <= x < width => row[3 * x + 1])
    + seq(width, x requires 0 <= x < width => row[3 * x + 2])
  }

  /** The inverse of `PlanarIndex`. */
  function InterleavedIndex(width: nat, p: nat): (i: nat)
    requires p < 3 * width
    ensures i < 3 * width && PlanarIndex(width, i) == p
  {
    if p < width then 3 * p else if p < 2 * width then 3 * (p - width) + 1 else 3 * (p - 2 * width) + 2
  }

  lemma PlanarRowAt(row: seq<Byte>, width: nat, p: nat)
    requires |row| == 3 * width && p < 3 * width
    ensures PlanarRow(row, width)[p] == row[InterleavedIndex(width, p)]
  {
  }

  lemma RowReorderingIsInvertible(row: seq<Byte>, width: nat)
    requires |row| == 3 * width
    ensures PlanarRow(InterleavedRow(row, width), width) == row
    ensures InterleavedRow(PlanarRow(row, width), width) == row
  {
    hide PlanarRow;
    forall p | 0 <= p < 3 * width
      ensures PlanarRow(InterleavedRow(row, width), width)[p] == row[p]
    {
      PlanarRowAt(InterleavedRow(row, width), width, p);
    }
    forall i | 0 <= i < 3 * width
      ensures InterleavedRow(PlanarRow(row, width), width)[i] == row[i]
    {
      PlanarRowAt(row, width, PlanarIndex(width, i));
    }
  }

  /** A row without the last pixel of each plane. */
  function DropPixel(row: seq<Byte>, width: nat): (small: seq<Byte>)
    requires |row| == 3 * (width + 1)
    ensures |small| == 3 * width
  {
    row[..width] + row[width + 1..2 * width + 1] + row[2 * width + 2..3 * width + 2]
  }

  lemma LastPixelGoesLast(row: seq<Byte>, width: nat)
    requires |row| == 3 * (width + 1)
    ensures InterleavedRow(row, width + 1)
            == InterleavedRow(DropPixel(row, width), width) + [row[width], row[2 * width + 1], row[3 * width + 2]]
  {
    var small := DropPixel(row, width);
    forall i | 0 <= i < 3 * width
      ensures InterleavedRow(row, width + 1)[i] == InterleavedRow(small, width)[i]
    {
      assert small[PlanarIndex(width, i)] == row[PlanarIndex(width + 1, i)];
    }
  }

  /** Each decoded row holds exactly the samples of the same wire row, reordered. */
  lemma {:induction false} RowReorderingIsAPermutation(row: seq<Byte>, width: nat)
    requires |row| == 3 * width
    ensures multiset(InterleavedRow(row, width)) == multiset(row)
    decreases width
  {
    hide InterleavedRow, PlanarIndex;
    if width == 0 {
      assert row == InterleavedRow(row, width) == [];
    } else {
      var w := width - 1;
      RowReorderingIsAPermutation(DropPixel(row, w), w);
      LastPixelGoesLast(row, w);
      assert row == row[..w] + [row[w]] + row[w + 1..2 * w + 1] + [row[2 * w + 1]]
                    + row[2 * w + 2..3 * w + 2] + [row[3 * w + 2]];
    }
  }
}
