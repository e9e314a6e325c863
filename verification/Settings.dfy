/** The scalar WIA flatbed settings and their translation to a scan request (src/wia.rs). */
module Settings {
  import opened Basics
  import opened Wire
  import opened Tone

  datatype FlatbedSettings = FlatbedSettings(
    xResolution: I32, yResolution: I32,
    xPosition: I32, yPosition: I32,
    xExtent: I32, yExtent: I32,
    dataType: I32, depth: I32,
    brightness: I32, contrast: I32,
    compression: I32,
    format: seq<Byte>)

  /** WiaImgFmt_BMP, {B96B3CAB-0728-11D3-9D7B-0000F81EF32E}, in its in-memory byte order. */
  const BMP_FORMAT: seq<Byte> :=
    [0xab, 0x3c, 0x6b, 0xb9, 0x28, 0x07, 0xd3, 0x11, 0x9d, 0x7b, 0x00, 0x00, 0xf8, 0x1e, 0xf3, 0x2e]

  const GRAYSCALE: I32 := 2
  const COLOR: I32 := 3

  predicate SupportedResolution(dpi: I32) {
    dpi in {75, 100, 150, 200, 300, 600}
  }

  /** Protocol units, 1/1200 inch, per pixel. */
  function UnitsPerPixel(dpi: I32): (u: nat)
    requires SupportedResolution(dpi)
    ensures u * dpi == 1200 && u >= 2
  {
    1200 / dpi
  }

  function PixelsToUnits(pixels: I32, dpi: I32): (r: IoResult<U32>)
    requires SupportedResolution(dpi)
  {
    if pixels < 0 then Err(Fail(InvalidInput, "WIA value must be non-negative"))
    else
      var scaled := pixels as int * 1200;
      if scaled % (dpi as int) != 0 then Err(Fail(InvalidInput, "WIA value cannot be represented"))
      else if scaled / (dpi as int) >= U32_LIMIT then Err(Fail(InvalidInput, "WIA value exceeds protocol geometry"))
      else Ok(scaled / (dpi as int))
  }

  /** Every supported resolution divides 1200, so only the sign and the width of the field matter. */
  lemma PixelsConvertExactly(pixels: I32, dpi: I32)
    requires SupportedResolution(dpi)
    ensures PixelsToUnits(pixels, dpi).Ok? <==> 0 <= pixels as int * UnitsPerPixel(dpi) < U32_LIMIT
    ensures PixelsToUnits(pixels, dpi).Ok? ==> PixelsToUnits(pixels, dpi).value == pixels as int * UnitsPerPixel(dpi)
  {
    var u := UnitsPerPixel(dpi);
    if pixels >= 0 {
      var scaled := pixels as int * 1200;
      assert scaled == dpi as int * (pixels as int * u) by {
        assert scaled == pixels as int * (u * dpi as int);
      }
      ExactQuotient(scaled, dpi as int, pixels as int * u);
    } else {
      assert pixels as int * u < 0 by {
        assert (0 - pixels as int) * u > 0;
      }
    }
  }

  function ValidateOffset(units: U32): IoResult<()> {
    if units % 12 != 0 then Err(Fail(InvalidInput, "WIA offset does not align to 1/100 inch"))
    else if units / 1200 > 255 then Err(Fail(InvalidInput, "WIA offset exceeds protocol range"))
    else Ok(())
  }

  function ValidateEnd(start: U32, extent: U32): IoResult<()> {
    if start as int + extent as int >= U32_LIMIT then Err(Fail(InvalidInput, "WIA range exceeds protocol geometry"))
    else Ok(())
  }

  function ModeFor(dataType: I32, depth: I32): Option<ColorMode> {
    if dataType == GRAYSCALE && depth == 8 then Some(Gray)
    else if dataType == COLOR && depth == 24 then Some(Rgb)
    else None
  }

  function ToneOf(s: FlatbedSettings): Tone {
    Tone(s.brightness, s.contrast)
  }

  function ToRequest(s: FlatbedSettings): IoResult<ScanRequest> {
    if !SupportedResolution(s.xResolution) || s.xResolution != s.yResolution then
      Err(Fail(InvalidInput, "WIA X/Y resolution must match and be supported"))
    else if ModeFor(s.dataType, s.depth).None? then
      Err(Fail(InvalidInput, "WIA data type/depth must be grayscale 8 bpp or color 24 bpp"))
    else if !ValidTone(ToneOf(s)) then
      Err(Fail(InvalidInput, "WIA brightness and contrast must lie within -1000..=1000"))
    else if s.compression != 0 || s.format != BMP_FORMAT then
      Err(Fail(InvalidInput, "WIA compression or format is unsupported"))
    else if s.xExtent <= 0 || s.yExtent <= 0 then
      Err(Fail(InvalidInput, "WIA extents must be positive"))
    else
      var x :- PixelsToUnits(s.xPosition, s.xResolution);
      var y :- PixelsToUnits(s.yPosition, s.yResolution);
      var width :- PixelsToUnits(s.xExtent, s.xResolution);
      var height :- PixelsToUnits(s.yExtent, s.yResolution);
      var _ :- ValidateOffset(x);
      var _ :- ValidateOffset(y);
      var _ :- ValidateEnd(x, width);
      var _ :- ValidateEnd(y, height);
      Ok(ScanRequest(s.xResolution, ModeFor(s.dataType, s.depth).value, x, y, width, height))
  }

  /** One axis of an acceptable request, in pixels: aligned to 1/100 inch and inside the protocol's fields. */
  predicate AxisConverts(position: I32, extent: I32, dpi: I32)
    requires SupportedResolution(dpi)
  {
    var u := UnitsPerPixel(dpi);
    && position >= 0 && extent > 0
    && position as int * u % 12 == 0 && position as int * u < 256 * 1200
    && position as int * u + extent as int * u < U32_LIMIT
  }

  /** Grey is type 2 with 8 bits and colour type 3 with 24; nothing is compressed and the file is a BMP. */
  predicate Formatted(s: FlatbedSettings) {
    && (s.dataType, s.depth) in {(2, 8), (3, 24)}
    && -1000 <= s.brightness <= 1000 && -1000 <= s.contrast <= 1000
    && s.compression == 0 && s.format == BMP_FORMAT
  }

  /** Exactly which settings become a request, and which request. */
  lemma RequestExactly(s: FlatbedSettings)
    requires SupportedResolution(s.xResolution)
    ensures ToRequest(s).Ok? <==>
              s.xResolution == s.yResolution && Formatted(s)
              && AxisConverts(s.xPosition, s.xExtent, s.xResolution)
              && AxisConverts(s.yPosition, s.yExtent, s.xResolution)
    ensures ToRequest(s).Ok? ==>
              var u := UnitsPerPixel(s.xResolution);
              && ToRequest(s).value.dpi == s.xResolution as int
              && ToRequest(s).value.mode == (if s.dataType == 2 then Gray else Rgb)
              && ToRequest(s).value.xUnits == s.xPosition as int * u
              && ToRequest(s).value.widthUnits == s.xExtent as int * u
              && ToRequest(s).value.yUnits == s.yPosition as int * u
              && ToRequest(s).value.heightUnits == s.yExtent as int * u
  {
    hide PixelsToUnits, UnitsPerPixel, SupportedResolution;
    var dpi := s.xResolution;
    PixelsConvertExactly(s.xPosition, dpi);
    PixelsConvertExactly(s.yPosition, dpi);
    PixelsConvertExactly(s.xExtent, dpi);
    PixelsConvertExactly(s.yExtent, dpi);
    AxisParts(s.xPosition, s.xExtent, dpi);
    AxisParts(s.yPosition, s.yExtent, dpi);
  }

  lemma AxisParts(position: I32, extent: I32, dpi: I32)
    requires SupportedResolution(dpi)
    ensures position >= 0 <==> position as int * UnitsPerPixel(dpi) >= 0
    ensures extent > 0 <==> extent as int * UnitsPerPixel(dpi) > 0
  {
  }
}
