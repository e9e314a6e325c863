/** The scanner's wire vocabulary: capability frames, the SET_WINDOW command,
    reply status, image-band metadata and channel order. */
module Wire {
  import opened Basics

  // ---- Capabilities (src/protocol.rs) ----

  datatype Capabilities = Capabilities(
    identity: seq<Byte>,
    resolutionMask: U32,
    modeMask: Byte,
    widthUnits: U32,
    lengthUnits: U32,
    flatbedLengthUnits: U32,
    lineOrder: Byte,
    compressionMask: Byte)

  const UNITS_PER_INCH := 1200

  predicate HasBit(mask: nat, weight: nat)
    requires weight > 0
  {
    mask / weight % 2 == 1
  }

  function Trim(s: seq<Byte>): seq<Byte> {
    if |s| > 0 && s[0] == 0x20 then Trim(s[1..])
    else if |s| > 0 && s[|s| - 1] == 0x20 then Trim(s[..|s| - 1])
    else s
  }

  function ParseCapabilities(b: seq<Byte>): (r: IoResult<Capabilities>)
    ensures r.Err? ==> !r.error.hostCancelled
  {
    if |b| < 4 || b[0] != 0xa8 || b[2] as int + 3 != |b| then
      Err(Fail(InvalidData, "Malformed INQUIRY response header or length"))
    else if b[1] != 0 then
      Err(Fail(InvalidData, "Device returned a non-success INQUIRY status"))
    else if |b| < 70 || b[3] != 0x10 then
      Err(Fail(InvalidData, "INQUIRY response is not a complete product-info frame"))
    else if exists i :: 4 <= i < 36 && b[i] != 0 && !(0x20 <= b[i] <= 0x7e) then
      Err(Fail(InvalidData, "INQUIRY identity contains invalid text"))
    else
      var text: seq<Byte> := seq(32, i requires 0 <= i < 32 => if b[4 + i] == 0 then 0x20 else b[4 + i]);
      var caps := Capabilities(Trim(text), (b[55] as int * 0x100 + b[36]) * 0x100 + b[37], b[39],
                               Be32(b[40..44]), Be32(b[44..48]), Be32(b[60..64]), b[49], b[50]);
      if caps.identity == [] || caps.resolutionMask == 0 || caps.modeMask == 0 || caps.widthUnits == 0
         || caps.lengthUnits == 0 || caps.flatbedLengthUnits == 0 then
        Err(Fail(InvalidData, "INQUIRY response contains empty capabilities"))
      else
        Ok(caps)
  }

  /** Recognised resolutions and the weights of their mask bits: 0, 12, 1, 4, 5, 8, 11, 15, 17, 19. */
  const RESOLUTION_TABLE: seq<(int, nat)> :=
    [(75, 1), (100, 0x1000), (150, 2), (200, 0x10), (300, 0x20), (600, 0x100), (1200, 0x800), (2400, 0x8000),
     (4800, 0x2_0000), (9600, 0x8_0000)]

  predicate Weighted(table: seq<(int, nat)>) {
    forall i :: 0 <= i < |table| ==> table[i].1 > 0
  }

  function Reported(table: seq<(int, nat)>, mask: nat): seq<int>
    requires Weighted(table)
  {
    if table == [] then []
    else (if HasBit(mask, table[0].1) then [table[0].0] else []) + Reported(table[1..], mask)
  }

  /** Recognised, reported resolutions, in table order. */
  function Resolutions(caps: Capabilities): seq<int> {
    Reported(RESOLUTION_TABLE, caps.resolutionMask)
  }

  // ---- SET_WINDOW (src/scan.rs, ScanRequest::command) ----

  datatype ColorMode = Gray | Rgb {
    function Code(): Byte {
      if Gray? then 3 else 5
    }

    function Channels(): nat {
      if Gray? then 1 else 3
    }

    /** The capability bit of this mode, `1 << code`. */
    function Weight(): nat {
      if Gray? then 8 else 32
    }
  }

  datatype ScanRequest = ScanRequest(
    dpi: U32, mode: ColorMode, xUnits: U32, yUnits: U32, widthUnits: U32, heightUnits: U32)

  function ResolutionCode(dpi: U32): Option<Byte> {
    match dpi
    case 75 => Some(0)
    case 100 => Some(10)
    case 150 => Some(2)
    case 200 => Some(9)
    case 300 => Some(5)
    case 600 => Some(7)
    case _ => None
  }

  /** `checked_add` in u32 followed by the limit test. */
  predicate Within(start: U32, size: U32, limit: U32) {
    size > 0 && start + size < U32_LIMIT && start + size <= limit
  }

  /** The image format is one the capabilities report. */
  predicate Offered(r: ScanRequest, caps: Capabilities) {
    && r.dpi in Resolutions(caps)
    && HasBit(caps.modeMask, r.mode.Weight())
    && HasBit(caps.compressionMask, 1)
    && !(r.mode.Rgb? && caps.lineOrder > 1)
  }

  /** The region is not empty, lies on the flatbed and its offsets can be sent. */
  predicate OnTheBed(r: ScanRequest, caps: Capabilities) {
    && Within(r.xUnits, r.widthUnits, caps.widthUnits)
    && Within(r.yUnits, r.heightUnits, Min(caps.flatbedLengthUnits, caps.lengthUnits))
    && r.xUnits % 12 == 0 && r.yUnits % 12 == 0
    && r.xUnits / 1200 <= 255 && r.yUnits / 1200 <= 255
  }

  function Command(r: ScanRequest, caps: Capabilities): (b: IoResult<seq<Byte>>)
    ensures b.Err? ==> !b.error.hostCancelled
  {
    match ResolutionCode(r.dpi)
    case None => Err(Fail(InvalidData, "Unsupported scan resolution"))
    case Some(code) =>
      if !Offered(r, caps) then
        Err(Fail(InvalidData, "Requested image format is not supported by reported capabilities"))
      else if !OnTheBed(r, caps) then
        Err(Fail(InvalidData, "Scan region is empty, unrepresentable or outside the flatbed"))
      else
        Ok(Window(ToBe32(r.widthUnits), ToBe32(r.heightUnits), Placement(r, code)))
  }

  /** Resolution, offsets in inches and hundredths, and mode. */
  function Placement(r: ScanRequest, code: Byte): (b: seq<Byte>)
    requires r.xUnits / 1200 <= 255 && r.yUnits / 1200 <= 255
    ensures |b| == 12
  {
    [code, code, r.xUnits / 1200, r.xUnits % 1200 / 12, r.yUnits / 1200, r.yUnits % 1200 / 12,
     r.mode.Code(), 0, 0, 2, 0x40, 0]
  }

  function Window(width: seq<Byte>, height: seq<Byte>, tail: seq<Byte>): (b: seq<Byte>)
    requires |width| == 4 && |height| == 4 && |tail| == 12
    ensures |b| == 25 && b[2] == 0x24
    ensures b[5..9] == width && b[9..13] == height && b[13..] == tail
  {
    [0x1b, 0xa8, 0x24, 0x13, 0x30] + width + height + tail
  }

  /** How the device reads a SET_WINDOW command: the reference for `Command`. */
  function DecodeWindow(b: seq<Byte>): Option<ScanRequest> {
    if |b| != 25 || b[2] != 0x24 || b[13] != b[14] then None
    else
      var dpi := match b[13]
                 case 0 => 75
                 case 10 => 100
                 case 2 => 150
                 case 9 => 200
                 case 5 => 300
                 case 7 => 600
                 case _ => 0;
      if dpi == 0 || (b[19] != 3 && b[19] != 5) then None
      else Some(ScanRequest(dpi, if b[19] == 3 then Gray else Rgb,
                            b[15] as int * 1200 + b[16] as int * 12, b[17] as int * 1200 + b[18] as int * 12,
                            Be32(b[5..9]), Be32(b[9..13])))
  }

  lemma WindowRoundTrip(r: ScanRequest, caps: Capabilities)
    requires Command(r, caps).Ok?
    ensures DecodeWindow(Command(r, caps).value) == Some(r)
    ensures r.xUnits + r.widthUnits <= caps.widthUnits
    ensures r.yUnits + r.heightUnits <= caps.flatbedLengthUnits && r.yUnits + r.heightUnits <= caps.lengthUnits
  {
    hide HasBit, Resolutions, ToBe32;
    var b := Command(r, caps).value;
    var tail := b[13..];
    assert b[13] == tail[0] && b[14] == tail[1] && b[19] == tail[6];
    assert b[15] == tail[2] && b[16] == tail[3] && b[17] == tail[4] && b[18] == tail[5];
    OffsetRoundTrip(r.xUnits);
    OffsetRoundTrip(r.yUnits);
  }

  lemma CommandNeedsKnownOrder(r: ScanRequest, caps: Capabilities)
    requires Command(r, caps).Ok?
    ensures !(r.mode.Rgb? && caps.lineOrder > 1)
  {
  }

  /** An offset travels as whole inches and hundredths of an inch. */
  lemma OffsetRoundTrip(units: U32)
    requires units % 12 == 0
    ensures units / 1200 * 1200 + units % 1200 / 12 * 12 == units
  {
    var k := units / 12;
    assert units == 12 * k;
    TwelfthsOfInch(k);
  }

  lemma TwelfthsOfInch(k: nat)
    ensures 12 * k / 1200 == k / 100 && 12 * k % 1200 == 12 * (k % 100) && 12 * (k % 100) / 12 == k % 100
  {
    assert 12 * k == 1200 * (k / 100) + 12 * (k % 100);
  }

  // ---- Replies (src/scan.rs, response_status) ----

  datatype ReplyStatus = Good | Busy

  /** The CHECK states that mean "try again": `state & !0x481 == 0 && state & 0x480 != 0`. */
  const RETRY_STATES: set<int> := {0x080, 0x081, 0x400, 0x401, 0x480, 0x481}

  function ResponseStatus(b: seq<Byte>, read: bool): (r: IoResult<ReplyStatus>)
    ensures r.Err? ==> !r.error.hostCancelled
  {
    if |b| < 32 || b[0] != 0xa8 || b[2] as int + 3 != |b| then
      Err(Fail(InvalidData, "Malformed scanner response"))
    else if b[1] == 0 then Ok(Good)
    else if b[1] == 8 then Ok(Busy)
    else if b[1] == 4 then Err(Fail(Interrupted, "Scanner cancelled the job"))
    else if b[1] == 2 then
      var at := if read then 12 else 4;
      if b[at] as int * 0x100 + b[at + 1] in RETRY_STATES then Ok(Busy)
      else Err(Fail(InvalidData, "Scanner CHECK state"))
    else Err(Fail(InvalidData, "Unknown scanner status"))
  }

  lemma RetryStates(state: bv16)
    ensures (state != 0 && state & !0x481 == 0 && state & 0x480 != 0) <==> state as int in RETRY_STATES
  {
    if state & !0x481 == 0 {
      assert state in {0, 1, 0x80, 0x81, 0x400, 0x401, 0x480, 0x481};
    }
  }

  // ---- Image bands (src/scan.rs, BandInfo) ----

  const MAX_BAND_BYTES := 16 * 1024 * 1024
  const MAX_ROW_BYTES := 65536

  datatype BandInfo = BandInfo(length: nat, width: nat, rows: nat, finalBand: bool) {
    function RowBytes(mode: ColorMode): nat {
      width * mode.Channels()
    }

    function PixelBytes(mode: ColorMode): nat {
      width * rows * mode.Channels()
    }
  }

  function ParseBand(b: seq<Byte>, mode: ColorMode): (r: IoResult<BandInfo>)
    ensures r.Err? ==> !r.error.hostCancelled
  {
    var status :- ResponseStatus(b, true);
    if status != Good || (b[3] != 0x80 && b[3] != 0x81) then
      Err(Fail(InvalidData, "Expected image band metadata"))
    else
      var info := BandInfo(Be32(b[4..8]), b[10] as int * 0x100 + b[11], b[8] as int * 0x100 + b[9], b[3] == 0x81);
      if info.width == 0 || info.rows == 0
         || info.width * mode.Channels() > MAX_ROW_BYTES
         || info.length > MAX_BAND_BYTES
         || info.length < info.PixelBytes(mode)
         || info.length - info.PixelBytes(mode) > 16
      then Err(Fail(InvalidData, "Invalid image band"))
      else Ok(info)
  }

  /** What a successful `ParseBand` promises about the geometry. */
  predicate ValidBand(info: BandInfo, mode: ColorMode) {
    && 0 < info.width < 0x1_0000 && 0 < info.rows < 0x1_0000
    && info.RowBytes(mode) <= 0x1_0000
    && info.PixelBytes(mode) <= info.length <= info.PixelBytes(mode) + 16
    && info.length <= 0x100_0000
  }

  lemma ParsedBandIsValid(b: seq<Byte>, mode: ColorMode)
    requires ParseBand(b, mode).Ok?
    ensures ValidBand(ParseBand(b, mode).value, mode)
  {
  }

  /** One complete band as handed to the image consumer. */
  datatype ImageBand = ImageBand(width: U32, rows: U32, mode: ColorMode, pixels: seq<Byte>, wireData: seq<Byte>)
}
