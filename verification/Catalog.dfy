/** The flatbed item's properties: initial catalog, selection of settings, service overlay
    (src/com_server/minidrv/properties/catalog.rs). */
module Catalog {
  import opened Basics
  import opened Wire
  import opened Settings
  import opened Geometry
  import opened Tone

  datatype Value = Long(n: I32) | Guid(bytes: seq<Byte>) | Text(text: string)

  datatype Attribute =
    | Unrestricted
    | RangeLong(min: I32, nominal: I32, max: I32, step: I32)
    | ListLong(values: seq<I32>, nominal: I32)
    | ListGuid(guids: seq<seq<Byte>>, nominalGuid: seq<Byte>)
    | FlagLong(nominal: I32, validBits: I32)

  const ITEM_NAME := 4098
  const FULL_ITEM_NAME := 4099
  const ACCESS_RIGHTS := 4102
  const DATATYPE := 4103
  const DEPTH := 4104
  const PREFERRED_FORMAT := 4105
  const FORMAT := 4106
  const COMPRESSION := 4107
  const TYMED := 4108
  const CHANNELS_PER_PIXEL := 4109
  const BITS_PER_CHANNEL := 4110
  const PLANAR := 4111
  const PIXELS_PER_LINE := 4112
  const NUMBER_OF_LINES := 4114
  const ITEM_SIZE := 4116
  const COLOR_PROFILE := 4117
  const BUFFER_SIZE := 4118
  const STREAM_COMPAT_ID := 4122
  const ITEM_CATEGORY := 4125
  const CUR_INTENT := 6146
  const XRES := 6147
  const YRES := 6148
  const XPOS := 6149
  const YPOS := 6150
  const XEXTENT := 6151
  const YEXTENT := 6152
  const BRIGHTNESS := 6154
  const CONTRAST := 6155
  const ROTATION := 6157
  const SEGMENTATION := 6164
  const MAX_HORIZONTAL_SIZE := 6165
  const MAX_VERTICAL_SIZE := 6166
  const MIN_HORIZONTAL_SIZE := 6167
  const MIN_VERTICAL_SIZE := 6168
  const OPTICAL_XRES := 3090
  const OPTICAL_YRES := 3091
  const PREVIEW := 3100
  const SHOW_PREVIEW_CONTROL := 3103

  const CATEGORY_FLATBED: seq<Byte> :=
    [0x1f, 0x7b, 0x60, 0xfb, 0xf3, 0x43, 0x8b, 0x48, 0x85, 0x5b, 0xfb, 0x70, 0x3e, 0xc3, 0x42, 0xa6]

  const INTENT_COLOR: I32 := 1
  const INTENT_GRAYSCALE: I32 := 2
  const INTENT_HINTS: I32 := 0x3_0000

  /** One item's properties. `ids` is their publication order. */
  datatype PropertyCatalog = PropertyCatalog(
    ids: seq<nat>,
    values: map<nat, Value>,
    attributes: map<nat, Attribute>,
    resolutions: seq<I32>,
    dataTypes: seq<I32>,
    widthUnits: U32,
    heightUnits: U32)
  {
    function MaxExtent(dpi: I32): (I32, I32) {
      if dpi !in resolutions then (0, 0)
      else (BedPixels(widthUnits, dpi), BedPixels(heightUnits, dpi))
    }

    function AllDepths(): seq<I32> {
      Depths(dataTypes)
    }
  }

  function BedPixels(units: U32, dpi: I32): I32 {
    var pixels := PixelsFromUnits(units, dpi);
    if pixels.Ok? then pixels.value else 0
  }

  function DepthFor(dataType: I32): I32 {
    if dataType == GRAYSCALE then 8 else if dataType == COLOR then 24 else 0
  }

  function ChannelsFor(dataType: I32): I32 {
    if dataType == GRAYSCALE then 1 else if dataType == COLOR then 3 else 0
  }

  function Depths(dataTypes: seq<I32>): seq<I32> {
    if dataTypes == [] then []
    else (if DepthFor(dataTypes[0]) > 0 then [DepthFor(dataTypes[0])] else []) + Depths(dataTypes[1..])
  }

  function SizeThousandths(units: U32): Result<I32, Hresult> {
    var size := units as int * 1000 / 1200;
    if size > I32_MAX then Err(E_INVALIDARG) else Ok(size)
  }

  /** The size of one pixel, rounded up. */
  function MinSizeThousandths(dpi: I32): I32
    requires dpi > 0
  {
    (1000 + (dpi as int - 1)) / dpi as int
  }

  function Supported(resolutions: seq<int>): (out: seq<I32>)
    ensures forall dpi: I32 :: dpi in out <==> dpi as int in resolutions && SupportedResolution(dpi)
  {
    if resolutions == [] then []
    else
      var first := resolutions[0];
      (if first in {75, 100, 150, 200, 300, 600} then [first] else []) + Supported(resolutions[1..])
  }

  /** Reported resolutions the scan core supports. */
  function Selectable(caps: Capabilities): seq<I32> {
    Supported(Resolutions(caps))
  }

  function DataTypes(caps: Capabilities): seq<I32> {
    (if HasBit(caps.modeMask, 8) then [GRAYSCALE] else [])
    + (if HasBit(caps.modeMask, 32) && caps.lineOrder <= 1 then [COLOR] else [])
  }

  predicate ValidCapabilities(caps: Capabilities) {
    caps.identity != [] && caps.widthUnits != 0 && caps.lengthUnits != 0 && caps.flatbedLengthUnits != 0
    && caps.resolutionMask != 0 && caps.modeMask != 0
  }

  const FLATBED_IDS: seq<nat> :=
    [ ACCESS_RIGHTS, BITS_PER_CHANNEL, BUFFER_SIZE, CHANNELS_PER_PIXEL, COLOR_PROFILE, COMPRESSION, DATATYPE, DEPTH,
      FORMAT, FULL_ITEM_NAME, ITEM_CATEGORY, ITEM_NAME, ITEM_SIZE, MAX_HORIZONTAL_SIZE, MAX_VERTICAL_SIZE,
      MIN_HORIZONTAL_SIZE, MIN_VERTICAL_SIZE, NUMBER_OF_LINES, PIXELS_PER_LINE, PLANAR, PREFERRED_FORMAT,
      STREAM_COMPAT_ID, TYMED, BRIGHTNESS, CONTRAST, CUR_INTENT, OPTICAL_XRES, OPTICAL_YRES, PREVIEW,
      SHOW_PREVIEW_CONTROL, ROTATION, SEGMENTATION, XEXTENT, XPOS, XRES, YEXTENT, YPOS, YRES ]

  function Flatbed(caps: Capabilities, itemName: string, fullName: string): Result<PropertyCatalog, Hresult> {
    var resolutions, dataTypes := Selectable(caps), DataTypes(caps);
    var heightUnits := Min(caps.flatbedLengthUnits, caps.lengthUnits);
    if !ValidCapabilities(caps) || resolutions == [] || dataTypes == [] || !HasBit(caps.compressionMask, 1) then
      Err(E_INVALIDARG)
    else
      var dpi, dataType := resolutions[0], dataTypes[0];
      var maxHorizontal :- SizeThousandths(caps.widthUnits);
      var maxVertical :- SizeThousandths(heightUnits);
      var (maxWidth, maxHeight) := (BedPixels(caps.widthUnits, dpi), BedPixels(heightUnits, dpi));
      if maxWidth <= 0 || maxHeight <= 0 then Err(E_INVALIDARG)
      else
        var size :- BmpSize(maxWidth, maxHeight, DepthFor(dataType));
        Ok(PropertyCatalog(
             FLATBED_IDS,
             InitialValues(dpi, dataType, maxWidth, maxHeight, size, maxHorizontal, maxVertical, itemName, fullName),
             InitialAttributes(dpi, dataType, maxWidth, maxHeight, resolutions, dataTypes),
             resolutions, dataTypes, caps.widthUnits, heightUnits))
  }

  function InitialValues(dpi: I32, dataType: I32, maxWidth: I32, maxHeight: I32, size: I32, maxHorizontal: I32,
                         maxVertical: I32, itemName: string, fullName: string): map<nat, Value>
    requires dpi > 0
  {
    map[ACCESS_RIGHTS := Long(1),
        BITS_PER_CHANNEL := Long(8),
        BUFFER_SIZE := Long(65536),
        CHANNELS_PER_PIXEL := Long(ChannelsFor(dataType)),
        COLOR_PROFILE := Long(0),
        COMPRESSION := Long(0),
        DATATYPE := Long(dataType),
        DEPTH := Long(DepthFor(dataType)),
        FORMAT := Guid(BMP_FORMAT),
        FULL_ITEM_NAME := Text(fullName),
        ITEM_CATEGORY := Guid(CATEGORY_FLATBED),
        ITEM_NAME := Text(itemName),
        ITEM_SIZE := Long(size),
        MAX_HORIZONTAL_SIZE := Long(maxHorizontal),
        MAX_VERTICAL_SIZE := Long(maxVertical),
        MIN_HORIZONTAL_SIZE := Long(MinSizeThousandths(dpi)),
        MIN_VERTICAL_SIZE := Long(MinSizeThousandths(dpi)),
        NUMBER_OF_LINES := Long(maxHeight),
        PIXELS_PER_LINE := Long(maxWidth),
        PLANAR := Long(0),
        PREFERRED_FORMAT := Guid(BMP_FORMAT),
        STREAM_COMPAT_ID := Guid(BMP_FORMAT),
        TYMED := Long(2),
        BRIGHTNESS := Long(0),
        CONTRAST := Long(0),
        CUR_INTENT := Long(0),
        OPTICAL_XRES := Long(600),
        OPTICAL_YRES := Long(2400),
        PREVIEW := Long(0),
        SHOW_PREVIEW_CONTROL := Long(1),
        ROTATION := Long(0),
        SEGMENTATION := Long(1),
        XEXTENT := Long(maxWidth),
        XPOS := Long(0),
        XRES := Long(dpi),
        YEXTENT := Long(maxHeight),
        YPOS := Long(0),
        YRES := Long(dpi)]
  }

  function InitialAttributes(dpi: I32, dataType: I32, maxWidth: I32, maxHeight: I32, resolutions: seq<I32>,
                             dataTypes: seq<I32>): map<nat, Attribute>
    requires SupportedResolution(dpi)
  {
    StepOf(dpi);
    var step: I32 := OffsetStep(dpi);
    var intents := INTENT_HINTS + (if COLOR in dataTypes then INTENT_COLOR else 0)
                   + (if GRAYSCALE in dataTypes then INTENT_GRAYSCALE else 0);
    map[ACCESS_RIGHTS := FlagLong(1, 1),
        BITS_PER_CHANNEL := Unrestricted,
        BUFFER_SIZE := Unrestricted,
        CHANNELS_PER_PIXEL := Unrestricted,
        COLOR_PROFILE := Unrestricted,
        COMPRESSION := ListLong([0], 0),
        DATATYPE := ListLong(dataTypes, dataType),
        DEPTH := ListLong(Depths(dataTypes), DepthFor(dataType)),
        FORMAT := ListGuid([BMP_FORMAT], BMP_FORMAT),
        FULL_ITEM_NAME := Unrestricted,
        ITEM_CATEGORY := Unrestricted,
        ITEM_NAME := Unrestricted,
        ITEM_SIZE := Unrestricted,
        MAX_HORIZONTAL_SIZE := Unrestricted,
        MAX_VERTICAL_SIZE := Unrestricted,
        MIN_HORIZONTAL_SIZE := Unrestricted,
        MIN_VERTICAL_SIZE := Unrestricted,
        NUMBER_OF_LINES := Unrestricted,
        PIXELS_PER_LINE := Unrestricted,
        PLANAR := ListLong([0], 0),
        PREFERRED_FORMAT := Unrestricted,
        STREAM_COMPAT_ID := ListGuid([BMP_FORMAT], BMP_FORMAT),
        TYMED := ListLong([2], 2),
        BRIGHTNESS := RangeLong(-1000, 0, 1000, 1),
        CONTRAST := RangeLong(-1000, 0, 1000, 1),
        CUR_INTENT := FlagLong(0, intents),
        OPTICAL_XRES := Unrestricted,
        OPTICAL_YRES := Unrestricted,
        PREVIEW := ListLong([0], 0),
        SHOW_PREVIEW_CONTROL := Unrestricted,
        ROTATION := ListLong([0], 0),
        SEGMENTATION := Unrestricted,
        XEXTENT := RangeLong(1, maxWidth, maxWidth, 1),
        XPOS := RangeLong(0, 0, 0, step),
        XRES := ListLong(resolutions, dpi),
        YEXTENT := RangeLong(1, maxHeight, maxHeight, 1),
        YPOS := RangeLong(0, 0, 0, step),
        YRES := ListLong(resolutions, dpi)]
  }

  lemma StepOf(dpi: I32)
    requires SupportedResolution(dpi)
    ensures 0 < OffsetStep(dpi) <= dpi as int
  {
    StepIsLeastHundredth(dpi, dpi);
    Multiple(100 * dpi as int, dpi, 100);
  }

  // ---- Selecting settings ----

  /** The fourteen values a selection writes. */
  function SelectedValues(s: FlatbedSettings, size: I32, minSize: I32): map<nat, Value> {
    map[XRES := Long(s.xResolution),
        YRES := Long(s.yResolution),
        XPOS := Long(s.xPosition),
        YPOS := Long(s.yPosition),
        XEXTENT := Long(s.xExtent),
        YEXTENT := Long(s.yExtent),
        DATATYPE := Long(s.dataType),
        DEPTH := Long(s.depth),
        CHANNELS_PER_PIXEL := Long(ChannelsFor(s.dataType)),
        PIXELS_PER_LINE := Long(s.xExtent),
        NUMBER_OF_LINES := Long(s.yExtent),
        ITEM_SIZE := Long(size),
        MIN_HORIZONTAL_SIZE := Long(minSize),
        MIN_VERTICAL_SIZE := Long(minSize)]
  }

  /** The six validity descriptions a selection writes. */
  function SelectedAttributes(s: FlatbedSettings, resolutions: seq<I32>, depths: seq<I32>, maxWidth: I32,
                              maxHeight: I32, step: I32): map<nat, Attribute>
    requires 0 <= s.xPosition && 0 < s.xExtent && s.xPosition as int + s.xExtent as int <= maxWidth as int
    requires 0 <= s.yPosition && 0 < s.yExtent && s.yPosition as int + s.yExtent as int <= maxHeight as int
    requires step > 0
  {
    FloorsDown(maxWidth as int - s.xExtent as int, step);
    FloorsDown(maxHeight as int - s.yExtent as int, step);
    map[YRES := ListLong(resolutions, s.yResolution),
        DEPTH := ListLong(depths, s.depth),
        XPOS := RangeLong(0, 0, (maxWidth as int - s.xExtent as int) / step as int * step as int, step),
        YPOS := RangeLong(0, 0, (maxHeight as int - s.yExtent as int) / step as int * step as int, step),
        XEXTENT := RangeLong(1, maxWidth as int - s.xPosition as int, maxWidth as int - s.xPosition as int, 1),
        YEXTENT := RangeLong(1, maxHeight as int - s.yPosition as int, maxHeight as int - s.yPosition as int, 1)]
  }

  lemma FloorsDown(n: nat, step: nat)
    requires step > 0
    ensures 0 <= n / step * step <= n
  {
    DivisionParts(n, step);
  }

  lemma DivisionParts(n: nat, d: nat)
    requires d > 0
    ensures n == n / d * d + n % d && n / d * d >= 0
  {
  }

  function WithSettings(c: PropertyCatalog, s: FlatbedSettings): Result<PropertyCatalog, Hresult> {
    if s.xResolution !in c.resolutions || s.dataType !in c.dataTypes || ToRequest(s).Err? then Err(E_INVALIDARG)
    else
      RequestExactly(s);
      StepOf(s.xResolution);
      var (maxWidth, maxHeight) := c.MaxExtent(s.xResolution);
      if s.xPosition as int + s.xExtent as int > maxWidth as int
         || s.yPosition as int + s.yExtent as int > maxHeight as int
      then Err(E_INVALIDARG)
      else
        var size :- BmpSize(s.xExtent, s.yExtent, s.depth);
        var values := SelectedValues(s, size, MinSizeThousandths(s.xResolution));
        var attributes :=
          SelectedAttributes(s, c.resolutions, c.AllDepths(), maxWidth, maxHeight, OffsetStep(s.xResolution));
        if !(values.Keys <= c.values.Keys && attributes.Keys <= c.attributes.Keys) then Err(E_UNEXPECTED)
        else Ok(c.(values := c.values + values, attributes := c.attributes + attributes))
  }

  /** The eight values an application can have written. */
  function ServiceValues(s: FlatbedSettings): map<nat, Value> {
    map[XRES := Long(s.xResolution),
        YRES := Long(s.yResolution),
        XPOS := Long(s.xPosition),
        YPOS := Long(s.yPosition),
        XEXTENT := Long(s.xExtent),
        YEXTENT := Long(s.yExtent),
        DATATYPE := Long(s.dataType),
        DEPTH := Long(s.depth)]
  }

  function WithServiceValues(c: PropertyCatalog, current: FlatbedSettings): Result<PropertyCatalog, Hresult> {
    var values := ServiceValues(current);
    if values.Keys <= c.values.Keys then Ok(c.(values := c.values + values)) else Err(E_UNEXPECTED)
  }

  // ---- Which settings are accepted ----

  lemma DataTypesExactly(caps: Capabilities, s: FlatbedSettings)
    requires ModeFor(s.dataType, s.depth).Some?
    ensures var mode := ModeFor(s.dataType, s.depth).value;
            s.dataType in DataTypes(caps) <==>
              HasBit(caps.modeMask, mode.Weight()) && !(mode.Rgb? && caps.lineOrder > 1)
  {
  }

  /** One axis fits the bed in pixels exactly when it fits in protocol units. */
  lemma AxisFits(position: I32, extent: I32, dpi: I32, units: U32)
    requires SupportedResolution(dpi) && AxisConverts(position, extent, dpi)
    ensures var u := UnitsPerPixel(dpi);
            && BedPixels(units, dpi) == units as int / u
            && (position as int + extent as int <= BedPixels(units, dpi) as int
                <==> position as int * u + extent as int * u <= units as int)
  {
    BedAlwaysConverts(units, dpi);
    FitsInUnits(position, extent, units, dpi);
  }

  const SELECTED_VALUE_IDS: set<nat> :=
    {XRES, YRES, XPOS, YPOS, XEXTENT, YEXTENT, DATATYPE, DEPTH, CHANNELS_PER_PIXEL, PIXELS_PER_LINE, NUMBER_OF_LINES,
     ITEM_SIZE, MIN_HORIZONTAL_SIZE, MIN_VERTICAL_SIZE}
  const SELECTED_ATTRIBUTE_IDS: set<nat> := {YRES, DEPTH, XPOS, YPOS, XEXTENT, YEXTENT}

  /** The catalog has every property a selection writes. */
  predicate Selects(c: PropertyCatalog) {
    SELECTED_VALUE_IDS <= c.values.Keys && SELECTED_ATTRIBUTE_IDS <= c.attributes.Keys
  }

  lemma FlatbedShape(caps: Capabilities, itemName: string, fullName: string)
    requires Flatbed(caps, itemName, fullName).Ok?
    ensures var c := Flatbed(caps, itemName, fullName).value;
            && Selects(c) && c.ids == FLATBED_IDS
            && c.resolutions == Selectable(caps) && c.dataTypes == DataTypes(caps)
            && c.widthUnits == caps.widthUnits && c.heightUnits == Min(caps.flatbedLengthUnits, caps.lengthUnits)
            && HasBit(caps.compressionMask, 1)
  {
    hide HasBit, Resolutions;
  }

  /** What `WithSettings` checks beyond `ToRequest`. */
  /** Exactly which devices get an item: they offer a resolution and a mode the core supports and
      uncompressed images, their bed has a pixel at the lowest resolution, and its size and the file of the
      whole bed have numbers. */
  lemma FlatbedExactly(caps: Capabilities, itemName: string, fullName: string)
    ensures var height := Min(caps.flatbedLengthUnits, caps.lengthUnits);
            Flatbed(caps, itemName, fullName).Ok? <==>
              && caps.identity != [] && HasBit(caps.compressionMask, 1)
              && caps.resolutionMask != 0 && caps.modeMask != 0
              && Selectable(caps) != [] && DataTypes(caps) != []
              && (var dpi := Selectable(caps)[0];
                  && dpi > 0 && caps.widthUnits * dpi as int >= 1200 && height * dpi as int >= 1200
                  && 5 * caps.widthUnits < 6 * 0x8000_0000 && 5 * height < 6 * 0x8000_0000
                  && BmpSize(BedPixels(caps.widthUnits, dpi), BedPixels(height, dpi), DepthFor(DataTypes(caps)[0])).Ok?)
  {
    hide HasBit, Resolutions, BmpSize, BedPixels, InitialValues, InitialAttributes, DataTypes, DepthFor;
    var height: U32 := Min(caps.flatbedLengthUnits, caps.lengthUnits);
    if Selectable(caps) != [] {
      var dpi := Selectable(caps)[0];
      assert dpi in Selectable(caps);
      OnePixelOfBed(caps.widthUnits, dpi);
      OnePixelOfBed(height, dpi);
    }
  }

  lemma OnePixelOfBed(units: U32, dpi: I32)
    requires SupportedResolution(dpi)
    ensures BedPixels(units, dpi) > 0 <==> units * dpi as int >= 1200
    ensures units == 0 ==> units * dpi as int < 1200
    ensures BedPixels(units, dpi) >= 0
  {
    BedAlwaysConverts(units, dpi);
  }

  predicate FitsBed(c: PropertyCatalog, s: FlatbedSettings) {
    var (maxWidth, maxHeight) := c.MaxExtent(s.xResolution);
    && s.xResolution in c.resolutions && s.dataType in c.dataTypes
    && s.xPosition as int + s.xExtent as int <= maxWidth as int
    && s.yPosition as int + s.yExtent as int <= maxHeight as int
  }

  lemma AcceptedExactly(c: PropertyCatalog, s: FlatbedSettings)
    ensures WithSettings(c, s).Ok? <==>
              ToRequest(s).Ok? && FitsBed(c, s) && BmpSize(s.xExtent, s.yExtent, s.depth).Ok? && Selects(c)
  {
    hide ToRequest, BmpSize, BedPixels, MinSizeThousandths, OffsetStep;
    if ToRequest(s).Ok? && FitsBed(c, s) {
      SupportedByRequest(s);
      RequestExactly(s);
      StepOf(s.xResolution);
      var (maxWidth, maxHeight) := c.MaxExtent(s.xResolution);
      assert SelectedValues(s, 0, 0).Keys == SELECTED_VALUE_IDS;
      assert SelectedAttributes(s, c.resolutions, c.AllDepths(), maxWidth, maxHeight, OffsetStep(s.xResolution)).Keys
             == SELECTED_ATTRIBUTE_IDS;
    }
  }

  lemma CommandExactly(r: ScanRequest, caps: Capabilities)
    requires r.dpi in {75, 100, 150, 200, 300, 600}
    requires r.xUnits % 12 == 0 && r.yUnits % 12 == 0 && r.xUnits < 256 * 1200 && r.yUnits < 256 * 1200
    ensures Command(r, caps).Ok? <==>
              && r.dpi in Resolutions(caps) && HasBit(caps.modeMask, r.mode.Weight()) && HasBit(caps.compressionMask, 1)
              && !(r.mode.Rgb? && caps.lineOrder > 1)
              && Within(r.xUnits, r.widthUnits, caps.widthUnits)
              && Within(r.yUnits, r.heightUnits, Min(caps.flatbedLengthUnits, caps.lengthUnits))
  {
    hide HasBit, Resolutions, Window;
    CommandParts(r, caps);
  }

  lemma CommandParts(r: ScanRequest, caps: Capabilities)
    ensures Command(r, caps).Ok? <==> ResolutionCode(r.dpi).Some? && Offered(r, caps) && OnTheBed(r, caps)
  {
    hide Offered, OnTheBed, Window, Placement, ToBe32, ResolutionCode;
  }

  /** The catalog accepts settings exactly when they make a request this device's command accepts
      and the file they describe has a representable size. */
  lemma AcceptedExactlyWhenCommandable(caps: Capabilities, itemName: string, fullName: string, s: FlatbedSettings)
    requires Flatbed(caps, itemName, fullName).Ok?
    ensures WithSettings(Flatbed(caps, itemName, fullName).value, s).Ok?
            <==> ToRequest(s).Ok? && Command(ToRequest(s).value, caps).Ok? && BmpSize(s.xExtent, s.yExtent, s.depth).Ok?
  {
    hide HasBit, Resolutions, Command, ToRequest, WithSettings, Flatbed, BmpSize, UnitsPerPixel, BedPixels,
      DataTypes, Selectable, ValidCapabilities;
    var c := Flatbed(caps, itemName, fullName).value;
    FlatbedShape(caps, itemName, fullName);
    AcceptedExactly(c, s);
    if ToRequest(s).Ok? {
      SupportedByRequest(s);
      RequestExactly(s);
      SelectableExactly(caps, s.xResolution);
      CommandExactly(ToRequest(s).value, caps);
      DataTypesExactly(caps, s);
      AxisFits(s.xPosition, s.xExtent, s.xResolution, caps.widthUnits);
      AxisFits(s.yPosition, s.yExtent, s.xResolution, c.heightUnits);
      AxisParts(s.xPosition, s.xExtent, s.xResolution);
      AxisParts(s.yPosition, s.yExtent, s.xResolution);
    }
  }

  lemma SupportedByRequest(s: FlatbedSettings)
    requires ToRequest(s).Ok?
    ensures SupportedResolution(s.xResolution)
  {
  }

  lemma SelectableExactly(caps: Capabilities, dpi: I32)
    requires SupportedResolution(dpi)
    ensures dpi in Selectable(caps) <==> dpi as int in Resolutions(caps)
  {
  }

  /** Accepted settings reach the device unchanged: the window command decodes back to them. */
  lemma AcceptedSettingsReachTheWindow(caps: Capabilities, itemName: string, fullName: string, s: FlatbedSettings)
    requires Flatbed(caps, itemName, fullName).Ok?
    requires WithSettings(Flatbed(caps, itemName, fullName).value, s).Ok?
    ensures ToRequest(s).Ok? && Command(ToRequest(s).value, caps).Ok?
    ensures DecodeWindow(Command(ToRequest(s).value, caps).value) == Some(ToRequest(s).value)
  {
    AcceptedExactlyWhenCommandable(caps, itemName, fullName, s);
    WindowRoundTrip(ToRequest(s).value, caps);
  }

  // ---- What the published sizes mean ----

  /** The bed in whole thousandths of an inch, and a pixel's side in thousandths, rounded up. */
  lemma SizesAreThousandths(caps: Capabilities, itemName: string, fullName: string)
    requires Flatbed(caps, itemName, fullName).Ok?
    ensures var c := Flatbed(caps, itemName, fullName).value;
            && {6165, 6166, 6167, 6168} <= c.values.Keys
            && (forall id :: id in {6165, 6166, 6167, 6168} ==> c.values[id].Long?)
            && 1200 * c.values[6165].n as int <= 1000 * c.widthUnits < 1200 * (c.values[6165].n as int + 1)
            && 1200 * c.values[6166].n as int <= 1000 * c.heightUnits < 1200 * (c.values[6166].n as int + 1)
            && c.values[6167] == c.values[6168] && c.resolutions != [] && c.resolutions[0] > 0
            && OnePixel(c.values[6167].n, c.resolutions[0])
  {
    hide BmpSize, BedPixels, OffsetStep, Depths, HasBit, InitialAttributes, MinSizeThousandths, Resolutions,
      ChannelsFor, DepthFor;
    var c := Flatbed(caps, itemName, fullName).value;
    assert c.resolutions[0] in Selectable(caps);
    PixelInThousandths(c.resolutions[0]);
  }

  /** The least number of thousandths of an inch that is not less than one pixel. */
  predicate OnePixel(size: I32, dpi: I32) {
    size as int * dpi as int >= 1000 > (size as int - 1) * dpi as int
  }

  lemma PixelInThousandths(dpi: I32)
    requires dpi > 0
    ensures OnePixel(MinSizeThousandths(dpi), dpi)
  {
    DivisionParts(1000 + (dpi as int - 1), dpi as int);
  }

  // ---- What the published ranges mean ----

  predicate InRange(attribute: Attribute, value: I32) {
    attribute.RangeLong? && attribute.step > 0
    && attribute.min <= value <= attribute.max && (value as int - attribute.min as int) % attribute.step as int == 0
  }

  lemma AlignedBelow(value: nat, room: nat, step: nat)
    requires step > 0 && value % step == 0
    ensures value <= room <==> value <= room / step * step
  {
    var q, r := value / step, room / step;
    DivisionParts(value, step);
    DivisionParts(room, step);
    if r < q {
      ProductsInOrder(r, r + 1, step);
      ProductsInOrder(r + 1, q, step);
    } else {
      ProductsInOrder(q, r, step);
    }
  }

  lemma ProductsInOrder(a: nat, b: nat, step: nat)
    requires a <= b
    ensures a * step <= b * step && (a + 1) * step == a * step + step
  {
    assert (b - a) * step >= 0;
  }

  /** A start converts and leaves room for the extent exactly when it is a step of the published range,
      within the 256 inches an offset can name. */
  lemma StartsExactly(value: I32, extent: I32, units: U32, dpi: I32)
    requires SupportedResolution(dpi) && 0 < extent <= BedPixels(units, dpi)
    ensures 0 < OffsetStep(dpi)
    ensures AxisConverts(value, extent, dpi) && value as int + extent as int <= BedPixels(units, dpi) as int <==>
              && 0 <= value as int <= (BedPixels(units, dpi) as int - extent as int) / OffsetStep(dpi) * OffsetStep(dpi)
              && value as int % OffsetStep(dpi) == 0 && value as int * UnitsPerPixel(dpi) < 256 * 1200
  {
    hide OffsetStep, BedPixels, UnitsPerPixel;
    StepOf(dpi);
    var room := BedPixels(units, dpi) as int - extent as int;
    DivisionParts(room, OffsetStep(dpi));
    if value >= 0 {
      AlignedExactly(value, dpi);
      BedAlwaysConverts(units, dpi);
      FitsInUnits(value, extent, units, dpi);
      AxisParts(value, extent, dpi);
      BedIsQuotient(units, dpi);
      if value as int % OffsetStep(dpi) == 0 {
        AlignedBelow(value, room, OffsetStep(dpi));
      }
    }
  }

  lemma BedIsQuotient(units: U32, dpi: I32)
    requires SupportedResolution(dpi)
    ensures BedPixels(units, dpi) as int == units as int / UnitsPerPixel(dpi)
  {
    BedAlwaysConverts(units, dpi);
  }

  /** An extent converts and fits after the start exactly when it is in the published range. */
  lemma ExtentsExactly(position: I32, value: I32, units: U32, dpi: I32)
    requires SupportedResolution(dpi) && 0 <= position < BedPixels(units, dpi)
    requires position as int * UnitsPerPixel(dpi) % 12 == 0 && position as int * UnitsPerPixel(dpi) < 256 * 1200
    ensures AxisConverts(position, value, dpi) && position as int + value as int <= BedPixels(units, dpi) as int <==>
              1 <= value as int <= BedPixels(units, dpi) as int - position as int
  {
    hide BedPixels, UnitsPerPixel;
    BedIsQuotient(units, dpi);
    if value > 0 {
      FitsInUnits(position, value, units, dpi);
      AxisParts(position, value, dpi);
    }
  }

  /** Every published range is exact: of the starts, those in it and within the device's 256 inches are
      accepted; of the extents, those in it whose file has a representable size. */
  lemma RangesAreExact(c: PropertyCatalog, s: FlatbedSettings, value: I32)
    requires WithSettings(c, s).Ok?
    ensures SupportedResolution(s.xResolution) && s.yExtent > 0 && s.depth in {8, 24}
    ensures var shown, u := WithSettings(c, s).value.attributes, UnitsPerPixel(s.xResolution);
            && SELECTED_ATTRIBUTE_IDS <= shown.Keys
            && (WithSettings(c, s.(xPosition := value)).Ok? <==>
                  InRange(shown[XPOS], value) && value as int * u < 256 * 1200)
            && (WithSettings(c, s.(yPosition := value)).Ok? <==>
                  InRange(shown[YPOS], value) && value as int * u < 256 * 1200)
            && (WithSettings(c, s.(xExtent := value)).Ok? <==>
                  InRange(shown[XEXTENT], value) && BmpSize(value, s.yExtent, s.depth).Ok?)
            && (WithSettings(c, s.(yExtent := value)).Ok? <==>
                  InRange(shown[YEXTENT], value) && BmpSize(s.xExtent, value, s.depth).Ok?)
  {
    hide WithSettings, ToRequest, BedPixels, UnitsPerPixel, OffsetStep, BmpSize;
    AcceptedExactly(c, s);
    SupportedByRequest(s);
    RequestExactly(s);
    StepOf(s.xResolution);
    SelectionShows(c, s);
    StartMoves(c, s, value);
    ExtentMoves(c, s, value);
  }

  /** The ranges a selection publishes. */
  lemma SelectionShows(c: PropertyCatalog, s: FlatbedSettings)
    requires WithSettings(c, s).Ok?
    ensures SupportedResolution(s.xResolution) && OffsetStep(s.xResolution) > 0
    ensures var shown, max := WithSettings(c, s).value.attributes, c.MaxExtent(s.xResolution);
            var step := OffsetStep(s.xResolution);
            && SELECTED_ATTRIBUTE_IDS <= shown.Keys
            && shown[XPOS].RangeLong? && shown[YPOS].RangeLong?
            && shown[XEXTENT].RangeLong? && shown[YEXTENT].RangeLong?
            && shown[XPOS].min == 0 && shown[XPOS].step as int == step
            && shown[XPOS].max as int == (max.0 as int - s.xExtent as int) / step * step
            && shown[YPOS].min == 0 && shown[YPOS].step as int == step
            && shown[YPOS].max as int == (max.1 as int - s.yExtent as int) / step * step
            && shown[XEXTENT].min == shown[XEXTENT].step == 1
            && shown[XEXTENT].max as int == max.0 as int - s.xPosition as int
            && shown[YEXTENT].min == shown[YEXTENT].step == 1
            && shown[YEXTENT].max as int == max.1 as int - s.yPosition as int
  {
    hide ToRequest, BedPixels, OffsetStep, BmpSize, MinSizeThousandths, Depths;
    SupportedByRequest(s);
    StepOf(s.xResolution);
  }

  lemma StartMoves(c: PropertyCatalog, s: FlatbedSettings, value: I32)
    requires WithSettings(c, s).Ok?
    ensures SupportedResolution(s.xResolution) && OffsetStep(s.xResolution) > 0
    ensures var max, step, u := c.MaxExtent(s.xResolution), OffsetStep(s.xResolution), UnitsPerPixel(s.xResolution);
            && (WithSettings(c, s.(xPosition := value)).Ok? <==>
                  && 0 <= value as int <= (max.0 as int - s.xExtent as int) / step * step
                  && value as int % step == 0 && value as int * u < 256 * 1200)
            && (WithSettings(c, s.(yPosition := value)).Ok? <==>
                  && 0 <= value as int <= (max.1 as int - s.yExtent as int) / step * step
                  && value as int % step == 0 && value as int * u < 256 * 1200)
  {
    hide WithSettings, ToRequest, BedPixels, UnitsPerPixel, OffsetStep, BmpSize, AxisConverts;
    AcceptedExactly(c, s);
    SupportedByRequest(s);
    RequestExactly(s);
    StepOf(s.xResolution);
    AxisInside(c, s);
    var x, y := s.(xPosition := value), s.(yPosition := value);
    AcceptedExactly(c, x);
    RequestExactly(x);
    StartsExactly(value, s.xExtent, c.widthUnits, s.xResolution);
    AcceptedExactly(c, y);
    RequestExactly(y);
    StartsExactly(value, s.yExtent, c.heightUnits, s.xResolution);
  }

  lemma ExtentMoves(c: PropertyCatalog, s: FlatbedSettings, value: I32)
    requires WithSettings(c, s).Ok?
    ensures SupportedResolution(s.xResolution) && s.yExtent > 0 && s.depth in {8, 24}
    ensures var max := c.MaxExtent(s.xResolution);
            && (WithSettings(c, s.(xExtent := value)).Ok? <==>
                  1 <= value as int <= max.0 as int - s.xPosition as int && BmpSize(value, s.yExtent, s.depth).Ok?)
            && (WithSettings(c, s.(yExtent := value)).Ok? <==>
                  1 <= value as int <= max.1 as int - s.yPosition as int && BmpSize(s.xExtent, value, s.depth).Ok?)
  {
    hide WithSettings, ToRequest, BedPixels, UnitsPerPixel, OffsetStep, BmpSize;
    AcceptedExactly(c, s);
    SupportedByRequest(s);
    RequestExactly(s);
    AxisInside(c, s);
    var x, y := s.(xExtent := value), s.(yExtent := value);
    AcceptedExactly(c, x);
    RequestExactly(x);
    ExtentsExactly(s.xPosition, value, c.widthUnits, s.xResolution);
    AcceptedExactly(c, y);
    RequestExactly(y);
    ExtentsExactly(s.yPosition, value, c.heightUnits, s.xResolution);
  }

  lemma AxisInside(c: PropertyCatalog, s: FlatbedSettings)
    requires WithSettings(c, s).Ok?
    ensures SupportedResolution(s.xResolution) && s.xResolution in c.resolutions
    ensures 0 <= s.xPosition && 0 < s.xExtent && 0 <= s.yPosition && 0 < s.yExtent
    ensures c.MaxExtent(s.xResolution)
            == (BedPixels(c.widthUnits, s.xResolution), BedPixels(c.heightUnits, s.xResolution))
    ensures s.xPosition as int + s.xExtent as int <= BedPixels(c.widthUnits, s.xResolution) as int
    ensures s.yPosition as int + s.yExtent as int <= BedPixels(c.heightUnits, s.xResolution) as int
  {
    hide ToRequest, BedPixels, OffsetStep, BmpSize, UnitsPerPixel;
    AcceptedExactly(c, s);
    SupportedByRequest(s);
    RequestExactly(s);
  }

  // ---- Listed resolutions ----

  ghost predicate Ascending(s: seq<int>) {
    forall i, j :: 0 <= i < j < |s| ==> s[i] < s[j]
  }

  lemma {:induction false} ReportedAscend(table: seq<(int, nat)>, mask: nat, floor: int)
    requires Weighted(table) && forall i :: 0 <= i < |table| ==> table[i].0 > floor
    requires forall i, j :: 0 <= i < j < |table| ==> table[i].0 < table[j].0
    ensures Ascending(Reported(table, mask)) && forall dpi :: dpi in Reported(table, mask) ==> dpi > floor
  {
    hide HasBit;
    if table != [] {
      ReportedAscend(table[1..], mask, table[0].0);
      var all, rest := Reported(table, mask), Reported(table[1..], mask);
      var shift := |all| - |rest|;
      forall i, j | 0 <= i < j < |all|
        ensures all[i] < all[j]
      {
        assert all[j] == rest[j - shift] && rest[j - shift] in rest;
        assert i >= shift ==> all[i] == rest[i - shift];
      }
    }
  }

  lemma {:induction false} FirstSupportedIsLeast(s: seq<int>, dpi: I32)
    requires Ascending(s) && dpi in Supported(s)
    ensures Supported(s) != [] && Supported(s)[0] <= dpi
  {
    if s[0] !in {75, 100, 150, 200, 300, 600} {
      FirstSupportedIsLeast(s[1..], dpi);
    }
  }

  /** The default is the lowest resolution, so a bed with a pixel there has one at every listed resolution. */
  lemma EveryListedBedHasAPixel(caps: Capabilities, itemName: string, fullName: string, dpi: I32)
    requires Flatbed(caps, itemName, fullName).Ok? && dpi in Flatbed(caps, itemName, fullName).value.resolutions
    ensures var c := Flatbed(caps, itemName, fullName).value;
            SupportedResolution(dpi) && c.MaxExtent(dpi).0 > 0 && c.MaxExtent(dpi).1 > 0
  {
    hide Reported, HasBit, InitialValues, InitialAttributes, BmpSize;
    var c := Flatbed(caps, itemName, fullName).value;
    ReportedAscend(RESOLUTION_TABLE, caps.resolutionMask, 0);
    FirstSupportedIsLeast(Resolutions(caps), dpi);
    MorePixelsAtHigherResolution(c.widthUnits, c.resolutions[0], dpi);
    MorePixelsAtHigherResolution(c.heightUnits, c.resolutions[0], dpi);
  }

  lemma MorePixelsAtHigherResolution(units: U32, lower: I32, higher: I32)
    requires SupportedResolution(lower) && SupportedResolution(higher) && lower <= higher
    requires BedPixels(units, lower) > 0
    ensures BedPixels(units, higher) > 0
  {
    BedAlwaysConverts(units, lower);
    BedAlwaysConverts(units, higher);
  }

  // ---- The initial selection ----

  function DefaultSettings(c: PropertyCatalog): FlatbedSettings
    requires c.resolutions != [] && c.dataTypes != []
  {
    var dpi, dataType := c.resolutions[0], c.dataTypes[0];
    FlatbedSettings(dpi, dpi, 0, 0, c.MaxExtent(dpi).0, c.MaxExtent(dpi).1, dataType, DepthFor(dataType), 0, 0, 0,
                    BMP_FORMAT)
  }

  lemma WholeBedConverts(units: U32, dpi: I32)
    requires SupportedResolution(dpi) && BedPixels(units, dpi) > 0
    ensures AxisConverts(0, BedPixels(units, dpi), dpi)
  {
    BedAlwaysConverts(units, dpi);
    FitsInUnits(0, BedPixels(units, dpi), units, dpi);
  }

  lemma NothingNew<V>(m: map<nat, V>, more: map<nat, V>)
    requires forall id :: id in more ==> id in m && m[id] == more[id]
    ensures m + more == m
  {
  }

  lemma DefaultValuesAgree(s: FlatbedSettings, size: I32, maxHorizontal: I32, maxVertical: I32, itemName: string,
      fullName: string)
    requires s.xResolution == s.yResolution > 0 && s.xPosition == s.yPosition == 0 && s.depth == DepthFor(s.dataType)
    ensures var v := InitialValues(s.xResolution, s.dataType, s.xExtent, s.yExtent, size, maxHorizontal, maxVertical,
                                   itemName, fullName);
            v + SelectedValues(s, size, MinSizeThousandths(s.xResolution)) == v
  {
    hide MinSizeThousandths, DepthFor, ChannelsFor;
    var v := InitialValues(s.xResolution, s.dataType, s.xExtent, s.yExtent, size, maxHorizontal, maxVertical,
        itemName, fullName);
    NothingNew(v, SelectedValues(s, size, MinSizeThousandths(s.xResolution)));
  }

  lemma DefaultAttributesAgree(s: FlatbedSettings, resolutions: seq<I32>, dataTypes: seq<I32>)
    requires SupportedResolution(s.xResolution)
    requires s.xResolution == s.yResolution && s.xPosition == s.yPosition == 0 && s.depth == DepthFor(s.dataType)
    requires s.xExtent > 0 && s.yExtent > 0
    ensures 0 < OffsetStep(s.xResolution) <= s.xResolution as int
    ensures var a := InitialAttributes(s.xResolution, s.dataType, s.xExtent, s.yExtent, resolutions, dataTypes);
            a + SelectedAttributes(s, resolutions, Depths(dataTypes), s.xExtent, s.yExtent,
                OffsetStep(s.xResolution)) == a
  {
    hide OffsetStep, Depths;
    StepOf(s.xResolution);
    var step := OffsetStep(s.xResolution);
    Multiple(0, step, 0);
    var a := InitialAttributes(s.xResolution, s.dataType, s.xExtent, s.yExtent, resolutions, dataTypes);
    NothingNew(a, SelectedAttributes(s, resolutions, Depths(dataTypes), s.xExtent, s.yExtent, step));
  }

  /** A new item shows exactly what selecting its own default settings would show. */
  lemma InitialCatalogIsItsOwnSelection(caps: Capabilities, itemName: string, fullName: string)
    requires Flatbed(caps, itemName, fullName).Ok?
    ensures var c := Flatbed(caps, itemName, fullName).value;
            c.resolutions != [] && c.dataTypes != [] && WithSettings(c, DefaultSettings(c)) == Ok(c)
  {
    hide HasBit, Resolutions, ToRequest, BmpSize, UnitsPerPixel, BedPixels, OffsetStep, Depths, InitialValues,
      InitialAttributes, SelectedValues, SelectedAttributes, MinSizeThousandths, SizeThousandths;
    var c := Flatbed(caps, itemName, fullName).value;
    var s := DefaultSettings(c);
    var dpi := s.xResolution;
    assert dpi in Selectable(caps) && s.dataType in DataTypes(caps);
    WholeBedConverts(c.widthUnits, dpi);
    WholeBedConverts(c.heightUnits, dpi);
    RequestExactly(s);
    AcceptedExactly(c, s);
    FlatbedShape(caps, itemName, fullName);
    DefaultValuesAgree(s, BmpSize(s.xExtent, s.yExtent, s.depth).value, SizeThousandths(c.widthUnits).value,
                       SizeThousandths(c.heightUnits).value, itemName, fullName);
    DefaultAttributesAgree(s, c.resolutions, c.dataTypes);
  }
}
