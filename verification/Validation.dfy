/** An application writes properties of the service item; the driver reads them back, repairs what depends
    on them and publishes the difference (src/com_server/minidrv/properties/validation_entry.rs,
    src/com_server/minidrv/properties.rs). */
module Validation {
  import opened Basics
  import Wire
  import Bmp
  import opened Settings
  import opened Geometry
  import opened Catalog
  import opened Resolver
  import opened Delta

  // ---- Reading the service item ----

  predicate HasLong(values: map<nat, Value>, id: nat) {
    id in values && values[id].Long?
  }

  /** The settings a reader of the item finds, by the WIA property numbers. */
  function ReadSettings(values: map<nat, Value>): Option<FlatbedSettings> {
    if !(&& HasLong(values, 6147) && HasLong(values, 6148) && HasLong(values, 6149) && HasLong(values, 6150)
         && HasLong(values, 6151) && HasLong(values, 6152) && HasLong(values, 4103) && HasLong(values, 4104)
         && HasLong(values, 6154) && HasLong(values, 6155) && HasLong(values, 4107)
         && 4106 in values && values[4106].Guid?)
    then None
    else Some(FlatbedSettings(
      values[6147].n, values[6148].n, values[6149].n, values[6150].n, values[6151].n, values[6152].n,
      values[4103].n, values[4104].n, values[6154].n, values[6155].n, values[4107].n, values[4106].bytes))
  }

  /** What the service answers for the values before the writes: it keeps those only of written properties. */
  function Earlier(now: map<nat, Value>, previous: map<nat, Value>, written: seq<nat>): map<nat, Value> {
    (map id | id in now && id !in written :: now[id]) + (map id | id in previous && id in written :: previous[id])
  }

  /** Only `written` differs. */
  ghost predicate Wrote(previous: map<nat, Value>, now: map<nat, Value>, written: seq<nat>) {
    SameOutside(now, previous, set id | id in written)
  }

  lemma EarlierIsPrevious(now: map<nat, Value>, previous: map<nat, Value>, written: seq<nat>)
    requires Wrote(previous, now, written)
    ensures Earlier(now, previous, written) == previous
  {
    var older := Earlier(now, previous, written);
    forall id: nat
      ensures (id in older <==> id in previous) && (id in older ==> older[id] == previous[id])
    {
      assert id in (set i | i in written) <==> id in written;
    }
  }

  // ---- Publishing and reading are inverse ----

  const SETTING_IDS: set<nat> := {6147, 6148, 6149, 6150, 6151, 6152, 4103, 4104}

  /** The four settings no selection publishes are the ones `s` has. */
  predicate KeepsRest(values: map<nat, Value>, s: FlatbedSettings) {
    && HasLong(values, 6154) && values[6154].n == s.brightness
    && HasLong(values, 6155) && values[6155].n == s.contrast
    && HasLong(values, 4107) && values[4107].n == s.compression
    && 4106 in values && values[4106].Guid? && values[4106].bytes == s.format
  }

  /** What a selection publishes reads back as the settings selected. */
  lemma SelectionReadsBack(c: PropertyCatalog, s: FlatbedSettings, values: map<nat, Value>)
    requires WithSettings(c, s).Ok? && SameOn(values, WithSettings(c, s).value.values, DEPENDENT_VALUE_IDS)
    ensures ReadSettings(values) == Some(s) <==> KeepsRest(values, s)
  {
    hide ToRequest, BmpSize, MinSizeThousandths, OffsetStep, BedPixels, SelectedAttributes, ChannelsFor;
    SelectedSettings(c, s);
    assert forall id :: id in [6147, 6148, 6149, 6150, 6151, 6152, 4103, 4104] ==> id in DEPENDENT_VALUE_IDS;
  }

  lemma SelectedSettings(c: PropertyCatalog, s: FlatbedSettings)
    requires WithSettings(c, s).Ok?
    ensures var v := WithSettings(c, s).value.values;
            && SETTING_IDS <= v.Keys
            && v[6147] == Long(s.xResolution) && v[6148] == Long(s.yResolution)
            && v[6149] == Long(s.xPosition) && v[6150] == Long(s.yPosition)
            && v[6151] == Long(s.xExtent) && v[6152] == Long(s.yExtent)
            && v[4103] == Long(s.dataType) && v[4104] == Long(s.depth)
  {
    hide ToRequest, BmpSize, MinSizeThousandths, OffsetStep, BedPixels, SelectedAttributes, SelectedValues;
    AcceptedDataType(s);
    RequestExactly(s);
    var v := SelectedValues(s, BmpSize(s.xExtent, s.yExtent, s.depth).value, MinSizeThousandths(s.xResolution));
    ShownSettings(s, BmpSize(s.xExtent, s.yExtent, s.depth).value, MinSizeThousandths(s.xResolution));
    assert WithSettings(c, s).value.values == c.values + v;
  }

  lemma ShownSettings(s: FlatbedSettings, size: I32, minSize: I32)
    ensures var v := SelectedValues(s, size, minSize);
            && SETTING_IDS <= v.Keys
            && v[6147] == Long(s.xResolution) && v[6148] == Long(s.yResolution)
            && v[6149] == Long(s.xPosition) && v[6150] == Long(s.yPosition)
            && v[6151] == Long(s.xExtent) && v[6152] == Long(s.yExtent)
            && v[4103] == Long(s.dataType) && v[4104] == Long(s.depth)
  {
  }

  /** The item shows exactly these settings, all of it that depends on them included. */
  ghost predicate InSync(c: PropertyCatalog, s: FlatbedSettings, values: map<nat, Value>,
                         attributes: map<nat, Attribute>)
  {
    && WithSettings(c, s).Ok? && ReadSettings(values) == Some(s)
    && SameOn(values, WithSettings(c, s).value.values, DEPENDENT_VALUE_IDS)
    && SameOn(attributes, WithSettings(c, s).value.attributes, DEPENDENT_ATTRIBUTE_IDS)
  }

  /** What the item says of the picture is what the file of these settings will be. */
  lemma AdvertisedPicture(c: PropertyCatalog, s: FlatbedSettings, values: map<nat, Value>,
                          attributes: map<nat, Attribute>)
    requires InSync(c, s, values, attributes)
    ensures ToRequest(s).Ok?
    ensures var mode := ToRequest(s).value.mode;
            && {4109, 4112, 4114, 4116} <= values.Keys && values[4116].Long?
            && values[4109] == Long(mode.Channels()) && s.depth as int == 8 * mode.Channels()
            && values[4112] == Long(s.xExtent) && values[4114] == Long(s.yExtent)
            && s.xExtent > 0 && s.yExtent > 0
            && values[4116].n as int
               == Bmp.PixelOffset(mode) + s.yExtent as int * Bmp.Stride(Bmp.RowBytes(s.xExtent, mode))
  {
    hide ToRequest, BmpSize, MinSizeThousandths, OffsetStep, BedPixels, SelectedAttributes, SelectedValues,
      ReadSettings, Bmp.Stride, Bmp.RowBytes, Bmp.PixelOffset;
    AcceptedDataType(s);
    RequestExactly(s);
    var size := BmpSize(s.xExtent, s.yExtent, s.depth).value;
    SizeOfTheFile(s.xExtent, s.yExtent, s.depth, ToRequest(s).value.mode);
    ShownPicture(s, size, MinSizeThousandths(s.xResolution));
    assert WithSettings(c, s).value.values == c.values + SelectedValues(s, size, MinSizeThousandths(s.xResolution));
    assert forall id :: id in [4109, 4112, 4114, 4116] ==> id in DEPENDENT_VALUE_IDS;
  }

  lemma ShownPicture(s: FlatbedSettings, size: I32, minSize: I32)
    ensures var v := SelectedValues(s, size, minSize);
            && {4109, 4112, 4114, 4116} <= v.Keys
            && v[4109] == Long(ChannelsFor(s.dataType)) && v[4116] == Long(size)
            && v[4112] == Long(s.xExtent) && v[4114] == Long(s.yExtent)
  {
  }

  /** After the application's writes the item shows the baseline the difference is taken from. */
  lemma WrittenItemIsBaseline(c: PropertyCatalog, earlier: FlatbedSettings, previous: map<nat, Value>,
                              attributes: map<nat, Attribute>, now: map<nat, Value>, written: seq<nat>)
    requires InSync(c, earlier, previous, attributes) && Wrote(previous, now, written) && ReadSettings(now).Some?
    requires forall id :: id in written && id in DEPENDENT_VALUE_IDS ==> id in SETTING_IDS
    ensures WithServiceValues(WithSettings(c, earlier).value, ReadSettings(now).value).Ok?
    ensures var before := WithServiceValues(WithSettings(c, earlier).value, ReadSettings(now).value).value;
            && SameOn(now, before.values, DEPENDENT_VALUE_IDS)
            && SameOn(attributes, before.attributes, DEPENDENT_ATTRIBUTE_IDS)
  {
    hide WithSettings;
    SelectedSettings(c, earlier);
    var baseline := WithSettings(c, earlier).value;
    var current := ReadSettings(now).value;
    var before := WithServiceValues(baseline, current).value;
    assert before.values == baseline.values + ServiceValues(current);
    OverlaidSettings(now);
    hide ReadSettings, ServiceValues, WithServiceValues;
    forall id | id in DEPENDENT_VALUE_IDS
      ensures (id in now <==> id in before.values) && (id in now ==> now[id] == before.values[id])
    {
      if id !in SETTING_IDS {
        assert id !in (set i | i in written);
        assert id in now <==> id in previous;
      }
    }
  }

  lemma OverlaidSettings(now: map<nat, Value>)
    requires ReadSettings(now).Some?
    ensures var v := ServiceValues(ReadSettings(now).value);
            v.Keys == SETTING_IDS && forall id :: id in SETTING_IDS ==> id in now && now[id] == v[id]
  {
  }

  // ---- The validation callback ----

  /** What the item must hold after these writes. */
  function Answer(c: PropertyCatalog, previous: map<nat, Value>, now: map<nat, Value>, written: seq<nat>)
    : Result<FlatbedSettings, Hresult>
    requires ReadSettings(previous).Some? && ReadSettings(now).Some? && HasLong(now, CUR_INTENT)
  {
    var intent := if CUR_INTENT in written then Some(now[CUR_INTENT].n) else None;
    var request :- Requested(ReadSettings(now).value, intent, written);
    Resolved(c, ReadSettings(previous).value, request.0, request.1)
  }

  /** `checked` is the service's verdict on the written properties that are not settings, `reading` how
      reading the settings goes. `published` says the service's copy may have changed. */
  method Validate(item: ServiceItem, c: PropertyCatalog, previous: map<nat, Value>, written: seq<nat>,
                  checked: Result<(), Hresult>, reading: Result<(), Hresult>, texts: nat -> Result<(), Hresult>,
                  finalizer: Result<(), Hresult>)
    returns (r: Result<(), Hresult>, published: bool)
    requires Aligned(c) && c.ids != [] && ListsFit(c)
    requires ReadSettings(previous).Some? && InSync(c, ReadSettings(previous).value, previous, item.attributes)
    requires Wrote(previous, item.values, written)
    requires ReadSettings(item.values).Some? && HasLong(item.values, CUR_INTENT)
    requires forall id :: id in written && id in DEPENDENT_VALUE_IDS ==> id in SETTING_IDS
    modifies item
    ensures SameOutside(item.values, old(item.values), DEPENDENT_VALUE_IDS)
    ensures SameOutside(item.attributes, old(item.attributes), DEPENDENT_ATTRIBUTE_IDS)
    ensures published <==> written != [] && checked.Ok? && reading.Ok?
                           && Answer(c, previous, old(item.values), written).Ok?
    ensures !published ==> item.values == old(item.values) && item.attributes == old(item.attributes)
                           && item.asked == old(item.asked) && (r.Ok? <==> written == [])
    // Once publishing began only the service can fail it.
    ensures published && r.Err? ==> finalizer.Err? || (item.asked != [] && !item.asked[|item.asked| - 1].taken)
    ensures published && r.Ok? ==>
              InSync(c, Answer(c, previous, old(item.values), written).value, item.values, item.attributes)
  {
    hide WithSettings, WithServiceValues, Resolved, BuildDeltaPlan, SameOn, SameOutside, Aligned, ListsFit,
      ReadSettings, Wrote, PreparedCatalogs, Requested, Publication;
    Unchanged(item.values, DEPENDENT_VALUE_IDS);
    Unchanged(item.attributes, DEPENDENT_ATTRIBUTE_IDS);
    r, published := Ok(()), false;
    if written == [] {
      return;
    }
    var _ :- checked;
    var _ :- reading;
    EarlierIsPrevious(item.values, previous, written);
    var earlier := ReadSettings(Earlier(item.values, previous, written)).value;
    var current := ReadSettings(item.values).value;
    var intent := if CUR_INTENT in written then Some(item.values[CUR_INTENT].n) else None;
    var prepared, _ := PrepareCatalogs(c, earlier, current, intent, written);
    AnswerIsPrepared(c, previous, item.values, written);
    if prepared.Err? {
      return Err(prepared.error), false;
    }
    var (before, after) := prepared.value;
    WrittenItemIsBaseline(c, earlier, previous, item.attributes, item.values, written);
    PreparedPairIsPublishable(c, earlier, current, intent, written, texts);
    published := true;
    r := Update(item, before, after, texts, finalizer);
    if r.Ok? {
      RestIsKept(c, previous, old(item.values), item.values, written);
      SelectionReadsBack(c, Answer(c, previous, old(item.values), written).value, item.values);
    }
  }

  lemma AnswerIsPrepared(c: PropertyCatalog, previous: map<nat, Value>, now: map<nat, Value>, written: seq<nat>)
    requires ReadSettings(previous).Some? && ReadSettings(now).Some? && HasLong(now, CUR_INTENT)
    ensures var earlier, current := ReadSettings(previous).value, ReadSettings(now).value;
            var intent := if CUR_INTENT in written then Some(now[CUR_INTENT].n) else None;
            var prepared := PreparedCatalogs(c, earlier, current, intent, written);
            && (prepared.Ok? <==> Answer(c, previous, now, written).Ok?)
            && (prepared.Ok? ==>
                  && WithSettings(c, earlier).Ok? && WithServiceValues(WithSettings(c, earlier).value, current).Ok?
                  && prepared.value.0 == WithServiceValues(WithSettings(c, earlier).value, current).value
                  && WithSettings(c, Answer(c, previous, now, written).value) == Ok(prepared.value.1))
  {
    hide WithSettings, ReadSettings, ResolvedAxis, ResolvedMode, ResolvedResolution;
    if Answer(c, previous, now, written).Ok? {
      SelectedSettings(c, ReadSettings(previous).value);
    }
  }

  /** Brightness, contrast, compression and format are neither repaired nor published. */
  lemma RestIsKept(c: PropertyCatalog, previous: map<nat, Value>, now: map<nat, Value>, after: map<nat, Value>,
                   written: seq<nat>)
    requires ReadSettings(previous).Some? && ReadSettings(now).Some? && HasLong(now, CUR_INTENT)
    requires Answer(c, previous, now, written).Ok? && SameOutside(after, now, DEPENDENT_VALUE_IDS)
    ensures KeepsRest(after, Answer(c, previous, now, written).value)
  {
    hide Resolved, Requested, ReadSettings, SameOutside, KeepsRest;
    var intent := if CUR_INTENT in written then Some(now[CUR_INTENT].n) else None;
    var request := Requested(ReadSettings(now).value, intent, written).value;
    IntentKeepsRest(ReadSettings(now).value, intent, written);
    ExplicitValuesAreKept(c, ReadSettings(previous).value, request.0, request.1);
    RestOutside(now, after, ReadSettings(now).value);
    SameRest(after, ReadSettings(now).value, Answer(c, previous, now, written).value);
  }

  lemma RestOutside(now: map<nat, Value>, after: map<nat, Value>, s: FlatbedSettings)
    requires ReadSettings(now) == Some(s) && SameOutside(after, now, DEPENDENT_VALUE_IDS)
    ensures KeepsRest(after, s)
  {
    assert forall id :: id in [6154, 6155, 4107, 4106] ==> id !in DEPENDENT_VALUE_IDS && id in after;
  }

  lemma SameRest(values: map<nat, Value>, s: FlatbedSettings, t: FlatbedSettings)
    requires KeepsRest(values, s) && s.brightness == t.brightness && s.contrast == t.contrast
    requires s.compression == t.compression && s.format == t.format
    ensures KeepsRest(values, t)
  {
  }

  lemma IntentKeepsRest(current: FlatbedSettings, intent: Option<I32>, written: seq<nat>)
    requires Requested(current, intent, written).Ok?
    ensures var target := Requested(current, intent, written).value.0;
            target == current.(dataType := target.dataType)
  {
  }

  // ---- An item's whole life ----

  /** One round: the application's writes in the order they are reported, and how the service behaves. */
  datatype Round = Round(changes: map<nat, Value>, written: seq<nat>, checked: Result<(), Hresult>,
                         reading: Result<(), Hresult>, finalizer: Result<(), Hresult>)

  /** What the service lets an application write: each value in its property's type, read-only ones never. */
  predicate Writable(values: map<nat, Value>, round: Round) {
    && round.changes.Keys == (set id | id in round.written)
    && (forall id :: id in round.written && id in DEPENDENT_VALUE_IDS ==> id in SETTING_IDS)
    && ReadSettings(values + round.changes).Some? && HasLong(values + round.changes, CUR_INTENT)
  }

  /** Why a round ends an item's life: the service refuses a write, cannot read the settings, rejects the
      properties or refuses a publication, or nothing acceptable follows from the writes. */
  ghost predicate Rejected(c: PropertyCatalog, previous: map<nat, Value>, round: Round, asked: seq<Write>) {
    || !Writable(previous, round) || round.checked.Err? || round.reading.Err? || round.finalizer.Err?
    || (asked != [] && !asked[|asked| - 1].taken)
    || (ReadSettings(previous).Some? && Answer(c, previous, previous + round.changes, round.written).Err?)
  }

  lemma ChangesAreWrites(values: map<nat, Value>, round: Round)
    requires round.changes.Keys == (set id | id in round.written)
    ensures Wrote(values, values + round.changes, round.written)
  {
  }

  lemma ReadingIsTyped(values: map<nat, Value>, later: map<nat, Value>)
    requires HasLong(values, CUR_INTENT) && SameOutside(later, values, DEPENDENT_VALUE_IDS)
    ensures HasLong(later, CUR_INTENT)
  {
    assert CUR_INTENT !in DEPENDENT_VALUE_IDS;
  }

  /** A new item is in step with the catalog's own default settings. */
  lemma NewItemIsInSync(caps: Wire.Capabilities, itemName: string, fullName: string)
    requires Flatbed(caps, itemName, fullName).Ok?
    ensures var c := Flatbed(caps, itemName, fullName).value;
            && Aligned(c) && c.ids != [] && ListsFit(c) && c.resolutions != [] && c.dataTypes != []
            && InSync(c, DefaultSettings(c), c.values, c.attributes) && HasLong(c.values, CUR_INTENT)
  {
    hide Flatbed, Aligned, ListsFit, WithSettings;
    FlatbedIsAligned(caps, itemName, fullName);
    InitialCatalogIsItsOwnSelection(caps, itemName, fullName);
    InitialRest(caps, itemName, fullName);
    var c := Flatbed(caps, itemName, fullName).value;
    SelectionReadsBack(c, DefaultSettings(c), c.values);
  }

  lemma InitialRest(caps: Wire.Capabilities, itemName: string, fullName: string)
    requires Flatbed(caps, itemName, fullName).Ok?
    ensures var c := Flatbed(caps, itemName, fullName).value;
            c.resolutions != [] && c.dataTypes != [] && KeepsRest(c.values, DefaultSettings(c))
            && HasLong(c.values, CUR_INTENT)
  {
    hide BmpSize, BedPixels, MinSizeThousandths, OffsetStep, Depths, Wire.HasBit, SizeThousandths, Supported,
      InitialAttributes, ChannelsFor, DepthFor;
  }

  /** Any number of rounds on one new item of any device, until one fails. The settings a transfer reads
      from the item afterwards are always ones the catalog accepts, and make a command this device takes,
      for exactly the rectangle, mode and resolution they name. */
  method Live(caps: Wire.Capabilities, itemName: string, fullName: string, rounds: seq<Round>,
              texts: nat -> Result<(), Hresult>)
    returns (item: ServiceItem, c: PropertyCatalog, alive: bool, ghost done: nat, ghost previous: map<nat, Value>)
    requires Flatbed(caps, itemName, fullName).Ok?
    ensures c == Flatbed(caps, itemName, fullName).value
    ensures !alive ==> done < |rounds| && Rejected(c, previous, rounds[done], item.asked)
    ensures alive ==>
              && done == |rounds| && ReadSettings(item.values).Some?
              && var s := ReadSettings(item.values).value;
                 && InSync(c, s, item.values, item.attributes)
                 && ToRequest(s).Ok? && Wire.Command(ToRequest(s).value, caps).Ok?
                 && Wire.DecodeWindow(Wire.Command(ToRequest(s).value, caps).value) == Some(ToRequest(s).value)
  {
    hide Flatbed, InSync, ReadSettings, WithSettings, ToRequest, Wire.Command, Wire.DecodeWindow, Aligned, ListsFit,
      Resolved, SameOutside, SameOn, Wrote, Answer;
    NewItemIsInSync(caps, itemName, fullName);
    c := Flatbed(caps, itemName, fullName).value;
    item := new ServiceItem(c);
    ghost var s := DefaultSettings(c);
    alive, done, previous := false, 0, map[];
    var i := 0;
    while i < |rounds|
      invariant 0 <= i <= |rounds| && fresh(item) && done == i
      invariant InSync(c, s, item.values, item.attributes) && HasLong(item.values, CUR_INTENT)
    {
      var round, before := rounds[i], item.values;
      previous := before;
      if !Writable(before, round) {
        return;
      }
      ChangesAreWrites(before, round);
      SyncMeansAccepted(c, s, before, item.attributes);
      item.values := before + round.changes;
      ghost var now := item.values;
      var r, published :=
        Validate(item, c, before, round.written, round.checked, round.reading, texts, round.finalizer);
      if r.Err? {
        return;
      }
      ReadingIsTyped(now, item.values);
      if published {
        s := Answer(c, before, now, round.written).value;
      } else {
        assert item.values == before;
      }
      i, done := i + 1, done + 1;
    }
    alive := true;
    SyncMeansAccepted(c, s, item.values, item.attributes);
    AcceptedSettingsReachTheWindow(caps, itemName, fullName, s);
  }

  lemma SyncMeansAccepted(c: PropertyCatalog, s: FlatbedSettings, values: map<nat, Value>,
                          attributes: map<nat, Attribute>)
    requires InSync(c, s, values, attributes)
    ensures WithSettings(c, s).Ok? && ReadSettings(values) == Some(s)
  {
  }
}
