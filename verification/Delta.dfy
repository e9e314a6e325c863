/** Publishing the difference between two catalogs to the service item
    (src/com_server/minidrv/properties/native.rs). */
module Delta {
  import opened Basics
  import Wire
  import opened Settings
  import opened Geometry
  import opened Catalog
  import opened Resolver

  const DEPENDENT_VALUE_IDS: set<nat> :=
    {4103, 4104, 4109, 4112, 4114, 4116, 6147, 6148, 6149, 6150, 6151, 6152, 6167, 6168}
  const DEPENDENT_ATTRIBUTE_IDS: set<nat> := {4104, 6148, 6149, 6150, 6151, 6152}

  /** Every listed property has a value and a validity description, and nothing else does. */
  ghost predicate Aligned(c: PropertyCatalog) {
    && c.values.Keys == c.attributes.Keys
    && (forall id: nat :: id in c.ids <==> id in c.values.Keys)
  }

  datatype DeltaPlan = DeltaPlan(valueIds: seq<nat>, attributeIds: seq<nat>)

  /** The listed ids whose entries differ, in publication order. */
  function Changed<V(==)>(ids: seq<nat>, before: map<nat, V>, after: map<nat, V>): (changed: seq<nat>)
    requires forall i :: 0 <= i < |ids| ==> ids[i] in before && ids[i] in after
    ensures forall id: nat :: id in changed <==> id in ids && before[id] != after[id]
  {
    if ids == [] then []
    else (if before[ids[0]] != after[ids[0]] then [ids[0]] else []) + Changed(ids[1..], before, after)
  }

  predicate Within(ids: seq<nat>, allowed: set<nat>) {
    forall i :: 0 <= i < |ids| ==> ids[i] in allowed
  }

  /** A list of allowed values must have some, and its length must fit. */
  predicate Storable(attribute: Attribute) {
    match attribute
    case ListLong(values, _) => 0 < |values| <= I32_MAX
    case ListGuid(guids, _) => 0 < |guids| <= I32_MAX
    case _ => true
  }

  /** Building the storage of the planned values; `texts` says how allocating each string goes. */
  function StoreValues(ids: seq<nat>, values: map<nat, Value>, texts: nat -> Result<(), Hresult>)
    : (r: Result<(), Hresult>)
    requires forall id :: id in ids ==> id in values
    ensures r.Ok? <==> forall id :: id in ids && values[id].Text? ==> texts(id).Ok?
  {
    if ids == [] then Ok(())
    else
      var _ :- if values[ids[0]].Text? then texts(ids[0]) else Ok(());
      StoreValues(ids[1..], values, texts)
  }

  function StoreAttributes(ids: seq<nat>, attributes: map<nat, Attribute>): (r: Result<(), Hresult>)
    requires forall id :: id in ids ==> id in attributes
    ensures r.Ok? <==> forall id :: id in ids ==> Storable(attributes[id])
  {
    if ids == [] then Ok(())
    else if !Storable(attributes[ids[0]]) then Err(E_INVALIDARG)
    else StoreAttributes(ids[1..], attributes)
  }

  function BuildDeltaPlan(before: PropertyCatalog, after: PropertyCatalog, texts: nat -> Result<(), Hresult>)
    : Result<DeltaPlan, Hresult>
    requires Aligned(before) && Aligned(after)
  {
    if before.ids == [] || before.ids != after.ids then Err(E_INVALIDARG)
    else
      var plan := DeltaPlan(Changed(before.ids, before.values, after.values),
                            Changed(before.ids, before.attributes, after.attributes));
      if !Within(plan.valueIds, DEPENDENT_VALUE_IDS) || !Within(plan.attributeIds, DEPENDENT_ATTRIBUTE_IDS) then
        Err(E_INVALIDARG)
      else
        var _ :- StoreValues(plan.valueIds, after.values, texts);
        var _ :- StoreAttributes(plan.attributeIds, after.attributes);
        Ok(plan)
  }

  /** Exactly which pairs the planner takes. */
  lemma PlanExactly(before: PropertyCatalog, after: PropertyCatalog, texts: nat -> Result<(), Hresult>)
    requires Aligned(before) && Aligned(after)
    ensures BuildDeltaPlan(before, after, texts).Ok? <==>
              && before.ids == after.ids != []
              && (forall id :: id in before.values && before.values[id] != after.values[id] ==>
                    id in DEPENDENT_VALUE_IDS && (after.values[id].Text? ==> texts(id).Ok?))
              && (forall id :: id in before.attributes && before.attributes[id] != after.attributes[id] ==>
                    id in DEPENDENT_ATTRIBUTE_IDS && Storable(after.attributes[id]))
  {
    hide Storable, Changed, Within, StoreValues, StoreAttributes;
    if before.ids == after.ids != [] {
      var values := Changed(before.ids, before.values, after.values);
      var attributes := Changed(before.ids, before.attributes, after.attributes);
      assert forall id :: id in values <==> id in before.values && before.values[id] != after.values[id];
      assert forall id :: id in attributes <==>
                            id in before.attributes && before.attributes[id] != after.attributes[id];
      WithinMeansAll(values, DEPENDENT_VALUE_IDS);
      WithinMeansAll(attributes, DEPENDENT_ATTRIBUTE_IDS);
    }
  }

  lemma WithinMeansAll(ids: seq<nat>, allowed: set<nat>)
    ensures Within(ids, allowed) <==> forall id :: id in ids ==> id in allowed
  {
  }

  /** The entries of `m` at `ids`. */
  function Entries<V>(m: map<nat, V>, ids: seq<nat>): map<nat, V>
    requires forall id :: id in ids ==> id in m
  {
    map id | id in ids :: m[id]
  }

  lemma ChangesComplete<V>(ids: seq<nat>, before: map<nat, V>, after: map<nat, V>)
    requires forall i :: 0 <= i < |ids| ==> ids[i] in before && ids[i] in after
    requires forall id: nat :: (id in before.Keys || id in after.Keys) ==> id in ids
    ensures before + Entries(after, Changed(ids, before, after)) == after
  {
  }

  // ---- The pair the resolver prepares ----

  lemma AlignedSelection(c: PropertyCatalog, s: FlatbedSettings)
    requires Aligned(c) && WithSettings(c, s).Ok?
    ensures Aligned(WithSettings(c, s).value) && WithSettings(c, s).value.ids == c.ids
    ensures var r := WithSettings(c, s).value;
            && (forall id :: id in c.values && id !in DEPENDENT_VALUE_IDS ==> r.values[id] == c.values[id])
            && (forall id :: id in c.attributes && id !in DEPENDENT_ATTRIBUTE_IDS ==>
                  r.attributes[id] == c.attributes[id])
  {
    hide ToRequest, BmpSize, MinSizeThousandths, OffsetStep, BedPixels;
  }

  lemma AlignedOverlay(c: PropertyCatalog, s: FlatbedSettings)
    requires Aligned(c) && WithServiceValues(c, s).Ok?
    ensures var r := WithServiceValues(c, s).value;
            && Aligned(r) && r.ids == c.ids && r.attributes == c.attributes
            && (forall id :: id in c.values && id !in DEPENDENT_VALUE_IDS ==> r.values[id] == c.values[id])
  {
  }

  /** The lists an item offers are short enough to publish. */
  predicate ListsFit(c: PropertyCatalog) {
    |c.resolutions| <= I32_MAX && |c.dataTypes| <= I32_MAX
  }

  lemma {:induction false} ListedDepths(dataTypes: seq<I32>, dataType: I32)
    ensures |Depths(dataTypes)| <= |dataTypes|
    ensures dataType in dataTypes && DepthFor(dataType) > 0 ==> Depths(dataTypes) != []
  {
    if dataTypes != [] {
      ListedDepths(dataTypes[1..], dataType);
    }
  }

  /** Whatever a selection writes can be stored: numbers, and lists that hold at least the selected value. */
  lemma SelectionIsStorable(c: PropertyCatalog, s: FlatbedSettings)
    requires ListsFit(c) && WithSettings(c, s).Ok?
    ensures var r := WithSettings(c, s).value;
            && (forall id :: id in r.values && id in DEPENDENT_VALUE_IDS ==> r.values[id].Long?)
            && (forall id :: id in r.attributes && id in DEPENDENT_ATTRIBUTE_IDS ==> Storable(r.attributes[id]))
  {
    hide ToRequest, BmpSize, MinSizeThousandths, OffsetStep, BedPixels, Depths, SelectedValues, SelectedAttributes,
      Storable;
    ListedDepths(c.dataTypes, s.dataType);
    AcceptedDataType(s);
    var (maxWidth, maxHeight) := c.MaxExtent(s.xResolution);
    RequestExactly(s);
    StepOf(s.xResolution);
    SelectedNumbers(s, BmpSize(s.xExtent, s.yExtent, s.depth).value, MinSizeThousandths(s.xResolution));
    SelectedLists(s, c.resolutions, c.AllDepths(), maxWidth, maxHeight, OffsetStep(s.xResolution));
  }

  lemma SelectedNumbers(s: FlatbedSettings, size: I32, minSize: I32)
    ensures forall id :: id in DEPENDENT_VALUE_IDS ==>
              id in SelectedValues(s, size, minSize) && SelectedValues(s, size, minSize)[id].Long?
  {
  }

  lemma SelectedLists(s: FlatbedSettings, resolutions: seq<I32>, depths: seq<I32>, maxWidth: I32, maxHeight: I32,
                      step: I32)
    requires 0 <= s.xPosition && 0 < s.xExtent && s.xPosition as int + s.xExtent as int <= maxWidth as int
    requires 0 <= s.yPosition && 0 < s.yExtent && s.yPosition as int + s.yExtent as int <= maxHeight as int
    requires step > 0 && 0 < |resolutions| <= I32_MAX && 0 < |depths| <= I32_MAX
    ensures var selected := SelectedAttributes(s, resolutions, depths, maxWidth, maxHeight, step);
            forall id :: id in DEPENDENT_ATTRIBUTE_IDS ==> id in selected && Storable(selected[id])
  {
  }

  lemma AcceptedDataType(s: FlatbedSettings)
    requires ToRequest(s).Ok?
    ensures DepthFor(s.dataType) > 0 && SupportedResolution(s.xResolution)
  {
  }

  /** The two describe the same item, differ in dependent properties only, and the differences can be
      stored. */
  ghost predicate Publishable(before: PropertyCatalog, after: PropertyCatalog) {
    && Aligned(before) && Aligned(after) && before.ids == after.ids && before.ids != []
    && (forall id :: id in before.values && id !in DEPENDENT_VALUE_IDS ==> after.values[id] == before.values[id])
    && (forall id :: id in before.attributes && id !in DEPENDENT_ATTRIBUTE_IDS ==>
          after.attributes[id] == before.attributes[id])
    && (forall id :: id in after.values && id in DEPENDENT_VALUE_IDS ==> after.values[id].Long?)
    && (forall id :: id in after.attributes && id in DEPENDENT_ATTRIBUTE_IDS ==> Storable(after.attributes[id]))
  }

  lemma PublishableIsPlanned(before: PropertyCatalog, after: PropertyCatalog, texts: nat -> Result<(), Hresult>)
    requires Publishable(before, after)
    ensures BuildDeltaPlan(before, after, texts).Ok?
  {
    hide BuildDeltaPlan, Storable;
    PlanExactly(before, after, texts);
  }

  /** The planner never rejects a pair the resolver prepared, even when no string can be allocated. */
  lemma PreparedPairIsPublishable(c: PropertyCatalog, earlier: FlatbedSettings, current: FlatbedSettings,
                                  intent: Option<I32>, written: seq<nat>, texts: nat -> Result<(), Hresult>)
    requires Aligned(c) && c.ids != [] && ListsFit(c)
    requires PreparedCatalogs(c, earlier, current, intent, written).Ok?
    ensures var (before, after) := PreparedCatalogs(c, earlier, current, intent, written).value;
            Publishable(before, after) && BuildDeltaPlan(before, after, texts).Ok?
  {
    hide WithSettings, WithServiceValues, Changed, Resolved, Requested, BuildDeltaPlan, Storable, ListsFit;
    var (before, after) := PreparedCatalogs(c, earlier, current, intent, written).value;
    var request := Requested(current, intent, written).value;
    AlignedSelection(c, earlier);
    AlignedOverlay(WithSettings(c, earlier).value, current);
    AlignedSelection(c, Resolved(c, earlier, request.0, request.1).value);
    SelectionIsStorable(c, Resolved(c, earlier, request.0, request.1).value);
    PublishableIsPlanned(before, after, texts);
  }

  /** A plan names exactly the properties that differ, all of them dependent, and writing just those
      turns the one catalog into the other. */
  lemma PlanIsExactDifference(before: PropertyCatalog, after: PropertyCatalog, texts: nat -> Result<(), Hresult>)
    requires Aligned(before) && Aligned(after) && BuildDeltaPlan(before, after, texts).Ok?
    ensures var plan := BuildDeltaPlan(before, after, texts).value;
            && (forall id :: id in plan.valueIds <==> id in before.values && before.values[id] != after.values[id])
            && (forall id ::
                  id in plan.attributeIds <==> id in before.attributes && before.attributes[id] != after.attributes[id])
            && (forall id :: id in plan.valueIds ==> id in DEPENDENT_VALUE_IDS && id in after.values)
            && (forall id :: id in plan.attributeIds ==> id in DEPENDENT_ATTRIBUTE_IDS && id in after.attributes)
            && before.values + Entries(after.values, plan.valueIds) == after.values
            && before.attributes + Entries(after.attributes, plan.attributeIds) == after.attributes
  {
    hide Changed, Entries, Storable;
    ChangesComplete(before.ids, before.values, after.values);
    ChangesComplete(before.ids, before.attributes, after.attributes);
  }

  lemma EveryIdHasAValue(id: nat, dpi: I32, dataType: I32, width: I32, height: I32, size: I32, mh: I32, mv: I32,
                         itemName: string, fullName: string)
    requires dpi > 0
    ensures id in InitialValues(dpi, dataType, width, height, size, mh, mv, itemName, fullName) <==> id in FLATBED_IDS
  {
    hide MinSizeThousandths, ChannelsFor, DepthFor;
  }

  lemma EveryIdHasAnAttribute(id: nat, dpi: I32, dataType: I32, width: I32, height: I32, resolutions: seq<I32>,
                              dataTypes: seq<I32>)
    requires SupportedResolution(dpi)
    ensures id in InitialAttributes(dpi, dataType, width, height, resolutions, dataTypes) <==> id in FLATBED_IDS
  {
    hide OffsetStep, Depths, DepthFor;
    StepOf(dpi);
  }

  lemma {:induction false} FewerSupported(resolutions: seq<int>)
    ensures |Supported(resolutions)| <= |resolutions|
  {
    if resolutions != [] {
      FewerSupported(resolutions[1..]);
    }
  }

  lemma {:induction false} FewerReported(table: seq<(int, nat)>, mask: nat)
    requires Wire.Weighted(table)
    ensures |Wire.Reported(table, mask)| <= |table|
  {
    if table != [] {
      FewerReported(table[1..], mask);
    }
  }

  lemma FlatbedListsFit(caps: Wire.Capabilities, itemName: string, fullName: string)
    requires Flatbed(caps, itemName, fullName).Ok?
    ensures ListsFit(Flatbed(caps, itemName, fullName).value)
  {
    hide BmpSize, BedPixels, MinSizeThousandths, OffsetStep, Depths, Wire.HasBit, SizeThousandths, Supported,
      InitialValues, InitialAttributes;
    FewerReported(Wire.RESOLUTION_TABLE, caps.resolutionMask);
    FewerSupported(Wire.Resolutions(caps));
  }

  /** The catalog of a real device has that shape. */
  lemma FlatbedIsAligned(caps: Wire.Capabilities, itemName: string, fullName: string)
    requires Flatbed(caps, itemName, fullName).Ok?
    ensures var c := Flatbed(caps, itemName, fullName).value;
            Aligned(c) && c.ids != [] && ListsFit(c)
  {
    hide BmpSize, BedPixels, MinSizeThousandths, OffsetStep, Depths, Wire.HasBit, SizeThousandths, Supported,
      InitialValues, InitialAttributes;
    FlatbedListsFit(caps, itemName, fullName);
    var c := Flatbed(caps, itemName, fullName).value;
    var (dpi, dataType) := (c.resolutions[0], c.dataTypes[0]);
    assert dpi in Selectable(caps);
    var (width, height) := (BedPixels(c.widthUnits, dpi), BedPixels(c.heightUnits, dpi));
    forall id: nat
      ensures (id in c.values <==> id in c.ids) && (id in c.attributes <==> id in c.ids)
    {
      EveryIdHasAValue(id, dpi, dataType, width, height, BmpSize(width, height, DepthFor(dataType)).value,
                       SizeThousandths(c.widthUnits).value, SizeThousandths(c.heightUnits).value, itemName, fullName);
      EveryIdHasAnAttribute(id, dpi, dataType, width, height, c.resolutions, c.dataTypes);
    }
  }

  // ---- The service item ----

  /** Everything outside `allowed` is the same in both. */
  ghost predicate SameOutside<V>(m: map<nat, V>, n: map<nat, V>, allowed: set<nat>) {
    forall id: nat :: id !in allowed ==> (id in m <==> id in n) && (id in m ==> m[id] == n[id])
  }

  lemma Unchanged<V>(m: map<nat, V>, allowed: set<nat>)
    ensures SameOutside(m, m, allowed)
  {
  }

  lemma SameOutsideMore<V>(m: map<nat, V>, n: map<nat, V>, fewer: set<nat>, more: set<nat>)
    requires SameOutside(m, n, fewer) && fewer <= more
    ensures SameOutside(m, n, more)
  {
  }

  /** On `ids` the two are the same. */
  ghost predicate SameOn<V>(m: map<nat, V>, n: map<nat, V>, ids: set<nat>) {
    forall id: nat :: id in ids ==> (id in m <==> id in n) && (id in m ==> m[id] == n[id])
  }

  lemma SameOnBoth<V>(m: map<nat, V>, n: map<nat, V>, changes: map<nat, V>, ids: set<nat>)
    requires SameOn(m, n, ids)
    ensures SameOn(m + changes, n + changes, ids)
  {
  }

  datatype Request = Numbers(changes: map<nat, Value>) | Description(id: nat, attribute: Attribute)
  datatype Write = Write(request: Request, taken: bool)

  /** The descriptions to publish, one request each. */
  ghost function Descriptions(wanted: map<nat, Attribute>, ids: seq<nat>): (writes: seq<Write>)
    requires forall id :: id in ids ==> id in wanted
    ensures |writes| == |ids|
    ensures forall i :: 0 <= i < |ids| ==> writes[i] == Write(Description(ids[i], wanted[ids[i]]), true)
  {
    seq(|ids|, i requires 0 <= i < |ids| => Write(Description(ids[i], wanted[ids[i]]), true))
  }

  /** Everything a plan publishes, in order: all values at once, unless there are none, then each description. */
  ghost function Publication(plan: DeltaPlan, after: PropertyCatalog): seq<Write>
    requires forall id :: id in plan.valueIds ==> id in after.values
    requires forall id :: id in plan.attributeIds ==> id in after.attributes
  {
    (if plan.valueIds == [] then [] else [Write(Numbers(Entries(after.values, plan.valueIds)), true)])
    + Descriptions(after.attributes, plan.attributeIds)
  }

  /** The service took the first of these writes, refused the next and was asked for nothing more. */
  ghost predicate RefusedAmong(asked: seq<Write>, writes: seq<Write>) {
    && 0 < |asked| <= |writes|
    && asked == writes[..|asked| - 1] + [writes[|asked| - 1].(taken := false)]
  }

  lemma RefusedFirst(write: Write, later: seq<Write>)
    requires write.taken
    ensures RefusedAmong([write.(taken := false)], [write] + later)
    ensures [write.(taken := false)] != [write] + later
  {
    assert ([write.(taken := false)])[0] != ([write] + later)[0];
  }

  lemma RefusedLater(asked: seq<Write>, first: seq<Write>, writes: seq<Write>)
    requires RefusedAmong(asked, writes) && asked != writes
    ensures RefusedAmong(first + asked, first + writes) && first + asked != first + writes
  {
    assert (first + asked)[|first|..] == asked && (first + writes)[|first|..] == writes;
    assert (first + writes)[..|first + asked| - 1] == first + writes[..|asked| - 1];
  }

  /** The service's copy of one item. A refused write may have been applied in part, but never to
      properties it was not given. */
  class ServiceItem {
    var values: map<nat, Value>
    var attributes: map<nat, Attribute>
    /** Every write it was asked for, and whether it took it. */
    ghost var asked: seq<Write>

    constructor (c: PropertyCatalog)
      ensures values == c.values && attributes == c.attributes && asked == []
    {
      values, attributes, asked := c.values, c.attributes, [];
    }

    method WriteValues(changes: map<nat, Value>) returns (hr: Hresult)
      modifies this`values, this`asked
      ensures asked == old(asked) + [Write(Numbers(changes), hr == 0)]
      ensures hr == 0 ==> values == old(values) + changes
      ensures SameOutside(values, old(values), changes.Keys)
    {
      hr := *;
      asked := asked + [Write(Numbers(changes), hr == 0)];
      var partial: map<nat, Value> := *;
      if hr == 0 {
        values := values + changes;
      } else if partial.Keys <= changes.Keys {
        values := values + partial;
      }
    }

    method SetAttribute(id: nat, attribute: Attribute) returns (hr: Hresult)
      modifies this`attributes, this`asked
      ensures asked == old(asked) + [Write(Description(id, attribute), hr == 0)]
      ensures hr == 0 ==> attributes == old(attributes)[id := attribute]
      ensures hr != 0 ==> attributes == old(attributes) || attributes == old(attributes)[id := attribute]
    {
      hr := *;
      asked := asked + [Write(Description(id, attribute), hr == 0)];
      var applied: bool := *;
      if hr == 0 || applied {
        attributes := attributes[id := attribute];
      }
    }
  }

  /** Only S_OK is success; a positive result is reported as unexpected. */
  function EnsureOk(hr: Hresult): Result<(), Hresult> {
    if hr == 0 then Ok(()) else if hr < 0 then Err(hr) else Err(E_UNEXPECTED)
  }

  /** Values in one call, then each validity description, then the service's own validation; the
      first refusal ends it. Properties the plan does not name may differ from both catalogs. */
  method Update(item: ServiceItem, before: PropertyCatalog, after: PropertyCatalog,
                texts: nat -> Result<(), Hresult>, finalizer: Result<(), Hresult>)
    returns (r: Result<(), Hresult>)
    requires Aligned(before) && Aligned(after)
    requires SameOn(item.values, before.values, DEPENDENT_VALUE_IDS)
    requires SameOn(item.attributes, before.attributes, DEPENDENT_ATTRIBUTE_IDS)
    modifies item
    ensures BuildDeltaPlan(before, after, texts).Err? ==>
              && r.Err? && item.asked == old(item.asked)
              && item.values == old(item.values) && item.attributes == old(item.attributes)
    // A planned update asks for exactly the difference, in order, up to the first refusal, and fails
    // only by a refusal or the service's own validation.
    ensures BuildDeltaPlan(before, after, texts).Ok? ==>
              var plan := BuildDeltaPlan(before, after, texts).value;
              && (forall id :: id in plan.valueIds ==> id in after.values)
              && (forall id :: id in plan.attributeIds ==> id in after.attributes)
              && old(item.asked) <= item.asked
              && (var asked := item.asked[|old(item.asked)|..];
                  if asked == Publication(plan, after) then r.Ok? == finalizer.Ok?
                  else r.Err? && RefusedAmong(asked, Publication(plan, after)))
    ensures r.Ok? ==> SameOn(item.values, after.values, DEPENDENT_VALUE_IDS)
                      && SameOn(item.attributes, after.attributes, DEPENDENT_ATTRIBUTE_IDS)
    ensures SameOutside(item.values, old(item.values), DEPENDENT_VALUE_IDS)
    ensures SameOutside(item.attributes, old(item.attributes), DEPENDENT_ATTRIBUTE_IDS)
  {
    hide Changed, Entries, BuildDeltaPlan, Aligned, SameOutside, SameOn, RefusedAmong, Publication;
    Unchanged(item.values, DEPENDENT_VALUE_IDS);
    Unchanged(item.attributes, DEPENDENT_ATTRIBUTE_IDS);
    var plan :- BuildDeltaPlan(before, after, texts);
    PlanIsExactDifference(before, after, texts);
    ghost var asked;
    r, asked := Publish(item, plan, after);
    if r.Err? {
      return;
    }
    SameOnBoth(old(item.values), before.values, Entries(after.values, plan.valueIds), DEPENDENT_VALUE_IDS);
    SameOnBoth(old(item.attributes), before.attributes, Entries(after.attributes, plan.attributeIds),
               DEPENDENT_ATTRIBUTE_IDS);
    if finalizer.Err? {
      return if finalizer.error < 0 then finalizer else Err(E_UNEXPECTED);
    }
  }

  method Publish(item: ServiceItem, plan: DeltaPlan, after: PropertyCatalog)
    returns (r: Result<(), Hresult>, ghost asked: seq<Write>)
    requires forall id :: id in plan.valueIds ==> id in after.values && id in DEPENDENT_VALUE_IDS
    requires forall id :: id in plan.attributeIds ==> id in after.attributes && id in DEPENDENT_ATTRIBUTE_IDS
    modifies item
    ensures item.asked == old(item.asked) + asked
    ensures r.Ok? <==> asked == Publication(plan, after)
    ensures r.Err? ==> RefusedAmong(asked, Publication(plan, after))
    ensures r.Ok? ==> item.values == old(item.values) + Entries(after.values, plan.valueIds)
                      && item.attributes == old(item.attributes) + Entries(after.attributes, plan.attributeIds)
    ensures SameOutside(item.values, old(item.values), DEPENDENT_VALUE_IDS)
    ensures SameOutside(item.attributes, old(item.attributes), DEPENDENT_ATTRIBUTE_IDS)
  {
    hide Entries, SameOutside, RefusedAmong, Descriptions;
    Unchanged(item.values, DEPENDENT_VALUE_IDS);
    Unchanged(item.attributes, DEPENDENT_ATTRIBUTE_IDS);
    EntriesKeys(after.values, plan.valueIds);
    asked := [];
    ghost var descriptions := Descriptions(after.attributes, plan.attributeIds);
    if plan.valueIds != [] {
      var hr := item.WriteValues(Entries(after.values, plan.valueIds));
      SameOutsideMore(item.values, old(item.values), Entries(after.values, plan.valueIds).Keys, DEPENDENT_VALUE_IDS);
      asked := [Write(Numbers(Entries(after.values, plan.valueIds)), hr == 0)];
      if EnsureOk(hr).Err? {
        RefusedFirst(Write(Numbers(Entries(after.values, plan.valueIds)), true), descriptions);
        return EnsureOk(hr), asked;
      }
    }
    ghost var later;
    r, later := PublishAttributes(item, after.attributes, plan.attributeIds);
    if r.Err? {
      RefusedLater(later, asked, descriptions);
    }
    assert Publication(plan, after) == asked + descriptions;
    hide Publication;
    asked := asked + later;
  }

  method PublishAttributes(item: ServiceItem, wanted: map<nat, Attribute>, ids: seq<nat>)
    returns (r: Result<(), Hresult>, ghost asked: seq<Write>)
    requires forall id :: id in ids ==> id in wanted && id in DEPENDENT_ATTRIBUTE_IDS
    modifies item`attributes, item`asked
    ensures item.asked == old(item.asked) + asked
    ensures r.Ok? <==> asked == Descriptions(wanted, ids)
    ensures r.Err? ==> RefusedAmong(asked, Descriptions(wanted, ids))
    ensures r.Ok? ==> item.attributes == old(item.attributes) + Entries(wanted, ids)
    ensures SameOutside(item.attributes, old(item.attributes), DEPENDENT_ATTRIBUTE_IDS)
  {
    hide Entries;
    EntriesKeys(wanted, []);
    asked := [];
    var i := 0;
    while i < |ids|
      invariant 0 <= i <= |ids|
      invariant item.attributes == old(item.attributes) + Entries(wanted, ids[..i])
      invariant SameOutside(item.attributes, old(item.attributes), DEPENDENT_ATTRIBUTE_IDS)
      invariant item.asked == old(item.asked) + asked && asked == Descriptions(wanted, ids)[..i]
    {
      var hr := item.SetAttribute(ids[i], wanted[ids[i]]);
      asked := asked + [Write(Description(ids[i], wanted[ids[i]]), hr == 0)];
      if EnsureOk(hr).Err? {
        return EnsureOk(hr), asked;
      }
      OneMoreEntry(wanted, ids, i);
      i := i + 1;
    }
    assert ids[..i] == ids;
    r := Ok(());
  }

  lemma EntriesKeys<V>(m: map<nat, V>, ids: seq<nat>)
    requires forall id :: id in ids ==> id in m
    ensures forall id :: id in Entries(m, ids) <==> id in ids
    ensures ids == [] ==> Entries(m, ids) == map[]
  {
  }

  lemma OneMoreEntry<V>(m: map<nat, V>, ids: seq<nat>, i: nat)
    requires i < |ids| && forall id :: id in ids ==> id in m
    ensures Entries(m, ids[..i + 1]) == Entries(m, ids[..i])[ids[i] := m[ids[i]]]
  {
    assert ids[..i + 1] == ids[..i] + [ids[i]];
  }
}
