/** Driver-side brightness and contrast (src/wia.rs, Tone). */
module Tone {
  import opened Basics
  import opened Wire
  import opened ScanJob

  datatype Tone = Tone(brightness: I32, contrast: I32)

  const NEUTRAL := Tone(0, 0)

  predicate ValidTone(t: Tone) {
    -1000 <= t.brightness <= 1000 && -1000 <= t.contrast <= 1000
  }

  /** The nearest byte. */
  function Clamp(n: int): (c: Byte)
    ensures forall b: Byte :: Distance(n, c) <= Distance(n, b)
  {
    if n < 0 then 0 else if n > 255 then 255 else n
  }

  /** `clamp(round((in - 128) * (contrast + 1000) / 1000 + 128 + brightness * 255 / 1000))`. */
  function Toned(t: Tone, value: Byte): Byte {
    var gain, offset := t.contrast as int + 1000, t.brightness as int * 255;
    Clamp(((value as int - 128) * gain + 128 * 1000 + offset + 500) / 1000)
  }

  function TonedBand(t: Tone, band: ImageBand): (out: ImageBand)
    ensures out.width == band.width && out.rows == band.rows && out.mode == band.mode
    ensures |out.pixels| == |band.pixels|
  {
    band.(pixels := seq(|band.pixels|, i requires 0 <= i < |band.pixels| => Toned(t, band.pixels[i])))
  }

  method Lut(t: Tone) returns (table: Option<seq<Byte>>)
    ensures table.None? <==> t == NEUTRAL
    ensures table.Some? ==> |table.value| == 256 && forall v :: 0 <= v < 256 ==> table.value[v] == Toned(t, v)
  {
    if t == NEUTRAL {
      return None;
    }
    var gain, offset := t.contrast as int + 1000, t.brightness as int * 255;
    var slots := new Byte[256];
    for input := 0 to 256
      invariant forall v :: 0 <= v < input ==> slots[v] == Toned(t, v)
    {
      var centred := (input - 128) * gain + 128 * 1000 + offset;
      slots[input] := Clamp((centred + 500) / 1000);
    }
    table := Some(slots[..]);
  }

  method Adjust(t: Tone, band: ImageBand) returns (adjusted: Option<ImageBand>)
    ensures adjusted.None? <==> t == NEUTRAL
    ensures adjusted.Some? ==> adjusted.value == TonedBand(t, band)
  {
    var table := Lut(t);
    match table
    case None => adjusted := None;
    case Some(lut) =>
      adjusted := Some(band.(pixels :=
        seq(|band.pixels|, i requires 0 <= i < |band.pixels| => lut[band.pixels[i]])));
  }

  /** What `toned_sink` forwards: always the tone-mapped band, by table or untouched. */
  method ThroughTone(t: Tone, band: ImageBand) returns (forwarded: ImageBand)
    ensures forwarded == TonedBand(t, band)
  {
    var adjusted := Adjust(t, band);
    NeutralChangesNothing(band);
    forwarded := if adjusted.Some? then adjusted.value else band;
  }

  /** The neutral shortcut and the formula agree. */
  lemma NeutralChangesNothing(band: ImageBand)
    ensures TonedBand(NEUTRAL, band) == band
  {
    assert TonedBand(NEUTRAL, band).pixels == band.pixels;
  }

  /** Darker samples never end up lighter than lighter ones. */
  lemma ToneIsMonotone(t: Tone, dark: Byte, light: Byte)
    requires ValidTone(t) && dark <= light
    ensures Toned(t, dark) <= Toned(t, light)
  {
    GainIsMonotone(dark as int - 128, light as int - 128, t.contrast as int + 1000);
  }

  lemma GainIsMonotone(low: int, high: int, gain: nat)
    requires low <= high
    ensures low * gain <= high * gain
  {
    assert (high - low) * gain >= 0;
  }

  // ---- What each control does ----

  /** `q` thousandths is `exact` to the nearest whole number, halves upwards. */
  predicate Nearest(q: int, exact: int) {
    exact - 500 < 1000 * q <= exact + 500
  }

  /** Brightness alone adds the same amount, 255 levels for 1000, to every sample. */
  lemma BrightnessShifts(brightness: I32) returns (shift: int)
    ensures Nearest(shift, 255 * brightness as int)
    ensures forall v: Byte :: Toned(Tone(brightness, 0), v) == Clamp(v as int + shift)
  {
    shift := (255 * brightness as int + 500) / 1000;
  }

  /** Contrast alone turns about mid-grey: it keeps 128 and scales every distance from it by
      `(1000 + contrast) / 1000`. */
  lemma ContrastTurnsOnMidGrey(contrast: I32, value: Byte) returns (distance: int)
    ensures Toned(Tone(0, contrast), 128) == 128
    ensures Nearest(distance, (value as int - 128) * (1000 + contrast as int))
    ensures Toned(Tone(0, contrast), value) == Clamp(128 + distance)
  {
    var scaled := (value as int - 128) * (contrast as int + 1000);
    distance := (scaled + 500) / 1000;
    assert (128 as int - 128) * (contrast as int + 1000) == 0;
  }

  /** Both together: distance from mid-grey scaled, then brightness added, rounded once and clamped. */
  lemma ToneIsNearest(t: Tone, value: Byte) returns (level: int)
    ensures Toned(t, value) == Clamp(level)
    ensures Nearest(level, (value as int - 128) * (1000 + t.contrast as int) + 128_000 + 255 * t.brightness as int)
  {
    var exact := (value as int - 128) * (t.contrast as int + 1000) + 128_000 + 255 * t.brightness as int;
    level := (exact + 500) / 1000;
  }

  /** A brighter setting never darkens a sample. */
  lemma BrighterIsLighter(contrast: I32, dim: I32, bright: I32, value: Byte)
    requires dim <= bright
    ensures Toned(Tone(dim, contrast), value) <= Toned(Tone(bright, contrast), value)
  {
    var centred := (value as int - 128) * (contrast as int + 1000);
    QuotientsInOrder(centred + 128_000 + dim as int * 255 + 500, centred + 128_000 + bright as int * 255 + 500);
  }

  lemma QuotientsInOrder(low: int, high: int)
    requires low <= high
    ensures low / 1000 <= high / 1000
  {
  }

  function TonedBands(t: Tone, bands: seq<ImageBand>): (out: seq<ImageBand>)
    ensures |out| == |bands|
  {
    seq(|bands|, i requires 0 <= i < |bands| => TonedBand(t, bands[i]))
  }

  lemma ToneOneMore(t: Tone, bands: seq<ImageBand>, band: ImageBand)
    ensures TonedBands(t, bands + [band]) == TonedBands(t, bands) + [TonedBand(t, band)]
  {
  }

  lemma {:induction false} ToneKeepsTotals(t: Tone, bands: seq<ImageBand>)
    ensures Summarize(TonedBands(t, bands)) == Summarize(bands)
  {
    if bands != [] {
      var n := |bands| - 1;
      ToneKeepsTotals(t, bands[..n]);
      assert TonedBands(t, bands)[..n] == TonedBands(t, bands[..n]);
    }
  }
}
