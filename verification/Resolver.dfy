/** Dependency resolution after an application's property write
    (src/com_server/minidrv/properties/validation.rs). */
module Resolver {
  import opened Basics
  import opened Wire
  import opened Settings
  import opened Geometry
  import opened Catalog

  // ---- Rounding ----

  function ScaleExtent(value: I32, oldDpi: I32, targetDpi: I32): Result<I32, Hresult> {
    if value < 0 || oldDpi <= 0 || targetDpi <= 0 then Err(E_INVALIDARG)
    else
      RoundedQuotient(value, oldDpi, targetDpi);
      var rounded := (value as int * targetDpi as int + oldDpi as int / 2) / oldDpi as int;
      if rounded > I32_MAX then Err(E_INVALIDARG) else Ok(rounded)
  }

  lemma RoundedQuotient(value: nat, oldDpi: nat, targetDpi: nat)
    requires oldDpi > 0
    ensures (value * targetDpi + oldDpi / 2) / oldDpi >= 0
  {
    NaturalQuotient(value * targetDpi + oldDpi / 2, oldDpi);
  }

  lemma NaturalQuotient(n: nat, d: nat)
    requires d > 0
    ensures n / d >= 0
  {
  }

  function QuantizePosition(value: I32, dpi: I32): (r: Result<I32, Hresult>)
    ensures r.Ok? ==> r.value >= 0
  {
    if value < 0 || dpi <= 0 then Err(E_INVALIDARG)
    else
      StepIsPositive(dpi);
      var step := OffsetStep(dpi);
      var quotient, remainder := value as int / step, value as int % step;
      var rounded := (if remainder * 2 >= step then quotient + 1 else quotient) * step;
      WholeMultiple(value, step);
      if rounded > I32_MAX then Err(E_INVALIDARG) else Ok(rounded)
  }

  function FloorToStep(value: I32, step: int): (f: I32)
    requires step > 0
    ensures f >= 0
  {
    if value <= 0 then 0
    else
      WholeMultiple(value, step);
      value as int / step * step
  }

  lemma StepIsPositive(dpi: I32)
    requires dpi > 0
    ensures OffsetStep(dpi) > 0
  {
    StepIsLeastHundredth(dpi, 0);
  }

  lemma WholeMultiple(value: nat, step: nat)
    requires step > 0
    ensures value == value / step * step + value % step
    ensures 0 <= value / step * step <= value
    ensures (value / step + 1) * step == value / step * step + step
  {
    Catalog.DivisionParts(value, step);
  }

  /** Rounding to the step goes to the nearest multiple and leaves aligned positions alone. */
  lemma Quantized(value: I32, dpi: I32)
    requires value >= 0 && dpi > 0
    ensures OffsetStep(dpi) > 0
    ensures QuantizePosition(value, dpi).Ok? ==>
              var q := QuantizePosition(value, dpi).value as int;
              && q % OffsetStep(dpi) == 0 && q >= 0
              && value as int - OffsetStep(dpi) < q < value as int + OffsetStep(dpi)
              && 2 * Distance(q, value) <= OffsetStep(dpi)
    ensures value as int % OffsetStep(dpi) == 0 ==> QuantizePosition(value, dpi) == Ok(value)
    ensures value as int + OffsetStep(dpi) <= I32_MAX ==> QuantizePosition(value, dpi).Ok?
  {
    hide OffsetStep;
    StepIsPositive(dpi);
    var step := OffsetStep(dpi);
    WholeMultiple(value, step);
    Multiple(value as int / step * step, step, value as int / step);
    Multiple((value as int / step + 1) * step, step, value as int / step + 1);
  }

  lemma Floored(value: I32, step: nat, aligned: nat)
    requires value >= 0 && step > 0
    ensures FloorToStep(value, step) as int % step == 0
    ensures value as int - step < FloorToStep(value, step) as int <= value as int
    ensures 0 <= FloorToStep(value, step)
    ensures aligned % step == 0 && aligned <= value as int ==> aligned <= FloorToStep(value, step) as int
  {
    WholeMultiple(value, step);
    Multiple(value as int / step * step, step, value as int / step);
    Multiple(0, step, 0);
    if aligned % step == 0 && aligned <= value as int {
      WholeMultiple(aligned, step);
      QuotientOrder(aligned, value, step);
    }
  }

  lemma QuotientOrder(a: nat, b: nat, step: nat)
    requires a <= b && step > 0
    ensures a / step * step <= b / step * step
  {
    WholeMultiple(a, step);
    WholeMultiple(b, step);
    FloorBound(a / step, b, step);
    ProductGrows(a / step, b / step, step, step);
  }

  // ---- One axis ----

  datatype AxisValue = AxisValue(before: I32, now: I32, explicit: bool)

  datatype AxisInput = AxisInput(oldDpi: I32, targetDpi: I32, position: AxisValue, extent: AxisValue, maxExtent: I32)

  function Carried(v: AxisValue, scaled: Result<I32, Hresult>, rescale: bool): Result<I32, Hresult> {
    if !v.explicit && rescale && v.now == v.before then scaled else Ok(v.now)
  }

  function QuantizeScaledPosition(value: I32, oldDpi: I32, targetDpi: I32): Result<I32, Hresult> {
    var scaled :- ScaleExtent(value, oldDpi, targetDpi);
    QuantizePosition(scaled, targetDpi)
  }

  /** Where an explicit start position goes: the nearest step, or the one below if that must not fit. */
  function Snapped(a: AxisInput, extent: I32): Result<I32, Hresult>
    requires a.targetDpi > 0 && a.maxExtent > 0
  {
    var position := a.position.now;
    if position < 0 || position >= a.maxExtent then Err(E_INVALIDARG)
    else
      StepIsPositive(a.targetDpi);
      var nearest :- QuantizePosition(position, a.targetDpi);
      var limit :=
        if a.extent.explicit && extent > 0 then a.maxExtent as int - extent as int else a.maxExtent as int - 1;
      Ok(if nearest as int > limit then FloorToStep(position, OffsetStep(a.targetDpi)) else nearest)
  }

  function ResolvedAxis(a: AxisInput): Result<(I32, I32), Hresult>
    requires a.targetDpi > 0
  {
    if a.maxExtent <= 0 then Err(E_INVALIDARG)
    else
      StepIsPositive(a.targetDpi);
      var step, max := OffsetStep(a.targetDpi), a.maxExtent;
      var rescale := a.oldDpi != a.targetDpi;
      var start :- Carried(a.position, QuantizeScaledPosition(a.position.before, a.oldDpi, a.targetDpi), rescale);
      var wanted :- Carried(a.extent, ScaleExtent(a.extent.before, a.oldDpi, a.targetDpi), rescale);
      var position :- if a.position.explicit then Snapped(a, wanted) else Ok(start);
      if position < 0 || wanted < 0 || (a.extent.explicit && !(0 < wanted <= max)) then Err(E_INVALIDARG)
      else
        var extent := if wanted == 0 then 1 else wanted as int;
        var placed :=
          if a.position.explicit then position
          else if a.extent.explicit then Min(position, FloorToStep(max as int - extent, step))
          else if position >= max then FloorToStep(max as int - 1, step)
          else position;
        var available := max as int - placed as int;
        if available <= 0 || (a.extent.explicit && extent > available) then Err(E_INVALIDARG)
        else Ok((placed, Min(extent, available)))
  }

  method ResolveAxis(a: AxisInput) returns (r: Result<(I32, I32), Hresult>)
    requires a.targetDpi > 0
    ensures r == ResolvedAxis(a)
  {
    hide FloorToStep, QuantizePosition, ScaleExtent, OffsetStep, QuantizeScaledPosition;
    if a.maxExtent <= 0 {
      return Err(E_INVALIDARG);
    }
    StepIsPositive(a.targetDpi);
    var step := ComputeOffsetStep(a.targetDpi);
    var rescale := a.oldDpi != a.targetDpi;
    var position: I32 := a.position.now;
    if !a.position.explicit && rescale && a.position.now == a.position.before {
      var scaled := QuantizeScaledPosition(a.position.before, a.oldDpi, a.targetDpi);
      if scaled.Err? {
        return Err(scaled.error);
      }
      position := scaled.value;
    }
    var extent: I32 := a.extent.now;
    if !a.extent.explicit && rescale && a.extent.now == a.extent.before {
      var scaled := ScaleExtent(a.extent.before, a.oldDpi, a.targetDpi);
      if scaled.Err? {
        return Err(scaled.error);
      }
      extent := scaled.value;
    }
    if a.position.explicit {
      if position < 0 || position >= a.maxExtent {
        return Err(E_INVALIDARG);
      }
      var requested := position;
      var nearest := QuantizePosition(requested, a.targetDpi);
      if nearest.Err? {
        return Err(nearest.error);
      }
      position := nearest.value;
      var limit := a.maxExtent as int - if a.extent.explicit && extent > 0 then extent as int else 1;
      if position as int > limit {
        position := FloorToStep(requested, step);
      }
    } else if position < 0 {
      return Err(E_INVALIDARG);
    }
    if a.extent.explicit {
      if extent <= 0 || extent > a.maxExtent {
        return Err(E_INVALIDARG);
      }
    } else if extent < 0 {
      return Err(E_INVALIDARG);
    } else if extent == 0 {
      extent := 1;
    }
    if !a.position.explicit && !a.extent.explicit && position >= a.maxExtent {
      position := FloorToStep(a.maxExtent as int - 1, step);
    }
    if !a.position.explicit && a.extent.explicit {
      position := Min(position, FloorToStep(a.maxExtent as int - extent as int, step));
    }
    var available := a.maxExtent as int - position as int;
    if available <= 0 {
      return Err(E_INVALIDARG);
    }
    if extent as int > available {
      if a.extent.explicit {
        return Err(E_INVALIDARG);
      }
      extent := available;
    }
    r := Ok((position, extent));
  }

  // ---- What an axis promises ----

  /** Accepted axes lie inside the bed, start on a step when the application chose the start, keep
      an explicit extent exactly and move an explicit start by less than one step. */
  lemma AxisPromises(a: AxisInput)
    requires a.targetDpi > 0 && ResolvedAxis(a).Ok?
    ensures var (position, extent) := ResolvedAxis(a).value;
            && OffsetStep(a.targetDpi) > 0
            && 0 <= position && 0 < extent && position as int + extent as int <= a.maxExtent as int
            && (a.extent.explicit ==> extent == a.extent.now)
            && (a.position.explicit ==>
                  && position as int % OffsetStep(a.targetDpi) == 0
                  && a.position.now as int - OffsetStep(a.targetDpi) < position as int
                  && position as int < a.position.now as int + OffsetStep(a.targetDpi))
  {
    hide QuantizePosition, FloorToStep, ScaleExtent, OffsetStep, QuantizeScaledPosition;
    StepIsPositive(a.targetDpi);
    if a.position.explicit {
      Quantized(a.position.now, a.targetDpi);
      Floored(a.position.now, OffsetStep(a.targetDpi), 0);
    }
  }

  lemma SupportedStep(dpi: I32)
    requires SupportedResolution(dpi)
    ensures OffsetStep(dpi) in {1, 2, 3, 6}
  {
    assert Gcd(75, 100) == Gcd(100, 75) == Gcd(75, 25) == Gcd(25, 0) == 25;
    assert Gcd(100, 100) == Gcd(100, 0) == 100;
    assert Gcd(150, 100) == Gcd(100, 50) == Gcd(50, 0) == 50;
    assert Gcd(200, 100) == Gcd(100, 0) == 100;
    assert Gcd(300, 100) == Gcd(100, 0) == 100;
    assert Gcd(600, 100) == Gcd(100, 0) == 100;
  }

  /** Rounding a pixel inside any bed never overflows: every step divides 2147483646. */
  lemma NearestNeverOverflows(value: I32, dpi: I32)
    requires SupportedResolution(dpi) && 0 <= value < I32_MAX
    ensures QuantizePosition(value, dpi).Ok?
    ensures OffsetStep(dpi) > 0
    ensures var floor := FloorToStep(value, OffsetStep(dpi)) as int;
            QuantizePosition(value, dpi).value as int in {floor, floor + OffsetStep(dpi)}
  {
    hide OffsetStep;
    SupportedStep(dpi);
    var step := OffsetStep(dpi);
    WholeMultiple(value, step);
    EveryStepDivides(step);
    if value as int % step != 0 {
      NextMultipleBelow(value, step, 2147483646);
    }
  }

  lemma EveryStepDivides(step: int)
    requires step in {1, 2, 3, 6}
    ensures 2147483646 % step == 0
  {
  }

  lemma NextMultipleBelow(value: nat, step: nat, top: nat)
    requires step > 0 && top % step == 0 && value < top
    ensures (value / step + 1) * step <= top
  {
    WholeMultiple(value, step);
    WholeMultiple(top, step);
    var q, t := value / step, top / step;
    assert (t - q) * step == t * step - q * step;
    if t - q <= 0 {
      NonPositiveProduct(step, t - q);
    } else {
      AtLeastMultiple(step, t - q);
    }
  }

  /** What an axis value that was not written comes to must exist and not be negative. */
  predicate CarriesOver(a: AxisInput) {
    var rescale := a.oldDpi != a.targetDpi;
    var start := Carried(a.position, QuantizeScaledPosition(a.position.before, a.oldDpi, a.targetDpi), rescale);
    var extent := Carried(a.extent, ScaleExtent(a.extent.before, a.oldDpi, a.targetDpi), rescale);
    start.Ok? && start.value >= 0 && extent.Ok? && extent.value >= 0
  }

  /** Exactly which axes are accepted: a bed with room, written values inside it, and, if both were
      written, room for the written extent after the step at or below the written start. */
  lemma AxisAcceptedExactly(a: AxisInput)
    requires SupportedResolution(a.targetDpi)
    ensures OffsetStep(a.targetDpi) > 0
    ensures ResolvedAxis(a).Ok? <==>
              && a.maxExtent > 0 && CarriesOver(a)
              && (a.position.explicit ==> 0 <= a.position.now < a.maxExtent)
              && (a.extent.explicit ==> 0 < a.extent.now <= a.maxExtent)
              && (a.position.explicit && a.extent.explicit ==>
                    FloorToStep(a.position.now, OffsetStep(a.targetDpi)) as int + a.extent.now as int
                    <= a.maxExtent as int)
  {
    hide QuantizePosition, FloorToStep, OffsetStep, ScaleExtent, QuantizeScaledPosition;
    SupportedStep(a.targetDpi);
    if a.position.explicit && 0 <= a.position.now < a.maxExtent {
      NearestNeverOverflows(a.position.now, a.targetDpi);
      Floored(a.position.now, OffsetStep(a.targetDpi), 0);
    }
    if a.maxExtent > 0 {
      Floored(a.maxExtent as int - 1, OffsetStep(a.targetDpi), 0);
      if 0 < a.extent.now <= a.maxExtent {
        Floored(a.maxExtent as int - a.extent.now as int, OffsetStep(a.targetDpi), 0);
      }
    }
  }

  /** Values that already fit stay as they are, whichever of them were written. */
  lemma AxisFixedPoint(a: AxisInput)
    requires a.targetDpi > 0 && a.oldDpi == a.targetDpi && OffsetStep(a.targetDpi) > 0
    requires 0 <= a.position.now && 0 < a.extent.now
    requires a.position.now as int + a.extent.now as int <= a.maxExtent as int
    requires a.position.now as int % OffsetStep(a.targetDpi) == 0
    ensures ResolvedAxis(a) == Ok((a.position.now, a.extent.now))
  {
    hide QuantizePosition, FloorToStep, OffsetStep, ScaleExtent, QuantizeScaledPosition;
    Quantized(a.position.now, a.targetDpi);
    if a.extent.explicit {
      Floored(a.maxExtent as int - a.extent.now as int, OffsetStep(a.targetDpi), a.position.now);
    }
  }

  lemma ScaledBound(value: I32, oldDpi: I32, targetDpi: I32)
    requires SupportedResolution(oldDpi) && SupportedResolution(targetDpi) && 0 <= value <= 153600
    ensures ScaleExtent(value, oldDpi, targetDpi).Ok? && 0 <= ScaleExtent(value, oldDpi, targetDpi).value <= 92160300
  {
    var n := value as int * targetDpi as int + oldDpi as int / 2;
    ProductGrows(value, 153600, targetDpi, 600);
    WholeMultiple(n, oldDpi);
    ProductGrows(1, oldDpi, n / oldDpi as int, n / oldDpi as int);
  }

  /** An axis nobody wrote follows a change of resolution to an aligned rectangle inside the bed. */
  lemma UnwrittenAxisFollows(a: AxisInput)
    requires SupportedResolution(a.oldDpi) && SupportedResolution(a.targetDpi)
    requires !a.position.explicit && !a.extent.explicit && a.position.now == a.position.before
        && a.extent.now == a.extent.before
    requires 0 <= a.position.now <= 153600 && 0 < a.extent.now <= 153600 && 0 < a.maxExtent
    requires OffsetStep(a.targetDpi) > 0
    requires a.oldDpi == a.targetDpi ==> a.position.now as int % OffsetStep(a.targetDpi) == 0
    ensures ResolvedAxis(a).Ok? && ResolvedAxis(a).value.0 as int % OffsetStep(a.targetDpi) == 0
  {
    hide QuantizePosition, FloorToStep, OffsetStep, ScaleExtent;
    var step := OffsetStep(a.targetDpi);
    ScaledBound(a.position.now, a.oldDpi, a.targetDpi);
    ScaledBound(a.extent.now, a.oldDpi, a.targetDpi);
    SupportedStep(a.targetDpi);
    Quantized(ScaleExtent(a.position.now, a.oldDpi, a.targetDpi).value, a.targetDpi);
    Floored(a.maxExtent as int - 1, step, 0);
  }

  // ---- Where an axis goes ----

  /** `value` pixels at `dpi` is the place of `from` pixels at `fromDpi`, to half a pixel and `slack`
      half pixels more. */
  predicate Near(value: int, dpi: I32, from: I32, fromDpi: I32, slack: int) {
    2 * Distance(value * fromDpi as int, from as int * dpi as int) <= (1 + slack) * fromDpi as int
  }

  /** Scaling keeps the physical length, to half a pixel of the new resolution. */
  lemma ScalingKeepsLength(value: I32, oldDpi: I32, targetDpi: I32)
    requires ScaleExtent(value, oldDpi, targetDpi).Ok?
    ensures Near(ScaleExtent(value, oldDpi, targetDpi).value, targetDpi, value, oldDpi, 0)
  {
    var n, d := value as int * targetDpi as int + oldDpi as int / 2, oldDpi as int;
    RoundedQuotient(value, oldDpi, targetDpi);
    WholeMultiple(n, d);
  }

  lemma ScaledStartStaysNear(value: I32, oldDpi: I32, targetDpi: I32)
    requires QuantizeScaledPosition(value, oldDpi, targetDpi).Ok?
    ensures targetDpi > 0
    ensures Near(QuantizeScaledPosition(value, oldDpi, targetDpi).value, targetDpi, value, oldDpi,
                 OffsetStep(targetDpi))
  {
    hide OffsetStep, ScaleExtent, QuantizePosition;
    var scaled := ScaleExtent(value, oldDpi, targetDpi).value;
    QuantizesPositive(scaled, targetDpi);
    ScalesPositive(value, oldDpi, targetDpi);
    ScalingKeepsLength(value, oldDpi, targetDpi);
    Quantized(scaled, targetDpi);
    SlackAdds(QuantizePosition(scaled, targetDpi).value, scaled, value as int * targetDpi as int, oldDpi,
              OffsetStep(targetDpi));
  }

  lemma QuantizesPositive(value: I32, dpi: I32)
    requires QuantizePosition(value, dpi).Ok?
    ensures value >= 0 && dpi > 0
  {
  }

  lemma ScalesPositive(value: I32, oldDpi: I32, targetDpi: I32)
    requires ScaleExtent(value, oldDpi, targetDpi).Ok?
    ensures oldDpi > 0
  {
  }

  lemma SlackAdds(q: int, s: int, exact: int, dpi: nat, step: int)
    requires 2 * Distance(s * dpi, exact) <= dpi && 2 * Distance(q, s) <= step
    ensures 2 * Distance(q * dpi, exact) <= (1 + step) * dpi
  {
    Spread(q - s, dpi, step);
    DistancesAdd(s * dpi, (q - s) * dpi, exact, dpi, step * dpi);
    assert s * dpi + (q - s) * dpi == q * dpi;
    assert dpi + step * dpi == (1 + step) * dpi;
  }

  lemma Spread(apart: int, dpi: nat, step: int)
    requires -step <= 2 * apart <= step
    ensures -(step * dpi) <= 2 * (apart * dpi) <= step * dpi
  {
    assert (step - 2 * apart) * dpi >= 0;
    assert (step + 2 * apart) * dpi >= 0;
  }

  lemma DistancesAdd(near: int, apart: int, exact: int, slack: int, more: int)
    requires 2 * Distance(near, exact) <= slack && -more <= 2 * apart <= more
    ensures 2 * Distance(near + apart, exact) <= slack + more
  {
  }

  /** What an axis value that was not written comes to: its place at the new resolution if that changed
      and nobody else changed the value, and the value itself otherwise. */
  predicate Carries(a: AxisInput, v: AxisValue, wanted: int, slack: int) {
    if a.oldDpi != a.targetDpi && v.now == v.before then Near(wanted, a.targetDpi, v.before, a.oldDpi, slack)
    else wanted == v.now as int
  }

  /** An extent that was not written keeps its physical size, but for at least one pixel and the edge of
      the bed. */
  ghost predicate ExtentFollows(a: AxisInput, position: I32, extent: I32) {
    if a.extent.explicit then extent == a.extent.now
    else
      exists wanted: int ::
        && Carries(a, a.extent, wanted, 0) && wanted >= 0
        && extent as int == Min(if wanted == 0 then 1 else wanted, a.maxExtent as int - position as int)
  }

  /** The last aligned start that leaves `room` pixels. */
  predicate LastStart(position: I32, room: int, max: I32, step: int)
    requires step > 0
  {
    position as int % step == 0 && position as int + room <= max as int < position as int + room + step
  }

  /** A written start goes to the nearest step, or to the one below if the nearest leaves no room. A start
      that was not written keeps its physical place, to half a step, unless that leaves no room: then it
      is the last that does. */
  ghost predicate StartFollows(a: AxisInput, position: I32, extent: I32)
    requires a.targetDpi > 0 && OffsetStep(a.targetDpi) > 0
  {
    var step, room := OffsetStep(a.targetDpi), if a.extent.explicit then extent as int else 1;
    if a.position.explicit then
      && position as int % step == 0
      && (|| 2 * Distance(position, a.position.now) <= step
          || (position <= a.position.now && a.position.now as int < position as int + step
              && position as int + step + room > a.maxExtent as int))
    else
      exists wanted: int ::
        && Carries(a, a.position, wanted, step)
        && (position as int == wanted || (position as int <= wanted && LastStart(position, room, a.maxExtent, step)))
  }

  /** Every accepted axis is where the request put it, or where the rectangle was. */
  lemma AxisFollows(a: AxisInput)
    requires a.targetDpi > 0 && ResolvedAxis(a).Ok?
    ensures OffsetStep(a.targetDpi) > 0
    ensures ExtentFollows(a, ResolvedAxis(a).value.0, ResolvedAxis(a).value.1)
    ensures StartFollows(a, ResolvedAxis(a).value.0, ResolvedAxis(a).value.1)
  {
    hide QuantizePosition, FloorToStep, ScaleExtent, OffsetStep, QuantizeScaledPosition, Near;
    StepIsPositive(a.targetDpi);
    var (position, extent) := ResolvedAxis(a).value;
    if !a.extent.explicit {
      ExtentCarried(a);
    }
    if a.position.explicit {
      WrittenStartFollows(a);
    } else {
      StartCarried(a);
    }
  }

  lemma ExtentCarried(a: AxisInput)
    requires a.targetDpi > 0 && ResolvedAxis(a).Ok? && !a.extent.explicit
    ensures ExtentFollows(a, ResolvedAxis(a).value.0, ResolvedAxis(a).value.1)
  {
    hide QuantizePosition, FloorToStep, ScaleExtent, OffsetStep, QuantizeScaledPosition, Near;
    StepIsPositive(a.targetDpi);
    var scaled := ScaleExtent(a.extent.before, a.oldDpi, a.targetDpi);
    if scaled.Ok? {
      ScalingKeepsLength(a.extent.before, a.oldDpi, a.targetDpi);
    }
    var wanted: int := Carried(a.extent, scaled, a.oldDpi != a.targetDpi).value;
    assert Carries(a, a.extent, wanted, 0);
  }

  lemma StartCarried(a: AxisInput)
    requires a.targetDpi > 0 && ResolvedAxis(a).Ok? && !a.position.explicit
    ensures OffsetStep(a.targetDpi) > 0
    ensures StartFollows(a, ResolvedAxis(a).value.0, ResolvedAxis(a).value.1)
  {
    hide QuantizePosition, FloorToStep, ScaleExtent, OffsetStep, QuantizeScaledPosition, Near;
    StepIsPositive(a.targetDpi);
    var step, max := OffsetStep(a.targetDpi), a.maxExtent as int;
    var scaled := QuantizeScaledPosition(a.position.before, a.oldDpi, a.targetDpi);
    if scaled.Ok? {
      ScaledStartStaysNear(a.position.before, a.oldDpi, a.targetDpi);
    }
    var wanted: int := Carried(a.position, scaled, a.oldDpi != a.targetDpi).value;
    assert Carries(a, a.position, wanted, step);
    if a.extent.explicit {
      Floored(max - a.extent.now as int, step, 0);
    } else {
      Floored(max - 1, step, 0);
    }
  }

  lemma WrittenStartFollows(a: AxisInput)
    requires a.targetDpi > 0 && ResolvedAxis(a).Ok? && a.position.explicit
    ensures OffsetStep(a.targetDpi) > 0
    ensures StartFollows(a, ResolvedAxis(a).value.0, ResolvedAxis(a).value.1)
  {
    hide QuantizePosition, FloorToStep, ScaleExtent, OffsetStep, QuantizeScaledPosition;
    StepIsPositive(a.targetDpi);
    Quantized(a.position.now, a.targetDpi);
    Floored(a.position.now, OffsetStep(a.targetDpi), 0);
    StepBelowOrAbove(a.position.now, a.targetDpi);
  }

  lemma StepBelowOrAbove(value: I32, dpi: I32)
    requires QuantizePosition(value, dpi).Ok?
    ensures dpi > 0 && OffsetStep(dpi) > 0
    ensures var below := FloorToStep(value, OffsetStep(dpi)) as int;
            QuantizePosition(value, dpi).value as int in {below, below + OffsetStep(dpi)}
  {
    hide OffsetStep;
    StepIsPositive(dpi);
    WholeMultiple(value, OffsetStep(dpi));
  }

  // ---- Data type, depth and resolution ----

  function DepthOf(dataType: I32): Result<I32, Hresult> {
    if DepthFor(dataType) > 0 then Ok(DepthFor(dataType)) else Err(E_INVALIDARG)
  }

  /** DATATYPE rules DEPTH unless only DEPTH was written; two contradictory writes are rejected. */
  function ResolvedMode(s: FlatbedSettings, written: seq<nat>): Result<FlatbedSettings, Hresult> {
    if DATATYPE in written && DEPTH in written then
      if DepthOf(s.dataType) == Ok(s.depth) then Ok(s) else Err(E_INVALIDARG)
    else if DEPTH in written then
      if s.depth == 8 then Ok(s.(dataType := GRAYSCALE))
      else if s.depth == 24 then Ok(s.(dataType := COLOR))
      else Err(E_INVALIDARG)
    else
      var depth :- DepthOf(s.dataType);
      Ok(s.(depth := depth))
  }

  /** Which modes are accepted, and what they become: grey is 2 with 8 bits, colour is 3 with 24. */
  lemma ModeExactly(s: FlatbedSettings, written: seq<nat>)
    ensures ResolvedMode(s, written).Ok? <==>
              if DEPTH in written && DATATYPE in written then (s.dataType, s.depth) in {(2, 8), (3, 24)}
              else if DEPTH in written then s.depth in {8, 24}
              else s.dataType in {2, 3}
    ensures ResolvedMode(s, written).Ok? ==>
              var r := ResolvedMode(s, written).value;
              && (r.dataType, r.depth) in {(2, 8), (3, 24)}
              && (DEPTH in written ==> r.depth == s.depth)
              && (DATATYPE in written || DEPTH !in written ==> r.dataType == s.dataType)
              && r == s.(dataType := r.dataType, depth := r.depth)
  {
  }

  method ResolveModeAndDepth(s: FlatbedSettings, written: seq<nat>) returns (r: Result<FlatbedSettings, Hresult>)
    ensures r == ResolvedMode(s, written)
  {
    var settings := s;
    match (DATATYPE in written, DEPTH in written) {
      case (true, true) =>
        if DepthOf(settings.dataType) != Ok(settings.depth) {
          return Err(E_INVALIDARG);
        }
      case (true, false) =>
        var depth :- DepthOf(settings.dataType);
        settings := settings.(depth := depth);
      case (false, true) =>
        if settings.depth != 8 && settings.depth != 24 {
          return Err(E_INVALIDARG);
        }
        settings := settings.(dataType := if settings.depth == 8 then GRAYSCALE else COLOR);
      case (false, false) =>
        if DepthOf(settings.dataType) != Ok(settings.depth) {
          var depth :- DepthOf(settings.dataType);
          settings := settings.(depth := depth);
        }
    }
    r := Ok(settings);
  }

  /** The one resolution of both axes. */
  function ResolvedResolution(s: FlatbedSettings, written: seq<nat>): Result<I32, Hresult> {
    if XRES in written && YRES in written && s.xResolution != s.yResolution then Err(E_INVALIDARG)
    else if XRES in written || YRES !in written then Ok(s.xResolution)
    else Ok(s.yResolution)
  }

  // ---- The whole resolution ----

  function AxisX(earlier: FlatbedSettings, current: FlatbedSettings, dpi: I32, max: I32, written: seq<nat>): AxisInput {
    AxisInput(earlier.xResolution, dpi, AxisValue(earlier.xPosition, current.xPosition, XPOS in written),
              AxisValue(earlier.xExtent, current.xExtent, XEXTENT in written), max)
  }

  function AxisY(earlier: FlatbedSettings, current: FlatbedSettings, dpi: I32, max: I32, written: seq<nat>): AxisInput {
    AxisInput(earlier.yResolution, dpi, AxisValue(earlier.yPosition, current.yPosition, YPOS in written),
              AxisValue(earlier.yExtent, current.yExtent, YEXTENT in written), max)
  }

  function Resolved(c: PropertyCatalog, earlier: FlatbedSettings, current: FlatbedSettings, written: seq<nat>):
    Result<FlatbedSettings, Hresult>
  {
    var _ :- WithSettings(c, earlier);
    var mode :- ResolvedMode(current, written);
    var dpi :- ResolvedResolution(mode, written);
    var (maxWidth, maxHeight) := c.MaxExtent(dpi);
    if maxWidth <= 0 || maxHeight <= 0 then Err(E_INVALIDARG)
    else
      ListedIsPositive(c, dpi);
      var x :- ResolvedAxis(AxisX(earlier, current, dpi, maxWidth, written));
      var y :- ResolvedAxis(AxisY(earlier, current, dpi, maxHeight, written));
      var resolved := mode.(xResolution := dpi, yResolution := dpi,
                            xPosition := x.0, xExtent := x.1, yPosition := y.0, yExtent := y.1);
      var _ :- WithSettings(c, resolved);
      Ok(resolved)
  }

  /** A resolution with a usable bed is a positive number. */
  lemma ListedIsPositive(c: PropertyCatalog, dpi: I32)
    requires c.MaxExtent(dpi).0 > 0
    ensures dpi > 0
  {
  }

  method Resolve(c: PropertyCatalog, earlier: FlatbedSettings, current: FlatbedSettings, written: seq<nat>)
    returns (r: Result<FlatbedSettings, Hresult>)
    ensures r == Resolved(c, earlier, current, written)
  {
    hide WithSettings, ResolvedAxis, ResolvedMode;
    var baseline := WithSettings(c, earlier);
    if baseline.Err? {
      return Err(baseline.error);
    }
    var resolved := current;
    resolved :- ResolveModeAndDepth(resolved, written);
    var dpi :- ResolvedResolution(resolved, written);
    resolved := resolved.(xResolution := dpi, yResolution := dpi);
    var (maxWidth, maxHeight) := c.MaxExtent(dpi);
    if maxWidth <= 0 || maxHeight <= 0 {
      return Err(E_INVALIDARG);
    }
    ListedIsPositive(c, dpi);
    var x :- ResolveAxis(AxisX(earlier, current, dpi, maxWidth, written));
    var y :- ResolveAxis(AxisY(earlier, current, dpi, maxHeight, written));
    resolved := resolved.(xPosition := x.0, xExtent := x.1, yPosition := y.0, yExtent := y.1);
    var gate := WithSettings(c, resolved);
    if gate.Err? {
      return Err(gate.error);
    }
    r := Ok(resolved);
  }

  // ---- What the resolution promises ----

  /** Every explicitly written value survives: exactly, or for a start position within one step. */
  lemma ExplicitValuesAreKept(c: PropertyCatalog, earlier: FlatbedSettings, current: FlatbedSettings, written: seq<nat>)
    requires Resolved(c, earlier, current, written).Ok?
    ensures var r := Resolved(c, earlier, current, written).value;
            && (XRES in written ==> r.xResolution == current.xResolution)
            && (YRES in written ==> r.yResolution == current.yResolution)
            && (DATATYPE in written ==> r.dataType == current.dataType)
            && (DEPTH in written ==> r.depth == current.depth)
            && (XEXTENT in written ==> r.xExtent == current.xExtent)
            && (YEXTENT in written ==> r.yExtent == current.yExtent)
            && r.xResolution > 0 && OffsetStep(r.xResolution) > 0
            && (XPOS in written ==> current.xPosition as int - OffsetStep(r.xResolution) < r.xPosition as int
                                    && r.xPosition as int < current.xPosition as int + OffsetStep(r.xResolution))
            && (YPOS in written ==> current.yPosition as int - OffsetStep(r.xResolution) < r.yPosition as int
                                    && r.yPosition as int < current.yPosition as int + OffsetStep(r.xResolution))
            && r.brightness == current.brightness && r.contrast == current.contrast
            && r.compression == current.compression && r.format == current.format
    ensures WithSettings(c, Resolved(c, earlier, current, written).value).Ok?
  {
    hide WithSettings, ResolvedAxis, OffsetStep;
    var mode := ResolvedMode(current, written).value;
    var dpi := ResolvedResolution(mode, written).value;
    var (maxWidth, maxHeight) := c.MaxExtent(dpi);
    ListedIsPositive(c, dpi);
    AxisPromises(AxisX(earlier, current, dpi, maxWidth, written));
    AxisPromises(AxisY(earlier, current, dpi, maxHeight, written));
  }

  /** Everything the resolver decides for a request it accepts: one resolution, a matching pair of data
      type and depth, and each axis where it was put or where the rectangle was. */
  lemma ResolutionFollows(c: PropertyCatalog, earlier: FlatbedSettings, current: FlatbedSettings, written: seq<nat>)
    requires Resolved(c, earlier, current, written).Ok?
    ensures var r := Resolved(c, earlier, current, written).value;
            var max, dpi := c.MaxExtent(r.xResolution), r.xResolution;
            && dpi == r.yResolution > 0 && OffsetStep(dpi) > 0
            && dpi == (if XRES in written || YRES !in written then current.xResolution else current.yResolution)
            && (r.dataType, r.depth) in {(2, 8), (3, 24)}
            && (DATATYPE in written || DEPTH !in written ==> r.dataType == current.dataType)
            && ExtentFollows(AxisX(earlier, current, dpi, max.0, written), r.xPosition, r.xExtent)
            && StartFollows(AxisX(earlier, current, dpi, max.0, written), r.xPosition, r.xExtent)
            && ExtentFollows(AxisY(earlier, current, dpi, max.1, written), r.yPosition, r.yExtent)
            && StartFollows(AxisY(earlier, current, dpi, max.1, written), r.yPosition, r.yExtent)
  {
    hide WithSettings, ResolvedAxis, ResolvedMode, OffsetStep, ExtentFollows, StartFollows;
    ModeExactly(current, written);
    var mode := ResolvedMode(current, written).value;
    var dpi := ResolvedResolution(mode, written).value;
    var (maxWidth, maxHeight) := c.MaxExtent(dpi);
    ListedIsPositive(c, dpi);
    AxisFollows(AxisX(earlier, current, dpi, maxWidth, written));
    AxisFollows(AxisY(earlier, current, dpi, maxHeight, written));
  }

  /** What acceptance says about each axis, in pixels. */
  lemma AcceptedAxes(c: PropertyCatalog, s: FlatbedSettings)
    requires WithSettings(c, s).Ok?
    ensures SupportedResolution(s.xResolution) && s.yResolution == s.xResolution && OffsetStep(s.xResolution) > 0
    ensures s.xResolution in c.resolutions && s.dataType in c.dataTypes && Formatted(s)
    ensures var max := c.MaxExtent(s.xResolution);
            && 0 <= s.xPosition && 0 < s.xExtent && s.xPosition as int + s.xExtent as int <= max.0 as int
            && 0 <= s.yPosition && 0 < s.yExtent && s.yPosition as int + s.yExtent as int <= max.1 as int
            && s.xPosition as int % OffsetStep(s.xResolution) == 0
            && s.yPosition as int % OffsetStep(s.xResolution) == 0
  {
    hide OffsetStep, ToRequest, BedPixels, UnitsPerPixel, BmpSize;
    AcceptedExactly(c, s);
    SupportedByRequest(s);
    RequestExactly(s);
    AlignedExactly(s.xPosition, s.xResolution);
    AlignedExactly(s.yPosition, s.xResolution);
  }

  /** Accepted settings are a fixed point of the resolver, whatever is said to have been written. */
  lemma AcceptedSettingsAreFixed(c: PropertyCatalog, r: FlatbedSettings, written: seq<nat>)
    requires WithSettings(c, r).Ok?
    ensures Resolved(c, r, r, written) == Ok(r)
  {
    hide OffsetStep, WithSettings, BedPixels, ResolvedAxis;
    AcceptedAxes(c, r);
    var dpi := r.xResolution;
    var (maxWidth, maxHeight) := c.MaxExtent(dpi);
    AxisFixedPoint(AxisX(r, r, dpi, maxWidth, written));
    AxisFixedPoint(AxisY(r, r, dpi, maxHeight, written));
  }

  /** Beds inside the protocol's 255-inch offsets. */
  predicate Addressable(c: PropertyCatalog) {
    c.widthUnits < 256 * 1200 && c.heightUnits < 256 * 1200
  }

  /** The file of a whole-bed scan has a representable size. */
  predicate FullBedFits(c: PropertyCatalog, dpi: I32, depth: I32) {
    var (maxWidth, maxHeight) := c.MaxExtent(dpi);
    maxHeight >= 0 && depth >= 0 && BmpSize(maxWidth, maxHeight, depth).Ok?
  }

  lemma BedBound(c: PropertyCatalog, dpi: I32)
    requires Addressable(c) && SupportedResolution(dpi) && dpi in c.resolutions
    ensures c.MaxExtent(dpi).0 <= 153600 && c.MaxExtent(dpi).1 <= 153600
    ensures c.MaxExtent(dpi) == (c.widthUnits as int / UnitsPerPixel(dpi), c.heightUnits as int / UnitsPerPixel(dpi))
  {
    BedAlwaysConverts(c.widthUnits, dpi);
    BedAlwaysConverts(c.heightUnits, dpi);
  }

  /** An aligned rectangle inside an addressable bed converts to protocol units. */
  lemma AlignedAxisConverts(position: I32, extent: I32, units: U32, dpi: I32)
    requires SupportedResolution(dpi) && units < 256 * 1200
    requires 0 <= position && 0 < extent && position as int + extent as int <= units as int / UnitsPerPixel(dpi)
    requires OffsetStep(dpi) > 0 && position as int % OffsetStep(dpi) == 0
    ensures AxisConverts(position, extent, dpi)
  {
    hide OffsetStep;
    AlignedExactly(position, dpi);
    FitsInUnits(position, extent, units, dpi);
    AxisParts(position, extent, dpi);
  }

  /** The axes of an accepted selection, rescaled to another listed resolution, are acceptable there. */
  lemma RescaledAxisFits(a: AxisInput, units: U32)
    requires SupportedResolution(a.oldDpi) && SupportedResolution(a.targetDpi) && units < 256 * 1200
    requires !a.position.explicit && !a.extent.explicit && a.position.now == a.position.before
        && a.extent.now == a.extent.before
    requires 0 <= a.position.now <= 153600 && 0 < a.extent.now <= 153600
    requires 0 < a.maxExtent as int == units as int / UnitsPerPixel(a.targetDpi)
    requires OffsetStep(a.targetDpi) > 0
    requires a.oldDpi == a.targetDpi ==> a.position.now as int % OffsetStep(a.targetDpi) == 0
    ensures ResolvedAxis(a).Ok?
    ensures var (position, extent) := ResolvedAxis(a).value;
            AxisConverts(position, extent, a.targetDpi) && 0 <= position && 0 < extent
            && position as int + extent as int <= a.maxExtent as int
  {
    hide OffsetStep, ResolvedAxis, UnitsPerPixel, AxisConverts;
    UnwrittenAxisFollows(a);
    AxisPromises(a);
    AlignedAxisConverts(ResolvedAxis(a).value.0, ResolvedAxis(a).value.1, units, a.targetDpi);
  }

  /** Settings made of convertible axes inside the bed are accepted. */
  lemma FittingSettingsAccepted(c: PropertyCatalog, r: FlatbedSettings)
    requires Selects(c) && Formatted(r) && r.dataType in c.dataTypes && FullBedFits(c, r.xResolution, r.depth)
    requires SupportedResolution(r.xResolution) && r.xResolution == r.yResolution && r.xResolution in c.resolutions
    requires AxisConverts(r.xPosition, r.xExtent, r.xResolution) && AxisConverts(r.yPosition, r.yExtent, r.xResolution)
    requires r.xPosition as int + r.xExtent as int <= c.MaxExtent(r.xResolution).0 as int
    requires r.yPosition as int + r.yExtent as int <= c.MaxExtent(r.xResolution).1 as int
    ensures WithSettings(c, r).Ok?
  {
    hide ToRequest, BmpSize, UnitsPerPixel, BedPixels, WithSettings;
    RequestExactly(r);
    AcceptedExactly(c, r);
    var (maxWidth, maxHeight) := c.MaxExtent(r.xResolution);
    SmallerFits(r.xExtent, r.yExtent, maxWidth, maxHeight, r.depth);
  }

  /** Choosing a listed resolution, and nothing else, on an accepted selection always resolves: both axes
      get that resolution and the rectangle keeps its physical size and place, to half a pixel and half a
      step, but for at least one pixel and the edge of the bed. */
  lemma ResolutionWriteResolves(caps: Capabilities, itemName: string, fullName: string, earlier: FlatbedSettings,
                                dpi: I32, written: seq<nat>)
    requires Flatbed(caps, itemName, fullName).Ok?
    requires var c := Flatbed(caps, itemName, fullName).value;
             && Addressable(c) && WithSettings(c, earlier).Ok? && dpi in c.resolutions
             && FullBedFits(c, dpi, earlier.depth)
    requires written in {[XRES], [YRES]}
    ensures var c := Flatbed(caps, itemName, fullName).value;
            var current := if XRES in written then earlier.(xResolution := dpi) else earlier.(yResolution := dpi);
            var r := Resolved(c, earlier, current, written);
            && r.Ok? && r.value.xResolution == r.value.yResolution == dpi > 0 && OffsetStep(dpi) > 0
            && KeepsPlace(earlier.xPosition, earlier.xExtent, earlier.xResolution, r.value.xPosition, r.value.xExtent,
                          dpi, c.MaxExtent(dpi).0)
            && KeepsPlace(earlier.yPosition, earlier.yExtent, earlier.xResolution, r.value.yPosition, r.value.yExtent,
                          dpi, c.MaxExtent(dpi).1)
  {
    hide OffsetStep, WithSettings, ResolvedAxis, Flatbed, AxisConverts, FullBedFits, PropertyCatalog.MaxExtent,
      Selectable, DataTypes, UnitsPerPixel, SupportedResolution, Addressable;
    var c := Flatbed(caps, itemName, fullName).value;
    FlatbedShape(caps, itemName, fullName);
    var current := if XRES in written then earlier.(xResolution := dpi) else earlier.(yResolution := dpi);
    AcceptedAxes(c, earlier);
    EveryListedBedHasAPixel(caps, itemName, fullName, dpi);
    BedBound(c, dpi);
    BedBound(c, earlier.xResolution);
    AddressableUnits(c);
    StepIsPositive(dpi);
    var (maxWidth, maxHeight) := c.MaxExtent(dpi);
    var ax, ay := AxisX(earlier, current, dpi, maxWidth, written), AxisY(earlier, current, dpi, maxHeight, written);
    RescaledAxisFits(ax, c.widthUnits);
    RescaledAxisFits(ay, c.heightUnits);
    var x, y := ResolvedAxis(ax).value, ResolvedAxis(ay).value;
    assert ResolvedMode(current, written) == Ok(current) && ResolvedResolution(current, written) == Ok(dpi);
    var r := current.(xResolution := dpi, yResolution := dpi, xPosition := x.0, xExtent := x.1, yPosition := y.0,
        yExtent := y.1);
    FittingSettingsAccepted(c, r);
    AxisFollows(ax);
    AxisFollows(ay);
    UnwrittenKeepsPlace(ax, x.0, x.1);
    UnwrittenKeepsPlace(ay, y.0, y.1);
  }

  /** A stretch of the bed in pixels, before and after a change of resolution. */
  ghost predicate KeepsPlace(position: I32, extent: I32, oldDpi: I32, position': I32, extent': I32, dpi: I32, max: I32)
    requires dpi > 0 && OffsetStep(dpi) > 0
  {
    && (exists size: int ::
          && Near(size, dpi, extent, oldDpi, 0) && size >= 0
          && extent' as int == Min(if size == 0 then 1 else size, max as int - position' as int))
    && (exists start: int ::
          && Near(start, dpi, position, oldDpi, OffsetStep(dpi))
          && (position' as int == start
              || (position' as int <= start && LastStart(position', 1, max, OffsetStep(dpi)))))
  }

  lemma UnwrittenKeepsPlace(a: AxisInput, position: I32, extent: I32)
    requires a.targetDpi > 0 && OffsetStep(a.targetDpi) > 0 && a.oldDpi > 0
    requires !a.position.explicit && !a.extent.explicit
    requires a.position.now == a.position.before && a.extent.now == a.extent.before
    requires ExtentFollows(a, position, extent) && StartFollows(a, position, extent)
    ensures KeepsPlace(a.position.before, a.extent.before, a.oldDpi, position, extent, a.targetDpi, a.maxExtent)
  {
    hide OffsetStep, LastStart;
    var size: int :| Carries(a, a.extent, size, 0) && size >= 0
                     && extent as int == Min(if size == 0 then 1 else size, a.maxExtent as int - position as int);
    var start: int :| Carries(a, a.position, start, OffsetStep(a.targetDpi))
                      && (position as int == start
                          || (position as int <= start
                              && LastStart(position, 1, a.maxExtent, OffsetStep(a.targetDpi))));
    NearItself(a.extent.now, a.oldDpi, 0);
    NearItself(a.position.now, a.oldDpi, OffsetStep(a.targetDpi));
    hide Near;
    assert Near(size, a.targetDpi, a.extent.before, a.oldDpi, 0);
    assert Near(start, a.targetDpi, a.position.before, a.oldDpi, OffsetStep(a.targetDpi));
  }

  lemma NearItself(value: I32, dpi: I32, slack: int)
    requires dpi > 0 && slack >= 0
    ensures Near(value, dpi, value, dpi, slack)
  {
    assert (1 + slack) * dpi as int >= 0;
  }

  lemma AddressableUnits(c: PropertyCatalog)
    requires Addressable(c)
    ensures c.widthUnits < 256 * 1200 && c.heightUnits < 256 * 1200
  {
  }

  // ---- Intents and the pair of catalogs ----

  /** Intents made only of the two image types and the two ignored hints. */
  const KNOWN_INTENTS: set<int> :=
    {0, 1, 2, 3, 0x1_0000, 0x1_0001, 0x1_0002, 0x1_0003, 0x2_0000, 0x2_0001, 0x2_0002, 0x2_0003,
     0x3_0000, 0x3_0001, 0x3_0002, 0x3_0003}

  /** An intent for colour is type 3 and one for grey type 2; hints alone ask for nothing, and anything
      else, or both at once, is rejected. */
  lemma IntentChooses(intent: bv32)
    ensures var r := DataTypeForIntent(Signed32(intent as int));
            if intent & !0x3_0003 != 0 || intent & 3 == 3 then r == Err(E_INVALIDARG)
            else if intent & 1 != 0 then r == Ok(Some(3))
            else if intent & 2 != 0 then r == Ok(Some(2))
            else r == Ok(None)
  {
    IntentBits(intent);
    if intent & !0x3_0003 == 0 {
      assert intent in {0, 1, 2, 3, 0x1_0000, 0x1_0001, 0x1_0002, 0x1_0003, 0x2_0000, 0x2_0001, 0x2_0002, 0x2_0003,
                        0x3_0000, 0x3_0001, 0x3_0002, 0x3_0003};
    }
  }

  lemma IntentBits(intent: bv32)
    ensures intent & !0x3_0003 == 0 <==> intent as int in KNOWN_INTENTS
  {
    if intent & !0x3_0003 == 0 {
      assert intent in {0, 1, 2, 3, 0x1_0000, 0x1_0001, 0x1_0002, 0x1_0003, 0x2_0000, 0x2_0001, 0x2_0002, 0x2_0003,
                        0x3_0000, 0x3_0001, 0x3_0002, 0x3_0003};
    }
  }

  /** The data type an intent asks for, if any; text and contradictory intents are rejected. */
  function DataTypeForIntent(intent: I32): Result<Option<I32>, Hresult> {
    if intent as int !in KNOWN_INTENTS || intent as int % 4 == 3 then Err(E_INVALIDARG)
    else if intent as int % 4 == 1 then Ok(Some(COLOR))
    else if intent as int % 4 == 2 then Ok(Some(GRAYSCALE))
    else Ok(None)
  }

  /** The application's request after its intent: the target values and what counts as written. */
  function Requested(current: FlatbedSettings, intent: Option<I32>, written: seq<nat>): Result<(FlatbedSettings,
      seq<nat>), Hresult> {
    if intent.None? then Ok((current, written))
    else
      var dataType :- DataTypeForIntent(intent.value);
      if dataType.None? then Ok((current, written))
      else Ok((current.(dataType := dataType.value), if DATATYPE in written then written else written + [DATATYPE]))
  }

  /** What the service item holds now, and what it must hold. */
  function PreparedCatalogs(c: PropertyCatalog, earlier: FlatbedSettings, current: FlatbedSettings, intent: Option<I32>,
                            written: seq<nat>): Result<(PropertyCatalog, PropertyCatalog), Hresult> {
    var request :- Requested(current, intent, written);
    var resolved :- Resolved(c, earlier, request.0, request.1);
    var baseline :- WithSettings(c, earlier);
    var before :- WithServiceValues(baseline, current);
    var after :- WithSettings(c, resolved);
    Ok((before, after))
  }

  method PrepareCatalogs(c: PropertyCatalog, earlier: FlatbedSettings, current: FlatbedSettings, intent: Option<I32>,
                         written: seq<nat>)
    returns (r: Result<(PropertyCatalog, PropertyCatalog), Hresult>, written': seq<nat>)
    ensures r == PreparedCatalogs(c, earlier, current, intent, written)
    ensures r.Ok? ==> written' == Requested(current, intent, written).value.1
  {
    hide WithSettings, WithServiceValues, Resolved;
    var target := current;
    written' := written;
    if intent.Some? {
      var dataType := DataTypeForIntent(intent.value);
      if dataType.Err? {
        return Err(dataType.error), written';
      }
      if dataType.value.Some? {
        target := target.(dataType := dataType.value.value);
        if DATATYPE !in written' {
          written' := written' + [DATATYPE];
        }
      }
    }
    var resolved := Resolve(c, earlier, target, written');
    if resolved.Err? {
      return Err(resolved.error), written';
    }
    var baseline := WithSettings(c, earlier);
    if baseline.Err? {
      return Err(baseline.error), written';
    }
    var before := WithServiceValues(baseline.value, current);
    if before.Err? {
      return Err(before.error), written';
    }
    var after := WithSettings(c, resolved.value);
    if after.Err? {
      return Err(after.error), written';
    }
    r := Ok((before.value, after.value));
  }
}
