/** Pixel, unit and file-size arithmetic of the property catalog
    (src/com_server/minidrv/properties/catalog.rs). */
module Geometry {
  import opened Basics
  import opened Wire
  import opened Settings
  import Bmp

  /** A failed HRESULT. */
  type Hresult = int

  const E_INVALIDARG: Hresult := 0x8007_0057 - 0x1_0000_0000
  const E_UNEXPECTED: Hresult := 0x8000_ffff - 0x1_0000_0000

  // ---- The hardware step ----

  function Gcd(a: nat, b: nat): (g: nat)
    requires a + b > 0
    ensures g > 0
    decreases b
  {
    if b == 0 then a else Gcd(b, a % b)
  }

  /** Pixels between positions the scanner can start at. */
  function OffsetStep(dpi: I32): int
    requires dpi > 0
  {
    dpi as int / Gcd(dpi, 100)
  }

  method ComputeOffsetStep(dpi: I32) returns (step: int)
    requires dpi > 0
    ensures step == OffsetStep(dpi)
  {
    var a: nat, b: nat := dpi, 100;
    while b != 0
      invariant a + b > 0 && Gcd(a, b) == Gcd(dpi, 100)
      decreases b
    {
      a, b := b, a % b;
    }
    step := dpi as int / a;
  }

  /** The greatest common divisor divides both numbers. */
  lemma {:induction false} GcdDivides(a: nat, b: nat) returns (s: nat, t: nat)
    requires a + b > 0
    ensures a == Gcd(a, b) * s && b == Gcd(a, b) * t
    decreases b
  {
    if b == 0 {
      s, t := 1, 0;
    } else {
      var q, r := Division(a, b);
      var s', t' := GcdDivides(b, r);
      Recombine(Gcd(b, r), s', t', q);
      s, t := s' * q + t', s';
    }
  }

  /** Euclid's step keeps the common divisor. */
  lemma Division(a: nat, b: nat) returns (q: nat, r: nat)
    requires b > 0
    ensures a == b * q + r && r < b && Gcd(a, b) == Gcd(b, r)
  {
    q, r := a / b, a % b;
  }

  lemma Recombine(g: nat, s: nat, t: nat, q: nat)
    ensures g * (s * q + t) == g * s * q + g * t
  {
  }

  lemma {:induction false} Bezout(a: nat, b: nat) returns (x: int, y: int)
    requires a + b > 0
    ensures a * x + b * y == Gcd(a, b)
    decreases b
  {
    if b == 0 {
      x, y := 1, 0;
    } else {
      var q, r := Division(a, b);
      var x', y' := Bezout(b, r);
      SubstituteRemainder(b, q, r, x', y');
      x, y := y', x' - q * y';
    }
  }

  lemma SubstituteRemainder(b: int, q: int, r: int, x: int, y: int)
    ensures (b * q + r) * y + b * (x - q * y) == b * x + r * y
  {
    assert b * (x - q * y) == b * x - b * q * y;
  }

  lemma Multiple(n: nat, d: nat, k: int)
    requires d > 0 && n == d * k
    ensures n % d == 0 && n / d == k
  {
    ExactQuotient(n, d, k);
  }

  lemma CancelFactor(g: nat, a: int, b: int)
    requires g > 0 && g * a == g * b
    ensures a == b
  {
    assert g * (a - b) == g * a - g * b;
    SmallMultiple(g, a - b);
  }

  /** The step is the least number of pixels past the origin that is a whole number of hundredths
      of an inch, and the whole numbers of hundredths are exactly the multiples of it. */
  lemma StepIsLeastHundredth(dpi: I32, p: nat)
    requires dpi > 0
    ensures OffsetStep(dpi) > 0
    ensures p % OffsetStep(dpi) == 0 <==> 100 * p % (dpi as int) == 0
    ensures 100 * p % (dpi as int) == 0 && p > 0 ==> p >= OffsetStep(dpi)
  {
    hide Gcd;
    var d: nat := dpi;
    var g := Gcd(d, 100);
    var s, t := GcdDivides(d, 100);
    PositiveFactor(g, s);
    Multiple(d, g, s);
    if p % s == 0 {
      StepsAreHundredths(g, s, t, p);
    }
    if 100 * p % d == 0 {
      var x, y := Bezout(d, 100);
      HundredthsAreSteps(g, s, t, p, x, y);
    }
  }

  lemma PositiveFactor(g: nat, s: nat)
    requires g * s > 0
    ensures g > 0 && s > 0
  {
  }

  lemma StepsAreHundredths(g: nat, s: nat, t: nat, p: nat)
    requires g * s > 0 && 100 == g * t && s > 0 && p % s == 0
    ensures 100 * p % (g * s) == 0
  {
    var k := p / s;
    assert p == s * k;
    assert 100 * p == g * s * (t * k) by {
      assert g * t * (s * k) == g * s * (t * k);
    }
    Multiple(100 * p, g * s, t * k);
  }

  lemma HundredthsAreSteps(g: nat, s: nat, t: nat, p: nat, x: int, y: int)
    requires g > 0 && s > 0 && g * s > 0 && 100 == g * t && 100 * p % (g * s) == 0
    requires g * s * x + 100 * y == g
    ensures p % s == 0 && (p > 0 ==> p >= s)
  {
    var m := 100 * p / (g * s);
    assert 100 * p == g * s * m;
    WholeSteps(g, s, t, p, m, x, y);
    var k := x * p + m * y;
    Multiple(p, s, k);
    if p > 0 {
      AtLeastFactor(s, k);
    }
  }

  lemma WholeSteps(g: nat, s: nat, t: nat, p: nat, m: int, x: int, y: int)
    requires g > 0 && g * t * p == g * s * m && g * s * x + g * t * y == g
    ensures p == s * (x * p + m * y)
  {
    assert g * (t * p) == g * (s * m);
    CancelFactor(g, t * p, s * m);
    assert g * (s * x + t * y) == g * 1;
    CancelFactor(g, s * x + t * y, 1);
    assert (s * x + t * y) * p == s * x * p + t * p * y;
    assert s * m * y == s * (m * y) && s * x * p == s * (x * p);
    assert s * (x * p + m * y) == s * (x * p) + s * (m * y);
  }

  lemma AtLeastFactor(s: nat, k: int)
    requires s * k > 0
    ensures s * k >= s
  {
    if k <= 0 {
      NonPositiveProduct(s, k);
    } else {
      NonPositiveProduct(s, 1 - k);
      assert s * (1 - k) == s - s * k;
    }
  }

  // ---- Pixels and protocol units ----

  function PixelsFromUnits(units: U32, dpi: I32): Result<I32, Hresult> {
    if dpi < 0 then Err(E_INVALIDARG)
    else
      var pixels := units as int * dpi as int / 1200;
      if pixels > I32_MAX then Err(E_INVALIDARG) else Ok(pixels)
  }

  /** At a supported resolution every bed converts, whatever its size. */
  lemma BedAlwaysConverts(units: U32, dpi: I32)
    requires SupportedResolution(dpi)
    ensures PixelsFromUnits(units, dpi) == Ok(units as int / UnitsPerPixel(dpi))
  {
    if dpi == 75 {
      assert units as int * 75 / 1200 == units as int / 16;
    } else if dpi == 100 {
      assert units as int * 100 / 1200 == units as int / 12;
    } else if dpi == 150 {
      assert units as int * 150 / 1200 == units as int / 8;
    } else if dpi == 200 {
      assert units as int * 200 / 1200 == units as int / 6;
    } else if dpi == 300 {
      assert units as int * 300 / 1200 == units as int / 4;
    } else {
      assert units as int * 600 / 1200 == units as int / 2;
    }
  }

  /** A pixel rectangle fits the bed exactly when its unit rectangle does. */
  lemma FitsInUnits(position: nat, extent: nat, units: U32, dpi: I32)
    requires SupportedResolution(dpi)
    ensures position + extent <= units as int / UnitsPerPixel(dpi)
            <==> position * UnitsPerPixel(dpi) + extent * UnitsPerPixel(dpi) <= units as int
  {
    var u := UnitsPerPixel(dpi);
    assert (position + extent) * u == position * u + extent * u;
    FloorBound(position + extent, units, u);
  }

  lemma FloorBound(n: int, total: nat, u: nat)
    requires u > 0
    ensures n <= total / u <==> n * u <= total
  {
    var q := total / u;
    assert total == q * u + total % u;
    assert (n - q) * u == n * u - q * u;
    if n <= q {
      NonPositiveProduct(u, n - q);
    } else {
      AtLeastMultiple(u, n - q);
    }
  }

  lemma AtLeastMultiple(u: nat, k: int)
    requires k >= 1
    ensures k * u >= u
  {
    assert (k - 1) * u >= 0;
  }

  /** Positions the scanner can start at are exactly the multiples of the hardware step. */
  lemma AlignedExactly(position: nat, dpi: I32)
    requires SupportedResolution(dpi)
    ensures OffsetStep(dpi) > 0
    ensures position * UnitsPerPixel(dpi) % 12 == 0 <==> position % OffsetStep(dpi) == 0
  {
    StepIsLeastHundredth(dpi, position);
    HundredthUnits(position, UnitsPerPixel(dpi), dpi);
  }

  lemma HundredthUnits(p: nat, u: nat, d: nat)
    requires u * d == 1200
    ensures d > 0 && (p * u % 12 == 0 <==> 100 * p % d == 0)
  {
    PositiveFactor(u, d);
    var twelfth, j := p * u / 12, 100 * p / d;
    assert p * (u * d) == p * u * d == 1200 * p;
    if p * u % 12 == 0 {
      assert p * u == 12 * twelfth;
      assert 12 * twelfth * d == 12 * (d * twelfth);
      Multiple(100 * p, d, twelfth);
    }
    if 100 * p % d == 0 {
      assert 100 * p == d * j;
      assert d * (12 * j) == 12 * (d * j) && d * (p * u) == p * u * d;
      CancelFactor(d, p * u, 12 * j);
    }
  }

  // ---- The advertised file size ----

  function BmpSize(width: I32, height: I32, depth: I32): Result<I32, Hresult>
    requires height >= 0 && depth >= 0
  {
    if width < 0 then Err(E_INVALIDARG)
    else
      var stride := (width as int * depth as int + 31) / 32 * 4;
      var size := stride * height as int + 54 + if depth == 8 then 1024 else 0;
      if size > I32_MAX then Err(E_INVALIDARG) else Ok(size)
  }

  /** The catalog's size is the length of the file the encoder commits for that geometry. */
  lemma SizeOfTheFile(width: I32, height: I32, depth: I32, mode: ColorMode)
    requires width >= 0 && height >= 0 && (depth == if mode.Gray? then 8 else 24)
    ensures var size := Bmp.PixelOffset(mode) + height as int * Bmp.Stride(Bmp.RowBytes(width, mode));
            BmpSize(width, height, depth) == if size <= I32_MAX then Ok(size) else Err(E_INVALIDARG)
  {
    hide Bmp.Stride, Bmp.RowBytes;
    StrideInBits(width, mode);
    Commute((width as int * depth as int + 31) / 32 * 4, height);
  }

  lemma Commute(a: int, b: int)
    ensures a * b == b * a
  {
  }

  lemma StrideInBits(width: nat, mode: ColorMode)
    ensures (width * (if mode.Gray? then 8 else 24) + 31) / 32 * 4 == Bmp.Stride(Bmp.RowBytes(width, mode)) >= 0
  {
  }

  /** A smaller rectangle never needs a larger file. */
  lemma SmallerFits(width: I32, height: I32, wider: I32, taller: I32, depth: I32)
    requires 0 <= width <= wider && 0 <= height <= taller && depth in {8, 24}
    requires BmpSize(wider, taller, depth).Ok?
    ensures BmpSize(width, height, depth).Ok?
  {
    StrideGrows(width, wider, depth);
    ProductGrows((width as int * depth as int + 31) / 32 * 4,
                 (wider as int * depth as int + 31) / 32 * 4, height, taller);
  }

  lemma StrideGrows(width: nat, wider: nat, depth: nat)
    requires width <= wider && depth in {8, 24}
    ensures (width * depth + 31) / 32 * 4 <= (wider * depth + 31) / 32 * 4
  {
  }

  lemma ProductGrows(a: nat, b: nat, c: nat, d: nat)
    requires a <= b && c <= d
    ensures a * c <= b * d
  {
    assert b * d - a * c == (b - a) * d + a * (d - c);
    assert (b - a) * d >= 0 && a * (d - c) >= 0;
  }
}
