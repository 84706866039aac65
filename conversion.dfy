/**
 * The conversion entry points of include/vibrant.h: `vbt_rgb`, `vbt_hsl`,
 * `vbt_hwb` in full, and the finiteness guards and final clamps of
 * `vbt_lab`, `vbt_lch`, `vbt_oklab` and `vbt_oklch`, whose colour-space
 * arithmetic is a parameter of the model (`ColorMath`).
 *
 * HSL and HWB follow the "hsl-to-rgb" and "hwb-to-rgb" algorithms of CSS
 * Color Module Level 4.
 */
module Conversion {
  import opened Color
  import opened Receivers

  /** Three channels before quantisation, nominally in [0, 1]. */
  datatype Rgb01 = Rgb01(r: real, g: real, b: real)

  ghost predicate InUnit(c: Rgb01)
  {
    0.0 <= c.r <= 1.0 && 0.0 <= c.g <= 1.0 && 0.0 <= c.b <= 1.0
  }

  predicate IsFinite(x: Num)
  {
    x.Finite?
  }

  /**
   * The floating-point arithmetic of the CIE LAB and Oklab pipelines, which
   * this model does not reproduce: LAB to gamma-encoded sRGB (vibrant.h
   * lines 607-658), Oklab to gamma-encoded sRGB (695-733), and the
   * polar-to-Cartesian step `(chroma, hue in degrees) -> (a, b)` of LCH and
   * OKLCH (589-591, 677-679).
   */
  datatype ColorMath = ColorMath(
    labToSrgb: (real, real, real) -> Rgb01,
    oklabToSrgb: (real, real, real) -> Rgb01,
    polarToCartesian: (real, real) -> (real, real))

  // ---------------------------------------------------------------------
  // Angles

  function Min(x: real, y: real): real { if x < y then x else y }
  function Max(x: real, y: real): real { if x > y then x else y }

  /** Rounding toward zero, as C's `fmod` uses for its quotient. */
  function Trunc(q: real): int
  {
    if q >= 0.0 then q.Floor else -((-q).Floor)
  }

  /**
   * C's `fmod(x, y)` for `y > 0`: `x` minus a whole number of `y`, with the
   * sign of `x` and a magnitude below `y`.
   */
  function Fmod(x: real, y: real): (r: real)
    requires y > 0.0
    ensures x >= 0.0 ==> 0.0 <= r < y
    ensures x < 0.0 ==> -y < r <= 0.0
  {
    var t := Trunc(x / y);
    FmodBounds(x, y, t);
    x - (t as real) * y
  }

  /** The truncated quotient leaves a remainder with the sign of `x`, below `y` in magnitude. */
  lemma FmodBounds(x: real, y: real, t: int)
    requires y > 0.0 && t == Trunc(x / y)
    ensures x >= 0.0 ==> 0.0 <= x - (t as real) * y < y
    ensures x < 0.0 ==> -y < x - (t as real) * y <= 0.0
  {
    var tr := t as real;
    if x / y >= 0.0 {
      RemainderUp(x, y, tr);
    } else {
      RemainderDown(x, y, tr);
    }
  }

  lemma RemainderUp(x: real, y: real, t: real)
    requires y > 0.0 && 0.0 <= t <= x / y < t + 1.0
    ensures 0.0 <= x && 0.0 <= x - t * y < y
  {
    var d := x / y - t;
    assert x - t * y == d * y;
    FracScaled(d, y);
    MulMono(0.0, t, y);
  }

  lemma RemainderDown(x: real, y: real, t: real)
    requires y > 0.0 && t - 1.0 < x / y <= t <= 0.0
    ensures x <= 0.0 && -y < x - t * y <= 0.0
  {
    var d := t - x / y;
    assert x - t * y == -(d * y);
    FracScaled(d, y);
    MulMono(t, 0.0, y);
  }

  /** A fraction `d` in [0, 1) of a positive `y` is below `y`. */
  lemma FracScaled(d: real, y: real)
    requires y > 0.0 && 0.0 <= d < 1.0
    ensures 0.0 <= d * y < y
  {
    assert y - d * y == (1.0 - d) * y;
    assert (1.0 - d) * y > 0.0;
  }

  /** Multiplying by a positive number keeps the order. */
  lemma MulMono(a: real, b: real, y: real)
    requires y > 0.0 && a <= b
    ensures a * y <= b * y
    ensures a < b ==> a * y < b * y
  {
    assert b * y - a * y == (b - a) * y;
  }

  /** A real with no fractional part. */
  ghost predicate IsWhole(q: real)
  {
    q.Floor as real == q
  }

  lemma WholeAdd(p: real, q: real)
    requires IsWhole(p) && IsWhole(q)
    ensures IsWhole(p + q) && IsWhole(p - q)
  {
    var n, m := p.Floor + q.Floor, p.Floor - q.Floor;
    assert p + q == n as real && p - q == m as real;
    assert (n as real).Floor == n && (m as real).Floor == m;
  }

  /** `x` and `y` differ by a whole number of turns. */
  ghost predicate SameAngle(x: real, y: real)
  {
    IsWhole((x - y) / 360.0)
  }

  /**
   * vbt__normalize_angle: the angle reduced into [0, 360), differing from
   * the input by a whole number of turns.
   */
  function NormalizeAngle(angle: real): (r: real)
    ensures 0.0 <= r < 360.0
    ensures SameAngle(r, angle)
  {
    var a := Fmod(angle, 360.0);
    var turns := Trunc(angle / 360.0);
    assert (angle - a) / 360.0 == turns as real;
    assert (turns as real).Floor == turns;
    if a < 0.0 then
      WholeAdd(1.0, (angle - a) / 360.0);
      assert (a + 360.0 - angle) / 360.0 == 1.0 - (angle - a) / 360.0;
      a + 360.0
    else
      WholeAdd(0.0, (angle - a) / 360.0);
      assert (a - angle) / 360.0 == 0.0 - (angle - a) / 360.0;
      a
  }

  /** At most one angle in [0, 360) is a whole number of turns from a given one. */
  lemma {:induction false} SameAngleUnique(x: real, y: real, angle: real)
    requires 0.0 <= x < 360.0 && 0.0 <= y < 360.0
    requires SameAngle(x, angle) && SameAngle(y, angle)
    ensures x == y
  {
    WholeAdd((x - angle) / 360.0, (y - angle) / 360.0);
    assert (x - y) / 360.0 == (x - angle) / 360.0 - (y - angle) / 360.0;
    var d := (x - y) / 360.0;
    assert -1.0 < d < 1.0;
  }

  /** Adding whole turns does not change the normalised angle. */
  lemma {:induction false} NormalizeAnglePeriodic(angle: real, k: int)
    ensures NormalizeAngle(angle + 360.0 * k as real) == NormalizeAngle(angle)
  {
    var shifted := angle + 360.0 * k as real;
    var x := NormalizeAngle(shifted);
    var y := NormalizeAngle(angle);
    assert IsWhole(k as real);
    WholeAdd((x - shifted) / 360.0, k as real);
    assert (x - angle) / 360.0 == (x - shifted) / 360.0 + k as real;
    SameAngleUnique(x, y, angle);
  }

  // ---------------------------------------------------------------------
  // HSL

  /**
   * vbt__hsl_to_rgb_fn, the channel function `f(n)` of the CSS algorithm.
   * For saturation and lightness in [0, 1] the channel stays in [0, 1]
   * whatever the hue; with no saturation it is the lightness itself.
   */
  function HslChannel(h: real, s: real, l: real, n: real): (r: real)
    ensures 0.0 <= s <= 1.0 && 0.0 <= l <= 1.0 ==> 0.0 <= r <= 1.0
    ensures s == 0.0 ==> r == l
    ensures l == 0.0 || l == 1.0 ==> r == l
  {
    var a := Chroma(s, l);
    var m := ChannelShape(h, n);
    ChannelWithin(s, l, m);
    l - a * m
  }

  /** The chroma `a = s * min(l, 1 - l)` of `f(n)`: how far a channel may move from the lightness. */
  function Chroma(s: real, l: real): real
  {
    s * Min(l, 1.0 - l)
  }

  /**
   * The factor `max(-1, min(k - 3, 9 - k, 1))` of `f(n)`, where `k` is
   * `n + h / 30` taken modulo 12: how far channel `n` sits from the hue.
   */
  function ChannelShape(h: real, n: real): (m: real)
    ensures -1.0 <= m <= 1.0
  {
    var k := Fmod(n + h / 30.0, 12.0);
    Max(-1.0, Min(k - 3.0, Min(9.0 - k, 1.0)))
  }

  /** `l - s * min(l, 1 - l) * m` stays in [0, 1] for `m` in [-1, 1]. */
  lemma ChannelWithin(s: real, l: real, m: real)
    requires -1.0 <= m <= 1.0
    ensures 0.0 <= s <= 1.0 && 0.0 <= l <= 1.0 ==> 0.0 <= l - s * Min(l, 1.0 - l) * m <= 1.0
    ensures s == 0.0 ==> l - s * Min(l, 1.0 - l) * m == l
    ensures l == 0.0 || l == 1.0 ==> l - s * Min(l, 1.0 - l) * m == l
  {
    var x := Min(l, 1.0 - l);
    if 0.0 <= s <= 1.0 && 0.0 <= l <= 1.0 {
      ChannelBound(s, x, l, m);
    }
  }

  lemma ChannelBound(s: real, x: real, l: real, m: real)
    requires 0.0 <= s <= 1.0 && 0.0 <= x <= l && x <= 1.0 - l && -1.0 <= m <= 1.0
    ensures 0.0 <= l - s * x * m <= 1.0
  {
    var a := s * x;
    ProductBelow(s, x);
    assert 0.0 <= a <= x;
    var am := a * m;
    ScaledWithin(a, m);
    assert -a <= am <= a;
    assert l - a <= l - am <= l + a;
  }

  lemma ScaledWithin(a: real, m: real)
    requires a >= 0.0 && -1.0 <= m <= 1.0
    ensures -a <= a * m <= a
  {
    if m >= 0.0 {
      ProductBelow(m, a);
    } else {
      ProductBelow(-m, a);
    }
  }

  lemma ProductBelow(s: real, x: real)
    requires 0.0 <= s <= 1.0 && 0.0 <= x
    ensures 0.0 <= s * x <= x
  {
    assert x - s * x == (1.0 - s) * x;
  }

  /**
   * vbt__hsl_to_rgb: saturation and lightness on the 0..100 scale; the
   * channels are f(0), f(8) and f(4). In range inputs give unit-interval
   * channels, and zero saturation gives the gray of the lightness.
   */
  function HslToRgb(hue: real, saturation: real, lightness: real): (c: Rgb01)
    ensures 0.0 <= saturation <= 100.0 && 0.0 <= lightness <= 100.0 ==> InUnit(c)
    ensures saturation == 0.0 ==> c.r == c.g == c.b == lightness / 100.0
    ensures lightness == 0.0 ==> c == Rgb01(0.0, 0.0, 0.0)
    ensures lightness == 100.0 ==> c == Rgb01(1.0, 1.0, 1.0)
  {
    var s := saturation / 100.0;
    var l := lightness / 100.0;
    Rgb01(HslChannel(hue, s, l, 0.0), HslChannel(hue, s, l, 8.0), HslChannel(hue, s, l, 4.0))
  }

  /** What `vbt_hsl` delivers for finite arguments. */
  function HslColor(hue: real, saturation: real, lightness: real, alpha: real): Rgba8
  {
    var c := HslToRgb(NormalizeAngle(hue), Clamp0100(saturation), Clamp0100(lightness));
    Rgba8(Byte01(c.r), Byte01(c.g), Byte01(c.b), Byte01(Clamp01(alpha)))
  }

  /** hsl(h) and hsl(h + 360k) are the same colour. */
  lemma {:induction false} HslHuePeriodic(hue: real, k: int, saturation: real, lightness: real, alpha: real)
    ensures HslColor(hue + 360.0 * k as real, saturation, lightness, alpha)
         == HslColor(hue, saturation, lightness, alpha)
  {
    NormalizeAnglePeriodic(hue, k);
  }

  /**
   * Out-of-range saturation and lightness are clamped, not rejected:
   * saturation above 100 acts as 100, lightness outside [0, 100] gives black
   * or white, and saturation at or below zero gives the gray of the
   * lightness.
   */
  lemma HslClampsPercentages(hue: real, saturation: real, lightness: real, alpha: real)
    ensures saturation >= 100.0 ==>
      HslColor(hue, saturation, lightness, alpha) == HslColor(hue, 100.0, lightness, alpha)
    ensures lightness <= 0.0 ==> HslColor(hue, saturation, lightness, alpha) == Rgba8(0, 0, 0, Byte01(Clamp01(alpha)))
    ensures lightness >= 100.0 ==>
      HslColor(hue, saturation, lightness, alpha) == Rgba8(255, 255, 255, Byte01(Clamp01(alpha)))
    ensures saturation <= 0.0 ==>
      var g := Byte01(Clamp0100(lightness) / 100.0);
      HslColor(hue, saturation, lightness, alpha) == Rgba8(g, g, g, Byte01(Clamp01(alpha)))
  {
  }

  /**
   * The fully saturated colour of a hue in [0, 360) on the six sectors of
   * the colour wheel: red, yellow, green, cyan, blue and magenta at every
   * sixty degrees, one channel rising or falling linearly in between.
   */
  function PureHue(h: real): (c: Rgb01)
    requires 0.0 <= h < 360.0
    ensures InUnit(c)
  {
    if h < 60.0 then Rgb01(1.0, h / 60.0, 0.0)
    else if h < 120.0 then Rgb01((120.0 - h) / 60.0, 1.0, 0.0)
    else if h < 180.0 then Rgb01(0.0, 1.0, (h - 120.0) / 60.0)
    else if h < 240.0 then Rgb01(0.0, (240.0 - h) / 60.0, 1.0)
    else if h < 300.0 then Rgb01((h - 240.0) / 60.0, 0.0, 1.0)
    else Rgb01(1.0, 0.0, (360.0 - h) / 60.0)
  }

  /** `fmod` of a value in [0, 2y) takes off at most one `y`. */
  lemma FmodOnce(x: real, y: real)
    requires y > 0.0 && 0.0 <= x < 2.0 * y
    ensures Fmod(x, y) == if x < y then x else x - y
  {
    if x < y {
      QuotientWithin(x, y, 0.0);
      assert Trunc(x / y) == 0;
    } else {
      QuotientWithin(x, y, 1.0);
      assert Trunc(x / y) == 1;
    }
  }

  /** A quotient between two consecutive multiples of the divisor. */
  lemma QuotientWithin(x: real, y: real, n: real)
    requires y > 0.0 && n * y <= x < (n + 1.0) * y
    ensures n <= x / y < n + 1.0
  {
    var q := x / y;
    assert q * y == x;
    if q < n {
      MulMono(q, n, y);
    }
    if q >= n + 1.0 {
      MulMono(n + 1.0, q, y);
    }
  }

  /** The shape factor of red, green and blue, `n` = 0, 8 and 4, is that of the pure hue. */
  lemma PureHueRed(h: real)
    requires 0.0 <= h < 360.0
    ensures PureHue(h).r == (1.0 - ChannelShape(h, 0.0)) / 2.0
  {
    FmodOnce(0.0 + h / 30.0, 12.0);
  }

  lemma PureHueGreen(h: real)
    requires 0.0 <= h < 360.0
    ensures PureHue(h).g == (1.0 - ChannelShape(h, 8.0)) / 2.0
  {
    FmodOnce(8.0 + h / 30.0, 12.0);
  }

  lemma PureHueBlue(h: real)
    requires 0.0 <= h < 360.0
    ensures PureHue(h).b == (1.0 - ChannelShape(h, 4.0)) / 2.0
  {
    FmodOnce(4.0 + h / 30.0, 12.0);
  }

  /** hsl(h, 100%, 50%) is the pure hue of `h`. */
  lemma HslPureHue(h: real)
    requires 0.0 <= h < 360.0
    ensures HslToRgb(h, 100.0, 50.0) == PureHue(h)
  {
    PureHueRed(h);
    PureHueGreen(h);
    PureHueBlue(h);
  }

  /**
   * Every HSL colour is its pure hue scaled around the lightness: the
   * channels f(0), f(8) and f(4) of a hue in [0, 360) are each
   * `l + a * (2p - 1)` for the matching pure-hue channel `p` and the chroma
   * `a`, so the hue picks the direction and the saturation the distance
   * from the gray of the lightness.
   */
  lemma HslAroundLightness(h: real, s: real, l: real)
    requires 0.0 <= h < 360.0
    ensures HslChannel(h, s, l, 0.0) == l + Chroma(s, l) * (2.0 * PureHue(h).r - 1.0)
    ensures HslChannel(h, s, l, 8.0) == l + Chroma(s, l) * (2.0 * PureHue(h).g - 1.0)
    ensures HslChannel(h, s, l, 4.0) == l + Chroma(s, l) * (2.0 * PureHue(h).b - 1.0)
  {
    RedAround(h, s, l);
    GreenAround(h, s, l);
    BlueAround(h, s, l);
  }

  lemma RedAround(h: real, s: real, l: real)
    requires 0.0 <= h < 360.0
    ensures HslChannel(h, s, l, 0.0) == l + Chroma(s, l) * (2.0 * PureHue(h).r - 1.0)
  {
    PureHueRed(h);
    ChannelAround(h, s, l, 0.0, PureHue(h).r);
  }

  lemma GreenAround(h: real, s: real, l: real)
    requires 0.0 <= h < 360.0
    ensures HslChannel(h, s, l, 8.0) == l + Chroma(s, l) * (2.0 * PureHue(h).g - 1.0)
  {
    PureHueGreen(h);
    ChannelAround(h, s, l, 8.0, PureHue(h).g);
  }

  lemma BlueAround(h: real, s: real, l: real)
    requires 0.0 <= h < 360.0
    ensures HslChannel(h, s, l, 4.0) == l + Chroma(s, l) * (2.0 * PureHue(h).b - 1.0)
  {
    PureHueBlue(h);
    ChannelAround(h, s, l, 4.0, PureHue(h).b);
  }

  /** One channel as the pure-hue channel `p` scaled around the lightness. */
  lemma ChannelAround(h: real, s: real, l: real, n: real, p: real)
    requires p == (1.0 - ChannelShape(h, n)) / 2.0
    ensures HslChannel(h, s, l, n) == l + Chroma(s, l) * (2.0 * p - 1.0)
  {
    assert 2.0 * p - 1.0 == -ChannelShape(h, n);
  }

  /** An angle already in [0, 360) is left as it is. */
  lemma NormalizeAngleInRange(angle: real)
    requires 0.0 <= angle < 360.0
    ensures NormalizeAngle(angle) == angle
  {
    assert IsWhole(0.0);
    assert (angle - angle) / 360.0 == 0.0;
    SameAngleUnique(NormalizeAngle(angle), angle, angle);
  }

  /** An opaque hsl(h, 100%, 50%) delivers the bytes of the pure hue. */
  lemma HslPureColor(h: real)
    requires 0.0 <= h < 360.0
    ensures var p := PureHue(h);
            HslColor(h, 100.0, 50.0, 1.0) == Rgba8(Byte01(p.r), Byte01(p.g), Byte01(p.b), 255)
  {
    NormalizeAngleInRange(h);
    HslPureHue(h);
  }

  /** The primaries and orange at full saturation and half lightness. */
  lemma HslTestColors()
    ensures HslColor(0.0, 100.0, 50.0, 1.0) == Rgba8(255, 0, 0, 255)
    ensures HslColor(120.0, 100.0, 50.0, 1.0) == Rgba8(0, 255, 0, 255)
    ensures HslColor(240.0, 100.0, 50.0, 1.0) == Rgba8(0, 0, 255, 255)
    ensures HslColor(30.0, 100.0, 50.0, 1.0) == Rgba8(255, 128, 0, 255)
  {
    HslPureColor(0.0);
    HslPureColor(120.0);
    HslPureColor(240.0);
    HslPureColor(30.0);
    assert Byte01(0.5) == 128;
  }

  /** hsl(180, 50%, 50%), the example of the library's usage notes, is (64, 191, 191). */
  lemma HslMutedCyan()
    ensures HslColor(180.0, 50.0, 50.0, 1.0) == Rgba8(64, 191, 191, 255)
  {
    NormalizeAngleInRange(180.0);
    HslAroundLightness(180.0, 0.5, 0.5);
    assert HslToRgb(180.0, 50.0, 50.0) == Rgb01(0.25, 0.75, 0.75);
    assert Byte01(0.25) == 64 && Byte01(0.75) == 191;
  }

  // ---------------------------------------------------------------------
  // HWB

  /**
   * The channels of the CSS hwb-to-rgb algorithm for whiteness and
   * blackness already on the unit scale: a gray of `w / (w + b)` when the
   * two add up to one or more, otherwise the fully saturated hue blended
   * between the whiteness and one minus the blackness.
   */
  function HwbChannels(h: real, w: real, b: real): (c: Rgb01)
    requires 0.0 <= w <= 1.0 && 0.0 <= b <= 1.0
    ensures InUnit(c)
    ensures w + b >= 1.0 ==> c.r == c.g == c.b && c.r * (w + b) == w
    ensures w + b < 1.0 ==> w <= c.r <= 1.0 - b && w <= c.g <= 1.0 - b && w <= c.b <= 1.0 - b
  {
    if w + b >= 1.0 then
      var gray := w / (w + b);
      Share(w, w + b);
      Rgb01(gray, gray, gray)
    else
      var pure := HslToRgb(h, 100.0, 50.0);
      BlendWithin(pure.r, w, b);
      BlendWithin(pure.g, w, b);
      BlendWithin(pure.b, w, b);
      Rgb01(Blend(pure.r, w, b), Blend(pure.g, w, b), Blend(pure.b, w, b))
  }

  /** One step of the blend loop of `vbt_hwb`. */
  function Blend(x: real, w: real, b: real): real
  {
    x * (1.0 - w - b) + w
  }

  lemma BlendWithin(x: real, w: real, b: real)
    requires 0.0 <= x <= 1.0 && 0.0 <= w && 0.0 <= b && w + b < 1.0
    ensures w <= Blend(x, w, b) <= 1.0 - b
  {
    var t := 1.0 - w - b;
    ProductBelow(x, t);
    assert Blend(x, w, b) == x * t + w;
    assert x * t + w <= t + w == 1.0 - b;
  }

  /** A part `w` of a positive whole `t` is a fraction in [0, 1]. */
  lemma Share(w: real, t: real)
    requires 0.0 <= w <= t && t > 0.0
    ensures 0.0 <= w / t <= 1.0 && (w / t) * t == w
  {
  }

  /** What `vbt_hwb` delivers for finite arguments. */
  function HwbColor(hue: real, whiteness: real, blackness: real, alpha: real): Rgba8
  {
    var c := HwbChannels(NormalizeAngle(hue), Clamp0100(whiteness) / 100.0, Clamp0100(blackness) / 100.0);
    Rgba8(Byte01(c.r), Byte01(c.g), Byte01(c.b), Byte01(Clamp01(alpha)))
  }

  /** hwb(h) and hwb(h + 360k) are the same colour. */
  lemma {:induction false} HwbHuePeriodic(hue: real, k: int, whiteness: real, blackness: real, alpha: real)
    ensures HwbColor(hue + 360.0 * k as real, whiteness, blackness, alpha)
         == HwbColor(hue, whiteness, blackness, alpha)
  {
    NormalizeAnglePeriodic(hue, k);
  }

  /**
   * Below the gray line an HWB colour is its pure hue blended between the
   * whiteness and one minus the blackness.
   */
  lemma HwbBlendsPureHue(h: real, w: real, b: real)
    requires 0.0 <= h < 360.0
    requires 0.0 <= w <= 1.0 && 0.0 <= b <= 1.0 && w + b < 1.0
    ensures var p := PureHue(h);
            HwbChannels(h, w, b) == Rgb01(Blend(p.r, w, b), Blend(p.g, w, b), Blend(p.b, w, b))
  {
    HslPureHue(h);
  }

  /** Whiteness is clamped to [0, 100], not rejected. */
  lemma HwbClampsWhiteness(hue: real, whiteness: real, blackness: real, alpha: real)
    ensures whiteness >= 100.0 ==>
      HwbColor(hue, whiteness, blackness, alpha) == HwbColor(hue, 100.0, blackness, alpha)
    ensures whiteness <= 0.0 ==>
      HwbColor(hue, whiteness, blackness, alpha) == HwbColor(hue, 0.0, blackness, alpha)
  {
  }

  /** Blackness is clamped to [0, 100], not rejected. */
  lemma HwbClampsBlackness(hue: real, whiteness: real, blackness: real, alpha: real)
    ensures blackness >= 100.0 ==>
      HwbColor(hue, whiteness, blackness, alpha) == HwbColor(hue, whiteness, 100.0, alpha)
    ensures blackness <= 0.0 ==>
      HwbColor(hue, whiteness, blackness, alpha) == HwbColor(hue, whiteness, 0.0, alpha)
  {
  }

  /**
   * Once the clamped whiteness and blackness add up to 100 or more the
   * colour is the gray of the whiteness's share, whatever the hue.
   */
  lemma HwbGrayLine(hue: real, whiteness: real, blackness: real, alpha: real)
    requires Clamp0100(whiteness) + Clamp0100(blackness) >= 100.0
    ensures var g := GrayShare(Clamp0100(whiteness), Clamp0100(blackness));
            HwbColor(hue, whiteness, blackness, alpha) == Rgba8(g, g, g, Byte01(Clamp01(alpha)))
  {
    SharePercent(Clamp0100(whiteness), Clamp0100(blackness));
  }

  /** The byte of the gray `w / (w + b)`. */
  function GrayShare(w: real, b: real): Byte
    requires 0.0 <= w && 0.0 <= b && w + b > 0.0
  {
    Share(w, w + b);
    Byte01(w / (w + b))
  }

  /** A share is the same on the 0..100 and on the unit scale. */
  lemma SharePercent(x: real, y: real)
    requires x >= 0.0 && y >= 0.0 && x + y > 0.0
    ensures (x / 100.0) / (x / 100.0 + y / 100.0) == x / (x + y)
  {
    assert x / 100.0 + y / 100.0 == (x + y) / 100.0;
  }

  /** hwb(h, 0%, 0%) of a hue in [0, 360) delivers the bytes of the pure hue. */
  lemma HwbPureColor(h: real, alpha: real)
    requires 0.0 <= h < 360.0
    ensures var p := PureHue(h);
            HwbColor(h, 0.0, 0.0, alpha) == Rgba8(Byte01(p.r), Byte01(p.g), Byte01(p.b), Byte01(Clamp01(alpha)))
  {
    NormalizeAngleInRange(h);
    HwbBlendsPureHue(h, 0.0, 0.0);
    var p := PureHue(h);
    assert Blend(p.r, 0.0, 0.0) == p.r && Blend(p.g, 0.0, 0.0) == p.g && Blend(p.b, 0.0, 0.0) == p.b;
  }

  /** Black, white and the grays of hwb(), with clamped and turned-around arguments. */
  lemma HwbTestGrays()
    ensures HwbColor(0.0, 0.0, 100.0, 1.0) == Rgba8(0, 0, 0, 255)
    ensures HwbColor(0.0, 100.0, 0.0, 1.0) == Rgba8(255, 255, 255, 255)
    ensures HwbColor(0.0, 50.0, 50.0, 1.0) == Rgba8(128, 128, 128, 255)
    ensures HwbColor(0.0, 200.0, -50.0, 1.0) == Rgba8(255, 255, 255, 255)
    ensures HwbColor(720.0, 100.0, 0.0, 1.0) == Rgba8(255, 255, 255, 255)
  {
    NormalizeAngleInRange(0.0);
    assert Byte01(0.5) == 128;
  }

  /** The primaries and a half transparent orange of hwb(). */
  lemma HwbTestHues()
    ensures HwbColor(0.0, 0.0, 0.0, 1.0) == Rgba8(255, 0, 0, 255)
    ensures HwbColor(120.0, 0.0, 0.0, 1.0) == Rgba8(0, 255, 0, 255)
    ensures HwbColor(240.0, 0.0, 0.0, 1.0) == Rgba8(0, 0, 255, 255)
    ensures HwbColor(30.0, 0.0, 0.0, 0.5) == Rgba8(255, 128, 0, 128)
  {
    HwbPureColor(0.0, 1.0);
    HwbPureColor(120.0, 1.0);
    HwbPureColor(240.0, 1.0);
    HwbPureColor(30.0, 0.5);
    assert Byte01(0.5) == 128;
  }

  /** hwb(0, 20%, 20%) is red blended into [0.2, 0.8]: (204, 51, 51). */
  lemma HwbDesaturatedRed()
    ensures HwbColor(0.0, 20.0, 20.0, 1.0) == Rgba8(204, 51, 51, 255)
  {
    NormalizeAngleInRange(0.0);
    assert Clamp0100(20.0) / 100.0 == 0.2;
    DesaturatedRedChannels();
    FifthBytes();
  }

  lemma DesaturatedRedChannels()
    ensures HwbChannels(0.0, 0.2, 0.2) == Rgb01(0.8, 0.2, 0.2)
  {
    HwbBlendsPureHue(0.0, 0.2, 0.2);
    assert PureHue(0.0) == Rgb01(1.0, 0.0, 0.0);
  }

  lemma FifthBytes()
    ensures Byte01(0.8) == 204 && Byte01(0.2) == 51
  {
    assert 0.8 * 255.0 + 0.5 == 204.5;
    assert 0.2 * 255.0 + 0.5 == 51.5;
  }

  // ---------------------------------------------------------------------
  // LAB, LCH, Oklab, OKLCH: guards and final clamps

  /** What `vbt_lab` delivers for finite arguments. */
  function LabColor(math: ColorMath, lightness: real, a: real, b: real, alpha: real): Rgba8
  {
    var c := math.labToSrgb(Clamp0100(lightness), a, b);
    Rgba8(Byte01(Clamp01(c.r)), Byte01(Clamp01(c.g)), Byte01(Clamp01(c.b)), Byte01(Clamp01(alpha)))
  }

  /** What `vbt_oklab` delivers for finite arguments. */
  function OklabColor(math: ColorMath, lightness: real, a: real, b: real, alpha: real): Rgba8
  {
    var c := math.oklabToSrgb(Clamp0100(lightness), a, b);
    Rgba8(Byte01(Clamp01(c.r)), Byte01(Clamp01(c.g)), Byte01(Clamp01(c.b)), Byte01(Clamp01(alpha)))
  }

  /** What `vbt_lch` delivers for finite arguments. */
  function LchColor(math: ColorMath, lightness: real, chroma: real, hue: real, alpha: real): Rgba8
  {
    var ab := math.polarToCartesian(chroma, hue);
    LabColor(math, lightness, ab.0, ab.1, alpha)
  }

  /** What `vbt_oklch` delivers for finite arguments. */
  function OklchColor(math: ColorMath, lightness: real, chroma: real, hue: real, alpha: real): Rgba8
  {
    var ab := math.polarToCartesian(chroma, hue);
    OklabColor(math, lightness, ab.0, ab.1, alpha)
  }

  // ---------------------------------------------------------------------
  // The entry points

  /** What the receiver may change: itself and the cells it points at. */
  function Footprint(recv: Receiver?): set<object>
    reads recv
  {
    if recv == null then {} else {recv} + recv.Cells()
  }

  /**
   * vbt_rgb: fails with the receiver untouched when it is null or alpha is
   * not finite; otherwise delivers the three bytes and the clamped alpha
   * quantised to a byte.
   */
  method Rgb(red: Byte, green: Byte, blue: Byte, alpha: Num, recv: Receiver?) returns (status: Status)
    modifies Footprint(recv)
    ensures status == Success || status == Err
    ensures status == Success <==> recv != null && IsFinite(alpha)
    ensures status == Success ==> recv.Shows(Rgba8(red, green, blue, Byte01(Clamp01(alpha.v)))) && recv.KeptLayout()
    ensures status == Err ==> unchanged(old(Footprint(recv)))
  {
    if recv == null || !IsFinite(alpha) {
      return Err;
    }
    status := recv.WriteU8(red, green, blue, Byte01(Clamp01(alpha.v)));
  }

  /**
   * vbt_hsl: fails with the receiver untouched when it is null or any
   * argument is not finite; otherwise delivers HslColor.
   */
  method Hsl(hue: Num, saturation: Num, lightness: Num, alpha: Num, recv: Receiver?) returns (status: Status)
    modifies Footprint(recv)
    ensures status == Success || status == Err
    ensures status == Success <==>
      recv != null && IsFinite(hue) && IsFinite(saturation) && IsFinite(lightness) && IsFinite(alpha)
    ensures status == Success ==> recv.Shows(HslColor(hue.v, saturation.v, lightness.v, alpha.v)) && recv.KeptLayout()
    ensures status == Err ==> unchanged(old(Footprint(recv)))
  {
    if recv == null || !IsFinite(hue) || !IsFinite(saturation) || !IsFinite(lightness) || !IsFinite(alpha) {
      return Err;
    }
    var c := HslToRgb(NormalizeAngle(hue.v), Clamp0100(saturation.v), Clamp0100(lightness.v));
    status := recv.Write01(c.r, c.g, c.b, Clamp01(alpha.v));
  }

  /**
   * vbt_hwb: fails with the receiver untouched when it is null or any
   * argument is not finite; otherwise delivers HwbColor, computing the
   * non-gray case by blending the channels of a three-element array in
   * place.
   */
  method Hwb(hue: Num, whiteness: Num, blackness: Num, alpha: Num, recv: Receiver?) returns (status: Status)
    modifies Footprint(recv)
    ensures status == Success || status == Err
    ensures status == Success <==>
      recv != null && IsFinite(hue) && IsFinite(whiteness) && IsFinite(blackness) && IsFinite(alpha)
    ensures status == Success ==> recv.Shows(HwbColor(hue.v, whiteness.v, blackness.v, alpha.v)) && recv.KeptLayout()
    ensures status == Err ==> unchanged(old(Footprint(recv)))
  {
    if recv == null || !IsFinite(hue) || !IsFinite(whiteness) || !IsFinite(blackness) || !IsFinite(alpha) {
      return Err;
    }
    var h := NormalizeAngle(hue.v);
    var w := Clamp0100(whiteness.v) / 100.0;
    var b := Clamp0100(blackness.v) / 100.0;
    var wb := w + b;
    var clampedAlpha := Clamp01(alpha.v);
    ghost var expected := HwbChannels(h, w, b);

    if wb >= 1.0 {
      var gray := w / wb;
      status := recv.Write01(gray, gray, gray, clampedAlpha);
      return;
    }

    var pure := HslToRgb(h, 100.0, 50.0);
    var rgb := new real[3];
    rgb[0], rgb[1], rgb[2] := pure.r, pure.g, pure.b;
    BlendInPlace(rgb, w, b);
    assert rgb[0] == expected.r && rgb[1] == expected.g && rgb[2] == expected.b;
    status := recv.Write01(rgb[0], rgb[1], rgb[2], clampedAlpha);
  }

  /** The blend loop of `vbt_hwb`: every channel `x` becomes `x * (1 - w - b) + w`. */
  method BlendInPlace(rgb: array<real>, w: real, b: real)
    modifies rgb
    ensures forall j :: 0 <= j < rgb.Length ==> rgb[j] == Blend(old(rgb[j]), w, b)
  {
    for i := 0 to rgb.Length
      invariant forall j :: 0 <= j < i ==> rgb[j] == Blend(old(rgb[j]), w, b)
      invariant forall j :: i <= j < rgb.Length ==> rgb[j] == old(rgb[j])
    {
      rgb[i] := rgb[i] * (1.0 - w - b);
      rgb[i] := rgb[i] + w;
    }
  }

  /**
   * vbt_lab: fails with the receiver untouched when it is null or any
   * argument is not finite; otherwise clamps the lightness to [0, 100],
   * converts, clamps every channel to [0, 1] and delivers LabColor.
   */
  method Lab(math: ColorMath, lightness: Num, a: Num, b: Num, alpha: Num, recv: Receiver?) returns (status: Status)
    modifies Footprint(recv)
    ensures status == Success || status == Err
    ensures status == Success <==>
      recv != null && IsFinite(lightness) && IsFinite(a) && IsFinite(b) && IsFinite(alpha)
    ensures status == Success ==> recv.Shows(LabColor(math, lightness.v, a.v, b.v, alpha.v)) && recv.KeptLayout()
    ensures status == Err ==> unchanged(old(Footprint(recv)))
  {
    if recv == null || !IsFinite(lightness) || !IsFinite(a) || !IsFinite(b) || !IsFinite(alpha) {
      return Err;
    }
    var c := math.labToSrgb(Clamp0100(lightness.v), a.v, b.v);
    status := recv.Write01(Clamp01(c.r), Clamp01(c.g), Clamp01(c.b), Clamp01(alpha.v));
  }

  /** vbt_lch: the same guard, then polar to Cartesian and vbt_lab. */
  method Lch(math: ColorMath, lightness: Num, chroma: Num, hue: Num, alpha: Num, recv: Receiver?) returns (status: Status)
    modifies Footprint(recv)
    ensures status == Success || status == Err
    ensures status == Success <==>
      recv != null && IsFinite(lightness) && IsFinite(chroma) && IsFinite(hue) && IsFinite(alpha)
    ensures status == Success ==> recv.Shows(LchColor(math, lightness.v, chroma.v, hue.v, alpha.v)) && recv.KeptLayout()
    ensures status == Err ==> unchanged(old(Footprint(recv)))
  {
    if recv == null || !IsFinite(lightness) || !IsFinite(chroma) || !IsFinite(hue) || !IsFinite(alpha) {
      return Err;
    }
    var ab := math.polarToCartesian(chroma.v, hue.v);
    status := Lab(math, lightness, Finite(ab.0), Finite(ab.1), alpha, recv);
  }

  /**
   * vbt_oklab: fails with the receiver untouched when it is null or any
   * argument is not finite; otherwise clamps the lightness to [0, 100] (as
   * the code does, although Oklab lightness is on the unit scale), converts,
   * clamps every channel to [0, 1] and delivers OklabColor.
   */
  method Oklab(math: ColorMath, lightness: Num, a: Num, b: Num, alpha: Num, recv: Receiver?) returns (status: Status)
    modifies Footprint(recv)
    ensures status == Success || status == Err
    ensures status == Success <==>
      recv != null && IsFinite(lightness) && IsFinite(a) && IsFinite(b) && IsFinite(alpha)
    ensures status == Success ==> recv.Shows(OklabColor(math, lightness.v, a.v, b.v, alpha.v)) && recv.KeptLayout()
    ensures status == Err ==> unchanged(old(Footprint(recv)))
  {
    if recv == null || !IsFinite(lightness) || !IsFinite(a) || !IsFinite(b) || !IsFinite(alpha) {
      return Err;
    }
    var c := math.oklabToSrgb(Clamp0100(lightness.v), a.v, b.v);
    status := recv.Write01(Clamp01(c.r), Clamp01(c.g), Clamp01(c.b), Clamp01(alpha.v));
  }

  /** vbt_oklch: the same guard, then polar to Cartesian and vbt_oklab. */
  method Oklch(math: ColorMath, lightness: Num, chroma: Num, hue: Num, alpha: Num, recv: Receiver?) returns (status: Status)
    modifies Footprint(recv)
    ensures status == Success || status == Err
    ensures status == Success <==>
      recv != null && IsFinite(lightness) && IsFinite(chroma) && IsFinite(hue) && IsFinite(alpha)
    ensures status == Success ==> recv.Shows(OklchColor(math, lightness.v, chroma.v, hue.v, alpha.v)) && recv.KeptLayout()
    ensures status == Err ==> unchanged(old(Footprint(recv)))
  {
    if recv == null || !IsFinite(lightness) || !IsFinite(chroma) || !IsFinite(hue) || !IsFinite(alpha) {
      return Err;
    }
    var ab := math.polarToCartesian(chroma.v, hue.v);
    status := Oklab(math, lightness, Finite(ab.0), Finite(ab.1), alpha, recv);
  }
}
