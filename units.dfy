/**
 * The unit translators `vbt__css_value_to_*` of include/vibrant.h: each maps
 * a parsed (value, unit) pair into the domain one argument of a colour
 * function expects. A percentage is clamped to its CSS range and scaled; a
 * plain number is clamped or passed through unchanged. Only `Percent` is
 * tested for, so the unset unit behaves as a plain number.
 */
module Units {
  import opened Color
  import opened Scanner

  /** VBT__PERCENT_MAX */
  const PercentMax: real := 100.0

  /**
   * vbt__css_value_to_01: a percentage clamped to [0, 100] and divided by
   * 100, or a number clamped to [0, 1].
   */
  function To01(css: CssValue): (r: real)
    ensures 0.0 <= r <= 1.0
    ensures css.unit == Percent && 0.0 <= css.value <= PercentMax ==> r == css.value / PercentMax
    ensures css.unit != Percent && 0.0 <= css.value <= 1.0 ==> r == css.value
    ensures css.unit == Percent && css.value >= PercentMax ==> r == 1.0
    ensures css.value <= 0.0 ==> r == 0.0
  {
    if css.unit == Percent then Clamp0100(css.value) / PercentMax else Clamp01(css.value)
  }

  /** A percentage means the same as the corresponding fraction of one. */
  lemma PercentIsHundredth(p: real)
    ensures To01(CssValue(p, Percent)) == To01(CssValue(p / PercentMax, Number))
  {
    if p < 0.0 {
      assert p / PercentMax < 0.0;
    } else if p > PercentMax {
      assert p / PercentMax > 1.0;
    }
  }

  /** vbt__css_value_to_percent: the value clamped to [0, 100], whatever its unit. */
  function ToPercent(css: CssValue): (r: real)
    ensures 0.0 <= r <= PercentMax
    ensures 0.0 <= css.value <= PercentMax ==> r == css.value
    ensures css.value < 0.0 ==> r == 0.0
    ensures css.value > PercentMax ==> r == PercentMax
  {
    Clamp0100(css.value)
  }

  /**
   * vbt__css_value_to_u8: a percentage of 255 quantised by VBT__01_TO_255,
   * or a number rounded half up by adding 0.5, clamping to [0, 255] and
   * truncating (the cast to `vbt_u8_t`).
   */
  function ToU8(css: CssValue): (r: Byte)
    ensures css.unit == Percent ==> r == Byte01(Clamp0100(css.value) / PercentMax)
    ensures css.unit != Percent && -0.5 <= css.value <= 254.5 ==>
      r as real <= css.value + 0.5 < r as real + 1.0
    ensures css.unit != Percent && css.value < -0.5 ==> r == 0
    ensures css.unit != Percent && css.value >= 254.5 ==> r == 255
  {
    if css.unit == Percent then Byte01(Clamp0100(css.value) / PercentMax)
    else Clamp(css.value + 0.5, 0.0, 255.0).Floor
  }

  /** A whole number of 0..255 written as a plain number is that byte. */
  lemma ByteNumberIsExact(b: Byte)
    ensures ToU8(CssValue(b as real, Number)) == b
  {
    assert (b as real + 0.5).Floor == b;
  }

  /** 0% and 100% are the ends of the byte range. */
  lemma PercentEndsOfByte()
    ensures ToU8(CssValue(0.0, Percent)) == 0
    ensures ToU8(CssValue(100.0, Percent)) == 255
  {
  }

  /**
   * vbt__css_value_to_lch_chroma: a percentage clamped to [0, 100] and
   * scaled by 1.5 (100% is chroma 150); a number unchanged.
   */
  function LchChroma(css: CssValue): (r: real)
    ensures css.unit == Percent ==> 0.0 <= r <= 150.0
    ensures css.unit == Percent && 0.0 <= css.value <= PercentMax ==> r == css.value * 1.5
    ensures css.unit != Percent ==> r == css.value
  {
    if css.unit == Percent then Clamp0100(css.value) * 1.5 else css.value
  }

  /**
   * vbt__css_value_to_lab_ab: a percentage clamped to [-100, 100] and
   * scaled by 1.25 (100% is 125); a number unchanged.
   */
  function LabAb(css: CssValue): (r: real)
    ensures css.unit == Percent ==> -125.0 <= r <= 125.0
    ensures css.unit == Percent && -PercentMax <= css.value <= PercentMax ==> r == css.value * 1.25
    ensures css.unit != Percent ==> r == css.value
  {
    if css.unit == Percent then Clamp(css.value, -PercentMax, PercentMax) * 1.25 else css.value
  }

  /**
   * vbt__css_value_to_ok_lightness: its body is the same mapping as
   * vbt__css_value_to_01, so it is defined as that one.
   */
  function OkLightness(css: CssValue): (r: real)
    ensures 0.0 <= r <= 1.0
    ensures css.unit == Percent && 0.0 <= css.value <= PercentMax ==> r == css.value / PercentMax
    ensures css.unit != Percent && 0.0 <= css.value <= 1.0 ==> r == css.value
  {
    To01(css)
  }

  /**
   * vbt__css_value_to_oklab_ab: a percentage clamped to [-100, 100] and
   * scaled by 0.004 (100% is 0.4); a number unchanged.
   */
  function OklabAb(css: CssValue): (r: real)
    ensures css.unit == Percent ==> -0.4 <= r <= 0.4
    ensures css.unit == Percent && -PercentMax <= css.value <= PercentMax ==> r == css.value * 0.004
    ensures css.unit != Percent ==> r == css.value
  {
    if css.unit == Percent then Clamp(css.value, -PercentMax, PercentMax) * 0.004 else css.value
  }
}
