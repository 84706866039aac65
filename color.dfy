/**
 * Shared value types of the colour library: bytes, RGBA colours, the
 * floating-point numbers that the public conversion entry points accept
 * (with their non-finite values), status codes, and the clamping and
 * byte-quantising macros of include/vibrant.h.
 */
module Color {

  datatype Option<T> = None | Some(value: T)

  /** An unsigned 8-bit component (`vbt_u8_t`). */
  type Byte = x: int | 0 <= x < 256

  /** A colour as four 8-bit channels. */
  datatype Rgba8 = Rgba8(r: Byte, g: Byte, b: Byte, a: Byte)

  /**
   * A `vbt_number_t` as the public entry points receive it: either a finite
   * value (modelled exactly as a real) or one of the non-finite values that
   * `isfinite` rejects.
   */
  datatype Num = Finite(v: real) | NaN | PosInf | NegInf

  /**
   * Return codes. `Success` and `Err` are VBT_SUCCESS and VBT_ERR;
   * `NotAFunction` is the internal VBT__NOT_A_FUNCTION code that only the
   * function parser returns to the dispatcher.
   */
  datatype Status = Success | Err | NotAFunction

  /** VBT__CLAMP: `min` below, `max` above, the value itself in between. */
  function Clamp(x: real, lo: real, hi: real): (r: real)
    requires lo <= hi
    ensures lo <= r <= hi
    ensures lo <= x <= hi ==> r == x
    ensures x < lo ==> r == lo
    ensures x > hi ==> r == hi
  {
    if x < lo then lo else if x > hi then hi else x
  }

  /** VBT__CLAMP_01 */
  function Clamp01(x: real): real
  {
    Clamp(x, 0.0, 1.0)
  }

  /** VBT__CLAMP_0100 */
  function Clamp0100(x: real): real
  {
    Clamp(x, 0.0, 100.0)
  }

  /**
   * VBT__01_TO_255: scale a unit-interval channel to 0..255, add one half and
   * truncate. The macro's own comment says its argument is assumed clamped;
   * outside [0, 1] the C conversion to `vbt_u8_t` is undefined, so callers
   * must establish the range. The result is the byte nearest to `x * 255`,
   * with halves rounded up.
   */
  function Byte01(x: real): (r: Byte)
    requires 0.0 <= x <= 1.0
    ensures r as real <= x * 255.0 + 0.5 < r as real + 1.0
    ensures x == 0.0 ==> r == 0
    ensures x == 1.0 ==> r == 255
  {
    (x * 255.0 + 0.5).Floor
  }

  /** Alpha one half quantises to 128 (127.5 rounds up). */
  lemma HalfAlphaIs128()
    ensures Byte01(0.5) == 128
  {
  }
}
