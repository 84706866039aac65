/**
 * `vbt__parse_hex` and `vbt__hex_char_to_int` of include/vibrant.h: the
 * `#rgb`, `#rgba`, `#rrggbb` and `#rrggbbaa` notations. The text includes
 * the leading '#', which the dispatcher has already seen and which is not
 * looked at again here.
 *
 * `HexColor` specifies the colour a text denotes; the method `ParseHex`
 * fills a four-element component array in a loop as the C code does and is
 * proved to deliver `HexColor`.
 */
module Hex {
  import opened Color
  import opened Text
  import opened Receivers
  import Conversion

  /** A hexadecimal digit in either case. */
  predicate IsHexDigit(c: char)
  {
    ('0' <= c <= '9') || ('a' <= c <= 'f') || ('A' <= c <= 'F')
  }

  /**
   * vbt__hex_char_to_int: the value of a hexadecimal digit of either case,
   * or None for any other character.
   */
  function HexValue(c: char): (r: Option<nat>)
    ensures r.Some? <==> IsHexDigit(c)
    ensures r.Some? ==> r.value < 16
  {
    if '0' <= c <= '9' then Some(c as int - '0' as int)
    else if 'a' <= c <= 'f' then Some(c as int - 'a' as int + 10)
    else if 'A' <= c <= 'F' then Some(c as int - 'A' as int + 10)
    else None
  }

  /** The small-letter digit for a nibble. */
  function HexChar(v: nat): (c: char)
    requires v < 16
  {
    if v < 10 then ('0' as int + v) as char else ('a' as int + v - 10) as char
  }

  /** Every nibble is spelt by a digit that reads back as that nibble. */
  lemma HexCharRoundTrip(v: nat)
    requires v < 16
    ensures HexValue(HexChar(v)) == Some(v)
  {
  }

  /** A digit reads the same in either case. */
  lemma HexValueIgnoresCase(c: char)
    ensures HexValue(ToLowerChar(c)) == HexValue(c)
  {
  }

  /** The value of a character known to be a hexadecimal digit. */
  function Nibble(c: char): (v: nat)
    requires IsHexDigit(c)
    ensures v < 16
  {
    HexValue(c).value
  }

  /**
   * `(hi << 4) | lo` for two nibbles: the high nibble shifted into bits 4..7
   * and the low one in bits 0..3 do not overlap, so the byte is `16 * hi + lo`
   * (ShiftOrIsPack states this on 8-bit vectors).
   */
  function Pack(hi: nat, lo: nat): (r: Byte)
    requires hi < 16 && lo < 16
  {
    16 * hi + lo
  }

  /** Shifting a nibble up by four and or-ing in another one adds them as 16 * hi + lo. */
  lemma ShiftOrIsPack(hi: bv8, lo: bv8)
    requires hi < 16 && lo < 16
    ensures (hi << 4) | lo == hi * 16 + lo
  {
  }

  /** The lengths the notations have, '#' included. */
  predicate HexLength(n: nat)
  {
    n == 4 || n == 5 || n == 7 || n == 9
  }

  /** The short notations: one digit per channel. */
  predicate IsShort(n: nat)
  {
    n == 4 || n == 5
  }

  /** Every character after the '#' is a hexadecimal digit. */
  predicate HexDigits(s: string)
  {
    forall i :: 1 <= i < |s| ==> IsHexDigit(s[i])
  }

  /** How many channels a notation of length `n` spells: three, or four with alpha. */
  function ChannelCount(n: nat): nat
    requires HexLength(n)
  {
    if IsShort(n) then n - 1 else (n - 1) / 2
  }

  /**
   * Channel `k`: in the short notations the digit at `k + 1` doubled into
   * both nibbles, otherwise the digit pair starting at `2k + 1`.
   */
  function Channel(s: string, k: nat): Byte
    requires HexLength(|s|) && HexDigits(s) && k < ChannelCount(|s|)
  {
    if IsShort(|s|) then Pack(Nibble(s[k + 1]), Nibble(s[k + 1]))
    else Pack(Nibble(s[2 * k + 1]), Nibble(s[2 * k + 2]))
  }

  /**
   * The colour a hex notation denotes: None unless the text has one of the
   * four lengths and only hexadecimal digits after the '#'; alpha is 255
   * when the notation spells only three channels.
   */
  function HexColor(s: string): (r: Option<Rgba8>)
    ensures r.Some? <==> HexLength(|s|) && HexDigits(s)
    ensures r.Some? && (|s| == 4 || |s| == 7) ==> r.value.a == 255
  {
    if !(HexLength(|s|) && HexDigits(s)) then None
    else
      var a := if ChannelCount(|s|) == 4 then Channel(s, 3) else 255;
      Some(Rgba8(Channel(s, 0), Channel(s, 1), Channel(s, 2), a))
  }

  /**
   * vbt__parse_hex: the short notations fill one component per digit, the
   * long ones one per digit pair; any other length, or any character that
   * is not a hexadecimal digit, is an error that leaves the receiver alone.
   */
  method ParseHex(value: string, recv: Receiver) returns (status: Status)
    modifies Conversion.Footprint(recv)
    ensures status == Success || status == Err
    ensures status == Success <==> HexColor(value).Some?
    ensures status == Success ==> recv.Shows(HexColor(value).value) && recv.KeptLayout()
    ensures status == Err ==> unchanged(old(Conversion.Footprint(recv)))
  {
    var len := |value|;
    var components := new Byte[4];
    var index := 0;
    var ok;
    if len == 4 || len == 5 {
      ok, index := ShortComponents(value, components);
    } else if len == 7 || len == 9 {
      ok, index := LongComponents(value, components);
    } else {
      return Err;
    }
    if !ok {
      return Err;
    }
    status := recv.WriteU8(components[0], components[1], components[2], if index == 4 then components[3] else 255);
  }

  /** The loop of the short notations: one doubled digit per component. */
  method ShortComponents(value: string, components: array<Byte>) returns (ok: bool, index: nat)
    requires IsShort(|value|) && components.Length == 4
    modifies components
    ensures ok <==> HexDigits(value)
    ensures ok ==> index == ChannelCount(|value|)
    ensures ok ==> forall k :: 0 <= k < index ==> components[k] == Channel(value, k)
  {
    var len := |value|;
    index := 0;
    var i := 1;
    while i < len
      invariant 1 <= i <= len && index == i - 1
      invariant forall k :: 1 <= k < i ==> IsHexDigit(value[k])
      invariant forall k :: 0 <= k < index ==> components[k] == Pack(Nibble(value[k + 1]), Nibble(value[k + 1]))
    {
      var c := HexValue(value[i]);
      if c.None? {
        return false, index;
      }
      components[index] := Pack(c.value, c.value);
      index := index + 1;
      i := i + 1;
    }
    return true, index;
  }

  /** The loop of the long notations: one digit pair per component. */
  method LongComponents(value: string, components: array<Byte>) returns (ok: bool, index: nat)
    requires HexLength(|value|) && !IsShort(|value|) && components.Length == 4
    modifies components
    ensures ok <==> HexDigits(value)
    ensures ok ==> index == ChannelCount(|value|)
    ensures ok ==> forall k :: 0 <= k < index ==> components[k] == Channel(value, k)
  {
    var len := |value|;
    index := 0;
    var i := 1;
    while i < len
      invariant 1 <= i <= len && i % 2 == 1 && index == (i - 1) / 2
      invariant forall k :: 1 <= k < i ==> IsHexDigit(value[k])
      invariant forall k :: 0 <= k < index ==> components[k] == Pack(Nibble(value[2 * k + 1]), Nibble(value[2 * k + 2]))
    {
      var a := HexValue(value[i]);
      if a.None? {
        return false, index;
      }
      var b := HexValue(value[i + 1]);
      if b.None? {
        return false, index;
      }
      components[index] := Pack(a.value, b.value);
      index := index + 1;
      i := i + 2;
    }
    return true, index;
  }

  // ---------------------------------------------------------------------
  // Properties

  /**
   * The short notation means the long one with every digit doubled:
   * `#2ae` is `#22aaee`, and `#2ae8` is `#22aaee88`.
   */
  lemma ShortMeansDoubled(r: char, g: char, b: char, a: char)
    requires IsHexDigit(r) && IsHexDigit(g) && IsHexDigit(b) && IsHexDigit(a)
    ensures HexColor(['#', r, g, b]) == HexColor(['#', r, r, g, g, b, b])
    ensures HexColor(['#', r, g, b, a]) == HexColor(['#', r, r, g, g, b, b, a, a])
  {
    var s3, l3 := ['#', r, g, b], ['#', r, r, g, g, b, b];
    assert HexDigits(s3) && HexDigits(l3);
    var s4, l4 := ['#', r, g, b, a], ['#', r, r, g, g, b, b, a, a];
    assert HexDigits(s4) && HexDigits(l4);
  }

  /** One concrete case: `#2ae` is the opaque colour (0x22, 0xaa, 0xee). */
  lemma ShortExample()
    ensures HexColor("#2ae") == HexColor("#22aaee") == Some(Rgba8(0x22, 0xaa, 0xee, 255))
  {
    ShortMeansDoubled('2', 'a', 'e', '0');
    ShortExampleValue("#2ae");
  }

  lemma ShortExampleValue(s: string)
    requires s == ['#', '2', 'a', 'e']
    ensures HexColor(s) == Some(Rgba8(0x22, 0xaa, 0xee, 255))
  {
    assert Nibble(s[1]) == 2 && Nibble(s[2]) == 10 && Nibble(s[3]) == 14;
    assert HexDigits(s);
  }

  /** The digits are read without regard to case. */
  lemma HexIgnoresCase(s: string)
    ensures HexColor(ToLower(s)) == HexColor(s)
  {
    var t := ToLower(s);
    forall i | 0 <= i < |s|
      ensures HexValue(t[i]) == HexValue(s[i])
    {
      HexValueIgnoresCase(s[i]);
    }
    assert HexDigits(t) == HexDigits(s);
  }

  /** The eight-digit notation of a colour, small letters. */
  function HexText(c: Rgba8): (s: string)
    ensures |s| == 9
  {
    ['#', HexChar(c.r / 16), HexChar(c.r % 16), HexChar(c.g / 16), HexChar(c.g % 16),
     HexChar(c.b / 16), HexChar(c.b % 16), HexChar(c.a / 16), HexChar(c.a % 16)]
  }

  /** Every colour is spelt by its eight-digit notation, which reads back as that colour. */
  lemma HexRoundTrip(c: Rgba8)
    ensures HexColor(HexText(c)) == Some(c)
  {
    var s := HexText(c);
    HexCharRoundTrip(c.r / 16);
    HexCharRoundTrip(c.r % 16);
    HexCharRoundTrip(c.g / 16);
    HexCharRoundTrip(c.g % 16);
    HexCharRoundTrip(c.b / 16);
    HexCharRoundTrip(c.b % 16);
    HexCharRoundTrip(c.a / 16);
    HexCharRoundTrip(c.a % 16);
    assert HexDigits(s);
  }

  /** Without its last two digits the notation reads as the same colour made opaque. */
  lemma HexOpaqueRoundTrip(c: Rgba8)
    ensures HexColor(HexText(c)[..7]) == Some(c.(a := 255))
  {
    var s := HexText(c)[..7];
    HexCharRoundTrip(c.r / 16);
    HexCharRoundTrip(c.r % 16);
    HexCharRoundTrip(c.g / 16);
    HexCharRoundTrip(c.g % 16);
    HexCharRoundTrip(c.b / 16);
    HexCharRoundTrip(c.b % 16);
    assert HexDigits(s);
  }
}
