/**
 * The cursor-based scanner of include/vibrant.h: a parser state
 * (`vbt__parser_t`) whose position `sp` advances over the text up to `end`,
 * with the primitives `vbt__consume_whitespace`, `vbt__consume_if`,
 * `vbt__parse_number`, `vbt__consume_css_value` and
 * `vbt__consume_delimiter`.
 *
 * Each primitive is a method on `Cursor` that moves `sp` as the C code does,
 * and is proved equal to a function on the text (`SkipBlanks`, `HasAt`,
 * `ScanNumber`, `ScanValue`, `Delimit`) about which the properties are
 * stated.
 */
module Scanner {
  import opened Text

  /** VBT__NUMBER_MAX: the largest magnitude the scanner accepts (2^24). */
  const NumberMax: nat := 16777216

  /** VBT__NUMBER_DECIMAL_LIMIT: at most this many digits after the point. */
  const DecimalLimit: nat := 9

  /** The outcome of `vbt__parse_number` starting at some position. */
  datatype NumberScan = NoNumber | Scanned(value: real, next: nat)

  /** `vbt__css_unit_t`; `Unset` is the state before a value is stored. */
  datatype Unit = Unset | Percent | Number

  /** `vbt__css_value_t`: a number and the unit written after it. */
  datatype CssValue = CssValue(value: real, unit: Unit)

  /** The outcome of `vbt__consume_css_value`. */
  datatype ValueScan = NoValue | Value(css: CssValue, next: nat)

  /**
   * The separator convention of one function call: not yet decided, commas,
   * or whitespace. This is the C pair (`is_comma_mode_set`, `is_comma_mode`).
   */
  datatype Delimiter = Undecided | Comma | Blank

  /** The outcome of `vbt__consume_delimiter`: success, new position, new mode. */
  datatype DelimStep = DelimStep(ok: bool, next: nat, mode: Delimiter)

  // ---------------------------------------------------------------------
  // Specification of the number scanner

  /** Past an optional leading '-' or '+'. */
  function SignEnd(s: string, i: nat): (j: nat)
    requires i <= |s|
    ensures i <= j <= |s|
  {
    if i < |s| && (s[i] == '-' || s[i] == '+') then i + 1 else i
  }

  /** `mag` with the sign written at `i`: `res * sign`. */
  function Signed(s: string, i: nat, mag: real): real
    requires i <= |s|
  {
    if i < |s| && s[i] == '-' then -mag else mag
  }

  /**
   * The magnitude of an integer part `iv` and fraction digits `frac`: the
   * fraction is added only while the integer part is below NumberMax.
   */
  function Magnitude(iv: nat, frac: string): (m: real)
    requires AllDigits(frac) && iv <= NumberMax
    ensures iv as real <= m <= NumberMax as real
    ensures iv < NumberMax ==> m < NumberMax as real
    ensures iv == NumberMax ==> m == NumberMax as real
  {
    FracValueBelowOne(frac);
    if iv < NumberMax then iv as real + FracValue(frac) else iv as real
  }

  /**
   * vbt__parse_number on the text from `i`: an optional sign, a run of
   * digits and, after a '.', a run of at most DecimalLimit fraction digits.
   * It fails when the integer part exceeds NumberMax, when the fraction has
   * too many digits, or when not even a sign or a point was consumed. A
   * lone sign or point is a number with value zero.
   */
  function ScanNumber(s: string, i: nat): (r: NumberScan)
    requires i <= |s|
    ensures r.Scanned? ==> i < r.next <= |s|
    ensures r.Scanned? ==> -(NumberMax as real) <= r.value <= NumberMax as real
  {
    var b := IntegerEnd(s, i);
    var iv := IntegerValue(s, i);
    if iv > NumberMax then NoNumber
    else if b < |s| && s[b] == '.' then
      var e := DigitsEnd(s, b + 1);
      if e - (b + 1) > DecimalLimit then NoNumber
      else Scanned(Signed(s, i, Magnitude(iv, s[b + 1..e])), e)
    else if b == i then NoNumber
    else Scanned(Signed(s, i, iv as real), b)
  }

  /** A number with a point: the fraction digits end the scan. */
  lemma ScanNumberPoint(s: string, i: nat, m: real, e: nat)
    requires i <= |s| && IntegerValue(s, i) <= NumberMax
    requires IntegerEnd(s, i) < |s| && s[IntegerEnd(s, i)] == '.'
    requires e == DigitsEnd(s, IntegerEnd(s, i) + 1) && e - (IntegerEnd(s, i) + 1) <= DecimalLimit
    requires m == Magnitude(IntegerValue(s, i), s[IntegerEnd(s, i) + 1..e])
    ensures ScanNumber(s, i) == Scanned(Signed(s, i, m), e)
  {
  }

  /** Where the sign and the integer digits scanned from `i` end. */
  function IntegerEnd(s: string, i: nat): (b: nat)
    requires i <= |s|
    ensures SignEnd(s, i) <= b <= |s|
  {
    DigitsEnd(s, SignEnd(s, i))
  }

  /** The value of the integer digits scanned from `i`. */
  function IntegerValue(s: string, i: nat): nat
    requires i <= |s|
  {
    IntValue(s[SignEnd(s, i)..IntegerEnd(s, i)])
  }

  /**
   * vbt__consume_css_value: a number, then a '%' that makes it a
   * percentage; a number without '%' is a plain number.
   */
  function ScanValue(s: string, i: nat): (r: ValueScan)
    requires i <= |s|
    ensures r.Value? <==> ScanNumber(s, i).Scanned?
    ensures r.Value? ==> r.css.unit != Unset && r.css.value == ScanNumber(s, i).value
    ensures r.Value? ==> (r.css.unit == Percent <==> HasAt(s, ScanNumber(s, i).next, "%"))
    ensures r.Value? ==> r.next == ScanNumber(s, i).next + (if r.css.unit == Percent then 1 else 0)
  {
    match ScanNumber(s, i)
    case NoNumber => NoValue
    case Scanned(v, j) =>
      if HasAt(s, j, "%") then Value(CssValue(v, Percent), j + 1) else Value(CssValue(v, Number), j)
  }

  /**
   * vbt__consume_delimiter from `i` in `mode`: skip blanks; the first
   * delimiter of a call decides the mode (a comma, or else whitespace), and
   * from then on the mode is locked: comma mode needs a ',' after the
   * blanks and whitespace mode needs at least one blank.
   */
  function Delimit(s: string, i: nat, mode: Delimiter): (r: DelimStep)
    requires i <= |s|
    ensures i <= r.next <= |s|
    ensures mode != Undecided ==> r.mode == mode
    ensures mode == Undecided ==> (r.mode == Comma <==> HasAt(s, SkipBlanks(s, i), ","))
    ensures r.mode != Undecided
    ensures r.ok && r.mode == Comma ==> r.next > 0 && s[r.next - 1] == ','
    ensures r.mode == Comma ==> (r.ok <==> HasAt(s, SkipBlanks(s, i), ","))
    ensures r.mode == Blank ==> (r.ok <==> i < |s| && IsBlank(s[i]))
  {
    var j := SkipBlanks(s, i);
    match mode
    case Undecided =>
      if HasAt(s, j, ",") then DelimStep(true, j + 1, Comma) else DelimStep(j > i, j, Blank)
    case Comma =>
      if HasAt(s, j, ",") then DelimStep(true, j + 1, Comma) else DelimStep(false, j, Comma)
    case Blank =>
      DelimStep(j > i, j, Blank)
  }

  // ---------------------------------------------------------------------
  // The parser state

  /** `vbt__parser_t`: the text (`[value, end)`) and the current position. */
  class Cursor {
    const text: string
    var sp: nat

    ghost predicate Valid()
      reads this
    {
      sp <= |text|
    }

    constructor (text: string)
      ensures this.text == text && sp == 0 && Valid()
    {
      this.text := text;
      sp := 0;
    }

    /** vbt__consume_whitespace: skip spaces and tabs, returning how many. */
    method ConsumeWhitespace() returns (count: nat)
      requires Valid()
      modifies this
      ensures Valid() && sp == SkipBlanks(text, old(sp))
      ensures count == sp - old(sp)
    {
      count := 0;
      while sp < |text| && IsBlank(text[sp])
        invariant old(sp) <= sp <= |text|
        invariant SkipBlanks(text, sp) == SkipBlanks(text, old(sp))
        invariant count == sp - old(sp)
        decreases |text| - sp
      {
        sp := sp + 1;
        count := count + 1;
      }
    }

    /** vbt__consume_if: step over `lit` if it comes next, else stay put. */
    method ConsumeIf(lit: string) returns (ok: bool)
      requires Valid()
      modifies this
      ensures Valid() && ok == HasAt(text, old(sp), lit)
      ensures sp == if ok then old(sp) + |lit| else old(sp)
    {
      for i := 0 to |lit|
        invariant sp == old(sp)
        invariant sp + i <= |text| && text[sp..sp + i] == lit[..i]
      {
        if sp + i >= |text| || text[sp + i] != lit[i] {
          assert !HasAt(text, sp, lit) by {
            if sp + |lit| <= |text| {
              assert text[sp..sp + |lit|][i] == text[sp + i];
            }
          }
          return false;
        }
        assert text[sp..sp + i + 1] == text[sp..sp + i] + [text[sp + i]];
        assert lit[..i + 1] == lit[..i] + [lit[i]];
      }
      assert lit[..|lit|] == lit;
      sp := sp + |lit|;
      return true;
    }

    /**
     * vbt__parse_number: on success `sp` moves past exactly what was
     * scanned and `value` is the scanned number; on failure `sp` stays where
     * it was.
     */
    method ParseNumber() returns (ok: bool, value: real)
      requires Valid()
      modifies this
      ensures Valid()
      ensures ok <==> ScanNumber(text, old(sp)).Scanned?
      ensures ok ==> sp == ScanNumber(text, old(sp)).next && value == ScanNumber(text, old(sp)).value
      ensures !ok ==> sp == old(sp)
    {
      var p := sp;
      var negative := false;
      if p < |text| {
        if text[p] == '-' {
          negative := true;
          p := p + 1;
        } else if text[p] == '+' {
          p := p + 1;
        }
      }
      ghost var a := p;
      assert a == SignEnd(text, sp);
      var intOk, res, q := IntegerPart(p);
      if !intOk {
        return false, 0.0;
      }
      assert IntegerEnd(text, sp) == q && IntegerValue(text, sp) == IntValue(text[a..q]);
      var tailOk, mag, e := NumberTail(sp, q, res);
      if !tailOk {
        return false, 0.0;
      }
      sp := e;
      value := if negative then -mag else mag;
      return true, value;
    }

    /**
     * The rest of vbt__parse_number once the integer digits from `i` have
     * been accumulated into `res0`: the fraction after a point, or the end
     * of the number, which must not be where it began.
     */
    method NumberTail(i: nat, b: nat, res0: real) returns (ok: bool, mag: real, e: nat)
      requires i <= |text| && b == IntegerEnd(text, i)
      requires IntegerValue(text, i) <= NumberMax && res0 == IntegerValue(text, i) as real
      ensures ok <==> ScanNumber(text, i).Scanned?
      ensures ok ==> e == ScanNumber(text, i).next && Signed(text, i, mag) == ScanNumber(text, i).value
    {
      if b < |text| && text[b] == '.' {
        ok, mag, e := FractionPart(b + 1, IntegerValue(text, i), res0);
        if ok {
          ScanNumberPoint(text, i, mag, e);
        }
      } else {
        ok, mag, e := b != i, res0, b;
      }
    }

    /**
     * The integer loop of vbt__parse_number from `a`: accumulate digits
     * while the next step stays within NumberMax, failing as soon as it
     * would not.
     */
    method IntegerPart(a: nat) returns (ok: bool, res: real, p: nat)
      requires a <= |text|
      ensures var b := DigitsEnd(text, a);
        ok <==> IntValue(text[a..b]) <= NumberMax
      ensures ok ==> p == DigitsEnd(text, a) && res == IntValue(text[a..p]) as real
    {
      ghost var b := DigitsEnd(text, a);
      p := a;
      res := 0.0;
      while p < |text| && IsDigit(text[p])
        invariant a <= p <= b
        invariant DigitsEnd(text, p) == b
        invariant AllDigits(text[a..p])
        invariant res == IntValue(text[a..p]) as real
        invariant res <= NumberMax as real
        decreases |text| - p
      {
        var d := DigitValue(text[p]);
        if res > (NumberMax as real - d as real) / 10.0 {
          IntRunTooLarge(text, a, p);
          return false, res, p;
        }
        assert text[a..p + 1][..p - a] == text[a..p];
        res := res * 10.0 + d as real;
        p := p + 1;
      }
      return true, res, p;
    }

    /**
     * The fraction loop of vbt__parse_number from `fs`, just after the
     * point, for an integer part `iv` already accumulated in `res`: at most
     * DecimalLimit digits, each adding `d * f` while the value is below
     * NumberMax.
     */
    method FractionPart(fs: nat, ghost iv: nat, res0: real) returns (ok: bool, res: real, p: nat)
      requires fs <= |text| && iv <= NumberMax && res0 == iv as real
      ensures ok <==> DigitsEnd(text, fs) - fs <= DecimalLimit
      ensures ok ==> p == DigitsEnd(text, fs) && res == Magnitude(iv, text[fs..p])
    {
      ghost var e := DigitsEnd(text, fs);
      p := fs;
      res := res0;
      var f := 0.1;
      var n := 0;
      assert text[fs..p] == [];
      while p < |text| && IsDigit(text[p])
        invariant fs <= p <= e && DigitsEnd(text, p) == e
        invariant n == p - fs && n <= DecimalLimit
        invariant FractionLoop(text, fs, p, iv, res, f)
        decreases |text| - p
      {
        if n >= DecimalLimit {
          return false, res, p;
        }
        var d := DigitValue(text[p]) as real;
        FractionStep(text, fs, p, iv, res, f, d);
        if res < NumberMax as real && f > 0.0 {
          var val := d * f;
          // The overflow guard of the C code (`res > NUMBER_MAX - val`) never
          // fires with exact arithmetic: the fraction keeps an integer part
          // below NumberMax from passing it.
          assert res <= NumberMax as real - val;
          res := res + val;
          f := f * 0.1;
        }
        n := n + 1;
        p := p + 1;
      }
      return true, res, p;
    }

    /** vbt__consume_css_value: a number and an optional '%'. */
    method ConsumeCssValue() returns (ok: bool, css: CssValue)
      requires Valid()
      modifies this
      ensures Valid()
      ensures ok <==> ScanValue(text, old(sp)).Value?
      ensures ok ==> css == ScanValue(text, old(sp)).css && sp == ScanValue(text, old(sp)).next
      ensures !ok ==> sp == old(sp)
    {
      var scanned, value := ParseNumber();
      if !scanned {
        return false, CssValue(0.0, Unset);
      }
      var percent := ConsumeIf("%");
      css := CssValue(value, if percent then Percent else Number);
      return true, css;
    }

    /**
     * vbt__consume_delimiter: `mode` carries both C flags in; the new mode
     * comes back out.
     */
    method ConsumeDelimiter(mode: Delimiter) returns (ok: bool, newMode: Delimiter)
      requires Valid()
      modifies this
      ensures Valid()
      ensures DelimStep(ok, sp, newMode) == Delimit(text, old(sp), mode)
    {
      var spaceCount := ConsumeWhitespace();
      if mode == Undecided {
        var comma := ConsumeIf(",");
        if comma {
          return true, Comma;
        }
        return spaceCount > 0, Blank;
      }
      if mode == Comma {
        ok := ConsumeIf(",");
        return ok, Comma;
      }
      return spaceCount > 0, Blank;
    }
  }

  /**
   * The state of the fraction loop after the digits `s[fs..p]`: `res` is
   * their magnitude and, while the integer part is below NumberMax, `f` is
   * the weight of the next digit.
   */
  ghost predicate FractionLoop(s: string, fs: nat, p: nat, iv: nat, res: real, f: real)
  {
    && fs <= p <= |s| && iv <= NumberMax && AllDigits(s[fs..p])
    && res == Magnitude(iv, s[fs..p])
    && (iv < NumberMax ==> f == Tenth(p - fs + 1))
  }

  /**
   * One pass of the fraction loop: the C guard `res < NUMBER_MAX && f > 0`
   * holds exactly while the integer part is below NumberMax; then adding
   * `d * f` stays within NumberMax and gives the magnitude with one more
   * digit, and otherwise the saturated value already is that magnitude.
   */
  lemma FractionStep(s: string, fs: nat, p: nat, iv: nat, res: real, f: real, d: real)
    requires FractionLoop(s, fs, p, iv, res, f) && p < |s| && IsDigit(s[p])
    requires d == DigitValue(s[p]) as real
    ensures res < NumberMax as real && f > 0.0 ==>
      res <= NumberMax as real - d * f && FractionLoop(s, fs, p + 1, iv, res + d * f, f * 0.1)
    ensures !(res < NumberMax as real && f > 0.0) ==> FractionLoop(s, fs, p + 1, iv, res, f)
  {
    assert s[fs..p + 1] == s[fs..p] + [s[p]];
    MagnitudeStep(iv, s[fs..p], s[p]);
  }

  /** One more fraction digit adds its weighted value, unless the integer part is saturated. */
  lemma MagnitudeStep(iv: nat, prefix: string, c: char)
    requires AllDigits(prefix) && IsDigit(c) && iv <= NumberMax
    ensures AllDigits(prefix + [c])
    ensures iv < NumberMax ==>
      Magnitude(iv, prefix) < NumberMax as real &&
      Magnitude(iv, prefix + [c]) == Magnitude(iv, prefix) + DigitValue(c) as real * Tenth(|prefix| + 1)
    ensures iv < NumberMax ==> Magnitude(iv, prefix + [c]) <= NumberMax as real
    ensures iv == NumberMax ==> Magnitude(iv, prefix + [c]) == Magnitude(iv, prefix) == NumberMax as real
  {
    FracValueSnoc(prefix, c);
    FracValueBelowOne(prefix);
    FracValueBelowOne(prefix + [c]);
  }

  /**
   * When the accumulated integer part cannot take the next digit, the value
   * of the whole digit run is above NumberMax.
   */
  lemma IntRunTooLarge(s: string, a: nat, p: nat)
    requires a <= |s| && a <= p < DigitsEnd(s, a)
    requires AllDigits(s[a..p])
    requires IntValue(s[a..p]) as real > (NumberMax as real - DigitValue(s[p]) as real) / 10.0
    ensures IntValue(s[a..DigitsEnd(s, a)]) > NumberMax
  {
    var b := DigitsEnd(s, a);
    var run := s[a..b];
    assert run[..p + 1 - a] == s[a..p + 1];
    assert s[a..p + 1][..p - a] == s[a..p];
    IntValuePrefix(run, p + 1 - a);
  }

  // ---------------------------------------------------------------------
  // Properties of the number scanner

  /**
   * A digit string followed by anything but a digit or a point scans as its
   * integer value when that is at most NumberMax, and fails otherwise.
   */
  lemma ScanInteger(ds: string, rest: string)
    requires |ds| > 0 && AllDigits(ds)
    requires rest == [] || (!IsDigit(rest[0]) && rest[0] != '.')
    ensures IntValue(ds) <= NumberMax ==> ScanNumber(ds + rest, 0) == Scanned(IntValue(ds) as real, |ds|)
    ensures IntValue(ds) > NumberMax ==> ScanNumber(ds + rest, 0) == NoNumber
  {
    var s := ds + rest;
    assert IsDigit(s[0]);
    DigitsEndOfRun(s, 0, |ds|);
    assert s[0..|ds|] == ds;
  }

  /**
   * Inside a text: a run of digits at `i` followed by anything but a digit,
   * a point or '%' is the plain number of that run, up to NumberMax.
   */
  lemma ScanDigitsAt(s: string, i: nat, ds: string)
    requires HasAt(s, i, ds) && |ds| > 0 && AllDigits(ds) && IntValue(ds) <= NumberMax
    requires var e := i + |ds|; e == |s| || (!IsDigit(s[e]) && s[e] != '.' && s[e] != '%')
    ensures ScanValue(s, i) == Value(CssValue(IntValue(ds) as real, Number), i + |ds|)
  {
    DigitRunAt(s, i, ds);
    var e := i + |ds|;
    assert e == |s| || s[e] != '.';
    IntegerScan(s, i, e, IntValue(ds));
    HasAtChar(s, e, '%');
    PlainNumber(s, i, IntValue(ds) as real, e);
  }

  /** An unsigned integer part not followed by a point is the number scanned. */
  lemma IntegerScan(s: string, i: nat, b: nat, v: nat)
    requires i < b <= |s| && IntegerEnd(s, i) == b && IntegerValue(s, i) == v <= NumberMax
    requires s[i] != '-' && (b == |s| || s[b] != '.')
    ensures ScanNumber(s, i) == Scanned(v as real, b)
  {
  }

  /** A number without a '%' after it is a plain number. */
  lemma PlainNumber(s: string, i: nat, v: real, j: nat)
    requires i <= |s| && ScanNumber(s, i) == Scanned(v, j) && !HasAt(s, j, "%")
    ensures ScanValue(s, i) == Value(CssValue(v, Number), j)
  {
  }

  /** The sign-less integer part of a digit run at `i`. */
  lemma DigitRunAt(s: string, i: nat, ds: string)
    requires HasAt(s, i, ds) && |ds| > 0 && AllDigits(ds)
    requires var e := i + |ds|; e == |s| || !IsDigit(s[e])
    ensures SignEnd(s, i) == i && IntegerEnd(s, i) == i + |ds| && IntegerValue(s, i) == IntValue(ds)
    ensures s[i] != '-'
  {
    assert s[i] == ds[0];
    DigitsEndOfSlice(s, i, ds);
  }

  /**
   * Printing a natural number and scanning it back gives the number, up to
   * NumberMax; above NumberMax the scan fails.
   */
  lemma IntegerRoundTrip(n: nat, rest: string)
    requires rest == [] || (!IsDigit(rest[0]) && rest[0] != '.')
    ensures n <= NumberMax ==> ScanNumber(NatDigits(n) + rest, 0) == Scanned(n as real, |NatDigits(n)|)
    ensures n > NumberMax ==> ScanNumber(NatDigits(n) + rest, 0) == NoNumber
  {
    NatDigitsRoundTrip(n);
    ScanInteger(NatDigits(n), rest);
  }

  /** The integer part 16777216 is accepted; 16777217 already fails. */
  lemma NumberMaxIsTheBound()
    ensures ScanNumber("16777216", 0) == Scanned(16777216.0, 8)
    ensures ScanNumber("16777217", 0) == NoNumber
  {
    NumberMaxDigits();
    ScanInteger("16777216", []);
    ScanInteger("16777217", []);
    assert "16777216" + [] == "16777216" && "16777217" + [] == "16777217";
  }

  /** The decimal spellings of NumberMax and of the next integer. */
  lemma NumberMaxDigits()
    ensures IntValue("16777216") == NumberMax
    ensures IntValue("16777217") == NumberMax + 1
  {
    assert IntValue("1") == 1 by {
      assert "1"[..0] == [];
    }
    IntValueSnoc("1", '6');
    assert "1" + ['6'] == "16";
    IntValueSnoc("16", '7');
    assert "16" + ['7'] == "167";
    IntValueSnoc("167", '7');
    assert "167" + ['7'] == "1677";
    IntValueSnoc("1677", '7');
    assert "1677" + ['7'] == "16777";
    IntValueSnoc("16777", '2');
    assert "16777" + ['2'] == "167772";
    IntValueSnoc("167772", '1');
    assert "167772" + ['1'] == "1677721";
    IntValueSnoc("1677721", '6');
    assert "1677721" + ['6'] == "16777216";
    IntValueSnoc("1677721", '7');
    assert "1677721" + ['7'] == "16777217";
  }

  /**
   * A number with a point: digits `ds`, the point, fraction digits `fr`
   * and then anything but a digit. It fails when the fraction has more than
   * DecimalLimit digits, and otherwise scans as the magnitude of the two
   * parts, ending right after the fraction.
   */
  lemma ScanDecimal(ds: string, fr: string, rest: string)
    requires AllDigits(ds) && AllDigits(fr) && IntValue(ds) <= NumberMax
    requires rest == [] || !IsDigit(rest[0])
    ensures |fr| > DecimalLimit ==> ScanNumber(ds + "." + fr + rest, 0) == NoNumber
    ensures |fr| <= DecimalLimit ==>
      ScanNumber(ds + "." + fr + rest, 0) == Scanned(Magnitude(IntValue(ds), fr), |ds| + 1 + |fr|)
  {
    var s := ds + "." + fr + rest;
    DecimalLayout(ds, fr, rest);
    ScanPointAt(s, ds, fr);
  }

  /** Where the parts of `ds + "." + fr + rest` lie, as the scanner finds them. */
  lemma DecimalLayout(ds: string, fr: string, rest: string)
    requires AllDigits(ds) && AllDigits(fr)
    requires rest == [] || !IsDigit(rest[0])
    ensures var s := ds + "." + fr + rest;
      && |ds| < |s| && s[|ds|] == '.' && SignEnd(s, 0) == 0
      && DigitsEnd(s, 0) == |ds| && DigitsEnd(s, |ds| + 1) == |ds| + 1 + |fr|
      && s[0..|ds|] == ds && s[|ds| + 1..|ds| + 1 + |fr|] == fr
  {
    var b := |ds|;
    var t := ds + "." + fr;
    var s := t + rest;
    assert s[..|t|] == t;
    assert s[0..b] == t[0..b] == ds;
    assert s[b] == t[b] == '.';
    assert s[b + 1..|t|] == t[b + 1..] == fr;
    assert |t| < |s| ==> s[|t|] == rest[0];
    assert SignEnd(s, 0) == 0 by {
      if b > 0 {
        assert s[0] == ds[0];
      }
    }
    DigitsEndOfSlice(s, 0, ds);
    DigitsEndOfSlice(s, b + 1, fr);
  }

  /**
   * The scan from the start of `s` when the digits before the point at `b`
   * are unsigned and the fraction digits end at `e`.
   */
  lemma ScanPointAt(s: string, ds: string, fr: string)
    requires |ds| < |s| && s[|ds|] == '.' && SignEnd(s, 0) == 0
    requires DigitsEnd(s, 0) == |ds| && DigitsEnd(s, |ds| + 1) == |ds| + 1 + |fr|
    requires s[0..|ds|] == ds && s[|ds| + 1..|ds| + 1 + |fr|] == fr
    requires AllDigits(ds) && AllDigits(fr) && IntValue(ds) <= NumberMax
    ensures |fr| > DecimalLimit ==> ScanNumber(s, 0) == NoNumber
    ensures |fr| <= DecimalLimit ==> ScanNumber(s, 0) == Scanned(Magnitude(IntValue(ds), fr), |ds| + 1 + |fr|)
  {
    assert IntegerEnd(s, 0) == |ds|;
    assert IntegerValue(s, 0) == IntValue(ds);
  }

  /**
   * Exactly DecimalLimit fraction digits are accepted; one more makes the
   * whole number fail.
   */
  lemma TenthFractionDigitFails(fr: string, d: char)
    requires AllDigits(fr) && |fr| == DecimalLimit && IsDigit(d)
    ensures ScanNumber("0." + fr, 0).Scanned?
    ensures ScanNumber("0." + fr + [d], 0) == NoNumber
  {
    assert IntValue("0") == 0 by {
      assert "0"[..0] == [];
    }
    ScanDecimal("0", fr, []);
    assert "0" + "." + fr + [] == "0." + fr;
    ScanDecimal("0", fr + [d], []);
    assert "0" + "." + (fr + [d]) + [] == "0." + fr + [d];
  }

  /**
   * Once the integer part has reached NumberMax, fraction digits are still
   * consumed but add nothing.
   */
  lemma SaturatedIgnoresFraction(fr: string, rest: string)
    requires AllDigits(fr) && |fr| <= DecimalLimit
    requires rest == [] || !IsDigit(rest[0])
    ensures ScanNumber(NatDigits(NumberMax) + "." + fr + rest, 0)
         == Scanned(NumberMax as real, |NatDigits(NumberMax)| + 1 + |fr|)
  {
    NatDigitsRoundTrip(NumberMax);
    ScanDecimal(NatDigits(NumberMax), fr, rest);
  }

  /** A lone sign or point is a number: zero, one character long. */
  lemma LoneSignOrPoint()
    ensures ScanNumber("+", 0) == Scanned(0.0, 1)
    ensures ScanNumber("-", 0) == Scanned(0.0, 1)
    ensures ScanNumber(".", 0) == Scanned(0.0, 1)
  {
    assert "+"[1..1] == [];
    assert "-"[1..1] == [];
    assert "."[0..0] == [];
    assert "."[1..1] == [];
    assert HasAt(".", 0, ".") by {
      assert "."[0..1] == ".";
    }
  }

  /** A character that `vbt__parse_number` can consume first. */
  predicate StartsNumber(c: char)
  {
    IsDigit(c) || c == '+' || c == '-' || c == '.'
  }

  /** With no sign, digit or point next, the scan fails without consuming anything. */
  lemma NothingToScan(s: string, i: nat)
    requires i <= |s| && !(i < |s| && StartsNumber(s[i]))
    ensures ScanNumber(s, i) == NoNumber
  {
    assert SignEnd(s, i) == i;
    assert DigitsEnd(s, i) == i;
  }

  /**
   * When a sign, digit or point comes next, the only failures are an
   * integer part above NumberMax and a fraction that is too long.
   */
  lemma ScanFailureReasons(s: string, i: nat)
    requires i < |s| && StartsNumber(s[i]) && ScanNumber(s, i).NoNumber?
    ensures || IntegerValue(s, i) > NumberMax
            || (var b := IntegerEnd(s, i); b < |s| && s[b] == '.' && DigitsEnd(s, b + 1) - (b + 1) > DecimalLimit)
  {
    assert IntegerEnd(s, i) > i || s[i] == '.';
  }
}
