/**
 * `vbt__parse_css_function` of include/vibrant.h: the functional colour
 * notations `rgb()`, `hsl()`, `hwb()`, `lch()`, `lab()`, `oklch()` and
 * `oklab()`, each with an optional `a` after the name.
 *
 * The grammar is specified by `FunctionSyntax`, a function of the text, and
 * parsed by the method `ParseFunctionSyntax`, which walks a `Cursor` over
 * the text and fills a four-element argument array as the C code does.
 * `ParseCssFunction` then translates the arguments and delivers the colour
 * to the receiver.
 */
module Functions {
  import opened Color
  import opened Text
  import opened Scanner
  import opened Units
  import opened Receivers
  import Conversion

  /** The shortest text that can be a call, "xxx(0,0,0)". */
  const MinCallLength: nat := 10

  /** `vbt__function_t` */
  datatype FunctionKind = Rgb | Hsl | Hwb | Lch | Lab | Oklch | Oklab

  /** The name each function is spelt with; names are case-sensitive. */
  function Name(kind: FunctionKind): (name: string)
    ensures 3 <= |name| <= 5
  {
    match kind
    case Rgb => "rgb"
    case Hsl => "hsl"
    case Hwb => "hwb"
    case Lch => "lch"
    case Lab => "lab"
    case Oklch => "oklch"
    case Oklab => "oklab"
  }

  /**
   * The function whose name the text starts with, tried in the order of the
   * C cascade (rgb, hsl, hwb, lch, lab, oklch, oklab); None when no name
   * matches.
   */
  function MatchName(s: string): (r: Option<FunctionKind>)
    ensures r.Some? ==> HasAt(s, 0, Name(r.value))
    ensures r.None? <==> forall k: FunctionKind :: !HasAt(s, 0, Name(k))
  {
    if HasAt(s, 0, "rgb") then Some(Rgb)
    else if HasAt(s, 0, "hsl") then Some(Hsl)
    else if HasAt(s, 0, "hwb") then Some(Hwb)
    else if HasAt(s, 0, "lch") then Some(Lch)
    else if HasAt(s, 0, "lab") then Some(Lab)
    else if HasAt(s, 0, "oklch") then Some(Oklch)
    else if HasAt(s, 0, "oklab") then Some(Oklab)
    else None
  }

  /** No two names are prefixes of one text, so the cascade order does not matter. */
  lemma NamesExclusive(s: string, k: FunctionKind)
    requires HasAt(s, 0, Name(k))
    ensures MatchName(s) == Some(k)
  {
    var n := Name(k);
    assert s[0] == n[0] && s[1] == n[1] && s[2] == n[2];
  }

  // ---------------------------------------------------------------------
  // Specification of the grammar

  /** The outcome of parsing a text as a function call. */
  datatype Syntax =
    | NotACall
    | Malformed
    | Call(kind: FunctionKind, args: seq<CssValue>)

  /** The arguments read so far, where reading stopped and the delimiter mode. */
  datatype ArgState = ArgFail | ArgsRead(vals: seq<CssValue>, next: nat, mode: Delimiter)

  /**
   * The first `n` (at most three) arguments from `start`, just past the
   * '(': each is whitespace and a value, and the first two are followed by
   * a delimiter in the mode the first delimiter fixed.
   */
  function ArgsAfter(s: string, start: nat, n: nat): (r: ArgState)
    requires start <= |s| && n <= 3
    ensures r.ArgsRead? ==> |r.vals| == n && start <= r.next <= |s|
    ensures r.ArgsRead? ==> forall j :: 0 <= j < n ==> r.vals[j].unit != Unset
    ensures r.ArgsRead? && 0 < n < 3 ==> r.mode != Undecided
    ensures n == 0 ==> r == ArgsRead([], start, Undecided)
  {
    if n == 0 then ArgsRead([], start, Undecided)
    else
      match ArgsAfter(s, start, n - 1)
      case ArgFail => ArgFail
      case ArgsRead(vals, p, mode) =>
        match ArgAt(s, p, mode, n == 3)
        case ArgFail => ArgFail
        case ArgsRead(one, q, m) => ArgsRead(vals + one, q, m)
  }

  /**
   * One argument from `p`: whitespace and a value, then, unless it is the
   * last of the three, a delimiter in `mode`.
   */
  function ArgAt(s: string, p: nat, mode: Delimiter, last: bool): (r: ArgState)
    requires p <= |s|
    ensures r.ArgsRead? ==> |r.vals| == 1 && p <= r.next <= |s| && r.vals[0].unit != Unset
    ensures r.ArgsRead? && !last ==> r.mode != Undecided
  {
    match ScanValue(s, SkipBlanks(s, p))
    case NoValue => ArgFail
    case Value(v, k) =>
      if last then ArgsRead([v], k, mode)
      else
        var d := Delimit(s, k, mode);
        if d.ok then ArgsRead([v], d.next, d.mode) else ArgFail
  }

  /**
   * The fourth argument after the third value ends at `p`: the `a` variant
   * needs a delimiter in the locked mode and a value; otherwise an optional
   * '/' and a value, with alpha defaulting to the number 1.
   */
  function AlphaArg(s: string, p: nat, mode: Delimiter, alphaVariant: bool): (r: ValueScan)
    requires p <= |s|
    ensures r.Value? ==> p <= r.next <= |s| && r.css.unit != Unset
    ensures !alphaVariant && !HasAt(s, SkipBlanks(s, p), "/") ==>
      r == Value(CssValue(1.0, Number), SkipBlanks(s, p))
  {
    if alphaVariant then
      var d := Delimit(s, p, mode);
      if d.ok then ScanValue(s, SkipBlanks(s, d.next)) else NoValue
    else
      var j := SkipBlanks(s, p);
      if HasAt(s, j, "/") then ScanValue(s, SkipBlanks(s, j + 1))
      else Value(CssValue(1.0, Number), j)
  }

  /** From `p`: whitespace, ')', and nothing but whitespace to the end. */
  predicate Closes(s: string, p: nat)
    requires p <= |s|
  {
    var c := SkipBlanks(s, p);
    HasAt(s, c, ")") && SkipBlanks(s, c + 1) == |s|
  }

  /**
   * The grammar `name ["a"] ws "(" (ws value delim){2} ws value alpha ws ")" ws`
   * over the whole text. Shorter than MinCallLength, or starting with no
   * known name, it is not a function call at all; otherwise any deviation
   * makes it malformed.
   */
  function FunctionSyntax(s: string): (r: Syntax)
    ensures r.NotACall? <==> |s| < MinCallLength || MatchName(s).None?
    ensures r.Call? ==> HasAt(s, 0, Name(r.kind))
    ensures r.Call? ==> |r.args| == 4 && forall j :: 0 <= j < 4 ==> r.args[j].unit != Unset
  {
    if |s| < MinCallLength then NotACall
    else
      match MatchName(s)
      case None => NotACall
      case Some(kind) =>
        var p := |Name(kind)|;
        var alphaVariant := HasAt(s, p, "a");
        CallSyntax(s, kind, alphaVariant, SkipBlanks(s, if alphaVariant then p + 1 else p))
  }

  /** After the name and the optional 'a', from the '(' expected at `open`. */
  function CallSyntax(s: string, kind: FunctionKind, alphaVariant: bool, open: nat): (r: Syntax)
    requires open <= |s|
    ensures r.Call? ==> r.kind == kind && |r.args| == 4 && forall j :: 0 <= j < 4 ==> r.args[j].unit != Unset
    ensures !r.NotACall?
  {
    if !HasAt(s, open, "(") then Malformed
    else
      match ArgsAfter(s, open + 1, 3)
      case ArgFail => Malformed
      case ArgsRead(vals, q, mode) => TailSyntax(s, kind, alphaVariant, vals, q, mode)
  }

  /** After the third value, which ends at `q`: the alpha argument and the close. */
  function TailSyntax(s: string, kind: FunctionKind, alphaVariant: bool, vals: seq<CssValue>, q: nat,
                      mode: Delimiter): (r: Syntax)
    requires q <= |s|
    ensures r.Call? ==> r.kind == kind && |r.args| == |vals| + 1 && r.args[..|vals|] == vals
    ensures r.Call? ==> r.args[|vals|].unit != Unset
    ensures !r.NotACall?
  {
    match AlphaArg(s, q, mode, alphaVariant)
    case NoValue => Malformed
    case Value(alpha, e) => if Closes(s, e) then Call(kind, vals + [alpha]) else Malformed
  }

  // ---------------------------------------------------------------------
  // Properties of the grammar

  /** A single digit followed by neither a digit, a point nor '%' is that plain number. */
  lemma ScanOneDigit(s: string, i: nat)
    requires i + 1 < |s| && IsDigit(s[i])
    requires !IsDigit(s[i + 1]) && s[i + 1] != '.' && s[i + 1] != '%'
    ensures ScanValue(s, i) == Value(CssValue(DigitValue(s[i]) as real, Number), i + 1)
  {
    assert SignEnd(s, i) == i;
    assert DigitsEnd(s, i + 1) == i + 1;
    assert IntegerEnd(s, i) == i + 1;
    var ds := s[i..i + 1];
    assert ds == [s[i]] && ds[..0] == [];
    assert IntValue(ds) == DigitValue(s[i]);
    HasAtChar(s, i + 1, '%');
  }

  /** A text whose first character starts no name is not a call. */
  lemma NoNameAtStart(s: string)
    requires |s| > 0 && s[0] != 'r' && s[0] != 'h' && s[0] != 'l' && s[0] != 'o'
    ensures FunctionSyntax(s) == NotACall
  {
    forall k: FunctionKind ensures !HasAt(s, 0, Name(k)) {
      HasAtHead(s, 0, Name(k));
    }
  }

  /**
   * The delimiter lock in comma mode: when a comma followed the first value,
   * the second value must be followed by a comma too, or the arguments fail.
   */
  lemma {:induction false} CommaLockRejectsBlank(s: string, start: nat, v: CssValue, p: nat, w: CssValue, k: nat)
    requires start <= |s|
    requires ArgsAfter(s, start, 1) == ArgsRead([v], p, Comma)
    requires ScanValue(s, SkipBlanks(s, p)) == Value(w, k)
    requires !HasAt(s, SkipBlanks(s, k), ",")
    ensures ArgsAfter(s, start, 3) == ArgFail
  {
    assert ArgsAfter(s, start, 2) == ArgFail;
    ArgsFailStays(s, start, 2, 3);
  }

  /**
   * The delimiter lock in whitespace mode: when blanks alone separated the
   * first two values, the second value must be followed by a blank too.
   */
  lemma {:induction false} BlankLockRejectsComma(s: string, start: nat, v: CssValue, p: nat, w: CssValue, k: nat)
    requires start <= |s|
    requires ArgsAfter(s, start, 1) == ArgsRead([v], p, Blank)
    requires ScanValue(s, SkipBlanks(s, p)) == Value(w, k)
    requires k == |s| || !IsBlank(s[k])
    ensures ArgsAfter(s, start, 3) == ArgFail
  {
    assert ArgsAfter(s, start, 2) == ArgFail;
    ArgsFailStays(s, start, 2, 3);
  }

  /** The lock at work: commas and blanks cannot be mixed between the values. */
  lemma MixedDelimitersFail()
    ensures FunctionSyntax("rgb(0, 0 0)") == Malformed
  {
    var s := "rgb(0, 0 0)";
    RgbHead(s);
    HasAtChar(s, 3, '(');
    MixedArguments(s);
  }

  /** A text of at least ten characters starting with "rgb(" opens an rgb call at 3. */
  lemma RgbHead(s: string)
    requires |s| >= MinCallLength && s[0] == 'r' && s[1] == 'g' && s[2] == 'b' && s[3] == '('
    ensures FunctionSyntax(s) == CallSyntax(s, Rgb, false, 3)
  {
    assert s[0..3] == "rgb";
    HasAtChar(s, 3, 'a');
    assert SkipBlanks(s, 3) == 3;
  }

  lemma MixedArguments(s: string)
    requires s == "rgb(0, 0 0)"
    ensures ArgsAfter(s, 4, 3) == ArgFail
  {
    MixedArgumentValues(s);
    ArgsExtend(s, 4, 1, [], 4, Undecided, [CssValue(0.0, Number)], 6, Comma);
    ArgsFailStays(s, 4, 2, 3);
  }

  lemma MixedArgumentValues(s: string)
    requires s == "rgb(0, 0 0)"
    ensures ArgAt(s, 4, Undecided, false) == ArgsRead([CssValue(0.0, Number)], 6, Comma)
    ensures ArgAt(s, 6, Comma, false) == ArgFail
  {
    assert SkipBlanks(s, 4) == 4 && SkipBlanks(s, 5) == 5;
    ScanOneDigit(s, 4);
    HasAtChar(s, 5, ',');
    assert SkipBlanks(s, 6) == 7 && SkipBlanks(s, 8) == 9;
    ScanOneDigit(s, 7);
    HasAtChar(s, 9, ',');
  }

  /**
   * Three blank-separated values and no alpha: alpha defaults to the number
   * 1, so "rgb(1 2 3)" is the opaque colour (1, 2, 3, 255).
   */
  lemma DefaultAlpha(math: Conversion.ColorMath)
    ensures FunctionSyntax("rgb(1 2 3)")
         == Call(Rgb, [CssValue(1.0, Number), CssValue(2.0, Number), CssValue(3.0, Number), CssValue(1.0, Number)])
    ensures FunctionColor(math, "rgb(1 2 3)") == Some(Rgba8(1, 2, 3, 255))
  {
    DefaultAlphaSyntax("rgb(1 2 3)");
    ByteNumberIsExact(1);
    ByteNumberIsExact(2);
    ByteNumberIsExact(3);
  }

  lemma DefaultAlphaSyntax(s: string)
    requires s == "rgb(1 2 3)"
    ensures FunctionSyntax(s)
         == Call(Rgb, [CssValue(1.0, Number), CssValue(2.0, Number), CssValue(3.0, Number), CssValue(1.0, Number)])
  {
    var three := [CssValue(1.0, Number), CssValue(2.0, Number), CssValue(3.0, Number)];
    RgbHead(s);
    HasAtChar(s, 3, '(');
    BlankArguments(s);
    assert AlphaArg(s, 9, Blank, false) == Value(CssValue(1.0, Number), 9) by {
      assert SkipBlanks(s, 9) == 9;
      HasAtChar(s, 9, '/');
    }
    assert Closes(s, 9) by {
      assert SkipBlanks(s, 9) == 9;
      HasAtChar(s, 9, ')');
      assert SkipBlanks(s, 10) == 10;
    }
    assert three + [CssValue(1.0, Number)]
        == [CssValue(1.0, Number), CssValue(2.0, Number), CssValue(3.0, Number), CssValue(1.0, Number)];
  }

  lemma BlankArguments(s: string)
    requires s == "rgb(1 2 3)"
    ensures ArgsAfter(s, 4, 3)
         == ArgsRead([CssValue(1.0, Number), CssValue(2.0, Number), CssValue(3.0, Number)], 9, Blank)
  {
    var one, two, three := CssValue(1.0, Number), CssValue(2.0, Number), CssValue(3.0, Number);
    BlankArgumentValues(s);
    ArgsExtend(s, 4, 1, [], 4, Undecided, [one], 6, Blank);
    ArgsExtend(s, 4, 2, [one], 6, Blank, [two], 8, Blank);
    ArgsExtend(s, 4, 3, [one, two], 8, Blank, [three], 9, Blank);
  }

  lemma BlankArgumentValues(s: string)
    requires s == "rgb(1 2 3)"
    ensures ArgAt(s, 4, Undecided, false) == ArgsRead([CssValue(1.0, Number)], 6, Blank)
    ensures ArgAt(s, 6, Blank, false) == ArgsRead([CssValue(2.0, Number)], 8, Blank)
    ensures ArgAt(s, 8, Blank, true) == ArgsRead([CssValue(3.0, Number)], 9, Blank)
  {
    assert SkipBlanks(s, 4) == 4 && SkipBlanks(s, 5) == 6;
    ScanOneDigit(s, 4);
    HasAtChar(s, 6, ',');
    assert SkipBlanks(s, 6) == 6 && SkipBlanks(s, 7) == 8;
    ScanOneDigit(s, 6);
    assert SkipBlanks(s, 8) == 8;
    ScanOneDigit(s, 8);
  }

  /** Function names are case-sensitive: an upper-case name is not a call at all. */
  lemma UpperCaseIsNotACall()
    ensures FunctionSyntax("RGB(0,0,0)") == NotACall
  {
    NoNameAtStart("RGB(0,0,0)");
  }

  /** The call `name(x<sep>y<sep>z)` with three digit strings. */
  function Spelled(kind: FunctionKind, x: string, y: string, z: string, sep: string): string
  {
    Name(kind) + "(" + x + sep + y + sep + z + ")"
  }

  /** The separators ", ", "," and " " between arguments. */
  predicate Separator(sep: string)
  {
    sep == ", " || sep == "," || sep == " "
  }

  /** The delimiter mode a separator locks. */
  function SepMode(sep: string): Delimiter
  {
    if sep == " " then Blank else Comma
  }

  /** A digit string that scans as a plain number. */
  predicate Numeral(ds: string)
  {
    |ds| > 0 && AllDigits(ds) && IntValue(ds) <= NumberMax
  }

  /** The plain number a numeral denotes. */
  function NumeralValue(ds: string): CssValue
    requires Numeral(ds)
  {
    CssValue(IntValue(ds) as real, Number)
  }

  /**
   * Commas and whitespace are interchangeable separators: three numerals
   * separated by ", ", by "," or by blanks give the same call, with alpha
   * defaulting to the number 1, whatever the function name.
   */
  lemma DelimitersAgree(kind: FunctionKind, x: string, y: string, z: string, sep: string)
    requires Numeral(x) && Numeral(y) && Numeral(z) && Separator(sep)
    ensures FunctionSyntax(Spelled(kind, x, y, z, sep))
         == Call(kind, [NumeralValue(x), NumeralValue(y), NumeralValue(z), CssValue(1.0, Number)])
  {
    var s := Spelled(kind, x, y, z, sep);
    SpelledLayout(kind, x, y, z, sep);
    SpelledBody(s, kind, |Name(kind)|, x, y, z, sep);
    assert |s| >= MinCallLength && HasAt(s, |Name(kind)|, "(");
    SpelledHead(s, kind);
  }

  /**
   * From `open` on, the text is "(x<sep>y<sep>z)" and nothing more: the
   * positions of the pieces of a spelled call.
   */
  predicate LaidOut(s: string, open: nat, x: string, y: string, z: string, sep: string)
  {
    var p1 := open + 1 + |x| + |sep|;
    var p2 := p1 + |y| + |sep|;
    && Numeral(x) && Numeral(y) && Numeral(z) && Separator(sep)
    && |s| == p2 + |z| + 1 && HasAt(s, open, "(")
    && HasAt(s, open + 1, x) && HasAt(s, open + 1 + |x|, sep) && HasAt(s, p1, y)
    && HasAt(s, p1 + |y|, sep) && HasAt(s, p2, z) && HasAt(s, p2 + |z|, ")")
  }

  /** Where the pieces of a spelled call sit. */
  lemma SpelledLayout(kind: FunctionKind, x: string, y: string, z: string, sep: string)
    requires Numeral(x) && Numeral(y) && Numeral(z) && Separator(sep)
    ensures HasAt(Spelled(kind, x, y, z, sep), 0, Name(kind))
    ensures LaidOut(Spelled(kind, x, y, z, sep), |Name(kind)|, x, y, z, sep)
  {
    var t0 := Name(kind);
    assert HasAt(t0, 0, t0) by { assert t0[0..|t0|] == t0; }
    Grow(t0, "(");
    var t1 := t0 + "(";
    Grow(t1, x);
    var t2 := t1 + x;
    Grow(t2, sep);
    var t3 := t2 + sep;
    Grow(t3, y);
    var t4 := t3 + y;
    Grow(t4, sep);
    var t5 := t4 + sep;
    Grow(t5, z);
    var t6 := t5 + z;
    Grow(t6, ")");
  }

  /** A spelled call of at least ten characters opens at the '(' after the name. */
  lemma SpelledHead(s: string, kind: FunctionKind)
    requires |s| >= MinCallLength && HasAt(s, 0, Name(kind)) && HasAt(s, |Name(kind)|, "(")
    ensures FunctionSyntax(s) == CallSyntax(s, kind, false, |Name(kind)|)
  {
    var n := |Name(kind)|;
    NamesExclusive(s, kind);
    HasAtChar(s, n, '(');
    HasAtChar(s, n, 'a');
    assert SkipBlanks(s, n) == n;
  }

  /** From the '(' at `open` on: three numerals, their separators and the close. */
  lemma SpelledBody(s: string, kind: FunctionKind, open: nat, x: string, y: string, z: string, sep: string)
    requires LaidOut(s, open, x, y, z, sep)
    ensures CallSyntax(s, kind, false, open)
         == Call(kind, [NumeralValue(x), NumeralValue(y), NumeralValue(z), CssValue(1.0, Number)])
  {
    var e := SpelledArgs(s, open, x, y, z, sep);
    SpelledEnds(s, open, x, y, z, sep);
    CallFromArgs(s, kind, open, NumeralValue(x), NumeralValue(y), NumeralValue(z), e, SepMode(sep));
  }

  /** The three numerals are the first three arguments, read up to the ')'. */
  lemma SpelledArgs(s: string, open: nat, x: string, y: string, z: string, sep: string) returns (e: nat)
    requires LaidOut(s, open, x, y, z, sep)
    ensures e + 1 == |s| && HasAt(s, e, ")")
    ensures ArgsAfter(s, open + 1, 3)
         == ArgsRead([NumeralValue(x), NumeralValue(y), NumeralValue(z)], e, SepMode(sep))
  {
    e := |s| - 1;
    assert e + 1 == |s| && HasAt(s, e, ")");
    var q2 := FirstTwoNumerals(s, open, x, y, z, sep);
    ThirdNumeral(s, open, x, y, z, sep, q2);
    LastOfThree(s, open + 1, NumeralValue(x), NumeralValue(y), q2, NumeralValue(z), e, SepMode(sep));
  }

  /** The first two numerals are the first two arguments. */
  lemma FirstTwoNumerals(s: string, open: nat, x: string, y: string, z: string, sep: string) returns (q2: nat)
    requires LaidOut(s, open, x, y, z, sep)
    ensures ArgsAfter(s, open + 1, 2) == ArgsRead([NumeralValue(x), NumeralValue(y)], q2, SepMode(sep))
    ensures q2 <= open + 1 + |x| + |sep| + |y| + |sep|
    ensures SkipBlanks(s, q2) == open + 1 + |x| + |sep| + |y| + |sep|
  {
    var q1 := FirstNumeral(s, open, x, y, z, sep);
    q2 := SecondNumeral(s, open, x, y, z, sep, q1);
    TwoArgs(s, open + 1, NumeralValue(x), q1, NumeralValue(y), q2, SepMode(sep));
  }

  /** The first numeral and the separator after it. */
  lemma FirstNumeral(s: string, open: nat, x: string, y: string, z: string, sep: string) returns (q1: nat)
    requires LaidOut(s, open, x, y, z, sep)
    ensures ArgAt(s, open + 1, Undecided, false) == ArgsRead([NumeralValue(x)], q1, SepMode(sep))
    ensures q1 <= open + 1 + |x| + |sep| && SkipBlanks(s, q1) == open + 1 + |x| + |sep|
  {
    var p0 := open + 1;
    HasAtHead(s, p0 + |x| + |sep|, y);
    q1 := NumeralArgument(s, p0, p0, x, sep, Undecided);
  }

  /** The second numeral and the separator after it. */
  lemma SecondNumeral(s: string, open: nat, x: string, y: string, z: string, sep: string, q1: nat) returns (q2: nat)
    requires LaidOut(s, open, x, y, z, sep)
    requires q1 <= open + 1 + |x| + |sep| && SkipBlanks(s, q1) == open + 1 + |x| + |sep|
    ensures ArgAt(s, q1, SepMode(sep), false) == ArgsRead([NumeralValue(y)], q2, SepMode(sep))
    ensures q2 <= open + 1 + |x| + |sep| + |y| + |sep|
    ensures SkipBlanks(s, q2) == open + 1 + |x| + |sep| + |y| + |sep|
  {
    var p1 := open + 1 + |x| + |sep|;
    HasAtHead(s, p1 + |y| + |sep|, z);
    q2 := NumeralArgument(s, q1, p1, y, sep, SepMode(sep));
  }

  /** The third numeral, up to the ')'. */
  lemma ThirdNumeral(s: string, open: nat, x: string, y: string, z: string, sep: string, q2: nat)
    requires LaidOut(s, open, x, y, z, sep)
    requires q2 <= open + 1 + |x| + |sep| + |y| + |sep|
    requires SkipBlanks(s, q2) == open + 1 + |x| + |sep| + |y| + |sep|
    ensures ArgAt(s, q2, SepMode(sep), true) == ArgsRead([NumeralValue(z)], |s| - 1, SepMode(sep))
  {
    NumeralLast(s, q2, open + 1 + |x| + |sep| + |y| + |sep|, z, SepMode(sep));
  }

  /** Two arguments read one after the other are the first two arguments. */
  lemma TwoArgs(s: string, start: nat, u: CssValue, q1: nat, v: CssValue, q2: nat, m: Delimiter)
    requires start <= |s|
    requires ArgAt(s, start, Undecided, false) == ArgsRead([u], q1, m)
    requires ArgAt(s, q1, m, false) == ArgsRead([v], q2, m)
    ensures ArgsAfter(s, start, 2) == ArgsRead([u, v], q2, m)
  {
    assert [] + [u] == [u] && [u] + [v] == [u, v];
    ArgsExtend(s, start, 1, [], start, Undecided, [u], q1, m);
    ArgsExtend(s, start, 2, [u], q1, m, [v], q2, m);
  }

  /** The third argument read after the first two. */
  lemma LastOfThree(s: string, start: nat, u: CssValue, v: CssValue, q2: nat, w: CssValue, q3: nat, m: Delimiter)
    requires start <= |s|
    requires ArgsAfter(s, start, 2) == ArgsRead([u, v], q2, m)
    requires ArgAt(s, q2, m, true) == ArgsRead([w], q3, m)
    ensures ArgsAfter(s, start, 3) == ArgsRead([u, v, w], q3, m)
  {
    assert [u, v] + [w] == [u, v, w];
    ArgsExtend(s, start, 3, [u, v], q2, m, [w], q3, m);
  }

  /** The '(' of a laid-out call. */
  lemma SpelledEnds(s: string, open: nat, x: string, y: string, z: string, sep: string)
    requires LaidOut(s, open, x, y, z, sep)
    ensures open < |s| && HasAt(s, open, "(")
  {
  }

  /** Three values read up to a final ')': the call with alpha defaulting to 1. */
  lemma CallFromArgs(s: string, kind: FunctionKind, open: nat, u: CssValue, v: CssValue, w: CssValue,
                     e: nat, mode: Delimiter)
    requires open < |s| && HasAt(s, open, "(")
    requires ArgsAfter(s, open + 1, 3) == ArgsRead([u, v, w], e, mode)
    requires e + 1 == |s| && HasAt(s, e, ")")
    ensures CallSyntax(s, kind, false, open) == Call(kind, [u, v, w, CssValue(1.0, Number)])
  {
    SpelledTail(s, e, mode);
    assert [u, v, w] + [CssValue(1.0, Number)] == [u, v, w, CssValue(1.0, Number)];
  }

  /**
   * A numeral at `d`, reached from `p` over blanks, then a separator and a
   * digit: the argument is read and the next one starts after the separator.
   */
  lemma NumeralArgument(s: string, p: nat, d: nat, ds: string, sep: string, mode: Delimiter) returns (q: nat)
    requires p <= d <= |s| && SkipBlanks(s, p) == d
    requires Numeral(ds) && HasAt(s, d, ds) && Separator(sep) && HasAt(s, d + |ds|, sep)
    requires d + |ds| + |sep| < |s| && IsDigit(s[d + |ds| + |sep|])
    requires mode == Undecided || mode == SepMode(sep)
    ensures ArgAt(s, p, mode, false) == ArgsRead([NumeralValue(ds)], q, SepMode(sep))
    ensures q <= |s| && SkipBlanks(s, q) == d + |ds| + |sep|
  {
    var k := d + |ds|;
    HasAtHead(s, k, sep);
    assert k < |s| && !IsDigit(s[k]) && s[k] != '.' && s[k] != '%';
    ScanDigitsAt(s, d, ds);
    DelimitSep(s, k, sep, mode);
    q := Delimit(s, k, mode).next;
    ArgThenDelimiter(s, p, NumeralValue(ds), k, mode);
  }

  /** A value scanned after the blanks and a delimiter after it: one argument read. */
  lemma ArgThenDelimiter(s: string, p: nat, v: CssValue, k: nat, mode: Delimiter)
    requires p <= |s| && SkipBlanks(s, p) <= |s| && ScanValue(s, SkipBlanks(s, p)) == Value(v, k)
    requires Delimit(s, k, mode).ok
    ensures ArgAt(s, p, mode, false) == ArgsRead([v], Delimit(s, k, mode).next, Delimit(s, k, mode).mode)
  {
  }

  /** The third numeral, followed by the ')'. */
  lemma NumeralLast(s: string, p: nat, d: nat, ds: string, mode: Delimiter)
    requires p <= d <= |s| && SkipBlanks(s, p) == d
    requires Numeral(ds) && HasAt(s, d, ds) && HasAt(s, d + |ds|, ")")
    ensures ArgAt(s, p, mode, true) == ArgsRead([NumeralValue(ds)], d + |ds|, mode)
  {
    HasAtChar(s, d + |ds|, ')');
    ScanDigitsAt(s, d, ds);
  }

  /** A separator before a digit is a successful delimiter of its own mode. */
  lemma DelimitSep(s: string, k: nat, sep: string, mode: Delimiter)
    requires Separator(sep) && HasAt(s, k, sep)
    requires k + |sep| < |s| && IsDigit(s[k + |sep|])
    requires mode == Undecided || mode == SepMode(sep)
    ensures var d := Delimit(s, k, mode);
            d.ok && d.mode == SepMode(sep) && SkipBlanks(s, d.next) == k + |sep|
  {
    assert s[k..k + |sep|] == sep;
    assert s[k] == sep[0];
    if sep == ", " {
      assert s[k + 1] == sep[1];
      HasAtChar(s, k, ',');
      assert SkipBlanks(s, k) == k;
      assert SkipBlanks(s, k + 1) == k + 2;
    } else if sep == "," {
      HasAtChar(s, k, ',');
      assert SkipBlanks(s, k) == k;
    } else {
      HasAtChar(s, k + 1, ',');
      assert SkipBlanks(s, k) == k + 1;
    }
  }

  /** After the third value at the ')' that ends the text: alpha 1, and the call closes. */
  lemma SpelledTail(s: string, e: nat, mode: Delimiter)
    requires e + 1 == |s| && HasAt(s, e, ")")
    ensures AlphaArg(s, e, mode, false) == Value(CssValue(1.0, Number), e)
    ensures Closes(s, e)
  {
    HasAtChar(s, e, ')');
    HasAtChar(s, e, '/');
    assert SkipBlanks(s, e) == e;
    assert SkipBlanks(s, e + 1) == e + 1;
  }

  /** The three spellings therefore give the same colour. */
  lemma CommaAndBlankAgree(math: Conversion.ColorMath, kind: FunctionKind, x: string, y: string, z: string)
    requires Numeral(x) && Numeral(y) && Numeral(z)
    ensures FunctionColor(math, Spelled(kind, x, y, z, ", ")) == FunctionColor(math, Spelled(kind, x, y, z, " "))
    ensures FunctionColor(math, Spelled(kind, x, y, z, ",")) == FunctionColor(math, Spelled(kind, x, y, z, " "))
  {
    DelimitersAgree(kind, x, y, z, ", ");
    DelimitersAgree(kind, x, y, z, ",");
    DelimitersAgree(kind, x, y, z, " ");
  }

  /** The lock the other way round: blanks first, then a comma, is malformed. */
  lemma BlankThenCommaFails()
    ensures FunctionSyntax("rgb(0 0, 0)") == Malformed
  {
    var s := "rgb(0 0, 0)";
    RgbHead(s);
    HasAtChar(s, 3, '(');
    BlankThenCommaArguments(s);
  }

  lemma BlankThenCommaArguments(s: string)
    requires s == "rgb(0 0, 0)"
    ensures ArgsAfter(s, 4, 3) == ArgFail
  {
    assert SkipBlanks(s, 4) == 4 && SkipBlanks(s, 5) == 6;
    ScanOneDigit(s, 4);
    HasAtChar(s, 6, ',');
    assert ArgAt(s, 4, Undecided, false) == ArgsRead([CssValue(0.0, Number)], 6, Blank);
    ArgsExtend(s, 4, 1, [], 4, Undecided, [CssValue(0.0, Number)], 6, Blank);
    assert SkipBlanks(s, 6) == 6;
    ScanOneDigit(s, 6);
    assert ArgAt(s, 6, Blank, false) == ArgFail;
    ArgsFailStays(s, 4, 2, 3);
  }

  // ---------------------------------------------------------------------
  // The parser

  /**
   * vbt__parse_css_function up to the translation of its arguments: the
   * length check, the name cascade, the optional 'a', the '(' and the
   * argument loop filling `arg[0..3]`, the alpha argument, the ')' and the
   * end of input. The closing check that no argument is left unset is an
   * assertion here: it is proved never to fail.
   */
  method ParseFunctionSyntax(value: string) returns (r: Syntax)
    ensures r == FunctionSyntax(value)
  {
    if |value| < MinCallLength {
      return NotACall;
    }
    var parser := new Cursor(value);
    var name, alphaVariant := ConsumeHead(parser);
    if name.None? {
      return NotACall;
    }
    var arg := new CssValue[4](_ => CssValue(0.0, Unset));
    r := ConsumeCall(parser, name.value, alphaVariant, arg);
    assert r.Call? ==> forall j :: 0 <= j < 4 ==> r.args[j].unit != Unset;
  }

  /** The name cascade, the optional 'a' and the whitespace before the '('. */
  method ConsumeHead(parser: Cursor) returns (name: Option<FunctionKind>, alphaVariant: bool)
    requires parser.sp == 0 && |parser.text| >= MinCallLength
    modifies parser
    ensures parser.Valid()
    ensures name == MatchName(parser.text)
    ensures name.Some? ==> FunctionSyntax(parser.text) == CallSyntax(parser.text, name.value, alphaVariant, parser.sp)
  {
    name := ConsumeName(parser);
    if name.None? {
      return name, false;
    }
    ghost var p := parser.sp;
    alphaVariant := parser.ConsumeIf("a");
    ghost var start := parser.sp;
    assert start == if alphaVariant then p + 1 else p;
    HeadSyntax(parser.text, name.value, p, alphaVariant);
    var _ := parser.ConsumeWhitespace();
    assert parser.sp == SkipBlanks(parser.text, start);
  }

  /** The function name spans `[0, p)`: the grammar goes on after the optional 'a'. */
  lemma HeadSyntax(s: string, kind: FunctionKind, p: nat, alphaVariant: bool)
    requires |s| >= MinCallLength && MatchName(s) == Some(kind) && p == |Name(kind)|
    requires alphaVariant == HasAt(s, p, "a")
    ensures FunctionSyntax(s) == CallSyntax(s, kind, alphaVariant, SkipBlanks(s, if alphaVariant then p + 1 else p))
  {
    var open := SkipBlanks(s, if alphaVariant then p + 1 else p);
    assert Name(kind) == Name(MatchName(s).value);
    assert FunctionSyntax(s) == CallSyntax(s, MatchName(s).value, HasAt(s, |Name(MatchName(s).value)|, "a"), open);
  }

  /**
   * From the '(' on: the argument loop, the alpha argument and the close,
   * delivering the call with the four arguments read.
   */
  method ConsumeCall(parser: Cursor, kind: FunctionKind, alphaVariant: bool, arg: array<CssValue>)
    returns (r: Syntax)
    requires parser.Valid() && arg.Length == 4
    modifies parser, arg
    ensures r == CallSyntax(parser.text, kind, alphaVariant, old(parser.sp))
  {
    var paren := parser.ConsumeIf("(");
    if !paren {
      return Malformed;
    }
    var ok, mode := ConsumeArguments(parser, arg);
    if !ok {
      return Malformed;
    }
    assert CallSyntax(parser.text, kind, alphaVariant, old(parser.sp))
        == TailSyntax(parser.text, kind, alphaVariant, arg[..3], parser.sp, mode);
    ghost var three := arg[..3];
    var alpha;
    ok, alpha := ConsumeAlpha(parser, mode, alphaVariant);
    if !ok {
      return Malformed;
    }
    arg[3] := alpha;
    assert arg[..3] == three;
    ok := ConsumeClose(parser);
    if !ok {
      return Malformed;
    }
    SplitLast(arg[..]);
    return Call(kind, arg[..]);
  }

  /** A four-element sequence is its first three elements and its last. */
  lemma SplitLast<T>(xs: seq<T>)
    requires |xs| == 4
    ensures xs == xs[..3] + [xs[3]]
  {
  }

  /** The cascade of name comparisons at the start of the text. */
  method ConsumeName(parser: Cursor) returns (kind: Option<FunctionKind>)
    requires parser.sp == 0
    modifies parser
    ensures parser.Valid() && kind == MatchName(parser.text)
    ensures kind.Some? ==> parser.sp == |Name(kind.value)|
  {
    var found := parser.ConsumeIf("rgb");
    if found {
      return Some(Rgb);
    }
    found := parser.ConsumeIf("hsl");
    if found {
      return Some(Hsl);
    }
    found := parser.ConsumeIf("hwb");
    if found {
      return Some(Hwb);
    }
    found := parser.ConsumeIf("lch");
    if found {
      return Some(Lch);
    }
    found := parser.ConsumeIf("lab");
    if found {
      return Some(Lab);
    }
    found := parser.ConsumeIf("oklch");
    if found {
      return Some(Oklch);
    }
    found := parser.ConsumeIf("oklab");
    if found {
      return Some(Oklab);
    }
    return None;
  }

  /**
   * The argument loop: three values into `arg[0..3]`, with a delimiter
   * after each of the first two.
   */
  method ConsumeArguments(parser: Cursor, arg: array<CssValue>) returns (ok: bool, mode: Delimiter)
    requires parser.Valid() && arg.Length == 4
    modifies parser, arg
    ensures parser.Valid()
    ensures ok <==> ArgsAfter(parser.text, old(parser.sp), 3).ArgsRead?
    ensures ok ==> ArgsAfter(parser.text, old(parser.sp), 3) == ArgsRead(arg[..3], parser.sp, mode)
  {
    ghost var start := parser.sp;
    ghost var text := parser.text;
    mode := Undecided;
    var i := 0;
    while i < 3
      invariant 0 <= i <= 2 && parser.Valid() && parser.text == text
      invariant ArgsAfter(text, start, i) == ArgsRead(arg[..i], parser.sp, mode)
      decreases 3 - i
    {
      ghost var before := arg[..i];
      ghost var p, m := parser.sp, mode;
      var got, v;
      got, v, mode := ConsumeArgument(parser, mode, i == 2);
      if !got {
        ArgsFailStays(text, start, i + 1, 3);
        return false, mode;
      }
      arg[i] := v;
      ArgsExtend(text, start, i + 1, before, p, m, [v], parser.sp, mode);
      assert arg[..i + 1] == before + [v];
      if i == 2 {
        break;
      }
      i := i + 1;
    }
    return true, mode;
  }

  /** Reading the n-th argument extends what the first n - 1 left. */
  lemma ArgsExtend(s: string, start: nat, n: nat, vals: seq<CssValue>, p: nat, mode: Delimiter,
                   one: seq<CssValue>, q: nat, m: Delimiter)
    requires start <= |s| && 1 <= n <= 3
    requires ArgsAfter(s, start, n - 1) == ArgsRead(vals, p, mode)
    requires ArgAt(s, p, mode, n == 3) == ArgsRead(one, q, m)
    ensures ArgsAfter(s, start, n) == ArgsRead(vals + one, q, m)
  {
  }

  /** One pass of the argument loop, as ArgAt describes it. */
  method ConsumeArgument(parser: Cursor, mode: Delimiter, last: bool) returns (ok: bool, v: CssValue, newMode: Delimiter)
    requires parser.Valid()
    modifies parser
    ensures parser.Valid()
    ensures ok <==> ArgAt(parser.text, old(parser.sp), mode, last).ArgsRead?
    ensures ok ==> ArgAt(parser.text, old(parser.sp), mode, last) == ArgsRead([v], parser.sp, newMode)
  {
    newMode := mode;
    var _ := parser.ConsumeWhitespace();
    ok, v := parser.ConsumeCssValue();
    if !ok || last {
      return;
    }
    ok, newMode := parser.ConsumeDelimiter(mode);
  }

  /** Once reading the arguments has failed, reading more fails too. */
  lemma {:induction false} ArgsFailStays(s: string, start: nat, n: nat, m: nat)
    requires start <= |s| && n <= m <= 3 && ArgsAfter(s, start, n).ArgFail?
    ensures ArgsAfter(s, start, m).ArgFail?
    decreases m - n
  {
    if n < m {
      ArgsFailStays(s, start, n + 1, m);
    }
  }

  /** The fourth argument, which goes into `arg[3]`, as AlphaArg describes it. */
  method ConsumeAlpha(parser: Cursor, mode: Delimiter, alphaVariant: bool) returns (ok: bool, alpha: CssValue)
    requires parser.Valid()
    modifies parser
    ensures parser.Valid()
    ensures ok <==> AlphaArg(parser.text, old(parser.sp), mode, alphaVariant).Value?
    ensures ok ==> AlphaArg(parser.text, old(parser.sp), mode, alphaVariant) == Value(alpha, parser.sp)
  {
    if alphaVariant {
      ok, alpha := DelimitedAlpha(parser, mode);
    } else {
      ok, alpha := SlashAlpha(parser);
    }
  }

  /** The `a` variant: a delimiter in the locked mode, then a mandatory value. */
  method DelimitedAlpha(parser: Cursor, mode: Delimiter) returns (ok: bool, alpha: CssValue)
    requires parser.Valid()
    modifies parser
    ensures parser.Valid()
    ensures ok <==> AlphaArg(parser.text, old(parser.sp), mode, true).Value?
    ensures ok ==> AlphaArg(parser.text, old(parser.sp), mode, true) == Value(alpha, parser.sp)
  {
    alpha := CssValue(1.0, Number);
    var delimited, _ := parser.ConsumeDelimiter(mode);
    if !delimited {
      return false, alpha;
    }
    var _ := parser.ConsumeWhitespace();
    ok, alpha := parser.ConsumeCssValue();
  }

  /** Otherwise: an optional '/' and a value, alpha being the number 1 without one. */
  method SlashAlpha(parser: Cursor) returns (ok: bool, alpha: CssValue)
    requires parser.Valid()
    modifies parser
    ensures parser.Valid()
    ensures ok <==> AlphaArg(parser.text, old(parser.sp), Undecided, false).Value?
    ensures ok ==> AlphaArg(parser.text, old(parser.sp), Undecided, false) == Value(alpha, parser.sp)
  {
    ghost var s, p := parser.text, parser.sp;
    var _ := parser.ConsumeWhitespace();
    ghost var j := parser.sp;
    var slash := parser.ConsumeIf("/");
    if slash {
      var _ := parser.ConsumeWhitespace();
      assert parser.sp == SkipBlanks(s, j + 1);
      ok, alpha := parser.ConsumeCssValue();
    } else {
      ok, alpha := true, CssValue(1.0, Number);
    }
    assert AlphaArg(s, p, Undecided, false) ==
      if HasAt(s, j, "/") then ScanValue(s, SkipBlanks(s, j + 1)) else Value(CssValue(1.0, Number), j);
  }

  /** Whitespace, ')', whitespace and the end of the text. */
  method ConsumeClose(parser: Cursor) returns (ok: bool)
    requires parser.Valid()
    modifies parser
    ensures parser.Valid()
    ensures ok == Closes(parser.text, old(parser.sp))
  {
    var _ := parser.ConsumeWhitespace();
    var closed := parser.ConsumeIf(")");
    if !closed {
      return false;
    }
    var _ := parser.ConsumeWhitespace();
    return parser.sp == |parser.text|;
  }

  // ---------------------------------------------------------------------
  // Translation and delivery

  /**
   * The colour a parsed call denotes: each argument goes through the unit
   * translator of its position, hues are taken as raw numbers (a '%' on a
   * hue is ignored), and the result is what the conversion entry point
   * delivers. `rgb()` writes its bytes directly.
   */
  function CallColor(math: Conversion.ColorMath, kind: FunctionKind, args: seq<CssValue>): Rgba8
    requires |args| == 4
  {
    match kind
    case Hsl => Conversion.HslColor(args[0].value, ToPercent(args[1]), ToPercent(args[2]), To01(args[3]))
    case Hwb => Conversion.HwbColor(args[0].value, ToPercent(args[1]), ToPercent(args[2]), To01(args[3]))
    case Rgb => Rgba8(ToU8(args[0]), ToU8(args[1]), ToU8(args[2]), Byte01(To01(args[3])))
    case Lch => Conversion.LchColor(math, ToPercent(args[0]), LchChroma(args[1]), args[2].value, To01(args[3]))
    case Lab => Conversion.LabColor(math, ToPercent(args[0]), LabAb(args[1]), LabAb(args[2]), To01(args[3]))
    case Oklch =>
      Conversion.OklchColor(math, OkLightness(args[0]), OklabAb(args[1]), args[2].value, To01(args[3]))
    case Oklab =>
      Conversion.OklabColor(math, OkLightness(args[0]), OklabAb(args[1]), OklabAb(args[2]), To01(args[3]))
  }

  /** The colour a text denotes as a function call, if it is a well-formed one. */
  function FunctionColor(math: Conversion.ColorMath, s: string): (r: Option<Rgba8>)
    ensures r.Some? <==> FunctionSyntax(s).Call?
  {
    match FunctionSyntax(s)
    case Call(kind, args) => Some(CallColor(math, kind, args))
    case _ => None
  }

  /**
   * vbt__parse_css_function: NOT_A_FUNCTION for a text too short or with no
   * known name, an error for a malformed call, and otherwise the colour of
   * the call delivered to the receiver. The receiver is touched only on
   * success.
   */
  method ParseCssFunction(value: string, recv: Receiver, math: Conversion.ColorMath) returns (status: Status)
    modifies Conversion.Footprint(recv)
    ensures status == NotAFunction <==> FunctionSyntax(value).NotACall?
    ensures status == Success <==> FunctionSyntax(value).Call?
    ensures status == Success ==> recv.Shows(FunctionColor(math, value).value) && recv.KeptLayout()
    ensures status != Success ==> unchanged(old(Conversion.Footprint(recv)))
  {
    var syntax := ParseFunctionSyntax(value);
    assert unchanged(recv, recv.Cells());
    assert syntax.Call? ==> FunctionColor(math, value) == Some(CallColor(math, syntax.kind, syntax.args));
    status := Conclude(syntax, recv, math);
  }

  /** The outcome of vbt__parse_css_function once the text has been parsed into `syntax`. */
  method Conclude(syntax: Syntax, recv: Receiver, math: Conversion.ColorMath) returns (status: Status)
    requires syntax.Call? ==> |syntax.args| == 4
    modifies Conversion.Footprint(recv)
    ensures status == NotAFunction <==> syntax.NotACall?
    ensures status == Success <==> syntax.Call?
    ensures status == Success ==> recv.Shows(CallColor(math, syntax.kind, syntax.args)) && recv.KeptLayout()
    ensures status != Success ==> unchanged(old(Conversion.Footprint(recv)))
  {
    match syntax
    case NotACall =>
      return NotAFunction;
    case Malformed =>
      return Err;
    case Call(kind, arg) =>
      status := Deliver(kind, arg, recv, math);
  }

  /**
   * The switch at the end of vbt__parse_css_function: translate the four
   * arguments for the function and hand them to its conversion entry point.
   * Parsed values are finite and the receiver is not null, so every entry
   * point succeeds.
   */
  method Deliver(kind: FunctionKind, arg: seq<CssValue>, recv: Receiver, math: Conversion.ColorMath)
    returns (status: Status)
    requires |arg| == 4
    modifies Conversion.Footprint(recv)
    ensures status == Success && recv.Shows(CallColor(math, kind, arg)) && recv.KeptLayout()
  {
    match kind
    case Hsl =>
      status := Conversion.Hsl(Finite(arg[0].value), Finite(ToPercent(arg[1])), Finite(ToPercent(arg[2])),
                               Finite(To01(arg[3])), recv);
    case Hwb =>
      status := Conversion.Hwb(Finite(arg[0].value), Finite(ToPercent(arg[1])), Finite(ToPercent(arg[2])),
                               Finite(To01(arg[3])), recv);
    case Rgb =>
      status := recv.WriteU8(ToU8(arg[0]), ToU8(arg[1]), ToU8(arg[2]), Byte01(To01(arg[3])));
    case Lch =>
      status := Conversion.Lch(math, Finite(ToPercent(arg[0])), Finite(LchChroma(arg[1])), Finite(arg[2].value),
                               Finite(To01(arg[3])), recv);
    case Lab =>
      status := Conversion.Lab(math, Finite(ToPercent(arg[0])), Finite(LabAb(arg[1])), Finite(LabAb(arg[2])),
                               Finite(To01(arg[3])), recv);
    case Oklch =>
      status := Conversion.Oklch(math, Finite(OkLightness(arg[0])), Finite(OklabAb(arg[1])), Finite(arg[2].value),
                                 Finite(To01(arg[3])), recv);
    case Oklab =>
      status := Conversion.Oklab(math, Finite(OkLightness(arg[0])), Finite(OklabAb(arg[1])),
                                 Finite(OklabAb(arg[2])), Finite(To01(arg[3])), recv);
  }
}
