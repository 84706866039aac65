/**
 * Character classes and digit arithmetic shared by the parsers of
 * include/vibrant.h: the space/tab whitespace of `vbt__consume_whitespace`,
 * literal matching as `vbt__consume_if` does it, decimal digit runs and the
 * values they denote.
 */
module Text {

  /** A decimal digit, as the scanner tests it (`*sp >= '0' && *sp <= '9'`). */
  predicate IsDigit(c: char)
  {
    '0' <= c <= '9'
  }

  /** Whitespace for the parser: only a space or a tab. */
  predicate IsBlank(c: char)
  {
    c == ' ' || c == '\t'
  }

  predicate AllDigits(s: string)
  {
    forall k :: 0 <= k < |s| ==> IsDigit(s[k])
  }

  function DigitValue(c: char): (d: nat)
    requires IsDigit(c)
    ensures d <= 9
  {
    c as int - '0' as int
  }

  /** The digit character for `d`. */
  function DigitChar(d: nat): (c: char)
    requires d <= 9
    ensures IsDigit(c) && DigitValue(c) == d
  {
    ('0' as int + d) as char
  }

  /** `lit` occurs in `s` at position `i`. */
  predicate HasAt(s: string, i: nat, lit: string)
  {
    i + |lit| <= |s| && s[i..i + |lit|] == lit
  }

  /**
   * The end of the run of blanks starting at `i`: everything in between is a
   * space or a tab, and the character at the end (if any) is not.
   */
  function SkipBlanks(s: string, i: nat): (j: nat)
    requires i <= |s|
    ensures i <= j <= |s|
    ensures forall k :: i <= k < j ==> IsBlank(s[k])
    ensures j == |s| || !IsBlank(s[j])
    decreases |s| - i
  {
    if i < |s| && IsBlank(s[i]) then SkipBlanks(s, i + 1) else i
  }

  /** The end of the run of decimal digits starting at `i`. */
  function DigitsEnd(s: string, i: nat): (j: nat)
    requires i <= |s|
    ensures i <= j <= |s|
    ensures forall k :: i <= k < j ==> IsDigit(s[k])
    ensures j == |s| || !IsDigit(s[j])
    decreases |s| - i
  {
    if i < |s| && IsDigit(s[i]) then DigitsEnd(s, i + 1) else i
  }

  /** A run that starts anywhere inside another run ends where that one ends. */
  lemma {:induction false} DigitsEndFrom(s: string, i: nat, k: nat)
    requires i <= |s| && i <= k <= DigitsEnd(s, i)
    ensures DigitsEnd(s, k) == DigitsEnd(s, i)
    decreases k - i
  {
    if k > i {
      DigitsEndFrom(s, i + 1, k);
    }
  }

  /** The same for blanks. */
  lemma {:induction false} SkipBlanksFrom(s: string, i: nat, k: nat)
    requires i <= |s| && i <= k <= SkipBlanks(s, i)
    ensures SkipBlanks(s, k) == SkipBlanks(s, i)
    decreases k - i
  {
    if k > i {
      SkipBlanksFrom(s, i + 1, k);
    }
  }

  /** A run of `n` digits followed by a non-digit (or the end) ends after those `n`. */
  lemma {:induction false} DigitsEndOfRun(s: string, i: nat, n: nat)
    requires i + n <= |s|
    requires forall k :: i <= k < i + n ==> IsDigit(s[k])
    requires i + n == |s| || !IsDigit(s[i + n])
    ensures DigitsEnd(s, i) == i + n
    decreases n
  {
    if n > 0 {
      DigitsEndOfRun(s, i + 1, n - 1);
    }
  }

  /** The same, for a run given as the slice `s[i..i + |run|]`. */
  lemma DigitsEndOfSlice(s: string, i: nat, run: string)
    requires i + |run| <= |s| && s[i..i + |run|] == run && AllDigits(run)
    requires i + |run| == |s| || !IsDigit(s[i + |run|])
    ensures DigitsEnd(s, i) == i + |run|
  {
    forall k | i <= k < i + |run|
      ensures IsDigit(s[k])
    {
      assert s[k] == run[k - i];
    }
    DigitsEndOfRun(s, i, |run|);
  }

  /**
   * The value of a string of decimal digits, read most significant digit
   * first as the scanner accumulates it (`res = res * 10 + d`).
   */
  function IntValue(ds: string): nat
    requires AllDigits(ds)
  {
    if ds == [] then 0 else IntValue(ds[..|ds| - 1]) * 10 + DigitValue(ds[|ds| - 1])
  }

  /** One more digit shifts the value one decimal place and adds the digit. */
  lemma IntValueSnoc(ds: string, c: char)
    requires AllDigits(ds) && IsDigit(c)
    ensures AllDigits(ds + [c])
    ensures IntValue(ds + [c]) == IntValue(ds) * 10 + DigitValue(c)
  {
    assert (ds + [c])[..|ds|] == ds;
  }

  /** Appending digits never makes the value smaller. */
  lemma {:induction false} IntValuePrefix(ds: string, k: nat)
    requires AllDigits(ds) && k <= |ds|
    ensures IntValue(ds[..k]) <= IntValue(ds)
    decreases |ds|
  {
    if k < |ds| {
      var init := ds[..|ds| - 1];
      assert init[..k] == ds[..k];
      IntValuePrefix(init, k);
      assert IntValue(ds) == IntValue(init) * 10 + DigitValue(ds[|ds| - 1]);
    } else {
      assert ds[..k] == ds;
    }
  }

  /** `10^-n`, the weight of the n-th fractional digit. */
  function Tenth(n: nat): (t: real)
    ensures 0.0 < t <= 1.0
  {
    if n == 0 then 1.0 else Tenth(n - 1) / 10.0
  }

  /**
   * The value of the digits after a decimal point: the first digit counts
   * tenths, the next hundredths, and so on.
   */
  function FracValue(ds: string): real
    requires AllDigits(ds)
  {
    if ds == [] then 0.0 else (DigitValue(ds[0]) as real + FracValue(ds[1..])) / 10.0
  }

  /**
   * Appending a digit adds its value at the next weight: the scanner's
   * left-to-right accumulation `res += d * f; f *= 0.1` computes FracValue.
   */
  lemma {:induction false} FracValueSnoc(ds: string, c: char)
    requires AllDigits(ds) && IsDigit(c)
    ensures AllDigits(ds + [c])
    ensures FracValue(ds + [c]) == FracValue(ds) + DigitValue(c) as real * Tenth(|ds| + 1)
    decreases |ds|
  {
    var e := ds + [c];
    var dc := DigitValue(c) as real;
    if ds == [] {
      assert e[1..] == [];
    } else {
      var tail := ds[1..];
      var t := Tenth(|ds|);
      var w := dc * t;
      var a := DigitValue(ds[0]) as real;
      assert FracValue(e) == (a + FracValue(tail) + w) / 10.0 by {
        assert e[0] == ds[0] && e[1..] == tail + [c];
        FracValueSnoc(tail, c);
      }
      assert FracValue(ds) == (a + FracValue(tail)) / 10.0;
      assert Tenth(|ds| + 1) == t / 10.0;
      ScaleTenth(dc, t);
    }
  }

  /** A weight one tenth as large scales a product the same way. */
  lemma ScaleTenth(x: real, t: real)
    ensures x * (t / 10.0) == (x * t) / 10.0
  {
  }

  /** `n` fractional digits are worth at most `1 - 10^-n`, so always less than one. */
  lemma {:induction false} FracValueBelowOne(ds: string)
    requires AllDigits(ds)
    ensures 0.0 <= FracValue(ds) <= 1.0 - Tenth(|ds|)
    decreases |ds|
  {
    if ds != [] {
      FracValueBelowOne(ds[1..]);
    }
  }

  /** The shortest decimal spelling of `n`, most significant digit first. */
  function NatDigits(n: nat): (ds: string)
    ensures |ds| > 0 && AllDigits(ds)
    decreases n
  {
    if n < 10 then [DigitChar(n)] else NatDigits(n / 10) + [DigitChar(n % 10)]
  }

  /** Reading the printed digits back gives the number. */
  lemma {:induction false} NatDigitsRoundTrip(n: nat)
    ensures IntValue(NatDigits(n)) == n
    decreases n
  {
    if n >= 10 {
      var ds := NatDigits(n);
      assert ds[..|ds| - 1] == NatDigits(n / 10);
      NatDigitsRoundTrip(n / 10);
    }
  }

  /** A one-character literal occurs at `i` exactly when that character is there. */
  lemma HasAtChar(s: string, i: nat, c: char)
    ensures HasAt(s, i, [c]) <==> i < |s| && s[i] == c
  {
    if i < |s| {
      assert s[i..i + 1] == [s[i]];
    }
  }

  /** Appending a piece puts it at the old end and keeps every literal already found. */
  lemma Grow(t: string, piece: string)
    ensures HasAt(t + piece, |t|, piece)
    ensures forall i: nat, lit: string :: HasAt(t, i, lit) ==> HasAt(t + piece, i, lit)
  {
    assert (t + piece)[|t|..|t| + |piece|] == piece;
    forall i: nat, lit: string | HasAt(t, i, lit)
      ensures HasAt(t + piece, i, lit)
    {
      assert (t + piece)[i..i + |lit|] == t[i..i + |lit|];
    }
  }

  /**
   * vbt__tolower: an ASCII capital has bit 0x20 set, which (the bit being
   * clear in 'A'..'Z') adds 32 and gives its small letter; every other
   * character is returned as it is.
   */
  function ToLowerChar(c: char): (r: char)
  {
    if 'A' <= c <= 'Z' then (c as int + 32) as char else c
  }

  /** Lower-casing a character leaves no capital behind and is idempotent. */
  lemma ToLowerCharIdempotent(c: char)
    ensures !('A' <= ToLowerChar(c) <= 'Z')
    ensures ToLowerChar(ToLowerChar(c)) == ToLowerChar(c)
    ensures 'A' <= c <= 'Z' ==> 'a' <= ToLowerChar(c) <= 'z'
    ensures !('A' <= c <= 'Z') ==> ToLowerChar(c) == c
  {
  }

  /** A text lower-cased character by character. */
  function ToLower(s: string): (r: string)
    ensures |r| == |s| && forall i :: 0 <= i < |s| ==> r[i] == ToLowerChar(s[i])
  {
    seq(|s|, i requires 0 <= i < |s| => ToLowerChar(s[i]))
  }

  /** A literal found at `i` starts with the character at `i`. */
  lemma HasAtHead(s: string, i: nat, lit: string)
    requires |lit| > 0
    ensures HasAt(s, i, lit) ==> s[i] == lit[0]
  {
    if i + |lit| <= |s| {
      assert s[i..i + |lit|][0] == s[i];
    }
  }

  /** The tail of `s` from `i` on, seen as a text of its own. */
  lemma HasAtShift(prefix: string, s: string, i: nat, lit: string)
    ensures HasAt(prefix + s, |prefix| + i, lit) == HasAt(s, i, lit)
  {
    if i + |lit| <= |s| {
      assert (prefix + s)[|prefix| + i..|prefix| + i + |lit|] == s[i..i + |lit|];
    }
  }
}
