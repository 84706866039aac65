/**
 * The named colours of include/vibrant.h: `vbt__casecmp`,
 * `vbt__find_css_color` and `vbt__parse_css_color_name`.
 *
 * The colour table and its perfect hash are generated code; here they are
 * parameters. `table` is the word list (each slot a name and its colour,
 * empty slots having the empty name) and `slot` is the hash that picks the
 * one slot a text can match. The lookup compares the text with that slot's
 * name ignoring case, as the C code does.
 */
module Names {
  import opened Color
  import opened Text
  import opened Receivers
  import Conversion

  /** VBT__MIN_WORD_LENGTH and VBT__MAX_WORD_LENGTH of the generated table. */
  const MinWordLength: nat := 3
  const MaxWordLength: nat := 20

  /** One slot of the word list: a name (empty for an unused slot) and its colour. */
  datatype Entry = Entry(name: string, color: Rgba8)

  // ---------------------------------------------------------------------
  // Case-insensitive comparison

  /**
   * The difference of the first pair of lower-cased characters that differ
   * among positions `i..n`, or 0 when they all agree.
   */
  function CaseCompare(s1: string, s2: string, i: nat, n: nat): int
    requires i <= n <= |s1| && n <= |s2|
    decreases n - i
  {
    if i == n then 0
    else
      var d := ToLowerChar(s1[i]) as int - ToLowerChar(s2[i]) as int;
      if d != 0 then d else CaseCompare(s1, s2, i + 1, n)
  }

  /**
   * vbt__casecmp: walk the first `n` characters of both texts and stop at
   * the first lower-cased difference, returning it; 0 when there is none.
   */
  method Casecmp(s1: string, s2: string, n: nat) returns (result: int)
    requires n <= |s1| && n <= |s2|
    ensures result == CaseCompare(s1, s2, 0, n)
    ensures result == 0 <==> ToLower(s1[..n]) == ToLower(s2[..n])
  {
    result := 0;
    var i := 0;
    while i < n
      invariant 0 <= i <= n
      invariant CaseCompare(s1, s2, 0, n) == if result != 0 then result else CaseCompare(s1, s2, i, n)
      invariant result == 0 ==> ToLower(s1[..i]) == ToLower(s2[..i])
    {
      result := ToLowerChar(s1[i]) as int - ToLowerChar(s2[i]) as int;
      if result != 0 {
        break;
      }
      assert ToLower(s1[..i + 1]) == ToLower(s1[..i]) + [ToLowerChar(s1[i])];
      assert ToLower(s2[..i + 1]) == ToLower(s2[..i]) + [ToLowerChar(s2[i])];
      i := i + 1;
    }
    CaseCompareZero(s1, s2, n);
  }

  /** The comparison is zero exactly when the two prefixes agree once lower-cased. */
  lemma CaseCompareZero(s1: string, s2: string, n: nat)
    requires n <= |s1| && n <= |s2|
    ensures CaseCompare(s1, s2, 0, n) == 0 <==> ToLower(s1[..n]) == ToLower(s2[..n])
  {
    CaseCompareFromZero(s1, s2, 0, n);
    assert s1[0..n] == s1[..n] && s2[0..n] == s2[..n];
  }

  lemma {:induction false} CaseCompareFromZero(s1: string, s2: string, i: nat, n: nat)
    requires i <= n <= |s1| && n <= |s2|
    ensures CaseCompare(s1, s2, i, n) == 0 <==> ToLower(s1[i..n]) == ToLower(s2[i..n])
    decreases n - i
  {
    if i < n {
      CaseCompareFromZero(s1, s2, i + 1, n);
      assert s1[i..n] == [s1[i]] + s1[i + 1..n];
      assert s2[i..n] == [s2[i]] + s2[i + 1..n];
      assert ToLower(s1[i..n]) == [ToLowerChar(s1[i])] + ToLower(s1[i + 1..n]);
      assert ToLower(s2[i..n]) == [ToLowerChar(s2[i])] + ToLower(s2[i + 1..n]);
    }
  }

  /** Swapping the texts negates the comparison. */
  lemma {:induction false} CaseCompareAntisymmetric(s1: string, s2: string, i: nat, n: nat)
    requires i <= n <= |s1| && n <= |s2|
    ensures CaseCompare(s2, s1, i, n) == -CaseCompare(s1, s2, i, n)
    decreases n - i
  {
    if i < n {
      CaseCompareAntisymmetric(s1, s2, i + 1, n);
    }
  }

  // ---------------------------------------------------------------------
  // The lookup

  /**
   * vbt__find_css_color: for a text of 3 to 20 characters, the colour of the
   * slot the hash picks when that slot's name has the text's length and
   * equals it ignoring case; None (the EMPTY entry) otherwise.
   */
  function FindCssColor(table: seq<Entry>, slot: string -> nat, s: string): (r: Option<Rgba8>)
    ensures r.Some? ==> MinWordLength <= |s| <= MaxWordLength
    ensures r.Some? ==> exists k :: 0 <= k < |table| && ToLower(table[k].name) == ToLower(s) && table[k].color == r.value
  {
    if MinWordLength <= |s| <= MaxWordLength then
      var key := slot(s);
      if key < |table| && |table[key].name| == |s| && ToLower(s) == ToLower(table[key].name) then
        assert s[..|s|] == s && table[key].name[..|s|] == table[key].name;
        Some(table[key].color)
      else None
    else None
  }

  /**
   * The lookup as the C code runs it: the length window, the hash, the
   * length of the slot's name and vbt__casecmp.
   */
  method LookupCssColor(table: seq<Entry>, slot: string -> nat, value: string) returns (r: Option<Rgba8>)
    ensures r == FindCssColor(table, slot, value)
  {
    var len := |value|;
    if len <= MaxWordLength && len >= MinWordLength {
      var key := slot(value);
      if key < |table| && len == |table[key].name| {
        var diff := Casecmp(value, table[key].name, len);
        assert value[..len] == value && table[key].name[..len] == table[key].name;
        if diff == 0 {
          return Some(table[key].color);
        }
      }
    }
    return None;
  }

  /**
   * vbt__parse_css_color_name: deliver the colour of a known name, or fail
   * and leave the receiver alone.
   */
  method ParseCssColorName(value: string, recv: Receiver, table: seq<Entry>, slot: string -> nat)
    returns (status: Status)
    modifies Conversion.Footprint(recv)
    ensures status == Success || status == Err
    ensures status == Success <==> FindCssColor(table, slot, value).Some?
    ensures status == Success ==> recv.Shows(FindCssColor(table, slot, value).value) && recv.KeptLayout()
    ensures status == Err ==> unchanged(old(Conversion.Footprint(recv)))
  {
    var found := LookupCssColor(table, slot, value);
    if found.None? {
      return Err;
    }
    var c := found.value;
    status := recv.WriteU8(c.r, c.g, c.b, c.a);
  }

  // ---------------------------------------------------------------------
  // Properties

  /**
   * Names are matched without regard to case, provided the hash does not
   * see case either (the table is generated with case-insensitive hashing).
   */
  lemma NamesIgnoreCase(table: seq<Entry>, slot: string -> nat, s: string)
    requires slot(ToLower(s)) == slot(s)
    ensures FindCssColor(table, slot, ToLower(s)) == FindCssColor(table, slot, s)
  {
    LowerIdempotent(s);
  }

  /** Lower-casing twice is lower-casing once. */
  lemma LowerIdempotent(s: string)
    ensures ToLower(ToLower(s)) == ToLower(s)
  {
    forall i | 0 <= i < |s|
      ensures ToLower(ToLower(s))[i] == ToLower(s)[i]
    {
      ToLowerCharIdempotent(s[i]);
    }
  }

  /**
   * Every name in the table is found, in any case, when the hash sends it
   * to its own slot and it has a length the table admits.
   */
  lemma EveryNameIsFound(table: seq<Entry>, slot: string -> nat, k: nat, s: string)
    requires k < |table| && MinWordLength <= |table[k].name| <= MaxWordLength
    requires slot(s) == k && |s| == |table[k].name| && ToLower(s) == ToLower(table[k].name)
    ensures FindCssColor(table, slot, s) == Some(table[k].color)
  {
  }

  /** Texts shorter than 3 or longer than 20 characters are never names. */
  lemma LengthWindow(table: seq<Entry>, slot: string -> nat, s: string)
    requires |s| < MinWordLength || |s| > MaxWordLength
    ensures FindCssColor(table, slot, s) == None
  {
  }
}
