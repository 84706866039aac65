/**
 * The public parsing entry points of include/vibrant.h: `vbt_parse`, which
 * checks its arguments and routes the text to the hex, function or
 * colour-name parser, and `vbt_parse_z`, which measures a NUL-terminated
 * text with `vbt__strlen_safe` first.
 *
 * A `const char*` is modelled as an optional text: None is the null
 * pointer, and `Some(buf)` is the memory from the pointer on.
 */
module Dispatch {
  import opened Color
  import opened Receivers
  import Conversion
  import Hex
  import Functions
  import Names

  /** VBT__MAX_STR_LEN */
  const MaxStrLen: nat := 128

  // ---------------------------------------------------------------------
  // vbt_parse

  /** The arguments vbt_parse refuses outright. */
  predicate Refused(value: Option<string>, len: nat, recv: Receiver?)
  {
    len == 0 || len > MaxStrLen || value.None? || recv == null
  }

  /**
   * The colour an accepted text denotes: a '#' routes it to the hex
   * notations; otherwise the function notations are tried, and the colour
   * names only when the text is not a function call at all.
   */
  function TextColor(math: Conversion.ColorMath, table: seq<Names.Entry>, slot: string -> nat, s: string)
    : (r: Option<Rgba8>)
    requires |s| > 0
    ensures s[0] == '#' ==> r == Hex.HexColor(s)
    ensures s[0] != '#' && !Functions.FunctionSyntax(s).NotACall? ==> r == Functions.FunctionColor(math, s)
    ensures s[0] != '#' && Functions.FunctionSyntax(s).NotACall? ==> r == Names.FindCssColor(table, slot, s)
  {
    if s[0] == '#' then Hex.HexColor(s)
    else if Functions.FunctionSyntax(s).NotACall? then Names.FindCssColor(table, slot, s)
    else Functions.FunctionColor(math, s)
  }

  /**
   * vbt_parse: VBT_ERR, with the receiver untouched, for a zero or too long
   * length or a null text or receiver; otherwise the text `value[0..len)`
   * is routed to the parser its first character and shape select. The
   * internal NOT_A_FUNCTION code never escapes.
   */
  method Parse(value: Option<string>, len: nat, recv: Receiver?, math: Conversion.ColorMath,
               table: seq<Names.Entry>, slot: string -> nat)
    returns (status: Status)
    requires value.Some? && 0 < len <= MaxStrLen ==> len <= |value.value|
    modifies Conversion.Footprint(recv)
    ensures status == Success || status == Err
    ensures Refused(value, len, recv) ==> status == Err
    ensures status == Success <==>
      !Refused(value, len, recv) && TextColor(math, table, slot, value.value[..len]).Some?
    ensures status == Success ==> recv.Shows(TextColor(math, table, slot, value.value[..len]).value) && recv.KeptLayout()
    ensures status == Err ==> unchanged(old(Conversion.Footprint(recv)))
  {
    if len == 0 || len > MaxStrLen || value.None? || recv == null {
      return Err;
    }
    var text := value.value[..len];
    if text[0] == '#' {
      status := Hex.ParseHex(text, recv);
      return;
    }
    status := Functions.ParseCssFunction(text, recv, math);
    if status == NotAFunction {
      status := Names.ParseCssColorName(text, recv, table, slot);
    }
  }

  // ---------------------------------------------------------------------
  // vbt_parse_z and vbt__strlen_safe

  /**
   * The memory behind a non-null pointer can be scanned for a terminator:
   * it holds a NUL, or extends past `limit` characters.
   */
  predicate Scannable(buf: string, limit: nat)
  {
    |buf| > limit || '\0' in buf
  }

  /** The position of the first NUL at or after `i`, or the end of the text. */
  function NulIndex(buf: string, i: nat): (n: nat)
    requires i <= |buf|
    ensures i <= n <= |buf|
    ensures n < |buf| ==> buf[n] == '\0'
    ensures forall k :: i <= k < n ==> buf[k] != '\0'
    decreases |buf| - i
  {
    if i == |buf| || buf[i] == '\0' then i else NulIndex(buf, i + 1)
  }

  /**
   * The length of a C string of at most `limit` characters: 0 for a null
   * pointer, and also 0 (the overflow case) when no NUL occurs within the
   * first `limit + 1` characters.
   */
  function SafeLength(str: Option<string>, limit: nat): (n: nat)
    requires str.Some? ==> Scannable(str.value, limit)
    ensures n <= limit
    ensures str.None? ==> n == 0
    ensures str.Some? && n > 0 ==> n < |str.value| && str.value[n] == '\0' && '\0' !in str.value[..n]
    ensures str.Some? && n == 0 ==>
      (0 < |str.value| && str.value[0] == '\0') || (limit < |str.value| && '\0' !in str.value[..limit + 1])
  {
    if str.None? then 0
    else
      var buf := str.value;
      var k := NulIndex(buf, 0);
      if k <= limit then k else 0
  }

  /**
   * vbt__strlen_safe: count characters up to the terminator or the limit;
   * reaching the limit without having seen the terminator is an overflow
   * reported as length 0.
   */
  method StrlenSafe(str: Option<string>, limit: nat) returns (len: nat)
    requires str.Some? ==> Scannable(str.value, limit)
    ensures len == SafeLength(str, limit)
  {
    len := 0;
    if str.None? {
      return len;
    }
    var buf := str.value;
    while len < limit && buf[len] != '\0'
      invariant len <= limit && len <= |buf|
      invariant NulIndex(buf, 0) == NulIndex(buf, len)
    {
      len := len + 1;
    }
    if len == limit && buf[len] != '\0' {
      return 0;
    }
  }

  /**
   * vbt_parse_z: vbt_parse on the NUL-terminated text, so a text of no
   * characters or of more than MaxStrLen characters is an error.
   */
  method ParseZ(value: Option<string>, recv: Receiver?, math: Conversion.ColorMath,
                table: seq<Names.Entry>, slot: string -> nat)
    returns (status: Status)
    requires value.Some? ==> Scannable(value.value, MaxStrLen)
    modifies Conversion.Footprint(recv)
    ensures status == Success || status == Err
    ensures status == Success <==>
      var len := SafeLength(value, MaxStrLen);
      !Refused(value, len, recv) && TextColor(math, table, slot, value.value[..len]).Some?
    ensures status == Success ==>
      recv.Shows(TextColor(math, table, slot, value.value[..SafeLength(value, MaxStrLen)]).value) && recv.KeptLayout()
    ensures status == Err ==> unchanged(old(Conversion.Footprint(recv)))
  {
    var len := StrlenSafe(value, MaxStrLen);
    status := Parse(value, len, recv, math, table, slot);
  }

  // ---------------------------------------------------------------------
  // Properties

  /** A text with a NUL within the limit is measured up to that NUL. */
  lemma TerminatedLength(buf: string, n: nat)
    requires n <= MaxStrLen && n < |buf| && buf[n] == '\0' && '\0' !in buf[..n]
    ensures SafeLength(Some(buf), MaxStrLen) == n
  {
    assert forall k :: 0 <= k < n ==> buf[k] == buf[..n][k];
    NulIndexAt(buf, 0, n);
  }

  lemma {:induction false} NulIndexAt(buf: string, i: nat, n: nat)
    requires i <= n < |buf| && buf[n] == '\0' && forall k :: i <= k < n ==> buf[k] != '\0'
    ensures NulIndex(buf, i) == n
    decreases n - i
  {
    if i < n {
      NulIndexAt(buf, i + 1, n);
    }
  }

  /** Without a NUL among its first 129 characters a text measures 0, which vbt_parse refuses. */
  lemma OverlongIsRefused(buf: string, recv: Receiver?)
    requires |buf| > MaxStrLen && '\0' !in buf[..MaxStrLen + 1]
    ensures SafeLength(Some(buf), MaxStrLen) == 0
    ensures Refused(Some(buf), SafeLength(Some(buf), MaxStrLen), recv)
  {
    assert forall k :: 0 <= k <= MaxStrLen ==> buf[k] == buf[..MaxStrLen + 1][k];
  }

  /**
   * Only texts that are not function calls reach the colour names: a text
   * that starts like a known function and has at least ten characters never
   * does, even when it is malformed.
   */
  lemma NamesOnlyForNonCalls(math: Conversion.ColorMath, table: seq<Names.Entry>, slot: string -> nat, s: string)
    requires |s| >= Functions.MinCallLength && s[0] != '#' && Functions.MatchName(s).Some?
    ensures TextColor(math, table, slot, s) == Functions.FunctionColor(math, s)
  {
  }
}
