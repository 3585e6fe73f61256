/** The pieces of ECMAScript string handling the core relies on:
    `String.prototype.trim` and the global `parseInt` (no radix argument). */
module JsText {
  import opened Wrappers

  /** ECMAScript WhiteSpace or LineTerminator code points, the set `trim` and
      `parseInt` skip. */
  predicate IsWhiteSpace(c: char) {
    var n := c as int;
    n == 0x09 || n == 0x0A || n == 0x0B || n == 0x0C || n == 0x0D || n == 0x20
    || n == 0xA0 || n == 0x1680 || (0x2000 <= n <= 0x200A)
    || n == 0x2028 || n == 0x2029 || n == 0x202F || n == 0x205F
    || n == 0x3000 || n == 0xFEFF
  }

  /** Every character of `s` in positions `lo` up to `hi` is white space. */
  predicate WhiteSpaceBetween(s: string, lo: int, hi: int) {
    forall k :: lo <= k < hi && 0 <= k < |s| ==> IsWhiteSpace(s[k])
  }

  /** The number of white-space characters `s` starts with. */
  function LeadingWhiteSpace(s: string): (n: nat)
    ensures n <= |s|
    ensures WhiteSpaceBetween(s, 0, n)
    ensures n < |s| ==> !IsWhiteSpace(s[n])
  {
    if |s| == 0 || !IsWhiteSpace(s[0]) then 0
    else
      var n := 1 + LeadingWhiteSpace(s[1..]);
      assert forall k :: 1 <= k < n ==> s[k] == s[1..][k - 1];
      n
  }

  /** Drops leading white space: the suffix of `s` that starts at its first
      non-white-space character. */
  function TrimStart(s: string): (r: string)
    ensures |r| <= |s| && r == s[|s| - |r|..]
    ensures WhiteSpaceBetween(s, 0, |s| - |r|)
    ensures r == [] || !IsWhiteSpace(r[0])
  {
    s[LeadingWhiteSpace(s)..]
  }

  /** Drops trailing white space: the prefix of `s` that ends at its last
      non-white-space character. */
  function TrimEnd(s: string): (r: string)
    ensures |r| <= |s| && r == s[..|r|]
    ensures WhiteSpaceBetween(s, |r|, |s|)
    ensures r == [] || !IsWhiteSpace(r[|r| - 1])
  {
    if |s| == 0 || !IsWhiteSpace(s[|s| - 1]) then s
    else TrimEnd(s[..|s| - 1])
  }

  /** `s.trim()`: the slice of `s` that starts after its leading white space
      and is followed only by white space. */
  function Trim(s: string): (r: string)
    ensures LeadingWhiteSpace(s) + |r| <= |s|
    ensures r == s[LeadingWhiteSpace(s)..LeadingWhiteSpace(s) + |r|]
    ensures WhiteSpaceBetween(s, LeadingWhiteSpace(s) + |r|, |s|)
    ensures r == [] || (!IsWhiteSpace(r[0]) && !IsWhiteSpace(r[|r| - 1]))
  {
    var i := LeadingWhiteSpace(s);
    var t := s[i..];
    var r := TrimEnd(t);
    assert forall k :: i + |r| <= k < |s| ==> s[k] == t[k - i];
    r
  }

  // ---------------------------------------------------------------------
  // parseInt(s) with no radix argument
  // ---------------------------------------------------------------------

  /** Value of a digit in radix 36 ('0'..'9', 'a'..'z', 'A'..'Z'); 36 for
      anything else, so `DigitValue(c) < radix` tests for a radix digit. */
  function DigitValue(c: char): (v: nat)
    ensures v <= 36
    ensures '0' <= c <= '9' ==> v == c as int - '0' as int
  {
    if '0' <= c <= '9' then c as int - '0' as int
    else if 'a' <= c <= 'z' then c as int - 'a' as int + 10
    else if 'A' <= c <= 'Z' then c as int - 'A' as int + 10
    else 36
  }

  /** Length of the longest prefix of `s` made of radix-`radix` digits. */
  function DigitRun(s: string, radix: nat): (k: nat)
    ensures k <= |s|
    ensures forall i :: 0 <= i < k ==> DigitValue(s[i]) < radix
    ensures k < |s| ==> DigitValue(s[k]) >= radix
  {
    if |s| == 0 || DigitValue(s[0]) >= radix then 0
    else 1 + DigitRun(s[1..], radix)
  }

  /** Positional value of a string of digits, most significant first. */
  function DigitsValue(d: string, radix: nat): nat {
    if |d| == 0 then 0
    else DigitsValue(d[..|d| - 1], radix) * radix + DigitValue(d[|d| - 1])
  }

  /** The magnitude `parseInt` reads after the sign: radix 16 after a
      `0x`/`0X` prefix, radix 10 otherwise, converting the longest run of
      digits; `None` when there is no digit. */
  function ParseMagnitude(u: string): Option<nat> {
    var hex := |u| >= 2 && u[0] == '0' && (u[1] == 'x' || u[1] == 'X');
    var radix := if hex then 16 else 10;
    var digits := if hex then u[2..] else u;
    var k := DigitRun(digits, radix);
    if k == 0 then None else Some(DigitsValue(digits[..k], radix))
  }

  /** `parseInt(s)`: skip leading white space, take an optional sign, then
      read the magnitude; `None` stands for `NaN`. */
  function ParseInt(s: string): Option<int> {
    var t := TrimStart(s);
    var signed := |t| > 0 && (t[0] == '-' || t[0] == '+');
    var m := ParseMagnitude(if signed then t[1..] else t);
    if m.None? then None
    else if signed && t[0] == '-' then Some(-(m.value as int))
    else Some(m.value as int)
  }

  /** Decimal notation of a natural number, as `String(n)` prints it. */
  function DecimalString(n: nat): (s: string)
    ensures |s| > 0
    ensures forall i :: 0 <= i < |s| ==> '0' <= s[i] <= '9'
    ensures s[0] == '0' ==> n == 0
  {
    var digit := ['0' + (n % 10) as char];
    if n < 10 then digit else DecimalString(n / 10) + digit
  }

  lemma {:induction false} DecimalDigitsValue(n: nat)
    ensures DigitsValue(DecimalString(n), 10) == n
  {
    var s := DecimalString(n);
    if n >= 10 {
      DecimalDigitsValue(n / 10);
      assert s[..|s| - 1] == DecimalString(n / 10);
    }
  }

  /** A plain decimal numeral (no sign, no white space), leading zeros
      included, is read in full. */
  lemma ParseIntOfNumeral(s: string)
    requires |s| > 0 && forall i :: 0 <= i < |s| ==> '0' <= s[i] <= '9'
    ensures ParseInt(s) == Some(DigitsValue(s, 10))
  {
    DecimalMagnitude(s);
    UnsignedParse(s);
  }

  /** A string that starts with a digit has no white space or sign to skip:
      `parseInt` reads its magnitude. */
  lemma UnsignedParse(s: string)
    requires |s| > 0 && '0' <= s[0] <= '9'
    ensures ParseMagnitude(s).Some? ==> ParseInt(s) == Some(ParseMagnitude(s).value as int)
  {
    assert !IsWhiteSpace(s[0]);
    assert TrimStart(s) == s;
  }

  /** A string of decimal digits has no `0x` prefix and is one run of
      radix-10 digits. */
  lemma DecimalMagnitude(s: string)
    requires |s| > 0 && forall i :: 0 <= i < |s| ==> '0' <= s[i] <= '9'
    ensures ParseMagnitude(s) == Some(DigitsValue(s, 10))
  {
    var hex := |s| >= 2 && s[0] == '0' && (s[1] == 'x' || s[1] == 'X');
    assert !hex by {
      assert |s| >= 2 ==> '0' <= s[1] <= '9';
    }
    var k := DigitRun(s, 10);
    assert k == |s| by {
      assert forall i :: 0 <= i < |s| ==> DigitValue(s[i]) < 10;
    }
    assert s[..k] == s;
  }

  /** Reading back what `String(n)` prints: `parseInt(String(n)) == n`. */
  lemma ParseIntOfDecimal(n: nat)
    ensures ParseInt(DecimalString(n)) == Some(n)
  {
    ParseIntOfNumeral(DecimalString(n));
    DecimalDigitsValue(n);
  }
}
