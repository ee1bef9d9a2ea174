/** The few Python `str` operations the handlers rely on: `strip()`, `lower()`,
    the slices `s[:n]` and `s[n:]`, and the decimal format `"{:d}"`.
    Strings are sequences of Unicode scalar values, so `|s|` is Python's `len(s)`. */
module PyStr {

  /** Python's `str.isspace()`: the characters `str.strip()` removes. */
  predicate IsSpace(c: char) {
    var k := c as int;
    (0x09 <= k <= 0x0D) || (0x1C <= k <= 0x20) || k == 0x85 || k == 0xA0
    || k == 0x1680 || (0x2000 <= k <= 0x200A) || k == 0x2028 || k == 0x2029
    || k == 0x202F || k == 0x205F || k == 0x3000
  }

  /** Every character of `s` is whitespace (true of the empty string). */
  predicate AllSpace(s: string) {
    forall i :: 0 <= i < |s| ==> IsSpace(s[i])
  }

  /** How many whitespace characters `s` begins with: all of them are whitespace
      and the next one, if any, is not. */
  function LeadingSpaces(s: string): (n: nat)
    ensures n <= |s| && AllSpace(s[..n])
    ensures n == |s| || !IsSpace(s[n])
  {
    if s != [] && IsSpace(s[0]) then
      var m := LeadingSpaces(s[1..]);
      assert forall i :: 1 <= i < 1 + m ==> s[i] == s[1..][..m][i - 1];
      1 + m
    else 0
  }

  /** How many whitespace characters `s` ends with: all of them are whitespace
      and the one before them, if any, is not. */
  function TrailingSpaces(s: string): (n: nat)
    ensures n <= |s| && AllSpace(s[|s| - n..])
    ensures n == |s| || !IsSpace(s[|s| - n - 1])
  {
    if s != [] && IsSpace(s[|s| - 1]) then
      var m := TrailingSpaces(s[..|s| - 1]);
      assert forall i :: |s| - 1 - m <= i < |s| - 1 ==> s[i] == s[..|s| - 1][|s| - 1 - m..][i - (|s| - 1 - m)];
      1 + m
    else 0
  }

  /** `s.lstrip()`: the rest after the leading whitespace. */
  function StripLeft(s: string): string {
    s[LeadingSpaces(s)..]
  }

  /** `s.rstrip()`: what comes before the trailing whitespace. */
  function StripRight(s: string): string {
    s[..|s| - TrailingSpaces(s)]
  }

  /** `s.strip()`. */
  function Strip(s: string): string {
    StripRight(StripLeft(s))
  }

  /** The stripped string neither begins nor ends with whitespace. */
  lemma StripEdges(s: string)
    ensures Strip(s) == [] || (!IsSpace(Strip(s)[0]) && !IsSpace(Strip(s)[|Strip(s)| - 1]))
  {
    var l := StripLeft(s);
    var r := StripRight(l);
    if r != [] {
      assert r[0] == l[0] == s[LeadingSpaces(s)];
      assert r[|r| - 1] == l[|l| - TrailingSpaces(l) - 1];
    }
  }

  /** Stripping twice is stripping once: a stripped field is stored stripped. */
  lemma StripIdempotent(s: string)
    ensures Strip(Strip(s)) == Strip(s)
  {
    var r := Strip(s);
    StripEdges(s);
    StripTrimmed(r);
  }

  /** A string strips to `''` exactly when it is all whitespace: this is what
      the handlers' "empty after stripping" test rejects. */
  lemma {:induction false} StripEmptyIff(s: string)
    ensures Strip(s) == [] <==> AllSpace(s)
  {
    var lo := LeadingSpaces(s);
    if AllSpace(s) {
      assert lo == |s|;
      assert StripLeft(s) == [];
    } else {
      // some character is not whitespace, so the leading whitespace stops before the end
      assert lo < |s|;
      StripEdges(s);
      assert StripLeft(s)[0] == s[lo];
      assert TrailingSpaces(StripLeft(s)) < |StripLeft(s)|;
    }
  }

  /** A string with no whitespace at either end is its own strip. */
  lemma StripTrimmed(s: string)
    requires s == [] || (!IsSpace(s[0]) && !IsSpace(s[|s| - 1]))
    ensures Strip(s) == s
  {
  }

  /** Python's `c.lower()`, on the ASCII letters. */
  function LowerChar(c: char): char {
    if 'A' <= c <= 'Z' then (c as int + 32) as char else c
  }

  /** `s.lower()`, character by character. */
  function Lower(s: string): (r: string)
    ensures |r| == |s|
    ensures forall i :: 0 <= i < |s| ==> r[i] == LowerChar(s[i])
  {
    if s == [] then [] else [LowerChar(s[0])] + Lower(s[1..])
  }

  /** `s[:n]` for `n >= 0`: a slice past the end stops at the end. */
  function Take(s: string, n: nat): (r: string)
    ensures |r| == if n <= |s| then n else |s|
    ensures r <= s
  {
    if n <= |s| then s[..n] else s
  }

  /** `s[n:]` for `n >= 0`: a slice past the end is empty; with `s[:n]` it gives back `s`. */
  function Drop(s: string, n: nat): (r: string)
    ensures Take(s, n) + r == s
  {
    if n <= |s| then s[n..] else []
  }

  /** The decimal digit `d`. */
  function DigitChar(d: nat): (c: char)
    requires d < 10
    ensures '0' <= c <= '9' && c as int - '0' as int == d
  {
    (d + '0' as int) as char
  }

  predicate IsDigits(s: string) {
    forall i :: 0 <= i < |s| ==> '0' <= s[i] <= '9'
  }

  /** The decimal numeral of `n`: at least one digit, and no leading zero. */
  function NatToDecimal(n: nat): (r: string)
    ensures |r| >= 1 && IsDigits(r)
    ensures r[0] == '0' ==> n == 0
  {
    if n < 10 then [DigitChar(n)] else NatToDecimal(n / 10) + [DigitChar(n % 10)]
  }

  /** `"{:d}".format(n)`: a minus sign for negative numbers, then the digits, with no
      leading zero either way. */
  function FormatInt(n: int): (r: string)
    ensures |r| >= 1
    ensures (r[0] == '-') <==> n < 0
    ensures r[0] == '0' ==> n == 0
    ensures n < 0 ==> |r| >= 2 && r[1] != '0'
  {
    if n < 0 then "-" + NatToDecimal(-n) else NatToDecimal(n)
  }

  /** The value of a numeral: the reference reading of what `NatToDecimal` writes. */
  function DecimalValue(s: string): nat
    requires IsDigits(s)
  {
    if s == [] then 0 else DecimalValue(s[..|s| - 1]) * 10 + (s[|s| - 1] as int - '0' as int)
  }

  /** `int(s)` for what `FormatInt` produces. */
  function ParseInt(s: string): int
    requires s != [] && (s[0] == '-' ==> IsDigits(s[1..])) && (s[0] != '-' ==> IsDigits(s))
  {
    if s[0] == '-' then -(DecimalValue(s[1..]) as int) else DecimalValue(s)
  }

  lemma {:induction false} NatToDecimalRoundTrip(n: nat)
    ensures DecimalValue(NatToDecimal(n)) == n
  {
    if n >= 10 {
      NatToDecimalRoundTrip(n / 10);
      var r := NatToDecimal(n);
      assert r[..|r| - 1] == NatToDecimal(n / 10);
    }
  }

  /** Reading back `"{:d}".format(n)` gives `n`: the code in a reply identifies the exit status. */
  lemma FormatIntRoundTrip(n: int)
    ensures var r := FormatInt(n);
      (r[0] == '-' ==> IsDigits(r[1..])) && (r[0] != '-' ==> IsDigits(r)) && ParseInt(r) == n
  {
    if n < 0 {
      NatToDecimalRoundTrip(-n);
      assert FormatInt(n)[1..] == NatToDecimal(-n);
    } else {
      NatToDecimalRoundTrip(n);
    }
  }

  function Pow10(k: nat): (p: nat)
    ensures p >= 1
  {
    if k == 0 then 1 else 10 * Pow10(k - 1)
  }

  /** A number below 10^k takes at most k digits. */
  lemma {:induction false} NatToDecimalLength(n: nat, k: nat)
    requires k >= 1 && n < Pow10(k)
    ensures |NatToDecimal(n)| <= k
  {
    if n >= 10 {
      assert k >= 2;
      NatToDecimalLength(n / 10, k - 1);
    }
  }

  /** An exit code in the signed or the unsigned 32-bit range is written with at
      most eleven characters. */
  lemma FormatIntLength32(n: int)
    requires -0x8000_0000 <= n < 0x1_0000_0000
    ensures |FormatInt(n)| <= 11
  {
    assert Pow10(10) == 10_000_000_000;
    if n < 0 { NatToDecimalLength(-n, 10); } else { NatToDecimalLength(n, 10); }
  }
}
