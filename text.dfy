/** Text helpers shared by the model: decimal rendering of integers (slug
    suffixes, verification codes), substring search, and the ASCII case
    folding that PHP 8's `strtolower` and `stripos` apply. */
module Text {

  predicate IsDigit(c: char) {
    '0' <= c <= '9'
  }

  predicate AllDigits(s: string) {
    forall i :: 0 <= i < |s| ==> IsDigit(s[i])
  }

  function DigitChar(d: nat): (c: char)
    requires d < 10
    ensures IsDigit(c)
  {
    (('0' as int) + d) as char
  }

  function DigitValue(c: char): (d: nat)
    requires IsDigit(c)
    ensures d < 10
  {
    (c as int) - ('0' as int)
  }

  /** PHP's `(string) $n` for a non-negative integer: no sign, no leading zero. */
  function DecimalString(n: nat): (s: string)
    ensures 1 <= |s| && AllDigits(s)
    ensures (|s| > 1) == (n >= 10)
    decreases n
  {
    if n < 10 then [DigitChar(n)] else DecimalString(n / 10) + [DigitChar(n % 10)]
  }

  /** The number a string of decimal digits denotes (leading zeros allowed). */
  function ParseDigits(s: string): nat
    requires AllDigits(s)
    decreases |s|
  {
    if s == [] then 0 else ParseDigits(s[..|s| - 1]) * 10 + DigitValue(s[|s| - 1])
  }

  /** Reading back a rendered number gives the number. */
  lemma {:induction false} ParseDecimalString(n: nat)
    ensures ParseDigits(DecimalString(n)) == n
    decreases n
  {
    var s := DecimalString(n);
    if n >= 10 {
      ParseDecimalString(n / 10);
      assert s[..|s| - 1] == DecimalString(n / 10);
    }
  }

  /** Distinct numbers render differently. */
  lemma DecimalStringInjective(m: nat, n: nat)
    requires DecimalString(m) == DecimalString(n)
    ensures m == n
  {
    ParseDecimalString(m);
    ParseDecimalString(n);
  }

  /** Digit strings of equal length denoting the same number are equal. */
  lemma {:induction false} ParseDigitsInjective(s: string, t: string)
    requires AllDigits(s) && AllDigits(t) && |s| == |t|
    requires ParseDigits(s) == ParseDigits(t)
    ensures s == t
    decreases |s|
  {
    if s != [] {
      var n := |s| - 1;
      var ds, dt := DigitValue(s[n]), DigitValue(t[n]);
      assert ParseDigits(s[..n]) * 10 + ds == ParseDigits(t[..n]) * 10 + dt;
      assert ds == dt && ParseDigits(s[..n]) == ParseDigits(t[..n]);
      ParseDigitsInjective(s[..n], t[..n]);
      assert s == s[..n] + [s[n]] && t == t[..n] + [t[n]];
    }
  }

  /** A string of zeros denotes zero. */
  lemma {:induction false} ParseZeros(s: string)
    requires forall i :: 0 <= i < |s| ==> s[i] == '0'
    ensures AllDigits(s) && ParseDigits(s) == 0
    decreases |s|
  {
    if s != [] {
      ParseZeros(s[..|s| - 1]);
    }
  }

  function Pow10(k: nat): (p: nat)
    ensures p >= 1
  {
    if k == 0 then 1 else 10 * Pow10(k - 1)
  }

  /** A number has `k` digits exactly when it lies in [10^(k-1), 10^k). */
  lemma {:induction false} DecimalStringLength(n: nat, k: nat)
    requires 1 <= k
    requires (k == 1 || Pow10(k - 1) <= n) && n < Pow10(k)
    ensures |DecimalString(n)| == k
    decreases k
  {
    if k > 1 {
      DecimalStringLength(n / 10, k - 1);
    }
  }

  /** Every integer in 100000..999999 renders as exactly six digits. */
  lemma SixDigitRendering(n: nat)
    requires 100000 <= n <= 999999
    ensures |DecimalString(n)| == 6 && AllDigits(DecimalString(n))
  {
    assert Pow10(5) == 100000 && Pow10(6) == 1000000;
    DecimalStringLength(n, 6);
  }

  predicate StartsWith(s: string, prefix: string) {
    |prefix| <= |s| && s[..|prefix|] == prefix
  }

  /** `str_contains` / `Str::contains`: `needle` occurs somewhere in `s`. */
  predicate Contains(s: string, needle: string) {
    exists i :: 0 <= i <= |s| && StartsWith(s[i..], needle)
  }

  /** ASCII lower-casing, as PHP 8's `strtolower` does (no locale). */
  function Lower(c: char): (l: char)
    ensures 'A' <= c <= 'Z' ==> l as int == c as int + 32
    ensures !('A' <= c <= 'Z') ==> l == c
  {
    if 'A' <= c <= 'Z' then ((c as int) + 32) as char else c
  }

  function LowerString(s: string): (l: string)
    ensures |l| == |s|
    ensures forall i :: 0 <= i < |s| ==> l[i] == Lower(s[i])
  {
    if s == [] then [] else [Lower(s[0])] + LowerString(s[1..])
  }

  /** `stripos($s, $needle) !== false` for a lower-case needle. */
  predicate ContainsIgnoringCase(s: string, needle: string) {
    Contains(LowerString(s), LowerString(needle))
  }
}
