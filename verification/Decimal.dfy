/** Decimal numerals: `str(n)`, `int(s)` and runs of digits. */
module Decimal {

  predicate IsDigit(c: char) {
    '0' <= c <= '9'
  }

  /** `\d+` matched against the whole of `s`. */
  predicate IsNumeral(s: string) {
    s != "" && forall i :: 0 <= i < |s| ==> IsDigit(s[i])
  }

  function DigitValue(c: char): nat
    requires IsDigit(c)
  {
    (c - '0') as nat
  }

  /** `int(s)`. */
  function ToNat(s: string): nat
    requires forall i :: 0 <= i < |s| ==> IsDigit(s[i])
  {
    if s == "" then 0 else 10 * ToNat(s[..|s| - 1]) + DigitValue(s[|s| - 1])
  }

  /** `str(n)`. */
  function FromNat(n: nat): (s: string)
    ensures IsNumeral(s)
  {
    if n < 10 then [('0' as int + n) as char]
    else FromNat(n / 10) + [('0' as int + n % 10) as char]
  }

  lemma {:induction false} RoundTrip(n: nat)
    ensures ToNat(FromNat(n)) == n
  {
    var s := FromNat(n);
    if n >= 10 {
      RoundTrip(n / 10);
      assert s[..|s| - 1] == FromNat(n / 10);
    } else {
      assert s[..|s| - 1] == "";
    }
  }

  /** How many digits `s` starts with. */
  function DigitRun(s: string): (n: nat)
    ensures n <= |s|
    ensures forall i :: 0 <= i < n ==> IsDigit(s[i])
    ensures n < |s| ==> !IsDigit(s[n])
  {
    if s == "" || !IsDigit(s[0]) then 0 else 1 + DigitRun(s[1..])
  }

  lemma {:induction false} DigitRunAll(s: string, tail: string)
    requires forall i :: 0 <= i < |s| ==> IsDigit(s[i])
    requires tail == "" || !IsDigit(tail[0])
    ensures DigitRun(s + tail) == |s|
  {
    if s == "" {
      assert s + tail == tail;
    } else {
      assert (s + tail)[1..] == s[1..] + tail;
      DigitRunAll(s[1..], tail);
    }
  }
}
