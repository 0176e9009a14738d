/** Decimal text of non-negative integers: Python's `str(n)` for the part
    ordinals and program numbers, and `float(s)` read back from such a string. */
module Decimal {
  import opened Results

  predicate IsDigit(c: char) {
    '0' <= c <= '9'
  }

  predicate AllDigits(s: string) {
    forall i :: 0 <= i < |s| ==> IsDigit(s[i])
  }

  function DigitChar(d: nat): (c: char)
    requires d < 10
    ensures IsDigit(c)
  {
    ('0' as int + d) as char
  }

  function DigitValue(c: char): (d: nat)
    requires IsDigit(c)
    ensures d < 10
  {
    c as int - '0' as int
  }

  /** `str(n)`: the shortest decimal spelling of `n`, most significant digit first. */
  function NatToString(n: nat): (s: string)
    ensures |s| >= 1
    ensures AllDigits(s)
    ensures n >= 10 <==> |s| >= 2
  {
    if n < 10 then [DigitChar(n)] else NatToString(n / 10) + [DigitChar(n % 10)]
  }

  /** The value of a string of decimal digits. */
  function DigitsValue(s: string): nat
    requires AllDigits(s)
  {
    if |s| == 0 then 0 else DigitsValue(s[..|s| - 1]) * 10 + DigitValue(s[|s| - 1])
  }

  /** `float(s)` restricted to what the model ever feeds it: a non-empty run of
      decimal digits. Anything else makes Python raise, which is `None` here. */
  function ParseNat(s: string): (r: Option<nat>)
    ensures r.Some? <==> |s| >= 1 && AllDigits(s)
  {
    if |s| >= 1 && AllDigits(s) then Some(DigitsValue(s)) else None
  }

  lemma {:induction false} DigitsOfNatToString(n: nat)
    ensures DigitsValue(NatToString(n)) == n
    decreases n
  {
    var s := NatToString(n);
    if n < 10 {
      assert s[..0] == [];
    } else {
      DigitsOfNatToString(n / 10);
      assert s[..|s| - 1] == NatToString(n / 10);
    }
  }

  /** Reading back what `str` wrote gives the same number: `float(str(n)) == n`. */
  lemma ParseNatToString(n: nat)
    ensures ParseNat(NatToString(n)) == Some(n)
  {
    DigitsOfNatToString(n);
  }

  /** Distinct numbers have distinct decimal spellings. */
  lemma NatToStringInjective(a: nat, b: nat)
    requires NatToString(a) == NatToString(b)
    ensures a == b
  {
    DigitsOfNatToString(a);
    DigitsOfNatToString(b);
  }

  /** Length of the leading run of decimal digits. */
  function DigitRunLength(s: string): (n: nat)
    ensures n <= |s|
  {
    if |s| == 0 || !IsDigit(s[0]) then 0 else 1 + DigitRunLength(s[1..])
  }

  lemma {:induction false} DigitRunLengthOf(d: string, sep: char, r: string)
    requires AllDigits(d) && !IsDigit(sep)
    ensures DigitRunLength(d + [sep] + r) == |d|
    decreases |d|
  {
    var s := d + [sep] + r;
    if |d| > 0 {
      assert s[1..] == d[1..] + [sep] + r;
      DigitRunLengthOf(d[1..], sep, r);
    }
  }

  /** A run of digits followed by a non-digit separator can be split off a
      string in only one way. */
  lemma DigitPrefixUnique(d1: string, r1: string, d2: string, r2: string, sep: char)
    requires AllDigits(d1) && AllDigits(d2) && !IsDigit(sep)
    requires d1 + [sep] + r1 == d2 + [sep] + r2
    ensures d1 == d2 && r1 == r2
  {
    var s := d1 + [sep] + r1;
    DigitRunLengthOf(d1, sep, r1);
    DigitRunLengthOf(d2, sep, r2);
    assert d1 == s[..|d1|];
    assert d2 == (d2 + [sep] + r2)[..|d2|];
    assert r1 == s[|d1| + 1..];
    assert r2 == (d2 + [sep] + r2)[|d2| + 1..];
  }
}
