/**
 * Unsigned decimal text: how the source renders integers (`%lu`, the
 * `setw`/`setfill('0')` stream insertion) and how `sscanf` reads a run of
 * digits back.
 */
module Digits {

  predicate IsDigit(c: char) {
    '0' <= c <= '9'
  }

  predicate AllDigits(s: string) {
    forall i :: 0 <= i < |s| ==> IsDigit(s[i])
  }

  function DigitChar(d: nat): (c: char)
    requires d < 10
    ensures IsDigit(c) && c as int - '0' as int == d
  {
    ('0' as int + d) as char
  }

  function Pow10(k: nat): (p: nat)
    ensures p >= 1
  {
    if k == 0 then 1 else 10 * Pow10(k - 1)
  }

  /** Value of a digit string, most significant digit first. */
  function Value(s: string): nat
    requires AllDigits(s)
  {
    if s == [] then 0 else 10 * Value(s[..|s| - 1]) + (s[|s| - 1] as int - '0' as int)
  }

  /** Shortest decimal rendering of `n` (no leading zeros). */
  function Decimal(n: nat): (s: string)
    ensures 1 <= |s| && AllDigits(s)
    ensures s[0] == '0' ==> n == 0
  {
    if n < 10 then [DigitChar(n)] else Decimal(n / 10) + [DigitChar(n % 10)]
  }

  lemma {:induction false} ValueOfDecimal(n: nat)
    ensures Value(Decimal(n)) == n
  {
    if n >= 10 {
      var s := Decimal(n);
      assert s[..|s| - 1] == Decimal(n / 10);
      ValueOfDecimal(n / 10);
    }
  }

  lemma {:induction false} ValueOfConcat(a: string, b: string)
    requires AllDigits(a) && AllDigits(b)
    ensures AllDigits(a + b)
    ensures Value(a + b) == Value(a) * Pow10(|b|) + Value(b)
  {
    if b == [] {
      assert a + b == a;
    } else {
      var ab := a + b;
      var b' := b[..|b| - 1];
      assert ab[..|ab| - 1] == a + b';
      ValueOfConcat(a, b');
      ShiftDigit(Value(a), Pow10(|b'|), Value(b'), b[|b| - 1] as int - '0' as int);
    }
  }

  lemma ShiftDigit(va: int, p: int, vb: int, d: int)
    ensures 10 * (va * p + vb) + d == va * (10 * p) + (10 * vb + d)
  {
  }

  /** `n` needs at most `k` digits exactly when it is below 10^k. */
  lemma {:induction false} DecimalLength(n: nat, k: nat)
    requires k >= 1
    ensures |Decimal(n)| <= k <==> n < Pow10(k)
  {
    if n >= 10 {
      if k == 1 {
        DecimalAtLeastTwo(n);
      } else {
        DecimalLength(n / 10, k - 1);
      }
    }
  }

  lemma DecimalAtLeastTwo(n: nat)
    requires n >= 10
    ensures |Decimal(n)| >= 2
  {
  }

  /** `s` left-padded with '0' to `width` characters (`std::setw` with
      `std::setfill('0')`); longer texts are left as they are. */
  function ZeroPad(s: string, width: nat): (r: string)
    ensures |r| == if |s| < width then width else |s|
    ensures |s| <= |r| && r[|r| - |s|..] == s
    ensures forall i :: 0 <= i < |r| - |s| ==> r[i] == '0'
  {
    if |s| >= width then s else seq(width - |s|, _ => '0') + s
  }

  lemma {:induction false} ValueOfZeroPad(s: string, width: nat)
    requires AllDigits(s)
    ensures AllDigits(ZeroPad(s, width)) && Value(ZeroPad(s, width)) == Value(s)
  {
    var r := ZeroPad(s, width);
    var zeros := r[..|r| - |s|];
    assert r == zeros + s;
    assert AllDigits(zeros);
    ValueOfConcat(zeros, s);
    ValueOfZeros(zeros);
  }

  lemma {:induction false} ValueOfZeros(z: string)
    requires forall i :: 0 <= i < |z| ==> z[i] == '0'
    ensures AllDigits(z) && Value(z) == 0
  {
    if z != [] {
      ValueOfZeros(z[..|z| - 1]);
    }
  }

  /** Length of the run of digits `s` starts with: how far a `%llu` or the
      integral part of a `%lf` conversion reads. */
  function LeadingDigits(s: string): (k: nat)
    ensures k <= |s| && AllDigits(s[..k])
    ensures k < |s| ==> !IsDigit(s[k])
  {
    if s == [] || !IsDigit(s[0]) then 0 else 1 + LeadingDigits(s[1..])
  }

  /** A digit run followed by a non-digit is read in full and no further. */
  lemma {:induction false} LeadingDigitsOfRun(d: string, rest: string)
    requires AllDigits(d)
    requires rest == [] || !IsDigit(rest[0])
    ensures LeadingDigits(d + rest) == |d|
  {
    if d != [] {
      assert (d + rest)[1..] == d[1..] + rest;
      LeadingDigitsOfRun(d[1..], rest);
    }
  }
}
