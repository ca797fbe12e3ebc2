/**
 Decimal text of natural numbers, as JavaScript's `Number.prototype.toString`
 writes an integer below 10^21, together with the reading `Value` that
 inverts it. From 10^21 on JavaScript switches to exponent form, which is not
 modelled.
 */
module Decimal {

  predicate IsDigit(c: char) {
    '0' <= c <= '9'
  }

  predicate AllDigits(s: string) {
    forall i :: 0 <= i < |s| ==> IsDigit(s[i])
  }

  function DigitValue(c: char): nat
    requires IsDigit(c)
  {
    c as int - '0' as int
  }

  function DigitChar(d: nat): (c: char)
    requires d < 10
    ensures IsDigit(c) && DigitValue(c) == d
  {
    ('0' as int + d) as char
  }

  /** The number a string of digits denotes, most significant digit first. */
  function Value(s: string): nat
    requires AllDigits(s)
  {
    if s == [] then 0 else Value(s[..|s| - 1]) * 10 + DigitValue(s[|s| - 1])
  }

  /** No leading zero, except for zero itself. */
  predicate Canonical(s: string) {
    |s| >= 1 && AllDigits(s) && (s[0] == '0' ==> |s| == 1)
  }

  /** The decimal text of `n`: canonical digits that read back as `n`, one
      character long exactly below ten and at most two exactly below a
      hundred. */
  function FromNat(n: nat): (r: string)
    ensures Canonical(r)
    ensures Value(r) == n
    ensures |r| == 1 <==> n < 10
    ensures |r| <= 2 <==> n < 100
  {
    if n < 10 then [DigitChar(n)]
    else
      var p := FromNat(n / 10);
      var r := p + [DigitChar(n % 10)];
      assert r[..|r| - 1] == p;
      r
  }

  /** A canonical digit string with a nonzero first digit of value at least one. */
  lemma {:induction false} LeadingDigitBound(s: string)
    requires AllDigits(s) && |s| >= 1 && s[0] != '0'
    ensures Value(s) >= 1
  {
    if |s| > 1 {
      var p := s[..|s| - 1];
      assert p[0] == s[0];
      LeadingDigitBound(p);
    }
  }

  /** The other round trip: a canonical digit string is the text of its value. */
  lemma {:induction false} FromValue(s: string)
    requires Canonical(s)
    ensures FromNat(Value(s)) == s
  {
    var c := s[|s| - 1];
    if |s| == 1 {
      assert Value(s) == Value([]) * 10 + DigitValue(c);
      assert [DigitChar(DigitValue(c))] == s;
    } else {
      var p := s[..|s| - 1];
      assert p[0] == s[0];
      LeadingDigitBound(p);
      FromValue(p);
      var v := Value(s);
      assert v == Value(p) * 10 + DigitValue(c);
      assert v / 10 == Value(p) && v % 10 == DigitValue(c);
      assert DigitChar(DigitValue(c)) == c;
      assert s == p + [c];
    }
  }
}
