// Decimal numbers as streams and std::to_string write them.
module Decimal {
  lemma Assoc(x: string, y: string, z: string)
    ensures x + y + z == x + (y + z)
  {
  }

  predicate IsDigit(c: char) { '0' <= c <= '9' }

  function DigitOf(n: nat): char
    requires n < 10
  {
    ('0' as int + n) as char
  }

  function ValueOf(c: char): nat
    requires IsDigit(c)
  {
    c as int - '0' as int
  }

  function Digits(n: nat): (s: string)
    ensures |s| > 0 && forall i :: 0 <= i < |s| ==> IsDigit(s[i])
  {
    if n < 10 then [DigitOf(n)] else Digits(n / 10) + [DigitOf(n % 10)]
  }

  // The digits at the front of s.
  function Front(s: string): (k: nat)
    ensures k <= |s| && (forall i :: 0 <= i < k ==> IsDigit(s[i])) && (k < |s| ==> !IsDigit(s[k]))
  {
    if s == [] || !IsDigit(s[0]) then 0 else 1 + Front(s[1..])
  }

  // The number that a string of digits stands for.
  function Value(s: string): nat
    requires forall i :: 0 <= i < |s| ==> IsDigit(s[i])
  {
    if s == [] then 0 else 10 * Value(s[..|s| - 1]) + ValueOf(s[|s| - 1])
  }

  lemma {:induction false} ValueOfDigits(n: nat)
    ensures Value(Digits(n)) == n
  {
    if n < 10 {
      assert Digits(n)[..0] == [];
    } else {
      ValueOfDigits(n / 10);
      assert Digits(n)[..|Digits(n)| - 1] == Digits(n / 10);
    }
  }

  ghost predicate NoLeadingDigit(s: string) { s == [] || !IsDigit(s[0]) }

  // Digits followed by something else are read back, and the rest is left.
  lemma ReadBack(n: nat, rest: string)
    requires NoLeadingDigit(rest)
    ensures var s := Digits(n) + rest; var k := Front(s);
            k == |Digits(n)| && Value(s[..k]) == n && s[k..] == rest
  {
    var d := Digits(n);
    var s := d + rest;
    var k := Front(s);
    assert forall i :: 0 <= i < |d| ==> IsDigit(s[i]);
    assert rest != [] ==> s[|d|] == rest[0];
    assert k == |d|;
    assert s[..k] == d;
    ValueOfDigits(n);
  }

  // Numbers and what follows them can be told apart.
  lemma DigitsInjective(m: nat, x: string, n: nat, y: string)
    requires NoLeadingDigit(x) && NoLeadingDigit(y) && Digits(m) + x == Digits(n) + y
    ensures m == n && x == y
  {
    ReadBack(m, x);
    ReadBack(n, y);
  }
}
