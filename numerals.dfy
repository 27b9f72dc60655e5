/**
 * Rendering of non-negative integers as QString::number(n, base) does:
 * digits 0-9 then lower-case letters, most significant first, no leading
 * zeros, "0" for zero.
 */
module Numerals {

  const Digits: string := "0123456789abcdefghijklmnopqrstuvwxyz"

  function DigitValue(c: char): int {
    if '0' <= c <= '9' then c as int - '0' as int
    else if 'a' <= c <= 'z' then c as int - 'a' as int + 10
    else -1
  }

  /** QString::number(n, base) for 2 <= base <= 36. */
  function ToBase(n: nat, base: nat): (r: string)
    requires 2 <= base <= 36
    ensures |r| > 0
    ensures forall k :: 0 <= k < |r| ==> r[k] in Digits
    decreases n
  {
    if n < base then [Digits[n]]
    else
      DivFacts(n, base);
      ToBase(n / base, base) + [Digits[n % base]]
  }

  lemma DivFacts(n: nat, base: nat)
    requires 2 <= base <= n
    ensures n == (n / base) * base + n % base
    ensures 0 <= n % base < base
    ensures 0 < n / base < n
  {
    var q := n / base;
    assert base * q <= n;
    assert q >= 1;
    assert base * q >= 2 * q;
  }

  /** The value of a digit string in the given base (the reader of ToBase). */
  function FromBase(s: string, base: nat): int
  {
    if s == [] then 0 else FromBase(s[..|s| - 1], base) * base + DigitValue(s[|s| - 1])
  }

  lemma DigitValueOfDigits(d: nat)
    requires d < 36
    ensures DigitValue(Digits[d]) == d
  {
  }

  /** Reading back what ToBase wrote gives the number: the rendering is injective. */
  lemma {:induction false} FromToBase(n: nat, base: nat)
    requires 2 <= base <= 36
    ensures FromBase(ToBase(n, base), base) == n
    decreases n
  {
    var r := ToBase(n, base);
    if n < base {
      DigitValueOfDigits(n);
    } else {
      DivFacts(n, base);
      var q, d := n / base, n % base;
      FromToBase(q, base);
      DigitValueOfDigits(d);
      assert r == ToBase(q, base) + [Digits[d]];
      assert r[..|r| - 1] == ToBase(q, base);
      assert FromBase(r, base) == FromBase(ToBase(q, base), base) * base + DigitValue(Digits[d]);
    }
  }

  lemma ToBaseInjective(m: nat, n: nat, base: nat)
    requires 2 <= base <= 36
    requires m != n
    ensures ToBase(m, base) != ToBase(n, base)
  {
    FromToBase(m, base);
    FromToBase(n, base);
  }

  /** QString::number(n) */
  function Decimal(n: nat): string
  {
    ToBase(n, 10)
  }
}
