/** Numbers written in a base of at most sixteen, and read back. */
module Numerals {

  function Pow(b: nat, n: nat): nat {
    if n == 0 then 1 else b * Pow(b, n - 1)
  }

  /** n without its last digit. */
  function Shorter(base: nat, n: nat): (m: nat)
    requires 2 <= base <= n
    ensures 0 < m < n && n == m * base + Last(base, n)
  {
    var m := n / base;
    assert n == m * base + n % base;
    DivideLess(base, m, n);
    m
  }

  function Last(base: nat, n: nat): (d: nat)
    requires 2 <= base
    ensures d < base
  {
    n % base
  }

  lemma DivideLess(base: nat, m: nat, n: nat)
    requires 2 <= base <= n && m * base <= n < m * base + base
    ensures 0 < m < n
  {
    assert m * base >= m * 2;
  }

  /** How many digits n has: one for zero. */
  function Length(base: nat, n: nat): (k: nat)
    requires base >= 2
    ensures k >= 1
    decreases n
  {
    if n < base then 1 else 1 + Length(base, Shorter(base, n))
  }

  function DigitChar(d: nat, upper: bool): char
    requires d < 16
  {
    if d < 10 then '0' + d as char
    else if upper then 'A' + (d - 10) as char
    else 'a' + (d - 10) as char
  }

  function DigitValue(c: char): nat {
    if '0' <= c <= '9' then c as int - '0' as int
    else if 'a' <= c <= 'f' then c as int - 'a' as int + 10
    else if 'A' <= c <= 'F' then c as int - 'A' as int + 10
    else 16
  }

  lemma DigitCharValue(d: nat, upper: bool)
    requires d < 16
    ensures DigitValue(DigitChar(d, upper)) == d
  {
  }

  /** n in the given base, most significant digit first. */
  function Numeral(base: nat, n: nat, upper: bool): (s: string)
    requires 2 <= base <= 16
    ensures |s| == Length(base, n)
    decreases n
  {
    if n < base then [DigitChar(n, upper)]
    else Numeral(base, Shorter(base, n), upper) + [DigitChar(Last(base, n), upper)]
  }

  function Decimal(n: nat): string {
    Numeral(10, n, false)
  }

  /** The number a string of digits stands for. */
  function Value(base: nat, s: string): nat {
    if s == [] then 0 else Value(base, s[..|s| - 1]) * base + DigitValue(s[|s| - 1])
  }

  ghost predicate DigitsOf(base: nat, s: string) {
    forall i :: 0 <= i < |s| ==> DigitValue(s[i]) < base
  }

  /** Reading undoes writing, and what is written has no leading zero. */
  lemma {:induction false} ReadBack(base: nat, n: nat, upper: bool)
    requires 2 <= base <= 16
    ensures Value(base, Numeral(base, n, upper)) == n
    ensures DigitsOf(base, Numeral(base, n, upper))
    ensures n > 0 ==> Numeral(base, n, upper)[0] != '0'
    decreases n
  {
    var s := Numeral(base, n, upper);
    if n < base {
      DigitCharValue(n, upper);
      assert s[..0] == [];
    } else {
      ReadBack(base, Shorter(base, n), upper);
      DigitCharValue(Last(base, n), upper);
      assert s[..|s| - 1] == Numeral(base, Shorter(base, n), upper);
    }
  }

  lemma NumeralInjective(base: nat, m: nat, n: nat, upper: bool)
    requires 2 <= base <= 16 && Numeral(base, m, upper) == Numeral(base, n, upper)
    ensures m == n
  {
    ReadBack(base, m, upper);
    ReadBack(base, n, upper);
  }

  // ------------------------------------------------------------------ lengths and powers

  lemma {:induction false} PowPositive(b: nat, n: nat)
    requires b >= 1
    ensures Pow(b, n) >= 1
  {
    if n == 0 {
    } else {
      PowPositive(b, n - 1);
    }
  }

  lemma AtLeast(b: nat, x: nat)
    requires b >= 1
    ensures x <= b * x
  {
  }

  lemma {:induction false} PowMonotone(b: nat, m: nat, n: nat)
    requires b >= 1 && m <= n
    ensures Pow(b, m) <= Pow(b, n)
    decreases n - m
  {
    if m >= n {
    } else {
      PowMonotone(b, m, n - 1);
      AtLeast(b, Pow(b, n - 1));
    }
  }

  lemma ShorterBound(base: nat, m: nat, d: nat, p: nat)
    requires base >= 2 && d < base
    ensures m < p ==> m * base + d < base * p
    ensures p <= m ==> base * p <= m * base + d
  {
    if m < p { MulMonotone(base, m + 1, p); } else { MulMonotone(base, p, m); }
  }

  lemma MulMonotone(a: nat, x: nat, y: nat)
    requires x <= y
    ensures a * x <= a * y
  {
  }

  /** A number of k digits lies between two powers of the base. */
  lemma {:induction false} LengthBounds(base: nat, n: nat)
    requires base >= 2
    ensures n < Pow(base, Length(base, n))
    ensures n > 0 ==> Pow(base, Length(base, n) - 1) <= n
    decreases n
  {
    if n < base {
      assert Pow(base, 1) == base * Pow(base, 0);
    } else {
      var m, d := Shorter(base, n), Last(base, n);
      LengthBounds(base, m);
      var k := Length(base, m);
      ShorterBound(base, m, d, Pow(base, k));
      ShorterBound(base, m, d, Pow(base, k - 1));
    }
  }

  /** And the powers determine the number of digits. */
  lemma LengthUnique(base: nat, n: nat, k: nat)
    requires base >= 2 && k >= 1 && n < Pow(base, k)
    requires k == 1 || Pow(base, k - 1) <= n
    ensures Length(base, n) == k
  {
    var l := Length(base, n);
    LengthBounds(base, n);
    if l < k {
      PowMonotone(base, l, k - 1);
    } else if l > k {
      PowMonotone(base, k, l - 1);
    }
  }
}
