/** Powers of two and the bitwise conjunction of naturals. */
module Bits {
  import Modular

  function Pow2(k: nat): (r: nat)
    ensures r >= 1
  {
    if k == 0 then 1 else 2 * Pow2(k - 1)
  }

  /** The C operator & on unsigned words of any width. */
  function BitAnd(a: nat, b: nat): nat {
    if a == 0 || b == 0 then 0
    else 2 * BitAnd(a / 2, b / 2) + (if a % 2 == 1 && b % 2 == 1 then 1 else 0)
  }

  lemma HalvedRemainder(pos: nat, m: nat)
    requires m > 0
    ensures pos % (2 * m) == 2 * (pos / 2 % m) + pos % 2
  {
    var h := pos / 2;
    var d, r := h / m, h % m;
    assert h == d * m + r;
    assert d * (2 * m) == 2 * (d * m);
    Modular.Remainder(d, 2 * r + pos % 2, 2 * m);
  }

  lemma OddMask(pos: nat, m: nat)
    requires m > 0
    ensures BitAnd(pos, 2 * m - 1) == 2 * BitAnd(pos / 2, m - 1) + pos % 2
  {
    assert (2 * m - 1) / 2 == m - 1 && (2 * m - 1) % 2 == 1;
  }

  /** Masking with 2^k - 1 takes the remainder. */
  lemma {:induction false} MaskIsModulo(pos: nat, k: nat)
    ensures BitAnd(pos, Pow2(k) - 1) == pos % Pow2(k)
  {
    if k == 0 {
    } else {
      MaskIsModulo(pos / 2, k - 1);
      HalvedRemainder(pos, Pow2(k - 1));
      OddMask(pos, Pow2(k - 1));
    }
  }

  lemma {:induction false} AndSelf(m: nat)
    ensures BitAnd(m, m) == m
  {
    if m == 0 {
    } else {
      AndSelf(m / 2);
    }
  }

  ghost predicate IsPow2(n: nat) {
    exists k: nat :: n == Pow2(k)
  }

  lemma DoubleIsPow2(m: nat)
    requires m >= 1
    ensures IsPow2(2 * m) <==> IsPow2(m)
  {
    if IsPow2(m) {
      var k: nat :| m == Pow2(k);
      assert 2 * m == Pow2(k + 1);
    }
    if IsPow2(2 * m) {
      var k: nat :| 2 * m == Pow2(k);
      assert m == Pow2(k - 1);
    }
  }

  lemma OddIsPow2(m: nat)
    ensures IsPow2(2 * m + 1) <==> m == 0
  {
    forall k: nat | k > 0 ensures Pow2(k) % 2 == 0 {
    }
    assert Pow2(0) == 1;
  }

  /** n & (n - 1) clears the lowest set bit, so it vanishes exactly for powers of two. */
  lemma {:induction false} PowerOfTwoTest(n: nat)
    requires n >= 1
    ensures BitAnd(n, n - 1) == 0 <==> IsPow2(n)
  {
    var m := n / 2;
    if n % 2 == 1 {
      OddIsPow2(m);
      AndSelf(m);
      assert (n - 1) / 2 == m;
    } else {
      PowerOfTwoTest(m);
      DoubleIsPow2(m);
      assert (n - 1) / 2 == m - 1;
    }
  }
}
