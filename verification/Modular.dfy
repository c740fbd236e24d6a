/** Remainder facts shared by the ring-shaped structures. */
module Modular {

  lemma MulOrdered(a: int, b: int, n: nat)
    ensures a <= b ==> a * n <= b * n
  {
  }

  lemma Remainder(k: int, r: nat, n: nat)
    requires r < n
    ensures (k * n + r) % n == r
    ensures (k * n + r) / n == k
  {
    var x := k * n + r;
    var d := x / n - k;
    assert d * n == r - x % n;
    MulOrdered(1, d, n);
    MulOrdered(d, -1, n);
  }

  /** Numbers with one remainder are at least n apart. */
  lemma Apart(a: nat, b: nat, n: nat)
    requires n > 0 && a % n == b % n && a < b
    ensures a + n <= b
  {
    var da, db := a / n, b / n;
    assert a == da * n + a % n && b == db * n + b % n;
    MulOrdered(db, da, n);
    MulOrdered(da + 1, db, n);
  }

  lemma NextRound(p: nat, n: nat)
    requires n > 0
    ensures (p + n) % n == p % n
  {
    assert p + n == (p / n + 1) * n + p % n;
    Remainder(p / n + 1, p % n, n);
  }
}
