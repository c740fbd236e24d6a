/** Laws of operations, and iteration, which carries them over. */
module Folding {

  type Byte = bv8

  function Iterate<T>(f: T -> T, n: nat, c: T): T
    decreases n, c
  {
    if n == 0 then c else f(Iterate(f, n - 1, c))
  }

  /** f carries the operation plus over to times. */
  ghost predicate Additive<S(!new), T(!new)>(f: S -> T, plus: (S, S) -> S, times: (T, T) -> T) {
    forall a, b {:trigger f(plus(a, b))} :: f(plus(a, b)) == times(f(a), f(b))
  }

  ghost predicate Injective<S(!new), T(!new)>(f: S -> T) {
    forall a, b {:trigger f(a), f(b)} :: f(a) == f(b) ==> a == b
  }

  ghost predicate Associative<T(!new)>(plus: (T, T) -> T) {
    forall a, b, c {:trigger plus(a, plus(b, c))} :: plus(a, plus(b, c)) == plus(plus(a, b), c)
  }

  /** Everything is its own inverse. */
  ghost predicate SelfInverse<T(!new)>(plus: (T, T) -> T) {
    && (forall a, x {:trigger plus(plus(a, x), x)} :: plus(plus(a, x), x) == a)
    && (forall a, x {:trigger plus(x, plus(x, a))} :: plus(x, plus(x, a)) == a)
  }

  lemma PlusCancels<T(!new)>(plus: (T, T) -> T, a: T, b: T, x: T)
    requires SelfInverse(plus)
    ensures plus(a, x) == plus(b, x) ==> a == b
    ensures plus(x, a) == plus(x, b) ==> a == b
  {
    assert plus(plus(a, x), x) == a && plus(plus(b, x), x) == b;
    assert plus(x, plus(x, a)) == a && plus(x, plus(x, b)) == b;
  }

  lemma {:induction false} IterateAdditive<T(!new)>(f: T -> T, plus: (T, T) -> T, n: nat, a: T, b: T)
    requires Additive(f, plus, plus)
    ensures Iterate(f, n, plus(a, b)) == plus(Iterate(f, n, a), Iterate(f, n, b))
  {
    if n == 0 {
    } else {
      IterateAdditive(f, plus, n - 1, a, b);
    }
  }

  lemma {:induction false} IterateInjective<T(!new)>(f: T -> T, n: nat, a: T, b: T)
    requires Injective(f) && Iterate(f, n, a) == Iterate(f, n, b)
    ensures a == b
  {
    if n == 0 {
    } else {
      IterateInjective(f, n - 1, a, b);
    }
  }

  lemma {:induction false} IterateShift<T>(f: T -> T, n: nat, c: T)
    ensures Iterate(f, n, f(c)) == f(Iterate(f, n, c))
  {
    if n == 0 {
    } else {
      IterateShift(f, n - 1, c);
    }
  }

  lemma IterateChain<T>(f: T -> T, c0: T, c1: T, c2: T, c3: T, c4: T, c5: T, c6: T, c7: T, c8: T)
    requires f(c0) == c1 && f(c1) == c2 && f(c2) == c3 && f(c3) == c4
    requires f(c4) == c5 && f(c5) == c6 && f(c6) == c7 && f(c7) == c8
    ensures Iterate(f, 8, c0) == c8
  {
    assert Iterate(f, 1, c0) == f(Iterate(f, 0, c0));
    assert Iterate(f, 2, c0) == f(Iterate(f, 1, c0));
    assert Iterate(f, 3, c0) == f(Iterate(f, 2, c0));
    assert Iterate(f, 4, c0) == f(Iterate(f, 3, c0));
    assert Iterate(f, 5, c0) == f(Iterate(f, 4, c0));
    assert Iterate(f, 6, c0) == f(Iterate(f, 5, c0));
    assert Iterate(f, 7, c0) == f(Iterate(f, 6, c0));
  }
}
