/** 32-bit words. */
module Words {
  import opened Folding

  /** The number of values of a 32-bit word. */
  const WORD: nat := 0x1_0000_0000

  function Xor(a: bv32, b: bv32): bv32 {
    a ^ b
  }

  lemma XorValue(a: bv32, b: bv32, x: bv32)
    requires x == Xor(a, b)
    ensures x == a ^ b
  {
  }

  lemma Regrouped(a: bv32, b: bv32, c: bv32)
    ensures Xor(a, b ^ c) == Xor(a ^ b, c)
  {
  }

  lemma Cancelled(a: bv32, x: bv32)
    ensures Xor(a ^ x, x) == a && Xor(x, x ^ a) == a
  {
  }

  lemma XorAssociative()
    ensures Associative(Xor)
  {
    forall a, b, c ensures Xor(a, Xor(b, c)) == Xor(Xor(a, b), c) {
      XorValue(b, c, Xor(b, c));
      XorValue(a, b, Xor(a, b));
      Regrouped(a, b, c);
    }
  }

  lemma XorSelfInverse()
    ensures SelfInverse(Xor)
  {
    forall a, x ensures Xor(Xor(a, x), x) == a {
      XorValue(a, x, Xor(a, x));
      Cancelled(a, x);
    }
    forall a, x ensures Xor(x, Xor(x, a)) == a {
      XorValue(x, a, Xor(x, a));
      Cancelled(a, x);
    }
  }

  lemma XorTwice(a: bv32, x: bv32)
    ensures (a ^ x) ^ x == a
  {
  }
}
