/**
  The CRC-32 bit by bit: the message as one sequence of bits, each byte's low bit first. The
  register then holds 32 symbols, and a burst of 32 bits shows wherever it starts.
 */
module CrcBits {
  import opened Folding
  import opened Registers
  import opened Words
  import opened Crc

  function Bit(b: bool): bv32 {
    if b then 1 else 0
  }

  function Ahead1(x: bv32): bv32 {
    x << 1
  }

  /** The word with the n lowest bits set. */
  function Limit(n: nat): bv32 {
    if n == 0 then 0 else (Limit(n - 1) << 1) | 1
  }

  predicate RoomBits(x: bv32, n: nat) {
    x & Limit(n) == x
  }

  /** Bits enter at the low end, each followed by one bit step. */
  const CRC32_BITS: Register<bv32, bool> := Register(0, Xor, BitStep, Bit, Ahead1, RoomBits, 32)

  // ------------------------------------------------------------------ the register is lawful

  lemma LimitNext(n: nat, l: bv32, m: bv32)
    requires Limit(n) == l && m == (l << 1) | 1
    ensures Limit(n + 1) == m
  {
  }

  lemma Limit8()
    ensures Limit(8) == 0xff
  {
    LimitNext(0, 0x0, 0x1);
    LimitNext(1, 0x1, 0x3);
    LimitNext(2, 0x3, 0x7);
    LimitNext(3, 0x7, 0xf);
    LimitNext(4, 0xf, 0x1f);
    LimitNext(5, 0x1f, 0x3f);
    LimitNext(6, 0x3f, 0x7f);
    LimitNext(7, 0x7f, 0xff);
  }

  lemma Limit16()
    ensures Limit(16) == 0xffff
  {
    Limit8();
    LimitNext(8, 0xff, 0x1ff);
    LimitNext(9, 0x1ff, 0x3ff);
    LimitNext(10, 0x3ff, 0x7ff);
    LimitNext(11, 0x7ff, 0xfff);
    LimitNext(12, 0xfff, 0x1fff);
    LimitNext(13, 0x1fff, 0x3fff);
    LimitNext(14, 0x3fff, 0x7fff);
    LimitNext(15, 0x7fff, 0xffff);
  }

  lemma Limit24()
    ensures Limit(24) == 0xffffff
  {
    Limit16();
    LimitNext(16, 0xffff, 0x1ffff);
    LimitNext(17, 0x1ffff, 0x3ffff);
    LimitNext(18, 0x3ffff, 0x7ffff);
    LimitNext(19, 0x7ffff, 0xfffff);
    LimitNext(20, 0xfffff, 0x1fffff);
    LimitNext(21, 0x1fffff, 0x3fffff);
    LimitNext(22, 0x3fffff, 0x7fffff);
    LimitNext(23, 0x7fffff, 0xffffff);
  }

  lemma Limit31()
    ensures Limit(31) == 0x7fffffff
  {
    Limit24();
    LimitNext(24, 0xffffff, 0x1ffffff);
    LimitNext(25, 0x1ffffff, 0x3ffffff);
    LimitNext(26, 0x3ffffff, 0x7ffffff);
    LimitNext(27, 0x7ffffff, 0xfffffff);
    LimitNext(28, 0xfffffff, 0x1fffffff);
    LimitNext(29, 0x1fffffff, 0x3fffffff);
    LimitNext(30, 0x3fffffff, 0x7fffffff);
  }

  lemma Within(a: bv32, b: bv32)
    requires a & b == a
    ensures ((a << 1) | 1) & ((b << 1) | 1) == (a << 1) | 1
  {
  }

  lemma {:induction false} LimitWithin(m: nat, n: nat)
    requires m <= n
    ensures Limit(m) & Limit(n) == Limit(m)
  {
    if m == 0 {
    } else {
      LimitWithin(m - 1, n - 1);
      Within(Limit(m - 1), Limit(n - 1));
    }
  }

  lemma TopOutside(x: bv32, l: bv32)
    requires x & l == x && l & 0x7fffffff == l
    ensures x & 0x80000000 == 0
  {
  }

  lemma ClearTop(x: bv32, n: nat)
    requires n < 32 && RoomBits(x, n)
    ensures x & 0x80000000 == 0
  {
    LimitWithin(n, 31);
    Limit31();
    TopOutside(x, Limit(n));
  }

  lemma ShiftedUp(x: bv32)
    requires x & 0x80000000 == 0
    ensures (x << 1) & 1 == 0 && (x << 1) >> 1 == x
  {
  }

  lemma OneMoreBit(b: bv32, x: bv32, l: bv32)
    requires b <= 1 && x & l == x
    ensures (b ^ (x << 1)) & ((l << 1) | 1) == b ^ (x << 1)
  {
  }

  lemma BitIs(b: bool)
    ensures Bit(b) <= 1 && (b <==> Bit(b) == 1)
  {
  }

  lemma StepsBack(x: bv32)
    requires x & 0x80000000 == 0
    ensures BitStep(Ahead1(x)) == x
  {
    ShiftedUp(x);
    EvenStep(x << 1, x);
  }

  lemma RoomGrows(b: bool, x: bv32, n: nat)
    requires n < 32 && RoomBits(x, n)
    ensures RoomBits(Xor(Bit(b), Ahead1(x)), n + 1)
  {
    BitIs(b);
    OneMoreBit(Bit(b), x, Limit(n));
  }

  lemma PartsOfOne(x: bv32)
    requires x & 0x80000000 == 0
    ensures Xor(1, x << 1) & 1 == 1 && Xor(1, x << 1) >> 1 == x
  {
  }

  lemma PartsOfZero(x: bv32)
    requires x & 0x80000000 == 0
    ensures Xor(0, x << 1) & 1 == 0 && Xor(0, x << 1) >> 1 == x
  {
  }

  lemma PartsOf(b: bool, x: bv32, z: bv32)
    requires x & 0x80000000 == 0 && z == Xor(Bit(b), Ahead1(x))
    ensures z & 1 == Bit(b) && z >> 1 == x
  {
    if b { PartsOfOne(x); } else { PartsOfZero(x); }
  }

  lemma SameBit(a: bool, b: bool)
    requires Bit(a) == Bit(b)
    ensures a == b
  {
  }

  lemma BitsApart(a: bool, x: bv32, b: bool, y: bv32, z: bv32)
    requires x & 0x80000000 == 0 && y & 0x80000000 == 0 && z == Xor(Bit(a), Ahead1(x)) && z == Xor(Bit(b), Ahead1(y))
    ensures a == b && x == y
  {
    PartsOf(a, x, z);
    PartsOf(b, y, z);
    SameBit(a, b);
  }

  lemma BitsRoomy()
    ensures Roomy(CRC32_BITS)
  {
    forall x, n: nat | n < 32 && RoomBits(x, n) ensures BitStep(Ahead1(x)) == x {
      ClearTop(x, n);
      StepsBack(x);
    }
    forall x, n: nat, b | n < 32 && RoomBits(x, n) ensures RoomBits(Xor(Bit(b), Ahead1(x)), n + 1) {
      RoomGrows(b, x, n);
    }
  }

  lemma BitsSeparate()
    ensures Separate(CRC32_BITS)
  {
    forall x, y, n: nat, a, b
      | n < 32 && RoomBits(x, n) && RoomBits(y, n) && Xor(Bit(a), Ahead1(x)) == Xor(Bit(b), Ahead1(y))
      ensures a == b && x == y
    {
      ClearTop(x, n);
      ClearTop(y, n);
      BitsApart(a, x, b, y, Xor(Bit(a), Ahead1(x)));
    }
  }

  lemma BitsLawful()
    ensures Lawful(CRC32_BITS)
  {
    XorIsXorlike();
    BitStepAdditive();
    BitStepInjective();
    BitsRoomy();
    BitsSeparate();
  }

  // ------------------------------------------------------------------ bytes and bits

  /** The bits of a byte, the low bit first. */
  function BitsOf(b: Byte): (r: seq<bool>)
    ensures |r| == 8
  {
    [b & 1 == 1, b & 2 == 2, b & 4 == 4, b & 8 == 8,
     b & 0x10 == 0x10, b & 0x20 == 0x20, b & 0x40 == 0x40, b & 0x80 == 0x80]
  }

  /** The bits of a message in the order in which they enter the register. */
  function Bits(data: seq<Byte>): seq<bool> {
    if data == [] then [] else BitsOf(data[0]) + Bits(data[1..])
  }

  lemma Half0(b: Byte)
    ensures b as bv32 == Xor(Bit(b & 0x1 == 0x1), Ahead1((b >> 1) as bv32))
  {
  }

  lemma Half1(b: Byte)
    ensures (b >> 1) as bv32 == Xor(Bit(b & 0x2 == 0x2), Ahead1((b >> 2) as bv32))
  {
  }

  lemma Half2(b: Byte)
    ensures (b >> 2) as bv32 == Xor(Bit(b & 0x4 == 0x4), Ahead1((b >> 3) as bv32))
  {
  }

  lemma Half3(b: Byte)
    ensures (b >> 3) as bv32 == Xor(Bit(b & 0x8 == 0x8), Ahead1((b >> 4) as bv32))
  {
  }

  lemma Half4(b: Byte)
    ensures (b >> 4) as bv32 == Xor(Bit(b & 0x10 == 0x10), Ahead1((b >> 5) as bv32))
  {
  }

  lemma Half5(b: Byte)
    ensures (b >> 5) as bv32 == Xor(Bit(b & 0x20 == 0x20), Ahead1((b >> 6) as bv32))
  {
  }

  lemma Half6(b: Byte)
    ensures (b >> 6) as bv32 == Xor(Bit(b & 0x40 == 0x40), Ahead1((b >> 7) as bv32))
  {
  }

  lemma Half7(b: Byte)
    ensures (b >> 7) as bv32 == Xor(Bit(b & 0x80 == 0x80), Ahead1(0))
  {
  }

  lemma WordStep(w: seq<bool>, k: nat, x: bv32, y: bv32)
    requires k < |w| && Word(CRC32_BITS, w[k + 1..]) == y && x == Xor(Bit(w[k]), Ahead1(y))
    ensures Word(CRC32_BITS, w[k..]) == x
  {
    assert w[k..][1..] == w[k + 1..];
  }

  lemma WordOfFour(w: seq<bool>, k: nat, x0: bv32, x1: bv32, x2: bv32, x3: bv32, x4: bv32)
    requires k + 4 <= |w| && Word(CRC32_BITS, w[k + 4..]) == x4
    requires x0 == Xor(Bit(w[k]), Ahead1(x1)) && x1 == Xor(Bit(w[k + 1]), Ahead1(x2))
    requires x2 == Xor(Bit(w[k + 2]), Ahead1(x3)) && x3 == Xor(Bit(w[k + 3]), Ahead1(x4))
    ensures Word(CRC32_BITS, w[k..]) == x0
  {
    WordStep(w, k + 3, x3, x4);
    WordStep(w, k + 2, x2, x3);
    WordStep(w, k + 1, x1, x2);
    WordStep(w, k, x0, x1);
  }

  lemma WordOfEight(w: seq<bool>, x0: bv32, x1: bv32, x2: bv32, x3: bv32, x4: bv32, x5: bv32, x6: bv32, x7: bv32)
    requires |w| == 8
    requires x0 == Xor(Bit(w[0]), Ahead1(x1)) && x1 == Xor(Bit(w[1]), Ahead1(x2)) && x2 == Xor(Bit(w[2]), Ahead1(x3))
    requires x3 == Xor(Bit(w[3]), Ahead1(x4)) && x4 == Xor(Bit(w[4]), Ahead1(x5)) && x5 == Xor(Bit(w[5]), Ahead1(x6))
    requires x6 == Xor(Bit(w[6]), Ahead1(x7)) && x7 == Xor(Bit(w[7]), Ahead1(0))
    ensures Word(CRC32_BITS, w) == x0
  {
    assert w[8..] == [];
    WordOfFour(w, 4, x4, x5, x6, x7, 0);
    WordOfFour(w, 0, x0, x1, x2, x3, x4);
    assert w[0..] == w;
  }

  /** The bits of a byte, as a word, are the byte. */
  lemma WordOfByte(b: Byte)
    ensures Word(CRC32_BITS, BitsOf(b)) == b as bv32
  {
    Half0(b);
    Half1(b);
    Half2(b);
    Half3(b);
    Half4(b);
    Half5(b);
    Half6(b);
    Half7(b);
    WordOfEight(BitsOf(b), b as bv32, (b >> 1) as bv32, (b >> 2) as bv32, (b >> 3) as bv32, (b >> 4) as bv32,
      (b >> 5) as bv32, (b >> 6) as bv32, (b >> 7) as bv32);
  }

  /** Feeding the bits of a byte is feeding the byte. */
  lemma ByteBits(c: bv32, b: Byte)
    ensures Feed(CRC32_BITS, c, BitsOf(b)) == Absorb(CRC32, c, b)
  {
    BitsLawful();
    FeedWindow(CRC32_BITS, c, BitsOf(b));
    WordOfByte(b);
  }

  /** Feeding the bits of a message is feeding the message. */
  lemma {:induction false} MessageBits(c: bv32, data: seq<Byte>)
    ensures Feed(CRC32_BITS, c, Bits(data)) == Feed(CRC32, c, data)
    decreases |data|
  {
    if data == [] {
    } else {
      FeedConcat(CRC32_BITS, c, BitsOf(data[0]), Bits(data[1..]));
      ByteBits(c, data[0]);
      MessageBits(Absorb(CRC32, c, data[0]), data[1..]);
    }
  }

  /** Messages that differ only inside 32 consecutive bits, wherever these start, have different CRC-32s. */
  lemma DetectsBitBursts(a: seq<Byte>, b: seq<Byte>, before: seq<bool>, v: seq<bool>, w: seq<bool>, after: seq<bool>)
    requires Bits(a) == before + v + after && Bits(b) == before + w + after
    requires |v| == |w| <= 32 && v != w
    ensures Crc32(a) != Crc32(b)
  {
    BitsLawful();
    BurstsShow(CRC32_BITS, ALL_ONES, before, v, w, after);
    MessageBits(ALL_ONES, a);
    MessageBits(ALL_ONES, b);
    XorTwice(Feed(CRC32, ALL_ONES, a), ALL_ONES);
    XorTwice(Feed(CRC32, ALL_ONES, b), ALL_ONES);
  }
}
