/**
  The CRC-32 of crc32.hpp and the CRC hashes of hashkit/crc.cc: the table-driven loops
  compute the bit-at-a-time polynomial register, and the checksums detect every burst of
  up to four (CRC-32) or two (CRC-16) bytes.
 */
module Crc {
  import opened CrcTables
  import opened Folding
  import opened LinearTables
  import opened Registers
  import opened Words

  // ------------------------------------------------------------------ the CRC-32 register

  /** The polynomial 0x04c11db7, lowest power in the highest bit. */
  const POLY: bv32 := 0xedb88320

  /** One bit leaves the register at its low end. */
  function BitStep(c: bv32): bv32 {
    if c & 1 == 1 then (c >> 1) ^ POLY else c >> 1
  }

  function ByteStep(c: bv32): bv32 {
    Iterate(BitStep, 8, c)
  }

  function Low(b: Byte): bv32 {
    b as bv32
  }

  function Ahead(x: bv32): bv32 {
    x << 8
  }

  predicate Room(x: bv32, n: nat) {
    (n == 0 ==> x == 0) && (n == 1 ==> x <= 0xff) && (n == 2 ==> x <= 0xffff) && (n == 3 ==> x <= 0xffffff)
  }

  /** Bytes enter at the low end, each followed by eight bit steps. */
  const CRC32: Register<bv32, Byte> := Register(0, Xor, ByteStep, Low, Ahead, Room, 4)

  const ALL_ONES: bv32 := 0xffffffff

  /** CRC-32 as section 8 of RFC 1952 defines it. */
  function Crc32(data: seq<Byte>): bv32 {
    Feed(CRC32, ALL_ONES, data) ^ ALL_ONES
  }

  lemma XorIsXorlike()
    ensures Xorlike(0, Xor)
  {
    XorAssociative();
    XorSelfInverse();
    forall a ensures Xor(a, 0) == a { }
  }

  // ------------------------------------------------------------------ linearity

  lemma XorBits(a: bv32, b: bv32)
    ensures (a ^ b) & 1 == (a & 1) ^ (b & 1)
    ensures (a ^ b) >> 1 == (a >> 1) ^ (b >> 1)
  {
  }

  lemma LowBit(a: bv32)
    ensures a & 1 == 0 || a & 1 == 1
  {
  }

  lemma XorCancels(a: bv32, b: bv32, p: bv32)
    ensures (a ^ p) ^ (b ^ p) == a ^ b
    ensures (a ^ p) ^ b == (a ^ b) ^ p
    ensures a ^ (b ^ p) == (a ^ b) ^ p
  {
  }

  lemma BitStepLinear(a: bv32, b: bv32)
    ensures BitStep(a ^ b) == BitStep(a) ^ BitStep(b)
  {
    XorBits(a, b);
    LowBit(a);
    LowBit(b);
    XorCancels(a >> 1, b >> 1, POLY);
  }

  lemma BitStepAdditive()
    ensures Additive(BitStep, Xor, Xor)
  {
    forall a, b ensures BitStep(Xor(a, b)) == Xor(BitStep(a), BitStep(b)) { BitStepLinear(a, b); }
  }

  lemma ByteStepAdditive()
    ensures Additive(ByteStep, Xor, Xor)
  {
    BitStepAdditive();
    forall a, b ensures ByteStep(Xor(a, b)) == Xor(ByteStep(a), ByteStep(b)) {
      IterateAdditive(BitStep, Xor, 8, a, b);
    }
  }

  /** The bit step can be undone. */
  function BitBack(c: bv32): bv32 {
    if c & 0x80000000 != 0 then ((c ^ POLY) << 1) | 1 else c << 1
  }

  lemma BitBackUndoes(c: bv32)
    ensures BitBack(BitStep(c)) == c
  {
  }

  lemma BitStepInjective()
    ensures Injective(BitStep)
  {
    forall a, b ensures BitStep(a) == BitStep(b) ==> a == b {
      BitBackUndoes(a);
      BitBackUndoes(b);
    }
  }

  /** The byte step is a bijection of the register. */
  lemma ByteStepInjective()
    ensures Injective(ByteStep)
  {
    BitStepInjective();
    forall a, b ensures ByteStep(a) == ByteStep(b) ==> a == b {
      if ByteStep(a) == ByteStep(b) { IterateInjective(BitStep, 8, a, b); }
    }
  }

  // ------------------------------------------------------------------ shifts

  lemma EvenStep(c: bv32, d: bv32)
    requires c & 1 == 0 && c >> 1 == d
    ensures BitStep(c) == d
  {
  }

  lemma Shift0(c: bv32)
    requires c & 0xff == 0
    ensures BitStep(c) == c >> 1
  {
    EvenStep(c, c >> 1);
  }

  lemma Shift1(c: bv32)
    requires c & 0xff == 0
    ensures BitStep(c >> 1) == c >> 2
  {
    EvenStep(c >> 1, c >> 2);
  }

  lemma Shift2(c: bv32)
    requires c & 0xff == 0
    ensures BitStep(c >> 2) == c >> 3
  {
    EvenStep(c >> 2, c >> 3);
  }

  lemma Shift3(c: bv32)
    requires c & 0xff == 0
    ensures BitStep(c >> 3) == c >> 4
  {
    EvenStep(c >> 3, c >> 4);
  }

  lemma Shift4(c: bv32)
    requires c & 0xff == 0
    ensures BitStep(c >> 4) == c >> 5
  {
    EvenStep(c >> 4, c >> 5);
  }

  lemma Shift5(c: bv32)
    requires c & 0xff == 0
    ensures BitStep(c >> 5) == c >> 6
  {
    EvenStep(c >> 5, c >> 6);
  }

  lemma Shift6(c: bv32)
    requires c & 0xff == 0
    ensures BitStep(c >> 6) == c >> 7
  {
    EvenStep(c >> 6, c >> 7);
  }

  lemma Shift7(c: bv32)
    requires c & 0xff == 0
    ensures BitStep(c >> 7) == c >> 8
  {
    EvenStep(c >> 7, c >> 8);
  }

  /** With the low byte clear, eight steps are a shift by eight. */
  lemma ByteStepShifts(c: bv32)
    requires c & 0xff == 0
    ensures ByteStep(c) == c >> 8
  {
    Shift0(c);
    Shift1(c);
    Shift2(c);
    Shift3(c);
    Shift4(c);
    Shift5(c);
    Shift6(c);
    Shift7(c);
    IterateChain(BitStep, c, c >> 1, c >> 2, c >> 3, c >> 4, c >> 5, c >> 6, c >> 7, c >> 8);
  }

  lemma ShiftedOut(x: bv32)
    requires x <= 0xffffff
    ensures (x << 8) & 0xff == 0 && (x << 8) >> 8 == x
  {
  }

  // ------------------------------------------------------------------ the register is lawful

  lemma RoomStep(b: bv32, x: bv32)
    requires b <= 0xff
    ensures x == 0 ==> b ^ (x << 8) <= 0xff
    ensures x <= 0xff ==> b ^ (x << 8) <= 0xffff
    ensures x <= 0xffff ==> b ^ (x << 8) <= 0xffffff
  {
  }

  lemma Small(b: Byte)
    ensures (b as bv32) <= 0xff
  {
  }

  lemma Fits(x: bv32, n: nat)
    requires n < 4 && Room(x, n)
    ensures x <= 0xffffff
  {
  }

  lemma Crc32Roomy()
    ensures Roomy(CRC32)
  {
    forall x, n: nat | n < 4 && Room(x, n) ensures ByteStep(Ahead(x)) == x {
      Fits(x, n);
      ShiftedOut(x);
      ByteStepShifts(x << 8);
    }
    forall x, n: nat, b | n < 4 && Room(x, n) ensures Room(Xor(Low(b), Ahead(x)), n + 1) {
      Small(b);
      RoomStep(b as bv32, x);
    }
  }

  lemma SeparateBytes(a: Byte, x: bv32, b: Byte, y: bv32)
    requires x <= 0xffffff && y <= 0xffffff && (a as bv32) ^ (x << 8) == (b as bv32) ^ (y << 8)
    ensures a == b && x == y
  {
  }

  lemma Crc32Separate()
    ensures Separate(CRC32)
  {
    forall x, y, n: nat, a, b | n < 4 && Room(x, n) && Room(y, n) && Xor(Low(a), Ahead(x)) == Xor(Low(b), Ahead(y))
      ensures a == b && x == y
    {
      Fits(x, n);
      Fits(y, n);
      SeparateBytes(a, x, b, y);
    }
  }

  lemma Crc32Lawful()
    ensures Lawful(CRC32)
  {
    XorIsXorlike();
    ByteStepAdditive();
    ByteStepInjective();
    Crc32Roomy();
    Crc32Separate();
  }

  /** Messages that differ only inside a window of at most four bytes have different CRC-32s. */
  lemma DetectsBursts(before: seq<Byte>, v: seq<Byte>, w: seq<Byte>, after: seq<Byte>)
    requires |v| == |w| <= 4 && v != w
    ensures Crc32(before + v + after) != Crc32(before + w + after)
  {
    Crc32Lawful();
    BurstsShow(CRC32, ALL_ONES, before, v, w, after);
    var c, d := Feed(CRC32, ALL_ONES, before + v + after), Feed(CRC32, ALL_ONES, before + w + after);
    XorTwice(c, ALL_ONES);
    XorTwice(d, ALL_ONES);
  }

  // ------------------------------------------------------------------ crc_table

  lemma CrcTableRows0(n: Byte)
    requires n < 4
    ensures Shifted(CrcTable(n), CrcTable(0), Xor)
  {
    assert n == 0 || n == 1 || n == 2 || n == 3;
  }

  lemma CrcTableRows4(n: Byte)
    requires 4 <= n < 8
    ensures Shifted(CrcTable(n), CrcTable(0), Xor)
  {
    assert n == 4 || n == 5 || n == 6 || n == 7;
  }

  lemma CrcTableRows8(n: Byte)
    requires 8 <= n < 12
    ensures Shifted(CrcTable(n), CrcTable(0), Xor)
  {
    assert n == 8 || n == 9 || n == 10 || n == 11;
  }

  lemma CrcTableRows12(n: Byte)
    requires 12 <= n < 16
    ensures Shifted(CrcTable(n), CrcTable(0), Xor)
  {
    assert n == 12 || n == 13 || n == 14 || n == 15;
  }

  lemma CrcTableSpanned()
    ensures Spanned(CrcTable(0), 0, Xor) && Spanned(Heads(CrcTable), 0, Xor)
  {
  }

  lemma CrcTableLinear()
    ensures Linear(CrcTable, 0, Xor)
  {
    CrcTableSpanned();
    forall n: Byte | n < 16 ensures Shifted(CrcTable(n), CrcTable(0), Xor) {
      if n < 4 { CrcTableRows0(n); }
      else if n < 8 { CrcTableRows4(n); }
      else if n < 12 { CrcTableRows8(n); }
      else { CrcTableRows12(n); }
    }
  }

  /** What an entry of the table stands for: the round of its index. */
  function EntryOf(i: Byte): bv32 {
    ByteStep(Low(i))
  }

  /** The entry of half an even byte is one bit step of that of the byte. */
  lemma HalfStep(c: bv32, d: bv32)
    requires BitStep(c) == d
    ensures ByteStep(d) == BitStep(ByteStep(c))
  {
    IterateShift(BitStep, 8, c);
  }

  lemma TopBit()
    ensures ByteStep(0x80) == POLY
  {
    IterateChain(BitStep, 0x80, 0x40, 0x20, 0x10, 8, 4, 2, 1, POLY);
  }

  lemma CrcTableChain()
    ensures CrcTable(8).e0 == POLY && CrcTable(4).e0 == BitStep(CrcTable(8).e0)
    ensures CrcTable(2).e0 == BitStep(CrcTable(4).e0) && CrcTable(1).e0 == BitStep(CrcTable(2).e0)
    ensures CrcTable(0).e8 == BitStep(CrcTable(1).e0) && CrcTable(0).e4 == BitStep(CrcTable(0).e8)
    ensures CrcTable(0).e2 == BitStep(CrcTable(0).e4) && CrcTable(0).e1 == BitStep(CrcTable(0).e2)
  {
  }

  lemma CrcTableAgrees()
    ensures Agrees(CrcTable, 0, EntryOf)
  {
    TopBit();
    CrcTableChain();
    HalfStep(0x80, 0x40);
    HalfStep(0x40, 0x20);
    HalfStep(0x20, 0x10);
    HalfStep(0x10, 8);
    HalfStep(8, 4);
    HalfStep(4, 2);
    HalfStep(2, 1);
    ByteStepShifts(0);
  }

  lemma LowLinear(a: Byte, b: Byte)
    ensures (a ^ b) as bv32 == (a as bv32) ^ (b as bv32)
  {
  }

  lemma EntryAdditive()
    ensures Additive(EntryOf, XorByte, Xor)
  {
    ByteStepAdditive();
    forall a, b ensures Low(XorByte(a, b)) == Xor(Low(a), Low(b)) { LowLinear(a, b); }
    forall a, b ensures EntryOf(XorByte(a, b)) == Xor(EntryOf(a), EntryOf(b)) {
      RoundAdditive(CRC32, XorByte, a, b);
    }
  }

  /** Every entry of crc_table is eight bit steps of its index. */
  lemma CrcTableEntry(i: Byte)
    ensures Entry(CrcTable, i) == EntryOf(i)
  {
    CrcTableLinear();
    CrcTableAgrees();
    EntryAdditive();
    TableOf(CrcTable, 0, Xor, EntryOf, i);
  }

  /** crc32tab is the same table. */
  lemma TablesAgree(n: Byte)
    ensures Crc32Tab(n) == CrcTable(n)
  {
  }

  lemma SplitWord(c: bv32, b: Byte, index: Byte, rest: bv32)
    requires index == ((c ^ (b as bv32)) & 0xff) as Byte && rest == (c ^ (b as bv32)) & 0xffffff00
    ensures c ^ (b as bv32) == (index as bv32) ^ rest
    ensures rest & 0xff == 0
    ensures rest >> 8 == c >> 8
  {
  }

  lemma StepByTable(c: bv32, b: Byte, index: Byte, rest: bv32, moved: bv32)
    requires Xor(c, Low(b)) == Xor(Low(index), rest) && ByteStep(rest) == moved
    ensures Xor(Entry(CrcTable, index), moved) == Absorb(CRC32, c, b)
  {
    CrcTableEntry(index);
    ByteStepAdditive();
    TableStep(CRC32, c, b, index, rest, Entry(CrcTable, index), moved);
  }

  lemma SplitXor(c: bv32, b: Byte, index: Byte, rest: bv32)
    requires c ^ (b as bv32) == (index as bv32) ^ rest
    ensures Xor(c, Low(b)) == Xor(Low(index), rest)
  {
  }

  lemma RestStep(c: bv32, b: Byte, index: Byte, rest: bv32)
    requires c ^ (b as bv32) == (index as bv32) ^ rest && rest & 0xff == 0 && rest >> 8 == c >> 8
    ensures Xor(Entry(CrcTable, index), c >> 8) == Absorb(CRC32, c, b)
  {
    SplitXor(c, b, index, rest);
    ByteStepShifts(rest);
    StepByTable(c, b, index, rest, c >> 8);
  }

  /** The table step is eight bit steps. */
  lemma CrcTableStep(c: bv32, b: Byte, index: Byte)
    requires index == ((c ^ (b as bv32)) & 0xff) as Byte
    ensures Xor(Entry(CrcTable, index), c >> 8) == Absorb(CRC32, c, b)
  {
    var rest := (c ^ (b as bv32)) & 0xffffff00;
    SplitWord(c, b, index, rest);
    RestStep(c, b, index, rest);
  }

  // ------------------------------------------------------------------ the CRC-32 loops

  /** The table index that the loops compute. */
  function Index(c: bv32, b: Byte): Byte {
    ((c ^ (b as bv32)) & 0xff) as Byte
  }

  lemma FeedStep<W, S>(r: Register<W, S>, c: W, data: seq<S>, i: nat)
    requires i < |data|
    ensures Feed(r, c, data[i..]) == Feed(r, Absorb(r, c, data[i]), data[i + 1..])
  {
    assert data[i..][1..] == data[i + 1..];
  }

  /** One iteration of rd_crc32_update. */
  function UpdateStep(c: bv32, b: Byte): (r: bv32)
    ensures r == Absorb(CRC32, c, b)
  {
    CrcTableStep(c, b, Index(c, b));
    Xor(Entry(CrcTable, Index(c, b)), c >> 8)
  }

  /** rd_crc32_update */
  method RdCrc32Update(crc: bv32, data: seq<Byte>) returns (r: bv32)
    ensures r == Feed(CRC32, crc, data)
  {
    r := crc;
    var i := 0;
    while i < |data|
      invariant i <= |data| && Feed(CRC32, r, data[i..]) == Feed(CRC32, crc, data)
    {
      FeedStep(CRC32, r, data, i);
      r := UpdateStep(r, data[i]);
      i := i + 1;
    }
  }

  /** rd_crc32 */
  method RdCrc32(data: seq<Byte>) returns (r: bv32)
    ensures r == Crc32(data)
  {
    var crc := RdCrc32Update(ALL_ONES, data);
    r := crc ^ ALL_ONES;
  }

  /** Updating in pieces is updating at once. */
  lemma UpdateConcat(crc: bv32, a: seq<Byte>, b: seq<Byte>)
    ensures Feed(CRC32, crc, a + b) == Feed(CRC32, Feed(CRC32, crc, a), b)
  {
    FeedConcat(CRC32, crc, a, b);
  }

  /** One iteration of hash_crc32a, whose table is declared anew. */
  function HashStep(c: bv32, index: Byte): (r: bv32)
    ensures r == Xor(Entry(CrcTable, index), c >> 8)
  {
    TablesAgree(index >> 4);
    Xor(Entry(Crc32Tab, index), c >> 8)
  }

  /** hash_crc32a: the hash is the CRC-32. */
  method HashCrc32a(key: seq<Byte>) returns (r: bv32)
    ensures r == Crc32(key)
  {
    var crc: bv32 := ALL_ONES;
    var i := 0;
    while i < |key|
      invariant i <= |key| && Feed(CRC32, crc, key[i..]) == Feed(CRC32, ALL_ONES, key)
    {
      FeedStep(CRC32, crc, key, i);
      CrcTableStep(crc, key[i], Index(crc, key[i]));
      crc := HashStep(crc, Index(crc, key[i]));
      i := i + 1;
    }
    r := crc ^ ALL_ONES;
  }

  /** A char of the key is signed; the loops widen it with its sign and mask the index afterwards. */
  function SignExtend(b: Byte): bv32 {
    if b & 0x80 == 0x80 then 0xffffff00 | (b as bv32) else b as bv32
  }

  function SignedIndex(c: bv32, b: Byte): (i: Byte)
    ensures i == Index(c, b)
  {
    ((c ^ SignExtend(b)) & 0xff) as Byte
  }

  /** Fifteen bits from the middle of the register, complemented. */
  function Middle(c: bv32): (r: bv32)
    ensures r == ((c ^ ALL_ONES) >> 16) & 0x7fff
  {
    (!c >> 16) & 0x7fff
  }

  /** hash_crc32: fifteen bits from the middle of the CRC-32. */
  method HashCrc32(key: seq<Byte>) returns (r: bv32)
    ensures r == (Crc32(key) >> 16) & 0x7fff
  {
    var crc: bv32 := ALL_ONES;
    var i := 0;
    while i < |key|
      invariant i <= |key| && Feed(CRC32, crc, key[i..]) == Feed(CRC32, ALL_ONES, key)
    {
      FeedStep(CRC32, crc, key, i);
      CrcTableStep(crc, key[i], Index(crc, key[i]));
      crc := HashStep(crc, SignedIndex(crc, key[i]));
      i := i + 1;
    }
    r := Middle(crc);
  }

  // ------------------------------------------------------------------ the CRC-16 register

  /** One bit leaves the sixteen-bit register at its high end; the polynomial is 0x1021. */
  function BitStep16(c: bv16): bv16 {
    if c & 0x8000 == 0x8000 then (c << 1) ^ 0x1021 else c << 1
  }

  function ByteStep16(c: bv16): bv16 {
    Iterate(BitStep16, 8, c)
  }

  function Xor16(a: bv16, b: bv16): bv16 {
    a ^ b
  }

  function High(b: Byte): bv16 {
    (b as bv16) << 8
  }

  function Ahead16(x: bv16): bv16 {
    x >> 8
  }

  predicate Room16(x: bv16, n: nat) {
    (n == 0 ==> x == 0) && (n == 1 ==> x & 0xff == 0)
  }

  /** Bytes enter at the high end, each followed by eight bit steps. */
  const CRC16: Register<bv16, Byte> := Register(0, Xor16, ByteStep16, High, Ahead16, Room16, 2)

  /** The register after a message. */
  function Crc16(data: seq<Byte>): bv16 {
    Feed(CRC16, 0, data)
  }

  lemma Xor16Value(a: bv16, b: bv16, x: bv16)
    requires x == Xor16(a, b)
    ensures x == a ^ b
  {
  }

  lemma Regrouped16(a: bv16, b: bv16, c: bv16)
    ensures Xor16(a, b ^ c) == Xor16(a ^ b, c)
  {
  }

  lemma Cancelled16(a: bv16, x: bv16)
    ensures Xor16(a ^ x, x) == a && Xor16(x, x ^ a) == a
  {
  }

  lemma Xor16Associative()
    ensures Associative(Xor16)
  {
    forall a, b, c ensures Xor16(a, Xor16(b, c)) == Xor16(Xor16(a, b), c) {
      Xor16Value(b, c, Xor16(b, c));
      Xor16Value(a, b, Xor16(a, b));
      Regrouped16(a, b, c);
    }
  }

  lemma Xor16SelfInverse()
    ensures SelfInverse(Xor16)
  {
    forall a, x ensures Xor16(Xor16(a, x), x) == a {
      Xor16Value(a, x, Xor16(a, x));
      Cancelled16(a, x);
    }
    forall a, x ensures Xor16(x, Xor16(x, a)) == a {
      Xor16Value(x, a, Xor16(x, a));
      Cancelled16(a, x);
    }
  }

  lemma Xor16IsXorlike()
    ensures Xorlike(0, Xor16)
  {
    Xor16Associative();
    Xor16SelfInverse();
    forall a ensures Xor16(a, 0) == a { }
  }

  lemma XorBits16(a: bv16, b: bv16)
    ensures (a ^ b) & 0x8000 == (a & 0x8000) ^ (b & 0x8000)
    ensures (a ^ b) << 1 == (a << 1) ^ (b << 1)
  {
  }

  lemma TopBit16(a: bv16)
    ensures a & 0x8000 == 0 || a & 0x8000 == 0x8000
  {
  }

  lemma XorCancels16(a: bv16, b: bv16, p: bv16)
    ensures (a ^ p) ^ (b ^ p) == a ^ b
    ensures (a ^ p) ^ b == (a ^ b) ^ p
    ensures a ^ (b ^ p) == (a ^ b) ^ p
  {
  }

  lemma BitStep16Linear(a: bv16, b: bv16)
    ensures BitStep16(a ^ b) == BitStep16(a) ^ BitStep16(b)
  {
    XorBits16(a, b);
    TopBit16(a);
    TopBit16(b);
    XorCancels16(a << 1, b << 1, 0x1021);
  }

  lemma ByteStep16Additive()
    ensures Additive(ByteStep16, Xor16, Xor16)
  {
    forall a, b ensures BitStep16(Xor16(a, b)) == Xor16(BitStep16(a), BitStep16(b)) { BitStep16Linear(a, b); }
    forall a, b ensures ByteStep16(Xor16(a, b)) == Xor16(ByteStep16(a), ByteStep16(b)) {
      IterateAdditive(BitStep16, Xor16, 8, a, b);
    }
  }

  function BitBack16(c: bv16): bv16 {
    if c & 1 == 1 then ((c ^ 0x1021) >> 1) | 0x8000 else c >> 1
  }

  lemma TopBitBack(c: bv16, d: bv16)
    requires c & 0x8000 == 0x8000 && d == (c << 1) ^ 0x1021
    ensures BitBack16(d) == c
  {
  }

  lemma NoTopBitBack(c: bv16, d: bv16)
    requires c & 0x8000 != 0x8000 && d == c << 1
    ensures BitBack16(d) == c
  {
  }

  lemma BitBack16Undoes(c: bv16, d: bv16)
    requires d == BitStep16(c)
    ensures BitBack16(d) == c
  {
    if c & 0x8000 == 0x8000 { TopBitBack(c, d); } else { NoTopBitBack(c, d); }
  }

  lemma ByteStep16Injective()
    ensures Injective(ByteStep16)
  {
    forall a, b ensures BitStep16(a) == BitStep16(b) ==> a == b {
      BitBack16Undoes(a, BitStep16(a));
      BitBack16Undoes(b, BitStep16(b));
    }
    forall a, b ensures ByteStep16(a) == ByteStep16(b) ==> a == b {
      if ByteStep16(a) == ByteStep16(b) { IterateInjective(BitStep16, 8, a, b); }
    }
  }

  lemma SmallStep16(c: bv16, d: bv16)
    requires c & 0x8000 == 0 && c << 1 == d
    ensures BitStep16(c) == d
  {
  }

  lemma Shift16By0(c: bv16)
    requires c & 0xff00 == 0
    ensures BitStep16(c) == c << 1
  {
    SmallStep16(c, c << 1);
  }

  lemma Shift16By1(c: bv16)
    requires c & 0xff00 == 0
    ensures BitStep16(c << 1) == c << 2
  {
    SmallStep16(c << 1, c << 2);
  }

  lemma Shift16By2(c: bv16)
    requires c & 0xff00 == 0
    ensures BitStep16(c << 2) == c << 3
  {
    SmallStep16(c << 2, c << 3);
  }

  lemma Shift16By3(c: bv16)
    requires c & 0xff00 == 0
    ensures BitStep16(c << 3) == c << 4
  {
    SmallStep16(c << 3, c << 4);
  }

  lemma Shift16By4(c: bv16)
    requires c & 0xff00 == 0
    ensures BitStep16(c << 4) == c << 5
  {
    SmallStep16(c << 4, c << 5);
  }

  lemma Shift16By5(c: bv16)
    requires c & 0xff00 == 0
    ensures BitStep16(c << 5) == c << 6
  {
    SmallStep16(c << 5, c << 6);
  }

  lemma Shift16By6(c: bv16)
    requires c & 0xff00 == 0
    ensures BitStep16(c << 6) == c << 7
  {
    SmallStep16(c << 6, c << 7);
  }

  lemma Shift16By7(c: bv16)
    requires c & 0xff00 == 0
    ensures BitStep16(c << 7) == c << 8
  {
    SmallStep16(c << 7, c << 8);
  }

  /** With the high byte clear, eight steps are a shift by eight. */
  lemma ByteStep16Shifts(c: bv16)
    requires c & 0xff00 == 0
    ensures ByteStep16(c) == c << 8
  {
    Shift16By0(c);
    Shift16By1(c);
    Shift16By2(c);
    Shift16By3(c);
    Shift16By4(c);
    Shift16By5(c);
    Shift16By6(c);
    Shift16By7(c);
    IterateChain(BitStep16, c, c << 1, c << 2, c << 3, c << 4, c << 5, c << 6, c << 7, c << 8);
  }

  lemma ShiftedBack(x: bv16)
    requires x & 0xff == 0
    ensures (x >> 8) & 0xff00 == 0 && (x >> 8) << 8 == x
  {
  }

  lemma RoomStep16(b: Byte, x: bv16)
    ensures x == 0 ==> (((b as bv16) << 8) ^ (x >> 8)) & 0xff == 0
  {
  }

  lemma Crc16Roomy()
    ensures Roomy(CRC16)
  {
    forall x, n: nat | n < 2 && Room16(x, n) ensures ByteStep16(Ahead16(x)) == x {
      ShiftedBack(x);
      ByteStep16Shifts(x >> 8);
    }
    forall x, n: nat, b | n < 2 && Room16(x, n) ensures Room16(Xor16(High(b), Ahead16(x)), n + 1) {
      RoomStep16(b, x);
    }
  }

  lemma SeparateBytes16(a: Byte, x: bv16, b: Byte, y: bv16)
    requires x & 0xff == 0 && y & 0xff == 0 && ((a as bv16) << 8) ^ (x >> 8) == ((b as bv16) << 8) ^ (y >> 8)
    ensures a == b && x == y
  {
  }

  lemma Crc16Separate()
    ensures Separate(CRC16)
  {
    forall x, y, n: nat, a, b
      | n < 2 && Room16(x, n) && Room16(y, n) && Xor16(High(a), Ahead16(x)) == Xor16(High(b), Ahead16(y))
      ensures a == b && x == y
    {
      SeparateBytes16(a, x, b, y);
    }
  }

  /** Messages that differ only inside a window of at most two bytes have different CRC-16s. */
  lemma DetectsBursts16(before: seq<Byte>, v: seq<Byte>, w: seq<Byte>, after: seq<Byte>)
    requires |v| == |w| <= 2 && v != w
    ensures Crc16(before + v + after) != Crc16(before + w + after)
  {
    Xor16IsXorlike();
    ByteStep16Additive();
    ByteStep16Injective();
    Crc16Roomy();
    Crc16Separate();
    BurstsShow(CRC16, 0, before, v, w, after);
  }

  // ------------------------------------------------------------------ crc16tab

  lemma Crc16TabRows0(n: Byte)
    requires n < 4
    ensures Shifted(Crc16Tab(n), Crc16Tab(0), Xor16)
  {
    assert n == 0 || n == 1 || n == 2 || n == 3;
  }

  lemma Crc16TabRows4(n: Byte)
    requires 4 <= n < 8
    ensures Shifted(Crc16Tab(n), Crc16Tab(0), Xor16)
  {
    assert n == 4 || n == 5 || n == 6 || n == 7;
  }

  lemma Crc16TabRows8(n: Byte)
    requires 8 <= n < 12
    ensures Shifted(Crc16Tab(n), Crc16Tab(0), Xor16)
  {
    assert n == 8 || n == 9 || n == 10 || n == 11;
  }

  lemma Crc16TabRows12(n: Byte)
    requires 12 <= n < 16
    ensures Shifted(Crc16Tab(n), Crc16Tab(0), Xor16)
  {
    assert n == 12 || n == 13 || n == 14 || n == 15;
  }

  lemma Crc16TabSpanned()
    ensures Spanned(Crc16Tab(0), 0, Xor16) && Spanned(Heads(Crc16Tab), 0, Xor16)
  {
  }

  lemma Crc16TabLinear()
    ensures Linear(Crc16Tab, 0, Xor16)
  {
    Crc16TabSpanned();
    forall n: Byte | n < 16 ensures Shifted(Crc16Tab(n), Crc16Tab(0), Xor16) {
      if n < 4 { Crc16TabRows0(n); }
      else if n < 8 { Crc16TabRows4(n); }
      else if n < 12 { Crc16TabRows8(n); }
      else { Crc16TabRows12(n); }
    }
  }

  function EntryOf16(i: Byte): bv16 {
    ByteStep16(High(i))
  }

  lemma DoubleStep(c: bv16, d: bv16)
    requires BitStep16(c) == d
    ensures ByteStep16(d) == BitStep16(ByteStep16(c))
  {
    IterateShift(BitStep16, 8, c);
  }

  lemma LowestBit()
    ensures ByteStep16(0x100) == 0x1021
  {
    IterateChain(BitStep16, 0x100, 0x200, 0x400, 0x800, 0x1000, 0x2000, 0x4000, 0x8000, 0x1021);
  }

  lemma Crc16TabChain()
    ensures Crc16Tab(0).e1 == 0x1021 && Crc16Tab(0).e2 == BitStep16(Crc16Tab(0).e1)
    ensures Crc16Tab(0).e4 == BitStep16(Crc16Tab(0).e2) && Crc16Tab(0).e8 == BitStep16(Crc16Tab(0).e4)
    ensures Crc16Tab(1).e0 == BitStep16(Crc16Tab(0).e8) && Crc16Tab(2).e0 == BitStep16(Crc16Tab(1).e0)
    ensures Crc16Tab(4).e0 == BitStep16(Crc16Tab(2).e0) && Crc16Tab(8).e0 == BitStep16(Crc16Tab(4).e0)
  {
  }

  lemma Crc16TabAgrees()
    ensures Agrees(Crc16Tab, 0, EntryOf16)
  {
    LowestBit();
    Crc16TabChain();
    DoubleStep(0x100, 0x200);
    DoubleStep(0x200, 0x400);
    DoubleStep(0x400, 0x800);
    DoubleStep(0x800, 0x1000);
    DoubleStep(0x1000, 0x2000);
    DoubleStep(0x2000, 0x4000);
    DoubleStep(0x4000, 0x8000);
    ByteStep16Shifts(0);
  }

  lemma HighLinear(a: Byte, b: Byte)
    ensures ((a ^ b) as bv16) << 8 == ((a as bv16) << 8) ^ ((b as bv16) << 8)
  {
  }

  lemma Entry16Additive()
    ensures Additive(EntryOf16, XorByte, Xor16)
  {
    ByteStep16Additive();
    forall a, b ensures High(XorByte(a, b)) == Xor16(High(a), High(b)) { HighLinear(a, b); }
    forall a, b ensures EntryOf16(XorByte(a, b)) == Xor16(EntryOf16(a), EntryOf16(b)) {
      RoundAdditive(CRC16, XorByte, a, b);
    }
  }

  /** Every entry of crc16tab is eight bit steps of its index in the high byte. */
  lemma Crc16TabEntry(i: Byte)
    ensures Entry(Crc16Tab, i) == EntryOf16(i)
  {
    Crc16TabLinear();
    Crc16TabAgrees();
    Entry16Additive();
    TableOf(Crc16Tab, 0, Xor16, EntryOf16, i);
  }

  lemma StepByTable16(c: bv16, b: Byte, index: Byte, rest: bv16, moved: bv16)
    requires Xor16(c, High(b)) == Xor16(High(index), rest) && ByteStep16(rest) == moved
    ensures Xor16(Entry(Crc16Tab, index), moved) == Absorb(CRC16, c, b)
  {
    Crc16TabEntry(index);
    ByteStep16Additive();
    TableStep(CRC16, c, b, index, rest, Entry(Crc16Tab, index), moved);
  }

  lemma SplitWord16(c: bv16, b: Byte, index: Byte, rest: bv16)
    requires index == (c >> 8) as Byte ^ b && rest == c & 0xff
    ensures c ^ ((b as bv16) << 8) == ((index as bv16) << 8) ^ rest
    ensures rest & 0xff00 == 0
    ensures rest << 8 == c << 8
  {
  }

  lemma SplitXor16(c: bv16, b: Byte, index: Byte, rest: bv16)
    requires c ^ ((b as bv16) << 8) == ((index as bv16) << 8) ^ rest
    ensures Xor16(c, High(b)) == Xor16(High(index), rest)
  {
  }

  lemma RestStep16(c: bv16, b: Byte, index: Byte, rest: bv16)
    requires c ^ ((b as bv16) << 8) == ((index as bv16) << 8) ^ rest && rest & 0xff00 == 0 && rest << 8 == c << 8
    ensures Xor16(Entry(Crc16Tab, index), c << 8) == Absorb(CRC16, c, b)
  {
    SplitXor16(c, b, index, rest);
    ByteStep16Shifts(rest);
    StepByTable16(c, b, index, rest, c << 8);
  }

  lemma Crc16TabStep(c: bv16, b: Byte, index: Byte)
    requires index == (c >> 8) as Byte ^ b
    ensures Xor16(Entry(Crc16Tab, index), c << 8) == Absorb(CRC16, c, b)
  {
    var rest := c & 0xff;
    SplitWord16(c, b, index, rest);
    RestStep16(c, b, index, rest);
  }

  // ------------------------------------------------------------------ the CRC-16 loop

  /** The accumulator's bytes: the register, below the high bytes it had one and two bytes earlier. */
  function Stacked(older: bv16, last: bv16, now: bv16): bv32 {
    (((older >> 8) as bv32) << 24) | (((last >> 8) as bv32) << 16) | (now as bv32)
  }

  function Index16(crc: bv32, b: Byte): Byte {
    (((crc >> 8) ^ SignExtend(b)) & 0xff) as Byte
  }

  lemma SignedLow(b: Byte)
    ensures SignExtend(b) & 0xff == b as bv32
  {
  }

  lemma HighByte(older: bv16, last: bv16, now: bv16, b: Byte, stacked: bv32, signed: bv32)
    requires stacked == (((older >> 8) as bv32) << 24) | (((last >> 8) as bv32) << 16) | (now as bv32)
    requires signed & 0xff == b as bv32
    ensures (((stacked >> 8) ^ signed) & 0xff) as Byte == (now >> 8) as Byte ^ b
  {
  }

  lemma Index16IsHigh(older: bv16, last: bv16, now: bv16, b: Byte)
    ensures Index16(Stacked(older, last, now), b) == (now >> 8) as Byte ^ b
  {
    SignedLow(b);
    HighByte(older, last, now, b, Stacked(older, last, now), SignExtend(b));
  }

  lemma StackMoves(older: bv16, last: bv16, now: bv16, entry: bv16)
    ensures (Stacked(older, last, now) << 8) ^ (entry as bv32) == Stacked(last, now, entry ^ (now << 8))
  {
  }

  function After(key: seq<Byte>, n: int): bv16
    requires n <= |key|
  {
    if n < 0 then 0 else Crc16(key[..n])
  }

  lemma AfterNext(key: seq<Byte>, i: nat)
    requires i < |key|
    ensures After(key, i + 1) == Absorb(CRC16, After(key, i), key[i])
  {
    assert key[..i + 1] == key[..i] + [key[i]];
    FeedConcat(CRC16, 0, key[..i], [key[i]]);
  }

  /** One iteration of hash_crc16. */
  function Hash16Step(crc: bv32, b: Byte): bv32 {
    (crc << 8) ^ (Entry(Crc16Tab, Index16(crc, b)) as bv32)
  }

  lemma Hash16StepStacks(older: bv16, last: bv16, now: bv16, b: Byte)
    ensures Hash16Step(Stacked(older, last, now), b) == Stacked(last, now, Absorb(CRC16, now, b))
  {
    var index := (now >> 8) as Byte ^ b;
    Index16IsHigh(older, last, now, b);
    Crc16TabStep(now, b, index);
    StackMoves(older, last, now, Entry(Crc16Tab, index));
  }

  /** hash_crc16: the low sixteen bits are the CRC-16; above it, the unmasked accumulator still shows its past. */
  method HashCrc16(key: seq<Byte>) returns (crc: bv32)
    ensures crc == Stacked(After(key, |key| - 2), After(key, |key| - 1), Crc16(key))
  {
    crc := 0;
    var i := 0;
    while i < |key|
      invariant i <= |key| && crc == Stacked(After(key, i - 2), After(key, i - 1), After(key, i))
    {
      Hash16StepStacks(After(key, i - 2), After(key, i - 1), After(key, i), key[i]);
      AfterNext(key, i);
      crc := Hash16Step(crc, key[i]);
      i := i + 1;
    }
    assert key[..|key|] == key;
  }

  /** What a caller that masks the hash gets. */
  lemma LowHalf(older: bv16, last: bv16, now: bv16)
    ensures Stacked(older, last, now) & 0xffff == now as bv32
  {
  }
}
