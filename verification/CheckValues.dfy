/**
  Check values: what the checksums and the hash give for fixed messages, worked out step by step. The values for
  the digits one to nine are those by which the two CRCs are known.
 */
module CheckValues {
  import opened Folding
  import opened Registers
  import opened Crc
  import opened BlockHash
  import opened Murmur
  import opened Words

  /** The characters 1 to 9. */
  const DIGITS: seq<Byte> := [0x31, 0x32, 0x33, 0x34, 0x35, 0x36, 0x37, 0x38, 0x39]

  // ------------------------------------------------------------------ CRC-32

  /** One bit of the polynomial division. */
  predicate Divides(c: bv32, d: bv32) {
    d == if c & 1 == 1 then (c >> 1) ^ 0xedb88320 else c >> 1
  }

  lemma DividesStep(c: bv32, d: bv32)
    requires Divides(c, d)
    ensures BitStep(c) == d
  {
  }

  lemma Absorbs(c: bv32, b: Byte, x: bv32, c1: bv32, c2: bv32, c3: bv32, c4: bv32, c5: bv32, c6: bv32, c7: bv32,
                c8: bv32)
    requires Xor(c, Low(b)) == x
    requires Divides(x, c1) && Divides(c1, c2) && Divides(c2, c3) && Divides(c3, c4)
    requires Divides(c4, c5) && Divides(c5, c6) && Divides(c6, c7) && Divides(c7, c8)
    ensures Absorb(CRC32, c, b) == c8
  {
    DividesStep(x, c1);
    DividesStep(c1, c2);
    DividesStep(c2, c3);
    DividesStep(c3, c4);
    DividesStep(c4, c5);
    DividesStep(c5, c6);
    DividesStep(c6, c7);
    DividesStep(c7, c8);
    IterateChain(BitStep, x, c1, c2, c3, c4, c5, c6, c7, c8);
  }

  lemma Crc32Byte1()
    ensures Absorb(CRC32, 0xffffffff, 0x31) == 0x7c231048
  {
    Absorbs(0xffffffff, 0x31, 0xffffffce, 0x7fffffe7, 0xd2477cd3, 0x849b3d49, 0xaff51d84,
      0x57fa8ec2, 0x2bfd4761, 0xf8462090, 0x7c231048);
  }

  lemma Crc32Byte2()
    ensures Absorb(CRC32, 0x7c231048, 0x32) == 0xb0acbb32
  {
    Absorbs(0x7c231048, 0x32, 0x7c23107a, 0x3e11883d, 0xf2b0473e, 0x7958239f, 0xd11492ef,
      0x8532ca57, 0xaf21e60b, 0xba287025, 0xb0acbb32);
  }

  lemma Crc32Byte3()
    ensures Absorb(CRC32, 0xb0acbb32, 0x33) == 0x77b79c2d
  {
    Absorbs(0xb0acbb32, 0x33, 0xb0acbb01, 0xb5eedea0, 0x5af76f50, 0x2d7bb7a8, 0x16bddbd4,
      0x0b5eedea, 0x05af76f5, 0xef6f385a, 0x77b79c2d);
  }

  lemma Crc32Byte4()
    ensures Absorb(CRC32, 0x77b79c2d, 0x34) == 0x641c1f5c
  {
    Absorbs(0x77b79c2d, 0x34, 0x77b79c19, 0xd6634d2c, 0x6b31a696, 0x3598d34b, 0xf774ea85,
      0x9602f662, 0x4b017b31, 0xc8383eb8, 0x641c1f5c);
  }

  lemma Crc32Byte5()
    ensures Absorb(CRC32, 0x641c1f5c, 0x35) == 0x340ac5e3
  {
    Absorbs(0x641c1f5c, 0x35, 0x641c1f69, 0xdfb68c94, 0x6fdb464a, 0x37eda325, 0xf64e52b2,
      0x7b272959, 0xd02b178c, 0x68158bc6, 0x340ac5e3);
  }

  lemma Crc32Byte6()
    ensures Absorb(CRC32, 0x340ac5e3, 0x36) == 0xf68d2c9e
  {
    Absorbs(0x340ac5e3, 0x36, 0x340ac5d5, 0xf7bde1ca, 0x7bdef0e5, 0xd057fb52, 0x682bfda9,
      0xd9ad7df4, 0x6cd6befa, 0x366b5f7d, 0xf68d2c9e);
  }

  lemma Crc32Byte7()
    ensures Absorb(CRC32, 0xf68d2c9e, 0x37) == 0xaffc9660
  {
    Absorbs(0xf68d2c9e, 0x37, 0xf68d2ca9, 0x96fe1574, 0x4b7f0aba, 0x25bf855d, 0xff67418e,
      0x7fb3a0c7, 0xd2615343, 0x84882a81, 0xaffc9660);
  }

  lemma Crc32Byte8()
    ensures Absorb(CRC32, 0xaffc9660, 0x38) == 0x651f2550
  {
    Absorbs(0xaffc9660, 0x38, 0xaffc9658, 0x57fe4b2c, 0x2bff2596, 0x15ff92cb, 0xe7474a45,
      0x9e1b2602, 0x4f0d9301, 0xca3e4aa0, 0x651f2550);
  }

  lemma Crc32Byte9()
    ensures Absorb(CRC32, 0x651f2550, 0x39) == 0x340bc6d9
  {
    Absorbs(0x651f2550, 0x39, 0x651f2569, 0xdf371194, 0x6f9b88ca, 0x37cdc465, 0xf65e6112,
      0x7b2f3089, 0xd02f1b64, 0x68178db2, 0x340bc6d9);
  }

  lemma FedOn<W, S>(r: Register<W, S>, c: W, data: seq<S>, i: nat, d: W)
    requires i < |data| && Absorb(r, c, data[i]) == d
    ensures Feed(r, c, data[i..]) == Feed(r, d, data[i + 1..])
  {
    FeedStep(r, c, data, i);
  }

  lemma Crc32First(data: seq<Byte>)
    requires data == DIGITS
    ensures Feed(CRC32, 0xffffffff, data) == Feed(CRC32, 0x340ac5e3, data[5..])
  {
    Crc32Byte1();
    FedOn(CRC32, 0xffffffff, data, 0, 0x7c231048);
    Crc32Byte2();
    FedOn(CRC32, 0x7c231048, data, 1, 0xb0acbb32);
    Crc32Byte3();
    FedOn(CRC32, 0xb0acbb32, data, 2, 0x77b79c2d);
    Crc32Byte4();
    FedOn(CRC32, 0x77b79c2d, data, 3, 0x641c1f5c);
    Crc32Byte5();
    FedOn(CRC32, 0x641c1f5c, data, 4, 0x340ac5e3);
    assert data[0..] == data;
  }

  lemma Crc32Last(data: seq<Byte>)
    requires data == DIGITS
    ensures Feed(CRC32, 0x340ac5e3, data[5..]) == 0x340bc6d9
  {
    Crc32Byte6();
    FedOn(CRC32, 0x340ac5e3, data, 5, 0xf68d2c9e);
    Crc32Byte7();
    FedOn(CRC32, 0xf68d2c9e, data, 6, 0xaffc9660);
    Crc32Byte8();
    FedOn(CRC32, 0xaffc9660, data, 7, 0x651f2550);
    Crc32Byte9();
    FedOn(CRC32, 0x651f2550, data, 8, 0x340bc6d9);
    assert data[9..] == [];
  }

  /** The check value of CRC-32. */
  lemma Crc32Check()
    ensures Crc32(DIGITS) == 0xcbf43926
  {
    Crc32First(DIGITS);
    Crc32Last(DIGITS);
  }

  // ------------------------------------------------------------------ CRC-16

  predicate Divides16(c: bv16, d: bv16) {
    d == if c & 0x8000 == 0x8000 then (c << 1) ^ 0x1021 else c << 1
  }

  lemma DividesStep16(c: bv16, d: bv16)
    requires Divides16(c, d)
    ensures BitStep16(c) == d
  {
  }

  lemma Absorbs16(c: bv16, b: Byte, x: bv16, c1: bv16, c2: bv16, c3: bv16, c4: bv16, c5: bv16, c6: bv16, c7: bv16,
                  c8: bv16)
    requires Xor16(c, High(b)) == x
    requires Divides16(x, c1) && Divides16(c1, c2) && Divides16(c2, c3) && Divides16(c3, c4)
    requires Divides16(c4, c5) && Divides16(c5, c6) && Divides16(c6, c7) && Divides16(c7, c8)
    ensures Absorb(CRC16, c, b) == c8
  {
    DividesStep16(x, c1);
    DividesStep16(c1, c2);
    DividesStep16(c2, c3);
    DividesStep16(c3, c4);
    DividesStep16(c4, c5);
    DividesStep16(c5, c6);
    DividesStep16(c6, c7);
    DividesStep16(c7, c8);
    IterateChain(BitStep16, x, c1, c2, c3, c4, c5, c6, c7, c8);
  }

  lemma Crc16Byte1()
    ensures Absorb(CRC16, 0x0000, 0x31) == 0x2672
  {
    Absorbs16(0x0000, 0x31, 0x3100, 0x6200, 0xc400, 0x9821, 0x2063,
      0x40c6, 0x818c, 0x1339, 0x2672);
  }

  lemma Crc16Byte2()
    ensures Absorb(CRC16, 0x2672, 0x32) == 0x20b5
  {
    Absorbs16(0x2672, 0x32, 0x1472, 0x28e4, 0x51c8, 0xa390, 0x5701,
      0xae02, 0x4c25, 0x984a, 0x20b5);
  }

  lemma Crc16Byte3()
    ensures Absorb(CRC16, 0x20b5, 0x33) == 0x9752
  {
    Absorbs16(0x20b5, 0x33, 0x13b5, 0x276a, 0x4ed4, 0x9da8, 0x2b71,
      0x56e2, 0xadc4, 0x4ba9, 0x9752);
  }

  lemma Crc16Byte4()
    ensures Absorb(CRC16, 0x9752, 0x34) == 0xd789
  {
    Absorbs16(0x9752, 0x34, 0xa352, 0x5685, 0xad0a, 0x4a35, 0x946a,
      0x38f5, 0x71ea, 0xe3d4, 0xd789);
  }

  lemma Crc16Byte5()
    ensures Absorb(CRC16, 0xd789, 0x35) == 0x546c
  {
    Absorbs16(0xd789, 0x35, 0xe289, 0xd533, 0xba47, 0x64af, 0xc95e,
      0x829d, 0x151b, 0x2a36, 0x546c);
  }

  lemma Crc16Byte6()
    ensures Absorb(CRC16, 0x546c, 0x36) == 0x20e4
  {
    Absorbs16(0x546c, 0x36, 0x626c, 0xc4d8, 0x9991, 0x2303, 0x4606,
      0x8c0c, 0x0839, 0x1072, 0x20e4);
  }

  lemma Crc16Byte7()
    ensures Absorb(CRC16, 0x20e4, 0x37) == 0x86d6
  {
    Absorbs16(0x20e4, 0x37, 0x17e4, 0x2fc8, 0x5f90, 0xbf20, 0x6e61,
      0xdcc2, 0xa9a5, 0x436b, 0x86d6);
  }

  lemma Crc16Byte8()
    ensures Absorb(CRC16, 0x86d6, 0x38) == 0x9015
  {
    Absorbs16(0x86d6, 0x38, 0xbed6, 0x6d8d, 0xdb1a, 0xa615, 0x5c0b,
      0xb816, 0x600d, 0xc01a, 0x9015);
  }

  lemma Crc16Byte9()
    ensures Absorb(CRC16, 0x9015, 0x39) == 0x31c3
  {
    Absorbs16(0x9015, 0x39, 0xa915, 0x420b, 0x8416, 0x180d, 0x301a,
      0x6034, 0xc068, 0x90f1, 0x31c3);
  }

  lemma Crc16First(data: seq<Byte>)
    requires data == DIGITS
    ensures Feed(CRC16, 0x0000, data) == Feed(CRC16, 0x546c, data[5..])
  {
    Crc16Byte1();
    FedOn(CRC16, 0x0000, data, 0, 0x2672);
    Crc16Byte2();
    FedOn(CRC16, 0x2672, data, 1, 0x20b5);
    Crc16Byte3();
    FedOn(CRC16, 0x20b5, data, 2, 0x9752);
    Crc16Byte4();
    FedOn(CRC16, 0x9752, data, 3, 0xd789);
    Crc16Byte5();
    FedOn(CRC16, 0xd789, data, 4, 0x546c);
    assert data[0..] == data;
  }

  lemma Crc16Last(data: seq<Byte>)
    requires data == DIGITS
    ensures Feed(CRC16, 0x546c, data[5..]) == 0x31c3
  {
    Crc16Byte6();
    FedOn(CRC16, 0x546c, data, 5, 0x20e4);
    Crc16Byte7();
    FedOn(CRC16, 0x20e4, data, 6, 0x86d6);
    Crc16Byte8();
    FedOn(CRC16, 0x86d6, data, 7, 0x9015);
    Crc16Byte9();
    FedOn(CRC16, 0x9015, data, 8, 0x31c3);
    assert data[9..] == [];
  }

  /** The check value of the CRC-16 with polynomial 0x1021 and start value zero. */
  lemma Crc16Check()
    ensures Crc16(DIGITS) == 0x31c3
  {
    Crc16First(DIGITS);
    Crc16Last(DIGITS);
  }

  // ------------------------------------------------------------------ Murmur

  /** One whole block and a tail, for any mixer. */
  lemma BlockAndTail<W>(m: Mixer<W>, key: seq<Byte>, h: W, k: W, mixed: W, h1: W, h2: W, word: W, x: W, y: W, r: W)
    requires 4 < |key| < 8 && m.start(|key|) == h && m.load(key[0], key[1], key[2], key[3]) == k
    requires m.mix(k) == mixed && m.times(h) == h1 && m.plus(h1, mixed) == h2
    requires TailWord(m, key[4..]) == word && m.plus(h2, word) == x && m.times(x) == y && m.finish(y) == r
    ensures Hash(m, key) == r
  {
    var rest := key[4..];
    assert Rest(rest) == rest && Blocks(m, h2, rest) == h2;
    assert Rest(key) == rest && Blocks(m, h, key) == Blocks(m, Combine(m, h, k), rest);
  }

  lemma LoadAbcd()
    ensures Load(0x61, 0x62, 0x63, 0x64) == 0x64636261
  {
  }

  lemma MixAbcd()
    ensures Mix(0x64636261) == 0xecf5b977
  {
  }

  lemma Start5()
    ensures Start(5) == 0x5964baae
  {
    assert 5 % 0x1_0000_0000 == 5;
    var n: bv32 := 5;
    assert (5 % 0x1_0000_0000) as bv32 == n;
  }

  lemma Times5()
    ensures Times(0x5964baae) == 0xf7970546
  {
  }

  lemma Plus5()
    ensures Xor(0xf7970546, 0xecf5b977) == 0x1b62bc31
  {
  }

  lemma TailPlus5()
    ensures Xor(0x1b62bc31, 0x00000065) == 0x1b62bc54
  {
  }

  lemma TailTimes5()
    ensures Times(0x1b62bc54) == 0x6a7410e4
  {
  }

  lemma Finish5()
    ensures Finish(0x6a7410e4) == 0x9a263eda
  {
  }

  lemma TailWord5()
    ensures TailWord(MURMUR, [0x65]) == 0x00000065
  {
  }

  /** The hash of "abcde". */
  lemma Murmur5()
    ensures Hash(MURMUR, [0x61, 0x62, 0x63, 0x64, 0x65]) == 0x9a263eda
  {
    var key: seq<Byte> := [0x61, 0x62, 0x63, 0x64, 0x65];
    assert key[4..] == [0x65];
    Start5();
    LoadAbcd();
    MixAbcd();
    Times5();
    Plus5();
    TailWord5();
    TailPlus5();
    TailTimes5();
    Finish5();
    BlockAndTail(MURMUR, key, 0x5964baae, 0x64636261, 0xecf5b977, 0xf7970546, 0x1b62bc31, 0x00000065, 0x1b62bc54,
      0x6a7410e4, 0x9a263eda);
  }

  lemma Start6()
    ensures Start(6) == 0x3812799c
  {
    assert 6 % 0x1_0000_0000 == 6;
    var n: bv32 := 6;
    assert (6 % 0x1_0000_0000) as bv32 == n;
  }

  lemma Times6()
    ensures Times(0x3812799c) == 0x2fcbc3cc
  {
  }

  lemma Plus6()
    ensures Xor(0x2fcbc3cc, 0xecf5b977) == 0xc33e7abb
  {
  }

  lemma TailPlus6()
    ensures Xor(0xc33e7abb, 0x00006665) == 0xc33e1cde
  {
  }

  lemma TailTimes6()
    ensures Times(0xc33e1cde) == 0xa6aadb36
  {
  }

  lemma Finish6()
    ensures Finish(0xa6aadb36) == 0xe0badc96
  {
  }

  lemma TailWord6()
    ensures TailWord(MURMUR, [0x65, 0x66]) == 0x00006665
  {
  }

  /** The hash of "abcdef". */
  lemma Murmur6()
    ensures Hash(MURMUR, [0x61, 0x62, 0x63, 0x64, 0x65, 0x66]) == 0xe0badc96
  {
    var key: seq<Byte> := [0x61, 0x62, 0x63, 0x64, 0x65, 0x66];
    assert key[4..] == [0x65, 0x66];
    Start6();
    LoadAbcd();
    MixAbcd();
    Times6();
    Plus6();
    TailWord6();
    TailPlus6();
    TailTimes6();
    Finish6();
    BlockAndTail(MURMUR, key, 0x3812799c, 0x64636261, 0xecf5b977, 0x2fcbc3cc, 0xc33e7abb, 0x00006665, 0xc33e1cde,
      0xa6aadb36, 0xe0badc96);
  }

  lemma Start7()
    ensures Start(7) == 0x16c0388e
  {
    assert 7 % 0x1_0000_0000 == 7;
    var n: bv32 := 7;
    assert (7 % 0x1_0000_0000) as bv32 == n;
  }

  lemma Times7()
    ensures Times(0x16c0388e) == 0xd74828a6
  {
  }

  lemma Plus7()
    ensures Xor(0xd74828a6, 0xecf5b977) == 0x3bbd91d1
  {
  }

  lemma TailPlus7()
    ensures Xor(0x3bbd91d1, 0x00676665) == 0x3bdaf7b4
  {
  }

  lemma TailTimes7()
    ensures Times(0x3bdaf7b4) == 0x57d8ffc4
  {
  }

  lemma Finish7()
    ensures Finish(0x57d8ffc4) == 0xeba746f2
  {
  }

  lemma TailWord7()
    ensures TailWord(MURMUR, [0x65, 0x66, 0x67]) == 0x00676665
  {
  }

  /** The hash of "abcdefg". */
  lemma Murmur7()
    ensures Hash(MURMUR, [0x61, 0x62, 0x63, 0x64, 0x65, 0x66, 0x67]) == 0xeba746f2
  {
    var key: seq<Byte> := [0x61, 0x62, 0x63, 0x64, 0x65, 0x66, 0x67];
    assert key[4..] == [0x65, 0x66, 0x67];
    Start7();
    LoadAbcd();
    MixAbcd();
    Times7();
    Plus7();
    TailWord7();
    TailPlus7();
    TailTimes7();
    Finish7();
    BlockAndTail(MURMUR, key, 0x16c0388e, 0x64636261, 0xecf5b977, 0xd74828a6, 0x3bbd91d1, 0x00676665, 0x3bdaf7b4,
      0x57d8ffc4, 0xeba746f2);
  }
}
