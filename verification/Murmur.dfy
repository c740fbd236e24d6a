/**
  The Murmur hash of hashkit/murmur.cc. Each mixing step is a bijection of 32-bit words with
  an explicit inverse, so a change confined to one block, or to the tail, always shows.
 */
module Murmur {
  import opened Folding
  import opened BlockHash
  import opened Words

  // ------------------------------------------------------------------ mixing steps

  function Times(x: bv32): bv32 {
    x * 0x5bd1e995
  }

  /** The other factor is the inverse of the first modulo 2^32. */
  function TimesBack(x: bv32): bv32 {
    x * 0xe59b19bd
  }

  function Shake24(x: bv32): bv32 {
    x ^ (x >> 24)
  }

  function Shake13(x: bv32): bv32 {
    x ^ (x >> 13)
  }

  function Shake13Back(x: bv32): bv32 {
    x ^ (x >> 13) ^ (x >> 26)
  }

  function Shake15(x: bv32): bv32 {
    x ^ (x >> 15)
  }

  function Shake15Back(x: bv32): bv32 {
    x ^ (x >> 15) ^ (x >> 30)
  }

  lemma TimesUndone(x: bv32)
    ensures TimesBack(x * 0x5bd1e995) == x
  {
  }

  lemma TimesValue(x: bv32, y: bv32)
    requires y == Times(x)
    ensures y == x * 0x5bd1e995
  {
  }

  lemma TimesBackUndone(x: bv32)
    ensures Times(x * 0xe59b19bd) == x
  {
  }

  lemma TimesBackValue(x: bv32, y: bv32)
    requires y == TimesBack(x)
    ensures y == x * 0xe59b19bd
  {
  }

  lemma Shake24Undone(x: bv32)
    ensures Shake24(x ^ (x >> 24)) == x
  {
  }

  lemma Shake24Value(x: bv32, y: bv32)
    requires y == Shake24(x)
    ensures y == x ^ (x >> 24)
  {
  }

  lemma Shake13Undone(x: bv32)
    ensures Shake13Back(x ^ (x >> 13)) == x
  {
  }

  lemma Shake13Value(x: bv32, y: bv32)
    requires y == Shake13(x)
    ensures y == x ^ (x >> 13)
  {
  }

  lemma Shake15Undone(x: bv32)
    ensures Shake15Back(x ^ (x >> 15)) == x
  {
  }

  lemma Shake15Value(x: bv32, y: bv32)
    requires y == Shake15(x)
    ensures y == x ^ (x >> 15)
  {
  }

  lemma Shake13BackUndone(x: bv32)
    ensures Shake13(x ^ (x >> 13) ^ (x >> 26)) == x
  {
  }

  lemma Shake13BackValue(x: bv32, y: bv32)
    requires y == Shake13Back(x)
    ensures y == x ^ (x >> 13) ^ (x >> 26)
  {
  }

  lemma Shake15BackUndone(x: bv32)
    ensures Shake15(x ^ (x >> 15) ^ (x >> 30)) == x
  {
  }

  lemma Shake15BackValue(x: bv32, y: bv32)
    requires y == Shake15Back(x)
    ensures y == x ^ (x >> 15) ^ (x >> 30)
  {
  }

  lemma TimesInverse()
    ensures Inverse(Times, TimesBack)
  {
    forall x ensures TimesBack(Times(x)) == x { TimesUndone(x); TimesValue(x, Times(x)); }
    forall x ensures Times(TimesBack(x)) == x { TimesBackUndone(x); TimesBackValue(x, TimesBack(x)); }
  }

  lemma Shake24Inverse()
    ensures Inverse(Shake24, Shake24)
  {
    forall x ensures Shake24(Shake24(x)) == x { Shake24Undone(x); Shake24Value(x, Shake24(x)); }
  }

  lemma Shake13Inverse()
    ensures Inverse(Shake13, Shake13Back)
  {
    forall x ensures Shake13Back(Shake13(x)) == x { Shake13Undone(x); Shake13Value(x, Shake13(x)); }
    forall x ensures Shake13(Shake13Back(x)) == x { Shake13BackUndone(x); Shake13BackValue(x, Shake13Back(x)); }
  }

  lemma Shake15Inverse()
    ensures Inverse(Shake15, Shake15Back)
  {
    forall x ensures Shake15Back(Shake15(x)) == x { Shake15Undone(x); Shake15Value(x, Shake15(x)); }
    forall x ensures Shake15(Shake15Back(x)) == x { Shake15BackUndone(x); Shake15BackValue(x, Shake15Back(x)); }
  }

  /** The mixing of one block of the key. */
  function Mix(k: bv32): bv32 {
    Times(Shake24(Times(k)))
  }

  function MixBack(k: bv32): bv32 {
    TimesBack(Shake24(TimesBack(k)))
  }

  /** The final mixing. */
  function Finish(h: bv32): bv32 {
    Shake15(Times(Shake13(h)))
  }

  function FinishBack(h: bv32): bv32 {
    Shake13Back(TimesBack(Shake15Back(h)))
  }

  lemma MixInverse()
    ensures Inverse(Mix, MixBack)
  {
    TimesInverse();
    Shake24Inverse();
    forall x ensures MixBack(Mix(x)) == x && Mix(MixBack(x)) == x {
      ComposeInverse(Times, TimesBack, Shake24, Shake24, Times, TimesBack, x);
    }
  }

  lemma FinishInverse()
    ensures Inverse(Finish, FinishBack)
  {
    TimesInverse();
    Shake13Inverse();
    Shake15Inverse();
    forall x ensures FinishBack(Finish(x)) == x && Finish(FinishBack(x)) == x {
      ComposeInverse(Shake15, Shake15Back, Times, TimesBack, Shake13, Shake13Back, x);
    }
  }

  // ------------------------------------------------------------------ the hash

  /** The hash starts from the length, cut to 32 bits. */
  function Start(length: nat): bv32 {
    var n := (length % 0x1_0000_0000) as bv32;
    (0xdeadbeef * n) ^ n
  }

  /** A little-endian load. */
  function Load(a: Byte, b: Byte, c: Byte, d: Byte): bv32 {
    (a as bv32) | ((b as bv32) << 8) | ((c as bv32) << 16) | ((d as bv32) << 24)
  }

  function Store(x: bv32): (Byte, Byte, Byte, Byte) {
    ((x & 0xff) as Byte, ((x >> 8) & 0xff) as Byte, ((x >> 16) & 0xff) as Byte, (x >> 24) as Byte)
  }

  function Place(i: nat, b: Byte): bv32 {
    if i == 0 then b as bv32 else if i == 1 then (b as bv32) << 8 else (b as bv32) << 16
  }

  const MURMUR: Mixer<bv32> :=
    Mixer(Start, Times, TimesBack, Mix, MixBack, Finish, FinishBack, Xor, Load, Store, Place)

  // ------------------------------------------------------------------ its operations

  lemma LoadStore(x: bv32)
    ensures ((x & 0xff) as Byte as bv32) | ((((x >> 8) & 0xff) as Byte as bv32) << 8)
          | ((((x >> 16) & 0xff) as Byte as bv32) << 16) | (((x >> 24) as Byte as bv32) << 24) == x
  {
  }

  lemma LoadOfStore(x: bv32)
    ensures var (a, b, c, d) := Store(x); Load(a, b, c, d) == x
  {
    LoadStore(x);
  }

  lemma StoreLoad(a: Byte, b: Byte, c: Byte, d: Byte, x: bv32)
    requires x == (a as bv32) | ((b as bv32) << 8) | ((c as bv32) << 16) | ((d as bv32) << 24)
    ensures (x & 0xff) as Byte == a && ((x >> 8) & 0xff) as Byte == b
    ensures ((x >> 16) & 0xff) as Byte == c && (x >> 24) as Byte == d
  {
  }

  lemma StoreOfLoad(a: Byte, b: Byte, c: Byte, d: Byte)
    ensures Store(Load(a, b, c, d)) == (a, b, c, d)
  {
    StoreLoad(a, b, c, d, Load(a, b, c, d));
  }

  lemma OnePlace(a: Byte, b: Byte)
    requires a as bv32 == b as bv32
    ensures a == b
  {
  }

  lemma TwoPlaces(a: Byte, b: Byte, c: Byte, d: Byte)
    requires ((a as bv32) << 8) ^ (b as bv32) == ((c as bv32) << 8) ^ (d as bv32)
    ensures a == c && b == d
  {
  }

  lemma TwoBytes(a: Byte, b: Byte, c: Byte, d: Byte)
    requires Xor(Place(1, a), Place(0, b)) == Xor(Place(1, c), Place(0, d))
    ensures a == c && b == d
  {
    TwoPlaces(a, b, c, d);
  }

  lemma ThreeBytes(a: Byte, b: Byte, c: Byte, d: Byte, e: Byte, f: Byte, ab: bv32, de: bv32, x: bv32, y: bv32)
    requires ab == ((a as bv32) << 16) ^ ((b as bv32) << 8) && de == ((d as bv32) << 16) ^ ((e as bv32) << 8)
    requires x == ab ^ (c as bv32) && y == de ^ (f as bv32) && x == y
    ensures a == d && b == e && c == f
  {
  }

  lemma Joined(a: Byte, b: Byte)
    ensures Xor(Place(2, a), Place(1, b)) == ((a as bv32) << 16) ^ ((b as bv32) << 8)
  {
  }

  lemma Added(x: bv32, c: Byte)
    ensures Xor(x, Place(0, c)) == x ^ (c as bv32)
  {
  }

  lemma ThreeXors(a: Byte, b: Byte, c: Byte, d: Byte, e: Byte, f: Byte)
    requires Xor(Xor(Place(2, a), Place(1, b)), Place(0, c)) == Xor(Xor(Place(2, d), Place(1, e)), Place(0, f))
    ensures a == d && b == e && c == f
  {
    var ab, de := Xor(Place(2, a), Place(1, b)), Xor(Place(2, d), Place(1, e));
    Joined(a, b);
    Joined(d, e);
    Added(ab, c);
    Added(de, f);
    ThreeBytes(a, b, c, d, e, f, ab, de, Xor(ab, Place(0, c)), Xor(de, Place(0, f)));
  }

  lemma OneTail(v: seq<Byte>, w: seq<Byte>)
    requires |v| == |w| == 1 && TailWord(MURMUR, v) == TailWord(MURMUR, w)
    ensures v == w
  {
    OnePlace(v[0], w[0]);
  }

  lemma TwoTail(v: seq<Byte>, w: seq<Byte>)
    requires |v| == |w| == 2 && TailWord(MURMUR, v) == TailWord(MURMUR, w)
    ensures v == w
  {
    TwoBytes(v[1], v[0], w[1], w[0]);
  }

  lemma ThreeTail(v: seq<Byte>, w: seq<Byte>)
    requires |v| == |w| == 3 && TailWord(MURMUR, v) == TailWord(MURMUR, w)
    ensures v == w
  {
    ThreeXors(v[2], v[1], v[0], w[2], w[1], w[0]);
  }

  lemma TailsApart(v: seq<Byte>, w: seq<Byte>)
    requires 0 < |v| == |w| < 4 && TailWord(MURMUR, v) == TailWord(MURMUR, w)
    ensures v == w
  {
    if |v| == 1 { OneTail(v, w); }
    else if |v| == 2 { TwoTail(v, w); }
    else { ThreeTail(v, w); }
  }

  lemma MurmurUndoable()
    ensures Undoable(MURMUR)
  {
    TimesInverse();
    MixInverse();
    FinishInverse();
    XorSelfInverse();
    forall v, w | 0 < |v| == |w| < 4 && TailWord(MURMUR, v) == TailWord(MURMUR, w) ensures v == w { TailsApart(v, w); }
    forall x ensures var (a, b, c, d) := Store(x); Load(a, b, c, d) == x { LoadOfStore(x); }
    forall a, b, c, d ensures Store(Load(a, b, c, d)) == (a, b, c, d) { StoreOfLoad(a, b, c, d); }
  }

  // ------------------------------------------------------------------ results

  /** hash_murmur */
  method HashMurmur(key: seq<Byte>) returns (h: bv32)
    ensures h == Hash(MURMUR, key)
  {
    XorAssociative();
    h := HashWith(MURMUR, key);
  }

  /** Keys that differ only in one aligned block have different hashes. */
  lemma BlockChangeShows(before: seq<Byte>, v: seq<Byte>, w: seq<Byte>, after: seq<Byte>)
    requires |before| % 4 == 0 && |v| == |w| == 4 && v != w
    ensures Hash(MURMUR, before + v + after) != Hash(MURMUR, before + w + after)
  {
    MurmurUndoable();
    BlockChange(MURMUR, before, v, w, after);
  }

  /** Keys that differ only in the tail have different hashes. */
  lemma TailChangeShows(before: seq<Byte>, v: seq<Byte>, w: seq<Byte>)
    requires |before| % 4 == 0 && 0 < |v| == |w| < 4 && v != w
    ensures Hash(MURMUR, before + v) != Hash(MURMUR, before + w)
  {
    MurmurUndoable();
    TailChange(MURMUR, before, v, w);
  }

  /** Every 32-bit value is the hash of exactly one four-byte key. */
  lemma FourByteBijection(r: bv32, key: seq<Byte>)
    requires |key| == 4
    ensures Hash(MURMUR, key) == r <==> key == Unhash(MURMUR, r)
  {
    MurmurUndoable();
    FourBytes(MURMUR, r, key);
  }
}
