/** Counting and writing decimal digits: count_digits in its three forms, and format_decimal. */
module DecimalDigits {
  import opened Numerals
  import opened Splices
  import opened Sequences

  // ------------------------------------------------------------------ the bit-trick form

  /** The position above the highest set bit: 64 - clz(n) for a 64-bit n > 0. */
  function BitLength(n: nat): (k: nat)
    requires n > 0
    ensures k >= 1
    decreases n
  {
    if n == 1 then 1 else 1 + BitLength(n / 2)
  }

  lemma {:induction false} BitLengthBounds(n: nat)
    requires n > 0
    ensures Pow(2, BitLength(n) - 1) <= n < Pow(2, BitLength(n))
    decreases n
  {
    if n == 1 {
      assert Pow(2, 1) == 2 * Pow(2, 0);
    } else {
      BitLengthBounds(n / 2);
    }
  }

  /** n | 1 */
  function WithLowBit(n: nat): (m: nat)
    ensures m > 0
  {
    if n % 2 == 0 then n + 1 else n
  }

  /** The tables POWERS_OF_10_64 and POWERS_OF_10_32, the latter its first ten entries. */
  function PowersOf10(t: nat): nat
    requires t <= 19
  {
    if t == 0 then 0 else Pow(10, t)
  }

  /** floor(bits * 1233 / 4096), an estimate of bits * log10(2). */
  function Estimate(bits: nat): nat {
    bits * 1233 / 4096
  }

  /** count_digits for a machine word, both widths. */
  function CountDigits(n: nat, width: nat): nat
    requires width == 32 || width == 64
    requires n < Pow(2, width)
  {
    WordBits(n, width);
    var t := Estimate(BitLength(WithLowBit(n)));
    if n < PowersOf10(t) then t else t + 1
  }

  lemma EvenBound(n: nat, width: nat)
    requires width > 0 && n < Pow(2, width)
    ensures WithLowBit(n) < Pow(2, width)
  {
    BelowEven(n, Pow(2, width - 1));
  }

  lemma BelowEven(n: nat, half: nat)
    requires n < 2 * half
    ensures WithLowBit(n) < 2 * half
  {
  }

  lemma WordBits(n: nat, width: nat)
    requires width == 32 || width == 64
    requires n < Pow(2, width)
    ensures 1 <= BitLength(WithLowBit(n)) <= width
    ensures Estimate(BitLength(WithLowBit(n))) <= if width == 32 then 9 else 19
  {
    var m := WithLowBit(n);
    BitLengthBounds(m);
    EvenBound(n, width);
    if BitLength(m) > width { PowMonotone(2, width, BitLength(m) - 1); }
  }

  /** Numbers of one bit length have t or t + 1 digits, where t is the estimate. */
  predicate Brackets(bits: nat, t: nat)
    requires bits >= 1
  {
    && t == Estimate(bits)
    && (t == 0 || Pow(10, t - 1) <= Pow(2, bits - 1))
    && Pow(2, bits) <= Pow(10, t + 1)
  }

  lemma {:induction false} PowBy(b: nat, m: nat, n: nat, x: nat, y: nat)
    requires Pow(b, m) == x && Pow(b, n) == y
    ensures Pow(b, m + n) == x * y
    decreases m
  {
    if m == 0 {
    } else {
      PowBy(b, m - 1, n, Pow(b, m - 1), y);
      assert b * (Pow(b, m - 1) * y) == (b * Pow(b, m - 1)) * y;
    }
  }

  /** A range of bit lengths with one estimate is bracketed when its ends are. */
  lemma InGroup(bits: nat, t: nat, lo: nat, hi: nat, ten: nat, two: nat)
    requires 1 <= lo <= bits <= hi && t == Estimate(lo) == Estimate(hi)
    requires t == 0 || (Pow(10, t - 1) == ten && ten <= Pow(2, lo - 1))
    requires Pow(2, hi) == two && (t == 0 ==> two <= 10) && (t > 0 ==> two <= 100 * ten)
    ensures Brackets(bits, t)
  {
    PowMonotone(2, lo - 1, bits - 1);
    PowMonotone(2, bits, hi);
    if t > 0 {
      assert Pow(10, t) == 10 * Pow(10, t - 1);
      assert Pow(10, t + 1) == 10 * Pow(10, t);
    } else {
      assert Pow(10, 1) == 10 * Pow(10, 0);
    }
  }

  lemma Estimate0(bits: nat)
    requires 1 <= bits <= 3
    ensures Brackets(bits, 0)
  {
    assert Pow(2, 3) == 8;
    InGroup(bits, 0, 1, 3, 1, 8);
  }

  lemma Estimate1(bits: nat)
    requires 4 <= bits <= 6
    ensures Brackets(bits, 1)
  {
    assert Pow(10, 0) == 1 && Pow(2, 3) == 8;
    assert Pow(2, 6) == 64;
    InGroup(bits, 1, 4, 6, 1, 64);
  }

  lemma Estimate2(bits: nat)
    requires 7 <= bits <= 9
    ensures Brackets(bits, 2)
  {
    assert Pow(10, 1) == 10 && Pow(2, 6) == 64;
    assert Pow(2, 9) == 512;
    InGroup(bits, 2, 7, 9, 10, 512);
  }

  lemma Estimate3(bits: nat)
    requires 10 <= bits <= 13
    ensures Brackets(bits, 3)
  {
    assert Pow(10, 2) == 100 && Pow(2, 9) == 512;
    assert Pow(2, 13) == 8192;
    InGroup(bits, 3, 10, 13, 100, 8192);
  }

  lemma Estimate4(bits: nat)
    requires 14 <= bits <= 16
    ensures Brackets(bits, 4)
  {
    PowBy(2, 14, 2, 16384, 4);
    assert Pow(10, 3) == 1000 && Pow(2, 13) == 8192;
    assert Pow(2, 16) == 65536;
    InGroup(bits, 4, 14, 16, 1000, 65536);
  }

  lemma Estimate5(bits: nat)
    requires 17 <= bits <= 19
    ensures Brackets(bits, 5)
  {
    PowBy(2, 14, 2, 16384, 4);
    PowBy(2, 14, 5, 16384, 32);
    assert Pow(10, 4) == 10000 && Pow(2, 16) == 65536;
    assert Pow(2, 19) == 524288;
    InGroup(bits, 5, 17, 19, 10000, 524288);
  }

  lemma Estimate6(bits: nat)
    requires 20 <= bits <= 23
    ensures Brackets(bits, 6)
  {
    PowBy(2, 14, 5, 16384, 32);
    PowBy(2, 14, 9, 16384, 512);
    assert Pow(10, 5) == 100000 && Pow(2, 19) == 524288;
    assert Pow(2, 23) == 8388608;
    InGroup(bits, 6, 20, 23, 100000, 8388608);
  }

  lemma Estimate7(bits: nat)
    requires 24 <= bits <= 26
    ensures Brackets(bits, 7)
  {
    PowBy(2, 14, 9, 16384, 512);
    PowBy(2, 14, 12, 16384, 4096);
    assert Pow(10, 6) == 1000000 && Pow(2, 23) == 8388608;
    assert Pow(2, 26) == 67108864;
    InGroup(bits, 7, 24, 26, 1000000, 67108864);
  }

  lemma Estimate8(bits: nat)
    requires 27 <= bits <= 29
    ensures Brackets(bits, 8)
  {
    PowBy(2, 14, 12, 16384, 4096);
    PowBy(2, 14, 14, 16384, 16384);
    PowBy(2, 28, 1, 268435456, 2);
    assert Pow(10, 7) == 10000000 && Pow(2, 26) == 67108864;
    assert Pow(2, 29) == 536870912;
    InGroup(bits, 8, 27, 29, 10000000, 536870912);
  }

  lemma Estimate9(bits: nat)
    requires 30 <= bits <= 33
    ensures Brackets(bits, 9)
  {
    PowBy(2, 14, 14, 16384, 16384);
    PowBy(2, 28, 1, 268435456, 2);
    PowBy(2, 28, 5, 268435456, 32);
    assert Pow(10, 8) == 100000000 && Pow(2, 29) == 536870912;
    assert Pow(2, 33) == 8589934592;
    InGroup(bits, 9, 30, 33, 100000000, 8589934592);
  }

  lemma Estimate10(bits: nat)
    requires 34 <= bits <= 36
    ensures Brackets(bits, 10)
  {
    PowBy(2, 14, 14, 16384, 16384);
    PowBy(2, 28, 5, 268435456, 32);
    PowBy(2, 28, 8, 268435456, 256);
    assert Pow(10, 9) == 1000000000 && Pow(2, 33) == 8589934592;
    assert Pow(2, 36) == 68719476736;
    InGroup(bits, 10, 34, 36, 1000000000, 68719476736);
  }

  lemma Estimate11(bits: nat)
    requires 37 <= bits <= 39
    ensures Brackets(bits, 11)
  {
    PowBy(2, 14, 14, 16384, 16384);
    PowBy(2, 28, 8, 268435456, 256);
    PowBy(2, 28, 11, 268435456, 2048);
    assert Pow(10, 10) == 10000000000 && Pow(2, 36) == 68719476736;
    assert Pow(2, 39) == 549755813888;
    InGroup(bits, 11, 37, 39, 10000000000, 549755813888);
  }

  lemma Estimate12(bits: nat)
    requires 40 <= bits <= 43
    ensures Brackets(bits, 12)
  {
    PowBy(2, 14, 14, 16384, 16384);
    PowBy(2, 28, 11, 268435456, 2048);
    PowBy(2, 28, 14, 268435456, 16384);
    PowBy(2, 42, 1, 4398046511104, 2);
    assert Pow(10, 11) == 100000000000 && Pow(2, 39) == 549755813888;
    assert Pow(2, 43) == 8796093022208;
    InGroup(bits, 12, 40, 43, 100000000000, 8796093022208);
  }

  lemma Estimate13(bits: nat)
    requires 44 <= bits <= 46
    ensures Brackets(bits, 13)
  {
    PowBy(2, 14, 14, 16384, 16384);
    PowBy(2, 28, 14, 268435456, 16384);
    PowBy(2, 42, 1, 4398046511104, 2);
    PowBy(2, 42, 4, 4398046511104, 16);
    assert Pow(10, 12) == 1000000000000 && Pow(2, 43) == 8796093022208;
    assert Pow(2, 46) == 70368744177664;
    InGroup(bits, 13, 44, 46, 1000000000000, 70368744177664);
  }

  lemma Estimate14(bits: nat)
    requires 47 <= bits <= 49
    ensures Brackets(bits, 14)
  {
    PowBy(2, 14, 14, 16384, 16384);
    PowBy(2, 28, 14, 268435456, 16384);
    PowBy(2, 42, 4, 4398046511104, 16);
    PowBy(2, 42, 7, 4398046511104, 128);
    assert Pow(10, 13) == 10000000000000 && Pow(2, 46) == 70368744177664;
    assert Pow(2, 49) == 562949953421312;
    InGroup(bits, 14, 47, 49, 10000000000000, 562949953421312);
  }

  lemma Estimate15(bits: nat)
    requires 50 <= bits <= 53
    ensures Brackets(bits, 15)
  {
    PowBy(2, 14, 14, 16384, 16384);
    PowBy(2, 28, 14, 268435456, 16384);
    PowBy(2, 42, 7, 4398046511104, 128);
    PowBy(2, 42, 11, 4398046511104, 2048);
    assert Pow(10, 14) == 100000000000000 && Pow(2, 49) == 562949953421312;
    assert Pow(2, 53) == 9007199254740992;
    InGroup(bits, 15, 50, 53, 100000000000000, 9007199254740992);
  }

  lemma Estimate16(bits: nat)
    requires 54 <= bits <= 56
    ensures Brackets(bits, 16)
  {
    PowBy(10, 14, 1, 100000000000000, 10);
    PowBy(2, 14, 14, 16384, 16384);
    PowBy(2, 28, 14, 268435456, 16384);
    PowBy(2, 42, 11, 4398046511104, 2048);
    PowBy(2, 42, 14, 4398046511104, 16384);
    assert Pow(10, 15) == 1000000000000000 && Pow(2, 53) == 9007199254740992;
    assert Pow(2, 56) == 72057594037927936;
    InGroup(bits, 16, 54, 56, 1000000000000000, 72057594037927936);
  }

  lemma Estimate17(bits: nat)
    requires 57 <= bits <= 59
    ensures Brackets(bits, 17)
  {
    PowBy(10, 14, 2, 100000000000000, 100);
    PowBy(2, 14, 14, 16384, 16384);
    PowBy(2, 28, 14, 268435456, 16384);
    PowBy(2, 42, 14, 4398046511104, 16384);
    PowBy(2, 56, 3, 72057594037927936, 8);
    assert Pow(10, 16) == 10000000000000000 && Pow(2, 56) == 72057594037927936;
    assert Pow(2, 59) == 576460752303423488;
    InGroup(bits, 17, 57, 59, 10000000000000000, 576460752303423488);
  }

  lemma Estimate18(bits: nat)
    requires 60 <= bits <= 63
    ensures Brackets(bits, 18)
  {
    PowBy(10, 14, 3, 100000000000000, 1000);
    PowBy(2, 14, 14, 16384, 16384);
    PowBy(2, 28, 14, 268435456, 16384);
    PowBy(2, 42, 14, 4398046511104, 16384);
    PowBy(2, 56, 3, 72057594037927936, 8);
    PowBy(2, 56, 7, 72057594037927936, 128);
    assert Pow(10, 17) == 100000000000000000 && Pow(2, 59) == 576460752303423488;
    assert Pow(2, 63) == 9223372036854775808;
    InGroup(bits, 18, 60, 63, 100000000000000000, 9223372036854775808);
  }

  lemma Estimate19(bits: nat)
    requires 64 <= bits <= 64
    ensures Brackets(bits, 19)
  {
    PowBy(10, 14, 4, 100000000000000, 10000);
    PowBy(2, 14, 14, 16384, 16384);
    PowBy(2, 28, 14, 268435456, 16384);
    PowBy(2, 42, 14, 4398046511104, 16384);
    PowBy(2, 56, 7, 72057594037927936, 128);
    PowBy(2, 56, 8, 72057594037927936, 256);
    assert Pow(10, 18) == 1000000000000000000 && Pow(2, 63) == 9223372036854775808;
    assert Pow(2, 64) == 18446744073709551616;
    InGroup(bits, 19, 64, 64, 1000000000000000000, 18446744073709551616);
  }

  lemma AllBits(bits: nat)
    requires 1 <= bits <= 64
    ensures Brackets(bits, Estimate(bits))
  {
    if bits <= 3 { Estimate0(bits); }
    else if bits <= 6 { Estimate1(bits); }
    else if bits <= 9 { Estimate2(bits); }
    else if bits <= 13 { Estimate3(bits); }
    else if bits <= 16 { Estimate4(bits); }
    else if bits <= 19 { Estimate5(bits); }
    else if bits <= 23 { Estimate6(bits); }
    else if bits <= 26 { Estimate7(bits); }
    else if bits <= 29 { Estimate8(bits); }
    else if bits <= 33 { Estimate9(bits); }
    else if bits <= 36 { Estimate10(bits); }
    else if bits <= 39 { Estimate11(bits); }
    else if bits <= 43 { Estimate12(bits); }
    else if bits <= 46 { Estimate13(bits); }
    else if bits <= 49 { Estimate14(bits); }
    else if bits <= 53 { Estimate15(bits); }
    else if bits <= 56 { Estimate16(bits); }
    else if bits <= 59 { Estimate17(bits); }
    else if bits <= 63 { Estimate18(bits); }
    else { Estimate19(bits); }
  }

  /** The bit trick counts the decimal digits of every word. */
  lemma CountsDigits(n: nat, width: nat)
    requires width == 32 || width == 64
    requires n < Pow(2, width)
    ensures CountDigits(n, width) == Length(10, n)
  {
    WordBits(n, width);
    var bits := BitLength(WithLowBit(n));
    BitLengthBounds(WithLowBit(n));
    AllBits(bits);
    AtLeast(n, bits);
    var t := Estimate(bits);
    LengthFrom(n, bits, t);
  }

  lemma AtLeast(n: nat, bits: nat)
    requires bits == BitLength(WithLowBit(n))
    ensures bits == 1 || Pow(2, bits - 1) <= n
    ensures n < Pow(2, bits)
  {
    BitLengthBounds(WithLowBit(n));
    if bits > 1 { assert Pow(2, bits - 1) == 2 * Pow(2, bits - 2); }
  }

  lemma LengthFrom(n: nat, bits: nat, t: nat)
    requires bits >= 1 && Brackets(bits, t) && t <= 19
    requires bits == 1 || Pow(2, bits - 1) <= n
    requires n < Pow(2, bits)
    ensures Length(10, n) == if n < PowersOf10(t) then t else t + 1
  {
    if n < PowersOf10(t) {
      LengthUnique(10, n, t);
    } else {
      LengthUnique(10, n, t + 1);
    }
  }

  // ------------------------------------------------------------------ the loop form

  /** The fallback: four digits at a time. */
  method CountDigitsLoop(n0: nat) returns (count: nat)
    ensures count == Length(10, n0)
  {
    var n := n0;
    count := 1;
    while true
      invariant count >= 1 && Length(10, n0) == count - 1 + Length(10, n)
      decreases n
    {
      FewDigits(n);
      if n < 10 { return count; }
      if n < 100 { return count + 1; }
      if n < 1000 { return count + 2; }
      if n < 10000 { return count + 3; }
      n := n / 10000;
      count := count + 4;
    }
  }

  lemma ShorterTen(n: nat)
    requires n >= 10
    ensures Length(10, n) == 1 + Length(10, n / 10)
  {
  }

  lemma Quotients(n: nat)
    ensures n / 10 / 10 == n / 100 && n / 100 / 10 == n / 1000 && n / 1000 / 10 == n / 10000
  {
  }

  lemma UpToTwo(n: nat)
    ensures n < 10 ==> Length(10, n) == 1
    ensures 10 <= n < 100 ==> Length(10, n) == 2
    ensures 100 <= n ==> Length(10, n) == 2 + Length(10, n / 100)
  {
    Quotients(n);
    if n >= 10 { ShorterTen(n); }
    if n >= 100 { ShorterTen(n / 10); }
  }

  lemma FewDigits(n: nat)
    ensures n < 10 ==> Length(10, n) == 1
    ensures 10 <= n < 100 ==> Length(10, n) == 2
    ensures 100 <= n < 1000 ==> Length(10, n) == 3
    ensures 1000 <= n < 10000 ==> Length(10, n) == 4
    ensures 10000 <= n ==> Length(10, n) == 4 + Length(10, n / 10000)
  {
    UpToTwo(n);
    if n >= 100 {
      UpToTwo(n / 100);
      Quotients(n);
      assert n / 100 / 100 == n / 10000;
    }
  }

  // ------------------------------------------------------------------ format_decimal

  /** The table DIGITS of two-digit numerals, in rows of ten. */
  function DigitRow(i: nat): (row: string)
    requires i < 10
    ensures |row| == 20
  {
    match i
    case 0 => "00010203040506070809"
    case 1 => "10111213141516171819"
    case 2 => "20212223242526272829"
    case 3 => "30313233343536373839"
    case 4 => "40414243444546474849"
    case 5 => "50515253545556575859"
    case 6 => "60616263646566676869"
    case 7 => "70717273747576777879"
    case 8 => "80818283848586878889"
    case _ => "90919293949596979899"
  }

  lemma Rows0To2(i: nat, j: nat)
    requires i < 3 && j < 10
    ensures DigitRow(i)[2 * j] == DigitChar(i, false) && DigitRow(i)[2 * j + 1] == DigitChar(j, false)
  {
    assert j == 0 || j == 1 || j == 2 || j == 3 || j == 4 || j == 5 || j == 6 || j == 7 || j == 8 || j == 9;
  }

  lemma Rows3To5(i: nat, j: nat)
    requires 3 <= i < 6 && j < 10
    ensures DigitRow(i)[2 * j] == DigitChar(i, false) && DigitRow(i)[2 * j + 1] == DigitChar(j, false)
  {
    assert j == 0 || j == 1 || j == 2 || j == 3 || j == 4 || j == 5 || j == 6 || j == 7 || j == 8 || j == 9;
  }

  lemma Rows6To7(i: nat, j: nat)
    requires 6 <= i < 8 && j < 10
    ensures DigitRow(i)[2 * j] == DigitChar(i, false) && DigitRow(i)[2 * j + 1] == DigitChar(j, false)
  {
    assert j == 0 || j == 1 || j == 2 || j == 3 || j == 4 || j == 5 || j == 6 || j == 7 || j == 8 || j == 9;
  }

  lemma Rows8To9(i: nat, j: nat)
    requires 8 <= i < 10 && j < 10
    ensures DigitRow(i)[2 * j] == DigitChar(i, false) && DigitRow(i)[2 * j + 1] == DigitChar(j, false)
  {
    assert j == 0 || j == 1 || j == 2 || j == 3 || j == 4 || j == 5 || j == 6 || j == 7 || j == 8 || j == 9;
  }

  lemma Position(i: nat)
    requires i < 200
    ensures i / 20 == i / 2 / 10 && i % 20 == 2 * (i / 2 % 10) + i % 2
  {
  }

  /** The character that belongs at DIGITS[i]: entry k of the table is the numeral of k. */
  function PairChar(i: nat): char
    requires i < 200
  {
    DigitChar(if i % 2 == 0 then i / 2 / 10 else i / 2 % 10, false)
  }

  method GetRow(i: nat) returns (row: string)
    requires i < 10
    ensures |row| == 20
    ensures forall j :: 0 <= j < 10 ==> row[2 * j] == DigitChar(i, false) && row[2 * j + 1] == DigitChar(j, false)
  {
    row := DigitRow(i);
    forall j | 0 <= j < 10 ensures row[2 * j] == DigitChar(i, false) && row[2 * j + 1] == DigitChar(j, false) {
      if i < 3 { Rows0To2(i, j); }
      else if i < 6 { Rows3To5(i, j); }
      else if i < 8 { Rows6To7(i, j); }
      else { Rows8To9(i, j); }
    }
  }

  /** DIGITS[i] */
  method Lookup(i: nat) returns (c: char)
    requires i < 200
    ensures c == PairChar(i)
  {
    var row := GetRow(i / 20);
    c := row[i % 20];
    Position(i);
    ghost var j := i / 2 % 10;
    assert row[2 * j] == DigitChar(i / 20, false) && row[2 * j + 1] == DigitChar(j, false);
  }

  lemma DigitsOfHundreds(n: nat)
    requires n >= 100
    ensures n / 10 / 10 == n / 100 && n % 10 == n % 100 % 10 && n / 10 % 10 == n % 100 / 10
  {
  }

  lemma DropLast(n: nat)
    requires n >= 10
    ensures Decimal(n) == Decimal(n / 10) + [DigitChar(n % 10, false)]
  {
    assert Shorter(10, n) == n / 10 && Last(10, n) == n % 10;
  }

  lemma TwoDigits(n: nat)
    requires n >= 100
    ensures Decimal(n) == Decimal(n / 100) + [PairChar(n % 100 * 2), PairChar(n % 100 * 2 + 1)]
  {
    DigitsOfHundreds(n);
    DropLast(n);
    DropLast(n / 10);
    Pair(n % 100);
    assert Decimal(n / 100) + [PairChar(n % 100 * 2)] + [PairChar(n % 100 * 2 + 1)]
        == Decimal(n / 100) + [PairChar(n % 100 * 2), PairChar(n % 100 * 2 + 1)];
  }

  lemma Pair(k: nat)
    requires k < 100
    ensures PairChar(2 * k) == DigitChar(k / 10, false) && PairChar(2 * k + 1) == DigitChar(k % 10, false)
  {
  }

  lemma LastTwo(n: nat)
    requires 10 <= n < 100
    ensures Decimal(n) == [PairChar(n * 2), PairChar(n * 2 + 1)]
  {
    DropLast(n);
    Pair(n);
    assert Decimal(n / 10) == [DigitChar(n / 10, false)];
  }

  /** Two characters before position p. */
  method PutPair(buffer: array<char>, p: nat, index: nat, ghost b: string, ghost done: string)
    requires 2 <= p && p + |done| <= |b| == buffer.Length && index + 1 < 200 && buffer[..] == Overwritten(b, p, done)
    modifies buffer
    ensures buffer[..] == Overwritten(b, p - 2, [PairChar(index), PairChar(index + 1)] + done)
  {
    var c := Lookup(index + 1);
    OneMore(b, p - 1, c, done);
    buffer[p - 1] := c;
    ghost var more := [c] + done;
    c := Lookup(index);
    OneMore(b, p - 2, c, more);
    buffer[p - 2] := c;
    assert [c] + more == [PairChar(index), PairChar(index + 1)] + done;
  }

  /** Moving two digits from what is left to what is done. */
  lemma PairStep(n: nat, done: string, all: string, index: nat, left: nat)
    requires n >= 100 && Decimal(n) + done == all && index == n % 100 * 2 && left == |Decimal(n)|
    ensures index + 1 < 200 && left >= 3
    ensures |Decimal(n / 100)| == left - 2
    ensures Decimal(n / 100) + ([PairChar(index), PairChar(index + 1)] + done) == all
  {
    TwoDigits(n);
    Append(Decimal(n / 100), [PairChar(index), PairChar(index + 1)], done);
  }

  lemma LastDigit(n: nat)
    requires n < 10
    ensures Decimal(n) == ['0' + n as char]
  {
  }

  /** format_decimal: the digits of value, two at a time from the right, and nothing else. */
  method FormatDecimal(buffer: array<char>, start: nat, value: nat, numDigits: nat)
    requires numDigits == Length(10, value) && start + numDigits <= buffer.Length
    modifies buffer
    ensures buffer[..] == Overwritten(old(buffer[..]), start, Decimal(value))
  {
    var p: nat, n: nat := start + numDigits, value;
    ghost var b, done, all := buffer[..], "", Decimal(value);
    assert all + done == all;
    while n >= 100
      invariant p + |done| == start + |all| <= |b| && start + |Decimal(n)| == p
      invariant Decimal(n) + done == all
      invariant buffer[..] == Overwritten(b, p, done)
      decreases n
    {
      var index := n % 100 * 2;
      PairStep(n, done, all, index, |Decimal(n)|);
      PutPair(buffer, p, index, b, done);
      done := [PairChar(index), PairChar(index + 1)] + done;
      n := n / 100;
      p := p - 2;
    }
    FormatLast(buffer, p, n, b, done);
  }

  /** The one or two digits that are left. */
  method FormatLast(buffer: array<char>, p: nat, n: nat, ghost b: string, ghost done: string)
    requires n < 100 && |Decimal(n)| <= p && p + |done| <= |b| == buffer.Length && buffer[..] == Overwritten(b, p, done)
    modifies buffer
    ensures buffer[..] == Overwritten(b, p - |Decimal(n)|, Decimal(n) + done)
  {
    if n < 10 {
      LastDigit(n);
      OneMore(b, p - 1, '0' + n as char, done);
      buffer[p - 1] := '0' + n as char;
    } else {
      LastTwo(n);
      PutPair(buffer, p, n * 2, b, done);
    }
  }
}
