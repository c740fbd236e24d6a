/**
  Lookup tables of linear functions of a byte: a table is known entirely by its entries at
  the eight single bits and by the exclusive-or relations among the rest.
 */
module LinearTables {
  import opened Folding
  import opened CrcTables

  type Table<!T> = Byte -> Row<T>

  /** The table lookup table[i]. */
  function Entry<T>(table: Table<T>, i: Byte): T {
    table(i >> 4).At(i & 0xf)
  }

  function XorByte(a: Byte, b: Byte): Byte {
    a ^ b
  }

  function Nibble(n: Byte): Byte {
    n << 4
  }

  /** Every row is the first row, shifted by its own first entry. */
  predicate Shifted<T(==)>(row: Row<T>, base: Row<T>, op: (T, T) -> T) {
    && row.e0 == op(row.e0, base.e0) && row.e1 == op(row.e0, base.e1) && row.e2 == op(row.e0, base.e2)
    && row.e3 == op(row.e0, base.e3) && row.e4 == op(row.e0, base.e4) && row.e5 == op(row.e0, base.e5)
    && row.e6 == op(row.e0, base.e6) && row.e7 == op(row.e0, base.e7) && row.e8 == op(row.e0, base.e8)
    && row.e9 == op(row.e0, base.e9) && row.e10 == op(row.e0, base.e10) && row.e11 == op(row.e0, base.e11)
    && row.e12 == op(row.e0, base.e12) && row.e13 == op(row.e0, base.e13) && row.e14 == op(row.e0, base.e14)
    && row.e15 == op(row.e0, base.e15)
  }

  /** Sixteen values indexed by nibbles are spanned by those of the single bits. */
  predicate Spanned<T(==)>(g: Row<T>, zero: T, op: (T, T) -> T) {
    && g.e0 == zero
    && g.e3 == op(g.e1, g.e2) && g.e5 == op(g.e1, g.e4) && g.e6 == op(g.e2, g.e4)
    && g.e7 == op(g.e1, g.e6) && g.e9 == op(g.e1, g.e8) && g.e10 == op(g.e2, g.e8)
    && g.e11 == op(g.e1, g.e10) && g.e12 == op(g.e4, g.e8) && g.e13 == op(g.e1, g.e12)
    && g.e14 == op(g.e2, g.e12) && g.e15 == op(g.e1, g.e14)
  }

  /** The first entries of all rows. */
  function Heads<T>(table: Table<T>): Row<T> {
    Row(table(0).e0, table(1).e0, table(2).e0, table(3).e0,
        table(4).e0, table(5).e0, table(6).e0, table(7).e0,
        table(8).e0, table(9).e0, table(10).e0, table(11).e0,
        table(12).e0, table(13).e0, table(14).e0, table(15).e0)
  }

  ghost predicate Linear<T(!new)>(table: Table<T>, zero: T, op: (T, T) -> T) {
    && Spanned(table(0), zero, op)
    && Spanned(Heads(table), zero, op)
    && forall n: Byte :: n < 16 ==> Shifted(table(n), table(0), op)
  }

  /** The table agrees with f at the single bits. */
  predicate Agrees<T(==)>(table: Table<T>, zero: T, f: Byte -> T) {
    && f(0) == zero
    && table(0).e1 == f(1) && table(0).e2 == f(2) && table(0).e4 == f(4) && table(0).e8 == f(8)
    && table(1).e0 == f(0x10) && table(2).e0 == f(0x20) && table(4).e0 == f(0x40) && table(8).e0 == f(0x80)
  }

  /** A row that agrees with an additive function at the single bits agrees with it everywhere. */
  lemma SpannedAt<T(!new)>(g: Row<T>, zero: T, op: (T, T) -> T, f: Byte -> T, n: Byte)
    requires Spanned(g, zero, op) && n < 16 && f(0) == zero && Additive(f, XorByte, op)
    requires g.e1 == f(1) && g.e2 == f(2) && g.e4 == f(4) && g.e8 == f(8)
    ensures g.At(n) == f(n)
  {
    assert f(XorByte(1, 2)) == op(f(1), f(2));
    assert f(XorByte(1, 4)) == op(f(1), f(4));
    assert f(XorByte(2, 4)) == op(f(2), f(4));
    assert f(XorByte(1, 6)) == op(f(1), f(6));
    assert f(XorByte(1, 8)) == op(f(1), f(8));
    assert f(XorByte(2, 8)) == op(f(2), f(8));
    assert f(XorByte(1, 10)) == op(f(1), f(10));
    assert f(XorByte(4, 8)) == op(f(4), f(8));
    assert f(XorByte(1, 12)) == op(f(1), f(12));
    assert f(XorByte(2, 12)) == op(f(2), f(12));
    assert f(XorByte(1, 14)) == op(f(1), f(14));
    assert n == 0 || n == 1 || n == 2 || n == 3 || n == 4 || n == 5 || n == 6 || n == 7
           || n == 8 || n == 9 || n == 10 || n == 11 || n == 12 || n == 13 || n == 14 || n == 15;
  }

  lemma ShiftedAt<T>(row: Row<T>, base: Row<T>, op: (T, T) -> T, n: Byte)
    requires Shifted(row, base, op) && n < 16
    ensures row.At(n) == op(row.e0, base.At(n))
  {
    assert n == 0 || n == 1 || n == 2 || n == 3 || n == 4 || n == 5 || n == 6 || n == 7
           || n == 8 || n == 9 || n == 10 || n == 11 || n == 12 || n == 13 || n == 14 || n == 15;
  }

  lemma HeadsAt<T>(table: Table<T>, n: Byte)
    requires n < 16
    ensures Heads(table).At(n) == table(n).e0
  {
    assert n == 0 || n == 1 || n == 2 || n == 3 || n == 4 || n == 5 || n == 6 || n == 7
           || n == 8 || n == 9 || n == 10 || n == 11 || n == 12 || n == 13 || n == 14 || n == 15;
  }

  lemma HighNibbleAdditive<T(!new)>(f: Byte -> T, op: (T, T) -> T, high: Byte -> T)
    requires Additive(f, XorByte, op)
    requires forall n :: high(n) == f(Nibble(n))
    ensures Additive(high, XorByte, op)
  {
    forall a, b ensures high(XorByte(a, b)) == op(high(a), high(b)) {
      assert Nibble(XorByte(a, b)) == XorByte(Nibble(a), Nibble(b));
    }
  }

  lemma HeadEntry<T(!new)>(table: Table<T>, zero: T, op: (T, T) -> T, f: Byte -> T, n: Byte)
    requires Linear(table, zero, op) && Agrees(table, zero, f) && Additive(f, XorByte, op) && n < 16
    ensures table(n).e0 == f(Nibble(n))
  {
    var high := (x: Byte) => f(Nibble(x));
    HighNibbleAdditive(f, op, high);
    HeadsAt(table, n);
    SpannedAt(Heads(table), zero, op, high, n);
  }

  lemma SplitByte(i: Byte)
    ensures i >> 4 < 16 && i & 0xf < 16 && XorByte(Nibble(i >> 4), i & 0xf) == i
  {
  }

  /** A linear table that agrees with an additive function at the single bits is its table. */
  lemma TableOf<T(!new)>(table: Table<T>, zero: T, op: (T, T) -> T, f: Byte -> T, i: Byte)
    requires Linear(table, zero, op) && Agrees(table, zero, f) && Additive(f, XorByte, op)
    ensures Entry(table, i) == f(i)
  {
    SplitByte(i);
    ShiftedAt(table(i >> 4), table(0), op, i & 0xf);
    HeadEntry(table, zero, op, f, i >> 4);
    SpannedAt(table(0), zero, op, f, i & 0xf);
  }
}
