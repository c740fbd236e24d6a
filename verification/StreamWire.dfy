/** The bytes of the binary stream by position: which byte of a value stands where. */
module StreamWire {
  import opened Sequences
  import opened Words
  import opened Stream

  /** A count of at most 65535 is its low byte, then its high byte. */
  lemma CountBytes(n: nat)
    requires n < 65536
    ensures Count(n)[0] as nat == n % 256 && Count(n)[1] as nat == n / 256
  {
    assert n % COUNT_LIMIT == n;
  }

  // ------------------------------------------------------------------ lists of fixed-size values

  ghost predicate AllSized(items: seq<Value>, n: nat) {
    forall i :: 0 <= i < |items| ==> Sized(items[i], n)
  }

  lemma {:induction false} ItemsFlat(items: seq<Value>, n: nat)
    requires AllSized(items, n)
    ensures EncodeItems(Fixed(n), items) == Flat(items) && |Flat(items)| == Total(|items|, n)
  {
    if items == [] {
    } else {
      ItemsFlat(items[..|items| - 1], n);
    }
  }

  /** Byte j of element i stands at i * n + j. */
  lemma {:induction false} FlatAt(items: seq<Value>, n: nat, i: nat, j: nat)
    requires AllSized(items, n) && i < |items| && j < n
    ensures Total(i, n) + j < |Flat(items)| && Flat(items)[Total(i, n) + j] == items[i].bytes[j]
  {
    var last := |items| - 1;
    ItemsFlat(items[..last], n);
    if i < last { FlatAt(items[..last], n, i, j); }
  }

  /** A list of fixed-size values: the count in two bytes, low byte first, then byte j of element i at 2 + i * n + j. */
  lemma ListLayout(items: seq<Value>, n: nat, i: nat, j: nat)
    requires AllSized(items, n) && i < |items| < 65536 && j < n
    ensures var wire := Encode(ListOf(Fixed(n)), Many(items));
            && |wire| == 2 + |items| * n
            && wire[0] as nat == |items| % 256 && wire[1] as nat == |items| / 256
            && 2 + i * n + j < |wire| && wire[2 + i * n + j] == items[i].bytes[j]
  {
    CountBytes(|items|);
    ItemsFlat(items, n);
    FlatAt(items, n, i, j);
    TotalIsProduct(i, n);
    TotalIsProduct(|items|, n);
  }

  // ------------------------------------------------------------------ what looks like a list

  /** A set is written as the list of its elements, whatever these are. */
  lemma SetIsList(t: Ty, items: seq<Value>)
    ensures Encode(SetOf(t), Many(items)) == Encode(ListOf(t), Many(items))
  {
  }

  /** A vector is written as a list of its elements, up to the counts that fit. */
  lemma VectorIsList(items: seq<Value>, n: nat)
    requires AllSized(items, n) && |items| < 65536 && Total(|items|, n) < WORD
    ensures Encode(Vec(n), Many(items)) == Encode(ListOf(Fixed(n)), Many(items))
  {
    ItemsFlat(items, n);
    CoveredAll(Total(|items|, n));
    BytesCovered(items, n);
    assert Flat(items)[..|Flat(items)|] == Flat(items);
  }

  lemma CoveredAll(size: nat)
    requires size < WORD
    ensures size % WORD == size
  {
  }

  function Single(b: seq<Byte>): seq<Value> {
    seq(|b|, i requires 0 <= i < |b| => Plain([b[i]]))
  }

  lemma {:induction false} SingleFlat(b: seq<Byte>)
    ensures AllSized(Single(b), 1) && Flat(Single(b)) == b
  {
    if b == [] {
    } else {
      var n := |b| - 1;
      SingleFlat(b[..n]);
      assert Single(b)[..n] == Single(b[..n]);
      assert b[..n] + [b[n]] == b;
    }
  }

  /** A string is written as the list of its characters. */
  lemma StringIsList(b: seq<Byte>)
    ensures Encode(Str, Plain(b)) == Encode(ListOf(Fixed(1)), Many(Single(b)))
  {
    SingleFlat(b);
    ItemsFlat(Single(b), 1);
  }

  /** Keys and values of fixed size, each value behind its key. */
  function Pairs(entries: seq<Entry>): seq<Value> {
    seq(|entries|, i requires 0 <= i < |entries| => Plain(BytesOf(entries[i].key) + BytesOf(entries[i].value)))
  }

  ghost predicate EntriesSized(entries: seq<Entry>, m: nat, n: nat) {
    forall i :: 0 <= i < |entries| ==> Sized(entries[i].key, m) && Sized(entries[i].value, n)
  }

  lemma PairEncoded(e: Entry, m: nat, n: nat)
    requires Sized(e.key, m) && Sized(e.value, n)
    ensures EncodeEntry(Fixed(m), Fixed(n), e) == Encode(Fixed(m + n), Plain(BytesOf(e.key) + BytesOf(e.value)))
  {
    assert Encode(Fixed(m), e.key) == e.key.bytes && Encode(Fixed(n), e.value) == e.value.bytes;
  }

  lemma {:induction false} PairsEncoded(entries: seq<Entry>, m: nat, n: nat)
    requires EntriesSized(entries, m, n)
    ensures EncodeEntries(Fixed(m), Fixed(n), entries) == EncodeItems(Fixed(m + n), Pairs(entries))
  {
    if entries == [] {
    } else {
      var last := |entries| - 1;
      PairsEncoded(entries[..last], m, n);
      assert Pairs(entries)[..last] == Pairs(entries[..last]);
      PairEncoded(entries[last], m, n);
      assert |Pairs(entries)| == last + 1 && Pairs(entries) != [];
    }
  }

  /** A map of fixed-size keys and values is written as the list of its pairs, the key in front. */
  lemma MapIsListOfPairs(entries: seq<Entry>, m: nat, n: nat)
    requires EntriesSized(entries, m, n)
    ensures Encode(MapOf(Fixed(m), Fixed(n)), Table(entries)) == Encode(ListOf(Fixed(m + n)), Many(Pairs(entries)))
    ensures AllSized(Pairs(entries), m + n)
  {
    PairsEncoded(entries, m, n);
  }

  // ------------------------------------------------------------------ nested containers

  lemma {:induction false} ItemsSplit(t: Ty, a: seq<Value>, b: seq<Value>)
    ensures EncodeItems(t, a + b) == EncodeItems(t, a) + EncodeItems(t, b)
    decreases |b|
  {
    if b == [] {
      assert a + b == a;
    } else {
      var ab := a + b;
      assert ab[..|ab| - 1] == a + b[..|b| - 1];
      ItemsSplit(t, a, b[..|b| - 1]);
    }
  }

  lemma {:induction false} EntriesSplit(k: Ty, t: Ty, a: seq<Entry>, b: seq<Entry>)
    ensures EncodeEntries(k, t, a + b) == EncodeEntries(k, t, a) + EncodeEntries(k, t, b)
    decreases |b|
  {
    if b == [] {
      assert a + b == a;
    } else {
      var ab := a + b;
      assert ab[..|ab| - 1] == a + b[..|b| - 1];
      EntriesSplit(k, t, a, b[..|b| - 1]);
    }
  }

  /** Element i of a list of anything: the count, the elements before it, the element, the elements after it. */
  lemma ItemPlace(t: Ty, items: seq<Value>, i: nat)
    requires i < |items|
    ensures Encode(ListOf(t), Many(items)) ==
            Count(|items|) + (EncodeItems(t, items[..i]) + (Encode(t, items[i]) + EncodeItems(t, items[i + 1..])))
  {
    var a, one, b := items[..i], [items[i]], items[i + 1..];
    assert items == a + (one + b) && one[..0] == [];
    ItemsSplit(t, a, one + b);
    ItemsSplit(t, one, b);
    assert EncodeItems(t, one) == Encode(t, items[i]);
  }

  /** Entry i of a map of anything: the key comes before the value. */
  lemma EntryPlace(k: Ty, t: Ty, entries: seq<Entry>, i: nat)
    requires i < |entries|
    ensures Encode(MapOf(k, t), Table(entries)) ==
            Count(|entries|) + (EncodeEntries(k, t, entries[..i])
              + ((Encode(k, entries[i].key) + Encode(t, entries[i].value)) + EncodeEntries(k, t, entries[i + 1..])))
  {
    var a, one, b := entries[..i], [entries[i]], entries[i + 1..];
    assert entries == a + (one + b) && one[..0] == [];
    EntriesSplit(k, t, a, one + b);
    EntriesSplit(k, t, one, b);
    assert EncodeEntries(k, t, one) == EncodeEntry(k, t, entries[i]);
  }
}
