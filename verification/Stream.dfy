/**
  The binary stream writer and reader of stream.h for fixed-size values, strings, vectors of
  fixed-size values, and nested lists, sets and maps. Counts are 16 bits wide. Reading what
  was written gives the value back exactly when no container has more than 65535 elements.
 */
module Stream {
  import opened Modular
  import opened Sequences
  import opened Words

  newtype Byte = b: int | 0 <= b < 256

  const COUNT_LIMIT: nat := 0x1_0000

  /** The type of a value: fixed-size values and vector elements are so many bytes each. */
  datatype Ty = Fixed(size: nat) | Str | Vec(size: nat) | ListOf(item: Ty) | SetOf(item: Ty) | MapOf(key: Ty, item: Ty)

  /** Sets and maps in the order in which they are iterated. */
  datatype Value = Plain(bytes: seq<Byte>) | Many(items: seq<Value>) | Table(entries: seq<Entry>)

  datatype Entry = Entry(key: Value, value: Value)

  /** The comparison that orders sets and maps. */
  type Less = (Value, Value) -> bool

  ghost predicate StrictOrder<T(!new)>(less: (T, T) -> bool) {
    && (forall a {:trigger less(a, a)} :: !less(a, a))
    && (forall a, b, c {:trigger less(a, b), less(b, c)} :: less(a, b) && less(b, c) ==> less(a, c))
  }

  ghost predicate Ascending<T>(items: seq<T>, less: (T, T) -> bool) {
    forall i, j :: 0 <= i && i + 1 == j < |items| ==> less(items[i], items[j])
  }

  /** Map entries are ordered by their keys. */
  function ByKey(less: Less): (Entry, Entry) -> bool {
    (a: Entry, b: Entry) => less(a.key, b.key)
  }

  lemma ByKeyStrict(less: Less)
    requires StrictOrder(less)
    ensures StrictOrder(ByKey(less))
  {
    var le := ByKey(less);
    forall a ensures !le(a, a) { assert !less(a.key, a.key); }
    forall a, b, c | le(a, b) && le(b, c) ensures le(a, c) {
      assert less(a.key, b.key) && less(b.key, c.key);
    }
  }

  predicate Sized(v: Value, n: nat) {
    v.Plain? && |v.bytes| == n
  }

  /** v is a value of type ty. */
  ghost predicate WellTyped(ty: Ty, v: Value, less: Less)
    decreases ty
  {
    match ty
    case Fixed(n) => Sized(v, n)
    case Str => v.Plain?
    case Vec(n) => v.Many? && forall i :: 0 <= i < |v.items| ==> Sized(v.items[i], n)
    case ListOf(t) => v.Many? && forall i :: 0 <= i < |v.items| ==> WellTyped(t, v.items[i], less)
    case SetOf(t) =>
      v.Many? && Ascending(v.items, less) && forall i :: 0 <= i < |v.items| ==> WellTyped(t, v.items[i], less)
    case MapOf(k, t) =>
      && v.Table? && Ascending(v.entries, ByKey(less))
      && forall i :: 0 <= i < |v.entries| ==>
           WellTyped(k, v.entries[i].key, less) && WellTyped(t, v.entries[i].value, less)
  }

  /**
    No string or container in v, at any depth, has more elements than a count can say, and vectors of
    more bytes than 32 bits can count are zero beyond the bytes counted.
   */
  ghost predicate Fits(ty: Ty, v: Value)
    decreases ty
  {
    match ty
    case Fixed(n) => true
    case Str => v.Plain? && |v.bytes| < COUNT_LIMIT
    case Vec(n) => v.Many? && |v.items| < COUNT_LIMIT && ZeroFrom(Flat(v.items), Covered(|v.items|, n))
    case ListOf(t) => v.Many? && |v.items| < COUNT_LIMIT && forall i :: 0 <= i < |v.items| ==> Fits(t, v.items[i])
    case SetOf(t) => v.Many? && |v.items| < COUNT_LIMIT && forall i :: 0 <= i < |v.items| ==> Fits(t, v.items[i])
    case MapOf(k, t) =>
      && v.Table? && |v.entries| < COUNT_LIMIT
      && forall i :: 0 <= i < |v.entries| ==> Fits(k, v.entries[i].key) && Fits(t, v.entries[i].value)
  }

  // ------------------------------------------------------------------ what is written

  /** A count cut to 16 bits, low byte first. */
  function Count(n: nat): (r: seq<Byte>)
    ensures |r| == 2
  {
    var c := n % COUNT_LIMIT;
    [(c % 256) as Byte, (c / 256) as Byte]
  }

  function BytesOf(v: Value): seq<Byte> {
    if v.Plain? then v.bytes else []
  }

  /** The elements of a vector, copied as they lie in memory. */
  function Flat(items: seq<Value>): seq<Byte> {
    if items == [] then [] else Flat(items[..|items| - 1]) + BytesOf(items[|items| - 1])
  }

  /** The bytes of count elements: count * n. */
  function Total(count: nat, n: nat): (size: nat) {
    if count == 0 then 0 else Total(count - 1, n) + n
  }

  lemma {:induction false} TotalIsProduct(count: nat, n: nat)
    ensures Total(count, n) == count * n
  {
    if count == 0 {
    } else {
      TotalIsProduct(count - 1, n);
      assert count * n == (count - 1) * n + n;
    }
  }

  lemma {:induction false} TotalGrows(a: nat, b: nat, n: nat)
    requires a <= b
    ensures Total(a, n) <= Total(b, n)
    decreases b
  {
    if a == b {
    } else {
      TotalGrows(a, b - 1, n);
    }
  }

  /** How many bytes a 32-bit byte count of so many elements covers. */
  function Covered(count: nat, n: nat): nat {
    Total(count, n) % WORD
  }

  predicate ZeroFrom(s: seq<Byte>, k: nat) {
    forall i :: k <= i < |s| ==> s[i] == 0
  }

  function UpTo(s: seq<Byte>, k: nat): seq<Byte> {
    if k <= |s| then s[..k] else s
  }

  /** The elements of a vector that are counted, and of their bytes those that are. */
  function VectorBytes(items: seq<Value>, n: nat): seq<Byte> {
    var c := |items| % COUNT_LIMIT;
    UpTo(Flat(items[..c]), Covered(c, n))
  }

  /** What << appends for a value of its type. */
  function Encode(ty: Ty, v: Value): seq<Byte>
    decreases ty, 1, 0
  {
    match v
    case Plain(b) => if ty.Str? then Count(|b|) + b else b
    case Many(items) =>
      if ty.Vec? then Count(|items|) + VectorBytes(items, ty.size)
      else if ty.ListOf? || ty.SetOf? then Count(|items|) + EncodeItems(ty.item, items)
      else []
    case Table(entries) =>
      if ty.MapOf? then Count(|entries|) + EncodeEntries(ty.key, ty.item, entries) else []
  }

  function EncodeItems(t: Ty, items: seq<Value>): seq<Byte>
    decreases t, 2, |items|
  {
    if items == [] then [] else EncodeItems(t, items[..|items| - 1]) + Encode(t, items[|items| - 1])
  }

  function EncodeEntries(k: Ty, t: Ty, entries: seq<Entry>): seq<Byte>
    decreases MapOf(k, t), 0, |entries|
  {
    if entries == [] then []
    else EncodeEntries(k, t, entries[..|entries| - 1]) + EncodeEntry(k, t, entries[|entries| - 1])
  }

  function EncodeEntry(k: Ty, t: Ty, e: Entry): seq<Byte>
    decreases MapOf(k, t), 0, 0
  {
    Encode(k, e.key) + Encode(t, e.value)
  }

  // ------------------------------------------------------------------ what is read

  /** A buffer, and what uninitialised memory happens to hold, in the order in which it shows. */
  datatype Input = Input(data: seq<Byte>, junk: nat -> Byte)

  /** The reader's position, and how much uninitialised memory has shown. */
  datatype Cursor = Cursor(pos: nat, shown: nat)

  /** What was read, and where the reader stands afterwards. */
  datatype Got<T> = Got(value: T, at: Cursor)

  predicate Inside(src: Input, at: Cursor) {
    at.pos <= |src.data|
  }

  function Zeros(n: nat): (r: seq<Byte>)
    ensures |r| == n
  {
    seq(n, _ => 0)
  }

  function Leftover(src: Input, from: nat, n: nat): (r: seq<Byte>)
    ensures |r| == n
  {
    seq(n, i requires 0 <= i < n => src.junk(from + i))
  }

  /** get: n bytes, or the destination is left as it was, zero or uninitialised. */
  function Take(src: Input, at: Cursor, n: nat, zeroed: bool): (r: Got<seq<Byte>>)
    requires Inside(src, at)
    ensures |r.value| == n && Inside(src, r.at) && at.pos <= r.at.pos
  {
    if at.pos + n <= |src.data| then Got(src.data[at.pos..at.pos + n], at.(pos := at.pos + n))
    else if zeroed then Got(Zeros(n), at)
    else Got(Leftover(src, at.shown, n), at.(shown := at.shown + n))
  }

  /** A count, from two bytes. */
  function TakeCount(src: Input, at: Cursor, zeroed: bool): (r: Got<nat>)
    requires Inside(src, at)
    ensures r.value < COUNT_LIMIT && Inside(src, r.at) && at.pos <= r.at.pos
  {
    var b := Take(src, at, 2, zeroed);
    Got(b.value[0] as nat + 256 * b.value[1] as nat, b.at)
  }

  /** Consecutive elements of n bytes each. */
  function Split(data: seq<Byte>, count: nat, n: nat): (r: seq<Value>)
    requires |data| == Total(count, n)
    ensures |r| == count && forall i :: 0 <= i < count ==> Sized(r[i], n)
    decreases count
  {
    if count == 0 then []
    else
      var front := Total(count - 1, n);
      Split(data[..front], count - 1, n) + [Plain(data[front..])]
  }

  /** insert into an ordered container: an equivalent element stays. */
  function Insert<T>(items: seq<T>, v: T, less: (T, T) -> bool): seq<T> {
    if items == [] then [v]
    else if less(items[0], v) then [items[0]] + Insert(items[1..], v, less)
    else if less(v, items[0]) then [v] + items
    else items
  }

  /** How many elements of n bytes there are bytes for: left / n. */
  function Whole(left: nat, n: nat): (q: nat)
    requires n > 0
    ensures Total(q, n) <= left < Total(q, n) + n
    decreases left
  {
    if left < n then 0 else Whole(left - n, n) + 1
  }

  lemma WholeIsQuotient(left: nat, n: nat)
    requires n > 0
    ensures Whole(left, n) == left / n
  {
    var q := Whole(left, n);
    TotalIsProduct(q, n);
    Remainder(q, left - q * n, n);
  }

  lemma WholeFits(left: nat, n: nat, count: nat)
    requires n > 0 && left < Total(count, n)
    ensures Whole(left, n) <= count
  {
    if Whole(left, n) > count { TotalGrows(count, Whole(left, n), n); }
  }

  lemma CoveredFits(count: nat, n: nat)
    ensures Covered(count, n) <= Total(count, n) && Covered(count, n) < WORD
    ensures Total(count, n) < WORD ==> Covered(count, n) == Total(count, n)
    ensures Covered(count, n) > 0 ==> n > 0
  {
    if n == 0 { TotalIsProduct(count, n); }
  }

  /** How many elements a vector gets, and how many bytes are copied into them. */
  datatype Clip = Clip(elements: nat, bytes: nat)

  /** All elements, or as many as there are bytes for. */
  function Clipped(count: nat, n: nat, left: nat): (c: Clip)
    ensures c.elements <= count && c.bytes <= left && c.bytes <= Total(c.elements, n)
    ensures c.bytes == Covered(c.elements, n) || (c.bytes == Total(c.elements, n) && c.bytes < WORD)
  {
    CoveredFits(count, n);
    if left < Covered(count, n) then
      WholeFits(left, n, count);
      Clip(Whole(left, n), Total(Whole(left, n), n))
    else Clip(count, Covered(count, n))
  }

  function TakeString(src: Input, at: Cursor): (r: Got<Value>)
    requires Inside(src, at)
    ensures Inside(src, r.at) && at.pos <= r.at.pos
  {
    var count := TakeCount(src, at, false);
    var left := |src.data| - count.at.pos;
    var n := if count.value > left then left else count.value;
    Got(Plain(src.data[count.at.pos..count.at.pos + n]), count.at.(pos := count.at.pos + n))
  }

  /** The elements of a new vector are zero before bytes are copied into them. */
  function Padded(data: seq<Byte>, size: nat): (r: seq<Byte>)
    requires |data| <= size
    ensures |r| == size
  {
    data + Zeros(size - |data|)
  }

  /** A vector of count elements with some bytes copied into it. */
  function VectorOf(data: seq<Byte>, count: nat, n: nat): Value
    requires |data| <= Total(count, n)
  {
    Many(Split(Padded(data, Total(count, n)), count, n))
  }

  /** A vector of at most count elements from the bytes at the cursor. */
  function VectorFrom(src: Input, at: Cursor, count: nat, n: nat): (r: Got<Value>)
    requires Inside(src, at)
    ensures Inside(src, r.at) && at.pos <= r.at.pos
  {
    var c := Clipped(count, n, |src.data| - at.pos);
    Got(VectorOf(src.data[at.pos..at.pos + c.bytes], c.elements, n), at.(pos := at.pos + c.bytes))
  }

  function TakeVector(src: Input, at: Cursor, n: nat): (r: Got<Value>)
    requires Inside(src, at)
    ensures Inside(src, r.at) && at.pos <= r.at.pos
  {
    var count := TakeCount(src, at, false);
    VectorFrom(src, count.at, count.value, n)
  }

  /** What >> reads for a value of its type, into a fresh destination. */
  function Decode(src: Input, ty: Ty, at: Cursor, zeroed: bool, less: Less): (r: Got<Value>)
    requires Inside(src, at)
    ensures Inside(src, r.at) && at.pos <= r.at.pos
    decreases ty, 1, 0
  {
    match ty
    case Fixed(n) => var b := Take(src, at, n, zeroed); Got(Plain(b.value), b.at)
    case Str => TakeString(src, at)
    case Vec(n) => TakeVector(src, at, n)
    case ListOf(t) => DecodeList(src, t, at, less)
    case SetOf(t) => DecodeWholeSet(src, t, at, less)
    case MapOf(k, t) => DecodeWholeMap(src, k, t, at, less)
  }

  function DecodeList(src: Input, t: Ty, at: Cursor, less: Less): (r: Got<Value>)
    requires Inside(src, at)
    ensures Inside(src, r.at) && at.pos <= r.at.pos
    decreases t, 3, 0
  {
    var count := TakeCount(src, at, true);
    var items := DecodeItems(src, t, count.value, count.at, less);
    Got(Many(items.value), items.at)
  }

  function DecodeWholeSet(src: Input, t: Ty, at: Cursor, less: Less): (r: Got<Value>)
    requires Inside(src, at)
    ensures Inside(src, r.at) && at.pos <= r.at.pos
    decreases t, 3, 0
  {
    var count := TakeCount(src, at, true);
    var items := DecodeSet(src, t, count.value, count.at, less);
    Got(Many(items.value), items.at)
  }

  function DecodeWholeMap(src: Input, k: Ty, t: Ty, at: Cursor, less: Less): (r: Got<Value>)
    requires Inside(src, at)
    ensures Inside(src, r.at) && at.pos <= r.at.pos
    decreases MapOf(k, t), 0, COUNT_LIMIT + 1
  {
    var count := TakeCount(src, at, true);
    var entries := DecodeMap(src, k, t, count.value, count.at, less);
    Got(Table(entries.value), entries.at)
  }

  function DecodeItems(src: Input, t: Ty, count: nat, at: Cursor, less: Less): (r: Got<seq<Value>>)
    requires Inside(src, at)
    ensures Inside(src, r.at) && at.pos <= r.at.pos
    decreases t, 2, count
  {
    if count == 0 then Got([], at)
    else
      var items := DecodeItems(src, t, count - 1, at, less);
      var v := Decode(src, t, items.at, false, less);
      Got(items.value + [v.value], v.at)
  }

  function DecodeSet(src: Input, t: Ty, count: nat, at: Cursor, less: Less): (r: Got<seq<Value>>)
    requires Inside(src, at)
    ensures Inside(src, r.at) && at.pos <= r.at.pos
    decreases t, 2, count
  {
    if count == 0 then Got([], at)
    else
      var items := DecodeSet(src, t, count - 1, at, less);
      var v := Decode(src, t, items.at, false, less);
      Got(Insert(items.value, v.value, less), v.at)
  }

  function DecodeMap(src: Input, k: Ty, t: Ty, count: nat, at: Cursor, less: Less): (r: Got<seq<Entry>>)
    requires Inside(src, at)
    ensures Inside(src, r.at) && at.pos <= r.at.pos
    decreases MapOf(k, t), 0, count + 1
  {
    if count == 0 then Got([], at)
    else
      var entries := DecodeMap(src, k, t, count - 1, at, less);
      var e := DecodeEntry(src, k, t, entries.at, less);
      Got(Insert(entries.value, e.value, ByKey(less)), e.at)
  }

  /** The pair that a map entry is read into starts out zeroed. */
  function DecodeEntry(src: Input, k: Ty, t: Ty, at: Cursor, less: Less): (r: Got<Entry>)
    requires Inside(src, at)
    ensures Inside(src, r.at) && at.pos <= r.at.pos
    decreases MapOf(k, t), 0, 0
  {
    var key := Decode(src, k, at, true, less);
    var v := Decode(src, t, key.at, true, less);
    Got(Entry(key.value, v.value), v.at)
  }

  // ------------------------------------------------------------------ values that fit

  ghost predicate Sound(ty: Ty, v: Value, less: Less) {
    WellTyped(ty, v, less) && Fits(ty, v)
  }

  ghost predicate AllSound(t: Ty, items: seq<Value>, less: Less)
    decreases |items|
  {
    items == [] || (AllSound(t, items[..|items| - 1], less) && Sound(t, items[|items| - 1], less))
  }

  lemma {:induction false} AllSoundIff(t: Ty, items: seq<Value>, less: Less)
    ensures AllSound(t, items, less) <==> forall i :: 0 <= i < |items| ==> Sound(t, items[i], less)
    decreases |items|
  {
    if items == [] {
    } else {
      var n := |items| - 1;
      AllSoundIff(t, items[..n], less);
      assert forall i :: 0 <= i < n ==> items[..n][i] == items[i];
    }
  }

  ghost predicate SoundEntry(k: Ty, t: Ty, e: Entry, less: Less) {
    Sound(k, e.key, less) && Sound(t, e.value, less)
  }

  ghost predicate AllSoundEntries(k: Ty, t: Ty, entries: seq<Entry>, less: Less)
    decreases |entries|
  {
    || entries == []
    || (AllSoundEntries(k, t, entries[..|entries| - 1], less) && SoundEntry(k, t, entries[|entries| - 1], less))
  }

  lemma {:induction false} AllSoundEntriesIff(k: Ty, t: Ty, entries: seq<Entry>, less: Less)
    ensures AllSoundEntries(k, t, entries, less)
       <==> forall i :: 0 <= i < |entries| ==> SoundEntry(k, t, entries[i], less)
    decreases |entries|
  {
    if entries == [] {
    } else {
      var n := |entries| - 1;
      AllSoundEntriesIff(k, t, entries[..n], less);
      assert forall i :: 0 <= i < n ==> entries[..n][i] == entries[i];
    }
  }

  lemma PartsSound(ty: Ty, v: Value, less: Less)
    requires Sound(ty, v, less)
    ensures ty.ListOf? || ty.SetOf? ==> AllSound(ty.item, v.items, less)
    ensures ty.MapOf? ==> AllSoundEntries(ty.key, ty.item, v.entries, less)
  {
    if ty.ListOf? || ty.SetOf? { AllSoundIff(ty.item, v.items, less); }
    if ty.MapOf? { AllSoundEntriesIff(ty.key, ty.item, v.entries, less); }
  }

  // ------------------------------------------------------------------ reading undoes writing

  /** The bytes e lie at the cursor. */
  predicate Ahead(src: Input, at: Cursor, e: seq<Byte>) {
    at.pos + |e| <= |src.data| && src.data[at.pos..at.pos + |e|] == e
  }

  function Past(at: Cursor, e: seq<Byte>): Cursor {
    at.(pos := at.pos + |e|)
  }

  lemma AheadParts(src: Input, at: Cursor, a: seq<Byte>, b: seq<Byte>)
    requires Ahead(src, at, a + b)
    ensures Ahead(src, at, a) && Ahead(src, Past(at, a), b) && Past(Past(at, a), b) == Past(at, a + b)
  {
    var d := src.data[at.pos..at.pos + |a + b|];
    assert d[..|a|] == a && d[|a|..] == b;
    assert src.data[at.pos..at.pos + |a|] == d[..|a|];
    assert src.data[at.pos + |a|..at.pos + |a + b|] == d[|a|..];
  }

  lemma CountBack(src: Input, at: Cursor, n: nat, zeroed: bool)
    requires n < COUNT_LIMIT && Ahead(src, at, Count(n))
    ensures TakeCount(src, at, zeroed) == Got(n, Past(at, Count(n)))
  {
    var b := src.data[at.pos..at.pos + 2];
    assert b[0] as int == n % 256 && b[1] as int == n / 256;
  }

  lemma SplitStep(front: seq<Byte>, items: seq<Value>, last: Value, k: nat, n: nat)
    requires Splits(front, items, k, n) && Sized(last, n)
    ensures Splits(front + last.bytes, items + [last], k + 1, n)
  {
    var all := front + last.bytes;
    assert all[..|front|] == front && all[|front|..] == last.bytes;
  }

  ghost predicate Splits(data: seq<Byte>, items: seq<Value>, count: nat, n: nat) {
    |data| == Total(count, n) && Split(data, count, n) == items
  }

  lemma {:induction false} SplitFlat(items: seq<Value>, n: nat)
    requires forall i :: 0 <= i < |items| ==> Sized(items[i], n)
    ensures Splits(Flat(items), items, |items|, n)
  {
    if items == [] {
    } else {
      var k, last := |items| - 1, items[|items| - 1];
      SplitFlat(items[..k], n);
      assert Sized(last, n);
      SplitStep(Flat(items[..k]), items[..k], last, k, n);
      assert items == items[..k] + [last];
      assert Flat(items) == Flat(items[..k]) + last.bytes;
    }
  }

  lemma StringBack(src: Input, b: seq<Byte>, at: Cursor)
    requires |b| < COUNT_LIMIT && Inside(src, at) && Ahead(src, at, Count(|b|) + b)
    ensures TakeString(src, at) == Got(Plain(b), Past(at, Count(|b|) + b))
  {
    AheadParts(src, at, Count(|b|), b);
    CountBack(src, at, |b|, false);
  }

  lemma VectorAt(src: Input, at: Cursor, items: seq<Value>, count: nat, bytes: seq<Byte>, n: nat)
    requires Inside(src, at) && Ahead(src, at, bytes)
    requires |bytes| == Covered(count, n) <= Total(count, n) && Split(Padded(bytes, Total(count, n)), count, n) == items
    ensures VectorFrom(src, at, count, n) == Got(Many(items), Past(at, bytes))
  {
    assert Clipped(count, n, |src.data| - at.pos) == Clip(count, |bytes|);
    assert src.data[at.pos..at.pos + |bytes|] == bytes;
  }

  lemma PaddedZeros(s: seq<Byte>, k: nat)
    requires k <= |s| && ZeroFrom(s, k)
    ensures Padded(s[..k], |s|) == s
  {
  }

  lemma Restored(flat: seq<Byte>, size: nat, need: nat, count: nat, n: nat)
    requires |flat| == size == Total(count, n) && need <= size && ZeroFrom(flat, need)
    ensures Split(Padded(flat[..need], size), count, n) == Split(flat, count, n)
  {
    PaddedZeros(flat, need);
  }

  lemma BytesCovered(items: seq<Value>, n: nat)
    requires |items| < COUNT_LIMIT && Covered(|items|, n) <= |Flat(items)|
    ensures VectorBytes(items, n) == Flat(items)[..Covered(|items|, n)]
  {
    assert items[..|items|] == items;
    CountKept(|items|);
  }

  lemma CountKept(n: nat)
    requires n < COUNT_LIMIT
    ensures n % COUNT_LIMIT == n
  {
  }

  lemma VectorParts(items: seq<Value>, n: nat)
    requires |items| < COUNT_LIMIT && forall i :: 0 <= i < |items| ==> Sized(items[i], n)
    requires ZeroFrom(Flat(items), Covered(|items|, n))
    ensures |VectorBytes(items, n)| == Covered(|items|, n) <= Total(|items|, n)
    ensures Split(Padded(VectorBytes(items, n), Total(|items|, n)), |items|, n) == items
  {
    SplitFlat(items, n);
    CoveredFits(|items|, n);
    BytesCovered(items, n);
    Restored(Flat(items), Total(|items|, n), Covered(|items|, n), |items|, n);
  }

  lemma VectorBack(src: Input, items: seq<Value>, n: nat, at: Cursor)
    requires |items| < COUNT_LIMIT && forall i :: 0 <= i < |items| ==> Sized(items[i], n)
    requires ZeroFrom(Flat(items), Covered(|items|, n))
    requires Inside(src, at) && Ahead(src, at, Count(|items|) + VectorBytes(items, n))
    ensures TakeVector(src, at, n) == Got(Many(items), Past(at, Count(|items|) + VectorBytes(items, n)))
  {
    VectorParts(items, n);
    VectorRead(src, items, |items|, n, at, VectorBytes(items, n));
  }

  lemma VectorRead(src: Input, items: seq<Value>, count: nat, n: nat, at: Cursor, bytes: seq<Byte>)
    requires count < COUNT_LIMIT && |bytes| == Covered(count, n) <= Total(count, n)
    requires Split(Padded(bytes, Total(count, n)), count, n) == items
    requires Inside(src, at) && Ahead(src, at, Count(count) + bytes)
    ensures TakeVector(src, at, n) == Got(Many(items), Past(at, Count(count) + bytes))
  {
    AheadParts(src, at, Count(count), bytes);
    CountBack(src, at, count, false);
    VectorAt(src, Past(at, Count(count)), items, count, bytes, n);
  }

  /** Reading what was written gives the value back and stops where it ends. */
  lemma {:induction false} RoundTrip(src: Input, ty: Ty, v: Value, at: Cursor, zeroed: bool, less: Less)
    requires Sound(ty, v, less) && StrictOrder(less)
    requires Inside(src, at) && Ahead(src, at, Encode(ty, v))
    ensures Decode(src, ty, at, zeroed, less) == Got(v, Past(at, Encode(ty, v)))
    decreases ty, 1, 0
  {
    PartsSound(ty, v, less);
    match ty
    case Fixed(n) =>
    case Str =>
      StringBack(src, v.bytes, at);
    case Vec(n) =>
      VectorBack(src, v.items, n, at);
    case ListOf(t) =>
      ListBack(src, t, v.items, at, less);
    case SetOf(t) =>
      WholeSetBack(src, t, v.items, at, less);
    case MapOf(k, t) =>
      WholeMapBack(src, k, t, v.entries, at, less);
  }

  lemma ListBack(src: Input, t: Ty, items: seq<Value>, at: Cursor, less: Less)
    requires StrictOrder(less) && |items| < COUNT_LIMIT
    requires AllSound(t, items, less)
    requires Inside(src, at) && Ahead(src, at, Count(|items|) + EncodeItems(t, items))
    ensures DecodeList(src, t, at, less) == Got(Many(items), Past(at, Count(|items|) + EncodeItems(t, items)))
    decreases t, 3, 0
  {
    AheadParts(src, at, Count(|items|), EncodeItems(t, items));
    CountBack(src, at, |items|, true);
    ItemsBack(src, t, items, Past(at, Count(|items|)), less);
  }

  lemma WholeSetBack(src: Input, t: Ty, items: seq<Value>, at: Cursor, less: Less)
    requires StrictOrder(less) && |items| < COUNT_LIMIT && Ascending(items, less)
    requires AllSound(t, items, less)
    requires Inside(src, at) && Ahead(src, at, Count(|items|) + EncodeItems(t, items))
    ensures DecodeWholeSet(src, t, at, less) == Got(Many(items), Past(at, Count(|items|) + EncodeItems(t, items)))
    decreases t, 3, 0
  {
    AheadParts(src, at, Count(|items|), EncodeItems(t, items));
    CountBack(src, at, |items|, true);
    SetBack(src, t, items, Past(at, Count(|items|)), less);
  }

  lemma WholeMapBack(src: Input, k: Ty, t: Ty, entries: seq<Entry>, at: Cursor, less: Less)
    requires StrictOrder(less) && |entries| < COUNT_LIMIT && Ascending(entries, ByKey(less))
    requires AllSoundEntries(k, t, entries, less)
    requires Inside(src, at) && Ahead(src, at, Count(|entries|) + EncodeEntries(k, t, entries))
    ensures DecodeWholeMap(src, k, t, at, less)
              == Got(Table(entries), Past(at, Count(|entries|) + EncodeEntries(k, t, entries)))
    decreases MapOf(k, t), 0, COUNT_LIMIT + 1
  {
    AheadParts(src, at, Count(|entries|), EncodeEntries(k, t, entries));
    CountBack(src, at, |entries|, true);
    MapBack(src, k, t, entries, Past(at, Count(|entries|)), less);
  }

  /** One more item of a list. */
  lemma ItemStep(src: Input, t: Ty, count: nat, front: seq<Value>, v: Value, at: Cursor, mid: Cursor, after: Cursor,
                 less: Less)
    requires Inside(src, at) && Inside(src, mid)
    requires DecodeItems(src, t, count, at, less) == Got(front, mid)
    requires Decode(src, t, mid, false, less) == Got(v, after)
    ensures DecodeItems(src, t, count + 1, at, less) == Got(front + [v], after)
  {
  }

  lemma {:induction false} ItemsBack(src: Input, t: Ty, items: seq<Value>, at: Cursor, less: Less)
    requires StrictOrder(less)
    requires AllSound(t, items, less)
    requires Inside(src, at) && Ahead(src, at, EncodeItems(t, items))
    ensures DecodeItems(src, t, |items|, at, less) == Got(items, Past(at, EncodeItems(t, items)))
    decreases t, 2, |items|
  {
    if items == [] {
    } else {
      var front, last := items[..|items| - 1], items[|items| - 1];
      var a, b := EncodeItems(t, front), Encode(t, last);
      AheadParts(src, at, a, b);
      ItemsBack(src, t, front, at, less);
      RoundTrip(src, t, last, Past(at, a), false, less);
      ItemStep(src, t, |front|, front, last, at, Past(at, a), Past(at, a + b), less);
      assert items == front + [last];
    }
  }

  lemma {:induction false} AscendsTo<T(!new)>(items: seq<T>, i: nat, j: nat, less: (T, T) -> bool)
    requires StrictOrder(less) && Ascending(items, less) && i < j < |items|
    ensures less(items[i], items[j])
    decreases j
  {
    if i >= j - 1 {
    } else {
      AscendsTo(items, i, j - 1, less);
    }
    assert less(items[j - 1], items[j]);
  }

  lemma {:induction false} InsertAbove<T>(items: seq<T>, v: T, less: (T, T) -> bool)
    requires forall i :: 0 <= i < |items| ==> less(items[i], v)
    ensures Insert(items, v, less) == items + [v]
  {
    if items == [] {
    } else {
      InsertAbove(items[1..], v, less);
      assert items == [items[0]] + items[1..];
    }
  }

  /** An element above all others is inserted at the end. */
  lemma InsertLast<T(!new)>(items: seq<T>, less: (T, T) -> bool)
    requires StrictOrder(less) && Ascending(items, less) && items != []
    ensures var front, last := items[..|items| - 1], items[|items| - 1];
            Ascending(front, less) && Insert(front, last, less) == items
  {
    var front, last := items[..|items| - 1], items[|items| - 1];
    forall i | 0 <= i < |front| ensures less(front[i], last) { AscendsTo(items, i, |items| - 1, less); }
    InsertAbove(front, last, less);
  }

  /** One more element of a set. */
  lemma SetStep(src: Input, t: Ty, count: nat, front: seq<Value>, v: Value, at: Cursor, mid: Cursor, after: Cursor,
                less: Less)
    requires Inside(src, at) && Inside(src, mid)
    requires DecodeSet(src, t, count, at, less) == Got(front, mid) && Decode(src, t, mid, false, less) == Got(v, after)
    ensures DecodeSet(src, t, count + 1, at, less) == Got(Insert(front, v, less), after)
  {
  }

  lemma {:induction false} SetBack(src: Input, t: Ty, items: seq<Value>, at: Cursor, less: Less)
    requires StrictOrder(less) && Ascending(items, less)
    requires AllSound(t, items, less)
    requires Inside(src, at) && Ahead(src, at, EncodeItems(t, items))
    ensures DecodeSet(src, t, |items|, at, less) == Got(items, Past(at, EncodeItems(t, items)))
    decreases t, 2, |items|
  {
    if items == [] {
    } else {
      var front, last := items[..|items| - 1], items[|items| - 1];
      var a, b := EncodeItems(t, front), Encode(t, last);
      AheadParts(src, at, a, b);
      SetBack(src, t, front, at, less);
      RoundTrip(src, t, last, Past(at, a), false, less);
      SetStep(src, t, |front|, front, last, at, Past(at, a), Past(at, a + b), less);
      InsertLast(items, less);
    }
  }

  lemma EntryBack(src: Input, k: Ty, t: Ty, e: Entry, at: Cursor, less: Less)
    requires StrictOrder(less) && SoundEntry(k, t, e, less)
    requires Inside(src, at) && Ahead(src, at, EncodeEntry(k, t, e))
    ensures DecodeEntry(src, k, t, at, less) == Got(e, Past(at, EncodeEntry(k, t, e)))
    decreases MapOf(k, t), 0, 0
  {
    var a, b := Encode(k, e.key), Encode(t, e.value);
    AheadParts(src, at, a, b);
    RoundTrip(src, k, e.key, at, true, less);
    RoundTrip(src, t, e.value, Past(at, a), true, less);
  }

  /** One more entry of a map. */
  lemma MapStep(src: Input, k: Ty, t: Ty, count: nat, front: seq<Entry>, e: Entry, at: Cursor, mid: Cursor,
                after: Cursor, less: Less)
    requires Inside(src, at) && Inside(src, mid)
    requires DecodeMap(src, k, t, count, at, less) == Got(front, mid)
    requires DecodeEntry(src, k, t, mid, less) == Got(e, after)
    ensures DecodeMap(src, k, t, count + 1, at, less) == Got(Insert(front, e, ByKey(less)), after)
  {
  }

  lemma {:induction false} MapBack(src: Input, k: Ty, t: Ty, entries: seq<Entry>, at: Cursor, less: Less)
    requires StrictOrder(less) && Ascending(entries, ByKey(less))
    requires AllSoundEntries(k, t, entries, less)
    requires Inside(src, at) && Ahead(src, at, EncodeEntries(k, t, entries))
    ensures DecodeMap(src, k, t, |entries|, at, less) == Got(entries, Past(at, EncodeEntries(k, t, entries)))
    decreases MapOf(k, t), 0, |entries| + 1
  {
    if entries == [] {
    } else {
      var front, last := entries[..|entries| - 1], entries[|entries| - 1];
      var a, b := EncodeEntries(k, t, front), EncodeEntry(k, t, last);
      AheadParts(src, at, a, b);
      ByKeyStrict(less);
      InsertLast(entries, ByKey(less));
      MapBack(src, k, t, front, at, less);
      EntryBack(src, k, t, last, Past(at, a), less);
      MapStep(src, k, t, |front|, front, last, at, Past(at, a), Past(at, a + b), less);
    }
  }

  // ------------------------------------------------------------------ whatever is read

  /** Inserting keeps the order, and every property that the elements share. */
  lemma {:induction false} InsertKeeps<T>(items: seq<T>, v: T, less: (T, T) -> bool, p: T -> bool)
    requires Ascending(items, less) && p(v) && forall i :: 0 <= i < |items| ==> p(items[i])
    ensures var r := Insert(items, v, less);
            && Ascending(r, less) && 0 < |r| <= |items| + 1 && (forall i :: 0 <= i < |r| ==> p(r[i]))
            && (r[0] == v || (items != [] && r[0] == items[0]))
  {
    if items == [] || !less(items[0], v) {
    } else {
      assert items[1..] != [] ==> less(items[0], items[1]);
      InsertKeeps(items[1..], v, less, p);
    }
  }

  lemma SoundItems(t: Ty, items: seq<Value>, less: Less)
    requires AllSound(t, items, less) && |items| < COUNT_LIMIT
    ensures Sound(ListOf(t), Many(items), less)
    ensures Ascending(items, less) ==> Sound(SetOf(t), Many(items), less)
  {
    AllSoundIff(t, items, less);
    forall i | 0 <= i < |items| ensures WellTyped(t, items[i], less) && Fits(t, items[i]) {
      assert Sound(t, items[i], less);
    }
  }

  lemma SoundTable(k: Ty, t: Ty, entries: seq<Entry>, less: Less)
    requires AllSoundEntries(k, t, entries, less) && |entries| < COUNT_LIMIT && Ascending(entries, ByKey(less))
    ensures Sound(MapOf(k, t), Table(entries), less)
  {
    AllSoundEntriesIff(k, t, entries, less);
    forall i | 0 <= i < |entries|
      ensures WellTyped(k, entries[i].key, less) && Fits(k, entries[i].key)
      ensures WellTyped(t, entries[i].value, less) && Fits(t, entries[i].value)
    {
      assert SoundEntry(k, t, entries[i], less);
    }
  }

  lemma {:induction false} FlatSplit(data: seq<Byte>, count: nat, n: nat)
    requires |data| == Total(count, n)
    ensures Flat(Split(data, count, n)) == data
    decreases count
  {
    var items := Split(data, count, n);
    if count == 0 {
    } else {
      var front := Total(count - 1, n);
      FlatSplit(data[..front], count - 1, n);
      assert items[..count - 1] == Split(data[..front], count - 1, n);
      assert data == data[..front] + data[front..];
    }
  }

  /** Only the bytes copied into a vector can be other than zero. */
  lemma PaddedFits(data: seq<Byte>, count: nat, n: nat, size: nat)
    requires size == Total(count, n) && |data| <= size
    requires |data| == Covered(count, n) || (|data| == size && size < WORD)
    ensures ZeroFrom(Flat(Split(Padded(data, size), count, n)), Covered(count, n))
  {
    FlatSplit(Padded(data, size), count, n);
    CoveredFits(count, n);
  }

  ghost predicate SoundVector(v: Value, n: nat) {
    && v.Many? && |v.items| < COUNT_LIMIT && ZeroFrom(Flat(v.items), Covered(|v.items|, n))
    && forall i :: 0 <= i < |v.items| ==> Sized(v.items[i], n)
  }

  lemma VectorOfFits(data: seq<Byte>, count: nat, n: nat)
    requires count < COUNT_LIMIT && |data| <= Total(count, n)
    requires |data| == Covered(count, n) || (|data| == Total(count, n) && |data| < WORD)
    ensures SoundVector(VectorOf(data, count, n), n)
  {
    PaddedFits(data, count, n, Total(count, n));
  }

  lemma ClippedFits(data: seq<Byte>, count: nat, c: Clip, n: nat)
    requires c.elements <= count < COUNT_LIMIT && |data| == c.bytes <= Total(c.elements, n)
    requires c.bytes == Covered(c.elements, n) || (c.bytes == Total(c.elements, n) && c.bytes < WORD)
    ensures SoundVector(VectorOf(data, c.elements, n), n)
  {
    VectorOfFits(data, c.elements, n);
  }

  lemma VectorFits(src: Input, at: Cursor, count: nat, n: nat)
    requires Inside(src, at) && count < COUNT_LIMIT
    ensures SoundVector(VectorFrom(src, at, count, n).value, n)
  {
    var c := Clipped(count, n, |src.data| - at.pos);
    var data := src.data[at.pos..at.pos + c.bytes];
    assert VectorFrom(src, at, count, n).value == VectorOf(data, c.elements, n);
    ClippedFits(data, count, c, n);
  }

  /** On any input at all, what is read is a value of its type with counts of 16 bits. */
  lemma {:induction false} DecodedFits(src: Input, ty: Ty, at: Cursor, zeroed: bool, less: Less)
    requires Inside(src, at)
    ensures Sound(ty, Decode(src, ty, at, zeroed, less).value, less)
    decreases ty, 1, 0
  {
    match ty
    case Fixed(n) =>
    case Str =>
    case Vec(n) =>
      var count := TakeCount(src, at, false);
      VectorFits(src, count.at, count.value, n);
    case ListOf(t) =>
      var count := TakeCount(src, at, true);
      ItemsFit(src, t, count.value, count.at, less);
      SoundItems(t, DecodeItems(src, t, count.value, count.at, less).value, less);
    case SetOf(t) =>
      var count := TakeCount(src, at, true);
      SetFits(src, t, count.value, count.at, less);
      SoundItems(t, DecodeSet(src, t, count.value, count.at, less).value, less);
    case MapOf(k, t) =>
      var count := TakeCount(src, at, true);
      MapFits(src, k, t, count.value, count.at, less);
      SoundTable(k, t, DecodeMap(src, k, t, count.value, count.at, less).value, less);
  }

  lemma OneMoreSound(t: Ty, items: seq<Value>, v: Value, less: Less)
    requires AllSound(t, items, less) && Sound(t, v, less)
    ensures AllSound(t, items + [v], less)
  {
    assert (items + [v])[..|items|] == items;
  }

  lemma {:induction false} ItemsFit(src: Input, t: Ty, count: nat, at: Cursor, less: Less)
    requires Inside(src, at)
    ensures var items := DecodeItems(src, t, count, at, less).value; |items| <= count && AllSound(t, items, less)
    decreases t, 2, count
  {
    if count == 0 {
    } else {
      ItemsFit(src, t, count - 1, at, less);
      var items := DecodeItems(src, t, count - 1, at, less);
      DecodedFits(src, t, items.at, false, less);
      OneMoreSound(t, items.value, Decode(src, t, items.at, false, less).value, less);
    }
  }

  lemma InsertSound(t: Ty, items: seq<Value>, v: Value, less: Less)
    requires Ascending(items, less) && AllSound(t, items, less) && Sound(t, v, less)
    ensures var r := Insert(items, v, less); |r| <= |items| + 1 && Ascending(r, less) && AllSound(t, r, less)
  {
    AllSoundIff(t, items, less);
    InsertKeeps(items, v, less, x => Sound(t, x, less));
    AllSoundIff(t, Insert(items, v, less), less);
  }

  lemma InsertEntrySound(k: Ty, t: Ty, entries: seq<Entry>, e: Entry, less: Less)
    requires Ascending(entries, ByKey(less)) && AllSoundEntries(k, t, entries, less) && SoundEntry(k, t, e, less)
    ensures var r := Insert(entries, e, ByKey(less));
            |r| <= |entries| + 1 && Ascending(r, ByKey(less)) && AllSoundEntries(k, t, r, less)
  {
    AllSoundEntriesIff(k, t, entries, less);
    InsertKeeps(entries, e, ByKey(less), x => SoundEntry(k, t, x, less));
    AllSoundEntriesIff(k, t, Insert(entries, e, ByKey(less)), less);
  }

  lemma {:induction false} SetFits(src: Input, t: Ty, count: nat, at: Cursor, less: Less)
    requires Inside(src, at)
    ensures var items := DecodeSet(src, t, count, at, less).value;
            |items| <= count && Ascending(items, less) && AllSound(t, items, less)
    decreases t, 2, count
  {
    if count == 0 {
    } else {
      SetFits(src, t, count - 1, at, less);
      var items := DecodeSet(src, t, count - 1, at, less);
      DecodedFits(src, t, items.at, false, less);
      var v := Decode(src, t, items.at, false, less).value;
      InsertSound(t, items.value, v, less);
    }
  }

  lemma {:induction false} MapFits(src: Input, k: Ty, t: Ty, count: nat, at: Cursor, less: Less)
    requires Inside(src, at)
    ensures var entries := DecodeMap(src, k, t, count, at, less).value;
            |entries| <= count && Ascending(entries, ByKey(less)) && AllSoundEntries(k, t, entries, less)
    decreases MapOf(k, t), 0, count + 1
  {
    if count == 0 {
    } else {
      MapFits(src, k, t, count - 1, at, less);
      var entries := DecodeMap(src, k, t, count - 1, at, less);
      EntryFits(src, k, t, entries.at, less);
      var e := DecodeEntry(src, k, t, entries.at, less).value;
      InsertEntrySound(k, t, entries.value, e, less);
    }
  }

  lemma EntryFits(src: Input, k: Ty, t: Ty, at: Cursor, less: Less)
    requires Inside(src, at)
    ensures SoundEntry(k, t, DecodeEntry(src, k, t, at, less).value, less)
    decreases MapOf(k, t), 0, 0
  {
    DecodedFits(src, k, at, true, less);
    DecodedFits(src, t, Decode(src, k, at, true, less).at, true, less);
  }

  /** Vectors of at most 65535 elements and less than 2^32 bytes fit. */
  lemma SmallVectorFits(items: seq<Value>, n: nat)
    requires |items| < COUNT_LIMIT && |items| * n < WORD && forall i :: 0 <= i < |items| ==> Sized(items[i], n)
    ensures Fits(Vec(n), Many(items))
  {
    SplitFlat(items, n);
    CoveredFits(|items|, n);
    TotalIsProduct(|items|, n);
  }

  /** A list of 65536 elements is read as an empty one. */
  lemma LongListIsLost(v: Value, less: Less, junk: nat -> Byte)
    requires v.Many? && |v.items| == 0x1_0000 && forall i :: 0 <= i < |v.items| ==> v.items[i] == Plain([1])
    ensures WellTyped(ListOf(Fixed(1)), v, less) && !Fits(ListOf(Fixed(1)), v)
    ensures Decode(Input(Encode(ListOf(Fixed(1)), v), junk), ListOf(Fixed(1)), Cursor(0, 0), false, less)
              == Got(Many([]), Cursor(2, 0))
  {
    var e := Encode(ListOf(Fixed(1)), v);
    var src := Input(e, junk);
    assert Count(0x1_0000) == [0, 0];
    assert e == [0, 0] + EncodeItems(Fixed(1), v.items);
    assert src.data[0..2] == [0, 0];
    assert TakeCount(src, Cursor(0, 0), true) == Got(0, Cursor(2, 0));
  }

  /** A value survives writing and reading, whatever follows it, if and only if it fits. */
  lemma RoundTripIff(ty: Ty, v: Value, less: Less, rest: seq<Byte>, junk: nat -> Byte)
    requires WellTyped(ty, v, less) && StrictOrder(less)
    ensures var e := Encode(ty, v);
            var r := Decode(Input(e + rest, junk), ty, Cursor(0, 0), false, less);
            && (r.value == v <==> Fits(ty, v))
            && (Fits(ty, v) ==> r.at == Cursor(|e|, 0))
  {
    var e := Encode(ty, v);
    var src, at := Input(e + rest, junk), Cursor(0, 0);
    if Fits(ty, v) {
      assert src.data[0..|e|] == e;
      RoundTrip(src, ty, v, at, false, less);
    }
    DecodedFits(src, ty, at, false, less);
  }

  // ------------------------------------------------------------------ the writer

  class StreamWriter {
    var buf: seq<Byte>

    constructor ()
      ensures buf == []
    {
      buf := [];
    }

    method PutBytes(data: seq<Byte>)
      modifies this
      ensures buf == old(buf) + data
    {
      buf := buf + data;
    }

    /** The operators <<, one for each type. */
    method Put(ty: Ty, v: Value)
      modifies this
      ensures buf == old(buf) + Encode(ty, v)
      decreases ty, 1, 0
    {
      match v
      case Plain(b) =>
        if ty.Str? {
          PutBytes(Count(|b|));
          Append(old(buf), Count(|b|), b);
        }
        PutBytes(b);
      case Many(items) =>
        if ty.Vec? {
          PutBytes(Count(|items|));
          var count := |items| % COUNT_LIMIT;
          if count > 0 { PutBytes(VectorBytes(items, ty.size)); }
          Append(old(buf), Count(|items|), VectorBytes(items, ty.size));
        } else if ty.ListOf? || ty.SetOf? {
          PutBytes(Count(|items|));
          PutItems(ty.item, items);
          Append(old(buf), Count(|items|), EncodeItems(ty.item, items));
        }
      case Table(entries) =>
        if ty.MapOf? {
          PutBytes(Count(|entries|));
          PutEntries(ty.key, ty.item, entries);
          Append(old(buf), Count(|entries|), EncodeEntries(ty.key, ty.item, entries));
        }
    }

    method PutItems(t: Ty, items: seq<Value>)
      modifies this
      ensures buf == old(buf) + EncodeItems(t, items)
      decreases t, 2, |items|
    {
      var i := 0;
      while i < |items|
        invariant i <= |items| && buf == old(buf) + EncodeItems(t, items[..i])
      {
        assert items[..i + 1][..i] == items[..i];
        Append(old(buf), EncodeItems(t, items[..i]), Encode(t, items[i]));
        Put(t, items[i]);
        i := i + 1;
      }
      assert items[..|items|] == items;
    }

    method PutEntries(k: Ty, t: Ty, entries: seq<Entry>)
      modifies this
      ensures buf == old(buf) + EncodeEntries(k, t, entries)
      decreases MapOf(k, t), 0, |entries|
    {
      var i := 0;
      while i < |entries|
        invariant i <= |entries| && buf == old(buf) + EncodeEntries(k, t, entries[..i])
      {
        assert entries[..i + 1][..i] == entries[..i];
        Append(old(buf), EncodeEntries(k, t, entries[..i]), EncodeEntry(k, t, entries[i]));
        Append(buf, Encode(k, entries[i].key), Encode(t, entries[i].value));
        Put(k, entries[i].key);
        Put(t, entries[i].value);
        i := i + 1;
      }
      assert entries[..|entries|] == entries;
    }
  }

  // ------------------------------------------------------------------ the reader

  class StreamReader {
    const src: Input
    var at: Cursor

    constructor (src: Input)
      ensures this.src == src && at == Cursor(0, 0)
    {
      this.src := src;
      at := Cursor(0, 0);
    }

    /** The position never passes the end. */
    predicate Valid()
      reads this
    {
      Inside(src, at)
    }

    method GetBytes(n: nat, zeroed: bool) returns (b: seq<Byte>)
      requires Valid()
      modifies this
      ensures Valid() && Got(b, at) == Take(src, old(at), n, zeroed)
    {
      if at.pos + n > |src.data| {
        if zeroed {
          b := Zeros(n);
        } else {
          b := Leftover(src, at.shown, n);
          at := at.(shown := at.shown + n);
        }
      } else {
        b := src.data[at.pos..at.pos + n];
        at := at.(pos := at.pos + n);
      }
    }

    method GetCount(zeroed: bool) returns (count: nat)
      requires Valid()
      modifies this
      ensures Valid() && Got(count, at) == TakeCount(src, old(at), zeroed)
    {
      var b := GetBytes(2, zeroed);
      count := b[0] as nat + 256 * b[1] as nat;
    }

    method GetString() returns (v: Value)
      requires Valid()
      modifies this
      ensures Valid() && Got(v, at) == TakeString(src, old(at))
    {
      var count := GetCount(false);
      var left := |src.data| - at.pos;
      if count > left { count := left; }
      v := Plain(src.data[at.pos..at.pos + count]);
      at := at.(pos := at.pos + count);
    }

    method GetVector(n: nat) returns (v: Value)
      requires Valid()
      modifies this
      ensures Valid() && Got(v, at) == TakeVector(src, old(at), n)
    {
      var count := GetCount(false);
      var left := |src.data| - at.pos;
      ghost var c := Clipped(count, n, left);
      var need := Covered(count, n);
      CoveredFits(count, n);
      if left < need {
        WholeIsQuotient(left, n);
        count := left / n;
        TotalIsProduct(count, n);
        need := count * n;
      }
      assert c == Clip(count, need);
      v := VectorOf(src.data[at.pos..at.pos + need], count, n);
      at := at.(pos := at.pos + need);
    }

    /** The operators >>, one for each type, into fresh destinations. */
    method Get(ty: Ty, zeroed: bool, less: Less) returns (v: Value)
      requires Valid()
      modifies this
      ensures Valid() && Got(v, at) == Decode(src, ty, old(at), zeroed, less)
      decreases ty, 1, 0
    {
      match ty
      case Fixed(n) =>
        var b := GetBytes(n, zeroed);
        v := Plain(b);
      case Str => v := GetString();
      case Vec(n) => v := GetVector(n);
      case ListOf(t) =>
        var count := GetCount(true);
        var items := GetItems(t, count, less);
        v := Many(items);
      case SetOf(t) =>
        var count := GetCount(true);
        var items := GetSet(t, count, less);
        v := Many(items);
      case MapOf(k, t) =>
        var count := GetCount(true);
        var entries := GetMap(k, t, count, less);
        v := Table(entries);
    }

    method GetItems(t: Ty, count: nat, less: Less) returns (items: seq<Value>)
      requires Valid()
      modifies this
      ensures Valid() && Got(items, at) == DecodeItems(src, t, count, old(at), less)
      decreases t, 2, count
    {
      items := [];
      var i := 0;
      while i < count
        invariant i <= count && Valid() && Got(items, at) == DecodeItems(src, t, i, old(at), less)
      {
        ghost var front, mid := items, at;
        var v := Get(t, false, less);
        ItemStep(src, t, i, front, v, old(at), mid, at, less);
        items := items + [v];
        i := i + 1;
      }
    }

    method GetSet(t: Ty, count: nat, less: Less) returns (items: seq<Value>)
      requires Valid()
      modifies this
      ensures Valid() && Got(items, at) == DecodeSet(src, t, count, old(at), less)
      decreases t, 2, count
    {
      items := [];
      var i := 0;
      while i < count
        invariant i <= count && Valid() && Got(items, at) == DecodeSet(src, t, i, old(at), less)
      {
        items := GetElement(t, items, less, i, old(at));
        i := i + 1;
      }
    }

    /** One more element of a set that was begun at start and has taken count elements. */
    method GetElement(t: Ty, items: seq<Value>, less: Less, ghost count: nat, ghost start: Cursor)
      returns (more: seq<Value>)
      requires Valid() && Inside(src, start) && Got(items, at) == DecodeSet(src, t, count, start, less)
      modifies this
      ensures Valid() && Got(more, at) == DecodeSet(src, t, count + 1, start, less)
      decreases t, 1, 1
    {
      ghost var mid := at;
      var v := Get(t, false, less);
      SetStep(src, t, count, items, v, start, mid, at, less);
      more := Insert(items, v, less);
    }

    method GetMap(k: Ty, t: Ty, count: nat, less: Less) returns (entries: seq<Entry>)
      requires Valid()
      modifies this
      ensures Valid() && Got(entries, at) == DecodeMap(src, k, t, count, old(at), less)
      decreases MapOf(k, t), 0, count + 1
    {
      entries := [];
      var i := 0;
      while i < count
        invariant i <= count && Valid() && Got(entries, at) == DecodeMap(src, k, t, i, old(at), less)
      {
        ghost var front, mid := entries, at;
        var e := GetEntry(k, t, less);
        MapStep(src, k, t, i, front, e, old(at), mid, at, less);
        entries := Insert(entries, e, ByKey(less));
        i := i + 1;
      }
    }

    method GetEntry(k: Ty, t: Ty, less: Less) returns (e: Entry)
      requires Valid()
      modifies this
      ensures Valid() && Got(e, at) == DecodeEntry(src, k, t, old(at), less)
      decreases MapOf(k, t), 0, 0
    {
      var key := Get(k, true, less);
      var v := Get(t, true, less);
      e := Entry(key, v);
    }
  }
}
