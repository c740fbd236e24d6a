/** What the reader of the binary stream makes of output that was cut short, and of repeated elements. */
module StreamCut {
  import opened Sequences
  import opened Words
  import opened Stream
  import opened StreamWire

  /** The first m bytes of some output, in a buffer of their own. */
  predicate CutAt(src: Input, wire: seq<Byte>, m: nat) {
    m <= |wire| && src.data == wire[..m]
  }

  const BEGIN := Cursor(0, 0)

  /** Too few bytes for a fixed-size value: none of them is consumed, and the destination keeps what it held. */
  lemma FixedCut(src: Input, at: Cursor, n: nat, zeroed: bool, less: Less)
    requires Inside(src, at) && |src.data| - at.pos < n
    ensures var r := Decode(src, Fixed(n), at, zeroed, less);
            && r.at.pos == at.pos
            && r.value == Plain(if zeroed then Zeros(n) else Leftover(src, at.shown, n))
  {
  }

  lemma CountCut(src: Input, wire: seq<Byte>, m: nat, count: nat, zeroed: bool)
    requires CutAt(src, wire, m) && 2 <= m && count < COUNT_LIMIT && Count(count) <= wire
    ensures TakeCount(src, BEGIN, zeroed) == Got(count, Cursor(2, 0))
  {
    assert src.data[0..2] == Count(count);
    CountBack(src, BEGIN, count, zeroed);
  }

  /** A string of which only the first characters arrived is read as these. */
  lemma StringCut(src: Input, b: seq<Byte>, m: nat, less: Less)
    requires |b| < 65536 && 2 <= m && CutAt(src, Encode(Str, Plain(b)), m)
    ensures Decode(src, Str, BEGIN, false, less) == Got(Plain(b[..m - 2]), Cursor(m, 0))
  {
    var wire := Encode(Str, Plain(b));
    assert Count(|b|) <= wire;
    assert wire == Count(|b|) + b;
    CountCut(src, wire, m, |b|, false);
    assert src.data[2..m] == wire[2..m] == b[..m - 2];
  }

  /** How many elements of n bytes have arrived whole. */
  function Arrived(m: nat, n: nat): nat
    requires 2 <= m && n > 0
  {
    Whole(m - 2, n)
  }

  lemma {:induction false} FlatPrefix(items: seq<Value>, n: nat, k: nat)
    requires AllSized(items, n) && k <= |items|
    ensures Total(k, n) <= |Flat(items)| && Flat(items)[..Total(k, n)] == Flat(items[..k])
    decreases |items|
  {
    ItemsFlat(items, n);
    if k == |items| {
      assert items[..k] == items && Flat(items)[..|Flat(items)|] == Flat(items);
    } else {
      var last := |items| - 1;
      FlatPrefix(items[..last], n, k);
      assert items[..last][..k] == items[..k];
    }
  }

  /** A buffer behind its count is the beginning of the bytes that were written. */
  ghost predicate Behind(data: seq<Byte>, bytes: seq<Byte>, left: nat) {
    left <= |bytes| && |data| == 2 + left && data[2..] == bytes[..left]
  }

  lemma Window(data: seq<Byte>, bytes: seq<Byte>, left: nat, from: nat, to: nat)
    requires Behind(data, bytes, left) && from <= to <= left
    ensures data[2 + from..2 + to] == bytes[from..to]
  {
    var a, b := data[2 + from..2 + to], bytes[from..to];
    forall i | 0 <= i < |a| ensures a[i] == b[i] {
      assert data[2..][from + i] == bytes[..left][from + i];
    }
    assert a == b;
  }

  lemma BehindCount(src: Input, bytes: seq<Byte>, count: nat, m: nat)
    requires 2 <= m && CutAt(src, Count(count) + bytes, m)
    ensures Behind(src.data, bytes, m - 2)
  {
  }

  /** The vector that some of its bytes make. */
  lemma VectorOfPrefix(items: seq<Value>, n: nat, q: nat)
    requires AllSized(items, n) && q <= |items|
    ensures Total(q, n) <= |Flat(items)| && VectorOf(Flat(items)[..Total(q, n)], q, n) == Many(items[..q])
  {
    FlatPrefix(items, n, q);
    SplitFlat(items[..q], n);
    var bytes := Flat(items)[..Total(q, n)];
    assert Padded(bytes, Total(q, n)) == bytes;
  }

  /** As many elements as there are bytes for. */
  lemma ClippedArrived(count: nat, n: nat, left: nat)
    requires n > 0 && Total(count, n) < WORD && left <= Total(count, n)
    ensures Whole(left, n) <= count && Clipped(count, n, left) == Clip(Whole(left, n), Total(Whole(left, n), n))
  {
    CoveredFits(count, n);
    var q := Whole(left, n);
    if left < Total(count, n) {
      WholeFits(left, n, count);
    } else {
      if q < count { TotalGrows(q + 1, count, n); }
      if q > count { TotalGrows(count + 1, q, n); }
    }
  }

  lemma VectorClip(src: Input, items: seq<Value>, n: nat, left: nat)
    requires AllSized(items, n) && n > 0 && Total(|items|, n) < WORD
    requires |Flat(items)| == Total(|items|, n) && Behind(src.data, Flat(items), left)
    ensures var q := Whole(left, n);
            && q <= |items|
            && VectorFrom(src, Cursor(2, 0), |items|, n) == Got(Many(items[..q]), Cursor(2 + Total(q, n), 0))
  {
    var q := Whole(left, n);
    ClippedArrived(|items|, n, left);
    VectorOfPrefix(items, n, q);
    Window(src.data, Flat(items), left, 0, Total(q, n));
    ClipGives(src, |items|, n, q, Flat(items)[..Total(q, n)]);
  }

  lemma ClipGives(src: Input, count: nat, n: nat, q: nat, bytes: seq<Byte>)
    requires |bytes| == Total(q, n) && 2 + |bytes| <= |src.data| && src.data[2..2 + |bytes|] == bytes
    requires Clipped(count, n, |src.data| - 2) == Clip(q, |bytes|)
    ensures VectorFrom(src, Cursor(2, 0), count, n) == Got(VectorOf(bytes, q, n), Cursor(2 + |bytes|, 0))
  {
  }

  /** A vector of which only the first bytes arrived is read as the elements that arrived whole. */
  lemma VectorCut(src: Input, items: seq<Value>, n: nat, m: nat, less: Less)
    requires AllSized(items, n) && n > 0 && |items| < 65536 && Total(|items|, n) < WORD
    requires 2 <= m && CutAt(src, Encode(Vec(n), Many(items)), m)
    ensures var q := Arrived(m, n);
            && q <= |items| && 2 + Total(q, n) <= m < 2 + Total(q, n) + n
            && Decode(src, Vec(n), BEGIN, false, less) == Got(Many(items[..q]), Cursor(2 + Total(q, n), 0))
  {
    var wire := Encode(Vec(n), Many(items));
    VectorIsList(items, n);
    ItemsFlat(items, n);
    assert wire == Count(|items|) + Flat(items);
    CountCut(src, wire, m, |items|, false);
    BehindCount(src, Flat(items), |items|, m);
    VectorClip(src, items, n, m - 2);
  }

  // ------------------------------------------------------------------ lists

  /** Items that arrived, and uninitialised ones in place of the others. */
  ghost predicate Salvaged(src: Input, items: seq<Value>, q: nat, n: nat, r: Got<seq<Value>>, k: nat) {
    && |r.value| == k <= |items| && q <= |items|
    && (forall i :: 0 <= i < k && i < q ==> r.value[i] == items[i])
    && (forall i :: q <= i < k ==> r.value[i] == Plain(Leftover(src, Total(i - q, n), n)))
    && r.at == if k <= q then Cursor(2 + Total(k, n), 0) else Cursor(2 + Total(q, n), Total(k - q, n))
  }

  lemma {:induction false} FlatItem(items: seq<Value>, n: nat, k: nat)
    requires AllSized(items, n) && k < |items|
    ensures Total(k + 1, n) <= |Flat(items)| && Flat(items)[Total(k, n)..Total(k + 1, n)] == items[k].bytes
    decreases |items|
  {
    var last := |items| - 1;
    ItemsFlat(items[..last], n);
    ItemsFlat(items, n);
    if k < last { FlatItem(items[..last], n, k); }
  }

  lemma ItemArrives(src: Input, items: seq<Value>, n: nat, left: nat, k: nat)
    requires AllSized(items, n) && k < |items| && Total(k + 1, n) <= left && Behind(src.data, Flat(items), left)
    ensures Take(src, Cursor(2 + Total(k, n), 0), n, false)
         == Got(items[k].bytes, Cursor(2 + Total(k + 1, n), 0))
  {
    FlatItem(items, n, k);
    Window(src.data, Flat(items), left, Total(k, n), Total(k + 1, n));
  }

  /** One more element that has arrived, and one that has not. */
  lemma OneMoreArrived(src: Input, items: seq<Value>, q: nat, n: nat, r: Got<seq<Value>>, k: nat, v: Got<seq<Byte>>)
    requires Salvaged(src, items, q, n, r, k) && k < q && AllSized(items, n)
    requires v == Got(items[k].bytes, Cursor(2 + Total(k + 1, n), 0))
    ensures Salvaged(src, items, q, n, Got(r.value + [Plain(v.value)], v.at), k + 1)
  {
    assert Sized(items[k], n);
  }

  lemma OneMoreMissing(src: Input, items: seq<Value>, q: nat, n: nat, r: Got<seq<Value>>, k: nat, v: Got<seq<Byte>>)
    requires Salvaged(src, items, q, n, r, k) && q <= k < |items|
    requires v == Got(Leftover(src, r.at.shown, n), r.at.(shown := r.at.shown + n))
    ensures Salvaged(src, items, q, n, Got(r.value + [Plain(v.value)], v.at), k + 1)
  {
    assert r.at.shown == Total(k - q, n);
    assert Total(k + 1 - q, n) == Total(k - q, n) + n;
  }

  lemma {:induction false} ItemsSalvaged(src: Input, items: seq<Value>, n: nat, left: nat, k: nat, less: Less)
    requires AllSized(items, n) && n > 0 && k <= |items|
    requires Behind(src.data, Flat(items), left) && Whole(left, n) <= |items|
    ensures Salvaged(src, items, Whole(left, n), n, DecodeItems(src, Fixed(n), k, Cursor(2, 0), less), k)
    decreases k
  {
    var q := Whole(left, n);
    if k == 0 {
    } else {
      ItemsSalvaged(src, items, n, left, k - 1, less);
      var r := DecodeItems(src, Fixed(n), k - 1, Cursor(2, 0), less);
      if k <= q {
        TotalGrows(k, q, n);
        ItemArrives(src, items, n, left, k - 1);
        OneMoreArrived(src, items, q, n, r, k - 1, Take(src, r.at, n, false));
      } else {
        OneMoreMissing(src, items, q, n, r, k - 1, Take(src, r.at, n, false));
      }
    }
  }

  /**
    A list of which only the first bytes arrived is read with all its elements: those that arrived whole, and in place
    of the others whatever the memory held.
   */
  lemma ListCut(src: Input, items: seq<Value>, n: nat, m: nat, less: Less)
    requires AllSized(items, n) && n > 0 && |items| < 65536
    requires 2 <= m && CutAt(src, Encode(ListOf(Fixed(n)), Many(items)), m)
    ensures var r := Decode(src, ListOf(Fixed(n)), BEGIN, false, less);
            && r.value.Many? && Arrived(m, n) <= |items|
            && Salvaged(src, items, Arrived(m, n), n, Got(r.value.items, r.at), |items|)
  {
    var wire := Encode(ListOf(Fixed(n)), Many(items));
    ItemsFlat(items, n);
    assert wire == Count(|items|) + Flat(items);
    CountCut(src, wire, m, |items|, true);
    BehindCount(src, Flat(items), |items|, m);
    NotMore(|items|, n, m - 2);
    ItemsSalvaged(src, items, n, m - 2, |items|, less);
  }

  lemma NotMore(count: nat, n: nat, left: nat)
    requires n > 0 && left <= Total(count, n)
    ensures Whole(left, n) <= count
  {
    if Whole(left, n) > count { TotalGrows(count + 1, Whole(left, n), n); }
  }

  // ------------------------------------------------------------------ repeated elements

  /** Of equivalent elements the first stays: an insertion loses nothing, and adds the new one unless one is there. */
  lemma {:induction false} FirstStays<T>(items: seq<T>, v: T, less: (T, T) -> bool)
    ensures var r := Insert(items, v, less);
            && (forall x :: x in items ==> x in r)
            && (v in r || exists x :: x in items && !less(x, v) && !less(v, x))
            && (forall x :: x in r ==> x in items || x == v)
            && |r| <= |items| + 1
  {
    if items == [] {
    } else if less(items[0], v) {
      FirstStays(items[1..], v, less);
      assert items == [items[0]] + items[1..];
    } else if !less(v, items[0]) {
      assert items[0] in items;
    }
  }
}
