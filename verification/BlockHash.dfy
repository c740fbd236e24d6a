/**
  Block hashes over an arbitrary word: blocks of four bytes are mixed and combined into a
  running word, a tail of up to three bytes is added, and the result is mixed once more.
  Where every mixing step can be undone, a change confined to one block or to the tail shows.
 */
module BlockHash {
  import opened Folding

  datatype Mixer<!W> = Mixer(
    start: nat -> W,                          // from the length of the key
    times: W -> W, timesBack: W -> W,
    mix: W -> W, mixBack: W -> W,             // of one block
    finish: W -> W, finishBack: W -> W,
    plus: (W, W) -> W,
    load: (Byte, Byte, Byte, Byte) -> W, store: W -> (Byte, Byte, Byte, Byte),
    place: (nat, Byte) -> W)                  // a byte of the tail at its position

  /** g undoes f, and f undoes g. */
  ghost predicate Inverse<S(!new), T(!new)>(f: S -> T, g: T -> S) {
    && (forall x {:trigger f(x)} :: g(f(x)) == x)
    && (forall x {:trigger g(x)} :: f(g(x)) == x)
  }

  lemma ComposeInverse<T(!new)>(f: T -> T, f': T -> T, g: T -> T, g': T -> T, h: T -> T, h': T -> T, x: T)
    requires Inverse(f, f') && Inverse(g, g') && Inverse(h, h')
    ensures h'(g'(f'(f(g(h(x)))))) == x && f(g(h(h'(g'(f'(x)))))) == x
  {
  }

  function Combine<W>(m: Mixer<W>, h: W, k: W): W {
    m.plus(m.times(h), m.mix(k))
  }

  function LoadAt<W>(m: Mixer<W>, data: seq<Byte>): W
    requires |data| >= 4
  {
    m.load(data[0], data[1], data[2], data[3])
  }

  /** All whole blocks, four bytes at a time. */
  function Blocks<W>(m: Mixer<W>, h: W, data: seq<Byte>): W
    decreases |data|
  {
    if |data| < 4 then h else Blocks(m, Combine(m, h, LoadAt(m, data)), data[4..])
  }

  /** What is left after the whole blocks. */
  function Rest(data: seq<Byte>): (t: seq<Byte>)
    ensures |t| < 4
    decreases |data|
  {
    if |data| < 4 then data else Rest(data[4..])
  }

  /** The bytes of a tail as one word. */
  function TailWord<W>(m: Mixer<W>, t: seq<Byte>): W
    requires 0 < |t| < 4
  {
    if |t| == 1 then m.place(0, t[0])
    else if |t| == 2 then m.plus(m.place(1, t[1]), m.place(0, t[0]))
    else m.plus(m.plus(m.place(2, t[2]), m.place(1, t[1])), m.place(0, t[0]))
  }

  function Tail<W>(m: Mixer<W>, h: W, t: seq<Byte>): W
    requires |t| < 4
  {
    if t == [] then h else m.times(m.plus(h, TailWord(m, t)))
  }

  function Hash<W>(m: Mixer<W>, key: seq<Byte>): W {
    m.finish(Tail(m, Blocks(m, m.start(|key|), key), Rest(key)))
  }

  // ------------------------------------------------------------------ what the operations obey

  /** Tails of one length are told apart by their words. */
  ghost predicate Places<W(!new)>(m: Mixer<W>) {
    forall v, w {:trigger TailWord(m, v), TailWord(m, w)} ::
      0 < |v| == |w| < 4 && TailWord(m, v) == TailWord(m, w) ==> v == w
  }

  ghost predicate Undoable<W(!new)>(m: Mixer<W>) {
    && Inverse(m.times, m.timesBack)
    && Inverse(m.mix, m.mixBack)
    && Inverse(m.finish, m.finishBack)
    && SelfInverse(m.plus)
    && Places(m)
    && (forall x {:trigger m.store(x)} :: var (a, b, c, d) := m.store(x); m.load(a, b, c, d) == x)
    && (forall a, b, c, d {:trigger m.load(a, b, c, d)} :: m.store(m.load(a, b, c, d)) == (a, b, c, d))
  }

  // ------------------------------------------------------------------ the loop

  /** The switch over the tail: each case falls through to the next. */
  method MixTail<W(!new)>(m: Mixer<W>, h0: W, t: seq<Byte>) returns (h: W)
    requires |t| < 4 && Associative(m.plus)
    ensures h == Tail(m, h0, t)
  {
    h := h0;
    if |t| == 3 { h := m.plus(h, m.place(2, t[2])); }
    if |t| >= 2 { h := m.plus(h, m.place(1, t[1])); }
    if |t| >= 1 {
      h := m.plus(h, m.place(0, t[0]));
      h := m.times(h);
    }
  }

  /** The whole hash, block by block. */
  method HashWith<W(!new)>(m: Mixer<W>, key: seq<Byte>) returns (h: W)
    requires Associative(m.plus)
    ensures h == Hash(m, key)
  {
    h := m.start(|key|);
    var data := key;
    while |data| >= 4
      invariant Blocks(m, h, data) == Blocks(m, m.start(|key|), key) && Rest(data) == Rest(key)
    {
      var k := m.load(data[0], data[1], data[2], data[3]);
      k := m.mix(k);
      h := m.times(h);
      h := m.plus(h, k);
      data := data[4..];
    }
    h := MixTail(m, h, data);
    h := m.finish(h);
  }

  // ------------------------------------------------------------------ no collisions

  lemma {:induction false} BlocksConcat<W>(m: Mixer<W>, h: W, a: seq<Byte>, b: seq<Byte>)
    requires |a| % 4 == 0
    ensures Blocks(m, h, a + b) == Blocks(m, Blocks(m, h, a), b) && Rest(a + b) == Rest(b)
    decreases |a|
  {
    if a == [] {
      assert a + b == b;
    } else {
      assert (a + b)[4..] == a[4..] + b;
      BlocksConcat(m, Combine(m, h, LoadAt(m, a)), a[4..], b);
    }
  }

  lemma InverseInjective<S(!new), T(!new)>(f: S -> T, g: T -> S, a: S, b: S)
    requires Inverse(f, g) && f(a) == f(b)
    ensures a == b
  {
  }

  lemma CombineInjective<W(!new)>(m: Mixer<W>, h: W, j: W, k: W, l: W)
    requires Undoable(m)
    ensures Combine(m, h, k) == Combine(m, j, k) ==> h == j
    ensures Combine(m, h, k) == Combine(m, h, l) ==> k == l
  {
    PlusCancels(m.plus, m.times(h), m.times(j), m.mix(k));
    PlusCancels(m.plus, m.mix(k), m.mix(l), m.times(h));
  }

  lemma {:induction false} BlocksInjective<W(!new)>(m: Mixer<W>, h: W, j: W, data: seq<Byte>)
    requires Undoable(m) && Blocks(m, h, data) == Blocks(m, j, data)
    ensures h == j
    decreases |data|
  {
    if |data| < 4 {
    } else {
      var k := LoadAt(m, data);
      BlocksInjective(m, Combine(m, h, k), Combine(m, j, k), data[4..]);
      CombineInjective(m, h, j, k, k);
    }
  }

  lemma TailInjective<W(!new)>(m: Mixer<W>, h: W, j: W, t: seq<Byte>)
    requires Undoable(m) && |t| < 4 && Tail(m, h, t) == Tail(m, j, t)
    ensures h == j
  {
    if t != [] { PlusCancels(m.plus, h, j, TailWord(m, t)); }
  }

  lemma TailDiffers<W(!new)>(m: Mixer<W>, h: W, v: seq<Byte>, w: seq<Byte>)
    requires Undoable(m) && 0 < |v| == |w| < 4 && Tail(m, h, v) == Tail(m, h, w)
    ensures v == w
  {
    PlusCancels(m.plus, TailWord(m, v), TailWord(m, w), h);
  }

  lemma LoadsApart<W(!new)>(m: Mixer<W>, a: Byte, b: Byte, c: Byte, d: Byte, e: Byte, f: Byte, g: Byte, h: Byte)
    requires Undoable(m) && m.load(a, b, c, d) == m.load(e, f, g, h)
    ensures a == e && b == f && c == g && d == h
  {
    assert m.store(m.load(a, b, c, d)) == (a, b, c, d);
    assert m.store(m.load(e, f, g, h)) == (e, f, g, h);
  }

  lemma LoadInjective<W(!new)>(m: Mixer<W>, v: seq<Byte>, w: seq<Byte>)
    requires Undoable(m) && |v| == |w| == 4 && LoadAt(m, v) == LoadAt(m, w)
    ensures v == w
  {
    LoadsApart(m, v[0], v[1], v[2], v[3], w[0], w[1], w[2], w[3]);
  }

  lemma OneBlock<W>(m: Mixer<W>, h: W, v: seq<Byte>)
    requires |v| == 4
    ensures Blocks(m, h, v) == Combine(m, h, LoadAt(m, v)) && Rest(v) == []
  {
    assert v[4..] == [];
  }

  lemma AroundBlock<W>(m: Mixer<W>, h: W, before: seq<Byte>, v: seq<Byte>, after: seq<Byte>)
    requires |before| % 4 == 0 && |v| == 4
    ensures Blocks(m, h, before + v + after) == Blocks(m, Combine(m, Blocks(m, h, before), LoadAt(m, v)), after)
    ensures Rest(before + v + after) == Rest(after)
  {
    BlocksConcat(m, h, before + v, after);
    BlocksConcat(m, h, before, v);
    OneBlock(m, Blocks(m, h, before), v);
  }

  lemma SameEnd<W(!new)>(m: Mixer<W>, x: W, y: W, after: seq<Byte>)
    requires Undoable(m)
    requires m.finish(Tail(m, Blocks(m, x, after), Rest(after))) == m.finish(Tail(m, Blocks(m, y, after), Rest(after)))
    ensures x == y
  {
    TailInjective(m, Blocks(m, x, after), Blocks(m, y, after), Rest(after));
    BlocksInjective(m, x, y, after);
  }

  /** Keys that differ only in one aligned block have different hashes. */
  lemma BlockChange<W(!new)>(m: Mixer<W>, before: seq<Byte>, v: seq<Byte>, w: seq<Byte>, after: seq<Byte>)
    requires Undoable(m) && |before| % 4 == 0 && |v| == |w| == 4 && v != w
    ensures Hash(m, before + v + after) != Hash(m, before + w + after)
  {
    if Hash(m, before + v + after) == Hash(m, before + w + after) {
      var start := m.start(|before + v + after|);
      var h := Blocks(m, start, before);
      AroundBlock(m, start, before, v, after);
      AroundBlock(m, start, before, w, after);
      SameEnd(m, Combine(m, h, LoadAt(m, v)), Combine(m, h, LoadAt(m, w)), after);
      CombineInjective(m, h, h, LoadAt(m, v), LoadAt(m, w));
      LoadInjective(m, v, w);
    }
  }

  /** Keys that differ only in the tail have different hashes. */
  lemma TailChange<W(!new)>(m: Mixer<W>, before: seq<Byte>, v: seq<Byte>, w: seq<Byte>)
    requires Undoable(m) && |before| % 4 == 0 && 0 < |v| == |w| < 4 && v != w
    ensures Hash(m, before + v) != Hash(m, before + w)
  {
    if Hash(m, before + v) == Hash(m, before + w) {
      var start := m.start(|before + v|);
      var h := Blocks(m, start, before);
      BlocksConcat(m, start, before, v);
      BlocksConcat(m, start, before, w);
      InverseInjective(m.finish, m.finishBack, Tail(m, h, v), Tail(m, h, w));
      TailDiffers(m, h, v, w);
    }
  }

  /** The four-byte key with a given hash. */
  function Unhash<W>(m: Mixer<W>, r: W): (key: seq<Byte>)
    ensures |key| == 4
  {
    var (a, b, c, d) := m.store(m.mixBack(m.plus(m.times(m.start(4)), m.finishBack(r))));
    [a, b, c, d]
  }

  /** On four-byte keys every word is the hash of exactly one key. */
  lemma FourBytes<W(!new)>(m: Mixer<W>, r: W, key: seq<Byte>)
    requires Undoable(m) && |key| == 4
    ensures Hash(m, key) == r <==> key == Unhash(m, r)
  {
    var found := Unhash(m, r);
    var t := m.times(m.start(4));
    OneBlock(m, m.start(4), found);
    OneBlock(m, m.start(4), key);
    assert m.plus(t, m.plus(t, m.finishBack(r))) == m.finishBack(r);
    assert Hash(m, found) == r;
    if Hash(m, key) == r && key != found {
      assert [] + key + [] == key && [] + found + [] == found;
      BlockChange(m, [], key, found, []);
    }
  }
}
