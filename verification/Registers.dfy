/**
  Checksum registers over an arbitrary word: symbols, bytes or bits, are added into the
  register and followed by a round of steps. Where the round is linear and can be undone, a short window of the
  message acts as one added word, so that no two windows give the same register.
 */
module Registers {
  import opened Folding

  datatype Register<!W, !S> = Register(
    zero: W,
    plus: (W, W) -> W,
    round: W -> W,             // the steps that follow each symbol
    embed: S -> W,          // where the symbol is added
    ahead: W -> W,             // a word moved one symbol away from the end that is shifted out
    room: (W, nat) -> bool,    // words taken up by at most that many symbols
    window: nat)               // how many symbols the register holds

  /** Adding a symbol and doing a round. */
  function Absorb<W, S>(r: Register<W, S>, c: W, b: S): W {
    r.round(r.plus(c, r.embed(b)))
  }

  function Feed<W, S>(r: Register<W, S>, c: W, data: seq<S>): W
    decreases |data|
  {
    if data == [] then c else Feed(r, Absorb(r, c, data[0]), data[1..])
  }

  /** Addition in which every word is its own inverse. */
  ghost predicate Xorlike<W(!new)>(zero: W, plus: (W, W) -> W) {
    && Associative(plus)
    && (forall a {:trigger plus(a, zero)} :: plus(a, zero) == a)
    && SelfInverse(plus)
  }

  /** Words of less than a window can be moved ahead without loss, and a round moves them back. */
  ghost predicate Roomy<W(!new), S(!new)>(r: Register<W, S>) {
    && r.room(r.zero, 0)
    && (forall x, n: nat {:trigger r.room(x, n)} :: n < r.window && r.room(x, n) ==> r.round(r.ahead(x)) == x)
    && (forall x, n: nat, b {:trigger r.plus(r.embed(b), r.ahead(x)), r.room(x, n)} ::
          n < r.window && r.room(x, n) ==> r.room(r.plus(r.embed(b), r.ahead(x)), n + 1))
  }

  /** A symbol and the word behind it can be told apart. */
  ghost predicate Separate<W(!new), S(!new)>(r: Register<W, S>) {
    forall x, y, n: nat, a, b
      {:trigger r.plus(r.embed(a), r.ahead(x)), r.plus(r.embed(b), r.ahead(y)), r.room(x, n), r.room(y, n)} ::
      n < r.window && r.room(x, n) && r.room(y, n) && r.plus(r.embed(a), r.ahead(x)) == r.plus(r.embed(b), r.ahead(y))
      ==> a == b && x == y
  }

  ghost predicate Lawful<W(!new), S(!new)>(r: Register<W, S>) {
    && Xorlike(r.zero, r.plus)
    && Additive(r.round, r.plus, r.plus)
    && Injective(r.round)
    && Roomy(r)
    && Separate(r)
  }

  /** Feeding a message is feeding its parts. */
  lemma {:induction false} FeedConcat<W, S>(r: Register<W, S>, c: W, a: seq<S>, b: seq<S>)
    ensures Feed(r, c, a + b) == Feed(r, Feed(r, c, a), b)
    decreases |a|
  {
    if a == [] {
      assert a + b == b;
    } else {
      assert (a + b)[1..] == a[1..] + b;
      FeedConcat(r, Absorb(r, c, a[0]), a[1..], b);
    }
  }

  lemma AbsorbInjective<W(!new), S(!new)>(r: Register<W, S>, c: W, d: W, b: S)
    requires Injective(r.round) && Xorlike(r.zero, r.plus) && Absorb(r, c, b) == Absorb(r, d, b)
    ensures c == d
  {
    PlusCancels(r.plus, c, d, r.embed(b));
  }

  lemma {:induction false} FeedInjective<W(!new), S(!new)>(r: Register<W, S>, c: W, d: W, data: seq<S>)
    requires Lawful(r) && Feed(r, c, data) == Feed(r, d, data)
    ensures c == d
    decreases |data|
  {
    if data == [] {
    } else {
      FeedInjective(r, Absorb(r, c, data[0]), Absorb(r, d, data[0]), data[1..]);
      AbsorbInjective(r, c, d, data[0]);
    }
  }

  /** The symbols of a window as one word, the first nearest the end that is shifted out. */
  function Word<W, S>(r: Register<W, S>, w: seq<S>): W {
    if w == [] then r.zero else r.plus(r.embed(w[0]), r.ahead(Word(r, w[1..])))
  }

  lemma RoomAhead<W(!new), S(!new)>(r: Register<W, S>, b: S, x: W, n: nat)
    requires Roomy(r) && n < r.window && r.room(x, n)
    ensures r.room(r.plus(r.embed(b), r.ahead(x)), n + 1)
  {
  }

  lemma {:induction false} WordRoom<W(!new), S(!new)>(r: Register<W, S>, w: seq<S>)
    requires Lawful(r) && |w| <= r.window
    ensures r.room(Word(r, w), |w|)
  {
    if w == [] {
    } else {
      WordRoom(r, w[1..]);
      RoomAhead(r, w[0], Word(r, w[1..]), |w| - 1);
    }
  }

  /** A later symbol can be added before the round, one place ahead. */
  lemma AddAhead<W(!new), S(!new)>(r: Register<W, S>, c: W, b: S, rest: W, n: nat)
    requires Lawful(r) && n < r.window && r.room(rest, n)
    ensures r.plus(Absorb(r, c, b), rest) == r.round(r.plus(c, r.plus(r.embed(b), r.ahead(rest))))
  {
    assert r.round(r.plus(r.plus(c, r.embed(b)), r.ahead(rest)))
        == r.plus(r.round(r.plus(c, r.embed(b))), r.round(r.ahead(rest)));
  }

  /** Feeding a window is adding one word and doing the rounds. */
  lemma {:induction false} FeedWindow<W(!new), S(!new)>(r: Register<W, S>, c: W, w: seq<S>)
    requires Lawful(r) && |w| <= r.window
    ensures Feed(r, c, w) == Iterate(r.round, |w|, r.plus(c, Word(r, w)))
    decreases |w|
  {
    if w == [] {
    } else {
      var rest := Word(r, w[1..]);
      WordRoom(r, w[1..]);
      AddAhead(r, c, w[0], rest, |w| - 1);
      FeedWindow(r, Absorb(r, c, w[0]), w[1..]);
      IterateShift(r.round, |w| - 1, r.plus(c, Word(r, w)));
    }
  }

  lemma SeparateAt<W(!new), S(!new)>(r: Register<W, S>, a: S, x: W, b: S, y: W, n: nat)
    requires Separate(r) && n < r.window && r.room(x, n) && r.room(y, n)
    requires r.plus(r.embed(a), r.ahead(x)) == r.plus(r.embed(b), r.ahead(y))
    ensures a == b && x == y
  {
  }

  lemma {:induction false} WordInjective<W(!new), S(!new)>(r: Register<W, S>, v: seq<S>, w: seq<S>)
    requires Lawful(r) && |v| == |w| <= r.window && Word(r, v) == Word(r, w)
    ensures v == w
    decreases |v|
  {
    if v == [] {
    } else {
      WordRoom(r, v[1..]);
      WordRoom(r, w[1..]);
      SeparateAt(r, v[0], Word(r, v[1..]), w[0], Word(r, w[1..]), |v| - 1);
      WordInjective(r, v[1..], w[1..]);
      assert v == [v[0]] + v[1..] && w == [w[0]] + w[1..];
    }
  }

  lemma WindowInjective<W(!new), S(!new)>(r: Register<W, S>, c: W, v: seq<S>, w: seq<S>)
    requires Lawful(r) && |v| == |w| <= r.window && Feed(r, c, v) == Feed(r, c, w)
    ensures v == w
  {
    FeedWindow(r, c, v);
    FeedWindow(r, c, w);
    IterateInjective(r.round, |v|, r.plus(c, Word(r, v)), r.plus(c, Word(r, w)));
    PlusCancels(r.plus, Word(r, v), Word(r, w), c);
    WordInjective(r, v, w);
  }

  /** Messages that differ only inside one window leave different registers. */
  lemma BurstsShow<W(!new), S(!new)>(r: Register<W, S>, c: W, before: seq<S>, v: seq<S>, w: seq<S>, after: seq<S>)
    requires Lawful(r) && |v| == |w| <= r.window && v != w
    ensures Feed(r, c, before + v + after) != Feed(r, c, before + w + after)
  {
    if Feed(r, c, before + v + after) == Feed(r, c, before + w + after) {
      var d := Feed(r, c, before);
      FeedConcat(r, c, before + v, after);
      FeedConcat(r, c, before, v);
      FeedConcat(r, c, before + w, after);
      FeedConcat(r, c, before, w);
      FeedInjective(r, Feed(r, d, v), Feed(r, d, w), after);
      WindowInjective(r, d, v, w);
    }
  }

  /** A table lookup can stand for the round: the symbol that leaves is looked up, the rest only moves. */
  lemma TableStep<W(!new), S(!new)>(r: Register<W, S>, c: W, b: S, index: S, rest: W, entry: W, moved: W)
    requires Additive(r.round, r.plus, r.plus)
    requires r.plus(c, r.embed(b)) == r.plus(r.embed(index), rest)
    requires entry == r.round(r.embed(index)) && moved == r.round(rest)
    ensures r.plus(entry, moved) == Absorb(r, c, b)
  {
  }

  /** The round of a sum of symbols. */
  lemma RoundAdditive<W(!new), S(!new)>(r: Register<W, S>, xor: (S, S) -> S, a: S, b: S)
    requires Additive(r.round, r.plus, r.plus) && Additive(r.embed, xor, r.plus)
    ensures r.round(r.embed(xor(a, b))) == r.plus(r.round(r.embed(a)), r.round(r.embed(b)))
  {
  }
}
