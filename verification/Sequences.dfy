/** Facts about sequences that every module needs. */
module Sequences {

  lemma Append<T>(a: seq<T>, b: seq<T>, c: seq<T>)
    ensures a + b + c == a + (b + c)
  {
  }

  /** What came is what went and what waits; then x comes and y goes. */
  lemma PassedOn<T>(came: seq<T>, went: seq<T>, wait: seq<T>, x: seq<T>, y: seq<T>, wait': seq<T>)
    requires came == went + wait && wait + x == y + wait'
    ensures came + x == (went + y) + wait'
  {
    assert (went + wait) + x == went + (wait + x);
    assert (went + y) + wait' == went + (y + wait');
  }

  lemma Nothing<T>(s: seq<T>)
    ensures s + [] == s == [] + s
  {
  }
}
