/** Writing one string over part of another. */
module Splices {

  /** s written over b at position at. */
  ghost function Overwritten(b: string, at: nat, s: string): (r: string)
    requires at + |s| <= |b|
    ensures |r| == |b|
  {
    seq(|b|, i requires 0 <= i < |b| => if at <= i < at + |s| then s[i - at] else b[i])
  }

  lemma Parts(b: string, at: nat, s: string, r: string)
    requires at + |s| <= |b| && r == Overwritten(b, at, s)
    ensures r[at..at + |s|] == s
    ensures forall lo, hi :: 0 <= lo <= hi <= at ==> r[lo..hi] == b[lo..hi]
    ensures forall lo, hi :: at + |s| <= lo <= hi <= |b| ==> r[lo..hi] == b[lo..hi]
  {
  }

  lemma Glued(b: string, i: nat, j: nat, k: nat)
    requires i <= j <= k <= |b|
    ensures b[i..j] + b[j..k] == b[i..k]
  {
  }

  /** One more character in front of those already written. */
  lemma OneMore(b: string, p: nat, c: char, done: string)
    requires p + 1 + |done| <= |b|
    ensures Overwritten(b, p + 1, done)[p := c] == Overwritten(b, p, [c] + done)
  {
  }

  lemma Reassociate(a: string, b: string, c: string, d: string)
    ensures (a + b) + (c + d) == a + (b + c + d)
  {
  }
}
