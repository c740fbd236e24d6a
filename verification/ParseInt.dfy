/** Reading decimal numbers in format strings: parse_nonnegative_int of format.h. */
module ParseInt {
  import opened Wrappers
  import opened Numerals
  import opened Modular
  import opened Words
  import opened FormatInt

  /** INT_MAX; unsigned is one word. */
  const MAX_INT: nat := 0x7fff_ffff

  predicate IsDigit(c: char) {
    '0' <= c <= '9'
  }

  /** The end of the run of digits from position i on. */
  function RunEnd(s: string, i: nat): (j: nat)
    requires i <= |s|
    ensures i <= j <= |s|
    ensures forall k :: i <= k < j ==> IsDigit(s[k])
    ensures j < |s| ==> !IsDigit(s[j])
    decreases |s| - i
  {
    if i < |s| && IsDigit(s[i]) then RunEnd(s, i + 1) else i
  }

  lemma {:induction false} RunEndUnique(s: string, i: nat, j: nat)
    requires i <= j <= |s| && (forall k :: i <= k < j ==> IsDigit(s[k])) && (j < |s| ==> !IsDigit(s[j]))
    ensures RunEnd(s, i) == j
    decreases |s| - i
  {
    if i >= j {
    } else {
      RunEndUnique(s, i + 1, j);
    }
  }

  /** What is left of the number in a machine word. */
  function Residue(digits: string): nat {
    Value(10, digits) % WORD
  }

  /** The wrap test passes at every digit: no residue is below the one before. */
  predicate NeverFalls(digits: string) {
    digits == "" || (NeverFalls(digits[..|digits| - 1]) && Residue(digits[..|digits| - 1]) <= Residue(digits))
  }

  lemma TimesTen(v: nat, d: nat)
    ensures (v % WORD * 10 + d) % WORD == (v * 10 + d) % WORD
  {
    var q, r := v / WORD, v % WORD;
    var x := r * 10 + d;
    assert v * 10 + d == (q * 10 + x / WORD) * WORD + x % WORD;
    Remainder(q * 10 + x / WORD, x % WORD, WORD);
  }

  lemma NextResidue(s: string, start: nat, i: nat)
    requires start <= i < |s| && IsDigit(s[i])
    ensures Residue(s[start..i + 1]) == (Residue(s[start..i]) * 10 + (s[i] as int - '0' as int)) % WORD
    ensures NeverFalls(s[start..i + 1]) <==> NeverFalls(s[start..i]) && Residue(s[start..i]) <= Residue(s[start..i + 1])
  {
    var t := s[start..i + 1];
    assert t[..|t| - 1] == s[start..i] && t[|t| - 1] == s[i];
    TimesTen(Value(10, s[start..i]), DigitValue(s[i]));
  }

  /** A run whose residue falls somewhere keeps having fallen. */
  lemma {:induction false} FallsOnce(s: string, start: nat, i: nat, j: nat)
    requires start <= i <= j <= |s| && !NeverFalls(s[start..i])
    ensures !NeverFalls(s[start..j])
    decreases j
  {
    if i >= j {
    } else {
      FallsOnce(s, start, i, j - 1);
      var t := s[start..j];
      assert t[..|t| - 1] == s[start..j - 1];
    }
  }

  /** What the parser returns for a run of digits. */
  function Parsed(digits: string): Result<nat, FormatError> {
    if NeverFalls(digits) && Residue(digits) <= MAX_INT then Ok(Residue(digits)) else Err(NumberTooBig)
  }

  /** parse_nonnegative_int, from position start; on success end is where the digits end. */
  method ParseNonnegativeInt(s: string, start: nat) returns (r: Result<nat, FormatError>, end: nat)
    requires start < |s| && IsDigit(s[start])
    ensures r == Parsed(s[start..RunEnd(s, start)])
    ensures r.Ok? ==> end == RunEnd(s, start)
  {
    var value := 0;
    var i := start;
    ghost var stop := RunEnd(s, start);
    while i == start || (i < |s| && IsDigit(s[i]))
      invariant start <= i <= stop
      invariant NeverFalls(s[start..i]) && value == Residue(s[start..i])
      decreases |s| - i
    {
      NextResidue(s, start, i);
      var newValue := (value * 10 + (s[i] as int - '0' as int)) % WORD;
      i := i + 1;
      if newValue < value {
        FallsOnce(s, start, i, stop);
        return Err(NumberTooBig), i;
      }
      value := newValue;
    }
    RunEndUnique(s, start, i);
    end := i;
    if value > MAX_INT { return Err(NumberTooBig), i; }
    r := Ok(value);
  }

  // ------------------------------------------------------------------ exactness

  /** The number itself, or its refusal when it is above INT_MAX. */
  predicate Exact(digits: string) {
    var v := Value(10, digits);
    Parsed(digits) == if v <= MAX_INT then Ok(v) else Err(NumberTooBig)
  }

  lemma ValueGrows(digits: string)
    requires digits != ""
    ensures Value(10, digits[..|digits| - 1]) <= Value(10, digits)
  {
  }

  lemma BelowWord(v: nat)
    requires v < WORD
    ensures v % WORD == v
  {
  }

  lemma {:induction false} SmallNeverFalls(digits: string)
    requires Value(10, digits) < WORD
    ensures NeverFalls(digits) && Residue(digits) == Value(10, digits)
  {
    if digits == "" {
    } else {
      ValueGrows(digits);
      SmallNeverFalls(digits[..|digits| - 1]);
      BelowWord(Value(10, digits));
    }
  }

  /** Parsing is exact unless a number beyond the word passes every wrap test and lands below INT_MAX. */
  lemma ExactIff(digits: string)
    ensures Exact(digits) <==> Value(10, digits) < WORD || !NeverFalls(digits) || Residue(digits) > MAX_INT
  {
    if Value(10, digits) < WORD { SmallNeverFalls(digits); }
  }

  // ------------------------------------------------------------------ exactness of numbers

  predicate AllDigits(s: string) {
    forall i :: 0 <= i < |s| ==> IsDigit(s[i])
  }

  /** Appending digit d to a word r passes the wrap test. */
  predicate Passes(r: nat, d: nat) {
    9 * r + d >= (10 * r + d) / WORD * WORD
  }

  lemma PassesIsNoFall(r: nat, d: nat)
    requires r < WORD
    ensures Passes(r, d) <==> r <= (r * 10 + d) % WORD
  {
    var x := 10 * r + d;
    assert x == x / WORD * WORD + x % WORD;
  }

  /** Every decimal prefix of v passes the wrap test. */
  predicate Unseen(v: nat) {
    v == 0 || (Unseen(v / 10) && Passes(v / 10 % WORD, v % 10))
  }

  /** The numbers that the parser takes for others. */
  predicate Misread(v: nat) {
    v >= WORD && v % WORD <= MAX_INT && Unseen(v)
  }

  lemma LastDigit(a: nat, d: nat)
    requires d < 10
    ensures (a * 10 + d) / 10 == a && (a * 10 + d) % 10 == d
  {
  }

  lemma {:induction false} NeverFallsIff(digits: string)
    requires AllDigits(digits)
    ensures NeverFalls(digits) <==> Unseen(Value(10, digits))
  {
    if digits == "" {
    } else {
      var n := |digits| - 1;
      var a, d := Value(10, digits[..n]), DigitValue(digits[n]);
      NeverFallsIff(digits[..n]);
      LastDigit(a, d);
      TimesTen(a, d);
      PassesIsNoFall(a % WORD, d);
    }
  }

  /** Parsing a run of digits is exact if and only if its number is not one of those. */
  lemma ExactUnlessMisread(digits: string)
    requires AllDigits(digits)
    ensures Exact(digits) <==> !Misread(Value(10, digits))
  {
    ExactIff(digits);
    NeverFallsIff(digits);
  }

  lemma {:induction false} WordsUnseen(v: nat)
    requires v < WORD
    ensures Unseen(v)
  {
    if v == 0 {
    } else {
      WordsUnseen(v / 10);
      assert v / 10 % WORD == v / 10 && 10 * (v / 10) + v % 10 == v;
    }
  }

  /** With one digit beyond the word, only the last step can wrap. */
  lemma OneWrap(v: nat, q: nat)
    requires WORD <= v < 10_000_000_000 && q == v / WORD
    ensures Misread(v) <==> v % WORD <= MAX_INT && 9 * (v / 10) + v % 10 >= q * WORD
  {
    var a, d := v / 10, v % 10;
    WordsUnseen(a);
    assert 10 * a + d == v && a % WORD == a;
    assert Unseen(v) <==> Passes(a, d);
  }

  lemma WrapsOnce(v: nat)
    requires WORD <= v < 2 * WORD
    ensures v / WORD == 1 && v % WORD == v - WORD
    ensures v % WORD <= MAX_INT && 9 * (v / 10) + v % 10 >= WORD <==> 4_772_185_884 <= v <= 6_442_450_943
  {
  }

  lemma WrapsTwice(v: nat)
    requires 2 * WORD <= v < 10_000_000_000
    ensures v / WORD == 2 && v % WORD == v - 2 * WORD
    ensures v % WORD <= MAX_INT && 9 * (v / 10) + v % 10 >= 2 * WORD <==> 9_544_371_768 <= v
  {
  }

  /** Up to ten digits, the numbers misread are those of two intervals. */
  lemma TenDigitsMisread(v: nat)
    requires v < 10_000_000_000
    ensures Misread(v) <==> 4_772_185_884 <= v <= 6_442_450_943 || 9_544_371_768 <= v
  {
    if v < WORD {
    } else if v < 2 * WORD {
      WrapsOnce(v);
      OneWrap(v, 1);
    } else {
      WrapsTwice(v);
      OneWrap(v, 2);
    }
  }

  /** v without its last j digits. */
  function Prefix(v: nat, j: nat): nat {
    if j == 0 then v else Prefix(v / 10, j - 1)
  }

  lemma {:induction false} PrefixUnseen(v: nat, j: nat)
    requires Unseen(v)
    ensures Unseen(Prefix(v, j))
    decreases j
  {
    if j == 0 {
    } else {
      assert Unseen(v / 10);
      PrefixUnseen(v / 10, j - 1);
    }
  }

  lemma {:induction false} PrefixOfPrefix(v: nat, j: nat)
    ensures Prefix(v, j + 1) == Prefix(v, j) / 10
    decreases j
  {
    if j == 0 {
      assert Prefix(v, 1) == Prefix(v / 10, 0);
    } else {
      PrefixOfPrefix(v / 10, j - 1);
    }
  }

  lemma PassesBound(p: nat, a: nat, d: nat)
    requires a < WORD && p == 10 * a + d && Passes(a % WORD, d)
    ensures 9 * a + d >= p / WORD * WORD
  {
    assert a % WORD == a;
  }

  lemma LastPasses(v: nat)
    requires Unseen(v) && v > 0
    ensures Passes(v / 10 % WORD, v % 10)
  {
  }

  lemma UnseenPasses(p: nat)
    requires Unseen(p) && p > 0 && p / 10 < WORD
    ensures 9 * (p / 10) + p % 10 >= p / WORD * WORD
  {
    LastPasses(p);
    PassesBound(p, p / 10, p % 10);
  }

  /** However long the number: if the first prefix beyond the word fails the test, the number is refused. */
  lemma FirstWrapSeen(v: nat, j: nat)
    requires Prefix(v, j + 1) < WORD <= Prefix(v, j)
    requires 9 * Prefix(v, j + 1) + Prefix(v, j) % 10 < Prefix(v, j) / WORD * WORD
    ensures !Misread(v)
  {
    PrefixOfPrefix(v, j);
    if Unseen(v) {
      PrefixUnseen(v, j);
      UnseenPasses(Prefix(v, j));
    }
  }

  /** Such numbers exist: ten thousand million is read as 1410065408. */
  lemma WrapGoesUnseen()
    ensures !Exact("10000000000") && Parsed("10000000000") == Ok(1410065408)
  {
    var s := "10000000000";
    LeadingOne(s);
    assert s[..11] == s;
  }

  lemma LeadingOne(s: string)
    requires |s| >= 11 && s[0] == '1' && (forall i :: 1 <= i < 11 ==> s[i] == '0')
    ensures Value(10, s[..11]) == 10000000000 && Residue(s[..11]) == 1410065408 && NeverFalls(s[..11])
  {
    Prefixes(s, 1, 1, 1);
    Prefixes(s, 2, 10, 10);
    Prefixes(s, 3, 100, 100);
    Prefixes(s, 4, 1000, 1000);
    Prefixes(s, 5, 10000, 10000);
    Prefixes(s, 6, 100000, 100000);
    Prefixes(s, 7, 1000000, 1000000);
    Prefixes(s, 8, 10000000, 10000000);
    Prefixes(s, 9, 100000000, 100000000);
    Prefixes(s, 10, 1000000000, 1000000000);
    Prefixes(s, 11, 10000000000, 1410065408);
  }

  lemma Prefixes(s: string, n: nat, v: nat, r: nat)
    requires 0 < n <= |s| && v == Value(10, s[..n - 1]) * 10 + DigitValue(s[n - 1]) && r == v % WORD
    requires NeverFalls(s[..n - 1]) && Residue(s[..n - 1]) <= r
    ensures Value(10, s[..n]) == v && Residue(s[..n]) == r && NeverFalls(s[..n])
  {
    assert s[..n][..n - 1] == s[..n - 1];
  }

  lemma {:induction false} DecimalDigits(n: nat, i: nat)
    requires i < |Decimal(n)|
    ensures IsDigit(Decimal(n)[i])
    decreases n
  {
    if n < 10 || i == |Decimal(n)| - 1 {
    } else {
      DecimalDigits(Shorter(10, n), i);
    }
  }

  lemma PrintedRun(before: string, n: nat, rest: string, s: string)
    requires rest == "" || !IsDigit(rest[0])
    requires s == before + Decimal(n) + rest
    ensures RunEnd(s, |before|) == |before| + |Decimal(n)| && IsDigit(s[|before|])
    ensures s[|before|..RunEnd(s, |before|)] == Decimal(n)
  {
    var from, to := |before|, |before| + |Decimal(n)|;
    forall k | from <= k < to ensures IsDigit(s[k]) {
      assert s[k] == Decimal(n)[k - from];
      DecimalDigits(n, k - from);
    }
    RunEndUnique(s, from, to);
    assert s[from..to] == Decimal(n);
  }

  lemma PrintedValue(n: nat)
    requires n < WORD
    ensures Parsed(Decimal(n)) == if n <= MAX_INT then Ok(n) else Err(NumberTooBig)
  {
    ReadBack(10, n, false);
    SmallNeverFalls(Decimal(n));
  }

  /** Parsing undoes printing up to INT_MAX, whatever follows the number, and refuses the rest of the word. */
  lemma ParsePrinted(before: string, n: nat, rest: string)
    requires n < WORD && (rest == "" || !IsDigit(rest[0]))
    ensures var s := before + Decimal(n) + rest;
            && IsDigit(s[|before|])
            && RunEnd(s, |before|) == |before| + |Decimal(n)|
            && Parsed(s[|before|..RunEnd(s, |before|)]) == if n <= MAX_INT then Ok(n) else Err(NumberTooBig)
  {
    PrintedRun(before, n, rest, before + Decimal(n) + rest);
    PrintedValue(n);
  }
}
