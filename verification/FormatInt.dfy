/**
  Writing integers into a growing character buffer with prefix, padding and alignment:
  BasicWriter::write_int of format.h.
 */
module FormatInt {
  import opened Wrappers
  import opened Numerals
  import opened Splices
  import opened Sequences
  import opened DecimalDigits
  import opened Modular

  datatype Alignment = Default | Left | Right | Center | Numeric

  /** A format specification; code is the presentation type, '\0' for none, and a precision of -1 is none. */
  datatype Spec = Spec(width: nat, fill: char, align: Alignment, sign: bool, plus: bool, hash: bool, code: char,
                       precision: int := -1)

  // ------------------------------------------------------------------ the layout

  function Repeat(c: char, n: nat): (s: string)
    ensures |s| == n
  {
    seq(n, _ => c)
  }

  function Padding(spec: Spec, size: nat): nat {
    if spec.width > size then spec.width - size else 0
  }

  /** What stands before the digits when there is no precision. */
  function Lead(spec: Spec, prefix: string, digits: nat): string {
    var pad := Padding(spec, |prefix| + digits);
    match spec.align
    case Left => prefix
    case Center => Repeat(spec.fill, pad / 2) + prefix
    case Numeric => prefix + Repeat(spec.fill, pad)
    case _ => Repeat(spec.fill, pad) + prefix
  }

  /** What stands after the digits when there is no precision. */
  function Trail(spec: Spec, prefix: string, digits: nat): string {
    var pad := Padding(spec, |prefix| + digits);
    match spec.align
    case Left => Repeat(spec.fill, pad)
    case Center => Repeat(spec.fill, pad - pad / 2)
    case _ => ""
  }

  /** The prefix that a precision leaves: the 0 of an octal number counts as one of its digits. */
  function Kept(prefix: string): string {
    if |prefix| > 0 && prefix[|prefix| - 1] == '0' then prefix[..|prefix| - 1] else prefix
  }

  /** Prefix, zeros and digits together. */
  function NumberSize(spec: Spec, prefix: string, digits: nat): nat {
    if spec.precision > digits then |Kept(prefix)| + spec.precision else |prefix| + digits
  }

  /** The zeros that bring the digits up to the precision. */
  function Zeros(spec: Spec, digits: nat): string {
    Repeat('0', if spec.precision > digits then spec.precision - digits else 0)
  }

  /** What stands before the digits: with a precision every alignment but the left one puts the fill in front. */
  function Before(spec: Spec, prefix: string, digits: nat): string {
    if spec.precision > digits then
      var pad := Padding(spec, NumberSize(spec, prefix, digits));
      (if spec.align == Left then "" else Repeat(spec.fill, pad)) + (Kept(prefix) + Zeros(spec, digits))
    else
      Lead(spec, prefix, digits)
  }

  /** What stands after the digits. */
  function After(spec: Spec, prefix: string, digits: nat): string {
    if spec.precision > digits then
      if spec.align == Left then Repeat(spec.fill, Padding(spec, NumberSize(spec, prefix, digits))) else ""
    else
      Trail(spec, prefix, digits)
  }

  function Layout(spec: Spec, prefix: string, digits: string): string {
    Before(spec, prefix, |digits|) + digits + After(spec, prefix, |digits|)
  }

  /** A layout is as wide as asked for, or as its content. */
  lemma LayoutWidth(spec: Spec, prefix: string, digits: string)
    ensures var size := NumberSize(spec, prefix, |digits|);
            |Layout(spec, prefix, digits)| == if spec.width > size then spec.width else size
  {
  }

  // ------------------------------------------------------------------ what write_int writes

  function Absolute(value: int): nat {
    if value < 0 then -value else value
  }

  function SignPrefix(value: int, spec: Spec): string {
    if value < 0 then "-"
    else if spec.sign then (if spec.plus then "+" else " ")
    else ""
  }

  /** The base of a presentation type. */
  function BaseOf(code: char): Option<nat> {
    if code == '\0' || code == 'd' then Some(10)
    else if code == 'x' || code == 'X' then Some(16)
    else if code == 'b' || code == 'B' then Some(2)
    else if code == 'o' then Some(8)
    else None
  }

  function BasePrefix(spec: Spec): string {
    if !spec.hash || spec.code == '\0' || spec.code == 'd' then ""
    else if spec.code == 'o' then "0"
    else ['0', spec.code]
  }

  function Prefix(value: int, spec: Spec): string {
    SignPrefix(value, spec) + BasePrefix(spec)
  }

  function Body(value: int, spec: Spec): string
    requires BaseOf(spec.code).Some?
  {
    Numeral(BaseOf(spec.code).value, Absolute(value), spec.code == 'X')
  }

  function Written(value: int, spec: Spec): string
    requires BaseOf(spec.code).Some?
  {
    Layout(spec, Prefix(value, spec), Body(value, spec))
  }

  lemma {:induction false} LeadingZeros(base: nat, k: nat, s: string)
    requires base >= 1 && DigitsOf(base, s)
    ensures DigitsOf(base, Repeat('0', k) + s) && Value(base, Repeat('0', k) + s) == Value(base, s)
    decreases k + |s|
  {
    var all := Repeat('0', k) + s;
    if s != [] {
      LeadingZeros(base, k, s[..|s| - 1]);
      assert all[..|all| - 1] == Repeat('0', k) + s[..|s| - 1];
    } else if k > 0 {
      LeadingZeros(base, k - 1, s);
      assert all[..k - 1] == Repeat('0', k - 1) + s;
    }
  }

  /** The digits, read in their base, give back the absolute value, with the zeros of a precision or without. */
  lemma WrittenReadsBack(value: int, spec: Spec)
    requires BaseOf(spec.code).Some?
    ensures var base, prefix, body := BaseOf(spec.code).value, Prefix(value, spec), Body(value, spec);
            && Written(value, spec) == Before(spec, prefix, |body|) + body + After(spec, prefix, |body|)
            && Value(base, body) == Absolute(value)
            && DigitsOf(base, body)
            && (value != 0 ==> body[0] != '0')
            && Value(base, Zeros(spec, |body|) + body) == Absolute(value)
            && |Zeros(spec, |body|) + body| == (if spec.precision > |body| then spec.precision else |body|)
  {
    var base, body := BaseOf(spec.code).value, Body(value, spec);
    ReadBack(base, Absolute(value), spec.code == 'X');
    LeadingZeros(base, |Zeros(spec, |body|)|, body);
  }

  // ------------------------------------------------------------------ machine words

  /** abs_value: the value cut to the unsigned type, and negated there when it is negative. */
  function WordAbsolute(value: int, width: nat): nat
    requires width == 32 || width == 64
  {
    PowPositive(2, width);
    var word := value % Pow(2, width);
    if value < 0 then (0 - word) % Pow(2, width) else word
  }

  predicate FitsWord(value: int, width: nat) {
    width > 0 && 0 - Pow(2, width - 1) <= value < Pow(2, width)
  }

  /** The negation is right for every value of the type, the most negative one included. */
  lemma WordAbsoluteIsAbsolute(value: int, width: nat)
    requires width == 32 || width == 64
    requires FitsWord(value, width)
    ensures WordAbsolute(value, width) == Absolute(value) < Pow(2, width)
  {
    var w := Pow(2, width);
    assert w == 2 * Pow(2, width - 1);
    PowPositive(2, width - 1);
    if value < 0 {
      Wrapped(value, w, value + w);
      Wrapped(0 - (value + w), w, -value);
    } else {
      Wrapped(value, w, value);
    }
  }

  lemma Wrapped(x: int, w: nat, r: nat)
    requires w > 0 && r < w && (x == r || x == r - w)
    ensures x % w == r
  {
    Remainder(if x == r then 0 else -1, r, w);
  }

  // ------------------------------------------------------------------ the buffer

  /** The capacity of an array of `have` characters after a request for `needed`. */
  function Capacity(have: nat, needed: nat): (c: nat)
    ensures c >= have && c >= needed
  {
    if needed <= have then have else if needed > have + have / 2 then needed else have + have / 2
  }

  /** A request beyond the capacity gives what is asked for, or half as much again as there was. */
  lemma CapacityRule(have: nat, needed: nat)
    requires needed > have
    ensures var c := Capacity(have, needed);
            (c == needed && 2 * c > 3 * have - have % 2) || (2 * c == 3 * have - have % 2 && c >= needed)
  {
  }

  /** MemoryBuffer: characters in an array that is replaced by a larger one when it is full. */
  class MemoryBuffer {
    var data: array<char>
    var size: nat

    ghost predicate Valid()
      reads this
    {
      size <= data.Length
    }

    ghost function Contents(): string
      reads this, data
      requires Valid()
    {
      data[..size]
    }

    constructor (capacity: nat)
      ensures Valid() && Contents() == "" && fresh(data)
    {
      data := new char[capacity];
      size := 0;
    }

    /** grow */
    method Grow(needed: nat)
      requires Valid() && needed > data.Length
      modifies this`data
      ensures Valid() && fresh(data) && data.Length == Capacity(old(data.Length), needed)
      ensures Contents() == old(Contents())
    {
      var capacity := data.Length + data.Length / 2;
      if needed > capacity { capacity := needed; }
      var bigger := new char[capacity];
      forall i | 0 <= i < size { bigger[i] := data[i]; }
      data := bigger;
    }

    /** reserve */
    method Reserve(capacity: nat)
      requires Valid()
      modifies this`data
      ensures Valid() && data.Length == Capacity(old(data.Length), capacity) && Contents() == old(Contents())
      ensures if capacity <= old(data.Length) then data == old(data) else fresh(data)
    {
      if capacity > data.Length { Grow(capacity); }
    }

    /** grow_buffer: room for n more characters; nothing is said about what they are. */
    method GrowBuffer(n: nat) returns (p: nat)
      requires Valid()
      modifies this
      ensures Valid() && data.Length == Capacity(old(data.Length), size)
      ensures if size <= old(data.Length) then data == old(data) else fresh(data)
      ensures p == old(size) && size == p + n && data[..p] == old(Contents())
    {
      p := size;
      if size + n > data.Length { Grow(size + n); }
      size := size + n;
    }
  }

  // ------------------------------------------------------------------ filling parts of an array

  method Fill(a: array<char>, from: nat, to: nat, c: char)
    requires from <= to <= a.Length
    modifies a
    ensures a[..] == Overwritten(old(a[..]), from, Repeat(c, to - from))
  {
    forall i | from <= i < to { a[i] := c; }
  }

  method Copy(s: string, a: array<char>, at: nat)
    requires at + |s| <= a.Length
    modifies a
    ensures a[..] == Overwritten(old(a[..]), at, s)
  {
    forall i | at <= i < at + |s| { a[i] := s[i - at]; }
  }

  /** A buffer that holds lead and trail around places for the digits, the last of them at p. */
  ghost predicate Around(b: string, size: nat, p: int, digits: nat, lead: string, trail: string) {
    0 <= p + 1 - digits <= p + 1 <= size <= |b| && b[..p + 1 - digits] == lead && b[p + 1..size] == trail
  }

  ghost predicate Framed(b: string, size: nat, p: int, digits: nat, before: string, spec: Spec, prefix: string) {
    Around(b, size, p, digits, before + Lead(spec, prefix, digits), Trail(spec, prefix, digits))
  }

  ghost predicate Prepared(b: string, size: nat, p: int, digits: nat, before: string, spec: Spec, prefix: string) {
    Around(b, size, p, digits, before + Before(spec, prefix, digits), After(spec, prefix, digits))
  }

  lemma NoPadding(b: string, q: nat, digits: nat, spec: Spec, prefix: string)
    requires q + |prefix| + digits <= |b| && spec.width <= |prefix| + digits
    ensures Framed(Overwritten(b, q, prefix), q + |prefix| + digits, q + |prefix| + digits - 1, digits, b[..q], spec,
        prefix)
  {
    assert Lead(spec, prefix, digits) == prefix;
    assert Trail(spec, prefix, digits) == "";
    var c := Overwritten(b, q, prefix);
    Parts(b, q, prefix, c);
    Glued(c, 0, q, q + |prefix|);
  }

  /** No room for fill: prefix and digits. */
  method PlaceTight(a: array<char>, q: nat, digits: nat, spec: Spec, prefix: string) returns (p: int)
    requires spec.width <= |prefix| + digits && q + |prefix| + digits <= a.Length
    modifies a
    ensures Framed(a[..], q + |prefix| + digits, p, digits, old(a[..])[..q], spec, prefix)
  {
    ghost var b := a[..];
    Copy(prefix, a, q);
    p := q + |prefix| + digits - 1;
    NoPadding(b, q, digits, spec, prefix);
  }

  lemma LeftFramed(b: string, q: nat, digits: nat, spec: Spec, prefix: string, c: string, d: string)
    requires spec.align == Left && |prefix| + digits < spec.width && q + spec.width <= |b|
    requires c == Overwritten(b, q, prefix)
    requires d == Overwritten(c, q + |prefix| + digits, Repeat(spec.fill, spec.width - |prefix| - digits))
    ensures Framed(d, q + spec.width, q + |prefix| + digits - 1, digits, b[..q], spec, prefix)
  {
    Parts(b, q, prefix, c);
    Parts(c, q + |prefix| + digits, Repeat(spec.fill, spec.width - |prefix| - digits), d);
    Glued(d, 0, q, q + |prefix|);
    assert d[0..q] == b[..q] && d[q..q + |prefix|] == prefix;
  }

  /** ALIGN_LEFT: prefix, digits, fill. */
  method PlaceLeft(a: array<char>, q: nat, digits: nat, spec: Spec, prefix: string) returns (p: int)
    requires spec.align == Left && |prefix| + digits < spec.width && q + spec.width <= a.Length
    modifies a
    ensures Framed(a[..], q + spec.width, p, digits, old(a[..])[..q], spec, prefix)
  {
    ghost var b := a[..];
    Copy(prefix, a, q);
    ghost var c := a[..];
    var at, end := q + |prefix| + digits, q + spec.width;
    Fill(a, at, end, spec.fill);
    p := at - 1;
    LeftFramed(b, q, digits, spec, prefix, c, a[..]);
  }

  lemma CenterFramed(b: string, q: nat, digits: nat, spec: Spec, prefix: string, left: nat, c: string, d: string,
                     e: string)
    requires spec.align == Center && |prefix| + digits < spec.width && q + spec.width <= |b|
    requires left == (spec.width - |prefix| - digits) / 2
    requires c == Overwritten(b, q, Repeat(spec.fill, left))
    requires d == Overwritten(c, q + left + |prefix| + digits, Repeat(spec.fill, spec.width - |prefix| - digits - left))
    requires e == Overwritten(d, q + left, prefix)
    ensures Framed(e, q + spec.width, q + left + |prefix| + digits - 1, digits, b[..q], spec, prefix)
  {
    var right := Repeat(spec.fill, spec.width - |prefix| - digits - left);
    CenterTrail(c, q + left + |prefix| + digits, right, d, q + left, prefix, e);
    CenterLead(b, q, Repeat(spec.fill, left), prefix, c, e);
    CenterParts(spec, prefix, digits, left);
  }

  lemma CenterParts(spec: Spec, prefix: string, digits: nat, left: nat)
    requires spec.align == Center && |prefix| + digits < spec.width && left == (spec.width - |prefix| - digits) / 2
    ensures Lead(spec, prefix, digits) == Repeat(spec.fill, left) + prefix
    ensures Trail(spec, prefix, digits) == Repeat(spec.fill, spec.width - |prefix| - digits - left)
  {
  }

  lemma CenterTrail(c: string, after: nat, right: string, d: string, at: nat, prefix: string, e: string)
    requires at + |prefix| <= after && after + |right| <= |c|
    requires d == Overwritten(c, after, right) && e == Overwritten(d, at, prefix)
    ensures e[after..after + |right|] == right
    ensures e[..at] == c[..at] && e[at..at + |prefix|] == prefix
  {
    Parts(c, after, right, d);
    Parts(d, at, prefix, e);
    assert e[0..at] == d[0..at] == c[0..at];
  }

  lemma CenterLead(b: string, q: nat, fill: string, prefix: string, c: string, e: string)
    requires q + |fill| + |prefix| <= |b| == |e| && c == Overwritten(b, q, fill)
    requires e[..q + |fill|] == c[..q + |fill|] && e[q + |fill|..q + |fill| + |prefix|] == prefix
    ensures e[..q + |fill| + |prefix|] == b[..q] + (fill + prefix)
  {
    var at, end := q + |fill|, q + |fill| + |prefix|;
    assert c[..at] == b[..q] + fill;
    assert e[..end] == e[..at] + e[at..end];
  }

  /** fill_padding: half of the fill on the left of the content, the rest on the right. */
  method FillPadding(a: array<char>, q: nat, total: nat, size: nat, fill: char) returns (content: nat, ghost c: string)
    requires size <= total && q + total <= a.Length
    modifies a
    ensures var left := (total - size) / 2;
            && content == q + left
            && c == Overwritten(old(a[..]), q, Repeat(fill, left))
            && a[..] == Overwritten(c, content + size, Repeat(fill, total - size - left))
  {
    var left := (total - size) / 2;
    Fill(a, q, q + left, fill);
    c := a[..];
    content := q + left;
    Fill(a, content + size, q + total, fill);
  }

  /** ALIGN_CENTER: half of the fill, prefix, digits, the other half. */
  method PlaceCenter(a: array<char>, q: nat, digits: nat, spec: Spec, prefix: string) returns (p: int)
    requires spec.align == Center && |prefix| + digits < spec.width && q + spec.width <= a.Length
    modifies a
    ensures Framed(a[..], q + spec.width, p, digits, old(a[..])[..q], spec, prefix)
  {
    ghost var left := (spec.width - |prefix| - digits) / 2;
    ghost var b := a[..];
    var content, c := FillPadding(a, q, spec.width, |prefix| + digits, spec.fill);
    ghost var d := a[..];
    Copy(prefix, a, content);
    p := content + |prefix| + digits - 1;
    CenterFramed(b, q, digits, spec, prefix, left, c, d, a[..]);
  }

  /** The places of the digits hold what they held. */
  ghost predicate Untouched(b: string, c: string, p: int, digits: nat) {
    0 <= p + 1 - digits <= p + 1 <= |b| && p + 1 <= |c| && b[p + 1 - digits..p + 1] == c[p + 1 - digits..p + 1]
  }

  lemma NumericFramed(b: string, q: nat, digits: nat, spec: Spec, prefix: string, c: string, d: string)
    requires spec.align == Numeric && |prefix| + digits < spec.width && q + spec.width <= |b|
    requires c == Overwritten(b, q, prefix)
    requires d == Overwritten(c, q + |prefix|, Repeat(spec.fill, spec.width - |prefix| - digits))
    ensures Framed(d, q + spec.width, q + spec.width - 1, digits, b[..q], spec, prefix)
    ensures Untouched(b, d, q + spec.width - 1, digits)
  {
    var at, end := q + |prefix|, q + spec.width - digits;
    Parts(b, q, prefix, c);
    Parts(c, at, Repeat(spec.fill, spec.width - |prefix| - digits), d);
    assert d[0..q] == b[..q] && d[q..at] == prefix;
    Glued(d, 0, q, end);
    Glued(d, q, at, end);
  }

  method CopyPrefix(prefix: string, a: array<char>, q: nat) returns (at: nat)
    requires q + |prefix| <= a.Length
    modifies a
    ensures at == q + |prefix| && a[..] == Overwritten(old(a[..]), q, prefix)
  {
    at := q;
    if |prefix| != 0 {
      Copy(prefix, a, at);
      at := at + |prefix|;
    }
  }

  /** ALIGN_NUMERIC: prefix, fill, digits. */
  method PlaceNumeric(a: array<char>, q: nat, digits: nat, spec: Spec, prefix: string) returns (p: int)
    requires spec.align == Numeric && |prefix| + digits < spec.width && q + spec.width <= a.Length
    modifies a
    ensures Framed(a[..], q + spec.width, p, digits, old(a[..])[..q], spec, prefix)
    ensures Untouched(old(a[..]), a[..], p, digits)
  {
    var end := q + spec.width;
    ghost var b := a[..];
    var at := CopyPrefix(prefix, a, q);
    ghost var c := a[..];
    Fill(a, at, end - digits, spec.fill);
    p := end - 1;
    NumericFramed(b, q, digits, spec, prefix, c, a[..]);
  }

  lemma RightFramed(b: string, q: nat, digits: nat, spec: Spec, prefix: string, c: string, d: string)
    requires (spec.align == Right || spec.align == Default) && |prefix| + digits < spec.width && q + spec.width <= |b|
    requires c == Overwritten(b, q + spec.width - |prefix| - digits, prefix)
    requires d == Overwritten(c, q, Repeat(spec.fill, spec.width - |prefix| - digits))
    ensures Framed(d, q + spec.width, q + spec.width - 1, digits, b[..q], spec, prefix)
  {
    var at, end := q + spec.width - |prefix| - digits, q + spec.width - digits;
    Parts(b, at, prefix, c);
    Parts(c, q, Repeat(spec.fill, spec.width - |prefix| - digits), d);
    assert d[0..q] == b[..q] && d[at..end] == prefix;
    Glued(d, 0, q, end);
    Glued(d, q, at, end);
  }

  /** The other alignments: fill, prefix, digits. */
  method PlaceRight(a: array<char>, q: nat, digits: nat, spec: Spec, prefix: string) returns (p: int)
    requires (spec.align == Right || spec.align == Default) && |prefix| + digits < spec.width
    requires q + spec.width <= a.Length
    modifies a
    ensures Framed(a[..], q + spec.width, p, digits, old(a[..])[..q], spec, prefix)
  {
    var end := q + spec.width;
    var at := end - (|prefix| + digits);
    ghost var b := a[..];
    Copy(prefix, a, at);
    ghost var c := a[..];
    Fill(a, q, at, spec.fill);
    p := end - 1;
    RightFramed(b, q, digits, spec, prefix, c, a[..]);
  }

  /** Placing around the digits in an array with room for the whole width. */
  method Place(a: array<char>, q: nat, digits: nat, spec: Spec, prefix: string) returns (p: int)
    requires |prefix| + digits < spec.width && q + spec.width <= a.Length
    modifies a
    ensures Framed(a[..], q + spec.width, p, digits, old(a[..])[..q], spec, prefix)
    ensures spec.align == Numeric ==> Untouched(old(a[..]), a[..], p, digits)
  {
    match spec.align
    case Left => p := PlaceLeft(a, q, digits, spec, prefix);
    case Center => p := PlaceCenter(a, q, digits, spec, prefix);
    case Numeric => p := PlaceNumeric(a, q, digits, spec, prefix);
    case _ => p := PlaceRight(a, q, digits, spec, prefix);
  }

  /** prepare_int_buffer without a precision: everything but the digits; p is where the last digit goes. */
  method PreparePlain(buffer: MemoryBuffer, digits: nat, spec: Spec, prefix: string) returns (p: int)
    requires buffer.Valid()
    modifies buffer, buffer.data
    ensures buffer.Valid() && buffer.data.Length == Capacity(old(buffer.data.Length), buffer.size)
    ensures if buffer.size <= old(buffer.data.Length) then buffer.data == old(buffer.data) else fresh(buffer.data)
    ensures Framed(buffer.data[..], buffer.size, p, digits, old(buffer.Contents()), spec, prefix)
    ensures var size := |prefix| + digits;
            buffer.size == old(buffer.size) + if spec.width <= size then size else spec.width
    ensures spec.align == Numeric && |prefix| + digits < spec.width && buffer.data == old(buffer.data) ==>
              Untouched(old(buffer.data[..]), buffer.data[..], p, digits)
  {
    var size := |prefix| + digits;
    var q := buffer.GrowBuffer(if spec.width <= size then size else spec.width);
    ghost var b := buffer.data[..];
    assert b[..q] == old(buffer.Contents());
    if spec.width <= size {
      p := PlaceTight(buffer.data, q, digits, spec, prefix);
    } else {
      p := Place(buffer.data, q, digits, spec, prefix);
    }
  }

  /** Growing by n characters and filling them. */
  method FillMore(buffer: MemoryBuffer, n: nat, c: char)
    requires buffer.Valid()
    modifies buffer, buffer.data
    ensures buffer.Valid() && buffer.data.Length == Capacity(old(buffer.data.Length), buffer.size)
    ensures if buffer.size <= old(buffer.data.Length) then buffer.data == old(buffer.data) else fresh(buffer.data)
    ensures buffer.Contents() == old(buffer.Contents()) + Repeat(c, n)
  {
    var q := buffer.GrowBuffer(n);
    ghost var b := buffer.data[..];
    assert b[..q] == old(buffer.Contents());
    Fill(buffer.data, q, q + n, c);
  }

  /** The specification under which a precision prepares its number: zeros between prefix and digits. */
  function NumberSpec(spec: Spec, prefix: string): Spec
    requires spec.precision >= 0
  {
    Spec(|Kept(prefix)| + spec.precision, '0', Numeric, false, false, false, '\0')
  }

  lemma NumberParts(spec: Spec, prefix: string, digits: nat)
    requires spec.precision > digits
    ensures Lead(NumberSpec(spec, prefix), Kept(prefix), digits) == Kept(prefix) + Zeros(spec, digits)
    ensures Trail(NumberSpec(spec, prefix), Kept(prefix), digits) == ""
  {
  }

  /** The call of prepare_int_buffer within itself: prefix, zeros and room for the digits at the end. */
  method PrepareNumber(buffer: MemoryBuffer, digits: nat, spec: Spec, prefix: string) returns (p: int)
    requires buffer.Valid() && spec.precision > digits
    modifies buffer, buffer.data
    ensures buffer.Valid() && buffer.data.Length == Capacity(old(buffer.data.Length), buffer.size)
    ensures if buffer.size <= old(buffer.data.Length) then buffer.data == old(buffer.data) else fresh(buffer.data)
    ensures p + 1 == buffer.size == old(buffer.size) + NumberSize(spec, prefix, digits)
    ensures Around(buffer.data[..], buffer.size, p, digits,
              old(buffer.Contents()) + (Kept(prefix) + Zeros(spec, digits)), "")
    ensures buffer.data == old(buffer.data) ==> Untouched(old(buffer.data[..]), buffer.data[..], p, digits)
  {
    NumberParts(spec, prefix, digits);
    p := PreparePlain(buffer, digits, NumberSpec(spec, prefix), Kept(prefix));
  }

  /**
    With a precision and alignment to the left the digits' pointer is taken before the fill grows the buffer,
    and reserve(width) counts from the start of the buffer: this says that the second growth moves the buffer.
   */
  predicate Outgrown(size: nat, capacity: nat, spec: Spec, prefix: string, digits: nat) {
    var number := NumberSize(spec, prefix, digits);
    && spec.precision > digits && spec.align == Left && number < spec.width
    && size + spec.width > Capacity(Capacity(capacity, spec.width), size + number)
  }

  /** The array of a buffer is large enough for the number, so preparing it does not move the buffer. */
  predicate NumberFits(size: nat, capacity: nat, spec: Spec, prefix: string, digits: nat) {
    spec.width <= capacity && size + NumberSize(spec, prefix, digits) <= capacity
  }

  /**
    A buffer b that waits for its digits between lead and trail.  They come through a pointer into the array of the
    buffer or, if not inPlace, into an array it has left; their places hold what they held in the array found at
    first, if that is known.
   */
  ghost predicate Pending(b: string, size: nat, p: int, digits: nat, held: string, lead: string, trail: string,
                          inPlace: bool, known: bool) {
    Around(b, size, p, digits, lead, trail) && (!inPlace && known ==> Untouched(held, b, p, digits))
  }

  /** What prepare_int_buffer leaves in b, held being the array it found. */
  ghost predicate Ready(b: string, size: nat, p: int, digits: nat, held: string, before: string, spec: Spec,
                        prefix: string, inPlace: bool) {
    && Pending(b, size, p, digits, held, before + Before(spec, prefix, digits), After(spec, prefix, digits), inPlace,
        NumberFits(|before|, |held|, spec, prefix, digits))
    && (inPlace <==> !Outgrown(|before|, |held|, spec, prefix, digits))
  }

  /** Fill after a number that ends the buffer. */
  lemma FilledAfter(b: string, p: int, digits: nat, before: string, spec: Spec, prefix: string, c: string, size: nat)
    requires spec.precision > digits && spec.align == Left
    requires p + 1 >= 0 && Around(b, p + 1, p, digits, before + (Kept(prefix) + Zeros(spec, digits)), "")
    requires p + 1 <= size <= |c|
    requires c[..size] == b[..p + 1] + Repeat(spec.fill, Padding(spec, NumberSize(spec, prefix, digits)))
    ensures Prepared(c, size, p, digits, before, spec, prefix) && Untouched(b, c, p, digits)
  {
    var from := p + 1 - digits;
    assert "" + (Kept(prefix) + Zeros(spec, digits)) == Kept(prefix) + Zeros(spec, digits);
    assert c[..from] == c[..size][..from] == b[..p + 1][..from] == b[..from];
    assert c[from..p + 1] == c[..size][from..p + 1] == b[..p + 1][from..] == b[from..p + 1];
    assert c[p + 1..size] == c[..size][p + 1..];
  }

  method PrepareReserved(buffer: MemoryBuffer, digits: nat, spec: Spec, prefix: string) returns (p: int)
    requires buffer.Valid() && spec.precision > digits
    modifies buffer, buffer.data
    ensures buffer.Valid() && (buffer.data == old(buffer.data) || fresh(buffer.data))
    ensures buffer.data.Length == Capacity(Capacity(old(buffer.data.Length), spec.width), buffer.size)
    ensures p + 1 == buffer.size == old(buffer.size) + NumberSize(spec, prefix, digits)
    ensures Around(buffer.data[..], buffer.size, p, digits,
              old(buffer.Contents()) + (Kept(prefix) + Zeros(spec, digits)), "")
    ensures NumberFits(old(buffer.size), old(buffer.data.Length), spec, prefix, digits) ==>
              Untouched(old(buffer.data[..]), buffer.data[..], p, digits)
  {
    buffer.Reserve(spec.width);
    p := PrepareNumber(buffer, digits, spec, prefix);
  }

  /** A precision and alignment to the left: the digits' places are in a, which the fill may have outgrown. */
  method PrepareLeft(buffer: MemoryBuffer, digits: nat, spec: Spec, prefix: string) returns (a: array<char>, p: int)
    requires buffer.Valid() && spec.precision > digits && spec.align == Left
    requires NumberSize(spec, prefix, digits) < spec.width
    modifies buffer, buffer.data
    ensures buffer.Valid() && (buffer.data == old(buffer.data) || fresh(buffer.data))
    ensures (a == old(buffer.data) || fresh(a)) && p < a.Length
    ensures Ready(buffer.data[..], buffer.size, p, digits, old(buffer.data[..]), old(buffer.Contents()), spec, prefix,
              a == buffer.data)
  {
    ghost var before := buffer.Contents();
    p := PrepareReserved(buffer, digits, spec, prefix);
    a := buffer.data;
    ghost var b := a[..];
    FillMore(buffer, spec.width - NumberSize(spec, prefix, digits), spec.fill);
    FilledAfter(b, p, digits, before, spec, prefix, buffer.data[..], buffer.size);
  }

  /** Fill before a number. */
  lemma FilledBefore(b: string, size: nat, p: int, digits: nat, before: string, spec: Spec, prefix: string)
    requires spec.precision > digits && (spec.align == Left ==> spec.width <= NumberSize(spec, prefix, digits))
    requires var fill := Repeat(spec.fill, Padding(spec, NumberSize(spec, prefix, digits)));
             Around(b, size, p, digits, before + fill + (Kept(prefix) + Zeros(spec, digits)), "")
    ensures Prepared(b, size, p, digits, before, spec, prefix)
  {
    var fill := Repeat(spec.fill, Padding(spec, NumberSize(spec, prefix, digits)));
    Append(before, fill, Kept(prefix) + Zeros(spec, digits));
    assert fill + (Kept(prefix) + Zeros(spec, digits)) == Before(spec, prefix, digits);
  }

  /** A precision without fill, or with fill in front. */
  method PrepareRight(buffer: MemoryBuffer, digits: nat, spec: Spec, prefix: string) returns (p: int)
    requires buffer.Valid() && spec.precision > digits
    requires spec.align == Left ==> spec.width <= NumberSize(spec, prefix, digits)
    modifies buffer, buffer.data
    ensures buffer.Valid() && (buffer.data == old(buffer.data) || fresh(buffer.data))
    ensures Prepared(buffer.data[..], buffer.size, p, digits, old(buffer.Contents()), spec, prefix)
  {
    var number := NumberSize(spec, prefix, digits);
    ghost var before := buffer.Contents();
    if number < spec.width {
      buffer.Reserve(spec.width);
      FillMore(buffer, spec.width - number, spec.fill);
    } else {
      assert before + Repeat(spec.fill, 0) == before;
    }
    p := PrepareNumber(buffer, digits, spec, prefix);
    FilledBefore(buffer.data[..], buffer.size, p, digits, before, spec, prefix);
  }

  /** prepare_int_buffer: everything but the digits; the pointer it returns is to position p of the array a. */
  method PrepareIntBuffer(buffer: MemoryBuffer, digits: nat, spec: Spec, prefix: string)
    returns (a: array<char>, p: int)
    requires buffer.Valid()
    modifies buffer, buffer.data
    ensures buffer.Valid() && (buffer.data == old(buffer.data) || fresh(buffer.data))
    ensures (a == old(buffer.data) || fresh(a)) && p < a.Length
    ensures Ready(buffer.data[..], buffer.size, p, digits, old(buffer.data[..]), old(buffer.Contents()), spec, prefix,
              a == buffer.data)
  {
    if spec.precision > digits {
      if NumberSize(spec, prefix, digits) < spec.width && spec.align == Left {
        a, p := PrepareLeft(buffer, digits, spec, prefix);
      } else {
        p := PrepareRight(buffer, digits, spec, prefix);
        a := buffer.data;
      }
    } else {
      p := PreparePlain(buffer, digits, spec, prefix);
      a := buffer.data;
    }
  }

  // ------------------------------------------------------------------ digits in a power-of-two base

  lemma LengthStep(base: nat, n: nat)
    requires base >= 2
    ensures n < base ==> n / base == 0 && Length(base, n) == 1
    ensures n >= base ==> n / base != 0 && n / base < n && Length(base, n) == 1 + Length(base, n / base)
  {
    if n >= base { assert Shorter(base, n) == n / base; }
  }

  /** The do-while loops that count digits by shifting. */
  method CountBaseDigits(n0: nat, base: nat) returns (count: nat)
    requires base == 2 || base == 8 || base == 16
    ensures count == Length(base, n0)
  {
    var n: nat := n0;
    count := 1;
    LengthStep(base, n);
    while n / base != 0
      invariant count >= 1 && count - 1 + Length(base, n) == Length(base, n0)
      decreases n
    {
      LengthStep(base, n);
      n := n / base;
      count := count + 1;
    }
    LengthStep(base, n);
  }

  lemma NumeralStep(base: nat, n: nat, upper: bool)
    requires 2 <= base <= 16
    ensures n < base ==> Numeral(base, n, upper) == [DigitChar(n % base, upper)] && n / base == 0
    ensures n >= base ==> n / base != 0 && n / base < n
    ensures n >= base ==> Numeral(base, n, upper) == Numeral(base, n / base, upper) + [DigitChar(n % base, upper)]
  {
    LengthStep(base, n);
    if n >= base { assert Shorter(base, n) == n / base && Last(base, n) == n % base; }
    else { assert n % base == n; }
  }

  /** Moving one digit from what is left to what is done. */
  lemma DigitStep(base: nat, n: nat, upper: bool, done: string, all: string)
    requires 2 <= base <= 16 && n / base != 0 && Numeral(base, n, upper) + done == all
    ensures n / base < n && |Numeral(base, n, upper)| == |Numeral(base, n / base, upper)| + 1
    ensures Numeral(base, n / base, upper) + ([DigitChar(n % base, upper)] + done) == all
  {
    NumeralStep(base, n, upper);
    Append(Numeral(base, n / base, upper), [DigitChar(n % base, upper)], done);
  }

  lemma LastDigit(base: nat, n: nat, upper: bool, done: string, all: string)
    requires 2 <= base <= 16 && n / base == 0 && Numeral(base, n, upper) + done == all
    ensures |Numeral(base, n, upper)| == 1 && [DigitChar(n % base, upper)] + done == all
  {
    NumeralStep(base, n, upper);
  }

  method PutDigit(a: array<char>, p: nat, c: char, ghost b: string, ghost done: string)
    requires p + 1 + |done| <= |b| && a[..] == Overwritten(b, p + 1, done)
    modifies a
    ensures a[..] == Overwritten(b, p, [c] + done)
  {
    OneMore(b, p, c, done);
    a[p] := c;
  }

  /** Writing the last digit of n at p, with digits left before it. */
  method NextDigit(a: array<char>, p: int, n: nat, base: nat, upper: bool, ghost b: string, ghost done: string,
                   ghost all: string) returns (rest: nat, ghost more: string)
    requires 2 <= base <= 16 && n / base != 0 && Numeral(base, n, upper) + done == all
    requires |Numeral(base, n, upper)| <= p + 1 && p + 1 + |done| <= |b| && a[..] == Overwritten(b, p + 1, done)
    modifies a
    ensures rest < n && |more| == |done| + 1 && |Numeral(base, rest, upper)| <= p
    ensures Numeral(base, rest, upper) + more == all && a[..] == Overwritten(b, p, more)
  {
    DigitStep(base, n, upper, done, all);
    PutDigit(a, p, DigitChar(n % base, upper), b, done);
    rest, more := n / base, [DigitChar(n % base, upper)] + done;
  }

  /** The do-while loops that write digits backwards from position p. */
  method WriteBaseDigits(a: array<char>, p0: int, value: nat, base: nat, upper: bool)
    requires base == 2 || base == 8 || base == 16
    requires Length(base, value) <= p0 + 1 <= a.Length
    modifies a
    ensures a[..] == Overwritten(old(a[..]), p0 + 1 - Length(base, value), Numeral(base, value, upper))
  {
    var p: int, n: nat := p0, value;
    ghost var b, done, all := a[..], "", Numeral(base, value, upper);
    assert all + done == all;
    while n / base != 0
      invariant p + |done| == p0 && |Numeral(base, n, upper)| <= p + 1
      invariant Numeral(base, n, upper) + done == all
      invariant a[..] == Overwritten(b, p + 1, done)
      decreases n
    {
      n, done := NextDigit(a, p, n, base, upper, b, done, all);
      p := p - 1;
    }
    LastDigit(base, n, upper, done, all);
    var c := DigitChar(n % base, upper);
    PutDigit(a, p, c, b, done);
  }

  // ------------------------------------------------------------------ write_int

  datatype FormatError = UnknownType(code: char) | NumberTooBig

  lemma DigitsBetween(b: string, size: nat, p: int, digits: string, lead: string, trail: string, c: string)
    requires Around(b, size, p, |digits|, lead, trail) && c == Overwritten(b, p + 1 - |digits|, digits)
    ensures c[..size] == lead + (digits + trail)
  {
    var from := p + 1 - |digits|;
    Parts(b, from, digits, c);
    assert c[0..from] == b[0..from] && c[p + 1..size] == b[p + 1..size];
    Glued(c, 0, from, size);
    Glued(c, from, p + 1, size);
  }

  /** The text around digits that went elsewhere. */
  ghost predicate LostBetween(now: string, held: string, lead: string, trail: string, digits: nat, known: bool) {
    var p := |lead| + digits - 1;
    && |now| == p + 1 + |trail| && Around(now, |now|, p, digits, lead, trail)
    && (known ==> Untouched(held, now, p, digits))
  }

  lemma AroundCut(b: string, size: nat, p: int, digits: nat, lead: string, trail: string)
    requires Around(b, size, p, digits, lead, trail)
    ensures p + 1 == |lead| + digits && size == p + 1 + |trail|
    ensures Around(b[..size], size, p, digits, lead, trail) && Untouched(b, b[..size], p, digits)
  {
    var now, from := b[..size], p + 1 - digits;
    assert now[..from] == b[..from] && now[from..p + 1] == b[from..p + 1] && now[p + 1..size] == b[p + 1..size];
  }

  ghost predicate Outcome(now: string, held: string, lead: string, trail: string, digits: string, inPlace: bool,
                          known: bool) {
    if inPlace then now == lead + (digits + trail) else LostBetween(now, held, lead, trail, |digits|, known)
  }

  /** The outcome when b became c under digits that were written through the pointer. */
  lemma Finished(b: string, c: string, size: nat, p: int, held: string, lead: string, trail: string, digits: string,
                 inPlace: bool, known: bool)
    requires Pending(b, size, p, |digits|, held, lead, trail, inPlace, known)
    requires inPlace ==> c == Overwritten(b, p + 1 - |digits|, digits)
    requires !inPlace ==> c == b
    ensures size <= |c| && Outcome(c[..size], held, lead, trail, digits, inPlace, known)
  {
    if inPlace {
      DigitsBetween(b, size, p, digits, lead, trail, c);
    } else {
      AroundCut(b, size, p, |digits|, lead, trail);
    }
  }

  /**
    What an outgrown buffer holds: the layout, but for the digits, which went to the array it has left.
    In their places is what the memory held, as far as it is known.
   */
  ghost predicate DigitsLost(now: string, held: string, before: string, spec: Spec, prefix: string, digits: nat) {
    LostBetween(now, held, before + Before(spec, prefix, digits), After(spec, prefix, digits), digits,
      NumberFits(|before|, |held|, spec, prefix, digits))
  }

  /** What is in the buffer once the digits are written through the pointer. */
  ghost predicate Appended(now: string, held: string, before: string, spec: Spec, prefix: string, digits: string) {
    if Outgrown(|before|, |held|, spec, prefix, |digits|) then DigitsLost(now, held, before, spec, prefix, |digits|)
    else now == before + Layout(spec, prefix, digits)
  }

  lemma LaidOut(before: string, spec: Spec, prefix: string, digits: string)
    ensures before + Layout(spec, prefix, digits)
         == (before + Before(spec, prefix, |digits|)) + (digits + After(spec, prefix, |digits|))
  {
    Reassociate(before, Before(spec, prefix, |digits|), digits, After(spec, prefix, |digits|));
  }

  lemma Concluded(now: string, held: string, before: string, spec: Spec, prefix: string, digits: string, inPlace: bool)
    requires Outcome(now, held, before + Before(spec, prefix, |digits|), After(spec, prefix, |digits|), digits, inPlace,
               NumberFits(|before|, |held|, spec, prefix, |digits|))
    requires inPlace <==> !Outgrown(|before|, |held|, spec, prefix, |digits|)
    ensures Appended(now, held, before, spec, prefix, digits)
  {
    LaidOut(before, spec, prefix, digits);
  }

  method WordDigits(n: nat, width: nat) returns (digits: nat)
    requires (width == 32 || width == 64) && n < Pow(2, width)
    ensures digits == Length(10, n)
  {
    digits := CountDigits(n, width);
    CountsDigits(n, width);
  }

  /** Digits written through a pointer into a, seen from an array that may be a or another. */
  method DecimalThrough(a: array<char>, start: nat, n: nat, digits: nat, ghost seen: array<char>)
    requires digits == Length(10, n) && start + digits <= a.Length
    modifies a
    ensures a == seen ==> seen[..] == Overwritten(old(seen[..]), start, Decimal(n))
    ensures a != seen ==> seen[..] == old(seen[..])
  {
    FormatDecimal(a, start, n, digits);
  }

  method DigitsThrough(a: array<char>, p: int, n: nat, base: nat, upper: bool, ghost digits: nat,
                       ghost seen: array<char>)
    requires (base == 2 || base == 8 || base == 16) && digits == Length(base, n) && digits <= p + 1 <= a.Length
    modifies a
    ensures a == seen ==> seen[..] == Overwritten(old(seen[..]), p + 1 - digits, Numeral(base, n, upper))
    ensures a != seen ==> seen[..] == old(seen[..])
  {
    WriteBaseDigits(a, p, n, base, upper);
  }

  /** The digits of a decimal number in a prepared buffer. */
  method FinishDecimal(buffer: MemoryBuffer, a: array<char>, p: int, n: nat, digits: nat, ghost held: string,
                       ghost lead: string, ghost trail: string, ghost known: bool)
    requires buffer.Valid() && digits == Length(10, n) && p < a.Length
    requires Pending(buffer.data[..], buffer.size, p, digits, held, lead, trail, a == buffer.data, known)
    modifies a
    ensures Outcome(buffer.Contents(), held, lead, trail, Decimal(n), a == buffer.data, known)
  {
    ghost var b := buffer.data[..];
    DecimalThrough(a, p + 1 - digits, n, digits, buffer.data);
    Finished(b, buffer.data[..], buffer.size, p, held, lead, trail, Decimal(n), a == buffer.data, known);
    assert buffer.Contents() == buffer.data[..][..buffer.size];
  }

  /** The cases 0 and 'd'. */
  method WriteDecimal(buffer: MemoryBuffer, n: nat, digits: nat, spec: Spec, prefix: string)
    requires buffer.Valid() && digits == Length(10, n)
    modifies buffer, buffer.data
    ensures buffer.Valid() && (buffer.data == old(buffer.data) || fresh(buffer.data))
    ensures Appended(buffer.Contents(), old(buffer.data[..]), old(buffer.Contents()), spec, prefix, Decimal(n))
  {
    ghost var held, before := buffer.data[..], buffer.Contents();
    var a, p := PrepareIntBuffer(buffer, digits, spec, prefix);
    FinishDecimal(buffer, a, p, n, digits, held, before + Before(spec, prefix, digits), After(spec, prefix, digits),
      NumberFits(|before|, |held|, spec, prefix, digits));
    Concluded(buffer.Contents(), held, before, spec, prefix, Decimal(n), a == buffer.data);
  }

  /** The digits of a number in another base in a prepared buffer. */
  method FinishBased(buffer: MemoryBuffer, a: array<char>, p: int, n: nat, base: nat, upper: bool, ghost digits: nat,
                     ghost held: string, ghost lead: string, ghost trail: string, ghost known: bool)
    requires buffer.Valid() && (base == 2 || base == 8 || base == 16) && digits == Length(base, n) && p < a.Length
    requires Pending(buffer.data[..], buffer.size, p, digits, held, lead, trail, a == buffer.data, known)
    modifies a
    ensures Outcome(buffer.Contents(), held, lead, trail, Numeral(base, n, upper), a == buffer.data, known)
  {
    ghost var b := buffer.data[..];
    DigitsThrough(a, p, n, base, upper, digits, buffer.data);
    Finished(b, buffer.data[..], buffer.size, p, held, lead, trail, Numeral(base, n, upper), a == buffer.data, known);
    assert buffer.Contents() == buffer.data[..][..buffer.size];
  }

  /** The cases 'x', 'X', 'b', 'B' and 'o'. */
  method WriteBased(buffer: MemoryBuffer, n: nat, base: nat, upper: bool, spec: Spec, prefix: string)
    requires buffer.Valid() && (base == 2 || base == 8 || base == 16)
    modifies buffer, buffer.data
    ensures buffer.Valid() && (buffer.data == old(buffer.data) || fresh(buffer.data))
    ensures Appended(buffer.Contents(), old(buffer.data[..]), old(buffer.Contents()), spec, prefix,
              Numeral(base, n, upper))
  {
    ghost var held, before := buffer.data[..], buffer.Contents();
    var digits := CountBaseDigits(n, base);
    var a, p := PrepareIntBuffer(buffer, digits, spec, prefix);
    FinishBased(buffer, a, p, n, base, upper, digits, held, before + Before(spec, prefix, digits),
      After(spec, prefix, digits), NumberFits(|before|, |held|, spec, prefix, digits));
    Concluded(buffer.Contents(), held, before, spec, prefix, Numeral(base, n, upper), a == buffer.data);
  }

  /** The switch over the presentation type, with the sign already chosen. */
  method WriteByType(buffer: MemoryBuffer, n: nat, width: nat, spec: Spec, sign: string)
    returns (r: Result<(), FormatError>)
    requires buffer.Valid() && (width == 32 || width == 64) && n < Pow(2, width)
    modifies buffer, buffer.data
    ensures buffer.Valid() && (buffer.data == old(buffer.data) || fresh(buffer.data))
    ensures BaseOf(spec.code).Some? ==>
              && r == Ok(())
              && Appended(buffer.Contents(), old(buffer.data[..]), old(buffer.Contents()), spec,
                sign + BasePrefix(spec), Numeral(BaseOf(spec.code).value, n, spec.code == 'X'))
    ensures BaseOf(spec.code).None? ==>
              r == Err(UnknownType(spec.code)) && buffer.Contents() == old(buffer.Contents())
  {
    var prefix := sign;
    if spec.code == '\0' || spec.code == 'd' {
      assert sign + BasePrefix(spec) == prefix;
      var digits := WordDigits(n, width);
      WriteDecimal(buffer, n, digits, spec, prefix);
    } else if spec.code == 'x' || spec.code == 'X' {
      if spec.hash { prefix := prefix + ['0', spec.code]; }
      assert sign + BasePrefix(spec) == prefix;
      WriteBased(buffer, n, 16, spec.code == 'X', spec, prefix);
    } else if spec.code == 'b' || spec.code == 'B' {
      if spec.hash { prefix := prefix + ['0', spec.code]; }
      assert sign + BasePrefix(spec) == prefix;
      WriteBased(buffer, n, 2, false, spec, prefix);
    } else if spec.code == 'o' {
      if spec.hash { prefix := prefix + ['0']; }
      assert sign + BasePrefix(spec) == prefix;
      WriteBased(buffer, n, 8, false, spec, prefix);
    } else {
      return Err(UnknownType(spec.code));
    }
    r := Ok(());
  }

  /** The digits of the value miss the buffer. */
  predicate Misplaced(size: nat, capacity: nat, value: int, spec: Spec)
    requires BaseOf(spec.code).Some?
  {
    Outgrown(size, capacity, spec, Prefix(value, spec), |Body(value, spec)|)
  }

  /**
    write_int: what the value is written as is appended, unless the digits miss the buffer,
    or the type code is refused and nothing written.
   */
  method WriteInt(buffer: MemoryBuffer, value: int, width: nat, spec: Spec) returns (r: Result<(), FormatError>)
    requires buffer.Valid() && (width == 32 || width == 64) && FitsWord(value, width)
    modifies buffer, buffer.data
    ensures buffer.Valid() && (buffer.data == old(buffer.data) || fresh(buffer.data))
    ensures BaseOf(spec.code).Some? ==>
              && r == Ok(())
              && if Misplaced(old(buffer.size), old(buffer.data.Length), value, spec)
                 then DigitsLost(buffer.Contents(), old(buffer.data[..]), old(buffer.Contents()), spec,
                   Prefix(value, spec), |Body(value, spec)|)
                 else buffer.Contents() == old(buffer.Contents()) + Written(value, spec)
    ensures BaseOf(spec.code).None? ==>
              r == Err(UnknownType(spec.code)) && buffer.Contents() == old(buffer.Contents())
  {
    var n := WordAbsolute(value, width);
    WordAbsoluteIsAbsolute(value, width);
    var sign := "";
    if value < 0 {
      sign := "-";
    } else if spec.sign {
      sign := if spec.plus then "+" else " ";
    }
    assert sign == SignPrefix(value, spec);
    r := WriteByType(buffer, n, width, spec, sign);
  }

  lemma AroundIs(now: string, p: int, digits: nat, lead: string, trail: string)
    requires Around(now, |now|, p, digits, lead, trail)
    ensures now == lead + (now[p + 1 - digits..p + 1] + trail)
  {
    Glued(now, 0, p + 1 - digits, |now|);
    Glued(now, p + 1 - digits, p + 1, |now|);
  }

  /** The text of an outgrown buffer whose memory is known. */
  lemma LostShows(now: string, held: string, before: string, spec: Spec, prefix: string, digits: nat)
    requires NumberFits(|before|, |held|, spec, prefix, digits)
    requires DigitsLost(now, held, before, spec, prefix, digits)
    ensures var lead := before + Before(spec, prefix, digits);
            now == lead + (held[|lead|..|lead| + digits] + After(spec, prefix, digits))
  {
    var lead, trail := before + Before(spec, prefix, digits), After(spec, prefix, digits);
    AroundIs(now, |lead| + digits - 1, digits, lead, trail);
  }

  lemma MiddleTold(a: string, x: string, y: string, c: string)
    requires |x| == |y|
    ensures a + (x + c) == a + (y + c) <==> x == y
  {
    var s, t := a + (x + c), a + (y + c);
    assert s[|a|..|a| + |x|] == x && t[|a|..|a| + |x|] == y;
  }

  /** It holds the layout exactly if the digits were there before. */
  lemma LostUnlessThere(now: string, held: string, before: string, spec: Spec, prefix: string, digits: string)
    requires NumberFits(|before|, |held|, spec, prefix, |digits|)
    requires DigitsLost(now, held, before, spec, prefix, |digits|)
    ensures var from := |before + Before(spec, prefix, |digits|)|;
            now == before + Layout(spec, prefix, digits) <==> held[from..from + |digits|] == digits
  {
    var lead, trail := before + Before(spec, prefix, |digits|), After(spec, prefix, |digits|);
    var there := held[|lead|..|lead| + |digits|];
    assert now == lead + (there + trail) by { LostShows(now, held, before, spec, prefix, |digits|); }
    assert before + Layout(spec, prefix, digits) == lead + (digits + trail) by {
      LaidOut(before, spec, prefix, digits);
    }
    MiddleTold(lead, there, digits, trail);
  }

  const LeftTwo: Spec := Spec(6, ' ', Left, false, false, false, 'd', 2)

  lemma SevenAtFour()
    ensures FitsWord(7, 32) && Prefix(7, LeftTwo) == "" && Body(7, LeftTwo) == "7"
    ensures Before(LeftTwo, "", 1) == "0" && After(LeftTwo, "", 1) == "    "
    ensures Misplaced(4, 8, 7, LeftTwo) && NumberFits(4, 8, LeftTwo, "", 1)
  {
    PowMonotone(2, 4, 32);
    PowPositive(2, 31);
    assert Pow(2, 4) == 16;
    assert Prefix(7, LeftTwo) == "" && Body(7, LeftTwo) == "7";
  }

  lemma SevenLost(now: string, held: string, before: string)
    requires before == "####" && held == Repeat('#', 8) && DigitsLost(now, held, before, LeftTwo, "", 1)
    ensures now == "####0#    "
  {
    SevenAtFour();
    LostShows(now, held, before, LeftTwo, "", 1);
    assert before + "0" == "####0" && held[5..6] + "    " == "#    ";
  }

  /**
    Digits do get lost: the 7 of `%-6.2d` printed after four characters into an array of eight
    is not in the buffer, which shows the character that lay in its place.
   */
  method LosesDigits() returns (text: string)
    ensures text == "####0#    " && Written(7, LeftTwo) == "07    "
  {
    var buffer := new MemoryBuffer(0);
    buffer.data := new char[8](_ => '#');
    buffer.size := 4;
    SevenAtFour();
    ghost var held, before := buffer.data[..], buffer.Contents();
    var r := WriteInt(buffer, 7, 32, LeftTwo);
    text := buffer.data[..buffer.size];
    SevenLost(text, held, before);
  }
}
