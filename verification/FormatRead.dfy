/**
  A reader for formatted integers, defined by itself, and the proof that it gets back from the whole text what
  write_int was given.
 */
module FormatRead {
  import opened Wrappers
  import opened Numerals
  import opened FormatInt
  import opened Sequences

  // ------------------------------------------------------------------ the reader

  predicate Negative(s: string) {
    s != "" && s[0] == '-'
  }

  predicate IsSign(c: char) {
    c == '+' || c == '-' || c == ' '
  }

  function WithoutSign(s: string): string {
    if s != "" && IsSign(s[0]) then s[1..] else s
  }

  predicate Marks(c: char, base: nat) {
    (base == 16 && (c == 'x' || c == 'X')) || (base == 2 && (c == 'b' || c == 'B'))
  }

  /** 0x, 0X, 0b and 0B stand for their base; the 0 of an octal number is one of its digits. */
  function WithoutMark(s: string, base: nat): string {
    if |s| >= 2 && s[0] == '0' && Marks(s[1], base) then s[2..] else s
  }

  /** The base that a reader expects for a type code. */
  function Radix(code: char): nat {
    match code
    case 'x' => 16
    case 'X' => 16
    case 'o' => 8
    case 'b' => 2
    case 'B' => 2
    case _ => 10
  }

  /** The codes that are known, and their bases. */
  lemma CodesKnown(code: char)
    ensures BaseOf(code).Some? <==> code == '\0' || code == 'd' || Radix(code) != 10
    ensures BaseOf(code).Some? ==> BaseOf(code).value == Radix(code)
  {
  }

  ghost function Read(s: string, base: nat): Option<int> {
    ReadDigits(WithoutMark(WithoutSign(s), base), base, Negative(s))
  }

  ghost function ReadDigits(digits: string, base: nat, negative: bool): Option<int> {
    if digits == "" || !DigitsOf(base, digits) then None
    else Some(if negative then 0 - Value(base, digits) else Value(base, digits))
  }

  function Without(s: string, c: char): string {
    if s == "" then "" else (if s[0] == c then "" else [s[0]]) + Without(s[1..], c)
  }

  /** Characters that a number is made of, the blank in place of a sign apart. */
  predicate NumberChar(c: char) {
    DigitValue(c) < 16 || c == '+' || c == '-' || c == 'x' || c == 'X'
  }

  // ------------------------------------------------------------------ the number without its fill

  function Number(value: int, spec: Spec): string
    requires BaseOf(spec.code).Some?
  {
    NumberOf(spec, Prefix(value, spec), Body(value, spec))
  }

  function NumberOf(spec: Spec, prefix: string, body: string): string {
    (if spec.precision > |body| then Kept(prefix) + Zeros(spec, |body|) else prefix) + body
  }

  lemma BodyDigits(value: int, spec: Spec)
    requires BaseOf(spec.code).Some?
    ensures var base, body := BaseOf(spec.code).value, Body(value, spec);
            body != "" && DigitsOf(base, body) && Value(base, body) == Absolute(value)
  {
    ReadBack(BaseOf(spec.code).value, Absolute(value), spec.code == 'X');
  }

  predicate Sign(s: string) {
    |s| <= 1 && (|s| == 1 ==> IsSign(s[0]))
  }

  /** 0x, 0X, 0b or 0B. */
  function Mark(spec: Spec): string {
    if spec.hash && BaseOf(spec.code).Some? && Marks(spec.code, BaseOf(spec.code).value) then ['0', spec.code] else ""
  }

  predicate MarkFits(mark: string, base: nat) {
    mark == "" || (|mark| == 2 && mark[0] == '0' && Marks(mark[1], base))
  }

  lemma PrefixIs(value: int, spec: Spec)
    ensures Sign(SignPrefix(value, spec))
    ensures BaseOf(spec.code).Some? ==>
              && MarkFits(Mark(spec), BaseOf(spec.code).value)
              && Prefix(value, spec) ==
                 SignPrefix(value, spec) + (Mark(spec) + if spec.hash && spec.code == 'o' then "0" else "")
  {
    assert Mark(spec) + "" == Mark(spec) && "" + "0" == "0";
  }

  lemma KeptIs(sign: string, mark: string, octal: string, prefix: string)
    requires Sign(sign) && (octal == "" || octal == "0")
    requires mark == "" || (|mark| == 2 && mark[1] != '0' && octal == "")
    requires prefix == sign + (mark + octal)
    ensures Kept(prefix) == sign + mark
  {
    if octal == "0" {
      assert prefix == sign + "0" && prefix[..|prefix| - 1] == sign == sign + mark;
    } else {
      assert prefix == sign + mark;
    }
  }

  /** Sign, mark and digits, the digits with the zeros of a precision or of an octal number. */
  lemma NumberIs(value: int, spec: Spec) returns (k: nat)
    requires BaseOf(spec.code).Some?
    ensures Number(value, spec) == SignPrefix(value, spec) + (Mark(spec) + (Repeat('0', k) + Body(value, spec)))
  {
    var sign, mark, body := SignPrefix(value, spec), Mark(spec), Body(value, spec);
    var octal := if spec.hash && spec.code == 'o' then "0" else "";
    PrefixIs(value, spec);
    if spec.precision > |body| {
      k := spec.precision - |body|;
      KeptIs(sign, mark, octal, Prefix(value, spec));
      Joined(sign, mark, Repeat('0', k), body);
    } else {
      k := |octal|;
      assert octal == Repeat('0', k);
      Append(sign, mark, octal);
      Joined(sign, mark, octal, body);
    }
  }

  lemma Joined(a: string, b: string, c: string, d: string)
    ensures (a + b) + c + d == a + (b + (c + d))
  {
  }

  // ------------------------------------------------------------------ reading a number

  lemma SignRead(sign: string, rest: string)
    requires Sign(sign) && rest != "" && !IsSign(rest[0])
    ensures WithoutSign(sign + rest) == rest && (Negative(sign + rest) <==> Negative(sign))
  {
    assert sign == "" ==> sign + rest == rest;
  }

  lemma MarkRead(mark: string, digits: string, base: nat)
    requires MarkFits(mark, base) && DigitsOf(base, digits) && base <= 16 && digits != ""
    ensures WithoutMark(mark + digits, base) == digits && !IsSign((mark + digits)[0])
  {
    if mark == "" {
      assert mark + digits == digits;
      assert DigitValue(digits[0]) < 16;
      assert |digits| >= 2 ==> DigitValue(digits[1]) < base;
    }
  }

  lemma ReadParts(sign: string, mark: string, digits: string, base: nat)
    requires Sign(sign) && MarkFits(mark, base) && base <= 16 && digits != "" && DigitsOf(base, digits)
    ensures Read(sign + (mark + digits), base) == ReadDigits(digits, base, Negative(sign))
  {
    MarkRead(mark, digits, base);
    SignRead(sign, mark + digits);
  }

  lemma DigitsRead(value: int, spec: Spec, k: nat)
    requires BaseOf(spec.code).Some?
    ensures var base, digits := BaseOf(spec.code).value, Repeat('0', k) + Body(value, spec);
            digits != "" && DigitsOf(base, digits) && ReadDigits(digits, base, value < 0) == Some(value)
  {
    BodyDigits(value, spec);
    LeadingZeros(BaseOf(spec.code).value, k, Body(value, spec));
  }

  lemma NumberReads(value: int, spec: Spec)
    requires BaseOf(spec.code).Some?
    ensures Read(Number(value, spec), BaseOf(spec.code).value) == Some(value)
  {
    var k := NumberIs(value, spec);
    ReadsAs(value, spec, Number(value, spec), k);
  }

  /** However many zeros the digits have in front. */
  lemma ReadsAs(value: int, spec: Spec, text: string, k: nat)
    requires BaseOf(spec.code).Some?
    requires text == SignPrefix(value, spec) + (Mark(spec) + (Repeat('0', k) + Body(value, spec)))
    ensures Read(text, BaseOf(spec.code).value) == Some(value)
  {
    DigitsRead(value, spec, k);
    PrefixIs(value, spec);
    SignIs(value, spec);
    ReadParts(SignPrefix(value, spec), Mark(spec), Repeat('0', k) + Body(value, spec), BaseOf(spec.code).value);
  }

  lemma SignIs(value: int, spec: Spec)
    ensures var sign := SignPrefix(value, spec);
            && Sign(sign)
            && (Negative(sign) <==> value < 0)
            && (sign != "" && sign[0] == '+' <==> value >= 0 && spec.sign && spec.plus)
            && (sign != "" && sign[0] == ' ' <==> value >= 0 && spec.sign && !spec.plus)
  {
  }

  /**
    What the first character of a number tells: '-' that it is negative, '+' or ' ' that it is not and which flags
    were given, a digit anything else.
   */
  lemma FirstCharacter(value: int, spec: Spec)
    requires BaseOf(spec.code).Some?
    ensures var number := Number(value, spec);
            && number != ""
            && (number[0] == '-' <==> value < 0)
            && (number[0] == '+' <==> value >= 0 && spec.sign && spec.plus)
            && (number[0] == ' ' <==> value >= 0 && spec.sign && !spec.plus)
  {
    var k := NumberIs(value, spec);
    SignIs(value, spec);
    var rest := Mark(spec) + (Repeat('0', k) + Body(value, spec));
    assert rest != "" && !IsSign(rest[0]) by {
      DigitsRead(value, spec, k);
      PrefixIs(value, spec);
      MarkRead(Mark(spec), Repeat('0', k) + Body(value, spec), BaseOf(spec.code).value);
    }
    FirstOf(SignPrefix(value, spec), rest);
  }

  lemma FirstOf(sign: string, rest: string)
    requires Sign(sign) && rest != "" && !IsSign(rest[0])
    ensures IsSign((sign + rest)[0]) <==> sign != ""
    ensures sign != "" ==> (sign + rest)[0] == sign[0]
  {
  }

  /** With the hash flag a number shows its base: 0x, 0X, 0b or 0B as the code says, and a leading 0 in octal. */
  lemma BaseShows(value: int, spec: Spec)
    requires BaseOf(spec.code).Some? && spec.hash
    ensures var rest := WithoutSign(Number(value, spec));
            && (spec.code == 'x' || spec.code == 'X' || spec.code == 'b' || spec.code == 'B' ==>
                  |rest| > 2 && rest[..2] == ['0', spec.code])
            && (spec.code == 'o' ==> |rest| > 1 && rest[0] == '0')
  {
    var sign, body := SignPrefix(value, spec), Body(value, spec);
    var k := NumberIs(value, spec);
    DigitsRead(value, spec, k);
    PrefixIs(value, spec);
    MarkRead(Mark(spec), Repeat('0', k) + body, BaseOf(spec.code).value);
    SignRead(sign, Mark(spec) + (Repeat('0', k) + body));
    if spec.code == 'o' { OctalZero(value, spec); }
  }

  lemma OctalZero(value: int, spec: Spec)
    requires spec.code == 'o' && spec.hash
    ensures var rest := WithoutSign(Number(value, spec)); |rest| > 1 && rest[0] == '0'
  {
    var sign, body := SignPrefix(value, spec), Body(value, spec);
    BodyDigits(value, spec);
    PrefixIs(value, spec);
    assert Prefix(value, spec) == sign + "0";
    if spec.precision > |body| {
      KeptIs(sign, "", "0", Prefix(value, spec));
      Nothing(sign);
      Append(sign, Zeros(spec, |body|), body);
      SignRead(sign, Zeros(spec, |body|) + body);
    } else {
      Append(sign, "0", body);
      SignRead(sign, "0" + body);
    }
  }

  /** Digits above nine are capital letters for the code X and small ones for all other codes. */
  lemma {:induction false} LetterCase(base: nat, n: nat, upper: bool)
    requires 2 <= base <= 16
    ensures forall i :: 0 <= i < |Numeral(base, n, upper)| ==>
              var c := Numeral(base, n, upper)[i];
              '0' <= c <= '9' || (if upper then 'A' <= c <= 'F' else 'a' <= c <= 'f')
    decreases n
  {
    if n < base {
    } else {
      LetterCase(base, Numerals.Shorter(base, n), upper);
    }
  }

  lemma CodeGivesCase(value: int, spec: Spec)
    requires BaseOf(spec.code).Some?
    ensures forall i :: 0 <= i < |Body(value, spec)| ==>
              var c := Body(value, spec)[i];
              '0' <= c <= '9' || (if spec.code == 'X' then 'A' <= c <= 'F' else 'a' <= c <= 'f')
  {
    LetterCase(BaseOf(spec.code).value, Absolute(value), spec.code == 'X');
  }

  // ------------------------------------------------------------------ taking the fill away

  lemma {:induction false} WithoutBoth(a: string, b: string, c: char)
    ensures Without(a + b, c) == Without(a, c) + Without(b, c)
  {
    if a == "" {
      assert a + b == b;
    } else {
      WithoutBoth(a[1..], b, c);
      assert (a + b)[1..] == a[1..] + b;
      Append(if a[0] == c then "" else [a[0]], Without(a[1..], c), Without(b, c));
    }
  }

  lemma {:induction false} WithoutFill(c: char, n: nat)
    ensures Without(Repeat(c, n), c) == ""
  {
    if n == 0 {
    } else {
      WithoutFill(c, n - 1);
      assert Repeat(c, n)[1..] == Repeat(c, n - 1);
    }
  }

  lemma {:induction false} WithoutNone(s: string, c: char)
    requires c !in s
    ensures Without(s, c) == s
  {
    if s == "" {
    } else {
      WithoutNone(s[1..], c);
    }
  }

  /** Fill in front or behind, or between prefix and digits. */
  lemma FilledAround(a: nat, number: string, b: nat, c: char)
    ensures Without(Repeat(c, a) + number + Repeat(c, b), c) == Without(number, c)
  {
    WithoutBoth(Repeat(c, a) + number, Repeat(c, b), c);
    WithoutBoth(Repeat(c, a), number, c);
    WithoutFill(c, a);
    WithoutFill(c, b);
  }

  lemma FilledBetween(prefix: string, n: nat, body: string, c: char)
    ensures Without(prefix + Repeat(c, n) + body, c) == Without(prefix + body, c)
  {
    WithoutBoth(prefix + Repeat(c, n), body, c);
    WithoutBoth(prefix, Repeat(c, n), c);
    WithoutBoth(prefix, body, c);
    WithoutFill(c, n);
  }

  /** How much of the fill stands in front of the number. */
  function FrontFill(spec: Spec, fill: nat, digits: nat): (front: nat)
    ensures front <= fill
  {
    match spec.align
    case Left => 0
    case Center => if spec.precision > digits then fill else fill / 2
    case _ => fill
  }

  /**
    Where the alignments put the fill: behind the number, in front of it, as much in front as behind up to one
    more behind, or between prefix and digits.  With a precision only the left alignment puts it behind.
   */
  lemma FillPlaced(spec: Spec, prefix: string, body: string)
    ensures var fill := Padding(spec, |NumberOf(spec, prefix, body)|); var front := FrontFill(spec, fill, |body|);
            Layout(spec, prefix, body) ==
            if spec.align == Numeric && spec.precision <= |body| then prefix + Repeat(spec.fill, fill) + body
            else Repeat(spec.fill, front) + NumberOf(spec, prefix, body) + Repeat(spec.fill, fill - front)
  {
    if spec.precision > |body| {
      PrecisePlaced(spec, prefix, body, Kept(prefix) + Zeros(spec, |body|));
    } else {
      PlainPlaced(spec, prefix, body);
    }
  }

  /** With a precision: zeros and what is left of the prefix belong to the number. */
  lemma PrecisePlaced(spec: Spec, prefix: string, body: string, lead: string)
    requires spec.precision > |body| && lead == Kept(prefix) + Zeros(spec, |body|)
    ensures var fill := Padding(spec, |lead + body|);
            Layout(spec, prefix, body) ==
            if spec.align == Left then Repeat(spec.fill, 0) + (lead + body) + Repeat(spec.fill, fill)
            else Repeat(spec.fill, fill) + (lead + body) + Repeat(spec.fill, 0)
  {
    var fill := Padding(spec, |lead + body|);
    assert fill == Padding(spec, NumberSize(spec, prefix, |body|));
    Surrounded(if spec.align == Left then "" else Repeat(spec.fill, fill), lead, body,
      if spec.align == Left then Repeat(spec.fill, fill) else "");
    assert Repeat(spec.fill, 0) == "";
  }

  lemma PlainPlaced(spec: Spec, prefix: string, body: string)
    requires spec.precision <= |body|
    ensures var fill := Padding(spec, |prefix + body|);
            Layout(spec, prefix, body) ==
            match spec.align
            case Numeric => prefix + Repeat(spec.fill, fill) + body
            case Left => Repeat(spec.fill, 0) + (prefix + body) + Repeat(spec.fill, fill)
            case Center => Repeat(spec.fill, fill / 2) + (prefix + body) + Repeat(spec.fill, fill - fill / 2)
            case _ => Repeat(spec.fill, fill) + (prefix + body) + Repeat(spec.fill, 0)
  {
    var fill := Padding(spec, |prefix + body|);
    assert Repeat(spec.fill, 0) == "";
    match spec.align
    case Numeric => Nothing(prefix + Repeat(spec.fill, fill) + body);
    case Left => Surrounded("", prefix, body, Repeat(spec.fill, fill)); Nothing(prefix);
    case Center => Surrounded(Repeat(spec.fill, fill / 2), prefix, body, Repeat(spec.fill, fill - fill / 2));
    case _ => Surrounded(Repeat(spec.fill, fill), prefix, body, "");
  }

  lemma Surrounded(a: string, b: string, c: string, d: string)
    ensures (a + b) + c + d == a + (b + c) + d
  {
  }

  lemma WithoutFillIs(value: int, spec: Spec)
    requires BaseOf(spec.code).Some?
    ensures Without(Written(value, spec), spec.fill) == Without(Number(value, spec), spec.fill)
  {
    var prefix, body := Prefix(value, spec), Body(value, spec);
    FillPlaced(spec, prefix, body);
    var fill := Padding(spec, |NumberOf(spec, prefix, body)|);
    var front := FrontFill(spec, fill, |body|);
    if spec.align == Numeric && spec.precision <= |body| {
      FilledBetween(prefix, fill, body, spec.fill);
    } else {
      FilledAround(front, Number(value, spec), fill - front, spec.fill);
    }
  }

  // ------------------------------------------------------------------ reading the whole text

  lemma WithoutHas(s: string, c: char)
    requires forall i :: 0 <= i < |s| ==> s[i] != c
    ensures Without(s, c) == s
  {
    WithoutNone(s, c);
  }

  lemma DigitsWithout(digits: string, base: nat, c: char)
    requires DigitsOf(base, digits) && base <= 16 && !NumberChar(c)
    ensures Without(digits, c) == digits
  {
    forall i | 0 <= i < |digits| ensures digits[i] != c {
      assert DigitValue(digits[i]) < base;
    }
    WithoutHas(digits, c);
  }

  lemma MarkWithout(mark: string, base: nat, c: char)
    requires MarkFits(mark, base) && !NumberChar(c)
    ensures Without(mark, c) == mark
  {
    WithoutHas(mark, c);
  }

  lemma SignWithout(sign: string, c: char)
    requires Sign(sign) && !NumberChar(c)
    ensures Without(sign, c) == sign || (sign == " " && Without(sign, c) == "")
  {
    if sign == [c] {
      assert sign[1..] == "";
    } else {
      WithoutHas(sign, c);
    }
  }

  /**
    Reading undoes writing: for every value, type code, width, precision, alignment and flags, and every fill
    character that is not one of a number, the text without its fill reads as the value.
   */
  lemma TextReadsBack(value: int, spec: Spec)
    requires BaseOf(spec.code).Some? && !NumberChar(spec.fill)
    ensures Read(Without(Written(value, spec), spec.fill), Radix(spec.code)) == Some(value)
  {
    CodesKnown(spec.code);
    var base, c := BaseOf(spec.code).value, spec.fill;
    var sign, mark := SignPrefix(value, spec), Mark(spec);
    var k := NumberIs(value, spec);
    var digits := Repeat('0', k) + Body(value, spec);
    WithoutFillIs(value, spec);
    DigitsRead(value, spec, k);
    PrefixIs(value, spec);
    SignIs(value, spec);
    WithoutBoth(sign, mark + digits, c);
    WithoutBoth(mark, digits, c);
    DigitsWithout(digits, base, c);
    MarkWithout(mark, base, c);
    SignWithout(sign, c);
    ReadParts(Without(sign, c), mark, digits, base);
  }

  lemma ZerosJoined(sign: string, mark: string, octal: nat, fill: nat, prefix: string, body: string)
    requires prefix == sign + (mark + Repeat('0', octal))
    ensures prefix + Repeat('0', fill) + body == sign + (mark + (Repeat('0', octal + fill) + body))
  {
    assert Repeat('0', octal) + Repeat('0', fill) == Repeat('0', octal + fill);
  }

  lemma NumericZeros(value: int, spec: Spec) returns (k: nat)
    requires BaseOf(spec.code).Some? && spec.fill == '0' && spec.align == Numeric
    requires spec.precision <= |Body(value, spec)|
    ensures Written(value, spec) == SignPrefix(value, spec) + (Mark(spec) + (Repeat('0', k) + Body(value, spec)))
  {
    var prefix, body := Prefix(value, spec), Body(value, spec);
    var fill := Padding(spec, |NumberOf(spec, prefix, body)|);
    var octal := OctalDigits(spec);
    k := octal + fill;
    PrefixZeros(value, spec);
    ZerosJoined(SignPrefix(value, spec), Mark(spec), octal, fill, prefix, body);
    NumericText(spec, prefix, body, fill);
  }

  lemma NumericText(spec: Spec, prefix: string, body: string, fill: nat)
    requires spec.fill == '0' && spec.align == Numeric && spec.precision <= |body|
    requires fill == Padding(spec, |NumberOf(spec, prefix, body)|)
    ensures Layout(spec, prefix, body) == prefix + Repeat('0', fill) + body
  {
    FillPlaced(spec, prefix, body);
  }

  function OctalDigits(spec: Spec): nat {
    if spec.hash && spec.code == 'o' then 1 else 0
  }

  lemma PrefixZeros(value: int, spec: Spec)
    requires BaseOf(spec.code).Some?
    ensures Prefix(value, spec) == SignPrefix(value, spec) + (Mark(spec) + Repeat('0', OctalDigits(spec)))
  {
    PrefixIs(value, spec);
    assert Repeat('0', OctalDigits(spec)) == if spec.hash && spec.code == 'o' then "0" else "";
  }

  /** Filling with zeros by numeric alignment keeps the number readable as it stands. */
  lemma ZeroFillReadsBack(value: int, spec: Spec)
    requires BaseOf(spec.code).Some? && spec.fill == '0' && spec.align == Numeric
    requires spec.precision <= |Body(value, spec)|
    ensures Read(Written(value, spec), Radix(spec.code)) == Some(value)
  {
    CodesKnown(spec.code);
    var k := NumericZeros(value, spec);
    ReadsAs(value, spec, Written(value, spec), k);
  }

  /** Zeros in front of a sign or a mark make the text unreadable. */
  lemma BuriedUnreadable(f: nat, sign: string, mark: string, digits: string, base: nat)
    requires f > 0 && Sign(sign) && MarkFits(mark, base) && base <= 16 && (sign != "" || mark != "")
    ensures Read(Repeat('0', f) + (sign + (mark + digits)), base) == None
  {
    var text := Repeat('0', f) + (sign + (mark + digits));
    assert text[0] == '0';
    if sign != "" {
      assert text[f] == sign[0];
      assert WithoutMark(text, base) == text;
      assert DigitValue(text[f]) >= base;
    } else {
      assert text[f] == mark[0] == '0' && text[f + 1] == mark[1];
      assert WithoutMark(text, base) == text;
      assert DigitValue(text[f + 1]) >= base;
    }
  }

  lemma FrontZeros(value: int, spec: Spec, f: nat)
    requires BaseOf(spec.code).Some? && spec.fill == '0' && (spec.align == Right || spec.align == Default)
    requires f == Padding(spec, |Number(value, spec)|)
    ensures Written(value, spec) == Repeat('0', f) + Number(value, spec)
  {
    FillPlaced(spec, Prefix(value, spec), Body(value, spec));
    assert Repeat('0', 0) == "";
    Nothing(Repeat('0', f) + Number(value, spec));
  }

  lemma OnlyZeros(f: nat, k: nat, body: string)
    ensures Repeat('0', f) + ("" + ("" + (Repeat('0', k) + body))) == "" + ("" + (Repeat('0', f + k) + body))
  {
    assert Repeat('0', f) + Repeat('0', k) == Repeat('0', f + k);
  }

  /**
    Filling with zeros by the default or right alignment keeps the number readable as it stands exactly if there is
    nothing to fill, or neither sign nor mark.
   */
  lemma ZeroFrontReadsIff(value: int, spec: Spec)
    requires BaseOf(spec.code).Some? && spec.fill == '0' && (spec.align == Right || spec.align == Default)
    ensures Read(Written(value, spec), Radix(spec.code)) == Some(value) <==>
            spec.width <= |Number(value, spec)| || (SignPrefix(value, spec) == "" && Mark(spec) == "")
  {
    CodesKnown(spec.code);
    var sign, mark, body := SignPrefix(value, spec), Mark(spec), Body(value, spec);
    var f := Padding(spec, |Number(value, spec)|);
    FrontZeros(value, spec, f);
    var k := NumberIs(value, spec);
    if f == 0 {
      NumberReads(value, spec);
      assert Repeat('0', 0) == "";
      Nothing(Number(value, spec));
    } else if sign == "" && mark == "" {
      OnlyZeros(f, k, body);
      ReadsAs(value, spec, Written(value, spec), f + k);
    } else {
      PrefixIs(value, spec);
      BuriedUnreadable(f, sign, mark, Repeat('0', k) + body, BaseOf(spec.code).value);
    }
  }
}
