/** What the flags of a pattern tell about the message, and how they relate to each other. */
module PatternFlags {
  import opened Wrappers
  import opened Numerals
  import opened FormatInt
  import opened FormatRead
  import opened Sequences
  import opened Pattern

  /** text gives the flags their values, numbers written by pad. */
  ghost predicate Means(m: Msg, t: Tm, pad: Padding, text: char -> string) {
    forall c :: text(c) == FlagText(c, m, t, pad)
  }

  lemma MeaningMeans(m: Msg, t: Tm)
    ensures Means(m, t, Pad, Meaning(m, t))
  {
  }

  lemma InterpretEnd(flag: char, text: char -> string)
    requires Known(flag)
    ensures Interpret(['%', flag], text) == text(flag)
  {
    InterpretPiece("", flag, "", text);
    assert Piece("", flag, "") == ['%', flag];
    assert "" + text(flag) + "" == text(flag);
  }

  // ------------------------------------------------------------------ padded numbers

  function PadSpec(width: nat): Spec {
    Spec(width, '0', Default, false, false, false, '\0')
  }

  lemma PadNumber(v: int, width: nat)
    ensures Pad(v, width) == Written(v, PadSpec(width))
    ensures Number(v, PadSpec(width)) == (if v < 0 then "-" else "") + Decimal(Absolute(v))
    ensures SignPrefix(v, PadSpec(width)) == (if v < 0 then "-" else "") && Mark(PadSpec(width)) == ""
  {
    Nothing(SignPrefix(v, PadSpec(width)));
  }

  /** A padded number reads back exactly if it is not negative, or as long as the width without padding. */
  lemma PadReadsIff(v: int, width: nat)
    ensures Read(Pad(v, width), 10) == Some(v) <==> v >= 0 || width <= 1 + |Decimal(Absolute(v))|
  {
    PadNumber(v, width);
    ZeroFrontReadsIff(v, PadSpec(width));
  }

  /** Numbers that fit fill the width exactly. */
  lemma PadLength(v: nat, width: nat)
    requires width > 0 && v < Pow(10, width)
    ensures |Pad(v, width)| == width
  {
    PadOf(v, width);
    LengthBounds(10, v);
    if Length(10, v) > width { PowMonotone(10, width, Length(10, v) - 1); }
  }

  /** The text is v in decimal, with zeros in front up to the width. */
  ghost predicate Reads(s: string, v: int, width: nat) {
    Read(s, 10) == Some(v) && |s| == width
  }

  lemma PadReads(v: nat, width: nat)
    requires width > 0 && v < Pow(10, width)
    ensures Reads(Pad(v, width), v, width)
  {
    PadReadsIff(v, width);
    PadLength(v, width);
  }

  lemma Powers()
    ensures Pow(10, 1) == 10 && Pow(10, 2) == 100 && Pow(10, 3) == 1000 && Pow(10, 6) == 1_000_000
    ensures Pow(10, 9) == 1_000_000_000
  {
    assert Pow(10, 4) == 10_000 && Pow(10, 5) == 100_000;
    assert Pow(10, 7) == 10_000_000 && Pow(10, 8) == 100_000_000;
  }

  // ------------------------------------------------------------------ date and time

  predicate ClockTexts(t: Tm, pad: Padding, text: char -> string) {
    && text('m') == pad(t.mon + 1, 2) && text('d') == pad(t.mday, 2) && text('H') == pad(t.hour, 2)
    && text('M') == pad(t.min, 2) && text('S') == pad(t.sec, 2)
  }

  lemma ClockMeans(m: Msg, t: Tm, pad: Padding, text: char -> string)
    requires Means(m, t, pad, text)
    ensures ClockTexts(t, pad, text)
  {
  }

  lemma DateTextsRead(t: Tm, text: char -> string)
    requires ValidTm(t) && ClockTexts(t, Pad, text)
    ensures Reads(Interpret("%m", text), t.mon + 1, 2) && Reads(Interpret("%d", text), t.mday, 2)
  {
    Powers();
    PadReads(t.mon + 1, 2);
    PadReads(t.mday, 2);
    InterpretEnd('m', text);
    InterpretEnd('d', text);
  }

  lemma ClockTextsRead(t: Tm, text: char -> string)
    requires ValidTm(t) && ClockTexts(t, Pad, text)
    ensures Reads(Interpret("%H", text), t.hour, 2) && Reads(Interpret("%M", text), t.min, 2)
    ensures Reads(Interpret("%S", text), t.sec, 2)
  {
    Powers();
    PadReads(t.hour, 2);
    PadReads(t.min, 2);
    PadReads(t.sec, 2);
    InterpretEnd('H', text);
    InterpretEnd('M', text);
    InterpretEnd('S', text);
  }

  /** Month, day, hour, minute and second are two digits that read back. */
  lemma ClockReads(m: Msg, t: Tm)
    requires ValidTm(t)
    ensures var text := Meaning(m, t);
            && Reads(Interpret("%m", text), t.mon + 1, 2) && Reads(Interpret("%d", text), t.mday, 2)
            && Reads(Interpret("%H", text), t.hour, 2) && Reads(Interpret("%M", text), t.min, 2)
            && Reads(Interpret("%S", text), t.sec, 2)
  {
    MeaningMeans(m, t);
    ClockMeans(m, t, Pad, Meaning(m, t));
    DateTextsRead(t, Meaning(m, t));
    ClockTextsRead(t, Meaning(m, t));
  }

  lemma DecimalReads(n: nat)
    ensures Read(Decimal(n), 10) == Some(n)
  {
    PadNumber(n, 0);
    NumberReads(n, PadSpec(0));
    Nothing(Decimal(n));
  }

  predicate NumberTexts(m: Msg, t: Tm, pad: Padding, text: char -> string) {
    text('Y') == pad(t.year + 1900, 0) && text('t') == Decimal(m.threadId) && text('C') == pad(Rest(t.year, 100), 2)
  }

  lemma NumbersMean(m: Msg, t: Tm, pad: Padding, text: char -> string)
    requires Means(m, t, pad, text)
    ensures NumberTexts(m, t, pad, text)
  {
  }

  lemma CenturyReads(year: nat)
    ensures Reads(Pad(Rest(year, 100), 2), (year + 1900) % 100, 2)
  {
    Powers();
    PadReads(year % 100, 2);
    assert (year + 1900) % 100 == year % 100;
  }

  lemma NumberTextsRead(m: Msg, t: Tm, text: char -> string)
    requires NumberTexts(m, t, Pad, text)
    ensures Read(Interpret("%Y", text), 10) == Some(t.year + 1900)
    ensures Read(Interpret("%t", text), 10) == Some(m.threadId)
    ensures t.year >= 0 ==> Reads(Interpret("%C", text), (t.year + 1900) % 100, 2)
  {
    PadReadsIff(t.year + 1900, 0);
    DecimalReads(m.threadId);
    if t.year >= 0 { CenturyReads(t.year); }
    InterpretEnd('Y', text);
    InterpretEnd('t', text);
    InterpretEnd('C', text);
  }

  /** The year and the thread read back; %C is the year within its century, from 1900 on. */
  lemma NumbersRead(m: Msg, t: Tm)
    ensures var text := Meaning(m, t);
            && Read(Interpret("%Y", text), 10) == Some(t.year + 1900)
            && Read(Interpret("%t", text), 10) == Some(m.threadId)
            && (t.year >= 0 ==> Reads(Interpret("%C", text), (t.year + 1900) % 100, 2))
  {
    MeaningMeans(m, t);
    NumbersMean(m, t, Pad, Meaning(m, t));
    NumberTextsRead(m, t, Meaning(m, t));
  }

  predicate HalfDayTexts(t: Tm, pad: Padding, text: char -> string) {
    text('I') == pad(To12h(t), 2) && text('p') == AmPm(t)
  }

  lemma HalfDayMeans(m: Msg, t: Tm, pad: Padding, text: char -> string)
    requires Means(m, t, pad, text)
    ensures HalfDayTexts(t, pad, text)
  {
  }

  /** A time of day in twelve hours; noon is 12, and midnight is 0. */
  ghost predicate HalfDay(hour: int, twelve: string, half: string) {
    (half == "AM" || half == "PM")
    && exists h :: Reads(twelve, h, 2) && HourOf(h, half) == Some(hour)
  }

  function HourOf(h: int, half: string): Option<int> {
    if half == "AM" && 0 <= h < 12 then Some(h)
    else if half == "PM" && h == 12 then Some(12)
    else if half == "PM" && 0 < h < 12 then Some(h + 12)
    else None
  }

  lemma HalfDayTextsRead(t: Tm, text: char -> string)
    requires ValidTm(t) && HalfDayTexts(t, Pad, text)
    ensures HalfDay(t.hour, Interpret("%I", text), Interpret("%p", text))
  {
    Powers();
    PadReads(To12h(t), 2);
    InterpretEnd('I', text);
    InterpretEnd('p', text);
    HalfDayOf(t, Pad(To12h(t), 2), AmPm(t));
  }

  lemma HalfDayOf(t: Tm, twelve: string, half: string)
    requires ValidTm(t) && Reads(twelve, To12h(t), 2) && half == AmPm(t)
    ensures HalfDay(t.hour, twelve, half)
  {
    assert "AM"[0] == 'A' && "PM"[0] == 'P';
  }

  /** %I and %p together give the hour. */
  lemma HalfDayReads(m: Msg, t: Tm)
    requires ValidTm(t)
    ensures HalfDay(t.hour, Interpret("%I", Meaning(m, t)), Interpret("%p", Meaning(m, t)))
  {
    MeaningMeans(m, t);
    HalfDayMeans(m, t, Pad, Meaning(m, t));
    HalfDayTextsRead(t, Meaning(m, t));
  }

  // ------------------------------------------------------------------ fractions of a second

  /** One digit less. */
  lemma PadDrops(v: nat, width: nat)
    requires width > 0 && v < Pow(10, width + 1)
    ensures |Pad(v, width + 1)| == width + 1 && Pad(v, width + 1)[..width] == Pad(v / 10, width)
  {
    assert v / 10 < Pow(10, width);
    PadLength(v, width + 1);
    PadLength(v / 10, width);
    PadOf(v, width + 1);
    PadOf(v / 10, width);
    if v >= 10 {
      assert Decimal(v) == Decimal(Shorter(10, v)) + [DigitChar(Last(10, v), false)];
      assert Shorter(10, v) == v / 10;
    } else {
      assert Decimal(0) == "0" && Decimal(v) == [DigitChar(v, false)];
      assert Repeat('0', width - 1) + "0" == Repeat('0', width);
    }
  }

  lemma PadDropsThree(v: nat, width: nat)
    requires width > 0 && v < Pow(10, width + 3)
    ensures |Pad(v, width + 3)| == width + 3 && Pad(v, width + 3)[..width] == Pad(v / 1000, width)
  {
    PadDrops(v, width + 2);
    assert v / 10 < Pow(10, width + 2);
    PadDrops(v / 10, width + 1);
    assert v / 10 / 10 < Pow(10, width + 1);
    PadDrops(v / 10 / 10, width);
    assert v / 10 / 10 / 10 == v / 1000;
    var s := Pad(v, width + 3);
    assert s[..width] == s[..width + 2][..width + 1][..width];
  }

  lemma FractionsOf(time: nat)
    ensures var ns := time % 1_000_000_000;
            && ns / 1000 == time / 1000 % 1_000_000
            && ns / 1000 / 1000 == time / 1_000_000 % 1000
  {
    var q, ns := time / 1_000_000_000, time % 1_000_000_000;
    assert time == q * 1_000_000_000 + ns;
    assert time / 1000 == q * 1_000_000 + ns / 1000;
    assert time / 1_000_000 == q * 1000 + ns / 1_000_000;
    assert ns / 1000 / 1000 == ns / 1_000_000;
  }

  predicate FractionTexts(m: Msg, pad: Padding, text: char -> string) {
    && text('e') == pad(Rest(Quotient(m.time, 1_000_000), 1000), 3)
    && text('f') == pad(Rest(Quotient(m.time, 1000), 1_000_000), 6)
    && text('F') == pad(Rest(m.time, 1_000_000_000), 9)
  }

  lemma FractionsMean(m: Msg, t: Tm, pad: Padding, text: char -> string)
    requires Means(m, t, pad, text)
    ensures FractionTexts(m, pad, text)
  {
  }

  ghost predicate FractionsTell(time: nat, ns: string, us: string, ms: string) {
    && Reads(ns, time % 1_000_000_000, 9)
    && Reads(us, time / 1000 % 1_000_000, 6) && ns[..6] == us
    && Reads(ms, time / 1_000_000 % 1000, 3) && us[..3] == ms
  }

  lemma PaddedFractions(time: nat)
    ensures FractionsTell(time, Pad(time % 1_000_000_000, 9), Pad(time / 1000 % 1_000_000, 6),
                          Pad(time / 1_000_000 % 1000, 3))
  {
    Powers();
    FractionsOf(time);
    var ns := time % 1_000_000_000;
    PadReads(ns, 9);
    PadReads(ns / 1000, 6);
    PadReads(ns / 1000 / 1000, 3);
    PadDropsThree(ns, 6);
    PadDropsThree(ns / 1000, 3);
  }

  lemma FractionTextsTell(m: Msg, text: char -> string)
    requires m.time >= 0 && FractionTexts(m, Pad, text)
    ensures FractionsTell(m.time, Interpret("%F", text), Interpret("%f", text), Interpret("%e", text))
  {
    PaddedFractions(m.time);
    InterpretEnd('F', text);
    InterpretEnd('f', text);
    InterpretEnd('e', text);
  }

  /**
    From the epoch on, nanoseconds, microseconds and milliseconds are nine, six and three digits that read back, and
    each is the beginning of the one before.
   */
  lemma FractionsRead(m: Msg, t: Tm)
    requires m.time >= 0
    ensures var text := Meaning(m, t);
            FractionsTell(m.time, Interpret("%F", text), Interpret("%f", text), Interpret("%e", text))
  {
    MeaningMeans(m, t);
    FractionsMean(m, t, Pad, Meaning(m, t));
    FractionTextsTell(m, Meaning(m, t));
  }

  // ------------------------------------------------------------------ flags that stand for patterns

  lemma InterpretNext(flag: char, sep: char, rest: string, text: char -> string)
    requires Known(flag) && sep != '%'
    ensures Interpret(['%', flag, sep] + rest, text) == text(flag) + [sep] + Interpret(rest, text)
  {
    InterpretPiece("", flag, [sep] + rest, text);
    assert Piece("", flag, [sep] + rest) == ['%', flag, sep] + rest;
    assert ([sep] + rest)[1..] == rest;
    assert "" + text(flag) + ([sep] + Interpret(rest, text)) == text(flag) + [sep] + Interpret(rest, text);
  }

  lemma Interpret2(a: char, b: char, sep: char, text: char -> string)
    requires Known(a) && Known(b) && sep != '%'
    ensures Interpret(['%', a, sep, '%', b], text) == text(a) + [sep] + text(b)
  {
    InterpretEnd(b, text);
    InterpretNext(a, sep, ['%', b], text);
    assert ['%', a, sep] + ['%', b] == ['%', a, sep, '%', b];
  }

  lemma Interpret3(a: char, b: char, c: char, sep: char, text: char -> string)
    requires Known(a) && Known(b) && Known(c) && sep != '%'
    ensures Interpret(['%', a, sep, '%', b, sep, '%', c], text) == text(a) + [sep] + text(b) + [sep] + text(c)
  {
    Interpret2(b, c, sep, text);
    InterpretNext(a, sep, ['%', b, sep, '%', c], text);
    assert ['%', a, sep] + ['%', b, sep, '%', c] == ['%', a, sep, '%', b, sep, '%', c];
    Separated(text(a), text(b), text(c), [sep]);
  }

  lemma Separated(a: string, b: string, c: string, sep: string)
    ensures a + sep + (b + sep + c) == a + sep + b + sep + c
  {
  }

  predicate TimeTexts(text: char -> string) {
    && text('T') == text('H') + [':'] + text('M') + [':'] + text('S') && text('X') == text('T')
    && text('R') == text('H') + [':'] + text('M')
  }

  lemma TimesMean(m: Msg, t: Tm, pad: Padding, text: char -> string)
    requires Means(m, t, pad, text)
    ensures TimeTexts(text)
  {
  }

  predicate DateTexts(text: char -> string) {
    && text('D') == text('m') + ['/'] + text('d') + ['/'] + text('C') && text('x') == text('D')
    && text('h') == text('b')
  }

  lemma DatesMean(m: Msg, t: Tm, pad: Padding, text: char -> string)
    requires Means(m, t, pad, text)
    ensures DateTexts(text)
  {
  }

  predicate TwelveTexts(text: char -> string) {
    text('r') == text('I') + [':'] + text('M') + [':'] + text('S') + " " + text('p')
  }

  lemma TwelveMeans(m: Msg, t: Tm, pad: Padding, text: char -> string)
    requires Means(m, t, pad, text)
    ensures TwelveTexts(text)
  {
  }

  ghost predicate SameMeaning(a: string, b: string, text: char -> string) {
    Interpret(a, text) == Interpret(b, text)
  }

  lemma TimeForms(text: char -> string)
    requires TimeTexts(text)
    ensures SameMeaning("%T", "%H:%M:%S", text) && SameMeaning("%X", "%H:%M:%S", text)
    ensures SameMeaning("%R", "%H:%M", text)
  {
    InterpretEnd('T', text);
    InterpretEnd('X', text);
    InterpretEnd('R', text);
    Interpret3('H', 'M', 'S', ':', text);
    Interpret2('H', 'M', ':', text);
  }

  lemma DateForms(text: char -> string)
    requires DateTexts(text)
    ensures SameMeaning("%D", "%m/%d/%C", text) && SameMeaning("%x", "%m/%d/%C", text)
  {
    InterpretEnd('D', text);
    InterpretEnd('x', text);
    Interpret3('m', 'd', 'C', '/', text);
  }

  lemma MonthForms(text: char -> string)
    requires DateTexts(text)
    ensures SameMeaning("%h", "%b", text)
  {
    InterpretEnd('h', text);
    InterpretEnd('b', text);
  }

  function TwelvePattern(): string {
    Piece("", 'I', Piece(":", 'M', Piece(":", 'S', Piece(" ", 'p', ""))))
  }

  lemma TwelvePatternText()
    ensures TwelvePattern() == "%I:%M:%S %p"
  {
  }

  lemma TwelveForm(text: char -> string)
    requires TwelveTexts(text)
    ensures SameMeaning("%r", TwelvePattern(), text)
  {
    InterpretEnd('r', text);
    InterpretPiece(" ", 'p', "", text);
    InterpretPiece(":", 'S', Piece(" ", 'p', ""), text);
    InterpretPiece(":", 'M', Piece(":", 'S', Piece(" ", 'p', "")), text);
    InterpretPiece("", 'I', Piece(":", 'M', Piece(":", 'S', Piece(" ", 'p', ""))), text);
    TwelveJoined(text('I'), text('M'), text('S'), text('p'));
  }

  lemma TwelveJoined(i: string, m: string, s: string, p: string)
    ensures Then("", i, Then(":", m, Then(":", s, Then(" ", p, "")))) == i + [':'] + m + [':'] + s + " " + p
  {
  }

  /** %T and %X are %H:%M:%S, %R is %H:%M, %r is %I:%M:%S %p, %D and %x are %m/%d/%C, %h is %b. */
  lemma ShortForms(m: Msg, t: Tm)
    ensures var text := Meaning(m, t);
            && SameMeaning("%T", "%H:%M:%S", text) && SameMeaning("%X", "%H:%M:%S", text)
            && SameMeaning("%R", "%H:%M", text) && SameMeaning("%r", "%I:%M:%S %p", text)
            && SameMeaning("%D", "%m/%d/%C", text) && SameMeaning("%x", "%m/%d/%C", text)
            && SameMeaning("%h", "%b", text)
  {
    var text := Meaning(m, t);
    MeaningMeans(m, t);
    TimesMean(m, t, Pad, text);
    DatesMean(m, t, Pad, text);
    TwelveMeans(m, t, Pad, text);
    TimeForms(text);
    DateForms(text);
    MonthForms(text);
    TwelvePatternText();
    TwelveForm(text);
  }

  // ------------------------------------------------------------------ date and time in one

  function DateTimePattern(): string {
    Piece("", 'a', Piece(" ", 'b', Piece(" ", 'd', ClockPattern())))
  }

  function ClockPattern(): string {
    Piece(" ", 'H', Piece(":", 'M', Piece(":", 'S', Piece(" ", 'Y', ""))))
  }

  lemma DateTimePatternText()
    ensures DateTimePattern() == "%a %b %d %H:%M:%S %Y"
  {
  }

  function ClockText(text: char -> string): string {
    Then(" ", text('H'), Then(":", text('M'), Then(":", text('S'), Then(" ", text('Y'), ""))))
  }

  lemma ClockInterpreted(text: char -> string)
    ensures Interpret(ClockPattern(), text) == ClockText(text)
  {
    InterpretPiece(" ", 'Y', "", text);
    InterpretPiece(":", 'S', Piece(" ", 'Y', ""), text);
    InterpretPiece(":", 'M', Piece(":", 'S', Piece(" ", 'Y', "")), text);
    InterpretPiece(" ", 'H', Piece(":", 'M', Piece(":", 'S', Piece(" ", 'Y', ""))), text);
  }

  lemma DateTimeInterpreted(text: char -> string)
    ensures Interpret(DateTimePattern(), text)
         == Then("", text('a'), Then(" ", text('b'), Then(" ", text('d'), ClockText(text))))
  {
    ClockInterpreted(text);
    InterpretPiece(" ", 'd', ClockPattern(), text);
    InterpretPiece(" ", 'b', Piece(" ", 'd', ClockPattern()), text);
    InterpretPiece("", 'a', Piece(" ", 'b', Piece(" ", 'd', ClockPattern())), text);
  }

  /** %c with its day written as day. */
  predicate DateTimeTexts(day: string, text: char -> string) {
    text('c') == text('a') + " " + text('b') + " " + day + " "
                 + (text('H') + [':'] + text('M') + [':'] + text('S')) + " " + text('Y')
  }

  lemma DateTimeMeans(m: Msg, t: Tm, pad: Padding, text: char -> string)
    requires Means(m, t, pad, text)
    ensures DateTimeTexts(pad(t.mday, 0), text) && text('d') == pad(t.mday, 2)
  {
  }

  lemma DateTimeJoined(a: string, b: string, d: string, h: string, m: string, s: string, y: string)
    ensures a + " " + b + " " + d + " " + (h + [':'] + m + [':'] + s) + " " + y
         == Then("", a, Then(" ", b, Then(" ", d, Then(" ", h, Then(":", m, Then(":", s, Then(" ", y, "")))))))
  {
    var rest := Then(" ", h, Then(":", m, Then(":", s, Then(" ", y, ""))));
    assert " " + (h + [':'] + m + [':'] + s) + " " + y == rest;
    assert a + " " + b + " " + d + rest == Then("", a, Then(" ", b, Then(" ", d, rest)));
  }

  lemma DayDecides(a: string, b: string, x: string, y: string, rest: string)
    ensures Then("", a, Then(" ", b, Then(" ", x, rest))) == Then("", a, Then(" ", b, Then(" ", y, rest))) <==> x == y
  {
    if Then("", a, Then(" ", b, Then(" ", x, rest))) == Then("", a, Then(" ", b, Then(" ", y, rest))) {
      ThenCancels("", a, Then(" ", b, Then(" ", x, rest)), Then(" ", b, Then(" ", y, rest)));
      ThenCancels(" ", b, Then(" ", x, rest), Then(" ", y, rest));
      SameText(" ", x, y, rest);
    }
  }

  lemma DateTimeForm(day: string, text: char -> string)
    requires DateTimeTexts(day, text)
    ensures SameMeaning("%c", DateTimePattern(), text) <==> day == text('d')
  {
    InterpretEnd('c', text);
    DateTimeInterpreted(text);
    DateTimeJoined(text('a'), text('b'), day, text('H'), text('M'), text('S'), text('Y'));
    DayDecides(text('a'), text('b'), day, text('d'), ClockText(text));
  }

  lemma DayPadded(day: nat)
    requires 1 <= day <= 31
    ensures Pad(day, 0) == Pad(day, 2) <==> day >= 10
  {
    Powers();
    PadLength(day, 2);
    PadOf(day, 0);
    PadOf(day, 2);
    LengthStep(10, day);
    if day >= 10 { LengthStep(10, day / 10); }
  }

  /** %c is %a %b %d %H:%M:%S %Y from the tenth of the month on; before, it has no zero in front of the day. */
  lemma DateTimeFormIff(m: Msg, t: Tm)
    requires ValidTm(t)
    ensures SameMeaning("%c", "%a %b %d %H:%M:%S %Y", Meaning(m, t)) <==> t.mday >= 10
  {
    MeaningMeans(m, t);
    DateTimeMeans(m, t, Pad, Meaning(m, t));
    DateTimePatternText();
    DateTimeForm(Pad(t.mday, 0), Meaning(m, t));
    DayPadded(t.mday);
  }

  // ------------------------------------------------------------------ the offset from UTC

  /** The form of ISO 8601 that %z is meant to give: a sign, two digits of hours and two of minutes. */
  function IsoOffset(offset: int, pad: Padding): string {
    var n := Absolute(offset);
    [if offset < 0 then '-' else '+'] + (pad(n / 60, 2) + [':'] + pad(n % 60, 2))
  }

  predicate ZoneText(offset: int, pad: Padding, text: char -> string) {
    var h := Quotient(offset, 60);
    text('z') == [if h < 0 then '-' else '+'] + (pad(h, 2) + [':'] + pad(Rest(offset, 60), 2))
  }

  lemma ZoneMeans(m: Msg, t: Tm, pad: Padding, text: char -> string)
    requires Means(m, t, pad, text)
    ensures ZoneText(t.offset, pad, text)
  {
  }

  lemma ZoneForm(offset: int, text: char -> string)
    requires ZoneText(offset, Pad, text)
    ensures Interpret("%z", text) == IsoOffset(offset, Pad) <==> offset >= 0
  {
    InterpretEnd('z', text);
    var h, n := Quotient(offset, 60), Absolute(offset);
    if offset <= -60 {
      PadMinus(h);
      PadDigit(n / 60);
      assert text('z')[1] == Pad(h, 2)[0];
      assert IsoOffset(offset, Pad)[1] == Pad(n / 60, 2)[0];
    } else if offset < 0 {
      assert text('z')[0] == '+' && IsoOffset(offset, Pad)[0] == '-';
    }
  }

  lemma PadMinus(v: int)
    requires v < 0
    ensures Pad(v, 2) != "" && Pad(v, 2)[0] == '-'
  {
    PadOf(v, 2);
    assert |Decimal(Absolute(v))| >= 1;
    assert Repeat('0', 0) == "";
  }

  lemma PadDigit(v: nat)
    ensures Pad(v, 2) != "" && Pad(v, 2)[0] != '-'
  {
    PadSign(v, 2);
    PadOf(v, 2);
    assert |Decimal(v)| >= 1;
    assert Pad(v, 2)[0] in Pad(v, 2);
  }

  /** %z gives the offset in the form of ISO 8601 exactly for offsets that are not negative. */
  lemma ZoneFormIff(m: Msg, t: Tm)
    ensures Interpret("%z", Meaning(m, t)) == IsoOffset(t.offset, Pad) <==> t.offset >= 0
  {
    MeaningMeans(m, t);
    ZoneMeans(m, t, Pad, Meaning(m, t));
    ZoneForm(t.offset, Meaning(m, t));
  }

  // ------------------------------------------------------------------ names

  /** Which day of the week, which month and which level a name begins like. */
  function DayOf(s: string): nat {
    if |s| < 2 then 7
    else if s[0] == 'S' then (if s[1] == 'u' then 0 else 6)
    else if s[0] == 'M' then 1
    else if s[0] == 'T' then (if s[1] == 'u' then 2 else 4)
    else if s[0] == 'W' then 3
    else if s[0] == 'F' then 5
    else 7
  }

  function MonthOf(s: string): nat {
    if |s| < 3 then 12
    else if s[0] == 'J' then (if s[1] == 'a' then 0 else if s[2] == 'n' then 5 else 6)
    else if s[0] == 'M' then (if s[2] == 'r' then 2 else 4)
    else if s[0] == 'A' then (if s[1] == 'p' then 3 else 7)
    else if s[0] == 'F' then 1
    else if s[0] == 'S' then 8
    else if s[0] == 'O' then 9
    else if s[0] == 'N' then 10
    else if s[0] == 'D' then 11
    else 12
  }

  function LevelOf(s: string): nat {
    if |s| < 2 then 10
    else if s[0] == 't' then 0
    else if s[0] == 'd' then 1
    else if s[0] == 'i' then 2
    else if s[0] == 'n' then 3
    else if s[0] == 'w' then 4
    else if s[0] == 'e' then (if s[1] == 'r' then 5 else 8)
    else if s[0] == 'c' then 6
    else if s[0] == 'a' then 7
    else if s[0] == 'o' then 9
    else 10
  }

  function ShortLevelOf(s: string): nat {
    if |s| != 1 then 10
    else if s[0] == 'T' then 0
    else if s[0] == 'D' then 1
    else if s[0] == 'I' then 2
    else if s[0] == 'N' then 3
    else if s[0] == 'W' then 4
    else if s[0] == 'E' then 5
    else if s[0] == 'C' then 6
    else if s[0] == 'A' then 7
    else if s[0] == 'M' then 8
    else if s[0] == 'O' then 9
    else 10
  }

  lemma DayNames(i: nat)
    requires i < 7
    ensures DayOf(DAYS[i]) == i && DayOf(FULL_DAYS[i]) == i && DAYS[i] == FULL_DAYS[i][..3]
  {
    assert DAYS[0] == "Sunday"[..3] && DAYS[1] == "Monday"[..3] && DAYS[2] == "Tuesday"[..3];
    assert DAYS[3] == "Wednesday"[..3] && DAYS[4] == "Thursday"[..3] && DAYS[5] == "Friday"[..3];
    assert DAYS[6] == "Saturday"[..3];
  }

  lemma MonthNames(i: nat)
    requires i < 12
    ensures MonthOf(MONTHS[i]) == i
  {
  }

  lemma FullMonthNames(i: nat)
    requires i < 12
    ensures MonthOf(FULL_MONTHS[i]) == i
  {
  }

  lemma LevelNames(i: nat)
    requires i < 10
    ensures LevelOf(LEVEL_NAMES[i]) == i
  {
  }

  lemma ShortLevelNames(i: nat)
    requires i < 10
    ensures ShortLevelOf(SHORT_LEVEL_NAMES[i]) == i
  {
  }

  predicate NameTexts(m: Msg, t: Tm, text: char -> string) {
    && text('a') == Name(DAYS, t.wday) && text('A') == Name(FULL_DAYS, t.wday)
    && text('b') == Name(MONTHS, t.mon) && text('B') == Name(FULL_MONTHS, t.mon)
    && text('l') == Name(LEVEL_NAMES, m.level) && text('L') == Name(SHORT_LEVEL_NAMES, m.level)
  }

  lemma NamesMean(m: Msg, t: Tm, pad: Padding, text: char -> string)
    requires Means(m, t, pad, text)
    ensures NameTexts(m, t, text)
  {
  }

  lemma DayTextsRead(m: Msg, t: Tm, text: char -> string)
    requires ValidTm(t) && NameTexts(m, t, text)
    ensures DayOf(Interpret("%a", text)) == t.wday && DayOf(Interpret("%A", text)) == t.wday
  {
    DayNames(t.wday);
    InterpretEnd('a', text);
    InterpretEnd('A', text);
  }

  lemma MonthTextsRead(m: Msg, t: Tm, text: char -> string)
    requires ValidTm(t) && NameTexts(m, t, text)
    ensures MonthOf(Interpret("%b", text)) == t.mon && MonthOf(Interpret("%B", text)) == t.mon
  {
    MonthNames(t.mon);
    FullMonthNames(t.mon);
    InterpretEnd('b', text);
    InterpretEnd('B', text);
  }

  lemma LevelTextsRead(m: Msg, t: Tm, text: char -> string)
    requires ValidMsg(m) && NameTexts(m, t, text)
    ensures LevelOf(Interpret("%l", text)) == m.level && ShortLevelOf(Interpret("%L", text)) == m.level
  {
    LevelNames(m.level);
    ShortLevelNames(m.level);
    InterpretEnd('l', text);
    InterpretEnd('L', text);
  }

  /** The names, short and long, tell day, month and level. */
  lemma NamesRead(m: Msg, t: Tm)
    requires ValidTm(t) && ValidMsg(m)
    ensures var text := Meaning(m, t);
            && DayOf(Interpret("%a", text)) == t.wday && DayOf(Interpret("%A", text)) == t.wday
            && MonthOf(Interpret("%b", text)) == t.mon && MonthOf(Interpret("%B", text)) == t.mon
            && LevelOf(Interpret("%l", text)) == m.level && ShortLevelOf(Interpret("%L", text)) == m.level
  {
    MeaningMeans(m, t);
    NamesMean(m, t, Pad, Meaning(m, t));
    DayTextsRead(m, t, Meaning(m, t));
    MonthTextsRead(m, t, Meaning(m, t));
    LevelTextsRead(m, t, Meaning(m, t));
  }

  /** The logger's name and the message itself stand as they are. */
  lemma TextsStand(m: Msg, t: Tm)
    ensures Interpret("%n", Meaning(m, t)) == m.loggerName && Interpret("%v", Meaning(m, t)) == m.raw
  {
    InterpretEnd('n', Meaning(m, t));
    InterpretEnd('v', Meaning(m, t));
  }

  /** A flag that does not exist is written as it stands. */
  lemma UnknownStands(flag: char, text: char -> string)
    requires flag !in ['n', 'l', 'L', 't', 'v', 'a', 'A', 'b', 'h', 'B', 'c', 'C', 'Y', 'D', 'x', 'm', 'd', 'H', 'I',
               'M', 'S', 'e', 'f', 'F', 'p', 'r', 'R', 'T', 'X', 'z', '+']
    ensures Interpret(['%', flag], text) == ['%', flag]
  {
  }
}
