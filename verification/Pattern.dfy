/**
  Patterns of log lines: pattern_formatter_impl.h compiles a pattern into a list of formatters
  and runs the list on each message. Running the compiled list is interpreting the pattern.
 */
module Pattern {
  import opened Wrappers
  import opened Numerals
  import opened FormatInt
  import opened Sequences

  /** std::tm, with the offset from UTC in minutes. */
  datatype Tm = Tm(sec: int, min: int, hour: int, mday: int, mon: int, year: int, wday: int, offset: int)

  /** A message; its time is in nanoseconds since the epoch, negative before it. */
  datatype Msg = Msg(loggerName: string, level: nat, time: int, threadId: nat, raw: string)

  /** What localtime fills in. */
  predicate ValidTm(t: Tm) {
    && 0 <= t.sec <= 60 && 0 <= t.min <= 59 && 0 <= t.hour <= 23 && 1 <= t.mday <= 31
    && 0 <= t.mon <= 11 && -0x8000_0000 <= t.year <= 0x7fff_ffff - 1900 && 0 <= t.wday <= 6
  }

  predicate ValidMsg(m: Msg) {
    m.level <= 9
  }

  // ------------------------------------------------------------------ numbers

  /** Division and remainder of C++, toward zero. */
  function Quotient(a: int, b: nat): int
    requires b > 0
  {
    if a >= 0 then a / b else -(-a / b)
  }

  function Rest(a: int, b: nat): (r: int)
    requires b > 0
    ensures 0 - b < r < b && (a >= 0 ==> r >= 0) && (a <= 0 ==> r <= 0)
  {
    if a >= 0 then a % b else -(-a % b)
  }

  /** fmt::pad(value, width, '0') */
  function Pad(value: int, width: nat): string {
    Written(value, Spec(width, '0', Default, false, false, false, '\0'))
  }

  /** A cast to unsigned int. */
  function Unsigned(value: int): nat {
    value % 0x1_0000_0000
  }

  /** A way to write a number in at least so many characters. */
  type Padding = (int, nat) -> string

  function Join2(pad: Padding, a: int, b: int, sep: char): string {
    pad(a, 2) + [sep] + pad(b, 2)
  }

  function Join3(pad: Padding, a: int, b: int, c: int, sep: char): string {
    pad(a, 2) + [sep] + pad(b, 2) + [sep] + pad(c, 2)
  }

  function Millis(m: Msg): (r: int)
    ensures -1000 < r < 1000 && (m.time >= 0 ==> r >= 0)
  {
    Rest(Quotient(m.time, 1_000_000), 1000)
  }

  // ------------------------------------------------------------------ names

  const LEVEL_NAMES := ["trace", "debug", "info", "notice", "warning", "error", "critical", "alert", "emerg", "off"]
  const SHORT_LEVEL_NAMES := ["T", "D", "I", "N", "W", "E", "C", "A", "M", "O"]
  const DAYS := ["Sun", "Mon", "Tue", "Wed", "Thu", "Fri", "Sat"]
  const FULL_DAYS := ["Sunday", "Monday", "Tuesday", "Wednesday", "Thursday", "Friday", "Saturday"]
  const MONTHS := ["Jan", "Feb", "Mar", "Apr", "May", "June", "July", "Aug", "Sept", "Oct", "Nov", "Dec"]
  const FULL_MONTHS := ["January", "February", "March", "April", "May", "June", "July", "August", "September",
    "October", "November", "December"]

  function Name(names: seq<string>, i: int): string {
    if 0 <= i < |names| then names[i] else ""
  }

  function AmPm(t: Tm): string {
    if t.hour >= 12 then "PM" else "AM"
  }

  function To12h(t: Tm): int {
    if t.hour > 12 then t.hour - 12 else t.hour
  }

  // ------------------------------------------------------------------ flags

  /** The flags that handle_flag knows. */
  const FLAGS := "nlLtvaAbhBcCYDxmdHIMSefFprRTXz+"

  predicate Known(flag: char) {
    flag in FLAGS
  }

  /** A literal and a text, with more to follow. */
  function Then(literal: string, text: string, rest: string): string {
    literal + text + rest
  }

  /** The parts of a full line, from the back. */
  function TailLine(name: string, level: string, raw: string): string {
    Then("] [", name, Then("] [", level, Then("] ", raw, "")))
  }

  function TimeLine(hour: string, min: string, sec: string, rest: string): string {
    Then(" ", hour, Then(":", min, Then(":", sec, rest)))
  }

  function DateLine(year: string, month: string, day: string, rest: string): string {
    Then("[", year, Then("-", month, Then("-", day, rest)))
  }

  /** The parts of the hand-optimised line in the order in which they are written. */
  function Shifted(y: string, mo: string, d: string, h: string, mi: string, se: string, e: string, name: string,
                   level: string, raw: string): string {
    "[" + y + "-" + mo + "-" + d + " " + h + ":" + mi + ":" + se + "." + e + "] "
    + "[" + name + "] "
    + "[" + level + "] "
    + raw
  }

  /** The line of a message, its numbers written by pad. */
  function Line(m: Msg, t: Tm, pad: Padding): string {
    Shifted(pad(t.year + 1900, 0), pad(t.mon + 1, 2), pad(t.mday, 2), pad(t.hour, 2), pad(t.min, 2), pad(t.sec, 2),
      pad(Millis(m), 3), m.loggerName, Name(LEVEL_NAMES, m.level), m.raw)
  }

  /** The flag '+' casts its numbers to unsigned. */
  function Full(m: Msg, t: Tm, pad: Padding): string {
    Shifted(pad(Unsigned(t.year + 1900), 0), pad(Unsigned(t.mon + 1), 2), pad(Unsigned(t.mday), 2),
      pad(Unsigned(t.hour), 2), pad(Unsigned(t.min), 2), pad(Unsigned(t.sec), 2), pad(Unsigned(Millis(m)), 3),
      m.loggerName, Name(LEVEL_NAMES, m.level), m.raw)
  }

  /** What the formatter of a known flag writes. */
  function FlagText(flag: char, m: Msg, t: Tm, pad: Padding): string {
    match flag
    case 'n' => m.loggerName
    case 'l' => Name(LEVEL_NAMES, m.level)
    case 'L' => Name(SHORT_LEVEL_NAMES, m.level)
    case 't' => Decimal(m.threadId)
    case 'v' => m.raw
    case 'a' => Name(DAYS, t.wday)
    case 'A' => Name(FULL_DAYS, t.wday)
    case 'b' => Name(MONTHS, t.mon)
    case 'h' => Name(MONTHS, t.mon)
    case 'B' => Name(FULL_MONTHS, t.mon)
    case 'c' =>
      Name(DAYS, t.wday) + " " + Name(MONTHS, t.mon) + " " + pad(t.mday, 0) + " "
      + Join3(pad, t.hour, t.min, t.sec, ':') + " " + pad(t.year + 1900, 0)
    case 'C' => pad(Rest(t.year, 100), 2)
    case 'Y' => pad(t.year + 1900, 0)
    case 'D' => Join3(pad, t.mon + 1, t.mday, Rest(t.year, 100), '/')
    case 'x' => Join3(pad, t.mon + 1, t.mday, Rest(t.year, 100), '/')
    case 'm' => pad(t.mon + 1, 2)
    case 'd' => pad(t.mday, 2)
    case 'H' => pad(t.hour, 2)
    case 'I' => pad(To12h(t), 2)
    case 'M' => pad(t.min, 2)
    case 'S' => pad(t.sec, 2)
    case 'e' => pad(Millis(m), 3)
    case 'f' => pad(Rest(Quotient(m.time, 1000), 1_000_000), 6)
    case 'F' => pad(Rest(m.time, 1_000_000_000), 9)
    case 'p' => AmPm(t)
    case 'r' => Join3(pad, To12h(t), t.min, t.sec, ':') + " " + AmPm(t)
    case 'R' => Join2(pad, t.hour, t.min, ':')
    case 'T' => Join3(pad, t.hour, t.min, t.sec, ':')
    case 'X' => Join3(pad, t.hour, t.min, t.sec, ':')
    case 'z' =>
      var h := Quotient(t.offset, 60);
      (if h >= 0 then "+" else "-") + Join2(pad, h, Rest(t.offset, 60), ':')
    case '+' => Full(m, t, pad)
    case _ => ""
  }

  /** What each flag stands for in one message. */
  function Meaning(m: Msg, t: Tm): char -> string {
    (flag: char) => FlagText(flag, m, t, Pad)
  }

  /** What a pattern means, character by character, where text gives the known flags. */
  function Interpret(pattern: string, text: char -> string): string {
    if pattern == "" then ""
    else if pattern[0] != '%' then [pattern[0]] + Interpret(pattern[1..], text)
    else if |pattern| == 1 then ""
    else (if Known(pattern[1]) then text(pattern[1]) else ['%', pattern[1]]) + Interpret(pattern[2..], text)
  }

  // ------------------------------------------------------------------ formatters

  datatype Formatter = Flag(flag: char) | Character(ch: char) | Aggregate(chars: string)

  function FormatterText(f: Formatter, text: char -> string): string {
    match f
    case Flag(c) => text(c)
    case Character(c) => [c]
    case Aggregate(s) => s
  }

  /** What a list of formatters writes. */
  function Run(formatters: seq<Formatter>, text: char -> string): string {
    if formatters == [] then ""
    else FormatterText(formatters[0], text) + Run(formatters[1..], text)
  }

  function Handled(flag: char): seq<Formatter> {
    if Known(flag) then [Flag(flag)] else [Character('%'), Character(flag)]
  }

  function Pushed(userChars: Option<string>): seq<Formatter> {
    if userChars.Some? then [Aggregate(userChars.value)] else []
  }

  function Added(userChars: Option<string>, c: char): Option<string> {
    if userChars.Some? then Some(userChars.value + [c]) else Some([c])
  }

  /** The formatters for the rest of a pattern, with the characters collected so far. */
  function Compiled(pattern: string, userChars: Option<string>): seq<Formatter>
    decreases |pattern|
  {
    if pattern == "" then Pushed(userChars)
    else if pattern[0] != '%' then Compiled(pattern[1..], Added(userChars, pattern[0]))
    else if |pattern| == 1 then Pushed(userChars)
    else Pushed(userChars) + Handled(pattern[1]) + Compiled(pattern[2..], None)
  }

  class PatternFormatter {
    var formatters: seq<Formatter>

    constructor (pattern: string)
      ensures formatters == Compiled(pattern, None)
    {
      formatters := [];
      new;
      CompilePattern(pattern);
    }

    /** compile_pattern */
    method CompilePattern(pattern: string)
      modifies this
      ensures formatters == old(formatters) + Compiled(pattern, None)
    {
      var userChars: Option<string> := None;
      var i := 0;
      while i < |pattern|
        invariant i <= |pattern|
        invariant formatters + Compiled(pattern[i..], userChars) == old(formatters) + Compiled(pattern, None)
      {
        if pattern[i] == '%' {
          Joined(formatters, Pushed(userChars), if i + 1 < |pattern| then Handled(pattern[i + 1]) else [],
                 if i + 1 < |pattern| then Compiled(pattern[i..][2..], None) else []);
          if userChars.Some? {
            formatters := formatters + [Aggregate(userChars.value)];
            userChars := None;
          }
          i := i + 1;
          if i == |pattern| { break; }
          assert pattern[i - 1..][2..] == pattern[i + 1..];
          HandleFlag(pattern[i]);
        } else {
          assert pattern[i..][1..] == pattern[i + 1..];
          userChars := Added(userChars, pattern[i]);
        }
        i := i + 1;
      }
      if userChars.Some? { formatters := formatters + [Aggregate(userChars.value)]; }
    }

    /** handle_flag */
    method HandleFlag(flag: char)
      modifies this
      ensures formatters == old(formatters) + Handled(flag)
    {
      if Known(flag) {
        formatters := formatters + [Flag(flag)];
      } else {
        formatters := formatters + [Character('%')];
        formatters := formatters + [Character(flag)];
      }
    }

    /** format: the formatters in turn, and the end of the line. */
    method Format(m: Msg, t: Tm, before: string) returns (formatted: string)
      requires ValidMsg(m) && ValidTm(t)
      ensures formatted == before + Run(formatters, Meaning(m, t)) + "\n"
    {
      var text := Meaning(m, t);
      formatted := before;
      var i := 0;
      while i < |formatters|
        invariant i <= |formatters|
        invariant formatted + Run(formatters[i..], text) == before + Run(formatters, text)
      {
        assert formatters[i..][1..] == formatters[i + 1..];
        Append(formatted, FormatterText(formatters[i], text), Run(formatters[i + 1..], text));
        formatted := formatted + FormatterText(formatters[i], text);
        i := i + 1;
      }
      formatted := formatted + "\n";
    }
  }

  lemma Joined(a: seq<Formatter>, b: seq<Formatter>, c: seq<Formatter>, d: seq<Formatter>)
    ensures a + (b + c + d) == a + b + c + d
  {
  }

  // ------------------------------------------------------------------ compiling keeps the meaning

  lemma {:induction false} RunConcat(a: seq<Formatter>, b: seq<Formatter>, text: char -> string)
    ensures Run(a + b, text) == Run(a, text) + Run(b, text)
  {
    if a == [] {
      assert a + b == b;
    } else {
      assert (a + b)[1..] == a[1..] + b;
      RunConcat(a[1..], b, text);
      Append(FormatterText(a[0], text), Run(a[1..], text), Run(b, text));
    }
  }

  function Collected(userChars: Option<string>): string {
    if userChars.Some? then userChars.value else ""
  }

  lemma RunPushed(userChars: Option<string>, text: char -> string)
    ensures Run(Pushed(userChars), text) == Collected(userChars)
  {
    if userChars.Some? { assert Pushed(userChars)[1..] == []; }
  }

  lemma RunHandled(flag: char, text: char -> string)
    ensures Run(Handled(flag), text) == if Known(flag) then text(flag) else ['%', flag]
  {
    if Known(flag) {
      assert [Flag(flag)][1..] == [];
    } else {
      var two := [Character('%'), Character(flag)];
      assert two[1..] == [Character(flag)] && two[1..][1..] == [];
      assert Run(two[1..], text) == [flag] + Run(two[1..][1..], text);
    }
  }

  lemma RunFlag(userChars: Option<string>, flag: char, rest: seq<Formatter>, after: string, text: char -> string)
    requires Run(rest, text) == after
    ensures Run(Pushed(userChars) + Handled(flag) + rest, text)
         == Collected(userChars) + ((if Known(flag) then text(flag) else ['%', flag]) + after)
  {
    RunPushed(userChars, text);
    RunHandled(flag, text);
    RunConcat(Pushed(userChars) + Handled(flag), rest, text);
    RunConcat(Pushed(userChars), Handled(flag), text);
    Append(Collected(userChars), Run(Handled(flag), text), after);
  }

  lemma {:induction false} RunCompiled(pattern: string, userChars: Option<string>, text: char -> string)
    ensures Run(Compiled(pattern, userChars), text) == Collected(userChars) + Interpret(pattern, text)
    decreases |pattern|
  {
    if pattern == "" {
      RunPushed(userChars, text);
    } else if pattern[0] != '%' {
      RunCompiled(pattern[1..], Added(userChars, pattern[0]), text);
      Append(Collected(userChars), [pattern[0]], Interpret(pattern[1..], text));
    } else if |pattern| == 1 {
      RunPushed(userChars, text);
    } else {
      RunCompiled(pattern[2..], None, text);
      RunFlag(userChars, pattern[1], Compiled(pattern[2..], None), Interpret(pattern[2..], text), text);
    }
  }

  /** Running the compiled formatters is interpreting the pattern. */
  lemma CompilingKeepsMeaning(pattern: string, text: char -> string)
    ensures Run(Compiled(pattern, None), text) == Interpret(pattern, text)
  {
    RunCompiled(pattern, None, text);
  }

  /** Literal characters are merged: no aggregate is empty, and no two of them are neighbours. */
  ghost predicate Merged(formatters: seq<Formatter>) {
    && (forall i :: 0 <= i < |formatters| && formatters[i].Aggregate? ==> formatters[i].chars != "")
    && (forall i, j :: 0 <= i && i + 1 == j < |formatters| ==> !(formatters[i].Aggregate? && formatters[j].Aggregate?))
  }

  lemma HandledMerged(flag: char)
    ensures forall i :: 0 <= i < |Handled(flag)| ==> !Handled(flag)[i].Aggregate?
  {
  }

  lemma {:induction false} CompiledMerged(pattern: string, userChars: Option<string>)
    requires userChars.Some? ==> userChars.value != ""
    ensures Merged(Compiled(pattern, userChars))
    decreases |pattern|
  {
    if pattern == "" {
    } else if pattern[0] != '%' {
      CompiledMerged(pattern[1..], Added(userChars, pattern[0]));
    } else if |pattern| > 1 {
      HandledMerged(pattern[1]);
      CompiledMerged(pattern[2..], None);
      MergedAround(userChars, Handled(pattern[1]), Compiled(pattern[2..], None));
    }
  }

  lemma MergedAround(userChars: Option<string>, flag: seq<Formatter>, rest: seq<Formatter>)
    requires userChars.Some? ==> userChars.value != ""
    requires flag != [] && (forall i :: 0 <= i < |flag| ==> !flag[i].Aggregate?) && Merged(rest)
    ensures Merged(Pushed(userChars) + flag + rest)
  {
    var all, n := Pushed(userChars) + flag + rest, |Pushed(userChars) + flag|;
    forall i, j | 0 <= i && i + 1 == j < |all| ensures !(all[i].Aggregate? && all[j].Aggregate?) {
      if i >= n { assert all[i] == rest[i - n] && all[j] == rest[j - n]; }
    }
  }

  // ------------------------------------------------------------------ the full line

  /** A literal and a flag in a pattern. */
  function Piece(literal: string, flag: char, rest: string): string {
    literal + ['%', flag] + rest
  }

  function TailPattern(): string {
    Piece("] [", 'n', Piece("] [", 'l', Piece("] ", 'v', "")))
  }

  function TimePattern(): string {
    Piece(" ", 'H', Piece(":", 'M', Piece(":", 'S', Piece(".", 'e', TailPattern()))))
  }

  /** The pattern "[%Y-%m-%d %H:%M:%S.%e] [%n] [%l] %v" that '+' stands for. */
  function FullPattern(): string {
    Piece("[", 'Y', Piece("-", 'm', Piece("-", 'd', TimePattern())))
  }

  lemma FullPatternText()
    ensures FullPattern() == "[%Y-%m-%d %H:%M:%S.%e] [%n] [%l] %v"
  {
  }

  lemma {:induction false} InterpretPiece(literal: string, flag: char, rest: string, text: char -> string)
    requires '%' !in literal && Known(flag)
    ensures Interpret(Piece(literal, flag, rest), text) == Then(literal, text(flag), Interpret(rest, text))
    decreases |literal|
  {
    var p := Piece(literal, flag, rest);
    if literal == "" {
      assert p[2..] == rest;
    } else {
      assert p[1..] == Piece(literal[1..], flag, rest);
      InterpretPiece(literal[1..], flag, rest, text);
      ThenLonger(literal[0], literal[1..], text(flag), Interpret(rest, text));
      assert literal == [literal[0]] + literal[1..];
    }
  }

  lemma ThenLonger(c: char, literal: string, text: string, rest: string)
    ensures [c] + Then(literal, text, rest) == Then([c] + literal, text, rest)
  {
  }

  lemma InterpretTail(text: char -> string)
    ensures Interpret(TailPattern(), text) == TailLine(text('n'), text('l'), text('v'))
  {
    InterpretPiece("] ", 'v', "", text);
    InterpretPiece("] [", 'l', Piece("] ", 'v', ""), text);
    InterpretPiece("] [", 'n', Piece("] [", 'l', Piece("] ", 'v', "")), text);
  }

  lemma InterpretTime(text: char -> string)
    ensures Interpret(TimePattern(), text)
         == TimeLine(text('H'), text('M'), text('S'), Then(".", text('e'), TailLine(text('n'), text('l'), text('v'))))
  {
    InterpretTail(text);
    var p := Piece(".", 'e', TailPattern());
    InterpretPiece(".", 'e', TailPattern(), text);
    InterpretPiece(":", 'S', p, text);
    InterpretPiece(":", 'M', Piece(":", 'S', p), text);
    InterpretPiece(" ", 'H', Piece(":", 'M', Piece(":", 'S', p)), text);
  }

  lemma InterpretFull(text: char -> string)
    ensures Interpret(FullPattern(), text)
         == DateLine(text('Y'), text('m'), text('d'), TimeLine(text('H'), text('M'), text('S'),
              Then(".", text('e'), TailLine(text('n'), text('l'), text('v')))))
  {
    InterpretTime(text);
    InterpretPiece("-", 'd', TimePattern(), text);
    InterpretPiece("-", 'm', Piece("-", 'd', TimePattern()), text);
    InterpretPiece("[", 'Y', Piece("-", 'm', Piece("-", 'd', TimePattern())), text);
  }

  // ------------------------------------------------------------------ telling lines apart

  lemma ThenCancels(literal: string, text: string, a: string, b: string)
    requires Then(literal, text, a) == Then(literal, text, b)
    ensures a == b
  {
    assert Then(literal, text, a)[|literal + text|..] == a;
    assert Then(literal, text, b)[|literal + text|..] == b;
  }

  lemma SameText(literal: string, x: string, y: string, rest: string)
    requires Then(literal, x, rest) == Then(literal, y, rest)
    ensures x == y
  {
    var s := Then(literal, x, rest);
    assert |x| == |y|;
    assert s[|literal|..|literal| + |x|] == x && s[|literal|..|literal| + |y|] == y;
  }

  lemma DateCancels(y: string, mo: string, d: string, a: string, b: string)
    requires DateLine(y, mo, d, a) == DateLine(y, mo, d, b)
    ensures a == b
  {
    ThenCancels("[", y, Then("-", mo, Then("-", d, a)), Then("-", mo, Then("-", d, b)));
    ThenCancels("-", mo, Then("-", d, a), Then("-", d, b));
    ThenCancels("-", d, a, b);
  }

  lemma TimeCancels(h: string, mi: string, se: string, a: string, b: string)
    requires TimeLine(h, mi, se, a) == TimeLine(h, mi, se, b)
    ensures a == b
  {
    ThenCancels(" ", h, Then(":", mi, Then(":", se, a)), Then(":", mi, Then(":", se, b)));
    ThenCancels(":", mi, Then(":", se, a), Then(":", se, b));
    ThenCancels(":", se, a, b);
  }

  /** Lines that agree up to the seconds and after the milliseconds agree at the milliseconds. */
  lemma SameMillis(y: string, mo: string, d: string, h: string, mi: string, se: string, e: string, f: string,
                   tail: string)
    requires DateLine(y, mo, d, TimeLine(h, mi, se, Then(".", e, tail)))
               == DateLine(y, mo, d, TimeLine(h, mi, se, Then(".", f, tail)))
    ensures e == f
  {
    DateCancels(y, mo, d, TimeLine(h, mi, se, Then(".", e, tail)), TimeLine(h, mi, se, Then(".", f, tail)));
    TimeCancels(h, mi, se, Then(".", e, tail), Then(".", f, tail));
    SameText(".", e, f, tail);
  }

  lemma YearFirst(y: string, mo: string, d: string, rest: string)
    requires y != ""
    ensures |DateLine(y, mo, d, rest)| > 1 && DateLine(y, mo, d, rest)[1] == y[0]
  {
  }

  lemma PadOf(v: int, width: nat)
    ensures var sign := if v < 0 then "-" else ""; var body := Decimal(Absolute(v));
            var size := |sign| + |body|;
            Pad(v, width) == Repeat('0', if width > size then width - size else 0) + sign + body
  {
    var spec := Spec(width, '0', Default, false, false, false, '\0');
    assert Prefix(v, spec) == if v < 0 then "-" else "";
  }

  lemma {:induction false} DecimalHasNoSign(n: nat)
    ensures '-' !in Decimal(n)
    decreases n
  {
    if n < 10 {
    } else {
      DecimalHasNoSign(Shorter(10, n));
    }
  }

  /** A sign shows exactly when the number is negative. */
  lemma PadSign(v: int, width: nat)
    ensures '-' in Pad(v, width) <==> v < 0
    ensures width == 0 ==> Pad(v, width) != "" && (Pad(v, width)[0] == '-' <==> v < 0)
  {
    PadOf(v, width);
    DecimalHasNoSign(Absolute(v));
    var body := Decimal(Absolute(v));
    assert body[0] in body;
  }

  /**
    A number looks different when it is cast to unsigned if it is negative, from the first character without padding.
   */
  predicate Tells(pad: Padding, v: int, width: nat) {
    && (pad(Unsigned(v), width) == pad(v, width) <==> v >= 0)
    && (width == 0 && v < 0 ==> pad(v, 0) != "" && pad(Unsigned(v), 0) != "" && pad(Unsigned(v), 0)[0] != pad(v, 0)[0])
  }

  predicate TellsLine(pad: Padding, m: Msg, t: Tm) {
    && Tells(pad, t.year + 1900, 0) && Tells(pad, t.mon + 1, 2) && Tells(pad, t.mday, 2) && Tells(pad, t.hour, 2)
    && Tells(pad, t.min, 2) && Tells(pad, t.sec, 2) && Tells(pad, Millis(m), 3)
  }

  lemma SignTells(pad: Padding, v: int, width: nat)
    requires v < 0 && '-' in pad(v, width) && '-' !in pad(Unsigned(v), width)
    requires width == 0 ==>
               && pad(v, 0) != "" && pad(v, 0)[0] == '-'
               && pad(Unsigned(v), 0) != "" && pad(Unsigned(v), 0)[0] != '-'
    ensures Tells(pad, v, width)
  {
  }

  lemma UnsignedPad(v: int, width: nat)
    requires v < 0x1_0000_0000
    ensures Tells(Pad, v, width)
  {
    if v < 0 {
      PadSign(v, width);
      PadSign(Unsigned(v), width);
      SignTells(Pad, v, width);
    }
  }

  lemma PadTells(m: Msg, t: Tm)
    requires ValidTm(t)
    ensures TellsLine(Pad, m, t)
  {
    UnsignedPad(t.year + 1900, 0);
    UnsignedPad(t.mon + 1, 2);
    UnsignedPad(t.mday, 2);
    UnsignedPad(t.hour, 2);
    UnsignedPad(t.min, 2);
    UnsignedPad(t.sec, 2);
    UnsignedPad(Millis(m), 3);
  }

  /** text gives the flags of the full pattern their values. */
  predicate LineTexts(m: Msg, t: Tm, pad: Padding, text: char -> string) {
    && text('Y') == pad(t.year + 1900, 0) && text('m') == pad(t.mon + 1, 2) && text('d') == pad(t.mday, 2)
    && text('H') == pad(t.hour, 2) && text('M') == pad(t.min, 2) && text('S') == pad(t.sec, 2)
    && text('e') == pad(Millis(m), 3) && text('n') == m.loggerName && text('l') == Name(LEVEL_NAMES, m.level)
    && text('v') == m.raw && text('+') == Full(m, t, pad)
  }

  lemma FlagTexts(m: Msg, t: Tm, pad: Padding, text: char -> string)
    requires text('Y') == FlagText('Y', m, t, pad) && text('m') == FlagText('m', m, t, pad)
    requires text('d') == FlagText('d', m, t, pad)
    requires text('H') == FlagText('H', m, t, pad) && text('M') == FlagText('M', m, t, pad)
    requires text('S') == FlagText('S', m, t, pad)
    requires text('e') == FlagText('e', m, t, pad) && text('n') == FlagText('n', m, t, pad)
    requires text('l') == FlagText('l', m, t, pad)
    requires text('v') == FlagText('v', m, t, pad) && text('+') == FlagText('+', m, t, pad)
    ensures LineTexts(m, t, pad, text)
  {
  }

  lemma LineIsPattern(m: Msg, t: Tm, pad: Padding, text: char -> string)
    requires LineTexts(m, t, pad, text)
    ensures Interpret(FullPattern(), text) == Line(m, t, pad)
  {
    InterpretFull(text);
    WrittenLine(text('Y'), text('m'), text('d'), text('H'), text('M'), text('S'), text('e'), text('n'), text('l'),
      text('v'));
  }

  /** Two more parts of a line written from the left. */
  lemma WrittenOn(before: string, literal: string, text: string, rest: string)
    ensures before + literal + text + rest == before + Then(literal, text, rest)
  {
  }

  lemma WrittenTail(before: string, name: string, level: string, raw: string)
    ensures before + "] " + "[" + name + "] " + "[" + level + "] " + raw == before + TailLine(name, level, raw)
  {
    var a := before + "] [" + name;
    assert before + "] " + "[" + name == a;
    var b := a + "] [" + level;
    assert a + "] " + "[" + level == b;
    assert raw + "" == raw;
    WrittenOn(b, "] ", raw, "");
    assert b + "] " + raw + "" == b + "] " + raw;
    WrittenOn(a, "] [", level, Then("] ", raw, ""));
    WrittenOn(before, "] [", name, Then("] [", level, Then("] ", raw, "")));
  }

  lemma WrittenTime(before: string, h: string, mi: string, se: string, rest: string)
    ensures before + " " + h + ":" + mi + ":" + se + rest == before + TimeLine(h, mi, se, rest)
  {
    WrittenOn(before + " " + h + ":" + mi, ":", se, rest);
    WrittenOn(before + " " + h, ":", mi, Then(":", se, rest));
    WrittenOn(before, " ", h, Then(":", mi, Then(":", se, rest)));
  }

  lemma WrittenDate(y: string, mo: string, d: string, rest: string)
    ensures "[" + y + "-" + mo + "-" + d + rest == DateLine(y, mo, d, rest)
  {
    WrittenOn("[" + y + "-" + mo, "-", d, rest);
    WrittenOn("[" + y, "-", mo, Then("-", d, rest));
  }

  /** Writing the parts from the left gives the line. */
  lemma WrittenLine(y: string, mo: string, d: string, h: string, mi: string, se: string, e: string, name: string,
                    level: string, raw: string)
    ensures Shifted(y, mo, d, h, mi, se, e, name, level, raw)
         == DateLine(y, mo, d, TimeLine(h, mi, se, Then(".", e, TailLine(name, level, raw))))
  {
    var date := "[" + y + "-" + mo + "-" + d;
    var time := date + " " + h + ":" + mi + ":" + se;
    var tail := TailLine(name, level, raw);
    WrittenTail(time + "." + e, name, level, raw);
    WrittenOn(time, ".", e, tail);
    WrittenTime(date, h, mi, se, Then(".", e, tail));
    WrittenDate(y, mo, d, TimeLine(h, mi, se, Then(".", e, tail)));
  }

  lemma FullIsLine(m: Msg, t: Tm, pad: Padding)
    requires ValidTm(t) && TellsLine(pad, m, t)
    ensures Full(m, t, pad) == Line(m, t, pad) <==> t.year + 1900 >= 0 && Millis(m) >= 0
  {
    ShiftedDiffer(pad(Unsigned(t.year + 1900), 0), pad(t.year + 1900, 0), pad(t.mon + 1, 2), pad(t.mday, 2),
      pad(t.hour, 2), pad(t.min, 2), pad(t.sec, 2), pad(Unsigned(Millis(m)), 3), pad(Millis(m), 3),
      m.loggerName, Name(LEVEL_NAMES, m.level), m.raw);
  }

  /** Lines whose years are the same or begin differently agree exactly when years and milliseconds do. */
  lemma ShiftedDiffer(y: string, y': string, mo: string, d: string, h: string, mi: string, se: string,
                      e: string, e': string, name: string, level: string, raw: string)
    requires y == y' || (y != "" && y' != "" && y[0] != y'[0])
    ensures Shifted(y, mo, d, h, mi, se, e, name, level, raw) == Shifted(y', mo, d, h, mi, se, e', name, level, raw)
       <==> y == y' && e == e'
  {
    WrittenLine(y, mo, d, h, mi, se, e, name, level, raw);
    WrittenLine(y', mo, d, h, mi, se, e', name, level, raw);
    LinesDiffer(y, y', mo, d, h, mi, se, e, e', TailLine(name, level, raw));
  }

  lemma LinesDiffer(y: string, y': string, mo: string, d: string, h: string, mi: string, se: string, e: string,
                    e': string, tail: string)
    requires y == y' || (y != "" && y' != "" && y[0] != y'[0])
    ensures DateLine(y, mo, d, TimeLine(h, mi, se, Then(".", e, tail)))
              == DateLine(y', mo, d, TimeLine(h, mi, se, Then(".", e', tail)))
       <==> y == y' && e == e'
  {
    var u, v := TimeLine(h, mi, se, Then(".", e, tail)), TimeLine(h, mi, se, Then(".", e', tail));
    if y != y' {
      YearFirst(y, mo, d, u);
      YearFirst(y', mo, d, v);
    } else if DateLine(y, mo, d, u) == DateLine(y, mo, d, v) {
      SameMillis(y, mo, d, h, mi, se, e, e', tail);
    }
  }

  lemma PlusIsPattern(m: Msg, t: Tm, pad: Padding, text: char -> string)
    requires ValidTm(t) && TellsLine(pad, m, t) && LineTexts(m, t, pad, text)
    ensures Interpret("%+", text) == Interpret(FullPattern(), text) <==> t.year + 1900 >= 0 && Millis(m) >= 0
  {
    InterpretPlus(text);
    LineIsPattern(m, t, pad, text);
    FullIsLine(m, t, pad);
  }

  lemma InterpretPlus(text: char -> string)
    ensures Interpret("%+", text) == text('+')
  {
    InterpretPiece("", '+', "", text);
    assert Piece("", '+', "") == "%+";
  }

  /** The flag '+' writes what its pattern writes if and only if neither the year nor the milliseconds are negative. */
  lemma FullIsPattern(m: Msg, t: Tm)
    requires ValidTm(t)
    ensures Interpret("%+", Meaning(m, t)) == Interpret("[%Y-%m-%d %H:%M:%S.%e] [%n] [%l] %v", Meaning(m, t))
       <==> t.year + 1900 >= 0 && Millis(m) >= 0
  {
    FullPatternText();
    FlagTexts(m, t, Pad, Meaning(m, t));
    PadTells(m, t);
    PlusIsPattern(m, t, Pad, Meaning(m, t));
  }

  lemma LastMillisecond(m: Msg)
    requires m.time == -1_000_000
    ensures Millis(m) == -1 && Unsigned(Millis(m)) == 4294967295
  {
  }

  /**
    One millisecond before the epoch, whatever the broken-down time, the flag does not write what its pattern writes.
   */
  lemma BeforeEpoch(m: Msg, t: Tm)
    requires m.time == -1_000_000 && ValidTm(t)
    ensures Interpret("%+", Meaning(m, t)) != Interpret("[%Y-%m-%d %H:%M:%S.%e] [%n] [%l] %v", Meaning(m, t))
  {
    LastMillisecond(m);
    FullIsPattern(m, t);
  }
}
