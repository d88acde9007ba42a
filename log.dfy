// The C logger: a bounded registry of sinks, the level filter that picks
// the sinks an event goes to, and log_print, the small interpreter that
// expands a sink's format string into one output line.
//
// Timestamps, the basename of the source file and the formatted payload
// arrive as strings; the colour codes are SGR control sequences kept as
// opaque strings.

module Log {

  datatype Option<T> = None | Some(value: T)

  /// LOG_MAX_SINKS, LOG_MAX_PAYLOAD_LENGTH and LOG_MSG_LENGTH.
  const MaxSinks: nat := 8
  const MaxPayload: nat := 256
  const MsgLength: nat := 512

  datatype Level = Trace | Debug | Info | Warn | Err | Crit
  {
    /// The numeric value of the C enum.
    function Rank(): (r: nat)
      ensures r < 6
    {
      match this
      case Trace => 0
      case Debug => 1
      case Info => 2
      case Warn => 3
      case Err => 4
      case Crit => 5
    }
  }

  /// A sink: an output stream (an opaque handle), the lowest level it
  /// accepts, whether it is coloured, and its format (None for NULL).
  datatype Sink = Sink(fifo: nat, level: Level, color: bool, fmt: Option<string>)

  /// The zero-initialised slot of the static sink table.
  const EmptySink: Sink := Sink(0, Trace, false, None)

  /// The sinks the four header helpers register: every level, default format.
  function StandardSink(fifo: nat, color: bool): (s: Sink)
    ensures s.level == Trace && s.fmt == None && s.fifo == fifo && s.color == color
  {
    Sink(fifo, Trace, color, None)
  }

  /// The two renderings of the event's local time that log_print uses:
  /// strftime's "%T" (HH:MM:SS) and "%F %T" (YYYY-MM-DD HH:MM:SS).
  datatype Clock = Clock(time: string, dateTime: string)

  /// A log event. fname is the basename with extension of file.
  datatype Event = Event(level: Level, file: string, fname: string, line: int, clock: Clock, payload: string)

  // ---------------------------------------------------------------------
  // Constant strings

  const Esc: char := 27 as char

  function Sgr(code: string): string
  {
    [Esc, '['] + code + "m"
  }

  const Reset: string := Sgr("0")

  /// The colour of the ^...$ range for each level.
  function LevelColor(l: Level): (r: string)
    ensures |r| > 0 && r[0] == Esc
  {
    match l
    case Trace => Sgr("37")
    case Debug => Sgr("36")
    case Info => Sgr("32")
    case Warn => Sgr("1;33")
    case Err => Sgr("1;31")
    case Crit => Sgr("1;41")
  }

  /// Colours of the fields; payload and level have none.
  const TimeColor: Option<string> := Some(Sgr("34"))
  const PayloadColor: Option<string> := None
  const LevelFieldColor: Option<string> := None
  const FileColor: Option<string> := Some(Sgr("35"))
  const LineColor: Option<string> := Some(Sgr("33"))

  /// The level names are padded to eight characters.
  function LowerName(l: Level): (r: string)
    ensures |r| == 8
  {
    match l
    case Trace => "trace   "
    case Debug => "debug   "
    case Info => "info    "
    case Warn => "warning "
    case Err => "error   "
    case Crit => "critical"
  }

  function UpperName(l: Level): (r: string)
    ensures |r| == 8
  {
    match l
    case Trace => "TRACE   "
    case Debug => "DEBUG   "
    case Info => "INFO    "
    case Warn => "WARNING "
    case Err => "ERROR   "
    case Crit => "CRITICAL"
  }

  const DefaultFormat: string := "[%T] %^%L%$ %f:%#: %v"

  // ---------------------------------------------------------------------
  // Decimal rendering of the line number ("%d")

  function DigitChar(d: nat): (c: char)
    requires d < 10
    ensures '0' <= c <= '9' && (c as int) - ('0' as int) == d
  {
    (('0' as int) + d) as char
  }

  function Digits(n: nat): (r: string)
    ensures |r| > 0 && forall k :: 0 <= k < |r| ==> '0' <= r[k] <= '9'
  {
    if n < 10 then [DigitChar(n)] else Digits(n / 10) + [DigitChar(n % 10)]
  }

  function Decimal(n: int): (r: string)
    ensures |r| > 0
  {
    if n < 0 then "-" + Digits(-n) else Digits(n)
  }

  /// The value of a run of decimal digits.
  function DigitsValue(s: string): nat
    requires forall k :: 0 <= k < |s| ==> '0' <= s[k] <= '9'
  {
    if s == [] then 0 else DigitsValue(s[..|s| - 1]) * 10 + ((s[|s| - 1] as int) - ('0' as int))
  }

  function ParseDecimal(s: string): int
    requires |s| > 0
    requires s[0] == '-' ==> forall k :: 1 <= k < |s| ==> '0' <= s[k] <= '9'
    requires s[0] != '-' ==> forall k :: 0 <= k < |s| ==> '0' <= s[k] <= '9'
  {
    if s[0] == '-' then -(DigitsValue(s[1..]) as int) else DigitsValue(s)
  }

  lemma {:induction false} DigitsRoundTrip(n: nat)
    ensures DigitsValue(Digits(n)) == n
  {
    if n >= 10 {
      var s := Digits(n / 10) + [DigitChar(n % 10)];
      assert s[..|s| - 1] == Digits(n / 10);
      DigitsRoundTrip(n / 10);
    }
  }

  /// The line number printed by "%d" reads back as the line number.
  lemma DecimalRoundTrip(n: int)
    ensures ParseDecimal(Decimal(n)) == n
  {
    if n < 0 {
      assert Decimal(n)[1..] == Digits(-n);
      DigitsRoundTrip(-n);
    } else {
      DigitsRoundTrip(n);
    }
  }

  // ---------------------------------------------------------------------
  // log_vlog's payload: vsnprintf into a 256-byte buffer

  /// The formatted message cut to what fits, terminator included.
  function Payload(msg: string): (r: string)
    ensures |r| < MaxPayload && r <= msg
    ensures |msg| < MaxPayload ==> r == msg
  {
    if |msg| < MaxPayload then msg else msg[..MaxPayload - 1]
  }

  // ---------------------------------------------------------------------
  // log_print

  /// The interpreter's state: the text written so far (its length is idx)
  /// and whether a '%' is pending.
  datatype State = State(out: string, flag: bool)

  /// A field: its colour before and the reset after, when coloured and
  /// the field has a colour.
  function Field(colored: bool, color: Option<string>, s: string): (r: string)
    ensures !colored ==> r == s
    ensures colored && color.Some? ==> r == color.value + s + Reset
  {
    if colored && color.Some? then color.value + s + Reset else s
  }

  /// A time field. strftime writes the text only when it and its
  /// terminator fit in the LOG_MSG_LENGTH - idx bytes left, and returns 0
  /// otherwise; once idx is past the end the difference converts to a
  /// huge size and the text is written anyway.
  function Stamp(out: string, colored: bool, t: string): (r: string)
    ensures out <= r
  {
    var o1 := out + (if colored then TimeColor.value else []);
    var o2 := o1 + (if |o1| + |t| < MsgLength || |o1| > MsgLength then t else []);
    o2 + (if colored then Reset else [])
  }

  /// One character of the format, switch fall-through included: a second
  /// '%' lands in the 't' case, and an unknown character after '%' is
  /// copied with the '%' still pending.
  function Step(s: State, c: char, colored: bool, ev: Event): State
  {
    if !s.flag then
      if c == '%' then State(s.out, true) else State(s.out + [c], false)
    else
      match c
      case '%' => State(Stamp(s.out, colored, ev.clock.time), false)
      case 't' => State(Stamp(s.out, colored, ev.clock.time), false)
      case 'T' => State(Stamp(s.out, colored, ev.clock.dateTime), false)
      case 'v' => State(s.out + Field(colored, PayloadColor, ev.payload), false)
      case 'l' => State(s.out + Field(colored, LevelFieldColor, LowerName(ev.level)), false)
      case 'L' => State(s.out + Field(colored, LevelFieldColor, UpperName(ev.level)), false)
      case 'f' => State(s.out + Field(colored, FileColor, ev.fname), false)
      case 'F' => State(s.out + Field(colored, FileColor, ev.file), false)
      case '#' => State(s.out + Field(colored, LineColor, Decimal(ev.line)), false)
      case '^' => State(s.out + (if colored then LevelColor(ev.level) else []), false)
      case '$' => State(s.out + (if colored then Reset else []), false)
      case _ => State(s.out + [c], true)
  }

  /// The whole format, one character after the other.
  function Run(s: State, fmt: string, colored: bool, ev: Event): State
    decreases |fmt|
  {
    if fmt == [] then s else Run(Step(s, fmt[0], colored, ev), fmt[1..], colored, ev)
  }

  /// What log_print produces: the line it prints, or Overrun when idx
  /// reaches LOG_MSG_LENGTH, so that the terminator (and possibly field
  /// text before it) is written past the end of the buffer.
  datatype Printed = Line(text: string) | Overrun

  function Print(fmt: Option<string>, colored: bool, ev: Event): Printed
  {
    Render(if fmt.None? then DefaultFormat else fmt.value, colored, ev)
  }

  /// The outcome of expanding the format f.
  function Render(f: string, colored: bool, ev: Event): Printed
  {
    var s := Run(State([], false), f, colored, ev);
    if |s.out| < MsgLength then Line(s.out) else Overrun
  }

  /// Expanding never takes text away.
  lemma {:induction false} RunGrows(s: State, fmt: string, colored: bool, ev: Event)
    ensures s.out <= Run(s, fmt, colored, ev).out
    decreases |fmt|
  {
    if fmt != [] {
      var s' := Step(s, fmt[0], colored, ev);
      assert s.out <= s'.out;
      RunGrows(s', fmt[1..], colored, ev);
    }
  }

  /// log_print: a NULL format stands for the default one.
  method LogPrint(fmt: Option<string>, colored: bool, ev: Event) returns (r: Printed)
    ensures r == Print(fmt, colored, ev)
  {
    var f := if fmt.None? then DefaultFormat else fmt.value;
    r := Interpret(f, colored, ev);
  }

  /// The loop of log_print, stopping once idx reaches LOG_MSG_LENGTH.
  method Interpret(f: string, colored: bool, ev: Event) returns (r: Printed)
    ensures r == Render(f, colored, ev)
  {
    var out: string := [];
    var flag := false;
    var i := 0;
    while i < |f| && |out| < MsgLength
      invariant 0 <= i <= |f|
      invariant Run(State([], false), f, colored, ev) == Run(State(out, flag), f[i..], colored, ev)
    {
      RunFrom(State(out, flag), f, i, colored, ev);
      out, flag := Switch(out, flag, f[i], colored, ev);
      i := i + 1;
    }
    ghost var final := Run(State([], false), f, colored, ev);
    if i < |f| {
      RunGrows(State(out, flag), f[i..], colored, ev);
      assert |final.out| >= MsgLength;
    } else {
      assert f[i..] == [];
      assert final.out == out;
    }
    if |out| < MsgLength {
      r := Line(out);
    } else {
      r := Overrun;
    }
  }

  /// Running from position i is one step and then running from i + 1.
  lemma RunFrom(s: State, f: string, i: nat, colored: bool, ev: Event)
    requires i < |f|
    ensures Run(s, f[i..], colored, ev) == Run(Step(s, f[i], colored, ev), f[i + 1..], colored, ev)
  {
    assert f[i..][0] == f[i] && f[i..][1..] == f[i + 1..];
  }

  /// The body of log_print's loop: the switch on one format character.
  method Switch(out: string, flag: bool, c: char, colored: bool, ev: Event) returns (out': string, flag': bool)
    ensures State(out', flag') == Step(State(out, flag), c, colored, ev)
  {
    out', flag' := out, false;
    if !flag && c == '%' {
      flag' := true;
    } else if !flag {
      out' := out + [c];
    } else if c == '%' || c == 't' || c == 'T' {
      var t := if c == 'T' then ev.clock.dateTime else ev.clock.time;
      if colored {
        out' := out' + TimeColor.value;
      }
      if |out'| + |t| < MsgLength || |out'| > MsgLength {
        out' := out' + t;
      }
      if colored {
        out' := out' + Reset;
      }
    } else if c == 'v' {
      out' := out + Field(colored, PayloadColor, ev.payload);
    } else if c == 'l' || c == 'L' {
      var name := if c == 'l' then LowerName(ev.level) else UpperName(ev.level);
      out' := out + Field(colored, LevelFieldColor, name);
    } else if c == 'f' || c == 'F' {
      var name := if c == 'f' then ev.fname else ev.file;
      out' := out + Field(colored, FileColor, name);
    } else if c == '#' {
      out' := out + Field(colored, LineColor, Decimal(ev.line));
    } else if c == '^' {
      if colored {
        out' := out + LevelColor(ev.level);
      }
    } else if c == '$' {
      if colored {
        out' := out + Reset;
      }
    } else {
      out', flag' := out + [c], true;
    }
  }

  // ---------------------------------------------------------------------
  // What log_print does with its format

  /// Text without '%' is copied as it stands, directive letters included.
  lemma {:induction false} LiteralText(o: string, s: string, colored: bool, ev: Event)
    requires forall k :: 0 <= k < |s| ==> s[k] != '%'
    ensures Run(State(o, false), s, colored, ev) == State(o + s, false)
    decreases |s|
  {
    if s != [] {
      LiteralText(o + [s[0]], s[1..], colored, ev);
      assert o + [s[0]] + s[1..] == o + s;
    }
  }

  /// A character that is no directive is copied after '%', and the '%'
  /// stays pending for the next character.
  lemma UnknownDirective(o: string, c: char, colored: bool, ev: Event)
    requires c !in "%tTvlLfF#^$"
    ensures Step(State(o, true), c, colored, ev) == State(o + [c], true)
  {
  }

  /// An unknown directive leaves its '%' pending: in "%x%v" the 'x' is
  /// copied, the next '%' then prints the time, and the 'v' is copied.
  lemma UnknownDirectiveShiftsNext(ev: Event)
    requires |ev.clock.time| < MsgLength - 2
    ensures Print(Some("%x%v"), false, ev) == Line("x" + ev.clock.time + "v")
  {
    var s1 := Step(State([], false), '%', false, ev);
    var s2 := Step(s1, 'x', false, ev);
    var s3 := Step(s2, '%', false, ev);
    var s4 := Step(s3, 'v', false, ev);
    assert s4 == State("x" + ev.clock.time + "v", false);
    assert Run(s4, [], false, ev) == s4;
  }

  /// The default format, cut where the proofs below take it apart.
  const FileTail: string := ['%', 'f'] + ([':'] + (['%', '#'] + ([':', ' '] + ['%', 'v'])))
  const LevelTail: string := ['%', '^'] + (['%', 'L'] + (['%', '$'] + ([' '] + FileTail)))

  lemma DefaultFormatParts()
    ensures DefaultFormat == ['['] + (['%', 'T'] + ([']', ' '] + LevelTail))
  {
  }

  /// A NULL format prints the default layout.
  lemma DefaultLayout(ev: Event)
    requires |ev.clock.dateTime| + |ev.fname| + |Decimal(ev.line)| + |ev.payload| + 16 < MsgLength
    ensures Print(None, false, ev) ==
      Line("[" + ev.clock.dateTime + "] " + UpperName(ev.level) + " " + ev.fname + ":" + Decimal(ev.line) + ": " + ev.payload)
  {
    var o3 := "[" + ev.clock.dateTime + "] ";
    var o5 := o3 + UpperName(ev.level) + " ";
    LayoutTime(ev);
    LayoutLevel(o3, ev);
    LayoutFile(o5, ev);
  }

  /// "[%T] " prints the bracketed date and time.
  lemma LayoutTime(ev: Event)
    requires |ev.clock.dateTime| + 1 < MsgLength
    ensures Run(State([], false), DefaultFormat, false, ev) ==
      Run(State("[" + ev.clock.dateTime + "] ", false), LevelTail, false, ev)
  {
    DefaultFormatParts();
    RunLiteral([], ['['], ['%', 'T'] + ([']', ' '] + LevelTail), false, ev);
    assert [] + ['['] == "[";
    LayoutStamp("[", ev);
  }

  lemma LayoutStamp(o: string, ev: Event)
    requires |o| + |ev.clock.dateTime| < MsgLength
    ensures Run(State(o, false), ['%', 'T'] + ([']', ' '] + LevelTail), false, ev) ==
      Run(State(o + ev.clock.dateTime + "] ", false), LevelTail, false, ev)
  {
    var o2 := o + ev.clock.dateTime;
    StepTime(o, ev);
    RunDirective(o, 'T', [']', ' '] + LevelTail, o2, ev);
    RunLiteral(o2, [']', ' '], LevelTail, false, ev);
  }

  /// "%^%L%$ " prints the upper-case level name, uncoloured.
  lemma LayoutLevel(o: string, ev: Event)
    ensures Run(State(o, false), LevelTail, false, ev) ==
      Run(State(o + UpperName(ev.level) + " ", false), FileTail, false, ev)
  {
    var o4 := o + UpperName(ev.level);
    var f6 := [' '] + FileTail;
    var f5 := ['%', '$'] + f6;
    var f4 := ['%', 'L'] + f5;
    StepLevelColor(o, ev);
    RunDirective(o, '^', f4, o, ev);
    StepUpper(o, ev);
    RunDirective(o, 'L', f5, o4, ev);
    StepReset(o4, ev);
    RunDirective(o4, '$', f6, o4, ev);
    RunLiteral(o4, [' '], FileTail, false, ev);
  }

  /// "%f:%#: %v" prints the basename, the line and the payload.
  lemma LayoutFile(o: string, ev: Event)
    ensures Run(State(o, false), FileTail, false, ev) ==
      State(o + ev.fname + ":" + Decimal(ev.line) + ": " + ev.payload, false)
  {
    var o6 := o + ev.fname;
    var o7 := o6 + ":";
    var o8 := o7 + Decimal(ev.line);
    var o9 := o8 + ": ";
    var o10 := o9 + ev.payload;
    var f11 := ['%', 'v'];
    var f10 := [':', ' '] + f11;
    var f9 := ['%', '#'] + f10;
    var f8 := [':'] + f9;
    StepFile(o, ev);
    RunDirective(o, 'f', f8, o6, ev);
    RunLiteral(o6, [':'], f9, false, ev);
    StepLine(o7, ev);
    RunDirective(o7, '#', f10, o8, ev);
    RunLiteral(o8, [':', ' '], f11, false, ev);
    StepPayload(o9, ev);
    assert f11 == ['%', 'v'] + [];
    RunDirective(o9, 'v', [], o10, ev);
    assert Run(State(o10, false), [], false, ev) == State(o10, false);
  }

  lemma StepTime(o: string, ev: Event)
    requires |o| + |ev.clock.dateTime| < MsgLength
    ensures Step(State(o, true), 'T', false, ev) == State(o + ev.clock.dateTime, false)
  {
  }

  lemma StepLevelColor(o: string, ev: Event)
    ensures Step(State(o, true), '^', false, ev) == State(o, false)
  {
  }

  lemma StepUpper(o: string, ev: Event)
    ensures Step(State(o, true), 'L', false, ev) == State(o + UpperName(ev.level), false)
  {
  }

  lemma StepReset(o: string, ev: Event)
    ensures Step(State(o, true), '$', false, ev) == State(o, false)
  {
  }

  lemma StepFile(o: string, ev: Event)
    ensures Step(State(o, true), 'f', false, ev) == State(o + ev.fname, false)
  {
  }

  lemma StepLine(o: string, ev: Event)
    ensures Step(State(o, true), '#', false, ev) == State(o + Decimal(ev.line), false)
  {
  }

  lemma StepPayload(o: string, ev: Event)
    ensures Step(State(o, true), 'v', false, ev) == State(o + ev.payload, false)
  {
  }

  /// Literal text at the front of the format is copied.
  lemma RunLiteral(o: string, lit: string, rest: string, colored: bool, ev: Event)
    requires forall k :: 0 <= k < |lit| ==> lit[k] != '%'
    ensures Run(State(o, false), lit + rest, colored, ev) == Run(State(o + lit, false), rest, colored, ev)
  {
    RunAppend(State(o, false), lit, rest, colored, ev);
    LiteralText(o, lit, colored, ev);
  }

  /// A directive at the front of the format is one step with '%' pending.
  lemma RunDirective(o: string, c: char, rest: string, o': string, ev: Event)
    requires Step(State(o, true), c, false, ev) == State(o', false)
    ensures Run(State(o, false), ['%', c] + rest, false, ev) == Run(State(o', false), rest, false, ev)
  {
    var f := ['%', c] + rest;
    assert f[0] == '%' && f[1..][0] == c && f[1..][1..] == rest;
  }

  /// Running a concatenation runs its parts in turn.
  lemma {:induction false} RunAppend(s: State, f: string, g: string, colored: bool, ev: Event)
    ensures Run(s, f + g, colored, ev) == Run(Run(s, f, colored, ev), g, colored, ev)
    decreases |f|
  {
    if f != [] {
      assert (f + g)[0] == f[0] && (f + g)[1..] == f[1..] + g;
      assert Run(s, f + g, colored, ev) == Run(Step(s, f[0], colored, ev), f[1..] + g, colored, ev);
      RunAppend(Step(s, f[0], colored, ev), f[1..], g, colored, ev);
    } else {
      assert f + g == g;
    }
  }

  /// Without colour no escape character is printed that the format and
  /// the event's strings do not already hold.
  lemma {:induction false} UncoloredHasNoEscape(s: State, fmt: string, ev: Event)
    requires Esc !in s.out && Esc !in fmt
    requires Esc !in ev.clock.time && Esc !in ev.clock.dateTime && Esc !in ev.payload
    requires Esc !in ev.fname && Esc !in ev.file
    ensures Esc !in Run(s, fmt, false, ev).out
    decreases |fmt|
  {
    if fmt != [] {
      var s' := Step(s, fmt[0], false, ev);
      assert Esc !in Decimal(ev.line) by {
        assert forall k :: 0 <= k < |Decimal(ev.line)| ==> Decimal(ev.line)[k] != Esc;
      }
      assert Esc !in LowerName(ev.level) && Esc !in UpperName(ev.level);
      assert Esc !in s'.out;
      UncoloredHasNoEscape(s', fmt[1..], ev);
    }
  }

  /// Field appends are bounded only at the start of each step: a long
  /// file path or three full payloads take idx past the buffer.
  lemma PayloadsOverrun(ev: Event)
    requires |ev.payload| == MaxPayload - 1
    ensures Print(Some("%v%v%v"), false, ev) == Overrun
  {
    var s := Run(State([], false), "%v%v%v", false, ev);
    assert "%v%v%v" == "%v" + "%v%v";
    RunAppend(State([], false), "%v", "%v%v", false, ev);
    assert "%v%v" == "%v" + "%v";
    RunAppend(State(ev.payload, false), "%v", "%v", false, ev);
    assert s.out == ev.payload + ev.payload + ev.payload;
  }

  // ---------------------------------------------------------------------
  // "%%": printed as the time, intended as a literal '%'

  /// As written, "%%" prints the time, not '%'.
  lemma PercentPrintsTime(ev: Event)
    requires |ev.clock.time| < MsgLength - 1
    ensures Print(Some("%%"), false, ev) == Line(ev.clock.time)
    ensures ev.clock.time != "%" ==> Print(Some("%%"), false, ev) != Line("%")
  {
    var s2 := Step(Step(State([], false), '%', false, ev), '%', false, ev);
    assert s2 == State(ev.clock.time, false);
    assert Run(s2, [], false, ev) == s2;
  }

  /// The step as intended: a second '%' prints '%'.
  function StepIntended(s: State, c: char, colored: bool, ev: Event): State
  {
    if s.flag && c == '%' then State(s.out + "%", false) else Step(s, c, colored, ev)
  }

  function RunIntended(s: State, fmt: string, colored: bool, ev: Event): State
    decreases |fmt|
  {
    if fmt == [] then s else RunIntended(StepIntended(s, fmt[0], colored, ev), fmt[1..], colored, ev)
  }

  function PrintIntended(fmt: Option<string>, colored: bool, ev: Event): Printed
  {
    var f := if fmt.None? then DefaultFormat else fmt.value;
    var s := RunIntended(State([], false), f, colored, ev);
    if |s.out| < MsgLength then Line(s.out) else Overrun
  }

  /// Text with every '%' doubled.
  function Escaped(s: string): (r: string)
    ensures |r| >= |s|
  {
    if s == [] then [] else (if s[0] == '%' then "%%" else [s[0]]) + Escaped(s[1..])
  }

  /// With the intended step, escaped text prints as itself.
  lemma {:induction false} EscapedPrintsItself(o: string, s: string, colored: bool, ev: Event)
    ensures RunIntended(State(o, false), Escaped(s), colored, ev) == State(o + s, false)
    decreases |s|
  {
    if s != [] {
      var head := if s[0] == '%' then "%%" else [s[0]];
      assert Escaped(s) == head + Escaped(s[1..]);
      var s1 := State(o + [s[0]], false);
      if s[0] == '%' {
        assert RunIntended(State(o, false), Escaped(s), colored, ev)
            == RunIntended(State(o, true), "%" + Escaped(s[1..]), colored, ev);
        assert ("%" + Escaped(s[1..]))[1..] == Escaped(s[1..]);
      } else {
        assert Escaped(s)[1..] == Escaped(s[1..]);
      }
      EscapedPrintsItself(o + [s[0]], s[1..], colored, ev);
      assert o + [s[0]] + s[1..] == o + s;
    }
  }

  /// The intended printer prints "%%" as '%'.
  lemma PercentIntended(colored: bool, ev: Event)
    ensures PrintIntended(Some("%%"), colored, ev) == Line("%")
  {
    EscapedPrintsItself([], "%", colored, ev);
    assert Escaped("%") == "%%";
  }

  // ---------------------------------------------------------------------
  // The sink registry and log_vlog

  /// An event reaches a sink whose level is at most the event's.
  predicate Admits(s: Sink, l: Level)
  {
    l.Rank() >= s.level.Rank()
  }

  /// Indices of the sinks an event of level l reaches, in order.
  function Receivers(ss: seq<Sink>, l: Level): (r: seq<nat>)
    ensures forall k :: 0 <= k < |r| ==> r[k] < |ss|
  {
    if ss == [] then []
    else Receivers(ss[..|ss| - 1], l) + (if Admits(ss[|ss| - 1], l) then [|ss| - 1] else [])
  }

  /// Exactly the admitting sinks receive the event, each once, in
  /// registration order.
  lemma {:induction false} ReceiversExact(ss: seq<Sink>, l: Level)
    ensures forall i :: 0 <= i < |ss| ==> (i in Receivers(ss, l) <==> Admits(ss[i], l))
    ensures forall k, k' :: 0 <= k < k' < |Receivers(ss, l)| ==> Receivers(ss, l)[k] < Receivers(ss, l)[k']
  {
    if ss != [] {
      var front := ss[..|ss| - 1];
      ReceiversExact(front, l);
      forall i | 0 <= i < |front|
        ensures ss[i] == front[i]
      {
      }
    }
  }

  /// One line on one stream.
  datatype Emission = Emission(fifo: nat, text: Printed)

  /// log_vlog's output: each receiving sink prints the event with its own
  /// format and colouring.
  function Dispatch(ss: seq<Sink>, ev: Event): (r: seq<Emission>)
    ensures |r| == |Receivers(ss, ev.level)|
    ensures forall k :: 0 <= k < |r| ==>
      var s := ss[Receivers(ss, ev.level)[k]];
      r[k] == Emission(s.fifo, Print(s.fmt, s.color, ev))
  {
    if ss == [] then []
    else
      var s := ss[|ss| - 1];
      Dispatch(ss[..|ss| - 1], ev) + (if Admits(s, ev.level) then [Emission(s.fifo, Print(s.fmt, s.color, ev))] else [])
  }

  /// The event log_vlog builds.
  function MakeEvent(level: Level, file: string, fname: string, line: int, clock: Clock, msg: string): (ev: Event)
    ensures ev.level == level && ev.payload == Payload(msg)
  {
    Event(level, file, fname, line, clock, Payload(msg))
  }

  /// The static sink table and its fill index.
  class Logger {
    const sinks: array<Sink>
    var count: nat

    predicate Valid()
      reads this
    {
      sinks.Length == MaxSinks && count <= MaxSinks
    }

    function Registered(): seq<Sink>
      requires Valid()
      reads this, sinks
    {
      sinks[..count]
    }

    constructor ()
      ensures Valid() && Registered() == []
    {
      sinks := new Sink[MaxSinks](_ => EmptySink);
      count := 0;
    }

    /// log_add_sink: refused, and nothing changed, once eight sinks are
    /// registered; otherwise appended.
    method AddSink(s: Sink) returns (ok: bool)
      requires Valid()
      modifies this, sinks
      ensures Valid()
      ensures ok <==> old(count) < MaxSinks
      ensures ok ==> Registered() == old(Registered()) + [s]
      ensures !ok ==> count == old(count) && sinks[..] == old(sinks[..])
    {
      if count == MaxSinks {
        return false;
      }
      sinks[count] := s;
      count := count + 1;
      assert sinks[..count] == old(sinks[..count]) + [s];
      return true;
    }

    /// log_vlog: the event goes to every registered sink whose level it
    /// reaches, in registration order.
    method Vlog(level: Level, file: string, fname: string, line: int, clock: Clock, msg: string)
      returns (emitted: seq<Emission>)
      requires Valid()
      ensures emitted == Dispatch(Registered(), MakeEvent(level, file, fname, line, clock, msg))
    {
      var ev := MakeEvent(level, file, fname, line, clock, msg);
      emitted := [];
      var i := 0;
      while i < count
        invariant 0 <= i <= count
        invariant emitted == Dispatch(sinks[..i], ev)
      {
        var s := sinks[i];
        if ev.level.Rank() >= s.level.Rank() {
          var text := LogPrint(s.fmt, s.color, ev);
          emitted := emitted + [Emission(s.fifo, text)];
        }
        assert sinks[..i + 1][..i] == sinks[..i];
        i := i + 1;
      }
      assert sinks[..count] == Registered();
    }
  }
}
