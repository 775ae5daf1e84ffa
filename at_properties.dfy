// What the AT command handler promises, proved about the functions of AtSpec:
// the framer's bounds, its exact characterisation and its independence from
// how the input is chunked; the command grammar; the replies, pin events and
// store updates of a whole handle call; and the save/load round trip of the
// calibration thresholds.

module AtProperties {
  import opened CFormat
  import opened Hal
  import opened Prefs
  import opened AtSpec

  // ---------------------------------------------------------------------
  // Line framer

  /**
   * Emitted and pending lines stay within the buffer, hold no \r or \n, and
   * the unread rest is a suffix of the input.
   */
  lemma {:induction false} FrameLineBounded(partial: string, input: string)
    requires |partial| <= MAX_LINE && NoBreaks(partial)
    ensures var r := FrameLine(partial, input);
      |r.rest| <= |input| && r.rest == input[|input| - |r.rest|..]
      && match r.framed
         case Pending(p) => |p| <= MAX_LINE && NoBreaks(p)
         case Complete(line) => |line| <= MAX_LINE && NoBreaks(line)
    decreases |input|
  {
    if input != [] {
      var c := input[0];
      if c == '\r' {
        FrameLineBounded(partial, input[1..]);
      } else if c != '\n' && |partial| < MAX_LINE {
        FrameLineBounded(partial + [c], input[1..]);
      }
    }
  }

  /** Dropping carriage returns from joined text drops them from each part. */
  lemma {:induction false} StripCRConcat(a: string, b: string)
    ensures StripCR(a + b) == StripCR(a) + StripCR(b)
    decreases |a|
  {
    if a == [] {
      assert a + b == b;
    } else {
      assert (a + b)[0] == a[0] && (a + b)[1..] == a[1..] + b;
      StripCRConcat(a[1..], b);
    }
  }

  /**
   * StripCR is the filter that drops \r: every character is kept or dropped
   * where it stands, so the order and the count of the others are preserved.
   */
  lemma StripCRIsFilter(a: string, c: char, b: string)
    ensures StripCR(a + [c] + b) == StripCR(a) + (if c == '\r' then [] else [c]) + StripCR(b)
  {
    var one := [c];
    assert one[0] == c && one[1..] == [];
    assert StripCR(one) == (if c == '\r' then [] else [c]);
    StripCRConcat(a + one, b);
    StripCRConcat(a, one);
  }

  /**
   * read_line returns nothing, keeping the partial line and consuming all
   * input, exactly when the input holds no \n and does not overflow the buffer.
   */
  lemma {:induction false} FramePendingIff(partial: string, input: string)
    requires |partial| <= MAX_LINE
    ensures var r := FrameLine(partial, input);
      r.framed.Pending? <==> ('\n' !in input && |partial| + |StripCR(input)| <= MAX_LINE)
    ensures var r := FrameLine(partial, input);
      r.framed.Pending? ==> r.framed.partial == partial + StripCR(input) && r.rest == []
    decreases |input|
  {
    if input == [] {
      assert partial + [] == partial;
    } else {
      var c := input[0];
      assert input == [c] + input[1..];
      if c == '\r' {
        FramePendingIff(partial, input[1..]);
      } else if c != '\n' && |partial| < MAX_LINE {
        FramePendingIff(partial + [c], input[1..]);
        assert StripCR(input) == [c] + StripCR(input[1..]);
        assert partial + StripCR(input) == (partial + [c]) + StripCR(input[1..]);
      } else {
        assert c == '\n' || |partial| + |StripCR(input)| > MAX_LINE by {
          if c != '\n' {
            assert StripCR(input) == [c] + StripCR(input[1..]);
          }
        }
      }
    }
  }

  /**
   * The line read_line completes: a \n that arrives while the bytes before it
   * (without \r) fit, or any other byte arriving when MAX_LINE bytes are
   * held, ends the line; that byte is consumed and dropped, later bytes stay.
   */
  lemma {:induction false} FrameCompletes(partial: string, a: string, t: char, rest: string)
    requires '\n' !in a && t != '\r'
    requires |partial| + |StripCR(a)| <= MAX_LINE
    requires t == '\n' || |partial| + |StripCR(a)| == MAX_LINE
    ensures FrameLine(partial, a + [t] + rest) == ReadResult(Complete(partial + StripCR(a)), rest)
    decreases |a|
  {
    var input := a + [t] + rest;
    if a == [] {
      assert input == [t] + rest;
      assert partial + [] == partial;
    } else {
      var c := a[0];
      assert input[0] == c && input[1..] == a[1..] + [t] + rest;
      assert a == [c] + a[1..];
      if c == '\r' {
        FrameCompletes(partial, a[1..], t, rest);
      } else {
        assert StripCR(a) == [c] + StripCR(a[1..]);
        FrameCompletes(partial + [c], a[1..], t, rest);
        assert partial + StripCR(a) == (partial + [c]) + StripCR(a[1..]);
      }
    }
  }

  /**
   * The shape of a completed line: the terminating byte sits at index k of
   * the input, the line is what came before it without \r, and the rest is
   * exactly what follows it.
   */
  predicate CompletedAt(partial: string, input: string, k: int, line: string, rest: string)
  {
    0 <= k < |input| && input[k] != '\r' && '\n' !in input[..k]
    && rest == input[k + 1..]
    && line == partial + StripCR(input[..k])
    && (input[k] == '\n' || |line| == MAX_LINE)
  }

  /** Conversely, every line read_line completes has that shape. */
  lemma {:induction false} FrameCompleteShape(partial: string, input: string)
    requires |partial| <= MAX_LINE
    requires FrameLine(partial, input).framed.Complete?
    ensures var r := FrameLine(partial, input);
      CompletedAt(partial, input, |input| - |r.rest| - 1, r.framed.line, r.rest)
    decreases |input|
  {
    var r := FrameLine(partial, input);
    var c := input[0];
    if c == '\r' || (c != '\n' && |partial| < MAX_LINE) {
      var p := if c == '\r' then partial else partial + [c];
      FrameCompleteShape(p, input[1..]);
      assert input == [c] + input[1..];
      CompletedAfter(partial, c, input[1..], |input| - |r.rest| - 2, r.framed.line, r.rest);
    } else {
      assert input[..0] == [];
      assert partial + StripCR([]) == partial;
    }
  }

  /** A byte that is not \n in front of a completed line shifts its terminator by one. */
  lemma CompletedAfter(partial: string, c: char, tail: string, k: int, line: string, rest: string)
    requires c != '\n'
    requires CompletedAt(if c == '\r' then partial else partial + [c], tail, k, line, rest)
    ensures CompletedAt(partial, [c] + tail, k + 1, line, rest)
  {
    var input := [c] + tail;
    assert input[k + 1] == tail[k];
    assert input[..k + 1] == [c] + tail[..k];
    assert input[k + 2..] == tail[k + 1..];
    if c != '\r' {
      assert StripCR(input[..k + 1]) == [c] + StripCR(tail[..k]);
      assert partial + StripCR(input[..k + 1]) == (partial + [c]) + StripCR(tail[..k]);
    }
  }

  /** Overflow: a full buffer ends the line at the next byte that is not \r, even if it is no \n. */
  lemma FrameOverflow(partial: string, a: string, c: char, rest: string)
    requires '\n' !in a && |partial| + |StripCR(a)| == MAX_LINE
    requires c != '\r' && c != '\n'
    ensures FrameLine(partial, a + [c] + rest) == ReadResult(Complete(partial + StripCR(a)), rest)
    ensures |partial + StripCR(a)| == MAX_LINE
  {
    FrameCompletes(partial, a, c, rest);
  }

  /**
   * Feeding the input in two calls frames it as one call would: bytes that
   * leave the line pending are kept in the buffer for the next call.
   */
  lemma {:induction false} FrameChunked(partial: string, a: string, b: string)
    requires FrameLine(partial, a).framed.Pending?
    ensures FrameLine(partial, a + b) == FrameLine(FrameLine(partial, a).framed.partial, b)
    decreases |a|
  {
    if a == [] {
      assert a + b == b;
    } else {
      var c := a[0];
      assert (a + b)[0] == c && (a + b)[1..] == a[1..] + b;
      if c == '\r' {
        FrameChunked(partial, a[1..], b);
      } else if c != '\n' && |partial| < MAX_LINE {
        FrameChunked(partial + [c], a[1..], b);
      } else {
        assert false;
      }
    }
  }

  // ---------------------------------------------------------------------
  // Command grammar

  /** Every command is recognised from the text a controller sends for it. */
  lemma ClassifyCommandText(c: Command)
    requires !c.Unknown?
    ensures Classify(CommandText(c)) == c
  {
    ClassifyFixed();
    if c.Pump? {
      var text := CommandText(c);
      PumpTextIsNoFixedCommand(text);
      ScanFormatInt(c.duration, []);
      assert FormatInt(c.duration) + [] == FormatInt(c.duration);
      assert text[|PUMP_PREFIX|..] == FormatInt(c.duration);
    }
  }

  /** A text starting with AT+PUMP= passes every exact test and reaches the sscanf pattern. */
  lemma PumpTextIsNoFixedCommand(text: string)
    requires PUMP_PREFIX <= text
    ensures Classify(text) == PatternCommand(text)
  {
    assert text[3] == 'P' && text[7] == '=';
    ClassifyFallsThrough(text);
  }

  /**
   * AT+PUMP= followed by optional white space, a signed decimal and any
   * text that does not continue the number is the pump command with that number.
   */
  lemma ScanPumpReadsNumber(ws: string, n: int, tail: string)
    requires forall i :: 0 <= i < |ws| ==> IsSpace(ws[i])
    requires tail == [] || !IsDigit(tail[0])
    ensures ScanPump(PUMP_PREFIX + ws + FormatInt(n) + tail) == Some(n)
    ensures Classify(PUMP_PREFIX + ws + FormatInt(n) + tail) == Pump(n)
  {
    var text := PUMP_PREFIX + ws + FormatInt(n) + tail;
    assert text == PUMP_PREFIX + (ws + FormatInt(n) + tail);
    assert text[|PUMP_PREFIX|..] == ws + FormatInt(n) + tail;
    ScanBlanksThenFormatInt(ws, n, tail);
    PumpTextIsNoFixedCommand(text);
  }

  /**
   * AT+PUMP= followed by optional white space, an optional + or - sign, any
   * non-empty run of decimal digits (leading zeros allowed) and text that
   * does not continue the number is the pump command with that value.
   */
  lemma ScanPumpReadsDecimal(ws: string, sign: string, d: string, tail: string)
    requires forall i :: 0 <= i < |ws| ==> IsSpace(ws[i])
    requires sign == "" || sign == "+" || sign == "-"
    requires d != [] && AllDigits(d)
    requires tail == [] || !IsDigit(tail[0])
    ensures var v := if sign == "-" then 0 - DecimalValue(d) as int else DecimalValue(d) as int;
      ScanPump(PUMP_PREFIX + ws + sign + d + tail) == Some(v)
      && Classify(PUMP_PREFIX + ws + sign + d + tail) == Pump(v)
  {
    var text := PUMP_PREFIX + ws + sign + d + tail;
    assert text == PUMP_PREFIX + (ws + sign + d + tail);
    assert text[|PUMP_PREFIX|..] == ws + sign + d + tail;
    ScanSignedDecimal(ws, sign, d, tail);
    PumpTextIsNoFixedCommand(text);
  }

  /** Whatever else a line is, if it fits the AT+PUMP=%d pattern it is the pump command. */
  lemma PatternDecidesPump(text: string)
    requires ScanPump(text).Some?
    ensures Classify(text) == Pump(ScanPump(text).value)
  {
    PumpTextIsNoFixedCommand(text);
  }

  /** AT+PUMP= without any digit after it is an unknown command. */
  lemma PumpWithoutNumberIsUnknown(s: string)
    requires forall i :: 0 <= i < |s| ==> !IsDigit(s[i])
    ensures ScanPump(PUMP_PREFIX + s) == None
    ensures Classify(PUMP_PREFIX + s) == Unknown
  {
    var text := PUMP_PREFIX + s;
    assert text[|PUMP_PREFIX|..] == s;
    ScanIntNeedsDigit(s);
    PumpTextIsNoFixedCommand(text);
  }

  /**
   * The pump command is recognised from nothing but AT+PUMP= followed by
   * text "%d" accepts, and its duration is the value read there.
   */
  lemma PumpShape(text: string)
    requires Classify(text).Pump?
    ensures PUMP_PREFIX <= text
    ensures exists ws, sign, d, tail :: SignedDecimal(text[|PUMP_PREFIX|..], Classify(text).duration, ws, sign, d, tail)
  {
    ScanIntShape(text[|PUMP_PREFIX|..]);
  }

  /** AT+PUMP= followed by text "%d" accepts with v is the pump command for v, and only that. */
  lemma PumpIff(s: string, v: int)
    ensures Classify(PUMP_PREFIX + s) == Pump(v)
        <==> exists ws, sign, d, tail :: SignedDecimal(s, v, ws, sign, d, tail)
  {
    var text := PUMP_PREFIX + s;
    assert text[|PUMP_PREFIX|..] == s;
    PumpTextIsNoFixedCommand(text);
    ScanIntIff(s, v);
  }

  /**
   * After AT+PUMP=, white space and an optional sign, anything but a digit
   * makes the command unknown ("AT+PUMP=x5", "AT+PUMP=+ 5").
   */
  lemma PumpNeedsLeadingDigit(ws: string, s: string)
    requires forall i :: 0 <= i < |ws| ==> IsSpace(ws[i])
    requires s == [] || !IsSpace(s[0])
    requires var u := if s != [] && (s[0] == '-' || s[0] == '+') then s[1..] else s;
      u == [] || !IsDigit(u[0])
    ensures Classify(PUMP_PREFIX + ws + s) == Unknown
  {
    var text := PUMP_PREFIX + ws + s;
    assert text[|PUMP_PREFIX|..] == ws + s;
    ScanIntNeedsLeadingDigit(ws, s);
    PumpTextIsNoFixedCommand(text);
  }

  /** AT+PUMPOFF does not fit the AT+PUMP=%d pattern, so testing it first decides nothing. */
  lemma PumpOffIsNotThePattern()
    ensures ScanPump("AT+PUMPOFF") == None
    ensures Classify("AT+PUMPOFF") == PumpOff
  {
    assert !(PUMP_PREFIX <= "AT+PUMPOFF") by {
      assert "AT+PUMPOFF"[7] != PUMP_PREFIX[7];
    }
    ClassifyFixed();
  }

  // ---------------------------------------------------------------------
  // Replies

  /** The two error kinds: an unknown command, or a command whose pin is not configured. */
  predicate Fails(pins: Pins, c: Command)
  {
    c.Unknown?
    || ((c.ReadSoil? || c.CalibrateMin? || c.CalibrateMax?) && pins.soil == 0)
    || ((c.PumpOff? || c.Pump?) && pins.pump == 0)
  }

  /** Nothing, or text terminated by CRLF. */
  predicate EndsInLine(s: string)
  {
    s == [] || (|s| >= 2 && s[|s| - 2..] == CRLF)
  }

  /** Nothing, or exactly one text line terminated by CRLF. */
  predicate AtMostOneLine(s: string)
  {
    EndsInLine(s) && (s != [] ==> NoBreaks(s[..|s| - 2]))
  }

  /** A text without line breaks followed by CRLF is one text line. */
  lemma OneLine(text: string)
    requires NoBreaks(text)
    ensures AtMostOneLine(text + CRLF)
  {
    var s := text + CRLF;
    assert s[..|s| - 2] == text && s[|s| - 2..] == CRLF;
  }

  /**
   * Every reply is its body followed by the status line, ERROR exactly for
   * the two error kinds and OK otherwise. The body is empty or ends in CRLF,
   * and on success it is at most one line: the version or the sample.
   */
  lemma ReplyFormat(pins: Pins, c: Command, cal: Calibration, data: Namespaces, opens: bool, sample: int)
    ensures var out := Execute(pins, c, cal, data, opens, sample).output;
      var status := if Fails(pins, c) then ERROR else OK;
      |out| >= |status| && out[|out| - |status|..] == status
      && EndsInLine(out[..|out| - |status|])
      && (!Fails(pins, c) ==> AtMostOneLine(out[..|out| - |status|]))
  {
    ReplySplits(pins, c, cal, data, opens, sample);
    SplitStatus(ReplyBody(pins, c, sample), if Fails(pins, c) then ERROR else OK);
    ReplyBodyShape(pins, c, sample);
  }

  /** What a command prints before its status line. */
  function ReplyBody(pins: Pins, c: Command, sample: int): string
  {
    if c.Unknown? then UNKNOWN_COMMAND
    else if Fails(pins, c) then (if c.PumpOff? || c.Pump? then PUMP_NOT_CONFIGURED else SOIL_NOT_CONFIGURED)
    else if c.Version? then FIRMWARE_VERSION + CRLF
    else if c.ReadSoil? || c.CalibrateMin? || c.CalibrateMax? then FormatInt(sample) + CRLF
    else []
  }

  /** Every reply is its body followed by ERROR for the two error kinds and OK otherwise. */
  lemma ReplySplits(pins: Pins, c: Command, cal: Calibration, data: Namespaces, opens: bool, sample: int)
    ensures Execute(pins, c, cal, data, opens, sample).output
         == ReplyBody(pins, c, sample) + (if Fails(pins, c) then ERROR else OK)
  {
    if c.Ping? || ((c.PumpOff? || c.Pump?) && pins.pump != 0) {
      assert ReplyBody(pins, c, sample) == [];
    }
  }

  /** A reply body is empty or ends in CRLF, and on success it is at most one line. */
  lemma ReplyBodyShape(pins: Pins, c: Command, sample: int)
    ensures EndsInLine(ReplyBody(pins, c, sample))
    ensures !Fails(pins, c) ==> AtMostOneLine(ReplyBody(pins, c, sample))
  {
    var body := ReplyBody(pins, c, sample);
    if Fails(pins, c) {
      ErrorMessageEndsInLine(body);
    } else if c.Version? {
      OneLine(FIRMWARE_VERSION);
    } else if c.ReadSoil? || c.CalibrateMin? || c.CalibrateMax? {
      FormatIntIsPrintable(sample);
      OneLine(FormatInt(sample));
    }
  }

  /** A reply is its body followed by its status line, and splits back into the two. */
  lemma SplitStatus(body: string, status: string)
    ensures var out := body + status;
      |out| >= |status| && out[|out| - |status|..] == status && out[..|out| - |status|] == body
  {
  }

  /** Each error message is a line of its own. */
  lemma ErrorMessageEndsInLine(message: string)
    requires message == UNKNOWN_COMMAND || message == SOIL_NOT_CONFIGURED || message == PUMP_NOT_CONFIGURED
    ensures EndsInLine(message)
  {
  }

  /** A failing command leaves thresholds and store as they were and touches no pin. */
  lemma FailureChangesNothing(pins: Pins, c: Command, cal: Calibration, data: Namespaces, opens: bool, sample: int)
    requires Fails(pins, c)
    ensures var e := Execute(pins, c, cal, data, opens, sample);
      e.cal == cal && e.data == data && e.events == []
  {
  }

  // ---------------------------------------------------------------------
  // handle, on a line that arrives whole

  /** The line a can complete with a \n from state m: it fits and reads as text. */
  predicate SendsLine(m: Machine, a: string, text: string)
  {
    '\n' !in a && |m.partial| + |StripCR(a)| <= MAX_LINE && m.partial + StripCR(a) == text
  }

  /** handle on a completed non-empty line runs the command its C string names and leaves the rest unread. */
  lemma HandleCommand(pins: Pins, m: Machine, a: string, line: string, rest: string, sample: int, opens: bool, c: Command)
    requires SendsLine(m, a, line) && line != [] && Classify(CStr(line)) == c
    ensures HandleStep(pins, m, a + "\n" + rest, sample, opens)
         == var e := Execute(pins, c, m.cal, m.data, opens, sample);
            Step(Machine([], e.cal, e.data), e.output, e.events, rest)
  {
    FrameCompletes(m.partial, a, '\n', rest);
    assert a + "\n" + rest == a + ['\n'] + rest;
  }

  /** handle on the text of a command runs that command. */
  lemma HandleCommandText(pins: Pins, m: Machine, a: string, rest: string, sample: int, opens: bool, c: Command)
    requires !c.Unknown? && !c.Pump? && SendsLine(m, a, CommandText(c))
    ensures HandleStep(pins, m, a + "\n" + rest, sample, opens)
         == var e := Execute(pins, c, m.cal, m.data, opens, sample);
            Step(Machine([], e.cal, e.data), e.output, e.events, rest)
  {
    ClassifyCommandText(c);
    CStrWithoutNul(CommandText(c));
    HandleCommand(pins, m, a, CommandText(c), rest, sample, opens, c);
  }

  /** Without a complete line, handle prints nothing, does nothing and only buffers the bytes. */
  lemma HandleWithoutLine(pins: Pins, m: Machine, input: string, sample: int, opens: bool)
    requires '\n' !in input && |m.partial| + |StripCR(input)| <= MAX_LINE
    ensures var s := HandleStep(pins, m, input, sample, opens);
      s.output == [] && s.events == [] && s.rest == []
      && s.machine == m.(partial := m.partial + StripCR(input))
  {
    FramePendingIff(m.partial, input);
  }

  /**
   * Bytes that arrive over several handle calls are answered as if they had
   * arrived in one: a call that completes no line only buffers them.
   */
  lemma HandleChunked(pins: Pins, m: Machine, a: string, b: string, sample: int, opens: bool)
    requires |m.partial| <= MAX_LINE && FrameLine(m.partial, a).framed.Pending?
    ensures var first := HandleStep(pins, m, a, sample, opens);
      first.output == [] && first.events == [] && first.rest == []
      && HandleStep(pins, first.machine, b, sample, opens) == HandleStep(pins, m, a + b, sample, opens)
  {
    var p := FrameLine(m.partial, a).framed.partial;
    FramePendingIff(m.partial, a);
    assert HandleStep(pins, m, a, sample, opens) == Step(m.(partial := p), [], [], []);
    FrameChunked(m.partial, a, b);
    SameFrameSameStep(pins, m.(partial := p), b, m, a + b, sample, opens);
  }

  /** handle depends on the partial line and the input only through what read_line makes of them. */
  lemma SameFrameSameStep(pins: Pins, m: Machine, x: string, n: Machine, y: string, sample: int, opens: bool)
    requires m.cal == n.cal && m.data == n.data
    requires FrameLine(m.partial, x) == FrameLine(n.partial, y)
    ensures HandleStep(pins, m, x, sample, opens) == HandleStep(pins, n, y, sample, opens)
  {
    var r := FrameLine(m.partial, x);
    if r.framed.Complete? && r.framed.line != [] {
      var e := Execute(pins, Classify(CStr(r.framed.line)), m.cal, m.data, opens, sample);
      assert HandleStep(pins, m, x, sample, opens) == Step(Machine([], e.cal, e.data), e.output, e.events, r.rest);
    }
  }

  /** An empty line produces no reply and changes nothing but the buffer. */
  lemma HandleEmptyLine(pins: Pins, m: Machine, a: string, rest: string, sample: int, opens: bool)
    requires SendsLine(m, a, [])
    ensures var s := HandleStep(pins, m, a + "\n" + rest, sample, opens);
      s.output == [] && s.events == [] && s.machine == Machine([], m.cal, m.data) && s.rest == rest
  {
    FrameCompletes(m.partial, a, '\n', rest);
    assert a + "\n" + rest == a + ['\n'] + rest;
  }

  /** AT is answered with OK alone. */
  lemma HandlePing(pins: Pins, m: Machine, a: string, rest: string, sample: int, opens: bool)
    requires SendsLine(m, a, "AT")
    ensures HandleStep(pins, m, a + "\n" + rest, sample, opens) == Step(Machine([], m.cal, m.data), OK, [], rest)
  {
    HandleCommandText(pins, m, a, rest, sample, opens, Ping);
  }

  /** AT+GMR is answered with the firmware version line and OK. */
  lemma HandleVersion(pins: Pins, m: Machine, a: string, rest: string, sample: int, opens: bool)
    requires SendsLine(m, a, "AT+GMR")
    ensures HandleStep(pins, m, a + "\n" + rest, sample, opens)
         == Step(Machine([], m.cal, m.data), "1.0" + CRLF + OK, [], rest)
  {
    HandleCommandText(pins, m, a, rest, sample, opens, Version);
  }

  /**
   * A line that is no command, including one that starts with AT+PUMP= but
   * has no number after it, is answered as unknown and changes nothing.
   */
  lemma HandleUnknown(pins: Pins, m: Machine, a: string, line: string, rest: string, sample: int, opens: bool)
    requires SendsLine(m, a, line) && line != []
    requires Classify(CStr(line)) == Unknown
    ensures HandleStep(pins, m, a + "\n" + rest, sample, opens)
         == Step(Machine([], m.cal, m.data), UNKNOWN_COMMAND + ERROR, [], rest)
  {
    HandleCommand(pins, m, a, line, rest, sample, opens, Unknown);
  }

  /** AT+PUMPOFF writes the pump pin HIGH and answers OK, or reports the missing pin. */
  lemma HandlePumpOff(pins: Pins, m: Machine, a: string, rest: string, sample: int, opens: bool)
    requires SendsLine(m, a, "AT+PUMPOFF")
    ensures HandleStep(pins, m, a + "\n" + rest, sample, opens)
         == if pins.pump == 0 then Step(Machine([], m.cal, m.data), PUMP_NOT_CONFIGURED + ERROR, [], rest)
            else Step(Machine([], m.cal, m.data), OK, [Wrote(pins.pump, High)], rest)
  {
    HandleCommandText(pins, m, a, rest, sample, opens, PumpOff);
  }

  /**
   * AT+PUMP=<n> drives the pump pin LOW, waits n ms and drives it HIGH before
   * answering OK, or reports the missing pin without touching it. Text after
   * the number, including anything after a NUL, is ignored.
   */
  lemma HandlePump(pins: Pins, m: Machine, a: string, n: int, tail: string, rest: string, sample: int, opens: bool)
    requires SendsLine(m, a, PUMP_PREFIX + FormatInt(n) + tail)
    requires tail == [] || !IsDigit(tail[0])
    ensures HandleStep(pins, m, a + "\n" + rest, sample, opens)
         == if pins.pump == 0 then Step(Machine([], m.cal, m.data), PUMP_NOT_CONFIGURED + ERROR, [], rest)
            else Step(Machine([], m.cal, m.data), OK, [Wrote(pins.pump, Low), Waited(n), Wrote(pins.pump, High)], rest)
  {
    var line := PUMP_PREFIX + FormatInt(n) + tail;
    PumpLineIsPump(n, tail);
    HandleCommand(pins, m, a, line, rest, sample, opens, Pump(n));
  }

  /** The C string of a pump line with any text after the number names the pump command with that number. */
  lemma PumpLineIsPump(n: int, tail: string)
    requires tail == [] || !IsDigit(tail[0])
    ensures Classify(CStr(PUMP_PREFIX + FormatInt(n) + tail)) == Pump(n)
  {
    var text := PUMP_PREFIX + FormatInt(n) + CStr(tail);
    PumpHeadHasNoNul(n);
    CStrAfterPrefix(PUMP_PREFIX + FormatInt(n), tail);
    CStrKeepsFirst(tail);
    PumpNumberScan(n, CStr(tail));
    PumpTextIsNoFixedCommand(text);
  }

  /** The pattern reads the printed number back when no digit follows it. */
  lemma PumpNumberScan(n: int, t: string)
    requires t == [] || !IsDigit(t[0])
    ensures ScanPump(PUMP_PREFIX + FormatInt(n) + t) == Some(n)
  {
    assert (PUMP_PREFIX + FormatInt(n) + t)[|PUMP_PREFIX|..] == FormatInt(n) + t;
    ScanFormatInt(n, t);
  }

  /** AT+PUMP= and a printed number hold no NUL. */
  lemma PumpHeadHasNoNul(n: int)
    ensures '\0' !in PUMP_PREFIX + FormatInt(n)
  {
    FormatIntIsPrintable(n);
  }

  /** A non-empty C string starts where its buffer starts. */
  lemma CStrKeepsFirst(s: string)
    ensures CStr(s) == [] || CStr(s)[0] == s[0]
  {
  }

  /** AT+SOILM? answers the single analogRead sample and changes nothing, or reports the missing pin. */
  lemma HandleReadSoil(pins: Pins, m: Machine, a: string, rest: string, sample: int, opens: bool)
    requires SendsLine(m, a, "AT+SOILM?")
    ensures HandleStep(pins, m, a + "\n" + rest, sample, opens)
         == if pins.soil == 0 then Step(Machine([], m.cal, m.data), SOIL_NOT_CONFIGURED + ERROR, [], rest)
            else Step(Machine([], m.cal, m.data), FormatInt(sample) + CRLF + OK, [Sampled(pins.soil)], rest)
  {
    HandleCommandText(pins, m, a, rest, sample, opens, ReadSoil);
  }

  /**
   * AT+MINSOILM sets the minimum threshold and the stored minsoilm to the
   * sample and answers it; the maximum is untouched in memory and in the
   * store. Without the sensor pin nothing changes.
   */
  lemma HandleCalibrateMin(pins: Pins, m: Machine, a: string, rest: string, sample: int, opens: bool)
    requires SendsLine(m, a, "AT+MINSOILM")
    ensures var s := HandleStep(pins, m, a + "\n" + rest, sample, opens);
      s.rest == rest && s.machine.partial == []
      && (pins.soil == 0 ==>
            s.output == SOIL_NOT_CONFIGURED + ERROR && s.events == []
            && s.machine.cal == m.cal && s.machine.data == m.data)
      && (pins.soil != 0 ==>
            s.output == FormatInt(sample) + CRLF + OK && s.events == [Sampled(pins.soil)]
            && s.machine.cal == Calibration(sample, m.cal.maxSoil)
            && (opens ==> Lookup(s.machine.data, NAMESPACE, MIN_KEY, LOAD_DEFAULT) == sample)
            && (!opens ==> s.machine.data == m.data)
            && Lookup(s.machine.data, NAMESPACE, MAX_KEY, LOAD_DEFAULT) == Lookup(m.data, NAMESPACE, MAX_KEY, LOAD_DEFAULT))
  {
    HandleCommandText(pins, m, a, rest, sample, opens, CalibrateMin);
    StoreThenLookup(m.data, NAMESPACE, MIN_KEY, sample, NAMESPACE, MIN_KEY, LOAD_DEFAULT);
    StoreThenLookup(m.data, NAMESPACE, MIN_KEY, sample, NAMESPACE, MAX_KEY, LOAD_DEFAULT);
  }

  /** AT+MAXSOILM: the symmetric case for the maximum threshold and maxsoilm. */
  lemma HandleCalibrateMax(pins: Pins, m: Machine, a: string, rest: string, sample: int, opens: bool)
    requires SendsLine(m, a, "AT+MAXSOILM")
    ensures var s := HandleStep(pins, m, a + "\n" + rest, sample, opens);
      s.rest == rest && s.machine.partial == []
      && (pins.soil == 0 ==>
            s.output == SOIL_NOT_CONFIGURED + ERROR && s.events == []
            && s.machine.cal == m.cal && s.machine.data == m.data)
      && (pins.soil != 0 ==>
            s.output == FormatInt(sample) + CRLF + OK && s.events == [Sampled(pins.soil)]
            && s.machine.cal == Calibration(m.cal.minSoil, sample)
            && (opens ==> Lookup(s.machine.data, NAMESPACE, MAX_KEY, LOAD_DEFAULT) == sample)
            && (!opens ==> s.machine.data == m.data)
            && Lookup(s.machine.data, NAMESPACE, MIN_KEY, LOAD_DEFAULT) == Lookup(m.data, NAMESPACE, MIN_KEY, LOAD_DEFAULT))
  {
    HandleCommandText(pins, m, a, rest, sample, opens, CalibrateMax);
    StoreThenLookup(m.data, NAMESPACE, MAX_KEY, sample, NAMESPACE, MAX_KEY, LOAD_DEFAULT);
    StoreThenLookup(m.data, NAMESPACE, MAX_KEY, sample, NAMESPACE, MIN_KEY, LOAD_DEFAULT);
  }

  /** Every handle call keeps the framer's invariant: the partial line fits and has no line break. */
  lemma HandleKeepsFramer(pins: Pins, m: Machine, input: string, sample: int, opens: bool)
    requires |m.partial| <= MAX_LINE && NoBreaks(m.partial)
    ensures var s := HandleStep(pins, m, input, sample, opens);
      |s.machine.partial| <= MAX_LINE && NoBreaks(s.machine.partial)
      && |s.rest| <= |input| && s.rest == input[|input| - |s.rest|..]
  {
    FrameLineBounded(m.partial, input);
  }

  // ---------------------------------------------------------------------
  // Calibration store

  /** loadConfig reads back what a calibration command saved, and the other key as it was. */
  lemma LoadAfterSave(data: Namespaces, key: string, value: int, cal: Calibration)
    requires key == MIN_KEY || key == MAX_KEY
    ensures var loaded := LoadSpec(cal, Persist(data, true, key, value), true);
      (key == MIN_KEY ==> loaded == Calibration(value, Loaded(data).maxSoil))
      && (key == MAX_KEY ==> loaded == Calibration(Loaded(data).minSoil, value))
  {
    StoreThenLookup(data, NAMESPACE, key, value, NAMESPACE, MIN_KEY, LOAD_DEFAULT);
    StoreThenLookup(data, NAMESPACE, key, value, NAMESPACE, MAX_KEY, LOAD_DEFAULT);
  }

  /**
   * The save/load round trip: after AT+MINSOILM and AT+MAXSOILM on a
   * configured sensor with a working store, a reload (a restart) yields
   * exactly the thresholds the commands set in memory.
   */
  lemma CalibrationSurvivesRestart(pins: Pins, cal: Calibration, data: Namespaces, low: int, high: int, boot: Calibration)
    requires pins.soil != 0
    ensures var e1 := Execute(pins, CalibrateMin, cal, data, true, low);
      var e2 := Execute(pins, CalibrateMax, e1.cal, e1.data, true, high);
      e2.cal == Calibration(low, high) && LoadSpec(boot, e2.data, true) == e2.cal
  {
    var d1 := Persist(data, true, MIN_KEY, low);
    LoadAfterSave(data, MIN_KEY, low, boot);
    LoadAfterSave(d1, MAX_KEY, high, boot);
  }

  /**
   * loadConfig on a store without saved thresholds. On a device where no
   * calibration ever ran the namespace does not exist, the read-only open
   * fails and the thresholds stay as they were; a namespace without the keys
   * loads the default 0 for both; a store that cannot be opened changes nothing.
   */
  lemma LoadWithoutCalibration(data: Namespaces, cal: Calibration)
    ensures NAMESPACE !in data ==> LoadSpec(cal, data, true) == cal
    ensures NAMESPACE in data && MIN_KEY !in data[NAMESPACE] && MAX_KEY !in data[NAMESPACE]
            ==> LoadSpec(cal, data, true) == Calibration(0, 0)
    ensures LoadSpec(cal, data, false) == cal
  {
  }
}
