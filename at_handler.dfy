// The AtHandler class: a fixed 1024-character buffer filled in place by
// ReadLine across calls, two calibration thresholds and a handle on the
// preferences store, updated by the command handlers that Handle dispatches
// to. Every method is proved against the functions of AtSpec.

module At {
  import opened CFormat
  import opened Hal
  import opened Prefs
  import opened AtSpec

  class AtHandler {
    // PIN_SOILM and PIN_PUMP; 0 means not configured.
    const soilPin: int
    const pumpPin: int
    const buffer: array<char>
    // The cursor read_line keeps in a function-static variable.
    var messagePos: nat
    const prefs: Preferences
    var minSoilMoisture: int
    var maxSoilMoisture: int
    // Declared and initialised by the source, never read or written after.
    var receiving: bool
    var configVersion: int

    /** The buffer holds a partial line that fits next to its NUL and has no line break; no namespace is open. */
    ghost predicate Valid()
      reads this, buffer, prefs
    {
      buffer.Length == BUFFER_LENGTH && messagePos <= MAX_LINE && NoBreaks(buffer[..messagePos])
      && !prefs.started
    }

    function Wiring(): Pins
      reads this
    {
      Pins(soilPin, pumpPin)
    }

    function Thresholds(): Calibration
      reads this
    {
      Calibration(minSoilMoisture, maxSoilMoisture)
    }

    /** The abstract state: the partial line in the buffer, the thresholds, the store. */
    ghost function State(): Machine
      reads this, buffer, prefs
      requires Valid()
    {
      Machine(buffer[..messagePos], Thresholds(), prefs.data)
    }

    constructor (soilPin: int, pumpPin: int, prefs: Preferences, hw: Board)
      requires !prefs.started
      modifies prefs`data, prefs`started, prefs`readOnly, prefs`ns, hw`trace
      ensures Valid() && fresh(buffer)
      ensures this.soilPin == soilPin && this.pumpPin == pumpPin && this.prefs == prefs
      ensures messagePos == 0 && !receiving && configVersion == 1
      ensures hw.trace == old(hw.trace) + SetupEvents(Pins(soilPin, pumpPin)) && prefs.data == old(prefs.data)
      ensures prefs.opens && NAMESPACE in prefs.data ==> Thresholds() == Loaded(prefs.data)
    {
      this.soilPin := soilPin;
      this.pumpPin := pumpPin;
      buffer := new char[BUFFER_LENGTH];
      messagePos := 0;
      this.prefs := prefs;
      receiving := false;
      configVersion := 1;
      new;
      if soilPin != 0 {
        hw.PinMode(soilPin, Input);
      }
      if pumpPin != 0 {
        hw.PinMode(pumpPin, Output);
      }
      LoadConfig();
    }

    /** handle: frames at most one line from input and answers it on out. */
    method Handle(input: Stream, out: Stream, hw: Board)
      requires Valid()
      modifies this`messagePos, this`minSoilMoisture, this`maxSoilMoisture, buffer
      modifies prefs`data, prefs`started, prefs`readOnly, prefs`ns, input`rx, out`tx, hw`trace
      ensures Valid()
      ensures var step := HandleStep(Wiring(), old(State()), old(input.rx), hw.sample, prefs.opens);
        State() == step.machine && input.rx == step.rest
        && out.tx == old(out.tx) + step.output && hw.trace == old(hw.trace) + step.events
    {
      ghost var r := FrameLine(buffer[..messagePos], input.rx);
      var length := ReadLine(input);
      if length == 0 {
        assert r.framed.Pending? || r.framed.line == [];
        return;
      }
      assert r.framed == Complete(buffer[..length]);
      Dispatch(CStr(buffer[..length]), out, hw);
    }

    /** The body of handle after a non-empty line: the strcmp tests in order, then the sscanf pattern. */
    method Dispatch(text: string, out: Stream, hw: Board)
      requires !prefs.started
      modifies this`minSoilMoisture, this`maxSoilMoisture
      modifies prefs`data, prefs`started, prefs`readOnly, prefs`ns, out`tx, hw`trace
      ensures !prefs.started
      ensures var e := Execute(Wiring(), Classify(text), old(Thresholds()), old(prefs.data), prefs.opens, hw.sample);
        Thresholds() == e.cal && prefs.data == e.data
        && out.tx == old(out.tx) + e.output && hw.trace == old(hw.trace) + e.events
    {
      ClassifyFixed();
      if text == "AT" {
        out.Print(OK);
      } else if text == "AT+GMR" {
        out.Print(FIRMWARE_VERSION);
        out.Print(CRLF);
        out.Print(OK);
      } else if text == "AT+SOILM?" {
        HandleSoilMoisture(out, hw);
      } else if text == "AT+MINSOILM" {
        HandleMinSoilMoistureSetup(out, hw);
      } else if text == "AT+MAXSOILM" {
        HandleMaxSoilMoistureSetup(out, hw);
      } else if text == "AT+PUMPOFF" {
        HandlePumpOff(out, hw);
      } else {
        ClassifyFallsThrough(text);
        DispatchPattern(text, out, hw);
      }
    }

    /** The end of handle: the sscanf pattern, else the unknown-command reply. */
    method DispatchPattern(text: string, out: Stream, hw: Board)
      modifies out`tx, hw`trace
      ensures var e := Execute(Wiring(), PatternCommand(text), old(Thresholds()), old(prefs.data), prefs.opens, hw.sample);
        out.tx == old(out.tx) + e.output && hw.trace == old(hw.trace) + e.events
    {
      var matched := ScanPump(text);
      if matched.Some? {
        HandlePump(matched.value, out, hw);
      } else {
        out.Print(UNKNOWN_COMMAND);
        out.Print(ERROR);
      }
    }

    method HandlePumpOff(out: Stream, hw: Board)
      modifies out`tx, hw`trace
      ensures var e := Execute(Wiring(), PumpOff, old(Thresholds()), old(prefs.data), prefs.opens, hw.sample);
        out.tx == old(out.tx) + e.output && hw.trace == old(hw.trace) + e.events
    {
      if pumpPin == 0 {
        out.Print(PUMP_NOT_CONFIGURED);
        out.Print(ERROR);
        return;
      }
      hw.DigitalWrite(pumpPin, High);
      out.Print(OK);
    }

    method HandlePump(timeout: int, out: Stream, hw: Board)
      modifies out`tx, hw`trace
      ensures var e := Execute(Wiring(), Pump(timeout), old(Thresholds()), old(prefs.data), prefs.opens, hw.sample);
        out.tx == old(out.tx) + e.output && hw.trace == old(hw.trace) + e.events
    {
      if pumpPin == 0 {
        out.Print(PUMP_NOT_CONFIGURED);
        out.Print(ERROR);
        return;
      }
      hw.DigitalWrite(pumpPin, Low);
      hw.Delay(timeout);
      hw.DigitalWrite(pumpPin, High);
      out.Print(OK);
    }

    /** read_line: moves bytes from input into buffer until a line is complete or input runs dry. */
    method ReadLine(input: Stream) returns (length: nat)
      requires Valid()
      modifies this`messagePos, buffer, input`rx
      ensures Valid()
      ensures length <= MAX_LINE
      ensures var r := FrameLine(old(buffer[..messagePos]), old(input.rx));
        input.rx == r.rest &&
        match r.framed
        case Pending(p) => length == 0 && buffer[..messagePos] == p
        case Complete(line) =>
          length == |line| && messagePos == 0 && buffer[..length] == line && buffer[length] == '\0'
    {
      while input.Available() > 0
        invariant Valid()
        invariant FrameLine(buffer[..messagePos], input.rx) == FrameLine(old(buffer[..messagePos]), old(input.rx))
        decreases |input.rx|
      {
        var b := input.Read();
        var inByte := b as char;
        if inByte == '\r' {
          continue;
        }
        if inByte != '\n' && messagePos < BUFFER_LENGTH - 1 {
          ghost var held := buffer[..messagePos];
          buffer[messagePos] := inByte;
          messagePos := messagePos + 1;
          assert buffer[..messagePos] == held + [inByte];
        } else {
          buffer[messagePos] := '\0';
          var result := messagePos;
          messagePos := 0;
          return result;
        }
      }
      return 0;
    }

    method HandleSoilMoisture(out: Stream, hw: Board)
      modifies out`tx, hw`trace
      ensures var e := Execute(Wiring(), ReadSoil, old(Thresholds()), old(prefs.data), prefs.opens, hw.sample);
        out.tx == old(out.tx) + e.output && hw.trace == old(hw.trace) + e.events
    {
      if soilPin == 0 {
        out.Print(SOIL_NOT_CONFIGURED);
        out.Print(ERROR);
        return;
      }
      var value := hw.AnalogRead(soilPin);
      out.Print(FormatInt(value) + CRLF);
      out.Print(OK);
    }

    method HandleMaxSoilMoistureSetup(out: Stream, hw: Board)
      requires !prefs.started
      modifies this`maxSoilMoisture, prefs`data, prefs`started, prefs`readOnly, prefs`ns, out`tx, hw`trace
      ensures !prefs.started
      ensures var e := Execute(Wiring(), CalibrateMax, old(Thresholds()), old(prefs.data), prefs.opens, hw.sample);
        Thresholds() == e.cal && prefs.data == e.data
        && out.tx == old(out.tx) + e.output && hw.trace == old(hw.trace) + e.events
    {
      if soilPin == 0 {
        out.Print(SOIL_NOT_CONFIGURED);
        out.Print(ERROR);
        return;
      }
      var value := hw.AnalogRead(soilPin);
      SaveThreshold(MAX_KEY, value);
      maxSoilMoisture := value;
      out.Print(FormatInt(value) + CRLF);
      out.Print(OK);
    }

    method HandleMinSoilMoistureSetup(out: Stream, hw: Board)
      requires !prefs.started
      modifies this`minSoilMoisture, prefs`data, prefs`started, prefs`readOnly, prefs`ns, out`tx, hw`trace
      ensures !prefs.started
      ensures var e := Execute(Wiring(), CalibrateMin, old(Thresholds()), old(prefs.data), prefs.opens, hw.sample);
        Thresholds() == e.cal && prefs.data == e.data
        && out.tx == old(out.tx) + e.output && hw.trace == old(hw.trace) + e.events
    {
      if soilPin == 0 {
        out.Print(SOIL_NOT_CONFIGURED);
        out.Print(ERROR);
        return;
      }
      var value := hw.AnalogRead(soilPin);
      SaveThreshold(MIN_KEY, value);
      minSoilMoisture := value;
      out.Print(FormatInt(value) + CRLF);
      out.Print(OK);
    }

    /** The begin, putInt, end sequence both calibration handlers run: the write lands only if the namespace opens. */
    method SaveThreshold(key: string, value: int)
      requires !prefs.started
      modifies prefs`data, prefs`started, prefs`readOnly, prefs`ns
      ensures !prefs.started && prefs.data == Persist(old(prefs.data), prefs.opens, key, value)
    {
      StoreIntoCreated(prefs.data, NAMESPACE, key, value);
      var _ := prefs.Begin(NAMESPACE, false);
      prefs.PutInt(key, value);
      prefs.End();
    }

    /** loadConfig: the thresholds from the store, untouched when the read-only open fails. */
    method LoadConfig()
      requires !prefs.started
      modifies this`minSoilMoisture, this`maxSoilMoisture, prefs`data, prefs`started, prefs`readOnly, prefs`ns
      ensures !prefs.started && prefs.data == old(prefs.data)
      ensures Thresholds() == LoadSpec(old(Thresholds()), prefs.data, prefs.opens)
    {
      var ok := prefs.Begin(NAMESPACE, true);
      if !ok {
        return;
      }
      minSoilMoisture := prefs.GetInt(MIN_KEY, LOAD_DEFAULT);
      maxSoilMoisture := prefs.GetInt(MAX_KEY, LOAD_DEFAULT);
      prefs.End();
    }
  }
}
