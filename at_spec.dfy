// The AT command handler as functions on values: the line framer of
// read_line, the command matching of handle, what each command handler
// prints, does to the pins and writes to the store, handle as one step of the
// whole machine, and loadConfig.

module AtSpec {
  import opened CFormat
  import opened Hal
  import opened Prefs

  const BUFFER_LENGTH: nat := 1024
  // The longest line the buffer holds next to its terminating NUL.
  const MAX_LINE: nat := BUFFER_LENGTH - 1

  const FIRMWARE_VERSION: string := "1.0"
  const NAMESPACE: string := "plant-watering"
  const MIN_KEY: string := "minsoilm"
  const MAX_KEY: string := "maxsoilm"
  // The default loadConfig passes to getInt for an absent key.
  const LOAD_DEFAULT: int := 0

  const CRLF: string := "\r\n"
  const OK: string := "OK\r\n"
  const ERROR: string := "ERROR\r\n"
  const UNKNOWN_COMMAND: string := "unknown command\r\n"
  const SOIL_NOT_CONFIGURED: string := "soil moisture pin (PIN_SOILM) is not configured\r\n"
  const PUMP_NOT_CONFIGURED: string := "pump pin (PIN_PUMP) is not configured\r\n"
  const PUMP_PREFIX: string := "AT+PUMP="

  // ---------------------------------------------------------------------
  // Line framer

  /** The framer either still holds a partial line or has produced a complete one. */
  datatype Framed = Pending(partial: string) | Complete(line: string)

  /** What one read_line call leaves: the framing outcome and the bytes it did not read. */
  datatype ReadResult = ReadResult(framed: Framed, rest: string)

  /**
   * read_line from the accumulated partial line: \r is dropped; \n, or any
   * other byte arriving when MAX_LINE bytes are held, ends the line and is
   * consumed; when the input runs out the partial line is kept.
   */
  function FrameLine(partial: string, input: string): (r: ReadResult)
    ensures r.framed.Pending? ==> r.rest == []
    ensures r.framed.Complete? ==> |r.rest| < |input|
    decreases |input|
  {
    if input == [] then ReadResult(Pending(partial), [])
    else if input[0] == '\r' then FrameLine(partial, input[1..])
    else if input[0] != '\n' && |partial| < MAX_LINE then FrameLine(partial + [input[0]], input[1..])
    else ReadResult(Complete(partial), input[1..])
  }

  /** A line holds no line-break characters. */
  predicate NoBreaks(s: string)
  {
    '\r' !in s && '\n' !in s
  }

  /** s without its carriage returns. */
  function StripCR(s: string): (r: string)
    ensures |r| <= |s|
    ensures forall c :: c in r <==> c in s && c != '\r'
  {
    if s == [] then []
    else if s[0] == '\r' then StripCR(s[1..])
    else [s[0]] + StripCR(s[1..])
  }

  // ---------------------------------------------------------------------
  // Commands

  datatype Command =
    | Ping
    | Version
    | ReadSoil
    | CalibrateMin
    | CalibrateMax
    | PumpOff
    | Pump(duration: int)
    | Unknown

  /** sscanf(text, "AT+PUMP=%d", &timeout): the converted value when it returns 1. */
  function ScanPump(text: string): (r: Option<int>)
    ensures r.Some? ==> PUMP_PREFIX <= text && |text| > |PUMP_PREFIX|
  {
    if PUMP_PREFIX <= text then ScanInt(text[|PUMP_PREFIX|..]) else None
  }

  /** handle's exact strcmp tests in order, then the sscanf pattern, else unknown. */
  function Classify(text: string): (r: Command)
    ensures r.Pump? ==> ScanPump(text) == Some(r.duration)
    ensures r.Unknown? ==> ScanPump(text) == None
  {
    if text == "AT" then Ping
    else if text == "AT+GMR" then Version
    else if text == "AT+SOILM?" then ReadSoil
    else if text == "AT+MINSOILM" then CalibrateMin
    else if text == "AT+MAXSOILM" then CalibrateMax
    else if text == "AT+PUMPOFF" then PumpOff
    else PatternCommand(text)
  }

  /** The part of handle after the exact tests: the sscanf pattern, else unknown. */
  function PatternCommand(text: string): (r: Command)
    ensures r.Pump? || r.Unknown?
    ensures r.Pump? ==> PUMP_PREFIX <= text
  {
    match ScanPump(text)
    case Some(n) => Pump(n)
    case None => Unknown
  }

  /** Each fixed command text is recognised as its command. */
  lemma ClassifyFixed()
    ensures Classify("AT") == Ping && Classify("AT+GMR") == Version && Classify("AT+SOILM?") == ReadSoil
    ensures Classify("AT+MINSOILM") == CalibrateMin && Classify("AT+MAXSOILM") == CalibrateMax
    ensures Classify("AT+PUMPOFF") == PumpOff
  {
  }

  /** A text that is none of the fixed commands is left to the sscanf pattern. */
  lemma ClassifyFallsThrough(text: string)
    requires text != "AT" && text != "AT+GMR" && text != "AT+SOILM?"
    requires text != "AT+MINSOILM" && text != "AT+MAXSOILM" && text != "AT+PUMPOFF"
    ensures Classify(text) == PatternCommand(text)
  {
  }

  /** The text a controller sends for a command. */
  function CommandText(c: Command): string
    requires !c.Unknown?
  {
    match c
    case Ping => "AT"
    case Version => "AT+GMR"
    case ReadSoil => "AT+SOILM?"
    case CalibrateMin => "AT+MINSOILM"
    case CalibrateMax => "AT+MAXSOILM"
    case PumpOff => "AT+PUMPOFF"
    case Pump(n) => PUMP_PREFIX + FormatInt(n)
  }

  // ---------------------------------------------------------------------
  // Command handlers

  /** PIN_SOILM and PIN_PUMP; 0 means the pin is not configured. */
  datatype Pins = Pins(soil: int, pump: int)

  datatype Calibration = Calibration(minSoil: int, maxSoil: int)

  /** What a command handler leaves: thresholds, store, printed text and hardware events. */
  datatype Effect = Effect(cal: Calibration, data: Namespaces, output: string, events: seq<Event>)

  /** begin(NAMESPACE, false), putInt(key, value), end(): the write lands only if the namespace opens. */
  function Persist(data: Namespaces, opens: bool, key: string, value: int): (r: Namespaces)
    ensures forall n :: n in data ==> n in r
    ensures forall n :: n in r && n != NAMESPACE ==> n in data && r[n] == data[n]
    ensures opens ==> NAMESPACE in r && key in r[NAMESPACE] && r[NAMESPACE][key] == value
  {
    if opens then Store(data, NAMESPACE, key, value) else data
  }

  /** The handler of each command, given the value analogRead yields. */
  function Execute(pins: Pins, c: Command, cal: Calibration, data: Namespaces, opens: bool, sample: int): (e: Effect)
    ensures e.output != [] && |e.events| <= 3
    ensures e.cal.minSoil == cal.minSoil || c == CalibrateMin
    ensures e.cal.maxSoil == cal.maxSoil || c == CalibrateMax
    ensures e.data == data || (opens && (c == CalibrateMin || c == CalibrateMax))
  {
    match c
    case Ping => Effect(cal, data, OK, [])
    case Version => Effect(cal, data, FIRMWARE_VERSION + CRLF + OK, [])
    case ReadSoil =>
      if pins.soil == 0 then Effect(cal, data, SOIL_NOT_CONFIGURED + ERROR, [])
      else Effect(cal, data, FormatInt(sample) + CRLF + OK, [Sampled(pins.soil)])
    case CalibrateMin =>
      if pins.soil == 0 then Effect(cal, data, SOIL_NOT_CONFIGURED + ERROR, [])
      else Effect(cal.(minSoil := sample), Persist(data, opens, MIN_KEY, sample),
                  FormatInt(sample) + CRLF + OK, [Sampled(pins.soil)])
    case CalibrateMax =>
      if pins.soil == 0 then Effect(cal, data, SOIL_NOT_CONFIGURED + ERROR, [])
      else Effect(cal.(maxSoil := sample), Persist(data, opens, MAX_KEY, sample),
                  FormatInt(sample) + CRLF + OK, [Sampled(pins.soil)])
    case PumpOff =>
      if pins.pump == 0 then Effect(cal, data, PUMP_NOT_CONFIGURED + ERROR, [])
      else Effect(cal, data, OK, [Wrote(pins.pump, High)])
    case Pump(ms) =>
      if pins.pump == 0 then Effect(cal, data, PUMP_NOT_CONFIGURED + ERROR, [])
      else Effect(cal, data, OK, [Wrote(pins.pump, Low), Waited(ms), Wrote(pins.pump, High)])
    case Unknown => Effect(cal, data, UNKNOWN_COMMAND + ERROR, [])
  }

  // ---------------------------------------------------------------------
  // The handler as a whole

  /** The handler's state: the partial line, the thresholds and the persisted store. */
  datatype Machine = Machine(partial: string, cal: Calibration, data: Namespaces)

  /** What one handle call leaves: the new state, the output, the events and the unread input. */
  datatype Step = Step(machine: Machine, output: string, events: seq<Event>, rest: string)

  /** handle: frame at most one line; an empty or missing line does nothing, any other is executed. */
  function HandleStep(pins: Pins, m: Machine, input: string, sample: int, opens: bool): (s: Step)
    ensures |s.rest| <= |input|
    ensures s.output == [] ==> s.events == [] && s.machine.cal == m.cal && s.machine.data == m.data
    ensures s.output != [] ==> s.machine.partial == [] && |s.rest| < |input|
  {
    var r := FrameLine(m.partial, input);
    match r.framed
    case Pending(p) => Step(m.(partial := p), [], [], r.rest)
    case Complete(line) =>
      if line == [] then Step(m.(partial := []), [], [], r.rest)
      else
        var e := Execute(pins, Classify(CStr(line)), m.cal, m.data, opens, sample);
        Step(Machine([], e.cal, e.data), e.output, e.events, r.rest)
  }

  /** The thresholds loadConfig reads from an opened store. */
  function Loaded(data: Namespaces): (r: Calibration)
    ensures NAMESPACE in data && MIN_KEY in data[NAMESPACE] ==> r.minSoil == data[NAMESPACE][MIN_KEY]
    ensures NAMESPACE in data && MAX_KEY in data[NAMESPACE] ==> r.maxSoil == data[NAMESPACE][MAX_KEY]
    ensures NAMESPACE !in data || MIN_KEY !in data[NAMESPACE] ==> r.minSoil == LOAD_DEFAULT
    ensures NAMESPACE !in data || MAX_KEY !in data[NAMESPACE] ==> r.maxSoil == LOAD_DEFAULT
  {
    Calibration(Lookup(data, NAMESPACE, MIN_KEY, LOAD_DEFAULT), Lookup(data, NAMESPACE, MAX_KEY, LOAD_DEFAULT))
  }

  /**
   * loadConfig: the stored thresholds, or the old ones when the read-only
   * open fails, which it does on a store that cannot be opened and on one
   * where the namespace was never created.
   */
  function LoadSpec(cal: Calibration, data: Namespaces, opens: bool): (r: Calibration)
    ensures r == cal || r == Loaded(data)
    ensures r != cal ==> opens && NAMESPACE in data
    ensures opens && NAMESPACE in data ==> r == Loaded(data)
  {
    if opens && NAMESPACE in data then Loaded(data) else cal
  }

  /** The pinMode calls of the constructor. */
  function SetupEvents(pins: Pins): (r: seq<Event>)
    ensures forall i :: 0 <= i < |r| ==> r[i].ModeSet? && r[i].pin != 0
    ensures ModeSet(pins.soil, Input) in r <==> pins.soil != 0
    ensures ModeSet(pins.pump, Output) in r <==> pins.pump != 0
    ensures pins.soil != 0 && pins.pump != 0 ==> r == [ModeSet(pins.soil, Input), ModeSet(pins.pump, Output)]
  {
    (if pins.soil != 0 then [ModeSet(pins.soil, Input)] else [])
    + (if pins.pump != 0 then [ModeSet(pins.pump, Output)] else [])
  }
}
