# AT command handler of the plant-watering node, in Dafny

The plant-watering firmware talks to a controller over a serial line in an
AT-style text protocol. `AtHandler` is its interpreter. It reassembles the
incoming byte stream into lines in a fixed 1024-byte buffer. It matches each
line against `AT`, `AT+GMR`, `AT+SOILM?`, `AT+MINSOILM`, `AT+MAXSOILM`,
`AT+PUMPOFF` and the pattern `AT+PUMP=%d`. It runs the command it names:
reading the soil-moisture sensor, driving the pump, or calibrating the
minimum and maximum thresholds, which it also writes to the `plant-watering`
preferences namespace. Every reply ends in `OK\r\n` or `ERROR\r\n`. At
construction it loads both thresholds back from that namespace.

The project has six modules:

- `CFormat` (`cformat.dfy`) holds the C library pieces the handler relies on:
  - the C-string view of a buffer, which is what `strcmp` and `sscanf` read;
  - printf's `%d`;
  - sscanf's `%d` (white space skipped, one optional sign, the longest digit run).
- `Hal` (`hal.dfy`) holds the Arduino primitives.
  - `pinMode`, `digitalWrite`, `delay` and `analogRead` are recorded in an event trace.
  - `analogRead` yields a sample that is supplied to the board.
  - A serial `Stream` is a class with a queue of unread bytes and a record of printed bytes. One object can be both the input and the output, as with `&Serial, &Serial`.
- `Prefs` (`preferences.dfy`) is the preferences store.
  - The store is a map from namespace to key to integer.
  - A flag says whether the flash can be opened; a read-only open also needs the namespace to exist.
  - A `Preferences` class models `begin`, `putInt`, `getInt` and `end`.
- `AtSpec` (`at_spec.dfy`) is the handler as functions on values:
  - the line framer `FrameLine` of `read_line`;
  - the matching `Classify`;
  - each command's effect `Execute`;
  - one whole `handle` call `HandleStep`;
  - `loadConfig` (`LoadSpec`).
- `At` (`at_handler.dfy`) is the class `AtHandler`.
  - It has the same fields as the source: buffer, cursor, the two thresholds, the preferences handle, and the unused `receiving` and `config_version`.
  - Its methods have the same statements as the source.
  - Each method is proved against the matching `AtSpec` function.
  - `read_line` is a `while` loop that fills the `array<char>` buffer in place. Its invariant says the buffer, together with the unread input, still frames to the same line.
- `AtProperties` (`at_properties.dfy`) proves what the protocol promises of those functions:
  - the framer's bounds and exact characterisation;
  - independence from how the input is split over calls;
  - the grammar, including the round trip of printf/sscanf through `AT+PUMP=`;
  - the exact reply, pin events and store update of every command;
  - the reply format;
  - the save/load round trip of the calibration.

The compile-time pins `PIN_SOILM` and `PIN_PUMP` are constructor parameters. As in the source, 0 means "not configured". A pump on is `LOW` and a pump off is `HIGH`.

The model follows the code as written. In particular:

- The sensor is read with a single `analogRead` on `PIN_SOILM`, and nothing else is done to the sensor around it.
- `loadConfig` passes 0 to `getInt` as the default for an absent key.
- `loadConfig` opens the namespace read-only. On the Preferences library that fails both when the flash cannot be opened and when the namespace was never created. The second case is a device on which no calibration command ever ran.
- When that open fails at construction, the thresholds keep whatever the fields held before. The fields are not zero-initialised, so the model promises nothing about them.
- A calibration command opens the namespace read-write, which creates it.
- A calibration command sets the in-memory threshold even when the namespace did not open and nothing was written.

## Model

| member | source | states |
|---|---|---|
| CFormat.FormatInt | lib/at/AtHandler.cpp:141 | printf's `%d` is non-empty, starts with `-` exactly for a negative number, and otherwise consists of decimal digits without a leading zero |
| CFormat.ScanInt | lib/at/AtHandler.cpp:75 | sscanf's `%d` succeeds only on non-empty text, and yields a negative value only when the first character after the white space is `-`; its full grammar in both directions is `ScanIntIff` |
| CFormat.CStr | lib/at/AtHandler.cpp:43-75 | the text strcmp and sscanf see is the prefix of the buffer before its first NUL, and holds no NUL |
| CFormat.CStrWithoutNul | lib/at/AtHandler.cpp:43-72 | a line without NUL is compared as written |
| CFormat.CStrAfterPrefix | lib/at/AtHandler.cpp:75 | a NUL-free prefix is read through into whatever follows it |
| CFormat.NatDigitsWellFormed | lib/at/AtHandler.cpp:141 | printf's `%d` digits are decimal digits, at least one, with no leading zero |
| CFormat.DecimalValueOfNatDigits | lib/at/AtHandler.cpp:141 | reading printf's digits of n as a decimal gives n |
| CFormat.ScanFormatInt | lib/at/AtHandler.cpp:75 | sscanf `%d` reads back any number printf `%d` wrote, negative ones included, when no digit follows it |
| CFormat.ScanIntSkipsBlanks | lib/at/AtHandler.cpp:75 | leading white space does not change what `%d` converts |
| CFormat.ScanIntNeedsDigit | lib/at/AtHandler.cpp:75-76 | without a decimal digit the `%d` conversion fails, so sscanf does not return 1 |
| CFormat.FormatIntIsPrintable | lib/at/AtHandler.cpp:141 | a printed number contains no CR, LF or NUL |
| CFormat.DigitRunIsMaximal | lib/at/AtHandler.cpp:75 | the digits `%d` consumes are the longest run of digits, and the next character is not a digit |
| CFormat.SkipSpaceOverBlanks | lib/at/AtHandler.cpp:75 | skipping white space in front of a text gives what skipping it in the text alone gives |
| CFormat.SkipSpaceRemovesLeadingSpace | lib/at/AtHandler.cpp:75 | `%d` skips exactly the leading white space: what it drops is white space, and what remains does not start with white space |
| CFormat.DigitRunStopsAtNonDigit | lib/at/AtHandler.cpp:75 | the digit run ends where the digits end, when what follows does not start with a digit |
| CFormat.ScanUnsigned | lib/at/AtHandler.cpp:75 | a digit run without a sign converts to its decimal value |
| CFormat.ScanNegative | lib/at/AtHandler.cpp:75 | a minus sign before a digit run converts to the negated decimal value |
| CFormat.ScanPositive | lib/at/AtHandler.cpp:75 | a plus sign before a digit run converts to the decimal value |
| CFormat.ScanSignedDecimal | lib/at/AtHandler.cpp:75 | white space, an optional `+` or `-` and any digit run, leading zeros included, that nothing continues converts to its signed decimal value |
| CFormat.ScanIntShape | lib/at/AtHandler.cpp:75 | conversely, whatever `%d` accepts is white space, an optional sign, a non-empty digit run and a tail that does not continue it, and the value is the signed value of that run |
| CFormat.ScanIntIff | lib/at/AtHandler.cpp:75 | `%d` yields v exactly when the text is white space, an optional sign and a maximal digit run whose signed value is v |
| CFormat.ScanIntNeedsLeadingDigit | lib/at/AtHandler.cpp:75-76 | after the white space and an optional sign the next character must be a digit, or the conversion fails |
| CFormat.CutForScan | lib/at/AtHandler.cpp:75 | every text splits into the white space, the sign, the digit run and the rest that `%d` reads it as |
| CFormat.ScanBlanksThenFormatInt | lib/at/AtHandler.cpp:75 | `%d` reads back any printed number after leading white space |
| Hal.Board.PinMode | lib/at/AtHandler.cpp:28 | pinMode appends exactly one mode event to the trace |
| Hal.Board.DigitalWrite | lib/at/AtHandler.cpp:93 | digitalWrite appends exactly one write event to the trace |
| Hal.Board.Delay | lib/at/AtHandler.cpp:104 | delay appends exactly one wait event carrying its argument |
| Hal.Board.AnalogRead | lib/at/AtHandler.cpp:140 | analogRead yields the board's sample and records the read |
| Hal.Stream.Available | lib/at/AtHandler.cpp:111 | available() is zero exactly when no byte is waiting |
| Hal.Stream.Read | lib/at/AtHandler.cpp:114 | read() removes and returns the first waiting byte, or -1 when there is none |
| Hal.Stream.Print | lib/at/AtHandler.cpp:44 | print appends its text to what the stream has sent, which nothing else changes |
| Prefs.StoreIntoCreated | lib/at/AtHandler.cpp:153-154 | creating the namespace at a read-write open and then storing into it is the same as storing into it |
| Prefs.StoreThenLookup | lib/at/AtHandler.cpp:153-155 | putInt then getInt in the same namespace and key yields the written value, and any other key reads as before |
| Prefs.Preferences.constructor | lib/at/AtHandler.h:24 | a new preferences handle has no namespace open |
| Prefs.Preferences.Begin | lib/at/AtHandler.cpp:180 | begin succeeds exactly when no namespace is open, the flash opens and, for a read-only open, the namespace already exists. Only on success does it open the named namespace in the requested mode, and a successful read-write open creates the namespace. It changes nothing else |
| Prefs.Preferences.PutInt | lib/at/AtHandler.cpp:154 | putInt writes into the open namespace only if it is open read-write, and changes nothing otherwise |
| Prefs.Preferences.GetInt | lib/at/AtHandler.cpp:183-184 | getInt yields the stored value, or the default when the key is absent or nothing is open |
| Prefs.Preferences.End | lib/at/AtHandler.cpp:185 | end closes the namespace |
| AtSpec.FrameLine | lib/at/AtHandler.cpp:109-132 | read_line as a function of the partial line and the input. A pending line has consumed all input, and a completed line has consumed at least its terminating byte. The rest of its contract is in the framer lemmas below |
| AtSpec.StripCR | lib/at/AtHandler.cpp:115-117 | removing the carriage returns keeps every other character and only those |
| AtProperties.StripCRConcat | lib/at/AtHandler.cpp:112-117 | dropping `\r` from joined input drops it from each part |
| AtProperties.StripCRIsFilter | lib/at/AtHandler.cpp:115-117 | every byte is kept or dropped where it stands, `\r` dropped and every other kept, so order and multiplicity of the rest are preserved |
| AtSpec.ScanPump | lib/at/AtHandler.cpp:75-76 | the `AT+PUMP=%d` pattern matches only a line that starts with `AT+PUMP=` and continues past it |
| AtSpec.Classify | lib/at/AtHandler.cpp:43-84 | the strcmp chain followed by the pattern. A pump command carries exactly the number the pattern converts, and an unknown command is a line the pattern does not match |
| AtSpec.PatternCommand | lib/at/AtHandler.cpp:74-84 | after the exact tests only the pump command or the unknown command can follow, and the pump command only on an `AT+PUMP=` line |
| AtSpec.Persist | lib/at/AtHandler.cpp:153-155 | begin, putInt, end for one threshold. Every namespace stays present, every other namespace is unchanged, and with a working flash the key holds the value |
| AtSpec.Execute | lib/at/AtHandler.cpp:87-177 | every command prints something and causes at most three pin events. Only `AT+MINSOILM` changes the minimum threshold and only `AT+MAXSOILM` the maximum, and only a calibration with a working flash changes the store |
| AtSpec.HandleStep | lib/at/AtHandler.cpp:38-85 | one handle call never grows the unread input. A call that prints nothing also touches no pin, threshold or store. A call that prints leaves the buffer empty and has consumed input |
| AtSpec.Loaded | lib/at/AtHandler.cpp:183-184 | each threshold is the stored `minsoilm` or `maxsoilm` when there is one, and 0 otherwise |
| AtSpec.LoadSpec | lib/at/AtHandler.cpp:179-186 | loadConfig either leaves both thresholds alone or reloads both, never one alone, it changes them only when the flash opens and the namespace exists, and then both become `Loaded` of the store (each its stored value or 0) |
| AtSpec.SetupEvents | lib/at/AtHandler.cpp:26-34 | the constructor sets a mode only on configured pins: input on the sensor pin exactly when it is configured, output on the pump pin exactly when it is configured, and the sensor first when both are |
| AtSpec.ClassifyFixed | lib/at/AtHandler.cpp:43-72 | each of the six exact command texts selects its handler |
| AtSpec.ClassifyFallsThrough | lib/at/AtHandler.cpp:74-84 | a line that is none of the six exact texts is decided by the `AT+PUMP=%d` pattern alone |
| At.AtHandler.constructor | lib/at/AtHandler.cpp:26-36 | sets the configured pins to input and output in that order, skipping unconfigured ones; `receiving` is false and `config_version` 1; with a flash that opens and a namespace that exists, the thresholds are the stored values or 0; the store is unchanged |
| At.AtHandler.Handle | lib/at/AtHandler.cpp:38-85 | one call frames at most one line from the input and answers it: new buffer, thresholds, store, output, pin events and unread input are those of `HandleStep`. It keeps the class invariant: the partial line fits the buffer and holds no CR or LF |
| At.AtHandler.Dispatch | lib/at/AtHandler.cpp:43-85 | the strcmp chain and then the sscanf pattern run the effect `Execute` gives for the command `Classify` finds |
| At.AtHandler.DispatchPattern | lib/at/AtHandler.cpp:74-84 | the sscanf pattern runs the pump handler with the converted number, and otherwise prints the unknown-command error |
| At.AtHandler.SaveThreshold | lib/at/AtHandler.cpp:153-155 | begin read-write, putInt, end: the store becomes `Persist` of the old store and no namespace is left open |
| At.AtHandler.HandlePumpOff | lib/at/AtHandler.cpp:87-95 | without a pump pin it prints the not-configured error; otherwise it writes the pump pin HIGH and prints OK |
| At.AtHandler.HandlePump | lib/at/AtHandler.cpp:97-107 | without a pump pin it prints the not-configured error; otherwise the pin trace is LOW, a wait of the duration and HIGH, and the reply is OK (the reply and the trace are separate records) |
| At.AtHandler.ReadLine | lib/at/AtHandler.cpp:109-132 | the loop keeps the partial line free of CR and LF and consumes input exactly as `FrameLine` does. When no line completes it returns 0 and keeps the partial line. When one completes it returns its length, NUL-terminates it in the buffer and resets the cursor |
| At.AtHandler.HandleSoilMoisture | lib/at/AtHandler.cpp:134-143 | without a sensor pin it prints the not-configured error; otherwise it prints the one sample read and OK |
| At.AtHandler.HandleMaxSoilMoistureSetup | lib/at/AtHandler.cpp:145-160 | without a sensor pin it changes nothing and prints the error; otherwise it stores the sample under `maxsoilm` if the namespace opens, sets the maximum threshold and prints the sample and OK |
| At.AtHandler.HandleMinSoilMoistureSetup | lib/at/AtHandler.cpp:162-177 | the same for `minsoilm` and the minimum threshold |
| At.AtHandler.LoadConfig | lib/at/AtHandler.cpp:179-186 | if the read-only open fails, because the flash does not open or the namespace does not exist, the thresholds are untouched. Otherwise each becomes its stored value or 0. The store never changes |
| AtProperties.FrameLineBounded | lib/at/AtHandler.cpp:115-125 | every emitted or pending line is at most 1023 characters and holds no CR or LF; the unread input is a suffix of the input |
| AtProperties.FramePendingIff | lib/at/AtHandler.cpp:111-131 | read_line completes no line exactly when the input has no LF and its non-CR bytes fit the buffer; then all input is consumed into the partial line |
| AtProperties.FrameCompletes | lib/at/AtHandler.cpp:115-128 | an LF, or any non-CR byte once 1023 are held, ends the line; that byte is consumed and dropped, and every later byte stays unread |
| AtProperties.FrameCompleteShape | lib/at/AtHandler.cpp:111-128 | conversely, every completed line is the CR-free text before its terminating byte, and the rest is exactly what follows that byte |
| AtProperties.CompletedAfter | lib/at/AtHandler.cpp:115-122 | a byte that is not LF in front of a completed line is dropped (CR) or becomes part of that line |
| AtProperties.FrameOverflow | lib/at/AtHandler.cpp:119-128 | with 1023 bytes held, the next byte that is neither CR nor LF ends a line of exactly 1023 bytes and is discarded |
| AtProperties.FrameChunked | lib/at/AtHandler.cpp:112 | the cursor persists across calls: when the first call completes no line, framing the input in two calls gives the result of one call on the joined input |
| AtProperties.ClassifyCommandText | lib/at/AtHandler.cpp:43-79 | every command, `AT+PUMP=n` for every integer n included, is recognised from its own text, so no earlier test captures a later command |
| AtProperties.PumpTextIsNoFixedCommand | lib/at/AtHandler.cpp:69-75 | a line starting `AT+PUMP=` passes every exact test, `AT+PUMPOFF` included, and reaches the pattern |
| AtProperties.ScanPumpReadsNumber | lib/at/AtHandler.cpp:74-79 | `AT+PUMP=`, optional white space, a signed decimal and any text not starting with a digit is the pump command with that number |
| AtProperties.ScanPumpReadsDecimal | lib/at/AtHandler.cpp:74-79 | `AT+PUMP=`, optional white space, an optional `+` or `-`, any digit run with leading zeros allowed, and text not starting with a digit is the pump command with the signed value |
| AtProperties.PatternDecidesPump | lib/at/AtHandler.cpp:69-79 | every line the `AT+PUMP=%d` pattern matches is the pump command with the converted number; no exact test captures it first |
| AtProperties.PumpWithoutNumberIsUnknown | lib/at/AtHandler.cpp:74-84 | `AT+PUMP=` followed by no digit at all is an unknown command |
| AtProperties.PumpShape | lib/at/AtHandler.cpp:69-79 | every line recognised as the pump command is `AT+PUMP=` followed by text `%d` accepts, the duration being the value read there |
| AtProperties.PumpIff | lib/at/AtHandler.cpp:69-84 | `AT+PUMP=` followed by s is the pump command for v exactly when s is white space, an optional sign and a maximal digit run whose signed value is v |
| AtProperties.PumpNeedsLeadingDigit | lib/at/AtHandler.cpp:74-84 | `AT+PUMP=`, white space and an optional sign followed by anything but a digit (`AT+PUMP=x5`, `AT+PUMP=+ 5`) is an unknown command |
| AtProperties.PumpOffIsNotThePattern | lib/at/AtHandler.cpp:69-75 | `AT+PUMPOFF` does not fit the pump pattern; it is the pump-off command |
| AtProperties.OneLine | lib/at/AtHandler.cpp:141 | a text without line breaks followed by CRLF is one reply line |
| AtProperties.ReplyFormat | lib/at/AtHandler.cpp:43-177 | every reply ends in ERROR exactly for an unknown command or a missing pin, and in OK otherwise; before that comes nothing or a CRLF-terminated text; a successful reply carries at most one line (the version or the sample) |
| AtProperties.ReplySplits | lib/at/AtHandler.cpp:43-177 | every reply is its body followed by `ERROR\r\n` for the two error kinds and by `OK\r\n` otherwise |
| AtProperties.ReplyBodyShape | lib/at/AtHandler.cpp:43-177 | a reply body is empty or ends in CRLF, and on success it is at most one line |
| AtProperties.ErrorMessageEndsInLine | lib/at/AtHandler.cpp:83-136 | the unknown-command and the two not-configured messages each end in CRLF |
| AtProperties.FailureChangesNothing | lib/at/AtHandler.cpp:87-167 | a failing command leaves thresholds and store unchanged and touches no pin |
| AtProperties.HandleCommand | lib/at/AtHandler.cpp:38-85 | a non-empty line that fits the buffer and ends in `\n` runs the command named by its C string, clears the buffer and leaves later input unread (a line cut at the buffer limit is `FrameOverflow`) |
| AtProperties.HandleCommandText | lib/at/AtHandler.cpp:43-72 | handle on the text of a fixed command runs exactly that command |
| AtProperties.HandleWithoutLine | lib/at/AtHandler.cpp:39-41 | without a complete line, handle prints nothing, touches no pin and only buffers the bytes |
| AtProperties.HandleChunked | lib/at/AtHandler.cpp:38-42 | input split over two handle calls, the first of which completes no line, is answered as if it had arrived in one; the first call only buffers. Applied again, this covers any number of such calls |
| AtProperties.SameFrameSameStep | lib/at/AtHandler.cpp:38-42 | handle depends on the buffer and the input only through what read_line makes of them |
| AtProperties.HandleEmptyLine | lib/at/AtHandler.cpp:39-41 | an empty line produces no reply and no other effect |
| AtProperties.HandlePing | lib/at/AtHandler.cpp:43-46 | `AT` is answered with exactly `OK\r\n` and nothing else changes |
| AtProperties.HandleVersion | lib/at/AtHandler.cpp:47-52 | `AT+GMR` is answered with exactly `1.0\r\nOK\r\n` |
| AtProperties.HandleUnknown | lib/at/AtHandler.cpp:74-84 | every line that is no command, including an `AT+PUMP=` line without a number, is answered with exactly `unknown command\r\nERROR\r\n` and changes nothing |
| AtProperties.HandlePumpOff | lib/at/AtHandler.cpp:87-95 | `AT+PUMPOFF`: the pin trace is one HIGH write and the reply is `OK\r\n`; or the pump-pin error with no pin write |
| AtProperties.HandlePump | lib/at/AtHandler.cpp:97-107 | `AT+PUMP=n` with any trailing text: the pin trace is LOW, a wait of n and HIGH, and the reply is `OK\r\n`; or the pump-pin error with no pin write |
| AtProperties.PumpLineIsPump | lib/at/AtHandler.cpp:75 | the buffer of a pump line, a NUL after the number included, is classified as the pump command with that number |
| AtProperties.PumpNumberScan | lib/at/AtHandler.cpp:75 | the pattern reads back the printed number when no digit follows it |
| AtProperties.PumpHeadHasNoNul | lib/at/AtHandler.cpp:75 | `AT+PUMP=` and a printed number contain no NUL |
| AtProperties.CStrKeepsFirst | lib/at/AtHandler.cpp:75 | a non-empty C string starts with the buffer's first character |
| AtProperties.HandleReadSoil | lib/at/AtHandler.cpp:134-143 | `AT+SOILM?`: exactly one sample, printed with `\r\nOK\r\n`, and no state change; or the sensor-pin error and no read |
| AtProperties.HandleCalibrateMin | lib/at/AtHandler.cpp:162-177 | `AT+MINSOILM` sets the minimum threshold and stored `minsoilm` to the sample, leaves the maximum in memory and in the store, and prints the sample; without a sensor pin nothing changes |
| AtProperties.HandleCalibrateMax | lib/at/AtHandler.cpp:145-160 | the symmetric case for the maximum and `maxsoilm` |
| AtProperties.HandleKeepsFramer | lib/at/AtHandler.cpp:119-127 | every handle call keeps the buffered partial line within 1023 characters and free of CR and LF |
| AtProperties.LoadAfterSave | lib/at/AtHandler.cpp:170-186 | loadConfig reads back what a calibration command saved, and the other threshold as it was stored |
| AtProperties.CalibrationSurvivesRestart | lib/at/AtHandler.cpp:145-186 | after `AT+MINSOILM` and `AT+MAXSOILM` with a working store, a reload at the next start yields exactly the thresholds those commands set |
| AtProperties.LoadWithoutCalibration | lib/at/AtHandler.cpp:179-186 | with no namespace (no calibration ever ran), the read-only open fails and the thresholds stay unchanged. A namespace without both keys loads 0 for each. A flash that cannot be opened leaves the thresholds unchanged |

## Left out

- Logging (`log_i`), `Serial.begin`, and the `setup`/`loop` hooks of `src/main.cpp` are startup plumbing. They only construct the handler once and call `handle` forever.
- Time and electrical behaviour:
  - `delay` is recorded with its argument only.
  - The ADC is a supplied integer for each board and is not restricted to its 12-bit range.
  - Pin numbers are plain integers.
- Hal.Stream.Print: printed text and the board's pin and delay trace are separate records. So the order of a reply relative to the pin events of the same command is not captured. For example, the pump handlers print `OK` only after the blocking `delay` and the HIGH write, and the model does not state that.
- Hal.Board.Delay: records the signed argument. The C `delay` takes an unsigned value, so a negative duration becomes a very long wait in C. That wrap-around is not modelled.
- CFormat.ScanInt: yields the mathematical value of any digit run. sscanf's `%d` is undefined in C when the number does not fit in an `int`, so for such numbers the pump duration in the model is not the source's.
- The preferences store's flash layout, commit and namespace limits are abstracted away. Whether the flash can be opened is one flag fixed for each store. Whether the namespace exists comes from the stored data.
- At.AtHandler.constructor: promises nothing about the thresholds when the read-only open fails, whether because the flash does not open or because the namespace was never created. In the source they are then indeterminate.
- AtProperties.ReplyFormat: proves only that the error bodies end in CRLF. It does not prove that they hold no other line break. Their fixed texts are long literals, and checking them character by character costs more proof effort than it is worth.
- Bytes are Dafny characters. C's signed `char` conversion of bytes above 127 does not matter, because every comparison in the handler is with an ASCII character.
- The cursor `message_pos` is a function-static variable shared by all instances. The model makes it a field of the one handler that `src/main.cpp:16` creates.
- `public`/`private`: `handle` and the constructor are the only public members. The model does not enforce that the other methods are reached only through `handle`.
- The `handle` body is split into `Handle`, `Dispatch` (the strcmp chain) and `DispatchPattern` (the sscanf pattern and the unknown-command reply). The begin/putInt/end sequence that both calibration handlers repeat is the method `SaveThreshold`. The splits only keep each proof small, and the statements and their order are unchanged.
- `READING_CHARS`, `TIMEOUT` and the autolevel FIXME stub have no behaviour.
- `config_version` is a `uint8_t` holding 1. It is modelled as an `int`, because it is never read or written after construction.
