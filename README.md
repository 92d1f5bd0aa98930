# Smart farm intrusion detection: detector loop and GPIO pin server

This project models two programs of the smart farm intrusion detector in Dafny and proves properties of the models.

`tl3.py` holds `SmartAnimalDetector`. A video loop samples camera frames every 0.5 s. It runs the animal classifier only while the ultrasonic distance is below 50 cm. It posts one alert record per monitored animal and sounds a buzzer on GPIO pin 17 through the pin server. The buzzer goes off again after 1 s. A listener thread keeps the latest distance reading, a text number sent over TCP.

`gpio_control_server.py` holds the pin server. `GPIOController` keeps the set of initialized BCM pins and drives them. The HTTP handlers set one pin, set several pins, read a pin and reset all pins.

The Dafny modules follow that structure:

- `Wrappers` defines `Option`.
- `Numerals` defines decimal numerals, as `str(int)` prints them.
- `Text` defines ASCII case folding, which the model uses for both the label filter and `float()`.
- `Telemetry` covers the listener: Python's `str.strip()` and `float()` on a chunk, and the distance cell it overwrites.
- `Alerts` covers how one detection becomes an alert record: the label filter, the confidence remap, and the severity choice.
- `Detector` covers one iteration of the detection loop and the whole loop.
  - `StepSpec` and `RunSpec` specify them on values.
  - The class `SmartAnimalDetector` carries them out on its fields, and its methods are proved against those functions.
- `GpioServer` covers the pin server.
  - `SetupSpec`, `SetSpec`, `ReadSpec`, `Single`, `Multi` and `ResetLoop` specify it on a `PinBank` value, meaning the initialized pins plus the physical levels.
  - The class `GPIOController` and the handler methods carry it out in place.

Everything the programs take from outside becomes an input:
- the camera frame read;
- the clock;
- the classifier's boxes;
- the random draws;
- the HTTP replies (a status code, or an exception);
- the hardware faults of `RPi.GPIO`. This is a set of pins per request for which `setup`, `output` or `input` raise.

In these places the model follows the code:

- **A failed log post ends detection.** When the alert post raises, `response` is set to `None` (tl3.py:225-227). The following `response.status_code` (tl3.py:231) then raises `AttributeError`. Only `KeyboardInterrupt` is caught (tl3.py:243), so `start_detection` ends: the camera is released and no final OFF command is sent. The model's `Dispatch` stops at that box with `crashed`, and `RunSpec` and `DetectSpec` end the session there.
- **The activation time is stamped even when activation fails.** `last_buzzer_time` is set after `control_buzzer(True)` whether or not the pin server answered 200 (tl3.py:237-238). `buzzer_on` changes only on a 200 reply (tl3.py:54-55).
- **One chunk is one reading.** The listener strips and converts each whole `recv(1024)` chunk (tl3.py:75-80). It does not split the chunk into lines. The sender writes one `"{dist}\n"` per second (ultrasonic.py:45-46). A chunk that carries two such lines is therefore not a number and is ignored.
- **The sample clock restarts at every sample point.** `last_detection_time` is set to `now` even when the proximity gate kept the classifier from running (tl3.py:240).
- **Reset cannot report failure as a whole.** `set_pin_state` swallows every hardware exception (gpio_control_server.py:100-102). The 500 branch of `reset_all_pins` (gpio_control_server.py:249-253) is therefore unreachable, and a failed pin shows up only as an `"error"` entry.

## Model

| member | source | states |
|---|---|---|
| Numerals.DigitChar | gpio_control_server.py:154 | the character of digit `d` is a digit whose value is `d` |
| Numerals.NatToString | gpio_control_server.py:154 | `str(n)` of a natural number is a non-empty run of digits with no leading zero |
| Numerals.IntToString | gpio_control_server.py:154 | `str(i)` is non-empty; it starts with `-` exactly when `i` is negative, followed by `str(-i)`; otherwise it is `str(i)` of the natural number |
| Numerals.DigitsOfNatToString | gpio_control_server.py:154 | reading back the digits `str(n)` printed gives `n` |
| Numerals.IntToStringInjective | gpio_control_server.py:154 | different pin numbers are printed differently, so a message names its pin unambiguously |
| Telemetry.StripLeft | tl3.py:78 | `lstrip()` returns a suffix; everything it cut is Python whitespace, and the result does not start with whitespace |
| Telemetry.StripRight | tl3.py:78 | `rstrip()` returns a prefix; everything it cut is whitespace, and the result does not end with whitespace |
| Telemetry.Strip | tl3.py:78 | `strip()` never lengthens the text; neither end of the result is whitespace; text whose ends are not whitespace is kept as it is |
| Telemetry.DigitPartEnd | tl3.py:80 | the digit part scanned from `i` lies within the text and holds only digits and `_` separators |
| Telemetry.Pow10 | tl3.py:80 | the scale of a decimal exponent is positive |
| Telemetry.ShiftRightDivides | tl3.py:80 | moving a fraction's digits `n` places right one place at a time is dividing by `10^n` |
| Telemetry.ParseFloat | tl3.py:80 | `float()` of a stripped text; the empty text raises `ValueError` (`None`). The body is the grammar: an optional sign, then `inf`, `infinity` or `nan` in any case, or digit parts with `_` separators, an optional point and an optional exponent; the lemmas below state what it accepts |
| Telemetry.Receive | tl3.py:75-82 | one pass of the listener's loop body: the chunk's classification applied to the cell, as `ReceiveOverwritesOnlyOnParse` states |
| Telemetry.Listen | tl3.py:74-82 | the listener's loop over the chunks' events, stopping at the first end of stream, as `ListenLastWriteWins`, `ListenIgnoresNoise` and `ListenStopsAtEnd` state |
| Telemetry.Events | tl3.py:74-82 | the chunk stream becomes one event per chunk, each the chunk's classification |
| Telemetry.ReceiveOverwritesOnlyOnParse | tl3.py:75-82 | the loop continues exactly on data chunks; a chunk that parses overwrites the cell with its value; any other chunk leaves the cell unchanged |
| Telemetry.ListenLastWriteWins | tl3.py:74-82 | after the loop, the cell holds the last reading before the stream ended |
| Telemetry.ListenIgnoresNoise | tl3.py:79-82 | chunks that do not parse (`ValueError`) leave the cell as it was |
| Telemetry.ListenStopsAtEnd | tl3.py:76-77 | nothing after an empty or failed `recv` reaches the cell |
| Telemetry.Hear | tl3.py:74-82 | the listener's loop over one stretch of events, from the cell and whether the loop still runs; a listener that has ended hears nothing, as `HearIsListen` and `HearAppend` state |
| Telemetry.HearFirst | tl3.py:74-82 | a running listener handles the first event, then the rest |
| Telemetry.HearIsListen | tl3.py:74-82 | a running listener leaves the cell as `Listen` does, and still runs exactly when no end of stream came |
| Telemetry.HearAppend | tl3.py:74-82 | hearing a stream in two stretches is hearing it in one, so cutting the stream between iterations changes nothing |
| Telemetry.EventsAppend | tl3.py:74-82 | the events of two runs of chunks are those of the first, then those of the second |
| Telemetry.HearOneReading | tl3.py:75-82 | a running listener that handles one chunk holding a reading stores it and keeps running |
| Telemetry.FortyRead | tl3.py:75-80 | the chunk `40` is the reading 40 |
| Telemetry.DigitPartEndOfDigits | tl3.py:80 | on a run of digits, the digit part reaches the end of the text |
| Telemetry.DigitPartValueOfDigits | tl3.py:80 | the value of a digit prefix is its decimal value |
| Telemetry.NumberOfDigits | tl3.py:80 | an unsigned run of digits parses to its value |
| Telemetry.UnsignedDigits | tl3.py:80 | `float()` of a run of digits is that number |
| Telemetry.DigitPartValueShift | tl3.py:80 | the digit value after a sign is the digit value of the text without the sign |
| Telemetry.NegatedDigits | tl3.py:80 | `float("-" + digits)` is the negated number |
| Telemetry.IntegerReadingRoundTrip | tl3.py:80 | `float(str(n)) == n` for every integer `n`: integer readings are read exactly |
| Telemetry.ExponentChars | tl3.py:80 | an accepted exponent consists of number characters only |
| Telemetry.NumberChars | tl3.py:80 | an accepted unsigned number consists of digits, separators, points, exponent letters and signs only |
| Telemetry.WordChars | tl3.py:80 | every character of a text spelling `inf`, `infinity` or `nan` in any case folds to a letter `a`..`z` |
| Telemetry.ParsedTextChar | tl3.py:80 | every character of a text `float()` accepts is a number character or a letter |
| Telemetry.NotWordNotNumber | tl3.py:79-81 | after the optional sign, a text that starts with neither a digit nor a point and is none of the words raises `ValueError` |
| Telemetry.LettersFold | tl3.py:80 | `abc` folds to itself |
| Telemetry.LettersNotNumber | tl3.py:79-81 | `float("abc")` raises `ValueError` |
| Telemetry.LettersChunkIgnored | tl3.py:75-82 | a chunk `abc` leaves the cell unchanged and the loop goes on |
| Telemetry.NewlineNotNumber | tl3.py:79-82 | a text with a newline inside is rejected by `float()` |
| Telemetry.StripTwoReadings | tl3.py:78 | stripping two newline-ended readings removes only the final newline |
| Telemetry.DigitRunEnd | tl3.py:80 | a digit part scanned over a run of digits ends where the run ends |
| Telemetry.DigitPartValueFrom | tl3.py:80 | the value of a digit part does not depend on the text before it |
| Telemetry.DigitCountOfDigits | tl3.py:80 | a run of digits without separators counts one place per character |
| Telemetry.DigitFirst | tl3.py:80 | a text that starts with a digit is read by `float()` as the number it spells |
| Telemetry.DecimalNumber | tl3.py:80 | digits, a point and digits are read as the whole part plus the fraction moved right by its length |
| Telemetry.DecimalParts | tl3.py:80 | in `a + "." + b` the digit parts before and after the point have the values of `a` and `b` |
| Telemetry.DecimalNumberOf | tl3.py:80 | the number in `a + "." + b` is `a` plus `b` moved right by `len(b)` places |
| Telemetry.DecimalReading | tl3.py:80 | `float(a + "." + b)` of two non-empty digit runs, the text the sender's `f"{dist}"` writes, is `a` plus `b` moved right by `len(b)` places |
| Telemetry.StripLine | tl3.py:78 | stripping one newline-ended line without outer whitespace gives the line |
| Telemetry.SenderLineRead | tl3.py:75-80 | one sender line `a.b\n` in its own chunk is read as the reading `a.b` |
| Telemetry.TwoReadingsInOneChunkIgnored | tl3.py:75-82 | a chunk holding two sender lines is noise: the cell keeps its old value |
| Text.Lower | tl3.py:136 | `lower()` keeps the length |
| Text.LowerAt | tl3.py:136 | `lower()` lowers each ASCII letter in place and keeps every other character |
| Alerts.Rank | tl3.py:185 | `severity_order.index(s)` is a position of `s` in the order |
| Alerts.ClampIndex | tl3.py:198 | the severity index is clamped into 0..3, unchanged inside it and pinned to the nearer end outside it |
| Alerts.Clamp01 | tl3.py:182 | `max(0.0, min(1.0, x))` is `x` inside [0, 1], 0 below it and 1 above it |
| Alerts.RemapConfidence | tl3.py:176-182 | the confidence is `low + (high - low) * model_conf + jitter` over the label's range, cut to [0, 1]: kept inside, 0 below, 1 above; an unreadable model value counts as 0.5 |
| Alerts.Synthesize | tl3.py:136-216 | an alert is built exactly when the lower-cased label is monitored. It records the farm location, `camera`, the UTC time, the chosen severity, the label as given, 100 times the remapped confidence (within 0..100) and `resolved` false |
| Alerts.SeverityOffset | tl3.py:188-196 | the offset moves the base at most two levels up and one level down, and is zero exactly for draws from 0.25 on |
| Alerts.ChooseSeverity | tl3.py:184-199 | the base level's index plus the offset, clamped into the order, as `SeverityWithinOrder` states |
| Alerts.SeverityOffsetBands | tl3.py:188-196 | the offset is `k` exactly when the draw falls into `k`'s band of [0, 1) |
| Alerts.OffsetDistribution | tl3.py:188-196 | the bands partition [0, 1) with widths 5 %, 15 %, 5 % and 75 % |
| Alerts.SeverityWithinOrder | tl3.py:184-199 | the severity is the base level moved by the offset and clamped: at most two levels up or one level down, and the base itself for `r >= 0.25` |
| Alerts.Defaults | tl3.py:180-184 | an unknown label starts at `medium` and uses the range (0.5, 0.9) |
| Alerts.MonitoredLabelsConfigured | tl3.py:144-172 | every monitored label has its own base severity and a non-empty range |
| Alerts.ConfidenceWithinRange | tl3.py:176-182 | for a model value in [0, 1], the confidence lies in the label's range widened by the jitter bound and cut to [0, 1] |
| Alerts.FilterIgnoresCase | tl3.py:136-213 | `Dog` passes the filter and the record keeps `Dog` |
| Alerts.DogExample | tl3.py:167-199 | a dog at confidence 0.8 is reported between 82 % and 86 %, at `medium` when the draw keeps the base |
| Detector.Dispatch | tl3.py:132-232 | the box loop: each monitored box's alert is built and posted in order, and the first post that raises ends the loop, as `DispatchPrefix`, `DispatchCrashes` and `CrashAtFirst` state |
| Detector.AllAlerts | tl3.py:132-216 | the alerts of all monitored boxes in order, as if every post returned, as `AllAlertsCount`, `AllAlertsSingle` and `AllAlertsAppend` state |
| Detector.AllAlertsCount | tl3.py:132-216 | the reference has exactly one alert per monitored box |
| Detector.AllAlertsSingle | tl3.py:132-216 | one box alone contributes its alert exactly when its lower-cased label is monitored |
| Detector.AllAlertsAppend | tl3.py:132-216 | the reference follows the boxes' order: the alerts of two runs of boxes are those of the first, then those of the second |
| Detector.DispatchPrefix | tl3.py:132-232 | the alerts built at a sample point are a prefix of the reference list of all monitored boxes' alerts; without a crash they are all of it; a crash happens after building an alert |
| Detector.DispatchCrashes | tl3.py:218-231 | the box loop crashes exactly when the post of some monitored box raises |
| Detector.CrashAtFirst | tl3.py:132-232 | when box `k` is the first whose post raises, the loop ends crashed with exactly the reference alerts of boxes `0..k` |
| Detector.AllAlertsMonitored | tl3.py:132-136 | the reference list has at most one alert per box, all for monitored labels, and is empty exactly when no box is monitored |
| Detector.BuildAlerts | tl3.py:131-232 | the loop over the boxes computes `Dispatch`; `animal_detected` holds exactly when some alert's post completed |
| Detector.DispatchStep | tl3.py:132-232 | the box loop handles one box at a time |
| Detector.AutoOffSpec | tl3.py:119-121 | the auto-off check, as `StepAutoOff` states |
| Detector.SampleSpec | tl3.py:123-241 | the cadence gate, the proximity gate, dispatch and activation, as the `Step` lemmas below state |
| Detector.StepSpec | tl3.py:112-241 | one iteration: nothing without a frame, else auto-off then the sample point, as the `Step` lemmas below state |
| Detector.StepClassifierGate | tl3.py:126-129 | the classifier runs exactly when a frame was read, 0.5 s have elapsed and the distance is below 50 cm (false for NaN) |
| Detector.StepSampleClock | tl3.py:126-240 | a sample point is due exactly when 0.5 s have elapsed; at a sample point without crash the clock is set to `now`, otherwise it is kept |
| Detector.StepAutoOff | tl3.py:119-121 | OFF is commanded exactly when the buzzer is tracked on for at least 1 s, and it is the iteration's first command |
| Detector.StepActivation | tl3.py:234-238 | ON is commanded exactly when a sample point built alerts without crashing; then the target was near and `last_buzzer_time` becomes `now`; otherwise it is kept |
| Detector.StepBuzzerConfirmed | tl3.py:54-55 | the tracked buzzer state changes only through a command the pin server answered with 200 |
| Detector.StepReadsDistanceOnly | tl3.py:128-235 | the loop never writes the distance cell |
| Detector.StepIgnoresUnmonitored | tl3.py:136 | boxes with unmonitored labels produce no alert, no crash and no ON command |
| Detector.StepCrash | tl3.py:218-231 | an iteration crashes exactly when the classifier ran and some monitored box's post raised; its alerts are a prefix of the reference, and all of it without a crash |
| Detector.FarTargetScenario | tl3.py:128-235 | at 80 cm nothing is classified, no alert is built, no command is sent, and a silent buzzer stays silent |
| Detector.NearDogScenario | tl3.py:128-238 | a dog at 40 cm with confidence 0.8 at a sample point gives one medium alert between 82 % and 86 %, the ON command, a buzzer on and `last_buzzer_time = now` |
| Detector.AutoOffScenario | tl3.py:119-121 | a buzzer turned on at 0 s goes off at the first confirmed iteration from 1 s on that builds no new alert |
| Detector.RunSpec | tl3.py:109-241 | the loop over a trace of iterations, with the listener thread's writes landing before each one, ended by the first crash, as `RunStopsAtCrash` states |
| Detector.RunStep | tl3.py:110-241 | the loop runs one iteration at a time, after the listener's writes, and ends at a crash |
| Detector.RunAdvance | tl3.py:110-241 | the loop's invariant holds across one iteration |
| Detector.RunShape | tl3.py:110-243 | there is at most one report per iteration; only the last can be a crash, and a run shorter than its trace ended in a crash |
| Detector.RunDistance | tl3.py:80-241 | the loop never writes the distance: the cell ends as the listener left it after the chunks heard before the iterations that ran |
| Detector.RunStopsAtCrash | tl3.py:110-243 | there is at most one report per iteration; only the last can be a crash, and a run shorter than its trace ended in a crash; the loop never writes the distance cell, which ends as the listener left it after every chunk heard before the iterations that ran |
| Detector.DetectSpec | tl3.py:92-247 | `start_detection` beside the already running listener thread: nothing without a camera, OFF first, the loop, OFF again after an interrupt, as `SessionShutdown` states |
| Detector.HeardDistanceReachesLoop | tl3.py:80-129 | a fresh detector (at 999 cm) whose listener reads `40` before the first sample point runs the classifier there |
| Detector.SessionShutdown | tl3.py:103-245 | a session forces the buzzer off first. An interrupted session ends with a second OFF, and with a silent buzzer when that OFF is confirmed. A crashed session sends only the first |
| Detector.SmartAnimalDetector.constructor | tl3.py:26-36 | the buzzer starts off and `last_buzzer_time` at 0; the distance starts at 999 |
| Detector.SmartAnimalDetector.ControlBuzzer | tl3.py:45-60 | posts `{"pins": [{"pin": 17, "state": s}]}`; only a 200 reply updates `buzzer_on` |
| Detector.SmartAnimalDetector.ReceiveChunk | tl3.py:75-82 | one chunk updates the distance field as `Receive` says, and reports whether the loop goes on |
| Detector.SmartAnimalDetector.HearChunks | tl3.py:74-82 | the listener's loop over a stretch of chunks changes the distance field and its running flag as `Hear` says |
| Detector.SmartAnimalDetector.DistanceListener | tl3.py:73-82 | the distance field ends as `Listen` over the chunks' events (last reading before the stream ended) |
| Detector.SmartAnimalDetector.Step | tl3.py:112-241 | one iteration changes the fields and reports exactly as `StepSpec` says |
| Detector.SmartAnimalDetector.AutoOff | tl3.py:119-121 | the auto-off check changes the fields as `AutoOffSpec` says |
| Detector.SmartAnimalDetector.Sample | tl3.py:123-241 | the rest of the iteration changes the fields as `SampleSpec` says |
| Detector.SmartAnimalDetector.RunLoop | tl3.py:109-241 | the loop over a trace, with the listener's chunks handled before each iteration, ends in the state and reports of `RunSpec` |
| Detector.SmartAnimalDetector.StartDetection | tl3.py:92-247 | `start_detection` behaves as `DetectSpec`: nothing without a camera, OFF first, the loop, and OFF after an interrupt but not after a crash |
| GpioServer.SetupSpec | gpio_control_server.py:71-85 | `setup_pin` on a pin bank, as `SetupOnlyAddsPin` and `SetupIdempotent` state |
| GpioServer.SetSpec | gpio_control_server.py:87-102 | `set_pin_state`: setup, then `output`, as `SetWritesOnlyThatPin` states |
| GpioServer.ReadSpec | gpio_control_server.py:104-114 | `get_pin_state`, as `ReadNoneUnlessInitialized` and `ReadAfterWrite` state |
| GpioServer.SetupOnlyAddsPin | gpio_control_server.py:71-85 | `setup_pin` adds at most the one pin to `initialized_pins`, and only with GPIO available and a setup that did not raise. It succeeds unless the setup raised. In simulation mode it succeeds and changes nothing |
| GpioServer.SetupIdempotent | gpio_control_server.py:74-79 | setting a pin up twice is setting it up once |
| GpioServer.SetWritesOnlyThatPin | gpio_control_server.py:87-102 | `set_pin_state` leaves every other pin's level alone and fails without writing when setup fails. On success with GPIO available, the pin is initialized and at the requested level. It succeeds exactly when setup succeeded and output did not raise |
| GpioServer.ReadNoneUnlessInitialized | gpio_control_server.py:104-114 | a read gives a level only with GPIO available and the pin initialized, and then gives the pin's level when `input` does not raise |
| GpioServer.ReadAfterWrite | gpio_control_server.py:94-108 | without faults, a pin reads back the level just written |
| GpioServer.SetKeepsConsistent | gpio_control_server.py:71-102 | setting a pin keeps the invariant: only initialized pins are driven, and nothing is initialized in simulation mode |
| GpioServer.EntryPins | gpio_control_server.py:238-242 | the pins of the reset entries, in order |
| GpioServer.Single | gpio_control_server.py:144-171 | `control_single_pin` on a pin bank, as `SingleRejectsInvalid` and `SingleAgreesWithEntry` state |
| GpioServer.Entry | gpio_control_server.py:179-208 | one entry of `control_multiple_pins`, as `MultiResponses` states entry by entry |
| GpioServer.Multi | gpio_control_server.py:173-210 | `control_multiple_pins`: the entries in request order, each on the pins the earlier ones left, as `MultiResponses` states |
| GpioServer.MultiLength | gpio_control_server.py:176-210 | there is one response per entry |
| GpioServer.MultiEntryAt | gpio_control_server.py:178-208 | the response to entry `i` is that entry handled on the pins the first `i` entries left |
| GpioServer.SingleRejectsInvalid | gpio_control_server.py:150-155 | the single-pin endpoint answers 400 with the "Use BCM pins 0-27" detail exactly for pins outside 0..27, without touching any state |
| GpioServer.SingleAgreesWithEntry | gpio_control_server.py:157-208 | for a valid pin the single-pin endpoint does what a multi-pin entry does: its success is the entry's response, and its failure is a 500 with the entry's message |
| GpioServer.MultiResponses | gpio_control_server.py:176-210 | there is one response per entry, in request order, echoing its pin and state. An invalid pin gets the "Invalid pin number" error. A valid pin gets "set to HIGH/LOW" success exactly when `set_pin_state`, run on the pins the earlier entries left, succeeded, and the "Failed to control pin" error otherwise |
| GpioServer.RequestedPins | gpio_control_server.py:178-193 | the valid pins of a request are exactly those its in-range entries name |
| GpioServer.MultiGrowsOnlyRequested | gpio_control_server.py:178-193 | the multi-pin endpoint keeps the invariant and only adds pins that valid entries named; a request without valid pins changes nothing |
| GpioServer.MultiFaultFree | gpio_control_server.py:192-201 | without faults, a request of valid pins succeeds entry by entry |
| GpioServer.ResetLoop | gpio_control_server.py:236-242 | the reset loop over the listed pins, each driven LOW, as `ResetReportsEachPin` and `ResetDrivesLow` state |
| GpioServer.ResetKeepsSet | gpio_control_server.py:236-237 | the reset loop does not change `initialized_pins` |
| GpioServer.ResetReportsEachPin | gpio_control_server.py:236-242 | the reset loop reports each listed pin in order, as state false, with success unless its output raised |
| GpioServer.ResetDrivesLow | gpio_control_server.py:236-237 | the reset loop drives each listed pin LOW unless its output raised, and leaves all other pins' levels alone |
| GpioServer.EnumerationSize | gpio_control_server.py:236 | listing a set without repeats gives as many pins as the set has |
| GpioServer.GPIOController.constructor | gpio_control_server.py:64-69 | a fresh controller has no initialized pins and no driven levels |
| GpioServer.GPIOController.SetupPin | gpio_control_server.py:71-85 | `setup_pin` updates the fields and answers as `SetupSpec` |
| GpioServer.GPIOController.SetPinState | gpio_control_server.py:87-102 | `set_pin_state` updates the fields and answers as `SetSpec` |
| GpioServer.GPIOController.GetPinState | gpio_control_server.py:104-114 | `get_pin_state` answers as `ReadSpec`: a level only for an initialized pin with GPIO available |
| GpioServer.ControlSinglePin | gpio_control_server.py:144-171 | the single-pin handler returns and changes state as `Single` |
| GpioServer.HandleEntry | gpio_control_server.py:179-208 | one entry of the multi-pin loop behaves as `Entry` |
| GpioServer.MultiStep | gpio_control_server.py:178-208 | the multi-pin loop handles one entry at a time |
| GpioServer.ControlMultiplePins | gpio_control_server.py:173-210 | the multi-pin handler returns the responses and changes state as `Multi` |
| GpioServer.MultiAdvance | gpio_control_server.py:178-208 | the multi-pin loop's invariant holds across one entry |
| GpioServer.ReadPin | gpio_control_server.py:212-228 | the read endpoint answers 400 outside 0..27, and otherwise the pin, its reading and "state: HIGH/LOW/Unknown" |
| GpioServer.ListOf | gpio_control_server.py:236 | `list(initialized_pins)` lists each pin of the set exactly once |
| GpioServer.ResetPin | gpio_control_server.py:237-242 | one pin of the reset loop behaves as `ResetLoop` on that pin |
| GpioServer.ResetEach | gpio_control_server.py:236-242 | the reset loop changes state and reports as `ResetLoop` over the listed order |
| GpioServer.ResetAdvance | gpio_control_server.py:236-242 | the reset loop's invariant holds across one pin |
| GpioServer.ResetAllPins | gpio_control_server.py:230-248 | the reset handler visits every initialized pin once, in the order its entries list, behaves as `ResetLoop` over that order, and answers "success" with "Reset n pins" for n initialized pins; in simulation mode it resets nothing and answers "Reset 0 pins" |
| GpioServer.ResetLoopStep | gpio_control_server.py:236-242 | the reset loop handles one pin at a time |
| GpioServer.ResetAllInitialized | gpio_control_server.py:236-247 | whatever the order, the reset reports exactly `len(initialized_pins)` entries for initialized pins, all with state false. It drives every initialized pin LOW unless its output raised, leaves the other pins' levels alone and keeps the set |

## Left out

- Camera and classifier: OpenCV capture, the frame resize and the YOLO model are inputs. A `Tick` says whether a frame was read, and gives the boxes the classifier would return with `conf=0.5`.
- Network and I/O:
  - the HTTP posts and their JSON encoding are modelled as a `Reply` per post;
  - the TCP socket's bind, listen and accept are modelled as the sequence of `recv` chunks; raw bytes and UTF-8 decoding are modelled by a `Faulty` chunk, which ends the listener;
  - console output and the 10 ms sleep are left out.
- Clock and randomness: `time.time()`, `datetime.now()` and `random` are inputs (`Tick.now`, `Draw`). The ISO timestamp is an opaque string.
- Clock arithmetic: clock values and their differences in the tests at tl3.py:120 and tl3.py:126 are exact reals, not binary floats.
- Constructor parameters: `buzzer_pin`, `buzzer_duration` and `distance_threshold` are fixed at their defaults (17, 1.0 s and 50 cm; tl3.py:17-36) as constants; the model path, URLs and port are not modelled.
- Concurrency: the listener thread's writes land between iterations of the loop (`Tick.heard`), never inside one. The interleavings in which the distance changes between the two tests at tl3.py:128 and tl3.py:235 are not modelled.
- `KeyboardInterrupt` is modelled only at the end of the trace, after the last iteration, not in the middle of one.
- Alerts.RemapConfidence: the `round(..., 1)` of the percentage (tl3.py:202) and binary floating-point rounding are not modelled; confidences are exact reals.
- Telemetry.ParseFloat: rounding of the parsed text to the nearest double is not modelled. Non-ASCII decimal digits, which Python's `float()` accepts, are not modelled.
- Text.Lower: only ASCII letters are lowered; the labels are ASCII.
- The pin server's FastAPI and uvicorn plumbing, CORS, the pydantic models, the two health endpoints, `cleanup`/`atexit` and the `RPi.GPIO` calls themselves (`setmode`, `setwarnings`) are left out. The import-time choice of `GPIO_AVAILABLE` is the controller's `gpioAvailable`.
- The module-level controller is created twice (gpio_control_server.py:123, gpio_control_server.py:256). The handlers use the second one; the model passes the controller to each handler.
- GpioServer.Level: a pin that was set up but never driven is modelled as reading LOW; a pin whose `output` raised is modelled as keeping its level.
- GpioServer.ResetAllPins: the order of `list(initialized_pins)` is left open, because the set promises none. The 500 branch is left out because `set_pin_state` never raises.
- Hardware faults are fixed for the length of one request (`Faults`), not varying from call to call within it.
- test_gpio_client.py and esp_cam_feed.py are not part of this model.
