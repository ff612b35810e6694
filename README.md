# Smart suitcase firmware: alarm and link state machine

This project models the ESP32 firmware of a tamper-detecting suitcase in
Dafny. A light sensor trips a one-way violation latch. A timestamp is recorded
when it trips. A paired phone connected over Bluetooth Low Energy gets the
status as a notification ("S", or "V:<ms since the violation>"). The phone can
clear the latch by writing "RESET". The firmware also re-advertises after the
phone disconnects.

The whole behaviour is in `firmware_esp32/src/main.cpp`: four globals, the
server callbacks `onConnect`/`onDisconnect`, the characteristic callback
`onWrite`, and `loop()`.

Modules:

- `Clock` (clock.dfy): `unsigned long` as `U32`, and the wrap-around subtraction
  `millis() - momentoDaViolacao`.
- `Optional` (optional.dfy): the `Option` type returned by the parsers.
- `Decimal` (decimal.dfy): the decimal text of a number, as `String(unsigned long)`
  writes it, with its parser and round trips.
- `StatusMessage` (status.dfy): the wire tokens "S" and "V:<n>", with encoding, decoding and
  both round trips.
- `SuitcaseSpec` (suitcase_spec.dfy): the state machine as values.
  - `State` holds the four globals.
  - `Event` is what drives the state: a callback, or one `loop()` pass with its
    sample and its two `millis()` readings.
  - `Effect` is a call the firmware makes into the hardware or the radio stack:
    `setValue`+`notify`, `delay`, or `startAdvertising`, tagged with which of
    the two call sites made it.
  - Functions give the new state and effects of each event: `Detect`,
    `Report`, `Reconnect` and `LoopStep` for `loop()`; `OnConnect`,
    `OnDisconnect` and `OnWrite` for the callbacks.
  - `Run` folds a sequence of events.
- `Suitcase` (suitcase.dfy): class `Firmware`.
  - Its fields are the four globals plus `output`, the trace of effects.
  - Its methods `OnConnect`, `OnDisconnect`, `OnWrite` and `Loop` assign those
    fields statement by statement, as the C++ does.
  - Each method's contract ties the new fields and the appended effects to the
    `SuitcaseSpec` function of the old state.
  - A ghost `history` records the events applied so far. The invariant
    `Valid()` says that the fields and `output` are exactly
    `SuitcaseSpec.Run(INITIAL, history)`. The constructor establishes it, and
    every method keeps it while appending its own event. So the run-level
    lemmas hold for every `Firmware` object.
- `SuitcaseProperties` (suitcase_properties.dfy): the properties of the machine,
  for single events and for whole runs.

Inputs and outputs:

- `analogRead` is the `sample` parameter of a loop pass.
- The two `millis()` calls are separate parameters: `detectTime` for line 111,
  and `reportTime` for line 121. Nothing relates them: the 32-bit subtraction
  is modelled exactly even when the clock wraps.
- `notify`, `delay` and both `startAdvertising` calls are effects appended to
  the trace.

Where the code departs from the behaviour the system is meant to have, the
model follows the code:

- Advertising after a disconnection. The intent is that advertising restarts
  exactly once per disconnection. In the code, `onDisconnect` always restarts
  advertising (line 39). If a loop pass then sees the
  connected-to-disconnected edge, that pass restarts it a second time
  (line 144). `ReconnectScenario` proves a count of one from each call site.
  `QuickReconnectScenario` proves that only the callback restarts it when the
  phone reconnects before any loop pass runs.
- The reset scenario. The intent is that a "RESET" makes the next
  notification "S". In the code, a pass that still sees light latches the violation again
  at once (line 108). Its notification is then "V:<n>". `ResetScenario`
  therefore requires a dark sample.
- Elapsed time. It is meant as a non-negative monotonic duration. The
  code subtracts `unsigned long` values, so the result wraps modulo 2^32. The
  model wraps (`Clock.Elapsed`).
- Sensor direction. The sensor's polarity is meant to be configurable. The code
  hard-codes `valorLuz < LIMITE_LUZ`. The model keeps that comparison, with
  `LIGHT_THRESHOLD = 2000`.

## Model

| member | source | states |
|---|---|---|
| Clock.Elapsed | firmware_esp32/src/main.cpp:121 | the elapsed time is the 32-bit value that, added to the violation time modulo 2^32, gives the report time; it is the plain difference when no wrap-around happened |
| Clock.ElapsedUnique | firmware_esp32/src/main.cpp:121 | no other 32-bit value has that property, so `Elapsed` is exactly `unsigned long` subtraction |
| Decimal.Format | firmware_esp32/src/main.cpp:122 | `String(tempoDecorrido)` is a well-formed decimal numeral: only digits, at least one, no leading zero; it starts with '0' exactly for 0, and it is one digit exactly below 10 |
| Decimal.ValueOfFormat | firmware_esp32/src/main.cpp:122 | the numeral denotes the number it was made from |
| Decimal.FormatOfValue | firmware_esp32/src/main.cpp:122 | every well-formed numeral is the formatting of its own value |
| Decimal.ParseFormat | firmware_esp32/src/main.cpp:122 | parsing the formatted number gives the number back |
| Decimal.FormatParse | firmware_esp32/src/main.cpp:122 | any text the parser accepts is exactly what formatting its value writes |
| Decimal.FormatInjective | firmware_esp32/src/main.cpp:122 | different elapsed times give different texts |
| StatusMessage.Encode | firmware_esp32/src/main.cpp:117-126 | the safe message is "S"; a violation message starts with "V:" and the rest parses back to the elapsed time |
| StatusMessage.DecodeEncode | firmware_esp32/src/main.cpp:117-126 | a peer decoding a payload recovers the status it was built from |
| StatusMessage.EncodeDecode | firmware_esp32/src/main.cpp:117-126 | every payload a peer accepts is the firmware's own payload for that status (one spelling per status) |
| Suitcase.Firmware.constructor | firmware_esp32/src/main.cpp:20-23 | the globals start not violated, with time 0, disconnected, and with the previous level disconnected; no effects yet; `history` is empty and `Valid()` holds |
| Suitcase.Firmware.OnConnect | firmware_esp32/src/main.cpp:30-33 | sets `deviceConnected`, changes nothing else, emits nothing; appends `Connected` to `history` and keeps `Valid()` |
| Suitcase.Firmware.OnDisconnect | firmware_esp32/src/main.cpp:35-40 | clears `deviceConnected` and appends one advertising restart from the callback; appends `Disconnected` to `history` and keeps `Valid()` |
| Suitcase.Firmware.OnWrite | firmware_esp32/src/main.cpp:45-59 | the new fields are `SuitcaseSpec.OnWrite` of the old ones: cleared for "RESET", unchanged for anything else, nothing emitted; appends the write to `history` and keeps `Valid()` |
| Suitcase.Firmware.Loop | firmware_esp32/src/main.cpp:99-150 | the new fields and the appended effects are those of `SuitcaseSpec.LoopStep` on the old fields, the sample and the two clock readings; appends the pass to `history` and keeps `Valid()` |
| SuitcaseProperties.LightLatches | firmware_esp32/src/main.cpp:106-111 | a sample below 2000 while not violated leaves the state violated, with the detection time recorded |
| SuitcaseProperties.LoopLatch | firmware_esp32/src/main.cpp:106-113 | after a pass the state is violated if and only if it was before or the sample showed light; a latched time never moves, and a dark pass moves nothing |
| SuitcaseProperties.OnlyResetClears | firmware_esp32/src/main.cpp:99-113 | every event other than the "RESET" write keeps a latched violation and its time; only a light-seeing pass turns the latch on, and it records that pass's detection time |
| SuitcaseProperties.NoResetKeepsLatch | firmware_esp32/src/main.cpp:108-113 | over any run of passes and callbacks without a "RESET" write, a latched violation stays latched with the same time |
| SuitcaseProperties.NoResetMonotone | firmware_esp32/src/main.cpp:108-113 | along such a run, once violated at some point, the state is violated with the same time at every later point (never true to false) |
| SuitcaseProperties.InvInitial | firmware_esp32/src/main.cpp:20-21 | in the initial state, no violation means time 0 |
| SuitcaseProperties.InvPreserved | firmware_esp32/src/main.cpp:53-55 | every event keeps "not violated implies time 0" |
| SuitcaseProperties.RunPreservesInv | firmware_esp32/src/main.cpp:108-111 | every run keeps "not violated implies time 0" |
| SuitcaseProperties.ResetClears | firmware_esp32/src/main.cpp:53-55 | "RESET" sets the alarm to not violated at time 0 and leaves the link fields alone; a second "RESET" changes nothing more |
| SuitcaseProperties.ResetWhenSafe | firmware_esp32/src/main.cpp:48-58 | in a state satisfying the invariant, a "RESET" while safe is a no-op |
| SuitcaseProperties.OtherCommandsIgnored | firmware_esp32/src/main.cpp:48-58 | every other payload, the empty one included, leaves the whole state unchanged |
| SuitcaseProperties.LoopNotification | firmware_esp32/src/main.cpp:116-130 | a pass notifies nothing when disconnected; when connected it notifies exactly one text: "S" if safe after detection, else "V:" followed by the decimal of the 32-bit elapsed time since the violation |
| SuitcaseProperties.NotificationDecodes | firmware_esp32/src/main.cpp:116-130 | while connected, the peer decodes the single notification to Safe exactly when not violated, and otherwise to an elapsed time that wraps onto the report time |
| SuitcaseProperties.CallbacksDoNotNotify | firmware_esp32/src/main.cpp:30-59 | connect, disconnect and write callbacks never notify |
| SuitcaseProperties.LoopDelay | firmware_esp32/src/main.cpp:136-145 | a pass waits 500 ms after a report when connected, or 100 ms when not, plus 500 ms settle time on a fresh disconnection; a connected pass is exactly a notification followed by its 500 ms wait; a disconnected pass is exactly the 100 ms wait, then, on a fresh disconnection, the 500 ms settle wait and only after it the advertising restart |
| SuitcaseProperties.LoopEdge | firmware_esp32/src/main.cpp:142-149 | after a pass, the previous level equals the connection level, which the pass leaves unchanged; the pass restarts advertising itself exactly when it began disconnected but previously connected |
| SuitcaseProperties.CallbacksSetLevel | firmware_esp32/src/main.cpp:30-40 | connect sets and disconnect clears the level and touch nothing else; disconnect restarts advertising exactly once, from the callback |
| SuitcaseProperties.CallbackRestartsPerDisconnect | firmware_esp32/src/main.cpp:35-40 | over any run, the callback restarts advertising exactly as many times as there are disconnections |
| SuitcaseProperties.LoopRestartsBounded | firmware_esp32/src/main.cpp:142-149 | over any run, loop restarts plus a still-unseen disconnection never exceed disconnections plus the one unseen at the start |
| SuitcaseProperties.LoopRestartsFromPowerOn | firmware_esp32/src/main.cpp:142-149 | from power-on, the loop restarts advertising at most once per disconnection |
| SuitcaseProperties.SyncedAfterLoop | firmware_esp32/src/main.cpp:142-149 | after any run that ends with a loop pass, the previous level equals the current level |
| SuitcaseProperties.ReconnectScenario | firmware_esp32/src/main.cpp:30-149 | from power-on with connect, pass, disconnect, pass, connect, pass, and whatever the samples: one restart from the callback, one from the loop; the last pass notifies and waits the connected 500 ms; the link is synced connected |
| SuitcaseProperties.QuickReconnectScenario | firmware_esp32/src/main.cpp:30-149 | when the phone reconnects before a pass sees the disconnection, only the callback restarts advertising |
| SuitcaseProperties.SampleScenario | firmware_esp32/src/main.cpp:99-139 | from any start time `t` (with no wrap in the next 2000 ms), two dark samples then three light ones at t, t+500, …, t+2000 ms while connected notify "S", "S", "V:0", "V:500", "V:1000" |
| SuitcaseProperties.SampleScenarioDark | firmware_esp32/src/main.cpp:99-139 | the first two dark passes of that run leave the suitcase safe and notify "S" twice |
| SuitcaseProperties.SampleScenarioLatch | firmware_esp32/src/main.cpp:99-139 | the first light pass latches the violation at its own sample time and notifies "V:0" |
| SuitcaseProperties.SampleScenarioHeld | firmware_esp32/src/main.cpp:99-139 | the second light pass keeps the latch and its time and notifies "V:500" |
| SuitcaseProperties.ResetScenario | firmware_esp32/src/main.cpp:53-125 | after a violation, a "RESET" followed by a connected pass with a dark sample notifies "S" |

The functions of `SuitcaseSpec` carry no contracts of their own. They are the
reference definitions that the methods of `Suitcase.Firmware` are proved
against, and that the lemmas of `SuitcaseProperties` are about:

- `Detect`: lines 101-113.
- `CurrentStatus` and `Report`: lines 116-139.
- `Reconnect`: lines 142-149.
- `LoopStep`: the whole of `loop()`.
- `OnConnect`, `OnDisconnect` and `OnWrite`: lines 30-59.

## Left out

- `setup()` (lines 62-97) is out of scope. It holds BLE initialisation, creation of the service and the characteristic, the BLE2902 descriptor and the advertising parameters, all in radio-stack code that is not part of this model. The model starts in the state the globals are declared with.
- `Serial` printing is debug output only and has no effect on the state.
- The device name and UUID constants (lines 15-17) are opaque strings with no logic.
- `analogRead`, `millis` and `delay` are not modelled as hardware. Samples and times are parameters; a delay is an effect in the trace.
- Concurrency is not modelled. Callbacks are atomic events between whole loop passes. A callback that runs in the middle of a pass is left out. An example: a pass that reads `deviceConnected` differently at lines 116, 142 and 147 is not modelled.
- Values of `sample` are not restricted to the 12-bit ADC range 0..4095. Only the comparison with 2000 matters.
- The C++ string types are not modelled. `std::string` and Arduino `String` are sequences of characters, one per byte. `String(unsigned long)` is the model's own `Decimal.Format`.
- Reads of the characteristic by the peer are not modelled. The characteristic's stored value is not part of the state: it holds the last text passed to `setValue` (carried by `Notify`) or the last payload the peer wrote (line 46), and it is empty until the first connected pass or the first peer write, whichever comes first.
- The `INDICATE` property is ignored. So is the BLE stack's internal behaviour when advertising is restarted twice.
