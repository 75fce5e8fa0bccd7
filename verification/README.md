# Toptek amplifier remote control, modelled in Dafny

The system drives a Toptek RF power amplifier through an Arduino that sits
in the amplifier's front panel. Three programs make it up:

- the host package `python/toptek/toptek.py`;
- the older host driver `TopTek.py`;
- the Arduino firmware `src/main.cpp`.

The firmware listens to the panel's LED shift register over SPI. It answers
the bargraph and button state on a serial line and presses buttons by
driving the panel's key-matrix columns. The host drivers speak a
two-character command protocol to it. Every command is echoed, and a read
command is answered by one more line.

The model is functional throughout.

- The serial line is a `Link`: the characters the device will send, and the
  log of commands the host has written (`Transport`). A host operation is a
  function from a link to a `Result`. Every `raise` of the drivers is one
  `Error` constructor (`Outcomes`).
- LED and button snapshots are immutable records. Their views are `get_power`,
  `get_swr` (in tenths), `get_errors` and `any_on` (`Snapshots`). The register
  decoders and encoders live in `Registers`, and the bit arithmetic in `Bits`.
- The command alphabet is in `Switches`. `Text` holds Python's `strip` and
  `int(text, base)` and Arduino's `println` and `print(n, HEX)`.
- `Bargraph` models the bounded poll of the flashing bargraph, in ticks.
  `Power` models the power helpers and the cyclic press count. `Toggles`
  models the check-act-verify switch helpers.
- `Legacy` models the older driver. Its `write`, `query`, banner check,
  `get_power` and `get_swr` (`TopTek.py:34-73`, `106-128`) are the package's
  and reuse the members above. Its `press` (`TopTek.py:136-139`) holds and
  releases the button with `S<n>` and `U<n>`, which is the package's
  `press_manual` (`Transport.PressManual`), not the package's `press`, which
  writes `P<n>`. What differs is in `Legacy`: an uninverted fault list, the
  truth of raw replies, a ten-read power poll and a press count that does not
  wrap.
- `Firmware` models the firmware as a record-based state machine: the two
  interrupts, the byte parser and `processCommand`. `Agreement` states what
  the host operations get when the device on the line is that firmware.

Three places where the code does less than its own names, comments or
structure suggest are modelled as the code reads:

- `set_tx_power` computes the press count with a strict `<`
  (`python/toptek/toptek.py:368`). A power already at its target therefore
  goes round the full cycle of four presses. The `if num_presses == 0: return`
  at line 373 is reached on the ladder only by the non-strict comparison.
  `Power.PressCount` is the code as written, and `Power.PressCountFixed` is the
  `<=` count that makes that early return reachable.
- The docstring of `get_flashy_bargraph` (`python/toptek/toptek.py:320-323`)
  says it waits until the LEDs stop blinking. The loop sleeps one poll
  interval before every read and then the window less the index, so a lit
  bargraph costs 41 ticks and an unlit one 40 (`Bargraph.GetFlashyBargraph`).
- `enable` and `disable` (`python/toptek/toptek.py:226-240`) expect the reply
  lines "Remote keys enabled" and "Remote keys disabled". The firmware
  handles only `R`, `S` and `U` (`src/main.cpp:158-238`), so it echoes `EN`
  and `DS` and prints nothing more, and both calls fail against it
  (`Agreement.EnableFirmware`). In the same way, it ignores the package's
  `P<n>` press (`Agreement.PressFirmware`).

Reads that depend on the device are stated against a device that sends a
given sequence of snapshots, described as the characters it puts on the
line (`StateWire`, `StatesWire`).

## Model

| member | source | states |
|---|---|---|
| Switches.Code | python/toptek/toptek.py:24-32 | every button number is in 1..6 |
| Switches.Command | python/toptek/toptek.py:196-224 | a switch command is the command letter followed by one digit '1'..'6' that the firmware maps back to the same button |
| Switches.DigitNamesSwitch | src/main.cpp:171-188 | the firmware's target byte names a button exactly when it is the digit the host wrote for that button |
| Switches.RegisterBitsDistinct | src/main.cpp:24-28 | the `SWITCH_*` bits of the five register buttons are distinct and none is bit 1 |
| Snapshots.PowerIsHighestLit | python/toptek/toptek.py:54-77 | outside red-LED mode the power is ten times the position of the highest lit ladder LED, 0 when none is lit |
| Snapshots.PowerSwrAnyOnAgree | python/toptek/toptek.py:54-134 | `any_on` holds exactly when the power is nonzero, and the SWR in tenths is 10 for no LED, otherwise 11 plus the power in tens |
| Snapshots.SwrIsHighestLit | python/toptek/toptek.py:79-99 | the SWR never fails: 1.0 when no ladder LED is lit, otherwise 1.2 to 1.9 for LED 10 to 80 |
| Snapshots.AnyOnIsHighestLit | python/toptek/toptek.py:122-134 | `any_on` holds exactly when some ladder LED is lit |
| Snapshots.LadderScan | python/toptek/toptek.py:62-77 | the highest-lit index is the first hit of the 80-down-to-10 `if` chain |
| Snapshots.ErrorsAreSelected | python/toptek/toptek.py:101-120 | in red-LED mode the fault list is the names of the unlit LEDs among the first five, in `FaultNames` order |
| Snapshots.ErrorsAreDarkFaults | python/toptek/toptek.py:108-118 | fault k is listed exactly when LED k is dark |
| Snapshots.ErrorsIgnoreUpperLadder | python/toptek/toptek.py:101-120 | LEDs 60 to 80 do not affect the fault list |
| Snapshots.ErrorsAreFaultNames | python/toptek/toptek.py:106-120 | only the five fault names can be listed |
| Snapshots.SelectMembership | python/toptek/toptek.py:108-118 | a name is selected exactly when its flag has the selected value |
| Registers.DecodeLedsBit | python/toptek/toptek.py:242-261 | LED flag i of `get_state` is bit i of the `RA` value, for i in 0..11 |
| Registers.DecodeLedsIgnoresHighBits | python/toptek/toptek.py:248-259 | bits 12 and up of the `RA` value are ignored |
| Registers.DecodeEncodeLeds | python/toptek/toptek.py:242-261 | decoding the register that shows a snapshot gives the snapshot back |
| Registers.EncodeDecodeLeds | python/toptek/toptek.py:242-261 | encoding a decoded 12-bit register gives the register back |
| Registers.DecodeSwitches | python/toptek/toptek.py:263-274 | each button flag is the register bit `SWITCH_*` names for that button, and the DA flag is the `R6` value |
| Registers.DecodeEncodeSwitches | python/toptek/toptek.py:263-274 | decoding the register that shows a button snapshot gives it back |
| Registers.EncodeDecodeSwitches | python/toptek/toptek.py:263-274 | a 6-bit register with bit 1 clear survives a decode and an encode |
| Text.Strip | python/toptek/toptek.py:184-189 | `strip` removes exactly the leading whitespace and a whitespace tail: the result is the input's middle slice from the first non-space, and it has no whitespace at either end |
| Text.StripLine | python/toptek/toptek.py:184-189 | stripping a printed line gives the printed text back |
| Text.ParseInt | python/toptek/toptek.py:244-245 | `int(text, base)` succeeds exactly when the stripped text is an optional sign and one or more digits of the base; the value is the signed digit value, and a failure carries the text |
| Text.StripPadded | python/toptek/toptek.py:184-189 | text between whitespace margins is stripped back to itself, when it has no whitespace at its ends |
| Text.ParseIntPadded | python/toptek/toptek.py:244-245 | a sign and a digit string between whitespace margins parse to the signed digit value |
| Text.ParseFormatHex | src/main.cpp:163-169 | a number printed in hex by the firmware is read back by `int(text, 16)` |
| Text.ParseFormatSmall | src/main.cpp:166 | a printed 0 or 1 is read back by `int(text)` |
| Transport.ReadLineWire | python/toptek/toptek.py:184-189 | `readline` returns exactly the next printed line and consumes it |
| Transport.ReadLineTimeout | python/toptek/toptek.py:184-189 | with nothing left on the line, `readline` returns empty text |
| Transport.Write | python/toptek/toptek.py:175-182 | `write` succeeds exactly when the next line equals the command; it logs the command and consumes the echo, and otherwise reports the line it read |
| Transport.WriteEcho | python/toptek/toptek.py:175-182 | a device that echoes the command is written to successfully |
| Transport.WriteBadEcho | python/toptek/toptek.py:175-182 | a device whose next line is not the command makes `write` fail with that line |
| Transport.Query | python/toptek/toptek.py:191-194 | `query` fails exactly when its `write` fails, with that error, and otherwise returns the next line after the echo |
| Transport.QueryWireAnswer | python/toptek/toptek.py:191-194 | a device that echoes and then prints one line gives that line to the query |
| Transport.Open | python/toptek/toptek.py:170-173 | the connection opens exactly when the first line is "Toptek Switch Interface" |
| Transport.PressManual | python/toptek/toptek.py:204-214 | a manual press writes `S<n>` and then `U<n>` for the same button |
| Transport.Press | python/toptek/toptek.py:216-220 | `press` writes the single command `P<n>` |
| Transport.GetSwitchWire | python/toptek/toptek.py:222-224 | for a device that answers 0 or 1, `get_switch` reports true for both answers, while a numeric reading reports exactly the value |
| Transport.Enable | python/toptek/toptek.py:226-233 | `enable` succeeds exactly when the `EN` query returns "Remote keys enabled"; it logs `EN` and fails only on a bad echo or with the enable failure |
| Transport.Disable | python/toptek/toptek.py:235-240 | `disable` succeeds exactly when the `DS` query returns "Remote keys disabled"; it logs `DS` and fails only on a bad echo or with the disable failure |
| Transport.EnableWire | python/toptek/toptek.py:226-233 | against a device that echoes `EN` and prints one line, `enable` succeeds exactly when the line is "Remote keys enabled" and consumes both lines |
| Transport.DisableWire | python/toptek/toptek.py:235-240 | against a device that echoes `DS` and prints one line, `disable` succeeds exactly when the line is "Remote keys disabled" and consumes both lines |
| Transport.GetStateWire | python/toptek/toptek.py:242-261 | against a device that shows snapshot s, `get_state` returns s and logs `RS`, `RA` |
| Transport.GetStateAnswers | python/toptek/toptek.py:242-261 | `get_state` decodes the `RS` reply as decimal (nonzero means set) and the `RA` reply as hex |
| Transport.GetSwitchState | python/toptek/toptek.py:263-274 | `get_switch_state` reads `R6` and then `RS`, and fails only on a bad line |
| Bargraph.PollFrom | python/toptek/toptek.py:319-332 | the poll makes between 1 and the remaining number of polls. When LEDs light it sleeps 41 ticks less the index, otherwise it uses every poll and sleeps the remaining ticks |
| Bargraph.GetFlashyBargraph | python/toptek/toptek.py:319-332 | at most 40 polls; 41 ticks in all when the bargraph lights, 40 when it never does |
| Bargraph.PollScripted | python/toptek/toptek.py:325-332 | against a reader that shows a sequence of snapshots, the poll returns the first lit one (or the last), after as many polls as that took |
| Bargraph.GetFlashyBargraphWire | python/toptek/toptek.py:319-332 | against a device showing 40 snapshots, the first lit one or the last is returned, and exactly the reads made are consumed |
| Power.PressCountCycles | python/toptek/toptek.py:367-371 | on the ladder, the as-written count is in 1..4. It is (target index − current index) mod 4, or 4 at the target, and that many presses reach the target |
| Power.PressCountFixedSteps | python/toptek/toptek.py:367-374 | the corrected count is in 0..3 and that many presses reach the target |
| Power.PressCountFixedLeast | python/toptek/toptek.py:367-374 | no smaller number of presses reaches the target |
| Power.PressCountZero | python/toptek/toptek.py:367-374 | for any set power up to 80, the as-written count is zero exactly when the target lies above it by less than 20 |
| Power.PressCountAgreesOffTarget | python/toptek/toptek.py:367-371 | the two counts differ only when the power is already at the target |
| Power.PressRepeatedlyWire | python/toptek/toptek.py:379-381 | the press loop writes `P3` once per iteration against an echoing device |
| Power.GetTxPowerWire | python/toptek/toptek.py:346-354 | with the PA on, `get_tx_power` presses SET PWR, polls the bargraph and reports the power of the snapshot the poll stops at; it fails in red-LED mode |
| Power.GetTxPowerPaOff | python/toptek/toptek.py:348-351 | with the PA off, `get_tx_power` returns 0 after the one read |
| Power.GetErrorsNoRed | python/toptek/toptek.py:338-342 | outside red-LED mode the wrapper returns `[""]` instead of raising |
| Power.BlankIsNoFaultList | python/toptek/toptek.py:338-344 | `[""]` is never a fault list the snapshot view can return |
| Power.GetErrorsWire | python/toptek/toptek.py:338-344 | in red-LED mode the wrapper returns the fault list of the snapshot the poll stops at |
| Power.SetTxPower | python/toptek/toptek.py:356-361 | a target outside {20, 40, 60, 80} is refused whatever the device shows |
| Power.SetTxPowerPaOff | python/toptek/toptek.py:363-365 | with the PA off, setting the power fails |
| Power.SetTxPowerSteps | python/toptek/toptek.py:356-389 | after the reads, the presses and check use the press count of the current and target power |
| Power.SetTxPowerAtTarget | python/toptek/toptek.py:367-374 | at the target, the as-written helper presses 1 + 4 times and checks, while the corrected one returns without a press |
| Power.AdjustPowerPresses | python/toptek/toptek.py:376-381 | with n presses counted, n + 1 `P3` commands are written before the check |
| Power.CheckPower | python/toptek/toptek.py:383-389 | the final check succeeds exactly when `get_tx_power` reads the target, and otherwise reports the read power |
| Power.CheckPowerWire | python/toptek/toptek.py:383-389 | against a device, the check succeeds exactly when the stopping snapshot is not red and shows the target |
| Power.GetCurPowerSteps | python/toptek/toptek.py:391-399 | `get_cur_power` fails when the PA is off or red LEDs are on, otherwise it returns the shown power |
| Toggles.Toggle | python/toptek/toptek.py:405-494 | a toggle writes nothing beyond its reads, or exactly one press between two reads, and fails only on a bad line or an unconfirmed flag |
| Toggles.ToggleWireIdle | python/toptek/toptek.py:405-494 | with the flag already at its target, or SSB asked while the PA is off, no command follows the one read |
| Toggles.ToggleWire | python/toptek/toptek.py:405-494 | when it has to act, the toggle presses the unit's button once and succeeds exactly when the re-read shows the target |
| Toggles.DaToggle | python/toptek/toptek.py:498-522 | `da_on`/`da_off` write at most one DA hold or release between reads of the switch state |
| Toggles.DaToggleActs | python/toptek/toptek.py:498-522 | after acting, `da_on`/`da_off` succeed exactly when the re-read DA flag is the target |
| Toggles.DaFast | python/toptek/toptek.py:524-530 | the fast DA helpers write only the hold or release command |
| Legacy.LegacyErrors | TopTek.py:75-92 | the older fault view fails outside red-LED mode and lists at most five faults |
| Legacy.LegacyErrorsComplement | TopTek.py:75-92 | fault k is in the older list exactly when its LED is lit, that is exactly when the package leaves it out |
| Legacy.LegacyReadState | TopTek.py:144-162 | `read_state` logs `RS`, `RA` and fails only on a bad line |
| Legacy.LegacyReadStateWire | TopTek.py:144-162 | against a device printing the SWR flag as a number, `read_state` reports the flag as set even for 0 |
| Legacy.LegacyReadSwitchState | TopTek.py:164-174 | `read_switch_state` logs `R6`, `RS` and fails only on a bad line |
| Legacy.LegacyReadSwitchStateWire | TopTek.py:164-174 | against a device printing a flag for `R6` and the switch register for `RS`, `read_switch_state` reports the DA on whatever the flag, and SSB, TX PA, SET PWR, RX LNA and SHOW SWR from register bits 4, 5, 2, 3 and 0 |
| Legacy.PowerPoll | TopTek.py:176-185 | the poll reads 1 to 10 times, stopping early only at a nonzero power |
| Legacy.PowerPollScripted | TopTek.py:176-185 | against a reader showing snapshots, the poll stops at the first nonzero or red snapshot (or the tenth) and fails if that one is red |
| Legacy.LegacyGetTxPower | TopTek.py:176-185 | the reported set power is between 0 and 80 |
| Legacy.LegacyGetTxPowerSteps | TopTek.py:176-185 | `get_tx_power` writes `S3` and `U3` and then reports the power the poll stops at, or the poll's failure |
| Legacy.LegacyPressCountReaches | TopTek.py:191-194 | the older count reaches an upward or equal target, where it equals the corrected count, and a target two steps below. It misses targets one or three steps below |
| Legacy.PressManualRepeatedly | TopTek.py:196-200 | the press loop writes `S3`, `U3` per iteration |
| Legacy.LegacySetTxPower | TopTek.py:187-189 | a target off the ladder is refused whatever the device shows |
| Legacy.LegacySetTxPowerSteps | TopTek.py:191-204 | a count of zero ends the call with no command; otherwise one press, n presses and the check follow |
| Legacy.LegacyCheckPower | TopTek.py:202-204 | the check succeeds exactly when `get_cur_power` reads the target, and otherwise reports the read power |
| Legacy.LegacyGetCurPower | TopTek.py:206-210 | `get_cur_power` fails in red-LED mode and otherwise returns one of 0, 10, …, 80 after reading `RS`, `RA` |
| Legacy.LegacyGetCurPowerSteps | TopTek.py:206-210 | with the state read, `get_cur_power` fails exactly in red-LED mode and otherwise returns the shown power |
| Firmware.Boot | src/main.cpp:127-128 | start-up prints the banner line from zeroed globals |
| Firmware.SpiReceive | src/main.cpp:61-66 | an SPI byte fills the current buffer slot, flips the position and changes nothing else |
| Firmware.ShiftValid | src/main.cpp:79-83 | once both bytes are in, the shift state is the first byte times 256 plus the second |
| Firmware.ShiftValidBits | src/main.cpp:81 | bits 8..15 of the shift state are the first byte, and bits 0..7 the second |
| Firmware.ShiftValidColumns | src/main.cpp:89-98 | port D pins 0..5 are kept, and pins 6 and 7 show the two switch bits of the scanned row |
| Firmware.ScannedButtons | src/main.cpp:89-96 | row 3 shows SSB and TX PA, row 2 SET PWR and RX LNA, otherwise SHOW SWR |
| Firmware.Report | src/main.cpp:160-191 | `RA` reports the shift state, `RS` the SWR flag and `RW` the switch register. `R1`..`R5` report the button's bit, `R6` the DA switch, and nothing else is handled |
| Firmware.ProcessCommand | src/main.cpp:158-238 | output starts with the empty line, only `S` and `U` change state, and only the switch register and DA switch. Another letter prints only the empty line |
| Firmware.HoldRelease | src/main.cpp:192-237 | `S<n>` sets and `U<n>` clears exactly the mapped bit (or the DA switch) and nothing else |
| Firmware.ReadBack | src/main.cpp:160-237 | after `S<n>` the button reads back 1, after `U<n>` 0 |
| Firmware.HoldThenRelease | src/main.cpp:192-237 | `S<n>` then `U<n>` restores a previously released button |
| Firmware.UnhandledTarget | src/main.cpp:189-236 | an unknown target changes nothing and prints "Unhandled statement" |
| Firmware.Serve | src/main.cpp:137-150 | every byte is echoed first, and serving a byte changes no state outside the parser and the buttons |
| Firmware.ServeLineEnd | src/main.cpp:142-143 | CR and LF are echoed and change nothing |
| Firmware.RunAppend | src/main.cpp:132-151 | feeding input in two pieces is feeding it at once |
| Firmware.RunCommand | src/main.cpp:144-149 | a letter and a target are echoed and dispatched once, and the parser then waits for a new letter |
| Firmware.RunCommandLine | src/main.cpp:137-149 | a command sent as a line (`S1\r\n`) makes exactly one dispatch |
| Firmware.LoopSetsSwrFlag | src/main.cpp:155 | as written, each pass of `loop()` sets the SWR flag whatever the pin shows |
| Firmware.LoopFixedReadsPin | src/main.cpp:153-155 | reading the pin's level changes only the SWR flag of a pass |
| Agreement.OpenFirmware | src/main.cpp:128 | the host accepts the firmware's banner |
| Agreement.GetStateFirmware | src/main.cpp:163-166 | against the firmware, `get_state` reads the SWR flag, and each LED flag is the shift-state bit its `SHIFT_*` constant names (bit i for LED flag i) |
| Agreement.GetStateFirmwareSwr | src/main.cpp:155 | as written, the host always reads the DA's SWR flag as set |
| Agreement.GetSwitchStateFirmware | python/toptek/toptek.py:263-274 | against the firmware, `get_switch_state` reads SHOW SWR as the SWR flag and the other buttons as released |
| Agreement.GetSwitchStateFixedFirmware | src/main.cpp:168-169 | reading `RW` instead, every button flag is the firmware's register bit |
| Agreement.GetSwitchFirmware | python/toptek/toptek.py:222-224 | against the firmware, `get_switch` reports every button pressed, while a numeric read reports its bit |
| Agreement.PressFirmware | python/toptek/toptek.py:216-220 | `press` passes the echo check but the firmware does not move any button |
| Agreement.PressManualFirmware | src/main.cpp:192-237 | a manual press holds and then releases the button and leaves the firmware as it was |
| Agreement.EnableFirmware | python/toptek/toptek.py:226-233 | against the firmware, `enable` always fails |
| Agreement.DisableFirmware | python/toptek/toptek.py:235-240 | against the firmware, `disable` always fails |

## Left out

- Serial port opening, the path and permission checks, `sys.exit`, `time.sleep` and logging: these are I/O. A sleep is modelled only as a tick count in `get_flashy_bargraph`.
- `readline`'s one-second timeout: it is modelled as the line ending where the device's output ends.
- UTF-8 decoding: the line is a sequence of characters.
- Text.ParseInt: does not accept the underscores between digits, the `0x` prefix or the non-ASCII decimal digits that Python's `int` also takes; the firmware prints none of them.
- `info()` in both drivers: diagnostic string assembly on top of modelled reads.
- `python/PA_on.py` and `PA_on.py`: scripts that only sequence driver calls.
- The firmware's interrupt concurrency and the `volatile` sharing: each interrupt and each pass of `loop()` is one atomic step.
- `setup()`'s register configuration and `digitalWrite(DA_EN_PIN, daSwitch)`: hardware plumbing. The DA enable pin always follows `daSwitch`.
- The `press_manual` race against the panel's scan: only its `S`/`U` command sequence is modelled.
- The poll interval and window of `get_flashy_bargraph` are integer ticks: 1 tick is 0.05 s, and the window is 40 ticks.
- SWR is in integer tenths.
- The two exception classes of each driver are not distinguished; each raise is a distinct `Error` constructor instead.
- Device reads inside the poll loops are generic `Reader` functions, and their lemmas are stated against readers that show a given sequence of snapshots.
- Power.GetTxPower: its contract bounds the power but does not state the commands it logs; `Power.GetTxPowerWire` states them against a device.
- Power.GetErrors: its contract bounds the list length only; `Power.GetErrorsWire` and `Power.GetErrorsNoRed` state the result.
- Power.SetTxPower: its contract states only the refusal of an off-ladder target; the presses and the check are stated by `Power.SetTxPowerSteps`, `Power.AdjustPowerPresses` and `Power.CheckPower`.
- Legacy.LegacySetTxPower: likewise; the rest is in `Legacy.LegacySetTxPowerSteps` and `Legacy.LegacyCheckPower`.
- Power.Trunc: Python's `int()` of a float quotient carries no contract of its own; `Power.Twenties` states it on the multiples of 20 the ladder produces.

## Findings

| source | as written | input that shows it | evidently intended | confidence | as-written member | corrected member |
|---|---|---|---|---|---|---|
| python/toptek/toptek.py:266 | `get_switch_state` reads the button register with `RS`, which the firmware answers with the DA's SWR flag | any firmware state with SSB held: `get_switch_state` reports SSB released | read `RW`, the register `src/main.cpp:168-169` serves | high, not executed | Agreement.GetSwitchStateFirmware | Agreement.GetSwitchStateFixedFirmware |
| python/toptek/toptek.py:224 | `get_switch` returns `bool` of the reply text, so the reply "0" reads as pressed | a released button: the firmware replies "0" and `get_switch` returns true | `bool(int(reply))`, as `get_switch_state` does for `R6` | high, not executed | Transport.GetSwitchWire | Agreement.GetSwitchFirmware |
| python/toptek/toptek.py:368 | with the power already at the target, the strict `<` sends 4 presses, a full cycle, and then checks | `set_tx_power(40)` with the set power 40 | no press when current equals target (`<=`) | medium, not executed | Power.SetTxPowerAtTarget | Power.PressCountFixedSteps |
| TopTek.py:191-194 | the press count is the distance with no wrap round the ladder, so a descent of one or three steps lands on the wrong power | set power 80, target 20: 3 presses reach 60 | count round the ladder as the package does | high, not executed | Legacy.LegacyPressCountReaches | Power.PressCountFixedSteps |
| TopTek.py:144-162 | `read_state` takes the truth of the raw `RS` reply, so "0" reads as SWR set | the firmware replying "0" to `RS` | `bool(int(reply))`, as the package's `get_state` does | high, not executed | Legacy.LegacyReadStateWire | Transport.GetStateWire |
| src/main.cpp:155 | `daOverSWR = (DA_SWR_PIN)` stores the pin number 4, so the SWR flag is always set | DA SWR input low: `RS` still answers 1 | `digitalRead(DA_SWR_PIN)` | high, not executed | Firmware.LoopSetsSwrFlag | Firmware.LoopFixedReadsPin |
