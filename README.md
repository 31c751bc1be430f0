# psu controller: keypad, command interpreter and idle loop

A Dafny model of the user-facing core of the `psu` bench power supply
firmware (Rust, STM32). The model covers these parts:

- **Interface** (`controller/src/interface.rs`): the command interpreter. It
  is a total transition function `Update` over five menu states. The user
  opens a menu with '1' (voltage), '2' (current) or '3' (output toggle) and
  types digits into a 16-bit accumulator. 'a' accepts the value, 'b' goes
  back, and '1' or '2' confirms or declines. A command comes out only on
  confirmation. `Display` gives the one-line text shown for each state.
- **EarlyInterface** (`src/interface.rs`): the earlier copy of the same
  interpreter, proved to agree with the controller's on every state and key.
- **Device** (`controller/src/state.rs`): the device state record as a class
  (commanded voltage, output switch position, output enabled). It keeps the
  re-arm rule "switch open ⇒ output enabled" and has a status-line display.
- **Keymap** (`controller/src/keymap.rs`): the 4 × 3 key layout.
- **Keypad** (`controller/src/keypad.rs`): the matrix scan as a class over the
  column output levels. `ReadAllCoords` is proved to write the held keys in
  column-major scan order until the buffer is full. It also records which row
  pins it read. `ReadFirstKey` returns the first held key.
- **Idle** (`controller/src/main.rs`, `idle`): the polling loop as a class.
  It feeds a key to the interpreter only when the key differs from the
  previous poll's key. A fed key redraws the LCD, and a completed voltage
  command sets the PWM duty. The PWM and LCD writes are recorded in logs.

Modelling conventions:

- Voltages and currents are integer milli-units: a command carries the exact
  typed value in mV or mA.
- The `u16` accumulator wraps around modulo 2^16, as a release build does.
- The GPIO pins are the predicate `pressed(row, column)`: the level a row reads
  while only that column is driven.
- The floating-point duty formula is an arbitrary function `dutyFor` from
  millivolts to the duty written.

## Model

| member | source | states |
|---|---|---|
| Interface.Update | controller/src/interface.rs:23-62 | total over every state and key (the catch-all arm keeps the state); a command comes only out of `Confirm` or `ToggleOutput` and lands in `Start`, and a confirmed command is the pending one; `Start` ignores keys other than '1', '2' and '3'; keys other than 'a' and 'b' keep an input state of the same kind with no command. The transitions key by key are `StartTransitions`, `InputTransitions`, `ConfirmTransitions` and `ToggleTransitions` |
| Interface.Run | controller/src/interface.rs:117-128 | `run_input_sequence`: no keys leave the state with no command, and a reported command always comes with `Start`; `RunAppend` and `RunSnoc` relate it to `Update` |
| Interface.CharToNum | controller/src/interface.rs:103-110 | a value exactly for decimal digit characters, and that value is the digit's value (below 10) |
| Interface.AddDigit | controller/src/interface.rs:95-100 | a non-digit leaves the accumulator unchanged; a digit gives `(val * 10 + digit) mod 2^16` |
| Interface.Display | controller/src/interface.rs:64-90 | every state's text is produced without a capacity error and fits the 32-byte buffer, so the `unwrap` in the idle loop never panics |
| Interface.StartTransitions | controller/src/interface.rs:26-28 | from `Start`, '1', '2' and '3' open the voltage, current and toggle menus; every other key is ignored by the catch-all arm (line 60) |
| Interface.InputTransitions | controller/src/interface.rs:31-48 | in either input state, 'b' returns to `Start`, 'a' moves the typed value into a pending `Confirm` command, and every other key goes through `add_digit`; no command is emitted |
| Interface.DigitEntry | controller/src/interface.rs:36-38 | a digit appends to the accumulator when the result fits 16 bits; a non-digit leaves the state and emits nothing |
| Interface.AddDigitWraps | controller/src/interface.rs:97 | past 16 bits the accumulator wraps: '0' typed after 6554 gives 4 |
| Interface.ConfirmTransitions | controller/src/interface.rs:51-60 | in `Confirm(cmd)`, '1' emits `cmd` and '2' drops it, both returning to `Start`; other keys are ignored |
| Interface.ToggleTransitions | controller/src/interface.rs:56-60 | in `ToggleOutput`, '1' emits `OutputOn` and '2' emits `OutputOff`, both returning to `Start`; other keys are ignored |
| Interface.CommandsOnlyOnCompletion | controller/src/interface.rs:23-62 | a command comes only out of `Confirm` or `ToggleOutput` and always lands in `Start`; voltage and current commands are exactly the pending one |
| Interface.RunAppend | controller/src/interface.rs:117-128 | running a concatenated key sequence runs the second part from the state the first left |
| Interface.RunSnoc | controller/src/interface.rs:117-128 | running one more key is one more `update` |
| Interface.StaysInInput | controller/src/interface.rs:31-48 | keys other than 'a' and 'b' never leave an input state and never emit a command |
| Interface.DigitsAccumulate | controller/src/interface.rs:36-38 | typing the digits of a number below 2^16 into an empty input state leaves exactly that number |
| Interface.MenuThenDigits | controller/src/interface.rs:26-27 | a key pressed in `Start` followed by any keys runs those keys from the state that key leads to |
| Interface.DigitsWrap | controller/src/interface.rs:36-38 | typing any digit string into an empty input state leaves the number it spells modulo 2^16, the wrap of the `u16` accumulator |
| Interface.VoltageEntry | controller/src/interface.rs:26-52 | '1', a number, 'a', '1' emits a voltage command of that many millivolts; ending in '2' instead emits nothing; both end in `Start` |
| Interface.CurrentEntry | controller/src/interface.rs:27-52 | '2', a number, 'a', '1' emits a current command of that many milliamperes; ending in '2' instead emits nothing; both end in `Start` |
| Interface.BackDiscards | controller/src/interface.rs:31-41 | 'b' during entry returns to `Start` with no command, whatever was typed before it |
| Interface.TestVoltageInput | controller/src/interface.rs:131-136 | "11234a1" ends in `Start` with a 1234 mV voltage command |
| Interface.TestCurrentInput | controller/src/interface.rs:138-151 | "22" gives `InputCurrent(2)`, "22a" a pending 2 mA command, "2234a1" a 234 mA current command |
| Interface.TestAbortedVoltage | controller/src/interface.rs:154-159 | "11234a2" ends in `Start` with no command |
| Interface.TestAbortedCurrent | controller/src/interface.rs:161-166 | "2234a2" ends in `Start` with no command |
| Interface.TestToggleOutput | controller/src/interface.rs:169-178 | "31" emits `OutputOn` and "32" emits `OutputOff` |
| Interface.DisplayShowsValue | controller/src/interface.rs:69-82 | an input state shows its accumulator in decimal followed by " mV" or " mA", and the number reads back as the accumulator |
| Interface.DisplayDistinguishesInput | controller/src/interface.rs:69-82 | different accumulators show different texts, and a voltage entry never shows the same text as a current entry |
| EarlyInterface.Update | src/interface.rs:19-58 | total over every state and key, with the same guarantees as `Interface.Update`: commands only out of `Confirm` or `ToggleOutput` into `Start`, the pending command confirmed, unknown keys ignored in `Start`, and input states kept by keys other than 'a' and 'b' |
| EarlyInterface.CharToNum | src/interface.rs:74-81 | a value exactly for decimal digit characters, and that value is the digit's value |
| EarlyInterface.AddDigit | src/interface.rs:66-71 | a non-digit leaves the accumulator unchanged; a digit gives `(val * 10 + digit) mod 2^16` |
| EarlyInterface.AddDigitAgrees | src/interface.rs:66-71 | the earlier `add_digit` equals the controller's for every value and key |
| EarlyInterface.UpdateAgrees | src/interface.rs:19-58 | the earlier `update` equals the controller's for every state and key |
| EarlyInterface.Transitions | src/interface.rs:19-58 | the earlier `update`'s transitions, state by state |
| Text.FromStr | controller/src/interface.rs:67 | `ArrayString::from` succeeds exactly when the text fits 32 bytes, and then holds that text |
| Text.PushStr | controller/src/interface.rs:72-73 | `push_str` appends the text, keeping the old contents as a prefix and staying within 32 bytes |
| Text.Decimal | controller/src/interface.rs:71-72 | `itoa::Buffer::format`: at least one character, all decimal digits; `ParseDecimalInverse` reads it back |
| Text.ParseDecimalInverse | controller/src/interface.rs:72 | the decimal rendering `itoa` produces reads back as the number |
| Text.DecimalLengthU16 | controller/src/interface.rs:72 | every 16-bit value renders in at most five digits |
| Text.NumberReadsBack | controller/src/state.rs:43-44 | the leading digits of a rendered number followed by a non-digit read back as the number |
| Device.SaturateU16 | controller/src/state.rs:43 | the float-to-`u16` cast of the voltage in mV is below 2^16, and it is the value itself when that fits |
| Device.StatusWordDecides | controller/src/state.rs:46-56 | the text ends in "Disabled" iff the output is disabled, in "On" iff enabled with the switch closed, in "Off" iff enabled with the switch open |
| Device.StatusLine | controller/src/state.rs:43-56 | the number in millivolts, " mV " and the status word fit 32 bytes, the number reads back, and the last word tells the three states apart |
| Device.Render | controller/src/state.rs:40-59 | the status line is exactly the number, " mV " and the status word; it fits 32 bytes, starts with the millivolts that read back, and ends in the word for the output's state |
| Device.State.constructor | controller/src/state.rs:11-17 | voltage 0, the given switch position, and the output enabled exactly when the switch is open; the re-arm rule holds |
| Device.State.OutputVoltage | controller/src/state.rs:20-27 | the commanded voltage while the output is enabled, else 0, and never more than the commanded voltage |
| Device.State.SetOutputSwitchState | controller/src/state.rs:29-34 | records the switch; opening it enables the output, closing it leaves the flag alone; the voltage is unchanged and the re-arm rule is kept |
| Device.State.SetVoltage | controller/src/state.rs:36-38 | changes the commanded voltage and nothing else; the re-arm rule is kept |
| Device.State.Display | controller/src/state.rs:40-59 | always `Ok`, exactly the saturated millivolts in decimal, " mV " and the status word, within 32 bytes; the leading number reads back as the saturated millivolts; the last word is "Disabled", "On" or "Off", each iff its state |
| Keymap.Shape | controller/src/keymap.rs:1-14 | four rows of three keys, and `KEYMAP` is those rows in order |
| Keymap.KeysAreExactlyKeyChars | controller/src/keymap.rs:1-6 | every key is a digit, 'a' or 'b'; each of those twelve characters is on exactly one key |
| Keypad.TranslateCoordinate | controller/src/keypad.rs:73-75 | the character of `(row, col)` is taken from the slice of column `col` |
| Keypad.ColumnScan | controller/src/keypad.rs:40 | one column is visited top row first, `rows` positions |
| Keypad.ScanOrderLength | controller/src/keypad.rs:37-40 | a full scan visits `rows * cols` positions |
| Keypad.ScanOrderPrefix | controller/src/keypad.rs:37 | scanning fewer columns visits a prefix of the full scan |
| Keypad.ScanOrderColumn | controller/src/keypad.rs:37-40 | column `ci` occupies positions `rows*ci` to `rows*ci + rows` of the scan |
| Keypad.ScanOrderMembers | controller/src/keypad.rs:37-40 | the scan visits exactly the positions of the matrix |
| Keypad.ScanOrderOrdered | controller/src/keypad.rs:37-40 | the scan visits positions in strictly increasing column-major order, so none twice |
| Keypad.HeldMembers | controller/src/keypad.rs:42-46 | a position is recorded iff it was visited and its key is held |
| Keypad.HeldOrdered | controller/src/keypad.rs:42-46 | recorded keys keep the scan order |
| Keypad.HeldPrefix | controller/src/keypad.rs:42-46 | the keys recorded after fewer reads are a prefix of those recorded after more |
| Keypad.ReadCountFinds | controller/src/keypad.rs:47-50 | a scan that stops when the buffer is full has recorded `min(held keys, capacity)` keys |
| Keypad.ScanEnds | controller/src/keypad.rs:47-56 | wherever the loop stops, it made exactly the specified number of reads, holding `min(held, capacity)` keys that are a prefix of all held keys |
| Keypad.FirstPressedIsFirst | controller/src/keypad.rs:59-68 | no key is found iff none is held; a found key is held, lies in the matrix, and no other held key comes before it in scan order |
| Keypad.Keypad.constructor | controller/src/keypad.rs:22-28 | a keypad of the given rows and columns that has read nothing yet |
| Keypad.Keypad.ReadRow | controller/src/keypad.rs:42 | with only column `ci` high, row `ri` reads high iff key `(ri, ci)` is held; the read is recorded |
| Keypad.Keypad.SetHigh | controller/src/keypad.rs:39 | column `ci` becomes the only column driven high |
| Keypad.Keypad.SetLow | controller/src/keypad.rs:48 | the driven column is set low, so all columns are low |
| Keypad.Keypad.SetAllLow | controller/src/keypad.rs:31-33 | every column output is low |
| Keypad.Keypad.ReadInto | controller/src/keypad.rs:42-46 | one row read: a held key is appended to the buffer, the rest of the buffer is untouched, and the read is recorded |
| Keypad.Keypad.ScanColumn | controller/src/keypad.rs:37-54 | one column's pass: the held keys of the column are appended in row order until the buffer is full, the column is low again afterwards (also on the early return), and exactly the reads made are recorded |
| Keypad.Keypad.ReadAllCoords | controller/src/keypad.rs:29-57 | returns `min(held keys, buffer length)`, the buffer's front holds the first that many held keys in scan order, the rest is untouched, the reads follow the scan order up to the stopping read, and every column is low at the end |
| Keypad.Keypad.ReadFirstKey | controller/src/keypad.rs:59-68 | the first held key in scan order, or `None` when no key is held; every column is low at the end |
| Idle.KeyOf | controller/src/main.rs:166-170 | a scan yields no key iff no key of the 3 × 4 matrix is held, and otherwise a key character |
| Idle.Fresh | controller/src/main.rs:172 | a key is fed iff one is held and it differs from the last key |
| Idle.Step | controller/src/main.rs:165-197 | the last key becomes the scanned key; an unfed key changes nothing and writes nothing; a fed key updates the interpreter, writes its new display to the LCD, and writes the PWM iff a voltage command completes, for that command's millivolts |
| Idle.SingleKey | controller/src/main.rs:166-170 | a single held key at `(ri, ci)` yields the keymap character of column `ci`, row `ri` |
| Idle.FinalRunsFed | controller/src/main.rs:164-197 | after any polls, the interpreter state is `update` run on exactly the keys the polls fed it |
| Idle.HeldKeyFedOnce | controller/src/main.rs:172-191 | a key held over `n >= 1` polls is fed once, or not at all if it was already the last key |
| Idle.ReleaseRearms | controller/src/main.rs:194-196 | after a poll with no key held, the next held key is fed even if it repeats the last one |
| Idle.OneTextPerFedKey | controller/src/main.rs:188-189 | the LCD is written exactly once per fed key |
| Idle.LcdShowsState | controller/src/main.rs:188-189 | the last text written to the LCD is the display of the current interpreter state |
| Idle.PwmFollowsVoltage | controller/src/main.rs:177-186 | a poll adds a PWM write exactly when its fed key completes a voltage command, for that command's voltage |
| Idle.Controller.constructor | controller/src/main.rs:160-162 | no last key, the interpreter at `Start`, a 3 × 4 keypad, nothing written |
| Idle.Controller.Poll | controller/src/main.rs:165-197 | one pass of the loop body over the real keypad scan: the loop state moves by `Step` on the scanned key, and the PWM and LCD logs grow by that step's writes; every keypad column is low afterwards |
| Idle.Controller.PollAll | controller/src/main.rs:164-198 | polling a sequence of scans ends in the `Final` state of their keys, with the duty log extended by the duties of all voltage commands and the LCD log by all texts, in order |

## Left out

- Floating point: commands and the device state store `val as f32 / 1000.0`
  (controller/src/interface.rs:33 and 43) and an `f32` voltage. The model
  keeps the exact integer millivolts or milliamperes, so `f32` rounding is
  not modelled.
- Interface.AddDigit: the `u16` arithmetic `val * 10 + digit` is modelled as
  wrapping modulo 2^16, as in a release build. A debug build panics on the
  overflow instead.
- Device.SaturateU16: `(set_voltage * 1000.) as u16` is a saturating
  float-to-integer cast. The model saturates the integer millivolts at 65535
  and does not model float rounding or negative voltages.
- Keypad.Keypad.ReadAllCoords: requires a buffer of at least one slot. With
  an empty buffer the source reads one pin, then either panics on the
  out-of-bounds store or returns 0. The only caller, `read_first_key`, passes
  one slot.
- Keypad.Keypad.ReadAllCoords: the source's early `return` from inside the
  row loop is a `full` flag that ends the column loop. The column pass is a
  separate method, `ScanColumn`.
- Keypad: the generic `Borrow`/`BorrowMut` pin containers and the `as u8`
  coordinate casts are not modelled; coordinates are unbounded naturals.
  The 3 × 4 keypad's coordinates never reach 256.
- Keypad: the hardware pins are abstracted. Output levels are a boolean
  array, and a row read returns `pressed(row, column)` for the one driven
  column, so electrical effects such as ghosting are not modelled.
- Idle: the infinite `loop` is modelled as `PollAll` over any finite
  sequence of scans. Only its finite prefixes are modelled, not
  non-termination.
- Idle: `voltage::pwm_percentage_for_voltage`, the duty formula
  (controller/src/main.rs:156-158 and 178-185) and the `as u16` cast of the
  duty are the parameter `dutyFor`. controller/src/voltage.rs is not part of
  this model.
- Idle: `LCD.clear()` followed by `write_str` is one recorded write of the
  displayed text.
- `init`, `interrupt_tim2`, `hard_fault` and `default_handler` in
  controller/src/main.rs are left out: they are hardware setup and panics.
- `itoa` and `ArrayString` are modelled only as far as the display code uses
  them: decimal rendering and a 32-byte capacity.
- The `get_display` of src/interface.rs is `unimplemented!()` and has no
  model.
- src/main.rs, models/src/main.rs and math/filter.py are not part of this
  model.
