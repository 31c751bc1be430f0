/**
 * The keypad command interpreter of the controller firmware
 * (controller/src/interface.rs): a total transition function over five
 * menu states that yields a completed command when the user confirms it,
 * and the one-line text each state shows on the display.
 */
module Interface {
  import opened Wrappers
  import opened Text

  /** The accumulator of digit entry is a Rust `u16`. */
  type U16 = x: int | 0 <= x < 0x1_0000

  /**
   * A completed command. The source stores `val as f32 / 1000.0` (volts or
   * amperes) in an `f32`; the model keeps the exact integer `val`, that is,
   * the value in millivolts or milliamperes.
   */
  datatype Command = Voltage(milli: nat) | Current(milli: nat) | OutputOn | OutputOff

  datatype State =
    | Start
    | InputVoltage(val: U16)
    | Confirm(cmd: Command)
    | InputCurrent(val: U16)
    | ToggleOutput

  /** `char_to_num`: the value of a decimal digit character, `None` for anything else. */
  function CharToNum(digit: char): (r: Option<nat>)
    ensures r.Some? <==> IsDigit(digit)
    ensures r.Some? ==> r.value < 10 && DigitChar(r.value) == digit
  {
    if IsDigit(digit) then Some(digit as int - 48) else None
  }

  /**
   * `add_digit`: appends a decimal digit to the accumulator; a non-digit
   * leaves it unchanged. `val * 10 + digit` is computed on `u16`; the model
   * takes the wrap-around of a release build (a debug build panics instead).
   */
  function AddDigit(val: U16, digit: char): (r: U16)
    ensures !IsDigit(digit) ==> r == val
    ensures IsDigit(digit) ==> r == (val * 10 + DigitValue(digit)) % 0x1_0000
  {
    match CharToNum(digit)
    case Some(d) => (val * 10 + d) % 0x1_0000
    case None => val
  }

  /**
   * `State::update`: the successor state and the command completed by `input`,
   * if any. It is total: the catch-all arm leaves the state as it is.
   */
  function Update(s: State, input: char): (r: (State, Option<Command>))
    ensures r.1.Some? ==> r.0 == Start && (s.Confirm? || s.ToggleOutput?)
    ensures r.1.Some? && s.Confirm? ==> r.1.value == s.cmd
    ensures s.Start? && input !in "123" ==> r == (Start, None)
    ensures (s.InputVoltage? || s.InputCurrent?) && input != 'a' && input != 'b' ==>
      r.1.None? && r.0.InputVoltage? == s.InputVoltage? && r.0.InputCurrent? == s.InputCurrent?
  {
    match (s, input)
    // Start state
    case (Start, '1') => (InputVoltage(0), None)
    case (Start, '2') => (InputCurrent(0), None)
    case (Start, '3') => (ToggleOutput, None)
    // Voltage input
    case (InputVoltage(_), 'b') => (Start, None)
    case (InputVoltage(val), 'a') => (Confirm(Voltage(val)), None)
    case (InputVoltage(val), _) => (InputVoltage(AddDigit(val, input)), None)
    // Current input
    case (InputCurrent(_), 'b') => (Start, None)
    case (InputCurrent(val), 'a') => (Confirm(Current(val)), None)
    case (InputCurrent(val), _) => (InputCurrent(AddDigit(val, input)), None)
    // Confirm
    case (Confirm(cmd), '1') => (Start, Some(cmd))
    case (Confirm(_), '2') => (Start, None)
    // Toggle output
    case (ToggleOutput, '1') => (Start, Some(OutputOn))
    case (ToggleOutput, '2') => (Start, Some(OutputOff))
    case (state, _) => (state, None)
  }

  /**
   * The test helper `run_input_sequence`: feeds `inputs` one by one from `s`
   * and returns the final state with the command of the LAST step only.
   */
  function Run(s: State, inputs: string): (r: (State, Option<Command>))
    ensures inputs == [] ==> r == (s, None)
    ensures r.1.Some? ==> r.0 == Start
  {
    if inputs == [] then (s, None)
    else Update(Run(s, inputs[..|inputs| - 1]).0, inputs[|inputs| - 1])
  }

  /** `State::get_display`: the text shown for each state, always within the 32-byte buffer. */
  function Display(s: State): (r: Result<string, CapacityError>)
    ensures r.Ok? && |r.value| <= CAPACITY
  {
    match s
    case Start => FromStr("1:V 2:A 3:I/o")
    case InputCurrent(val) =>
      DecimalLengthU16(val);
      Ok(PushStr(PushStr("", Decimal(val)), " mA"))
    case InputVoltage(val) =>
      DecimalLengthU16(val);
      Ok(PushStr(PushStr("", Decimal(val)), " mV"))
    case Confirm(_) => FromStr("Confirm 1:y 2:n")
    case ToggleOutput => FromStr("1:On 2:Off")
  }

  // ---------------------------------------------------------------------
  // Properties of the transition function

  /** From `Start`, '1', '2' and '3' open the three menus; every other key is ignored. */
  lemma StartTransitions(c: char)
    ensures Update(Start, c) ==
      if c == '1' then (InputVoltage(0), None)
      else if c == '2' then (InputCurrent(0), None)
      else if c == '3' then (ToggleOutput, None)
      else (Start, None)
  {
  }

  /**
   * In an input state: 'b' goes back to `Start` whatever was typed, 'a' moves
   * the typed value into a pending command, and any other key goes through
   * `AddDigit`, so that the input state is never left by the catch-all arm.
   * No input key emits a command.
   */
  lemma InputTransitions(v: U16, c: char)
    ensures Update(InputVoltage(v), c) ==
      if c == 'b' then (Start, None)
      else if c == 'a' then (Confirm(Voltage(v)), None)
      else (InputVoltage(AddDigit(v, c)), None)
    ensures Update(InputCurrent(v), c) ==
      if c == 'b' then (Start, None)
      else if c == 'a' then (Confirm(Current(v)), None)
      else (InputCurrent(AddDigit(v, c)), None)
  {
  }

  /** A digit is appended to the accumulator when the result fits 16 bits; a non-digit is ignored. */
  lemma DigitEntry(v: U16, c: char)
    requires c != 'a' && c != 'b'
    ensures IsDigit(c) && v * 10 + DigitValue(c) < 0x1_0000 ==>
      Update(InputVoltage(v), c).0 == InputVoltage(v * 10 + DigitValue(c))
    ensures !IsDigit(c) ==> Update(InputVoltage(v), c) == (InputVoltage(v), None)
    ensures IsDigit(c) && v * 10 + DigitValue(c) < 0x1_0000 ==>
      Update(InputCurrent(v), c).0 == InputCurrent(v * 10 + DigitValue(c))
    ensures !IsDigit(c) ==> Update(InputCurrent(v), c) == (InputCurrent(v), None)
  {
  }

  /** Past 16 bits the accumulator wraps: typing '0' after 6554 shows 4, not 65540. */
  lemma AddDigitWraps()
    ensures AddDigit(6554, '0') == 4
    ensures Update(InputVoltage(6554), '0') == (InputVoltage(4), None)
  {
  }

  /** `Confirm(cmd)`: '1' emits `cmd`, '2' drops it, both back to `Start`; other keys are ignored. */
  lemma ConfirmTransitions(cmd: Command, c: char)
    ensures Update(Confirm(cmd), c) ==
      if c == '1' then (Start, Some(cmd))
      else if c == '2' then (Start, None)
      else (Confirm(cmd), None)
  {
  }

  /** `ToggleOutput`: '1' emits `OutputOn`, '2' emits `OutputOff`; other keys are ignored. */
  lemma ToggleTransitions(c: char)
    ensures Update(ToggleOutput, c) ==
      if c == '1' then (Start, Some(OutputOn))
      else if c == '2' then (Start, Some(OutputOff))
      else (ToggleOutput, None)
  {
  }

  /**
   * A command is only ever emitted when leaving `Confirm` or `ToggleOutput`,
   * and always lands in `Start`; the voltage and current commands come only
   * out of `Confirm`.
   */
  lemma CommandsOnlyOnCompletion(s: State, c: char)
    ensures Update(s, c).1.Some? ==> Update(s, c).0 == Start && (s.Confirm? || s.ToggleOutput?)
    ensures Update(s, c).1.Some? && (Update(s, c).1.value.Voltage? || Update(s, c).1.value.Current?)
      ==> s == Confirm(Update(s, c).1.value)
    ensures s.ToggleOutput? && Update(s, c).1.Some? ==>
      Update(s, c).1.value == if c == '1' then OutputOn else OutputOff
  {
  }

  // ---------------------------------------------------------------------
  // Input sequences

  /** Running a concatenation runs the second part from where the first one stopped. */
  lemma {:induction false} RunAppend(s: State, u: string, v: string)
    requires v != []
    ensures Run(s, u + v) == Run(Run(s, u).0, v)
  {
    var w := u + v;
    assert w[..|w| - 1] == u + v[..|v| - 1];
    if |v| == 1 {
      assert u + v[..|v| - 1] == u;
    } else {
      RunAppend(s, u, v[..|v| - 1]);
    }
  }

  /** Keys other than 'a' and 'b' keep an input state an input state of the same kind. */
  lemma {:induction false} StaysInInput(v: U16, keys: string)
    requires forall i :: 0 <= i < |keys| ==> keys[i] != 'a' && keys[i] != 'b'
    ensures Run(InputVoltage(v), keys).0.InputVoltage?
    ensures Run(InputCurrent(v), keys).0.InputCurrent?
    ensures Run(InputVoltage(v), keys).1 == None && Run(InputCurrent(v), keys).1 == None
  {
    if keys != [] {
      StaysInInput(v, keys[..|keys| - 1]);
    }
  }

  /** Typing the digits of a number that fits 16 bits leaves exactly that number in the accumulator. */
  lemma {:induction false} DigitsAccumulate(digits: string)
    requires AllDigits(digits) && ParseDecimal(digits) < 0x1_0000
    ensures Run(InputVoltage(0), digits) == (InputVoltage(ParseDecimal(digits)), None)
    ensures Run(InputCurrent(0), digits) == (InputCurrent(ParseDecimal(digits)), None)
  {
    if digits != [] {
      var front := digits[..|digits| - 1];
      var last := digits[|digits| - 1];
      assert ParseDecimal(digits) == ParseDecimal(front) * 10 + DigitValue(last);
      DigitsAccumulate(front);
      DigitEntry(ParseDecimal(front), last);
    }
  }

  /**
   * Typing any digits into an empty input state leaves the number they spell
   * modulo 2^16: the accumulator wraps on every overflowing digit.
   */
  lemma {:induction false} DigitsWrap(digits: string)
    requires AllDigits(digits)
    ensures Run(InputVoltage(0), digits) == (InputVoltage(ParseDecimal(digits) % 0x1_0000), None)
    ensures Run(InputCurrent(0), digits) == (InputCurrent(ParseDecimal(digits) % 0x1_0000), None)
  {
    if digits != [] {
      var front := digits[..|digits| - 1];
      var last := digits[|digits| - 1];
      var p := ParseDecimal(front);
      assert ParseDecimal(digits) == p * 10 + DigitValue(last);
      DigitsWrap(front);
      ModTimesTenPlus(p, DigitValue(last));
    }
  }

  /** Reducing before or after appending a digit gives the same 16-bit value. */
  lemma ModTimesTenPlus(p: nat, d: nat)
    ensures ((p % 0x1_0000) * 10 + d) % 0x1_0000 == (p * 10 + d) % 0x1_0000
  {
    var q := p / 0x1_0000;
    assert p == q * 0x1_0000 + p % 0x1_0000;
    assert p * 10 + d == (q * 10) * 0x1_0000 + ((p % 0x1_0000) * 10 + d);
  }

  /** Running one more key is one more `Update`. */
  lemma RunSnoc(s: State, u: string, c: char)
    ensures Run(s, u + [c]) == Update(Run(s, u).0, c)
  {
    assert (u + [c])[..|u|] == u;
  }

  /** Opening a menu with `menu` and typing `digits` runs the digits from the menu's empty input state. */
  lemma {:induction false} MenuThenDigits(menu: char, digits: string)
    ensures Run(Start, [menu] + digits) == Run(Update(Start, menu).0, digits)
  {
    assert Run(Start, [menu]) == Update(Start, menu) by {
      RunSnoc(Start, [], menu);
      assert [] + [menu] == [menu];
    }
    if digits == [] {
      assert [menu] + digits == [menu];
    } else {
      RunAppend(Start, [menu], digits);
    }
  }

  /** '1', a number, 'a', '1' from `Start` commands that many millivolts and returns to `Start`. */
  lemma VoltageEntry(digits: string)
    requires AllDigits(digits) && ParseDecimal(digits) < 0x1_0000
    ensures Run(Start, "1" + digits + "a1") == (Start, Some(Voltage(ParseDecimal(digits))))
    ensures Run(Start, "1" + digits + "a2") == (Start, None)
  {
    DigitsAccumulate(digits);
    MenuThenDigits('1', digits);
    var typed := "1" + digits + "a";
    RunSnoc(Start, "1" + digits, 'a');
    RunSnoc(Start, typed, '1');
    RunSnoc(Start, typed, '2');
    assert "1" + digits + "a1" == typed + ['1'] && "1" + digits + "a2" == typed + ['2'];
  }

  /** '2', a number, 'a', '1' from `Start` commands that many milliamperes and returns to `Start`. */
  lemma CurrentEntry(digits: string)
    requires AllDigits(digits) && ParseDecimal(digits) < 0x1_0000
    ensures Run(Start, "2" + digits + "a1") == (Start, Some(Current(ParseDecimal(digits))))
    ensures Run(Start, "2" + digits + "a2") == (Start, None)
  {
    DigitsAccumulate(digits);
    MenuThenDigits('2', digits);
    var typed := "2" + digits + "a";
    RunSnoc(Start, "2" + digits, 'a');
    RunSnoc(Start, typed, '1');
    RunSnoc(Start, typed, '2');
    assert "2" + digits + "a1" == typed + ['1'] && "2" + digits + "a2" == typed + ['2'];
  }

  /** 'b' during entry discards whatever was typed, however many keys that was. */
  lemma BackDiscards(keys: string)
    requires forall i :: 0 <= i < |keys| ==> keys[i] != 'a' && keys[i] != 'b'
    ensures Run(Start, "1" + keys + "b") == (Start, None)
    ensures Run(Start, "2" + keys + "b") == (Start, None)
  {
    StaysInInput(0, keys);
    assert "1"[..0] == [] && "2"[..0] == [];
    if keys != [] {
      RunAppend(Start, "1", keys);
      RunAppend(Start, "2", keys);
    } else {
      assert "1" + keys == "1" && "2" + keys == "2";
    }
    RunAppend(Start, "1" + keys, "b");
    RunAppend(Start, "2" + keys, "b");
    assert "b"[..0] == [];
  }

  // The unit tests at the end of controller/src/interface.rs, one lemma each.

  lemma ReadsAs1234()
    ensures AllDigits("1234") && ParseDecimal("1234") == 1234
  {
    assert "1234"[..3] == "123" && "123"[..2] == "12" && "12"[..1] == "1" && "1"[..0] == [];
  }

  lemma ReadsAs234()
    ensures AllDigits("234") && ParseDecimal("234") == 234
  {
    assert "234"[..2] == "23" && "23"[..1] == "2" && "2"[..0] == [];
  }

  /** `voltage_input`. */
  lemma TestVoltageInput()
    ensures Run(Start, "11234a1") == (Start, Some(Voltage(1234)))
  {
    ReadsAs1234();
    VoltageEntry("1234");
    assert "1" + "1234" + "a1" == "11234a1";
  }

  /** `current_input`. */
  lemma TestCurrentInput()
    ensures Run(Start, "22") == (InputCurrent(2), None)
    ensures Run(Start, "22a") == (Confirm(Current(2)), None)
    ensures Run(Start, "2234a1") == (Start, Some(Current(234)))
  {
    RunSnoc(Start, [], '2');
    assert [] + ['2'] == "2";
    RunSnoc(Start, "2", '2');
    assert "2" + ['2'] == "22";
    RunSnoc(Start, "22", 'a');
    assert "22" + ['a'] == "22a";
    ReadsAs234();
    CurrentEntry("234");
    assert "2" + "234" + "a1" == "2234a1";
  }

  /** `aborted_voltage`. */
  lemma TestAbortedVoltage()
    ensures Run(Start, "11234a2") == (Start, None)
  {
    ReadsAs1234();
    VoltageEntry("1234");
    assert "1" + "1234" + "a2" == "11234a2";
  }

  /** `aborted_current`. */
  lemma TestAbortedCurrent()
    ensures Run(Start, "2234a2") == (Start, None)
  {
    ReadsAs234();
    CurrentEntry("234");
    assert "2" + "234" + "a2" == "2234a2";
  }

  /** `toggle_output`. */
  lemma TestToggleOutput()
    ensures Run(Start, "31") == (Start, Some(OutputOn))
    ensures Run(Start, "32") == (Start, Some(OutputOff))
  {
    RunSnoc(Start, [], '3');
    assert [] + ['3'] == "3";
    RunSnoc(Start, "3", '1');
    RunSnoc(Start, "3", '2');
    assert "3" + ['1'] == "31" && "3" + ['2'] == "32";
  }

  // ---------------------------------------------------------------------
  // Display

  /** An input state shows its accumulator in decimal followed by its unit, and the number reads back. */
  lemma DisplayShowsValue(v: U16)
    ensures Display(InputVoltage(v)).value == Decimal(v) + " mV"
    ensures Display(InputCurrent(v)).value == Decimal(v) + " mA"
    ensures ParseDecimal(LeadingDigits(Display(InputVoltage(v)).value)) == v
    ensures ParseDecimal(LeadingDigits(Display(InputCurrent(v)).value)) == v
  {
    NumberReadsBack(v, " mV");
    NumberReadsBack(v, " mA");
  }

  /** Distinct input states show distinct texts: the display determines the state being edited. */
  lemma DisplayDistinguishesInput(v: U16, w: U16)
    ensures Display(InputVoltage(v)) == Display(InputVoltage(w)) ==> v == w
    ensures Display(InputCurrent(v)) == Display(InputCurrent(w)) ==> v == w
    ensures Display(InputVoltage(v)) != Display(InputCurrent(w))
  {
    DisplayShowsValue(v);
    DisplayShowsValue(w);
    var a, b := Display(InputVoltage(v)).value, Display(InputCurrent(w)).value;
    assert a[|a| - 1] == 'V' && b[|b| - 1] == 'A';
  }
}
