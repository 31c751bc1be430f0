/**
 * The earlier copy of the command interpreter (src/interface.rs). Its
 * `Command` and `State` enums have the same variants as the controller
 * crate's, so the model reuses `Interface.Command` and `Interface.State`; its
 * `update`, `add_digit` and `char_to_num` are modelled afresh from that file.
 * Its `get_display` is `unimplemented!()` and has no model.
 */
module EarlyInterface {
  import opened Wrappers
  import opened Text
  import Interface

  type U16 = Interface.U16

  /** `char_to_num`: the value of a decimal digit character, `None` for anything else. */
  function CharToNum(digit: char): (r: Option<nat>)
    ensures r.Some? <==> IsDigit(digit)
    ensures r.Some? ==> r.value < 10 && DigitChar(r.value) == digit
  {
    if IsDigit(digit) then Some(digit as int - 48) else None
  }

  /** `add_digit`, with the same 16-bit wrap-around as the controller's copy. */
  function AddDigit(val: U16, digit: char): (r: U16)
    ensures !IsDigit(digit) ==> r == val
    ensures IsDigit(digit) ==> r == (val * 10 + DigitValue(digit)) % 0x1_0000
  {
    match CharToNum(digit)
    case Some(d) => (val * 10 + d) % 0x1_0000
    case None => val
  }

  /** `State::update` of the earlier copy, total like the controller's. */
  function Update(s: Interface.State, input: char): (r: (Interface.State, Option<Interface.Command>))
    ensures r.1.Some? ==> r.0 == Interface.Start && (s.Confirm? || s.ToggleOutput?)
    ensures r.1.Some? && s.Confirm? ==> r.1.value == s.cmd
    ensures s.Start? && input !in "123" ==> r == (Interface.Start, None)
    ensures (s.InputVoltage? || s.InputCurrent?) && input != 'a' && input != 'b' ==>
      r.1.None? && r.0.InputVoltage? == s.InputVoltage? && r.0.InputCurrent? == s.InputCurrent?
  {
    match (s, input)
    // Start state
    case (Start, '1') => (Interface.InputVoltage(0), None)
    case (Start, '2') => (Interface.InputCurrent(0), None)
    case (Start, '3') => (Interface.ToggleOutput, None)
    // Voltage input
    case (InputVoltage(_), 'b') => (Interface.Start, None)
    case (InputVoltage(val), 'a') => (Interface.Confirm(Interface.Voltage(val)), None)
    case (InputVoltage(val), _) => (Interface.InputVoltage(AddDigit(val, input)), None)
    // Current input
    case (InputCurrent(_), 'b') => (Interface.Start, None)
    case (InputCurrent(val), 'a') => (Interface.Confirm(Interface.Current(val)), None)
    case (InputCurrent(val), _) => (Interface.InputCurrent(AddDigit(val, input)), None)
    // Confirm
    case (Confirm(cmd), '1') => (Interface.Start, Some(cmd))
    case (Confirm(cmd), '2') => (Interface.Start, None)
    // Toggle output
    case (ToggleOutput, '1') => (Interface.Start, Some(Interface.OutputOn))
    case (ToggleOutput, '2') => (Interface.Start, Some(Interface.OutputOff))
    case (state, _) => (state, None)
  }

  /** The two copies of `add_digit` compute the same accumulator for every value and key. */
  lemma AddDigitAgrees(val: U16, digit: char)
    ensures AddDigit(val, digit) == Interface.AddDigit(val, digit)
  {
  }

  /** The earlier `update` agrees with the controller's on every state and key. */
  lemma UpdateAgrees(s: Interface.State, input: char)
    ensures Update(s, input) == Interface.Update(s, input)
  {
  }

  /** The transitions of the earlier copy, stated on their own. */
  lemma Transitions(v: U16, cmd: Interface.Command, c: char)
    ensures Update(Interface.Start, c) ==
      if c == '1' then (Interface.InputVoltage(0), None)
      else if c == '2' then (Interface.InputCurrent(0), None)
      else if c == '3' then (Interface.ToggleOutput, None)
      else (Interface.Start, None)
    ensures Update(Interface.InputVoltage(v), c) ==
      if c == 'b' then (Interface.Start, None)
      else if c == 'a' then (Interface.Confirm(Interface.Voltage(v)), None)
      else (Interface.InputVoltage(AddDigit(v, c)), None)
    ensures Update(Interface.InputCurrent(v), c) ==
      if c == 'b' then (Interface.Start, None)
      else if c == 'a' then (Interface.Confirm(Interface.Current(v)), None)
      else (Interface.InputCurrent(AddDigit(v, c)), None)
    ensures Update(Interface.Confirm(cmd), c) ==
      if c == '1' then (Interface.Start, Some(cmd))
      else if c == '2' then (Interface.Start, None)
      else (Interface.Confirm(cmd), None)
    ensures Update(Interface.ToggleOutput, c) ==
      if c == '1' then (Interface.Start, Some(Interface.OutputOn))
      else if c == '2' then (Interface.Start, Some(Interface.OutputOff))
      else (Interface.ToggleOutput, None)
  {
  }
}
