/**
 * The device state record of the controller (controller/src/state.rs): the
 * commanded voltage, the position of the physical output switch, and whether
 * the output is logically enabled, with the re-arm rule that opening the
 * switch always enables the output again.
 */
module Device {
  import opened Wrappers
  import opened Text

  /** `(v * 1000.) as u16` of a non-negative value: Rust's float-to-integer cast saturates. */
  function SaturateU16(milli: nat): (r: nat)
    ensures r < 0x1_0000
    ensures milli < 0x1_0000 ==> r == milli
  {
    if milli < 0x1_0000 then milli else 0xFFFF
  }

  /** The word the status line ends with. */
  function StatusWord(outputEnabled: bool, outputSwitchState: bool): string
  {
    if !outputEnabled then "Disabled" else if outputSwitchState then "On" else "Off"
  }

  predicate EndsWith(s: string, suffix: string) {
    |suffix| <= |s| && s[|s| - |suffix|..] == suffix
  }

  /** Whatever precedes it, the status word tells the three states apart: their last letters differ. */
  lemma StatusWordDecides(head: string, outputEnabled: bool, outputSwitchState: bool)
    ensures var text := head + StatusWord(outputEnabled, outputSwitchState);
      && (EndsWith(text, "Disabled") <==> !outputEnabled)
      && (EndsWith(text, "On") <==> outputEnabled && outputSwitchState)
      && (EndsWith(text, "Off") <==> outputEnabled && !outputSwitchState)
  {
    var word := StatusWord(outputEnabled, outputSwitchState);
    var text := head + word;
    assert text[|text| - 1] == word[|word| - 1];
    assert text[|text| - |word|..] == word;
  }

  /** The status line for a 16-bit millivolt value: its length, its leading number and its last word. */
  lemma StatusLine(milli: nat, outputEnabled: bool, outputSwitchState: bool)
    requires milli < 0x1_0000
    ensures var text := Decimal(milli) + " mV " + StatusWord(outputEnabled, outputSwitchState);
      && |text| <= CAPACITY
      && ParseDecimal(LeadingDigits(text)) == milli
      && (EndsWith(text, "Disabled") <==> !outputEnabled)
      && (EndsWith(text, "On") <==> outputEnabled && outputSwitchState)
      && (EndsWith(text, "Off") <==> outputEnabled && !outputSwitchState)
  {
    var digits := Decimal(milli);
    var word := StatusWord(outputEnabled, outputSwitchState);
    DecimalLengthU16(milli);
    NumberReadsBack(milli, " mV " + word);
    assert digits + " mV " + word == digits + (" mV " + word);
    StatusWordDecides(digits + " mV ", outputEnabled, outputSwitchState);
  }

  /** The status line for a 16-bit millivolt value, built by three `push_str`s. */
  function Render(milli: nat, outputEnabled: bool, outputSwitchState: bool): (text: string)
    requires milli < 0x1_0000
    ensures text == Decimal(milli) + " mV " + StatusWord(outputEnabled, outputSwitchState)
    ensures |text| <= CAPACITY
    ensures ParseDecimal(LeadingDigits(text)) == milli
    ensures EndsWith(text, "Disabled") <==> !outputEnabled
    ensures EndsWith(text, "On") <==> outputEnabled && outputSwitchState
    ensures EndsWith(text, "Off") <==> outputEnabled && !outputSwitchState
  {
    var digits := Decimal(milli);
    DecimalLengthU16(milli);
    StatusLine(milli, outputEnabled, outputSwitchState);
    var head := PushStr(PushStr("", digits), " mV ");
    assert head == digits + " mV " by {
      assert "" + digits == digits;
    }
    PushStr(head, StatusWord(outputEnabled, outputSwitchState))
  }

  class State {
    /** The commanded voltage in millivolts; the source stores volts in an `f32`. */
    var setVoltage: nat
    var outputSwitchState: bool
    /** Public in the source, so code outside this class may also write it. */
    var outputEnabled: bool

    /** The re-arm rule: whenever the switch is open the output is enabled. */
    ghost predicate Armed()
      reads this
    {
      !outputSwitchState ==> outputEnabled
    }

    /** `State::new`: voltage 0, the sensed switch position, enabled exactly when the switch is open. */
    constructor (outputSwitchState: bool)
      ensures setVoltage == 0
      ensures this.outputSwitchState == outputSwitchState
      ensures outputEnabled == !outputSwitchState
      ensures Armed()
    {
      setVoltage := 0;
      this.outputSwitchState := outputSwitchState;
      outputEnabled := !outputSwitchState;
    }

    /** `output_voltage`: the voltage actually driven, zero while the output is disabled. */
    function OutputVoltage(): (v: nat)
      reads this
      ensures v <= setVoltage
      ensures outputEnabled ==> v == setVoltage
      ensures !outputEnabled ==> v == 0
    {
      if outputEnabled then setVoltage else 0
    }

    /**
     * `set_output_switch_state`: records the switch position; opening the
     * switch forces the output enabled, closing it leaves the flag alone.
     */
    method SetOutputSwitchState(switchState: bool)
      modifies this
      ensures outputSwitchState == switchState
      ensures outputEnabled == (if switchState then old(outputEnabled) else true)
      ensures setVoltage == old(setVoltage)
      ensures old(Armed()) ==> Armed()
      ensures !switchState ==> Armed()
    {
      outputSwitchState := switchState;
      if switchState == false {
        outputEnabled := true;
      }
    }

    /** `set_voltage`: changes the commanded voltage and nothing else. */
    method SetVoltage(voltage: nat)
      modifies this
      ensures setVoltage == voltage
      ensures outputSwitchState == old(outputSwitchState) && outputEnabled == old(outputEnabled)
      ensures old(Armed()) ==> Armed()
    {
      setVoltage := voltage;
    }

    /**
     * `get_display`: the commanded voltage in millivolts, " mV ", then the
     * status word. The text always fits the 32-byte buffer, the number at its
     * head reads back as the (16-bit) voltage, and the last word tells the
     * three states apart.
     */
    function Display(): (r: Result<string, CapacityError>)
      reads this
      ensures r.Ok? && |r.value| <= CAPACITY
      ensures r.value == Decimal(SaturateU16(setVoltage)) + " mV " + StatusWord(outputEnabled, outputSwitchState)
      ensures ParseDecimal(LeadingDigits(r.value)) == SaturateU16(setVoltage)
      ensures EndsWith(r.value, "Disabled") <==> !outputEnabled
      ensures EndsWith(r.value, "On") <==> outputEnabled && outputSwitchState
      ensures EndsWith(r.value, "Off") <==> outputEnabled && !outputSwitchState
    {
      Ok(Render(SaturateU16(setVoltage), outputEnabled, outputSwitchState))
    }
  }
}
