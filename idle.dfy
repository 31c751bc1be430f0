/**
 * The controller's idle loop (controller/src/main.rs, `idle`): poll the keypad
 * for its first held key, translate it through the keymap, and feed it to the
 * command interpreter only when it differs from the key seen on the previous
 * poll. A fed key redraws the LCD with the new state's display text, and a
 * completed voltage command also sets the PWM duty. Releasing every key
 * forgets the last key, so the same key pressed again is fed again.
 *
 * The hardware writes are recorded: `Outputs` holds the PWM and LCD writes of
 * one poll, and the `Controller` class keeps the log of all of them. The
 * floating-point duty arithmetic is the parameter `dutyFor`, an arbitrary
 * function from the commanded millivolts to the duty written.
 */
module Idle {
  import opened Wrappers
  import opened Text
  import Interface
  import Keypad
  import Keymap

  /** The keypad has three row inputs and four column outputs. */
  const ROWS: nat := 3
  const COLUMNS: nat := 4

  /** The loop's two locals: `last_key` and `interface_state`. */
  datatype Loop = Loop(lastKey: Option<char>, ui: Interface.State)

  /**
   * The hardware writes of one poll: the voltage (mV) a new PWM duty is set
   * for, and the text written to the cleared LCD.
   */
  datatype Outputs = Outputs(pwm: Option<nat>, lcd: Option<string>)

  /** The state before the first poll. */
  const START: Loop := Loop(None, Interface.Start)

  /** The key character a keypad scan yields: the first held key, through `KEYMAP`. */
  function KeyOf(pressed: (nat, nat) -> bool): (r: Option<char>)
    ensures r.None? <==> forall ri, ci :: 0 <= ri < ROWS && 0 <= ci < COLUMNS ==> !pressed(ri, ci)
    ensures r.Some? ==> Keymap.IsKeyChar(r.value)
  {
    Keypad.FirstPressedIsFirst(ROWS, COLUMNS, pressed);
    Keymap.KeysAreExactlyKeyChars();
    match Keypad.FirstPressed(ROWS, COLUMNS, pressed)
    case None => None
    case Some(coords) => Some(Keypad.TranslateCoordinate(coords, Keymap.KEYMAP))
  }

  /** The key a poll feeds to the interpreter: a held key that differs from the last one. */
  function Fresh(s: Loop, key: Option<char>): (r: Option<char>)
    ensures r.Some? <==> key.Some? && key != s.lastKey
    ensures r.Some? ==> r == key
  {
    if key.Some? && key != s.lastKey then key else None
  }

  /** One pass of the loop body, given the key the scan yielded. */
  function Step(s: Loop, key: Option<char>): (r: (Loop, Outputs))
    ensures r.0.lastKey == key
    ensures Fresh(s, key).None? ==> r.0.ui == s.ui && r.1 == Outputs(None, None)
    ensures Fresh(s, key).Some? ==>
      var (ui, command) := Interface.Update(s.ui, key.value);
      && r.0.ui == ui
      && r.1.lcd == Some(Interface.Display(ui).value)
      && (r.1.pwm.Some? <==> command.Some? && command.value.Voltage?)
      && (r.1.pwm.Some? ==> r.1.pwm.value == command.value.milli)
  {
    match key
    case None => (Loop(None, s.ui), Outputs(None, None))
    case Some(c) =>
      if Some(c) == s.lastKey then (s, Outputs(None, None))
      else
        var (ui, command) := Interface.Update(s.ui, c);
        var pwm := if command.Some? && command.value.Voltage? then Some(command.value.milli) else None;
        (Loop(Some(c), ui), Outputs(pwm, Some(Interface.Display(ui).value)))
  }

  /** The state after the polls `keys`. */
  function Final(s: Loop, keys: seq<Option<char>>): Loop
  {
    if keys == [] then s
    else Step(Final(s, keys[..|keys| - 1]), keys[|keys| - 1]).0
  }

  /** The characters the polls `keys` feed to the interpreter, in order. */
  function Fed(s: Loop, keys: seq<Option<char>>): string
  {
    if keys == [] then []
    else
      var before := Final(s, keys[..|keys| - 1]);
      var fed := Fresh(before, keys[|keys| - 1]);
      Fed(s, keys[..|keys| - 1]) + (if fed.Some? then [fed.value] else [])
  }

  /** The texts the polls `keys` write to the LCD, in order. */
  function LcdLog(s: Loop, keys: seq<Option<char>>): seq<string>
  {
    if keys == [] then []
    else
      var out := Step(Final(s, keys[..|keys| - 1]), keys[|keys| - 1]).1;
      LcdLog(s, keys[..|keys| - 1]) + (if out.lcd.Some? then [out.lcd.value] else [])
  }

  /** The voltages of the PWM writes the polls `keys` make, in order. */
  function PwmLog(s: Loop, keys: seq<Option<char>>): seq<nat>
  {
    if keys == [] then []
    else
      var out := Step(Final(s, keys[..|keys| - 1]), keys[|keys| - 1]).1;
      PwmLog(s, keys[..|keys| - 1]) + (if out.pwm.Some? then [out.pwm.value] else [])
  }

  /** The keys a sequence of scans yields. */
  function Keys(scans: seq<(nat, nat) -> bool>): (r: seq<Option<char>>)
    ensures |r| == |scans|
  {
    if scans == [] then [] else Keys(scans[..|scans| - 1]) + [KeyOf(scans[|scans| - 1])]
  }

  /** `n` polls that all see the same key. */
  function Repeat(key: Option<char>, n: nat): (r: seq<Option<char>>)
    ensures |r| == n && forall i :: 0 <= i < n ==> r[i] == key
  {
    seq(n, _ => key)
  }

  /** One more poll extends the state, the LCD log and the PWM log by one step. */
  lemma PollExtends(s: Loop, keys: seq<Option<char>>, key: Option<char>)
    ensures var (next, out) := Step(Final(s, keys), key);
      && Final(s, keys + [key]) == next
      && LcdLog(s, keys + [key]) == LcdLog(s, keys) + (if out.lcd.Some? then [out.lcd.value] else [])
      && PwmLog(s, keys + [key]) == PwmLog(s, keys) + (if out.pwm.Some? then [out.pwm.value] else [])
  {
    assert (keys + [key])[..|keys|] == keys;
  }

  /** The duties written for the voltages `mvs`, in order. */
  function Duties(dutyFor: nat -> nat, mvs: seq<nat>): (r: seq<nat>)
  {
    if mvs == [] then [] else Duties(dutyFor, mvs[..|mvs| - 1]) + [dutyFor(mvs[|mvs| - 1])]
  }

  /** One more PWM write adds its duty to the duties. */
  lemma DutiesExtend(dutyFor: nat -> nat, mvs: seq<nat>, mv: nat)
    ensures Duties(dutyFor, mvs + [mv]) == Duties(dutyFor, mvs) + [dutyFor(mv)]
  {
    assert (mvs + [mv])[..|mvs|] == mvs;
  }

  /** The logs of the loop, after any earlier writes, grow by the writes of each further poll. */
  lemma LogsExtend(s: Loop, keys: seq<Option<char>>, key: Option<char>, dutyFor: nat -> nat,
                   duties: seq<nat>, texts: seq<string>)
    ensures var (next, out) := Step(Final(s, keys), key);
      && Final(s, keys + [key]) == next
      && duties + Duties(dutyFor, PwmLog(s, keys + [key])) ==
        duties + Duties(dutyFor, PwmLog(s, keys)) + (if out.pwm.Some? then [dutyFor(out.pwm.value)] else [])
      && texts + LcdLog(s, keys + [key]) ==
        texts + LcdLog(s, keys) + (if out.lcd.Some? then [out.lcd.value] else [])
  {
    PollExtends(s, keys, key);
    var out := Step(Final(s, keys), key).1;
    if out.pwm.Some? {
      DutiesExtend(dutyFor, PwmLog(s, keys), out.pwm.value);
      var d := Duties(dutyFor, PwmLog(s, keys));
      assert (duties + d) + [dutyFor(out.pwm.value)] == duties + (d + [dutyFor(out.pwm.value)]);
    } else {
      assert PwmLog(s, keys) + [] == PwmLog(s, keys);
    }
    var written := if out.lcd.Some? then [out.lcd.value] else [];
    assert (texts + LcdLog(s, keys)) + written == texts + (LcdLog(s, keys) + written);
  }

  /** One more scan yields one more key. */
  lemma ScanExtends(scans: seq<(nat, nat) -> bool>, i: nat)
    requires i < |scans|
    ensures Keys(scans[..i + 1]) == Keys(scans[..i]) + [KeyOf(scans[i])]
  {
    assert scans[..i + 1][..i] == scans[..i];
  }

  // ---------------------------------------------------------------------
  // Properties

  /** A single held key yields its keymap character: column `ci` picks the slice, row `ri` the key. */
  lemma SingleKey(pressed: (nat, nat) -> bool, ri: nat, ci: nat)
    requires ri < ROWS && ci < COLUMNS
    requires forall r, c :: pressed(r, c) <==> r == ri && c == ci
    ensures KeyOf(pressed) == Some(Keymap.KEYMAP_DATA[ci][ri])
  {
    Keypad.FirstPressedIsFirst(ROWS, COLUMNS, pressed);
    assert pressed(ri, ci);
    var first := Keypad.FirstPressed(ROWS, COLUMNS, pressed).value;
    assert pressed(first.0, first.1);
  }

  /**
   * The interpreter state after any polls is the interpreter run on exactly
   * the keys the polls fed it.
   */
  lemma {:induction false} FinalRunsFed(s: Loop, keys: seq<Option<char>>)
    ensures Final(s, keys).ui == Interface.Run(s.ui, Fed(s, keys)).0
  {
    if keys != [] {
      var front := keys[..|keys| - 1];
      FinalRunsFed(s, front);
      var fed := Fresh(Final(s, front), keys[|keys| - 1]);
      if fed.Some? {
        Interface.RunAppend(s.ui, Fed(s, front), [fed.value]);
        assert [fed.value][..0] == [];
      } else {
        assert Fed(s, keys) == Fed(s, front);
      }
    }
  }

  /**
   * Debounce: a key held over `n >= 1` polls is fed once, on the first of
   * them, or not at all when it was already the last key.
   */
  lemma {:induction false} HeldKeyFedOnce(s: Loop, c: char, n: nat)
    requires 1 <= n
    ensures Final(s, Repeat(Some(c), n)).lastKey == Some(c)
    ensures Fed(s, Repeat(Some(c), n)) == if s.lastKey == Some(c) then [] else [c]
  {
    var keys := Repeat(Some(c), n);
    assert keys[..n - 1] == Repeat(Some(c), n - 1);
    if n > 1 {
      HeldKeyFedOnce(s, c, n - 1);
    }
  }

  /** Releasing every key re-arms the loop: the next held key is fed whatever it is. */
  lemma ReleaseRearms(s: Loop, keys: seq<Option<char>>, c: char)
    ensures Fed(s, keys + [None, Some(c)]) == Fed(s, keys) + [c]
  {
    var k1 := keys + [None];
    var k2 := keys + [None, Some(c)];
    assert k2[..|k2| - 1] == k1 && k1[..|k1| - 1] == keys;
  }

  /** Each poll writes the LCD exactly when it feeds a key, so the texts and fed keys pair up. */
  lemma {:induction false} OneTextPerFedKey(s: Loop, keys: seq<Option<char>>)
    ensures |LcdLog(s, keys)| == |Fed(s, keys)|
  {
    if keys != [] {
      OneTextPerFedKey(s, keys[..|keys| - 1]);
    }
  }

  /** The last text written to the LCD is always the display of the current interpreter state. */
  lemma {:induction false} LcdShowsState(s: Loop, keys: seq<Option<char>>)
    requires LcdLog(s, keys) != []
    ensures LcdLog(s, keys)[|LcdLog(s, keys)| - 1] == Interface.Display(Final(s, keys).ui).value
  {
    var front := keys[..|keys| - 1];
    var out := Step(Final(s, front), keys[|keys| - 1]).1;
    if out.lcd.None? {
      LcdShowsState(s, front);
    }
  }

  /**
   * A poll writes the PWM exactly when the key it feeds completes a voltage
   * command, and for that command's voltage.
   */
  lemma PwmFollowsVoltage(s: Loop, keys: seq<Option<char>>, key: Option<char>)
    ensures var before := Final(s, keys);
      var fed := Fresh(before, key);
      PwmLog(s, keys + [key]) ==
        PwmLog(s, keys) +
        (if fed.Some? && Interface.Update(before.ui, fed.value).1.Some? &&
            Interface.Update(before.ui, fed.value).1.value.Voltage?
         then [Interface.Update(before.ui, fed.value).1.value.milli] else [])
  {
    PollExtends(s, keys, key);
  }

  // ---------------------------------------------------------------------
  // The loop over the hardware

  class Controller {
    const keypad: Keypad.Keypad
    /** Millivolts to PWM duty: the source's floating-point duty formula. */
    const dutyFor: nat -> nat
    var lastKey: Option<char>
    var interfaceState: Interface.State
    /** Every duty written to the PWM, oldest first. */
    var dutyWrites: seq<nat>
    /** Every text written to the cleared LCD, oldest first. */
    var lcdWrites: seq<string>

    /** The keypad is the 3 by 4 matrix the keymap describes. */
    ghost predicate Valid() {
      keypad.rows == ROWS && keypad.columns.Length == COLUMNS
    }

    /** The start of `idle`: no last key, the interpreter at `Start`, nothing written yet. */
    constructor (dutyFor: nat -> nat)
      ensures Valid() && fresh(keypad) && fresh(keypad.columns)
      ensures this.dutyFor == dutyFor
      ensures Loop(lastKey, interfaceState) == START
      ensures dutyWrites == [] && lcdWrites == []
    {
      keypad := new Keypad.Keypad(ROWS, COLUMNS);
      this.dutyFor := dutyFor;
      lastKey := None;
      interfaceState := Interface.Start;
      dutyWrites := [];
      lcdWrites := [];
    }

    /** One pass of the loop body over a scan in which the keys `pressed` are held. */
    method Poll(pressed: (nat, nat) -> bool)
      requires Valid()
      modifies this, keypad, keypad.columns
      ensures var (next, out) := Step(old(Loop(lastKey, interfaceState)), KeyOf(pressed));
        && Loop(lastKey, interfaceState) == next
        && dutyWrites == old(dutyWrites) + (if out.pwm.Some? then [dutyFor(out.pwm.value)] else [])
        && lcdWrites == old(lcdWrites) + (if out.lcd.Some? then [out.lcd.value] else [])
      ensures forall c :: 0 <= c < keypad.columns.Length ==> !keypad.columns[c]
    {
      var coords := keypad.ReadFirstKey(pressed);
      match coords {
        case Some(c) =>
          Keypad.FirstPressedIsFirst(ROWS, COLUMNS, pressed);
          Keymap.Shape();
          var keyChar := Keypad.TranslateCoordinate(c, Keymap.KEYMAP);
          if Some(keyChar) != lastKey {
            // Process the key
            var (newState, command) := Interface.Update(interfaceState, keyChar);
            interfaceState := newState;
            if command.Some? && command.value.Voltage? {
              dutyWrites := dutyWrites + [dutyFor(command.value.milli)];
            }
            lcdWrites := lcdWrites + [Interface.Display(interfaceState).value];
            lastKey := Some(keyChar);
          }
        case None =>
          lastKey := None;
      }
    }

    /** The loop run over the scans `scans`, one poll each. */
    method PollAll(scans: seq<(nat, nat) -> bool>)
      requires Valid()
      modifies this, keypad, keypad.columns
      ensures Loop(lastKey, interfaceState) == Final(old(Loop(lastKey, interfaceState)), Keys(scans))
      ensures dutyWrites == old(dutyWrites) + Duties(dutyFor, PwmLog(old(Loop(lastKey, interfaceState)), Keys(scans)))
      ensures lcdWrites == old(lcdWrites) + LcdLog(old(Loop(lastKey, interfaceState)), Keys(scans))
    {
      ghost var s0 := Loop(lastKey, interfaceState);
      var i := 0;
      while i < |scans|
        invariant i <= |scans| && Valid()
        invariant Loop(lastKey, interfaceState) == Final(s0, Keys(scans[..i]))
        invariant dutyWrites == old(dutyWrites) + Duties(dutyFor, PwmLog(s0, Keys(scans[..i])))
        invariant lcdWrites == old(lcdWrites) + LcdLog(s0, Keys(scans[..i]))
      {
        ScanExtends(scans, i);
        LogsExtend(s0, Keys(scans[..i]), KeyOf(scans[i]), dutyFor, old(dutyWrites), old(lcdWrites));
        Poll(scans[i]);
        i := i + 1;
      }
      assert scans[..i] == scans;
    }
  }
}
