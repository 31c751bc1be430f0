/**
 * The keypad layout (controller/src/keymap.rs): four rows of three keys, and
 * the table of row slices that `translate_coordinate` indexes.
 */
module Keymap {
  import opened Text

  const KEYMAP_DATA: seq<seq<char>> :=
    [ ['1', '2', '3']
    , ['4', '5', '6']
    , ['7', '8', '9']
    , ['a', '0', 'b']
    ]

  const KEYMAP: seq<seq<char>> :=
    [ KEYMAP_DATA[0]
    , KEYMAP_DATA[1]
    , KEYMAP_DATA[2]
    , KEYMAP_DATA[3]
    ]

  /** The characters a key can produce: the ten digits, 'a' (accept) and 'b' (back). */
  predicate IsKeyChar(c: char) {
    IsDigit(c) || c == 'a' || c == 'b'
  }

  /** The layout is 4 rows of 3 keys, and `KEYMAP` is those rows in order. */
  lemma Shape()
    ensures |KEYMAP_DATA| == 4 && forall i :: 0 <= i < 4 ==> |KEYMAP_DATA[i]| == 3
    ensures |KEYMAP| == 4 && forall i :: 0 <= i < 4 ==> KEYMAP[i] == KEYMAP_DATA[i]
  {
  }

  /** Every key produces a key character, and every key character is on exactly one key. */
  lemma KeysAreExactlyKeyChars()
    ensures forall i, j :: 0 <= i < 4 && 0 <= j < 3 ==> IsKeyChar(KEYMAP_DATA[i][j])
    ensures forall c :: IsKeyChar(c) ==> exists i, j :: 0 <= i < 4 && 0 <= j < 3 && KEYMAP_DATA[i][j] == c
    ensures forall i, j, k, l ::
      0 <= i < 4 && 0 <= j < 3 && 0 <= k < 4 && 0 <= l < 3 && KEYMAP_DATA[i][j] == KEYMAP_DATA[k][l]
      ==> i == k && j == l
  {
    forall c | IsKeyChar(c)
      ensures exists i, j :: 0 <= i < 4 && 0 <= j < 3 && KEYMAP_DATA[i][j] == c
    {
      var at :=
        if c == '0' then (3, 1) else if c == 'a' then (3, 0) else if c == 'b' then (3, 2)
        else ((c as int - 49) / 3, (c as int - 49) % 3);
      assert KEYMAP_DATA[at.0][at.1] == c;
    }
  }
}
