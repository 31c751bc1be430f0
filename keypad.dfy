/**
 * The keypad matrix driver (controller/src/keypad.rs). Each column output is
 * driven high in turn while every row input is read; a row reads high exactly
 * when the key at that (row, column) is held. The GPIO pins are abstracted:
 * column outputs are the boolean levels in `columns`, and the keys held down
 * during one scan are the predicate `pressed(ri, ci)` that the row read
 * returns while column `ci` alone is driven.
 */
module Keypad {
  import opened Wrappers

  /** A key position `(row, column)`; the source packs both into `u8`. */
  type Coord = (nat, nat)

  /** The positions of column `ci`, top row first. */
  function ColumnScan(rows: nat, ci: nat): (r: seq<Coord>)
    ensures |r| == rows
    ensures forall ri :: 0 <= ri < rows ==> r[ri] == (ri, ci)
  {
    seq(rows, ri => (ri, ci))
  }

  /** The order in which the scan visits the keys: column by column, each from the top row down. */
  function ScanOrder(rows: nat, cols: nat): seq<Coord>
  {
    if cols == 0 then [] else ScanOrder(rows, cols - 1) + ColumnScan(rows, cols - 1)
  }

  /** Column-major order: `a` is visited before `b`. */
  predicate Before(a: Coord, b: Coord) {
    a.1 < b.1 || (a.1 == b.1 && a.0 < b.0)
  }

  predicate StrictlyOrdered(s: seq<Coord>) {
    forall i, j :: 0 <= i < j < |s| ==> Before(s[i], s[j])
  }

  /** The held keys among the first `n` positions of `s`, in the order of `s`. */
  function Held(s: seq<Coord>, pressed: (nat, nat) -> bool, n: nat): (r: seq<Coord>)
    requires n <= |s|
    ensures |r| <= n
  {
    if n == 0 then []
    else Held(s, pressed, n - 1) + (if pressed(s[n - 1].0, s[n - 1].1) then [s[n - 1]] else [])
  }

  /**
   * How many row reads a scan with a buffer of `cap` slots performs, counting
   * from read `i` on: it stops at the first read after which `cap` keys have
   * been found, or after the last key.
   */
  function ReadCount(order: seq<Coord>, pressed: (nat, nat) -> bool, cap: nat, i: nat): (k: nat)
    requires i <= |order|
    ensures i <= k <= |order|
    decreases |order| - i
  {
    if i == |order| || |Held(order, pressed, i)| >= cap then i
    else ReadCount(order, pressed, cap, i + 1)
  }

  function Min(a: nat, b: nat): nat {
    if a <= b then a else b
  }

  /** All held keys of a `rows` by `cols` keypad, in scan order. */
  function AllHeld(rows: nat, cols: nat, pressed: (nat, nat) -> bool): seq<Coord>
  {
    Held(ScanOrder(rows, cols), pressed, |ScanOrder(rows, cols)|)
  }

  /** The first held key in scan order, if any. */
  function FirstPressed(rows: nat, cols: nat, pressed: (nat, nat) -> bool): Option<Coord>
  {
    var found := AllHeld(rows, cols, pressed);
    if found == [] then None else Some(found[0])
  }

  /** `translate_coordinate`: the character of a key, looked up column first. */
  function TranslateCoordinate(coord: Coord, translation: seq<seq<char>>): (c: char)
    requires coord.1 < |translation| && coord.0 < |translation[coord.1]|
    ensures c in translation[coord.1]
  {
    translation[coord.1][coord.0]
  }

  // ---------------------------------------------------------------------
  // The scan order

  lemma {:induction false} ScanOrderLength(rows: nat, cols: nat)
    ensures |ScanOrder(rows, cols)| == rows * cols
  {
    if cols > 0 {
      ScanOrderLength(rows, cols - 1);
      assert rows * cols == rows * (cols - 1) + rows;
    }
  }

  /** Scanning fewer columns visits a prefix of the full scan. */
  lemma {:induction false} ScanOrderPrefix(rows: nat, ci: nat, cols: nat)
    requires ci <= cols
    ensures |ScanOrder(rows, ci)| <= |ScanOrder(rows, cols)|
    ensures ScanOrder(rows, ci) == ScanOrder(rows, cols)[..|ScanOrder(rows, ci)|]
  {
    if ci < cols {
      ScanOrderPrefix(rows, ci, cols - 1);
    }
  }

  /** Column `ci` is scanned top to bottom, right after the `rows * ci` keys of the first `ci` columns. */
  lemma ScanOrderColumn(rows: nat, ci: nat, cols: nat)
    requires ci < cols
    ensures rows * (ci + 1) == rows * ci + rows <= |ScanOrder(rows, cols)|
    ensures ScanOrder(rows, cols)[rows * ci..rows * ci + rows] == ColumnScan(rows, ci)
  {
    ScanOrderPrefix(rows, ci + 1, cols);
    ScanOrderLength(rows, ci);
    var before := ScanOrder(rows, ci);
    var next := ScanOrder(rows, ci + 1);
    assert next[|before|..] == ColumnScan(rows, ci);
  }

  /** The scan visits exactly the keys of a `rows` by `cols` matrix. */
  lemma {:induction false} ScanOrderMembers(rows: nat, cols: nat, c: Coord)
    ensures c in ScanOrder(rows, cols) <==> c.0 < rows && c.1 < cols
  {
    if cols > 0 {
      ScanOrderMembers(rows, cols - 1, c);
      if c.0 < rows && c.1 == cols - 1 {
        assert ColumnScan(rows, cols - 1)[c.0] == c;
      }
    }
  }

  /** The scan is in strict column-major order, so it visits each key once. */
  lemma {:induction false} ScanOrderOrdered(rows: nat, cols: nat)
    ensures StrictlyOrdered(ScanOrder(rows, cols))
  {
    if cols > 0 {
      ScanOrderOrdered(rows, cols - 1);
      var front, col := ScanOrder(rows, cols - 1), ColumnScan(rows, cols - 1);
      forall i, j | 0 <= i < j < |front + col|
        ensures Before((front + col)[i], (front + col)[j])
      {
        if i < |front| && j >= |front| {
          ScanOrderMembers(rows, cols - 1, front[i]);
        }
      }
    }
  }

  // ---------------------------------------------------------------------
  // Held keys

  lemma {:induction false} HeldMembers(s: seq<Coord>, pressed: (nat, nat) -> bool, n: nat, c: Coord)
    requires n <= |s|
    ensures c in Held(s, pressed, n) <==> c in s[..n] && pressed(c.0, c.1)
  {
    if n > 0 {
      HeldMembers(s, pressed, n - 1, c);
      assert s[..n] == s[..n - 1] + [s[n - 1]];
    }
  }

  /** The held keys of a strictly ordered sequence stay strictly ordered. */
  lemma {:induction false} HeldOrdered(s: seq<Coord>, pressed: (nat, nat) -> bool, n: nat)
    requires n <= |s| && StrictlyOrdered(s)
    ensures StrictlyOrdered(Held(s, pressed, n))
  {
    if n > 0 {
      HeldOrdered(s, pressed, n - 1);
      var r := Held(s, pressed, n);
      var rf := Held(s, pressed, n - 1);
      forall i, j | 0 <= i < j < |r|
        ensures Before(r[i], r[j])
      {
        if j >= |rf| {
          assert r[i] in rf;
          HeldMembers(s, pressed, n - 1, r[i]);
          var k :| 0 <= k < n - 1 && s[..n - 1][k] == r[i];
          assert s[k] == r[i];
        }
      }
    }
  }

  /** The keys held among fewer positions are a prefix of the keys held among more. */
  lemma {:induction false} HeldPrefix(s: seq<Coord>, pressed: (nat, nat) -> bool, k: nat, n: nat)
    requires k <= n <= |s|
    ensures |Held(s, pressed, k)| <= |Held(s, pressed, n)|
    ensures Held(s, pressed, k) == Held(s, pressed, n)[..|Held(s, pressed, k)|]
  {
    if k < n {
      HeldPrefix(s, pressed, k, n - 1);
    }
  }

  /** One more read finds at most one more key. */
  lemma HeldGrows(s: seq<Coord>, pressed: (nat, nat) -> bool, n: nat)
    requires n < |s|
    ensures |Held(s, pressed, n)| <= |Held(s, pressed, n + 1)| <= |Held(s, pressed, n)| + 1
  {
  }

  /** Reads that leave the buffer short of full do not end the scan. */
  lemma {:induction false} ReadCountSkip(order: seq<Coord>, pressed: (nat, nat) -> bool, cap: nat, i: nat, k: nat)
    requires i <= k <= |order| && |Held(order, pressed, k)| < cap
    ensures ReadCount(order, pressed, cap, i) == ReadCount(order, pressed, cap, k)
    decreases k - i
  {
    if i < k {
      HeldPrefix(order, pressed, i, k);
      ReadCountSkip(order, pressed, cap, i + 1, k);
    }
  }

  /** The scan ends at read `k` when read `k` is the one that fills the buffer. */
  lemma ReadCountStop(order: seq<Coord>, pressed: (nat, nat) -> bool, cap: nat, i: nat, k: nat)
    requires i < k <= |order|
    requires |Held(order, pressed, k - 1)| < cap <= |Held(order, pressed, k)|
    ensures ReadCount(order, pressed, cap, i) == k
  {
    ReadCountSkip(order, pressed, cap, i, k - 1);
  }

  /**
   * Where a scan that stopped after read `pos` with `count` keys found leaves
   * things: it stopped because the buffer filled at that read or because the
   * keypad was exhausted.
   */
  lemma ScanEnds(order: seq<Coord>, pressed: (nat, nat) -> bool, cap: nat, pos: nat)
    requires pos <= |order|
    requires |Held(order, pressed, pos)| <= cap
    requires if pos < |order| || |Held(order, pressed, pos)| == cap
      then 0 < pos && |Held(order, pressed, pos - 1)| < cap == |Held(order, pressed, pos)|
      else pos == |order|
    ensures ReadCount(order, pressed, cap, 0) == pos
    ensures |Held(order, pressed, pos)| == Min(|Held(order, pressed, |order|)|, cap)
    ensures Held(order, pressed, pos) == Held(order, pressed, |order|)[..|Held(order, pressed, pos)|]
  {
    HeldPrefix(order, pressed, pos, |order|);
    if pos < |order| || |Held(order, pressed, pos)| == cap {
      ReadCountStop(order, pressed, cap, 0, pos);
    } else {
      ReadCountSkip(order, pressed, cap, 0, pos);
    }
  }

  /**
   * The reads a scan performs find `min(held, cap)` keys: the first `cap` held
   * keys in scan order, or all of them when fewer are held.
   */
  lemma {:induction false} ReadCountFinds(order: seq<Coord>, pressed: (nat, nat) -> bool, cap: nat, i: nat)
    requires i <= |order| && 1 <= cap
    requires |Held(order, pressed, i)| <= cap
    ensures |Held(order, pressed, ReadCount(order, pressed, cap, i))| ==
      Min(|Held(order, pressed, |order|)|, cap)
    decreases |order| - i
  {
    if i == |order| {
      assert ReadCount(order, pressed, cap, i) == i;
    } else if |Held(order, pressed, i)| >= cap {
      assert ReadCount(order, pressed, cap, i) == i;
      HeldPrefix(order, pressed, i, |order|);
    } else {
      HeldGrows(order, pressed, i);
      assert ReadCount(order, pressed, cap, i) == ReadCount(order, pressed, cap, i + 1);
      ReadCountFinds(order, pressed, cap, i + 1);
    }
  }

  /** The first held key is held, lies in the matrix, and no held key of the matrix comes before it. */
  lemma FirstPressedIsFirst(rows: nat, cols: nat, pressed: (nat, nat) -> bool)
    ensures FirstPressed(rows, cols, pressed).None? <==>
      forall ri, ci :: 0 <= ri < rows && 0 <= ci < cols ==> !pressed(ri, ci)
    ensures FirstPressed(rows, cols, pressed).Some? ==>
      var c := FirstPressed(rows, cols, pressed).value;
      c.0 < rows && c.1 < cols && pressed(c.0, c.1) &&
      forall ri, ci :: 0 <= ri < rows && 0 <= ci < cols && pressed(ri, ci) && (ri, ci) != c ==> Before(c, (ri, ci))
  {
    var order := ScanOrder(rows, cols);
    var found := AllHeld(rows, cols, pressed);
    assert order[..|order|] == order;
    if found == [] {
      forall ri, ci | 0 <= ri < rows && 0 <= ci < cols
        ensures !pressed(ri, ci)
      {
        ScanOrderMembers(rows, cols, (ri, ci));
        HeldMembers(order, pressed, |order|, (ri, ci));
      }
    } else {
      var c := found[0];
      HeldMembers(order, pressed, |order|, c);
      ScanOrderMembers(rows, cols, c);
      ScanOrderOrdered(rows, cols);
      HeldOrdered(order, pressed, |order|);
      forall ri, ci | 0 <= ri < rows && 0 <= ci < cols && pressed(ri, ci) && (ri, ci) != c
        ensures Before(c, (ri, ci))
      {
        ScanOrderMembers(rows, cols, (ri, ci));
        HeldMembers(order, pressed, |order|, (ri, ci));
        var j :| 0 <= j < |found| && found[j] == (ri, ci);
      }
    }
  }

  // ---------------------------------------------------------------------
  // The driver

  class Keypad {
    const rows: nat
    /** Output level of each column pin, true for high. */
    const columns: array<bool>
    /** Every row read so far, as the position it sampled. */
    ghost var pinReads: seq<Coord>

    /** `Keypad::new`, over `rows` row inputs and `cols` column outputs. */
    constructor (rows: nat, cols: nat)
      ensures this.rows == rows && columns.Length == cols && fresh(columns)
      ensures pinReads == []
    {
      this.rows := rows;
      columns := new bool[cols];
      pinReads := [];
    }

    /**
     * `row.is_high()` on row `ri`: with column `ci` the only one driven high,
     * the row reads high exactly when key `(ri, ci)` is held.
     */
    method ReadRow(ri: nat, ci: nat, pressed: (nat, nat) -> bool) returns (high: bool)
      requires ri < rows && ci < columns.Length
      requires forall c :: 0 <= c < columns.Length ==> columns[c] == (c == ci)
      modifies this`pinReads
      ensures high == pressed(ri, ci)
      ensures pinReads == old(pinReads) + [(ri, ci)]
    {
      high := pressed(ri, ci);
      pinReads := pinReads + [(ri, ci)];
    }

    /** `col.set_high()` on column `ci`, with every column low before. */
    method SetHigh(ci: nat)
      requires ci < columns.Length
      requires forall c :: 0 <= c < columns.Length ==> !columns[c]
      modifies columns
      ensures forall c :: 0 <= c < columns.Length ==> columns[c] == (c == ci)
    {
      columns[ci] := true;
    }

    /** `col.set_low()` on column `ci`, the only column high before. */
    method SetLow(ci: nat)
      requires ci < columns.Length
      requires forall c :: 0 <= c < columns.Length ==> columns[c] == (c == ci)
      modifies columns
      ensures forall c :: 0 <= c < columns.Length ==> !columns[c]
    {
      columns[ci] := false;
    }

    /** The first loop of `read_all_coords`: every column output set low. */
    method SetAllLow()
      modifies columns
      ensures forall c :: 0 <= c < columns.Length ==> !columns[c]
    {
      var ci := 0;
      while ci < columns.Length
        invariant ci <= columns.Length
        invariant forall c :: 0 <= c < ci ==> !columns[c]
      {
        columns[ci] := false;
        ci := ci + 1;
      }
    }

    /**
     * One row read of `read_all_coords`: reads row `ri` while column `ci`
     * alone is driven, and when it is high stores `(ri, ci)` at `count`.
     */
    method ReadInto(ri: nat, ci: nat, buffer: array<Coord>, pressed: (nat, nat) -> bool, count0: nat,
                    ghost order: seq<Coord>, ghost pos: nat, ghost before: seq<Coord>)
      returns (count: nat)
      requires ri < rows && ci < columns.Length
      requires forall c :: 0 <= c < columns.Length ==> columns[c] == (c == ci)
      requires pos < |order| && order[pos] == (ri, ci)
      requires count0 == |Held(order, pressed, pos)| < buffer.Length
      requires buffer[..count0] == Held(order, pressed, pos)
      requires pinReads == before + order[..pos]
      modifies this`pinReads, buffer
      ensures count == |Held(order, pressed, pos + 1)| <= buffer.Length
      ensures buffer[..count] == Held(order, pressed, pos + 1)
      ensures forall j :: count <= j < buffer.Length ==> buffer[j] == old(buffer[j])
      ensures pinReads == before + order[..pos + 1]
    {
      assert order[..pos + 1] == order[..pos] + [(ri, ci)];
      count := count0;
      var high := ReadRow(ri, ci, pressed);
      if high {
        buffer[count] := (ri, ci);
        count := count + 1;
      }
    }

    /**
     * The row loop of `read_all_coords` for column `ci`, which alone is driven
     * high: reads the rows top to bottom from read `pos0` of the scan on, puts
     * each held key into `buffer` at `count`, and stops at the read that fills
     * the buffer, reporting `full`.
     */
    method ScanColumn(ci: nat, buffer: array<Coord>, pressed: (nat, nat) -> bool, count0: nat,
                      ghost order: seq<Coord>, ghost pos0: nat, ghost before: seq<Coord>)
      returns (count: nat, full: bool, ghost pos: nat)
      requires ci < columns.Length
      requires forall c :: 0 <= c < columns.Length ==> !columns[c]
      requires pos0 + rows <= |order| && order[pos0..pos0 + rows] == ColumnScan(rows, ci)
      requires count0 == |Held(order, pressed, pos0)| < buffer.Length
      requires buffer[..count0] == Held(order, pressed, pos0)
      requires pinReads == before + order[..pos0]
      modifies this`pinReads, columns, buffer
      ensures forall c :: 0 <= c < columns.Length ==> !columns[c]
      ensures pos0 <= pos <= pos0 + rows && (!full ==> pos == pos0 + rows)
      ensures count == |Held(order, pressed, pos)|
      ensures full <==> count >= buffer.Length
      ensures count0 <= count <= buffer.Length
      ensures full ==> pos0 < pos && |Held(order, pressed, pos - 1)| < buffer.Length
      ensures buffer[..count] == Held(order, pressed, pos)
      ensures forall j :: count <= j < buffer.Length ==> buffer[j] == old(buffer[j])
      ensures pinReads == before + order[..pos]
    {
      ghost var cap := buffer.Length;
      count, full, pos := count0, false, pos0;
      // Set the column high
      SetHigh(ci);
      var ri := 0;
      while ri < rows
        invariant forall c :: 0 <= c < columns.Length ==> columns[c] == (c == ci)
        invariant ri <= rows
        invariant pos == pos0 + ri
        invariant count0 <= count == |Held(order, pressed, pos)| < cap
        invariant buffer[..count] == Held(order, pressed, pos)
        invariant forall j :: count <= j < buffer.Length ==> buffer[j] == old(buffer[j])
        invariant pinReads == before + order[..pos]
      {
        assert order[pos] == order[pos0..pos0 + rows][ri];
        count := ReadInto(ri, ci, buffer, pressed, count, order, pos, before);
        pos := pos + 1;
        if count >= buffer.Length {
          SetLow(ci);
          full := true;
          return;
        }
        ri := ri + 1;
      }
      // Reset the column
      SetLow(ci);
    }

    /**
     * `read_all_coords`: writes the held keys, in scan order, to the front of
     * `buffer` until it is full, and returns how many it wrote. The scan stops
     * at the read that fills the buffer, and leaves every column low.
     */
    method ReadAllCoords(buffer: array<Coord>, pressed: (nat, nat) -> bool) returns (count: nat)
      requires 1 <= buffer.Length
      modifies this`pinReads, columns, buffer
      ensures count == Min(|AllHeld(rows, columns.Length, pressed)|, buffer.Length)
      ensures buffer[..count] == AllHeld(rows, columns.Length, pressed)[..count]
      ensures forall j :: count <= j < buffer.Length ==> buffer[j] == old(buffer[j])
      ensures pinReads == old(pinReads) +
        ScanOrder(rows, columns.Length)[..ReadCount(ScanOrder(rows, columns.Length), pressed, buffer.Length, 0)]
      ensures forall c :: 0 <= c < columns.Length ==> !columns[c]
    {
      ghost var order := ScanOrder(rows, columns.Length);
      ghost var cap := buffer.Length;
      // the number of row reads so far: the scan has visited order[..pos]
      ghost var pos: nat := 0;

      SetAllLow();
      count := 0;
      var ci := 0;
      var full := false;
      while ci < columns.Length && !full
        invariant ci <= columns.Length
        invariant forall c :: 0 <= c < columns.Length ==> !columns[c]
        invariant pos <= |order|
        invariant !full ==> pos == rows * ci
        invariant count == |Held(order, pressed, pos)| <= cap
        invariant if full then 0 < pos && |Held(order, pressed, pos - 1)| < cap == count else count < cap
        invariant buffer[..count] == Held(order, pressed, pos)
        invariant forall j :: count <= j < buffer.Length ==> buffer[j] == old(buffer[j])
        invariant pinReads == old(pinReads) + order[..pos]
      {
        ScanOrderColumn(rows, ci, columns.Length);
        count, full, pos := ScanColumn(ci, buffer, pressed, count, order, pos, old(pinReads));
        ci := ci + 1;
      }
      ScanOrderLength(rows, columns.Length);
      ScanEnds(order, pressed, cap, pos);
    }

    /**
     * `read_first_key`: scans with a one-slot buffer and reports the first
     * held key in scan order, or `None` when no key is held.
     */
    method ReadFirstKey(pressed: (nat, nat) -> bool) returns (key: Option<Coord>)
      modifies this`pinReads, columns
      ensures key == FirstPressed(rows, columns.Length, pressed)
      ensures pinReads == old(pinReads) +
        ScanOrder(rows, columns.Length)[..ReadCount(ScanOrder(rows, columns.Length), pressed, 1, 0)]
      ensures forall c :: 0 <= c < columns.Length ==> !columns[c]
    {
      var buffer := new Coord[1](_ => (0, 0));
      var amount := ReadAllCoords(buffer, pressed);
      if amount != 0 {
        assert buffer[..1][0] == buffer[0];
        key := Some(buffer[0]);
      } else {
        key := None;
      }
    }
  }
}
