/**
 * The 4x4 matrix keypad scanner. A periodic timer drives one row at a time
 * and samples the four columns; a key whose column goes high while it is UP
 * becomes DOWN and appends its label to a buffer that the main loop reads and
 * clears with get_key.
 *
 * The timer interrupt is modelled as one sequential step that is handed the
 * four column levels it samples.
 */
module KeypadTimer {
  import opened Wrappers

  datatype KeyState = Up | Down

  const Rows := 4
  const Cols := 4
  const KeyCount := 16

  /** The key labels, row by row. */
  const Labels: string := "123A456B789C*0#D"

  /** No two keys of a table share a character. */
  predicate Distinct(chars: string)
  {
    forall i, j :: 0 <= i < j < |chars| ==> chars[i] != chars[j]
  }

  /** The keypad's labels are sixteen distinct characters. */
  lemma LabelsDistinct()
    ensures |Labels| == KeyCount && Distinct(Labels)
  {
  }

  /* ---------------- one row scan, as values ---------------- */

  /** Column c of row reports a DOWN event: its column is high and the key was UP. */
  predicate DownAt(states: seq<KeyState>, row: nat, cols: seq<bool>, c: nat)
    requires |states| == KeyCount && row < Rows && |cols| == Cols && c < Cols
  {
    cols[c] && states[row * Cols + c] == Up
  }

  /** The key states after the first n columns of row were sampled: each such key follows its column. */
  function Scanned(states: seq<KeyState>, row: nat, cols: seq<bool>, n: nat): seq<KeyState>
    requires |states| == KeyCount && row < Rows && |cols| == Cols && n <= Cols
  {
    seq(KeyCount, j requires 0 <= j < KeyCount =>
      if row * Cols <= j < row * Cols + n then (if cols[j - row * Cols] then Down else Up) else states[j])
  }

  /** The characters, from the key table chars, of the keys among the first n columns of row that report DOWN, in column order. */
  function Pressed(chars: string, states: seq<KeyState>, row: nat, cols: seq<bool>, n: nat): (s: string)
    requires |chars| == KeyCount && |states| == KeyCount && row < Rows && |cols| == Cols && n <= Cols
    ensures |s| <= n
  {
    if n == 0 then []
    else Pressed(chars, states, row, cols, n - 1) + (if DownAt(states, row, cols, n - 1) then [chars[row * Cols + n - 1]] else [])
  }

  /** The key code of the last of the first n columns of row that reports DOWN. */
  function LastPressed(states: seq<KeyState>, row: nat, cols: seq<bool>, n: nat): (k: Option<nat>)
    requires |states| == KeyCount && row < Rows && |cols| == Cols && n <= Cols
    ensures k.Some? ==> row * Cols <= k.value < row * Cols + n && DownAt(states, row, cols, k.value - row * Cols)
    ensures k.Some? ==> forall c :: k.value - row * Cols < c < n ==> !DownAt(states, row, cols, c)
    ensures k.None? <==> forall c :: 0 <= c < n ==> !DownAt(states, row, cols, c)
  {
    if n == 0 then None
    else if DownAt(states, row, cols, n - 1) then Some(row * Cols + n - 1)
    else LastPressed(states, row, cols, n - 1)
  }

  /** The buffer grows exactly when some key reports DOWN. */
  lemma {:induction false} PressedEmptyIffNone(chars: string, states: seq<KeyState>, row: nat, cols: seq<bool>, n: nat)
    requires |chars| == KeyCount && |states| == KeyCount && row < Rows && |cols| == Cols && n <= Cols
    ensures Pressed(chars, states, row, cols, n) == [] <==> LastPressed(states, row, cols, n).None?
  {
    if n > 0 {
      PressedEmptyIffNone(chars, states, row, cols, n - 1);
      if DownAt(states, row, cols, n - 1) {
        assert |Pressed(chars, states, row, cols, n)| == |Pressed(chars, states, row, cols, n - 1)| + 1;
      }
    }
  }

  /** The last character the scan adds is the one of the last key reporting DOWN. */
  lemma {:induction false} PressedEndsWithLast(chars: string, states: seq<KeyState>, row: nat, cols: seq<bool>, n: nat)
    requires |chars| == KeyCount && |states| == KeyCount && row < Rows && |cols| == Cols && n <= Cols
    requires LastPressed(states, row, cols, n).Some?
    ensures var s := Pressed(chars, states, row, cols, n);
      s != [] && s[|s| - 1] == chars[LastPressed(states, row, cols, n).value]
  {
    if DownAt(states, row, cols, n - 1) {
      var k := row * Cols + n - 1;
      assert Pressed(chars, states, row, cols, n) == Pressed(chars, states, row, cols, n - 1) + [chars[k]];
    } else {
      PressedEndsWithLast(chars, states, row, cols, n - 1);
    }
  }

  /** A key that does not report DOWN in this scan contributes no character, when no two keys share one. */
  lemma {:induction false} QuietKeyAddsNothing(chars: string, states: seq<KeyState>, row: nat, cols: seq<bool>, n: nat, c: nat)
    requires |chars| == KeyCount && Distinct(chars)
    requires |states| == KeyCount && row < Rows && |cols| == Cols && n <= Cols && c < Cols
    requires !DownAt(states, row, cols, c)
    ensures chars[row * Cols + c] !in Pressed(chars, states, row, cols, n)
  {
    if n > 0 {
      QuietKeyAddsNothing(chars, states, row, cols, n - 1, c);
      assert n - 1 != c ==> chars[row * Cols + n - 1] != chars[row * Cols + c];
    }
  }

  /** A held key adds its character once: a later scan that still sees its column high adds nothing for it. */
  lemma HeldKeyAddsOnce(chars: string, states: seq<KeyState>, row: nat, first: seq<bool>, later: seq<bool>, c: nat)
    requires |chars| == KeyCount && Distinct(chars)
    requires |states| == KeyCount && row < Rows && |first| == Cols && |later| == Cols && c < Cols
    requires first[c] && later[c]
    ensures chars[row * Cols + c] !in Pressed(chars, Scanned(states, row, first, Cols), row, later, Cols)
  {
    QuietKeyAddsNothing(chars, Scanned(states, row, first, Cols), row, later, Cols, c);
  }

  /** Scanning a row leaves the keys of every other row as they were. */
  lemma ScanTouchesOnlyItsRow(states: seq<KeyState>, row: nat, cols: seq<bool>, j: nat)
    requires |states| == KeyCount && row < Rows && |cols| == Cols && j < KeyCount
    requires j / Cols != row
    ensures Scanned(states, row, cols, Cols)[j] == states[j]
  {
  }

  /* ---------------- the scanner object ---------------- */

  class Keypad {
    /** The character of each of the 16 keys. */
    const chars: string
    /** UP/DOWN state of each of the 16 keys. */
    const states: array<KeyState>
    /** Output level of each row line. */
    const rowLevels: array<bool>
    var scanRow: nat
    var keyCode: Option<nat>
    var keyChar: string
    /** Whether the periodic scan timer is running. */
    var running: bool

    predicate Valid()
      reads this
    {
      |chars| == KeyCount && states.Length == KeyCount && rowLevels.Length == Rows && scanRow < Rows
    }

    /** Every key UP, the cursor on row 0, nothing buffered (__init__ and init). */
    constructor ()
      ensures Valid() && fresh(states) && fresh(rowLevels)
      ensures chars == Labels
      ensures forall k :: 0 <= k < KeyCount ==> states[k] == Up
      ensures scanRow == 0 && keyCode == None && keyChar == "" && !running
    {
      chars := Labels;
      states := new KeyState[KeyCount](_ => Up);
      rowLevels := new bool[Rows](_ => false);
      scanRow := 0;
      keyCode := None;
      keyChar := "";
      running := false;
    }

    /** Hands back the buffered characters and clears the buffer and the last key code (get_key). */
    method GetKey() returns (key: string)
      requires Valid()
      modifies this
      ensures Valid()
      ensures key == old(keyChar) && keyChar == "" && keyCode == None
      ensures scanRow == old(scanRow) && running == old(running)
    {
      key := keyChar;
      keyCode := None;
      keyChar := "";
    }

    /**
     * Samples one key (key_process): DOWN when its column is high and it was UP,
     * UP when its column is low and it was DOWN, otherwise no event and no change.
     */
    method KeyProcess(code: nat, colHigh: bool) returns (event: Option<KeyState>)
      requires Valid() && code < KeyCount
      modifies states
      ensures event == Some(Down) <==> colHigh && old(states[code]) == Up
      ensures event == Some(Up) <==> !colHigh && old(states[code]) == Down
      ensures event == None ==> states[code] == old(states[code])
      ensures states[code] == (if colHigh then Down else Up)
      ensures forall j :: 0 <= j < KeyCount && j != code ==> states[j] == old(states[j])
    {
      event := None;
      if colHigh {
        if states[code] == Up {
          event := Some(Down);
          states[code] := Down;
        }
      } else {
        if states[code] == Down {
          event := Some(Up);
          states[code] := Up;
        }
      }
    }

    /** Moves the drive to the next row (scan_row_update). */
    method ScanRowUpdate()
      requires Valid()
      modifies this, rowLevels
      ensures Valid()
      ensures scanRow == (old(scanRow) + 1) % Rows
      ensures !rowLevels[old(scanRow)] && rowLevels[scanRow]
      ensures forall r :: 0 <= r < Rows && r != old(scanRow) && r != scanRow ==> rowLevels[r] == old(rowLevels[r])
      ensures keyCode == old(keyCode) && keyChar == old(keyChar) && running == old(running)
    {
      rowLevels[scanRow] := false;
      scanRow := (scanRow + 1) % Rows;
      rowLevels[scanRow] := true;
    }

    /** One timer tick (timer_callback): sample the four columns of the driven row, then move to the next row. */
    method TimerCallback(cols: seq<bool>)
      requires Valid() && |cols| == Cols
      modifies this, states, rowLevels
      ensures Valid()
      ensures states[..] == Scanned(old(states[..]), old(scanRow), cols, Cols)
      ensures keyChar == old(keyChar) + Pressed(chars, old(states[..]), old(scanRow), cols, Cols)
      ensures keyCode == if LastPressed(old(states[..]), old(scanRow), cols, Cols).Some?
                         then LastPressed(old(states[..]), old(scanRow), cols, Cols) else old(keyCode)
      ensures scanRow == (old(scanRow) + 1) % Rows
      ensures !rowLevels[old(scanRow)] && rowLevels[scanRow]
      ensures forall r :: 0 <= r < Rows && r != old(scanRow) && r != scanRow ==> rowLevels[r] == old(rowLevels[r])
      ensures running == old(running)
    {
      ghost var s0 := states[..];
      ghost var row := scanRow;
      var code := scanRow * Cols;
      for col := 0 to Cols
        invariant Valid() && scanRow == row
        invariant code == row * Cols + col
        invariant states[..] == Scanned(s0, row, cols, col)
        invariant keyChar == old(keyChar) + Pressed(chars, s0, row, cols, col)
        invariant keyCode == if LastPressed(s0, row, cols, col).Some? then LastPressed(s0, row, cols, col) else old(keyCode)
        invariant running == old(running)
        invariant rowLevels[..] == old(rowLevels[..])
      {
        assert states[code] == s0[code];
        var event := KeyProcess(code, cols[col]);
        if event == Some(Down) {
          keyCode := Some(code);
          keyChar := keyChar + [chars[code]];
        }
        assert states[..] == Scanned(s0, row, cols, col + 1);
        code := code + 1;
      }
      ScanRowUpdate();
    }

    /** Starts the scan timer (start). */
    method Start()
      modifies this
      ensures running
      ensures scanRow == old(scanRow) && keyCode == old(keyCode) && keyChar == old(keyChar)
    {
      running := true;
    }

    /** Stops the scan timer (stop). */
    method Stop()
      modifies this
      ensures !running
      ensures scanRow == old(scanRow) && keyCode == old(keyCode) && keyChar == old(keyChar)
    {
      running := false;
    }
  }

  /** Reading the buffer twice in a row: the second read is empty. */
  method GetKeyTwice(k: Keypad) returns (first: string, second: string)
    requires k.Valid()
    modifies k
    ensures first == old(k.keyChar) && second == ""
  {
    first := k.GetKey();
    second := k.GetKey();
  }
}
