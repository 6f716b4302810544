/**
 * `display_drv_cgdk2.c`: the driver of the CGDK2's segment LCD, a 12-byte
 * display buffer mirrored in the controller's RAM over I2C. A refresh sends
 * only the range of bytes that changed since the last one; the symbols, the
 * battery gauge and the two number rows are positions in the buffer.
 * The I2C traffic is recorded as the bytes that follow the slave address,
 * one list per transaction.
 */
module Cgdk2Driver {
  import opened Word
  import opened DisplayCommon
  import opened ThreeCellLine
  import opened SegmentCell

  const DISPLAY_BUFF_LEN: nat := 12

  /** Controller commands; an intermediate command carries LCD_CMD_MORE. */
  const LCD_CMD_MORE: bv8 := 0x80
  const LCD_CMD_ADDRESS_SET_OPERATION: bv8 := 0x00
  /** SET_IC_OPERATION | SET_IC_RESET. */
  const LCD_CMD_RESET: bv8 := 0x6A
  /** DISPLAY_CONTROL_OPERATION | FRAME_INV | 64HZ | POWER(1). */
  const LCD_CMD_DISPLAY_CONTROL: bv8 := 0x35
  const LCD_CMD_MODE_SET_OPERATION: bv8 := 0x40
  const LCD_CMD_MODE_SET_DISPLAY_ON: bv8 := 0x08
  const LCD_CMD_MODE_SET_DISPLAY_OFF: bv8 := 0x00

  const SYM_TEMP_UNDERSCORE: u8 := NBit(0, 4)
  const SYM_TEMP_MINUS: u8 := NBit(0, 5)
  const SYM_TEMP_COMMON: u8 := NBit(0, 6)
  const SYM_BIG_ONE_HUNDRED: u8 := NBit(2, 0)
  const SYM_BATTERY_L1: u8 := NBit(2, 1)
  const SYM_BATTERY_L2: u8 := NBit(2, 2)
  const SYM_BATTERY_L3: u8 := NBit(2, 3)
  const SYM_BLUETOOTH: u8 := NBit(2, 4)
  const SYM_BATTERY: u8 := NBit(2, 5)
  const SYM_BATTERY_L5: u8 := NBit(2, 6)
  const SYM_BATTERY_L4: u8 := NBit(2, 7)
  const SYM_BIG_DECIMAL_DOT: u8 := NBit(6, 4)
  const SYM_SMALL_DECIMAL_DOT: u8 := NBit(9, 0)
  const SYM_PERCENTAGE: u8 := NBit(9, 1)


  // Segment positions of the six cells, in segment order 1L 2L 3L 4L 5L 1M 3M 5M 1R 2R 3R 4R 5R.
  const CELL_A: seq<u8> := [NBit(3, 0), NBit(3, 4), NBit(3, 5), NBit(3, 6), NBit(3, 7), NBit(3, 1), NBit(3, 2),
                            NBit(3, 3), NBit(4, 4), NBit(4, 5), NBit(4, 6), NBit(4, 7), NBit(6, 7)]
  const CELL_B: seq<u8> := [NBit(5, 4), NBit(4, 0), NBit(4, 1), NBit(4, 2), NBit(4, 3), NBit(5, 5), NBit(5, 6),
                            NBit(5, 7), NBit(5, 0), NBit(5, 1), NBit(5, 2), NBit(5, 3), NBit(6, 6)]
  const CELL_C: seq<u8> := [NBit(1, 0), NBit(1, 1), NBit(1, 2), NBit(1, 3), NBit(1, 7), NBit(1, 4), NBit(1, 5),
                            NBit(1, 6), NBit(6, 5), NBit(0, 0), NBit(0, 1), NBit(0, 2), NBit(0, 3)]
  const CELL_X: seq<u8> := [NBit(7, 4), NBit(6, 0), NBit(6, 1), NBit(6, 2), NBit(6, 3), NBit(7, 5), NBit(7, 6),
                            NBit(7, 7), NBit(7, 0), NBit(7, 1), NBit(7, 2), NBit(7, 3), NBit(9, 3)]
  const CELL_Y: seq<u8> := [NBit(8, 0), NBit(8, 4), NBit(8, 5), NBit(8, 6), NBit(8, 7), NBit(8, 1), NBit(8, 2),
                            NBit(8, 3), NBit(9, 4), NBit(9, 5), NBit(9, 6), NBit(9, 7), NBit(9, 2)]
  const CELL_Z: seq<u8> := [NBit(10, 0), NBit(10, 4), NBit(10, 5), NBit(10, 6), NBit(10, 7), NBit(10, 1), NBit(10, 2),
                            NBit(10, 3), NBit(11, 4), NBit(11, 5), NBit(11, 6), NBit(11, 7), NBit(0, 7)]

  /** The top row (`display_big_number_x10`), with a leftmost one. */
  const TOP_ROW: Row := Row([CELL_A, CELL_B, CELL_C], SYM_BIG_DECIMAL_DOT, [SYM_BIG_ONE_HUNDRED])
  /** The bottom row (`display_small_number_x10`), without one. */
  const BOTTOM_ROW: Row := Row([CELL_X, CELL_Y, CELL_Z], SYM_SMALL_DECIMAL_DOT, [])

  /** A cell whose 13 positions are distinct and inside the buffer. */
  predicate GoodCell(cell: seq<u8>)
  {
    |cell| == NUM_SEGMENTS
    && (forall i, j :: 0 <= i < j < NUM_SEGMENTS ==> cell[i] != cell[j])
    && (forall i :: 0 <= i < NUM_SEGMENTS ==> cell[i] / 8 < DISPLAY_BUFF_LEN)
  }

  lemma CellAGood()
    ensures GoodCell(CELL_A)
  {
  }

  lemma CellBGood()
    ensures GoodCell(CELL_B)
  {
  }

  lemma CellCGood()
    ensures GoodCell(CELL_C)
  {
  }

  lemma CellXGood()
    ensures GoodCell(CELL_X)
  {
  }

  lemma CellYGood()
    ensures GoodCell(CELL_Y)
  {
  }

  lemma CellZGood()
    ensures GoodCell(CELL_Z)
  {
  }


  /** Every cell table meets what `SegmentCell.CharReadBack` needs. */
  lemma TopCellsGood()
    ensures GoodCell(CELL_A) && GoodCell(CELL_B) && GoodCell(CELL_C)
    ensures WellFormedRow(TOP_ROW)
  {
    CellAGood();
    CellBGood();
    CellCGood();
  }

  lemma BottomCellsGood()
    ensures GoodCell(CELL_X) && GoodCell(CELL_Y) && GoodCell(CELL_Z)
    ensures WellFormedRow(BOTTOM_ROW)
  {
    CellXGood();
    CellYGood();
    CellZGood();
  }

  /** `display_temp_symbol(symbol)`. */
  function TempSymbolWrites(symbol: u8): seq<BitWrite>
  {
    [BitWrite(SYM_TEMP_COMMON, HasBit(symbol, 0x20)), BitWrite(SYM_TEMP_MINUS, HasBit(symbol, 0x40)),
     BitWrite(SYM_TEMP_UNDERSCORE, HasBit(symbol, 0x80))]
  }

  /**
   * The three symbol segments follow bits 5, 6 and 7 of the argument: the
   * symbol for Celsius (0xA0) lights the common part and the underscore,
   * the one for Fahrenheit (0x60) the common part and the minus, and 0 none.
   */
  lemma TempSymbolSegments(symbol: u8)
    ensures var ws := TempSymbolWrites(symbol);
      LastWrite(ws, SYM_TEMP_COMMON) == ((symbol / 0x20) % 2 == 1)
      && LastWrite(ws, SYM_TEMP_MINUS) == ((symbol / 0x40) % 2 == 1)
      && LastWrite(ws, SYM_TEMP_UNDERSCORE) == (symbol >= 0x80)
    ensures symbol == 0xA0 ==>
      TempSymbolWrites(symbol) == [BitWrite(SYM_TEMP_COMMON, true), BitWrite(SYM_TEMP_MINUS, false), BitWrite(SYM_TEMP_UNDERSCORE, true)]
    ensures symbol == 0x60 ==>
      TempSymbolWrites(symbol) == [BitWrite(SYM_TEMP_COMMON, true), BitWrite(SYM_TEMP_MINUS, true), BitWrite(SYM_TEMP_UNDERSCORE, false)]
    ensures symbol == 0 ==> forall k :: 0 <= k < 3 ==> !TempSymbolWrites(symbol)[k].on
  {
    var ws := TempSymbolWrites(symbol);
    assert ws[..2] == [ws[0], ws[1]] && ws[..2][..1] == [ws[0]] && ws[..2][..1][..0] == [];
    assert LastWrite(ws[..2][..1], SYM_TEMP_COMMON) == ws[0].on;
    assert LastWrite(ws[..2], SYM_TEMP_MINUS) == ws[1].on;
  }

  /** The stripe positions L1..L5 in gauge order. */
  const STRIPES: seq<u8> := [SYM_BATTERY_L1, SYM_BATTERY_L2, SYM_BATTERY_L3, SYM_BATTERY_L4, SYM_BATTERY_L5]

  /** `display_battery_symbol(state)` with the global `battery_level`. */
  function BatteryWrites(state: bool, level: u8): (ws: seq<BitWrite>)
    ensures |ws| == 6 && ws[0] == BitWrite(SYM_BATTERY, state)
    ensures forall k :: 0 <= k < 5 ==> ws[k + 1].bit == STRIPES[k]
  {
    [BitWrite(SYM_BATTERY, state)]
    + seq(5, k requires 0 <= k < 5 => BitWrite(STRIPES[k], state && level >= BATTERY_THRESHOLDS[k]))
  }

  /**
   * The case lights iff the gauge is shown; stripe k lights iff the gauge
   * is shown and the level reaches its threshold, so the lit stripes are
   * always a prefix L1..Ln.
   */
  lemma BatteryStripesPrefix(state: bool, level: u8)
    ensures var ws := BatteryWrites(state, level);
      (forall k :: 0 <= k < 5 ==> (ws[k + 1].on <==> state && level >= BATTERY_THRESHOLDS[k]))
      && (forall i, j :: 1 <= i <= j <= 5 && ws[j].on ==> ws[i].on)
    ensures var ws := BatteryWrites(state, level);
      !state ==> forall k :: 0 <= k < 6 ==> !ws[k].on
  {
    var ws := BatteryWrites(state, level);
    forall k | 0 <= k < 5
      ensures ws[k + 1].on <==> state && level >= BATTERY_THRESHOLDS[k]
    {
      assert ws[k + 1] == BitWrite(STRIPES[k], state && level >= BATTERY_THRESHOLDS[k]);
    }
    forall i, j | 1 <= i <= j <= 5 && ws[j].on
      ensures ws[i].on
    {
      assert BATTERY_THRESHOLDS[i - 1] <= BATTERY_THRESHOLDS[j - 1];
    }
    if !state {
      forall k | 1 <= k < 6
        ensures !ws[k].on
      {
        assert ws[k] == BitWrite(STRIPES[k - 1], false);
      }
    }
  }

  /** `display_ble_symbol(state)`. */
  function BleWrites(state: bool): seq<BitWrite>
  {
    [BitWrite(SYM_BLUETOOTH, state)]
  }

  /** `display_big_number_x10(number)` on the top row. */
  function BigNumberWrites(number: i16): seq<BitWrite>
  {
    RowWrites(TOP_ROW, Render(true, number))
  }

  /** `display_small_number_x10(number, percent)` on the bottom row, then the percent sign. */
  function SmallNumberWrites(number: i16, percent: bool): seq<BitWrite>
  {
    RowWrites(BOTTOM_ROW, Render(false, number)) + [BitWrite(SYM_PERCENTAGE, percent)]
  }

  /** The first index at which two equally long, different buffers differ. */
  function FirstDiff(a: seq<bv8>, b: seq<bv8>): (i: nat)
    requires |a| == |b| && a != b
    ensures i < |a| && a[i] != b[i]
    ensures forall k :: 0 <= k < i ==> a[k] == b[k]
    decreases |a|
  {
    if a[0] != b[0] then 0
    else
      assert a == [a[0]] + a[1..] && b == [b[0]] + b[1..];
      1 + FirstDiff(a[1..], b[1..])
  }

  /** One past the last index at which two equally long, different buffers differ. */
  function DiffEnd(a: seq<bv8>, b: seq<bv8>): (j: nat)
    requires |a| == |b| && a != b
    ensures 0 < j <= |a| && a[j - 1] != b[j - 1]
    ensures forall k :: j <= k < |a| ==> a[k] == b[k]
    ensures FirstDiff(a, b) < j
    decreases |a|
  {
    var n := |a|;
    if a[n - 1] != b[n - 1] then n
    else
      assert a == a[..n - 1] + [a[n - 1]] && b == b[..n - 1] + [b[n - 1]];
      DiffEnd(a[..n - 1], b[..n - 1])
  }

  /**
   * The range [FirstDiff, DiffEnd) is the smallest that covers every
   * difference: copying it from `a` into `b` makes the two equal.
   */
  lemma PatchRange(a: seq<bv8>, b: seq<bv8>)
    requires |a| == |b| && a != b
    ensures var i, j := FirstDiff(a, b), DiffEnd(a, b);
      b[..i] + a[i..j] + b[j..] == a
  {
    Splice(a, b, FirstDiff(a, b), DiffEnd(a, b));
  }

  /** Copying into `b` a range of `a` outside which the two agree makes them equal. */
  lemma Splice(a: seq<bv8>, b: seq<bv8>, i: nat, j: nat)
    requires |a| == |b| && i <= j <= |a|
    requires forall k :: 0 <= k < i ==> a[k] == b[k]
    requires forall k :: j <= k < |a| ==> a[k] == b[k]
    ensures b[..i] + a[i..j] + b[j..] == a
  {
    var p := b[..i] + a[i..j] + b[j..];
    forall k | 0 <= k < |a|
      ensures p[k] == a[k]
    {
      if k < i {
        assert p[k] == b[k];
      } else if k < j {
        assert p[k] == a[k];
      } else {
        assert p[k] == b[k];
      }
    }
  }

  /** One I2C data transfer: the RAM address (in nibbles) and the bytes written from there. */
  datatype LcdWrite = LcdWrite(addr: nat, data: seq<bv8>)

  /** The forward scan of `display_async_refresh`: the first changed byte, or the length if none. */
  method ScanFirstDiff(buff: array<bv8>, cmp: array<bv8>) returns (i: nat)
    requires buff.Length == cmp.Length
    ensures i <= buff.Length
    ensures i == buff.Length <==> buff[..] == cmp[..]
    ensures i < buff.Length ==> i == FirstDiff(buff[..], cmp[..])
  {
    i := 0;
    while i < buff.Length && buff[i] == cmp[i]
      invariant 0 <= i <= buff.Length
      invariant forall k :: 0 <= k < i ==> buff[k] == cmp[k]
    {
      i := i + 1;
    }
    if i < buff.Length {
      assert buff[..][i] != cmp[..][i];
    } else {
      assert buff[..] == cmp[..];
    }
  }

  /** The backward scan: one past the last changed byte, knowing byte i changed. */
  method ScanDiffEnd(buff: array<bv8>, cmp: array<bv8>, i: nat) returns (j: nat)
    requires buff.Length == cmp.Length && i < buff.Length && buff[i] != cmp[i]
    ensures buff[..] != cmp[..] && j == DiffEnd(buff[..], cmp[..])
  {
    assert buff[..][i] != cmp[..][i];
    j := buff.Length;
    while j > i && buff[j - 1] == cmp[j - 1]
      invariant i < j <= buff.Length
      invariant forall k :: j <= k < buff.Length ==> buff[k] == cmp[k]
    {
      j := j - 1;
    }
  }

  /**
   * The scan of `display_async_refresh`: find the first and last changed
   * byte, send that range at address 2*i and record it as sent.
   */
  method SendChanged(buff: array<bv8>, cmp: array<bv8>) returns (w: Option<LcdWrite>)
    requires buff != cmp && buff.Length == cmp.Length
    modifies cmp
    ensures cmp[..] == buff[..]
    ensures old(cmp[..]) == buff[..] <==> w.None?
    ensures w.Some? ==> var i, j := FirstDiff(buff[..], old(cmp[..])), DiffEnd(buff[..], old(cmp[..]));
      w.value == LcdWrite(2 * i, buff[i..j])
  {
    ghost var c0 := cmp[..];
    ghost var b0 := buff[..];
    var i := ScanFirstDiff(buff, cmp);
    if i == buff.Length {
      return None;
    }
    var j := ScanDiffEnd(buff, cmp, i);
    w := Some(LcdWrite(2 * i, buff[i..j]));
    assert w.value == LcdWrite(2 * FirstDiff(b0, c0), b0[FirstDiff(b0, c0)..DiffEnd(b0, c0)]);
    CopyRange(cmp, buff, i, j);
    PatchRange(b0, c0);
  }

  /** `memcpy(&dst[i], &src[i], j - i)`. */
  method CopyRange(dst: array<bv8>, src: array<bv8>, i: nat, j: nat)
    requires dst != src && dst.Length == src.Length && i <= j <= dst.Length
    modifies dst
    ensures dst[..] == old(dst[..i]) + src[i..j] + old(dst[j..])
  {
    forall k | i <= k < j {
      dst[k] := src[k];
    }
  }

  /** The driver statics and the buffer it refreshes from. */
  class Cgdk2Display {
    /** `display_buff`, which `display_render_bit` writes. */
    var buff: array<bv8>
    /** `display_cmp_buff`: what the controller is known to hold. */
    var cmp: array<bv8>
    var isOff: bool

    ghost predicate Valid()
      reads this
    {
      buff.Length == DISPLAY_BUFF_LEN && cmp.Length == DISPLAY_BUFF_LEN && buff != cmp
    }

    constructor (displayBuff: array<bv8>)
      requires displayBuff.Length == DISPLAY_BUFF_LEN
      ensures Valid() && buff == displayBuff && fresh(cmp) && !isOff
    {
      buff := displayBuff;
      cmp := new bv8[DISPLAY_BUFF_LEN];
      isOff := false;
    }

    /**
     * `display_init`: both buffers cleared; then an empty transaction (the
     * `i2c_start` and `i2c_abort` that close any open one), the reset
     * command, and display control, display on and the whole (blank)
     * buffer from address 0 in one transaction.
     */
    method Init() returns (txs: seq<seq<bv8>>)
      requires Valid()
      modifies buff, cmp
      ensures Valid()
      ensures buff[..] == seq(DISPLAY_BUFF_LEN, _ => 0) && cmp[..] == buff[..]
      ensures txs == [[], [LCD_CMD_RESET],
        [LCD_CMD_MORE | LCD_CMD_DISPLAY_CONTROL, LCD_CMD_MORE | LCD_CMD_MODE_SET_OPERATION | LCD_CMD_MODE_SET_DISPLAY_ON,
         LCD_CMD_ADDRESS_SET_OPERATION] + buff[..]]
    {
      forall k | 0 <= k < buff.Length {
        buff[k] := 0;
      }
      forall k | 0 <= k < cmp.Length {
        cmp[k] := 0;
      }
      txs := [[], [LCD_CMD_RESET],
        [LCD_CMD_MORE | LCD_CMD_DISPLAY_CONTROL, LCD_CMD_MORE | LCD_CMD_MODE_SET_OPERATION | LCD_CMD_MODE_SET_DISPLAY_ON,
         LCD_CMD_ADDRESS_SET_OPERATION] + buff[..]];
    }

    /** `display_power_toggle`: switch the panel on if it was off and off if it was on. */
    method PowerToggle() returns (tx: seq<bv8>)
      modifies this`isOff
      ensures isOff == !old(isOff)
      ensures tx == [LCD_CMD_MODE_SET_OPERATION | (if old(isOff) then LCD_CMD_MODE_SET_DISPLAY_ON else LCD_CMD_MODE_SET_DISPLAY_OFF)]
    {
      var arg := if isOff then LCD_CMD_MODE_SET_DISPLAY_ON else LCD_CMD_MODE_SET_DISPLAY_OFF;
      tx := [LCD_CMD_MODE_SET_OPERATION | arg];
      isOff := !isOff;
    }

    /**
     * `display_async_refresh`: nothing while the panel is off; otherwise the
     * changed range, after which the controller copy equals the buffer.
     */
    method AsyncRefresh() returns (w: Option<LcdWrite>)
      requires Valid()
      modifies cmp
      ensures Valid()
      ensures old(isOff) ==> w.None? && cmp[..] == old(cmp[..])
      ensures !isOff ==> cmp[..] == buff[..]
      ensures !isOff ==> (w.None? <==> old(cmp[..]) == buff[..])
      ensures !isOff && w.Some? ==> var i, j := FirstDiff(buff[..], old(cmp[..])), DiffEnd(buff[..], old(cmp[..]));
        w.value == LcdWrite(2 * i, buff[i..j])
    {
      if isOff {
        return None;
      }
      w := SendChanged(buff, cmp);
    }

    /** `display_temp_symbol`. */
    method TempSymbol(symbol: u8)
      requires Valid()
      modifies buff
      ensures buff[..] == WriteBits(old(buff[..]), TempSymbolWrites(symbol))
    {
      RenderBits(buff, TempSymbolWrites(symbol));
    }

    /** `display_battery_symbol`. */
    method BatterySymbol(state: bool, level: u8)
      requires Valid()
      modifies buff
      ensures buff[..] == WriteBits(old(buff[..]), BatteryWrites(state, level))
    {
      RenderBits(buff, BatteryWrites(state, level));
    }

    /** `display_ble_symbol`. */
    method BleSymbol(state: bool)
      requires Valid()
      modifies buff
      ensures buff[..] == WriteBits(old(buff[..]), BleWrites(state))
    {
      RenderBit(buff, SYM_BLUETOOTH, state);
    }

    /** `display_big_number_x10`. */
    method BigNumber(number: i16)
      requires Valid()
      modifies buff
      ensures buff[..] == WriteBits(old(buff[..]), BigNumberWrites(number))
    {
      TopCellsGood();
      RenderRow(buff, TOP_ROW, Render(true, number));
    }

    /** `display_small_number_x10`. */
    method SmallNumber(number: i16, percent: bool)
      requires Valid()
      modifies buff
      ensures buff[..] == WriteBits(old(buff[..]), SmallNumberWrites(number, percent))
    {
      ghost var start := buff[..];
      BottomCellsGood();
      RenderRow(buff, BOTTOM_ROW, Render(false, number));
      RenderBit(buff, SYM_PERCENTAGE, percent);
      WriteBitsAppend(start, RowWrites(BOTTOM_ROW, Render(false, number)), BitWrite(SYM_PERCENTAGE, percent));
    }
  }
}
