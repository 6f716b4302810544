/**
 * `lcd_cgdk2.c`: the older, self-contained CGDK2 LCD code. It drives the
 * same panel as `display_drv_cgdk2.c` (the same cell and symbol positions,
 * the same changed-range refresh) through its own two primitives,
 * `set_lcd_bit` and `draw_cell`, and draws numbers, the battery reading and
 * a clock with them. Drawing is described as an ordered list of those two
 * primitive calls.
 */
module LcdCgdk2 {
  import opened Word
  import opened DisplayCommon
  import opened ThreeCellLine
  import opened SegmentCell
  import opened Cgdk2Driver

  /** `enum cell_t`: A, B, C on top, X, Y, Z below. */
  const CELL_A_INDEX: nat := 0
  const CELL_X_INDEX: nat := 3
  const NUM_LCD_CELLS: nat := 6
  /** `cell_segment_bits`, the same positions as the driver's tables. */
  const CELL_SEGMENT_BITS: seq<seq<u8>> := [CELL_A, CELL_B, CELL_C, CELL_X, CELL_Y, CELL_Z]

  const MIN_VBAT_MV: nat := 2200
  const MAX_VBAT_MV: nat := 3100

  /** One call of a primitive. */
  datatype LcdOp =
    | SetLcdBit(bit: u8, on: bool)
    | DrawCell(cell: nat, ch: nat)

  lemma CellSegmentBitsGood()
    ensures |CELL_SEGMENT_BITS| == NUM_LCD_CELLS
    ensures forall k :: 0 <= k < NUM_LCD_CELLS ==> GoodCell(CELL_SEGMENT_BITS[k])
  {
    TopCellsGood();
    BottomCellsGood();
  }

  lemma CellLengths()
    ensures |CELL_SEGMENT_BITS| == NUM_LCD_CELLS
    ensures forall k :: 0 <= k < NUM_LCD_CELLS ==> |CELL_SEGMENT_BITS[k]| == NUM_SEGMENTS
  {
    CellSegmentBitsGood();
  }

  /** The bit writes of `draw_cell(cell, c)`: none for a cell or character out of range. */
  function DrawCellWrites(cell: nat, c: nat): (ws: seq<BitWrite>)
    ensures cell >= NUM_LCD_CELLS || c >= NUM_CHARS ==> ws == []
    ensures cell < NUM_LCD_CELLS && c < NUM_CHARS ==> |ws| == NUM_SEGMENTS
    ensures cell < NUM_LCD_CELLS && c < NUM_CHARS ==>
      forall k :: 0 <= k < NUM_SEGMENTS ==> ws[k] == BitWrite(CELL_SEGMENT_BITS[cell][k], Lit(c, k))
  {
    CellLengths();
    if cell < NUM_LCD_CELLS then CharWrites(CELL_SEGMENT_BITS[cell], c) else []
  }

  function OpWrites(op: LcdOp): seq<BitWrite>
  {
    match op
    case SetLcdBit(bit, on) => [BitWrite(bit, on)]
    case DrawCell(cell, ch) => DrawCellWrites(cell, ch)
  }

  /** The bit writes of a list of primitive calls, in order. */
  function OpsWrites(ops: seq<LcdOp>): (ws: seq<BitWrite>)
    ensures ops == [] ==> ws == []
    decreases |ops|
  {
    if ops == [] then [] else OpsWrites(ops[..|ops| - 1]) + OpWrites(ops[|ops| - 1])
  }

  /** The character the last `draw_cell` on `cell` drew, or SPACE if none did. */
  function CellChar(ops: seq<LcdOp>, cell: nat): nat
    decreases |ops|
  {
    if ops == [] then CHR_SPACE
    else
      var op := ops[|ops| - 1];
      if op.DrawCell? && op.cell == cell then op.ch else CellChar(ops[..|ops| - 1], cell)
  }

  lemma CellCharSnoc(ops: seq<LcdOp>, op: LcdOp, cell: nat)
    ensures CellChar(ops + [op], cell) == if op.DrawCell? && op.cell == cell then op.ch else CellChar(ops, cell)
  {
    assert (ops + [op])[..|ops|] == ops;
  }

  lemma {:induction false} CellCharNoDraws(ops: seq<LcdOp>, cell: nat)
    requires forall k :: 0 <= k < |ops| ==> !ops[k].DrawCell?
    ensures CellChar(ops, cell) == CHR_SPACE
    decreases |ops|
  {
    if ops != [] {
      CellCharNoDraws(ops[..|ops| - 1], cell);
    }
  }

  /**
   * The `draw_cell` calls of `draw_number` once the value to draw is known,
   * on the row whose left cell is `where`. Negative values draw the units,
   * the tens and then the sign, right to left.
   */
  function NumberCells(where: nat, hasOne: bool, v: int): seq<LcdOp>
  {
    if v < -99 then [DrawCell(where, CHR_L), DrawCell(where + 1, CHR_O), DrawCell(where + 2, CHR_SPACE)]
    else if v > MaxValue(hasOne) then [DrawCell(where, CHR_H), DrawCell(where + 1, CHR_I), DrawCell(where + 2, CHR_SPACE)]
    else if v < 0 then [DrawCell(where + 2, CHR_0 + (-v) % 10), DrawCell(where + 1, CHR_0 + (-v) / 10), DrawCell(where, CHR_MINUS)]
    else [DrawCell(where + 2, CHR_0 + v % 10), DrawCell(where + 1, CHR_0 + (v / 10) % 10),
          DrawCell(where, if v / 100 == 0 then CHR_SPACE else CHR_0 + (v / 100) % 10)]
  }

  /** The dot, the hundreds one when the row has one (`hundreds != 0`), then the cells. */
  function NumberOps(where: nat, dot: u8, hundreds: u8, show: bool, v: int): seq<LcdOp>
  {
    [SetLcdBit(dot, show)]
    + (if hundreds != 0 then [SetLcdBit(hundreds, 1000 <= v <= 1999)] else [])
    + NumberCells(where, hundreds != 0, v)
  }

  /** `draw_number` with `number += +-5` computed without overflow. */
  function DrawNumber(where: nat, number: i16, dot: u8, hundreds: u8): seq<LcdOp>
  {
    NumberOps(where, dot, hundreds, ShowsDot(hundreds != 0, number), Scaled(hundreds != 0, number))
  }

  /** `draw_number` exactly as written: `number += +-5` wraps in the int16_t parameter. */
  function DrawNumberAsWritten(where: nat, number: i16, dot: u8, hundreds: u8): seq<LcdOp>
  {
    var hasOne := hundreds != 0;
    var show := ShowsDot(hasOne, number);
    var v := if show then number else CDiv(ToI16(number + (if number < 0 then -5 else 5)), 10);
    NumberOps(where, dot, hundreds, show, v)
  }

  /** The characters left in the three cells of the row at `where`. */
  function RowText(ops: seq<LcdOp>, where: nat): seq<nat>
  {
    [CellChar(ops, where), CellChar(ops, where + 1), CellChar(ops, where + 2)]
  }

  lemma RowTextOfNumber(where: nat, dot: u8, hundreds: u8, show: bool, v: int)
    ensures RowText(NumberOps(where, dot, hundreds, show, v), where) == CellText(hundreds != 0, v)
  {
    RowCellOfNumber(where, dot, hundreds, show, v, 0);
    RowCellOfNumber(where, dot, hundreds, show, v, 1);
    RowCellOfNumber(where, dot, hundreds, show, v, 2);
  }

  lemma RowCellOfNumber(where: nat, dot: u8, hundreds: u8, show: bool, v: int, n: nat)
    requires n < 3
    ensures CellChar(NumberOps(where, dot, hundreds, show, v), where + n) == CellText(hundreds != 0, v)[n]
  {
    var h := [SetLcdBit(dot, show)] + (if hundreds != 0 then [SetLcdBit(hundreds, 1000 <= v <= 1999)] else []);
    var c := NumberCells(where, hundreds != 0, v);
    assert NumberOps(where, dot, hundreds, show, v) == ((h + [c[0]]) + [c[1]]) + [c[2]];
    CellCharNoDraws(h, where + n);
    CellCharSnoc(h, c[0], where + n);
    CellCharSnoc(h + [c[0]], c[1], where + n);
    CellCharSnoc((h + [c[0]]) + [c[1]], c[2], where + n);
  }

  /**
   * `draw_number` shows what `display_render_3cell_number` shows: the same
   * dot, the same hundreds one, and the same three characters.
   */
  lemma DrawNumberMatchesRender(where: nat, number: i16, dot: u8, hundreds: u8)
    ensures var ops := DrawNumber(where, number, dot, hundreds);
      var calls := Render(hundreds != 0, number);
      RowText(ops, where) == Text(calls)
      && ops[0] == SetLcdBit(dot, calls[0].on)
      && (hundreds != 0 ==> ops[1] == SetLcdBit(hundreds, calls[1].on))
  {
    var hasOne := hundreds != 0;
    RowTextOfNumber(where, dot, hundreds, ShowsDot(hasOne, number), Scaled(hasOne, number));
    TextOfEmit(hasOne, ShowsDot(hasOne, number), Scaled(hasOne, number));
  }

  /** The positive examples of the header comment of `draw_number`, on the top and bottom rows. */
  lemma DrawNumberExamplesPositive()
    ensures RowText(DrawNumber(CELL_A_INDEX, 19995, SYM_BIG_DECIMAL_DOT, SYM_BIG_ONE_HUNDRED), CELL_A_INDEX) == [CHR_H, CHR_I, CHR_SPACE]
    ensures RowText(DrawNumber(CELL_X_INDEX, 19994, SYM_SMALL_DECIMAL_DOT, 0), CELL_X_INDEX) == [CHR_H, CHR_I, CHR_SPACE]
    ensures RowText(DrawNumber(CELL_X_INDEX, 9994, SYM_SMALL_DECIMAL_DOT, 0), CELL_X_INDEX) == [9, 9, 9]
    ensures RowText(DrawNumber(CELL_X_INDEX, 999, SYM_SMALL_DECIMAL_DOT, 0), CELL_X_INDEX) == [9, 9, 9]
    ensures DrawNumber(CELL_X_INDEX, 999, SYM_SMALL_DECIMAL_DOT, 0)[0] == SetLcdBit(SYM_SMALL_DECIMAL_DOT, true)
  {
    RowTextOfNumber(CELL_A_INDEX, SYM_BIG_DECIMAL_DOT, SYM_BIG_ONE_HUNDRED, false, 2000);
    RowTextOfNumber(CELL_X_INDEX, SYM_SMALL_DECIMAL_DOT, 0, false, 1999);
    RowTextOfNumber(CELL_X_INDEX, SYM_SMALL_DECIMAL_DOT, 0, false, 999);
    RowTextOfNumber(CELL_X_INDEX, SYM_SMALL_DECIMAL_DOT, 0, true, 999);
  }

  /** The negative examples of the header comment of `draw_number`. */
  lemma DrawNumberExamplesNegative()
    ensures RowText(DrawNumber(CELL_X_INDEX, -99, SYM_SMALL_DECIMAL_DOT, 0), CELL_X_INDEX) == [CHR_MINUS, 9, 9]
    ensures RowText(DrawNumber(CELL_X_INDEX, -994, SYM_SMALL_DECIMAL_DOT, 0), CELL_X_INDEX) == [CHR_MINUS, 9, 9]
    ensures DrawNumber(CELL_X_INDEX, -994, SYM_SMALL_DECIMAL_DOT, 0)[0] == SetLcdBit(SYM_SMALL_DECIMAL_DOT, false)
    ensures RowText(DrawNumber(CELL_X_INDEX, -995, SYM_SMALL_DECIMAL_DOT, 0), CELL_X_INDEX) == [CHR_L, CHR_O, CHR_SPACE]
  {
    RowTextOfNumber(CELL_X_INDEX, SYM_SMALL_DECIMAL_DOT, 0, true, -99);
    RowTextOfNumber(CELL_X_INDEX, SYM_SMALL_DECIMAL_DOT, 0, false, -99);
    RowTextOfNumber(CELL_X_INDEX, SYM_SMALL_DECIMAL_DOT, 0, false, -100);
  }

  /** As written, the wrap turns 32767 into "Lo" and -32768 into "Hi" on the top row. */
  lemma DrawNumberAsWrittenWraps()
    ensures RowText(DrawNumberAsWritten(CELL_A_INDEX, 32767, SYM_BIG_DECIMAL_DOT, SYM_BIG_ONE_HUNDRED), CELL_A_INDEX)
      == [CHR_L, CHR_O, CHR_SPACE]
    ensures RowText(DrawNumber(CELL_A_INDEX, 32767, SYM_BIG_DECIMAL_DOT, SYM_BIG_ONE_HUNDRED), CELL_A_INDEX)
      == [CHR_H, CHR_I, CHR_SPACE]
    ensures RowText(DrawNumberAsWritten(CELL_A_INDEX, -32768, SYM_BIG_DECIMAL_DOT, SYM_BIG_ONE_HUNDRED), CELL_A_INDEX)
      == [CHR_H, CHR_I, CHR_SPACE]
    ensures RowText(DrawNumber(CELL_A_INDEX, -32768, SYM_BIG_DECIMAL_DOT, SYM_BIG_ONE_HUNDRED), CELL_A_INDEX)
      == [CHR_L, CHR_O, CHR_SPACE]
  {
    RowTextOfNumber(CELL_A_INDEX, SYM_BIG_DECIMAL_DOT, SYM_BIG_ONE_HUNDRED, false, CDiv(ToI16(32772), 10));
    RowTextOfNumber(CELL_A_INDEX, SYM_BIG_DECIMAL_DOT, SYM_BIG_ONE_HUNDRED, false, 3277);
    RowTextOfNumber(CELL_A_INDEX, SYM_BIG_DECIMAL_DOT, SYM_BIG_ONE_HUNDRED, false, CDiv(ToI16(-32773), 10));
    RowTextOfNumber(CELL_A_INDEX, SYM_BIG_DECIMAL_DOT, SYM_BIG_ONE_HUNDRED, false, -3277);
  }

  /** `show_big_number_x10(number)`. */
  function BigNumberOps(number: i16): seq<LcdOp>
  {
    DrawNumber(CELL_A_INDEX, number, SYM_BIG_DECIMAL_DOT, SYM_BIG_ONE_HUNDRED)
  }

  /** `show_small_number_x10(number, percent)`. */
  function SmallNumberOps(number: i16, percent: bool): seq<LcdOp>
  {
    DrawNumber(CELL_X_INDEX, number, SYM_SMALL_DECIMAL_DOT, 0) + [SetLcdBit(SYM_PERCENTAGE, percent)]
  }

  /**
   * The battery reading of `show_batt_cgdk2` in tenths of a percent:
   * `(mv - 2200) * 10 / 9`, stored in a uint16_t and capped at 999; 0 at or
   * below 2200 mV.
   */
  function BattLevel(mv: u16): (level: u16)
    ensures level <= 999
    ensures mv <= MIN_VBAT_MV ==> level == 0
    ensures MIN_VBAT_MV < mv <= 61182 ==> level == Min((mv - MIN_VBAT_MV) * 10 / 9, 999)
    ensures MIN_VBAT_MV < mv <= MAX_VBAT_MV ==> level == Min((mv - MIN_VBAT_MV) * 10 / 9, 999)
  {
    if mv > MIN_VBAT_MV then
      var raw := ((mv - MIN_VBAT_MV) * 10 / ((MAX_VBAT_MV - MIN_VBAT_MV) / 100)) % TWO_16;
      if raw > 999 then 999 else raw
    else 0
  }

  /** The battery reading always fits the bottom row with its dot, and reads back exactly. */
  lemma BattLevelShown(mv: u16)
    ensures var level := BattLevel(mv);
      ShowsDot(false, level) && Decode(false, Render(false, level)) == level
  {
    RenderDecodes(false, BattLevel(mv));
  }

  /** `show_batt_cgdk2`: the reading on the bottom row, without the percent sign. */
  function BattOps(mv: u16): seq<LcdOp>
  {
    SmallNumberOps(BattLevel(mv), false)
  }

  /** The six characters of `show_clock`: hours and minutes, two digits each, then a blank. */
  function ClockChars(utcSec: u32): (cs: seq<nat>)
    ensures |cs| == NUM_LCD_CELLS && cs[2] == CHR_SPACE && cs[5] == CHR_SPACE
    ensures forall k :: 0 <= k < NUM_LCD_CELLS ==> cs[k] < NUM_CHARS
    ensures cs[0] < 3 && cs[1] < 10 && cs[3] < 6 && cs[4] < 10
    ensures 10 * cs[0] + cs[1] == (utcSec / 3600) % 24
    ensures 10 * cs[3] + cs[4] == (utcSec / 60) % 60
  {
    var tmp := utcSec / 60;
    var min := tmp % 60;
    var hrs := tmp / 60 % 24;
    assert tmp / 60 == utcSec / 3600;
    [CHR_0 + hrs / 10, CHR_0 + hrs % 10, CHR_SPACE, CHR_0 + min / 10, CHR_0 + min % 10, CHR_SPACE]
  }

  /** `show_temp_symbol(symbol)` in terms of this file's primitive. */
  function TempSymbolOps(symbol: u8): seq<LcdOp>
  {
    [SetLcdBit(SYM_TEMP_COMMON, HasBit(symbol, 0x20)), SetLcdBit(SYM_TEMP_MINUS, HasBit(symbol, 0x40)),
     SetLcdBit(SYM_TEMP_UNDERSCORE, HasBit(symbol, 0x80))]
  }

  /** `show_battery_symbol(state)`: the case, then stripes L1..L5 at their thresholds. */
  function BatterySymbolOps(state: bool, level: u8): seq<LcdOp>
  {
    [SetLcdBit(SYM_BATTERY, state)]
    + seq(5, k requires 0 <= k < 5 => SetLcdBit(STRIPES[k], state && level >= BATTERY_THRESHOLDS[k]))
  }

  /** `show_battery_symbol` makes the same writes as the driver's `display_battery_symbol`. */
  lemma BatterySymbolMatchesDriver(state: bool, level: u8)
    ensures OpsWrites(BatterySymbolOps(state, level)) == BatteryWrites(state, level)
  {
    var ops := BatterySymbolOps(state, level);
    var i := 0;
    while i < |ops|
      invariant 0 <= i <= |ops|
      invariant OpsWrites(ops[..i]) == BatteryWrites(state, level)[..i]
    {
      assert ops[..i + 1][..i] == ops[..i];
      assert BatteryWrites(state, level)[..i + 1] == BatteryWrites(state, level)[..i] + [BatteryWrites(state, level)[i]];
      i := i + 1;
    }
    assert ops[..|ops|] == ops;
  }

  /** `show_clock`: the six cells, then the dots, percent sign, hundreds one and symbol cleared. */
  function ClockOps(utcSec: u32): seq<LcdOp>
  {
    var cs := ClockChars(utcSec);
    [DrawCell(0, cs[0]), DrawCell(1, cs[1]), DrawCell(2, cs[2]),
     DrawCell(3, cs[3]), DrawCell(4, cs[4]), DrawCell(5, cs[5]),
     SetLcdBit(SYM_BIG_ONE_HUNDRED, false), SetLcdBit(SYM_PERCENTAGE, false),
     SetLcdBit(SYM_BIG_DECIMAL_DOT, false), SetLcdBit(SYM_SMALL_DECIMAL_DOT, false)]
    + TempSymbolOps(0)
  }

  /** The clock leaves hours in A and B, minutes in X and Y, and C and Z blank. */
  lemma ClockShows(utcSec: u32)
    ensures var ops := ClockOps(utcSec);
      forall k :: 0 <= k < NUM_LCD_CELLS ==> CellChar(ops, k) == ClockChars(utcSec)[k]
  {
    var ops := ClockOps(utcSec);
    forall k | 0 <= k < NUM_LCD_CELLS
      ensures CellChar(ops, k) == ClockChars(utcSec)[k]
    {
      CellCharLast(ops, k, k);
    }
  }

  /** A cell shows what the last `draw_cell` on it drew. */
  lemma {:induction false} CellCharLast(ops: seq<LcdOp>, k: nat, cell: nat)
    requires k < |ops| && ops[k].DrawCell? && ops[k].cell == cell
    requires forall j :: k < j < |ops| ==> !(ops[j].DrawCell? && ops[j].cell == cell)
    ensures CellChar(ops, cell) == ops[k].ch
    decreases |ops|
  {
    if k < |ops| - 1 {
      var init := ops[..|ops| - 1];
      assert init[k] == ops[k];
      assert forall j :: k < j < |init| ==> init[j] == ops[j];
      CellCharLast(init, k, cell);
    }
  }

  /** The LCD statics of this file and the buffer it draws into. */
  class Lcd {
    var buff: array<bv8>
    var cmp: array<bv8>

    ghost predicate Valid()
      reads this
    {
      buff.Length == DISPLAY_BUFF_LEN && cmp.Length == DISPLAY_BUFF_LEN && buff != cmp
    }

    constructor ()
      ensures Valid() && fresh(buff) && fresh(cmp)
    {
      buff := new bv8[DISPLAY_BUFF_LEN];
      cmp := new bv8[DISPLAY_BUFF_LEN];
    }

    /**
     * `init_lcd`: both buffers cleared; an empty transaction, the reset
     * command, then display control, display on and the blank buffer.
     */
    method InitLcd() returns (txs: seq<seq<bv8>>)
      requires Valid()
      modifies buff, cmp
      ensures Valid()
      ensures buff[..] == seq(DISPLAY_BUFF_LEN, _ => 0) && cmp[..] == buff[..]
      ensures txs == [[], [LCD_CMD_RESET],
        [LCD_CMD_MORE | LCD_CMD_DISPLAY_CONTROL, LCD_CMD_MORE | LCD_CMD_MODE_SET_OPERATION | LCD_CMD_MODE_SET_DISPLAY_ON,
         LCD_CMD_ADDRESS_SET_OPERATION] + buff[..]]
    {
      forall k | 0 <= k < buff.Length {
        buff[k] := 0;
      }
      forall k | 0 <= k < cmp.Length {
        cmp[k] := 0;
      }
      txs := [[], [LCD_CMD_RESET],
        [LCD_CMD_MORE | LCD_CMD_DISPLAY_CONTROL, LCD_CMD_MORE | LCD_CMD_MODE_SET_OPERATION | LCD_CMD_MODE_SET_DISPLAY_ON,
         LCD_CMD_ADDRESS_SET_OPERATION] + buff[..]];
    }

    /** `update_lcd`: the changed range, after which the controller copy equals the buffer. */
    method UpdateLcd() returns (w: Option<LcdWrite>)
      requires Valid()
      modifies cmp
      ensures Valid()
      ensures cmp[..] == buff[..]
      ensures w.None? <==> old(cmp[..]) == buff[..]
      ensures w.Some? ==> var i, j := FirstDiff(buff[..], old(cmp[..])), DiffEnd(buff[..], old(cmp[..]));
        w.value == LcdWrite(2 * i, buff[i..j])
    {
      w := SendChanged(buff, cmp);
    }

    /** `set_lcd_bit`. */
    method SetBit(bit: u8, on: bool)
      requires Valid()
      modifies buff
      ensures buff[..] == WithBit(old(buff[..]), bit, on)
    {
      RenderBit(buff, bit, on);
    }

    /** `draw_cell`: the 13 bitmap bits of c into the cell's positions, or nothing if out of range. */
    method Draw(cell: nat, c: nat)
      requires Valid()
      modifies buff
      ensures buff[..] == WriteBits(old(buff[..]), DrawCellWrites(cell, c))
    {
      if cell < NUM_LCD_CELLS && c < NUM_CHARS {
        CellLengths();
        var segs := CELL_SEGMENT_BITS[cell];
        assert DrawCellWrites(cell, c) == CharWrites(segs, c);
        RenderChar(buff, segs, c);
      } else {
        assert DrawCellWrites(cell, c) == [];
      }
    }

    /** One primitive call. */
    method Apply(op: LcdOp)
      requires Valid()
      modifies buff
      ensures buff[..] == WriteBits(old(buff[..]), OpWrites(op))
    {
      match op {
        case SetLcdBit(bit, on) =>
          SetBit(bit, on);
        case DrawCell(cell, ch) =>
          Draw(cell, ch);
      }
    }

    /** A list of primitive calls, in order. */
    method Perform(ops: seq<LcdOp>)
      requires Valid()
      modifies buff
      ensures buff[..] == WriteBits(old(buff[..]), OpsWrites(ops))
    {
      ghost var start := buff[..];
      var i := 0;
      while i < |ops|
        invariant 0 <= i <= |ops|
        invariant buff[..] == WriteBits(start, OpsWrites(ops[..i]))
      {
        assert ops[..i + 1][..i] == ops[..i];
        WriteBitsConcat(start, OpsWrites(ops[..i]), OpWrites(ops[i]));
        Apply(ops[i]);
        i := i + 1;
      }
      assert ops[..|ops|] == ops;
    }

    /** `show_big_number_x10`. */
    method ShowBigNumber(number: i16)
      requires Valid()
      modifies buff
      ensures buff[..] == WriteBits(old(buff[..]), OpsWrites(BigNumberOps(number)))
    {
      Perform(BigNumberOps(number));
    }

    /** `show_small_number_x10`. */
    method ShowSmallNumber(number: i16, percent: bool)
      requires Valid()
      modifies buff
      ensures buff[..] == WriteBits(old(buff[..]), OpsWrites(SmallNumberOps(number, percent)))
    {
      Perform(SmallNumberOps(number, percent));
    }

    /** `show_batt_cgdk2`. */
    method ShowBatt(mv: u16)
      requires Valid()
      modifies buff
      ensures buff[..] == WriteBits(old(buff[..]), OpsWrites(BattOps(mv)))
    {
      Perform(BattOps(mv));
    }

    /** `show_clock`. */
    method ShowClock(utcSec: u32)
      requires Valid()
      modifies buff
      ensures buff[..] == WriteBits(old(buff[..]), OpsWrites(ClockOps(utcSec)))
    {
      Perform(ClockOps(utcSec));
    }

    /** `show_temp_symbol`. */
    method ShowTempSymbol(symbol: u8)
      requires Valid()
      modifies buff
      ensures buff[..] == WriteBits(old(buff[..]), OpsWrites(TempSymbolOps(symbol)))
    {
      Perform(TempSymbolOps(symbol));
    }

    /** `show_battery_symbol`. */
    method ShowBatterySymbol(state: bool, level: u8)
      requires Valid()
      modifies buff
      ensures buff[..] == WriteBits(old(buff[..]), OpsWrites(BatterySymbolOps(state, level)))
    {
      Perform(BatterySymbolOps(state, level));
    }

    /** `show_ble_symbol`. */
    method ShowBleSymbol(state: bool)
      requires Valid()
      modifies buff
      ensures buff[..] == WithBit(old(buff[..]), SYM_BLUETOOTH, state)
    {
      SetBit(SYM_BLUETOOTH, state);
    }
  }
}
