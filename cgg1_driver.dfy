/**
 * `display_drv_cgg1.c`: the e-paper driver of the CGG1. A refresh is a small
 * stage machine advanced by `task_lcd` whenever the panel's BUSY line is
 * high; every 32 partial refreshes are followed by a full re-initialisation.
 * The bit-banged SPI link is modelled by the list of command and data bytes
 * it sends, and the BUSY line by a parameter.
 */
module Cgg1Driver {
  import opened Word
  import opened DisplayCommon
  import opened ThreeCellLine
  import opened SegmentCell

  const DISPLAY_BUFF_LEN: nat := 18
  /** `DEF_EPD_REFRESH_CNT`: partial refreshes between two full initialisations. */
  const DEF_EPD_REFRESH_CNT: u8 := 32

  // Positions of the symbols (`enum symbol`).
  const SYM_TEMP_UNDERSCORE: u8 := NBit(1, 5)
  const SYM_TEMP_MINUS: u8 := NBit(1, 4)
  const SYM_TEMP_COMMON: u8 := NBit(1, 3)
  const SYM_TEMP_DEGREE: u8 := NBit(1, 2)
  const SYM_BATTERY: u8 := NBit(7, 4)
  const SYM_BATTERY_L1: u8 := NBit(5, 6)
  const SYM_BATTERY_L2: u8 := NBit(5, 5)
  const SYM_BATTERY_L3: u8 := NBit(6, 7)
  const SYM_BATTERY_L4: u8 := NBit(6, 1)
  const SYM_BATTERY_L5: u8 := NBit(7, 5)
  const SYM_BIG_DECIMAL_DOT: u8 := NBit(3, 6)
  const SYM_SMALL_DECIMAL_DOT: u8 := NBit(0, 2)
  const SYM_PERCENTAGE: u8 := NBit(5, 3)
  const SYM_BLUETOOTH: u8 := NBit(9, 1)

  const STRIPES: seq<u8> := [SYM_BATTERY_L1, SYM_BATTERY_L2, SYM_BATTERY_L3, SYM_BATTERY_L4, SYM_BATTERY_L5]

  /** The byte holding the top row's leftmost one, and its mask BIT(1)|...|BIT(5). */
  const ONE_BYTE: nat := 15
  const ONE_MASK: bv8 := 0x3E
  const ONE_BITS: seq<u8> := [NBit(15, 1), NBit(15, 2), NBit(15, 3), NBit(15, 4), NBit(15, 5)]

  // ---------------------------------------------------------------------
  // Cell tables
  // ---------------------------------------------------------------------

  const ZERO_CELL: seq<u8> := [0, 0, 0, 0, 0, 0, 0, 0, 0, 0, 0, 0, 0]

  // The designated initializers `{ [seg] = pos, ... }` of `render_top_cell` and
  // `render_bottom_cell`, as written: entries are applied in order to a zero
  // table, so a later entry for a segment replaces an earlier one and a
  // segment no entry names stays 0.
  const TOP_CELL_0: seq<u8> :=
    ZERO_CELL[SEG_5M := NBit(9, 4)][SEG_5R := NBit(8, 5)][SEG_4R := NBit(8, 6)][SEG_3R := NBit(8, 7)]
      [SEG_1R := NBit(7, 0)][SEG_1M := NBit(7, 1)][SEG_1L := NBit(9, 2)][SEG_1R := NBit(14, 4)]
      [SEG_2R := NBit(14, 5)][SEG_3R := NBit(14, 6)][SEG_4R := NBit(14, 7)][SEG_5R := NBit(13, 0)]
      [SEG_3M := NBit(9, 3)]
  const TOP_CELL_1: seq<u8> :=
    ZERO_CELL[SEG_5M := NBit(6, 3)][SEG_5R := NBit(5, 7)][SEG_4R := NBit(4, 0)][SEG_3R := NBit(4, 1)]
      [SEG_1R := NBit(4, 6)][SEG_1M := NBit(4, 7)][SEG_1L := NBit(5, 4)][SEG_1R := NBit(5, 0)]
      [SEG_2R := NBit(6, 6)][SEG_3R := NBit(6, 5)][SEG_4R := NBit(6, 4)][SEG_5R := NBit(6, 2)]
      [SEG_3M := NBit(4, 5)]
  const TOP_CELL_2: seq<u8> :=
    ZERO_CELL[SEG_5M := NBit(1, 6)][SEG_5R := NBit(1, 7)][SEG_4R := NBit(1, 0)][SEG_3R := NBit(2, 6)]
      [SEG_1R := NBit(2, 3)][SEG_1M := NBit(2, 1)][SEG_1L := NBit(2, 0)][SEG_1R := NBit(3, 7)]
      [SEG_2R := NBit(2, 2)][SEG_3R := NBit(2, 4)][SEG_4R := NBit(2, 7)][SEG_5R := NBit(1, 1)]
      [SEG_3M := NBit(2, 5)]
  const BOTTOM_CELL_0: seq<u8> :=
    ZERO_CELL[SEG_5M := NBit(13, 1)][SEG_5R := NBit(13, 2)][SEG_4R := NBit(14, 2)][SEG_3R := NBit(14, 0)]
      [SEG_1R := NBit(15, 0)][SEG_1M := NBit(16, 6)][SEG_1L := NBit(16, 5)][SEG_1R := NBit(16, 4)]
      [SEG_2R := NBit(16, 7)][SEG_3R := NBit(15, 6)][SEG_4R := NBit(14, 1)][SEG_5R := NBit(14, 3)]
      [SEG_3M := NBit(15, 7)]
  const BOTTOM_CELL_1: seq<u8> :=
    ZERO_CELL[SEG_5M := NBit(9, 6)][SEG_5R := NBit(8, 3)][SEG_4R := NBit(8, 2)][SEG_3R := NBit(8, 1)]
      [SEG_1R := NBit(8, 4)][SEG_1M := NBit(7, 3)][SEG_1L := NBit(10, 5)][SEG_1R := NBit(10, 4)]
      [SEG_2R := NBit(10, 6)][SEG_3R := NBit(9, 5)][SEG_4R := NBit(9, 0)][SEG_5R := NBit(10, 7)]
      [SEG_3M := NBit(9, 7)]
  const BOTTOM_CELL_2: seq<u8> :=
    ZERO_CELL[SEG_5M := NBit(5, 1)][SEG_5R := NBit(5, 2)][SEG_4R := NBit(7, 7)][SEG_3R := NBit(3, 2)]
      [SEG_1R := NBit(3, 4)][SEG_1M := NBit(0, 1)][SEG_1L := NBit(0, 0)][SEG_1R := NBit(3, 5)]
      [SEG_2R := NBit(3, 3)][SEG_3R := NBit(3, 0)][SEG_4R := NBit(7, 6)][SEG_5R := NBit(6, 0)]
      [SEG_3M := NBit(3, 1)]

  // What the initializers resolve to, in segment order 1L 2L 3L 4L 5L 1M 3M 5M 1R 2R 3R 4R 5R.

  lemma TopCell0Table()
    ensures TOP_CELL_0 == [NBit(9, 2), 0, 0, 0, 0, NBit(7, 1), NBit(9, 3), NBit(9, 4), NBit(14, 4), NBit(14, 5), NBit(14, 6), NBit(14, 7), NBit(13, 0)]
  {
  }

  lemma TopCell1Table()
    ensures TOP_CELL_1 == [NBit(5, 4), 0, 0, 0, 0, NBit(4, 7), NBit(4, 5), NBit(6, 3), NBit(5, 0), NBit(6, 6), NBit(6, 5), NBit(6, 4), NBit(6, 2)]
  {
  }

  lemma TopCell2Table()
    ensures TOP_CELL_2 == [NBit(2, 0), 0, 0, 0, 0, NBit(2, 1), NBit(2, 5), NBit(1, 6), NBit(3, 7), NBit(2, 2), NBit(2, 4), NBit(2, 7), NBit(1, 1)]
  {
  }

  lemma BottomCell0Table()
    ensures BOTTOM_CELL_0 == [NBit(16, 5), 0, 0, 0, 0, NBit(16, 6), NBit(15, 7), NBit(13, 1), NBit(16, 4), NBit(16, 7), NBit(15, 6), NBit(14, 1), NBit(14, 3)]
  {
  }

  lemma BottomCell1Table()
    ensures BOTTOM_CELL_1 == [NBit(10, 5), 0, 0, 0, 0, NBit(7, 3), NBit(9, 7), NBit(9, 6), NBit(10, 4), NBit(10, 6), NBit(9, 5), NBit(9, 0), NBit(10, 7)]
  {
  }

  lemma BottomCell2Table()
    ensures BOTTOM_CELL_2 == [NBit(0, 0), 0, 0, 0, 0, NBit(0, 1), NBit(3, 1), NBit(5, 1), NBit(3, 5), NBit(3, 3), NBit(3, 0), NBit(7, 6), NBit(6, 0)]
  {
  }

  // The tables as evidently intended: in each initializer the first entries
  // named SEG_5R, SEG_4R, SEG_3R and SEG_1R (the ones a later entry
  // overrides) are the left column SEG_5L, SEG_4L, SEG_3L and SEG_2L, which
  // no entry names as written.
  const TOP_CELL_0_INTENDED: seq<u8> :=
    ZERO_CELL[SEG_5M := NBit(9, 4)][SEG_5L := NBit(8, 5)][SEG_4L := NBit(8, 6)][SEG_3L := NBit(8, 7)]
      [SEG_2L := NBit(7, 0)][SEG_1M := NBit(7, 1)][SEG_1L := NBit(9, 2)][SEG_1R := NBit(14, 4)]
      [SEG_2R := NBit(14, 5)][SEG_3R := NBit(14, 6)][SEG_4R := NBit(14, 7)][SEG_5R := NBit(13, 0)]
      [SEG_3M := NBit(9, 3)]
  const TOP_CELL_1_INTENDED: seq<u8> :=
    ZERO_CELL[SEG_5M := NBit(6, 3)][SEG_5L := NBit(5, 7)][SEG_4L := NBit(4, 0)][SEG_3L := NBit(4, 1)]
      [SEG_2L := NBit(4, 6)][SEG_1M := NBit(4, 7)][SEG_1L := NBit(5, 4)][SEG_1R := NBit(5, 0)]
      [SEG_2R := NBit(6, 6)][SEG_3R := NBit(6, 5)][SEG_4R := NBit(6, 4)][SEG_5R := NBit(6, 2)]
      [SEG_3M := NBit(4, 5)]
  const TOP_CELL_2_INTENDED: seq<u8> :=
    ZERO_CELL[SEG_5M := NBit(1, 6)][SEG_5L := NBit(1, 7)][SEG_4L := NBit(1, 0)][SEG_3L := NBit(2, 6)]
      [SEG_2L := NBit(2, 3)][SEG_1M := NBit(2, 1)][SEG_1L := NBit(2, 0)][SEG_1R := NBit(3, 7)]
      [SEG_2R := NBit(2, 2)][SEG_3R := NBit(2, 4)][SEG_4R := NBit(2, 7)][SEG_5R := NBit(1, 1)]
      [SEG_3M := NBit(2, 5)]
  const BOTTOM_CELL_0_INTENDED: seq<u8> :=
    ZERO_CELL[SEG_5M := NBit(13, 1)][SEG_5L := NBit(13, 2)][SEG_4L := NBit(14, 2)][SEG_3L := NBit(14, 0)]
      [SEG_2L := NBit(15, 0)][SEG_1M := NBit(16, 6)][SEG_1L := NBit(16, 5)][SEG_1R := NBit(16, 4)]
      [SEG_2R := NBit(16, 7)][SEG_3R := NBit(15, 6)][SEG_4R := NBit(14, 1)][SEG_5R := NBit(14, 3)]
      [SEG_3M := NBit(15, 7)]
  const BOTTOM_CELL_1_INTENDED: seq<u8> :=
    ZERO_CELL[SEG_5M := NBit(9, 6)][SEG_5L := NBit(8, 3)][SEG_4L := NBit(8, 2)][SEG_3L := NBit(8, 1)]
      [SEG_2L := NBit(8, 4)][SEG_1M := NBit(7, 3)][SEG_1L := NBit(10, 5)][SEG_1R := NBit(10, 4)]
      [SEG_2R := NBit(10, 6)][SEG_3R := NBit(9, 5)][SEG_4R := NBit(9, 0)][SEG_5R := NBit(10, 7)]
      [SEG_3M := NBit(9, 7)]
  const BOTTOM_CELL_2_INTENDED: seq<u8> :=
    ZERO_CELL[SEG_5M := NBit(5, 1)][SEG_5L := NBit(5, 2)][SEG_4L := NBit(7, 7)][SEG_3L := NBit(3, 2)]
      [SEG_2L := NBit(3, 4)][SEG_1M := NBit(0, 1)][SEG_1L := NBit(0, 0)][SEG_1R := NBit(3, 5)]
      [SEG_2R := NBit(3, 3)][SEG_3R := NBit(3, 0)][SEG_4R := NBit(7, 6)][SEG_5R := NBit(6, 0)]
      [SEG_3M := NBit(3, 1)]

  const TOP_CELLS_INTENDED: seq<seq<u8>> := [TOP_CELL_0_INTENDED, TOP_CELL_1_INTENDED, TOP_CELL_2_INTENDED]
  const BOTTOM_CELLS_INTENDED: seq<seq<u8>> := [BOTTOM_CELL_0_INTENDED, BOTTOM_CELL_1_INTENDED, BOTTOM_CELL_2_INTENDED]

  /** 13 distinct positions inside the buffer: what `SegmentCell.CharReadBack` needs. */
  predicate ReadableCell(cell: seq<u8>)
  {
    |cell| == NUM_SEGMENTS
    && (forall i, j :: 0 <= i < j < NUM_SEGMENTS ==> cell[i] != cell[j])
    && (forall i :: 0 <= i < NUM_SEGMENTS ==> cell[i] / 8 < DISPLAY_BUFF_LEN)
  }

  /** The intended tables agree with the tables as written outside SEG_2L..SEG_5L. */
  predicate SameOutsideLeftColumn(intended: seq<u8>, written: seq<u8>)
  {
    |intended| == |written| == NUM_SEGMENTS
    && forall j :: 0 <= j < NUM_SEGMENTS && !(SEG_2L <= j <= SEG_5L) ==> intended[j] == written[j]
  }

  // The intended tables resolved, positions as byte * 8 + bit, in segment order.

  lemma TopCell0Intended()
    ensures TOP_CELL_0_INTENDED == [74, 56, 71, 70, 69, 57, 75, 76, 116, 117, 118, 119, 104]
    ensures ReadableCell(TOP_CELL_0_INTENDED) && SameOutsideLeftColumn(TOP_CELL_0_INTENDED, TOP_CELL_0)
  {
    TopCell0Table();
  }

  lemma TopCell1Intended()
    ensures TOP_CELL_1_INTENDED == [44, 38, 33, 32, 47, 39, 37, 51, 40, 54, 53, 52, 50]
    ensures ReadableCell(TOP_CELL_1_INTENDED) && SameOutsideLeftColumn(TOP_CELL_1_INTENDED, TOP_CELL_1)
  {
    TopCell1Table();
  }

  lemma TopCell2Intended()
    ensures TOP_CELL_2_INTENDED == [16, 19, 22, 8, 15, 17, 21, 14, 31, 18, 20, 23, 9]
    ensures ReadableCell(TOP_CELL_2_INTENDED) && SameOutsideLeftColumn(TOP_CELL_2_INTENDED, TOP_CELL_2)
  {
    TopCell2Table();
  }

  lemma BottomCell0Intended()
    ensures BOTTOM_CELL_0_INTENDED == [133, 120, 112, 114, 106, 134, 127, 105, 132, 135, 126, 113, 115]
    ensures ReadableCell(BOTTOM_CELL_0_INTENDED) && SameOutsideLeftColumn(BOTTOM_CELL_0_INTENDED, BOTTOM_CELL_0)
  {
    BottomCell0Table();
  }

  lemma BottomCell1Intended()
    ensures BOTTOM_CELL_1_INTENDED == [85, 68, 65, 66, 67, 59, 79, 78, 84, 86, 77, 72, 87]
    ensures ReadableCell(BOTTOM_CELL_1_INTENDED) && SameOutsideLeftColumn(BOTTOM_CELL_1_INTENDED, BOTTOM_CELL_1)
  {
    BottomCell1Table();
  }

  lemma BottomCell2Intended()
    ensures BOTTOM_CELL_2_INTENDED == [0, 28, 26, 63, 42, 1, 25, 41, 29, 27, 24, 62, 48]
    ensures ReadableCell(BOTTOM_CELL_2_INTENDED) && SameOutsideLeftColumn(BOTTOM_CELL_2_INTENDED, BOTTOM_CELL_2)
  {
    BottomCell2Table();
  }

  lemma TopIntendedReadable()
    ensures forall k :: 0 <= k < NUM_CELLS ==> ReadableCell(TOP_CELLS_INTENDED[k])
    ensures forall k :: 0 <= k < NUM_CELLS ==> SameOutsideLeftColumn(TOP_CELLS_INTENDED[k], TOP_ROW.cells[k])
  {
    TopCell0Intended();
    TopCell1Intended();
    TopCell2Intended();
  }

  lemma BottomIntendedReadable()
    ensures forall k :: 0 <= k < NUM_CELLS ==> ReadableCell(BOTTOM_CELLS_INTENDED[k])
    ensures forall k :: 0 <= k < NUM_CELLS ==> SameOutsideLeftColumn(BOTTOM_CELLS_INTENDED[k], BOTTOM_ROW.cells[k])
  {
    BottomCell0Intended();
    BottomCell1Intended();
    BottomCell2Intended();
  }

  /**
   * With the intended tables every one of the 13 segments of any cell shows
   * the character drawn, the left column included.
   */
  lemma IntendedCellReadBack(buf: seq<bv8>, top: bool, k: nat, c: nat)
    requires |buf| == DISPLAY_BUFF_LEN && k < NUM_CELLS && c < NUM_CHARS
    ensures var cell := if top then TOP_CELLS_INTENDED[k] else BOTTOM_CELLS_INTENDED[k];
      forall j :: 0 <= j < NUM_SEGMENTS ==> (BitOf(WriteBits(buf, CharWrites(cell, c)), cell[j]) <==> Lit(c, j))
  {
    TopIntendedReadable();
    BottomIntendedReadable();
    var cell := if top then TOP_CELLS_INTENDED[k] else BOTTOM_CELLS_INTENDED[k];
    CharReadBack(buf, cell, c, 0);
  }

  const TOP_ROW: Row := Row([TOP_CELL_0, TOP_CELL_1, TOP_CELL_2], SYM_BIG_DECIMAL_DOT, ONE_BITS)
  const BOTTOM_ROW: Row := Row([BOTTOM_CELL_0, BOTTOM_CELL_1, BOTTOM_CELL_2], SYM_SMALL_DECIMAL_DOT, [])

  /**
   * A table of the shape the initializers produce: SEG_2L..SEG_5L at
   * position 0, every later segment elsewhere, and all inside the buffer.
   */
  predicate CollapsedLeftColumn(cell: seq<u8>)
  {
    |cell| == NUM_SEGMENTS
    && cell[SEG_2L] == 0 && cell[SEG_3L] == 0 && cell[SEG_4L] == 0 && cell[SEG_5L] == 0
    && (forall j :: SEG_5L < j < NUM_SEGMENTS ==> cell[j] != 0)
    && (forall j :: 0 <= j < NUM_SEGMENTS ==> cell[j] / 8 < DISPLAY_BUFF_LEN)
  }

  lemma TopCollapsed()
    ensures forall k :: 0 <= k < NUM_CELLS ==> CollapsedLeftColumn(TOP_ROW.cells[k])
  {
    TopCell0Table();
    TopCell1Table();
    TopCell2Table();
  }

  lemma BottomCollapsed()
    ensures forall k :: 0 <= k < NUM_CELLS ==> CollapsedLeftColumn(BOTTOM_ROW.cells[k])
  {
    BottomCell0Table();
    BottomCell1Table();
    BottomCell2Table();
  }

  /**
   * Drawing any character in any CGG1 cell leaves bit 0 of the buffer (the
   * bottom-right cell's SEG_1L) showing the character's SEG_5L: the four
   * left-column segments all land on position 0 and the last of them wins.
   */
  lemma CellBitZero(buf: seq<bv8>, cell: seq<u8>, c: nat)
    requires CollapsedLeftColumn(cell) && c < NUM_CHARS && |buf| > 0
    ensures BitOf(WriteBits(buf, CharWrites(cell, c)), 0) <==> Lit(c, SEG_5L)
  {
    var ws := CharWrites(cell, c);
    assert ws[SEG_5L].bit == 0;
    LastWriteUnique(ws, 0, SEG_5L);
    WriteBitsReadBack(buf, ws, 0);
  }

  /**
   * So the left column of a cell never shows on its own: "0" (SEG_2L..SEG_4L
   * lit, SEG_5L not) leaves bit 0 clear, "4" (SEG_4L and SEG_5L) sets it.
   */
  lemma LeftColumnExamples(buf: seq<bv8>, k: nat)
    requires k < NUM_CELLS && |buf| == DISPLAY_BUFF_LEN
    ensures !BitOf(WriteBits(buf, CharWrites(TOP_ROW.cells[k], CHR_0)), 0)
    ensures BitOf(WriteBits(buf, CharWrites(TOP_ROW.cells[k], CHR_0 + 4)), 0)
  {
    TopCollapsed();
    CellBitZero(buf, TOP_ROW.cells[k], CHR_0);
    CellBitZero(buf, TOP_ROW.cells[k], CHR_0 + 4);
  }

  // ---------------------------------------------------------------------
  // Symbols and numbers
  // ---------------------------------------------------------------------

  /** `display_temp_symbol(symbol)`: the degree sign shares bit 0x20 with the common part. */
  function TempSymbolWrites(symbol: u8): seq<BitWrite>
  {
    [BitWrite(SYM_TEMP_COMMON, HasBit(symbol, 0x20)), BitWrite(SYM_TEMP_DEGREE, HasBit(symbol, 0x20)),
     BitWrite(SYM_TEMP_MINUS, HasBit(symbol, 0x40)), BitWrite(SYM_TEMP_UNDERSCORE, HasBit(symbol, 0x80))]
  }

  /** Each part shows its own bit of the symbol: "°C" is degree, common and underscore; "°F" degree, common and minus. */
  lemma TempSymbolSegments(symbol: u8)
    ensures var ws := TempSymbolWrites(symbol);
      LastWrite(ws, SYM_TEMP_COMMON) == ((symbol / 0x20) % 2 == 1)
      && LastWrite(ws, SYM_TEMP_DEGREE) == ((symbol / 0x20) % 2 == 1)
      && LastWrite(ws, SYM_TEMP_MINUS) == ((symbol / 0x40) % 2 == 1)
      && LastWrite(ws, SYM_TEMP_UNDERSCORE) == (symbol >= 0x80)
    ensures symbol == 0xA0 ==> TempSymbolWrites(symbol) == [BitWrite(SYM_TEMP_COMMON, true),
      BitWrite(SYM_TEMP_DEGREE, true), BitWrite(SYM_TEMP_MINUS, false), BitWrite(SYM_TEMP_UNDERSCORE, true)]
    ensures symbol == 0x60 ==> TempSymbolWrites(symbol) == [BitWrite(SYM_TEMP_COMMON, true),
      BitWrite(SYM_TEMP_DEGREE, true), BitWrite(SYM_TEMP_MINUS, true), BitWrite(SYM_TEMP_UNDERSCORE, false)]
  {
    var ws := TempSymbolWrites(symbol);
    LastWriteUnique(ws, SYM_TEMP_COMMON, 0);
    LastWriteUnique(ws, SYM_TEMP_DEGREE, 1);
    LastWriteUnique(ws, SYM_TEMP_MINUS, 2);
    LastWriteUnique(ws, SYM_TEMP_UNDERSCORE, 3);
  }

  /** `display_battery_symbol(state)` with the global `battery_level` as a parameter. */
  function BatteryWrites(state: bool, level: u8): (ws: seq<BitWrite>)
    ensures |ws| == 6 && ws[0] == BitWrite(SYM_BATTERY, state)
    ensures forall k :: 0 <= k < 5 ==> ws[k + 1].bit == STRIPES[k]
  {
    [BitWrite(SYM_BATTERY, state)]
    + seq(5, k requires 0 <= k < 5 => BitWrite(STRIPES[k], state && level >= BATTERY_THRESHOLDS[k]))
  }

  /** Stripes light from L1 upwards: a lit stripe implies every lower one is lit. */
  lemma BatteryStripesPrefix(state: bool, level: u8)
    ensures var ws := BatteryWrites(state, level);
      (forall k :: 0 <= k < 5 ==> (ws[k + 1].on <==> state && level >= BATTERY_THRESHOLDS[k]))
      && (forall i, j :: 1 <= i <= j <= 5 && ws[j].on ==> ws[i].on)
  {
    var ws := BatteryWrites(state, level);
    forall k | 0 <= k < 5
      ensures ws[k + 1].on <==> state && level >= BATTERY_THRESHOLDS[k]
    {
      assert ws[k + 1] == BitWrite(STRIPES[k], state && level >= BATTERY_THRESHOLDS[k]);
    }
    forall i, j | 1 <= i <= j <= 5 && ws[j].on
      ensures ws[i].on
    {
      assert BATTERY_THRESHOLDS[i - 1] <= BATTERY_THRESHOLDS[j - 1];
    }
  }

  function BigNumberWrites(number: i16): seq<BitWrite>
  {
    RowWrites(TOP_ROW, Render(true, number))
  }

  function SmallNumberWrites(number: i16, percent: bool): seq<BitWrite>
  {
    RowWrites(BOTTOM_ROW, Render(false, number)) + [BitWrite(SYM_PERCENTAGE, percent)]
  }

  /** The five single-bit updates of the leftmost one, on the byte. */
  lemma OneMaskByte(x: bv8, on: bool)
    ensures SetBit(SetBit(SetBit(SetBit(SetBit(x, 1, on), 2, on), 3, on), 4, on), 5, on)
      == if on then x | ONE_MASK else x & !ONE_MASK
  {
  }

  lemma WriteBitsCons(buf: seq<bv8>, w: BitWrite, rest: seq<BitWrite>)
    ensures WriteBits(buf, [w] + rest) == WriteBits(WithBit(buf, w.bit, w.on), rest)
  {
    assert ([w] + rest)[1..] == rest;
  }

  /** Setting or clearing the five bits of the leftmost one is the mask operation on byte 15. */
  lemma OneIsMask(buf: seq<bv8>, on: bool)
    requires |buf| == DISPLAY_BUFF_LEN
    ensures WriteBits(buf, OneWrites(ONE_BITS, on))
      == buf[ONE_BYTE := if on then buf[ONE_BYTE] | ONE_MASK else buf[ONE_BYTE] & !ONE_MASK]
  {
    var ws := OneWrites(ONE_BITS, on);
    var x := buf[ONE_BYTE];
    var y1 := SetBit(x, 1, on);
    var y2 := SetBit(y1, 2, on);
    var y3 := SetBit(y2, 3, on);
    var y4 := SetBit(y3, 4, on);
    var r4 := [BitWrite(NBit(ONE_BYTE, 5), on)];
    var r3 := [BitWrite(NBit(ONE_BYTE, 4), on)] + r4;
    var r2 := [BitWrite(NBit(ONE_BYTE, 3), on)] + r3;
    var r1 := [BitWrite(NBit(ONE_BYTE, 2), on)] + r2;
    assert ws == [BitWrite(NBit(ONE_BYTE, 1), on)] + r1;
    assert buf == buf[ONE_BYTE := x];
    OneStep(buf, x, 1, on, r1);
    OneStep(buf, y1, 2, on, r2);
    OneStep(buf, y2, 3, on, r3);
    OneStep(buf, y3, 4, on, r4);
    OneStep(buf, y4, 5, on, []);
    assert r4 == [BitWrite(NBit(ONE_BYTE, 5), on)] + [];
    OneMaskByte(x, on);
  }

  /** A write to bit k of byte 15 updates that byte alone. */
  lemma OneStep(buf: seq<bv8>, y: bv8, k: nat, on: bool, rest: seq<BitWrite>)
    requires |buf| == DISPLAY_BUFF_LEN && 1 <= k <= 5
    ensures WriteBits(buf[ONE_BYTE := y], [BitWrite(NBit(ONE_BYTE, k), on)] + rest)
      == WriteBits(buf[ONE_BYTE := SetBit(y, k, on)], rest)
  {
    var w := BitWrite(NBit(ONE_BYTE, k), on);
    WriteBitsCons(buf[ONE_BYTE := y], w, rest);
    assert NBit(ONE_BYTE, k) / 8 == ONE_BYTE && NBit(ONE_BYTE, k) % 8 == k;
    assert WithBit(buf[ONE_BYTE := y], w.bit, on) == buf[ONE_BYTE := SetBit(y, k, on)];
  }

  // ---------------------------------------------------------------------
  // The e-paper link and the refresh stage machine
  // ---------------------------------------------------------------------

  /** The controller commands `task_lcd` sends (their codes are not part of this model). */
  datatype EpdCmd =
    | PowerOn | PanelSetting | PowerSetting | PowerOffSequenceSetting | PllControl
    | PartialDisplayRefresh | LutForVcom | LutCmd23 | LutCmd24 | LutCmd25 | LutCmd26
    | DataStartTransmission1 | DisplayRefresh | PowerOff

  /** One `transmit(cd, byte)`: a command (cd = 0) or a data byte (cd = 1). */
  datatype Tx = Cmd(cmd: EpdCmd) | Data(b: bv8)

  const T_LUTV_INIT: seq<bv8> := [0x47, 0x47, 0x01, 0x87, 0x87, 0x01, 0x47, 0x47, 0x01, 0x87, 0x87, 0x01, 0x81, 0x81, 0x01]
  const T_LUT_KK_INIT: seq<bv8> := [0x87, 0x87, 0x01, 0x87, 0x87, 0x01, 0x47, 0x47, 0x01, 0x47, 0x47, 0x01, 0x81, 0x81, 0x01]
  const T_LUT_KW_INIT: seq<bv8> := [0x47, 0x47, 0x01, 0x47, 0x47, 0x01, 0x87, 0x87, 0x01, 0x87, 0x87, 0x01, 0x81, 0x81, 0x01]
  const T_LUT_KK_UPDATE: seq<bv8> := [0x87, 0x87, 0x01, 0x87, 0x87, 0x01, 0x87, 0x87, 0x01, 0x87, 0x87, 0x01, 0x81, 0x81, 0x01]
  const T_LUT_KW_UPDATE: seq<bv8> := [0x47, 0x47, 0x01, 0x47, 0x47, 0x01, 0x47, 0x47, 0x01, 0x47, 0x47, 0x01, 0x81, 0x81, 0x01]

  function DataTx(bytes: seq<bv8>): (tx: seq<Tx>)
    ensures |tx| == |bytes| && forall k :: 0 <= k < |bytes| ==> tx[k] == Data(bytes[k])
  {
    seq(|bytes|, k requires 0 <= k < |bytes| => Data(bytes[k]))
  }

  /** The frame: every buffer byte inverted, in order (the panel's ink is the complement). */
  function FrameTx(frame: seq<bv8>): (tx: seq<Tx>)
    ensures |tx| == |frame|
  {
    DataTx(seq(|frame|, k requires 0 <= k < |frame| => frame[k] ^ 0xFF))
  }

  /** What the panel receives as a frame, inverted back. */
  function FrameBytes(tx: seq<Tx>): seq<bv8>
  {
    seq(|tx|, k requires 0 <= k < |tx| => if tx[k].Data? then tx[k].b ^ 0xFF else 0)
  }

  lemma FrameRoundTrip(frame: seq<bv8>)
    ensures FrameBytes(FrameTx(frame)) == frame
  {
    var tx := FrameTx(frame);
    forall k | 0 <= k < |frame|
      ensures FrameBytes(tx)[k] == frame[k]
    {
      assert tx[k] == Data(frame[k] ^ 0xFF);
      Xor255Twice(frame[k]);
    }
  }

  lemma Xor255Twice(x: bv8)
    ensures (x ^ 0xFF) ^ 0xFF == x
  {
  }

  /** The controller set-up of stage 2: full-init waveforms, or partial-update waveforms. */
  function SetupTx(init: bool): seq<Tx>
  {
    [Cmd(PanelSetting), Data(0x0F), Cmd(PowerSetting), Data(0x32), Data(0x32),
     Cmd(PowerOffSequenceSetting), Data(0x00), Cmd(PllControl)]
    + (if init then [Data(0x03)]
       else [Data(0x07), Cmd(PartialDisplayRefresh), Data(0x00), Data(0x87), Data(0x01),
             Cmd(PowerOffSequenceSetting), Data(0x06)])
    + [Cmd(LutForVcom)] + DataTx(T_LUTV_INIT)
    + (if init then [Cmd(LutCmd23)] + DataTx(T_LUT_KK_INIT) + [Cmd(LutCmd26)] + DataTx(T_LUT_KW_INIT)
       else ([Cmd(LutCmd23)] + DataTx(T_LUTV_INIT) + [Cmd(LutCmd24)] + DataTx(T_LUT_KK_UPDATE)
             + [Cmd(LutCmd25)] + DataTx(T_LUT_KW_UPDATE) + [Cmd(LutCmd26)] + DataTx(T_LUTV_INIT)))
  }

  /** The driver statics `stage_lcd`, `flg_lcd_init`, `lcd_refresh_cnt` and `epd_updated`. */
  datatype EpdState = EpdState(stage: u8, flgLcdInit: bool, refreshCnt: u8, epdUpdated: bool)

  /** The state `display_init` leaves: a full initialisation starting at stage 1. */
  const INIT_STATE: EpdState := EpdState(1, true, DEF_EPD_REFRESH_CNT, false)

  /**
   * One `task_lcd` with BUSY high. Stage 1 powers on; stage 2 sends the
   * set-up (unless the panel was already set up) and the frame; stage 3
   * powers off and marks the panel set up; anything else stops.
   */
  function TaskStep(s: EpdState): (t: EpdState)
    ensures t.refreshCnt == s.refreshCnt && t.stage <= 3
    ensures t.stage != 0 ==> t.stage == s.stage + 1 || (t.stage == 2 && s.flgLcdInit && !t.flgLcdInit)
    ensures s.stage == 3 ==> t.stage == 0 && t.epdUpdated
  {
    if s.stage == 1 then s.(stage := 2)
    else if s.stage == 2 then
      if s.epdUpdated then s.(stage := 3)
      else if s.flgLcdInit then s.(flgLcdInit := false, stage := 2)
      else s.(stage := 3)
    else if s.stage == 3 then s.(epdUpdated := true, stage := 0)
    else s.(stage := 0)
  }

  /** The bytes one `task_lcd` with BUSY high sends; `frame` is `display_buff` at that moment. */
  function TaskTx(s: EpdState, frame: seq<bv8>): seq<Tx>
  {
    if s.stage == 1 then [Cmd(PowerOn)]
    else if s.stage == 2 then
      (if s.epdUpdated then [] else SetupTx(s.flgLcdInit))
      + [Cmd(DataStartTransmission1)] + FrameTx(frame) + [Cmd(DisplayRefresh)]
    else if s.stage == 3 then [Cmd(PowerOff), Data(0x03)]
    else []
  }

  /** Stage 2 always ends with the inverted frame and the refresh command; a set-up panel gets nothing else. */
  lemma Stage2SendsFrame(s: EpdState, frame: seq<bv8>)
    requires s.stage == 2
    ensures var tx := TaskTx(s, frame);
      var n := |tx|;
      n >= |frame| + 2 && tx[n - |frame| - 2] == Cmd(DataStartTransmission1)
      && tx[n - |frame| - 1..n - 1] == FrameTx(frame) && tx[n - 1] == Cmd(DisplayRefresh)
    ensures s.epdUpdated ==> TaskTx(s, frame) == [Cmd(DataStartTransmission1)] + FrameTx(frame) + [Cmd(DisplayRefresh)]
  {
    var pre := (if s.epdUpdated then [] else SetupTx(s.flgLcdInit)) + [Cmd(DataStartTransmission1)];
    assert TaskTx(s, frame) == pre + FrameTx(frame) + [Cmd(DisplayRefresh)];
  }

  /** `task_lcd` called k times with BUSY high. */
  function Steps(s: EpdState, k: nat): EpdState
    decreases k
  {
    if k == 0 then s else Steps(TaskStep(s), k - 1)
  }

  /**
   * With BUSY high every time, four calls of `task_lcd` end any refresh:
   * a partial refresh takes three (stages 1, 2, 3), a full one four (stage 2
   * twice), and either leaves the panel marked set up.
   */
  lemma TaskReachesIdle(s: EpdState)
    ensures Steps(s, 4).stage == 0
    ensures s.stage == 1 && !s.flgLcdInit ==> Steps(s, 3).stage == 0 && Steps(s, 3).epdUpdated
    ensures s == INIT_STATE ==> Steps(s, 3).stage != 0 && Steps(s, 4).stage == 0 && Steps(s, 4).epdUpdated
  {
    var s1 := TaskStep(s);
    var s2 := TaskStep(s1);
    var s3 := TaskStep(s2);
    assert Steps(s, 3) == Steps(s1, 2) == Steps(s2, 1) == Steps(s3, 0);
    assert Steps(s, 4) == Steps(s3, 1);
  }

  /** `display_async_refresh` starting a refresh: a partial one while the count lasts, else `display_init`. */
  function RefreshStart(s: EpdState): (t: EpdState)
    ensures t.stage == 1
  {
    if s.refreshCnt > 0 then s.(refreshCnt := s.refreshCnt - 1, flgLcdInit := false, stage := 1)
    else INIT_STATE
  }

  /** A refresh started and run to the end with BUSY high. */
  function Cycle(s: EpdState): EpdState
  {
    Steps(RefreshStart(s), 4)
  }

  function Cycles(s: EpdState, k: nat): EpdState
  {
    if k == 0 then s else Cycle(Cycles(s, k - 1))
  }

  lemma {:induction false} StepsKeepCount(s: EpdState, k: nat)
    ensures Steps(s, k).refreshCnt == s.refreshCnt
    decreases k
  {
    if k > 0 {
      StepsKeepCount(TaskStep(s), k - 1);
    }
  }

  lemma {:induction false} CyclesCount(s: EpdState, k: nat)
    requires k <= s.refreshCnt
    ensures Cycles(s, k).refreshCnt == s.refreshCnt - k
  {
    if k > 0 {
      CyclesCount(s, k - 1);
      StepsKeepCount(RefreshStart(Cycles(s, k - 1)), 4);
    }
  }

  /**
   * With n refreshes left on the count, the next n refreshes are partial and
   * the one after them is a full initialisation: after `display_init`, 32
   * partial refreshes, then a full one.
   */
  lemma RefreshCountdown(s: EpdState)
    ensures forall k :: 0 <= k < s.refreshCnt ==> !RefreshStart(Cycles(s, k)).flgLcdInit
    ensures RefreshStart(Cycles(s, s.refreshCnt as nat)) == INIT_STATE
  {
    forall k | 0 <= k < s.refreshCnt
      ensures !RefreshStart(Cycles(s, k)).flgLcdInit
    {
      CyclesCount(s, k);
    }
    CyclesCount(s, s.refreshCnt as nat);
  }

  /** The driver statics and the two buffers. */
  class Cgg1Display {
    /** `display_buff`, which `display_render_bit` writes. */
    var buff: array<bv8>
    /** `display_cmp_buff`: the buffer contents of the last refresh started. */
    var cmp: array<bv8>
    var stageLcd: u8
    var flgLcdInit: bool
    var lcdRefreshCnt: u8
    var epdUpdated: bool

    ghost predicate Valid()
      reads this
    {
      buff.Length == DISPLAY_BUFF_LEN && cmp.Length == DISPLAY_BUFF_LEN && buff != cmp
    }

    function State(): EpdState
      reads this
    {
      EpdState(stageLcd, flgLcdInit, lcdRefreshCnt, epdUpdated)
    }

    /** The statics as they start out, zero. */
    constructor (displayBuff: array<bv8>)
      requires displayBuff.Length == DISPLAY_BUFF_LEN
      ensures Valid() && buff == displayBuff && fresh(cmp)
      ensures State() == EpdState(0, false, 0, false)
    {
      buff := displayBuff;
      cmp := new bv8[DISPLAY_BUFF_LEN];
      stageLcd, flgLcdInit, lcdRefreshCnt, epdUpdated := 0, false, 0, false;
    }

    /** `display_init`: the reset pulse, then a full initialisation pending. */
    method DisplayInit()
      modifies this
      ensures State() == INIT_STATE
      ensures buff == old(buff) && cmp == old(cmp)
    {
      lcdRefreshCnt := DEF_EPD_REFRESH_CNT;
      stageLcd := 1;
      epdUpdated := false;
      flgLcdInit := true;
    }

    /** The frame loop of stage 2. */
    method SendFrame() returns (tx: seq<Tx>)
      requires Valid()
      ensures tx == FrameTx(buff[..])
    {
      tx := [];
      var i := 0;
      while i < buff.Length
        invariant 0 <= i <= buff.Length
        invariant |tx| == i && forall k :: 0 <= k < i ==> tx[k] == Data(buff[k] ^ 0xFF)
      {
        tx := tx + [Data(buff[i] ^ 0xFF)];
        i := i + 1;
      }
    }

    /** `task_lcd` with the BUSY line reading `busy`; it returns the new stage. */
    method TaskLcd(busy: bool) returns (stage: u8, tx: seq<Tx>)
      requires Valid()
      modifies this
      ensures Valid() && buff == old(buff) && cmp == old(cmp)
      ensures busy ==> State() == TaskStep(old(State())) && tx == TaskTx(old(State()), buff[..])
      ensures !busy ==> State() == old(State()) && tx == []
      ensures stage == stageLcd
    {
      tx := [];
      if busy {
        if stageLcd == 1 {
          tx := [Cmd(PowerOn)];
          stageLcd := 2;
        } else if stageLcd == 2 {
          if !epdUpdated {
            tx := SetupTx(flgLcdInit);
            if flgLcdInit {
              flgLcdInit := false;
              stageLcd := 2;
            } else {
              stageLcd := 3;
            }
          } else {
            stageLcd := 3;
          }
          var frame := SendFrame();
          tx := tx + [Cmd(DataStartTransmission1)] + frame + [Cmd(DisplayRefresh)];
        } else if stageLcd == 3 {
          tx := [Cmd(PowerOff), Data(0x03)];
          epdUpdated := true;
          stageLcd := 0;
        } else {
          stageLcd := 0;
        }
      }
      stage := stageLcd;
    }

    /**
     * `display_async_refresh`. When idle and the buffer differs from the
     * copy of the last refresh, the copy is updated and a refresh started;
     * then a pending refresh is advanced by one `task_lcd`.
     */
    method AsyncRefresh(busy: bool) returns (tx: seq<Tx>)
      requires Valid()
      modifies this, cmp
      ensures Valid() && buff == old(buff) && cmp == old(cmp) && buff[..] == old(buff[..])
      ensures var start := old(State()).stage == 0 && old(cmp[..]) != buff[..];
        var s1 := if start then RefreshStart(old(State())) else old(State());
        cmp[..] == (if start then buff[..] else old(cmp[..]))
        && (s1.stage != 0 && busy ==> State() == TaskStep(s1) && tx == TaskTx(s1, buff[..]))
        && (s1.stage == 0 || !busy ==> State() == s1 && tx == [])
    {
      if stageLcd == 0 && cmp[..] != buff[..] {
        forall k | 0 <= k < cmp.Length {
          cmp[k] := buff[k];
        }
        if lcdRefreshCnt > 0 {
          lcdRefreshCnt := lcdRefreshCnt - 1;
          flgLcdInit := false;
          stageLcd := 1;
        } else {
          DisplayInit();
        }
      }
      tx := [];
      if stageLcd != 0 {
        var stage;
        stage, tx := TaskLcd(busy);
      }
    }

    /** `render_top_leftmost_one`: bits 1..5 of byte 15 set or cleared together. */
    method RenderTopLeftmostOne(on: bool)
      requires Valid()
      modifies buff
      ensures buff[..] == old(buff[..])[ONE_BYTE := if on then old(buff[ONE_BYTE]) | ONE_MASK else old(buff[ONE_BYTE]) & !ONE_MASK]
      ensures buff[..] == WriteBits(old(buff[..]), OneWrites(ONE_BITS, on))
    {
      OneIsMask(buff[..], on);
      if on {
        buff[ONE_BYTE] := buff[ONE_BYTE] | ONE_MASK;
      } else {
        buff[ONE_BYTE] := buff[ONE_BYTE] & !ONE_MASK;
      }
    }

    /** `display_temp_symbol`. */
    method TempSymbol(symbol: u8)
      requires Valid()
      modifies buff
      ensures buff[..] == WriteBits(old(buff[..]), TempSymbolWrites(symbol))
    {
      RenderBits(buff, TempSymbolWrites(symbol));
    }

    /** `display_battery_symbol`. */
    method BatterySymbol(state: bool, level: u8)
      requires Valid()
      modifies buff
      ensures buff[..] == WriteBits(old(buff[..]), BatteryWrites(state, level))
    {
      RenderBits(buff, BatteryWrites(state, level));
    }

    /** `display_ble_symbol`. */
    method BleSymbol(state: bool)
      requires Valid()
      modifies buff
      ensures buff[..] == WithBit(old(buff[..]), SYM_BLUETOOTH, state)
    {
      RenderBit(buff, SYM_BLUETOOTH, state);
    }

    /** `display_big_number_x10`: the top row, with its leftmost one. */
    method BigNumber(number: i16)
      requires Valid()
      modifies buff
      ensures buff[..] == WriteBits(old(buff[..]), BigNumberWrites(number))
    {
      RenderRow(buff, TOP_ROW, Render(true, number));
    }

    /** `display_small_number_x10`: the bottom row, then the percent sign. */
    method SmallNumber(number: i16, percent: bool)
      requires Valid()
      modifies buff
      ensures buff[..] == WriteBits(old(buff[..]), SmallNumberWrites(number, percent))
    {
      ghost var start := buff[..];
      RenderRow(buff, BOTTOM_ROW, Render(false, number));
      RenderBit(buff, SYM_PERCENTAGE, percent);
      WriteBitsAppend(start, RowWrites(BOTTOM_ROW, Render(false, number)), BitWrite(SYM_PERCENTAGE, percent));
    }
  }
}
