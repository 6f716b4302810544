/**
 * `display_13seg_cell.c`: the segment bitmap of every display character
 * and `display_render_13seg_char`, which writes the 13 segments of one cell
 * through `display_render_bit`, segment k taking bit k of the bitmap.
 */
module SegmentCell {
  import opened Word
  import opened DisplayCommon
  import opened ThreeCellLine

  // The segments of a cell (`enum display_13seg_cell_segment`), named
  // SEG_<row><column>, row 1 at the bottom, columns Left, Middle, Right.
  const SEG_1L: nat := 0
  const SEG_2L: nat := 1
  const SEG_3L: nat := 2
  const SEG_4L: nat := 3
  const SEG_5L: nat := 4
  const SEG_1M: nat := 5
  const SEG_3M: nat := 6
  const SEG_5M: nat := 7
  const SEG_1R: nat := 8
  const SEG_2R: nat := 9
  const SEG_3R: nat := 10
  const SEG_4R: nat := 11
  const SEG_5R: nat := 12
  const NUM_SEGMENTS: nat := 13

  function Bit(k: nat): bv16
    requires k < 16
  {
    (1 as bv16) << k
  }

  /** `char_segment_bitmap`, indexed by character (bit k lights segment k). */
  const BITMAPS: seq<bv16> := [
    0x0EAE, 0x1F00, 0x08E2, 0x0AE0, 0x0F58, 0x02FC, 0x02EE, 0x1F80,  // CHR_0 .. CHR_7
    0x0AEA, 0x0FC8, 0x012E, 0x0262, 0x1F5F, 0x0013, 0x0040, 0x0000   // CHR_8, CHR_9, L, o, H, i, -, space
  ]

  function Bitmap(c: nat): bv16
    requires c < NUM_CHARS
  {
    BITMAPS[c]
  }

  lemma SegmentBits()
    ensures Bit(SEG_1L) == 0x0001
    ensures Bit(SEG_2L) == 0x0002
    ensures Bit(SEG_3L) == 0x0004
    ensures Bit(SEG_4L) == 0x0008
    ensures Bit(SEG_5L) == 0x0010
    ensures Bit(SEG_1M) == 0x0020
    ensures Bit(SEG_3M) == 0x0040
    ensures Bit(SEG_5M) == 0x0080
    ensures Bit(SEG_1R) == 0x0100
    ensures Bit(SEG_2R) == 0x0200
    ensures Bit(SEG_3R) == 0x0400
    ensures Bit(SEG_4R) == 0x0800
    ensures Bit(SEG_5R) == 0x1000
  {
  }

  /** The table entries are the segment sets the source lists for each character. */
  lemma BitmapsFromSegments()
    ensures BITMAPS[CHR_0] == Bit(SEG_1M) | Bit(SEG_2L) | Bit(SEG_2R) | Bit(SEG_3L) | Bit(SEG_3R) | Bit(SEG_4L) | Bit(SEG_4R) | Bit(SEG_5M)
    ensures BITMAPS[CHR_0 + 1] == Bit(SEG_1R) | Bit(SEG_2R) | Bit(SEG_3R) | Bit(SEG_4R) | Bit(SEG_5R)
    ensures BITMAPS[CHR_0 + 2] == Bit(SEG_1M) | Bit(SEG_2L) | Bit(SEG_3M) | Bit(SEG_4R) | Bit(SEG_5M)
    ensures BITMAPS[CHR_0 + 3] == Bit(SEG_1M) | Bit(SEG_2R) | Bit(SEG_3M) | Bit(SEG_4R) | Bit(SEG_5M)
    ensures BITMAPS[CHR_0 + 4] == Bit(SEG_1R) | Bit(SEG_2R) | Bit(SEG_3M) | Bit(SEG_3R) | Bit(SEG_4L) | Bit(SEG_4R) | Bit(SEG_5L)
    ensures BITMAPS[CHR_0 + 5] == Bit(SEG_1M) | Bit(SEG_2R) | Bit(SEG_3L) | Bit(SEG_3M) | Bit(SEG_4L) | Bit(SEG_5L) | Bit(SEG_5M)
    ensures BITMAPS[CHR_0 + 6] == Bit(SEG_1M) | Bit(SEG_2R) | Bit(SEG_2L) | Bit(SEG_3L) | Bit(SEG_3M) | Bit(SEG_4L) | Bit(SEG_5M)
    ensures BITMAPS[CHR_0 + 7] == Bit(SEG_1R) | Bit(SEG_2R) | Bit(SEG_3R) | Bit(SEG_4R) | Bit(SEG_5M) | Bit(SEG_5R)
    ensures BITMAPS[CHR_0 + 8] == Bit(SEG_1M) | Bit(SEG_2L) | Bit(SEG_2R) | Bit(SEG_3M) | Bit(SEG_4L) | Bit(SEG_4R) | Bit(SEG_5M)
    ensures BITMAPS[CHR_0 + 9] == Bit(SEG_1R) | Bit(SEG_2R) | Bit(SEG_3M) | Bit(SEG_3R) | Bit(SEG_4L) | Bit(SEG_4R) | Bit(SEG_5M)
    ensures BITMAPS[CHR_L] == Bit(SEG_1R) | Bit(SEG_1M) | Bit(SEG_2L) | Bit(SEG_3L) | Bit(SEG_4L)
    ensures BITMAPS[CHR_O] == Bit(SEG_1M) | Bit(SEG_2L) | Bit(SEG_2R) | Bit(SEG_3M)
    ensures BITMAPS[CHR_H] == Bit(SEG_1L) | Bit(SEG_1R) | Bit(SEG_2L) | Bit(SEG_2R) | Bit(SEG_3L) | Bit(SEG_3M) | Bit(SEG_3R) | Bit(SEG_4L) | Bit(SEG_4R) | Bit(SEG_5L) | Bit(SEG_5R)
    ensures BITMAPS[CHR_I] == Bit(SEG_1L) | Bit(SEG_2L) | Bit(SEG_5L)
    ensures BITMAPS[CHR_MINUS] == Bit(SEG_3M)
    ensures BITMAPS[CHR_SPACE] == 0
  {
    SegmentBits();
  }

  /** The bitmap of c shifted right k times (`bitmap >>= 1` repeated). */
  function Shifted(c: nat, k: nat): bv16
    requires c < NUM_CHARS
  {
    if k == 0 then Bitmap(c) else Shifted(c, k - 1) >> 1
  }

  lemma ShiftedStep(c: nat, k: nat)
    requires c < NUM_CHARS
    ensures Shifted(c, k + 1) == Shifted(c, k) >> 1
  {
  }

  /** Whether character c lights segment k: bit k of its bitmap. */
  predicate Lit(c: nat, k: nat)
    requires c < NUM_CHARS
  {
    Shifted(c, k) & 1 == 1
  }

  /** Every bitmap uses only the 13 segment bits, and SPACE lights nothing. */
  lemma BitmapsFit(c: nat)
    requires c < NUM_CHARS
    ensures Bitmap(c) < 0x2000
    ensures Bitmap(CHR_SPACE) == 0
  {
  }

  /** No two characters share a bitmap, so a cell always reads back as the character drawn. */
  lemma BitmapsDistinct(c1: nat, c2: nat)
    requires c1 < NUM_CHARS && c2 < NUM_CHARS && c1 != c2
    ensures Bitmap(c1) != Bitmap(c2)
  {
  }

  /** A blank bitmap stays blank however far it is shifted. */
  lemma {:induction false} ShiftedBlank(c: nat, k: nat)
    requires c < NUM_CHARS && Bitmap(c) == 0
    ensures Shifted(c, k) == 0
  {
    if k > 0 {
      ShiftedBlank(c, k - 1);
    }
  }

  /** The `display_render_bit` calls drawing c into the cell at positions `segs`. */
  function CharWrites(segs: seq<u8>, c: nat): (ws: seq<BitWrite>)
    requires |segs| == NUM_SEGMENTS
    ensures c < NUM_CHARS ==> |ws| == NUM_SEGMENTS
    ensures c < NUM_CHARS ==> forall k :: 0 <= k < NUM_SEGMENTS ==> ws[k] == BitWrite(segs[k], Lit(c, k))
    ensures c >= NUM_CHARS ==> ws == []
  {
    if c < NUM_CHARS then seq(NUM_SEGMENTS, k requires 0 <= k < NUM_SEGMENTS => BitWrite(segs[k], Lit(c, k)))
    else []
  }

  /**
   * With 13 distinct positions inside the buffer, drawing c leaves segment k
   * lit iff bit k of c's bitmap is set, and every other position as it was.
   */
  lemma CharReadBack(buf: seq<bv8>, segs: seq<u8>, c: nat, pos: nat)
    requires |segs| == NUM_SEGMENTS && c < NUM_CHARS
    requires forall i, j :: 0 <= i < j < NUM_SEGMENTS ==> segs[i] != segs[j]
    requires forall i :: 0 <= i < NUM_SEGMENTS ==> segs[i] / 8 < |buf|
    ensures forall k :: 0 <= k < NUM_SEGMENTS ==>
      (BitOf(WriteBits(buf, CharWrites(segs, c)), segs[k]) <==> Lit(c, k))
    ensures (forall k :: 0 <= k < NUM_SEGMENTS ==> segs[k] != pos) ==>
      (BitOf(WriteBits(buf, CharWrites(segs, c)), pos) <==> BitOf(buf, pos))
  {
    var ws := CharWrites(segs, c);
    forall k | 0 <= k < NUM_SEGMENTS
      ensures BitOf(WriteBits(buf, ws), segs[k]) <==> Lit(c, k)
    {
      WriteBitsReadBack(buf, ws, segs[k]);
      LastWriteUnique(ws, segs[k], k);
    }
    WriteBitsReadBack(buf, ws, pos);
  }

  /** Drawing SPACE clears all 13 positions of the cell. */
  lemma SpaceClears(buf: seq<bv8>, segs: seq<u8>)
    requires |segs| == NUM_SEGMENTS
    requires forall i, j :: 0 <= i < j < NUM_SEGMENTS ==> segs[i] != segs[j]
    requires forall i :: 0 <= i < NUM_SEGMENTS ==> segs[i] / 8 < |buf|
    ensures forall k :: 0 <= k < NUM_SEGMENTS ==> !BitOf(WriteBits(buf, CharWrites(segs, CHR_SPACE)), segs[k])
  {
    CharReadBack(buf, segs, CHR_SPACE, 0);
    forall k | 0 <= k < NUM_SEGMENTS
      ensures !Lit(CHR_SPACE, k)
    {
      ShiftedBlank(CHR_SPACE, k);
    }
  }

  /** display_render_13seg_char(cell, c) on the display buffer. */
  method RenderChar(buff: array<bv8>, segs: seq<u8>, c: nat)
    requires |segs| == NUM_SEGMENTS
    modifies buff
    ensures buff[..] == WriteBits(old(buff[..]), CharWrites(segs, c))
  {
    if c < NUM_CHARS {
      ghost var start := buff[..];
      ghost var ws := CharWrites(segs, c);
      var bitmap := Bitmap(c);
      var i := 0;
      var segment := NUM_SEGMENTS;
      while segment != 0
        invariant 0 <= segment <= NUM_SEGMENTS && i == NUM_SEGMENTS - segment
        invariant bitmap == Shifted(c, i)
        invariant buff[..] == WriteBits(start, ws[..i])
      {
        WriteBitsPrefix(start, ws, i);
        ShiftedStep(c, i);
        RenderBit(buff, segs[i], bitmap & 1 == 1);
        bitmap := bitmap >> 1;
        i := i + 1;
        segment := segment - 1;
      }
      assert ws[..NUM_SEGMENTS] == ws;
    }
  }

  /**
   * The callbacks of a `display_3cell_line` on a segment panel: the three
   * cells' segment positions, the decimal dot's position, and the positions
   * that together form the leftmost one (none on a row without one).
   */
  datatype Row = Row(cells: seq<seq<u8>>, dot: u8, one: seq<u8>)

  predicate WellFormedRow(row: Row)
  {
    |row.cells| == NUM_CELLS && forall i :: 0 <= i < NUM_CELLS ==> |row.cells[i]| == NUM_SEGMENTS
  }

  /** Every position of the leftmost one set to `on`. */
  function OneWrites(bits: seq<u8>, on: bool): (ws: seq<BitWrite>)
    ensures |ws| == |bits| && forall k :: 0 <= k < |bits| ==> ws[k] == BitWrite(bits[k], on)
  {
    seq(|bits|, k requires 0 <= k < |bits| => BitWrite(bits[k], on))
  }

  /** The bit writes one callback makes. */
  function CallWrites(row: Row, c: LineCall): seq<BitWrite>
    requires WellFormedRow(row)
  {
    match c
    case Dot(on) => [BitWrite(row.dot, on)]
    case One(on) => OneWrites(row.one, on)
    case Cell(i, ch) => if i < NUM_CELLS then CharWrites(row.cells[i], ch) else []
  }

  /** The bit writes a list of callbacks makes, in order. */
  function RowWrites(row: Row, calls: seq<LineCall>): (ws: seq<BitWrite>)
    requires WellFormedRow(row)
    ensures calls == [] ==> ws == []
    decreases |calls|
  {
    if calls == [] then []
    else RowWrites(row, calls[..|calls| - 1]) + CallWrites(row, calls[|calls| - 1])
  }

  /** One callback of a row performed on the display buffer. */
  method RenderCall(buff: array<bv8>, row: Row, c: LineCall)
    requires WellFormedRow(row)
    modifies buff
    ensures buff[..] == WriteBits(old(buff[..]), CallWrites(row, c))
  {
    match c {
      case Dot(on) =>
        RenderBit(buff, row.dot, on);
      case One(on) =>
        RenderBits(buff, OneWrites(row.one, on));
      case Cell(k, ch) =>
        if k < NUM_CELLS {
          RenderChar(buff, row.cells[k], ch);
        }
    }
  }

  /** The callbacks of a row performed on the display buffer, in order. */
  method RenderRow(buff: array<bv8>, row: Row, calls: seq<LineCall>)
    requires WellFormedRow(row)
    modifies buff
    ensures buff[..] == WriteBits(old(buff[..]), RowWrites(row, calls))
  {
    ghost var start := buff[..];
    var i := 0;
    while i < |calls|
      invariant 0 <= i <= |calls|
      invariant buff[..] == WriteBits(start, RowWrites(row, calls[..i]))
    {
      assert calls[..i + 1][..i] == calls[..i];
      WriteBitsConcat(start, RowWrites(row, calls[..i]), CallWrites(row, calls[i]));
      RenderCall(buff, row, calls[i]);
      i := i + 1;
    }
    assert calls[..|calls|] == calls;
  }
}
