/**
 * `display_render_3cell_number` of `display_3cell_line.c`: a value in tenths
 * drawn on a row of three character cells with a decimal dot between the
 * middle and right cells and, on rows that have one, a leftmost "1" that
 * extends the range to 199.9 or 1999. The callbacks the driver row supplies
 * are modelled by the ordered list of calls the function makes.
 */
module ThreeCellLine {
  import opened Word

  // The display characters (`enum display_char`), in declaration order.
  const CHR_0: nat := 0
  const CHR_L: nat := 10
  const CHR_O: nat := 11
  const CHR_H: nat := 12
  const CHR_I: nat := 13
  const CHR_MINUS: nat := 14
  const CHR_SPACE: nat := 15
  const NUM_CHARS: nat := 16
  const NUM_CELLS: nat := 3

  /** One callback invocation of a row. */
  datatype LineCall =
    | Dot(on: bool)                 // render_decimal_dot
    | One(on: bool)                 // render_leftmost_one (only when the row has one)
    | Cell(index: nat, ch: nat)     // render_cell

  /** The largest value drawn with the dot: 199.9 with a leftmost one, else 99.9. */
  function MaxValue(hasOne: bool): int
  {
    if hasOne then 1999 else 999
  }

  predicate ShowsDot(hasOne: bool, value: int)
  {
    -99 <= value <= MaxValue(hasOne)
  }

  /** The three `render_cell` calls for the value to draw, in the order they are made. */
  function Cells(hasOne: bool, v: int): seq<LineCall>
  {
    if v < -99 then [Cell(0, CHR_L), Cell(1, CHR_O), Cell(2, CHR_SPACE)]
    else if v > MaxValue(hasOne) then [Cell(0, CHR_H), Cell(1, CHR_I), Cell(2, CHR_SPACE)]
    else if v < 0 then [Cell(0, CHR_MINUS), Cell(1, CHR_0 + (-v) / 10), Cell(2, CHR_0 + (-v) % 10)]
    else [Cell(2, CHR_0 + v % 10), Cell(1, CHR_0 + (v / 10) % 10),
          Cell(0, if v / 100 != 0 then CHR_0 + (v / 100) % 10 else CHR_SPACE)]
  }

  /** The decimal dot and, when the row has one, the leftmost one. */
  function Head(hasOne: bool, dot: bool, v: int): seq<LineCall>
  {
    [Dot(dot)] + (if hasOne then [One(1000 <= v <= 1999)] else [])
  }

  /** All calls made once the value to draw is known. */
  function Emit(hasOne: bool, dot: bool, v: int): seq<LineCall>
  {
    Head(hasOne, dot, v) + Cells(hasOne, v)
  }

  /**
   * The value drawn: the input itself when the dot is shown, otherwise the
   * input divided by ten, rounded half away from zero (add +-5, truncate).
   */
  function Scaled(hasOne: bool, value: int): int
  {
    if ShowsDot(hasOne, value) then value
    else CDiv(value + (if value < 0 then -5 else 5), 10)
  }

  /** The rendering with `value += +-5` computed without overflow. */
  function Render(hasOne: bool, value: i16): seq<LineCall>
  {
    Emit(hasOne, ShowsDot(hasOne, value), Scaled(hasOne, value))
  }

  /**
   * The rendering exactly as written: `value += +-5` is stored back into the
   * int16_t parameter, which wraps for |value| near 32767.
   */
  function RenderAsWritten(hasOne: bool, value: i16): seq<LineCall>
  {
    var dot := ShowsDot(hasOne, value);
    var v := if dot then value else CDiv(ToI16(value + (if value < 0 then -5 else 5)), 10);
    Emit(hasOne, dot, v)
  }

  /** The character the last call for cell n drew, or SPACE if none did. */
  function CharAt(calls: seq<LineCall>, n: nat): nat
    decreases |calls|
  {
    if calls == [] then CHR_SPACE
    else
      var c := calls[|calls| - 1];
      if c.Cell? && c.index == n then c.ch else CharAt(calls[..|calls| - 1], n)
  }

  /** The three cells, left to right. */
  function Text(calls: seq<LineCall>): seq<nat>
  {
    [CharAt(calls, 0), CharAt(calls, 1), CharAt(calls, 2)]
  }

  /** The drawn cells, left to right. */
  function CellText(hasOne: bool, v: int): seq<nat>
  {
    if v < -99 then [CHR_L, CHR_O, CHR_SPACE]
    else if v > MaxValue(hasOne) then [CHR_H, CHR_I, CHR_SPACE]
    else if v < 0 then [CHR_MINUS, (-v) / 10, (-v) % 10]
    else [if v / 100 != 0 then (v / 100) % 10 else CHR_SPACE, (v / 10) % 10, v % 10]
  }

  lemma CharAtSnoc(s: seq<LineCall>, c: LineCall, n: nat)
    ensures CharAt(s + [c], n) == if c.Cell? && c.index == n then c.ch else CharAt(s, n)
  {
    assert (s + [c])[..|s|] == s;
  }

  lemma {:induction false} CharAtNoCells(s: seq<LineCall>, n: nat)
    requires forall k :: 0 <= k < |s| ==> !s[k].Cell?
    ensures CharAt(s, n) == CHR_SPACE
    decreases |s|
  {
    if s != [] {
      CharAtNoCells(s[..|s| - 1], n);
    }
  }

  /** What the three cell calls leave on the row. */
  lemma TextOfEmit(hasOne: bool, dot: bool, v: int)
    ensures Text(Emit(hasOne, dot, v)) == CellText(hasOne, v)
  {
    var h := Head(hasOne, dot, v);
    var c := Cells(hasOne, v);
    assert Emit(hasOne, dot, v) == ((h + [c[0]]) + [c[1]]) + [c[2]];
    forall n: nat | n < 3
      ensures CharAt(Emit(hasOne, dot, v), n) == CellText(hasOne, v)[n]
    {
      CharAtNoCells(h, n);
      CharAtSnoc(h, c[0], n);
      CharAtSnoc(h + [c[0]], c[1], n);
      CharAtSnoc((h + [c[0]]) + [c[1]], c[2], n);
    }
  }

  /**
   * Every call renders the dot once, the leftmost one once when the row has
   * it, then cells 0, 1 and 2 once each, with characters below NUM_CHARS.
   * The dot is on iff -99 <= value <= max; the one is on iff the value drawn
   * lies in [1000, 1999], i.e. the input is in [1000, 1999] or [9995, 19994].
   */
  lemma RenderShape(hasOne: bool, value: i16)
    ensures var calls := Render(hasOne, value);
      var off := if hasOne then 2 else 1;
      |calls| == off + 3
      && calls[0] == Dot(-99 <= value <= MaxValue(hasOne))
      && (hasOne ==> calls[1] == One(1000 <= value <= 1999 || 9995 <= value <= 19994))
      && (forall k :: off <= k < |calls| ==> calls[k].Cell? && calls[k].ch < NUM_CHARS)
      && {calls[off].index, calls[off + 1].index, calls[off + 2].index} == {0, 1, 2}
  {
  }

  /**
   * The row reads "Lo" iff the input is at most -995 (-99.5 rounds to -100),
   * and "Hi" iff it is at least 19995 with a leftmost one or 9995 without.
   */
  lemma RenderLoHi(hasOne: bool, value: i16)
    ensures Text(Render(hasOne, value)) == [CHR_L, CHR_O, CHR_SPACE] <==> value <= -995
    ensures Text(Render(hasOne, value)) == [CHR_H, CHR_I, CHR_SPACE] <==>
      value >= (if hasOne then 19995 else 9995)
  {
    TextOfEmit(hasOne, ShowsDot(hasOne, value), Scaled(hasOne, value));
  }

  /** Outside the dot range the input is divided by ten, rounded half away from zero. */
  lemma ScaledRoundsHalfAwayFromZero(hasOne: bool, value: int)
    requires !ShowsDot(hasOne, value)
    ensures var v := Scaled(hasOne, value);
      (value >= 0 ==> 10 * v - 5 <= value < 10 * v + 5)
      && (value < 0 ==> 10 * v - 5 < value <= 10 * v + 5)
  {
  }

  /** Reads a row back: sign or hundreds digit, tens, units, and the leftmost one. */
  function Decode(hasOne: bool, calls: seq<LineCall>): int
  {
    var t := Text(calls);
    var one := if hasOne && |calls| > 1 && calls[1] == One(true) then 1000 else 0;
    var low: int := 10 * t[1] + t[2];
    if t[0] == CHR_MINUS then -low
    else one + (if t[0] == CHR_SPACE then 0 else 100 * t[0]) + low
  }

  /** A value in the dot range of the row reads back as itself. */
  lemma DecodeEmit(hasOne: bool, dot: bool, v: int)
    requires -99 <= v <= MaxValue(hasOne)
    ensures Decode(hasOne, Emit(hasOne, dot, v)) == v
  {
    TextOfEmit(hasOne, dot, v);
    var calls := Emit(hasOne, dot, v);
    assert hasOne ==> calls[1] == One(1000 <= v <= 1999);
    if v >= 1000 {
      assert v / 100 - 10 == (v / 100) % 10;
    } else if v >= 0 {
      assert v == 100 * (v / 100) + 10 * ((v / 10) % 10) + v % 10;
    }
  }

  /** Between Lo and Hi the row reads back as the value drawn. */
  lemma RenderDecodes(hasOne: bool, value: i16)
    requires -995 < value < (if hasOne then 19995 else 9995)
    ensures Decode(hasOne, Render(hasOne, value)) == Scaled(hasOne, value)
  {
    DecodeEmit(hasOne, ShowsDot(hasOne, value), Scaled(hasOne, value));
  }

  /** The documented examples on a row with a leftmost one. */
  lemma DocumentedExamplesWithOne()
    ensures Text(Render(true, 19995)) == [CHR_H, CHR_I, CHR_SPACE]
    ensures Render(true, 19994) == [Dot(false), One(true), Cell(2, 9), Cell(1, 9), Cell(0, 9)]
  {
    RenderLoHi(true, 19995);
  }

  /** The documented examples on a row without one. */
  lemma DocumentedExamplesWithoutOne()
    ensures Text(Render(false, 19994)) == [CHR_H, CHR_I, CHR_SPACE]
    ensures Render(false, 9994) == [Dot(false), Cell(2, 9), Cell(1, 9), Cell(0, 9)]
    ensures Render(false, 999) == [Dot(true), Cell(2, 9), Cell(1, 9), Cell(0, 9)]
    ensures Render(false, -99) == [Dot(true), Cell(0, CHR_MINUS), Cell(1, 9), Cell(2, 9)]
    ensures Render(false, -994) == [Dot(false), Cell(0, CHR_MINUS), Cell(1, 9), Cell(2, 9)]
    ensures Text(Render(false, -995)) == [CHR_L, CHR_O, CHR_SPACE]
  {
    RenderLoHi(false, 19994);
    RenderLoHi(false, -995);
  }

  /** As written, the int16 wrap turns the largest values into "Lo" and the smallest into "Hi". */
  lemma AsWrittenWrapsAtEdges(hasOne: bool)
    ensures Text(RenderAsWritten(hasOne, 32767)) == [CHR_L, CHR_O, CHR_SPACE]
    ensures Text(Render(hasOne, 32767)) == [CHR_H, CHR_I, CHR_SPACE]
    ensures Text(RenderAsWritten(hasOne, -32768)) == [CHR_H, CHR_I, CHR_SPACE]
    ensures Text(Render(hasOne, -32768)) == [CHR_L, CHR_O, CHR_SPACE]
  {
    TextOfEmit(hasOne, false, CDiv(ToI16(32772), 10));
    TextOfEmit(hasOne, false, CDiv(ToI16(-32773), 10));
    RenderLoHi(hasOne, 32767);
    RenderLoHi(hasOne, -32768);
  }

  /** Away from the five values at each end the two renderings agree. */
  lemma AsWrittenAgreesInside(hasOne: bool, value: i16)
    requires -32763 <= value <= 32762
    ensures RenderAsWritten(hasOne, value) == Render(hasOne, value)
  {
  }
}
