/**
 * `display_render_bit` of `display_drv_common.c`: the one primitive every
 * display driver uses to light or clear a segment, a bit position in the
 * display buffer `display_buff` (bit k of the buffer is bit k%8 of byte k/8).
 * Rendering is described as an ordered list of such writes; `RenderBits`
 * performs a list on the buffer.
 */
module DisplayCommon {
  import opened Word

  /** One call `display_render_bit(bit, on)`. */
  datatype BitWrite = BitWrite(bit: u8, on: bool)

  /** `NBIT(byte, bit)`: a bit position in the display buffer. */
  function NBit(byte: nat, bit: nat): u8
    requires byte < 32 && bit < 8
  {
    byte * 8 + bit
  }

  /** Whether bit `mask` of the temperature-symbol byte `symbol` is set. */
  predicate HasBit(symbol: u8, mask: nat)
    requires mask == 0x20 || mask == 0x40 || mask == 0x80
  {
    (symbol / mask) % 2 == 1
  }

  /** The battery levels (percent) at which stripes L1..L5 light, on both panels. */
  const BATTERY_THRESHOLDS: seq<nat> := [16, 33, 49, 67, 83]

  /** BIT(k) as a byte. */
  function Mask(k: nat): bv8
    requires k < 8
  {
    if k == 0 then 0x01 else if k == 1 then 0x02 else if k == 2 then 0x04 else if k == 3 then 0x08
    else if k == 4 then 0x10 else if k == 5 then 0x20 else if k == 6 then 0x40 else 0x80
  }

  /** Whether segment position `pos` is lit in `buf`; positions past the end read as off. */
  predicate BitOf(buf: seq<bv8>, pos: nat)
  {
    pos / 8 < |buf| && buf[pos / 8] & Mask(pos % 8) != 0
  }

  /** A byte with bit k forced to `on`, the other bits kept. */
  function SetBit(x: bv8, k: nat, on: bool): (y: bv8)
    requires k < 8
    ensures y & Mask(k) != 0 <==> on
    ensures forall j :: 0 <= j < 8 && j != k ==> (y & Mask(j) != 0 <==> x & Mask(j) != 0)
  {
    if on then x | Mask(k) else x & !Mask(k)
  }

  /** The buffer after `display_render_bit(bit, on)`. */
  function WithBit(buf: seq<bv8>, bit: u8, on: bool): (r: seq<bv8>)
    ensures |r| == |buf|
  {
    var byte := bit / 8;
    if byte < |buf| then buf[byte := SetBit(buf[byte], bit % 8, on)] else buf
  }

  /** An in-range write sets exactly its own bit: it reads back as written, every other position is unchanged. */
  lemma WithBitEffect(buf: seq<bv8>, bit: u8, on: bool, pos: nat)
    ensures bit / 8 < |buf| ==> (BitOf(WithBit(buf, bit, on), bit) <==> on)
    ensures pos != bit ==> (BitOf(WithBit(buf, bit, on), pos) <==> BitOf(buf, pos))
  {
    var r := WithBit(buf, bit, on);
    if pos != bit && pos / 8 < |buf| && pos / 8 == bit / 8 {
      assert pos % 8 != bit % 8;
      assert r[pos / 8] == SetBit(buf[bit / 8], bit % 8, on);
    }
  }

  /** A position past the end of the buffer is ignored. */
  lemma WithBitOutOfRange(buf: seq<bv8>, bit: u8, on: bool)
    requires bit / 8 >= |buf|
    ensures WithBit(buf, bit, on) == buf
  {
  }

  /** Only the addressed byte can change. */
  lemma WithBitOtherBytes(buf: seq<bv8>, bit: u8, on: bool, i: nat)
    requires i < |buf| && i != bit / 8
    ensures WithBit(buf, bit, on)[i] == buf[i]
  {
  }

  /** Repeating a write changes nothing; of two writes to one position the last wins. */
  lemma WithBitLastWins(buf: seq<bv8>, bit: u8, first: bool, second: bool)
    ensures WithBit(WithBit(buf, bit, first), bit, second) == WithBit(buf, bit, second)
    ensures WithBit(WithBit(buf, bit, second), bit, second) == WithBit(buf, bit, second)
  {
    var byte := bit / 8;
    if byte < |buf| {
      SetBitLastWins(buf[byte], bit % 8, first, second);
      SetBitLastWins(buf[byte], bit % 8, second, second);
    }
  }

  lemma SetBitLastWins(x: bv8, k: nat, first: bool, second: bool)
    requires k < 8
    ensures SetBit(SetBit(x, k, first), k, second) == SetBit(x, k, second)
  {
  }

  /** The buffer after a list of writes, in order. */
  function WriteBits(buf: seq<bv8>, ws: seq<BitWrite>): (r: seq<bv8>)
    ensures |r| == |buf|
    decreases |ws|
  {
    if ws == [] then buf else WriteBits(WithBit(buf, ws[0].bit, ws[0].on), ws[1..])
  }

  lemma {:induction false} WriteBitsAppend(buf: seq<bv8>, ws: seq<BitWrite>, w: BitWrite)
    ensures WriteBits(buf, ws + [w]) == WithBit(WriteBits(buf, ws), w.bit, w.on)
    decreases |ws|
  {
    if ws != [] {
      assert (ws + [w])[1..] == ws[1..] + [w];
      WriteBitsAppend(WithBit(buf, ws[0].bit, ws[0].on), ws[1..], w);
    }
  }

  /** Two lists of writes performed one after the other. */
  lemma {:induction false} WriteBitsConcat(buf: seq<bv8>, ws1: seq<BitWrite>, ws2: seq<BitWrite>)
    ensures WriteBits(buf, ws1 + ws2) == WriteBits(WriteBits(buf, ws1), ws2)
    decreases |ws1|
  {
    if ws1 == [] {
      assert ws1 + ws2 == ws2;
    } else {
      assert (ws1 + ws2)[1..] == ws1[1..] + ws2;
      WriteBitsConcat(WithBit(buf, ws1[0].bit, ws1[0].on), ws1[1..], ws2);
    }
  }

  /** One more write of a list, as a loop performs them. */
  lemma WriteBitsPrefix(buf: seq<bv8>, ws: seq<BitWrite>, i: nat)
    requires i < |ws|
    ensures WriteBits(buf, ws[..i + 1]) == WithBit(WriteBits(buf, ws[..i]), ws[i].bit, ws[i].on)
  {
    assert ws[..i + 1] == ws[..i] + [ws[i]];
    WriteBitsAppend(buf, ws[..i], ws[i]);
  }

  /** Whether some write in `ws` addresses `pos`. */
  predicate Touches(ws: seq<BitWrite>, pos: nat)
  {
    exists k :: 0 <= k < |ws| && ws[k].bit == pos
  }

  /** The level of the last write to `pos` (only meaningful when `Touches(ws, pos)`). */
  function LastWrite(ws: seq<BitWrite>, pos: nat): bool
    decreases |ws|
  {
    if ws == [] then false
    else if ws[|ws| - 1].bit == pos then ws[|ws| - 1].on
    else LastWrite(ws[..|ws| - 1], pos)
  }

  /**
   * After a list of writes, an in-range position reads as its last write;
   * a position no write addresses keeps its old state.
   */
  lemma {:induction false} WriteBitsReadBack(buf: seq<bv8>, ws: seq<BitWrite>, pos: nat)
    ensures pos / 8 < |buf| && Touches(ws, pos) ==> (BitOf(WriteBits(buf, ws), pos) <==> LastWrite(ws, pos))
    ensures !Touches(ws, pos) ==> (BitOf(WriteBits(buf, ws), pos) <==> BitOf(buf, pos))
    decreases |ws|
  {
    if ws != [] {
      var init := ws[..|ws| - 1];
      var w := ws[|ws| - 1];
      assert ws == init + [w];
      WriteBitsAppend(buf, init, w);
      WriteBitsReadBack(buf, init, pos);
      WithBitEffect(WriteBits(buf, init), w.bit, w.on, pos);
      if w.bit != pos {
        if Touches(ws, pos) {
          var k :| 0 <= k < |ws| && ws[k].bit == pos;
          assert k < |init| && init[k] == ws[k];
        }
        if Touches(init, pos) {
          var k :| 0 <= k < |init| && init[k].bit == pos;
          assert ws[k] == init[k];
        }
      } else {
        assert Touches(ws, pos) by { assert ws[|ws| - 1].bit == pos; }
      }
    }
  }

  /** When no later write addresses `pos`, write k is the last one. */
  lemma {:induction false} LastWriteUnique(ws: seq<BitWrite>, pos: nat, k: nat)
    requires k < |ws| && ws[k].bit == pos
    requires forall j :: k < j < |ws| ==> ws[j].bit != pos
    ensures LastWrite(ws, pos) == ws[k].on
    decreases |ws|
  {
    if k < |ws| - 1 {
      var init := ws[..|ws| - 1];
      assert forall j :: k < j < |init| ==> init[j] == ws[j];
      LastWriteUnique(init, pos, k);
    }
  }

  /** display_render_bit on the buffer array. */
  method RenderBit(buff: array<bv8>, bit: u8, on: bool)
    modifies buff
    ensures buff[..] == WithBit(old(buff[..]), bit, on)
  {
    var byte := bit / 8;
    if byte < buff.Length {
      if on {
        buff[byte] := buff[byte] | Mask(bit % 8);
      } else {
        buff[byte] := buff[byte] & !Mask(bit % 8);
      }
    }
  }

  /** A sequence of display_render_bit calls, in order. */
  method RenderBits(buff: array<bv8>, ws: seq<BitWrite>)
    modifies buff
    ensures buff[..] == WriteBits(old(buff[..]), ws)
  {
    ghost var start := buff[..];
    var i := 0;
    while i < |ws|
      invariant 0 <= i <= |ws|
      invariant buff[..] == WriteBits(start, ws[..i])
    {
      WriteBitsPrefix(start, ws, i);
      RenderBit(buff, ws[i].bit, ws[i].on);
      i := i + 1;
    }
    assert ws[..|ws|] == ws;
  }
}
