// A concrete flash sector on which the key store of the command parser, as
// written, reads and writes past the end of its sector buffer.

module StoreOverrun {
  import opened Word
  import opened CmdParser

  /**
   * A sector whose token record starts 16 bytes before the sector end:
   * sixteen filler records of id 2 and 252 data bytes, then the token
   * header at 0xFF0.
   */
  function OverrunSector(): (s: seq<u8>)
    ensures |s| == FLASH_SECTOR_SIZE
  {
    seq<u8>(FLASH_SECTOR_SIZE, k requires 0 <= k < FLASH_SECTOR_SIZE =>
      if k == 0xFF0 then 0x10 else if k == 0xFF2 then MI_KEYTBIND_SIZE
      else if k < 0xFF0 && k % 255 == 0 then 2 else if k < 0xFF0 && k % 255 == 2 then 252 else 0)
  }

  lemma OverrunSectorFiller(h: nat)
    requires h < 0xFF0 && h % 255 == 0
    ensures !IsKey(OverrunSector(), h, MI_KEYTBIND_ID) && !Stops(OverrunSector(), h) && Next(OverrunSector(), h) == h + 255
  {
    var s := OverrunSector();
    assert s[h] == 2 && s[h + 1] == 0 && s[h + 2] == 252;
  }

  lemma {:induction false} OverrunSectorScan(j: nat)
    requires j <= 16
    ensures Scan(OverrunSector(), MI_KEYTBIND_ID, 1, 255 * j) == Some(0xFF3)
    decreases 16 - j
  {
    var s := OverrunSector();
    if j < 16 {
      OverrunSectorFiller(255 * j);
      ScanStep(s, MI_KEYTBIND_ID, 1, 255 * j);
      OverrunSectorScan(j + 1);
    } else {
      assert s[0xFF0] == 0x10 && s[0xFF1] == 0 && s[0xFF2] == MI_KEYTBIND_SIZE;
      assert IsKey(s, 0xFF0, MI_KEYTBIND_ID);
    }
  }

  /**
   * As written, `store_mi_keys` only asks that the current record exist and
   * have the wanted length: in this sector the token record passes both,
   * and its 28 bytes at offset 0xFF3 run past the 4096-byte `backupsector`
   * the `memcmp` and `memcpy` index. The model refuses the store instead.
   */
  lemma StoreAsWrittenOverruns(key: seq<u8>)
    requires |key| >= MI_KEYTBIND_SIZE as nat
    ensures var s := OverrunSector();
      var cur := CurrentKey(s, MI_KEYTBIND_ID);
      cur == Some(0xFF3) && RecLen(s, cur.value - 3) == MI_KEYTBIND_SIZE
      && cur.value + MI_KEYTBIND_SIZE as nat > FLASH_SECTOR_SIZE
      && Stored(s, MI_KEYTBIND_SIZE, MI_KEYTBIND_ID, Some(key)) == (0, s)
  {
    var s := OverrunSector();
    OverrunSectorScan(0);
    assert CurrentKey(s, MI_KEYTBIND_ID) == Some(0xFF3);
    assert s[0xFF2] == MI_KEYTBIND_SIZE;
    assert RecLen(s, 0xFF0) == MI_KEYTBIND_SIZE;
  }
}
