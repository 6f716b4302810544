/**
 * `cmd_parser.c`: the Mi key store and the BLE command payload rules.
 *
 * The Mi key sector at 0x78000 holds a chain of records, each a 16-bit id
 * (low byte first), a length byte and that many data bytes. `find_mi_keys`
 * walks the chain; `send_mi_key` notifies the key buffer `keybuf` in
 * 20-byte pieces; `get_mi_keys` runs the stage machine that reports all
 * keys one per call; `store_mi_keys` rewrites a key or restores a deleted
 * one. The sector is a byte sequence; flash past the sector reads as erased.
 */
module CmdParser {
  import opened Word
  import opened BltCommon
  import Display

  const FLASH_MIKEYS_ADDR: nat := 0x78000
  const FLASH_SECTOR_SIZE: nat := 0x1000
  /** `TX_MAX_SIZE`: the notification size, ATT_MTU_SIZE - 3. */
  const TX_MAX_SIZE: nat := 20
  /** Key bytes per full notification (the other two are the id and the length). */
  const CHUNK_LEN: nat := TX_MAX_SIZE - 2
  /** `sizeof(keybuf.data)`. */
  const KEY_CAPACITY: nat := 32
  /** The TX FIFO fill at which `send_mi_key` holds back. */
  const FIFO_LIMIT: nat := 9
  /** Every header the scan can read starts below this offset. */
  const SCAN_LIMIT: nat := FLASH_SECTOR_SIZE + 3 + 0xFF

  /** Record ids of the Mi firmware. */
  const MI_KEYDELETE_ID: u16 := 0x00
  const MI_KEYDNAME_ID: u16 := 0x01
  const MI_KEYSEQNUM_ID: u16 := 0x04
  const MI_KEYTBIND_ID: u16 := 0x10
  const MI_KEYDNAME_SIZE: u8 := 20
  const MI_KEYTBIND_SIZE: u8 := 28

  /** `MI_KEY_STAGES`. */
  const STAGE_END: u8 := 0
  const STAGE_DNAME: u8 := 1
  const STAGE_TBIND: u8 := 2
  const STAGE_CFG: u8 := 3
  const STAGE_KDEL: u8 := 4
  const STAGE_RESTORE: u8 := 5
  const STAGE_WAIT_SEND: u8 := 6
  const STAGE_MAC: u8 := 0xFE
  const STAGE_GET_ALL: u8 := 0xFF

  /** `++x` and `--x` on a uint8_t. */
  function Inc8(x: u8): (y: u8)
    ensures x < 0xFF ==> y == x + 1
    ensures x == 0xFF ==> y == 0
  {
    (x + 1) % TWO_8
  }

  function Dec8(x: u8): (y: u8)
    ensures x > 0 ==> y == x - 1
    ensures x == 0 ==> y == 0xFF
  {
    (x + TWO_8 - 1) % TWO_8
  }

  /** Which match `find_mi_keys(id, cnt)` stops at: the cnt-th, or the 256th when cnt is 0. */
  function Ordinal(cnt: u8): nat
  {
    if cnt == 0 then TWO_8 else cnt
  }

  // ---------------------------------------------------------------------
  // The record chain
  // ---------------------------------------------------------------------

  /** The flash byte at offset `k` from the sector start. */
  function FlashByte(sector: seq<u8>, k: nat): u8
  {
    if k < |sector| && k < FLASH_SECTOR_SIZE then sector[k] else 0xFF
  }

  function FlashBytes(sector: seq<u8>, from: nat, n: nat): (r: seq<u8>)
    ensures |r| == n
    ensures forall i :: 0 <= i < n ==> r[i] == FlashByte(sector, from + i)
  {
    seq<u8>(n, i requires 0 <= i < n => FlashByte(sector, from + i))
  }

  /** The id and the length of the record whose header is at offset `h`. */
  function RecId(sector: seq<u8>, h: nat): u16
  {
    FlashByte(sector, h) + 256 * FlashByte(sector, h + 1)
  }

  function RecLen(sector: seq<u8>, h: nat): u8
  {
    FlashByte(sector, h + 2)
  }

  /** The header after the record at `h`. */
  function Next(sector: seq<u8>, h: nat): nat
  {
    h + 3 + RecLen(sector, h)
  }

  /** A record the scan for `chkId` accepts: that id, and 1 to 32 data bytes. */
  predicate IsKey(sector: seq<u8>, h: nat, chkId: u16)
  {
    RecLen(sector, h) <= KEY_CAPACITY && RecLen(sector, h) > 0 && RecId(sector, h) == chkId
  }

  /** The loop test fails: an erased header whose step reaches the sector end. */
  predicate Stops(sector: seq<u8>, h: nat)
  {
    RecId(sector, h) == 0xFFFF && RecLen(sector, h) == 0xFF && Next(sector, h) >= FLASH_SECTOR_SIZE
  }

  /** Headers at or past the sector end read as erased, so the scan stops there. */
  lemma StopsPastSector(sector: seq<u8>, h: nat)
    ensures !Stops(sector, h) ==> h < FLASH_SECTOR_SIZE && Next(sector, h) < SCAN_LIMIT
  {
    if h >= FLASH_SECTOR_SIZE {
      assert FlashByte(sector, h) == 0xFF && FlashByte(sector, h + 1) == 0xFF && FlashByte(sector, h + 2) == 0xFF;
    }
  }

  /**
   * `find_mi_keys(chkId, cnt)` from header `h`, on offsets: the data offset of
   * the record where `--cnt` reaches zero, or None when the loop test fails.
   */
  function Scan(sector: seq<u8>, chkId: u16, cnt: u8, h: nat): (r: Option<nat>)
    ensures r.Some? ==> r.value >= 3
    decreases SCAN_LIMIT - h
  {
    if IsKey(sector, h, chkId) && Dec8(cnt) == 0 then Some(h + 3)
    else if Stops(sector, h) then None
    else
      StopsPastSector(sector, h);
      Scan(sector, chkId, if IsKey(sector, h, chkId) then Dec8(cnt) else cnt, Next(sector, h))
  }

  /** The scan only stops at a record with the id asked for and 1 to 32 data bytes. */
  lemma {:induction false} ScanFindsKey(sector: seq<u8>, chkId: u16, cnt: u8, h: nat)
    ensures var r := Scan(sector, chkId, cnt, h);
      r.Some? ==> IsKey(sector, r.value - 3, chkId)
    decreases SCAN_LIMIT - h
  {
    if !(IsKey(sector, h, chkId) && Dec8(cnt) == 0) && !Stops(sector, h) {
      StopsPastSector(sector, h);
      ScanFindsKey(sector, chkId, if IsKey(sector, h, chkId) then Dec8(cnt) else cnt, Next(sector, h));
    }
  }

  /** The headers the scan visits from `h`, ending with the one where the loop test fails. */
  function Walk(sector: seq<u8>, h: nat): (hs: seq<nat>)
    decreases SCAN_LIMIT - h
  {
    if Stops(sector, h) then [h]
    else
      StopsPastSector(sector, h);
      [h] + Walk(sector, Next(sector, h))
  }

  /** The headers of `hs` the scan for `chkId` accepts, in order. */
  function Keys(sector: seq<u8>, chkId: u16, hs: seq<nat>): (ks: seq<nat>)
    ensures |ks| <= |hs|
    ensures forall k :: k in ks ==> k in hs && IsKey(sector, k, chkId)
  {
    if hs == [] then []
    else (if IsKey(sector, hs[0], chkId) then [hs[0]] else []) + Keys(sector, chkId, hs[1..])
  }

  /**
   * The walk starts at `h`, steps 3 + len from each header to the next,
   * visits only headers inside the sector until the last, and ends exactly
   * where the erased-header test fails: erased headers that do not reach the
   * sector end do not stop it.
   */
  lemma {:induction false} WalkShape(sector: seq<u8>, h: nat)
    ensures var hs := Walk(sector, h);
      |hs| >= 1 && hs[0] == h && Stops(sector, hs[|hs| - 1])
      && (forall i :: 0 <= i < |hs| - 1 ==>
            !Stops(sector, hs[i]) && hs[i] < FLASH_SECTOR_SIZE && hs[i + 1] == Next(sector, hs[i]))
    decreases SCAN_LIMIT - h
  {
    if !Stops(sector, h) {
      StopsPastSector(sector, h);
      WalkShape(sector, Next(sector, h));
      var hs := Walk(sector, h);
      var rest := Walk(sector, Next(sector, h));
      assert hs == [h] + rest;
      forall i | 0 <= i < |hs| - 1
        ensures !Stops(sector, hs[i]) && hs[i] < FLASH_SECTOR_SIZE && hs[i + 1] == Next(sector, hs[i])
      {
        if i > 0 {
          assert hs[i] == rest[i - 1] && hs[i + 1] == rest[i];
        }
      }
    }
  }

  /** Records on the walk do not overlap: each ends at or before every later header. */
  lemma {:induction false} WalkAscending(sector: seq<u8>, h: nat, i: nat, j: nat)
    requires i < j < |Walk(sector, h)|
    ensures Next(sector, Walk(sector, h)[i]) <= Walk(sector, h)[j]
    decreases j - i
  {
    var hs := Walk(sector, h);
    WalkShape(sector, h);
    if j > i + 1 {
      WalkAscending(sector, h, i, j - 1);
      assert hs[j] == Next(sector, hs[j - 1]);
    }
  }

  /** One step of the walk: a header that does not stop is followed by the walk from the next one. */
  lemma WalkStep(sector: seq<u8>, h: nat)
    requires !Stops(sector, h)
    ensures Walk(sector, h) == [h] + Walk(sector, Next(sector, h))
  {
  }

  lemma KeysCons(sector: seq<u8>, chkId: u16, h: nat, rest: seq<nat>)
    ensures Keys(sector, chkId, [h] + rest) == (if IsKey(sector, h, chkId) then [h] else []) + Keys(sector, chkId, rest)
  {
    assert ([h] + rest)[1..] == rest;
  }

  lemma ScanStep(sector: seq<u8>, chkId: u16, cnt: u8, h: nat)
    requires !Stops(sector, h) && !(IsKey(sector, h, chkId) && Dec8(cnt) == 0)
    ensures Scan(sector, chkId, cnt, h) == Scan(sector, chkId, if IsKey(sector, h, chkId) then Dec8(cnt) else cnt, Next(sector, h))
  {
  }

  /** At the header where the loop test fails nothing is left to select. */
  lemma ScanSelectsAtStop(sector: seq<u8>, chkId: u16, cnt: u8, h: nat)
    requires Stops(sector, h)
    ensures Keys(sector, chkId, Walk(sector, h)) == [] && Scan(sector, chkId, cnt, h) == None
  {
    assert Walk(sector, h) == [h];
    KeysCons(sector, chkId, h, []);
  }

  /** The data offset of the k-th header of `ks` (counting from 1), if there is one. */
  function Select(ks: seq<nat>, k: nat): Option<nat>
  {
    if 1 <= k <= |ks| then Some(ks[k - 1] + 3) else None
  }

  lemma SelectCons(h: nat, ks: seq<nat>, k: nat)
    requires k >= 2
    ensures Select([h] + ks, k) == Select(ks, k - 1)
  {
  }

  /** The three cases of one scan step, each from the claim for the rest of the walk. */
  lemma SelectsSkip(sector: seq<u8>, chkId: u16, cnt: u8, h: nat)
    requires !Stops(sector, h) && !IsKey(sector, h, chkId)
    requires Scan(sector, chkId, cnt, Next(sector, h)) == Select(Keys(sector, chkId, Walk(sector, Next(sector, h))), Ordinal(cnt))
    ensures Scan(sector, chkId, cnt, h) == Select(Keys(sector, chkId, Walk(sector, h)), Ordinal(cnt))
  {
    var rest := Walk(sector, Next(sector, h));
    WalkStep(sector, h);
    KeysCons(sector, chkId, h, rest);
    assert [] + Keys(sector, chkId, rest) == Keys(sector, chkId, rest);
    ScanStep(sector, chkId, cnt, h);
  }

  lemma SelectsCount(sector: seq<u8>, chkId: u16, cnt: u8, h: nat)
    requires !Stops(sector, h) && IsKey(sector, h, chkId) && cnt != 1
    requires Scan(sector, chkId, Dec8(cnt), Next(sector, h)) == Select(Keys(sector, chkId, Walk(sector, Next(sector, h))), Ordinal(Dec8(cnt)))
    ensures Scan(sector, chkId, cnt, h) == Select(Keys(sector, chkId, Walk(sector, h)), Ordinal(cnt))
  {
    var krest := Keys(sector, chkId, Walk(sector, Next(sector, h)));
    WalkStep(sector, h);
    KeysCons(sector, chkId, h, Walk(sector, Next(sector, h)));
    ScanStep(sector, chkId, cnt, h);
    assert Ordinal(Dec8(cnt)) == Ordinal(cnt) - 1;
    SelectCons(h, krest, Ordinal(cnt));
  }

  lemma SelectsHit(sector: seq<u8>, chkId: u16, h: nat)
    requires !Stops(sector, h) && IsKey(sector, h, chkId)
    ensures Scan(sector, chkId, 1, h) == Select(Keys(sector, chkId, Walk(sector, h)), Ordinal(1))
  {
    WalkStep(sector, h);
    KeysCons(sector, chkId, h, Walk(sector, Next(sector, h)));
  }

  /**
   * `find_mi_keys(chkId, cnt)` returns the data of the `Ordinal(cnt)`-th
   * accepted record of the walk, and 0 when there are fewer: records that
   * are too long, empty or of another id do not consume `cnt`.
   */
  lemma {:induction false} ScanSelects(sector: seq<u8>, chkId: u16, cnt: u8, h: nat)
    ensures Scan(sector, chkId, cnt, h) == Select(Keys(sector, chkId, Walk(sector, h)), Ordinal(cnt))
    decreases SCAN_LIMIT - h
  {
    if Stops(sector, h) {
      ScanSelectsAtStop(sector, chkId, cnt, h);
    } else {
      StopsPastSector(sector, h);
      if !IsKey(sector, h, chkId) {
        ScanSelects(sector, chkId, cnt, Next(sector, h));
        SelectsSkip(sector, chkId, cnt, h);
      } else if cnt != 1 {
        ScanSelects(sector, chkId, Dec8(cnt), Next(sector, h));
        SelectsCount(sector, chkId, cnt, h);
      } else {
        SelectsHit(sector, chkId, h);
      }
    }
  }

  // ---------------------------------------------------------------------
  // Notifications of keybuf
  // ---------------------------------------------------------------------

  /** `keybuf.id`: which answer the notification carries (zero before the first). */
  datatype KeyTag = NoTag | DevMac | MiDname | MiTbind | MiCfg | MiKdel

  /** One notification of `keybuf`: its id, its `klen` byte and the key bytes after them. */
  datatype Packet = Packet(tag: KeyTag, klen: u8, payload: seq<u8>)

  /** The notifications `send_mi_key` makes of a key: 18-byte pieces, then the rest. */
  function Chunks(tag: KeyTag, key: seq<u8>): seq<Packet>
    requires |key| < TWO_8
    decreases |key|
  {
    if |key| > CHUNK_LEN then [Packet(tag, |key|, key[..CHUNK_LEN])] + Chunks(tag, key[CHUNK_LEN..])
    else if key == [] then []
    else [Packet(tag, |key|, key)]
  }

  /** The key bytes of a list of notifications, in order. */
  function Payloads(ps: seq<Packet>): seq<u8>
  {
    if ps == [] then [] else ps[0].payload + Payloads(ps[1..])
  }

  /**
   * The pieces put together give the key back; there are ceil(n / 18) of
   * them, none longer than a notification; each `klen` byte says how many key
   * bytes are left from that piece on, so all but the last carry 18.
   */
  lemma {:induction false} ChunksReassemble(tag: KeyTag, key: seq<u8>)
    requires |key| < TWO_8
    ensures Payloads(Chunks(tag, key)) == key
    ensures |Chunks(tag, key)| == (|key| + CHUNK_LEN - 1) / CHUNK_LEN
    ensures forall i :: 0 <= i < |Chunks(tag, key)| ==>
      var p := Chunks(tag, key)[i];
      p.tag == tag && p.klen == |key| - i * CHUNK_LEN
      && 0 < |p.payload| <= CHUNK_LEN && 2 + |p.payload| <= TX_MAX_SIZE
      && (i < |Chunks(tag, key)| - 1 ==> |p.payload| == CHUNK_LEN)
    decreases |key|
  {
    if |key| > CHUNK_LEN {
      var rest := key[CHUNK_LEN..];
      ChunksReassemble(tag, rest);
      var ps := Chunks(tag, key);
      assert ps == [Packet(tag, |key|, key[..CHUNK_LEN])] + Chunks(tag, rest);
      assert ps[1..] == Chunks(tag, rest);
      assert key == key[..CHUNK_LEN] + rest;
      forall i | 0 <= i < |ps|
        ensures ps[i].tag == tag && ps[i].klen == |key| - i * CHUNK_LEN
          && 0 < |ps[i].payload| <= CHUNK_LEN && 2 + |ps[i].payload| <= TX_MAX_SIZE
          && (i < |ps| - 1 ==> |ps[i].payload| == CHUNK_LEN)
      {
        if i > 0 {
          assert ps[i] == Chunks(tag, rest)[i - 1];
        }
      }
    } else if key != [] {
      assert Payloads(Chunks(tag, key)) == key + Payloads([]);
    }
  }

  /** What one `find_mi_keys` / `send_mi_key` or `send_mi_no_key` pair of `get_mi_keys` notifies. */
  function Reply(tag: KeyTag, sector: seq<u8>, r: Option<nat>, fifo: nat): seq<Packet>
  {
    match r
    case None => [Packet(tag, 0, [])]
    case Some(a) => if fifo < FIFO_LIMIT && a >= 3 then Chunks(tag, FlashBytes(sector, a, RecLen(sector, a - 3))) else []
  }

  /** The key bytes a found record leaves in `keybuf` when the FIFO was too full to send them. */
  function Held(sector: seq<u8>, r: Option<nat>, fifo: nat): seq<u8>
  {
    match r
    case None => []
    case Some(a) => if fifo < FIFO_LIMIT || a < 3 then [] else FlashBytes(sector, a, RecLen(sector, a - 3))
  }

  // ---------------------------------------------------------------------
  // Rewriting the sector
  // ---------------------------------------------------------------------

  /** The sector with `bytes` copied in at offset `at` (a `memcpy` into `backupsector`). */
  function Put(sector: seq<u8>, at: nat, bytes: seq<u8>): (r: seq<u8>)
    requires at + |bytes| <= |sector|
    ensures |r| == |sector|
  {
    sector[..at] + bytes + sector[at + |bytes|..]
  }

  /** Inside the copied range a byte of `bytes`, elsewhere the old byte. */
  lemma PutAt(sector: seq<u8>, at: nat, bytes: seq<u8>, k: nat)
    requires at + |bytes| <= |sector| && k < |sector|
    ensures Put(sector, at, bytes)[k] == if at <= k < at + |bytes| then bytes[k - at] else sector[k]
  {
  }

  /** The last header of `hs` whose record has `n` data bytes. */
  function LastOfLen(sector: seq<u8>, hs: seq<nat>, n: u8): (r: Option<nat>)
    ensures r.Some? ==> r.value in hs && RecLen(sector, r.value) == n
    ensures r.None? ==> forall h :: h in hs ==> RecLen(sector, h) != n
  {
    if hs == [] then None
    else if RecLen(sector, hs[|hs| - 1]) == n then Some(hs[|hs| - 1])
    else LastOfLen(sector, hs[..|hs| - 1], n)
  }

  lemma LastOfLenSnoc(sector: seq<u8>, hs: seq<nat>, h: nat, n: u8)
    ensures LastOfLen(sector, hs + [h], n) == if RecLen(sector, h) == n then Some(h) else LastOfLen(sector, hs, n)
  {
    assert (hs + [h])[..|hs|] == hs;
  }

  /** The deleted records, in sector order. */
  function Deleted(sector: seq<u8>): seq<nat>
  {
    Keys(sector, MI_KEYDELETE_ID, Walk(sector, 0))
  }

  /** `faoldkey` as an offset: the data of the last deleted record with `n` bytes. */
  function DeletedKey(sector: seq<u8>, n: u8): Option<nat>
  {
    match LastOfLen(sector, Deleted(sector), n)
    case None => None
    case Some(h) => Some(h + 3)
  }

  /** `fanewkey` as an offset: the data of the first record of the id. */
  function CurrentKey(sector: seq<u8>, keyId: u16): Option<nat>
  {
    Scan(sector, keyId, 1, 0)
  }

  /** Restoring as intended: the deleted key and the current key change places. */
  function Exchanged(sector: seq<u8>, del: nat, cur: nat, n: nat): seq<u8>
    requires del + n <= |sector| && cur + n <= |sector|
  {
    Put(Put(sector, del, sector[cur..cur + n]), cur, sector[del..del + n])
  }

  /**
   * Restoring as written (line 116 commented out): the deleted slot gets
   * the current key and the current slot gets `keybuf.data`, which the
   * search for the current key has just filled with that same key.
   */
  function RestoreAsWritten(sector: seq<u8>, del: nat, cur: nat, n: nat): seq<u8>
    requires del + n <= |sector| && cur + n <= |sector|
  {
    Put(Put(sector, del, sector[cur..cur + n]), cur, sector[cur..cur + n])
  }

  /** One byte of the sector after the restore as written. */
  lemma RestoreAsWrittenAt(sector: seq<u8>, del: nat, cur: nat, n: nat, k: nat)
    requires del + n <= |sector| && cur + n <= |sector| && k < |sector|
    requires del + n <= cur || cur + n <= del
    ensures RestoreAsWritten(sector, del, cur, n)[k]
      == if del <= k < del + n then sector[cur + k - del] else sector[k]
  {
    var s1 := Put(sector, del, sector[cur..cur + n]);
    PutAt(sector, del, sector[cur..cur + n], k);
    PutAt(s1, cur, sector[cur..cur + n], k);
    if cur <= k < cur + n {
      PutAt(sector, del, sector[cur..cur + n], k);
    }
  }

  /** As written, the restore leaves the current key where it was and overwrites the deleted one with it. */
  lemma RestoreAsWrittenKeepsCurrent(sector: seq<u8>, del: nat, cur: nat, n: nat)
    requires del + n <= |sector| && cur + n <= |sector|
    requires del + n <= cur || cur + n <= del
    ensures RestoreAsWritten(sector, del, cur, n)[cur..cur + n] == sector[cur..cur + n]
    ensures RestoreAsWritten(sector, del, cur, n)[del..del + n] == sector[cur..cur + n]
  {
    var r := RestoreAsWritten(sector, del, cur, n);
    forall k | cur <= k < cur + n
      ensures r[k] == sector[k]
    {
      RestoreAsWrittenAt(sector, del, cur, n, k);
    }
    forall k | del <= k < del + n
      ensures r[k] == sector[cur + k - del]
    {
      RestoreAsWrittenAt(sector, del, cur, n, k);
    }
  }

  /** A deleted key of other bytes is lost by the restore as written: the result holds only the current key. */
  lemma RestoreAsWrittenLosesDeleted()
    ensures var sector := [1, 2, 3, 4];
      RestoreAsWritten(sector, 0, 2, 2) == [3, 4, 3, 4]
  {
    var sector: seq<u8> := [1, 2, 3, 4];
    assert sector[2..4] == [3, 4];
    assert Put(sector, 0, [3, 4]) == [3, 4, 3, 4];
  }

  /** One byte of the sector after the intended restore. */
  lemma ExchangedAt(sector: seq<u8>, del: nat, cur: nat, n: nat, k: nat)
    requires del + n <= |sector| && cur + n <= |sector| && k < |sector|
    requires del + n <= cur || cur + n <= del
    ensures Exchanged(sector, del, cur, n)[k]
      == if cur <= k < cur + n then sector[del + k - cur]
         else if del <= k < del + n then sector[cur + k - del]
         else sector[k]
  {
    var s1 := Put(sector, del, sector[cur..cur + n]);
    PutAt(sector, del, sector[cur..cur + n], k);
    PutAt(s1, cur, sector[del..del + n], k);
  }

  /** The intended restore swaps the two keys and leaves every other byte alone. */
  lemma ExchangedSwaps(sector: seq<u8>, del: nat, cur: nat, n: nat)
    requires del + n <= |sector| && cur + n <= |sector|
    requires del + n <= cur || cur + n <= del
    ensures var r := Exchanged(sector, del, cur, n);
      r[cur..cur + n] == sector[del..del + n] && r[del..del + n] == sector[cur..cur + n]
      && (forall k :: 0 <= k < |sector| && !(del <= k < del + n) && !(cur <= k < cur + n) ==> r[k] == sector[k])
  {
    var r := Exchanged(sector, del, cur, n);
    forall k | cur <= k < cur + n
      ensures r[k] == sector[del + k - cur]
    {
      ExchangedAt(sector, del, cur, n, k);
    }
    forall k | del <= k < del + n
      ensures r[k] == sector[cur + k - del]
    {
      ExchangedAt(sector, del, cur, n, k);
    }
    forall k | 0 <= k < |sector| && !(del <= k < del + n) && !(cur <= k < cur + n)
      ensures r[k] == sector[k]
    {
      ExchangedAt(sector, del, cur, n, k);
    }
  }

  /** Restoring twice gives the sector back. */
  lemma ExchangedTwice(sector: seq<u8>, del: nat, cur: nat, n: nat)
    requires del + n <= |sector| && cur + n <= |sector|
    requires del + n <= cur || cur + n <= del
    ensures Exchanged(Exchanged(sector, del, cur, n), del, cur, n) == sector
  {
    var r := Exchanged(sector, del, cur, n);
    var t := Exchanged(r, del, cur, n);
    forall k | 0 <= k < |sector|
      ensures t[k] == sector[k]
    {
      ExchangedAt(r, del, cur, n, k);
      if cur <= k < cur + n {
        ExchangedAt(sector, del, cur, n, del + k - cur);
      } else if del <= k < del + n {
        ExchangedAt(sector, del, cur, n, cur + k - del);
      } else {
        ExchangedAt(sector, del, cur, n, k);
      }
    }
  }

  /**
   * `store_mi_keys(n, keyId, pkey)` on the sector: the status and the sector
   * after it. With a key (`pkey` present) the current record of the id is
   * rewritten when it has `n` bytes and they differ; without one the last
   * deleted record of `n` bytes is restored. Records whose data runs past
   * the sector end are left alone, where the code as written indexes past
   * `backupsector` (see `StoreOverrun.StoreAsWrittenOverruns`).
   */
  function Stored(sector: seq<u8>, n: u8, keyId: u16, pkey: Option<seq<u8>>): (r: (u8, seq<u8>))
    requires |sector| == FLASH_SECTOR_SIZE
    requires pkey.Some? ==> |pkey.value| >= n
    ensures r.0 <= 1 && |r.1| == FLASH_SECTOR_SIZE
    ensures r.0 == 0 <==> r.1 == sector
  {
    var cur := CurrentKey(sector, keyId);
    if cur.None? || RecLen(sector, cur.value - 3) != n || cur.value + n > FLASH_SECTOR_SIZE then (0, sector)
    else match pkey
      case Some(key) => Rewritten(sector, cur.value, key[..n])
      case None => Restored(sector, DeletedKey(sector, n), cur.value, n)
  }

  /** The key branch: write `key` over the current record unless it already holds it. */
  function Rewritten(sector: seq<u8>, cur: nat, key: seq<u8>): (r: (u8, seq<u8>))
    requires cur + |key| <= |sector|
    ensures |r.1| == |sector|
    ensures r.0 == 0 <==> r.1 == sector
  {
    if sector[cur..cur + |key|] != key then (1, Put(sector, cur, key)) else (0, sector)
  }

  /** The restore branch: exchange with the deleted record unless there is none or it holds the same bytes. */
  function Restored(sector: seq<u8>, del: Option<nat>, cur: nat, n: nat): (r: (u8, seq<u8>))
    requires cur + n <= |sector|
    ensures |r.1| == |sector|
    ensures r.0 == 0 <==> r.1 == sector
  {
    if del.None? || del.value + n > |sector| || sector[cur..cur + n] == sector[del.value..del.value + n] then (0, sector)
    else (1, Exchanged(sector, del.value, cur, n))
  }

  /** Once the current record passes the checks, storing a key is the rewrite. */
  lemma StoredByRewrite(sector: seq<u8>, n: u8, keyId: u16, key: seq<u8>, cur: nat)
    requires |sector| == FLASH_SECTOR_SIZE && |key| >= n
    requires CurrentKey(sector, keyId) == Some(cur) && RecLen(sector, cur - 3) == n && cur + n <= FLASH_SECTOR_SIZE
    ensures Stored(sector, n, keyId, Some(key)) == Rewritten(sector, cur, key[..n])
  {
  }

  /** Once the current record passes the checks, storing without a key is the restore. */
  lemma StoredByRestore(sector: seq<u8>, n: u8, keyId: u16, cur: nat)
    requires |sector| == FLASH_SECTOR_SIZE
    requires CurrentKey(sector, keyId) == Some(cur) && RecLen(sector, cur - 3) == n && cur + n <= FLASH_SECTOR_SIZE
    ensures Stored(sector, n, keyId, None) == Restored(sector, DeletedKey(sector, n), cur, n)
  {
  }

  /** A stored key reads back from the current record; nothing else in the sector changes. */
  lemma StoredKeyReadsBack(sector: seq<u8>, n: u8, keyId: u16, key: seq<u8>)
    requires |sector| == FLASH_SECTOR_SIZE && |key| >= n
    ensures var (r, s) := Stored(sector, n, keyId, Some(key));
      var cur := CurrentKey(sector, keyId);
      (r == 1 ==> cur.Some? && cur.value + n <= |s| && s[cur.value..cur.value + n] == key[..n]
                  && forall k :: 0 <= k < |s| && !(cur.value <= k < cur.value + n) ==> s[k] == sector[k])
      && (r == 0 ==> s == sector)
      && (r == 0 && cur.Some? && RecLen(sector, cur.value - 3) == n && cur.value + n <= |sector|
          ==> sector[cur.value..cur.value + n] == key[..n])
  {
  }

  /** Two different records of the walk hold disjoint data. */
  lemma WalkRecordsDisjoint(sector: seq<u8>, a: nat, b: nat)
    requires a in Walk(sector, 0) && b in Walk(sector, 0) && a != b
    ensures Next(sector, a) <= b || Next(sector, b) <= a
  {
    var hs := Walk(sector, 0);
    var i :| 0 <= i < |hs| && hs[i] == a;
    var j :| 0 <= j < |hs| && hs[j] == b;
    if i < j {
      WalkAscending(sector, 0, i, j);
    } else {
      WalkAscending(sector, 0, j, i);
    }
  }

  /** What a successful restore implies about the two records. */
  lemma StoredRestoreCase(sector: seq<u8>, n: u8, keyId: u16)
    requires |sector| == FLASH_SECTOR_SIZE
    requires Stored(sector, n, keyId, None).0 == 1
    ensures DeletedKey(sector, n).Some? && CurrentKey(sector, keyId).Some?
    ensures var del := DeletedKey(sector, n).value;
      var cur := CurrentKey(sector, keyId).value;
      del + n <= FLASH_SECTOR_SIZE && cur + n <= FLASH_SECTOR_SIZE && RecLen(sector, cur - 3) == n
      && Stored(sector, n, keyId, None).1 == Exchanged(sector, del, cur, n)
  {
  }

  /** The deleted record and the current record of another id are different records, so their data do not overlap. */
  lemma RestoreRecordsDisjoint(sector: seq<u8>, n: u8, keyId: u16)
    requires keyId != MI_KEYDELETE_ID
    requires DeletedKey(sector, n).Some? && CurrentKey(sector, keyId).Some?
    requires RecLen(sector, CurrentKey(sector, keyId).value - 3) == n
    ensures var del := DeletedKey(sector, n).value;
      var cur := CurrentKey(sector, keyId).value;
      del + n <= cur || cur + n <= del
  {
    var cur := CurrentKey(sector, keyId).value;
    var hd := LastOfLen(sector, Deleted(sector), n).value;
    assert DeletedKey(sector, n).value == hd + 3 && RecLen(sector, hd) == n;
    var hc := cur - 3;
    ScanOnWalk(sector, keyId, 1);
    ScanFindsKey(sector, keyId, 1, 0);
    DeletedOnWalk(sector, hd);
    KeysOfTwoIds(sector, hd, hc, keyId);
    WalkRecordsDisjoint(sector, hd, hc);
  }

  /** A deleted record is a record of the walk with the delete id. */
  lemma DeletedOnWalk(sector: seq<u8>, hd: nat)
    requires hd in Deleted(sector)
    ensures hd in Walk(sector, 0) && IsKey(sector, hd, MI_KEYDELETE_ID)
  {
  }

  /** A header holds one id, so records of two different ids are different records. */
  lemma KeysOfTwoIds(sector: seq<u8>, hd: nat, hc: nat, keyId: u16)
    requires keyId != MI_KEYDELETE_ID
    requires IsKey(sector, hd, MI_KEYDELETE_ID) && IsKey(sector, hc, keyId)
    ensures hd != hc
  {
  }

  /**
   * The restore swaps the current key with the last deleted key of that
   * length.
   */
  lemma RestoreSwapsKeys(sector: seq<u8>, n: u8, keyId: u16)
    requires |sector| == FLASH_SECTOR_SIZE && keyId != MI_KEYDELETE_ID
    requires Stored(sector, n, keyId, None).0 == 1
    ensures DeletedKey(sector, n).Some? && CurrentKey(sector, keyId).Some?
    ensures var del := DeletedKey(sector, n).value;
      var cur := CurrentKey(sector, keyId).value;
      var s := Stored(sector, n, keyId, None).1;
      del + n <= |s| && cur + n <= |s|
      && s[cur..cur + n] == sector[del..del + n] && s[del..del + n] == sector[cur..cur + n]
  {
    StoredRestoreCase(sector, n, keyId);
    RestoreRecordsDisjoint(sector, n, keyId);
    ExchangedSwaps(sector, DeletedKey(sector, n).value, CurrentKey(sector, keyId).value, n);
  }

  /** `t` has the three header bytes of `s` at `x`. */
  predicate HeaderEq(s: seq<u8>, t: seq<u8>, x: nat)
  {
    FlashByte(t, x) == FlashByte(s, x) && FlashByte(t, x + 1) == FlashByte(s, x + 1) && FlashByte(t, x + 2) == FlashByte(s, x + 2)
  }

  /** `t` has the header bytes of `s` at every header of `hs`. */
  predicate SameHeaders(s: seq<u8>, t: seq<u8>, hs: seq<nat>)
  {
    forall i :: 0 <= i < |hs| ==> HeaderEq(s, t, hs[i])
  }

  lemma SameHeadersAt(s: seq<u8>, t: seq<u8>, hs: seq<nat>, x: nat)
    requires SameHeaders(s, t, hs) && x in hs
    ensures RecId(t, x) == RecId(s, x) && RecLen(t, x) == RecLen(s, x)
  {
    var i :| 0 <= i < |hs| && hs[i] == x;
    assert HeaderEq(s, t, hs[i]);
  }

  /** The chain and every scan depend only on the headers the walk visits. */
  lemma {:induction false} ScanFrame(s: seq<u8>, t: seq<u8>, id: u16, cnt: u8, h: nat)
    requires SameHeaders(s, t, Walk(s, h))
    ensures Walk(t, h) == Walk(s, h) && Scan(t, id, cnt, h) == Scan(s, id, cnt, h)
    decreases SCAN_LIMIT - h
  {
    var hs := Walk(s, h);
    assert hs[0] == h && HeaderEq(s, t, hs[0]);
    assert RecId(t, h) == RecId(s, h) && RecLen(t, h) == RecLen(s, h);
    if !Stops(s, h) {
      StopsPastSector(s, h);
      WalkStep(s, h);
      WalkStep(t, h);
      var next := if IsKey(s, h, id) then Dec8(cnt) else cnt;
      var rest := Walk(s, Next(s, h));
      assert hs == [h] + rest;
      forall i | 0 <= i < |rest|
        ensures HeaderEq(s, t, rest[i])
      {
        assert rest[i] == hs[i + 1];
      }
      ScanFrame(s, t, id, next, Next(s, h));
      assert Walk(t, h) == [h] + rest;
    }
  }

  /** Writing the data of a record of the chain, at its own length, leaves every header alone. */
  lemma PutDataKeepsHeaders(sector: seq<u8>, h: nat, bytes: seq<u8>)
    requires |sector| == FLASH_SECTOR_SIZE && h in Walk(sector, 0)
    requires |bytes| == RecLen(sector, h) && h + 3 + |bytes| <= |sector|
    ensures SameHeaders(sector, Put(sector, h + 3, bytes), Walk(sector, 0))
  {
    var hs := Walk(sector, 0);
    forall i | 0 <= i < |hs|
      ensures HeaderEq(sector, Put(sector, h + 3, bytes), hs[i])
    {
      HeaderKept(sector, h, bytes, hs[i]);
    }
  }

  /** The header of any record of the chain lies outside the data of record `h`. */
  lemma HeaderKept(sector: seq<u8>, h: nat, bytes: seq<u8>, x: nat)
    requires |sector| == FLASH_SECTOR_SIZE && h in Walk(sector, 0) && x in Walk(sector, 0)
    requires |bytes| == RecLen(sector, h) && h + 3 + |bytes| <= |sector|
    ensures HeaderEq(sector, Put(sector, h + 3, bytes), x)
  {
    if x != h {
      WalkRecordsDisjoint(sector, x, h);
    }
    HeaderOutside(sector, h, bytes, x);
  }

  /** A header that ends at or before the data of `h`, or starts after it, is not written. */
  lemma HeaderOutside(sector: seq<u8>, h: nat, bytes: seq<u8>, x: nat)
    requires |sector| == FLASH_SECTOR_SIZE && |bytes| == RecLen(sector, h) && h + 3 + |bytes| <= |sector|
    requires x == h || Next(sector, x) <= h || Next(sector, h) <= x
    ensures HeaderEq(sector, Put(sector, h + 3, bytes), x)
  {
    assert x + 3 <= h + 3 || h + 3 + |bytes| <= x;
    PutOutside(sector, h + 3, bytes, x);
    PutOutside(sector, h + 3, bytes, x + 1);
    PutOutside(sector, h + 3, bytes, x + 2);
  }

  /** Outside the copied range the flash reads as before. */
  lemma PutOutside(sector: seq<u8>, at: nat, bytes: seq<u8>, y: nat)
    requires at + |bytes| <= |sector| && (y < at || at + |bytes| <= y)
    ensures FlashByte(Put(sector, at, bytes), y) == FlashByte(sector, y)
  {
    if y < |sector| {
      PutAt(sector, at, bytes, y);
    }
  }

  /** The data offset a scan returns belongs to a record of the chain. */
  lemma ScanOnWalk(sector: seq<u8>, id: u16, cnt: u8)
    requires Scan(sector, id, cnt, 0).Some?
    ensures Scan(sector, id, cnt, 0).value - 3 in Walk(sector, 0)
  {
    var ks := Keys(sector, id, Walk(sector, 0));
    ScanSelects(sector, id, cnt, 0);
    var k := Ordinal(cnt);
    assert 1 <= k <= |ks| && Scan(sector, id, cnt, 0).value - 3 == ks[k - 1];
    assert ks[k - 1] in ks;
  }

  /**
   * After a rewrite every lookup finds the records it found before, and
   * the current record of the id now reads as the new key.
   */
  lemma StoreThenFind(sector: seq<u8>, n: u8, keyId: u16, key: seq<u8>, id: u16, cnt: u8)
    requires |sector| == FLASH_SECTOR_SIZE && |key| >= n
    requires Stored(sector, n, keyId, Some(key)).0 == 1
    ensures var s := Stored(sector, n, keyId, Some(key)).1;
      var cur := CurrentKey(sector, keyId);
      Scan(s, id, cnt, 0) == Scan(sector, id, cnt, 0)
      && cur.Some? && FlashBytes(s, cur.value, n) == key[..n]
  {
    var cur := CurrentKey(sector, keyId).value;
    var s := Stored(sector, n, keyId, Some(key)).1;
    assert s == Put(sector, cur, key[..n]);
    ScanOnWalk(sector, keyId, 1);
    PutDataKeepsHeaders(sector, cur - 3, key[..n]);
    ScanFrame(sector, s, id, cnt, 0);
    PutInside(sector, cur, key[..n]);
  }

  /** The copied range reads back as the bytes copied. */
  lemma PutInside(sector: seq<u8>, at: nat, bytes: seq<u8>)
    requires at + |bytes| <= |sector| <= FLASH_SECTOR_SIZE
    ensures FlashBytes(Put(sector, at, bytes), at, |bytes|) == bytes
  {
    var r := Put(sector, at, bytes);
    FlashBytesInside(r, at, |bytes|);
    assert r[at..at + |bytes|] == bytes;
  }

  /**
   * After a restore every lookup finds the records it found before; the
   * current record of the id reads as the deleted key that was brought
   * back, and that deleted record as the key it replaced.
   */
  lemma RestoreThenFind(sector: seq<u8>, n: u8, keyId: u16, id: u16, cnt: u8)
    requires |sector| == FLASH_SECTOR_SIZE && keyId != MI_KEYDELETE_ID
    requires Stored(sector, n, keyId, None).0 == 1
    ensures DeletedKey(sector, n).Some? && CurrentKey(sector, keyId).Some?
    ensures var s := Stored(sector, n, keyId, None).1;
      var del := DeletedKey(sector, n).value;
      var cur := CurrentKey(sector, keyId).value;
      Scan(s, id, cnt, 0) == Scan(sector, id, cnt, 0)
      && FlashBytes(s, cur, n) == FlashBytes(sector, del, n)
      && FlashBytes(s, del, n) == FlashBytes(sector, cur, n)
  {
    StoredRestoreCase(sector, n, keyId);
    RestoreRecordsDisjoint(sector, n, keyId);
    var del := DeletedKey(sector, n).value;
    var cur := CurrentKey(sector, keyId).value;
    var hd := LastOfLen(sector, Deleted(sector), n).value;
    assert del == hd + 3 && hd in Walk(sector, 0);
    ScanOnWalk(sector, keyId, 1);
    ExchangeKeepsScans(sector, hd, cur - 3, n, id, cnt);
    var s := Stored(sector, n, keyId, None).1;
    ExchangedSwaps(sector, del, cur, n);
    FlashBytesInside(s, cur, n);
    FlashBytesInside(s, del, n);
    FlashBytesInside(sector, cur, n);
    FlashBytesInside(sector, del, n);
  }

  /** Exchanging the data of two records of the chain of the same length changes no scan. */
  lemma ExchangeKeepsScans(sector: seq<u8>, a: nat, b: nat, n: u8, id: u16, cnt: u8)
    requires |sector| == FLASH_SECTOR_SIZE && a in Walk(sector, 0) && b in Walk(sector, 0)
    requires RecLen(sector, a) == n && RecLen(sector, b) == n
    requires a + 3 + n <= |sector| && b + 3 + n <= |sector|
    ensures Scan(Exchanged(sector, a + 3, b + 3, n), id, cnt, 0) == Scan(sector, id, cnt, 0)
  {
    var s1 := Put(sector, a + 3, sector[b + 3..b + 3 + n]);
    PutDataKeepsHeaders(sector, a, sector[b + 3..b + 3 + n]);
    ScanFrame(sector, s1, id, cnt, 0);
    SameHeadersAt(sector, s1, Walk(sector, 0), b);
    PutDataKeepsHeaders(s1, b, sector[a + 3..a + 3 + n]);
    ScanFrame(s1, Put(s1, b + 3, sector[a + 3..a + 3 + n]), id, cnt, 0);
  }

  /** Inside the sector the flash bytes are the sector's own. */
  lemma FlashBytesInside(sector: seq<u8>, from: nat, n: nat)
    requires from + n <= |sector| <= FLASH_SECTOR_SIZE
    ensures FlashBytes(sector, from, n) == sector[from..from + n]
  {
  }

  /** What `keybuf.data` holds after a successful restore: the deleted key that was brought back. */
  function RestoredKey(sector: seq<u8>, n: u8): (key: seq<u8>)
    ensures |key| <= n
  {
    match DeletedKey(sector, n)
    case None => []
    case Some(d) => FlashBytes(sector, d, n)
  }

  /** `memcpy(&dst[at], bytes, |bytes|)`. */
  method CopyInto(dst: array<u8>, at: nat, bytes: seq<u8>)
    requires at + |bytes| <= dst.Length
    modifies dst
    ensures dst[..] == Put(old(dst[..]), at, bytes)
  {
    ghost var before := dst[..];
    forall k | at <= k < at + |bytes| {
      dst[k] := bytes[k - at];
    }
    forall k | 0 <= k < dst.Length
      ensures dst[k] == Put(before, at, bytes)[k]
    {
      PutAt(before, at, bytes, k);
    }
  }

  // ---------------------------------------------------------------------
  // The stages of get_mi_keys
  // ---------------------------------------------------------------------

  /** The payload of the MAC answer: the public address in display order and the two random bytes. */
  function MacPayload(device: Device, rec: seq<u8>): (p: seq<u8>)
    requires |rec| == RECORD_LEN
    ensures |p| == RECORD_LEN
  {
    PublicOf(device, rec) + rec[MAC_LEN..]
  }

  /** The record id a reporting stage looks up and the `cnt` it passes. */
  function StageQuery(stage: u8, cnt: u8): (u16, u8)
  {
    if stage == STAGE_DNAME then (MI_KEYDNAME_ID, 1)
    else if stage == STAGE_TBIND then (MI_KEYTBIND_ID, 1)
    else if stage == STAGE_CFG then (MI_KEYSEQNUM_ID, 1)
    else (MI_KEYDELETE_ID, Inc8(cnt))
  }

  predicate IsReportStage(stage: u8)
  {
    stage == STAGE_DNAME || stage == STAGE_TBIND || stage == STAGE_CFG || stage == STAGE_KDEL
  }

  /** The status of the restore `get_mi_keys` performs in its restore stage. */
  function RestoreStatus(sector: seq<u8>): u8
    requires |sector| == FLASH_SECTOR_SIZE
  {
    Stored(sector, MI_KEYTBIND_SIZE, MI_KEYTBIND_ID, None).0
  }

  /** The next stage and the new `mi_key_chk_cnt` after one call of `get_mi_keys` that gets past the pending key. */
  function NextStage(stage: u8, sector: seq<u8>, cnt: u8): (u8, u8)
    requires |sector| == FLASH_SECTOR_SIZE
  {
    if stage == STAGE_DNAME then (STAGE_TBIND, cnt)
    else if stage == STAGE_TBIND then (STAGE_CFG, if Scan(sector, MI_KEYTBIND_ID, 1, 0).Some? then 0 else cnt)
    else if stage == STAGE_CFG then (STAGE_KDEL, if Scan(sector, MI_KEYSEQNUM_ID, 1, 0).Some? then 0 else cnt)
    else if stage == STAGE_KDEL then
      (if Scan(sector, MI_KEYDELETE_ID, Inc8(cnt), 0).Some? then STAGE_KDEL else STAGE_END, Inc8(cnt))
    else if stage == STAGE_RESTORE then (if RestoreStatus(sector) == 1 then STAGE_WAIT_SEND else STAGE_END, cnt)
    else if stage == STAGE_WAIT_SEND then (STAGE_END, cnt)
    else (STAGE_DNAME, cnt)
  }

  /** The key sector after the stage: only the restore stage writes it. */
  function StageSector(stage: u8, sector: seq<u8>): seq<u8>
    requires |sector| == FLASH_SECTOR_SIZE
  {
    if stage == STAGE_RESTORE then Stored(sector, MI_KEYTBIND_SIZE, MI_KEYTBIND_ID, None).1 else sector
  }

  /** `keybuf.id` after the stage. */
  function StageTag(stage: u8, tag: KeyTag): KeyTag
  {
    if stage == STAGE_DNAME then MiDname
    else if stage == STAGE_TBIND || stage == STAGE_RESTORE then MiTbind
    else if stage == STAGE_CFG then MiCfg
    else if stage == STAGE_KDEL then MiKdel
    else if stage == STAGE_WAIT_SEND then tag
    else DevMac
  }

  /** The notifications of the stage itself. */
  function StageSent(stage: u8, sector: seq<u8>, cnt: u8, fifo: nat, device: Device, mac: seq<u8>): seq<Packet>
    requires |sector| == FLASH_SECTOR_SIZE && |mac| == RECORD_LEN
  {
    if IsReportStage(stage) then
      var (id, c) := StageQuery(stage, cnt);
      Reply(StageTag(stage, NoTag), sector, Scan(sector, id, c, 0), fifo)
    else if stage == STAGE_RESTORE then
      if RestoreStatus(sector) != 1 then [Packet(MiTbind, 0, [])]
      else if fifo < FIFO_LIMIT then Chunks(MiTbind, RestoredKey(sector, MI_KEYTBIND_SIZE))
      else []
    else if stage == STAGE_WAIT_SEND then []
    else if fifo < FIFO_LIMIT then Chunks(DevMac, MacPayload(device, mac))
    else []
  }

  /** The key bytes the stage leaves pending in `keybuf` (`key` is what was pending before it). */
  function StageHeld(stage: u8, sector: seq<u8>, cnt: u8, fifo: nat, device: Device, mac: seq<u8>, key: seq<u8>): seq<u8>
    requires |sector| == FLASH_SECTOR_SIZE && |mac| == RECORD_LEN
  {
    if IsReportStage(stage) then
      var (id, c) := StageQuery(stage, cnt);
      Held(sector, Scan(sector, id, c, 0), fifo)
    else if stage == STAGE_RESTORE then
      if RestoreStatus(sector) == 1 && fifo >= FIFO_LIMIT then RestoredKey(sector, MI_KEYTBIND_SIZE) else []
    else if stage == STAGE_WAIT_SEND then key
    else if fifo < FIFO_LIMIT then []
    else MacPayload(device, mac)
  }

  /**
   * After a key command has stored its key, the name or token stage reports
   * that new key, when the TX FIFO has room for it.
   */
  lemma KeyCommandReportsNewKey(tbind: bool, sector: seq<u8>, key: seq<u8>, cnt: u8, fifo: nat, device: Device, mac: seq<u8>)
    requires |sector| == FLASH_SECTOR_SIZE && |mac| == RECORD_LEN && fifo < FIFO_LIMIT
    requires |key| >= (if tbind then MI_KEYTBIND_SIZE else MI_KEYDNAME_SIZE) as nat
    requires Stored(sector, if tbind then MI_KEYTBIND_SIZE else MI_KEYDNAME_SIZE, if tbind then MI_KEYTBIND_ID else MI_KEYDNAME_ID, Some(key)).0 == 1
    ensures var size := if tbind then MI_KEYTBIND_SIZE else MI_KEYDNAME_SIZE;
      var id := if tbind then MI_KEYTBIND_ID else MI_KEYDNAME_ID;
      StageSent(if tbind then STAGE_TBIND else STAGE_DNAME, Stored(sector, size, id, Some(key)).1, cnt, fifo, device, mac)
      == Chunks(if tbind then MiTbind else MiDname, key[..size])
  {
    var size := if tbind then MI_KEYTBIND_SIZE else MI_KEYDNAME_SIZE;
    var id := if tbind then MI_KEYTBIND_ID else MI_KEYDNAME_ID;
    var cur := CurrentKey(sector, id).value;
    var s := Stored(sector, size, id, Some(key)).1;
    StoreThenFind(sector, size, id, key, id, 1);
    assert s == Put(sector, cur, key[..size]);
    PutOutside(sector, cur, key[..size], cur - 1);
    assert RecLen(s, cur - 3) == size;
  }

  /** A header as the data address `find_mi_keys` returns, 0 for none. */
  function DataAddr(h: Option<nat>): nat
  {
    match h
    case None => 0
    case Some(x) => FLASH_MIKEYS_ADDR + x + 3
  }

  /** `find_mi_keys(MI_KEYDELETE_ID, cnt)`: the cnt-th deleted record, the 256th when cnt is 0. */
  lemma DeletedNth(sector: seq<u8>, cnt: u8)
    ensures var k := Ordinal(cnt);
      Scan(sector, MI_KEYDELETE_ID, cnt, 0) == if k <= |Deleted(sector)| then Some(Deleted(sector)[k - 1] + 3) else None
  {
    var ds := Deleted(sector);
    ScanSelects(sector, MI_KEYDELETE_ID, cnt, 0);
    assert Scan(sector, MI_KEYDELETE_ID, cnt, 0) == Select(ds, Ordinal(cnt));
  }

  /** One more deleted record seen by the restore loop. */
  lemma DeletedStep(sector: seq<u8>, cnt: u8, n: u8)
    requires 1 <= cnt <= |Deleted(sector)|
    ensures var ds := Deleted(sector);
      DataAddr(LastOfLen(sector, ds[..cnt], n))
      == if RecLen(sector, ds[cnt - 1]) == n then FLASH_MIKEYS_ADDR + ds[cnt - 1] + 3
         else DataAddr(LastOfLen(sector, ds[..cnt - 1], n))
  {
    var ds := Deleted(sector);
    assert ds[..cnt] == ds[..cnt - 1] + [ds[cnt - 1]];
    LastOfLenSnoc(sector, ds[..cnt - 1], ds[cnt - 1], n);
  }

  /**
   * The key buffer `keybuf` (id, `klen`, 32 data bytes), the key sector,
   * `mi_key_chk_cnt` and `mi_key_stage`.
   */
  class KeyStore {
    var flash: seq<u8>
    var tag: KeyTag
    var klen: u8
    const data: array<u8>
    var chkCnt: u8
    var stage: u8

    ghost predicate Valid()
      reads this
    {
      |flash| == FLASH_SECTOR_SIZE && data.Length == KEY_CAPACITY && klen <= KEY_CAPACITY
    }

    /** The key bytes pending in `keybuf`. */
    function Key(): (key: seq<u8>)
      reads this, data
      requires Valid()
      ensures |key| == klen
    {
      data[..klen]
    }

    constructor (sector: seq<u8>)
      requires |sector| == FLASH_SECTOR_SIZE
      ensures Valid() && fresh(data)
      ensures flash == sector && tag == NoTag && klen == 0 && chkCnt == 0 && stage == STAGE_END
    {
      flash := sector;
      tag := NoTag;
      klen := 0;
      data := new u8[KEY_CAPACITY];
      chkCnt := 0;
      stage := STAGE_END;
    }

    /**
     * `find_mi_keys(chkId, cnt)`: the flash address of the data of the
     * record `Scan` selects, with the record loaded into `keybuf`, or 0 with
     * `keybuf` untouched.
     */
    method FindMiKeys(chkId: u16, cnt: u8) returns (faddr: nat)
      requires Valid()
      modifies this, data
      ensures Valid() && flash == old(flash) && tag == old(tag) && chkCnt == old(chkCnt) && stage == old(stage)
      ensures var r := Scan(flash, chkId, cnt, 0);
        (r.None? ==> faddr == 0 && klen == old(klen) && data[..] == old(data[..]))
        && (r.Some? ==> faddr == FLASH_MIKEYS_ADDR + r.value && klen == RecLen(flash, r.value - 3)
                        && Key() == FlashBytes(flash, r.value, klen))
    {
      var sector := flash;
      ghost var r := Scan(sector, chkId, cnt, 0);
      var h: nat := 0;
      var c := cnt;
      while true
        invariant h < SCAN_LIMIT
        invariant r == Scan(sector, chkId, c, h)
        modifies {}
        decreases SCAN_LIMIT - h
      {
        var id := FlashByte(sector, h) + 256 * FlashByte(sector, h + 1);
        var len := FlashByte(sector, h + 2);
        var at := h + 3;
        ghost var c0 := c;
        assert id == RecId(sector, h) && len == RecLen(sector, h);
        if len <= KEY_CAPACITY && len > 0 && id == chkId {
          c := Dec8(c);
          if c == 0 {
            assert r == Some(at);
            faddr := FLASH_MIKEYS_ADDR + at;
            break;
          }
        }
        StopsPastSector(sector, h);
        if id == 0xFFFF && len == 0xFF && at + len >= FLASH_SECTOR_SIZE {
          assert r == None;
          return 0;
        }
        ScanStep(sector, chkId, c0, h);
        assert c == (if IsKey(sector, h, chkId) then Dec8(c0) else c0) && at + len == Next(sector, h);
        h := at + len;
      }
      assert r == Some(h + 3) && faddr == FLASH_MIKEYS_ADDR + h + 3;
      LoadRecord(h + 3, RecLen(sector, h));
    }

    /** `memcpy(keybuf.data, &faddr[3], len)` with `klen = len`. */
    method LoadRecord(at: nat, len: u8)
      requires Valid() && len <= KEY_CAPACITY
      modifies this, data
      ensures Valid() && flash == old(flash) && tag == old(tag) && chkCnt == old(chkCnt) && stage == old(stage)
      ensures klen == len && Key() == FlashBytes(flash, at, len)
    {
      klen := len;
      forall i | 0 <= i < len {
        data[i] := FlashByte(flash, at + i);
      }
    }

    /**
     * `send_mi_key`: when the TX FIFO holds fewer than 9 packets, notify the
     * whole pending key in pieces and empty the buffer; otherwise keep it.
     */
    method SendMiKey(fifo: nat) returns (ok: bool, sent: seq<Packet>)
      requires Valid()
      modifies this, data
      ensures Valid() && flash == old(flash) && tag == old(tag) && chkCnt == old(chkCnt) && stage == old(stage)
      ensures ok <==> fifo < FIFO_LIMIT
      ensures ok ==> klen == 0 && sent == Chunks(tag, old(Key()))
      ensures !ok ==> sent == [] && klen == old(klen) && data[..] == old(data[..])
    {
      if fifo >= FIFO_LIMIT {
        return false, [];
      }
      ghost var key := Key();
      sent := [];
      while klen > CHUNK_LEN
        invariant Valid() && flash == old(flash) && tag == old(tag) && chkCnt == old(chkCnt) && stage == old(stage)
        invariant Chunks(tag, key) == sent + Chunks(tag, Key())
        decreases klen
      {
        ghost var cur := Key();
        assert data[..CHUNK_LEN] == cur[..CHUNK_LEN];
        assert Chunks(tag, cur) == [Packet(tag, klen, cur[..CHUNK_LEN])] + Chunks(tag, cur[CHUNK_LEN..]);
        sent := sent + [Packet(tag, klen, data[..CHUNK_LEN])];
        klen := klen - CHUNK_LEN;
        forall i | 0 <= i < klen {
          data[i] := data[CHUNK_LEN + i];
        }
        assert Key() == cur[CHUNK_LEN..];
      }
      if klen > 0 {
        sent := sent + [Packet(tag, klen, data[..klen])];
      }
      klen := 0;
      return true, sent;
    }

    /** `send_mi_no_key`: an empty answer of the current id. */
    method SendMiNoKey() returns (p: Packet)
      requires Valid()
      modifies this
      ensures Valid() && flash == old(flash) && tag == old(tag) && chkCnt == old(chkCnt) && stage == old(stage)
      ensures klen == 0 && p == Packet(tag, 0, [])
    {
      klen := 0;
      p := Packet(tag, 0, []);
    }

    /** The find-then-send pattern of the reporting stages: the record the scan selects, or an empty answer. */
    method Report(t: KeyTag, id: u16, cnt: u8, fifo: nat) returns (found: bool, sent: seq<Packet>)
      requires Valid()
      modifies this, data
      ensures Valid() && flash == old(flash) && chkCnt == old(chkCnt) && stage == old(stage) && tag == t
      ensures var r := Scan(flash, id, cnt, 0);
        found == r.Some? && sent == Reply(t, flash, r, fifo) && Key() == Held(flash, r, fifo)
    {
      tag := t;
      var faddr := FindMiKeys(id, cnt);
      if faddr != 0 {
        found := true;
        var _, s := SendMiKey(fifo);
        sent := s;
      } else {
        found := false;
        var p := SendMiNoKey();
        sent := [p];
      }
    }
  
    /**
     * The restore loop of `store_mi_keys`: count the deleted records up with
     * `++key_chk_cnt` and remember the header of the last one of `n` bytes,
     * as a data address (0 when there is none). The count is a byte: after
     * the 255th record it wraps to 0, which asks for a 256th, so the loop
     * ends for up to 255 deleted records and runs forever from 256 on.
     */
    method FindDeleted(n: u8) returns (faoldkey: nat)
      requires Valid() && |Deleted(flash)| <= 0xFF
      modifies this, data
      ensures Valid() && flash == old(flash) && tag == old(tag) && chkCnt == old(chkCnt) && stage == old(stage)
      ensures faoldkey == DataAddr(LastOfLen(flash, Deleted(flash), n))
    {
      ghost var ds := Deleted(flash);
      var cnt: u8 := 1;
      ghost var i: nat := 1;
      faoldkey := 0;
      var faddr := FindDeletedNth(cnt);
      while faddr != 0
        invariant Valid() && flash == old(flash) && tag == old(tag) && chkCnt == old(chkCnt) && stage == old(stage)
        invariant 1 <= i <= |ds| + 1 && Ordinal(cnt) == i
        invariant faddr == (if i <= |ds| then FLASH_MIKEYS_ADDR + ds[i - 1] + 3 else 0)
        invariant faddr != 0 ==> klen == RecLen(flash, ds[i - 1])
        invariant faoldkey == DataAddr(LastOfLen(flash, ds[..i - 1], n))
        decreases |ds| + 1 - i
      {
        DeletedStep(flash, i, n);
        if klen == n {
          faoldkey := faddr;
        }
        cnt := Inc8(cnt);
        i := i + 1;
        faddr := FindDeletedNth(cnt);
      }
      assert ds[..i - 1] == ds;
    }

    /** `find_mi_keys(MI_KEYDELETE_ID, cnt)`: the data address of the `Ordinal(cnt)`-th deleted record, 0 past the last. */
    method FindDeletedNth(cnt: u8) returns (faddr: nat)
      requires Valid()
      modifies this, data
      ensures Valid() && flash == old(flash) && tag == old(tag) && chkCnt == old(chkCnt) && stage == old(stage)
      ensures var ds := Deleted(flash);
        var k := Ordinal(cnt);
        faddr == (if k <= |ds| then FLASH_MIKEYS_ADDR + ds[k - 1] + 3 else 0)
        && (faddr != 0 ==> klen == RecLen(flash, ds[k - 1]))
    {
      faddr := FindMiKeys(MI_KEYDELETE_ID, cnt);
      DeletedNth(flash, cnt);
    }

    /**
     * `store_mi_keys(n, keyId, pkey)`: the status and the new sector are
     * those of `Stored`. After a restore `keybuf` holds the key brought
     * back (the `memcpy` into `keybuf.data` that the source leaves
     * commented out is performed here, see `RestoreAsWritten`); after a
     * rewrite it holds the record as it was before.
     */
    method StoreMiKeys(n: u8, keyId: u16, pkey: Option<seq<u8>>) returns (r: u8)
      requires Valid() && (pkey.Some? ==> |pkey.value| >= n)
      requires pkey.None? ==> |Deleted(flash)| <= 0xFF
      modifies this, data
      ensures Valid() && tag == old(tag) && chkCnt == old(chkCnt) && stage == old(stage)
      ensures (r, flash) == Stored(old(flash), n, keyId, pkey)
      ensures r == 1 && pkey.None? ==> klen == n && Key() == RestoredKey(old(flash), n)
      ensures pkey.Some? ==> var cur := CurrentKey(old(flash), keyId);
        (cur.None? ==> klen == old(klen) && data[..] == old(data[..]))
        && (cur.Some? ==> klen == RecLen(old(flash), cur.value - 3) && Key() == FlashBytes(old(flash), cur.value, klen))
    {
      if pkey.Some? {
        r := StoreKey(n, keyId, pkey.value);
      } else {
        r := StoreDeleted(n, keyId);
      }
    }

    /** `store_mi_keys` with a new key: the current record of the id is rewritten in place. */
    method StoreKey(n: u8, keyId: u16, key: seq<u8>) returns (r: u8)
      requires Valid() && |key| >= n
      modifies this, data
      ensures Valid() && tag == old(tag) && chkCnt == old(chkCnt) && stage == old(stage)
      ensures (r, flash) == Stored(old(flash), n, keyId, Some(key))
      ensures var cur := CurrentKey(old(flash), keyId);
        (cur.None? ==> klen == old(klen) && data[..] == old(data[..]))
        && (cur.Some? ==> klen == RecLen(old(flash), cur.value - 3) && Key() == FlashBytes(old(flash), cur.value, klen))
    {
      ghost var sector := flash;
      var fanewkey := FindMiKeys(keyId, 1);
      if fanewkey == 0 || klen != n || fanewkey - FLASH_MIKEYS_ADDR + n > FLASH_SECTOR_SIZE {
        assert Stored(sector, n, keyId, Some(key)) == (0, sector);
        return 0;
      }
      var cur := fanewkey - FLASH_MIKEYS_ADDR;
      assert CurrentKey(sector, keyId) == Some(cur) && RecLen(sector, cur - 3) == n && cur + n <= FLASH_SECTOR_SIZE;
      StoredByRewrite(sector, n, keyId, key, cur);
      r := Rewrite(cur, key[..n]);
    }

    /** `store_mi_keys` without a key: the last deleted record of `n` bytes and the current record change places. */
    method StoreDeleted(n: u8, keyId: u16) returns (r: u8)
      requires Valid() && |Deleted(flash)| <= 0xFF
      modifies this, data
      ensures Valid() && tag == old(tag) && chkCnt == old(chkCnt) && stage == old(stage)
      ensures (r, flash) == Stored(old(flash), n, keyId, None)
      ensures r == 1 ==> klen == n && Key() == RestoredKey(old(flash), n)
    {
      ghost var sector := flash;
      var faoldkey := FindDeleted(n);
      if faoldkey == 0 {
        assert DeletedKey(sector, n).None?;
        assert Stored(sector, n, keyId, None) == (0, sector);
        return 0;
      }
      assert DeletedKey(sector, n) == Some(faoldkey - FLASH_MIKEYS_ADDR);
      var fanewkey := FindMiKeys(keyId, 1);
      if fanewkey == 0 || klen != n || fanewkey - FLASH_MIKEYS_ADDR + n > FLASH_SECTOR_SIZE {
        assert Stored(sector, n, keyId, None) == (0, sector);
        return 0;
      }
      var cur := fanewkey - FLASH_MIKEYS_ADDR;
      assert CurrentKey(sector, keyId) == Some(cur) && RecLen(sector, cur - 3) == n && cur + n <= FLASH_SECTOR_SIZE;
      StoredByRestore(sector, n, keyId, cur);
      r := Restore(faoldkey - FLASH_MIKEYS_ADDR, cur, n);
    }

    /** The key branch of `store_mi_keys` once the current record is found. */
    method Rewrite(cur: nat, key: seq<u8>) returns (r: u8)
      requires Valid() && cur + |key| <= FLASH_SECTOR_SIZE
      modifies this
      ensures Valid() && tag == old(tag) && klen == old(klen) && chkCnt == old(chkCnt) && stage == old(stage)
      ensures (r, flash) == Rewritten(old(flash), cur, key)
    {
      var sector := flash;
      var backup := new u8[FLASH_SECTOR_SIZE];
      forall k | 0 <= k < FLASH_SECTOR_SIZE {
        backup[k] := sector[k];
      }
      assert backup[..] == sector;
      if backup[cur..cur + |key|] != key {
        CopyInto(backup, cur, key);
        flash := backup[..];
        return 1;
      }
      return 0;
    }

    /** The restore branch of `store_mi_keys` once both records are found. */
    method Restore(del: nat, cur: nat, n: u8) returns (r: u8)
      requires Valid() && cur + n <= FLASH_SECTOR_SIZE && n <= KEY_CAPACITY
      modifies this, data
      ensures Valid() && tag == old(tag) && chkCnt == old(chkCnt) && stage == old(stage)
      ensures (r, flash) == Restored(old(flash), Some(del), cur, n)
      ensures r == 1 ==> klen == n && Key() == FlashBytes(old(flash), del, n)
    {
      var sector := flash;
      var backup := new u8[FLASH_SECTOR_SIZE];
      forall k | 0 <= k < FLASH_SECTOR_SIZE {
        backup[k] := sector[k];
      }
      assert backup[..] == sector;
      if del + n > FLASH_SECTOR_SIZE || backup[cur..cur + n] == backup[del..del + n] {
        return 0;
      }
      LoadKey(backup, del, n);
      FlashBytesInside(sector, del, n);
      Exchange(backup, del, cur, data[..n]);
      flash := backup[..];
      return 1;
    }

    /** `memcpy(keybuf.data, &backupsector[del], n)` with `klen = n`. */
    method LoadKey(backup: array<u8>, del: nat, n: u8)
      requires Valid() && del + n <= backup.Length && n <= KEY_CAPACITY && backup != data
      modifies this, data
      ensures Valid() && flash == old(flash) && tag == old(tag) && chkCnt == old(chkCnt) && stage == old(stage)
      ensures klen == n && Key() == backup[del..del + n]
    {
      klen := n;
      forall i | 0 <= i < n {
        data[i] := backup[del + i];
      }
    }

    /** The two `memcpy`s that exchange the records in `backupsector`; `key` is the deleted key already in `keybuf`. */
    static method Exchange(backup: array<u8>, del: nat, cur: nat, key: seq<u8>)
      requires del + |key| <= backup.Length && cur + |key| <= backup.Length
      requires key == backup[del..del + |key|]
      modifies backup
      ensures backup[..] == Exchanged(old(backup[..]), del, cur, |key|)
    {
      ghost var sector := backup[..];
      var n := |key|;
      CopyInto(backup, del, backup[cur..cur + n]);
      assert backup[..] == Put(sector, del, sector[cur..cur + n]);
      CopyInto(backup, cur, key);
    }

    /**
     * `get_mi_keys(chkStage)`: first the key still pending in `keybuf` is
     * sent (with the TX FIFO at `fifoPending`); when it cannot be, nothing
     * happens and the stage stays. Then the stage runs with the FIFO at
     * `fifoStage` and the next stage is returned. `macRecord` is the MAC
     * flash record.
     */
    method GetMiKeys(chkStage: u8, fifoPending: nat, fifoStage: nat, device: Device, macRecord: seq<u8>)
      returns (next: u8, sent: seq<Packet>)
      requires Valid() && |macRecord| == RECORD_LEN
      requires chkStage == STAGE_RESTORE ==> |Deleted(flash)| <= 0xFF
      modifies this, data
      ensures Valid() && stage == old(stage)
      ensures old(klen) != 0 && fifoPending >= FIFO_LIMIT ==>
        next == chkStage && sent == [] && flash == old(flash) && tag == old(tag) && chkCnt == old(chkCnt)
        && klen == old(klen) && data[..] == old(data[..])
      ensures old(klen) == 0 || fifoPending < FIFO_LIMIT ==>
        var head := if old(klen) == 0 then [] else Chunks(old(tag), old(Key()));
        (next, chkCnt) == NextStage(chkStage, old(flash), old(chkCnt))
        && flash == StageSector(chkStage, old(flash))
        && tag == StageTag(chkStage, old(tag))
        && sent == head + StageSent(chkStage, old(flash), old(chkCnt), fifoStage, device, macRecord)
        && Key() == StageHeld(chkStage, old(flash), old(chkCnt), fifoStage, device, macRecord, [])
    {
      var head: seq<Packet> := [];
      if klen != 0 {
        var ok;
        ok, head := SendMiKey(fifoPending);
        if !ok {
          return chkStage, [];
        }
      }
      var rest;
      next, rest := Stage(chkStage, fifoStage, device, macRecord);
      sent := head + rest;
    }

    /** The `switch` of `get_mi_keys`, entered with nothing pending in `keybuf`. */
    method Stage(chkStage: u8, fifo: nat, device: Device, macRecord: seq<u8>) returns (next: u8, sent: seq<Packet>)
      requires Valid() && |macRecord| == RECORD_LEN
      requires chkStage == STAGE_RESTORE ==> |Deleted(flash)| <= 0xFF
      modifies this, data
      ensures Valid() && stage == old(stage)
      ensures (next, chkCnt) == NextStage(chkStage, old(flash), old(chkCnt))
      ensures flash == StageSector(chkStage, old(flash))
      ensures tag == StageTag(chkStage, old(tag))
      ensures sent == StageSent(chkStage, old(flash), old(chkCnt), fifo, device, macRecord)
      ensures Key() == StageHeld(chkStage, old(flash), old(chkCnt), fifo, device, macRecord, old(Key()))
    {
      if IsReportStage(chkStage) {
        next, sent := ReportStage(chkStage, fifo);
      } else if chkStage == STAGE_RESTORE {
        next, sent := RestoreStage(fifo);
      } else if chkStage == STAGE_WAIT_SEND {
        next, sent := STAGE_END, [];
      } else {
        sent := MacStage(device, macRecord, fifo);
        next := STAGE_DNAME;
      }
    }

    /** The stages that look one record up and report it. */
    method ReportStage(chkStage: u8, fifo: nat) returns (next: u8, sent: seq<Packet>)
      requires Valid() && IsReportStage(chkStage)
      modifies this, data
      ensures Valid() && stage == old(stage) && flash == old(flash)
      ensures (next, chkCnt) == NextStage(chkStage, old(flash), old(chkCnt))
      ensures tag == StageTag(chkStage, old(tag))
      ensures var (id, c) := StageQuery(chkStage, old(chkCnt));
        var r := Scan(flash, id, c, 0);
        sent == Reply(StageTag(chkStage, NoTag), flash, r, fifo) && Key() == Held(flash, r, fifo)
    {
      var (id, c) := StageQuery(chkStage, chkCnt);
      if chkStage == STAGE_KDEL {
        chkCnt := c;
      }
      var found;
      found, sent := Report(StageTag(chkStage, NoTag), id, c, fifo);
      if chkStage == STAGE_DNAME {
        next := STAGE_TBIND;
      } else if chkStage == STAGE_KDEL {
        next := if found then STAGE_KDEL else STAGE_END;
      } else {
        if found {
          chkCnt := 0;
        }
        next := if chkStage == STAGE_TBIND then STAGE_CFG else STAGE_KDEL;
      }
    }

    /** The restore stage: restore the previous token and bind key and report the result. */
    method RestoreStage(fifo: nat) returns (next: u8, sent: seq<Packet>)
      requires Valid() && |Deleted(flash)| <= 0xFF
      modifies this, data
      ensures Valid() && stage == old(stage) && chkCnt == old(chkCnt) && tag == MiTbind
      ensures flash == Stored(old(flash), MI_KEYTBIND_SIZE, MI_KEYTBIND_ID, None).1
      ensures var ok := RestoreStatus(old(flash)) == 1;
        next == (if ok then STAGE_WAIT_SEND else STAGE_END)
        && sent == (if !ok then [Packet(MiTbind, 0, [])]
                    else if fifo < FIFO_LIMIT then Chunks(MiTbind, RestoredKey(old(flash), MI_KEYTBIND_SIZE))
                    else [])
        && Key() == (if ok && fifo >= FIFO_LIMIT then RestoredKey(old(flash), MI_KEYTBIND_SIZE) else [])
    {
      tag := MiTbind;
      var r := StoreMiKeys(MI_KEYTBIND_SIZE, MI_KEYTBIND_ID, None);
      if r == 1 {
        next := STAGE_WAIT_SEND;
        var _, s := SendMiKey(fifo);
        sent := s;
      } else {
        next := STAGE_END;
        var p := SendMiNoKey();
        sent := [p];
      }
    }

    /** The MAC stage (the `default` branch): report the MAC record. */
    method MacStage(device: Device, macRecord: seq<u8>, fifo: nat) returns (sent: seq<Packet>)
      requires Valid() && |macRecord| == RECORD_LEN
      modifies this, data
      ensures Valid() && stage == old(stage) && flash == old(flash) && chkCnt == old(chkCnt) && tag == DevMac
      ensures sent == (if fifo < FIFO_LIMIT then Chunks(DevMac, MacPayload(device, macRecord)) else [])
      ensures Key() == (if fifo < FIFO_LIMIT then [] else MacPayload(device, macRecord))
    {
      LoadMac(device, macRecord);
      tag := DevMac;
      var _, s := SendMiKey(fifo);
      sent := s;
    }

    /** Read the MAC record into `keybuf`: on CGG1 into `data[8..16]`, then swapped down into `data[0..6]`. */
    method LoadMac(device: Device, macRecord: seq<u8>)
      requires Valid() && |macRecord| == RECORD_LEN
      modifies this, data
      ensures Valid() && stage == old(stage) && flash == old(flash) && chkCnt == old(chkCnt) && tag == old(tag)
      ensures Key() == MacPayload(device, macRecord)
    {
      if device == Cgg1 {
        forall i | 0 <= i < RECORD_LEN {
          data[RECORD_LEN + i] := macRecord[i];
        }
        assert data[RECORD_LEN..RECORD_LEN + MAC_LEN] == macRecord[..MAC_LEN];
        ghost var tail := data[MAC_LEN..];
        assert tail[RECORD_LEN - MAC_LEN + 6] == macRecord[6] && tail[RECORD_LEN - MAC_LEN + 7] == macRecord[7];
        SwapMacAddress(data, 0, data, RECORD_LEN);
        ghost var pub := data[..MAC_LEN];
        assert pub == SwapMac(macRecord);
        assert data[MAC_LEN..] == tail;
        assert data[RECORD_LEN + 6] == macRecord[6] && data[RECORD_LEN + 7] == macRecord[7];
        data[6] := data[RECORD_LEN + 6];
        data[7] := data[RECORD_LEN + 7];
        assert data[..RECORD_LEN] == pub + macRecord[6..];
      } else {
        forall i | 0 <= i < RECORD_LEN {
          data[i] := macRecord[i];
        }
        assert data[..RECORD_LEN] == macRecord[..MAC_LEN] + macRecord[6..];
      }
      klen := RECORD_LEN;
    }
  
    /** `erase_mikeys`: erase the sector unless its first word already reads 0xffffffff, and say whether it did. */
    method EraseMiKeys() returns (erased: bool)
      requires Valid()
      modifies this
      ensures Valid() && tag == old(tag) && klen == old(klen) && chkCnt == old(chkCnt) && stage == old(stage)
      ensures erased <==> !FirstWordErased(old(flash))
      ensures flash == if erased then ErasedSector() else old(flash)
    {
      var tmp := FlashByte(flash, 0) + 0x100 * FlashByte(flash, 1) + 0x1_0000 * FlashByte(flash, 2) + 0x100_0000 * FlashByte(flash, 3);
      erased := Add32(tmp, 1) != 0;
      if erased {
        flash := ErasedSector();
      }
    }

    /** The main loop's poll: while a stage is set, one call of `get_mi_keys` per pass. */
    method Poll(fifoPending: nat, fifoStage: nat, device: Device, macRecord: seq<u8>) returns (sent: seq<Packet>)
      requires Valid() && |macRecord| == RECORD_LEN
      requires stage == STAGE_RESTORE ==> |Deleted(flash)| <= 0xFF
      modifies this, data
      ensures Valid()
      ensures old(stage) == STAGE_END || (old(klen) != 0 && fifoPending >= FIFO_LIMIT) ==>
        sent == [] && stage == old(stage) && flash == old(flash) && tag == old(tag) && chkCnt == old(chkCnt)
        && klen == old(klen) && data[..] == old(data[..])
      ensures old(stage) != STAGE_END && (old(klen) == 0 || fifoPending < FIFO_LIMIT) ==>
        var head := if old(klen) == 0 then [] else Chunks(old(tag), old(Key()));
        (stage, chkCnt) == NextStage(old(stage), old(flash), old(chkCnt))
        && flash == StageSector(old(stage), old(flash))
        && tag == StageTag(old(stage), old(tag))
        && sent == head + StageSent(old(stage), old(flash), old(chkCnt), fifoStage, device, macRecord)
        && Key() == StageHeld(old(stage), old(flash), old(chkCnt), fifoStage, device, macRecord, [])
    {
      if stage == STAGE_END {
        return [];
      }
      stage, sent := GetMiKeys(stage, fifoPending, fifoStage, device, macRecord);
    }

    /**
     * `CMD_ID_MI_KALL`: start reporting every key, the MAC record first. A
     * key still pending in `keybuf` goes out before it; when that cannot be
     * sent nothing goes out and the poll starts over from `get all`.
     */
    method KeyAllCommand(fifoPending: nat, fifoStage: nat, device: Device, macRecord: seq<u8>) returns (sent: seq<Packet>)
      requires Valid() && |macRecord| == RECORD_LEN
      modifies this, data
      ensures Valid() && flash == old(flash)
      ensures old(klen) == 0 || fifoPending < FIFO_LIMIT ==>
        stage == STAGE_DNAME && tag == DevMac
        && sent == (if old(klen) == 0 then [] else Chunks(old(tag), old(Key())))
                   + (if fifoStage < FIFO_LIMIT then Chunks(DevMac, MacPayload(device, macRecord)) else [])
        && Key() == (if fifoStage < FIFO_LIMIT then [] else MacPayload(device, macRecord))
      ensures old(klen) != 0 && fifoPending >= FIFO_LIMIT ==> stage == STAGE_GET_ALL && sent == []
    {
      stage, sent := GetMiKeys(STAGE_GET_ALL, fifoPending, fifoStage, device, macRecord);
    }

    /** `CMD_ID_MI_REST`: restore the previous token and bind key. */
    method RestoreCommand(fifoPending: nat, fifoStage: nat, device: Device, macRecord: seq<u8>) returns (sent: seq<Packet>)
      requires Valid() && |macRecord| == RECORD_LEN && |Deleted(flash)| <= 0xFF
      modifies this, data
      ensures Valid()
      ensures old(klen) == 0 || fifoPending < FIFO_LIMIT ==>
        var head := if old(klen) == 0 then [] else Chunks(old(tag), old(Key()));
        flash == Stored(old(flash), MI_KEYTBIND_SIZE, MI_KEYTBIND_ID, None).1
        && stage == (if RestoreStatus(old(flash)) == 1 then STAGE_WAIT_SEND else STAGE_END)
        && tag == StageTag(STAGE_RESTORE, old(tag))
        && sent == head + StageSent(STAGE_RESTORE, old(flash), old(chkCnt), fifoStage, device, macRecord)
        && Key() == StageHeld(STAGE_RESTORE, old(flash), old(chkCnt), fifoStage, device, macRecord, [])
      ensures old(klen) != 0 && fifoPending >= FIFO_LIMIT ==>
        stage == STAGE_RESTORE && flash == old(flash) && sent == [] && tag == old(tag) && klen == old(klen) && data[..] == old(data[..])
    {
      stage, sent := GetMiKeys(STAGE_RESTORE, fifoPending, fifoStage, device, macRecord);
    }

    /**
     * `CMD_ID_MI_DNAME` (`tbind` false) and `CMD_ID_MI_TBIND` (`tbind`
     * true), with the request bytes `dat` (the command id first): a request
     * of exactly one key stores it, then the record of that id is reported
     * and the poll waits for the send to finish. The store leaves the old
     * record of the id in `keybuf`, so that record is sent first, ahead of
     * the report; when it cannot be sent nothing goes out.
     */
    method KeyCommand(tbind: bool, dat: seq<u8>, fifoPending: nat, fifoStage: nat, device: Device, macRecord: seq<u8>)
      returns (sent: seq<Packet>)
      requires Valid() && |macRecord| == RECORD_LEN && |dat| >= 1
      modifies this, data
      ensures Valid() && stage == STAGE_WAIT_SEND
      ensures var size := if tbind then MI_KEYTBIND_SIZE else MI_KEYDNAME_SIZE;
        var id := if tbind then MI_KEYTBIND_ID else MI_KEYDNAME_ID;
        flash == if |dat| == size as nat + 1 then Stored(old(flash), size, id, Some(dat[1..])).1 else old(flash)
      ensures var size := if tbind then MI_KEYTBIND_SIZE else MI_KEYDNAME_SIZE;
        var id := if tbind then MI_KEYTBIND_ID else MI_KEYDNAME_ID;
        var stores := |dat| == size as nat + 1;
        var cur := CurrentKey(old(flash), id);
        var pending := if stores && cur.Some? then FlashBytes(old(flash), cur.value, RecLen(old(flash), cur.value - 3)) else old(Key());
        var sector := if stores then Stored(old(flash), size, id, Some(dat[1..])).1 else old(flash);
        sent == if pending != [] && fifoPending >= FIFO_LIMIT then []
                else (if pending == [] then [] else Chunks(old(tag), pending))
                     + StageSent(if tbind then STAGE_TBIND else STAGE_DNAME, sector, old(chkCnt), fifoStage, device, macRecord)
    {
      var size := if tbind then MI_KEYTBIND_SIZE else MI_KEYDNAME_SIZE;
      var id := if tbind then MI_KEYTBIND_ID else MI_KEYDNAME_ID;
      if |dat| == size as nat + 1 {
        var _ := StoreMiKeys(size, id, Some(dat[1..]));
      }
      var _, s := GetMiKeys(if tbind then STAGE_TBIND else STAGE_DNAME, fifoPending, fifoStage, device, macRecord);
      sent := s;
      stage := STAGE_WAIT_SEND;
    }

    /**
     * The tail of `CMD_ID_DEV_MAC`: report the MAC record, then wait for the
     * send to finish; a pending key goes out first, and when it cannot be
     * sent nothing goes out.
     */
    method MacReply(fifoPending: nat, fifoStage: nat, device: Device, macRecord: seq<u8>) returns (sent: seq<Packet>)
      requires Valid() && |macRecord| == RECORD_LEN
      modifies this, data
      ensures Valid() && stage == STAGE_WAIT_SEND && flash == old(flash)
      ensures old(klen) == 0 || fifoPending < FIFO_LIMIT ==>
        tag == DevMac
        && sent == (if old(klen) == 0 then [] else Chunks(old(tag), old(Key())))
                   + (if fifoStage < FIFO_LIMIT then Chunks(DevMac, MacPayload(device, macRecord)) else [])
      ensures old(klen) != 0 && fifoPending >= FIFO_LIMIT ==> sent == []
    {
      var _, s := GetMiKeys(STAGE_MAC, fifoPending, fifoStage, device, macRecord);
      sent := s;
      stage := STAGE_WAIT_SEND;
    }
  }

  /** The first 32-bit word of the sector reads 0xffffffff. */
  predicate FirstWordErased(sector: seq<u8>)
  {
    FlashByte(sector, 0) == 0xFF && FlashByte(sector, 1) == 0xFF && FlashByte(sector, 2) == 0xFF && FlashByte(sector, 3) == 0xFF
  }

  /** An erased sector. */
  function ErasedSector(): (s: seq<u8>)
    ensures |s| == FLASH_SECTOR_SIZE
  {
    seq<u8>(FLASH_SECTOR_SIZE, _ => 0xFF)
  }

  // ---------------------------------------------------------------------
  // The polling sequence
  // ---------------------------------------------------------------------

  /**
   * The stage and `mi_key_chk_cnt` after `k` polls that each get past the
   * pending key; the poll stops at the end stage. Only the restore stage
   * writes the sector and the stages after it do not read it, so the sector
   * is the one polling started with.
   */
  function Run(stage: u8, sector: seq<u8>, cnt: u8, k: nat): (u8, u8)
    requires |sector| == FLASH_SECTOR_SIZE
    decreases k
  {
    if k == 0 || stage == STAGE_END then (stage, cnt)
    else
      var (s, c) := NextStage(stage, sector, cnt);
      Run(s, sector, c, k - 1)
  }

  /** `a` polls and then `b` more. */
  lemma {:induction false} RunSplit(stage: u8, sector: seq<u8>, cnt: u8, a: nat, b: nat)
    requires |sector| == FLASH_SECTOR_SIZE
    ensures var (s, c) := Run(stage, sector, cnt, a);
      Run(stage, sector, cnt, a + b) == Run(s, sector, c, b)
    decreases a
  {
    if a > 0 && stage != STAGE_END {
      var (s, c) := NextStage(stage, sector, cnt);
      RunSplit(s, sector, c, a - 1, b);
    }
  }

  /** One poll in the deleted-key stage. */
  lemma RunKdelOnce(sector: seq<u8>, c: u8, k: nat)
    requires |sector| == FLASH_SECTOR_SIZE
    ensures Run(STAGE_KDEL, sector, c, k + 1)
      == if Scan(sector, MI_KEYDELETE_ID, Inc8(c), 0).Some? then Run(STAGE_KDEL, sector, Inc8(c), k) else (STAGE_END, Inc8(c))
  {
    assert NextStage(STAGE_KDEL, sector, c)
      == (if Scan(sector, MI_KEYDELETE_ID, Inc8(c), 0).Some? then STAGE_KDEL else STAGE_END, Inc8(c));
  }

  /**
   * From the deleted-key stage with `mi_key_chk_cnt` at c, each poll
   * reports the next deleted record while there is one left (of at most
   * 255),
   */
  lemma {:induction false} KdelCountsUp(sector: seq<u8>, c: u8, k: nat)
    requires |sector| == FLASH_SECTOR_SIZE && |Deleted(sector)| <= 0xFF && c + k <= |Deleted(sector)|
    ensures Run(STAGE_KDEL, sector, c, k).0 == STAGE_KDEL && Run(STAGE_KDEL, sector, c, k).1 == c + k
    decreases k
  {
    if k > 0 {
      KdelStep(sector, c, k - 1);
      KdelCountsUp(sector, c + 1, k - 1);
    }
  }

  /** A poll in the deleted-key stage while a deleted record is left. */
  lemma KdelStep(sector: seq<u8>, c: u8, k: nat)
    requires |sector| == FLASH_SECTOR_SIZE && c < |Deleted(sector)| <= 0xFF
    ensures Run(STAGE_KDEL, sector, c, k + 1) == Run(STAGE_KDEL, sector, c + 1, k)
  {
    DeletedNth(sector, c + 1);
    RunKdelOnce(sector, c, k);
  }

  /**
   * and the poll after the last one ends the sequence, with the count one
   * past it: 0 after 255 deleted records, where the 256th is looked for.
   */
  lemma {:induction false} KdelEnds(sector: seq<u8>, c: u8)
    requires |sector| == FLASH_SECTOR_SIZE && c <= |Deleted(sector)| <= 0xFF
    ensures Run(STAGE_KDEL, sector, c, |Deleted(sector)| - c + 1) == (STAGE_END, Inc8(|Deleted(sector)|))
    decreases |Deleted(sector)| - c
  {
    var d := |Deleted(sector)|;
    DeletedNth(sector, Inc8(c));
    RunKdelOnce(sector, c, d - c);
    if c < d {
      KdelEnds(sector, c + 1);
    }
  }

  /** From `get all` the MAC, name, token and config stages take one poll each. */
  lemma GetAllPrefix(sector: seq<u8>, cnt: u8)
    requires |sector| == FLASH_SECTOR_SIZE
    ensures var c := if Scan(sector, MI_KEYTBIND_ID, 1, 0).Some? || Scan(sector, MI_KEYSEQNUM_ID, 1, 0).Some? then 0 else cnt;
      Run(STAGE_GET_ALL, sector, cnt, 4) == (STAGE_KDEL, c)
  {
    var c1 := if Scan(sector, MI_KEYTBIND_ID, 1, 0).Some? then 0 else cnt;
    var c := if Scan(sector, MI_KEYSEQNUM_ID, 1, 0).Some? then 0 else c1;
    assert Run(STAGE_CFG, sector, c1, 1) == Run(STAGE_KDEL, sector, c, 0);
    assert Run(STAGE_TBIND, sector, cnt, 2) == Run(STAGE_CFG, sector, c1, 1);
    assert Run(STAGE_DNAME, sector, cnt, 3) == Run(STAGE_TBIND, sector, cnt, 2);
  }

  /**
   * When the sector holds a token or a sequence-number record, `get all`
   * reports the MAC, the name, the token, the config and then every
   * deleted record, and ends after 5 + (number of deleted records) polls.
   */
  lemma GetAllReportsAll(sector: seq<u8>, cnt: u8)
    requires |sector| == FLASH_SECTOR_SIZE && |Deleted(sector)| <= 0xFF
    requires Scan(sector, MI_KEYTBIND_ID, 1, 0).Some? || Scan(sector, MI_KEYSEQNUM_ID, 1, 0).Some?
    ensures forall k :: 4 <= k < 5 + |Deleted(sector)| ==> Run(STAGE_GET_ALL, sector, cnt, k) == (STAGE_KDEL, k - 4)
    ensures Run(STAGE_GET_ALL, sector, cnt, 5 + |Deleted(sector)|) == (STAGE_END, Inc8(|Deleted(sector)|))
  {
    var d := |Deleted(sector)|;
    GetAllPrefix(sector, cnt);
    forall k | 4 <= k < 5 + d
      ensures Run(STAGE_GET_ALL, sector, cnt, k) == (STAGE_KDEL, k - 4)
    {
      RunSplit(STAGE_GET_ALL, sector, cnt, 4, k - 4);
      KdelCountsUp(sector, 0, k - 4);
    }
    RunSplit(STAGE_GET_ALL, sector, cnt, 4, d + 1);
    KdelEnds(sector, 0);
  }

  /**
   * `mi_key_chk_cnt` is reset only when a token or sequence-number record
   * exists: without both, a count left at or past the number of deleted
   * records by an earlier run makes `get all` end without reporting any.
   */
  lemma StaleCountHidesDeleted(sector: seq<u8>, cnt: u8)
    requires |sector| == FLASH_SECTOR_SIZE
    requires Scan(sector, MI_KEYTBIND_ID, 1, 0).None? && Scan(sector, MI_KEYSEQNUM_ID, 1, 0).None?
    requires |Deleted(sector)| <= cnt
    ensures Run(STAGE_GET_ALL, sector, cnt, 5) == (STAGE_END, Inc8(cnt))
  {
    GetAllPrefix(sector, cnt);
    DeletedNth(sector, Inc8(cnt));
    RunSplit(STAGE_GET_ALL, sector, cnt, 4, 1);
    assert Run(STAGE_KDEL, sector, cnt, 1) == Run(STAGE_END, sector, Inc8(cnt), 0);
  }

  /** An erased sector holds no key: every header reads 0xff bytes long. */
  lemma {:induction false} ErasedHasNoKeys(id: u16, h: nat)
    ensures Keys(ErasedSector(), id, Walk(ErasedSector(), h)) == []
    decreases SCAN_LIMIT - h
  {
    var e := ErasedSector();
    assert RecLen(e, h) == 0xFF;
    if Stops(e, h) {
      ScanSelectsAtStop(e, id, 1, h);
    } else {
      StopsPastSector(e, h);
      ErasedHasNoKeys(id, Next(e, h));
      WalkStep(e, h);
      KeysCons(e, id, h, Walk(e, Next(e, h)));
    }
  }

  /** After `erase_mikeys` every lookup answers that there is no key. */
  lemma ErasedFindsNothing(id: u16, cnt: u8)
    ensures Scan(ErasedSector(), id, cnt, 0) == None
  {
    ErasedHasNoKeys(id, 0);
    ScanSelects(ErasedSector(), id, cnt, 0);
  }

  // ---------------------------------------------------------------------
  // Payload copies of cmd_parser
  // ---------------------------------------------------------------------

  /** `sizeof(ext)` (two int16 numbers, the uint16 show time and a flag byte, packed) and `sizeof(cmf)`. */
  const EXT_SIZE: nat := 7
  const CMF_SIZE: nat := 8
  /** `sizeof(utc_time_sec)`. */
  const UTC_SIZE: nat := 4

  /**
   * `if(--len > size) len = size;`: how many bytes a request of `len`
   * bytes (the command id included) copies into a target of `size` bytes.
   */
  function PayloadLen(len: nat, size: nat): (n: nat)
    requires len >= 1
    ensures n <= size && n <= len - 1
    ensures n == size || n == len - 1
  {
    if len - 1 > size then size else len - 1
  }

  /** The request payload `memcpy`'d over the start of `dst`; the rest of `dst` keeps its bytes. */
  method CopyPayload(dst: array<u8>, dat: seq<u8>) returns (n: nat)
    requires |dat| >= 1
    modifies dst
    ensures n == PayloadLen(|dat|, dst.Length)
    ensures dst[..] == dat[1..1 + n] + old(dst[..])[n..]
  {
    n := PayloadLen(|dat|, dst.Length);
    forall k | 0 <= k < n {
      dst[k] := dat[1 + k];
    }
    assert dst[..] == dat[1..1 + n] + old(dst[..])[n..];
  }

  /** The comfort command as written: the test is against `sizeof(cfg)`, the clamp to `sizeof(cmf)`. */
  function ComfortLenAsWritten(len: nat, cfgSize: nat): nat
    requires len >= 1
  {
    if len - 1 > cfgSize then CMF_SIZE else len - 1
  }

  /**
   * With `cfg` larger than `cmf`, a request whose payload has between
   * `sizeof(cmf) + 1` and `sizeof(cfg)` bytes is copied whole, past the end
   * of `cmf`.
   */
  lemma ComfortAsWrittenOverruns(len: nat, cfgSize: nat)
    requires CMF_SIZE + 1 < len <= cfgSize + 1
    ensures ComfortLenAsWritten(len, cfgSize) == len - 1 > CMF_SIZE
  {
  }

  lemma ComfortAsWrittenExample()
    ensures ComfortLenAsWritten(10, 9) == 9 > CMF_SIZE
  {
    ComfortAsWrittenOverruns(10, 9);
  }

  /** The comfort command as intended: clamped to the size of `cmf`. */
  function ComfortLen(len: nat): (n: nat)
    requires len >= 1
    ensures n <= CMF_SIZE
    ensures len - 1 <= CMF_SIZE ==> n == len - 1
  {
    PayloadLen(len, CMF_SIZE)
  }

  /** A 16-bit value from its low and high byte. */
  function Word16(lo: u8, hi: u8): u16
  {
    lo as int + 256 * hi as int
  }

  /** The `ext` bytes as the ext-data record. */
  function ExtOf(b: seq<u8>): Display.ExtData
    requires |b| == EXT_SIZE
  {
    Display.ExtData(ToI16(Word16(b[0], b[1])), ToI16(Word16(b[2], b[3])), Word16(b[4], b[5]), b[6])
  }

  /** The low and the high byte of a 16-bit value, in memory order. */
  function Le16(x: int): (b: seq<u8>)
    ensures |b| == 2
  {
    var m := x % TWO_16;
    [m % 256, m / 256]
  }

  /** The ext-data record in memory. */
  function ExtBytes(e: Display.ExtData): (b: seq<u8>)
    ensures |b| == EXT_SIZE
  {
    Le16(e.bigNumber) + Le16(e.smallNumber) + Le16(e.vtimeSec) + [e.flg]
  }

  lemma Le16Int16(x: i16)
    ensures var b := Le16(x); ToI16(Word16(b[0], b[1])) == x
  {
    var b := Le16(x);
    assert Word16(b[0], b[1]) == x % TWO_16;
  }

  /** Decoding the bytes of a record gives the record back. */
  lemma ExtOfBytes(e: Display.ExtData)
    ensures ExtOf(ExtBytes(e)) == e
  {
    Le16Int16(e.bigNumber);
    Le16Int16(e.smallNumber);
    var b := ExtBytes(e);
    assert Word16(b[4], b[5]) == e.vtimeSec;
  }

  /** Encoding a decoded record gives the bytes back: every 7 bytes are a record. */
  lemma ExtBytesOf(b: seq<u8>)
    requires |b| == EXT_SIZE
    ensures ExtBytes(ExtOf(b)) == b
  {
    Le16Word(b[0], b[1]);
    Le16Word(b[2], b[3]);
    Le16Word(b[4], b[5]);
    assert b == b[0..2] + b[2..4] + b[4..6] + [b[6]];
  }

  /** The two bytes of a 16-bit value, read as unsigned or as int16, are the bytes it was read from. */
  lemma Le16Word(lo: u8, hi: u8)
    ensures Le16(Word16(lo, hi)) == [lo, hi] && Le16(ToI16(Word16(lo, hi))) == [lo, hi]
  {
    var w := Word16(lo, hi);
    var v := ToI16(w);
    assert v % TWO_16 == w;
    ByteSplit(lo, hi);
  }

  /**
   * `CMD_ID_EXTDATA`: copy the payload over `ext` and, when it is not
   * empty, show the ext layout for `ext.vtime_sec` seconds from `tick`.
   */
  method ExtDataCommand(ext: array<u8>, dat: seq<u8>, disp: Display.Display, tick: u32) returns (n: nat)
    requires ext.Length == EXT_SIZE && |dat| >= 1
    modifies ext, disp
    ensures n == PayloadLen(|dat|, EXT_SIZE)
    ensures ext[..] == dat[1..1 + n] + old(ext[..])[n..]
    ensures n > 0 ==> disp.chowTickSec == ExtOf(ext[..]).vtimeSec && disp.chowTickClk == tick
    ensures n == 0 ==> disp.chowTickSec == old(disp.chowTickSec) && disp.chowTickClk == old(disp.chowTickClk)
  {
    n := CopyPayload(ext, dat);
    if n > 0 {
      disp.ShowExt(Word16(ext[4], ext[5]), tick);
    }
  }

  /** `CMD_ID_CFG` / `CMD_ID_CFG_NS`: the payload over `cfg`. */
  method CfgCommand(cfg: array<u8>, dat: seq<u8>) returns (n: nat)
    requires |dat| >= 1
    modifies cfg
    ensures n == PayloadLen(|dat|, cfg.Length)
    ensures cfg[..] == dat[1..1 + n] + old(cfg[..])[n..]
  {
    n := CopyPayload(cfg, dat);
  }

  /** `CMD_ID_COMFORT`, clamped to `cmf` as intended (see `ComfortLenAsWritten`). */
  method ComfortCommand(cmf: array<u8>, dat: seq<u8>) returns (n: nat)
    requires cmf.Length == CMF_SIZE && |dat| >= 1
    modifies cmf
    ensures n == ComfortLen(|dat|)
    ensures cmf[..] == dat[1..1 + n] + old(cmf[..])[n..]
  {
    n := CopyPayload(cmf, dat);
  }

  /**
   * `CMD_ID_LCD_DUMP`: the payload over the display buffer; the result is
   * the new `lcd_flg.b.ext_data`, set exactly when something was copied.
   */
  method LcdDumpCommand(buff: array<bv8>, dat: seq<u8>) returns (extData: bool)
    requires |dat| >= 1
    modifies buff
    ensures var n := PayloadLen(|dat|, buff.Length);
      (extData <==> n > 0)
      && (forall k :: 0 <= k < n ==> buff[k] == dat[1 + k] as bv8)
      && buff[n..] == old(buff[n..])
  {
    var n := PayloadLen(|dat|, buff.Length);
    forall k | 0 <= k < n {
      buff[k] := dat[1 + k] as bv8;
    }
    extData := n > 0;
  }

  /** The bytes of a uint32 in memory, low byte first. */
  function Le32(x: u32): (b: seq<u8>)
    ensures |b| == UTC_SIZE
  {
    [x % 0x100, (x / 0x100) % 0x100, (x / 0x100 / 0x100) % 0x100, x / 0x100 / 0x100 / 0x100]
  }

  function FromLe32(b: seq<u8>): u32
    requires |b| == UTC_SIZE
  {
    b[0] as int + 0x100 * (b[1] as int + 0x100 * (b[2] as int + 0x100 * b[3] as int))
  }

  /** Splitting off the low byte. */
  lemma ByteSplit(lo: u8, hi: nat)
    ensures (lo + 0x100 * hi) % 0x100 == lo && (lo + 0x100 * hi) / 0x100 == hi
  {
  }

  lemma ByteJoin(x: nat)
    ensures x == x % 0x100 + 0x100 * (x / 0x100)
  {
  }

  lemma FromLe32Le32(x: u32)
    ensures FromLe32(Le32(x)) == x
  {
    var x1 := x / 0x100;
    var x2 := x1 / 0x100;
    ByteJoin(x);
    ByteJoin(x1);
    ByteJoin(x2);
  }

  lemma LeFromLe32(b: seq<u8>)
    requires |b| == UTC_SIZE
    ensures Le32(FromLe32(b)) == b
  {
    var y2 := b[2] as int + 0x100 * b[3] as int;
    var y1 := b[1] as int + 0x100 * y2;
    ByteSplit(b[0], y1);
    ByteSplit(b[1], y2);
    ByteSplit(b[2], b[3]);
  }

  /**
   * `CMD_ID_UTC_TIME`: the payload bytes replace the low bytes of
   * `utc_time_sec`; a short payload keeps the high ones.
   */
  function UtcAfter(utc: u32, dat: seq<u8>): (r: u32)
    requires |dat| >= 1
  {
    var n := PayloadLen(|dat|, UTC_SIZE);
    FromLe32(dat[1..1 + n] + Le32(utc)[n..])
  }

  /** A full payload sets the time to its little-endian value; an empty one leaves it. */
  lemma UtcAfterCases(utc: u32, dat: seq<u8>)
    requires |dat| >= 1
    ensures |dat| > UTC_SIZE ==> UtcAfter(utc, dat) == FromLe32(dat[1..1 + UTC_SIZE])
    ensures |dat| == 1 ==> UtcAfter(utc, dat) == utc
    ensures Le32(UtcAfter(utc, dat))[PayloadLen(|dat|, UTC_SIZE)..] == Le32(utc)[PayloadLen(|dat|, UTC_SIZE)..]
  {
    var n := PayloadLen(|dat|, UTC_SIZE);
    var b := dat[1..1 + n] + Le32(utc)[n..];
    LeFromLe32(b);
    if |dat| > UTC_SIZE {
      assert b == dat[1..1 + UTC_SIZE];
    }
    if |dat| == 1 {
      assert b == Le32(utc);
      FromLe32Le32(utc);
    }
  }

}
