/**
 * `blt_common.c`: the device MAC addresses. The 8-byte flash record at
 * `CFG_ADR_MAC` holds the public address (byte-reversed on CGG1) followed by
 * two bytes of the random static address; `blc_initMacAddress` makes one up
 * when the record is erased and derives both addresses from it.
 */
module BltCommon {
  import opened Word

  /** Length of a MAC address and of the flash record. */
  const MAC_LEN: nat := 6
  const RECORD_LEN: nat := 8

  /** The reversed copy `SwapMacAddress` writes. */
  function SwapMac(mac: seq<u8>): (out: seq<u8>)
    requires |mac| >= MAC_LEN
    ensures |out| == MAC_LEN
    ensures forall k :: 0 <= k < MAC_LEN ==> out[k] == mac[MAC_LEN - 1 - k]
  {
    [mac[5], mac[4], mac[3], mac[2], mac[1], mac[0]]
  }

  /** Swapping twice gives back the address. */
  lemma SwapMacTwice(mac: seq<u8>)
    requires |mac| == MAC_LEN
    ensures SwapMac(SwapMac(mac)) == mac
  {
    var twice := SwapMac(SwapMac(mac));
    forall k | 0 <= k < MAC_LEN
      ensures twice[k] == mac[k]
    {
      assert twice[k] == SwapMac(mac)[MAC_LEN - 1 - k];
    }
  }

  /** `SwapMacAddress(mac_out, mac_in)` on two buffers (or two disjoint ranges of one). */
  method SwapMacAddress(macOut: array<u8>, outAt: nat, macIn: array<u8>, inAt: nat)
    requires outAt + MAC_LEN <= macOut.Length && inAt + MAC_LEN <= macIn.Length
    requires macOut != macIn || outAt + MAC_LEN <= inAt || inAt + MAC_LEN <= outAt
    modifies macOut
    ensures macOut[outAt..outAt + MAC_LEN] == SwapMac(old(macIn[inAt..inAt + MAC_LEN]))
    ensures macOut[..outAt] == old(macOut[..outAt])
    ensures macOut[outAt + MAC_LEN..] == old(macOut[outAt + MAC_LEN..])
    ensures macOut != macIn ==> macIn[..] == old(macIn[..])
  {
    ghost var src := macIn[inAt..inAt + MAC_LEN];
    macOut[outAt] := macIn[inAt + 5];
    macOut[outAt + 1] := macIn[inAt + 4];
    macOut[outAt + 2] := macIn[inAt + 3];
    macOut[outAt + 3] := macIn[inAt + 2];
    macOut[outAt + 4] := macIn[inAt + 1];
    macOut[outAt + 5] := macIn[inAt];
    assert macOut[outAt..outAt + MAC_LEN] == SwapMac(src);
  }

  /** The record `blc_newMacAddress(pub, rand)` writes. */
  function NewRecord(device: Device, pub: seq<u8>, rand: seq<u8>): (rec: seq<u8>)
    requires |pub| >= MAC_LEN && |rand| >= 5
    ensures |rec| == RECORD_LEN
    ensures rec[6] == rand[3] && rec[7] == rand[4]
  {
    (if device == Cgg1 then SwapMac(pub) else pub[..MAC_LEN]) + [rand[3], rand[4]]
  }

  /** Both 32-bit words of the record read 0xffffffff. */
  predicate Erased(rec: seq<u8>)
    requires |rec| == RECORD_LEN
  {
    forall k :: 0 <= k < RECORD_LEN ==> rec[k] == 0xFF
  }

  /** The record made up for an erased one from the random bytes `rnd`. */
  function GeneratedRecord(device: Device, rnd: seq<u8>): (rec: seq<u8>)
    requires |rnd| == 5
    ensures |rec| == RECORD_LEN
  {
    if device == Cgg1 then [0x58, 0x2D, 0x34] + rnd
    else rnd[..3] + [0x38, 0xC1, 0xA4] + rnd[3..]
  }

  /** The public address read from a record. */
  function PublicOf(device: Device, rec: seq<u8>): (pub: seq<u8>)
    requires |rec| == RECORD_LEN
    ensures |pub| == MAC_LEN
  {
    if device == Cgg1 then SwapMac(rec) else rec[..MAC_LEN]
  }

  /** The random static address derived from the public one and the record. */
  function RandomOf(pub: seq<u8>, rec: seq<u8>): (rand: seq<u8>)
    requires |pub| == MAC_LEN && |rec| == RECORD_LEN
    ensures |rand| == MAC_LEN
  {
    pub[..3] + [rec[6], rec[7], 0xC0]
  }

  /** The record `blc_initMacAddress` leaves in flash. */
  function InitRecord(device: Device, rec: seq<u8>, rnd: seq<u8>): (r: seq<u8>)
    requires |rec| == RECORD_LEN && |rnd| == 5
    ensures |r| == RECORD_LEN
    ensures !Erased(rec) ==> r == rec
  {
    if Erased(rec) then GeneratedRecord(device, rnd) else rec
  }

  /**
   * A made-up record is never erased, and its public address carries the
   * manufacturer prefix: written most significant byte first it begins
   * 58:2D:34 on CGG1 and A4:C1:38 on CGDK2.
   */
  lemma GeneratedRecordShape(device: Device, rnd: seq<u8>)
    requires |rnd| == 5
    ensures !Erased(GeneratedRecord(device, rnd))
    ensures var pub := PublicOf(device, GeneratedRecord(device, rnd));
      [pub[5], pub[4], pub[3]] == (if device == Cgg1 then [0x58, 0x2D, 0x34] else [0xA4, 0xC1, 0x38])
  {
    var rec := GeneratedRecord(device, rnd);
    if device == Cgg1 {
      assert rec[0] == 0x58;
    } else {
      assert rec[3] == 0x38;
    }
  }

  /** A second initialisation finds the record the first one wrote and leaves it alone. */
  lemma InitRecordIdempotent(device: Device, rec: seq<u8>, rnd1: seq<u8>, rnd2: seq<u8>)
    requires |rec| == RECORD_LEN && |rnd1| == 5 && |rnd2| == 5
    ensures InitRecord(device, InitRecord(device, rec, rnd1), rnd2) == InitRecord(device, rec, rnd1)
  {
    if Erased(rec) {
      GeneratedRecordShape(device, rnd1);
    }
  }

  /**
   * Storing a public address and random bytes 3 and 4 with `blc_newMacAddress`
   * and reading the record back with `blc_initMacAddress` gives the same
   * public address, and the same random static address whenever that one is
   * in the form the command parser builds (the public address's first three
   * bytes, two free bytes, 0xC0).
   */
  lemma NewThenInit(device: Device, pub: seq<u8>, rand: seq<u8>, rnd: seq<u8>)
    requires |pub| == MAC_LEN && |rand| == MAC_LEN && |rnd| == 5
    requires !Erased(NewRecord(device, pub, rand))
    ensures var rec := InitRecord(device, NewRecord(device, pub, rand), rnd);
      PublicOf(device, rec) == pub
      && RandomOf(pub, rec)[3..5] == rand[3..5]
      && (rand[..3] == pub[..3] && rand[5] == 0xC0 ==> RandomOf(pub, rec) == rand)
  {
    var rec := NewRecord(device, pub, rand);
    if device == Cgg1 {
      SwapMacTwice(pub);
      assert rec[..MAC_LEN] == SwapMac(pub);
      assert SwapMac(rec) == SwapMac(rec[..MAC_LEN]);
    } else {
      assert rec[..MAC_LEN] == pub;
    }
  }

  /** The MAC flash record at `CFG_ADR_MAC`. */
  class MacFlash {
    var record: seq<u8>

    constructor (rec: seq<u8>)
      requires |rec| == RECORD_LEN
      ensures record == rec
    {
      record := rec;
    }

    /** `blc_newMacAddress`: erase the sector and write the new record. */
    method NewMacAddress(device: Device, macPub: array<u8>, macRand: array<u8>)
      requires macPub.Length == MAC_LEN && macRand.Length == MAC_LEN
      modifies this
      ensures record == NewRecord(device, macPub[..], macRand[..])
    {
      var macFlash := new u8[RECORD_LEN];
      if device == Cgg1 {
        SwapMacAddress(macFlash, 0, macPub, 0);
      } else {
        forall k | 0 <= k < MAC_LEN {
          macFlash[k] := macPub[k];
        }
      }
      macFlash[6] := macRand[3];
      macFlash[7] := macRand[4];
      record := macFlash[..];
      assert record[..MAC_LEN] == (if device == Cgg1 then SwapMac(macPub[..]) else macPub[..]);
    }

    /**
     * `blc_initMacAddress`: make up and store a record when the stored one is
     * erased (`rnd` stands for `generateRandomNum`), then fill in the public
     * and random static addresses from the record.
     */
    method InitMacAddress(device: Device, macPub: array<u8>, macRand: array<u8>, rnd: seq<u8>)
      requires |record| == RECORD_LEN && |rnd| == 5
      requires macPub.Length == MAC_LEN && macRand.Length == MAC_LEN && macPub != macRand
      modifies this, macPub, macRand
      ensures record == InitRecord(device, old(record), rnd)
      ensures macPub[..] == PublicOf(device, record)
      ensures macRand[..] == RandomOf(macPub[..], record)
    {
      var macRead := new u8[RECORD_LEN];
      forall k | 0 <= k < RECORD_LEN {
        macRead[k] := record[k];
      }
      assert macRead[..] == record;
      if Erased(macRead[..]) {
        Generate(device, macRead, rnd);
        record := macRead[..];
      }
      CopyPublic(device, macPub, macRead);
      macRand[0] := macPub[0];
      macRand[1] := macPub[1];
      macRand[2] := macPub[2];
      macRand[3] := macRead[6];
      macRand[4] := macRead[7];
      macRand[5] := 0xC0;
      assert macRand[..] == RandomOf(macPub[..], macRead[..]);
    }

    /** The made-up record, written into the read buffer. */
    static method Generate(device: Device, macRead: array<u8>, rnd: seq<u8>)
      requires macRead.Length == RECORD_LEN && |rnd| == 5
      modifies macRead
      ensures macRead[..] == GeneratedRecord(device, rnd)
    {
      if device == Cgg1 {
        macRead[0], macRead[1], macRead[2] := 0x58, 0x2D, 0x34;
        macRead[3], macRead[4], macRead[5], macRead[6], macRead[7] := rnd[0], rnd[1], rnd[2], rnd[3], rnd[4];
      } else {
        macRead[0], macRead[1], macRead[2] := rnd[0], rnd[1], rnd[2];
        macRead[3], macRead[4], macRead[5] := 0x38, 0xC1, 0xA4;
        macRead[6], macRead[7] := rnd[3], rnd[4];
      }
    }

    /** "copy public address": reversed on CGG1, as stored on CGDK2. */
    static method CopyPublic(device: Device, macPub: array<u8>, macRead: array<u8>)
      requires macPub.Length == MAC_LEN && macRead.Length == RECORD_LEN && macPub != macRead
      modifies macPub
      ensures macPub[..] == PublicOf(device, macRead[..])
    {
      if device == Cgg1 {
        SwapMacAddress(macPub, 0, macRead, 0);
        assert macRead[..MAC_LEN] == macRead[..][..MAC_LEN];
      } else {
        forall k | 0 <= k < MAC_LEN {
          macPub[k] := macRead[k];
        }
      }
    }
  }
}
