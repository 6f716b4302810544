/**
 * `i2c.c`: the I2C master batches bytes into hardware transfers of at most
 * four (the id, address, data-out and data-in registers). `tx_state` holds
 * the number of loaded registers in its low nibble and, in bit 7, whether
 * the transaction is already open (its START was sent). Every flush is
 * recorded on the bus log with the bytes it sends, its START/STOP flags and
 * the stall the driver waits for it.
 */
module I2c {
  import opened Word

  const TX_STATE_BUF_LEN_MASK: nat := 0x0F
  const TX_STATE_OPEN: u8 := 0x80
  const TX_BUF_CAPACITY: nat := 4
  /** The I2C clock: `reg_i2c_speed` holds system clock / (4 * 750 kHz). */
  const I2C_CLOCK_HZ: nat := 750000

  /** What the bus sees: a flushed transfer, or the bare STOP of an abort. */
  datatype Bus = Transfer(bytes: seq<u8>, start: bool, stop: bool, stall: nat) | AbortStop

  /** `tx_state & TX_STATE_BUF_LEN_MASK` and `tx_state & TX_STATE_OPEN` on a byte. */
  function Len(txState: u8): nat
  {
    txState % 16
  }

  predicate Open(txState: u8)
  {
    txState >= TX_STATE_OPEN
  }

  /** The stall of a flush: 9 bits per byte (with ACK), one for START and one for STOP, 4 timer ticks per bit clock. */
  function Stall(n: nat, start: bool, stop: bool, speed: u8): nat
  {
    (9 * n + (if start then 1 else 0) + (if stop then 1 else 0)) * 4 * speed
  }

  /** The transfer `i2c_flush(stop)` issues for the loaded bytes `p`. */
  function Flushed(p: seq<u8>, open: bool, stop: bool, speed: u8): Bus
  {
    Transfer(p, !open, stop, Stall(|p|, !open, stop, speed))
  }

  /** The state of the batching: the bus log so far, the loaded bytes, the open flag. */
  datatype Batch = Batch(log: seq<Bus>, pending: seq<u8>, open: bool)

  /** `i2c_send_byte(b)` on the batching state. */
  function SendOne(s: Batch, b: u8, speed: u8): Batch
  {
    if |s.pending| == TX_BUF_CAPACITY then Batch(s.log + [Flushed(s.pending, s.open, false, speed)], [b], true)
    else Batch(s.log, s.pending + [b], s.open)
  }

  /** `i2c_send_buff`: the bytes one after the other. */
  function SendAll(s: Batch, bs: seq<u8>, speed: u8): Batch
    decreases |bs|
  {
    if bs == [] then s else SendOne(SendAll(s, bs[..|bs| - 1], speed), bs[|bs| - 1], speed)
  }

  /** The bytes of a list of transfers, in order. */
  function Bytes(log: seq<Bus>): seq<u8>
  {
    if log == [] then [] else (if log[0].Transfer? then log[0].bytes else []) + Bytes(log[1..])
  }

  lemma BytesSnoc(log: seq<Bus>, t: Bus)
    requires t.Transfer?
    ensures Bytes(log + [t]) == Bytes(log) + t.bytes
    decreases |log|
  {
    if log == [] {
      assert [t][1..] == [];
    } else {
      assert (log + [t])[1..] == log[1..] + [t];
      BytesSnoc(log[1..], t);
    }
  }

  /** The transfers a feed adds are full (four bytes), carry no STOP and only the first of a new transaction a START. */
  predicate FullChunks(log: seq<Bus>, from: nat, open: bool)
    requires from <= |log|
  {
    forall k :: from <= k < |log| ==>
      log[k].Transfer? && |log[k].bytes| == TX_BUF_CAPACITY && !log[k].stop && (log[k].start <==> k == from && !open)
  }

  /**
   * What a feed of `bs` from `s` to `r` keeps: `r` extends the log of `s`,
   * every byte comes out in order, the transfers added are full, there are
   * (|p| + n - 1) / 4 of them for `p` the bytes loaded in `s`, one to four
   * bytes stay loaded, and the transaction is open once a transfer went out.
   */
  predicate Shaped(s: Batch, r: Batch, bs: seq<u8>)
  {
    1 <= |s.pending| && |s.log| <= |r.log| && 1 <= |r.pending| <= TX_BUF_CAPACITY
    && r.log[..|s.log|] == s.log
    && Bytes(r.log[|s.log|..]) + r.pending == s.pending + bs
    && |Bytes(r.log[|s.log|..])| == TX_BUF_CAPACITY * (|r.log| - |s.log|)
    && |r.log| - |s.log| == (|s.pending| + |bs| - 1) / TX_BUF_CAPACITY
    && FullChunks(r.log, |s.log|, s.open)
    && (r.open <==> s.open || |r.log| > |s.log|)
  }

  /** Feeding one more byte keeps the shape, when the loaded bytes are flushed first ... */
  lemma SendOneFlushes(s: Batch, m: Batch, bs: seq<u8>, b: u8, speed: u8)
    requires Shaped(s, m, bs) && |m.pending| == TX_BUF_CAPACITY
    ensures Shaped(s, SendOne(m, b, speed), bs + [b])
  {
    var r := SendOne(m, b, speed);
    var t := Flushed(m.pending, m.open, false, speed);
    var k := |m.log| - |s.log|;
    assert r.log == m.log + [t];
    assert r.log[|s.log|..] == m.log[|s.log|..] + [t];
    BytesSnoc(m.log[|s.log|..], t);
    assert Bytes(r.log[|s.log|..]) + r.pending == (Bytes(m.log[|s.log|..]) + m.pending) + [b];
    assert |s.pending| + |bs| == 4 * k + 4;
    assert (|s.pending| + |bs| + 1 - 1) / 4 == k + 1;
    assert r.log[..|s.log|] == m.log[..|s.log|];
    forall k | |s.log| <= k < |r.log|
      ensures r.log[k].Transfer? && |r.log[k].bytes| == TX_BUF_CAPACITY && !r.log[k].stop
        && (r.log[k].start <==> k == |s.log| && !s.open)
    {
      if k < |m.log| {
        assert r.log[k] == m.log[k];
      }
    }
  }

  /** ... and when it is loaded beside them. */
  lemma SendOneLoads(s: Batch, m: Batch, bs: seq<u8>, b: u8, speed: u8)
    requires Shaped(s, m, bs) && |m.pending| < TX_BUF_CAPACITY
    ensures Shaped(s, SendOne(m, b, speed), bs + [b])
  {
    var r := SendOne(m, b, speed);
    var k := |m.log| - |s.log|;
    assert Bytes(r.log[|s.log|..]) + r.pending == (Bytes(m.log[|s.log|..]) + m.pending) + [b];
    assert |s.pending| + |bs| == 4 * k + |m.pending|;
    assert (|s.pending| + |bs| + 1 - 1) / 4 == k;
  }

  /** Feeding bytes to one to four loaded bytes has the shape `Shaped` describes. */
  lemma {:induction false} SendAllShape(s: Batch, bs: seq<u8>, speed: u8)
    requires 1 <= |s.pending| <= TX_BUF_CAPACITY
    ensures Shaped(s, SendAll(s, bs, speed), bs)
    decreases |bs|
  {
    if bs == [] {
      assert s.log[|s.log|..] == [];
    } else {
      var init := bs[..|bs| - 1];
      var b := bs[|bs| - 1];
      SendAllShape(s, init, speed);
      var m := SendAll(s, init, speed);
      assert bs == init + [b];
      if |m.pending| == TX_BUF_CAPACITY {
        SendOneFlushes(s, m, init, b, speed);
      } else {
        SendOneLoads(s, m, init, b, speed);
      }
    }
  }

  /**
   * A whole transaction, `i2c_start(address)`, `i2c_send_buff(bs)`,
   * `i2c_stop()`: the transfers it puts on the bus.
   */
  function Transaction(address: u8, bs: seq<u8>, speed: u8): seq<Bus>
  {
    var r := SendAll(Batch([], [address], false), bs, speed);
    r.log + [Flushed(r.pending, r.open, true, speed)]
  }

  /**
   * The address and n bytes go out in order as n / 4 + 1 transfers: all
   * but the last carry four bytes, the last one to four; only the first
   * has START and only the last STOP; each waits for its own bit count.
   */
  lemma TransactionShape(address: u8, bs: seq<u8>, speed: u8)
    ensures var ts := Transaction(address, bs, speed);
      |ts| == |bs| / TX_BUF_CAPACITY + 1
      && Bytes(ts) == [address] + bs
      && (forall k :: 0 <= k < |ts| ==>
            ts[k].Transfer? && 1 <= |ts[k].bytes| <= TX_BUF_CAPACITY
            && (ts[k].start <==> k == 0) && (ts[k].stop <==> k == |ts| - 1)
            && (k < |ts| - 1 ==> |ts[k].bytes| == TX_BUF_CAPACITY)
            && ts[k].stall == Stall(|ts[k].bytes|, ts[k].start, ts[k].stop, speed))
  {
    var s := Batch([], [address], false);
    var r := SendAll(s, bs, speed);
    SendAllShape(s, bs, speed);
    var last := Flushed(r.pending, r.open, true, speed);
    var ts := r.log + [last];
    assert r.log[|s.log|..] == r.log;
    BytesSnoc(r.log, last);
    forall k | 0 <= k < |ts|
      ensures ts[k].Transfer? && 1 <= |ts[k].bytes| <= TX_BUF_CAPACITY
        && (ts[k].start <==> k == 0) && (ts[k].stop <==> k == |ts| - 1)
        && (k < |ts| - 1 ==> |ts[k].bytes| == TX_BUF_CAPACITY)
        && ts[k].stall == Stall(|ts[k].bytes|, ts[k].start, ts[k].stop, speed)
    {
      if k < |r.log| {
        assert ts[k] == r.log[k];
        assert ts[k].stall == Stall(4, k == 0, false, speed) by {
          StallOfFeed(s, bs, speed, k);
        }
      }
    }
  }

  /** Every transfer a feed adds waits for its own bit count. */
  lemma {:induction false} StallOfFeed(s: Batch, bs: seq<u8>, speed: u8, k: nat)
    requires 1 <= |s.pending| <= TX_BUF_CAPACITY && s.log == []
    requires k < |SendAll(s, bs, speed).log|
    ensures var t := SendAll(s, bs, speed).log[k];
      t.Transfer? && t.stall == Stall(|t.bytes|, t.start, t.stop, speed)
    decreases |bs|
  {
    var init := bs[..|bs| - 1];
    var m := SendAll(s, init, speed);
    if k < |m.log| {
      StallOfFeed(s, init, speed, k);
    }
  }

  /** The driver: `tx_state`, the four data registers, the clock divider and the bus log. */
  class Driver {
    var txState: u8
    var regs: seq<u8>
    var clockOn: bool
    var speed: u8
    var log: seq<Bus>
    /** `(uint8_t)(CLOCK_SYS_CLOCK_HZ / (4 * 750000))`, for the board's system clock. */
    const divider: u8

    /** At most four registers are loaded; bit 7 is the only other bit that can be set. */
    ghost predicate Valid()
      reads this
    {
      |regs| == TX_BUF_CAPACITY && txState % 0x80 <= TX_BUF_CAPACITY
    }

    /** The loaded bytes. */
    function Pending(): (p: seq<u8>)
      reads this
      requires Valid()
      ensures |p| == Len(txState) <= TX_BUF_CAPACITY
    {
      regs[..Len(txState)]
    }

    /** The batching state of the driver. */
    function State(): Batch
      reads this
      requires Valid()
    {
      Batch(log, Pending(), Open(txState))
    }

    constructor (sysClockHz: nat)
      ensures Valid() && txState == 0 && !clockOn && log == []
      ensures divider == (sysClockHz / (4 * I2C_CLOCK_HZ)) % TWO_8
    {
      txState := 0;
      regs := [0, 0, 0, 0];
      clockOn := false;
      speed := 0;
      log := [];
      divider := (sysClockHz / (4 * I2C_CLOCK_HZ)) % TWO_8;
    }

    /** `i2c_start(address)`: set the clock up on first use, load the address, one byte loaded, not open. */
    method Start(address: u8)
      requires Valid()
      modifies this
      ensures Valid() && log == old(log) && clockOn
      ensures speed == if old(clockOn) then old(speed) else divider
      ensures txState == 1 && Pending() == [address] && State() == Batch(log, [address], false)
    {
      if !clockOn {
        speed := divider;
        clockOn := true;
      }
      regs := regs[0 := address];
      txState := 1;
    }

    /** `i2c_flush(stop)`: put the loaded bytes on the bus, with START when not open. */
    method Flush(stop: bool)
      requires Valid()
      modifies this
      ensures Valid() && txState == old(txState) && regs == old(regs) && speed == old(speed) && clockOn == old(clockOn)
      ensures log == old(log) + [Flushed(old(Pending()), Open(old(txState)), stop, speed)]
    {
      var len := Len(txState);
      var start := !Open(txState);
      var bits := len * 9;
      if start {
        bits := bits + 1;
      }
      if stop {
        bits := bits + 1;
      }
      log := log + [Transfer(regs[..len], start, stop, bits * 4 * speed)];
    }

    /** `i2c_stop`: flush with STOP and close the transaction. */
    method Stop()
      requires Valid()
      modifies this
      ensures Valid() && txState == 0 && regs == old(regs) && speed == old(speed) && clockOn == old(clockOn)
      ensures log == old(log) + [Flushed(old(Pending()), Open(old(txState)), true, speed)]
    {
      Flush(true);
      txState := 0;
    }

    /** `i2c_abort`: a bare STOP, and the transaction is closed. */
    method Abort()
      requires Valid()
      modifies this
      ensures Valid() && txState == 0 && regs == old(regs) && speed == old(speed) && clockOn == old(clockOn)
      ensures log == old(log) + [AbortStop]
    {
      log := log + [AbortStop];
      txState := 0;
    }

    /** `i2c_check_address`: an empty probe of the address; `nak` is the status the hardware reports. */
    method CheckAddress(address: u8, nak: bool) returns (ok: bool)
      requires Valid()
      modifies this
      ensures Valid() && txState == 0 && clockOn
      ensures log == old(log) + [Flushed([address], false, true, speed)]
      ensures ok <==> !nak
    {
      Start(address);
      Stop();
      ok := !nak;
    }

    /**
     * `i2c_send_byte(b)`: when four bytes are loaded they are flushed
     * without STOP first and loading restarts, open, at the first register.
     */
    method SendByte(b: u8)
      requires Valid()
      modifies this
      ensures Valid() && speed == old(speed) && clockOn == old(clockOn)
      ensures State() == SendOne(old(State()), b, speed)
    {
      var len := Len(txState);
      if len == TX_BUF_CAPACITY {
        Flush(false);
        len := 0;
        txState := TX_STATE_OPEN;
      }
      regs := regs[len := b];
      txState := txState + 1;
      assert Pending() == old(Pending()) + [b] || Pending() == [b];
    }

    /** `i2c_send_buff`: each byte in order. */
    method SendBuff(buff: seq<u8>)
      requires Valid()
      modifies this
      ensures Valid() && speed == old(speed) && clockOn == old(clockOn)
      ensures State() == SendAll(old(State()), buff, speed)
    {
      ghost var s0 := State();
      var i := 0;
      while i < |buff|
        invariant 0 <= i <= |buff|
        invariant Valid() && speed == old(speed) && clockOn == old(clockOn)
        invariant State() == SendAll(s0, buff[..i], speed)
      {
        assert buff[..i + 1][..i] == buff[..i];
        SendByte(buff[i]);
        i := i + 1;
      }
      assert buff[..|buff|] == buff;
    }

    /** `i2c_write_tx_1byte`: the address and one byte in a single START..STOP transfer. */
    method WriteTx1Byte(address: u8, data: u8)
      requires Valid()
      modifies this
      ensures Valid() && txState == 0 && clockOn
      ensures log == old(log) + [Flushed([address, data], false, true, speed)]
    {
      Start(address);
      regs := regs[1 := data];
      txState := 2;
      assert Pending() == [address, data];
      Stop();
    }

    /** `i2c_write_tx_1word`: the address and a 16-bit word, low byte first, in a single transfer. */
    method WriteTx1Word(address: u8, data: u16)
      requires Valid()
      modifies this
      ensures Valid() && txState == 0 && clockOn
      ensures log == old(log) + [Flushed([address, data % TWO_8, data / TWO_8], false, true, speed)]
    {
      Start(address);
      regs := regs[1 := data % TWO_8][2 := data / TWO_8];
      txState := 3;
      assert Pending() == [address, data % TWO_8, data / TWO_8];
      Stop();
    }
  }
}
