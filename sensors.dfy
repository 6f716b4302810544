/**
 * Two-phase acquisition from the Sensirion SHTC3 / SHT4x humidity sensor (sensors.c).
 *
 * `sensor_read` alternates between starting a conversion and, 11 ms later,
 * collecting it; the collect times are spaced by adding the read interval to
 * `last_read`, so the cadence does not drift with loop latency.  A reading is
 * accepted only when the Sensirion CRC-8 over the two temperature bytes matches;
 * the raw values are converted to hundredths of a degree / percent.
 * The I2C traffic of one read attempt is an input (`BusAttempt`), the commands sent
 * to the sensor are recorded in a log.
 */
module Sensors {
  import opened Word
  import opened UClock

  /** SENSOR_MEASURING_TIMEOUT_ms, in microseconds. */
  const MEASURING_TIMEOUT_US: nat := 11 * 1000
  /** CRC_POLYNOMIAL 0x131 (x^8 + x^5 + x^4 + 1) with the x^8 term dropped. */
  const CRC_POLY: bv8 := 0x31
  /** The retry counter of read_sensor_cb starts at 512, so at most 513 attempts. */
  const MAX_ATTEMPTS: nat := 513

  /** Which sensor answered the address scan (`sensor_i2c_addr`). */
  datatype SensorKind = Shtc3 | Sht4x | NoSensor

  /** Commands sent to the sensor (send_sensor_word / send_sensor_byte), and the battery check. */
  datatype SensorEvent = Word16(word: u16) | Byte(byte: u8) | BatteryCheck

  const SHTC3_WAKEUP: u16 := 0x1735
  const SHTC3_SOFT_RESET: u16 := 0x5d80
  const SHTC3_GO_SLEEP: u16 := 0x98b0
  const SHTC3_MEASURE: u16 := 0x6678
  const SHT4X_SOFT_RESET: u8 := 0x94
  const SHT4X_MEASURE_HI: u8 := 0xFD

  /** get_read_interval_us(): advertising_interval is in 62.5 ms units; uint32 arithmetic. */
  function ReadIntervalUs(advertisingInterval: u8, measureInterval: u8): (r: u32)
    ensures 1 <= advertisingInterval <= 160 && 1 <= measureInterval <= 25 ==>
      r == 62500 * advertisingInterval * measureInterval && 62500 <= r <= 250000000 && r < MAX_TIMER_US
  {
    var x := 62500 * advertisingInterval;
    if 1 <= advertisingInterval <= 160 && 1 <= measureInterval <= 25 then
      MulMono(62500, 1, x, measureInterval);
      MulMono(x, measureInterval, 62500 * 160, 25);
      (x * measureInterval) % TWO_32
    else
      (x * measureInterval) % TWO_32
  }

  // ---------------------------------------------------------------- CRC-8

  /** One step of the bitwise CRC loop. */
  function CrcShift(crc: bv8): bv8
  {
    if crc & 0x80 != 0 then (crc << 1) ^ CRC_POLY else crc << 1
  }

  /** `n` steps of the bitwise CRC loop. */
  function CrcShifts(crc: bv8, n: nat): bv8
  {
    if n == 0 then crc else CrcShift(CrcShifts(crc, n - 1))
  }

  /** The Sensirion CRC-8 (polynomial 0x31, initial value 0xFF) of two bytes. */
  function Crc8(b0: bv8, b1: bv8): bv8
  {
    CrcShifts(CrcShifts(b0 ^ 0xFF, 8) ^ b1, 8)
  }

  /** The check value of the Sensirion datasheets: CRC(0xBE, 0xEF) = 0x92. */
  lemma CrcDatasheetExample()
    ensures Crc8(0xBE, 0xEF) == 0x92
  {
  }

  // ---------------------------------------------------------------- conversion

  /** What the sensor returned for one addressing attempt. */
  datatype BusAttempt =
    | Nak
    | Ack(t0: bv8, t1: bv8, crc: bv8, h0: bv8, h1: bv8)

  function Raw16(hi: bv8, lo: bv8): (r: nat)
    ensures r < TWO_16
  {
    hi as nat * 256 + lo as nat
  }

  /** A reading is accepted when the CRC matches and the temperature is not 0xFFFF. */
  predicate Acceptable(a: BusAttempt)
    requires a.Ack?
  {
    Crc8(a.t0, a.t1) == a.crc && Raw16(a.t0, a.t1) != 0xFFFF
  }

  /** Temperature in 0.01 C: ((17500 * raw) >> 16) - 4500 + 10 * temp_offset. */
  function TempX100(raw: nat, tempOffset: i8): (t: i16)
    requires raw < 0xFFFF
    ensures -4500 + 10 * tempOffset <= t <= 12999 + 10 * tempOffset
    ensures raw == 0 ==> t == -4500 + 10 * tempOffset
  {
    assert 17500 * raw <= 17500 * 0xFFFE;
    (17500 * raw) / TWO_16 - 4500 + 10 * tempOffset
  }

  /** Humidity in 0.01 %, before clamping; the unsigned arithmetic lands in int16 unchanged. */
  function HumiRawX100(kind: SensorKind, raw: nat, humiOffset: i8): (h: int)
    requires raw < TWO_16
    ensures kind == Shtc3 ==> 10 * humiOffset <= h <= 9999 + 10 * humiOffset
    ensures kind != Shtc3 ==> -600 + 10 * humiOffset <= h <= 11899 + 10 * humiOffset
  {
    if kind == Shtc3 then
      assert 10000 * raw <= 10000 * 0xFFFF;
      ToI16((10000 * raw) / TWO_16 + 10 * humiOffset)
    else
      assert 12500 * raw <= 12500 * 0xFFFF;
      ToI16((12500 * raw) / TWO_16 - 600 + 10 * humiOffset)
  }

  /** Humidity clamped to [0, 9999]. */
  function ClampHumi(h: int): (r: i16)
    ensures 0 <= r <= 9999
    ensures 0 <= h <= 9999 ==> r == h
    ensures h < 0 ==> r == 0
    ensures h > 9999 ==> r == 9999
  {
    if h < 0 then 0 else if h > 9999 then 9999 else h
  }

  /** Outcome of read_sensor_cb: the attempts used and, when accepted, the values. */
  datatype Reading = Accepted(attempts: nat, temp: i16, humi: i16) | Failed(attempts: nat)

  /** The retry loop from attempt `n` on (0-based), as a specification. */
  function ReadFrom(kind: SensorKind, tempOffset: i8, humiOffset: i8, bus: nat -> BusAttempt, n: nat): Reading
    requires n < MAX_ATTEMPTS
    decreases MAX_ATTEMPTS - n
  {
    match bus(n)
    case Nak => if n == MAX_ATTEMPTS - 1 then Failed(MAX_ATTEMPTS) else ReadFrom(kind, tempOffset, humiOffset, bus, n + 1)
    case Ack(t0, t1, c, h0, h1) =>
      if Acceptable(bus(n)) then
        Accepted(n + 1, TempX100(Raw16(t0, t1), tempOffset), ClampHumi(HumiRawX100(kind, Raw16(h0, h1), humiOffset)))
      else Failed(n + 1)
  }

  predicate AllNak(bus: nat -> BusAttempt, k: nat)
  {
    forall j :: 0 <= j < k ==> bus(j).Nak?
  }

  /**
   * The retry loop is bounded and stops at the first answer: NAKs consume one
   * attempt each, up to 513; the first acknowledged attempt ends the loop whether its
   * CRC matches or not (the counter was reused by the CRC loops and is 0).
   */
  lemma {:induction false} ReadOutcome(kind: SensorKind, tempOffset: i8, humiOffset: i8, bus: nat -> BusAttempt, n: nat)
    requires n < MAX_ATTEMPTS && AllNak(bus, n)
    ensures 1 <= ReadFrom(kind, tempOffset, humiOffset, bus, n).attempts <= MAX_ATTEMPTS
    ensures var r := ReadFrom(kind, tempOffset, humiOffset, bus, n); var k := r.attempts - 1;
      AllNak(bus, k) &&
      (bus(k).Nak? ==> k == MAX_ATTEMPTS - 1 && r.Failed?) &&
      (bus(k).Ack? ==> (r.Accepted? <==> Acceptable(bus(k))))
    decreases MAX_ATTEMPTS - n
  {
    if bus(n).Nak? && n < MAX_ATTEMPTS - 1 {
      ReadOutcome(kind, tempOffset, humiOffset, bus, n + 1);
    }
  }

  /** An accepted reading has humidity within [0, 9999]. */
  lemma AcceptedHumidityInRange(kind: SensorKind, tempOffset: i8, humiOffset: i8, bus: nat -> BusAttempt)
    ensures var r := ReadFrom(kind, tempOffset, humiOffset, bus, 0); r.Accepted? ==> 0 <= r.humi <= 9999
  {
    AcceptedHumidityFrom(kind, tempOffset, humiOffset, bus, 0);
  }

  lemma {:induction false} AcceptedHumidityFrom(kind: SensorKind, tempOffset: i8, humiOffset: i8, bus: nat -> BusAttempt, n: nat)
    requires n < MAX_ATTEMPTS
    ensures var r := ReadFrom(kind, tempOffset, humiOffset, bus, n); r.Accepted? ==> 0 <= r.humi <= 9999
    decreases MAX_ATTEMPTS - n
  {
    if bus(n).Nak? && n < MAX_ATTEMPTS - 1 {
      AcceptedHumidityFrom(kind, tempOffset, humiOffset, bus, n + 1);
    }
  }

  /**
   * The two bitwise CRC loops of read_sensor_cb over the temperature bytes. They run
   * on the function's retry counter `i`, which they leave at 0.
   */
  method ChecksumTemperature(t0: bv8, t1: bv8) returns (crc: bv8, i: int)
    ensures crc == Crc8(t0, t1) && i == 0
  {
    crc := t0 ^ 0xFF;
    i := 8;
    while i > 0
      invariant 0 <= i <= 8 && crc == CrcShifts(t0 ^ 0xFF, 8 - i)
    {
      crc := if crc & 0x80 != 0 then (crc << 1) ^ CRC_POLY else crc << 1;
      i := i - 1;
    }
    crc := crc ^ t1;
    ghost var mid := crc;
    i := 8;
    while i > 0
      invariant 0 <= i <= 8 && crc == CrcShifts(mid, 8 - i)
    {
      crc := if crc & 0x80 != 0 then (crc << 1) ^ CRC_POLY else crc << 1;
      i := i - 1;
    }
  }

  /**
   * The bus transaction and checksum loops of read_sensor_cb, including the reuse of
   * the retry counter `i` by the two CRC loops.
   */
  method ReadSensor(kind: SensorKind, tempOffset: i8, humiOffset: i8, bus: nat -> BusAttempt) returns (r: Reading)
    ensures r == ReadFrom(kind, tempOffset, humiOffset, bus, 0)
  {
    var i: int := 512;
    var n: nat := 0;
    while true
      invariant 0 <= n < MAX_ATTEMPTS && i == 512 - n
      invariant ReadFrom(kind, tempOffset, humiOffset, bus, n) == ReadFrom(kind, tempOffset, humiOffset, bus, 0)
      decreases i
    {
      var a := bus(n);
      if a.Ack? {
        var crc: bv8;
        crc, i := ChecksumTemperature(a.t0, a.t1);
        var rawTemp := Raw16(a.t0, a.t1);
        if crc == a.crc && rawTemp != 0xFFFF {
          var humi := ClampHumi(HumiRawX100(kind, Raw16(a.h0, a.h1), humiOffset));
          return Accepted(n + 1, TempX100(rawTemp, tempOffset), humi);
        }
      }
      if i == 0 {
        return Failed(n + 1);
      }
      i := i - 1;
      n := n + 1;
    }
  }

  // ---------------------------------------------------------------- phase machine

  /** What one sensor_read call did. */
  datatype Action = Wait | Start | Collect

  /** The acquisition phase: `sensor_busy` and `last_read`. */
  datatype Phase = Phase(busy: bool, lastRead: u32)

  /** One sensor_read call, given whether `next_awake` had expired. */
  function Cycle(p: Phase, expired: bool, interval: u32): (Phase, Action)
  {
    if !expired then (p, Wait)
    else if !p.busy then (Phase(true, p.lastRead), Start)
    else (Phase(false, Add32(p.lastRead, interval)), Collect)
  }

  /** Successive calls; `expired[k]` tells whether the k-th call found its deadline passed. */
  function Run(p: Phase, expired: seq<bool>, interval: u32): (Phase, seq<Action>)
    decreases |expired|
  {
    if expired == [] then (p, [])
    else
      var (p1, a) := Cycle(p, expired[0], interval);
      var (q, acts) := Run(p1, expired[1..], interval);
      (q, [a] + acts)
  }

  /** Starts and collects alternate, beginning with a start when idle. */
  predicate Alternating(acts: seq<Action>, busy: bool)
    decreases |acts|
  {
    if acts == [] then true
    else match acts[0]
      case Wait => Alternating(acts[1..], busy)
      case Start => !busy && Alternating(acts[1..], true)
      case Collect => busy && Alternating(acts[1..], false)
  }

  function Collects(acts: seq<Action>): nat
  {
    if acts == [] then 0 else (if acts[0] == Collect then 1 else 0) + Collects(acts[1..])
  }

  /**
   * Exclusivity and additive cadence: any run of calls starts and collects
   * alternately, and `last_read` ends exactly `interval` per collect later than it
   * began, however late each call came.
   */
  lemma {:induction false} RunAlternatesAndKeepsCadence(p: Phase, expired: seq<bool>, interval: u32)
    ensures Alternating(Run(p, expired, interval).1, p.busy)
    ensures Run(p, expired, interval).0.lastRead == Add32(p.lastRead, interval * Collects(Run(p, expired, interval).1))
    decreases |expired|
  {
    if expired != [] {
      var (p1, a) := Cycle(p, expired[0], interval);
      RunAlternatesAndKeepsCadence(p1, expired[1..], interval);
      var (q, acts) := Run(p1, expired[1..], interval);
      assert Run(p, expired, interval) == (q, [a] + acts);
      assert ([a] + acts)[1..] == acts;
      if a == Collect {
        Add32Add32(p.lastRead, interval, interval * Collects(acts));
        assert interval + interval * Collects(acts) == interval * (1 + Collects(acts));
      }
    }
  }

  /** The sensor module's state. */
  class Sensor {
    const kind: SensorKind    // sensor_i2c_addr as found by sensor_init
    var busy: bool            // sensor_busy
    var nextAwake: u32        // next_awake
    var lastRead: u32         // last_read
    var temp: i16             // measured_data.temp
    var humi: i16             // measured_data.humi
    var count: u16            // measured_data.count
    var log: seq<SensorEvent>

    /** sensor_init without the address scan: the sensor found is a parameter. */
    constructor Init(clock: Clock, tick: u32, found: SensorKind)
      modifies clock
      ensures kind == found && !busy && temp == 0 && humi == 0 && count == 0
      ensures clock.Counter() == Step(old(clock.Counter()), tick)
      ensures lastRead == nextAwake == clock.lastUclock
      ensures clock.nextSleepUs == Coalesce(old(clock.nextSleepUs), clock.thisLoopStart, nextAwake)
      ensures log == (if found == Shtc3 then [Word16(SHTC3_WAKEUP)] else []) + ResetCommands(found)
    {
      kind := found;
      busy := false;
      temp, humi, count := 0, 0, 0;
      var t := clock.AwakeAfter(tick, 0);
      lastRead := t;
      nextAwake := t;
      log := (if found == Shtc3 then [Word16(SHTC3_WAKEUP)] else []) + ResetCommands(found);
    }

    static function ResetCommands(k: SensorKind): seq<SensorEvent>
    {
      match k
      case Shtc3 => [Word16(SHTC3_SOFT_RESET), Word16(SHTC3_GO_SLEEP)]
      case Sht4x => [Byte(SHT4X_SOFT_RESET)]
      case NoSensor => []
    }

    static function StartCommands(k: SensorKind): seq<SensorEvent>
    {
      match k
      case Shtc3 => [Word16(SHTC3_WAKEUP), Word16(SHTC3_MEASURE)]
      case Sht4x => [Byte(SHT4X_MEASURE_HI)]
      case NoSensor => []
    }

    /** sensor_is_idle(). */
    predicate IsIdle()
      reads this
    {
      !busy
    }

    /** sensor_turn_off(): only a busy SHTC3 is reset, which also ends the conversion. */
    method TurnOff(shtc3: bool)
      modifies this`busy, this`log
      ensures busy == (old(busy) && !shtc3)
      ensures log == if old(busy) && shtc3 then old(log) + ResetCommands(kind) else old(log)
    {
      if busy && shtc3 {
        busy := false;
        log := log + ResetCommands(kind);
      }
    }

    /** read_sensor_cb(): collect a conversion, updating measured_data on acceptance. */
    method CollectReading(tempOffset: i8, humiOffset: i8, bus: nat -> BusAttempt) returns (ok: bool)
      modifies this`temp, this`humi, this`count, this`log
      ensures var r := ReadFrom(kind, tempOffset, humiOffset, bus, 0);
        ok == r.Accepted? &&
        (ok ==> temp == r.temp && humi == r.humi && count == Inc16(old(count)) &&
                log == old(log) + (if kind == Shtc3 then [Word16(SHTC3_GO_SLEEP)] else [])) &&
        (!ok ==> temp == old(temp) && humi == old(humi) && count == old(count) &&
                 log == old(log) + ResetCommands(kind))
    {
      var r := ReadSensor(kind, tempOffset, humiOffset, bus);
      if r.Accepted? {
        temp := r.temp;
        humi := r.humi;
        count := Inc16(count);
        if kind == Shtc3 {
          log := log + [Word16(SHTC3_GO_SLEEP)];
        }
        ok := true;
      } else {
        log := log + ResetCommands(kind);
        ok := false;
      }
    }

    /**
     * sensor_read(): if `next_awake` has not expired nothing changes but the
     * deadline's registration; otherwise start a conversion or collect it.
     */
    method Read(clock: Clock, tick: u32, interval: u32, tempOffset: i8, humiOffset: i8, bus: nat -> BusAttempt)
      returns (result: bool)
      modifies this`busy, this`nextAwake, this`lastRead, this`temp, this`humi, this`count, this`log, clock
      ensures clock.thisLoopStart == old(clock.thisLoopStart)
      ensures clock.Counter() == Step(old(clock.Counter()), tick)
      ensures var expired := !IsBefore(clock.lastUclock, old(nextAwake));
        Phase(busy, lastRead) == Cycle(Phase(old(busy), old(lastRead)), expired, interval).0
      ensures IsBefore(clock.lastUclock, old(nextAwake)) ==>
        !result && nextAwake == old(nextAwake) && log == old(log) &&
        temp == old(temp) && humi == old(humi) && count == old(count) &&
        clock.nextSleepUs == Coalesce(old(clock.nextSleepUs), clock.thisLoopStart, old(nextAwake))
      ensures !IsBefore(clock.lastUclock, old(nextAwake)) && !old(busy) ==>
        !result && nextAwake == Add32(clock.lastUclock, MEASURING_TIMEOUT_US) &&
        temp == old(temp) && humi == old(humi) && count == old(count) &&
        log == old(log) + StartCommands(kind) + [BatteryCheck] &&
        clock.nextSleepUs == Coalesce(old(clock.nextSleepUs), clock.thisLoopStart, nextAwake)
      ensures !IsBefore(clock.lastUclock, old(nextAwake)) && old(busy) ==>
        var r := ReadFrom(kind, tempOffset, humiOffset, bus, 0);
        result == r.Accepted? &&
        (r.Accepted? ==> temp == r.temp && humi == r.humi && count == Inc16(old(count)) &&
                         log == old(log) + (if kind == Shtc3 then [Word16(SHTC3_GO_SLEEP)] else [])) &&
        (!r.Accepted? ==> temp == old(temp) && humi == old(humi) && count == old(count) &&
                          log == old(log) + ResetCommands(kind)) &&
        lastRead == Add32(old(lastRead), interval) && nextAwake == lastRead &&
        clock.nextSleepUs == Coalesce(old(clock.nextSleepUs), clock.thisLoopStart, nextAwake)
    {
      var expired := clock.ShouldAwake(tick, nextAwake);
      if !expired {
        return false;
      }
      result := false;
      if !busy {
        log := log + StartCommands(kind);
        nextAwake := clock.AwakeAfter(tick, MEASURING_TIMEOUT_US);
        log := log + [BatteryCheck];
        StepTwice(old(clock.Counter()), tick);
      } else {
        var ok := CollectReading(tempOffset, humiOffset, bus);
        if ok {
          result := true;
        }
        lastRead := Add32(lastRead, interval);
        nextAwake := clock.AwakeAt(lastRead);
      }
      busy := !busy;
    }
  }
}
