/**
 * The application glue of `app.c`: the configuration validator `test_config`
 * (clamping every user-settable field and deriving the BLE connection
 * parameters from it) and the two pieces of `main_loop` bookkeeping, the
 * wall-clock second counter and the "notify measures" countdown.
 */
module App {
  import opened Word
  import Sensors

  // Transmit power codes of the radio (the SDK's RF_POWER_* enumeration).
  // Codes with bit 7 set belong to the low-power (VANT) table, the others to
  // the high-power (VBAT) table.
  const RF_POWER_P10P46: u8 := 63
  const RF_POWER_P3P23: u8 := 23
  const RF_POWER_P3P01: u8 := 0xBF
  const RF_POWER_N25P18: u8 := 0x81

  const MAX_MEASURE_INTERVAL: u8 := 25
  const MAX_ADVERTISING_INTERVAL: u8 := 160
  const MIN_STEP_TIME_UPDATE_LCD: u8 := 10
  /** 100 * CLOCK_16M_SYS_TIMER_CLK_1MS: the unit of `min_step_time_update_lcd`, in ticks. */
  const STEP_UNIT_TICKS: nat := 100 * 16000
  /** BLE interval unit is 1.25 ms; 12 units = 15 ms. */
  const INTERVAL_QUANTUM: nat := 12
  const MAX_INTERVAL_MIN: nat := 1588
  const MAX_LATENCY: nat := 30
  const MIN_TIMEOUT: nat := 200
  const MAX_TIMEOUT: nat := 600
  /** CLOCK_16M_SYS_TIMER_CLK_1S: nominal ticks per second. */
  const TICKS_PER_SECOND: u32 := 16000000
  /** `tx_measures` value meaning "notify every measurement". */
  const TX_ALWAYS: u8 := 0xFF

  /** The hardware-description bits of the configuration record. */
  datatype HwCfg = HwCfg(hwver: u8, clock: bool, memo: bool, trg: bool, miBeacon: bool, shtc3: bool)

  /** The fields of `cfg` that `test_config` reads or writes. */
  datatype Config = Config(
    rfTxPower: u8,
    measureInterval: u8,
    advertisingInterval: u8,
    connectLatency: u8,
    minStepTimeUpdateLcd: u8,
    txMeasures: bool,
    hw: HwCfg)

  /** `my_periConnParameters`; intervals in 1.25 ms units, timeout in 10 ms units. */
  datatype ConnParams = ConnParams(intervalMin: u16, intervalMax: u16, latency: u16, timeout: u16)

  function Dist(a: int, b: int): nat
  {
    if a <= b then b - a else a - b
  }

  /** The value of [lo, hi] nearest to x. */
  function Clamp(x: int, lo: int, hi: int): (r: int)
    requires lo <= hi
    ensures lo <= r <= hi
    ensures lo <= x <= hi ==> r == x
  {
    if x < lo then lo else if x > hi then hi else x
  }

  /** Clamping picks the point of the band nearest to the input. */
  lemma ClampIsNearest(x: int, lo: int, hi: int, y: int)
    requires lo <= hi && lo <= y <= hi
    ensures Dist(Clamp(x, lo, hi), x) <= Dist(y, x)
  {
  }

  /** Transmit power kept inside the table its bit 7 selects. */
  function ClampTxPower(p: u8): (r: u8)
    ensures p >= 0x80 <==> r >= 0x80
    ensures p >= 0x80 ==> r == Clamp(p, RF_POWER_N25P18, RF_POWER_P3P01)
    ensures p < 0x80 ==> r == Clamp(p, RF_POWER_P3P23, RF_POWER_P10P46)
  {
    if p >= 0x80 then
      (if p < RF_POWER_N25P18 then RF_POWER_N25P18 else if p > RF_POWER_P3P01 then RF_POWER_P3P01 else p)
    else
      (if p < RF_POWER_P3P23 then RF_POWER_P3P23 else if p > RF_POWER_P10P46 then RF_POWER_P10P46 else p)
  }

  function DefaultHwver(d: Device): u8
  {
    match d
    case Cgg1 => 2
    case Cgdk2 => 6
  }

  /** The configuration as `test_config` leaves it. */
  function Validated(c: Config, d: Device, shtc3: bool): (v: Config)
    ensures v.rfTxPower == ClampTxPower(c.rfTxPower)
    ensures v.measureInterval == Clamp(c.measureInterval, 1, MAX_MEASURE_INTERVAL)
    ensures v.advertisingInterval == Clamp(c.advertisingInterval, 1, MAX_ADVERTISING_INTERVAL)
    ensures v.minStepTimeUpdateLcd == Clamp(c.minStepTimeUpdateLcd, MIN_STEP_TIME_UPDATE_LCD, 0xFF)
    ensures v.connectLatency == c.connectLatency && v.txMeasures == c.txMeasures
    ensures v.hw == HwCfg(DefaultHwver(d), false, true, true, true, shtc3)
  {
    c.(rfTxPower := ClampTxPower(c.rfTxPower),
       measureInterval := if c.measureInterval == 0 then 1
                          else if c.measureInterval > MAX_MEASURE_INTERVAL then MAX_MEASURE_INTERVAL
                          else c.measureInterval,
       advertisingInterval := if c.advertisingInterval == 0 then 1
                              else if c.advertisingInterval > MAX_ADVERTISING_INTERVAL then MAX_ADVERTISING_INTERVAL
                              else c.advertisingInterval,
       minStepTimeUpdateLcd := if c.minStepTimeUpdateLcd < MIN_STEP_TIME_UPDATE_LCD then MIN_STEP_TIME_UPDATE_LCD
                               else c.minStepTimeUpdateLcd,
       hw := HwCfg(DefaultHwver(d), false, true, true, true, shtc3))
  }

  /** Validating an already validated configuration changes nothing. */
  lemma ValidatedIdempotent(c: Config, d: Device, shtc3: bool)
    ensures Validated(Validated(c, d, shtc3), d, shtc3) == Validated(c, d, shtc3)
  {
  }

  /**
   * After validation the sensor read period `get_read_interval_us` cannot
   * overflow 32 bits and stays below the one-hour wake horizon.
   */
  lemma ValidatedReadInterval(c: Config, d: Device, shtc3: bool)
    ensures var v := Validated(c, d, shtc3);
      Sensors.ReadIntervalUs(v.advertisingInterval, v.measureInterval)
        == 62500 * v.advertisingInterval * v.measureInterval <= 250000000
  {
  }

  /** The connection supervision timeout: intervalMax/2 * (latency+1), clamped to [2 s, 6 s]. */
  function ConnectionTimeout(intervalMax: nat, latency: nat): (t: u16)
    ensures MIN_TIMEOUT <= t <= MAX_TIMEOUT
    ensures t == Clamp(intervalMax / 2 * (latency + 1), MIN_TIMEOUT, MAX_TIMEOUT)
  {
    var raw := intervalMax / 2 * (latency + 1);
    if raw < MIN_TIMEOUT then MIN_TIMEOUT else if raw > MAX_TIMEOUT then MAX_TIMEOUT else raw
  }

  /**
   * The peripheral connection parameters derived from the configuration. With
   * a connection latency the fastest interval (15 ms) and a latency of at most
   * 30 are used; otherwise the interval follows the advertising interval.
   */
  function ConnParamsFor(connectLatency: u8, advertisingInterval: u8): (p: ConnParams)
    ensures p.latency <= MAX_LATENCY
    ensures connectLatency != 0 ==>
      p.intervalMin == p.intervalMax == INTERVAL_QUANTUM && p.latency == Min(connectLatency, MAX_LATENCY)
    ensures connectLatency == 0 ==>
      p.latency == 0 && p.intervalMax == p.intervalMin + INTERVAL_QUANTUM
      && p.intervalMin == Min(50 * advertisingInterval - (50 * advertisingInterval) % 12, MAX_INTERVAL_MIN)
    ensures p.timeout == ConnectionTimeout(p.intervalMax, p.latency)
  {
    if connectLatency != 0 then
      var lat := if connectLatency > MAX_LATENCY then MAX_LATENCY else connectLatency;
      ConnParams(INTERVAL_QUANTUM, INTERVAL_QUANTUM, lat, ConnectionTimeout(INTERVAL_QUANTUM, lat))
    else
      var interval := 50 * advertisingInterval;
      var rounded := interval - interval % 12;
      var imin := if rounded > MAX_INTERVAL_MIN then MAX_INTERVAL_MIN else rounded;
      ConnParams(imin, imin + INTERVAL_QUANTUM, 0, ConnectionTimeout(imin + INTERVAL_QUANTUM, 0))
  }

  /**
   * The connection guidelines the code aims at: latency at most 30, the
   * maximum interval times (latency + 1) at most 2 s, and a supervision
   * timeout between 2 s and 6 s that is at least three times that product
   * (one 10 ms timeout unit is eight 1.25 ms interval units).
   */
  lemma ConnParamsMeetGuidelines(connectLatency: u8, advertisingInterval: u8)
    ensures var p := ConnParamsFor(connectLatency, advertisingInterval);
      p.latency <= MAX_LATENCY
      && p.intervalMax * (p.latency + 1) <= 1600
      && MIN_TIMEOUT <= p.timeout <= MAX_TIMEOUT
      && 8 * p.timeout >= 3 * p.intervalMax * (p.latency + 1)
  {
    var p := ConnParamsFor(connectLatency, advertisingInterval);
    if connectLatency != 0 {
      assert p.intervalMax == 12 && p.latency <= 30;
      assert p.intervalMax * (p.latency + 1) == 12 * (p.latency + 1) <= 372;
      assert p.timeout == MIN_TIMEOUT;
    } else {
      assert p.latency == 0 && p.intervalMax <= 1600;
      assert p.intervalMax * (p.latency + 1) == p.intervalMax;
    }
  }

  /** With a connection latency the timeout is always the 2 s minimum. */
  lemma LatencyModeTimeoutIsMinimum(connectLatency: u8, advertisingInterval: u8)
    requires connectLatency != 0
    ensures ConnParamsFor(connectLatency, advertisingInterval).timeout == MIN_TIMEOUT
  {
    var lat := Min(connectLatency, MAX_LATENCY);
    assert 12 / 2 * (lat + 1) == 6 * (lat + 1) <= 186;
  }

  /**
   * The 1588 cap on the minimum interval is not a multiple of 12 units, so
   * from an advertising interval of 32 on (the default is 40) the
   * "multiple of 15 ms" guideline the code cites does not hold.
   */
  lemma DefaultIntervalNotMultipleOf15ms()
    ensures ConnParamsFor(0, 40).intervalMin == 1588
    ensures ConnParamsFor(0, 40).intervalMin % 12 != 0
    ensures ConnParamsFor(0, 31).intervalMin == 1548 && 1548 % 12 == 0
  {
  }

  /** One notification opportunity of the countdown: (new value, sent?). */
  function CountdownStep(t: u8): (u8, bool)
  {
    if t == 0 then (0, false)
    else if t == TX_ALWAYS then (TX_ALWAYS, true)
    else (t - 1, true)
  }

  /** The countdown after k notification opportunities: (value, notifications sent). */
  function Countdown(t: u8, k: nat): (u8, nat)
  {
    if k == 0 then (t, 0)
    else
      var (t1, sent) := CountdownStep(t);
      var (t2, n) := Countdown(t1, k - 1);
      (t2, n + (if sent then 1 else 0))
  }

  /**
   * `tx_measures` = n < 0xFF sends exactly min(n, k) of k possible
   * notifications and then stays at 0; 0xFF sends every one and stays 0xFF.
   */
  lemma {:induction false} CountdownSends(t: u8, k: nat)
    ensures t != TX_ALWAYS ==> Countdown(t, k) == (t - Min(t, k), Min(t, k))
    ensures t == TX_ALWAYS ==> Countdown(t, k) == (TX_ALWAYS, k)
  {
    if k > 0 {
      CountdownSends(CountdownStep(t).0, k - 1);
    }
  }

  /** The field clamps of `test_config`, applied one after another to a copy of `cfg`. */
  method ClampFields(c: Config, d: Device, shtc3: bool) returns (v: Config)
    ensures v == Validated(c, d, shtc3)
  {
    var power := c.rfTxPower;
    if power >= 0x80 {
      if power < RF_POWER_N25P18 {
        power := RF_POWER_N25P18;
      } else if power > RF_POWER_P3P01 {
        power := RF_POWER_P3P01;
      }
    } else {
      if power < RF_POWER_P3P23 {
        power := RF_POWER_P3P23;
      } else if power > RF_POWER_P10P46 {
        power := RF_POWER_P10P46;
      }
    }
    var measure := c.measureInterval;
    if measure == 0 {
      measure := 1;
    } else if measure > MAX_MEASURE_INTERVAL {
      measure := MAX_MEASURE_INTERVAL;
    }
    var adv := c.advertisingInterval;
    if adv == 0 {
      adv := 1;
    } else if adv > MAX_ADVERTISING_INTERVAL {
      adv := MAX_ADVERTISING_INTERVAL;
    }
    var step := c.minStepTimeUpdateLcd;
    if step < MIN_STEP_TIME_UPDATE_LCD {
      step := MIN_STEP_TIME_UPDATE_LCD;
    }
    v := c.(rfTxPower := power, measureInterval := measure, advertisingInterval := adv,
            minStepTimeUpdateLcd := step,
            hw := HwCfg(DefaultHwver(d), false, true, true, true, shtc3));
  }

  /** The connection-parameter block of `test_config`, step by step. */
  method DeriveConnParams(connectLatency: u8, advertisingInterval: u8) returns (p: ConnParams)
    ensures p == ConnParamsFor(connectLatency, advertisingInterval)
  {
    if connectLatency != 0 {
      p := ConnParams(INTERVAL_QUANTUM, INTERVAL_QUANTUM, connectLatency, 0);
      if p.latency > MAX_LATENCY {
        p := p.(latency := MAX_LATENCY);
      }
    } else {
      var interval := advertisingInterval * 50;
      interval := interval - interval % 12;
      if interval > MAX_INTERVAL_MIN {
        interval := MAX_INTERVAL_MIN;
      }
      p := ConnParams(interval, interval + INTERVAL_QUANTUM, 0, 0);
    }
    var timeout := p.intervalMax / 2 * (p.latency + 1);
    if timeout < MIN_TIMEOUT {
      timeout := MIN_TIMEOUT;
    } else if timeout > MAX_TIMEOUT {
      timeout := MAX_TIMEOUT;
    }
    p := p.(timeout := timeout);
  }

  /** The module state of `app.c` that the modelled code touches. */
  class App {
    var cfg: Config
    var txMeasures: u8
    var advInterval: u16
    var connParams: ConnParams
    var connectionTimeout: u16
    var minStepTimeUpdateLcd: u32
    var utcTimeSec: u32
    var utcTimeSecTick: u32
    var utcTimeTickStep: u32

    constructor (c: Config)
      ensures cfg == c && txMeasures == 0 && utcTimeSec == 0 && utcTimeSecTick == 0
      ensures utcTimeTickStep == TICKS_PER_SECOND
    {
      cfg := c;
      txMeasures := 0;
      advInterval := 0;
      connParams := ConnParams(0, 0, 0, 0);
      connectionTimeout := 0;
      minStepTimeUpdateLcd := 0;
      utcTimeSec := 0;
      utcTimeSecTick := 0;
      utcTimeTickStep := TICKS_PER_SECOND;
    }

    /** `test_config`: validate `cfg` in place and derive the dependent globals. */
    method TestConfig(d: Device, shtc3: bool)
      modifies this
      ensures cfg == Validated(old(cfg), d, shtc3)
      ensures txMeasures == if old(cfg).txMeasures then TX_ALWAYS else old(txMeasures)
      ensures advInterval == 100 * cfg.advertisingInterval
      ensures connParams == ConnParamsFor(cfg.connectLatency, cfg.advertisingInterval)
      ensures connectionTimeout == connParams.timeout
      ensures minStepTimeUpdateLcd == cfg.minStepTimeUpdateLcd * 1600000
      ensures utcTimeSec == old(utcTimeSec) && utcTimeSecTick == old(utcTimeSecTick)
      ensures utcTimeTickStep == old(utcTimeTickStep)
    {
      if cfg.txMeasures {
        txMeasures := TX_ALWAYS;
      }
      var v := ClampFields(cfg, d, shtc3);
      advInterval := v.advertisingInterval * 100;
      var p := DeriveConnParams(v.connectLatency, v.advertisingInterval);
      connectionTimeout := p.timeout;
      connParams := p;
      minStepTimeUpdateLcd := v.minStepTimeUpdateLcd * 1600000;
      cfg := v;
    }

    /**
     * The `main_loop` second counter: while the tick is more than one step
     * past `utc_time_sec_tick`, advance that by one step and the seconds by
     * one. `utc_time_tick_step` is 16,000,000 plus a signed 16-bit correction.
     */
    method KeepSeconds(tick: u32)
      requires utcTimeTickStep > 0
      modifies this`utcTimeSec, this`utcTimeSecTick
      ensures var k := StepsBehind(Sub32(tick, old(utcTimeSecTick)), utcTimeTickStep);
        utcTimeSecTick == Add32(old(utcTimeSecTick), k * utcTimeTickStep)
        && utcTimeSec == Add32(old(utcTimeSec), k)
      ensures Sub32(tick, utcTimeSecTick) <= utcTimeTickStep
    {
      ghost var d0 := Sub32(tick, utcTimeSecTick);
      ghost var base := utcTimeSecTick;
      ghost var baseSec := utcTimeSec;
      ghost var k: nat := 0;
      ghost var covered: nat := 0;
      while Sub32(tick, utcTimeSecTick) > utcTimeTickStep
        invariant covered == k * utcTimeTickStep && covered <= d0
        invariant utcTimeSecTick == Add32(base, covered)
        invariant Sub32(tick, utcTimeSecTick) == d0 - covered
        invariant utcTimeSec == Add32(baseSec, k)
        invariant k > 0 ==> covered < d0
        decreases Sub32(tick, utcTimeSecTick)
      {
        StepPass(base, tick, covered, utcTimeTickStep);
        Add32Add32(baseSec, k, 1);
        utcTimeSecTick := Add32(utcTimeSecTick, utcTimeTickStep);
        utcTimeSec := Add32(utcTimeSec, 1);
        MulSucc(k, utcTimeTickStep);
        covered := covered + utcTimeTickStep;
        k := k + 1;
      }
      if k > 0 {
        MulSucc(k - 1, utcTimeTickStep);
      }
      StepsBehindUnique(d0, utcTimeTickStep, k);
    }

    /**
     * One measures-notification opportunity in `main_loop`: a nonzero
     * `tx_measures` sends and counts down, except 0xFF which never counts down.
     */
    method NotifyMeasures() returns (sent: bool)
      modifies this`txMeasures
      ensures (txMeasures, sent) == CountdownStep(old(txMeasures))
      ensures sent <==> old(txMeasures) != 0
    {
      sent := false;
      if txMeasures != 0 {
        if txMeasures != TX_ALWAYS {
          txMeasures := txMeasures - 1;
        }
        sent := true;
      }
    }
  }
}
