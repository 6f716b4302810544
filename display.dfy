/**
 * `display.c`: the choice between the externally supplied layout (big and
 * small numbers sent over BLE, shown for a number of seconds) and the
 * temperature/humidity layout, and the low-battery screen. The driver
 * entry points it calls (`display_ble_symbol`, `display_temp_symbol`, ...)
 * are recorded as an ordered list of calls; the drivers are modelled in
 * their own modules.
 */
module Display {
  import opened Word
  import opened ThreeCellLine

  /** `CLOCK_16M_SYS_TIMER_CLK_1S`: system-timer ticks per second. */
  const TICKS_PER_SECOND: nat := 16000000
  /** `display_temp_symbol` arguments: degrees Fahrenheit and Celsius. */
  const TMP_SYM_F: u8 := 0x60
  const TMP_SYM_C: u8 := 0xA0
  /** The small number `display_low_battery_voltage` forces so the row reads "Lo". */
  const LOW_BATTERY_SMALL: i16 := -1023

  /** One call into the display driver. */
  datatype DrvCall =
    | BleSymbol(on: bool)
    | TempSymbol(symbol: u8)
    | BatterySymbol(on: bool)
    | BigNumber(x10: i16)
    | SmallNumber(x10: i16, percent: bool)
    | Refresh

  /**
   * The externally supplied screen `ext`: two numbers in tenths, how long
   * to show them, and a flag byte whose top three bits are the temperature
   * symbol, bit 4 the battery symbol and bit 3 the percent sign.
   */
  datatype ExtData = ExtData(bigNumber: i16, smallNumber: i16, vtimeSec: u16, flg: u8)

  predicate BatteryFlag(flg: u8)
  {
    (flg / 16) % 2 == 1
  }

  predicate PercentFlag(flg: u8)
  {
    (flg / 8) % 2 == 1
  }

  lemma CatchUpDistance(clk: u32, tick: u32, k: nat)
    requires k * TICKS_PER_SECOND <= Sub32(tick, clk)
    ensures Sub32(Add32(clk, k * TICKS_PER_SECOND), clk) == k * TICKS_PER_SECOND
    ensures Sub32(tick, Add32(clk, k * TICKS_PER_SECOND)) == Sub32(tick, clk) - k * TICKS_PER_SECOND
  {
    AddSub32(clk, k * TICKS_PER_SECOND);
    SubShift32(clk, tick, k * TICKS_PER_SECOND);
  }

  /**
   * The catch-up of `should_display_ext_data_layout` seen at `tick`: whole
   * seconds elapsed since `clk` are taken off the remaining seconds `sec`,
   * `clk` moving one second per second taken, until the remaining time is
   * used up or less than a second is left to account for.
   */
  function CatchUp(sec: u32, clk: u32, tick: u32): (r: (u32, u32))
    ensures r.0 <= sec
    ensures Sub32(r.1, clk) == (sec - r.0) * TICKS_PER_SECOND
    ensures r.0 == 0 || Sub32(tick, r.1) <= TICKS_PER_SECOND
    ensures sec == 0 ==> r == (0, clk)
  {
    var d := Sub32(tick, clk);
    var k := Min(sec, StepsBehind(d, TICKS_PER_SECOND));
    CatchUpDistance(clk, tick, k);
    (sec - k, Add32(clk, k * TICKS_PER_SECOND))
  }

  /** Catching up twice at the same tick changes nothing the second time. */
  lemma CatchUpIdempotent(sec: u32, clk: u32, tick: u32)
    ensures var r := CatchUp(sec, clk, tick);
      CatchUp(r.0, r.1, tick) == r
  {
    var r := CatchUp(sec, clk, tick);
    if r.0 != 0 {
      assert StepsBehind(Sub32(tick, r.1), TICKS_PER_SECOND) == 0;
    }
  }

  /** `display_ext_data_layout`. */
  function ExtLayout(ext: ExtData): seq<DrvCall>
  {
    [BatterySymbol(BatteryFlag(ext.flg)), TempSymbol(ext.flg),
     BigNumber(ext.bigNumber), SmallNumber(ext.smallNumber, PercentFlag(ext.flg))]
  }

  /**
   * The Fahrenheit reading in tenths from a temperature in hundredths of a
   * degree Celsius: `(((temp / 5) * 9) + 3200) / 10` with C division. It is
   * within 81/50 of a tenth of the exact value 9*temp/50 + 320.
   */
  function FahrenheitX10(temp: i16): (f: i16)
    ensures -81 <= 50 * f - (9 * temp + 16000) <= 81
    ensures -5577 <= f <= 6217
  {
    var q := CDiv(temp, 5);
    var x := q * 9 + 3200;
    var f := CDiv(x, 10);
    assert temp == 5 * q + CRem(temp, 5);
    assert x == 10 * f + CRem(x, 10);
    f
  }

  /**
   * The humidity in tenths from hundredths, `(humi + 5) / 10`: rounded to the
   * nearest tenth, halves up, for the non-negative readings the sensor
   * module produces.
   */
  function HumidityX10(humi: i16): (h: i16)
    ensures humi >= -5 ==> 10 * h - 5 <= humi < 10 * h + 5
    ensures 0 <= humi <= 9999 ==> 0 <= h <= 1000
  {
    CDiv(humi + 5, 10)
  }

  /** `display_temperature_humidity_layout`. */
  function TempHumiLayout(tempF: bool, temp: i16, humi: i16, lastTemp: i16): seq<DrvCall>
  {
    (if tempF then [TempSymbol(TMP_SYM_F), BigNumber(FahrenheitX10(temp))]
     else [TempSymbol(TMP_SYM_C), BigNumber(lastTemp)])
    + [BatterySymbol(true), SmallNumber(HumidityX10(humi), true)]
  }

  /** The documented conversions: 0 C is 32.0 F, 100 C is 212.0 F, -40 C is -40.0 F. */
  lemma FahrenheitExamples()
    ensures FahrenheitX10(0) == 320
    ensures FahrenheitX10(10000) == 2120
    ensures FahrenheitX10(-4000) == -400
  {
  }

  /**
   * `display_low_battery_voltage(mv)` up to the refresh: no temperature
   * symbol, the voltage times ten narrowed to int16 as the big number, the
   * forced small number, and the battery symbol.
   */
  function LowBatteryCalls(mv: u16): (r: seq<DrvCall>)
    ensures |r| == 5 && r[|r| - 1] == Refresh
    ensures r[0] == TempSymbol(0) && r[3] == BatterySymbol(true)
    ensures mv <= 3276 ==> r[1] == BigNumber(mv * 10)
    ensures r[2] == SmallNumber(LOW_BATTERY_SMALL, true)
  {
    [TempSymbol(0), BigNumber(ToI16(mv * 10)), SmallNumber(LOW_BATTERY_SMALL, true),
     BatterySymbol(true), Refresh]
  }

  /** The forced small number reads "Lo" on either kind of row. */
  lemma LowBatteryShowsLo(hasOne: bool)
    ensures Text(Render(hasOne, LOW_BATTERY_SMALL)) == [CHR_L, CHR_O, CHR_SPACE]
  {
    RenderLoHi(hasOne, LOW_BATTERY_SMALL);
  }

  /** The display statics `chow_tick_clk` and `chow_tick_sec`. */
  class Display {
    var chowTickClk: u32
    var chowTickSec: u32

    constructor ()
      ensures chowTickClk == 0 && chowTickSec == 0
    {
      chowTickClk := 0;
      chowTickSec := 0;
    }

    /**
     * What the command parser does on an ext-data command: show the ext
     * layout for `vtimeSec` seconds from `tick`.
     */
    method ShowExt(vtimeSec: u16, tick: u32)
      modifies this
      ensures chowTickSec == vtimeSec && chowTickClk == tick
    {
      chowTickSec := vtimeSec;
      chowTickClk := tick;
    }

    /** `should_display_ext_data_layout` with the timer at `tick`. */
    method ShouldDisplayExt(tick: u32) returns (active: bool)
      modifies this
      ensures (chowTickSec, chowTickClk) == CatchUp(old(chowTickSec), old(chowTickClk), tick)
      ensures active <==> chowTickSec > 0
    {
      ghost var d0 := Sub32(tick, chowTickClk);
      ghost var sec0 := chowTickSec;
      ghost var base := chowTickClk;
      ghost var k: nat := 0;
      ghost var covered: nat := 0;
      while chowTickSec != 0 && Sub32(tick, chowTickClk) > TICKS_PER_SECOND
        invariant covered == k * TICKS_PER_SECOND && covered <= d0
        invariant chowTickClk == Add32(base, covered)
        invariant Sub32(tick, chowTickClk) == d0 - covered
        invariant chowTickSec == sec0 - k
        invariant k > 0 ==> covered < d0
        decreases chowTickSec
      {
        StepPass(base, tick, covered, TICKS_PER_SECOND);
        chowTickClk := Add32(chowTickClk, TICKS_PER_SECOND);
        chowTickSec := chowTickSec - 1;
        MulSucc(k, TICKS_PER_SECOND);
        covered := covered + TICKS_PER_SECOND;
        k := k + 1;
      }
      StepsBehindAtLeast(d0, TICKS_PER_SECOND, k);
      if chowTickSec != 0 {
        if k > 0 {
          MulSucc(k - 1, TICKS_PER_SECOND);
        }
        StepsBehindUnique(d0, TICKS_PER_SECOND, k);
      }
      active := chowTickSec > 0;
    }

    /**
     * `display_update`: the BLE symbol first, then the ext layout while its
     * time lasts, otherwise temperature (Fahrenheit from the latest reading,
     * Celsius from `last_temp`) and humidity.
     */
    method Update(tick: u32, bleConnected: u8, ext: ExtData, tempF: bool, temp: i16, humi: i16, lastTemp: i16)
      returns (calls: seq<DrvCall>)
      modifies this
      ensures (chowTickSec, chowTickClk) == CatchUp(old(chowTickSec), old(chowTickClk), tick)
      ensures |calls| >= 1 && calls[0] == BleSymbol(bleConnected != 0)
      ensures chowTickSec > 0 ==> calls[1..] == ExtLayout(ext)
      ensures chowTickSec == 0 ==> calls[1..] == TempHumiLayout(tempF, temp, humi, lastTemp)
    {
      calls := [BleSymbol(bleConnected != 0)];
      var active := ShouldDisplayExt(tick);
      if active {
        calls := calls + ExtLayout(ext);
      } else {
        calls := calls + TempHumiLayout(tempF, temp, humi, lastTemp);
      }
    }
  }
}
