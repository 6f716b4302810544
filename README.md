# ATC_MiThermometer firmware core in Dafny

This project models the integer core of the custom firmware for the Xiaomi
LYWSD03MMC-class thermometers (CGG1 e-paper and CGDK2 LCD variants) and proves
what that code promises. The firmware has no floating point and no threads. Its
logic is a set of small components that keep state in 32-bit integers. Each is
modelled one module per C file, in the form the C takes:

- **Statics updated in place become classes.** Their fields are the C statics
  and their methods carry `modifies` clauses.
- **Byte buffers become arrays.** This covers `display_buff`,
  `display_cmp_buff`, `keybuf.data`, `backupsector`, `ext`, `cfg` and `cmf`.
- **Loops become `while` loops with invariants.** Each method is proved against
  a specification function, and the functions have their own lemmas.

Hardware inputs are method parameters: the 16 MHz tick, the key level, the
e-paper BUSY line, the sensor transport result, the I2C NAK status, the TX FIFO
fill and the flash bytes. Hardware outputs are returned as logs: I2C transfers,
controller transactions, BLE packets and e-paper bytes.

| module | file | what it covers |
|---|---|---|
| `Word` | word.dfy | uint32/uint16 wrap-around, C's truncating `/` and `%`, int16 narrowing, the catch-up count of a periodic counter |
| `UClock` | uclock.dfy | the microsecond clock on the wrapping tick, the wake-deadline coalescer, the three outcomes before sleep |
| `Sensors` | sensors.dfy | the start/collect machine of `sensor_read`, the CRC-8 check, the fixed-point conversion, the humidity clamp and the bounded retry loop of `read_sensor_cb` |
| `App` | app.dfy | the clamps and derived connection parameters of `test_config`, the seconds loop and the `tx_measures` countdown of `main_loop` |
| `Button` | button.dfy | the IDLE/DEBOUNCING/PRESSED machine of `button_handle`, click counting, the wake level |
| `Display` | display.dfy | the ext-data countdown, the layout choice of `display_update`, Celsius to Fahrenheit and humidity rounding, the low-battery screen |
| `ThreeCellLine` | three_cell_line.dfy | `display_render_3cell_number`: dot, leftmost one, Lo/Hi, rescaling, the three characters |
| `SegmentCell` | segment_cell.dfy | `char_segment_bitmap` and `display_render_13seg_char` |
| `DisplayCommon` | display_common.dfy | `display_render_bit` and what a list of such writes leaves in the buffer |
| `Cgdk2Driver` | cgdk2_driver.dfy | the CGDK2 LCD driver: cell tables, symbols, the changed-range refresh, the power toggle |
| `Cgg1Driver` | cgg1_driver.dfy | the CGG1 e-paper driver: cell tables, symbols, the `task_lcd` stage machine, the periodic full initialisation, the inverted frame |
| `LcdCgdk2` | lcd_cgdk2.dfy | the older self-contained CGDK2 LCD code: `set_lcd_bit`, `draw_cell`, `draw_number`, `update_lcd`, battery and clock screens |
| `CmdParser` | cmd_parser.dfy | the Mi-key record store: the record walk of `find_mi_keys`, chunked sending, the `get_mi_keys` stage machine, `store_mi_keys` rewrite and restore, `erase_mikeys`, and the payload-length clamps of `cmd_parser` |
| `BltCommon` | blt_common.dfy | `SwapMacAddress`, `blc_newMacAddress`, `blc_initMacAddress` and their round trip |
| `I2c` | i2c.dfy | the `tx_state` batching of the I2C driver into hardware chunks of at most four bytes |

Conventions:

- **Words.** Every `u32` subtraction is `Word.Sub32`, the forward distance on
  the 2^32 circle. C division is `Word.CDiv`/`Word.CRem`, which truncate toward
  zero. An `int16_t` assignment is `Word.ToI16`, GCC's two's-complement
  narrowing.
- **Rendering.** A rendering is a list of `display_render_bit` writes
  (`DisplayCommon.BitWrite`). `DisplayCommon.WriteBitsReadBack` says what any
  such list leaves in the buffer: each position reads as its last write.
- **Flash.** The Mi-key sector is a byte sequence at `FLASH_MIKEYS_ADDR`
  (0x78000). Reads past its end return 0xFF, as erased flash does.
- **SDK constants.** These are named constants:
  - `CLOCK_16M_SYS_TIMER_CLK_1US` = 16;
  - `RF_POWER_P10p46` = 63, `RF_POWER_P3p23` = 23, `RF_POWER_P3p01` = 0xBF, `RF_POWER_N25p18` = 0x81;
  - `FLASH_SECTOR_SIZE` = 0x1000;
  - the `keybuf.data` capacity (32).

Where the code and its comments or documentation disagree, the model follows
the code:

- src/display_3cell_line.h:27-28 says 19994 shows "199.9" and 9994 shows
  "99 9". The code rescales both by ten and draws no dot, so 19994 reads
  "1999" (the leftmost one and "999") and 9994 reads "999"
  (`ThreeCellLine.DocumentedExamplesWithOne`,
  `ThreeCellLine.DocumentedExamplesWithoutOne`).
- The 1588 cap on the connection interval is not a multiple of 15 ms
  (`App.DefaultIntervalNotMultipleOf15ms`), although the comment at
  src/app.c:134 says it should be.

Some behaviour of the code is easy to miss, and the model keeps it:

- `find_mi_keys` loads a record into `keybuf` only when it returns that
  record; records it walks past leave `keybuf` alone.
- After a key command, `get_mi_keys` first sends the record that `keybuf`
  already held, which is the old record of that id
  (`CmdParser.KeyStore.KeyCommand`).
- A tick wrap from 0xFFFFFFF0 to 0x00000010 is 32 ticks, so `uclock_time`
  advances two microseconds (`UClock.TickWrapIsForward`).
- `mi_key_chk_cnt` is reset only when a token or sequence-number record
  exists, so a stale count can hide the deleted records
  (`CmdParser.StaleCountHidesDeleted`).

The six places where the code does something its authors evidently did not
intend are listed under "## Findings". Each has a model of the code as written
and a corrected model; the rest of the project uses the corrected one.

## Model

| member | source | states |
|---|---|---|
| UClock.ElapsedUs | src/uclock.c:23 | the whole microseconds in the tick distance: 16·e ≤ (tick − last) mod 2^32 < 16·e + 16 |
| UClock.Step | src/uclock.c:19-26 | after `uclock_time` the leftover tick distance is below 16; the µs counter advances by the elapsed whole µs and `last_clock` by exactly 16 times that |
| UClock.StepTwice | src/uclock.c:19-26 | a second read at the same tick changes nothing |
| UClock.RemainderKept | src/uclock.c:19-26 | however the samples are spaced, after any run of reads the counter has advanced by floor(total ticks / 16), so no sub-µs remainder is ever lost |
| UClock.TickWrapIsForward | src/uclock.c:23-25 | the wrap 0xFFFFFFF0 → 0x10 is two µs forward, never a backward jump; a read under 16 ticks later changes nothing |
| UClock.Coalesce | src/uclock.c:44-55 | a request never raises the budget; a delta below the budget replaces it, capped at MAX_TIMER_US, and any other delta leaves it |
| UClock.CoalesceAllSnoc | src/uclock.c:44-55 | a batch of requests is coalesced one after another, in order |
| UClock.CoalesceIsMinimum | src/uclock.c:44-55 | the final budget is at most every capped request delta (other than the UINT_MAX sentinel delta) and is the start value or one of them |
| UClock.PastDeadlineRegistersOneHour | src/uclock.c:46-51 | for a deadline before the loop start by less than 2^32 − MAX_TIMER_US µs (about 695 s): more than 1 µs before registers as a one-hour budget; exactly 1 µs before wraps to the sentinel and is not registered |
| UClock.ArmTickAsWritten | src/uclock.c:75 | as written, the wake tick is 16·remaining ticks ahead only while that fits 32 bits |
| UClock.ArmTickAsWrittenWraps | src/uclock.c:75 | as written, 2^28 µs arms the timer at the current tick, and MAX_TIMER_US arms it 1765425152 ticks ahead |
| UClock.ArmTick | src/uclock.c:74-75 | corrected: the wake tick is 16·min(remaining, MAX_SLEEP_US) ahead and never reaches the 32-bit wrap |
| UClock.Clock.constructor | src/uclock.c:11-12 | the statics start at zero |
| UClock.Clock.Time | src/uclock.c:19-26 | `uclock_time` performs `Step` on the statics and returns the new counter |
| UClock.Clock.AfterSleep | src/uclock.c:28-32 | a new loop starts now, with `next_sleep_us` the no-request sentinel |
| UClock.Clock.AwakeAt | src/uclock.c:44-55 | returns t; the budget becomes `Coalesce` of the old one |
| UClock.Clock.ShouldAwake | src/uclock.c:34-42 | true iff (t − now) mod 2^32 ≥ MAX_TIMER_US, so t == now is not yet expired; when false the deadline has been registered through `Coalesce` |
| UClock.Clock.AwakeAfter | src/uclock.c:57-60 | returns now + usecs mod 2^32 and registers it as `awake_at` does |
| UClock.Clock.BeforeSleep | src/uclock.c:63-78 | the sentinel disables the app wakeup; a budget at most loop time + 128 µs disables suspend; otherwise the timer is armed at `ArmTick` for the remaining time, which is above 128 µs |
| Sensors.ReadIntervalUs | src/sensors.c:45-49 | for the validated configuration ranges the read period is 62500 · adv · measure µs, below 2^32 and below MAX_TIMER_US |
| Sensors.CrcDatasheetExample | src/sensors.c:124-142 | the CRC-8 (polynomial 0x31, init 0xFF) of 0xBE, 0xEF is 0x92 |
| Sensors.TempX100 | src/sensors.c:154 | the temperature ((17500·raw) >> 16) − 4500 + 10·offset lies in [−4500, 12999] plus the offset |
| Sensors.HumiRawX100 | src/sensors.c:155-158 | the unclamped humidity lies in the range of the sensor's formula, with the offset |
| Sensors.ClampHumi | src/sensors.c:159-160 | humidity is clamped to [0, 9999]; values inside are unchanged, negatives become 0 and larger values 9999 |
| Sensors.ReadOutcome | src/sensors.c:112-169 | the retry loop takes 1 to 513 attempts; it stops at the first acknowledged attempt whatever its CRC is, and every attempt before it was a NAK |
| Sensors.AcceptedHumidityInRange | src/sensors.c:153-160 | an accepted reading has humidity in [0, 9999] |
| Sensors.ChecksumTemperature | src/sensors.c:124-142 | the two bitwise CRC loops compute `Crc8` of the temperature bytes and leave the reused counter `i` at 0 |
| Sensors.ReadSensor | src/sensors.c:106-170 | the bus transaction, retry loop and checksum loops give the outcome `ReadFrom` specifies |
| Sensors.RunAlternatesAndKeepsCadence | src/sensors.c:197-220 | any run of calls starts and collects alternately, and `last_read` advances by exactly `interval` per collect, however late each call came |
| Sensors.Sensor.Init | src/sensors.c:88-104 | the sensor found starts idle with zero readings, `last_read` = `next_awake` = now, the deadline registered, and the SHTC3 wake-up then reset commands sent |
| Sensors.Sensor.TurnOff | src/sensors.c:77-86 | only a busy SHTC3 is reset, which ends its conversion; anything else is left as it was |
| Sensors.Sensor.CollectReading | src/sensors.c:106-170 | an accepted reading updates temperature and humidity and adds exactly 1 to the count; a rejected one changes no reading and returns 0 |
| Sensors.Sensor.Read | src/sensors.c:188-222 | an unexpired deadline changes nothing but its registration, and the idle path keeps the readings while it starts a conversion and sets `next_awake` = now + 11000 µs; the busy path stores the reading `ReadFrom` accepts (temperature, humidity, count + 1, and the SHTC3 sleep command) or on a rejection keeps the readings and sends the reset commands, and sets `next_awake` = `last_read` + interval after adding interval to `last_read` |
| App.Clamp | src/app.c:120-129 | the result lies in [lo, hi] and is the input itself when that already does |
| App.ClampIsNearest | src/app.c:120-129 | the clamp is the point of the band nearest to the input |
| App.ClampTxPower | src/app.c:110-119 | bit 7 of the power is kept; with it set the value is clamped into [N25p18, P3p01], otherwise into [P3p23, P10p46] |
| App.Validated | src/app.c:109-176 | every field `test_config` bounds: power as above, 1 ≤ measure interval ≤ 25, 1 ≤ advertising interval ≤ 160, LCD step ≥ 10, latency and `tx_measures` flag kept, hardware flags set for the device |
| App.ValidatedIdempotent | src/app.c:109-176 | validating an already validated configuration changes nothing |
| App.ValidatedReadInterval | src/app.c:120-129 | after validation the sensor read period cannot overflow 32 bits and stays below the one-hour horizon |
| App.ConnectionTimeout | src/app.c:159-165 | the supervision timeout is (intervalMax/2)·(latency+1) clamped to [200, 600] |
| App.ConnParamsFor | src/app.c:141-157 | with a latency the interval is 12 and the latency min(latency, 30); without one intervalMin = min(50·adv rounded down to a multiple of 12, 1588), intervalMax = intervalMin + 12 and latency 0 |
| App.ConnParamsMeetGuidelines | src/app.c:132-165 | latency ≤ 30, intervalMax·(latency+1) within 2 s, and a timeout in [2 s, 6 s] at least three times that product |
| App.LatencyModeTimeoutIsMinimum | src/app.c:141-165 | with a connection latency the timeout is always the 2 s minimum |
| App.DefaultIntervalNotMultipleOf15ms | src/app.c:149-153 | the default advertising interval gives a minimum connection interval of 1588, not a multiple of 15 ms, while 31 still gives one |
| App.CountdownSends | src/app.c:279-283 | n < 0xFF sends exactly min(n, k) of k chances and stays at 0; 0xFF sends every one and stays 0xFF |
| App.ClampFields | src/app.c:110-176 | the clamps applied one after another on a copy give `Validated` |
| App.DeriveConnParams | src/app.c:141-165 | the connection-parameter block computes `ConnParamsFor` |
| App.App.constructor | src/app.c:36-48 | the configuration given, no measures to send, the clock at zero and `utc_time_tick_step` one second of 16 MHz ticks |
| App.App.TestConfig | src/app.c:109-176 | `cfg` becomes `Validated(cfg)`; `tx_measures`, `adv_interval`, the connection parameters, the timeout and the LCD step follow from it; the clock fields are unchanged |
| App.App.KeepSeconds | src/app.c:243-246 | the loop makes exactly `StepsBehind` passes, each adding one step to `utc_time_sec_tick` and 1 to `utc_time_sec`, and ends at most one step behind the tick |
| App.App.NotifyMeasures | src/app.c:279-283 | a notification is sent iff `tx_measures` ≠ 0, and it counts down unless it is 0xFF |
| Button.HandleStep | src/button.c:44-76 | from IDLE or PRESSED a differing level starts debouncing and an equal one changes nothing; debouncing waits for its timer, then pressed enters PRESSED with one more click and released returns to IDLE; clicks rise only on entering PRESSED; the click handler runs iff clicks > 0 and the long-press timer has expired, and resets clicks to 0 |
| Button.ToggleBle | src/button.c:38-42 | the click handler flips bit 0x10 of `ble_connected` and no other bit |
| Button.GlitchIgnored | src/button.c:47-63 | a bounce shorter than the debounce time is ignored: a press then a release seen once the timer expires ends in IDLE with no click |
| Button.ReplayWhileDebouncing | src/button.c:47-56 | while debouncing with no click pending, no call before the debounce timer expires changes anything |
| Button.ButtonHandler.constructor | src/button.c:31-36 | `button_init` starts IDLE with no clicks and no timers |
| Button.ButtonHandler.Handle | src/button.c:44-76 | the statics follow `HandleStep` at the clock's new time; `ble_connected` is toggled iff the handler ran; pad wakeup is off while debouncing, high when PRESSED and low when IDLE |
| Display.CatchUp | src/display.c:15-19 | the countdown never increases; `chow_tick_clk` advances one second of ticks per second taken off; it stops with nothing left or less than a second to account for |
| Display.CatchUpIdempotent | src/display.c:15-20 | catching up twice at the same tick changes nothing the second time |
| Display.FahrenheitX10 | src/display.c:36 | the Fahrenheit tenths with truncating division are within 81/50 of a tenth of the exact 9·temp/50 + 320 |
| Display.HumidityX10 | src/display.c:42 | the humidity tenths are the hundredths rounded to the nearest tenth, halves up, and stay in [0, 1000] |
| Display.FahrenheitExamples | src/display.c:36 | 0 °C is 32.0 °F, 100 °C is 212.0 °F and −40 °C is −40.0 °F |
| Display.LowBatteryCalls | src/display.c:55-61 | the low-battery screen clears the temperature symbol, shows the millivolts·10, forces the small number, lights the battery symbol and refreshes |
| Display.LowBatteryShowsLo | src/display.c:59 | the forced small number −1023 reads "Lo" on either kind of row |
| Display.Display.constructor | src/display.c:10-11 | the countdown starts at zero |
| Display.Display.ShowExt | src/cmd_parser.c:239-240 | the ext layout is shown for `vtime_sec` seconds from the given tick |
| Display.Display.ShouldDisplayExt | src/display.c:13-21 | the countdown follows `CatchUp`, and the result is true iff time is left |
| Display.Display.Update | src/display.c:45-53 | the BLE symbol is always drawn first; then the ext layout iff the countdown is active, otherwise the temperature and humidity layout |
| ThreeCellLine.TextOfEmit | src/display_3cell_line.c:20-39 | the three cell calls leave the characters `CellText` gives |
| ThreeCellLine.RenderShape | src/display_3cell_line.c:9-39 | every call draws the dot once, the leftmost one once when the row has it, and cells 0, 1, 2 once each with characters below NUM_CHARS; the dot is on iff −99 ≤ value ≤ max; the one is on iff the value drawn is in [1000, 1999] |
| ThreeCellLine.RenderLoHi | src/display_3cell_line.c:20-27 | the row reads "Lo" iff the input is ≤ −995, and "Hi" iff it is ≥ 19995 with a leftmost one or ≥ 9995 without |
| ThreeCellLine.ScaledRoundsHalfAwayFromZero | src/display_3cell_line.c:11-15 | outside the dot range the input is divided by ten and rounded half away from zero |
| ThreeCellLine.DecodeEmit | src/display_3cell_line.c:28-39 | a value in the dot range reads back from the cells as itself: '-' with two digits for negatives, hundreds (or a space), tens and units otherwise |
| ThreeCellLine.RenderDecodes | src/display_3cell_line.c:7-40 | between Lo and Hi the row reads back as the value drawn |
| ThreeCellLine.DocumentedExamplesWithOne | src/display_3cell_line.h:25-32 | the header's examples on a row with a leftmost one: 19995 is "Hi", 19994 is "1999" (the leftmost one and "999") without a dot |
| ThreeCellLine.DocumentedExamplesWithoutOne | src/display_3cell_line.h:25-32 | the header's examples without one: 19994 "Hi", 9994 "999", 999 "99.9", −99 "-9.9", −994 "-9 9", −995 "Lo" |
| ThreeCellLine.AsWrittenWrapsAtEdges | src/display_3cell_line.c:13-14 | as written, the int16 wrap shows 32767 as "Lo" and −32768 as "Hi" |
| ThreeCellLine.AsWrittenAgreesInside | src/display_3cell_line.c:13-14 | away from the five values at each end of the int16 range the code as written and the corrected rendering agree |
| SegmentCell.SegmentBits | src/display_13seg_cell.h:11-25 | the thirteen segments are bits 0..12 in the order of the enum |
| SegmentCell.BitmapsFromSegments | src/display_13seg_cell.c:8-27 | each table entry is the segment set listed for its character |
| SegmentCell.BitmapsFit | src/display_13seg_cell.c:8-27 | every bitmap uses only the 13 segment bits, and SPACE lights nothing |
| SegmentCell.BitmapsDistinct | src/display_13seg_cell.c:8-27 | no two characters share a bitmap |
| SegmentCell.CharWrites | src/display_13seg_cell.c:29-39 | a character ≥ NUM_CHARS makes no write; otherwise write k puts bitmap bit k on position k, for k = 0..12 in order |
| SegmentCell.CharReadBack | src/display_13seg_cell.c:29-39 | with 13 distinct in-range positions, segment k ends lit iff bitmap bit k is set, and every other position is unchanged |
| SegmentCell.SpaceClears | src/display_13seg_cell.c:26 | drawing SPACE clears all 13 positions |
| SegmentCell.RenderChar | src/display_13seg_cell.c:29-39 | the 13-step shift loop performs exactly the writes of `CharWrites` |
| DisplayCommon.SetBit | src/display_drv_common.c:14-18 | bit k becomes `on` and the other seven bits are kept |
| DisplayCommon.WithBitEffect | src/display_drv_common.c:12-18 | an in-range write reads back as written and every other position is unchanged |
| DisplayCommon.WithBitOutOfRange | src/display_drv_common.c:13 | a position past the buffer end leaves it unchanged |
| DisplayCommon.WithBitOtherBytes | src/display_drv_common.c:14-18 | only the addressed byte can change |
| DisplayCommon.WithBitLastWins | src/display_drv_common.c:14-18 | repeating a write changes nothing, and of two writes to one bit the last wins |
| DisplayCommon.WriteBitsConcat | src/display_drv_common.c:10-20 | two lists of writes performed one after the other are their concatenation |
| DisplayCommon.WriteBitsReadBack | src/display_drv_common.c:10-20 | after any list of writes an in-range position reads as its last write, and an untouched one as before |
| DisplayCommon.RenderBit | src/display_drv_common.c:10-20 | `display_render_bit` on the array performs `WithBit` |
| DisplayCommon.RenderBits | src/display_drv_common.c:10-20 | a sequence of calls performs the list's writes in order |
| Cgdk2Driver.TopCellsGood | src/display_drv_cgdk2.c:164-214 | the top cell tables hold 13 distinct in-buffer positions each, so `CharReadBack` applies to them |
| Cgdk2Driver.BottomCellsGood | src/display_drv_cgdk2.c:240-290 | the same for the bottom cell tables |
| Cgdk2Driver.TempSymbolSegments | src/display_drv_cgdk2.c:140-145 | bits 0x20/0x40/0x80 light COMMON/MINUS/UNDERSCORE: 0xA0 is °C, 0x60 is °F, 0 lights none |
| Cgdk2Driver.BatteryWrites | src/display_drv_cgdk2.c:147-155 | the case follows `state`, then stripes L1..L5 in order |
| Cgdk2Driver.BatteryStripesPrefix | src/display_drv_cgdk2.c:147-155 | stripe k lights iff the state is on and the level reaches 16/33/49/67/83, so the lit stripes are a prefix |
| Cgdk2Driver.FirstDiff | src/display_drv_cgdk2.c:121-122 | the first index where two different buffers differ: they agree before it |
| Cgdk2Driver.DiffEnd | src/display_drv_cgdk2.c:123-126 | one past the last differing index: they differ just before it and agree from it on |
| Cgdk2Driver.PatchRange | src/display_drv_cgdk2.c:121-129 | copying [FirstDiff, DiffEnd) makes the buffers equal, and no smaller range covers the differences |
| Cgdk2Driver.ScanFirstDiff | src/display_drv_cgdk2.c:121-122 | the forward scan returns the length iff the buffers are equal, and `FirstDiff` otherwise |
| Cgdk2Driver.ScanDiffEnd | src/display_drv_cgdk2.c:123-126 | the backward scan returns `DiffEnd` |
| Cgdk2Driver.SendChanged | src/display_drv_cgdk2.c:121-131 | equal buffers send nothing; otherwise exactly bytes [i, j) go out at address 2·i; afterwards the copy equals the buffer |
| Cgdk2Driver.CopyRange | src/display_drv_cgdk2.c:129 | the `memcpy` replaces [i, j) of the copy and keeps the rest |
| Cgdk2Driver.Cgdk2Display.constructor | src/display_drv_cgdk2.c:81-82 | the driver uses the given display buffer, with its own comparison buffer, and starts on |
| Cgdk2Driver.Cgdk2Display.Init | src/display_drv_cgdk2.c:84-107 | both buffers are zeroed; then an empty transaction (the start and abort), the reset command, and one set-up transaction with the blank buffer from address 0 are sent |
| Cgdk2Driver.Cgdk2Display.PowerToggle | src/display_drv_cgdk2.c:109-115 | `is_off` flips and DISPLAY_ON is sent iff it was off |
| Cgdk2Driver.Cgdk2Display.AsyncRefresh | src/display_drv_cgdk2.c:118-133 | nothing while off; otherwise the changed range as `SendChanged` states, so a second call sends nothing |
| Cgdk2Driver.Cgdk2Display.TempSymbol | src/display_drv_cgdk2.c:140-145 | the buffer after the temperature-symbol writes |
| Cgdk2Driver.Cgdk2Display.BatterySymbol | src/display_drv_cgdk2.c:147-155 | the buffer after the battery writes |
| Cgdk2Driver.Cgdk2Display.BleSymbol | src/display_drv_cgdk2.c:157-160 | the buffer after the Bluetooth-symbol write |
| Cgdk2Driver.Cgdk2Display.BigNumber | src/display_drv_cgdk2.c:228-236 | the buffer after the top row's dot, hundreds one and cells |
| Cgdk2Driver.Cgdk2Display.SmallNumber | src/display_drv_cgdk2.c:299-308 | the buffer after the bottom row's dot, cells and percent sign |
| Cgg1Driver.TopCell0Table | src/display_drv_cgg1.c:246-262 | with the later designated initialiser winning, cell 0 of the top row holds these positions, and SEG_2L..SEG_5L are 0 |
| Cgg1Driver.BottomCell0Table | src/display_drv_cgg1.c:329-345 | the same for cell 0 of the bottom row |
| Cgg1Driver.TopCollapsed | src/display_drv_cgg1.c:246-296 | in every top cell the four left-column segments map to position 0 |
| Cgg1Driver.BottomCollapsed | src/display_drv_cgg1.c:329-379 | the same in every bottom cell |
| Cgg1Driver.CellBitZero | src/display_drv_cgg1.c:246-296 | drawing any character in any cell leaves bit 0 showing that character's SEG_5L, the last of the four writes to it |
| Cgg1Driver.TopIntendedReadable | src/display_drv_cgg1.c:246-296 | corrected: with the first SEG_5R/4R/3R/1R entries read as SEG_5L/4L/3L/2L, each top cell has 13 distinct in-buffer positions and differs from the table as written only in SEG_2L..SEG_5L |
| Cgg1Driver.BottomIntendedReadable | src/display_drv_cgg1.c:329-379 | the same for the bottom cells |
| Cgg1Driver.IntendedCellReadBack | src/display_drv_cgg1.c:246-379 | corrected: with the intended tables every segment of any cell shows the character drawn |
| Cgg1Driver.LeftColumnExamples | src/display_drv_cgg1.c:246-296 | so "0" leaves bit 0 clear and "4" sets it |
| Cgg1Driver.TempSymbolSegments | src/display_drv_cgg1.c:221-227 | each part shows its own bit of the symbol: °C is degree, common and underscore; °F is degree, common and minus |
| Cgg1Driver.BatteryWrites | src/display_drv_cgg1.c:234-242 | the case follows `state`, then stripes L1..L5 in order |
| Cgg1Driver.BatteryStripesPrefix | src/display_drv_cgg1.c:234-242 | a lit stripe implies every lower stripe is lit |
| Cgg1Driver.OneIsMask | src/display_drv_cgg1.c:305-314 | the five writes of the leftmost one are the mask operation on bits 1..5 of byte 15 |
| Cgg1Driver.FrameRoundTrip | src/display_drv_cgg1.c:183 | inverting the sent bytes again gives the buffer back |
| Cgg1Driver.TaskStep | src/display_drv_cgg1.c:111-201 | the count is kept; 1 → 2, 2 → 2 on the init pass (clearing the init flag), else 2 → 3, 3 → 0 marking the panel updated, anything else → 0 |
| Cgg1Driver.Stage2SendsFrame | src/display_drv_cgg1.c:120-187 | stage 2 always ends with the inverted frame and the refresh command, and an updated panel gets nothing else |
| Cgg1Driver.TaskReachesIdle | src/display_drv_cgg1.c:113-198 | with BUSY high four calls end any refresh: a partial one takes three, a full one four, and both leave the panel updated |
| Cgg1Driver.RefreshCountdown | src/display_drv_cgg1.c:84-90 | with n refreshes left on the count, the next n are partial and the one after them is a full `display_init`: after an init, 32 partial refreshes then a full one |
| Cgg1Driver.Cgg1Display.constructor | src/display_drv_cgg1.c:17-21 | the statics start at zero |
| Cgg1Driver.Cgg1Display.DisplayInit | src/display_drv_cgg1.c:64-74 | count 32, stage 1, not updated, init flag set |
| Cgg1Driver.Cgg1Display.SendFrame | src/display_drv_cgg1.c:181-183 | the frame loop sends `FrameTx` of the buffer |
| Cgg1Driver.Cgg1Display.TaskLcd | src/display_drv_cgg1.c:111-201 | nothing changes while BUSY is low; with it high the state follows `TaskStep` and the bytes `TaskTx`; the stage is returned |
| Cgg1Driver.Cgg1Display.AsyncRefresh | src/display_drv_cgg1.c:81-100 | a refresh starts only when idle and the buffer differs from the copy, which is updated first; then one `task_lcd` runs |
| Cgg1Driver.Cgg1Display.RenderTopLeftmostOne | src/display_drv_cgg1.c:305-314 | only bits 1..5 of byte 15 are set or cleared |
| Cgg1Driver.Cgg1Display.TempSymbol | src/display_drv_cgg1.c:221-227 | the buffer after the temperature-symbol writes |
| Cgg1Driver.Cgg1Display.BatterySymbol | src/display_drv_cgg1.c:234-242 | the buffer after the battery writes |
| Cgg1Driver.Cgg1Display.BleSymbol | src/display_drv_cgg1.c:229-232 | the buffer after the Bluetooth-symbol write |
| Cgg1Driver.Cgg1Display.BigNumber | src/display_drv_cgg1.c:316-324 | the buffer after the top row with its leftmost one |
| Cgg1Driver.Cgg1Display.SmallNumber | src/display_drv_cgg1.c:388-397 | the buffer after the bottom row and the percent sign |
| LcdCgdk2.CellSegmentBitsGood | src/lcd_cgdk2.c:137-245 | each of the six cell tables holds 13 distinct in-buffer positions |
| LcdCgdk2.DrawCellWrites | src/lcd_cgdk2.c:350-360 | a cell ≥ NUM_CELLS or character ≥ NUM_CHARS writes nothing; otherwise the 13 bitmap bits go to that cell's positions |
| LcdCgdk2.DrawNumberMatchesRender | src/lcd_cgdk2.c:423-462 | `draw_number` shows the same dot, hundreds one and three characters as the shared 3-cell renderer |
| LcdCgdk2.DrawNumberExamplesPositive | src/lcd_cgdk2.c:414-421 | the header's positive examples: 19995 "Hi" on top, 19994 "Hi" and 9994 "999" below, 999 "99.9" with the dot |
| LcdCgdk2.DrawNumberExamplesNegative | src/lcd_cgdk2.c:414-421 | the header's negative examples: −99 "-9.9", −994 "-9 9" without the dot, −995 "Lo" |
| LcdCgdk2.DrawNumberAsWrittenWraps | src/lcd_cgdk2.c:429 | as written, 32767 shows "Lo" and −32768 "Hi"; corrected they show "Hi" and "Lo" |
| LcdCgdk2.BattLevel | src/lcd_cgdk2.c:476-484 | the reading is at most 999; 0 at or below 2200 mV, and min((mv − 2200)·10/9, 999) for 2200 < mv ≤ 61182, above which the uint16 store wraps |
| LcdCgdk2.BattLevelShown | src/lcd_cgdk2.c:476-486 | the battery reading always fits the bottom row with its dot and reads back exactly |
| LcdCgdk2.ClockChars | src/lcd_cgdk2.c:491-499 | two digits of hours (sec/3600 mod 24), two of minutes (sec/60 mod 60), and blanks in the third and sixth cells |
| LcdCgdk2.ClockShows | src/lcd_cgdk2.c:489-505 | the clock leaves hours in cells A and B, minutes in X and Y, and C and Z blank |
| LcdCgdk2.BatterySymbolMatchesDriver | src/lcd_cgdk2.c:395-403 | `show_battery_symbol` makes the same writes as the driver's, so its stripes form the same prefix |
| LcdCgdk2.Lcd.constructor | src/lcd_cgdk2.c:13-14 | two fresh 12-byte buffers, the display buffer and its comparison copy |
| LcdCgdk2.Lcd.InitLcd | src/lcd_cgdk2.c:292-316 | both buffers are zeroed; an empty transaction, the reset, then the set-up with the blank buffer are sent |
| LcdCgdk2.Lcd.UpdateLcd | src/lcd_cgdk2.c:319-333 | equal buffers send nothing; otherwise the minimal changed range at address 2·i; afterwards the copy equals the buffer |
| LcdCgdk2.Lcd.SetBit | src/lcd_cgdk2.c:337-347 | one bit of the 12-byte buffer is set or cleared; out-of-range positions are ignored |
| LcdCgdk2.Lcd.Draw | src/lcd_cgdk2.c:350-360 | `draw_cell` performs `DrawCellWrites` |
| LcdCgdk2.Lcd.ShowBigNumber | src/lcd_cgdk2.c:464-467 | the buffer after `draw_number` on the top row |
| LcdCgdk2.Lcd.ShowSmallNumber | src/lcd_cgdk2.c:469-473 | the buffer after `draw_number` on the bottom row and the percent sign |
| LcdCgdk2.Lcd.ShowBatt | src/lcd_cgdk2.c:476-486 | the buffer after the battery reading is drawn |
| LcdCgdk2.Lcd.ShowClock | src/lcd_cgdk2.c:489-505 | the buffer after the clock is drawn |
| LcdCgdk2.Lcd.ShowTempSymbol | src/lcd_cgdk2.c:370-375 | the buffer after the temperature-symbol writes |
| LcdCgdk2.Lcd.ShowBatterySymbol | src/lcd_cgdk2.c:395-403 | the buffer after the battery-symbol writes |
| LcdCgdk2.Lcd.ShowBleSymbol | src/lcd_cgdk2.c:390-393 | the buffer after the Bluetooth-symbol write |
| CmdParser.Dec8 | src/cmd_parser.c:61 | `--cnt` on a byte: one less, and 0 wraps to 0xFF |
| CmdParser.StopsPastSector | src/cmd_parser.c:67 | a header at or past the sector end reads erased, so the walk stops there |
| CmdParser.Scan | src/cmd_parser.c:46-69 | the offset returned is past a 3-byte header; what it selects is stated by `ScanSelects` |
| CmdParser.ScanFindsKey | src/cmd_parser.c:58-61 | the scan only returns a record with the id asked for and 1 to 32 data bytes |
| CmdParser.WalkShape | src/cmd_parser.c:53-57 | the walk starts at offset 0, steps 3 + len, stays inside the sector until its last header, and ends exactly where the erased-header test fails, so erased headers inside the sector do not stop it |
| CmdParser.WalkAscending | src/cmd_parser.c:53-66 | records on the walk do not overlap |
| CmdParser.ScanSelects | src/cmd_parser.c:46-69 | `find_mi_keys(id, cnt)` returns the data of the cnt-th accepted record of the walk, and 0 when there are fewer; other records do not consume cnt |
| CmdParser.ChunksReassemble | src/cmd_parser.c:73-80 | the pieces sent put together give the key back; there are ceil(n/18), none longer than a notification, each `klen` byte counting the key bytes left from it on |
| CmdParser.LastOfLen | src/cmd_parser.c:97-100 | the last walk record of the given length, or none when no record has it |
| CmdParser.RestoreAsWrittenKeepsCurrent | src/cmd_parser.c:114-122 | as written, the restore leaves the current key in place and copies it over the deleted one |
| CmdParser.RestoreAsWrittenLosesDeleted | src/cmd_parser.c:114-122 | as written, a deleted key with other bytes is lost: the sector ends holding the current key twice |
| CmdParser.ExchangedSwaps | src/cmd_parser.c:117-118 | corrected: the restore swaps the two keys and leaves every other byte alone |
| CmdParser.ExchangedTwice | src/cmd_parser.c:117-118 | restoring twice gives the sector back |
| CmdParser.Stored | src/cmd_parser.c:91-127 | the status is 0 or 1, the sector keeps its size, and the status is 0 exactly when the sector is unchanged |
| CmdParser.Rewritten | src/cmd_parser.c:107-113 | the rewrite reports 1 exactly when it changes the sector |
| CmdParser.Restored | src/cmd_parser.c:114-122 | the exchange reports 1 exactly when it changes the sector |
| StoreOverrun.StoreAsWrittenOverruns | src/cmd_parser.c:102-118 | as written, a token record whose header is at 0xFF0 passes the found-and-length test while its 28 bytes run past the 4096-byte `backupsector`; the model returns 0 and leaves the sector alone |
| CmdParser.StoredKeyReadsBack | src/cmd_parser.c:102-113 | on status 1 the new key reads back from the current record of the id and no other byte changes; status 0 leaves the sector unchanged, and when the current record has that length its content already equals the key |
| CmdParser.RestoreSwapsKeys | src/cmd_parser.c:96-122 | a successful restore swaps the current key of the id with the last deleted key of that length |
| CmdParser.StoreThenFind | src/cmd_parser.c:102-113 | after a rewrite every lookup finds the records it found before, and the id's current record reads as the new key |
| CmdParser.RestoreThenFind | src/cmd_parser.c:96-122 | after a restore every lookup finds the records it found before; the current record reads as the deleted key brought back and that deleted record as the key it replaced |
| CmdParser.ExchangeKeepsScans | src/cmd_parser.c:117-118 | exchanging the data of two same-length records changes no lookup |
| CmdParser.DeletedNth | src/cmd_parser.c:97 | `find_mi_keys(DELETE, cnt)` is the cnt-th deleted record (the 256th for cnt 0), or 0 past the last |
| CmdParser.KeyStore.constructor | src/cmd_parser.c:28-43 | the statics start zeroed: the given sector, an empty `keybuf` with no id, count 0 and no stage |
| CmdParser.KeyStore.FindMiKeys | src/cmd_parser.c:46-69 | returns the flash address of the record `Scan` selects with that record loaded into `keybuf`, or 0 with `keybuf` untouched |
| CmdParser.KeyStore.LoadRecord | src/cmd_parser.c:62-63 | `keybuf` gets the record's length and data |
| CmdParser.KeyStore.SendMiKey | src/cmd_parser.c:71-85 | works iff the FIFO holds fewer than 9 packets; then it sends `Chunks` of the pending key and ends with `klen` 0; otherwise nothing changes |
| CmdParser.KeyStore.SendMiNoKey | src/cmd_parser.c:86-89 | sends an empty answer of the current id |
| CmdParser.KeyStore.Report | src/cmd_parser.c:138-141 | the selected record is sent when found, else an empty answer |
| CmdParser.KeyStore.FindDeleted | src/cmd_parser.c:96-101 | for up to 255 deleted records the restore loop, with its byte counter, ends and finds the last deleted record of the wanted length |
| CmdParser.KeyStore.FindDeletedNth | src/cmd_parser.c:97 | the cnt-th deleted record's data address (the 256th for cnt 0), 0 past the last |
| CmdParser.KeyStore.StoreMiKeys | src/cmd_parser.c:91-127 | the status and new sector are those of `Stored`; after a restore `keybuf` holds the key brought back |
| CmdParser.KeyStore.StoreKey | src/cmd_parser.c:102-113 | the key branch of `store_mi_keys`, with `keybuf` left holding the old record |
| CmdParser.KeyStore.StoreDeleted | src/cmd_parser.c:96-122 | the restore branch, as corrected |
| CmdParser.KeyStore.Rewrite | src/cmd_parser.c:107-113 | the sector rewrite once the current record is found |
| CmdParser.KeyStore.Restore | src/cmd_parser.c:114-122 | the corrected exchange once both records are found |
| CmdParser.KeyStore.Exchange | src/cmd_parser.c:117-118 | the two copies exchange the records in `backupsector` |
| CmdParser.KeyStore.GetMiKeys | src/cmd_parser.c:129-208 | a pending key that cannot be sent leaves the stage unchanged; otherwise the stage runs and the next stage is returned |
| CmdParser.KeyStore.Stage | src/cmd_parser.c:134-206 | MAC/get-all → name → token → config → deleted keys, repeating while another deleted key is found, then end; restore → wait or end; wait → end |
| CmdParser.KeyStore.ReportStage | src/cmd_parser.c:135-169 | each reporting stage looks up and reports its record and moves on as `NextStage` says |
| CmdParser.KeyStore.RestoreStage | src/cmd_parser.c:170-179 | restores the token key and reports the result |
| CmdParser.KeyStore.MacStage | src/cmd_parser.c:183-205 | reports the MAC record when the FIFO has room and otherwise keeps it pending |
| CmdParser.KeyStore.LoadMac | src/cmd_parser.c:185-192 | `keybuf` gets the MAC payload, swapped on CGG1 |
| CmdParser.KeyStore.EraseMiKeys | src/cmd_parser.c:210-217 | the sector is erased iff its first word does not already read 0xffffffff, and the result says whether it was |
| CmdParser.KeyStore.KeyAllCommand | src/cmd_parser.c:322-323 | starts reporting every key: a pending `keybuf` record goes out first, then the MAC record when the FIFO has room for it (else it stays pending), and the stage moves to the name; when the pending record cannot be sent nothing goes out and the stage stays at `get all` |
| CmdParser.KeyStore.RestoreCommand | src/cmd_parser.c:324-326 | starts restoring the previous token key |
| CmdParser.KeyStore.KeyCommand | src/cmd_parser.c:379-388 | a request of exactly one key stores it; the old record of that id left in `keybuf` is sent, then the name or token stage's packets on the new sector; when the FIFO is too full for the old record nothing is sent; the poll then waits for the send |
| CmdParser.KeyCommandReportsNewKey | src/cmd_parser.c:135-151 | after a successful store the name or token stage sends exactly the new key |
| CmdParser.KeyStore.MacReply | src/cmd_parser.c:305-306 | a pending `keybuf` record goes out first, then the MAC record when the FIFO has room; the poll waits for the send; nothing goes out when the pending record cannot be sent |
| CmdParser.KeyStore.Poll | src/app.c:297-298 | at the end stage nothing happens; otherwise, unless a pending record is blocked by a full FIFO, the stage and count move as `NextStage` says, and a blocked poll sends nothing and keeps the stage |
| CmdParser.KdelCountsUp | src/cmd_parser.c:161-169 | each poll in the deleted-key stage reports the next deleted record while one is left |
| CmdParser.KdelEnds | src/cmd_parser.c:165-167 | the poll after the last deleted record ends the sequence, leaving the byte count one past it (0 after 255 records) |
| CmdParser.GetAllReportsAll | src/cmd_parser.c:135-169 | with a token or sequence-number record, `get all` reports MAC, name, token, config and every deleted record, and ends after 5 + (deleted count) polls, for up to 255 deleted records |
| CmdParser.StaleCountHidesDeleted | src/cmd_parser.c:135-169 | without either record a stale count at or past the number of deleted records ends `get all` without reporting any |
| CmdParser.ErasedHasNoKeys | src/cmd_parser.c:210-217 | an erased sector holds no key of any id |
| CmdParser.ErasedFindsNothing | src/cmd_parser.c:46-69 | after `erase_mikeys` every lookup answers that there is no key |
| CmdParser.PayloadLen | src/cmd_parser.c:236 | a request copies min(len − 1, sizeof target) bytes |
| CmdParser.CopyPayload | src/cmd_parser.c:236-237 | the payload goes over the start of the target and the rest keeps its bytes |
| CmdParser.ComfortAsWrittenOverruns | src/cmd_parser.c:365 | as written, with `cfg` larger than `cmf` a payload between sizeof(cmf)+1 and sizeof(cfg) bytes is copied whole, past the end of `cmf` |
| CmdParser.ComfortAsWrittenExample | src/cmd_parser.c:365 | a 10-byte request with a 9-byte `cfg` copies 9 bytes into the 8-byte `cmf` |
| CmdParser.ComfortLen | src/cmd_parser.c:365-367 | corrected: never more than sizeof(cmf), and the whole payload when it fits |
| CmdParser.ExtOfBytes | src/cmd_parser.c:235-242 | decoding the bytes of an ext record gives the record back |
| CmdParser.ExtBytesOf | src/cmd_parser.c:235-242 | every 7 bytes are the image of the record they decode to |
| CmdParser.ExtDataCommand | src/cmd_parser.c:235-242 | the payload goes over `ext` and, when not empty, the ext layout is shown for its `vtime_sec` seconds |
| CmdParser.CfgCommand | src/cmd_parser.c:243-247 | the payload, clamped, goes over `cfg` |
| CmdParser.ComfortCommand | src/cmd_parser.c:364-367 | the payload, clamped to `cmf` as intended, goes over `cmf` |
| CmdParser.LcdDumpCommand | src/cmd_parser.c:335-342 | the payload goes over the display buffer; ext-data display is set exactly when something was copied |
| CmdParser.FromLe32Le32 | src/cmd_parser.c:390-393 | reading back the little-endian bytes of a time gives the time |
| CmdParser.UtcAfterCases | src/cmd_parser.c:390-393 | a full payload sets the time to its little-endian value, an empty one leaves it, and a short one changes only the low bytes it holds |
| BltCommon.SwapMac | src/blt_common.c:33-40 | out[k] = in[5 − k] |
| BltCommon.SwapMacTwice | src/blt_common.c:33-40 | swapping twice is the identity |
| BltCommon.SwapMacAddress | src/blt_common.c:33-40 | the output range gets the swapped input range and nothing else changes |
| BltCommon.NewRecord | src/blt_common.c:43-54 | the record is 8 bytes and ends with rand[3], rand[4] |
| BltCommon.InitRecord | src/blt_common.c:57-90 | a record that is not erased is kept as it is |
| BltCommon.GeneratedRecordShape | src/blt_common.c:64-80 | a made-up record is never erased, and its public address begins 58:2D:34 on CGG1 and A4:C1:38 on CGDK2 |
| BltCommon.InitRecordIdempotent | src/blt_common.c:62-80 | a second initialisation finds the first one's record and leaves it |
| BltCommon.NewThenInit | src/blt_common.c:43-90 | `blc_newMacAddress` then `blc_initMacAddress` gives back the public address and rand[3..4], and the whole random address when it has the form the parser builds |
| BltCommon.MacFlash.constructor | src/blt_common.c:57-59 | the MAC record the flash holds is the one given |
| BltCommon.MacFlash.NewMacAddress | src/blt_common.c:43-54 | the flash record becomes `NewRecord` of the two addresses |
| BltCommon.MacFlash.InitMacAddress | src/blt_common.c:57-90 | the record becomes `InitRecord`; `mac_public` is read from it, and `mac_random_static` is pub[0..2], record[6], record[7], 0xC0 |
| BltCommon.MacFlash.Generate | src/blt_common.c:64-80 | the made-up record with the vendor prefix and the random bytes |
| BltCommon.MacFlash.CopyPublic | src/blt_common.c:71-83 | the public address, reversed on CGG1 and copied on CGDK2 |
| I2c.SendAllShape | src/i2c.c:96-101 | feeding bytes keeps at most four loaded, flushing full groups in order |
| I2c.TransactionShape | src/i2c.c:20-101 | an address and n bytes go out in order as n/4 + 1 transfers; all but the last carry four bytes and the last one to four; only the first has START and only the last STOP |
| I2c.StallOfFeed | src/i2c.c:44-54 | each transfer waits (9·count + START + STOP)·4·speed |
| I2c.Driver.Pending | src/i2c.c:42 | the loaded bytes never exceed the four hardware slots |
| I2c.Driver.constructor | src/i2c.c:24 | the driver starts closed with nothing loaded and the clock divider computed |
| I2c.Driver.Start | src/i2c.c:20-32 | `tx_state` becomes 1 with the address in the first slot, not open |
| I2c.Driver.Flush | src/i2c.c:40-56 | the loaded bytes go out with START only when not open |
| I2c.Driver.Stop | src/i2c.c:58-62 | flush with STOP, and `tx_state` becomes 0 |
| I2c.Driver.Abort | src/i2c.c:64-68 | a bare STOP, and `tx_state` becomes 0 |
| I2c.Driver.CheckAddress | src/i2c.c:70-75 | an empty probe of the address; the answer is true iff there was no NAK |
| I2c.Driver.SendByte | src/i2c.c:84-94 | a byte at count 4 first flushes without STOP, then loading restarts open at count 0 |
| I2c.Driver.SendBuff | src/i2c.c:96-101 | each byte in order through `i2c_send_byte` |
| I2c.Driver.WriteTx1Byte | src/i2c.c:103-109 | the address and one byte in a single START..STOP transfer |
| I2c.Driver.WriteTx1Word | src/i2c.c:111-117 | the address and a 16-bit word, low byte first, in a single START..STOP transfer |

The helper methods `CmdParser.CopyInto`, `CmdParser.KeyStore.LoadKey`,
`LcdCgdk2.Lcd.Apply`, `LcdCgdk2.Lcd.Perform`, `SegmentCell.RenderCall` and
`SegmentCell.RenderRow` have no row of their own: they carry one step of the
callers above, whose rows state what the step does.

## Left out

- Register-level I/O and busy-waits are not modelled: the `reg_i2c_*` polling, `cpu_stall_wakeup_by_timer0`, `pm_wait_us`, GPIO reads and writes. They are events in a log or input parameters.
- Each call reads the clock once: `clock_time()` is one tick parameter per call. In `uclock_before_sleep` the second read, which arms the timer, is its own parameter.
- `Sensors.Sensor.Read`, `Display.Display.ShouldDisplayExt`, `App.App.KeepSeconds` and `Button.ButtonHandler.Handle` see one tick per call, where the C reads `clock_time()` again later in the same call (for example after the I2C traffic of a measurement). The time that passes inside one call is not modelled.
- The sensor bus is a function from attempt number to result (NAK, or three acknowledged bytes per reading). The address scan of `sensor_init` (src/sensors.c:88-104) is left out; the sensor found is a parameter of `Sensors.Sensor.Init`.
- The I2C clock divider is a constructor parameter and the NAK status is a parameter of `I2c.Driver.CheckAddress`. The hardware waits for the controller are not modelled.
- src/i2c_send.c is not modelled. It is an alternative that is never built: its `i2c_send_byte` takes two arguments, which conflicts with src/i2c.h:14.
- The bit-banged `i2c_start`/`i2c_send`/`i2c_stop` of src/lcd_cgdk2.c:249-273 and the bit-banged SPI `transmit`/`transmit_bit` of the CGG1 driver are not modelled. They are register toggling; the model keeps only the bytes they send.
- The `display_sync_refresh` wait loops of both drivers are not modelled, because they only repeat the asynchronous refresh until the hardware is idle.
- `show_smiley` of src/lcd_cgdk2.c is empty in the source.
- BLE SDK calls are not modelled: `bls_att_pushNotifyData`, `blc_ll_*`, `bls_pm_*`, `bls_smp_*` and the MTU exchange. Notifications are kept only as returned packets, and the TX FIFO fill is a parameter.
- The connected-notification branch of `main_loop` beyond the `tx_measures` countdown is not modelled, because it depends on link state and CCC flags.
- The `ble_connected |= 0x80` bookkeeping is not modelled.
- The flash driver and EEP helpers (`flash_read_page`, `flash_erase_sector`, `flash_write_cfg`) are not modelled. The Mi-key sector and the MAC record are byte sequences.
- `generateRandomNum` is the `rnd` parameter of `BltCommon.MacFlash.InitMacAddress`.
- The boot code (`user_init_normal`, `user_init_deepRetn`) is not modelled, and neither is the `my_RxTx_Data` copy at the end of `test_config` (src/app.c:178-180).
- These `cmd_parser` branches have no logic worth stating beyond a copy or an SDK call, so they are left out: the device-name clamp (src/cmd_parser.c:370-378), `CMD_ID_DEBUG`, `MEASURE`, `CFG_DEF`, `TRG`, `BKEY`, `LCD_FLG`, `PINCODE`, `MTU`, `REBOOT` and `TADJUST`.
- The `DEV_MAC` branch (src/cmd_parser.c:275-304) is modelled only through the flash record it writes, `BltCommon.MacFlash.NewMacAddress` and `BltCommon.MacFlash.InitMacAddress`, and the MAC reply, `CmdParser.KeyStore.MacReply`. Its choice between the three request forms, the `memcmp` against `mac_public` and the building of `mac_random_static` from the request are not modelled.
- `CmdParser.CfgCommand` models only the clamped copy into `cfg` (src/cmd_parser.c:243-247). The `test_config`, `ev_adv_timeout` and `flash_write_cfg` calls after it (src/cmd_parser.c:248-250) are not composed with it. `App.App.TestConfig` models `test_config` on its own, and the `cfg_t` layout is not part of this model.
- `CmdParser.ExtDataCommand` assumes the ext-data record is packed into 7 bytes, as the firmware's structure layout gives it.
- `CmdParser.KeyStore.FindDeleted`: its requires asks for at most 255 deleted records. With 256 or more, the C loop's byte counter wraps to 0, `find_mi_keys(DELETE, 0)` asks for the 256th record again, and the loop does not end. The same bound is on `StoreMiKeys`, `StoreDeleted`, `GetMiKeys`, `Stage`, `RestoreStage`, `Poll` (in the restore stage) and `RestoreCommand`.
- `CmdParser.Stored`, `CmdParser.KeyStore.StoreKey`, `CmdParser.KeyStore.StoreDeleted` and `CmdParser.KeyStore.Restore` return 0 when a record's data runs past the sector end, where the code as written reads and writes past `backupsector`; see Findings.
- `CmdParser.KeyStore.StoreMiKeys` and `CmdParser.KeyStore.StoreDeleted` model the restore as intended. The code as written is `CmdParser.RestoreAsWritten`; see Findings.
- `CmdParser.ComfortCommand` clamps to `sizeof(cmf)` as intended. The code as written is `CmdParser.ComfortLenAsWritten`; see Findings.
- `UClock.Clock.BeforeSleep` arms the timer with `UClock.ArmTick`, which caps the time at `MAX_SLEEP_US` as intended. The code as written is `UClock.ArmTickAsWritten`; see Findings.
- `Cgg1Driver.Cgg1Display.BigNumber` and `Cgg1Driver.Cgg1Display.SmallNumber` draw with the CGG1 cell tables as written, in which SEG_2L..SEG_5L all land on position 0. The intended tables (`Cgg1Driver.TopIntendedReadable`, `Cgg1Driver.BottomIntendedReadable`) are read off the order of the entries and are not used by the driver model; see Findings.
- `ThreeCellLine.Render` and `LcdCgdk2.DrawNumber` render without the int16 wrap of `value += 5`. The code as written is `ThreeCellLine.RenderAsWritten` and `LcdCgdk2.DrawNumberAsWritten`; see Findings.

## Findings

| source | as written | input that shows it | evidently intended | confidence | as-written member | corrected member |
|---|---|---|---|---|---|---|
| src/uclock.c:74-75 | the wake tick is `clock_time() + (next_sleep_us − loop)·16` in 32-bit arithmetic, and `MAX_SLEEP_US` (line 9) is never applied, so a long sleep wraps | 0x10000000 µs remaining arms the timer at the current tick (immediate wake), and the one-hour budget arms it 1765425152 ticks (about 110 s) ahead | cap the remaining time at `MAX_SLEEP_US` so that 16 times it fits 32 bits | not executed | UClock.ArmTickAsWrittenWraps | UClock.ArmTick |
| src/display_3cell_line.c:13 | `value += 5` / `value -= 5` on an `int16_t` wraps at the ends of its range | 32767 is drawn as "Lo" and −32768 as "Hi" | the largest values read "Hi" and the smallest "Lo" | not executed | ThreeCellLine.AsWrittenWrapsAtEdges | ThreeCellLine.RenderLoHi |
| src/cmd_parser.c:365 | the COMFORT length is compared against `sizeof(cfg)` but the copy goes into `cmf` | a 10-byte request with a 9-byte `cfg` copies 9 bytes into the 8-byte `cmf` | compare against `sizeof(cmf)` | not executed | CmdParser.ComfortAsWrittenOverruns | CmdParser.ComfortLen |
| src/cmd_parser.c:102-118 | `store_mi_keys` checks only that the current record exists and has the wanted length, then `memcmp`s and `memcpy`s `keybuf.klen` bytes at its offset in the 4096-byte `backupsector`, so a record whose data runs past the sector end overruns it | sixteen 255-byte records of id 2, then a token header with length 28 at offset 0xFF0: its data starts at 0xFF3 and the 28 bytes end at 0x100F | refuse a record whose data does not fit the sector | not executed | StoreOverrun.StoreAsWrittenOverruns | CmdParser.StoredKeyReadsBack |
| src/display_drv_cgg1.c:246-379 | each CGG1 cell initializer names SEG_5R, SEG_4R, SEG_3R and SEG_1R twice and SEG_2L..SEG_5L never, so the later entries win and the four left-column segments stay at position 0 | drawing any character in any cell: its four left-column writes all go to bit 0 of byte 0 (the SEG_1L of the last bottom cell), which ends showing that character's SEG_5L alone; "0" leaves it clear and "4" sets it (`Cgg1Driver.LeftColumnExamples`) | the first four of those entries are the left column SEG_5L, SEG_4L, SEG_3L, SEG_2L | not executed; the intended positions are inferred from the order of the entries | Cgg1Driver.CellBitZero | Cgg1Driver.IntendedCellReadBack |
| src/cmd_parser.c:114-122 | in restore mode `keybuf.data` still holds the current key loaded at line 103, because the load of the old key at line 116 is commented out; the deleted slot gets the current key and the current slot keeps it | the sector [1, 2, 3, 4] with the deleted key [1, 2] and the current key [3, 4] ends as [3, 4, 3, 4] | exchange the two keys | not executed | CmdParser.RestoreAsWrittenLosesDeleted | CmdParser.ExchangedSwaps |
