/**
 * The push-button handler of `button.c`: a three-state debounce machine
 * (IDLE, DEBOUNCING, PRESSED) driven once per main-loop iteration with the
 * raw key level, counting clicks and dispatching them once the long-press
 * timer has run out. Its timers live in the microsecond clock of `UClock`.
 */
module Button {
  import opened Word
  import opened UClock

  const DEBOUNCE_US: u32 := 50000
  const LONG_PRESS_US: u32 := 500000
  /** The bit of `ble_connected` the click handler toggles. */
  const CLICK_TOGGLE_BIT: bv8 := 0x10

  datatype State = Idle | Debouncing | Pressed

  /** How the key pin is armed as a wake source (`cpu_set_gpio_wakeup`). */
  datatype PadWake = PadDisabled | WakeOnHigh | WakeOnLow

  /** The module statics of `button.c`. */
  datatype Vars = Vars(state: State, numClicks: u16, debounceTimer: u32, longPressTimer: u32)

  /** One call's effect: the new statics, whether the click handler ran, and
   *  the wake deadlines handed to the clock, in order. */
  datatype Outcome = Outcome(vars: Vars, clicked: bool, requests: seq<u32>)

  /** `uclock_should_awake(t)` seen from time `now`. */
  predicate Expired(now: u32, t: u32)
  {
    !IsBefore(now, t)
  }

  /** The debounce part of `button_handle` (everything before the click check). */
  function Debounce(b: Vars, now: u32, pressed: bool): (Vars, seq<u32>)
  {
    if b.state == Debouncing then
      if !Expired(now, b.debounceTimer) then (b, [b.debounceTimer])
      else if pressed then
        var t := Add32(now, LONG_PRESS_US);
        (b.(state := Pressed, longPressTimer := t, numClicks := Inc16(b.numClicks)), [t])
      else (b.(state := Idle), [])
    else
      var level := if pressed then Pressed else Idle;
      if level != b.state then
        var t := Add32(now, DEBOUNCE_US);
        (b.(state := Debouncing, debounceTimer := t), [t])
      else (b, [])
  }

  /**
   * The whole of `button_handle` at time `now` with the key at level
   * `pressed`.
   */
  function HandleStep(b: Vars, now: u32, pressed: bool): (r: Outcome)
    // A level that differs from a settled state starts a 50 ms debounce.
    ensures b.state != Debouncing && (pressed <==> b.state == Idle) ==>
      r.vars.state == Debouncing && r.vars.debounceTimer == Add32(now, DEBOUNCE_US)
    // A level that agrees with a settled state leaves the state and timers alone.
    ensures b.state != Debouncing && (pressed <==> b.state == Pressed) ==>
      r.vars.state == b.state && r.vars.debounceTimer == b.debounceTimer
      && r.vars.longPressTimer == b.longPressTimer
    // While debouncing nothing moves until the debounce timer has expired.
    ensures b.state == Debouncing && !Expired(now, b.debounceTimer) ==>
      r.vars.state == Debouncing && r.vars.longPressTimer == b.longPressTimer
    // On expiry the level decides: pressed counts a click and arms the long press.
    ensures b.state == Debouncing && Expired(now, b.debounceTimer) && pressed ==>
      r.vars.state == Pressed && r.vars.longPressTimer == Add32(now, LONG_PRESS_US) && !r.clicked
      && r.vars.numClicks == Inc16(b.numClicks)
    ensures b.state == Debouncing && Expired(now, b.debounceTimer) && !pressed ==>
      r.vars.state == Idle
    // Clicks are counted only on entry to PRESSED.
    ensures r.vars.numClicks != b.numClicks ==>
      r.clicked || (b.state == Debouncing && r.vars.state == Pressed)
    // Pending clicks are dispatched once the long-press timer has expired, then forgotten.
    ensures r.clicked <==>
      Debounce(b, now, pressed).0.numClicks != 0 && Expired(now, Debounce(b, now, pressed).0.longPressTimer)
    ensures r.clicked ==> r.vars.numClicks == 0
    ensures !r.clicked ==> r.vars.numClicks == Debounce(b, now, pressed).0.numClicks
    ensures r.vars.state == Debounce(b, now, pressed).0.state
  {
    var (d, reqs) := Debounce(b, now, pressed);
    if d.numClicks != 0 then
      if Expired(now, d.longPressTimer) then Outcome(d.(numClicks := 0), true, reqs)
      else Outcome(d, false, reqs + [d.longPressTimer])
    else Outcome(d, false, reqs)
  }

  /** Whether `button_handle` consults the clock at all in this call. */
  predicate ReadsClock(b: Vars, pressed: bool)
  {
    b.state == Debouncing || (if pressed then Pressed else Idle) != b.state || b.numClicks != 0
  }

  /** The wake pin setting the handler leaves behind. */
  function PadWakeFor(s: State): (w: PadWake)
  {
    match s
    case Debouncing => PadDisabled
    case Pressed => WakeOnHigh
    case Idle => WakeOnLow
  }

  /** The click handler's effect on `ble_connected`. */
  function ToggleBle(ble: bv8): (r: bv8)
    ensures r ^ CLICK_TOGGLE_BIT == ble
    ensures r & !CLICK_TOGGLE_BIT == ble & !CLICK_TOGGLE_BIT
  {
    ble ^ CLICK_TOGGLE_BIT
  }

  /**
   * A bounce shorter than the debounce time is ignored: after a press that
   * starts debouncing in IDLE, a release seen when the debounce timer expires
   * ends back in IDLE with no click counted, whatever happened in between.
   */
  lemma GlitchIgnored(b: Vars, now1: u32, mids: seq<(u32, bool)>, now2: u32)
    requires b.state == Idle && b.numClicks == 0
    requires forall k :: 0 <= k < |mids| ==> !Expired(mids[k].0, Add32(now1, DEBOUNCE_US))
    requires Expired(now2, Add32(now1, DEBOUNCE_US))
    ensures var d := HandleStep(b, now1, true).vars;
      var m := Replay(d, mids);
      m.state == Debouncing && m.numClicks == 0
      && HandleStep(m, now2, false).vars.state == Idle
      && HandleStep(m, now2, false).vars.numClicks == 0
      && !HandleStep(m, now2, false).clicked
  {
    var d := HandleStep(b, now1, true).vars;
    ReplayWhileDebouncing(d, mids);
  }

  /** The statics after a sequence of calls (time, level). */
  function Replay(b: Vars, calls: seq<(u32, bool)>): Vars
    decreases |calls|
  {
    if calls == [] then b else Replay(HandleStep(b, calls[0].0, calls[0].1).vars, calls[1..])
  }

  lemma {:induction false} ReplayWhileDebouncing(b: Vars, calls: seq<(u32, bool)>)
    requires b.state == Debouncing && b.numClicks == 0
    requires forall k :: 0 <= k < |calls| ==> !Expired(calls[k].0, b.debounceTimer)
    ensures Replay(b, calls) == b
  {
    if calls != [] {
      var b1 := HandleStep(b, calls[0].0, calls[0].1).vars;
      assert b1 == b;
      assert forall k :: 0 <= k < |calls[1..]| ==> calls[1..][k] == calls[k + 1];
      ReplayWhileDebouncing(b1, calls[1..]);
    }
  }

  /** The button module's statics, updated on each `button_handle`. */
  class ButtonHandler {
    var state: State
    var numClicks: u16
    var debounceTimer: u32
    var longPressTimer: u32

    /** button_init(): start IDLE, waking on a low (pressed) key. */
    constructor ()
      ensures state == Idle && numClicks == 0 && debounceTimer == 0 && longPressTimer == 0
    {
      state := Idle;
      numClicks := 0;
      debounceTimer := 0;
      longPressTimer := 0;
    }

    function AsVars(): Vars
      reads this
    {
      Vars(state, numClicks, debounceTimer, longPressTimer)
    }

    /**
     * button_handle() with the hardware timer at `tick` and the key level
     * `pressed`; `ble` is `ble_connected`. Returns the new `ble_connected`,
     * whether the click handler ran (it also calls `display_update`), and the
     * wake-pin setting.
     */
    method Handle(clock: Clock, tick: u32, pressed: bool, ble: bv8) returns (newBle: bv8, clicked: bool, wake: PadWake)
      modifies this, clock`lastClock, clock`lastUclock, clock`nextSleepUs
      ensures var now := Step(old(clock.Counter()), tick).lastUclock;
        var r := HandleStep(old(AsVars()), now, pressed);
        AsVars() == r.vars && clicked == r.clicked
        && clock.nextSleepUs == CoalesceAll(old(clock.nextSleepUs), clock.thisLoopStart, r.requests)
      ensures clock.Counter() ==
        if ReadsClock(old(AsVars()), pressed) then Step(old(clock.Counter()), tick) else old(clock.Counter())
      ensures newBle == if clicked then ToggleBle(ble) else ble
      ensures wake == PadWakeFor(state)
    {
      ghost var c0 := clock.Counter();
      ghost var now := Step(c0, tick).lastUclock;
      ghost var budget0 := clock.nextSleepUs;
      StepTwice(c0, tick);
      ghost var (d, reqs) := Debounce(AsVars(), now, pressed);
      if state == Debouncing {
        var expired := clock.ShouldAwake(tick, debounceTimer);
        if expired {
          if pressed {
            state := Pressed;
            longPressTimer := clock.AwakeAfter(tick, LONG_PRESS_US);
            numClicks := Inc16(numClicks);
          } else {
            state := Idle;
          }
        }
      } else {
        var newState := if pressed then Pressed else Idle;
        if newState != state {
          state := Debouncing;
          debounceTimer := clock.AwakeAfter(tick, DEBOUNCE_US);
        }
      }
      assert AsVars() == d;
      assert clock.nextSleepUs == CoalesceAll(budget0, clock.thisLoopStart, reqs);
      clicked := false;
      newBle := ble;
      if numClicks != 0 {
        var expired := clock.ShouldAwake(tick, longPressTimer);
        if expired {
          newBle := ToggleBle(ble);
          clicked := true;
          numClicks := 0;
        } else {
          CoalesceAllSnoc(budget0, clock.thisLoopStart, reqs, longPressTimer);
        }
      }
      wake := PadWakeFor(state);
    }
  }
}
