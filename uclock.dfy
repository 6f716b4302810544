/**
 * The microsecond clock and the wake-deadline coalescer of uclock.c.
 *
 * The hardware system timer runs at 16 MHz and wraps every 2^32 ticks (about
 * 268 s).  `uclock_time` turns it into a wrapping 32-bit microsecond counter that
 * keeps the sub-microsecond remainder between calls.  During one main-loop
 * iteration every "do not sleep past t" request is folded into `next_sleep_us`;
 * before the CPU suspends, that budget is turned into one sleep decision.
 * Every read of the hardware timer (`clock_time()`) is a `tick` parameter.
 */
module UClock {
  import opened Word

  /** CLOCK_16M_SYS_TIMER_CLK_1US: system timer ticks per microsecond. */
  const CLK_1US: nat := 16
  /** MAX_TIMER_US: the longest deadline horizon, one hour. */
  const MAX_TIMER_US: nat := 3600 * 1000000
  /** SLEEP_SAFETY_MARGIN_US: four seconds. */
  const SLEEP_SAFETY_MARGIN_US: nat := 4000000
  /** MAX_SLEEP_US: the longest sleep whose tick distance stays below the 32-bit wrap, minus the margin. */
  const MAX_SLEEP_US: nat := (0xFFFF_FFFF - SLEEP_SAFETY_MARGIN_US * CLK_1US) / CLK_1US
  /** UINT_MAX in `next_sleep_us` means "no wake request this iteration". */
  const NO_REQUEST: u32 := 0xFFFF_FFFF
  /** A remaining budget of at most this many microseconds is not worth a suspend. */
  const SUSPEND_GUARD_US: nat := 128

  /** is_before(p1, p2): p2 lies less than one hour after p1 on the 32-bit circle. */
  predicate IsBefore(p1: u32, p2: u32)
  {
    Sub32(p2, p1) < MAX_TIMER_US
  }

  /** The whole microseconds contained in the tick distance from `last` forward to `tick`. */
  function ElapsedUs(last: u32, tick: u32): (e: nat)
    ensures CLK_1US * e <= Sub32(tick, last) < CLK_1US * e + CLK_1US
    ensures e < TWO_32 / CLK_1US
  {
    Sub32(tick, last) / CLK_1US
  }

  /** The two function-statics of uclock_time. */
  datatype UsCounter = UsCounter(lastClock: u32, lastUclock: u32)

  /**
   * One call of uclock_time at hardware tick `tick`: the counter moves forward by
   * the whole microseconds elapsed and `last_clock` by exactly that many ticks.
   */
  function Step(c: UsCounter, tick: u32): (r: UsCounter)
    ensures Sub32(tick, r.lastClock) < CLK_1US
    ensures Sub32(r.lastUclock, c.lastUclock) == ElapsedUs(c.lastClock, tick)
    ensures Sub32(r.lastClock, c.lastClock) == CLK_1US * Sub32(r.lastUclock, c.lastUclock)
  {
    var e := ElapsedUs(c.lastClock, tick);
    AddSub32(c.lastClock, e * CLK_1US);
    AddSub32(c.lastUclock, e);
    SubShift32(c.lastClock, tick, e * CLK_1US);
    UsCounter(Add32(c.lastClock, e * CLK_1US), Add32(c.lastUclock, e))
  }

  /** A second read at the same tick finds less than one microsecond elapsed and changes nothing. */
  lemma StepTwice(c: UsCounter, tick: u32)
    ensures Step(Step(c, tick), tick) == Step(c, tick)
  {
  }

  function Sum(ds: seq<nat>): nat
  {
    if ds == [] then 0 else ds[0] + Sum(ds[1..])
  }

  /**
   * uclock_time sampled at successive hardware ticks, each `ds[k]` ticks after the
   * previous sample (the first one `ds[0]` after `tick`).
   */
  function Drive(c: UsCounter, tick: u32, ds: seq<nat>): UsCounter
    decreases |ds|
  {
    if ds == [] then c else Drive(Step(c, Add32(tick, ds[0])), Add32(tick, ds[0]), ds[1..])
  }

  /** Consecutive samples lie less than one timer wrap apart. */
  predicate WithinWrap(ds: seq<nat>)
  {
    forall k :: 0 <= k < |ds| ==> ds[k] <= TWO_32 - CLK_1US
  }

  /** The counter moved forward by `n` whole microseconds: `n` on the counter and 16 n ticks on `last_clock`. */
  function Advance(c: UsCounter, n: nat): UsCounter
  {
    UsCounter(Add32(c.lastClock, CLK_1US * n), Add32(c.lastUclock, n))
  }

  /**
   * No sub-microsecond remainder is ever lost: however the samples are spaced
   * (each less than one timer wrap apart), the microsecond counter advances by the
   * floor of the total ticks elapsed divided by 16, and `last_clock` by 16 times that.
   */
  lemma {:induction false} RemainderKept(c: UsCounter, tick: u32, ds: seq<nat>)
    requires Sub32(tick, c.lastClock) < CLK_1US
    requires WithinWrap(ds)
    ensures Drive(c, tick, ds) == Advance(c, (Sub32(tick, c.lastClock) + Sum(ds)) / CLK_1US)
    decreases |ds|
  {
    if ds == [] {
      assert Sub32(tick, c.lastClock) / CLK_1US == 0;
    } else {
      var t1 := Add32(tick, ds[0]);
      var c1 := Step(c, t1);
      assert WithinWrap(ds[1..]) by {
        assert forall k :: 0 <= k < |ds[1..]| ==> ds[1..][k] == ds[k + 1];
      }
      RemainderKept(c1, t1, ds[1..]);
      StepFromRemainder(c, tick, ds[0]);
      FirstSample(c, c1, Drive(c1, t1, ds[1..]), Sub32(tick, c.lastClock), ds[0], Sub32(t1, c1.lastClock), Sum(ds[1..]));
      assert Sum(ds) == ds[0] + Sum(ds[1..]);
    }
  }

  /** The inductive step of RemainderKept, on the counts: a first sample leaving remainder `rem1`, then `s` more ticks. */
  lemma FirstSample(c: UsCounter, c1: UsCounter, r: UsCounter, rem: nat, d: nat, rem1: nat, s: nat)
    requires c1 == Advance(c, (rem + d) / CLK_1US) && rem1 == (rem + d) % CLK_1US
    requires r == Advance(c1, (rem1 + s) / CLK_1US)
    ensures r == Advance(c, (rem + d + s) / CLK_1US)
  {
    var e := (rem + d) / CLK_1US;
    var rest := (rem1 + s) / CLK_1US;
    Compose(c, e, rest);
    DivSplit(rem + d, s);
  }

  /** Advancing twice is advancing by the sum. */
  lemma Compose(c: UsCounter, e: nat, rest: nat)
    ensures Advance(Advance(c, e), rest) == Advance(c, e + rest)
  {
    Add32Add32(c.lastUclock, e, rest);
    Add32Add32(c.lastClock, CLK_1US * e, CLK_1US * rest);
  }

  lemma DivSplit(x: nat, s: nat)
    ensures (x + s) / CLK_1US == x / CLK_1US + (x % CLK_1US + s) / CLK_1US
  {
    DivShift(x / CLK_1US, x % CLK_1US + s);
  }

  lemma DivShift(e: nat, x: nat)
    ensures (CLK_1US * e + x) / CLK_1US == e + x / CLK_1US
  {
  }

  /** One sample `d` ticks after a sample that left remainder `rem`. */
  lemma StepFromRemainder(c: UsCounter, tick: u32, d: nat)
    requires Sub32(tick, c.lastClock) < CLK_1US
    requires d <= TWO_32 - CLK_1US
    ensures var rem := Sub32(tick, c.lastClock);
      Sub32(Add32(tick, d), c.lastClock) == rem + d &&
      Step(c, Add32(tick, d)) == Advance(c, (rem + d) / CLK_1US) &&
      Sub32(Add32(tick, d), Step(c, Add32(tick, d)).lastClock) == (rem + d) % CLK_1US
  {
    var rem := Sub32(tick, c.lastClock);
    assert tick == Add32(c.lastClock, rem);
    Add32Add32(c.lastClock, rem, d);
    AddSub32(c.lastClock, rem + d);
    var r := Step(c, Add32(tick, d));
    var e := (rem + d) / CLK_1US;
    Add32Add32(c.lastClock, CLK_1US * e, (rem + d) % CLK_1US);
    AddSub32(r.lastClock, (rem + d) % CLK_1US);
  }

  /** A hardware wrap from 0xFFFFFFF0 to 0x00000010 is 32 ticks: two microseconds forward. */
  lemma TickWrapIsForward(u: u32)
    ensures Step(UsCounter(0xFFFF_FFF0, u), 0x10) == UsCounter(0x10, Add32(u, 2))
    ensures Step(UsCounter(0xFFFF_FFFE, u), 0x2) == UsCounter(0xFFFF_FFFE, u)
  {
  }

  /** The budget after one uclock_awake_at(t) request, with the loop started at `loopStart`. */
  function Coalesce(budget: u32, loopStart: u32, t: u32): (r: u32)
    ensures r <= budget
    ensures Sub32(t, loopStart) < budget ==> r == Min(Sub32(t, loopStart), MAX_TIMER_US)
    ensures Sub32(t, loopStart) >= budget ==> r == budget
  {
    var sleepUs := Sub32(t, loopStart);
    if sleepUs < budget then
      (if sleepUs > MAX_TIMER_US then MAX_TIMER_US else sleepUs)
    else budget
  }

  /** The budget after the requests `ts`, in order. */
  function CoalesceAll(budget: u32, loopStart: u32, ts: seq<u32>): u32
  {
    if ts == [] then budget else CoalesceAll(Coalesce(budget, loopStart, ts[0]), loopStart, ts[1..])
  }

  /** Appending one request to a batch coalesces it last. */
  lemma {:induction false} CoalesceAllSnoc(budget: u32, loopStart: u32, ts: seq<u32>, t: u32)
    ensures CoalesceAll(budget, loopStart, ts + [t]) == Coalesce(CoalesceAll(budget, loopStart, ts), loopStart, t)
  {
    if ts != [] {
      assert (ts + [t])[1..] == ts[1..] + [t];
      CoalesceAllSnoc(Coalesce(budget, loopStart, ts[0]), loopStart, ts[1..], t);
    }
  }

  /** A request's delta capped at one hour. */
  function Capped(loopStart: u32, t: u32): nat
  {
    Min(Sub32(t, loopStart), MAX_TIMER_US)
  }

  /**
   * Coalescing is the minimum: starting from the sentinel (or any budget within the
   * horizon), the final budget is the least of the start value and the capped
   * deltas of the requests; only a request exactly UINT_MAX microseconds ahead of
   * the loop start is indistinguishable from "no request".
   */
  lemma {:induction false} CoalesceIsMinimum(budget: u32, loopStart: u32, ts: seq<u32>)
    requires budget == NO_REQUEST || budget <= MAX_TIMER_US
    ensures CoalesceAll(budget, loopStart, ts) <= budget
    ensures forall k :: 0 <= k < |ts| && Sub32(ts[k], loopStart) != NO_REQUEST ==>
      CoalesceAll(budget, loopStart, ts) <= Capped(loopStart, ts[k])
    ensures CoalesceAll(budget, loopStart, ts) == budget ||
      exists k :: 0 <= k < |ts| && CoalesceAll(budget, loopStart, ts) == Capped(loopStart, ts[k])
  {
    if ts != [] {
      var b1 := Coalesce(budget, loopStart, ts[0]);
      CoalesceIsMinimum(b1, loopStart, ts[1..]);
      var r := CoalesceAll(budget, loopStart, ts);
      assert r == CoalesceAll(b1, loopStart, ts[1..]);
      forall k | 0 <= k < |ts| && Sub32(ts[k], loopStart) != NO_REQUEST
        ensures r <= Capped(loopStart, ts[k])
      {
        if k > 0 {
          assert ts[k] == ts[1..][k - 1];
        }
      }
      if r != budget && r != b1 {
        var k :| 0 <= k < |ts[1..]| && r == Capped(loopStart, ts[1..][k]);
        assert ts[1..][k] == ts[k + 1];
      }
    }
  }

  /**
   * A deadline d microseconds before the loop start, for 1 < d < 2^32 - MAX_TIMER_US
   * (about 695 s), wraps to a delta beyond the horizon and registers as one hour;
   * one exactly 1 us before the loop start wraps to UINT_MAX and is not registered.
   */
  lemma PastDeadlineRegistersOneHour(loopStart: u32, t: u32)
    requires 0 < Sub32(loopStart, t) < TWO_32 - MAX_TIMER_US
    ensures Sub32(loopStart, t) > 1 ==> Coalesce(NO_REQUEST, loopStart, t) == MAX_TIMER_US
    ensures Sub32(loopStart, t) == 1 ==> Coalesce(NO_REQUEST, loopStart, t) == NO_REQUEST
  {
    Sub32Opposite(loopStart, t);
  }

  /** How the SDK is told to sleep at the end of an iteration. */
  datatype SleepDecision =
    | WakeupDisabled          // bls_pm_setAppWakeupLowPower(0, 0): no application wake timer
    | SuspendDisabled         // bls_pm_setSuspendMask(SUSPEND_DISABLE): do not suspend at all
    | WakeupAt(tick: u32)     // bls_pm_setAppWakeupLowPower(tick, 1)

  /** The wake tick exactly as uclock.c:75 computes it: the tick distance wraps past 2^32. */
  function ArmTickAsWritten(tick: u32, remainingUs: u32): (r: u32)
    ensures remainingUs < TWO_32 / CLK_1US ==> Sub32(r, tick) == CLK_1US * remainingUs
  {
    Add32(tick, Mul32(remainingUs, CLK_1US))
  }

  /** A request for 2^28 microseconds (about 268 s) arms the timer at the current tick. */
  lemma ArmTickAsWrittenWraps(tick: u32)
    ensures ArmTickAsWritten(tick, 0x1000_0000) == tick
    ensures Sub32(ArmTickAsWritten(tick, MAX_TIMER_US), tick) == 1765425152
  {
  }

  /**
   * The wake tick with the remaining time capped at MAX_SLEEP_US, as the unused
   * constant of uclock.c:9 intends: the tick distance is 16 times the capped time
   * and never reaches the 32-bit wrap.
   */
  function ArmTick(tick: u32, remainingUs: u32): (r: u32)
    ensures Sub32(r, tick) == CLK_1US * Min(remainingUs, MAX_SLEEP_US)
    ensures Sub32(r, tick) <= TWO_32 - 1 - SLEEP_SAFETY_MARGIN_US * CLK_1US
    ensures remainingUs <= MAX_SLEEP_US ==> Sub32(r, tick) == CLK_1US * remainingUs
  {
    Add32(tick, CLK_1US * Min(remainingUs, MAX_SLEEP_US))
  }

  /** The module state of uclock.c. */
  class Clock {
    var lastClock: u32       // uclock_time's static last_clock (hardware ticks)
    var lastUclock: u32      // uclock_time's static last_uclock (microseconds)
    var thisLoopStart: u32   // this_loop_start
    var nextSleepUs: u32     // next_sleep_us

    /** The statics start zeroed. */
    constructor ()
      ensures lastClock == 0 && lastUclock == 0 && thisLoopStart == 0 && nextSleepUs == 0
    {
      lastClock, lastUclock, thisLoopStart, nextSleepUs := 0, 0, 0, 0;
    }

    function Counter(): UsCounter
      reads this
    {
      UsCounter(lastClock, lastUclock)
    }

    /** uclock_time() with the hardware timer reading `tick`. */
    method Time(tick: u32) returns (now: u32)
      modifies this`lastClock, this`lastUclock
      ensures Counter() == Step(old(Counter()), tick)
      ensures now == lastUclock
    {
      var elapsedUs := Sub32(tick, lastClock) / CLK_1US;
      lastClock := Add32(lastClock, elapsedUs * CLK_1US);
      lastUclock := Add32(lastUclock, elapsedUs);
      now := lastUclock;
    }

    /** uclock_after_sleep(): a new loop starts now, with no wake request yet. */
    method AfterSleep(tick: u32)
      modifies this
      ensures Counter() == Step(old(Counter()), tick)
      ensures thisLoopStart == lastUclock && nextSleepUs == NO_REQUEST
    {
      thisLoopStart := Time(tick);
      nextSleepUs := NO_REQUEST;
    }

    /** uclock_awake_at(t): do not sleep past `t`; returns `t`. */
    method AwakeAt(t: u32) returns (r: u32)
      modifies this`nextSleepUs
      ensures r == t
      ensures nextSleepUs == Coalesce(old(nextSleepUs), thisLoopStart, t)
    {
      var sleepUs := Sub32(t, thisLoopStart);
      if sleepUs < nextSleepUs {
        if sleepUs > MAX_TIMER_US {
          nextSleepUs := MAX_TIMER_US;
        } else {
          nextSleepUs := sleepUs;
        }
      }
      r := t;
    }

    /**
     * uclock_should_awake(t): true iff `t` is not less than one hour ahead of now
     * (so `t == now` is not yet expired); otherwise the deadline is registered.
     */
    method ShouldAwake(tick: u32, t: u32) returns (expired: bool)
      modifies this`lastClock, this`lastUclock, this`nextSleepUs
      ensures Counter() == Step(old(Counter()), tick)
      ensures expired <==> Sub32(t, lastUclock) >= MAX_TIMER_US
      ensures nextSleepUs == if expired then old(nextSleepUs) else Coalesce(old(nextSleepUs), thisLoopStart, t)
    {
      var now := Time(tick);
      if IsBefore(now, t) {
        var _ := AwakeAt(t);
        return false;
      }
      return true;
    }

    /** uclock_awake_after(usecs) = uclock_awake_at(uclock_time() + usecs). */
    method AwakeAfter(tick: u32, usecs: u32) returns (r: u32)
      modifies this`lastClock, this`lastUclock, this`nextSleepUs
      ensures Counter() == Step(old(Counter()), tick)
      ensures r == Add32(lastUclock, usecs)
      ensures nextSleepUs == Coalesce(old(nextSleepUs), thisLoopStart, r)
    {
      var now := Time(tick);
      r := AwakeAt(Add32(now, usecs));
    }

    /**
     * uclock_before_sleep(): `tick` is the timer read by uclock_time, `armTick`
     * the later read of clock_time() used to arm the wake timer.
     */
    method BeforeSleep(tick: u32, armTick: u32) returns (d: SleepDecision)
      modifies this`lastClock, this`lastUclock, this`nextSleepUs
      ensures old(nextSleepUs) == NO_REQUEST ==>
        d == WakeupDisabled && Counter() == old(Counter()) && nextSleepUs == NO_REQUEST
      ensures old(nextSleepUs) != NO_REQUEST ==> Counter() == Step(old(Counter()), tick)
      ensures old(nextSleepUs) != NO_REQUEST && old(nextSleepUs) <= Add32(Sub32(lastUclock, thisLoopStart), SUSPEND_GUARD_US) ==>
        d == SuspendDisabled && nextSleepUs == old(nextSleepUs)
      ensures old(nextSleepUs) != NO_REQUEST && old(nextSleepUs) > Add32(Sub32(lastUclock, thisLoopStart), SUSPEND_GUARD_US) ==>
        nextSleepUs == Sub32(old(nextSleepUs), Sub32(lastUclock, thisLoopStart)) &&
        d == WakeupAt(ArmTick(armTick, nextSleepUs))
      ensures Sub32(lastUclock, thisLoopStart) + SUSPEND_GUARD_US < TWO_32 && d.WakeupAt? ==>
        nextSleepUs > SUSPEND_GUARD_US
    {
      if nextSleepUs == NO_REQUEST {
        d := WakeupDisabled;
      } else {
        var now := Time(tick);
        var loopDuration := Sub32(now, thisLoopStart);
        if nextSleepUs <= Add32(loopDuration, SUSPEND_GUARD_US) {
          d := SuspendDisabled;
        } else {
          nextSleepUs := Sub32(nextSleepUs, loopDuration);
          d := WakeupAt(ArmTick(armTick, nextSleepUs));
        }
      }
    }
  }
}
