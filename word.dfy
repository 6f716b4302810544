/**
 * Machine-word helpers shared by the firmware model: the C integer types the
 * firmware uses, unsigned 32-bit wrap-around, C's truncating division and the
 * int16 narrowing conversion, and the two display variants the sources build for.
 */
module Word {
  const TWO_8: int := 0x100
  const TWO_16: int := 0x1_0000
  const TWO_32: int := 0x1_0000_0000

  type u8 = x: int | 0 <= x < 0x100
  type u16 = x: int | 0 <= x < 0x1_0000
  type u32 = x: int | 0 <= x < 0x1_0000_0000
  type i8 = x: int | -0x80 <= x < 0x80
  type i16 = x: int | -0x8000 <= x < 0x8000

  datatype Option<T> = None | Some(value: T)

  /** Which board the firmware is built for (the `DEVICE_TYPE` switch). */
  datatype Device = Cgg1 | Cgdk2

  /** uint32 addition: the exact sum reduced modulo 2^32. */
  function Add32(a: u32, b: int): u32
  {
    (a + b) % TWO_32
  }

  /** uint32 subtraction `a - b`: the distance from b forward to a on the 2^32 circle. */
  function Sub32(a: u32, b: u32): (r: u32)
    ensures a >= b ==> r == a - b
    ensures a < b ==> r == a - b + TWO_32
  {
    (a - b) % TWO_32
  }

  /** Moving forward from b by the distance b->a lands on a. */
  lemma SubAdd32(a: u32, b: u32)
    ensures Add32(b, Sub32(a, b)) == a
  {
  }

  /** uint32 multiplication. */
  function Mul32(a: u32, b: u32): u32
  {
    (a * b) % TWO_32
  }

  /** Moving `x` forward from `a` and measuring the distance back gives `x`. */
  lemma AddSub32(a: u32, x: int)
    requires 0 <= x < TWO_32
    ensures Sub32(Add32(a, x), a) == x
  {
    if a + x >= TWO_32 {
      assert Add32(a, x) == a + x - TWO_32;
    } else {
      assert Add32(a, x) == a + x;
    }
  }

  /** Two forward moves compose. */
  lemma Add32Add32(a: u32, x: int, y: int)
    requires 0 <= x && 0 <= y
    ensures Add32(Add32(a, x), y) == Add32(a, x + y)
  {
    var q := (a + x) / TWO_32;
    assert Add32(a, x) == a + x - q * TWO_32;
    assert Add32(a, x) + y == a + x + y - q * TWO_32;
  }

  /** Moving the origin forward by x shortens the distance to b by x. */
  lemma SubShift32(a: u32, b: u32, x: int)
    requires 0 <= x <= Sub32(b, a)
    ensures Sub32(b, Add32(a, x)) == Sub32(b, a) - x
  {
    var d := Sub32(b, a);
    SubAdd32(b, a);
    if a + x >= TWO_32 {
      assert Add32(a, x) == a + x - TWO_32;
    } else {
      assert Add32(a, x) == a + x;
    }
  }

  /** The distances a->b and b->a add up to one full turn unless a == b. */
  lemma Sub32Opposite(a: u32, b: u32)
    requires a != b
    ensures Sub32(a, b) + Sub32(b, a) == TWO_32
  {
  }

  /** uint16 increment, as `++` on a uint16_t. */
  function Inc16(a: u16): (r: u16)
    ensures a < TWO_16 - 1 ==> r == a + 1
    ensures a == TWO_16 - 1 ==> r == 0
  {
    (a + 1) % TWO_16
  }

  /** Conversion of an int to int16_t as GCC performs it (two's complement wrap). */
  function ToI16(x: int): (r: i16)
    ensures -0x8000 <= x < 0x8000 ==> r == x
    ensures (r - x) % TWO_16 == 0
  {
    var m := x % TWO_16;
    if m < 0x8000 then m else m - TWO_16
  }

  /** C's `/` on signed integers: the quotient truncated toward zero. */
  function CDiv(a: int, b: int): (q: int)
    requires b > 0
    ensures a >= 0 ==> q == a / b
    ensures a < 0 ==> q == -((-a) / b)
  {
    if a >= 0 then a / b else -((-a) / b)
  }

  /** C's `%` on signed integers: the remainder takes the sign of the dividend. */
  function CRem(a: int, b: int): (m: int)
    requires b > 0
    ensures a == CDiv(a, b) * b + m
    ensures a >= 0 ==> 0 <= m < b
    ensures a < 0 ==> -b < m <= 0
  {
    a - CDiv(a, b) * b
  }

  lemma MulMono(a: nat, b: nat, c: nat, d: nat)
    requires a <= c && b <= d
    ensures a * b <= c * d
  {
    assert a * b <= c * b;
  }

  function Min(a: int, b: int): (r: int)
    ensures r <= a && r <= b && (r == a || r == b)
  {
    if a <= b then a else b
  }

  /**
   * The number of whole steps a periodic counter is behind: the fewest passes
   * after which the remaining distance is at most one step.
   */
  function StepsBehind(d: nat, step: nat): (k: nat)
    requires step > 0
    ensures k * step <= d
    ensures d - k * step <= step
    ensures k > 0 ==> d - (k - 1) * step > step
  {
    if d <= step then 0
    else
      var k := (d - 1) / step;
      assert d - 1 == k * step + (d - 1) % step;
      k
  }

  /** The pass count is the only one with the two properties above. */
  lemma StepsBehindUnique(d: nat, step: nat, k: nat)
    requires step > 0
    requires k * step <= d && d - k * step <= step
    requires k > 0 ==> d - (k - 1) * step > step
    ensures k == StepsBehind(d, step)
  {
    var m := StepsBehind(d, step);
    if k < m {
      MulMono(k, step, m - 1, step);
      assert false;
    } else if k > m {
      MulMono(m, step, k - 1, step);
      assert false;
    }
  }

  lemma MulSucc(k: nat, step: nat)
    ensures (k + 1) * step == k * step + step
  {
  }

  /** One catch-up pass moves the origin one step closer to the tick. */
  lemma StepPass(base: u32, tick: u32, covered: nat, step: nat)
    requires Sub32(tick, Add32(base, covered)) > step
    ensures Add32(Add32(base, covered), step) == Add32(base, covered + step)
    ensures Sub32(tick, Add32(Add32(base, covered), step)) == Sub32(tick, Add32(base, covered)) - step
  {
    Add32Add32(base, covered, step);
    SubShift32(Add32(base, covered), tick, step);
  }

  /** A pass count reached while the distance still exceeded the step is at most the catch-up count. */
  lemma StepsBehindAtLeast(d: nat, step: nat, k: nat)
    requires step > 0
    requires k > 0 ==> k * step < d
    ensures k <= StepsBehind(d, step)
  {
    var m := StepsBehind(d, step);
    if k > m {
      MulMono(m, step, k - 1, step);
      MulSucc(k - 1, step);
      assert false;
    }
  }
}
