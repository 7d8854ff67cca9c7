/** tank_io's counter as a value. */
module CounterSpec {
  datatype Counter = Counter(current: int, from: int, to: int, step: int)

  function Next(c: Counter): Counter {
    if c.to - c.current > c.step then c.(current := c.current + c.step)
    else c.(current := c.from + c.step - (c.to - c.current))
  }

  function Nth(c: Counter, n: nat): Counter {
    if n == 0 then c else Next(Nth(c, n - 1))
  }

  /** The machine type of all four fields. */
  newtype Long = x: int | -0x8000_0000_0000_0000 <= x <= 0x7fff_ffff_ffff_ffff

  const MAX_LONG := 0x7fff_ffff_ffff_ffff

  predicate IsLong(x: int) {
    -MAX_LONG - 1 <= x <= MAX_LONG
  }

  predicate IsMachine(c: Counter) {
    IsLong(c.current) && IsLong(c.from) && IsLong(c.to) && IsLong(c.step)
  }

  /** Every intermediate value that `next` computes fits the machine type. */
  predicate NoOverflow(c: Counter) {
    && IsLong(c.to - c.current)
    && if c.to - c.current > c.step then IsLong(c.current + c.step)
       else IsLong(c.from + c.step) && IsLong(c.from + c.step - (c.to - c.current))
  }

  /** A counter that runs through the values from, ..., to - 1. */
  predicate Cyclic(c: Counter) {
    c.from <= c.current < c.to && 0 < c.step <= c.to - c.from
  }
}
