/** tank_io's counter as an object over machine integers. */
module CounterObjects {
  import opened CounterSpec

  class CounterObject {
    var current: Long
    const from: Long
    const to: Long
    const step: Long

    function View(): Counter
      reads this
    {
      Counter(current as int, from as int, to as int, step as int)
    }

    constructor Default()
      ensures View() == Counter(0, 0, MAX_LONG, 1)
    {
      current, from, to, step := 0, 0, 0x7fff_ffff_ffff_ffff, 1;
    }

    constructor (current: Long, from: Long, to: Long, step: Long)
      ensures View() == Counter(current as int, from as int, to as int, step as int)
    {
      this.current, this.from, this.to, this.step := current, from, to, step;
    }

    function Get(): Long
      reads this
    {
      current
    }

    method Next() returns (r: Long)
      requires NoOverflow(View())
      modifies this
      ensures View() == CounterSpec.Next(old(View())) && r == current
    {
      if to - current > step {
        current := current + step;
      } else {
        current := from + step - (to - current);
      }
      r := current;
    }
  }
}
