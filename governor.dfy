/**
 * The arithmetic of the update poll: the time budget left in the current
 * update interval, narrowed to 8 signed bits, and the number of ticks a
 * late poll skips ahead by.
 */
module Governor {
  import opened CInts

  /**
   * Budget left when a poll starts at frameStart: the update interval minus
   * the time since the last tick, stored in an int8. The wider unsigned
   * arithmetic of the computation agrees with this value modulo 256, which
   * is all the narrowing keeps.
   */
  function TimeBudget(updateInterval: uint8, frameStart: int, lastUpdate: int): int8
  {
    ToInt8(updateInterval - (frameStart - lastUpdate))
  }

  /**
   * Ticks added to make up for a late poll: the whole update intervals in
   * the overrun, rounded down (the division is on integers, so rounding up
   * its result changes nothing).
   */
  function CatchUp(timeBudget: int8, updateInterval: uint8): (r: nat)
    requires timeBudget <= 0 && updateInterval > 0
    ensures r * updateInterval <= -(timeBudget as int) < (r + 1) * updateInterval
    ensures r <= 128
  {
    var overrun := -(timeBudget as int);
    var q := overrun / updateInterval;
    assert q * updateInterval <= overrun < (q + 1) * updateInterval by {
      assert overrun == q * updateInterval + overrun % updateInterval;
    }
    q
  }

  /**
   * The tick counter after the catch-up of a poll whose budget is spent:
   * advanced by CatchUp (16 bits, wrapping) only with automatic transitions
   * on and after a first tick has recorded a time.
   */
  function CaughtUpTicks(ticks: uint16, timeBudget: int8, updateInterval: uint8,
                         autoTransition: bool, lastUpdate: uint64): uint16
    requires timeBudget <= 0 && updateInterval > 0
  {
    if autoTransition && lastUpdate != 0 then ToUint16(ticks + CatchUp(timeBudget, updateInterval)) else ticks
  }

  /**
   * As long as the gap since the last tick is at most 128 ms past an
   * interval below 128 ms, the narrowing does not bite: a tick fires iff
   * the gap has reached the interval, and the catch-up is the number of
   * whole further intervals in the gap.
   */
  lemma FiresWhenDue(updateInterval: uint8, lastUpdate: int, gap: int)
    requires 0 < updateInterval < 0x80 && 0 <= gap <= updateInterval + 0x80
    ensures TimeBudget(updateInterval, lastUpdate + gap, lastUpdate) == updateInterval - gap
    ensures TimeBudget(updateInterval, lastUpdate + gap, lastUpdate) <= 0 <==> gap >= updateInterval
    ensures gap >= updateInterval ==>
              CatchUp(TimeBudget(updateInterval, lastUpdate + gap, lastUpdate), updateInterval) ==
              (gap - updateInterval) / updateInterval
  {
  }

  /** Interval 33 ms and a gap of 100 ms: the budget is -67 and the poll skips 2 ticks. */
  lemma CatchUpExample()
    ensures TimeBudget(33, 1100, 1000) == -67
    ensures CatchUp(-67, 33) == 2
  {
  }

  /**
   * Interval 33 ms and a gap of 200 ms: 33 - 200 = -167 narrows to +89, so
   * the late poll does not tick at all.
   */
  lemma NarrowedBudgetSkipsTick()
    ensures TimeBudget(33, 1200, 1000) == 89
  {
  }
}
