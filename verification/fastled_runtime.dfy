/**
 * The clock of the FastLED runtime shim: the same 64-bit millisecond counter,
 * read through millis() and micros() and advanced by delay and
 * delayMicroseconds, which ignore non-positive arguments.
 */
module FastLedRuntime {
  import opened Wrappers
  import opened Arithmetic
  import opened MockArduino

  /** The global g_mock_millis of the runtime shim. */
  class RuntimeClock {
    var mockMillis: U64

    constructor()
      ensures mockMillis == 0
    {
      mockMillis := 0;
    }

    /** millis() */
    function Millis(): (r: U32)
      reads this
      ensures r == mockMillis % 0x1_0000_0000
    {
      ClockReadings(mockMillis);
      MillisOf(mockMillis)
    }

    /** micros() */
    function Micros(): (r: U32)
      reads this
      ensures r == mockMillis * 1000 % 0x1_0000_0000
    {
      ClockReadings(mockMillis);
      MicrosOf(mockMillis)
    }

    /** delay: a positive ms moves the counter on by ms, modulo 2^64. */
    method Delay(ms: I32)
      modifies this
      ensures mockMillis == Low64(old(mockMillis) + Advance(ms, 1))
      ensures Millis() == (old(Millis()) + Advance(ms, 1)) % 0x1_0000_0000
    {
      MillisAdvance(mockMillis, Advance(ms, 1));
      if ms > 0 {
        mockMillis := Low64(mockMillis + ms);
      }
    }

    /** delayMicroseconds: a positive us moves the counter on by us / 1000
        whole milliseconds, modulo 2^64. */
    method DelayMicroseconds(us: I32)
      modifies this
      ensures mockMillis == Low64(old(mockMillis) + Advance(us, 1000))
      ensures Millis() == (old(Millis()) + Advance(us, 1000)) % 0x1_0000_0000
    {
      MillisAdvance(mockMillis, Advance(us, 1000));
      if us > 0 {
        mockMillis := Low64(mockMillis + us / 1000);
      }
    }
  }

  /** The milliseconds a delay argument adds: nothing unless it is positive,
      else the argument divided by its unit (1 for ms, 1000 for us). */
  function Advance(arg: int, unit: nat): (r: nat)
    requires unit >= 1
    ensures arg <= 0 ==> r == 0
    ensures arg > 0 ==> r * unit <= arg < (r + 1) * unit
  {
    if arg > 0 then arg / unit else 0
  }

  /** Neither delay moves the clock backwards until the 64-bit counter wraps,
      which takes more than 2^64 - 2^31 milliseconds of delays. */
  lemma AdvanceNeverBackwards(clock: U64, arg: I32, unit: nat)
    requires unit >= 1 && clock + 0x8000_0000 <= 0x1_0000_0000_0000_0000
    ensures clock <= Low64(clock + Advance(arg, unit))
  {
    assert Advance(arg, unit) <= 0x8000_0000 by {
      if arg > 0 {
        MulLe(1, unit, Advance(arg, unit));
      }
    }
  }
}
