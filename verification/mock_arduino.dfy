/**
 * The simulated clock and random numbers of the mock Arduino header: a 64-bit
 * millisecond counter that the host sets and that delay advances, read through
 * 32-bit millis() and micros().
 */
module MockArduino {
  import opened Wrappers
  import opened Arithmetic

  /** millis(): the counter cast to 32 bits. */
  function MillisOf(clock: U64): U32 { Low32(clock) }

  /** micros(): the counter times 1000 in 64-bit arithmetic, cast to 32 bits. */
  function MicrosOf(clock: U64): U32 { Low32(Low64(clock * 1000)) }

  /** millis() wraps at 2^32 and micros() reads the exact product modulo 2^32. */
  lemma ClockReadings(clock: U64)
    ensures MillisOf(clock) == clock % 0x1_0000_0000
    ensures MicrosOf(clock) == clock * 1000 % 0x1_0000_0000
  {
    Low32OfLow64(clock * 1000);
  }

  /** Advancing the 64-bit counter by ms advances millis() by ms modulo 2^32,
      whether or not the counter itself wraps. */
  lemma MillisAdvance(clock: U64, ms: nat)
    ensures MillisOf(Low64(clock + ms)) == (MillisOf(clock) + ms) % 0x1_0000_0000
  {
    Low32OfLow64(clock + ms);
    var q := clock / 0x1_0000_0000;
    DivModUnique(clock + ms, 0x1_0000_0000, q + (clock % 0x1_0000_0000 + ms) / 0x1_0000_0000,
      (clock % 0x1_0000_0000 + ms) % 0x1_0000_0000);
  }

  /** The global g_mock_millis with the functions that read and write it. */
  class MockClock {
    var mockMillis: U64

    constructor()
      ensures mockMillis == 0
    {
      mockMillis := 0;
    }

    /** set_mock_millis */
    method SetMockMillis(value: U64)
      modifies this
      ensures mockMillis == value && Millis() == value % 0x1_0000_0000
    {
      mockMillis := value;
      ClockReadings(value);
    }

    /** millis() */
    function Millis(): (r: U32)
      reads this
      ensures r == mockMillis % 0x1_0000_0000
    {
      ClockReadings(mockMillis);
      MillisOf(mockMillis)
    }

    /** micros() */
    function Micros(): (r: U32)
      reads this
      ensures r == mockMillis * 1000 % 0x1_0000_0000
    {
      ClockReadings(mockMillis);
      MicrosOf(mockMillis)
    }

    /** delay: the counter moves on by exactly ms, modulo 2^64. */
    method Delay(ms: U32)
      modifies this
      ensures mockMillis == Low64(old(mockMillis) + ms)
      ensures Millis() == (old(Millis()) + ms) % 0x1_0000_0000
    {
      MillisAdvance(mockMillis, ms);
      mockMillis := Low64(mockMillis + ms);
    }
  }

  /** random(max), with `rand` the value std::rand() returns. */
  function Random(max: int, rand: nat): (r: int)
    ensures max <= 0 ==> r == 0
    ensures max > 0 ==> 0 <= r < max
  {
    // for a non-negative rand and a positive max, C's % is the Euclidean one
    if max <= 0 then 0 else rand % max
  }

  /** random(min, max), with `rand` the value std::rand() returns. */
  function RandomBetween(min: int, max: int, rand: nat): (r: int)
    ensures max <= min ==> r == min
    ensures min < max ==> min <= r < max
  {
    if max <= min then min else min + rand % (max - min)
  }
}
