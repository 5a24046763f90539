/**
 * The Arduino helpers the headless build supplies in place of the Arduino core:
 * constrain, min, max, map and word.
 */
module Arduino {
  import opened Wrappers
  import opened Arithmetic

  /** constrain: std::clamp, whose callers must not pass high < low. */
  function Constrain(value: int, low: int, high: int): (r: int)
    requires low <= high
    ensures low <= r <= high
    ensures low <= value <= high ==> r == value
    ensures value < low ==> r == low
    ensures high < value ==> r == high
  {
    if value < low then low else if high < value then high else value
  }

  /** Constraining twice is constraining once, and constrain keeps order. */
  lemma ConstrainIdempotentMonotone(v: int, w: int, low: int, high: int)
    requires low <= high
    ensures Constrain(Constrain(v, low, high), low, high) == Constrain(v, low, high)
    ensures v <= w ==> Constrain(v, low, high) <= Constrain(w, low, high)
  {
  }

  /** min and max (std::min, std::max) return one of their arguments, the
      smaller and the larger, and between them they return both. */
  lemma MinMaxChoose(a: int, b: int)
    ensures (Min(a, b) == a || Min(a, b) == b) && Min(a, b) <= a && Min(a, b) <= b
    ensures (Max(a, b) == a || Max(a, b) == b) && Max(a, b) >= a && Max(a, b) >= b
    ensures Min(a, b) <= Max(a, b) && Min(a, b) + Max(a, b) == a + b
  {
  }

  /** map: x moved linearly from [inMin, inMax] to [outMin, outMax], with C's
      truncating division; an empty input range maps everything to outMin. */
  function Map(x: int, inMin: int, inMax: int, outMin: int, outMax: int): (r: int)
    ensures inMax == inMin ==> r == outMin
  {
    if inMax == inMin then outMin
    else TruncDiv((x - inMin) * (outMax - outMin), inMax - inMin) + outMin
  }

  /** The ends of the input range go to the ends of the output range. */
  lemma MapEndpoints(inMin: int, inMax: int, outMin: int, outMax: int)
    requires inMax != inMin
    ensures Map(inMin, inMin, inMax, outMin, outMax) == outMin
    ensures Map(inMax, inMin, inMax, outMin, outMax) == outMax
  {
    var d, span := inMax - inMin, outMax - outMin;
    assert (inMin - inMin) * span == 0 * d;
    assert (inMax - inMin) * span == span * d;
    TruncDivExact(0, d);
    TruncDivExact(span, d);
  }

  /** A value inside an increasing input range lands inside an increasing output range. */
  lemma MapBetween(x: int, inMin: int, inMax: int, outMin: int, outMax: int)
    requires inMin < inMax && inMin <= x <= inMax && outMin <= outMax
    ensures outMin <= Map(x, inMin, inMax, outMin, outMax) <= outMax
  {
    var d, span, a := inMax - inMin, outMax - outMin, x - inMin;
    var p := a * span;
    MulLe(a, d, span);
    TruncDivRemainder(p, d);
    QuotientAtMost(p, d, span);
  }

  /** A quotient of p <= s * d by d is at most s. */
  lemma QuotientAtMost(p: nat, d: nat, s: nat)
    requires d >= 1 && p <= s * d
    ensures p / d <= s
  {
    var q, r := p / d, p % d;
    assert (q - s) * d <= 0 by {
      assert q * d <= p <= s * d;
    }
    MulSign(q - s, d);
  }

  /** Dividing a multiple of d by d truncates nothing. */
  lemma TruncDivExact(k: int, d: int)
    requires d != 0
    ensures TruncDiv(k * d, d) == k
  {
    var uk, ud := if k < 0 then -k else k, if d < 0 then -d else d;
    assert (if k * d < 0 then -(k * d) else k * d) == uk * ud;
    DivModUnique(uk * ud, ud, uk, 0);
  }

  /** word: the high byte shifted up by eight bits, or-ed with the low byte. */
  function Word(high: Byte, low: Byte): (r: U16)
    ensures r == high * 256 + low && r / 256 == high && r % 256 == low
  {
    WordBytes(high, low);
    Or(Shl(high, 8), low)
  }

  /** The or of word adds the two bytes, so both can be read back. */
  lemma WordBytes(high: Byte, low: Byte)
    ensures Or(Shl(high, 8), low) == high * 256 + low
    ensures (high * 256 + low) / 256 == high && (high * 256 + low) % 256 == low
  {
    Pow2Values();
    ShlIsMul(high, 8);
    OrHighLow(high, low, 8);
    DivModUnique(high * 256 + low, 256, high, low);
  }
}
