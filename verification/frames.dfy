/**
 * Frames as both engines hand them out: three bytes (red, green, blue) per LED,
 * LED i at bytes 3i, 3i + 1 and 3i + 2.
 */
module Frames {
  import opened Wrappers
  import opened Arithmetic

  /** Channel j (0 red, 1 green, 2 blue) of a colour. */
  function Channel(c: Rgb, j: nat): Byte
  {
    if j == 0 then c.r else if j == 1 then c.g else c.b
  }

  function Zeros(n: nat): (r: seq<Byte>)
    ensures |r| == n && forall k :: 0 <= k < n ==> r[k] == 0
  {
    seq(n, _ => 0)
  }

  /** Byte k of a frame: channel k % 3 of LED k / 3. */
  function ByteAt(pixel: nat -> Rgb, k: nat): Byte
  {
    Channel(pixel(k / 3), k % 3)
  }

  /** A frame of n LEDs, three bytes each, LED i showing `pixel(i)`. */
  function PixelFrame(n: nat, pixel: nat -> Rgb): (r: seq<Byte>)
  {
    seq(3 * n, k requires 0 <= k < 3 * n => ByteAt(pixel, k))
  }

  /** Frames whose pixel functions agree on the strip are equal. */
  lemma PixelFrameAgree(n: nat, f: nat -> Rgb, g: nat -> Rgb)
    requires forall i :: 0 <= i < n ==> f(i) == g(i)
    ensures PixelFrame(n, f) == PixelFrame(n, g)
  {
  }

  /** Writing the three bytes of LED idx is the frame with that one LED changed. */
  lemma PixelFrameSet(n: nat, f: nat -> Rgb, idx: nat, c: Rgb)
    requires idx < n
    ensures PixelFrame(n, f)[3 * idx := c.r][3 * idx + 1 := c.g][3 * idx + 2 := c.b]
      == PixelFrame(n, (p: nat) => if p == idx then c else f(p))
  {
    var a := PixelFrame(n, f)[3 * idx := c.r][3 * idx + 1 := c.g][3 * idx + 2 := c.b];
    var b := PixelFrame(n, (p: nat) => if p == idx then c else f(p));
    forall k | 0 <= k < 3 * n
      ensures a[k] == b[k]
    {
      if 3 * idx <= k < 3 * idx + 3 {
        DivModUnique(k, 3, idx, k - 3 * idx);
        assert b[k] == Channel(c, k - 3 * idx);
      } else {
        var q := k / 3;
        DivModUnique(k, 3, q, k % 3);
        assert q != idx;
        assert a[k] == PixelFrame(n, f)[k] == Channel(f(q), k % 3);
        assert b[k] == Channel(f(q), k % 3);
      }
    }
  }

  /** Every LED the same colour. */
  function Uniform(c: Rgb): nat -> Rgb
  {
    _ => c
  }

  /** Writing colour c to LED idx of an n-LED frame: its three bytes change when
      idx is on the strip, and nothing changes otherwise. */
  function SetPixelBytes(frame: seq<Byte>, n: nat, idx: int, c: Rgb): (r: seq<Byte>)
    requires |frame| == 3 * n
    ensures |r| == |frame|
    ensures forall k :: 0 <= k < |frame| && !(0 <= idx < n && 3 * idx <= k < 3 * idx + 3) ==> r[k] == frame[k]
    ensures 0 <= idx < n ==> r[3 * idx] == c.r && r[3 * idx + 1] == c.g && r[3 * idx + 2] == c.b
  {
    if idx < 0 || idx >= n then frame
    else frame[3 * idx := c.r][3 * idx + 1 := c.g][3 * idx + 2 := c.b]
  }

  /** The colour of LED idx of an n-LED frame; black off the strip. */
  function PixelAt(frame: seq<Byte>, n: nat, idx: int): Rgb
    requires |frame| == 3 * n
  {
    if 0 <= idx < n then Rgb(frame[3 * idx], frame[3 * idx + 1], frame[3 * idx + 2]) else Black
  }

  /** Reading back after a write: LED idx shows c when it is on the strip, and
      every other LED keeps its colour. */
  lemma PixelAtSet(frame: seq<Byte>, n: nat, idx: int, c: Rgb, j: int)
    requires |frame| == 3 * n
    ensures PixelAt(SetPixelBytes(frame, n, idx, c), n, j)
      == if j == idx && 0 <= idx < n then c else PixelAt(frame, n, j)
  {
  }
}
