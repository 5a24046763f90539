/**
 * The mock NeoPixelBus: a pixel buffer of three bytes per LED that
 * SetPixelColor writes, GetPixelColor reads back, and that is mirrored into an
 * optional external buffer the host attaches.
 */
module NeoPixelBus {
  import opened Wrappers
  import opened Frames

  class Bus {
    var pixels: array<Byte>
    var external: array?<Byte>
    var externalSize: nat
    const ledCount: nat

    /** The pixel buffer holds three bytes per LED, and an attached external
        buffer is a different array that is at least as long as its stated size. */
    ghost predicate Valid()
      reads this
    {
      pixels.Length == 3 * ledCount
      && (external != null ==> external != pixels && externalSize <= external.Length)
    }

    /** NeoPixelBus(count): a zeroed buffer and no external buffer. */
    constructor(count: nat)
      ensures Valid() && ledCount == count && PixelCount() == count
      ensures pixels[..] == Zeros(3 * count) && external == null
      ensures forall i :: GetPixelColor(i) == Black
    {
      ledCount := count;
      pixels := new Byte[3 * count](_ => 0);
      external := null;
      externalSize := 0;
    }

    /** PixelCount */
    function PixelCount(): (r: nat)
      reads this
      ensures r == ledCount
    {
      ledCount
    }

    /** AttachBuffer: mirror every later write into `buffer`, of `size` bytes. */
    method AttachBuffer(buffer: array?<Byte>, size: nat)
      requires Valid()
      requires buffer != null ==> buffer != pixels && size <= buffer.Length
      modifies this
      ensures Valid() && external == buffer && externalSize == size
      ensures pixels == old(pixels)
    {
      external := buffer;
      externalSize := size;
    }

    /** SetPixelColor: LED idx takes colour c, when it is on the strip; the
        external buffer follows when its stated size reaches the LED's last byte. */
    method SetPixelColor(idx: nat, c: Rgb)
      requires Valid()
      modifies pixels, external
      ensures pixels[..] == SetPixelBytes(old(pixels[..]), ledCount, idx, c)
      ensures forall j :: GetPixelColor(j) == if j == idx && idx < ledCount then c else old(GetPixelColor(j))
      ensures external != null ==> external[..] == MirrorWrite(old(external[..]), externalSize, ledCount, idx, c)
    {
      if idx >= ledCount {
        return;
      }
      var offset := idx * 3;
      if offset + 2 < pixels.Length {
        pixels[offset], pixels[offset + 1], pixels[offset + 2] := c.r, c.g, c.b;
      }
      if external != null && offset + 2 < externalSize {
        external[offset], external[offset + 1], external[offset + 2] := c.r, c.g, c.b;
      }
      forall j: nat ensures GetPixelColor(j) == if j == idx && idx < ledCount then c else old(GetPixelColor(j)) {
        PixelAtSet(old(pixels[..]), ledCount, idx, c, j);
      }
    }

    /** GetPixelColor: black off the strip. */
    function GetPixelColor(idx: nat): (r: Rgb)
      requires Valid()
      reads this, pixels
      ensures idx >= ledCount ==> r == Black
    {
      PixelAt(pixels[..], ledCount, idx)
    }
  }

  /** What SetPixelColor leaves in an external buffer of stated size `size`:
      the LED's three bytes, when the LED is on the strip and its last byte
      lies below `size`; the buffer unchanged otherwise. */
  function MirrorWrite(buffer: seq<Byte>, size: nat, n: nat, idx: nat, c: Rgb): (r: seq<Byte>)
    requires size <= |buffer|
    ensures |r| == |buffer|
    ensures idx < n && 3 * idx + 2 < size ==> r[3 * idx] == c.r && r[3 * idx + 1] == c.g && r[3 * idx + 2] == c.b
    ensures forall k :: 0 <= k < |buffer| && !(idx < n && 3 * idx + 2 < size && 3 * idx <= k < 3 * idx + 3) ==> r[k] == buffer[k]
  {
    if idx < n && 3 * idx + 2 < size then buffer[3 * idx := c.r][3 * idx + 1 := c.g][3 * idx + 2 := c.b]
    else buffer
  }
}
