/**
 * The host stand-ins for upstream WLED's effect engine: packed 32-bit colour
 * arithmetic (white in the top byte, then red, green, blue), the parts of a
 * segment that the stand-ins implement (option bits, colour slots, colour
 * temperature, the pixel buffer), the strip-wide length and main-segment
 * setters, and the calendar name lookups.
 */
module HostStubs {
  import opened Wrappers
  import Arithmetic

  // ---------------------------------------------------------------------------
  // Packed colours
  // ---------------------------------------------------------------------------

  /** A packed colour: white << 24 | red << 16 | green << 8 | blue. */
  type Color = U32

  /** The channels: c & 0xFF, (c >> 8) & 0xFF, (c >> 16) & 0xFF and c >> 24. */
  function Blue(c: Color): Byte { c % 0x100 }
  function Green(c: Color): Byte { c / 0x100 % 0x100 }
  function Red(c: Color): Byte { c / 0x100 / 0x100 % 0x100 }
  function White(c: Color): Byte { c / 0x100 / 0x100 / 0x100 }

  /** RGBW32: pack four channels into one colour. */
  function Rgbw32(r: Byte, g: Byte, b: Byte, w: Byte): (c: Color)
    ensures Red(c) == r && Green(c) == g && Blue(c) == b && White(c) == w
  {
    var c := ((w * 0x100 + r) * 0x100 + g) * 0x100 + b;
    Arithmetic.DivModUnique(c, 0x100, (w * 0x100 + r) * 0x100 + g, b);
    Arithmetic.DivModUnique(c / 0x100, 0x100, w * 0x100 + r, g);
    Arithmetic.DivModUnique(c / 0x100 / 0x100, 0x100, w, r);
    c
  }

  /** A colour is determined by its four channels. */
  lemma ChannelsDetermine(c: Color, d: Color)
    requires Red(c) == Red(d) && Green(c) == Green(d)
    requires Blue(c) == Blue(d) && White(c) == White(d)
    ensures c == d
  {
    Decompose(c);
    Decompose(d);
  }

  lemma Decompose(c: Color)
    ensures c == ((White(c) * 0x100 + Red(c)) * 0x100 + Green(c)) * 0x100 + Blue(c)
  {
    assert c == c / 0x100 * 0x100 + Blue(c);
    assert c / 0x100 == c / 0x100 / 0x100 * 0x100 + Green(c);
    assert c / 0x100 / 0x100 == White(c) * 0x100 + Red(c);
  }

  /** Packing the channels of a colour gives the colour back. */
  lemma PackChannels(c: Color)
    ensures Rgbw32(Red(c), Green(c), Blue(c), White(c)) == c
  {
    ChannelsDetermine(Rgbw32(Red(c), Green(c), Blue(c), White(c)), c);
  }

  /** One channel of color_blend: a weighted average, in 32-bit unsigned arithmetic. */
  function Mix(x: Byte, y: Byte, blend: Byte): (r: Byte)
    ensures Min(x, y) <= r <= Max(x, y)
  {
    MixBetween(x, y, blend);
    (x * (255 - blend) + y * blend) / 255
  }

  lemma MixBetween(x: Byte, y: Byte, blend: Byte)
    ensures Min(x, y) <= (x * (255 - blend) + y * blend) / 255 <= Max(x, y)
  {
    var lo, hi := Min(x, y), Max(x, y);
    Arithmetic.MulLe(lo, x, 255 - blend);
    Arithmetic.MulLe(x, hi, 255 - blend);
    Arithmetic.MulLe(lo, y, blend);
    Arithmetic.MulLe(y, hi, blend);
    WeightsSum(lo, blend);
    WeightsSum(hi, blend);
    QuotientBetween(x * (255 - blend) + y * blend, lo, hi);
  }

  lemma WeightsSum(a: Byte, k: Byte)
    ensures a * (255 - k) + a * k == a * 255
  {
  }

  lemma QuotientBetween(s: nat, lo: nat, hi: nat)
    requires lo * 255 <= s <= hi * 255
    ensures lo <= s / 255 <= hi
  {
  }

  /** color_blend: each channel moves from the first colour towards the second by blend/255. */
  function ColorBlend(c1: Color, c2: Color, blend: Byte): (r: Color)
    ensures Red(r) == Mix(Red(c1), Red(c2), blend) && Green(r) == Mix(Green(c1), Green(c2), blend)
    ensures Blue(r) == Mix(Blue(c1), Blue(c2), blend) && White(r) == Mix(White(c1), White(c2), blend)
  {
    Rgbw32(Mix(Red(c1), Red(c2), blend), Mix(Green(c1), Green(c2), blend),
           Mix(Blue(c1), Blue(c2), blend), Mix(White(c1), White(c2), blend))
  }

  /** Blending by 0 keeps the first colour, by 255 gives the second, and a
      colour blended with itself stays the same. */
  lemma ColorBlendEnds(c1: Color, c2: Color, k: Byte)
    ensures ColorBlend(c1, c2, 0) == c1
    ensures ColorBlend(c1, c2, 255) == c2
    ensures ColorBlend(c1, c1, k) == c1
  {
    ChannelsDetermine(ColorBlend(c1, c2, 0), c1);
    ChannelsDetermine(ColorBlend(c1, c2, 255), c2);
    ChannelsDetermine(ColorBlend(c1, c1, k), c1);
  }

  /** One channel of color_add: the sum, saturated at 255. */
  function Saturate(x: Byte, y: Byte): (r: Byte)
    ensures r == x + y || (r == 255 && x + y > 255)
  {
    Min(255, x + y)
  }

  /** color_add: channelwise saturating addition. */
  function ColorAdd(a: Color, b: Color): (r: Color)
    ensures Red(r) == Saturate(Red(a), Red(b)) && Green(r) == Saturate(Green(a), Green(b))
    ensures Blue(r) == Saturate(Blue(a), Blue(b)) && White(r) == Saturate(White(a), White(b))
  {
    Rgbw32(Saturate(Red(a), Red(b)), Saturate(Green(a), Green(b)),
           Saturate(Blue(a), Blue(b)), Saturate(White(a), White(b)))
  }

  /** Adding colours does not depend on their order, and never makes a channel darker. */
  lemma ColorAddCommutes(a: Color, b: Color)
    ensures ColorAdd(a, b) == ColorAdd(b, a)
    ensures Red(ColorAdd(a, b)) >= Red(a) && Green(ColorAdd(a, b)) >= Green(a)
    ensures Blue(ColorAdd(a, b)) >= Blue(a) && White(ColorAdd(a, b)) >= White(a)
  {
    ChannelsDetermine(ColorAdd(a, b), ColorAdd(b, a));
  }

  /** One channel of color_fade: scaled by (255 - amount)/255. */
  function Scale(x: Byte, amount: Byte): (r: Byte)
    ensures r <= x
  {
    MulLeByte(x, 255 - amount);
    x * (255 - amount) / 255
  }

  lemma MulLeByte(x: Byte, s: Byte)
    ensures x * s <= x * 255
  {
  }

  /** color_fade: every channel scaled by (255 - amount)/255. */
  function ColorFade(c: Color, amount: Byte): (r: Color)
    ensures Red(r) <= Red(c) && Green(r) <= Green(c) && Blue(r) <= Blue(c) && White(r) <= White(c)
  {
    Rgbw32(Scale(Red(c), amount), Scale(Green(c), amount),
           Scale(Blue(c), amount), Scale(White(c), amount))
  }

  lemma ScaleEnds(x: Byte)
    ensures Scale(x, 0) == x && Scale(x, 255) == 0
  {
  }

  /** Fading by 0 keeps the colour and fading by 255 gives black. */
  lemma ColorFadeEnds(c: Color)
    ensures ColorFade(c, 0) == c
    ensures ColorFade(c, 255) == 0
  {
    ScaleEnds(Red(c));
    ScaleEnds(Green(c));
    ScaleEnds(Blue(c));
    ScaleEnds(White(c));
    ChannelsDetermine(ColorFade(c, 0), c);
    ChannelsDetermine(ColorFade(c, 255), 0);
  }

  // ---------------------------------------------------------------------------
  // Segments
  // ---------------------------------------------------------------------------

  /** NUM_COLORS: the colour slots of a segment. */
  const NumColors := 3

  /** Bit k of a 16-bit option word. */
  predicate Bit(options: bv16, k: bv8)
    requires k < 16
  {
    (options >> k) & 1 == 1
  }

  /** The option word after setOption(n, val): the 32-bit mask 1 << n is
      stored back into the 16-bit word, so a bit number from 16 to 31 changes
      nothing. */
  function WithOption(options: bv16, n: bv8, val: bool): (r: bv16)
    requires n < 32
  {
    if n >= 16 then options
    else if val then options | (1 << n)
    else options & !(1 << n)
  }

  lemma OtherBitKept(options: bv16, n: bv8, val: bool, k: bv8)
    requires n < 16 && k < 16 && k != n
    ensures Bit(WithOption(options, n, val), k) == Bit(options, k)
  {
  }

  /** setOption sets (val) or clears (!val) exactly bit n and keeps every other bit. */
  lemma WithOptionExactlyBitN(options: bv16, n: bv8, val: bool)
    requires n < 32
    ensures n < 16 ==> Bit(WithOption(options, n, val), n) == val
    ensures n >= 16 ==> WithOption(options, n, val) == options
    ensures forall k: bv8 | k < 16 && k != n :: Bit(WithOption(options, n, val), k) == Bit(options, k)
  {
    forall k: bv8 | k < 16 && k != n
      ensures Bit(WithOption(options, n, val), k) == Bit(options, k)
    {
      if n < 16 {
        OtherBitKept(options, n, val, k);
      }
    }
  }

  /** A segment as far as the host stand-ins implement it. `length` stands for
      length(), and `pixels` is the buffer that setGeometry allocates. */
  class Segment {
    var options: bv16
    var colors: array<Color>
    var cct: Byte
    var length: nat
    var pixels: array?<Color>

    ghost predicate Valid()
      reads this
    {
      colors.Length == NumColors
      && (pixels != null ==> pixels != colors && length <= pixels.Length)
    }

    /** A segment of `len` pixels with a cleared buffer (none when `len` is 0). */
    constructor(len: nat)
      ensures Valid() && length == len && options == 0 && cct == 0
      ensures colors[..] == [0, 0, 0]
      ensures (len == 0 ==> pixels == null) && (len > 0 ==> pixels != null && pixels[..] == seq(len, _ => 0))
      ensures fresh(colors) && (len > 0 ==> fresh(pixels))
    {
      options := 0;
      cct := 0;
      length := len;
      colors := new Color[NumColors](_ => 0);
      if len > 0 {
        pixels := new Color[len](_ => 0);
      } else {
        pixels := null;
      }
    }

    /** setOption: set (val) or clear (!val) option bit n. */
    method SetOption(n: bv8, val: bool)
      requires n < 32
      modifies this
      ensures options == WithOption(old(options), n, val)
      ensures colors == old(colors) && cct == old(cct) && length == old(length) && pixels == old(pixels)
    {
      if val {
        if n < 16 { options := options | (1 << n); }
      } else {
        if n < 16 { options := options & !(1 << n); }
      }
    }

    /** setColor: store a colour in a slot; slots past the last are ignored. */
    method SetColor(slot: Byte, c: Color)
      requires Valid()
      modifies colors
      ensures slot < NumColors ==> colors[..] == old(colors[..])[slot := c]
      ensures slot >= NumColors ==> colors[..] == old(colors[..])
    {
      if slot < NumColors {
        colors[slot] := c;
      }
    }

    /** setCCT: store a colour temperature, saturated to a byte. */
    method SetCct(k: U16)
      modifies this
      ensures cct == Min(k, 255)
      ensures options == old(options) && colors == old(colors) && length == old(length) && pixels == old(pixels)
    {
      cct := if k > 255 then 255 else k;
    }

    /** isPixelClipped: the index falls outside the segment. */
    predicate IsPixelClipped(i: int)
      reads this
    {
      i < 0 || i >= length
    }

    /** getPixelColor: the stored colour, or 0 outside the segment or without a buffer. */
    function GetPixelColor(i: int): (r: Color)
      requires Valid()
      reads this, pixels
      ensures IsPixelClipped(i) || pixels == null ==> r == 0
      ensures 0 <= i < length && pixels != null ==> r == pixels[i]
    {
      if IsPixelClipped(i) || pixels == null then 0 else pixels[i]
    }

    /** setPixelColor: store a colour at an index inside the segment; anything
        else is ignored. */
    method SetPixelColor(i: int, c: Color)
      requires Valid()
      modifies pixels
      ensures !IsPixelClipped(i) && pixels != null ==> pixels[..] == old(pixels[..])[i := c]
      ensures IsPixelClipped(i) || pixels == null ==> pixels == null || pixels[..] == old(pixels[..])
    {
      if IsPixelClipped(i) || pixels == null {
        return;
      }
      pixels[i] := c;
    }

    /** fill: every pixel of the segment takes the colour. */
    method Fill(c: Color)
      requires Valid()
      modifies pixels
      ensures pixels != null ==> pixels[..] == Filled(old(pixels[..]), length, c)
    {
      if pixels == null {
        return;
      }
      var i := 0;
      while i < length
        invariant 0 <= i <= length
        invariant pixels[..] == Filled(old(pixels[..]), i, c)
      {
        FilledStep(old(pixels[..]), i, c);
        SetPixelColor(i, c);
        i := i + 1;
      }
    }

    /** fade_out: every pixel of the segment is faded by the amount. */
    method FadeOut(amount: Byte)
      requires Valid()
      modifies pixels
      ensures pixels != null ==> pixels[..] == Faded(old(pixels[..]), length, amount)
    {
      if pixels == null {
        return;
      }
      var i := 0;
      while i < length
        invariant 0 <= i <= length
        invariant pixels[..] == Faded(old(pixels[..]), i, amount)
      {
        FadedStep(old(pixels[..]), i, amount);
        SetPixelColor(i, ColorFade(GetPixelColor(i), amount));
        i := i + 1;
      }
    }

    /** fadeToSecondaryBy: every pixel of the segment is blended towards colour slot 1. */
    method FadeToSecondaryBy(fadeBy: Byte)
      requires Valid()
      modifies pixels
      ensures pixels != null ==> pixels[..] == BlendedTowards(old(pixels[..]), length, colors[1], fadeBy)
    {
      if pixels == null {
        return;
      }
      var secondary := colors[1];
      var i := 0;
      while i < length
        invariant 0 <= i <= length
        invariant pixels[..] == BlendedTowards(old(pixels[..]), i, secondary, fadeBy)
      {
        BlendedStep(old(pixels[..]), i, secondary, fadeBy);
        SetPixelColor(i, ColorBlend(GetPixelColor(i), secondary, fadeBy));
        i := i + 1;
      }
    }
  }

  /** The buffer after setting its first n pixels to a colour. */
  function Filled(buffer: seq<Color>, n: nat, c: Color): (r: seq<Color>)
    requires n <= |buffer|
    ensures |r| == |buffer|
    ensures forall j | 0 <= j < |r| :: r[j] == if j < n then c else buffer[j]
  {
    seq(|buffer|, j requires 0 <= j < |buffer| => if j < n then c else buffer[j])
  }

  lemma FilledStep(buffer: seq<Color>, i: nat, c: Color)
    requires i < |buffer|
    ensures Filled(buffer, i + 1, c) == Filled(buffer, i, c)[i := c]
  {
  }

  /** The buffer after fading its first n pixels. */
  function Faded(buffer: seq<Color>, n: nat, amount: Byte): (r: seq<Color>)
    requires n <= |buffer|
    ensures |r| == |buffer|
    ensures forall j | 0 <= j < |r| :: r[j] == if j < n then ColorFade(buffer[j], amount) else buffer[j]
  {
    seq(|buffer|, j requires 0 <= j < |buffer| => if j < n then ColorFade(buffer[j], amount) else buffer[j])
  }

  lemma FadedStep(buffer: seq<Color>, i: nat, amount: Byte)
    requires i < |buffer|
    ensures Faded(buffer, i + 1, amount) == Faded(buffer, i, amount)[i := ColorFade(buffer[i], amount)]
  {
  }

  /** The buffer after blending its first n pixels towards a colour. */
  function BlendedTowards(buffer: seq<Color>, n: nat, target: Color, blend: Byte): (r: seq<Color>)
    requires n <= |buffer|
    ensures |r| == |buffer|
    ensures forall j | 0 <= j < |r| :: r[j] == if j < n then ColorBlend(buffer[j], target, blend) else buffer[j]
  {
    seq(|buffer|, j requires 0 <= j < |buffer| => if j < n then ColorBlend(buffer[j], target, blend) else buffer[j])
  }

  lemma BlendedStep(buffer: seq<Color>, i: nat, target: Color, blend: Byte)
    requires i < |buffer|
    ensures BlendedTowards(buffer, i + 1, target, blend) == BlendedTowards(buffer, i, target, blend)[i := ColorBlend(buffer[i], target, blend)]
  {
  }

  /** Fading a segment fully blackens it, and fading it by 0 leaves it alone. */
  lemma FadedEnds(buffer: seq<Color>, n: nat)
    requires n <= |buffer|
    ensures Faded(buffer, n, 0) == buffer
    ensures forall j | 0 <= j < n :: Faded(buffer, n, 255)[j] == 0
  {
    forall j | 0 <= j < |buffer|
      ensures Faded(buffer, n, 0)[j] == buffer[j]
    {
      ColorFadeEnds(buffer[j]);
    }
    forall j | 0 <= j < n
      ensures Faded(buffer, n, 255)[j] == 0
    {
      ColorFadeEnds(buffer[j]);
    }
  }

  // ---------------------------------------------------------------------------
  // The strip
  // ---------------------------------------------------------------------------

  /** The largest of the segment stops (0 for no segments). */
  function MaxStop(stops: seq<U16>): (r: U16)
    ensures forall i | 0 <= i < |stops| :: stops[i] <= r
    ensures |stops| == 0 ==> r == 0
    ensures |stops| > 0 ==> exists i | 0 <= i < |stops| :: stops[i] == r
  {
    if |stops| == 0 then 0
    else
      var m := MaxStop(stops[..|stops| - 1]);
      assert forall i | 0 <= i < |stops| - 1 :: stops[..|stops| - 1][i] == stops[i];
      Max(m, stops[|stops| - 1])
  }

  /** setMainSegmentId's choice: min(n, size - 1) in size_t arithmetic (so
      size - 1 wraps when there are no segments), then truncated to a byte. */
  function MainSegmentFor(n: U32, size: nat): (r: Byte)
    ensures 1 <= size <= 256 ==> r == Min(n, size - 1) && r < size
    ensures size == 0 ==> r == n % 256
  {
    var last := (size - 1) % 0x1_0000_0000_0000_0000;
    Min(n, last) % 256
  }

  /** The strip: the stop of each segment, the configured length and the main segment. */
  class Fx {
    var stops: seq<U16>
    var length: U16
    var mainSegment: Byte

    constructor(stops0: seq<U16>, length0: U16)
      ensures stops == stops0 && length == length0 && mainSegment == 0
    {
      stops := stops0;
      length := length0;
      mainSegment := 0;
    }

    /** getLengthPhysical: the largest segment stop, or the configured length when that is 0. */
    method GetLengthPhysical() returns (r: U16)
      ensures MaxStop(stops) > 0 ==> r == MaxStop(stops)
      ensures MaxStop(stops) == 0 ==> r == length
      ensures forall i | 0 <= i < |stops| :: stops[i] <= r || r == length
    {
      var maxStop := 0;
      for i := 0 to |stops|
        invariant maxStop == MaxStop(stops[..i])
      {
        assert stops[..i + 1][..i] == stops[..i];
        maxStop := Max(maxStop, stops[i]);
      }
      assert stops[..|stops|] == stops;
      r := if maxStop != 0 then maxStop else length;
    }

    /** setMainSegmentId */
    method SetMainSegmentId(n: U32)
      modifies this
      ensures mainSegment == MainSegmentFor(n, |stops|)
      ensures stops == old(stops) && length == old(length)
    {
      var last := (|stops| - 1) % 0x1_0000_0000_0000_0000;
      mainSegment := Min(n, last) % 256;
    }
  }

  /** With one to 256 segments the main segment is a valid index, it is n when
      n names a segment, and otherwise the last segment. */
  lemma MainSegmentClamps(n: U32, size: nat)
    requires 1 <= size <= 256
    ensures MainSegmentFor(n, size) < size
    ensures n < size ==> MainSegmentFor(n, size) == n
    ensures n >= size ==> MainSegmentFor(n, size) == size - 1
  {
  }

  // ---------------------------------------------------------------------------
  // Calendar names
  // ---------------------------------------------------------------------------

  const MonthNames: seq<string> := ["January", "February", "March", "April", "May", "June",
    "July", "August", "September", "October", "November", "December"]
  const MonthShortNames: seq<string> := ["Jan", "Feb", "Mar", "Apr", "May", "Jun",
    "Jul", "Aug", "Sep", "Oct", "Nov", "Dec"]
  /** Indexed from 1, with an empty name at index 0. */
  const DayNames: seq<string> := ["", "Sunday", "Monday", "Tuesday", "Wednesday", "Thursday", "Friday", "Saturday"]
  const DayShortNames: seq<string> := ["", "Sun", "Mon", "Tue", "Wed", "Thu", "Fri", "Sat"]

  /** monthStr */
  function MonthStr(m: int): (r: string)
    ensures (m < 1 || m > 12) ==> r == "January"
    ensures 1 <= m <= 12 ==> r == MonthNames[m - 1]
  {
    if m < 1 || m > 12 then "January" else MonthNames[m - 1]
  }

  /** monthShortStr */
  function MonthShortStr(m: int): (r: string)
    ensures (m < 1 || m > 12) ==> r == "Jan"
    ensures 1 <= m <= 12 ==> r == MonthShortNames[m - 1]
  {
    if m < 1 || m > 12 then "Jan" else MonthShortNames[m - 1]
  }

  /** dayStr */
  function DayStr(d: int): (r: string)
    ensures (d < 1 || d > 7) ==> r == "Sunday"
    ensures 1 <= d <= 7 ==> r == DayNames[d]
  {
    if d < 1 || d > 7 then "Sunday" else DayNames[d]
  }

  /** dayShortStr */
  function DayShortStr(d: int): (r: string)
    ensures (d < 1 || d > 7) ==> r == "Sun"
    ensures 1 <= d <= 7 ==> r == DayShortNames[d]
  {
    if d < 1 || d > 7 then "Sun" else DayShortNames[d]
  }

  /** Every short name is the first three letters of the long name, for any
      argument, in range or not; and an out-of-range argument reads as the
      first month or as Sunday. */
  lemma ShortNamesAbbreviate(m: int, d: int)
    ensures |MonthShortStr(m)| == 3 && MonthShortStr(m) == MonthStr(m)[..3]
    ensures |DayShortStr(d)| == 3 && DayShortStr(d) == DayStr(d)[..3]
    ensures (m < 1 || m > 12) ==> MonthStr(m) == MonthStr(1) && MonthShortStr(m) == MonthShortStr(1)
    ensures (d < 1 || d > 7) ==> DayStr(d) == DayStr(1) && DayShortStr(d) == DayShortStr(1)
  {
  }

  lemma MonthShortNamesDistinct(m1: int, m2: int)
    requires 1 <= m1 <= 12 && 1 <= m2 <= 12 && m1 != m2
    ensures MonthShortStr(m1) != MonthShortStr(m2)
  {
  }

  /** In range, different numbers name different months. */
  lemma MonthNamesDistinct(m1: int, m2: int)
    requires 1 <= m1 <= 12 && 1 <= m2 <= 12 && m1 != m2
    ensures MonthStr(m1) != MonthStr(m2) && MonthShortStr(m1) != MonthShortStr(m2)
  {
    MonthShortNamesDistinct(m1, m2);
    ShortNamesAbbreviate(m1, 1);
    ShortNamesAbbreviate(m2, 1);
  }

  /** In range, different numbers name different days. */
  lemma DayNamesDistinct(d1: int, d2: int)
    requires 1 <= d1 <= 7 && 1 <= d2 <= 7 && d1 != d2
    ensures DayStr(d1) != DayStr(d2) && DayShortStr(d1) != DayShortStr(d2)
  {
  }
}
