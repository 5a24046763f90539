/**
 * The TypeScript fallback engine (src/engine/softwareEngine.ts): a strip of LEDs,
 * a handful of settings a JSON command can change, and effects that fill a frame
 * of three bytes per LED at a simulated time.
 *
 * hsvToRgb and Math.sin are floating point; the engine takes them as the
 * functions `hsv` (hue, saturation, value to a colour) and `wave` (the breath
 * level 0.5 + sin(2 pi x) / 2 at phase x), and everything around them is modelled
 * exactly.
 */
module SoftwareEngine {
  import opened Wrappers
  import opened JsValues
  import opened Arithmetic
  import opened Frames

  /** clampByte: a finite number rounded and clamped into [0, 255]; anything else
      (NaN, or a value that is not a number at all) gives the fallback. */
  function ClampByte(v: JsValue, fallback: Byte): (r: Byte)
    ensures !v.Num? ==> r == fallback
    ensures v.Num? && v.x < 0.0 ==> r == 0
    ensures v.Num? && v.x > 255.0 ==> r == 255
    ensures v.Num? && 0.0 <= v.x <= 255.0 ==> v.x - 0.5 < r as real <= v.x + 0.5
  {
    if v.Num? then ToByte(Round(v.x)) else fallback
  }

  /** One channel of applyBrightness: Math.round(c * (bri / 255)). */
  function Scale(c: Byte, bri: Byte): Byte
  {
    ToByte(Round((c * bri) as real / 255.0))
  }

  /** Scaling rounds c * bri / 255 to the nearest integer (halves up), never
      brightens, keeps the channel at full brightness and blanks it at zero. */
  lemma ScaleBounds(c: Byte, bri: Byte)
    ensures Scale(c, bri) == (2 * c * bri + 255) / 510
    ensures Scale(c, bri) <= c
    ensures bri == 255 ==> Scale(c, bri) == c
    ensures bri == 0 ==> Scale(c, bri) == 0
  {
    var x := (c * bri) as real / 255.0;
    MulLe(bri, 255, c);
    FloorOfQuotient(2 * c * bri + 255, 510);
    assert x + 0.5 == (2 * c * bri + 255) as real / 510.0;
    DivModUnique(2 * c * 255 + 255, 510, c, 255);
  }

  /** applyBrightness: every channel scaled; never brighter, unchanged at full
      brightness, black at zero. */
  function ApplyBrightness(c: Rgb, bri: Byte): (r: Rgb)
    ensures r.r <= c.r && r.g <= c.g && r.b <= c.b
    ensures bri == 255 ==> r == c
    ensures bri == 0 ==> r == Rgb(0, 0, 0)
  {
    ScaleBounds(c.r, bri);
    ScaleBounds(c.g, bri);
    ScaleBounds(c.b, bri);
    Rgb(Scale(c.r, bri), Scale(c.g, bri), Scale(c.b, bri))
  }

  // ---------------------------------------------------------------------------
  // hashNoise

  /** `x >> 17` on a signed 32-bit integer, given and returned as its unsigned
      bit pattern: the sign bit is copied into the 17 vacated bits. */
  function ShiftRightSigned17(x: U32): (r: U32)
    ensures x < 0x8000_0000 ==> r == x / 0x2_0000
  {
    if x < 0x8000_0000 then x / 0x2_0000 else x / 0x2_0000 + 0xFFFF_8000
  }

  /** hashNoise: an xorshift step on `value | 0`, read back as unsigned. The
      32-bit values are kept as their unsigned bit patterns: a left shift drops
      the bits pushed past bit 31. */
  function HashNoise(value: int): (r: U32)
    ensures value % 0x1_0000_0000 == 0 ==> r == 0
  {
    var x0 := value % 0x1_0000_0000;
    var x1 := XorU32(x0, x0 * 0x2000 % 0x1_0000_0000);
    var x2 := XorU32(x1, ShiftRightSigned17(x1));
    XorU32(x2, x2 * 0x20 % 0x1_0000_0000)
  }

  // ---------------------------------------------------------------------------
  // Settings and commands

  /** The last error: empty, or the text of a failed JSON.parse. */
  datatype LastError = NoError | ParseFailed(detail: string)

  function ErrorText(e: LastError): string
  {
    match e
    case NoError => ""
    case ParseFailed(detail) => "json parse failed: " + detail
  }

  /** What V8 throws when the parsed payload is null and `.on` is read from it. */
  const NullRead := "TypeError: Cannot read properties of null (reading 'on')"

  /** The part of the engine state that jsonCommand can change. */
  datatype Settings = Settings(on: bool, bri: Byte, fx: Byte, sx: Byte, ix: Byte, color: Rgb, lastError: LastError)

  const InitialSettings := Settings(true, 128, 8, 128, 128, Rgb(255, 170, 0), NoError)

  /** The segment jsonCommand reads: the first element of a `seg` array, else `seg`. */
  function CommandSegment(v: JsValue): JsValue
  {
    var seg := Get(v, "seg");
    if seg.Arr? then At(seg, 0) else seg
  }

  /** A byte field set only when the command carries a number for it (NaN included,
      which then leaves the old value). */
  function NumberField(field: JsValue, current: Byte): (r: Byte)
    ensures !IsNumber(field) ==> r == current
  {
    if IsNumber(field) then ClampByte(field, current) else current
  }

  /** `v[0]`: the first element of an array, or the property "0" of an object. */
  function First(v: JsValue): JsValue
  {
    if v.Obj? then Get(v, "0") else At(v, 0)
  }

  /** The colour of `col[0]` when it is an array of at least three entries;
      channels that are not finite numbers become 0. */
  function CommandColor(seg: JsValue, current: Rgb): (r: Rgb)
    ensures var c := First(Get(seg, "col")); (!c.Arr? || |c.items| < 3) ==> r == current
    ensures var c := First(Get(seg, "col"));
      c.Arr? && |c.items| >= 3 ==> r == Rgb(ClampByte(c.items[0], 0), ClampByte(c.items[1], 0), ClampByte(c.items[2], 0))
  {
    var c := First(Get(seg, "col"));
    if c.Arr? && |c.items| >= 3 then Rgb(ClampByte(c.items[0], 0), ClampByte(c.items[1], 0), ClampByte(c.items[2], 0))
    else current
  }

  /** The segment part of jsonCommand, applied only when the segment is truthy. */
  function ApplySegment(st: Settings, seg: JsValue): Settings
  {
    if !Truthy(seg) then st
    else st.(fx := NumberField(Get(seg, "fx"), st.fx),
             sx := NumberField(Get(seg, "sx"), st.sx),
             ix := NumberField(Get(seg, "ix"), st.ix),
             color := CommandColor(seg, st.color))
  }

  /** jsonCommand on the settings. The payload is the outcome of JSON.parse: the
      parsed value, or the text of the error it threw. */
  function Command(st: Settings, parsed: Result<JsValue, string>): (r: Settings)
    ensures r.lastError == NoError <==> parsed.Success? && !parsed.value.Null?
    ensures r.lastError != NoError ==> r == st.(lastError := r.lastError)
  {
    match parsed
    case Failure(e) => st.(lastError := ParseFailed(e))
    case Success(v) =>
      if v.Null? then st.(lastError := ParseFailed(NullRead))
      else
        var on := if Get(v, "on").Bool? then Get(v, "on").b else st.on;
        var bri := NumberField(Get(v, "bri"), st.bri);
        ApplySegment(st.(on := on, bri := bri, lastError := NoError), CommandSegment(v))
  }

  /** A payload JSON.parse rejects changes nothing but the last error. */
  lemma FailedCommandKeepsSettings(st: Settings, e: string)
    ensures Command(st, Failure(e)) == st.(lastError := ParseFailed(e))
    ensures ErrorText(Command(st, Failure(e)).lastError) == "json parse failed: " + e
  {
  }

  /** A parsed command clears the error and changes only what it carries: `on` only
      for a boolean, each byte field only for a number, the colour only for an
      array of at least three channels, all clamped into [0, 255]. */
  lemma ParsedCommandFields(st: Settings, v: JsValue)
    requires !v.Null?
    ensures var r := Command(st, Success(v));
      && r.lastError == NoError
      && (Get(v, "on").Bool? ==> r.on == Get(v, "on").b)
      && (!Get(v, "on").Bool? ==> r.on == st.on)
      && (!IsNumber(Get(v, "bri")) ==> r.bri == st.bri)
      && (Get(v, "bri").Num? && 0.0 <= Get(v, "bri").x <= 255.0 ==> r.bri == Round(Get(v, "bri").x))
      && (!Truthy(CommandSegment(v)) ==> r.fx == st.fx && r.sx == st.sx && r.ix == st.ix && r.color == st.color)
      && (!IsNumber(Get(CommandSegment(v), "fx")) ==> r.fx == st.fx)
      && (!IsNumber(Get(CommandSegment(v), "sx")) ==> r.sx == st.sx)
      && (!IsNumber(Get(CommandSegment(v), "ix")) ==> r.ix == st.ix)
      && (Truthy(CommandSegment(v)) ==> r.color == CommandColor(CommandSegment(v), st.color))
  {
    var bri := Get(v, "bri");
    if bri.Num? && 0.0 <= bri.x <= 255.0 {
      assert 0 <= Round(bri.x) <= 255;
    }
  }

  /** A command that sets the effect to a number in range stores it. */
  lemma CommandSetsEffect(st: Settings, fx: Byte)
    ensures Command(st, Success(Obj(map["seg" := Obj(map["fx" := Num(fx as real)])]))).fx == fx
  {
    var v := Obj(map["seg" := Obj(map["fx" := Num(fx as real)])]);
    assert CommandSegment(v) == Obj(map["fx" := Num(fx as real)]);
    assert Round(fx as real) == fx;
  }

  // ---------------------------------------------------------------------------
  // Effects, pixel by pixel

  /** fx 1: the on/off interval in milliseconds. */
  function BlinkInterval(sx: Byte): (r: nat)
    ensures 120 <= r <= 1650
  {
    120 + (255 - sx) * 6
  }

  function BlinkOn(sx: Byte, t: nat): bool
  {
    (t / BlinkInterval(sx)) % 2 == 0
  }

  /** fx 28: the distance between lit LEDs. */
  function ChaseStride(sx: Byte): (r: nat)
    ensures 2 <= r <= 14
  {
    Max(2, 14 - sx / 20)
  }

  function ChaseHead(n: nat, t: nat): (r: nat)
    ensures r < Max(1, n)
  {
    (t / 40) % Max(1, n)
  }

  function ChaseLit(sx: Byte, n: nat, t: nat, i: nat): bool
  {
    (i + ChaseHead(n, t)) % ChaseStride(sx) == 0
  }

  /** fx 20: how many sparkles a frame gets. */
  function SparkleCount(n: nat, ix: Byte): (r: nat)
    ensures r >= 1
  {
    Max(1, (n * (ix + 16)) / 2048)
  }

  /** fx 20: the LED sparkle j lands on. */
  function SparkleIndex(j: nat, t: nat, n: nat): (r: nat)
    requires n >= 1
    ensures r < n
  {
    HashNoise(j * 0x9e37_79b9 + t * 31) % n
  }

  /** LED i gets one of the first `count` sparkles. */
  predicate Sparkled(count: nat, t: nat, n: nat, i: nat)
    requires n >= 1
  {
    exists j :: 0 <= j < count && SparkleIndex(j, t, n) == i
  }

  const White := Rgb(255, 255, 255)

  /** fx 2: the brightness renderBreath uses for its solid frame. */
  function BreathBrightness(bri: Byte, t: nat, wave: real -> real): Byte
  {
    ToByte(Round(bri as real * wave((t % 4096) as real / 4096.0)))
  }

  /** fx 8, 9 and every other id: the saturation and the base hue of the rainbow. */
  function RainbowSaturation(ix: Byte): (r: int)
    ensures 180 <= r <= 244
  {
    180 + Round(ix as real / 4.0)
  }

  function RainbowHue(sx: Byte, n: nat, t: nat, i: nat): (r: Byte)
  {
    // `& 255` on a non-negative integer keeps its low eight bits
    var base := (t * (sx + 1) / 24) % 256;
    (base + (i * 255) / Max(1, n)) % 256
  }

  /** The colour renderFrame gives LED i of n at time t while the strip is on. */
  function PixelColor(st: Settings, n: nat, t: nat, i: nat, hsv: (int, int, int) -> Rgb, wave: real -> real): Rgb
    requires n >= 1
  {
    match st.fx
    case 0 => ApplyBrightness(st.color, st.bri)
    case 1 => if BlinkOn(st.sx, t) then ApplyBrightness(st.color, st.bri) else Black
    case 2 => ApplyBrightness(st.color, BreathBrightness(st.bri, t, wave))
    case 20 => ApplyBrightness(if Sparkled(SparkleCount(n, st.ix), t, n, i) then White else st.color, st.bri)
    case 28 => if ChaseLit(st.sx, n, t, i) then ApplyBrightness(st.color, st.bri) else Black
    case _ => ApplyBrightness(hsv(RainbowHue(st.sx, n, t, i), RainbowSaturation(st.ix), 255), st.bri)
  }

  /** The colours renderFrame gives the LEDs of a strip of n while it is on. */
  function Pixels(st: Settings, n: nat, t: nat, hsv: (int, int, int) -> Rgb, wave: real -> real): nat -> Rgb
    requires n >= 1
  {
    (i: nat) => PixelColor(st, n, t, i, hsv, wave)
  }

  /** The frame renderFrame returns: all zero when off, else LED by LED. */
  function FrameOf(st: Settings, n: nat, t: nat, hsv: (int, int, int) -> Rgb, wave: real -> real): (r: seq<Byte>)
    requires n >= 1
    ensures |r| == 3 * n
    ensures !st.on ==> r == Zeros(3 * n)
  {
    if !st.on then Zeros(3 * n)
    else PixelFrame(n, Pixels(st, n, t, hsv, wave))
  }

  // ---------------------------------------------------------------------------
  // Properties of the effects

  /** fx 0 lights every LED with the brightened colour. */
  lemma SolidIsUniform(st: Settings, n: nat, t: nat, hsv: (int, int, int) -> Rgb, wave: real -> real)
    requires n >= 1 && st.on && st.fx == 0
    ensures FrameOf(st, n, t, hsv, wave) == PixelFrame(n, Uniform(ApplyBrightness(st.color, st.bri)))
  {
    PixelFrameAgree(n, Pixels(st, n, t, hsv, wave), Uniform(ApplyBrightness(st.color, st.bri)));
  }

  /** fx 2 is the solid frame at the breath brightness. */
  lemma BreathIsUniform(st: Settings, n: nat, t: nat, hsv: (int, int, int) -> Rgb, wave: real -> real)
    requires n >= 1 && st.on && st.fx == 2
    ensures FrameOf(st, n, t, hsv, wave) == PixelFrame(n, Uniform(ApplyBrightness(st.color, BreathBrightness(st.bri, t, wave))))
  {
    PixelFrameAgree(n, Pixels(st, n, t, hsv, wave), Uniform(ApplyBrightness(st.color, BreathBrightness(st.bri, t, wave))));
  }

  /** The colours after the first i sparkles of renderSparkle: white on the LEDs
      they hit, the colour elsewhere (both already brightened). */
  function SparkleStage(i: nat, t: nat, n: nat, white: Rgb, lit: Rgb): nat -> Rgb
    requires n >= 1
  {
    (p: nat) => if Sparkled(i, t, n, p) then white else lit
  }

  /** Before any sparkle the frame is solid. */
  lemma SparkleStageZero(t: nat, n: nat, white: Rgb, lit: Rgb)
    requires n >= 1
    ensures PixelFrame(n, Uniform(lit)) == PixelFrame(n, SparkleStage(0, t, n, white, lit))
  {
    PixelFrameAgree(n, Uniform(lit), SparkleStage(0, t, n, white, lit));
  }

  /** Sparkle i paints its LED white. */
  lemma SparkleStageStep(i: nat, t: nat, n: nat, white: Rgb, lit: Rgb)
    requires n >= 1
    ensures var idx := SparkleIndex(i, t, n);
      PixelFrame(n, SparkleStage(i, t, n, white, lit))[3 * idx := white.r][3 * idx + 1 := white.g][3 * idx + 2 := white.b]
      == PixelFrame(n, SparkleStage(i + 1, t, n, white, lit))
  {
    var idx := SparkleIndex(i, t, n);
    var f := SparkleStage(i, t, n, white, lit);
    PixelFrameSet(n, f, idx, white);
    SparkledStep(i, t, n);
    PixelFrameAgree(n, (p: nat) => if p == idx then white else f(p), SparkleStage(i + 1, t, n, white, lit));
  }

  /** fx 20 is the frame after all of its sparkles. */
  lemma SparkleFrame(st: Settings, n: nat, t: nat, hsv: (int, int, int) -> Rgb, wave: real -> real)
    requires n >= 1 && st.on && st.fx == 20
    ensures FrameOf(st, n, t, hsv, wave)
      == PixelFrame(n, SparkleStage(SparkleCount(n, st.ix), t, n, ApplyBrightness(White, st.bri), ApplyBrightness(st.color, st.bri)))
  {
    PixelFrameAgree(n, Pixels(st, n, t, hsv, wave),
      SparkleStage(SparkleCount(n, st.ix), t, n, ApplyBrightness(White, st.bri), ApplyBrightness(st.color, st.bri)));
  }

  /** fx 1 alternates: one interval later every LED has toggled between the
      brightened colour and black, and two intervals later it is back. */
  lemma BlinkAlternates(sx: Byte, t: nat)
    ensures BlinkOn(sx, t + BlinkInterval(sx)) == !BlinkOn(sx, t)
    ensures BlinkOn(sx, t + 2 * BlinkInterval(sx)) == BlinkOn(sx, t)
  {
    var d := BlinkInterval(sx);
    var q, r := t / d, t % d;
    DivModUnique(t + d, d, q + 1, r);
    DivModUnique(t + 2 * d, d, q + 2, r);
  }

  /** fx 28: a lit LED is followed by stride - 1 dark ones and then a lit one. */
  lemma ChaseSpacing(sx: Byte, n: nat, t: nat, i: nat, d: nat)
    requires ChaseLit(sx, n, t, i) && 0 < d <= ChaseStride(sx)
    ensures ChaseLit(sx, n, t, i + d) <==> d == ChaseStride(sx)
  {
    var a := i + ChaseHead(n, t);
    assert i + d + ChaseHead(n, t) == a + d;
    NextMultiple(a, ChaseStride(sx), d);
  }

  /** After a multiple of s, the next multiple is s further on. */
  lemma NextMultiple(a: nat, s: nat, d: nat)
    requires s > 0 && a % s == 0 && 0 < d <= s
    ensures (a + d) % s == 0 <==> d == s
  {
    var q := a / s;
    DivModUnique(a, s, q, 0);
    if d < s {
      DivModUnique(a + d, s, q, d);
    } else {
      DivModUnique(a + d, s, q + 1, 0);
    }
  }

  /** fx 20: the LED of the first sparkle always shows brightened white. */
  lemma FirstSparkleIsWhite(st: Settings, n: nat, t: nat, hsv: (int, int, int) -> Rgb, wave: real -> real)
    requires n >= 1 && st.fx == 20
    ensures PixelColor(st, n, t, SparkleIndex(0, t, n), hsv, wave) == ApplyBrightness(White, st.bri)
  {
    assert Sparkled(SparkleCount(n, st.ix), t, n, SparkleIndex(0, t, n));
  }

  /** One more sparkle lights exactly its own LED on top of the earlier ones. */
  lemma SparkledStep(i: nat, t: nat, n: nat)
    requires n >= 1
    ensures forall p :: Sparkled(i + 1, t, n, p) <==> (Sparkled(i, t, n, p) || p == SparkleIndex(i, t, n))
  {
    forall p
      ensures Sparkled(i + 1, t, n, p) <==> (Sparkled(i, t, n, p) || p == SparkleIndex(i, t, n))
    {
      if Sparkled(i + 1, t, n, p) {
        var j :| 0 <= j < i + 1 && SparkleIndex(j, t, n) == p;
        if j < i {
          assert Sparkled(i, t, n, p);
        }
      }
      if p == SparkleIndex(i, t, n) {
        assert Sparkled(i + 1, t, n, p);
      }
      if Sparkled(i, t, n, p) {
        var j :| 0 <= j < i && SparkleIndex(j, t, n) == p;
        assert Sparkled(i + 1, t, n, p);
      }
    }
  }

  // ---------------------------------------------------------------------------
  // The engine

  class SoftwareWledEngine {
    var ledCount: nat
    var frame: array<Byte>
    var on: bool
    var bri: Byte
    var fx: Byte
    var sx: Byte
    var ix: Byte
    var color: Rgb
    var lastError: LastError
    const hsv: (int, int, int) -> Rgb
    const wave: real -> real

    ghost predicate Valid()
      reads this
    {
      1 <= ledCount <= 100000 && frame.Length == 3 * ledCount
    }

    function Current(): Settings
      reads this
    {
      Settings(on, bri, fx, sx, ix, color, lastError)
    }

    constructor(hsv: (int, int, int) -> Rgb, wave: real -> real)
      ensures Valid() && fresh(frame)
      ensures ledCount == 1 && frame[..] == Zeros(3) && Current() == InitialSettings
      ensures this.hsv == hsv && this.wave == wave
    {
      ledCount := 1;
      frame := new Byte[3](_ => 0);
      on, bri, fx, sx, ix := true, 128, 8, 128, 128;
      color := Rgb(255, 170, 0);
      lastError := NoError;
      this.hsv := hsv;
      this.wave := wave;
      new;
      assert frame[..] == Zeros(3);
    }

    /** init: the count rounded and clamped into [1, 100000], a fresh zeroed frame,
        the error cleared; the other settings are kept. */
    method Init(requested: real)
      modifies this
      ensures Valid() && fresh(frame)
      ensures ledCount == Max(1, Min(100000, Round(requested)))
      ensures frame[..] == Zeros(3 * ledCount)
      ensures Current() == old(Current()).(lastError := NoError)
    {
      ledCount := Max(1, Min(100000, Round(requested)));
      frame := new Byte[ledCount * 3](_ => 0);
      lastError := NoError;
      assert frame[..] == Zeros(3 * ledCount);
    }

    /** jsonCommand; the payload is what JSON.parse made of the text. */
    method JsonCommand(parsed: Result<JsValue, string>)
      modifies this
      ensures Current() == Command(old(Current()), parsed)
      ensures ledCount == old(ledCount) && frame == old(frame)
    {
      var next := Command(Current(), parsed);
      on, bri, fx, sx, ix, color, lastError := next.on, next.bri, next.fx, next.sx, next.ix, next.color, next.lastError;
    }

    function GetBufferSize(): (r: nat)
      reads this
      requires Valid()
      ensures r == 3 * ledCount
    {
      frame.Length
    }

    function GetLastError(): string
      reads this
    {
      ErrorText(lastError)
    }

    /** renderFrame: fills the frame for time t and returns it (the same array). */
    method RenderFrame(t: nat) returns (out: array<Byte>)
      requires Valid()
      modifies this, frame
      ensures Valid() && out == frame && frame == old(frame)
      ensures Current() == old(Current()) && ledCount == old(ledCount)
      ensures frame[..] == FrameOf(Current(), ledCount, t, hsv, wave)
    {
      if !on {
        forall k | 0 <= k < frame.Length {
          frame[k] := 0;
        }
        assert frame[..] == Zeros(3 * ledCount);
        return frame;
      }
      if fx == 0 {
        RenderSolid();
        SolidIsUniform(Current(), ledCount, t, hsv, wave);
      } else if fx == 1 {
        RenderBlink(t);
      } else if fx == 2 {
        RenderBreath(t);
      } else if fx == 20 {
        RenderSparkle(t);
      } else if fx == 28 {
        RenderChase(t);
      } else {
        RenderRainbow(t);
      }
      out := frame;
    }

    /** Writes every LED with the colour `pixel` gives it. */
    method FillPixels(pixel: nat -> Rgb)
      requires Valid()
      modifies frame
      ensures frame[..] == PixelFrame(ledCount, pixel)
    {
      var i := 0;
      while i < ledCount
        invariant 0 <= i <= ledCount
        invariant forall k :: 0 <= k < 3 * i ==> frame[k] == Channel(pixel(k / 3), k % 3)
      {
        var c := pixel(i);
        frame[i * 3], frame[i * 3 + 1], frame[i * 3 + 2] := c.r, c.g, c.b;
        i := i + 1;
      }
      assert frame[..] == PixelFrame(ledCount, pixel);
    }

    /** Writes the three bytes of LED idx. */
    method SetPixel(idx: nat, c: Rgb)
      requires Valid() && idx < ledCount
      modifies frame
      ensures frame[..] == old(frame[..])[3 * idx := c.r][3 * idx + 1 := c.g][3 * idx + 2 := c.b]
    {
      frame[idx * 3], frame[idx * 3 + 1], frame[idx * 3 + 2] := c.r, c.g, c.b;
    }

    method RenderSolid()
      requires Valid()
      modifies frame
      ensures frame[..] == PixelFrame(ledCount, Uniform(ApplyBrightness(color, bri)))
    {
      var c := ApplyBrightness(color, bri);
      FillPixels(Uniform(c));
    }

    method RenderBlink(t: nat)
      requires Valid() && on && fx == 1
      modifies frame
      ensures frame[..] == FrameOf(Current(), ledCount, t, hsv, wave)
    {
      var interval := 120 + (255 - sx) * 6;
      var lit := (t / interval) % 2 == 0;
      var c := if lit then ApplyBrightness(color, bri) else Black;
      FillPixels(Uniform(c));
      PixelFrameAgree(ledCount, Uniform(c), Pixels(Current(), ledCount, t, hsv, wave));
    }

    /** Renders solid at the breath brightness, then restores the brightness. */
    method RenderBreath(t: nat)
      requires Valid() && on && fx == 2
      modifies this, frame
      ensures Current() == old(Current()) && ledCount == old(ledCount) && frame == old(frame)
      ensures Valid() && frame[..] == FrameOf(Current(), ledCount, t, hsv, wave)
    {
      var prev := bri;
      bri := BreathBrightness(prev, t, wave);
      ghost var solid := PixelFrame(ledCount, Uniform(ApplyBrightness(color, BreathBrightness(prev, t, wave))));
      RenderSolid();
      assert frame[..] == solid;
      bri := prev;
      BreathIsUniform(Current(), ledCount, t, hsv, wave);
    }

    method RenderSparkle(t: nat)
      requires Valid() && on && fx == 20
      modifies frame
      ensures frame[..] == FrameOf(Current(), ledCount, t, hsv, wave)
    {
      RenderSolid();
      var white := ApplyBrightness(White, bri);
      var lit := ApplyBrightness(color, bri);
      SparkleStageZero(t, ledCount, white, lit);
      PaintSparkles(SparkleCount(ledCount, ix), t, white, lit);
      SparkleFrame(Current(), ledCount, t, hsv, wave);
    }

    /** The sparkle loop: paints the LED of each of the first `sparkles` sparkles. */
    method PaintSparkles(sparkles: nat, t: nat, white: Rgb, lit: Rgb)
      requires Valid() && frame[..] == PixelFrame(ledCount, SparkleStage(0, t, ledCount, white, lit))
      modifies frame
      ensures frame[..] == PixelFrame(ledCount, SparkleStage(sparkles, t, ledCount, white, lit))
    {
      var i := 0;
      while i < sparkles
        invariant 0 <= i <= sparkles
        invariant frame[..] == PixelFrame(ledCount, SparkleStage(i, t, ledCount, white, lit))
      {
        var idx := SparkleIndex(i, t, ledCount);
        SetPixel(idx, white);
        SparkleStageStep(i, t, ledCount, white, lit);
        i := i + 1;
      }
    }

    method RenderChase(t: nat)
      requires Valid() && on && fx == 28
      modifies frame
      ensures frame[..] == FrameOf(Current(), ledCount, t, hsv, wave)
    {
      var stride := Max(2, 14 - sx / 20);
      var head := (t / 40) % Max(1, ledCount);
      var lit := ApplyBrightness(color, bri);
      FillPixels((i: nat) => if (i + head) % stride == 0 then lit else Black);
      PixelFrameAgree(ledCount, (i: nat) => if (i + head) % stride == 0 then lit else Black,
        Pixels(Current(), ledCount, t, hsv, wave));
    }

    method RenderRainbow(t: nat)
      requires Valid() && on && fx != 0 && fx != 1 && fx != 2 && fx != 20 && fx != 28
      modifies frame
      ensures frame[..] == FrameOf(Current(), ledCount, t, hsv, wave)
    {
      var sat := 180 + Round(ix as real / 4.0);
      var base := (t * (sx + 1) / 24) % 256;
      var n := ledCount;
      var b := bri;
      var h := hsv;
      FillPixels((i: nat) => ApplyBrightness(h((base + (i * 255) / Max(1, n)) % 256, sat, 255), b));
      PixelFrameAgree(n, (i: nat) => ApplyBrightness(h((base + (i * 255) / Max(1, n)) % 256, sat, 255), b),
        Pixels(Current(), n, t, hsv, wave));
    }
  }
}
