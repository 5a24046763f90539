/**
 * The native bridge (src/headless/wled_bridge.cpp) without the upstream WLED
 * build: one global engine state that wled_init, wled_json_command and
 * wled_render_frame change, and effects that write a frame of three bytes per
 * LED through set_pixel.
 *
 * blend_color, scale_color, the chase fade, the breath level and the rainbow
 * and mapped effects are floating point; the bridge takes them as the functions
 * of a FloatOps value, and everything around them is modelled exactly.
 */
module WledBridge {
  import opened Wrappers
  import opened Arithmetic
  import opened Frames
  import opened BridgeJson
  import opened JsValues
  import SoftwareEngine

  // ---------------------------------------------------------------------------
  // apply_brightness and hash_noise

  /** c * scale / 255 in int arithmetic, for one channel. */
  function Dim(c: Byte, bri: Byte): Byte
  {
    DimRange(c, bri);
    c * bri / 255
  }

  lemma DimRange(c: Byte, bri: Byte)
    ensures 0 <= c * bri / 255 <= c
  {
    MulLe(bri, 255, c);
    DivModUnique(255 * c, 255, c, 0);
  }

  /** apply_brightness: every channel dimmed; never brighter, unchanged at
      full brightness, black at zero. */
  function ApplyBrightness(c: Rgb, bri: Byte): (r: Rgb)
    ensures r.r <= c.r && r.g <= c.g && r.b <= c.b
    ensures bri == 255 ==> r == c
    ensures bri == 0 ==> r == Black
  {
    DimIsFloor(c.r, bri, bri);
    DimIsFloor(c.g, bri, bri);
    DimIsFloor(c.b, bri, bri);
    Rgb(Dim(c.r, bri), Dim(c.g, bri), Dim(c.b, bri))
  }

  /** A dimmed channel is the floor of c * bri / 255: never brighter than c,
      c itself at full brightness, zero at zero, and growing with bri. */
  lemma DimIsFloor(c: Byte, bri: Byte, brighter: Byte)
    requires bri <= brighter
    ensures Dim(c, bri) * 255 <= c * bri < Dim(c, bri) * 255 + 255
    ensures Dim(c, bri) <= c && Dim(c, 255) == c && Dim(c, 0) == 0
    ensures Dim(c, bri) <= Dim(c, brighter)
  {
    DimRange(c, bri);
    DivModUnique(c * 255, 255, c, 0);
    MulLe(bri, brighter, c);
    var q, q2 := c * bri / 255, c * brighter / 255;
    assert (q - q2) * 255 < 255;
    MulSign(q - q2, 255);
  }

  /** The TypeScript engine rounds where the bridge floors: its channel is the
      bridge's or one more. */
  lemma DimBelowRounded(c: Byte, bri: Byte)
    ensures Dim(c, bri) <= SoftwareEngine.Scale(c, bri) <= Dim(c, bri) + 1
  {
    var n: nat := c * bri;
    ScaleRounds(c, bri, n);
    RoundedBetween(n, n / 255, n % 255);
  }

  lemma ScaleRounds(c: Byte, bri: Byte, n: nat)
    requires n == c * bri
    ensures SoftwareEngine.Scale(c, bri) == (2 * n + 255) / 510
  {
    SoftwareEngine.ScaleBounds(c, bri);
    assert 2 * c * bri == 2 * n;
  }

  /** Rounding n / 255 to the nearest integer gives its floor q or q + 1. */
  lemma RoundedBetween(n: nat, q: int, r: int)
    requires n == q * 255 + r && 0 <= r < 255
    ensures q <= (2 * n + 255) / 510 <= q + 1
  {
    if 2 * r + 255 < 510 {
      DivModUnique(2 * n + 255, 510, q, 2 * r + 255);
    } else {
      DivModUnique(2 * n + 255, 510, q + 1, 2 * r + 255 - 510);
    }
  }

  /** The two engines differ: channel 1 at brightness 128 is 0 here and 1 in
      the TypeScript engine. */
  lemma DimDiffersFromRounded()
    ensures Dim(1, 128) == 0 && SoftwareEngine.Scale(1, 128) == 1
  {
    SoftwareEngine.ScaleBounds(1, 128);
  }

  /** hash_noise: an xorshift step on an unsigned 32-bit value; the left shifts
      drop the bits pushed past bit 31 and the right shift is logical. */
  function HashNoise(value: U32): (r: U32)
    ensures value == 0 ==> r == 0
  {
    var x1 := XorU32(value, value * 0x2000 % 0x1_0000_0000);
    var x2 := XorU32(x1, x1 / 0x2_0000);
    XorU32(x2, x2 * 0x20 % 0x1_0000_0000)
  }

  /** The bridge and the TypeScript engine agree on a value when the first
      step leaves the sign bit clear, so that the TypeScript engine's
      arithmetic right shift is a logical one. */
  lemma HashNoiseAgrees(value: U32)
    requires XorU32(value, value * 0x2000 % 0x1_0000_0000) < 0x8000_0000
    ensures HashNoise(value) == SoftwareEngine.HashNoise(value)
  {
    assert value % 0x1_0000_0000 == value;
  }

  /** ... and differ otherwise: 0x8000_0000 hashes to 0x8008_4000 here
      (HashNoiseHigh) and to 0x8007_C000 in the TypeScript engine
      (HashNoiseHighSigned). */
  lemma HashNoiseHigh(v: U32)
    requires v == 0x8000_0000
    ensures HashNoise(v) == 0x8008_4000
  {
    var x1 := XorU32(v, v * 0x2000 % 0x1_0000_0000);
    assert x1 == v;
    var s1: nat := x1 / 0x2_0000;
    var x2 := XorU32(x1, s1);
    var s2: nat := (x2 as int) * 0x20 % 0x1_0000_0000;
    XorSteps(x1, s1, 0x8000_4000, 0x8_0000);
    DivModUnique((x2 as int) * 0x20, 0x1_0000_0000, 0x10, 0x8_0000);
  }

  lemma HashNoiseHighSigned(v: U32)
    requires v == 0x8000_0000
    ensures SoftwareEngine.HashNoise(v) == 0x8007_C000
  {
    assert v % 0x1_0000_0000 == v;
    var x1 := XorU32(v, v * 0x2000 % 0x1_0000_0000);
    assert x1 == v;
    var t1 := SoftwareEngine.ShiftRightSigned17(x1);
    assert t1 == 0xFFFF_C000;
    SignedXorFirst(x1, t1, 0x7FFF_C000);
    var y2 := XorU32(x1, t1);
    var t2: nat := (y2 as int) * 0x20 % 0x1_0000_0000;
    DivModUnique((y2 as int) * 0x20, 0x1_0000_0000, 0xF, 0xFFF8_0000);
    SignedXorSecond(y2, t2);
  }

  /** The two exclusive ors of HashNoiseHigh, with its values as parameters. */
  lemma XorSteps(x1: nat, s1: nat, x2: nat, s2: nat)
    requires x1 == 0x8000_0000 && s1 == 0x4000 && x2 == 0x8000_4000 && s2 == 0x8_0000
    ensures Xor(x1, s1) == x2 && Xor(x2, s2) == 0x8008_4000
  {
    Pow2Values();
    var j: nat, m: nat, t: nat := 14, 19, 31;
    XorTwoBits(j, t);
    XorThreeBits(j, m, t);
  }

  /** The first exclusive or of HashNoiseHighSigned: the sign bits cancel. */
  lemma SignedXorFirst(x1: nat, t1: nat, y2: nat)
    requires x1 == 0x8000_0000 && t1 == 0xFFFF_C000 && y2 == 0x7FFF_C000
    ensures Xor(x1, t1) == y2
  {
    Pow2Values();
    var top: nat := 31;
    XorFlipHigh(top, y2);
  }

  /** The second exclusive or of HashNoiseHighSigned: bits 19 to 30 cancel. */
  lemma SignedXorSecond(y2: nat, t2: nat)
    requires y2 == 0x7FFF_C000 && t2 == 0xFFF8_0000
    ensures Xor(y2, t2) == 0x8007_C000
  {
    Pow2Values();
    var top: nat, mid: nat, high: nat, low: nat, p: nat := 31, 19, 0xFFF, 0x7_C000, 0x7FF8_0000;
    ShlIsMul(high, mid);
    XorSymmetric(y2, t2);
    XorHighBit(top, p, y2);
    XorSymmetric(p, y2);
    XorCancelHigh(high, low, mid);
  }

  // ---------------------------------------------------------------------------
  // Engine settings and wled_json_command

  /** The fields of the engine state that a JSON command can change. */
  datatype Settings = Settings(
    power: bool, brightness: Byte, effect: Byte, speed: Byte, intensity: Byte,
    palette: Byte, custom1: Byte, custom2: Byte,
    primary: Rgb, secondary: Rgb, tertiary: Rgb)

  const DefaultSettings := Settings(true, 128, 0, 128, 128, 0, 0, 0, Rgb(255, 170, 0), Black, Black)

  /** A byte field: the clamped integer after its key, or the current value. */
  function ByteField(json: string, key: string, current: Byte): (r: Byte)
    ensures IntField(json, key).None? ==> r == current
    ensures IntField(json, key).Some? ==> r == ClampU8(IntField(json, key).value)
  {
    match IntField(json, key)
    case None => current
    case Some(v) => ClampU8(v)
  }

  /** A colour field: colour slot `slot` of the command, or the current colour. */
  function ColorField(json: string, slot: nat, current: Rgb): (r: Rgb)
    ensures ColorSlot(json, slot).None? ==> r == current
    ensures ColorSlot(json, slot).Some? ==> r == ColorSlot(json, slot).value
  {
    match ColorSlot(json, slot)
    case None => current
    case Some(c) => c
  }

  /** What wled_json_command makes of the settings. */
  function Command(st: Settings, json: string): (r: Settings)
    ensures '"' !in json ==> r == st
  {
    NoKeyWithoutQuote(json);
    Settings(
      match BoolField(json, "on") case Some(b) => b case None => st.power,
      ByteField(json, "bri", st.brightness),
      ByteField(json, "fx", st.effect),
      ByteField(json, "sx", st.speed),
      ByteField(json, "ix", st.intensity),
      ByteField(json, "pal", st.palette),
      ByteField(json, "c1", st.custom1),
      ByteField(json, "c2", st.custom2),
      ColorField(json, 0, st.primary),
      ColorField(json, 1, st.secondary),
      ColorField(json, 2, st.tertiary))
  }

  /** Every key the bridge reads starts with a quote, so a command without
      one finds none of them. */
  lemma NoKeyWithoutQuote(json: string)
    ensures '"' !in json ==> forall p :: p != [] && p[0] == '"' ==> Find(json, p, 0).None?
  {
    forall p | p != [] && p[0] == '"'
      ensures '"' !in json ==> Find(json, p, 0).None?
    {
      FindStartsWith(json, p, 0);
    }
  }

  /** Sending the same command twice is sending it once: every field it names
      gets the same value again, every other field stays. */
  lemma CommandIdempotent(st: Settings, json: string)
    ensures Command(Command(st, json), json) == Command(st, json)
  {
  }

  /** A command that spells the brightness right after the ':' of the first
      `"bri"` sets the brightness to that value clamped into [0, 255]. */
  lemma CommandSetsBrightness(st: Settings, json: string, k: nat, n: int)
    requires Find(json, Quoted("bri"), 0) == Some(k)
    requires k + |Quoted("bri")| < |json| && json[k + |Quoted("bri")|] == ':'
    requires -0x8000_0000 <= n < 0x8000_0000  // std::atoi into an int
    requires MatchAt(json, IntToDecimal(n), k + |Quoted("bri")| + 1)
    requires var end := k + |Quoted("bri")| + 1 + |IntToDecimal(n)|; end == |json| || !IsDigit(json[end])
    ensures Command(st, json).brightness == ClampU8(n)
  {
    IntFieldRoundTrip(json, "bri", k, n);
  }

  /** A command whose `col` array starts with colours a and b right after the
      first `"col"` sets the primary and secondary colours to them. */
  lemma CommandSetsColors(st: Settings, json: string, k: nat, a: Rgb, b: Rgb)
    requires Find(json, "\"col\"", 0) == Some(k)
    requires MatchAt(json, ":[" + EncodeColor(a) + "," + EncodeColor(b), k + 5)
    ensures Command(st, json).primary == a && Command(st, json).secondary == b
  {
    ColorSlotsRoundTrip(json, k, a, b);
  }

  // ---------------------------------------------------------------------------
  // The effects, pixel by pixel

  /** The floating-point parts of the effects, as functions of their inputs:
      blend_color(a, b, t), scale_color(c, s), the chase fade of (fg, bg, phase,
      tail), the breath brightness of fill_breath, and the pixels of the
      rainbow and mapped effects. */
  datatype FloatOps = FloatOps(
    blend: (Rgb, Rgb, real) -> Rgb,
    scale: (Rgb, real) -> Rgb,
    fade: (Rgb, Rgb, nat, nat) -> Rgb,
    breath: (Settings, U32) -> Byte,
    pixels: (Effect, Settings, nat, U32) -> nat -> Rgb)

  /** The effect functions render_effect dispatches to. */
  datatype Effect = Solid | Blink | Breath | Rainbow(cycle: bool) | Sparkle | Chase | Mapped

  /** render_effect's switch on the effect id. */
  function EffectOf(fx: Byte): (r: Effect)
    ensures r == Rainbow(false) <==> fx in {8, 37, 41, 45, 57, 63}
    ensures r == Mapped <==> fx !in {0, 1, 2, 8, 9, 20, 28, 37, 41, 45, 57, 63}
  {
    match fx
    case 0 => Solid
    case 1 => Blink
    case 2 => Breath
    case 8 => Rainbow(false)
    case 9 => Rainbow(true)
    case 37 => Rainbow(false)
    case 41 => Rainbow(false)
    case 45 => Rainbow(false)
    case 57 => Rainbow(false)
    case 63 => Rainbow(false)
    case 20 => Sparkle
    case 28 => Chase
    case _ => Mapped
  }

  predicate Visible(c: Rgb) { c.r > 0 || c.g > 0 || c.b > 0 }

  const White := Rgb(255, 255, 255)

  /** fill_solid: how far LED i of n leans from the primary towards the
      secondary colour. */
  function SolidWeight(custom1: Byte, n: nat, i: nat): real
  {
    if custom1 > 0 then (i as real / Max(1, n - 1) as real) * (custom1 as real / 255.0) else 0.0
  }

  /** fill_solid: the colour of LED i of n. */
  function SolidColor(st: Settings, ops: FloatOps, n: nat, i: nat): Rgb
  {
    var w := SolidWeight(st.custom1, n, i);
    ApplyBrightness(if w > 0.0 then ops.blend(st.primary, st.secondary, w) else st.primary, st.brightness)
  }

  // fill_blink times its phases and fill_sparkle counts its sparkles exactly
  // as the TypeScript engine does: SoftwareEngine.BlinkOn, SoftwareEngine.SparkleCount.

  /** fill_blink: the off colour, a dimmed secondary colour or black. */
  function BlinkOff(st: Settings, ops: FloatOps): Rgb
  {
    var offScale := if st.custom1 > 0 then st.custom1 as real / 255.0 else 0.2;
    if Visible(st.secondary) then ApplyBrightness(ops.scale(st.secondary, offScale), st.brightness) else Black
  }

  /** fill_chase: the distance between lit LEDs. */
  function ChaseStride(st: Settings): (r: nat)
    ensures 2 <= r <= 16
  {
    if st.custom1 > 0 then Max(2, 2 + st.custom1 / 18) else Max(2, 14 - st.speed / 20)
  }

  function ChaseHead(n: nat, now: nat): (r: nat)
    ensures r < Max(n, 1)
  {
    (now / 40) % Max(n, 1)
  }

  /** fill_chase: the colour of LED i of n. */
  function ChaseColor(st: Settings, ops: FloatOps, n: nat, now: nat, i: nat): Rgb
  {
    var phase := (i + ChaseHead(n, now)) % ChaseStride(st);
    var tail := st.custom2 / 52;
    var fg := ApplyBrightness(st.primary, st.brightness);
    var bg := if Visible(st.tertiary) then ApplyBrightness(ops.scale(st.tertiary, 0.45), st.brightness) else Black;
    if phase == 0 then fg
    else if tail > 0 && phase <= tail then ops.fade(fg, bg, phase, tail)
    else bg
  }


  /** fill_sparkle: the time multiplier, with C's truncating division. */
  function SpeedFactor(speed: Byte): (r: nat)
    ensures 1 <= r <= 62
  {
    TruncDivRemainder(speed - 128, 4);
    Max(1, 31 + TruncDiv(speed - 128, 4))
  }

  /** fill_sparkle: the hash of sparkle j, in wrapping 32-bit arithmetic. */
  function SparkleHash(j: nat, speed: Byte, now: nat): U32
  {
    HashNoise((j * 0x9E37_79B9 + now * SpeedFactor(speed)) % 0x1_0000_0000)
  }

  function SparkleIndex(j: nat, speed: Byte, n: nat, now: nat): (r: nat)
    ensures r < Max(n, 1)
  {
    SparkleHash(j, speed, now) % Max(n, 1)
  }

  /** The index fill_sparkle computes from its seed is SparkleIndex. */
  lemma SparkleIndexOfSeed(j: nat, speed: Byte, n: nat, now: nat, factor: int, seed: int)
    requires factor == Max(1, 31 + TruncDiv(speed - 128, 4))
    requires seed == (j * 0x9E37_79B9 + now * factor) % 0x1_0000_0000
    ensures 0 <= seed < 0x1_0000_0000
    ensures HashNoise(seed) % Max(n, 1) == SparkleIndex(j, speed, n, now)
  {
  }

  /** fill_sparkle: the colour sparkle j paints, already brightened. */
  function SparkleColor(j: nat, st: Settings, ops: FloatOps, now: nat): Rgb
  {
    var sparkle := if Visible(st.secondary) then st.secondary else White;
    // `(n + now) & 0xFF` on uint32 keeps the low eight bits of the sum
    var pos := (SparkleHash(j, st.speed, now) + now) % 256;
    var base := if st.palette > 0 then ops.blend(st.primary, st.secondary, pos as real / 255.0) else sparkle;
    var final := if st.custom1 > 0 then ops.blend(base, st.tertiary, st.custom1 as real / 255.0) else base;
    ApplyBrightness(final, st.brightness)
  }

  /** The colours after fill_solid and the first k sparkles of fill_sparkle:
      a later sparkle paints over an earlier one on the same LED. */
  function SparkleStage(k: nat, st: Settings, ops: FloatOps, n: nat, now: nat): nat -> Rgb
  {
    (p: nat) => StageColor(k, st, ops, n, now, p)
  }

  /** The last of steps 0 .. k - 1 whose target is p, if any is. */
  function LastHit(k: nat, target: nat -> nat, p: nat): Option<nat>
  {
    if k == 0 then None
    else if p == target(k - 1) then Some(k - 1)
    else LastHit(k - 1, target, p)
  }

  /** The LED each sparkle lands on. */
  function SparkleTargets(speed: Byte, n: nat, now: nat): nat -> nat
  {
    (j: nat) => SparkleIndex(j, speed, n, now)
  }

  /** The colour of LED p after fill_solid and the first k sparkles. */
  function StageColor(k: nat, st: Settings, ops: FloatOps, n: nat, now: nat, p: nat): Rgb
  {
    match LastHit(k, SparkleTargets(st.speed, n, now), p)
    case None => SolidColor(st, ops, n, p)
    case Some(j) => SparkleColor(j, st, ops, now)
  }

  /** The colour render_effect gives LED i of n while the strip is on. */
  function PixelColor(st: Settings, ops: FloatOps, n: nat, now: U32, i: nat): Rgb
  {
    match EffectOf(st.effect)
    case Solid => SolidColor(st, ops, n, i)
    case Blink => if SoftwareEngine.BlinkOn(st.speed, now) then ApplyBrightness(st.primary, st.brightness) else BlinkOff(st, ops)
    case Breath => SolidColor(st.(brightness := ops.breath(st, now)), ops, n, i)
    case Sparkle => SparkleStage(SoftwareEngine.SparkleCount(n, st.intensity), st, ops, n, now)(i)
    case Chase => ChaseColor(st, ops, n, now, i)
    case Rainbow(_) => ops.pixels(EffectOf(st.effect), st, n, now)(i)
    case Mapped => ops.pixels(Mapped, st, n, now)(i)
  }

  function Pixels(st: Settings, ops: FloatOps, n: nat, now: U32): nat -> Rgb
  {
    (i: nat) => PixelColor(st, ops, n, now, i)
  }

  /** The frame render_effect leaves: all zero with the power off, else LED by LED. */
  function EffectFrame(st: Settings, ops: FloatOps, n: nat, now: U32): (r: seq<Byte>)
    ensures |r| == 3 * n
    ensures !st.power ==> r == Zeros(3 * n)
  {
    if !st.power then Zeros(3 * n) else PixelFrame(n, Pixels(st, ops, n, now))
  }

  // ---------------------------------------------------------------------------
  // Properties of the effects

  /** Without a custom blend, fill_solid lights every LED with the dimmed
      primary colour; LED 0 always gets it. */
  lemma SolidUniform(st: Settings, ops: FloatOps, n: nat, i: nat)
    ensures st.custom1 == 0 || i == 0 ==> SolidColor(st, ops, n, i) == ApplyBrightness(st.primary, st.brightness)
  {
  }

  /** fill_chase repeats along the strip with the period of its stride. */
  lemma ChasePeriodic(st: Settings, ops: FloatOps, n: nat, now: nat, i: nat)
    ensures ChaseColor(st, ops, n, now, i + ChaseStride(st)) == ChaseColor(st, ops, n, now, i)
  {
    var s := ChaseStride(st);
    var a := i + ChaseHead(n, now);
    DivModUnique(a + s, s, a / s + 1, a % s);
  }

  /** fill_chase lights LED i with the dimmed primary colour exactly when it is
      a whole number of strides past the head. */
  lemma ChaseLitAtStride(st: Settings, ops: FloatOps, n: nat, now: nat, i: nat, q: nat)
    requires i + ChaseHead(n, now) == q * ChaseStride(st)
    ensures ChaseColor(st, ops, n, now, i) == ApplyBrightness(st.primary, st.brightness)
  {
    DivModUnique(i + ChaseHead(n, now), ChaseStride(st), q, 0);
  }

  /** An LED that none of the first k sparkles hits keeps its fill_solid colour. */
  lemma SparkleMissed(k: nat, st: Settings, ops: FloatOps, n: nat, now: nat, p: nat)
    requires forall j :: 0 <= j < k ==> SparkleIndex(j, st.speed, n, now) != p
    ensures SparkleStage(k, st, ops, n, now)(p) == SolidColor(st, ops, n, p)
  {
    NeverHit(k, SparkleTargets(st.speed, n, now), p);
  }

  /** No step below k targets p: p is never hit. */
  lemma {:induction false} NeverHit(k: nat, target: nat -> nat, p: nat)
    requires forall j :: 0 <= j < k ==> target(j) != p
    ensures LastHit(k, target, p) == None
  {
    if k > 0 {
      NeverHit(k - 1, target, p);
    }
  }

  /** The LED of sparkle j shows the colour of the last sparkle to hit it. */
  lemma SparkleLastWins(k: nat, st: Settings, ops: FloatOps, n: nat, now: nat, j: nat)
    requires j < k
    requires forall m :: j < m < k ==> SparkleIndex(m, st.speed, n, now) != SparkleIndex(j, st.speed, n, now)
    ensures SparkleStage(k, st, ops, n, now)(SparkleIndex(j, st.speed, n, now)) == SparkleColor(j, st, ops, now)
  {
    HitLast(k, SparkleTargets(st.speed, n, now), j, SparkleIndex(j, st.speed, n, now));
  }

  /** Step j targets p and no later step below k does: j is the last hit. */
  lemma {:induction false} HitLast(k: nat, target: nat -> nat, j: nat, p: nat)
    requires j < k && p == target(j)
    requires forall m :: j < m < k ==> target(m) != p
    ensures LastHit(k, target, p) == Some(j)
  {
    if k - 1 > j {
      HitLast(k - 1, target, j, p);
    }
  }

  /** With the strip on, the sparkle effect's frame is the one after all of its sparkles. */
  lemma SparkleEffectFrame(st: Settings, ops: FloatOps, n: nat, now: U32)
    requires st.power && EffectOf(st.effect) == Sparkle
    ensures EffectFrame(st, ops, n, now) == PixelFrame(n, SparkleStage(SoftwareEngine.SparkleCount(n, st.intensity), st, ops, n, now))
  {
    PixelFrameAgree(n, SparkleStage(SoftwareEngine.SparkleCount(n, st.intensity), st, ops, n, now), Pixels(st, ops, n, now));
  }

  /** Painting sparkle i over the frame of the first i sparkles, the way
      set_pixel does, gives the frame of the first i + 1. */
  lemma SparkleStep(i: nat, st: Settings, ops: FloatOps, n: nat, now: nat)
    ensures SetPixelBytes(PixelFrame(n, SparkleStage(i, st, ops, n, now)), n, SparkleIndex(i, st.speed, n, now), SparkleColor(i, st, ops, now))
      == PixelFrame(n, SparkleStage(i + 1, st, ops, n, now))
  {
    if n > 0 {
      var f := SparkleStage(i, st, ops, n, now);
      var idx := SparkleIndex(i, st.speed, n, now);
      var c := SparkleColor(i, st, ops, now);
      PixelFrameSet(n, f, idx, c);
      PixelFrameAgree(n, (p: nat) => if p == idx then c else f(p), SparkleStage(i + 1, st, ops, n, now));
    }
  }

  // ---------------------------------------------------------------------------
  // The engine state as a value, and what each entry point does to it

  /** g_state: the LED count, the frame buffer, the settings, the time and the
      last error. */
  datatype Snapshot = Snapshot(ledCount: nat, frame: seq<Byte>, settings: Settings, now: U32, lastError: string)

  /** The state before any call: no LEDs, an empty buffer. */
  const Initial := Snapshot(0, [], DefaultSettings, 0, "")

  const NullCommandError := "json command pointer was null"

  /** wled_init: the count clamped into [1, 100000], a zeroed buffer of three
      bytes per LED, the time back at 0 and no error; the settings are kept. */
  function InitSnapshot(s: Snapshot, requested: int): (r: Snapshot)
    ensures 1 <= r.ledCount <= 100000 && r.frame == Zeros(3 * r.ledCount)
    ensures 1 <= requested <= 100000 ==> r.ledCount == requested
    ensures requested < 1 ==> r.ledCount == 1
    ensures requested > 100000 ==> r.ledCount == 100000
    ensures r.now == 0 && r.lastError == "" && r.settings == s.settings
  {
    var n := Max(1, Min(requested, 100000));
    s.(ledCount := n, frame := Zeros(3 * n), now := 0, lastError := "")
  }

  /** wled_json_command: a null pointer only sets the error; otherwise the error
      is cleared and the settings follow the command. */
  function CommandSnapshot(s: Snapshot, json: Option<string>): (r: Snapshot)
    ensures r.ledCount == s.ledCount && r.frame == s.frame && r.now == s.now
    ensures json.None? ==> r.settings == s.settings && r.lastError == NullCommandError
    ensures json.Some? ==> r.settings == Command(s.settings, json.value) && r.lastError == ""
  {
    match json
    case None => s.(lastError := NullCommandError)
    case Some(text) => s.(settings := Command(s.settings, text), lastError := "")
  }

  /** wled_render_frame as written: the time is set first, and an empty buffer
      is then initialised, which sets the time back to 0. */
  function RenderAsWritten(s: Snapshot, t: U32, ops: FloatOps): (r: Snapshot)
    ensures r.settings == s.settings && r.frame == EffectFrame(s.settings, ops, r.ledCount, r.now)
    ensures |s.frame| != 0 ==> r.now == t && r.ledCount == s.ledCount && r.lastError == s.lastError
    ensures |s.frame| == 0 ==> r.now == 0 && r.ledCount == 1 && r.lastError == ""
  {
    var timed := s.(now := t);
    var ready := if |timed.frame| == 0 then InitSnapshot(timed, 1) else timed;
    ready.(frame := EffectFrame(ready.settings, ops, ready.ledCount, ready.now))
  }

  /** wled_render_frame with the empty buffer initialised before the time is
      set: every frame is rendered at the time asked for. */
  function Render(s: Snapshot, t: U32, ops: FloatOps): (r: Snapshot)
    ensures r.now == t && r.settings == s.settings
    ensures |s.frame| != 0 ==> r.ledCount == s.ledCount && r.lastError == s.lastError
    ensures |s.frame| == 0 ==> r.ledCount == 1 && r.lastError == ""
    ensures r.frame == EffectFrame(s.settings, ops, r.ledCount, t)
  {
    var ready := if |s.frame| == 0 then InitSnapshot(s, 1) else s;
    ready.(now := t, frame := EffectFrame(ready.settings, ops, ready.ledCount, t))
  }

  /** Both agree once the buffer exists. */
  lemma RenderAgreesOnceInitialised(s: Snapshot, t: U32, ops: FloatOps)
    requires |s.frame| != 0
    ensures RenderAsWritten(s, t, ops) == Render(s, t, ops)
  {
  }

  /** The first frame, rendered before wled_init, is rendered at time 0 whatever
      time it is asked for: with fill_blink at speed 128 (a cycle of 882 ms) the
      frame at 882 ms shows the dimmed primary colour of the first phase, where
      the off phase, black, is due. */
  lemma RenderAsWrittenIgnoresTime(ops: FloatOps)
    ensures var s := Initial.(settings := DefaultSettings.(effect := 1));
      RenderAsWritten(s, 882, ops).frame == [128, 85, 0] && Render(s, 882, ops).frame == [0, 0, 0]
  {
    var st := DefaultSettings.(effect := 1);
    assert SoftwareEngine.BlinkInterval(128) == 882;
    assert SoftwareEngine.BlinkOn(128, 0) && !SoftwareEngine.BlinkOn(128, 882);
    assert ApplyBrightness(Rgb(255, 170, 0), 128) == Rgb(128, 85, 0);
    var lit := PixelFrame(1, Pixels(st, ops, 1, 0));
    var dark := PixelFrame(1, Pixels(st, ops, 1, 882));
    assert lit[0] == 128 && lit[1] == 85 && lit[2] == 0;
    assert dark[0] == 0 && dark[1] == 0 && dark[2] == 0;
    assert lit == [128, 85, 0];
    assert dark == [0, 0, 0];
  }

  // ---------------------------------------------------------------------------
  // The engine

  class Bridge {
    var ledCount: nat
    var frame: array<Byte>
    var power: bool
    var brightness: Byte
    var effect: Byte
    var speed: Byte
    var intensity: Byte
    var palette: Byte
    var custom1: Byte
    var custom2: Byte
    var primary: Rgb
    var secondary: Rgb
    var tertiary: Rgb
    var now: U32
    var lastError: string
    const ops: FloatOps

    ghost predicate Valid()
      reads this
    {
      ledCount <= 100000 && frame.Length == 3 * ledCount
    }

    function Current(): Settings
      reads this
    {
      Settings(power, brightness, effect, speed, intensity, palette, custom1, custom2, primary, secondary, tertiary)
    }

    function State(): Snapshot
      reads this, frame
    {
      Snapshot(ledCount, frame[..], Current(), now, lastError)
    }

    constructor(ops: FloatOps)
      ensures Valid() && State() == Initial && this.ops == ops
    {
      ledCount := 0;
      frame := new Byte[0];
      power, brightness, effect, speed, intensity := true, 128, 0, 128, 128;
      palette, custom1, custom2 := 0, 0, 0;
      primary, secondary, tertiary := Rgb(255, 170, 0), Black, Black;
      now := 0;
      lastError := "";
      this.ops := ops;
    }

    /** wled_init */
    method Init(requested: int)
      modifies this
      ensures Valid() && fresh(frame)
      ensures State() == InitSnapshot(old(State()), requested)
    {
      var safe := Max(1, Min(requested, 100000));
      ledCount := safe;
      frame := new Byte[safe * 3](_ => 0);
      now := 0;
      lastError := "";
      assert frame[..] == Zeros(3 * safe);
    }

    /** wled_json_command; the argument is the C string, or None for a null
        pointer. */
    method JsonCommand(json: Option<string>)
      modifies this
      ensures frame == old(frame)
      ensures State() == CommandSnapshot(old(State()), json)
    {
      if json.None? {
        lastError := NullCommandError;
        return;
      }
      lastError := "";
      var next := ParseCommand(Current(), json.value);
      ghost var cleared := State();
      SetSettings(next);
      assert State() == cleared.(settings := next);
    }

    /** Stores the settings a command produced. */
    method SetSettings(next: Settings)
      modifies this`power, this`brightness, this`effect, this`speed, this`intensity, this`palette
      modifies this`custom1, this`custom2, this`primary, this`secondary, this`tertiary
      ensures Current() == next
    {
      power := next.power;
      brightness := next.brightness;
      effect := next.effect;
      speed := next.speed;
      intensity := next.intensity;
      palette := next.palette;
      custom1 := next.custom1;
      custom2 := next.custom2;
      primary := next.primary;
      secondary := next.secondary;
      tertiary := next.tertiary;
    }

    /** The field updates of wled_json_command, one key after the other. */
    static method ParseCommand(st: Settings, text: string) returns (r: Settings)
      ensures r == Command(st, text)
    {
      r := st;
      var on := ExtractBool(text, "on");
      if on.Some? {
        r := r.(power := on.value);
      }
      var b := ReadByteField(text, "bri", r.brightness);
      r := r.(brightness := b);
      b := ReadByteField(text, "fx", r.effect);
      r := r.(effect := b);
      b := ReadByteField(text, "sx", r.speed);
      r := r.(speed := b);
      b := ReadByteField(text, "ix", r.intensity);
      r := r.(intensity := b);
      b := ReadByteField(text, "pal", r.palette);
      r := r.(palette := b);
      b := ReadByteField(text, "c1", r.custom1);
      r := r.(custom1 := b);
      b := ReadByteField(text, "c2", r.custom2);
      r := r.(custom2 := b);
      var c := ReadColorField(text, 0, r.primary);
      r := r.(primary := c);
      c := ReadColorField(text, 1, r.secondary);
      r := r.(secondary := c);
      c := ReadColorField(text, 2, r.tertiary);
      r := r.(tertiary := c);
    }

    /** One `if (extract_int(json, key, v)) field = clamp_u8(v)` of wled_json_command. */
    static method ReadByteField(json: string, key: string, current: Byte) returns (r: Byte)
      ensures r == ByteField(json, key, current)
    {
      var v := ExtractInt(json, key);
      r := if v.Some? then ClampU8(v.value) else current;
    }

    /** One `if (extract_color_slot(json, slot, c)) field = c` of wled_json_command. */
    static method ReadColorField(json: string, slot: nat, current: Rgb) returns (r: Rgb)
      ensures r == ColorField(json, slot, current)
    {
      var c := ExtractColorSlot(json, slot);
      r := if c.Some? then c.value else current;
    }

    /** wled_render_frame, in its own order: the time is stored, an empty
        buffer is then initialised (which sets the time back to 0), and the
        buffer is filled and returned. Once a buffer exists this is Render. */
    method RenderFrame(t: U32) returns (out: array<Byte>)
      requires Valid()
      modifies this, frame
      ensures Valid() && out == frame
      ensures State() == RenderAsWritten(old(State()), t, ops)
      ensures old(frame.Length) != 0 ==> State() == Render(old(State()), t, ops)
    {
      ghost var before := State();
      now := t;
      if frame.Length == 0 {
        Init(1);
      }
      RenderEffect();
      out := frame;
      if |before.frame| != 0 {
        RenderAgreesOnceInitialised(before, t, ops);
      }
    }

    /** wled_get_buffer_size */
    function GetBufferSize(): (r: nat)
      reads this
      requires Valid()
      ensures r == 3 * ledCount
    {
      frame.Length
    }

    /** wled_get_last_error */
    function GetLastError(): string
      reads this
    {
      lastError
    }

    /** render_effect */
    method RenderEffect()
      requires Valid()
      modifies frame
      ensures frame[..] == EffectFrame(Current(), ops, ledCount, now)
    {
      if !power {
        forall k | 0 <= k < frame.Length {
          frame[k] := 0;
        }
        assert frame[..] == Zeros(3 * ledCount);
        return;
      }
      match EffectOf(effect)
      case Solid =>
        FillPixels(Pixels(Current(), ops, ledCount, now));
      case Blink =>
        RenderBlink();
      case Breath =>
        FillPixels(Pixels(Current(), ops, ledCount, now));
      case Sparkle =>
        RenderSparkle();
      case Chase =>
        RenderChase();
      case Rainbow(_) =>
        FillPixels(Pixels(Current(), ops, ledCount, now));
      case Mapped =>
        FillPixels(Pixels(Current(), ops, ledCount, now));
    }

    /** The `for (i < led_count) set_pixel(i, ...)` loop of the effects. */
    method FillPixels(pixel: nat -> Rgb)
      requires Valid()
      modifies frame
      ensures frame[..] == PixelFrame(ledCount, pixel)
    {
      var i := 0;
      while i < ledCount
        invariant 0 <= i <= ledCount
        invariant forall k :: 0 <= k < 3 * i ==> frame[k] == Channel(pixel(k / 3), k % 3)
      {
        var c := pixel(i);
        frame[i * 3], frame[i * 3 + 1], frame[i * 3 + 2] := c.r, c.g, c.b;
        i := i + 1;
      }
      assert frame[..] == PixelFrame(ledCount, pixel);
    }

    /** set_pixel */
    method SetPixel(idx: int, c: Rgb)
      requires Valid()
      modifies frame
      ensures frame[..] == SetPixelBytes(old(frame[..]), ledCount, idx, c)
    {
      if idx < 0 || idx >= ledCount {
        return;
      }
      frame[idx * 3], frame[idx * 3 + 1], frame[idx * 3 + 2] := c.r, c.g, c.b;
    }

    /** fill_blink */
    method RenderBlink()
      requires Valid() && power && EffectOf(effect) == Blink
      modifies frame
      ensures frame[..] == EffectFrame(Current(), ops, ledCount, now)
    {
      var cycle := 120 + (255 - speed) * 6;
      var on := (now / cycle) % 2 == 0;
      var c := if on then ApplyBrightness(primary, brightness) else BlinkOff(Current(), ops);
      FillPixels(Uniform(c));
      PixelFrameAgree(ledCount, Uniform(c), Pixels(Current(), ops, ledCount, now));
    }

    /** fill_chase */
    method RenderChase()
      requires Valid() && power && EffectOf(effect) == Chase
      modifies frame
      ensures frame[..] == EffectFrame(Current(), ops, ledCount, now)
    {
      var st := Current();
      var n := ledCount;
      var t := now;
      var o := ops;
      FillPixels((i: nat) => ChaseColor(st, o, n, t, i));
      PixelFrameAgree(n, (i: nat) => ChaseColor(st, o, n, t, i), Pixels(st, o, n, t));
    }

    /** fill_sparkle: fill_solid, then the sparkles one after the other. */
    method RenderSparkle()
      requires Valid() && power && EffectOf(effect) == Sparkle
      modifies frame
      ensures frame[..] == EffectFrame(Current(), ops, ledCount, now)
    {
      var st := Current();
      var n := ledCount;
      var o := ops;
      // fill_solid: stage 0 is the solid colour of every LED
      FillPixels(SparkleStage(0, st, o, n, now));
      var sparkles := SoftwareEngine.SparkleCount(n, intensity);
      PaintSparkles(st, n, now, sparkles);
      SparkleEffectFrame(st, o, n, now);
    }

    /** The sparkle loop of fill_sparkle, for the settings st, the n LEDs and
        the time t the engine holds. */
    method PaintSparkles(st: Settings, n: nat, t: U32, sparkles: nat)
      requires Valid() && st == Current() && n == ledCount && t == now
      requires frame[..] == PixelFrame(n, SparkleStage(0, st, ops, n, t))
      modifies frame
      ensures frame[..] == PixelFrame(n, SparkleStage(sparkles, st, ops, n, t))
    {
      var factor := Max(1, 31 + TruncDiv(speed - 128, 4));
      var i := 0;
      while i < sparkles
        invariant 0 <= i <= sparkles
        invariant frame[..] == PixelFrame(n, SparkleStage(i, st, ops, n, t))
      {
        var seed := (i * 0x9E37_79B9 + now * factor) % 0x1_0000_0000;
        SparkleIndexOfSeed(i, speed, ledCount, now, factor, seed);
        var idx := HashNoise(seed) % Max(ledCount, 1);
        SetPixel(idx, SparkleColor(i, st, ops, t));
        SparkleStep(i, st, ops, n, t);
        i := i + 1;
      }
    }
  }
}
