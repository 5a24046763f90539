/**
 * The segment compositor (src/engine/segmentComposer.ts): resolves the segments
 * of a WLED JSON envelope against the strip, maps each physical LED of a segment
 * to a virtual pixel of a per-segment render (grouping, spacing, offset, reverse,
 * mirror), renders every visible segment with an engine and overlays the results
 * in segment order, later segments over earlier ones.
 */
module SegmentComposer {
  import opened Wrappers
  import opened JsValues
  import opened Arithmetic
  import opened Frames

  /** clampByte applied to Number(v): non-finite gives the fallback, everything
      else the nearest integer clamped into [0, 255]. */
  function ClampByte(n: Option<real>, fallback: Byte): (r: Byte)
    ensures n.None? ==> r == fallback
    ensures n.Some? && n.value < 0.5 ==> r == 0
    ensures n.Some? && n.value >= 254.5 ==> r == 255
    ensures n.Some? && 0.0 <= n.value <= 255.0 ==> n.value - 0.5 < r as real <= n.value + 0.5
  {
    match n
    case None => fallback
    case Some(x) => ToByte(Round(x))
  }

  /** clampNonNegative applied to Number(v). */
  function ClampNonNegative(n: Option<real>, fallback: nat): (r: nat)
    ensures n.None? ==> r == fallback
    ensures n.Some? && n.value >= 0.0 ==> n.value - 0.5 < r as real <= n.value + 0.5
  {
    match n
    case None => fallback
    case Some(x) => Max(0, Round(x))
  }

  /** Math.max(1, Math.round(ledCount)) */
  function SafeCount(ledCount: real): (r: nat)
    ensures r >= 1
    ensures ledCount >= 1.0 ==> ledCount - 0.5 < r as real <= ledCount + 0.5
  {
    Max(1, Round(ledCount))
  }

  /** asSegments: a non-empty `seg` array as is, a single segment object wrapped,
      otherwise one empty segment. */
  function AsSegments(command: JsValue): (r: seq<JsValue>)
    ensures |r| >= 1
    ensures Get(command, "seg").Arr? && |Get(command, "seg").items| > 0 ==> r == Get(command, "seg").items
    ensures Truthy(Get(command, "seg")) && !Get(command, "seg").Arr? ==> r == [Get(command, "seg")]
    ensures !Truthy(Get(command, "seg")) || Get(command, "seg") == Arr([]) ==> r == [Obj(map[])]
  {
    var seg := Get(command, "seg");
    if seg.Arr? && |seg.items| > 0 then seg.items
    else if Truthy(seg) && !seg.Arr? then [seg]
    else [Obj(map[])]
  }

  datatype SegmentPayload = SegmentPayload(
    fx: Byte, sx: Byte, ix: Byte, pal: Byte, c1: Byte, c2: Byte, col: seq<seq<Byte>>)

  /** A segment clamped to the strip. `on` holds the truthiness of `seg.on ?? true`,
      the only way the compositor reads it. */
  datatype ResolvedSegment = ResolvedSegment(
    index: nat, start: nat, stop: nat, length: nat, virtualLength: nat,
    on: bool, bri: Byte, ofs: nat, grp: Byte, spc: Byte, rev: bool, mi: bool,
    payload: SegmentPayload)

  /** Math.max(1, Math.ceil(length / Math.max(1, grp + spc))) */
  function VirtualLength(length: nat, grp: nat, spc: nat): (r: nat)
    ensures r >= 1
  {
    var cycle := Max(1, grp + spc);
    Max(1, (length + cycle - 1) / cycle)
  }

  /** The integer ceiling division used by VirtualLength is Math.ceil of the quotient. */
  lemma VirtualLengthIsCeil(length: nat, grp: nat, spc: nat)
    ensures VirtualLength(length, grp, spc) == Max(1, Ceil(length as real / Max(1, grp + spc) as real))
  {
    CeilOfQuotient(length, Max(1, grp + spc));
  }

  /** (n + c - 1) / c is the ceiling of n / c. */
  lemma CeilOfQuotient(n: nat, c: nat)
    requires c >= 1
    ensures Ceil(n as real / c as real) == (n + c - 1) / c
  {
    var q := (n + c - 1) / c;
    var x := n as real / c as real;
    assert (q - 1) * c < n <= q * c by {
      assert q * c <= n + c - 1 < q * c + c;
    }
    QuotientBetween(n, c, q - 1);
  }

  lemma QuotientBetween(n: int, c: nat, p: int)
    requires c >= 1 && p * c < n <= (p + 1) * c
    ensures p as real < n as real / c as real <= (p + 1) as real
  {
    var x, cr := n as real / c as real, c as real;
    assert x * cr == n as real;
    assert p as real * cr < n as real <= (p + 1) as real * cr;
  }

  /** What a well-formed resolved segment looks like on a strip of n LEDs. */
  ghost predicate WellFormed(seg: ResolvedSegment, n: nat)
  {
    seg.start < seg.stop <= n
    && seg.length == seg.stop - seg.start
    && seg.grp >= 1
    && seg.virtualLength == VirtualLength(seg.length, seg.grp, seg.spc)
    && seg.ofs < seg.virtualLength
  }

  const DefaultColors: seq<seq<Byte>> := [[255, 170, 0], [0, 0, 0], [0, 0, 0]]

  /** One entry of `col`: an array sliced to three channels and clamped, or the default. */
  function ColorSlot(col: JsValue, i: nat, default: seq<Byte>): (r: seq<Byte>)
    ensures At(col, i).Arr? ==> |r| == Min(3, |At(col, i).items|)
    ensures !At(col, i).Arr? ==> r == default
  {
    var entry := At(col, i);
    if entry.Arr? then
      var channels := entry.items[..Min(3, |entry.items|)];
      seq(|channels|, k requires 0 <= k < |channels| => ClampByte(ToNumber(channels[k]), 0))
    else default
  }

  function SegmentColors(seg: JsValue): (r: seq<seq<Byte>>)
    ensures |r| == 3
    ensures !Get(seg, "col").Arr? ==> r == DefaultColors
  {
    var col := Get(seg, "col");
    if col.Arr? then
      [ColorSlot(col, 0, DefaultColors[0]), ColorSlot(col, 1, DefaultColors[1]), ColorSlot(col, 2, DefaultColors[2])]
    else DefaultColors
  }

  /** A numeric property read through Number(). */
  function NumberAt(seg: JsValue, key: string): Option<real> { ToNumber(Get(seg, key)) }

  function SegmentStart(seg: JsValue, n: nat): (r: nat)
    requires n >= 1
    ensures r < n
  {
    Max(0, Min(n - 1, ClampNonNegative(NumberAt(seg, "start"), 0)))
  }

  function SegmentStop(seg: JsValue, n: nat): (r: nat)
    requires n >= 1
    ensures SegmentStart(seg, n) < r <= n
  {
    Max(SegmentStart(seg, n) + 1, Min(n, ClampNonNegative(NumberAt(seg, "stop"), n)))
  }

  function SegmentGrouping(seg: JsValue): (r: Byte)
    ensures r >= 1
  {
    Max(1, ClampByte(NumberAt(seg, "grp"), 1))
  }

  function SegmentPayloadOf(seg: JsValue): SegmentPayload
  {
    SegmentPayload(
      ClampByte(NumberAt(seg, "fx"), 8),
      ClampByte(NumberAt(seg, "sx"), 128),
      ClampByte(NumberAt(seg, "ix"), 128),
      ClampByte(NumberAt(seg, "pal"), 0),
      ClampByte(NumberAt(seg, "c1"), 0),
      ClampByte(NumberAt(seg, "c2"), 0),
      SegmentColors(seg))
  }

  /** The body of the normalizeSegments loop for one source segment. */
  function ResolveSegment(seg: JsValue, index: nat, n: nat): ResolvedSegment
    requires n >= 1
  {
    var start := SegmentStart(seg, n);
    var stop := SegmentStop(seg, n);
    var grp := SegmentGrouping(seg);
    var spc := ClampByte(NumberAt(seg, "spc"), 0);
    var virtualLength := VirtualLength(stop - start, grp, spc);
    ResolvedSegment(
      index, start, stop, stop - start, virtualLength,
      Truthy(OrElse(Get(seg, "on"), Bool(true))),
      ClampByte(NumberAt(seg, "bri"), 125),
      ClampNonNegative(NumberAt(seg, "ofs"), 0) % virtualLength,
      grp, spc, Truthy(Get(seg, "rev")), Truthy(Get(seg, "mi")),
      SegmentPayloadOf(seg))
  }

  /** Every resolved segment lies inside the strip with a consistent virtual length
      and offset. */
  lemma ResolveSegmentWellFormed(seg: JsValue, index: nat, n: nat)
    requires n >= 1
    ensures WellFormed(ResolveSegment(seg, index, n), n) && ResolveSegment(seg, index, n).index == index
  {
  }

  /** `source[index] ?? {}` */
  function SourceSegment(source: seq<JsValue>, i: nat): JsValue
    requires i < |source|
  {
    OrElse(source[i], Obj(map[]))
  }

  /** The segments resolved from a source list, in order. */
  function ResolveAll(source: seq<JsValue>, n: nat): (r: seq<ResolvedSegment>)
    requires n >= 1
    ensures |r| == |source|
  {
    seq(|source|, i requires 0 <= i < |source| => ResolveSegment(SourceSegment(source, i), i, n))
  }

  /** What normalizeSegments returns on a strip of n LEDs. */
  function ResolvedSegments(command: JsValue, n: nat): (r: seq<ResolvedSegment>)
    requires n >= 1
    ensures |r| == |AsSegments(command)| >= 1
  {
    ResolveAll(AsSegments(command), n)
  }

  lemma ResolvedSegmentsWellFormed(command: JsValue, n: nat)
    requires n >= 1
    ensures forall i :: 0 <= i < |ResolvedSegments(command, n)| ==>
      WellFormed(ResolvedSegments(command, n)[i], n) && ResolvedSegments(command, n)[i].index == i
    ensures Shaped(ResolvedSegments(command, n))
  {
    var source := AsSegments(command);
    forall i | 0 <= i < |source|
      ensures WellFormed(ResolvedSegments(command, n)[i], n) && ResolvedSegments(command, n)[i].index == i
    {
      ResolveSegmentWellFormed(SourceSegment(source, i), i, n);
    }
  }

  lemma ResolveAllPrefix(source: seq<JsValue>, n: nat, index: nat)
    requires n >= 1 && index < |source|
    ensures ResolveAll(source, n)[..index + 1] == ResolveAll(source, n)[..index] + [ResolveSegment(SourceSegment(source, index), index, n)]
  {
  }

  method NormalizeSegments(command: JsValue, ledCount: real) returns (resolved: seq<ResolvedSegment>)
    ensures resolved == ResolvedSegments(command, SafeCount(ledCount))
  {
    var safeCount := SafeCount(ledCount);
    var source := AsSegments(command);
    resolved := [];
    var index := 0;
    while index < |source|
      invariant 0 <= index <= |source|
      invariant resolved == ResolveAll(source, safeCount)[..index]
    {
      ResolveAllPrefix(source, safeCount, index);
      resolved := resolved + [ResolveSegment(SourceSegment(source, index), index, safeCount)];
      index := index + 1;
    }
    assert ResolveAll(source, safeCount)[..index] == ResolveAll(source, safeCount);
  }

  /** A command without segments (its `seg` absent, falsy or an empty array)
      resolves to one segment covering the whole strip, on, at brightness 125,
      running effect 8. */
  lemma DefaultSegmentCoversStrip(command: JsValue, n: nat)
    requires n >= 1
    requires !Truthy(Get(command, "seg")) || Get(command, "seg") == Arr([])
    ensures var r := ResolvedSegments(command, n);
      |r| == 1 && r[0].start == 0 && r[0].stop == n && r[0].on && r[0].bri == 125
      && r[0].payload.fx == 8 && r[0].payload.col == DefaultColors
  {
    assert AsSegments(command) == [Obj(map[])];
    DefaultSegmentResolved(n);
  }

  lemma DefaultSegmentResolved(n: nat)
    requires n >= 1
    ensures var r := ResolveAll([Obj(map[])], n);
      |r| == 1 && r[0].start == 0 && r[0].stop == n && r[0].on && r[0].bri == 125
      && r[0].payload.fx == 8 && r[0].payload.col == DefaultColors
  {
    var seg := SourceSegment([Obj(map[])], 0);
    assert seg == Obj(map[]);
    assert Get(seg, "stop") == Undefined;
  }

  /** A segment whose requested integer bounds already lie inside the strip keeps
      them exactly. */
  lemma InRangeBoundsKept(seg: JsValue, index: nat, n: nat, s: nat, e: nat)
    requires n >= 1 && s < e <= n
    requires Get(seg, "start") == Num(s as real) && Get(seg, "stop") == Num(e as real)
    ensures ResolveSegment(seg, index, n).start == s && ResolveSegment(seg, index, n).stop == e
  {
    assert Round(s as real) == s;
    assert Round(e as real) == e;
  }

  /** A stop beyond the strip is cut back to the strip's end, and a stop at or
      before the start leaves a single LED. */
  lemma StopClamped(seg: JsValue, index: nat, n: nat, s: nat, e: int)
    requires n >= 1 && s < n
    requires Get(seg, "start") == Num(s as real) && Get(seg, "stop") == Num(e as real)
    ensures e >= n ==> ResolveSegment(seg, index, n).stop == n
    ensures e <= s ==> ResolveSegment(seg, index, n).stop == s + 1
  {
    assert Round(s as real) == s;
    assert Round(e as real) == e;
  }

  // ---------------------------------------------------------------------------
  // Segment maps

  /** The fields buildSegmentMap reads. */
  datatype MapShape = MapShape(
    length: nat, grp: nat, spc: nat, ofs: nat, virtualLength: nat, rev: bool, mi: bool)

  function ShapeOf(seg: ResolvedSegment): MapShape
  {
    MapShape(seg.length, seg.grp, seg.spc, seg.ofs, seg.virtualLength, seg.rev, seg.mi)
  }

  /** The position of a local LED after reversing and mirroring. */
  function MappedIndex(sh: MapShape, local: nat): (r: nat)
    requires local < sh.length
    ensures r < sh.length
  {
    var orderIndex := if sh.rev then sh.length - 1 - local else local;
    if sh.mi && orderIndex > (sh.length - 1) / 2 then sh.length - 1 - orderIndex else orderIndex
  }

  /** localToVirtual[local]: -1 for a spacing LED, else the group number shifted by
      the offset, wrapped into the virtual length. */
  function VirtualIndexAt(sh: MapShape, local: nat): (r: int)
    requires sh.grp >= 1 && local < sh.length
    ensures -1 <= r < Max(1, sh.virtualLength)
  {
    var cycle := sh.grp + sh.spc;
    var mapped := MappedIndex(sh, local);
    if mapped % cycle >= sh.grp then -1
    else (mapped / cycle + sh.ofs) % Max(1, sh.virtualLength)
  }

  datatype SegmentMap = SegmentMap(localToVirtual: seq<int>, virtualLength: nat)

  function MapOf(sh: MapShape): (m: SegmentMap)
    requires sh.grp >= 1
    ensures |m.localToVirtual| == sh.length && m.virtualLength >= 1
  {
    SegmentMap(seq(sh.length, local requires 0 <= local < sh.length => VirtualIndexAt(sh, local)),
               Max(1, sh.virtualLength))
  }

  /** buildSegmentMap: fills a -1 array, then visits every local LED. */
  method BuildSegmentMap(segment: ResolvedSegment) returns (m: SegmentMap)
    requires segment.grp >= 1
    ensures m == MapOf(ShapeOf(segment))
    ensures forall i :: 0 <= i < |m.localToVirtual| ==> -1 <= m.localToVirtual[i] < m.virtualLength
  {
    var sh := ShapeOf(segment);
    var localToVirtual := new int[segment.length](_ => -1);
    var cycle := segment.grp + segment.spc;
    var vlen := Max(1, segment.virtualLength);
    var local := 0;
    while local < segment.length
      invariant 0 <= local <= segment.length
      invariant forall i :: 0 <= i < local ==> localToVirtual[i] == VirtualIndexAt(sh, i)
    {
      var orderIndex := if segment.rev then segment.length - 1 - local else local;
      var mapped := orderIndex;
      if segment.mi {
        var half := (segment.length - 1) / 2;
        mapped := if orderIndex <= half then orderIndex else segment.length - 1 - orderIndex;
      }
      var phase := mapped % cycle;
      if phase >= segment.grp {
        localToVirtual[local] := -1;
      } else {
        var group := mapped / cycle;
        localToVirtual[local] := (group + segment.ofs) % vlen;
      }
      local := local + 1;
    }
    m := SegmentMap(localToVirtual[..], vlen);
  }

  /** Grouping 2, spacing 1 over nine LEDs: two lit LEDs per virtual pixel, then a gap. */
  lemma GroupingExample()
    ensures MapOf(MapShape(9, 2, 1, 0, 3, false, false)).localToVirtual == [0, 0, -1, 1, 1, -1, 2, 2, -1]
  {
    var sh := MapShape(9, 2, 1, 0, 3, false, false);
    var m := MapOf(sh).localToVirtual;
    assert m[0] == 0 && m[1] == 0 && m[2] == -1 && m[3] == 1 && m[4] == 1;
    assert m[5] == -1 && m[6] == 2 && m[7] == 2 && m[8] == -1;
  }

  /** With no grouping, spacing, offset, reversal or mirroring the map is the identity. */
  lemma PlainMapIsIdentity(sh: MapShape, local: nat)
    requires sh.grp == 1 && sh.spc == 0 && sh.ofs == 0 && !sh.rev && !sh.mi
    requires sh.virtualLength == sh.length && local < sh.length
    ensures VirtualIndexAt(sh, local) == local
  {
  }

  /** Reversal reads the unreversed map from the other end. */
  lemma ReverseReadsFromOtherEnd(sh: MapShape, local: nat)
    requires sh.grp >= 1 && local < sh.length && !sh.rev
    ensures VirtualIndexAt(sh.(rev := true), local) == VirtualIndexAt(sh, sh.length - 1 - local)
  {
  }

  /** Mirroring makes the map symmetric about the middle of the segment. */
  lemma MirrorIsSymmetric(sh: MapShape, local: nat)
    requires sh.grp >= 1 && local < sh.length && sh.mi
    ensures VirtualIndexAt(sh, local) == VirtualIndexAt(sh, sh.length - 1 - local)
  {
    assert MappedIndex(sh, local) == MappedIndex(sh, sh.length - 1 - local);
  }

  /** Without mirroring every virtual pixel of the per-segment render is shown by
      at least one LED of the segment. */
  lemma EveryVirtualPixelShown(sh: MapShape, v: nat)
    requires sh.grp >= 1 && !sh.mi
    requires sh.virtualLength == VirtualLength(sh.length, sh.grp, sh.spc) && sh.ofs < sh.virtualLength
    requires sh.length >= 1 && v < sh.virtualLength
    ensures exists local :: 0 <= local < sh.length && VirtualIndexAt(sh, local) == v
  {
    var cycle := sh.grp + sh.spc;
    var g := UndoOffset(v, sh.ofs, sh.virtualLength);
    GroupStartInside(g, sh.length, cycle);
    var mapped := g * cycle;
    DivModUnique(mapped, cycle, g, 0);
    var local := if sh.rev then sh.length - 1 - mapped else mapped;
    assert MappedIndex(sh, local) == mapped;
    assert VirtualIndexAt(sh, local) == v;
  }

  /** The group whose offset position is virtual pixel v. */
  lemma UndoOffset(v: nat, ofs: nat, vlen: nat) returns (g: nat)
    requires v < vlen && ofs < vlen
    ensures g < vlen && (g + ofs) % vlen == v
  {
    if v >= ofs {
      g := v - ofs;
      DivModUnique(g + ofs, vlen, 0, v);
    } else {
      g := v + vlen - ofs;
      DivModUnique(g + ofs, vlen, 1, v);
    }
  }

  /** The first LED of every group below the virtual length lies inside the segment. */
  lemma GroupStartInside(g: nat, length: nat, cycle: nat)
    requires cycle >= 1 && length >= 1 && g < VirtualLength(length, cycle, 0)
    ensures g * cycle < length
  {
    var vlen := (length + cycle - 1) / cycle;
    assert VirtualLength(length, cycle, 0) == Max(1, vlen);
    DivModUnique(length + cycle - 1, cycle, vlen, (length + cycle - 1) % cycle);
    MulLe(g + 1, Max(1, vlen), cycle);
  }

  // ---------------------------------------------------------------------------
  // Compositing

  /** The engine interface the compositor drives (init, jsonCommand, renderFrame),
      as state-passing functions over the engine's state. The command is passed as
      the parsed value of the JSON text the compositor builds. */
  datatype Engine<!S> = Engine(
    init: (S, int) -> S,
    command: (S, JsValue) -> S,
    render: (S, nat) -> (S, seq<Byte>))

  /** Math.round(global * segment / 255), clamped. */
  function EffectiveBrightness(global: Byte, segment: Byte): (r: Byte)
  {
    ToByte(Round((global * segment) as real / 255.0))
  }

  /** Scaling by the segment brightness never brightens beyond either factor, and a
      full-scale factor leaves the other unchanged. */
  lemma EffectiveBrightnessBounds(global: Byte, segment: Byte)
    ensures EffectiveBrightness(global, segment) <= global
    ensures EffectiveBrightness(global, segment) <= segment
    ensures EffectiveBrightness(255, segment) == segment
    ensures EffectiveBrightness(global, 255) == global
  {
    var p := global * segment;
    assert p <= 255 * global && p <= 255 * segment by {
      MulLe(segment, 255, global);
      MulLe(global, 255, segment);
    }
    assert (p as real) / 255.0 <= global as real;
    assert (p as real) / 255.0 <= segment as real;
    assert (255 * segment) as real / 255.0 == segment as real;
    assert (global * 255) as real / 255.0 == global as real;
  }

  function ColorValue(c: seq<Byte>): JsValue
  {
    Arr(seq(|c|, i requires 0 <= i < |c| => Num(c[i] as real)))
  }

  /** makeSegmentCommand: the envelope sent to the engine for one segment. */
  function MakeSegmentCommand(segment: ResolvedSegment, globalBrightness: Byte): (r: JsValue)
    ensures Get(r, "on") == Bool(true)
    ensures Get(r, "bri") == Num(EffectiveBrightness(globalBrightness, segment.bri) as real)
    ensures Get(Get(r, "seg"), "fx") == Num(segment.payload.fx as real)
  {
    var p := segment.payload;
    var col := Arr(seq(|p.col|, i requires 0 <= i < |p.col| => ColorValue(p.col[i])));
    Obj(map[
      "on" := Bool(true),
      "bri" := Num(EffectiveBrightness(globalBrightness, segment.bri) as real),
      "seg" := Obj(map[
        "fx" := Num(p.fx as real), "sx" := Num(p.sx as real), "ix" := Num(p.ix as real),
        "pal" := Num(p.pal as real), "c1" := Num(p.c1 as real), "c2" := Num(p.c2 as real),
        "col" := col])])
  }

  predicate Visible(seg: ResolvedSegment) { seg.on && seg.bri > 0 }

  /** One segment's turn with the engine: nothing for an invisible segment, else
      init with the virtual length, send the segment command, render. */
  function RenderSegment<S>(engine: Engine<S>, s: S, seg: ResolvedSegment, globalBrightness: Byte, t: nat): (S, seq<Byte>)
    requires seg.grp >= 1
  {
    if !Visible(seg) then (s, [])
    else
      var s1 := engine.init(s, MapOf(ShapeOf(seg)).virtualLength);
      var s2 := engine.command(s1, MakeSegmentCommand(seg, globalBrightness));
      engine.render(s2, t)
  }

  /** The engine's state after, and the frames it rendered for, a run of segments. */
  function RenderAll<S>(engine: Engine<S>, s0: S, segs: seq<ResolvedSegment>, globalBrightness: Byte, t: nat)
    : (r: (S, seq<seq<Byte>>))
    requires forall i :: 0 <= i < |segs| ==> segs[i].grp >= 1
    ensures |r.1| == |segs|
    decreases |segs|
  {
    if segs == [] then (s0, [])
    else
      var prev := RenderAll(engine, s0, segs[..|segs| - 1], globalBrightness, t);
      var next := RenderSegment(engine, prev.0, segs[|segs| - 1], globalBrightness, t);
      (next.0, prev.1 + [next.1])
  }

  /** The byte at offset `off` of a segment's span in the composited frame. */
  function SegmentByte(seg: ResolvedSegment, segmentFrame: seq<Byte>, off: nat): Byte
    requires seg.grp >= 1 && off < 3 * seg.length
  {
    if !Visible(seg) then 0
    else
      var v := VirtualIndexAt(ShapeOf(seg), off / 3);
      if v < 0 then 0
      else
        var source := v * 3 + off % 3;
        if source < |segmentFrame| then segmentFrame[source] else 0
  }

  predicate Covers(seg: ResolvedSegment, p: int) { seg.start <= p < seg.stop }

  /** A frame with one segment's span written over it. */
  function WriteSegment(frame: seq<Byte>, seg: ResolvedSegment, segmentFrame: seq<Byte>): (r: seq<Byte>)
    requires seg.grp >= 1 && seg.length == seg.stop - seg.start
    ensures |r| == |frame|
  {
    seq(|frame|, k requires 0 <= k < |frame| => WrittenByte(frame, seg, segmentFrame, k))
  }

  function WrittenByte(frame: seq<Byte>, seg: ResolvedSegment, segmentFrame: seq<Byte>, k: nat): Byte
    requires seg.grp >= 1 && seg.length == seg.stop - seg.start && k < |frame|
  {
    if seg.start * 3 <= k < seg.stop * 3 then SegmentByte(seg, segmentFrame, k - seg.start * 3) else frame[k]
  }

  ghost predicate Shaped(segs: seq<ResolvedSegment>)
  {
    forall i :: 0 <= i < |segs| ==> segs[i].grp >= 1 && segs[i].length == segs[i].stop - segs[i].start
  }

  /** Every segment written over `base` in order. */
  function Paint(base: seq<Byte>, segs: seq<ResolvedSegment>, frames: seq<seq<Byte>>): (r: seq<Byte>)
    requires Shaped(segs) && |frames| == |segs|
    ensures |r| == |base|
    decreases |segs|
  {
    if segs == [] then base
    else WriteSegment(Paint(base, segs[..|segs| - 1], frames[..|frames| - 1]), segs[|segs| - 1], frames[|frames| - 1])
  }

  /** The last segment that covers LED p, if any. */
  function LastCover(segs: seq<ResolvedSegment>, p: int): (r: Option<nat>)
    ensures r.Some? ==> r.value < |segs| && Covers(segs[r.value], p)
    ensures r.Some? ==> forall j :: r.value < j < |segs| ==> !Covers(segs[j], p)
    ensures r.None? ==> forall j :: 0 <= j < |segs| ==> !Covers(segs[j], p)
    decreases |segs|
  {
    if segs == [] then None
    else if Covers(segs[|segs| - 1], p) then Some(|segs| - 1)
    else LastCover(segs[..|segs| - 1], p)
  }

  /** Byte k belongs to LED k / 3. */
  lemma CoversByte(seg: ResolvedSegment, k: nat)
    ensures Covers(seg, k / 3) <==> seg.start * 3 <= k < seg.stop * 3
  {
  }

  /** Later segments win: each byte of the painted frame comes from the last segment
      covering its LED, or from the base frame when no segment covers it. */
  lemma {:induction false} PaintLastWriteWins(base: seq<Byte>, segs: seq<ResolvedSegment>, frames: seq<seq<Byte>>, k: nat)
    requires Shaped(segs) && |frames| == |segs| && k < |base|
    ensures Paint(base, segs, frames)[k] ==
      match LastCover(segs, k / 3)
      case None => base[k]
      case Some(j) => SegmentByte(segs[j], frames[j], k - segs[j].start * 3)
    decreases |segs|
  {
    if segs != [] {
      var n := |segs|;
      var last, front, frontFrames := segs[n - 1], segs[..n - 1], frames[..n - 1];
      assert Shaped(front);
      var prev := Paint(base, front, frontFrames);
      assert Paint(base, segs, frames)[k] == WrittenByte(prev, last, frames[n - 1], k);
      PaintLastWriteWins(base, front, frontFrames, k);
      CoversByte(last, k);
      if !Covers(last, k / 3) {
        assert LastCover(segs, k / 3) == LastCover(front, k / 3);
        match LastCover(front, k / 3)
        case None =>
        case Some(j) => assert segs[j] == front[j] && frames[j] == frontFrames[j];
      }
    }
  }

  /** `command.on ?? true`, read by truthiness. */
  predicate GlobalOn(command: JsValue) { Truthy(OrElse(Get(command, "on"), Bool(true))) }

  function GlobalBrightness(command: JsValue): Byte { ClampByte(ToNumber(Get(command, "bri")), 255) }

  /** The engine's state after rendering, and the frame composited from, a run of
      resolved segments on a strip of n LEDs. */
  function ComposeSegments<S>(engine: Engine<S>, s0: S, segs: seq<ResolvedSegment>, g: Byte, n: nat, t: nat)
    : (r: (S, seq<Byte>))
    requires Shaped(segs)
    ensures |r.1| == 3 * n
  {
    var run := RenderAll(engine, s0, segs, g, t);
    (run.0, Paint(Zeros(3 * n), segs, run.1))
  }

  /** What renderCompositedFrame returns, and the engine's state afterwards. */
  function ComposedFrame<S>(engine: Engine<S>, s0: S, command: JsValue, ledCount: real, t: nat): (r: (S, seq<Byte>))
    ensures |r.1| == 3 * SafeCount(ledCount)
  {
    var n := SafeCount(ledCount);
    var g := GlobalBrightness(command);
    if !GlobalOn(command) || g == 0 then (s0, Zeros(3 * n))
    else
      ResolvedSegmentsWellFormed(command, n);
      ComposeSegments(engine, s0, ResolvedSegments(command, n), g, n, t)
  }

  /** A global power-off or zero brightness gives an all-black frame without
      touching the engine. */
  lemma GlobalOffIsBlack<S>(engine: Engine<S>, s0: S, command: JsValue, ledCount: real, t: nat)
    requires !GlobalOn(command) || GlobalBrightness(command) == 0
    ensures ComposedFrame(engine, s0, command, ledCount, t).0 == s0
    ensures forall k :: 0 <= k < |ComposedFrame(engine, s0, command, ledCount, t).1| ==>
      ComposedFrame(engine, s0, command, ledCount, t).1[k] == 0
  {
  }

  /** The composited frame byte by byte: an LED no segment covers is black; an LED
      whose last covering segment is invisible (off or zero brightness) is black;
      otherwise it shows that segment's render at its virtual pixel. */
  lemma ComposedPixel<S>(engine: Engine<S>, s0: S, segs: seq<ResolvedSegment>, g: Byte, n: nat, t: nat, k: nat)
    requires Shaped(segs) && k < 3 * n
    ensures var frames := RenderAll(engine, s0, segs, g, t).1;
      var frame := ComposeSegments(engine, s0, segs, g, n, t).1;
      match LastCover(segs, k / 3)
      case None => frame[k] == 0
      case Some(j) =>
        (!Visible(segs[j]) ==> frame[k] == 0)
        && frame[k] == SegmentByte(segs[j], frames[j], k - segs[j].start * 3)
  {
    PaintLastWriteWins(Zeros(3 * n), segs, RenderAll(engine, s0, segs, g, t).1, k);
  }

  // ---------------------------------------------------------------------------
  // The map cache and the compositing loop

  /** The cache key: the fields a segment map depends on. The source writes them as
      a colon-separated string of integers, which identifies the same tuple. */
  datatype MapKey = MapKey(start: nat, stop: nat, ofs: nat, grp: nat, spc: nat, rev: bool, mi: bool)

  function KeyOf(seg: ResolvedSegment): MapKey
  {
    MapKey(seg.start, seg.stop, seg.ofs, seg.grp, seg.spc, seg.rev, seg.mi)
  }

  function ShapeOfKey(key: MapKey): MapShape
    requires key.start <= key.stop
  {
    var length := key.stop - key.start;
    MapShape(length, key.grp, key.spc, key.ofs, VirtualLength(length, key.grp, key.spc), key.rev, key.mi)
  }

  /** The caller-owned cache of segment maps, keyed by segment geometry. */
  class MapCache {
    var entries: map<MapKey, SegmentMap>

    /** Every cached map is the map its key describes. */
    ghost predicate Coherent()
      reads this
    {
      forall key :: key in entries ==>
        key.grp >= 1 && key.start <= key.stop && entries[key] == MapOf(ShapeOfKey(key))
    }

    constructor()
      ensures entries == map[] && Coherent()
    {
      entries := map[];
    }
  }

  /** A byte of the frame while the scatter loop of one segment has done `local` LEDs. */
  function LoopByte(before: seq<Byte>, seg: ResolvedSegment, segmentFrame: seq<Byte>, local: nat, j: nat): Byte
    requires seg.grp >= 1 && seg.length == seg.stop - seg.start && local <= seg.length && j < |before|
  {
    if seg.start * 3 <= j < (seg.start + local) * 3 then SegmentByte(seg, segmentFrame, j - seg.start * 3) else before[j]
  }

  /** The scatter loop: copies one visible segment's render into its span of the
      frame through the segment map. */
  method Scatter(frame: array<Byte>, segment: ResolvedSegment, m: SegmentMap, segmentFrame: seq<Byte>)
    requires segment.grp >= 1 && segment.length == segment.stop - segment.start
    requires segment.stop * 3 <= frame.Length && Visible(segment)
    requires m == MapOf(ShapeOf(segment))
    modifies frame
    ensures frame[..] == WriteSegment(old(frame[..]), segment, segmentFrame)
  {
    ghost var before := frame[..];
    var local := 0;
    while local < segment.length
      invariant 0 <= local <= segment.length
      invariant forall j :: 0 <= j < frame.Length ==>
        frame[j] == LoopByte(before, segment, segmentFrame, local, j)
    {
      var out := (segment.start + local) * 3;
      var virtualIndex := m.localToVirtual[local];
      if virtualIndex < 0 {
        frame[out], frame[out + 1], frame[out + 2] := 0, 0, 0;
      } else {
        var source := virtualIndex * 3;
        frame[out] := if source < |segmentFrame| then segmentFrame[source] else 0;
        frame[out + 1] := if source + 1 < |segmentFrame| then segmentFrame[source + 1] else 0;
        frame[out + 2] := if source + 2 < |segmentFrame| then segmentFrame[source + 2] else 0;
      }
      local := local + 1;
    }
    assert frame[..] == WriteSegment(before, segment, segmentFrame);
  }

  /** One iteration of the compositing loop: look the map up in the cache (building
      and storing it on a miss), then blank an invisible segment's span or render the
      segment and scatter it. */
  method CompositeSegment<S>(engine: Engine<S>, s: S, frame: array<Byte>, segment: ResolvedSegment,
                             globalBrightness: Byte, simulatedMillis: nat, cache: MapCache)
    returns (s': S, segmentFrame: seq<Byte>)
    requires WellFormed(segment, frame.Length / 3) && frame.Length % 3 == 0
    requires cache.Coherent()
    modifies frame, cache
    ensures cache.Coherent() && forall key :: key in old(cache.entries) ==> key in cache.entries
    ensures (s', segmentFrame) == RenderSegment(engine, s, segment, globalBrightness, simulatedMillis)
    ensures frame[..] == WriteSegment(old(frame[..]), segment, segmentFrame)
  {
    var key := KeyOf(segment);
    assert ShapeOfKey(key) == ShapeOf(segment);
    var m: SegmentMap;
    if key in cache.entries {
      m := cache.entries[key];
    } else {
      m := BuildSegmentMap(segment);
    }
    cache.entries := cache.entries[key := m];
    s', segmentFrame := s, [];
    if !segment.on || segment.bri <= 0 {
      ghost var before := frame[..];
      forall i | segment.start * 3 <= i < segment.stop * 3 {
        frame[i] := 0;
      }
      assert frame[..] == WriteSegment(before, segment, segmentFrame);
    } else {
      s' := engine.init(s', m.virtualLength);
      s' := engine.command(s', MakeSegmentCommand(segment, globalBrightness));
      var rendered := engine.render(s', simulatedMillis);
      s', segmentFrame := rendered.0, rendered.1;
      Scatter(frame, segment, m, segmentFrame);
    }
  }

  /** The loop of renderCompositedFrame over the resolved segments. */
  method CompositeAll<S>(engine: Engine<S>, s0: S, segments: seq<ResolvedSegment>, globalBrightness: Byte,
                         simulatedMillis: nat, frame: array<Byte>, cache: MapCache)
    returns (s: S)
    requires frame.Length % 3 == 0 && frame[..] == Zeros(frame.Length)
    requires forall i :: 0 <= i < |segments| ==> WellFormed(segments[i], frame.Length / 3)
    requires cache.Coherent()
    modifies frame, cache
    ensures Shaped(segments)
    ensures cache.Coherent() && forall key :: key in old(cache.entries) ==> key in cache.entries
    ensures (s, frame[..]) == ComposeSegments(engine, s0, segments, globalBrightness, frame.Length / 3, simulatedMillis)
  {
    ghost var zero := frame[..];
    ghost var frames: seq<seq<Byte>> := [];
    s := s0;
    var k := 0;
    while k < |segments|
      invariant 0 <= k <= |segments|
      invariant cache.Coherent()
      invariant forall key :: key in old(cache.entries) ==> key in cache.entries
      invariant (s, frames) == RenderAll(engine, s0, segments[..k], globalBrightness, simulatedMillis)
      invariant frame[..] == Paint(zero, segments[..k], frames)
    {
      var segmentFrame;
      s, segmentFrame := CompositeSegment(engine, s, frame, segments[k], globalBrightness, simulatedMillis, cache);
      assert segments[..k + 1][..k] == segments[..k];
      frames := frames + [segmentFrame];
      k := k + 1;
    }
    assert segments[..k] == segments;
  }

  /** renderCompositedFrame: builds the frame segment by segment, reusing cached maps. */
  method RenderCompositedFrame<S>(engine: Engine<S>, s0: S, command: JsValue, ledCount: real, simulatedMillis: nat, cache: MapCache)
    returns (frame: array<Byte>, s: S)
    requires Readable(command)
    requires cache.Coherent()
    modifies cache
    ensures fresh(frame) && cache.Coherent()
    ensures (s, frame[..]) == ComposedFrame(engine, s0, command, ledCount, simulatedMillis)
    ensures forall key :: key in old(cache.entries) ==> key in cache.entries
  {
    var safeCount := SafeCount(ledCount);
    frame := new Byte[safeCount * 3](_ => 0);
    s := s0;
    assert frame[..] == Zeros(3 * safeCount);
    var globalOn := GlobalOn(command);
    var globalBrightness := GlobalBrightness(command);
    if !globalOn || globalBrightness <= 0 {
      return;
    }
    assert Round(safeCount as real) == safeCount;
    var segments := NormalizeSegments(command, safeCount as real);
    ResolvedSegmentsWellFormed(command, safeCount);
    DivModUnique(safeCount * 3, 3, safeCount, 0);
    s := CompositeAll(engine, s0, segments, globalBrightness, simulatedMillis, frame, cache);
  }
}
