/**
 * Import sanitising (src/io/sanitize.ts): untrusted JSON — a WLED `/json/state`
 * envelope or a studio topology — is turned into the studio's own shapes, with
 * bytes clamped, bounds repaired, defaults filled in and a warning recorded for
 * every value that had to be dropped or changed.
 */
module Sanitize {
  import opened Wrappers
  import opened JsValues
  import Playlist
  import Arithmetic

  /** The warnings an import can produce. */
  datatype Warning =
    | InvalidSegOn
    | InvalidSegRev
    | InvalidSegMi
    | SegBounds
    | SegYBounds
    | InvalidSegCol
    | InvalidOn
    | EmptySeg
    | InvalidPlaylist
    | PlaylistWarning(w: Playlist.Warning)
    | InvalidMode
    | InvalidGaps

  function Message(w: Warning): string
  {
    match w
    case InvalidSegOn => "Ignored invalid seg.on payload; expected boolean"
    case InvalidSegRev => "Ignored invalid seg.rev payload; expected boolean"
    case InvalidSegMi => "Ignored invalid seg.mi payload; expected boolean"
    case SegBounds => "Adjusted invalid segment bounds where stop <= start"
    case SegYBounds => "Adjusted invalid segment Y bounds where stopY <= startY"
    case InvalidSegCol => "Ignored invalid seg.col payload; fallback color palette applied"
    case InvalidOn => "Invalid on field; expected boolean/0/1"
    case EmptySeg => "Empty seg array; fallback segment was applied"
    case InvalidPlaylist => "Invalid playlist field; expected object"
    case PlaylistWarning(p) => Playlist.Message(p)
    case InvalidMode => "Invalid topology mode; fallback to strip"
    case InvalidGaps => "Invalid topology gaps field; expected array"
  }

  datatype ImportResult<T> = ImportResult(data: T, warnings: seq<Warning>)

  // ---------------------------------------------------------------------------
  // Field clamps. Every property is read with Get, which is what
  // `(asObject(input) ?? {}).key` reads: the property of an object, and
  // undefined for anything that is not an object.

  /** clampByte: Number(value) rounded and clamped into [0, 255], or the fallback
      when that is not a finite number. */
  function ClampByte(value: JsValue, fallback: Byte): (r: Byte)
    ensures ToNumber(value).None? ==> r == fallback
    ensures ToNumber(value).Some? && ToNumber(value).value < 0.0 ==> r == 0
    ensures ToNumber(value).Some? && ToNumber(value).value > 255.0 ==> r == 255
    ensures ToNumber(value).Some? && 0.0 <= ToNumber(value).value <= 255.0 ==>
      ToNumber(value).value - 0.5 < r as real <= ToNumber(value).value + 0.5
  {
    match ToNumber(value)
    case None => fallback
    case Some(x) => Min(255, Max(0, Round(x)))
  }

  /** clampNonNegativeInt: Number(value) rounded and raised to at least 0, or
      undefined when that is not a finite number. */
  function ClampNonNegativeInt(value: JsValue): (r: Option<nat>)
    ensures r.None? <==> ToNumber(value).None?
    ensures r.Some? && ToNumber(value).value < 0.0 ==> r.value == 0
    ensures r.Some? && ToNumber(value).value >= 0.0 ==>
      ToNumber(value).value - 0.5 < r.value as real <= ToNumber(value).value + 0.5
  {
    match ToNumber(value)
    case None => None
    case Some(x) => Some(Max(0, Round(x)))
  }

  /** clampText: a string cut to at most maxLength characters; anything else is undefined. */
  function ClampText(value: JsValue, maxLength: nat): (r: Option<string>)
    ensures r.Some? <==> value.Str?
    ensures r.Some? ==> |r.value| == Min(|value.s|, maxLength) && r.value == value.s[..|r.value|]
  {
    if value.Str? then Some(value.s[..Min(|value.s|, maxLength)]) else None
  }

  /** `typeof v === "boolean" ? v : undefined` */
  function BoolOf(v: JsValue): (r: Option<bool>)
    ensures r.Some? <==> v.Bool?
    ensures r.Some? ==> r.value == v.b
  {
    if v.Bool? then Some(v.b) else None
  }

  /** `v === undefined ? undefined : clampByte(v, fallback)` */
  function PresentByte(v: JsValue, fallback: Byte): (r: Option<Byte>)
    ensures r.None? <==> v.Undefined?
    ensures r.Some? ==> r.value == ClampByte(v, fallback)
  {
    if v.Undefined? then None else Some(ClampByte(v, fallback))
  }

  /** The bound repair: a stop at or below its start becomes start + 1. */
  function RepairedStop(start: Option<nat>, stop: Option<nat>): (r: Option<nat>)
    ensures r.None? <==> stop.None?
    ensures start.Some? && r.Some? ==> start.value < r.value
    ensures start.Some? && stop.Some? && start.value < stop.value ==> r == stop
    ensures start.None? ==> r == stop
  {
    if start.Some? && stop.Some? && stop.value <= start.value then Some(start.value + 1) else stop
  }

  /** Whether the bound repair applies. */
  predicate NeedsRepair(start: Option<nat>, stop: Option<nat>)
  {
    start.Some? && stop.Some? && stop.value <= start.value
  }

  // ---------------------------------------------------------------------------
  // Segments

  datatype SegmentPayload = SegmentPayload(
    i: Option<nat>, n: Option<string>, start: Option<nat>, stop: Option<nat>, ofs: Option<nat>,
    startY: Option<nat>, stopY: Option<nat>, bri: Option<Byte>,
    on: Option<bool>, rev: Option<bool>, mi: Option<bool>, grp: Option<Byte>, spc: Option<Byte>,
    fx: Byte, sx: Byte, ix: Byte, pal: Byte, c1: Byte, c2: Byte, col: seq<seq<Byte>>)

  const DefaultPalette: seq<seq<Byte>> := [[255, 170, 0], [0, 0, 0], [0, 0, 0]]

  /** One colour of a `col` array: its first three channels clamped, or black
      for an entry that is not an array. */
  function ParsedColor(entry: JsValue): (r: seq<Byte>)
    ensures |r| <= 3
    ensures entry.Arr? ==> |r| == Min(3, |entry.items|)
    ensures entry.Arr? ==> forall k :: 0 <= k < |r| ==> r[k] == ClampByte(entry.items[k], 0)
    ensures !entry.Arr? ==> r == [0, 0, 0]
  {
    if entry.Arr? then
      seq(Min(3, |entry.items|), k requires 0 <= k < Min(3, |entry.items|) => ClampByte(entry.items[k], 0))
    else [0, 0, 0]
  }

  /** The first three entries of a `col` array, parsed. */
  function ParsedColors(items: seq<JsValue>): (r: seq<seq<Byte>>)
    ensures |r| == Min(3, |items|)
    ensures forall k :: 0 <= k < |r| ==> r[k] == ParsedColor(items[k])
  {
    seq(Min(3, |items|), k requires 0 <= k < Min(3, |items|) => ParsedColor(items[k]))
  }

  /** The palette of a sanitised segment: parsed colours padded with black to
      three entries, or the default palette when `col` is not an array. */
  function SegmentColors(col: JsValue): (r: seq<seq<Byte>>)
    ensures |r| == 3 && forall k :: 0 <= k < 3 ==> |r[k]| <= 3
    ensures !col.Arr? ==> r == DefaultPalette
    ensures col.Arr? ==> forall k :: 0 <= k < 3 ==>
      r[k] == if k < |col.items| then ParsedColor(col.items[k]) else [0, 0, 0]
  {
    if col.Arr? then
      var parsed := ParsedColors(col.items);
      parsed + seq(3 - |parsed|, _ => [0, 0, 0])
    else DefaultPalette
  }

  /** What sanitizeSegment returns for `input`. */
  function SanitizedSegment(input: JsValue): (r: SegmentPayload)
    ensures r.start.Some? && r.stop.Some? ==> r.start.value < r.stop.value
    ensures r.startY.Some? && r.stopY.Some? ==> r.startY.value < r.stopY.value
    ensures |r.col| == 3 && forall k :: 0 <= k < 3 ==> |r.col[k]| <= 3
    ensures r.on == BoolOf(Get(input, "on")) && r.rev == BoolOf(Get(input, "rev")) && r.mi == BoolOf(Get(input, "mi"))
  {
    var start := ClampNonNegativeInt(Get(input, "start"));
    var startY := ClampNonNegativeInt(Get(input, "startY"));
    SegmentPayload(
      i := ClampNonNegativeInt(Get(input, "i")),
      n := ClampText(Get(input, "n"), 64),
      start := start,
      stop := RepairedStop(start, ClampNonNegativeInt(Get(input, "stop"))),
      ofs := ClampNonNegativeInt(Get(input, "ofs")),
      startY := startY,
      stopY := RepairedStop(startY, ClampNonNegativeInt(Get(input, "stopY"))),
      bri := PresentByte(Get(input, "bri"), 255),
      on := BoolOf(Get(input, "on")),
      rev := BoolOf(Get(input, "rev")),
      mi := BoolOf(Get(input, "mi")),
      grp := PresentByte(Get(input, "grp"), 1),
      spc := PresentByte(Get(input, "spc"), 0),
      fx := ClampByte(Get(input, "fx"), 0),
      sx := ClampByte(Get(input, "sx"), 128),
      ix := ClampByte(Get(input, "ix"), 128),
      pal := ClampByte(Get(input, "pal"), 0),
      c1 := ClampByte(Get(input, "c1"), 0),
      c2 := ClampByte(Get(input, "c2"), 0),
      col := SegmentColors(Get(input, "col")))
  }

  /** A present option that is not a boolean. */
  predicate InvalidFlag(v: JsValue) { !v.Undefined? && !v.Bool? }

  function FlagWarning(v: JsValue, w: Warning): seq<Warning> { if InvalidFlag(v) then [w] else [] }

  function BoundsWarning(start: Option<nat>, stop: Option<nat>, w: Warning): seq<Warning>
  {
    if NeedsRepair(start, stop) then [w] else []
  }

  function ColWarning(col: JsValue): seq<Warning> { if !col.Arr? && !col.Undefined? then [InvalidSegCol] else [] }

  /** The warnings sanitizeSegment records for `input`, in order. */
  function SegmentWarnings(input: JsValue): seq<Warning>
  {
    FlagWarning(Get(input, "on"), InvalidSegOn)
    + FlagWarning(Get(input, "rev"), InvalidSegRev)
    + FlagWarning(Get(input, "mi"), InvalidSegMi)
    + BoundsWarning(ClampNonNegativeInt(Get(input, "start")), ClampNonNegativeInt(Get(input, "stop")), SegBounds)
    + BoundsWarning(ClampNonNegativeInt(Get(input, "startY")), ClampNonNegativeInt(Get(input, "stopY")), SegYBounds)
    + ColWarning(Get(input, "col"))
  }

  /** One boolean option: kept when it is a boolean, dropped with a warning when
      it is present and anything else. */
  method CheckFlag(v: JsValue, w: Warning, warnings: seq<Warning>) returns (flag: Option<bool>, warningsOut: seq<Warning>)
    ensures flag == BoolOf(v)
    ensures warningsOut == warnings + FlagWarning(v, w)
  {
    flag := BoolOf(v);
    warningsOut := warnings;
    if flag.None? && !v.Undefined? {
      warningsOut := warningsOut + [w];
    }
  }

  /** One bound pair: a stop at or below its start is moved to start + 1, with a warning. */
  method RepairBounds(start: Option<nat>, stop: Option<nat>, w: Warning, warnings: seq<Warning>)
    returns (repaired: Option<nat>, warningsOut: seq<Warning>)
    ensures repaired == RepairedStop(start, stop)
    ensures warningsOut == warnings + BoundsWarning(start, stop, w)
  {
    repaired := stop;
    warningsOut := warnings;
    if start.Some? && stop.Some? && stop.value <= start.value {
      repaired := Some(start.value + 1);
      warningsOut := warningsOut + [w];
    }
  }

  /** The palette: parsed colours padded with black, or the default palette
      with a warning when `col` is present and not an array. */
  method ParseColors(source: JsValue, warnings: seq<Warning>) returns (col: seq<seq<Byte>>, warningsOut: seq<Warning>)
    ensures col == SegmentColors(source)
    ensures warningsOut == warnings + ColWarning(source)
  {
    col := DefaultPalette;
    warningsOut := warnings;
    if source.Arr? {
      var parsed := ParsedColors(source.items);
      ghost var first := parsed;
      while |parsed| < 3
        invariant |first| <= |parsed| <= 3
        invariant parsed == first + seq(|parsed| - |first|, _ => [0, 0, 0])
      {
        parsed := parsed + [[0, 0, 0]];
      }
      col := parsed;
    } else if !source.Undefined? {
      warningsOut := warningsOut + [InvalidSegCol];
    }
  }

  /** Appending six pieces one at a time appends their concatenation. */
  lemma AppendSix<T>(w: seq<T>, a: seq<T>, b: seq<T>, c: seq<T>, d: seq<T>, e: seq<T>, f: seq<T>)
    ensures w + a + b + c + d + e + f == w + (a + b + c + d + e + f)
  {
  }

  /** sanitizeSegment: the sanitised segment, with its warnings appended to `warnings`. */
  method SanitizeSegment(input: JsValue, warnings: seq<Warning>) returns (seg: SegmentPayload, warningsOut: seq<Warning>)
    ensures seg == SanitizedSegment(input)
    ensures warningsOut == warnings + SegmentWarnings(input)
  {
    var on, w1 := CheckFlag(Get(input, "on"), InvalidSegOn, warnings);
    var rev, w2 := CheckFlag(Get(input, "rev"), InvalidSegRev, w1);
    var mi, w3 := CheckFlag(Get(input, "mi"), InvalidSegMi, w2);
    var start := ClampNonNegativeInt(Get(input, "start"));
    var startY := ClampNonNegativeInt(Get(input, "startY"));
    var stop, w4 := RepairBounds(start, ClampNonNegativeInt(Get(input, "stop")), SegBounds, w3);
    var stopY, w5 := RepairBounds(startY, ClampNonNegativeInt(Get(input, "stopY")), SegYBounds, w4);
    var col;
    col, warningsOut := ParseColors(Get(input, "col"), w5);
    AppendSix(warnings, FlagWarning(Get(input, "on"), InvalidSegOn), FlagWarning(Get(input, "rev"), InvalidSegRev),
      FlagWarning(Get(input, "mi"), InvalidSegMi),
      BoundsWarning(start, ClampNonNegativeInt(Get(input, "stop")), SegBounds),
      BoundsWarning(startY, ClampNonNegativeInt(Get(input, "stopY")), SegYBounds), ColWarning(Get(input, "col")));
    seg := SegmentPayload(
      ClampNonNegativeInt(Get(input, "i")), ClampText(Get(input, "n"), 64), start, stop,
      ClampNonNegativeInt(Get(input, "ofs")), startY, stopY, PresentByte(Get(input, "bri"), 255),
      on, rev, mi, PresentByte(Get(input, "grp"), 1), PresentByte(Get(input, "spc"), 0),
      ClampByte(Get(input, "fx"), 0), ClampByte(Get(input, "sx"), 128), ClampByte(Get(input, "ix"), 128),
      ClampByte(Get(input, "pal"), 0), ClampByte(Get(input, "c1"), 0), ClampByte(Get(input, "c2"), 0), col);
  }

  /** The warnings of a segment, exactly: a flag warning when that option is
      present and not a boolean, a bounds warning when the repair applies, and a
      palette warning when `col` is present and not an array. */
  lemma SegmentWarningsExact(input: JsValue, w: Warning)
    ensures w in SegmentWarnings(input) <==>
      || (w == InvalidSegOn && InvalidFlag(Get(input, "on")))
      || (w == InvalidSegRev && InvalidFlag(Get(input, "rev")))
      || (w == InvalidSegMi && InvalidFlag(Get(input, "mi")))
      || (w == SegBounds && NeedsRepair(ClampNonNegativeInt(Get(input, "start")), ClampNonNegativeInt(Get(input, "stop"))))
      || (w == SegYBounds && NeedsRepair(ClampNonNegativeInt(Get(input, "startY")), ClampNonNegativeInt(Get(input, "stopY"))))
      || (w == InvalidSegCol && !Get(input, "col").Arr? && !Get(input, "col").Undefined?)
  {
    var a := FlagWarning(Get(input, "on"), InvalidSegOn);
    var b := FlagWarning(Get(input, "rev"), InvalidSegRev);
    var c := FlagWarning(Get(input, "mi"), InvalidSegMi);
    var d := BoundsWarning(ClampNonNegativeInt(Get(input, "start")), ClampNonNegativeInt(Get(input, "stop")), SegBounds);
    var e := BoundsWarning(ClampNonNegativeInt(Get(input, "startY")), ClampNonNegativeInt(Get(input, "stopY")), SegYBounds);
    var f := ColWarning(Get(input, "col"));
    assert SegmentWarnings(input) == a + b + c + d + e + f;
    assert w in a + b + c + d + e + f <==> w in a || w in b || w in c || w in d || w in e || w in f;
  }

  /** A segment with nothing in it: the defaults of the WLED segment payload and
      no warning. */
  lemma FallbackSegment()
    ensures var s := SanitizedSegment(Undefined);
      && s.fx == 0 && s.sx == 128 && s.ix == 128 && s.pal == 0 && s.c1 == 0 && s.c2 == 0
      && s.col == DefaultPalette
      && s.i.None? && s.n.None? && s.start.None? && s.stop.None? && s.ofs.None?
      && s.startY.None? && s.stopY.None? && s.bri.None? && s.grp.None? && s.spc.None?
      && s.on.None? && s.rev.None? && s.mi.None?
    ensures SegmentWarnings(Undefined) == []
  {
  }

  // ---------------------------------------------------------------------------
  // Envelopes

  /** A single segment object, or an array of them. */
  datatype SegField = Single(segment: SegmentPayload) | List(segments: seq<SegmentPayload>)

  datatype Envelope = Envelope(
    on: Option<bool>, bri: Byte, seg: SegField, playlist: Option<Playlist.NormalizedPlaylist>, np: bool)

  /** The envelope's `on`: a boolean, or 1 and 0 read as true and false. */
  function OnField(v: JsValue): (r: Option<bool>)
    ensures r.Some? <==> v.Bool? || v == Num(1.0) || v == Num(0.0)
    ensures v.Bool? ==> r == Some(v.b)
    ensures v == Num(1.0) ==> r == Some(true)
    ensures v == Num(0.0) ==> r == Some(false)
  {
    if v.Bool? then Some(v.b)
    else if v == Num(1.0) || v == Num(0.0) then Some(v == Num(1.0))
    else None
  }

  function OnWarning(v: JsValue): seq<Warning>
  {
    if !v.Undefined? && OnField(v).None? then [InvalidOn] else []
  }

  /** `items.map(sanitizeSegment)`: the segments of an array, sanitised one by
      one, keeping length and order. */
  function SanitizedSegments(items: seq<JsValue>): (r: seq<SegmentPayload>)
    ensures |r| == |items| && forall k :: 0 <= k < |items| ==> r[k] == SanitizedSegment(items[k])
  {
    seq(|items|, k requires 0 <= k < |items| => SanitizedSegment(items[k]))
  }

  /** The `seg` of a sanitised envelope: a non-empty array segment by segment;
      an empty array as the fallback segment; anything else as one segment. */
  function SanitizedSegField(seg: JsValue): (r: SegField)
    ensures r.List? <==> seg.Arr? && |seg.items| > 0
    ensures r.List? ==> |r.segments| == |seg.items|
  {
    if seg.Arr? && |seg.items| > 0 then List(SanitizedSegments(seg.items))
    else if seg.Arr? then Single(SanitizedSegment(Undefined))
    else Single(SanitizedSegment(seg))
  }

  /** The warnings of a list of segments, in order. */
  function SegListWarnings(items: seq<JsValue>): seq<Warning>
  {
    if items == [] then [] else SegListWarnings(items[..|items| - 1]) + SegmentWarnings(items[|items| - 1])
  }

  /** The warnings of the `seg` field. */
  function SegFieldWarnings(seg: JsValue): seq<Warning>
  {
    if seg.Arr? && |seg.items| > 0 then SegListWarnings(seg.items)
    else if seg.Arr? then [EmptySeg] + SegmentWarnings(Undefined)
    else SegmentWarnings(seg)
  }

  /** The warnings of the `on` and `seg` fields, which come first. */
  function HeadWarnings(input: JsValue): seq<Warning>
  {
    OnWarning(Get(input, "on")) + SegFieldWarnings(Get(input, "seg"))
  }

  /** The segments of the envelope, with their warnings appended in order. */
  method SanitizeSegField(segSource: JsValue, warnings: seq<Warning>) returns (seg: SegField, warningsOut: seq<Warning>)
    ensures seg == SanitizedSegField(segSource)
    ensures warningsOut == warnings + SegFieldWarnings(segSource)
  {
    if segSource.Arr? && |segSource.items| > 0 {
      seg := List(SanitizedSegments(segSource.items));
      warningsOut := warnings + SegListWarnings(segSource.items);
    } else if segSource.Arr? {
      var s;
      s, warningsOut := SanitizeSegment(Undefined, warnings + [EmptySeg]);
      seg := Single(s);
    } else {
      var s;
      s, warningsOut := SanitizeSegment(segSource, warnings);
      seg := Single(s);
    }
  }

  /** The object handed to normalizePlaylistPayload: `ps`, `dur` and
      `transition` arrays converted with Number(), missing scalars defaulted. */
  function PlaylistPayload(source: JsValue): (r: JsValue)
    ensures Truthy(r) && Get(r, "ps").Arr?
    ensures Get(r, "ps").items == if Get(source, "ps").Arr? then Numbers(Get(source, "ps").items) else []
  {
    var ps := Get(source, "ps");
    var dur := Get(source, "dur");
    var transition := Get(source, "transition");
    var end := Get(source, "end");
    Obj(map[
      "ps" := if ps.Arr? then Arr(Numbers(ps.items)) else Arr([]),
      "dur" := if dur.Arr? then Arr(Numbers(dur.items)) else NumberValue(OrElse(dur, Num(100.0))),
      "transition" := if transition.Arr? then Arr(Numbers(transition.items)) else NumberValue(OrElse(transition, Num(0.0))),
      "repeat" := NumberValue(OrElse(Get(source, "repeat"), Num(0.0))),
      "end" := if end.Undefined? then Undefined else NumberValue(end),
      "r" := Bool(Truthy(Get(source, "r")))])
  }

  /** `values.map((value) => Number(value))` */
  function Numbers(values: seq<JsValue>): (r: seq<JsValue>)
    ensures |r| == |values| && forall k :: 0 <= k < |r| ==> r[k] == NumberValue(values[k])
  {
    seq(|values|, k requires 0 <= k < |values| => NumberValue(values[k]))
  }

  /** The preset ids a playlist field contributes. */
  function PlaylistIds(source: JsValue): seq<int>
  {
    var ps := Get(source, "ps");
    Playlist.PresetIds(if ps.Arr? then Numbers(ps.items) else [])
  }

  function Wrapped(ws: seq<Playlist.Warning>): (r: seq<Warning>)
    ensures |r| == |ws| && forall k :: 0 <= k < |r| ==> r[k] == PlaylistWarning(ws[k])
  {
    seq(|ws|, k requires 0 <= k < |ws| => PlaylistWarning(ws[k]))
  }

  /** The warnings normalizePlaylistPayload raises for the payload built from
      an object `playlist`, wrapped: "no valid ids" when none survives,
      otherwise one per repair. */
  function ObjectPlaylistWarnings(source: JsValue): seq<Warning>
  {
    var ids := PlaylistIds(source);
    Wrapped(if ids == [] then [Playlist.NoValidIds] else Playlist.ValidWarnings(PlaylistPayload(source), |ids|))
  }

  /** The `playlist` field: absent, rejected with a warning when it is not an
      object, otherwise normalised with its warnings passed on. */
  method PlaylistField(source: JsValue, warnings: seq<Warning>)
    returns (playlist: Option<Playlist.NormalizedPlaylist>, warningsOut: seq<Warning>)
    ensures source.Undefined? ==> playlist.None? && warningsOut == warnings
    ensures !source.Undefined? && !source.Obj? ==> playlist.None? && warningsOut == warnings + [InvalidPlaylist]
    ensures source.Obj? ==>
      && warningsOut == warnings + ObjectPlaylistWarnings(source)
      && (playlist.Some? <==> PlaylistIds(source) != [])
    ensures playlist.Some? ==>
      var ids := PlaylistIds(source);
      && source.Obj?
      && playlist.value.ps == ids[..Min(100, |ids|)]
      && Playlist.NormalizedFrom(PlaylistPayload(source), playlist.value)
  {
    playlist := None;
    warningsOut := warnings;
    if !source.Undefined? {
      if !source.Obj? {
        warningsOut := warningsOut + [InvalidPlaylist];
      } else {
        var payload := PlaylistPayload(source);
        var normalized := Playlist.NormalizePlaylistPayload(payload);
        warningsOut := warningsOut + Wrapped(normalized.warnings);
        if normalized.playlist.Some? {
          playlist := normalized.playlist;
        }
      }
    }
  }

  /** sanitizeWledEnvelope */
  method SanitizeWledEnvelope(input: JsValue) returns (result: ImportResult<Envelope>)
    ensures result.data.on == OnField(Get(input, "on"))
    ensures result.data.bri == ClampByte(Get(input, "bri"), 128)
    ensures result.data.seg == SanitizedSegField(Get(input, "seg"))
    ensures result.data.np <==> Get(input, "np") == Bool(true)
    ensures var head := HeadWarnings(input);
      |head| <= |result.warnings| && result.warnings[..|head|] == head
    ensures var source := Get(input, "playlist");
      && (source.Undefined? ==> result.data.playlist.None? && result.warnings == HeadWarnings(input))
      && (!source.Undefined? && !source.Obj? ==>
            result.data.playlist.None? && result.warnings == HeadWarnings(input) + [InvalidPlaylist])
      && (source.Obj? ==>
            result.warnings == HeadWarnings(input) + ObjectPlaylistWarnings(source)
            && (result.data.playlist.Some? <==> PlaylistIds(source) != []))
    ensures result.data.playlist.Some? ==>
      var source := Get(input, "playlist");
      var ids := PlaylistIds(source);
      && source.Obj?
      && result.data.playlist.value.ps == ids[..Min(100, |ids|)]
      && Playlist.NormalizedFrom(PlaylistPayload(source), result.data.playlist.value)
  {
    var on, bri, seg, warnings := HeadFields(input);
    var playlist;
    playlist, warnings := PlaylistField(Get(input, "playlist"), warnings);
    var np := Get(input, "np") == Bool(true);
    result := ImportResult(Envelope(on, bri, seg, playlist, np), warnings);
  }

  /** The `on`, `bri` and `seg` fields of an envelope, with their warnings. */
  method HeadFields(input: JsValue)
    returns (on: Option<bool>, bri: Byte, seg: SegField, warnings: seq<Warning>)
    ensures on == OnField(Get(input, "on"))
    ensures bri == ClampByte(Get(input, "bri"), 128)
    ensures seg == SanitizedSegField(Get(input, "seg"))
    ensures warnings == HeadWarnings(input)
  {
    warnings := [];
    var onSource := Get(input, "on");
    on := OnField(onSource);
    if !onSource.Undefined? && on.None? {
      warnings := warnings + [InvalidOn];
    }
    assert warnings == OnWarning(onSource);
    bri := ClampByte(Get(input, "bri"), 128);
    var segSource := Get(input, "seg");
    seg, warnings := SanitizeSegField(segSource, warnings);
  }

  /** An empty `seg` array is reported. */
  lemma EmptySegWarned(input: JsValue)
    requires Get(input, "seg") == Arr([])
    ensures EmptySeg in HeadWarnings(input)
  {
    var first := OnWarning(Get(input, "on"));
    assert HeadWarnings(input) == first + ([EmptySeg] + SegmentWarnings(Undefined));
    assert HeadWarnings(input)[|first|] == EmptySeg;
  }

  // ---------------------------------------------------------------------------
  // Topologies

  datatype Mode = Strip | Matrix

  datatype Gap = Gap(start: int, length: int)

  datatype Topology = Topology(mode: Mode, width: int, height: int, ledCount: int, serpentine: bool, gaps: seq<Gap>)

  /** `Math.max(lo, Number.isFinite(Number(v)) ? Math.round(Number(v)) : fallback)` */
  function RoundedAtLeast(v: JsValue, lo: int, fallback: int): (r: int)
    ensures r >= lo
    ensures ToNumber(v).None? ==> r == Max(lo, fallback)
    ensures ToNumber(v).Some? && ToNumber(v).value >= lo as real ==>
      ToNumber(v).value - 0.5 < r as real <= ToNumber(v).value + 0.5
  {
    Max(lo, match ToNumber(v) case Some(x) => Round(x) case None => fallback)
  }

  /** `Math.max(0, Math.round(Number(v) || 0))` */
  function GapNumber(v: JsValue): (r: nat)
  {
    Max(0, match ToNumber(v) case Some(x) => Round(x) case None => 0)
  }

  function GapOf(entry: JsValue): Gap
  {
    Gap(GapNumber(Get(entry, "start")), GapNumber(Get(entry, "length")))
  }

  /** `.map(asObject).filter(Boolean).map(toGap)`: the gap of each object entry. */
  function CandidateGaps(items: seq<JsValue>): (r: seq<Option<Gap>>)
    ensures |r| == |items|
    ensures forall k :: 0 <= k < |items| ==> r[k] == if items[k].Obj? then Some(GapOf(items[k])) else None
  {
    seq(|items|, k requires 0 <= k < |items| => if items[k].Obj? then Some(GapOf(items[k])) else None)
  }

  /** `.filter((gap) => gap.length > 0)` */
  function PositiveGaps(candidates: seq<Option<Gap>>): (r: seq<Gap>)
    ensures |r| <= |candidates|
    ensures forall k :: 0 <= k < |r| ==> r[k].length > 0
    ensures (forall k :: 0 <= k < |candidates| && candidates[k].Some? ==> candidates[k].value.start >= 0) ==>
      forall k :: 0 <= k < |r| ==> r[k].start >= 0
  {
    if candidates == [] then []
    else
      var last := candidates[|candidates| - 1];
      PositiveGaps(candidates[..|candidates| - 1]) + (if last.Some? && last.value.length > 0 then [last.value] else [])
  }

  /** A gap survives the filter exactly when some candidate is that gap. */
  lemma {:induction false} PositiveGapsMembers(candidates: seq<Option<Gap>>, g: Gap)
    ensures g in PositiveGaps(candidates) <==> g.length > 0 && Some(g) in candidates
  {
    if candidates != [] {
      var init := candidates[..|candidates| - 1];
      PositiveGapsMembers(init, g);
      assert candidates == init + [candidates[|candidates| - 1]];
    }
  }

  /** The gaps kept from a `gaps` array: object entries, rounded, with a positive length. */
  function KeptGaps(items: seq<JsValue>): (r: seq<Gap>)
    ensures |r| <= |items|
    ensures forall k :: 0 <= k < |r| ==> r[k].start >= 0 && r[k].length > 0
  {
    PositiveGaps(CandidateGaps(items))
  }

  /** A gap is kept exactly when some object entry of the array produces it. */
  lemma KeptGapsMembers(items: seq<JsValue>, g: Gap)
    ensures g in KeptGaps(items) <==>
      g.length > 0 && exists k :: 0 <= k < |items| && items[k].Obj? && GapOf(items[k]) == g
  {
    var candidates := CandidateGaps(items);
    PositiveGapsMembers(candidates, g);
    if Some(g) in candidates {
      var k :| 0 <= k < |candidates| && candidates[k] == Some(g);
      assert items[k].Obj? && GapOf(items[k]) == g;
    }
    if exists k :: 0 <= k < |items| && items[k].Obj? && GapOf(items[k]) == g {
      var k :| 0 <= k < |items| && items[k].Obj? && GapOf(items[k]) == g;
      assert candidates[k] == Some(g);
    }
  }

  /** sanitizeTopology */
  function SanitizeTopology(input: JsValue): (r: ImportResult<Topology>)
    ensures r.data.width >= 1 && r.data.height >= 1 && r.data.ledCount >= 1
    ensures r.data.mode == Matrix <==> Get(input, "mode") == Str("matrix")
    ensures forall k :: 0 <= k < |r.data.gaps| ==> r.data.gaps[k].start >= 0 && r.data.gaps[k].length > 0
    ensures !Get(input, "gaps").Arr? ==> r.data.gaps == []
    ensures r.data.serpentine == Truthy(Get(input, "serpentine"))
    ensures InvalidMode in r.warnings <==>
      !Get(input, "mode").Undefined? && Get(input, "mode") != Str("strip") && Get(input, "mode") != Str("matrix")
    ensures InvalidGaps in r.warnings <==> !Get(input, "gaps").Undefined? && !Get(input, "gaps").Arr?
  {
    var modeSource := Get(input, "mode");
    var mode := if modeSource == Str("matrix") then Matrix else Strip;
    var width := RoundedAtLeast(Get(input, "width"), 1, 60);
    var height := RoundedAtLeast(Get(input, "height"), 1, 1);
    var ledCount := RoundedAtLeast(Get(input, "ledCount"), 1, width * height);
    var gapsSource := Get(input, "gaps");
    var gaps := if gapsSource.Arr? then KeptGaps(gapsSource.items) else [];
    var warnings :=
      (if !modeSource.Undefined? && modeSource != Str("strip") && modeSource != Str("matrix") then [InvalidMode] else [])
      + (if !gapsSource.Undefined? && !gapsSource.Arr? then [InvalidGaps] else []);
    ImportResult(Topology(mode, width, height, ledCount, Truthy(Get(input, "serpentine")), gaps), warnings)
  }

  /** Without a `ledCount`, the count is the area of the matrix. */
  lemma DefaultLedCount(input: JsValue)
    requires ToNumber(Get(input, "ledCount")).None?
    ensures var t := SanitizeTopology(input).data; t.ledCount == t.width * t.height
  {
    var t := SanitizeTopology(input).data;
    var width := RoundedAtLeast(Get(input, "width"), 1, 60);
    var height := RoundedAtLeast(Get(input, "height"), 1, 1);
    assert t.width == width && t.height == height;
    Arithmetic.MulSign(height, width);
    assert t.ledCount == RoundedAtLeast(Get(input, "ledCount"), 1, width * height);
  }
}
