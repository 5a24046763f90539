/**
 * The studio store: the topology, the WLED command being edited and the
 * selected segment, with the actions that edit the command's segment list.
 * Every action reads the segments through `CommandSegments` (a cloned, never
 * empty list), edits that list, and stores it back through
 * `NormalizeCommandSegments` (one segment as an object, several as an array).
 */
module StudioStore {
  import opened Wrappers
  import opened JsValues
  import Sanitize

  // ---------------------------------------------------------------------------
  // Segments and commands

  /** A segment payload as the store sees it: its numeric fields (`start`,
      `stop`, `bri`, `fx`, `i`, ...), its colour slots and every other field. */
  datatype Seg = Seg(numbers: map<string, real>, col: Option<seq<JsValue>>, other: map<string, JsValue>)

  /** The `seg` field of a command. */
  datatype SegValue = NoSeg | OneSeg(seg: Seg) | SegArray(segs: seq<Seg>)

  datatype Command = Command(on: Option<bool>, bri: Option<real>, seg: SegValue, other: map<string, JsValue>)

  const DefaultCol: seq<JsValue> := [
    Arr([Num(255.0), Num(170.0), Num(0.0)]), Arr([Num(0.0), Num(0.0), Num(0.0)]), Arr([Num(0.0), Num(0.0), Num(0.0)])]

  const DefaultSeg := Seg(
    map["fx" := 8.0, "sx" := 128.0, "ix" := 128.0, "pal" := 0.0, "c1" := 0.0, "c2" := 0.0], Some(DefaultCol), map[])

  const DefaultCommand := Command(Some(true), Some(180.0), OneSeg(DefaultSeg), map[])

  const DefaultTopology := Sanitize.Topology(Sanitize.Matrix, 30, 5, 150, true, [])

  /** A colour slot as `cloneSegment` copies it: an array cut to three entries, anything else black. */
  function CloneEntry(e: JsValue): (r: JsValue)
    ensures r.Arr? && |r.items| <= 3
    ensures e.Arr? ==> |r.items| <= |e.items| && r.items == e.items[..|r.items|]
  {
    if e.Arr? then Arr(e.items[..Min(3, |e.items|)]) else Arr([Num(0.0), Num(0.0), Num(0.0)])
  }

  /** cloneSegment: a copy whose colour slots are cut to three channels. */
  function CloneSegment(s: Seg): (r: Seg)
    ensures r.numbers == s.numbers && r.other == s.other && r.col.Some? == s.col.Some?
    ensures r.col.Some? ==> (|r.col.value| == |s.col.value|
      && forall k :: 0 <= k < |r.col.value| ==> r.col.value[k].Arr? && |r.col.value[k].items| <= 3)
  {
    match s.col
    case None => s
    case Some(entries) => s.(col := Some(seq(|entries|, k requires 0 <= k < |entries| => CloneEntry(entries[k]))))
  }

  /** A segment that cloning leaves as it is. */
  predicate Cloned(s: Seg)
  {
    CloneSegment(s) == s
  }

  /** Cloning a clone changes nothing. */
  lemma CloneIdempotent(s: Seg)
    ensures Cloned(CloneSegment(s))
  {
    if s.col.Some? {
      var c := CloneSegment(s).col.value;
      var cc := CloneSegment(CloneSegment(s)).col.value;
      forall k | 0 <= k < |c|
        ensures cc[k] == c[k]
      {
        assert c[k].items[..|c[k].items|] == c[k].items;
      }
      assert cc == c;
    }
  }

  /** Editing the numeric fields of a clone leaves it a clone. */
  lemma ClonedNumbers(s: Seg, numbers: map<string, real>)
    requires Cloned(s)
    ensures Cloned(s.(numbers := numbers))
  {
  }

  /** commandSegments: the command's segments, cloned; never empty. */
  function CommandSegments(c: Command): (r: seq<Seg>)
    ensures |r| >= 1
    ensures c.seg.SegArray? && |c.seg.segs| > 0 ==>
      |r| == |c.seg.segs| && forall k :: 0 <= k < |r| ==> r[k] == CloneSegment(c.seg.segs[k])
    ensures c.seg.OneSeg? ==> r == [CloneSegment(c.seg.seg)]
    ensures c.seg.NoSeg? || c.seg == SegArray([]) ==> r == [CloneSegment(DefaultSeg)]
  {
    match c.seg
    case SegArray(segs) =>
      if |segs| > 0 then seq(|segs|, k requires 0 <= k < |segs| => CloneSegment(segs[k]))
      else [CloneSegment(DefaultSeg)]
    case OneSeg(s) => [CloneSegment(s)]
    case NoSeg => [CloneSegment(DefaultSeg)]
  }

  /** Every segment an action reads is a clone. */
  lemma CommandSegmentsCloned(c: Command)
    ensures forall k :: 0 <= k < |CommandSegments(c)| ==> Cloned(CommandSegments(c)[k])
  {
    var r := CommandSegments(c);
    forall k | 0 <= k < |r|
      ensures Cloned(r[k])
    {
      match c.seg
      case SegArray(segs) =>
        if |segs| > 0 { CloneIdempotent(segs[k]); } else { CloneIdempotent(DefaultSeg); }
      case OneSeg(s) => CloneIdempotent(s);
      case NoSeg => CloneIdempotent(DefaultSeg);
    }
  }

  /** normalizeCommandSegments: a single segment is stored as an object, two or more as an array. */
  function NormalizeCommandSegments(segments: seq<Seg>): (r: SegValue)
    ensures |segments| <= 1 ==> r.OneSeg?
    ensures |segments| >= 2 ==> r == SegArray(segments)
  {
    if |segments| <= 1 then OneSeg(if |segments| == 1 then segments[0] else CloneSegment(DefaultSeg))
    else SegArray(segments)
  }

  /** Storing a non-empty list of clones and reading it back gives the same list. */
  lemma NormalizeRoundTrip(c: Command, segments: seq<Seg>)
    requires |segments| >= 1 && forall k :: 0 <= k < |segments| ==> Cloned(segments[k])
    ensures CommandSegments(c.(seg := NormalizeCommandSegments(segments))) == segments
  {
    var r := CommandSegments(c.(seg := NormalizeCommandSegments(segments)));
    if |segments| == 1 {
      assert r == [CloneSegment(segments[0])];
    } else {
      assert |r| == |segments|;
      forall k | 0 <= k < |r|
        ensures r[k] == segments[k]
      {
        assert Cloned(segments[k]);
      }
    }
  }

  /** clampSegmentIndex: the rounded index, clamped into 0 .. count - 1. */
  function ClampSegmentIndex(index: real, count: int): (r: int)
    ensures r >= 0
    ensures count >= 1 ==> r < count
    ensures count >= 1 && 0 <= Round(index) < count ==> r == Round(index)
    ensures count >= 1 && Round(index) >= count ==> r == count - 1
  {
    Max(0, Min(count - 1, Round(index)))
  }

  /** An index already in range is kept. */
  lemma ClampInRange(index: int, count: int)
    requires 0 <= index < count
    ensures ClampSegmentIndex(index as real, count) == index
  {
    assert Round(index as real) == index;
  }

  // ---------------------------------------------------------------------------
  // Dimensions

  datatype Dims = Dims(width: int, height: int, ledCount: int)

  /** normalizeDimensions: a strip is one row of max(1, round(ledCount)) LEDs;
      a matrix has a rounded width and height of at least 1 and as many LEDs as cells. */
  function NormalizeDimensions(mode: Sanitize.Mode, width: real, height: real, ledCount: real): (r: Dims)
    ensures r.width >= 1 && r.height >= 1 && r.ledCount >= 1
    ensures mode == Sanitize.Strip ==>
      (r.height == 1 && r.width == r.ledCount && (Round(ledCount) >= 1 ==> r.ledCount == Round(ledCount)))
    ensures mode == Sanitize.Matrix ==>
      (r.ledCount == r.width * r.height
       && (Round(width) >= 1 ==> r.width == Round(width)) && (Round(height) >= 1 ==> r.height == Round(height)))
  {
    if mode == Sanitize.Strip then
      var safe := Max(1, Round(ledCount));
      Dims(safe, 1, safe)
    else
      var safeWidth := Max(1, Round(width));
      var safeHeight := Max(1, Round(height));
      assert safeWidth * safeHeight >= 1 by {
        assert safeWidth * safeHeight >= safeWidth * 1;
      }
      Dims(safeWidth, safeHeight, safeWidth * safeHeight)
  }

  /** Normalising dimensions that are already normal changes nothing. */
  lemma NormalizeDimensionsIdempotent(mode: Sanitize.Mode, width: real, height: real, ledCount: real)
    ensures var d := NormalizeDimensions(mode, width, height, ledCount);
      NormalizeDimensions(mode, d.width as real, d.height as real, d.ledCount as real) == d
  {
    var d := NormalizeDimensions(mode, width, height, ledCount);
    assert Round(d.width as real) == d.width;
    assert Round(d.height as real) == d.height;
    assert Round(d.ledCount as real) == d.ledCount;
  }

  // ---------------------------------------------------------------------------
  // Numeric segment fields

  datatype NumericKey = Start | Stop | Ofs | StartY | StopY | Bri | Grp | Spc

  function KeyName(key: NumericKey): string
  {
    match key
    case Start => "start"
    case Stop => "stop"
    case Ofs => "ofs"
    case StartY => "startY"
    case StopY => "stopY"
    case Bri => "bri"
    case Grp => "grp"
    case Spc => "spc"
  }

  /** clampByte: the rounded value, clamped into 0 .. 255. */
  function ClampByte(value: real): (r: int)
    ensures 0 <= r <= 255
    ensures 0 <= Round(value) <= 255 ==> r == Round(value)
  {
    Max(0, Min(255, Round(value)))
  }

  /** clampNonNegativeInt: the rounded value, at least 0. */
  function ClampNonNegativeInt(value: real): (r: int)
    ensures r >= 0 && (Round(value) >= 0 ==> r == Round(value))
  {
    Max(0, Round(value))
  }

  /** The value setSegmentNumericField stores for `key`. */
  function FieldValue(key: NumericKey, value: real): int
  {
    if key == Bri || key == Grp || key == Spc then ClampByte(value) else ClampNonNegativeInt(value)
  }

  /** Push `stop` past `start` when both are present and it is not. */
  function RepairRange(numbers: map<string, real>, start: string, stop: string): (r: map<string, real>)
    ensures r.Keys == numbers.Keys
    ensures start in r && stop in r && start != stop ==> r[stop] > r[start]
    ensures forall k :: k in numbers && k != stop ==> r[k] == numbers[k]
    ensures stop in numbers && (start !in numbers || numbers[stop] > numbers[start]) ==> r == numbers
  {
    if start in numbers && stop in numbers && numbers[stop] <= numbers[start] then numbers[stop := numbers[start] + 1.0]
    else numbers
  }

  /** The selected segment after setSegmentNumericField. */
  function FieldSet(seg: Seg, key: NumericKey, value: real): Seg
  {
    var numbers := seg.numbers[KeyName(key) := FieldValue(key, value) as real];
    seg.(numbers := RepairRange(RepairRange(numbers, "start", "stop"), "startY", "stopY"))
  }

  /** The field is set to its clamped value, unless it is a `stop` that had to
      be pushed past its `start`; both ranges end after they begin; nothing else changes. */
  lemma FieldSetEffect(seg: Seg, key: NumericKey, value: real)
    ensures var s := FieldSet(seg, key, value);
      && s.numbers.Keys == seg.numbers.Keys + {KeyName(key)}
      && (key != Stop && key != StopY ==> s.numbers[KeyName(key)] == FieldValue(key, value) as real)
      && (key == Bri || key == Grp || key == Spc ==> 0.0 <= s.numbers[KeyName(key)] <= 255.0)
      && s.numbers[KeyName(key)] >= 0.0
      && ("start" in s.numbers && "stop" in s.numbers ==> s.numbers["stop"] > s.numbers["start"])
      && ("startY" in s.numbers && "stopY" in s.numbers ==> s.numbers["stopY"] > s.numbers["startY"])
      && (forall k :: k in seg.numbers && k !in {KeyName(key), "stop", "stopY"} ==> s.numbers[k] == seg.numbers[k])
      && s.col == seg.col && s.other == seg.other
  {
    var numbers := seg.numbers[KeyName(key) := FieldValue(key, value) as real];
    var once := RepairRange(numbers, "start", "stop");
    assert "start" != "stop" && "startY" != "stopY" && "stop" != "startY" && "stop" != "stopY";
  }

  // ---------------------------------------------------------------------------
  // parseEffectDefaults

  /** One effect of the effect catalog: its id and its metadata string. */
  datatype CatalogEntry = CatalogEntry(id: int, metadata: string)

  /** `s.split(sep)`: the pieces between the separators; never empty. */
  function Split(s: string, sep: char): (r: seq<string>)
    ensures |r| >= 1
    decreases |s|
  {
    if s == [] then [""]
    else
      var rest := Split(s[1..], sep);
      if s[0] == sep then [""] + rest else [[s[0]] + rest[0]] + rest[1..]
  }

  /** `pieces.join(sep)` */
  function Join(pieces: seq<string>, sep: char): string
    requires |pieces| >= 1
    decreases |pieces|
  {
    if |pieces| == 1 then pieces[0] else pieces[0] + [sep] + Join(pieces[1..], sep)
  }

  /** Splitting loses nothing: joining the pieces gives the string back, and no
      piece holds the separator. */
  lemma {:induction false} SplitJoin(s: string, sep: char)
    ensures Join(Split(s, sep), sep) == s
    ensures forall k :: 0 <= k < |Split(s, sep)| ==> sep !in Split(s, sep)[k]
    decreases |s|
  {
    if s != [] {
      var rest := Split(s[1..], sep);
      SplitJoin(s[1..], sep);
      if s[0] == sep {
        assert Split(s, sep)[1..] == rest;
      } else {
        var r := Split(s, sep);
        if |rest| == 1 {
          assert r == [[s[0]] + rest[0]];
        } else {
          assert r[1..] == rest[1..];
          assert Join(rest, sep) == rest[0] + [sep] + Join(rest[1..], sep);
        }
        assert s == [s[0]] + s[1..];
      }
    }
  }

  /** Joining all but the last piece, then the separator and the last piece. */
  lemma {:induction false} JoinLast(pieces: seq<string>, sep: char)
    requires |pieces| >= 2
    ensures Join(pieces, sep) == Join(pieces[..|pieces| - 1], sep) + [sep] + pieces[|pieces| - 1]
    decreases |pieces|
  {
    if |pieces| > 2 {
      JoinLast(pieces[1..], sep);
      assert pieces[1..][..|pieces| - 2] == pieces[..|pieces| - 1][1..];
    } else {
      assert pieces[..1] == [pieces[0]];
    }
  }

  /** `metadata.split(";").pop()`: the text after the last `;`. */
  function DefaultsBlob(metadata: string): string
  {
    var pieces := Split(metadata, ';');
    pieces[|pieces| - 1]
  }

  /** The defaults blob is the end of the metadata, holds no `;`, and is the
      whole metadata or follows a `;`. */
  lemma DefaultsBlobAfterLastSemicolon(metadata: string)
    ensures var blob := DefaultsBlob(metadata);
      && |blob| <= |metadata| && metadata[|metadata| - |blob|..] == blob
      && ';' !in blob
      && (|blob| < |metadata| ==> metadata[|metadata| - |blob| - 1] == ';')
  {
    var pieces := Split(metadata, ';');
    var blob := pieces[|pieces| - 1];
    SplitJoin(metadata, ';');
    assert ';' !in blob;
    if |pieces| >= 2 {
      JoinLast(pieces, ';');
      AfterSeparator(Join(pieces[..|pieces| - 1], ';'), blob, metadata);
    }
  }

  lemma AfterSeparator(front: string, blob: string, metadata: string)
    requires metadata == front + [';'] + blob
    ensures |blob| < |metadata| && metadata[|metadata| - |blob|..] == blob
    ensures metadata[|metadata| - |blob| - 1] == ';'
  {
    assert metadata[|front| + 1..] == blob;
  }

  /** The first catalog entry with the effect's id. */
  function FindEffect(catalog: seq<CatalogEntry>, effectId: int): (r: Option<CatalogEntry>)
    ensures r.Some? ==> r.value in catalog && r.value.id == effectId
    ensures r.None? ==> forall k :: 0 <= k < |catalog| ==> catalog[k].id != effectId
  {
    if catalog == [] then None
    else if catalog[0].id == effectId then Some(catalog[0])
    else FindEffect(catalog[1..], effectId)
  }

  /** The keys an effect may give defaults for. */
  const EffectKeys: set<string> := {"sx", "ix", "pal", "c1", "c2"}

  /** What one `key=value` token says: a trimmed, non-empty key and a finite
      value, rounded and clamped into 0 .. 255. */
  function TokenSetting(token: string): Option<(string, int)>
  {
    var parts := Split(token, '=');
    var key := Trim(parts[0]);
    var parsed := ToNumber(if |parts| >= 2 then Str(parts[1]) else Undefined);
    if key == "" || parsed.None? then None else Some((key, ClampByte(parsed.value)))
  }

  /** The value the last token that sets `key` gives it. */
  function EffectSetting(tokens: seq<string>, key: string): (r: Option<int>)
    ensures r.Some? ==> 0 <= r.value <= 255
  {
    if tokens == [] then None
    else
      match TokenSetting(tokens[|tokens| - 1])
      case Some((k, v)) => if k == key then Some(v) else EffectSetting(tokens[..|tokens| - 1], key)
      case None => EffectSetting(tokens[..|tokens| - 1], key)
  }

  /** The tokens of an effect's defaults, or none when there is no such effect
      or its defaults blob holds no `=`. */
  function EffectTokens(catalog: seq<CatalogEntry>, effectId: int): seq<string>
  {
    match FindEffect(catalog, effectId)
    case None => []
    case Some(entry) =>
      var blob := DefaultsBlob(entry.metadata);
      if '=' !in blob then [] else Split(blob, ',')
  }

  /** parseEffectDefaults */
  method ParseEffectDefaults(catalog: seq<CatalogEntry>, effectId: int) returns (out: map<string, int>)
    ensures forall key :: key in out <==> key in EffectKeys && EffectSetting(EffectTokens(catalog, effectId), key).Some?
    ensures forall key :: key in out ==> out[key] == EffectSetting(EffectTokens(catalog, effectId), key).value
    ensures forall key :: key in out ==> 0 <= out[key] <= 255
  {
    out := map[];
    var entry := FindEffect(catalog, effectId);
    if entry.None? {
      return;
    }
    var defaultsBlob := DefaultsBlob(entry.value.metadata);
    if '=' !in defaultsBlob {
      return;
    }
    var tokens := Split(defaultsBlob, ',');
    for t := 0 to |tokens|
      invariant forall key :: key in out <==> key in EffectKeys && EffectSetting(tokens[..t], key).Some?
      invariant forall key :: key in out ==> out[key] == EffectSetting(tokens[..t], key).value
    {
      assert tokens[..t + 1][..t] == tokens[..t];
      out := TakeToken(out, tokens[t]);
    }
    assert tokens[..|tokens|] == tokens;
  }

  /** One turn of the token loop. */
  method TakeToken(out: map<string, int>, token: string) returns (next: map<string, int>)
    ensures forall key :: key in next <==>
      key in out || (key in EffectKeys && TokenSetting(token).Some? && TokenSetting(token).value.0 == key)
    ensures forall key :: key in next ==>
      next[key] == if key in EffectKeys && TokenSetting(token).Some? && TokenSetting(token).value.0 == key
                   then TokenSetting(token).value.1 else out[key]
  {
    next := out;
    var parts := Split(token, '=');
    var key := Trim(parts[0]);
    var parsed := ToNumber(if |parts| >= 2 then Str(parts[1]) else Undefined);
    if key == "" || parsed.None? {
      return;
    }
    var value := Max(0, Min(255, Round(parsed.value)));
    if key in EffectKeys {
      next := next[key := value];
    }
  }

  // ---------------------------------------------------------------------------
  // The store

  class Studio {
    var topology: Sanitize.Topology
    var command: Command
    var selectedSegmentIndex: int

    constructor()
      ensures topology == DefaultTopology && command == DefaultCommand && selectedSegmentIndex == 0
    {
      topology := DefaultTopology;
      command := DefaultCommand;
      selectedSegmentIndex := 0;
    }

    /** The segments every action works on. */
    function Segments(): (r: seq<Seg>)
      reads this
      ensures |r| >= 1
    {
      CommandSegments(command)
    }

    /** The segment the actions edit: the selection, clamped into the list. */
    function Selected(): (r: int)
      reads this
      ensures 0 <= r < |Segments()|
    {
      ClampSegmentIndex(selectedSegmentIndex as real, |Segments()|)
    }

    /** setMode: switch mode and normalise the dimensions for it. */
    method SetMode(mode: Sanitize.Mode)
      modifies this
      ensures var d := NormalizeDimensions(mode, old(topology.width) as real, old(topology.height) as real, old(topology.ledCount) as real);
        topology == old(topology).(mode := mode, width := d.width, height := d.height, ledCount := d.ledCount)
      ensures command == old(command) && selectedSegmentIndex == old(selectedSegmentIndex)
    {
      var next := NormalizeDimensions(mode, topology.width as real, topology.height as real, topology.ledCount as real);
      topology := topology.(mode := mode, width := next.width, height := next.height, ledCount := next.ledCount);
    }

    /** setDimensions */
    method SetDimensions(width: real, height: real)
      modifies this
      ensures var d := NormalizeDimensions(old(topology.mode), width, height, old(topology.ledCount) as real);
        topology == old(topology).(width := d.width, height := d.height, ledCount := d.ledCount)
      ensures command == old(command) && selectedSegmentIndex == old(selectedSegmentIndex)
    {
      var next := NormalizeDimensions(topology.mode, width, height, topology.ledCount as real);
      topology := topology.(width := next.width, height := next.height, ledCount := next.ledCount);
    }

    /** setLedCount: a strip becomes one row of the rounded count; a matrix is left alone. */
    method SetLedCount(count: real)
      modifies this
      ensures old(topology.mode) == Sanitize.Matrix ==> topology == old(topology)
      ensures old(topology.mode) == Sanitize.Strip ==>
        var d := NormalizeDimensions(Sanitize.Strip, old(topology.width) as real, old(topology.height) as real, count);
        topology == old(topology).(width := d.width, height := d.height, ledCount := d.ledCount)
      ensures command == old(command) && selectedSegmentIndex == old(selectedSegmentIndex)
    {
      var safe := Max(1, Round(count));
      if topology.mode == Sanitize.Matrix {
        return;
      }
      topology := topology.(ledCount := safe, width := safe, height := 1);
    }

    /** setSelectedSegment: select the index, clamped into the segment list. */
    method SetSelectedSegment(index: real)
      modifies this
      ensures selectedSegmentIndex == ClampSegmentIndex(index, |Segments()|)
      ensures 0 <= selectedSegmentIndex < |Segments()|
      ensures command == old(command) && topology == old(topology)
    {
      var count := |CommandSegments(command)|;
      selectedSegmentIndex := ClampSegmentIndex(index, count);
    }

    /** setSegmentNumericField: set one numeric field of the selected segment. */
    method SetSegmentNumericField(key: NumericKey, value: real)
      modifies this
      ensures |Segments()| == old(|Segments()|)
      ensures Segments()[old(Selected())] == FieldSet(old(Segments()[Selected()]), key, value)
      ensures forall j :: 0 <= j < |Segments()| && j != old(Selected()) ==> Segments()[j] == old(Segments()[j])
      ensures command.on == old(command.on) && command.bri == old(command.bri) && command.other == old(command.other)
      ensures topology == old(topology) && selectedSegmentIndex == old(selectedSegmentIndex)
    {
      var segments := CommandSegments(command);
      var index := ClampSegmentIndex(selectedSegmentIndex as real, |segments|);
      CommandSegmentsCloned(command);
      var segment := EditField(segments[index], key, value);
      ClonedNumbers(segments[index], segment.numbers);
      segments := segments[index := segment];
      NormalizeRoundTrip(command, segments);
      command := command.(seg := NormalizeCommandSegments(segments));
    }

    /** The edit setSegmentNumericField makes to the selected segment. */
    static method EditField(segment: Seg, key: NumericKey, value: real) returns (edited: Seg)
      ensures edited == FieldSet(segment, key, value)
    {
      var numbers := segment.numbers;
      if key == Bri || key == Grp || key == Spc {
        numbers := numbers[KeyName(key) := ClampByte(value) as real];
      } else {
        numbers := numbers[KeyName(key) := ClampNonNegativeInt(value) as real];
      }
      assert numbers == segment.numbers[KeyName(key) := FieldValue(key, value) as real];
      ghost var keyed := numbers;
      if "start" in numbers && "stop" in numbers && numbers["stop"] <= numbers["start"] {
        numbers := numbers["stop" := numbers["start"] + 1.0];
      }
      assert numbers == RepairRange(keyed, "start", "stop");
      ghost var once := numbers;
      if "startY" in numbers && "stopY" in numbers && numbers["stopY"] <= numbers["startY"] {
        numbers := numbers["stopY" := numbers["startY"] + 1.0];
      }
      assert numbers == RepairRange(once, "startY", "stopY");
      edited := segment.(numbers := numbers);
    }

    /** addSegment: append a copy of the selected segment numbered after the
      last one, and select it. */
    method AddSegment()
      modifies this
      ensures Segments() == AddedSegments(old(Segments()), old(Selected()))
      ensures selectedSegmentIndex == old(|Segments()|) && Selected() == selectedSegmentIndex
      ensures command.on == old(command.on) && command.bri == old(command.bri) && command.other == old(command.other)
      ensures topology == old(topology)
    {
      var segments := CommandSegments(command);
      var currentIndex := ClampSegmentIndex(selectedSegmentIndex as real, |segments|);
      var template := CloneSegment(segments[currentIndex]);
      CommandSegmentsCloned(command);
      assert template == segments[currentIndex];
      var newIndex := |segments|;
      var nextSegment := template.(numbers := template.numbers["i" := newIndex as real]);
      ClonedNumbers(template, nextSegment.numbers);
      segments := segments + [nextSegment];
      NormalizeRoundTrip(command, segments);
      command := command.(seg := NormalizeCommandSegments(segments));
      selectedSegmentIndex := newIndex;
      ClampInRange(newIndex, |segments|);
    }

    /** removeSelectedSegment: with two or more segments, remove the selected
      one and keep the selection in the shorter list; with one, do nothing. */
    method RemoveSelectedSegment()
      modifies this
      ensures old(|Segments()|) <= 1 ==> command == old(command) && selectedSegmentIndex == old(selectedSegmentIndex)
      ensures old(|Segments()|) >= 2 ==>
        && Segments() == RemovedSegments(old(Segments()), old(Selected()))
        && selectedSegmentIndex == ClampSegmentIndex(old(Selected()) as real, |Segments()|)
        && 0 <= selectedSegmentIndex < |Segments()|
      ensures command.on == old(command.on) && command.bri == old(command.bri) && command.other == old(command.other)
      ensures topology == old(topology)
    {
      var segments := CommandSegments(command);
      if |segments| <= 1 {
        return;
      }
      var currentIndex := ClampSegmentIndex(selectedSegmentIndex as real, |segments|);
      CommandSegmentsCloned(command);
      var remaining := segments[..currentIndex] + segments[currentIndex + 1..];
      RemovedStillCloned(segments, currentIndex, remaining);
      segments := remaining;
      var nextIndex := ClampSegmentIndex(currentIndex as real, |segments|);
      NormalizeRoundTrip(command, segments);
      command := command.(seg := NormalizeCommandSegments(segments));
      selectedSegmentIndex := nextIndex;
    }
  }

  /** The segment list after addSegment: a copy of the selected segment,
      numbered `i` = the old count, is appended. */
  function AddedSegments(segments: seq<Seg>, selected: int): (r: seq<Seg>)
    requires 0 <= selected < |segments|
    ensures |r| == |segments| + 1 && r[..|segments|] == segments
    ensures r[|segments|].numbers == segments[selected].numbers["i" := |segments| as real]
    ensures r[|segments|].col == segments[selected].col && r[|segments|].other == segments[selected].other
  {
    var template := segments[selected];
    segments + [template.(numbers := template.numbers["i" := |segments| as real])]
  }

  /** The segment list after removeSelectedSegment: every segment but the selected one, in order. */
  function RemovedSegments(segments: seq<Seg>, selected: int): (r: seq<Seg>)
    requires 0 <= selected < |segments|
    ensures |r| == |segments| - 1
    ensures forall k :: 0 <= k < |r| ==> r[k] == segments[if k < selected then k else k + 1]
  {
    segments[..selected] + segments[selected + 1..]
  }

  lemma RemovedStillCloned(segments: seq<Seg>, selected: int, r: seq<Seg>)
    requires 0 <= selected < |segments| && forall k :: 0 <= k < |segments| ==> Cloned(segments[k])
    requires r == segments[..selected] + segments[selected + 1..]
    ensures r == RemovedSegments(segments, selected)
    ensures forall k :: 0 <= k < |r| ==> Cloned(r[k])
  {
    forall k | 0 <= k < |r|
      ensures Cloned(r[k])
    {
      assert r[k] == segments[if k < selected then k else k + 1];
    }
  }

  /** Removing the segment addSegment just added and selected gives the old list back. */
  lemma RemoveUndoesAdd(segments: seq<Seg>, selected: int)
    requires 0 <= selected < |segments|
    ensures RemovedSegments(AddedSegments(segments, selected), |segments|) == segments
  {
    var added := AddedSegments(segments, selected);
    assert added[..|segments|] == segments;
  }

  /** After removing a segment the selection stays where it was, unless it was
      the last one, which moves back by one. */
  lemma RemovedSelection(current: int, count: int)
    requires 0 <= current < count && count >= 2
    ensures ClampSegmentIndex(current as real, count - 1) == if current < count - 1 then current else count - 2
  {
    assert Round(current as real) == current;
  }
}
