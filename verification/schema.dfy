/**
 * Export validation (src/io/schema.ts): before the studio writes a WLED
 * `presets.json` or `cfg.json`, the envelope and the topology are checked and
 * every problem found is recorded as an error; the value is valid exactly when
 * no error was recorded.
 */
module Schema {
  import opened Wrappers
  import opened JsValues
  import Sanitize

  /** The byte-valued segment fields the validator checks, in its order. */
  datatype ByteField = Fx | Sx | Ix | Pal | C1 | C2

  function Key(f: ByteField): string
  {
    match f
    case Fx => "fx"
    case Sx => "sx"
    case Ix => "ix"
    case Pal => "pal"
    case C1 => "c1"
    case C2 => "c2"
  }

  datatype Error =
    | OnNotBoolean
    | BriNotByte
    | SegRequired
    | FieldNotByte(field: ByteField)
    | ColNotArray
    | ColorNotRgb(index: nat)
    | ModeInvalid
    | LedCountInvalid
    | WidthInvalid
    | HeightInvalid

  function Message(e: Error): string
  {
    match e
    case OnNotBoolean => "on must be a boolean"
    case BriNotByte => "bri must be an integer between 0 and 255"
    case SegRequired => "seg is required"
    case FieldNotByte(f) => "seg." + Key(f) + " must be an integer between 0 and 255"
    case ColNotArray => "seg.col must be a non-empty array"
    case ColorNotRgb(i) => "seg.col[" + NatToDecimal(i) + "] must contain 3 byte channels"
    case ModeInvalid => "mode must be strip or matrix"
    case LedCountInvalid => "ledCount must be a positive integer"
    case WidthInvalid => "width must be a positive integer"
    case HeightInvalid => "height must be a positive integer"
  }

  datatype Validation = Validation(valid: bool, errors: seq<Error>)

  /** The JSON number with integer value n. */
  function NumberOf(n: int): JsValue { Num(n as real) }

  /** isByte: a number (no coercion) that is an integer in [0, 255]. */
  predicate IsByte(v: JsValue)
  {
    IsInteger(v) && 0.0 <= v.x <= 255.0
  }

  /** isByte accepts exactly the numbers 0, 1, ..., 255. */
  lemma IsByteExactly(v: JsValue)
    ensures IsByte(v) <==> exists b: Byte :: v == NumberOf(b)
  {
    if IsByte(v) {
      var b: Byte := v.x.Floor;
      assert v == NumberOf(b);
    }
  }

  // ---------------------------------------------------------------------------
  // What validateWledEnvelope records, as functions of the payload.

  function OnErrors(on: JsValue): seq<Error>
  {
    if !on.Undefined? && !on.Bool? then [OnNotBoolean] else []
  }

  function BriErrors(bri: JsValue): seq<Error>
  {
    if !bri.Undefined? && !IsByte(bri) then [BriNotByte] else []
  }

  function FieldErrors(seg: JsValue, f: ByteField): seq<Error>
  {
    var v := Get(seg, Key(f));
    if !v.Undefined? && !IsByte(v) then [FieldNotByte(f)] else []
  }

  /** An array whose first three entries are bytes. */
  predicate IsRgb(color: JsValue)
  {
    color.Arr? && |color.items| >= 3
    && IsByte(color.items[0]) && IsByte(color.items[1]) && IsByte(color.items[2])
  }

  /** The `forEach` over `seg.col`: one error per entry that is not an RGB triple. */
  function ColorErrors(colors: seq<JsValue>): seq<Error>
    decreases |colors|
  {
    if colors == [] then []
    else
      var n := |colors| - 1;
      ColorErrors(colors[..n]) + (if IsRgb(colors[n]) then [] else [ColorNotRgb(n)])
  }

  function ColErrors(col: JsValue): seq<Error>
  {
    if col.Undefined? then []
    else if !col.Arr? || col.items == [] then [ColNotArray]
    else ColorErrors(col.items)
  }

  function SegmentErrors(seg: JsValue): seq<Error>
  {
    if !Truthy(seg) then [SegRequired]
    else
      FieldErrors(seg, Fx) + FieldErrors(seg, Sx) + FieldErrors(seg, Ix)
      + FieldErrors(seg, Pal) + FieldErrors(seg, C1) + FieldErrors(seg, C2)
      + ColErrors(Get(seg, "col"))
  }

  /** The segment that is checked: the first element of a `seg` array, or `seg` itself. */
  function CheckedSegment(payload: JsValue): JsValue
  {
    var seg := Get(payload, "seg");
    if seg.Arr? then At(seg, 0) else seg
  }

  function EnvelopeErrors(payload: JsValue): seq<Error>
  {
    OnErrors(Get(payload, "on")) + BriErrors(Get(payload, "bri")) + SegmentErrors(CheckedSegment(payload))
  }

  // ---------------------------------------------------------------------------
  // The validator, pushing into its error list as the source does.

  method CheckField(seg: JsValue, f: ByteField, errors: seq<Error>) returns (errorsOut: seq<Error>)
    ensures errorsOut == errors + FieldErrors(seg, f)
  {
    errorsOut := errors;
    var v := Get(seg, Key(f));
    if !v.Undefined? && !IsByte(v) {
      errorsOut := errorsOut + [FieldNotByte(f)];
    }
  }

  method CheckCol(col: JsValue, errors: seq<Error>) returns (errorsOut: seq<Error>)
    ensures errorsOut == errors + ColErrors(col)
  {
    errorsOut := errors;
    if !col.Undefined? {
      if !col.Arr? || |col.items| == 0 {
        errorsOut := errorsOut + [ColNotArray];
      } else {
        var index := 0;
        while index < |col.items|
          invariant 0 <= index <= |col.items|
          invariant errorsOut == errors + ColorErrors(col.items[..index])
        {
          var color := col.items[index];
          if !(color.Arr? && |color.items| >= 3
               && IsByte(color.items[0]) && IsByte(color.items[1]) && IsByte(color.items[2])) {
            errorsOut := errorsOut + [ColorNotRgb(index)];
          }
          assert col.items[..index + 1][..index] == col.items[..index];
          index := index + 1;
        }
        assert col.items[..index] == col.items;
      }
    }
  }

  method CheckSegment(seg: JsValue, errors: seq<Error>) returns (errorsOut: seq<Error>)
    ensures errorsOut == errors + SegmentErrors(seg)
  {
    if !Truthy(seg) {
      errorsOut := errors + [SegRequired];
    } else {
      var e1 := CheckField(seg, Fx, errors);
      var e2 := CheckField(seg, Sx, e1);
      var e3 := CheckField(seg, Ix, e2);
      var e4 := CheckField(seg, Pal, e3);
      var e5 := CheckField(seg, C1, e4);
      var e6 := CheckField(seg, C2, e5);
      errorsOut := CheckCol(Get(seg, "col"), e6);
      AppendSeven(errors, FieldErrors(seg, Fx), FieldErrors(seg, Sx), FieldErrors(seg, Ix),
        FieldErrors(seg, Pal), FieldErrors(seg, C1), FieldErrors(seg, C2), ColErrors(Get(seg, "col")));
    }
  }

  lemma AppendSeven<T>(w: seq<T>, a: seq<T>, b: seq<T>, c: seq<T>, d: seq<T>, e: seq<T>, f: seq<T>, g: seq<T>)
    ensures w + a + b + c + d + e + f + g == w + (a + b + c + d + e + f + g)
  {
  }

  /** validateWledEnvelope. The payload is an object in the source's type; reading
      a property of null or undefined would throw. */
  method ValidateWledEnvelope(payload: JsValue) returns (result: Validation)
    requires Readable(payload)
    ensures result.errors == EnvelopeErrors(payload)
    ensures result.valid <==> result.errors == []
  {
    var errors: seq<Error> := [];
    var on := Get(payload, "on");
    if !on.Undefined? && !on.Bool? {
      errors := errors + [OnNotBoolean];
    }
    var bri := Get(payload, "bri");
    if !bri.Undefined? && !IsByte(bri) {
      errors := errors + [BriNotByte];
    }
    var segSource := Get(payload, "seg");
    var seg := if segSource.Arr? then At(segSource, 0) else segSource;
    var before := errors;
    errors := CheckSegment(seg, errors);
    assert before == OnErrors(on) + BriErrors(bri);
    result := Validation(|errors| == 0, errors);
  }

  // ---------------------------------------------------------------------------
  // What validity means.

  /** Every entry of a colour list is an RGB triple. */
  predicate AllRgb(colors: seq<JsValue>)
  {
    forall k :: 0 <= k < |colors| ==> IsRgb(colors[k])
  }

  /** The colour list records an error for exactly the entries that are not RGB triples. */
  lemma {:induction false} ColorErrorsExact(colors: seq<JsValue>, e: Error)
    ensures e in ColorErrors(colors) <==> e.ColorNotRgb? && e.index < |colors| && !IsRgb(colors[e.index])
    decreases |colors|
  {
    if colors != [] {
      var n := |colors| - 1;
      ColorErrorsExact(colors[..n], e);
      if e.ColorNotRgb? && e.index < n {
        assert colors[..n][e.index] == colors[e.index];
      }
    }
  }

  lemma ColorErrorsEmpty(colors: seq<JsValue>)
    ensures ColorErrors(colors) == [] <==> AllRgb(colors)
  {
    if ColorErrors(colors) == [] {
      forall k | 0 <= k < |colors|
        ensures IsRgb(colors[k])
      {
        ColorErrorsExact(colors, ColorNotRgb(k));
      }
    } else {
      var e := ColorErrors(colors)[0];
      ColorErrorsExact(colors, e);
    }
  }

  predicate ByteOrAbsent(v: JsValue) { v.Undefined? || IsByte(v) }

  /** The conditions under which the checked segment passes. */
  predicate SegmentPasses(seg: JsValue)
  {
    Truthy(seg)
    && (forall f: ByteField :: ByteOrAbsent(Get(seg, Key(f))))
    && (var col := Get(seg, "col");
        col.Undefined? || (col.Arr? && col.items != [] && AllRgb(col.items)))
  }

  lemma SegmentErrorsEmpty(seg: JsValue)
    ensures SegmentErrors(seg) == [] <==> SegmentPasses(seg)
  {
    var col := Get(seg, "col");
    if col.Arr? && col.items != [] {
      ColorErrorsEmpty(col.items);
    }
    if Truthy(seg) && SegmentErrors(seg) == [] {
      forall f: ByteField
        ensures ByteOrAbsent(Get(seg, Key(f)))
      {
        assert FieldErrors(seg, f) == [];
      }
    }
    if SegmentPasses(seg) {
      assert ByteOrAbsent(Get(seg, Key(Fx))) && ByteOrAbsent(Get(seg, Key(Sx)))
        && ByteOrAbsent(Get(seg, Key(Ix))) && ByteOrAbsent(Get(seg, Key(Pal)))
        && ByteOrAbsent(Get(seg, Key(C1))) && ByteOrAbsent(Get(seg, Key(C2)));
    }
  }

  /** The envelope is valid exactly when `on` is absent or a boolean, `bri` is absent
      or a byte, and the checked segment passes. */
  lemma EnvelopeValidExactly(payload: JsValue)
    ensures EnvelopeErrors(payload) == [] <==>
      (Get(payload, "on").Undefined? || Get(payload, "on").Bool?)
      && ByteOrAbsent(Get(payload, "bri"))
      && SegmentPasses(CheckedSegment(payload))
  {
    SegmentErrorsEmpty(CheckedSegment(payload));
  }

  /** Only the first element of a `seg` array is checked: what follows it never
      changes the verdict or the errors. */
  lemma OnlyFirstSegmentChecked(fields: map<string, JsValue>, first: JsValue, rest: seq<JsValue>)
    ensures EnvelopeErrors(Obj(fields["seg" := Arr([first] + rest)]))
         == EnvelopeErrors(Obj(fields["seg" := Arr([first])]))
  {
  }

  /** A missing `seg`, or an empty `seg` array, makes the envelope invalid. */
  lemma MissingSegInvalid(payload: JsValue)
    requires Get(payload, "seg").Undefined? || Get(payload, "seg") == Arr([])
    ensures SegRequired in EnvelopeErrors(payload)
  {
  }

  // ---------------------------------------------------------------------------
  // validateTopology

  predicate PositiveInteger(v: JsValue) { IsInteger(v) && v.x >= 1.0 }

  function TopologyErrors(topology: JsValue): seq<Error>
  {
    var mode := Get(topology, "mode");
    (if mode != Str("strip") && mode != Str("matrix") then [ModeInvalid] else [])
    + (if !PositiveInteger(Get(topology, "ledCount")) then [LedCountInvalid] else [])
    + (if !PositiveInteger(Get(topology, "width")) then [WidthInvalid] else [])
    + (if !PositiveInteger(Get(topology, "height")) then [HeightInvalid] else [])
  }

  method CheckPositive(v: JsValue, e: Error, errors: seq<Error>) returns (errorsOut: seq<Error>)
    ensures errorsOut == errors + (if PositiveInteger(v) then [] else [e])
  {
    errorsOut := errors;
    if !(IsInteger(v) && v.x >= 1.0) {
      errorsOut := errorsOut + [e];
    }
  }

  method ValidateTopology(topology: JsValue) returns (result: Validation)
    requires Readable(topology)
    ensures result.errors == TopologyErrors(topology)
    ensures result.valid <==> result.errors == []
  {
    var errors: seq<Error> := [];
    var mode := Get(topology, "mode");
    if mode != Str("strip") && mode != Str("matrix") {
      errors := errors + [ModeInvalid];
    }
    errors := CheckPositive(Get(topology, "ledCount"), LedCountInvalid, errors);
    errors := CheckPositive(Get(topology, "width"), WidthInvalid, errors);
    errors := CheckPositive(Get(topology, "height"), HeightInvalid, errors);
    result := Validation(|errors| == 0, errors);
  }

  /** validateTopology passes exactly for mode "strip" or "matrix" with positive
      integer ledCount, width and height. */
  lemma TopologyValidExactly(topology: JsValue)
    ensures TopologyErrors(topology) == [] <==>
      (Get(topology, "mode") == Str("strip") || Get(topology, "mode") == Str("matrix"))
      && (exists n: nat :: n >= 1 && Get(topology, "ledCount") == NumberOf(n))
      && (exists n: nat :: n >= 1 && Get(topology, "width") == NumberOf(n))
      && (exists n: nat :: n >= 1 && Get(topology, "height") == NumberOf(n))
  {
    PositiveIntegerExactly(Get(topology, "ledCount"));
    PositiveIntegerExactly(Get(topology, "width"));
    PositiveIntegerExactly(Get(topology, "height"));
  }

  lemma PositiveIntegerExactly(v: JsValue)
    ensures PositiveInteger(v) <==> exists n: nat :: n >= 1 && v == NumberOf(n)
  {
    if PositiveInteger(v) {
      var n: nat := v.x.Floor;
      assert v == NumberOf(n);
    }
  }

  /** The studio topology as the object the validator reads. */
  function TopologyValue(t: Sanitize.Topology): (r: JsValue)
    ensures Get(r, "mode") == Str(if t.mode.Matrix? then "matrix" else "strip")
    ensures Get(r, "ledCount") == NumberOf(t.ledCount)
    ensures Get(r, "width") == NumberOf(t.width)
    ensures Get(r, "height") == NumberOf(t.height)
    ensures Get(r, "serpentine") == Bool(t.serpentine)
  {
    Obj(map[
      "mode" := Str(if t.mode.Matrix? then "matrix" else "strip"),
      "width" := NumberOf(t.width),
      "height" := NumberOf(t.height),
      "ledCount" := NumberOf(t.ledCount),
      "serpentine" := Bool(t.serpentine)])
  }

  /** Whatever the import sanitiser produces, the export validator accepts. */
  lemma SanitizedTopologyValid(input: JsValue)
    ensures TopologyErrors(TopologyValue(Sanitize.SanitizeTopology(input).data)) == []
  {
    var t := Sanitize.SanitizeTopology(input).data;
    PositiveNumber(t.ledCount);
    PositiveNumber(t.width);
    PositiveNumber(t.height);
  }

  lemma PositiveNumber(n: int)
    requires n >= 1
    ensures PositiveInteger(NumberOf(n))
  {
  }
}
