/**
 * Export artifacts (src/io/jsonIO.ts): the WLED `cfg.json` hardware block built
 * from a validated topology, and the `presets.json` dictionary built from a
 * preset library (or from a single envelope), keeping only the entries WLED can
 * load. The JSON text itself (JSON.stringify) is not modelled: the artifacts
 * are the values that are serialised.
 */
module JsonIo {
  import opened Wrappers
  import opened JsValues
  import opened Schema
  import Sanitize

  // ---------------------------------------------------------------------------
  // cfg.json

  /** `hw.led` of cfg.json. */
  datatype LedConfig = LedConfig(total: JsValue, matrix: bool, width: JsValue, height: JsValue, serpentine: JsValue)

  /** buildCfgJson: fails (throws, in the source) with the validator's errors. */
  function BuildCfgJson(topology: JsValue): (r: Result<LedConfig, seq<Error>>)
    ensures r.Failure? <==> TopologyErrors(topology) != []
    ensures r.Failure? ==> r.error == TopologyErrors(topology)
    ensures r.Success? ==>
      r.value.total == Get(topology, "ledCount") && PositiveInteger(r.value.total)
      && (r.value.matrix <==> Get(topology, "mode") == Str("matrix"))
      && (!r.value.matrix ==> Get(topology, "mode") == Str("strip"))
  {
    var errors := TopologyErrors(topology);
    if errors != [] then Failure(errors)
    else
      Success(LedConfig(
        Get(topology, "ledCount"),
        Get(topology, "mode") == Str("matrix"),
        Get(topology, "width"),
        Get(topology, "height"),
        Get(topology, "serpentine")))
  }

  /** A topology that went through the import sanitiser always exports, with the
      sanitised LED count and the matrix flag of its mode. */
  lemma SanitizedTopologyExports(input: JsValue)
    ensures var t := Sanitize.SanitizeTopology(input).data;
      var r := BuildCfgJson(TopologyValue(t));
      r.Success? && r.value.total == NumberOf(t.ledCount) && (r.value.matrix <==> t.mode == Sanitize.Matrix)
  {
    SanitizedTopologyValid(input);
  }

  // ---------------------------------------------------------------------------
  // presets.json

  const NameLimit := 32
  const QuickLoadLimit := 8

  /** `if (out.key) out.key = out.key.slice(0, limit)` on a copy of the entry. */
  function Shortened(fields: map<string, JsValue>, key: string, limit: nat): (r: map<string, JsValue>)
    ensures r.Keys == fields.Keys
    ensures forall k :: k in fields && k != key ==> r[k] == fields[k]
  {
    if key in fields && Truthy(fields[key]) && fields[key].Str? then
      fields[key := Str(fields[key].s[..Min(limit, |fields[key].s|)])]
    else fields
  }

  /** sanitizePresetForExport: `n` cut to 32 characters and `ql` to 8. */
  function SanitizePresetForExport(entry: map<string, JsValue>): (r: map<string, JsValue>)
    ensures r.Keys == entry.Keys
    ensures forall k :: k in entry && k != "n" && k != "ql" ==> r[k] == entry[k]
    ensures "n" in entry && entry["n"].Str? ==>
      r["n"] == Str(entry["n"].s[..Min(NameLimit, |entry["n"].s|)])
    ensures "ql" in entry && entry["ql"].Str? ==>
      r["ql"] == Str(entry["ql"].s[..Min(QuickLoadLimit, |entry["ql"].s|)])
  {
    Shortened(Shortened(entry, "n", NameLimit), "ql", QuickLoadLimit)
  }

  /** Shortening is idempotent: an exported entry exports unchanged. */
  lemma SanitizePresetIdempotent(entry: map<string, JsValue>)
    ensures SanitizePresetForExport(SanitizePresetForExport(entry)) == SanitizePresetForExport(entry)
  {
    var once := SanitizePresetForExport(entry);
    var twice := SanitizePresetForExport(once);
    forall k | k in twice.Keys
      ensures twice[k] == once[k]
    {
      if k == "n" || k == "ql" {
        var limit := if k == "n" then NameLimit else QuickLoadLimit;
        if entry[k].Str? {
          var s := entry[k].s;
          assert s[..Min(limit, |s|)][..Min(limit, Min(limit, |s|))] == s[..Min(limit, |s|)];
        }
      }
    }
  }

  /** The validator never reads `n` or `ql`, so shortening them keeps the verdict. */
  lemma ExportKeepsErrors(entry: map<string, JsValue>)
    ensures EnvelopeErrors(Obj(SanitizePresetForExport(entry))) == EnvelopeErrors(Obj(entry))
  {
    var out := SanitizePresetForExport(entry);
    assert Get(Obj(out), "on") == Get(Obj(entry), "on");
    assert Get(Obj(out), "bri") == Get(Obj(entry), "bri");
    assert Get(Obj(out), "seg") == Get(Obj(entry), "seg");
  }

  /** `Number(id)` is an integer in [0, 250]. */
  predicate AcceptedId(id: string)
  {
    match StringToNumber(id)
    case Some(x) => x == x.Floor as real && 0.0 <= x <= 250.0
    case None => false
  }

  /** The entry as exported: a shortened copy. */
  function ExportedEntry(entry: map<string, JsValue>): JsValue
  {
    Obj(SanitizePresetForExport(entry))
  }

  /** The id is accepted and the shortened entry passes the validator. */
  predicate Exportable(id: string, entry: map<string, JsValue>)
  {
    AcceptedId(id) && EnvelopeErrors(ExportedEntry(entry)) == []
  }

  /** Shortening does not change the verdict, so an entry is exportable exactly when
      its id is accepted and the entry as given passes the validator. */
  lemma ExportableExactly(id: string, entry: map<string, JsValue>)
    ensures Exportable(id, entry) <==> AcceptedId(id) && EnvelopeErrors(Obj(entry)) == []
  {
    ExportKeepsErrors(entry);
  }

  /** The entry exported when nothing in the library survives. */
  const DefaultSegment: JsValue := Obj(map[
    "fx" := Num(8.0), "sx" := Num(128.0), "ix" := Num(128.0),
    "pal" := Num(0.0), "c1" := Num(0.0), "c2" := Num(0.0),
    "col" := Arr([
      Arr([Num(255.0), Num(170.0), Num(0.0)]),
      Arr([Num(0.0), Num(0.0), Num(0.0)]),
      Arr([Num(0.0), Num(0.0), Num(0.0)])])])

  const DefaultEntry: JsValue := Obj(map[
    "n" := Str("Studio Export"), "on" := Bool(true), "bri" := Num(128.0), "seg" := DefaultSegment])

  lemma DefaultColorsRgb()
    ensures AllRgb(Get(DefaultSegment, "col").items)
  {
    var items := Get(DefaultSegment, "col").items;
    assert IsRgb(items[0]) && IsRgb(items[1]) && IsRgb(items[2]);
  }

  /** The default entry passes the export validator. */
  lemma DefaultEntryValid()
    ensures EnvelopeErrors(DefaultEntry) == []
  {
    DefaultColorsRgb();
    assert SegmentPasses(DefaultSegment) by {
      forall f: ByteField
        ensures ByteOrAbsent(Get(DefaultSegment, Key(f)))
      {
      }
    }
    EnvelopeValidExactly(DefaultEntry);
  }

  /** One step of the export loop: the id filter, the shortening and the validator. */
  method ExportOne(id: string, rawEntry: map<string, JsValue>) returns (keep: bool, entry: JsValue)
    ensures keep == Exportable(id, rawEntry)
    ensures entry == ExportedEntry(rawEntry)
  {
    entry := Obj(SanitizePresetForExport(rawEntry));
    var accepted := match StringToNumber(id)
      case Some(x) => x == x.Floor as real && 0.0 <= x <= 250.0
      case None => false;
    if !accepted {
      return false, entry;
    }
    var validation := ValidateWledEnvelope(entry);
    keep := validation.valid;
  }

  /** `entries` holds, under its id, the shortened copy of every entry of `library`
      that is exportable, and nothing else. */
  ghost predicate ExportsOf(library: map<string, map<string, JsValue>>, entries: map<string, JsValue>)
  {
    && (forall id :: id in entries <==> id in library && Exportable(id, library[id]))
    && (forall id :: id in entries ==> entries[id] == ExportedEntry(library[id]))
  }

  /** The loop of buildPresetsJsonFromLibrary: every entry whose id is accepted and
      whose shortened copy passes the validator is kept, shortened, under its id. */
  method Survivors(library: map<string, map<string, JsValue>>) returns (kept: map<string, JsValue>)
    ensures ExportsOf(library, kept)
  {
    kept := map[];
    var pending := library.Keys;
    while pending != {}
      invariant pending <= library.Keys
      invariant forall id :: id in kept <==> id in library && id !in pending && Exportable(id, library[id])
      invariant forall id :: id in kept ==> kept[id] == ExportedEntry(library[id])
      decreases |pending|
    {
      var id :| id in pending;
      var keep, entry := ExportOne(id, library[id]);
      if keep {
        kept := kept[id := entry];
      }
      pending := pending - {id};
    }
  }

  /** buildPresetsJsonFromLibrary: the surviving entries, or, when none survives,
      exactly the default entry "0". Every exported entry passes the validator. */
  method BuildPresetsJsonFromLibrary(library: map<string, map<string, JsValue>>) returns (entries: map<string, JsValue>)
    ensures entries != map[]
    ensures forall id :: id in entries ==> EnvelopeErrors(entries[id]) == []
    ensures (forall id :: id in library ==> !Exportable(id, library[id])) ==> entries == map["0" := DefaultEntry]
    ensures (exists id :: id in library && Exportable(id, library[id])) ==> ExportsOf(library, entries)
  {
    entries := Survivors(library);
    if |entries| == 0 {
      DefaultEntryValid();
      entries := map["0" := DefaultEntry];
    } else {
      var id :| id in entries;
    }
  }

  /** buildPresetsJson: a valid envelope is exported as preset "0", named "Studio
      Export" unless it has a name of its own; an invalid one fails with its errors. */
  method BuildPresetsJson(payload: map<string, JsValue>) returns (r: Result<map<string, JsValue>, seq<Error>>)
    ensures r.Failure? <==> EnvelopeErrors(Obj(payload)) != []
    ensures r.Failure? ==> r.error == EnvelopeErrors(Obj(payload))
    ensures r.Success? ==> r.value == map["0" := ExportedEntry(Named(payload))]
  {
    var validation := ValidateWledEnvelope(Obj(payload));
    if !validation.valid {
      return Failure(validation.errors);
    }
    ZeroAccepted();
    NamedExportable(payload, "0");
    var entries := ExportSingle("0", Named(payload));
    r := Success(entries);
  }

  /** buildPresetsJsonFromLibrary on a library of one exportable entry. */
  method ExportSingle(key: string, entry: map<string, JsValue>) returns (entries: map<string, JsValue>)
    requires Exportable(key, entry)
    ensures entries == map[key := ExportedEntry(entry)]
  {
    var library := map[key := entry];
    entries := BuildPresetsJsonFromLibrary(library);
    SingleLibrary(library, key, entries);
  }

  /** The export of a one-entry library whose entry is exportable holds that entry alone. */
  lemma SingleLibrary(library: map<string, map<string, JsValue>>, key: string, entries: map<string, JsValue>)
    requires library.Keys == {key} && Exportable(key, library[key])
    requires (exists id :: id in library && Exportable(id, library[id])) ==> ExportsOf(library, entries)
    ensures entries == map[key := ExportedEntry(library[key])]
  {
    assert key in library && Exportable(key, library[key]);
    assert entries.Keys == {key};
  }

  /** Number("0") is 0. */
  lemma ZeroAccepted()
    ensures AcceptedId("0")
  {
    DecimalKeyRoundTrip(0);
    assert NatToDecimal(0) == "0";
  }

  /** `{ n: "Studio Export", ...payload }` */
  function Named(payload: map<string, JsValue>): (r: map<string, JsValue>)
    ensures r.Keys == payload.Keys + {"n"}
    ensures forall k :: k in payload ==> r[k] == payload[k]
    ensures "n" !in payload ==> r["n"] == Str("Studio Export")
  {
    map["n" := Str("Studio Export")] + payload
  }

  /** Naming the payload does not change the validator's errors. */
  lemma NamedErrors(payload: map<string, JsValue>)
    ensures EnvelopeErrors(Obj(Named(payload))) == EnvelopeErrors(Obj(payload))
  {
    var named := Named(payload);
    assert Get(Obj(named), "on") == Get(Obj(payload), "on");
    assert Get(Obj(named), "bri") == Get(Obj(payload), "bri");
    assert Get(Obj(named), "seg") == Get(Obj(payload), "seg");
  }

  /** A valid payload, named, is exportable under an accepted id. */
  lemma NamedExportable(payload: map<string, JsValue>, key: string)
    requires EnvelopeErrors(Obj(payload)) == [] && AcceptedId(key)
    ensures Exportable(key, Named(payload))
  {
    NamedErrors(payload);
    ExportableExactly(key, Named(payload));
  }

  // ---------------------------------------------------------------------------
  // Both artifacts

  datatype ExportArtifacts = ExportArtifacts(cfg: LedConfig, presets: map<string, JsValue>)

  /** buildExportArtifacts: cfg.json first, so an invalid topology fails before the
      presets are looked at; then the library's export when a library is given, or
      the single envelope's export otherwise. */
  method BuildExportArtifacts(topology: JsValue, payload: map<string, JsValue>, library: Option<map<string, map<string, JsValue>>>)
    returns (r: Result<ExportArtifacts, seq<Error>>)
    ensures TopologyErrors(topology) != [] ==> r == Failure(TopologyErrors(topology))
    ensures r.Success? ==> BuildCfgJson(topology) == Success(r.value.cfg)
    ensures TopologyErrors(topology) == [] && library.None? ==>
      && (r.Failure? <==> EnvelopeErrors(Obj(payload)) != [])
      && (r.Failure? ==> r.error == EnvelopeErrors(Obj(payload)))
      && (r.Success? ==> r.value.presets == map["0" := ExportedEntry(Named(payload))])
    ensures TopologyErrors(topology) == [] && library.Some? ==>
      && r.Success? && r.value.presets != map[]
      && (forall id :: id in r.value.presets ==> EnvelopeErrors(r.value.presets[id]) == [])
      && ((exists id :: id in library.value && Exportable(id, library.value[id])) ==> ExportsOf(library.value, r.value.presets))
      && ((forall id :: id in library.value ==> !Exportable(id, library.value[id])) ==> r.value.presets == map["0" := DefaultEntry])
  {
    var cfg := BuildCfgJson(topology);
    if cfg.Failure? {
      return Failure(cfg.error);
    }
    if library.Some? {
      var entries := BuildPresetsJsonFromLibrary(library.value);
      r := Success(ExportArtifacts(cfg.value, entries));
    } else {
      var presets := BuildPresetsJson(payload);
      if presets.Failure? {
        return Failure(presets.error);
      }
      r := Success(ExportArtifacts(cfg.value, presets.value));
    }
  }
}
