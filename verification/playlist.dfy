/**
 * Playlist normalisation (src/state/playlist.ts): repairs a WLED playlist payload
 * into preset ids 1..250 (at most 100 of them), timing arrays of the same length,
 * a repeat count and an end preset, collecting a warning per repair; and the
 * Fisher-Yates shuffle of a playlist order.
 */
module Playlist {
  import opened Wrappers
  import opened JsValues

  /** clampInt: Number(value) rounded and clamped into [lo, hi]; non-finite gives
      the fallback. */
  function ClampInt(value: JsValue, lo: int, hi: int, fallback: int): (r: int)
    ensures ToNumber(value).None? ==> r == fallback
    ensures ToNumber(value).Some? && lo <= hi ==> lo <= r <= hi
    ensures ToNumber(value).Some? && lo as real <= ToNumber(value).value <= hi as real ==>
      ToNumber(value).value - 0.5 < r as real <= ToNumber(value).value + 0.5
  {
    match ToNumber(value)
    case None => fallback
    case Some(n) => Max(lo, Min(hi, Round(n)))
  }

  /** A run of k copies of x. */
  function Repeat(x: int, k: nat): (r: seq<int>)
    ensures |r| == k && forall i :: 0 <= i < k ==> r[i] == x
  {
    seq(k, _ => x)
  }

  /** The timing values before fitting: an array is clamped entry by entry, anything
      else is one clamped value; an empty array becomes [fallback]. */
  function RawTiming(value: JsValue, fallback: int, max: int): (r: seq<int>)
    ensures |r| >= 1
  {
    var values := if value.Arr? then seq(|value.items|, i requires 0 <= i < |value.items| => ClampInt(value.items[i], 0, max, fallback))
                  else [ClampInt(value, 0, max, fallback)];
    if values == [] then [fallback] else values
  }

  /** The timing values padded with their last entry, or truncated, to `length`. */
  function Fit(values: seq<int>, length: nat): (r: seq<int>)
    requires |values| >= 1
  {
    if |values| < length then values + Repeat(values[|values| - 1], length - |values|) else values[..length]
  }

  /** Fitting gives exactly `length` values: the leading ones kept, the rest copies of
      the last input value. */
  lemma FitShape(values: seq<int>, length: nat)
    requires |values| >= 1
    ensures |Fit(values, length)| == length
    ensures forall i :: 0 <= i < Min(|values|, length) ==> Fit(values, length)[i] == values[i]
    ensures forall i :: |values| <= i < length ==> Fit(values, length)[i] == values[|values| - 1]
  {
  }

  /** Fitting keeps every value inside a range that holds all the inputs. */
  lemma FitInRange(values: seq<int>, length: nat, lo: int, hi: int)
    requires |values| >= 1 && forall i :: 0 <= i < |values| ==> lo <= values[i] <= hi
    ensures forall i :: 0 <= i < |Fit(values, length)| ==> lo <= Fit(values, length)[i] <= hi
  {
    FitShape(values, length);
  }

  /** Every raw timing value lies in [0, max] when the fallback does. */
  lemma RawTimingInRange(value: JsValue, fallback: int, max: int)
    requires 0 <= fallback <= max
    ensures forall i :: 0 <= i < |RawTiming(value, fallback, max)| ==> 0 <= RawTiming(value, fallback, max)[i] <= max
  {
  }

  /** The two timing fields. */
  datatype TimingKey = Dur | Transition

  function KeyName(key: TimingKey): string
  {
    match key
    case Dur => "dur"
    case Transition => "transition"
  }

  /** The warnings normalisation can record. */
  datatype Warning =
    | PsNotArray
    | NoValidIds
    | PsClamped
    | Extended(key: TimingKey)
    | Truncated(key: TimingKey)
    | RepeatNegative
    | EndOutOfRange

  /** The text of each warning. */
  function Message(w: Warning): string
  {
    match w
    case PsNotArray => "playlist.ps must be a non-empty array"
    case NoValidIds => "playlist.ps contained no valid preset IDs (1..250)"
    case PsClamped => "playlist.ps was clamped to 100 entries"
    case Extended(key) => "playlist." + KeyName(key) + " was extended to match playlist.ps length"
    case Truncated(key) => "playlist." + KeyName(key) + " was truncated to playlist.ps length"
    case RepeatNegative => "playlist.repeat < 0 normalized to infinite repeat with shuffle enabled"
    case EndOutOfRange => "playlist.end > 250 (except 255) normalized to 0"
  }

  /** The warning normalizeTimingField records when n values had to be fitted
      to `length`: extended when too few, truncated when too many. */
  function TimingWarnings(n: nat, length: nat, key: TimingKey): (r: seq<Warning>)
    ensures r == [] <==> n == length
    ensures n < length ==> r == [Extended(key)]
    ensures n > length ==> r == [Truncated(key)]
  {
    (if n < length then [Extended(key)] else []) + (if n > length then [Truncated(key)] else [])
  }

  /** normalizeTimingField: a value per preset, with a warning when the input had to
      be extended or truncated. */
  method NormalizeTimingField(value: JsValue, length: nat, fallback: int, max: int, warnings: seq<Warning>, key: TimingKey)
    returns (values: seq<int>, warningsOut: seq<Warning>)
    ensures values == Fit(RawTiming(value, fallback, max), length)
    ensures warningsOut == warnings + TimingWarnings(|RawTiming(value, fallback, max)|, length, key)
  {
    values := RawTiming(value, fallback, max);
    ghost var raw := values;
    warningsOut := warnings;
    if |values| < length {
      var last := values[|values| - 1];
      while |values| < length
        invariant |raw| <= |values| <= length
        invariant values == raw + Repeat(last, |values| - |raw|)
      {
        values := values + [last];
      }
      warningsOut := warningsOut + [Extended(key)];
    }
    if |values| > length {
      values := values[..length];
      warningsOut := warningsOut + [Truncated(key)];
    }
  }

  /** The `ps` ids clamped into [0, 255], keeping those in 1..250, in order. */
  function PresetIds(entries: seq<JsValue>): (r: seq<int>)
    ensures |r| <= |entries|
    ensures forall i :: 0 <= i < |r| ==> 1 <= r[i] <= 250
  {
    if entries == [] then []
    else
      var id := ClampInt(entries[0], 0, 255, 0);
      (if 0 < id <= 250 then [id] else []) + PresetIds(entries[1..])
  }

  /** Filtering keeps the relative order: the ids of a concatenation are the ids of
      the first part followed by those of the second. */
  lemma {:induction false} PresetIdsAppend(a: seq<JsValue>, b: seq<JsValue>)
    ensures PresetIds(a + b) == PresetIds(a) + PresetIds(b)
    decreases |a|
  {
    if a != [] {
      assert (a + b)[1..] == a[1..] + b;
      PresetIdsAppend(a[1..], b);
    } else {
      assert a + b == b;
    }
  }

  /** An id survives exactly when some entry clamps to it and it lies in 1..250. */
  lemma {:induction false} PresetIdsMembers(entries: seq<JsValue>, x: int)
    ensures x in PresetIds(entries) <==>
      1 <= x <= 250 && exists i :: 0 <= i < |entries| && ClampInt(entries[i], 0, 255, 0) == x
    decreases |entries|
  {
    if entries != [] {
      PresetIdsMembers(entries[1..], x);
      if x in PresetIds(entries[1..]) {
        var i :| 0 <= i < |entries[1..]| && ClampInt(entries[1..][i], 0, 255, 0) == x;
        assert entries[i + 1] == entries[1..][i];
      }
      if 1 <= x <= 250 && ClampInt(entries[0], 0, 255, 0) != x {
        if i :| 0 <= i < |entries| && ClampInt(entries[i], 0, 255, 0) == x {
          assert entries[1..][i - 1] == entries[i];
        }
      }
    }
  }

  datatype NormalizedPlaylist = NormalizedPlaylist(
    ps: seq<int>, dur: seq<int>, transition: seq<int>, repeat: int, end: int, r: bool)

  datatype PlaylistResult = PlaylistResult(valid: bool, warnings: seq<Warning>, playlist: Option<NormalizedPlaylist>)

  const MaxTiming := 65530

  /** The warnings of a payload whose `ps` array holds `count` >= 1 valid ids,
      in the order normalizePlaylistPayload records them. */
  function ValidWarnings(payload: JsValue, count: nat): seq<Warning>
  {
    RepairWarnings(count, |RawTiming(Get(payload, "dur"), 100, MaxTiming)|,
      |RawTiming(Get(payload, "transition"), 0, MaxTiming)|,
      ClampInt(Get(payload, "repeat"), -32768, 32767, 0), ClampInt(Get(payload, "end"), 0, 255, 0))
  }

  /** The repairs of `count` ids, `dur` and `transition` timing values, the
      clamped repeat and the clamped end, each with its warning. */
  function RepairWarnings(count: nat, dur: nat, transition: nat, repeat: int, end: int): seq<Warning>
  {
    var length := Min(100, count);
    (if count > 100 then [PsClamped] else [])
    + TimingWarnings(dur, length, Dur)
    + TimingWarnings(transition, length, Transition)
    + (if repeat < 0 then [RepeatNegative] else [])
    + (if 250 < end < 255 then [EndOutOfRange] else [])
  }

  /** Each warning of a valid payload is raised exactly when its repair takes
      place, and no other warning is raised. */
  lemma RepairWarningsExact(count: nat, dur: nat, transition: nat, repeat: int, end: int, x: Warning)
    ensures var length := Min(100, count);
      x in RepairWarnings(count, dur, transition, repeat, end) <==>
        || (x == PsClamped && count > 100)
        || (x == Extended(Dur) && dur < length) || (x == Truncated(Dur) && dur > length)
        || (x == Extended(Transition) && transition < length) || (x == Truncated(Transition) && transition > length)
        || (x == RepeatNegative && repeat < 0)
        || (x == EndOutOfRange && 250 < end < 255)
  {
    var length := Min(100, count);
    var clamped := if count > 100 then [PsClamped] else [];
    var durs, transitions := TimingWarnings(dur, length, Dur), TimingWarnings(transition, length, Transition);
    var repeats := if repeat < 0 then [RepeatNegative] else [];
    var ends := if 250 < end < 255 then [EndOutOfRange] else [];
    assert RepairWarnings(count, dur, transition, repeat, end) == clamped + durs + transitions + repeats + ends;
    InFive(x, clamped, durs, transitions, repeats, ends);
  }

  lemma InFive(x: Warning, a: seq<Warning>, b: seq<Warning>, c: seq<Warning>, d: seq<Warning>, e: seq<Warning>)
    ensures x in a + b + c + d + e <==> x in a || x in b || x in c || x in d || x in e
  {
  }

  /** What normalizePlaylistPayload makes of a payload whose `ps` holds valid
      ids: at most 100 of them, a timing value per id for `dur` and
      `transition`, a non-negative repeat (a negative one turns shuffling on)
      and an end preset in 0..250 or 255. */
  ghost predicate NormalizedFrom(payload: JsValue, p: NormalizedPlaylist)
    requires Get(payload, "ps").Arr?
  {
    var ids := PresetIds(Get(payload, "ps").items);
    var repeat := ClampInt(Get(payload, "repeat"), -32768, 32767, 0);
    var end := ClampInt(Get(payload, "end"), 0, 255, 0);
    && p.ps == ids[..Min(100, |ids|)]
    && p.dur == Fit(RawTiming(Get(payload, "dur"), 100, MaxTiming), |p.ps|)
    && p.transition == Fit(RawTiming(Get(payload, "transition"), 0, MaxTiming), |p.ps|)
    && (forall i :: 0 <= i < |p.ps| ==> 0 <= p.dur[i] <= MaxTiming && 0 <= p.transition[i] <= MaxTiming)
    && |p.dur| == |p.ps| == |p.transition|
    && (repeat < 0 ==> p.repeat == 0 && p.r)
    && (repeat >= 0 ==> p.repeat == repeat && p.r == Truthy(Get(payload, "r")))
    && 0 <= p.repeat <= 32767
    && (0 <= p.end <= 250 || p.end == 255)
    && (end <= 250 || end == 255 ==> p.end == end)
    && (250 < end < 255 ==> p.end == 0)
  }

  /** normalizePlaylistPayload */
  method NormalizePlaylistPayload(payload: JsValue) returns (result: PlaylistResult)
    ensures result.valid <==> Truthy(payload) && Get(payload, "ps").Arr? && PresetIds(Get(payload, "ps").items) != []
    ensures result.valid <==> result.playlist.Some?
    ensures !result.valid ==>
      result.warnings == [if Truthy(payload) && Get(payload, "ps").Arr? then NoValidIds else PsNotArray]
    ensures result.valid ==>
      && result.warnings == ValidWarnings(payload, |PresetIds(Get(payload, "ps").items)|)
      && NormalizedFrom(payload, result.playlist.value)
  {
    if !Truthy(payload) || !Get(payload, "ps").Arr? {
      return PlaylistResult(false, [PsNotArray], None);
    }
    if PresetIds(Get(payload, "ps").items) == [] {
      return PlaylistResult(false, [NoValidIds], None);
    }
    var playlist, warnings := NormalizeValid(payload);
    result := PlaylistResult(true, warnings, Some(playlist));
  }

  /** normalizePlaylistPayload once `ps` is known to hold valid ids. */
  method NormalizeValid(payload: JsValue) returns (p: NormalizedPlaylist, warnings: seq<Warning>)
    requires Get(payload, "ps").Arr? && PresetIds(Get(payload, "ps").items) != []
    ensures warnings == ValidWarnings(payload, |PresetIds(Get(payload, "ps").items)|)
    ensures NormalizedFrom(payload, p)
  {
    var ids := PresetIds(Get(payload, "ps").items);
    var ps := ids;
    warnings := [];
    if |ps| > 100 {
      ps := ps[..100];
      warnings := [PsClamped];
    }
    assert ps == ids[..Min(100, |ids|)];
    var dur, transition;
    dur, transition, warnings := NormalizeTimings(payload, |ps|, warnings);
    var repeat, end, shuffle;
    repeat, end, shuffle, warnings := RepeatAndEnd(payload, warnings);
    p := NormalizedPlaylist(ps, dur, transition, repeat, end, shuffle);
  }

  /** The `dur` and `transition` fields fitted to `length` presets, each value in [0, 65530]. */
  method NormalizeTimings(payload: JsValue, length: nat, warnings: seq<Warning>)
    returns (dur: seq<int>, transition: seq<int>, warningsOut: seq<Warning>)
    ensures dur == Fit(RawTiming(Get(payload, "dur"), 100, MaxTiming), length)
    ensures transition == Fit(RawTiming(Get(payload, "transition"), 0, MaxTiming), length)
    ensures |dur| == length == |transition|
    ensures forall i :: 0 <= i < length ==> 0 <= dur[i] <= MaxTiming && 0 <= transition[i] <= MaxTiming
    ensures warningsOut == warnings
      + TimingWarnings(|RawTiming(Get(payload, "dur"), 100, MaxTiming)|, length, Dur)
      + TimingWarnings(|RawTiming(Get(payload, "transition"), 0, MaxTiming)|, length, Transition)
  {
    var durSource, transitionSource := Get(payload, "dur"), Get(payload, "transition");
    dur, warningsOut := NormalizeTimingField(durSource, length, 100, MaxTiming, warnings, Dur);
    transition, warningsOut := NormalizeTimingField(transitionSource, length, 0, MaxTiming, warningsOut, Transition);
    FitShape(RawTiming(durSource, 100, MaxTiming), length);
    RawTimingInRange(durSource, 100, MaxTiming);
    FitInRange(RawTiming(durSource, 100, MaxTiming), length, 0, MaxTiming);
    RawTimingInRange(transitionSource, 0, MaxTiming);
    FitInRange(RawTiming(transitionSource, 0, MaxTiming), length, 0, MaxTiming);
    FitShape(RawTiming(transitionSource, 0, MaxTiming), length);
  }

  /** The repeat count, the end preset and the shuffle flag, with their warnings. */
  method RepeatAndEnd(payload: JsValue, warnings: seq<Warning>)
    returns (repeat: int, end: int, shuffle: bool, warningsOut: seq<Warning>)
    ensures var clamped := ClampInt(Get(payload, "repeat"), -32768, 32767, 0);
      && (clamped < 0 ==> repeat == 0 && shuffle)
      && (clamped >= 0 ==> repeat == clamped && shuffle == Truthy(Get(payload, "r")))
      && 0 <= repeat <= 32767
    ensures var clamped := ClampInt(Get(payload, "end"), 0, 255, 0);
      && (0 <= end <= 250 || end == 255)
      && (clamped <= 250 || clamped == 255 ==> end == clamped)
      && (250 < clamped < 255 ==> end == 0)
    ensures warningsOut == warnings
      + (if ClampInt(Get(payload, "repeat"), -32768, 32767, 0) < 0 then [RepeatNegative] else [])
      + (if 250 < ClampInt(Get(payload, "end"), 0, 255, 0) < 255 then [EndOutOfRange] else [])
  {
    warningsOut := warnings;
    repeat := ClampInt(Get(payload, "repeat"), -32768, 32767, 0);
    shuffle := Truthy(Get(payload, "r"));
    if repeat < 0 {
      repeat := 0;
      shuffle := true;
      warningsOut := warningsOut + [RepeatNegative];
    }
    end := ClampInt(Get(payload, "end"), 0, 255, 0);
    if end > 250 && end != 255 {
      end := 0;
      warningsOut := warningsOut + [EndOutOfRange];
    }
  }

  /** A short timing array is padded with its last value. */
  lemma ShortTimingPadded()
    ensures Fit(RawTiming(Arr([Num(1.0)]), 0, MaxTiming), 3) == [1, 1, 1]
    ensures Fit(RawTiming(Num(100.0), 100, MaxTiming), 3) == [100, 100, 100]
  {
    assert Round(1.0) == 1;
    assert Round(100.0) == 100;
    assert RawTiming(Arr([Num(1.0)]), 0, MaxTiming) == [1];
  }

  /** shufflePlaylistOrder: a copy of the order shuffled by Fisher-Yates. The index
      Math.random picks is any j in [0, i]; the input list is a value and is left
      as it was. */
  method ShufflePlaylistOrder(values: seq<int>) returns (out: seq<int>)
    ensures |out| == |values|
    ensures multiset(out) == multiset(values)
  {
    var a := new int[|values|](k requires 0 <= k < |values| => values[k]);
    assert a[..] == values;
    var i := a.Length - 1;
    while i > 0
      invariant i < a.Length
      invariant multiset(a[..]) == multiset(values)
    {
      var j :| 0 <= j <= i;
      a[i], a[j] := a[j], a[i];
      i := i - 1;
    }
    out := a[..];
  }
}
