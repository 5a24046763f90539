/**
 * Visualisation sync: painted strips that are linked to WLED segments are laid
 * end to end, segment by segment, in one derived LED index space, and every
 * linked segment gets the contiguous [start, stop) range its strips occupy.
 * The points along a strip are abstracted: a strip of `count` LEDs contributes
 * the points 0 .. count - 1 of that strip.
 */
module Visualization {
  import opened Wrappers
  import opened JsValues

  /** A strip painted on the canvas; `pathLength` is the length of its polyline. */
  datatype Strip = Strip(id: string, pointCount: nat, pathLength: real, ledCount: real, createdAt: real)

  /** A link from a strip to the index of the segment it displays. */
  datatype Link = Link(stripId: string, segmentIndex: int)

  datatype Project = Project(strips: seq<Strip>, links: seq<Link>)

  /** The segment fields the sync reads or writes; every other field of the
      payload is carried along unchanged in `fields`. */
  datatype SegmentPayload = SegmentPayload(
    start: Option<int>, stop: Option<int>, on: Option<bool>, bri: Option<int>, fields: map<string, JsValue>)

  /** The `seg` field of a command: an array of segments, one segment, or absent. */
  datatype SegInput = SegList(items: seq<SegmentPayload>) | SegOne(seg: SegmentPayload) | SegAbsent

  /** A strip with its link and the LED count it is drawn with. */
  datatype Mapped = Mapped(strip: Strip, link: Link, ledCount: real)

  /** Point `index` along the strip `stripId`. */
  datatype DerivedPoint = DerivedPoint(stripId: string, index: nat)

  datatype SyncResult = SyncResult(
    topologyLedCount: int, segments: seq<SegmentPayload>, derivedPositions: seq<DerivedPoint>, derivedIndexMap: seq<int>)

  const DefaultSegment := SegmentPayload(Some(0), Some(1), Some(true), None, map[
    "fx" := Num(8.0), "sx" := Num(128.0), "ix" := Num(128.0), "pal" := Num(0.0), "c1" := Num(0.0), "c2" := Num(0.0),
    "col" := Arr([Arr([Num(255.0), Num(170.0), Num(0.0)]), Arr([Num(0.0), Num(0.0), Num(0.0)]), Arr([Num(0.0), Num(0.0), Num(0.0)])])])

  /** The `{}` a missing segment is copied from. */
  const EmptySegment := SegmentPayload(None, None, None, None, map[])

  /** segmentArray: the command's segments, or the single default segment. */
  function SegmentArray(seg: SegInput): (r: seq<SegmentPayload>)
    ensures seg.SegAbsent? ==> r == [DefaultSegment]
    ensures !seg.SegList? ==> |r| == 1
  {
    match seg
    case SegList(items) => items
    case SegOne(s) => [s]
    case SegAbsent => [DefaultSegment]
  }

  // ---------------------------------------------------------------------------
  // Links

  /** The link that `linksByStrip.get(id)` returns: the last one for the strip. */
  function LastLink(links: seq<Link>, id: string): Option<Link>
  {
    if links == [] then None
    else if links[|links| - 1].stripId == id then Some(links[|links| - 1])
    else LastLink(links[..|links| - 1], id)
  }

  /** A strip has a link exactly when some link names it, and the one it gets
      is the last of those. */
  lemma {:induction false} LastLinkExactly(links: seq<Link>, id: string)
    ensures LastLink(links, id).Some? <==> exists k :: 0 <= k < |links| && links[k].stripId == id
    ensures LastLink(links, id).Some? ==>
      exists k :: (0 <= k < |links| && links[k] == LastLink(links, id).value
        && forall j :: k < j < |links| ==> links[j].stripId != id)
    ensures LastLink(links, id).Some? ==> LastLink(links, id).value.stripId == id
    decreases |links|
  {
    if links != [] {
      var n := |links| - 1;
      var front := links[..n];
      LastLinkExactly(front, id);
      if links[n].stripId != id {
        if exists k :: 0 <= k < |links| && links[k].stripId == id {
          var k :| 0 <= k < |links| && links[k].stripId == id;
          assert front[k].stripId == id;
        }
        if LastLink(links, id).Some? {
          var k :| 0 <= k < |front| && front[k] == LastLink(front, id).value
            && forall j :: k < j < |front| ==> front[j].stripId != id;
          assert links[k] == LastLink(links, id).value;
        }
      }
    }
  }

  /** `for (const link of project.links) linksByStrip.set(link.stripId, link)` */
  method IndexLinks(links: seq<Link>) returns (index: map<string, Link>)
    ensures forall id :: id in index <==> LastLink(links, id).Some?
    ensures forall id :: id in index ==> index[id] == LastLink(links, id).value
  {
    index := map[];
    for i := 0 to |links|
      invariant forall id :: id in index <==> LastLink(links[..i], id).Some?
      invariant forall id :: id in index ==> index[id] == LastLink(links[..i], id).value
    {
      assert links[..i + 1][..i] == links[..i];
      index := index[links[i].stripId := links[i]];
    }
    assert links[..|links|] == links;
  }

  // ---------------------------------------------------------------------------
  // Mapped strips

  /** `Math.max(2, Math.round(polylineLength(strip.points) / 14))` */
  function Estimated(strip: Strip): (r: int)
    ensures r >= 2
  {
    Max(2, Round(strip.pathLength / 14.0))
  }

  /** A strip is drawn when it has a link and at least two points, with its own
      LED count when that is positive and the estimate otherwise. */
  function MappedOf(strip: Strip, index: map<string, Link>): (r: Option<Mapped>)
    ensures r.Some? <==> strip.id in index && strip.pointCount >= 2
    ensures r.Some? ==> r.value.strip == strip && r.value.link == index[strip.id] && r.value.ledCount > 0.0
    ensures r.Some? && strip.ledCount <= 0.0 ==> r.value.ledCount >= 2.0
  {
    if strip.id !in index || strip.pointCount < 2 then None
    else Some(Mapped(strip, index[strip.id], if strip.ledCount > 0.0 then strip.ledCount else Estimated(strip) as real))
  }

  /** The strips that are drawn, in project order. */
  function MappedStrips(strips: seq<Strip>, index: map<string, Link>): seq<Mapped>
  {
    if strips == [] then []
    else
      MappedStrips(strips[..|strips| - 1], index)
      + match MappedOf(strips[|strips| - 1], index) case Some(m) => [m] case None => []
  }

  /** A strip without a link, or with fewer than two points, is never drawn. */
  lemma {:induction false} MappedExactly(strips: seq<Strip>, index: map<string, Link>, m: Mapped)
    ensures m in MappedStrips(strips, index) <==>
      exists k :: 0 <= k < |strips| && MappedOf(strips[k], index) == Some(m)
    ensures m in MappedStrips(strips, index) ==>
      m.strip.id in index && m.link == index[m.strip.id] && m.strip.pointCount >= 2 && m.strip in strips
    decreases |strips|
  {
    if strips != [] {
      var n := |strips| - 1;
      MappedExactly(strips[..n], index, m);
      if exists k :: 0 <= k < |strips| && MappedOf(strips[k], index) == Some(m) {
        var k :| 0 <= k < |strips| && MappedOf(strips[k], index) == Some(m);
        if k < n {
          assert strips[..n][k] == strips[k];
        }
      }
      if m in MappedStrips(strips[..n], index) {
        var k :| 0 <= k < n && MappedOf(strips[..n][k], index) == Some(m);
        assert strips[k] == strips[..n][k];
      }
    }
  }

  /** The loop that collects the drawn strips. */
  method CollectMapped(strips: seq<Strip>, index: map<string, Link>) returns (mapped: seq<Mapped>)
    ensures mapped == MappedStrips(strips, index)
  {
    mapped := [];
    for i := 0 to |strips|
      invariant mapped == MappedStrips(strips[..i], index)
    {
      assert strips[..i + 1][..i] == strips[..i];
      var m := MappedOf(strips[i], index);
      if m.Some? {
        mapped := mapped + [m.value];
      }
    }
    assert strips[..|strips|] == strips;
  }

  // ---------------------------------------------------------------------------
  // Sorting

  /** The comparator `a.link.segmentIndex - b.link.segmentIndex || a.strip.createdAt - b.strip.createdAt`
      does not put `a` after `b`. */
  predicate InOrder(a: Mapped, b: Mapped)
  {
    a.link.segmentIndex < b.link.segmentIndex
    || (a.link.segmentIndex == b.link.segmentIndex && a.strip.createdAt <= b.strip.createdAt)
  }

  ghost predicate SortedByKey(s: seq<Mapped>)
  {
    forall i, j :: 0 <= i < j < |s| ==> InOrder(s[i], s[j])
  }

  /** Insert `m` after every entry that does not come after it (a stable insertion). */
  function InsertMapped(sorted: seq<Mapped>, m: Mapped): (r: seq<Mapped>)
    requires SortedByKey(sorted)
    ensures SortedByKey(r)
    ensures multiset(r) == multiset(sorted) + multiset{m}
    ensures forall k :: 0 <= k < |r| ==> r[k] == m || r[k] in sorted
    decreases |sorted|
  {
    if sorted == [] || InOrder(sorted[|sorted| - 1], m) then sorted + [m]
    else
      var rest := sorted[..|sorted| - 1];
      var front := InsertMapped(rest, m);
      var last := sorted[|sorted| - 1];
      assert sorted == rest + [last];
      AllInOrder(front, rest, m, last);
      front + [last]
  }

  /** Entries drawn from `m` and `rest` all come no later than `last`. */
  lemma AllInOrder(front: seq<Mapped>, rest: seq<Mapped>, m: Mapped, last: Mapped)
    requires forall k :: 0 <= k < |front| ==> front[k] == m || front[k] in rest
    requires !InOrder(last, m) && forall k :: 0 <= k < |rest| ==> InOrder(rest[k], last)
    ensures forall k :: 0 <= k < |front| ==> InOrder(front[k], last)
  {
  }

  /** `mapped.sort(...)`: a stable sort by segment index, then by creation time. */
  function SortMapped(mapped: seq<Mapped>): (r: seq<Mapped>)
    ensures SortedByKey(r)
    ensures multiset(r) == multiset(mapped)
  {
    if mapped == [] then []
    else
      assert mapped == mapped[..|mapped| - 1] + [mapped[|mapped| - 1]];
      InsertMapped(SortMapped(mapped[..|mapped| - 1]), mapped[|mapped| - 1])
  }

  // ---------------------------------------------------------------------------
  // Segment ranges

  /** `mapped.filter((entry) => entry.link.segmentIndex === segIndex)` */
  function SegmentStrips(mapped: seq<Mapped>, segIndex: int): seq<Mapped>
  {
    if mapped == [] then []
    else
      var last := mapped[|mapped| - 1];
      SegmentStrips(mapped[..|mapped| - 1], segIndex) + (if last.link.segmentIndex == segIndex then [last] else [])
  }

  /** `Math.max(1, Math.round(entry.ledCount))`: every drawn strip has at least one LED. */
  function LedCount(m: Mapped): int
  {
    Max(1, Round(m.ledCount))
  }

  /** The LEDs the strips take together. */
  function Leds(entries: seq<Mapped>): (r: int)
    ensures r >= |entries|
  {
    if entries == [] then 0 else Leds(entries[..|entries| - 1]) + LedCount(entries[|entries| - 1])
  }

  /** The points the strips contribute, strip after strip. */
  function Points(entries: seq<Mapped>): (r: seq<DerivedPoint>)
    ensures |r| == Leds(entries)
  {
    if entries == [] then []
    else
      var last := entries[|entries| - 1];
      Points(entries[..|entries| - 1]) + seq(LedCount(last), k requires 0 <= k < LedCount(last) => DerivedPoint(last.strip.id, k))
  }

  /** Where the cursor stands when segment `segIndex` is reached: the LEDs of
      the strips of the segments 0 .. segIndex - 1. */
  function LedsBefore(mapped: seq<Mapped>, segIndex: int): (r: int)
    ensures r >= 0
    decreases segIndex
  {
    if segIndex <= 0 then 0 else LedsBefore(mapped, segIndex - 1) + Leds(SegmentStrips(mapped, segIndex - 1))
  }

  /** The points laid out before segment `segIndex`. */
  function PointsBefore(mapped: seq<Mapped>, segIndex: int): (r: seq<DerivedPoint>)
    ensures |r| == LedsBefore(mapped, segIndex)
    decreases segIndex
  {
    if segIndex <= 0 then [] else PointsBefore(mapped, segIndex - 1) + Points(SegmentStrips(mapped, segIndex - 1))
  }

  /** A segment that strips are linked to, with its range and the defaults for `on` and `bri`. */
  function Placed(seg: SegmentPayload, start: int, cursor: int): SegmentPayload
  {
    seg.(start := Some(start), stop := Some(Max(start + 1, cursor)),
         on := Some(match seg.on case Some(b) => b case None => true),
         bri := Some(match seg.bri case Some(b) => b case None => 125))
  }

  /** What the allocation loop makes of segment `i`. */
  function Allocated(mapped: seq<Mapped>, base: seq<SegmentPayload>, i: nat): SegmentPayload
    requires i < |base|
  {
    if SegmentStrips(mapped, i) == [] then base[i]
    else Placed(base[i], LedsBefore(mapped, i), LedsBefore(mapped, i + 1))
  }

  /** The inner loop: lay out the strips of one segment after the cursor. */
  method LayOut(entries: seq<Mapped>, cursor: int, derived: seq<DerivedPoint>)
    returns (cursorOut: int, derivedOut: seq<DerivedPoint>)
    ensures cursorOut == cursor + Leds(entries)
    ensures derivedOut == derived + Points(entries)
  {
    cursorOut, derivedOut := cursor, derived;
    for k := 0 to |entries|
      invariant cursorOut == cursor + Leds(entries[..k])
      invariant derivedOut == derived + Points(entries[..k])
    {
      var entry := entries[k];
      assert entries[..k + 1][..k] == entries[..k];
      var count := Max(1, Round(entry.ledCount));
      var points := seq(count, j requires 0 <= j < count => DerivedPoint(entry.strip.id, j));
      derivedOut := derivedOut + points;
      cursorOut := cursorOut + |points|;
    }
    assert entries[..|entries|] == entries;
  }

  /** The segments after the first `n` turns of the allocation loop. */
  function Allocation(mapped: seq<Mapped>, base: seq<SegmentPayload>, n: nat): (r: seq<SegmentPayload>)
    requires n <= |base|
    ensures |r| == |base|
    decreases n
  {
    if n == 0 then base else Allocation(mapped, base, n - 1)[n - 1 := Allocated(mapped, base, n - 1)]
  }

  /** After `n` turns the first `n` segments are allocated and the rest are untouched. */
  lemma {:induction false} AllocationAt(mapped: seq<Mapped>, base: seq<SegmentPayload>, n: nat, i: nat)
    requires n <= |base| && i < |base|
    ensures Allocation(mapped, base, n)[i] == if i < n then Allocated(mapped, base, i) else base[i]
    decreases n
  {
    if n > 0 {
      AllocationAt(mapped, base, n - 1, i);
    }
  }

  /** The outer loop: give every segment that has strips the range its strips take. */
  method Allocate(mapped: seq<Mapped>, base: seq<SegmentPayload>)
    returns (segments: seq<SegmentPayload>, derived: seq<DerivedPoint>, cursor: int)
    ensures |segments| == |base|
    ensures forall i :: 0 <= i < |base| ==> segments[i] == Allocated(mapped, base, i)
    ensures cursor == LedsBefore(mapped, |base|)
    ensures derived == PointsBefore(mapped, |base|)
  {
    segments, derived, cursor := base, [], 0;
    for segIndex := 0 to |base|
      invariant segments == Allocation(mapped, base, segIndex)
      invariant cursor == LedsBefore(mapped, segIndex)
      invariant derived == PointsBefore(mapped, segIndex)
    {
      AllocationAt(mapped, base, segIndex, segIndex);
      var seg;
      seg, cursor, derived := PlaceSegment(mapped, segments[segIndex], segIndex, cursor, derived);
      segments := segments[segIndex := seg];
    }
    forall i | 0 <= i < |base|
      ensures segments[i] == Allocated(mapped, base, i)
    {
      AllocationAt(mapped, base, |base|, i);
    }
  }

  /** One turn of the outer loop: segment `segIndex`, with the cursor where the
      earlier segments left it. */
  method PlaceSegment(mapped: seq<Mapped>, seg: SegmentPayload, segIndex: nat, cursor: int, derived: seq<DerivedPoint>)
    returns (segOut: SegmentPayload, cursorOut: int, derivedOut: seq<DerivedPoint>)
    requires cursor == LedsBefore(mapped, segIndex) && derived == PointsBefore(mapped, segIndex)
    ensures segOut == (if SegmentStrips(mapped, segIndex) == [] then seg else Placed(seg, cursor, cursorOut))
    ensures cursorOut == LedsBefore(mapped, segIndex + 1) && derivedOut == PointsBefore(mapped, segIndex + 1)
  {
    segOut, cursorOut, derivedOut := seg, cursor, derived;
    var segmentStrips := SegmentStrips(mapped, segIndex);
    if |segmentStrips| != 0 {
      var start := cursorOut;
      cursorOut, derivedOut := LayOut(segmentStrips, cursorOut, derivedOut);
      var stop := Max(start + 1, cursorOut);
      segOut := segOut.(start := Some(start), stop := Some(stop));
      segOut := segOut.(on := Some(match segOut.on case Some(b) => b case None => true));
      segOut := segOut.(bri := Some(match segOut.bri case Some(b) => b case None => 125));
    }
  }

  // ---------------------------------------------------------------------------
  // The sync

  /** `baseSegments.reduce((acc, seg) => Math.max(acc, seg.stop ?? 0), 1)` */
  function LargestStop(segments: seq<SegmentPayload>): (r: int)
    ensures r >= 1
    ensures forall k :: 0 <= k < |segments| && segments[k].stop.Some? ==> r >= segments[k].stop.value
    ensures r == 1 || exists k :: 0 <= k < |segments| && segments[k].stop == Some(r)
  {
    if segments == [] then 1
    else
      var front := segments[..|segments| - 1];
      var last := segments[|segments| - 1];
      var acc := LargestStop(front);
      assert forall k :: 0 <= k < |front| ==> front[k] == segments[k];
      Max(acc, match last.stop case Some(s) => s case None => 0)
  }

  /** `mapped.reduce((max, entry) => Math.max(max, entry.link.segmentIndex), 0)` */
  function HighestSegment(mapped: seq<Mapped>): (r: int)
    ensures r >= 0
    ensures forall k :: 0 <= k < |mapped| ==> r >= mapped[k].link.segmentIndex
  {
    if mapped == [] then 0
    else
      var front := mapped[..|mapped| - 1];
      assert forall k :: 0 <= k < |front| ==> front[k] == mapped[k];
      Max(HighestSegment(front), mapped[|mapped| - 1].link.segmentIndex)
  }

  /** The highest index is 0 or the index some strip is linked to. */
  lemma {:induction false} HighestSegmentAttained(mapped: seq<Mapped>)
    ensures var h := HighestSegment(mapped);
      h == 0 || exists k :: 0 <= k < |mapped| && mapped[k].link.segmentIndex == h
    decreases |mapped|
  {
    if mapped != [] {
      var front := mapped[..|mapped| - 1];
      HighestSegmentAttained(front);
      var h := HighestSegment(front);
      if HighestSegment(mapped) != mapped[|mapped| - 1].link.segmentIndex && h != 0 {
        var k :| 0 <= k < |front| && front[k].link.segmentIndex == h;
        assert mapped[k] == front[k];
      }
    }
  }

  /** The copy a missing segment is made from: the last one, or `{}` when there is none. */
  function Filler(base: seq<SegmentPayload>): SegmentPayload
  {
    if base == [] then EmptySegment else base[|base| - 1]
  }

  /** `while (baseSegments.length <= highestSegment) baseSegments.push({ ...last })` */
  method ExtendSegments(base: seq<SegmentPayload>, highest: int) returns (segments: seq<SegmentPayload>)
    ensures |segments| == Max(|base|, highest + 1)
    ensures segments[..|base|] == base
    ensures forall k :: |base| <= k < |segments| ==> segments[k] == Filler(base)
  {
    segments := base;
    while |segments| <= highest
      invariant |base| <= |segments| <= Max(|base|, highest + 1)
      invariant segments[..|base|] == base
      invariant forall k :: |base| <= k < |segments| ==> segments[k] == Filler(base)
      decreases highest - |segments|
    {
      var copy := if |segments| > 0 then segments[|segments| - 1] else EmptySegment;
      segments := segments + [copy];
    }
  }

  /** Every drawn strip is linked to a segment. */
  predicate AllLinked(drawn: seq<Mapped>)
  {
    forall k :: 0 <= k < |drawn| ==> drawn[k].link.segmentIndex >= 0
  }

  /** The result when strips are drawn: what the allocation makes of the
      command's segments, padded up to the highest linked segment. */
  ghost predicate DrawnSync(drawn: seq<Mapped>, base: seq<SegmentPayload>, result: SyncResult)
  {
    && AllocatedFrom(SortMapped(drawn), base, result)
    && (AllLinked(drawn) ==>
          result.topologyLedCount == |result.derivedPositions| == Leds(drawn))
  }

  /** The segments, points and LED count the allocation produces from the
      sorted strips `mapped` over the padded segments. */
  ghost predicate AllocatedFrom(mapped: seq<Mapped>, base: seq<SegmentPayload>, result: SyncResult)
  {
    var extended := |result.segments|;
    && extended == Max(|base|, HighestSegment(mapped) + 1)
    && (forall i :: 0 <= i < extended ==> result.segments[i] == Allocated(mapped, Extension(base, extended), i))
    && result.derivedPositions == PointsBefore(mapped, extended)
    && result.topologyLedCount == Max(1, LedsBefore(mapped, extended))
  }

  /** recomputeVisualizationSync */
  method RecomputeVisualizationSync(project: Project, seg: SegInput) returns (result: SyncResult)
    ensures var drawn := MappedStrips(project.strips, IndexOf(project.links));
      && (drawn == [] ==> result == SyncResult(LargestStop(SegmentArray(seg)), SegmentArray(seg), [], []))
      && (drawn != [] ==> DrawnSync(drawn, SegmentArray(seg), result))
    ensures |result.derivedIndexMap| == |result.derivedPositions|
    ensures forall i :: 0 <= i < |result.derivedIndexMap| ==> result.derivedIndexMap[i] == i
  {
    var baseSegments := SegmentArray(seg);
    var linksByStrip := IndexLinks(project.links);
    IndexOfLinks(project.links, linksByStrip);
    var drawn := CollectMapped(project.strips, linksByStrip);
    var mapped := SortMapped(drawn);
    if |mapped| == 0 {
      assert |drawn| == |multiset(drawn)| == 0;
      return SyncResult(LargestStop(baseSegments), baseSegments, [], []);
    }
    assert drawn != [];
    result := SyncDrawn(drawn, baseSegments);
  }

  /** The sync once at least one strip is drawn. */
  method SyncDrawn(drawn: seq<Mapped>, baseSegments: seq<SegmentPayload>) returns (result: SyncResult)
    requires drawn != []
    ensures DrawnSync(drawn, baseSegments, result)
    ensures |result.derivedIndexMap| == |result.derivedPositions|
    ensures forall i :: 0 <= i < |result.derivedIndexMap| ==> result.derivedIndexMap[i] == i
  {
    var mapped := SortMapped(drawn);
    var highestSegment := HighestSegment(mapped);
    var extended := ExtendSegments(baseSegments, highestSegment);
    ExtensionExactly(baseSegments, extended);
    var segments, derivedPositions, cursor := Allocate(mapped, extended);
    var derivedIndexMap := seq(|derivedPositions|, i => i);
    result := SyncResult(Max(1, cursor), segments, derivedPositions, derivedIndexMap);
    AllocatedSync(mapped, baseSegments, highestSegment, extended, result);
    DrawnSyncIntro(drawn, baseSegments, result);
  }

  /** With the allocation done, the LED count is the one DrawnSync promises. */
  lemma DrawnSyncIntro(drawn: seq<Mapped>, base: seq<SegmentPayload>, result: SyncResult)
    requires drawn != [] && AllocatedFrom(SortMapped(drawn), base, result)
    ensures DrawnSync(drawn, base, result)
  {
    if AllLinked(drawn) {
      DrawnLedCount(drawn, |result.segments|);
    }
  }

  /** What Allocate hands back over the padded segments is what the allocation produces. */
  lemma AllocatedSync(mapped: seq<Mapped>, base: seq<SegmentPayload>, highest: int, extended: seq<SegmentPayload>, result: SyncResult)
    requires highest == HighestSegment(mapped)
    requires |extended| == Max(|base|, highest + 1)
    requires extended == Extension(base, |extended|)
    requires |result.segments| == |extended|
    requires forall i :: 0 <= i < |extended| ==> result.segments[i] == Allocated(mapped, extended, i)
    requires result.derivedPositions == PointsBefore(mapped, |extended|)
    requires result.topologyLedCount == Max(1, LedsBefore(mapped, |extended|))
    ensures AllocatedFrom(mapped, base, result)
  {
  }

  /** With every strip linked, the strips allocated below the padded segment
      count hold all the LEDs drawn, and there is at least one. */
  lemma DrawnLedCount(drawn: seq<Mapped>, n: int)
    requires drawn != [] && n > HighestSegment(SortMapped(drawn))
    requires AllLinked(drawn)
    ensures Max(1, LedsBefore(SortMapped(drawn), n)) == LedsBefore(SortMapped(drawn), n) == Leds(drawn)
  {
    var mapped := SortMapped(drawn);
    EveryLedPlaced(drawn, mapped, n);
    assert |drawn| == |multiset(drawn)| == |multiset(mapped)| == |mapped|;
  }

  /** The link index as a map: each linked strip id to its last link. */
  function IndexOf(links: seq<Link>): (r: map<string, Link>)
  {
    map id | id in (set k | 0 <= k < |links| :: links[k].stripId) && LastLink(links, id).Some? :: LastLink(links, id).value
  }

  lemma IndexOfLinks(links: seq<Link>, index: map<string, Link>)
    requires forall id :: id in index <==> LastLink(links, id).Some?
    requires forall id :: id in index ==> index[id] == LastLink(links, id).value
    ensures index == IndexOf(links)
  {
    forall id
      ensures id in index <==> id in IndexOf(links)
    {
      LastLinkExactly(links, id);
    }
  }

  /** `base` padded with copies of its last segment up to `length` entries. */
  function Extension(base: seq<SegmentPayload>, length: int): (r: seq<SegmentPayload>)
  {
    base + seq(Max(0, length - |base|), k => Filler(base))
  }

  lemma ExtensionExactly(base: seq<SegmentPayload>, segments: seq<SegmentPayload>)
    requires |base| <= |segments| && segments[..|base|] == base
    requires forall k :: |base| <= k < |segments| ==> segments[k] == Filler(base)
    ensures segments == Extension(base, |segments|)
  {
    var e := Extension(base, |segments|);
    assert |e| == |segments|;
    forall k | 0 <= k < |segments|
      ensures segments[k] == e[k]
    {
      if k < |base| {
        assert segments[k] == segments[..|base|][k];
      }
    }
  }

  // ---------------------------------------------------------------------------
  // What the allocation guarantees

  /** The strips linked to one of the segments 0 .. n - 1, in order. */
  function SegmentsBelow(mapped: seq<Mapped>, n: int): (r: seq<Mapped>)
  {
    if mapped == [] then []
    else
      var last := mapped[|mapped| - 1];
      SegmentsBelow(mapped[..|mapped| - 1], n) + (if 0 <= last.link.segmentIndex < n then [last] else [])
  }

  lemma LedsSnoc(entries: seq<Mapped>, m: Mapped)
    ensures Leds(entries + [m]) == Leds(entries) + LedCount(m)
  {
    assert (entries + [m])[..|entries|] == entries;
  }

  lemma {:induction false} LedsAppend(u: seq<Mapped>, v: seq<Mapped>)
    ensures Leds(u + v) == Leds(u) + Leds(v)
    decreases |v|
  {
    if v == [] {
      assert u + v == u;
    } else {
      var w := v[..|v| - 1];
      assert (u + v)[..|u + v| - 1] == u + w;
      LedsAppend(u, w);
    }
  }

  /** Taking strip `k` out of a list removes its LEDs and nothing else. */
  lemma LedsRemove(b: seq<Mapped>, k: nat)
    requires k < |b|
    ensures Leds(b) == Leds(b[..k] + b[k + 1..]) + LedCount(b[k])
    ensures multiset(b) == multiset(b[..k] + b[k + 1..]) + multiset{b[k]}
  {
    var pre, x, post := b[..k], b[k], b[k + 1..];
    assert b == pre + ([x] + post);
    LedsAppend(pre, [x] + post);
    LedsAppend([x], post);
    LedsAppend(pre, post);
    assert Leds([x]) == LedCount(x) by {
      assert [x][..0] == [];
    }
  }

  /** The LEDs of a list of strips do not depend on their order. */
  lemma {:induction false} LedsPermutation(a: seq<Mapped>, b: seq<Mapped>)
    requires multiset(a) == multiset(b)
    ensures Leds(a) == Leds(b)
    decreases |a|
  {
    if a == [] {
      assert |b| == |multiset(b)| == 0;
    } else {
      var x := a[|a| - 1];
      var a' := a[..|a| - 1];
      assert a == a' + [x];
      assert multiset(a) == multiset(a') + multiset{x};
      assert x in multiset(b);
      var k :| 0 <= k < |b| && b[k] == x;
      LedsRemove(b, k);
      var b' := b[..k] + b[k + 1..];
      assert multiset(a') == multiset(a) - multiset{x} == multiset(b') by {
        assert multiset(a) - multiset{x} == multiset(a');
        assert multiset(b) - multiset{x} == multiset(b');
      }
      LedsPermutation(a', b');
    }
  }

  /** Taking in segment `n` adds exactly the LEDs of its strips. */
  lemma {:induction false} SegmentsBelowStep(mapped: seq<Mapped>, n: int)
    requires n >= 1
    ensures Leds(SegmentsBelow(mapped, n)) == Leds(SegmentsBelow(mapped, n - 1)) + Leds(SegmentStrips(mapped, n - 1))
    decreases |mapped|
  {
    if mapped != [] {
      var front := mapped[..|mapped| - 1];
      var last := mapped[|mapped| - 1];
      SegmentsBelowStep(front, n);
      if last.link.segmentIndex == n - 1 {
        assert SegmentsBelow(mapped, n) == SegmentsBelow(front, n) + [last];
        assert SegmentsBelow(mapped, n - 1) == SegmentsBelow(front, n - 1);
        assert SegmentStrips(mapped, n - 1) == SegmentStrips(front, n - 1) + [last];
        LedsSnoc(SegmentsBelow(front, n), last);
        LedsSnoc(SegmentStrips(front, n - 1), last);
      } else if 0 <= last.link.segmentIndex < n - 1 {
        assert SegmentsBelow(mapped, n) == SegmentsBelow(front, n) + [last];
        assert SegmentsBelow(mapped, n - 1) == SegmentsBelow(front, n - 1) + [last];
        assert SegmentStrips(mapped, n - 1) == SegmentStrips(front, n - 1);
        LedsSnoc(SegmentsBelow(front, n), last);
        LedsSnoc(SegmentsBelow(front, n - 1), last);
      } else {
        assert SegmentsBelow(mapped, n) == SegmentsBelow(front, n);
        assert SegmentsBelow(mapped, n - 1) == SegmentsBelow(front, n - 1);
        assert SegmentStrips(mapped, n - 1) == SegmentStrips(front, n - 1);
      }
    }
  }

  /** The cursor at segment `n` counts the LEDs of every strip linked below `n`. */
  lemma {:induction false} LedsBeforeCountsBelow(mapped: seq<Mapped>, n: nat)
    ensures LedsBefore(mapped, n) == Leds(SegmentsBelow(mapped, n))
    decreases n
  {
    if n == 0 {
      SegmentsBelowNone(mapped);
    } else {
      LedsBeforeCountsBelow(mapped, n - 1);
      CountsBelowStep(mapped, n);
    }
  }

  lemma CountsBelowStep(mapped: seq<Mapped>, n: nat)
    requires n >= 1 && LedsBefore(mapped, n - 1) == Leds(SegmentsBelow(mapped, n - 1))
    ensures LedsBefore(mapped, n) == Leds(SegmentsBelow(mapped, n))
  {
    SegmentsBelowStep(mapped, n);
  }

  lemma {:induction false} SegmentsBelowNone(mapped: seq<Mapped>)
    ensures SegmentsBelow(mapped, 0) == []
    decreases |mapped|
  {
    if mapped != [] {
      SegmentsBelowNone(mapped[..|mapped| - 1]);
    }
  }

  lemma {:induction false} SegmentsBelowAll(mapped: seq<Mapped>, n: int)
    requires forall k :: 0 <= k < |mapped| ==> 0 <= mapped[k].link.segmentIndex < n
    ensures SegmentsBelow(mapped, n) == mapped
    decreases |mapped|
  {
    if mapped != [] {
      var front := mapped[..|mapped| - 1];
      assert forall k :: 0 <= k < |front| ==> front[k] == mapped[k];
      SegmentsBelowAll(front, n);
      assert mapped == front + [mapped[|mapped| - 1]];
    }
  }

  /** When every drawn strip is linked to a segment that exists (index 0 .. n - 1),
      the LED space holds every LED of every drawn strip, in whatever order they came. */
  lemma EveryLedPlaced(mapped: seq<Mapped>, sorted: seq<Mapped>, n: nat)
    requires multiset(sorted) == multiset(mapped)
    requires forall k :: 0 <= k < |mapped| ==> mapped[k].link.segmentIndex >= 0
    requires forall k :: 0 <= k < |sorted| ==> sorted[k].link.segmentIndex < n
    ensures LedsBefore(sorted, n) == Leds(mapped)
  {
    forall k | 0 <= k < |sorted|
      ensures 0 <= sorted[k].link.segmentIndex < n
    {
      assert sorted[k] in multiset(mapped);
    }
    SegmentsBelowAll(sorted, n);
    LedsBeforeCountsBelow(sorted, n);
    LedsPermutation(sorted, mapped);
  }

  /** The cursor never moves back. */
  lemma {:induction false} LedsBeforeMonotone(mapped: seq<Mapped>, i: int, j: int)
    requires i <= j
    ensures LedsBefore(mapped, i) <= LedsBefore(mapped, j)
    decreases j - i
  {
    if i < j {
      LedsBeforeMonotone(mapped, i, j - 1);
    }
  }

  /** A segment with strips gets the non-empty range [start, stop) its strips
      take. */
  lemma SegmentRange(mapped: seq<Mapped>, base: seq<SegmentPayload>, i: nat)
    requires i < |base| && SegmentStrips(mapped, i) != []
    ensures Allocated(mapped, base, i).start == Some(LedsBefore(mapped, i))
    ensures Allocated(mapped, base, i).stop == Some(LedsBefore(mapped, i + 1))
    ensures LedsBefore(mapped, i) < LedsBefore(mapped, i + 1)
  {
    assert Leds(SegmentStrips(mapped, i)) >= 1;
  }

  /** A segment with strips is switched on and gets a brightness unless it has
      them already; the rest of its payload is kept. */
  lemma SegmentDefaults(mapped: seq<Mapped>, base: seq<SegmentPayload>, i: nat)
    requires i < |base| && SegmentStrips(mapped, i) != []
    ensures Allocated(mapped, base, i).on == Some(if base[i].on.Some? then base[i].on.value else true)
    ensures Allocated(mapped, base, i).bri == Some(if base[i].bri.Some? then base[i].bri.value else 125)
    ensures Allocated(mapped, base, i).fields == base[i].fields
  {
  }

  /** The LEDs of the range of segment `i` are exactly the points of its strips. */
  lemma SegmentPoints(mapped: seq<Mapped>, i: nat)
    ensures PointsBefore(mapped, i + 1)[LedsBefore(mapped, i)..] == Points(SegmentStrips(mapped, i))
  {
  }

  /** The ranges of two segments with strips do not overlap, and the later segment comes later. */
  lemma RangesDisjoint(mapped: seq<Mapped>, base: seq<SegmentPayload>, i: nat, j: nat)
    requires i < j < |base| && SegmentStrips(mapped, i) != [] && SegmentStrips(mapped, j) != []
    ensures Allocated(mapped, base, i).stop.value <= Allocated(mapped, base, j).start.value
  {
    var stop, start := LedsBefore(mapped, i + 1), LedsBefore(mapped, j);
    LedsBeforeMonotone(mapped, i + 1, j);
    assert stop <= start;
    SegmentRange(mapped, base, i);
    assert Allocated(mapped, base, i).stop == Some(stop);
    SegmentRange(mapped, base, j);
    assert Allocated(mapped, base, j).start == Some(start);
  }

  // ---------------------------------------------------------------------------
  // The two-strip layout

  const StripOne := Strip("strip_1", 2, 100.0, 8.0, 1.0)
  const StripTwo := Strip("strip_2", 2, 100.0, 6.0, 2.0)
  const ExampleLinks := [Link("strip_1", 0), Link("strip_2", 1)]

  const DrawnOne := Mapped(StripOne, Link("strip_1", 0), 8.0)
  const DrawnTwo := Mapped(StripTwo, Link("strip_2", 1), 6.0)

  lemma ExampleIndex()
    ensures IndexOf(ExampleLinks) == map["strip_1" := Link("strip_1", 0), "strip_2" := Link("strip_2", 1)]
  {
    assert "strip_1" != "strip_2" by {
      assert "strip_1"[6] != "strip_2"[6];
    }
    assert LastLink(ExampleLinks, "strip_2") == Some(Link("strip_2", 1));
    assert LastLink(ExampleLinks, "strip_1") == Some(Link("strip_1", 0)) by {
      assert ExampleLinks[..1] == [Link("strip_1", 0)];
    }
    assert (set k | 0 <= k < |ExampleLinks| :: ExampleLinks[k].stripId) == {"strip_1", "strip_2"} by {
      assert ExampleLinks[0].stripId == "strip_1";
      assert ExampleLinks[1].stripId == "strip_2";
    }
  }

  lemma ExampleDrawn()
    ensures MappedStrips([StripOne, StripTwo], IndexOf(ExampleLinks)) == [DrawnOne, DrawnTwo]
  {
    ExampleIndex();
    var index := IndexOf(ExampleLinks);
    assert MappedOf(StripOne, index) == Some(DrawnOne);
    assert MappedOf(StripTwo, index) == Some(DrawnTwo);
    assert [StripOne, StripTwo][..1] == [StripOne];
    assert [StripOne][..0] == [];
    assert MappedStrips([StripOne], index) == [DrawnOne];
  }

  lemma ExampleSorted()
    ensures SortMapped([DrawnOne, DrawnTwo]) == [DrawnOne, DrawnTwo]
  {
    assert [DrawnOne, DrawnTwo][..1] == [DrawnOne];
    assert [DrawnOne][..0] == [];
    assert SortMapped([DrawnOne]) == [DrawnOne];
  }

  lemma ExampleCursor()
    ensures SegmentStrips([DrawnOne, DrawnTwo], 0) == [DrawnOne]
    ensures SegmentStrips([DrawnOne, DrawnTwo], 1) == [DrawnTwo]
    ensures LedsBefore([DrawnOne, DrawnTwo], 1) == 8 && LedsBefore([DrawnOne, DrawnTwo], 2) == 14
  {
    var mapped := [DrawnOne, DrawnTwo];
    assert mapped[..1] == [DrawnOne];
    assert [DrawnOne][..0] == [];
    assert SegmentStrips([DrawnOne], 0) == [] + [DrawnOne] == [DrawnOne];
    assert SegmentStrips([DrawnOne], 1) == [] + [] == [];
    assert SegmentStrips(mapped, 0) == [DrawnOne] + [];
    assert SegmentStrips(mapped, 1) == [] + [DrawnTwo];
    assert Leds([DrawnOne]) == 8 && Leds([DrawnTwo]) == 6;
  }

  /** Strips of 8 and 6 LEDs linked to segments 0 and 1 fill the LEDs 0 .. 13:
      segment 0 gets [0, 8) and segment 1 gets [8, 14). */
  lemma ExampleRanges(base: seq<SegmentPayload>)
    requires |base| == 2
    ensures var mapped := SortMapped(MappedStrips([StripOne, StripTwo], IndexOf(ExampleLinks)));
      && HighestSegment(mapped) == 1
      && LedsBefore(mapped, 2) == 14
      && Allocated(mapped, base, 0).start == Some(0) && Allocated(mapped, base, 0).stop == Some(8)
      && Allocated(mapped, base, 1).start == Some(8) && Allocated(mapped, base, 1).stop == Some(14)
  {
    ExampleDrawn();
    ExampleSorted();
    ExampleCursor();
    ExampleHighest();
    var mapped := [DrawnOne, DrawnTwo];
    SegmentRange(mapped, base, 0);
    SegmentRange(mapped, base, 1);
  }

  lemma ExampleHighest()
    ensures HighestSegment([DrawnOne, DrawnTwo]) == 1
  {
    assert [DrawnOne, DrawnTwo][..1] == [DrawnOne];
    assert [DrawnOne][..0] == [];
    assert HighestSegment([DrawnOne]) == Max(HighestSegment([]), 0) == 0;
  }
}
