/**
 * The rendering topology: the map from logical LED indices to physical slots
 * around the gaps of a strip, and the 3-D positions the visualiser draws the
 * LEDs at, for a strip or a (serpentine) matrix.
 */
module LedTopology {
  import opened Wrappers
  import opened Arithmetic
  import opened Sanitize

  // ---------------------------------------------------------------------------
  // Gaps

  /** Every gap starts no later than the ones after it. */
  ghost predicate SortedByStart(gaps: seq<Gap>)
  {
    forall i, j :: 0 <= i < j < |gaps| ==> gaps[i].start <= gaps[j].start
  }

  /** Insert `g` after every gap of `sorted` that starts no later than it. */
  function Insert(sorted: seq<Gap>, g: Gap): (r: seq<Gap>)
    requires SortedByStart(sorted)
    ensures SortedByStart(r)
    ensures multiset(r) == multiset(sorted) + multiset{g}
    ensures forall k :: 0 <= k < |r| ==> r[k] == g || r[k] in sorted
    decreases |sorted|
  {
    if sorted == [] || sorted[|sorted| - 1].start <= g.start then sorted + [g]
    else
      var rest := sorted[..|sorted| - 1];
      var front := Insert(rest, g);
      var last := sorted[|sorted| - 1];
      assert sorted == rest + [last];
      AllBelow(front, rest, g, last.start);
      front + [last]
  }

  /** Gaps drawn from `g` and `rest` all start at or before a bound both respect. */
  lemma AllBelow(front: seq<Gap>, rest: seq<Gap>, g: Gap, bound: int)
    requires forall k :: 0 <= k < |front| ==> front[k] == g || front[k] in rest
    requires g.start <= bound && forall k :: 0 <= k < |rest| ==> rest[k].start <= bound
    ensures forall k :: 0 <= k < |front| ==> front[k].start <= bound
  {
  }

  /** sortedGaps: a sorted copy of the gaps, by start; the argument is not reordered. */
  function SortedGaps(gaps: seq<Gap>): (r: seq<Gap>)
    ensures SortedByStart(r)
    ensures multiset(r) == multiset(gaps)
  {
    if gaps == [] then []
    else
      assert gaps == gaps[..|gaps| - 1] + [gaps[|gaps| - 1]];
      Insert(SortedGaps(gaps[..|gaps| - 1]), gaps[|gaps| - 1])
  }

  /** `gaps.reduce((sum, gap) => sum + gap.length, 0)` */
  function GapTotal(gaps: seq<Gap>): int
  {
    if gaps == [] then 0 else GapTotal(gaps[..|gaps| - 1]) + gaps[|gaps| - 1].length
  }

  /** The number of physical slots the gaps that start at or before logical index `i` take. */
  function GapOffset(gaps: seq<Gap>, i: int): int
  {
    if gaps == [] then 0
    else GapOffset(gaps[..|gaps| - 1], i) + Shift(gaps[|gaps| - 1], i)
  }

  /** What one gap adds to the physical index of logical index `i`. */
  function Shift(g: Gap, i: int): int
  {
    if g.start <= i then g.length else 0
  }

  lemma {:induction false} GapOffsetAppend(u: seq<Gap>, v: seq<Gap>, i: int)
    ensures GapOffset(u + v, i) == GapOffset(u, i) + GapOffset(v, i)
    decreases |v|
  {
    if v == [] {
      assert u + v == u;
    } else {
      var w := v[..|v| - 1];
      assert (u + v)[..|u + v| - 1] == u + w;
      GapOffsetAppend(u, w, i);
    }
  }

  /** Taking gap `k` out of a list removes its shift and nothing else. */
  lemma RemoveGap(b: seq<Gap>, k: nat, i: int)
    requires k < |b|
    ensures GapOffset(b, i) == GapOffset(b[..k] + b[k + 1..], i) + Shift(b[k], i)
    ensures multiset(b) == multiset(b[..k] + b[k + 1..]) + multiset{b[k]}
  {
    assert b == b[..k] + ([b[k]] + b[k + 1..]);
    GapOffsetAppend(b[..k], [b[k]] + b[k + 1..], i);
    GapOffsetAppend([b[k]], b[k + 1..], i);
    GapOffsetAppend(b[..k], b[k + 1..], i);
    assert GapOffset([b[k]], i) == Shift(b[k], i) by {
      assert [b[k]][..0] == [];
    }
  }

  /** The offset a list of gaps gives does not depend on the order of the gaps. */
  lemma {:induction false} GapOffsetPermutation(a: seq<Gap>, b: seq<Gap>, i: int)
    requires multiset(a) == multiset(b)
    ensures GapOffset(a, i) == GapOffset(b, i)
    decreases |a|
  {
    if a == [] {
      assert |b| == |multiset(b)| == 0;
    } else {
      var x := a[|a| - 1];
      var a' := a[..|a| - 1];
      assert a == a' + [x];
      assert multiset(a) == multiset(a') + multiset{x};
      assert x in multiset(b);
      var k :| 0 <= k < |b| && b[k] == x;
      RemoveGap(b, k, i);
      var b' := b[..k] + b[k + 1..];
      assert multiset(a') == multiset(a) - multiset{x} == multiset(b') by {
        assert multiset(a) - multiset{x} == multiset(a');
        assert multiset(b) - multiset{x} == multiset(b');
      }
      GapOffsetPermutation(a', b[..k] + b[k + 1..], i);
    }
  }

  /** With every gap starting at or before `i`, all of their lengths count. */
  lemma {:induction false} AllGapsCount(gaps: seq<Gap>, i: int)
    requires forall k :: 0 <= k < |gaps| ==> gaps[k].start <= i
    ensures GapOffset(gaps, i) == GapTotal(gaps)
    decreases |gaps|
  {
    if gaps != [] {
      AllGapsCount(gaps[..|gaps| - 1], i);
    }
  }

  /** In a sorted list, the gaps from the first one that starts after `i` on add nothing. */
  lemma {:induction false} LaterGapsIgnored(gaps: seq<Gap>, c: nat, i: int)
    requires SortedByStart(gaps) && c < |gaps| && gaps[c].start > i
    ensures GapOffset(gaps, i) == GapOffset(gaps[..c], i)
    decreases |gaps|
  {
    if |gaps| - 1 > c {
      var front := gaps[..|gaps| - 1];
      assert front[..c] == gaps[..c];
      LaterGapsIgnored(front, c, i);
    } else {
      assert gaps[..|gaps| - 1] == gaps[..c];
    }
  }

  // ---------------------------------------------------------------------------
  // Physical index map

  /** Where logical LED `i` sits: after `i` LEDs and every gap starting at or before it. */
  function PhysicalIndex(gaps: seq<Gap>, i: int): int
  {
    i + GapOffset(gaps, i)
  }

  /** The physical slot of every logical LED. */
  function PhysicalIndexMap(ledCount: int, gaps: seq<Gap>): (r: seq<int>)
    ensures |r| == Max(0, ledCount)
    ensures forall i :: 0 <= i < |r| ==> r[i] == PhysicalIndex(gaps, i)
  {
    seq(Max(0, ledCount), i => PhysicalIndex(gaps, i))
  }

  /** buildPhysicalIndexMap: walk the sorted gaps once, adding each gap's length
      when the logical index reaches its start. */
  method BuildPhysicalIndexMap(ledCount: int, gaps: seq<Gap>) returns (physical: seq<int>)
    ensures physical == PhysicalIndexMap(ledCount, gaps)
  {
    physical := [];
    var sorted := SortedGaps(gaps);
    var gapCursor := 0;
    var gapOffset := 0;
    var logicalIndex := 0;
    while logicalIndex < ledCount
      invariant 0 <= logicalIndex && |physical| == logicalIndex
      invariant logicalIndex <= Max(0, ledCount)
      invariant 0 <= gapCursor <= |sorted|
      invariant forall k :: 0 <= k < gapCursor ==> sorted[k].start < logicalIndex
      invariant gapOffset == GapTotal(sorted[..gapCursor])
      invariant forall i :: 0 <= i < logicalIndex ==> physical[i] == PhysicalIndex(gaps, i)
      decreases ledCount - logicalIndex
    {
      gapCursor, gapOffset := PassGaps(sorted, gapCursor, gapOffset, logicalIndex);
      OffsetAtCursor(gaps, sorted, gapCursor, logicalIndex);
      var slot := logicalIndex + gapOffset;
      assert slot == PhysicalIndex(gaps, logicalIndex);
      physical := physical + [slot];
      logicalIndex := logicalIndex + 1;
    }
    var expected := PhysicalIndexMap(ledCount, gaps);
    assert |physical| == |expected|;
  }

  /** The inner loop of buildPhysicalIndexMap: move the cursor past every gap
      that starts at or before `logicalIndex`, adding up their lengths. */
  method PassGaps(sorted: seq<Gap>, cursor: nat, offset: int, logicalIndex: int)
    returns (gapCursor: nat, gapOffset: int)
    requires cursor <= |sorted| && offset == GapTotal(sorted[..cursor])
    requires forall k :: 0 <= k < cursor ==> sorted[k].start < logicalIndex
    ensures cursor <= gapCursor <= |sorted| && gapOffset == GapTotal(sorted[..gapCursor])
    ensures forall k :: 0 <= k < gapCursor ==> sorted[k].start <= logicalIndex
    ensures gapCursor == |sorted| || sorted[gapCursor].start > logicalIndex
  {
    gapCursor, gapOffset := cursor, offset;
    while gapCursor < |sorted| && sorted[gapCursor].start <= logicalIndex
      invariant cursor <= gapCursor <= |sorted|
      invariant forall k :: 0 <= k < gapCursor ==> sorted[k].start <= logicalIndex
      invariant gapOffset == GapTotal(sorted[..gapCursor])
      decreases |sorted| - gapCursor
    {
      assert sorted[..gapCursor + 1][..gapCursor] == sorted[..gapCursor];
      gapOffset := gapOffset + sorted[gapCursor].length;
      gapCursor := gapCursor + 1;
    }
  }

  /** Once the cursor has passed exactly the sorted gaps that start at or before
      `i`, the lengths it has added up are the offset of `i`. */
  lemma OffsetAtCursor(gaps: seq<Gap>, sorted: seq<Gap>, cursor: nat, i: int)
    requires SortedByStart(sorted) && multiset(sorted) == multiset(gaps) && cursor <= |sorted|
    requires forall k :: 0 <= k < cursor ==> sorted[k].start <= i
    requires cursor == |sorted| || sorted[cursor].start > i
    ensures GapOffset(gaps, i) == GapTotal(sorted[..cursor])
  {
    GapOffsetPermutation(sorted, gaps, i);
    if cursor < |sorted| {
      LaterGapsIgnored(sorted, cursor, i);
    } else {
      assert sorted[..cursor] == sorted;
    }
    AllGapsCount(sorted[..cursor], i);
  }

  /** One strip of 8 LEDs with a gap of 2 slots at index 3. */
  lemma GapExample()
    ensures PhysicalIndexMap(8, [Gap(3, 2)]) == [0, 1, 2, 5, 6, 7, 8, 9]
  {
    var gaps := [Gap(3, 2)];
    assert gaps[..0] == [];
    var r := PhysicalIndexMap(8, gaps);
    assert |r| == 8;
    forall i | 0 <= i < 8
      ensures r[i] == [0, 1, 2, 5, 6, 7, 8, 9][i]
    {
      assert GapOffset(gaps, i) == Shift(Gap(3, 2), i);
    }
  }

  /** Gaps of non-negative length never make the offset smaller further on. */
  lemma {:induction false} OffsetMonotone(gaps: seq<Gap>, i: int, j: int)
    requires forall k :: 0 <= k < |gaps| ==> gaps[k].length >= 0
    requires i <= j
    ensures 0 <= GapOffset(gaps, i) <= GapOffset(gaps, j)
    decreases |gaps|
  {
    if gaps != [] {
      OffsetMonotone(gaps[..|gaps| - 1], i, j);
    }
  }

  /** With gap lengths that are not negative, the map is strictly increasing and
      never puts an LED before its logical index. */
  lemma MapIncreasing(ledCount: int, gaps: seq<Gap>)
    requires forall k :: 0 <= k < |gaps| ==> gaps[k].length >= 0
    ensures var m := PhysicalIndexMap(ledCount, gaps);
      (forall i :: 0 <= i < |m| ==> m[i] >= i)
      && forall i, j :: 0 <= i < j < |m| ==> m[i] < m[j]
  {
    var m := PhysicalIndexMap(ledCount, gaps);
    forall i, j | 0 <= i <= j < |m|
      ensures i <= m[i] && m[i] + (j - i) <= m[j]
    {
      OffsetMonotone(gaps, i, j);
      OffsetMonotone(gaps, 0, i);
    }
  }

  /** Reordering the gaps does not change the map. */
  lemma MapIgnoresGapOrder(ledCount: int, gaps: seq<Gap>, reordered: seq<Gap>)
    requires multiset(gaps) == multiset(reordered)
    ensures PhysicalIndexMap(ledCount, gaps) == PhysicalIndexMap(ledCount, reordered)
  {
    forall i | 0 <= i < Max(0, ledCount)
      ensures PhysicalIndex(gaps, i) == PhysicalIndex(reordered, i)
    {
      GapOffsetPermutation(gaps, reordered, i);
    }
  }

  // ---------------------------------------------------------------------------
  // LED positions

  datatype Point = Point(x: real, y: real, z: real)

  /** `topology.physicalIndexMap ?? buildPhysicalIndexMap(topology.ledCount, topology.gaps)` */
  function IndexMapOf(topology: Topology, physicalIndexMap: Option<seq<int>>): seq<int>
  {
    match physicalIndexMap
    case Some(m) => m
    case None => PhysicalIndexMap(topology.ledCount, topology.gaps)
  }

  /** The middle of a strip of `max(1, ledCount + total gap length)` slots. */
  function StripCenter(topology: Topology): real
  {
    (Max(1, topology.ledCount + GapTotal(topology.gaps)) - 1) as real / 2.0
  }

  /** The matrix row of a physical slot: `Math.floor(physicalIndex / width)`. */
  function Row(physicalIndex: int, width: int): int
    requires width >= 1
  {
    physicalIndex / width
  }

  /** The matrix column of a physical slot, right to left on odd rows of a serpentine matrix. */
  function Column(physicalIndex: int, width: int, serpentine: bool): int
    requires width >= 1
  {
    var column := TruncRem(physicalIndex, width);
    if serpentine && TruncRem(Row(physicalIndex, width), 2) == 1 then width - 1 - column else column
  }

  /** The position of logical LED `logicalIndex`, at physical slot `physicalIndex`. */
  function LedPosition(topology: Topology, physicalIndex: int, logicalIndex: int): Point
    requires topology.mode == Strip || topology.width >= 1
  {
    if topology.mode == Strip then Point(physicalIndex as real - StripCenter(topology), 0.0, 0.0)
    else MatrixPosition(topology.width, topology.height, topology.serpentine, physicalIndex, logicalIndex)
  }

  /** The position in a matrix: centred on the middle of the grid, the first row
      on top; LEDs beyond `width * height` are drawn further down, one row per
      `width` of logical index. */
  function MatrixPosition(width: int, height: int, serpentine: bool, physicalIndex: int, logicalIndex: int): Point
    requires width >= 1
  {
    var centeredX := Centered(Column(physicalIndex, width, serpentine), width);
    var centeredY := -Centered(Row(physicalIndex, width), height);
    var overflow := if logicalIndex >= width * height then logicalIndex / width else 0;
    Point(centeredX, centeredY - overflow as real, 0.0)
  }

  /** `k - (n - 1) / 2`: cell k of n, measured from the middle. */
  function Centered(k: int, n: int): real
  {
    k as real - (n - 1) as real / 2.0
  }

  /** buildLedPositions: one point per entry of the index map, all in the z = 0 plane;
      a strip lies on the x axis. */
  function BuildLedPositions(topology: Topology, physicalIndexMap: Option<seq<int>>): (r: seq<Point>)
    requires topology.mode == Strip || topology.width >= 1
    ensures |r| == |IndexMapOf(topology, physicalIndexMap)|
    ensures forall k :: 0 <= k < |r| ==> r[k].z == 0.0
    ensures topology.mode == Strip ==> forall k :: 0 <= k < |r| ==> r[k].y == 0.0
  {
    var m := IndexMapOf(topology, physicalIndexMap);
    seq(|m|, k requires 0 <= k < |m| => LedPosition(topology, m[k], k))
  }

  /** A gapless strip is centred: the first and the last LED, the second and the
      second to last, and so on, lie opposite each other around x = 0. */
  lemma StripCentered(topology: Topology)
    requires topology.mode == Strip && topology.gaps == [] && topology.ledCount >= 1
    ensures var r := BuildLedPositions(topology, None);
      forall k :: 0 <= k < |r| ==> r[k].x == -r[|r| - 1 - k].x
  {
    assert GapTotal([]) == 0;
    var r := BuildLedPositions(topology, None);
    forall k | 0 <= k < |r|
      ensures r[k].x == -r[|r| - 1 - k].x
    {
      assert GapOffset([], k) == 0 && GapOffset([], |r| - 1 - k) == 0;
    }
  }

  /** Along a strip whose gaps are not negative, LEDs lie left to right in logical order. */
  lemma StripInOrder(topology: Topology)
    requires topology.mode == Strip
    requires forall k :: 0 <= k < |topology.gaps| ==> topology.gaps[k].length >= 0
    ensures var r := BuildLedPositions(topology, None);
      forall i, j :: 0 <= i < j < |r| ==> r[i].x < r[j].x
  {
    MapIncreasing(topology.ledCount, topology.gaps);
  }

  /** On a slot that is not negative, the column lies in [0, width - 1], and on
      an odd row of a serpentine matrix it counts from the right. */
  lemma ColumnInRange(physicalIndex: int, width: int, serpentine: bool)
    requires width >= 1 && physicalIndex >= 0
    ensures 0 <= Column(physicalIndex, width, serpentine) < width
    ensures serpentine && Row(physicalIndex, width) % 2 == 1 ==>
      Column(physicalIndex, width, serpentine) == width - 1 - physicalIndex % width
    ensures !(serpentine && Row(physicalIndex, width) % 2 == 1) ==>
      Column(physicalIndex, width, serpentine) == physicalIndex % width
  {
    var row := Row(physicalIndex, width);
    assert physicalIndex == row * width + physicalIndex % width;
    if row < 0 {
      MulSign(row, width);
    }
    assert TruncRem(row, 2) == row % 2;
  }

  /** In a serpentine matrix the strip snakes: the last LED of a row and the first
      of the next share a column, and neighbours within a row are one column apart. */
  lemma SerpentineContinuity(p: int, width: int)
    requires width >= 1 && p >= 0
    ensures p % width == width - 1 ==> Column(p, width, true) == Column(p + 1, width, true)
    ensures p % width < width - 1 ==>
      Column(p + 1, width, true) - Column(p, width, true) == (if Row(p, width) % 2 == 1 then -1 else 1)
  {
    var q, r := p / width, p % width;
    assert p == q * width + r;
    ColumnOf(p, width, q, r);
    if r == width - 1 {
      MulSucc(q, width);
      ColumnOf(p + 1, width, q + 1, 0);
    } else {
      ColumnOf(p + 1, width, q, r + 1);
    }
  }

  /** Slot q * width + r lies on row q, in column r or, reversed, width - 1 - r. */
  lemma ColumnOf(p: int, width: int, q: int, r: int)
    requires width >= 1 && 0 <= r < width && p == q * width + r && p >= 0
    ensures Row(p, width) == q
    ensures Column(p, width, true) == if q % 2 == 1 then width - 1 - r else r
    ensures Column(p, width, false) == r
  {
    if q < 0 {
      MulSign(q, width);
    }
    DivModUnique(p, width, q, r);
    ColumnInRange(p, width, true);
    ColumnInRange(p, width, false);
  }

  /** A 3 x 2 serpentine matrix: the second row runs right to left. */
  lemma SerpentineExample()
    ensures var r := BuildLedPositions(Topology(Matrix, 3, 2, 6, true, []), None);
      && |r| == 6
      && r[0] == Point(-1.0, 0.5, 0.0) && r[1] == Point(0.0, 0.5, 0.0) && r[2] == Point(1.0, 0.5, 0.0)
      && r[3] == Point(1.0, -0.5, 0.0) && r[4] == Point(0.0, -0.5, 0.0) && r[5] == Point(-1.0, -0.5, 0.0)
  {
    SerpentineExampleGrid();
    SerpentineExampleCells();
  }

  lemma SerpentineExampleGrid()
    ensures var r := BuildLedPositions(Topology(Matrix, 3, 2, 6, true, []), None);
      |r| == 6 && forall k :: 0 <= k < 6 ==> r[k] == MatrixPosition(3, 2, true, k, k)
  {
    var m := PhysicalIndexMap(6, []);
    forall k | 0 <= k < 6
      ensures m[k] == k
    {
      assert GapOffset([], k) == 0;
    }
  }

  lemma SerpentineExampleCells()
    ensures MatrixPosition(3, 2, true, 0, 0) == Point(-1.0, 0.5, 0.0)
    ensures MatrixPosition(3, 2, true, 1, 1) == Point(0.0, 0.5, 0.0)
    ensures MatrixPosition(3, 2, true, 2, 2) == Point(1.0, 0.5, 0.0)
    ensures MatrixPosition(3, 2, true, 3, 3) == Point(1.0, -0.5, 0.0)
    ensures MatrixPosition(3, 2, true, 4, 4) == Point(0.0, -0.5, 0.0)
    ensures MatrixPosition(3, 2, true, 5, 5) == Point(-1.0, -0.5, 0.0)
  {
    ColumnOf(0, 3, 0, 0);
    ColumnOf(1, 3, 0, 1);
    ColumnOf(2, 3, 0, 2);
    ColumnOf(3, 3, 1, 0);
    ColumnOf(4, 3, 1, 1);
    ColumnOf(5, 3, 1, 2);
  }
}
