/**
 The ideal interest curve: points (block, interest) sorted by block, linear between two points, constant
 before the first and after the last.
 */
module Interest {
  import opened Perbills

  datatype Point = Point(block: nat, interest: Perbill)

  // ---------- evaluation ----------

  /** The first position whose point is at or after the block; the length of the list if there is none. */
  function Position(points: seq<Point>, block: nat): (r: nat)
    ensures r <= |points|
    ensures r < |points| ==> points[r].block >= block
    ensures forall i :: 0 <= i < r ==> points[i].block < block
  {
    if points == [] then 0
    else if points[0].block >= block then 0
    else 1 + Position(points[1..], block)
  }

  function HalfEra(era: nat): nat { Of(FromRational(1, 2), era) }

  /** From the end of the first era on, interpolate from the middle of an era. */
  function CalcBlock(era: nat, block: nat): nat {
    if block >= era then SatSub(block, HalfEra(era)) else block
  }

  function Diff(a: Perbill, b: Perbill): Perbill {
    if a > b then a - b else b - a
  }

  function Ratio(era: nat, block: nat, start: Point, end: Point): Perbill {
    FromRational(CalcBlock(era, block), SatSub(end.block, start.block))
  }

  /** How far the interest has moved from the start towards the end of a segment. */
  function Advance(era: nat, block: nat, start: Point, end: Point): (r: Perbill)
    ensures r <= Diff(start.interest, end.interest)
  {
    Times(Ratio(era, block, start, end), Diff(start.interest, end.interest))
  }

  /** The interest at a block between two points. */
  function ComputeIdealInterest(era: nat, block: nat, start: Point, end: Point): Perbill {
    var diff := Diff(start.interest, end.interest);
    if diff == 0 then start.interest
    else
      var step := Advance(era, block, start, end);
      if start.interest > end.interest then SatSub(start.interest, step) else PerbillAdd(start.interest, step)
  }

  function GetIdealInterest(era: nat, points: seq<Point>, block: nat): Perbill
    requires points != []
  {
    var index := Position(points, block);
    if index == |points| then points[|points| - 1].interest
    else if index == 0 then points[0].interest
    else ComputeIdealInterest(era, block, points[index - 1], points[index])
  }

  // ---------- any list of points ----------

  /** Half an era never exceeds the era, so no block subtraction underflows. */
  lemma {:induction false} HalfEraFits(era: nat)
    ensures HalfEra(era) == era / 2
  {
    assert FromRational(1, 2) == 500_000_000;
    var n := 500_000_000 * era;
    assert n == BILLION * (era / 2) + 500_000_000 * (era % 2);
    assert HalfEra(era) == Nearest(n);
  }

  /** The segment used for a block has positive length and ends at or after the block, sorted points or not. */
  lemma {:induction false} SegmentPositive(points: seq<Point>, block: nat)
    requires 0 < Position(points, block) < |points|
    ensures var i := Position(points, block); points[i - 1].block < block <= points[i].block
  {
  }

  /** The interest at a block lies between the interests of the two points around it. */
  lemma {:induction false} WithinSegment(era: nat, block: nat, start: Point, end: Point)
    ensures var r := ComputeIdealInterest(era, block, start, end);
      start.interest <= r <= end.interest || end.interest <= r <= start.interest
  {
  }

  /** A block far enough past the start of its segment has the interest of the segment's end, without interpolation. */
  lemma {:induction false} SegmentSaturates(era: nat, block: nat, start: Point, end: Point)
    requires start.block < block <= end.block
    requires (if block >= era then block - era / 2 else block) >= end.block - start.block
    ensures ComputeIdealInterest(era, block, start, end) == end.interest
  {
    HalfEraFits(era);
    FullRatio(CalcBlock(era, block), end.block - start.block);
    FullTimes(Diff(start.interest, end.interest));
  }

  /** Two truncations lose less than two billionths: t is diff * x / n with the ratio x / n truncated first. */
  lemma {:induction false} TwoTruncations(x: nat, n: nat, diff: Perbill)
    requires x < n
    ensures var t := Times(FromRational(x, n), diff); t * n <= diff * x < (t + 2) * n
  {
    var q := x * BILLION / n;
    DivUpper(x * BILLION, n, BILLION);
    var t := q * diff / BILLION;
    assert Times(FromRational(x, n), diff) == t;
    assert q * n <= x * BILLION < q * n + n by { QuotientBounds(x * BILLION, n); }
    assert t * BILLION <= q * diff < t * BILLION + BILLION by { QuotientBounds(q * diff, BILLION); }
    LowerTruncation(x, n, diff, q, t);
    UpperTruncation(x, n, diff, q, t);
  }

  lemma {:induction false} LowerTruncation(x: nat, n: nat, diff: nat, q: nat, t: nat)
    requires q * n <= x * BILLION && t * BILLION <= q * diff
    ensures t * n <= diff * x
  {
    MulMono(n, t * BILLION, q * diff);
    MulMono(diff, q * n, x * BILLION);
    assert n * (q * diff) == diff * (q * n);
    assert n * (t * BILLION) == (t * n) * BILLION && diff * (x * BILLION) == (diff * x) * BILLION;
  }

  lemma {:induction false} UpperTruncation(x: nat, n: nat, diff: Perbill, q: nat, t: nat)
    requires n > 0 && x * BILLION < q * n + n && q * diff < t * BILLION + BILLION
    ensures diff * x < (t + 2) * n
  {
    MulMono(diff, x * BILLION, q * n + n);
    assert diff * (x * BILLION) == (diff * x) * BILLION;
    assert diff * (q * n + n) == n * (q * diff + diff);
    MulMono(n, q * diff + diff + 1, t * BILLION + 2 * BILLION);
    assert n * (t * BILLION + 2 * BILLION) == ((t + 2) * n) * BILLION;
    assert n * (q * diff + diff + 1) == n * (q * diff + diff) + n;
  }

  /** r lies on the way from the start to the end of a segment, x of its n blocks in, up to two billionths behind. */
  predicate OnTheWay(start: Point, end: Point, r: Perbill, x: nat, n: nat) {
    var diff := if start.interest > end.interest then start.interest - end.interest else end.interest - start.interest;
    var moved := if start.interest > end.interest then start.interest - r else r - start.interest;
    && 0 <= moved <= diff
    && moved * n <= diff * x < (moved + 2) * n
  }

  lemma {:induction false} SegmentValue(era: nat, block: nat, start: Point, end: Point, x: nat, n: nat)
    requires n > 0 && n == SatSub(end.block, start.block) && x == CalcBlock(era, block)
    ensures var r := ComputeIdealInterest(era, block, start, end);
      if x >= n then r == end.interest else OnTheWay(start, end, r, x, n)
  {
    var diff := Diff(start.interest, end.interest);
    if x >= n {
      FullRatio(x, n);
      FullTimes(diff);
    } else {
      TwoTruncations(x, n, diff);
    }
  }

  /**
   What the curve is: the first interest up to the first point, the last one after the last point, and in
   between, with i the first point at or after the block, the interpolation between points i - 1 and i. The
   abscissa is the block itself, less half an era from the end of the first era on.
   */
  lemma {:induction false} CurveValue(era: nat, points: seq<Point>, block: nat, i: nat)
    requires points != [] && i <= |points|
    requires i < |points| ==> points[i].block >= block
    requires forall j :: 0 <= j < i ==> points[j].block < block
    ensures var r := GetIdealInterest(era, points, block);
      if i == 0 then r == points[0].interest
      else if i == |points| then r == points[|points| - 1].interest
      else
        var n := points[i].block - points[i - 1].block;
        var x := if block >= era then block - era / 2 else block;
        if x >= n then r == points[i].interest else OnTheWay(points[i - 1], points[i], r, x, n)
  {
    assert Position(points, block) == i;
    HalfEraFits(era);
    if 0 < i < |points| {
      var n := points[i].block - points[i - 1].block;
      SegmentValue(era, block, points[i - 1], points[i], CalcBlock(era, block), n);
    }
  }

  // ---------- sorted, non-increasing points ----------

  predicate SortedByBlock(points: seq<Point>) {
    forall i, j :: 0 <= i < j < |points| ==> points[i].block <= points[j].block
  }

  predicate NonIncreasing(points: seq<Point>) {
    forall i, j :: 0 <= i < j < |points| ==> points[i].interest >= points[j].interest
  }

  lemma {:induction false} PositionMono(points: seq<Point>, b: nat, b': nat)
    requires b <= b'
    ensures Position(points, b) <= Position(points, b')
  {
  }

  /** Within one segment the interest falls as the abscissa grows. */
  lemma {:induction false} SegmentMono(era: nat, b: nat, b': nat, start: Point, end: Point)
    requires CalcBlock(era, b) <= CalcBlock(era, b') && start.interest >= end.interest
    ensures ComputeIdealInterest(era, b', start, end) <= ComputeIdealInterest(era, b, start, end)
  {
    var diff := Diff(start.interest, end.interest);
    FromRationalMono(CalcBlock(era, b), CalcBlock(era, b'), SatSub(end.block, start.block));
    TimesMono(Ratio(era, b, start, end), diff, Ratio(era, b', start, end), diff);
  }

  lemma {:induction false} CalcBlockMono(era: nat, b: nat, b': nat)
    requires b <= b' && (b' < era || era <= b)
    ensures CalcBlock(era, b) <= CalcBlock(era, b')
  {
  }

  /** What the interest at a block is bounded by: the point after it from below, the point before it from above. */
  lemma {:induction false} Bracketed(era: nat, points: seq<Point>, block: nat)
    requires points != [] && NonIncreasing(points)
    ensures var i, r := Position(points, block), GetIdealInterest(era, points, block);
      && (i < |points| ==> points[i].interest <= r)
      && (0 < i ==> r <= points[i - 1].interest)
  {
    var i := Position(points, block);
    if 0 < i < |points| {
      WithinSegment(era, block, points[i - 1], points[i]);
    }
  }

  /** Two blocks in different segments are ordered whatever their abscissas are. */
  lemma {:induction false} AcrossSegments(era: nat, points: seq<Point>, b: nat, b': nat)
    requires points != [] && NonIncreasing(points)
    requires Position(points, b) < Position(points, b')
    ensures GetIdealInterest(era, points, b') <= GetIdealInterest(era, points, b)
  {
    Bracketed(era, points, b);
    Bracketed(era, points, b');
    var i, j := Position(points, b), Position(points, b') - 1;
    assert i == j || points[i].interest >= points[j].interest;
  }

  /**
   The ideal interest never rises from one block to a later one, across segments and over duplicate
   blocks, unless the two blocks share a segment and the shift by half an era turns their order around.
   */
  lemma {:induction false} InterestFalls(era: nat, points: seq<Point>, b: nat, b': nat)
    requires points != [] && NonIncreasing(points) && b <= b'
    requires Position(points, b) < Position(points, b') || CalcBlock(era, b) <= CalcBlock(era, b')
    ensures GetIdealInterest(era, points, b') <= GetIdealInterest(era, points, b)
  {
    PositionMono(points, b, b');
    var i := Position(points, b);
    if i < Position(points, b') {
      AcrossSegments(era, points, b, b');
    } else if 0 < i < |points| {
      assert points[i - 1].interest >= points[i].interest;
      SegmentMono(era, b, b', points[i - 1], points[i]);
    }
  }

  /** From the end of the first era on, and equally before it, the curve is non-increasing. */
  lemma {:induction false} NonIncreasingCurve(era: nat, points: seq<Point>, b: nat, b': nat)
    requires points != [] && NonIncreasing(points) && b <= b'
    requires era <= b || b' < era
    ensures GetIdealInterest(era, points, b') <= GetIdealInterest(era, points, b)
  {
    CalcBlockMono(era, b, b');
    InterestFalls(era, points, b, b');
  }

  /**
   The block before the end of the first era and the block at it share no segment, or the abscissa that
   jumps back by half an era still leads at least as far from the start of the segment.
   */
  predicate NoJump(era: nat, points: seq<Point>)
    requires points != []
  {
    era == 0 ||
      var i := Position(points, era);
      || i == 0 || i == |points| || Position(points, era - 1) < i
      || Advance(era, era - 1, points[i - 1], points[i]) <= Advance(era, era, points[i - 1], points[i])
  }

  /** The step from the last block of the first era to the next is the one place where the curve can rise. */
  lemma {:induction false} JumpExactly(era: nat, points: seq<Point>)
    requires points != [] && NonIncreasing(points) && era > 0
    ensures GetIdealInterest(era, points, era) <= GetIdealInterest(era, points, era - 1) <==> NoJump(era, points)
  {
    var i := Position(points, era);
    PositionMono(points, era - 1, era);
    if Position(points, era - 1) == i && 0 < i < |points| {
      SharedSegment(era, points, i);
    } else {
      NoSharedSegment(era, points, era - 1, era);
      NoSharedJump(era, points);
    }
  }

  lemma {:induction false} NoSharedJump(era: nat, points: seq<Point>)
    requires points != [] && era > 0
    requires var i := Position(points, era); i == 0 || i == |points| || Position(points, era - 1) < i
    ensures NoJump(era, points)
  {
  }

  lemma {:induction false} NoSharedSegment(era: nat, points: seq<Point>, b: nat, b': nat)
    requires points != [] && NonIncreasing(points) && b <= b'
    requires var i := Position(points, b'); i == 0 || i == |points| || Position(points, b) < i
    ensures GetIdealInterest(era, points, b') <= GetIdealInterest(era, points, b)
  {
    PositionMono(points, b, b');
    if Position(points, b) < Position(points, b') {
      AcrossSegments(era, points, b, b');
    }
  }

  lemma {:induction false} SharedSegment(era: nat, points: seq<Point>, i: nat)
    requires NonIncreasing(points) && 0 < i < |points| && era > 0
    requires Position(points, era - 1) == i && Position(points, era) == i
    ensures GetIdealInterest(era, points, era) <= GetIdealInterest(era, points, era - 1) <==> NoJump(era, points)
  {
    var start, end := points[i - 1], points[i];
    assert start.interest >= end.interest;
    StepsDecide(era, era - 1, era, start, end);
    assert GetIdealInterest(era, points, era) == ComputeIdealInterest(era, era, start, end);
    assert GetIdealInterest(era, points, era - 1) == ComputeIdealInterest(era, era - 1, start, end);
    assert NoJump(era, points) <==> Advance(era, era - 1, start, end) <= Advance(era, era, start, end);
  }

  /** Within a falling segment the interest is ordered as the steps from its start are. */
  lemma {:induction false} StepsDecide(era: nat, b: nat, b': nat, start: Point, end: Point)
    requires start.interest >= end.interest
    ensures ComputeIdealInterest(era, b', start, end) <= ComputeIdealInterest(era, b, start, end) <==>
      Advance(era, b, start, end) <= Advance(era, b', start, end)
  {
  }

  /** For non-increasing points the whole curve is non-increasing exactly when there is no jump at the first era's end. */
  lemma {:induction false} CurveFallsExactly(era: nat, points: seq<Point>)
    requires points != [] && NonIncreasing(points)
    ensures NeverRises(era, points) <==> NoJump(era, points)
  {
    if era > 0 {
      JumpExactly(era, points);
      RisesOnlyAtEra(era, points);
    } else {
      NeverRisesLate(points);
    }
  }

  predicate Falls(era: nat, points: seq<Point>, b: nat, b': nat)
    requires points != []
  {
    GetIdealInterest(era, points, b') <= GetIdealInterest(era, points, b)
  }

  ghost predicate NeverRises(era: nat, points: seq<Point>)
    requires points != []
  {
    forall b, b' :: b <= b' ==> Falls(era, points, b, b')
  }

  lemma {:induction false} NeverRisesLate(points: seq<Point>)
    requires points != [] && NonIncreasing(points)
    ensures NeverRises(0, points)
  {
    forall b: nat, b': nat | b <= b'
      ensures Falls(0, points, b, b')
    {
      NonIncreasingCurve(0, points, b, b');
    }
  }

  lemma {:induction false} RisesOnlyAtEra(era: nat, points: seq<Point>)
    requires points != [] && NonIncreasing(points) && era > 0
    ensures NeverRises(era, points) <==> Falls(era, points, era - 1, era)
  {
    if Falls(era, points, era - 1, era) {
      var curve: nat -> int := (b: nat) => GetIdealInterest(era, points, b);
      forall b: nat, b': nat | b <= b' && (era <= b || b' < era)
        ensures curve(b') <= curve(b)
      {
        NonIncreasingCurve(era, points, b, b');
      }
      BothSides(curve, era);
      forall b: nat, b': nat | b <= b'
        ensures Falls(era, points, b, b')
      {
        assert curve(b') <= curve(b);
      }
    }
  }

  /** A curve that falls on both sides of a block and does not rise at it falls everywhere. */
  lemma BothSides(curve: nat -> int, era: nat)
    requires era > 0 && curve(era) <= curve(era - 1)
    requires forall b: nat, b': nat :: b <= b' && (era <= b || b' < era) ==> curve(b') <= curve(b)
    ensures forall b: nat, b': nat :: b <= b' ==> curve(b') <= curve(b)
  {
    forall b: nat, b': nat | b < era <= b'
      ensures curve(b') <= curve(b)
    {
      assert curve(b') <= curve(era) && curve(era - 1) <= curve(b);
    }
  }

  /** Such a jump exists: across the end of the first era the abscissa goes back by half an era. */
  lemma {:induction false} InterestCanJump()
    ensures var points := [Point(0, BILLION), Point(1_000, 0)];
      SortedByBlock(points) && NonIncreasing(points)
      && GetIdealInterest(100, points, 100) > GetIdealInterest(100, points, 99)
  {
    var points := [Point(0, BILLION), Point(1_000, 0)];
    assert points[1..] == [points[1]];
    assert Position([points[1]], 99) == 0 && Position([points[1]], 100) == 0;
    assert Position(points, 99) == 1 && Position(points, 100) == 1;
    assert Ratio(100, 99, points[0], points[1]) == 99_000_000;
    HalfEraFits(100);
    assert Ratio(100, 100, points[0], points[1]) == 50_000_000;
  }

  /** On sorted points the segment used is the one around the block: all points before it lie before the block. */
  lemma {:induction false} SortedNeighbours(points: seq<Point>, block: nat)
    requires SortedByBlock(points)
    ensures forall j :: 0 <= j < |points| ==> (points[j].block < block <==> j < Position(points, block))
  {
    var i := Position(points, block);
    forall j | i <= j < |points|
      ensures points[j].block >= block
    {
      assert i == j || points[i].block <= points[j].block;
    }
  }

  // ---------- sorting ----------

  /** The points at one block, in list order. */
  function AtBlock(points: seq<Point>, block: nat): seq<Point> {
    if points == [] then []
    else
      var rest := AtBlock(points[1..], block);
      if points[0].block == block then [points[0]] + rest else rest
  }

  function Insert(p: Point, sorted: seq<Point>): (r: seq<Point>)
    ensures |r| == |sorted| + 1
  {
    if sorted == [] || p.block <= sorted[0].block then [p] + sorted
    else [sorted[0]] + Insert(p, sorted[1..])
  }

  /** A stable sort by block. */
  function SortByBlock(points: seq<Point>): (r: seq<Point>)
    ensures |r| == |points|
  {
    if points == [] then [] else Insert(points[0], SortByBlock(points[1..]))
  }

  /** Sorted, with the first element first: easier to recurse on. */
  predicate Ordered(points: seq<Point>) {
    points == [] || ((forall p :: p in points[1..] ==> points[0].block <= p.block) && Ordered(points[1..]))
  }

  lemma {:induction false} OrderedIsSorted(points: seq<Point>)
    ensures Ordered(points) <==> SortedByBlock(points)
  {
    if points != [] {
      var rest := points[1..];
      OrderedIsSorted(rest);
      if SortedByBlock(points) {
        forall p | p in rest
          ensures points[0].block <= p.block
        {
          var i :| 0 <= i < |rest| && rest[i] == p;
          assert p == points[i + 1];
        }
        forall i, j | 0 <= i < j < |rest|
          ensures rest[i].block <= rest[j].block
        {
          assert points[i + 1].block <= points[j + 1].block;
        }
      }
      if Ordered(points) {
        forall i, j | 0 <= i < j < |points|
          ensures points[i].block <= points[j].block
        {
          assert points[j] == rest[j - 1];
          if i > 0 {
            assert points[i] == rest[i - 1];
          }
        }
      }
    }
  }

  lemma {:induction false} InsertOrders(p: Point, sorted: seq<Point>)
    requires Ordered(sorted)
    ensures Ordered(Insert(p, sorted)) && multiset(Insert(p, sorted)) == multiset(sorted) + multiset{p}
  {
    if sorted == [] || p.block <= sorted[0].block {
      assert forall q :: q in sorted ==> p.block <= q.block;
      assert Insert(p, sorted)[1..] == sorted;
    } else {
      var rest := sorted[1..];
      InsertOrders(p, rest);
      assert sorted == [sorted[0]] + rest && Insert(p, sorted)[1..] == Insert(p, rest);
      assert forall q :: q in Insert(p, rest) <==> q in multiset(Insert(p, rest));
      assert forall q :: q in Insert(p, rest) ==> q == p || q in rest;
    }
  }

  /** Inserting in front of equal blocks keeps the order at every block. */
  lemma {:induction false} InsertStable(p: Point, sorted: seq<Point>, block: nat)
    ensures AtBlock(Insert(p, sorted), block) == AtBlock([p] + sorted, block)
  {
    assert ([p] + sorted)[1..] == sorted;
    if sorted != [] && p.block > sorted[0].block {
      var rest := sorted[1..];
      InsertStable(p, rest, block);
      assert Insert(p, sorted)[1..] == Insert(p, rest);
      assert ([p] + rest)[1..] == rest;
    }
  }

  /** What set_interest_points and genesis establish: the same points, sorted, equal blocks in their old order. */
  lemma {:induction false} SortSorts(points: seq<Point>)
    ensures SortedByBlock(SortByBlock(points)) && multiset(SortByBlock(points)) == multiset(points)
    ensures forall block :: AtBlock(SortByBlock(points), block) == AtBlock(points, block)
  {
    SortOrders(points);
    OrderedIsSorted(SortByBlock(points));
    forall block
      ensures AtBlock(SortByBlock(points), block) == AtBlock(points, block)
    {
      SortStable(points, block);
    }
  }

  lemma {:induction false} SortOrders(points: seq<Point>)
    ensures Ordered(SortByBlock(points)) && multiset(SortByBlock(points)) == multiset(points)
  {
    if points != [] {
      SortOrders(points[1..]);
      InsertOrders(points[0], SortByBlock(points[1..]));
      assert points == [points[0]] + points[1..];
    }
  }

  lemma {:induction false} SortStable(points: seq<Point>, block: nat)
    ensures AtBlock(SortByBlock(points), block) == AtBlock(points, block)
  {
    if points != [] {
      var sorted := SortByBlock(points[1..]);
      SortStable(points[1..], block);
      InsertStable(points[0], sorted, block);
      assert ([points[0]] + sorted)[1..] == sorted;
    }
  }

  /** There is only one stable sort: sorted lists that agree at every block are equal. */
  lemma {:induction false} StableSortUnique(a: seq<Point>, b: seq<Point>)
    requires Ordered(a) && Ordered(b)
    requires forall block :: AtBlock(a, block) == AtBlock(b, block)
    ensures a == b
  {
    if a == [] {
      NothingAtBlocks(b);
    } else if b == [] {
      NothingAtBlocks(a);
    } else {
      HeadLeads(a, b);
      HeadLeads(b, a);
      var block := a[0].block;
      assert AtBlock(a, block) == AtBlock(b, block);
      assert AtBlock(a, block)[0] == a[0] && AtBlock(b, block)[0] == b[0];
      forall block
        ensures AtBlock(a[1..], block) == AtBlock(b[1..], block)
      {
        assert AtBlock(a, block) == AtBlock(b, block);
        assert [a[0]] + AtBlock(a[1..], block) == [a[0]] + AtBlock(b[1..], block) ==>
          ([a[0]] + AtBlock(a[1..], block))[1..] == ([a[0]] + AtBlock(b[1..], block))[1..];
      }
      StableSortUnique(a[1..], b[1..]);
      assert a == [a[0]] + a[1..] && b == [b[0]] + b[1..];
    }
  }

  /** The curve an admin sets does not depend on the order of the points, except among points at one block. */
  lemma {:induction false} CurveOfPoints(era: nat, a: seq<Point>, b: seq<Point>, block: nat)
    requires a != [] && forall at :: AtBlock(a, at) == AtBlock(b, at)
    ensures b != [] && SortByBlock(a) == SortByBlock(b)
    ensures GetIdealInterest(era, SortByBlock(a), block) == GetIdealInterest(era, SortByBlock(b), block)
  {
    SortSorts(a);
    SortSorts(b);
    OrderedIsSorted(SortByBlock(a));
    OrderedIsSorted(SortByBlock(b));
    forall at
      ensures AtBlock(SortByBlock(a), at) == AtBlock(SortByBlock(b), at)
    {
      assert AtBlock(a, at) == AtBlock(b, at);
    }
    StableSortUnique(SortByBlock(a), SortByBlock(b));
  }

  lemma {:induction false} NothingAtBlocks(points: seq<Point>)
    requires forall block :: AtBlock([], block) == AtBlock(points, block)
    ensures points == []
  {
    if points != [] {
      var first := AtBlock(points, points[0].block);
    }
  }

  /** The first block of an ordered list is at or before any block the other list has points at. */
  lemma {:induction false} HeadLeads(a: seq<Point>, b: seq<Point>)
    requires a != [] && b != [] && Ordered(a)
    requires forall block :: AtBlock(a, block) == AtBlock(b, block)
    ensures a[0].block <= b[0].block
  {
    var block := b[0].block;
    assert AtBlock(a, block) == AtBlock(b, block);
    if block < a[0].block {
      NoneBefore(a, block);
    }
  }

  lemma {:induction false} NoneBefore(points: seq<Point>, block: nat)
    requires forall p :: p in points ==> block < p.block
    ensures AtBlock(points, block) == []
  {
    if points != [] {
      assert points[0] in points;
      NoneBefore(points[1..], block);
    }
  }
}
