/** Nearest points on segments and lines, and cutting lines by distance: tlxy/cut.go over reals.

    Distances in the plane are squared, so comparing them needs no roots. The haversine distance, which only
    measures the position along the line, is any function of two points. */
module ClosestPoint {
  import opened Sequences

  datatype Point = Point(lon: real, lat: real)

  const ORIGIN := Point(0.0, 0.0)

  /** The square of the source's epsilon, one millionth of a degree. */
  const EPSILON2 := 0.000000000001

  function SumSq(x: real, y: real): real {
    x * x + y * y
  }

  function DistSq(a: Point, b: Point): real {
    SumSq(b.lon - a.lon, b.lat - a.lat)
  }

  /** The scalar product of a-p and a-b. */
  function Dot(a: Point, b: Point, p: Point): real {
    (p.lon - a.lon) * (b.lon - a.lon) + (p.lat - a.lat) * (b.lat - a.lat)
  }

  /** The point of the segment at t, from 0 at a to 1 at b. */
  function Along(a: Point, b: Point, t: real): Point {
    Point(a.lon + (b.lon - a.lon) * t, a.lat + (b.lat - a.lat) * t)
  }

  lemma DistSqPositive(a: Point, b: Point)
    ensures DistSq(a, b) >= 0.0 && (a != b ==> DistSq(a, b) > 0.0)
  {
    if a != b { assert b.lon - a.lon != 0.0 || b.lat - a.lat != 0.0; }
    SumOfSquares(b.lon - a.lon, b.lat - a.lat, DistSq(a, b));
  }

  lemma SumOfSquares(x: real, y: real, s: real)
    requires s == x * x + y * y
    ensures s >= 0.0 && (x != 0.0 || y != 0.0 ==> s > 0.0)
  {
    SquarePositive(x, x * x);
    SquarePositive(y, y * y);
  }

  lemma SquarePositive(x: real, q: real)
    requires q == x * x
    ensures q >= 0.0 && (x != 0.0 ==> q > 0.0)
  {
    if x > 0.0 { Positive(x, x, q); }
    if x < 0.0 { Positive(-x, -x, q); }
  }

  lemma Positive(a: real, b: real, c: real)
    requires c == a * b && a > 0.0 && b > 0.0
    ensures c > 0.0
  {
  }

  /** The projection of p onto the segment, clamped to its ends, with the square of its distance. */
  function Projected(a: Point, b: Point, p: Point): (Point, real)
    requires a != b
  {
    DistSqPositive(a, b);
    var r := Dot(a, b, p) / DistSq(a, b);
    if r < 0.0 then (a, DistSq(a, p))
    else if r > 1.0 then (b, DistSq(b, p))
    else (Along(a, b, r), DistSq(Along(a, b, r), p))
  }

  /** SegmentClosestPoint, with the square of the distance it returns; a point close to an end counts as on it. A
      segment of length 0 divides by 0: the answer is not a number, and no comparison with it is true. */
  function SegmentClosestPoint(a: Point, b: Point, p: Point): Option<(Point, real)> {
    if DistSq(a, p) < EPSILON2 then Some((a, 0.0))
    else if DistSq(b, p) < EPSILON2 then Some((b, 0.0))
    else if a == b then None
    else Some(Projected(a, b, p))
  }

  predicate Snaps(a: Point, b: Point, p: Point) {
    DistSq(a, p) < EPSILON2 || DistSq(b, p) < EPSILON2
  }

  ghost predicate OnSegment(q: Point, a: Point, b: Point) {
    exists t :: 0.0 <= t <= 1.0 && q == Along(a, b, t)
  }

  /** No point of the segment is closer to p than q. */
  ghost predicate Nearest(q: Point, a: Point, b: Point, p: Point) {
    forall t :: 0.0 <= t <= 1.0 ==> DistSq(q, p) <= DistSq(Along(a, b, t), p)
  }

  // ---- The distance along a segment is a parabola ----

  function Parabola(v: real, d: real, w: real, t: real): real {
    v * t * t - 2.0 * d * t + w
  }

  lemma Expanded(wx: real, wy: real, dx: real, dy: real, t: real)
    ensures (wx - dx * t) * (wx - dx * t) + (wy - dy * t) * (wy - dy * t) ==
      (dx * dx + dy * dy) * t * t - 2.0 * (wx * dx + wy * dy) * t + (wx * wx + wy * wy)
  {
  }

  lemma SumSqAlong(wx: real, wy: real, dx: real, dy: real, t: real, x: real, y: real, d: real)
    requires x == wx - dx * t && y == wy - dy * t && d == wx * dx + wy * dy
    ensures SumSq(x, y) == Parabola(SumSq(dx, dy), d, SumSq(wx, wy), t)
  {
    Expanded(wx, wy, dx, dy, t);
  }

  lemma DistAlong(a: Point, b: Point, p: Point, t: real)
    ensures DistSq(Along(a, b, t), p) == Parabola(DistSq(a, b), Dot(a, b, p), DistSq(a, p), t)
  {
    var q := Along(a, b, t);
    SumSqAlong(p.lon - a.lon, p.lat - a.lat, b.lon - a.lon, b.lat - a.lat, t, p.lon - q.lon, p.lat - q.lat,
               Dot(a, b, p));
  }

  lemma LeastInside(v: real, d: real, w: real, r: real, t: real)
    requires v > 0.0 && d == r * v
    ensures Parabola(v, d, w, r) <= Parabola(v, d, w, t)
  {
    SquarePositive(t - r, (t - r) * (t - r));
    assert Parabola(v, d, w, t) - Parabola(v, d, w, r) == v * ((t - r) * (t - r));
  }

  lemma LeastAtStart(v: real, d: real, w: real, t: real)
    requires v > 0.0 && d <= 0.0 && 0.0 <= t <= 1.0
    ensures w <= Parabola(v, d, w, t)
  {
    assert Parabola(v, d, w, t) - w == t * (v * t - 2.0 * d);
    assert v * t >= 0.0;
  }

  lemma LeastAtEnd(v: real, d: real, w: real, t: real)
    requires v > 0.0 && d >= v && 0.0 <= t <= 1.0
    ensures Parabola(v, d, w, 1.0) <= Parabola(v, d, w, t)
  {
    assert Parabola(v, d, w, t) - Parabola(v, d, w, 1.0) == (1.0 - t) * (2.0 * d - v * (t + 1.0));
    assert v * (t + 1.0) <= v * 2.0;
  }

  lemma Ends(a: Point, b: Point)
    ensures Along(a, b, 0.0) == a && Along(a, b, 1.0) == b
  {
  }

  lemma StartIsNearest(a: Point, b: Point, p: Point)
    requires a != b && Dot(a, b, p) <= 0.0
    ensures Nearest(a, a, b, p)
  {
    DistSqPositive(a, b);
    forall t | 0.0 <= t <= 1.0 ensures DistSq(a, p) <= DistSq(Along(a, b, t), p) {
      DistAlong(a, b, p, t);
      LeastAtStart(DistSq(a, b), Dot(a, b, p), DistSq(a, p), t);
    }
  }

  lemma EndIsNearest(a: Point, b: Point, p: Point)
    requires a != b && Dot(a, b, p) >= DistSq(a, b)
    ensures Nearest(b, a, b, p)
  {
    DistSqPositive(a, b);
    Ends(a, b);
    DistAlong(a, b, p, 1.0);
    forall t | 0.0 <= t <= 1.0 ensures DistSq(b, p) <= DistSq(Along(a, b, t), p) {
      DistAlong(a, b, p, t);
      LeastAtEnd(DistSq(a, b), Dot(a, b, p), DistSq(a, p), t);
    }
  }

  lemma FootIsNearest(a: Point, b: Point, p: Point, r: real)
    requires a != b && Dot(a, b, p) == r * DistSq(a, b)
    ensures Nearest(Along(a, b, r), a, b, p)
  {
    DistSqPositive(a, b);
    var v, d, w := DistSq(a, b), Dot(a, b, p), DistSq(a, p);
    forall t | 0.0 <= t <= 1.0 ensures DistSq(Along(a, b, r), p) <= DistSq(Along(a, b, t), p) {
      LeastInside(v, d, w, r, t);
      assert DistSq(Along(a, b, r), p) == Parabola(v, d, w, r) by { DistAlong(a, b, p, r); }
      assert DistSq(Along(a, b, t), p) == Parabola(v, d, w, t) by { DistAlong(a, b, p, t); }
    }
  }

  lemma Clamped(d: real, v: real)
    requires v > 0.0
    ensures d == d / v * v && (d / v < 0.0 ==> d < 0.0) && (d / v == 0.0 ==> d == 0.0) && (d / v > 1.0 ==> d > v)
  {
    if d / v < 0.0 { assert d / v * v < 0.0; }
    if d / v > 1.0 { assert (d / v - 1.0) * v > 0.0; }
  }

  lemma ProjectedIsNearest(a: Point, b: Point, p: Point)
    requires a != b
    ensures var (q, d) := Projected(a, b, p); OnSegment(q, a, b) && d == DistSq(q, p) && Nearest(q, a, b, p)
  {
    Ends(a, b);
    DistSqPositive(a, b);
    var r := Dot(a, b, p) / DistSq(a, b);
    Clamped(Dot(a, b, p), DistSq(a, b));
    if r < 0.0 { StartIsNearest(a, b, p); }
    else if r > 1.0 { EndIsNearest(a, b, p); }
    else { FootIsNearest(a, b, p, r); }
  }

  lemma EndsOnSegment(a: Point, b: Point)
    ensures OnSegment(a, a, b) && OnSegment(b, a, b)
  {
    Ends(a, b);
  }

  /** There is a result exactly if the segment has a length or the point is close to it, and it lies on the segment. It
      is a nearest point with its own distance, unless an end was close enough to be taken for the point: then that
      end is within epsilon, and the distance is 0. */
  lemma SegmentResult(a: Point, b: Point, p: Point)
    ensures SegmentClosestPoint(a, b, p).Some? <==> a != b || Snaps(a, b, p)
    ensures SegmentClosestPoint(a, b, p).Some? ==>
      var (q, d) := SegmentClosestPoint(a, b, p).value;
      && OnSegment(q, a, b)
      && (Snaps(a, b, p) ==> d == 0.0 && DistSq(q, p) < EPSILON2)
      && (!Snaps(a, b, p) ==> d == DistSq(q, p) >= 0.0 && Nearest(q, a, b, p))
  {
    EndsOnSegment(a, b);
    if a != b && !Snaps(a, b, p) {
      ProjectedIsNearest(a, b, p);
      DistSqPositive(Projected(a, b, p).0, p);
    }
  }

  /** A snapped end is a nearest point only if the point lies beyond it. */
  lemma SnappedIsNearestIff(a: Point, b: Point, p: Point)
    requires a != b && Snaps(a, b, p)
    ensures Nearest(SegmentClosestPoint(a, b, p).value.0, a, b, p) <==>
      if DistSq(a, p) < EPSILON2 then Dot(a, b, p) <= 0.0 else Dot(a, b, p) >= DistSq(a, b)
  {
    DistSqPositive(a, b);
    if DistSq(a, p) < EPSILON2 {
      if Dot(a, b, p) <= 0.0 { StartIsNearest(a, b, p); } else { StartIsNotNearest(a, b, p); }
    } else {
      if Dot(a, b, p) >= DistSq(a, b) { EndIsNearest(a, b, p); } else { EndIsNotNearest(a, b, p); }
    }
  }

  /** How far towards the foot of the perpendicular the segment goes. */
  function Reach(d: real, v: real): (t: real)
    requires v > 0.0
  {
    if d > v then 1.0 else d / v
  }

  lemma BelowStart(v: real, d: real, w: real)
    requires v > 0.0 && d > 0.0
    ensures 0.0 < Reach(d, v) <= 1.0 && Parabola(v, d, w, Reach(d, v)) < w
  {
    var t := Reach(d, v);
    Clamped(d, v);
    assert d <= v ==> v * t == d;
    assert t > 0.0 && v * t <= d;
    assert t * (v * t - 2.0 * d) < 0.0;
    assert Parabola(v, d, w, t) - w == t * (v * t - 2.0 * d);
  }

  lemma StartIsNotNearest(a: Point, b: Point, p: Point)
    requires a != b && Dot(a, b, p) > 0.0
    ensures !Nearest(a, a, b, p)
  {
    DistSqPositive(a, b);
    var t := Reach(Dot(a, b, p), DistSq(a, b));
    BelowStart(DistSq(a, b), Dot(a, b, p), DistSq(a, p));
    DistAlong(a, b, p, t);
    assert 0.0 <= t <= 1.0 && DistSq(Along(a, b, t), p) < DistSq(a, p);
  }

  lemma EndIsNotNearest(a: Point, b: Point, p: Point)
    requires a != b && Dot(a, b, p) < DistSq(a, b)
    ensures !Nearest(b, a, b, p)
  {
    DotFromEnd(a, b, p);
    StartIsNotNearest(b, a, p);
    var t :| 0.0 <= t <= 1.0 && DistSq(b, p) > DistSq(Along(b, a, t), p);
    AlongBack(a, b, t);
    assert 0.0 <= 1.0 - t <= 1.0 && DistSq(Along(a, b, 1.0 - t), p) < DistSq(b, p);
  }

  lemma DotFromEnd(a: Point, b: Point, p: Point)
    ensures Dot(b, a, p) == DistSq(a, b) - Dot(a, b, p)
  {
  }

  lemma AlongBack(a: Point, b: Point, t: real)
    ensures Along(a, b, 1.0 - t) == Along(b, a, t)
  {
  }

  /** A point half a millionth of a degree along a segment is taken for its start, which is not nearest. */
  lemma StartIsTaken()
    ensures var a, b, p := ORIGIN, Point(1.0, 0.0), Point(0.0000005, 0.0);
      SegmentClosestPoint(a, b, p) == Some((a, 0.0)) && !Nearest(a, a, b, p)
  {
    var a, b, p := ORIGIN, Point(1.0, 0.0), Point(0.0000005, 0.0);
    assert DistSq(a, p) == 0.00000000000025;
    SnappedIsNearestIff(a, b, p);
  }

  // ---- Lines ----

  /** The length of the line up to its n-th point. */
  function LengthTo(hav: (Point, Point) -> real, line: seq<Point>, n: nat): real
    requires n < |line|
  {
    if n == 0 then 0.0 else LengthTo(hav, line, n - 1) + hav(line[n - 1], line[n])
  }

  method Length(hav: (Point, Point) -> real, line: seq<Point>) returns (length: real)
    ensures length == if line == [] then 0.0 else LengthTo(hav, line, |line| - 1)
  {
    length := 0.0;
    var i := 1;
    while i < |line|
      invariant line != [] ==> 1 <= i <= |line| && length == LengthTo(hav, line, i - 1)
      invariant line == [] ==> length == 0.0
    {
      length := length + hav(line[i - 1], line[i]);
      i := i + 1;
    }
  }

  /** What SegmentClosestPoint says of the segment that ends at the i-th point. */
  function OfSegment(line: seq<Point>, i: nat, p: Point): Option<(Point, real)>
    requires 0 < i < |line|
  {
    SegmentClosestPoint(line[i - 1], line[i], p)
  }

  /** Segment i is no better than the answer `best`, and worse if it comes before segment m. */
  predicate Worse(line: seq<Point>, p: Point, i: nat, m: nat, best: (Point, real))
    requires 0 < i < |line|
  {
    var next := OfSegment(line, i, p);
    next.Some? ==> if i < m then next.value.1 > best.1 else next.value.1 >= best.1
  }

  /** Segment m has an answer, the first with the least distance of the segments up to the n-th point. */
  ghost predicate FirstLeast(line: seq<Point>, p: Point, m: nat, n: nat)
    requires n <= |line|
  {
    && 0 < m < n && OfSegment(line, m, p).Some?
    && forall i :: 0 < i < n ==> Worse(line, p, i, m, OfSegment(line, m, p).value)
  }

  /** Segment m is the choice among those up to the n-th point; without an answer there is none. */
  ghost predicate Chosen(line: seq<Point>, p: Point, n: nat, m: nat, best: Option<(Point, real)>)
    requires 0 < n <= |line|
  {
    if best.None? then m == 0 && forall i :: 0 < i < n ==> OfSegment(line, i, p).None?
    else FirstLeast(line, p, m, n) && best == OfSegment(line, m, p)
  }

  predicate Improves(next: Option<(Point, real)>, best: Option<(Point, real)>) {
    next.Some? && (best.None? || next.value.1 < best.value.1)
  }

  lemma ChooseNext(line: seq<Point>, p: Point, n: nat, m: nat, best: Option<(Point, real)>)
    requires 0 < n < |line| && Chosen(line, p, n, m, best)
    ensures var next := OfSegment(line, n, p);
      if Improves(next, best) then Chosen(line, p, n + 1, n, next) else Chosen(line, p, n + 1, m, best)
  {
    var next := OfSegment(line, n, p);
    if Improves(next, best) {
      forall i | 0 < i < n + 1 ensures Worse(line, p, i, n, next.value) {
        assert best.Some? && i < n ==> Worse(line, p, i, m, best.value);
      }
    }
  }

  /** How far along the line a point of the segment that ends at the i-th point is. */
  function PositionOf(hav: (Point, Point) -> real, line: seq<Point>, i: nat, p: Point): real
    requires 0 < i < |line|
  {
    LengthTo(hav, line, i - 1) + hav(line[i - 1], p)
  }

  /** Without an answer of any segment the result is the origin. */
  method LineClosestPoint(hav: (Point, Point) -> real, line: seq<Point>, point: Point)
    returns (minp: Point, minidx: nat, fraction: real)
    ensures var length := if line == [] then 0.0 else LengthTo(hav, line, |line| - 1);
      if length == 0.0 then minp == point && minidx == 0 && fraction == 0.0
      else if exists i :: 0 < i < |line| && OfSegment(line, i, point).Some? then
        && FirstLeast(line, point, minidx, |line|)
        && minp == OfSegment(line, minidx, point).value.0
        && fraction == PositionOf(hav, line, minidx, minp) / length
      else minp == ORIGIN && minidx == 0 && fraction == 0.0
  {
    var position := 0.0;
    var length := Length(hav, line);
    if length == 0.0 {
      return point, 0, position;
    }
    var segpos := 0.0;
    var best: Option<(Point, real)> := None;
    minidx := 0;
    for i := 1 to |line|
      invariant segpos == LengthTo(hav, line, i - 1) && Chosen(line, point, i, minidx, best)
      invariant position == if best.Some? then PositionOf(hav, line, minidx, best.value.0) else 0.0
    {
      ChooseNext(line, point, i, minidx, best);
      var next := OfSegment(line, i, point);
      if Improves(next, best) {
        best, minidx := next, i;
        position := segpos + hav(line[i - 1], next.value.0);
        if next.value.1 == 0.0 {
          RestIsNoLess(line, point, i);
          break;
        }
      }
      segpos := segpos + hav(line[i - 1], line[i]);
    }
    minp := if best.Some? then best.value.0 else ORIGIN;
    fraction := position / length;
  }

  /** No segment has a distance below 0. */
  lemma RestIsNoLess(line: seq<Point>, p: Point, m: nat)
    requires m < |line| && FirstLeast(line, p, m, m + 1) && OfSegment(line, m, p).value.1 == 0.0
    ensures FirstLeast(line, p, m, |line|)
  {
    forall i | 0 < i < |line| ensures Worse(line, p, i, m, OfSegment(line, m, p).value) {
      SegmentResult(line[i - 1], line[i], p);
    }
  }

  /** The chosen point lies on its segment, and either no point of the whole line is closer, or it is itself within
      epsilon of the point: so its distance is within epsilon of the least. Segments of length 0 do no harm: their
      point lies on a segment that has an answer. */
  lemma LineResult(line: seq<Point>, p: Point, m: nat)
    requires FirstLeast(line, p, m, |line|)
    ensures var q := OfSegment(line, m, p).value.0;
      && OnSegment(q, line[m - 1], line[m])
      && (DistSq(q, p) < EPSILON2 || forall i :: 0 < i < |line| ==> Nearest(q, line[i - 1], line[i], p))
  {
    var q := OfSegment(line, m, p).value.0;
    SegmentResult(line[m - 1], line[m], p);
    if !Snaps(line[m - 1], line[m], p) && DistSq(q, p) >= EPSILON2 {
      forall i | 0 < i < |line| ensures Nearest(q, line[i - 1], line[i], p) { NoneCloser(line, p, m, i); }
    }
  }

  lemma NoneCloser(line: seq<Point>, p: Point, m: nat, i: nat)
    requires FirstLeast(line, p, m, |line|) && 0 < i < |line| && !Snaps(line[m - 1], line[m], p)
    ensures Nearest(OfSegment(line, m, p).value.0, line[i - 1], line[i], p)
  {
    var q := OfSegment(line, m, p).value.0;
    SegmentResult(line[m - 1], line[m], p);
    if line[i - 1] == line[i] {
      var k, t := OnMovingSegment(line, i, m);
      NoneCloserMoving(line, p, m, k);
      assert DistSq(q, p) <= DistSq(Along(line[k - 1], line[k], t), p);
      PointSegment(q, line[i], p);
    } else {
      NoneCloserMoving(line, p, m, i);
    }
  }

  lemma NoneCloserMoving(line: seq<Point>, p: Point, m: nat, i: nat)
    requires FirstLeast(line, p, m, |line|) && 0 < i < |line| && !Snaps(line[m - 1], line[m], p)
    requires line[i - 1] != line[i]
    ensures Nearest(OfSegment(line, m, p).value.0, line[i - 1], line[i], p)
  {
    SegmentResult(line[m - 1], line[m], p);
    SegmentResult(line[i - 1], line[i], p);
    var q, next := OfSegment(line, m, p).value, OfSegment(line, i, p).value;
    assert Worse(line, p, i, m, q);
    if Snaps(line[i - 1], line[i], p) {
      AtPoint(q.0, line[i - 1], line[i], p);
    } else {
      NoCloser(q.0, next.0, line[i - 1], line[i], p);
    }
  }

  lemma NoCloser(q: Point, r: Point, a: Point, b: Point, p: Point)
    requires Nearest(r, a, b, p) && DistSq(q, p) <= DistSq(r, p)
    ensures Nearest(q, a, b, p)
  {
  }

  lemma AtPoint(q: Point, a: Point, b: Point, p: Point)
    requires DistSq(q, p) <= 0.0
    ensures Nearest(q, a, b, p)
  {
    forall t | 0.0 <= t <= 1.0 ensures DistSq(q, p) <= DistSq(Along(a, b, t), p) { DistSqPositive(Along(a, b, t), p); }
  }

  lemma PointSegment(q: Point, a: Point, p: Point)
    requires DistSq(q, p) <= DistSq(a, p)
    ensures Nearest(q, a, a, p)
  {
    forall t | 0.0 <= t <= 1.0 ensures DistSq(q, p) <= DistSq(Along(a, a, t), p) { assert Along(a, a, t) == a; }
  }

  /** If any segment of the line has a length, every point of the line is an end of one that has. */
  lemma {:induction false} OnMovingSegment(line: seq<Point>, i: nat, m: nat) returns (k: nat, t: real)
    requires i < |line| && 0 < m < |line| && line[m - 1] != line[m]
    ensures 0 < k < |line| && line[k - 1] != line[k] && 0.0 <= t <= 1.0 && line[i] == Along(line[k - 1], line[k], t)
    decreases if i < m then m - i else i - m + 1
  {
    if i < m {
      Ends(line[i], line[i + 1]);
      if line[i] != line[i + 1] { return i + 1, 0.0; }
      if i + 1 == m { return m, 0.0; }
      k, t := OnMovingSegment(line, i + 1, m);
    } else {
      Ends(line[i - 1], line[i]);
      if line[i - 1] != line[i] { return i, 1.0; }
      k, t := OnMovingSegment(line, i - 1, m);
    }
  }

  // ---- Cutting by distance ----

  ghost predicate Ascending(dists: seq<real>) {
    forall i, j :: 0 <= i < j < |dists| ==> dists[i] <= dists[j]
  }

  predicate Spans(dists: seq<real>, i: nat, d: real) {
    i + 1 < |dists| && dists[i] <= d <= dists[i + 1]
  }

  /** segPos: the point of a segment at a distance along the line, or not a number if the segment has no length. */
  function SegPos(a: Point, b: Point, from: real, to: real, dist: real): Option<Point> {
    if from == to then None else Some(Along(a, b, (dist - from) / (to - from)))
  }

  /** Along each segment of the line the distance grows evenly from its start. */
  ghost predicate Even(hav: (Point, Point) -> real, line: seq<Point>) {
    forall i, t :: 0 < i < |line| && 0.0 <= t <= 1.0 ==> EvenAt(hav, line, i, t)
  }

  predicate EvenAt(hav: (Point, Point) -> real, line: seq<Point>, i: nat, t: real)
    requires 0 < i < |line|
  {
    var h := hav(line[i - 1], line[i]);
    h >= 0.0 && hav(line[i - 1], Along(line[i - 1], line[i], t)) == t * h
  }

  lemma Part(t: real, h: real, d: real)
    requires 0.0 <= t <= 1.0 && h >= 0.0 && d == t * h
    ensures 0.0 <= d <= h && (h > 0.0 ==> d / h == t)
  {
    Clamps(t, h);
    if h > 0.0 { assert t * h / h == t; }
  }

  lemma Clamps(t: real, h: real)
    requires 0.0 <= t <= 1.0 && h >= 0.0
    ensures 0.0 <= t * h <= h
  {
    assert (1.0 - t) * h >= 0.0;
  }

  lemma {:induction false} LengthsGrow(hav: (Point, Point) -> real, line: seq<Point>, i: nat, j: nat)
    requires i <= j < |line| && Even(hav, line)
    ensures LengthTo(hav, line, i) <= LengthTo(hav, line, j)
  {
    if i < j {
      LengthsGrow(hav, line, i, j - 1);
      assert EvenAt(hav, line, j, 0.0);
    }
  }

  /** If the distance grows evenly, the position found for a point is on its segment and on the line, and cutting there
      gives the point back, if its segment has a length. */
  lemma PositionGivesPoint(hav: (Point, Point) -> real, line: seq<Point>, p: Point, m: nat)
    requires FirstLeast(line, p, m, |line|) && Even(hav, line)
    ensures var q := OfSegment(line, m, p).value.0;
      var from, to, d := LengthTo(hav, line, m - 1), LengthTo(hav, line, m), PositionOf(hav, line, m, q);
      && 0.0 <= from <= d <= to <= LengthTo(hav, line, |line| - 1)
      && SegPos(line[m - 1], line[m], from, to, d) == if from == to then None else Some(q)
  {
    var q := OfSegment(line, m, p).value.0;
    LineResult(line, p, m);
    var t :| 0.0 <= t <= 1.0 && q == Along(line[m - 1], line[m], t);
    assert EvenAt(hav, line, m, t);
    LengthsGrow(hav, line, 0, m - 1);
    LengthsGrow(hav, line, m, |line| - 1);
    Part(t, hav(line[m - 1], line[m]), hav(line[m - 1], q));
  }

  /** The two ends of a cut, and the vertices start .. end between them. */
  datatype Cut = Cut(first: Option<Point>, last: Option<Point>, start: nat, end: nat)

  /** The distance lies in segment i, and the point divides the segment as the distance does; it is not a number
      exactly if both ends of the segment are at that distance. */
  ghost predicate PlacedAt(q: Option<Point>, line: seq<Point>, dists: seq<real>, i: nat, d: real)
    requires |dists| <= |line|
  {
    && Spans(dists, i, d) && (q.None? <==> dists[i] == dists[i + 1])
    && (q.Some? ==> exists t :: 0.0 <= t <= 1.0 && Divides(q.value, line, dists, i, d, t))
  }

  predicate Divides(q: Point, line: seq<Point>, dists: seq<real>, i: nat, d: real, t: real)
    requires i + 1 < |dists| <= |line|
  {
    q == Along(line[i], line[i + 1], t) && d == dists[i] + t * (dists[i + 1] - dists[i])
  }

  lemma SegPosPlaces(line: seq<Point>, dists: seq<real>, i: nat, d: real)
    requires |dists| <= |line| && Spans(dists, i, d)
    ensures PlacedAt(SegPos(line[i], line[i + 1], dists[i], dists[i + 1], d), line, dists, i, d)
  {
    var v := dists[i + 1] - dists[i];
    if v > 0.0 {
      var t := (d - dists[i]) / v;
      Clamped(d - dists[i], v);
      assert 0.0 <= t <= 1.0 && Divides(Along(line[i], line[i + 1], t), line, dists, i, d, t);
    }
  }

  ghost predicate SpannedInOrder(dists: seq<real>, from: real, to: real) {
    exists i: nat, j: nat :: i <= j && Spans(dists, i, from) && Spans(dists, j, to)
  }

  /** No segment before the n-th spans `from` with one from it on that spans `to`. */
  ghost predicate NoneBefore(dists: seq<real>, from: real, to: real, n: nat) {
    forall k: nat, l: nat :: k < n && k <= l && Spans(dists, k, from) ==> !Spans(dists, l, to)
  }

  ghost predicate NoneBetween(dists: seq<real>, to: real, i: nat, j: nat) {
    forall l: nat :: i <= l < j ==> !Spans(dists, l, to)
  }

  /** The cut runs over the first two segments that span its distances in order. */
  ghost predicate CutsAt(line: seq<Point>, dists: seq<real>, from: real, to: real, cut: Cut)
    requires |dists| <= |line|
  {
    && 0 < cut.start <= cut.end < |dists|
    && PlacedAt(cut.first, line, dists, cut.start - 1, from) && PlacedAt(cut.last, line, dists, cut.end - 1, to)
    && NoneBefore(dists, from, to, cut.start - 1) && NoneBetween(dists, to, cut.start - 1, cut.end - 1)
  }

  method CutBetweenPositions(line: seq<Point>, dists: seq<real>, startDist: real, endDist: real)
    returns (cut: Option<Cut>)
    requires |dists| <= |line|
    ensures cut.Some? <==> SpannedInOrder(dists, startDist, endDist)
    ensures cut.Some? ==> CutsAt(line, dists, startDist, endDist, cut.value)
  {
    var i := 0;
    while i < |dists| - 1
      invariant 0 <= i && NoneBefore(dists, startDist, endDist, i)
    {
      if startDist >= dists[i] && startDist <= dists[i + 1] {
        var j := i;
        while j < |dists| - 1
          invariant i <= j && NoneBetween(dists, endDist, i, j)
        {
          if endDist >= dists[j] && endDist <= dists[j + 1] {
            assert Spans(dists, i, startDist) && Spans(dists, j, endDist);
            SegPosPlaces(line, dists, i, startDist);
            SegPosPlaces(line, dists, j, endDist);
            return Some(Cut(SegPos(line[i], line[i + 1], dists[i], dists[i + 1], startDist),
                            SegPos(line[j], line[j + 1], dists[j], dists[j + 1], endDist), i + 1, j + 1));
          }
          j := j + 1;
        }
      }
      i := i + 1;
    }
    cut := None;
  }

  /** A cut in order exists exactly if both distances are on the line. */
  lemma CutExistsIff(dists: seq<real>, from: real, to: real)
    requires Ascending(dists) && |dists| >= 2 && from <= to
    ensures SpannedInOrder(dists, from, to) <==> dists[0] <= from && to <= dists[|dists| - 1]
  {
    if dists[0] <= from && to <= dists[|dists| - 1] {
      var i := SpanOf(dists, from, |dists| - 1);
      var j := SpanOf(dists, to, |dists| - 1);
      if j < i { assert Spans(dists, i, to); }
    }
  }

  lemma {:induction false} SpanOf(dists: seq<real>, d: real, n: nat) returns (i: nat)
    requires 0 < n < |dists| && dists[0] <= d <= dists[n]
    ensures Spans(dists, i, d)
  {
    if n == 1 || dists[n - 1] <= d { i := n - 1; } else { i := SpanOf(dists, d, n - 1); }
  }

  lemma NotSpanned(dists: seq<real>, from: real, to: real, n: nat, k: nat, l: nat)
    requires NoneBefore(dists, from, to, n) && k < n && k <= l && Spans(dists, l, to)
    ensures !Spans(dists, k, from)
  {
  }

  /** An end of a cut is a point unless the line begins with a segment of length 0 and the cut with its distance:
      a later segment of length 0 is never reached, because the one before it spans its distance. */
  lemma CutHasPointsIff(line: seq<Point>, dists: seq<real>, from: real, to: real, cut: Cut)
    requires |dists| <= |line| && Ascending(dists) && CutsAt(line, dists, from, to, cut)
    ensures cut.first.None? <==> dists[0] == dists[1] == from
    ensures cut.last.None? <==> dists[0] == dists[1] == from == to
  {
    var i, j := cut.start - 1, cut.end - 1;
    if i > 0 {
      assert dists[i - 1] <= dists[i] && dists[0] <= dists[i] && dists[1] <= dists[i];
      NotSpanned(dists, from, to, i, i - 1, j);
      NotSpanned(dists, from, to, i, 0, j);
    }
    if j > i {
      assert dists[j - 1] <= dists[j];
      assert dists[j] == to ==> Spans(dists, j - 1, to);
    }
  }

  /** A line that begins with one point twice: a cut from its start has no first point. */
  lemma CutWithoutStart(a: Point, b: Point)
    ensures CutsAt([a, a, b], [0.0, 0.0, 1.0], 0.0, 1.0, Cut(None, Some(b), 1, 2))
  {
    var line, dists := [a, a, b], [0.0, 0.0, 1.0];
    Ends(a, b);
    assert Divides(b, line, dists, 1, 1.0, 1.0);
    assert SegPos(a, a, 0.0, 0.0, 0.0) == None;
  }

  /** A cut in order keeps every vertex strictly between its distances, and none outside them. */
  lemma CutKeepsBetween(dists: seq<real>, from: real, to: real, start: nat, end: nat, k: nat)
    requires Ascending(dists) && from <= to && 0 < start <= end && k < |dists|
    requires Spans(dists, start - 1, from) && Spans(dists, end - 1, to)
    ensures from < dists[k] < to ==> start <= k < end
    ensures start <= k < end ==> from <= dists[k] <= to
  {
    if k < start - 1 { assert dists[k] <= dists[start - 1]; }
    if end < k { assert dists[end] <= dists[k]; }
    if start < k { assert dists[start] <= dists[k]; }
    if k < end - 1 { assert dists[k] <= dists[end - 1]; }
  }
}
