/** Covering a bounding box with geohash cells: tlxy/geohash.go over reals.

    A cell is its row and column in the floor grid of its precision, which is what a geohash spells; the spelling
    itself is not part of this model. */
module Geohash {
  import opened Sequences

  datatype BoundingBox = BoundingBox(minLon: real, minLat: real, maxLon: real, maxLat: real)

  datatype Cell = Cell(row: int, col: int)

  function Pow2(n: nat): (p: nat)
    ensures p > 0
  {
    if n == 0 then 1 else 2 * Pow2(n - 1)
  }

  function LonCells(precision: nat): nat {
    Pow2((5 * precision + 1) / 2)
  }

  function LatCells(precision: nat): nat {
    Pow2(5 * precision / 2)
  }

  /** geohashCellSize: each character gives five bits, the first to the longitude. */
  function LonStep(precision: nat): (step: real)
    ensures step > 0.0
  {
    360.0 / LonCells(precision) as real
  }

  function LatStep(precision: nat): (step: real)
    ensures step > 0.0
  {
    180.0 / LatCells(precision) as real
  }

  /** The number of geohashes of a length: each character is one of 32. */
  function Geohashes(precision: nat): nat {
    if precision == 0 then 1 else 32 * Geohashes(precision - 1)
  }

  lemma {:induction false} Pow2Sum(a: nat, b: nat)
    ensures Pow2(a + b) == Pow2(a) * Pow2(b)
  {
    if b > 0 {
      Pow2Sum(a, b - 1);
      Double(Pow2(a), Pow2(b - 1));
    }
  }

  lemma Double(a: nat, b: nat)
    ensures a * (2 * b) == 2 * (a * b)
  {
  }

  lemma {:induction false} GeohashesAreBits(precision: nat)
    ensures Geohashes(precision) == Pow2(5 * precision)
  {
    if precision > 0 {
      GeohashesAreBits(precision - 1);
      assert Pow2(5) == 32;
      Pow2Sum(5 * (precision - 1), 5);
    }
  }

  lemma Half(n: nat, half: nat)
    requires 2 * half <= n <= 2 * half + 1
    ensures n / 2 == half
  {
  }

  lemma BitsAreSplit(precision: nat)
    ensures (5 * precision + 1) / 2 + 5 * precision / 2 == 5 * precision
    ensures (5 * precision + 1) / 2 == 5 * precision / 2 + precision % 2
  {
    var h := precision / 2;
    if precision % 2 == 0 {
      Half(5 * precision, 5 * h);
      Half(5 * precision + 1, 5 * h);
    } else {
      Half(5 * precision, 5 * h + 2);
      Half(5 * precision + 1, 5 * h + 3);
    }
  }

  /** The grid has a cell for every geohash of the precision: all of its bits are used, as many for the longitude as for
      the latitude, or one more. */
  lemma GridOfPrecision(precision: nat)
    ensures LonCells(precision) * LatCells(precision) == Geohashes(precision)
    ensures LonCells(precision) == if precision % 2 == 0 then LatCells(precision) else 2 * LatCells(precision)
  {
    BitsAreSplit(precision);
    Pow2Sum((5 * precision + 1) / 2, 5 * precision / 2);
    GeohashesAreBits(precision);
  }

  // ---- One axis ----

  /** The lower edge of the i-th cell, from the lower end of the axis. */
  function Edge(base: real, step: real, i: int): real {
    base + i as real * step
  }

  /** The cell a coordinate lies in. */
  function Index(base: real, step: real, x: real): int
    requires step > 0.0
  {
    ((x - base) / step).Floor
  }

  lemma Divided(d: real, step: real)
    requires step > 0.0
    ensures d / step * step == d
  {
  }

  lemma Scaled(a: real, b: real, step: real)
    requires step > 0.0
    ensures a <= b <==> a * step <= b * step
  {
    if a <= b { assert (b - a) * step >= 0.0; } else { assert (a - b) * step > 0.0; }
  }

  /** A cell begins at or below x exactly if it is not after the cell of x. */
  lemma EdgeIff(base: real, step: real, i: int, x: real)
    requires step > 0.0
    ensures Edge(base, step, i) <= x <==> i <= Index(base, step, x)
  {
    var q := (x - base) / step;
    Divided(x - base, step);
    Scaled(i as real, q, step);
    assert i as real <= q <==> i <= q.Floor;
  }

  function Centre(base: real, step: real, i: int): real {
    Edge(base, step, i) + step / 2.0
  }

  /** One step of a walk from centre to centre, as long as the cells begin at or below x. */
  lemma CentreStep(base: real, step: real, i: int, x: real)
    requires step > 0.0
    ensures Index(base, step, Centre(base, step, i)) == i
    ensures Centre(base, step, i) + step == Centre(base, step, i + 1)
    ensures Centre(base, step, i) - step / 2.0 <= x <==> i <= Index(base, step, x)
  {
    EdgeIff(base, step, i, x);
    EdgeIff(base, step, i, Centre(base, step, i));
    EdgeIff(base, step, i + 1, Centre(base, step, i));
    assert Edge(base, step, i + 1) == Edge(base, step, i) + step;
  }

  /** The cell contains x: it begins at or below x and ends above it. */
  lemma IndexContains(base: real, step: real, x: real)
    requires step > 0.0
    ensures Edge(base, step, Index(base, step, x)) <= x < Edge(base, step, Index(base, step, x) + 1)
  {
    EdgeIff(base, step, Index(base, step, x), x);
    EdgeIff(base, step, Index(base, step, x) + 1, x);
  }

  function Ceil(x: real): int {
    -(-x).Floor
  }

  /** The number of cells between two coordinates is within the source's bound, and short of it by no more than two. */
  lemma SpanBound(base: real, step: real, lo: real, hi: real)
    requires step > 0.0 && lo <= hi
    ensures 1 <= Index(base, step, hi) - Index(base, step, lo) + 1 <= Ceil((hi - lo) / step) + 2
    ensures Ceil((hi - lo) / step) + 2 <= Index(base, step, hi) - Index(base, step, lo) + 1 + 2
  {
    var a, b := (lo - base) / step, (hi - base) / step;
    assert b - a == (hi - lo) / step;
    Scaled(a, b, step);
    Divided(lo - base, step);
    Divided(hi - base, step);
  }

  // ---- Boxes ----

  predicate InRange(bbox: BoundingBox) {
    && -180.0 <= bbox.minLon <= bbox.maxLon <= 180.0
    && -90.0 <= bbox.minLat <= bbox.maxLat <= 90.0
  }

  function Row(precision: nat, lat: real): int {
    Index(-90.0, LatStep(precision), lat)
  }

  function Col(precision: nat, lon: real): int {
    Index(-180.0, LonStep(precision), lon)
  }

  /** The tile of the cell, closed to the south and west, and the box have a point in common. */
  predicate Meets(precision: nat, c: Cell, bbox: BoundingBox) {
    && Edge(-90.0, LatStep(precision), c.row) <= bbox.maxLat
    && bbox.minLat < Edge(-90.0, LatStep(precision), c.row + 1)
    && Edge(-180.0, LonStep(precision), c.col) <= bbox.maxLon
    && bbox.minLon < Edge(-180.0, LonStep(precision), c.col + 1)
  }

  /** The bound the cap is checked against. */
  function CellBound(precision: nat, bbox: BoundingBox): int {
    (Ceil((bbox.maxLon - bbox.minLon) / LonStep(precision)) + 2) *
    (Ceil((bbox.maxLat - bbox.minLat) / LatStep(precision)) + 2)
  }

  predicate Between(precision: nat, c: Cell, bbox: BoundingBox) {
    && Row(precision, bbox.minLat) <= c.row <= Row(precision, bbox.maxLat)
    && Col(precision, bbox.minLon) <= c.col <= Col(precision, bbox.maxLon)
  }

  lemma MeetsIff(precision: nat, c: Cell, bbox: BoundingBox)
    ensures Meets(precision, c, bbox) <==> Between(precision, c, bbox)
  {
    EdgeIff(-90.0, LatStep(precision), c.row, bbox.maxLat);
    EdgeIff(-90.0, LatStep(precision), c.row + 1, bbox.minLat);
    EdgeIff(-180.0, LonStep(precision), c.col, bbox.maxLon);
    EdgeIff(-180.0, LonStep(precision), c.col + 1, bbox.minLon);
  }

  /** One row of the walk: the cells from column `col` as long as they begin within the box. */
  method WalkRow(precision: nat, lat: real, minLon: real, maxLon: real, ghost row: int) returns (cells: set<Cell>)
    requires row == Row(precision, lat) && minLon <= maxLon
    ensures forall c :: c in cells <==>
      c.row == row && Col(precision, minLon) <= c.col <= Col(precision, maxLon)
    ensures |cells| <= Col(precision, maxLon) - Col(precision, minLon) + 1
  {
    var step := LonStep(precision);
    ghost var first, last := Col(precision, minLon), Col(precision, maxLon);
    ghost var col := first;
    var lon := Edge(-180.0, step, Col(precision, minLon)) + step / 2.0;
    cells := {};
    SpanBound(-180.0, step, minLon, maxLon);
    CentreStep(-180.0, step, col, maxLon);
    while lon - step / 2.0 <= maxLon
      invariant first <= col <= last + 1 && lon == Centre(-180.0, step, col)
      invariant lon - step / 2.0 <= maxLon <==> col <= last
      invariant forall c :: c in cells <==> c.row == row && first <= c.col < col
      invariant |cells| <= col - first
      decreases last + 1 - col
    {
      CentreStep(-180.0, step, col, maxLon);
      CentreStep(-180.0, step, col + 1, maxLon);
      cells := cells + {Cell(Row(precision, lat), Col(precision, lon))};
      lon, col := lon + step, col + 1;
    }
  }

  /** The rows of the walk, from the one that holds the box's south edge. */
  method WalkRows(precision: nat, bbox: BoundingBox) returns (cells: set<Cell>)
    requires InRange(bbox)
    ensures forall c :: c in cells <==> Between(precision, c, bbox)
    ensures |cells| <= (Row(precision, bbox.maxLat) - Row(precision, bbox.minLat) + 1) *
                       (Col(precision, bbox.maxLon) - Col(precision, bbox.minLon) + 1)
  {
    var step := LatStep(precision);
    ghost var first, last := Row(precision, bbox.minLat), Row(precision, bbox.maxLat);
    ghost var width := Col(precision, bbox.maxLon) - Col(precision, bbox.minLon) + 1;
    ghost var row, cap := first, 0;
    var lat := Edge(-90.0, step, Row(precision, bbox.minLat)) + step / 2.0;
    cells := {};
    SpanBound(-90.0, step, bbox.minLat, bbox.maxLat);
    CentreStep(-90.0, step, row, bbox.maxLat);
    while lat - step / 2.0 <= bbox.maxLat
      invariant first <= row <= last + 1 && lat == Centre(-90.0, step, row)
      invariant lat - step / 2.0 <= bbox.maxLat <==> row <= last
      invariant forall c :: c in cells <==> Between(precision, c, bbox) && c.row < row
      invariant |cells| <= cap == (row - first) * width
      decreases last + 1 - row
    {
      CentreStep(-90.0, step, row, bbox.maxLat);
      CentreStep(-90.0, step, row + 1, bbox.maxLat);
      var more := WalkRow(precision, lat, bbox.minLon, bbox.maxLon, row);
      OneMoreRow(row - first, width);
      cells := cells + more;
      lat, row, cap := lat + step, row + 1, cap + width;
    }
  }

  lemma OneMoreRow(n: int, width: int)
    ensures (n + 1) * width == n * width + width
  {
  }

  method CellsCoveringBbox(bbox: BoundingBox, precision: nat, maxCells: int) returns (r: Option<set<Cell>>)
    ensures r.None? <==> precision == 0 || !InRange(bbox) || (maxCells > 0 && CellBound(precision, bbox) > maxCells)
    ensures r.Some? ==> forall c :: c in r.value <==> Meets(precision, c, bbox)
    ensures r.Some? && maxCells > 0 ==> |r.value| <= maxCells
  {
    if precision == 0 {
      return None;
    }
    if bbox.minLon > bbox.maxLon || bbox.minLat > bbox.maxLat || bbox.minLon < -180.0 || bbox.maxLon > 180.0 ||
       bbox.minLat < -90.0 || bbox.maxLat > 90.0 {
      return None;
    }
    var lonStep, latStep := LonStep(precision), LatStep(precision);
    if maxCells > 0 {
      var lonCells := Ceil((bbox.maxLon - bbox.minLon) / lonStep) + 2;
      var latCells := Ceil((bbox.maxLat - bbox.minLat) / latStep) + 2;
      if lonCells * latCells > maxCells {
        return None;
      }
    }
    var cells := WalkRows(precision, bbox);
    forall c ensures c in cells <==> Meets(precision, c, bbox) { MeetsIff(precision, c, bbox); }
    CountWithinBound(precision, bbox);
    r := Some(cells);
  }

  lemma CountWithinBound(precision: nat, bbox: BoundingBox)
    requires InRange(bbox)
    ensures (Row(precision, bbox.maxLat) - Row(precision, bbox.minLat) + 1) *
            (Col(precision, bbox.maxLon) - Col(precision, bbox.minLon) + 1) <= CellBound(precision, bbox)
  {
    SpanBound(-90.0, LatStep(precision), bbox.minLat, bbox.maxLat);
    SpanBound(-180.0, LonStep(precision), bbox.minLon, bbox.maxLon);
    ProductBound(Row(precision, bbox.maxLat) - Row(precision, bbox.minLat) + 1,
                 Ceil((bbox.maxLat - bbox.minLat) / LatStep(precision)) + 2,
                 Col(precision, bbox.maxLon) - Col(precision, bbox.minLon) + 1,
                 Ceil((bbox.maxLon - bbox.minLon) / LonStep(precision)) + 2);
  }

  lemma ProductBound(a: int, a': int, b: int, b': int)
    requires 0 <= a <= a' && 0 <= b <= b'
    ensures a * b <= b' * a'
  {
    assert a * b <= a' * b by { assert (a' - a) * b >= 0; }
    assert a' * b <= a' * b' by { assert a' * (b' - b) >= 0; }
  }

  /** Every point of the box lies in a cell that meets it: a covering loses nothing. */
  lemma CoversEveryPoint(precision: nat, bbox: BoundingBox, lat: real, lon: real)
    requires bbox.minLat <= lat <= bbox.maxLat && bbox.minLon <= lon <= bbox.maxLon
    ensures Meets(precision, Cell(Row(precision, lat), Col(precision, lon)), bbox)
  {
    IndexContains(-90.0, LatStep(precision), lat);
    IndexContains(-180.0, LonStep(precision), lon);
  }

  predicate InGrid(precision: nat, c: Cell) {
    0 <= c.row < LatCells(precision) && 0 <= c.col < LonCells(precision)
  }

  /** The cells are all on the globe exactly if the box stays below its upper edges: there the walk goes one cell
      too far. */
  lemma CellsInGridIff(precision: nat, bbox: BoundingBox)
    requires InRange(bbox)
    ensures (forall c :: Meets(precision, c, bbox) ==> InGrid(precision, c)) <==>
      bbox.maxLat < 90.0 && bbox.maxLon < 180.0
  {
    TopEdge(-90.0, 180.0, LatCells(precision));
    TopEdge(-180.0, 360.0, LonCells(precision));
    EdgeIff(-90.0, LatStep(precision), LatCells(precision), bbox.maxLat);
    EdgeIff(-180.0, LonStep(precision), LonCells(precision), bbox.maxLon);
    EdgeIff(-90.0, LatStep(precision), 0, bbox.minLat);
    EdgeIff(-180.0, LonStep(precision), 0, bbox.minLon);
    if bbox.maxLat < 90.0 && bbox.maxLon < 180.0 {
      forall c | Meets(precision, c, bbox) ensures InGrid(precision, c) { MeetsIff(precision, c, bbox); }
    } else {
      CoversEveryPoint(precision, bbox, bbox.maxLat, bbox.maxLon);
      assert !InGrid(precision, Cell(Row(precision, bbox.maxLat), Col(precision, bbox.maxLon)));
    }
  }

  lemma TopEdge(base: real, width: real, n: nat)
    requires n > 0 && width > 0.0
    ensures Edge(base, width / n as real, n) == base + width
  {
  }

  /** The box of the north pole alone. */
  lemma PoleLeavesGrid(precision: nat)
    ensures exists c :: Meets(precision, c, BoundingBox(0.0, 90.0, 0.0, 90.0)) && !InGrid(precision, c)
  {
    CellsInGridIff(precision, BoundingBox(0.0, 90.0, 0.0, 90.0));
  }
}
