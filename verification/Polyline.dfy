/** The polyline coding of tlxy/polyline.go over reals, with the integer coding of Google's Encoded Polyline
    Algorithm Format: five bits to a byte, least significant first, 63 added, 32 more while bytes follow. */
module Polyline {
  import opened Sequences

  type Byte = b: int | 0 <= b < 256

  datatype Point = Point(lat: real, lon: real)

  // ---- Integers ----

  /** The sign goes to the last bit. */
  function ZigZag(i: int): (u: nat)
    ensures UnZigZag(u) == i
  {
    assert i < 0 ==> -2 * i - 1 == 2 * (-i - 1) + 1;
    if i < 0 then -2 * i - 1 else 2 * i
  }

  function UnZigZag(u: nat): int {
    if u % 2 == 0 then u / 2 else -(u / 2) - 1
  }

  lemma ZigZagOf(u: nat)
    ensures ZigZag(UnZigZag(u)) == u
  {
  }

  function EncodeUint(u: nat): (bytes: seq<Byte>)
    ensures bytes != []
  {
    if u < 32 then [u + 63] else [u % 32 + 95] + EncodeUint(u / 32)
  }

  /** The number at position k of the bytes, and the position after it. */
  function DecodeUint(p: seq<Byte>, k: nat): (r: Option<(nat, nat)>)
    ensures r.Some? ==> k < r.value.1 <= |p|
    decreases |p| - k
  {
    if k >= |p| then None
    else if 63 <= p[k] < 95 then Some((p[k] - 63, k + 1))
    else if 95 <= p[k] < 127 then
      match DecodeUint(p, k + 1)
      case None => None
      case Some(r) => Some((p[k] - 95 + 32 * r.0, r.1))
    else None
  }

  function EncodeInt(i: int): seq<Byte> {
    EncodeUint(ZigZag(i))
  }

  function DecodeInt(p: seq<Byte>, k: nat): (r: Option<(int, nat)>)
    ensures r.Some? ==> k < r.value.1 <= |p|
  {
    match DecodeUint(p, k)
    case None => None
    case Some(r) => Some((UnZigZag(r.0), r.1))
  }

  /** The code stands at position k of the bytes. */
  ghost predicate StandsAt(code: seq<Byte>, p: seq<Byte>, k: nat) {
    k + |code| <= |p| && forall i :: 0 <= i < |code| ==> p[k + i] == code[i]
  }

  lemma StandTwo(a: seq<Byte>, b: seq<Byte>, p: seq<Byte>, k: nat)
    requires StandsAt(a + b, p, k)
    ensures StandsAt(a, p, k) && StandsAt(b, p, k + |a|)
  {
    forall i | 0 <= i < |a| ensures p[k + i] == a[i] { assert (a + b)[i] == a[i]; }
    forall i | 0 <= i < |b| ensures p[k + |a| + i] == b[i] { assert (a + b)[|a| + i] == b[i]; }
  }

  lemma {:induction false} DecodeEncodedUint(u: nat, p: seq<Byte>, k: nat)
    requires StandsAt(EncodeUint(u), p, k)
    ensures DecodeUint(p, k) == Some((u, k + |EncodeUint(u)|))
  {
    assert p[k] == EncodeUint(u)[0];
    if u >= 32 {
      StandTwo([u % 32 + 95], EncodeUint(u / 32), p, k);
      DecodeEncodedUint(u / 32, p, k + 1);
    }
  }

  function EncodePair(a: int, b: int): seq<Byte> {
    EncodeInt(a) + EncodeInt(b)
  }

  /** Two differences, and the position after them. */
  function DecodePair(p: seq<Byte>, k: nat): (r: Option<(int, int, nat)>)
    ensures r.Some? ==> k < r.value.2 <= |p|
  {
    match DecodeInt(p, k)
    case None => None
    case Some(a) =>
      match DecodeInt(p, a.1)
      case None => None
      case Some(b) => Some((a.0, b.0, b.1))
  }

  lemma DecodeEncodedPair(a: int, b: int, p: seq<Byte>, k: nat)
    requires StandsAt(EncodePair(a, b), p, k)
    ensures DecodePair(p, k) == Some((a, b, k + |EncodePair(a, b)|))
  {
    StandTwo(EncodeInt(a), EncodeInt(b), p, k);
    DecodeEncodedUint(ZigZag(a), p, k);
    DecodeEncodedUint(ZigZag(b), p, k + |EncodeInt(a)|);
  }

  // ---- Rounding ----

  /** polylineRound: half away from zero. */
  function Round(x: real): int {
    if x < 0.0 then -((-x + 0.5).Floor) else (x + 0.5).Floor
  }

  /** A nearest integer, the one further from zero if there are two. */
  lemma RoundIsNearest(x: real)
    ensures -0.5 <= Round(x) as real - x <= 0.5
    ensures Round(x) as real - x == 0.5 ==> x > 0.0
    ensures Round(x) as real - x == -0.5 ==> x < 0.0
    ensures Round(-x) == -Round(x)
  {
  }

  lemma RoundOfInt(n: int)
    ensures Round(100000.0 * (n as real / 100000.0)) == n
  {
    assert 100000.0 * (n as real / 100000.0) == n as real;
  }

  /** A point in hundred-thousandths of a degree. */
  datatype Cell = Cell(lat: int, lon: int)

  const ORIGIN := Cell(0, 0)

  function CellOf(c: Point): Cell {
    Cell(Round(100000.0 * c.lat), Round(100000.0 * c.lon))
  }

  function PointOf(g: Cell): Point {
    Point(g.lat as real / 100000.0, g.lon as real / 100000.0)
  }

  function CellsOf(cs: seq<Point>): seq<Cell> {
    seq(|cs|, i requires 0 <= i < |cs| => CellOf(cs[i]))
  }

  function PointsOf(gs: seq<Cell>): seq<Point> {
    seq(|gs|, i requires 0 <= i < |gs| => PointOf(gs[i]))
  }

  // ---- Lines as differences ----

  datatype Diff = Diff(lat: int, lon: int)

  /** The cell before the n-th, or the origin. */
  function Before(gs: seq<Cell>, n: nat): Cell
    requires n <= |gs|
  {
    if n == 0 then ORIGIN else gs[n - 1]
  }

  function DiffsOf(gs: seq<Cell>): seq<Diff> {
    seq(|gs|, n requires 0 <= n < |gs| => Diff(gs[n].lat - Before(gs, n).lat, gs[n].lon - Before(gs, n).lon))
  }

  function Last(gs: seq<Cell>): Cell {
    Before(gs, |gs|)
  }

  function Moved(g: Cell, d: Diff): Cell {
    Cell(g.lat + d.lat, g.lon + d.lon)
  }

  /** The cells that the first n differences lead to. */
  function SumsOf(ds: seq<Diff>, n: nat): seq<Cell>
    requires n <= |ds|
  {
    if n == 0 then [] else SumsOf(ds, n - 1) + [Moved(Last(SumsOf(ds, n - 1)), ds[n - 1])]
  }

  lemma {:induction false} SumsOfDiffs(gs: seq<Cell>, n: nat)
    requires n <= |gs|
    ensures SumsOf(DiffsOf(gs), n) == gs[..n]
  {
    if n > 0 { SumsOfDiffs(gs, n - 1); }
  }

  lemma {:induction false} StepOfSums(ds: seq<Diff>, n: nat, m: nat)
    requires n < m <= |ds|
    ensures |SumsOf(ds, m)| == m && SumsOf(ds, m)[n] == Moved(Before(SumsOf(ds, m), n), ds[n])
  {
    if n < m - 1 { StepOfSums(ds, n, m - 1); } else if n > 0 { StepOfSums(ds, n - 1, n); }
  }

  lemma DiffsOfSums(ds: seq<Diff>)
    ensures DiffsOf(SumsOf(ds, |ds|)) == ds
  {
    var gs := SumsOf(ds, |ds|);
    if ds != [] { StepOfSums(ds, |ds| - 1, |ds|); }
    forall n | 0 <= n < |ds| ensures DiffsOf(gs)[n] == ds[n] {
      StepOfSums(ds, n, |ds|);
      DiffAt(gs, n, ds[n]);
    }
  }

  lemma DiffAt(gs: seq<Cell>, n: nat, d: Diff)
    requires n < |gs| && gs[n] == Moved(Before(gs, n), d)
    ensures DiffsOf(gs)[n] == d
  {
  }

  lemma {:induction false} SumsPrefix(ds: seq<Diff>, d: Diff, n: nat)
    requires n <= |ds|
    ensures SumsOf(ds + [d], n) == SumsOf(ds, n)
  {
    if n > 0 { SumsPrefix(ds, d, n - 1); }
  }

  // ---- Encoding ----

  /** The code of the first n differences. */
  function Encoded(ds: seq<Diff>, n: nat): seq<Byte>
    requires n <= |ds|
  {
    if n == 0 then [] else Encoded(ds, n - 1) + EncodePair(ds[n - 1].lat, ds[n - 1].lon)
  }

  /** The code of a line: each point by its difference from the one before. */
  function Code(cs: seq<Point>): seq<Byte> {
    Encoded(DiffsOf(CellsOf(cs)), |cs|)
  }

  /** One round of the loop: the rounded point, and the code of its difference from the last. */
  method EncodeNext(c: Point, last: Cell) returns (next: Cell, code: seq<Byte>)
    ensures next == CellOf(c) && code == EncodePair(next.lat - last.lat, next.lon - last.lon)
  {
    var lat := Round(100000.0 * c.lat);
    var lon := Round(100000.0 * c.lon);
    next := Cell(lat, lon);
    code := EncodeInt(lat - last.lat);
    code := code + EncodeInt(lon - last.lon);
  }

  /** The next point and its difference from the last. */
  lemma DiffNext(cs: seq<Point>, i: nat)
    requires i < |cs|
    ensures var g, last := CellOf(cs[i]), Before(CellsOf(cs), i);
      DiffsOf(CellsOf(cs))[i] == Diff(g.lat - last.lat, g.lon - last.lon) && Before(CellsOf(cs), i + 1) == g
  {
  }

  /** The first n points are encoded; the last of them is rounded to `last`. */
  ghost predicate EncodedSoFar(cs: seq<Point>, n: nat, buf: seq<Byte>, last: Cell) {
    n <= |cs| && buf == Encoded(DiffsOf(CellsOf(cs)), n) && last == Before(CellsOf(cs), n)
  }

  lemma EncodedNext(cs: seq<Point>, i: nat, buf: seq<Byte>, last: Cell)
    requires i < |cs| && EncodedSoFar(cs, i, buf, last)
    ensures var g := CellOf(cs[i]);
      EncodedSoFar(cs, i + 1, buf + EncodePair(g.lat - last.lat, g.lon - last.lon), g)
  {
    DiffNext(cs, i);
  }

  lemma EncodedAll(cs: seq<Point>, buf: seq<Byte>, last: Cell)
    ensures EncodedSoFar(cs, 0, [], ORIGIN)
    ensures EncodedSoFar(cs, |cs|, buf, last) ==> buf == Code(cs)
  {
  }

  method EncodePolyline(coords: seq<Point>) returns (buf: seq<Byte>)
    ensures buf == Code(coords)
  {
    buf := [];
    var last := ORIGIN;
    EncodedAll(coords, buf, last);
    for i := 0 to |coords|
      invariant EncodedSoFar(coords, i, buf, last)
    {
      EncodedNext(coords, i, buf, last);
      var code;
      last, code := EncodeNext(coords[i], last);
      buf := buf + code;
    }
    EncodedAll(coords, buf, last);
  }

  // ---- Decoding ----

  /** The differences decoded, and whether all bytes were. */
  datatype Decoded = Decoded(diffs: seq<Diff>, ok: bool)

  function DecodeFrom(p: seq<Byte>, k: nat): Decoded
    decreases |p| - k
  {
    if k >= |p| then Decoded([], true)
    else
      match DecodePair(p, k)
      case None => Decoded([], false)
      case Some(d) => Decoded([Diff(d.0, d.1)] + DecodeFrom(p, d.2).diffs, DecodeFrom(p, d.2).ok)
  }

  /** The line the bytes stand for, as far as they can be decoded. */
  function Line(p: seq<Byte>): seq<Point> {
    var ds := DecodeFrom(p, 0).diffs; PointsOf(SumsOf(ds, |ds|))
  }

  predicate Decodes(p: seq<Byte>) {
    DecodeFrom(p, 0).ok
  }

  lemma PointsOfSnoc(gs: seq<Cell>, g: Cell)
    ensures PointsOf(gs + [g]) == PointsOf(gs) + [PointOf(g)]
  {
  }

  /** The differences so far lead to these points and this cell. */
  ghost predicate Reached(ret: seq<Point>, done: seq<Diff>, lat: int, lon: int) {
    ret == PointsOf(SumsOf(done, |done|)) && Cell(lat, lon) == Last(SumsOf(done, |done|))
  }

  lemma ReachNext(ret: seq<Point>, done: seq<Diff>, lat: int, lon: int, d: Diff)
    requires Reached(ret, done, lat, lon)
    ensures Reached(ret + [PointOf(Cell(lat + d.lat, lon + d.lon))], done + [d], lat + d.lat, lon + d.lon)
  {
    SumsPrefix(done, d, |done|);
    PointsOfSnoc(SumsOf(done, |done|), Cell(lat + d.lat, lon + d.lon));
  }

  method DecodePolyline(p: seq<Byte>) returns (ret: seq<Point>, ok: bool)
    ensures ret == Line(p) && ok == Decodes(p)
  {
    ret, ok := [], true;
    var pos, lat, lon := 0, 0, 0;
    ghost var done: seq<Diff>, all := [], DecodeFrom(p, 0);
    while pos < |p|
      invariant ok && all.ok == DecodeFrom(p, pos).ok && all.diffs == done + DecodeFrom(p, pos).diffs
      invariant Reached(ret, done, lat, lon)
    {
      var d := DecodePair(p, pos);
      if d.None? {
        assert done + [] == done;
        return ret, false;
      }
      ReachNext(ret, done, lat, lon, Diff(d.value.0, d.value.1));
      MoveHead(done, Diff(d.value.0, d.value.1), DecodeFrom(p, d.value.2).diffs);
      lat, lon, pos := lat + d.value.0, lon + d.value.1, d.value.2;
      ret := ret + [PointOf(Cell(lat, lon))];
      done := done + [Diff(d.value.0, d.value.1)];
    }
    assert done + [] == done;
  }

  // ---- Round trips ----

  /** The bytes hold these differences: the n-th between positions at[n] and at[n + 1]. */
  ghost predicate Holds(p: seq<Byte>, ds: seq<Diff>, at: seq<nat>) {
    && |at| == |ds| + 1 && at[0] == 0 && at[|ds|] == |p|
    && forall n :: 0 <= n < |ds| ==> HoldsDiff(p, ds[n], at[n], at[n + 1])
  }

  predicate HoldsDiff(p: seq<Byte>, d: Diff, lo: nat, hi: nat) {
    lo < |p| && DecodePair(p, lo) == Some((d.lat, d.lon, hi))
  }

  /** The differences from the n-th on. */
  ghost predicate Yields(d: Decoded, ds: seq<Diff>, n: nat) {
    d.ok && n + |d.diffs| == |ds| && forall i :: n <= i < |ds| ==> d.diffs[i - n] == ds[i]
  }

  lemma {:induction false} HeldIsDecoded(p: seq<Byte>, ds: seq<Diff>, at: seq<nat>, n: nat)
    requires Holds(p, ds, at) && n <= |ds|
    ensures Yields(DecodeFrom(p, at[n]), ds, n)
    decreases |ds| - n
  {
    if n < |ds| {
      HeldIsDecoded(p, ds, at, n + 1);
      assert HoldsDiff(p, ds[n], at[n], at[n + 1]);
    }
  }

  lemma StandsLast(a: seq<Byte>, code: seq<Byte>)
    ensures StandsAt(code, a + code, |a|)
  {
  }

  lemma StandsStill(code: seq<Byte>, p: seq<Byte>, q: seq<Byte>, k: nat)
    requires StandsAt(code, p, k)
    ensures StandsAt(code, p + q, k)
  {
  }

  lemma {:induction false} PairStands(ds: seq<Diff>, n: nat, m: nat)
    requires n < m <= |ds|
    ensures StandsAt(EncodePair(ds[n].lat, ds[n].lon), Encoded(ds, m), |Encoded(ds, n)|)
  {
    var code, last := EncodePair(ds[n].lat, ds[n].lon), EncodePair(ds[m - 1].lat, ds[m - 1].lon);
    if n < m - 1 {
      PairStands(ds, n, m - 1);
      StandsStill(code, Encoded(ds, m - 1), last, |Encoded(ds, n)|);
    } else {
      StandsLast(Encoded(ds, n), code);
    }
  }

  lemma EncodedHolds(ds: seq<Diff>) returns (at: seq<nat>)
    ensures Holds(Encoded(ds, |ds|), ds, at)
  {
    at := seq(|ds| + 1, n requires 0 <= n <= |ds| => |Encoded(ds, n)|);
    forall n | 0 <= n < |ds| ensures HoldsDiff(Encoded(ds, |ds|), ds[n], |Encoded(ds, n)|, |Encoded(ds, n + 1)|) {
      PairStands(ds, n, |ds|);
      DecodeEncodedPair(ds[n].lat, ds[n].lon, Encoded(ds, |ds|), |Encoded(ds, n)|);
    }
  }

  lemma DecodeEncoded(ds: seq<Diff>)
    ensures DecodeFrom(Encoded(ds, |ds|), 0) == Decoded(ds, true)
  {
    var p := Encoded(ds, |ds|);
    var at := EncodedHolds(ds);
    HeldIsDecoded(p, ds, at, 0);
    assert forall i :: 0 <= i < |ds| ==> DecodeFrom(p, 0).diffs[i - 0] == ds[i];
    assert DecodeFrom(p, 0).diffs == ds;
  }

  /** Each coordinate is within d of the other's. */
  predicate Near(a: Point, b: Point, d: real) {
    -d <= a.lat - b.lat <= d && -d <= a.lon - b.lon <= d
  }

  lemma CellIsNear(c: Point)
    ensures Near(PointOf(CellOf(c)), c, 0.000005)
  {
    RoundIsNearest(100000.0 * c.lat);
    RoundIsNearest(100000.0 * c.lon);
  }

  lemma LineOfCode(cs: seq<Point>)
    ensures Decodes(Code(cs)) && Line(Code(cs)) == PointsOf(CellsOf(cs))
  {
    DecodeEncoded(DiffsOf(CellsOf(cs)));
    SumsOfDiffs(CellsOf(cs), |cs|);
    assert CellsOf(cs)[..|cs|] == CellsOf(cs);
  }

  /** Decoding an encoded line gives every point rounded to a hundred-thousandth of a degree: off by at most half
      of that, however long the line. */
  lemma DecodeOfEncode(cs: seq<Point>)
    ensures Decodes(Code(cs)) && |Line(Code(cs))| == |cs|
    ensures forall i :: 0 <= i < |cs| ==>
      Line(Code(cs))[i] == PointOf(CellOf(cs[i])) && Near(Line(Code(cs))[i], cs[i], 0.000005)
  {
    LineOfCode(cs);
    forall i | 0 <= i < |cs| ensures Near(PointOf(CellOf(cs[i])), cs[i], 0.000005) { CellIsNear(cs[i]); }
  }

  lemma CellsOfPointsOf(gs: seq<Cell>)
    ensures CellsOf(PointsOf(gs)) == gs
  {
    forall i | 0 <= i < |gs| ensures CellOf(PointOf(gs[i])) == gs[i] {
      RoundOfInt(gs[i].lat);
      RoundOfInt(gs[i].lon);
    }
  }

  /** Encoding what was decoded from a code gives the code again. */
  lemma EncodeOfDecodeOfEncode(cs: seq<Point>)
    ensures Code(Line(Code(cs))) == Code(cs)
  {
    LineOfCode(cs);
    CellsOfPointsOf(CellsOf(cs));
  }

  // ---- Codes that were not made by the encoder ----

  /** A byte that announces more, followed by a last byte worth 0. */
  predicate PaddedAt(p: seq<Byte>, k: nat)
    requires 0 < k < |p|
  {
    p[k - 1] >= 95 && p[k] == 63
  }

  predicate Unpadded(p: seq<Byte>, lo: nat, hi: nat)
    requires hi <= |p|
  {
    forall k :: lo < k < hi ==> !PaddedAt(p, k)
  }

  /** A code is the bytes lo .. hi again if they hold no padding, and shorter if they do. */
  ghost predicate Recodes(code: seq<Byte>, p: seq<Byte>, lo: nat, hi: nat)
    requires hi <= |p|
  {
    && lo + |code| <= hi && (Unpadded(p, lo, hi) <==> lo + |code| == hi)
    && (Unpadded(p, lo, hi) ==> StandsAt(code, p, lo))
  }

  lemma {:induction false} ReencodeUint(p: seq<Byte>, k: nat)
    requires DecodeUint(p, k).Some?
    ensures var r := DecodeUint(p, k).value; Recodes(EncodeUint(r.0), p, k, r.1) && p[r.1 - 1] < 95
    decreases |p| - k
  {
    var r := DecodeUint(p, k).value;
    if p[k] >= 95 {
      ReencodeUint(p, k + 1);
      var more := DecodeUint(p, k + 1).value;
      if more.0 > 0 {
        assert r.0 / 32 == more.0 && r.0 % 32 == p[k] - 95;
        RecodesCons(EncodeUint(more.0), p, k, r.1);
      } else if Unpadded(p, k, r.1) {
        assert Unpadded(p, k + 1, r.1);
        assert p[k + 1] == 63;
        assert PaddedAt(p, k + 1);
      }
    }
  }

  lemma RecodesCons(code: seq<Byte>, p: seq<Byte>, k: nat, hi: nat)
    requires k + 1 < hi <= |p| && Recodes(code, p, k + 1, hi) && code != [] && code[0] != 63
    ensures Recodes([p[k]] + code, p, k, hi)
  {
    if Unpadded(p, k + 1, hi) {
      assert p[k + 1 + 0] == code[0];
      forall j | k < j < hi ensures !PaddedAt(p, j) { if j > k + 1 { assert !PaddedAt(p, j); } }
    }
  }

  lemma RecodesConcat(a: seq<Byte>, b: seq<Byte>, p: seq<Byte>, lo: nat, mid: nat, hi: nat)
    requires 0 < mid <= hi <= |p| && Recodes(a, p, lo, mid) && Recodes(b, p, mid, hi) && p[mid - 1] < 95
    ensures Recodes(a + b, p, lo, hi)
  {
    assert Unpadded(p, lo, hi) <==> Unpadded(p, lo, mid) && Unpadded(p, mid, hi);
  }

  lemma ReencodePair(p: seq<Byte>, k: nat)
    requires DecodePair(p, k).Some?
    ensures var d := DecodePair(p, k).value; Recodes(EncodePair(d.0, d.1), p, k, d.2) && p[d.2 - 1] < 95
  {
    var a := DecodeUint(p, k).value;
    var b := DecodeUint(p, a.1).value;
    ReencodeUint(p, k);
    ReencodeUint(p, a.1);
    ZigZagOf(a.0);
    ZigZagOf(b.0);
    RecodesConcat(EncodeUint(a.0), EncodeUint(b.0), p, k, a.1, b.1);
  }

  lemma {:induction false} ReencodeDiffs(p: seq<Byte>, ds: seq<Diff>, at: seq<nat>, n: nat)
    requires Holds(p, ds, at) && n <= |ds|
    ensures at[n] <= |p| && Recodes(Encoded(ds, n), p, 0, at[n]) && (n > 0 ==> at[n] > 0 && p[at[n] - 1] < 95)
  {
    if n > 0 {
      ReencodeDiffs(p, ds, at, n - 1);
      assert HoldsDiff(p, ds[n - 1], at[n - 1], at[n]);
      ReencodePair(p, at[n - 1]);
      if n > 1 {
        RecodesConcat(Encoded(ds, n - 1), EncodePair(ds[n - 1].lat, ds[n - 1].lon), p, 0, at[n - 1], at[n]);
      }
    }
  }

  /** Where the differences begin. */
  function Positions(p: seq<Byte>, k: nat): (at: seq<nat>)
    requires k <= |p| && DecodeFrom(p, k).ok
    ensures |at| == |DecodeFrom(p, k).diffs| + 1 && at[0] == k
    decreases |p| - k
  {
    if k >= |p| then [k] else [k] + Positions(p, DecodePair(p, k).value.2)
  }

  lemma {:induction false} PositionsHold(p: seq<Byte>, k: nat)
    requires k <= |p| && DecodeFrom(p, k).ok
    ensures var ds, at := DecodeFrom(p, k).diffs, Positions(p, k);
      at[|ds|] == |p| && forall n :: 0 <= n < |ds| ==> HoldsDiff(p, ds[n], at[n], at[n + 1])
    decreases |p| - k
  {
    if k < |p| {
      var next := DecodePair(p, k).value.2;
      PositionsHold(p, next);
      var ds, at := DecodeFrom(p, next).diffs, Positions(p, next);
      forall n | 0 <= n < |ds| + 1
        ensures HoldsDiff(p, DecodeFrom(p, k).diffs[n], Positions(p, k)[n], Positions(p, k)[n + 1])
      {
        if n > 0 { assert HoldsDiff(p, ds[n - 1], at[n - 1], at[n]); }
      }
    }
  }

  /** Any bytes that decode encode to themselves again exactly if no number in them is padded. */
  lemma EncodeOfDecodeIff(p: seq<Byte>)
    requires Decodes(p)
    ensures Code(Line(p)) == p <==> Unpadded(p, 0, |p|)
  {
    var ds := DecodeFrom(p, 0).diffs;
    PositionsHold(p, 0);
    ReencodeDiffs(p, ds, Positions(p, 0), |ds|);
    CellsOfPointsOf(SumsOf(ds, |ds|));
    DiffsOfSums(ds);
    assert Code(Line(p)) == Encoded(ds, |ds|);
    if Unpadded(p, 0, |p|) {
      forall i | 0 <= i < |p| ensures Encoded(ds, |ds|)[i] == p[i] { assert p[0 + i] == Encoded(ds, |ds|)[i]; }
    }
  }

  /** A latitude of 0 in two bytes, the second worth nothing, and a longitude of 0: it decodes, but the code of its line
      is shorter. */
  lemma PaddedIsShortened()
    ensures Decodes([95, 63, 63]) && Code(Line([95, 63, 63])) != [95, 63, 63]
  {
    var p: seq<Byte> := [95, 63, 63];
    assert DecodeUint(p, 1) == Some((0, 2));
    assert DecodeUint(p, 0) == Some((0, 2));
    assert DecodeUint(p, 2) == Some((0, 3));
    assert DecodePair(p, 0).value.2 == 3;
    assert PaddedAt(p, 1);
    EncodeOfDecodeIff(p);
  }

  // ---- A known code ----

  lemma CodesOfExample()
    ensures EncodeInt(5597821) == [121, 102, 116, 116, 73] && EncodeInt(-317380) == [102, 123, 106, 82]
    ensures EncodeInt(0) == [63] && EncodeInt(-2) == [66] && EncodeInt(-1) == [64]
  {
    assert EncodeUint(10) == [73];
    assert EncodeUint(341) == [116] + EncodeUint(10);
    assert EncodeUint(10933) == [116] + EncodeUint(341);
    assert EncodeUint(349863) == [102] + EncodeUint(10933);
    assert EncodeUint(11195642) == [121] + EncodeUint(349863);
    assert EncodeUint(19) == [82];
    assert EncodeUint(619) == [106] + EncodeUint(19);
    assert EncodeUint(19836) == [123] + EncodeUint(619);
    assert EncodeUint(634759) == [102] + EncodeUint(19836);
  }

  const EXAMPLE := [Point(55.97821, -3.1738), Point(55.97821, -3.17382), Point(55.978199, -3.17384)]

  /** The first three points of a known line, and the thirteen bytes they are coded with. */
  lemma CodeOfExample()
    ensures Code(EXAMPLE) == [121, 102, 116, 116, 73, 102, 123, 106, 82, 63, 66, 64, 66]
  {
    CellsOfExample();
    var a, b, c := Diff(5597821, -317380), Diff(0, -2), Diff(-1, -2);
    assert DiffsOf(CellsOf(EXAMPLE)) == [a, b, c];
    EncodedThree(a, b, c);
    CodesOfExample();
  }

  lemma CellsOfExample()
    ensures CellsOf(EXAMPLE) == [Cell(5597821, -317380), Cell(5597821, -317382), Cell(5597820, -317384)]
  {
    assert CellOf(EXAMPLE[0]) == Cell(5597821, -317380);
    assert CellOf(EXAMPLE[1]) == Cell(5597821, -317382);
    assert CellOf(EXAMPLE[2]) == Cell(5597820, -317384);
  }

  lemma EncodedThree(a: Diff, b: Diff, c: Diff)
    ensures Encoded([a, b, c], 3) ==
      EncodePair(a.lat, a.lon) + EncodePair(b.lat, b.lon) + EncodePair(c.lat, c.lon)
  {
    assert Encoded([a, b, c], 1) == EncodePair(a.lat, a.lon);
    assert Encoded([a, b, c], 2) == Encoded([a, b, c], 1) + EncodePair(b.lat, b.lon);
  }
}
