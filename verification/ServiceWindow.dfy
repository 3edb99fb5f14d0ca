/** The busiest window of stats/fvsl.go: a ring buffer of the last days' levels, summed every day. */
module ServiceWindow {
  import opened ServiceLevels
  import opened LevelRanges

  /** The level of the i-th day from `start`. */
  function Val(levels: seq<Level>, start: nat, i: nat): int {
    LevelOn(levels, start + i, |levels|)
  }

  /** The levels of days [a, n), counted from `start`. */
  function SumDays(levels: seq<Level>, start: nat, a: nat, n: nat): int {
    if n <= a then 0 else SumDays(levels, start, a, n - 1) + Val(levels, start, n - 1)
  }

  /** The `w` days that end with the i-th day; days before `start` count 0. */
  function Trailing(levels: seq<Level>, start: nat, w: nat, i: nat): int {
    SumDays(levels, start, if i + 1 < w then 0 else i + 1 - w, i + 1)
  }

  // ---- The ring buffer ----

  /** What slot `j` holds after n days: the latest day written there. */
  function SlotAfter(levels: seq<Level>, start: nat, w: nat, n: nat, j: nat): int
    requires w > 0
  {
    if n == 0 then 0 else
    if (n - 1) % w == j then Val(levels, start, n - 1) else SlotAfter(levels, start, w, n - 1, j)
  }

  function SumSlots(levels: seq<Level>, start: nat, w: nat, n: nat, k: nat): int
    requires w > 0
  {
    if k == 0 then 0 else SumSlots(levels, start, w, n, k - 1) + SlotAfter(levels, start, w, n, k - 1)
  }

  lemma DivMod(x: nat, w: nat)
    requires w > 0
    ensures x == w * (x / w) + x % w && x % w < w
  {
  }

  lemma MultipleApart(w: nat, p: int, q: int)
    requires w > 0 && p < q
    ensures w * q >= w * p + w
  {
    assert w * (q - p) >= w by { MulAtLeast(w, q - p); }
  }

  lemma {:induction false} MulAtLeast(w: nat, k: nat)
    requires k >= 1
    ensures w * k >= w
  {
    if k > 1 { MulAtLeast(w, k - 1); }
  }

  lemma SameRemainder(w: nat, p: int, q: int, x: nat, y: nat, gap: nat)
    requires x < w && y < w && w * q + y == w * p + x + gap && gap <= w
    ensures 0 < gap < w ==> x != y
    ensures gap == w ==> x == y
  {
    if q < p { MultipleApart(w, q, p); }
    if p < q {
      MultipleApart(w, p, q);
      assert w * (p + 1) == w * p + w;
      if p + 1 < q { MultipleApart(w, p + 1, q); }
    }
  }

  /** Days less than a lap apart use different slots, days a lap apart the same. */
  lemma Slots(w: nat, i: nat, gap: nat)
    requires w > 0 && gap <= w && gap <= i
    ensures 0 < gap < w ==> (i - gap) % w != i % w
    ensures gap == w ==> (i - gap) % w == i % w
  {
    DivMod(i, w);
    DivMod(i - gap, w);
    SameRemainder(w, (i - gap) / w, i / w, (i - gap) % w, i % w, gap);
  }

  /** The slot about to be overwritten holds the day that leaves the window. */
  lemma {:induction false} LeavingDay(levels: seq<Level>, start: nat, w: nat, i: nat, n: nat)
    requires w > 0 && n <= i && i <= n + w - 1
    ensures SlotAfter(levels, start, w, n, i % w) == if i >= w then Val(levels, start, i - w) else 0
  {
    if n == 0 {
    } else if i == n + w - 1 {
      Slots(w, i, w);
    } else {
      Slots(w, i, i - (n - 1));
      LeavingDay(levels, start, w, i, n - 1);
    }
  }

  lemma {:induction false} OverwriteSum(levels: seq<Level>, start: nat, w: nat, n: nat, k: nat)
    requires w > 0
    ensures SumSlots(levels, start, w, n + 1, k) == SumSlots(levels, start, w, n, k) +
      if n % w < k then Val(levels, start, n) - SlotAfter(levels, start, w, n, n % w) else 0
  {
    if k > 0 { OverwriteSum(levels, start, w, n, k - 1); }
  }

  lemma {:induction false} DropFirst(levels: seq<Level>, start: nat, a: nat, n: nat)
    requires a < n
    ensures SumDays(levels, start, a, n) == Val(levels, start, a) + SumDays(levels, start, a + 1, n)
  {
    if n > a + 1 { DropFirst(levels, start, a, n - 1); }
  }

  lemma {:induction false} ZeroSlots(levels: seq<Level>, start: nat, w: nat, k: nat)
    requires w > 0
    ensures SumSlots(levels, start, w, 0, k) == 0
  {
    if k > 0 { ZeroSlots(levels, start, w, k - 1); }
  }

  /** The buffer's sum is the trailing sum. */
  lemma {:induction false} RingIsTrailing(levels: seq<Level>, start: nat, w: nat, n: nat)
    requires w > 0
    ensures SumSlots(levels, start, w, n, w) == SumDays(levels, start, if n < w then 0 else n - w, n)
  {
    if n == 0 {
      ZeroSlots(levels, start, w, w);
    } else {
      RingIsTrailing(levels, start, w, n - 1);
      OverwriteSum(levels, start, w, n - 1, w);
      LeavingDay(levels, start, w, n - 1, n - 1);
      if n > w { DropFirst(levels, start, n - 1 - w, n - 1); }
    }
  }

  // ---- The maximum ----

  /** `best` bounds every window, and (from, end) is the latest window attaining it, if any reaches 0. */
  ghost predicate Busiest(levels: seq<Level>, start: nat, w: nat, n: nat, from: int, end: int, best: int)
    requires w > 0
  {
    && best >= 0 && (forall i: nat :: i < n ==> Trailing(levels, start, w, i) <= best)
    && (|| (from == end == start && best == 0 && forall i: nat :: i < n ==> Trailing(levels, start, w, i) < 0)
        || (&& start <= end < start + n && from == end - w + 1
            && Trailing(levels, start, w, end - start) == best
            && forall i: nat :: end - start < i < n ==> Trailing(levels, start, w, i) < best))
  }

  lemma {:induction false} NonNegativeDays(levels: seq<Level>, start: nat, a: nat, n: nat)
    requires forall d: nat :: LevelOn(levels, d, |levels|) >= 0
    ensures SumDays(levels, start, a, n) >= 0
  {
    if n > a { NonNegativeDays(levels, start, a, n - 1); }
  }

  /** With non-negative levels and at least one day, the result is a window that attains the maximum. */
  lemma NonNegativeBusiest(levels: seq<Level>, start: nat, w: nat, n: nat, from: int, end: int, best: int)
    requires w > 0 && n > 0 && Busiest(levels, start, w, n, from, end, best)
    requires forall d: nat :: LevelOn(levels, d, |levels|) >= 0
    ensures start <= end < start + n && from == end - w + 1 && Trailing(levels, start, w, end - start) == best
  {
    NonNegativeDays(levels, start, 0, 1);
    assert Trailing(levels, start, w, 0) >= 0;
  }

  function SumArray(a: array<int>, k: nat): int
    requires k <= a.Length
    reads a
  {
    if k == 0 then 0 else SumArray(a, k - 1) + a[k - 1]
  }

  lemma {:induction false} SumArrayIsSlots(a: array<int>, levels: seq<Level>, start: nat, n: nat, k: nat)
    requires k <= a.Length
    requires forall j :: 0 <= j < a.Length ==> a[j] == SlotAfter(levels, start, a.Length, n, j)
    ensures a.Length > 0 ==> SumArray(a, k) == SumSlots(levels, start, a.Length, n, k)
  {
    if k > 0 { SumArrayIsSlots(a, levels, start, n, k - 1); }
  }

  /** The sum of the ring after n days is that of the last days. */
  method SumWindow(window: array<int>, ghost levels: seq<Level>, ghost start: nat, ghost n: nat) returns (tot: int)
    requires window.Length > 0 && n > 0
    requires forall j :: 0 <= j < window.Length ==> window[j] == SlotAfter(levels, start, window.Length, n, j)
    ensures tot == Trailing(levels, start, window.Length, n - 1)
  {
    tot := 0;
    for k := 0 to window.Length
      invariant tot == SumArray(window, k)
    {
      tot := tot + window[k];
    }
    SumArrayIsSlots(window, levels, start, n, window.Length);
    RingIsTrailing(levels, start, window.Length, n);
  }

  lemma BusiestNext(levels: seq<Level>, start: nat, w: nat, n: nat, from: int, end: int, best: int)
    requires w > 0 && Busiest(levels, start, w, n, from, end, best)
    ensures var tot := Trailing(levels, start, w, n);
      if tot >= best then Busiest(levels, start, w, n + 1, start + n - w + 1, start + n, tot)
      else Busiest(levels, start, w, n + 1, from, end, best)
  {
  }

  method ServiceLevelDaysMaxWindow(levels: seq<Level>, startDate: nat, endDate: nat, windowSize: int)
    returns (windowStart: int, windowEnd: int, windowSeconds: int)
    ensures var n := if startDate <= endDate then endDate - startDate + 1 else 0;
      Busiest(levels, startDate, if windowSize < 1 then 1 else windowSize, n, windowStart, windowEnd, windowSeconds)
  {
    var size := if windowSize < 1 then 1 else windowSize;
    windowSeconds, windowStart, windowEnd := 0, startDate, startDate;
    var i := 0;
    var window := new int[size](_ => 0);
    while startDate + i <= endDate
      invariant startDate <= endDate + 1 ==> startDate + i <= endDate + 1
      invariant startDate > endDate ==> i == 0
      invariant forall j :: 0 <= j < size ==> window[j] == SlotAfter(levels, startDate, size, i, j)
      invariant Busiest(levels, startDate, size, i, windowStart, windowEnd, windowSeconds)
    {
      BusiestNext(levels, startDate, size, i, windowStart, windowEnd, windowSeconds);
      window[i % size] := LevelOn(levels, startDate + i, |levels|);
      i := i + 1;
      var tot := SumWindow(window, levels, startDate, i);
      if tot >= windowSeconds {
        windowSeconds := tot;
        windowEnd := startDate + i - 1;
        windowStart := windowEnd - size + 1;
      }
    }
  }
}
