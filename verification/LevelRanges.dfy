/** The second half of stats/fvsl.go's ServiceLevels, and its expansion: the week map becomes one row per
    maximal run of weeks with the same pattern, and ServiceLevelDays reads the rows back day by day. */
module LevelRanges {
  import opened ServiceCalendar
  import opened ServiceObject
  import opened ServiceLevels

  /** Week starts are Mondays. */
  ghost predicate WeekMap(smap: map<nat, Pattern>) {
    forall w :: w in smap ==> w % 7 == 0
  }

  ghost predicate HasPattern(smap: map<nat, Pattern>, w: int, p: Pattern) {
    w >= 0 && w in smap && smap[w] == p
  }

  /** Every week of the run from Monday `a` to Monday `b` has the pattern. */
  ghost predicate Run(smap: map<nat, Pattern>, p: Pattern, a: nat, b: nat) {
    && a % 7 == 0 && b % 7 == 0 && a <= b
    && forall w: nat :: a <= w <= b && w % 7 == 0 ==> HasPattern(smap, w, p)
  }

  /** A row is a run that neither neighbouring week could extend. */
  ghost predicate MaximalRun(smap: map<nat, Pattern>, l: Level) {
    && l.end >= 6 && Run(smap, l.week, l.start, l.end - 6)
    && !HasPattern(smap, l.start - 7, l.week) && !HasPattern(smap, l.end + 1, l.week)
  }

  ghost predicate Within(l: Level, d: nat) {
    l.start <= d <= l.end
  }

  ghost predicate Covered(levels: seq<Level>, d: nat) {
    exists i :: 0 <= i < |levels| && Within(levels[i], d)
  }

  ghost predicate Disjoint(levels: seq<Level>) {
    forall i, j, d: nat :: 0 <= i < j < |levels| ==> !(Within(levels[i], d) && Within(levels[j], d))
  }

  ghost predicate MaximalRuns(smap: map<nat, Pattern>, levels: seq<Level>) {
    forall i :: 0 <= i < |levels| ==> MaximalRun(smap, levels[i])
  }

  ghost predicate PatternsIn(levels: seq<Level>, ps: set<Pattern>) {
    forall i :: 0 <= i < |levels| ==> levels[i].week in ps
  }

  ghost predicate CoversWeeks(smap: map<nat, Pattern>, ps: set<Pattern>, levels: seq<Level>) {
    forall w :: w in smap && smap[w] in ps ==> Covered(levels, w)
  }

  lemma CoveredConcat(a: seq<Level>, b: seq<Level>, d: nat)
    ensures Covered(a + b, d) <==> Covered(a, d) || Covered(b, d)
  {
    if i :| 0 <= i < |a| && Within(a[i], d) { assert Within((a + b)[i], d); }
    if i :| 0 <= i < |b| && Within(b[i], d) { assert Within((a + b)[|a| + i], d); }
  }

  // ---- One pattern's weeks ----

  ghost predicate Increasing(v: seq<nat>) {
    forall i, j :: 0 <= i < j < |v| ==> v[i] < v[j]
  }

  ghost predicate WeeksOf(smap: map<nat, Pattern>, p: Pattern, v: seq<nat>) {
    Increasing(v) && forall w: nat :: w in v <==> HasPattern(smap, w, p)
  }

  method Least(s: set<nat>) returns (m: nat)
    requires s != {}
    ensures m in s && forall x :: x in s ==> m <= x
  {
    m := Pick(s);
    var rest := s - {m};
    while rest != {}
      invariant rest <= s && m in s && forall x :: x in s && x !in rest ==> m <= x
    {
      var x := Pick(rest);
      if x < m { m := x; }
      rest := rest - {x};
    }
  }

  /** Collects imap[p] and sorts it. */
  method SortedWeeks(smap: map<nat, Pattern>, p: Pattern) returns (v: seq<nat>)
    ensures WeeksOf(smap, p, v)
  {
    var rest := set w | w in smap && smap[w] == p;
    v := [];
    while rest != {}
      invariant forall w: nat :: HasPattern(smap, w, p) <==> w in v || w in rest
      invariant Increasing(v)
      invariant forall k, y :: 0 <= k < |v| && y in rest ==> v[k] < y
    {
      var m := Least(rest);
      v := v + [m];
      rest := rest - {m};
    }
  }

  /** What the weeks of one pattern tell about the week map, index by index. */
  lemma WeekAt(smap: map<nat, Pattern>, p: Pattern, v: seq<nat>, k: nat)
    requires WeekMap(smap) && WeeksOf(smap, p, v) && k < |v|
    ensures v[k] % 7 == 0 && HasPattern(smap, v[k], p)
    ensures k > 0 ==> v[k - 1] + 7 <= v[k]
  {
    assert v[k] in v;
    if k > 0 { assert v[k - 1] in v; }
  }

  lemma NotAWeek(smap: map<nat, Pattern>, p: Pattern, v: seq<nat>, k: nat, w: int)
    requires WeeksOf(smap, p, v) && k <= |v|
    requires (k > 0 ==> v[k - 1] < w) && (k < |v| ==> w < v[k])
    ensures !HasPattern(smap, w, p)
  {
  }

  ghost predicate WeekFollows(v: seq<nat>, k: nat) {
    k + 1 < |v| && v[k] + 7 == v[k + 1]
  }

  ghost predicate Stepped(v: seq<nat>, from: nat, n: nat) {
    forall k :: from <= k < n ==> WeekFollows(v, k)
  }

  lemma {:induction false} SteppedRun(smap: map<nat, Pattern>, p: Pattern, v: seq<nat>, from: nat, n: nat)
    requires WeekMap(smap) && WeeksOf(smap, p, v) && from <= n < |v|
    requires Stepped(v, from, n)
    ensures Run(smap, p, v[from], v[n])
  {
    WeekAt(smap, p, v, n);
    if n > from {
      assert WeekFollows(v, n - 1);
      SteppedRun(smap, p, v, from, n - 1);
    }
  }

  /** A stretch of consecutive weeks with a gap on both sides is a row. */
  lemma GapsMakeRow(smap: map<nat, Pattern>, p: Pattern, v: seq<nat>, from: nat, n: nat)
    requires WeekMap(smap) && WeeksOf(smap, p, v) && from < n <= |v|
    requires Stepped(v, from, n - 1)
    requires from > 0 ==> v[from - 1] + 7 != v[from]
    requires n < |v| ==> v[n - 1] + 7 != v[n]
    ensures MaximalRun(smap, Level(v[from], v[n - 1] + 6, p))
  {
    SteppedRun(smap, p, v, from, n - 1);
    WeekAt(smap, p, v, from);
    NotAWeek(smap, p, v, from, (v[from] as int) - 7);
    if n < |v| { WeekAt(smap, p, v, n); }
    NotAWeek(smap, p, v, n, v[n - 1] + 7);
  }

  /** The rows for v[..n], n being the start of a run or the end. */
  ghost predicate RowsUpTo(smap: map<nat, Pattern>, p: Pattern, v: seq<nat>, n: nat, levels: seq<Level>)
    requires n <= |v|
  {
    && MaximalRuns(smap, levels) && PatternsIn(levels, {p})
    && (forall k :: 0 <= k < n ==> Covered(levels, v[k]))
    && Ascending(levels) && (forall i :: 0 <= i < |levels| ==> n > 0 && levels[i].end <= v[n - 1] + 6)
  }

  ghost predicate Ascending(levels: seq<Level>) {
    forall i, j :: 0 <= i < j < |levels| ==> levels[i].end < levels[j].start
  }

  lemma CloseRow(smap: map<nat, Pattern>, p: Pattern, v: seq<nat>, from: nat, n: nat, levels: seq<Level>)
    requires WeekMap(smap) && WeeksOf(smap, p, v) && from < n <= |v|
    requires RowsUpTo(smap, p, v, from, levels)
    requires MaximalRun(smap, Level(v[from], v[n - 1] + 6, p))
    ensures RowsUpTo(smap, p, v, n, levels + [Level(v[from], v[n - 1] + 6, p)])
  {
    var l := Level(v[from], v[n - 1] + 6, p);
    var all := levels + [l];
    WeekAt(smap, p, v, from);
    forall k | 0 <= k < n ensures Covered(all, v[k]) {
      CoveredConcat(levels, [l], v[k]);
      assert k >= from ==> Within([l][0], v[k]);
    }
  }

  /** `ranges` and `start` of the loop over one pattern's sorted weeks, after its first n rounds. */
  datatype Ranges = Ranges(levels: seq<Level>, start: nat)

  function RangesAfter(p: Pattern, v: seq<nat>, n: nat): (r: Ranges)
    requires n < |v|
    ensures r.start <= n
    decreases n, 0
  {
    if n == 0 then Ranges([], 0)
    else if v[n - 1] + 7 == v[n] then RangesAfter(p, v, n - 1)
    else Ranges(RowsClosedAt(p, v, n), n)
  }

  /** The rows when the run in progress ends with v[n - 1]. */
  function RowsClosedAt(p: Pattern, v: seq<nat>, n: nat): seq<Level>
    requires 0 < n <= |v|
    decreases n - 1, 1
  {
    var r := RangesAfter(p, v, n - 1);
    r.levels + [Level(v[r.start], v[n - 1] + 6, p)]
  }

  method PatternRanges(p: Pattern, v: seq<nat>) returns (levels: seq<Level>)
    requires |v| > 0
    ensures levels == RowsClosedAt(p, v, |v|)
  {
    levels := [];
    var start := 0;
    for i := 0 to |v| - 1
      invariant start <= i && Ranges(levels, start) == RangesAfter(p, v, i)
    {
      if v[i] + 7 != v[i + 1] {
        levels := levels + [Level(v[start], v[i] + 6, p)];
        start := i + 1;
      }
    }
    levels := levels + [Level(v[start], v[|v| - 1] + 6, p)];
  }

  lemma {:induction false} RangesStepped(p: Pattern, v: seq<nat>, n: nat)
    requires n < |v|
    ensures var from := RangesAfter(p, v, n).start;
      Stepped(v, from, n) && (from > 0 ==> v[from - 1] + 7 != v[from])
  {
    if n > 0 {
      RangesStepped(p, v, n - 1);
      assert v[n - 1] + 7 == v[n] ==> WeekFollows(v, n - 1);
    }
  }

  ghost predicate RowsBefore(smap: map<nat, Pattern>, p: Pattern, v: seq<nat>, n: nat)
    requires n < |v|
  {
    var r := RangesAfter(p, v, n); RowsUpTo(smap, p, v, r.start, r.levels)
  }

  lemma CutRow(smap: map<nat, Pattern>, p: Pattern, v: seq<nat>, n: nat)
    requires WeekMap(smap) && WeeksOf(smap, p, v) && 0 < n <= |v| && (n < |v| ==> v[n - 1] + 7 != v[n])
    requires RowsBefore(smap, p, v, n - 1)
    ensures RowsUpTo(smap, p, v, n, RowsClosedAt(p, v, n))
  {
    var r := RangesAfter(p, v, n - 1);
    RangesStepped(p, v, n - 1);
    GapsMakeRow(smap, p, v, r.start, n);
    CloseRow(smap, p, v, r.start, n, r.levels);
  }

  lemma {:induction false} RangesAreRows(smap: map<nat, Pattern>, p: Pattern, v: seq<nat>, n: nat)
    requires WeekMap(smap) && WeeksOf(smap, p, v) && n < |v|
    ensures RowsBefore(smap, p, v, n)
  {
    if n > 0 {
      RangesAreRows(smap, p, v, n - 1);
      if v[n - 1] + 7 != v[n] { CutRow(smap, p, v, n); }
    }
  }

  lemma PatternRangesAreRows(smap: map<nat, Pattern>, p: Pattern, v: seq<nat>)
    requires WeekMap(smap) && WeeksOf(smap, p, v) && |v| > 0
    ensures RowsUpTo(smap, p, v, |v|, RowsClosedAt(p, v, |v|))
  {
    RangesAreRows(smap, p, v, |v| - 1);
    CutRow(smap, p, v, |v|);
  }

  // ---- All patterns ----

  /** A row gives every day within it the pattern of the day's own week. */
  lemma WeekWithin(smap: map<nat, Pattern>, l: Level, d: nat)
    requires MaximalRun(smap, l) && Within(l, d)
    ensures HasPattern(smap, Monday(d), l.week) && Within(l, Monday(d))
  {
  }

  lemma DisjointPatterns(smap: map<nat, Pattern>, ps: set<Pattern>, levels: seq<Level>, p: Pattern, more: seq<Level>)
    requires MaximalRuns(smap, levels) && MaximalRuns(smap, more) && p !in ps
    requires PatternsIn(levels, ps) && PatternsIn(more, {p}) && Disjoint(levels) && Ascending(more)
    ensures Disjoint(levels + more)
  {
    var all := levels + more;
    forall i, j, d: nat | 0 <= i < j < |all| && Within(all[i], d) && Within(all[j], d) ensures false {
      if i < |levels| <= j {
        WeekWithin(smap, levels[i], d);
        WeekWithin(smap, more[j - |levels|], d);
      }
    }
  }

  lemma CoversMore(smap: map<nat, Pattern>, ps: set<Pattern>, levels: seq<Level>, p: Pattern, v: seq<nat>,
                   more: seq<Level>)
    requires CoversWeeks(smap, ps, levels) && WeeksOf(smap, p, v) && RowsUpTo(smap, p, v, |v|, more)
    ensures CoversWeeks(smap, ps + {p}, levels + more)
  {
    forall w | w in smap && smap[w] in ps + {p} ensures Covered(levels + more, w) {
      CoveredConcat(levels, more, w);
      if smap[w] == p {
        assert HasPattern(smap, w, p);
        var k :| 0 <= k < |v| && v[k] == w;
        assert Covered(more, v[k]);
      }
    }
  }

  ghost predicate RowsFor(smap: map<nat, Pattern>, ps: set<Pattern>, levels: seq<Level>) {
    MaximalRuns(smap, levels) && PatternsIn(levels, ps) && CoversWeeks(smap, ps, levels) && Disjoint(levels)
  }

  lemma AddPattern(smap: map<nat, Pattern>, ps: set<Pattern>, levels: seq<Level>, p: Pattern, v: seq<nat>,
                   more: seq<Level>)
    requires RowsFor(smap, ps, levels) && p !in ps && WeeksOf(smap, p, v) && RowsUpTo(smap, p, v, |v|, more)
    ensures RowsFor(smap, ps + {p}, levels + more)
  {
    DisjointPatterns(smap, ps, levels, p, more);
    CoversMore(smap, ps, levels, p, v, more);
  }

  method CompressWeeks(smap: map<nat, Pattern>) returns (levels: seq<Level>)
    requires WeekMap(smap)
    ensures RowsFor(smap, smap.Values, levels)
  {
    levels := [];
    var todo := smap.Values;
    ghost var done := {};
    while todo != {}
      invariant done !! todo && done + todo == smap.Values && RowsFor(smap, done, levels)
    {
      var p := Pick(todo);
      var v := SortedWeeks(smap, p);
      SomeWeek(smap, p, v);
      var more := PatternRanges(p, v);
      PatternRangesAreRows(smap, p, v);
      AddPattern(smap, done, levels, p, v, more);
      levels := levels + more;
      todo := todo - {p};
      done := done + {p};
    }
    assert done == smap.Values;
  }

  lemma SomeWeek(smap: map<nat, Pattern>, p: Pattern, v: seq<nat>)
    requires p in smap.Values && WeeksOf(smap, p, v)
    ensures |v| > 0
  {
    var w :| w in smap && smap[w] == p;
    assert HasPattern(smap, w, p);
  }

  // ---- Expansion ----

  /** ServiceLevelDays for one day: the first of the last n rows within whose dates the day falls. */
  function LevelOn(levels: seq<Level>, d: nat, n: nat): int
    requires n <= |levels|
  {
    if n == 0 then 0 else
    var row := levels[|levels| - n];
    if row.start <= d <= row.end then row.week[d % 7] else LevelOn(levels, d, n - 1)
  }

  lemma {:induction false} LevelOnRow(levels: seq<Level>, d: nat, n: nat, i: nat)
    requires Disjoint(levels) && n <= |levels| && |levels| - n <= i < |levels| && Within(levels[i], d)
    ensures LevelOn(levels, d, n) == levels[i].week[d % 7]
  {
    if i != |levels| - n {
      assert !Within(levels[|levels| - n], d);
      LevelOnRow(levels, d, n - 1, i);
    }
  }

  lemma {:induction false} LevelOnNone(levels: seq<Level>, d: nat, n: nat)
    requires n <= |levels| && !Covered(levels, d)
    ensures LevelOn(levels, d, n) == 0
  {
    if n > 0 {
      assert !Within(levels[|levels| - n], d);
      LevelOnNone(levels, d, n - 1);
    }
  }

  lemma CoveredIff(smap: map<nat, Pattern>, levels: seq<Level>, d: nat)
    requires WeekMap(smap) && MaximalRuns(smap, levels) && CoversWeeks(smap, smap.Values, levels)
    ensures Covered(levels, d) <==> Monday(d) in smap
  {
    if i :| 0 <= i < |levels| && Within(levels[i], d) { WeekWithin(smap, levels[i], d); }
    if Monday(d) in smap {
      var i :| 0 <= i < |levels| && Within(levels[i], Monday(d));
      WeekEndsWithin(smap, levels[i], d);
    }
  }

  lemma WeekEndsWithin(smap: map<nat, Pattern>, l: Level, d: nat)
    requires MaximalRun(smap, l) && Within(l, Monday(d))
    ensures Within(l, d)
  {
  }

  /** Expanding the rows gives back the week map on every day. */
  lemma ExpansionIsExact(smap: map<nat, Pattern>, levels: seq<Level>, d: nat)
    requires WeekMap(smap) && RowsFor(smap, smap.Values, levels)
    ensures LevelOn(levels, d, |levels|) == At(smap, d)
  {
    CoveredIff(smap, levels, d);
    if i :| 0 <= i < |levels| && Within(levels[i], d) {
      WeekWithin(smap, levels[i], d);
      LevelOnRow(levels, d, |levels|, i);
    } else {
      LevelOnNone(levels, d, |levels|);
    }
  }

  /** Rows run from a Monday to a Sunday, and two rows that meet have different patterns. */
  lemma NeighboursDiffer(smap: map<nat, Pattern>, a: Level, b: Level)
    requires MaximalRun(smap, a) && MaximalRun(smap, b)
    ensures a.start % 7 == 0 && a.end % 7 == 6
    ensures a.end + 1 == b.start ==> a.week != b.week
  {
    assert HasPattern(smap, b.start, b.week);
  }

  /** The rows are exact, cover exactly the weeks with service, and are as few as their patterns allow. */
  ghost predicate Exact(t: Totals, ks: set<string>, levels: seq<Level>) {
    && (forall d: nat :: LevelOn(levels, d, |levels|) == DayTotal(t, ks, d))
    && (forall d: nat :: Covered(levels, d) <==> ServedWeek(t, ks, Monday(d)))
    && Disjoint(levels)
    && (forall i :: 0 <= i < |levels| ==> levels[i].start % 7 == 0 && levels[i].end % 7 == 6)
    && (forall i, j :: 0 <= i < |levels| && 0 <= j < |levels| && levels[i].end + 1 == levels[j].start ==>
          levels[i].week != levels[j].week)
  }

  lemma RowsAreExact(t: Totals, ks: set<string>, smap: map<nat, Pattern>, levels: seq<Level>)
    requires WeekTotals(t, ks, smap) && WeekMap(smap) && RowsFor(smap, smap.Values, levels)
    ensures Exact(t, ks, levels)
  {
    forall d: nat ensures LevelOn(levels, d, |levels|) == DayTotal(t, ks, d) {
      ExpansionIsExact(smap, levels, d);
      assert At(smap, d) == DayTotal(t, ks, d);
    }
    forall d: nat ensures Covered(levels, d) <==> ServedWeek(t, ks, Monday(d)) {
      CoveredIff(smap, levels, d);
    }
    forall i, j | 0 <= i < |levels| && 0 <= j < |levels|
      ensures levels[i].start % 7 == 0 && levels[i].end % 7 == 6
      ensures levels[i].end + 1 == levels[j].start ==> levels[i].week != levels[j].week
    {
      NeighboursDiffer(smap, levels[i], levels[j]);
    }
  }

  /** The rows give on every day the sum of the services active that day, short of the services that are active
      before their period; nothing is short if no service is. */
  lemma RowsSumActiveServices(t: Totals, ks: set<string>, levels: seq<Level>, d: nat)
    requires Exact(t, ks, levels)
    ensures LevelOn(levels, d, |levels|) == Total(t, Running, ks, d) - Total(t, Missed, ks, d)
    ensures AllVisited(t, ks) ==> LevelOn(levels, d, |levels|) == Total(t, Running, ks, d)
  {
    assert LevelOn(levels, d, |levels|) == DayTotal(t, ks, d);
    RunningTotal(t, ks, d);
    if AllVisited(t, ks) { NothingMissed(t, ks, d); }
  }

  /** ServiceLevels, over the builder's three maps. */
  method ServiceLevelRows(services: map<string, Service>, trips: map<string, TripInfo>, freqs: map<string, int>)
    returns (levels: seq<Level>, seconds: map<string, int>)
    ensures SecondsOf(trips, freqs, trips.Keys, seconds)
    ensures Exact(TotalsOf(services, seconds), seconds.Keys, levels)
  {
    seconds := ServiceTotals(trips, freqs);
    var smap := AddServices(services, seconds);
    assert WeekMap(smap);
    levels := CompressWeeks(smap);
    RowsAreExact(TotalsOf(services, seconds), seconds.Keys, smap, levels);
  }
}
