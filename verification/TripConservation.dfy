/** Nothing is lost or sent twice by the join.

    Everything is counted row by row: how often a given trips.txt or stop_times.txt row is in the output
    against how often it is in the file. */
module TripConservation {
  import opened Sequences
  import opened TripJoinSpec
  import opened TripStream

  // ---- What an output contains ----

  /** How often row `t` is sent as a valid trip among the first n items. */
  function TripSent(out: seq<TripStopTimes>, t: Trip, n: nat): nat
    requires n <= |out|
  {
    if n == 0 then 0 else
    TripSent(out, t, n - 1) + if out[n - 1].valid && out[n - 1].trip == t then 1 else 0
  }

  /** How often `st` is among the first n rows. */
  function StopTimeCount(rows: seq<StopTime>, st: StopTime, n: nat): nat
    requires n <= |rows|
  {
    if n == 0 then 0 else StopTimeCount(rows, st, n - 1) + if rows[n - 1] == st then 1 else 0
  }

  /** How often row `st` is sent with the first n items. */
  function StopTimeSent(out: seq<TripStopTimes>, st: StopTime, n: nat): nat
    requires n <= |out|
  {
    if n == 0 then 0 else
    StopTimeSent(out, st, n - 1) + StopTimeCount(out[n - 1].stopTimes, st, |out[n - 1].stopTimes|)
  }

  /** How often row `t` is among the rows from index `a` up to `n`. */
  function TripCount(rows: seq<Trip>, t: Trip, a: nat, n: nat): nat
    requires n <= |rows|
  {
    if n <= a then 0 else TripCount(rows, t, a, n - 1) + if rows[n - 1] == t then 1 else 0
  }

  lemma {:induction false} TripSentConcat(a: seq<TripStopTimes>, b: seq<TripStopTimes>, t: Trip, k: nat)
    requires k <= |b|
    ensures TripSent(a + b, t, |a| + k) == TripSent(a, t, |a|) + TripSent(b, t, k)
  {
    if k == 0 { TripSentExtend(a, b, t, |a|); } else { TripSentConcat(a, b, t, k - 1); }
  }

  lemma {:induction false} TripSentExtend(a: seq<TripStopTimes>, b: seq<TripStopTimes>, t: Trip, k: nat)
    requires k <= |a|
    ensures TripSent(a + b, t, k) == TripSent(a, t, k)
  {
    if k > 0 { TripSentExtend(a, b, t, k - 1); }
  }

  lemma {:induction false} StopTimeSentConcat(a: seq<TripStopTimes>, b: seq<TripStopTimes>, st: StopTime, k: nat)
    requires k <= |b|
    ensures StopTimeSent(a + b, st, |a| + k) == StopTimeSent(a, st, |a|) + StopTimeSent(b, st, k)
  {
    if k == 0 { StopTimeSentExtend(a, b, st, |a|); } else { StopTimeSentConcat(a, b, st, k - 1); }
  }

  lemma {:induction false} StopTimeSentExtend(a: seq<TripStopTimes>, b: seq<TripStopTimes>, st: StopTime, k: nat)
    requires k <= |a|
    ensures StopTimeSent(a + b, st, k) == StopTimeSent(a, st, k)
  {
    if k > 0 { StopTimeSentExtend(a, b, st, k - 1); }
  }

  lemma {:induction false} SentBare(rows: seq<Trip>, a: nat, n: nat, k: nat, t: Trip, st: StopTime)
    requires a <= n <= |rows| && k <= |Bare(rows, a, n)|
    ensures |Bare(rows, a, n)| == n - a
    ensures TripSent(Bare(rows, a, n), t, k) == TripCount(rows, t, a, a + k)
    ensures StopTimeSent(Bare(rows, a, n), st, k) == 0
  {
    BareItems(rows, a, n);
    if k > 0 {
      SentBare(rows, a, n, k - 1, t, st);
      assert Bare(rows, a, n)[(a + k - 1) - a] == TripStopTimes(true, rows[a + k - 1], [], false);
    }
  }

  lemma {:induction false} TripCountHead(rows: seq<Trip>, t: Trip, n: nat)
    requires 0 < n <= |rows|
    ensures TripCount(rows, t, 0, n) == TripCount(rows, t, 1, n) + if rows[0] == t then 1 else 0
  {
    if n > 1 { TripCountHead(rows, t, n - 1); }
  }

  lemma TripSentJoined(cfg: Config, rows: seq<Trip>, sts: seq<StopTime>, capped: bool, t: Trip)
    ensures var out := JoinedTrip(cfg, rows, sts, capped); TripSent(out, t, |out|) == TripCount(rows, t, 0, |rows|)
  {
    if rows != [] {
      var head, dups := TripStopTimes(true, rows[0], cfg.sort(sts), capped), Bare(rows, 1, |rows|);
      BareItems(rows, 1, |rows|);
      SentBare(rows, 1, |rows|, |dups|, t, StopTime("", 0, 0));
      TripSentConcat([head], dups, t, |dups|);
      TripCountHead(rows, t, |rows|);
    }
  }

  lemma {:induction false} CountIsMultiplicity(sts: seq<StopTime>, st: StopTime, n: nat)
    requires n <= |sts|
    ensures StopTimeCount(sts, st, n) == multiset(sts[..n])[st]
  {
    if n > 0 {
      CountIsMultiplicity(sts, st, n - 1);
      assert sts[..n] == sts[..n - 1] + [sts[n - 1]];
    }
  }

  lemma SortCount(cfg: Config, sts: seq<StopTime>, st: StopTime)
    requires Sorts(cfg.sort)
    ensures var sorted := cfg.sort(sts); StopTimeCount(sorted, st, |sorted|) == StopTimeCount(sts, st, |sts|)
  {
    var sorted := cfg.sort(sts);
    assert sorted[..|sorted|] == sorted && sts[..|sts|] == sts;
    CountIsMultiplicity(sorted, st, |sorted|);
    CountIsMultiplicity(sts, st, |sts|);
  }

  lemma StopTimeSentJoined(cfg: Config, rows: seq<Trip>, sts: seq<StopTime>, capped: bool, st: StopTime)
    requires Sorts(cfg.sort)
    ensures var out := JoinedTrip(cfg, rows, sts, capped); StopTimeSent(out, st, |out|) == StopTimeCount(sts, st, |sts|)
  {
    SortCount(cfg, sts, st);
    if rows != [] {
      var head, dups := TripStopTimes(true, rows[0], cfg.sort(sts), capped), Bare(rows, 1, |rows|);
      BareItems(rows, 1, |rows|);
      SentBare(rows, 1, |rows|, |dups|, ZERO_TRIP, st);
      StopTimeSentConcat([head], dups, st, |dups|);
    }
  }

  // ---- Partitioning the two files by trip_id ----

  lemma {:induction false} TripRowsCount(trips: seq<Trip>, id: string, t: Trip, n: nat)
    requires n <= |trips|
    ensures var rows := TripRows(trips, id, n);
      TripCount(rows, t, 0, |rows|) == if t.tripId == id then TripCount(trips, t, 0, n) else 0
  {
    if n > 0 {
      TripRowsCount(trips, id, t, n - 1);
      var before := TripRows(trips, id, n - 1);
      TripCountExtend(before, trips[n - 1], t, |before|);
    }
  }

  lemma {:induction false} TripCountExtend(rows: seq<Trip>, r: Trip, t: Trip, k: nat)
    requires k <= |rows|
    ensures TripCount(rows + [r], t, 0, k) == TripCount(rows, t, 0, k)
  {
    if k > 0 { TripCountExtend(rows, r, t, k - 1); }
  }

  lemma {:induction false} LeftoverCount(trips: seq<Trip>, ids: seq<string>, seen: set<string>, t: Trip, n: nat)
    requires n <= |trips|
    ensures var left := Leftover(trips, ids, seen, n);
      TripCount(left, t, 0, |left|) ==
      if Keep(ids, t.tripId) && t.tripId !in seen then TripCount(trips, t, 0, n) else 0
  {
    if n > 0 {
      LeftoverCount(trips, ids, seen, t, n - 1);
      var before := Leftover(trips, ids, seen, n - 1);
      TripCountExtend(before, trips[n - 1], t, |before|);
    }
  }

  lemma {:induction false} StopRowsCount(rows: seq<StopTime>, id: string, st: StopTime, n: nat)
    requires n <= |rows|
    ensures var own := StopRows(rows, id, n);
      StopTimeCount(own, st, |own|) == if st.tripId == id then StopTimeCount(rows, st, n) else 0
  {
    if n > 0 {
      StopRowsCount(rows, id, st, n - 1);
      var before := StopRows(rows, id, n - 1);
      StopTimeCountExtend(before, rows[n - 1], st, |before|);
    }
  }

  lemma {:induction false} StopTimeCountExtend(rows: seq<StopTime>, r: StopTime, st: StopTime, k: nat)
    requires k <= |rows|
    ensures StopTimeCount(rows + [r], st, k) == StopTimeCount(rows, st, k)
  {
    if k > 0 { StopTimeCountExtend(rows, r, st, k - 1); }
  }

  // ---- The join conserves both files ----

  /** No trip_id has more rows than the cap. */
  ghost predicate Uncapped(cfg: Config, rows: seq<StopTime>) {
    forall id :: |StopRows(rows, id, |rows|)| <= cfg.chunkSize
  }

  ghost predicate Among(order: seq<string>, id: string, k: nat)
    requires k <= |order|
  {
    exists i :: 0 <= i < k && order[i] == id
  }

  /** `c` for every entry of the order that is `id`. */
  function Each(order: seq<string>, id: string, k: nat, c: nat): nat
    requires k <= |order|
  {
    if k == 0 then 0 else Each(order, id, k - 1, c) + if order[k - 1] == id then c else 0
  }

  lemma {:induction false} EachOnce(order: seq<string>, id: string, k: nat, c: nat)
    requires k <= |order| && Distinct(order)
    ensures Each(order, id, k, c) == if Among(order, id, k) then c else 0
  {
    if k > 0 { EachOnce(order, id, k - 1, c); }
  }

  lemma TripSentOne(cfg: Config, feed: Feed, id: string, t: Trip)
    ensures var out := JoinOne(cfg, feed, id);
      TripSent(out, t, |out|) == if t.tripId == id then TripCount(feed.trips, t, 0, |feed.trips|) else 0
  {
    TripSentJoined(cfg, TripRows(feed.trips, id, |feed.trips|),
                   CappedRows(feed.stopTimes, id, |feed.stopTimes|, cfg.chunkSize),
                   |StopRows(feed.stopTimes, id, |feed.stopTimes|)| > cfg.chunkSize, t);
    TripRowsCount(feed.trips, id, t, |feed.trips|);
  }

  lemma {:induction false} TripsByOrder(cfg: Config, feed: Feed, order: seq<string>, k: nat, t: Trip)
    requires k <= |order|
    ensures var out := JoinAll(cfg, feed, order, k);
      TripSent(out, t, |out|) == Each(order, t.tripId, k, TripCount(feed.trips, t, 0, |feed.trips|))
  {
    if k > 0 {
      TripsByOrder(cfg, feed, order, k - 1, t);
      TripSentOne(cfg, feed, order[k - 1], t);
      var before, part := JoinAll(cfg, feed, order, k - 1), JoinOne(cfg, feed, order[k - 1]);
      TripSentConcat(before, part, t, |part|);
    }
  }

  /** How often the rows that are kept of its trip hold `st`. */
  function HeldCount(cfg: Config, rows: seq<StopTime>, st: StopTime): nat {
    var kept := CappedRows(rows, st.tripId, |rows|, cfg.chunkSize); StopTimeCount(kept, st, |kept|)
  }

  lemma {:induction false} CountPrefix(a: seq<StopTime>, b: seq<StopTime>, st: StopTime, n: nat)
    requires n <= |a| && a <= b
    ensures StopTimeCount(a, st, n) == StopTimeCount(b, st, n)
  {
    if n > 0 { CountPrefix(a, b, st, n - 1); }
  }

  lemma {:induction false} CountGrows(rows: seq<StopTime>, st: StopTime, m: nat, n: nat)
    requires m <= n <= |rows|
    ensures StopTimeCount(rows, st, m) <= StopTimeCount(rows, st, n)
  {
    if m < n { CountGrows(rows, st, m, n - 1); }
  }

  /** Of the rows kept of a trip none is another trip's. */
  lemma KeptRowsCount(rows: seq<StopTime>, id: string, cap: nat, st: StopTime)
    ensures var kept, all := CappedRows(rows, id, |rows|, cap), StopRows(rows, id, |rows|);
      && |kept| <= |all| && StopTimeCount(kept, st, |kept|) == StopTimeCount(all, st, |kept|)
      && (st.tripId != id ==> StopTimeCount(kept, st, |kept|) == 0)
  {
    var kept, all := CappedRows(rows, id, |rows|, cap), StopRows(rows, id, |rows|);
    CappedIsPrefix(rows, id, |rows|, cap);
    CountPrefix(kept, all, st, |kept|);
    CountGrows(all, st, |kept|, |all|);
    StopRowsCount(rows, id, st, |rows|);
  }

  /** The part of a trip_id holds `st` as often as the rows kept of that id do. */
  lemma PartSends(cfg: Config, feed: Feed, id: string, st: StopTime)
    requires Sorts(cfg.sort)
    ensures StopTimeSent(JoinOne(cfg, feed, id), st, |JoinOne(cfg, feed, id)|) ==
      if st.tripId == id then HeldCount(cfg, feed.stopTimes, st) else 0
  {
    var kept := CappedRows(feed.stopTimes, id, |feed.stopTimes|, cfg.chunkSize);
    KeptRowsCount(feed.stopTimes, id, cfg.chunkSize, st);
    StopTimeSentJoined(cfg, TripRows(feed.trips, id, |feed.trips|), kept,
                       |StopRows(feed.stopTimes, id, |feed.stopTimes|)| > cfg.chunkSize, st);
  }

  /** Every trip_id's part of the output sends `st` so often if it is that trip's, and else never. */
  ghost predicate PartsSend(cfg: Config, feed: Feed, st: StopTime, held: nat) {
    forall id {:trigger JoinOne(cfg, feed, id)} ::
      StopTimeSent(JoinOne(cfg, feed, id), st, |JoinOne(cfg, feed, id)|) == if st.tripId == id then held else 0
  }

  lemma AllPartsSend(cfg: Config, feed: Feed, st: StopTime)
    requires Sorts(cfg.sort)
    ensures PartsSend(cfg, feed, st, HeldCount(cfg, feed.stopTimes, st))
  {
    var held := HeldCount(cfg, feed.stopTimes, st);
    forall id ensures StopTimeSent(JoinOne(cfg, feed, id), st, |JoinOne(cfg, feed, id)|) ==
      if st.tripId == id then held else 0
    {
      PartSends(cfg, feed, id, st);
    }
  }

  lemma SentInBoth(a: seq<TripStopTimes>, b: seq<TripStopTimes>, st: StopTime)
    ensures StopTimeSent(a + b, st, |a + b|) == StopTimeSent(a, st, |a|) + StopTimeSent(b, st, |b|)
  {
    StopTimeSentConcat(a, b, st, |b|);
  }

  lemma {:induction false} StopTimesByOrder(cfg: Config, feed: Feed, order: seq<string>, k: nat, st: StopTime,
                                            held: nat)
    requires k <= |order| && PartsSend(cfg, feed, st, held)
    ensures var out := JoinAll(cfg, feed, order, k); StopTimeSent(out, st, |out|) == Each(order, st.tripId, k, held)
  {
    if k > 0 {
      StopTimesByOrder(cfg, feed, order, k - 1, st, held);
      SentInBoth(JoinAll(cfg, feed, order, k - 1), JoinOne(cfg, feed, order[k - 1]), st);
    }
  }

  lemma {:induction false} StopTimeCountIn(rows: seq<StopTime>, st: StopTime, n: nat)
    requires n <= |rows|
    ensures StopTimeCount(rows, st, n) > 0 ==> HasId(rows, st.tripId, n)
  {
    if n > 0 { StopTimeCountIn(rows, st, n - 1); }
  }

  lemma AmongOrder(feed: Feed, ids: seq<string>, id: string)
    ensures Distinct(OrderOf(feed, ids))
    ensures var order := OrderOf(feed, ids);
      && (id in IdSet(order) <==> Among(order, id, |order|))
      && (Among(order, id, |order|) <==> Keep(ids, id) && HasId(feed.stopTimes, id, |feed.stopTimes|))
  {
    FirstSeenIds(feed.stopTimes, ids, |feed.stopTimes|);
    assert id in OrderOf(feed, ids) <==> Among(OrderOf(feed, ids), id, |OrderOf(feed, ids)|);
  }

  lemma EachOfOrder(cfg: Config, feed: Feed, ids: seq<string>, st: StopTime)
    ensures var order, held := OrderOf(feed, ids), HeldCount(cfg, feed.stopTimes, st);
      Each(order, st.tripId, |order|, held) == if Keep(ids, st.tripId) then held else 0
  {
    AmongOrder(feed, ids, st.tripId);
    CappedIsPrefix(feed.stopTimes, st.tripId, |feed.stopTimes|, cfg.chunkSize);
    NoStopRows(feed.stopTimes, st.tripId, |feed.stopTimes|);
    EachOnce(OrderOf(feed, ids), st.tripId, |OrderOf(feed, ids)|, HeldCount(cfg, feed.stopTimes, st));
  }

  lemma SentTail(feed: Feed, ids: seq<string>, t: Trip, st: StopTime)
    ensures var tail := Tail(feed, ids);
      && StopTimeSent(tail, st, |tail|) == 0
      && TripSent(tail, t, |tail|) ==
         if Keep(ids, t.tripId) && t.tripId !in IdSet(OrderOf(feed, ids))
         then TripCount(feed.trips, t, 0, |feed.trips|) else 0
  {
    var seen := IdSet(OrderOf(feed, ids));
    var left := Leftover(feed.trips, ids, seen, |feed.trips|);
    BareItems(left, 0, |left|);
    SentBare(left, 0, |left|, |left|, t, st);
    LeftoverCount(feed.trips, ids, seen, t, |feed.trips|);
  }

  /** Every kept trips.txt row is sent as a valid trip exactly as often as the file holds it, and no other
      row is; `cfg` may cap, and trips may be duplicated or without stop_times. */
  lemma JoinSendsEachTripOnce(cfg: Config, feed: Feed, ids: seq<string>, t: Trip)
    ensures var out := Join(cfg, feed, ids);
      TripSent(out, t, |out|) == if Keep(ids, t.tripId) then TripCount(feed.trips, t, 0, |feed.trips|) else 0
  {
    var order := OrderOf(feed, ids);
    AmongOrder(feed, ids, t.tripId);
    TripsByOrder(cfg, feed, order, |order|, t);
    EachOnce(order, t.tripId, |order|, TripCount(feed.trips, t, 0, |feed.trips|));
    SentTail(feed, ids, t, StopTime("", 0, 0));
    TripSentConcat(JoinAll(cfg, feed, order, |order|), Tail(feed, ids), t, |Tail(feed, ids)|);
  }

  /** Every kept stop_times.txt row, orphans included, is sent exactly as often as the rows kept of its trip hold it. */
  lemma JoinSendsKeptStopTimes(cfg: Config, feed: Feed, ids: seq<string>, st: StopTime)
    requires Sorts(cfg.sort)
    ensures var out := Join(cfg, feed, ids);
      StopTimeSent(out, st, |out|) == if Keep(ids, st.tripId) then HeldCount(cfg, feed.stopTimes, st) else 0
  {
    var order := OrderOf(feed, ids);
    AllPartsSend(cfg, feed, st);
    StopTimesByOrder(cfg, feed, order, |order|, st, HeldCount(cfg, feed.stopTimes, st));
    EachOfOrder(cfg, feed, ids, st);
    SentTail(feed, ids, ZERO_TRIP, st);
    StopTimeSentConcat(JoinAll(cfg, feed, order, |order|), Tail(feed, ids), st, |Tail(feed, ids)|);
  }

  ghost predicate SendsEachStopTime(cfg: Config, feed: Feed, ids: seq<string>) {
    var out := Join(cfg, feed, ids);
    forall st :: StopTimeSent(out, st, |out|) ==
      if Keep(ids, st.tripId) then StopTimeCount(feed.stopTimes, st, |feed.stopTimes|) else 0
  }

  lemma HeldIfUncapped(cfg: Config, rows: seq<StopTime>, st: StopTime)
    requires |StopRows(rows, st.tripId, |rows|)| <= cfg.chunkSize
    ensures HeldCount(cfg, rows, st) == StopTimeCount(rows, st, |rows|)
  {
    CappedIsPrefix(rows, st.tripId, |rows|, cfg.chunkSize);
    assert CappedRows(rows, st.tripId, |rows|, cfg.chunkSize) == StopRows(rows, st.tripId, |rows|);
    StopRowsCount(rows, st.tripId, st, |rows|);
  }

  /** The first row beyond the cap is held too few times. */
  lemma NotHeldIfCapped(cfg: Config, rows: seq<StopTime>, id: string)
    requires |StopRows(rows, id, |rows|)| > cfg.chunkSize
    ensures var st := StopRows(rows, id, |rows|)[cfg.chunkSize];
      st.tripId == id && HeldCount(cfg, rows, st) < StopTimeCount(rows, st, |rows|)
  {
    var all := StopRows(rows, id, |rows|);
    var st := all[cfg.chunkSize];
    CappedIsPrefix(rows, id, |rows|, cfg.chunkSize);
    CountGrows(all, st, cfg.chunkSize + 1, |all|);
    StopRowsCount(rows, id, st, |rows|);
    KeptRowsCount(rows, id, cfg.chunkSize, st);
  }

  /** Every kept row is sent as often as the file holds it, exactly if no kept trip_id has more rows than the cap. */
  lemma JoinSendsEachStopTimeIff(cfg: Config, feed: Feed, ids: seq<string>)
    requires Sorts(cfg.sort)
    ensures SendsEachStopTime(cfg, feed, ids) <==>
      forall id :: Keep(ids, id) ==> |StopRows(feed.stopTimes, id, |feed.stopTimes|)| <= cfg.chunkSize
  {
    var rows := feed.stopTimes;
    if id :| Keep(ids, id) && |StopRows(rows, id, |rows|)| > cfg.chunkSize {
      NotHeldIfCapped(cfg, rows, id);
      JoinSendsKeptStopTimes(cfg, feed, ids, StopRows(rows, id, |rows|)[cfg.chunkSize]);
    } else {
      var out := Join(cfg, feed, ids);
      forall st ensures StopTimeSent(out, st, |out|) ==
        if Keep(ids, st.tripId) then StopTimeCount(rows, st, |rows|) else 0
      {
        JoinSendsKeptStopTimes(cfg, feed, ids, st);
        if Keep(ids, st.tripId) { HeldIfUncapped(cfg, rows, st); }
      }
    }
  }

  // ---- Joined trips are kept apart ----

  predicate Timed(item: TripStopTimes) {
    item.valid && item.stopTimes != []
  }

  /** A trip sent with stop_times has only its own, and no other item has one of its trip_id. */
  ghost predicate KeepsApart(out: seq<TripStopTimes>) {
    && (forall i, st :: 0 <= i < |out| && Timed(out[i]) && st in out[i].stopTimes ==> st.tripId == out[i].trip.tripId)
    && forall i, j, st :: 0 <= i < |out| && 0 <= j < |out| && i != j && Timed(out[i]) && st in out[j].stopTimes ==>
      st.tripId != out[i].trip.tripId
  }

  /** The item has stop_times of this trip_id only, and then it is the trip of that id or an orphan. */
  predicate OfId(item: TripStopTimes, id: string) {
    && (forall st :: st in item.stopTimes ==> st.tripId == id)
    && (Timed(item) ==> item.trip.tripId == id)
  }

  /** All stop_times of a trip_id are in the first item of its part. */
  ghost predicate HeadOnly(part: seq<TripStopTimes>, id: string) {
    forall i :: 0 <= i < |part| ==> OfId(part[i], id) && (i > 0 ==> part[i].stopTimes == [])
  }

  lemma {:induction false} CappedOfId(rows: seq<StopTime>, id: string, n: nat, cap: nat)
    requires n <= |rows|
    ensures forall st :: st in CappedRows(rows, id, n, cap) ==> st.tripId == id
  {
    if n > 0 { CappedOfId(rows, id, n - 1, cap); }
  }

  lemma SortedMembers(cfg: Config, sts: seq<StopTime>)
    requires Sorts(cfg.sort)
    ensures forall st :: st in cfg.sort(sts) ==> st in sts
  {
    assert multiset(cfg.sort(sts)) == multiset(sts);
    forall st | st in cfg.sort(sts) ensures st in sts { assert st in multiset(cfg.sort(sts)); }
  }

  lemma JoinOneHead(cfg: Config, feed: Feed, id: string)
    requires Sorts(cfg.sort)
    ensures HeadOnly(JoinOne(cfg, feed, id), id)
  {
    var rows := TripRows(feed.trips, id, |feed.trips|);
    var sts := CappedRows(feed.stopTimes, id, |feed.stopTimes|, cfg.chunkSize);
    TripRowsIds(feed.trips, id, |feed.trips|);
    CappedOfId(feed.stopTimes, id, |feed.stopTimes|, cfg.chunkSize);
    SortedMembers(cfg, sts);
    BareIsBare(rows, 1, |rows|);
    var part := JoinOne(cfg, feed, id);
    forall i | 0 < i < |part| ensures part[i].stopTimes == [] {
      assert part[i] == Bare(rows, 1, |rows|)[i - 1];
    }
  }

  lemma {:induction false} BareIsBare(rows: seq<Trip>, a: nat, n: nat)
    requires n <= |rows|
    ensures forall item :: item in Bare(rows, a, n) ==> item.stopTimes == []
  {
    if n > a { BareIsBare(rows, a, n - 1); }
  }

  /** Every item is of one of the first k ids, and those with stop_times of different ones. */
  ghost predicate ByIds(out: seq<TripStopTimes>, order: seq<string>, k: nat, at: seq<nat>) {
    && |at| == |out| && (forall i :: 0 <= i < |out| ==> at[i] < k <= |order| && OfId(out[i], order[at[i]]))
    && forall i, j :: 0 <= i < j < |out| && out[i].stopTimes != [] && out[j].stopTimes != [] ==> at[i] < at[j]
  }

  lemma ByIdsNext(out: seq<TripStopTimes>, part: seq<TripStopTimes>, order: seq<string>, k: nat, at: seq<nat>)
    returns (next: seq<nat>)
    requires k < |order| && ByIds(out, order, k, at) && HeadOnly(part, order[k])
    ensures ByIds(out + part, order, k + 1, next)
  {
    next := at + seq(|part|, i requires 0 <= i < |part| => k);
  }

  lemma {:induction false} JoinedByIds(cfg: Config, feed: Feed, order: seq<string>, k: nat) returns (at: seq<nat>)
    requires k <= |order| && Sorts(cfg.sort)
    ensures ByIds(JoinAll(cfg, feed, order, k), order, k, at)
  {
    if k == 0 {
      at := [];
    } else {
      at := JoinedByIds(cfg, feed, order, k - 1);
      JoinOneHead(cfg, feed, order[k - 1]);
      at := ByIdsNext(JoinAll(cfg, feed, order, k - 1), JoinOne(cfg, feed, order[k - 1]), order, k - 1, at);
    }
  }

  lemma ByIdsApart(out: seq<TripStopTimes>, order: seq<string>, k: nat, at: seq<nat>)
    requires ByIds(out, order, k, at) && Distinct(order)
    ensures KeepsApart(out)
  {
    forall i, j, st | 0 <= i < |out| && 0 <= j < |out| && i != j && Timed(out[i]) && st in out[j].stopTimes
      ensures st.tripId != out[i].trip.tripId
    {
      assert at[i] != at[j];
    }
  }

  lemma ApartWithBare(out: seq<TripStopTimes>, bare: seq<TripStopTimes>)
    requires KeepsApart(out) && forall item :: item in bare ==> item.stopTimes == []
    ensures KeepsApart(out + bare)
  {
    forall i | |out| <= i < |out + bare| ensures (out + bare)[i].stopTimes == [] {
      assert (out + bare)[i] in bare;
    }
  }

  /** The join keeps trips apart, whatever ids the files repeat. */
  lemma JoinKeepsTripsApart(cfg: Config, feed: Feed, ids: seq<string>)
    requires Sorts(cfg.sort)
    ensures KeepsApart(Join(cfg, feed, ids))
  {
    var order := OrderOf(feed, ids);
    FirstSeenIds(feed.stopTimes, ids, |feed.stopTimes|);
    var at := JoinedByIds(cfg, feed, order, |order|);
    ByIdsApart(JoinAll(cfg, feed, order, |order|), order, |order|, at);
    var left := Leftover(feed.trips, ids, IdSet(order), |feed.trips|);
    BareIsBare(left, 0, |left|);
    ApartWithBare(JoinAll(cfg, feed, order, |order|), Tail(feed, ids));
  }
}
