/** What every item of the reader's join says about the two files, row by row. */
module JoinItems {
  import opened Sequences
  import opened TripJoinSpec
  import opened TripJoin
  import opened TripStream
  import opened TripConservation

  /** How many of the first n rows are of a trip_id. */
  function RowCount(rows: seq<StopTime>, id: string, n: nat): nat
    requires n <= |rows|
  {
    if n == 0 then 0 else RowCount(rows, id, n - 1) + if rows[n - 1].tripId == id then 1 else 0
  }

  /** Row `i` is `t`, and the first of its trip_id. */
  predicate FirstRowAt(trips: seq<Trip>, t: Trip, i: nat) {
    i < |trips| && trips[i] == t && forall k :: 0 <= k < i ==> trips[k].tripId != t.tripId
  }

  /** Row `j` is `t`, and an earlier one has its trip_id. */
  predicate RepeatedRowAt(trips: seq<Trip>, t: Trip, j: nat) {
    j < |trips| && trips[j] == t && exists i :: 0 <= i < j && trips[i].tripId == t.tripId
  }

  /** The trip has more stop_times than are kept. */
  predicate ExceedsCap(cfg: Config, feed: Feed, id: string) {
    RowCount(feed.stopTimes, id, |feed.stopTimes|) > cfg.chunkSize
  }

  /** An item with stop_times is the first row of its trip, or, without a limit error, an orphan, which no trips row
      belongs to; one without is a row of a trip that has none, or a repeated row. */
  ghost predicate Tells(cfg: Config, feed: Feed, item: TripStopTimes) {
    && SortedBySequence(item.stopTimes)
    && (item.limitError <==> item.valid && item.stopTimes != [] && ExceedsCap(cfg, feed, item.trip.tripId))
    && (!item.valid ==>
          item.stopTimes != [] && forall t, st :: t in feed.trips && st in item.stopTimes ==> t.tripId != st.tripId)
    && (item.valid && item.stopTimes != [] ==> exists i: nat :: FirstRowAt(feed.trips, item.trip, i))
    && (item.valid && item.stopTimes == [] ==>
          && item.trip in feed.trips
          && (RowCount(feed.stopTimes, item.trip.tripId, |feed.stopTimes|) == 0 ||
              exists j: nat :: RepeatedRowAt(feed.trips, item.trip, j)))
  }

  lemma {:induction false} StopRowsNumber(rows: seq<StopTime>, id: string, n: nat)
    requires n <= |rows|
    ensures |StopRows(rows, id, n)| == RowCount(rows, id, n)
  {
    if n > 0 { StopRowsNumber(rows, id, n - 1); }
  }

  lemma {:induction false} NoTripRows(trips: seq<Trip>, id: string, n: nat)
    requires n <= |trips|
    ensures TripRows(trips, id, n) == [] <==> forall i :: 0 <= i < n ==> trips[i].tripId != id
  {
    if n > 0 { NoTripRows(trips, id, n - 1); }
  }

  /** The first of a trip's rows, and each of the others, stand in the file as such. */
  lemma {:induction false} TripRowAt(trips: seq<Trip>, id: string, n: nat, k: nat) returns (i: nat)
    requires n <= |trips| && k < |TripRows(trips, id, n)|
    ensures i < n && trips[i] == TripRows(trips, id, n)[k] && trips[i].tripId == id
    ensures if k == 0 then FirstRowAt(trips, trips[i], i) else RepeatedRowAt(trips, trips[i], i)
  {
    var before := TripRows(trips, id, n - 1);
    if k < |before| {
      i := TripRowAt(trips, id, n - 1, k);
    } else {
      i := n - 1;
      NoTripRows(trips, id, n - 1);
    }
  }

  lemma {:induction false} BareItem(rows: seq<Trip>, a: nat, n: nat, item: TripStopTimes) returns (k: nat)
    requires n <= |rows| && item in Bare(rows, a, n)
    ensures a <= k < n && item == TripStopTimes(true, rows[k], [], false)
  {
    if item in Bare(rows, a, n - 1) { k := BareItem(rows, a, n - 1, item); } else { k := n - 1; }
  }

  lemma SortedNonEmpty(cfg: Config, sts: seq<StopTime>)
    requires Sorts(cfg.sort) && sts != []
    ensures cfg.sort(sts) != []
  {
    assert multiset(cfg.sort(sts))[sts[0]] == multiset(sts)[sts[0]] > 0;
  }

  /** The part of a trip_id that has stop_times. */
  lemma PartTells(cfg: Config, feed: Feed, id: string, item: TripStopTimes)
    requires Sorts(cfg.sort) && cfg.chunkSize >= 1 && HasId(feed.stopTimes, id, |feed.stopTimes|)
    requires item in JoinOne(cfg, feed, id)
    ensures Tells(cfg, feed, item)
  {
    var rows := TripRows(feed.trips, id, |feed.trips|);
    var sts := CappedRows(feed.stopTimes, id, |feed.stopTimes|, cfg.chunkSize);
    NoStopRows(feed.stopTimes, id, |feed.stopTimes|);
    CappedIsPrefix(feed.stopTimes, id, |feed.stopTimes|, cfg.chunkSize);
    StopRowsNumber(feed.stopTimes, id, |feed.stopTimes|);
    SortedNonEmpty(cfg, sts);
    if rows == [] {
      OrphanTells(cfg, feed, id, sts);
    } else if item == JoinOne(cfg, feed, id)[0] {
      var i := TripRowAt(feed.trips, id, |feed.trips|, 0);
    } else {
      var k := BareItem(rows, 1, |rows|, item);
      var j := TripRowAt(feed.trips, id, |feed.trips|, k);
    }
  }

  lemma OrphanTells(cfg: Config, feed: Feed, id: string, sts: seq<StopTime>)
    requires Sorts(cfg.sort) && sts != [] && TripRows(feed.trips, id, |feed.trips|) == []
    requires sts == CappedRows(feed.stopTimes, id, |feed.stopTimes|, cfg.chunkSize)
    ensures Tells(cfg, feed, TripStopTimes(false, ZERO_TRIP, cfg.sort(sts), false))
  {
    SortedNonEmpty(cfg, sts);
    SortedMembers(cfg, sts);
    CappedOfId(feed.stopTimes, id, |feed.stopTimes|, cfg.chunkSize);
    NoTripRows(feed.trips, id, |feed.trips|);
  }

  lemma {:induction false} PartOf(cfg: Config, feed: Feed, order: seq<string>, n: nat, item: TripStopTimes)
    returns (k: nat)
    requires n <= |order| && item in JoinAll(cfg, feed, order, n)
    ensures k < n && item in JoinOne(cfg, feed, order[k])
  {
    if item in JoinAll(cfg, feed, order, n - 1) { k := PartOf(cfg, feed, order, n - 1, item); } else { k := n - 1; }
  }

  lemma {:induction false} LeftoverRow(trips: seq<Trip>, ids: seq<string>, seen: set<string>, n: nat, t: Trip)
    requires n <= |trips| && t in Leftover(trips, ids, seen, n)
    ensures t in trips && Keep(ids, t.tripId) && t.tripId !in seen
  {
    if t in Leftover(trips, ids, seen, n - 1) {
      LeftoverRow(trips, ids, seen, n - 1, t);
    } else {
      assert t == trips[n - 1];
    }
  }

  lemma TailTells(cfg: Config, feed: Feed, ids: seq<string>, item: TripStopTimes)
    requires item in Tail(feed, ids)
    ensures Tells(cfg, feed, item)
  {
    var order := OrderOf(feed, ids);
    var left := Leftover(feed.trips, ids, IdSet(order), |feed.trips|);
    var k := BareItem(left, 0, |left|, item);
    assert left[k] in left;
    LeftoverRow(feed.trips, ids, IdSet(order), |feed.trips|, left[k]);
    FirstSeenIds(feed.stopTimes, ids, |feed.stopTimes|);
    NoStopRows(feed.stopTimes, left[k].tripId, |feed.stopTimes|);
    StopRowsNumber(feed.stopTimes, left[k].tripId, |feed.stopTimes|);
  }

  /** Every item of the join, with its limit error: a trip carries one exactly if the file holds more rows of it than
      are kept. */
  lemma JoinTells(cfg: Config, feed: Feed, ids: seq<string>, item: TripStopTimes)
    requires Sorts(cfg.sort) && cfg.chunkSize >= 1 && item in Join(cfg, feed, ids)
    ensures Tells(cfg, feed, item)
  {
    var order := OrderOf(feed, ids);
    FirstSeenIds(feed.stopTimes, ids, |feed.stopTimes|);
    if item in Tail(feed, ids) {
      TailTells(cfg, feed, ids, item);
    } else {
      var k := PartOf(cfg, feed, order, |order|, item);
      PartTells(cfg, feed, order[k], item);
    }
  }

  /** And so every item the entry point sends, on either path, on every file on which it keeps its promise. */
  lemma RunTells(cfg: Config, feed: Feed, ids: seq<string>)
    requires Sorts(cfg.sort) && cfg.chunkSize >= 1
    requires !KeptEmptyId(feed.stopTimes, ids, |feed.stopTimes|) || !ScanGrouped(feed.stopTimes, ids)
    ensures Run(cfg, feed, ids).Sent? && forall item :: item in Run(cfg, feed, ids).out ==> Tells(cfg, feed, item)
  {
    RunIsJoin(cfg, feed, ids);
    forall item | item in Join(cfg, feed, ids) ensures Tells(cfg, feed, item) { JoinTells(cfg, feed, ids, item); }
  }
}
