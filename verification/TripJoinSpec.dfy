/** The trip / stop_time join of tlcsv/reader.go as one simple function of the two files.

    A file is the sequence of its rows, and most functions speak of its first `n` rows. `Join` reads off,
    for every trip_id in the order in which stop_times.txt first mentions it, the rows the two files hold
    for that id. The scanning, streaming and chunking code is in `TripJoin` and `TripStream`; this module
    knows nothing of passes, cursors or chunks. */
module TripJoinSpec {
  import opened Sequences

  /** `data` stands for every column other than trip_id and stop_sequence. */
  datatype StopTime = StopTime(tripId: string, sequence: int, data: int)

  datatype Trip = Trip(tripId: string, data: int)

  datatype Feed = Feed(trips: seq<Trip>, stopTimes: seq<StopTime>)

  /** One item of the output channel. `limitError` says that the trip carries an EntityLimitError. */
  datatype TripStopTimes = TripStopTimes(valid: bool, trip: Trip, stopTimes: seq<StopTime>, limitError: bool)

  /** `chunkSize`, and sort.Slice by stop_sequence. The library sort is deterministic but not stable,
      so it is any fixed function, and the results below hold for every one. */
  datatype Config = Config(chunkSize: nat, sort: seq<StopTime> -> seq<StopTime>)

  const ZERO_TRIP := Trip("", 0)

  ghost predicate SortedBySequence(sts: seq<StopTime>) {
    forall i, j :: 0 <= i < j < |sts| ==> sts[i].sequence <= sts[j].sequence
  }

  ghost predicate Sorts(sort: seq<StopTime> -> seq<StopTime>) {
    forall s: seq<StopTime> :: SortedBySequence(sort(s)) && multiset(sort(s)) == multiset(s)
  }

  /** The id filter: no ids means everything is kept. */
  predicate Keep(ids: seq<string>, id: string) {
    ids == [] || id in ids
  }

  /** The rows of stop_times.txt with one trip_id, in file order. */
  function StopRows(rows: seq<StopTime>, id: string, n: nat): seq<StopTime>
    requires n <= |rows|
  {
    if n == 0 then [] else
    var before := StopRows(rows, id, n - 1);
    if rows[n - 1].tripId == id then before + [rows[n - 1]] else before
  }

  /** The first `cap` of them. */
  function CappedRows(rows: seq<StopTime>, id: string, n: nat, cap: nat): seq<StopTime>
    requires n <= |rows|
  {
    if n == 0 then [] else
    var before := CappedRows(rows, id, n - 1, cap);
    if rows[n - 1].tripId == id && |before| < cap then before + [rows[n - 1]] else before
  }

  /** The rows of trips.txt with one trip_id, in file order. */
  function TripRows(rows: seq<Trip>, id: string, n: nat): seq<Trip>
    requires n <= |rows|
  {
    if n == 0 then [] else
    var before := TripRows(rows, id, n - 1);
    if rows[n - 1].tripId == id then before + [rows[n - 1]] else before
  }

  /** The distinct kept trip_ids in the order of their first row. */
  function FirstSeen(rows: seq<StopTime>, ids: seq<string>, n: nat): seq<string>
    requires n <= |rows|
  {
    if n == 0 then [] else
    var before := FirstSeen(rows, ids, n - 1);
    var id := rows[n - 1].tripId;
    if Keep(ids, id) && id !in before then before + [id] else before
  }

  /** The trip rows from index `a` up to `n`, sent with no stop_times. */
  function Bare(rows: seq<Trip>, a: nat, n: nat): seq<TripStopTimes>
    requires n <= |rows|
  {
    if n <= a then [] else Bare(rows, a, n - 1) + [TripStopTimes(true, rows[n - 1], [], false)]
  }

  lemma {:induction false} BareSnoc(rows: seq<Trip>, t: Trip, n: nat)
    requires n <= |rows|
    ensures Bare(rows + [t], 0, n) == Bare(rows, 0, n)
  {
    if n > 0 { BareSnoc(rows, t, n - 1); }
  }

  /** One trip_id joined: no trip row makes an orphan, never flagged; extra trip rows follow bare. */
  function JoinedTrip(cfg: Config, rows: seq<Trip>, sts: seq<StopTime>, capped: bool): seq<TripStopTimes> {
    if rows == [] then [TripStopTimes(false, ZERO_TRIP, cfg.sort(sts), false)]
    else [TripStopTimes(true, rows[0], cfg.sort(sts), capped)] + Bare(rows, 1, |rows|)
  }

  function JoinOne(cfg: Config, feed: Feed, id: string): seq<TripStopTimes> {
    JoinedTrip(cfg, TripRows(feed.trips, id, |feed.trips|),
               CappedRows(feed.stopTimes, id, |feed.stopTimes|, cfg.chunkSize),
               |StopRows(feed.stopTimes, id, |feed.stopTimes|)| > cfg.chunkSize)
  }

  function JoinAll(cfg: Config, feed: Feed, order: seq<string>, n: nat): seq<TripStopTimes>
    requires n <= |order|
  {
    if n == 0 then [] else JoinAll(cfg, feed, order, n - 1) + JoinOne(cfg, feed, order[n - 1])
  }

  /** Kept trip rows whose id has no stop_times at all, in trips.txt order. */
  function Leftover(trips: seq<Trip>, ids: seq<string>, seen: set<string>, n: nat): seq<Trip>
    requires n <= |trips|
  {
    if n == 0 then [] else
    var before := Leftover(trips, ids, seen, n - 1);
    if Keep(ids, trips[n - 1].tripId) && trips[n - 1].tripId !in seen then before + [trips[n - 1]] else before
  }

  function OrderOf(feed: Feed, ids: seq<string>): seq<string> {
    FirstSeen(feed.stopTimes, ids, |feed.stopTimes|)
  }

  function IdSet(order: seq<string>): set<string> {
    set id | id in order
  }

  function Tail(feed: Feed, ids: seq<string>): seq<TripStopTimes> {
    var left := Leftover(feed.trips, ids, IdSet(OrderOf(feed, ids)), |feed.trips|);
    Bare(left, 0, |left|)
  }

  /** The whole output: every joined trip_id in first-appearance order, then the trips without any. */
  function Join(cfg: Config, feed: Feed, ids: seq<string>): seq<TripStopTimes> {
    var order := OrderOf(feed, ids);
    JoinAll(cfg, feed, order, |order|) + Tail(feed, ids)
  }

  // ---- Reading the helper functions off their arguments ----

  ghost predicate HasId(rows: seq<StopTime>, id: string, n: nat)
    requires n <= |rows|
  {
    exists i :: 0 <= i < n && rows[i].tripId == id
  }

  lemma {:induction false} FirstSeenIds(rows: seq<StopTime>, ids: seq<string>, n: nat)
    requires n <= |rows|
    ensures Distinct(FirstSeen(rows, ids, n))
    ensures forall id :: id in FirstSeen(rows, ids, n) <==> Keep(ids, id) && HasId(rows, id, n)
  {
    if n > 0 { FirstSeenIds(rows, ids, n - 1); }
  }

  ghost predicate FirstAt(rows: seq<StopTime>, id: string, i: nat) {
    i < |rows| && rows[i].tripId == id && forall k :: 0 <= k < i ==> rows[k].tripId != id
  }

  /** First-appearance order: a later entry of FirstSeen has its first row later in the file. */
  lemma {:induction false} FirstSeenInFileOrder(rows: seq<StopTime>, ids: seq<string>, n: nat,
                                                a: nat, b: nat, i: nat, j: nat)
    requires n <= |rows| && a < b < |FirstSeen(rows, ids, n)|
    requires FirstAt(rows, FirstSeen(rows, ids, n)[a], i) && FirstAt(rows, FirstSeen(rows, ids, n)[b], j)
    ensures i < j
  {
    var before := FirstSeen(rows, ids, n - 1);
    FirstSeenIds(rows, ids, n - 1);
    if b < |before| {
      FirstSeenInFileOrder(rows, ids, n - 1, a, b, i, j);
    } else {
      assert before[a] in before;
      assert HasId(rows, before[a], n - 1);
    }
  }

  /** `CappedRows` is the first `cap` rows of `StopRows`. */
  lemma {:induction false} CappedIsPrefix(rows: seq<StopTime>, id: string, n: nat, cap: nat)
    requires n <= |rows|
    ensures CappedRows(rows, id, n, cap) <= StopRows(rows, id, n)
    ensures |CappedRows(rows, id, n, cap)| == if |StopRows(rows, id, n)| <= cap then |StopRows(rows, id, n)| else cap
  {
    if n > 0 { CappedIsPrefix(rows, id, n - 1, cap); }
  }

  lemma {:induction false} NoStopRows(rows: seq<StopTime>, id: string, n: nat)
    requires n <= |rows|
    ensures StopRows(rows, id, n) == [] <==> !HasId(rows, id, n)
  {
    if n > 0 { NoStopRows(rows, id, n - 1); }
  }

  lemma {:induction false} TripRowsIds(rows: seq<Trip>, id: string, n: nat)
    requires n <= |rows|
    ensures forall t :: t in TripRows(rows, id, n) ==> t.tripId == id && t in rows
  {
    if n > 0 { TripRowsIds(rows, id, n - 1); }
  }

  lemma {:induction false} LeftoverIds(trips: seq<Trip>, ids: seq<string>, seen: set<string>, n: nat)
    requires n <= |trips|
    ensures forall t :: t in Leftover(trips, ids, seen, n) ==> t.tripId !in seen
  {
    if n > 0 { LeftoverIds(trips, ids, seen, n - 1); }
  }

  lemma {:induction false} BareItems(rows: seq<Trip>, a: nat, n: nat)
    requires a <= n <= |rows|
    ensures |Bare(rows, a, n)| == n - a
    ensures forall i :: a <= i < n ==> Bare(rows, a, n)[i - a] == TripStopTimes(true, rows[i], [], false)
  {
    if n > a { BareItems(rows, a, n - 1); }
  }
}
