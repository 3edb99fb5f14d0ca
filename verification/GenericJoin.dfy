/** The join of copier/copier.go for readers that have none: it keeps all trips, lets the groups of stop_times
    stream past, and sends what is left at the end. */
module GenericJoin {
  import opened Sequences
  import opened TripJoinSpec
  import opened TripConservation

  // ---- What is sent ----

  /** A row that repeats the trip_id of an earlier one. */
  function Duplicates(trips: seq<Trip>, n: nat): seq<Trip>
    requires n <= |trips|
  {
    if n == 0 then []
    else
      var repeated := TripRows(trips, trips[n - 1].tripId, n - 1) != [];
      Duplicates(trips, n - 1) + if repeated then [trips[n - 1]] else []
  }

  /** One of the first n groups is of this trip_id. */
  ghost predicate Grouped(groups: seq<seq<StopTime>>, n: nat, id: string)
    requires n <= |groups|
  {
    exists i :: 0 <= i < n && groups[i] != [] && groups[i][0].tripId == id
  }

  /** Row `t` is the first with its trip_id. */
  predicate FirstRow(trips: seq<Trip>, t: Trip) {
    var rows := TripRows(trips, t.tripId, |trips|);
    rows != [] && rows[0] == t
  }

  /** What the n-th group adds: its trip, an orphan, or nothing if that trip has been sent. */
  ghost function SentFor(trips: seq<Trip>, groups: seq<seq<StopTime>>, n: nat): seq<TripStopTimes>
    requires n < |groups|
  {
    if groups[n] == [] then []
    else
      var id := groups[n][0].tripId;
      var rows := TripRows(trips, id, |trips|);
      if rows == [] then [TripStopTimes(false, ZERO_TRIP, groups[n], false)]
      else if Grouped(groups, n, id) then []
      else [TripStopTimes(true, rows[0], groups[n], false)]
  }

  ghost function Pieces(trips: seq<Trip>, groups: seq<seq<StopTime>>): (pieces: seq<seq<TripStopTimes>>)
    ensures |pieces| == |groups| && forall n :: 0 <= n < |groups| ==> pieces[n] == SentFor(trips, groups, n)
  {
    seq(|groups|, n requires 0 <= n < |groups| => SentFor(trips, groups, n))
  }

  ghost function Streamed(trips: seq<Trip>, groups: seq<seq<StopTime>>, n: nat): seq<TripStopTimes>
    requires n <= |groups|
  {
    Flatten(Pieces(trips, groups), n)
  }

  lemma StreamedNext(trips: seq<Trip>, groups: seq<seq<StopTime>>, n: nat)
    requires n < |groups|
    ensures Streamed(trips, groups, n + 1) == Streamed(trips, groups, n) + SentFor(trips, groups, n)
  {
  }

  /** The first rows that no group has taken, in any order. */
  ghost predicate Untaken(trips: seq<Trip>, groups: seq<seq<StopTime>>, rest: seq<Trip>) {
    && Distinct(rest)
    && forall t :: t in rest <==> FirstRow(trips, t) && !Grouped(groups, |groups|, t.tripId)
  }

  ghost function Output(trips: seq<Trip>, groups: seq<seq<StopTime>>, rest: seq<Trip>): seq<TripStopTimes> {
    var dups := Duplicates(trips, |trips|);
    Streamed(trips, groups, |groups|) + (Bare(rest, 0, |rest|) + Bare(dups, 0, |dups|))
  }

  /** The order in which Go ranges over the cache is any. */
  ghost predicate PossibleOutput(trips: seq<Trip>, groups: seq<seq<StopTime>>, out: seq<TripStopTimes>) {
    exists rest :: Untaken(trips, groups, rest) && out == Output(trips, groups, rest)
  }

  // ---- The code ----

  /** The cache holds the first row of every trip_id. */
  ghost predicate Caches(cache: map<string, Trip>, trips: seq<Trip>, n: nat)
    requires n <= |trips|
  {
    forall id ::
      && (id in cache <==> TripRows(trips, id, n) != [])
      && (id in cache ==> cache[id] == TripRows(trips, id, n)[0])
  }

  method CacheTrips(trips: seq<Trip>) returns (cache: map<string, Trip>, duplicates: seq<Trip>, allIds: set<string>)
    ensures Caches(cache, trips, |trips|) && duplicates == Duplicates(trips, |trips|) && allIds == cache.Keys
  {
    cache, duplicates, allIds := map[], [], {};
    for i := 0 to |trips|
      invariant Caches(cache, trips, i) && duplicates == Duplicates(trips, i) && allIds == cache.Keys
    {
      allIds := allIds + {trips[i].tripId};
      if trips[i].tripId in cache {
        duplicates := duplicates + [trips[i]];
      } else {
        cache := cache[trips[i].tripId := trips[i]];
      }
    }
  }

  /** What is left of the cache when n groups have taken theirs. */
  ghost predicate Left(cache: map<string, Trip>, trips: seq<Trip>, groups: seq<seq<StopTime>>, n: nat)
    requires n <= |groups|
  {
    forall id ::
      && (id in cache <==> TripRows(trips, id, |trips|) != [] && !Grouped(groups, n, id))
      && (id in cache ==> cache[id] == TripRows(trips, id, |trips|)[0])
  }

  lemma LeftStep(cache: map<string, Trip>, trips: seq<Trip>, groups: seq<seq<StopTime>>, n: nat)
    requires n < |groups| && Left(cache, trips, groups, n)
    ensures Left(if groups[n] == [] then cache else cache - {groups[n][0].tripId}, trips, groups, n + 1)
  {
    forall id ensures Grouped(groups, n + 1, id) <==>
      Grouped(groups, n, id) || (groups[n] != [] && groups[n][0].tripId == id)
    {
    }
  }

  /** One group against the cache of what is left. */
  method StreamGroup(ghost trips: seq<Trip>, ghost groups: seq<seq<StopTime>>, ghost n: nat, group: seq<StopTime>,
                     cache: map<string, Trip>, allIds: set<string>)
    returns (sent: seq<TripStopTimes>, left: map<string, Trip>)
    requires n < |groups| && groups[n] == group && Left(cache, trips, groups, n)
    requires forall id :: id in allIds <==> TripRows(trips, id, |trips|) != []
    ensures sent == SentFor(trips, groups, n) && Left(left, trips, groups, n + 1)
  {
    LeftStep(cache, trips, groups, n);
    sent, left := [], cache;
    if |group| == 0 {
      return;
    }
    var eid := group[0].tripId;
    if eid in cache {
      sent, left := [TripStopTimes(true, cache[eid], group, false)], cache - {eid};
    } else {
      assert cache - {eid} == cache;
      if eid !in allIds {
        sent := [TripStopTimes(false, ZERO_TRIP, group, false)];
      }
    }
  }

  method StreamGroups(trips: seq<Trip>, groups: seq<seq<StopTime>>, cached: map<string, Trip>, allIds: set<string>)
    returns (out: seq<TripStopTimes>, cache: map<string, Trip>)
    requires Caches(cached, trips, |trips|) && allIds == cached.Keys
    ensures out == Streamed(trips, groups, |groups|) && Left(cache, trips, groups, |groups|)
  {
    out, cache := [], cached;
    for i := 0 to |groups|
      invariant out == Streamed(trips, groups, i) && Left(cache, trips, groups, i)
    {
      StreamedNext(trips, groups, i);
      var sent;
      sent, cache := StreamGroup(trips, groups, i, groups[i], cache, allIds);
      out := out + sent;
    }
  }

  /** The values of the cache, in any order. */
  method DrainCache(cache: map<string, Trip>) returns (out: seq<TripStopTimes>, ghost rest: seq<Trip>)
    requires forall id :: id in cache ==> cache[id].tripId == id
    ensures Distinct(rest) && (forall t :: t in rest <==> t.tripId in cache && cache[t.tripId] == t)
    ensures out == Bare(rest, 0, |rest|)
  {
    out, rest := [], [];
    var todo := cache.Keys;
    while todo != {}
      invariant todo <= cache.Keys && Distinct(rest) && out == Bare(rest, 0, |rest|)
      invariant forall t :: t in rest <==> t.tripId in cache && t.tripId !in todo && cache[t.tripId] == t
    {
      var id :| id in todo;
      BareSnoc(rest, cache[id], |rest|);
      out := out + [TripStopTimes(true, cache[id], [], false)];
      rest := rest + [cache[id]];
      todo := todo - {id};
    }
  }

  method SendBare(rows: seq<Trip>) returns (out: seq<TripStopTimes>)
    ensures out == Bare(rows, 0, |rows|)
  {
    out := [];
    for i := 0 to |rows|
      invariant out == Bare(rows, 0, i)
    {
      out := out + [TripStopTimes(true, rows[i], [], false)];
    }
  }

  lemma LeftIsUntaken(cache: map<string, Trip>, trips: seq<Trip>, groups: seq<seq<StopTime>>)
    requires Left(cache, trips, groups, |groups|)
    ensures forall id :: id in cache ==> cache[id].tripId == id
    ensures forall t: Trip :: t.tripId in cache && cache[t.tripId] == t <==>
      FirstRow(trips, t) && !Grouped(groups, |groups|, t.tripId)
  {
    forall id | id in cache ensures cache[id].tripId == id { TripRowsIds(trips, id, |trips|); }
  }

  method GenericTripsWithStopTimes(trips: seq<Trip>, groups: seq<seq<StopTime>>)
    returns (out: seq<TripStopTimes>)
    ensures PossibleOutput(trips, groups, out)
  {
    var cache, duplicates, allIds := CacheTrips(trips);
    var streamed;
    streamed, cache := StreamGroups(trips, groups, cache, allIds);
    LeftIsUntaken(cache, trips, groups);
    var left;
    ghost var rest;
    left, rest := DrainCache(cache);
    var bare := SendBare(duplicates);
    out := streamed + (left + bare);
    assert Untaken(trips, groups, rest) && out == Output(trips, groups, rest);
  }

  // ---- Each trips row once ----

  lemma {:induction false} DuplicatesCount(trips: seq<Trip>, t: Trip, n: nat)
    requires n <= |trips|
    ensures var dups, rows := Duplicates(trips, n), TripRows(trips, t.tripId, n);
      TripCount(trips, t, 0, n) == TripCount(dups, t, 0, |dups|) + if rows != [] && rows[0] == t then 1 else 0
  {
    if n > 0 {
      DuplicatesCount(trips, t, n - 1);
      var before, r := Duplicates(trips, n - 1), trips[n - 1];
      if TripRows(trips, r.tripId, n - 1) != [] {
        TripCountExtend(before, r, t, |before|);
        assert Duplicates(trips, n) == before + [r];
      } else {
        assert Duplicates(trips, n) == before;
      }
    }
  }

  lemma {:induction false} DistinctCount(rows: seq<Trip>, t: Trip, n: nat)
    requires n <= |rows| && Distinct(rows)
    ensures TripCount(rows, t, 0, n) == if exists i :: 0 <= i < n && rows[i] == t then 1 else 0
  {
    if n > 0 { DistinctCount(rows, t, n - 1); }
  }

  /** The n-th group is the first of its trip_id. */
  ghost predicate FirstGroup(groups: seq<seq<StopTime>>, n: nat, id: string)
    requires n < |groups|
  {
    groups[n] != [] && groups[n][0].tripId == id && !Grouped(groups, n, id)
  }

  lemma GroupedNext(groups: seq<seq<StopTime>>, n: nat, id: string)
    requires n < |groups|
    ensures Grouped(groups, n + 1, id) <==> Grouped(groups, n, id) || FirstGroup(groups, n, id)
  {
  }

  lemma TripSentFor(trips: seq<Trip>, groups: seq<seq<StopTime>>, t: Trip, n: nat)
    requires n < |groups|
    ensures var out := SentFor(trips, groups, n);
      TripSent(out, t, |out|) == if FirstRow(trips, t) && FirstGroup(groups, n, t.tripId) then 1 else 0
  {
    if groups[n] != [] { TripRowsIds(trips, groups[n][0].tripId, |trips|); }
  }

  lemma {:induction false} TripInPieces(pieces: seq<seq<TripStopTimes>>, groups: seq<seq<StopTime>>, t: Trip,
                                        first: bool, n: nat)
    requires n <= |groups| == |pieces|
    requires forall i :: 0 <= i < |groups| ==>
      TripSent(pieces[i], t, |pieces[i]|) == if first && FirstGroup(groups, i, t.tripId) then 1 else 0
    ensures var out := Flatten(pieces, n);
      TripSent(out, t, |out|) == if first && Grouped(groups, n, t.tripId) then 1 else 0
  {
    if n > 0 {
      TripInPieces(pieces, groups, t, first, n - 1);
      TripSentConcat(Flatten(pieces, n - 1), pieces[n - 1], t, |pieces[n - 1]|);
      GroupedNext(groups, n - 1, t.tripId);
    }
  }

  lemma TripsStreamed(trips: seq<Trip>, groups: seq<seq<StopTime>>, t: Trip)
    ensures var out := Streamed(trips, groups, |groups|);
      TripSent(out, t, |out|) == if FirstRow(trips, t) && Grouped(groups, |groups|, t.tripId) then 1 else 0
  {
    var pieces := Pieces(trips, groups);
    forall i | 0 <= i < |groups|
      ensures TripSent(pieces[i], t, |pieces[i]|) ==
        if FirstRow(trips, t) && FirstGroup(groups, i, t.tripId) then 1 else 0
    {
      TripSentFor(trips, groups, t, i);
    }
    TripInPieces(pieces, groups, t, FirstRow(trips, t), |groups|);
  }

  lemma TripSentBare(rows: seq<Trip>, t: Trip)
    ensures var out := Bare(rows, 0, |rows|); TripSent(out, t, |out|) == TripCount(rows, t, 0, |rows|)
  {
    BareItems(rows, 0, |rows|);
    SentBare(rows, 0, |rows|, |rows|, t, StopTime("", 0, 0));
  }

  lemma TripSentInAll(a: seq<TripStopTimes>, b: seq<TripStopTimes>, c: seq<TripStopTimes>, t: Trip)
    ensures TripSent(a + (b + c), t, |a + (b + c)|) == TripSent(a, t, |a|) + TripSent(b, t, |b|) + TripSent(c, t, |c|)
  {
    TripSentConcat(a, b + c, t, |b + c|);
    TripSentConcat(b, c, t, |c|);
  }

  lemma RestCount(trips: seq<Trip>, groups: seq<seq<StopTime>>, rest: seq<Trip>, t: Trip)
    requires Untaken(trips, groups, rest)
    ensures TripCount(rest, t, 0, |rest|) ==
      if FirstRow(trips, t) && !Grouped(groups, |groups|, t.tripId) then 1 else 0
  {
    DistinctCount(rest, t, |rest|);
    assert t in rest <==> exists i :: 0 <= i < |rest| && rest[i] == t;
  }

  /** Every trips row is sent as a valid trip exactly as often as the file holds it, whatever groups the reader
      gives: missing ones, empty ones, or several of one trip. */
  lemma GenericSendsEachTripOnce(trips: seq<Trip>, groups: seq<seq<StopTime>>, rest: seq<Trip>, t: Trip)
    requires Untaken(trips, groups, rest)
    ensures var out := Output(trips, groups, rest); TripSent(out, t, |out|) == TripCount(trips, t, 0, |trips|)
  {
    var dups := Duplicates(trips, |trips|);
    var head, a, b := Streamed(trips, groups, |groups|), Bare(rest, 0, |rest|), Bare(dups, 0, |dups|);
    TripSentInAll(head, a, b, t);
    TripSentBare(rest, t);
    TripSentBare(dups, t);
    TripsStreamed(trips, groups, t);
    DuplicatesCount(trips, t, |trips|);
    RestCount(trips, groups, rest, t);
  }

  // ---- Each stop_times row once ----

  /** How often the first n groups hold `st`. */
  function GroupedCount(groups: seq<seq<StopTime>>, st: StopTime, n: nat): nat
    requires n <= |groups|
  {
    if n == 0 then 0 else GroupedCount(groups, st, n - 1) + StopTimeCount(groups[n - 1], st, |groups[n - 1]|)
  }

  /** The n-th group is dropped: its trip_id is in trips.txt, and an earlier group has taken the trip. */
  ghost predicate DropsGroup(trips: seq<Trip>, groups: seq<seq<StopTime>>, n: nat)
    requires n < |groups|
  {
    && groups[n] != [] && TripRows(trips, groups[n][0].tripId, |trips|) != []
    && Grouped(groups, n, groups[n][0].tripId)
  }

  ghost function Drops(trips: seq<Trip>, groups: seq<seq<StopTime>>): (drops: seq<bool>)
    ensures |drops| == |groups| && forall n :: 0 <= n < |groups| ==> drops[n] == DropsGroup(trips, groups, n)
  {
    seq(|groups|, n requires 0 <= n < |groups| => DropsGroup(trips, groups, n))
  }

  /** How often the marked ones among the first n groups hold `st`. */
  function MarkedCount(groups: seq<seq<StopTime>>, marks: seq<bool>, st: StopTime, n: nat): nat
    requires n <= |groups| == |marks|
  {
    if n == 0 then 0
    else
      MarkedCount(groups, marks, st, n - 1) +
      if marks[n - 1] then StopTimeCount(groups[n - 1], st, |groups[n - 1]|) else 0
  }

  lemma SentOrDropped(trips: seq<Trip>, groups: seq<seq<StopTime>>, st: StopTime, n: nat)
    requires n < |groups|
    ensures StopTimeSent(SentFor(trips, groups, n), st, |SentFor(trips, groups, n)|) ==
      if DropsGroup(trips, groups, n) then 0 else StopTimeCount(groups[n], st, |groups[n]|)
  {
  }

  lemma {:induction false} PiecesHold(pieces: seq<seq<TripStopTimes>>, groups: seq<seq<StopTime>>, marks: seq<bool>,
                                      st: StopTime, n: nat)
    requires n <= |groups| == |pieces| == |marks|
    requires forall i :: 0 <= i < |groups| ==>
      StopTimeSent(pieces[i], st, |pieces[i]|) == if marks[i] then 0 else StopTimeCount(groups[i], st, |groups[i]|)
    ensures var out := Flatten(pieces, n);
      StopTimeSent(out, st, |out|) + MarkedCount(groups, marks, st, n) == GroupedCount(groups, st, n)
  {
    if n > 0 {
      PiecesHold(pieces, groups, marks, st, n - 1);
      StopTimeSentConcat(Flatten(pieces, n - 1), pieces[n - 1], st, |pieces[n - 1]|);
    }
  }

  lemma StopTimesStreamed(trips: seq<Trip>, groups: seq<seq<StopTime>>, st: StopTime)
    ensures var out := Streamed(trips, groups, |groups|);
      StopTimeSent(out, st, |out|) + MarkedCount(groups, Drops(trips, groups), st, |groups|) ==
      GroupedCount(groups, st, |groups|)
  {
    var pieces, marks := Pieces(trips, groups), Drops(trips, groups);
    forall n | 0 <= n < |groups|
      ensures StopTimeSent(pieces[n], st, |pieces[n]|) ==
        if marks[n] then 0 else StopTimeCount(groups[n], st, |groups[n]|)
    {
      SentOrDropped(trips, groups, st, n);
    }
    PiecesHold(pieces, groups, marks, st, |groups|);
  }

  lemma BareSendsNone(rows: seq<Trip>, st: StopTime)
    ensures var out := Bare(rows, 0, |rows|); StopTimeSent(out, st, |out|) == 0
  {
    BareItems(rows, 0, |rows|);
    SentBare(rows, 0, |rows|, |rows|, ZERO_TRIP, st);
  }

  /** Every row is sent as often as the groups hold it, orphans included, less what the dropped groups hold. */
  lemma GenericStopTimesSent(trips: seq<Trip>, groups: seq<seq<StopTime>>, rest: seq<Trip>, st: StopTime)
    ensures var out := Output(trips, groups, rest);
      StopTimeSent(out, st, |out|) + MarkedCount(groups, Drops(trips, groups), st, |groups|) ==
      GroupedCount(groups, st, |groups|)
  {
    var dups := Duplicates(trips, |trips|);
    var head, a, b := Streamed(trips, groups, |groups|), Bare(rest, 0, |rest|), Bare(dups, 0, |dups|);
    StopTimeSentConcat(head, a + b, st, |a + b|);
    StopTimeSentConcat(a, b, st, |b|);
    BareSendsNone(rest, st);
    BareSendsNone(dups, st);
    StopTimesStreamed(trips, groups, st);
  }

  lemma {:induction false} NoneMarked(groups: seq<seq<StopTime>>, marks: seq<bool>, st: StopTime, n: nat)
    requires n <= |groups| == |marks| && forall i :: 0 <= i < n ==> !marks[i]
    ensures MarkedCount(groups, marks, st, n) == 0
  {
    if n > 0 { NoneMarked(groups, marks, st, n - 1); }
  }

  lemma {:induction false} SomeMarked(groups: seq<seq<StopTime>>, marks: seq<bool>, k: nat, n: nat)
    requires k < n <= |groups| == |marks| && marks[k] && groups[k] != []
    ensures MarkedCount(groups, marks, groups[k][0], n) > 0
  {
    if k < n - 1 { SomeMarked(groups, marks, k, n - 1); } else { CountsFirst(groups[k], |groups[k]|); }
  }

  lemma {:induction false} CountsFirst(rows: seq<StopTime>, n: nat)
    requires 0 < n <= |rows|
    ensures StopTimeCount(rows, rows[0], n) > 0
  {
    if n > 1 { CountsFirst(rows, n - 1); }
  }

  ghost predicate SendsEachStopTime(trips: seq<Trip>, groups: seq<seq<StopTime>>, rest: seq<Trip>) {
    var out := Output(trips, groups, rest);
    forall st :: StopTimeSent(out, st, |out|) == GroupedCount(groups, st, |groups|)
  }

  /** Every row of every group is sent, and once, exactly if no group of a trip in trips.txt follows another of that
      trip. Orphans may have any number of groups. */
  lemma GenericSendsEachStopTimeIff(trips: seq<Trip>, groups: seq<seq<StopTime>>, rest: seq<Trip>)
    ensures SendsEachStopTime(trips, groups, rest) <==> forall n :: 0 <= n < |groups| ==> !DropsGroup(trips, groups, n)
  {
    var marks := Drops(trips, groups);
    if forall n :: 0 <= n < |groups| ==> !DropsGroup(trips, groups, n) {
      forall st ensures StopTimeSent(Output(trips, groups, rest), st, |Output(trips, groups, rest)|) ==
        GroupedCount(groups, st, |groups|)
      {
        GenericStopTimesSent(trips, groups, rest, st);
        NoneMarked(groups, marks, st, |groups|);
      }
    } else {
      var n :| 0 <= n < |groups| && DropsGroup(trips, groups, n);
      GenericStopTimesSent(trips, groups, rest, groups[n][0]);
      SomeMarked(groups, marks, n, |groups|);
    }
  }

  /** A second group of a trip is lost. */
  lemma SecondGroupIsDropped(t: Trip, a: StopTime, b: StopTime)
    requires a.tripId == b.tripId == t.tripId
    ensures Streamed([t], [[a], [b]], 2) == [TripStopTimes(true, t, [a], false)]
  {
    var groups := [[a], [b]];
    assert TripRows([t], t.tripId, 1) == [t];
    assert groups[0] == [a] && groups[1] == [b];
    assert SentFor([t], groups, 0) == [TripStopTimes(true, t, [a], false)];
    assert SentFor([t], groups, 1) == [];
    assert Streamed([t], groups, 1) == Streamed([t], groups, 0) + SentFor([t], groups, 0);
  }

  // ---- Joined trips are kept apart ----

  /** A group is of one trip_id. */
  ghost predicate Uniform(groups: seq<seq<StopTime>>) {
    forall n, st :: 0 <= n < |groups| && st in groups[n] ==> st.tripId == groups[n][0].tripId
  }

  /** Item i is the one of piece at[i], and the pieces are in order. */
  ghost predicate FromPieces(pieces: seq<seq<TripStopTimes>>, n: nat, out: seq<TripStopTimes>, at: seq<nat>)
    requires n <= |pieces|
  {
    && |at| == |out| && (forall i :: 0 <= i < |at| ==> at[i] < n && pieces[at[i]] == [out[i]])
    && forall i, j :: 0 <= i < j < |at| ==> at[i] < at[j]
  }

  lemma FromPiecesNext(pieces: seq<seq<TripStopTimes>>, n: nat, out: seq<TripStopTimes>, at: seq<nat>,
                       all: seq<TripStopTimes>) returns (next: seq<nat>)
    requires n < |pieces| && |pieces[n]| <= 1 && FromPieces(pieces, n, out, at) && all == out + pieces[n]
    ensures FromPieces(pieces, n + 1, all, next)
  {
    if pieces[n] == [] {
      next := at;
      assert all == out;
    } else {
      next := at + [n];
      assert pieces[n] == [all[|out|]];
    }
  }

  ghost predicate AtMostOne(pieces: seq<seq<TripStopTimes>>) {
    forall k :: 0 <= k < |pieces| ==> |pieces[k]| <= 1
  }

  lemma FromNone(pieces: seq<seq<TripStopTimes>>)
    ensures FromPieces(pieces, 0, [], [])
  {
  }

  lemma {:induction false} PiecesOf(pieces: seq<seq<TripStopTimes>>, n: nat) returns (at: seq<nat>)
    requires n <= |pieces| && AtMostOne(pieces)
    ensures FromPieces(pieces, n, Flatten(pieces, n), at)
  {
    if n == 0 {
      at := [];
      FromNone(pieces);
    } else {
      var before := PiecesOf(pieces, n - 1);
      at := FromPiecesNext(pieces, n - 1, Flatten(pieces, n - 1), before, Flatten(pieces, n));
    }
  }

  /** Of two groups that are sent, one with its trip, the ids differ. */
  lemma SentIdsDiffer(trips: seq<Trip>, groups: seq<seq<StopTime>>, g: nat, h: nat)
    requires g < |groups| && h < |groups| && g != h
    requires SentFor(trips, groups, g) != [] && SentFor(trips, groups, h) != [] && SentFor(trips, groups, g)[0].valid
    ensures groups[g] != [] && groups[h] != [] && groups[g][0].tripId != groups[h][0].tripId
  {
    assert g < h ==> Grouped(groups, h, groups[g][0].tripId);
    assert h < g ==> Grouped(groups, g, groups[h][0].tripId);
  }

  lemma SentOfGroup(trips: seq<Trip>, groups: seq<seq<StopTime>>, g: nat)
    requires g < |groups| && SentFor(trips, groups, g) != []
    ensures var item := SentFor(trips, groups, g)[0];
      groups[g] != [] && item.stopTimes == groups[g] && (item.valid ==> item.trip.tripId == groups[g][0].tripId)
  {
    TripRowsIds(trips, groups[g][0].tripId, |trips|);
  }

  lemma StreamedApart(trips: seq<Trip>, groups: seq<seq<StopTime>>)
    requires Uniform(groups)
    ensures KeepsApart(Streamed(trips, groups, |groups|))
  {
    var out := Streamed(trips, groups, |groups|);
    var at := PiecesOf(Pieces(trips, groups), |groups|);
    forall i | 0 <= i < |out| ensures groups[at[i]] != [] && out[i].stopTimes == groups[at[i]] &&
      (out[i].valid ==> out[i].trip.tripId == groups[at[i]][0].tripId)
    {
      SentOfGroup(trips, groups, at[i]);
    }
    forall i, j, st | 0 <= i < |out| && 0 <= j < |out| && i != j && Timed(out[i]) && st in out[j].stopTimes
      ensures st.tripId != out[i].trip.tripId
    {
      SentIdsDiffer(trips, groups, at[i], at[j]);
    }
  }

  /** The generic join keeps trips apart too, whatever groups the reader gives of one trip_id. */
  lemma GenericKeepsTripsApart(trips: seq<Trip>, groups: seq<seq<StopTime>>, rest: seq<Trip>)
    requires Uniform(groups)
    ensures KeepsApart(Output(trips, groups, rest))
  {
    var dups := Duplicates(trips, |trips|);
    StreamedApart(trips, groups);
    BareIsBare(rest, 0, |rest|);
    BareIsBare(dups, 0, |dups|);
    ApartWithBare(Streamed(trips, groups, |groups|), Bare(rest, 0, |rest|) + Bare(dups, 0, |dups|));
  }

  // ---- The same joined trips as the reader's own join ----

  /** How often item `x` is among the first n. */
  function ItemCount(out: seq<TripStopTimes>, x: TripStopTimes, n: nat): nat
    requires n <= |out|
  {
    if n == 0 then 0 else ItemCount(out, x, n - 1) + if out[n - 1] == x then 1 else 0
  }

  lemma {:induction false} ItemCountConcat(a: seq<TripStopTimes>, b: seq<TripStopTimes>, x: TripStopTimes, k: nat)
    requires k <= |b|
    ensures ItemCount(a + b, x, |a| + k) == ItemCount(a, x, |a|) + ItemCount(b, x, k)
  {
    if k == 0 { ItemCountExtend(a, b, x, |a|); } else { ItemCountConcat(a, b, x, k - 1); }
  }

  lemma {:induction false} ItemCountExtend(a: seq<TripStopTimes>, b: seq<TripStopTimes>, x: TripStopTimes, k: nat)
    requires k <= |a|
    ensures ItemCount(a + b, x, k) == ItemCount(a, x, k)
  {
    if k > 0 { ItemCountExtend(a, b, x, k - 1); }
  }

  lemma ItemCountInAll(a: seq<TripStopTimes>, b: seq<TripStopTimes>, c: seq<TripStopTimes>, x: TripStopTimes)
    ensures ItemCount(a + (b + c), x, |a + (b + c)|) ==
      ItemCount(a, x, |a|) + ItemCount(b, x, |b|) + ItemCount(c, x, |c|)
  {
    ItemCountConcat(a, b + c, x, |b + c|);
    ItemCountConcat(b, c, x, |c|);
  }

  function BareItem(t: Trip): TripStopTimes {
    TripStopTimes(true, t, [], false)
  }

  lemma {:induction false} BareCount(rows: seq<Trip>, a: nat, n: nat, x: TripStopTimes)
    requires a <= n <= |rows|
    ensures var out := Bare(rows, a, n);
      ItemCount(out, x, |out|) == if x == BareItem(x.trip) then TripCount(rows, x.trip, a, n) else 0
  {
    if n > a {
      BareCount(rows, a, n - 1, x);
      var before := Bare(rows, a, n - 1);
      ItemCountExtend(before, [BareItem(rows[n - 1])], x, |before|);
    }
  }

  function SortedGroup(cfg: Config, feed: Feed, id: string): seq<StopTime> {
    cfg.sort(StopRows(feed.stopTimes, id, |feed.stopTimes|))
  }

  /** The item that carries the stop_times of one trip_id. */
  function Head(cfg: Config, feed: Feed, id: string): TripStopTimes {
    var rows := TripRows(feed.trips, id, |feed.trips|);
    if rows == [] then TripStopTimes(false, ZERO_TRIP, SortedGroup(cfg, feed, id), false)
    else TripStopTimes(true, rows[0], SortedGroup(cfg, feed, id), false)
  }

  ghost predicate HasStops(feed: Feed, id: string) {
    HasId(feed.stopTimes, id, |feed.stopTimes|)
  }

  lemma HeadId(cfg: Config, feed: Feed, id: string)
    requires Sorts(cfg.sort) && HasStops(feed, id)
    ensures SortedGroup(cfg, feed, id) != [] && SortedGroup(cfg, feed, id)[0].tripId == id
  {
    var rows, group := StopRows(feed.stopTimes, id, |feed.stopTimes|), SortedGroup(cfg, feed, id);
    NoStopRows(feed.stopTimes, id, |feed.stopTimes|);
    StopRowsIds(feed.stopTimes, id, |feed.stopTimes|);
    assert multiset(group) == multiset(rows);
    assert |group| == |multiset(group)| == |multiset(rows)| == |rows|;
    assert group[0] in multiset(group);
  }

  lemma {:induction false} StopRowsIds(rows: seq<StopTime>, id: string, n: nat)
    requires n <= |rows|
    ensures forall st :: st in StopRows(rows, id, n) ==> st.tripId == id
  {
    if n > 0 { StopRowsIds(rows, id, n - 1); }
  }

  /** How often the heads of the first k ids are `x`. */
  function HeadCount(cfg: Config, feed: Feed, order: seq<string>, k: nat, x: TripStopTimes): nat
    requires k <= |order|
  {
    if k == 0 then 0 else HeadCount(cfg, feed, order, k - 1, x) + if Head(cfg, feed, order[k - 1]) == x then 1 else 0
  }

  /** The trip_ids of stop_times.txt, each once. */
  ghost predicate OrdersIds(feed: Feed, order: seq<string>) {
    Distinct(order) && forall id :: id in order <==> HasStops(feed, id)
  }

  /** The head of an id can only be found at that id, so the order of the ids does not matter. */
  lemma {:induction false} HeadCountIs(cfg: Config, feed: Feed, order: seq<string>, k: nat, x: TripStopTimes)
    requires Sorts(cfg.sort) && k <= |order| && OrdersIds(feed, order)
    ensures HeadCount(cfg, feed, order, k, x) ==
      if x.stopTimes != [] && Among(order, x.stopTimes[0].tripId, k) && x == Head(cfg, feed, x.stopTimes[0].tripId)
      then 1 else 0
  {
    if k > 0 {
      HeadCountIs(cfg, feed, order, k - 1, x);
      assert order[k - 1] in order;
      HeadId(cfg, feed, order[k - 1]);
    }
  }

  /** What either join is to send of one item. */
  ghost function Expected(cfg: Config, feed: Feed, order: seq<string>, x: TripStopTimes): int {
    HeadCount(cfg, feed, order, |order|, x) + if x == BareItem(x.trip) then BareExpected(feed, x.trip) else 0
  }

  /** Every row but the first of an id with stop_times is sent without them. */
  ghost function BareExpected(feed: Feed, t: Trip): int {
    TripCount(feed.trips, t, 0, |feed.trips|) -
    if FirstRow(feed.trips, t) && HasStops(feed, t.tripId) then 1 else 0
  }

  // ---- The reader's own join ----

  lemma JoinOneCount(cfg: Config, feed: Feed, id: string, x: TripStopTimes)
    requires Uncapped(cfg, feed.stopTimes)
    ensures var out, rows := JoinOne(cfg, feed, id), TripRows(feed.trips, id, |feed.trips|);
      ItemCount(out, x, |out|) == (if x == Head(cfg, feed, id) then 1 else 0) +
        if x == BareItem(x.trip) && rows != [] then TripCount(rows, x.trip, 1, |rows|) else 0
  {
    var rows := TripRows(feed.trips, id, |feed.trips|);
    CappedIsPrefix(feed.stopTimes, id, |feed.stopTimes|, cfg.chunkSize);
    assert CappedRows(feed.stopTimes, id, |feed.stopTimes|, cfg.chunkSize) ==
      StopRows(feed.stopTimes, id, |feed.stopTimes|);
    if rows != [] {
      BareCount(rows, 1, |rows|, x);
      ItemCountConcat([Head(cfg, feed, id)], Bare(rows, 1, |rows|), x, |Bare(rows, 1, |rows|)|);
    }
  }

  /** The rows of an id after its first. */
  function Later(feed: Feed, t: Trip): nat {
    var rows := TripRows(feed.trips, t.tripId, |feed.trips|);
    if rows == [] then 0 else TripCount(rows, t, 1, |rows|)
  }

  lemma LaterOf(feed: Feed, id: string, t: Trip)
    ensures var rows := TripRows(feed.trips, id, |feed.trips|);
      rows != [] ==> TripCount(rows, t, 1, |rows|) == if t.tripId == id then Later(feed, t) else 0
    ensures Later(feed, t) ==
      TripCount(feed.trips, t, 0, |feed.trips|) - if FirstRow(feed.trips, t) then 1 else 0
  {
    var rows := TripRows(feed.trips, id, |feed.trips|);
    TripRowsCount(feed.trips, id, t, |feed.trips|);
    TripRowsCount(feed.trips, t.tripId, t, |feed.trips|);
    if rows != [] { TripCountHead(rows, t, |rows|); }
    var own := TripRows(feed.trips, t.tripId, |feed.trips|);
    if own != [] { TripCountHead(own, t, |own|); }
  }

  lemma {:induction false} JoinAllCount(cfg: Config, feed: Feed, order: seq<string>, k: nat, x: TripStopTimes)
    requires Uncapped(cfg, feed.stopTimes) && k <= |order|
    ensures var out := JoinAll(cfg, feed, order, k);
      ItemCount(out, x, |out|) == HeadCount(cfg, feed, order, k, x) +
        if x == BareItem(x.trip) then Each(order, x.trip.tripId, k, Later(feed, x.trip)) else 0
  {
    if k > 0 {
      JoinAllCount(cfg, feed, order, k - 1, x);
      JoinOneCount(cfg, feed, order[k - 1], x);
      LaterOf(feed, order[k - 1], x.trip);
      var before, last := JoinAll(cfg, feed, order, k - 1), JoinOne(cfg, feed, order[k - 1]);
      ItemCountConcat(before, last, x, |last|);
    }
  }

  lemma JoinCount(cfg: Config, feed: Feed, x: TripStopTimes)
    requires Sorts(cfg.sort) && Uncapped(cfg, feed.stopTimes)
    ensures var out, order := Join(cfg, feed, []), OrderOf(feed, []);
      OrdersIds(feed, order) && ItemCount(out, x, |out|) == Expected(cfg, feed, order, x)
  {
    var order := OrderOf(feed, []);
    FirstSeenIds(feed.stopTimes, [], |feed.stopTimes|);
    JoinAllCount(cfg, feed, order, |order|, x);
    var left := Leftover(feed.trips, [], IdSet(order), |feed.trips|);
    BareCount(left, 0, |left|, x);
    LeftoverCount(feed.trips, [], IdSet(order), x.trip, |feed.trips|);
    ItemCountConcat(JoinAll(cfg, feed, order, |order|), Tail(feed, []), x, |Tail(feed, [])|);
    EachOnce(order, x.trip.tripId, |order|, Later(feed, x.trip));
    AmongOrder(feed, [], x.trip.tripId);
    LaterOf(feed, x.trip.tripId, x.trip);
    FirstRowCount(feed, x.trip);
  }

  lemma FirstRowCount(feed: Feed, t: Trip)
    ensures FirstRow(feed.trips, t) ==> TripCount(feed.trips, t, 0, |feed.trips|) > 0
  {
    DuplicatesCount(feed.trips, t, |feed.trips|);
  }

  // ---- The generic join ----

  /** The reader's groups: one for each trip_id of stop_times.txt, sorted, in any order. */
  ghost predicate GroupsOf(cfg: Config, feed: Feed, order: seq<string>, groups: seq<seq<StopTime>>) {
    && OrdersIds(feed, order) && |groups| == |order|
    && forall i :: 0 <= i < |order| ==> groups[i] == SortedGroup(cfg, feed, order[i])
  }

  lemma GroupedIff(cfg: Config, feed: Feed, order: seq<string>, groups: seq<seq<StopTime>>, n: nat, id: string)
    requires Sorts(cfg.sort) && GroupsOf(cfg, feed, order, groups) && n <= |groups|
    ensures Grouped(groups, n, id) <==> Among(order, id, n)
  {
    forall i | 0 <= i < n ensures groups[i] != [] && groups[i][0].tripId == order[i] {
      assert order[i] in order;
      HeadId(cfg, feed, order[i]);
    }
    if Among(order, id, n) {
      var i :| 0 <= i < n && order[i] == id;
      assert groups[i] != [] && groups[i][0].tripId == id;
    }
  }

  function Heads(cfg: Config, feed: Feed, order: seq<string>, n: nat): seq<TripStopTimes>
    requires n <= |order|
  {
    if n == 0 then [] else Heads(cfg, feed, order, n - 1) + [Head(cfg, feed, order[n - 1])]
  }

  lemma {:induction false} PiecesAreHeads(cfg: Config, feed: Feed, order: seq<string>, pieces: seq<seq<TripStopTimes>>,
                                          n: nat)
    requires n <= |pieces| == |order|
    requires forall i :: 0 <= i < |order| ==> pieces[i] == [Head(cfg, feed, order[i])]
    ensures Flatten(pieces, n) == Heads(cfg, feed, order, n)
  {
    if n > 0 { PiecesAreHeads(cfg, feed, order, pieces, n - 1); }
  }

  lemma {:induction false} HeadsCount(cfg: Config, feed: Feed, order: seq<string>, n: nat, x: TripStopTimes)
    requires n <= |order|
    ensures var out := Heads(cfg, feed, order, n); ItemCount(out, x, |out|) == HeadCount(cfg, feed, order, n, x)
  {
    if n > 0 {
      HeadsCount(cfg, feed, order, n - 1, x);
      var before := Heads(cfg, feed, order, n - 1);
      ItemCountExtend(before, [Head(cfg, feed, order[n - 1])], x, |before|);
    }
  }

  lemma SentForIsHead(cfg: Config, feed: Feed, order: seq<string>, groups: seq<seq<StopTime>>, n: nat)
    requires Sorts(cfg.sort) && GroupsOf(cfg, feed, order, groups) && n < |groups|
    ensures SentFor(feed.trips, groups, n) == [Head(cfg, feed, order[n])]
  {
    assert order[n] in order;
    HeadId(cfg, feed, order[n]);
    GroupedIff(cfg, feed, order, groups, n, order[n]);
  }

  lemma BareOutputCount(cfg: Config, feed: Feed, order: seq<string>, groups: seq<seq<StopTime>>, rest: seq<Trip>,
                        t: Trip)
    requires Sorts(cfg.sort) && GroupsOf(cfg, feed, order, groups) && Untaken(feed.trips, groups, rest)
    ensures var dups := Duplicates(feed.trips, |feed.trips|);
      TripCount(rest, t, 0, |rest|) + TripCount(dups, t, 0, |dups|) == BareExpected(feed, t)
  {
    DuplicatesCount(feed.trips, t, |feed.trips|);
    RestCount(feed.trips, groups, rest, t);
    GroupedIff(cfg, feed, order, groups, |groups|, t.tripId);
    assert Among(order, t.tripId, |order|) <==> t.tripId in order;
  }

  lemma OutputCount(cfg: Config, feed: Feed, order: seq<string>, groups: seq<seq<StopTime>>, rest: seq<Trip>,
                    x: TripStopTimes)
    requires Sorts(cfg.sort) && GroupsOf(cfg, feed, order, groups) && Untaken(feed.trips, groups, rest)
    ensures var out := Output(feed.trips, groups, rest); ItemCount(out, x, |out|) == Expected(cfg, feed, order, x)
  {
    var dups := Duplicates(feed.trips, |feed.trips|);
    var head, a, b := Streamed(feed.trips, groups, |groups|), Bare(rest, 0, |rest|), Bare(dups, 0, |dups|);
    ItemCountInAll(head, a, b, x);
    BareCount(rest, 0, |rest|, x);
    BareCount(dups, 0, |dups|, x);
    forall i | 0 <= i < |groups| ensures SentFor(feed.trips, groups, i) == [Head(cfg, feed, order[i])] {
      SentForIsHead(cfg, feed, order, groups, i);
    }
    PiecesAreHeads(cfg, feed, order, Pieces(feed.trips, groups), |groups|);
    HeadsCount(cfg, feed, order, |groups|, x);
    BareOutputCount(cfg, feed, order, groups, rest, x.trip);
  }

  /** Either join sends every joined trip equally often, in whatever order the groups come, when no trip exceeds
      the cap. */
  lemma SameJoinedTrips(cfg: Config, feed: Feed, order: seq<string>, groups: seq<seq<StopTime>>, rest: seq<Trip>,
                        x: TripStopTimes)
    requires Sorts(cfg.sort) && Uncapped(cfg, feed.stopTimes)
    requires GroupsOf(cfg, feed, order, groups) && Untaken(feed.trips, groups, rest)
    ensures var own, generic := Join(cfg, feed, []), Output(feed.trips, groups, rest);
      ItemCount(generic, x, |generic|) == ItemCount(own, x, |own|)
  {
    var first := OrderOf(feed, []);
    OutputCount(cfg, feed, order, groups, rest, x);
    JoinCount(cfg, feed, x);
    HeadCountIs(cfg, feed, order, |order|, x);
    HeadCountIs(cfg, feed, first, |first|, x);
    if x.stopTimes != [] {
      var id := x.stopTimes[0].tripId;
      assert Among(order, id, |order|) <==> id in order;
      assert Among(first, id, |first|) <==> id in first;
    }
  }
}
