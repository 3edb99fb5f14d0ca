/** The scanning and chunked passes of tlcsv/reader.go, each proved against `TripJoinSpec`. */
module TripJoin {
  import opened Sequences
  import opened TripJoinSpec

  // ---- First pass: counts, order, grouped ----

  /** The variables of the first pass. */
  datatype ScanState = ScanState(counts: map<string, nat>, order: seq<string>, grouped: bool, last: string)

  function ScanNext(s: ScanState, sid: string): ScanState {
    var seen := sid in s.counts;
    ScanState(s.counts[sid := (if seen then s.counts[sid] else 0) + 1],
              if seen then s.order else s.order + [sid],
              s.grouped && !(sid != s.last && s.last != "" && seen),
              sid)
  }

  function ScanAfter(rows: seq<StopTime>, ids: seq<string>, n: nat): ScanState
    requires n <= |rows|
  {
    if n == 0 then ScanState(map[], [], true, "") else
    var s := ScanAfter(rows, ids, n - 1);
    if Keep(ids, rows[n - 1].tripId) then ScanNext(s, rows[n - 1].tripId) else s
  }

  /** The flag that chooses the path. */
  predicate ScanGrouped(rows: seq<StopTime>, ids: seq<string>) {
    ScanAfter(rows, ids, |rows|).grouped
  }

  ghost predicate CountsOf(counts: map<string, nat>, rows: seq<StopTime>, ids: seq<string>, n: nat)
    requires n <= |rows|
  {
    && (forall id :: id in counts <==> Keep(ids, id) && HasId(rows, id, n))
    && (forall id :: id in counts ==> counts[id] == |StopRows(rows, id, n)|)
  }

  method ScanTripStopTimes(rows: seq<StopTime>, ids: seq<string>)
    returns (counts: map<string, nat>, order: seq<string>, grouped: bool)
    ensures order == FirstSeen(rows, ids, |rows|)
    ensures counts.Keys == IdSet(order)
    ensures forall id :: id in counts ==> counts[id] == |StopRows(rows, id, |rows|)|
    ensures grouped <==> ScanGrouped(rows, ids)
  {
    counts, order, grouped := map[], [], true;
    var last := "";
    for i := 0 to |rows|
      invariant ScanState(counts, order, grouped, last) == ScanAfter(rows, ids, i)
    {
      var sid := rows[i].tripId;
      if !Keep(ids, sid) {
        continue;
      }
      var seen := sid in counts;
      if grouped && sid != last && last != "" && seen {
        grouped := false;
      }
      if !seen {
        order := order + [sid];
      }
      counts := counts[sid := (if seen then counts[sid] else 0) + 1];
      last := sid;
    }
    ScanAfterCounts(rows, ids, |rows|);
    ScanAfterOrder(rows, ids, |rows|);
    FirstSeenIds(rows, ids, |rows|);
  }

  lemma {:induction false} ScanAfterCounts(rows: seq<StopTime>, ids: seq<string>, n: nat)
    requires n <= |rows|
    ensures CountsOf(ScanAfter(rows, ids, n).counts, rows, ids, n)
  {
    if n > 0 {
      ScanAfterCounts(rows, ids, n - 1);
      var sid := rows[n - 1].tripId;
      var before, after := ScanAfter(rows, ids, n - 1).counts, ScanAfter(rows, ids, n).counts;
      NoStopRows(rows, sid, n - 1);
      forall id ensures id in after <==> Keep(ids, id) && HasId(rows, id, n) {
        assert HasId(rows, id, n) <==> HasId(rows, id, n - 1) || id == sid;
        assert id in before <==> Keep(ids, id) && HasId(rows, id, n - 1);
      }
      forall id | id in after ensures after[id] == |StopRows(rows, id, n)| {
        assert id != sid ==> id in before && after[id] == before[id];
      }
    }
  }

  lemma {:induction false} ScanAfterOrder(rows: seq<StopTime>, ids: seq<string>, n: nat)
    requires n <= |rows|
    ensures ScanAfter(rows, ids, n).order == FirstSeen(rows, ids, n)
  {
    if n > 0 {
      ScanAfterOrder(rows, ids, n - 1);
      ScanSeen(rows, ids, n - 1, rows[n - 1].tripId);
      FirstSeenIds(rows, ids, n - 1);
    }
  }

  ghost predicate KeptEmptyId(rows: seq<StopTime>, ids: seq<string>, n: nat)
    requires n <= |rows|
  {
    Keep(ids, "") && HasId(rows, "", n)
  }

  /** Each id's kept rows are contiguous among the kept rows. */
  ghost predicate Contiguous(rows: seq<StopTime>, ids: seq<string>, n: nat)
    requires n <= |rows|
  {
    forall a, b, c ::
      (0 <= a < b < c < n && Keep(ids, rows[a].tripId) && Keep(ids, rows[b].tripId)
        && rows[a].tripId == rows[c].tripId) ==> rows[b].tripId == rows[a].tripId
  }

  ghost predicate LastKept(rows: seq<StopTime>, ids: seq<string>, n: nat, l: int)
    requires n <= |rows|
  {
    && -1 <= l < n && (l >= 0 ==> Keep(ids, rows[l].tripId))
    && forall k :: l < k < n ==> !Keep(ids, rows[k].tripId)
  }

  lemma {:induction false} ScanLast(rows: seq<StopTime>, ids: seq<string>, n: nat) returns (l: int)
    requires n <= |rows|
    ensures LastKept(rows, ids, n, l)
    ensures ScanAfter(rows, ids, n).last == if l < 0 then "" else rows[l].tripId
  {
    if n == 0 { return -1; }
    l := ScanLast(rows, ids, n - 1);
    if Keep(ids, rows[n - 1].tripId) { l := n - 1; }
  }

  /** An earlier trip_id comes back after another one. */
  ghost predicate Returns(rows: seq<StopTime>, n: nat, l: int)
    requires 0 < n <= |rows| && -1 <= l < n - 1
  {
    l >= 0 && rows[l].tripId != rows[n - 1].tripId && HasId(rows, rows[n - 1].tripId, n - 1)
  }

  /** Without empty trip_ids the flag says exactly that the file is grouped by trip_id. */
  lemma {:induction false} GroupedIffContiguous(rows: seq<StopTime>, ids: seq<string>, n: nat)
    requires n <= |rows| && !KeptEmptyId(rows, ids, n)
    ensures ScanAfter(rows, ids, n).grouped <==> Contiguous(rows, ids, n)
  {
    if n > 0 {
      GroupedIffContiguous(rows, ids, n - 1);
      if Keep(ids, rows[n - 1].tripId) {
        var l := FlagStep(rows, ids, n);
        ContiguousStep(rows, ids, n, l);
      } else {
        ContiguousSkip(rows, ids, n);
      }
    }
  }

  lemma FlagStep(rows: seq<StopTime>, ids: seq<string>, n: nat) returns (l: int)
    requires 0 < n <= |rows| && !KeptEmptyId(rows, ids, n) && Keep(ids, rows[n - 1].tripId)
    ensures LastKept(rows, ids, n - 1, l)
    ensures ScanAfter(rows, ids, n).grouped <==> ScanAfter(rows, ids, n - 1).grouped && !Returns(rows, n, l)
  {
    l := ScanLast(rows, ids, n - 1);
    ScanSeen(rows, ids, n - 1, rows[n - 1].tripId);
    assert l >= 0 <==> ScanAfter(rows, ids, n - 1).last != "";
  }

  lemma ScanSeen(rows: seq<StopTime>, ids: seq<string>, n: nat, id: string)
    requires n <= |rows|
    ensures id in ScanAfter(rows, ids, n).counts <==> Keep(ids, id) && HasId(rows, id, n)
  {
    ScanAfterCounts(rows, ids, n);
  }

  lemma ContiguousSkip(rows: seq<StopTime>, ids: seq<string>, n: nat)
    requires 0 < n <= |rows| && !Keep(ids, rows[n - 1].tripId)
    ensures Contiguous(rows, ids, n) <==> Contiguous(rows, ids, n - 1)
  {
  }

  lemma ContiguousStep(rows: seq<StopTime>, ids: seq<string>, n: nat, l: int)
    requires 0 < n <= |rows| && LastKept(rows, ids, n - 1, l) && Keep(ids, rows[n - 1].tripId)
    ensures Contiguous(rows, ids, n) <==> Contiguous(rows, ids, n - 1) && !Returns(rows, n, l)
  {
    if Returns(rows, n, l) {
      var a :| 0 <= a < n - 1 && rows[a].tripId == rows[n - 1].tripId;
      assert a < l < n - 1;
    } else if Contiguous(rows, ids, n - 1) {
      ContiguousKept(rows, ids, n, l);
    }
  }

  lemma ContiguousKept(rows: seq<StopTime>, ids: seq<string>, n: nat, l: int)
    requires 0 < n <= |rows| && LastKept(rows, ids, n - 1, l) && Keep(ids, rows[n - 1].tripId)
    requires Contiguous(rows, ids, n - 1) && !Returns(rows, n, l)
    ensures Contiguous(rows, ids, n)
  {
    var sid := rows[n - 1].tripId;
    forall a, b | 0 <= a < b < n - 1 && Keep(ids, rows[b].tripId) && rows[a].tripId == sid
      ensures rows[b].tripId == sid
    {
      assert HasId(rows, sid, n - 1) && b <= l;
    }
  }

  // ---- Chunks by stop_time count ----

  /** The first `k` trips of the chunk, in stop_times. */
  function Total(counts: map<string, nat>, chunk: seq<string>, k: nat): nat
    requires k <= |chunk|
  {
    if k == 0 then 0 else
    Total(counts, chunk, k - 1) + if chunk[k - 1] in counts then counts[chunk[k - 1]] else 0
  }

  lemma {:induction false} TotalExtend(counts: map<string, nat>, chunk: seq<string>, id: string, k: nat)
    requires k <= |chunk|
    ensures Total(counts, chunk + [id], k) == Total(counts, chunk, k)
  {
    if k > 0 { TotalExtend(counts, chunk, id, k - 1); }
  }

  /** The budget is not reached before a chunk's last trip_id. */
  ghost predicate UnderBudget(counts: map<string, nat>, chunk: seq<string>, budget: nat) {
    chunk != [] && Total(counts, chunk, |chunk| - 1) < budget
  }

  /** Consecutive pieces of the order, each cut by the first trip that fills the budget. */
  ghost predicate CountChunks(chunks: seq<seq<string>>, order: seq<string>, counts: map<string, nat>, budget: nat) {
    && Flatten(chunks, |chunks|) == order
    && (forall i :: 0 <= i < |chunks| ==> UnderBudget(counts, chunks[i], budget))
    && (forall i :: 0 <= i < |chunks| - 1 ==> Total(counts, chunks[i], |chunks[i]|) >= budget)
  }

  /** Chunks cut by the budget, all but the open rest of the order. */
  ghost predicate FullChunks(chunks: seq<seq<string>>, counts: map<string, nat>, budget: nat) {
    forall k :: 0 <= k < |chunks| ==>
      UnderBudget(counts, chunks[k], budget) && Total(counts, chunks[k], |chunks[k]|) >= budget
  }

  /** The first i ids are cut, all but the open chunk `cur` of `c` stop_times. */
  ghost predicate CutUpTo(chunks: seq<seq<string>>, cur: seq<string>, c: nat, order: seq<string>, i: nat,
                          counts: map<string, nat>, budget: nat)
  {
    && i <= |order| && Flatten(chunks, |chunks|) + cur == order[..i]
    && c == Total(counts, cur, |cur|) < budget && (cur != [] ==> UnderBudget(counts, cur, budget))
    && FullChunks(chunks, counts, budget)
  }

  lemma CutNext(chunks: seq<seq<string>>, cur: seq<string>, c: nat, order: seq<string>, i: nat,
                counts: map<string, nat>, budget: nat)
    requires CutUpTo(chunks, cur, c, order, i, counts, budget) && i < |order|
    ensures var cur', c' := cur + [order[i]], c + if order[i] in counts then counts[order[i]] else 0;
      if c' >= budget then CutUpTo(chunks + [cur'], [], 0, order, i + 1, counts, budget)
      else CutUpTo(chunks, cur', c', order, i + 1, counts, budget)
  {
    TotalExtend(counts, cur, order[i], |cur|);
    TakeNext(Flatten(chunks, |chunks|), cur, order, i);
    FlattenSnoc(chunks, cur + [order[i]]);
  }

  lemma CutAll(chunks: seq<seq<string>>, cur: seq<string>, c: nat, order: seq<string>, counts: map<string, nat>,
               budget: nat)
    requires CutUpTo(chunks, cur, c, order, |order|, counts, budget)
    ensures CountChunks(if cur == [] then chunks else chunks + [cur], order, counts, budget)
  {
    FlattenSnoc(chunks, cur);
    assert order[..|order|] == order;
  }

  method ChunkByCount(order: seq<string>, counts: map<string, nat>, budget: nat) returns (chunks: seq<seq<string>>)
    requires budget >= 1
    ensures CountChunks(chunks, order, counts, budget)
  {
    chunks := [];
    var cur: seq<string>, c: nat := [], 0;
    for i := 0 to |order|
      invariant CutUpTo(chunks, cur, c, order, i, counts, budget)
    {
      CutNext(chunks, cur, c, order, i, counts, budget);
      cur := cur + [order[i]];
      c := c + if order[i] in counts then counts[order[i]] else 0;
      if c >= budget {
        chunks := chunks + [cur];
        cur, c := [], 0;
      }
    }
    CutAll(chunks, cur, c, order, counts, budget);
    if |cur| > 0 {
      chunks := chunks + [cur];
    }
  }

  // ---- Reading trips.txt and emitting ----

  /** A missing map entry reads as the empty slice. */
  ghost predicate RowsRead(tripRows: map<string, seq<Trip>>, trips: seq<Trip>, ids: seq<string>, n: nat)
    requires n <= |trips|
  {
    forall id :: Lookup(tripRows, id) == if id in ids then TripRows(trips, id, n) else []
  }

  method ReadTripsForIds(trips: seq<Trip>, ids: seq<string>) returns (tripRows: map<string, seq<Trip>>)
    ensures RowsRead(tripRows, trips, ids, |trips|)
  {
    tripRows := map[];
    for i := 0 to |trips|
      invariant RowsRead(tripRows, trips, ids, i)
    {
      var tid := trips[i].tripId;
      if tid in ids {
        tripRows := tripRows[tid := Lookup(tripRows, tid) + [trips[i]]];
      }
    }
  }

  method EmitJoinedTrip(cfg: Config, rows: seq<Trip>, sts: seq<StopTime>, capped: bool)
    returns (out: seq<TripStopTimes>)
    ensures out == JoinedTrip(cfg, rows, sts, capped)
  {
    var sorted := cfg.sort(sts);
    if |rows| == 0 {
      return [TripStopTimes(false, ZERO_TRIP, sorted, false)];
    }
    out := [TripStopTimes(true, rows[0], sorted, capped)];
    for i := 1 to |rows|
      invariant out == [TripStopTimes(true, rows[0], sorted, capped)] + Bare(rows, 1, i)
    {
      out := out + [TripStopTimes(true, rows[i], [], false)];
    }
  }

  // ---- The chunked path ----

  /** Each trip's buffer after reading `n` rows of stop_times.txt. */
  ghost predicate BuffersOf(stm: map<string, seq<StopTime>>, rows: seq<StopTime>, chunk: seq<string>, cap: nat, n: nat)
    requires n <= |rows|
  {
    forall id :: Lookup(stm, id) == if id in chunk then CappedRows(rows, id, n, cap) else []
  }

  ghost predicate CapsOf(capped: set<string>, rows: seq<StopTime>, chunk: seq<string>, cap: nat, n: nat)
    requires n <= |rows|
  {
    forall id :: id in capped <==> id in chunk && |StopRows(rows, id, n)| > cap
  }

  ghost predicate Gathered(stm: map<string, seq<StopTime>>, capped: set<string>, rows: seq<StopTime>,
                           chunk: seq<string>, cap: nat, n: nat)
    requires n <= |rows|
  {
    BuffersOf(stm, rows, chunk, cap, n) && CapsOf(capped, rows, chunk, cap, n)
  }

  /** How many stop_times a chunk's map holds, counting its first `k` trips. */
  function Buffered(stm: map<string, seq<StopTime>>, chunk: seq<string>, k: nat): nat
    requires k <= |chunk|
  {
    if k == 0 then 0 else Buffered(stm, chunk, k - 1) + |Lookup(stm, chunk[k - 1])|
  }

  lemma BuffersStep(stm: map<string, seq<StopTime>>, rows: seq<StopTime>, chunk: seq<string>, cap: nat, n: nat)
    requires n < |rows| && BuffersOf(stm, rows, chunk, cap, n)
    ensures var r := rows[n]; var buf := Lookup(stm, r.tripId);
      BuffersOf(if r.tripId in chunk && |buf| < cap then stm[r.tripId := buf + [r]] else stm, rows, chunk, cap, n + 1)
  {
  }

  lemma CapsStep(capped: set<string>, rows: seq<StopTime>, chunk: seq<string>, cap: nat, n: nat)
    requires n < |rows| && CapsOf(capped, rows, chunk, cap, n)
    ensures var id := rows[n].tripId;
      CapsOf(if id in chunk && |CappedRows(rows, id, n, cap)| >= cap then capped + {id} else capped,
             rows, chunk, cap, n + 1)
  {
    CappedIsPrefix(rows, rows[n].tripId, n, cap);
  }

  method GatherChunk(rows: seq<StopTime>, chunk: seq<string>, cap: nat)
    returns (stm: map<string, seq<StopTime>>, capped: set<string>)
    ensures Gathered(stm, capped, rows, chunk, cap, |rows|)
  {
    stm, capped := map[], {};
    for i := 0 to |rows|
      invariant Gathered(stm, capped, rows, chunk, cap, i)
    {
      BuffersStep(stm, rows, chunk, cap, i);
      CapsStep(capped, rows, chunk, cap, i);
      var sid := rows[i].tripId;
      if sid !in chunk {
        continue;
      }
      if |Lookup(stm, sid)| >= cap {
        capped := capped + {sid};
        continue;
      }
      stm := stm[sid := Lookup(stm, sid) + [rows[i]]];
    }
  }

  ghost predicate ExactCounts(counts: map<string, nat>, order: seq<string>, rows: seq<StopTime>) {
    forall id :: id in order ==> id in counts && counts[id] == |StopRows(rows, id, |rows|)|
  }

  /** The memory bound: a chunk cut at its budget never buffers 2 * chunkSize stop_times. */
  lemma {:induction false} ChunkBufferBound(rows: seq<StopTime>, stm: map<string, seq<StopTime>>, capped: set<string>,
                                            counts: map<string, nat>, chunk: seq<string>, cap: nat)
    requires Gathered(stm, capped, rows, chunk, cap, |rows|)
    requires ExactCounts(counts, chunk, rows) && UnderBudget(counts, chunk, cap)
    ensures Buffered(stm, chunk, |chunk|) < 2 * cap
  {
    BufferedAtMostTotal(rows, stm, capped, counts, chunk, cap, |chunk| - 1);
    CappedIsPrefix(rows, chunk[|chunk| - 1], |rows|, cap);
  }

  lemma {:induction false} BufferedAtMostTotal(rows: seq<StopTime>, stm: map<string, seq<StopTime>>,
                                               capped: set<string>, counts: map<string, nat>, chunk: seq<string>,
                                               cap: nat, k: nat)
    requires k <= |chunk| && Gathered(stm, capped, rows, chunk, cap, |rows|) && ExactCounts(counts, chunk, rows)
    ensures Buffered(stm, chunk, k) <= Total(counts, chunk, k)
  {
    if k > 0 {
      BufferedAtMostTotal(rows, stm, capped, counts, chunk, cap, k - 1);
      CappedIsPrefix(rows, chunk[k - 1], |rows|, cap);
    }
  }

  /** What a chunk's map holds of its first `k` trips once stop_times.txt is read. */
  function Held(rows: seq<StopTime>, chunk: seq<string>, cap: nat, k: nat): nat
    requires k <= |chunk|
  {
    if k == 0 then 0 else Held(rows, chunk, cap, k - 1) + |CappedRows(rows, chunk[k - 1], |rows|, cap)|
  }

  lemma {:induction false} BufferedIsHeld(rows: seq<StopTime>, stm: map<string, seq<StopTime>>, capped: set<string>,
                                          chunk: seq<string>, cap: nat, k: nat)
    requires k <= |chunk| && Gathered(stm, capped, rows, chunk, cap, |rows|)
    ensures Buffered(stm, chunk, k) == Held(rows, chunk, cap, k)
  {
    if k > 0 {
      BufferedIsHeld(rows, stm, capped, chunk, cap, k - 1);
      assert Lookup(stm, chunk[k - 1]) == CappedRows(rows, chunk[k - 1], |rows|, cap);
    }
  }

  /** The most that any of the first `n` chunks holds. */
  function PeakOf(rows: seq<StopTime>, chunks: seq<seq<string>>, cap: nat, n: nat): nat
    requires n <= |chunks|
  {
    if n == 0 then 0 else
    var held, before := Held(rows, chunks[n - 1], cap, |chunks[n - 1]|), PeakOf(rows, chunks, cap, n - 1);
    if held > before then held else before
  }

  lemma {:induction false} PeakWithin(rows: seq<StopTime>, chunks: seq<seq<string>>, cap: nat, n: nat)
    requires n <= |chunks|
    ensures PeakOf(rows, chunks, cap, n) <= cap <==>
      forall i :: 0 <= i < n ==> Held(rows, chunks[i], cap, |chunks[i]|) <= cap
  {
    if n > 0 { PeakWithin(rows, chunks, cap, n - 1); }
  }

  lemma {:induction false} HeldBelowCap(rows: seq<StopTime>, counts: map<string, nat>, chunk: seq<string>, cap: nat,
                                        k: nat)
    requires k <= |chunk| && ExactCounts(counts, chunk, rows) && Total(counts, chunk, k) < cap
    ensures Held(rows, chunk, cap, k) == Total(counts, chunk, k)
  {
    if k > 0 {
      HeldBelowCap(rows, counts, chunk, cap, k - 1);
      CappedIsPrefix(rows, chunk[k - 1], |rows|, cap);
    }
  }

  /** A chunk overshoots its budget with the trip that fills it, and other trips' stop_times are held beside. */
  predicate Overshoots(counts: map<string, nat>, chunk: seq<string>, budget: nat)
    requires chunk != []
  {
    Total(counts, chunk, |chunk|) > budget && Total(counts, chunk, |chunk| - 1) > 0
  }

  lemma ChunkWithinIff(rows: seq<StopTime>, counts: map<string, nat>, chunk: seq<string>, cap: nat)
    requires ExactCounts(counts, chunk, rows) && UnderBudget(counts, chunk, cap)
    ensures Held(rows, chunk, cap, |chunk|) <= cap <==> !Overshoots(counts, chunk, cap)
  {
    HeldBelowCap(rows, counts, chunk, cap, |chunk| - 1);
    CappedIsPrefix(rows, chunk[|chunk| - 1], |rows|, cap);
  }

  /** The chunked path keeps to chunkSize exactly if no chunk overshoots beside other trips. */
  lemma PeakWithinIff(rows: seq<StopTime>, counts: map<string, nat>, order: seq<string>, chunks: seq<seq<string>>,
                      cap: nat)
    requires CountChunks(chunks, order, counts, cap) && ExactCounts(counts, order, rows)
    ensures PeakOf(rows, chunks, cap, |chunks|) <= cap <==>
      forall i :: 0 <= i < |chunks| ==> !Overshoots(counts, chunks[i], cap)
  {
    PeakWithin(rows, chunks, cap, |chunks|);
    forall i | 0 <= i < |chunks|
      ensures Held(rows, chunks[i], cap, |chunks[i]|) <= cap <==> !Overshoots(counts, chunks[i], cap)
    {
      ChunkCounts(chunks, order, counts, rows, i);
      ChunkWithinIff(rows, counts, chunks[i], cap);
    }
  }

  /** A scattered file of four rows: with chunkSize 2 the first chunk holds 3. */
  lemma HoldsMoreThanChunkSize(at: string -> StopTime)
    requires forall x :: at(x).tripId == x
    ensures var rows, order := [at("a"), at("b"), at("c"), at("b")], ["a", "b", "c"];
      var chunks, counts := [["a", "b"], ["c"]], map["a" := 1, "b" := 2, "c" := 1];
      && FirstSeen(rows, [], 4) == order && !ScanGrouped(rows, [])
      && ExactCounts(counts, order, rows) && CountChunks(chunks, order, counts, 2) && PeakOf(rows, chunks, 2, 2) == 3
  {
    var rows := [at("a"), at("b"), at("c"), at("b")];
    FourRowsScanned(rows, at);
    FourRows(rows, at, "a");
    FourRows(rows, at, "b");
    FourRows(rows, at, "c");
    FourRowsCut();
    FourRowsHeld(rows);
  }

  lemma FourRowsCut()
    ensures CountChunks([["a", "b"], ["c"]], ["a", "b", "c"], map["a" := 1, "b" := 2, "c" := 1], 2)
  {
    var chunks, counts := [["a", "b"], ["c"]], map["a" := 1, "b" := 2, "c" := 1];
    assert Flatten(chunks, 1) == ["a", "b"];
    assert Flatten(chunks, 2) == ["a", "b", "c"];
    assert Total(counts, chunks[0], 1) == 1;
    assert Total(counts, chunks[0], 2) == 3;
  }

  lemma FourRowsHeld(rows: seq<StopTime>)
    requires |CappedRows(rows, "a", |rows|, 2)| == 1 && |CappedRows(rows, "b", |rows|, 2)| == 2
    requires |CappedRows(rows, "c", |rows|, 2)| == 1
    ensures PeakOf(rows, [["a", "b"], ["c"]], 2, 2) == 3
  {
    var chunks := [["a", "b"], ["c"]];
    assert Held(rows, chunks[0], 2, 1) == 1;
    assert Held(rows, chunks[0], 2, 2) == 3;
    assert Held(rows, chunks[1], 2, 1) == 1;
    assert PeakOf(rows, chunks, 2, 1) == 3;
  }

  lemma FourRows(rows: seq<StopTime>, at: string -> StopTime, id: string)
    requires forall x :: at(x).tripId == x
    requires rows == [at("a"), at("b"), at("c"), at("b")]
    ensures |StopRows(rows, id, 4)| == if id == "b" then 2 else if id == "a" || id == "c" then 1 else 0
    ensures |CappedRows(rows, id, 4, 2)| == |StopRows(rows, id, 4)|
  {
    assert |StopRows(rows, id, 1)| == if id == "a" then 1 else 0;
    assert |StopRows(rows, id, 2)| == if id == "a" || id == "b" then 1 else 0;
    assert |StopRows(rows, id, 3)| == if id == "a" || id == "b" || id == "c" then 1 else 0;
    CappedIsPrefix(rows, id, 4, 2);
  }

  lemma FourRowsScanned(rows: seq<StopTime>, at: string -> StopTime)
    requires forall x :: at(x).tripId == x
    requires rows == [at("a"), at("b"), at("c"), at("b")]
    ensures FirstSeen(rows, [], 4) == ["a", "b", "c"] && !ScanGrouped(rows, [])
  {
    assert FirstSeen(rows, [], 1) == ["a"];
    assert FirstSeen(rows, [], 2) == ["a", "b"];
    assert FirstSeen(rows, [], 3) == ["a", "b", "c"];
    assert ScanAfter(rows, [], 1) == ScanState(map["a" := 1], ["a"], true, "a");
    assert ScanAfter(rows, [], 2) == ScanState(map["a" := 1, "b" := 1], ["a", "b"], true, "b");
    assert ScanAfter(rows, [], 3) == ScanState(map["a" := 1, "b" := 1, "c" := 1], ["a", "b", "c"], true, "c");
  }

  method EmitChunk(cfg: Config, feed: Feed, chunk: seq<string>, tripRows: map<string, seq<Trip>>,
                   stm: map<string, seq<StopTime>>, capped: set<string>) returns (out: seq<TripStopTimes>)
    requires Gathered(stm, capped, feed.stopTimes, chunk, cfg.chunkSize, |feed.stopTimes|)
    requires RowsRead(tripRows, feed.trips, chunk, |feed.trips|)
    ensures out == JoinAll(cfg, feed, chunk, |chunk|)
  {
    out := [];
    for j := 0 to |chunk|
      invariant out == JoinAll(cfg, feed, chunk, j)
    {
      var tid := chunk[j];
      assert Lookup(tripRows, tid) == TripRows(feed.trips, tid, |feed.trips|);
      var items := EmitJoinedTrip(cfg, Lookup(tripRows, tid), Lookup(stm, tid), tid in capped);
      assert items == JoinOne(cfg, feed, tid);
      out := out + items;
    }
  }

  lemma {:induction false} JoinAllConcat(cfg: Config, feed: Feed, a: seq<string>, b: seq<string>, k: nat)
    requires k <= |b|
    ensures JoinAll(cfg, feed, a + b, |a| + k) == JoinAll(cfg, feed, a, |a|) + JoinAll(cfg, feed, b, k)
  {
    if k == 0 {
      JoinAllExtend(cfg, feed, a, b, |a|);
    } else {
      JoinAllConcat(cfg, feed, a, b, k - 1);
    }
  }

  lemma {:induction false} JoinAllExtend(cfg: Config, feed: Feed, a: seq<string>, b: seq<string>, k: nat)
    requires k <= |a|
    ensures JoinAll(cfg, feed, a + b, k) == JoinAll(cfg, feed, a, k)
  {
    if k > 0 { JoinAllExtend(cfg, feed, a, b, k - 1); }
  }

  /** `peak` is the largest number of stop_times any chunk's map has held. */
  method ChunkTripStopTimes(cfg: Config, feed: Feed, order: seq<string>, counts: map<string, nat>)
    returns (out: seq<TripStopTimes>, ghost peak: nat, ghost pieces: seq<seq<string>>)
    requires cfg.chunkSize >= 1
    requires ExactCounts(counts, order, feed.stopTimes)
    ensures out == JoinAll(cfg, feed, order, |order|)
    ensures CountChunks(pieces, order, counts, cfg.chunkSize)
    ensures peak == PeakOf(feed.stopTimes, pieces, cfg.chunkSize, |pieces|) < 2 * cfg.chunkSize
  {
    var chunks := ChunkByCount(order, counts, cfg.chunkSize);
    out, peak, pieces := [], 0, chunks;
    for i := 0 to |chunks|
      invariant out == JoinAll(cfg, feed, Flatten(chunks, i), |Flatten(chunks, i)|)
      invariant peak == PeakOf(feed.stopTimes, chunks, cfg.chunkSize, i) < 2 * cfg.chunkSize
    {
      ghost var held;
      ChunkCounts(chunks, order, counts, feed.stopTimes, i);
      var items;
      items, held := JoinChunk(cfg, feed, chunks[i], counts);
      if peak < held { peak := held; }
      out := out + items;
      JoinNextChunk(cfg, feed, chunks, i);
    }
  }

  lemma JoinNextChunk(cfg: Config, feed: Feed, chunks: seq<seq<string>>, i: nat)
    requires i < |chunks|
    ensures var next := Flatten(chunks, i + 1);
      JoinAll(cfg, feed, next, |next|) ==
      JoinAll(cfg, feed, Flatten(chunks, i), |Flatten(chunks, i)|) + JoinAll(cfg, feed, chunks[i], |chunks[i]|)
  {
    JoinAllConcat(cfg, feed, Flatten(chunks, i), chunks[i], |chunks[i]|);
  }

  /** One chunk's passes over both files; `held` is what its map holds at the end of the first. */
  method JoinChunk(cfg: Config, feed: Feed, chunk: seq<string>, counts: map<string, nat>)
    returns (out: seq<TripStopTimes>, ghost held: nat)
    requires ExactCounts(counts, chunk, feed.stopTimes) && UnderBudget(counts, chunk, cfg.chunkSize)
    ensures out == JoinAll(cfg, feed, chunk, |chunk|)
    ensures held == Held(feed.stopTimes, chunk, cfg.chunkSize, |chunk|) < 2 * cfg.chunkSize
  {
    var stm, capped := GatherChunk(feed.stopTimes, chunk, cfg.chunkSize);
    held := Buffered(stm, chunk, |chunk|);
    ChunkBufferBound(feed.stopTimes, stm, capped, counts, chunk, cfg.chunkSize);
    BufferedIsHeld(feed.stopTimes, stm, capped, chunk, cfg.chunkSize, |chunk|);
    var tripRows := ReadTripsForIds(feed.trips, chunk);
    out := EmitChunk(cfg, feed, chunk, tripRows, stm, capped);
  }

  lemma ChunkCounts(chunks: seq<seq<string>>, order: seq<string>, counts: map<string, nat>, rows: seq<StopTime>,
                    i: nat)
    requires i < |chunks| && Flatten(chunks, |chunks|) == order && ExactCounts(counts, order, rows)
    ensures ExactCounts(counts, chunks[i], rows)
  {
    PieceWithin(chunks, i, |chunks|);
  }
}
