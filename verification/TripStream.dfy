/** The one-pass path of tlcsv/reader.go, and the entry point that chooses between the two paths.

    The streaming pass trusts the scan's flag: it sends a trip at every change of trip_id and walks the
    chunks of the scanned order with a cursor. `StreamGroups` and `EmitFold` say what that does to any
    file at all; `GroupedStreamIsJoin` says when it is the join, and `RunIsJoinIff` when it is not. */
module TripStream {
  import opened Sequences
  import opened TripJoinSpec
  import opened TripJoin

  // ---- Chunks by trip count ----

  function NextCut(order: seq<string>, n: nat, from: nat): (end: nat)
    requires from < |order|
    ensures from < end <= |order|
  {
    var step := if n < 1 then 1 else n;
    if from + step > |order| then |order| else from + step
  }

  /** Pieces of n trips from index `from` on, the last one possibly shorter; a size below 1 counts as 1. */
  function TripChunks(order: seq<string>, n: nat, from: nat): seq<seq<string>>
    requires from <= |order|
    decreases |order| - from
  {
    if from == |order| then [] else
    var end := NextCut(order, n, from);
    [order[from..end]] + TripChunks(order, n, end)
  }

  ghost predicate NonEmptyChunks(chunks: seq<seq<string>>) {
    forall i :: 0 <= i < |chunks| ==> chunks[i] != []
  }

  /** The chunks concatenate back to the order, and none is empty or holds more than n trips. */
  lemma {:induction false} TripChunksParts(order: seq<string>, n: nat, from: nat)
    requires from <= |order|
    ensures var chunks := TripChunks(order, n, from);
      && Flatten(chunks, |chunks|) == order[from..] && NonEmptyChunks(chunks)
      && forall i :: 0 <= i < |chunks| ==> |chunks[i]| <= if n < 1 then 1 else n
    decreases |order| - from
  {
    if from < |order| {
      var end := NextCut(order, n, from);
      var rest := TripChunks(order, n, end);
      TripChunksParts(order, n, end);
      FlattenCons(order[from..end], rest, |rest|);
      assert order[from..end] + order[end..] == order[from..];
    }
  }

  method ChunkByTrips(order: seq<string>, n: nat) returns (chunks: seq<seq<string>>)
    ensures chunks == TripChunks(order, n, 0)
  {
    var step := if n < 1 then 1 else n;
    chunks := [];
    var i := 0;
    while i < |order|
      invariant i >= 0
      invariant chunks + TripChunks(order, n, if i <= |order| then i else |order|) == TripChunks(order, n, 0)
    {
      var end := i + step;
      if end > |order| {
        end := |order|;
      }
      MoveHead(chunks, order[i..end], TripChunks(order, n, end));
      chunks := chunks + [order[i..end]];
      i := i + step;
    }
  }

  // ---- The pass ----

  /** One call of the `emit` closure. */
  datatype Group = Group(id: string, stopTimes: seq<StopTime>, capped: bool)

  /** The captured variables `last`, `sts` and `capped`, and the calls made so far. */
  datatype Pass = Pass(last: string, sts: seq<StopTime>, capped: bool, done: seq<Group>)

  function Current(p: Pass): Group {
    Group(p.last, p.sts, p.capped)
  }

  function PassStep(p: Pass, r: StopTime, cap: nat): Pass {
    var q := if p.last != "" && r.tripId != p.last then Pass(p.last, [], false, p.done + [Current(p)]) else p;
    if |q.sts| >= cap then q.(last := r.tripId, capped := true)
    else q.(last := r.tripId, sts := q.sts + [r])
  }

  function PassAfter(rows: seq<StopTime>, ids: seq<string>, cap: nat, n: nat): Pass
    requires n <= |rows|
  {
    if n == 0 then Pass("", [], false, []) else
    var p := PassAfter(rows, ids, cap, n - 1);
    if Keep(ids, rows[n - 1].tripId) then PassStep(p, rows[n - 1], cap) else p
  }

  function StreamGroups(rows: seq<StopTime>, ids: seq<string>, cap: nat): seq<Group> {
    var p := PassAfter(rows, ids, cap, |rows|);
    if p.last != "" then p.done + [Current(p)] else p.done
  }

  /** The captured variables `ci` and `pi`. Reading past the last chunk is an index-out-of-range panic. */
  datatype Cursor = Cursor(ci: nat, pi: nat, out: seq<TripStopTimes>) | Panicked

  function ChunkRows(trips: seq<Trip>, chunk: seq<string>, id: string): seq<Trip> {
    if id in chunk then TripRows(trips, id, |trips|) else []
  }

  function EmitStep(cfg: Config, trips: seq<Trip>, chunks: seq<seq<string>>, c: Cursor, g: Group): Cursor {
    if c.Panicked? || c.ci >= |chunks| then Panicked else
    var out := c.out + JoinedTrip(cfg, ChunkRows(trips, chunks[c.ci], g.id), g.stopTimes, g.capped);
    if c.pi + 1 == |chunks[c.ci]| then Cursor(c.ci + 1, 0, out) else Cursor(c.ci, c.pi + 1, out)
  }

  function EmitFold(cfg: Config, trips: seq<Trip>, chunks: seq<seq<string>>, groups: seq<Group>, k: nat): Cursor
    requires k <= |groups|
  {
    if k == 0 then Cursor(0, 0, []) else
    EmitStep(cfg, trips, chunks, EmitFold(cfg, trips, chunks, groups, k - 1), groups[k - 1])
  }

  lemma {:induction false} EmitFoldExtend(cfg: Config, trips: seq<Trip>, chunks: seq<seq<string>>,
                                          groups: seq<Group>, g: Group, k: nat)
    requires k <= |groups|
    ensures EmitFold(cfg, trips, chunks, groups + [g], k) == EmitFold(cfg, trips, chunks, groups, k)
  {
    if k > 0 { EmitFoldExtend(cfg, trips, chunks, groups, g, k - 1); }
  }

  lemma EmitFoldSnoc(cfg: Config, trips: seq<Trip>, chunks: seq<seq<string>>, groups: seq<Group>, g: Group)
    ensures EmitFold(cfg, trips, chunks, groups + [g], |groups| + 1) ==
      EmitStep(cfg, trips, chunks, EmitFold(cfg, trips, chunks, groups, |groups|), g)
  {
    EmitFoldExtend(cfg, trips, chunks, groups, g, |groups|);
  }

  /** The closure `emit` with the variables it captures. */
  class Emitter {
    const cfg: Config
    const trips: seq<Trip>
    const chunks: seq<seq<string>>
    var ci: nat
    var pi: nat
    var chunkTrips: map<string, seq<Trip>>
    var out: seq<TripStopTimes>
    var panicked: bool
    ghost var done: seq<Group>

    ghost predicate Loaded() reads this {
      !panicked && pi > 0 ==> (ci < |chunks| && RowsRead(chunkTrips, trips, chunks[ci], |trips|))
    }

    ghost predicate Valid() reads this {
      Loaded() && At() == EmitFold(cfg, trips, chunks, done, |done|)
    }

    function At(): Cursor reads this {
      if panicked then Panicked else Cursor(ci, pi, out)
    }

    constructor (cfg: Config, trips: seq<Trip>, chunks: seq<seq<string>>)
      ensures Valid() && At() == Cursor(0, 0, []) && done == []
      ensures this.cfg == cfg && this.trips == trips && this.chunks == chunks
    {
      this.cfg, this.trips, this.chunks := cfg, trips, chunks;
      ci, pi, chunkTrips, out, panicked, done := 0, 0, map[], [], false, [];
    }

    method Emit(g: Group)
      requires Valid()
      modifies this
      ensures Valid() && done == old(done) + [g]
    {
      EmitFoldSnoc(cfg, trips, chunks, done, g);
      Advance(g);
      done := done + [g];
    }

    method Advance(g: Group)
      requires Loaded()
      modifies this`ci, this`pi, this`chunkTrips, this`out, this`panicked
      ensures Loaded() && At() == EmitStep(cfg, trips, chunks, old(At()), g)
    {
      if panicked || ci >= |chunks| {
        panicked := true;
        return;
      }
      if pi == 0 {
        chunkTrips := ReadTripsForIds(trips, chunks[ci]);
      }
      var items := EmitJoinedTrip(cfg, Lookup(chunkTrips, g.id), g.stopTimes, g.capped);
      out := out + items;
      pi := pi + 1;
      if pi == |chunks[ci]| {
        ci, pi, chunkTrips := ci + 1, 0, map[];
      }
    }
  }

  /** One kept row: the trip before it is sent if its id changes, and the row is held unless the trip is full. */
  method TakeRow(emitter: Emitter, row: StopTime, last: string, sts: seq<StopTime>, capped: bool)
    returns (last': string, sts': seq<StopTime>, capped': bool)
    requires emitter.Valid()
    modifies emitter
    ensures emitter.Valid()
    ensures Pass(last', sts', capped', emitter.done) ==
      PassStep(Pass(last, sts, capped, old(emitter.done)), row, emitter.cfg.chunkSize)
  {
    sts', capped' := sts, capped;
    if last != "" && row.tripId != last {
      emitter.Emit(Group(last, sts, capped));
      sts', capped' := [], false;
    }
    last' := row.tripId;
    if |sts'| >= emitter.cfg.chunkSize {
      capped' := true;
    } else {
      sts' := sts' + [row];
    }
  }

  /** The pass over stop_times.txt. `peak` is the largest number of stop_times the buffer has held. */
  method ReadStopTimes(emitter: Emitter, rows: seq<StopTime>, ids: seq<string>)
    returns (last: string, sts: seq<StopTime>, capped: bool, ghost peak: nat)
    requires emitter.Valid() && emitter.done == []
    modifies emitter
    ensures emitter.Valid() && peak <= emitter.cfg.chunkSize
    ensures Pass(last, sts, capped, emitter.done) == PassAfter(rows, ids, emitter.cfg.chunkSize, |rows|)
  {
    last, sts, capped, peak := "", [], false, 0;
    for i := 0 to |rows|
      invariant emitter.Valid() && |sts| <= peak <= emitter.cfg.chunkSize
      invariant PassedTo(rows, ids, emitter.cfg.chunkSize, i, Pass(last, sts, capped, emitter.done))
    {
      last, sts, capped := ReadRow(emitter, rows, ids, i, last, sts, capped);
      if |sts| > peak { peak := |sts|; }
    }
  }

  method ReadRow(emitter: Emitter, rows: seq<StopTime>, ids: seq<string>, i: nat, last: string, sts: seq<StopTime>,
                 capped: bool) returns (last': string, sts': seq<StopTime>, capped': bool)
    requires emitter.Valid() && i < |rows| && |sts| <= emitter.cfg.chunkSize
    requires PassedTo(rows, ids, emitter.cfg.chunkSize, i, Pass(last, sts, capped, emitter.done))
    modifies emitter
    ensures emitter.Valid() && |sts'| <= emitter.cfg.chunkSize
    ensures PassedTo(rows, ids, emitter.cfg.chunkSize, i + 1, Pass(last', sts', capped', emitter.done))
  {
    last', sts', capped' := last, sts, capped;
    PassNext(rows, ids, emitter.cfg.chunkSize, i, Pass(last, sts, capped, emitter.done));
    if !Keep(ids, rows[i].tripId) {
      return;
    }
    last', sts', capped' := TakeRow(emitter, rows[i], last, sts, capped);
  }

  ghost predicate PassedTo(rows: seq<StopTime>, ids: seq<string>, cap: nat, n: nat, p: Pass)
    requires n <= |rows|
  {
    p == PassAfter(rows, ids, cap, n)
  }

  lemma PassNext(rows: seq<StopTime>, ids: seq<string>, cap: nat, n: nat, p: Pass)
    requires n < |rows| && PassedTo(rows, ids, cap, n, p)
    ensures PassedTo(rows, ids, cap, n + 1, if Keep(ids, rows[n].tripId) then PassStep(p, rows[n], cap) else p)
  {
  }

  method StreamTripStopTimes(cfg: Config, feed: Feed, ids: seq<string>, order: seq<string>)
    returns (end: Cursor, ghost peak: nat)
    ensures var groups := StreamGroups(feed.stopTimes, ids, cfg.chunkSize);
      end == EmitFold(cfg, feed.trips, TripChunks(order, cfg.chunkSize, 0), groups, |groups|)
    ensures peak <= cfg.chunkSize
  {
    var chunks := ChunkByTrips(order, cfg.chunkSize);
    var emitter := new Emitter(cfg, feed.trips, chunks);
    var last, sts, capped;
    last, sts, capped, peak := ReadStopTimes(emitter, feed.stopTimes, ids);
    if last != "" {
      emitter.Emit(Group(last, sts, capped));
    }
    end := emitter.At();
  }

  // ---- What the pass sends when the flag can be trusted ----

  function IdealGroup(rows: seq<StopTime>, cap: nat, n: nat, id: string): Group
    requires n <= |rows|
  {
    Group(id, CappedRows(rows, id, n, cap), |StopRows(rows, id, n)| > cap)
  }

  ghost predicate IdealGroups(groups: seq<Group>, rows: seq<StopTime>, cap: nat, n: nat, order: seq<string>)
    requires n <= |rows|
  {
    |groups| <= |order| && forall k :: 0 <= k < |groups| ==> groups[k] == IdealGroup(rows, cap, n, order[k])
  }

  /** The pass has sent the earlier trips and holds the last one. */
  ghost predicate Holding(rows: seq<StopTime>, ids: seq<string>, cap: nat, n: nat, p: Pass)
    requires n <= |rows|
  {
    var order := FirstSeen(rows, ids, n);
    && p.last == ScanAfter(rows, ids, n).last
    && (order == [] ==> p == Pass("", [], false, []))
    && (order != [] ==>
          (p.last != "" && |order| == |p.done| + 1 && IdealGroups(p.done + [Current(p)], rows, cap, n, order)))
  }

  lemma SameIdeal(rows: seq<StopTime>, cap: nat, n: nat, id: string)
    requires n < |rows| && id != rows[n].tripId
    ensures IdealGroup(rows, cap, n + 1, id) == IdealGroup(rows, cap, n, id)
  {
  }

  lemma SameTrip(rows: seq<StopTime>, ids: seq<string>, cap: nat, n: nat, p: Pass)
    requires n < |rows| && Holding(rows, ids, cap, n, p) && p.last != ""
    requires Keep(ids, rows[n].tripId) && rows[n].tripId == p.last
    ensures Holding(rows, ids, cap, n + 1, PassStep(p, rows[n], cap))
  {
    var order, q := FirstSeen(rows, ids, n), PassStep(p, rows[n], cap);
    assert Current(p) == (p.done + [Current(p)])[|p.done|];
    FirstSeenIds(rows, ids, n);
    CappedIsPrefix(rows, p.last, n, cap);
    assert order[|p.done|] == p.last;
    forall k | 0 <= k < |order| ensures (q.done + [Current(q)])[k] == IdealGroup(rows, cap, n + 1, order[k]) {
      if k < |p.done| {
        assert order[k] != order[|p.done|];
        SameIdeal(rows, cap, n, order[k]);
        assert p.done[k] == (p.done + [Current(p)])[k];
      }
    }
  }

  lemma FirstRowGroup(rows: seq<StopTime>, cap: nat, n: nat, done: seq<Group>)
    requires n < |rows| && !HasId(rows, rows[n].tripId, n)
    ensures Current(PassStep(Pass("", [], false, done), rows[n], cap)) == IdealGroup(rows, cap, n + 1, rows[n].tripId)
  {
    NoStopRows(rows, rows[n].tripId, n);
    CappedIsPrefix(rows, rows[n].tripId, n, cap);
  }

  lemma NextTrip(rows: seq<StopTime>, ids: seq<string>, cap: nat, n: nat, p: Pass)
    requires n < |rows| && Holding(rows, ids, cap, n, p)
    requires Keep(ids, rows[n].tripId) && rows[n].tripId !in FirstSeen(rows, ids, n) && rows[n].tripId != ""
    ensures Holding(rows, ids, cap, n + 1, PassStep(p, rows[n], cap))
  {
    var order, q := FirstSeen(rows, ids, n), PassStep(p, rows[n], cap);
    FirstSeenIds(rows, ids, n);
    FirstRowGroup(rows, cap, n, q.done);
    var sent := if p.last == "" then [] else p.done + [Current(p)];
    assert order != [] ==> order[|p.done|] == (p.done + [Current(p)])[|p.done|].id;
    assert q == PassStep(Pass("", [], false, sent), rows[n], cap);
    forall k | 0 <= k < |order| ensures sent[k] == IdealGroup(rows, cap, n + 1, order[k]) {
      assert order[k] in order;
      SameIdeal(rows, cap, n, order[k]);
    }
  }

  lemma SkippedRow(rows: seq<StopTime>, ids: seq<string>, cap: nat, n: nat, p: Pass)
    requires n < |rows| && Holding(rows, ids, cap, n, p) && !Keep(ids, rows[n].tripId)
    ensures Holding(rows, ids, cap, n + 1, p)
  {
    var order := FirstSeen(rows, ids, n);
    FirstSeenIds(rows, ids, n);
    forall k | 0 <= k < |order| ensures IdealGroup(rows, cap, n + 1, order[k]) == IdealGroup(rows, cap, n, order[k]) {
      assert order[k] in order;
      SameIdeal(rows, cap, n, order[k]);
    }
  }

  /** On a grouped file without empty trip_ids the pass never mixes two trips or splits one. */
  lemma {:induction false} GroupedPass(rows: seq<StopTime>, ids: seq<string>, cap: nat, n: nat)
    requires n <= |rows| && !KeptEmptyId(rows, ids, n) && ScanAfter(rows, ids, n).grouped
    ensures Holding(rows, ids, cap, n, PassAfter(rows, ids, cap, n))
  {
    if n > 0 {
      GroupedPass(rows, ids, cap, n - 1);
      var p, sid := PassAfter(rows, ids, cap, n - 1), rows[n - 1].tripId;
      if !Keep(ids, sid) {
        SkippedRow(rows, ids, cap, n - 1, p);
      } else if sid == p.last {
        SameTrip(rows, ids, cap, n - 1, p);
      } else {
        ScanSeen(rows, ids, n - 1, sid);
        FirstSeenIds(rows, ids, n - 1);
        NextTrip(rows, ids, cap, n - 1, p);
      }
    }
  }

  // ---- The cursor stays on the chunk of the trip being sent ----

  /** Position (ci, pi) in `chunks` after `k` trips were sent. */
  ghost predicate CursorAt(chunks: seq<seq<string>>, k: nat, ci: nat, pi: nat) {
    && ci <= |chunks|
    && (if ci < |chunks| then pi < |chunks[ci]| else pi == 0)
    && k == |Flatten(chunks, ci)| + pi
  }

  lemma CursorNext(chunks: seq<seq<string>>, order: seq<string>, k: nat, ci: nat, pi: nat)
    requires NonEmptyChunks(chunks) && Flatten(chunks, |chunks|) == order && k < |order| && CursorAt(chunks, k, ci, pi)
    ensures ci < |chunks| && pi < |chunks[ci]| && chunks[ci][pi] == order[k] && order[k] in chunks[ci]
    ensures if pi + 1 == |chunks[ci]| then CursorAt(chunks, k + 1, ci + 1, 0) else CursorAt(chunks, k + 1, ci, pi + 1)
  {
    PieceAt(chunks, ci, pi, |chunks|);
  }

  /** Exactly the joined trips of order[..k] were sent. */
  ghost predicate SentUpTo(cfg: Config, feed: Feed, chunks: seq<seq<string>>, order: seq<string>, k: nat, c: Cursor)
    requires k <= |order|
  {
    c.Cursor? && CursorAt(chunks, k, c.ci, c.pi) && c.out == JoinAll(cfg, feed, order, k)
  }

  lemma JoinNext(cfg: Config, feed: Feed, chunk: seq<string>, order: seq<string>, k: nat, g: Group)
    requires k < |order| && order[k] in chunk
    requires g == IdealGroup(feed.stopTimes, cfg.chunkSize, |feed.stopTimes|, order[k])
    ensures JoinAll(cfg, feed, order, k + 1) ==
      JoinAll(cfg, feed, order, k) + JoinedTrip(cfg, ChunkRows(feed.trips, chunk, g.id), g.stopTimes, g.capped)
  {
  }

  lemma EmitNext(cfg: Config, feed: Feed, chunks: seq<seq<string>>, order: seq<string>, k: nat, c: Cursor, g: Group)
    requires NonEmptyChunks(chunks) && Flatten(chunks, |chunks|) == order && k < |order|
    requires SentUpTo(cfg, feed, chunks, order, k, c)
    requires g == IdealGroup(feed.stopTimes, cfg.chunkSize, |feed.stopTimes|, order[k])
    ensures SentUpTo(cfg, feed, chunks, order, k + 1, EmitStep(cfg, feed.trips, chunks, c, g))
  {
    CursorNext(chunks, order, k, c.ci, c.pi);
    JoinNext(cfg, feed, chunks[c.ci], order, k, g);
    SendNext(cfg, feed, chunks, order, k, c, g);
  }

  lemma SendNext(cfg: Config, feed: Feed, chunks: seq<seq<string>>, order: seq<string>, k: nat, c: Cursor, g: Group)
    requires k < |order| && c.Cursor? && c.ci < |chunks|
    requires if c.pi + 1 == |chunks[c.ci]| then CursorAt(chunks, k + 1, c.ci + 1, 0)
             else CursorAt(chunks, k + 1, c.ci, c.pi + 1)
    requires JoinAll(cfg, feed, order, k + 1) ==
      c.out + JoinedTrip(cfg, ChunkRows(feed.trips, chunks[c.ci], g.id), g.stopTimes, g.capped)
    ensures SentUpTo(cfg, feed, chunks, order, k + 1, EmitStep(cfg, feed.trips, chunks, c, g))
  {
  }

  lemma EmitStart(cfg: Config, feed: Feed, chunks: seq<seq<string>>, groups: seq<Group>)
    requires NonEmptyChunks(chunks)
    ensures EmitFold(cfg, feed.trips, chunks, groups, 0) == Cursor(0, 0, []) && CursorAt(chunks, 0, 0, 0)
  {
    if chunks != [] { assert chunks[0] in chunks; }
  }

  lemma {:induction false} EmitIdeal(cfg: Config, feed: Feed, chunks: seq<seq<string>>, order: seq<string>,
                                     groups: seq<Group>, k: nat)
    requires NonEmptyChunks(chunks) && Flatten(chunks, |chunks|) == order && k <= |order| == |groups|
    requires IdealGroups(groups, feed.stopTimes, cfg.chunkSize, |feed.stopTimes|, order)
    ensures SentUpTo(cfg, feed, chunks, order, k, EmitFold(cfg, feed.trips, chunks, groups, k))
  {
    if k == 0 {
      EmitStart(cfg, feed, chunks, groups);
    } else {
      EmitIdeal(cfg, feed, chunks, order, groups, k - 1);
      EmitNext(cfg, feed, chunks, order, k - 1, EmitFold(cfg, feed.trips, chunks, groups, k - 1), groups[k - 1]);
    }
  }

  /** The fast path is the simple join on every grouped file of non-empty trip_ids, however chunked. */
  lemma GroupedStreamIsJoin(cfg: Config, feed: Feed, ids: seq<string>, chunks: seq<seq<string>>)
    requires NonEmptyChunks(chunks) && Flatten(chunks, |chunks|) == OrderOf(feed, ids)
    requires !KeptEmptyId(feed.stopTimes, ids, |feed.stopTimes|) && ScanGrouped(feed.stopTimes, ids)
    ensures var groups, order := StreamGroups(feed.stopTimes, ids, cfg.chunkSize), OrderOf(feed, ids);
      var c := EmitFold(cfg, feed.trips, chunks, groups, |groups|);
      c.Cursor? && c.out == JoinAll(cfg, feed, order, |order|)
  {
    var groups, order := StreamGroups(feed.stopTimes, ids, cfg.chunkSize), OrderOf(feed, ids);
    GroupedPass(feed.stopTimes, ids, cfg.chunkSize, |feed.stopTimes|);
    EmitIdeal(cfg, feed, chunks, order, groups, |order|);
  }

  // ---- The entry point ----

  /** Everything sent on the channel, or the panic that ends the process. */
  datatype Outcome = Sent(out: seq<TripStopTimes>) | Panic

  function Run(cfg: Config, feed: Feed, ids: seq<string>): Outcome {
    var order, groups := OrderOf(feed, ids), StreamGroups(feed.stopTimes, ids, cfg.chunkSize);
    if !ScanGrouped(feed.stopTimes, ids) then Sent(JoinAll(cfg, feed, order, |order|) + Tail(feed, ids)) else
    match EmitFold(cfg, feed.trips, TripChunks(order, cfg.chunkSize, 0), groups, |groups|)
    case Panicked => Panic
    case Cursor(_, _, out) => Sent(out + Tail(feed, ids))
  }

  method EmitTail(trips: seq<Trip>, ids: seq<string>, counts: map<string, nat>) returns (out: seq<TripStopTimes>)
    ensures var left := Leftover(trips, ids, counts.Keys, |trips|); out == Bare(left, 0, |left|)
  {
    out := [];
    for i := 0 to |trips|
      invariant var left := Leftover(trips, ids, counts.Keys, i); out == Bare(left, 0, |left|)
    {
      var t := trips[i];
      if !Keep(ids, t.tripId) || t.tripId in counts {
        continue;
      }
      BareSnoc(Leftover(trips, ids, counts.Keys, i), t, |Leftover(trips, ids, counts.Keys, i)|);
      out := out + [TripStopTimes(true, t, [], false)];
    }
  }

  /** How many rows each trip_id has. */
  function CountsIn(rows: seq<StopTime>, order: seq<string>): map<string, nat> {
    map id | id in order :: |StopRows(rows, id, |rows|)|
  }

  /** `chunkSize` is positive by construction (tlcsv/gtcsv.go:38-42). `peak` is the largest number of stop_times
      held at once, `chunks` the chunks of a file that is not grouped. */
  method TripsWithStopTimes(cfg: Config, feed: Feed, ids: seq<string>)
    returns (sent: Outcome, ghost peak: nat, ghost chunks: seq<seq<string>>)
    requires cfg.chunkSize >= 1
    ensures sent == Run(cfg, feed, ids)
    ensures var order, n := OrderOf(feed, ids), cfg.chunkSize;
      if ScanGrouped(feed.stopTimes, ids) then peak <= n
      else
        && CountChunks(chunks, order, CountsIn(feed.stopTimes, order), n)
        && peak == PeakOf(feed.stopTimes, chunks, n, |chunks|) < 2 * n
  {
    var counts, order, grouped := ScanTripStopTimes(feed.stopTimes, ids);
    var out;
    chunks := [];
    if grouped {
      var end;
      end, peak := StreamTripStopTimes(cfg, feed, ids, order);
      if end.Panicked? {
        return Panic, peak, chunks;
      }
      out := end.out;
    } else {
      assert forall id :: id in order ==> id in IdSet(order);
      assert counts == CountsIn(feed.stopTimes, order);
      out, peak, chunks := ChunkTripStopTimes(cfg, feed, order, counts);
    }
    var tail := EmitTail(feed.trips, ids, counts);
    sent := Sent(out + tail);
  }

  lemma RunIsJoin(cfg: Config, feed: Feed, ids: seq<string>)
    requires cfg.chunkSize >= 1
    requires !KeptEmptyId(feed.stopTimes, ids, |feed.stopTimes|) || !ScanGrouped(feed.stopTimes, ids)
    ensures Run(cfg, feed, ids) == Sent(Join(cfg, feed, ids))
  {
    if ScanGrouped(feed.stopTimes, ids) {
      var order := OrderOf(feed, ids);
      TripChunksParts(order, cfg.chunkSize, 0);
      assert order[0..] == order;
      GroupedStreamIsJoin(cfg, feed, ids, TripChunks(order, cfg.chunkSize, 0));
    }
  }

  /** The promise of the entry point, and exactly when a stop_times.txt file breaks it: the scan takes an
      empty trip_id for "no previous row", so a file holding one may pass as grouped. */
  lemma RunIsJoinIff(cfg: Config, stopTimes: seq<StopTime>, ids: seq<string>)
    requires cfg.chunkSize >= 1
    ensures (forall trips :: Run(cfg, Feed(trips, stopTimes), ids) == Sent(Join(cfg, Feed(trips, stopTimes), ids)))
      <==> !(KeptEmptyId(stopTimes, ids, |stopTimes|) && ScanGrouped(stopTimes, ids))
  {
    if KeptEmptyId(stopTimes, ids, |stopTimes|) && ScanGrouped(stopTimes, ids) {
      EmptyIdLosesTrip(cfg, Feed([Trip("", 0)], stopTimes), ids);
    } else {
      forall trips ensures Run(cfg, Feed(trips, stopTimes), ids) == Sent(Join(cfg, Feed(trips, stopTimes), ids)) {
        RunIsJoin(cfg, Feed(trips, stopTimes), ids);
      }
    }
  }

  ghost predicate NoEmptyTrip(out: seq<TripStopTimes>) {
    forall e :: e in out && e.valid ==> e.trip.tripId != ""
  }

  /** A trip whose id is the empty string is sent by the join, and never by the streaming path. */
  lemma EmptyIdLosesTrip(cfg: Config, feed: Feed, ids: seq<string>)
    requires feed.trips == [Trip("", 0)]
    requires KeptEmptyId(feed.stopTimes, ids, |feed.stopTimes|) && ScanGrouped(feed.stopTimes, ids)
    ensures Run(cfg, feed, ids) != Sent(Join(cfg, feed, ids))
  {
    var order := OrderOf(feed, ids);
    FirstSeenIds(feed.stopTimes, ids, |feed.stopTimes|);
    JoinSendsTrip(cfg, feed, order, |order|);
    var groups := StreamGroups(feed.stopTimes, ids, cfg.chunkSize);
    GroupIdsNonEmpty(feed.stopTimes, ids, cfg.chunkSize, |feed.stopTimes|);
    FoldNoEmptyTrip(cfg, feed.trips, TripChunks(order, cfg.chunkSize, 0), groups, |groups|);
    TailNoEmptyTrip(feed, ids);
    var all := JoinAll(cfg, feed, order, |order|);
    var e :| e in all && e.valid && e.trip.tripId == "";
    assert e in all + Tail(feed, ids);
  }

  lemma TailNoEmptyTrip(feed: Feed, ids: seq<string>)
    requires "" in OrderOf(feed, ids)
    ensures NoEmptyTrip(Tail(feed, ids))
  {
    var seen := IdSet(OrderOf(feed, ids));
    var left := Leftover(feed.trips, ids, seen, |feed.trips|);
    LeftoverIds(feed.trips, ids, seen, |feed.trips|);
    BareItems(left, 0, |left|);
    forall e | e in Tail(feed, ids) ensures e.trip.tripId != "" {
      var i :| 0 <= i < |left| && Bare(left, 0, |left|)[i] == e;
      assert left[i] in left;
    }
  }

  lemma {:induction false} JoinSendsTrip(cfg: Config, feed: Feed, order: seq<string>, k: nat)
    requires feed.trips == [Trip("", 0)] && k <= |order| && exists i :: 0 <= i < k && order[i] == ""
    ensures !NoEmptyTrip(JoinAll(cfg, feed, order, k))
  {
    if order[k - 1] == "" {
      assert TripRows(feed.trips, "", 0) == [];
      assert TripRows(feed.trips, "", 1) == [Trip("", 0)];
      assert JoinOne(cfg, feed, "")[0] in JoinAll(cfg, feed, order, k);
    } else {
      JoinSendsTrip(cfg, feed, order, k - 1);
      var e :| e in JoinAll(cfg, feed, order, k - 1) && e.valid && e.trip.tripId == "";
      assert e in JoinAll(cfg, feed, order, k);
    }
  }

  lemma {:induction false} GroupIdsNonEmpty(rows: seq<StopTime>, ids: seq<string>, cap: nat, n: nat)
    requires n <= |rows|
    ensures forall g :: g in PassAfter(rows, ids, cap, n).done ==> g.id != ""
  {
    if n > 0 { GroupIdsNonEmpty(rows, ids, cap, n - 1); }
  }

  lemma JoinedTripIds(cfg: Config, trips: seq<Trip>, chunk: seq<string>, g: Group)
    requires g.id != ""
    ensures NoEmptyTrip(JoinedTrip(cfg, ChunkRows(trips, chunk, g.id), g.stopTimes, g.capped))
  {
    var rows := ChunkRows(trips, chunk, g.id);
    TripRowsIds(trips, g.id, |trips|);
    if rows != [] {
      BareItems(rows, 1, |rows|);
      forall e | e in Bare(rows, 1, |rows|) ensures e.trip.tripId != "" {
        var i :| 0 <= i < |rows| - 1 && Bare(rows, 1, |rows|)[i] == e;
        assert Bare(rows, 1, |rows|)[(i + 1) - 1].trip == rows[i + 1];
        assert rows[i + 1] in rows;
      }
    }
  }

  lemma {:induction false} FoldNoEmptyTrip(cfg: Config, trips: seq<Trip>, chunks: seq<seq<string>>,
                                           groups: seq<Group>, k: nat)
    requires k <= |groups| && forall g :: g in groups ==> g.id != ""
    ensures var c := EmitFold(cfg, trips, chunks, groups, k); c.Cursor? ==> NoEmptyTrip(c.out)
  {
    if k > 0 {
      FoldNoEmptyTrip(cfg, trips, chunks, groups, k - 1);
      var c := EmitFold(cfg, trips, chunks, groups, k - 1);
      if c.Cursor? && c.ci < |chunks| { JoinedTripIds(cfg, trips, chunks[c.ci], groups[k - 1]); }
    }
  }
}
