/** Journeys that repeat in the trip stream, and what becomes of the stop_times that deduplication skips. */
module Deduplication {
  import opened Sequences
  import opened EntityCopier
  import opened CopyTrace
  import opened CopyPasses
  import TripPatterns

  // ---- Repeated journeys ----

  /** Element `k` makes the journey of an earlier one. */
  ghost predicate RepeatsItem(cfg: Config, items: seq<TripItem>, k: nat)
    requires k < |items|
  {
    HasTimes(items[k]) && exists j :: 0 <= j < k && MakesJourney(cfg, items, j, k)
  }

  ghost predicate MakesJourney(cfg: Config, items: seq<TripItem>, j: nat, k: nat)
    requires j < |items| && k < |items|
  {
    HasTimes(items[j]) && TripPatterns.SameJourney(Timetable(cfg, items[j]), Timetable(cfg, items[k]))
  }

  ghost predicate RepeatItemHasId(cfg: Config, items: seq<TripItem>, n: nat, id: string)
    requires n <= |items|
  {
    exists k :: 0 <= k < n && items[k].trip.id == id && RepeatsItem(cfg, items, k)
  }

  lemma {:induction false} InTimetables(cfg: Config, items: seq<TripItem>, n: nat, t: TripPatterns.Trip)
    requires n <= |items|
    ensures t in Timetables(cfg, items, n) <==>
      exists k :: 0 <= k < n && HasTimes(items[k]) && Timetable(cfg, items[k]) == t
  {
    if n > 0 {
      InTimetables(cfg, items, n - 1, t);
      assert Timetables(cfg, items, n) ==
        Timetables(cfg, items, n - 1) + if HasTimes(items[n - 1]) then [Timetable(cfg, items[n - 1])] else [];
    }
  }

  /** Among the timetables an element repeats a journey exactly if it does among the elements. */
  lemma RepeatsItemIff(cfg: Config, items: seq<TripItem>, n: nat)
    requires n < |items| && HasTimes(items[n])
    ensures var before := Timetables(cfg, items, n);
      TripPatterns.RepeatsEarlier(before + [Timetable(cfg, items[n])], |before|) <==> RepeatsItem(cfg, items, n)
  {
    var before, t := Timetables(cfg, items, n), Timetable(cfg, items[n]);
    if j :| 0 <= j < |before| && TripPatterns.SameJourney((before + [t])[j], t) {
      ItemOf(cfg, items, n, before[j], n);
    }
    if j :| 0 <= j < n && MakesJourney(cfg, items, j, n) {
      InTimetables(cfg, items, n, Timetable(cfg, items[j]));
      var k :| 0 <= k < |before| && before[k] == Timetable(cfg, items[j]);
      assert (before + [t])[k] == before[k];
    }
  }

  lemma ItemOf(cfg: Config, items: seq<TripItem>, n: nat, s: TripPatterns.Trip, k: nat)
    requires n <= |items| && s in Timetables(cfg, items, n) && k < |items|
    requires TripPatterns.SameJourney(s, Timetable(cfg, items[k]))
    ensures exists j :: 0 <= j < n && MakesJourney(cfg, items, j, k)
  {
    InTimetables(cfg, items, n, s);
    var j :| 0 <= j < n && HasTimes(items[j]) && Timetable(cfg, items[j]) == s;
    assert MakesJourney(cfg, items, j, k);
  }

  lemma SkippedItemNext(cfg: Config, items: seq<TripItem>, n: nat, id: string)
    requires n < |items|
    ensures id in TablesAt(cfg, items, n + 1).tripOffsets <==>
      id in TablesAt(cfg, items, n).tripOffsets || (items[n].trip.id == id && RepeatsItem(cfg, items, n))
  {
    if HasTimes(items[n]) {
      var before, t := Timetables(cfg, items, n), Timetable(cfg, items[n]);
      var trips := before + [t];
      assert Timetables(cfg, items, n + 1) == trips && trips[|before|] == t && t.id == items[n].trip.id;
      RepeatsItemIff(cfg, items, n);
      TripPatterns.SkippedNextIff(trips, |before|, id);
      TripPatterns.AfterPrefix(before, [t], |before|);
      assert TablesAt(cfg, items, n + 1) == TripPatterns.After(trips, |before| + 1);
    } else {
      assert Timetables(cfg, items, n + 1) == Timetables(cfg, items, n);
    }
  }

  /** The ids skipped after n elements are those of the repeated journeys among them. */
  lemma {:induction false} SkippedItemsIff(cfg: Config, items: seq<TripItem>, n: nat, id: string)
    requires n <= |items|
    ensures id in TablesAt(cfg, items, n).tripOffsets <==> RepeatItemHasId(cfg, items, n, id)
  {
    if n > 0 {
      SkippedItemsIff(cfg, items, n - 1, id);
      SkippedItemNext(cfg, items, n - 1, id);
      if k :| 0 <= k < n && items[k].trip.id == id && RepeatsItem(cfg, items, k) {
        assert k < n - 1 ==> RepeatItemHasId(cfg, items, n - 1, id);
      }
    }
  }

  // ---- Calls of a completed run ----

  /** A check with the outcome of checkEntity. */
  ghost predicate Fair(cfg: Config, c: Check) {
    exists n: nat :: c.outcome == OutcomeOf(cfg, n, c.ids, c.given)
  }

  /** A call has checked what its input expands to. */
  ghost predicate Ran(cfg: Config, call: Call) {
    && (exists from: nat :: Givens(call.checks) == Expansion(cfg, from, call.input, |call.input|))
    && forall c :: c in call.checks ==> Fair(cfg, c)
  }

  lemma {:induction false} CheckOnTrail(calls: seq<Call>, n: nat, k: nat, c: Check)
    requires k < n <= |calls| && c in calls[k].checks
    ensures c in Trail(calls, n)
  {
    if k < n - 1 { CheckOnTrail(calls, n - 1, k, c); }
  }

  lemma CallRan(cfg: Config, calls: seq<Call>, trail: seq<Check>, k: nat)
    requires Judged(cfg, trail) && AllComplete(cfg, calls) && trail == Trail(calls, |calls|) && k < |calls|
    ensures Ran(cfg, calls[k])
  {
    assert CompleteAt(cfg, calls, k);
    forall c | c in calls[k].checks ensures Fair(cfg, c) {
      CheckOnTrail(calls, |calls|, k, c);
      var n :| 0 <= n < |trail| && trail[n] == c;
      assert c.outcome == OutcomeOf(cfg, n, c.ids, c.given);
    }
  }

  /** The batches of a trip pass, each given by calls of a completed run. */
  ghost predicate TripsRan(cfg: Config, items: seq<TripItem>, batches: seq<Batch>) {
    TripBatches(cfg, items, batches, |items|) && forall k :: 0 <= k < |batches| ==> Ran(cfg, batches[k].first)
  }

  lemma {:induction false} BatchCalled(batches: seq<Batch>, n: nat, k: nat)
    requires k < n <= |batches|
    ensures batches[k].first in CallsOf(batches, n)
  {
    if k < n - 1 { BatchCalled(batches, n - 1, k); }
  }

  lemma {:induction false} RunCalled(runs: seq<PassRun>, n: nat, k: nat, call: Call)
    requires k < n <= |runs| && call in CallsIn(runs[k])
    ensures call in RunCalls(runs, n)
  {
    if k < n - 1 { RunCalled(runs, n - 1, k, call); }
  }

  lemma TripPassRan(cfg: Config, feed: Feed, pass: Pass, run: PassRun)
    requires pass.Trips? && RunsPass(cfg, feed, pass, run)
    ensures run.TripRun? && CallsIn(run) == CallsOf(run.batches, |run.batches|)
    ensures TripBatches(cfg, feed.trips, run.batches, |feed.trips|)
  {
  }

  lemma FirstCallRan(cfg: Config, calls: seq<Call>, trail: seq<Check>, runs: seq<PassRun>, n: nat, t: nat, call: Call)
    requires Judged(cfg, trail) && AllComplete(cfg, calls) && trail == Trail(calls, |calls|)
    requires t < n <= |runs| && RunCalls(runs, n) <= calls && call in CallsIn(runs[t])
    ensures Ran(cfg, call)
  {
    RunCalled(runs, n, t, call);
    var k :| 0 <= k < |RunCalls(runs, n)| && RunCalls(runs, n)[k] == call;
    assert calls[k] == call;
    CallRan(cfg, calls, trail, k);
  }

  /** What is known of a run that ends well is enough for all that follows. */
  lemma CompletedTripsRan(cfg: Config, feed: Feed, calls: seq<Call>, trail: seq<Check>, passes: seq<Pass>,
                          runs: seq<PassRun>, t: nat)
    requires Judged(cfg, trail) && AllComplete(cfg, calls) && trail == Trail(calls, |calls|)
    requires RunsPasses(cfg, feed, passes, runs) && RunCalls(runs, |runs|) <= calls
    requires t < |passes| && passes[t].Trips?
    ensures runs[t].TripRun? && TripsRan(cfg, feed.trips, runs[t].batches)
  {
    TripPassRan(cfg, feed, passes[t], runs[t]);
    var batches := runs[t].batches;
    forall k | 0 <= k < |batches| ensures Ran(cfg, batches[k].first) {
      BatchCalled(batches, |batches|, k);
      FirstCallRan(cfg, calls, trail, runs, |runs|, t, batches[k].first);
    }
  }

  // ---- What is given of a trip ----

  /** The children of an entity stand somewhere in the list. */
  ghost predicate StandsIn(all: seq<Entity>, part: seq<Entity>, p: nat) {
    p + |part| <= |all| && all[p..p + |part|] == part
  }

  lemma StandsAtEnd(all: seq<Entity>, part: seq<Entity>)
    ensures StandsIn(all + part, part, |all|)
  {
  }

  lemma StandsStill(all: seq<Entity>, more: seq<Entity>, part: seq<Entity>, p: nat)
    requires StandsIn(all, part, p)
    ensures StandsIn(all + more, part, p) && StandsIn(more + all, part, |more| + p)
  {
    assert (all + more)[p..p + |part|] == all[p..p + |part|];
    assert (more + all)[|more| + p..|more| + p + |part|] == all[p..p + |part|];
  }

  lemma {:induction false} ChildrenAt(ents: seq<Entity>, n: nat, file: string, skipped: set<string>, k: nat)
    returns (p: nat)
    requires k < n <= |ents| && ents[k].file == file && ents[k].id !in skipped
    ensures StandsIn(ChildrenIn(ents, n, file, skipped), ents[k].children, p)
  {
    var before := ChildrenIn(ents, n - 1, file, skipped);
    if k == n - 1 {
      p := |before|;
      StandsAtEnd(before, ents[k].children);
    } else {
      p := ChildrenAt(ents, n - 1, file, skipped, k);
      StandsStill(before, if ents[n - 1].file == file && ents[n - 1].id !in skipped then ents[n - 1].children else [],
                  ents[k].children, p);
    }
  }

  /** Trips are entities of trips.txt. */
  predicate TripFeed(items: seq<TripItem>) {
    forall k :: 0 <= k < |items| && items[k].valid ==> items[k].trip.file == "trips.txt"
  }

  /** Trips are not expanded, and filters keep the stop_times they carry. */
  ghost predicate LeavesTrips(cfg: Config) {
    && (forall n: nat, e: Entity :: e.file == "trips.txt" ==> cfg.expand(n, e).None?)
    && forall n: nat, e: Entity :: e.file == "trips.txt" && cfg.judge(n, e).filtered.Some? ==>
      cfg.judge(n, e).filtered.value.children == e.children
  }

  /** Element `i` itself is accepted in the batch, not another one of its id. */
  predicate AcceptedItem(cfg: Config, items: seq<TripItem>, b: Batch, i: nat)
    requires i < |items|
  {
    exists c :: c in b.first.checks && c.given == Stamped(cfg, items, i) && c.outcome.Accepted?
  }

  /** The stop_times of element `i` stand in what the second call of the batch is given. */
  ghost predicate TimesGiven(items: seq<TripItem>, b: Batch, i: nat)
    requires i < |items|
  {
    exists p: nat :: StandsIn(b.second.input, items[i].stopTimes, p)
  }

  /** Not one of them is. */
  predicate NoTimeGiven(items: seq<TripItem>, b: Batch, i: nat)
    requires i < |items|
  {
    forall s :: s in items[i].stopTimes ==> s !in b.second.input
  }

  /** No other element holds a stop_time of element `i`. */
  ghost predicate OwnTimes(items: seq<TripItem>, i: nat)
    requires i < |items|
  {
    forall k, s :: 0 <= k < |items| && k != i && s in items[k].stopTimes ==> s !in items[i].stopTimes
  }

  lemma {:induction false} NoExpansion(cfg: Config, from: nat, input: seq<Entity>, n: nat)
    requires n <= |input| && LeavesTrips(cfg) && forall e :: e in input ==> e.file == "trips.txt"
    ensures Expansion(cfg, from, input, n) == input[..n]
  {
    if n > 0 {
      NoExpansion(cfg, from, input, n - 1);
      assert input[n - 1] in input;
    }
  }

  /** A trip of a batch, as it was given. */
  ghost predicate TripOf(cfg: Config, items: seq<TripItem>, b: Batch, k: nat, e: Entity)
    requires k < |items|
  {
    b.lo <= k < b.hi && items[k].valid && e == Stamped(cfg, items, k)
  }

  /** What a batch checks are its trips. */
  lemma CheckedTrip(cfg: Config, items: seq<TripItem>, b: Batch, c: Check) returns (k: nat)
    requires TripBatch(cfg, items, b) && Ran(cfg, b.first) && LeavesTrips(cfg) && TripFeed(items)
    requires c in b.first.checks
    ensures k < |items| && TripOf(cfg, items, b, k, c.given)
  {
    var input := b.first.input;
    forall e | e in input ensures e.file == "trips.txt" { var i := TripAmong(cfg, items, b.lo, b.hi, e); }
    var from: nat :| Givens(b.first.checks) == Expansion(cfg, from, input, |input|);
    NoExpansion(cfg, from, input, |input|);
    var i :| 0 <= i < |b.first.checks| && b.first.checks[i] == c;
    assert Givens(b.first.checks)[i] == c.given;
    k := TripAmong(cfg, items, b.lo, b.hi, c.given);
  }

  /** An accepted trip keeps file, id and stop_times. */
  lemma AcceptedTripCarries(cfg: Config, c: Check)
    requires Fair(cfg, c) && LeavesTrips(cfg) && c.given.file == "trips.txt" && c.outcome.Accepted?
    ensures c.outcome.ent.file == "trips.txt" && c.outcome.ent.id == c.given.id
    ensures c.outcome.ent.children == c.given.children
  {
    var n: nat :| c.outcome == OutcomeOf(cfg, n, c.ids, c.given);
  }

  lemma {:induction false} AcceptedIsDone(checks: seq<Check>, c: Check, n: nat)
    requires n <= |checks| && c in checks[..n] && c.outcome.Accepted?
    ensures c.outcome.ent in AcceptedIn(checks, n)
  {
    if checks[n - 1] != c {
      assert c in checks[..n - 1];
      AcceptedIsDone(checks, c, n - 1);
    }
  }

  lemma {:induction false} ChildOf(ents: seq<Entity>, n: nat, file: string, skipped: set<string>, s: Entity)
    returns (e: Entity)
    requires n <= |ents| && s in ChildrenIn(ents, n, file, skipped)
    ensures e in ents && e.file == file && e.id !in skipped && s in e.children
  {
    if s in ChildrenIn(ents, n - 1, file, skipped) {
      e := ChildOf(ents, n - 1, file, skipped, s);
    } else {
      e := ents[n - 1];
    }
  }

  lemma {:induction false} OrphanOf(items: seq<TripItem>, lo: nat, hi: nat, s: Entity) returns (k: nat)
    requires hi <= |items| && s in OrphansIn(items, lo, hi)
    ensures k < |items| && !items[k].valid && s in items[k].stopTimes
    decreases hi
  {
    if s in OrphansIn(items, lo, hi - 1) { k := OrphanOf(items, lo, hi - 1, s); } else { k := hi - 1; }
  }

  /** The children of an accepted entity that is not skipped are a part of what the second call is given, whatever
      filters have made of them. */
  lemma TimesAreGiven(cfg: Config, items: seq<TripItem>, b: Batch, e: Entity) returns (p: nat)
    requires TripBatch(cfg, items, b) && e in DoneOf(b.first) && e.file == "trips.txt"
    requires e.id !in SkippedAt(cfg, items, b.hi)
    ensures StandsIn(b.second.input, e.children, p)
  {
    var done, skipped := DoneOf(b.first), SkippedAt(cfg, items, b.hi);
    var k :| 0 <= k < |done| && done[k] == e;
    var q := ChildrenAt(done, |done|, "trips.txt", skipped, k);
    StandsStill(Carried(b.first, "trips.txt", skipped), OrphansIn(items, b.lo, b.hi), e.children, q);
    p := |OrphansIn(items, b.lo, b.hi)| + q;
  }

  /** An element whose stop_times are given was accepted, and its id is not skipped. */
  lemma GivenWasAccepted(cfg: Config, items: seq<TripItem>, b: Batch, i: nat, s: Entity)
    requires TripBatch(cfg, items, b) && Ran(cfg, b.first) && LeavesTrips(cfg) && TripFeed(items)
    requires i < |items| && items[i].valid && OwnTimes(items, i)
    requires s in items[i].stopTimes && s in b.second.input
    ensures AcceptedItem(cfg, items, b, i) && items[i].trip.id !in SkippedAt(cfg, items, b.hi)
  {
    if s in OrphansIn(items, b.lo, b.hi) {
      var k := OrphanOf(items, b.lo, b.hi, s);
    } else {
      var done := DoneOf(b.first);
      var e := ChildOf(done, |done|, "trips.txt", SkippedAt(cfg, items, b.hi), s);
      var n := AcceptedFrom(b.first.checks, |b.first.checks|, e);
      var c := b.first.checks[n];
      var k := CheckedTrip(cfg, items, b, c);
      AcceptedTripCarries(cfg, c);
    }
  }

  lemma AcceptedIsGiven(cfg: Config, items: seq<TripItem>, b: Batch, i: nat)
    requires TripBatch(cfg, items, b) && Ran(cfg, b.first) && LeavesTrips(cfg) && TripFeed(items)
    requires i < |items| && items[i].valid && AcceptedItem(cfg, items, b, i)
    requires items[i].trip.id !in SkippedAt(cfg, items, b.hi)
    ensures TimesGiven(items, b, i)
  {
    var c :| c in b.first.checks && c.given == Stamped(cfg, items, i) && c.outcome.Accepted?;
    AcceptedTripCarries(cfg, c);
    assert b.first.checks[..|b.first.checks|] == b.first.checks;
    AcceptedIsDone(b.first.checks, c, |b.first.checks|);
    var p := TimesAreGiven(cfg, items, b, c.outcome.ent);
  }

  /** The stop_times of a trip are given, all of them and in order, exactly if the trip was accepted and no trip read
      by then repeats a journey under its id; otherwise none of them is. */
  lemma TimesGivenIff(cfg: Config, items: seq<TripItem>, b: Batch, i: nat)
    requires TripBatch(cfg, items, b) && Ran(cfg, b.first) && LeavesTrips(cfg) && TripFeed(items)
    requires i < |items| && HasTimes(items[i]) && OwnTimes(items, i)
    ensures TimesGiven(items, b, i) <==>
      AcceptedItem(cfg, items, b, i) &&
      !(cfg.options.deduplicateJourneyPatterns && RepeatItemHasId(cfg, items, b.hi, items[i].trip.id))
    ensures TimesGiven(items, b, i) || NoTimeGiven(items, b, i)
  {
    var id := items[i].trip.id;
    SkippedItemsIff(cfg, items, b.hi, id);
    if s :| s in items[i].stopTimes && s in b.second.input { GivenWasAccepted(cfg, items, b, i, s); }
    if p: nat :| StandsIn(b.second.input, items[i].stopTimes, p) {
      StandsMember(b.second.input, items[i].stopTimes, p);
    }
    if AcceptedItem(cfg, items, b, i) && id !in SkippedAt(cfg, items, b.hi) { AcceptedIsGiven(cfg, items, b, i); }
  }

  lemma StandsMember(all: seq<Entity>, part: seq<Entity>, p: nat)
    requires StandsIn(all, part, p) && part != []
    ensures part[0] in part && part[0] in all
  {
    assert all[p..p + |part|][0] == all[p];
  }

  // ---- When deduplication loses stop_times ----

  /** No other element with stop_times has this id. */
  ghost predicate OwnId(items: seq<TripItem>, i: nat)
    requires i < |items|
  {
    forall k :: 0 <= k < |items| && k != i && HasTimes(items[k]) ==> items[k].trip.id != items[i].trip.id
  }

  /** Element `j` is the first to make the journey of element `i`. */
  ghost predicate FirstOfJourney(cfg: Config, items: seq<TripItem>, j: nat, i: nat)
    requires j <= i < |items|
  {
    && HasTimes(items[j]) && HasTimes(items[i]) && !RepeatsItem(cfg, items, j)
    && (j == i || MakesJourney(cfg, items, j, i))
  }

  lemma OwnSkipIff(cfg: Config, items: seq<TripItem>, i: nat, n: nat)
    requires i < n <= |items| && HasTimes(items[i]) && OwnId(items, i)
    ensures RepeatItemHasId(cfg, items, n, items[i].trip.id) <==> RepeatsItem(cfg, items, i)
  {
  }

  /** The stream keeps each trip with stop_times apart from the others. */
  ghost predicate Apart(items: seq<TripItem>) {
    forall i :: 0 <= i < |items| && HasTimes(items[i]) ==> OwnId(items, i) && OwnTimes(items, i)
  }

  ghost predicate InBatch(batches: seq<Batch>, b: nat, i: nat) {
    b < |batches| && batches[b].lo <= i < batches[b].hi
  }

  lemma OwnTimesGivenIff(cfg: Config, items: seq<TripItem>, batches: seq<Batch>, i: nat, b: nat)
    requires TripsRan(cfg, items, batches) && LeavesTrips(cfg) && TripFeed(items) && Apart(items)
    requires i < |items| && HasTimes(items[i]) && InBatch(batches, b, i)
    ensures TimesGiven(items, batches[b], i) <==>
      AcceptedItem(cfg, items, batches[b], i) && !(cfg.options.deduplicateJourneyPatterns && RepeatsItem(cfg, items, i))
    ensures TimesGiven(items, batches[b], i) || NoTimeGiven(items, batches[b], i)
  {
    assert TripBatch(cfg, items, batches[b]);
    TimesGivenIff(cfg, items, batches[b], i);
    OwnSkipIff(cfg, items, i, batches[b].hi);
  }

  /** With deduplication on, the stop_times of an accepted trip, or those of the first trip of its journey, are given to
      copyEntities exactly if that first trip was accepted too: its journey is registered before it is checked. If it
      was not, none of either is given. */
  lemma DeduplicationIsLosslessIff(cfg: Config, items: seq<TripItem>, batches: seq<Batch>, i: nat, j: nat, b: nat,
                                   a: nat)
    requires TripsRan(cfg, items, batches) && LeavesTrips(cfg) && TripFeed(items) && Apart(items)
    requires cfg.options.deduplicateJourneyPatterns && j <= i < |items| && FirstOfJourney(cfg, items, j, i)
    requires InBatch(batches, b, i) && InBatch(batches, a, j) && AcceptedItem(cfg, items, batches[b], i)
    ensures TimesGiven(items, batches[b], i) || TimesGiven(items, batches[a], j) <==>
      AcceptedItem(cfg, items, batches[a], j)
    ensures !AcceptedItem(cfg, items, batches[a], j) ==>
      NoTimeGiven(items, batches[b], i) && NoTimeGiven(items, batches[a], j)
  {
    OwnTimesGivenIff(cfg, items, batches, i, b);
    OwnTimesGivenIff(cfg, items, batches, j, a);
    if j == i { SameBatch(batches, |items|, i, a, b); } else { assert RepeatsItem(cfg, items, i); }
  }

  // ---- What is given restores what is skipped ----

  /** The pattern a trip is written with. */
  function PatternOf(cfg: Config, items: seq<TripItem>, i: nat): TripPatterns.Assigned
    requires i < |items| && HasTimes(items[i])
  {
    Stamped(cfg, items, i).pattern.value
  }

  lemma TimetablesStep(cfg: Config, items: seq<TripItem>, n: nat)
    requires n < |items|
    ensures Timetables(cfg, items, n) <= Timetables(cfg, items, n + 1)
  {
    TimetablesNext(cfg, items, n);
  }

  lemma PrefixOf(a: seq<TripPatterns.Trip>, b: seq<TripPatterns.Trip>, c: seq<TripPatterns.Trip>)
    requires a <= b <= c
    ensures a <= c
  {
  }

  lemma {:induction false} TimetablesGrow(cfg: Config, items: seq<TripItem>, k: nat, n: nat)
    requires k <= n <= |items|
    ensures Timetables(cfg, items, k) <= Timetables(cfg, items, n)
  {
    if k < n {
      TimetablesGrow(cfg, items, k, n - 1);
      TimetablesStep(cfg, items, n - 1);
      PrefixOf(Timetables(cfg, items, k), Timetables(cfg, items, n - 1), Timetables(cfg, items, n));
    }
  }

  /** The timetable of an element stands where those before it end. */
  lemma TimetableAt(cfg: Config, items: seq<TripItem>, k: nat, n: nat)
    requires k < n <= |items| && HasTimes(items[k])
    ensures var j, all := |Timetables(cfg, items, k)|, Timetables(cfg, items, n);
      j < |all| && all[j] == Timetable(cfg, items[k])
  {
    TimetablesNext(cfg, items, k);
    TimetablesGrow(cfg, items, k + 1, n);
  }

  lemma {:induction false} ElementAt(cfg: Config, items: seq<TripItem>, n: nat, j: nat) returns (k: nat)
    requires n <= |items| && j < |Timetables(cfg, items, n)|
    ensures k < n && HasTimes(items[k]) && |Timetables(cfg, items, k)| == j
    ensures Timetables(cfg, items, n)[j] == Timetable(cfg, items[k])
  {
    TimetablesNext(cfg, items, n - 1);
    if j < |Timetables(cfg, items, n - 1)| { k := ElementAt(cfg, items, n - 1, j); } else { k := n - 1; }
  }

  /** An element whose timetable is the first of its journey repeats none. */
  lemma FirstRepeatsNone(cfg: Config, items: seq<TripItem>, trips: seq<TripPatterns.Trip>, n: nat, k: nat)
    requires k < n <= |items| && Timetables(cfg, items, n) <= trips && HasTimes(items[k])
    requires TripPatterns.FirstOf(trips, |Timetables(cfg, items, k)|)
    ensures !RepeatsItem(cfg, items, k)
  {
    TimetableAt(cfg, items, k, n);
    forall l | 0 <= l < k ensures !MakesJourney(cfg, items, l, k) {
      if HasTimes(items[l]) {
        TimetableAt(cfg, items, l, k);
        TimetableAt(cfg, items, l, n);
        assert !TripPatterns.SameJourney(trips[|Timetables(cfg, items, l)|], trips[|Timetables(cfg, items, k)|]);
      }
    }
  }

  /** The table entry a repeat finds is that of the first element of its journey. */
  lemma PatternElement(cfg: Config, items: seq<TripItem>, i: nat) returns (j: nat)
    requires i < |items| && RepeatsItem(cfg, items, i)
    ensures j < i && FirstOfJourney(cfg, items, j, i) && Restores(cfg, items, j, i)
  {
    var before, t := Timetables(cfg, items, i), Timetable(cfg, items[i]);
    var trips := before + [t];
    RepeatsItemIff(cfg, items, i);
    TripPatterns.AfterPrefix(before, [t], |before|);
    TripPatterns.RepeatsIff(trips, |before|);
    var m := TripPatterns.PatternTrip(trips, |before|);
    j := ElementAt(cfg, items, i, m);
    FirstRepeatsNone(cfg, items, trips, i, j);
    assert MakesJourney(cfg, items, j, i);
    assert PatternOf(cfg, items, i) == TripPatterns.Given(trips, |before|);
  }

  /** The pattern of element `i` names element `j`, whose timetable it is, shifted: the arrivals by the recorded offset,
      the departures by the difference of the first ones. */
  predicate Restores(cfg: Config, items: seq<TripItem>, j: nat, i: nat)
    requires i < |items| && j < |items| && HasTimes(items[i]) && HasTimes(items[j])
  {
    var p, t, pattern := Timetable(cfg, items[j]), Timetable(cfg, items[i]), PatternOf(cfg, items, i);
    && pattern.journey == items[j].trip.id
    && pattern.offset == t.stopTimes[0].arrival - p.stopTimes[0].arrival
    && TripPatterns.Shifted(p, t, pattern.offset, t.stopTimes[0].departure - p.stopTimes[0].departure)
  }

  lemma FirstRestoresItself(cfg: Config, items: seq<TripItem>, i: nat)
    requires i < |items| && HasTimes(items[i]) && !RepeatsItem(cfg, items, i)
    ensures Restores(cfg, items, i, i)
  {
    var before, t := Timetables(cfg, items, i), Timetable(cfg, items[i]);
    RepeatsItemIff(cfg, items, i);
    TripPatterns.AfterPrefix(before, [t], |before|);
    TripPatterns.RepeatsIff(before + [t], |before|);
  }

  lemma OneFirst(cfg: Config, items: seq<TripItem>, j: nat, k: nat, i: nat)
    requires j <= i && k <= i < |items| && FirstOfJourney(cfg, items, j, i) && FirstOfJourney(cfg, items, k, i)
    ensures j == k
  {
    assert j < k ==> MakesJourney(cfg, items, j, k);
    assert k < j ==> MakesJourney(cfg, items, k, j);
  }

  /** Every trip with stop_times has a first trip of its journey. */
  lemma FirstElement(cfg: Config, items: seq<TripItem>, i: nat) returns (j: nat)
    requires i < |items| && HasTimes(items[i])
    ensures j <= i && FirstOfJourney(cfg, items, j, i) && Restores(cfg, items, j, i)
  {
    if RepeatsItem(cfg, items, i) {
      j := PatternElement(cfg, items, i);
    } else {
      j := i;
      FirstRestoresItself(cfg, items, i);
    }
  }

  ghost predicate GivenInBatch(items: seq<TripItem>, batches: seq<Batch>, k: nat)
    requires k < |items|
  {
    exists m: nat :: InBatch(batches, m, k) && TimesGiven(items, batches[m], k)
  }

  lemma FirstIsGivenIff(cfg: Config, items: seq<TripItem>, batches: seq<Batch>, j: nat, a: nat)
    requires TripsRan(cfg, items, batches) && LeavesTrips(cfg) && TripFeed(items) && Apart(items)
    requires j < |items| && HasTimes(items[j]) && !RepeatsItem(cfg, items, j) && InBatch(batches, a, j)
    ensures GivenInBatch(items, batches, j) <==> AcceptedItem(cfg, items, batches[a], j)
  {
    OwnTimesGivenIff(cfg, items, batches, j, a);
    if m: nat :| InBatch(batches, m, j) && TimesGiven(items, batches[m], j) { SameBatch(batches, |items|, j, a, m); }
  }

  /** Element `k` is the one that the pattern of element `i` names, its stop_times are given in a batch, and they are
      those of `i` if shifted by the recorded offset, departures by `dep`. */
  ghost predicate Recovers(cfg: Config, items: seq<TripItem>, batches: seq<Batch>, k: nat, i: nat, dep: int)
    requires i < |items| && HasTimes(items[i])
  {
    && k < |items| && HasTimes(items[k]) && items[k].trip.id == PatternOf(cfg, items, i).journey
    && GivenInBatch(items, batches, k)
    && TripPatterns.Shifted(Timetable(cfg, items[k]), Timetable(cfg, items[i]), PatternOf(cfg, items, i).offset, dep)
  }

  predicate SameFirstDwell(p: TripPatterns.Trip, t: TripPatterns.Trip)
    requires p.stopTimes != [] && t.stopTimes != []
  {
    t.stopTimes[0].departure - t.stopTimes[0].arrival == p.stopTimes[0].departure - p.stopTimes[0].arrival
  }

  /** Only one shift of the departures is possible. */
  lemma ShiftIs(p: TripPatterns.Trip, t: TripPatterns.Trip, offset: int, dep: int)
    requires p.stopTimes != [] && TripPatterns.Shifted(p, t, offset, dep)
    ensures t.stopTimes != [] && dep == t.stopTimes[0].departure - p.stopTimes[0].departure
  {
    assert TripPatterns.ShiftedStop(p.stopTimes[0], t.stopTimes[0], offset, dep);
  }

  /** The element that recovers a trip is the first of its journey, and was accepted. */
  lemma RecoveredByFirst(cfg: Config, items: seq<TripItem>, batches: seq<Batch>, i: nat, j: nat, a: nat, k: nat,
                         dep: int)
    requires TripsRan(cfg, items, batches) && LeavesTrips(cfg) && TripFeed(items) && Apart(items)
    requires j <= i < |items| && FirstOfJourney(cfg, items, j, i) && InBatch(batches, a, j)
    requires Restores(cfg, items, j, i) && Recovers(cfg, items, batches, k, i, dep)
    ensures k == j && AcceptedItem(cfg, items, batches[a], j)
  {
    assert OwnId(items, j);
    FirstIsGivenIff(cfg, items, batches, j, a);
  }

  function FirstDepartureShift(cfg: Config, items: seq<TripItem>, j: nat, i: nat): int
    requires i < |items| && j < |items| && HasTimes(items[i]) && HasTimes(items[j])
  {
    Timetable(cfg, items[i]).stopTimes[0].departure - Timetable(cfg, items[j]).stopTimes[0].departure
  }

  lemma FirstRecovers(cfg: Config, items: seq<TripItem>, batches: seq<Batch>, i: nat, j: nat)
    requires i < |items| && j < |items| && HasTimes(items[i]) && HasTimes(items[j])
    requires Restores(cfg, items, j, i) && GivenInBatch(items, batches, j)
    ensures Recovers(cfg, items, batches, j, i, FirstDepartureShift(cfg, items, j, i))
  {
  }

  /** The shift that recovers the departures is the offset exactly if the first dwells agree. */
  lemma OffsetIsShiftIff(cfg: Config, items: seq<TripItem>, batches: seq<Batch>, j: nat, i: nat, dep: int)
    requires i < |items| && HasTimes(items[i]) && j < |items| && HasTimes(items[j]) && Restores(cfg, items, j, i)
    requires Recovers(cfg, items, batches, j, i, dep)
    ensures dep == FirstDepartureShift(cfg, items, j, i)
    ensures dep == PatternOf(cfg, items, i).offset <==>
      SameFirstDwell(Timetable(cfg, items[j]), Timetable(cfg, items[i]))
  {
    ShiftIs(Timetable(cfg, items[j]), Timetable(cfg, items[i]), PatternOf(cfg, items, i).offset, dep);
  }

  /** Of a trip with stop_times, whether its own are given or skipped, everything can be recovered from what is given:
      its stops and arrivals exactly if the first trip of its journey was accepted, and by the recorded offset alone its
      departures too exactly if, besides, the two dwell equally long at the first stop. */
  lemma TripIsRecoveredIff(cfg: Config, items: seq<TripItem>, batches: seq<Batch>, i: nat, j: nat, a: nat)
    requires TripsRan(cfg, items, batches) && LeavesTrips(cfg) && TripFeed(items) && Apart(items)
    requires j <= i < |items| && FirstOfJourney(cfg, items, j, i) && InBatch(batches, a, j)
    ensures (exists k: nat, dep :: Recovers(cfg, items, batches, k, i, dep)) <==>
      AcceptedItem(cfg, items, batches[a], j)
    ensures (exists k: nat :: Recovers(cfg, items, batches, k, i, PatternOf(cfg, items, i).offset)) <==>
      AcceptedItem(cfg, items, batches[a], j) && SameFirstDwell(Timetable(cfg, items[j]), Timetable(cfg, items[i]))
  {
    var offset, shift := PatternOf(cfg, items, i).offset, FirstDepartureShift(cfg, items, j, i);
    var first := FirstElement(cfg, items, i);
    OneFirst(cfg, items, first, j, i);
    if AcceptedItem(cfg, items, batches[a], j) {
      FirstIsGivenIff(cfg, items, batches, j, a);
      FirstRecovers(cfg, items, batches, i, j);
      OffsetIsShiftIff(cfg, items, batches, j, i, shift);
    }
    forall k: nat, dep | Recovers(cfg, items, batches, k, i, dep)
      ensures k == j && AcceptedItem(cfg, items, batches[a], j) && dep == shift
    {
      RecoveredByFirst(cfg, items, batches, i, j, a, k, dep);
      OffsetIsShiftIff(cfg, items, batches, j, i, dep);
    }
  }

  lemma {:induction false} SameBatch(batches: seq<Batch>, n: nat, i: nat, a: nat, b: nat)
    requires Cuts(batches, n) && a < |batches| && b < |batches|
    requires batches[a].lo <= i < batches[a].hi && batches[b].lo <= i < batches[b].hi
    ensures a == b
  {
    if a < b { LaterBatch(batches, n, a, b); }
    if b < a { LaterBatch(batches, n, b, a); }
  }

  lemma {:induction false} LaterBatch(batches: seq<Batch>, n: nat, a: nat, b: nat)
    requires Cuts(batches, n) && a < b < |batches|
    ensures batches[a].hi <= batches[b].lo
  {
    assert Follows(batches, b);
    if a < b - 1 {
      LaterBatch(batches, n, a, b - 1);
      assert Follows(batches, b - 1);
    }
  }
}
