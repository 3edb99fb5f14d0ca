/** The stop_times check of rules/stop_time_sequence.go: it compares each stop_time with what it remembers of the
    ones before, and thereby orders the whole trip. */
module StopTimeSequence {
  import opened Sequences

  /** A missing time counts as 0. Sequences compare as stored, so a missing one differs from 0. */
  datatype StopTime = StopTime(sequence: Option<int>, arrival: int, departure: int, windowStart: Option<int>,
                               windowEnd: Option<int>, distance: Option<real>)

  datatype Error = EmptyTrip(count: nat) | ArrivalMissing | SequenceRepeats(sequence: Option<int>)
                 | ArrivesEarly(arrival: int) | DepartsEarly(departure: int) | DistanceDrops(distance: real)

  predicate HasTimeWindow(st: StopTime) {
    (st.windowStart.Some? && st.windowStart.value > 0) || (st.windowEnd.Some? && st.windowEnd.value > 0)
  }

  // ---- What is remembered, and what it is compared with ----

  datatype Memory = Memory(sequence: Option<int>, time: int, distance: Option<real>)

  /** The time a stop_time leaves behind, 0 for none. */
  function TimeLeft(st: StopTime): int {
    if HasTimeWindow(st) then 0
    else if st.departure > 0 then st.departure
    else if st.arrival > 0 then st.arrival
    else 0
  }

  function Remember(m: Memory, st: StopTime): Memory {
    Memory(st.sequence, if TimeLeft(st) > 0 then TimeLeft(st) else m.time,
           if st.distance.Some? then st.distance else m.distance)
  }

  /** What is remembered of the first n stop_times. The first one leaves its departure, flexible or not. */
  function MemoryAfter(sts: seq<StopTime>, n: nat): Memory
    requires 0 < n <= |sts|
  {
    if n == 1 then Memory(sts[0].sequence, sts[0].departure, sts[0].distance)
    else Remember(MemoryAfter(sts, n - 1), sts[n - 1])
  }

  function ErrorsOf(m: Memory, st: StopTime): seq<Error> {
    (if st.sequence == m.sequence then [SequenceRepeats(st.sequence)] else []) +
    (if !HasTimeWindow(st) && st.arrival > 0 && m.time > 0 && st.arrival < m.time
     then [ArrivesEarly(st.arrival)] else []) +
    (if !HasTimeWindow(st) && st.departure > 0 && st.arrival > 0 && st.departure < st.arrival
     then [DepartsEarly(st.departure)] else []) +
    (if st.distance.Some? && m.distance.Some? && st.distance.value < m.distance.value
     then [DistanceDrops(st.distance.value)] else [])
  }

  function StepErrors(sts: seq<StopTime>, n: nat): seq<Error>
    requires 0 < n <= |sts|
  {
    if n == 1 then [] else StepErrors(sts, n - 1) + ErrorsOf(MemoryAfter(sts, n - 1), sts[n - 1])
  }

  function Errors(sts: seq<StopTime>): seq<Error> {
    if sts == [] then [EmptyTrip(0)]
    else
      var last := sts[|sts| - 1];
      (if |sts| < 2 then [EmptyTrip(|sts|)] else []) +
      (if last.arrival <= 0 && !HasTimeWindow(last) then [ArrivalMissing] else []) + StepErrors(sts, |sts|)
  }

  // ---- The code ----

  method ValidateStopTimes(stoptimes: seq<StopTime>) returns (errs: seq<Error>)
    ensures errs == Errors(stoptimes)
  {
    errs := [];
    if |stoptimes| == 0 {
      return [EmptyTrip(0)];
    }
    if |stoptimes| < 2 {
      errs := errs + [EmptyTrip(|stoptimes|)];
    }
    var lastSt := stoptimes[|stoptimes| - 1];
    if lastSt.arrival <= 0 && !HasTimeWindow(lastSt) {
      errs := errs + [ArrivalMissing];
    }
    var more := CheckSteps(stoptimes);
    errs := errs + more;
  }

  /** The loop over the stop_times after the first. */
  method CheckSteps(stoptimes: seq<StopTime>) returns (errs: seq<Error>)
    requires stoptimes != []
    ensures errs == StepErrors(stoptimes, |stoptimes|)
  {
    errs := [];
    var lastDist := stoptimes[0].distance;
    var lastScheduledTime := stoptimes[0].departure;
    var lastSequence := stoptimes[0].sequence;
    for i := 1 to |stoptimes|
      invariant errs == StepErrors(stoptimes, i)
      invariant Memory(lastSequence, lastScheduledTime, lastDist) == MemoryAfter(stoptimes, i)
    {
      var more;
      more, lastSequence, lastScheduledTime, lastDist :=
        CheckNext(stoptimes[i], lastSequence, lastScheduledTime, lastDist);
      errs := errs + more;
    }
  }

  /** One round of the loop. */
  method CheckNext(st: StopTime, lastSequence: Option<int>, lastTime: int, lastDist: Option<real>)
    returns (errs: seq<Error>, sequence: Option<int>, time: int, dist: Option<real>)
    ensures errs == ErrorsOf(Memory(lastSequence, lastTime, lastDist), st)
    ensures Memory(sequence, time, dist) == Remember(Memory(lastSequence, lastTime, lastDist), st)
  {
    errs, sequence, time, dist := [], lastSequence, lastTime, lastDist;
    if st.sequence == sequence {
      errs := errs + [SequenceRepeats(st.sequence)];
    } else {
      sequence := st.sequence;
    }
    if !HasTimeWindow(st) {
      if st.arrival > 0 && time > 0 && st.arrival < time {
        errs := errs + [ArrivesEarly(st.arrival)];
      }
      if st.departure > 0 && st.arrival > 0 && st.departure < st.arrival {
        errs := errs + [DepartsEarly(st.departure)];
      }
      if st.departure > 0 {
        time := st.departure;
      } else if st.arrival > 0 {
        time := st.arrival;
      }
    }
    if st.distance.Some? && dist.Some? && st.distance.value < dist.value {
      errs := errs + [DistanceDrops(st.distance.value)];
    }
    if st.distance.Some? {
      dist := st.distance;
    }
  }

  // ---- What a trip without errors is like ----

  predicate Passes(sts: seq<StopTime>) {
    Errors(sts) == []
  }

  lemma {:induction false} EachStepPasses(sts: seq<StopTime>, k: nat, n: nat)
    requires 0 < k < n <= |sts| && StepErrors(sts, n) == []
    ensures ErrorsOf(MemoryAfter(sts, k), sts[k]) == []
  {
    if k < n - 1 { EachStepPasses(sts, k, n - 1); }
  }

  function Seq(st: StopTime): int {
    if st.sequence.Some? then st.sequence.value else 0
  }

  predicate SortedBySequence(sts: seq<StopTime>) {
    forall i, j :: 0 <= i < j < |sts| ==> Seq(sts[i]) <= Seq(sts[j])
  }

  predicate Increases(sts: seq<StopTime>, i: nat)
    requires 0 < i < |sts|
  {
    Seq(sts[i - 1]) < Seq(sts[i])
  }

  /** A missing sequence beside a stored 0. */
  predicate MissingBesideZero(sts: seq<StopTime>, i: nat)
    requires 0 < i < |sts|
  {
    Seq(sts[i - 1]) == 0 && Seq(sts[i]) == 0 && sts[i - 1].sequence != sts[i].sequence
  }

  lemma MemorySequence(sts: seq<StopTime>, n: nat)
    requires 0 < n <= |sts|
    ensures MemoryAfter(sts, n).sequence == sts[n - 1].sequence
  {
  }

  lemma NeighboursIncreaseIff(sts: seq<StopTime>, i: nat)
    requires Passes(sts) && SortedBySequence(sts) && 0 < i < |sts|
    ensures Increases(sts, i) <==> !MissingBesideZero(sts, i)
  {
    EachStepPasses(sts, i, |sts|);
    MemorySequence(sts, i);
  }

  lemma {:induction false} IncreasesTo(sts: seq<StopTime>, i: nat, j: nat)
    requires i < j < |sts| && forall k :: 0 < k < |sts| ==> Increases(sts, k)
    ensures Seq(sts[i]) < Seq(sts[j])
  {
    assert Increases(sts, j);
    if i < j - 1 { IncreasesTo(sts, i, j - 1); }
  }

  predicate StrictlyIncreasing(sts: seq<StopTime>) {
    forall i, j :: 0 <= i < j < |sts| ==> Seq(sts[i]) < Seq(sts[j])
  }

  /** The sequences of a sorted trip that passes increase strictly, unless a missing one stands beside a 0. */
  lemma SequencesIncreaseIff(sts: seq<StopTime>)
    requires Passes(sts) && SortedBySequence(sts)
    ensures StrictlyIncreasing(sts) <==> forall i :: 0 < i < |sts| ==> !MissingBesideZero(sts, i)
  {
    forall i | 0 < i < |sts| ensures Increases(sts, i) <==> !MissingBesideZero(sts, i) {
      NeighboursIncreaseIff(sts, i);
    }
    if forall i :: 0 < i < |sts| ==> !MissingBesideZero(sts, i) {
      forall i, j | 0 <= i < j < |sts| ensures Seq(sts[i]) < Seq(sts[j]) { IncreasesTo(sts, i, j); }
    }
    if StrictlyIncreasing(sts) {
      forall i | 0 < i < |sts| ensures !MissingBesideZero(sts, i) { assert Seq(sts[i - 1]) < Seq(sts[i]); }
    }
  }

  /** The remembered distance is at least every distance so far. */
  lemma {:induction false} DistanceRemembered(sts: seq<StopTime>, i: nat, n: nat)
    requires i < n <= |sts| && StepErrors(sts, n) == [] && sts[i].distance.Some?
    ensures MemoryAfter(sts, n).distance.Some? && sts[i].distance.value <= MemoryAfter(sts, n).distance.value
  {
    if i < n - 1 { DistanceRemembered(sts, i, n - 1); }
  }

  /** All valid distances of a trip that passes are in order, however many are missing between them. */
  lemma DistancesInOrder(sts: seq<StopTime>, i: nat, j: nat)
    requires Passes(sts) && i < j < |sts| && sts[i].distance.Some? && sts[j].distance.Some?
    ensures sts[i].distance.value <= sts[j].distance.value
  {
    EachStepPasses(sts, j, |sts|);
    StepsPass(sts, j, |sts|);
    DistanceRemembered(sts, i, j);
  }

  lemma {:induction false} StepsPass(sts: seq<StopTime>, k: nat, n: nat)
    requires 0 < k <= n <= |sts| && StepErrors(sts, n) == []
    ensures StepErrors(sts, k) == []
  {
    if k < n { StepsPass(sts, k, n - 1); }
  }

  /** The time stop_time `i` leaves for the comparison with later ones, 0 for none. */
  function Recorded(sts: seq<StopTime>, i: nat): int
    requires i < |sts|
  {
    if i == 0 then sts[0].departure else TimeLeft(sts[i])
  }

  /** A later scheduled stop that departs without an arrival: its departure is compared with nothing. */
  predicate LoneDeparture(sts: seq<StopTime>, k: nat)
    requires k < |sts|
  {
    0 < k && !HasTimeWindow(sts[k]) && sts[k].departure > 0 && sts[k].arrival <= 0
  }

  /** Stop `k` sets the time to be compared with back before the time stop `i` has recorded. */
  predicate SetsBack(sts: seq<StopTime>, i: nat, k: nat)
    requires k < |sts|
  {
    i < k && LoneDeparture(sts, k) && sts[k].departure < Recorded(sts, i)
  }

  /** Scheduled stop `j` arrives before time `t`. */
  predicate ArrivesBefore(sts: seq<StopTime>, j: nat, t: int)
    requires j < |sts|
  {
    !HasTimeWindow(sts[j]) && 0 < sts[j].arrival < t
  }

  /** The remembered time is at least every time recorded so far, unless a lone departure has set it back. */
  lemma {:induction false} TimeRemembered(sts: seq<StopTime>, i: nat, n: nat)
    requires i < n <= |sts| && StepErrors(sts, n) == [] && Recorded(sts, i) > 0
    requires forall k :: 0 <= k < n ==> !SetsBack(sts, i, k)
    ensures Recorded(sts, i) <= MemoryAfter(sts, n).time
  {
    if i < n - 1 {
      TimeRemembered(sts, i, n - 1);
      assert !SetsBack(sts, i, n - 1);
    }
  }

  /** If a stop of a trip that passes arrives before an earlier recorded time, a lone departure between them has set
      the time back. */
  lemma EarlyArrivalIsSetBack(sts: seq<StopTime>, i: nat, j: nat) returns (k: nat)
    requires Passes(sts) && i < j < |sts| && ArrivesBefore(sts, j, Recorded(sts, i))
    ensures i < k < j && SetsBack(sts, i, k)
  {
    if forall k :: 0 <= k < j ==> !SetsBack(sts, i, k) {
      EachStepPasses(sts, j, |sts|);
      StepsPass(sts, j, |sts|);
      TimeRemembered(sts, i, j);
      assert false;
    }
    k :| 0 <= k < j && SetsBack(sts, i, k);
  }

  /** No scheduled stop arrives before any earlier stop's recorded time. */
  ghost predicate TimesInOrder(sts: seq<StopTime>) {
    forall i, j :: 0 <= i < j < |sts| ==> !ArrivesBefore(sts, j, Recorded(sts, i))
  }

  predicate Arrives(sts: seq<StopTime>, j: nat)
    requires j < |sts|
  {
    !HasTimeWindow(sts[j]) && sts[j].arrival > 0
  }

  /** Stop `j` is the next to arrive after stop `k`. */
  predicate NextArrival(sts: seq<StopTime>, k: nat, j: nat)
    requires j < |sts|
  {
    k < j && Arrives(sts, j) && forall l :: k < l < j ==> !Arrives(sts, l)
  }

  /** Lone departure `k` sets the remembered time back, and the next stop to arrive is before that time: what the check
      would find if it remembered the later of the two. */
  predicate Hides(sts: seq<StopTime>, k: nat, j: nat)
    requires j < |sts|
  {
    && k < j && LoneDeparture(sts, k) && NextArrival(sts, k, j)
    && sts[k].departure < MemoryAfter(sts, k).time && sts[j].arrival < MemoryAfter(sts, k).time
  }

  /** The remembered time, if there is one, is that of some stop. */
  lemma {:induction false} RememberedFrom(sts: seq<StopTime>, n: nat) returns (i: nat)
    requires 0 < n <= |sts| && MemoryAfter(sts, n).time > 0
    ensures i < n && Recorded(sts, i) == MemoryAfter(sts, n).time
  {
    if n > 1 && TimeLeft(sts[n - 1]) <= 0 { i := RememberedFrom(sts, n - 1); } else { i := n - 1; }
  }

  lemma {:induction false} FirstSetBack(sts: seq<StopTime>, i: nat, k: nat) returns (first: nat)
    requires k < |sts| && SetsBack(sts, i, k)
    ensures first <= k && SetsBack(sts, i, first) && forall l :: 0 <= l < first ==> !SetsBack(sts, i, l)
  {
    if l :| 0 <= l < k && SetsBack(sts, i, l) { first := FirstSetBack(sts, i, l); } else { first := k; }
  }

  lemma {:induction false} NextArrivalAfter(sts: seq<StopTime>, k: nat, j: nat) returns (next: nat)
    requires k < j < |sts| && Arrives(sts, j)
    ensures next <= j && NextArrival(sts, k, next)
    decreases j
  {
    if l :| k < l < j && Arrives(sts, l) { next := NextArrivalAfter(sts, k, l); } else { next := j; }
  }

  /** A stop that arrives leaves at least its arrival. */
  lemma ArrivalRecorded(sts: seq<StopTime>, j: nat)
    requires Passes(sts) && 0 < j < |sts| && Arrives(sts, j)
    ensures Recorded(sts, j) >= sts[j].arrival
  {
    EachStepPasses(sts, j, |sts|);
  }

  lemma {:induction false} EarlyArrivalIsHidden(sts: seq<StopTime>, i: nat, j: nat) returns (k: nat, next: nat)
    requires Passes(sts) && i < j < |sts| && ArrivesBefore(sts, j, Recorded(sts, i))
    ensures next < |sts| && Hides(sts, k, next)
    decreases j - i
  {
    k := EarlyArrivalIsSetBack(sts, i, j);
    k := FirstSetBack(sts, i, k);
    StepsPass(sts, k, |sts|);
    TimeRemembered(sts, i, k);
    next := NextArrivalAfter(sts, k, j);
    if sts[next].arrival >= MemoryAfter(sts, k).time {
      ArrivalRecorded(sts, next);
      k, next := EarlyArrivalIsHidden(sts, next, j);
    }
  }

  /** The times of a trip that passes are in order exactly if no lone departure sets back the remembered time over the
      next arrival. */
  lemma TimesInOrderIff(sts: seq<StopTime>)
    requires Passes(sts)
    ensures TimesInOrder(sts) <==> forall k, j :: 0 <= k < j < |sts| ==> !Hides(sts, k, j)
  {
    if !TimesInOrder(sts) {
      var i, j :| 0 <= i < j < |sts| && ArrivesBefore(sts, j, Recorded(sts, i));
      var k, next := EarlyArrivalIsHidden(sts, i, j);
      assert 0 <= k < next < |sts|;
    }
    if k, j :| 0 <= k < j < |sts| && Hides(sts, k, j) {
      var i := RememberedFrom(sts, k);
      assert ArrivesBefore(sts, j, Recorded(sts, i));
    }
  }

  /** In particular if every later scheduled stop with a departure has an arrival. */
  lemma TimesInOrderWithArrivals(sts: seq<StopTime>)
    requires Passes(sts) && forall k :: 0 <= k < |sts| ==> !LoneDeparture(sts, k)
    ensures TimesInOrder(sts)
  {
    TimesInOrderIff(sts);
  }

  // ---- Which trips pass ----

  /** Stop `k` is the last before stop `j` that leaves a time, or else the first of the trip. */
  predicate LastTimed(sts: seq<StopTime>, k: nat, j: nat)
    requires j <= |sts|
  {
    k < j && (k == 0 || TimeLeft(sts[k]) > 0) && forall l :: k < l < j ==> TimeLeft(sts[l]) <= 0
  }

  /** Stop `j`, if it is scheduled, arrives no earlier than the time last left, and departs no earlier than it
      arrives. */
  predicate KeepsTime(sts: seq<StopTime>, j: nat)
    requires j < |sts|
  {
    Arrives(sts, j) ==>
      && (sts[j].departure > 0 ==> sts[j].arrival <= sts[j].departure)
      && forall k :: 0 <= k < j && LastTimed(sts, k, j) && Recorded(sts, k) > 0 ==> Recorded(sts, k) <= sts[j].arrival
  }

  predicate DistancesOrdered(sts: seq<StopTime>) {
    forall i, j :: 0 <= i < j < |sts| && sts[i].distance.Some? && sts[j].distance.Some? ==>
      sts[i].distance.value <= sts[j].distance.value
  }

  /** The last stop is reached at some time, or in some window. */
  predicate Ends(sts: seq<StopTime>) {
    sts != [] && (sts[|sts| - 1].arrival > 0 || HasTimeWindow(sts[|sts| - 1]))
  }

  lemma {:induction false} TimeOfLast(sts: seq<StopTime>, n: nat) returns (k: nat)
    requires 0 < n <= |sts|
    ensures LastTimed(sts, k, n) && MemoryAfter(sts, n).time == Recorded(sts, k)
  {
    if n == 1 || TimeLeft(sts[n - 1]) > 0 { k := n - 1; } else { k := TimeOfLast(sts, n - 1); }
  }

  /** Stop `k` is the last before stop `j` that has a distance. */
  predicate LastMeasured(sts: seq<StopTime>, k: nat, j: nat)
    requires j <= |sts|
  {
    k < j && sts[k].distance.Some? && forall l :: k < l < j ==> sts[l].distance.None?
  }

  /** What is wrong with stop `j`, told by the stops before it. */
  ghost predicate Wrong(sts: seq<StopTime>, j: nat, e: Error)
    requires 0 < j < |sts|
  {
    match e
    case SequenceRepeats(s) => s == sts[j].sequence == sts[j - 1].sequence
    case ArrivesEarly(t) =>
      Arrives(sts, j) && t == sts[j].arrival && exists k: nat :: LastTimed(sts, k, j) && t < Recorded(sts, k)
    case DepartsEarly(t) => Arrives(sts, j) && t == sts[j].departure && 0 < t < sts[j].arrival
    case DistanceDrops(d) =>
      sts[j].distance == Some(d) && exists k: nat :: LastMeasured(sts, k, j) && d < sts[k].distance.value
    case EmptyTrip(_) => false
    case ArrivalMissing => false
  }

  lemma {:induction false} DistanceOfLast(sts: seq<StopTime>, n: nat) returns (k: nat)
    requires 0 < n <= |sts| && MemoryAfter(sts, n).distance.Some?
    ensures LastMeasured(sts, k, n) && sts[k].distance == MemoryAfter(sts, n).distance
  {
    if n == 1 || sts[n - 1].distance.Some? { k := n - 1; } else { k := DistanceOfLast(sts, n - 1); }
  }

  lemma {:induction false} MeasuredIsRemembered(sts: seq<StopTime>, k: nat, n: nat)
    requires n <= |sts| && LastMeasured(sts, k, n)
    ensures MemoryAfter(sts, n).distance == sts[k].distance
  {
    if k < n - 1 { MeasuredIsRemembered(sts, k, n - 1); }
  }

  lemma {:induction false} TimedIsRemembered(sts: seq<StopTime>, k: nat, n: nat)
    requires n <= |sts| && LastTimed(sts, k, n)
    ensures MemoryAfter(sts, n).time == Recorded(sts, k)
  {
    if k < n - 1 { TimedIsRemembered(sts, k, n - 1); }
  }

  lemma EarlyArrivalIff(sts: seq<StopTime>, j: nat, t: int)
    requires 0 < j < |sts|
    ensures ArrivesEarly(t) in ErrorsOf(MemoryAfter(sts, j), sts[j]) <==> Wrong(sts, j, ArrivesEarly(t))
  {
    var last := TimeOfLast(sts, j);
    forall k: nat | LastTimed(sts, k, j) ensures MemoryAfter(sts, j).time == Recorded(sts, k) {
      TimedIsRemembered(sts, k, j);
    }
  }

  lemma DistanceDropIff(sts: seq<StopTime>, j: nat, d: real)
    requires 0 < j < |sts|
    ensures DistanceDrops(d) in ErrorsOf(MemoryAfter(sts, j), sts[j]) <==> Wrong(sts, j, DistanceDrops(d))
  {
    if MemoryAfter(sts, j).distance.Some? { var last := DistanceOfLast(sts, j); }
    forall k: nat | LastMeasured(sts, k, j) ensures MemoryAfter(sts, j).distance == sts[k].distance {
      MeasuredIsRemembered(sts, k, j);
    }
  }

  /** In any trip, what is reported of a stop is what is wrong with it. */
  lemma ReportedIff(sts: seq<StopTime>, j: nat, e: Error)
    requires 0 < j < |sts|
    ensures e in ErrorsOf(MemoryAfter(sts, j), sts[j]) <==> Wrong(sts, j, e)
  {
    MemorySequence(sts, j);
    match e
    case ArrivesEarly(t) => EarlyArrivalIff(sts, j, t);
    case DistanceDrops(d) => DistanceDropIff(sts, j, d);
    case _ =>
  }

  predicate StepPasses(sts: seq<StopTime>, j: nat)
    requires 0 < j < |sts|
  {
    ErrorsOf(MemoryAfter(sts, j), sts[j]) == []
  }

  lemma {:induction false} AllStepsPass(sts: seq<StopTime>, n: nat)
    requires 0 < n <= |sts| && forall j :: 0 < j < n ==> StepPasses(sts, j)
    ensures StepErrors(sts, n) == []
  {
    if n > 1 {
      AllStepsPass(sts, n - 1);
      assert StepPasses(sts, n - 1);
    }
  }

  lemma OneLastTimed(sts: seq<StopTime>, k: nat, l: nat, j: nat)
    requires j <= |sts| && LastTimed(sts, k, j) && LastTimed(sts, l, j)
    ensures k == l
  {
  }

  /** Stop `j` does not repeat a sequence, and keeps time. */
  predicate Steady(sts: seq<StopTime>, j: nat)
    requires 0 < j < |sts|
  {
    sts[j].sequence != sts[j - 1].sequence && KeepsTime(sts, j)
  }

  lemma PassingStepIsSteady(sts: seq<StopTime>, j: nat)
    requires 0 < j < |sts| && StepPasses(sts, j)
    ensures Steady(sts, j)
  {
    MemorySequence(sts, j);
    var last := TimeOfLast(sts, j);
    forall k | 0 <= k < j && LastTimed(sts, k, j) ensures k == last { OneLastTimed(sts, k, last, j); }
  }

  lemma SteadyStepPasses(sts: seq<StopTime>, j: nat)
    requires 0 < j < |sts| && Steady(sts, j) && DistancesOrdered(sts)
    ensures StepPasses(sts, j)
  {
    MemorySequence(sts, j);
    var last := TimeOfLast(sts, j);
    if MemoryAfter(sts, j).distance.Some? { var k := DistanceOfLast(sts, j); }
  }

  ghost predicate AllSteady(sts: seq<StopTime>) {
    forall j :: 0 < j < |sts| ==> Steady(sts, j)
  }

  lemma PassesSteadily(sts: seq<StopTime>)
    requires Passes(sts)
    ensures |sts| >= 2 && Ends(sts) && DistancesOrdered(sts) && AllSteady(sts)
  {
    forall j | 0 < j < |sts| ensures Steady(sts, j) {
      EachStepPasses(sts, j, |sts|);
      PassingStepIsSteady(sts, j);
    }
    forall i, j | 0 <= i < j < |sts| && sts[i].distance.Some? && sts[j].distance.Some?
      ensures sts[i].distance.value <= sts[j].distance.value
    {
      DistancesInOrder(sts, i, j);
    }
  }

  /** A trip passes exactly if it has two stops, the last of which is reached, no stop repeats the sequence of the stop
      before it, every scheduled stop keeps time, and the distances are in order. */
  lemma PassesIff(sts: seq<StopTime>)
    ensures Passes(sts) <==> |sts| >= 2 && Ends(sts) && DistancesOrdered(sts) && AllSteady(sts)
  {
    if Passes(sts) {
      PassesSteadily(sts);
    } else if |sts| >= 2 && Ends(sts) && DistancesOrdered(sts) && AllSteady(sts) {
      forall j | 0 < j < |sts| ensures StepPasses(sts, j) { SteadyStepPasses(sts, j); }
      AllStepsPass(sts, |sts|);
      assert false;
    }
  }

  /** A missing sequence beside a 0: a sorted trip that passes with two equal sequences. */
  lemma MissingSequencePasses()
    ensures var at := (seqn: Option<int>) => StopTime(seqn, 60, 60, None, None, None);
      var sts := [at(None), at(Some(0))];
      Passes(sts) && SortedBySequence(sts) && MissingBesideZero(sts, 1)
  {
    var at := (seqn: Option<int>) => StopTime(seqn, 60, 60, None, None, None);
    var sts := [at(None), at(Some(0))];
    assert MemoryAfter(sts, 1) == Memory(None, 60, None);
    assert StepErrors(sts, 2) == [];
  }

  /** A trip that passes with times out of order. */
  lemma LoneDepartureSetsTimeBack()
    ensures var at := (seqn: int, arr: int, dep: int) => StopTime(Some(seqn), arr, dep, None, None, None);
      var sts := [at(1, 0, 100), at(2, 0, 50), at(3, 60, 60)];
      Passes(sts) && !TimesInOrder(sts)
  {
    var at := (seqn: int, arr: int, dep: int) => StopTime(Some(seqn), arr, dep, None, None, None);
    var sts := [at(1, 0, 100), at(2, 0, 50), at(3, 60, 60)];
    assert MemoryAfter(sts, 1) == Memory(Some(1), 100, None);
    assert MemoryAfter(sts, 2) == Memory(Some(2), 50, None);
    assert StepErrors(sts, 2) == [];
    assert StepErrors(sts, 3) == [];
    assert ArrivesBefore(sts, 2, Recorded(sts, 0));
  }
}
