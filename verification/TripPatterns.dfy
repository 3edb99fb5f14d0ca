/** Stop patterns and journey patterns of copier/copier.go and copier/stoppattern.go.

    Patterns are numbered and trips deduplicated while the trips stream past, so both depend on the tables
    the earlier trips left. `After` is those tables as a function of the trips so far. */
module TripPatterns {
  import opened Sequences
  import opened StopPatterns

  /** An empty stopId is a stop_time without a valid stop_id. */
  datatype StopTime = StopTime(stopId: string, arrival: int, departure: int, headsign: string, pickup: int,
                               dropOff: int, timepoint: int)

  datatype Trip = Trip(id: string, route: string, service: string, headsign: string, shortName: string,
                       shape: string, direction: int, wheelchair: int, bikes: int, cars: int, block: string,
                       stopTimes: seq<StopTime>)

  // ---- Keys ----

  /** A trip with a stop_time that has no stop_id. */
  predicate Flex(t: Trip) {
    exists k :: 0 <= k < |t.stopTimes| && t.stopTimes[k].stopId == ""
  }

  const NUL := '\U{0000}'

  /** The first n stop ids joined with NUL. */
  function Joined(sts: seq<StopTime>, n: nat): string
    requires n <= |sts|
  {
    if n == 0 then "" else if n == 1 then sts[0].stopId else Joined(sts, n - 1) + [NUL] + sts[n - 1].stopId
  }

  /** The key in the stop-pattern table: the joined stops, or a flex trip's own id. */
  function PatternKey(t: Trip): string {
    if Flex(t) then t.id else Joined(t.stopTimes, |t.stopTimes|)
  }

  function KeyedOf(t: Trip): Keyed {
    Keyed(Flex(t), PatternKey(t))
  }

  function Keys(trips: seq<Trip>): seq<Keyed> {
    seq(|trips|, i requires 0 <= i < |trips| => KeyedOf(trips[i]))
  }

  predicate NulFree(s: string) {
    forall i :: 0 <= i < |s| ==> s[i] != NUL
  }

  predicate PlainStops(t: Trip) {
    t.stopTimes != [] && forall k :: 0 <= k < |t.stopTimes| ==> NulFree(t.stopTimes[k].stopId)
  }

  predicate SameStops(a: seq<StopTime>, b: seq<StopTime>, n: nat)
    requires n <= |a| && n <= |b|
  {
    forall k :: 0 <= k < n ==> a[k].stopId == b[k].stopId
  }

  lemma AfterNul(x: string, s: string, k: nat)
    requires NulFree(s) && |x| < k <= |x| + |s|
    ensures (x + [NUL] + s)[k] != NUL
  {
    assert (x + [NUL] + s)[k] == s[k - |x| - 1];
  }

  lemma LastPart(x: string, s: string, y: string, t: string)
    requires NulFree(s) && NulFree(t) && x + [NUL] + s == y + [NUL] + t
    ensures x == y && s == t
  {
    var u, v := x + [NUL] + s, y + [NUL] + t;
    forall k | |x| < k < |u| ensures u[k] != NUL { AfterNul(x, s, k); }
    forall k | |y| < k < |v| ensures v[k] != NUL { AfterNul(y, t, k); }
    assert u[|x|] == NUL && v[|y|] == NUL;
    assert x == u[..|x|] && y == v[..|y|];
    assert s == u[|x| + 1..] && t == v[|y| + 1..];
  }

  /** The joined key determines the stops, for NUL-free ids. */
  lemma {:induction false} JoinedInjective(a: seq<StopTime>, b: seq<StopTime>, n: nat, m: nat)
    requires 0 < n <= |a| && 0 < m <= |b| && Joined(a, n) == Joined(b, m)
    requires forall k :: 0 <= k < n ==> NulFree(a[k].stopId)
    requires forall k :: 0 <= k < m ==> NulFree(b[k].stopId)
    ensures n == m && SameStops(a, b, n)
  {
    assert m > 1 ==> Joined(b, m)[|Joined(b, m - 1)|] == NUL;
    assert n > 1 ==> Joined(a, n)[|Joined(a, n - 1)|] == NUL;
    if n > 1 && m > 1 {
      LastPart(Joined(a, n - 1), a[n - 1].stopId, Joined(b, m - 1), b[m - 1].stopId);
      JoinedInjective(a, b, n - 1, m - 1);
    }
  }

  lemma {:induction false} JoinedSame(a: seq<StopTime>, b: seq<StopTime>, n: nat)
    requires n <= |a| && n <= |b| && SameStops(a, b, n)
    ensures Joined(a, n) == Joined(b, n)
  {
    if n > 0 { JoinedSame(a, b, n - 1); }
  }

  /** Two fixed-route trips share a key exactly if they make the same stops. */
  lemma FixedKeys(s: Trip, t: Trip)
    requires !Flex(s) && !Flex(t) && PlainStops(s) && PlainStops(t)
    ensures PatternKey(s) == PatternKey(t) <==>
      |s.stopTimes| == |t.stopTimes| && SameStops(s.stopTimes, t.stopTimes, |s.stopTimes|)
  {
    if PatternKey(s) == PatternKey(t) {
      JoinedInjective(s.stopTimes, t.stopTimes, |s.stopTimes|, |t.stopTimes|);
    } else if |s.stopTimes| == |t.stopTimes| && SameStops(s.stopTimes, t.stopTimes, |s.stopTimes|) {
      JoinedSame(s.stopTimes, t.stopTimes, |s.stopTimes|);
    }
  }

  /** The hashed fields of a journey, as a tuple: equal keys mean equal tuples. */
  datatype StopKey = StopKey(arrival: int, departure: int, stopId: string, headsign: string, pickup: int,
                             dropOff: int, timepoint: int)

  datatype JourneyKey = JourneyKey(route: string, service: string, headsign: string, shortName: string,
                                   shape: string, direction: int, wheelchair: int, bikes: int, cars: int,
                                   block: string, stops: seq<StopKey>)

  function StopKeyOf(t: Trip, k: nat): StopKey
    requires k < |t.stopTimes|
  {
    var st := t.stopTimes[k];
    StopKey(st.arrival - t.stopTimes[0].arrival, st.departure - t.stopTimes[0].departure, st.stopId, st.headsign,
            st.pickup, st.dropOff, st.timepoint)
  }

  function KeyOf(t: Trip): JourneyKey {
    JourneyKey(t.route, t.service, t.headsign, t.shortName, t.shape, t.direction, t.wheelchair, t.bikes, t.cars,
               t.block, seq(|t.stopTimes|, k requires 0 <= k < |t.stopTimes| => StopKeyOf(t, k)))
  }

  /** The trips agree in all that is said of the trip and of each of its stops, but for a shift of all arrivals and one
      of all departures. */
  ghost predicate Alike(s: Trip, t: Trip) {
    && t == s.(id := t.id, stopTimes := t.stopTimes) && |s.stopTimes| == |t.stopTimes|
    && exists arr, dep :: AllLater(s.stopTimes, t.stopTimes, arr, dep)
  }

  predicate AllLater(a: seq<StopTime>, b: seq<StopTime>, arr: int, dep: int)
    requires |a| == |b|
  {
    forall k :: 0 <= k < |a| ==> b[k] == a[k].(arrival := a[k].arrival + arr, departure := a[k].departure + dep)
  }

  /** The keys of two trips are equal exactly if the trips are alike. */
  lemma SameKeyIff(s: Trip, t: Trip)
    requires s.stopTimes != [] && t.stopTimes != []
    ensures KeyOf(s) == KeyOf(t) <==> Alike(s, t)
  {
    if KeyOf(s) == KeyOf(t) {
      assert |KeyOf(s).stops| == |KeyOf(t).stops|;
      var arr := t.stopTimes[0].arrival - s.stopTimes[0].arrival;
      var dep := t.stopTimes[0].departure - s.stopTimes[0].departure;
      forall k | 0 <= k < |s.stopTimes|
        ensures var st := s.stopTimes[k];
          t.stopTimes[k] == st.(arrival := st.arrival + arr, departure := st.departure + dep)
      {
        assert StopKeyOf(s, k) == KeyOf(s).stops[k] == KeyOf(t).stops[k] == StopKeyOf(t, k);
      }
      assert AllLater(s.stopTimes, t.stopTimes, arr, dep);
    }
    if Alike(s, t) {
      var arr, dep :| AllLater(s.stopTimes, t.stopTimes, arr, dep);
      assert KeyOf(s).stops == KeyOf(t).stops;
    }
  }

  // ---- The tables ----

  datatype PatInfo = PatInfo(key: string, firstArrival: int)

  datatype Tables = Tables(stopPatterns: map<string, nat>, journeyPatterns: map<JourneyKey, PatInfo>,
                           tripOffsets: map<string, int>)

  datatype Assigned = Assigned(stopPattern: nat, journey: string, offset: int)

  function StopPatternOf(tabs: Tables, t: Trip): nat {
    NumberIn(tabs.stopPatterns, KeyedOf(t))
  }

  predicate Repeats(tabs: Tables, t: Trip) {
    !Flex(t) && KeyOf(t) in tabs.journeyPatterns
  }

  function Assign(tabs: Tables, t: Trip): Assigned
    requires t.stopTimes != []
  {
    if Repeats(tabs, t) then
      var pat := tabs.journeyPatterns[KeyOf(t)];
      Assigned(StopPatternOf(tabs, t), pat.key, t.stopTimes[0].arrival - pat.firstArrival)
    else Assigned(StopPatternOf(tabs, t), t.id, 0)
  }

  function Next(tabs: Tables, t: Trip): Tables
    requires t.stopTimes != []
  {
    Tables(TableNext(tabs.stopPatterns, KeyedOf(t)),
           if Flex(t) || Repeats(tabs, t) then tabs.journeyPatterns
           else tabs.journeyPatterns[KeyOf(t) := PatInfo(t.id, t.stopTimes[0].arrival)],
           if Repeats(tabs, t) then tabs.tripOffsets[t.id := Assign(tabs, t).offset] else tabs.tripOffsets)
  }

  predicate HaveStopTimes(trips: seq<Trip>) {
    forall i :: 0 <= i < |trips| ==> trips[i].stopTimes != []
  }

  const EMPTY := Tables(map[], map[], map[])

  function After(trips: seq<Trip>, n: nat): Tables
    requires n <= |trips| && HaveStopTimes(trips)
  {
    if n == 0 then EMPTY else Next(After(trips, n - 1), trips[n - 1])
  }

  /** What the i-th trip is given. */
  function Given(trips: seq<Trip>, i: nat): Assigned
    requires i < |trips| && HaveStopTimes(trips)
  {
    Assign(After(trips, i), trips[i])
  }

  lemma {:induction false} AfterPrefix(trips: seq<Trip>, more: seq<Trip>, n: nat)
    requires n <= |trips| && HaveStopTimes(trips + more)
    ensures HaveStopTimes(trips) && After(trips + more, n) == After(trips, n)
  {
    assert forall i :: 0 <= i < |trips| ==> trips[i] == (trips + more)[i];
    if n > 0 { AfterPrefix(trips, more, n - 1); }
  }

  lemma GivenPrefix(trips: seq<Trip>, t: Trip)
    requires HaveStopTimes(trips) && t.stopTimes != []
    ensures After(trips + [t], |trips|) == After(trips, |trips|)
    ensures forall i :: 0 <= i < |trips| ==> Given(trips + [t], i) == Given(trips, i)
  {
    AfterPrefix(trips, [t], |trips|);
    forall i | 0 <= i < |trips| ensures Given(trips + [t], i) == Given(trips, i) { AfterPrefix(trips, [t], i); }
  }

  /** The tables after exactly these trips, and what each was given. */
  ghost predicate Leads(trips: seq<Trip>, tables: Tables, given: seq<Assigned>) {
    && HaveStopTimes(trips) && tables == After(trips, |trips|) && |given| == |trips|
    && forall i :: 0 <= i < |trips| ==> given[i] == Given(trips, i)
  }

  lemma LeadsNext(trips: seq<Trip>, tables: Tables, given: seq<Assigned>, t: Trip)
    requires Leads(trips, tables, given) && t.stopTimes != []
    ensures Leads(trips + [t], Next(tables, t), given + [Assign(tables, t)])
  {
    GivenPrefix(trips, t);
  }

  /** tripStopTimeState: the tables that persist across batches, and (ghost) what each trip was given. */
  class TripStopTimeState {
    var stopPatterns: map<string, nat>
    var journeyPatterns: map<JourneyKey, PatInfo>
    var tripOffsets: map<string, int>
    ghost var given: seq<Assigned>

    function Value(): Tables reads this {
      Tables(stopPatterns, journeyPatterns, tripOffsets)
    }

    /** The state after exactly these trips. */
    ghost predicate Follows(trips: seq<Trip>) reads this {
      Leads(trips, Value(), given)
    }

    constructor ()
      ensures Follows([])
    {
      stopPatterns, journeyPatterns, tripOffsets, given := map[], map[], map[], [];
    }

    /** The pattern part of one round of processTripBatch. */
    method AssignPatterns(t: Trip, ghost before: seq<Trip>) returns (a: Assigned)
      requires Follows(before) && t.stopTimes != []
      modifies this
      ensures Follows(before + [t]) && a == Assign(After(before, |before|), t)
    {
      LeadsNext(before, Value(), given, t);
      a := Number(t);
      given := given + [a];
    }

    method Number(t: Trip) returns (a: Assigned)
      requires t.stopTimes != []
      modifies this`stopPatterns, this`journeyPatterns, this`tripOffsets
      ensures a == Assign(old(Value()), t)
      ensures Value() == Next(old(Value()), t)
    {
      var flex := false;
      for k := 0 to |t.stopTimes|
        invariant flex <==> exists j :: 0 <= j < k && t.stopTimes[j].stopId == ""
      {
        if t.stopTimes[k].stopId == "" { flex := true; }
      }
      var pattern;
      if flex {
        pattern := |stopPatterns|;
        stopPatterns := stopPatterns[t.id := pattern];
      } else {
        var patkey := Joined(t.stopTimes, |t.stopTimes|);
        if patkey in stopPatterns {
          pattern := stopPatterns[patkey];
          assert stopPatterns[patkey := pattern] == stopPatterns;
        } else {
          pattern := |stopPatterns|;
          stopPatterns := stopPatterns[patkey := pattern];
        }
      }
      if flex {
        return Assigned(pattern, t.id, 0);
      }
      var jkey := KeyOf(t);
      if jkey in journeyPatterns {
        var pat := journeyPatterns[jkey];
        a := Assigned(pattern, pat.key, t.stopTimes[0].arrival - pat.firstArrival);
        tripOffsets := tripOffsets[t.id := a.offset];
      } else {
        a := Assigned(pattern, t.id, 0);
        journeyPatterns := journeyPatterns[jkey := PatInfo(t.id, t.stopTimes[0].arrival)];
      }
    }
  }

  // ---- Stop patterns ----

  lemma {:induction false} TablesOf(trips: seq<Trip>, n: nat)
    requires n <= |trips| && HaveStopTimes(trips)
    ensures After(trips, n).stopPatterns == Table(Keys(trips), n)
  {
    if n > 0 { TablesOf(trips, n - 1); }
  }

  /** The stop patterns given are the numbers of the trips' keys. */
  lemma NumberGiven(trips: seq<Trip>, i: nat)
    requires i < |trips| && HaveStopTimes(trips)
    ensures Given(trips, i).stopPattern == NumberOf(Keys(trips), i)
  {
    TablesOf(trips, i);
  }

  /** Two fixed-route trips that make the same stops. */
  predicate StopAlike(s: Trip, t: Trip) {
    && !Flex(s) && !Flex(t)
    && |s.stopTimes| == |t.stopTimes| && SameStops(s.stopTimes, t.stopTimes, |s.stopTimes|)
  }

  ghost predicate SharesByStops(trips: seq<Trip>, i: nat, j: nat)
    requires i < |trips| && j < |trips| && HaveStopTimes(trips)
  {
    Given(trips, i).stopPattern == Given(trips, j).stopPattern <==> StopAlike(trips[i], trips[j])
  }

  lemma SharesAlike(trips: seq<Trip>, i: nat, j: nat)
    requires i < |trips| && j < |trips| && HaveStopTimes(trips) && PlainStops(trips[i]) && PlainStops(trips[j])
    ensures SharesByStops(trips, i, j) <==> SharesRightly(Keys(trips), i, j)
  {
    NumberGiven(trips, i);
    NumberGiven(trips, j);
    if !Flex(trips[i]) && !Flex(trips[j]) { FixedKeys(trips[i], trips[j]); }
  }

  /** Trips are given one stop pattern exactly if they are fixed-route trips with the same stops: that is so of all
      trips, with NUL-free stop ids, exactly if no keys clash. */
  lemma SamePatternIff(trips: seq<Trip>)
    requires HaveStopTimes(trips) && forall i :: 0 <= i < |trips| ==> PlainStops(trips[i])
    ensures (forall i, j :: 0 <= i < j < |trips| ==> SharesByStops(trips, i, j)) <==> NoClash(Keys(trips))
  {
    forall i, j | 0 <= i < j < |trips| ensures SharesByStops(trips, i, j) <==> SharesRightly(Keys(trips), i, j) {
      SharesAlike(trips, i, j);
    }
    SharedNumbersIff(Keys(trips));
    assert NoClash(Keys(trips)) || exists i, j :: 0 <= i < j < |trips| && !SharesRightly(Keys(trips), i, j);
  }

  /** A one-stop trip is given the number of an earlier flex trip named like its stop. */
  lemma FlexIdClash(flex: Trip, fixed: Trip)
    requires Flex(flex) && !Flex(fixed) && flex.stopTimes != []
    requires |fixed.stopTimes| == 1 && fixed.stopTimes[0].stopId == flex.id
    ensures Given([flex, fixed], 0).stopPattern == Given([flex, fixed], 1).stopPattern
  {
    var trips := [flex, fixed];
    assert PatternKey(fixed) == flex.id;
    assert After(trips, 1) == Next(After(trips, 0), flex);
  }

  /** In the other order the two differ, but the next trip with other stops is given the number of the flex trip. */
  lemma TakenKeyClash(fixed: Trip, flex: Trip, other: Trip)
    requires Flex(flex) && !Flex(fixed) && !Flex(other) && flex.stopTimes != [] && other.stopTimes != []
    requires |fixed.stopTimes| == 1 && fixed.stopTimes[0].stopId == flex.id && PatternKey(other) != flex.id
    ensures var trips := [fixed, flex, other];
      && Given(trips, 0).stopPattern == 0 && Given(trips, 1).stopPattern == 1
      && Given(trips, 2).stopPattern == 1 && !StopAlike(flex, other)
  {
    var trips := [fixed, flex, other];
    assert PatternKey(fixed) == flex.id;
    assert After(trips, 1).stopPatterns == map[flex.id := 0];
    assert After(trips, 2).stopPatterns == map[flex.id := 1];
  }

  // ---- Journey patterns ----

  ghost predicate SameJourney(s: Trip, t: Trip) {
    !Flex(s) && !Flex(t) && KeyOf(s) == KeyOf(t)
  }

  /** Trip `j` is the first of its journey. */
  ghost predicate FirstOf(trips: seq<Trip>, j: nat) {
    j < |trips| && !Flex(trips[j]) && forall k :: 0 <= k < j ==> !SameJourney(trips[k], trips[j])
  }

  /** The entry made by the first trip of the journey, among the first n. */
  ghost predicate EntryOf(trips: seq<Trip>, j: nat, n: nat, key: JourneyKey, info: PatInfo)
    requires n <= |trips| && HaveStopTimes(trips)
  {
    j < n && FirstOf(trips, j) && KeyOf(trips[j]) == key &&
    info == PatInfo(trips[j].id, trips[j].stopTimes[0].arrival)
  }

  ghost predicate JourneyAmong(trips: seq<Trip>, n: nat, key: JourneyKey)
    requires n <= |trips|
  {
    exists j :: 0 <= j < n && !Flex(trips[j]) && KeyOf(trips[j]) == key
  }

  /** A key is in the table exactly if one of the first n trips has it, and its entry is that of the first. */
  ghost predicate JourneyKnown(trips: seq<Trip>, n: nat, key: JourneyKey)
    requires n <= |trips| && HaveStopTimes(trips)
  {
    var pats := After(trips, n).journeyPatterns;
    && (key in pats <==> JourneyAmong(trips, n, key))
    && (key in pats ==> exists j: nat :: EntryOf(trips, j, n, key, pats[key]))
  }

  lemma AmongNext(trips: seq<Trip>, n: nat, key: JourneyKey)
    requires n < |trips|
    ensures JourneyAmong(trips, n + 1, key) <==>
      JourneyAmong(trips, n, key) || (!Flex(trips[n]) && KeyOf(trips[n]) == key)
  {
  }

  lemma JourneyNext(trips: seq<Trip>, n: nat, key: JourneyKey)
    requires n < |trips| && HaveStopTimes(trips) && JourneyKnown(trips, n, key)
    ensures JourneyKnown(trips, n + 1, key)
  {
    AmongNext(trips, n, key);
    var before, t := After(trips, n).journeyPatterns, trips[n];
    if key in before {
      var j: nat :| EntryOf(trips, j, n, key, before[key]);
      assert EntryOf(trips, j, n + 1, key, before[key]);
    } else if !Flex(t) && KeyOf(t) == key {
      assert EntryOf(trips, n, n + 1, key, PatInfo(t.id, t.stopTimes[0].arrival));
    }
  }

  lemma {:induction false} JourneyTable(trips: seq<Trip>, n: nat, key: JourneyKey)
    requires n <= |trips| && HaveStopTimes(trips)
    ensures JourneyKnown(trips, n, key)
  {
    if n > 0 {
      JourneyTable(trips, n - 1, key);
      JourneyNext(trips, n - 1, key);
    }
  }

  predicate ShiftedStop(p: StopTime, t: StopTime, offset: int, dep: int) {
    t == p.(arrival := p.arrival + offset, departure := p.departure + dep)
  }

  /** Trip `t` is trip `p` shifted: same stops, arrivals shifted by `offset`, departures by `dep`. */
  predicate Shifted(p: Trip, t: Trip, offset: int, dep: int) {
    && |t.stopTimes| == |p.stopTimes|
    && forall k :: 0 <= k < |t.stopTimes| ==> ShiftedStop(p.stopTimes[k], t.stopTimes[k], offset, dep)
  }

  lemma SameKeyShifted(p: Trip, t: Trip)
    requires KeyOf(p) == KeyOf(t) && p.stopTimes != []
    ensures t.stopTimes != []
    ensures Shifted(p, t, t.stopTimes[0].arrival - p.stopTimes[0].arrival,
                    t.stopTimes[0].departure - p.stopTimes[0].departure)
  {
    assert |KeyOf(p).stops| == |KeyOf(t).stops|;
    var offset, dep := t.stopTimes[0].arrival - p.stopTimes[0].arrival,
                       t.stopTimes[0].departure - p.stopTimes[0].departure;
    forall k | 0 <= k < |t.stopTimes| ensures ShiftedStop(p.stopTimes[k], t.stopTimes[k], offset, dep) {
      assert StopKeyOf(t, k) == KeyOf(t).stops[k] == KeyOf(p).stops[k] == StopKeyOf(p, k);
    }
  }

  /** The pattern trip a repeated journey is attributed to. */
  lemma PatternTrip(trips: seq<Trip>, i: nat) returns (j: nat)
    requires i < |trips| && HaveStopTimes(trips) && Repeats(After(trips, i), trips[i])
    ensures j < i && FirstOf(trips, j) && KeyOf(trips[j]) == KeyOf(trips[i])
    ensures Given(trips, i).journey == trips[j].id
    ensures Given(trips, i).offset == trips[i].stopTimes[0].arrival - trips[j].stopTimes[0].arrival
    ensures Shifted(trips[j], trips[i], Given(trips, i).offset,
                    trips[i].stopTimes[0].departure - trips[j].stopTimes[0].departure)
  {
    var key, pats := KeyOf(trips[i]), After(trips, i).journeyPatterns;
    JourneyTable(trips, i, key);
    j :| EntryOf(trips, j, i, key, pats[key]);
    SameKeyShifted(trips[j], trips[i]);
  }

  /** The trip whose stop_times are skipped is the pattern trip shifted by the recorded offset, arrivals and
      departures alike, exactly if the two dwell equally long at the first stop: the key measures departures
      from the first departure, but only the shift of the first arrival is recorded. */
  lemma OffsetRestoresTripIff(trips: seq<Trip>, i: nat, j: nat)
    requires i < |trips| && j < i && HaveStopTimes(trips) && Repeats(After(trips, i), trips[i])
    requires FirstOf(trips, j) && KeyOf(trips[j]) == KeyOf(trips[i])
    ensures var offset := Given(trips, i).offset; var p, t := trips[j].stopTimes[0], trips[i].stopTimes[0];
      Shifted(trips[j], trips[i], offset, offset) <==> t.departure - t.arrival == p.departure - p.arrival
  {
    var j0 := PatternTrip(trips, i);
    FirstIsUnique(trips, j0, j);
    if Shifted(trips[j], trips[i], Given(trips, i).offset, Given(trips, i).offset) {
      assert ShiftedStop(trips[j].stopTimes[0], trips[i].stopTimes[0], Given(trips, i).offset, Given(trips, i).offset);
    }
  }

  /** Two trips that arrive alike and wait differently: the second is skipped, and the offset does not restore it. */
  lemma DepartureIsLost()
    ensures var at := (id, dep) => Trip(id, "", "", "", "", "", 0, 0, 0, 0, "", [StopTime("X", 0, dep, "", 0, 0, 0)]);
      var trips := [at("p", 0), at("q", 60)];
      && Repeats(After(trips, 1), trips[1]) && "q" in After(trips, 2).tripOffsets
      && !Shifted(trips[0], trips[1], Given(trips, 1).offset, Given(trips, 1).offset)
  {
    var at := (id, dep) => Trip(id, "", "", "", "", "", 0, 0, 0, 0, "", [StopTime("X", 0, dep, "", 0, 0, 0)]);
    var trips := [at("p", 0), at("q", 60)];
    assert KeyOf(trips[0]).stops == KeyOf(trips[1]).stops;
    assert SameJourney(trips[0], trips[1]);
    RepeatsIff(trips, 1);
    OffsetRestoresTripIff(trips, 1, 0);
  }

  lemma FirstIsUnique(trips: seq<Trip>, i: nat, j: nat)
    requires FirstOf(trips, i) && FirstOf(trips, j) && KeyOf(trips[i]) == KeyOf(trips[j])
    ensures i == j
  {
    assert i < j ==> SameJourney(trips[i], trips[j]);
    assert j < i ==> SameJourney(trips[j], trips[i]);
  }

  /** Trip `i` makes the journey of an earlier trip. */
  ghost predicate RepeatsEarlier(trips: seq<Trip>, i: nat)
    requires i < |trips|
  {
    exists j :: 0 <= j < i && SameJourney(trips[j], trips[i])
  }

  lemma RepeatsIff(trips: seq<Trip>, i: nat)
    requires i < |trips| && HaveStopTimes(trips)
    ensures Repeats(After(trips, i), trips[i]) <==> RepeatsEarlier(trips, i)
  {
    var key := KeyOf(trips[i]);
    JourneyTable(trips, i, key);
    if !Flex(trips[i]) && JourneyAmong(trips, i, key) {
      var j :| 0 <= j < i && !Flex(trips[j]) && KeyOf(trips[j]) == key;
      assert SameJourney(trips[j], trips[i]);
    }
  }

  /** One of the first n trips has this id and makes the journey of an earlier trip. */
  ghost predicate RepeatHasId(trips: seq<Trip>, n: nat, id: string)
    requires n <= |trips|
  {
    exists k :: 0 <= k < n && trips[k].id == id && RepeatsEarlier(trips, k)
  }

  lemma RepeatHasIdNext(trips: seq<Trip>, n: nat, id: string)
    requires n < |trips|
    ensures RepeatHasId(trips, n + 1, id) <==>
      RepeatHasId(trips, n, id) || (trips[n].id == id && RepeatsEarlier(trips, n))
  {
  }

  lemma SkippedNextIff(trips: seq<Trip>, n: nat, id: string)
    requires n < |trips| && HaveStopTimes(trips)
    ensures id in After(trips, n + 1).tripOffsets <==>
      id in After(trips, n).tripOffsets || (trips[n].id == id && RepeatsEarlier(trips, n))
  {
    RepeatsIff(trips, n);
  }

  /** The ids whose stop_times are skipped are those of repeated journeys, whatever ids the trips have. */
  lemma {:induction false} SkippedIdsIff(trips: seq<Trip>, n: nat, id: string)
    requires n <= |trips| && HaveStopTimes(trips)
    ensures id in After(trips, n).tripOffsets <==> RepeatHasId(trips, n, id)
  {
    if n > 0 {
      SkippedIdsIff(trips, n - 1, id);
      RepeatHasIdNext(trips, n - 1, id);
      SkippedNextIff(trips, n - 1, id);
    }
  }

  ghost predicate SkippedAfter(trips: seq<Trip>, i: nat, n: nat)
    requires i < |trips| && n <= |trips| && HaveStopTimes(trips)
  {
    var skipped := After(trips, n).tripOffsets;
    && (trips[i].id in skipped <==> i < n && RepeatsEarlier(trips, i))
    && (trips[i].id in skipped ==> skipped[trips[i].id] == Given(trips, i).offset)
  }

  lemma SkippedNext(trips: seq<Trip>, i: nat, n: nat)
    requires i < |trips| && n < |trips| && HaveStopTimes(trips) && SkippedAfter(trips, i, n)
    requires i != n ==> trips[i].id != trips[n].id
    ensures SkippedAfter(trips, i, n + 1)
  {
    RepeatsIff(trips, n);
  }

  ghost predicate OwnId(trips: seq<Trip>, i: nat)
    requires i < |trips|
  {
    forall k :: 0 <= k < |trips| && k != i ==> trips[i].id != trips[k].id
  }

  lemma {:induction false} SkippedUpTo(trips: seq<Trip>, i: nat, n: nat)
    requires i < |trips| && n <= |trips| && HaveStopTimes(trips) && OwnId(trips, i)
    ensures SkippedAfter(trips, i, n)
  {
    if n > 0 {
      SkippedUpTo(trips, i, n - 1);
      SkippedNext(trips, i, n - 1);
    }
  }

  /** A trip with an id of its own is skipped exactly if it repeats an earlier journey, with its own offset,
      however many trips have been read since. */
  lemma SkippedIff(trips: seq<Trip>, i: nat, n: nat)
    requires i < |trips| && n <= |trips| && HaveStopTimes(trips) && OwnId(trips, i)
    ensures var skipped := After(trips, n).tripOffsets;
      && (trips[i].id in skipped <==> i < n && RepeatsEarlier(trips, i))
      && (trips[i].id in skipped ==> skipped[trips[i].id] == Given(trips, i).offset)
  {
    SkippedUpTo(trips, i, n);
  }
}
