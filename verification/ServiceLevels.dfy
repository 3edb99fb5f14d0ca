/** Service levels of stats/fvsl.go: per-day seconds of service compressed into ranges of equal weeks, and
    expanded again. Days are numbered as in `ServiceCalendar`, so day 0 is a Monday and the ISO week of a day
    starts at `Monday`. */
module ServiceLevels {
  import opened ServiceCalendar
  import opened ServiceObject

  type Pattern = p: seq<int> | |p| == 7 witness [0, 0, 0, 0, 0, 0, 0]

  const NO_SERVICE: Pattern := [0, 0, 0, 0, 0, 0, 0]

  /** A row of feed_version_service_levels: Monday first. */
  datatype Level = Level(start: nat, end: nat, week: Pattern)

  function Monday(d: nat): (m: nat)
    ensures m <= d < m + 7 && m % 7 == 0
  {
    d - d % 7
  }

  // ---- Seconds of service per day ----

  /** A day that the accumulation counts: active, within the service period, and the period not unset. */
  predicate Served(c: Calendar, d: nat) {
    First(c) != 0 && First(c) <= d <= Last(c) && Active(c, d)
  }

  /** What a service counts for on a day: when the accumulation counts it, when it is active, or when it is active
      without being counted. */
  datatype Kind = Counted | Running | Missed

  predicate CountsOn(kind: Kind, c: Calendar, d: nat) {
    match kind
    case Counted => Served(c, d)
    case Running => Active(c, d)
    case Missed => Active(c, d) && !Served(c, d)
  }

  function Part(c: Calendar, seconds: int, d: nat): int {
    if Served(c, d) then seconds else 0
  }

  /** No active day precedes the service period, which is empty if it has no start. */
  predicate AllDaysVisited(c: Calendar) {
    forall t :: 0 <= t < (if First(c) == 0 then Last(c) + 1 else First(c)) ==> !Active(c, t)
  }

  /** Counted days are the active days, exactly if the accumulation visits all active days. */
  lemma ServedIsActiveIff(c: Calendar)
    ensures (forall d: nat :: Served(c, d) <==> Active(c, d)) <==> AllDaysVisited(c)
  {
    forall d: nat | d > Last(c) ensures !Active(c, d) { IdleAfterPeriod(c, d); }
  }

  /** If all exceptions are dated, only base days of a service without a start date can be missed. */
  lemma DatedVisitedIff(c: Calendar)
    requires Dated(c.dates)
    ensures AllDaysVisited(c) <==>
      (c.start == 0 ==> forall t :: 0 <= t <= c.end && (c.dates == [] || t < First(c)) ==> c.week[Weekday(t)] != 1)
  {
    DatedPeriodCovers(c.start, c.dates, |c.dates|);
    PeriodEndCovers(c.end, c.dates, |c.dates|);
    forall t: nat | t < First(c) || (First(c) == 0 && t <= Last(c))
      ensures Active(c, t) <==>
        c.start == 0 && t <= c.end && (c.dates == [] || t < First(c)) && c.week[Weekday(t)] == 1
    {
      ExceptionDated(c.dates, t, |c.dates|);
    }
  }

  datatype Totals = Totals(services: map<string, Calendar>, seconds: map<string, int>)

  function PartOf(t: Totals, kind: Kind, k: string, d: nat): int {
    if k in t.seconds && k in t.services && CountsOn(kind, t.services[k], d) then t.seconds[k] else 0
  }

  /** The total of the services of `ks` that count on one day, in no particular order. */
  ghost function Total(t: Totals, kind: Kind, ks: set<string>, d: nat): int {
    if ks == {} then 0 else
    var k :| k in ks;
    Total(t, kind, ks - {k}, d) + PartOf(t, kind, k, d)
  }

  lemma {:induction false} TotalAny(t: Totals, kind: Kind, ks: set<string>, d: nat, k: string)
    requires k in ks
    ensures Total(t, kind, ks, d) == Total(t, kind, ks - {k}, d) + PartOf(t, kind, k, d)
    decreases |ks|
  {
    var k0 :| k0 in ks && Total(t, kind, ks, d) == Total(t, kind, ks - {k0}, d) + PartOf(t, kind, k0, d);
    if k0 != k {
      TotalAny(t, kind, ks - {k0}, d, k);
      TotalAny(t, kind, ks - {k}, d, k0);
      assert ks - {k0} - {k} == ks - {k} - {k0};
    }
  }

  ghost function DayTotal(t: Totals, ks: set<string>, d: nat): int {
    Total(t, Counted, ks, d)
  }

  /** The services running on a day are those counted and those missed. */
  lemma {:induction false} RunningTotal(t: Totals, ks: set<string>, d: nat)
    ensures Total(t, Running, ks, d) == DayTotal(t, ks, d) + Total(t, Missed, ks, d)
    decreases |ks|
  {
    if ks != {} {
      var k :| k in ks;
      TotalAny(t, Running, ks, d, k);
      TotalAny(t, Counted, ks, d, k);
      TotalAny(t, Missed, ks, d, k);
      RunningTotal(t, ks - {k}, d);
    }
  }

  ghost predicate AllVisited(t: Totals, ks: set<string>) {
    forall k :: k in ks && k in t.services ==> AllDaysVisited(t.services[k])
  }

  lemma {:induction false} NothingMissed(t: Totals, ks: set<string>, d: nat)
    requires AllVisited(t, ks)
    ensures Total(t, Missed, ks, d) == 0
    decreases |ks|
  {
    if ks != {} {
      var k :| k in ks;
      TotalAny(t, Missed, ks, d, k);
      if k in t.services { ServedIsActiveIff(t.services[k]); }
      NothingMissed(t, ks - {k}, d);
    }
  }

  /** Mondays without a start date, and a Thursday removed: the seconds of the Mondays before it are missed. */
  lemma EarlyDaysAreMissed()
    ensures var c := Calendar([CalDate(17, 2)], 0, 20, NO_DAYS[1 := 1], false);
      var t := Totals(map["s" := c], map["s" := 60]);
      DayTotal(t, {"s"}, 7) == 0 && Total(t, Running, {"s"}, 7) == 60
  {
    var c := Calendar([CalDate(17, 2)], 0, 20, NO_DAYS[1 := 1], false);
    var t := Totals(map["s" := c], map["s" := 60]);
    assert PeriodStart(0, c.dates, 1) == 17;
    EarlyActiveIff(c, 7);
    TotalAny(t, Counted, {"s"}, 7, "s");
    TotalAny(t, Running, {"s"}, 7, "s");
    assert {"s"} - {"s"} == {};
  }

  // ---- Totals per service ----

  datatype TripInfo = TripInfo(serviceId: string, duration: int)

  /** A frequency-based trip counts once per repetition. */
  function TripSeconds(trips: map<string, TripInfo>, freqs: map<string, int>, id: string): int
    requires id in trips
  {
    if id in freqs then trips[id].duration * freqs[id] else trips[id].duration
  }

  /** The seconds of the trips of `done` that belong to service `k`, in no particular order. */
  ghost function ServiceTotal(trips: map<string, TripInfo>, freqs: map<string, int>, done: set<string>, k: string): int
    requires done <= trips.Keys
  {
    if done == {} then 0 else
    var id :| id in done;
    ServiceTotal(trips, freqs, done - {id}, k) +
    if trips[id].serviceId == k then TripSeconds(trips, freqs, id) else 0
  }

  lemma {:induction false} ServiceTotalAny(trips: map<string, TripInfo>, freqs: map<string, int>, done: set<string>,
                                           k: string, id: string)
    requires done <= trips.Keys && id in done
    ensures ServiceTotal(trips, freqs, done, k) == ServiceTotal(trips, freqs, done - {id}, k) +
      if trips[id].serviceId == k then TripSeconds(trips, freqs, id) else 0
    decreases |done|
  {
    var id0 :| id0 in done && ServiceTotal(trips, freqs, done, k) == ServiceTotal(trips, freqs, done - {id0}, k) +
      if trips[id0].serviceId == k then TripSeconds(trips, freqs, id0) else 0;
    if id0 != id {
      ServiceTotalAny(trips, freqs, done - {id0}, k, id);
      ServiceTotalAny(trips, freqs, done - {id}, k, id0);
      assert done - {id0} - {id} == done - {id} - {id0};
    }
  }

  ghost predicate SecondsOf(trips: map<string, TripInfo>, freqs: map<string, int>, done: set<string>,
                            seconds: map<string, int>)
    requires done <= trips.Keys
  {
    && (forall k :: k in seconds <==> exists id :: id in done && trips[id].serviceId == k)
    && (forall k :: k in seconds ==> seconds[k] == ServiceTotal(trips, freqs, done, k))
  }

  lemma NoTripNoTotal(trips: map<string, TripInfo>, freqs: map<string, int>, done: set<string>, k: string)
    requires done <= trips.Keys && !exists id :: id in done && trips[id].serviceId == k
    ensures ServiceTotal(trips, freqs, done, k) == 0
  {
    if done != {} {
      var id :| id in done;
      ServiceTotalAny(trips, freqs, done, k, id);
      NoTripNoTotal(trips, freqs, done - {id}, k);
    }
  }

  lemma AddTrip(trips: map<string, TripInfo>, freqs: map<string, int>, done: set<string>, seconds: map<string, int>,
                id: string)
    requires done <= trips.Keys && id in trips && id !in done && SecondsOf(trips, freqs, done, seconds)
    ensures var k := trips[id].serviceId;
      SecondsOf(trips, freqs, done + {id},
                seconds[k := (if k in seconds then seconds[k] else 0) + TripSeconds(trips, freqs, id)])
  {
    assert done + {id} - {id} == done;
    if trips[id].serviceId !in seconds { NoTripNoTotal(trips, freqs, done, trips[id].serviceId); }
    forall k ensures ServiceTotal(trips, freqs, done + {id}, k) == ServiceTotal(trips, freqs, done, k) +
      if trips[id].serviceId == k then TripSeconds(trips, freqs, id) else 0
    {
      ServiceTotalAny(trips, freqs, done + {id}, k, id);
    }
  }

  /** The trips with trip `id` replaced by trips of other names that are like it. */
  function Replaced(trips: map<string, TripInfo>, id: string, copies: set<string>): map<string, TripInfo>
    requires id in trips
  {
    (trips - {id}) + map c | c in copies :: trips[id]
  }

  /** The totals depend on the trips they are of, and on no others. */
  lemma {:induction false} SameTrips(a: map<string, TripInfo>, b: map<string, TripInfo>, freqs: map<string, int>,
                                     done: set<string>, k: string)
    requires done <= a.Keys && done <= b.Keys && forall id :: id in done ==> a[id] == b[id]
    ensures ServiceTotal(a, freqs, done, k) == ServiceTotal(b, freqs, done, k)
    decreases |done|
  {
    if done != {} {
      var id :| id in done;
      ServiceTotalAny(a, freqs, done, k, id);
      ServiceTotalAny(b, freqs, done, k, id);
      SameTrips(a, b, freqs, done - {id}, k);
    }
  }

  /** Trips that are alike and not repeated add their duration each. */
  lemma {:induction false} CopiesAdd(trips: map<string, TripInfo>, freqs: map<string, int>, done: set<string>,
                                     copies: set<string>, info: TripInfo, k: string)
    requires done <= trips.Keys && copies <= trips.Keys && copies !! done && copies !! freqs.Keys
    requires forall c :: c in copies ==> trips[c] == info
    ensures ServiceTotal(trips, freqs, done + copies, k) ==
      ServiceTotal(trips, freqs, done, k) + if info.serviceId == k then |copies| * info.duration else 0
    decreases |copies|
  {
    if copies == {} {
      assert done + copies == done;
    } else {
      var c :| c in copies;
      var rest := copies - {c};
      ServiceTotalAny(trips, freqs, done + copies, k, c);
      assert done + copies - {c} == done + rest;
      CopiesAdd(trips, freqs, done, rest, info, k);
      OneMore(|rest|, info.duration);
    }
  }

  lemma OneMore(n: nat, duration: int)
    ensures (n + 1) * duration == n * duration + duration
  {
  }

  /** A trip repeated n times adds as much to its service as n trips like it that are not repeated. */
  lemma RepeatedTripIsManyTrips(trips: map<string, TripInfo>, freqs: map<string, int>, id: string, copies: set<string>,
                                k: string)
    requires id in trips && id in freqs && freqs[id] == |copies| && copies !! trips.Keys && copies !! freqs.Keys
    ensures var all := Replaced(trips, id, copies);
      ServiceTotal(all, freqs, all.Keys, k) == ServiceTotal(trips, freqs, trips.Keys, k)
  {
    var all, rest := Replaced(trips, id, copies), trips.Keys - {id};
    assert all.Keys == rest + copies;
    CopiesAdd(all, freqs, rest, copies, trips[id], k);
    SameTrips(all, trips, freqs, rest, k);
    ServiceTotalAny(trips, freqs, trips.Keys, k, id);
  }

  /** serviceTotals: the order in which Go ranges over the trips does not matter. */
  method ServiceTotals(trips: map<string, TripInfo>, freqs: map<string, int>) returns (seconds: map<string, int>)
    ensures SecondsOf(trips, freqs, trips.Keys, seconds)
  {
    seconds := map[];
    var todo := trips.Keys;
    ghost var done := {};
    while todo != {}
      invariant done !! todo && done + todo == trips.Keys && SecondsOf(trips, freqs, done, seconds)
    {
      var id := Pick(todo);
      AddTrip(trips, freqs, done, seconds, id);
      var td := trips[id].duration;
      if id in freqs {
        td := td * freqs[id];
      }
      var k := trips[id].serviceId;
      seconds := seconds[k := (if k in seconds then seconds[k] else 0) + td];
      todo := todo - {id};
      done := done + {id};
    }
    assert done == trips.Keys;
  }

  /** What the week map says about a day. */
  function At(smap: map<nat, Pattern>, d: nat): int {
    if Monday(d) in smap then smap[Monday(d)][d % 7] else 0
  }

  ghost predicate ServedBefore(c: Calendar, w: nat, n: nat) {
    exists d :: 0 <= d < n && Served(c, d) && Monday(d) == w
  }

  /** `out` is `smap` with the days of `c` before `n` added. */
  ghost predicate AddedUpTo(smap: map<nat, Pattern>, out: map<nat, Pattern>, c: Calendar, seconds: int, n: nat) {
    && (forall d: nat :: At(out, d) == At(smap, d) + if d < n then Part(c, seconds, d) else 0)
    && (forall w: nat :: w in out <==> w in smap || ServedBefore(c, w, n))
  }

  /** The seconds added to one day of its week. */
  function Plus(smap: map<nat, Pattern>, day: nat, seconds: int): map<nat, Pattern> {
    var a := if Monday(day) in smap then smap[Monday(day)] else NO_SERVICE;
    smap[Monday(day) := a[day % 7 := a[day % 7] + seconds]]
  }

  method AddService(smap: map<nat, Pattern>, svc: Service, seconds: int) returns (out: map<nat, Pattern>)
    ensures AddedUpTo(smap, out, svc.Value(), seconds, Last(svc.Value()) + 1)
  {
    ghost var c := svc.Value();
    out := smap;
    var day, last := svc.ServicePeriod();
    if day == 0 {
      return;
    }
    while day <= last
      invariant First(c) <= day && AddedUpTo(smap, out, c, seconds, day)
    {
      var active := svc.IsActive(day);
      AddDay(smap, out, c, seconds, day);
      if active {
        out := Plus(out, day, seconds);
      }
      day := day + 1;
    }
  }

  lemma AddDay(smap: map<nat, Pattern>, out: map<nat, Pattern>, c: Calendar, seconds: int, day: nat)
    requires AddedUpTo(smap, out, c, seconds, day) && First(c) != 0 && First(c) <= day <= Last(c)
    ensures AddedUpTo(smap, if Active(c, day) then Plus(out, day, seconds) else out, c, seconds, day + 1)
  {
  }

  ghost predicate ServedWeek(t: Totals, ks: set<string>, w: nat) {
    exists k :: k in ks && k in t.services && k in t.seconds && ServedBefore(t.services[k], w, Last(t.services[k]) + 1)
  }

  /** The week map holds the totals of the services of `ks`, and only weeks some of them serve. */
  ghost predicate WeekTotals(t: Totals, ks: set<string>, smap: map<nat, Pattern>) {
    && (forall d: nat :: At(smap, d) == DayTotal(t, ks, d))
    && (forall w: nat :: w in smap <==> ServedWeek(t, ks, w))
  }

  ghost function TotalsOf(services: map<string, Service>, seconds: map<string, int>): Totals
    reads services.Values
  {
    Totals(map k | k in services :: services[k].Value(), seconds)
  }

  method AddServices(services: map<string, Service>, seconds: map<string, int>) returns (smap: map<nat, Pattern>)
    ensures WeekTotals(TotalsOf(services, seconds), seconds.Keys, smap)
  {
    ghost var t := TotalsOf(services, seconds);
    smap := map[];
    var todo := seconds.Keys;
    while todo != {}
      invariant todo <= seconds.Keys
      invariant WeekTotals(t, seconds.Keys - todo, smap)
    {
      var k := Pick(todo);
      ghost var done := seconds.Keys - todo;
      if k in services {
        ghost var before := smap;
        smap := AddService(smap, services[k], seconds[k]);
        AddKey(t, done, k, before, smap);
      } else {
        AddUnknownKey(t, done, k, smap);
      }
      todo := todo - {k};
      assert seconds.Keys - todo == done + {k};
    }
    assert seconds.Keys - todo == seconds.Keys;
  }

  lemma AddKey(t: Totals, done: set<string>, k: string, before: map<nat, Pattern>, after: map<nat, Pattern>)
    requires k !in done && k in t.services && k in t.seconds && WeekTotals(t, done, before)
    requires AddedUpTo(before, after, t.services[k], t.seconds[k], Last(t.services[k]) + 1)
    ensures WeekTotals(t, done + {k}, after)
  {
    forall d: nat ensures At(after, d) == DayTotal(t, done + {k}, d) {
      TotalAny(t, Counted, done + {k}, d, k);
      assert done + {k} - {k} == done;
      assert At(before, d) == DayTotal(t, done, d);
    }
  }

  lemma AddUnknownKey(t: Totals, done: set<string>, k: string, smap: map<nat, Pattern>)
    requires k !in done && k !in t.services && WeekTotals(t, done, smap)
    ensures WeekTotals(t, done + {k}, smap)
  {
    forall d: nat ensures At(smap, d) == DayTotal(t, done + {k}, d) {
      TotalAny(t, Counted, done + {k}, d, k);
      assert done + {k} - {k} == done;
    }
  }
}
