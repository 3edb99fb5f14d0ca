/** What each pass of copier/copier.go gives to copyEntities. */
module CopyPasses {
  import opened Sequences
  import opened EntityCopier
  import opened CopyTrace
  import ServiceCalendar
  import TripPatterns

  // ---- The feed and the passes ----

  /** One element of the trip stream: a trip carrying its stop_times, or orphan stop_times. */
  datatype TripItem = TripItem(valid: bool, trip: Entity, stopTimes: seq<Entity>)

  /** The reader's side of a run: the plain files, the two calendar files and the joined trips. */
  datatype Feed = Feed(files: map<string, seq<Entity>>, calendars: seq<Entity>, calendarDates: seq<Entity>,
                       trips: seq<TripItem>)

  /** A plain pass reads one file, keeping the entities of the listed location types if any are listed. */
  datatype Pass = Plain(file: string, size: int, types: set<int>) | Calendars | Trips

  /** The passes of Copy, in order. */
  function Passes(bs: int): seq<Pass> {
    [Plain("agency.txt", 1, {}), Plain("routes.txt", bs, {}), Plain("levels.txt", bs, {}),
     Plain("shapes.txt", 32, {}), Plain("stops.txt", bs, {1}), Plain("stops.txt", bs, {0, 2, 3}),
     Plain("stops.txt", bs, {4}), Calendars, Plain("booking_rules.txt", bs, {}),
     Plain("locations.geojson", bs, {}), Plain("location_groups.txt", bs, {}),
     Plain("location_group_stops.txt", bs, {}), Trips, Plain("pathways.txt", bs, {}),
     Plain("fare_attributes.txt", bs, {}), Plain("fare_rules.txt", bs, {}), Plain("frequencies.txt", bs, {}),
     Plain("transfers.txt", bs, {}), Plain("feed_info.txt", bs, {}), Plain("translations.txt", bs, {}),
     Plain("attributions.txt", bs, {}), Plain("timeframes.txt", bs, {}), Plain("networks.txt", bs, {}),
     Plain("route_networks.txt", bs, {}), Plain("areas.txt", bs, {}), Plain("stop_areas.txt", bs, {}),
     Plain("rider_categories.txt", bs, {}), Plain("fare_media.txt", bs, {}), Plain("fare_products.txt", bs, {}),
     Plain("fare_leg_rules.txt", bs, {}), Plain("fare_leg_join_rules.txt", bs, {}),
     Plain("fare_transfer_rules.txt", bs, {})]
  }

  /** The places of the calendars and of the trips among the passes. */
  const CALENDARS: nat := 7
  const TRIPS: nat := 12

  /** How often an entity is among the first n. */
  function Occurs(s: seq<Entity>, n: nat, e: Entity): nat
    requires n <= |s|
  {
    if n == 0 then 0 else Occurs(s, n - 1, e) + if s[n - 1] == e then 1 else 0
  }

  lemma {:induction false} OccursIff(s: seq<Entity>, n: nat, e: Entity)
    requires n <= |s|
    ensures Occurs(s, n, e) > 0 <==> e in s[..n]
  {
    if n > 0 {
      OccursIff(s, n - 1, e);
      assert s[..n] == s[..n - 1] + [s[n - 1]];
    }
    assert n == |s| ==> s[..n] == s;
  }

  lemma {:induction false} OccursConcat(a: seq<Entity>, b: seq<Entity>, n: nat, e: Entity)
    requires n <= |b|
    ensures Occurs(a + b, |a| + n, e) == Occurs(a, |a|, e) + Occurs(b, n, e)
  {
    if n == 0 { OccursPrefix(a, b, |a|, e); } else { OccursConcat(a, b, n - 1, e); }
  }

  lemma {:induction false} OccursPrefix(a: seq<Entity>, b: seq<Entity>, n: nat, e: Entity)
    requires n <= |a|
    ensures Occurs(a + b, n, e) == Occurs(a, n, e)
  {
    if n > 0 { OccursPrefix(a, b, n - 1, e); }
  }

  function Kept(s: seq<Entity>, n: nat, types: set<int>): seq<Entity>
    requires n <= |s|
  {
    if n == 0 then []
    else Kept(s, n - 1, types) + if types == {} || s[n - 1].data in types then [s[n - 1]] else []
  }

  /** An entity is kept as often as the file holds it, or not at all. */
  lemma {:induction false} KeptIff(s: seq<Entity>, n: nat, types: set<int>, e: Entity)
    requires n <= |s|
    ensures Occurs(Kept(s, n, types), |Kept(s, n, types)|, e) ==
      if types == {} || e.data in types then Occurs(s, n, e) else 0
  {
    if n > 0 {
      KeptIff(s, n - 1, types, e);
      var kept := if types == {} || s[n - 1].data in types then [s[n - 1]] else [];
      OccursConcat(Kept(s, n - 1, types), kept, |kept|, e);
    }
  }

  // ---- Calendars ----

  /** The service a calendar date belongs to: its one reference. */
  function ServiceId(date: Entity): string {
    if |date.refs| > 0 then date.refs[0].id else ""
  }

  function DatesOf(dates: seq<Entity>, n: nat, service: string): seq<Entity>
    requires n <= |dates|
  {
    if n == 0 then []
    else DatesOf(dates, n - 1, service) + if ServiceId(dates[n - 1]) == service then [dates[n - 1]] else []
  }

  predicate HasCalendar(cals: seq<Entity>, n: nat, service: string)
    requires n <= |cals|
  {
    exists j :: 0 <= j < n && cals[j].id == service
  }

  /** The i-th calendar with its dates: the first calendar of a service takes them all. */
  function WithDates(cals: seq<Entity>, dates: seq<Entity>, i: nat): Entity
    requires i < |cals|
  {
    cals[i].(children := if HasCalendar(cals, i, cals[i].id) then [] else DatesOf(dates, |dates|, cals[i].id))
  }

  function Listed(cals: seq<Entity>, dates: seq<Entity>, lo: nat, hi: nat): seq<Entity>
    requires lo <= hi <= |cals|
  {
    seq(hi - lo, k requires 0 <= k < hi - lo => WithDates(cals, dates, lo + k))
  }

  /** The service of the first n dates alone: no weekday, and no dates of its own. */
  function ServiceOf(cfg: Config, dates: seq<Entity>, n: nat): ServiceCalendar.Calendar
    requires n <= |dates|
  {
    var days := seq(n, k requires 0 <= k < n => cfg.readDate(dates[k]));
    ServiceCalendar.Calendar(days, 0, 0, ServiceCalendar.NO_DAYS, true)
  }

  /** The calendar of a service that has dates only runs over the period of its dates. */
  function GeneratedCalendar(cfg: Config, service: string, dates: seq<Entity>): Entity {
    var c := ServiceOf(cfg, dates, |dates|);
    Entity("calendar.txt", service, [], "", "", dates, None,
           Some(Period(ServiceCalendar.First(c), ServiceCalendar.Last(c))), 0)
  }

  /** The period of a generated calendar covers its dates exactly if all of them have a date, or the last has none. */
  lemma GeneratedCoversIff(cfg: Config, service: string, dates: seq<Entity>)
    requires dates != []
    ensures var period := GeneratedCalendar(cfg, service, dates).period.value;
      (forall k :: 0 <= k < |dates| ==> period.first <= cfg.readDate(dates[k]).date <= period.last) <==>
      (forall k :: 0 <= k < |dates| ==> cfg.readDate(dates[k]).date > 0) || cfg.readDate(dates[|dates| - 1]).date == 0
  {
    var c := ServiceOf(cfg, dates, |dates|);
    assert forall k :: 0 <= k < |dates| ==> c.dates[k] == cfg.readDate(dates[k]);
    ServiceCalendar.PeriodCoversIff(c);
  }

  /** A service with dates and no calendar. */
  predicate ServiceOnly(cals: seq<Entity>, dates: seq<Entity>, service: string) {
    DatesOf(dates, |dates|, service) != [] && !HasCalendar(cals, |cals|, service)
  }

  /** No service but the empty one has dates and no calendar. */
  ghost predicate AllListed(feed: Feed) {
    forall service :: service != "" ==> !ServiceOnly(feed.calendars, feed.calendarDates, service)
  }

  /** One calendar for each such service, in any order. */
  ghost predicate IsGenerated(cfg: Config, cals: seq<Entity>, dates: seq<Entity>, services: seq<Entity>) {
    && Distinct(services)
    && forall e :: e in services <==>
      ServiceOnly(cals, dates, e.id) && e == GeneratedCalendar(cfg, e.id, DatesOf(dates, |dates|, e.id))
  }

  /** The map knows these services. */
  ghost predicate Registered(services: seq<Entity>, ids: Ids) {
    forall e :: e in services ==> Find(ids, "calendar.txt", e.id).Some?
  }

  lemma {:induction false} DatesOfOccur(dates: seq<Entity>, n: nat, service: string, d: Entity)
    requires n <= |dates|
    ensures Occurs(DatesOf(dates, n, service), |DatesOf(dates, n, service)|, d) ==
      if ServiceId(d) == service then Occurs(dates, n, d) else 0
  {
    if n > 0 {
      DatesOfOccur(dates, n - 1, service, d);
      var more := if ServiceId(dates[n - 1]) == service then [dates[n - 1]] else [];
      OccursConcat(DatesOf(dates, n - 1, service), more, |more|, d);
    }
  }

  lemma {:induction false} FirstCalendar(cals: seq<Entity>, n: nat, service: string) returns (i: nat)
    requires n <= |cals| && HasCalendar(cals, n, service)
    ensures i < n && cals[i].id == service && !HasCalendar(cals, i, service)
  {
    if HasCalendar(cals, n - 1, service) { i := FirstCalendar(cals, n - 1, service); } else { i := n - 1; }
  }

  /** One calendar carries a date, as often as the file holds it, and no other does: the first of its service, or the
      one generated for a service without one. */
  lemma DateHasOneCalendar(cals: seq<Entity>, dates: seq<Entity>, d: Entity)
    requires d in dates
    ensures var service := ServiceId(d);
      var all := DatesOf(dates, |dates|, service);
      && all != [] && Occurs(all, |all|, d) == Occurs(dates, |dates|, d)
      && (HasCalendar(cals, |cals|, service) ==> exists i :: 0 <= i < |cals| && CarriesAlone(cals, dates, i, d))
      && (!HasCalendar(cals, |cals|, service) ==>
            ServiceOnly(cals, dates, service) &&
            forall j :: 0 <= j < |cals| ==> d !in WithDates(cals, dates, j).children)
  {
    var service := ServiceId(d);
    DatesOfOccur(dates, |dates|, service, d);
    OccursIff(dates, |dates|, d);
    OccursIff(DatesOf(dates, |dates|, service), |DatesOf(dates, |dates|, service)|, d);
    forall j | 0 <= j < |cals| && cals[j].id != service ensures d !in WithDates(cals, dates, j).children {
      DatesOfOccur(dates, |dates|, cals[j].id, d);
      OccursIff(DatesOf(dates, |dates|, cals[j].id), |DatesOf(dates, |dates|, cals[j].id)|, d);
    }
    if HasCalendar(cals, |cals|, service) {
      var i := FirstCalendar(cals, |cals|, service);
      assert CarriesAlone(cals, dates, i, d);
    }
  }

  /** Calendar i carries all dates of its service, which is that of the date, and no other carries the date. */
  ghost predicate CarriesAlone(cals: seq<Entity>, dates: seq<Entity>, i: nat, d: Entity)
    requires i < |cals|
  {
    && cals[i].id == ServiceId(d) && WithDates(cals, dates, i).children == DatesOf(dates, |dates|, ServiceId(d))
    && forall j :: 0 <= j < |cals| && j != i ==> d !in WithDates(cals, dates, j).children
  }

  // ---- Trips ----

  predicate HasTimes(item: TripItem) {
    item.valid && item.stopTimes != []
  }

  /** A trip and its stop_times as the pattern keys read them. */
  function Timetable(cfg: Config, item: TripItem): TripPatterns.Trip {
    cfg.readTrip(item.trip).(id := item.trip.id,
      stopTimes := seq(|item.stopTimes|, k requires 0 <= k < |item.stopTimes| => cfg.readStopTime(item.stopTimes[k])))
  }

  /** The trips that are given a pattern: those with stop_times. */
  function Timetables(cfg: Config, items: seq<TripItem>, n: nat): (trips: seq<TripPatterns.Trip>)
    requires n <= |items|
    ensures TripPatterns.HaveStopTimes(trips)
  {
    if n == 0 then []
    else Timetables(cfg, items, n - 1) + if HasTimes(items[n - 1]) then [Timetable(cfg, items[n - 1])] else []
  }

  lemma TimetablesNext(cfg: Config, items: seq<TripItem>, n: nat)
    requires n < |items|
    ensures Timetables(cfg, items, n + 1) ==
      if HasTimes(items[n]) then Timetables(cfg, items, n) + [Timetable(cfg, items[n])] else Timetables(cfg, items, n)
  {
  }

  /** The pattern tables after the first n elements. */
  function TablesAt(cfg: Config, items: seq<TripItem>, n: nat): TripPatterns.Tables
    requires n <= |items|
  {
    var trips := Timetables(cfg, items, n); TripPatterns.After(trips, |trips|)
  }

  /** The i-th trip with its stop_times and, if it has any, the pattern it is given. */
  function Stamped(cfg: Config, items: seq<TripItem>, i: nat): Entity
    requires i < |items|
  {
    var trip := items[i].trip.(children := items[i].stopTimes);
    if items[i].stopTimes == [] then trip
    else trip.(pattern := Some(TripPatterns.Assign(TablesAt(cfg, items, i), Timetable(cfg, items[i]))))
  }

  function TripsIn(cfg: Config, items: seq<TripItem>, lo: nat, hi: nat): seq<Entity>
    requires hi <= |items|
  {
    if hi <= lo then []
    else TripsIn(cfg, items, lo, hi - 1) + if items[hi - 1].valid then [Stamped(cfg, items, hi - 1)] else []
  }

  function OrphansIn(items: seq<TripItem>, lo: nat, hi: nat): seq<Entity>
    requires hi <= |items|
  {
    if hi <= lo then [] else OrphansIn(items, lo, hi - 1) + if items[hi - 1].valid then [] else items[hi - 1].stopTimes
  }

  /** The trips whose stop_times are not written once n elements have been read. */
  function SkippedAt(cfg: Config, items: seq<TripItem>, n: nat): set<string>
    requires n <= |items|
  {
    if cfg.options.deduplicateJourneyPatterns then TablesAt(cfg, items, n).tripOffsets.Keys else {}
  }

  // ---- Calls of a pass ----

  /** The size of a full batch. */
  function Full(size: int): nat {
    if size < 1 then 1 else size
  }

  ghost predicate FullCalls(calls: seq<Call>, size: int) {
    forall k :: 0 <= k < |calls| ==> |calls[k].input| == Full(size)
  }

  /** All calls but the last are given a full batch, and that one no more. */
  ghost predicate SizedCalls(calls: seq<Call>, size: int) {
    forall k :: 0 <= k < |calls| ==>
      0 < |calls[k].input| <= Full(size) && (k < |calls| - 1 ==> |calls[k].input| == Full(size))
  }

  /** Elements lo..hi of a pass, the call that is given them, and the call that is given what they carry. */
  datatype Batch = Batch(lo: nat, hi: nat, first: Call, second: Call)

  /** The batches cut the first n elements into consecutive parts. */
  ghost predicate Cuts(batches: seq<Batch>, n: nat) {
    && n == (if batches == [] then 0 else batches[|batches| - 1].hi)
    && forall k :: 0 <= k < |batches| ==> Follows(batches, k)
  }

  predicate Follows(batches: seq<Batch>, k: nat)
    requires k < |batches|
  {
    batches[k].lo < batches[k].hi && batches[k].lo == if k == 0 then 0 else batches[k - 1].hi
  }

  lemma CutsNext(batches: seq<Batch>, b: Batch)
    requires Cuts(batches, b.lo) && b.lo < b.hi
    ensures Cuts(batches + [b], b.hi)
  {
    forall k | 0 <= k < |batches| + 1 ensures Follows(batches + [b], k) {
      if k < |batches| { assert Follows(batches, k); }
    }
  }

  /** Every element is in a batch. */
  lemma {:induction false} BatchWith(batches: seq<Batch>, n: nat, i: nat, m: nat) returns (k: nat)
    requires Cuts(batches, n) && 0 < m <= |batches| && i < batches[m - 1].hi
    ensures k < m && batches[k].lo <= i < batches[k].hi
  {
    assert Follows(batches, m - 1);
    if i >= batches[m - 1].lo { return m - 1; }
    k := BatchWith(batches, n, i, m - 1);
  }

  function CallsOf(batches: seq<Batch>, n: nat): seq<Call>
    requires n <= |batches|
  {
    if n == 0 then [] else CallsOf(batches, n - 1) + [batches[n - 1].first, batches[n - 1].second]
  }

  lemma {:induction false} CallsOfPrefix(batches: seq<Batch>, b: Batch, n: nat)
    requires n <= |batches|
    ensures CallsOf(batches + [b], n) == CallsOf(batches, n)
  {
    if n > 0 { CallsOfPrefix(batches, b, n - 1); }
  }

  lemma CallsOfNext(batches: seq<Batch>, b: Batch)
    ensures CallsOf(batches + [b], |batches| + 1) == CallsOf(batches, |batches|) + [b.first, b.second]
  {
    CallsOfPrefix(batches, b, |batches|);
  }

  /** The elements lo..hi of n are a full batch, or the last. */
  predicate Sized(lo: nat, hi: nat, size: int, n: nat) {
    hi <= lo + Full(size) && (hi == lo + Full(size) || hi == n)
  }

  /** The calendars with their dates, then the dates of those accepted. */
  predicate CalendarBatch(size: int, cals: seq<Entity>, dates: seq<Entity>, b: Batch) {
    && b.lo <= b.hi <= |cals| && Sized(b.lo, b.hi, size, |cals|) && b.first.input == Listed(cals, dates, b.lo, b.hi)
    && b.second.input == Carried(b.first, "calendar.txt", {})
  }

  /** The trips with their patterns, then the orphans' stop_times and those of the accepted trips that are not
      skipped. */
  predicate TripBatch(cfg: Config, items: seq<TripItem>, b: Batch) {
    && b.hi <= |items| && Sized(b.lo, b.hi, cfg.options.batchSize, |items|)
    && b.first.input == TripsIn(cfg, items, b.lo, b.hi)
    && b.second.input == OrphansIn(items, b.lo, b.hi) + Carried(b.first, "trips.txt", SkippedAt(cfg, items, b.hi))
  }

  ghost predicate CalendarBatches(size: int, cals: seq<Entity>, dates: seq<Entity>, batches: seq<Batch>, n: nat) {
    Cuts(batches, n) && forall k :: 0 <= k < |batches| ==> CalendarBatch(size, cals, dates, batches[k])
  }

  ghost predicate TripBatches(cfg: Config, items: seq<TripItem>, batches: seq<Batch>, n: nat) {
    Cuts(batches, n) && forall k :: 0 <= k < |batches| ==> TripBatch(cfg, items, batches[k])
  }

  /** Where batchChan ends the batch that begins at lo. */
  function BatchEnd(lo: nat, size: int, n: nat): (hi: nat)
    requires lo < n
    ensures lo < hi <= n && Sized(lo, hi, size, n)
  {
    var hi := lo + Full(size); if hi < n then hi else n
  }

  /** Since `before` the calls are those of the batches, which cover the first n calendars. */
  ghost predicate CalendarsGiven(size: int, calls: seq<Call>, before: seq<Call>, cals: seq<Entity>,
                                 dates: seq<Entity>, batches: seq<Batch>, n: nat)
  {
    calls == before + CallsOf(batches, |batches|) && CalendarBatches(size, cals, dates, batches, n)
  }

  lemma CalendarsGivenNext(size: int, calls: seq<Call>, before: seq<Call>, cals: seq<Entity>, dates: seq<Entity>,
                           batches: seq<Batch>, b: Batch)
    requires CalendarsGiven(size, calls, before, cals, dates, batches, b.lo)
    requires CalendarBatch(size, cals, dates, b) && b.lo < b.hi
    ensures CalendarsGiven(size, calls + [b.first, b.second], before, cals, dates, batches + [b], b.hi)
  {
    CutsNext(batches, b);
    CallsOfNext(batches, b);
    Regroup(before, CallsOf(batches, |batches|), [b.first, b.second]);
  }

  /** The batch is the part of the stream that begins at lo. */
  ghost predicate IsSlice(batch: seq<TripItem>, items: seq<TripItem>, lo: nat) {
    lo + |batch| <= |items| && batch == items[lo..lo + |batch|]
  }

  lemma SliceAt(batch: seq<TripItem>, items: seq<TripItem>, lo: nat, i: nat)
    requires IsSlice(batch, items, lo) && i < |batch|
    ensures batch[i] == items[lo + i]
  {
  }

  lemma SliceNext(batch: seq<TripItem>, items: seq<TripItem>, lo: nat)
    requires IsSlice(batch, items, lo) && lo + |batch| < |items|
    ensures IsSlice(batch + [items[lo + |batch|]], items, lo)
  {
  }

  /** Since `before` the calls are those of the batches, which cover the first n elements. */
  ghost predicate TripsGiven(cfg: Config, calls: seq<Call>, before: seq<Call>, items: seq<TripItem>,
                             batches: seq<Batch>, n: nat)
  {
    calls == before + CallsOf(batches, |batches|) && TripBatches(cfg, items, batches, n)
  }

  lemma TripsGivenNext(cfg: Config, calls: seq<Call>, before: seq<Call>, items: seq<TripItem>, batches: seq<Batch>,
                       b: Batch)
    requires TripsGiven(cfg, calls, before, items, batches, b.lo) && TripBatch(cfg, items, b) && b.lo < b.hi
    ensures TripsGiven(cfg, calls + [b.first, b.second], before, items, batches + [b], b.hi)
  {
    CutsNext(batches, b);
    CallsOfNext(batches, b);
    Regroup(before, CallsOf(batches, |batches|), [b.first, b.second]);
  }

  /** The calls of one pass. `services` are the calendars generated for services that have dates only. */
  datatype PassRun = PlainRun(calls: seq<Call>)
                   | CalendarRun(listed: seq<Batch>, services: seq<Entity>, generated: seq<Call>)
                   | TripRun(batches: seq<Batch>)

  function CallsIn(run: PassRun): seq<Call> {
    match run
    case PlainRun(calls) => calls
    case CalendarRun(listed, _, generated) => CallsOf(listed, |listed|) + generated
    case TripRun(batches) => CallsOf(batches, |batches|)
  }

  /** The generated calendars are given, then the dates of those accepted; without NormalizeServiceIDs all their dates
      are, with the services entered in the map but not given. */
  ghost predicate GeneratedCalls(normalize: bool, services: seq<Entity>, calls: seq<Call>) {
    if normalize then
      |calls| == 2 && calls[0].input == services && calls[1].input == Carried(calls[0], "calendar.txt", {})
    else
      && |calls| == 1 && calls[0].input == ChildrenIn(services, |services|, "calendar.txt", {})
      && forall c :: c in calls[0].checks ==> Registered(services, c.ids)
  }

  /** The calls are given exactly what the pass reads, each entity once and in order, and what its accepted entities
      carry. */
  ghost predicate RunsPass(cfg: Config, feed: Feed, pass: Pass, run: PassRun) {
    match pass
    case Plain(file, size, types) =>
      var stream := Lookup(feed.files, file);
      && run.PlainRun? && Inputs(run.calls, |run.calls|) == Kept(stream, |stream|, types)
      && SizedCalls(run.calls, size)
    case Calendars =>
      && run.CalendarRun?
      && CalendarBatches(cfg.options.batchSize, feed.calendars, feed.calendarDates, run.listed, |feed.calendars|)
      && IsGenerated(cfg, feed.calendars, feed.calendarDates, run.services)
      && GeneratedCalls(cfg.options.normalizeServiceIds, run.services, run.generated)
    case Trips => run.TripRun? && TripBatches(cfg, feed.trips, run.batches, |feed.trips|)
  }

  /** The first n runs are those of the passes. */
  ghost predicate RunsUpTo(cfg: Config, feed: Feed, passes: seq<Pass>, runs: seq<PassRun>, n: nat)
    requires n <= |passes| && n <= |runs|
  {
    n == 0 || (RunsUpTo(cfg, feed, passes, runs, n - 1) && RunsPass(cfg, feed, passes[n - 1], runs[n - 1]))
  }

  ghost predicate RunsPasses(cfg: Config, feed: Feed, passes: seq<Pass>, runs: seq<PassRun>) {
    |runs| == |passes| && forall k :: 0 <= k < |runs| ==> RunsPass(cfg, feed, passes[k], runs[k])
  }

  lemma {:induction false} RunsEach(cfg: Config, feed: Feed, passes: seq<Pass>, runs: seq<PassRun>, n: nat, k: nat)
    requires k < n <= |passes| && n <= |runs| && RunsUpTo(cfg, feed, passes, runs, n)
    ensures RunsPass(cfg, feed, passes[k], runs[k])
  {
    if k < n - 1 { RunsEach(cfg, feed, passes, runs, n - 1, k); }
  }

  lemma {:induction false} RunsAll(cfg: Config, feed: Feed, passes: seq<Pass>, runs: seq<PassRun>)
    requires |runs| == |passes| && RunsUpTo(cfg, feed, passes, runs, |passes|)
    ensures RunsPasses(cfg, feed, passes, runs)
  {
    forall k | 0 <= k < |runs| ensures RunsPass(cfg, feed, passes[k], runs[k]) {
      RunsEach(cfg, feed, passes, runs, |passes|, k);
    }
  }

  lemma {:induction false} RunsPrefix(cfg: Config, feed: Feed, passes: seq<Pass>, runs: seq<PassRun>, run: PassRun,
                                      n: nat)
    requires n <= |passes| && n <= |runs| && RunsUpTo(cfg, feed, passes, runs, n)
    ensures RunsUpTo(cfg, feed, passes, runs + [run], n)
  {
    if n > 0 { RunsPrefix(cfg, feed, passes, runs, run, n - 1); }
  }

  function RunCalls(runs: seq<PassRun>, n: nat): seq<Call>
    requires n <= |runs|
  {
    if n == 0 then [] else RunCalls(runs, n - 1) + CallsIn(runs[n - 1])
  }

  lemma {:induction false} RunCallsPrefix(runs: seq<PassRun>, run: PassRun, n: nat)
    requires n <= |runs|
    ensures RunCalls(runs + [run], n) == RunCalls(runs, n)
  {
    if n > 0 { RunCallsPrefix(runs, run, n - 1); }
  }

  lemma {:induction false} RunsNext(cfg: Config, feed: Feed, passes: seq<Pass>, runs: seq<PassRun>, run: PassRun)
    requires |runs| < |passes| && RunsUpTo(cfg, feed, passes, runs, |runs|)
    requires RunsPass(cfg, feed, passes[|runs|], run)
    ensures RunsUpTo(cfg, feed, passes, runs + [run], |runs| + 1)
    ensures RunCalls(runs + [run], |runs| + 1) == RunCalls(runs, |runs|) + CallsIn(run)
  {
    RunCallsPrefix(runs, run, |runs|);
    RunsPrefix(cfg, feed, passes, runs, run, |runs|);
  }

  /** The trips are read once. */
  predicate TripsOnceAt(passes: seq<Pass>, t: nat) {
    t < |passes| && forall j :: 0 <= j < |passes| ==> (passes[j].Trips? <==> j == t)
  }

  lemma PassesReadTripsOnce(bs: int)
    ensures |Passes(bs)| == 32 && TripsOnceAt(Passes(bs), TRIPS)
  {
  }

  /** Each list is given in one call. */
  ghost predicate ExtraGiven(extra: seq<seq<Entity>>, more: seq<Call>) {
    |more| <= |extra| && forall i :: 0 <= i < |more| ==> more[i].input == extra[i]
  }

  /** A run is given what its passes are, and then what the extensions copy. */
  ghost predicate GivesAll(extra: seq<seq<Entity>>, calls: seq<Call>, runs: seq<PassRun>, more: seq<Call>) {
    |more| == |extra| && ExtraGiven(extra, more) && calls == RunCalls(runs, |runs|) + more
  }

  /** Every trip of the stream is given, with its pattern, in one of the batches. */
  lemma TripIsGiven(cfg: Config, items: seq<TripItem>, batches: seq<Batch>, i: nat) returns (k: nat)
    requires TripBatches(cfg, items, batches, |items|) && i < |items| && items[i].valid
    ensures k < |batches| && Stamped(cfg, items, i) in batches[k].first.input
  {
    k := BatchWith(batches, |items|, i, |batches|);
    assert TripBatch(cfg, items, batches[k]);
    TripIsAmong(cfg, items, batches[k].lo, batches[k].hi, i);
  }

  /** So is every orphan stop_time, without conditions. */
  lemma OrphanIsGiven(cfg: Config, items: seq<TripItem>, batches: seq<Batch>, i: nat, st: Entity) returns (k: nat)
    requires TripBatches(cfg, items, batches, |items|) && i < |items| && !items[i].valid && st in items[i].stopTimes
    ensures k < |batches| && st in batches[k].second.input
  {
    k := BatchWith(batches, |items|, i, |batches|);
    assert TripBatch(cfg, items, batches[k]);
    OrphanIsAmong(items, batches[k].lo, batches[k].hi, i, st);
  }

  lemma {:induction false} OrphanIsAmong(items: seq<TripItem>, lo: nat, hi: nat, k: nat, st: Entity)
    requires lo <= k < hi <= |items| && !items[k].valid && st in items[k].stopTimes
    ensures st in OrphansIn(items, lo, hi)
    decreases hi
  {
    if k < hi - 1 { OrphanIsAmong(items, lo, hi - 1, k, st); }
  }

  lemma {:induction false} TripIsAmong(cfg: Config, items: seq<TripItem>, lo: nat, hi: nat, k: nat)
    requires lo <= k < hi <= |items| && items[k].valid
    ensures Stamped(cfg, items, k) in TripsIn(cfg, items, lo, hi)
    decreases hi
  {
    var last := if items[hi - 1].valid then [Stamped(cfg, items, hi - 1)] else [];
    assert TripsIn(cfg, items, lo, hi) == TripsIn(cfg, items, lo, hi - 1) + last;
    if k < hi - 1 { TripIsAmong(cfg, items, lo, hi - 1, k); } else { assert Stamped(cfg, items, k) in last; }
  }

  lemma {:induction false} TripAmong(cfg: Config, items: seq<TripItem>, lo: nat, hi: nat, e: Entity) returns (k: nat)
    requires hi <= |items| && e in TripsIn(cfg, items, lo, hi)
    ensures lo <= k < hi && items[k].valid && e == Stamped(cfg, items, k)
    decreases hi
  {
    if e in TripsIn(cfg, items, lo, hi - 1) { k := TripAmong(cfg, items, lo, hi - 1, e); } else { k := hi - 1; }
  }
}
