/** Two runs of the copier that end well and break what is promised of others: a reference that names nothing, and
    stop_times that are lost. */
module CopyWitness {
  import opened Sequences
  import opened EntityCopier
  import opened CopyTrace
  import opened CopyPasses
  import opened CopyRun
  import opened Deduplication
  import ServiceCalendar
  import TripPatterns

  const NO_TIMES := TripPatterns.Trip("", "", "", "", "", "", 0, 0, 0, 0, "", [])
  const ONE_STOP := TripPatterns.StopTime("X", 0, 0, "", 0, 0, 0)

  function ReadTrip(e: Entity): TripPatterns.Trip { NO_TIMES }

  function ReadStopTime(e: Entity): TripPatterns.StopTime { ONE_STOP }

  function ReadDate(e: Entity): ServiceCalendar.CalDate { ServiceCalendar.CalDate(1, 1) }

  /** The first of the two trips is not marked. */
  predicate MarksSecond(e: Entity) { e.id != "p" }

  /** Nothing is expanded, and the writer works. All trips are read as one route calling at one stop. */
  function ConfigOf(marked: Entity -> bool, options: Options): Config {
    Config((n, e) => Verdict(marked(e), Some(e), 0, true), (n, e) => None,
           (n, ents) => Some(seq(|ents|, i => "id")), (n, eid, e) => true, ReadTrip, ReadStopTime, ReadDate, options)
  }

  lemma {:induction false} NothingExpanded(marked: Entity -> bool, options: Options, from: nat, input: seq<Entity>,
                                           n: nat)
    requires n <= |input|
    ensures Expansion(ConfigOf(marked, options), from, input, n) == input[..n]
  {
    if n > 0 { NothingExpanded(marked, options, from, input, n - 1); }
  }

  /** Such a run ends well. */
  lemma {:induction false} RunsWell(marked: Entity -> bool, options: Options, calls: seq<Call>)
    ensures var cfg := ConfigOf(marked, options); WriterWorks(cfg) && !EndsInPanic(cfg, calls)
  {
    if calls != [] {
      var input := calls[|calls| - 1].input;
      NothingExpanded(marked, options, |Inputs(calls, |calls| - 1)|, input, |input|);
    }
  }

  // ---- The calls of a run ----

  lemma {:induction false} CallIsRun(runs: seq<PassRun>, n: nat, k: nat, call: Call)
    requires k < n <= |runs| && call in CallsIn(runs[k])
    ensures call in RunCalls(runs, n)
  {
    if k < n - 1 { CallIsRun(runs, n - 1, k, call); }
  }

  lemma {:induction false} CheckIsOnTrail(calls: seq<Call>, n: nat, call: Call, c: Check)
    requires n <= |calls| && call in calls[..n] && c in call.checks
    ensures c in Trail(calls, n)
  {
    if calls[n - 1] != call {
      assert call in calls[..n - 1];
      CheckIsOnTrail(calls, n - 1, call, c);
    }
  }

  lemma {:induction false} RunOfCall(runs: seq<PassRun>, n: nat, call: Call) returns (k: nat)
    requires n <= |runs| && call in RunCalls(runs, n)
    ensures k < n && call in CallsIn(runs[k])
  {
    if call in RunCalls(runs, n - 1) { k := RunOfCall(runs, n - 1, call); } else { k := n - 1; }
  }

  lemma {:induction false} InputOfCall(calls: seq<Call>, n: nat, e: Entity) returns (k: nat)
    requires n <= |calls| && e in Inputs(calls, n)
    ensures k < n && e in calls[k].input
  {
    if e in Inputs(calls, n - 1) { k := InputOfCall(calls, n - 1, e); } else { k := n - 1; }
  }

  lemma {:induction false} NoBatches(batches: seq<Batch>)
    requires Cuts(batches, 0)
    ensures batches == []
  {
    assert batches != [] ==> Follows(batches, |batches| - 1);
  }

  /** A plain pass over a feed without plain files makes no calls. */
  lemma {:induction false} NoPlainCalls(cfg: Config, feed: Feed, pass: Pass, run: PassRun)
    requires feed.files == map[] && pass.Plain? && RunsPass(cfg, feed, pass, run)
    ensures CallsIn(run) == []
  {
  }

  /** A calendar pass over a feed without calendar.txt. */
  lemma {:induction false} NoListed(cfg: Config, feed: Feed, run: PassRun)
    requires RunsPass(cfg, feed, Calendars, run) && feed.calendars == []
    ensures run.CalendarRun? && CallsIn(run) == run.generated && IsGenerated(cfg, [], feed.calendarDates, run.services)
    ensures GeneratedCalls(cfg.options.normalizeServiceIds, run.services, run.generated)
  {
    NoBatches(run.listed);
    assert CallsIn(run) == [] + run.generated;
  }

  // ---- The checks of a run ----

  /** A completed run. */
  ghost predicate WellRun(marked: Entity -> bool, options: Options, cfg: Config, calls: seq<Call>, trail: seq<Check>) {
    && cfg == ConfigOf(marked, options)
    && Judged(cfg, trail) && AllComplete(cfg, calls) && trail == Trail(calls, |calls|)
  }

  lemma {:induction false} ChecksInput(marked: Entity -> bool, options: Options, cfg: Config, calls: seq<Call>,
                                       call: Call)
    requires cfg == ConfigOf(marked, options) && AllComplete(cfg, calls) && call in calls
    ensures Givens(call.checks) == call.input
  {
    var k :| 0 <= k < |calls| && calls[k] == call;
    assert CompleteAt(cfg, calls, k);
    NothingExpanded(marked, options, |Inputs(calls, k)|, call.input, |call.input|);
    assert call.input[..|call.input|] == call.input;
  }

  /** Every check of a call is of something it was given, with the outcome of checkEntity. */
  lemma {:induction false} CheckOf(marked: Entity -> bool, options: Options, cfg: Config, calls: seq<Call>,
                                   trail: seq<Check>, call: Call, c: Check) returns (n: nat)
    requires WellRun(marked, options, cfg, calls, trail) && call in calls && c in call.checks
    ensures c.given in call.input && n < |trail| && trail[n] == c && c.outcome == OutcomeOf(cfg, n, c.ids, c.given)
  {
    ChecksInput(marked, options, cfg, calls, call);
    var i :| 0 <= i < |call.checks| && call.checks[i] == c;
    assert Givens(call.checks)[i] == c.given;
    assert calls[..|calls|] == calls;
    CheckIsOnTrail(calls, |calls|, call, c);
    n :| 0 <= n < |trail| && trail[n] == c;
  }

  /** What a call is given it checks. */
  lemma {:induction false} CheckFor(marked: Entity -> bool, options: Options, cfg: Config, calls: seq<Call>, call: Call,
                                    e: Entity) returns (c: Check)
    requires cfg == ConfigOf(marked, options) && AllComplete(cfg, calls) && call in calls && e in call.input
    ensures c in call.checks && c.given == e
  {
    ChecksInput(marked, options, cfg, calls, call);
    var i :| 0 <= i < |call.input| && call.input[i] == e;
    assert Givens(call.checks)[i] == call.checks[i].given;
    c := call.checks[i];
  }

  lemma {:induction false} AcceptedIsIn(trail: seq<Check>, m: nat, n: nat)
    requires n < m <= |trail| && trail[n].outcome.Accepted?
    ensures trail[n].outcome.ent in AcceptedIn(trail, m)
  {
    if n < m - 1 { AcceptedIsIn(trail, m - 1, n); }
  }

  /** What is accepted is written. */
  lemma {:induction false} AcceptedIsWritten(trail: seq<Check>, log: seq<Written>, n: nat) returns (i: nat)
    requires Records(log, trail) && n < |trail| && trail[n].outcome.Accepted?
    ensures i < |log| && log[i].ent == trail[n].outcome.ent
  {
    AcceptedIsIn(trail, |trail|, n);
    i :| 0 <= i < |AcceptedIn(trail, |trail|)| && AcceptedIn(trail, |trail|)[i] == trail[n].outcome.ent;
  }

  lemma {:induction false} TwoPasses(bs: int)
    ensures |Passes(bs)| == 32 && Passes(bs)[CALENDARS].Calendars? && Passes(bs)[TRIPS].Trips?
  {
  }

  /** A run without extensions, which ends well. */
  method RunFeed(copier: Copier, marked: Entity -> bool, options: Options)
    returns (status: Status, ghost passes: seq<Pass>, ghost runs: seq<PassRun>)
    requires copier.Valid() && copier.calls == [] && copier.cfg == ConfigOf(marked, options)
    modifies copier, copier.emap, copier.result
    ensures status == Done && copier.Completed()
    ensures RunsPasses(copier.cfg, copier.feed, passes, runs) && copier.calls == RunCalls(runs, |runs|)
    ensures passes == Passes(options.batchSize)
    ensures |passes| == 32 && passes[CALENDARS].Calendars? && passes[TRIPS].Trips?
  {
    ghost var state, more;
    status, state, runs, more := copier.Copy([]);
    RunsWell(marked, options, copier.calls);
    passes := Passes(options.batchSize);
    TwoPasses(options.batchSize);
    assert RunCalls(runs, |runs|) + [] == RunCalls(runs, |runs|);
  }

  // ---- References that name nothing ----

  /** Only one entity is marked. */
  function MarksOnly(d: Entity): Entity -> bool {
    e => e == d
  }

  lemma {:induction false} SourceFrom(trail: seq<Check>, n: nat, e: Entity) returns (k: nat)
    requires n <= |trail| && e in SourcesIn(trail, n)
    ensures k < n && trail[k].outcome.Accepted? && trail[k].outcome.source == e
  {
    if e in SourcesIn(trail, n - 1) { k := SourceFrom(trail, n - 1, e); } else { k := n - 1; }
  }

  /** In a run that marks one entity, and accepts it, all that is written is that entity. */
  lemma {:induction false} OnlyMarkedWritten(d: Entity, options: Options, cfg: Config, calls: seq<Call>,
                                             trail: seq<Check>, log: seq<Written>, n: nat)
    requires WellRun(MarksOnly(d), options, cfg, calls, trail) && Records(log, trail)
    requires n < |trail| && trail[n].outcome.Accepted?
    ensures log != [] && forall i :: 0 <= i < |log| ==> log[i].source == d
  {
    var first := AcceptedIsWritten(trail, log, n);
    forall i | 0 <= i < |log| ensures log[i].source == d {
      var k := SourceFrom(trail, |trail|, SourcesIn(trail, |trail|)[i]);
      assert cfg.judge(k, trail[k].given) == Verdict(MarksOnly(d)(trail[k].given), Some(trail[k].given), 0, true);
    }
  }

  /** If it refers to anything, the reference names nothing that is written. */
  lemma {:induction false} OnlyMarkedDangles(d: Entity, options: Options, cfg: Config, calls: seq<Call>,
                                             trail: seq<Check>, log: seq<Written>, n: nat)
    requires WellRun(MarksOnly(d), options, cfg, calls, trail) && Records(log, trail)
    requires n < |trail| && trail[n].outcome.Accepted? && d.refs != [] && d.refs[0].id != ""
    ensures log != [] && log[0].source == d && !Integrity(log)
  {
    OnlyMarkedWritten(d, options, cfg, calls, trail, log, n);
    FirstRefDangles(log[0], log);
  }

  /** What the k-th pass reads of a plain file. */
  function ReadBy(feed: Feed, bs: int, k: nat): seq<Entity>
    requires k < |Passes(bs)| && Passes(bs)[k].Plain?
  {
    var stream := Lookup(feed.files, Passes(bs)[k].file); Kept(stream, |stream|, Passes(bs)[k].types)
  }

  lemma {:induction false} PlainIsGiven(cfg: Config, feed: Feed, pass: Pass, run: PassRun, d: Entity)
    returns (call: Call)
    requires pass.Plain? && RunsPass(cfg, feed, pass, run)
    requires var stream := Lookup(feed.files, pass.file); d in Kept(stream, |stream|, pass.types)
    ensures call in CallsIn(run) && d in call.input
  {
    var i := InputOfCall(run.calls, |run.calls|, d);
    call := run.calls[i];
  }

  lemma {:induction false} UncheckedIsAccepted(d: Entity, options: Options, cfg: Config, calls: seq<Call>,
                                               trail: seq<Check>, call: Call) returns (n: nat)
    requires WellRun(MarksOnly(d), options, cfg, calls, trail) && !ChecksReferences(options)
    requires call in calls && d in call.input
    ensures n < |trail| && trail[n].outcome.Accepted?
  {
    var c := CheckFor(MarksOnly(d), options, cfg, calls, call, d);
    n := CheckOf(MarksOnly(d), options, cfg, calls, trail, call, c);
    assert cfg.judge(n, d) == Verdict(MarksOnly(d)(d), Some(d), 0, true);
  }

  /** With both kinds of error allowed, over every feed, and for every entity of a plain file that refers to anything: a
      run that ends well and writes it, with its reference to nothing. */
  method UncheckedReferenceDangles(feed: Feed, k: nat, d: Entity, options: Options)
    returns (copier: Copier, status: Status)
    requires options.allowEntityErrors && options.allowReferenceErrors
    requires k < |Passes(options.batchSize)| && Passes(options.batchSize)[k].Plain?
    requires d in ReadBy(feed, options.batchSize, k) && d.refs != [] && d.refs[0].id != ""
    ensures status == Done && copier.feed == feed && copier.cfg.options == options
    ensures copier.log != [] && copier.log[0].source == d && !Integrity(copier.log)
  {
    copier := new Copier(ConfigOf(MarksOnly(d), options), feed);
    ghost var passes, runs;
    status, passes, runs := RunFeed(copier, MarksOnly(d), options);
    UncheckedDangles(feed, k, d, options, copier.cfg, copier.calls, copier.trail, copier.log, passes, runs);
  }

  lemma {:induction false} UncheckedDangles(feed: Feed, k: nat, d: Entity, options: Options, cfg: Config,
                                            calls: seq<Call>, trail: seq<Check>, log: seq<Written>, passes: seq<Pass>,
                                            runs: seq<PassRun>)
    requires WellRun(MarksOnly(d), options, cfg, calls, trail) && !ChecksReferences(options)
    requires Records(log, trail) && calls == RunCalls(runs, |runs|) && RunsPasses(cfg, feed, passes, runs)
    requires k < |passes| && passes[k].Plain? && d.refs != [] && d.refs[0].id != ""
    requires var stream := Lookup(feed.files, passes[k].file); d in Kept(stream, |stream|, passes[k].types)
    ensures log != [] && log[0].source == d && !Integrity(log)
  {
    var call := PlainIsGiven(cfg, feed, passes[k], runs[k], d);
    CallIsRun(runs, |runs|, k, call);
    var n := UncheckedIsAccepted(d, options, cfg, calls, trail, call);
    OnlyMarkedDangles(d, options, cfg, calls, trail, log, n);
  }

  /** A calendar date has one reference, to its service. */
  predicate DatesRefer(feed: Feed) {
    forall d :: d in feed.calendarDates ==> d.refs == [Ref("calendar.txt", ServiceId(d))]
  }

  /** A date of a service that calendar.txt lacks. */
  predicate Unlisted(feed: Feed, d: Entity) {
    d in feed.calendarDates && ServiceId(d) != "" && ServiceOnly(feed.calendars, feed.calendarDates, ServiceId(d))
  }

  lemma {:induction false} DateOfService(dates: seq<Entity>, n: nat, service: string) returns (d: Entity)
    requires n <= |dates| && DatesOf(dates, n, service) != []
    ensures d in dates && ServiceId(d) == service
  {
    if DatesOf(dates, n - 1, service) != [] { d := DateOfService(dates, n - 1, service); } else { d := dates[n - 1]; }
  }

  lemma {:induction false} SomeUnlisted(feed: Feed)
    requires !AllListed(feed)
    ensures exists d :: Unlisted(feed, d)
  {
    var service :| service != "" && ServiceOnly(feed.calendars, feed.calendarDates, service);
    var d := DateOfService(feed.calendarDates, |feed.calendarDates|, service);
    assert Unlisted(feed, d);
  }

  lemma {:induction false} DateAmong(dates: seq<Entity>, n: nat, k: nat)
    requires k < n <= |dates|
    ensures dates[k] in DatesOf(dates, n, ServiceId(dates[k]))
  {
    if k < n - 1 { DateAmong(dates, n - 1, k); }
  }

  lemma {:induction false} ChildAmong(ents: seq<Entity>, n: nat, k: nat, file: string, d: Entity)
    requires k < n <= |ents| && ents[k].file == file && d in ents[k].children
    ensures d in ChildrenIn(ents, n, file, {})
  {
    if k < n - 1 { ChildAmong(ents, n - 1, k, file, d); }
  }

  /** Without NormalizeServiceIDs the calendar pass is given the date, with its service in the map. */
  lemma {:induction false} DateIsGiven(cfg: Config, feed: Feed, d: Entity, services: seq<Entity>, generated: seq<Call>)
    requires Unlisted(feed, d) && IsGenerated(cfg, feed.calendars, feed.calendarDates, services)
    requires GeneratedCalls(false, services, generated)
    ensures |generated| == 1 && d in generated[0].input
    ensures forall c :: c in generated[0].checks ==> Find(c.ids, "calendar.txt", ServiceId(d)).Some?
  {
    var dates, service := feed.calendarDates, ServiceId(d);
    var k :| 0 <= k < |dates| && dates[k] == d;
    DateAmong(dates, |dates|, k);
    var g := GeneratedCalendar(cfg, service, DatesOf(dates, |dates|, service));
    assert g.id == service && g in services;
    var m :| 0 <= m < |services| && services[m] == g;
    ChildAmong(services, |services|, m, "calendar.txt", d);
  }

  lemma {:induction false} OutcomeOfDate(options: Options, cfg: Config, d: Entity, n: nat, ids: Ids)
    requires cfg == ConfigOf(MarksOnly(d), options) && d.refs == [Ref("calendar.txt", ServiceId(d))]
    requires Find(ids, "calendar.txt", ServiceId(d)).Some?
    ensures OutcomeOf(cfg, n, ids, d).Accepted?
  {
    assert AllResolve(ids, d);
    assert cfg.judge(n, d) == Verdict(MarksOnly(d)(d), Some(d), 0, true);
  }

  /** A check of the date, which is accepted, as its service is in the map. */
  lemma {:induction false} DateIsAccepted(feed: Feed, d: Entity, options: Options, cfg: Config, calls: seq<Call>,
                                          trail: seq<Check>, run: PassRun) returns (n: nat)
    requires WellRun(MarksOnly(d), options, cfg, calls, trail) && !options.normalizeServiceIds
    requires Unlisted(feed, d) && DatesRefer(feed) && RunsPass(cfg, feed, Calendars, run)
    requires forall c :: c in CallsIn(run) ==> c in calls
    ensures n < |trail| && trail[n].outcome.Accepted?
  {
    DateIsGiven(cfg, feed, d, run.services, run.generated);
    var call := run.generated[0];
    assert CallsIn(run)[|CallsOf(run.listed, |run.listed|)|] == call;
    var c := CheckFor(MarksOnly(d), options, cfg, calls, call, d);
    n := CheckOf(MarksOnly(d), options, cfg, calls, trail, call, c);
    OutcomeOfDate(options, cfg, d, n, c.ids);
  }

  /** Without NormalizeServiceIDs, over every feed that does not list all its services: a run that ends well, whatever
      else the feed holds and whether references are checked or not, and writes a date of such a service with a
      reference to a calendar that is not written. Over all other feeds `Copier.Copy` keeps the references. */
  method UnlistedServiceDangles(feed: Feed, options: Options) returns (copier: Copier, status: Status)
    requires !AllListed(feed) && DatesRefer(feed) && !options.normalizeServiceIds
    ensures status == Done && copier.feed == feed && copier.cfg.options == options
    ensures copier.log != [] && Unlisted(feed, copier.log[0].source) && !Integrity(copier.log)
  {
    SomeUnlisted(feed);
    var d :| d in feed.calendarDates && Unlisted(feed, d);
    copier := new Copier(ConfigOf(MarksOnly(d), options), feed);
    ghost var passes, runs;
    status, passes, runs := RunFeed(copier, MarksOnly(d), options);
    DateDangles(feed, d, options, copier.cfg, copier.calls, copier.trail, copier.log, passes, runs);
  }

  lemma {:induction false} DateDangles(feed: Feed, d: Entity, options: Options, cfg: Config, calls: seq<Call>,
                                       trail: seq<Check>, log: seq<Written>, passes: seq<Pass>, runs: seq<PassRun>)
    requires WellRun(MarksOnly(d), options, cfg, calls, trail) && !options.normalizeServiceIds
    requires Records(log, trail) && calls == RunCalls(runs, |runs|) && Unlisted(feed, d) && DatesRefer(feed)
    requires RunsPasses(cfg, feed, passes, runs) && CALENDARS < |runs| && passes[CALENDARS].Calendars?
    ensures log != [] && log[0].source == d && !Integrity(log)
  {
    forall c | c in CallsIn(runs[CALENDARS]) ensures c in calls { CallIsRun(runs, |runs|, CALENDARS, c); }
    var n := DateIsAccepted(feed, d, options, cfg, calls, trail, runs[CALENDARS]);
    OnlyMarkedDangles(d, options, cfg, calls, trail, log, n);
  }

  // ---- Stop_times that are lost ----

  function TripOf(id: string): Entity {
    Entity("trips.txt", id, [], "", "", [], None, None, 0)
  }

  const STOP_TIME := Entity("stop_times.txt", "", [], "", "", [], None, None, 0)

  /** Two trips of one journey. */
  const ONE_JOURNEY := [TripItem(true, TripOf("p"), [STOP_TIME]), TripItem(true, TripOf("q"), [STOP_TIME])]

  const TRIPS_FEED := Feed(map[], [], [], ONE_JOURNEY)

  lemma {:induction false} SecondTripRepeats(cfg: Config)
    requires cfg.readTrip == ReadTrip && cfg.readStopTime == ReadStopTime
    ensures RepeatItemHasId(cfg, ONE_JOURNEY, 2, "q")
  {
    var s, t := Timetable(cfg, ONE_JOURNEY[0]), Timetable(cfg, ONE_JOURNEY[1]);
    assert s.stopTimes == t.stopTimes == [ONE_STOP];
    assert TripPatterns.KeyOf(s).stops == TripPatterns.KeyOf(t).stops;
    assert MakesJourney(cfg, ONE_JOURNEY, 0, 1);
    assert RepeatsItem(cfg, ONE_JOURNEY, 1);
  }

  lemma {:induction false} NoneCarried(ents: seq<Entity>, n: nat, file: string, skipped: set<string>)
    requires n <= |ents| && forall e :: e in ents ==> e.id in skipped
    ensures ChildrenIn(ents, n, file, skipped) == []
  {
    if n > 0 { NoneCarried(ents, n - 1, file, skipped); }
  }

  /** A completed run over the two trips that marks all but the first. */
  ghost predicate TripsRun(options: Options, cfg: Config, calls: seq<Call>, trail: seq<Check>) {
    WellRun(MarksSecond, options, cfg, calls, trail) && options.deduplicateJourneyPatterns
  }

  /** What a batch of the two trips is given. */
  lemma {:induction false} GivenTrip(cfg: Config, lo: nat, hi: nat, e: Entity)
    requires hi <= 2 && e in TripsIn(cfg, ONE_JOURNEY, lo, hi)
    ensures e.file == "trips.txt" && e.refs == [] && (e.id == "p" || (e.id == "q" && hi == 2))
  {
    var k := TripAmong(cfg, ONE_JOURNEY, lo, hi, e);
    assert e.id == ONE_JOURNEY[k].trip.id;
  }

  lemma {:induction false} OutcomeOfTrip(options: Options, cfg: Config, n: nat, ids: Ids, e: Entity)
    requires cfg == ConfigOf(MarksSecond, options) && e.refs == []
    ensures var r := OutcomeOf(cfg, n, ids, e);
      (r.Accepted? <==> e.id != "p") && (r.Accepted? ==> r.ent.id == e.id)
  {
    assert cfg.judge(n, e) == Verdict(MarksSecond(e), Some(e), 0, true);
  }

  /** What is accepted of a batch is the second trip. */
  lemma {:induction false} OnlySecondAccepted(options: Options, cfg: Config, calls: seq<Call>, trail: seq<Check>,
                                              call: Call, lo: nat, hi: nat, e: Entity)
    requires TripsRun(options, cfg, calls, trail) && call in calls
    requires hi <= 2 && call.input == TripsIn(cfg, ONE_JOURNEY, lo, hi) && e in DoneOf(call)
    ensures e.id == "q" && hi == 2
  {
    var i := AcceptedFrom(call.checks, |call.checks|, e);
    var c := call.checks[i];
    var n := CheckOf(MarksSecond, options, cfg, calls, trail, call, c);
    GivenTrip(cfg, lo, hi, c.given);
    OutcomeOfTrip(options, cfg, n, c.ids, c.given);
  }

  lemma {:induction false} SecondIsSkipped(cfg: Config)
    requires cfg.readTrip == ReadTrip && cfg.readStopTime == ReadStopTime && cfg.options.deduplicateJourneyPatterns
    ensures "q" in SkippedAt(cfg, ONE_JOURNEY, 2)
  {
    SecondTripRepeats(cfg);
    SkippedItemsIff(cfg, ONE_JOURNEY, 2, "q");
  }

  lemma {:induction false} SecondCallEmpty(options: Options, cfg: Config, calls: seq<Call>, trail: seq<Check>, b: Batch)
    requires TripsRun(options, cfg, calls, trail) && b.first in calls && TripBatch(cfg, ONE_JOURNEY, b)
    ensures b.second.input == []
  {
    SecondIsSkipped(cfg);
    forall e | e in DoneOf(b.first) ensures e.id in SkippedAt(cfg, ONE_JOURNEY, b.hi) {
      OnlySecondAccepted(options, cfg, calls, trail, b.first, b.lo, b.hi, e);
    }
    NoneCarried(DoneOf(b.first), |DoneOf(b.first)|, "trips.txt", SkippedAt(cfg, ONE_JOURNEY, b.hi));
    NoOrphans(b.lo, b.hi);
  }

  lemma {:induction false} NoOrphans(lo: nat, hi: nat)
    requires hi <= 2
    ensures OrphansIn(ONE_JOURNEY, lo, hi) == []
  {
    if lo < hi { NoOrphans(lo, hi - 1); }
  }

  lemma {:induction false} CallOfBatch(batches: seq<Batch>, n: nat, call: Call) returns (k: nat)
    requires n <= |batches| && call in CallsOf(batches, n)
    ensures k < n && (call == batches[k].first || call == batches[k].second)
  {
    if call in CallsOf(batches, n - 1) { k := CallOfBatch(batches, n - 1, call); } else { k := n - 1; }
  }

  lemma {:induction false} BatchIsCalled(batches: seq<Batch>, n: nat, k: nat)
    requires k < n <= |batches|
    ensures batches[k].first in CallsOf(batches, n) && batches[k].second in CallsOf(batches, n)
  {
    if k < n - 1 { BatchIsCalled(batches, n - 1, k); }
  }

  lemma {:induction false} EmptyCallAcceptsNothing(cfg: Config, calls: seq<Call>, call: Call)
    requires AllComplete(cfg, calls) && call in calls && call.input == []
    ensures DoneOf(call) == []
  {
    var k :| 0 <= k < |calls| && calls[k] == call;
    assert CompleteAt(cfg, calls, k);
    assert |call.checks| == |Givens(call.checks)| == 0;
  }

  lemma {:induction false} SomeService(cfg: Config, services: seq<Entity>)
    requires services != []
    ensures !IsGenerated(cfg, [], [], services)
  {
    assert services[0] in services && !ServiceOnly([], [], services[0].id);
  }

  /** The calendar pass is given nothing. */
  lemma {:induction false} NoCalendars(cfg: Config, calls: seq<Call>, services: seq<Entity>, generated: seq<Call>,
                                       call: Call)
    requires IsGenerated(cfg, [], [], services) && GeneratedCalls(cfg.options.normalizeServiceIds, services, generated)
    requires AllComplete(cfg, calls) && call in generated && forall c :: c in generated ==> c in calls
    ensures call.input == []
  {
    if services != [] { SomeService(cfg, services); }
    assert generated[0] in generated;
    if cfg.options.normalizeServiceIds { EmptyCallAcceptsNothing(cfg, calls, generated[0]); }
  }

  lemma {:induction false} TripPassGivesTrips(options: Options, cfg: Config, calls: seq<Call>, trail: seq<Check>,
                                              batches: seq<Batch>, call: Call, e: Entity)
    requires TripsRun(options, cfg, calls, trail)
    requires forall k :: 0 <= k < |batches| ==> TripBatch(cfg, ONE_JOURNEY, batches[k])
    requires (forall c :: c in CallsOf(batches, |batches|) ==> c in calls)
    requires call in CallsOf(batches, |batches|) && e in call.input
    ensures e.file == "trips.txt"
  {
    var k := CallOfBatch(batches, |batches|, call);
    BatchIsCalled(batches, |batches|, k);
    SecondCallEmpty(options, cfg, calls, trail, batches[k]);
    GivenTrip(cfg, batches[k].lo, batches[k].hi, e);
  }

  /** Nothing but trips is given in any pass. */
  lemma {:induction false} PassGivesTrips(options: Options, cfg: Config, calls: seq<Call>, trail: seq<Check>,
                                          pass: Pass, run: PassRun, call: Call, e: Entity)
    requires TripsRun(options, cfg, calls, trail) && RunsPass(cfg, TRIPS_FEED, pass, run)
    requires (forall c :: c in CallsIn(run) ==> c in calls) && call in CallsIn(run) && e in call.input
    ensures e.file == "trips.txt"
  {
    match pass
    case Trips => TripPassGivesTrips(options, cfg, calls, trail, run.batches, call, e);
    case Calendars =>
      NoListed(cfg, TRIPS_FEED, run);
      NoCalendars(cfg, calls, run.services, run.generated, call);
    case Plain(_, _, _) => NoPlainCalls(cfg, TRIPS_FEED, pass, run);
  }

  /** Nothing but trips is ever given. */
  lemma {:induction false} OnlyTripsGiven(options: Options, cfg: Config, calls: seq<Call>, trail: seq<Check>,
                                          passes: seq<Pass>, runs: seq<PassRun>, e: Entity)
    requires TripsRun(options, cfg, calls, trail) && calls == RunCalls(runs, |runs|)
    requires RunsPasses(cfg, TRIPS_FEED, passes, runs) && e in Inputs(calls, |calls|)
    ensures e.file == "trips.txt"
  {
    var i := InputOfCall(calls, |calls|, e);
    var k := RunOfCall(runs, |runs|, calls[i]);
    forall c | c in CallsIn(runs[k]) ensures c in calls { CallIsRun(runs, |runs|, k, c); }
    PassGivesTrips(options, cfg, calls, trail, passes[k], runs[k], calls[i], e);
  }

  /** The second trip is accepted. */
  lemma {:induction false} SecondIsAccepted(options: Options, cfg: Config, calls: seq<Call>, trail: seq<Check>,
                                            call: Call) returns (n: nat)
    requires TripsRun(options, cfg, calls, trail) && call in calls && Stamped(cfg, ONE_JOURNEY, 1) in call.input
    ensures n < |trail| && trail[n].outcome.Accepted? && trail[n].outcome.ent.id == "q"
  {
    var e := Stamped(cfg, ONE_JOURNEY, 1);
    assert e.id == "q" && e.refs == [];
    var c := CheckFor(MarksSecond, options, cfg, calls, call, e);
    n := CheckOf(MarksSecond, options, cfg, calls, trail, call, c);
    OutcomeOfTrip(options, cfg, n, c.ids, c.given);
  }

  /** A run over two trips of one journey, of which the first is not marked: it ends well, the second trip is written,
      and no stop_time of either is ever given to copyEntities. */
  method RefusedPatternTrip(options: Options) returns (copier: Copier, status: Status)
    requires options.deduplicateJourneyPatterns
    ensures status == Done && copier.cfg == ConfigOf(MarksSecond, options)
    ensures exists w :: w in copier.log && w.ent.id == "q"
    ensures forall e :: e in Inputs(copier.calls, |copier.calls|) ==> e.file == "trips.txt"
  {
    copier := new Copier(ConfigOf(MarksSecond, options), TRIPS_FEED);
    ghost var passes, runs;
    status, passes, runs := RunFeed(copier, MarksSecond, options);
    ghost var cfg, calls, trail, log := copier.cfg, copier.calls, copier.trail, copier.log;
    TripIsLost(options, cfg, calls, trail, log, passes, runs);
  }

  lemma {:induction false} TripIsLost(options: Options, cfg: Config, calls: seq<Call>, trail: seq<Check>,
                                      log: seq<Written>, passes: seq<Pass>, runs: seq<PassRun>)
    requires TripsRun(options, cfg, calls, trail) && Records(log, trail) && calls == RunCalls(runs, |runs|)
    requires RunsPasses(cfg, TRIPS_FEED, passes, runs) && TRIPS < |runs| && passes[TRIPS].Trips?
    ensures exists w :: w in log && w.ent.id == "q"
    ensures forall e :: e in Inputs(calls, |calls|) ==> e.file == "trips.txt"
  {
    forall c | c in CallsIn(runs[TRIPS]) ensures c in calls { CallIsRun(runs, |runs|, TRIPS, c); }
    SecondIsWritten(options, cfg, calls, trail, log, runs[TRIPS]);
    forall e | e in Inputs(calls, |calls|) ensures e.file == "trips.txt" {
      OnlyTripsGiven(options, cfg, calls, trail, passes, runs, e);
    }
  }

  lemma {:induction false} SecondIsWritten(options: Options, cfg: Config, calls: seq<Call>, trail: seq<Check>,
                                           log: seq<Written>, run: PassRun)
    requires TripsRun(options, cfg, calls, trail) && Records(log, trail) && RunsPass(cfg, TRIPS_FEED, Trips, run)
    requires forall c :: c in CallsIn(run) ==> c in calls
    ensures exists w :: w in log && w.ent.id == "q"
  {
    var k := TripIsGiven(cfg, ONE_JOURNEY, run.batches, 1);
    BatchIsCalled(run.batches, |run.batches|, k);
    var n := SecondIsAccepted(options, cfg, calls, trail, run.batches[k].first);
    var i := AcceptedIsWritten(trail, log, n);
    assert log[i] in log;
  }
}
