/** The order of the passes of copier/copier.go against the references that the entities declare in gtfs: whatever an
    entity may refer to has been read, checked and written before it. */
module PassOrder {
  import opened Sequences
  import opened EntityCopier
  import opened CopyTrace
  import opened CopyPasses
  import opened CopyMap

  // ---- The order of the files ----

  /** The files that a pass reads, in the order in which it gives them. */
  function FilesOf(pass: Pass): seq<string> {
    match pass
    case Plain(file, _, _) => [file]
    case Calendars => ["calendar.txt", "calendar_dates.txt"]
    case Trips => ["trips.txt", "stop_times.txt"]
  }

  predicate Reads(bs: int, i: nat, f: string)
    requires i < |Passes(bs)|
  {
    f in FilesOf(Passes(bs)[i])
  }

  /** A field of a file that refers to another: the file and the pass that is the first to read it, the other file and
      the pass that is the last to read that. */
  datatype Reference = Reference(file: string, first: nat, target: string, last: nat)

  /** The references between files, by id or by group id. */
  const SERVICES: seq<Reference> :=
    [Reference("routes.txt", 1, "agency.txt", 0), Reference("calendar_dates.txt", 7, "calendar.txt", 7),
     Reference("booking_rules.txt", 8, "calendar.txt", 7)]

  const STATIONS: seq<Reference> :=
    [Reference("stops.txt", 4, "levels.txt", 2), Reference("location_group_stops.txt", 11, "location_groups.txt", 10),
     Reference("location_group_stops.txt", 11, "stops.txt", 6), Reference("pathways.txt", 13, "stops.txt", 6)]

  const TRIP_KEYS: seq<Reference> :=
    [Reference("trips.txt", 12, "routes.txt", 1), Reference("trips.txt", 12, "calendar.txt", 7),
     Reference("trips.txt", 12, "shapes.txt", 3), Reference("stop_times.txt", 12, "trips.txt", 12)]

  const PLACE_KEYS: seq<Reference> :=
    [Reference("stop_times.txt", 12, "stops.txt", 6), Reference("stop_times.txt", 12, "location_groups.txt", 10),
     Reference("stop_times.txt", 12, "locations.geojson", 9), Reference("stop_times.txt", 12, "booking_rules.txt", 8)]

  const NOTES: seq<Reference> :=
    [Reference("frequencies.txt", 16, "trips.txt", 12), Reference("transfers.txt", 17, "stops.txt", 6),
     Reference("transfers.txt", 17, "routes.txt", 1), Reference("transfers.txt", 17, "trips.txt", 12),
     Reference("attributions.txt", 20, "agency.txt", 0), Reference("attributions.txt", 20, "routes.txt", 1),
     Reference("attributions.txt", 20, "trips.txt", 12)]

  const FARES: seq<Reference> :=
    [Reference("fare_attributes.txt", 14, "agency.txt", 0), Reference("fare_rules.txt", 15, "fare_attributes.txt", 14),
     Reference("fare_rules.txt", 15, "routes.txt", 1), Reference("timeframes.txt", 21, "calendar.txt", 7)]

  const AREAS: seq<Reference> :=
    [Reference("route_networks.txt", 23, "networks.txt", 22), Reference("route_networks.txt", 23, "routes.txt", 1),
     Reference("stop_areas.txt", 25, "areas.txt", 24), Reference("stop_areas.txt", 25, "stops.txt", 6)]

  const FARE_LEGS: seq<Reference> :=
    [Reference("fare_products.txt", 28, "rider_categories.txt", 26),
     Reference("fare_products.txt", 28, "fare_media.txt", 27), Reference("fare_leg_rules.txt", 29, "areas.txt", 24),
     Reference("fare_leg_rules.txt", 29, "networks.txt", 22),
     Reference("fare_leg_rules.txt", 29, "fare_products.txt", 28),
     Reference("fare_leg_rules.txt", 29, "timeframes.txt", 21)]

  const FARE_RULES: seq<Reference> :=
    [Reference("fare_leg_join_rules.txt", 30, "networks.txt", 22),
     Reference("fare_leg_join_rules.txt", 30, "stops.txt", 6),
     Reference("fare_transfer_rules.txt", 31, "fare_leg_rules.txt", 29),
     Reference("fare_transfer_rules.txt", 31, "fare_products.txt", 28)]

  /** A file refers to another. */
  predicate Refers(r: Reference) {
    || r in SERVICES || r in STATIONS || r in TRIP_KEYS || r in PLACE_KEYS || r in NOTES || r in FARES || r in AREAS
    || r in FARE_LEGS || r in FARE_RULES
  }

  /** No file is read by two passes, but for the stops, whose three passes follow each other. */
  lemma {:induction false} OnePassEach(bs: int, i: nat, j: nat, f: string)
    requires i < j < |Passes(bs)| && Reads(bs, i, f) && Reads(bs, j, f)
    ensures f == "stops.txt" && 4 <= i && j <= 6
  {
    if j < 14 {
      OnePassTo14(bs, i, j, f);
    } else if j < 20 {
      OnePassTo20(bs, i, j, f);
    } else if j < 26 {
      OnePassTo26(bs, i, j, f);
    } else {
      OnePassTo32(bs, i, j, f);
    }
  }

  lemma {:induction false} OnePassTo14(bs: int, i: nat, j: nat, f: string)
    requires i < j < 14 && Reads(bs, i, f) && Reads(bs, j, f)
    ensures f == "stops.txt" && 4 <= i && j <= 6
  {
  }

  lemma {:induction false} OnePassTo20(bs: int, i: nat, j: nat, f: string)
    requires i < j < 20 && 14 <= j
    ensures !(Reads(bs, i, f) && Reads(bs, j, f))
  {
  }

  lemma {:induction false} OnePassTo26(bs: int, i: nat, j: nat, f: string)
    requires i < j < 26 && 20 <= j
    ensures !(Reads(bs, i, f) && Reads(bs, j, f))
  {
  }

  lemma {:induction false} OnePassTo32(bs: int, i: nat, j: nat, f: string)
    requires i < j < 32 && 26 <= j
    ensures !(Reads(bs, i, f) && Reads(bs, j, f))
  {
  }

  /** The files of the reference are read where it says; if that is in one pass, it gives the target first. No reference
      of the stops, or to them, is within their passes. */
  predicate ReadWhereSaid(bs: int, r: Reference) {
    && r.last <= r.first < |Passes(bs)| && Reads(bs, r.first, r.file) && Reads(bs, r.last, r.target)
    && (r.last == r.first ==> FilesOf(Passes(bs)[r.first]) == [r.target, r.file])
    && (r.file == "stops.txt" ==> r.first == 4 && r.last < 4) && (r.target == "stops.txt" ==> r.first > 6)
  }

  lemma {:induction false} ServicesRead(bs: int, r: Reference)
    requires r in SERVICES
    ensures ReadWhereSaid(bs, r)
  {
  }

  lemma {:induction false} StationsRead(bs: int, r: Reference)
    requires r in STATIONS
    ensures ReadWhereSaid(bs, r)
  {
  }

  lemma {:induction false} TripKeysRead(bs: int, r: Reference)
    requires r in TRIP_KEYS
    ensures ReadWhereSaid(bs, r)
  {
  }

  lemma {:induction false} PlaceKeysRead(bs: int, r: Reference)
    requires r in PLACE_KEYS
    ensures ReadWhereSaid(bs, r)
  {
  }

  lemma {:induction false} NotesRead(bs: int, r: Reference)
    requires r in NOTES
    ensures ReadWhereSaid(bs, r)
  {
  }

  lemma {:induction false} FaresRead(bs: int, r: Reference)
    requires r in FARES
    ensures ReadWhereSaid(bs, r)
  {
  }

  lemma {:induction false} AreasRead(bs: int, r: Reference)
    requires r in AREAS
    ensures ReadWhereSaid(bs, r)
  {
  }

  lemma {:induction false} FareLegsRead(bs: int, r: Reference)
    requires r in FARE_LEGS
    ensures ReadWhereSaid(bs, r)
  {
  }

  lemma {:induction false} FareRulesRead(bs: int, r: Reference)
    requires r in FARE_RULES
    ensures ReadWhereSaid(bs, r)
  {
  }

  lemma {:induction false} AllReadWhereSaid(bs: int, r: Reference)
    requires Refers(r)
    ensures ReadWhereSaid(bs, r)
  {
    if r in SERVICES { ServicesRead(bs, r); }
    if r in STATIONS { StationsRead(bs, r); }
    if r in TRIP_KEYS { TripKeysRead(bs, r); }
    if r in PLACE_KEYS { PlaceKeysRead(bs, r); }
    if r in NOTES { NotesRead(bs, r); }
    if r in FARES { FaresRead(bs, r); }
    if r in AREAS { AreasRead(bs, r); }
    if r in FARE_LEGS { FareLegsRead(bs, r); }
    if r in FARE_RULES { FareRulesRead(bs, r); }
  }

  /** Whatever a file refers to in another is read by earlier passes, or given before it in the same. */
  lemma {:induction false} TargetsReadFirst(bs: int, r: Reference, i: nat, j: nat)
    requires Refers(r) && i < |Passes(bs)| && j < |Passes(bs)| && Reads(bs, i, r.file) && Reads(bs, j, r.target)
    ensures j < i || (j == i && FilesOf(Passes(bs)[i]) == [r.target, r.file])
  {
    AllReadWhereSaid(bs, r);
    if i < r.first { OnePassEach(bs, i, r.first, r.file); }
    if r.first < i { OnePassEach(bs, r.first, i, r.file); }
    if j < r.last { OnePassEach(bs, j, r.last, r.target); }
    if r.last < j { OnePassEach(bs, r.last, j, r.target); }
  }

  // ---- The order of the stops ----

  /** Pass i gives the stops of one location type. */
  predicate ReadsType(bs: int, i: nat, t: int)
    requires i < |Passes(bs)|
  {
    var pass := Passes(bs)[i]; pass.Plain? && pass.file == "stops.txt" && (pass.types == {} || t in pass.types)
  }

  /** The type of the parent that a stop may have: a boarding area has a platform, all others a station. */
  predicate HasParentOf(t: int, parent: int) {
    if t == 4 then parent == 0 else parent == 1
  }

  function PassOfType(t: int): nat {
    if t == 1 then 4 else if t == 4 then 6 else 5
  }

  lemma {:induction false} TypeIsRead(bs: int, t: int, i: nat)
    requires i < |Passes(bs)|
    ensures ReadsType(bs, i, t) <==> 0 <= t <= 4 && i == PassOfType(t)
  {
  }

  /** Stops of each type are read by one pass, and those they may refer to by an earlier one, unless a station refers to
      a station. */
  lemma {:induction false} ParentsReadFirst(bs: int, t: int)
    ensures (exists i :: 0 <= i < |Passes(bs)| && ReadsType(bs, i, t)) <==> 0 <= t <= 4
    ensures forall i, j :: 0 <= i < j < |Passes(bs)| ==> !(ReadsType(bs, i, t) && ReadsType(bs, j, t))
    ensures forall i, j, u ::
      0 <= i < |Passes(bs)| && 0 <= j < |Passes(bs)| && ReadsType(bs, i, t) && ReadsType(bs, j, u) ==>
      HasParentOf(t, u) ==> if t == 1 then j == i else j < i
  {
    forall i, u | 0 <= i < |Passes(bs)| ensures ReadsType(bs, i, u) <==> 0 <= u <= 4 && i == PassOfType(u) {
      TypeIsRead(bs, u, i);
    }
    assert |Passes(bs)| == 32 && (0 <= t <= 4 ==> ReadsType(bs, PassOfType(t), t));
  }

  // ---- The order of the checks ----

  lemma {:induction false} RunCallsGrow(runs: seq<PassRun>, m: nat, n: nat)
    requires m <= n <= |runs|
    ensures |RunCalls(runs, m)| <= |RunCalls(runs, n)|
  {
    if m < n { RunCallsGrow(runs, m, n - 1); }
  }

  lemma {:induction false} TrailGrows(calls: seq<Call>, m: nat, n: nat)
    requires m < n <= |calls|
    ensures |Trail(calls, m)| + |calls[m].checks| <= |Trail(calls, n)|
  {
    if m < n - 1 { TrailGrows(calls, m, n - 1); }
  }

  /** Call j of a run is one of pass i. */
  predicate InPass(runs: seq<PassRun>, i: nat, j: nat) {
    i < |runs| && |RunCalls(runs, i)| <= j < |RunCalls(runs, i + 1)|
  }

  lemma {:induction false} LaterPassIsLater(runs: seq<PassRun>, m: nat, i: nat, l: nat, j: nat)
    requires m < i && InPass(runs, m, l) && InPass(runs, i, j)
    ensures l < j
  {
    RunCallsGrow(runs, m + 1, i);
  }

  lemma {:induction false} EarlierCallIsSettled(calls: seq<Call>, l: nat, h: nat, j: nat, k: nat)
    requires l < j < |calls| && h < |calls[l].checks| && k < |calls[j].checks|
    ensures |Trail(calls, l)| + h < Settled(calls, j, k)
  {
    TrailGrows(calls, l, j);
  }

  /** A reference to what an earlier call has accepted resolves. */
  lemma {:induction false} EarlierCallResolves(cfg: Config, feed: Feed, calls: seq<Call>, trail: seq<Check>,
                                               log: seq<Written>, l: nat, h: nat, j: nat, k: nat, r: Ref)
    requires Known(cfg, feed, calls, trail, log) && l < j < |calls| && h < |calls[l].checks| && k < |calls[j].checks|
    requires r.id != "" && Stands(calls[l].checks[h], r.target, r.id)
    ensures Resolves(calls[j].checks[k].ids, r)
  {
    EarlierCallIsSettled(calls, l, h, j, k);
    LoggedIsSettled(calls, trail, l, h);
    ReferenceResolvesIff(cfg, feed, calls, trail, log, j, k, r);
  }

  /** Every check of a pass is settled at every check of a later one. */
  lemma {:induction false} EarlierPassIsSettled(calls: seq<Call>, runs: seq<PassRun>, m: nat, i: nat, l: nat, j: nat,
                                                h: nat, k: nat)
    requires m < i && InPass(runs, m, l) && InPass(runs, i, j)
    requires j < |calls| && l < |calls| && h < |calls[l].checks| && k < |calls[j].checks|
    ensures |Trail(calls, l)| + h < Settled(calls, j, k)
  {
    LaterPassIsLater(runs, m, i, l, j);
    EarlierCallIsSettled(calls, l, h, j, k);
  }
}
