/** What the EntityMap of copier/copier.go knows at every check of a run, and which references it therefore resolves. */
module CopyMap {
  import opened Sequences
  import opened EntityCopier
  import opened CopyTrace
  import opened CopyPasses

  // ---- The map and the log ----

  /** Without NormalizeServiceIDs, a service with dates and no calendar: entered in the map though it is not written. */
  predicate Aside(o: Options, feed: Feed, f: string, i: string) {
    !o.normalizeServiceIds && f == "calendar.txt" && ServiceOnly(feed.calendars, feed.calendarDates, i)
  }

  /** The map knows what the first n entries of the log say of an id, and answers with the newest of them. */
  ghost predicate Answers(o: Options, feed: Feed, ids: Ids, log: seq<Written>, n: nat, f: string, i: string)
    requires n <= |log|
  {
    && (NewestIn(log, n, f, i).Some? ==> Find(ids, f, i).Some?)
    && (!Aside(o, feed, f, i) ==> Find(ids, f, i) == NewestIn(log, n, f, i))
  }

  ghost predicate Maps(o: Options, feed: Feed, ids: Ids, log: seq<Written>, n: nat)
    requires n <= |log|
  {
    forall f, i :: Answers(o, feed, ids, log, n, f, i)
  }

  lemma MapsNothing(o: Options, feed: Feed)
    ensures Maps(o, feed, map[], [], 0)
  {
  }

  lemma MapsSame(o: Options, feed: Feed, ids: Ids, next: Ids, log: seq<Written>, n: nat)
    requires n <= |log| && Maps(o, feed, ids, log, n) && SameLookups(ids, next)
    ensures Maps(o, feed, next, log, n)
  {
    forall f, i ensures Answers(o, feed, next, log, n, f, i) {
      assert Answers(o, feed, ids, log, n, f, i);
    }
  }

  lemma MapsStill(o: Options, feed: Feed, ids: Ids, log: seq<Written>, more: seq<Written>, n: nat)
    requires n <= |log| && Maps(o, feed, ids, log, n)
    ensures Maps(o, feed, ids, log + more, n)
  {
    forall f, i ensures Answers(o, feed, ids, log + more, n, f, i) {
      assert Answers(o, feed, ids, log, n, f, i);
      NewestPrefix(log, more, n, f, i);
    }
  }

  /** What a written entity changes in the map. */
  ghost predicate Enters(ids: Ids, next: Ids, w: Written) {
    forall f, i :: Find(next, f, i) == if EntryOf(w, f, i).Some? then EntryOf(w, f, i) else Find(ids, f, i)
  }

  lemma MapsNext(o: Options, feed: Feed, ids: Ids, next: Ids, log: seq<Written>, w: Written)
    requires Maps(o, feed, ids, log, |log|) && Enters(ids, next, w)
    ensures Maps(o, feed, next, log + [w], |log| + 1)
  {
    var all, n := log + [w], |log| + 1;
    forall f, i ensures Answers(o, feed, next, all, n, f, i) {
      assert Answers(o, feed, ids, log, |log|, f, i);
      NewestNext(log, w, f, i);
    }
  }

  /** An unwritten service changes no other answer. */
  lemma MapsService(o: Options, feed: Feed, ids: Ids, next: Ids, log: seq<Written>, service: string)
    requires Maps(o, feed, ids, log, |log|) && Aside(o, feed, "calendar.txt", service)
    requires forall f, i :: Find(next, f, i) == if f == "calendar.txt" && i == service then Some(i) else Find(ids, f, i)
    ensures Maps(o, feed, next, log, |log|)
  {
    forall f, i ensures Answers(o, feed, next, log, |log|, f, i) {
      assert Answers(o, feed, ids, log, |log|, f, i);
    }
  }

  // ---- The ids of the writer ----

  /** In its n-th write the writer gave the id to the entity. */
  predicate IdFrom(cfg: Config, w: Written, n: nat, ents: seq<Entity>, i: nat) {
    && cfg.assign(n, ents).Some? && |cfg.assign(n, ents).value| == |ents|
    && i < |ents| && ents[i] == w.ent && cfg.assign(n, ents).value[i] == w.eid
  }

  ghost predicate GivenId(cfg: Config, w: Written) {
    exists n: nat, ents, i: nat :: IdFrom(cfg, w, n, ents, i)
  }

  /** Every entity of the log has the id that the writer gave it. */
  ghost predicate Identified(cfg: Config, log: seq<Written>) {
    forall k :: 0 <= k < |log| ==> GivenId(cfg, log[k])
  }

  /** No after-writer fails. */
  ghost predicate Notified(cfg: Config, notice: nat, eids: seq<string>, ents: seq<Entity>)
    requires |eids| == |ents|
  {
    forall i :: 0 <= i < |ents| ==> cfg.notify(notice + i, eids[i], ents[i])
  }

  /** A write succeeds: every entity is given an id, and no after-writer fails. */
  ghost predicate WriteSucceeds(cfg: Config, write: nat, notice: nat, ents: seq<Entity>) {
    var eids := cfg.assign(write, ents);
    eids.Some? && |eids.value| == |ents| && Notified(cfg, notice, eids.value, ents)
  }

  // ---- The map at every check ----

  ghost predicate CheckKnows(o: Options, feed: Feed, c: Check, log: seq<Written>) {
    c.logged <= |log| && Maps(o, feed, c.ids, log, c.logged)
  }

  /** Every check was made against a map that knew what was in the log by then. */
  ghost predicate Informed(o: Options, feed: Feed, trail: seq<Check>, log: seq<Written>) {
    forall n :: 0 <= n < |trail| ==> CheckKnows(o, feed, trail[n], log)
  }

  lemma InformedStill(o: Options, feed: Feed, trail: seq<Check>, log: seq<Written>, next: seq<Written>)
    requires Informed(o, feed, trail, log) && log <= next
    ensures Informed(o, feed, trail, next)
  {
    assert next == log + next[|log|..];
    forall n | 0 <= n < |trail| ensures CheckKnows(o, feed, trail[n], next) {
      assert CheckKnows(o, feed, trail[n], log);
      MapsStill(o, feed, trail[n].ids, log, next[|log|..], trail[n].logged);
    }
  }

  lemma InformedNext(o: Options, feed: Feed, trail: seq<Check>, log: seq<Written>, c: Check)
    requires Informed(o, feed, trail, log) && c.logged == |log| && Maps(o, feed, c.ids, log, |log|)
    ensures Informed(o, feed, trail + [c], log)
  {
    forall n | 0 <= n < |trail| + 1 ensures CheckKnows(o, feed, (trail + [c])[n], log) {
      if n < |trail| { assert CheckKnows(o, feed, trail[n], log); }
    }
  }

  // ---- What is in the log at a check ----

  /** Where the run of one file begins that the k-th check of a call is in. */
  function RunStart(checks: seq<Check>, k: nat): (s: nat)
    requires k < |checks|
    ensures s <= k
  {
    if k == 0 || checks[k - 1].given.file != checks[k].given.file then k else RunStart(checks, k - 1)
  }

  function AcceptedBy(checks: seq<Check>, n: nat): nat
    requires n <= |checks|
  {
    |AcceptedIn(checks, n)|
  }

  predicate PlacedAt(base: nat, checks: seq<Check>, k: nat)
    requires k < |checks|
  {
    checks[k].logged == base + AcceptedBy(checks, RunStart(checks, k))
  }

  /** What a call has accepted is in the log at its later checks of another run of one file. */
  ghost predicate Placed(base: nat, checks: seq<Check>) {
    forall k :: 0 <= k < |checks| ==> PlacedAt(base, checks, k)
  }

  /** Checks of one file, which the checks before them do not end with. */
  ghost predicate NewRun(checks: seq<Check>, more: seq<Check>) {
    && (forall k :: 0 < k < |more| ==> more[k].given.file == more[0].given.file)
    && (checks != [] && more != [] ==> checks[|checks| - 1].given.file != more[0].given.file)
  }

  lemma {:induction false} RunStartPrefix(checks: seq<Check>, more: seq<Check>, k: nat)
    requires k < |checks|
    ensures RunStart(checks + more, k) == RunStart(checks, k)
  {
    if k > 0 { RunStartPrefix(checks, more, k - 1); }
  }

  lemma {:induction false} NewRunStart(checks: seq<Check>, more: seq<Check>, k: nat)
    requires NewRun(checks, more) && k < |more|
    ensures RunStart(checks + more, |checks| + k) == |checks|
  {
    if k > 0 {
      NewRunStart(checks, more, k - 1);
      assert (checks + more)[|checks| + k] == more[k] && (checks + more)[|checks| + (k - 1)] == more[k - 1];
    }
  }

  lemma {:induction false} PlacedMore(base: nat, checks: seq<Check>, more: seq<Check>)
    requires Placed(base, checks) && NewRun(checks, more)
    requires forall k :: 0 <= k < |more| ==> more[k].logged == base + AcceptedBy(checks, |checks|)
    ensures Placed(base, checks + more)
  {
    forall k | 0 <= k < |checks + more| ensures PlacedAt(base, checks + more, k) {
      if k < |checks| {
        assert PlacedAt(base, checks, k);
        RunStartPrefix(checks, more, k);
        AcceptedPrefix(checks, more, RunStart(checks, k));
      } else {
        NewRunStart(checks, more, k - |checks|);
        AcceptedPrefix(checks, more, |checks|);
        assert (checks + more)[k] == more[k - |checks|];
      }
    }
  }

  ghost predicate CallPlaced(calls: seq<Call>, j: nat)
    requires j < |calls|
  {
    var before := Trail(calls, j); Placed(AcceptedBy(before, |before|), calls[j].checks)
  }

  /** And at all checks of later calls. */
  ghost predicate AllPlaced(calls: seq<Call>) {
    forall j :: 0 <= j < |calls| ==> CallPlaced(calls, j)
  }

  lemma {:induction false} AllPlacedNext(calls: seq<Call>, call: Call)
    requires AllPlaced(calls)
    requires var before := Trail(calls, |calls|); Placed(AcceptedBy(before, |before|), call.checks)
    ensures AllPlaced(calls + [call])
  {
    forall j | 0 <= j < |calls| + 1 ensures CallPlaced(calls + [call], j) {
      CallsPrefix(calls, [call], j);
      if j < |calls| { assert CallPlaced(calls, j); }
    }
  }

  // ---- Which references resolve ----

  /** How many checks of the run were settled, by a write or a refusal, when the k-th check of the j-th call was made:
      those of earlier calls, and those of the same call before its run of one file. */
  function Settled(calls: seq<Call>, j: nat, k: nat): nat
    requires j < |calls| && k < |calls[j].checks|
  {
    |Trail(calls, j)| + RunStart(calls[j].checks, k)
  }

  /** The check accepted what a reference to `id` in `target` stands for. */
  predicate Stands(c: Check, target: string, id: string) {
    && c.outcome.Accepted?
    && (|| (target == c.outcome.ent.file && id == c.outcome.source.id)
        || (target == GroupFile(c.outcome.ent) && c.outcome.ent.groupId != "" && id == c.outcome.ent.groupId))
  }

  ghost predicate StandsBefore(trail: seq<Check>, m: nat, target: string, id: string)
    requires m <= |trail|
  {
    exists t :: 0 <= t < m && Stands(trail[t], target, id)
  }

  /** All that is known of a run and its map. */
  ghost predicate Known(cfg: Config, feed: Feed, calls: seq<Call>, trail: seq<Check>, log: seq<Written>) {
    && Judged(cfg, trail) && trail == Trail(calls, |calls|) && RecordsPart(log, trail)
    && Informed(cfg.options, feed, trail, log) && AllPlaced(calls)
  }

  /** Where an accepted check is in the log. */
  lemma {:induction false} PlaceInLog(trail: seq<Check>, t: nat, n: nat)
    requires t < n <= |trail| && trail[t].outcome.Accepted?
    ensures AcceptedBy(trail, t) < AcceptedBy(trail, n) == |SourcesIn(trail, n)|
    ensures AcceptedIn(trail, n)[AcceptedBy(trail, t)] == trail[t].outcome.ent
    ensures SourcesIn(trail, n)[AcceptedBy(trail, t)] == trail[t].outcome.source
  {
    SameLengths(trail, t);
    SameLengths(trail, n);
    if t < n - 1 { PlaceInLog(trail, t, n - 1); }
  }

  lemma {:induction false} SameLengths(trail: seq<Check>, n: nat)
    requires n <= |trail|
    ensures AcceptedBy(trail, n) == |SourcesIn(trail, n)|
  {
    if n > 0 { SameLengths(trail, n - 1); }
  }

  /** Which check an entry of the log is from. */
  lemma {:induction false} CheckOfEntry(trail: seq<Check>, n: nat, i: nat) returns (t: nat)
    requires n <= |trail| && i < AcceptedBy(trail, n)
    ensures t < n && trail[t].outcome.Accepted? && AcceptedBy(trail, t) == i
  {
    if i < AcceptedBy(trail, n - 1) { t := CheckOfEntry(trail, n - 1, i); } else { t := n - 1; }
  }

  lemma {:induction false} EntryStands(log: seq<Written>, trail: seq<Check>, t: nat, f: string, i: string)
    requires RecordsPart(log, trail) && t < |trail| && trail[t].outcome.Accepted? && AcceptedBy(trail, t) < |log|
    ensures EntryOf(log[AcceptedBy(trail, t)], f, i).Some? <==> Stands(trail[t], f, i)
  {
    PlaceInLog(trail, t, |trail|);
  }

  lemma {:induction false} NamedIffStands(log: seq<Written>, trail: seq<Check>, m: nat, f: string, i: string)
    requires RecordsPart(log, trail) && m <= |trail| && AcceptedBy(trail, m) <= |log|
    ensures NewestIn(log, AcceptedBy(trail, m), f, i).Some? <==> StandsBefore(trail, m, f, i)
  {
    NewestIff(log, AcceptedBy(trail, m), f, i);
    if j :| 0 <= j < AcceptedBy(trail, m) && EntryOf(log[j], f, i).Some? {
      var t := CheckOfEntry(trail, m, j);
      EntryStands(log, trail, t, f, i);
    }
    if t :| 0 <= t < m && Stands(trail[t], f, i) {
      PlaceInLog(trail, t, m);
      EntryStands(log, trail, t, f, i);
    }
  }

  lemma {:induction false} AcceptedGrows(trail: seq<Check>, m: nat, n: nat)
    requires m <= n <= |trail|
    ensures AcceptedBy(trail, m) <= AcceptedBy(trail, n)
  {
    if m < n { AcceptedGrows(trail, m, n - 1); }
  }

  /** The calls of the run at one check. */
  lemma {:induction false} CheckInRun(calls: seq<Call>, n: nat, j: nat, k: nat)
    requires j < n <= |calls| && k < |calls[j].checks|
    ensures |Trail(calls, j)| + k < |Trail(calls, n)|
    ensures Trail(calls, n)[|Trail(calls, j)| + k] == calls[j].checks[k]
    ensures AcceptedIn(Trail(calls, n), |Trail(calls, j)| + k) ==
      AcceptedIn(Trail(calls, j), |Trail(calls, j)|) + AcceptedIn(calls[j].checks, k)
  {
    if j < n - 1 {
      CheckInRun(calls, n - 1, j, k);
      AcceptedPrefix(Trail(calls, n - 1), calls[n - 1].checks, |Trail(calls, j)| + k);
    } else {
      AcceptedConcat(Trail(calls, j), calls[j].checks, k);
    }
  }

  /** What was in the log at a check is what the settled checks accepted. */
  lemma {:induction false} LoggedIsSettled(calls: seq<Call>, trail: seq<Check>, j: nat, k: nat)
    requires trail == Trail(calls, |calls|) && AllPlaced(calls) && j < |calls| && k < |calls[j].checks|
    ensures Settled(calls, j, k) <= |Trail(calls, j)| + k < |trail|
    ensures calls[j].checks[k] == trail[|Trail(calls, j)| + k]
    ensures calls[j].checks[k].logged == AcceptedBy(trail, Settled(calls, j, k))
  {
    assert CallPlaced(calls, j) && PlacedAt(AcceptedBy(Trail(calls, j), |Trail(calls, j)|), calls[j].checks, k);
    CheckInRun(calls, |calls|, j, k);
    CheckInRun(calls, |calls|, j, RunStart(calls[j].checks, k));
  }

  /** A reference resolves exactly if what it stands for was accepted in a settled check. */
  lemma {:induction false} ReferenceResolvesIff(cfg: Config, feed: Feed, calls: seq<Call>, trail: seq<Check>,
                                                log: seq<Written>, j: nat, k: nat, r: Ref)
    requires Known(cfg, feed, calls, trail, log) && j < |calls| && k < |calls[j].checks| && r.id != ""
    ensures Settled(calls, j, k) <= |trail|
    ensures StandsBefore(trail, Settled(calls, j, k), r.target, r.id) ==> Resolves(calls[j].checks[k].ids, r)
    ensures !Aside(cfg.options, feed, r.target, r.id) ==>
      (Resolves(calls[j].checks[k].ids, r) <==> StandsBefore(trail, Settled(calls, j, k), r.target, r.id))
  {
    LoggedIsSettled(calls, trail, j, k);
    assert CheckKnows(cfg.options, feed, trail[|Trail(calls, j)| + k], log);
    var c := calls[j].checks[k];
    assert Answers(cfg.options, feed, c.ids, log, c.logged, r.target, r.id);
    NamedIffStands(log, trail, Settled(calls, j, k), r.target, r.id);
  }

  /** It is replaced by the new id of the entity accepted last among those, or stays if it is a group id. */
  lemma {:induction false} ReferenceIsNewest(cfg: Config, feed: Feed, calls: seq<Call>, trail: seq<Check>,
                                             log: seq<Written>, j: nat, k: nat, r: Ref, t: nat)
    requires Known(cfg, feed, calls, trail, log) && j < |calls| && k < |calls[j].checks| && r.id != ""
    requires !Aside(cfg.options, feed, r.target, r.id)
    requires t < Settled(calls, j, k) <= |trail| && Stands(trail[t], r.target, r.id)
    requires forall u :: t < u < Settled(calls, j, k) ==> !Stands(trail[u], r.target, r.id)
    ensures AcceptedBy(trail, t) < |log| && log[AcceptedBy(trail, t)].source == trail[t].outcome.source
    ensures UpdatedRef(calls[j].checks[k].ids, r) ==
      Ref(r.target, if r.target == trail[t].outcome.ent.file then log[AcceptedBy(trail, t)].eid else r.id)
  {
    LoggedIsSettled(calls, trail, j, k);
    assert CheckKnows(cfg.options, feed, trail[|Trail(calls, j)| + k], log);
    var c, i := calls[j].checks[k], AcceptedBy(trail, t);
    assert Answers(cfg.options, feed, c.ids, log, c.logged, r.target, r.id);
    NewestIsOf(log, trail, Settled(calls, j, k), t, r.target, r.id);
    GroupFileDiffers(trail[t].outcome.ent);
  }

  lemma GroupFileDiffers(e: Entity)
    ensures GroupFile(e) != e.file
  {
    assert |GroupFile(e)| > |e.file|;
  }

  lemma {:induction false} NewestIsOf(log: seq<Written>, trail: seq<Check>, m: nat, t: nat, f: string, i: string)
    requires RecordsPart(log, trail) && t < m <= |trail| && Stands(trail[t], f, i) && AcceptedBy(trail, m) <= |log|
    requires forall u :: t < u < m ==> !Stands(trail[u], f, i)
    ensures AcceptedBy(trail, t) < AcceptedBy(trail, m)
    ensures log[AcceptedBy(trail, t)].source == trail[t].outcome.source
    ensures log[AcceptedBy(trail, t)].ent == trail[t].outcome.ent
    ensures NewestIn(log, AcceptedBy(trail, m), f, i) == EntryOf(log[AcceptedBy(trail, t)], f, i)
  {
    PlaceInLog(trail, t, m);
    PlaceInLog(trail, t, |trail|);
    EntryStands(log, trail, t, f, i);
    forall x | AcceptedBy(trail, t) < x < AcceptedBy(trail, m) ensures EntryOf(log[x], f, i).None? {
      var u := CheckOfEntry(trail, m, x);
      EntryStands(log, trail, u, f, i);
      if u <= t { AcceptedGrows(trail, u, t); }
    }
    LastIsNewest(log, AcceptedBy(trail, m), f, i, AcceptedBy(trail, t));
  }

  /** All references of an entity are empty, or what they stand for was accepted in a settled check. */
  ghost predicate AllStand(trail: seq<Check>, m: nat, e: Entity)
    requires m <= |trail|
  {
    forall i :: 0 <= i < |e.refs| ==> e.refs[i].id == "" || StandsBefore(trail, m, e.refs[i].target, e.refs[i].id)
  }

  /** None of them is to a service entered though not written. */
  predicate NoneAside(o: Options, feed: Feed, e: Entity) {
    forall i :: 0 <= i < |e.refs| ==> e.refs[i].id == "" || !Aside(o, feed, e.refs[i].target, e.refs[i].id)
  }

  /** The references of an entity whose references all stand for something accepted resolve, and no others do. */
  lemma {:induction false} EntityResolvesIff(cfg: Config, feed: Feed, calls: seq<Call>, trail: seq<Check>,
                                             log: seq<Written>, j: nat, k: nat, e: Entity)
    requires Known(cfg, feed, calls, trail, log) && j < |calls| && k < |calls[j].checks|
    ensures Settled(calls, j, k) <= |trail|
    ensures AllStand(trail, Settled(calls, j, k), e) ==> AllResolve(calls[j].checks[k].ids, e)
    ensures NoneAside(cfg.options, feed, e) ==>
      (AllResolve(calls[j].checks[k].ids, e) <==> AllStand(trail, Settled(calls, j, k), e))
  {
    LoggedIsSettled(calls, trail, j, k);
    forall i | 0 <= i < |e.refs| && e.refs[i].id != ""
      ensures StandsBefore(trail, Settled(calls, j, k), e.refs[i].target, e.refs[i].id) ==>
        Resolves(calls[j].checks[k].ids, e.refs[i])
      ensures !Aside(cfg.options, feed, e.refs[i].target, e.refs[i].id) ==>
        (Resolves(calls[j].checks[k].ids, e.refs[i]) <==>
         StandsBefore(trail, Settled(calls, j, k), e.refs[i].target, e.refs[i].id))
    {
      ReferenceResolvesIff(cfg, feed, calls, trail, log, j, k, e.refs[i]);
    }
  }

  /** The k-th check of the j-th call is of an entity that markers and filters let pass and that has no errors of its
      own. */
  predicate Sane(cfg: Config, calls: seq<Call>, j: nat, k: nat)
    requires j < |calls| && k < |calls[j].checks|
  {
    var v := cfg.judge(|Trail(calls, j)| + k, calls[j].checks[k].given);
    v.marked && v.filtered.Some? && v.ownErrors == 0
  }

  /** The entity of that check as the filters left it. */
  function SourceAt(cfg: Config, calls: seq<Call>, j: nat, k: nat): Entity
    requires j < |calls| && k < |calls[j].checks| && Sane(cfg, calls, j, k)
  {
    SourceOf(cfg, |Trail(calls, j)| + k, calls[j].checks[k].given)
  }

  /** Such an entity is refused for errors exactly if references are checked and one of its own stands for nothing that
      was accepted in a settled check; in particular never if all references stand for something. */
  ghost predicate RefusedRightly(cfg: Config, feed: Feed, calls: seq<Call>, trail: seq<Check>, j: nat, k: nat)
    requires j < |calls| && k < |calls[j].checks|
  {
    var m, refused := Settled(calls, j, k), RefusedForErrors(calls[j].checks[k].outcome);
    Sane(cfg, calls, j, k) && m <= |trail| ==>
      && (AllStand(trail, m, SourceAt(cfg, calls, j, k)) ==> !refused)
      && (NoneAside(cfg.options, feed, SourceAt(cfg, calls, j, k)) ==>
            (refused <==> ChecksReferences(cfg.options) && !AllStand(trail, m, SourceAt(cfg, calls, j, k))))
  }

  lemma {:induction false} RefusedForReferenceIff(cfg: Config, feed: Feed, calls: seq<Call>, trail: seq<Check>,
                                                  log: seq<Written>, j: nat, k: nat)
    requires Known(cfg, feed, calls, trail, log) && j < |calls| && k < |calls[j].checks|
    ensures Settled(calls, j, k) <= |trail| && RefusedRightly(cfg, feed, calls, trail, j, k)
  {
    LoggedIsSettled(calls, trail, j, k);
    if Sane(cfg, calls, j, k) {
      var n, c := |Trail(calls, j)| + k, calls[j].checks[k];
      RefusedForErrorsIff(cfg, n, c.ids, c.given);
      EntityResolvesIff(cfg, feed, calls, trail, log, j, k, SourceAt(cfg, calls, j, k));
    }
  }

  /** So it is at every check of a run. */
  ghost predicate AllRefusedRightly(cfg: Config, feed: Feed, calls: seq<Call>, trail: seq<Check>) {
    forall j, k :: 0 <= j < |calls| && 0 <= k < |calls[j].checks| ==> RefusedRightly(cfg, feed, calls, trail, j, k)
  }

  lemma {:induction false} KnownRefuses(cfg: Config, feed: Feed, calls: seq<Call>, trail: seq<Check>,
                                        log: seq<Written>)
    requires Known(cfg, feed, calls, trail, log)
    ensures AllRefusedRightly(cfg, feed, calls, trail)
  {
    forall j, k | 0 <= j < |calls| && 0 <= k < |calls[j].checks|
      ensures RefusedRightly(cfg, feed, calls, trail, j, k)
    {
      RefusedForReferenceIff(cfg, feed, calls, trail, log, j, k);
    }
  }
}
