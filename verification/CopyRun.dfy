/** Whole runs of the copier: the Copier object of copier/copier.go, and what every one of its steps keeps. */
module CopyRun {
  import opened Sequences
  import opened EntityCopier
  import opened CopyTrace
  import opened CopyPasses
  import opened CopyMap
  import opened Deduplication
  import ServiceCalendar
  import ServiceObject
  import TripPatterns

  /** How a step ends: normally, with an error that stops the run, or by an index-out-of-range panic. */
  datatype Status = Done | Stopped | Panic

  function Plus(m: map<string, nat>, f: string, n: nat): map<string, nat> {
    m[f := At(m, f) + n]
  }

  /** The counters of a run. There is none for a refusal by an after-validator. */
  class Result {
    var entityCount: map<string, nat>
    var skipMarked: map<string, nat>
    var skipFilter: map<string, nat>
    var skipError: map<string, nat>
    var skipReference: map<string, nat>

    constructor ()
      ensures forall f, fate :: Count(f, fate) == 0
    {
      entityCount, skipMarked, skipFilter, skipError, skipReference := map[], map[], map[], map[], map[];
    }

    /** What is counted of a file: the written ones, or those skipped for one reason. */
    function Count(f: string, fate: Fate): nat reads this {
      match fate
      case Taken => At(entityCount, f)
      case Skipped(Marked) => At(skipMarked, f)
      case Skipped(Filtered) => At(skipFilter, f)
      case Skipped(EntityError) => At(skipError, f)
      case Skipped(ReferenceError) => At(skipReference, f)
      case Skipped(AfterValidator) => 0
    }

    /** All that is counted of a file. */
    function Sum(f: string): nat reads this {
      At(entityCount, f) + At(skipMarked, f) + At(skipFilter, f) + At(skipError, f) + At(skipReference, f)
    }

    method Skip(reason: Reason, f: string)
      modifies this
      ensures forall g, fate ::
        Count(g, fate) ==
        old(Count(g, fate)) + if g == f && fate == Skipped(reason) && reason != AfterValidator then 1 else 0
    {
      match reason
      case Marked => skipMarked := Plus(skipMarked, f, 1);
      case Filtered => skipFilter := Plus(skipFilter, f, 1);
      case EntityError => skipError := Plus(skipError, f, 1);
      case ReferenceError => skipReference := Plus(skipReference, f, 1);
      case AfterValidator =>
    }

    method AddWritten(f: string, n: nat)
      modifies this
      ensures forall g, fate :: Count(g, fate) == old(Count(g, fate)) + if g == f && fate == Taken then n else 0
    {
      entityCount := Plus(entityCount, f, n);
    }
  }

  // ---- Runs of one file ----

  /** Consecutive entities of one file. */
  ghost predicate OneFile(ents: seq<Entity>) {
    ents != [] && forall e :: e in ents ==> e.file == ents[0].file
  }

  /** Each batch is of one file, and the file changes from batch to batch. */
  ghost predicate FileRuns(batches: seq<seq<Entity>>) {
    && (forall i :: 0 <= i < |batches| ==> OneFile(batches[i]))
    && (forall i :: 0 < i < |batches| ==> FileChanges(batches, i))
  }

  ghost predicate FileChanges(batches: seq<seq<Entity>>, i: nat)
    requires 0 < i < |batches|
  {
    batches[i - 1] != [] && batches[i] != [] && batches[i - 1][0].file != batches[i][0].file
  }

  lemma FileRunsSnoc(batches: seq<seq<Entity>>, batch: seq<Entity>)
    requires FileRuns(batches) && OneFile(batch)
    requires batches != [] ==> batches[|batches| - 1][0].file != batch[0].file
    ensures FileRuns(batches + [batch])
  {
    forall i | 0 < i <= |batches| ensures FileChanges(batches + [batch], i) {
      if i < |batches| { assert FileChanges(batches, i); }
    }
  }

  /** The first i entities are split into runs of one file, the last still open. */
  ghost predicate SplitUpTo(ents: seq<Entity>, i: nat, batches: seq<seq<Entity>>, batch: seq<Entity>) {
    && i <= |ents| && Flatten(batches, |batches|) + batch == ents[..i] && OneFile(batch) && FileRuns(batches)
    && (batches != [] ==> batches[|batches| - 1][0].file != batch[0].file)
  }

  lemma SplitNext(ents: seq<Entity>, i: nat, batches: seq<seq<Entity>>, batch: seq<Entity>)
    requires i < |ents| && SplitUpTo(ents, i, batches, batch)
    ensures if ents[i].file == batch[0].file then SplitUpTo(ents, i + 1, batches, batch + [ents[i]])
            else SplitUpTo(ents, i + 1, batches + [batch], [ents[i]])
  {
    if ents[i].file == batch[0].file {
      TakeNext(Flatten(batches, |batches|), batch, ents, i);
    } else {
      FlattenSnoc(batches, batch);
      FileRunsSnoc(batches, batch);
    }
  }

  lemma SplitAll(ents: seq<Entity>, batches: seq<seq<Entity>>, batch: seq<Entity>)
    requires SplitUpTo(ents, |ents|, batches, batch)
    ensures FileRuns(batches + [batch]) && Flatten(batches + [batch], |batches| + 1) == ents
  {
    FlattenSnoc(batches, batch);
    FileRunsSnoc(batches, batch);
    assert ents[..|ents|] == ents;
  }

  /** batchEntFilenames, and the fallback of its caller for a single file: the runs of one file, in order. */
  method BatchEntFilenames(ents: seq<Entity>) returns (batches: seq<seq<Entity>>)
    requires ents != []
    ensures FileRuns(batches) && Flatten(batches, |batches|) == ents
  {
    batches := [];
    var batch := [ents[0]];
    for i := 1 to |ents|
      invariant SplitUpTo(ents, i, batches, batch)
    {
      SplitNext(ents, i, batches, batch);
      if ents[i].file == batch[0].file {
        batch := batch + [ents[i]];
      } else {
        batches := batches + [batch];
        batch := [ents[i]];
      }
    }
    SplitAll(ents, batches, batch);
    batches := batches + [batch];
  }

  // ---- The copier ----

  class Copier {
    const cfg: Config
    const feed: Feed
    const emap: EntityMap
    const result: Result
    var checks: nat
    var expands: nat
    var writes: nat
    var notices: nat
    /** What the writer accepted, every check, and every call of copyEntities. */
    ghost var log: seq<Written>
    ghost var trail: seq<Check>
    ghost var calls: seq<Call>

    constructor (cfg: Config, feed: Feed)
      ensures Valid() && fresh(emap) && fresh(result) && this.cfg == cfg && this.feed == feed
      ensures log == [] && trail == [] && calls == []
    {
      this.cfg, this.feed := cfg, feed;
      emap := new EntityMap();
      result := new Result();
      checks, expands, writes, notices, log, trail, calls := 0, 0, 0, 0, [], [], [];
      MapsNothing(cfg.options, feed);
    }

    /** References are checked, and only written entities are entered in the map: with NormalizeServiceIDs, or over a
        feed that lists all services. */
    ghost predicate Safe() {
      ChecksReferences(cfg.options) && (cfg.options.normalizeServiceIds || AllListed(feed))
    }

    /** The promise of a run, whatever the extensions and the writer answer. */
    ghost predicate Consistent() reads this`log, emap {
      Mapped() && Identified(cfg, log) && (Safe() ==> Integrity(log) && Sound(emap.ids, log))
    }

    /** The map answers with the newest of what was written. */
    ghost predicate Mapped() reads this`log, emap {
      Maps(cfg.options, feed, emap.ids, log, |log|)
    }

    /** And did so at every check. */
    ghost predicate Aware() reads this`log, this`trail {
      Informed(cfg.options, feed, trail, log)
    }

    /** The trail is that of checkEntity. */
    ghost predicate Tracked() reads this`trail, this`checks {
      checks == |trail| && Judged(cfg, trail)
    }

    /** The counters are those of the trail, but for `n` accepted entities of file `f` yet to be written. */
    ghost predicate Tallied(f: string, n: nat) reads this`trail, result {
      forall g, fate :: fate != Skipped(AfterValidator) ==>
        result.Count(g, fate) + (if g == f && fate == Taken then n else 0) == Hits(trail, |trail|, g, fate)
    }

    /** The calls account for the whole trail. */
    ghost predicate Filed() reads this`trail, this`calls, this`expands {
      trail == Trail(calls, |calls|) && expands == |Inputs(calls, |calls|)| && AllComplete(cfg, calls)
    }

    ghost predicate Valid()
      reads this`log, this`trail, this`checks, this`calls, this`expands, emap, result
    {
      && Consistent() && Tracked() && Tallied("", 0) && Filed() && Records(log, trail)
      && Aware() && AllPlaced(calls)
    }

    // ---- One entity ----

    /** UpdateKeys: all references are looked up; the number that fail is returned. */
    method UpdateKeys(source: Entity) returns (ent: Entity, refErrors: nat)
      modifies emap
      ensures SameLookups(old(emap.ids), emap.ids)
      ensures ent == Updated(old(emap.ids), source) && (refErrors == 0 <==> AllResolve(old(emap.ids), source))
    {
      var refs: seq<Ref> := [];
      refErrors := 0;
      ghost var ids := emap.ids;
      for i := 0 to |source.refs|
        invariant |refs| == i && SameLookups(ids, emap.ids)
        invariant refErrors == 0 <==> forall k :: 0 <= k < i ==> Resolves(ids, source.refs[k])
        invariant forall k :: 0 <= k < i ==> refs[k] == UpdatedRef(ids, source.refs[k])
      {
        var r, ok := emap.UpdateKey(source.refs[i]);
        if !ok { refErrors := refErrors + 1; }
        refs := refs + [r];
      }
      ent := source.(refs := refs);
      assert refs == Updated(ids, source).refs;
    }

    /** checkEntity without its bookkeeping: the outcome, and what is counted. */
    method Judge(e: Entity) returns (outcome: Outcome)
      modifies this`checks, result, emap
      ensures SameLookups(old(emap.ids), emap.ids) && checks == old(checks) + 1
      ensures outcome == OutcomeOf(cfg, old(checks), old(emap.ids), e)
      ensures forall g, fate ::
        result.Count(g, fate) == old(result.Count(g, fate)) +
        if g == e.file && fate == FateOf(outcome) && fate != Taken && fate != Skipped(AfterValidator) then 1 else 0
    {
      var v := cfg.judge(checks, e);
      checks := checks + 1;
      if !v.marked {
        result.Skip(Marked, e.file);
        return Refused(Marked);
      }
      if v.filtered.None? {
        result.Skip(Filtered, e.file);
        return Refused(Filtered);
      }
      var source := v.filtered.value.(file := e.file, id := e.id);
      var ent, refErrors := UpdateKeys(source);
      if v.ownErrors + refErrors > 0 && !cfg.options.allowEntityErrors {
        result.Skip(EntityError, e.file);
        return Refused(EntityError);
      }
      if refErrors > 0 && !cfg.options.allowReferenceErrors {
        result.Skip(ReferenceError, e.file);
        return Refused(ReferenceError);
      }
      if !v.afterOk {
        return Refused(AfterValidator);
      }
      outcome := Accepted(source, ent);
    }

    /** The trail with one more check. */
    twostate predicate CheckedNext(e: Entity, outcome: Outcome) reads this`trail, this`log {
      && outcome == OutcomeOf(cfg, |old(trail)|, old(emap.ids), e)
      && trail == old(trail) + [Check(old(emap.ids), |log|, e, outcome)]
    }

    /** checkEntity: `n` entities of the file were accepted before and are not written yet. */
    method CheckEntity(e: Entity, ghost n: nat) returns (outcome: Outcome)
      requires Tracked() && Tallied(e.file, n) && Mapped() && Aware()
      modifies this`checks, this`trail, result, emap
      ensures SameLookups(old(emap.ids), emap.ids) && CheckedNext(e, outcome) && Tracked() && Mapped() && Aware()
      ensures Tallied(e.file, if outcome.Accepted? then n + 1 else n)
    {
      ghost var ids := emap.ids;
      InformedNext(cfg.options, feed, trail, log, Check(ids, |log|, e, OutcomeOf(cfg, checks, ids, e)));
      outcome := JudgeNext(e, n);
      MapsSame(cfg.options, feed, ids, emap.ids, log, |log|);
    }

    /** The check joins the trail, and the counters follow. */
    method JudgeNext(e: Entity, ghost n: nat) returns (outcome: Outcome)
      requires Tracked() && Tallied(e.file, n)
      modifies this`checks, this`trail, result, emap
      ensures SameLookups(old(emap.ids), emap.ids) && CheckedNext(e, outcome) && Tracked()
      ensures Tallied(e.file, if outcome.Accepted? then n + 1 else n)
    {
      ghost var c := Check(emap.ids, |log|, e, OutcomeOf(cfg, checks, emap.ids, e));
      forall g, fate ensures Hits(trail + [c], |trail| + 1, g, fate) ==
        Hits(trail, |trail|, g, fate) + if c.given.file == g && FateOf(c.outcome) == fate then 1 else 0
      {
        HitsNext(trail, c, g, fate);
      }
      outcome := Judge(e);
      trail := trail + [c];
    }

    // ---- One batch of one file ----

    /** One file's entities, with all references resolved where they are checked. */
    ghost predicate Fit(ids: Ids, f: string, sources: seq<Entity>, ents: seq<Entity>) {
      && |sources| == |ents|
      && forall i :: 0 <= i < |ents| ==>
        sources[i].file == ents[i].file == f && (ChecksReferences(cfg.options) ==> Resolved(ids, sources[i], ents[i]))
    }

    /** The checks of the first n entities of a batch, and what they accept. */
    ghost predicate BatchChecked(ids: Ids, logged: nat, batch: seq<Entity>, n: nat, more: seq<Check>,
                                 sources: seq<Entity>, ents: seq<Entity>)
      requires n <= |batch|
    {
      && Givens(more) == batch[..n] && (forall c :: c in more ==> SameLookups(ids, c.ids) && c.logged == logged)
      && sources == SourcesIn(more, |more|) && ents == AcceptedIn(more, |more|)
      && (n > 0 ==> Fit(ids, batch[0].file, sources, ents)) && (n == 0 ==> sources == ents == [])
    }

    lemma BatchCheckedNext(ids: Ids, logged: nat, batch: seq<Entity>, n: nat, more: seq<Check>, sources: seq<Entity>,
                           ents: seq<Entity>, c: Check, k: nat)
      requires n < |batch| && OneFile(batch) && BatchChecked(ids, logged, batch, n, more, sources, ents)
      requires c.given == batch[n] && SameLookups(ids, c.ids) && c.outcome == OutcomeOf(cfg, k, c.ids, c.given)
      requires c.logged == logged
      ensures BatchChecked(ids, logged, batch, n + 1, more + [c],
                           if c.outcome.Accepted? then sources + [c.outcome.source] else sources,
                           if c.outcome.Accepted? then ents + [c.outcome.ent] else ents)
    {
      assert batch[n] in batch;
      GivensNext(batch, n, more, c);
      AcceptedSnoc(more, c);
      if c.outcome.Accepted? { FitNext(ids, batch[0].file, sources, ents, c, k); }
    }

    lemma GivensNext(batch: seq<Entity>, n: nat, more: seq<Check>, c: Check)
      requires n < |batch| && Givens(more) == batch[..n] && c.given == batch[n]
      ensures Givens(more + [c]) == batch[..n + 1]
    {
      GivensConcat(more, [c]);
    }

    lemma FitNext(ids: Ids, f: string, sources: seq<Entity>, ents: seq<Entity>, c: Check, k: nat)
      requires (|ents| > 0 ==> Fit(ids, f, sources, ents)) && |sources| == |ents|
      requires c.given.file == f && SameLookups(ids, c.ids)
      requires c.outcome.Accepted? && c.outcome == OutcomeOf(cfg, k, c.ids, c.given)
      ensures Fit(ids, f, sources + [c.outcome.source], ents + [c.outcome.ent])
    {
      AcceptedResolved(cfg, k, c.ids, c.given);
      CheckedStill(c.ids, ids, [c.outcome.source], [c.outcome.ent]);
    }

    /** One round of checkEntity: the i-th entity of the batch. */
    method CheckAt(ghost ids: Ids, batch: seq<Entity>, i: nat, sources: seq<Entity>, ents: seq<Entity>,
                   ghost more: seq<Check>)
      returns (allSources: seq<Entity>, allEnts: seq<Entity>, ghost c: Check)
      requires i < |batch| && OneFile(batch) && SameLookups(ids, emap.ids) && Tracked() && Mapped() && Aware()
      requires BatchChecked(ids, |log|, batch, i, more, sources, ents) && Tallied(batch[0].file, |ents|)
      modifies this`checks, this`trail, result, emap
      ensures SameLookups(ids, emap.ids) && Tracked() && Mapped() && Aware() && trail == old(trail) + [c]
      ensures BatchChecked(ids, |log|, batch, i + 1, more + [c], allSources, allEnts)
      ensures Tallied(batch[0].file, |allEnts|)
    {
      assert batch[i] in batch;
      c := Check(emap.ids, |log|, batch[i], OutcomeOf(cfg, checks, emap.ids, batch[i]));
      BatchCheckedNext(ids, |log|, batch, i, more, sources, ents, c, checks);
      var outcome := CheckEntity(batch[i], |ents|);
      allSources, allEnts := sources, ents;
      if outcome.Accepted? {
        allSources, allEnts := sources + [outcome.source], ents + [outcome.ent];
      }
    }

    method CheckBatch(batch: seq<Entity>)
      returns (sources: seq<Entity>, ents: seq<Entity>, ghost more: seq<Check>)
      requires Tracked() && Tallied("", 0) && OneFile(batch) && Mapped() && Aware()
      modifies this`checks, this`trail, result, emap
      ensures SameLookups(old(emap.ids), emap.ids) && Tracked() && trail == old(trail) + more && Mapped() && Aware()
      ensures BatchChecked(old(emap.ids), |log|, batch, |batch|, more, sources, ents)
      ensures Tallied(batch[0].file, |ents|)
    {
      sources, ents, more := [], [], [];
      for i := 0 to |batch|
        invariant SameLookups(old(emap.ids), emap.ids) && Tracked() && Mapped() && Aware()
        invariant trail == old(trail) + more && Tallied(batch[0].file, |ents|)
        invariant BatchChecked(old(emap.ids), |log|, batch, i, more, sources, ents)
      {
        ghost var c;
        sources, ents, c := CheckAt(old(emap.ids), batch, i, sources, ents, more);
        more := more + [c];
      }
    }

    lemma BatchIsChecked(ids: Ids, next: Ids, logged: nat, batch: seq<Entity>, more: seq<Check>, sources: seq<Entity>,
                         ents: seq<Entity>)
      requires batch != [] && BatchChecked(ids, logged, batch, |batch|, more, sources, ents) && SameLookups(ids, next)
      ensures Fit(next, batch[0].file, sources, ents) && Givens(more) == batch
      ensures forall k :: 0 <= k < |more| ==> more[k].logged == logged
    {
      CheckedStill(ids, next, sources, ents);
    }

    lemma CheckedStill(ids: Ids, next: Ids, sources: seq<Entity>, ents: seq<Entity>)
      requires SameLookups(ids, next)
      ensures forall i :: 0 <= i < |ents| && i < |sources| ==>
        (Resolved(ids, sources[i], ents[i]) <==> Resolved(next, sources[i], ents[i]))
    {
    }

    /** The log grew by exactly these. */
    twostate predicate Logged(sources: seq<Entity>, ents: seq<Entity>) reads this`log {
      Grown(old(log), log, sources, ents)
    }

    ghost predicate Grown(before: seq<Written>, log: seq<Written>, sources: seq<Entity>, ents: seq<Entity>) {
      && before <= log && |sources| == |ents| && |log| == |before| + |ents|
      && forall i :: 0 <= i < |ents| ==> log[|before| + i].source == sources[i] && log[|before| + i].ent == ents[i]
    }

    method WriterAddEntities(ghost efn: string, sources: seq<Entity>, ents: seq<Entity>) returns (status: Status)
      requires Consistent() && Fit(emap.ids, efn, sources, ents) && Tallied(efn, |ents|)
      modifies this`writes, this`notices, this`log, result, emap
      ensures Consistent() && status != Panic && KnowsMore(old(emap.ids), emap.ids) && old(log) <= log
      ensures status == Done ==> Tallied("", 0)
      ensures Logged(sources, ents) || (status == Stopped && log == old(log))
      ensures status == Done <==> ents == [] || WriteSucceeds(cfg, old(writes), old(notices), ents)
    {
      if |ents| == 0 {
        NothingTallied(efn);
        return Done;
      }
      FitFile(emap.ids, efn, sources, ents);
      status := AddEntities(ents[0].file, sources, ents);
    }

    lemma NothingTallied(efn: string)
      requires Tallied(efn, 0)
      ensures Tallied("", 0)
    {
    }

    lemma FitFile(ids: Ids, efn: string, sources: seq<Entity>, ents: seq<Entity>)
      requires ents != [] && Fit(ids, efn, sources, ents)
      ensures ents[0].file == efn
    {
    }

    /** The writer's answer decides whether anything is recorded. */
    method AddEntities(efn: string, sources: seq<Entity>, ents: seq<Entity>) returns (status: Status)
      requires Consistent() && Fit(emap.ids, efn, sources, ents) && Tallied(efn, |ents|)
      modifies this`writes, this`notices, this`log, result, emap
      ensures Consistent() && status != Panic && KnowsMore(old(emap.ids), emap.ids) && old(log) <= log
      ensures status == Done ==> Tallied("", 0)
      ensures Logged(sources, ents) || (status == Stopped && log == old(log))
      ensures status == Done <==> WriteSucceeds(cfg, old(writes), old(notices), ents)
    {
      var eids := cfg.assign(writes, ents);
      writes := writes + 1;
      if eids.None? || |eids.value| != |ents| {
        return Stopped;
      }
      status := WriteBatch(efn, sources, ents, eids.value, old(writes));
    }

    /** What follows a successful write. */
    method WriteBatch(efn: string, sources: seq<Entity>, ents: seq<Entity>, eids: seq<string>, ghost write: nat)
      returns (status: Status)
      requires Consistent() && Fit(emap.ids, efn, sources, ents) && Tallied(efn, |ents|)
      requires |eids| == |ents| && cfg.assign(write, ents) == Some(eids)
      modifies this`notices, this`log, result, emap
      ensures Consistent() && Logged(sources, ents) && Tallied("", 0) && KnowsMore(old(emap.ids), emap.ids)
      ensures status == if Notified(cfg, old(notices), eids, ents) then Done else Stopped
    {
      WriteAll(efn, sources, ents, eids, write);
      var notified := NotifyAll(ents, eids);
      status := if notified then Done else Stopped;
    }

    /** The map and the counter. */
    method WriteAll(efn: string, sources: seq<Entity>, ents: seq<Entity>, eids: seq<string>, ghost write: nat)
      requires Consistent() && Fit(emap.ids, efn, sources, ents) && Tallied(efn, |ents|)
      requires |eids| == |ents| && cfg.assign(write, ents) == Some(eids)
      modifies this`log, result, emap
      ensures Consistent() && Logged(sources, ents) && Tallied("", 0) && KnowsMore(old(emap.ids), emap.ids)
    {
      RecordAll(efn, sources, ents, eids, write);
      CountWritten(efn, |ents|);
    }

    method CountWritten(efn: string, n: nat)
      requires Tallied(efn, n)
      modifies result
      ensures Tallied("", 0)
    {
      result.AddWritten(efn, n);
    }

    /** The after-writers, until one fails. */
    method NotifyAll(ents: seq<Entity>, eids: seq<string>) returns (ok: bool)
      requires |eids| == |ents|
      modifies this`notices
      ensures ok <==> Notified(cfg, old(notices), eids, ents)
    {
      for i := 0 to |ents|
        invariant notices == old(notices) + i
        invariant forall k :: 0 <= k < i ==> cfg.notify(old(notices) + k, eids[k], ents[k])
      {
        var noticed := cfg.notify(notices, eids[i], ents[i]);
        notices := notices + 1;
        if !noticed {
          return false;
        }
      }
      ok := true;
    }

    method RecordAll(ghost efn: string, sources: seq<Entity>, ents: seq<Entity>, eids: seq<string>, ghost write: nat)
      requires Consistent() && Fit(emap.ids, efn, sources, ents)
      requires |eids| == |ents| && cfg.assign(write, ents) == Some(eids)
      modifies this`log, emap
      ensures Consistent() && Logged(sources, ents) && KnowsMore(old(emap.ids), emap.ids)
    {
      ghost var ids := emap.ids;
      for i := 0 to |ents|
        invariant Consistent() && Logged(sources[..i], ents[..i]) && KnowsMore(ids, emap.ids)
      {
        assert IdFrom(cfg, Written(sources[i], ents[i], eids[i]), write, ents, i);
        RecordWritten(ids, old(log), sources[i], ents[i], eids[i]);
      }
      assert sources[..|ents|] == sources && ents[..|ents|] == ents;
    }

    /** One round of the map update: the id, and the group id if the entity has one. */
    method RecordWritten(ghost ids: Ids, ghost before: seq<Written>, source: Entity, ent: Entity, eid: string)
      requires Consistent() && before <= log && source.file == ent.file && GivenId(cfg, Written(source, ent, eid))
      requires Safe() ==> Sound(ids, before) && Resolved(ids, source, ent)
      modifies this`log, emap
      ensures Consistent() && log == old(log) + [Written(source, ent, eid)]
      ensures Enters(old(emap.ids), emap.ids, Written(source, ent, eid)) && KnowsMore(old(emap.ids), emap.ids)
    {
      ghost var w, was := Written(source, ent, eid), emap.ids;
      emap.Set(ent.file, source.id, eid);
      if ent.groupId != "" {
        emap.Set(ent.file + ":" + ent.groupKey, ent.groupId, ent.groupId);
      }
      GroupFileDiffers(ent);
      MapsNext(cfg.options, feed, was, emap.ids, log, w);
      if Safe() {
        SoundStill(was, emap.ids, log, w);
        ResolvedRefsNamed(ids, before, source, ent, eid);
        RefsStill(before, log[|before|..], w, |before|);
        assert before + log[|before|..] == log;
        AppendKeepsIntegrity(log, w, |before|);
      }
      log := log + [w];
    }

    /** What one batch of copyEntities leaves: its checks, and on success all it accepted in the log. */
    method CopyBatch(batch: seq<Entity>) returns (status: Status, ents: seq<Entity>, ghost more: seq<Check>)
      requires Consistent() && Tracked() && Tallied("", 0) && Records(log, trail) && OneFile(batch) && Aware()
      modifies this`checks, this`trail, this`writes, this`notices, this`log, result, emap
      ensures Consistent() && Tracked() && status != Panic && trail == old(trail) + more && Givens(more) == batch
      ensures Aware() && forall k :: 0 <= k < |more| ==> more[k].logged == |old(log)|
      ensures RecordsPart(log, trail) && (status == Done ==> |log| == |old(log)| + |ents|)
      ensures forall c :: c in more ==> SameLookups(old(emap.ids), c.ids)
      ensures KnowsMore(old(emap.ids), emap.ids) && (WriterWorks(cfg) ==> status == Done)
      ensures status == Done ==> Tallied("", 0) && Records(log, trail) && ents == AcceptedIn(more, |more|)
    {
      var sources;
      sources, ents, more := CheckBatch(batch);
      BatchIsChecked(old(emap.ids), emap.ids, |log|, batch, more, sources, ents);
      status := WriterAddEntities(batch[0].file, sources, ents);
      InformedStill(cfg.options, feed, trail, old(log), log);
      BatchLogged(old(log), log, old(trail), more, status == Done);
    }

    lemma {:induction false} BatchLogged(before: seq<Written>, log: seq<Written>, trail: seq<Check>, more: seq<Check>,
                                         done: bool)
      requires Records(before, trail)
      requires var s, a := SourcesIn(more, |more|), AcceptedIn(more, |more|);
        |s| == |a| && (Grown(before, log, s, a) || (!done && log == before))
      ensures RecordsPart(log, trail + more)
      ensures done ==> Records(log, trail + more) && |log| == |before| + |AcceptedIn(more, |more|)|
    {
      if done || log != before { RecordsMore(before, log, trail, more); } else { RecordsPartStill(log, trail, more); }
    }

    lemma {:induction false} RecordsMore(before: seq<Written>, log: seq<Written>, trail: seq<Check>, more: seq<Check>)
      requires Records(before, trail) && Grown(before, log, SourcesIn(more, |more|), AcceptedIn(more, |more|))
      ensures Records(log, trail + more)
    {
      AcceptedConcat(trail, more, |more|);
      RecordsJoin(before, log, SourcesIn(trail, |trail|), AcceptedIn(trail, |trail|), SourcesIn(more, |more|),
                  AcceptedIn(more, |more|));
    }

    lemma RecordsJoin(before: seq<Written>, log: seq<Written>, s: seq<Entity>, a: seq<Entity>, s': seq<Entity>,
                      a': seq<Entity>)
      requires |before| == |s| == |a| && Grown(before, log, s', a')
      requires forall i :: 0 <= i < |before| ==> before[i].source == s[i] && before[i].ent == a[i]
      ensures forall i :: 0 <= i < |log| ==> log[i].source == (s + s')[i] && log[i].ent == (a + a')[i]
    {
      forall i | 0 <= i < |log| ensures log[i].source == (s + s')[i] && log[i].ent == (a + a')[i] {
        if i < |before| { assert log[i] == before[i]; } else { assert log[i] == log[|before| + (i - |before|)]; }
      }
    }

    // ---- One call ----

    /** How every copying method ends. A run that ends early still has a consistent output; it ends so only because
        the writer or an after-writer failed, or by a panic of the last call. */
    ghost predicate Ends(status: Status)
      reads this`log, this`trail, this`checks, this`calls, this`expands, emap, result
    {
      && Consistent() && Tracked() && (status == Done ==> Valid()) && (WriterWorks(cfg) ==> status != Stopped)
      && (status == Panic ==> EndsInPanic(cfg, calls)) && Known(cfg, feed, calls, trail, log)
    }

    method Expand(input: seq<Entity>) returns (expanded: seq<Entity>)
      modifies this`expands
      ensures expanded == Expansion(cfg, old(expands), input, |input|) && expands == old(expands) + |input|
    {
      expanded := [];
      for i := 0 to |input|
        invariant expanded == Expansion(cfg, old(expands), input, i) && expands == old(expands) + i
      {
        var more := cfg.expand(expands, input[i]);
        expands := expands + 1;
        expanded := expanded + if more.Some? then more.value else [input[i]];
      }
    }

    /** The first i batches are copied, in a call that began with these. */
    ghost predicate Copied(ids: Ids, logged: nat, before: seq<Check>, batches: seq<seq<Entity>>, i: nat,
                           done: seq<Entity>, more: seq<Check>)
      requires i <= |batches|
      reads this`log, this`trail, emap
    {
      && KnowsMore(ids, emap.ids) && trail == before + more && (forall c :: c in more ==> KnowsMore(ids, c.ids))
      && Collected(logged, batches, i, done, more) && |log| == logged + |done|
    }

    /** The checks `more` followed, in a call that began with these. */
    ghost predicate Followed(ids: Ids, logged: nat, before: seq<Check>, more: seq<Check>)
      reads this`log, this`trail, emap
    {
      && KnowsMore(ids, emap.ids) && trail == before + more && (forall c :: c in more ==> KnowsMore(ids, c.ids))
      && Placed(logged, more) && RecordsPart(log, trail)
    }

    /** One round of copyEntities: the next batch. */
    method CopyNext(ghost ids: Ids, ghost logged: nat, ghost before: seq<Check>, batches: seq<seq<Entity>>, i: nat,
                    done: seq<Entity>, ghost more: seq<Check>)
      returns (status: Status, all: seq<Entity>, ghost checks: seq<Check>)
      requires Consistent() && Tracked() && Tallied("", 0) && Records(log, trail) && FileRuns(batches) && Aware()
      requires i < |batches| && Copied(ids, logged, before, batches, i, done, more)
      modifies this`checks, this`trail, this`writes, this`notices, this`log, result, emap
      ensures Consistent() && Tracked() && status != Panic && Aware() && Followed(ids, logged, before, checks)
      ensures WriterWorks(cfg) ==> status == Done
      ensures status == Done ==> Tallied("", 0) && Records(log, trail)
      ensures status == Done ==> Copied(ids, logged, before, batches, i + 1, all, checks)
    {
      ghost var checked;
      var ents;
      status, ents, checked := CopyBatch(batches[i]);
      CollectedNext(logged, batches, i, done, more, checked);
      checks, all := more + checked, done + ents;
    }

    method CopyBatches(batches: seq<seq<Entity>>) returns (status: Status, done: seq<Entity>, ghost more: seq<Check>)
      requires Consistent() && Tracked() && Tallied("", 0) && Records(log, trail) && FileRuns(batches) && Aware()
      modifies this`checks, this`trail, this`writes, this`notices, this`log, result, emap
      ensures Consistent() && Tracked() && status != Panic && Aware()
      ensures Followed(old(emap.ids), |old(log)|, old(trail), more) && (WriterWorks(cfg) ==> status == Done)
      ensures status == Done ==> Tallied("", 0) && Records(log, trail) && done == AcceptedIn(more, |more|)
      ensures status == Done ==> Givens(more) == Flatten(batches, |batches|)
    {
      status, done, more := Done, [], [];
      CopiedNone(batches);
      for i := 0 to |batches|
        invariant Consistent() && Tracked() && status == Done && Aware() && Tallied("", 0) && Records(log, trail)
        invariant Copied(old(emap.ids), |old(log)|, old(trail), batches, i, done, more)
      {
        status, done, more := CopyNext(old(emap.ids), |old(log)|, old(trail), batches, i, done, more);
        if status != Done {
          return;
        }
      }
      CopiedAll(old(emap.ids), |old(log)|, old(trail), batches, done, more);
    }

    lemma CopiedNone(batches: seq<seq<Entity>>)
      ensures Copied(emap.ids, |log|, trail, batches, 0, [], [])
    {
    }

    lemma CopiedAll(ids: Ids, logged: nat, before: seq<Check>, batches: seq<seq<Entity>>, done: seq<Entity>,
                    more: seq<Check>)
      requires Copied(ids, logged, before, batches, |batches|, done, more) && Records(log, trail)
      ensures Followed(ids, logged, before, more) && done == AcceptedIn(more, |more|)
      ensures Givens(more) == Flatten(batches, |batches|)
    {
    }

    /** The checks of the first i batches, what they accepted, and their places in the log. */
    ghost predicate Collected(base: nat, batches: seq<seq<Entity>>, i: nat, done: seq<Entity>, more: seq<Check>)
      requires i <= |batches|
    {
      && Placed(base, more) && Givens(more) == Flatten(batches, i) && done == AcceptedIn(more, |more|)
      && (i > 0 ==> more != [] && batches[i - 1] != [] && more[|more| - 1].given.file == batches[i - 1][0].file)
    }

    lemma {:induction false} CollectedNext(base: nat, batches: seq<seq<Entity>>, i: nat, done: seq<Entity>,
                                           more: seq<Check>, checked: seq<Check>)
      requires i < |batches| && FileRuns(batches) && Collected(base, batches, i, done, more)
      requires Givens(checked) == batches[i]
      requires forall k :: 0 <= k < |checked| ==> checked[k].logged == base + |done|
      ensures Collected(base, batches, i + 1, done + AcceptedIn(checked, |checked|), more + checked)
    {
      assert OneFile(batches[i]) && (i > 0 ==> FileChanges(batches, i));
      forall k | 0 <= k < |checked| ensures checked[k].given.file == batches[i][0].file {
        assert Givens(checked)[k] == checked[k].given;
      }
      PlacedMore(base, more, checked);
      GivensConcat(more, checked);
      AcceptedConcat(more, checked, |checked|);
    }

    lemma CallCloses(before: seq<Call>, call: Call)
      requires AllComplete(cfg, before) && Complete(cfg, |Inputs(before, |before|)|, call)
      ensures AllComplete(cfg, before + [call])
      ensures Trail(before + [call], |before| + 1) == Trail(before, |before|) + call.checks
      ensures |Inputs(before + [call], |before| + 1)| == |Inputs(before, |before|)| + |call.input|
    {
      AllCompleteNext(cfg, before, call);
      CallsNext(before, call);
    }

    /** copyEntities: expand, split by file, then check and write batch by batch. `done` are the accepted ones. */
    method CopyEntities(input: seq<Entity>) returns (status: Status, done: seq<Entity>, ghost call: Call)
      requires Valid()
      modifies this, result, emap
      ensures Ends(status) && calls == old(calls) + [call] && call.input == input
      ensures status == Done ==> done == DoneOf(call)
      ensures status == Panic <==> Panics(cfg, old(expands), input)
      ensures forall c :: c in call.checks ==> KnowsMore(old(emap.ids), c.ids)
      ensures KnowsMore(old(emap.ids), emap.ids)
    {
      if |input| == 0 {
        call := Call([], []);
        CloseEmpty(call);
        return Done, [], call;
      }
      var expanded := Expand(input);
      if |expanded| == 0 {
        call := Call(input, []);
        Break(call, old(expands));
        return Panic, [], call;
      }
      status, done, call := CopyExpanded(input, expanded, old(expands));
    }

    method CopyExpanded(ghost input: seq<Entity>, expanded: seq<Entity>, ghost from: nat)
      returns (status: Status, done: seq<Entity>, ghost call: Call)
      requires Consistent() && Tracked() && Tallied("", 0) && Records(log, trail) && Aware() && AllPlaced(calls)
      requires trail == Trail(calls, |calls|) && AllComplete(cfg, calls) && from == |Inputs(calls, |calls|)|
      requires expands == from + |input| && expanded == Expansion(cfg, from, input, |input|) != []
      modifies this`checks, this`trail, this`writes, this`notices, this`log, this`calls, result, emap
      ensures Ends(status) && status != Panic && calls == old(calls) + [call] && call.input == input
      ensures status == Done ==> done == DoneOf(call)
      ensures KnowsMore(old(emap.ids), emap.ids) && forall c :: c in call.checks ==> KnowsMore(old(emap.ids), c.ids)
    {
      var batches := BatchEntFilenames(expanded);
      ghost var more;
      status, done, more := CopyBatches(batches);
      call := Call(input, more);
      Conclude(call, status);
    }

    /** The call is over, by a failed write if it is not done. */
    ghost method Conclude(call: Call, status: Status)
      requires Consistent() && Tracked() && Aware() && RecordsPart(log, trail) && AllPlaced(calls) && status != Panic
      requires trail == Trail(calls, |calls|) + call.checks && (WriterWorks(cfg) ==> status == Done)
      requires Placed(AcceptedBy(Trail(calls, |calls|), |Trail(calls, |calls|)|), call.checks)
      requires status == Done ==> Tallied("", 0) && Records(log, trail) && AllComplete(cfg, calls)
      requires status == Done ==>
        Complete(cfg, |Inputs(calls, |calls|)|, call) && expands == |Inputs(calls, |calls|)| + |call.input|
      modifies this`calls
      ensures Ends(status) && calls == old(calls) + [call]
    {
      AllPlacedNext(calls, call);
      CallsNext(calls, call);
      if status == Done { Close(call); } else { calls := calls + [call]; }
    }

    /** A call that is given nothing. */
    ghost method CloseEmpty(call: Call)
      requires Valid() && call == Call([], [])
      modifies this`calls
      ensures Ends(Done) && calls == old(calls) + [call]
    {
      AllPlacedNext(calls, call);
      Close(call);
    }

    /** A call whose input expands to nothing. */
    ghost method Break(call: Call, from: nat)
      requires Consistent() && Tracked() && Known(cfg, feed, calls, trail, log) && call.checks == []
      requires from == |Inputs(calls, |calls|)| && Panics(cfg, from, call.input)
      modifies this`calls
      ensures Ends(Panic) && calls == old(calls) + [call]
    {
      AllPlacedNext(calls, call);
      CallsNext(calls, call);
      CallsPrefix(calls, [call], |calls|);
      calls := calls + [call];
    }

    /** The call is added to those the trail is accounted for by. */
    ghost method Close(call: Call)
      requires trail == Trail(calls, |calls|) + call.checks && AllComplete(cfg, calls)
      requires Complete(cfg, |Inputs(calls, |calls|)|, call) && expands == |Inputs(calls, |calls|)| + |call.input|
      modifies this`calls
      ensures calls == old(calls) + [call] && Filed()
    {
      CallCloses(calls, call);
      calls := calls + [call];
    }

    // ---- Plain passes ----

    /** batchCopy over batchChan: a batch is copied as soon as it is full, and the rest at the end. Whatever
        the batch size, every entity of the pass is given once and in order. */
    method BatchCopy(stream: seq<Entity>, size: int, types: set<int>) returns (status: Status, ghost part: seq<Call>)
      requires Valid()
      modifies this, result, emap
      ensures Ends(status) && calls == old(calls) + part
      ensures status == Done ==> Inputs(part, |part|) == Kept(stream, |stream|, types) && SizedCalls(part, size)
    {
      status, part := Done, [];
      var batch: seq<Entity> := [];
      for i := 0 to |stream|
        invariant Valid() && status == Done && calls == old(calls) + part
        invariant Pending(part, batch, stream, i, types, size)
      {
        if types != {} && stream[i].data !in types {
          continue;
        }
        PendingNext(part, batch, stream, i, types, size);
        status, part, batch := GiveIfFull(old(calls), part, batch + [stream[i]], size);
        if status != Done {
          return;
        }
      }
      if |batch| > 0 {
        status, part := GiveBatch(old(calls), part, batch);
      }
    }

    /** The first i entities of the stream are given in full batches, or wait. */
    ghost predicate Pending(part: seq<Call>, batch: seq<Entity>, stream: seq<Entity>, i: nat, types: set<int>,
                            size: int)
      requires i <= |stream|
    {
      Given(part, batch, Kept(stream, i, types)) && FullCalls(part, size) && |batch| < Full(size)
    }

    /** A batch is given as soon as it is full. */
    method GiveIfFull(ghost before: seq<Call>, ghost part: seq<Call>, batch: seq<Entity>, size: int)
      returns (status: Status, ghost more: seq<Call>, rest: seq<Entity>)
      requires Valid() && calls == before + part && FullCalls(part, size) && 0 < |batch| <= Full(size)
      modifies this, result, emap
      ensures Ends(status) && calls == before + more && FullCalls(more, size) && |rest| < Full(size)
      ensures Inputs(more, |more|) + rest == Inputs(part, |part|) + batch
    {
      if |batch| < size {
        ValidEnds();
        return Done, part, batch;
      }
      status, more := GiveBatch(before, part, batch);
      rest := [];
    }

    lemma PendingNext(part: seq<Call>, batch: seq<Entity>, stream: seq<Entity>, i: nat, types: set<int>, size: int)
      requires i < |stream| && Pending(part, batch, stream, i, types, size)
      requires types == {} || stream[i].data in types
      ensures Inputs(part, |part|) + (batch + [stream[i]]) == Kept(stream, i + 1, types)
    {
    }

    /** The calls were given all but the batch. */
    ghost predicate Given(part: seq<Call>, batch: seq<Entity>, all: seq<Entity>) {
      Inputs(part, |part|) + batch == all
    }

    lemma GivenAll(part: seq<Call>, call: Call, all: seq<Entity>)
      requires Given(part, call.input, all)
      ensures Given(part + [call], [], all)
    {
      CallsNext(part, call);
    }

    method GiveBatch(ghost before: seq<Call>, ghost part: seq<Call>, batch: seq<Entity>)
      returns (status: Status, ghost more: seq<Call>)
      requires Valid() && calls == before + part
      modifies this, result, emap
      ensures Ends(status) && calls == before + more
      ensures Given(more, [], Inputs(part, |part|) + batch)
      ensures |more| == |part| + 1 && more[..|part|] == part && more[|part|].input == batch
    {
      var done;
      ghost var call;
      status, done, call := CopyEntities(batch);
      GivenAll(part, call, Inputs(part, |part|) + batch);
      more := part + [call];
    }

    // ---- Entities and what they carry ----

    method ChildrenOf(ents: seq<Entity>, file: string, skipped: set<string>, first: seq<Entity>)
      returns (all: seq<Entity>)
      ensures all == first + ChildrenIn(ents, |ents|, file, skipped)
    {
      all := first;
      for i := 0 to |ents|
        invariant all == first + ChildrenIn(ents, i, file, skipped)
      {
        if ents[i].file == file && ents[i].id !in skipped {
          all := all + ents[i].children;
        }
      }
    }

    /** The entities, then, after `orphans`, what those of them carry that were accepted. */
    method CopyWithChildren(input: seq<Entity>, file: string, skipped: set<string>, orphans: seq<Entity>)
      returns (status: Status, ghost first: Call, ghost second: Call)
      requires Valid()
      modifies this, result, emap
      ensures Ends(status)
      ensures status == Done ==> calls == old(calls) + [first, second]
      ensures first.input == input && (status == Done ==> second.input == orphans + Carried(first, file, skipped))
    {
      var done;
      status, done, first := CopyEntities(input);
      second := first;
      if status == Done {
        var all := ChildrenOf(done, file, skipped, orphans);
        status, done, second := CopyEntities(all);
        Regroup(old(calls), [first], [second]);
      }
    }

    // ---- Calendars ----

    /** What is left of the grouped dates when n calendars have taken theirs. */
    ghost predicate LeftOver(calDates: map<string, seq<Entity>>, dates: seq<Entity>, cals: seq<Entity>, n: nat)
      requires n <= |cals|
    {
      forall k ::
        && (k in calDates <==> DatesOf(dates, |dates|, k) != [] && !HasCalendar(cals, n, k))
        && (k in calDates ==> calDates[k] == DatesOf(dates, |dates|, k))
    }

    ghost predicate Grouped(calDates: map<string, seq<Entity>>, dates: seq<Entity>, n: nat)
      requires n <= |dates|
    {
      forall k ::
        && (k in calDates <==> DatesOf(dates, n, k) != [])
        && (k in calDates ==> calDates[k] == DatesOf(dates, n, k))
    }

    lemma GroupedNext(calDates: map<string, seq<Entity>>, dates: seq<Entity>, n: nat)
      requires n < |dates| && Grouped(calDates, dates, n)
      ensures var k := ServiceId(dates[n]);
        Grouped(calDates[k := Lookup(calDates, k) + [dates[n]]], dates, n + 1)
    {
    }

    method GroupDates(dates: seq<Entity>) returns (calDates: map<string, seq<Entity>>)
      ensures Grouped(calDates, dates, |dates|)
    {
      calDates := map[];
      for i := 0 to |dates|
        invariant Grouped(calDates, dates, i)
      {
        GroupedNext(calDates, dates, i);
        calDates := calDates[ServiceId(dates[i]) := Lookup(calDates, ServiceId(dates[i])) + [dates[i]]];
      }
    }

    lemma GroupedIsLeft(calDates: map<string, seq<Entity>>, dates: seq<Entity>, cals: seq<Entity>)
      requires Grouped(calDates, dates, |dates|)
      ensures LeftOver(calDates, dates, cals, 0)
    {
    }

    lemma TakesItsDates(calDates: map<string, seq<Entity>>, dates: seq<Entity>, cals: seq<Entity>, n: nat)
      requires n < |cals| && LeftOver(calDates, dates, cals, n)
      ensures WithDates(cals, dates, n) == cals[n].(children := Lookup(calDates, cals[n].id))
      ensures LeftOver(calDates - {cals[n].id}, dates, cals, n + 1)
    {
      forall k ensures HasCalendar(cals, n + 1, k) <==> HasCalendar(cals, n, k) || k == cals[n].id {
        if k == cals[n].id { assert cals[n].id == k; }
      }
    }

    /** The calendars lo..i have taken their dates, and the others are left. */
    ghost predicate DatesTaken(cals: seq<Entity>, dates: seq<Entity>, lo: nat, i: nat, batch: seq<Entity>,
                          calDates: map<string, seq<Entity>>)
      requires lo <= i <= |cals|
    {
      batch == Listed(cals, dates, lo, i) && LeftOver(calDates, dates, cals, i)
    }

    /** A calendar takes its dates out of those left. */
    method TakeNextDates(cals: seq<Entity>, ghost dates: seq<Entity>, ghost lo: nat, i: nat, batch: seq<Entity>,
                         calDates: map<string, seq<Entity>>)
      returns (more: seq<Entity>, left: map<string, seq<Entity>>)
      requires lo <= i < |cals| && DatesTaken(cals, dates, lo, i, batch, calDates)
      ensures DatesTaken(cals, dates, lo, i + 1, more, left)
    {
      TakesItsDates(calDates, dates, cals, i);
      assert Listed(cals, dates, lo, i + 1) == Listed(cals, dates, lo, i) + [WithDates(cals, dates, i)];
      more := batch + [cals[i].(children := Lookup(calDates, cals[i].id))];
      left := calDates - {cals[i].id};
    }

    lemma TakeNoDates(cals: seq<Entity>, dates: seq<Entity>, lo: nat, calDates: map<string, seq<Entity>>)
      requires lo <= |cals| && LeftOver(calDates, dates, cals, lo)
      ensures DatesTaken(cals, dates, lo, lo, [], calDates)
    {
    }

    /** The calendars lo..hi with their dates, which are taken out of `calDates`. */
    method TakeDates(cals: seq<Entity>, ghost dates: seq<Entity>, lo: nat, hi: nat, grouped: map<string, seq<Entity>>)
      returns (batch: seq<Entity>, calDates: map<string, seq<Entity>>)
      requires lo <= hi <= |cals| && LeftOver(grouped, dates, cals, lo)
      ensures DatesTaken(cals, dates, lo, hi, batch, calDates)
    {
      batch, calDates := [], grouped;
      TakeNoDates(cals, dates, lo, calDates);
      for i := lo to hi
        invariant DatesTaken(cals, dates, lo, i, batch, calDates)
      {
        batch, calDates := TakeNextDates(cals, dates, lo, i, batch, calDates);
      }
    }

    /** The calendars of the batch, and the dates of those accepted. */
    method GiveCalendars(batch: seq<Entity>, ghost before: seq<Call>, ghost cals: seq<Entity>, ghost dates: seq<Entity>,
                         ghost batches: seq<Batch>, ghost lo: nat, ghost hi: nat)
      returns (status: Status, ghost more: seq<Batch>)
      requires Valid() && CalendarsGiven(cfg.options.batchSize, calls, before, cals, dates, batches, lo)
      requires lo < hi <= |cals| && batch == Listed(cals, dates, lo, hi)
      requires Sized(lo, hi, cfg.options.batchSize, |cals|)
      modifies this, result, emap
      ensures Ends(status)
      ensures status == Done ==> CalendarsGiven(cfg.options.batchSize, calls, before, cals, dates, more, hi)
    {
      ghost var first, second;
      status, first, second := CopyWithChildren(batch, "calendar.txt", {}, []);
      more := batches + [Batch(lo, hi, first, second)];
      if status == Done {
        CalendarsGivenNext(cfg.options.batchSize, old(calls), before, cals, dates, batches,
                           Batch(lo, hi, first, second));
      }
    }

    /** The calendars of calendar.txt, batch by batch. */
    method CopyListedCalendars(cals: seq<Entity>, ghost dates: seq<Entity>, grouped: map<string, seq<Entity>>)
      returns (status: Status, calDates: map<string, seq<Entity>>, ghost batches: seq<Batch>)
      requires Valid() && LeftOver(grouped, dates, cals, 0)
      modifies this, result, emap
      ensures Ends(status)
      ensures status == Done ==> CalendarsGiven(cfg.options.batchSize, calls, old(calls), cals, dates, batches, |cals|)
      ensures status == Done ==> LeftOver(calDates, dates, cals, |cals|)
    {
      status, calDates, batches := Done, grouped, [];
      var lo := 0;
      while lo < |cals|
        invariant Valid() && status == Done && lo <= |cals| && LeftOver(calDates, dates, cals, lo)
        invariant CalendarsGiven(cfg.options.batchSize, calls, old(calls), cals, dates, batches, lo)
      {
        var hi := BatchEnd(lo, cfg.options.batchSize, |cals|);
        var batch;
        batch, calDates := TakeDates(cals, dates, lo, hi, calDates);
        status, batches := GiveCalendars(batch, old(calls), cals, dates, batches, lo, hi);
        if status != Done {
          return;
        }
        lo := hi;
      }
    }

    method Generate(service: string, dates: seq<Entity>) returns (cal: Entity)
      ensures cal == GeneratedCalendar(cfg, service, dates)
    {
      var svc := new ServiceObject.Service(0, 0, ServiceCalendar.NO_DAYS, true);
      for i := 0 to |dates|
        invariant svc.Value() == ServiceOf(cfg, dates, i)
      {
        svc.AddCalendarDate(cfg.readDate(dates[i]));
      }
      var first, last := svc.ServicePeriod();
      cal := Entity("calendar.txt", service, [], "", "", dates, None, Some(Period(first, last)), 0);
    }

    /** One calendar for each service, in any order. */
    method GeneratedCalendars(calDates: map<string, seq<Entity>>, ghost cals: seq<Entity>, ghost dates: seq<Entity>)
      returns (batch: seq<Entity>)
      requires LeftOver(calDates, dates, cals, |cals|)
      ensures IsGenerated(cfg, cals, dates, batch)
    {
      batch := [];
      var todo := calDates.Keys;
      while todo != {}
        invariant todo <= calDates.Keys && Distinct(batch)
        invariant forall e :: e in batch <==>
          e.id in calDates && e.id !in todo && e == GeneratedCalendar(cfg, e.id, calDates[e.id])
      {
        var k :| k in todo;
        var cal := Generate(k, calDates[k]);
        assert cal !in batch;
        batch := batch + [cal];
        todo := todo - {k};
      }
    }

    method RegisterUnwritten(batch: seq<Entity>)
      requires Valid() && (Safe() ==> forall e :: e in batch ==> e.id == "")
      requires forall e :: e in batch ==> Aside(cfg.options, feed, "calendar.txt", e.id)
      modifies emap
      ensures Valid() && Registered(batch, emap.ids)
    {
      for i := 0 to |batch|
        invariant Consistent() && forall k :: 0 <= k < i ==> Find(emap.ids, "calendar.txt", batch[k].id).Some?
      {
        assert batch[i] in batch;
        ghost var was := emap.ids;
        emap.Set("calendar.txt", batch[i].id, batch[i].id);
        MapsService(cfg.options, feed, was, emap.ids, log, batch[i].id);
      }
    }

    /** Services known only from calendar_dates.txt. Without NormalizeServiceIDs they are entered in the map
        but not written, so the dates that follow refer to calendars that are not in the output; over a feed that lists
        all services there are none. */
    method CopyGeneratedCalendars(calDates: map<string, seq<Entity>>, ghost cals: seq<Entity>, ghost dates: seq<Entity>)
      returns (status: Status, ghost services: seq<Entity>, ghost part: seq<Call>)
      requires Valid() && LeftOver(calDates, dates, cals, |cals|)
      requires cals == feed.calendars && dates == feed.calendarDates
      modifies this, result, emap
      ensures Ends(status) && IsGenerated(cfg, cals, dates, services)
      ensures status == Done ==>
        calls == old(calls) + part && GeneratedCalls(cfg.options.normalizeServiceIds, services, part)
    {
      var batch := GeneratedCalendars(calDates, cals, dates);
      services := batch;
      if cfg.options.normalizeServiceIds {
        ghost var first, second;
        status, first, second := CopyWithChildren(batch, "calendar.txt", {}, []);
        part := [first, second];
      } else {
        RegisterUnwritten(batch);
        var all := ChildrenOf(batch, "calendar.txt", {}, []);
        var done;
        ghost var call;
        status, done, call := CopyEntities(all);
        part := [call];
      }
    }

    /** copyCalendars: each calendar is given once, the first of a service with all its dates, and then the
        services that have dates only. */
    method CopyCalendars() returns (status: Status, ghost run: PassRun)
      requires Valid()
      modifies this, result, emap
      ensures Ends(status)
      ensures status == Done ==> calls == old(calls) + CallsIn(run) && RunsPass(cfg, feed, Calendars, run)
    {
      var calDates := GroupDates(feed.calendarDates);
      ghost var listed, services, part;
      run := PlainRun([]);
      GroupedIsLeft(calDates, feed.calendarDates, feed.calendars);
      status, calDates, listed := CopyListedCalendars(feed.calendars, feed.calendarDates, calDates);
      if status == Done {
        status, services, part := CopyGeneratedCalendars(calDates, feed.calendars, feed.calendarDates);
        run := CalendarRun(listed, services, part);
        Regroup(old(calls), CallsOf(listed, |listed|), part);
      }
    }

    // ---- Trips ----

    /** The trips whose stop_times are not written. */
    function Skips(state: TripPatterns.TripStopTimeState): set<string> reads state {
      if cfg.options.deduplicateJourneyPatterns then state.tripOffsets.Keys else {}
    }

    /** The tables are those after the first n elements. */
    ghost predicate TablesFollow(state: TripPatterns.TripStopTimeState, items: seq<TripItem>, n: nat)
      requires n <= |items|
      reads state
    {
      state.Follows(Timetables(cfg, items, n))
    }

    /** What the first loop of processTripBatch has made of the elements lo..i. */
    ghost predicate Assigned(state: TripPatterns.TripStopTimeState, items: seq<TripItem>, lo: nat, i: nat,
                             trips: seq<Entity>, orphans: seq<Entity>)
      requires i <= |items|
      reads state
    {
      TablesFollow(state, items, i) && trips == TripsIn(cfg, items, lo, i) && orphans == OrphansIn(items, lo, i)
    }

    /** One round: the trip is given its pattern, or the orphans are set aside. */
    method AssignNext(item: TripItem, state: TripPatterns.TripStopTimeState, ghost items: seq<TripItem>,
                      ghost lo: nat, ghost i: nat, trips: seq<Entity>, orphans: seq<Entity>)
      returns (moreTrips: seq<Entity>, moreOrphans: seq<Entity>)
      requires lo <= i < |items| && items[i] == item && Assigned(state, items, lo, i, trips, orphans)
      modifies state
      ensures Assigned(state, items, lo, i + 1, moreTrips, moreOrphans)
    {
      moreTrips, moreOrphans := trips, orphans;
      TimetablesNext(cfg, items, i);
      if !item.valid {
        moreOrphans := orphans + item.stopTimes;
        return;
      }
      var trip := item.trip.(children := item.stopTimes);
      if |item.stopTimes| > 0 {
        var given := state.AssignPatterns(Timetable(cfg, item), Timetables(cfg, items, i));
        trip := trip.(pattern := Some(given));
      }
      moreTrips := trips + [trip];
    }

    lemma NoneAssigned(state: TripPatterns.TripStopTimeState, items: seq<TripItem>, lo: nat)
      requires lo <= |items| && TablesFollow(state, items, lo)
      ensures Assigned(state, items, lo, lo, [], [])
    {
    }

    /** The first loop of processTripBatch. */
    method AssignAll(batch: seq<TripItem>, state: TripPatterns.TripStopTimeState, ghost items: seq<TripItem>,
                     ghost lo: nat) returns (trips: seq<Entity>, orphans: seq<Entity>)
      requires IsSlice(batch, items, lo) && TablesFollow(state, items, lo)
      modifies state
      ensures Assigned(state, items, lo, lo + |batch|, trips, orphans)
    {
      trips, orphans := [], [];
      NoneAssigned(state, items, lo);
      for i := 0 to |batch|
        invariant Assigned(state, items, lo, lo + i, trips, orphans)
      {
        SliceAt(batch, items, lo, i);
        trips, orphans := AssignNext(batch[i], state, items, lo, lo + i, trips, orphans);
      }
    }

    /** The trips are given their patterns, and the orphans set aside; then it is known which trips are skipped. */
    method AssignBatch(batch: seq<TripItem>, state: TripPatterns.TripStopTimeState, ghost items: seq<TripItem>,
                       ghost lo: nat) returns (trips: seq<Entity>, orphans: seq<Entity>)
      requires IsSlice(batch, items, lo) && TablesFollow(state, items, lo)
      modifies state
      ensures trips == TripsIn(cfg, items, lo, lo + |batch|) && orphans == OrphansIn(items, lo, lo + |batch|)
      ensures TablesFollow(state, items, lo + |batch|) && Skips(state) == SkippedAt(cfg, items, lo + |batch|)
    {
      trips, orphans := AssignAll(batch, state, items, lo);
      SkipsAt(state, items, lo + |batch|);
    }

    lemma SkipsAt(state: TripPatterns.TripStopTimeState, items: seq<TripItem>, n: nat)
      requires n <= |items| && TablesFollow(state, items, n)
      ensures Skips(state) == SkippedAt(cfg, items, n)
    {
    }

    /** The first lo elements are given, with their trips in the pattern tables, and the batch holds the next. */
    ghost predicate Streaming(before: seq<Call>, items: seq<TripItem>, batches: seq<Batch>, lo: nat,
                              batch: seq<TripItem>, state: TripPatterns.TripStopTimeState)
      reads this`calls, state
    {
      && IsSlice(batch, items, lo) && TripsGiven(cfg, calls, before, items, batches, lo)
      && TablesFollow(state, items, lo)
    }

    /** processTripBatch: the trips first, then the orphans' stop_times and those of the accepted trips that do not
        repeat a journey. The batch is the elements from lo to hi. */
    method ProcessTripBatch(batch: seq<TripItem>, state: TripPatterns.TripStopTimeState, ghost items: seq<TripItem>,
                            ghost lo: nat, ghost hi: nat, ghost before: seq<Call>, ghost batches: seq<Batch>)
      returns (status: Status, ghost more: seq<Batch>)
      requires Valid() && Streaming(before, items, batches, lo, batch, state) && hi == lo + |batch|
      requires Sized(lo, hi, cfg.options.batchSize, |items|)
      modifies this, result, emap, state
      ensures Ends(status)
      ensures status == Done ==> Streaming(before, items, more, hi, [], state)
    {
      status, more := Done, batches;
      if |batch| == 0 {
        return;
      }
      var trips, orphans := AssignBatch(batch, state, items, lo);
      status, more := GiveTrips(trips, orphans, Skips(state), items, lo, hi, before, batches);
    }

    /** The trips, then the orphans' stop_times and those of the accepted trips. */
    method GiveTrips(trips: seq<Entity>, orphans: seq<Entity>, skipped: set<string>, ghost items: seq<TripItem>,
                     ghost lo: nat, ghost hi: nat, ghost before: seq<Call>, ghost batches: seq<Batch>)
      returns (status: Status, ghost more: seq<Batch>)
      requires Valid() && TripsGiven(cfg, calls, before, items, batches, lo) && lo < hi <= |items|
      requires Sized(lo, hi, cfg.options.batchSize, |items|)
      requires trips == TripsIn(cfg, items, lo, hi) && orphans == OrphansIn(items, lo, hi)
      requires skipped == SkippedAt(cfg, items, hi)
      modifies this, result, emap
      ensures Ends(status) && (status == Done ==> TripsGiven(cfg, calls, before, items, more, hi))
    {
      ghost var first, second;
      status, first, second := CopyWithChildren(trips, "trips.txt", skipped, orphans);
      more := batches + [Batch(lo, hi, first, second)];
      if status == Done { TripsGivenNext(cfg, old(calls), before, items, batches, Batch(lo, hi, first, second)); }
    }

    lemma StreamingNext(before: seq<Call>, items: seq<TripItem>, batches: seq<Batch>, lo: nat, batch: seq<TripItem>,
                        state: TripPatterns.TripStopTimeState)
      requires Streaming(before, items, batches, lo, batch, state) && lo + |batch| < |items|
      ensures Streaming(before, items, batches, lo, batch + [items[lo + |batch|]], state)
    {
      SliceNext(batch, items, lo);
    }

    lemma ValidEnds()
      requires Valid()
      ensures Ends(Done)
    {
    }

    /** One round: the element joins the batch, and a full batch is given. */
    method TakeTrip(item: TripItem, batch: seq<TripItem>, state: TripPatterns.TripStopTimeState,
                    ghost items: seq<TripItem>, ghost lo: nat, ghost before: seq<Call>, ghost batches: seq<Batch>)
      returns (status: Status, rest: seq<TripItem>, ghost more: seq<Batch>, ghost next: nat)
      requires Valid() && Streaming(before, items, batches, lo, batch, state)
      requires lo + |batch| < |items| && items[lo + |batch|] == item && |batch| < Full(cfg.options.batchSize)
      modifies this, result, emap, state
      ensures Ends(status)
      ensures status == Done ==> next + |rest| == lo + |batch| + 1 && |rest| < Full(cfg.options.batchSize)
      ensures status == Done ==> Streaming(before, items, more, next, rest, state)
    {
      StreamingNext(before, items, batches, lo, batch, state);
      if |batch| + 1 < cfg.options.batchSize {
        ValidEnds();
        return Done, batch + [item], batches, lo;
      }
      rest, next := [], lo + |batch| + 1;
      status, more := ProcessTripBatch(batch + [item], state, items, lo, next, before, batches);
    }

    /** copyTripsAndStopTimes: whatever the batch size, the pattern tables end as if the trips had been read one
        by one, and every trip and every orphan stop_time is given. */
    method CopyTripsAndStopTimes(items: seq<TripItem>, state: TripPatterns.TripStopTimeState)
      returns (status: Status, ghost batches: seq<Batch>)
      requires Valid() && TablesFollow(state, items, 0)
      modifies this, result, emap, state
      ensures Ends(status)
      ensures status == Done ==>
        TripsGiven(cfg, calls, old(calls), items, batches, |items|) && TablesFollow(state, items, |items|)
    {
      status, batches := Done, [];
      var batch: seq<TripItem> := [];
      ghost var lo: nat := 0;
      for i := 0 to |items|
        invariant Valid() && status == Done && lo + |batch| == i && |batch| < Full(cfg.options.batchSize)
        invariant Streaming(old(calls), items, batches, lo, batch, state)
      {
        status, batch, batches, lo := TakeTrip(items[i], batch, state, items, lo, old(calls), batches);
        if status != Done {
          return;
        }
      }
      status, batches := ProcessTripBatch(batch, state, items, lo, |items|, old(calls), batches);
    }

    // ---- Whole runs ----

    /** `before` are the trips the pattern tables have seen. */
    method CopyPass(pass: Pass, state: TripPatterns.TripStopTimeState, ghost before: seq<TripPatterns.Trip>)
      returns (status: Status, ghost run: PassRun)
      requires Valid() && state.Follows(before) && (pass.Trips? ==> before == [])
      modifies this, result, emap, state
      ensures Ends(status)
      ensures status == Done ==> calls == old(calls) + CallsIn(run) && RunsPass(cfg, feed, pass, run)
      ensures status == Done ==>
        state.Follows(if pass.Trips? then Timetables(cfg, feed.trips, |feed.trips|) else before)
    {
      match pass
      case Plain(file, n, types) =>
        ghost var part;
        status, part := BatchCopy(Lookup(feed.files, file), n, types);
        run := PlainRun(part);
      case Calendars =>
        status, run := CopyCalendars();
      case Trips =>
        ghost var batches;
        status, batches := CopyTripsAndStopTimes(feed.trips, state);
        run := TripRun(batches);
    }

    /** The trips the pattern tables have seen before pass i, if the trips are read by pass t. */
    ghost function SeenBefore(i: nat, t: nat): seq<TripPatterns.Trip> {
      if i <= t then [] else Timetables(cfg, feed.trips, |feed.trips|)
    }

    method CopyPassAt(passes: seq<Pass>, i: nat, ghost t: nat, state: TripPatterns.TripStopTimeState)
      returns (status: Status, ghost run: PassRun)
      requires Valid() && i < |passes| && TripsOnceAt(passes, t) && state.Follows(SeenBefore(i, t))
      modifies this, result, emap, state
      ensures Ends(status) && (status == Done ==> state.Follows(SeenBefore(i + 1, t)))
      ensures status == Done ==> calls == old(calls) + CallsIn(run) && RunsPass(cfg, feed, passes[i], run)
    {
      status, run := CopyPass(passes[i], state, SeenBefore(i, t));
    }

    /** The passes in order; the patterns are those of the trips, read one by one. */
    method CopyPasses(passes: seq<Pass>, ghost t: nat, state: TripPatterns.TripStopTimeState)
      returns (status: Status, ghost runs: seq<PassRun>)
      requires Valid() && calls == [] && state.Follows([]) && TripsOnceAt(passes, t)
      modifies this, result, emap, state
      ensures Ends(status)
      ensures status == Done ==> |runs| == |passes| && calls == RunCalls(runs, |runs|)
      ensures status == Done ==> RunsUpTo(cfg, feed, passes, runs, |passes|)
      ensures status == Done ==> TablesFollow(state, feed.trips, |feed.trips|)
    {
      status, runs := Done, [];
      for i := 0 to |passes|
        invariant Valid() && status == Done && |runs| == i && calls == RunCalls(runs, i)
        invariant RunsUpTo(cfg, feed, passes, runs, i) && state.Follows(SeenBefore(i, t))
      {
        ghost var run;
        status, run := CopyPassAt(passes, i, t, state);
        if status != Done {
          return;
        }
        RunsNext(cfg, feed, passes, runs, run);
        runs := runs + [run];
      }
    }

    /** The entities that extensions copy. */
    method CopyExtra(extra: seq<seq<Entity>>) returns (status: Status, ghost more: seq<Call>)
      requires Valid()
      modifies this, result, emap
      ensures Ends(status)
      ensures status == Done ==> calls == old(calls) + more && |more| == |extra| && ExtraGiven(extra, more)
    {
      status, more := Done, [];
      for i := 0 to |extra|
        invariant Valid() && status == Done && calls == old(calls) + more && |more| == i && ExtraGiven(extra, more)
      {
        var done;
        ghost var call;
        status, done, call := CopyEntities(extra[i]);
        if status != Done {
          return;
        }
        Regroup(old(calls), more, [call]);
        more := more + [call];
      }
    }

    /** The five counters add up to the entities checked, but for those an after-validator refused. */
    ghost predicate Accounted(f: string) reads this`trail, result {
      result.Sum(f) == ChecksOf(trail, |trail|, f) - Hits(trail, |trail|, f, Skipped(AfterValidator))
    }

    lemma AllAccounted(f: string)
      requires Tallied("", 0)
      ensures Accounted(f)
      ensures forall fate :: fate != Skipped(AfterValidator) ==> result.Count(f, fate) == Hits(trail, |trail|, f, fate)
    {
      OutcomesAddUp(trail, |trail|, f);
      assert result.Sum(f) == result.Count(f, Taken) + result.Count(f, Skipped(Marked)) +
        result.Count(f, Skipped(Filtered)) + result.Count(f, Skipped(EntityError)) +
        result.Count(f, Skipped(ReferenceError));
    }

    /** Every entity checked is counted, and once, exactly if no after-validator refused one of the file. */
    lemma CountedOnceIff(f: string)
      requires Accounted(f)
      ensures result.Sum(f) == ChecksOf(trail, |trail|, f) <==>
        forall n :: 0 <= n < |trail| && trail[n].given.file == f ==> trail[n].outcome != Refused(AfterValidator)
    {
      NoHitsIff(trail, |trail|, f, Skipped(AfterValidator));
    }

    /** All that is known of a run that ends well: everything given was checked, everything accepted was written, in
        order, and the counters say so. */
    ghost predicate Completed() reads this`log, this`trail, this`checks, this`calls, result {
      && Judged(cfg, trail) && AllComplete(cfg, calls) && trail == Trail(calls, |calls|)
      && CheckedAsGiven(cfg, calls, |calls|) && Records(log, trail)
      && Identified(cfg, log) && forall f :: Accounted(f)
    }

    lemma ValidIsCompleted()
      requires Valid()
      ensures Completed()
    {
      GivenIsChecked(cfg, calls, |calls|);
      forall f ensures Accounted(f) { AllAccounted(f); }
    }

    /** A whole run. It breaks off only if the writer or an after-writer fails, or by a panic. */
    method Copy(extra: seq<seq<Entity>>)
      returns (status: Status, state: TripPatterns.TripStopTimeState, ghost runs: seq<PassRun>, ghost more: seq<Call>)
      requires Valid() && calls == []
      modifies this, result, emap
      ensures Ends(status) && (Safe() ==> Integrity(log)) && fresh(state)
      ensures AllRefusedRightly(cfg, feed, calls, trail) && Identified(cfg, log)
      ensures status == Done ==> Completed() && TablesFollow(state, feed.trips, |feed.trips|)
      ensures status == Done ==>
        RunsPasses(cfg, feed, Passes(cfg.options.batchSize), runs) && GivesAll(extra, calls, runs, more)
      ensures status == Done ==>
        TRIPS < |runs| && runs[TRIPS].TripRun? && TripsRan(cfg, feed.trips, runs[TRIPS].batches)
    {
      state := new TripPatterns.TripStopTimeState();
      PassesReadTripsOnce(cfg.options.batchSize);
      status, runs, more := CopyFeed(Passes(cfg.options.batchSize), TRIPS, extra, state);
      KnownRefuses(cfg, feed, calls, trail, log);
      if status == Done {
        RunsAll(cfg, feed, Passes(cfg.options.batchSize), runs);
        ValidIsCompleted();
        CompletedTripsRan(cfg, feed, calls, trail, Passes(cfg.options.batchSize), runs, TRIPS);
      }
    }

    /** The passes, and then the extensions. */
    method CopyFeed(passes: seq<Pass>, ghost t: nat, extra: seq<seq<Entity>>,
                    state: TripPatterns.TripStopTimeState)
      returns (status: Status, ghost runs: seq<PassRun>, ghost more: seq<Call>)
      requires Valid() && calls == [] && state.Follows([]) && TripsOnceAt(passes, t)
      modifies this, result, emap, state
      ensures Ends(status) && (status == Done ==> TablesFollow(state, feed.trips, |feed.trips|))
      ensures status == Done ==> |runs| == |passes| && GivesAll(extra, calls, runs, more)
      ensures status == Done ==> RunsUpTo(cfg, feed, passes, runs, |passes|)
    {
      more := [];
      status, runs := CopyPasses(passes, t, state);
      if status != Done {
        return;
      }
      status, more := CopyExtra(extra);
    }
  }
}
