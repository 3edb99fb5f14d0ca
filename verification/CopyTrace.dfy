/** What a run of the copier leaves behind: every check of an entity with its outcome, call by call of copyEntities.

    What extensions, validators and the writer answer is arbitrary and may differ from call to call: each is a function
    of how often it has been asked. */
module CopyTrace {
  import opened Sequences
  import opened EntityCopier
  import ServiceCalendar
  import TripPatterns

  /** What the extensions and the entity's own checks say about one entity. `filtered` is the entity as the
      filters left it, or their refusal; the other fields count errors and give the last hook's answer. */
  datatype Verdict = Verdict(marked: bool, filtered: Option<Entity>, ownErrors: nat, afterOk: bool)

  datatype Options = Options(allowEntityErrors: bool, allowReferenceErrors: bool, normalizeServiceIds: bool,
                             deduplicateJourneyPatterns: bool, batchSize: int)

  /** Everything a run depends on besides its feed: the answers of markers, filters and validators (`judge`), of expand
      filters, of the writer (`assign`) and of after-writers (`notify`); how the rows of trips, stop_times and calendar
      dates are read; and the options. */
  datatype Config = Config(judge: (nat, Entity) -> Verdict, expand: (nat, Entity) -> Option<seq<Entity>>,
                           assign: (nat, seq<Entity>) -> Option<seq<string>>, notify: (nat, string, Entity) -> bool,
                           readTrip: Entity -> TripPatterns.Trip, readStopTime: Entity -> TripPatterns.StopTime,
                           readDate: Entity -> ServiceCalendar.CalDate,
                           options: Options)

  // ---- One check ----

  datatype Reason = Marked | Filtered | EntityError | ReferenceError | AfterValidator

  /** An accepted entity as the filters left it, and with its references updated. */
  datatype Outcome = Accepted(source: Entity, ent: Entity) | Refused(reason: Reason)

  /** A failed reference is refused as an entity error or as a reference error, unless both are allowed. */
  predicate ChecksReferences(o: Options) {
    !(o.allowEntityErrors && o.allowReferenceErrors)
  }

  /** The entity as the filters left it; the copier keeps the id it read before them. */
  function SourceOf(cfg: Config, n: nat, e: Entity): Entity
    requires cfg.judge(n, e).filtered.Some?
  {
    cfg.judge(n, e).filtered.value.(file := e.file, id := e.id)
  }

  /** checkEntity, as the n-th check of the run. */
  function OutcomeOf(cfg: Config, n: nat, ids: Ids, e: Entity): Outcome {
    var v := cfg.judge(n, e);
    if !v.marked then Refused(Marked)
    else if v.filtered.None? then Refused(Filtered)
    else
      var source := SourceOf(cfg, n, e);
      if (v.ownErrors > 0 || !AllResolve(ids, source)) && !cfg.options.allowEntityErrors then Refused(EntityError)
      else if !AllResolve(ids, source) && !cfg.options.allowReferenceErrors then Refused(ReferenceError)
      else if !v.afterOk then Refused(AfterValidator)
      else Accepted(source, Updated(ids, source))
  }

  /** An entity that is accepted has all its references resolved, where references are checked. */
  lemma AcceptedResolved(cfg: Config, n: nat, ids: Ids, e: Entity)
    requires OutcomeOf(cfg, n, ids, e).Accepted?
    ensures var r := OutcomeOf(cfg, n, ids, e);
      r.source.file == r.ent.file == e.file && (ChecksReferences(cfg.options) ==> Resolved(ids, r.source, r.ent))
  {
  }

  /** A failed reference of an entity that markers and filters let pass counts as an entity error if those are not
      allowed, even if the entity has no other error, and as a reference error only if they are. */
  lemma FailedReferenceReason(cfg: Config, n: nat, ids: Ids, e: Entity)
    requires cfg.judge(n, e).marked && cfg.judge(n, e).filtered.Some? && !AllResolve(ids, SourceOf(cfg, n, e))
    ensures OutcomeOf(cfg, n, ids, e) == Refused(EntityError) <==> !cfg.options.allowEntityErrors
    ensures OutcomeOf(cfg, n, ids, e) == Refused(ReferenceError) <==>
      cfg.options.allowEntityErrors && !cfg.options.allowReferenceErrors
  {
  }

  /** Which entities are accepted, and why the others are refused: a refusal that a later check gives means that the
      earlier ones let the entity pass. */
  lemma OutcomeIff(cfg: Config, n: nat, ids: Ids, e: Entity)
    ensures var v, o, r := cfg.judge(n, e), cfg.options, OutcomeOf(cfg, n, ids, e);
      var known := v.filtered.Some? && AllResolve(ids, SourceOf(cfg, n, e));
      var clean := (o.allowEntityErrors || (v.ownErrors == 0 && known)) && (o.allowReferenceErrors || known);
      && (r.Accepted? <==> v.marked && v.filtered.Some? && clean && v.afterOk)
      && (r == Refused(Marked) <==> !v.marked)
      && (r == Refused(Filtered) <==> v.marked && v.filtered.None?)
      && (RefusedForErrors(r) <==> v.marked && v.filtered.Some? && !clean)
      && (r == Refused(AfterValidator) <==> v.marked && v.filtered.Some? && clean && !v.afterOk)
  {
  }

  predicate RefusedForErrors(outcome: Outcome) {
    outcome == Refused(EntityError) || outcome == Refused(ReferenceError)
  }

  /** Without errors of its own, an entity is refused for errors exactly if references are checked and one fails. */
  lemma RefusedForErrorsIff(cfg: Config, n: nat, ids: Ids, e: Entity)
    requires cfg.judge(n, e).marked && cfg.judge(n, e).filtered.Some? && cfg.judge(n, e).ownErrors == 0
    ensures RefusedForErrors(OutcomeOf(cfg, n, ids, e)) <==>
      ChecksReferences(cfg.options) && !AllResolve(ids, SourceOf(cfg, n, e))
  {
  }

  // ---- The trail of all checks ----

  /** One check: the map and the length of the log at that time, the entity, and the outcome. */
  datatype Check = Check(ids: Ids, logged: nat, given: Entity, outcome: Outcome)

  /** Every outcome is that of checkEntity. */
  ghost predicate Judged(cfg: Config, trail: seq<Check>) {
    forall n :: 0 <= n < |trail| ==> trail[n].outcome == OutcomeOf(cfg, n, trail[n].ids, trail[n].given)
  }

  function Givens(trail: seq<Check>): seq<Entity> {
    seq(|trail|, n requires 0 <= n < |trail| => trail[n].given)
  }

  lemma GivensConcat(a: seq<Check>, b: seq<Check>)
    ensures Givens(a + b) == Givens(a) + Givens(b)
  {
  }

  /** The entities accepted in the first n checks, as the filters left them. */
  function SourcesIn(trail: seq<Check>, n: nat): seq<Entity>
    requires n <= |trail|
  {
    if n == 0 then []
    else SourcesIn(trail, n - 1) + if trail[n - 1].outcome.Accepted? then [trail[n - 1].outcome.source] else []
  }

  /** And as they are written. */
  function AcceptedIn(trail: seq<Check>, n: nat): seq<Entity>
    requires n <= |trail|
  {
    if n == 0 then []
    else AcceptedIn(trail, n - 1) + if trail[n - 1].outcome.Accepted? then [trail[n - 1].outcome.ent] else []
  }

  lemma {:induction false} AcceptedConcat(a: seq<Check>, b: seq<Check>, n: nat)
    requires n <= |b|
    ensures AcceptedIn(a + b, |a| + n) == AcceptedIn(a, |a|) + AcceptedIn(b, n)
    ensures SourcesIn(a + b, |a| + n) == SourcesIn(a, |a|) + SourcesIn(b, n)
  {
    if n == 0 { AcceptedPrefix(a, b, |a|); } else { AcceptedConcat(a, b, n - 1); }
  }

  lemma {:induction false} AcceptedPrefix(a: seq<Check>, b: seq<Check>, n: nat)
    requires n <= |a|
    ensures AcceptedIn(a + b, n) == AcceptedIn(a, n) && SourcesIn(a + b, n) == SourcesIn(a, n)
  {
    if n > 0 { AcceptedPrefix(a, b, n - 1); }
  }

  lemma AcceptedSnoc(a: seq<Check>, c: Check)
    ensures AcceptedIn(a + [c], |a| + 1) == AcceptedIn(a, |a|) + if c.outcome.Accepted? then [c.outcome.ent] else []
    ensures SourcesIn(a + [c], |a| + 1) == SourcesIn(a, |a|) + if c.outcome.Accepted? then [c.outcome.source] else []
  {
    AcceptedPrefix(a, [c], |a|);
  }

  lemma {:induction false} AcceptedFrom(trail: seq<Check>, n: nat, e: Entity) returns (k: nat)
    requires n <= |trail| && e in AcceptedIn(trail, n)
    ensures k < n && trail[k].outcome.Accepted? && trail[k].outcome.ent == e
  {
    if e in AcceptedIn(trail, n - 1) { k := AcceptedFrom(trail, n - 1, e); } else { k := n - 1; }
  }

  /** The entities of the log are those accepted, in order. */
  ghost predicate Records(log: seq<Written>, trail: seq<Check>) {
    && |log| == |AcceptedIn(trail, |trail|)| == |SourcesIn(trail, |trail|)|
    && forall i :: 0 <= i < |log| ==>
      log[i].source == SourcesIn(trail, |trail|)[i] && log[i].ent == AcceptedIn(trail, |trail|)[i]
  }

  /** The log holds the first of them, if a failed write has ended the run. */
  ghost predicate RecordsPart(log: seq<Written>, trail: seq<Check>) {
    && |log| <= |AcceptedIn(trail, |trail|)| == |SourcesIn(trail, |trail|)|
    && forall i :: 0 <= i < |log| ==>
      log[i].source == SourcesIn(trail, |trail|)[i] && log[i].ent == AcceptedIn(trail, |trail|)[i]
  }

  lemma {:induction false} RecordsPartStill(log: seq<Written>, trail: seq<Check>, more: seq<Check>)
    requires Records(log, trail) && |AcceptedIn(more, |more|)| == |SourcesIn(more, |more|)|
    ensures RecordsPart(log, trail + more)
  {
    AcceptedConcat(trail, more, |more|);
  }

  // ---- Counts ----

  /** How many of the first n checks of a file had one outcome: acceptance, or one reason. */
  function Hits(trail: seq<Check>, n: nat, f: string, fate: Fate): nat
    requires n <= |trail|
  {
    if n == 0 then 0
    else
      Hits(trail, n - 1, f, fate) +
      if trail[n - 1].given.file == f && FateOf(trail[n - 1].outcome) == fate then 1 else 0
  }

  /** What is counted of a check. */
  datatype Fate = Taken | Skipped(reason: Reason)

  function FateOf(outcome: Outcome): Fate {
    if outcome.Accepted? then Taken else Skipped(outcome.reason)
  }

  lemma {:induction false} HitsPrefix(a: seq<Check>, b: seq<Check>, n: nat, f: string, fate: Fate)
    requires n <= |a|
    ensures Hits(a + b, n, f, fate) == Hits(a, n, f, fate)
  {
    if n > 0 { HitsPrefix(a, b, n - 1, f, fate); }
  }

  lemma HitsNext(trail: seq<Check>, c: Check, f: string, fate: Fate)
    ensures Hits(trail + [c], |trail| + 1, f, fate) ==
      Hits(trail, |trail|, f, fate) + if c.given.file == f && FateOf(c.outcome) == fate then 1 else 0
  {
    HitsPrefix(trail, [c], |trail|, f, fate);
  }

  lemma {:induction false} NoHitsIff(trail: seq<Check>, n: nat, f: string, fate: Fate)
    requires n <= |trail|
    ensures Hits(trail, n, f, fate) == 0 <==>
      forall k :: 0 <= k < n && trail[k].given.file == f ==> FateOf(trail[k].outcome) != fate
  {
    if n > 0 { NoHitsIff(trail, n - 1, f, fate); }
  }

  /** How many of the first n checks are of a file. */
  function ChecksOf(trail: seq<Check>, n: nat, f: string): nat
    requires n <= |trail|
  {
    if n == 0 then 0 else ChecksOf(trail, n - 1, f) + if trail[n - 1].given.file == f then 1 else 0
  }

  lemma OneOutcome(fate: Fate)
    ensures fate in {Taken, Skipped(Marked), Skipped(Filtered), Skipped(EntityError), Skipped(ReferenceError),
                     Skipped(AfterValidator)}
  {
    if fate.Skipped? {
      match fate.reason
      case Marked =>
      case Filtered =>
      case EntityError =>
      case ReferenceError =>
      case AfterValidator =>
    }
  }

  /** Every check has exactly one outcome. */
  lemma {:induction false} OutcomesAddUp(trail: seq<Check>, n: nat, f: string)
    requires n <= |trail|
    ensures ChecksOf(trail, n, f) == Hits(trail, n, f, Taken) + Hits(trail, n, f, Skipped(Marked)) +
      Hits(trail, n, f, Skipped(Filtered)) + Hits(trail, n, f, Skipped(EntityError)) +
      Hits(trail, n, f, Skipped(ReferenceError)) + Hits(trail, n, f, Skipped(AfterValidator))
  {
    if n > 0 {
      OutcomesAddUp(trail, n - 1, f);
      OneOutcome(FateOf(trail[n - 1].outcome));
    }
  }

  /** With entity errors not allowed, nothing is ever counted as a reference error. */
  lemma {:induction false} NoReferenceErrors(cfg: Config, trail: seq<Check>, n: nat, f: string)
    requires n <= |trail| && Judged(cfg, trail) && !cfg.options.allowEntityErrors
    ensures Hits(trail, n, f, Skipped(ReferenceError)) == 0
  {
    if n > 0 { NoReferenceErrors(cfg, trail, n - 1, f); }
  }

  // ---- Calls of copyEntities ----

  /** The expand filters' answers for the first n entities of a list, or the entities themselves; `from` entities were
      expanded before. */
  function Expansion(cfg: Config, from: nat, input: seq<Entity>, n: nat): seq<Entity>
    requires n <= |input|
  {
    if n == 0 then []
    else
      var answer := cfg.expand(from + n - 1, input[n - 1]);
      Expansion(cfg, from, input, n - 1) + if answer.Some? then answer.value else [input[n - 1]]
  }

  /** Each entity has become the answer for it, in order, and one without an answer has stayed. */
  lemma {:induction false} ExpansionIsFlat(cfg: Config, from: nat, input: seq<Entity>, pieces: seq<seq<Entity>>, n: nat)
    requires n <= |input| == |pieces|
    requires forall k :: 0 <= k < |input| ==>
      if cfg.expand(from + k, input[k]).None? then pieces[k] == [input[k]]
      else cfg.expand(from + k, input[k]) == Some(pieces[k])
    ensures Expansion(cfg, from, input, n) == Flatten(pieces, n)
  {
    if n > 0 { ExpansionIsFlat(cfg, from, input, pieces, n - 1); }
  }

  /** One call: what it was given, and the checks it made. */
  datatype Call = Call(input: seq<Entity>, checks: seq<Check>)

  /** What the call returns. */
  function DoneOf(call: Call): seq<Entity> {
    AcceptedIn(call.checks, |call.checks|)
  }

  function Inputs(calls: seq<Call>, n: nat): seq<Entity>
    requires n <= |calls|
  {
    if n == 0 then [] else Inputs(calls, n - 1) + calls[n - 1].input
  }

  function Trail(calls: seq<Call>, n: nat): seq<Check>
    requires n <= |calls|
  {
    if n == 0 then [] else Trail(calls, n - 1) + calls[n - 1].checks
  }

  lemma {:induction false} CallsPrefix(a: seq<Call>, b: seq<Call>, n: nat)
    requires n <= |a|
    ensures Inputs(a + b, n) == Inputs(a, n) && Trail(a + b, n) == Trail(a, n)
  {
    if n > 0 { CallsPrefix(a, b, n - 1); }
  }

  lemma CallsNext(calls: seq<Call>, call: Call)
    ensures Inputs(calls + [call], |calls| + 1) == Inputs(calls, |calls|) + call.input
    ensures Trail(calls + [call], |calls| + 1) == Trail(calls, |calls|) + call.checks
  {
    CallsPrefix(calls, [call], |calls|);
  }

  lemma {:induction false} CallsConcat(a: seq<Call>, b: seq<Call>, n: nat)
    requires n <= |b|
    ensures Inputs(a + b, |a| + n) == Inputs(a, |a|) + Inputs(b, n)
  {
    if n == 0 {
      CallsPrefix(a, b, |a|);
    } else {
      CallsConcat(a, b, n - 1);
      assert (a + b)[|a| + n - 1] == b[n - 1];
      Regroup(Inputs(a, |a|), Inputs(b, n - 1), b[n - 1].input);
    }
  }

  /** The call has checked exactly what its input expands to. An input that expands to nothing makes it panic. */
  predicate Complete(cfg: Config, from: nat, call: Call) {
    && Givens(call.checks) == Expansion(cfg, from, call.input, |call.input|)
    && (call.input != [] ==> call.checks != [])
  }

  predicate Panics(cfg: Config, from: nat, input: seq<Entity>) {
    input != [] && Expansion(cfg, from, input, |input|) == []
  }

  predicate CompleteAt(cfg: Config, calls: seq<Call>, k: nat)
    requires k < |calls|
  {
    Complete(cfg, |Inputs(calls, k)|, calls[k])
  }

  ghost predicate AllComplete(cfg: Config, calls: seq<Call>) {
    forall k :: 0 <= k < |calls| ==> CompleteAt(cfg, calls, k)
  }

  lemma AllCompleteNext(cfg: Config, calls: seq<Call>, call: Call)
    requires AllComplete(cfg, calls) && Complete(cfg, |Inputs(calls, |calls|)|, call)
    ensures AllComplete(cfg, calls + [call])
  {
    forall k | 0 <= k < |calls| + 1 ensures CompleteAt(cfg, calls + [call], k) {
      CallsPrefix(calls, [call], k);
      if k < |calls| { assert CompleteAt(cfg, calls, k); }
    }
  }

  lemma {:induction false} ExpansionConcat(cfg: Config, a: seq<Entity>, b: seq<Entity>, from: nat, n: nat)
    requires n <= |b|
    ensures Expansion(cfg, from, a + b, |a| + n) == Expansion(cfg, from, a, |a|) + Expansion(cfg, from + |a|, b, n)
  {
    if n == 0 { ExpansionPrefix(cfg, a, b, from, |a|); } else { ExpansionConcat(cfg, a, b, from, n - 1); }
  }

  lemma {:induction false} ExpansionPrefix(cfg: Config, a: seq<Entity>, b: seq<Entity>, from: nat, n: nat)
    requires n <= |a|
    ensures Expansion(cfg, from, a + b, n) == Expansion(cfg, from, a, n)
  {
    if n > 0 { ExpansionPrefix(cfg, a, b, from, n - 1); }
  }

  /** What the first n calls checked is what they were given, expanded. */
  ghost predicate CheckedAsGiven(cfg: Config, calls: seq<Call>, n: nat)
    requires n <= |calls|
  {
    Givens(Trail(calls, n)) == Expansion(cfg, 0, Inputs(calls, n), |Inputs(calls, n)|)
  }

  lemma CheckedNext(cfg: Config, calls: seq<Call>, n: nat)
    requires n < |calls| && CheckedAsGiven(cfg, calls, n) && CompleteAt(cfg, calls, n)
    ensures CheckedAsGiven(cfg, calls, n + 1)
  {
    ExpansionConcat(cfg, Inputs(calls, n), calls[n].input, 0, |calls[n].input|);
    GivensConcat(Trail(calls, n), calls[n].checks);
    assert Inputs(calls, n + 1) == Inputs(calls, n) + calls[n].input;
  }

  /** Over all calls, every entity is checked, expanded, as often as it was given. */
  lemma {:induction false} GivenIsChecked(cfg: Config, calls: seq<Call>, n: nat)
    requires n <= |calls| && AllComplete(cfg, calls)
    ensures CheckedAsGiven(cfg, calls, n)
  {
    if n == 0 {
      NothingChecked(cfg, calls);
    } else {
      GivenIsChecked(cfg, calls, n - 1);
      CheckedNext(cfg, calls, n - 1);
    }
  }

  lemma NothingChecked(cfg: Config, calls: seq<Call>)
    ensures CheckedAsGiven(cfg, calls, 0)
  {
  }

  /** What the accepted entities of one file carry, but for those of skipped ids. */
  function ChildrenIn(ents: seq<Entity>, n: nat, file: string, skipped: set<string>): seq<Entity>
    requires n <= |ents|
  {
    if n == 0 then []
    else
      var last := ents[n - 1];
      ChildrenIn(ents, n - 1, file, skipped) + if last.file == file && last.id !in skipped then last.children else []
  }

  function Carried(call: Call, file: string, skipped: set<string>): seq<Entity> {
    ChildrenIn(DoneOf(call), |DoneOf(call)|, file, skipped)
  }

  // ---- Runs without a failure of the writer ----

  /** The writer writes what it is given, and no after-writer fails. */
  ghost predicate WriterWorks(cfg: Config) {
    && (forall n, ents :: cfg.assign(n, ents).Some? && |cfg.assign(n, ents).value| == |ents|)
    && forall n, eid, e :: cfg.notify(n, eid, e)
  }

  /** The last call has an input that expands to nothing. */
  predicate EndsInPanic(cfg: Config, calls: seq<Call>) {
    calls != [] && Panics(cfg, |Inputs(calls, |calls| - 1)|, calls[|calls| - 1].input)
  }
}
