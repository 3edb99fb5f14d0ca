/** All runs of importing one feed version: importer/importer.go and importer/unimporter.go.

    The copy is not one transaction, so an import can fail or crash between any two of its writes; what it leaves
    is told apart by the import record. One importer at a time works on a feed version. */
module ImportProtocol {
  import opened Sequences

  // ---- The checks on the copier's result ----

  datatype CopyResult = CopyResult(entities: map<string, nat>, entityErrors: map<string, nat>,
                                   referenceErrors: map<string, nat>)

  /** The thresholds are percentages by file, with "*" for the rest. */
  datatype Options = Options(thresholds: map<string, real>, allowPartial: bool, activate: bool)

  function Errors(res: CopyResult, f: string): nat {
    At(res.entityErrors, f) + At(res.referenceErrors, f)
  }

  function Total(res: CopyResult, f: string): nat {
    At(res.entities, f) + Errors(res, f)
  }

  function ErrorPercent(res: CopyResult, f: string): real {
    if Total(res, f) > 0 then Errors(res, f) as real / Total(res, f) as real * 100.0 else 0.0
  }

  /** One file against its threshold. */
  predicate FileOk(res: CopyResult, f: string, threshold: real) {
    if threshold == 0.0 then Errors(res, f) == 0 else ErrorPercent(res, f) <= threshold
  }

  function Files(res: CopyResult): set<string> {
    res.entities.Keys + res.entityErrors.Keys + res.referenceErrors.Keys
  }

  function ThresholdOf(thresholds: map<string, real>, f: string): Option<real> {
    if f in thresholds then Some(thresholds[f]) else if "*" in thresholds then Some(thresholds["*"]) else None
  }

  predicate WithinThreshold(res: CopyResult, thresholds: map<string, real>, f: string) {
    var t := ThresholdOf(thresholds, f); t.Some? ==> FileOk(res, f, t.value)
  }

  /** No file has more than its threshold of every hundred entities in error. */
  predicate ThresholdsMet(res: CopyResult, thresholds: map<string, real>) {
    forall f :: f in Files(res) ==> WithinThreshold(res, thresholds, f)
  }

  predicate MinEntitiesMet(res: CopyResult) {
    At(res.entities, "agency.txt") >= 1 && At(res.entities, "routes.txt") >= 1
  }

  predicate Passes(opts: Options, res: CopyResult) {
    ThresholdsMet(res, opts.thresholds) && (opts.allowPartial || MinEntitiesMet(res))
  }

  /** The percentage test is the exact one: a threshold of p allows p errors in every hundred. */
  lemma FileOkIff(res: CopyResult, f: string, threshold: real)
    requires threshold >= 0.0
    ensures FileOk(res, f, threshold) <==> 100.0 * Errors(res, f) as real <= threshold * Total(res, f) as real
  {
    var e, t := Errors(res, f) as real, Total(res, f) as real;
    if t > 0.0 {
      assert e / t * 100.0 * t == e * 100.0;
      if e / t * 100.0 <= threshold { ScaleBound(e / t * 100.0, threshold, t); }
      if threshold < e / t * 100.0 { ScaleStrict(threshold, e / t * 100.0, t); }
    }
  }

  lemma ScaleBound(a: real, b: real, t: real)
    requires a <= b && t > 0.0
    ensures a * t <= b * t
  {
  }

  lemma ScaleStrict(a: real, b: real, t: real)
    requires a < b && t > 0.0
    ensures a * t < b * t
  {
  }

  /** A file may have p errors in every hundred of what was read of it, if p is its own threshold, or the one for files
      without. */
  predicate MayHave(res: CopyResult, f: string, p: real) {
    var errors := At(res.entityErrors, f) + At(res.referenceErrors, f);
    100.0 * errors as real <= p * (At(res.entities, f) + errors) as real
  }

  lemma WithinThresholdIff(res: CopyResult, thresholds: map<string, real>, f: string)
    requires forall g :: g in thresholds ==> thresholds[g] >= 0.0
    ensures WithinThreshold(res, thresholds, f) <==>
      && (f in thresholds ==> MayHave(res, f, thresholds[f]))
      && (f !in thresholds && "*" in thresholds ==> MayHave(res, f, thresholds["*"]))
  {
    if f in thresholds {
      FileOkIff(res, f, thresholds[f]);
    } else if "*" in thresholds {
      FileOkIff(res, f, thresholds["*"]);
    }
  }

  /** A result meets the thresholds exactly if no file has more errors than it may have. */
  lemma ThresholdsMetIff(res: CopyResult, thresholds: map<string, real>)
    requires forall f :: f in thresholds ==> thresholds[f] >= 0.0
    ensures ThresholdsMet(res, thresholds) <==> forall f :: f in Files(res) ==>
      && (f in thresholds ==> MayHave(res, f, thresholds[f]))
      && (f !in thresholds && "*" in thresholds ==> MayHave(res, f, thresholds["*"]))
  {
    forall f ensures WithinThreshold(res, thresholds, f) <==>
      && (f in thresholds ==> MayHave(res, f, thresholds[f]))
      && (f !in thresholds && "*" in thresholds ==> MayHave(res, f, thresholds["*"]))
    {
      WithinThresholdIff(res, thresholds, f);
    }
  }

  method CheckErrorThreshold(res: CopyResult, thresholds: map<string, real>) returns (ok: bool)
    ensures ok <==> ThresholdsMet(res, thresholds)
  {
    ok := true;
    if |thresholds| == 0 {
      return;
    }
    var todo := Files(res);
    while todo != {}
      invariant todo <= Files(res)
      invariant ok <==> forall f :: f in Files(res) && f !in todo ==> WithinThreshold(res, thresholds, f)
    {
      var f :| f in todo;
      todo := todo - {f};
      if f !in thresholds && "*" !in thresholds {
        continue;
      }
      var threshold := if f in thresholds then thresholds[f] else thresholds["*"];
      var total := Total(res, f);
      var percent := 0.0;
      if total > 0 {
        percent := Errors(res, f) as real / total as real * 100.0;
      }
      var fileOk := if threshold == 0.0 then Errors(res, f) == 0 else percent <= threshold;
      if !fileOk {
        ok := false;
      }
    }
  }

  // ---- The state ----

  datatype Record = Record(id: nat, success: bool, inProgress: bool)

  /** A row of an entity table, with the import that wrote it. */
  datatype Row = Row(table: string, id: nat)

  /** The import record of the feed version, its rows, and whether it is active. */
  datatype Db = Db(record: Option<Record>, rows: seq<Row>, active: bool, nextId: nat)

  datatype Pc = Idle | Reading(opts: Options) | Checking(opts: Options) | Creating(opts: Options)
              | Copying(id: nat, opts: Options) | Failing(id: nat) | Finalizing(id: nat, opts: Options)
              | Activating(id: nat)

  /** What ImportFeedVersion returns: two fields of the record in hand, and whether there is an error. */
  datatype Returned = Returned(id: Option<nat>, success: bool, inProgress: bool, error: bool)

  /** `passed` holds the imports whose copy ended well and met the checks. */
  datatype World = World(db: Db, pc: Pc, passed: set<nat>, returned: seq<Returned>)

  datatype Event =
    | Begin(opts: Options)
    | Go
    | Fail
    | WriteRow(table: string)
    | CopyEnds(res: Option<CopyResult>)
    | Crash
    | Unimport(tables: set<string>, ok: bool)

  const START := World(Db(None, [], false, 0), Idle, {}, [])

  /** The rows that queries see. */
  predicate Visible(db: Db) {
    db.record.Some? && db.record.value.success && !db.record.value.inProgress
  }

  /** The rows that stay when some tables are emptied. */
  function Without(rows: seq<Row>, tables: set<string>, n: nat): seq<Row>
    requires n <= |rows|
  {
    if n == 0 then []
    else Without(rows, tables, n - 1) + if rows[n - 1].table in tables then [] else [rows[n - 1]]
  }

  /** How often a row is among the first n. */
  function Times(rows: seq<Row>, n: nat, r: Row): nat
    requires n <= |rows|
  {
    if n == 0 then 0 else Times(rows, n - 1, r) + if rows[n - 1] == r then 1 else 0
  }

  lemma {:induction false} TimesConcat(a: seq<Row>, b: seq<Row>, n: nat, r: Row)
    requires n <= |b|
    ensures Times(a + b, |a| + n, r) == Times(a, |a|, r) + Times(b, n, r)
  {
    if n == 0 { TimesPrefix(a, b, |a|, r); } else { TimesConcat(a, b, n - 1, r); }
  }

  lemma {:induction false} TimesPrefix(a: seq<Row>, b: seq<Row>, n: nat, r: Row)
    requires n <= |a|
    ensures Times(a + b, n, r) == Times(a, n, r)
  {
    if n > 0 { TimesPrefix(a, b, n - 1, r); }
  }

  /** Of the other tables every row stays. */
  lemma {:induction false} WithoutCounts(rows: seq<Row>, tables: set<string>, n: nat, r: Row)
    requires n <= |rows|
    ensures var left := Without(rows, tables, n);
      Times(left, |left|, r) == if r.table in tables then 0 else Times(rows, n, r)
  {
    if n > 0 {
      WithoutCounts(rows, tables, n - 1, r);
      var kept := if rows[n - 1].table in tables then [] else [rows[n - 1]];
      TimesConcat(Without(rows, tables, n - 1), kept, |kept|, r);
    }
  }

  // ---- The steps ----

  function Return(w: World, r: Returned): World {
    w.(pc := Idle, returned := w.returned + [r])
  }

  /** Updating a record that is gone is an error. */
  predicate CanUpdate(db: Db, id: nat) {
    db.record.Some? && db.record.value.id == id
  }

  /** The next operation of the import succeeds, or fails. */
  function Operation(w: World, ok: bool): World {
    match w.pc
    case Idle => w
    case Reading(opts) => if ok then w.(pc := Checking(opts)) else Return(w, Returned(None, false, true, true))
    case Checking(opts) =>
      if !ok then Return(w, Returned(None, false, true, true))
      else if w.db.record.Some? then Return(w, Returned(None, false, true, false))
      else w.(pc := Creating(opts))
    case Creating(opts) =>
      if !ok then Return(w, Returned(None, false, true, true))
      else
        var id := w.db.nextId;
        w.(db := w.db.(record := Some(Record(id, false, true)), nextId := id + 1), pc := Copying(id, opts))
    case Copying(_, _) => w
    case Failing(id) =>
      var r := Returned(Some(id), false, false, true);
      if ok && CanUpdate(w.db, id) then Return(w.(db := w.db.(record := Some(Record(id, false, false)))), r)
      else Return(w, r)
    case Finalizing(id, opts) =>
      if ok && CanUpdate(w.db, id) then
        var done := w.(db := w.db.(record := Some(Record(id, true, false))));
        if opts.activate then done.(pc := Activating(id)) else Return(done, Returned(Some(id), true, false, false))
      else Return(w, Returned(Some(id), false, true, true))
    case Activating(id) =>
      if ok then Return(w.(db := w.db.(active := true)), Returned(Some(id), true, false, false))
      else Return(w, Returned(Some(id), true, false, true))
  }

  function Step(w: World, e: Event): World {
    match e
    case Begin(opts) => if w.pc.Idle? then w.(pc := Reading(opts)) else w
    case Go => Operation(w, true)
    case Fail => Operation(w, false)
    case WriteRow(table) => if w.pc.Copying? then w.(db := w.db.(rows := w.db.rows + [Row(table, w.pc.id)])) else w
    case CopyEnds(res) =>
      if !w.pc.Copying? then w
      else if res.Some? && Passes(w.pc.opts, res.value) then
        w.(pc := Finalizing(w.pc.id, w.pc.opts), passed := w.passed + {w.pc.id})
      else w.(pc := Failing(w.pc.id))
    case Crash => w.(pc := Idle)
    case Unimport(tables, ok) =>
      if ok then w.(db := Db(None, Without(w.db.rows, tables, |w.db.rows|), false, w.db.nextId)) else w
  }

  function Run(w: World, events: seq<Event>, n: nat): World
    requires n <= |events|
  {
    if n == 0 then w else Step(Run(w, events, n - 1), events[n - 1])
  }

  // ---- What holds at every moment of every run ----

  /** An import is at work on record `id`. */
  predicate WorksOn(pc: Pc, id: nat) {
    (pc.Copying? || pc.Failing? || pc.Finalizing? || pc.Activating?) && pc.id == id
  }

  predicate Importing(pc: Pc) {
    pc.Copying? || pc.Failing? || pc.Finalizing? || pc.Activating?
  }

  /** The record of import `id` as it has stored it, unless an unimport has removed it: unimporter.go does not look
      whether an import is at work. */
  predicate OwnOrGone(w: World, id: nat, success: bool) {
    id < w.db.nextId && (w.db.record.Some? ==> w.db.record.value == Record(id, success, !success))
  }

  ghost predicate Inv(w: World) {
    && (w.db.record.Some? ==> w.db.record.value.id < w.db.nextId)
    && (Visible(w.db) ==> w.db.record.value.id in w.passed)
    && match w.pc
       case Creating(_) => w.db.record.None?
       case Copying(id, _) => OwnOrGone(w, id, false)
       case Failing(id) => OwnOrGone(w, id, false)
       case Finalizing(id, _) => OwnOrGone(w, id, false) && id in w.passed
       case Activating(id) => OwnOrGone(w, id, true) && id in w.passed
       case _ => true
  }

  lemma StepKeepsInv(w: World, e: Event)
    requires Inv(w)
    ensures Inv(Step(w, e))
  {
  }

  /** In every run, unimports at any point included, data is visible only if its copy and checks passed, and a
      record that an import works on is its own. */
  lemma {:induction false} EveryRunKeepsInv(events: seq<Event>, n: nat)
    requires n <= |events|
    ensures Inv(Run(START, events, n))
  {
    if n > 0 {
      EveryRunKeepsInv(events, n - 1);
      StepKeepsInv(Run(START, events, n - 1), events[n - 1]);
    }
  }

  // ---- When the record of an import is gone ----

  /** An unimport is committed while an import works on record `id`. */
  ghost predicate UnimportsAt(events: seq<Event>, k: nat, id: nat)
    requires k < |events|
  {
    events[k].Unimport? && events[k].ok && WorksOn(Run(START, events, k).pc, id)
  }

  ghost predicate Unimported(events: seq<Event>, n: nat, id: nat)
    requires n <= |events|
  {
    exists k :: 0 <= k < n && UnimportsAt(events, k, id)
  }

  lemma UnimportedNext(events: seq<Event>, n: nat, id: nat)
    requires n < |events|
    ensures Unimported(events, n + 1, id) <==> Unimported(events, n, id) || UnimportsAt(events, n, id)
  {
  }

  lemma {:induction false} NextIdGrows(events: seq<Event>, k: nat, n: nat)
    requires k <= n <= |events|
    ensures Run(START, events, k).db.nextId <= Run(START, events, n).db.nextId
  {
    if k < n { NextIdGrows(events, k, n - 1); }
  }

  /** An id that is not given yet has not been unimported. */
  lemma NewIdNotUnimported(events: seq<Event>, n: nat, id: nat)
    requires n <= |events| && id >= Run(START, events, n).db.nextId
    ensures !Unimported(events, n, id)
  {
    forall k | 0 <= k < n ensures !UnimportsAt(events, k, id) {
      EveryRunKeepsInv(events, k);
      NextIdGrows(events, k, n);
    }
  }

  /** The record of an import at work is gone exactly if an unimport has been committed during that import. */
  lemma {:induction false} RecordGoneIff(events: seq<Event>, n: nat, id: nat)
    requires n <= |events| && WorksOn(Run(START, events, n).pc, id)
    ensures Run(START, events, n).db.record.None? <==> Unimported(events, n, id)
  {
    if n > 0 {
      EveryRunKeepsInv(events, n - 1);
      UnimportedNext(events, n - 1, id);
      if WorksOn(Run(START, events, n - 1).pc, id) {
        RecordGoneIff(events, n - 1, id);
      } else {
        NewIdNotUnimported(events, n - 1, id);
      }
    }
  }

  // ---- Rows and active state against the record ----

  /** All rows are of the import the record stands for; without a record there are none. */
  ghost predicate RowsMatch(db: Db) {
    if db.record.None? then db.rows == [] else forall r :: r in db.rows ==> r.id == db.record.value.id
  }

  /** A row is written by an import whose record is gone. */
  predicate WritesStale(w: World, e: Event) {
    e.WriteRow? && w.pc.Copying? && !CanUpdate(w.db, w.pc.id)
  }

  /** An unimport leaves rows in a table that its caller does not list. */
  predicate LeavesRows(w: World, e: Event) {
    e.Unimport? && e.ok && exists r :: r in w.db.rows && r.table !in e.tables
  }

  lemma {:induction false} NothingLeftIff(rows: seq<Row>, tables: set<string>, n: nat)
    requires n <= |rows|
    ensures Without(rows, tables, n) == [] <==> forall k :: 0 <= k < n ==> rows[k].table in tables
  {
    if n > 0 { NothingLeftIff(rows, tables, n - 1); }
  }

  /** A feed version is activated by an import whose record is gone. */
  predicate ActivatesStale(w: World, e: Event) {
    e == Go && w.pc.Activating? && !CanUpdate(w.db, w.pc.id)
  }

  lemma StepRowsIff(w: World, e: Event)
    requires Inv(w) && RowsMatch(w.db)
    ensures RowsMatch(Step(w, e).db) <==> !WritesStale(w, e) && !LeavesRows(w, e)
  {
    if WritesStale(w, e) { assert Step(w, e).db.rows[|w.db.rows|] == Row(e.table, w.pc.id); }
    if e.Unimport? { NothingLeftIff(w.db.rows, e.tables, |w.db.rows|); }
  }

  lemma StepActiveIff(w: World, e: Event)
    requires Inv(w) && (w.db.active ==> Visible(w.db))
    ensures (Step(w, e).db.active ==> Visible(Step(w, e).db)) <==> !ActivatesStale(w, e)
  {
  }

  ghost predicate RowsMatchAt(events: seq<Event>, k: nat)
    requires k <= |events|
  {
    RowsMatch(Run(START, events, k).db)
  }

  /** A row is written by an import during which an unimport has been committed. */
  ghost predicate StaleWriteAt(events: seq<Event>, k: nat)
    requires k < |events|
  {
    var pc := Run(START, events, k).pc; events[k].WriteRow? && pc.Copying? && Unimported(events, k, pc.id)
  }

  lemma StaleWriteIff(events: seq<Event>, k: nat)
    requires k < |events|
    ensures StaleWriteAt(events, k) <==> WritesStale(Run(START, events, k), events[k])
  {
    var pc := Run(START, events, k).pc;
    EveryRunKeepsInv(events, k);
    if pc.Copying? { RecordGoneIff(events, k, pc.id); }
  }

  ghost predicate LeavesRowsAt(events: seq<Event>, k: nat)
    requires k < |events|
  {
    LeavesRows(Run(START, events, k), events[k])
  }

  ghost predicate ActiveVisibleAt(events: seq<Event>, k: nat)
    requires k <= |events|
  {
    var db := Run(START, events, k).db; db.active ==> Visible(db)
  }

  /** A feed version is activated by an import during which an unimport has been committed. */
  ghost predicate StaleActivationAt(events: seq<Event>, k: nat)
    requires k < |events|
  {
    var pc := Run(START, events, k).pc; events[k] == Go && pc.Activating? && Unimported(events, k, pc.id)
  }

  lemma StaleActivationIff(events: seq<Event>, k: nat)
    requires k < |events|
    ensures StaleActivationAt(events, k) <==> ActivatesStale(Run(START, events, k), events[k])
  {
    var pc := Run(START, events, k).pc;
    EveryRunKeepsInv(events, k);
    if pc.Activating? { RecordGoneIff(events, k, pc.id); }
  }

  lemma RowsNextIff(events: seq<Event>, n: nat)
    requires n < |events| && RowsMatchAt(events, n)
    ensures RowsMatchAt(events, n + 1) <==> !StaleWriteAt(events, n) && !LeavesRowsAt(events, n)
  {
    EveryRunKeepsInv(events, n);
    StaleWriteIff(events, n);
    StepRowsIff(Run(START, events, n), events[n]);
  }

  lemma ActiveNextIff(events: seq<Event>, n: nat)
    requires n < |events| && ActiveVisibleAt(events, n)
    ensures ActiveVisibleAt(events, n + 1) <==> !StaleActivationAt(events, n)
  {
    EveryRunKeepsInv(events, n);
    StaleActivationIff(events, n);
    StepActiveIff(Run(START, events, n), events[n]);
  }

  /** The rows are at every moment those of the record, exactly if no import writes a row after an unimport that was
      committed during it, and no unimport leaves rows in tables it is not told of. */
  lemma {:induction false} RowsMatchIff(events: seq<Event>, n: nat)
    requires n <= |events|
    ensures (forall k :: 0 <= k <= n ==> RowsMatchAt(events, k)) <==>
      (forall k :: 0 <= k < n ==> !StaleWriteAt(events, k) && !LeavesRowsAt(events, k))
  {
    if n == 0 {
      assert RowsMatchAt(events, 0);
    } else {
      RowsMatchIff(events, n - 1);
      if forall k :: 0 <= k < n ==> RowsMatchAt(events, k) {
        RowsNextIff(events, n - 1);
      }
    }
  }

  /** Only visible data is active at every moment, exactly if no import activates after an unimport that was committed
      during it. */
  lemma {:induction false} ActiveVisibleIff(events: seq<Event>, n: nat)
    requires n <= |events|
    ensures (forall k :: 0 <= k <= n ==> ActiveVisibleAt(events, k)) <==>
      (forall k :: 0 <= k < n ==> !StaleActivationAt(events, k))
  {
    if n == 0 {
      assert ActiveVisibleAt(events, 0);
    } else {
      ActiveVisibleIff(events, n - 1);
      if forall k :: 0 <= k < n ==> ActiveVisibleAt(events, k) {
        ActiveNextIff(events, n - 1);
      }
    }
  }

  /** Rows change, but for an unimport, by one row of the import at work; its record is there, in progress, exactly if
      no unimport has been committed during the import. */
  lemma WritesUnderOwnRecordIff(events: seq<Event>, n: nat)
    requires n < |events| && !events[n].Unimport?
    ensures var w, next := Run(START, events, n), Run(START, events, n + 1);
      next.db.rows != w.db.rows ==>
        && events[n].WriteRow? && w.pc.Copying? && next.db.rows == w.db.rows + [Row(events[n].table, w.pc.id)]
        && (w.db.record == Some(Record(w.pc.id, false, true)) <==> !Unimported(events, n, w.pc.id))
  {
    var w := Run(START, events, n);
    EveryRunKeepsInv(events, n);
    if w.pc.Copying? { RecordGoneIff(events, n, w.pc.id); }
  }

  // ---- What is returned, and activation ----

  /** What is returned of an import that made its record is what the database holds, exactly if no unimport has been
      committed during the import and it is not a failed one whose last update fails: that one says it is no longer in
      progress. */
  lemma ReturnedIsPersistedIff(events: seq<Event>, n: nat)
    requires n < |events|
    ensures var w, next := Run(START, events, n), Run(START, events, n + 1);
      |next.returned| > |w.returned| && next.returned[|w.returned|].id.Some? ==>
        var r := next.returned[|w.returned|];
        && WorksOn(w.pc, r.id.value)
        && (next.db.record == Some(Record(r.id.value, r.success, r.inProgress)) <==>
            !Unimported(events, n, r.id.value) && !(w.pc.Failing? && events[n] == Fail))
  {
    var w := Run(START, events, n);
    EveryRunKeepsInv(events, n);
    if Importing(w.pc) { RecordGoneIff(events, n, w.pc.id); }
  }

  /** A success that is returned has passed copy and checks, and the database holds it exactly if no unimport has been
      committed during the import; without stale writes, or rows left by an unimport, all rows are those of that
      import. */
  lemma ReturnedSuccessIsPersistedIff(events: seq<Event>, n: nat)
    requires n < |events|
    ensures var w, next := Run(START, events, n), Run(START, events, n + 1);
      |next.returned| > |w.returned| && next.returned[|w.returned|].success ==>
        var r := next.returned[|w.returned|];
        && r.id.Some? && r.id.value in next.passed
        && (next.db.record == Some(Record(r.id.value, true, false)) <==> !Unimported(events, n, r.id.value))
        && (next.db.record.Some? &&
            (forall k :: 0 <= k <= n ==> !StaleWriteAt(events, k) && !LeavesRowsAt(events, k)) ==>
            forall row :: row in next.db.rows ==> row.id == r.id.value)
  {
    var w := Run(START, events, n);
    EveryRunKeepsInv(events, n);
    if Importing(w.pc) { RecordGoneIff(events, n, w.pc.id); }
    if forall k :: 0 <= k <= n ==> !StaleWriteAt(events, k) && !LeavesRowsAt(events, k) {
      RowsMatchIff(events, n + 1);
      assert RowsMatchAt(events, n + 1);
    }
  }

  /** The feed version becomes active only by an import that has passed, and its success is in the database exactly if
      no unimport has been committed during the import. */
  lemma ActivationFollowsSuccessIff(events: seq<Event>, n: nat)
    requires n < |events|
    ensures var w, next := Run(START, events, n), Run(START, events, n + 1);
      !w.db.active && next.db.active ==>
        && w.pc.Activating? && w.pc.id in w.passed && next.db.rows == w.db.rows
        && (w.db.record == Some(Record(w.pc.id, true, false)) <==> !Unimported(events, n, w.pc.id))
  {
    var w := Run(START, events, n);
    EveryRunKeepsInv(events, n);
    if w.pc.Activating? { RecordGoneIff(events, n, w.pc.id); }
  }

  // ---- Until an unimport ----

  ghost predicate NoUnimport(events: seq<Event>, n: nat)
    requires n <= |events|
  {
    forall k :: 0 <= k < n ==> !(events[k].Unimport? && events[k].ok)
  }

  /** A record that no import is working on -- of a success, a failure or a crash -- stops every later import from
      writing anything: rows and record stay as they are until an unimport. */
  lemma {:induction false} RecordBlocksImports(w: World, events: seq<Event>, n: nat)
    requires n <= |events| && NoUnimport(events, n)
    requires w.db.record.Some? && !Importing(w.pc) && !w.pc.Creating?
    ensures var next := Run(w, events, n);
      next.db == w.db && next.passed == w.passed && !Importing(next.pc) && !next.pc.Creating?
  {
    if n > 0 { RecordBlocksImports(w, events, n - 1); }
  }

  /** Visible data does not change until an unimport, whatever runs. */
  lemma {:induction false} VisibleDataIsFrozen(w: World, events: seq<Event>, n: nat)
    requires n <= |events| && NoUnimport(events, n) && Inv(w) && Visible(w.db)
    ensures var next := Run(w, events, n);
      Inv(next) && next.db.rows == w.db.rows && next.db.record == w.db.record && (w.db.active ==> next.db.active)
  {
    if n > 0 {
      VisibleDataIsFrozen(w, events, n - 1);
      StepKeepsInv(Run(w, events, n - 1), events[n - 1]);
    }
  }

  // ---- Some runs ----

  const TABLES := {"stops"}

  /** A run that imports and activates. */
  lemma AnImportCanSucceed(opts: Options, res: CopyResult)
    requires opts.activate && Passes(opts, res)
    ensures var events := [Begin(opts), Go, Go, Go, WriteRow("stops"), CopyEnds(Some(res)), Go, Go];
      var last := Run(START, events, 8); Visible(last.db) && last.db.active && last.db.rows == [Row("stops", 0)]
  {
    var events := [Begin(opts), Go, Go, Go, WriteRow("stops"), CopyEnds(Some(res)), Go, Go];
    var db := Db(Some(Record(0, false, true)), [Row("stops", 0)], false, 1);
    assert Run(START, events, 1) == START.(pc := Reading(opts));
    assert Run(START, events, 2) == START.(pc := Checking(opts));
    assert Run(START, events, 3) == START.(pc := Creating(opts));
    assert Run(START, events, 4) == World(db.(rows := []), Copying(0, opts), {}, []);
    assert Run(START, events, 5) == World(db, Copying(0, opts), {}, []);
    assert Run(START, events, 6) == World(db, Finalizing(0, opts), {0}, []);
    assert Run(START, events, 7) == World(db.(record := Some(Record(0, true, false))), Activating(0), {0}, []);
  }

  /** An unimport during an import: the rest of its rows outlive the record, and the next import, which finds no
      record, shows them among its own. */
  lemma StaleRowsBecomeVisible(opts: Options, res: CopyResult)
    requires !opts.activate && Passes(opts, res)
    ensures var events := [Begin(opts), Go, Go, Go, Unimport(TABLES, true), WriteRow("stops"), Crash,
                           Begin(opts), Go, Go, Go, WriteRow("stops"), CopyEnds(Some(res)), Go];
      var last := Run(START, events, 14); Visible(last.db) && last.db.rows == [Row("stops", 0), Row("stops", 1)]
  {
    var events := [Begin(opts), Go, Go, Go, Unimport(TABLES, true), WriteRow("stops"), Crash,
                   Begin(opts), Go, Go, Go, WriteRow("stops"), CopyEnds(Some(res)), Go];
    AbandonedRows(opts, events);
    var db := Db(Some(Record(1, false, true)), [Row("stops", 0), Row("stops", 1)], false, 2);
    assert Run(START, events, 8) == World(Db(None, [Row("stops", 0)], false, 1), Reading(opts), {}, []);
    assert Run(START, events, 9) == World(Db(None, [Row("stops", 0)], false, 1), Checking(opts), {}, []);
    assert Run(START, events, 10) == World(Db(None, [Row("stops", 0)], false, 1), Creating(opts), {}, []);
    assert Run(START, events, 11) == World(db.(rows := [Row("stops", 0)]), Copying(1, opts), {}, []);
    assert Run(START, events, 12) == World(db, Copying(1, opts), {}, []);
    assert Run(START, events, 13) == World(db, Finalizing(1, opts), {1}, []);
    assert Run(START, events, 14).db == db.(record := Some(Record(1, true, false)));
  }

  /** An unimport between the last update and the activation: the feed version becomes active without data. */
  lemma ActiveWithoutData(opts: Options, res: CopyResult)
    requires opts.activate && Passes(opts, res)
    ensures var events := [Begin(opts), Go, Go, Go, CopyEnds(Some(res)), Go, Unimport(TABLES, true), Go];
      var last := Run(START, events, 8);
      last.db.active && last.db.record.None? && last.returned == [Returned(Some(0), true, false, false)]
  {
    var events := [Begin(opts), Go, Go, Go, CopyEnds(Some(res)), Go, Unimport(TABLES, true), Go];
    var db := Db(Some(Record(0, false, true)), [], false, 1);
    assert Run(START, events, 1) == START.(pc := Reading(opts));
    assert Run(START, events, 2) == START.(pc := Checking(opts));
    assert Run(START, events, 3) == START.(pc := Creating(opts));
    assert Run(START, events, 4) == World(db, Copying(0, opts), {}, []);
    assert Run(START, events, 5) == World(db, Finalizing(0, opts), {0}, []);
    assert Run(START, events, 6) == World(db.(record := Some(Record(0, true, false))), Activating(0), {0}, []);
    assert Run(START, events, 7) == World(Db(None, [], false, 1), Activating(0), {0}, []);
  }

  /** A failed import whose last update fails: it returns that it is over, and the database holds it as in progress. */
  lemma FailedUpdateIsNotStored(opts: Options)
    ensures var events := [Begin(opts), Go, Go, Go, CopyEnds(None), Fail];
      var last := Run(START, events, 6);
      last.returned == [Returned(Some(0), false, false, true)] && last.db.record == Some(Record(0, false, true))
  {
    var events := [Begin(opts), Go, Go, Go, CopyEnds(None), Fail];
    var db := Db(Some(Record(0, false, true)), [], false, 1);
    assert Run(START, events, 1) == START.(pc := Reading(opts));
    assert Run(START, events, 2) == START.(pc := Checking(opts));
    assert Run(START, events, 3) == START.(pc := Creating(opts));
    assert Run(START, events, 4) == World(db, Copying(0, opts), {}, []);
    assert Run(START, events, 5) == World(db, Failing(0), {}, []);
  }

  /** A failed import, and an unimport that is not told of one of the tables it wrote to: the row stays. */
  lemma UnlistedTableStays(opts: Options)
    ensures var events := [Begin(opts), Go, Go, Go, WriteRow("plus"), CopyEnds(None), Go, Unimport(TABLES, true)];
      var last := Run(START, events, 8); last.db == Db(None, [Row("plus", 0)], false, 1)
  {
    var events := [Begin(opts), Go, Go, Go, WriteRow("plus"), CopyEnds(None), Go, Unimport(TABLES, true)];
    var db := Db(Some(Record(0, false, true)), [Row("plus", 0)], false, 1);
    assert Run(START, events, 1) == START.(pc := Reading(opts));
    assert Run(START, events, 2) == START.(pc := Checking(opts));
    assert Run(START, events, 3) == START.(pc := Creating(opts));
    assert Run(START, events, 4) == World(db.(rows := []), Copying(0, opts), {}, []);
    assert Run(START, events, 5) == World(db, Copying(0, opts), {}, []);
    assert Run(START, events, 6) == World(db, Failing(0), {}, []);
    assert Run(START, events, 7).db == db.(record := Some(Record(0, false, false)));
    assert Without(db.rows, TABLES, 1) == db.rows;
  }

  /** A row written after the unimport, by an import that then crashes. */
  lemma AbandonedRows(opts: Options, events: seq<Event>)
    requires |events| >= 7 && events[..7] == [Begin(opts), Go, Go, Go, Unimport(TABLES, true), WriteRow("stops"), Crash]
    ensures Run(START, events, 7) == World(Db(None, [Row("stops", 0)], false, 1), Idle, {}, [])
  {
    assert forall k :: 0 <= k < 7 ==> events[k] == events[..7][k];
    assert Run(START, events, 1) == START.(pc := Reading(opts));
    assert Run(START, events, 2) == START.(pc := Checking(opts));
    assert Run(START, events, 3) == START.(pc := Creating(opts));
    assert Run(START, events, 4) == World(Db(Some(Record(0, false, true)), [], false, 1), Copying(0, opts), {}, []);
    assert Run(START, events, 5) == World(Db(None, [], false, 1), Copying(0, opts), {}, []);
    assert Run(START, events, 6) == World(Db(None, [Row("stops", 0)], false, 1), Copying(0, opts), {}, []);
  }

  // ---- The code of one import ----

  lemma {:induction false} RunPrefix(w: World, events: seq<Event>, e: Event, n: nat)
    requires n <= |events|
    ensures Run(w, events + [e], n) == Run(w, events, n)
  {
    if n > 0 { RunPrefix(w, events, e, n - 1); }
  }

  lemma RunOn(w: World, events: seq<Event>, e: Event)
    ensures Run(w, events + [e], |events| + 1) == Step(Run(w, events, |events|), e)
  {
    RunPrefix(w, events, e, |events|);
  }

  /** What may happen to one import: which operations fail, the tables of the rows copied, and how the copy ends. */
  datatype Luck = Luck(readOk: bool, checkOk: bool, createOk: bool, rows: seq<string>, copied: Option<CopyResult>,
                       updateOk: bool, activateOk: bool)

  /** The rows an import writes into the first n of these tables. */
  function RowsOf(tables: seq<string>, id: nat, n: nat): (rows: seq<Row>)
    requires n <= |tables|
    ensures |rows| == n && forall k :: 0 <= k < n ==> rows[k] == Row(tables[k], id)
  {
    if n == 0 then [] else RowsOf(tables, id, n - 1) + [Row(tables[n - 1], id)]
  }

  function TablesTo(tables: seq<string>, n: nat): set<string>
    requires n <= |tables|
  {
    if n == 0 then {} else TablesTo(tables, n - 1) + {tables[n - 1]}
  }

  lemma {:induction false} TablesToIff(tables: seq<string>, n: nat, t: string)
    requires n <= |tables|
    ensures t in TablesTo(tables, n) <==> t in tables[..n]
  {
    if n > 0 {
      TablesToIff(tables, n - 1, t);
      assert tables[..n] == tables[..n - 1] + [tables[n - 1]];
    }
  }

  /** The rows of these tables are gone, and all others are there as often as before. */
  ghost predicate Emptied(before: seq<Row>, after: seq<Row>, tables: seq<string>) {
    forall r :: Times(after, |after|, r) == if r.table in tables then 0 else Times(before, |before|, r)
  }

  lemma RowsGone(before: seq<Row>, after: seq<Row>, tables: seq<string>)
    requires after == Without(before, TablesTo(tables, |tables|), |before|)
    ensures Emptied(before, after, tables)
  {
    assert tables[..|tables|] == tables;
    forall r ensures Times(after, |after|, r) == if r.table in tables then 0 else Times(before, |before|, r) {
      TablesToIff(tables, |tables|, r.table);
      WithoutCounts(before, TablesTo(tables, |tables|), |before|, r);
    }
  }

  lemma {:induction false} WithoutMore(rows: seq<Row>, some: set<string>, table: string, n: nat)
    requires n <= |rows|
    ensures var left := Without(rows, some, n);
      Without(left, {table}, |left|) == Without(rows, some + {table}, n)
  {
    if n > 0 {
      WithoutMore(rows, some, table, n - 1);
      var left := Without(rows, some, n - 1);
      if rows[n - 1].table in some {
        assert Without(rows, some, n) == left;
      } else {
        WithoutPrefix(left, rows[n - 1], {table}, |left|);
        assert Without(rows, some, n) == left + [rows[n - 1]];
      }
    }
  }

  lemma {:induction false} WithoutPrefix(rows: seq<Row>, row: Row, tables: set<string>, n: nat)
    requires n <= |rows|
    ensures Without(rows + [row], tables, n) == Without(rows, tables, n)
  {
    if n > 0 { WithoutPrefix(rows, row, tables, n - 1); }
  }

  lemma {:induction false} WithoutNone(rows: seq<Row>, n: nat)
    requires n <= |rows|
    ensures Without(rows, {}, n) == rows[..n]
  {
    if n > 0 { WithoutNone(rows, n - 1); }
  }

  class Importer {
    var record: Option<Record>
    var rows: seq<Row>
    var active: bool
    var nextId: nat
    ghost var pc: Pc
    ghost var passed: set<nat>
    ghost var returned: seq<Returned>

    ghost function State(): World reads this {
      World(Db(record, rows, active, nextId), pc, passed, returned)
    }

    constructor ()
      ensures State() == START
    {
      record, rows, active, nextId, pc, passed, returned := None, [], false, 0, Idle, {}, [];
    }

    ghost method Took(w: World, run: seq<Event>, e: Event) returns (more: seq<Event>)
      requires Step(Run(w, run, |run|), e) == State() && !(e.Unimport? && e.ok) && NoUnimport(run, |run|)
      ensures more == run + [e] && State() == Run(w, more, |more|) && NoUnimport(more, |more|)
    {
      more := run + [e];
      RunOn(w, run, e);
    }

    method UpdateFeedVersionImport(r: Record, ok: bool) returns (updated: bool)
      modifies this`record
      ensures updated <==> ok && CanUpdate(old(State()).db, r.id)
      ensures record == if updated then Some(r) else old(record)
    {
      updated := ok && record.Some? && record.value.id == r.id;
      if updated {
        record := Some(r);
      }
    }

    method CheckRequiredMinEntities(res: CopyResult) returns (ok: bool)
      ensures ok <==> MinEntitiesMet(res)
    {
      var required := [("agency.txt", 1), ("routes.txt", 1)];
      ok := true;
      for k := 0 to |required|
        invariant ok <==> forall j :: 0 <= j < k ==> At(res.entities, required[j].0) >= required[j].1
      {
        if At(res.entities, required[k].0) < required[k].1 {
          ok := false;
        }
      }
      assert required[0].0 == "agency.txt" && required[1].0 == "routes.txt";
    }

    /** importFeedVersion: the copy row by row, then the checks on its result. */
    method CopyAndCheck(id: nat, opts: Options, luck: Luck, ghost w: World, ghost sofar: seq<Event>)
      returns (ok: bool, ghost run: seq<Event>)
      requires pc == Copying(id, opts) && State() == Run(w, sofar, |sofar|) && NoUnimport(sofar, |sofar|)
      modifies this`rows, this`pc, this`passed
      ensures State() == Run(w, run, |run|) && NoUnimport(run, |run|)
      ensures pc == if ok then Finalizing(id, opts) else Failing(id)
      ensures ok <==> Good(opts, luck)
      ensures rows == old(rows) + RowsOf(luck.rows, id, |luck.rows|)
    {
      run := sofar;
      for k := 0 to |luck.rows|
        invariant pc == Copying(id, opts) && State() == Run(w, run, |run|) && NoUnimport(run, |run|)
        invariant rows == old(rows) + RowsOf(luck.rows, id, k)
      {
        Regroup(old(rows), RowsOf(luck.rows, id, k), [Row(luck.rows[k], id)]);
        rows := rows + [Row(luck.rows[k], id)];
        run := Took(w, run, WriteRow(luck.rows[k]));
      }
      ok := luck.copied.Some?;
      if ok && |opts.thresholds| > 0 {
        ok := CheckErrorThreshold(luck.copied.value, opts.thresholds);
      }
      if ok && !opts.allowPartial {
        ok := CheckRequiredMinEntities(luck.copied.value);
      }
      pc := if ok then Finalizing(id, opts) else Failing(id);
      passed := if ok then passed + {id} else passed;
      run := Took(w, run, CopyEnds(luck.copied));
    }

    /** The import creates a record of its own. */
    predicate Creates(before: Option<Record>, luck: Luck) {
      luck.readOk && luck.checkOk && before.None? && luck.createOk
    }

    /** An earlier record blocks the import, which is no error. */
    predicate Blocked(before: Option<Record>, luck: Luck) {
      luck.readOk && luck.checkOk && before.Some?
    }

    /** The copy ends well, and the result passes. */
    predicate Good(opts: Options, luck: Luck) {
      luck.copied.Some? && Passes(opts, luck.copied.value)
    }

    /** The record an import leaves: a failure that could not be stored, or a success that could not, stays in
        progress. */
    function Left(id: nat, good: bool, updateOk: bool): Record {
      if good then Record(id, updateOk, !updateOk) else Record(id, false, !updateOk)
    }

    /** GetFeedVersion, GetFeedVersionImport and CreateFeedVersionImport. */
    method CreateRecord(opts: Options, luck: Luck, ghost w: World) returns (r: Returned, ghost run: seq<Event>)
      requires pc == Idle && w == State()
      modifies this`record, this`nextId, this`pc, this`returned
      ensures State() == Run(w, run, |run|) && NoUnimport(run, |run|)
      ensures r.id.Some? ==> pc == Copying(r.id.value, opts) && returned == w.returned
      ensures r.id.None? ==> pc == Idle && returned == w.returned + [r]
      ensures r.id.None? ==> record == old(record) && nextId == old(nextId)
      ensures r.id.None? ==> r == Returned(None, false, true, !Blocked(old(record), luck))
      ensures r.id.Some? <==> Creates(old(record), luck)
      ensures r.id.Some? ==> r.id.value == old(nextId) && record == Some(Record(old(nextId), false, true))
      ensures r.id.Some? ==> nextId == old(nextId) + 1
    {
      r, run := Returned(None, false, true, false), [];
      pc := Reading(opts);
      run := Took(w, run, Begin(opts));
      if !luck.readOk {
        r := r.(error := true);
        pc, returned := Idle, returned + [r];
        run := Took(w, run, Fail);
        return;
      }
      pc := Checking(opts);
      run := Took(w, run, Go);
      if !luck.checkOk {
        r := r.(error := true);
        pc, returned := Idle, returned + [r];
        run := Took(w, run, Fail);
        return;
      }
      if record.Some? {
        pc, returned := Idle, returned + [r];
        run := Took(w, run, Go);
        return;
      }
      pc := Creating(opts);
      run := Took(w, run, Go);
      if !luck.createOk {
        r := r.(error := true);
        pc, returned := Idle, returned + [r];
        run := Took(w, run, Fail);
        return;
      }
      r := r.(id := Some(nextId));
      record, pc := Some(Record(nextId, false, true)), Copying(nextId, opts);
      nextId := nextId + 1;
      run := Took(w, run, Go);
    }

    /** The last writes: the outcome is recorded, and a success activated if asked for. */
    method Finalize(id: nat, ok: bool, opts: Options, luck: Luck, ghost w: World, ghost sofar: seq<Event>)
      returns (r: Returned, ghost run: seq<Event>)
      requires pc == (if ok then Finalizing(id, opts) else Failing(id)) && record == Some(Record(id, false, true))
      requires State() == Run(w, sofar, |sofar|) && NoUnimport(sofar, |sofar|)
      modifies this`record, this`active, this`pc, this`returned
      ensures State() == Run(w, run, |run|) && NoUnimport(run, |run|)
      ensures pc == Idle && returned == old(returned) + [r]
      ensures record == Some(Left(id, ok, luck.updateOk))
      ensures r.id == Some(id) && (r.success <==> ok && luck.updateOk) && (r.inProgress <==> ok && !luck.updateOk)
      ensures r.error <==> !r.success || (opts.activate && !luck.activateOk)
      ensures active == (old(active) || (r.success && opts.activate && luck.activateOk))
    {
      if !ok {
        var saved := UpdateFeedVersionImport(Record(id, false, false), luck.updateOk);
        r := Returned(Some(id), false, false, true);
        pc, returned := Idle, returned + [r];
        run := Took(w, sofar, if luck.updateOk then Go else Fail);
        return;
      }
      r := Returned(Some(id), true, false, false);
      var saved := UpdateFeedVersionImport(Record(id, true, false), luck.updateOk);
      if !saved {
        r := r.(success := false, inProgress := true, error := true);
        pc, returned := Idle, returned + [r];
        run := Took(w, sofar, Fail);
        return;
      }
      run := sofar;
      if opts.activate {
        pc := Activating(id);
        run := Took(w, run, Go);
        if !luck.activateOk {
          r := r.(error := true);
          pc, returned := Idle, returned + [r];
          run := Took(w, run, Fail);
          return;
        }
        active := true;
      }
      pc, returned := Idle, returned + [r];
      run := Took(w, run, Go);
    }

    /** ImportFeedVersion: its effect is that of a run, so what holds of all runs holds of it. An import that creates no
        record changes nothing. One that does leaves its rows and its record: a success, or a failure that an unimport
        can clear, unless the last update fails; then the record stays in progress. */
    method ImportFeedVersion(opts: Options, luck: Luck) returns (r: Returned, ghost run: seq<Event>)
      requires pc == Idle
      modifies this
      ensures State() == Run(old(State()), run, |run|) && NoUnimport(run, |run|)
      ensures pc == Idle && returned == old(returned) + [r]
      ensures !Creates(old(record), luck) ==>
        && record == old(record) && rows == old(rows) && active == old(active) && nextId == old(nextId)
        && r == Returned(None, false, true, !Blocked(old(record), luck))
      ensures Creates(old(record), luck) ==>
        && record == Some(Left(old(nextId), Good(opts, luck), luck.updateOk)) && nextId == old(nextId) + 1
        && rows == old(rows) + RowsOf(luck.rows, old(nextId), |luck.rows|)
        && r.id == Some(old(nextId)) && (r.success <==> Good(opts, luck) && luck.updateOk)
        && (r.inProgress <==> Good(opts, luck) && !luck.updateOk)
        && (r.error <==> !r.success || (opts.activate && !luck.activateOk))
      ensures active == (old(active) || (r.success && opts.activate && luck.activateOk))
    {
      ghost var w := State();
      r, run := CreateRecord(opts, luck, w);
      if r.id.None? {
        return;
      }
      var ok;
      var id := r.id.value;
      ok, run := CopyAndCheck(id, opts, luck, w, run);
      r, run := Finalize(id, ok, opts, luck, w, run);
    }

    /** FeedVersionTableDelete. */
    method DeleteRows(rows: seq<Row>, table: string) returns (left: seq<Row>)
      ensures left == Without(rows, {table}, |rows|)
    {
      left := [];
      for i := 0 to |rows|
        invariant left == Without(rows, {table}, i)
      {
        if rows[i].table != table {
          left := left + [rows[i]];
        }
      }
    }

    /** UnimportFeedVersion in its transaction: the tables are emptied one by one, then the record is removed and the
        feed version deactivated. If a statement fails, nothing is changed. */
    method UnimportFeedVersion(tables: seq<string>, failing: Option<nat>) returns (error: bool)
      modifies this`rows, this`record, this`active
      ensures error <==> failing.Some? && failing.value < |tables| + 2
      ensures State() == Step(old(State()), Unimport(TablesTo(tables, |tables|), !error))
      ensures error ==> record == old(record) && rows == old(rows) && active == old(active)
      ensures !error ==> record == None && !active
      ensures !error ==> Emptied(old(rows), rows, tables)
    {
      var left := rows;
      WithoutNone(rows, |rows|);
      for i := 0 to |tables|
        invariant State() == old(State()) && left == Without(rows, TablesTo(tables, i), |rows|)
        invariant failing.Some? ==> i <= failing.value
      {
        if failing == Some(i) {
          return true;
        }
        WithoutMore(rows, TablesTo(tables, i), tables[i], |rows|);
        left := DeleteRows(left, tables[i]);
      }
      if failing == Some(|tables|) || failing == Some(|tables| + 1) {
        return true;
      }
      RowsGone(rows, left, tables);
      rows, record, active := left, None, false;
      error := false;
    }
  }
}
