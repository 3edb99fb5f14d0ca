/** Any number of fetches of fetch/static_fetch.go running at once over one database and one set of stores.

    A fetch takes the steps of staticProcess in order, and between any two of them the others may take theirs.
    A step that can fail may fail, and then the fetch ends with a fatal error; the writes of one fetch are one
    transaction. `unique` says whether the database refuses a second feed version of one sha1. */
module FetchProtocol {
  import opened Sequences

  /** What one fetch is asked to do: the archive it downloaded and its options. An empty store means no storage
      is configured. */
  datatype Job = Job(sha1: string, sha1Dir: Option<string>, strict: bool, store: string, reports: bool)

  /** A feed_versions row, and the job that made it. */
  datatype Version = Version(sha1: string, sha1Dir: Option<string>, maker: nat)

  datatype Db = Db(versions: map<nat, Version>, stats: set<nat>, reports: set<nat>, next: nat)

  datatype Pc = Check | Validate | Upload | Recheck | Write | Done

  /** `Rejected` is a strict validation failure; only `Fatal` is returned as an error. */
  datatype Outcome = Running | Fatal | Rejected | Found(id: nat) | Created(id: nat)

  datatype Fetcher = Fetcher(job: Job, pc: Pc, outcome: Outcome, errors: nat, uploaded: bool)

  datatype World = World(db: Db, files: set<(string, string)>, fetchers: seq<Fetcher>)

  /** Where a transaction breaks off, if it does. */
  datatype Fault = NoFault | CreateFails | StatsFail | ReportFails | CommitFails

  /** One step of fetch `who`: whether its operation succeeds, which row a query returns, how many files the
      validator finds errors in, and where the transaction breaks off. */
  datatype Event = Event(who: nat, ok: bool, pick: nat, errors: nat, fault: Fault)

  // ---- The database ----

  function FileKey(sha1: string): string {
    sha1 + ".zip"
  }

  /** The condition of GetFeedVersionBySHA1; a null sha1_dir equals nothing. */
  predicate Matches(v: Version, job: Job) {
    v.sha1 == job.sha1 || v.sha1Dir == Some(if job.sha1Dir.Some? then job.sha1Dir.value else "")
  }

  predicate AnyMatch(db: Db, job: Job) {
    exists id :: id in db.versions && Matches(db.versions[id], job)
  }

  predicate HasSha1(db: Db, sha1: string) {
    exists id :: id in db.versions && db.versions[id].sha1 == sha1
  }

  /** The transaction that writes version, stats and report: the new database, or nothing at all. */
  function Transaction(unique: bool, db: Db, i: nat, job: Job, fault: Fault): Option<Db> {
    var id := db.next;
    if fault == CreateFails || (unique && HasSha1(db, job.sha1)) then None
    else
      var created := db.(versions := db.versions[id := Version(job.sha1, job.sha1Dir, i)], next := id + 1);
      if fault == StatsFail then None
      else
        var counted := created.(stats := created.stats + {id});
        if job.reports && fault == ReportFails then None
        else if fault == CommitFails then None
        else if job.reports then Some(counted.(reports := counted.reports + {id})) else Some(counted)
  }

  // ---- The steps ----

  function End(f: Fetcher, outcome: Outcome): Fetcher {
    f.(pc := Done, outcome := outcome)
  }

  /** Both look-ups: a match ends the fetch, and a query with a match returns one. */
  function LookUp(db: Db, f: Fetcher, e: Event, next: Pc): Fetcher {
    if !e.ok then End(f, Fatal)
    else if e.pick in db.versions && Matches(db.versions[e.pick], f.job) then End(f, Found(e.pick))
    else if AnyMatch(db, f.job) then f
    else f.(pc := next)
  }

  function Step(unique: bool, w: World, e: Event): World {
    if e.who >= |w.fetchers| then w
    else
      var f := w.fetchers[e.who];
      match f.pc
      case Check => w.(fetchers := w.fetchers[e.who := LookUp(w.db, f, e, Validate)])
      case Validate =>
        var checked := f.(errors := e.errors);
        w.(fetchers := w.fetchers[e.who :=
             if !e.ok then End(f, Fatal)
             else if f.job.strict && e.errors > 0 then End(checked, Rejected)
             else checked.(pc := Upload)])
      case Upload =>
        if !e.ok then w.(fetchers := w.fetchers[e.who := End(f, Fatal)])
        else if f.job.store == "" then w.(fetchers := w.fetchers[e.who := f.(pc := Recheck)])
        else w.(files := w.files + {(f.job.store, FileKey(f.job.sha1))},
                fetchers := w.fetchers[e.who := f.(pc := Recheck, uploaded := true)])
      case Recheck => w.(fetchers := w.fetchers[e.who := LookUp(w.db, f, e, Write)])
      case Write =>
        (match Transaction(unique, w.db, e.who, f.job, e.fault)
         case None => w.(fetchers := w.fetchers[e.who := End(f, Fatal)])
         case Some(db) => w.(db := db, fetchers := w.fetchers[e.who := End(f, Created(w.db.next))]))
      case Done => w
  }

  function Run(unique: bool, w: World, events: seq<Event>, n: nat): World
    requires n <= |events|
  {
    if n == 0 then w else Step(unique, Run(unique, w, events, n - 1), events[n - 1])
  }

  function Start(jobs: seq<Job>): World {
    World(Db(map[], {}, {}, 0), {},
          seq(|jobs|, i requires 0 <= i < |jobs| => Fetcher(jobs[i], Check, Running, 0, false)))
  }

  // ---- What holds at every moment ----

  /** The file a job's version refers to is in its store, if it has one. */
  predicate Stored(files: set<(string, string)>, job: Job) {
    job.store != "" ==> (job.store, FileKey(job.sha1)) in files
  }

  /** The version is complete, was made by a fetch that says so, and its file is stored. */
  predicate Committed(w: World, id: nat)
    requires id in w.db.versions
  {
    var v := w.db.versions[id];
    && id < w.db.next && v.maker < |w.fetchers| && id in w.db.stats
    && var f := w.fetchers[v.maker];
    && f.outcome == Created(id) && v == Version(f.job.sha1, f.job.sha1Dir, v.maker)
    && Stored(w.files, f.job) && (id in w.db.reports <==> f.job.reports)
  }

  /** A fetch is where it says it is, and what it reports is true. */
  predicate Honest(w: World, f: Fetcher) {
    && (f.outcome == Running <==> f.pc != Done)
    && (f.pc == Recheck || f.pc == Write ==> Stored(w.files, f.job))
    && (f.uploaded || f.pc == Upload || f.pc == Recheck || f.pc == Write ==> f.job.strict ==> f.errors == 0)
    && (f.pc == Check || f.pc == Validate || f.pc == Upload ==> !f.uploaded)
    && match f.outcome
       case Found(id) => id in w.db.versions && Matches(w.db.versions[id], f.job)
       case Created(id) => id in w.db.versions && (f.job.strict ==> f.errors == 0)
       case Rejected => f.job.strict && f.errors > 0 && !f.uploaded
       case _ => true
  }

  predicate UploadedBy(w: World, file: (string, string), i: nat) {
    i < |w.fetchers| && w.fetchers[i].uploaded && file == (w.fetchers[i].job.store, FileKey(w.fetchers[i].job.sha1))
  }

  ghost predicate Inv(w: World) {
    && (forall id :: id in w.db.versions ==> Committed(w, id))
    && (forall i :: 0 <= i < |w.fetchers| ==> Honest(w, w.fetchers[i]))
    && (forall i :: 0 <= i < |w.fetchers| && w.fetchers[i].outcome.Created? ==> MadeBy(w, i))
    && w.db.stats <= w.db.versions.Keys && w.db.reports <= w.db.versions.Keys
    && forall file :: file in w.files ==> exists i :: UploadedBy(w, file, i)
  }

  predicate MadeBy(w: World, i: nat)
    requires i < |w.fetchers| && w.fetchers[i].outcome.Created?
  {
    w.fetchers[i].outcome.id in w.db.versions && w.db.versions[w.fetchers[i].outcome.id].maker == i
  }

  predicate OneVersionEach(db: Db) {
    forall a, b :: a in db.versions && b in db.versions && db.versions[a].sha1 == db.versions[b].sha1 ==> a == b
  }

  /** What a step may change: fetch `i` moves, and versions and files are only added. */
  predicate Grows(w: World, next: World, i: nat) {
    && |next.fetchers| == |w.fetchers| && w.files <= next.files && DbGrows(w.db, next.db)
    && (forall j :: 0 <= j < |w.fetchers| && j != i ==> next.fetchers[j] == w.fetchers[j])
  }

  predicate DbGrows(db: Db, next: Db) {
    && db.next <= next.next && db.stats <= next.stats && db.reports <= next.reports
    && forall id :: id in db.versions ==> id in next.versions && next.versions[id] == db.versions[id]
  }

  lemma TransactionGrows(unique: bool, db: Db, i: nat, job: Job, fault: Fault)
    requires db.next !in db.versions
    ensures var next := Transaction(unique, db, i, job, fault); next.Some? ==> DbGrows(db, next.value)
  {
  }

  lemma NextIsNew(w: World)
    requires Inv(w)
    ensures w.db.next !in w.db.versions
  {
    assert w.db.next in w.db.versions ==> Committed(w, w.db.next);
  }

  lemma StepGrows(unique: bool, w: World, e: Event)
    requires Inv(w)
    ensures Grows(w, Step(unique, w, e), e.who)
  {
    NextIsNew(w);
    if e.who < |w.fetchers| { TransactionGrows(unique, w.db, e.who, w.fetchers[e.who].job, e.fault); }
  }

  /** A fetch that moves on without writing to the database. */
  lemma MoveKeepsInv(w: World, i: nat, g: Fetcher, files: set<(string, string)>)
    requires Inv(w) && i < |w.fetchers| && w.fetchers[i].pc != Done && w.files <= files
    requires g.job == w.fetchers[i].job && !g.outcome.Created? && (w.fetchers[i].uploaded ==> g.uploaded)
    requires Honest(w.(files := files, fetchers := w.fetchers[i := g]), g)
    requires forall file :: file in files && file !in w.files ==>
      g.uploaded && file == (g.job.store, FileKey(g.job.sha1))
    ensures Inv(w.(files := files, fetchers := w.fetchers[i := g]))
  {
    var next := w.(files := files, fetchers := w.fetchers[i := g]);
    forall id | id in next.db.versions ensures Committed(next, id) { assert Committed(w, id); }
    forall j | 0 <= j < |next.fetchers| ensures Honest(next, next.fetchers[j]) {
      if j != i { assert Honest(w, w.fetchers[j]); }
    }
    forall j | 0 <= j < |next.fetchers| && next.fetchers[j].outcome.Created? ensures MadeBy(next, j) {
      assert MadeBy(w, j);
    }
    forall file | file in files ensures exists j :: UploadedBy(next, file, j) {
      if file in w.files {
        var j :| UploadedBy(w, file, j);
        assert UploadedBy(next, file, j);
      } else {
        assert UploadedBy(next, file, i);
      }
    }
  }

  /** A fetch that commits. */
  function Commit(unique: bool, w: World, i: nat, fault: Fault): World
    requires i < |w.fetchers| && Transaction(unique, w.db, i, w.fetchers[i].job, fault).Some?
  {
    var f := w.fetchers[i];
    w.(db := Transaction(unique, w.db, i, f.job, fault).value, fetchers := w.fetchers[i := End(f, Created(w.db.next))])
  }

  lemma CommitKeepsInv(unique: bool, w: World, i: nat, fault: Fault)
    requires Inv(w) && i < |w.fetchers| && w.fetchers[i].pc == Write
    requires Transaction(unique, w.db, i, w.fetchers[i].job, fault).Some?
    ensures Inv(Commit(unique, w, i, fault))
  {
    var next := Commit(unique, w, i, fault);
    CommitIsComplete(unique, w, i, fault);
    forall j | 0 <= j < |next.fetchers| && next.fetchers[j].outcome.Created? ensures MadeBy(next, j) {
      if j != i { assert MadeBy(w, j); }
    }
    forall file | file in next.files ensures exists j :: UploadedBy(next, file, j) {
      var j :| UploadedBy(w, file, j);
      assert UploadedBy(next, file, j);
    }
  }

  lemma CommitIsComplete(unique: bool, w: World, i: nat, fault: Fault)
    requires Inv(w) && i < |w.fetchers| && w.fetchers[i].pc == Write
    requires Transaction(unique, w.db, i, w.fetchers[i].job, fault).Some?
    ensures w.db.next !in w.db.versions
    ensures var next := Commit(unique, w, i, fault);
      && (forall id :: id in next.db.versions ==> Committed(next, id))
      && (forall j :: 0 <= j < |next.fetchers| ==> Honest(next, next.fetchers[j]))
  {
    var next := Commit(unique, w, i, fault);
    NextIsNew(w);
    assert Honest(w, w.fetchers[i]);
    forall id | id in next.db.versions ensures Committed(next, id) {
      if id != w.db.next { assert Committed(w, id); }
    }
    forall j | 0 <= j < |next.fetchers| ensures Honest(next, next.fetchers[j]) { assert Honest(w, w.fetchers[j]); }
  }

  lemma LookUpKeepsInv(w: World, e: Event, next: Pc)
    requires Inv(w) && e.who < |w.fetchers|
    requires var pc := w.fetchers[e.who].pc; (pc == Check && next == Validate) || (pc == Recheck && next == Write)
    ensures Inv(w.(fetchers := w.fetchers[e.who := LookUp(w.db, w.fetchers[e.who], e, next)]))
  {
    assert Honest(w, w.fetchers[e.who]);
    MoveKeepsInv(w, e.who, LookUp(w.db, w.fetchers[e.who], e, next), w.files);
  }

  lemma ValidateKeepsInv(unique: bool, w: World, e: Event)
    requires Inv(w) && e.who < |w.fetchers| && w.fetchers[e.who].pc == Validate
    ensures Inv(Step(unique, w, e))
  {
    assert Honest(w, w.fetchers[e.who]);
    MoveKeepsInv(w, e.who, Step(unique, w, e).fetchers[e.who], w.files);
  }

  lemma UploadKeepsInv(unique: bool, w: World, e: Event)
    requires Inv(w) && e.who < |w.fetchers| && w.fetchers[e.who].pc == Upload
    ensures Inv(Step(unique, w, e))
  {
    assert Honest(w, w.fetchers[e.who]);
    var next := Step(unique, w, e);
    MoveKeepsInv(w, e.who, next.fetchers[e.who], next.files);
  }

  lemma WriteKeepsInv(unique: bool, w: World, e: Event)
    requires Inv(w) && e.who < |w.fetchers| && w.fetchers[e.who].pc == Write
    ensures Inv(Step(unique, w, e))
  {
    var f := w.fetchers[e.who];
    if Transaction(unique, w.db, e.who, f.job, e.fault).Some? {
      CommitKeepsInv(unique, w, e.who, e.fault);
    } else {
      assert Honest(w, f);
      MoveKeepsInv(w, e.who, End(f, Fatal), w.files);
    }
  }

  lemma StepKeepsInv(unique: bool, w: World, e: Event)
    requires Inv(w)
    ensures Inv(Step(unique, w, e))
  {
    if e.who < |w.fetchers| {
      match w.fetchers[e.who].pc
      case Check => LookUpKeepsInv(w, e, Validate);
      case Validate => ValidateKeepsInv(unique, w, e);
      case Upload => UploadKeepsInv(unique, w, e);
      case Recheck => LookUpKeepsInv(w, e, Write);
      case Write => WriteKeepsInv(unique, w, e);
      case Done =>
    }
  }

  /** Event `e` commits a version whose sha1 is in the database: another fetch has committed it since this one
      looked again. */
  predicate CommitsAgain(unique: bool, w: World, e: Event) {
    && e.who < |w.fetchers| && w.fetchers[e.who].pc == Write
    && Transaction(unique, w.db, e.who, w.fetchers[e.who].job, e.fault).Some?
    && HasSha1(w.db, w.fetchers[e.who].job.sha1)
  }

  lemma StepKeepsOneVersionIff(unique: bool, w: World, e: Event)
    requires Inv(w)
    ensures OneVersionEach(Step(unique, w, e).db) <==> OneVersionEach(w.db) && !CommitsAgain(unique, w, e)
  {
    var next := Step(unique, w, e);
    StepGrows(unique, w, e);
    NextIsNew(w);
    if CommitsAgain(unique, w, e) {
      var id :| id in w.db.versions && w.db.versions[id].sha1 == w.fetchers[e.who].job.sha1;
      assert next.db.versions[w.db.next].sha1 == next.db.versions[id].sha1;
    }
  }

  // ---- Every run ----

  lemma StartInv(jobs: seq<Job>)
    ensures Inv(Start(jobs)) && OneVersionEach(Start(jobs).db)
  {
  }

  /** At every moment of every run: the committed versions are complete and their files stored, what the fetches
      report is true, and only fetches that passed their validation have uploaded. */
  lemma {:induction false} EveryRunIsSafe(unique: bool, jobs: seq<Job>, events: seq<Event>, n: nat)
    requires n <= |events|
    ensures Inv(Run(unique, Start(jobs), events, n))
  {
    if n == 0 {
      StartInv(jobs);
    } else {
      EveryRunIsSafe(unique, jobs, events, n - 1);
      StepKeepsInv(unique, Run(unique, Start(jobs), events, n - 1), events[n - 1]);
    }
  }

  /** At event k a sha1 gets another version. */
  ghost predicate AgainAt(unique: bool, w: World, events: seq<Event>, k: nat)
    requires k < |events|
  {
    CommitsAgain(unique, Run(unique, w, events, k), events[k])
  }

  /** A sha1 gets a second version exactly if some fetch commits it after another has done so. */
  lemma {:induction false} OneVersionPerSha1Iff(unique: bool, jobs: seq<Job>, events: seq<Event>, n: nat)
    requires n <= |events|
    ensures OneVersionEach(Run(unique, Start(jobs), events, n).db) <==>
      forall k :: 0 <= k < n ==> !AgainAt(unique, Start(jobs), events, k)
  {
    if n == 0 {
      StartInv(jobs);
    } else {
      OneVersionPerSha1Iff(unique, jobs, events, n - 1);
      OneMoreEvent(unique, jobs, events, n - 1);
    }
  }

  lemma OneMoreEvent(unique: bool, jobs: seq<Job>, events: seq<Event>, n: nat)
    requires n < |events|
    ensures OneVersionEach(Run(unique, Start(jobs), events, n + 1).db) <==>
      OneVersionEach(Run(unique, Start(jobs), events, n).db) && !AgainAt(unique, Start(jobs), events, n)
  {
    EveryRunIsSafe(unique, jobs, events, n);
    StepKeepsOneVersionIff(unique, Run(unique, Start(jobs), events, n), events[n]);
  }

  /** With the unique index none ever does. */
  lemma OneVersionPerSha1(jobs: seq<Job>, events: seq<Event>, n: nat)
    requires n <= |events|
    ensures OneVersionEach(Run(true, Start(jobs), events, n).db)
  {
    forall k | 0 <= k < n ensures !AgainAt(true, Start(jobs), events, k) {
    }
    OneVersionPerSha1Iff(true, jobs, events, n);
  }

  /** Without it, two fetches of one archive that both look again before either writes. */
  lemma TwoVersionsWithoutIndex(job: Job)
    ensures var e := (i: nat) => Event(i, true, 0, 0, NoFault);
      var events := [e(0), e(0), e(0), e(0), e(1), e(1), e(1), e(1), e(0), e(1)];
      !OneVersionEach(Run(false, Start([job, job]), events, 10).db)
  {
    var e := (i: nat) => Event(i, true, 0, 0, NoFault);
    var events := [e(0), e(0), e(0), e(0), e(1), e(1), e(1), e(1), e(0), e(1)];
    var ready := Fetcher(job, Write, Running, 0, job.store != "");
    var files := if job.store == "" then {} else {(job.store, FileKey(job.sha1))};
    var db := Db(map[], {}, {}, 0);
    var w := Start([job, job]);
    FourSteps(w, events, 0, 0);
    assert Run(false, w, events, 4) == World(db, files, [ready, w.fetchers[1]]);
    FourSteps(w, events, 4, 1);
    assert Run(false, w, events, 8) == World(db, files, [ready, ready]);
    TwoWrites(World(db, files, [ready, ready]));
    assert Run(false, w, events, 9) == Step(false, World(db, files, [ready, ready]), e(0));
  }

  lemma TwoWrites(w: World)
    requires |w.fetchers| == 2 && w.fetchers[0] == w.fetchers[1] && w.fetchers[0].pc == Write && w.db.next == 0
    ensures var e := (i: nat) => Event(i, true, 0, 0, NoFault);
      !OneVersionEach(Step(false, Step(false, w, e(0)), e(1)).db)
  {
    var e := (i: nat) => Event(i, true, 0, 0, NoFault);
    var last := Step(false, Step(false, w, e(0)), e(1));
    assert 0 in last.db.versions && 1 in last.db.versions;
  }

  /** Four undisturbed steps take a fetch from its start to its write, if nothing matches. */
  lemma FourSteps(w: World, events: seq<Event>, n: nat, i: nat)
    requires n + 4 <= |events| && forall k :: n <= k < n + 4 ==> events[k] == Event(i, true, 0, 0, NoFault)
    requires var v := Run(false, w, events, n);
      && i < |v.fetchers| && v.fetchers[i] == Fetcher(v.fetchers[i].job, Check, Running, 0, false)
      && v.db.versions == map[]
    ensures var v, job := Run(false, w, events, n), Run(false, w, events, n).fetchers[i].job;
      Run(false, w, events, n + 4) == World(v.db,
        if job.store == "" then v.files else v.files + {(job.store, FileKey(job.sha1))},
        v.fetchers[i := Fetcher(job, Write, Running, 0, job.store != "")])
  {
    var v, e := Run(false, w, events, n), Event(i, true, 0, 0, NoFault);
    assert Run(false, w, events, n + 2) == Step(false, Step(false, v, e), e);
    assert Run(false, w, events, n + 4) == Step(false, Step(false, Run(false, w, events, n + 2), e), e);
  }

  // ---- What a look-up finds ----

  /** Fetches of the same archive: the same bytes, or the same contents. A missing hash of the contents is looked up as
      the empty one, and stored as none. */
  predicate SameArchive(made: Job, wanted: Job) {
    || made.sha1 == wanted.sha1
    || (made.sha1Dir.Some? && wanted.sha1Dir.Some? && made.sha1Dir.value == wanted.sha1Dir.value)
    || (made.sha1Dir == Some("") && wanted.sha1Dir.None?)
  }

  predicate HasCommitted(w: World, i: nat, wanted: Job) {
    i < |w.fetchers| && w.fetchers[i].outcome.Created? && SameArchive(w.fetchers[i].job, wanted)
  }

  /** At every moment a look-up finds a version exactly if a fetch of the same archive has committed. */
  lemma LookUpFindsIff(w: World, wanted: Job)
    requires Inv(w)
    ensures AnyMatch(w.db, wanted) <==> exists i: nat :: HasCommitted(w, i, wanted)
  {
    if id :| id in w.db.versions && Matches(w.db.versions[id], wanted) {
      assert Committed(w, id) && HasCommitted(w, w.db.versions[id].maker, wanted);
    }
    if i: nat :| HasCommitted(w, i, wanted) {
      assert MadeBy(w, i) && Committed(w, w.fetchers[i].outcome.id);
      assert Matches(w.db.versions[w.fetchers[i].outcome.id], wanted);
    }
  }

  // ---- The code of one fetch ----

  lemma RunStep(unique: bool, w: World, events: seq<Event>, e: Event)
    ensures Run(unique, w, events + [e], |events| + 1) == Step(unique, Run(unique, w, events, |events|), e)
  {
    RunOn(unique, w, events, [e], 0);
  }

  lemma {:induction false} RunOn(unique: bool, w: World, a: seq<Event>, b: seq<Event>, k: nat)
    requires k <= |b|
    ensures Run(unique, w, a + b, |a| + k) == Run(unique, Run(unique, w, a, |a|), b, k)
  {
    if k == 0 { RunPrefix(unique, w, a, b, |a|); } else { RunOn(unique, w, a, b, k - 1); }
  }

  lemma {:induction false} RunPrefix(unique: bool, w: World, a: seq<Event>, b: seq<Event>, k: nat)
    requires k <= |a|
    ensures Run(unique, w, a + b, k) == Run(unique, w, a, k)
  {
    if k > 0 { RunPrefix(unique, w, a, b, k - 1); }
  }

  /** What may happen to one fetch: which of its operations fail, the validator's errors, the transaction's fault,
      and what the other fetches do before each of its five steps. */
  datatype Luck = Luck(checkOk: bool, validateOk: bool, errors: nat, uploadOk: bool, recheckOk: bool, fault: Fault,
                       others: seq<seq<Event>>)

  /** The state before and after a step of a fetch. */
  datatype Stage = Stage(before: World, after: World)

  /** The faults and conditions that roll the transaction back. */
  predicate Breaks(unique: bool, db: Db, job: Job, fault: Fault) {
    || fault == CreateFails || fault == StatsFail || fault == CommitFails || (job.reports && fault == ReportFails)
    || (unique && HasSha1(db, job.sha1))
  }

  function PcAt(k: nat): Pc {
    match k
    case 0 => Check
    case 1 => Validate
    case 2 => Upload
    case 3 => Recheck
    case 4 => Write
    case _ => Done
  }

  /** The operation of the k-th step fails. */
  predicate OpFails(unique: bool, job: Job, luck: Luck, k: nat, w: World) {
    match k
    case 0 => !luck.checkOk
    case 1 => !luck.validateOk
    case 2 => !luck.uploadOk
    case 3 => !luck.recheckOk
    case _ => Breaks(unique, w.db, job, luck.fault)
  }

  /** The k-th step does not fail, and leaves more to do. */
  predicate GoesOn(unique: bool, job: Job, luck: Luck, k: nat, w: World) {
    && !OpFails(unique, job, luck, k, w)
    && match k
       case 0 => !AnyMatch(w.db, job)
       case 1 => !job.strict || luck.errors == 0
       case 2 => true
       case 3 => !AnyMatch(w.db, job)
       case _ => false
  }

  /** What a fetch reports after the k-th step, its last. */
  predicate Reports(unique: bool, job: Job, luck: Luck, k: nat, w: World, outcome: Outcome) {
    if OpFails(unique, job, luck, k, w) then outcome == Fatal
    else
      match k
      case 0 => outcome.Found? && outcome.id in w.db.versions && Matches(w.db.versions[outcome.id], job)
      case 1 => outcome == Rejected
      case 2 => false
      case 3 => outcome.Found? && outcome.id in w.db.versions && Matches(w.db.versions[outcome.id], job)
      case _ => outcome == Created(w.db.next)
  }

  /** What the k-th step stores: the file in the third, the version with its stats and report in the fifth. */
  predicate Stores(unique: bool, i: nat, job: Job, luck: Luck, k: nat, s: Stage) {
    var ok, id := !OpFails(unique, job, luck, k, s.before), s.before.db.next;
    && s.after.files ==
       s.before.files + (if k == 2 && ok && job.store != "" then {(job.store, FileKey(job.sha1))} else {})
    && s.after.db ==
       if k != 4 || !ok then s.before.db
       else Db(s.before.db.versions[id := Version(job.sha1, job.sha1Dir, i)], s.before.db.stats + {id},
               s.before.db.reports + (if job.reports then {id} else {}), id + 1)
  }

  /** Fetch i, which began in state w, has taken these steps. */
  ghost predicate Took(unique: bool, w: World, i: nat, job: Job, luck: Luck, stages: seq<Stage>)
    requires |stages| <= 5 == |luck.others|
  {
    forall k :: 0 <= k < |stages| ==> TookAt(unique, w, i, job, luck, stages, k)
  }

  /** The k-th step comes after those of the others, and stores what it should. */
  predicate TookAt(unique: bool, w: World, i: nat, job: Job, luck: Luck, stages: seq<Stage>, k: nat)
    requires k < |stages| <= 5 == |luck.others|
  {
    && stages[k].before ==
       Run(unique, if k == 0 then w else stages[k - 1].after, luck.others[k], |luck.others[k]|)
    && Stores(unique, i, job, luck, k, stages[k])
  }

  /** It went on after each of its steps but the last, and reports what that one gave. */
  ghost predicate Decided(unique: bool, job: Job, luck: Luck, stages: seq<Stage>, outcome: Outcome) {
    && stages != []
    && (forall k :: 0 <= k < |stages| - 1 ==> GoesOn(unique, job, luck, k, stages[k].before))
    && !GoesOn(unique, job, luck, |stages| - 1, stages[|stages| - 1].before)
    && Reports(unique, job, luck, |stages| - 1, stages[|stages| - 1].before, outcome)
  }

  /** It has gone on after all of its steps. */
  ghost predicate Undecided(unique: bool, job: Job, luck: Luck, stages: seq<Stage>) {
    forall k :: 0 <= k < |stages| ==> GoesOn(unique, job, luck, k, stages[k].before)
  }

  lemma Decides(unique: bool, job: Job, luck: Luck, stages: seq<Stage>, s: Stage, outcome: Outcome)
    requires Undecided(unique, job, luck, stages)
    ensures var k := |stages|;
      if GoesOn(unique, job, luck, k, s.before) then Undecided(unique, job, luck, stages + [s])
      else Reports(unique, job, luck, k, s.before, outcome) ==> Decided(unique, job, luck, stages + [s], outcome)
  {
  }

  /** Its steps have stored neither file nor version. */
  ghost predicate StoredNothing(stages: seq<Stage>) {
    forall k :: 0 <= k < |stages| ==>
      stages[k].after.files == stages[k].before.files && stages[k].after.db == stages[k].before.db
  }

  /** The fetch has reached its validation. */
  predicate Reached(job: Job, luck: Luck, stages: seq<Stage>) {
    stages != [] && luck.checkOk && !AnyMatch(stages[0].before.db, job)
  }

  /** A fetch fails exactly if an operation that it reached has failed. It is rejected exactly if it reached its
      validation, which did not fail, is strict, and was told of errors; then it has stored nothing. It has a new
      version exactly if it has taken all five steps, of which none failed. */
  lemma OutcomeIff(unique: bool, w: World, i: nat, job: Job, luck: Luck, stages: seq<Stage>, outcome: Outcome)
    requires |stages| <= 5 == |luck.others| && Took(unique, w, i, job, luck, stages)
    requires Decided(unique, job, luck, stages, outcome)
    ensures outcome == Fatal <==>
      exists k :: 0 <= k < |stages| && OpFails(unique, job, luck, k, stages[k].before)
    ensures outcome == Rejected <==> Reached(job, luck, stages) && luck.validateOk && job.strict && luck.errors > 0
    ensures outcome == Rejected ==> StoredNothing(stages)
    ensures outcome.Created? <==> |stages| == 5 && !Breaks(unique, stages[4].before.db, job, luck.fault)
    ensures Reached(job, luck, stages) <==> |stages| > 1
  {
    var last := |stages| - 1;
    assert !OpFails(unique, job, luck, last, stages[last].before) ==> outcome != Fatal;
    assert last > 0 ==> GoesOn(unique, job, luck, 0, stages[0].before);
    assert last > 1 ==> GoesOn(unique, job, luck, 1, stages[1].before);
    forall k | 0 <= k < |stages| && k < 2
      ensures stages[k].after.files == stages[k].before.files && stages[k].after.db == stages[k].before.db
    {
      assert TookAt(unique, w, i, job, luck, stages, k);
      assert stages[k].after.files == stages[k].before.files + {};
    }
  }

  lemma TookNext(unique: bool, w: World, i: nat, job: Job, luck: Luck, stages: seq<Stage>, s: Stage)
    requires |stages| < 5 == |luck.others| && Took(unique, w, i, job, luck, stages)
    requires TookAt(unique, w, i, job, luck, stages + [s], |stages|)
    ensures Took(unique, w, i, job, luck, stages + [s])
  {
    forall k | 0 <= k <= |stages| ensures TookAt(unique, w, i, job, luck, stages + [s], k) {
      if k < |stages| { assert TookAt(unique, w, i, job, luck, stages, k); }
    }
  }

  class Server {
    const unique: bool
    var db: Db
    var files: set<(string, string)>
    var fetchers: seq<Fetcher>

    function State(): World reads this {
      World(db, files, fetchers)
    }

    constructor (unique: bool, jobs: seq<Job>)
      ensures this.unique == unique && State() == Start(jobs)
    {
      this.unique := unique;
      var w := Start(jobs);
      db, files, fetchers := w.db, w.files, w.fetchers;
    }

    /** The other fetches, while fetch `i` is between two steps. */
    method Others(i: nat, events: seq<Event>)
      requires i < |fetchers| && forall e :: e in events ==> e.who != i
      modifies this
      ensures State() == Run(unique, old(State()), events, |events|)
      ensures |fetchers| == old(|fetchers|) && fetchers[i] == old(fetchers[i])
    {
      for k := 0 to |events|
        invariant State() == Run(unique, old(State()), events, k)
        invariant |fetchers| == old(|fetchers|) && fetchers[i] == old(fetchers[i])
      {
        assert events[k] in events;
        var w := Step(unique, State(), events[k]);
        db, files, fetchers := w.db, w.files, w.fetchers;
      }
    }

    method Move(i: nat, f: Fetcher)
      requires i < |fetchers|
      modifies this`fetchers
      ensures fetchers == old(fetchers)[i := f]
    {
      fetchers := fetchers[i := f];
    }

    /** GetFeedVersionBySHA1: a matching row, if there is one. */
    method GetFeedVersionBySha1(job: Job) returns (found: Option<nat>)
      ensures found.Some? <==> AnyMatch(db, job)
      ensures found.Some? ==> found.value in db.versions && Matches(db.versions[found.value], job)
    {
      if id :| id in db.versions && Matches(db.versions[id], job) {
        return Some(id);
      }
      found := None;
    }

    /** Step k of fetch i has had the effect it should: it has gone on, or ended with its report. */
    twostate predicate Stepped(i: nat, job: Job, luck: Luck, k: nat) reads this {
      && |fetchers| == |old(fetchers)| && i < |fetchers| && fetchers[i].job == job
      && fetchers[i].pc == (if GoesOn(unique, job, luck, k, old(State())) then PcAt(k + 1) else Done)
      && (!GoesOn(unique, job, luck, k, old(State())) ==>
            Reports(unique, job, luck, k, old(State()), fetchers[i].outcome))
      && Stores(unique, i, job, luck, k, Stage(old(State()), State()))
    }

    /** A look-up, and the end of the fetch if it fails or finds a version. */
    method SkipIfFound(i: nat, ok: bool, next: Pc) returns (ghost e: Event)
      requires i < |fetchers| && (fetchers[i].pc, next) in {(Check, Validate), (Recheck, Write)}
      modifies this`fetchers
      ensures e.who == i && State() == Step(unique, old(State()), e) && |fetchers| == old(|fetchers|)
      ensures fetchers[i].job == old(fetchers[i].job) && fetchers[i].errors == old(fetchers[i].errors)
      ensures !ok ==> fetchers[i].pc == Done && fetchers[i].outcome == Fatal
      ensures ok && !AnyMatch(db, fetchers[i].job) ==> fetchers[i].pc == next
      ensures ok && AnyMatch(db, fetchers[i].job) ==>
        && fetchers[i].pc == Done && fetchers[i].outcome.Found? && fetchers[i].outcome.id in db.versions
        && Matches(db.versions[fetchers[i].outcome.id], fetchers[i].job)
    {
      var f := fetchers[i];
      if !ok {
        Move(i, End(f, Fatal));
        return Event(i, false, 0, 0, NoFault);
      }
      var found := GetFeedVersionBySha1(f.job);
      if found.Some? {
        Move(i, End(f, Found(found.value)));
        return Event(i, true, found.value, 0, NoFault);
      }
      Move(i, f.(pc := next));
      e := Event(i, true, 0, 0, NoFault);
    }

    /** Validation and stats; a strict fetch stops at errors. */
    method ValidateFeed(i: nat, ok: bool, errors: nat) returns (ghost e: Event)
      requires i < |fetchers| && fetchers[i].pc == Validate
      modifies this`fetchers
      ensures e.who == i && State() == Step(unique, old(State()), e) && |fetchers| == old(|fetchers|)
      ensures fetchers[i].job == old(fetchers[i].job)
      ensures !ok ==> fetchers[i].pc == Done && fetchers[i].outcome == Fatal
      ensures ok ==> fetchers[i].errors == errors
      ensures ok ==> if fetchers[i].job.strict && errors > 0
                     then fetchers[i].pc == Done && fetchers[i].outcome == Rejected else fetchers[i].pc == Upload
    {
      var f := fetchers[i];
      e := Event(i, ok, 0, errors, NoFault);
      if !ok {
        Move(i, End(f, Fatal));
        return;
      }
      if f.job.strict && errors > 0 {
        Move(i, End(f.(errors := errors), Rejected));
        return;
      }
      Move(i, f.(errors := errors, pc := Upload));
    }

    /** uploadFile does nothing if no storage is configured. */
    method UploadFile(i: nat, ok: bool) returns (ghost e: Event)
      requires i < |fetchers| && fetchers[i].pc == Upload
      modifies this`files, this`fetchers
      ensures e.who == i && State() == Step(unique, old(State()), e) && |fetchers| == old(|fetchers|)
      ensures fetchers[i].job == old(fetchers[i].job) && fetchers[i].errors == old(fetchers[i].errors)
      ensures !ok ==> fetchers[i].pc == Done && fetchers[i].outcome == Fatal && files == old(files)
      ensures ok ==> fetchers[i].pc == Recheck
      ensures ok ==> var job := fetchers[i].job;
        files == old(files) + if job.store != "" then {(job.store, FileKey(job.sha1))} else {}
    {
      var f := fetchers[i];
      e := Event(i, ok, 0, 0, NoFault);
      if !ok {
        Move(i, End(f, Fatal));
        return;
      }
      if f.job.store == "" {
        Move(i, f.(pc := Recheck));
        return;
      }
      files := files + {(f.job.store, FileKey(f.job.sha1))};
      Move(i, f.(pc := Recheck, uploaded := true));
    }

    /** The transaction: its writes go to a copy that replaces the database at the end. */
    method WriteVersion(i: nat, fault: Fault) returns (ghost e: Event)
      requires i < |fetchers| && fetchers[i].pc == Write
      modifies this`db, this`fetchers
      ensures e.who == i && State() == Step(unique, old(State()), e) && |fetchers| == old(|fetchers|)
      ensures fetchers[i].job == old(fetchers[i].job) && fetchers[i].errors == old(fetchers[i].errors)
      ensures fetchers[i].pc == Done
      ensures if Breaks(unique, old(db), fetchers[i].job, fault) then fetchers[i].outcome == Fatal && db == old(db)
              else fetchers[i].outcome == Created(old(db).next)
      ensures !Breaks(unique, old(db), fetchers[i].job, fault) ==> var job, id := fetchers[i].job, old(db).next;
        db == Db(old(db).versions[id := Version(job.sha1, job.sha1Dir, i)], old(db).stats + {id},
                 old(db).reports + (if job.reports then {id} else {}), id + 1)
    {
      var f := fetchers[i];
      e := Event(i, true, 0, 0, fault);
      var tx := db;
      var id := tx.next;
      if fault == CreateFails || (unique && HasSha1(tx, f.job.sha1)) {
        Move(i, End(f, Fatal));
        return;
      }
      tx := tx.(versions := tx.versions[id := Version(f.job.sha1, f.job.sha1Dir, i)], next := id + 1);
      if fault == StatsFail {
        Move(i, End(f, Fatal));
        return;
      }
      tx := tx.(stats := tx.stats + {id});
      if f.job.reports {
        if fault == ReportFails {
          Move(i, End(f, Fatal));
          return;
        }
        tx := tx.(reports := tx.reports + {id});
      }
      if fault == CommitFails {
        Move(i, End(f, Fatal));
        return;
      }
      db := tx;
      Move(i, End(f, Created(id)));
    }

    /** The k-th step of staticProcess. */
    method OwnStep(i: nat, k: nat, ghost job: Job, luck: Luck) returns (ghost e: Event)
      requires i < |fetchers| && k < 5 && fetchers[i].pc == PcAt(k) && fetchers[i].job == job
      modifies this
      ensures e.who == i && State() == Step(unique, old(State()), e) && Stepped(i, job, luck, k)
      ensures if k == 1 then luck.validateOk ==> fetchers[i].errors == luck.errors
              else fetchers[i].errors == old(fetchers[i].errors)
    {
      match k
      case 0 => e := SkipIfFound(i, luck.checkOk, Validate);
      case 1 => e := ValidateFeed(i, luck.validateOk, luck.errors);
      case 2 => e := UploadFile(i, luck.uploadOk);
      case 3 => e := SkipIfFound(i, luck.recheckOk, Write);
      case _ => e := WriteVersion(i, luck.fault);
    }

    /** Fetch i, which began in state w, is at the end of these steps: over, or before its next one. */
    ghost predicate Progress(w: World, i: nat, job: Job, luck: Luck, run: seq<Event>, stages: seq<Stage>)
      requires |luck.others| == 5
      reads this
    {
      && i < |fetchers| && fetchers[i].job == job && State() == Run(unique, w, run, |run|)
      && |stages| <= 5 && Took(unique, w, i, job, luck, stages)
      && State() == (if stages == [] then w else stages[|stages| - 1].after)
      && (fetchers[i].pc == Done ==> Decided(unique, job, luck, stages, fetchers[i].outcome))
      && (fetchers[i].pc != Done ==> Undecided(unique, job, luck, stages) && fetchers[i].pc == PcAt(|stages|))
      && (|stages| > 1 && luck.validateOk ==> fetchers[i].errors == luck.errors)
    }

    /** Unless the fetch is over: the others, then its next step. */
    method TakeStep(i: nat, k: nat, luck: Luck, ghost w: World, ghost job: Job, ghost run: seq<Event>,
                    ghost stages: seq<Stage>)
      returns (ghost longer: seq<Event>, ghost more: seq<Stage>)
      requires k < 5 == |luck.others| && forall e :: e in luck.others[k] ==> e.who != i
      requires Progress(w, i, job, luck, run, stages) && (fetchers[i].pc != Done ==> |stages| == k)
      modifies this
      ensures Progress(w, i, job, luck, longer, more) && (fetchers[i].pc != Done ==> |more| == k + 1)
    {
      if fetchers[i].pc == Done {
        return run, stages;
      }
      Others(i, luck.others[k]);
      ghost var before := State();
      ghost var e := OwnStep(i, k, job, luck);
      more := stages + [Stage(before, State())];
      longer := Then(w, run, luck.others[k], e);
      TookNext(unique, w, i, job, luck, stages, Stage(before, State()));
      Decides(unique, job, luck, stages, Stage(before, State()), fetchers[i].outcome);
    }

    /** staticProcess, disturbed by any other fetches: its effect is that of a run in which it takes its steps in
        order, so what holds of all runs holds of it. `stages` are its steps. It fails exactly if one of their
        operations fails; if it reaches its validation and is told of errors, it is rejected, and has stored nothing,
        exactly if it is strict. */
    method StaticProcess(i: nat, luck: Luck) returns (outcome: Outcome, ghost run: seq<Event>, ghost stages: seq<Stage>)
      requires i < |fetchers| && fetchers[i].pc == Check && |luck.others| == 5
      requires forall k :: 0 <= k < 5 ==> forall e :: e in luck.others[k] ==> e.who != i
      modifies this
      ensures State() == Run(unique, old(State()), run, |run|)
      ensures i < |fetchers| && fetchers[i].pc == Done && outcome == fetchers[i].outcome
      ensures |stages| <= 5 && Took(unique, old(State()), i, old(fetchers[i].job), luck, stages)
      ensures Decided(unique, old(fetchers[i].job), luck, stages, outcome) && State() == stages[|stages| - 1].after
      ensures outcome == Fatal <==>
        exists k :: 0 <= k < |stages| && OpFails(unique, old(fetchers[i].job), luck, k, stages[k].before)
      ensures Reached(old(fetchers[i].job), luck, stages) && luck.validateOk ==>
        && fetchers[i].errors == luck.errors
        && (outcome == Rejected <==> old(fetchers[i].job).strict && luck.errors > 0)
      ensures outcome == Rejected ==> StoredNothing(stages)
    {
      ghost var w, job := old(State()), fetchers[i].job;
      run, stages := TakeStep(i, 0, luck, w, job, [], []);
      run, stages := TakeStep(i, 1, luck, w, job, run, stages);
      run, stages := TakeStep(i, 2, luck, w, job, run, stages);
      run, stages := TakeStep(i, 3, luck, w, job, run, stages);
      run, stages := TakeStep(i, 4, luck, w, job, run, stages);
      outcome := fetchers[i].outcome;
      OutcomeIff(unique, w, i, job, luck, stages, outcome);
    }

    lemma Then(w: World, run: seq<Event>, others: seq<Event>, e: Event) returns (more: seq<Event>)
      ensures more == run + (others + [e])
      ensures Run(unique, w, more, |more|) ==
        Step(unique, Run(unique, Run(unique, w, run, |run|), others, |others|), e)
    {
      more := run + (others + [e]);
      RunOn(unique, w, run, others + [e], |others| + 1);
      RunStep(unique, Run(unique, w, run, |run|), others, e);
    }
  }
}
