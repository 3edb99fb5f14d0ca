/** The copier's entity path: copier/copier.go's check, write and batch steps over tt/entitymap.go.

    An entity is its file, its source id, its declared references and its group key, the entities it carries (a
    trip's stop_times, a calendar's dates) and, for a trip, the pattern it was given, for a generated calendar its
    period; everything else a filter or validator may look at is `data`. Extensions do not write the EntityMap. */
module EntityCopier {
  import opened Sequences
  import TripPatterns

  /** A reference field: the file it points to and its current value. */
  datatype Ref = Ref(target: string, id: string)

  /** The first and the last day of a calendar. */
  datatype Period = Period(first: nat, last: nat)

  datatype Entity = Entity(file: string, id: string, refs: seq<Ref>, groupKey: string, groupId: string,
                           children: seq<Entity>, pattern: Option<TripPatterns.Assigned>, period: Option<Period>,
                           data: int)

  // ---- The EntityMap ----

  type Ids = map<string, map<string, string>>

  function Find(ids: Ids, efn: string, eid: string): Option<string> {
    if efn in ids && eid in ids[efn] then Some(ids[efn][eid]) else None
  }

  class EntityMap {
    var ids: Ids

    constructor ()
      ensures ids == map[]
    {
      ids := map[];
    }

    method Set(efn: string, oldid: string, newid: string)
      modifies this
      ensures forall f, i :: Find(ids, f, i) == if f == efn && i == oldid then Some(newid) else old(Find(ids, f, i))
    {
      if efn in ids {
        ids := ids[efn := ids[efn][oldid := newid]];
      } else {
        ids := ids[efn := map[oldid := newid]];
      }
    }

    /** Looking up an unknown file adds an empty map for it, which no lookup can tell. */
    method Get(efn: string, eid: string) returns (found: Option<string>)
      modifies this
      ensures found == old(Find(ids, efn, eid))
      ensures forall f, i :: Find(ids, f, i) == old(Find(ids, f, i))
    {
      if efn in ids {
        return if eid in ids[efn] then Some(ids[efn][eid]) else None;
      }
      ids := ids[efn := map[]];
      found := None;
    }

    /** UpdateKey: an empty reference is left alone, an unknown one is an error. */
    method UpdateKey(r: Ref) returns (updated: Ref, ok: bool)
      modifies this
      ensures forall f, i :: Find(ids, f, i) == old(Find(ids, f, i))
      ensures ok <==> Resolves(old(ids), r)
      ensures updated == UpdatedRef(old(ids), r)
    {
      if r.id == "" {
        return r, true;
      }
      var found := Get(r.target, r.id);
      if found.None? {
        return r, false;
      }
      updated, ok := Ref(r.target, found.value), true;
    }
  }

  /** Two maps that no look-up tells apart. */
  ghost predicate SameLookups(a: Ids, b: Ids) {
    forall f, i :: Find(a, f, i) == Find(b, f, i)
  }

  /** Whatever the first map knows the second knows. */
  ghost predicate KnowsMore(a: Ids, b: Ids) {
    forall f, i :: Find(a, f, i).Some? ==> Find(b, f, i).Some?
  }

  predicate Resolves(ids: Ids, r: Ref) {
    r.id == "" || Find(ids, r.target, r.id).Some?
  }

  function ResolvedRef(ids: Ids, r: Ref): Ref
    requires Resolves(ids, r)
  {
    if r.id == "" then r else Ref(r.target, Find(ids, r.target, r.id).value)
  }

  /** What UpdateKey makes of a reference. */
  function UpdatedRef(ids: Ids, r: Ref): Ref {
    if Resolves(ids, r) then ResolvedRef(ids, r) else r
  }

  /** What UpdateKeys makes of an entity. */
  function Updated(ids: Ids, source: Entity): Entity {
    source.(refs := seq(|source.refs|, k requires 0 <= k < |source.refs| => UpdatedRef(ids, source.refs[k])))
  }

  predicate AllResolve(ids: Ids, e: Entity) {
    forall k :: 0 <= k < |e.refs| ==> Resolves(ids, e.refs[k])
  }

  /** Every declared reference of the source entity is empty or replaced by what the map holds for it. */
  ghost predicate Resolved(ids: Ids, source: Entity, ent: Entity) {
    && ent == source.(refs := ent.refs) && |ent.refs| == |source.refs|
    && forall k :: 0 <= k < |source.refs| ==>
      Resolves(ids, source.refs[k]) && ent.refs[k] == ResolvedRef(ids, source.refs[k])
  }

  // ---- Integrity of the output ----

  /** An entity the writer accepted: as read (after the filters), as written, and the id the writer gave it. */
  datatype Written = Written(source: Entity, ent: Entity, eid: string)

  function GroupFile(e: Entity): string {
    e.file + ":" + e.groupKey
  }

  /** Item `w` is what a reference to `id` in `target` stands for, by its id or by its group id. */
  ghost predicate Names(w: Written, target: string, id: string, newId: string) {
    || (target == w.ent.file && id == w.source.id && newId == w.eid)
    || (target == GroupFile(w.ent) && w.ent.groupId != "" && id == newId == w.ent.groupId)
  }

  ghost predicate NamedBefore(log: seq<Written>, n: nat, target: string, id: string, newId: string)
    requires n <= |log|
  {
    exists j :: 0 <= j < n && Names(log[j], target, id, newId)
  }

  /** Each reference of `w` was empty, or now names an entity among the first n of the log. */
  ghost predicate RefsNamed(log: seq<Written>, w: Written, n: nat)
    requires n <= |log|
  {
    |w.ent.refs| == |w.source.refs| && forall i :: 0 <= i < |w.ent.refs| ==>
      && w.ent.refs[i].target == w.source.refs[i].target
      && if w.source.refs[i].id == "" then w.ent.refs[i].id == ""
         else NamedBefore(log, n, w.ent.refs[i].target, w.source.refs[i].id, w.ent.refs[i].id)
  }

  /** Every reference of every written entity is empty or names an entity written strictly before. */
  ghost predicate Integrity(log: seq<Written>) {
    forall k :: 0 <= k < |log| ==> RefsNamed(log, log[k], k)
  }

  /** The map only knows what was written; an empty id is never looked up. */
  ghost predicate Sound(ids: Ids, log: seq<Written>) {
    forall f, i :: i != "" && Find(ids, f, i).Some? ==> NamedBefore(log, |log|, f, i, Find(ids, f, i).value)
  }

  /** What an entry of the log makes known: its id under its file, and its group id under its group key. */
  function EntryOf(w: Written, f: string, i: string): Option<string> {
    if f == w.ent.file && i == w.source.id then Some(w.eid)
    else if f == GroupFile(w.ent) && w.ent.groupId != "" && i == w.ent.groupId then Some(i)
    else None
  }

  lemma EntryNames(w: Written, f: string, i: string, newId: string)
    ensures Names(w, f, i, newId) <==> EntryOf(w, f, i) == Some(newId)
  {
    assert |GroupFile(w.ent)| > |w.ent.file|;
  }

  /** What the last of the first n entries that knows an id says of it. */
  function NewestIn(log: seq<Written>, n: nat, f: string, i: string): Option<string>
    requires n <= |log|
  {
    if n == 0 then None
    else if EntryOf(log[n - 1], f, i).Some? then EntryOf(log[n - 1], f, i)
    else NewestIn(log, n - 1, f, i)
  }

  lemma {:induction false} NewestPrefix(a: seq<Written>, b: seq<Written>, n: nat, f: string, i: string)
    requires n <= |a|
    ensures NewestIn(a + b, n, f, i) == NewestIn(a, n, f, i)
  {
    if n > 0 { NewestPrefix(a, b, n - 1, f, i); }
  }

  lemma NewestNext(log: seq<Written>, w: Written, f: string, i: string)
    ensures NewestIn(log + [w], |log| + 1, f, i) ==
      if EntryOf(w, f, i).Some? then EntryOf(w, f, i) else NewestIn(log, |log|, f, i)
  {
    NewestPrefix(log, [w], |log|, f, i);
  }

  /** If item j is the last of the first n that is named so, its new id is the newest. */
  lemma {:induction false} LastIsNewest(log: seq<Written>, n: nat, f: string, i: string, j: nat)
    requires j < n <= |log| && EntryOf(log[j], f, i).Some?
    requires forall k :: j < k < n ==> EntryOf(log[k], f, i).None?
    ensures NewestIn(log, n, f, i) == EntryOf(log[j], f, i)
  {
    if j < n - 1 { LastIsNewest(log, n - 1, f, i, j); }
  }

  lemma {:induction false} NewestIff(log: seq<Written>, n: nat, f: string, i: string)
    requires n <= |log|
    ensures NewestIn(log, n, f, i).Some? <==> exists j :: 0 <= j < n && EntryOf(log[j], f, i).Some?
  {
    if n > 0 { NewestIff(log, n - 1, f, i); }
  }

  lemma NamedStill(log: seq<Written>, more: seq<Written>, n: nat, target: string, id: string, newId: string)
    requires n <= |log| && NamedBefore(log, n, target, id, newId)
    ensures forall m :: n <= m <= |log + more| ==> NamedBefore(log + more, m, target, id, newId)
  {
    var j :| 0 <= j < n && Names(log[j], target, id, newId);
    assert Names((log + more)[j], target, id, newId);
  }

  lemma RefsStill(log: seq<Written>, more: seq<Written>, w: Written, n: nat)
    requires n <= |log| && RefsNamed(log, w, n)
    ensures forall m :: n <= m <= |log + more| ==> RefsNamed(log + more, w, m)
  {
    forall i, m | 0 <= i < |w.ent.refs| && w.source.refs[i].id != "" && n <= m <= |log + more|
      ensures NamedBefore(log + more, m, w.ent.refs[i].target, w.source.refs[i].id, w.ent.refs[i].id)
    {
      NamedStill(log, more, n, w.ent.refs[i].target, w.source.refs[i].id, w.ent.refs[i].id);
    }
  }

  /** Appending an entity whose references name entities already in the log. */
  lemma AppendKeepsIntegrity(log: seq<Written>, w: Written, n: nat)
    requires Integrity(log) && n <= |log| && RefsNamed(log, w, n)
    ensures Integrity(log + [w])
  {
    forall k | 0 <= k < |log| + 1 ensures RefsNamed(log + [w], (log + [w])[k], k) {
      if k < |log| { RefsStill(log, [w], log[k], k); } else { RefsStill(log, [w], w, n); }
    }
  }

  lemma ResolvedRefsNamed(ids: Ids, log: seq<Written>, source: Entity, ent: Entity, eid: string)
    requires Sound(ids, log) && Resolved(ids, source, ent)
    ensures RefsNamed(log, Written(source, ent, eid), |log|)
  {
  }

  lemma SoundStill(ids: Ids, next: Ids, log: seq<Written>, w: Written)
    requires Sound(ids, log)
    requires forall f, i ::
      Find(next, f, i) == Find(ids, f, i) || (Find(next, f, i).Some? && Names(w, f, i, Find(next, f, i).value))
    ensures Sound(next, log + [w])
  {
    forall f, i | i != "" && Find(next, f, i).Some?
      ensures NamedBefore(log + [w], |log| + 1, f, i, Find(next, f, i).value)
    {
      if Find(next, f, i) == Find(ids, f, i) {
        NamedStill(log, [w], |log|, f, i, Find(next, f, i).value);
      } else {
        assert Names((log + [w])[|log|], f, i, Find(next, f, i).value);
      }
    }
  }

  /** A first entity that refers to anything has nothing to refer to. */
  lemma FirstRefDangles(w: Written, log: seq<Written>)
    requires log != [] && log[0] == w && |w.source.refs| > 0 && w.source.refs[0].id != ""
    ensures !Integrity(log)
  {
    assert !NamedBefore(log, 0, w.source.refs[0].target, w.source.refs[0].id,
                        if |w.ent.refs| > 0 then w.ent.refs[0].id else "");
    assert !RefsNamed(log, log[0], 0);
  }
}
