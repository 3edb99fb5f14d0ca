/** The numbering of stop patterns in copier/copier.go: a table of keys that grows while the trips stream past.

    A number is the size the table had, so it is the next free one only if every entry so far added a key. */
module StopPatterns {

  /** A trip as the table sees it: a flex trip enters its own id, any other trip its joined stops. */
  datatype Keyed = Keyed(flex: bool, key: string)

  /** The number a trip is given: that of its key, or the size of the table. A flex trip is always given the size. */
  function NumberIn(pats: map<string, nat>, t: Keyed): nat {
    if !t.flex && t.key in pats then pats[t.key] else |pats|
  }

  function TableNext(pats: map<string, nat>, t: Keyed): map<string, nat> {
    pats[t.key := NumberIn(pats, t)]
  }

  /** The table after the first n trips. */
  function Table(trips: seq<Keyed>, n: nat): map<string, nat>
    requires n <= |trips|
  {
    if n == 0 then map[] else TableNext(Table(trips, n - 1), trips[n - 1])
  }

  ghost predicate Taken(pats: map<string, nat>, v: nat) {
    exists k :: k in pats && pats[k] == v
  }

  /** The table numbers its keys 0, 1, 2, ... without gap or repeat. */
  ghost predicate Numbered(pats: map<string, nat>) {
    && (forall k :: k in pats ==> pats[k] < |pats|)
    && (forall k, l :: k in pats && l in pats && pats[k] == pats[l] ==> k == l)
    && (forall v: nat :: v < |pats| ==> Taken(pats, v))
  }

  ghost predicate KeyAmong(trips: seq<Keyed>, n: nat, k: string)
    requires n <= |trips|
  {
    exists i :: 0 <= i < n && trips[i].key == k
  }

  lemma NumberedNext(pats: map<string, nat>, k: string)
    requires Numbered(pats) && k !in pats
    ensures Numbered(pats[k := |pats|])
  {
    var next := pats[k := |pats|];
    assert next.Keys == pats.Keys + {k};
    assert |next| == |pats| + 1 by { assert |next.Keys| == |pats.Keys| + 1; }
    forall v: nat | v < |next| ensures Taken(next, v) {
      if v < |pats| {
        assert Taken(pats, v);
        var l :| l in pats && pats[l] == v;
        assert l in next && next[l] == v;
      } else {
        assert k in next && next[k] == v;
      }
    }
  }

  lemma KeyAmongNext(trips: seq<Keyed>, n: nat, k: string)
    requires n < |trips|
    ensures KeyAmong(trips, n + 1, k) <==> KeyAmong(trips, n, k) || trips[n].key == k
  {
  }

  lemma {:induction false} KeysOf(trips: seq<Keyed>, n: nat, k: string)
    requires n <= |trips|
    ensures k in Table(trips, n) <==> KeyAmong(trips, n, k)
  {
    if n > 0 {
      KeysOf(trips, n - 1, k);
      KeyAmongNext(trips, n - 1, k);
    }
  }

  /** No earlier trip has the key of trip `i`. */
  ghost predicate IsNew(trips: seq<Keyed>, i: nat)
    requires i < |trips|
  {
    !KeyAmong(trips, i, trips[i].key)
  }

  function NumberOf(trips: seq<Keyed>, i: nat): nat
    requires i < |trips|
  {
    NumberIn(Table(trips, i), trips[i])
  }

  function Trues(b: seq<bool>, n: nat): nat
    requires n <= |b|
  {
    if n == 0 then 0 else Trues(b, n - 1) + if b[n - 1] then 1 else 0
  }

  ghost function News(trips: seq<Keyed>): (news: seq<bool>)
    ensures |news| == |trips| && forall i :: 0 <= i < |trips| ==> news[i] == IsNew(trips, i)
  {
    seq(|trips|, i requires 0 <= i < |trips| => IsNew(trips, i))
  }

  /** How many keys the first n trips have. */
  ghost function Size(trips: seq<Keyed>, n: nat): nat
    requires n <= |trips|
  {
    Trues(News(trips), n)
  }

  lemma TableStep(trips: seq<Keyed>, i: nat)
    requires i < |trips|
    ensures |Table(trips, i + 1)| == |Table(trips, i)| + if IsNew(trips, i) then 1 else 0
  {
    var pats, k := Table(trips, i), trips[i].key;
    KeysOf(trips, i, k);
    assert Table(trips, i + 1).Keys == pats.Keys + {k};
    assert |Table(trips, i + 1).Keys| == |pats.Keys| + if k in pats then 0 else 1;
  }

  lemma {:induction false} TableSize(trips: seq<Keyed>, n: nat)
    requires n <= |trips|
    ensures |Table(trips, n)| == Size(trips, n)
  {
    if n > 0 {
      TableSize(trips, n - 1);
      TableStep(trips, n - 1);
    }
  }

  lemma {:induction false} TruesGrow(b: seq<bool>, i: nat, j: nat)
    requires i <= j <= |b|
    ensures Trues(b, i) <= Trues(b, j)
  {
    if i < j { TruesGrow(b, i, j - 1); }
  }

  /** The first mark from `i` on. */
  lemma {:induction false} NextMark(marks: seq<bool>, b: seq<bool>, i: nat, j: nat) returns (k: nat)
    requires i <= j < |marks| == |b| && marks[j] && forall l :: 0 <= l < |b| && b[l] ==> marks[l]
    ensures i <= k <= j && marks[k] && Trues(b, k) == Trues(b, i)
    decreases j - i
  {
    if marks[i] { return i; }
    k := NextMark(marks, b, i + 1, j);
  }

  /** A trip that is given the next free number: a flex trip, or the first with its key. */
  ghost predicate Origin(trips: seq<Keyed>, i: nat)
    requires i < |trips|
  {
    trips[i].flex || IsNew(trips, i)
  }

  lemma OriginNumber(trips: seq<Keyed>, i: nat)
    requires i < |trips| && Origin(trips, i)
    ensures NumberOf(trips, i) == Size(trips, i)
  {
    KeysOf(trips, i, trips[i].key);
    TableSize(trips, i);
  }

  lemma NumberUnder(trips: seq<Keyed>, i: nat)
    requires i < |trips|
    ensures var pats := Table(trips, i + 1);
      trips[i].key in pats && pats[trips[i].key] == NumberOf(trips, i)
  {
  }

  /** Flex trip `f` takes over the key of trip `m`. */
  predicate TakesOver(trips: seq<Keyed>, m: nat, f: nat)
    requires m < |trips| && f < |trips|
  {
    trips[f].flex && trips[f].key == trips[m].key
  }

  /** A number stays in the table under its key until a flex trip takes the key over. */
  lemma {:induction false} NumberStays(trips: seq<Keyed>, m: nat, j: nat)
    requires m < j <= |trips| && forall f :: m < f < j ==> !TakesOver(trips, m, f)
    ensures var pats := Table(trips, j);
      trips[m].key in pats && pats[trips[m].key] == NumberOf(trips, m)
  {
    if j == m + 1 {
      NumberUnder(trips, m);
    } else {
      NumberStays(trips, m, j - 1);
      assert !TakesOver(trips, m, j - 1);
    }
  }

  // ---- When numbers are shared as they should be ----

  /** A fixed-route trip has the key that an earlier flex trip has taken. */
  predicate FlexThenFixed(trips: seq<Keyed>, i: nat, j: nat)
    requires i < j < |trips|
  {
    !trips[j].flex && TakesOver(trips, j, i)
  }

  /** A flex trip has taken over a key, so that the table is no larger, and a later trip needs a number. */
  ghost predicate TakenThenNew(trips: seq<Keyed>, i: nat, j: nat)
    requires i < j < |trips|
  {
    trips[i].flex && !IsNew(trips, i) && Origin(trips, j)
  }

  ghost predicate NoClash(trips: seq<Keyed>) {
    forall i, j :: 0 <= i < j < |trips| ==> !FlexThenFixed(trips, i, j) && !TakenThenNew(trips, i, j)
  }

  predicate SameKey(s: Keyed, t: Keyed) {
    !s.flex && !t.flex && s.key == t.key
  }

  ghost predicate SharesRightly(trips: seq<Keyed>, i: nat, j: nat)
    requires i < |trips| && j < |trips|
  {
    NumberOf(trips, i) == NumberOf(trips, j) <==> SameKey(trips[i], trips[j])
  }

  lemma {:induction false} FirstWithKey(trips: seq<Keyed>, j: nat) returns (m: nat)
    requires j < |trips|
    ensures m <= j && trips[m].key == trips[j].key && IsNew(trips, m)
  {
    if IsNew(trips, j) { return j; }
    var i :| 0 <= i < j && trips[i].key == trips[j].key;
    m := FirstWithKey(trips, i);
  }

  /** The trip that first had the number of trip `i`. */
  lemma OriginOf(trips: seq<Keyed>, i: nat) returns (o: nat)
    requires i < |trips| && forall k :: 0 <= k < i ==> !FlexThenFixed(trips, k, i)
    ensures o <= i && Origin(trips, o) && NumberOf(trips, i) == Size(trips, o)
    ensures !trips[i].flex ==> SameKey(trips[o], trips[i]) && IsNew(trips, o)
    ensures trips[i].flex ==> o == i
  {
    if trips[i].flex {
      OriginNumber(trips, i);
      return i;
    }
    o := FirstWithKey(trips, i);
    OriginNumber(trips, o);
    if o < i {
      assert !FlexThenFixed(trips, o, i);
      forall f | o < f < i ensures !TakesOver(trips, o, f) { assert !FlexThenFixed(trips, f, i); }
      NumberStays(trips, o, i);
    }
  }

  lemma OriginsDiffer(trips: seq<Keyed>, o: nat, p: nat)
    requires o < p < |trips| && Origin(trips, o) && Origin(trips, p) && !TakenThenNew(trips, o, p)
    ensures Size(trips, o) < Size(trips, p)
  {
    TruesGrow(News(trips), o + 1, p);
  }

  lemma NoClashShares(trips: seq<Keyed>, i: nat, j: nat)
    requires i < j < |trips| && NoClash(trips)
    ensures SharesRightly(trips, i, j)
  {
    var o := OriginOf(trips, i);
    var p := OriginOf(trips, j);
    if o < p { OriginsDiffer(trips, o, p); }
    if p < o { OriginsDiffer(trips, p, o); }
  }

  /** The last flex trip before `j` that has taken the key of `j`. */
  lemma {:induction false} LastTaking(trips: seq<Keyed>, i: nat, j: nat, n: nat) returns (f: nat)
    requires i < n <= j < |trips| && FlexThenFixed(trips, i, j)
    ensures f < n && FlexThenFixed(trips, f, j) && forall k :: f < k < n ==> !FlexThenFixed(trips, k, j)
  {
    if FlexThenFixed(trips, n - 1, j) { return n - 1; }
    f := LastTaking(trips, i, j, n - 1);
  }

  /** The fixed-route trip is given the number of the flex trip. */
  lemma FlexThenFixedShares(trips: seq<Keyed>, i: nat, j: nat) returns (f: nat)
    requires i < j < |trips| && FlexThenFixed(trips, i, j)
    ensures f < j && !SharesRightly(trips, f, j)
  {
    f := LastTaking(trips, i, j, j);
    forall k | f < k < j ensures !TakesOver(trips, f, k) { assert !FlexThenFixed(trips, k, j); }
    NumberStays(trips, f, j);
  }

  /** The first trip from `i` on that needs a number. */
  lemma NextOrigin(trips: seq<Keyed>, i: nat, j: nat) returns (k: nat)
    requires i <= j < |trips| && Origin(trips, j)
    ensures i <= k <= j && Origin(trips, k) && Size(trips, k) == Size(trips, i)
  {
    var origins := seq(|trips|, l requires 0 <= l < |trips| => Origin(trips, l));
    k := NextMark(origins, News(trips), i, j);
  }

  /** The next trip that needs a number is given the one the flex trip has. */
  lemma TakenThenNewShares(trips: seq<Keyed>, i: nat, j: nat) returns (k: nat)
    requires i < j < |trips| && TakenThenNew(trips, i, j)
    ensures i < k <= j && !SharesRightly(trips, i, k)
  {
    k := NextOrigin(trips, i + 1, j);
    OriginNumber(trips, i);
    OriginNumber(trips, k);
  }

  /** Trips share a number exactly if they are fixed-route trips with one key: that is so of all trips exactly if no
      fixed-route trip follows a flex trip named like its key, and none that needs a number a flex trip that has taken
      over a key. */
  lemma SharedNumbersIff(trips: seq<Keyed>)
    ensures (forall i, j :: 0 <= i < j < |trips| ==> SharesRightly(trips, i, j)) <==> NoClash(trips)
  {
    if NoClash(trips) {
      forall i, j | 0 <= i < j < |trips| ensures SharesRightly(trips, i, j) { NoClashShares(trips, i, j); }
    } else {
      var i, j :| 0 <= i < j < |trips| && (FlexThenFixed(trips, i, j) || TakenThenNew(trips, i, j));
      if FlexThenFixed(trips, i, j) {
        var f := FlexThenFixedShares(trips, i, j);
      } else {
        var k := TakenThenNewShares(trips, i, j);
      }
    }
  }

  // ---- Numbers without gap, and the table ----

  lemma {:induction false} NumbersBelowSize(trips: seq<Keyed>, n: nat, u: nat) returns (k: nat)
    requires n <= |trips| && u < Size(trips, n)
    ensures k < n && NumberOf(trips, k) == u
  {
    if u < Size(trips, n - 1) {
      k := NumbersBelowSize(trips, n - 1, u);
    } else {
      k := n - 1;
      OriginNumber(trips, k);
    }
  }

  ghost predicate AtMostSize(pats: map<string, nat>) {
    forall key :: key in pats ==> pats[key] <= |pats|
  }

  lemma AtMostSizeNext(trips: seq<Keyed>, n: nat)
    requires n < |trips| && AtMostSize(Table(trips, n))
    ensures AtMostSize(Table(trips, n + 1))
  {
    TableStep(trips, n);
  }

  lemma {:induction false} TableAtMostSize(trips: seq<Keyed>, n: nat)
    requires n <= |trips|
    ensures AtMostSize(Table(trips, n))
  {
    if n > 0 {
      TableAtMostSize(trips, n - 1);
      AtMostSizeNext(trips, n - 1);
    }
  }

  /** Whatever the trips, the numbers given have no gap: with every number all lower ones are given, and earlier. */
  lemma NumbersWithoutGap(trips: seq<Keyed>, i: nat, u: nat) returns (k: nat)
    requires i < |trips| && u <= NumberOf(trips, i)
    ensures k <= i && NumberOf(trips, k) == u
  {
    TableAtMostSize(trips, i);
    TableSize(trips, i);
    if u < Size(trips, i) { k := NumbersBelowSize(trips, i, u); } else { k := i; }
  }

  /** A number below the size of the table that no key has. */
  ghost predicate Lost(pats: map<string, nat>, v: nat) {
    v < |pats| && !Taken(pats, v)
  }

  lemma LostStep(trips: seq<Keyed>, n: nat, v: nat)
    requires n < |trips| && Lost(Table(trips, n), v)
    ensures Lost(Table(trips, n + 1), v)
  {
    var pats, next := Table(trips, n), Table(trips, n + 1);
    TableStep(trips, n);
    assert forall l :: l in next ==> (l in pats && next[l] == pats[l]) || next[l] == |pats|;
  }

  lemma TakeOverLoses(trips: seq<Keyed>, n: nat) returns (v: nat)
    requires n < |trips| && Numbered(Table(trips, n))
    requires trips[n].flex && !IsNew(trips, n)
    ensures Lost(Table(trips, n + 1), v)
  {
    var pats, next, k := Table(trips, n), Table(trips, n + 1), trips[n].key;
    KeysOf(trips, n, k);
    TableStep(trips, n);
    v := pats[k];
    assert next[k] == |pats| && forall l :: l in next && l != k ==> l in pats && next[l] == pats[l];
  }

  /** No flex trip among the first n has taken over a key. */
  ghost predicate NothingTakenOver(trips: seq<Keyed>, n: nat)
    requires n <= |trips|
  {
    forall i :: 0 <= i < n && trips[i].flex ==> IsNew(trips, i)
  }

  ghost predicate NumberedOrLost(trips: seq<Keyed>, n: nat)
    requires n <= |trips|
  {
    var pats := Table(trips, n);
    if NothingTakenOver(trips, n) then Numbered(pats) else exists v: nat :: Lost(pats, v)
  }

  lemma NumberedOrLostNext(trips: seq<Keyed>, n: nat)
    requires n < |trips| && NumberedOrLost(trips, n)
    ensures NumberedOrLost(trips, n + 1)
  {
    if !NothingTakenOver(trips, n) {
      var v: nat :| Lost(Table(trips, n), v);
      LostStep(trips, n, v);
    } else if trips[n].flex && !IsNew(trips, n) {
      var v := TakeOverLoses(trips, n);
    } else {
      NumberedKept(trips, n);
    }
  }

  lemma {:induction false} TableState(trips: seq<Keyed>, n: nat)
    requires n <= |trips|
    ensures NumberedOrLost(trips, n)
  {
    if n == 0 {
      EmptyTableNumbered(trips);
    } else {
      TableState(trips, n - 1);
      NumberedOrLostNext(trips, n - 1);
    }
  }

  lemma EmptyTableNumbered(trips: seq<Keyed>)
    ensures NumberedOrLost(trips, 0)
  {
  }

  lemma NumberedKept(trips: seq<Keyed>, n: nat)
    requires n < |trips| && Numbered(Table(trips, n))
    requires trips[n].flex ==> IsNew(trips, n)
    ensures Numbered(Table(trips, n + 1))
  {
    var pats, k := Table(trips, n), trips[n].key;
    KeysOf(trips, n, k);
    if k in pats {
      assert Table(trips, n + 1) == pats;
    } else {
      NumberedNext(pats, k);
    }
  }

  /** The table numbers its keys without gap or repeat, exactly if no flex trip has taken over a key. */
  lemma PatternsNumberedIff(trips: seq<Keyed>, n: nat)
    requires n <= |trips|
    ensures Numbered(Table(trips, n)) <==> NothingTakenOver(trips, n)
  {
    TableState(trips, n);
  }
}
