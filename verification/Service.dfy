/** The Service object of service/service.go. Its methods are proved against the calendar functions of
    `ServiceCalendar`, where the promises of Simplify are proved. */
module ServiceObject {
  import opened Sequences
  import opened ServiceCalendar

  class Service {
    var dates: seq<CalDate>
    var start: nat
    var end: nat
    var week: Week
    var generated: bool

    function Value(): Calendar reads this {
      Calendar(dates, start, end, week, generated)
    }

    /** NewService for a calendar without exceptions. */
    constructor (start: nat, end: nat, week: Week, generated: bool)
      ensures Value() == Calendar([], start, end, week, generated)
    {
      this.dates, this.start, this.end, this.week, this.generated := [], start, end, week, generated;
    }

    method AddCalendarDate(cd: CalDate)
      modifies this
      ensures Value() == old(Value()).(dates := old(dates) + [cd])
    {
      dates := dates + [cd];
    }

    method GetWeekday(dow: int) returns (value: Option<int>)
      ensures value == if 0 <= dow < 7 then Some(week[dow]) else None
    {
      if dow < 0 || dow > 6 {
        return None;
      }
      value := Some(week[dow]);
    }

    /** False is the error return. */
    method SetWeekday(dow: int, value: int) returns (ok: bool)
      modifies this
      ensures ok <==> 0 <= value <= 1 && 0 <= dow <= 6
      ensures Value() == if ok then old(Value()).(week := old(week)[dow := value]) else old(Value())
    {
      if value < 0 || value > 1 {
        return false;
      }
      if dow < 0 || dow > 6 {
        return false;
      }
      week := week[dow := value];
      ok := true;
    }

    method ServicePeriod() returns (first: nat, last: nat)
      ensures first == First(Value()) && last == Last(Value())
    {
      first, last := start, end;
      for i := 0 to |dates|
        invariant first == PeriodStart(start, dates, i) && last == PeriodEnd(end, dates, i)
      {
        if first == 0 || dates[i].date < first {
          first := dates[i].date;
        }
        if last == 0 || dates[i].date > last {
          last := dates[i].date;
        }
      }
    }

    method Exception(t: nat) returns (found: Option<int>)
      ensures found == ExceptionIn(dates, t, |dates|)
    {
      for i := 0 to |dates|
        invariant ExceptionIn(dates, t, i) == None
      {
        if dates[i].date == t {
          FirstDecides(dates, t, i, |dates|);
          return Some(dates[i].exceptionType);
        }
      }
      found := None;
    }

    method IsActive(t: nat) returns (active: bool)
      ensures active == Active(Value(), t)
    {
      var found := Exception(t);
      if found.Some? {
        return found.value == 1;
      }
      if t < start {
        return false;
      }
      if t > end {
        return false;
      }
      var v := GetWeekday(Weekday(t));
      active := v.Some? && v.value == 1;
    }

    /** `AnswerIsRightIff` says when the answer is whether the service is active at all. */
    method HasAtLeastOneDay() returns (found: bool)
      ensures found <==> Answers(Value())
      ensures Flags(week) ==> (found <==> HasDayInPeriod(Value()) || HasAddedDay(Value()))
    {
      ghost var c := Value();
      if Flags(week) { FlagsAnswer(c); }
      var days := week[0] + week[1] + week[2] + week[3] + week[4] + week[5] + week[6];
      if end >= start + 7 && days > 0 && |dates| == 0 {
        return true;
      }
      var add := 0;
      for i := 0 to |dates|
        invariant add > 0 <==> exists k :: 0 <= k < i && dates[k].exceptionType == 1
      {
        if dates[i].exceptionType == 1 {
          add := add + 1;
        }
      }
      if add > 0 {
        assert HasAddedDay(c);
        return true;
      }
      assert !HasAddedDay(c);
      if days == 0 && add == 0 {
        return false;
      }
      var day, last := ServicePeriod();
      while day <= last
        invariant First(c) <= day && forall t :: First(c) <= t < day ==> !Active(c, t)
      {
        var active := IsActive(day);
        if active {
          return true;
        }
        day := day + 1;
      }
      found := false;
    }

    method Simplify() returns (ret: Service)
      ensures fresh(ret) && ret.Value() == Simplified(Value())
    {
      var s, e := start, end;
      if generated || start == 0 || end == 0 {
        s, e := ServicePeriod();
      }
      var totalCount, activeCount := CountDays(s, e);
      ret := new Service(s, e, NO_DAYS, generated);
      ret.SetMajority(Value(), totalCount, activeCount);
      ret.AddExceptions(this);
    }

    /** A missing key of the count maps reads as 0; the two counters of exceptions are never read. */
    method CountDays(s: nat, e: nat) returns (totalCount: map<int, nat>, activeCount: map<int, nat>)
      ensures CountsUpTo(Value(), s, e, e + 1, totalCount, activeCount)
    {
      totalCount, activeCount := map[], map[];
      var day := s;
      while day <= e
        invariant if s <= e then s <= day <= e + 1 else day == s
        invariant CountsUpTo(Value(), s, e, day, totalCount, activeCount)
      {
        var dow := Weekday(day);
        totalCount := totalCount[dow := Count(totalCount, dow) + 1];
        var active := IsActive(day);
        if active {
          activeCount := activeCount[dow := Count(activeCount, dow) + 1];
        }
        day := day + 1;
      }
      if s > e { CountNoDays(Value(), s, e); }
    }

    /** Sets the weekdays on which the active days are the majority; the map's order does not matter. */
    method SetMajority(ghost c: Calendar, totalCount: map<int, nat>, activeCount: map<int, nat>)
      requires Value() == Calendar([], NewStart(c), NewEnd(c), NO_DAYS, c.generated)
      requires CountsUpTo(c, NewStart(c), NewEnd(c), NewEnd(c) + 1, totalCount, activeCount)
      modifies this
      ensures Bare(c, Value())
    {
      ghost var votes := NewWeek(c);
      Votes(c, totalCount, activeCount);
      var keys := totalCount.Keys;
      while keys != {}
        invariant keys <= totalCount.Keys
        invariant Value().(week := NO_DAYS) == old(Value())
        invariant forall k :: 0 <= k < 7 ==> week[k] == if k in keys then 0 else votes[k]
      {
        var dow := Pick(keys);
        var total, active := totalCount[dow], Count(activeCount, dow);
        if total != 0 && (total == active || active >= (total as int) - active) {
          var _ := SetWeekday(dow, 1);
        }
        keys := keys - {dow};
      }
      assert week == votes;
    }

    method AddExceptions(from: Service)
      requires from != this && Bare(from.Value(), Value())
      modifies this
      ensures Value() == Simplified(from.Value())
    {
      ghost var c, base := from.Value(), Value();
      var day, last := from.ServicePeriod();
      ghost var first := day;
      AllRepaired(c, base);
      while day <= last
        invariant if first <= last then first <= day <= last + 1 else day == first
        invariant Value() == Repaired(c, base, first, day)
      {
        AddException(from, base, first, day);
        day := day + 1;
      }
    }

    /** One round: the exception for one day, if the new calendar is wrong on it. */
    method AddException(from: Service, ghost base: Calendar, ghost first: nat, day: nat)
      requires from != this && first <= day && Value() == Repaired(from.Value(), base, first, day)
      modifies this
      ensures Value() == Repaired(from.Value(), base, first, day + 1)
    {
      NotYetRepaired(from.Value(), base, first, day);
      var a := from.IsActive(day);
      var b := IsActive(day);
      if a && !b {
        AddCalendarDate(CalDate(day, 1));
      } else if !a && b {
        AddCalendarDate(CalDate(day, 2));
      }
    }
  }

  /** Some element: the order in which Go ranges over a map. */
  method Pick<T(==)>(s: set<T>) returns (x: T)
    requires s != {}
    ensures x in s
  {
    x :| x in s;
  }

  function Count(m: map<int, nat>, dow: int): nat {
    if dow in m then m[dow] else 0
  }

  ghost predicate CountsUpTo(c: Calendar, s: nat, e: nat, n: nat, totalCount: map<int, nat>,
                             activeCount: map<int, nat>)
  {
    && (forall dow :: dow in totalCount ==> 0 <= dow < 7)
    && (forall dow: nat :: dow < 7 ==> Count(totalCount, dow) == TotalOn(s, e, dow, s, n))
    && (forall dow: nat :: dow < 7 ==> Count(activeCount, dow) == ActiveOn(c, s, e, dow, s, n))
  }

  lemma CountNoDays(c: Calendar, s: nat, e: nat)
    requires s > e
    ensures forall dow: nat :: TotalOn(s, e, dow, s, e + 1) == TotalOn(s, e, dow, s, s)
    ensures forall dow: nat :: ActiveOn(c, s, e, dow, s, e + 1) == ActiveOn(c, s, e, dow, s, s)
  {
  }

  lemma Votes(c: Calendar, totalCount: map<int, nat>, activeCount: map<int, nat>)
    requires CountsUpTo(c, NewStart(c), NewEnd(c), NewEnd(c) + 1, totalCount, activeCount)
    ensures forall dow: nat :: dow < 7 ==> NewWeek(c)[dow] == Vote(Count(totalCount, dow), Count(activeCount, dow))
  {
    forall dow: nat | dow < 7 ensures NewWeek(c)[dow] == NewWeekday(c, dow) {
    }
  }

  /** The new calendar before its exceptions. */
  ghost predicate Bare(c: Calendar, base: Calendar) {
    base == Calendar([], NewStart(c), NewEnd(c), NewWeek(c), c.generated)
  }

  /** The new calendar with the exceptions for the days of [a, n). */
  ghost function Repaired(c: Calendar, base: Calendar, a: nat, n: nat): Calendar {
    base.(dates := Repairs(c, base.week, base.start, base.end, a, n))
  }

  /** Before its own turn a day has no exception, so the base calendar decides it. */
  lemma NotYetRepaired(c: Calendar, base: Calendar, a: nat, day: nat)
    ensures Active(Repaired(c, base, a, day), day) == BaseActive(base.week, base.start, base.end, day)
  {
    RepairsAt(c, base.week, base.start, base.end, a, day, day);
  }

  lemma AllRepaired(c: Calendar, base: Calendar)
    requires Bare(c, base)
    ensures Repaired(c, base, First(c), First(c)) == base
    ensures Repaired(c, base, First(c), Last(c) + 1) == Simplified(c)
    ensures First(c) > Last(c) ==> base == Simplified(c)
  {
  }

  lemma {:induction false} FirstDecides(dates: seq<CalDate>, t: nat, i: nat, n: nat)
    requires i < n <= |dates| && ExceptionIn(dates, t, i) == None && dates[i].date == t
    ensures ExceptionIn(dates, t, n) == Some(dates[i].exceptionType)
  {
    if n > i + 1 { FirstDecides(dates, t, i, n - 1); }
  }

  // ---- HasAtLeastOneDay ----

  /** Weekday flags are 0 or 1, as GTFS has them. */
  predicate Flags(week: Week) {
    forall i :: 0 <= i < 7 ==> 0 <= week[i] <= 1
  }

  ghost predicate HasActiveDay(c: Calendar) {
    exists t: nat :: Active(c, t)
  }

  predicate HasDayInPeriod(c: Calendar) {
    exists t :: First(c) <= t <= Last(c) && Active(c, t)
  }

  ghost predicate HasAddedDay(c: Calendar) {
    exists k :: 0 <= k < |c.dates| && c.dates[k].exceptionType == 1
  }

  /** An added day that no earlier entry of the same day shadows. */
  ghost predicate AddsDay(c: Calendar, k: nat)
    requires k < |c.dates|
  {
    c.dates[k].exceptionType == 1 && forall i :: 0 <= i < k ==> c.dates[i].date != c.dates[k].date
  }

  /** A base day for which there is no exception. */
  ghost predicate PlainDay(c: Calendar, t: nat) {
    BaseActive(c.week, c.start, c.end, t) && forall i :: 0 <= i < |c.dates| ==> c.dates[i].date != t
  }

  /** A service is active on some day exactly if an added day is not shadowed or a base day has no exception. */
  lemma ActiveDayIff(c: Calendar)
    ensures HasActiveDay(c) <==> (exists k :: 0 <= k < |c.dates| && AddsDay(c, k)) || exists t: nat :: PlainDay(c, t)
  {
    if k :| 0 <= k < |c.dates| && AddsDay(c, k) {
      ExceptionDated(c.dates, c.dates[k].date, k);
      FirstDecides(c.dates, c.dates[k].date, k, |c.dates|);
      assert Active(c, c.dates[k].date);
    }
    if t: nat :| PlainDay(c, t) {
      ExceptionDated(c.dates, t, |c.dates|);
      assert Active(c, t);
    }
    if t: nat :| Active(c, t) {
      ExceptionDated(c.dates, t, |c.dates|);
      if ExceptionIn(c.dates, t, |c.dates|).Some? {
        var k := FirstFor(c.dates, t, |c.dates|);
        assert AddsDay(c, k);
      } else {
        assert PlainDay(c, t);
      }
    }
  }

  lemma {:induction false} FirstFor(dates: seq<CalDate>, t: nat, n: nat) returns (k: nat)
    requires n <= |dates| && ExceptionIn(dates, t, n).Some?
    ensures k < n && dates[k].date == t && ExceptionIn(dates, t, n) == Some(dates[k].exceptionType)
    ensures forall i :: 0 <= i < k ==> dates[i].date != t
  {
    if ExceptionIn(dates, t, n - 1).Some? {
      k := FirstFor(dates, t, n - 1);
    } else {
      k := n - 1;
      ExceptionDated(dates, t, n - 1);
    }
  }

  /** Every added day is shadowed by an earlier exception of its day, and every base day has one. */
  ghost predicate OnlyShadowed(c: Calendar) {
    && HasAddedDay(c) && (forall k :: 0 <= k < |c.dates| ==> !AddsDay(c, k))
    && forall t: nat :: !PlainDay(c, t)
  }

  /** No exception adds a day, and base days without an exception precede the period only. */
  ghost predicate OnlyEarly(c: Calendar) {
    && !HasAddedDay(c) && (exists t: nat :: PlainDay(c, t))
    && forall t: nat :: PlainDay(c, t) ==> t < First(c)
  }

  function FlagSum(week: Week): int {
    week[0] + week[1] + week[2] + week[3] + week[4] + week[5] + week[6]
  }

  /** A week or more without exceptions, and flags that add up to more than 0. */
  predicate LooksFull(c: Calendar) {
    c.dates == [] && c.end >= c.start + 7 && FlagSum(c.week) > 0
  }

  /** What HasAtLeastOneDay answers. */
  ghost predicate Answers(c: Calendar) {
    HasAddedDay(c) || LooksFull(c) || (FlagSum(c.week) != 0 && HasDayInPeriod(c))
  }

  /** Flags other than 0 and 1 that add up to 0 over active days, or to more over none. */
  ghost predicate Misleads(c: Calendar) {
    && !HasAddedDay(c)
    && if FlagSum(c.week) == 0 then exists t: nat :: PlainDay(c, t)
       else LooksFull(c) && forall i :: 0 <= i < 7 ==> c.week[i] != 1
  }

  /** HasAtLeastOneDay tells whether the service is active on some day, exactly if not all there is to add is shadowed,
      not all there is otherwise comes before the period, and the flags do not mislead. */
  lemma AnswerIsRightIff(c: Calendar)
    ensures (Answers(c) <==> HasActiveDay(c)) <==> !OnlyShadowed(c) && !OnlyEarly(c) && !Misleads(c)
  {
    ActiveDayIff(c);
    if !HasAddedDay(c) {
      forall t: nat ensures Active(c, t) <==> PlainDay(c, t) { NothingAdded(c, t); }
      if LooksFull(c) { FullAnswerIff(c); } else { PeriodAnswerIff(c); }
    }
  }

  lemma FullAnswerIff(c: Calendar)
    requires LooksFull(c)
    ensures HasActiveDay(c) <==> exists i :: 0 <= i < 7 && c.week[i] == 1
    ensures !OnlyEarly(c)
  {
    if i :| 0 <= i < 7 && c.week[i] == 1 { FullWeekHasDay(c); }
  }

  lemma PeriodAnswerIff(c: Calendar)
    requires !HasAddedDay(c)
    ensures HasDayInPeriod(c) <==> exists t: nat :: PlainDay(c, t) && t >= First(c)
  {
    forall t: nat ensures Active(c, t) <==> PlainDay(c, t) { NothingAdded(c, t); }
    if t: nat :| PlainDay(c, t) && t >= First(c) {
      PeriodEndCovers(c.end, c.dates, |c.dates|);
      assert First(c) <= t <= Last(c) && Active(c, t);
    }
  }

  /** With flags of 0 and 1 the quick checks answer what going through the period would. */
  lemma FlagsAnswer(c: Calendar)
    requires Flags(c.week)
    ensures Answers(c) <==> HasDayInPeriod(c) || HasAddedDay(c)
    ensures !Misleads(c)
  {
    FlaggedWeekday(c.week);
    if LooksFull(c) { FullWeekHasDay(c); }
    if FlagSum(c.week) == 0 && !HasAddedDay(c) { NoFlagNoDay(c); }
  }

  /** A week whose one flag is 2 looks full, and is never active. */
  lemma MisleadingAnswer()
    ensures Misleads(Calendar([], 10, 20, NO_DAYS[1 := 2], false))
  {
  }

  lemma NothingAdded(c: Calendar, t: nat)
    requires !HasAddedDay(c)
    ensures Active(c, t) <==> PlainDay(c, t)
  {
    ExceptionDated(c.dates, t, |c.dates|);
    ExceptionAmong(c.dates, t, |c.dates|);
  }

  /** A service whose one added day an earlier exception removes: the answer is true for no active day. */
  lemma ShadowedAnswer()
    ensures OnlyShadowed(Calendar([CalDate(17, 2), CalDate(17, 1)], 10, 20, NO_DAYS, false))
  {
    var c := Calendar([CalDate(17, 2), CalDate(17, 1)], 10, 20, NO_DAYS, false);
    assert c.dates[1].exceptionType == 1 && c.dates[0].date == c.dates[1].date;
  }

  /** Mondays without a start date, and a Thursday removed: the answer is false for three active days. */
  lemma EarlyAnswer()
    ensures OnlyEarly(Calendar([CalDate(17, 2)], 0, 20, NO_DAYS[1 := 1], false))
  {
    var c := Calendar([CalDate(17, 2)], 0, 20, NO_DAYS[1 := 1], false);
    assert PlainDay(c, 7);
    assert PeriodStart(0, c.dates, 1) == 17;
    forall t: nat | PlainDay(c, t) ensures t < 17 { assert t == 18 || t == 19 || t == 20 || t <= 17; }
  }

  lemma FlaggedWeekday(week: Week)
    requires Flags(week)
    ensures FlagSum(week) >= 0 && (FlagSum(week) > 0 <==> exists i :: 0 <= i < 7 && week[i] == 1)
  {
    forall i | 0 <= i < 7 ensures week[i] <= FlagSum(week) {
      assert i in {0, 1, 2, 3, 4, 5, 6};
    }
  }

  lemma FullWeekHasDay(c: Calendar)
    requires c.dates == [] && c.end >= c.start + 7 && exists i :: 0 <= i < 7 && c.week[i] == 1
    ensures HasDayInPeriod(c)
  {
    var i :| 0 <= i < 7 && c.week[i] == 1;
    var t := NextWeekday(c.start, i);
    assert Active(c, t);
  }

  lemma NextWeekday(s: nat, i: nat) returns (t: nat)
    requires i < 7
    ensures s <= t < s + 7 && Weekday(t) == i
  {
    t := if i >= Weekday(s) then s + (i - Weekday(s)) else s + 7 - (Weekday(s) - i);
  }

  lemma NoFlagNoDay(c: Calendar)
    requires !HasAddedDay(c) && forall i :: 0 <= i < 7 ==> c.week[i] != 1
    ensures !HasDayInPeriod(c)
  {
    forall t: nat ensures !Active(c, t) { ExceptionAmong(c.dates, t, |c.dates|); }
  }

  lemma {:induction false} ExceptionAmong(dates: seq<CalDate>, t: nat, n: nat)
    requires n <= |dates|
    ensures var x := ExceptionIn(dates, t, n);
      x.Some? ==> exists k :: 0 <= k < n && dates[k].exceptionType == x.value
  {
    if n > 0 { ExceptionAmong(dates, t, n - 1); }
  }
}
