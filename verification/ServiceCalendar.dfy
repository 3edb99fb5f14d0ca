/** Service calendars of service/service.go: a base week between two dates, and dated exceptions.

    A day is its number counted from 0001-01-01, which is day 0: the zero time, the code's own mark for an
    unset date, and a Monday. Weekdays are numbered as in Go, Sunday being 0. */
module ServiceCalendar {
  import opened Sequences

  datatype CalDate = CalDate(date: nat, exceptionType: int)

  type Week = w: seq<int> | |w| == 7 witness [0, 0, 0, 0, 0, 0, 0]

  const NO_DAYS: Week := [0, 0, 0, 0, 0, 0, 0]

  /** The value of a Service; `start` and `end` are 0 when unset. */
  datatype Calendar = Calendar(dates: seq<CalDate>, start: nat, end: nat, week: Week, generated: bool)

  function Weekday(t: nat): (dow: nat)
    ensures dow < 7
  {
    (t + 1) % 7
  }

  /** The first of the first n entries for the day decides. */
  function ExceptionIn(dates: seq<CalDate>, t: nat, n: nat): Option<int>
    requires n <= |dates|
  {
    if n == 0 then None else
    var before := ExceptionIn(dates, t, n - 1);
    if before.None? && dates[n - 1].date == t then Some(dates[n - 1].exceptionType) else before
  }

  predicate BaseActive(week: Week, start: nat, end: nat, t: nat) {
    start <= t <= end && week[Weekday(t)] == 1
  }

  predicate Active(c: Calendar, t: nat) {
    match ExceptionIn(c.dates, t, |c.dates|)
    case Some(v) => v == 1
    case None => BaseActive(c.week, c.start, c.end, t)
  }

  // ---- The service period ----

  function PeriodStart(start: nat, dates: seq<CalDate>, n: nat): nat
    requires n <= |dates|
  {
    if n == 0 then start else
    var s := PeriodStart(start, dates, n - 1);
    if s == 0 || dates[n - 1].date < s then dates[n - 1].date else s
  }

  function PeriodEnd(end: nat, dates: seq<CalDate>, n: nat): nat
    requires n <= |dates|
  {
    if n == 0 then end else
    var e := PeriodEnd(end, dates, n - 1);
    if e == 0 || dates[n - 1].date > e then dates[n - 1].date else e
  }

  function First(c: Calendar): nat { PeriodStart(c.start, c.dates, |c.dates|) }

  function Last(c: Calendar): nat { PeriodEnd(c.end, c.dates, |c.dates|) }

  /** Every exception has a date. A zero date reads as "unset" in the period scan; see `ZeroDateBreaks`. */
  predicate Dated(dates: seq<CalDate>) {
    forall i :: 0 <= i < |dates| ==> dates[i].date > 0
  }

  lemma {:induction false} PeriodEndCovers(end: nat, dates: seq<CalDate>, n: nat)
    requires n <= |dates|
    ensures end <= PeriodEnd(end, dates, n) && forall i :: 0 <= i < n ==> dates[i].date <= PeriodEnd(end, dates, n)
  {
    if n > 0 { PeriodEndCovers(end, dates, n - 1); }
  }

  /** The period covers every exception, exactly if all have a date or the last has none: a zero date makes the scan
      begin again at the next entry. */
  lemma PeriodCoversIff(c: Calendar)
    requires c.dates != []
    ensures (forall i :: 0 <= i < |c.dates| ==> First(c) <= c.dates[i].date <= Last(c)) <==>
      Dated(c.dates) || c.dates[|c.dates| - 1].date == 0
  {
    PeriodEndCovers(c.end, c.dates, |c.dates|);
    if Dated(c.dates) { DatedPeriodCovers(c.start, c.dates, |c.dates|); }
    assert First(c) == 0 <==> c.dates[|c.dates| - 1].date == 0;
  }

  lemma {:induction false} DatedPeriodCovers(start: nat, dates: seq<CalDate>, n: nat)
    requires n <= |dates| && Dated(dates)
    ensures forall i :: 0 <= i < n ==> PeriodStart(start, dates, n) <= dates[i].date
    ensures start > 0 ==> 0 < PeriodStart(start, dates, n) <= start
    ensures n > 0 ==> PeriodStart(start, dates, n) > 0
  {
    if n > 0 { DatedPeriodCovers(start, dates, n - 1); }
  }

  lemma {:induction false} ExceptionDated(dates: seq<CalDate>, t: nat, n: nat)
    requires n <= |dates|
    ensures ExceptionIn(dates, t, n).Some? <==> exists i :: 0 <= i < n && dates[i].date == t
  {
    if n > 0 { ExceptionDated(dates, t, n - 1); }
  }

  lemma {:induction false} ExceptionExtend(dates: seq<CalDate>, d: CalDate, t: nat, n: nat)
    requires n <= |dates|
    ensures ExceptionIn(dates + [d], t, n) == ExceptionIn(dates, t, n)
  {
    if n > 0 { ExceptionExtend(dates, d, t, n - 1); }
  }

  // ---- Simplify ----

  /** The dates Simplify gives the new calendar. */
  function NewStart(c: Calendar): nat {
    if c.generated || c.start == 0 || c.end == 0 then First(c) else c.start
  }

  function NewEnd(c: Calendar): nat {
    if c.generated || c.start == 0 || c.end == 0 then Last(c) else c.end
  }

  /** Days of one weekday in [a, n) that lie within [s, e]. */
  function TotalOn(s: nat, e: nat, dow: nat, a: nat, n: nat): nat {
    if n <= a then 0 else
    TotalOn(s, e, dow, a, n - 1) + if s <= n - 1 <= e && Weekday(n - 1) == dow then 1 else 0
  }

  function ActiveOn(c: Calendar, s: nat, e: nat, dow: nat, a: nat, n: nat): nat {
    if n <= a then 0 else
    ActiveOn(c, s, e, dow, a, n - 1) + if s <= n - 1 <= e && Weekday(n - 1) == dow && Active(c, n - 1) then 1 else 0
  }

  /** The majority vote, ties and only for weekdays that occur at all. */
  function Vote(total: nat, active: nat): int {
    if total > 0 && active >= total - active then 1 else 0
  }

  function NewWeekday(c: Calendar, dow: nat): int {
    var s, e := NewStart(c), NewEnd(c);
    Vote(TotalOn(s, e, dow, s, e + 1), ActiveOn(c, s, e, dow, s, e + 1))
  }

  function NewWeek(c: Calendar): Week {
    [NewWeekday(c, 0), NewWeekday(c, 1), NewWeekday(c, 2), NewWeekday(c, 3), NewWeekday(c, 4), NewWeekday(c, 5),
     NewWeekday(c, 6)]
  }

  /** One exception for each day of [a, n) on which the base calendar is wrong. */
  function Repairs(c: Calendar, week: Week, s: nat, e: nat, a: nat, n: nat): seq<CalDate> {
    if n <= a then [] else
    var before := Repairs(c, week, s, e, a, n - 1);
    if Active(c, n - 1) == BaseActive(week, s, e, n - 1) then before
    else before + [CalDate(n - 1, if Active(c, n - 1) then 1 else 2)]
  }

  function Simplified(c: Calendar): Calendar {
    var s, e, week := NewStart(c), NewEnd(c), NewWeek(c);
    Calendar(Repairs(c, week, s, e, First(c), Last(c) + 1), s, e, week, c.generated)
  }

  // ---- What the new calendar is ----

  /** Where the scan of the period starts again: after the last entry with a zero date. */
  function AfterZero(dates: seq<CalDate>, n: nat): (k: nat)
    requires n <= |dates|
    ensures k <= n
  {
    if n == 0 then 0 else if dates[n - 1].date == 0 then n else AfterZero(dates, n - 1)
  }

  /** A day the period may start on: one of these entries', or the calendar's own start if no entry has a zero date. */
  ghost predicate MayStart(c: Calendar, n: nat, d: nat)
    requires n <= |c.dates|
  {
    || (exists i :: AfterZero(c.dates, n) <= i < n && c.dates[i].date == d)
    || (AfterZero(c.dates, n) == 0 && d == c.start != 0)
  }

  /** The least of those days, or 0 if there is none. */
  ghost predicate IsStart(c: Calendar, n: nat, s: nat)
    requires n <= |c.dates|
  {
    (s == 0 || MayStart(c, n, s)) && (forall d :: MayStart(c, n, d) ==> 0 < s <= d)
  }

  /** The greatest of the entries' days and the calendar's own end. */
  ghost predicate IsEnd(c: Calendar, n: nat, e: nat)
    requires n <= |c.dates|
  {
    && (e == c.end || exists i :: 0 <= i < n && c.dates[i].date == e)
    && c.end <= e && forall i :: 0 <= i < n ==> c.dates[i].date <= e
  }

  lemma MayStartNext(c: Calendar, n: nat, d: nat)
    requires n < |c.dates|
    ensures MayStart(c, n + 1, d) <==>
      if c.dates[n].date == 0 then false else MayStart(c, n, d) || c.dates[n].date == d
  {
  }

  lemma {:induction false} StartIsLeast(c: Calendar, n: nat)
    requires n <= |c.dates|
    ensures IsStart(c, n, PeriodStart(c.start, c.dates, n))
  {
    if n > 0 {
      StartIsLeast(c, n - 1);
      forall d ensures MayStart(c, n, d) <==>
        if c.dates[n - 1].date == 0 then false else MayStart(c, n - 1, d) || c.dates[n - 1].date == d
      {
        MayStartNext(c, n - 1, d);
      }
    }
  }

  lemma {:induction false} EndIsGreatest(c: Calendar, n: nat)
    requires n <= |c.dates|
    ensures IsEnd(c, n, PeriodEnd(c.end, c.dates, n))
  {
    if n > 0 { EndIsGreatest(c, n - 1); }
  }

  /** The dates of the new calendar: the set dates of a service that is not generated, else those of its period. */
  ghost predicate NewDates(c: Calendar, s: nat, e: nat) {
    if !c.generated && c.start != 0 && c.end != 0 then s == c.start && e == c.end
    else IsStart(c, |c.dates|, s) && IsEnd(c, |c.dates|, e)
  }

  /** Simplify keeps the set dates of a service that is not generated, and takes those of the period otherwise. */
  lemma SimplifyDates(c: Calendar)
    ensures NewDates(c, Simplified(c).start, Simplified(c).end) && Simplified(c).generated == c.generated
  {
    StartIsLeast(c, |c.dates|);
    EndIsGreatest(c, |c.dates|);
  }

  /** There is no choice of those dates. */
  lemma NewDatesAreOne(c: Calendar, s: nat, e: nat)
    requires NewDates(c, s, e)
    ensures s == NewStart(c) && e == NewEnd(c)
  {
    StartIsLeast(c, |c.dates|);
    EndIsGreatest(c, |c.dates|);
  }

  /** The days from s on, before n, that are of one weekday. */
  ghost function DaysOf(dow: nat, s: nat, n: nat): set<nat> {
    set t | s <= t < n && Weekday(t) == dow
  }

  ghost function ActiveDaysOf(c: Calendar, dow: nat, s: nat, n: nat): set<nat> {
    set t | s <= t < n && Weekday(t) == dow && Active(c, t)
  }

  /** Between the dates the weekday occurs, and is active at least as often as not. */
  ghost predicate Majority(c: Calendar, dow: nat, s: nat, e: nat) {
    |DaysOf(dow, s, e + 1)| > 0 && 2 * |ActiveDaysOf(c, dow, s, e + 1)| >= |DaysOf(dow, s, e + 1)|
  }

  lemma DaysNext(c: Calendar, dow: nat, s: nat, n: nat)
    requires s <= n
    ensures DaysOf(dow, s, n + 1) == DaysOf(dow, s, n) + if Weekday(n) == dow then {n} else {}
    ensures ActiveDaysOf(c, dow, s, n + 1) ==
      ActiveDaysOf(c, dow, s, n) + if Weekday(n) == dow && Active(c, n) then {n} else {}
  {
  }

  lemma {:induction false} CountsAreSizes(c: Calendar, s: nat, e: nat, dow: nat, n: nat)
    requires n <= e + 1
    ensures TotalOn(s, e, dow, s, n) == |DaysOf(dow, s, n)|
    ensures ActiveOn(c, s, e, dow, s, n) == |ActiveDaysOf(c, dow, s, n)|
  {
    if n > s {
      CountsAreSizes(c, s, e, dow, n - 1);
      DaysNext(c, dow, s, n - 1);
    } else {
      assert DaysOf(dow, s, n) == {} && ActiveDaysOf(c, dow, s, n) == {};
    }
  }

  lemma WeekdayIsNew(c: Calendar, dow: nat)
    requires dow < 7
    ensures Simplified(c).week[dow] == NewWeekday(c, dow)
  {
    assert dow in {0, 1, 2, 3, 4, 5, 6};
  }

  /** Each weekday of the new calendar is set exactly if it is active in the majority, whatever the dates. */
  lemma SimplifyVotes(c: Calendar, dow: nat, s: nat, e: nat)
    requires dow < 7 && NewDates(c, s, e)
    ensures Simplified(c).week[dow] == if Majority(c, dow, s, e) then 1 else 0
  {
    NewDatesAreOne(c, s, e);
    CountsAreSizes(c, s, e, dow, e + 1);
    WeekdayIsNew(c, dow);
  }

  lemma {:induction false} RepairAt(c: Calendar, week: Week, s: nat, e: nat, a: nat, n: nat, i: nat)
    requires i < |Repairs(c, week, s, e, a, n)|
    ensures var d := Repairs(c, week, s, e, a, n)[i];
      && a <= d.date < n && d.exceptionType == (if Active(c, d.date) then 1 else 2)
      && Active(c, d.date) != BaseActive(week, s, e, d.date)
      && (i > 0 ==> Repairs(c, week, s, e, a, n)[i - 1].date < d.date)
  {
    var before := Repairs(c, week, s, e, a, n - 1);
    if i < |before| {
      RepairAt(c, week, s, e, a, n - 1, i);
    } else if i > 0 {
      RepairAt(c, week, s, e, a, n - 1, i - 1);
    }
  }

  /** The exceptions of the new calendar are in order, within the service period, and each is needed: on its day the
      base calendar says the contrary. */
  lemma SimplifyExceptions(c: Calendar, i: nat)
    requires i < |Simplified(c).dates|
    ensures var r := Simplified(c); var d := r.dates[i];
      && First(c) <= d.date <= Last(c) && d.exceptionType == (if Active(c, d.date) then 1 else 2)
      && Active(c, d.date) != BaseActive(r.week, r.start, r.end, d.date)
      && (i > 0 ==> r.dates[i - 1].date < d.date)
  {
    RepairAt(c, NewWeek(c), NewStart(c), NewEnd(c), First(c), Last(c) + 1, i);
  }

  // ---- Simplify keeps the active days ----

  lemma {:induction false} RepairsAt(c: Calendar, week: Week, s: nat, e: nat, a: nat, n: nat, t: nat)
    ensures var r := Repairs(c, week, s, e, a, n);
      ExceptionIn(r, t, |r|) ==
      if a <= t < n && Active(c, t) != BaseActive(week, s, e, t) then Some(if Active(c, t) then 1 else 2) else None
  {
    if n > a {
      RepairsAt(c, week, s, e, a, n - 1, t);
      var before := Repairs(c, week, s, e, a, n - 1);
      ExceptionExtend(before, CalDate(n - 1, if Active(c, n - 1) then 1 else 2), t, |before|);
    }
  }

  /** Inside the service period Simplify is exact, whatever the calendar. */
  lemma ExactInPeriod(c: Calendar, t: nat)
    requires First(c) <= t <= Last(c)
    ensures Active(Simplified(c), t) == Active(c, t)
  {
    RepairsAt(c, NewWeek(c), NewStart(c), NewEnd(c), First(c), Last(c) + 1, t);
  }

  lemma BaseOutsidePeriod(c: Calendar, t: nat)
    requires !(First(c) <= t <= Last(c))
    ensures Active(Simplified(c), t) == BaseActive(NewWeek(c), NewStart(c), NewEnd(c), t)
  {
    RepairsAt(c, NewWeek(c), NewStart(c), NewEnd(c), First(c), Last(c) + 1, t);
  }

  lemma NewEndInPeriod(c: Calendar)
    ensures NewEnd(c) <= Last(c)
  {
    PeriodEndCovers(c.end, c.dates, |c.dates|);
  }

  lemma IdleAfterPeriod(c: Calendar, t: nat)
    requires t > Last(c)
    ensures !Active(c, t) && !BaseActive(NewWeek(c), NewStart(c), NewEnd(c), t)
  {
    PeriodEndCovers(c.end, c.dates, |c.dates|);
    ExceptionDated(c.dates, t, |c.dates|);
  }

  /** A day before the service period becomes active by the majority of its weekday, and only within set dates. */
  ghost predicate VotedEarly(c: Calendar, t: nat) {
    !c.generated && c.end != 0 && 0 < c.start <= t <= c.end && Majority(c, Weekday(t), c.start, c.end)
  }

  /** The days before the service period are those that the vote makes active. */
  ghost predicate KeepsEarlyDays(c: Calendar) {
    forall t :: 0 <= t < First(c) ==> Active(c, t) == VotedEarly(c, t)
  }

  lemma VotedEarlyIff(c: Calendar, t: nat)
    requires t < First(c)
    ensures VotedEarly(c, t) <==> BaseActive(NewWeek(c), NewStart(c), NewEnd(c), t)
  {
    SimplifyDates(c);
    SimplifyVotes(c, Weekday(t), NewStart(c), NewEnd(c));
  }

  /** Simplify means the same days exactly if it does on the days before the service period, whatever the calendar
      and its exceptions. */
  lemma SimplifyKeepsDaysIff(c: Calendar)
    ensures (forall t: nat :: Active(Simplified(c), t) == Active(c, t)) <==> KeepsEarlyDays(c)
  {
    forall t: nat
      ensures Active(Simplified(c), t) == Active(c, t) <==> (t < First(c) ==> Active(c, t) == VotedEarly(c, t))
    {
      if First(c) <= t <= Last(c) {
        ExactInPeriod(c, t);
      } else {
        BaseOutsidePeriod(c, t);
        if t > Last(c) { IdleAfterPeriod(c, t); } else { VotedEarlyIff(c, t); }
      }
    }
  }

  /** A service with exceptions and no start date loses the base days before its first exception. */
  predicate NoEarlyDays(c: Calendar) {
    c.start == 0 && c.dates != [] ==> forall t :: 0 <= t < First(c) && t <= c.end ==> c.week[Weekday(t)] != 1
  }

  lemma EarlyActiveIff(c: Calendar, t: nat)
    requires Dated(c.dates) && t < First(c)
    ensures Active(c, t) <==> c.start == 0 && c.dates != [] && t <= c.end && c.week[Weekday(t)] == 1
  {
    DatedPeriodCovers(c.start, c.dates, |c.dates|);
    ExceptionDated(c.dates, t, |c.dates|);
  }

  /** If all exceptions are dated, that is so exactly if no base day precedes the first exception of a service
      without a start date. */
  lemma DatedKeepsEarlyDaysIff(c: Calendar)
    requires Dated(c.dates)
    ensures KeepsEarlyDays(c) <==> NoEarlyDays(c)
  {
    DatedPeriodCovers(c.start, c.dates, |c.dates|);
    forall t: nat | t < First(c)
      ensures Active(c, t) == VotedEarly(c, t) <==>
        !(c.start == 0 && c.dates != [] && t <= c.end && c.week[Weekday(t)] == 1)
    {
      EarlyActiveIff(c, t);
    }
  }

  /** Mondays without a start date, and a Thursday removed: the Mondays before it are lost. */
  lemma EarlyDaysAreLost()
    ensures var c := Calendar([CalDate(17, 2)], 0, 20, NO_DAYS[1 := 1], false);
      Dated(c.dates) && Active(c, 7) && !Active(Simplified(c), 7)
  {
    var c := Calendar([CalDate(17, 2)], 0, 20, NO_DAYS[1 := 1], false);
    assert PeriodStart(0, c.dates, 1) == 17;
    EarlyActiveIff(c, 7);
    BaseOutsidePeriod(c, 7);
  }

  /** A zero date does no harm at the end of the exceptions, where it leaves the period's start unset. */
  lemma ZeroLastKeepsDays(c: Calendar)
    requires c.dates != [] && c.dates[|c.dates| - 1].date == 0
    ensures forall t: nat :: Active(Simplified(c), t) == Active(c, t)
  {
    assert First(c) == 0;
    SimplifyKeepsDaysIff(c);
  }

  /** With a zero date elsewhere, a service without set dates keeps its days exactly if none precedes the period. */
  lemma UndatedKeepsDaysIff(c: Calendar)
    requires c.generated || c.start == 0 || c.end == 0
    ensures (forall t: nat :: Active(Simplified(c), t) == Active(c, t)) <==>
      forall t: nat :: t < First(c) ==> !Active(c, t)
  {
    SimplifyKeepsDaysIff(c);
    assert forall t: nat :: !VotedEarly(c, t);
  }

  /** With a zero date before another exception the days may change even for set dates: here day 10 becomes
      active. */
  lemma ZeroDateBreaks()
    ensures var c := Calendar([CalDate(17, 1), CalDate(0, 2), CalDate(17, 1)], 10, 17, NO_DAYS, false);
      First(c) == 17 && !Active(c, 10) && Active(Simplified(c), 10)
  {
    var dates := [CalDate(17, 1), CalDate(0, 2), CalDate(17, 1)];
    var c := Calendar(dates, 10, 17, NO_DAYS, false);
    assert PeriodStart(10, dates, 1) == 10 && PeriodStart(10, dates, 2) == 0 && PeriodStart(10, dates, 3) == 17;
    assert ExceptionIn(dates, 10, 1) == ExceptionIn(dates, 10, 2) == None;
    assert ExceptionIn(dates, 17, 1) == ExceptionIn(dates, 17, 2) == Some(1);
    TwoThursdays();
    assert ActiveOn(c, 10, 17, 4, 10, 18) >= 1;
    assert NewWeekday(c, 4) == 1;
    BaseOutsidePeriod(c, 10);
  }

  lemma TwoThursdays()
    ensures TotalOn(10, 17, 4, 10, 18) == 2
  {
    assert TotalOn(10, 17, 4, 10, 11) == 1 && TotalOn(10, 17, 4, 10, 12) == 1;
    assert TotalOn(10, 17, 4, 10, 13) == 1 && TotalOn(10, 17, 4, 10, 14) == 1;
    assert TotalOn(10, 17, 4, 10, 15) == 1 && TotalOn(10, 17, 4, 10, 16) == 1;
    assert TotalOn(10, 17, 4, 10, 17) == 1;
  }

  // ---- Simplify is optimal ----

  /** Days of [a, n) on which a base calendar is wrong. */
  function Wrong(c: Calendar, week: Week, s: nat, e: nat, a: nat, n: nat): nat {
    if n <= a then 0 else
    Wrong(c, week, s, e, a, n - 1) + if Active(c, n - 1) == BaseActive(week, s, e, n - 1) then 0 else 1
  }

  lemma {:induction false} RepairsCount(c: Calendar, week: Week, s: nat, e: nat, a: nat, n: nat)
    ensures |Repairs(c, week, s, e, a, n)| == Wrong(c, week, s, e, a, n)
  {
    if n > a { RepairsCount(c, week, s, e, a, n - 1); }
  }

  /** How many entries are dated within [a, n). */
  function DatedIn(dates: seq<CalDate>, a: nat, n: nat, k: nat): nat
    requires k <= |dates|
  {
    if k == 0 then 0 else DatedIn(dates, a, n, k - 1) + if a <= dates[k - 1].date < n then 1 else 0
  }

  lemma {:induction false} DatedInNext(dates: seq<CalDate>, a: nat, n: nat, k: nat)
    requires k <= |dates| && a <= n
    ensures DatedIn(dates, a, n + 1, k) >= DatedIn(dates, a, n, k)
    ensures ExceptionIn(dates, n, k).Some? ==> DatedIn(dates, a, n + 1, k) > DatedIn(dates, a, n, k)
  {
    if k > 0 { DatedInNext(dates, a, n, k - 1); }
  }

  lemma {:induction false} DatedInBound(dates: seq<CalDate>, a: nat, n: nat, k: nat)
    requires k <= |dates|
    ensures DatedIn(dates, a, n, k) <= k
  {
    if k > 0 { DatedInBound(dates, a, n, k - 1); }
  }

  /** Any calendar for the same days needs an exception for each day its own week gets wrong. */
  lemma {:induction false} WrongNeedsExceptions(c: Calendar, other: Calendar, a: nat, n: nat)
    requires forall t: nat :: Active(other, t) == Active(c, t)
    ensures Wrong(c, other.week, other.start, other.end, a, n) <= DatedIn(other.dates, a, n, |other.dates|)
  {
    if n > a {
      WrongNeedsExceptions(c, other, a, n - 1);
      DatedInNext(other.dates, a, n - 1, |other.dates|);
      assert Active(other, n - 1) == Active(c, n - 1);
    }
  }

  /** Wrong days outside [s, e], which no week can change. */
  function WrongOutside(c: Calendar, s: nat, e: nat, a: nat, n: nat): nat {
    if n <= a then 0 else
    WrongOutside(c, s, e, a, n - 1) + if !(s <= n - 1 <= e) && Active(c, n - 1) then 1 else 0
  }

  /** Wrong days inside, weekday by weekday: all idle ones if the weekday is on, all active ones if off. */
  function WrongInside(c: Calendar, week: Week, s: nat, e: nat, a: nat, n: nat, k: nat): int
    requires k <= 7
  {
    if k == 0 then 0 else
    WrongInside(c, week, s, e, a, n, k - 1) +
    var active := ActiveOn(c, s, e, k - 1, a, n);
    if week[k - 1] == 1 then TotalOn(s, e, k - 1, a, n) - active else active
  }

  lemma {:induction false} WrongInsideNext(c: Calendar, week: Week, s: nat, e: nat, a: nat, n: nat, k: nat)
    requires k <= 7 && a <= n
    ensures WrongInside(c, week, s, e, a, n + 1, k) == WrongInside(c, week, s, e, a, n, k) +
      if s <= n <= e && Weekday(n) < k && Active(c, n) != (week[Weekday(n)] == 1) then 1 else 0
  {
    if k > 0 { WrongInsideNext(c, week, s, e, a, n, k - 1); }
  }

  lemma {:induction false} WrongByWeekday(c: Calendar, week: Week, s: nat, e: nat, a: nat, n: nat)
    ensures Wrong(c, week, s, e, a, n) == WrongOutside(c, s, e, a, n) + WrongInside(c, week, s, e, a, n, 7)
  {
    if n > a {
      WrongByWeekday(c, week, s, e, a, n - 1);
      WrongInsideNext(c, week, s, e, a, n - 1, 7);
    } else {
      NothingInside(c, week, s, e, a, n, 7);
    }
  }

  lemma {:induction false} NothingInside(c: Calendar, week: Week, s: nat, e: nat, a: nat, n: nat, k: nat)
    requires k <= 7 && n <= a
    ensures WrongInside(c, week, s, e, a, n, k) == 0
  {
    if k > 0 { NothingInside(c, week, s, e, a, n, k - 1); }
  }

  /** Days outside [s, e] count for no weekday, so the vote may be taken over any wider range. */
  lemma {:induction false} WiderRange(c: Calendar, s: nat, e: nat, dow: nat, a: nat, n: nat)
    requires a <= s <= e + 1 <= n
    ensures TotalOn(s, e, dow, a, n) == TotalOn(s, e, dow, s, e + 1)
    ensures ActiveOn(c, s, e, dow, a, n) == ActiveOn(c, s, e, dow, s, e + 1)
    decreases n
  {
    if n > e + 1 { WiderRange(c, s, e, dow, a, n - 1); } else { NarrowLeft(c, s, e, dow, a, n); }
  }

  lemma {:induction false} NarrowLeft(c: Calendar, s: nat, e: nat, dow: nat, a: nat, n: nat)
    requires a <= s
    ensures TotalOn(s, e, dow, a, n) == TotalOn(s, e, dow, s, n)
    ensures ActiveOn(c, s, e, dow, a, n) == ActiveOn(c, s, e, dow, s, n)
    decreases n
  {
    if n > a { NarrowLeft(c, s, e, dow, a, n - 1); }
  }

  lemma {:induction false} ActiveAtMostTotal(c: Calendar, s: nat, e: nat, dow: nat, a: nat, n: nat)
    ensures ActiveOn(c, s, e, dow, a, n) <= TotalOn(s, e, dow, a, n)
  {
    if n > a { ActiveAtMostTotal(c, s, e, dow, a, n - 1); }
  }

  lemma {:induction false} VoteIsBest(c: Calendar, week: Week, k: nat)
    requires k <= 7
    ensures var s, e, n := NewStart(c), NewEnd(c), Last(c) + 1;
      WrongInside(c, NewWeek(c), s, e, 0, n, k) <= WrongInside(c, week, s, e, 0, n, k)
  {
    if k > 0 {
      VoteIsBest(c, week, k - 1);
      VotedWeekday(c, k - 1);
      ActiveAtMostTotal(c, NewStart(c), NewEnd(c), k - 1, 0, Last(c) + 1);
    }
  }

  lemma {:induction false} NoneInEmpty(c: Calendar, s: nat, e: nat, dow: nat, a: nat, n: nat)
    requires s > e
    ensures TotalOn(s, e, dow, a, n) == 0 == ActiveOn(c, s, e, dow, a, n)
  {
    if n > a { NoneInEmpty(c, s, e, dow, a, n - 1); }
  }

  /** The vote over the new calendar's own dates is the vote over all days up to the end of the period. */
  lemma VotedWeekday(c: Calendar, dow: nat)
    requires dow < 7
    ensures var s, e, n := NewStart(c), NewEnd(c), Last(c) + 1;
      NewWeek(c)[dow] == Vote(TotalOn(s, e, dow, 0, n), ActiveOn(c, s, e, dow, 0, n))
  {
    var s, e, n := NewStart(c), NewEnd(c), Last(c) + 1;
    assert NewWeek(c)[dow] == NewWeekday(c, dow);
    if s <= e {
      NewEndInPeriod(c);
      WiderRange(c, s, e, dow, 0, n);
    } else {
      NoneInEmpty(c, s, e, dow, 0, n);
      NoneInEmpty(c, s, e, dow, s, e + 1);
    }
  }

  lemma {:induction false} WrongWidens(c: Calendar, week: Week, s: nat, e: nat, a: nat, n: nat)
    ensures Wrong(c, week, s, e, a, n) <= Wrong(c, week, s, e, 0, n)
    decreases n
  {
    if n > a { WrongWidens(c, week, s, e, a, n - 1); }
  }

  /** Among all calendars with the new dates that mean the same days, whatever their week and however their
      exceptions are listed, none has fewer exceptions than Simplify's. */
  lemma SimplifyIsOptimal(c: Calendar, other: Calendar)
    requires NewDates(c, other.start, other.end)
    requires forall t: nat :: Active(other, t) == Active(c, t)
    ensures |Simplified(c).dates| <= |other.dates|
  {
    NewDatesAreOne(c, other.start, other.end);
    var s, e, n := NewStart(c), NewEnd(c), Last(c) + 1;
    RepairsCount(c, NewWeek(c), s, e, First(c), n);
    WrongWidens(c, NewWeek(c), s, e, First(c), n);
    WrongByWeekday(c, NewWeek(c), s, e, 0, n);
    WrongByWeekday(c, other.week, s, e, 0, n);
    VoteIsBest(c, other.week, 7);
    WrongNeedsExceptions(c, other, 0, n);
    DatedInBound(other.dates, 0, n, |other.dates|);
  }
}
