/**
 * The due-date scheduler: the next installment date of a plan is found by
 * stepping from the plan's start date one period at a time until the date is
 * strictly after the current instant. Payment dates never move the schedule.
 */
module Scheduler {
  import opened Wrappers
  import opened Calendar

  const Weekly: string := "WEEKLY"
  const BiWeekly: string := "BI_WEEKLY"

  /** The installment period, in seconds, of the two frequencies the schedule knows. */
  function PeriodOf(installmentFrequency: string): (period: Option<int>)
    ensures period.Some? <==> installmentFrequency == Weekly || installmentFrequency == BiWeekly
    ensures period.Some? ==> period.value > 0 && period.value % (7 * SecondsPerDay) == 0
  {
    if installmentFrequency == Weekly then Some(7 * SecondsPerDay)
    else if installmentFrequency == BiWeekly then Some(14 * SecondsPerDay)
    else None
  }

  /** The k-th date of the schedule that begins at `start`. */
  function Slot(start: Time, period: int, k: int): Time {
    start + k * period
  }

  /**
   * `due` is the first date of the schedule after its start (k >= 1) that is
   * strictly after `now`.
   */
  ghost predicate IsNextDue(start: Time, period: int, now: Time, due: Time) {
    exists k :: 1 <= k && due == Slot(start, period, k) && due > now &&
      forall j :: 1 <= j < k ==> Slot(start, period, j) <= now
  }

  /**
   * The stepping loop as a recursive definition: advance the cursor one period
   * and stop at the first value strictly after `now`.
   */
  function DueFrom(cursor: Time, period: int, now: Time): Time
    requires period > 0
    decreases now - cursor
  {
    if cursor + period > now then cursor + period
    else DueFrom(cursor + period, period, now)
  }

  /**
   * What `calculateNextPaymentDueDate` returns when the clock reads `now`:
   * the zero time for a start date that does not parse or a frequency that is
   * neither WEEKLY nor BI_WEEKLY, and the next scheduled date otherwise.
   */
  function NextPaymentDueDate(startDate: string, installmentFrequency: string, now: Time): Time {
    match ParseDate(startDate)
    case None => ZeroTime
    case Some(start) =>
      match PeriodOf(installmentFrequency)
      case None => ZeroTime
      case Some(period) => DueFrom(start, period, now)
  }

  lemma MulMonotone(a: int, b: int, period: int)
    requires a <= b && period >= 0
    ensures a * period <= b * period
  {
  }

  /** The stepping loop finds the least k >= 1 whose scheduled date is after `now`. */
  lemma {:induction false} DueFromIsNextDue(cursor: Time, period: int, now: Time)
    requires period > 0
    ensures IsNextDue(cursor, period, now, DueFrom(cursor, period, now))
    decreases now - cursor
  {
    var due := DueFrom(cursor, period, now);
    if cursor + period > now {
      assert due == Slot(cursor, period, 1);
    } else {
      var next := cursor + period;
      DueFromIsNextDue(next, period, now);
      var k :| 1 <= k && due == Slot(next, period, k) && due > now &&
        forall j :: 1 <= j < k ==> Slot(next, period, j) <= now;
      assert due == Slot(cursor, period, k + 1);
      forall j | 1 <= j < k + 1
        ensures Slot(cursor, period, j) <= now
      {
        if j > 1 {
          assert Slot(cursor, period, j) == Slot(next, period, j - 1);
        }
      }
    }
  }

  /** At most one date is the next due date. */
  lemma NextDueUnique(start: Time, period: int, now: Time, due1: Time, due2: Time)
    requires IsNextDue(start, period, now, due1) && IsNextDue(start, period, now, due2)
    ensures due1 == due2
  {
    var k1 :| 1 <= k1 && due1 == Slot(start, period, k1) && due1 > now &&
      forall j :: 1 <= j < k1 ==> Slot(start, period, j) <= now;
    var k2 :| 1 <= k2 && due2 == Slot(start, period, k2) && due2 > now &&
      forall j :: 1 <= j < k2 ==> Slot(start, period, j) <= now;
  }

  /**
   * The closed form agrees with the stepping loop: k = floor((now - start) / period) + 1
   * once `now` has reached `start`, and k = 1 before that.
   */
  lemma NextDueClosedForm(start: Time, period: int, now: Time)
    requires period > 0
    ensures DueFrom(start, period, now)
         == Slot(start, period, if now < start then 1 else (now - start) / period + 1)
  {
    var k := if now < start then 1 else (now - start) / period + 1;
    if now >= start {
      var q := (now - start) / period;
      assert q * period <= now - start < q * period + period;
      assert Slot(start, period, k) > now;
      forall j | 1 <= j < k
        ensures Slot(start, period, j) <= now
      {
        MulMonotone(j, q, period);
      }
    }
    assert IsNextDue(start, period, now, Slot(start, period, k));
    DueFromIsNextDue(start, period, now);
    NextDueUnique(start, period, now, DueFrom(start, period, now), Slot(start, period, k));
  }

  /** When `now` is exactly a scheduled date, that date is past: the next one is due. */
  lemma BoundaryIsExclusive(start: Time, period: int, m: nat)
    requires period > 0
    ensures DueFrom(start, period, Slot(start, period, m)) == Slot(start, period, m + 1)
  {
    var now := Slot(start, period, m);
    forall j | 1 <= j < m + 1
      ensures Slot(start, period, j) <= now
    {
      MulMonotone(j, m, period);
    }
    assert IsNextDue(start, period, now, Slot(start, period, m + 1));
    DueFromIsNextDue(start, period, now);
    NextDueUnique(start, period, now, DueFrom(start, period, now), Slot(start, period, m + 1));
  }

  /** A schedule that starts in the future first falls due one period after its start. */
  lemma FutureStartDueAfterOnePeriod(start: Time, period: int, now: Time)
    requires period > 0 && start > now
    ensures DueFrom(start, period, now) == start + period
  {
  }

  /** calculateNextPaymentDueDate, with the wall clock read once into `now`. */
  method CalculateNextPaymentDueDate(startDate: string, installmentFrequency: string, now: Time)
    returns (nextPaymentDueDate: Time)
    ensures nextPaymentDueDate == NextPaymentDueDate(startDate, installmentFrequency, now)
    ensures ParseDate(startDate).None? || PeriodOf(installmentFrequency).None? ==>
      nextPaymentDueDate == ZeroTime
    ensures ParseDate(startDate).Some? && PeriodOf(installmentFrequency).Some? ==>
      IsNextDue(ParseDate(startDate).value, PeriodOf(installmentFrequency).value, now, nextPaymentDueDate)
  {
    var parsed := ParseDate(startDate);
    if parsed.None? {
      return ZeroTime;
    }
    var start := parsed.value;

    var freq: int;
    if installmentFrequency == Weekly {
      freq := 7 * SecondsPerDay;
    } else if installmentFrequency == BiWeekly {
      freq := 14 * SecondsPerDay;
    } else {
      return ZeroTime;
    }

    ghost var origin := start;
    nextPaymentDueDate := ZeroTime;
    var nextFound := false;
    while !nextFound
      invariant !nextFound ==> start == origin || start <= now
      invariant !nextFound ==> DueFrom(start, freq, now) == DueFrom(origin, freq, now)
      invariant nextFound ==> nextPaymentDueDate == DueFrom(origin, freq, now)
      decreases !nextFound, now - start
    {
      start := start + freq;
      if start > now {
        nextFound := true;
        nextPaymentDueDate := start;
      }
    }
    DueFromIsNextDue(origin, freq, now);
  }

  /** The weekly example: a date exactly one week after the start is past, the second week is due. */
  lemma WeeklyBoundaryExample()
    ensures ParseDate("2023-01-01") == Some(738520 * SecondsPerDay)
    ensures ParseDate("2023-01-08") == Some(738527 * SecondsPerDay)
    ensures ParseDate("2023-01-15") == Some(738534 * SecondsPerDay)
    ensures NextPaymentDueDate("2023-01-01", "WEEKLY", 738527 * SecondsPerDay) == 738534 * SecondsPerDay
  {
    ParseJanuary2023('0', '1', 1);
    ParseJanuary2023('0', '8', 8);
    ParseJanuary2023('1', '5', 15);
    assert "2023-01-01" == "2023-01-" + ['0', '1'];
    assert "2023-01-08" == "2023-01-" + ['0', '8'];
    assert "2023-01-15" == "2023-01-" + ['1', '5'];
    var start, period := 738520 * SecondsPerDay, 7 * SecondsPerDay;
    assert PeriodOf("WEEKLY") == Some(period);
    BoundaryIsExclusive(start, period, 1);
  }

  /** The bi-weekly example: on January 20th the plan started January 1st is next due January 29th. */
  lemma BiWeeklyCadenceExample()
    ensures ParseDate("2023-01-20") == Some(738539 * SecondsPerDay)
    ensures ParseDate("2023-01-29") == Some(738548 * SecondsPerDay)
    ensures NextPaymentDueDate("2023-01-01", "BI_WEEKLY", 738539 * SecondsPerDay) == 738548 * SecondsPerDay
  {
    ParseJanuary2023('0', '1', 1);
    ParseJanuary2023('2', '0', 20);
    ParseJanuary2023('2', '9', 29);
    assert "2023-01-01" == "2023-01-" + ['0', '1'];
    assert "2023-01-20" == "2023-01-" + ['2', '0'];
    assert "2023-01-29" == "2023-01-" + ['2', '9'];
    var start, period, now := 738520 * SecondsPerDay, 14 * SecondsPerDay, 738539 * SecondsPerDay;
    assert PeriodOf("BI_WEEKLY") == Some(period);
    assert DueFrom(start, period, now) == DueFrom(start + period, period, now);
    assert DueFrom(start + period, period, now) == start + 2 * period;
  }
}
