/**
  The settlement summary of src/modules/payments/settlements.summary.service.ts
  and the two queries behind it in src/modules/payments/payments.repo.ts: totals
  by status, and released money per calendar day.
 */
module Settlement {
  import opened Common

  // ----------------------------------------------------------------- calendar

  const DAY_MS := 86400000

  /** The UTC day of a time in milliseconds since 1970. */
  function DayOf(ms: nat): nat {
    ms / DAY_MS
  }

  /** A calendar date, the key under which the database groups. */
  datatype Date = Date(year: nat, month: nat, day: nat)

  predicate Leap(year: nat) {
    year % 4 == 0 && (year % 100 != 0 || year % 400 == 0)
  }

  function DaysIn(year: nat, month: nat): nat {
    if month == 2 then if Leap(year) then 29 else 28
    else if month in {4, 6, 9, 11} then 30
    else 31
  }

  function NextDate(d: Date): Date {
    if d.day < DaysIn(d.year, d.month) then Date(d.year, d.month, d.day + 1)
    else if d.month < 12 then Date(d.year, d.month + 1, 1)
    else Date(d.year + 1, 1, 1)
  }

  function DateOf(day: nat): Date {
    if day == 0 then Date(1970, 1, 1) else NextDate(DateOf(day - 1))
  }

  /** Days of the years before `year` in the Gregorian calendar. */
  function DaysBeforeYear(year: nat): int
    requires year >= 1
  {
    365 * year + (year - 1) / 4 - (year - 1) / 100 + (year - 1) / 400
  }

  const MONTH_STARTS: seq<nat> := [0, 31, 59, 90, 120, 151, 181, 212, 243, 273, 304, 334]

  function DaysBeforeMonth(year: nat, month: nat): nat
    requires 1 <= month <= 12
  {
    MONTH_STARTS[month - 1] + if Leap(year) && month > 2 then 1 else 0
  }

  predicate ValidDate(d: Date) {
    d.year >= 1970 && 1 <= d.month <= 12 && 1 <= d.day <= DaysIn(d.year, d.month)
  }

  /** The day number of a date by the closed form, counted from 1970-01-01. */
  function NumberOf(d: Date): int
    requires ValidDate(d)
  {
    DaysBeforeYear(d.year) - DaysBeforeYear(1970) + DaysBeforeMonth(d.year, d.month) + d.day - 1
  }

  lemma YearLength(year: nat)
    requires year >= 1
    ensures DaysBeforeYear(year + 1) - DaysBeforeYear(year) == if Leap(year) then 366 else 365
  {
    Quotients(year, 4);
    Quotients(year, 100);
    Quotients(year, 400);
  }

  lemma Quotients(year: nat, n: nat)
    requires year >= 1 && n in {4, 100, 400}
    ensures year / n - (year - 1) / n == if year % n == 0 then 1 else 0
  {
  }

  lemma MonthLength(year: nat, month: nat)
    requires 1 <= month < 12
    ensures DaysBeforeMonth(year, month + 1) - DaysBeforeMonth(year, month) == DaysIn(year, month)
  {
  }

  lemma NextDateCounts(d: Date)
    requires ValidDate(d)
    ensures ValidDate(NextDate(d)) && NumberOf(NextDate(d)) == NumberOf(d) + 1
  {
    if d.month < 12 {
      MonthLength(d.year, d.month);
    } else {
      YearLength(d.year);
    }
  }

  /** Counting dates one by one agrees with the closed form of the calendar. */
  lemma {:induction false} DateInverts(day: nat)
    ensures ValidDate(DateOf(day)) && NumberOf(DateOf(day)) == day
  {
    if day > 0 {
      DateInverts(day - 1);
      NextDateCounts(DateOf(day - 1));
    }
  }

  /** Different days have different dates, so no two days share a group. */
  lemma DatesDiffer(a: nat, b: nat)
    ensures DateOf(a) == DateOf(b) <==> a == b
  {
    DateInverts(a);
    DateInverts(b);
  }

  /** The lengths of the months. */
  lemma MonthsAre(year: nat, month: nat)
    requires 1 <= month <= 12
    ensures var february := if year % 4 == 0 && (year % 100 != 0 || year % 400 == 0) then 29 else 28;
      DaysIn(year, month) == [31, february, 31, 30, 31, 30, 31, 31, 30, 31, 30, 31][month - 1]
    ensures DateOf(0) == Date(1970, 1, 1)
  {
  }

  // ------------------------------------------------------------------ queries

  datatype Status = PENDING | ESCROWED | RELEASED | FAILED | DISPUTED

  datatype Payment = Payment(organizationId: string, amount: real, status: Status, createdAt: nat, deleted: bool)

  predicate Matches(p: Payment, organizationId: string, since: nat) {
    !p.deleted && p.organizationId == organizationId && p.createdAt >= since
  }

  function TotalOf(payments: seq<Payment>, organizationId: string, since: nat, status: Status): real {
    if payments == [] then 0.0
    else
      var last := payments[|payments| - 1];
      TotalOf(payments[..|payments| - 1], organizationId, since, status)
      + if Matches(last, organizationId, since) && last.status == status then last.amount else 0.0
  }

  datatype Totals = Totals(totalReleased: real, totalInEscrow: real, totalPending: real)

  function AggregateSettlementSummary(payments: seq<Payment>, organizationId: string, since: nat): Totals {
    Totals(TotalOf(payments, organizationId, since, RELEASED),
           TotalOf(payments, organizationId, since, ESCROWED),
           TotalOf(payments, organizationId, since, PENDING))
  }

  /** What one more payment adds: its amount, to the total of its status, if it is a live
      payment of the organization made at or after `since`. */
  lemma {:induction false} TotalsCount(payments: seq<Payment>, p: Payment, organizationId: string, since: nat)
    ensures var was := AggregateSettlementSummary(payments, organizationId, since);
      var counts := !p.deleted && p.organizationId == organizationId && since <= p.createdAt;
      AggregateSettlementSummary(payments + [p], organizationId, since) ==
      Totals(was.totalReleased + (if counts && p.status == RELEASED then p.amount else 0.0),
             was.totalInEscrow + (if counts && p.status == ESCROWED then p.amount else 0.0),
             was.totalPending + (if counts && p.status == PENDING then p.amount else 0.0))
    ensures AggregateSettlementSummary([], organizationId, since) == Totals(0.0, 0.0, 0.0)
  {
    assert (payments + [p])[..|payments|] == payments;
  }

  type Rows = map<Date, real>

  function Lookup(rows: Rows, date: Date): real {
    if date in rows then rows[date] else 0.0
  }

  /** Released money grouped by date. */
  function GroupByDate(payments: seq<Payment>, organizationId: string, since: nat): Rows {
    if payments == [] then map[]
    else
      var last := payments[|payments| - 1];
      var rows := GroupByDate(payments[..|payments| - 1], organizationId, since);
      if Matches(last, organizationId, since) && last.status == RELEASED then
        var date := DateOf(DayOf(last.createdAt));
        rows[date := Lookup(rows, date) + last.amount]
      else rows
  }

  /** `days` consecutive dates read back from the groups. */
  function ReadBack(rows: Rows, first: nat, days: nat): seq<real> {
    seq(days, i requires 0 <= i < days => Lookup(rows, DateOf(first + i)))
  }

  function BuildSettlementSparkline(payments: seq<Payment>, organizationId: string, since: nat, days: nat): seq<real> {
    ReadBack(GroupByDate(payments, organizationId, since), DayOf(since), days)
  }

  // ------------------------------------------------------------- conservation

  function Sum(values: seq<real>): real {
    if values == [] then 0.0 else Sum(values[..|values| - 1]) + values[|values| - 1]
  }

  /** Released money of one day, straight from the payments. */
  function ReleasedOn(payments: seq<Payment>, organizationId: string, since: nat, day: nat): real {
    if payments == [] then 0.0
    else
      var last := payments[|payments| - 1];
      ReleasedOn(payments[..|payments| - 1], organizationId, since, day)
      + if Matches(last, organizationId, since) && last.status == RELEASED && DayOf(last.createdAt) == day
        then last.amount else 0.0
  }

  /** Released money dated after a day. */
  function ReleasedAfter(payments: seq<Payment>, organizationId: string, since: nat, day: nat): real {
    if payments == [] then 0.0
    else
      var last := payments[|payments| - 1];
      ReleasedAfter(payments[..|payments| - 1], organizationId, since, day)
      + if Matches(last, organizationId, since) && last.status == RELEASED && DayOf(last.createdAt) > day
        then last.amount else 0.0
  }

  lemma {:induction false} GroupIsDay(payments: seq<Payment>, organizationId: string, since: nat, day: nat)
    ensures Lookup(GroupByDate(payments, organizationId, since), DateOf(day)) ==
            ReleasedOn(payments, organizationId, since, day)
  {
    if payments != [] {
      GroupIsDay(payments[..|payments| - 1], organizationId, since, day);
      DatesDiffer(DayOf(payments[|payments| - 1].createdAt), day);
    }
  }

  /** What one more payment adds to a day: its amount, if it is a live, released payment of
      the organization made at or after `since` and on that day. */
  lemma {:induction false} DaysCount(payments: seq<Payment>, p: Payment, organizationId: string, since: nat, day: nat)
    ensures ReleasedOn(payments + [p], organizationId, since, day) ==
            ReleasedOn(payments, organizationId, since, day)
            + if !p.deleted && p.organizationId == organizationId && since <= p.createdAt && p.status == RELEASED
                 && day * 86400000 <= p.createdAt < (day + 1) * 86400000 then p.amount else 0.0
    ensures ReleasedOn([], organizationId, since, day) == 0.0
  {
    assert (payments + [p])[..|payments|] == payments;
  }

  /** Every point of the sparkline is the released money of its day. */
  lemma SparklineIsDaily(payments: seq<Payment>, organizationId: string, since: nat, days: nat, i: nat)
    requires i < days
    ensures BuildSettlementSparkline(payments, organizationId, since, days)[i] ==
            ReleasedOn(payments, organizationId, since, DayOf(since) + i)
  {
    GroupIsDay(payments, organizationId, since, DayOf(since) + i);
  }

  lemma ReadBackSnoc(rows: Rows, first: nat, days: nat)
    requires days > 0
    ensures Sum(ReadBack(rows, first, days)) ==
            Sum(ReadBack(rows, first, days - 1)) + Lookup(rows, DateOf(first + (days - 1)))
  {
    var points := ReadBack(rows, first, days);
    assert points[..days - 1] == ReadBack(rows, first, days - 1);
    assert |points| == days && points[days - 1] == Lookup(rows, DateOf(first + (days - 1)));
  }

  /** More money on one date moves the sum of the points by that much, once, if the
      date is among them. */
  lemma {:induction false} ReadBackMoves(rows: Rows, first: nat, days: nat, day: nat, amount: real)
    ensures var date := DateOf(day);
      Sum(ReadBack(rows[date := Lookup(rows, date) + amount], first, days)) ==
      Sum(ReadBack(rows, first, days)) + if first <= day < first + days then amount else 0.0
    decreases days
  {
    if days > 0 {
      var date := DateOf(day);
      var more := rows[date := Lookup(rows, date) + amount];
      ReadBackMoves(rows, first, days - 1, day, amount);
      DatesDiffer(first + (days - 1), day);
      ReadBackSnoc(rows, first, days);
      ReadBackSnoc(more, first, days);
    }
  }

  lemma {:induction false} SumOfNothing(first: nat, days: nat)
    ensures Sum(ReadBack(map[], first, days)) == 0.0
  {
    if days > 0 {
      SumOfNothing(first, days - 1);
      ReadBackSnoc(map[], first, days);
    }
  }

  /** The released total is the sum of the sparkline and of what is dated after it. */
  lemma {:induction false} SparklineAccounts(payments: seq<Payment>, organizationId: string, since: nat, days: nat)
    requires days >= 1
    ensures TotalOf(payments, organizationId, since, RELEASED) ==
            Sum(BuildSettlementSparkline(payments, organizationId, since, days))
            + ReleasedAfter(payments, organizationId, since, DayOf(since) + days - 1)
  {
    var first := DayOf(since);
    if payments == [] {
      SumOfNothing(first, days);
    } else {
      var before, last := payments[..|payments| - 1], payments[|payments| - 1];
      SparklineAccounts(before, organizationId, since, days);
      if Matches(last, organizationId, since) && last.status == RELEASED {
        ReadBackMoves(GroupByDate(before, organizationId, since), first, days, DayOf(last.createdAt), last.amount);
        DaysAscend(since, last.createdAt);
      }
    }
  }

  lemma DaysAscend(a: nat, b: nat)
    requires a <= b
    ensures DayOf(a) <= DayOf(b)
  {
  }

  lemma {:induction false} NothingAfterIff(payments: seq<Payment>, organizationId: string, since: nat, day: nat)
    requires forall p <- payments :: p.amount > 0.0
    ensures ReleasedAfter(payments, organizationId, since, day) >= 0.0
    ensures ReleasedAfter(payments, organizationId, since, day) == 0.0 <==>
            forall p <- payments ::
              Matches(p, organizationId, since) && p.status == RELEASED ==> DayOf(p.createdAt) <= day
  {
    if payments != [] {
      var before, last := payments[..|payments| - 1], payments[|payments| - 1];
      assert payments == before + [last];
      NothingAfterIff(before, organizationId, since, day);
    }
  }

  // ------------------------------------------------------------------ service

  datatype Summary = Summary(totals: Totals, sparkline: seq<real>, period: string)

  datatype Error = BAD_REQUEST

  const PERIOD_DAYS: map<string, nat> := map["week" := 7, "month" := 30, "quarter" := 90]

  /** Midnight at the start of a window of `days` days that ends today. */
  function WindowStart(now: nat, days: nat): nat
    requires 1 <= days <= DayOf(now) + 1
  {
    (DayOf(now) - (days - 1)) * DAY_MS
  }

  /** The window begins at midnight, with `days` days up to and including today's. */
  lemma WindowSpans(now: nat, days: nat)
    requires 1 <= days <= DayOf(now) + 1
    ensures WindowStart(now, days) % 86400000 == 0
    ensures days - 1 <= (now - WindowStart(now, days)) / 86400000 < days
  {
  }

  /** On one snapshot the sparkline adds up to the released total exactly when no
      released payment of the organization is dated after today. */
  lemma ConservedIff(payments: seq<Payment>, organizationId: string, now: nat, days: nat)
    requires 1 <= days <= DayOf(now) + 1
    requires forall p <- payments :: p.amount > 0.0
    ensures var since := WindowStart(now, days);
      Sum(BuildSettlementSparkline(payments, organizationId, since, days)) ==
      AggregateSettlementSummary(payments, organizationId, since).totalReleased
      <==> forall p <- payments ::
             Matches(p, organizationId, since) && p.status == RELEASED ==> DayOf(p.createdAt) <= DayOf(now)
  {
    var since := WindowStart(now, days);
    assert DayOf(since) == DayOf(now) - (days - 1);
    SparklineAccounts(payments, organizationId, since, days);
    NothingAfterIff(payments, organizationId, since, DayOf(now));
  }

  /** A payment released on the ninetieth day and dated the next is in the total only. */
  lemma TomorrowIsMissed(organizationId: string)
    ensures var now := 90 * DAY_MS;
      var payments := [Payment(organizationId, 1.0, RELEASED, now + DAY_MS, false)];
      var since := WindowStart(now, 7);
      Sum(BuildSettlementSparkline(payments, organizationId, since, 7)) !=
      AggregateSettlementSummary(payments, organizationId, since).totalReleased
  {
    var now := 90 * DAY_MS;
    var payments := [Payment(organizationId, 1.0, RELEASED, now + DAY_MS, false)];
    ConservedIff(payments, organizationId, now, 7);
    assert payments[0] in payments && DayOf(payments[0].createdAt) > DayOf(now);
  }

  const CACHE_TTL_MS := 300000

  datatype Cached = Cached(summary: Summary, expireAt: nat)

  class SettlementService {
    /** Answers by organization and period. */
    var cache: map<(string, string), Cached>

    constructor ()
      ensures cache == map[]
    {
      cache := map[];
    }

    predicate Fresh(organizationId: string, period: string, now: nat)
      reads this
    {
      (organizationId, period) in cache && now < cache[(organizationId, period)].expireAt
    }

    /** An unknown period is refused before the cache is asked; a fresh answer is given
        again for five minutes; otherwise both queries are made and the answer kept. */
    method GetSettlementSummary(payments: seq<Payment>, organizationId: string, period: string, now: nat)
      returns (result: Result<Summary, Error>)
      requires now >= 90 * DAY_MS
      modifies this
      ensures result.Err? <==> period !in ["week", "month", "quarter"]
      ensures old(Fresh(organizationId, period, now)) <==>
        (organizationId, period) in old(cache) && now < old(cache)[(organizationId, period)].expireAt
      ensures result.Ok? && old(Fresh(organizationId, period, now)) ==>
        result.value == old(cache)[(organizationId, period)].summary && cache == old(cache)
      ensures result.Ok? && !old(Fresh(organizationId, period, now)) ==>
        && var days := if period == "week" then 7 else if period == "month" then 30 else 90;
        && 1 <= days <= DayOf(now) + 1
        && var since := WindowStart(now, days);
        && result.value == Summary(AggregateSettlementSummary(payments, organizationId, since),
                                   BuildSettlementSparkline(payments, organizationId, since, days), period)
        && |result.value.sparkline| == days
        && cache == old(cache)[(organizationId, period) := Cached(result.value, now + 300000)]
      ensures result.Err? ==> cache == old(cache)
    {
      if period !in ["week", "month", "quarter"] {
        return Err(BAD_REQUEST);
      }
      var days := PERIOD_DAYS[period];
      if Fresh(organizationId, period, now) {
        return Ok(cache[(organizationId, period)].summary);
      }
      var since := now;
      since := since - (days - 1) * DAY_MS;
      since := since - since % DAY_MS;
      assert since == WindowStart(now, days);
      var totals := AggregateSettlementSummary(payments, organizationId, since);
      var sparkline := BuildSettlementSparkline(payments, organizationId, since, days);
      var summary := Summary(totals, sparkline, period);
      cache := cache[(organizationId, period) := Cached(summary, now + CACHE_TTL_MS)];
      result := Ok(summary);
    }
  }
}
