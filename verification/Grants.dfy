/** Calendar months, clamped to month lengths, and the monthly grant that rolls along them. */
module Grants {
  import opened Collections

  datatype Date = Date(year: nat, month: nat, day: nat)

  predicate Leap(year: nat) {
    year % 4 == 0 && (year % 100 != 0 || year % 400 == 0)
  }

  function MonthLength(year: nat, month: nat): (n: nat)
    ensures 28 <= n <= 31
  {
    if month == 2 then (if Leap(year) then 29 else 28)
    else if month in {4, 6, 9, 11} then 30
    else 31
  }

  /** The twelve lengths; the leap day comes every fourth year, but not in a century unless it is every fourth. */
  lemma MonthLengths(year: nat)
    ensures forall month :: month in {1, 3, 5, 7, 8, 10, 12} ==> MonthLength(year, month) == 31
    ensures forall month :: month in {4, 6, 9, 11} ==> MonthLength(year, month) == 30
    ensures MonthLength(year, 2) == 29 <==> year % 400 == 0 || (year % 100 != 0 && year % 4 == 0)
    ensures MonthLength(year, 2) == 28 || MonthLength(year, 2) == 29
  {
  }

  predicate ValidDate(d: Date) {
    1 <= d.month <= 12 && 1 <= d.day <= MonthLength(d.year, d.month)
  }

  predicate Before(a: Date, b: Date) {
    a.year < b.year || (a.year == b.year && (a.month < b.month || (a.month == b.month && a.day < b.day)))
  }

  /** Months counted from year 0. */
  function MonthIndex(d: Date): nat
    requires d.month >= 1
  {
    d.year * 12 + d.month - 1
  }

  function LengthOf(index: nat): (n: nat)
    ensures 28 <= n <= 31
  {
    MonthLength(index / 12, index % 12 + 1)
  }

  /** `start` shifted forward by whole months, clamped to the target month's length. */
  function AddMonths(start: Date, months: nat): Date
    requires ValidDate(start)
  {
    var monthIndex := start.month - 1 + months;
    var year := start.year + monthIndex / 12;
    var month := monthIndex % 12 + 1;
    Date(year, month, Min(start.day, MonthLength(year, month)))
  }

  /** Whole calendar months between two dates in order. */
  function WholeMonthsBetween(start: Date, end: Date): int
    requires ValidDate(start) && ValidDate(end) && !Before(end, start)
  {
    var months := (end.year - start.year) * 12 + (end.month - start.month);
    if Before(end, AddMonths(start, months)) then months - 1 else months
  }

  /** Dates in order are in the order of month index, then day. */
  lemma BeforeByIndex(a: Date, b: Date)
    requires ValidDate(a) && ValidDate(b)
    ensures Before(a, b) <==> MonthIndex(a) < MonthIndex(b) || (MonthIndex(a) == MonthIndex(b) && a.day < b.day)
  {
  }

  lemma AddMonthsIndex(start: Date, m: nat)
    requires ValidDate(start)
    ensures var d := AddMonths(start, m);
            && ValidDate(d) && MonthIndex(d) == MonthIndex(start) + m
            && d.day == Min(start.day, LengthOf(MonthIndex(start) + m))
  {
    var index := start.month - 1 + m;
    assert (start.year * 12 + index) / 12 == start.year + index / 12;
    assert (start.year * 12 + index) % 12 == index % 12;
  }

  /** The calendar's next day. */
  function NextDay(d: Date): (r: Date)
    requires ValidDate(d)
    ensures ValidDate(r)
  {
    if d.day < MonthLength(d.year, d.month) then d.(day := d.day + 1)
    else if d.month < 12 then Date(d.year, d.month + 1, 1)
    else Date(d.year + 1, 1, 1)
  }

  /** `Before` is the order in which days follow each other. */
  lemma DaysFollow(a: Date, b: Date)
    requires ValidDate(a) && ValidDate(b)
    ensures Before(a, b) || a == b || Before(b, a)
    ensures !(Before(a, b) && Before(b, a)) && !Before(a, a)
    ensures Before(a, NextDay(b)) <==> Before(a, b) || a == b
  {
  }

  /**
   A shift by months goes to the same day of the month that many months on, or to that month's last
   day where it has no such day.
   */
  lemma AddMonthsLands(start: Date, m: nat)
    requires ValidDate(start)
    ensures var d := AddMonths(start, m);
            && ValidDate(d) && 12 * d.year + d.month == 12 * start.year + start.month + m
            && (d.day == start.day || (d.day < start.day && NextDay(d).day == 1))
  {
    AddMonthsIndex(start, m);
  }

  /** Clamped addition never reorders: a later month count gives a later date. */
  lemma AddMonthsGrows(start: Date, m: nat, n: nat)
    requires ValidDate(start) && m < n
    ensures Before(AddMonths(start, m), AddMonths(start, n))
  {
    AddMonthsIndex(start, m);
    AddMonthsIndex(start, n);
    BeforeByIndex(AddMonths(start, m), AddMonths(start, n));
  }

  lemma WholeByIndex(start: Date, end: Date)
    requires ValidDate(start) && ValidDate(end) && !Before(end, start)
    ensures var k, t := MonthIndex(start), MonthIndex(end);
            && t >= k
            && WholeMonthsBetween(start, end) == if Min(start.day, LengthOf(t)) <= end.day then t - k else t - k - 1
  {
    BeforeByIndex(end, start);
    AddMonthsIndex(start, MonthIndex(end) - MonthIndex(start));
    BeforeByIndex(end, AddMonths(start, MonthIndex(end) - MonthIndex(start)));
  }

  lemma DueByIndex(periodStart: Date, today: Date)
    requires ValidDate(periodStart) && ValidDate(today)
    ensures var k, t := MonthIndex(periodStart), MonthIndex(today);
            GrantDue(periodStart, today)
            <==> t > k + 1 || (t == k + 1 && Min(periodStart.day, LengthOf(t)) <= today.day)
  {
    AddMonthsIndex(periodStart, 1);
    BeforeByIndex(today, AddMonths(periodStart, 1));
  }

  /** Despite clamping, whole months bracket the end date; no other count does. */
  lemma WholeMonthsBracket(start: Date, end: Date, m: nat)
    requires ValidDate(start) && ValidDate(end) && !Before(end, start)
    ensures m == WholeMonthsBetween(start, end)
            <==> !Before(end, AddMonths(start, m)) && Before(end, AddMonths(start, m + 1))
  {
    hide AddMonths, LengthOf, MonthIndex, WholeMonthsBetween, Before;
    WholeByIndex(start, end);
    AddMonthsIndex(start, m);
    BeforeByIndex(end, AddMonths(start, m));
    AddMonthsIndex(start, m + 1);
    BeforeByIndex(end, AddMonths(start, m + 1));
  }

  lemma WholeMonthsNatural(start: Date, end: Date)
    requires ValidDate(start) && ValidDate(end) && !Before(end, start)
    ensures WholeMonthsBetween(start, end) >= 0
  {
    WholeByIndex(start, end);
    BeforeByIndex(end, start);
  }

  /** Whether a call on `today` grants. */
  predicate GrantDue(periodStart: Date, today: Date)
    requires ValidDate(periodStart)
  {
    !Before(today, AddMonths(periodStart, 1))
  }

  /** The period after a call on `today`. */
  function Rolled(periodStart: Date, today: Date): (r: Date)
    requires ValidDate(periodStart) && ValidDate(today)
    ensures ValidDate(r)
  {
    if !GrantDue(periodStart, today) then periodStart
    else
      DueIsPast(periodStart, today);
      WholeMonthsNatural(periodStart, today);
      AddMonthsIndex(periodStart, WholeMonthsBetween(periodStart, today));
      AddMonths(periodStart, WholeMonthsBetween(periodStart, today))
  }

  lemma DueIsPast(periodStart: Date, today: Date)
    requires ValidDate(periodStart) && ValidDate(today) && GrantDue(periodStart, today)
    ensures !Before(today, periodStart)
  {
    AddMonthsIndex(periodStart, 1);
    BeforeByIndex(today, AddMonths(periodStart, 1));
    BeforeByIndex(today, periodStart);
  }

  /** The rolled period by month index and day. */
  lemma RolledIndex(periodStart: Date, today: Date)
    requires ValidDate(periodStart) && ValidDate(today) && GrantDue(periodStart, today)
    ensures var k, t := MonthIndex(periodStart), MonthIndex(today);
            var clamped := Min(periodStart.day, LengthOf(t));
            if clamped <= today.day
            then t > k && MonthIndex(Rolled(periodStart, today)) == t && Rolled(periodStart, today).day == clamped
            else t > k + 1 && MonthIndex(Rolled(periodStart, today)) == t - 1
                 && Rolled(periodStart, today).day == Min(periodStart.day, LengthOf(t - 1))
  {
    hide AddMonths, LengthOf, MonthIndex, GrantDue, WholeMonthsBetween, Before;
    DueIsPast(periodStart, today);
    WholeByIndex(periodStart, today);
    DueByIndex(periodStart, today);
    AddMonthsIndex(periodStart, WholeMonthsBetween(periodStart, today));
  }

  /** The days on which a call that just granted would grant again at once. */
  predicate GrantsTwice(periodStart: Date, today: Date)
    requires ValidDate(periodStart) && ValidDate(today)
  {
    var t := MonthIndex(today);
    t >= MonthIndex(periodStart) + 2 && LengthOf(t - 1) <= today.day < Min(periodStart.day, LengthOf(t))
  }

  /** Exactly when the grant is not idempotent on one date. */
  lemma SecondGrantIff(periodStart: Date, today: Date)
    requires ValidDate(periodStart) && ValidDate(today) && GrantDue(periodStart, today)
    ensures GrantDue(Rolled(periodStart, today), today) <==> GrantsTwice(periodStart, today)
  {
    hide Rolled, GrantDue, AddMonths, LengthOf;
    RolledIndex(periodStart, today);
    DueByIndex(Rolled(periodStart, today), today);
  }

  /** A second grant lands in today's month, so there is no third. */
  lemma NoThirdGrant(periodStart: Date, today: Date)
    requires ValidDate(periodStart) && ValidDate(today) && GrantDue(periodStart, today)
    requires GrantDue(Rolled(periodStart, today), today)
    ensures !GrantDue(Rolled(Rolled(periodStart, today), today), today)
  {
    hide Rolled, GrantDue, AddMonths, LengthOf;
    var once := Rolled(periodStart, today);
    RolledIndex(periodStart, today);
    RolledIndex(once, today);
    DueByIndex(once, today);
    DueByIndex(Rolled(once, today), today);
  }

  /** Grants issued by n calls in a row on one date. */
  function GrantsOn(periodStart: Date, today: Date, n: nat): nat
    requires ValidDate(periodStart) && ValidDate(today)
    decreases n
  {
    if n == 0 then 0
    else (if GrantDue(periodStart, today) then 1 else 0) + GrantsOn(Rolled(periodStart, today), today, n - 1)
  }

  function RolledTimes(periodStart: Date, today: Date, n: nat): (r: Date)
    requires ValidDate(periodStart) && ValidDate(today)
    ensures ValidDate(r)
    decreases n
  {
    if n == 0 then periodStart else RolledTimes(Rolled(periodStart, today), today, n - 1)
  }

  lemma {:induction false} SettledGrantsNothing(periodStart: Date, today: Date, n: nat)
    requires ValidDate(periodStart) && ValidDate(today) && !GrantDue(periodStart, today)
    ensures GrantsOn(periodStart, today, n) == 0 && RolledTimes(periodStart, today, n) == periodStart
  {
    hide GrantDue;
    if n > 0 {
      SettledGrantsNothing(periodStart, today, n - 1);
    }
  }

  /**
   How often repeated checks on one date grant: not at all before the period lapses, once in
   general, and twice exactly on the days named by GrantsTwice, which needs a period that started
   after the 28th. Once settled, the period covers today.
   */
  lemma RepeatedGrants(periodStart: Date, today: Date, n: nat)
    requires ValidDate(periodStart) && ValidDate(today) && n >= 2
    ensures GrantsOn(periodStart, today, n)
            == (if !GrantDue(periodStart, today) then 0 else if GrantsTwice(periodStart, today) then 2 else 1)
    ensures periodStart.day <= 28 ==> !GrantsTwice(periodStart, today)
    ensures var p := RolledTimes(periodStart, today, n);
            && Before(today, AddMonths(p, 1))
            && (!Before(today, periodStart) ==> !Before(today, p))
  {
    hide AddMonths, LengthOf, Before;
    if !GrantDue(periodStart, today) {
      SettledGrantsNothing(periodStart, today, n);
    } else {
      var once := Rolled(periodStart, today);
      SecondGrantIff(periodStart, today);
      RolledPast(periodStart, today);
      assert GrantsOn(periodStart, today, n) == 1 + GrantsOn(once, today, n - 1);
      if GrantDue(once, today) {
        NoThirdGrant(periodStart, today);
        RolledPast(once, today);
        SettledGrantsNothing(Rolled(once, today), today, n - 2);
      } else {
        SettledGrantsNothing(once, today, n - 1);
      }
    }
  }

  lemma RolledPast(periodStart: Date, today: Date)
    requires ValidDate(periodStart) && ValidDate(today) && GrantDue(periodStart, today)
    ensures !Before(today, Rolled(periodStart, today))
  {
    DueIsPast(periodStart, today);
    WholeMonthsNatural(periodStart, today);
    WholeMonthsBracket(periodStart, today, WholeMonthsBetween(periodStart, today));
  }

  /** The day the docstring's "idempotent within a period" misses: started January 31, checked on March 30. */
  lemma JanuaryGrantsTwiceInMarch()
    ensures GrantsOn(Date(2023, 1, 31), Date(2023, 3, 30), 2) == 2
  {
    hide GrantsOn, RolledTimes, GrantDue;
    RepeatedGrants(Date(2023, 1, 31), Date(2023, 3, 30), 2);
    DueByIndex(Date(2023, 1, 31), Date(2023, 3, 30));
    assert MonthIndex(Date(2023, 3, 30)) == 24278;
    assert LengthOf(24277) == MonthLength(2023, 2) == 28 && LengthOf(24278) == MonthLength(2023, 3) == 31;
  }

  datatype Organization = Organization(creditsPerMonth: nat, granted: int, purchased: int, periodStart: Date)

  datatype Transaction = PlanGrant(organizationId: string, amount: nat)

  datatype GrantResult = Ok | OrganizationNotFound

  /** The balances and the ledger behind the service. */
  class CreditService {
    const billingEnabled: bool
    var organizations: map<string, Organization>
    var ledger: seq<Transaction>

    constructor (billingEnabled: bool, organizations: map<string, Organization>)
      ensures this.billingEnabled == billingEnabled && this.organizations == organizations && ledger == []
    {
      this.billingEnabled := billingEnabled;
      this.organizations := organizations;
      ledger := [];
    }

    ghost predicate Valid()
      reads this
    {
      forall id :: id in organizations ==> ValidDate(organizations[id].periodStart)
    }

    /**
     Applies the monthly grant if the period has lapsed: one allowance however many months have passed, purchases
     untouched.
     */
    method EnsureCurrentPeriod(organizationId: string, today: Date) returns (result: GrantResult)
      requires Valid() && ValidDate(today)
      modifies this
      ensures Valid()
      ensures result == if billingEnabled && organizationId !in organizations then OrganizationNotFound else Ok
      ensures if billingEnabled && organizationId in old(organizations)
              && GrantDue(old(organizations)[organizationId].periodStart, today) then
                var org := old(organizations)[organizationId];
                && organizations == old(organizations)[organizationId :=
                     org.(granted := org.creditsPerMonth, periodStart := Rolled(org.periodStart, today))]
                && ledger == old(ledger) + [PlanGrant(organizationId, org.creditsPerMonth)]
              else organizations == old(organizations) && ledger == old(ledger)
    {
      if !billingEnabled {
        return Ok;
      }
      if organizationId !in organizations {
        return OrganizationNotFound;
      }
      var org := organizations[organizationId];
      var nextPeriod := AddMonths(org.periodStart, 1);
      if Before(today, nextPeriod) {
        return Ok;
      }
      DueIsPast(org.periodStart, today);
      WholeMonthsNatural(org.periodStart, today);
      var monthsElapsed := WholeMonthsBetween(org.periodStart, today);
      var newPeriodStart := AddMonths(org.periodStart, monthsElapsed);
      assert newPeriodStart == Rolled(org.periodStart, today);
      Grant(organizationId, newPeriodStart);
      result := Ok;
    }

    /** Re-issues the granted part of the balance for a period and records it. */
    method Grant(organizationId: string, periodStart: Date)
      requires Valid() && organizationId in organizations && ValidDate(periodStart)
      modifies this
      ensures Valid()
      ensures var org := old(organizations)[organizationId];
              var granted := org.(granted := org.creditsPerMonth, periodStart := periodStart);
              && organizations == old(organizations)[organizationId := granted]
              && ledger == old(ledger) + [PlanGrant(organizationId, org.creditsPerMonth)]
    {
      var org := organizations[organizationId];
      var granted := org.(granted := org.creditsPerMonth, periodStart := periodStart);
      organizations := organizations[organizationId := granted];
      ledger := ledger + [PlanGrant(organizationId, org.creditsPerMonth)];
    }

    /** Restarts the period today; the next check on the same day grants nothing. */
    method GrantPlanCredits(organizationId: string, today: Date) returns (result: GrantResult)
      requires Valid() && ValidDate(today)
      modifies this
      ensures Valid()
      ensures result == if organizationId in old(organizations) then Ok else OrganizationNotFound
      ensures if organizationId in old(organizations) then
                var org := old(organizations)[organizationId];
                var granted := org.(granted := org.creditsPerMonth, periodStart := today);
                && organizations == old(organizations)[organizationId := granted]
                && ledger == old(ledger) + [PlanGrant(organizationId, org.creditsPerMonth)]
                && !GrantDue(organizations[organizationId].periodStart, today)
              else organizations == old(organizations) && ledger == old(ledger)
    {
      if organizationId !in organizations {
        return OrganizationNotFound;
      }
      Grant(organizationId, today);
      AddMonthsGrows(today, 0, 1);
      result := Ok;
    }
  }
}
