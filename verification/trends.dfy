/**
 * GET /invoice-trends: one row per month of the current year, January to
 * December, with the number of invoices dated in that month and their total.
 * Month m's window runs from `new Date(year, m, 1)` to `new Date(year, m + 1, 0)`,
 * both bounds inclusive; the upper bound is midnight that starts the month's
 * last day.
 */
module Trends {
  import opened Calendar
  import opened Ledger

  /** The labels of the twelve rows; they carry no year. */
  const MONTH_LABELS: seq<string> :=
    ["Jan", "Feb", "Mar", "Apr", "May", "Jun", "Jul", "Aug", "Sep", "Oct", "Nov", "Dec"]

  datatype TrendRow = TrendRow(month: string, invoiceCount: nat, totalSpend: real)

  /** `new Date(year, m, 1)`. */
  function WindowStart(year: int, m: int): int {
    DateFromParts(year, m, 1)
  }

  /** `new Date(year, m + 1, 0)`: day 0 of the next month. */
  function WindowEnd(year: int, m: int): int {
    DateFromParts(year, m + 1, 0)
  }

  /** `invoiceDate: { gte: startDate, lte: endDate }`. */
  function InMonth(year: int, m: int): Invoice -> bool {
    (inv: Invoice) => WindowStart(year, m) <= inv.invoiceDate <= WindowEnd(year, m)
  }

  /** The row for month m: its label, the count in its window and the sum there (`|| 0`). */
  function MonthTrend(ledger: seq<Invoice>, year: int, m: int): TrendRow
    requires 0 <= m < 12
  {
    var count := CountWhere(ledger, InMonth(year, m));
    var total := SumAggregate(ledger, InMonth(year, m));
    TrendRow(MONTH_LABELS[m], count, OrZero(total))
  }

  /** A month's row counts the invoices dated in its window and sums their amounts; a month with none shows 0. */
  lemma MonthTrendValues(ledger: seq<Invoice>, year: int, m: int)
    requires 0 <= m < 12
    ensures MonthTrend(ledger, year, m).month == MONTH_LABELS[m]
    ensures MonthTrend(ledger, year, m).invoiceCount == CountWhere(ledger, InMonth(year, m))
    ensures MonthTrend(ledger, year, m).totalSpend == SumWhere(ledger, InMonth(year, m))
    ensures MonthTrend(ledger, year, m).invoiceCount == 0 ==> MonthTrend(ledger, year, m).totalSpend == 0.0
    ensures NonNegativeAmounts(ledger) ==> MonthTrend(ledger, year, m).totalSpend >= 0.0
  {
  }

  /** The first k rows the handler produces. */
  function Series(ledger: seq<Invoice>, year: int, k: nat): (rows: seq<TrendRow>)
    requires k <= 12
    ensures |rows| == k
  {
    if k == 0 then [] else Series(ledger, year, k - 1) + [MonthTrend(ledger, year, k - 1)]
  }

  /** Row m of the series is the row of month m. */
  lemma {:induction false} SeriesRows(ledger: seq<Invoice>, year: int, k: nat)
    requires k <= 12
    ensures forall m :: 0 <= m < k ==> Series(ledger, year, k)[m] == MonthTrend(ledger, year, m)
  {
    if k > 0 {
      SeriesRows(ledger, year, k - 1);
      var prev, last := Series(ledger, year, k - 1), MonthTrend(ledger, year, k - 1);
      var rows := Series(ledger, year, k);
      assert rows == prev + [last];
      forall m | 0 <= m < k
        ensures rows[m] == MonthTrend(ledger, year, m)
      {
        if m < k - 1 {
          assert rows[m] == prev[m];
        }
      }
    }
  }

  /** The response: twelve rows, whatever the request. */
  function YearSeries(ledger: seq<Invoice>, year: int): seq<TrendRow> {
    Series(ledger, year, 12)
  }

  /** The handler's loop: one row pushed per month 0..11. */
  method InvoiceTrends(ledger: seq<Invoice>, currentYear: int) returns (trends: seq<TrendRow>)
    ensures |trends| == 12
    ensures forall m :: 0 <= m < 12 ==> trends[m] == MonthTrend(ledger, currentYear, m)
    ensures trends == YearSeries(ledger, currentYear)
  {
    trends := [];
    var month := 0;
    while month < 12
      invariant 0 <= month <= 12
      invariant trends == Series(ledger, currentYear, month)
    {
      var invoiceCount := CountWhere(ledger, InMonth(currentYear, month));
      var totalSpend := SumAggregate(ledger, InMonth(currentYear, month));
      SeriesStep(ledger, currentYear, month);
      trends := trends + [TrendRow(MONTH_LABELS[month], invoiceCount, OrZero(totalSpend))];
      month := month + 1;
    }
    SeriesRows(ledger, currentYear, 12);
  }

  /** The first k + 1 rows are the first k rows and the row of month k. */
  lemma SeriesStep(ledger: seq<Invoice>, year: int, k: nat)
    requires k < 12
    ensures Series(ledger, year, k + 1) == Series(ledger, year, k) + [MonthTrend(ledger, year, k)]
  {
  }

  /** Every label is three letters and no digit: the rows name the month only. */
  lemma LabelsHaveNoYear(m: int)
    requires 0 <= m < 12
    ensures |MONTH_LABELS[m]| == 3
    ensures forall i :: 0 <= i < 3 ==> !('0' <= MONTH_LABELS[m][i] <= '9')
  {
  }

  /**
   * The k-th month boundary of year y: midnight of day 1 of month k, and
   * Jan 1 of the next year for k = 12.
   */
  function Boundary(y: int, k: int): int
    requires 0 <= k <= 12
  {
    if k < 12 then Midnight(y, k, 1) else Midnight(y + 1, 0, 1)
  }

  /** Month m of year y lasts from boundary m to boundary m + 1. */
  lemma BoundaryStep(y: int, m: int)
    requires 0 <= m < 12
    ensures Boundary(y, m + 1) == Boundary(y, m) + DaysInMonth(y, m) * MS_PER_DAY
  {
    NextMonthMidnight(y, m);
  }

  /** Boundaries increase with k. */
  lemma {:induction false} BoundaryMonotone(y: int, j: int, k: int)
    requires 0 <= j <= k <= 12
    ensures Boundary(y, j) <= Boundary(y, k)
    decreases k - j
  {
    if j < k {
      BoundaryStep(y, j);
      BoundaryMonotone(y, j + 1, k);
    }
  }

  /**
   * Month m's window starts at midnight of its day 1 and ends at midnight of
   * its last day (28 or 29 for February by leap year, Dec 31 for m = 11),
   * one day before the next month's boundary.
   */
  lemma WindowBounds(y: int, m: int)
    requires y >= FIRST_LITERAL_YEAR && 0 <= m < 12
    ensures WindowStart(y, m) == Midnight(y, m, 1) == Boundary(y, m)
    ensures WindowEnd(y, m) == Midnight(y, m, DaysInMonth(y, m))
    ensures WindowEnd(y, m) == Boundary(y, m + 1) - MS_PER_DAY
  {
    BoundaryStep(y, m);
    MidnightShift(y, m, 1, DaysInMonth(y, m) - 1);
    if m == 11 {
      assert (m + 1) / 12 == 1 && (m + 1) % 12 == 0;
      MidnightShift(y + 1, 0, 1, -1);
    } else {
      MidnightShift(y, m + 1, 1, -1);
    }
  }

  /**
   * In calendar terms: for a year the `Date` constructor takes literally, month
   * m's row counts and sums the invoices dated from midnight of the month's
   * first day up to and including midnight of its last day.
   */
  lemma MonthTrendCalendar(ledger: seq<Invoice>, y: int, m: int)
    requires y >= FIRST_LITERAL_YEAR && 0 <= m < 12
    ensures var days := Between(Midnight(y, m, 1), Midnight(y, m, DaysInMonth(y, m)) + 1);
      && MonthTrend(ledger, y, m).invoiceCount == CountWhere(ledger, days)
      && MonthTrend(ledger, y, m).totalSpend == SumWhere(ledger, days)
  {
    WindowBounds(y, m);
    MonthTrendValues(ledger, y, m);
    FiltersAgree(ledger, InMonth(y, m), Between(Midnight(y, m, 1), Midnight(y, m, DaysInMonth(y, m)) + 1));
  }

  /** Windows of different months do not overlap. */
  lemma WindowsDisjoint(y: int, m1: int, m2: int)
    requires y >= FIRST_LITERAL_YEAR && 0 <= m1 < m2 < 12
    ensures WindowEnd(y, m1) < WindowStart(y, m2)
  {
    WindowBounds(y, m1);
    WindowBounds(y, m2);
    BoundaryMonotone(y, m1 + 1, m2);
  }

  /** No invoice is counted in two months. */
  lemma NoInvoiceInTwoMonths(y: int, m1: int, m2: int, inv: Invoice)
    requires y >= FIRST_LITERAL_YEAR && 0 <= m1 < 12 && 0 <= m2 < 12 && m1 != m2
    ensures !(InMonth(y, m1)(inv) && InMonth(y, m2)(inv))
  {
    if m1 < m2 {
      WindowsDisjoint(y, m1, m2);
    } else {
      WindowsDisjoint(y, m2, m1);
    }
  }

  /**
   * An invoice dated on the last day of a month but after its midnight falls
   * in no month's window: the inclusive end bound is the start of that day.
   */
  lemma LastDayAfterMidnightMissed(y: int, m: int, inv: Invoice)
    requires y >= FIRST_LITERAL_YEAR && 0 <= m < 12
    requires Midnight(y, m, DaysInMonth(y, m)) < inv.invoiceDate < Boundary(y, m + 1)
    ensures forall m2 :: 0 <= m2 < 12 ==> !InMonth(y, m2)(inv)
  {
    WindowBounds(y, m);
    forall m2 | 0 <= m2 < 12
      ensures !InMonth(y, m2)(inv)
    {
      OutsideOtherWindows(y, m, m2, inv.invoiceDate);
    }
  }

  /** An instant strictly inside the last day of month m, after its midnight, is outside every window. */
  lemma OutsideOtherWindows(y: int, m: int, m2: int, t: int)
    requires y >= FIRST_LITERAL_YEAR && 0 <= m < 12 && 0 <= m2 < 12
    requires Boundary(y, m + 1) - MS_PER_DAY < t < Boundary(y, m + 1)
    ensures !(WindowStart(y, m2) <= t <= WindowEnd(y, m2))
  {
    WindowBounds(y, m2);
    if m2 < m {
      BoundaryMonotone(y, m2 + 1, m);
      BoundaryStep(y, m);
    } else if m < m2 {
      BoundaryMonotone(y, m + 1, m2);
    }
  }

  /** Invoice dates that are whole days (midnight UTC), as the seeded dates are. */
  predicate DayAligned(ledger: seq<Invoice>) {
    forall i :: 0 <= i < |ledger| ==> ledger[i].invoiceDate % MS_PER_DAY == 0
  }

  /** For a whole-day date, the inclusive window is the half-open month [boundary m, boundary m + 1). */
  lemma DayAlignedInMonth(y: int, m: int, inv: Invoice)
    requires y >= FIRST_LITERAL_YEAR && 0 <= m < 12
    requires inv.invoiceDate % MS_PER_DAY == 0
    ensures InMonth(y, m)(inv) <==> Boundary(y, m) <= inv.invoiceDate < Boundary(y, m + 1)
  {
    WindowBounds(y, m);
    WholeDayBefore(inv.invoiceDate, CivilDay(y, m, DaysInMonth(y, m)));
  }

  /** A whole-day instant at or before midnight of day c is before midnight of day c + 1. */
  lemma WholeDayBefore(d: int, c: int)
    requires d % MS_PER_DAY == 0
    ensures d <= c * MS_PER_DAY <==> d < (c + 1) * MS_PER_DAY
  {
    var q := d / MS_PER_DAY;
    assert d == q * MS_PER_DAY;
    if q <= c {
      DayOrder(q, c + 1);
    } else {
      DayOrder(c, q);
    }
  }

  /** The invoice count of a sequence of rows. */
  function SeriesCount(rows: seq<TrendRow>): nat {
    if rows == [] then 0 else SeriesCount(rows[..|rows| - 1]) + rows[|rows| - 1].invoiceCount
  }

  /** The total spend of a sequence of rows. */
  function SeriesSpend(rows: seq<TrendRow>): real {
    if rows == [] then 0.0 else SeriesSpend(rows[..|rows| - 1]) + rows[|rows| - 1].totalSpend
  }

  /** For a whole-day date, the first k months are the first k - 1 months and month k - 1, which do not overlap. */
  lemma PrefixStep(y: int, k: int, inv: Invoice)
    requires y >= FIRST_LITERAL_YEAR && 0 < k <= 12
    requires inv.invoiceDate % MS_PER_DAY == 0
    ensures !(Between(Boundary(y, 0), Boundary(y, k - 1))(inv) && InMonth(y, k - 1)(inv))
    ensures Between(Boundary(y, 0), Boundary(y, k))(inv)
        == (Between(Boundary(y, 0), Boundary(y, k - 1))(inv) || InMonth(y, k - 1)(inv))
  {
    BoundaryMonotone(y, 0, k - 1);
    BoundaryStep(y, k - 1);
    DayAlignedInMonth(y, k - 1, inv);
    var d, lo, mid, hi := inv.invoiceDate, Boundary(y, 0), Boundary(y, k - 1), Boundary(y, k);
    assert lo <= mid <= hi;
    assert Between(lo, hi)(inv) == (lo <= d < hi);
    assert Between(lo, mid)(inv) == (lo <= d < mid);
    assert InMonth(y, k - 1)(inv) == (mid <= d < hi);
  }

  /** The first k rows add up to the invoices dated in the first k months. */
  lemma {:induction false} SeriesPrefix(ledger: seq<Invoice>, y: int, k: nat)
    requires y >= FIRST_LITERAL_YEAR && k <= 12 && DayAligned(ledger)
    ensures SeriesCount(Series(ledger, y, k)) == CountWhere(ledger, Between(Boundary(y, 0), Boundary(y, k)))
    ensures SeriesSpend(Series(ledger, y, k)) == SumWhere(ledger, Between(Boundary(y, 0), Boundary(y, k)))
  {
    var lo := Boundary(y, 0);
    if k == 0 {
      assert forall i :: 0 <= i < |ledger| ==> !Between(lo, lo)(ledger[i]);
    } else {
      SeriesPrefix(ledger, y, k - 1);
      SeriesStep(ledger, y, k - 1);
      MonthTrendValues(ledger, y, k - 1);
      PrefixUnion(ledger, y, k);
      var rows := Series(ledger, y, k);
      assert rows[..k - 1] == Series(ledger, y, k - 1);
    }
  }

  /** For whole-day dates, the first k months split into the first k - 1 months and month k - 1. */
  lemma PrefixUnion(ledger: seq<Invoice>, y: int, k: nat)
    requires y >= FIRST_LITERAL_YEAR && 0 < k <= 12 && DayAligned(ledger)
    ensures var lo := Boundary(y, 0);
      && CountWhere(ledger, Between(lo, Boundary(y, k)))
           == CountWhere(ledger, Between(lo, Boundary(y, k - 1))) + CountWhere(ledger, InMonth(y, k - 1))
      && SumWhere(ledger, Between(lo, Boundary(y, k)))
           == SumWhere(ledger, Between(lo, Boundary(y, k - 1))) + SumWhere(ledger, InMonth(y, k - 1))
  {
    var lo := Boundary(y, 0);
    var before, month, upTo := Between(lo, Boundary(y, k - 1)), InMonth(y, k - 1), Between(lo, Boundary(y, k));
    forall i | 0 <= i < |ledger|
      ensures !(before(ledger[i]) && month(ledger[i]))
      ensures upTo(ledger[i]) == (before(ledger[i]) || month(ledger[i]))
    {
      PrefixStep(y, k, ledger[i]);
    }
    DisjointUnion(ledger, before, month, upTo);
  }

  /**
   * For whole-day dates, the twelve counts add up to the number of invoices
   * dated in the year and the twelve spends to their total.
   */
  lemma YearTotals(ledger: seq<Invoice>, y: int)
    requires y >= FIRST_LITERAL_YEAR && DayAligned(ledger)
    ensures SeriesCount(YearSeries(ledger, y)) == CountWhere(ledger, Between(Midnight(y, 0, 1), Midnight(y + 1, 0, 1)))
    ensures SeriesSpend(YearSeries(ledger, y)) == SumWhere(ledger, Between(Midnight(y, 0, 1), Midnight(y + 1, 0, 1)))
  {
    SeriesPrefix(ledger, y, 12);
  }
}
