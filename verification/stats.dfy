/**
 * GET /stats: four overview metrics, each with a period-over-period change
 * that is 0 when its baseline is 0 or absent. "now" is a parameter.
 */
module Stats {
  import opened Calendar
  import opened Ledger

  datatype Metric = Metric(value: real, change: real, labelText: Option<string>)

  datatype Overview = Overview(
    totalSpend: Metric,
    totalInvoices: Metric,
    documentsUploaded: Metric,
    averageInvoiceValue: Metric)

  /** The bounds the handler derives from now with `new Date(y, m, d)`. */
  datatype Windows = Windows(yearStart: int, monthStart: int, lastMonthStart: int, lastYearStart: int)

  function StatWindows(now: Clock): Windows {
    Windows(
      DateFromParts(now.year, 0, 1),
      DateFromParts(now.year, now.month, 1),
      DateFromParts(now.year, now.month - 1, 1),
      DateFromParts(now.year - 1, 0, 1))
  }

  /**
   * `baseline ? (current - baseline) / baseline * 100 : 0`: the percentage by
   * which `current` exceeds `baseline`, and 0 when there is no baseline.
   */
  function Change(current: real, baseline: real): (r: real)
    ensures baseline == 0.0 ==> r == 0.0
    ensures baseline != 0.0 ==> r * baseline == (current - baseline) * 100.0
  {
    if baseline == 0.0 then 0.0 else (current - baseline) / baseline * 100.0
  }

  function OverviewStats(ledger: seq<Invoice>, now: Clock): (r: Overview)
    ensures r.totalSpend.labelText == Some("YTD") && r.documentsUploaded.labelText == Some("This Month")
    ensures r.totalInvoices.labelText == None && r.averageInvoiceValue.labelText == None
    ensures r.totalInvoices.value == |ledger| as real
    ensures ledger == [] ==>
      && r.totalSpend == Metric(0.0, 0.0, Some("YTD"))
      && r.totalInvoices == Metric(0.0, 0.0, None)
      && r.documentsUploaded == Metric(0.0, 0.0, Some("This Month"))
      && r.averageInvoiceValue == Metric(0.0, 0.0, None)
  {
    var w := StatWindows(now);
    var totalSpendYTD := SumAggregate(ledger, From(w.yearStart));
    var lastYearSpend := SumAggregate(ledger, Between(w.lastYearStart, w.yearStart));
    var totalInvoices := CountWhere(ledger, AnyRow);
    var lastMonthInvoices := CountWhere(ledger, Between(w.lastMonthStart, w.monthStart));
    var documentsThisMonth := CountWhere(ledger, From(w.monthStart));
    var documentsLastMonth := CountWhere(ledger, Between(w.lastMonthStart, w.monthStart));
    var avgInvoice := AvgAggregate(ledger, AnyRow);
    var lastMonthAvg := AvgAggregate(ledger, Between(w.lastMonthStart, w.monthStart));
    CountAll(ledger);
    Overview(
      Metric(OrZero(totalSpendYTD), Change(OrZero(totalSpendYTD), OrZero(lastYearSpend)), Some("YTD")),
      Metric(totalInvoices as real, Change(totalInvoices as real, lastMonthInvoices as real), None),
      Metric(documentsThisMonth as real, Change(documentsThisMonth as real, documentsLastMonth as real), Some("This Month")),
      Metric(OrZero(avgInvoice), Change(OrZero(avgInvoice), OrZero(lastMonthAvg)), None))
  }

  /** The month before now's month: December of the previous year in January. */
  function PreviousMonth(now: Clock): (int, int) {
    if now.month == 0 then (now.year - 1, 11) else (now.year, now.month - 1)
  }

  /**
   * The windows are calendar days: Jan 1 of now's year, day 1 of now's
   * month, day 1 of the previous month (December of the previous year when
   * now is in January) and Jan 1 of the previous year.
   */
  lemma WindowsAreCalendarDays(now: Clock)
    requires now.Valid() && now.year > FIRST_LITERAL_YEAR
    ensures var w := StatWindows(now); var (py, pm) := PreviousMonth(now);
      && 0 <= pm < 12
      && w.yearStart == Midnight(now.year, 0, 1)
      && w.monthStart == Midnight(now.year, now.month, 1)
      && w.lastMonthStart == Midnight(py, pm, 1)
      && w.lastYearStart == Midnight(now.year - 1, 0, 1)
  {
    var w := StatWindows(now);
    assert w.yearStart == Midnight(now.year, 0, 1);
    assert w.monthStart == Midnight(now.year, now.month, 1);
    assert w.lastYearStart == Midnight(now.year - 1, 0, 1);
    if now.month == 0 {
      MonthBeforeJanuary(now.year, 1);
    }
  }

  /** Last month's window [lastMonthStart, monthStart) is exactly the previous calendar month. */
  lemma LastMonthWindowIsOneMonth(now: Clock)
    requires now.Valid() && now.year > FIRST_LITERAL_YEAR
    ensures var w := StatWindows(now); var (py, pm) := PreviousMonth(now);
      && 0 <= pm < 12
      && w.monthStart - w.lastMonthStart == DaysInMonth(py, pm) * MS_PER_DAY
  {
    WindowsAreCalendarDays(now);
    var (py, pm) := PreviousMonth(now);
    NextMonthMidnight(py, pm);
    var (ny, nm) := if pm == 11 then (py + 1, 0) else (py, pm + 1);
    assert ny == now.year && nm == now.month;
    var w := StatWindows(now);
    assert w.monthStart == Midnight(ny, nm, 1);
    assert w.lastMonthStart == Midnight(py, pm, 1);
  }

  /** The windows are ordered: the year windows precede the month windows, and now's month has started. */
  lemma WindowsOrdered(now: Clock)
    requires now.Valid() && now.year > FIRST_LITERAL_YEAR
    ensures var w := StatWindows(now);
      && w.lastYearStart < w.yearStart <= w.monthStart <= now.Instant()
      && w.lastYearStart <= w.lastMonthStart < w.monthStart
  {
    WindowsAreCalendarDays(now);
    LastMonthWindowIsOneMonth(now);
    var y, m := now.year, now.month;
    var (py, pm) := PreviousMonth(now);
    YearStep(y - 1);
    var lastYear, year, month, today := CivilDay(y - 1, 0, 1), CivilDay(y, 0, 1), CivilDay(y, m, 1), CivilDay(y, m, now.day);
    var lastMonth := CivilDay(py, pm, 1);
    assert lastYear < year by {
      assert year - lastYear == YearLength(y - 1);
    }
    assert year <= month <= today;
    assert lastYear <= lastMonth by {
      if m == 0 {
        assert lastMonth - lastYear == DaysBeforeMonth(y - 1, 11);
      } else {
        assert lastMonth >= year;
      }
    }
    DayOrder(lastYear, year);
    DayOrder(year, month);
    DayOrder(month, today);
    DayOrder(lastYear, lastMonth);
  }

  /**
   * The values: total spend is the sum over invoices dated on or after Jan 1
   * of now's year with no upper bound, and documents uploaded counts invoices
   * dated on or after day 1 of now's month.
   */
  lemma OverviewValues(ledger: seq<Invoice>, now: Clock)
    requires now.Valid() && now.year > FIRST_LITERAL_YEAR
    ensures var r := OverviewStats(ledger, now);
      && r.totalSpend.value == SumWhere(ledger, From(Midnight(now.year, 0, 1)))
      && r.documentsUploaded.value == CountWhere(ledger, From(Midnight(now.year, now.month, 1))) as real
  {
    WindowsAreCalendarDays(now);
  }

  /** The average is the all-time mean amount, and 0 for an empty ledger. */
  lemma AverageIsMean(ledger: seq<Invoice>, now: Clock)
    ensures ledger == [] ==> OverviewStats(ledger, now).averageInvoiceValue.value == 0.0
    ensures ledger != [] ==> OverviewStats(ledger, now).averageInvoiceValue.value == Mean(Total(ledger), |ledger|)
  {
    CountAll(ledger);
  }

  /**
   * The baselines: spend is compared with last calendar year's spend,
   * the invoice count (all time) and the documents count (this month) with
   * the same count of last month's invoices, and the average with last
   * month's average; each change is 0 when its baseline is 0 or absent.
   */
  lemma OverviewBaselines(ledger: seq<Invoice>, now: Clock)
    requires now.Valid() && now.year > FIRST_LITERAL_YEAR
    ensures var r := OverviewStats(ledger, now); var (py, pm) := PreviousMonth(now);
      var lastYear := Between(Midnight(now.year - 1, 0, 1), Midnight(now.year, 0, 1));
      var lastMonth := Between(Midnight(py, pm, 1), Midnight(now.year, now.month, 1));
      && 0 <= pm < 12
      && r.totalSpend.change == Change(r.totalSpend.value, SumWhere(ledger, lastYear))
      && r.totalInvoices.change == Change(|ledger| as real, CountWhere(ledger, lastMonth) as real)
      && r.documentsUploaded.change == Change(r.documentsUploaded.value, CountWhere(ledger, lastMonth) as real)
      && r.averageInvoiceValue.change == Change(r.averageInvoiceValue.value, OrZero(AvgAggregate(ledger, lastMonth)))
  {
    WindowsAreCalendarDays(now);
    CountAll(ledger);
  }

  /**
   * The invoice-count change compares the all-time count with last month's
   * count, so it is never below the documents change, which compares this
   * month's count with the same baseline.
   */
  lemma {:induction false} InvoiceChangeAtLeastDocumentsChange(ledger: seq<Invoice>, now: Clock)
    ensures OverviewStats(ledger, now).totalInvoices.change >= OverviewStats(ledger, now).documentsUploaded.change
  {
    var w := StatWindows(now);
    var base := CountWhere(ledger, Between(w.lastMonthStart, w.monthStart)) as real;
    var docs := CountWhere(ledger, From(w.monthStart)) as real;
    CountMonotone(ledger, From(w.monthStart), AnyRow);
    CountAll(ledger);
    if base != 0.0 {
      ChangeMonotone(docs, |ledger| as real, base);
    }
  }

  /** With a positive baseline, a larger current value gives a larger change. */
  lemma ChangeMonotone(c1: real, c2: real, b: real)
    requires b > 0.0 && c1 <= c2
    ensures Change(c1, b) <= Change(c2, b)
  {
    assert (c2 - b) / b - (c1 - b) / b == (c2 - c1) / b;
  }

  /**
   * A worked example: two invoices of 100 and 200 this month
   * and one of 50 last month give 2 documents this month (up 100% on last
   * month's 1), 3 invoices (up 200%) and an average of 350 / 3.
   */
  lemma ThreeInvoiceExample(ledger: seq<Invoice>, now: Clock)
    requires |ledger| == 3
    requires ledger[0].totalAmount == 100.0 && ledger[1].totalAmount == 200.0 && ledger[2].totalAmount == 50.0
    requires ledger[0].invoiceDate >= StatWindows(now).monthStart && ledger[1].invoiceDate >= StatWindows(now).monthStart
    requires StatWindows(now).lastMonthStart <= ledger[2].invoiceDate < StatWindows(now).monthStart
    ensures OverviewStats(ledger, now).documentsUploaded == Metric(2.0, 100.0, Some("This Month"))
    ensures OverviewStats(ledger, now).totalInvoices == Metric(3.0, 200.0, None)
    ensures OverviewStats(ledger, now).averageInvoiceValue.value == 350.0 / 3.0
  {
    var w := StatWindows(now);
    var tail := ledger[1..][1..];
    assert tail == [ledger[2]] && tail[1..] == [];
    assert CountWhere(ledger, From(w.monthStart)) == 2;
    assert CountWhere(ledger, Between(w.lastMonthStart, w.monthStart)) == 1;
    assert SumWhere(tail, AnyRow) == 50.0;
    assert SumWhere(ledger[1..], AnyRow) == 250.0;
    assert Total(ledger) == 350.0;
    CountAll(ledger);
  }
}
