/**
 * GET /cash-outflow: the amounts of unpaid invoices ("pending" or "overdue")
 * falling due in four ranges counted from now: 0-7 days, 8-30 days,
 * 31-60 days and beyond. Each range includes both of its bounds, so an
 * invoice due exactly on a shared bound is counted twice. "now" is an
 * instant in ms, passed as a parameter.
 */
module Cashflow {
  import opened Calendar
  import opened Ledger

  /** A due-date range; `end` is null for the last, open-ended one. */
  datatype Range = Range(labelText: string, start: int, end: Option<int>)

  datatype Outflow = Outflow(month: string, outflow: real)

  const LABELS: seq<string> := ["0-7 days", "8-30 days", "31-60 days", "60+ days"]

  /** The day offsets from now at which the ranges start. */
  const OFFSET_DAYS: seq<int> := [0, 7, 30, 60]

  /** The `ranges` table: each range ends where the next one starts. */
  function Ranges(now: int): (rs: seq<Range>)
    ensures |rs| == 4
    ensures forall i :: 0 <= i < 4 ==> rs[i].labelText == LABELS[i] && rs[i].start == now + OFFSET_DAYS[i] * MS_PER_DAY
    ensures forall i :: 0 <= i < 3 ==> rs[i].end == Some(rs[i + 1].start)
    ensures rs[3].end == None
  {
    [
      Range("0-7 days", now, Some(now + 7 * MS_PER_DAY)),
      Range("8-30 days", now + 7 * MS_PER_DAY, Some(now + 30 * MS_PER_DAY)),
      Range("31-60 days", now + 30 * MS_PER_DAY, Some(now + 60 * MS_PER_DAY)),
      Range("60+ days", now + 60 * MS_PER_DAY, None)
    ]
  }

  /** `status: { in: ["pending", "overdue"] }`. */
  predicate Unpaid(inv: Invoice) {
    inv.status == "pending" || inv.status == "overdue"
  }

  /** The `where` of one range: unpaid, due on or after `start`, and on or before `end` when there is one. */
  function InRange(r: Range): Invoice -> bool {
    (inv: Invoice) =>
      && Unpaid(inv)
      && inv.dueDate.Some?
      && r.start <= inv.dueDate.value
      && (r.end.Some? ==> inv.dueDate.value <= r.end.value)
  }

  /** The response: one entry per range, in table order, with its summed amount (`|| 0`). */
  function CashOutflow(ledger: seq<Invoice>, now: int): (r: seq<Outflow>)
    ensures |r| == 4
    ensures forall i :: 0 <= i < 4 ==> r[i].month == LABELS[i]
    ensures forall i :: 0 <= i < 4 ==> r[i].outflow == SumWhere(ledger, InRange(Ranges(now)[i]))
    ensures NonNegativeAmounts(ledger) ==> forall i :: 0 <= i < 4 ==> r[i].outflow >= 0.0
  {
    var rs := Ranges(now);
    seq(4, i requires 0 <= i < 4 => Outflow(rs[i].labelText, OrZero(SumAggregate(ledger, InRange(rs[i])))))
  }

  /** An invoice due exactly where one range ends and the next starts is counted in both. */
  lemma SharedBoundCountedTwice(now: int, k: int, inv: Invoice)
    requires 1 <= k < 4
    requires Unpaid(inv) && inv.dueDate == Some(now + OFFSET_DAYS[k] * MS_PER_DAY)
    ensures InRange(Ranges(now)[k - 1])(inv) && InRange(Ranges(now)[k])(inv)
  {
  }

  /** Paid invoices, invoices without a due date and invoices due before now fall in no range. */
  lemma ExcludedInvoices(now: int, inv: Invoice)
    requires !Unpaid(inv) || inv.dueDate == None || inv.dueDate.value < now
    ensures forall i :: 0 <= i < 4 ==> !InRange(Ranges(now)[i])(inv)
  {
  }

  /** An unpaid invoice due at or after now falls in some range, and in exactly one unless it is due on a shared bound. */
  lemma CoveredInvoices(now: int, inv: Invoice)
    requires Unpaid(inv) && inv.dueDate.Some? && inv.dueDate.value >= now
    ensures exists i :: 0 <= i < 4 && InRange(Ranges(now)[i])(inv)
    ensures !OnSharedBound(now)(inv) ==>
      forall i, j :: 0 <= i < j < 4 ==> !(InRange(Ranges(now)[i])(inv) && InRange(Ranges(now)[j])(inv))
  {
    var rs := Ranges(now);
    var d := inv.dueDate.value;
    if d <= now + 7 * MS_PER_DAY {
      assert InRange(rs[0])(inv);
    } else if d <= now + 30 * MS_PER_DAY {
      assert InRange(rs[1])(inv);
    } else if d <= now + 60 * MS_PER_DAY {
      assert InRange(rs[2])(inv);
    } else {
      assert InRange(rs[3])(inv);
    }
  }

  /** Unpaid and due at or after now: the invoices the ranges cover together. */
  function DueFromNow(now: int): Invoice -> bool {
    (inv: Invoice) => Unpaid(inv) && inv.dueDate.Some? && inv.dueDate.value >= now
  }

  /** Unpaid and due exactly at now + 7, 30 or 60 days: the invoices counted twice. */
  function OnSharedBound(now: int): Invoice -> bool {
    (inv: Invoice) =>
      && Unpaid(inv)
      && inv.dueDate.Some?
      && inv.dueDate.value in {now + 7 * MS_PER_DAY, now + 30 * MS_PER_DAY, now + 60 * MS_PER_DAY}
  }

  /** The four outflows added together. */
  function OutflowTotal(r: seq<Outflow>): real
    requires |r| == 4
  {
    r[0].outflow + r[1].outflow + r[2].outflow + r[3].outflow
  }

  /** For one invoice, the ranges it falls in number one per due-from-now plus one per shared bound. */
  lemma RangesHit(now: int, inv: Invoice)
    ensures var rs := Ranges(now);
      Hit(InRange(rs[0])(inv)) + Hit(InRange(rs[1])(inv)) + Hit(InRange(rs[2])(inv)) + Hit(InRange(rs[3])(inv))
        == Hit(DueFromNow(now)(inv)) + Hit(OnSharedBound(now)(inv))
  {
  }

  function Hit(b: bool): int {
    if b then 1 else 0
  }

  /**
   * The four outflows add up to the unpaid amount due from now on, plus once
   * more the amount due exactly on a shared bound.
   */
  lemma {:induction false} OutflowsAddUp(ledger: seq<Invoice>, now: int)
    ensures OutflowTotal(CashOutflow(ledger, now)) == SumWhere(ledger, DueFromNow(now)) + SumWhere(ledger, OnSharedBound(now))
  {
    SumsAddUp(ledger, now);
  }

  lemma {:induction false} SumsAddUp(ledger: seq<Invoice>, now: int)
    ensures var rs := Ranges(now);
      SumWhere(ledger, InRange(rs[0])) + SumWhere(ledger, InRange(rs[1]))
        + SumWhere(ledger, InRange(rs[2])) + SumWhere(ledger, InRange(rs[3]))
        == SumWhere(ledger, DueFromNow(now)) + SumWhere(ledger, OnSharedBound(now))
  {
    if ledger != [] {
      SumsAddUp(ledger[1..], now);
      RangesHit(now, ledger[0]);
    }
  }
}
