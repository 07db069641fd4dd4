/**
 * The invoice ledger as the route handlers see it through the ORM, and the
 * aggregate queries they issue (count, sum, average over a `where` filter).
 * A filter is a predicate on one invoice; the database is a sequence.
 */
module Ledger {

  datatype Option<T> = None | Some(value: T)

  /** One row of the invoice table, with the invoice date and due date as instants in ms. */
  datatype Invoice = Invoice(
    id: string,
    invoiceNumber: string,
    vendorId: string,
    invoiceDate: int,
    dueDate: Option<int>,
    totalAmount: real,
    status: string,
    category: Option<string>,
    currency: string)

  datatype Vendor = Vendor(name: string)

  /** The invoice table and the vendor table (keyed by vendor id). */
  datatype Db = Db(invoices: seq<Invoice>, vendors: map<string, Vendor>)

  /** Every invoice's vendor id names a vendor row (the foreign key of the schema). */
  predicate ReferencesResolve(db: Db) {
    forall i :: 0 <= i < |db.invoices| ==> db.invoices[i].vendorId in db.vendors
  }

  predicate NonNegativeAmounts(ledger: seq<Invoice>) {
    forall i :: 0 <= i < |ledger| ==> ledger[i].totalAmount >= 0.0
  }

  /** `count({ where })`. */
  function CountWhere(ledger: seq<Invoice>, p: Invoice -> bool): (n: nat)
    ensures n <= |ledger|
    ensures n == 0 <==> forall i :: 0 <= i < |ledger| ==> !p(ledger[i])
  {
    if ledger == [] then 0
    else (if p(ledger[0]) then 1 else 0) + CountWhere(ledger[1..], p)
  }

  /** The sum of `totalAmount` over the rows `where` selects, 0 over none. */
  function SumWhere(ledger: seq<Invoice>, p: Invoice -> bool): (s: real)
    ensures NonNegativeAmounts(ledger) ==> s >= 0.0
    ensures CountWhere(ledger, p) == 0 ==> s == 0.0
  {
    if ledger == [] then 0.0
    else (if p(ledger[0]) then ledger[0].totalAmount else 0.0) + SumWhere(ledger[1..], p)
  }

  /** The filter of a query without `where`. */
  predicate AnyRow(inv: Invoice) {
    true
  }

  /** `invoiceDate: { gte: lo }`: dated at or after `lo`. */
  function From(lo: int): Invoice -> bool {
    (inv: Invoice) => inv.invoiceDate >= lo
  }

  /** `invoiceDate: { gte: lo, lt: hi }`: dated in the half-open range [lo, hi). */
  function Between(lo: int, hi: int): Invoice -> bool {
    (inv: Invoice) => lo <= inv.invoiceDate < hi
  }

  /** The sum of `totalAmount` over the whole sequence. */
  function Total(ledger: seq<Invoice>): real {
    SumWhere(ledger, AnyRow)
  }

  /** `aggregate({ where, _sum: { totalAmount } })`: null when no row matches. */
  function SumAggregate(ledger: seq<Invoice>, p: Invoice -> bool): (r: Option<real>)
    ensures r.None? <==> CountWhere(ledger, p) == 0
    ensures r.Some? ==> r.value == SumWhere(ledger, p)
  {
    if CountWhere(ledger, p) == 0 then None else Some(SumWhere(ledger, p))
  }

  /** `aggregate({ where, _avg: { totalAmount } })`: null when no row matches. */
  function AvgAggregate(ledger: seq<Invoice>, p: Invoice -> bool): (r: Option<real>)
    ensures r.None? <==> CountWhere(ledger, p) == 0
    ensures r.Some? ==> r.value == Mean(SumWhere(ledger, p), CountWhere(ledger, p))
  {
    var n := CountWhere(ledger, p);
    if n == 0 then None else Some(Mean(SumWhere(ledger, p), n))
  }

  /** The mean of `n` values summing to `s`. */
  function Mean(s: real, n: nat): (m: real)
    requires n > 0
    ensures m * (n as real) == s
  {
    s / (n as real)
  }

  /** JavaScript `x || 0` on a nullable number: null and 0 both give 0. */
  function OrZero(x: Option<real>): (r: real)
    ensures x.None? ==> r == 0.0
    ensures x.Some? ==> r == x.value
  {
    match x
    case None => 0.0
    case Some(v) => if v == 0.0 then 0.0 else v
  }

  /** `findMany({ where })` without paging: the matching rows in ledger order. */
  function Where(ledger: seq<Invoice>, p: Invoice -> bool): (r: seq<Invoice>)
    ensures |r| == CountWhere(ledger, p)
    ensures forall x :: x in r ==> x in ledger && p(x)
    ensures forall x :: x in ledger && p(x) ==> x in r
  {
    if ledger == [] then []
    else (if p(ledger[0]) then [ledger[0]] else []) + Where(ledger[1..], p)
  }

  /** `Where` keeps ledger order: filtering two stretches of the ledger one after the other is filtering the whole. */
  lemma {:induction false} WhereAppend(a: seq<Invoice>, b: seq<Invoice>, p: Invoice -> bool)
    ensures Where(a + b, p) == Where(a, p) + Where(b, p)
  {
    if a == [] {
      assert a + b == b;
    } else {
      assert (a + b)[0] == a[0] && (a + b)[1..] == a[1..] + b;
      WhereAppend(a[1..], b, p);
      var head := if p(a[0]) then [a[0]] else [];
      calc {
        Where(a + b, p);
        head + Where(a[1..] + b, p);
        head + (Where(a[1..], p) + Where(b, p));
        (head + Where(a[1..], p)) + Where(b, p);
        Where(a, p) + Where(b, p);
      }
    }
  }

  /** Summing over the rows `Where` returns is summing under the filter. */
  lemma {:induction false} TotalOfWhere(ledger: seq<Invoice>, p: Invoice -> bool)
    ensures Total(Where(ledger, p)) == SumWhere(ledger, p)
  {
    if ledger != [] {
      TotalOfWhere(ledger[1..], p);
      var head := if p(ledger[0]) then [ledger[0]] else [];
      TotalAppend(head, Where(ledger[1..], p));
    }
  }

  lemma {:induction false} TotalAppend(a: seq<Invoice>, b: seq<Invoice>)
    ensures Total(a + b) == Total(a) + Total(b)
  {
    if a == [] {
      assert a + b == b;
    } else {
      assert (a + b)[0] == a[0] && (a + b)[1..] == a[1..] + b;
      TotalAppend(a[1..], b);
    }
  }

  /** Counting or summing the rows `Where(ledger, p)` returns under `q` is counting or summing the ledger under `r` = p and q. */
  lemma {:induction false} WhereThenFilter(ledger: seq<Invoice>, p: Invoice -> bool, q: Invoice -> bool, r: Invoice -> bool)
    requires forall i :: 0 <= i < |ledger| ==> r(ledger[i]) == (p(ledger[i]) && q(ledger[i]))
    ensures CountWhere(Where(ledger, p), q) == CountWhere(ledger, r)
    ensures SumWhere(Where(ledger, p), q) == SumWhere(ledger, r)
  {
    if ledger != [] {
      WhereThenFilter(ledger[1..], p, q, r);
      var rest := Where(ledger[1..], p);
      if p(ledger[0]) {
        assert Where(ledger, p) == [ledger[0]] + rest;
        assert ([ledger[0]] + rest)[1..] == rest;
      } else {
        assert Where(ledger, p) == rest;
      }
    }
  }

  /** Two filters that agree on every row of the ledger select the same rows, count and sum. */
  lemma {:induction false} FiltersAgree(ledger: seq<Invoice>, p: Invoice -> bool, q: Invoice -> bool)
    requires forall i :: 0 <= i < |ledger| ==> p(ledger[i]) == q(ledger[i])
    ensures Where(ledger, p) == Where(ledger, q)
    ensures CountWhere(ledger, p) == CountWhere(ledger, q)
    ensures SumWhere(ledger, p) == SumWhere(ledger, q)
  {
    if ledger != [] {
      FiltersAgree(ledger[1..], p, q);
    }
  }

  /** A filter that implies another selects no more rows. */
  lemma {:induction false} CountMonotone(ledger: seq<Invoice>, p: Invoice -> bool, q: Invoice -> bool)
    requires forall i :: 0 <= i < |ledger| ==> p(ledger[i]) ==> q(ledger[i])
    ensures CountWhere(ledger, p) <= CountWhere(ledger, q)
  {
    if ledger != [] {
      CountMonotone(ledger[1..], p, q);
    }
  }

  /** Counts and sums under two disjoint filters add up to those under their union `r`. */
  lemma {:induction false} DisjointUnion(ledger: seq<Invoice>, p: Invoice -> bool, q: Invoice -> bool, r: Invoice -> bool)
    requires forall i :: 0 <= i < |ledger| ==> !(p(ledger[i]) && q(ledger[i]))
    requires forall i :: 0 <= i < |ledger| ==> r(ledger[i]) == (p(ledger[i]) || q(ledger[i]))
    ensures CountWhere(ledger, r) == CountWhere(ledger, p) + CountWhere(ledger, q)
    ensures SumWhere(ledger, r) == SumWhere(ledger, p) + SumWhere(ledger, q)
  {
    if ledger != [] {
      DisjointUnion(ledger[1..], p, q, r);
    }
  }

  /** The filter that accepts every row counts every row. */
  lemma {:induction false} CountAll(ledger: seq<Invoice>)
    ensures CountWhere(ledger, AnyRow) == |ledger|
  {
    if ledger != [] {
      CountAll(ledger[1..]);
    }
  }
}
