/**
 * GET /invoices: a page of the invoices that match an optional search text
 * (in the invoice number or the vendor's name, ignoring case) and an optional
 * exact status, sorted by one field, with the page, the limit, the total
 * number of matches and the number of pages. GET /invoices/:id: one invoice,
 * or "Invoice not found".
 */
module Invoices {
  import opened Ledger
  import opened Ordering
  import opened Text

  datatype Result<T, E> = Ok(value: T) | Err(error: E)

  /** The query string, with `page` and `limit` already read as integers; absent parameters are None. */
  datatype Query = Query(
    page: Option<int>,
    limit: Option<int>,
    search: Option<string>,
    status: Option<string>,
    sortBy: Option<string>,
    sortOrder: Option<string>)

  /** The parameters after the destructuring defaults. */
  datatype Params = Params(page: int, limit: int, search: string, status: string, sortBy: string, sortOrder: string)

  function Or<T>(x: Option<T>, default: T): (r: T)
    ensures x.None? ==> r == default
    ensures x.Some? ==> r == x.value
  {
    match x
    case None => default
    case Some(v) => v
  }

  /** Page 1, limit 10, no search, no status, newest invoice date first. */
  function WithDefaults(q: Query): (p: Params)
    ensures q.page.None? ==> p.page == 1
    ensures q.limit.None? ==> p.limit == 10
    ensures q.search.None? ==> p.search == ""
    ensures q.status.None? ==> p.status == ""
    ensures q.sortBy.None? ==> p.sortBy == "invoiceDate"
    ensures q.sortOrder.None? ==> p.sortOrder == "desc"
    ensures q.page.Some? ==> p.page == q.page.value
    ensures q.limit.Some? ==> p.limit == q.limit.value
    ensures q.search.Some? ==> p.search == q.search.value
    ensures q.status.Some? ==> p.status == q.status.value
    ensures q.sortBy.Some? ==> p.sortBy == q.sortBy.value
    ensures q.sortOrder.Some? ==> p.sortOrder == q.sortOrder.value
  {
    Params(
      Or(q.page, 1), Or(q.limit, 10), Or(q.search, ""), Or(q.status, ""),
      Or(q.sortBy, "invoiceDate"), Or(q.sortOrder, "desc"))
  }

  /** The `where` object: an OR of two case-insensitive `contains`, and an exact status. */
  datatype InvoiceWhere = InvoiceWhere(orSearch: Option<string>, status: Option<string>)

  /** Whether an invoice, whose vendor has the given name, satisfies a `where` object. */
  predicate Matches(w: InvoiceWhere, vendorName: string, inv: Invoice) {
    && (w.orSearch.None?
        || ContainsIgnoringCase(inv.invoiceNumber, w.orSearch.value)
        || ContainsIgnoringCase(vendorName, w.orSearch.value))
    && (w.status.None? || inv.status == w.status.value)
  }

  /**
   * What the search and status parameters select: with a non-empty search,
   * invoices whose number or vendor name contains it ignoring case; with a
   * non-empty status, invoices with exactly that status.
   */
  predicate Selected(search: string, status: string, vendorName: string, inv: Invoice) {
    && (search != "" ==> ContainsIgnoringCase(inv.invoiceNumber, search) || ContainsIgnoringCase(vendorName, search))
    && (status != "" ==> inv.status == status)
  }

  /** The `where` object built field by field, as the handler does. */
  method BuildWhere(search: string, status: string) returns (w: InvoiceWhere)
    ensures forall vendorName, inv :: Matches(w, vendorName, inv) <==> Selected(search, status, vendorName, inv)
  {
    w := InvoiceWhere(None, None);
    if search != "" {
      w := w.(orSearch := Some(search));
    }
    if status != "" {
      w := w.(status := Some(status));
    }
  }

  /** The invoice's vendor name; a dangling vendor id has no name to match. */
  function VendorNameOf(db: Db, inv: Invoice): string {
    if inv.vendorId in db.vendors then db.vendors[inv.vendorId].name else ""
  }

  /** The `where` object as a filter on the invoice table. */
  function WhereFilter(db: Db, w: InvoiceWhere): Invoice -> bool {
    (inv: Invoice) => Matches(w, VendorNameOf(db, inv), inv)
  }

  /** The parameters' selection as a filter on the invoice table. */
  function ListFilter(db: Db, search: string, status: string): Invoice -> bool {
    (inv: Invoice) => Selected(search, status, VendorNameOf(db, inv), inv)
  }

  /** The fields `sortBy` may name. */
  datatype SortField = InvoiceDate | TotalAmount

  function SortFieldOf(name: string): (f: Option<SortField>)
    ensures f.Some? <==> name == "invoiceDate" || name == "totalAmount"
  {
    if name == "invoiceDate" then Some(InvoiceDate)
    else if name == "totalAmount" then Some(TotalAmount)
    else None
  }

  function FieldValue(f: SortField, inv: Invoice): real {
    match f
    case InvoiceDate => inv.invoiceDate as real
    case TotalAmount => inv.totalAmount
  }

  /** The key the sort puts largest first: the field for "desc", its negation for "asc". */
  function SortKey(f: SortField, descending: bool): Invoice -> real {
    (inv: Invoice) => if descending then FieldValue(f, inv) else -FieldValue(f, inv)
  }

  /** `orderBy: { [sortBy]: sortOrder }`. */
  function SortRows(rows: seq<Invoice>, f: SortField, descending: bool): seq<Invoice> {
    SortDesc(rows, SortKey(f, descending))
  }

  /** The sorted rows are the same rows, ordered by the field in the requested direction. */
  lemma SortRowsMeaning(rows: seq<Invoice>, f: SortField, descending: bool)
    ensures multiset(SortRows(rows, f, descending)) == multiset(rows)
    ensures descending ==> forall i, j :: 0 <= i < j < |rows| ==>
      FieldValue(f, SortRows(rows, f, descending)[j]) <= FieldValue(f, SortRows(rows, f, descending)[i])
    ensures !descending ==> forall i, j :: 0 <= i < j < |rows| ==>
      FieldValue(f, SortRows(rows, f, descending)[i]) <= FieldValue(f, SortRows(rows, f, descending)[j])
  {
    var sorted := SortRows(rows, f, descending);
    forall i, j | 0 <= i < j < |rows|
      ensures SortKey(f, descending)(sorted[j]) <= SortKey(f, descending)(sorted[i])
    {
    }
  }

  /** `skip` and `take`: at most `take` rows, starting after the first `skip`. */
  function PageOf(rows: seq<Invoice>, skip: nat, take: nat): (r: seq<Invoice>)
    ensures |r| <= take
    ensures |r| == if skip >= |rows| then 0 else if take <= |rows| - skip then take else |rows| - skip
    ensures forall i :: 0 <= i < |r| ==> skip + i < |rows| && r[i] == rows[skip + i]
  {
    if skip >= |rows| then []
    else if take <= |rows| - skip then rows[skip..skip + take]
    else rows[skip..]
  }

  /** One row of the response. */
  datatype InvoiceRow = InvoiceRow(
    id: string,
    invoiceNumber: string,
    vendor: string,
    date: int,
    dueDate: Option<int>,
    amount: real,
    status: string,
    category: Option<string>,
    currency: string)

  /** The fields of one invoice, with `vendor` its vendor's name. */
  function ToRow(db: Db, inv: Invoice): InvoiceRow {
    InvoiceRow(
      inv.id, inv.invoiceNumber, VendorNameOf(db, inv), inv.invoiceDate, inv.dueDate,
      inv.totalAmount, inv.status, inv.category, inv.currency)
  }

  /** The row `map`: one row per invoice, in query order. */
  function MapRows(db: Db, invoices: seq<Invoice>): (rows: seq<InvoiceRow>)
    ensures |rows| == |invoices|
    ensures forall i :: 0 <= i < |rows| ==> rows[i] == ToRow(db, invoices[i])
  {
    seq(|invoices|, i requires 0 <= i < |invoices| => ToRow(db, invoices[i]))
  }

  datatype Pagination = Pagination(page: int, limit: int, total: nat, totalPages: nat)

  datatype InvoicePage = InvoicePage(data: seq<InvoiceRow>, pagination: Pagination)

  /** `Math.ceil(total / limit)` for a positive limit: the fewest pages of `limit` rows that hold `total` rows. */
  function PageCount(total: nat, limit: int): (n: nat)
    requires limit >= 1
    ensures n * limit >= total
    ensures n > 0 ==> (n - 1) * limit < total
    ensures total == 0 <==> n == 0
  {
    var q := (total + limit - 1) / limit;
    var r := (total + limit - 1) % limit;
    assert total + limit - 1 == q * limit + r && 0 <= r < limit;
    assert (q - 1) * limit == q * limit - limit;
    q
  }

  /**
   * Why a request fails. Prisma rejects a negative `skip` (page < 1), an
   * unknown sort field and a sort order other than "asc"/"desc"; a limit
   * below 1 is outside the model.
   */
  datatype ListError = NonPositiveLimit | NegativeSkip | UnsupportedSort(field: string) | InvalidSortOrder(order: string)

  /** `(pageNum - 1) * limitNum`, which is not negative for a page and a limit of at least 1. */
  function Skip(page: int, limit: int): (n: nat)
    requires page >= 1 && limit >= 1
  {
    MultiplyMonotone(0, page - 1, limit);
    (page - 1) * limit
  }

  /** The rows the request selects, sorted: the query before paging. */
  function Selection(db: Db, p: Params, f: SortField): seq<Invoice> {
    SortRows(Where(db.invoices, ListFilter(db, p.search, p.status)), f, p.sortOrder == "desc")
  }

  /** The handler: defaults, `where`, paged query and count, row map and pagination. */
  method ListInvoices(db: Db, q: Query) returns (r: Result<InvoicePage, ListError>)
    ensures var p := WithDefaults(q);
      && (r == Err(NonPositiveLimit) <==> p.limit < 1)
      && (r == Err(NegativeSkip) <==> p.limit >= 1 && p.page < 1)
      && (r.Err? && r.error.UnsupportedSort? <==> p.limit >= 1 && p.page >= 1 && SortFieldOf(p.sortBy).None?)
      && (r.Err? && r.error.InvalidSortOrder? <==>
            p.limit >= 1 && p.page >= 1 && SortFieldOf(p.sortBy).Some? && p.sortOrder != "asc" && p.sortOrder != "desc")
    ensures r.Ok? ==>
      var p := WithDefaults(q);
      var total := CountWhere(db.invoices, ListFilter(db, p.search, p.status));
      && p.page >= 1 && p.limit >= 1 && SortFieldOf(p.sortBy).Some?
      && r.value.pagination == Pagination(p.page, p.limit, total, PageCount(total, p.limit))
      && |r.value.data| <= p.limit
      && r.value.data == MapRows(db, PageOf(Selection(db, p, SortFieldOf(p.sortBy).value), Skip(p.page, p.limit), p.limit))
  {
    var p := WithDefaults(q);
    if p.limit < 1 {
      return Err(NonPositiveLimit);
    }
    if p.page < 1 {
      // (pageNum - 1) * limitNum is negative exactly here
      return Err(NegativeSkip);
    }
    var skip := Skip(p.page, p.limit);
    var field := SortFieldOf(p.sortBy);
    if field.None? {
      return Err(UnsupportedSort(p.sortBy));
    }
    if p.sortOrder != "asc" && p.sortOrder != "desc" {
      return Err(InvalidSortOrder(p.sortOrder));
    }
    var w := BuildWhere(p.search, p.status);
    forall i | 0 <= i < |db.invoices|
      ensures WhereFilter(db, w)(db.invoices[i]) == ListFilter(db, p.search, p.status)(db.invoices[i])
    {
    }
    FiltersAgree(db.invoices, WhereFilter(db, w), ListFilter(db, p.search, p.status));
    var matching := Where(db.invoices, WhereFilter(db, w));
    var total := CountWhere(db.invoices, WhereFilter(db, w));
    var invoices := PageOf(SortRows(matching, field.value, p.sortOrder == "desc"), skip, p.limit);
    var data := MapRows(db, invoices);
    r := Ok(InvoicePage(data, Pagination(p.page, p.limit, total, PageCount(total, p.limit))));
  }

  /** Every listed invoice is an invoice of the table that the search and status select. */
  lemma SelectionInLedger(db: Db, p: Params, f: SortField, skip: nat, take: nat)
    requires ReferencesResolve(db)
    ensures forall x :: x in PageOf(Selection(db, p, f), skip, take) ==>
      && x in db.invoices
      && x.vendorId in db.vendors
      && ToRow(db, x).vendor == db.vendors[x.vendorId].name
      && Selected(p.search, p.status, VendorNameOf(db, x), x)
  {
    var sel := Where(db.invoices, ListFilter(db, p.search, p.status));
    var sorted := Selection(db, p, f);
    SameElements(sorted, sel);
    var page := PageOf(sorted, skip, take);
    forall x | x in page
      ensures x in db.invoices && x.vendorId in db.vendors && Selected(p.search, p.status, VendorNameOf(db, x), x)
    {
      var k :| 0 <= k < |page| && page[k] == x;
      assert x == sorted[skip + k];
      assert x in sel;
      var j :| 0 <= j < |db.invoices| && db.invoices[j] == x;
    }
  }

  /**
   * Each listed row: with a non-empty status it has exactly that status, and
   * with a non-empty search its invoice number or vendor name contains the
   * search text ignoring case.
   */
  lemma ListedRowsMatch(db: Db, p: Params, f: SortField, skip: nat, take: nat)
    requires ReferencesResolve(db)
    ensures var page := PageOf(Selection(db, p, f), skip, take);
      forall i :: 0 <= i < |page| ==>
        && page[i].vendorId in db.vendors
        && (p.status != "" ==> ToRow(db, page[i]).status == p.status)
        && (p.search != "" ==>
              ContainsIgnoringCase(ToRow(db, page[i]).invoiceNumber, p.search)
              || ContainsIgnoringCase(ToRow(db, page[i]).vendor, p.search))
  {
    SelectionInLedger(db, p, f, skip, take);
    var page := PageOf(Selection(db, p, f), skip, take);
    forall i | 0 <= i < |page|
      ensures page[i] in page
    {
    }
  }

  /** The whole selection, before paging, holds exactly `total` rows and every selected invoice. */
  lemma SelectionIsComplete(db: Db, p: Params, f: SortField)
    ensures |Selection(db, p, f)| == CountWhere(db.invoices, ListFilter(db, p.search, p.status))
    ensures forall x :: x in db.invoices && Selected(p.search, p.status, VendorNameOf(db, x), x) ==> x in Selection(db, p, f)
  {
    var sel := Where(db.invoices, ListFilter(db, p.search, p.status));
    SameElements(Selection(db, p, f), sel);
    forall x | x in db.invoices && Selected(p.search, p.status, VendorNameOf(db, x), x)
      ensures x in sel
    {
      assert ListFilter(db, p.search, p.status)(x);
    }
  }

  /** A page past the last one is empty, and every page up to the last one has a row. */
  lemma PagesUpToTotal(rows: seq<Invoice>, page: int, limit: int)
    requires page >= 1 && limit >= 1
    ensures PageOf(rows, Skip(page, limit), limit) == [] <==> page > PageCount(|rows|, limit)
  {
    var n := PageCount(|rows|, limit);
    if page > n {
      MultiplyMonotone(n, page - 1, limit);
    } else {
      MultiplyMonotone(page - 1, n - 1, limit);
    }
  }

  lemma MultiplyMonotone(a: int, b: int, c: nat)
    requires a <= b
    ensures a * c <= b * c
  {
  }

  /** `findUnique({ where: { id } })`. */
  datatype NotFound = InvoiceNotFound

  function FindInvoice(ledger: seq<Invoice>, id: string): (r: Result<Invoice, NotFound>)
    ensures r.Err? <==> forall i :: 0 <= i < |ledger| ==> ledger[i].id != id
    ensures r.Ok? ==> r.value in ledger && r.value.id == id
  {
    if ledger == [] then Err(InvoiceNotFound)
    else if ledger[0].id == id then Ok(ledger[0])
    else FindInvoice(ledger[1..], id)
  }

  /** With the primary key unique, the invoice found is the one with that id. */
  lemma FindInvoiceUnique(ledger: seq<Invoice>, id: string, k: int)
    requires forall i, j :: 0 <= i < j < |ledger| ==> ledger[i].id != ledger[j].id
    requires 0 <= k < |ledger| && ledger[k].id == id
    ensures FindInvoice(ledger, id) == Ok(ledger[k])
  {
    var r := FindInvoice(ledger, id);
    var j :| 0 <= j < |ledger| && ledger[j] == r.value;
  }
}
