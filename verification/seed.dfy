/**
 * The seeding script: each extracted document becomes one vendor (shared by
 * name), one invoice and its line items, or is skipped. The store is
 * append-only; record ids are positions in their sequence. Document text is
 * kept as text: parsing date strings is outside the model.
 */
module Seed {
  import opened Ledger
  import opened Text

  /** One extracted line item; absent leaves are None. */
  datatype ItemDoc = ItemDoc(description: Option<string>, quantity: Option<real>, unitPrice: Option<real>, totalAmount: Option<real>)

  /** The `llmData` of a document, with its nested `value` wrappers flattened. */
  datatype LlmData = LlmData(
    invoiceId: Option<string>,
    invoiceDate: Option<string>,
    vendorName: Option<string>,
    vendorAddress: Option<string>,
    vendorTaxId: Option<string>,
    dueDate: Option<string>,
    paymentTerms: Option<string>,
    lineItems: Option<seq<ItemDoc>>,
    subtotal: Option<real>,
    taxAmount: Option<real>,
    totalAmount: Option<real>,
    currency: Option<string>)

  datatype Doc = Doc(llmData: Option<LlmData>, status: Option<string>)

  datatype VendorRecord = VendorRecord(name: string, address: Option<string>, taxId: Option<string>)

  datatype InvoiceRecord = InvoiceRecord(
    invoiceNumber: string,
    vendorId: nat,
    invoiceDate: string,
    dueDate: Option<string>,
    subtotal: real,
    taxAmount: real,
    totalAmount: real,
    status: string,
    currency: string,
    paymentTerms: Option<string>,
    category: Option<string>)

  datatype LineItemRecord = LineItemRecord(invoiceId: nat, description: string, quantity: real, unitPrice: real, amount: real)

  /** The store and the script's own variables after some documents. */
  datatype SeedState = SeedState(
    vendors: seq<VendorRecord>,
    vendorMap: map<string, nat>,
    invoices: seq<InvoiceRecord>,
    lineItems: seq<LineItemRecord>,
    successCount: nat,
    skipCount: nat)

  /** A text leaf that JavaScript treats as true: present and not empty. */
  predicate Truthy(x: Option<string>) {
    x.Some? && x.value != ""
  }

  /** `x || fallback` on a text leaf. */
  function TextOr(x: Option<string>, fallback: string): string {
    if Truthy(x) then x.value else fallback
  }

  /** `x || null` on a text leaf. */
  function TextOrNull(x: Option<string>): Option<string> {
    if Truthy(x) then x else None
  }

  /** `x || fallback` on a number leaf: absent and 0 give the fallback. */
  function NumberOr(x: Option<real>, fallback: real): real {
    if x.Some? && x.value != 0.0 then x.value else fallback
  }

  /** A document is stored when it has `llmData` with a non-empty invoice date; otherwise it is skipped. */
  predicate Accepts(doc: Doc) {
    doc.llmData.Some? && Truthy(doc.llmData.value.invoiceDate)
  }

  /** The vendor name, "Unknown Vendor" when absent or empty. */
  function VendorNameFor(llm: LlmData): string {
    TextOr(llm.vendorName, "Unknown Vendor")
  }

  /** `${invoiceId || "INV-" + (index + 1)}-${index + 1}`. */
  function InvoiceNumber(llm: LlmData, index: nat): string {
    TextOr(llm.invoiceId, "INV-" + NatToString(index + 1)) + "-" + NatToString(index + 1)
  }

  /** The invoice record of an accepted document. */
  function RecordFor(doc: Doc, index: nat, vendorId: nat): (r: InvoiceRecord)
    requires Accepts(doc)
    ensures r.invoiceDate == doc.llmData.value.invoiceDate.value && r.invoiceDate != ""
    ensures r.status == "paid" <==> doc.status == Some("processed")
    ensures r.status in {"paid", "pending"}
    ensures r.category == None
    ensures r.dueDate == None <==> !Truthy(doc.llmData.value.dueDate)
    ensures r.subtotal == (if doc.llmData.value.subtotal.Some? then doc.llmData.value.subtotal.value else 0.0)
    ensures r.taxAmount == (if doc.llmData.value.taxAmount.Some? then doc.llmData.value.taxAmount.value else 0.0)
    ensures doc.llmData.value.totalAmount == None || doc.llmData.value.totalAmount == Some(0.0) ==>
      r.totalAmount == r.subtotal + r.taxAmount
    ensures doc.llmData.value.totalAmount.Some? && doc.llmData.value.totalAmount.value != 0.0 ==>
      r.totalAmount == doc.llmData.value.totalAmount.value
    ensures r.currency == (if Truthy(doc.llmData.value.currency) then doc.llmData.value.currency.value else "EUR")
  {
    var llm := doc.llmData.value;
    var subtotal := NumberOr(llm.subtotal, 0.0);
    var taxAmount := NumberOr(llm.taxAmount, 0.0);
    InvoiceRecord(
      InvoiceNumber(llm, index),
      vendorId,
      llm.invoiceDate.value,
      TextOrNull(llm.dueDate),
      subtotal,
      taxAmount,
      NumberOr(llm.totalAmount, subtotal + taxAmount),
      if doc.status == Some("processed") then "paid" else "pending",
      TextOr(llm.currency, "EUR"),
      TextOrNull(llm.paymentTerms),
      None)
  }

  /** The line item of an extracted item. */
  function ItemRecord(invoiceId: nat, item: ItemDoc): (r: LineItemRecord)
    requires Truthy(item.description)
    ensures item.quantity == None || item.quantity == Some(0.0) ==> r.quantity == 1.0
    ensures item.quantity.Some? && item.quantity.value != 0.0 ==> r.quantity == item.quantity.value
    ensures r.unitPrice == (if item.unitPrice.Some? then item.unitPrice.value else 0.0)
    ensures r.amount == (if item.totalAmount.Some? then item.totalAmount.value else 0.0)
  {
    LineItemRecord(
      invoiceId, item.description.value,
      NumberOr(item.quantity, 1.0), NumberOr(item.unitPrice, 0.0), NumberOr(item.totalAmount, 0.0))
  }

  /** The line items of one invoice: one per extracted item with a non-empty description, in order. */
  function ItemsFor(invoiceId: nat, items: seq<ItemDoc>): (r: seq<LineItemRecord>)
    ensures |r| == Described(items)
    ensures forall j :: 0 <= j < |r| ==> r[j].invoiceId == invoiceId && r[j].description != ""
    ensures (forall j :: 0 <= j < |items| ==> Truthy(items[j].description)) ==>
      forall j :: 0 <= j < |items| ==> r[j] == ItemRecord(invoiceId, items[j])
  {
    if items == [] then []
    else
      var init := ItemsFor(invoiceId, items[..|items| - 1]);
      var last := items[|items| - 1];
      if Truthy(last.description) then init + [ItemRecord(invoiceId, last)] else init
  }

  /**
   * Every item with a non-empty description becomes, in order, the line item at the position given
   * by the number of described items before it; with the length clause of `ItemsFor` this says the
   * line items are exactly the described items, mapped by `ItemRecord`.
   */
  lemma {:induction false} ItemsForContents(invoiceId: nat, items: seq<ItemDoc>)
    ensures forall j :: 0 <= j < |items| && Truthy(items[j].description) ==>
      && Described(items[..j]) < |ItemsFor(invoiceId, items)|
      && ItemsFor(invoiceId, items)[Described(items[..j])] == ItemRecord(invoiceId, items[j])
  {
    if items != [] {
      var n := |items| - 1;
      var init := items[..n];
      ItemsForContents(invoiceId, init);
      forall j | 0 <= j < |items| && Truthy(items[j].description)
        ensures && Described(items[..j]) < |ItemsFor(invoiceId, items)|
                && ItemsFor(invoiceId, items)[Described(items[..j])] == ItemRecord(invoiceId, items[j])
      {
        if j < n {
          assert init[..j] == items[..j];
          assert init[j] == items[j];
        } else {
          assert items[..j] == init;
        }
      }
    }
  }

  /** The number of items with a non-empty description. */
  function Described(items: seq<ItemDoc>): (n: nat)
    ensures n <= |items|
    ensures (forall j :: 0 <= j < |items| ==> Truthy(items[j].description)) ==> n == |items|
  {
    if items == [] then 0
    else Described(items[..|items| - 1]) + (if Truthy(items[|items| - 1].description) then 1 else 0)
  }

  /** `lineItems?.value || []`. */
  function ItemsOf(llm: LlmData): seq<ItemDoc> {
    if llm.lineItems.Some? then llm.lineItems.value else []
  }

  /** The vendor lookup: the name's existing vendor, or a new vendor row registered under the name. */
  function Register(s: SeedState, llm: LlmData): (t: SeedState)
    ensures VendorNameFor(llm) in t.vendorMap
    ensures t.invoices == s.invoices && t.lineItems == s.lineItems
    ensures t.successCount == s.successCount && t.skipCount == s.skipCount
  {
    var name := VendorNameFor(llm);
    if name in s.vendorMap then s
    else s.(vendors := s.vendors + [VendorRecord(name, TextOrNull(llm.vendorAddress), TextOrNull(llm.vendorTaxId))],
            vendorMap := s.vendorMap[name := |s.vendors|])
  }

  /** One iteration of the document loop. */
  function Step(s: SeedState, doc: Doc, index: nat): SeedState {
    if !Accepts(doc) then s.(skipCount := s.skipCount + 1)
    else
      var llm := doc.llmData.value;
      var t := Register(s, llm);
      t.(invoices := t.invoices + [RecordFor(doc, index, t.vendorMap[VendorNameFor(llm)])],
         lineItems := t.lineItems + ItemsFor(|t.invoices|, ItemsOf(llm)),
         successCount := t.successCount + 1)
  }

  const Empty: SeedState := SeedState([], map[], [], [], 0, 0)

  /** The state after the first n documents. */
  function SeedPrefix(docs: seq<Doc>, n: nat): SeedState
    requires n <= |docs|
  {
    if n == 0 then Empty else Step(SeedPrefix(docs, n - 1), docs[n - 1], n - 1)
  }

  /** The indices of the accepted documents among the first n, in order: invoice i comes from document Sources(docs, n)[i]. */
  function Sources(docs: seq<Doc>, n: nat): (src: seq<nat>)
    requires n <= |docs|
    ensures forall i :: 0 <= i < |src| ==> src[i] < n && Accepts(docs[src[i]])
    ensures forall i, j :: 0 <= i < j < |src| ==> src[i] < src[j]
    ensures forall k :: 0 <= k < n && Accepts(docs[k]) ==> k in src
  {
    if n == 0 then [] else Sources(docs, n - 1) + (if Accepts(docs[n - 1]) then [n - 1] else [])
  }

  /** The script's loop, with the inner loop over line items. */
  method SeedDocuments(docs: seq<Doc>) returns (out: SeedState)
    ensures out == SeedPrefix(docs, |docs|)
    ensures out.successCount + out.skipCount == |docs|
    ensures out.successCount == |out.invoices|
    ensures VendorsConsistent(out)
    ensures forall i, j :: 0 <= i < j < |out.invoices| ==> out.invoices[i].invoiceNumber != out.invoices[j].invoiceNumber
  {
    var vendors: seq<VendorRecord> := [];
    var vendorMap: map<string, nat> := map[];
    var invoices: seq<InvoiceRecord> := [];
    var lineItems: seq<LineItemRecord> := [];
    var successCount, skipCount := 0, 0;
    var index := 0;
    while index < |docs|
      invariant index <= |docs|
      invariant SeedState(vendors, vendorMap, invoices, lineItems, successCount, skipCount) == SeedPrefix(docs, index)
    {
      var doc := docs[index];
      ghost var s := SeedState(vendors, vendorMap, invoices, lineItems, successCount, skipCount);
      if doc.llmData.None? || !Truthy(doc.llmData.value.invoiceDate) {
        skipCount := skipCount + 1;
      } else {
        var llm := doc.llmData.value;
        var vendorName := VendorNameFor(llm);
        if vendorName !in vendorMap {
          vendorMap := vendorMap[vendorName := |vendors|];
          vendors := vendors + [VendorRecord(vendorName, TextOrNull(llm.vendorAddress), TextOrNull(llm.vendorTaxId))];
        }
        ghost var t := Register(s, llm);
        assert vendors == t.vendors && vendorMap == t.vendorMap;
        var invoiceId := |invoices|;
        invoices := invoices + [RecordFor(doc, index, vendorMap[vendorName])];
        var items := ItemsOf(llm);
        lineItems := AppendItems(lineItems, invoiceId, items);
        successCount := successCount + 1;
      }
      index := index + 1;
    }
    out := SeedState(vendors, vendorMap, invoices, lineItems, successCount, skipCount);
    Counters(docs, |docs|);
    VendorMap(docs, |docs|);
    InvoiceNumbersDistinct(docs);
  }

  /** The inner loop: one line item per extracted item with a non-empty description. */
  method AppendItems(lineItems: seq<LineItemRecord>, invoiceId: nat, items: seq<ItemDoc>) returns (r: seq<LineItemRecord>)
    ensures r == lineItems + ItemsFor(invoiceId, items)
  {
    r := lineItems;
    var k := 0;
    while k < |items|
      invariant k <= |items|
      invariant r == lineItems + ItemsFor(invoiceId, items[..k])
    {
      assert items[..k + 1][..k] == items[..k];
      if Truthy(items[k].description) {
        r := r + [ItemRecord(invoiceId, items[k])];
      }
      k := k + 1;
    }
    assert items[..k] == items;
  }

  /** Every document adds one to exactly one counter, and every success stores one invoice. */
  lemma {:induction false} Counters(docs: seq<Doc>, n: nat)
    requires n <= |docs|
    ensures SeedPrefix(docs, n).successCount + SeedPrefix(docs, n).skipCount == n
    ensures SeedPrefix(docs, n).successCount == |SeedPrefix(docs, n).invoices| == |Sources(docs, n)|
  {
    if n > 0 {
      Counters(docs, n - 1);
    }
  }

  /**
   * The vendor map: one vendor per distinct name of the accepted documents
   * seen so far, the map's size equal to the number of vendors created, and
   * each name mapped to the vendor row with that name.
   */
  predicate VendorsConsistent(s: SeedState) {
    && |s.vendorMap| == |s.vendors|
    && (forall name :: name in s.vendorMap ==> s.vendorMap[name] < |s.vendors| && s.vendors[s.vendorMap[name]].name == name)
    && (forall i :: 0 <= i < |s.vendors| ==> s.vendors[i].name in s.vendorMap && s.vendorMap[s.vendors[i].name] == i)
    && (forall i, j :: 0 <= i < j < |s.vendors| ==> s.vendors[i].name != s.vendors[j].name)
  }

  /** Registering a vendor keeps the vendor map consistent. */
  lemma RegisterKeepsVendors(s: SeedState, llm: LlmData)
    requires VendorsConsistent(s)
    ensures VendorsConsistent(Register(s, llm))
  {
    var name := VendorNameFor(llm);
    if name !in s.vendorMap {
      var vendors := s.vendors + [VendorRecord(name, TextOrNull(llm.vendorAddress), TextOrNull(llm.vendorTaxId))];
      var vendorMap := s.vendorMap[name := |s.vendors|];
      assert Register(s, llm) == s.(vendors := vendors, vendorMap := vendorMap);
      assert |vendorMap| == |s.vendorMap| + 1;
      forall other | other in vendorMap
        ensures vendorMap[other] < |vendors| && vendors[vendorMap[other]].name == other
      {
      }
      forall i | 0 <= i < |vendors|
        ensures vendors[i].name in vendorMap && vendorMap[vendors[i].name] == i
      {
        if i < |s.vendors| {
          assert vendors[i].name in s.vendorMap;
        }
      }
    }
  }

  lemma StepKeepsVendors(s: SeedState, doc: Doc, index: nat)
    requires VendorsConsistent(s)
    ensures VendorsConsistent(Step(s, doc, index))
  {
    if Accepts(doc) {
      RegisterKeepsVendors(s, doc.llmData.value);
    }
  }

  /** A name seen in document k. */
  predicate NameSeen(docs: seq<Doc>, n: nat, name: string)
    requires n <= |docs|
  {
    exists k :: 0 <= k < n && Accepts(docs[k]) && VendorNameFor(docs[k].llmData.value) == name
  }

  /**
   * One vendor per distinct vendor name among the accepted documents: the
   * map's keys are exactly those names, its size is the number of vendor rows,
   * and each name maps to the row with that name.
   */
  lemma {:induction false} VendorMap(docs: seq<Doc>, n: nat)
    requires n <= |docs|
    ensures VendorsConsistent(SeedPrefix(docs, n))
    ensures forall name :: name in SeedPrefix(docs, n).vendorMap <==> NameSeen(docs, n, name)
  {
    VendorsAt(docs, n);
    VendorNames(docs, n);
  }

  lemma {:induction false} VendorNames(docs: seq<Doc>, n: nat)
    requires n <= |docs|
    ensures forall name :: name in SeedPrefix(docs, n).vendorMap <==> NameSeen(docs, n, name)
  {
    if n > 0 {
      VendorNames(docs, n - 1);
      forall name
        ensures name in SeedPrefix(docs, n).vendorMap <==> NameSeen(docs, n, name)
      {
        NameStep(docs, n, name);
      }
    }
  }

  lemma NameStep(docs: seq<Doc>, n: nat, name: string)
    requires 0 < n <= |docs|
    requires name in SeedPrefix(docs, n - 1).vendorMap <==> NameSeen(docs, n - 1, name)
    ensures name in SeedPrefix(docs, n).vendorMap <==> NameSeen(docs, n, name)
  {
    if NameSeen(docs, n - 1, name) {
      var k :| 0 <= k < n - 1 && Accepts(docs[k]) && VendorNameFor(docs[k].llmData.value) == name;
      assert 0 <= k < n;
    }
    if NameSeen(docs, n, name) && !NameSeen(docs, n - 1, name) {
      var k :| 0 <= k < n && Accepts(docs[k]) && VendorNameFor(docs[k].llmData.value) == name;
      assert k == n - 1;
    }
  }

  /** Each step only appends to the store. */
  lemma StepAppends(s: SeedState, doc: Doc, index: nat)
    ensures var t := Step(s, doc, index);
      && t.vendors[..|s.vendors|] == s.vendors
      && |s.vendors| <= |t.vendors|
      && t.invoices[..|s.invoices|] == s.invoices
      && |s.invoices| <= |t.invoices|
      && t.lineItems[..|s.lineItems|] == s.lineItems
      && |s.lineItems| <= |t.lineItems|
  {
  }

  /** Invoice i is the record of document src[i], and its vendor is the vendor row carrying that document's vendor name. */
  predicate InvoicesMatch(docs: seq<Doc>, src: seq<nat>, s: SeedState)
    requires forall i :: 0 <= i < |src| ==> src[i] < |docs| && Accepts(docs[src[i]])
  {
    && |s.invoices| == |src|
    && forall i :: 0 <= i < |src| ==> InvoiceFrom(docs, src[i], s, i)
  }

  /** Invoice i of s is the record of document k, with the vendor row of that document's vendor name. */
  predicate InvoiceFrom(docs: seq<Doc>, k: nat, s: SeedState, i: nat)
    requires k < |docs| && Accepts(docs[k])
  {
    && i < |s.invoices|
    && s.invoices[i] == RecordFor(docs[k], k, s.invoices[i].vendorId)
    && s.invoices[i].vendorId < |s.vendors|
    && s.vendors[s.invoices[i].vendorId].name == VendorNameFor(docs[k].llmData.value)
  }

  /** The stored invoices are the records of the accepted documents, in document order. */
  lemma {:induction false} InvoicesFromDocuments(docs: seq<Doc>, n: nat)
    requires n <= |docs|
    ensures InvoicesMatch(docs, Sources(docs, n), SeedPrefix(docs, n))
  {
    if n > 0 {
      InvoicesFromDocuments(docs, n - 1);
      VendorsAt(docs, n - 1);
      InvoicesStep(docs, n, SeedPrefix(docs, n - 1), SeedPrefix(docs, n));
    }
  }

  lemma {:induction false} VendorsAt(docs: seq<Doc>, n: nat)
    requires n <= |docs|
    ensures VendorsConsistent(SeedPrefix(docs, n))
  {
    if n > 0 {
      VendorsAt(docs, n - 1);
      StepKeepsVendors(SeedPrefix(docs, n - 1), docs[n - 1], n - 1);
    }
  }

  /** One step keeps the invoices matched to their documents. */
  lemma InvoicesStep(docs: seq<Doc>, n: nat, s: SeedState, t: SeedState)
    requires 0 < n <= |docs|
    requires InvoicesMatch(docs, Sources(docs, n - 1), s) && VendorsConsistent(s)
    requires t == Step(s, docs[n - 1], n - 1)
    ensures InvoicesMatch(docs, Sources(docs, n), t)
  {
    var src, before := Sources(docs, n), Sources(docs, n - 1);
    StepAppends(s, docs[n - 1], n - 1);
    assert src == before + (if Accepts(docs[n - 1]) then [n - 1] else []);
    assert |t.invoices| == |s.invoices| + (if Accepts(docs[n - 1]) then 1 else 0);
    forall i | 0 <= i < |src|
      ensures InvoiceFrom(docs, src[i], t, i)
    {
      if i < |before| {
        assert src[i] == before[i];
        Kept(docs, src[i], s, t, i);
      } else {
        assert Accepts(docs[n - 1]) && i == |s.invoices| && src[i] == n - 1;
        NewInvoice(docs, n, s, t);
      }
    }
  }

  /** An invoice stored before a step keeps its record and its vendor row. */
  lemma Kept(docs: seq<Doc>, k: nat, s: SeedState, t: SeedState, i: nat)
    requires k < |docs| && Accepts(docs[k]) && InvoiceFrom(docs, k, s, i)
    requires |s.invoices| <= |t.invoices| && t.invoices[..|s.invoices|] == s.invoices
    requires |s.vendors| <= |t.vendors| && t.vendors[..|s.vendors|] == s.vendors
    ensures InvoiceFrom(docs, k, t, i)
  {
    assert t.invoices[..|s.invoices|][i] == t.invoices[i];
    assert t.vendors[..|s.vendors|][s.invoices[i].vendorId] == t.vendors[s.invoices[i].vendorId];
  }

  /** The invoice an accepted document adds refers to the vendor row of its vendor name. */
  lemma NewInvoice(docs: seq<Doc>, n: nat, s: SeedState, t: SeedState)
    requires 0 < n <= |docs| && Accepts(docs[n - 1])
    requires VendorsConsistent(s) && t == Step(s, docs[n - 1], n - 1)
    ensures InvoiceFrom(docs, n - 1, t, |s.invoices|)
  {
    RegisterKeepsVendors(s, docs[n - 1].llmData.value);
  }

  /** The text after the last "-" (all of it when there is none). */
  function AfterLastDash(s: string): (r: string)
    ensures Free(r, '-')
  {
    if s == [] || s[|s| - 1] == '-' then []
    else AfterLastDash(s[..|s| - 1]) + [s[|s| - 1]]
  }

  /** Text ending in "-" and a dash-free suffix: the suffix is what follows the last dash. */
  lemma {:induction false} AfterLastDashOf(a: string, d: string)
    requires Free(d, '-')
    ensures AfterLastDash(a + "-" + d) == d
    decreases |d|
  {
    var x := a + "-" + d;
    if d == [] {
      assert x[|x| - 1] == '-';
    } else {
      var init := d[..|d| - 1];
      AfterLastDashOf(a, init);
      assert x[..|x| - 1] == a + "-" + init;
      assert init + [d[|d| - 1]] == d;
    }
  }

  /** Invoice numbers built for different document positions differ, whatever the extracted ids are. */
  lemma InvoiceNumberInjective(l1: LlmData, i: nat, l2: LlmData, j: nat)
    requires InvoiceNumber(l1, i) == InvoiceNumber(l2, j)
    ensures i == j
  {
    var d, e := NatToString(i + 1), NatToString(j + 1);
    assert Free(d, '-') && Free(e, '-') by {
      assert forall k :: 0 <= k < |d| ==> IsDigit(d[k]);
      assert forall k :: 0 <= k < |e| ==> IsDigit(e[k]);
    }
    AfterLastDashOf(TextOr(l1.invoiceId, "INV-" + d), d);
    AfterLastDashOf(TextOr(l2.invoiceId, "INV-" + e), e);
    NatToStringInjective(i + 1, j + 1);
  }

  /** No two stored invoices share an invoice number. */
  lemma InvoiceNumbersDistinct(docs: seq<Doc>)
    ensures var s := SeedPrefix(docs, |docs|);
      forall i, j :: 0 <= i < j < |s.invoices| ==> s.invoices[i].invoiceNumber != s.invoices[j].invoiceNumber
  {
    var s, src := SeedPrefix(docs, |docs|), Sources(docs, |docs|);
    InvoicesFromDocuments(docs, |docs|);
    assert |src| == |s.invoices|;
    forall i, j | 0 <= i < j < |s.invoices|
      ensures s.invoices[i].invoiceNumber != s.invoices[j].invoiceNumber
    {
      if s.invoices[i].invoiceNumber == s.invoices[j].invoiceNumber {
        InvoiceNumberInjective(docs[src[i]].llmData.value, src[i], docs[src[j]].llmData.value, src[j]);
      }
    }
  }

  /** Every line item belongs to a stored invoice and has a non-empty description. */
  predicate ItemsOwned(s: SeedState) {
    forall k :: 0 <= k < |s.lineItems| ==> s.lineItems[k].invoiceId < |s.invoices| && s.lineItems[k].description != ""
  }

  lemma {:induction false} LineItemsBelong(docs: seq<Doc>, n: nat)
    requires n <= |docs|
    ensures ItemsOwned(SeedPrefix(docs, n))
  {
    if n > 0 {
      LineItemsBelong(docs, n - 1);
      var s, u := SeedPrefix(docs, n - 1), SeedPrefix(docs, n);
      var doc := docs[n - 1];
      assert u == Step(s, doc, n - 1);
      StepAppends(s, doc, n - 1);
      var added := if Accepts(doc) then ItemsFor(|s.invoices|, ItemsOf(doc.llmData.value)) else [];
      assert u.lineItems == s.lineItems + added;
      forall k | 0 <= k < |u.lineItems|
        ensures u.lineItems[k].invoiceId < |u.invoices| && u.lineItems[k].description != ""
      {
        if k < |s.lineItems| {
          assert u.lineItems[k] == s.lineItems[k];
          assert s.lineItems[k].invoiceId < |s.invoices| && s.lineItems[k].description != "";
        } else {
          assert u.lineItems[k] == added[k - |s.lineItems|];
          assert added[k - |s.lineItems|].invoiceId == |s.invoices| && added[k - |s.lineItems|].description != "";
          assert |u.invoices| == |s.invoices| + 1;
        }
      }
    }
  }
}
