/**
 * GET /vendors/top10: invoices grouped by vendor, ordered by their summed
 * amount (largest first), the first ten kept, and each group mapped to the
 * vendor's name (or "Unknown"), its spend and its all-time invoice count.
 */
module Vendors {
  import opened Ledger
  import opened Grouping
  import opened Ordering

  /** `take: 10`. */
  const TOP_COUNT: nat := 10

  datatype VendorRank = VendorRank(vendorName: string, totalSpend: real, invoiceCount: nat)

  /** The grouping field `vendorId`. */
  function VendorOf(inv: Invoice): string {
    inv.vendorId
  }

  /** The ordering field `_sum.totalAmount`. */
  function SumOf(g: Group<string>): real {
    g.sum
  }

  /** The first n elements, or all of them when there are fewer. */
  function Take<T>(s: seq<T>, n: nat): (r: seq<T>)
    ensures |r| == if |s| <= n then |s| else n
    ensures |s| <= n ==> r == s
    ensures r == s[..|r|]
  {
    if |s| <= n then s else s[..n]
  }

  /** `groupBy` by vendor, `orderBy` the sum descending, `take: 10`. */
  function RankedGroups(ledger: seq<Invoice>): seq<Group<string>> {
    Take(SortDesc(GroupSums(ledger, VendorOf), SumOf), TOP_COUNT)
  }

  /** `vendor?.name || "Unknown"`: a missing vendor and an empty name both give "Unknown". */
  function VendorName(vendors: map<string, Vendor>, id: string): (name: string)
    ensures id in vendors && vendors[id].name != "" ==> name == vendors[id].name
    ensures id !in vendors || vendors[id].name == "" ==> name == "Unknown"
  {
    if id in vendors && vendors[id].name != "" then vendors[id].name else "Unknown"
  }

  /** The response entry for one group. */
  function Detail(db: Db, g: Group<string>): VendorRank {
    VendorRank(
      VendorName(db.vendors, g.key),
      OrZero(Some(g.sum)),
      CountWhere(db.invoices, KeyIs(VendorOf, g.key)))
  }

  /** The response: the ranked groups mapped in place, keeping their positions. */
  function TopVendors(db: Db): (r: seq<VendorRank>)
    ensures |r| == |RankedGroups(db.invoices)| <= TOP_COUNT
    ensures forall i :: 0 <= i < |r| ==> r[i] == Detail(db, RankedGroups(db.invoices)[i])
  {
    var ranked := RankedGroups(db.invoices);
    seq(|ranked|, i requires 0 <= i < |ranked| => Detail(db, ranked[i]))
  }

  /** Every ranked group is a group of `groupBy`: a vendor of the ledger with that vendor's summed amount. */
  lemma RankedGroupsAreVendors(ledger: seq<Invoice>)
    ensures forall i :: 0 <= i < |RankedGroups(ledger)| ==>
      && RankedGroups(ledger)[i] in GroupSums(ledger, VendorOf)
      && RankedGroups(ledger)[i].sum == SumWhere(ledger, KeyIs(VendorOf, RankedGroups(ledger)[i].key))
      && exists j :: 0 <= j < |ledger| && ledger[j].vendorId == RankedGroups(ledger)[i].key
  {
    var gs := GroupSums(ledger, VendorOf);
    var sorted := SortDesc(gs, SumOf);
    var ranked := RankedGroups(ledger);
    SameElements(sorted, gs);
    forall i | 0 <= i < |ranked|
      ensures ranked[i] in gs
      ensures ranked[i].sum == SumWhere(ledger, KeyIs(VendorOf, ranked[i].key))
      ensures exists j :: 0 <= j < |ledger| && ledger[j].vendorId == ranked[i].key
    {
      var g := ranked[i];
      assert g == sorted[i];
      assert g in sorted;
      var n :| 0 <= n < |gs| && gs[n] == g;
      assert KeysOfGroups(gs)[n] == g.key;
      assert g.key in KeysOfGroups(gs);
    }
  }

  /** Each entry's spend is its vendor's summed amount and its count that vendor's invoice count, never 0. */
  lemma EntryValues(db: Db)
    ensures var ranked := RankedGroups(db.invoices);
      forall i :: 0 <= i < |TopVendors(db)| ==>
        && TopVendors(db)[i].vendorName == VendorName(db.vendors, ranked[i].key)
        && TopVendors(db)[i].totalSpend == SumWhere(db.invoices, KeyIs(VendorOf, ranked[i].key))
        && TopVendors(db)[i].invoiceCount == CountWhere(db.invoices, KeyIs(VendorOf, ranked[i].key))
        && TopVendors(db)[i].invoiceCount >= 1
  {
    RankedGroupsAreVendors(db.invoices);
    var ranked := RankedGroups(db.invoices);
    forall i | 0 <= i < |TopVendors(db)|
      ensures TopVendors(db)[i].invoiceCount >= 1
    {
      var j :| 0 <= j < |db.invoices| && db.invoices[j].vendorId == ranked[i].key;
      assert KeyIs(VendorOf, ranked[i].key)(db.invoices[j]);
    }
  }

  /** The response holds ten entries, or one per vendor of the ledger when there are fewer. */
  lemma TopVendorsCount(db: Db)
    ensures var groups := |GroupSums(db.invoices, VendorOf)|;
      |TopVendors(db)| == if groups <= TOP_COUNT then groups else TOP_COUNT
  {
    var sorted := SortDesc(GroupSums(db.invoices, VendorOf), SumOf);
    assert |RankedGroups(db.invoices)| == |Take(sorted, TOP_COUNT)|;
  }

  /** The entries come largest spend first. */
  lemma TopVendorsOrdered(db: Db)
    ensures forall i, j :: 0 <= i < j < |TopVendors(db)| ==> TopVendors(db)[j].totalSpend <= TopVendors(db)[i].totalSpend
  {
    var sorted := SortDesc(GroupSums(db.invoices, VendorOf), SumOf);
    forall i, j | 0 <= i < j < |TopVendors(db)|
      ensures TopVendors(db)[j].totalSpend <= TopVendors(db)[i].totalSpend
    {
      assert SumOf(sorted[j]) <= SumOf(sorted[i]);
    }
  }

  /** A vendor left out of the ranking has spent no more than any vendor in it. */
  lemma LeftOutSpendsNoMore(ledger: seq<Invoice>, g: Group<string>)
    requires g in GroupSums(ledger, VendorOf) && g !in RankedGroups(ledger)
    ensures forall h :: h in RankedGroups(ledger) ==> g.sum <= h.sum
  {
    var gs := GroupSums(ledger, VendorOf);
    var sorted := SortDesc(gs, SumOf);
    SameElements(sorted, gs);
    var n :| 0 <= n < |sorted| && sorted[n] == g;
    var ranked := RankedGroups(ledger);
    assert n >= |ranked|;
    forall h | h in ranked
      ensures g.sum <= h.sum
    {
      var i :| 0 <= i < |ranked| && ranked[i] == h;
      assert SumOf(sorted[n]) <= SumOf(sorted[i]);
    }
  }

  /** With ten vendors or fewer, every vendor of the ledger is ranked. */
  lemma FewVendorsAllRanked(ledger: seq<Invoice>)
    requires |GroupSums(ledger, VendorOf)| <= TOP_COUNT
    ensures forall g :: g in GroupSums(ledger, VendorOf) ==> g in RankedGroups(ledger)
  {
    var gs := GroupSums(ledger, VendorOf);
    SameElements(SortDesc(gs, SumOf), gs);
  }

  /** An empty ledger ranks no vendor. */
  lemma NoInvoicesNoVendors(db: Db)
    requires db.invoices == []
    ensures TopVendors(db) == []
  {
  }
}
