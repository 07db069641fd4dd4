/**
 * GET /category-spend: invoices whose category is not null, grouped by
 * category, each group mapped to its label and its summed amount.
 * The rows carry no percentage and are not sorted.
 */
module Category {
  import opened Ledger
  import opened Grouping

  datatype CategorySpend = CategorySpend(name: string, value: real)

  /** The grouping field `category`. */
  function CategoryOf(inv: Invoice): Option<string> {
    inv.category
  }

  /** `category: { not: null }`. */
  predicate HasCategory(inv: Invoice) {
    inv.category.Some?
  }

  /** `item.category || "Uncategorized"`: null and the empty string both give "Uncategorized". */
  function Label(category: Option<string>): (name: string)
    ensures category.Some? && category.value != "" ==> name == category.value
    ensures category == None || category == Some("") ==> name == "Uncategorized"
  {
    match category
    case Some(c) => if c != "" then c else "Uncategorized"
    case None => "Uncategorized"
  }

  /** `groupBy({ by: ["category"], _sum, where: { category: { not: null } } })`. */
  function CategoryGroups(ledger: seq<Invoice>): seq<Group<Option<string>>> {
    GroupSums(Where(ledger, HasCategory), CategoryOf)
  }

  /** The response: one row per group, in group order. */
  function CategorySpendRows(ledger: seq<Invoice>): (r: seq<CategorySpend>)
    ensures |r| == |CategoryGroups(ledger)|
    ensures forall i :: 0 <= i < |r| ==>
      r[i] == CategorySpend(Label(CategoryGroups(ledger)[i].key), OrZero(Some(CategoryGroups(ledger)[i].sum)))
  {
    var groups := CategoryGroups(ledger);
    seq(|groups|, i requires 0 <= i < |groups| => CategorySpend(Label(groups[i].key), OrZero(Some(groups[i].sum))))
  }

  /** The filter "the category is exactly c". */
  function CategoryIs(c: string): Invoice -> bool {
    (inv: Invoice) => inv.category == Some(c)
  }

  /** A key has a group exactly when it is a non-null category some invoice carries. */
  lemma GroupKey(ledger: seq<Invoice>, k: Option<string>)
    ensures k in KeysOfGroups(CategoryGroups(ledger)) <==>
      k.Some? && exists i :: 0 <= i < |ledger| && ledger[i].category == k
  {
    var tagged := Where(ledger, HasCategory);
    if k in KeysOfGroups(CategoryGroups(ledger)) {
      var i :| 0 <= i < |tagged| && CategoryOf(tagged[i]) == k;
      assert tagged[i] in tagged;
      var j :| 0 <= j < |ledger| && ledger[j] == tagged[i];
    }
    if k.Some? && exists i :: 0 <= i < |ledger| && ledger[i].category == k {
      var i :| 0 <= i < |ledger| && ledger[i].category == k;
      assert ledger[i] in ledger && HasCategory(ledger[i]);
      var j :| 0 <= j < |tagged| && tagged[j] == ledger[i];
      assert CategoryOf(tagged[j]) == k;
    }
  }

  /**
   * One row per distinct non-null category of the ledger: the groups' keys are
   * distinct, none is null, and a category has a group exactly when some
   * invoice carries it.
   */
  lemma OneGroupPerCategory(ledger: seq<Invoice>)
    ensures Distinct(KeysOfGroups(CategoryGroups(ledger)))
    ensures forall i :: 0 <= i < |CategoryGroups(ledger)| ==> CategoryGroups(ledger)[i].key.Some?
    ensures forall c: string :: Some(c) in KeysOfGroups(CategoryGroups(ledger)) <==>
      exists i :: 0 <= i < |ledger| && ledger[i].category == Some(c)
  {
    var groups := CategoryGroups(ledger);
    forall i | 0 <= i < |groups|
      ensures groups[i].key.Some?
    {
      assert KeysOfGroups(groups)[i] == groups[i].key;
      GroupKey(ledger, groups[i].key);
    }
    forall c: string
      ensures Some(c) in KeysOfGroups(groups) <==> exists i :: 0 <= i < |ledger| && ledger[i].category == Some(c)
    {
      GroupKey(ledger, Some(c));
    }
  }

  /** Each row's value is the summed amount of that category's invoices. */
  lemma RowValues(ledger: seq<Invoice>)
    ensures forall i :: 0 <= i < |CategoryGroups(ledger)| ==>
      CategoryGroups(ledger)[i].key.Some? ==>
        CategorySpendRows(ledger)[i].value == SumWhere(ledger, CategoryIs(CategoryGroups(ledger)[i].key.value))
  {
    var groups := CategoryGroups(ledger);
    forall i | 0 <= i < |groups| && groups[i].key.Some?
      ensures CategorySpendRows(ledger)[i].value == SumWhere(ledger, CategoryIs(groups[i].key.value))
    {
      var k := groups[i].key;
      WhereThenFilter(ledger, HasCategory, KeyIs(CategoryOf, k), CategoryIs(k.value));
    }
  }

  /** The values add up to the total amount of the invoices that have a category. */
  lemma ValuesAddUp(ledger: seq<Invoice>)
    ensures RowsTotal(CategorySpendRows(ledger)) == SumWhere(ledger, HasCategory)
  {
    var groups := CategoryGroups(ledger);
    var rows := CategorySpendRows(ledger);
    RowsTotalIsGroupsTotal(rows, groups);
    GroupSumsCoverTotal(Where(ledger, HasCategory), CategoryOf);
    TotalOfWhere(ledger, HasCategory);
  }

  /** The sum of the values of rows. */
  function RowsTotal(rows: seq<CategorySpend>): real {
    if rows == [] then 0.0 else RowsTotal(rows[..|rows| - 1]) + rows[|rows| - 1].value
  }

  lemma {:induction false} RowsTotalIsGroupsTotal(rows: seq<CategorySpend>, groups: seq<Group<Option<string>>>)
    requires |rows| == |groups|
    requires forall i :: 0 <= i < |rows| ==> rows[i].value == groups[i].sum
    ensures RowsTotal(rows) == SumOfGroups(groups)
  {
    if rows != [] {
      RowsTotalIsGroupsTotal(rows[..|rows| - 1], groups[..|groups| - 1]);
    }
  }

  /** An empty ledger, or one whose invoices all lack a category, gives no rows. */
  lemma NoCategoriesNoRows(ledger: seq<Invoice>)
    requires forall i :: 0 <= i < |ledger| ==> ledger[i].category == None
    ensures CategorySpendRows(ledger) == []
  {
    assert Where(ledger, HasCategory) == [];
  }
}
