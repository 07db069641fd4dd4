/**
 * `groupBy({ by: [field], _sum: { totalAmount } })`: one row per distinct
 * value of the grouping field, with the sum of `totalAmount` of the rows
 * carrying that value. Groups come in order of first appearance in the
 * ledger (the database leaves that order unspecified).
 */
module Grouping {
  import opened Ledger

  datatype Group<K> = Group(key: K, sum: real)

  ghost predicate Distinct<K>(s: seq<K>) {
    forall i, j :: 0 <= i < j < |s| ==> s[i] != s[j]
  }

  /** The first occurrence of each value of `s`, in order. */
  function Dedup<K(==,!new)>(s: seq<K>): (r: seq<K>)
    ensures Distinct(r)
    ensures forall k :: k in r <==> k in s
    ensures |r| <= |s|
  {
    if s == [] then []
    else
      var init := Dedup(s[..|s| - 1]);
      assert s == s[..|s| - 1] + [s[|s| - 1]];
      if s[|s| - 1] in init then init else init + [s[|s| - 1]]
  }

  /** The grouping field of every row, in ledger order. */
  function KeysOf<K>(ledger: seq<Invoice>, key: Invoice -> K): seq<K> {
    seq(|ledger|, i requires 0 <= i < |ledger| => key(ledger[i]))
  }

  /** The filter "the grouping field equals k". */
  function KeyIs<K(==,!new)>(key: Invoice -> K, k: K): Invoice -> bool {
    x => key(x) == k
  }

  /** The filter "the grouping field is one of ks". */
  function KeyIn<K(==,!new)>(key: Invoice -> K, ks: seq<K>): Invoice -> bool {
    x => key(x) in ks
  }

  /** One group per key of `ks`, in that order. */
  function GroupsFor<K(==,!new)>(ledger: seq<Invoice>, key: Invoice -> K, ks: seq<K>): (gs: seq<Group<K>>)
    ensures |gs| == |ks|
    ensures forall i :: 0 <= i < |ks| ==> gs[i] == Group(ks[i], SumWhere(ledger, KeyIs(key, ks[i])))
  {
    if ks == [] then []
    else GroupsFor(ledger, key, ks[..|ks| - 1]) + [Group(ks[|ks| - 1], SumWhere(ledger, KeyIs(key, ks[|ks| - 1])))]
  }

  /** `groupBy` with `_sum`. */
  function GroupSums<K(==,!new)>(ledger: seq<Invoice>, key: Invoice -> K): (gs: seq<Group<K>>)
    ensures Distinct(KeysOfGroups(gs))
    ensures forall k :: k in KeysOfGroups(gs) <==> exists i :: 0 <= i < |ledger| && key(ledger[i]) == k
    ensures forall i :: 0 <= i < |gs| ==> gs[i].sum == SumWhere(ledger, KeyIs(key, gs[i].key))
    ensures ledger == [] ==> gs == []
  {
    var ks := Dedup(KeysOf(ledger, key));
    var gs := GroupsFor(ledger, key, ks);
    assert KeysOfGroups(gs) == ks;
    var keys := KeysOf(ledger, key);
    forall k ensures k in keys <==> exists i :: 0 <= i < |ledger| && key(ledger[i]) == k {
      if exists i :: 0 <= i < |ledger| && key(ledger[i]) == k {
        var i :| 0 <= i < |ledger| && key(ledger[i]) == k;
        assert keys[i] == k;
      }
    }
    gs
  }

  function KeysOfGroups<K>(gs: seq<Group<K>>): seq<K> {
    seq(|gs|, i requires 0 <= i < |gs| => gs[i].key)
  }

  function SumOfGroups<K>(gs: seq<Group<K>>): real {
    if gs == [] then 0.0 else SumOfGroups(gs[..|gs| - 1]) + gs[|gs| - 1].sum
  }

  /** The groups for distinct keys add up to the sum over all rows whose key is among them. */
  lemma {:induction false} GroupsForTotal<K(!new)>(ledger: seq<Invoice>, key: Invoice -> K, ks: seq<K>)
    requires Distinct(ks)
    ensures SumOfGroups(GroupsFor(ledger, key, ks)) == SumWhere(ledger, KeyIn(key, ks))
  {
    if ks == [] {
      FiltersAgree(ledger, KeyIn(key, ks), x => false);
    } else {
      var init, k := ks[..|ks| - 1], ks[|ks| - 1];
      var gs := GroupsFor(ledger, key, ks);
      assert gs[..|gs| - 1] == GroupsFor(ledger, key, init);
      GroupsForTotal(ledger, key, init);
      assert k !in init;
      DisjointUnion(ledger, KeyIn(key, init), KeyIs(key, k), KeyIn(key, ks));
    }
  }

  /** The group sums of `groupBy` add up to the total of the whole ledger. */
  lemma GroupSumsCoverTotal<K(!new)>(ledger: seq<Invoice>, key: Invoice -> K)
    ensures SumOfGroups(GroupSums(ledger, key)) == Total(ledger)
  {
    var ks := Dedup(KeysOf(ledger, key));
    GroupsForTotal(ledger, key, ks);
    forall i | 0 <= i < |ledger|
      ensures KeyIn(key, ks)(ledger[i]) == AnyRow(ledger[i])
    {
      assert KeysOf(ledger, key)[i] == key(ledger[i]);
    }
    FiltersAgree(ledger, KeyIn(key, ks), AnyRow);
  }
}
