/**
 * Per-bucket counts as the dashboards build them: a fold that adds one to the
 * bucket of each item, and the (bucket, count) entries listed in the order the
 * buckets were first met (the key order of a JavaScript object with non-index keys).
 */
module Tallies {
  import opened Seqs

  /** The buckets of a list of (bucket, count) entries. */
  function Keys<K>(r: seq<(K, nat)>): (ks: seq<K>)
    ensures |ks| == |r| && forall i :: 0 <= i < |r| ==> ks[i] == r[i].0
  {
    seq(|r|, i requires 0 <= i < |r| => r[i].0)
  }

  /** The sum of the counts of a list of (bucket, count) entries. */
  function Total<K>(r: seq<(K, nat)>): nat
  {
    if r == [] then 0 else r[0].1 + Total(r[1..])
  }

  /** When each listed count is the multiplicity of its bucket, the counts add up to `CountSum`. */
  lemma {:induction false} TotalIsCountSum<K>(r: seq<(K, nat)>, m: multiset<K>)
    requires forall i :: 0 <= i < |r| ==> r[i].1 == m[r[i].0]
    ensures Total(r) == CountSum(m, Keys(r))
  {
    if r != [] {
      TotalIsCountSum(r[1..], m);
      assert Keys(r)[1..] == Keys(r[1..]);
    }
  }

  /**
   * `items.reduce((acc, k) => { acc[k] = (acc[k] || 0) + 1; return acc }, {})`:
   * every item's bucket is present, no other bucket is, and each holds the number
   * of items in it.
   */
  function CountBy<K(==, !new)>(items: seq<K>): (m: map<K, nat>)
    ensures forall k :: k in m <==> k in items
    ensures forall k :: k in m ==> m[k] == multiset(items)[k]
    decreases |items|
  {
    if items == [] then map[]
    else
      var init := items[..|items| - 1];
      var k := items[|items| - 1];
      assert items == init + [k];
      var acc := CountBy(init);
      acc[k := (if k in acc then acc[k] else 0) + 1]
  }

  /** The (bucket, count) entries for the buckets of `order`, in that order. */
  function Entries<K(!new)>(counts: map<K, nat>, order: seq<K>): (r: seq<(K, nat)>)
    requires forall k :: k in order ==> k in counts
    ensures Keys(r) == order
    ensures forall i :: 0 <= i < |r| ==> r[i].1 == counts[r[i].0]
  {
    seq(|order|, i requires 0 <= i < |order| => (order[i], counts[order[i]]))
  }

  /** `Object.entries` of the fold: one entry per bucket, in order of first appearance. */
  function Tally<K(==, !new)>(items: seq<K>): (r: seq<(K, nat)>)
    ensures Keys(r) == Distinct(items)
    ensures forall i :: 0 <= i < |r| ==> r[i].1 == multiset(items)[r[i].0]
  {
    Entries(CountBy(items), Distinct(items))
  }

  /** The entries of the fold count every item exactly once. */
  lemma TallyCountsEveryItem<K(!new)>(items: seq<K>)
    ensures Total(Tally(items)) == |items|
  {
    var r := Tally(items);
    TotalIsCountSum(r, multiset(items));
    CountSumCovers(items, Keys(r));
  }

  lemma EntriesNoDup<K(!new)>(counts: map<K, nat>, order: seq<K>)
    requires NoDup(order) && forall k :: k in order ==> k in counts
    ensures NoDup(Entries(counts, order))
  {
    var entries := Entries(counts, order);
    forall i, j | 0 <= i < j < |entries| ensures entries[i] != entries[j] {
      assert Keys(entries)[i] != Keys(entries)[j];
    }
  }

  /** A reordering of entries over distinct buckets keeps the buckets distinct and their counts. */
  lemma ReorderedEntries<K(!new)>(counts: map<K, nat>, order: seq<K>, r: seq<(K, nat)>)
    requires NoDup(order) && forall k :: k in order ==> k in counts
    requires multiset(r) == multiset(Entries(counts, order))
    ensures NoDup(Keys(r))
    ensures forall k :: k in Keys(r) <==> k in order
    ensures forall i :: 0 <= i < |r| ==> r[i].1 == counts[r[i].0]
  {
    var entries := Entries(counts, order);
    forall i | 0 <= i < |r| ensures r[i] in entries {
      assert r[i] in multiset(entries);
    }
    EntriesNoDup(counts, order);
    NoDupPermutation(entries, r);
    forall i, j | 0 <= i < j < |r| ensures Keys(r)[i] != Keys(r)[j] {
      assert r[i] != r[j];
      assert r[i] in entries && r[j] in entries;
    }
    forall k | k in order ensures k in Keys(r) {
      var p :| 0 <= p < |order| && order[p] == k;
      assert entries[p] in multiset(r);
      var i :| 0 <= i < |r| && r[i] == entries[p];
      assert Keys(r)[i] == k;
    }
  }

  /** Any reordering of the entries of `names` lists every name once and counts every item once. */
  lemma ReorderedCounts<K(!new)>(names: seq<K>, counts: map<K, nat>, r: seq<(K, nat)>)
    requires forall k :: k in counts <==> k in names
    requires forall k :: k in counts ==> counts[k] == multiset(names)[k]
    requires multiset(r) == multiset(Entries(counts, Distinct(names)))
    ensures NoDup(Keys(r))
    ensures forall k :: k in Keys(r) <==> k in names
    ensures forall i :: 0 <= i < |r| ==> r[i].1 == multiset(names)[r[i].0]
    ensures Total(r) == |names|
  {
    var order := Distinct(names);
    ReorderedEntries(counts, order, r);
    TotalIsCountSum(r, multiset(names));
    CountSumCovers(names, Keys(r));
  }
}
