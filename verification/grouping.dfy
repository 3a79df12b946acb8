/**
 Group-and-sum: the pattern both analytics pages use. Rows contribute a (key, quantity) entry; a plain
 object accumulates one running total per key, so keys come out in first-encounter order; the buckets
 are then sorted by total, largest first, with a stable sort.
 */
module Grouping {
  import opened Options
  import opened Ordering

  /** One row's contribution: the key it is counted under and its quantity. */
  datatype Entry = Entry(key: string, quantity: int)

  /** One group: a key and the sum of the quantities counted under it. */
  datatype Bucket = Bucket(key: string, total: int)

  function BucketTotal(b: Bucket): int {
    b.total
  }

  /** Sum of the quantities of the entries counted under `k`. */
  function SumFor(items: seq<Entry>, k: string): int {
    if items == [] then 0
    else SumFor(items[..|items| - 1], k) + (if items[|items| - 1].key == k then items[|items| - 1].quantity else 0)
  }

  /** Sum of all quantities. */
  function SumAll(items: seq<Entry>): int {
    if items == [] then 0 else SumAll(items[..|items| - 1]) + items[|items| - 1].quantity
  }

  /** Sum of all bucket totals. */
  function Total(bs: seq<Bucket>): int {
    if bs == [] then 0 else Total(bs[..|bs| - 1]) + bs[|bs| - 1].total
  }

  /** The keys the entries are counted under. */
  function EntryKeys(items: seq<Entry>): set<string> {
    set e | e in items :: e.key
  }

  function Keys(bs: seq<Bucket>): seq<string> {
    seq(|bs|, i requires 0 <= i < |bs| => bs[i].key)
  }

  predicate NoDuplicates(d: seq<string>) {
    forall i, j :: 0 <= i < j < |d| ==> d[i] != d[j]
  }

  predicate DistinctKeys(bs: seq<Bucket>) {
    forall i, j :: 0 <= i < j < |bs| ==> bs[i].key != bs[j].key
  }

  /** The keys of `items` in the order they are first met, each once. */
  function FirstOccurrences(items: seq<Entry>): seq<string> {
    if items == [] then []
    else
      var d := FirstOccurrences(items[..|items| - 1]);
      if items[|items| - 1].key in d then d else d + [items[|items| - 1].key]
  }

  /** Position of the bucket for `k`, if there is one (the object property lookup `sums[k]`). */
  function FindKey(bs: seq<Bucket>, k: string): (r: Option<nat>)
    ensures r.Some? ==> r.value < |bs| && bs[r.value].key == k
    ensures r.None? ==> k !in Keys(bs)
  {
    if bs == [] then None
    else if bs[|bs| - 1].key == k then Some(|bs| - 1)
    else
      var r := FindKey(bs[..|bs| - 1], k);
      assert Keys(bs) == Keys(bs[..|bs| - 1]) + [bs[|bs| - 1].key];
      r
  }

  /** `sums[key] = (sums[key] || 0) + quantity`: adds to the key's running total, or appends a new one. */
  function AddTo(bs: seq<Bucket>, e: Entry): seq<Bucket> {
    match FindKey(bs, e.key)
    case Some(i) => bs[i := Bucket(e.key, bs[i].total + e.quantity)]
    case None => bs + [Bucket(e.key, e.quantity)]
  }

  /** The buckets of `items` in first-encounter order, before sorting. */
  function GroupSum(items: seq<Entry>): seq<Bucket> {
    if items == [] then [] else AddTo(GroupSum(items[..|items| - 1]), items[|items| - 1])
  }

  /** Group, then sort by total, largest first (stable: ties keep first-encounter order). */
  function Aggregate(items: seq<Entry>): seq<Bucket> {
    SortBy(GroupSum(items), BucketTotal, true)
  }

  lemma {:induction false} TotalUpdate(bs: seq<Bucket>, i: nat, b: Bucket)
    requires i < |bs|
    ensures Total(bs[i := b]) == Total(bs) - bs[i].total + b.total
    decreases |bs|
  {
    var u := bs[i := b];
    if i < |bs| - 1 {
      assert u[..|u| - 1] == bs[..|bs| - 1][i := b];
      TotalUpdate(bs[..|bs| - 1], i, b);
    } else {
      assert u[..|u| - 1] == bs[..|bs| - 1];
    }
  }

  lemma {:induction false} SumForAbsent(items: seq<Entry>, k: string)
    requires k !in EntryKeys(items)
    ensures SumFor(items, k) == 0
  {
    if items != [] {
      var p := items[..|items| - 1];
      assert forall e :: e in p ==> e in items;
      SumForAbsent(p, k);
    }
  }

  lemma {:induction false} FirstOccurrencesKeys(items: seq<Entry>)
    ensures forall k :: k in FirstOccurrences(items) <==> k in EntryKeys(items)
  {
    if items != [] {
      var p := items[..|items| - 1];
      FirstOccurrencesKeys(p);
      assert items == p + [items[|items| - 1]];
      assert EntryKeys(items) == EntryKeys(p) + {items[|items| - 1].key};
    }
  }

  /** Adding an entry: its key's total grows by its quantity, or a new bucket is appended for it. */
  lemma AddToShape(bs: seq<Bucket>, e: Entry)
    ensures var r := AddTo(bs, e);
      && Total(r) == Total(bs) + e.quantity
      && Keys(r) == (if e.key in Keys(bs) then Keys(bs) else Keys(bs) + [e.key])
  {
    match FindKey(bs, e.key)
    case Some(i) =>
      TotalUpdate(bs, i, Bucket(e.key, bs[i].total + e.quantity));
      assert Keys(bs)[i] == e.key;
    case None =>
      var r := bs + [Bucket(e.key, e.quantity)];
      assert r[..|r| - 1] == bs;
  }

  lemma {:induction false} FirstOccurrencesDistinct(items: seq<Entry>)
    ensures NoDuplicates(FirstOccurrences(items))
  {
    if items != [] {
      var p := items[..|items| - 1];
      var k := items[|items| - 1].key;
      FirstOccurrencesDistinct(p);
      var d0 := FirstOccurrences(p);
      var d := FirstOccurrences(items);
      if k !in d0 {
        assert d == d0 + [k];
        forall i, j | 0 <= i < j < |d| ensures d[i] != d[j] {
          assert d[i] == d0[i] && d0[i] in d0;
          if j < |d0| {
            assert d[j] == d0[j];
          }
        }
      } else {
        assert d == d0;
      }
    }
  }

  /** The grouping has one bucket per distinct key, in the order the keys are first met. */
  lemma {:induction false} GroupSumKeys(items: seq<Entry>)
    ensures Keys(GroupSum(items)) == FirstOccurrences(items)
    ensures DistinctKeys(GroupSum(items))
  {
    var g := GroupSum(items);
    if items != [] {
      GroupSumKeys(items[..|items| - 1]);
      AddToShape(GroupSum(items[..|items| - 1]), items[|items| - 1]);
    }
    FirstOccurrencesDistinct(items);
    forall i, j | 0 <= i < j < |g| ensures g[i].key != g[j].key {
      assert Keys(g)[i] == g[i].key && Keys(g)[j] == g[j].key;
    }
  }

  /** The grouping holds the whole quantity. */
  lemma {:induction false} GroupSumConserves(items: seq<Entry>)
    ensures Total(GroupSum(items)) == SumAll(items)
  {
    if items != [] {
      GroupSumConserves(items[..|items| - 1]);
      AddToShape(GroupSum(items[..|items| - 1]), items[|items| - 1]);
    }
  }

  /** Each bucket of the grouping holds the sum of the quantities counted under its key. */
  lemma {:induction false} GroupSumTotals(items: seq<Entry>)
    ensures var g := GroupSum(items); forall i :: 0 <= i < |g| ==> g[i].total == SumFor(items, g[i].key)
  {
    if items != [] {
      var p := items[..|items| - 1];
      var e := items[|items| - 1];
      var g0 := GroupSum(p);
      var g := GroupSum(items);
      GroupSumTotals(p);
      GroupSumKeys(p);
      FirstOccurrencesKeys(p);
      match FindKey(g0, e.key)
      case Some(i) =>
        assert g == g0[i := Bucket(e.key, g0[i].total + e.quantity)];
        forall j | 0 <= j < |g| ensures g[j].total == SumFor(items, g[j].key) {
          if j != i {
            assert g0[j].key != e.key;
          }
        }
      case None =>
        assert g == g0 + [Bucket(e.key, e.quantity)];
        assert e.key !in EntryKeys(p);
        SumForAbsent(p, e.key);
        forall j | 0 <= j < |g| ensures g[j].total == SumFor(items, g[j].key) {
          if j < |g0| {
            assert Keys(g0)[j] == g0[j].key;
          }
        }
    }
  }

  lemma {:induction false} TotalCons(b: Bucket, bs: seq<Bucket>)
    ensures Total([b] + bs) == b.total + Total(bs)
    decreases |bs|
  {
    if bs != [] {
      var s := [b] + bs;
      assert s[..|s| - 1] == [b] + bs[..|bs| - 1];
      TotalCons(b, bs[..|bs| - 1]);
    }
  }

  lemma {:induction false} TotalInsert(b: Bucket, t: seq<Bucket>)
    ensures Total(Insert(b, t, BucketTotal, true)) == b.total + Total(t)
    decreases |t|
  {
    if t == [] || InOrder(b.total, t[0].total, true) {
      TotalCons(b, t);
    } else {
      TotalInsert(b, t[1..]);
      TotalCons(t[0], Insert(b, t[1..], BucketTotal, true));
      TotalCons(t[0], t[1..]);
      assert t == [t[0]] + t[1..];
    }
  }

  lemma {:induction false} TotalSort(bs: seq<Bucket>)
    ensures Total(SortBy(bs, BucketTotal, true)) == Total(bs)
  {
    if bs != [] {
      TotalSort(bs[1..]);
      TotalInsert(bs[0], SortBy(bs[1..], BucketTotal, true));
      TotalCons(bs[0], bs[1..]);
      assert bs == [bs[0]] + bs[1..];
    }
  }

  lemma TwoPositions<T>(s: seq<T>, i: nat, j: nat)
    requires i < j < |s| && s[i] == s[j]
    ensures multiset(s)[s[i]] >= 2
  {
    assert s == s[..j] + [s[j]] + s[j + 1..];
    assert s[i] in s[..j];
  }

  lemma {:induction false} AtMostOnce(bs: seq<Bucket>, b: Bucket)
    requires DistinctKeys(bs)
    ensures multiset(bs)[b] <= 1
  {
    if bs != [] {
      assert bs == [bs[0]] + bs[1..];
      AtMostOnce(bs[1..], b);
      if b == bs[0] {
        assert b !in bs[1..];
      }
    }
  }

  /** Reordering distinct-keyed buckets keeps them distinct. */
  lemma DistinctKeysPermutation(a: seq<Bucket>, b: seq<Bucket>)
    requires multiset(a) == multiset(b) && DistinctKeys(a)
    ensures DistinctKeys(b)
  {
    forall i, j | 0 <= i < j < |b| ensures b[i].key != b[j].key {
      assert b[i] in multiset(a) && b[j] in multiset(a);
      var p :| 0 <= p < |a| && a[p] == b[i];
      var q :| 0 <= q < |a| && a[q] == b[j];
      if p == q {
        TwoPositions(b, i, j);
        AtMostOnce(a, b[i]);
      }
    }
  }

  lemma {:induction false} NoDuplicatesCard(d: seq<string>)
    requires NoDuplicates(d)
    ensures |set k | k in d| == |d|
  {
    if d != [] {
      var p := d[..|d| - 1];
      assert NoDuplicates(p);
      NoDuplicatesCard(p);
      assert (set k | k in d) == (set k | k in p) + {d[|d| - 1]};
      assert d[|d| - 1] !in p;
    }
  }

  /** The buckets come out largest total first. */
  lemma AggregateOrdered(items: seq<Entry>)
    ensures var r := Aggregate(items); forall i, j :: 0 <= i < j < |r| ==> r[i].total >= r[j].total
  {
    var r := Aggregate(items);
    assert Sorted(r, BucketTotal, true);
    forall i, j | 0 <= i < j < |r| ensures r[i].total >= r[j].total {
      assert InOrder(BucketTotal(r[i]), BucketTotal(r[j]), true);
    }
  }

  lemma AggregatePermutes(items: seq<Entry>)
    ensures multiset(Aggregate(items)) == multiset(GroupSum(items))
    ensures |Aggregate(items)| == |GroupSum(items)|
  {
    var r := Aggregate(items);
    var g := GroupSum(items);
    assert |multiset(r)| == |multiset(g)|;
  }

  lemma PermutationKeys(a: seq<Bucket>, b: seq<Bucket>)
    requires multiset(a) == multiset(b)
    ensures forall k :: k in Keys(a) <==> k in Keys(b)
  {
    forall k | k in Keys(a) ensures k in Keys(b) {
      var i :| 0 <= i < |a| && Keys(a)[i] == k;
      assert a[i] in multiset(b);
      var j :| 0 <= j < |b| && b[j] == a[i];
      assert Keys(b)[j] == k;
    }
    forall k | k in Keys(b) ensures k in Keys(a) {
      var j :| 0 <= j < |b| && Keys(b)[j] == k;
      assert b[j] in multiset(a);
      var i :| 0 <= i < |a| && a[i] == b[j];
      assert Keys(a)[i] == k;
    }
  }

  /** One bucket per distinct key: the keys are distinct and are exactly the keys of the entries. */
  lemma AggregateKeys(items: seq<Entry>)
    ensures var r := Aggregate(items);
      && DistinctKeys(r)
      && (forall k :: k in Keys(r) <==> k in EntryKeys(items))
      && |r| == |EntryKeys(items)|
  {
    var g := GroupSum(items);
    var r := Aggregate(items);
    AggregatePermutes(items);
    GroupSumKeys(items);
    FirstOccurrencesKeys(items);
    FirstOccurrencesDistinct(items);
    NoDuplicatesCard(FirstOccurrences(items));
    DistinctKeysPermutation(g, r);
    assert (set k | k in FirstOccurrences(items)) == EntryKeys(items);
    PermutationKeys(g, r);
  }

  /** Each bucket holds the sum of the quantities counted under its key. */
  lemma AggregateTotals(items: seq<Entry>)
    ensures var r := Aggregate(items); forall i :: 0 <= i < |r| ==> r[i].total == SumFor(items, r[i].key)
  {
    var g := GroupSum(items);
    var r := Aggregate(items);
    AggregatePermutes(items);
    GroupSumTotals(items);
    forall i | 0 <= i < |r| ensures r[i].total == SumFor(items, r[i].key) {
      assert r[i] in multiset(g);
      var j :| 0 <= j < |g| && g[j] == r[i];
    }
  }

  /** Conservation: the bucket totals add up to the sum of all quantities. */
  lemma AggregateConserves(items: seq<Entry>)
    ensures Total(Aggregate(items)) == SumAll(items)
  {
    GroupSumConserves(items);
    TotalSort(GroupSum(items));
  }

  /** No entries, no buckets; some entries, some buckets. */
  lemma AggregateEmpty(items: seq<Entry>)
    ensures Aggregate(items) == [] <==> items == []
  {
    AggregateKeys(items);
    if items != [] {
      assert items[0] in items;
      assert items[0].key in EntryKeys(items);
      assert Keys(Aggregate(items)) != [];
    }
  }

  /** Ties keep first-encounter order: the buckets sharing a total appear as they did before sorting. */
  lemma AggregateStable(items: seq<Entry>, v: int)
    ensures WithKey(Aggregate(items), BucketTotal, v) == WithKey(GroupSum(items), BucketTotal, v)
  {
    SortStable(GroupSum(items), BucketTotal, true, v);
  }

  /** Each record's entry, in record order. */
  function EntriesOf<T>(xs: seq<T>, key: T -> string, quantity: T -> int): (r: seq<Entry>)
    ensures |r| == |xs|
    ensures forall i :: 0 <= i < |xs| ==> r[i] == Entry(key(xs[i]), quantity(xs[i]))
  {
    seq(|xs|, i requires 0 <= i < |xs| => Entry(key(xs[i]), quantity(xs[i])))
  }

  /** Reference sum: the quantities of the records whose key is `k`. */
  function QuantityFor<T>(xs: seq<T>, key: T -> string, quantity: T -> int, k: string): int {
    if xs == [] then 0
    else
      var last := xs[|xs| - 1];
      QuantityFor(xs[..|xs| - 1], key, quantity, k) + (if key(last) == k then quantity(last) else 0)
  }

  /** Reference sum: the quantities of all records. */
  function QuantitySum<T>(xs: seq<T>, quantity: T -> int): int {
    if xs == [] then 0 else QuantitySum(xs[..|xs| - 1], quantity) + quantity(xs[|xs| - 1])
  }

  /** The keys the records are counted under. */
  function KeysOf<T>(xs: seq<T>, key: T -> string): set<string> {
    set i | 0 <= i < |xs| :: key(xs[i])
  }

  lemma {:induction false} EntriesSums<T>(xs: seq<T>, key: T -> string, quantity: T -> int, k: string)
    ensures SumFor(EntriesOf(xs, key, quantity), k) == QuantityFor(xs, key, quantity, k)
    ensures SumAll(EntriesOf(xs, key, quantity)) == QuantitySum(xs, quantity)
  {
    if xs != [] {
      EntriesSums(xs[..|xs| - 1], key, quantity, k);
      assert EntriesOf(xs, key, quantity)[..|xs| - 1] == EntriesOf(xs[..|xs| - 1], key, quantity);
    }
  }

  lemma EntriesKeys<T>(xs: seq<T>, key: T -> string, quantity: T -> int)
    ensures EntryKeys(EntriesOf(xs, key, quantity)) == KeysOf(xs, key)
  {
    var es := EntriesOf(xs, key, quantity);
    forall k | k in EntryKeys(es) ensures k in KeysOf(xs, key) {
      var e :| e in es && e.key == k;
      var i :| 0 <= i < |es| && es[i] == e;
    }
    forall k | k in KeysOf(xs, key) ensures k in EntryKeys(es) {
      var i :| 0 <= i < |xs| && key(xs[i]) == k;
      assert es[i] in es;
    }
  }

  /**
   Group the records by `key`, summing `quantity`, largest total first: one bucket per distinct key,
   each holding the sum over its records, totals adding up to the sum over all records, and no
   buckets exactly when there are no records.
   */
  function GroupBy<T>(xs: seq<T>, key: T -> string, quantity: T -> int): (r: seq<Bucket>)
    ensures forall i, j :: 0 <= i < j < |r| ==> r[i].total >= r[j].total
    ensures DistinctKeys(r)
    ensures forall k :: k in Keys(r) <==> k in KeysOf(xs, key)
    ensures |r| == |KeysOf(xs, key)|
    ensures forall i :: 0 <= i < |r| ==> r[i].total == QuantityFor(xs, key, quantity, r[i].key)
    ensures Total(r) == QuantitySum(xs, quantity)
    ensures r == [] <==> xs == []
  {
    var es := EntriesOf(xs, key, quantity);
    AggregateOrdered(es);
    AggregateKeys(es);
    AggregateTotals(es);
    AggregateConserves(es);
    AggregateEmpty(es);
    EntriesKeys(xs, key, quantity);
    EntriesSums(xs, key, quantity, "");
    forall i | 0 <= i < |Aggregate(es)|
      ensures Aggregate(es)[i].total == QuantityFor(xs, key, quantity, Aggregate(es)[i].key)
    {
      EntriesSums(xs, key, quantity, Aggregate(es)[i].key);
    }
    Aggregate(es)
  }

  /** The first bucket belongs to one of the records and carries a largest total. */
  lemma GroupByTop<T>(xs: seq<T>, key: T -> string, quantity: T -> int)
    requires xs != []
    ensures var r := GroupBy(xs, key, quantity);
      && r != []
      && r[0].key in KeysOf(xs, key)
      && forall i :: 0 <= i < |xs| ==> QuantityFor(xs, key, quantity, key(xs[i])) <= r[0].total
  {
    var r := GroupBy(xs, key, quantity);
    assert Keys(r)[0] == r[0].key;
    forall i | 0 <= i < |xs| ensures QuantityFor(xs, key, quantity, key(xs[i])) <= r[0].total {
      assert key(xs[i]) in KeysOf(xs, key);
      TopBound(xs, key, quantity, key(xs[i]));
    }
  }

  lemma TopBound<T>(xs: seq<T>, key: T -> string, quantity: T -> int, k: string)
    requires k in KeysOf(xs, key)
    ensures var r := GroupBy(xs, key, quantity); r != [] && QuantityFor(xs, key, quantity, k) <= r[0].total
  {
    var r := GroupBy(xs, key, quantity);
    assert k in Keys(r);
    var j :| 0 <= j < |r| && Keys(r)[j] == k;
    assert r[j].key == k;
  }
}
