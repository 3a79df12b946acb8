/**
 The dashboard: inventory records joined with their product are grouped into a chart keyed by MSKU
 (falling back to the SKU, then `Unknown`), and headline metrics are computed from the same records.
 */
module Dashboard {
  import opened Options
  import opened Grouping

  /** The product columns joined onto an inventory record; `None` is a null column. */
  datatype ProductRef = ProductRef(sku: Option<string>, msku: Option<string>)

  /** An inventory record as loaded; `product` is `None` when the join found nothing. */
  datatype Item = Item(quantity: Option<int>, product: Option<ProductRef>)

  /** Truthiness of an optional string under `||`: present and non-empty. */
  predicate Truthy(s: Option<string>) {
    s.Some? && s.value != ""
  }

  /** `item.product?.msku || item.product?.sku || 'Unknown'`: the chart key. */
  function ChartKey(item: Item): (r: string)
    ensures r != ""
    ensures item.product.Some? && Truthy(item.product.value.msku) ==> r == item.product.value.msku.value
    ensures item.product.Some? && !Truthy(item.product.value.msku) && Truthy(item.product.value.sku)
      ==> r == item.product.value.sku.value
    ensures (item.product.None? || (!Truthy(item.product.value.msku) && !Truthy(item.product.value.sku)))
      ==> r == "Unknown"
  {
    if item.product.Some? && Truthy(item.product.value.msku) then item.product.value.msku.value
    else if item.product.Some? && Truthy(item.product.value.sku) then item.product.value.sku.value
    else "Unknown"
  }

  /** `item.quantity || 0`: a null quantity counts 0. */
  function QuantityOf(item: Item): (r: int)
    ensures item.quantity.None? ==> r == 0
    ensures item.quantity.Some? ==> r == item.quantity.value
  {
    item.quantity.GetOr(0)
  }

  /**
   `processChartData()`: nothing for no records; otherwise one bar per distinct chart key with the
   summed quantity of its records, largest first.
   */
  function ChartData(items: seq<Item>): (r: seq<Bucket>)
    ensures items == [] ==> r == []
    ensures forall i, j :: 0 <= i < j < |r| ==> r[i].total >= r[j].total
    ensures DistinctKeys(r)
    ensures forall k :: k in Keys(r) <==> exists i :: 0 <= i < |items| && ChartKey(items[i]) == k
    ensures forall i :: 0 <= i < |r| ==> r[i].total == QuantityFor(items, ChartKey, QuantityOf, r[i].key)
    ensures Total(r) == QuantitySum(items, QuantityOf)
  {
    if items == [] then []
    else
      var r := GroupBy(items, ChartKey, QuantityOf);
      assert forall k :: k in KeysOf(items, ChartKey) <==> exists i :: 0 <= i < |items| && ChartKey(items[i]) == k;
      r
  }

  /** `item.product?.sku`: `None` when there is no product, otherwise the (possibly null) SKU. */
  function SkuValue(item: Item): Option<Option<string>> {
    if item.product.None? then None else Some(item.product.value.sku)
  }

  /** `item.product?.msku || 'Unknown'`. */
  function MskuOrUnknown(item: Item): (r: string)
    ensures r != ""
    ensures item.product.Some? && Truthy(item.product.value.msku) ==> r == item.product.value.msku.value
    ensures !(item.product.Some? && Truthy(item.product.value.msku)) ==> r == "Unknown"
  {
    if item.product.Some? && Truthy(item.product.value.msku) then item.product.value.msku.value else "Unknown"
  }

  datatype Metrics = Metrics(totalProducts: nat, uniqueMskus: nat, totalQuantity: int, topMsku: string, aiQueries: nat)

  /**
   `dashboardMetrics`: distinct SKUs, distinct `msku || 'Unknown'` values, the summed quantity, the key
   of the first bar (or `None` when there is none), and the number of stored AI queries.
   */
  function ComputeMetrics(items: seq<Item>, historyLength: nat): (r: Metrics)
    ensures r.totalProducts == |set i | 0 <= i < |items| :: SkuValue(items[i])|
    ensures r.uniqueMskus == |KeysOf(items, MskuOrUnknown)|
    ensures r.totalQuantity == QuantitySum(items, QuantityOf) == Total(ChartData(items))
    ensures items == [] ==> r.topMsku == "None"
    ensures items != [] ==>
      && r.topMsku in KeysOf(items, ChartKey)
      && forall i :: 0 <= i < |items| ==>
           QuantityFor(items, ChartKey, QuantityOf, ChartKey(items[i])) <= QuantityFor(items, ChartKey, QuantityOf, r.topMsku)
    ensures r.aiQueries == historyLength
  {
    var chart := ChartData(items);
    var top := if chart == [] || chart[0].key == "" then "None" else chart[0].key;
    TopOfChart(items);
    Metrics(
      |set i | 0 <= i < |items| :: SkuValue(items[i])|,
      |KeysOf(items, MskuOrUnknown)|,
      QuantitySum(items, QuantityOf),
      top,
      historyLength)
  }

  lemma TopOfChart(items: seq<Item>)
    ensures var chart := ChartData(items);
      items != [] ==>
        && chart != [] && chart[0].key != ""
        && chart[0].key in KeysOf(items, ChartKey)
        && forall i :: 0 <= i < |items| ==> QuantityFor(items, ChartKey, QuantityOf, ChartKey(items[i])) <= chart[0].total
  {
    if items != [] {
      GroupByTop(items, ChartKey, QuantityOf);
      var chart := ChartData(items);
      assert chart[0].key in KeysOf(items, ChartKey);
      var i :| 0 <= i < |items| && ChartKey(items[i]) == chart[0].key;
    }
  }

  /**
   `chartData.slice(0, 5)`: the pie shows the first five bars, or all of them when fewer; on a chart
   sorted largest first, no bar left out is larger than a bar shown.
   */
  function PieData(chart: seq<Bucket>): (r: seq<Bucket>)
    ensures |r| == if |chart| < 5 then |chart| else 5
    ensures r <= chart
    ensures (forall i, j :: 0 <= i < j < |chart| ==> chart[i].total >= chart[j].total) ==>
      forall i, j :: 0 <= i < |r| <= j < |chart| ==> r[i].total >= chart[j].total
  {
    chart[..if |chart| < 5 then |chart| else 5]
  }

  /**
   When every record's product has a non-empty MSKU, the unique-MSKU card equals the number of
   bars: both count the distinct MSKUs.
   */
  lemma UniqueMskusMatchChart(items: seq<Item>)
    requires forall i :: 0 <= i < |items| ==> items[i].product.Some? && Truthy(items[i].product.value.msku)
    ensures ComputeMetrics(items, 0).uniqueMskus == |ChartData(items)|
  {
    assert KeysOf(items, MskuOrUnknown) == KeysOf(items, ChartKey) by {
      forall i | 0 <= i < |items| ensures MskuOrUnknown(items[i]) == ChartKey(items[i]) {}
    }
    if items == [] {
      assert KeysOf(items, ChartKey) == {};
    }
  }

  /**
   Otherwise the two can differ: two records without an MSKU but with different SKUs make two bars
   and one `Unknown` MSKU.
   */
  lemma UniqueMskusMayDiffer()
    ensures var items := [Item(Some(1), Some(ProductRef(Some("A"), None))), Item(Some(1), Some(ProductRef(Some("B"), None)))];
      ComputeMetrics(items, 0).uniqueMskus == 1 && |ChartData(items)| == 2
  {
    var items := [Item(Some(1), Some(ProductRef(Some("A"), None))), Item(Some(1), Some(ProductRef(Some("B"), None)))];
    OneUnknownMsku(items);
    TwoSkuBars(items);
  }

  lemma OneUnknownMsku(items: seq<Item>)
    requires items == [Item(Some(1), Some(ProductRef(Some("A"), None))), Item(Some(1), Some(ProductRef(Some("B"), None)))]
    ensures ComputeMetrics(items, 0).uniqueMskus == 1
  {
    assert MskuOrUnknown(items[0]) == "Unknown" && MskuOrUnknown(items[1]) == "Unknown";
    assert KeysOf(items, MskuOrUnknown) == {"Unknown"};
  }

  lemma TwoSkuBars(items: seq<Item>)
    requires items == [Item(Some(1), Some(ProductRef(Some("A"), None))), Item(Some(1), Some(ProductRef(Some("B"), None)))]
    ensures |ChartData(items)| == 2
  {
    assert ChartKey(items[0]) == "A" && ChartKey(items[1]) == "B";
    TwoBars(items);
  }

  /** Two records whose chart keys differ make two bars. */
  lemma TwoBars(items: seq<Item>)
    requires |items| == 2 && ChartKey(items[0]) != ChartKey(items[1])
    ensures |ChartData(items)| == 2
  {
    TwoKeys(items, ChartKey, ChartData(items));
  }

  /** Buckets keyed by exactly the keys of two records with different keys are two. */
  lemma TwoKeys<T>(xs: seq<T>, key: T -> string, r: seq<Bucket>)
    requires |xs| == 2 && key(xs[0]) != key(xs[1])
    requires DistinctKeys(r)
    requires forall k :: k in Keys(r) <==> exists i :: 0 <= i < |xs| && key(xs[i]) == k
    ensures |r| == 2
  {
    var a, b := key(xs[0]), key(xs[1]);
    forall k | k in Keys(r) ensures k == a || k == b {
      var i :| 0 <= i < |xs| && key(xs[i]) == k;
    }
    assert a in Keys(r) && b in Keys(r) by {
      assert 0 <= 0 < |xs| && key(xs[0]) == a;
      assert 0 <= 1 < |xs| && key(xs[1]) == b;
    }
    KeyCount(r, {a, b});
  }

  /** Buckets with distinct keys number as many as their keys. */
  lemma KeyCount(r: seq<Bucket>, ks: set<string>)
    requires DistinctKeys(r)
    requires forall k :: k in Keys(r) <==> k in ks
    ensures |r| == |ks|
  {
    var d := Keys(r);
    assert NoDuplicates(d);
    NoDuplicatesCard(d);
    assert (set k | k in d) == ks;
  }
}
