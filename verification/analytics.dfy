/**
 The analytics page: rows of an already-mapped CSV are grouped by their `MSKU` column and their
 `Quantity` column summed, largest total first, with summary figures above the chart.
 */
module Analytics {
  import opened Options
  import opened Rows
  import opened Grouping

  /** `row.MSKU || "UNMAPPED"`: the group a row is counted under. */
  function MskuOf(row: Row): (r: string)
    ensures r != ""
    ensures Has(row, "MSKU") ==> r == row["MSKU"]
    ensures !Has(row, "MSKU") ==> r == "UNMAPPED"
  {
    Or(row, "MSKU", "UNMAPPED")
  }

  /**
   `Number(row.Quantity || 0)`: a missing or empty cell counts 0; any other cell is read by `number`,
   the browser's numeric conversion, which is left abstract.
   */
  function QuantityOf(row: Row, number: string -> int): int {
    if Has(row, "Quantity") then number(row["Quantity"]) else 0
  }

  function QuantityReader(number: string -> int): Row -> int {
    row => QuantityOf(row, number)
  }

  /**
   `aggregated()`: one bucket per distinct MSKU among the rows (the fallback `UNMAPPED` included), each
   holding the summed quantity of its rows, in non-increasing order of total (ties in first-encounter
   order); the totals add up to the total quantity of all rows, and no rows give no buckets.
   */
  function Aggregated(rows: seq<Row>, number: string -> int): (r: seq<Bucket>)
    ensures forall i, j :: 0 <= i < j < |r| ==> r[i].total >= r[j].total
    ensures DistinctKeys(r)
    ensures forall k :: k in Keys(r) <==> exists i :: 0 <= i < |rows| && MskuOf(rows[i]) == k
    ensures forall i :: 0 <= i < |r| ==> r[i].total == QuantityFor(rows, MskuOf, QuantityReader(number), r[i].key)
    ensures Total(r) == QuantitySum(rows, QuantityReader(number))
    ensures r == [] <==> rows == []
  {
    var r := GroupBy(rows, MskuOf, QuantityReader(number));
    assert forall k :: k in KeysOf(rows, MskuOf) <==> exists i :: 0 <= i < |rows| && MskuOf(rows[i]) == k;
    r
  }

  /** The four cards above the chart. */
  datatype Summary = Summary(totalProducts: nat, totalQuantity: int, uniqueMskus: nat, topMsku: string)

  /**
   The summary block, shown only when there is at least one bucket: the row count, the total quantity
   (summed over the buckets), the number of buckets, and the MSKU of the first bucket, which carries
   a largest total.
   */
  function Summarize(rows: seq<Row>, number: string -> int): (r: Option<Summary>)
    ensures r.None? <==> rows == []
    ensures r.Some? ==>
      && r.value.totalProducts == |rows|
      && r.value.totalQuantity == QuantitySum(rows, QuantityReader(number))
      && r.value.uniqueMskus == |KeysOf(rows, MskuOf)|
      && r.value.topMsku in KeysOf(rows, MskuOf)
      && (forall i :: 0 <= i < |rows| ==>
            QuantityFor(rows, MskuOf, QuantityReader(number), MskuOf(rows[i]))
              <= QuantityFor(rows, MskuOf, QuantityReader(number), r.value.topMsku))
  {
    var chart := Aggregated(rows, number);
    if |chart| == 0 then None
    else
      GroupByTop(rows, MskuOf, QuantityReader(number));
      Some(Summary(|rows|, Total(chart), |chart|, chart[0].key))
  }
}
