/**
 The inventory table: one quantity per (product, warehouse) pair, written by an upsert and by a
 batched loop of upserts.
 */
module InventoryStore {
  import opened Options

  datatype Record = Record(id: nat, productId: nat, warehouseId: nat, quantity: int)

  /** The stored records in storage order and the id the next insert receives. */
  datatype InventoryTable = InventoryTable(rows: seq<Record>, nextId: nat)

  /** One requested write: set the quantity of a (product, warehouse) pair. */
  datatype Change = Change(productId: nat, warehouseId: nat, quantity: int)

  predicate IsPair(r: Record, productId: nat, warehouseId: nat) {
    r.productId == productId && r.warehouseId == warehouseId
  }

  /** How many records carry the pair. */
  function PairCount(rows: seq<Record>, productId: nat, warehouseId: nat): nat {
    if rows == [] then 0
    else PairCount(rows[..|rows| - 1], productId, warehouseId) + (if IsPair(rows[|rows| - 1], productId, warehouseId) then 1 else 0)
  }

  /** At most one record per pair. */
  predicate PairsUnique(t: InventoryTable) {
    forall i, j :: 0 <= i < j < |t.rows| ==> !(t.rows[i].productId == t.rows[j].productId && t.rows[i].warehouseId == t.rows[j].warehouseId)
  }

  /** Record `k` is the first one carrying the pair. */
  predicate FirstAt(rows: seq<Record>, productId: nat, warehouseId: nat, k: nat) {
    && k < |rows| && IsPair(rows[k], productId, warehouseId)
    && forall i :: 0 <= i < k ==> !IsPair(rows[i], productId, warehouseId)
  }

  /** Where the first record carrying the pair stands, if any. */
  function FirstPair(rows: seq<Record>, productId: nat, warehouseId: nat): (r: Option<nat>)
    ensures r.None? <==> forall i :: 0 <= i < |rows| ==> !IsPair(rows[i], productId, warehouseId)
    ensures r.Some? ==> FirstAt(rows, productId, warehouseId, r.value)
  {
    if rows == [] then None
    else if IsPair(rows[0], productId, warehouseId) then Some(0)
    else
      var rest := FirstPair(rows[1..], productId, warehouseId);
      assert forall i :: 1 <= i < |rows| ==> rows[i] == rows[1..][i - 1];
      if rest.None? then None else Some(rest.value + 1)
  }

  /**
   Reading a pair back from a table that holds it at most once: the quantity of the first record
   carrying it (see `SingleRead` for the store's `.single()` read, which agrees on such tables).
   */
  function QuantityAt(rows: seq<Record>, productId: nat, warehouseId: nat): (r: Option<int>)
    ensures r.None? <==> forall i :: 0 <= i < |rows| ==> !IsPair(rows[i], productId, warehouseId)
    ensures r.Some? ==> exists k: nat :: FirstAt(rows, productId, warehouseId, k) && r.value == rows[k].quantity
  {
    if rows == [] then None
    else if IsPair(rows[0], productId, warehouseId) then
      assert FirstAt(rows, productId, warehouseId, 0);
      Some(rows[0].quantity)
    else
      var r := QuantityAt(rows[1..], productId, warehouseId);
      assert r.Some? ==> exists k: nat :: FirstAt(rows, productId, warehouseId, k) && r.value == rows[k].quantity by {
        if r.Some? {
          var k: nat :| FirstAt(rows[1..], productId, warehouseId, k) && r.value == rows[1..][k].quantity;
          assert forall i :: 1 <= i < |rows| ==> rows[i] == rows[1..][i - 1];
          assert FirstAt(rows, productId, warehouseId, k + 1);
        }
      }
      r
  }

  /**
   The existence check `.select('*').eq(..).eq(..).single()`: a record only when exactly one carries
   the pair; none, or two and more, give no data.
   */
  function SingleRead(rows: seq<Record>, productId: nat, warehouseId: nat): (r: Option<Record>)
    ensures r.Some? <==> PairCount(rows, productId, warehouseId) == 1
    ensures r.Some? ==> r.value in rows && IsPair(r.value, productId, warehouseId)
  {
    PairCountZero(rows, productId, warehouseId);
    if PairCount(rows, productId, warehouseId) == 1 then
      var k := FirstPair(rows, productId, warehouseId);
      Some(rows[k.value])
    else None
  }

  /** On a table holding each pair at most once, the `.single()` read and `QuantityAt` agree. */
  lemma SingleReadUnique(t: InventoryTable, productId: nat, warehouseId: nat)
    requires PairsUnique(t)
    ensures var s := SingleRead(t.rows, productId, warehouseId);
      QuantityAt(t.rows, productId, warehouseId) == if s.Some? then Some(s.value.quantity) else None
  {
    PairCountUnique(t, productId, warehouseId);
    PairCountZero(t.rows, productId, warehouseId);
    var s := SingleRead(t.rows, productId, warehouseId);
    if s.Some? {
      var k := FirstPair(t.rows, productId, warehouseId).value;
      FirstPairQuantity(t.rows, productId, warehouseId, k);
    }
  }

  /** Two records carrying the pair: `.single()` gives nothing, so the upsert appends a third. */
  lemma DuplicatePairAppends()
    ensures var t := InventoryTable([Record(0, 1, 1, 5), Record(1, 1, 1, 7)], 2);
      && SingleRead(t.rows, 1, 1).None?
      && UpdateQuantity(t, Change(1, 1, 9)).rows == t.rows + [Record(2, 1, 1, 9)]
  {
    var rows := [Record(0, 1, 1, 5), Record(1, 1, 1, 7)];
    assert rows[..1] == [Record(0, 1, 1, 5)] && rows[..1][..0] == [];
    assert PairCount(rows, 1, 1) == 2;
  }

  /**
   `updateInventoryQuantity`: the existence check uses `.single()`, which yields a record only when
   exactly one matches; then only the quantity of the matching record is replaced. Otherwise one
   record with the pair and quantity is inserted.
   */
  function UpdateQuantity(t: InventoryTable, c: Change): (r: InventoryTable)
    ensures PairCount(t.rows, c.productId, c.warehouseId) == 1 ==>
      && r.nextId == t.nextId && |r.rows| == |t.rows|
      && forall i :: 0 <= i < |t.rows| ==>
           && r.rows[i].id == t.rows[i].id
           && IsPair(r.rows[i], t.rows[i].productId, t.rows[i].warehouseId)
           && r.rows[i].quantity == if IsPair(t.rows[i], c.productId, c.warehouseId) then c.quantity else t.rows[i].quantity
    ensures PairCount(t.rows, c.productId, c.warehouseId) != 1 ==>
      && r.nextId == t.nextId + 1
      && r.rows == t.rows + [Record(t.nextId, c.productId, c.warehouseId, c.quantity)]
  {
    if SingleRead(t.rows, c.productId, c.warehouseId).Some? then
      InventoryTable(
        seq(|t.rows|, i requires 0 <= i < |t.rows| =>
          if IsPair(t.rows[i], c.productId, c.warehouseId) then t.rows[i].(quantity := c.quantity) else t.rows[i]),
        t.nextId)
    else
      InventoryTable(t.rows + [Record(t.nextId, c.productId, c.warehouseId, c.quantity)], t.nextId + 1)
  }

  lemma {:induction false} PairCountZero(rows: seq<Record>, productId: nat, warehouseId: nat)
    ensures PairCount(rows, productId, warehouseId) == 0 <==> forall i :: 0 <= i < |rows| ==> !IsPair(rows[i], productId, warehouseId)
  {
    if rows != [] {
      var p := rows[..|rows| - 1];
      PairCountZero(p, productId, warehouseId);
      assert forall i :: 0 <= i < |p| ==> p[i] == rows[i];
    }
  }

  lemma {:induction false} PairCountUnique(t: InventoryTable, productId: nat, warehouseId: nat)
    requires PairsUnique(t)
    ensures PairCount(t.rows, productId, warehouseId) <= 1
    decreases |t.rows|
  {
    if t.rows != [] {
      var p := InventoryTable(t.rows[..|t.rows| - 1], t.nextId);
      PairCountUnique(p, productId, warehouseId);
      if IsPair(t.rows[|t.rows| - 1], productId, warehouseId) {
        PairCountZero(p.rows, productId, warehouseId);
      }
    }
  }

  /** After the upsert, reading the pair back gives the written quantity. */
  lemma UpdateReadsBack(t: InventoryTable, c: Change)
    requires PairsUnique(t)
    ensures QuantityAt(UpdateQuantity(t, c).rows, c.productId, c.warehouseId) == Some(c.quantity)
  {
    var r := UpdateQuantity(t, c);
    PairCountUnique(t, c.productId, c.warehouseId);
    PairCountZero(t.rows, c.productId, c.warehouseId);
    if PairCount(t.rows, c.productId, c.warehouseId) == 1 {
      var k :| 0 <= k < |t.rows| && IsPair(t.rows[k], c.productId, c.warehouseId);
      FirstPairQuantity(r.rows, c.productId, c.warehouseId, k);
    } else {
      FirstPairQuantity(r.rows, c.productId, c.warehouseId, |t.rows|);
    }
  }

  /** `QuantityAt` reads the first record carrying the pair. */
  lemma {:induction false} FirstPairQuantity(rows: seq<Record>, productId: nat, warehouseId: nat, k: nat)
    requires k < |rows| && IsPair(rows[k], productId, warehouseId)
    requires forall i :: 0 <= i < k ==> !IsPair(rows[i], productId, warehouseId)
    ensures QuantityAt(rows, productId, warehouseId) == Some(rows[k].quantity)
  {
    if k > 0 {
      FirstPairQuantity(rows[1..], productId, warehouseId, k - 1);
    }
  }

  /** The upsert leaves every other pair reading as before. */
  lemma UpdateFrame(t: InventoryTable, c: Change, productId: nat, warehouseId: nat)
    requires !(productId == c.productId && warehouseId == c.warehouseId)
    ensures QuantityAt(UpdateQuantity(t, c).rows, productId, warehouseId) == QuantityAt(t.rows, productId, warehouseId)
  {
    var r := UpdateQuantity(t, c);
    if PairCount(t.rows, c.productId, c.warehouseId) == 1 {
      SameReads(t.rows, r.rows, productId, warehouseId);
    } else {
      AppendOtherPair(t.rows, Record(t.nextId, c.productId, c.warehouseId, c.quantity), productId, warehouseId);
    }
  }

  lemma {:induction false} SameReads(a: seq<Record>, b: seq<Record>, productId: nat, warehouseId: nat)
    requires |a| == |b|
    requires forall i :: 0 <= i < |a| ==> (IsPair(a[i], productId, warehouseId) <==> IsPair(b[i], productId, warehouseId))
    requires forall i :: 0 <= i < |a| && IsPair(a[i], productId, warehouseId) ==> a[i].quantity == b[i].quantity
    ensures QuantityAt(a, productId, warehouseId) == QuantityAt(b, productId, warehouseId)
  {
    if a != [] {
      SameReads(a[1..], b[1..], productId, warehouseId);
    }
  }

  lemma {:induction false} AppendOtherPair(rows: seq<Record>, x: Record, productId: nat, warehouseId: nat)
    requires !IsPair(x, productId, warehouseId)
    ensures QuantityAt(rows + [x], productId, warehouseId) == QuantityAt(rows, productId, warehouseId)
  {
    if rows != [] {
      assert (rows + [x])[1..] == rows[1..] + [x];
      AppendOtherPair(rows[1..], x, productId, warehouseId);
    }
  }

  /** The upsert keeps at most one record per pair. */
  lemma UpdateKeepsUnique(t: InventoryTable, c: Change)
    requires PairsUnique(t)
    ensures PairsUnique(UpdateQuantity(t, c))
  {
    var r := UpdateQuantity(t, c);
    PairCountUnique(t, c.productId, c.warehouseId);
    if PairCount(t.rows, c.productId, c.warehouseId) == 0 {
      PairCountZero(t.rows, c.productId, c.warehouseId);
      forall i, j | 0 <= i < j < |r.rows|
        ensures !(r.rows[i].productId == r.rows[j].productId && r.rows[i].warehouseId == r.rows[j].warehouseId)
      {
        assert r.rows[i] == t.rows[i];
        if j < |t.rows| {
          assert r.rows[j] == t.rows[j];
        }
      }
    }
  }

  /** The changes applied one after another, in order. */
  function ApplyAll(t: InventoryTable, cs: seq<Change>): InventoryTable {
    if cs == [] then t else UpdateQuantity(ApplyAll(t, cs[..|cs| - 1]), cs[|cs| - 1])
  }

  /** The quantity of the last change to a pair, if any. */
  function LastChange(cs: seq<Change>, productId: nat, warehouseId: nat): (r: Option<int>)
    ensures r.None? <==> forall i :: 0 <= i < |cs| ==> !(cs[i].productId == productId && cs[i].warehouseId == warehouseId)
  {
    if cs == [] then None
    else if cs[|cs| - 1].productId == productId && cs[|cs| - 1].warehouseId == warehouseId then Some(cs[|cs| - 1].quantity)
    else LastChange(cs[..|cs| - 1], productId, warehouseId)
  }

  lemma {:induction false} ApplyAllKeepsUnique(t: InventoryTable, cs: seq<Change>)
    requires PairsUnique(t)
    ensures PairsUnique(ApplyAll(t, cs))
  {
    if cs != [] {
      ApplyAllKeepsUnique(t, cs[..|cs| - 1]);
      UpdateKeepsUnique(ApplyAll(t, cs[..|cs| - 1]), cs[|cs| - 1]);
    }
  }

  /**
   With duplicate pairs among the changes the last quantity wins; a pair no change mentions reads as
   before.
   */
  lemma {:induction false} ApplyAllLastWins(t: InventoryTable, cs: seq<Change>, productId: nat, warehouseId: nat)
    requires PairsUnique(t)
    ensures QuantityAt(ApplyAll(t, cs).rows, productId, warehouseId)
      == if LastChange(cs, productId, warehouseId).Some? then LastChange(cs, productId, warehouseId)
         else QuantityAt(t.rows, productId, warehouseId)
  {
    if cs != [] {
      var prefix := cs[..|cs| - 1];
      var c := cs[|cs| - 1];
      ApplyAllLastWins(t, prefix, productId, warehouseId);
      ApplyAllKeepsUnique(t, prefix);
      if c.productId == productId && c.warehouseId == warehouseId {
        UpdateReadsBack(ApplyAll(t, prefix), c);
      } else {
        UpdateFrame(ApplyAll(t, prefix), c, productId, warehouseId);
      }
    }
  }

  /** Applying a concatenation is applying one part after the other. */
  lemma {:induction false} ApplyAllAppend(t: InventoryTable, a: seq<Change>, b: seq<Change>)
    ensures ApplyAll(t, a + b) == ApplyAll(ApplyAll(t, a), b)
  {
    if b != [] {
      assert (a + b)[..|a + b| - 1] == a + b[..|b| - 1];
      ApplyAllAppend(t, a, b[..|b| - 1]);
    } else {
      assert a + b == a;
    }
  }

  lemma ApplyAllStep(t: InventoryTable, cs: seq<Change>, k: nat)
    requires k < |cs|
    ensures ApplyAll(t, cs[..k + 1]) == UpdateQuantity(ApplyAll(t, cs[..k]), cs[k])
  {
    assert cs[..k + 1][..k] == cs[..k];
  }

  /** One upsert, taking the table reached after `cs[..k]` to the one after `cs[..k + 1]`. */
  function ApplyNext(t: InventoryTable, cs: seq<Change>, current: InventoryTable, k: nat): (r: InventoryTable)
    requires k < |cs| && current == ApplyAll(t, cs[..k])
    ensures r == ApplyAll(t, cs[..k + 1])
  {
    ApplyAllStep(t, cs, k);
    UpdateQuantity(current, cs[k])
  }

  const BatchSize: nat := 50

  /**
   `bulkUpdateInventory`: the changes are taken in slices of 50 and each slice is applied item by item.
   The outcome is that of applying all changes once each, in order; `calls` counts the upserts and
   `batches` the slices, the fewest slices of 50 that cover the list.
   */
  method BulkUpdateInventory(t: InventoryTable, cs: seq<Change>) returns (r: InventoryTable, calls: nat, batches: nat)
    ensures r == ApplyAll(t, cs)
    ensures cs == [] ==> r == t
    ensures calls == |cs|
    ensures batches * 50 >= |cs| && (|cs| == 0 <==> batches == 0)
    ensures batches > 0 ==> (batches - 1) * 50 < |cs|
  {
    r := t;
    calls := 0;
    batches := 0;
    var i := 0;
    while i < |cs|
      invariant i == batches * 50
      invariant calls <= |cs|
      invariant i < |cs| ==> calls == i
      invariant i >= |cs| ==> calls == |cs| && (batches - 1) * 50 < |cs|
      invariant r == ApplyAll(t, cs[..calls])
    {
      var end := if i + BatchSize < |cs| then i + BatchSize else |cs|;
      var done;
      r, done := ApplyBatch(t, cs, r, i, end);
      calls := calls + done;
      batches := batches + 1;
      i := i + BatchSize;
    }
    assert cs[..|cs|] == cs;
  }

  /** One slice `cs[start..end]`, applied item by item to the table reached after `cs[..start]`. */
  method ApplyBatch(t: InventoryTable, cs: seq<Change>, current: InventoryTable, start: nat, end: nat)
    returns (r: InventoryTable, calls: nat)
    requires start <= end <= |cs|
    requires current == ApplyAll(t, cs[..start])
    ensures r == ApplyAll(t, cs[..end])
    ensures calls == end - start
  {
    var batch := cs[start..end];
    r := current;
    calls := 0;
    while calls < |batch|
      invariant calls <= |batch|
      invariant r == ApplyAll(current, batch[..calls])
    {
      r := ApplyNext(current, batch, r, calls);
      calls := calls + 1;
    }
    assert batch[..calls] == batch;
    assert cs[..end] == cs[..start] + batch;
    ApplyAllAppend(t, cs[..start], batch);
  }
}
