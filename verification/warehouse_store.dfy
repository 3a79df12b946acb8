/** The warehouses table and the default warehouse the upload page writes inventory into. */
module WarehouseStore {
  import opened Options

  datatype Warehouse = Warehouse(id: nat, name: string, location: string)

  /** The stored warehouses in storage order and the id the next insert receives. */
  datatype WarehouseTable = WarehouseTable(rows: seq<Warehouse>, nextId: nat)

  const DefaultName := "Main Warehouse"
  const DefaultLocation := "Default Location"

  /** `getWarehouseById`: the warehouse with that id, or nothing (the not-found case yields null). */
  function GetById(t: WarehouseTable, id: nat): (r: Option<Warehouse>)
    ensures r.Some? ==> r.value in t.rows && r.value.id == id
    ensures r.None? <==> forall w :: w in t.rows ==> w.id != id
    decreases |t.rows|
  {
    if t.rows == [] then None
    else if t.rows[0].id == id then Some(t.rows[0])
    else
      var r := GetById(WarehouseTable(t.rows[1..], t.nextId), id);
      assert forall w :: w in t.rows <==> w == t.rows[0] || w in t.rows[1..] by {
        assert t.rows == [t.rows[0]] + t.rows[1..];
      }
      r
  }

  /** `deleteWarehouse`: drops the warehouses with that id, keeping the others in order. */
  function DeleteWarehouse(t: WarehouseTable, id: nat): (r: WarehouseTable)
    ensures r.nextId == t.nextId
    ensures forall w :: w in r.rows <==> w in t.rows && w.id != id
    ensures GetById(r, id).None?
  {
    WarehouseTable(WithoutId(t.rows, id), t.nextId)
  }

  function WithoutId(rows: seq<Warehouse>, id: nat): (r: seq<Warehouse>)
    ensures forall w :: w in r <==> w in rows && w.id != id
  {
    if rows == [] then []
    else if rows[0].id == id then WithoutId(rows[1..], id)
    else [rows[0]] + WithoutId(rows[1..], id)
  }

  /**
   `ensureDefaultWarehouse`: when the probe `.select('*').limit(1)` succeeds on a non-empty table,
   the first stored warehouse is returned and the table is unchanged. When it finds nothing, or fails
   (`!warehouses` holds for a failed select too), a new `Main Warehouse` at `Default Location` is
   inserted and returned, even if the table already held warehouses.
   */
  function EnsureDefault(t: WarehouseTable, selectOk: bool): (r: (WarehouseTable, Warehouse))
    ensures selectOk && t.rows != [] ==> r.0 == t && r.1 == t.rows[0]
    ensures !selectOk || t.rows == [] ==>
      && r.0.rows == t.rows + [r.1] && r.0.nextId == t.nextId + 1
      && r.1 == Warehouse(t.nextId, DefaultName, DefaultLocation)
    ensures r.1 in r.0.rows
  {
    if selectOk && t.rows != [] then (t, t.rows[0])
    else
      var w := Warehouse(t.nextId, DefaultName, DefaultLocation);
      (WarehouseTable(t.rows + [w], t.nextId + 1), w)
  }

  /**
   A second, successful call changes nothing; after a first call on an empty table it also returns
   the same warehouse.
   */
  lemma EnsureDefaultTwice(t: WarehouseTable, selectOk: bool)
    ensures var (t1, w1) := EnsureDefault(t, selectOk);
      && EnsureDefault(t1, true).0 == t1
      && (t.rows == [] ==> EnsureDefault(t1, true).1 == w1)
  {
  }
}
