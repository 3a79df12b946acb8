/**
 The upload page's save: parsed CSV rows become product records (bulk import), then one inventory
 quantity per saved product is written into the default warehouse.
 */
module DataUpload {
  import opened Options
  import opened Text
  import opened Rows
  import opened ProductStore
  import opened InventoryStore

  const NoDataMessage := "No data to save"
  const NoWarehouseMessage := "Error: No default warehouse found. Check database connection."
  const SavePrefix := "Data saved successfully! "
  const SaveSuffix := " records imported to database."
  /** What the browser reports when the pairing reads past the last row (V8's wording). */
  const PastLastRowMessage := "Error saving data: Cannot read properties of undefined (reading 'Quantity')"

  /** `row.SKU || row.sku || ''`. */
  function SkuOf(row: Row): string {
    Or(row, "SKU", Or(row, "sku", ""))
  }

  /** One CSV row as a product: each column falls back to the next, then to a default. */
  function FormatProduct(row: Row): (r: ProductFields)
    ensures r.sku == SkuOf(row)
    ensures r.sku == if Has(row, "SKU") then row["SKU"] else if Has(row, "sku") then row["sku"] else ""
    ensures r.msku != "" && (Has(row, "MSKU") ==> r.msku == row["MSKU"])
    ensures !Has(row, "MSKU") && Has(row, "msku") ==> r.msku == row["msku"]
    ensures !Has(row, "MSKU") && !Has(row, "msku") ==> r.msku == "UNMAPPED"
    ensures r.name != ""
    ensures Has(row, "ProductName") ==> r.name == row["ProductName"]
    ensures !Has(row, "ProductName") && Has(row, "Name") ==> r.name == row["Name"]
    ensures !Has(row, "ProductName") && !Has(row, "Name") && r.sku == "" ==> r.name == "Unknown Product"
    ensures !Has(row, "ProductName") && !Has(row, "Name") && r.sku != "" ==> r.name == r.sku
    ensures r.description == if Has(row, "Description") then row["Description"] else Or(row, "description", "")
  {
    ProductFields(
      SkuOf(row),
      Or(row, "MSKU", Or(row, "msku", "UNMAPPED")),
      Or(row, "ProductName", Or(row, "Name", Or(row, "SKU", Or(row, "sku", "Unknown Product")))),
      Or(row, "Description", Or(row, "description", "")))
  }

  /** `rawCsvData.map(row => ({...}))`: one product per row, in row order. */
  function FormatAll(rows: seq<Row>): (r: seq<ProductFields>)
    ensures |r| == |rows| && forall i :: 0 <= i < |rows| ==> r[i] == FormatProduct(rows[i])
  {
    seq(|rows|, i requires 0 <= i < |rows| => FormatProduct(rows[i]))
  }

  /** `row.Quantity || row.quantity || '0'`, the text handed to `parseInt`. */
  function QuantityText(row: Row): string {
    Or(row, "Quantity", Or(row, "quantity", "0"))
  }

  /**
   The inventory writes as the page builds them: saved product `i` takes the quantity of CSV row `i`,
   whatever row it came from, and every write goes to the default warehouse. With more saved products
   than rows, reading `rawCsvData[index].Quantity` past the end throws (`None`).
   */
  function PositionalUpdates(saved: seq<Product>, rows: seq<Row>, warehouse: nat, parseInt: string -> int): (r: Option<seq<Change>>)
    ensures r.None? <==> |saved| > |rows|
    ensures r.Some? ==> |r.value| == |saved| && forall i :: 0 <= i < |saved| ==>
      r.value[i] == Change(saved[i].id, warehouse, parseInt(QuantityText(rows[i])))
  {
    if |saved| > |rows| then None
    else Some(seq(|saved|, i requires 0 <= i < |saved| => Change(saved[i].id, warehouse, parseInt(QuantityText(rows[i])))))
  }

  /** Row `j` carries `sku` and no later row does. */
  predicate LastRowWith(rows: seq<Row>, sku: string, j: int) {
    && 0 <= j < |rows| && SkuOf(rows[j]) == sku
    && forall k :: j < k < |rows| ==> SkuOf(rows[k]) != sku
  }

  /** When the final row does not carry `sku`, the last row carrying it is the same with or without that row. */
  lemma LastRowWithInit(rows: seq<Row>, sku: string, j: int)
    requires rows != [] && SkuOf(rows[|rows| - 1]) != sku && 0 <= j < |rows| - 1
    ensures LastRowWith(rows, sku, j) <==> LastRowWith(rows[..|rows| - 1], sku, j)
  {
    var init := rows[..|rows| - 1];
    assert forall k :: j < k < |rows| - 1 ==> init[k] == rows[k];
  }

  /** The quantity text of the last row whose product carries `sku`, if any. */
  function LastQuantityFor(rows: seq<Row>, sku: string): (r: Option<string>)
    ensures r.None? <==> forall i :: 0 <= i < |rows| ==> SkuOf(rows[i]) != sku
    ensures r.Some? ==> exists j :: LastRowWith(rows, sku, j) && QuantityText(rows[j]) == r.value
  {
    if rows == [] then None
    else if SkuOf(rows[|rows| - 1]) == sku then
      assert LastRowWith(rows, sku, |rows| - 1);
      Some(QuantityText(rows[|rows| - 1]))
    else
      var init := rows[..|rows| - 1];
      var r := LastQuantityFor(init, sku);
      assert r.None? <==> forall i :: 0 <= i < |rows| ==> SkuOf(rows[i]) != sku by {
        assert forall i :: 0 <= i < |rows| - 1 ==> init[i] == rows[i];
      }
      assert r.Some? ==> exists j :: LastRowWith(rows, sku, j) && QuantityText(rows[j]) == r.value by {
        if r.Some? {
          var j :| LastRowWith(init, sku, j) && QuantityText(init[j]) == r.value;
          LastRowWithInit(rows, sku, j);
        }
      }
      r
  }

  /** The row found is the last one carrying the SKU: given that row, the result is its quantity text. */
  lemma {:induction false} LastQuantityAt(rows: seq<Row>, sku: string, j: int)
    requires LastRowWith(rows, sku, j)
    ensures LastQuantityFor(rows, sku) == Some(QuantityText(rows[j]))
  {
    if j < |rows| - 1 {
      var init := rows[..|rows| - 1];
      LastRowWithInit(rows, sku, j);
      LastQuantityAt(init, sku, j);
      assert init[j] == rows[j];
    }
  }

  /** Some row carries `sku`. */
  predicate Carries(rows: seq<Row>, sku: string) {
    exists j :: 0 <= j < |rows| && SkuOf(rows[j]) == sku
  }

  /**
   The writes as intended: each saved product takes the quantity of the last CSV row carrying its
   SKU (the row whose fields an update leaves in place), or `parseInt("0")` when no row carries it,
   and every write goes to the default warehouse.
   */
  function UpdatesBySku(saved: seq<Product>, rows: seq<Row>, warehouse: nat, parseInt: string -> int): (r: seq<Change>)
    ensures |r| == |saved|
    ensures forall i :: 0 <= i < |saved| ==> r[i].productId == saved[i].id && r[i].warehouseId == warehouse
    ensures forall i, j :: 0 <= i < |saved| && LastRowWith(rows, saved[i].fields.sku, j) ==>
      r[i].quantity == parseInt(QuantityText(rows[j]))
    ensures forall i :: 0 <= i < |saved| && !Carries(rows, saved[i].fields.sku) ==> r[i].quantity == parseInt("0")
  {
    var r := seq(|saved|, i requires 0 <= i < |saved| =>
      Change(saved[i].id, warehouse, parseInt(LastQuantityFor(rows, saved[i].fields.sku).GetOr("0"))));
    BySkuFacts(saved, rows, warehouse, parseInt, r);
    r
  }

  lemma BySkuFacts(saved: seq<Product>, rows: seq<Row>, warehouse: nat, parseInt: string -> int, r: seq<Change>)
    requires |r| == |saved|
    requires forall i :: 0 <= i < |saved| ==>
      r[i] == Change(saved[i].id, warehouse, parseInt(LastQuantityFor(rows, saved[i].fields.sku).GetOr("0")))
    ensures forall i, j :: 0 <= i < |saved| && LastRowWith(rows, saved[i].fields.sku, j) ==>
      r[i].quantity == parseInt(QuantityText(rows[j]))
  {
    forall i, j | 0 <= i < |saved| && LastRowWith(rows, saved[i].fields.sku, j)
      ensures r[i].quantity == parseInt(QuantityText(rows[j]))
    {
      LastQuantityAt(rows, saved[i].fields.sku, j);
    }
  }

  /** The three tables' worth of state a save touches, and the message it leaves. */
  datatype SaveOutcome = SaveOutcome(products: ProductTable, inventory: InventoryTable, message: string)

  function SuccessMessage(count: nat): string {
    SavePrefix + NatToString(count) + SaveSuffix
  }

  /**
   `saveData`, writing quantities by SKU: no rows or no default warehouse leave both tables alone and
   set the matching message; otherwise the products are imported, one inventory write per saved
   product goes to the default warehouse, and the message reports the row count.
   */
  function SaveData(rows: seq<Row>, warehouse: Option<nat>, products: ProductTable, inventory: InventoryTable,
                    lookupOk: bool, parseInt: string -> int): (r: SaveOutcome)
    ensures rows == [] ==> r == SaveOutcome(products, inventory, NoDataMessage)
    ensures rows != [] && warehouse.None? ==> r == SaveOutcome(products, inventory, NoWarehouseMessage)
    ensures rows != [] && warehouse.Some? ==>
      var imported := BulkImport(products, FormatAll(rows), lookupOk);
      && r.products == imported.table
      && (Valid(products) ==> Valid(r.products))
      && r.inventory == ApplyAll(inventory, UpdatesBySku(imported.saved, rows, warehouse.value, parseInt))
      && r.message == SuccessMessage(|rows|)
  {
    if rows == [] then SaveOutcome(products, inventory, NoDataMessage)
    else if warehouse.None? then SaveOutcome(products, inventory, NoWarehouseMessage)
    else
      var imported := BulkImport(products, FormatAll(rows), lookupOk);
      BulkImportSaved(products, FormatAll(rows), lookupOk);
      var changes := UpdatesBySku(imported.saved, rows, warehouse.value, parseInt);
      SaveOutcome(imported.table, ApplyAll(inventory, changes), SuccessMessage(|rows|))
  }

  /**
   `saveData` as written: the import returns only the inserted records, and quantities are paired
   with them by position. Reading past the last row would throw and leave the inventory alone, but
   the import never returns more records than there are rows. So only new products get a quantity,
   each the quantity of the row at its position in the inserted list.
   */
  function SaveDataAsWritten(rows: seq<Row>, warehouse: Option<nat>, products: ProductTable, inventory: InventoryTable,
                             lookupOk: bool, parseInt: string -> int): (r: SaveOutcome)
    ensures rows == [] ==> r == SaveOutcome(products, inventory, NoDataMessage)
    ensures rows != [] && warehouse.None? ==> r == SaveOutcome(products, inventory, NoWarehouseMessage)
    ensures rows != [] && warehouse.Some? ==>
      var imported := BulkImportAsWritten(products, FormatAll(rows), lookupOk);
      var changes := PositionalUpdates(imported.saved, rows, warehouse.value, parseInt);
      && changes.Some?
      && (forall i :: 0 <= i < |changes.value| ==>
            changes.value[i] == Change(products.nextId + i, warehouse.value, parseInt(QuantityText(rows[i]))))
      && r == SaveOutcome(imported.table, ApplyAll(inventory, changes.value), SuccessMessage(|rows|))
  {
    if rows == [] then SaveOutcome(products, inventory, NoDataMessage)
    else if warehouse.None? then SaveOutcome(products, inventory, NoWarehouseMessage)
    else
      var imported := BulkImportAsWritten(products, FormatAll(rows), lookupOk);
      AsWrittenPairing(rows, products, lookupOk, warehouse.value, parseInt);
      match PositionalUpdates(imported.saved, rows, warehouse.value, parseInt)
      case None => SaveOutcome(imported.table, inventory, PastLastRowMessage)
      case Some(changes) => SaveOutcome(imported.table, ApplyAll(inventory, changes), SuccessMessage(|rows|))
  }

  /** The as-written pairing never reads past the last row and writes only to the freshly inserted ids. */
  lemma AsWrittenPairing(rows: seq<Row>, products: ProductTable, lookupOk: bool, warehouse: nat, parseInt: string -> int)
    ensures var changes := PositionalUpdates(BulkImportAsWritten(products, FormatAll(rows), lookupOk).saved, rows, warehouse, parseInt);
      && changes.Some?
      && forall i :: 0 <= i < |changes.value| ==>
           changes.value[i] == Change(products.nextId + i, warehouse, parseInt(QuantityText(rows[i])))
  {
    var ps := FormatAll(rows);
    var saved := BulkImportAsWritten(products, ps, lookupOk).saved;
    assert saved == Inserted(products, ps, lookupOk);
    assert |saved| <= |rows|;
    InsertedIds(products, ps, lookupOk);
  }

  /** From a valid products table the corrected import returns at most one record per row. */
  lemma SavedFitsRows(products: ProductTable, rows: seq<Row>, lookupOk: bool)
    ensures Valid(products) ==> |BulkImport(products, FormatAll(rows), lookupOk).saved| <= |rows|
  {
    BulkImportSaved(products, FormatAll(rows), lookupOk);
  }

  function RowA(): Row { map["SKU" := "A", "Quantity" := "5"] }
  function RowB(): Row { map["SKU" := "B", "Quantity" := "7"] }

  lemma RowsFormatted()
    ensures FormatProduct(RowA()) == ProductFields("A", "UNMAPPED", "A", "")
    ensures FormatProduct(RowB()) == ProductFields("B", "UNMAPPED", "B", "")
    ensures QuantityText(RowA()) == "5" && QuantityText(RowB()) == "7"
  {
  }

  /**
   A stored product `A` followed by a new product `B` in the file. As written, the import returns only
   `B`, and the positional pairing gives it row A's quantity (`5`) while `A` gets none. The corrected
   import returns `B` first as well, and pairing by SKU writes B's own `7`.
   */
  lemma PositionalPairingMismatch(warehouse: nat, parseInt: string -> int)
    ensures var t := ProductTable([Product(0, ProductFields("A", "UNMAPPED", "A", ""))], 1);
      var rows := [RowA(), RowB()];
      var b := Product(1, ProductFields("B", "UNMAPPED", "B", ""));
      && BulkImportAsWritten(t, FormatAll(rows), true).saved == [b]
      && PositionalUpdates([b], rows, warehouse, parseInt) == Some([Change(1, warehouse, parseInt("5"))])
      && |BulkImport(t, FormatAll(rows), true).saved| >= 1 && BulkImport(t, FormatAll(rows), true).saved[0] == b
      && UpdatesBySku(BulkImport(t, FormatAll(rows), true).saved, rows, warehouse, parseInt)[0]
         == Change(1, warehouse, parseInt("7"))
  {
    ExampleAsWritten(warehouse, parseInt);
    ExampleCorrected(warehouse, parseInt);
  }

  lemma ExampleAsWritten(warehouse: nat, parseInt: string -> int)
    ensures var t := ProductTable([Product(0, ProductFields("A", "UNMAPPED", "A", ""))], 1);
      var rows := [RowA(), RowB()];
      var b := Product(1, ProductFields("B", "UNMAPPED", "B", ""));
      && BulkImportAsWritten(t, FormatAll(rows), true).saved == [b]
      && PositionalUpdates([b], rows, warehouse, parseInt) == Some([Change(1, warehouse, parseInt("5"))])
  {
    ExampleAsWrittenSaved();
    ExamplePositional(warehouse, parseInt);
  }

  lemma ExampleAsWrittenSaved()
    ensures BulkImportAsWritten(ProductTable([Product(0, ProductFields("A", "UNMAPPED", "A", ""))], 1),
      FormatAll([RowA(), RowB()]), true).saved == [Product(1, ProductFields("B", "UNMAPPED", "B", ""))]
  {
    var a := ProductFields("A", "UNMAPPED", "A", "");
    var b := ProductFields("B", "UNMAPPED", "B", "");
    var t := ProductTable([Product(0, a)], 1);
    ExampleFormatted();
    ExampleSaved();
    assert BulkImportAsWritten(t, [a, b], true).saved == Inserted(t, [a, b], true);
  }

  lemma ExamplePositional(warehouse: nat, parseInt: string -> int)
    ensures PositionalUpdates([Product(1, ProductFields("B", "UNMAPPED", "B", ""))], [RowA(), RowB()], warehouse, parseInt)
      == Some([Change(1, warehouse, parseInt("5"))])
  {
    RowsFormatted();
    var positional := PositionalUpdates([Product(1, ProductFields("B", "UNMAPPED", "B", ""))], [RowA(), RowB()], warehouse, parseInt);
    assert positional.value[0] == Change(1, warehouse, parseInt(QuantityText(RowA())));
    assert |positional.value| == 1;
    assert positional.value == [Change(1, warehouse, parseInt("5"))];
  }

  lemma ExampleCorrected(warehouse: nat, parseInt: string -> int)
    ensures var t := ProductTable([Product(0, ProductFields("A", "UNMAPPED", "A", ""))], 1);
      var rows := [RowA(), RowB()];
      var b := Product(1, ProductFields("B", "UNMAPPED", "B", ""));
      && |BulkImport(t, FormatAll(rows), true).saved| >= 1 && BulkImport(t, FormatAll(rows), true).saved[0] == b
      && UpdatesBySku(BulkImport(t, FormatAll(rows), true).saved, rows, warehouse, parseInt)[0]
         == Change(1, warehouse, parseInt("7"))
  {
    var a := ProductFields("A", "UNMAPPED", "A", "");
    var b := ProductFields("B", "UNMAPPED", "B", "");
    var t := ProductTable([Product(0, a)], 1);
    var rows := [RowA(), RowB()];
    ExampleFormatted();
    ExampleSaved();
    var saved := BulkImport(t, [a, b], true).saved;
    assert saved[0] == Product(1, b);
    RowsFormatted();
    ExampleLastQuantity();
    var bySku := UpdatesBySku(saved, rows, warehouse, parseInt);
    assert bySku[0] == Change(1, warehouse, parseInt(LastQuantityFor(rows, "B").GetOr("0")));
  }

  lemma ExampleFormatted()
    ensures FormatAll([RowA(), RowB()]) == [ProductFields("A", "UNMAPPED", "A", ""), ProductFields("B", "UNMAPPED", "B", "")]
  {
    RowsFormatted();
  }

  lemma ExampleLastQuantity()
    ensures LastQuantityFor([RowA(), RowB()], "B") == Some("7")
  {
    RowsFormatted();
  }

  lemma ExampleSaved()
    ensures var a := ProductFields("A", "UNMAPPED", "A", "");
      var b := ProductFields("B", "UNMAPPED", "B", "");
      var t := ProductTable([Product(0, a)], 1);
      && Inserted(t, [a, b], true) == [Product(1, b)]
      && |BulkImport(t, [a, b], true).saved| >= 1 && BulkImport(t, [a, b], true).saved[0] == Product(1, b)
  {
    var a := ProductFields("A", "UNMAPPED", "A", "");
    var b := ProductFields("B", "UNMAPPED", "B", "");
    var t := ProductTable([Product(0, a)], 1);
    var ps := [a, b];
    ExampleIndex();
    var index := IndexFor(t, ps, true);
    assert ToCreate([b], index) == [b];
    assert ToCreate(ps, index) == [b];
    assert Inserted(t, ps, true) == [Product(1, b)];
  }

  lemma ExampleIndex()
    ensures var a := ProductFields("A", "UNMAPPED", "A", "");
      var b := ProductFields("B", "UNMAPPED", "B", "");
      var index := IndexFor(ProductTable([Product(0, a)], 1), [a, b], true);
      "A" in index && "B" !in index
  {
    var a := ProductFields("A", "UNMAPPED", "A", "");
    var b := ProductFields("B", "UNMAPPED", "B", "");
    var t := ProductTable([Product(0, a)], 1);
    var ps := [a, b];
    assert ps[1..] == [b];
    assert Skus([b]) == ["B"];
    assert Skus(ps) == ["A", "B"];
    assert Stored(t, "A") by { assert t.rows[0] in t.rows; }
  }
}
