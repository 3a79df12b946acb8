/**
 The products table and the bulk import that the upload page drives. The hosted table is an
 in-memory sequence of records in storage order; ids come from a counter.
 */
module ProductStore {
  import opened Options

  /** The columns a caller writes. */
  datatype ProductFields = ProductFields(sku: string, msku: string, name: string, description: string)

  datatype Product = Product(id: nat, fields: ProductFields)

  /** The stored records and the id the next insert receives. */
  datatype ProductTable = ProductTable(rows: seq<Product>, nextId: nat)

  /** Ids are below the counter and never repeat. */
  predicate Valid(t: ProductTable) {
    && (forall p :: p in t.rows ==> p.id < t.nextId)
    && DistinctIds(t.rows)
  }

  predicate DistinctIds(rows: seq<Product>) {
    forall i, j :: 0 <= i < j < |rows| ==> rows[i].id != rows[j].id
  }

  /** `deleteProduct(id)`: drops the record with that id, keeping the others in order. */
  function DeleteProduct(t: ProductTable, id: nat): (r: ProductTable)
    ensures r.nextId == t.nextId
    ensures forall p :: p in r.rows <==> p in t.rows && p.id != id
    ensures Valid(t) ==> Valid(r)
  {
    DeleteKeepsValid(t, id);
    ProductTable(WithoutId(t.rows, id), t.nextId)
  }

  function WithoutId(rows: seq<Product>, id: nat): (r: seq<Product>)
    ensures forall p :: p in r <==> p in rows && p.id != id
  {
    Keep(rows, (p: Product) => p.id != id)
  }

  /** `rows.filter(keep)`: the records satisfying `keep`, in storage order. */
  function Keep(rows: seq<Product>, keep: Product -> bool): (r: seq<Product>)
    ensures forall p :: p in r <==> p in rows && keep(p)
    ensures |r| <= |rows|
  {
    if rows == [] then []
    else if keep(rows[0]) then [rows[0]] + Keep(rows[1..], keep)
    else Keep(rows[1..], keep)
  }

  lemma DeleteKeepsValid(t: ProductTable, id: nat)
    ensures Valid(t) ==> Valid(ProductTable(WithoutId(t.rows, id), t.nextId))
  {
    if Valid(t) {
      KeepDistinct(t.rows, (p: Product) => p.id != id);
    }
  }

  lemma {:induction false} KeepDistinct(rows: seq<Product>, keep: Product -> bool)
    requires DistinctIds(rows)
    ensures DistinctIds(Keep(rows, keep))
  {
    if rows != [] {
      var rest := rows[1..];
      assert DistinctIds(rest) by {
        forall i, j | 0 <= i < j < |rest| ensures rest[i].id != rest[j].id {
          assert rest[i] == rows[i + 1] && rest[j] == rows[j + 1];
        }
      }
      KeepDistinct(rest, keep);
      var w := Keep(rest, keep);
      if keep(rows[0]) {
        forall p | p in w ensures p.id != rows[0].id {
          var k :| 0 <= k < |rest| && rest[k] == p;
          assert rows[k + 1] == p;
        }
        var r := [rows[0]] + w;
        forall i, j | 0 <= i < j < |r| ensures r[i].id != r[j].id {
          if i == 0 {
            assert r[j] == w[j - 1] && r[j] in w;
          } else {
            assert r[i] == w[i - 1] && r[j] == w[j - 1];
          }
        }
      }
    }
  }

  /** The ids of the records. */
  function IdSet(rows: seq<Product>): (r: set<nat>)
    ensures forall p :: p in rows ==> p.id in r
    ensures forall x :: x in r ==> exists p :: p in rows && p.id == x
  {
    if rows == [] then {} else {rows[0].id} + IdSet(rows[1..])
  }

  /** Distinct ids: as many records as ids. */
  lemma {:induction false} DistinctIdsCard(rows: seq<Product>)
    requires DistinctIds(rows)
    ensures |IdSet(rows)| == |rows|
  {
    if rows != [] {
      DistinctTail(rows);
      DistinctIdsCard(rows[1..]);
      assert IdSet(rows) == {rows[0].id} + IdSet(rows[1..]);
    }
  }

  /** Dropping the first record keeps the ids distinct, and its id is not among the others. */
  lemma DistinctTail(rows: seq<Product>)
    requires rows != [] && DistinctIds(rows)
    ensures DistinctIds(rows[1..]) && rows[0].id !in IdSet(rows[1..])
  {
    var rest := rows[1..];
    forall i, j | 0 <= i < j < |rest| ensures rest[i].id != rest[j].id {
      assert rest[i] == rows[i + 1] && rest[j] == rows[j + 1];
    }
    forall p | p in rest ensures p.id != rows[0].id {
      var k :| 0 <= k < |rest| && rest[k] == p;
      assert rows[k + 1] == p;
    }
  }

  /** Some stored record carries `sku`. */
  predicate Stored(t: ProductTable, sku: string) {
    exists q :: q in t.rows && q.fields.sku == sku
  }

  /** `products.map(p => p.sku)`. */
  function Skus(ps: seq<ProductFields>): (r: seq<string>)
    ensures forall k :: k in r <==> exists p :: p in ps && p.sku == k
  {
    if ps == [] then [] else [ps[0].sku] + Skus(ps[1..])
  }

  /** The last input product carrying `sku`, if any. */
  function LastWithSku(ps: seq<ProductFields>, sku: string): (r: Option<ProductFields>)
    ensures r.None? <==> forall p :: p in ps ==> p.sku != sku
    ensures r.Some? ==>
      exists k :: 0 <= k < |ps| && ps[k] == r.value && r.value.sku == sku && (forall j :: k < j < |ps| ==> ps[j].sku != sku)
  {
    if ps == [] then None
    else if ps[|ps| - 1].sku == sku then Some(ps[|ps| - 1])
    else
      var init := ps[..|ps| - 1];
      assert forall p :: p in ps <==> p in init || p == ps[|ps| - 1] by {
        assert ps == init + [ps[|ps| - 1]];
      }
      LastWithSku(init, sku)
  }

  /** No two SKUs of the index share a record. */
  predicate Injective(index: map<string, nat>) {
    forall a, b :: a in index && b in index && index[a] == index[b] ==> a == b
  }

  /** `.select('sku, id').in('sku', skus)`: the stored records whose SKU is asked for. */
  function Matching(rows: seq<Product>, skus: seq<string>): (r: seq<Product>)
    ensures forall p :: p in r <==> p in rows && p.fields.sku in skus
  {
    Keep(rows, (p: Product) => p.fields.sku in skus)
  }

  /**
   `new Map(found.map(p => [p.sku, p.id]))`: one entry per SKU found, holding the id of the last record
   carrying it.
   */
  function SkuIndex(found: seq<Product>): (r: map<string, nat>)
    ensures forall k :: k in r <==> exists p :: p in found && p.fields.sku == k
    ensures forall k :: k in r ==> exists p :: p in found && p.fields.sku == k && p.id == r[k]
  {
    if found == [] then map[]
    else
      var last := found[|found| - 1];
      var r := SkuIndex(found[..|found| - 1])[last.fields.sku := last.id];
      assert forall p :: p in found <==> p in found[..|found| - 1] || p == last by {
        assert found == found[..|found| - 1] + [last];
      }
      r
  }

  /** The lookup's outcome: no data (a failed query) gives an empty index, so every product counts as new. */
  function ExistingIndex(found: Option<seq<Product>>): (r: map<string, nat>)
    ensures found.None? ==> r == map[]
    ensures found.Some? ==> r == SkuIndex(found.value)
  {
    match found
    case None => map[]
    case Some(f) => SkuIndex(f)
  }

  /** The index built against table `t`; `lookupOk` is false when the lookup returned no data. */
  function IndexFor(t: ProductTable, ps: seq<ProductFields>, lookupOk: bool): (r: map<string, nat>)
    ensures forall k :: k in r <==> lookupOk && k in Skus(ps) && Stored(t, k)
    ensures forall k :: k in r ==> exists q :: q in t.rows && q.fields.sku == k && q.id == r[k]
  {
    ExistingIndex(if lookupOk then Some(Matching(t.rows, Skus(ps))) else None)
  }

  /** `products.filter(p => !existing.has(p.sku))`. */
  function ToCreate(ps: seq<ProductFields>, index: map<string, nat>): (r: seq<ProductFields>)
    ensures forall p :: p in r <==> p in ps && p.sku !in index
  {
    if ps == [] then []
    else if ps[0].sku !in index then [ps[0]] + ToCreate(ps[1..], index)
    else ToCreate(ps[1..], index)
  }

  /** An update aimed at a stored record. */
  datatype Update = Update(id: nat, fields: ProductFields)

  /** `products.filter(p => existing.has(p.sku)).map(p => ({id: existing.get(p.sku), ...p}))`. */
  function ToUpdate(ps: seq<ProductFields>, index: map<string, nat>): (r: seq<Update>)
    ensures forall u :: u in r <==> u.fields in ps && u.fields.sku in index && u.id == index[u.fields.sku]
  {
    if ps == [] then []
    else if ps[0].sku in index then [Update(index[ps[0].sku], ps[0])] + ToUpdate(ps[1..], index)
    else ToUpdate(ps[1..], index)
  }

  /** `filter` keeps order: the new products of a concatenation are those of each part, in turn. */
  lemma {:induction false} ToCreateAppend(a: seq<ProductFields>, b: seq<ProductFields>, index: map<string, nat>)
    ensures ToCreate(a + b, index) == ToCreate(a, index) + ToCreate(b, index)
  {
    if a != [] {
      assert (a + b)[1..] == a[1..] + b;
      ToCreateAppend(a[1..], b, index);
    } else {
      assert a + b == b;
    }
  }

  /** A single product is kept for insertion exactly when its SKU is not stored. */
  lemma ToCreateOne(p: ProductFields, index: map<string, nat>)
    ensures ToCreate([p], index) == if p.sku in index then [] else [p]
  {
    assert [p][1..] == [];
  }

  /** The update list of a concatenation is those of each part, in turn. */
  lemma {:induction false} ToUpdateAppend(a: seq<ProductFields>, b: seq<ProductFields>, index: map<string, nat>)
    ensures ToUpdate(a + b, index) == ToUpdate(a, index) + ToUpdate(b, index)
  {
    if a != [] {
      assert (a + b)[1..] == a[1..] + b;
      ToUpdateAppend(a[1..], b, index);
    } else {
      assert a + b == b;
    }
  }

  /** A single product gives one update, aimed at its SKU's record, exactly when its SKU is stored. */
  lemma ToUpdateOne(p: ProductFields, index: map<string, nat>)
    ensures ToUpdate([p], index) == if p.sku in index then [Update(index[p.sku], p)] else []
  {
    assert [p][1..] == [];
  }

  function UpdateFields(us: seq<Update>): (r: seq<ProductFields>)
    ensures |r| == |us| && forall i :: 0 <= i < |us| ==> r[i] == us[i].fields
  {
    seq(|us|, i requires 0 <= i < |us| => us[i].fields)
  }

  /** Every product lands in exactly one of the two lists. */
  lemma {:induction false} PartitionComplete(ps: seq<ProductFields>, index: map<string, nat>)
    ensures multiset(ToCreate(ps, index)) + multiset(UpdateFields(ToUpdate(ps, index))) == multiset(ps)
  {
    if ps != [] {
      PartitionComplete(ps[1..], index);
      PartitionStep(ps, index);
      assert ps == [ps[0]] + ps[1..];
      assert multiset(ps) == multiset{ps[0]} + multiset(ps[1..]);
    }
  }

  /** The first product goes to exactly one of the lists; the rest are split as on their own. */
  lemma PartitionStep(ps: seq<ProductFields>, index: map<string, nat>)
    requires ps != []
    ensures multiset(ToCreate(ps, index)) + multiset(UpdateFields(ToUpdate(ps, index)))
      == multiset{ps[0]} + multiset(ToCreate(ps[1..], index)) + multiset(UpdateFields(ToUpdate(ps[1..], index)))
  {
    var c := ToCreate(ps[1..], index);
    var u := ToUpdate(ps[1..], index);
    if ps[0].sku in index {
      var x := Update(index[ps[0].sku], ps[0]);
      assert ToCreate(ps, index) == c;
      assert ToUpdate(ps, index) == [x] + u;
      assert UpdateFields([x] + u) == [ps[0]] + UpdateFields(u);
    } else {
      assert ToCreate(ps, index) == [ps[0]] + c;
      assert ToUpdate(ps, index) == u;
    }
  }

  lemma PartitionSizes(ps: seq<ProductFields>, index: map<string, nat>)
    ensures |ToCreate(ps, index)| + |ToUpdate(ps, index)| == |ps|
  {
    PartitionComplete(ps, index);
    assert |multiset(ToCreate(ps, index)) + multiset(UpdateFields(ToUpdate(ps, index)))| == |multiset(ps)|;
  }

  /** A later record with the same SKU overwrites an earlier one in the index. */
  lemma {:induction false} SkuIndexLastWins(found: seq<Product>, i: nat)
    requires i < |found|
    requires forall j :: i < j < |found| ==> found[j].fields.sku != found[i].fields.sku
    ensures found[i].fields.sku in SkuIndex(found) && SkuIndex(found)[found[i].fields.sku] == found[i].id
  {
    if i < |found| - 1 {
      SkuIndexLastWins(found[..|found| - 1], i);
    }
  }

  /** `.insert(products).select()`: one record per product, fresh ids in input order, appended. */
  function InsertAll(t: ProductTable, ps: seq<ProductFields>): (r: ProductTable)
    ensures r.nextId == t.nextId + |ps|
    ensures |r.rows| == |t.rows| + |ps| && r.rows[..|t.rows|] == t.rows
    ensures forall i :: 0 <= i < |ps| ==> r.rows[|t.rows| + i] == Product(t.nextId + i, ps[i])
    ensures Valid(t) ==> Valid(r)
  {
    var added := seq(|ps|, i requires 0 <= i < |ps| => Product(t.nextId + i, ps[i]));
    var r := ProductTable(t.rows + added, t.nextId + |ps|);
    assert r.rows[..|t.rows|] == t.rows;
    assert Valid(t) ==> Valid(r) by {
      if Valid(t) {
        AppendFreshValid(t, added);
      }
    }
    r
  }

  /** Records numbered upward from the counter can be appended to a valid table. */
  lemma AppendFreshValid(t: ProductTable, added: seq<Product>)
    requires Valid(t)
    requires forall i :: 0 <= i < |added| ==> added[i].id == t.nextId + i
    ensures Valid(ProductTable(t.rows + added, t.nextId + |added|))
  {
    var r := ProductTable(t.rows + added, t.nextId + |added|);
    forall i, j | 0 <= i < j < |r.rows| ensures r.rows[i].id != r.rows[j].id {
      if j < |t.rows| {
        assert r.rows[i] == t.rows[i] && r.rows[j] == t.rows[j];
      } else if i < |t.rows| {
        assert r.rows[i] == t.rows[i] && r.rows[i] in t.rows;
      }
    }
    forall p | p in r.rows ensures p.id < r.nextId {
      var k :| 0 <= k < |r.rows| && r.rows[k] == p;
      if k < |t.rows| {
        assert t.rows[k] == p;
      }
    }
  }

  /** `.update(fields).eq('id', id)`: the record with that id takes the new fields. */
  function UpdateById(t: ProductTable, u: Update): (r: ProductTable)
    ensures r.nextId == t.nextId && |r.rows| == |t.rows|
    ensures forall i :: 0 <= i < |t.rows| ==> r.rows[i].id == t.rows[i].id
    ensures forall i :: 0 <= i < |t.rows| ==>
      r.rows[i].fields == if t.rows[i].id == u.id then u.fields else t.rows[i].fields
  {
    ProductTable(
      seq(|t.rows|, i requires 0 <= i < |t.rows| =>
        if t.rows[i].id == u.id then Product(u.id, u.fields) else t.rows[i]),
      t.nextId)
  }

  /** The update loop: one update call per entry, in order. */
  function ApplyUpdates(t: ProductTable, us: seq<Update>): (r: ProductTable)
    ensures r.nextId == t.nextId && |r.rows| == |t.rows|
    ensures forall i :: 0 <= i < |t.rows| ==> r.rows[i].id == t.rows[i].id
  {
    if us == [] then t else UpdateById(ApplyUpdates(t, us[..|us| - 1]), us[|us| - 1])
  }

  /** The fields of the last update aimed at `id`, if any. */
  function LastFor(us: seq<Update>, id: nat): (r: Option<ProductFields>)
    ensures r.None? <==> forall u :: u in us ==> u.id != id
    ensures r.Some? ==> Update(id, r.value) in us
  {
    if us == [] then None
    else if us[|us| - 1].id == id then Some(us[|us| - 1].fields)
    else
      assert forall u :: u in us <==> u in us[..|us| - 1] || u == us[|us| - 1] by {
        assert us == us[..|us| - 1] + [us[|us| - 1]];
      }
      LastFor(us[..|us| - 1], id)
  }

  /** After the loop each record holds the last update aimed at it, or its old fields. */
  lemma {:induction false} ApplyUpdatesLastWins(t: ProductTable, us: seq<Update>)
    ensures var r := ApplyUpdates(t, us);
      forall i :: 0 <= i < |t.rows| ==> r.rows[i].fields == LastFor(us, t.rows[i].id).GetOr(t.rows[i].fields)
  {
    if us != [] {
      ApplyUpdatesLastWins(t, us[..|us| - 1]);
    }
  }

  /** `.select('*').in('id', ids)`; an undefined id (`None`) matches no record. */
  function Reread(rows: seq<Product>, ids: seq<Option<nat>>): (r: seq<Product>)
    ensures forall p :: p in r <==> p in rows && Some(p.id) in ids
  {
    Keep(rows, (p: Product) => Some(p.id) in ids)
  }

  /** Rows with distinct ids: the re-read returns at most one record per requested id. */
  lemma RereadBound(rows: seq<Product>, ids: seq<Option<nat>>)
    requires DistinctIds(rows)
    ensures |Reread(rows, ids)| <= |ids|
  {
    var r := Reread(rows, ids);
    KeepDistinct(rows, (p: Product) => Some(p.id) in ids);
    DistinctIdsCard(r);
    WantedCard(ids);
    assert IdSet(r) <= Wanted(ids);
    SubsetCard(IdSet(r), Wanted(ids));
  }

  /** The ids that a request list can match. */
  function Wanted(ids: seq<Option<nat>>): (r: set<nat>)
    ensures forall x :: x in r <==> Some(x) in ids
  {
    if ids == [] then {}
    else
      assert forall o :: o in ids <==> o == ids[0] || o in ids[1..] by {
        assert ids == [ids[0]] + ids[1..];
      }
      (if ids[0].Some? then {ids[0].value} else {}) + Wanted(ids[1..])
  }

  lemma {:induction false} WantedCard(ids: seq<Option<nat>>)
    ensures |Wanted(ids)| <= |ids|
  {
    if ids != [] {
      WantedCard(ids[1..]);
    }
  }

  lemma {:induction false} SubsetCard(a: set<nat>, b: set<nat>)
    requires a <= b
    ensures |a| <= |b|
  {
    if a != {} {
      var x :| x in a;
      SubsetCard(a - {x}, b - {x});
    }
  }

  /** A product the import treats as new: the lookup returned data and no stored record has its SKU, or the lookup returned nothing. */
  predicate IsNew(t: ProductTable, lookupOk: bool, p: ProductFields) {
    !(lookupOk && Stored(t, p.sku))
  }

  /** The ids the update list aims at. */
  function Targets(t: ProductTable, ps: seq<ProductFields>, lookupOk: bool): set<nat> {
    var index := IndexFor(t, ps, lookupOk);
    set k | k in index :: index[k]
  }

  /** The ids sent to the re-read, read off the update list. */
  function UpdateIds(us: seq<Update>): (r: seq<Option<nat>>)
    ensures |r| == |us| && forall i :: 0 <= i < |us| ==> r[i] == Some(us[i].id)
  {
    seq(|us|, i requires 0 <= i < |us| => Some(us[i].id))
  }

  /** The table after the import's writes: the insert (skipped when there is nothing new), then each update in order. */
  function Written(t: ProductTable, ps: seq<ProductFields>, lookupOk: bool): ProductTable {
    var index := IndexFor(t, ps, lookupOk);
    ApplyUpdates(InsertAll(t, ToCreate(ps, index)), ToUpdate(ps, index))
  }

  /** What an import leaves and returns; the two counters are the insert and update calls issued. */
  datatype ImportResult = ImportResult(table: ProductTable, saved: seq<Product>, insertCalls: nat, updateCalls: nat)

  /**
   `bulkImportProducts`, with the re-read asking for the ids of the update list: the new products are
   inserted with fresh ids in input order (one call, none when nothing is new), each existing product
   updates the record its SKU maps to, and the result is the inserted records followed by the
   updated records as re-read from the table.
   */
  function BulkImport(t: ProductTable, ps: seq<ProductFields>, lookupOk: bool): (r: ImportResult)
    ensures r.table == Written(t, ps, lookupOk)
    ensures |r.table.rows| >= |t.rows|
    ensures (|r.table.rows| - |t.rows|) + r.updateCalls == |ps|
    ensures r.insertCalls == 1 <==> exists p :: p in ps && IsNew(t, lookupOk, p)
    ensures r.insertCalls == 0 <==> forall p :: p in ps ==> !IsNew(t, lookupOk, p)
    ensures r.saved == Inserted(t, ps, lookupOk) + Reread(r.table.rows, UpdateIds(ToUpdate(ps, IndexFor(t, ps, lookupOk))))
  {
    var index := IndexFor(t, ps, lookupOk);
    var create := ToCreate(ps, index);
    var updates := ToUpdate(ps, index);
    var written := Written(t, ps, lookupOk);
    PartitionSizes(ps, index);
    NewIffCreated(t, ps, lookupOk);
    ImportResult(written, Inserted(t, ps, lookupOk) + Reread(written.rows, UpdateIds(updates)),
      if |create| > 0 then 1 else 0, |updates|)
  }

  /** The records the insert call hands back. */
  function Inserted(t: ProductTable, ps: seq<ProductFields>, lookupOk: bool): (r: seq<Product>)
    ensures |r| == |ToCreate(ps, IndexFor(t, ps, lookupOk))| <= |ps|
  {
    PartitionSizes(ps, IndexFor(t, ps, lookupOk));
    InsertAll(t, ToCreate(ps, IndexFor(t, ps, lookupOk))).rows[|t.rows|..]
  }

  /**
   The returned list: the inserted records, then exactly the records the updates aimed at, as they
   stand after the updates; from a valid table, a valid table and no more records than products.
   */
  lemma BulkImportSaved(t: ProductTable, ps: seq<ProductFields>, lookupOk: bool)
    ensures var r := BulkImport(t, ps, lookupOk);
      && (forall q :: q in r.saved[|r.table.rows| - |t.rows|..] <==> q in r.table.rows && q.id in Targets(t, ps, lookupOk))
      && (Valid(t) ==> Valid(r.table) && r.table.rows[|t.rows|..] <= r.saved && |r.saved| <= |ps|)
  {
    var r := BulkImport(t, ps, lookupOk);
    var index := IndexFor(t, ps, lookupOk);
    var updates := ToUpdate(ps, index);
    var reread := Reread(r.table.rows, UpdateIds(updates));
    RereadTargets(t, ps, lookupOk);
    SavedShape(Inserted(t, ps, lookupOk), reread, |r.table.rows| - |t.rows|);
    ValidImport(t, ps, lookupOk);
  }

  /** The inserted records carry consecutive fresh ids, starting at the table's next id. */
  lemma InsertedIds(t: ProductTable, ps: seq<ProductFields>, lookupOk: bool)
    ensures forall i :: 0 <= i < |Inserted(t, ps, lookupOk)| ==> Inserted(t, ps, lookupOk)[i].id == t.nextId + i
  {
    var create := ToCreate(ps, IndexFor(t, ps, lookupOk));
    var ins := InsertAll(t, create);
    forall i | 0 <= i < |Inserted(t, ps, lookupOk)| ensures Inserted(t, ps, lookupOk)[i].id == t.nextId + i {
      assert Inserted(t, ps, lookupOk)[i] == ins.rows[|t.rows| + i];
    }
  }

  lemma SavedShape(inserted: seq<Product>, reread: seq<Product>, k: nat)
    requires |inserted| == k
    ensures (inserted + reread)[k..] == reread && inserted <= inserted + reread
  {
  }

  /** The re-read returns exactly the written records the updates aimed at. */
  lemma RereadTargets(t: ProductTable, ps: seq<ProductFields>, lookupOk: bool)
    ensures var ids := UpdateIds(ToUpdate(ps, IndexFor(t, ps, lookupOk)));
      forall q :: q in Reread(Written(t, ps, lookupOk).rows, ids) <==> q in Written(t, ps, lookupOk).rows && q.id in Targets(t, ps, lookupOk)
  {
    TargetIds(t, ps, lookupOk);
  }

  lemma ValidImport(t: ProductTable, ps: seq<ProductFields>, lookupOk: bool)
    ensures var index := IndexFor(t, ps, lookupOk);
      var updates := ToUpdate(ps, index);
      var written := Written(t, ps, lookupOk);
      Valid(t) ==>
        && Valid(written)
        && written.rows[|t.rows|..] == InsertAll(t, ToCreate(ps, index)).rows[|t.rows|..]
        && |ToCreate(ps, index)| + |Reread(written.rows, UpdateIds(updates))| <= |ps|
  {
    var index := IndexFor(t, ps, lookupOk);
    var updates := ToUpdate(ps, index);
    if Valid(t) {
      WrittenTail(t, ps, lookupOk);
      WrittenValid(t, ps, lookupOk);
      RereadBound(Written(t, ps, lookupOk).rows, UpdateIds(updates));
      PartitionSizes(ps, index);
    }
  }

  lemma NewIffCreated(t: ProductTable, ps: seq<ProductFields>, lookupOk: bool)
    ensures var index := IndexFor(t, ps, lookupOk);
      |ToCreate(ps, index)| > 0 <==> exists p :: p in ps && IsNew(t, lookupOk, p)
  {
    var index := IndexFor(t, ps, lookupOk);
    var create := ToCreate(ps, index);
    if |create| > 0 {
      assert create[0] in create;
      assert create[0].sku in Skus(ps);
    }
    if p :| p in ps && IsNew(t, lookupOk, p) {
      assert p.sku in Skus(ps);
      assert p in create;
    }
  }

  /** The updates touch only records that were already stored, so the inserted tail survives them. */
  lemma WrittenTail(t: ProductTable, ps: seq<ProductFields>, lookupOk: bool)
    requires Valid(t)
    ensures var index := IndexFor(t, ps, lookupOk);
      var inserted := InsertAll(t, ToCreate(ps, index));
      var written := Written(t, ps, lookupOk);
      |written.rows| == |inserted.rows| && written.rows[|t.rows|..] == inserted.rows[|t.rows|..]
  {
    var index := IndexFor(t, ps, lookupOk);
    var inserted := InsertAll(t, ToCreate(ps, index));
    var updates := ToUpdate(ps, index);
    UpdatesAimAtStored(t, ps, lookupOk);
    TailUntouched(t, inserted, updates);
  }

  lemma TailUntouched(t: ProductTable, inserted: ProductTable, us: seq<Update>)
    requires |inserted.rows| >= |t.rows|
    requires forall i :: |t.rows| <= i < |inserted.rows| ==> inserted.rows[i].id >= t.nextId
    requires forall u :: u in us ==> u.id < t.nextId
    ensures |ApplyUpdates(inserted, us).rows| == |inserted.rows|
    ensures ApplyUpdates(inserted, us).rows[|t.rows|..] == inserted.rows[|t.rows|..]
  {
    var w := ApplyUpdates(inserted, us);
    forall i | |t.rows| <= i < |inserted.rows| ensures w.rows[i] == inserted.rows[i] {
      Untouched(inserted, us, i);
    }
  }

  lemma UpdatesAimAtStored(t: ProductTable, ps: seq<ProductFields>, lookupOk: bool)
    requires Valid(t)
    ensures forall u :: u in ToUpdate(ps, IndexFor(t, ps, lookupOk)) ==> u.id < t.nextId
  {
    var index := IndexFor(t, ps, lookupOk);
    forall u | u in ToUpdate(ps, index) ensures u.id < t.nextId {
      var q :| q in t.rows && q.fields.sku == u.fields.sku && q.id == index[u.fields.sku];
    }
  }

  /** A record no update aims at comes through the loop unchanged. */
  lemma {:induction false} Untouched(t: ProductTable, us: seq<Update>, i: nat)
    requires i < |t.rows|
    requires forall u :: u in us ==> u.id != t.rows[i].id
    ensures i < |ApplyUpdates(t, us).rows| && ApplyUpdates(t, us).rows[i] == t.rows[i]
  {
    if us != [] {
      assert us[|us| - 1] in us;
      Untouched(t, us[..|us| - 1], i);
    }
  }

  /** The update list aims at exactly the index's ids. */
  lemma TargetIds(t: ProductTable, ps: seq<ProductFields>, lookupOk: bool)
    ensures forall x :: Some(x) in UpdateIds(ToUpdate(ps, IndexFor(t, ps, lookupOk))) <==> x in Targets(t, ps, lookupOk)
  {
    UpdateIdsCover(ps, IndexFor(t, ps, lookupOk));
  }

  /** When every key of the index is some product's SKU, the update list aims at exactly the index's ids. */
  lemma UpdateIdsCover(ps: seq<ProductFields>, index: map<string, nat>)
    requires forall k :: k in index ==> k in Skus(ps)
    ensures forall x :: Some(x) in UpdateIds(ToUpdate(ps, index)) <==> x in (set k | k in index :: index[k])
  {
    var updates := ToUpdate(ps, index);
    var ids := UpdateIds(updates);
    forall x | Some(x) in ids ensures x in (set k | k in index :: index[k]) {
      var i :| 0 <= i < |ids| && ids[i] == Some(x);
      assert updates[i] in updates;
    }
    forall x | x in (set k | k in index :: index[k]) ensures Some(x) in ids {
      var k :| k in index && index[k] == x;
      assert k in Skus(ps);
      var p :| p in ps && p.sku == k;
      assert Update(x, p) in updates;
      var i :| 0 <= i < |updates| && updates[i] == Update(x, p);
      assert ids[i] == Some(x);
    }
  }

  /** Updates keep ids and the counter, so they keep a table valid. */
  lemma WrittenValid(t: ProductTable, ps: seq<ProductFields>, lookupOk: bool)
    requires Valid(t)
    ensures Valid(Written(t, ps, lookupOk))
  {
    var index := IndexFor(t, ps, lookupOk);
    var inserted := InsertAll(t, ToCreate(ps, index));
    var written := Written(t, ps, lookupOk);
    forall i, j | 0 <= i < j < |written.rows| ensures written.rows[i].id != written.rows[j].id {
      assert written.rows[i].id == inserted.rows[i].id && written.rows[j].id == inserted.rows[j].id;
    }
    forall p | p in written.rows ensures p.id < written.nextId {
      var k :| 0 <= k < |written.rows| && written.rows[k] == p;
      assert inserted.rows[k] in inserted.rows;
    }
  }

  /**
   Records stored before the import keep their ids; each keeps its fields or takes those of an input
   product with the same SKU, and one whose SKU no input product carries (or any, when the lookup
   returned nothing) is left as it was. The record the index aims at for a SKU ends with the fields
   of the last input product carrying it, since the update loop runs in input order; every other
   stored record is untouched.
   */
  lemma BulkImportExisting(t: ProductTable, ps: seq<ProductFields>, lookupOk: bool)
    requires Valid(t)
    ensures var w := BulkImport(t, ps, lookupOk).table;
      forall i :: 0 <= i < |t.rows| ==>
        && w.rows[i].id == t.rows[i].id
        && (w.rows[i].fields == t.rows[i].fields || (w.rows[i].fields in ps && w.rows[i].fields.sku == t.rows[i].fields.sku))
        && ((!lookupOk || forall p :: p in ps ==> p.sku != t.rows[i].fields.sku) ==> w.rows[i] == t.rows[i])
        && (t.rows[i].id in Targets(t, ps, lookupOk) ==> LastWithSku(ps, t.rows[i].fields.sku) == Some(w.rows[i].fields))
        && (t.rows[i].id !in Targets(t, ps, lookupOk) ==> w.rows[i] == t.rows[i])
  {
    forall i | 0 <= i < |t.rows| {
      ExistingRecord(t, ps, lookupOk, i);
    }
  }

  /** `BulkImportExisting` for one stored record. */
  lemma ExistingRecord(t: ProductTable, ps: seq<ProductFields>, lookupOk: bool, i: nat)
    requires Valid(t) && i < |t.rows|
    ensures var w := BulkImport(t, ps, lookupOk).table;
      && i < |w.rows|
        && w.rows[i].id == t.rows[i].id
        && (w.rows[i].fields == t.rows[i].fields || (w.rows[i].fields in ps && w.rows[i].fields.sku == t.rows[i].fields.sku))
        && ((!lookupOk || forall p :: p in ps ==> p.sku != t.rows[i].fields.sku) ==> w.rows[i] == t.rows[i])
        && (t.rows[i].id in Targets(t, ps, lookupOk) ==> LastWithSku(ps, t.rows[i].fields.sku) == Some(w.rows[i].fields))
        && (t.rows[i].id !in Targets(t, ps, lookupOk) ==> w.rows[i] == t.rows[i])
  {
    var index := IndexFor(t, ps, lookupOk);
    var inserted := InsertAll(t, ToCreate(ps, index));
    ApplyUpdatesLastWins(inserted, ToUpdate(ps, index));
    assert inserted.rows[i] == t.rows[i];
    LastUpdateFor(t, ps, index, i);
    TargetedRecord(t, ps, index, i);
  }

  /** An index whose every key maps to a record holding it, on a table of distinct ids, is injective. */
  lemma IndexInjective(t: ProductTable, index: map<string, nat>)
    requires Valid(t)
    requires forall k :: k in index ==> exists q :: q in t.rows && q.fields.sku == k && q.id == index[k]
    ensures Injective(index)
  {
    forall a, b | a in index && b in index && index[a] == index[b] ensures a == b {
      var qa :| qa in t.rows && qa.fields.sku == a && qa.id == index[a];
      var qb :| qb in t.rows && qb.fields.sku == b && qb.id == index[b];
      var ia :| 0 <= ia < |t.rows| && t.rows[ia] == qa;
      var ib :| 0 <= ib < |t.rows| && t.rows[ib] == qb;
      assert ia == ib;
    }
  }

  /**
   The update loop runs in input order, so the last update aimed at a SKU's record carries the last
   input product with that SKU.
   */
  lemma {:induction false} LastUpdateIsLastProduct(ps: seq<ProductFields>, index: map<string, nat>, sku: string)
    requires sku in index && Injective(index)
    ensures LastFor(ToUpdate(ps, index), index[sku]) == LastWithSku(ps, sku)
  {
    if ps != [] {
      var init := ps[..|ps| - 1];
      var x := ps[|ps| - 1];
      assert ps == init + [x];
      ToUpdateAppend(init, [x], index);
      ToUpdateOne(x, index);
      LastUpdateIsLastProduct(init, index, sku);
      var a := ToUpdate(init, index);
      if x.sku in index {
        var u := Update(index[x.sku], x);
        assert (a + [u])[..|a + [u]| - 1] == a;
      } else {
        assert a + [] == a;
      }
    }
  }

  /**
   A stored record the index aims at ends with the fields of the last input product carrying its
   SKU; one it does not aim at receives no update.
   */
  lemma TargetedRecord(t: ProductTable, ps: seq<ProductFields>, index: map<string, nat>, i: nat)
    requires Valid(t) && i < |t.rows|
    requires forall k :: k in index ==> exists q :: q in t.rows && q.fields.sku == k && q.id == index[k]
    requires forall k :: k in index ==> k in Skus(ps)
    ensures var last := LastFor(ToUpdate(ps, index), t.rows[i].id);
      && (t.rows[i].id in (set k | k in index :: index[k]) ==>
            last.Some? && last == LastWithSku(ps, t.rows[i].fields.sku))
      && (t.rows[i].id !in (set k | k in index :: index[k]) ==> last.None?)
  {
    var updates := ToUpdate(ps, index);
    var id := t.rows[i].id;
    var last := LastFor(updates, id);
    assert last.Some? ==> id in (set k | k in index :: index[k]) by {
      if last.Some? {
        assert Update(id, last.value) in updates;
      }
    }
    if id in (set k | k in index :: index[k]) {
      var k :| k in index && index[k] == id;
      var q :| q in t.rows && q.fields.sku == k && q.id == index[k];
      var iq :| 0 <= iq < |t.rows| && t.rows[iq] == q;
      assert iq == i;
      IndexInjective(t, index);
      LastUpdateIsLastProduct(ps, index, k);
      assert k in Skus(ps);
    }
  }

  /**
   The last update aimed at a stored record, if any, carries an input product with that record's SKU:
   the index maps each SKU to a record holding it, and ids are distinct.
   */
  lemma LastUpdateFor(t: ProductTable, ps: seq<ProductFields>, index: map<string, nat>, i: nat)
    requires Valid(t) && i < |t.rows|
    requires forall k :: k in index ==> exists q :: q in t.rows && q.fields.sku == k && q.id == index[k]
    ensures var last := LastFor(ToUpdate(ps, index), t.rows[i].id);
      last.Some? ==> last.value in ps && last.value.sku == t.rows[i].fields.sku
    ensures index == map[] ==> LastFor(ToUpdate(ps, index), t.rows[i].id).None?
  {
    var updates := ToUpdate(ps, index);
    var last := LastFor(updates, t.rows[i].id);
    if last.Some? {
      var f := last.value;
      assert Update(t.rows[i].id, f) in updates;
      var q :| q in t.rows && q.fields.sku == f.sku && q.id == index[f.sku];
      var k :| 0 <= k < |t.rows| && t.rows[k] == q;
      assert k == i;
    }
  }

  /**
   `bulkImportProducts` as written: the loop deletes each update's `id` before the re-read collects
   `productsToUpdate.map(p => p.id)`, so every requested id is undefined and the re-read matches no
   record. The writes are those of the corrected import; the returned list holds only the inserted
   records.
   */
  function BulkImportAsWritten(t: ProductTable, ps: seq<ProductFields>, lookupOk: bool): (r: ImportResult)
    ensures r.table == Written(t, ps, lookupOk)
    ensures r.saved == Inserted(t, ps, lookupOk)
  {
    var index := IndexFor(t, ps, lookupOk);
    var create := ToCreate(ps, index);
    var updates := ToUpdate(ps, index);
    var written := Written(t, ps, lookupOk);
    var reread := Reread(written.rows, Undefined(|updates|));
    NothingMatchesUndefined(written.rows, Undefined(|updates|));
    var inserted := Inserted(t, ps, lookupOk);
    assert inserted + reread == inserted;
    ImportResult(written, inserted + reread, if |create| > 0 then 1 else 0, |updates|)
  }

  /** The id list `.map(p => p.id)` yields once every `id` has been deleted: `n` undefined entries. */
  function Undefined(n: nat): (r: seq<Option<nat>>)
    ensures |r| == n && forall i :: 0 <= i < n ==> r[i].None?
  {
    seq(n, _ => None)
  }

  lemma {:induction false} NothingMatchesUndefined(rows: seq<Product>, ids: seq<Option<nat>>)
    requires forall i :: 0 <= i < |ids| ==> ids[i].None?
    ensures Reread(rows, ids) == []
  {
    if rows != [] {
      NothingMatchesUndefined(rows[1..], ids);
      assert Some(rows[0].id) !in ids;
    }
  }

  /**
   Re-importing a stored product: the record is updated, but the as-written import returns nothing
   for it, while the corrected import returns the updated record.
   */
  lemma UpdatedRecordIsNotReturned()
    ensures var a := ProductFields("A", "M", "Old", "");
      var b := ProductFields("A", "M", "New", "");
      var t := ProductTable([Product(0, a)], 1);
      && BulkImportAsWritten(t, [b], true).saved == []
      && BulkImport(t, [b], true).saved == [Product(0, b)]
  {
    var a := ProductFields("A", "M", "Old", "");
    var b := ProductFields("A", "M", "New", "");
    var t := ProductTable([Product(0, a)], 1);
    var index := IndexFor(t, [b], true);
    assert Stored(t, "A") by { assert t.rows[0] in t.rows; }
    assert "A" in Skus([b]);
    assert index == map["A" := 0] by {
      assert "A" in index;
      var q :| q in t.rows && q.fields.sku == "A" && q.id == index["A"];
    }
    assert ToCreate([b], index) == [];
    assert ToUpdate([b], index) == [Update(0, b)];
    var w := Written(t, [b], true);
    assert w.rows == [Product(0, b)];
    assert Reread(w.rows, [Some(0)]) == [Product(0, b)];
  }
}
