/**
 The SKU mapping page: a user-editable table from raw SKU to master SKU (MSKU), persisted as a whole
 in the browser's storage, and applied to uploaded CSV rows.
 */
module SkuMapping {
  import opened Options
  import opened Text
  import opened Rows

  type SkuMap = map<string, string>

  /** The MSKU given to a row whose SKU has no (truthy) mapping. */
  const Unmapped: string := "UNMAPPED"

  const RequiredError: string := "Both SKU and MSKU fields are required"
  const FormatError: string := "SKU must contain at least 2 alphanumeric characters"
  const EmptyEditError: string := "MSKU cannot be empty"

  /** The built-in example mapping restored by a reset. */
  const DefaultMapping: SkuMap := map[
    "GLD" := "Golden Apple",
    "Golden Apple" := "Golden Apple",
    "GA123" := "Golden Apple",
    "RDB" := "Red Banana",
    "Red Banana" := "Red Banana"
  ]

  /** The page's state: the map, the two add inputs, the row being edited and the error line. */
  datatype Page = Page(
    skuMap: SkuMap,
    newSku: string,
    newMsku: string,
    editing: Option<string>,
    editValue: string,
    error: string)

  /** `skuMap[sku] || "UNMAPPED"`. */
  function Resolve(m: SkuMap, sku: string): (r: string)
    ensures sku in m && m[sku] != "" ==> r == m[sku]
    ensures !(sku in m && m[sku] != "") ==> r == Unmapped
  {
    if sku in m && m[sku] != "" then m[sku] else Unmapped
  }

  /** `String(row.SKU || "").trim()`: the lookup key of a row. */
  function LookupKey(row: Row): string {
    Trim(Or(row, "SKU", ""))
  }

  /** One output row per input row, in order, each the input row with `MSKU` set to its resolution. */
  function ApplyMapping(rows: seq<Row>, m: SkuMap): (r: seq<Row>)
    ensures |r| == |rows|
    ensures forall i :: 0 <= i < |r| ==> r[i] == rows[i]["MSKU" := Resolve(m, LookupKey(rows[i]))]
  {
    seq(|rows|, i requires 0 <= i < |rows| => rows[i]["MSKU" := Resolve(m, LookupKey(rows[i]))])
  }

  /** Apart from `MSKU`, every column of every row is carried over unchanged. */
  lemma ApplyMappingFrame(rows: seq<Row>, m: SkuMap, i: nat, col: string)
    requires i < |rows| && col != "MSKU"
    ensures var r := ApplyMapping(rows, m);
      && (col in r[i] <==> col in rows[i])
      && (col in rows[i] ==> r[i][col] == rows[i][col])
      && "MSKU" in r[i]
  {
  }

  lemma MapRowTwice(row: Row, m: SkuMap)
    ensures var once := row["MSKU" := Resolve(m, LookupKey(row))];
      once["MSKU" := Resolve(m, LookupKey(once))] == once
  {
    var v := Resolve(m, LookupKey(row));
    var once := row["MSKU" := v];
    SameSkuColumn(row, v);
    assert once["MSKU" := v] == once;
  }

  /** Setting `MSKU` leaves the lookup key alone. */
  lemma SameSkuColumn(row: Row, v: string)
    ensures LookupKey(row["MSKU" := v]) == LookupKey(row)
  {
    assert Or(row["MSKU" := v], "SKU", "") == Or(row, "SKU", "");
  }

  /** Applying the mapping to already-mapped rows changes nothing: the SKU column is never touched. */
  lemma ApplyMappingIdempotent(rows: seq<Row>, m: SkuMap)
    ensures ApplyMapping(ApplyMapping(rows, m), m) == ApplyMapping(rows, m)
  {
    var once := ApplyMapping(rows, m);
    var twice := ApplyMapping(once, m);
    forall i | 0 <= i < |rows| ensures twice[i] == once[i] {
      MapRowTwice(rows[i], m);
    }
  }

  /** How many mapped rows resolved to a real MSKU. */
  function MappedCount(rows: seq<Row>): nat {
    if rows == [] then 0
    else MappedCount(rows[1..]) + (if "MSKU" in rows[0] && rows[0]["MSKU"] != Unmapped then 1 else 0)
  }

  /** How many mapped rows carry the `UNMAPPED` sentinel. */
  function UnmappedCount(rows: seq<Row>): nat {
    if rows == [] then 0
    else UnmappedCount(rows[1..]) + (if "MSKU" in rows[0] && rows[0]["MSKU"] == Unmapped then 1 else 0)
  }

  /** Number of rows whose SKU has no usable mapping (or whose mapping is the sentinel text itself). */
  function MissCount(rows: seq<Row>, m: SkuMap): nat {
    if rows == [] then 0
    else MissCount(rows[1..], m) + (if Resolve(m, LookupKey(rows[0])) == Unmapped then 1 else 0)
  }

  /** On mapped output, the two counters split the rows, and the unmapped one counts lookup misses. */
  lemma {:induction false} CountsOfApplied(rows: seq<Row>, m: SkuMap)
    ensures MappedCount(ApplyMapping(rows, m)) + UnmappedCount(ApplyMapping(rows, m)) == |rows|
    ensures UnmappedCount(ApplyMapping(rows, m)) == MissCount(rows, m)
  {
    if rows != [] {
      CountsOfApplied(rows[1..], m);
      assert ApplyMapping(rows, m)[1..] == ApplyMapping(rows[1..], m);
    }
  }

  /** `/^[A-Za-z0-9\s-]{2,}$/`: one accepted character. */
  predicate IsSkuChar(c: char) {
    ('A' <= c <= 'Z') || ('a' <= c <= 'z') || ('0' <= c <= '9') || IsSpace(c) || c == '-'
  }

  /** `/^[A-Za-z0-9\s-]{2,}$/.test(s)`: at least two characters, all accepted. */
  predicate MatchesSkuPattern(s: string) {
    |s| >= 2 && forall k :: 0 <= k < |s| ==> IsSkuChar(s[k])
  }

  /**
   `handleAddMapping`: both inputs must be non-blank and the SKU must match the pattern; on success the
   untrimmed SKU is bound to the untrimmed MSKU, overwriting any earlier binding, and the inputs clear.
   */
  function AddMapping(p: Page): (r: Page)
    ensures IsBlank(p.newSku) || IsBlank(p.newMsku) ==> r == p.(error := RequiredError)
    ensures !IsBlank(p.newSku) && !IsBlank(p.newMsku) && !MatchesSkuPattern(p.newSku) ==> r == p.(error := FormatError)
    ensures r.error == "" ==>
      && r.skuMap.Keys == p.skuMap.Keys + {p.newSku}
      && r.skuMap[p.newSku] == p.newMsku
      && (forall k :: k in p.skuMap && k != p.newSku ==> r.skuMap[k] == p.skuMap[k])
      && r.newSku == "" && r.newMsku == ""
    ensures r.error == "" ==> r == p.(skuMap := r.skuMap, error := "", newSku := "", newMsku := "")
    ensures r.error == "" <==> !IsBlank(p.newSku) && !IsBlank(p.newMsku) && MatchesSkuPattern(p.newSku)
  {
    if IsBlank(p.newSku) || IsBlank(p.newMsku) then p.(error := RequiredError)
    else if !MatchesSkuPattern(p.newSku) then p.(error := FormatError)
    else p.(skuMap := p.skuMap[p.newSku := p.newMsku], error := "", newSku := "", newMsku := "")
  }

  /** `deleteMapping`: removes exactly the named key; a missing key leaves the map as it was. */
  function DeleteMapping(p: Page, sku: string): (r: Page)
    ensures r.skuMap.Keys == p.skuMap.Keys - {sku}
    ensures forall k :: k in r.skuMap ==> r.skuMap[k] == p.skuMap[k]
    ensures sku !in p.skuMap ==> r.skuMap == p.skuMap
    ensures Resolve(r.skuMap, sku) == Unmapped
    ensures r.(skuMap := p.skuMap) == p
  {
    p.(skuMap := p.skuMap - {sku})
  }

  /** `startEdit`: opens the editor on a key, pre-filled with its current MSKU. */
  function StartEdit(p: Page, sku: string): (r: Page)
    requires sku in p.skuMap
    ensures r.editing == Some(sku) && r.editValue == p.skuMap[sku] && r.skuMap == p.skuMap
    ensures r.(editing := p.editing, editValue := p.editValue) == p
  {
    p.(editing := Some(sku), editValue := p.skuMap[sku])
  }

  /** `saveEdit`: a blank value is refused; otherwise only the edited key is (re)bound and the editor closes. */
  function SaveEdit(p: Page, sku: string): (r: Page)
    ensures IsBlank(p.editValue) ==> r == p.(error := EmptyEditError)
    ensures !IsBlank(p.editValue) ==>
      && r.skuMap.Keys == p.skuMap.Keys + {sku}
      && r.skuMap[sku] == p.editValue
      && (forall k :: k in p.skuMap && k != sku ==> r.skuMap[k] == p.skuMap[k])
      && r.error == "" && r.editing == None
    ensures !IsBlank(p.editValue) ==> r == p.(skuMap := r.skuMap, error := "", editing := None)
  {
    if IsBlank(p.editValue) then p.(error := EmptyEditError)
    else p.(skuMap := p.skuMap[sku := p.editValue], error := "", editing := None)
  }

  /** `resetToDefault`: only with the user's confirmation, replaces the whole map by the built-in one. */
  function ResetToDefault(p: Page, confirmed: bool): (r: Page)
    ensures confirmed ==> r.skuMap == DefaultMapping
    ensures !confirmed ==> r == p
    ensures r.(skuMap := p.skuMap) == p
  {
    if confirmed then p.(skuMap := DefaultMapping) else p
  }

  /** The storage effect run after every change: an empty map is never written. */
  function Persist(stored: Option<SkuMap>, m: SkuMap): (r: Option<SkuMap>)
    ensures |m| > 0 ==> r == Some(m)
    ensures |m| == 0 ==> r == stored
  {
    if |m| > 0 then Some(m) else stored
  }

  /** The built-in mapping has exactly five entries, so a confirmed reset is always persisted. */
  lemma ResetIsPersisted(p: Page, stored: Option<SkuMap>)
    ensures |DefaultMapping| == 5
    ensures Persist(stored, ResetToDefault(p, true).skuMap) == Some(DefaultMapping)
  {
    assert DefaultMapping.Keys == {"GLD", "Golden Apple", "GA123", "RDB", "Red Banana"};
  }

  /** Deleting the last entry leaves the stored snapshot as it was: the emptied map is not written. */
  lemma DeleteLastIsNotPersisted(p: Page, sku: string, stored: Option<SkuMap>)
    requires p.skuMap.Keys == {sku}
    ensures Persist(stored, DeleteMapping(p, sku).skuMap) == stored
  {
    assert DeleteMapping(p, sku).skuMap == map[];
  }

  /**
   A SKU added with leading or trailing white space passes validation and is stored as typed, but rows
   are looked up by their trimmed SKU, so no row can ever reach that entry.
   */
  lemma PaddedSkuIsUnreachable(p: Page, row: Row)
    requires !IsBlank(p.newSku) && !IsBlank(p.newMsku) && MatchesSkuPattern(p.newSku)
    requires IsSpace(p.newSku[0]) || IsSpace(p.newSku[|p.newSku| - 1])
    ensures LookupKey(row) != p.newSku
  {
    var k := Trim(Or(row, "SKU", ""));
    assert k == [] || (!IsSpace(k[0]) && !IsSpace(k[|k| - 1]));
  }

  /** The concrete case: the SKU " AB" is added for "X", and a row with SKU " AB" still comes out unmapped. */
  lemma PaddedSkuRoundTripFails()
    ensures var p := AddMapping(Page(map[], " AB", "X", None, "", ""));
      && p.error == "" && p.skuMap == map[" AB" := "X"]
      && ApplyMapping([map["SKU" := " AB"]], p.skuMap)[0]["MSKU"] == Unmapped
  {
    PaddedSkuIsAccepted();
    PaddedRowKey();
  }

  lemma PaddedSkuIsAccepted()
    ensures var p := AddMapping(Page(map[], " AB", "X", None, "", ""));
      p.error == "" && p.skuMap == map[" AB" := "X"]
  {
    assert !IsSpace(" AB"[1]);
    assert !IsSpace("X"[0]);
    assert MatchesSkuPattern(" AB");
  }

  lemma PaddedRowKey()
    ensures LookupKey(map["SKU" := " AB"]) == "AB"
  {
    var row: Row := map["SKU" := " AB"];
    assert Or(row, "SKU", "") == " AB";
    TrimPadded();
  }

  lemma TrimPadded()
    ensures Trim(" AB") == "AB"
  {
    assert TrimStart(" AB") == "AB" by {
      assert " AB"[1..] == "AB";
      assert IsSpace(' ') && !IsSpace('A');
    }
    assert TrimEnd("AB") == "AB" by {
      assert !IsSpace('B');
    }
  }

  /** `handleAddMapping` with the key stored trimmed, the way rows are looked up. */
  function AddMappingTrimmed(p: Page): (r: Page)
    ensures r.error == "" <==> !IsBlank(p.newSku) && !IsBlank(p.newMsku) && MatchesSkuPattern(p.newSku)
    ensures r.error != "" ==> r.skuMap == p.skuMap
    ensures r.error == "" ==>
      && r.skuMap.Keys == p.skuMap.Keys + {Trim(p.newSku)}
      && r.skuMap[Trim(p.newSku)] == p.newMsku
      && (forall k :: k in p.skuMap && k != Trim(p.newSku) ==> r.skuMap[k] == p.skuMap[k])
      && r.newSku == "" && r.newMsku == ""
    ensures r.error == "" ==> r == p.(skuMap := r.skuMap, error := "", newSku := "", newMsku := "")
  {
    if IsBlank(p.newSku) || IsBlank(p.newMsku) then p.(error := RequiredError)
    else if !MatchesSkuPattern(p.newSku) then p.(error := FormatError)
    else p.(skuMap := p.skuMap[Trim(p.newSku) := p.newMsku], error := "", newSku := "", newMsku := "")
  }

  /**
   The round trip the page promises: once a mapping is added, any row carrying the SKU as it was typed
   resolves to the MSKU that was typed with it.
   */
  lemma AddThenApplyRoundTrip(p: Page, row: Row)
    requires AddMappingTrimmed(p).error == ""
    requires "SKU" in row && row["SKU"] == p.newSku
    ensures ApplyMapping([row], AddMappingTrimmed(p).skuMap)[0]["MSKU"] == p.newMsku
  {
    var m := AddMappingTrimmed(p).skuMap;
    assert p.newSku != "" && p.newMsku != "";
    assert LookupKey(row) == Trim(p.newSku);
    assert Trim(p.newSku) in m && m[Trim(p.newSku)] == p.newMsku;
  }
}
