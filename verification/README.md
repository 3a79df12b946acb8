# Warehouse app core, modelled in Dafny

The system is a small warehouse web app. Users upload CSV files of products and quantities, map raw
SKUs to master SKUs (MSKUs), see totals per MSKU on an analytics page and a dashboard, save the data
into products, inventory and warehouse tables, and ask an AI assistant about a CSV file. This project
models the logic behind those pages and services as pure functions over immutable datatypes. Each
stateful piece appears as an explicit state value:

- the SKU map;
- the product, inventory and warehouse tables;
- the AI page;
- the table's sort state;
- the upload list.

Each contract states what the page or service promises.

Modules:

- `Options`, `Text`, `Rows` are shared vocabulary:
  - an optional value;
  - JavaScript's `trim` and `includes`;
  - a parsed CSV row as a `map<string, string>` and the `row.X || fallback` idiom.
- `Ordering` is the stable sort that `Array.prototype.sort` performs with a numeric comparator.
- `Grouping` does group-and-sum in first-encounter order, then a stable sort by total, descending. `Analytics` and `Dashboard` both use it.
- `SkuMapping` is the SKU mapping page.
- `Analytics` is the analytics page.
- `Dashboard` holds the dashboard's chart data and metrics.
- `ProductStore` covers `deleteProduct` and `bulkImportProducts`.
- `InventoryStore` covers `updateInventoryQuantity` and `bulkUpdateInventory`.
- `WarehouseStore` covers `getWarehouseById`, `deleteWarehouse` and `ensureDefaultWarehouse`.
- `DataUpload` is the upload page's `saveData`.
- `AiQuery` is the AI page: history, the ask gate, the prompt and answer classification.
- `TableSort` is the sortable table.
- `FileUpload` is the upload widget: size check, progress ticks and removal.

Modelling choices:

- The hosted database is a table value: a sequence of records in storage order plus the id the next insert receives. Ids are numbers drawn from that counter.
- Browser and library conversions are function parameters. This covers `Number`, `parseInt` and `JSON.parse`.
- Some checks are boolean inputs. These are the user's confirmation and whether the SKU lookup query returned data.

Where the code's evident intent and what it does part ways, the model keeps both and proves the gap:

- The mapping page looks rows up by their trimmed SKU (`src/pages/SkuMapping.tsx:67`) but stores the SKU as typed (`src/pages/SkuMapping.tsx:91`), so a padded SKU never reads back (finding 1).
- The bulk product import is commented "Combine new and updated products" (`src/services/productService.ts:103`), yet the re-read of the updated ids returns nothing, so only the inserted records come back (finding 3).

## Model

| member | source | states |
|---|---|---|
| SkuMapping.Resolve | src/pages/SkuMapping.tsx:68 | a key that is present with a non-empty MSKU resolves to that MSKU; anything else resolves to `UNMAPPED` |
| SkuMapping.ApplyMapping | src/pages/SkuMapping.tsx:64-72 | one output row per input row, in order; each is its input row with only `MSKU` set, to the resolution of the trimmed SKU column (a missing SKU counts as empty) |
| SkuMapping.ApplyMappingFrame | src/pages/SkuMapping.tsx:64-72 | every column other than `MSKU` keeps its presence and value, and `MSKU` is always present |
| SkuMapping.ApplyMappingIdempotent | src/pages/SkuMapping.tsx:64-72 | mapping already-mapped rows again changes nothing |
| SkuMapping.CountsOfApplied | src/pages/SkuMapping.tsx:256-272 | on mapped rows the mapped and unmapped counters add up to the row count, and the unmapped counter equals the number of lookup misses |
| SkuMapping.AddMapping | src/pages/SkuMapping.tsx:75-95 | a blank SKU or MSKU gives the required-fields error with nothing else changed; otherwise a SKU failing the two-or-more letters/digits/space/hyphen pattern gives the format error; it succeeds exactly when neither happens, and then binds the untrimmed SKU to the MSKU, keeps every other key, clears the inputs and the error, and leaves the rest of the page state alone |
| SkuMapping.DeleteMapping | src/pages/SkuMapping.tsx:98-102 | exactly the named key is gone, the other bindings are kept, a missing key leaves the map unchanged, and the key then resolves to `UNMAPPED` |
| SkuMapping.StartEdit | src/pages/SkuMapping.tsx:105-108 | the editor opens on the key, pre-filled with its MSKU, and nothing else on the page changes |
| SkuMapping.SaveEdit | src/pages/SkuMapping.tsx:111-122 | a blank value gives the empty-MSKU error with nothing else changed; otherwise only the edited key is rebound, the error clears and the editor closes, and the rest of the page state is kept |
| SkuMapping.ResetToDefault | src/pages/SkuMapping.tsx:125-129 | with confirmation the map becomes the built-in mapping; without it nothing changes; nothing but the map changes |
| SkuMapping.Persist | src/pages/SkuMapping.tsx:44-48 | a non-empty map is written and an empty one leaves the stored copy as it was |
| SkuMapping.ResetIsPersisted | src/pages/SkuMapping.tsx:5-11 | the built-in mapping has five entries, so a confirmed reset is always written |
| SkuMapping.DeleteLastIsNotPersisted | src/pages/SkuMapping.tsx:44-48 | deleting the only entry leaves the stored copy unchanged |
| SkuMapping.PaddedSkuIsUnreachable | src/pages/SkuMapping.tsx:82-91 | a SKU accepted with leading or trailing white space never equals any row's lookup key |
| SkuMapping.PaddedSkuRoundTripFails | src/pages/SkuMapping.tsx:64-95 | adding `" AB"` for `X` succeeds, yet a row with SKU `" AB"` comes out `UNMAPPED` |
| SkuMapping.AddMappingTrimmed | src/pages/SkuMapping.tsx:75-95 | the same validation as the page; on success the trimmed SKU is bound to the MSKU, every other key is kept, the inputs and error are cleared and the rest of the page state is kept; on failure the map is unchanged |
| SkuMapping.AddThenApplyRoundTrip | src/pages/SkuMapping.tsx:64-95 | after a successful add, a row carrying the SKU as typed maps to the MSKU as typed |
| Analytics.MskuOf | src/pages/Analytics.tsx:44 | a row counts under its non-empty `MSKU`, otherwise under `UNMAPPED`; never under the empty key |
| Analytics.Aggregated | src/pages/Analytics.tsx:41-55 | the totals are non-increasing; there is one bucket per distinct MSKU of the rows and no other; each total is the sum over that MSKU's rows; the totals add up to the sum over all rows; there are no buckets exactly when there are no rows |
| Analytics.Summarize | src/pages/Analytics.tsx:181-201 | shown exactly when there are rows; the figures are the row count, the quantity over all rows, the number of distinct MSKUs, and an MSKU of the rows whose total no other MSKU exceeds |
| Grouping.GroupBy | src/pages/Analytics.tsx:42-54 | for any key and quantity readers: ordered by total descending, distinct keys, exactly the records' keys, per-key sums equal to a reference sum, the grand total conserved, and empty exactly for no records |
| Grouping.GroupByTop | src/pages/Analytics.tsx:200 | the first bucket's key is a record's key, and its total is at least any record's key total |
| Grouping.AggregateStable | src/pages/Analytics.tsx:49-54 | buckets with equal totals keep the order in which their keys were first met |
| Ordering.SortBy | src/components/ui/Table.tsx:41-49 | the result is sorted in the requested direction and is a permutation of the input |
| Ordering.SortStable | src/components/ui/Table.tsx:41-49 | elements with equal keys keep their input order |
| Ordering.SortSortedIsIdentity | src/components/ui/Table.tsx:41-49 | sorting an already sorted sequence returns it unchanged |
| Dashboard.ChartKey | src/pages/Dashboard.tsx:167 | an item is grouped under its non-empty msku, else its non-empty sku, else `Unknown` |
| Dashboard.ChartData | src/pages/Dashboard.tsx:162-179 | no items give no chart; the values are non-increasing, with one entry per distinct chart key and no other; each value is the sum of that key's quantities (a missing quantity counts 0); the values add up to the quantity over all items |
| Dashboard.ComputeMetrics | src/pages/Dashboard.tsx:225-231 | total products is the number of distinct `product?.sku` values, where a missing product and a null sku are two values; unique MSKUs is the number of distinct `msku or Unknown`; total quantity equals the chart's total; the top MSKU is `None` without items and otherwise a chart key with a largest value; AI queries is the history length |
| Dashboard.PieData | src/pages/Dashboard.tsx:372 | the first `min(5, n)` chart entries, and on a sorted chart none of the rest is larger |
| Dashboard.UniqueMskusMatchChart | src/pages/Dashboard.tsx:226-227 | when every item has an msku, the unique-MSKU figure equals the number of chart entries |
| Dashboard.UniqueMskusMayDiffer | src/pages/Dashboard.tsx:226-227 | two items with different skus and no msku give two chart entries but one unique MSKU, so the two figures can differ |
| ProductStore.DeleteProduct | src/services/productService.ts:57-64 | exactly the records with that id are removed, the others stay, and a valid table stays valid |
| ProductStore.IndexFor | src/services/productService.ts:68-75 | the existing-SKU map holds exactly the input SKUs that are stored, and none when the lookup returned no data; each maps to the id of a stored record with that SKU |
| ProductStore.SkuIndexLastWins | src/services/productService.ts:75 | when several stored records share a SKU, the map keeps the id of the last one returned |
| ProductStore.ToCreate | src/services/productService.ts:78 | the products whose SKU is not in the existing-SKU map |
| ProductStore.ToCreateAppend | src/services/productService.ts:78 | the filter keeps input order: the new products of a concatenation are those of each part, in turn |
| ProductStore.ToCreateOne | src/services/productService.ts:78 | one product is kept exactly when its SKU is not in the map |
| ProductStore.ToUpdate | src/services/productService.ts:79-80 | the products whose SKU is in the map, each aimed at that SKU's existing id |
| ProductStore.ToUpdateAppend | src/services/productService.ts:79-80 | the update list keeps input order: that of a concatenation is those of each part, in turn |
| ProductStore.ToUpdateOne | src/services/productService.ts:79-80 | one product gives one update, aimed at its SKU's id, exactly when its SKU is in the map |
| ProductStore.PartitionComplete | src/services/productService.ts:78-80 | the create and update lists together are a permutation of the input |
| ProductStore.PartitionSizes | src/services/productService.ts:78-80 | the two list sizes add up to the input size |
| ProductStore.InsertAll | src/services/productService.ts:83-85 | one appended record per product, in order, with consecutive fresh ids; existing records untouched; a valid table stays valid |
| ProductStore.InsertedIds | src/services/productService.ts:83-85 | the returned inserted records carry consecutive ids from the table's next id |
| ProductStore.UpdateById | src/services/productService.ts:91-94 | only the record with that id takes the new fields; ids, order and size are kept |
| ProductStore.ApplyUpdatesLastWins | src/services/productService.ts:88-95 | after the update loop each record holds the fields of the last update aimed at it, or its old fields |
| ProductStore.Reread | src/services/productService.ts:98-101 | the records whose id is among the requested ids, in table order |
| ProductStore.RereadBound | src/services/productService.ts:98-101 | on a table with distinct ids, the re-read returns no more records than ids were requested |
| ProductStore.BulkImport | src/services/productService.ts:66-105 | the table after the insert and the updates; it grows by the new products only, and new plus updated products account for every input; one insert call exactly when some product is new, none otherwise; the result is the inserted records followed by the re-read of the updated ids |
| ProductStore.NewIffCreated | src/services/productService.ts:83-85 | the create list is non-empty exactly when some product's SKU is not found stored |
| ProductStore.BulkImportSaved | src/services/productService.ts:98-104 | after the inserted records the result holds exactly the written records the updates aimed at; from a valid table the table stays valid, the inserted records lead the result, and there are no more results than products |
| ProductStore.BulkImportExisting | src/services/productService.ts:79-95 | existing records keep their ids; a record the existing-SKU map aims at ends with the fields of the last input product carrying its SKU, and every other stored record is unchanged, in particular all of them when the lookup failed |
| ProductStore.LastWithSku | src/services/productService.ts:88-95 | the last input product carrying a SKU, and none exactly when no input product carries it |
| ProductStore.LastUpdateIsLastProduct | src/services/productService.ts:79-95 | since the updates run in input order, the last update aimed at a SKU's record carries the last input product with that SKU |
| ProductStore.TargetedRecord | src/services/productService.ts:79-95 | a stored record the map aims at receives the last input product with its SKU as its last update; one it does not aim at receives none |
| ProductStore.BulkImportAsWritten | src/services/productService.ts:88-104 | as written, the writes are the same but the result holds only the inserted records |
| ProductStore.UpdatedRecordIsNotReturned | src/services/productService.ts:88-104 | re-importing a stored product updates its record, yet the as-written result is empty; the corrected result holds the updated record |
| InventoryStore.QuantityAt | src/services/inventoryService.ts:56-61 | no quantity exactly when no record carries the pair; otherwise the quantity of the first record carrying it |
| InventoryStore.SingleRead | src/services/inventoryService.ts:56-63 | the `.single()` probe yields a record exactly when one record carries the pair, and that record carries it |
| InventoryStore.SingleReadUnique | src/services/inventoryService.ts:56-63 | on a table holding each pair at most once, the probe and the quantity reader agree |
| InventoryStore.DuplicatePairAppends | src/services/inventoryService.ts:56-90 | with two records for a pair the probe finds nothing, so the upsert appends a third |
| InventoryStore.UpdateQuantity | src/services/inventoryService.ts:50-91 | with exactly one record for the pair, only that record's quantity changes and nothing is added; otherwise exactly one record with the pair and quantity is appended |
| InventoryStore.UpdateReadsBack | src/services/inventoryService.ts:63-90 | on a table with unique pairs, the pair reads back as the written quantity |
| InventoryStore.UpdateFrame | src/services/inventoryService.ts:65-69 | every other pair reads as before |
| InventoryStore.UpdateKeepsUnique | src/services/inventoryService.ts:75-90 | the upsert keeps at most one record per pair |
| InventoryStore.ApplyAllKeepsUnique | src/services/inventoryService.ts:93-110 | a sequence of upserts keeps at most one record per pair |
| InventoryStore.ApplyAllLastWins | src/services/inventoryService.ts:98-108 | after a sequence of upserts each pair reads as its last change, or as before when it had none |
| InventoryStore.ApplyAllAppend | src/services/inventoryService.ts:98-108 | applying a concatenation is applying one part after the other |
| InventoryStore.BulkUpdateInventory | src/services/inventoryService.ts:93-110 | the batched loop leaves the table the plain sequential loop would; an empty list changes nothing; one call per change; the number of batches is the change count divided by 50, rounded up |
| InventoryStore.ApplyBatch | src/services/inventoryService.ts:99-108 | one batch applies its slice item by item, one call each |
| WarehouseStore.GetById | src/services/warehouseService.ts:12-21 | a stored warehouse with that id, or nothing exactly when no stored warehouse has it |
| WarehouseStore.DeleteWarehouse | src/services/warehouseService.ts:46-53 | exactly the warehouses with that id are removed, and the id is then not found |
| WarehouseStore.EnsureDefault | src/services/warehouseService.ts:56-81 | when the probe succeeds on a non-empty table, the table is unchanged and its first warehouse is returned; on an empty table or a failed probe a `Main Warehouse` at `Default Location` is appended under the next id and returned; the returned warehouse is stored |
| WarehouseStore.EnsureDefaultTwice | src/services/warehouseService.ts:56-81 | a second call with a successful probe changes nothing, and after a first call on an empty table it returns the same warehouse |
| DataUpload.FormatProduct | src/pages/DataUpload.tsx:77-82 | each field falls back through its columns to its default: sku to `SKU`, `sku`, empty; msku to `MSKU`, `msku`, `UNMAPPED`; name to `ProductName`, `Name`, the sku, `Unknown Product`; description to `Description`, `description`, empty |
| DataUpload.FormatAll | src/pages/DataUpload.tsx:77-82 | one product per row, in row order |
| DataUpload.PositionalUpdates | src/pages/DataUpload.tsx:88-97 | as written, saved product `i` gets row `i`'s quantity, and every write goes to the default warehouse; reading past the last row fails exactly when there are more saved products than rows |
| DataUpload.LastQuantityFor | src/pages/DataUpload.tsx:88-97 | the quantity text of the last row carrying the SKU, or none exactly when no row carries it |
| DataUpload.LastQuantityAt | src/pages/DataUpload.tsx:88-97 | given the last row carrying the SKU, the result is that row's quantity text |
| DataUpload.UpdatesBySku | src/pages/DataUpload.tsx:88-97 | one write per saved product, to the default warehouse, each with the quantity of the last row carrying that product's SKU (the row whose fields the product keeps), or the parse of `0` when no row carries it |
| DataUpload.SaveData | src/pages/DataUpload.tsx:61-112 | no rows, or no default warehouse, leave both tables alone with the matching message; otherwise the products are imported, a valid products table stays valid, the inventory takes the by-SKU writes, and the message reports the row count |
| DataUpload.SaveDataAsWritten | src/pages/DataUpload.tsx:61-112 | as written, the same guards apply, the inventory takes the positional writes, the failure never happens, and only the newly inserted products get quantities |
| DataUpload.AsWrittenPairing | src/pages/DataUpload.tsx:85-97 | as written, the pairing never reads past the last row and writes only to the fresh ids, with the quantity of the row at the same position |
| DataUpload.SavedFitsRows | src/pages/DataUpload.tsx:85-90 | from a valid products table the corrected import returns at most one record per row |
| DataUpload.PositionalPairingMismatch | src/pages/DataUpload.tsx:88-97 | with a stored `A` and a new `B` in the file, `B` gets row A's quantity as written and its own by SKU |
| AiQuery.FencedBlock | src/pages/AIQuery.tsx:70 | the first `` ```json `` and the first `` ``` `` after it, with none of either in between |
| AiQuery.WithoutBlock | src/pages/AIQuery.tsx:79 | text without a complete block is unchanged |
| AiQuery.TryParseResult | src/pages/AIQuery.tsx:60-101 | text without a `` ```json `` fence is text; a chart exactly when the non-empty capture parses to a `chart` with array `data`; a table exactly when it parses to a `table` with array `headers` and `rows`; text keeps the whole answer, and charts and tables get the trimmed answer without the block |
| AiQuery.FenceRoundTrip | src/pages/AIQuery.tsx:70-79 | for `prefix`, then a fenced `body`, then `suffix`, the capture is the trimmed body and removing the block leaves `prefix + suffix` |
| AiQuery.ChartRoundTrip | src/pages/AIQuery.tsx:69-81 | such an answer whose body parses to a chart is shown as that chart, with the trimmed outside text as content |
| AiQuery.AddToHistory | src/pages/AIQuery.tsx:136-144 | the new entry goes first, the previous ones follow in order, and at most ten are kept |
| AiQuery.RecordedNewestFirst | src/pages/AIQuery.tsx:136-144 | after any run of asks the history is the asks in reverse, then the earlier history, cut at ten |
| AiQuery.ClearHistory | src/pages/AIQuery.tsx:147-150 | the history is emptied and hidden, and nothing else changes |
| AiQuery.Prompt | src/pages/AIQuery.tsx:168-171 | the prompt starts with the question; in standard mode it is the question, and in advanced mode the fixed suffix follows |
| AiQuery.Ask | src/pages/AIQuery.tsx:153-171 | no request exactly when the question is blank after trimming or no CSV is loaded, and then only the error is set; otherwise the error, answer and result are cleared, loading starts, the original question is recorded, and the prompt goes out with the current mode |
| AiQuery.ErrorText | src/pages/AIQuery.tsx:183-198 | the shown error is the server's or thrown message when present, a fixed fallback otherwise, and never empty |
| AiQuery.Receive | src/pages/AIQuery.tsx:183-201 | loading ends; an answer is stored and classified only if the request was made in advanced mode; a failure sets only the error |
| AiQuery.AskThenAnswer | src/pages/AIQuery.tsx:153-201 | an advanced ask answered after the mode was switched back is still classified, and the question heads the history |
| TableSort.HandleSort | src/components/ui/Table.tsx:27-36 | a non-sortable column changes nothing; the current column flips the direction; another column becomes the sort column, ascending |
| TableSort.ClickCycle | src/components/ui/Table.tsx:30-34 | a click makes the column current, and two more clicks on it restore the state |
| TableSort.SortedData | src/components/ui/Table.tsx:38-50 | with no sort column the rows are as given; otherwise a permutation sorted by the column in the chosen direction |
| TableSort.SortedDataStable | src/components/ui/Table.tsx:41-49 | rows with equal values keep their order |
| TableSort.SortedDataIdempotent | src/components/ui/Table.tsx:38-50 | sorting the shown rows again changes nothing |
| FileUpload.NewUpload | src/components/ui/FileUpload.tsx:38-49 | progress 0; uploading exactly when the size is within the limit in bytes; otherwise failed with the limit message; never successful at the start |
| FileUpload.ProcessFiles | src/components/ui/FileUpload.tsx:36-79 | the existing entries first, then one new entry per picked file, in order |
| FileUpload.Tick | src/components/ui/FileUpload.tsx:53-73 | entries of that upload gain ten points capped at a hundred and succeed exactly at a hundred; other entries are untouched |
| FileUpload.Ticks | src/components/ui/FileUpload.tsx:53-73 | repeated ticks keep every entry's place, id and name, and leave entries of other uploads untouched |
| FileUpload.TicksProgress | src/components/ui/FileUpload.tsx:53-73 | after `n` ticks an entry is at its progress plus `10n`, capped at a hundred, and has succeeded exactly when at a hundred; other entries are untouched |
| FileUpload.RemoveFile | src/components/ui/FileUpload.tsx:109-111 | exactly the entries with that id are removed |
| FileUpload.RemoveFileAppend | src/components/ui/FileUpload.tsx:110 | the filter keeps order: removing from a concatenation removes from each part, in turn |
| FileUpload.RemoveFileOne | src/components/ui/FileUpload.tsx:110 | one entry goes exactly when it carries the id |
| FileUpload.RemoveAdded | src/components/ui/FileUpload.tsx:109-111 | removing an entry just added under a new id restores the earlier list |
| FileUpload.LimitBoundary | src/components/ui/FileUpload.tsx:38-48 | a file of exactly the default limit is accepted, and one byte more is refused with the limit message |

## Left out

- CSV parsing by Papa Parse is outside the model: pages take parsed rows as input.
- `JSON.parse`, `Number` and `parseInt` are parameters. NaN and non-numeric cells are not modelled, and quantities are integers.
- JSON values of other shapes (a string's `type`, `null` fields) are not modelled: only objects count as charts or tables.
- Network calls and the hosted store are replaced by tables. Their errors are left out, as are uniqueness constraints, `created_at` and `updated_at` timestamps, and the `.single()` error codes. The one exception is the positional pairing reading past the last row.
- `getAllProducts`, `getProductById`, `getProductBySku`, `createProduct` and `updateProduct` are single store calls. The same goes for the inventory getters and for `getAllWarehouses`, `createWarehouse` and `updateWarehouse`. `UpdateById` and `InsertAll` cover the update and insert shapes.
- Timestamps are integer parameters.
- `localStorage` loading and its parse fallback are not modelled. `Persist` models only the save effect.
- The upload page's write of the raw rows to `localStorage` under `lastCSVData` after a successful save (`src/pages/DataUpload.tsx:103`) is not modelled; nothing in the model reads it back.
- `InventoryStore.QuantityAt`: reads the first record carrying the pair; it stands for the store's `.single()` read only on tables holding each pair at most once, which `InventoryStore.SingleReadUnique` proves.
- `window.confirm` is a boolean input.
- `setInterval` is replaced by explicit ticks. The timer of a removed file, which keeps running, is not modelled.
- Random file ids are a parameter.
- The AI page's CSV file reading, query templates and mode toggle are left out.
- Float percentages, MB display, the dashboard's random trend data and all rendering are left out.
- JavaScript object quirks are not modelled: prototype keys such as `constructor`, and integer-like keys that `Object.entries` lists first. Grouping keeps first-encounter order for all keys.
- Several requests in flight at once on the AI page are not modelled.
- `Analytics.QuantityOf`: `Number` of a non-numeric cell gives NaN in the page, which the model does not represent.
- `Dashboard.QuantityOf`: a non-numeric quantity gives NaN in the page, which the model does not represent.
- `ProductStore.SkuIndex`: its contract gives the key set and the id origin. The last-record-wins rule is stated separately in `ProductStore.SkuIndexLastWins`.
- `TableSort.SortedData`: cell values are mapped to integers by a parameter standing for the order of `>`. Mixed-type or `undefined` cells are not modelled.
- `FileUpload.NewUpload`: the limit in megabytes is a whole number. The message prints it in decimal, as JavaScript does for whole numbers.
- `DataUpload.SaveDataAsWritten`: the `TypeError` text for reading past the last row is the browser's wording. The model shows that branch cannot be reached.

## Findings

| source | as written | input that shows it | evidently intended | confidence | as-written member | corrected member |
|---|---|---|---|---|---|---|
| src/pages/SkuMapping.tsx:82-91 | the SKU pattern accepts white space, the key is stored as typed, and rows are looked up by their trimmed SKU | add SKU `" AB"` for `X`, then map a row with SKU `" AB"`: it comes out `UNMAPPED` | store the trimmed SKU, so that a mapping set for a SKU applies to rows carrying it | not executed | SkuMapping.PaddedSkuRoundTripFails | SkuMapping.AddThenApplyRoundTrip |
| src/pages/DataUpload.tsx:88-97 | saved product `i` takes the quantity of CSV row `i`, but the saved list is the inserted products only, not row order | stored product `A` with a file of rows `A` (quantity 5) then `B` (quantity 7): `B` gets 5 and `A` gets nothing | each saved product takes the quantity of the row carrying its SKU | not executed | DataUpload.PositionalPairingMismatch | DataUpload.SaveData |
| src/services/productService.ts:88-104 | the update loop deletes `id` from each update object before the re-read collects `productsToUpdate.map(p => p.id)`, so the re-read asks for undefined ids and returns nothing | re-import a stored product `A` with a new name: the record is updated, but the result is empty | the result is the inserted records followed by the updated records | not executed | ProductStore.UpdatedRecordIsNotReturned | ProductStore.BulkImportSaved |
