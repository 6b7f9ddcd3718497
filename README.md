# inventory_v4 stock logic in Dafny

This project models the stock-keeping logic of the inventory_v4 web application and proves
properties of the model. The application is a React front end over a hosted database. Its
logic falls into three parts:

- **The stock-mutation layer** (`src/services/inventoryService.ts`). It provides item and
  warehouse CRUD, `transferItem`, `addSaleRecord` and `addWastageRecord`, each issued as
  statements against four tables: items, warehouses, sales and wastage.
- **The shared-state container** (`src/context/InventoryContext.tsx`). It holds the
  `inventory`, `warehouses`, `loading` and `error` fields and wraps every service call so that
  a success reloads both lists and a failure records a message and rethrows.
- **The read-side views.** These are the reports page (`stockByCategory`, `stockStatus`, the
  low-stock list, `totalValue`, the value of each warehouse), the inventory screen (search
  filter, grouping by warehouse, red quantities) and the warehouse cards (`getWarehouseStats`).

The Dafny files, one module each:

| file | module | models |
|---|---|---|
| `options.dfy` | `Options` | `Option` |
| `types.dfy` | `Types` | the records of `src/types/index.ts`, thrown values, settled promises |
| `sequences.dfy` | `Sequences` | `filter`, sums, `.single()`, primary keys, `.order(...)` |
| `stock.dfy` | `Stock` | item tests and sums shared by the views; the `warehouseId` read |
| `inventory_service.dfy` | `InventoryService` | the store as a `Database` class; the service operations |
| `service_facts.dfy` | `InventoryServiceFacts` | what the service operations promise |
| `inventory_context.dfy` | `InventoryContext` | the provider as a class with the four state fields |
| `reports_page.dfy` | `ReportsPage` | the two folds as loops, the lists and sums as functions |
| `inventory_list.dfy` | `InventoryList` | search, grouping, highlight, what the screen shows |
| `warehouse_list.dfy` | `WarehouseList` | the warehouse cards |

**How the store is modelled.** The remote store is the `Database` class. Its fields are the
four tables, and its methods are the statements the service sends: select, insert, update,
upsert and delete. Each statement's method is proved equal to a function of the tables
before it (`InsertItemStep`, `UpsertStep`, ...). Each service operation is a method that
issues those statements in the source's order. It is proved equal to a specification
function built from the statement functions (`TransferStep`, `AddSaleStep`, ...). The lemmas
of `InventoryServiceFacts` then state what those functions promise.

**Parameters stand in for what the code cannot see:**
- whether each request fails, and with what value: an `Option<Thrown>` per request;
- the id the store generates for a new row: `newId`;
- the clock: `now`.

**Store behaviour as modelled:**
- `.single()` yields the row only when exactly one row matches.
- An insert whose id is already in use is refused with a key clash.
- One upsert batch naming the same row twice is refused.
- The decrement of a sale or a wastage, `supabase.raw('quantity - ?', [n])`, is taken to be
  server-side arithmetic: the store sets the row's quantity to its current value minus `n`.
  The client module `src/lib/supabase` is not part of this model. The published client has
  no `raw` method; with that client the call would throw after the ledger row is written.
- The store's own rejections are plain objects, not `Error` instances, so the provider shows
  its fallback text for them.

**Integer semantics.**
- Prices are integer cents.
- The test `quantity <= threshold / 2` is `2 * quantity <= threshold`, which is exact for
  integers.
- Quantities are unbounded integers, with no quantity floor: the code never checks a sale
  or a wastage against stock.

**Write order of a transfer.** When the target warehouse has no row of that name, the code
inserts the copy first. It then lowers the source, and raises an existing destination, together
in one upsert.
- `addWarehouse` does not send `created_at`. The model takes the store's default, the current
  time.

## Model

| member | source | states |
|---|---|---|
| Sequences.Filter | src/context/InventoryContext.tsx:145 | `filter` keeps exactly the elements satisfying the test, and never more than it was given |
| Sequences.FilterCounts | src/context/InventoryContext.tsx:145 | `filter` keeps every copy of a passing element and no copy of a failing one |
| Sequences.FilterIsSubsequence | src/components/inventory/InventoryList.tsx:32-35 | a filtered list is a subsequence of its input: the order is kept |
| Sequences.Single | src/services/inventoryService.ts:131-135 | `.single()` yields a position only when that row satisfies the query and no other row does; yielding nothing means no row or at least two rows match |
| Sequences.SortByCorrect | src/services/inventoryService.ts:14 | the `.order('name')` read returns a permutation of the table, sorted by name |
| Sequences.DeleteByUniqueKey | src/services/inventoryService.ts:84-95 | with unique ids, `delete().eq('id', id)` removes one row when the id is present and none otherwise |
| Stock.NoItemCarriesWarehouseId | src/components/reports/ReportsPage.tsx:116 | a filter on `item.warehouseId` selects no row, whatever the id, because rows carry only `warehouse_id` |
| Stock.GroupSumPartition | src/components/reports/ReportsPage.tsx:114-117 | per-group sums over distinct groups, plus the sum over items in no group, equal the sum over all items |
| InventoryService.Database.SelectItem | src/services/inventoryService.ts:131-135 | the read returns the single matching row, the request's failure, or the no-single-row rejection; no table changes |
| InventoryService.Database.SelectInventory | src/services/inventoryService.ts:6-23 | the inventory read returns the items ordered by name, or the failure |
| InventoryService.Database.SelectWarehouses | src/services/inventoryService.ts:26-40 | the warehouse read returns the warehouses ordered by name, or the failure |
| InventoryService.Database.InsertItem | src/services/inventoryService.ts:44-52 | the new tables are `InsertItemStep` of the old: appended, or unchanged on a failure or key clash |
| InventoryService.Database.UpdateItems | src/services/inventoryService.ts:65-73 | the new tables are `UpdateItemStep` of the old |
| InventoryService.Database.DeleteItems | src/services/inventoryService.ts:86-89 | the new tables are `DeleteItemsStep` of the old |
| InventoryService.Database.Upsert | src/services/inventoryService.ts:179-181 | the new tables are `UpsertStep` of the old |
| InventoryService.Database.Decrement | src/services/inventoryService.ts:196-202 | the new tables are `DecrementStep` of the old: the raw `quantity - n` on the row with that id |
| InventoryService.Database.InsertWarehouse | src/services/inventoryService.ts:98-102 | the new tables are `InsertWarehouseStep` of the old |
| InventoryService.Database.UpdateWarehouses | src/services/inventoryService.ts:109-114 | the new tables are `UpdateWarehouseStep` of the old |
| InventoryService.Database.DeleteWarehouses | src/services/inventoryService.ts:121-124 | the new tables are `DeleteWarehousesStep` of the old |
| InventoryService.Database.InsertSale | src/services/inventoryService.ts:210-214 | the new tables are `InsertSaleStep` of the old |
| InventoryService.Database.InsertWastage | src/services/inventoryService.ts:187-191 | the new tables are `InsertWastageStep` of the old |
| InventoryService.InsertItemStep | src/services/inventoryService.ts:44-52 | an item insert keeps every table's ids unique |
| InventoryService.UpdateItemStep | src/services/inventoryService.ts:63-82 | an item update keeps ids unique: an update that would give the row an id already in use is refused |
| InventoryService.DeleteItemsStep | src/services/inventoryService.ts:84-95 | a delete keeps ids unique |
| InventoryService.SetQuantity | src/services/inventoryService.ts:179-181 | one upserted quantity keeps the row count and every row's id |
| InventoryService.ApplyUpdates | src/services/inventoryService.ts:179-181 | an upsert batch keeps the row count and every row's id |
| InventoryService.UpsertStep | src/services/inventoryService.ts:179-183 | an upsert keeps ids unique |
| InventoryService.Decremented | src/services/inventoryService.ts:196-202 | the decrement keeps the row count and every row's id |
| InventoryService.DecrementStep | src/services/inventoryService.ts:196-204 | a decrement keeps ids unique |
| InventoryService.InsertWarehouseStep | src/services/inventoryService.ts:97-106 | a warehouse insert keeps ids unique |
| InventoryService.UpdateWarehouseStep | src/services/inventoryService.ts:108-118 | a warehouse update keeps ids unique |
| InventoryService.DeleteWarehousesStep | src/services/inventoryService.ts:120-127 | a warehouse delete keeps ids unique |
| InventoryService.InsertSaleStep | src/services/inventoryService.ts:210-216 | a sale insert keeps the ledger's ids unique |
| InventoryService.InsertWastageStep | src/services/inventoryService.ts:187-193 | a wastage insert keeps the ledger's ids unique |
| InventoryService.TransferStep | src/services/inventoryService.ts:129-184 | a transfer keeps ids unique |
| InventoryService.MoveStock | src/services/inventoryService.ts:148-183 | the writes after the checks keep ids unique |
| InventoryService.MoveIntoRow | src/services/inventoryService.ts:156-161 | the push-then-upsert branch keeps ids unique |
| InventoryService.MoveIntoCopy | src/services/inventoryService.ts:162-176 | the insert-then-upsert branch keeps ids unique |
| InventoryService.AddSaleStep | src/services/inventoryService.ts:209-230 | recording a sale keeps ids unique |
| InventoryService.AddWastageStep | src/services/inventoryService.ts:186-207 | recording a wastage keeps ids unique |
| InventoryService.GetInventory | src/services/inventoryService.ts:6-23 | returns the ordered inventory read of the current tables, or the failure |
| InventoryService.GetWarehouses | src/services/inventoryService.ts:26-40 | returns the ordered warehouse read, or the failure |
| InventoryService.AddItem | src/services/inventoryService.ts:42-61 | the result and new tables are `InsertItemStep` of the row stamped `now` on both timestamps; ids stay unique |
| InventoryService.UpdateItem | src/services/inventoryService.ts:63-82 | the result and new tables are `UpdateItemStep`; ids stay unique |
| InventoryService.DeleteItem | src/services/inventoryService.ts:84-95 | the result and new tables are `DeleteItemsStep`; ids stay unique |
| InventoryService.AddWarehouse | src/services/inventoryService.ts:97-106 | the result and new tables are `InsertWarehouseStep`; ids stay unique |
| InventoryService.UpdateWarehouse | src/services/inventoryService.ts:108-118 | the result and new tables are `UpdateWarehouseStep`; ids stay unique |
| InventoryService.DeleteWarehouse | src/services/inventoryService.ts:120-127 | the result and new tables are `DeleteWarehousesStep`; ids stay unique |
| InventoryService.TransferItem | src/services/inventoryService.ts:129-184 | the statements `transferItem` issues, in order, produce exactly `TransferStep` of the old tables; ids stay unique |
| InventoryService.MoveStockFrom | src/services/inventoryService.ts:140-183 | building `updates`, reading the target row and either pushing onto it or inserting the copy, then the upsert, produce `MoveStock` |
| InventoryService.PushThenUpsert | src/services/inventoryService.ts:156-161 | pushing the target's new quantity and upserting both produces `MoveIntoRow` |
| InventoryService.CopyThenUpsert | src/services/inventoryService.ts:162-181 | inserting the copy, stopping on its error, then upserting the source produces `MoveIntoCopy` |
| InventoryService.AddWastageRecord | src/services/inventoryService.ts:186-207 | the ledger insert, stopping on its error, then the decrement, produce `AddWastageStep` |
| InventoryService.AddSaleRecord | src/services/inventoryService.ts:209-230 | the ledger insert, stopping on its error, then the decrement, produce `AddSaleStep` |
| InventoryServiceFacts.SingleById | src/services/inventoryService.ts:131-135 | with unique ids, the read by id finds a row exactly when one has that id, and it is that row |
| InventoryServiceFacts.DecrementedAt | src/services/inventoryService.ts:196-202 | the decrement rewrites only the row with that id, to its quantity minus `n`, stamped `now` |
| InventoryServiceFacts.DecrementedAbsent | src/services/inventoryService.ts:196-202 | a decrement naming no row changes nothing |
| InventoryServiceFacts.DecrementedTotal | src/services/inventoryService.ts:196-202 | a decrement lowers the total quantity by `n` when a row has that id, and by nothing otherwise |
| InventoryServiceFacts.MovedFromConserves | src/services/inventoryService.ts:140-176 | moving units between two rows of one product keeps the total quantity and every product's total |
| InventoryServiceFacts.MoveStockIntoExisting | src/services/inventoryService.ts:149-161 | when the target warehouse has the single row of that name, a successful move draws the units from the source, adds them to that row and inserts nothing; no other table changes |
| InventoryServiceFacts.MoveIntoRowRewrites | src/services/inventoryService.ts:156-161 | a successful two-row upsert named two different rows and rewrites exactly those two |
| InventoryServiceFacts.MoveStockIntoCopy | src/services/inventoryService.ts:162-176 | otherwise a successful move appends one copy of the source (new id, the amount, the target warehouse, the other fields copied) and draws the units from the source |
| InventoryServiceFacts.TransferSucceeded | src/services/inventoryService.ts:137-183 | a successful transfer had a source row holding at least the amount; the source ends at its old quantity minus the amount; the units went to the target; the ledgers and warehouses are untouched |
| InventoryServiceFacts.TransferConservesStock | src/services/inventoryService.ts:140-183 | a successful transfer keeps the total quantity and the total of every product across warehouses |
| InventoryServiceFacts.TransferRefusals | src/services/inventoryService.ts:137-138 | a missing source fails with "Item not found" and one holding too little with "Insufficient quantity"; neither writes anything |
| InventoryServiceFacts.TransferFailed | src/services/inventoryService.ts:171-183 | a failed transfer changes nothing, except when the copy was inserted and the upsert then failed: the copy stays, the source is not decremented, and the product gains the amount |
| InventoryServiceFacts.TransferWithinWarehouse | src/services/inventoryService.ts:149-183 | a transfer into the source's own warehouse, where the source is the only row of its name, names that row twice; the store refuses the upsert and nothing changes |
| InventoryServiceFacts.AtomicTransferConservesStock | src/services/inventoryService.ts:130 | the transfer run as the single transaction the comment announces changes nothing on failure and conserves stock whatever fails |
| InventoryServiceFacts.FailedTransferCreatesStock | src/services/inventoryService.ts:171-183 | with 100 units, 30 sent to an empty warehouse and the upsert refused, the call fails and the product totals 130 |
| InventoryServiceFacts.SaleTakesStock | src/services/inventoryService.ts:209-230 | a sale succeeds exactly when both requests are accepted; it appends one ledger row and lowers only the row `item_id` by exactly the quantity, touching no warehouse or wastage row; a refused ledger insert (a failure or an id in use) changes nothing; a refused decrement after an accepted insert leaves exactly the new ledger row |
| InventoryServiceFacts.WastageTakesStock | src/services/inventoryService.ts:186-207 | the same for a wastage record: a refused insert changes nothing, a refused decrement leaves exactly the new wastage row |
| InventoryServiceFacts.AddedItemIsListed | src/services/inventoryService.ts:42-61 | an added item is stamped `now` and appears in the next ordered read; it is the only change, with the warehouses, sales and wastage tables unchanged; it is refused only on a failure or an id in use, and then nothing changes |
| InventoryServiceFacts.UpdateItemRewritesOneRow | src/services/inventoryService.ts:63-82 | an update succeeds exactly when the row exists and any new id is free; it overwrites only the supplied fields plus `updated_at`, of that row only; a failure changes nothing |
| InventoryServiceFacts.EmptyUpdateOnlyStamps | src/services/inventoryService.ts:67-70 | an update with no fields only restamps the row |
| InventoryServiceFacts.DeleteItemRemovesRow | src/services/inventoryService.ts:84-95 | a delete succeeds unless the store fails; it removes exactly the row with that id, if any, and keeps the others in order |
| InventoryServiceFacts.AddedWarehouseIsListed | src/services/inventoryService.ts:97-106 | an added warehouse appears in the next ordered read; it is the only change, with the items, sales and wastage tables unchanged; it is refused only on a failure or an id in use, and then nothing changes |
| InventoryServiceFacts.SingleByWarehouseId | src/services/inventoryService.ts:109-114 | with unique ids, the read by warehouse id finds a row exactly when one has that id |
| InventoryServiceFacts.UpdateWarehouseRewritesOneRow | src/services/inventoryService.ts:108-118 | a warehouse update rewrites that one row with the supplied fields, touching no timestamp and no item |
| InventoryServiceFacts.DeleteWarehouseRemovesRow | src/services/inventoryService.ts:120-127 | a warehouse delete succeeds unless the store fails; it removes exactly that row, keeps the others in order and changes no other table, so items stocked there keep their `warehouse_id` |
| InventoryContext.Refreshed | src/context/InventoryContext.tsx:31-48 | after a refresh `loading` is false; with both reads answered, both lists are the store's rows sorted by name and `error` is null; otherwise the lists are kept and `error` is the first failure's message or 'Failed to fetch data' |
| InventoryContext.AfterOperation | src/context/InventoryContext.tsx:118-126 | a failed call keeps the lists and sets `error` to the message or the fallback; a successful call followed by an answered refresh shows the store's rows and no error |
| InventoryContext.InventoryProvider.constructor | src/context/InventoryContext.tsx:26-29 | the provider starts with empty lists, loading, and no error |
| InventoryContext.InventoryProvider.GetLowStockItems | src/context/InventoryContext.tsx:145 | exactly the items with `quantity <= threshold`, in list order, each as many times as it occurs in the list |
| InventoryContext.InventoryProvider.RefreshData | src/context/InventoryContext.tsx:31-48 | the new state is `Refreshed` of the old state and the store |
| InventoryContext.InventoryProvider.AddItem | src/context/InventoryContext.tsx:54-63 | clears `error`, calls the service; on failure records the message and rethrows without refreshing; on success refreshes once |
| InventoryContext.InventoryProvider.UpdateItem | src/context/InventoryContext.tsx:73-81 | on failure records the message or 'Failed to update item' and rethrows; on success refreshes once |
| InventoryContext.InventoryProvider.DeleteItem | src/context/InventoryContext.tsx:82-90 | the same, with 'Failed to delete item' |
| InventoryContext.InventoryProvider.AddWarehouse | src/context/InventoryContext.tsx:91-99 | the same, with 'Failed to add warehouse' |
| InventoryContext.InventoryProvider.UpdateWarehouse | src/context/InventoryContext.tsx:100-108 | the same, with 'Failed to update warehouse' |
| InventoryContext.InventoryProvider.DeleteWarehouse | src/context/InventoryContext.tsx:109-117 | the same, with 'Failed to delete warehouse' |
| InventoryContext.InventoryProvider.TransferItem | src/context/InventoryContext.tsx:118-126 | the same, with 'Failed to transfer item' |
| InventoryContext.InventoryProvider.RecordWastage | src/context/InventoryContext.tsx:127-135 | the same, with 'Failed to record wastage' |
| InventoryContext.InventoryProvider.RecordSale | src/context/InventoryContext.tsx:136-144 | the same, with 'Failed to record sale' |
| InventoryContext.LowStockReflectsStore | src/context/InventoryContext.tsx:145 | after an answered refresh, the low-stock items are exactly the store's items at or below threshold |
| ReportsPage.Categories | src/components/reports/ReportsPage.tsx:9-12 | the keys of the category object: no category twice |
| ReportsPage.CategoriesPresent | src/components/reports/ReportsPage.tsx:9-12 | a category is a key exactly when some item carries it |
| ReportsPage.CategoryTotalIsFilteredSum | src/components/reports/ReportsPage.tsx:10 | a category's accumulated units are the sum of quantity over the items of that category |
| ReportsPage.CategoryRows | src/components/reports/ReportsPage.tsx:14-17 | one `{ category, quantity }` row per key, in key order |
| ReportsPage.StockByCategory | src/components/reports/ReportsPage.tsx:9-17 | the loop that fills the object and reads out its entries yields exactly the category report |
| ReportsPage.CategoryMapKeys | src/components/reports/ReportsPage.tsx:9-12 | the object's keys are the categories seen |
| ReportsPage.CategoryMapCorrect | src/components/reports/ReportsPage.tsx:9-12 | each key maps to its category's units |
| ReportsPage.Entries | src/components/reports/ReportsPage.tsx:14-17 | `Object.entries(...).map(...)`: one entry per key, in key order, with that key's value |
| ReportsPage.EntriesAreReport | src/components/reports/ReportsPage.tsx:14-17 | reading out the finished object gives the category report |
| ReportsPage.CategoryTotalAbsent | src/components/reports/ReportsPage.tsx:9-12 | a category no item carries totals 0 |
| ReportsPage.StockReportCoversItems | src/components/reports/ReportsPage.tsx:9-17 | every item's category has an entry |
| ReportsPage.StockReportEntries | src/components/reports/ReportsPage.tsx:9-17 | every entry is a category some item carries, holds that category's units, and no two entries share a category |
| ReportsPage.StockReportSumsToTotal | src/components/reports/ReportsPage.tsx:9-17 | the entries add up to the total quantity of the inventory |
| ReportsPage.CategoryRowsSum | src/components/reports/ReportsPage.tsx:14-17 | the rows of a key list add up to the per-group sum over those keys |
| ReportsPage.LevelMeaning | src/components/reports/ReportsPage.tsx:22-24 | critical when `quantity <= threshold/2`; low when `threshold/2 < quantity <= threshold`; sufficient otherwise, which for a non-negative quantity is `quantity > threshold` |
| ReportsPage.StockStatus | src/components/reports/ReportsPage.tsx:20-28 | each counter is the number of items of its level, and the three counters add up to the inventory's length |
| ReportsPage.StatusFoldCounts | src/components/reports/ReportsPage.tsx:20-28 | the counters of the fold are those counts, summing to the item count |
| ReportsPage.SlicesCountLowStockList | src/components/reports/ReportsPage.tsx:20-28 | with no negative threshold, the critical and low slices together count the low-stock list |
| ReportsPage.LowStockList | src/components/reports/ReportsPage.tsx:88-94 | one line per item at or below threshold, in inventory order |
| ReportsPage.LowStockListCorrect | src/components/reports/ReportsPage.tsx:88-94 | the list holds exactly the items at or below threshold, in order; a line is red exactly when its item is critical; with no negative threshold every critical item is listed in red |
| ReportsPage.LowStockListCounts | src/components/reports/ReportsPage.tsx:88-90 | the list has one line per low item of the inventory, each item as many times as it occurs there, and no other item |
| ReportsPage.TotalValueSplitsByWarehouse | src/components/reports/ReportsPage.tsx:37 | corrected: `totalValue` is the sum of the per-warehouse values, filtered on `warehouse_id`, plus the value held in unlisted warehouses |
| ReportsPage.WarehouseValues | src/components/reports/ReportsPage.tsx:114-117 | corrected: one value per warehouse, the value of the items whose `warehouse_id` is its id |
| ReportsPage.WarehouseValuesAsWritten | src/components/reports/ReportsPage.tsx:114-117 | as written: one value per warehouse, filtering on `warehouseId` |
| ReportsPage.WarehouseValuesAsWrittenAreZero | src/components/reports/ReportsPage.tsx:116 | as written, every warehouse's value is 0 |
| ReportsPage.WarehouseCardShowsZero | src/components/reports/ReportsPage.tsx:116 | one warehouse holding 10 units at 599 cents: the page shows 0 where 5990 is held |
| InventoryList.ToLower | src/components/inventory/InventoryList.tsx:33 | lower-casing keeps the length and maps each character on its own |
| InventoryList.ToLowerIdempotent | src/components/inventory/InventoryList.tsx:33-34 | lower-casing twice is lower-casing once |
| InventoryList.IncludesMeansContains | src/components/inventory/InventoryList.tsx:33-34 | `includes` holds exactly when the needle occurs at some position of the haystack |
| InventoryList.IncludesEmpty | src/components/inventory/InventoryList.tsx:33-34 | every string includes the empty string |
| InventoryList.FilteredInventoryCorrect | src/components/inventory/InventoryList.tsx:32-35 | an item is kept exactly when the lower-cased term occurs in its lower-cased name or category; the list keeps inventory order; an empty term keeps every item |
| InventoryList.SearchIgnoresCase | src/components/inventory/InventoryList.tsx:32-35 | a term and its lower-cased form list the same items |
| InventoryList.InventoryByWarehouse | src/components/inventory/InventoryList.tsx:37-40 | one group per warehouse, in list order, carrying that warehouse |
| InventoryList.GroupingCorrect | src/components/inventory/InventoryList.tsx:37-40 | a group holds exactly the filtered items whose `warehouse_id` is its id, in order; an item of an unlisted warehouse is in no group; with distinct ids no item is in two groups |
| InventoryList.GroupsCoverFiltered | src/components/inventory/InventoryList.tsx:37-40 | with distinct ids, the group sizes plus the unlisted items count the filtered list |
| InventoryList.HighlightMatchesLowStock | src/components/inventory/InventoryList.tsx:90-92 | a listed quantity is red exactly when `quantity <= threshold`, the provider's low-stock test |
| InventoryList.Render | src/components/inventory/InventoryList.tsx:42-43 | a spinner exactly while loading; the error banner exactly when not loading and the message is non-empty; otherwise the grouped, filtered tables |
| InventoryList.RefreshedScreen | src/components/inventory/InventoryList.tsx:28-30 | after the mount-time refresh the spinner is gone; answered reads show the fresh tables; a rejected read that is no `Error` shows 'Failed to fetch data' |
| WarehouseList.GetWarehouseStatsAsWritten | src/components/warehouse/WarehouseList.tsx:22-28 | as written, every warehouse's stats are all 0 |
| WarehouseList.WarehouseStatsFacts | src/components/warehouse/WarehouseList.tsx:22-28 | corrected stats: the row count is at most the inventory's length and is 0 exactly when no item is there; no items means all three are 0; with non-negative quantities and prices the totals are non-negative |
| WarehouseList.WarehouseCards | src/components/warehouse/WarehouseList.tsx:47-48 | corrected: one card per warehouse, in list order, with that warehouse's stats filtered on `warehouse_id` |
| WarehouseList.WarehouseCardsPartition | src/components/warehouse/WarehouseList.tsx:22-28 | corrected: with distinct ids, the cards' units, values and row counts, plus those of unlisted warehouses, are the inventory's |
| WarehouseList.CardRowsMatchInventoryScreen | src/components/warehouse/WarehouseList.tsx:26 | corrected: with an empty search, a card's row count is the number of rows in that warehouse's table on the inventory screen (as written the card shows 0 rows) |
| WarehouseList.WarehouseCardCountsNothing | src/components/warehouse/WarehouseList.tsx:23 | one warehouse with 10 units at 599 cents: as written the card shows (0, 0, 0); corrected it shows (10, 5990, 1) |

## Findings

| source | as written | input that shows it | evidently intended | confidence | as-written member | corrected member |
|---|---|---|---|---|---|---|
| src/components/reports/ReportsPage.tsx:116 | the per-warehouse value filters on `item.warehouseId`; rows carry only `warehouse_id` (src/types/index.ts:14) | one item in warehouse `w1`, 10 units at 599 cents: the card shows 0 | filter on `item.warehouse_id`, so the card shows 5990 and the cards split the total value | high (not executed) | ReportsPage.WarehouseCardShowsZero | ReportsPage.TotalValueSplitsByWarehouse |
| src/components/warehouse/WarehouseList.tsx:23 | `getWarehouseStats` filters on `item.warehouseId` | the same item: the card shows 0 units, 0 value, 0 rows | filter on `item.warehouse_id`, giving (10, 5990, 1) | high (not executed) | WarehouseList.WarehouseCardCountsNothing | WarehouseList.WarehouseCardsPartition |
| src/services/inventoryService.ts:130-183 | "Start a transaction" is only a comment: the copy insert and the upsert are separate requests | 100 units, 30 sent to a warehouse without that product, the upsert refused: the product totals 130 | one transaction, so a failure undoes the insert and stock is conserved | medium (not executed) | InventoryServiceFacts.FailedTransferCreatesStock | InventoryServiceFacts.AtomicTransferConservesStock |

The model keeps the as-written code in its state transitions. The property proved about the
corrected behaviour sits beside it: `WarehouseValues`, `GetWarehouseStats` and
`AtomicTransferStep` are the corrected definitions.

## Left out

- Logging (`console.log`, `console.error`) has no effect on state and is not modelled.
- The hosted store client is not modelled. The in-memory `Database` replaces the client, its
  query builder and the join `warehouse:warehouses(...)` in the inventory read. The joined
  `warehouse` object is not part of the item rows here.
- The store's foreign keys and column constraints (not-null, the delete of a warehouse that
  still has items) are not modelled: they are not in the application's source.
- `.order('name')` is modelled as code-point order on the name. The store's collation is not
  modelled, nor the relative order of rows with equal names.
- Only ASCII letters are lower-cased. Full Unicode `toLowerCase` is not modelled.
- The key order of the category object is first-seen order. JavaScript lists integer-like
  keys first; category names that look like array indices are not modelled.
- Float prices, `toFixed` and `toLocaleString` are left out. Prices are integer cents.
- Timestamps come from one abstract `now` per operation. The code calls `new Date()` several
  times within one call.
- The `Promise.all` in `refreshData` is modelled as the two reads in order. When both reads
  fail, the inventory read's failure is the one shown.
- Concurrency is not modelled. This covers the 30-second polling timer, interleaved operations
  and last-write-wins refresh races. Only the state after each operation has settled is
  modelled, not the intermediate `loading: true` renders.
- `useInventory` called outside the provider, which throws, is not modelled.
- Authentication, `dashboardService.ts`, the dashboard, the menu, routing and the form modals
  are not modelled. That includes the `warehouseId` filter in
  `src/components/inventory/TransferModal.tsx:23`.
- The read errors of `transferItem` are ignored by the code (`const { data: sourceItem }`). A
  refused read is therefore modelled like a missing row: "Item not found" for the source, and
  "no existing row" for the target.
- InventoryService.MoveStockFrom, InventoryService.PushThenUpsert and
  InventoryService.CopyThenUpsert are one source function, the tail of `transferItem`, split
  into three methods. The statements and their order are the source's.
- InventoryService.Database.Upsert: requires that every id in the batch names an existing
  row, so the insert half of an upsert is not modelled. `transferItem` only sends ids of rows
  it has just read, and with no concurrent writers those rows still exist.
- ReportsPage.Categories, ReportsPage.CategoryMap, ReportsPage.StockByCategory,
  ReportsPage.CategoriesPresent and ReportsPage.StockReportSumsToTotal treat the accumulator
  `{}` as an empty dictionary. Category names that are properties of `Object.prototype`
  (`constructor`, `toString`, `valueOf`, `hasOwnProperty`, `__proto__`, ...) are not modelled.
  In JavaScript such a name reads an inherited function, so its total becomes a string, and
  an assignment to `__proto__` is dropped from `Object.entries`.
