/**
 * The read-side figures of the reports page (src/components/reports/ReportsPage.tsx): stock
 * per category, the critical / low / sufficient split, the low-stock list with its colours,
 * the total stock value and the value held by each warehouse.  Prices and values are in
 * integer cents.
 */
module ReportsPage {
  import opened Options
  import opened Types
  import opened Sequences
  import opened Stock

  // ---------------------------------------------------------------------------------------
  // Current stock report

  /** One bar of the chart: `{ category, quantity }`. */
  datatype CategoryStock = CategoryStock(category: string, quantity: int)

  function EntryQuantity(e: CategoryStock): int { e.quantity }

  /**
   * The categories present, each once, in order of first appearance: the key order of the
   * object the fold builds.
   */
  function Categories(items: seq<InventoryItem>): (cs: seq<string>)
    ensures Distinct(cs)
    decreases |items|
  {
    if items == [] then []
    else
      var init := items[..|items| - 1];
      var c := items[|items| - 1].category;
      assert items == init + [items[|items| - 1]];
      var prev := Categories(init);
      if c in prev then prev else prev + [c]
  }

  /** Units held in category `c`, accumulated item by item. */
  function CategoryTotal(items: seq<InventoryItem>, c: string): int
    decreases |items|
  {
    if items == [] then 0
    else
      var last := items[|items| - 1];
      CategoryTotal(items[..|items| - 1], c) + (if last.category == c then last.quantity else 0)
  }

  /** The same units, as the sum over the items of category `c`. */
  lemma {:induction false} CategoryTotalIsFilteredSum(items: seq<InventoryItem>, c: string)
    ensures CategoryTotal(items, c) == SumBy(Filter(items, InGroup(ItemCategory, c)), Quantity)
    decreases |items|
  {
    if items != [] {
      var init, last := items[..|items| - 1], items[|items| - 1];
      var p := InGroup(ItemCategory, c);
      assert items == init + [last];
      assert CategoryTotal(items, c) == CategoryTotal(init, c) + (if last.category == c then last.quantity else 0);
      CategoryTotalIsFilteredSum(init, c);
      SumByFilterSnoc(init, last, p, Quantity);
      assert p(last) == (last.category == c) by {
        assert ItemCategory(last) == last.category;
      }
      assert Quantity(last) == last.quantity;
    }
  }

  function CategoryRows(cs: seq<string>, items: seq<InventoryItem>): (rows: seq<CategoryStock>)
    ensures |rows| == |cs|
    ensures forall j :: 0 <= j < |cs| ==> rows[j] == CategoryStock(cs[j], CategoryTotal(items, cs[j]))
  {
    seq(|cs|, j requires 0 <= j < |cs| => CategoryStock(cs[j], CategoryTotal(items, cs[j])))
  }

  /** The chart data: one entry per category present, in first-seen order, with its units. */
  function StockReport(items: seq<InventoryItem>): seq<CategoryStock> {
    CategoryRows(Categories(items), items)
  }

  /**
   * The object `stockByCategory` builds, item by item: each item adds its quantity to its
   * category's slot, a slot starting from 0 when the category is first seen.
   */
  function CategoryMap(items: seq<InventoryItem>): map<string, int>
    decreases |items|
  {
    if items == [] then map[]
    else
      var prev := CategoryMap(items[..|items| - 1]);
      var last := items[|items| - 1];
      prev[last.category := (if last.category in prev then prev[last.category] else 0) + last.quantity]
  }

  /**
   * `stockByCategory` and `stockData`: the fold keeps the object's keys in insertion order
   * beside the object itself, then reads the entries out in that order.
   */
  method StockByCategory(inventory: seq<InventoryItem>) returns (stockData: seq<CategoryStock>)
    ensures stockData == StockReport(inventory)
  {
    var keys: seq<string> := [];
    var acc: map<string, int> := map[];
    var i := 0;
    while i < |inventory|
      invariant 0 <= i <= |inventory|
      invariant keys == Categories(inventory[..i])
      invariant acc == CategoryMap(inventory[..i])
    {
      var item := inventory[i];
      assert inventory[..i + 1][..i] == inventory[..i];
      CategoryMapKeys(inventory[..i]);
      keys, acc :=
        if item.category in acc then keys else keys + [item.category],
        acc[item.category := (if item.category in acc then acc[item.category] else 0) + item.quantity];
      i := i + 1;
    }
    assert inventory[..i] == inventory;
    CategoryMapCorrect(inventory);
    stockData := Entries(keys, acc);
    EntriesAreReport(inventory);
  }

  /** The object's keys are the categories seen. */
  lemma {:induction false} CategoryMapKeys(items: seq<InventoryItem>)
    ensures forall c :: c in CategoryMap(items) <==> c in Categories(items)
    decreases |items|
  {
    if items != [] {
      CategoryMapKeys(items[..|items| - 1]);
    }
  }

  /** Each slot of the object holds its category's units. */
  lemma {:induction false} CategoryMapCorrect(items: seq<InventoryItem>)
    ensures forall c :: c in CategoryMap(items) <==> c in Categories(items)
    ensures forall c :: c in CategoryMap(items) ==> CategoryMap(items)[c] == CategoryTotal(items, c)
    decreases |items|
  {
    CategoryMapKeys(items);
    if items != [] {
      var init := items[..|items| - 1];
      CategoryMapCorrect(init);
      CategoryMapKeys(init);
      var k := items[|items| - 1].category;
      if k !in CategoryMap(init) {
        CategoryTotalAbsent(init, k);
      }
    }
  }

  /** `Object.entries(...).map(...)`: one entry per key, in key order. */
  function Entries(keys: seq<string>, acc: map<string, int>): (entries: seq<CategoryStock>)
    requires forall k :: k in keys ==> k in acc
    ensures |entries| == |keys|
    ensures forall j :: 0 <= j < |keys| ==> entries[j].category == keys[j] && entries[j].quantity == acc[keys[j]]
  {
    seq(|keys|, j requires 0 <= j < |keys| => CategoryStock(keys[j], acc[keys[j]]))
  }

  /** The finished object, read out in key order, is the chart. */
  lemma EntriesAreReport(items: seq<InventoryItem>)
    ensures forall k :: k in Categories(items) ==> k in CategoryMap(items)
    ensures Entries(Categories(items), CategoryMap(items)) == StockReport(items)
  {
    CategoryMapCorrect(items);
    var keys := Categories(items);
    var e := Entries(keys, CategoryMap(items));
    forall j | 0 <= j < |keys|
      ensures e[j] == StockReport(items)[j]
    {
      assert keys[j] in keys;
    }
  }

  /** A category is listed exactly when some item carries it. */
  lemma {:induction false} CategoriesPresent(items: seq<InventoryItem>)
    ensures forall c :: c in Categories(items) <==> exists x :: x in items && x.category == c
    decreases |items|
  {
    if items != [] {
      var init, last := items[..|items| - 1], items[|items| - 1];
      assert items == init + [last];
      CategoriesPresent(init);
      CategoriesSnoc(init, last);
    }
  }

  lemma CategoriesSnoc(items: seq<InventoryItem>, x: InventoryItem)
    ensures Categories(items + [x]) == if x.category in Categories(items) then Categories(items) else Categories(items) + [x.category]
  {
    assert (items + [x])[..|items|] == items;
  }

  /** A category no item carries totals 0. */
  lemma CategoryTotalAbsent(items: seq<InventoryItem>, c: string)
    requires c !in Categories(items)
    ensures CategoryTotal(items, c) == 0
  {
    CategoriesPresent(items);
    NoItemOfCategory(items, c);
  }

  lemma {:induction false} NoItemOfCategory(items: seq<InventoryItem>, c: string)
    requires forall x :: x in items ==> x.category != c
    ensures CategoryTotal(items, c) == 0
    decreases |items|
  {
    if items != [] {
      var init := items[..|items| - 1];
      assert forall x :: x in init ==> x in items;
      assert items[|items| - 1] in items;
      NoItemOfCategory(init, c);
    }
  }

  /** Every category present has an entry in the chart. */
  lemma StockReportCoversItems(items: seq<InventoryItem>)
    ensures forall x :: x in items ==> exists e :: e in StockReport(items) && e.category == x.category
  {
    var cs := Categories(items);
    var rows := StockReport(items);
    CategoriesPresent(items);
    forall x | x in items
      ensures exists e :: e in rows && e.category == x.category
    {
      assert x.category in cs;
      var j :| 0 <= j < |cs| && cs[j] == x.category;
      assert rows[j] in rows;
    }
  }

  /**
   * Every entry of the chart is a category some item carries, it holds that category's
   * units, and no category has two entries.
   */
  lemma StockReportEntries(items: seq<InventoryItem>)
    ensures forall e :: e in StockReport(items) ==> (exists x :: x in items && x.category == e.category)
    ensures forall e :: e in StockReport(items) ==> e.quantity == CategoryTotal(items, e.category)
    ensures forall i, j :: 0 <= i < |StockReport(items)| && 0 <= j < |StockReport(items)| && i != j ==>
      StockReport(items)[i].category != StockReport(items)[j].category
  {
    var cs := Categories(items);
    var rows := StockReport(items);
    CategoriesPresent(items);
    forall e | e in rows
      ensures (exists x :: x in items && x.category == e.category) && e.quantity == CategoryTotal(items, e.category)
    {
      var j :| 0 <= j < |rows| && rows[j] == e;
      assert cs[j] in cs;
    }
  }

  /** The entries of the chart add up to the total stock. */
  lemma StockReportSumsToTotal(items: seq<InventoryItem>)
    ensures SumBy(StockReport(items), EntryQuantity) == TotalQuantity(items)
  {
    var cs := Categories(items);
    CategoryRowsSum(cs, items);
    GroupSumPartition(cs, items, ItemCategory, Quantity);
    CategoriesPresent(items);
    forall x | x in items
      ensures !OutsideGroups(ItemCategory, cs)(x)
    {
      assert ItemCategory(x) in cs;
    }
    FilterNone(items, OutsideGroups(ItemCategory, cs));
    assert SumBy([], Quantity) == 0;
  }

  lemma {:induction false} CategoryRowsSum(cs: seq<string>, items: seq<InventoryItem>)
    ensures SumBy(CategoryRows(cs, items), EntryQuantity) == GroupSum(cs, items, ItemCategory, Quantity)
    decreases |cs|
  {
    if cs != [] {
      var rows := CategoryRows(cs, items);
      assert rows[..|rows| - 1] == CategoryRows(cs[..|cs| - 1], items);
      CategoryRowsSum(cs[..|cs| - 1], items);
      CategoryTotalIsFilteredSum(items, cs[|cs| - 1]);
    }
  }

  // ---------------------------------------------------------------------------------------
  // Low stock report

  datatype StockLevel = Critical | Low | Sufficient

  /**
   * The branch of the fold an item takes: critical at or below half its threshold, low above
   * that and at or below the threshold, sufficient above both.
   */
  function Level(item: InventoryItem): StockLevel {
    if IsCritical(item) then Critical else if IsLowStock(item) then Low else Sufficient
  }

  /**
   * Critical at or below half the threshold, low above that and at or below the threshold,
   * sufficient above both; for a non-negative quantity, sufficient is just "above threshold".
   */
  lemma LevelMeaning(item: InventoryItem)
    ensures Level(item) == Critical <==> 2 * item.quantity <= item.threshold
    ensures Level(item) == Low <==> item.threshold < 2 * item.quantity && item.quantity <= item.threshold
    ensures Level(item) == Sufficient <==> item.threshold < item.quantity && item.threshold < 2 * item.quantity
    ensures 0 <= item.quantity ==> (Level(item) == Sufficient <==> item.threshold < item.quantity)
  {
  }

  function HasLevel(l: StockLevel): InventoryItem -> bool {
    (item: InventoryItem) => Level(item) == l
  }

  datatype StatusCounts = StatusCounts(critical: nat, low: nat, sufficient: nat)

  /**
   * `stockStatus`: one counter per level, each item adding one to exactly one of them, so
   * the slices of the pie cover the inventory.
   */
  method StockStatus(inventory: seq<InventoryItem>) returns (acc: StatusCounts)
    ensures acc.critical == |Filter(inventory, HasLevel(Critical))|
    ensures acc.low == |Filter(inventory, HasLevel(Low))|
    ensures acc.sufficient == |Filter(inventory, HasLevel(Sufficient))|
    ensures acc.critical + acc.low + acc.sufficient == |inventory|
  {
    acc := StatusCounts(0, 0, 0);
    var i := 0;
    while i < |inventory|
      invariant 0 <= i <= |inventory|
      invariant acc == StatusFold(inventory[..i])
    {
      var item := inventory[i];
      assert inventory[..i + 1][..i] == inventory[..i];
      if 2 * item.quantity <= item.threshold {
        acc := acc.(critical := acc.critical + 1);
      } else if item.quantity <= item.threshold {
        acc := acc.(low := acc.low + 1);
      } else {
        acc := acc.(sufficient := acc.sufficient + 1);
      }
      i := i + 1;
    }
    assert inventory[..i] == inventory;
    StatusFoldCounts(inventory);
  }

  /** The counters `stockStatus` reaches, item by item. */
  function StatusFold(items: seq<InventoryItem>): StatusCounts
    decreases |items|
  {
    if items == [] then StatusCounts(0, 0, 0)
    else
      var acc := StatusFold(items[..|items| - 1]);
      match Level(items[|items| - 1])
      case Critical => acc.(critical := acc.critical + 1)
      case Low => acc.(low := acc.low + 1)
      case Sufficient => acc.(sufficient := acc.sufficient + 1)
  }

  /** Each counter counts the items of its level, and together they count every item once. */
  lemma {:induction false} StatusFoldCounts(items: seq<InventoryItem>)
    ensures StatusFold(items).critical == |Filter(items, HasLevel(Critical))|
    ensures StatusFold(items).low == |Filter(items, HasLevel(Low))|
    ensures StatusFold(items).sufficient == |Filter(items, HasLevel(Sufficient))|
    ensures StatusFold(items).critical + StatusFold(items).low + StatusFold(items).sufficient == |items|
    decreases |items|
  {
    if items != [] {
      StatusFoldCounts(items[..|items| - 1]);
      LevelCountLast(items, Critical);
      LevelCountLast(items, Low);
      LevelCountLast(items, Sufficient);
    }
  }

  /** The last item adds one to the count of its own level and nothing to the others. */
  lemma LevelCountLast(items: seq<InventoryItem>, l: StockLevel)
    requires items != []
    ensures |Filter(items, HasLevel(l))|
         == |Filter(items[..|items| - 1], HasLevel(l))| + (if Level(items[|items| - 1]) == l then 1 else 0)
  {
    var init, last := items[..|items| - 1], items[|items| - 1];
    assert items == init + [last];
    FilterSnoc(init, last, HasLevel(l));
  }

  /**
   * With no negative threshold, the critical and low slices together count exactly the
   * items of the low-stock list.
   */
  lemma {:induction false} SlicesCountLowStockList(inventory: seq<InventoryItem>)
    requires forall x :: x in inventory ==> 0 <= x.threshold
    ensures |Filter(inventory, HasLevel(Critical))| + |Filter(inventory, HasLevel(Low))| == |Filter(inventory, IsLowStock)|
    decreases |inventory|
  {
    if inventory != [] {
      var init, x := inventory[..|inventory| - 1], inventory[|inventory| - 1];
      assert inventory == init + [x];
      SlicesCountLowStockList(init);
      FilterSnoc(init, x, HasLevel(Critical));
      FilterSnoc(init, x, HasLevel(Low));
      FilterSnoc(init, x, IsLowStock);
    }
  }

  datatype Colour = Red | Yellow

  /** One line of the low-stock list: the item (shown as name and quantity / threshold) and its colour. */
  datatype LowStockLine = LowStockLine(item: InventoryItem, colour: Colour)

  /** The low-stock list: the items at or below threshold in inventory order, red when critical. */
  function LowStockList(inventory: seq<InventoryItem>): (lines: seq<LowStockLine>)
    ensures |lines| == |Filter(inventory, IsLowStock)|
    ensures forall i :: 0 <= i < |lines| ==> lines[i].item == Filter(inventory, IsLowStock)[i]
  {
    var low := Filter(inventory, IsLowStock);
    seq(|low|, i requires 0 <= i < |low| => LowStockLine(low[i], if IsCritical(low[i]) then Red else Yellow))
  }

  /**
   * The list holds exactly the items at or below threshold, in inventory order, and a line
   * is red exactly when its item is critical; with no negative threshold every critical item
   * is on the list, in red.
   */
  lemma LowStockListCorrect(inventory: seq<InventoryItem>)
    ensures forall x :: ((exists i :: 0 <= i < |LowStockList(inventory)| && LowStockList(inventory)[i].item == x)
      <==> x in inventory && x.quantity <= x.threshold)
    ensures forall i :: 0 <= i < |LowStockList(inventory)| ==>
      (LowStockList(inventory)[i].colour == Red <==> 2 * LowStockList(inventory)[i].item.quantity <= LowStockList(inventory)[i].item.threshold)
    ensures IsSubsequence(Filter(inventory, IsLowStock), inventory)
    ensures (forall x :: x in inventory ==> 0 <= x.threshold) ==>
      forall x :: x in inventory && IsCritical(x) ==> LowStockLine(x, Red) in LowStockList(inventory)
  {
    var low := Filter(inventory, IsLowStock);
    var lines := LowStockList(inventory);
    FilterIsSubsequence(inventory, IsLowStock);
    forall x | x in low
      ensures exists i :: 0 <= i < |lines| && lines[i].item == x
    {
      var i :| 0 <= i < |low| && low[i] == x;
      assert lines[i].item == x;
    }
    forall x | x in inventory && IsCritical(x) && 0 <= x.threshold
      ensures LowStockLine(x, Red) in lines
    {
      assert x in low;
      var i :| 0 <= i < |low| && low[i] == x;
      assert lines[i] == LowStockLine(x, Red);
    }
  }

  /** The list carries each low item as many times as the inventory does, and no other item. */
  lemma LowStockListCounts(inventory: seq<InventoryItem>)
    ensures |LowStockList(inventory)| == |Filter(inventory, IsLowStock)|
    ensures forall x :: multiset(Filter(inventory, IsLowStock))[x] == if x.quantity <= x.threshold then multiset(inventory)[x] else 0
  {
    FilterCounts(inventory, IsLowStock);
  }

  // ---------------------------------------------------------------------------------------
  // Stock valuation report

  /** The total stock value is the value of each card's warehouse plus the value held elsewhere. */
  lemma TotalValueSplitsByWarehouse(inventory: seq<InventoryItem>, warehouses: seq<Warehouse>)
    requires UniqueKeys(warehouses, WarehouseKey)
    ensures SumBy(WarehouseValues(inventory, warehouses), IntValue)
      + SumBy(Filter(inventory, OutsideGroups(ItemWarehouse, WarehouseIds(warehouses))), LineValue) == TotalValue(inventory)
  {
    var ids := WarehouseIds(warehouses);
    WarehouseIdsDistinct(warehouses);
    GroupTotalsSum(ids, inventory, ItemWarehouse, LineValue);
    GroupSumPartition(ids, inventory, ItemWarehouse, LineValue);
  }

  /** One card per warehouse, in list order, with the value of the items stocked there. */
  function WarehouseValues(inventory: seq<InventoryItem>, warehouses: seq<Warehouse>): (values: seq<int>)
    ensures |values| == |warehouses|
    ensures forall i :: 0 <= i < |warehouses| ==> values[i] == TotalValue(Filter(inventory, InWarehouse(warehouses[i].id)))
  {
    GroupTotals(WarehouseIds(warehouses), inventory, ItemWarehouse, LineValue)
  }

  /** As written: each card filters on `item.warehouseId`. */
  function WarehouseValuesAsWritten(inventory: seq<InventoryItem>, warehouses: seq<Warehouse>): (values: seq<int>)
    ensures |values| == |warehouses|
  {
    seq(|warehouses|, i requires 0 <= i < |warehouses| =>
      TotalValue(Filter(inventory, CarriesWarehouseId(warehouses[i].id))))
  }

  /** Every card of the page as written shows 0, whatever the warehouses hold. */
  lemma WarehouseValuesAsWrittenAreZero(inventory: seq<InventoryItem>, warehouses: seq<Warehouse>)
    ensures forall i :: 0 <= i < |warehouses| ==> WarehouseValuesAsWritten(inventory, warehouses)[i] == 0
  {
    forall i | 0 <= i < |warehouses|
      ensures WarehouseValuesAsWritten(inventory, warehouses)[i] == 0
    {
      NoItemCarriesWarehouseId(inventory, warehouses[i].id);
    }
  }

  /** One warehouse holding 10 units at 5.99: the card shows 0 where 59.90 is held. */
  lemma WarehouseCardShowsZero()
    ensures var item := InventoryItem("a", "Hand Sanitizer", "Health", 10, 599, None, "w1", 20, "t0", "t0");
      var w := Warehouse("w1", "Main", "Dock 1", "t0");
      WarehouseValuesAsWritten([item], [w]) == [0] && WarehouseValues([item], [w]) == [5990]
  {
    var item := InventoryItem("a", "Hand Sanitizer", "Health", 10, 599, None, "w1", 20, "t0", "t0");
    var w := Warehouse("w1", "Main", "Dock 1", "t0");
    WarehouseValuesAsWrittenAreZero([item], [w]);
    assert ItemWarehouse(item) == "w1";
    assert InWarehouse("w1")(item);
    forall x | x in [item]
      ensures InWarehouse("w1")(x)
    {
      assert x == item;
    }
    FilterKeepsAll([item], InWarehouse("w1"));
    SumBySnoc([], item, LineValue);
    assert [] + [item] == [item];
  }
}
