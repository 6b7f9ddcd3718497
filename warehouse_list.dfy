/**
 * The warehouse cards (src/components/warehouse/WarehouseList.tsx): for each warehouse the
 * units stocked there, their value in cents and the number of distinct rows.
 *
 * `getWarehouseStats` as written selects the items by `item.warehouseId`, a property the
 * rows do not have, so every card shows zeros; `GetWarehouseStatsAsWritten` models that and
 * `GetWarehouseStats` the selection by `warehouse_id` the card evidently means.
 */
module WarehouseList {
  import opened Options
  import opened Types
  import opened Sequences
  import opened Stock
  import opened InventoryList

  /** `{ totalItems, totalValue, uniqueItems }` */
  datatype WarehouseStats = WarehouseStats(totalItems: int, totalValue: int, uniqueItems: nat)

  function StatsOf(items: seq<InventoryItem>): WarehouseStats {
    WarehouseStats(TotalQuantity(items), TotalValue(items), |items|)
  }

  /** As written: the items are selected by `item.warehouseId`, which every row lacks. */
  function GetWarehouseStatsAsWritten(inventory: seq<InventoryItem>, warehouseId: string): (s: WarehouseStats)
    ensures s == WarehouseStats(0, 0, 0)
  {
    NoItemCarriesWarehouseId(inventory, warehouseId);
    StatsOf(Filter(inventory, CarriesWarehouseId(warehouseId)))
  }

  /** The card of `warehouseId`, selecting the items by `warehouse_id`. */
  function GetWarehouseStats(inventory: seq<InventoryItem>, warehouseId: string): WarehouseStats {
    StatsOf(Filter(inventory, InWarehouse(warehouseId)))
  }

  /**
   * A warehouse without items shows zeros, and the distinct-row count is zero exactly then;
   * with no negative quantity or price the unit and value totals are not negative.
   */
  lemma WarehouseStatsFacts(inventory: seq<InventoryItem>, warehouseId: string)
    ensures GetWarehouseStats(inventory, warehouseId).uniqueItems <= |inventory|
    ensures GetWarehouseStats(inventory, warehouseId).uniqueItems == 0 <==>
      forall x :: x in inventory ==> x.warehouse_id != warehouseId
    ensures (forall x :: x in inventory ==> x.warehouse_id != warehouseId) ==>
      GetWarehouseStats(inventory, warehouseId) == WarehouseStats(0, 0, 0)
    ensures (forall x :: x in inventory ==> 0 <= x.quantity && 0 <= x.price) ==>
      0 <= GetWarehouseStats(inventory, warehouseId).totalItems && 0 <= GetWarehouseStats(inventory, warehouseId).totalValue
  {
    var here := Filter(inventory, InWarehouse(warehouseId));
    forall x | x in inventory
      ensures InWarehouse(warehouseId)(x) <==> x.warehouse_id == warehouseId
    {
      assert ItemWarehouse(x) == x.warehouse_id;
    }
    if here != [] {
      assert here[0] in here;
    }
    if forall x :: x in inventory ==> 0 <= x.quantity && 0 <= x.price {
      forall i | 0 <= i < |here|
        ensures 0 <= Quantity(here[i]) && 0 <= LineValue(here[i])
      {
        assert here[i] in here;
      }
      SumByNonNegative(here, Quantity);
      SumByNonNegative(here, LineValue);
    }
  }

  /** `warehouses.map(w => getWarehouseStats(w.id))`: the cards, in list order. */
  function WarehouseCards(inventory: seq<InventoryItem>, warehouses: seq<Warehouse>): (cards: seq<WarehouseStats>)
    ensures |cards| == |warehouses|
    ensures forall i :: 0 <= i < |warehouses| ==> cards[i] == GetWarehouseStats(inventory, warehouses[i].id)
  {
    seq(|warehouses|, i requires 0 <= i < |warehouses| => GetWarehouseStats(inventory, warehouses[i].id))
  }

  function CardItems(s: WarehouseStats): int { s.totalItems }
  function CardValue(s: WarehouseStats): int { s.totalValue }
  function CardRows(s: WarehouseStats): int { s.uniqueItems }

  /**
   * With distinct warehouse ids, the cards split the inventory: units, value and rows of the
   * cards, plus those of the items whose warehouse is not listed, are the inventory's.
   */
  lemma WarehouseCardsPartition(inventory: seq<InventoryItem>, warehouses: seq<Warehouse>)
    requires UniqueKeys(warehouses, WarehouseKey)
    ensures SumBy(WarehouseCards(inventory, warehouses), CardItems)
      + TotalQuantity(Filter(inventory, OutsideGroups(ItemWarehouse, WarehouseIds(warehouses)))) == TotalQuantity(inventory)
    ensures SumBy(WarehouseCards(inventory, warehouses), CardValue)
      + TotalValue(Filter(inventory, OutsideGroups(ItemWarehouse, WarehouseIds(warehouses)))) == TotalValue(inventory)
    ensures SumBy(WarehouseCards(inventory, warehouses), CardRows)
      + |Filter(inventory, OutsideGroups(ItemWarehouse, WarehouseIds(warehouses)))| == |inventory|
  {
    var ids := WarehouseIds(warehouses);
    var cards := WarehouseCards(inventory, warehouses);
    WarehouseIdsDistinct(warehouses);
    CardsSumTo(inventory, warehouses, CardItems, Quantity);
    CardsSumTo(inventory, warehouses, CardValue, LineValue);
    forall i | 0 <= i < |cards|
      ensures CardRows(cards[i]) == IntValue(GroupTotals(ids, inventory, ItemWarehouse, One)[i])
    {
      SumByOne(Filter(inventory, InGroup(ItemWarehouse, ids[i])));
    }
    SumByPointwise(cards, CardRows, GroupTotals(ids, inventory, ItemWarehouse, One), IntValue);
    GroupTotalsSum(ids, inventory, ItemWarehouse, One);
    GroupSumPartition(ids, inventory, ItemWarehouse, One);
    SumByOne(Filter(inventory, OutsideGroups(ItemWarehouse, ids)));
    SumByOne(inventory);
  }

  /** A card field that is the group sum of `f` adds up, over the cards, to the group sum over the ids. */
  lemma CardsSumTo(inventory: seq<InventoryItem>, warehouses: seq<Warehouse>, field: WarehouseStats -> int, f: InventoryItem -> int)
    requires Distinct(WarehouseIds(warehouses))
    requires forall i :: 0 <= i < |warehouses| ==>
      field(GetWarehouseStats(inventory, warehouses[i].id)) == SumBy(Filter(inventory, InWarehouse(warehouses[i].id)), f)
    ensures SumBy(WarehouseCards(inventory, warehouses), field)
      + SumBy(Filter(inventory, OutsideGroups(ItemWarehouse, WarehouseIds(warehouses))), f) == SumBy(inventory, f)
  {
    var ids := WarehouseIds(warehouses);
    var cards := WarehouseCards(inventory, warehouses);
    var totals := GroupTotals(ids, inventory, ItemWarehouse, f);
    forall i | 0 <= i < |cards|
      ensures field(cards[i]) == IntValue(totals[i])
    {
    }
    SumByPointwise(cards, field, totals, IntValue);
    GroupTotalsSum(ids, inventory, ItemWarehouse, f);
    GroupSumPartition(ids, inventory, ItemWarehouse, f);
  }

  /**
   * With an empty search term, a card's distinct-row count is the number of rows in that
   * warehouse's table on the inventory screen.
   */
  lemma CardRowsMatchInventoryScreen(inventory: seq<InventoryItem>, warehouses: seq<Warehouse>)
    ensures forall i :: 0 <= i < |warehouses| ==>
      WarehouseCards(inventory, warehouses)[i].uniqueItems == |InventoryByWarehouse(FilteredInventory(inventory, ""), warehouses)[i].items|
  {
    FilteredInventoryCorrect(inventory, "");
  }

  /** One warehouse holding 10 units at 5.99: the card as written shows zeros where 10 units worth 59.90 are held. */
  lemma WarehouseCardCountsNothing()
    ensures var item := InventoryItem("a", "Hand Sanitizer", "Health", 10, 599, None, "w1", 20, "t0", "t0");
      GetWarehouseStatsAsWritten([item], "w1") == WarehouseStats(0, 0, 0) &&
      GetWarehouseStats([item], "w1") == WarehouseStats(10, 5990, 1)
  {
    var item := InventoryItem("a", "Hand Sanitizer", "Health", 10, 599, None, "w1", 20, "t0", "t0");
    assert ItemWarehouse(item) == "w1";
    forall x | x in [item]
      ensures InWarehouse("w1")(x)
    {
      assert x == item;
    }
    FilterKeepsAll([item], InWarehouse("w1"));
    SumBySnoc([], item, Quantity);
    SumBySnoc([], item, LineValue);
    assert [] + [item] == [item];
  }
}
