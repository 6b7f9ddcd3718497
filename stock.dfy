/**
 * Facts about single items and item lists that several views share: the low-stock and
 * critical tests, quantity and value sums, and selecting the items of one warehouse.
 */
module Stock {
  import opened Options
  import opened Types
  import opened Sequences

  /** Low stock: the quantity is at or below the item's threshold. */
  predicate IsLowStock(item: InventoryItem) {
    item.quantity <= item.threshold
  }

  /**
   * Critical: `quantity <= threshold / 2`.  JavaScript divides exactly, so over integers
   * this is `2 * quantity <= threshold`.
   */
  predicate IsCritical(item: InventoryItem) {
    2 * item.quantity <= item.threshold
  }

  function Quantity(item: InventoryItem): int { item.quantity }

  /** `item.quantity * item.price`, in cents. */
  function LineValue(item: InventoryItem): int { item.quantity * item.price }

  function TotalQuantity(items: seq<InventoryItem>): int { SumBy(items, Quantity) }

  function TotalValue(items: seq<InventoryItem>): int { SumBy(items, LineValue) }

  function ItemWarehouse(item: InventoryItem): string { item.warehouse_id }
  function ItemCategory(item: InventoryItem): string { item.category }

  /** `item => key(item) === k`: the items of one group. */
  function InGroup(key: InventoryItem -> string, k: string): InventoryItem -> bool {
    (item: InventoryItem) => key(item) == k
  }

  /** The items in none of the groups `ks`. */
  function OutsideGroups(key: InventoryItem -> string, ks: seq<string>): InventoryItem -> bool {
    (item: InventoryItem) => key(item) !in ks
  }

  /** `item => item.warehouse_id === wid`. */
  function InWarehouse(wid: string): InventoryItem -> bool {
    InGroup(ItemWarehouse, wid)
  }

  /**
   * What JavaScript reads for `item.warehouseId`.  Rows carry `warehouse_id` and no
   * `warehouseId` property, so the read is always `undefined`.
   */
  function WarehouseIdProperty(item: InventoryItem): Option<string> {
    None
  }

  /** `item => item.warehouseId === wid`, as two views write it. */
  function CarriesWarehouseId(wid: string): InventoryItem -> bool {
    (item: InventoryItem) => WarehouseIdProperty(item) == Some(wid)
  }

  /** Filtering rows on `warehouseId` selects nothing, whatever the warehouse. */
  lemma NoItemCarriesWarehouseId(items: seq<InventoryItem>, wid: string)
    ensures Filter(items, CarriesWarehouseId(wid)) == []
  {
    FilterNone(items, CarriesWarehouseId(wid));
  }

  /** The ids of a list of warehouses, in order. */
  function WarehouseIds(ws: seq<Warehouse>): (ids: seq<string>)
    ensures |ids| == |ws| && forall i :: 0 <= i < |ws| ==> ids[i] == ws[i].id
  {
    seq(|ws|, i requires 0 <= i < |ws| => ws[i].id)
  }

  /** Warehouses with distinct ids have a list of ids without repeats. */
  lemma WarehouseIdsDistinct(ws: seq<Warehouse>)
    requires UniqueKeys(ws, WarehouseKey)
    ensures Distinct(WarehouseIds(ws))
  {
    var ids := WarehouseIds(ws);
    forall i, j | 0 <= i < |ids| && 0 <= j < |ids| && i != j
      ensures ids[i] != ids[j]
    {
      assert WarehouseKey(ws[i]) != WarehouseKey(ws[j]);
    }
  }

  /** The sum, over the groups `ks`, of `f` summed over each group's items. */
  function GroupSum(ks: seq<string>, items: seq<InventoryItem>, key: InventoryItem -> string, f: InventoryItem -> int): int
    decreases |ks|
  {
    if ks == [] then 0
    else GroupSum(ks[..|ks| - 1], items, key, f) + SumBy(Filter(items, InGroup(key, ks[|ks| - 1])), f)
  }

  lemma SumByFilterSnoc(items: seq<InventoryItem>, x: InventoryItem, p: InventoryItem -> bool, f: InventoryItem -> int)
    ensures SumBy(Filter(items + [x], p), f) == SumBy(Filter(items, p), f) + (if p(x) then f(x) else 0)
  {
    FilterSnoc(items, x, p);
    if p(x) {
      var r := Filter(items, p) + [x];
      assert r[..|r| - 1] == Filter(items, p);
    } else {
      assert Filter(items + [x], p) == Filter(items, p);
    }
  }

  lemma {:induction false} GroupSumSnoc(ks: seq<string>, items: seq<InventoryItem>, x: InventoryItem,
                                        key: InventoryItem -> string, f: InventoryItem -> int)
    requires Distinct(ks)
    ensures GroupSum(ks, items + [x], key, f) == GroupSum(ks, items, key, f) + (if key(x) in ks then f(x) else 0)
    decreases |ks|
  {
    if ks != [] {
      var init, k := ks[..|ks| - 1], ks[|ks| - 1];
      assert ks == init + [k];
      assert Distinct(init);
      assert k !in init;
      GroupSumSnoc(init, items, x, key, f);
      SumByFilterSnoc(items, x, InGroup(key, k), f);
    }
  }

  /**
   * Splitting a sum by group loses and double-counts nothing: the sums over distinct groups,
   * plus the items in none of them, make up the total.
   */
  lemma {:induction false} GroupSumPartition(ks: seq<string>, items: seq<InventoryItem>,
                                             key: InventoryItem -> string, f: InventoryItem -> int)
    requires Distinct(ks)
    ensures GroupSum(ks, items, key, f) + SumBy(Filter(items, OutsideGroups(key, ks)), f) == SumBy(items, f)
    decreases |items|
  {
    if items == [] {
      GroupSumEmpty(ks, key, f);
    } else {
      var init, x := items[..|items| - 1], items[|items| - 1];
      assert items == init + [x];
      GroupSumPartition(ks, init, key, f);
      GroupSumSnoc(ks, init, x, key, f);
      SumByFilterSnoc(init, x, OutsideGroups(key, ks), f);
    }
  }

  lemma {:induction false} GroupSumEmpty(ks: seq<string>, key: InventoryItem -> string, f: InventoryItem -> int)
    ensures GroupSum(ks, [], key, f) == 0
    decreases |ks|
  {
    if ks != [] {
      GroupSumEmpty(ks[..|ks| - 1], key, f);
    }
  }

  /** Each group's sum, one per group in the order of `ks`: what a view shows per warehouse or category. */
  function GroupTotals(ks: seq<string>, items: seq<InventoryItem>, key: InventoryItem -> string, f: InventoryItem -> int): (r: seq<int>)
    ensures |r| == |ks|
    ensures forall j :: 0 <= j < |ks| ==> r[j] == SumBy(Filter(items, InGroup(key, ks[j])), f)
  {
    seq(|ks|, j requires 0 <= j < |ks| => SumBy(Filter(items, InGroup(key, ks[j])), f))
  }

  function IntValue(v: int): int { v }

  lemma {:induction false} GroupTotalsSum(ks: seq<string>, items: seq<InventoryItem>, key: InventoryItem -> string, f: InventoryItem -> int)
    ensures SumBy(GroupTotals(ks, items, key, f), IntValue) == GroupSum(ks, items, key, f)
    decreases |ks|
  {
    if ks != [] {
      var r := GroupTotals(ks, items, key, f);
      assert r[..|r| - 1] == GroupTotals(ks[..|ks| - 1], items, key, f);
      GroupTotalsSum(ks[..|ks| - 1], items, key, f);
    }
  }

  function One(item: InventoryItem): int { 1 }

  /** Counting the items is summing 1 per item. */
  lemma {:induction false} SumByOne(s: seq<InventoryItem>)
    ensures SumBy(s, One) == |s|
    decreases |s|
  {
    if s != [] {
      SumByOne(s[..|s| - 1]);
    }
  }
}
