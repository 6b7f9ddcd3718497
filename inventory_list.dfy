/**
 * The inventory screen (src/components/inventory/InventoryList.tsx): the search filter over
 * item names and categories, the grouping of the filtered items under the warehouse list,
 * the red highlight of low quantities, and which of spinner, error banner or tables the
 * screen shows for a given state of the provider.
 */
module InventoryList {
  import opened Options
  import opened Types
  import opened Sequences
  import opened Stock
  import opened InventoryService
  import opened InventoryContext

  // ---------------------------------------------------------------------------------------
  // Case folding and substring search

  /** Lower case for the ASCII letters; every other character is left alone. */
  function LowerChar(c: char): char {
    if 'A' <= c <= 'Z' then (c as int + 32) as char else c
  }

  /** `s.toLowerCase()`, restricted to ASCII letters. */
  function ToLower(s: string): (r: string)
    ensures |r| == |s|
    ensures forall i :: 0 <= i < |s| ==> r[i] == LowerChar(s[i])
  {
    seq(|s|, i requires 0 <= i < |s| => LowerChar(s[i]))
  }

  /** Lower-casing twice is lower-casing once. */
  lemma ToLowerIdempotent(s: string)
    ensures ToLower(ToLower(s)) == ToLower(s)
  {
    var once := ToLower(s);
    forall i | 0 <= i < |s|
      ensures ToLower(once)[i] == once[i]
    {
      assert 'A' <= once[i] <= 'Z' ==> false;
    }
  }

  predicate StartsWith(s: string, prefix: string) {
    |prefix| <= |s| && s[..|prefix|] == prefix
  }

  /** `hay.includes(needle)`: the needle is a prefix of some suffix of the haystack. */
  predicate Includes(hay: string, needle: string)
    decreases |hay|
  {
    StartsWith(hay, needle) || (hay != [] && Includes(hay[1..], needle))
  }

  /** `needle` occupies the positions `i .. i + |needle|` of `hay`. */
  ghost predicate OccursAt(hay: string, needle: string, i: int) {
    0 <= i && i + |needle| <= |hay| && hay[i..i + |needle|] == needle
  }

  /** The independent definition of a substring: an occurrence at some position. */
  ghost predicate Contains(hay: string, needle: string) {
    exists i :: OccursAt(hay, needle, i)
  }

  lemma {:induction false} IncludesMeansContains(hay: string, needle: string)
    ensures Includes(hay, needle) <==> Contains(hay, needle)
    decreases |hay|
  {
    if StartsWith(hay, needle) {
      assert OccursAt(hay, needle, 0);
    } else if hay == [] {
      assert |needle| > 0;
    } else {
      var tail := hay[1..];
      IncludesMeansContains(tail, needle);
      forall i | OccursAt(tail, needle, i)
        ensures OccursAt(hay, needle, i + 1)
      {
        assert tail[i..i + |needle|] == hay[i + 1..i + 1 + |needle|];
      }
      assert !OccursAt(hay, needle, 0);
      forall i | OccursAt(hay, needle, i) && 0 < i
        ensures OccursAt(tail, needle, i - 1)
      {
        assert tail[i - 1..i - 1 + |needle|] == hay[i..i + |needle|];
      }
    }
  }

  /** Every string includes the empty string. */
  lemma IncludesEmpty(hay: string)
    ensures Includes(hay, "")
  {
    assert StartsWith(hay, "");
  }

  // ---------------------------------------------------------------------------------------
  // Search filter

  /** The test of `filteredInventory`: the term, lower-cased, occurs in the lower-cased name or category. */
  function MatchesSearch(term: string): InventoryItem -> bool {
    (item: InventoryItem) =>
      Includes(ToLower(item.name), ToLower(term)) || Includes(ToLower(item.category), ToLower(term))
  }

  function FilteredInventory(inventory: seq<InventoryItem>, term: string): seq<InventoryItem> {
    Filter(inventory, MatchesSearch(term))
  }

  /**
   * An item is listed exactly when the lower-cased term is a substring of its lower-cased
   * name or category; the list keeps the inventory's order; an empty term lists everything.
   */
  lemma FilteredInventoryCorrect(inventory: seq<InventoryItem>, term: string)
    ensures forall x :: x in FilteredInventory(inventory, term) <==>
      x in inventory && (Contains(ToLower(x.name), ToLower(term)) || Contains(ToLower(x.category), ToLower(term)))
    ensures IsSubsequence(FilteredInventory(inventory, term), inventory)
    ensures term == "" ==> FilteredInventory(inventory, term) == inventory
  {
    forall x | x in inventory
      ensures MatchesSearch(term)(x) <==> Contains(ToLower(x.name), ToLower(term)) || Contains(ToLower(x.category), ToLower(term))
    {
      IncludesMeansContains(ToLower(x.name), ToLower(term));
      IncludesMeansContains(ToLower(x.category), ToLower(term));
    }
    FilterIsSubsequence(inventory, MatchesSearch(term));
    if term == "" {
      assert ToLower(term) == "";
      forall x | x in inventory
        ensures MatchesSearch(term)(x)
      {
        IncludesEmpty(ToLower(x.name));
      }
      FilterKeepsAll(inventory, MatchesSearch(term));
    }
  }

  /** The search ignores the case of the term: typing it in capitals lists the same items. */
  lemma SearchIgnoresCase(inventory: seq<InventoryItem>, term: string)
    ensures FilteredInventory(inventory, ToLower(term)) == FilteredInventory(inventory, term)
  {
    ToLowerIdempotent(term);
    FilterCongruent(inventory, MatchesSearch(ToLower(term)), MatchesSearch(term));
  }

  // ---------------------------------------------------------------------------------------
  // Grouping by warehouse

  /** `{ ...warehouse, items }`: a warehouse with the filtered items stocked there. */
  datatype WarehouseGroup = WarehouseGroup(warehouse: Warehouse, items: seq<InventoryItem>)

  function GroupSize(g: WarehouseGroup): int { |g.items| }

  /** `inventoryByWarehouse`: one group per warehouse, in list order. */
  function InventoryByWarehouse(filtered: seq<InventoryItem>, warehouses: seq<Warehouse>): (groups: seq<WarehouseGroup>)
    ensures |groups| == |warehouses|
    ensures forall i :: 0 <= i < |groups| ==>
      groups[i].warehouse == warehouses[i] && groups[i].items == Filter(filtered, InWarehouse(warehouses[i].id))
  {
    seq(|warehouses|, i requires 0 <= i < |warehouses| =>
      WarehouseGroup(warehouses[i], Filter(filtered, InWarehouse(warehouses[i].id))))
  }

  /**
   * A group holds exactly the filtered items whose `warehouse_id` is its warehouse's id, in
   * list order; an item whose warehouse is not listed is in no group; with distinct
   * warehouse ids no item is in two groups.
   */
  lemma GroupingCorrect(filtered: seq<InventoryItem>, warehouses: seq<Warehouse>)
    ensures forall i, x :: 0 <= i < |warehouses| ==>
      (x in InventoryByWarehouse(filtered, warehouses)[i].items <==> x in filtered && x.warehouse_id == warehouses[i].id)
    ensures forall i :: 0 <= i < |warehouses| ==> IsSubsequence(InventoryByWarehouse(filtered, warehouses)[i].items, filtered)
    ensures forall x :: x in filtered && x.warehouse_id !in WarehouseIds(warehouses) ==>
      forall i :: 0 <= i < |warehouses| ==> x !in InventoryByWarehouse(filtered, warehouses)[i].items
    ensures UniqueKeys(warehouses, WarehouseKey) ==>
      forall i, j, x ::
        (0 <= i < |warehouses| && 0 <= j < |warehouses| &&
         x in InventoryByWarehouse(filtered, warehouses)[i].items && x in InventoryByWarehouse(filtered, warehouses)[j].items) ==> i == j
  {
    var groups := InventoryByWarehouse(filtered, warehouses);
    forall i, x | 0 <= i < |warehouses|
      ensures x in groups[i].items <==> x in filtered && x.warehouse_id == warehouses[i].id
    {
      assert InWarehouse(warehouses[i].id)(x) <==> ItemWarehouse(x) == warehouses[i].id;
    }
    forall i | 0 <= i < |warehouses|
      ensures IsSubsequence(groups[i].items, filtered)
    {
      FilterIsSubsequence(filtered, InWarehouse(warehouses[i].id));
    }
    forall x, i | x in filtered && x.warehouse_id !in WarehouseIds(warehouses) && 0 <= i < |warehouses|
      ensures x !in groups[i].items
    {
      assert WarehouseIds(warehouses)[i] in WarehouseIds(warehouses);
      assert x.warehouse_id != warehouses[i].id;
    }
    if UniqueKeys(warehouses, WarehouseKey) {
      forall i, j, x | 0 <= i < |warehouses| && 0 <= j < |warehouses| && x in groups[i].items && x in groups[j].items
        ensures i == j
      {
        assert WarehouseKey(warehouses[i]) == WarehouseKey(warehouses[j]);
      }
    }
  }

  /**
   * With distinct warehouse ids, the groups together hold every filtered item once, except
   * the ones whose warehouse is not listed.
   */
  lemma GroupsCoverFiltered(filtered: seq<InventoryItem>, warehouses: seq<Warehouse>)
    requires UniqueKeys(warehouses, WarehouseKey)
    ensures SumBy(InventoryByWarehouse(filtered, warehouses), GroupSize)
      + |Filter(filtered, OutsideGroups(ItemWarehouse, WarehouseIds(warehouses)))| == |filtered|
  {
    var ids := WarehouseIds(warehouses);
    var groups := InventoryByWarehouse(filtered, warehouses);
    var sizes := GroupTotals(ids, filtered, ItemWarehouse, One);
    forall i | 0 <= i < |groups|
      ensures GroupSize(groups[i]) == IntValue(sizes[i])
    {
      SumByOne(groups[i].items);
    }
    SumByPointwise(groups, GroupSize, sizes, IntValue);
    WarehouseIdsDistinct(warehouses);
    GroupTotalsSum(ids, filtered, ItemWarehouse, One);
    GroupSumPartition(ids, filtered, ItemWarehouse, One);
    SumByOne(Filter(filtered, OutsideGroups(ItemWarehouse, ids)));
    SumByOne(filtered);
  }

  // ---------------------------------------------------------------------------------------
  // Quantity highlight and the screen

  /** The quantity cell is red at or below the threshold. */
  predicate QuantityIsRed(item: InventoryItem) {
    item.quantity <= item.threshold
  }

  /** A row's quantity is red exactly when its item is among the provider's low-stock items. */
  lemma HighlightMatchesLowStock(inventory: seq<InventoryItem>, warehouses: seq<Warehouse>, term: string)
    ensures forall i, x :: 0 <= i < |warehouses| && x in InventoryByWarehouse(FilteredInventory(inventory, term), warehouses)[i].items ==>
      (QuantityIsRed(x) <==> x in Filter(inventory, IsLowStock))
  {
    var filtered := FilteredInventory(inventory, term);
    GroupingCorrect(filtered, warehouses);
  }

  /** What the screen shows. */
  datatype Screen = Spinner | ErrorBanner(message: string) | Listing(groups: seq<WarehouseGroup>)

  /**
   * `if (loading) ...; if (error) ...;` then the tables.  The test on `error` is JavaScript
   * truthiness: an empty message shows the tables.
   */
  function Render(v: View, term: string): (s: Screen)
    ensures v.loading <==> s == Spinner
    ensures s.ErrorBanner? <==> !v.loading && v.error.Some? && v.error.value != ""
    ensures s.ErrorBanner? ==> s.message == v.error.value
    ensures s.Listing? ==> s.groups == InventoryByWarehouse(FilteredInventory(v.inventory, term), v.warehouses)
  {
    if v.loading then Spinner
    else if v.error.Some? && v.error.value != "" then ErrorBanner(v.error.value)
    else Listing(InventoryByWarehouse(FilteredInventory(v.inventory, term), v.warehouses))
  }

  /**
   * After a refresh the spinner is gone; when both reads succeed the screen lists the
   * freshly read tables, and a refused read that is not an `Error` shows the fallback text.
   */
  lemma RefreshedScreen(v: View, t: Tables, rf: RefreshFaults, term: string)
    ensures Render(Refreshed(v, t, rf), term) != Spinner
    ensures rf.inventory.None? && rf.warehouses.None? ==>
      Render(Refreshed(v, t, rf), term).Listing? &&
      multiset(Refreshed(v, t, rf).inventory) == multiset(t.items)
    ensures rf.inventory.Some? && rf.inventory.value.PlainObject? ==> Render(Refreshed(v, t, rf), term) == ErrorBanner(FetchFailed)
  {
  }
}
