/**
 * The shared state of the application (src/context/InventoryContext.tsx): the provider
 * holds the lists the components render, a loading flag and an error message, and wraps
 * each operation of the stock-mutation layer so that a success reloads the lists and a
 * failure records a message and is passed on to the caller.
 *
 * The provider is a class whose fields are its React state; only the state after an
 * operation has settled is modelled.  Mounting the provider is its constructor followed by
 * one `RefreshData` call (the effect that runs once).
 */
module InventoryContext {
  import opened Options
  import opened Types
  import opened Sequences
  import opened Stock
  import opened InventoryService

  /** What the provider exposes to the components. */
  datatype View = View(inventory: seq<InventoryItem>, warehouses: seq<Warehouse>, loading: bool, error: Option<string>)

  /** Whether each of the two reads of a refresh is refused by the store, and with what. */
  datatype RefreshFaults = RefreshFaults(inventory: Option<Thrown>, warehouses: Option<Thrown>)

  const FetchFailed := "Failed to fetch data"

  /** `err instanceof Error ? err.message : fallback` */
  function Message(e: Thrown, fallback: string): string {
    match e
    case ErrorInstance(m) => m
    case PlainObject(_) => fallback
  }

  /**
   * The view after `refreshData` against the tables `t`: both lists replaced when both reads
   * succeed, otherwise the lists kept and the first failure's message shown; never loading.
   * When both reads fail, the inventory read's failure is the one reported.
   */
  function Refreshed(v: View, t: Tables, rf: RefreshFaults): (w: View)
    ensures !w.loading
    ensures w.error.None? <==> rf.inventory.None? && rf.warehouses.None?
    ensures w.error.None? ==>
      && SortedBy(w.inventory, ItemName) && multiset(w.inventory) == multiset(t.items)
      && SortedBy(w.warehouses, WarehouseName) && multiset(w.warehouses) == multiset(t.warehouses)
    ensures rf.inventory.Some? ==> w == v.(loading := false, error := Some(Message(rf.inventory.value, FetchFailed)))
    ensures rf.inventory.None? && rf.warehouses.Some? ==>
      w == v.(loading := false, error := Some(Message(rf.warehouses.value, FetchFailed)))
  {
    SortByCorrect(t.items, ItemName);
    SortByCorrect(t.warehouses, WarehouseName);
    match InventoryResult(t, rf.inventory)
    case Err(e) => v.(loading := false, error := Some(Message(e, FetchFailed)))
    case Ok(inventory) =>
      match WarehousesResult(t, rf.warehouses)
      case Err(e) => v.(loading := false, error := Some(Message(e, FetchFailed)))
      case Ok(warehouses) => View(inventory, warehouses, false, None)
  }

  /**
   * The view after a wrapped operation whose service call returned `r` and left the tables
   * `t`.  A rejected call shows a message (the thrown error's own message, or the
   * operation's fallback when the store rejected it) and keeps the old lists and loading
   * flag.  A call that succeeded, followed by a refresh the store answered, shows exactly the
   * store's rows ordered by name, and no error.
   */
  function AfterOperation<T>(v: View, r: Result<T>, t: Tables, fallback: string, rf: RefreshFaults): (w: View)
    ensures r.Err? ==>
      && w.inventory == v.inventory && w.warehouses == v.warehouses && w.loading == v.loading
      && w.error == Some(if r.error.ErrorInstance? then r.error.message else fallback)
    ensures r.Ok? && rf == RefreshFaults(None, None) ==>
      && w.error.None? && !w.loading
      && multiset(w.inventory) == multiset(t.items) && SortedBy(w.inventory, ItemName)
      && multiset(w.warehouses) == multiset(t.warehouses) && SortedBy(w.warehouses, WarehouseName)
  {
    if r.Err? then v.(error := Some(Message(r.error, fallback))) else Refreshed(v, t, rf)
  }

  /** The wrapped operation resolves with nothing, or rejects with what the service threw. */
  function Rethrown<T>(r: Result<T>): Result<()> {
    if r.Err? then Err(r.error) else Ok(())
  }

  class InventoryProvider {
    const db: Database
    var inventory: seq<InventoryItem>
    var warehouses: seq<Warehouse>
    var loading: bool
    var error: Option<string>

    function Snapshot(): View
      reads this
    {
      View(inventory, warehouses, loading, error)
    }

    /** The initial state: empty lists, loading, no error. */
    constructor (db: Database)
      ensures this.db == db
      ensures Snapshot() == View([], [], true, None)
    {
      this.db := db;
      inventory, warehouses, loading, error := [], [], true, None;
    }

    /** `getLowStockItems`: the items at or below their threshold, in list order. */
    function GetLowStockItems(): (low: seq<InventoryItem>)
      reads this
      ensures forall x :: x in low <==> x in inventory && x.quantity <= x.threshold
      ensures IsSubsequence(low, inventory)
      ensures forall x :: multiset(low)[x] == if x.quantity <= x.threshold then multiset(inventory)[x] else 0
    {
      FilterIsSubsequence(inventory, IsLowStock);
      FilterCounts(inventory, IsLowStock);
      Filter(inventory, IsLowStock)
    }

    /** `refreshData`: reload both lists; it never rejects. */
    method RefreshData(rf: RefreshFaults)
      modifies this
      ensures Snapshot() == Refreshed(old(Snapshot()), db.State(), rf)
    {
      loading := true;
      error := None;
      var inventoryData := GetInventory(db, rf.inventory);
      if inventoryData.Err? {
        error := Some(Message(inventoryData.error, FetchFailed));
        loading := false;
        return;
      }
      var warehousesData := GetWarehouses(db, rf.warehouses);
      if warehousesData.Err? {
        error := Some(Message(warehousesData.error, FetchFailed));
        loading := false;
        return;
      }
      inventory := inventoryData.value;
      warehouses := warehousesData.value;
      loading := false;
    }

    method AddItem(item: NewItem, newId: string, now: Timestamp, fault: Option<Thrown>, rf: RefreshFaults)
      returns (r: Result<()>)
      requires db.Valid()
      modifies this, db
      ensures db.Valid()
      ensures var st := InsertItemStep(old(db.State()), ItemRow(item, newId, now), fault);
        && db.State() == st.tables && r == Rethrown(st.result)
        && Snapshot() == AfterOperation(old(Snapshot()), st.result, st.tables, "Failed to add item", rf)
    {
      error := None;
      var added := InventoryService.AddItem(db, item, newId, now, fault);
      if added.Err? {
        error := Some(Message(added.error, "Failed to add item"));
        return Err(added.error);
      }
      RefreshData(rf);
      r := Ok(());
    }

    method UpdateItem(id: string, updates: ItemPatch, now: Timestamp, fault: Option<Thrown>, rf: RefreshFaults)
      returns (r: Result<()>)
      requires db.Valid()
      modifies this, db
      ensures db.Valid()
      ensures var st := UpdateItemStep(old(db.State()), id, updates, now, fault);
        && db.State() == st.tables && r == Rethrown(st.result)
        && Snapshot() == AfterOperation(old(Snapshot()), st.result, st.tables, "Failed to update item", rf)
    {
      var updated := InventoryService.UpdateItem(db, id, updates, now, fault);
      if updated.Err? {
        error := Some(Message(updated.error, "Failed to update item"));
        return Err(updated.error);
      }
      RefreshData(rf);
      r := Ok(());
    }

    method DeleteItem(id: string, fault: Option<Thrown>, rf: RefreshFaults) returns (r: Result<()>)
      requires db.Valid()
      modifies this, db
      ensures db.Valid()
      ensures var st := DeleteItemsStep(old(db.State()), id, fault);
        && db.State() == st.tables && r == Rethrown(st.result)
        && Snapshot() == AfterOperation(old(Snapshot()), st.result, st.tables, "Failed to delete item", rf)
    {
      var deleted := InventoryService.DeleteItem(db, id, fault);
      if deleted.Err? {
        error := Some(Message(deleted.error, "Failed to delete item"));
        return Err(deleted.error);
      }
      RefreshData(rf);
      r := Ok(());
    }

    method AddWarehouse(w: NewWarehouse, newId: string, now: Timestamp, fault: Option<Thrown>, rf: RefreshFaults)
      returns (r: Result<()>)
      requires db.Valid()
      modifies this, db
      ensures db.Valid()
      ensures var st := InsertWarehouseStep(old(db.State()), WarehouseRow(w, newId, now), fault);
        && db.State() == st.tables && r == Rethrown(st.result)
        && Snapshot() == AfterOperation(old(Snapshot()), st.result, st.tables, "Failed to add warehouse", rf)
    {
      var added := InventoryService.AddWarehouse(db, w, newId, now, fault);
      if added.Err? {
        error := Some(Message(added.error, "Failed to add warehouse"));
        return Err(added.error);
      }
      RefreshData(rf);
      r := Ok(());
    }

    method UpdateWarehouse(id: string, updates: WarehousePatch, fault: Option<Thrown>, rf: RefreshFaults)
      returns (r: Result<()>)
      requires db.Valid()
      modifies this, db
      ensures db.Valid()
      ensures var st := UpdateWarehouseStep(old(db.State()), id, updates, fault);
        && db.State() == st.tables && r == Rethrown(st.result)
        && Snapshot() == AfterOperation(old(Snapshot()), st.result, st.tables, "Failed to update warehouse", rf)
    {
      var updated := InventoryService.UpdateWarehouse(db, id, updates, fault);
      if updated.Err? {
        error := Some(Message(updated.error, "Failed to update warehouse"));
        return Err(updated.error);
      }
      RefreshData(rf);
      r := Ok(());
    }

    method DeleteWarehouse(id: string, fault: Option<Thrown>, rf: RefreshFaults) returns (r: Result<()>)
      requires db.Valid()
      modifies this, db
      ensures db.Valid()
      ensures var st := DeleteWarehousesStep(old(db.State()), id, fault);
        && db.State() == st.tables && r == Rethrown(st.result)
        && Snapshot() == AfterOperation(old(Snapshot()), st.result, st.tables, "Failed to delete warehouse", rf)
    {
      var deleted := InventoryService.DeleteWarehouse(db, id, fault);
      if deleted.Err? {
        error := Some(Message(deleted.error, "Failed to delete warehouse"));
        return Err(deleted.error);
      }
      RefreshData(rf);
      r := Ok(());
    }

    method TransferItem(itemId: string, targetWarehouseId: string, quantity: int, now: Timestamp,
                        newId: string, faults: TransferFaults, rf: RefreshFaults) returns (r: Result<()>)
      requires db.Valid()
      modifies this, db
      ensures db.Valid()
      ensures var st := TransferStep(old(db.State()), itemId, targetWarehouseId, quantity, now, newId, faults);
        && db.State() == st.tables && r == Rethrown(st.result)
        && Snapshot() == AfterOperation(old(Snapshot()), st.result, st.tables, "Failed to transfer item", rf)
    {
      var moved := InventoryService.TransferItem(db, itemId, targetWarehouseId, quantity, now, newId, faults);
      if moved.Err? {
        error := Some(Message(moved.error, "Failed to transfer item"));
        return Err(moved.error);
      }
      RefreshData(rf);
      r := Ok(());
    }

    method RecordWastage(wastage: NewWastage, newId: string, now: Timestamp, faults: LedgerFaults, rf: RefreshFaults)
      returns (r: Result<()>)
      requires db.Valid()
      modifies this, db
      ensures db.Valid()
      ensures var st := AddWastageStep(old(db.State()), wastage, newId, now, faults);
        && db.State() == st.tables && r == Rethrown(st.result)
        && Snapshot() == AfterOperation(old(Snapshot()), st.result, st.tables, "Failed to record wastage", rf)
    {
      var recorded := AddWastageRecord(db, wastage, newId, now, faults);
      if recorded.Err? {
        error := Some(Message(recorded.error, "Failed to record wastage"));
        return Err(recorded.error);
      }
      RefreshData(rf);
      r := Ok(());
    }

    method RecordSale(sale: NewSale, newId: string, now: Timestamp, faults: LedgerFaults, rf: RefreshFaults)
      returns (r: Result<()>)
      requires db.Valid()
      modifies this, db
      ensures db.Valid()
      ensures var st := AddSaleStep(old(db.State()), sale, newId, now, faults);
        && db.State() == st.tables && r == Rethrown(st.result)
        && Snapshot() == AfterOperation(old(Snapshot()), st.result, st.tables, "Failed to record sale", rf)
    {
      var recorded := AddSaleRecord(db, sale, newId, now, faults);
      if recorded.Err? {
        error := Some(Message(recorded.error, "Failed to record sale"));
        return Err(recorded.error);
      }
      RefreshData(rf);
      r := Ok(());
    }
  }

  /**
   * Once the store has been read, the low-stock list is exactly the store's items at or
   * below their threshold.
   */
  lemma LowStockReflectsStore(v: View, t: Tables, rf: RefreshFaults, x: InventoryItem)
    requires Refreshed(v, t, rf).error.None?
    ensures x in Filter(Refreshed(v, t, rf).inventory, IsLowStock) <==> x in t.items && x.quantity <= x.threshold
  {
    var w := Refreshed(v, t, rf);
    assert x in w.inventory <==> x in multiset(w.inventory);
    assert x in t.items <==> x in multiset(t.items);
  }
}
