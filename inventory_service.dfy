/**
 * The stock-mutation layer (src/services/inventoryService.ts) over an in-memory model of the
 * hosted store.
 *
 * The store is a `Database` object holding four tables: items, warehouses and the sales and
 * wastage ledgers.  Its methods are the statements the service issues: select, insert,
 * update, upsert and delete.  Each statement is specified by a function of the tables before
 * it (`...Step`).  The service operations are methods that issue those statements in the
 * source's order.  Each one is proved equal to a specification function built from the
 * statement specifications (`TransferStep`, `AddSaleStep`, `AddWastageStep`), and the lemmas
 * at the end state what those functions promise.
 *
 * Things the store decides are parameters: whether a request fails (with what thrown value)
 * and the id it generates for a new row.  The clock is the `now` parameter.
 */
module InventoryService {
  import opened Options
  import opened Types
  import opened Sequences

  datatype Tables = Tables(
    items: seq<InventoryItem>,
    warehouses: seq<Warehouse>,
    sales: seq<SaleRecord>,
    wastage: seq<WastageRecord>)

  /** What a statement or an operation returns, and the tables after it. */
  datatype Step<T> = Step(result: Result<T>, tables: Tables)

  /** One element of the `updates` array that `transferItem` upserts. */
  datatype QuantityUpdate = QuantityUpdate(id: string, quantity: int, updated_at: Timestamp)

  function UpdateId(u: QuantityUpdate): string { u.id }

  /** Primary keys: no two rows of a table share an id. */
  predicate WellFormed(t: Tables) {
    && UniqueKeys(t.items, ItemId)
    && UniqueKeys(t.warehouses, WarehouseKey)
    && UniqueKeys(t.sales, SaleId)
    && UniqueKeys(t.wastage, WastageId)
  }

  /** Thrown by `transferItem` itself. */
  const ItemNotFound: Thrown := ErrorInstance("Item not found")
  const InsufficientQuantity: Thrown := ErrorInstance("Insufficient quantity")

  /** Rejections of the store: `.single()` without exactly one row, a key clash, an upsert naming a row twice. */
  const NoSingleRow: Thrown := PlainObject("JSON object requested, multiple (or no) rows returned")
  const DuplicateKey: Thrown := PlainObject("duplicate key value violates unique constraint")
  const RowAffectedTwice: Thrown := PlainObject("ON CONFLICT DO UPDATE command cannot affect row a second time")

  /** `.eq('id', id)` */
  function HasId(id: string): InventoryItem -> bool {
    (item: InventoryItem) => item.id == id
  }

  /** `.eq('name', name).eq('warehouse_id', wid)` */
  function NamedIn(name: string, wid: string): InventoryItem -> bool {
    (item: InventoryItem) => item.name == name && item.warehouse_id == wid
  }

  function WarehouseHasId(id: string): Warehouse -> bool {
    (w: Warehouse) => w.id == id
  }

  // ---------------------------------------------------------------------------------------
  // Rows built by the service

  /** `{ ...item, created_at: now, updated_at: now }` with the id the store generates. */
  function ItemRow(item: NewItem, id: string, now: Timestamp): InventoryItem {
    InventoryItem(id, item.name, item.category, item.quantity, item.price, item.expiry_date,
                  item.warehouse_id, item.threshold, now, now)
  }

  /** A warehouse row; `created_at` is not sent, so it is the column default, the current time. */
  function WarehouseRow(w: NewWarehouse, id: string, now: Timestamp): Warehouse {
    Warehouse(id, w.name, w.location, now)
  }

  function SaleRow(sale: NewSale, id: string): SaleRecord {
    SaleRecord(id, sale.item_id, sale.quantity, sale.price_per_unit, sale.total_price, sale.date)
  }

  function WastageRow(w: NewWastage, id: string): WastageRecord {
    WastageRecord(id, w.item_id, w.quantity, w.reason, w.date)
  }

  /**
   * The destination row a transfer inserts: the source spread, without its id (the store
   * generates one), holding the transferred quantity in the target warehouse, stamped now.
   */
  function TransferredCopy(source: InventoryItem, id: string, quantity: int, target: string, now: Timestamp): InventoryItem {
    source.(id := id, quantity := quantity, warehouse_id := target, created_at := now, updated_at := now)
  }

  /** `{ ...row, ...patch }`: every supplied field overwrites, every other field stays. */
  function PatchItem(row: InventoryItem, p: ItemPatch): InventoryItem {
    InventoryItem(
      p.id.GetOr(row.id), p.name.GetOr(row.name), p.category.GetOr(row.category),
      p.quantity.GetOr(row.quantity), p.price.GetOr(row.price), p.expiry_date.GetOr(row.expiry_date),
      p.warehouse_id.GetOr(row.warehouse_id), p.threshold.GetOr(row.threshold),
      p.created_at.GetOr(row.created_at), row.updated_at)
  }

  function PatchWarehouse(w: Warehouse, p: WarehousePatch): Warehouse {
    Warehouse(p.id.GetOr(w.id), p.name.GetOr(w.name), p.location.GetOr(w.location), p.created_at.GetOr(w.created_at))
  }

  // ---------------------------------------------------------------------------------------
  // Statements of the store

  /** `select('*').<filter p>.single()`: the row when exactly one matches. */
  function SelectItemResult(t: Tables, p: InventoryItem -> bool, fault: Option<Thrown>): Result<InventoryItem> {
    if fault.Some? then Err(fault.value)
    else match Single(t.items, p)
      case Some(k) => Ok(t.items[k])
      case None => Err(NoSingleRow)
  }

  /** `from('inventory').select(...).order('name')` */
  function InventoryResult(t: Tables, fault: Option<Thrown>): Result<seq<InventoryItem>> {
    if fault.Some? then Err(fault.value) else Ok(SortBy(t.items, ItemName))
  }

  /** `from('warehouses').select('*').order('name')` */
  function WarehousesResult(t: Tables, fault: Option<Thrown>): Result<seq<Warehouse>> {
    if fault.Some? then Err(fault.value) else Ok(SortBy(t.warehouses, WarehouseName))
  }

  function InsertItemStep(t: Tables, row: InventoryItem, fault: Option<Thrown>): (s: Step<InventoryItem>)
    ensures WellFormed(t) ==> WellFormed(s.tables)
  {
    if fault.Some? then Step(Err(fault.value), t)
    else if HasKey(t.items, ItemId, row.id) then Step(Err(DuplicateKey), t)
    else Step(Ok(row), t.(items := t.items + [row]))
  }

  /**
   * `update({ ...patch, updated_at: now }).eq('id', id).select().single()`: with no row of
   * that id it fails and nothing changes.
   */
  function UpdateItemStep(t: Tables, id: string, patch: ItemPatch, now: Timestamp, fault: Option<Thrown>): (s: Step<InventoryItem>)
    ensures WellFormed(t) ==> WellFormed(s.tables)
  {
    if fault.Some? then Step(Err(fault.value), t)
    else match Single(t.items, HasId(id))
      case None => Step(Err(NoSingleRow), t)
      case Some(k) =>
        var row := PatchItem(t.items[k], patch).(updated_at := now);
        if row.id != id && HasKey(t.items, ItemId, row.id) then Step(Err(DuplicateKey), t)
        else Step(Ok(row), t.(items := t.items[k := row]))
  }

  /** `delete().eq('id', id)`: no error when no row has that id. */
  function DeleteItemsStep(t: Tables, id: string, fault: Option<Thrown>): (s: Step<()>)
    ensures WellFormed(t) ==> WellFormed(s.tables)
  {
    if fault.Some? then Step(Err(fault.value), t)
    else
      assert UniqueKeys(t.items, ItemId) ==> UniqueKeys(Filter(t.items, KeyIsNot(ItemId, id)), ItemId) by {
        if UniqueKeys(t.items, ItemId) { FilterKeepsUniqueKeys(t.items, KeyIsNot(ItemId, id), ItemId); }
      }
      Step(Ok(()), t.(items := Filter(t.items, KeyIsNot(ItemId, id))))
  }

  /** The row with id `u.id` takes quantity and `updated_at` from `u`. */
  function SetQuantity(items: seq<InventoryItem>, u: QuantityUpdate): (r: seq<InventoryItem>)
    ensures |r| == |items|
    ensures forall i :: 0 <= i < |items| ==> r[i].id == items[i].id
  {
    seq(|items|, i requires 0 <= i < |items| =>
      if items[i].id == u.id then items[i].(quantity := u.quantity, updated_at := u.updated_at) else items[i])
  }

  function ApplyUpdates(items: seq<InventoryItem>, ups: seq<QuantityUpdate>): (r: seq<InventoryItem>)
    ensures |r| == |items|
    ensures forall i :: 0 <= i < |items| ==> r[i].id == items[i].id
    decreases |ups|
  {
    if ups == [] then items else ApplyUpdates(SetQuantity(items, ups[0]), ups[1..])
  }

  /**
   * `upsert(updates)` on rows that exist: each named row takes its new quantity.  The store
   * rejects a batch that names one row twice.
   */
  function UpsertStep(t: Tables, ups: seq<QuantityUpdate>, fault: Option<Thrown>): (s: Step<()>)
    requires forall i :: 0 <= i < |ups| ==> HasKey(t.items, ItemId, ups[i].id)
    ensures WellFormed(t) ==> WellFormed(s.tables)
  {
    if fault.Some? then Step(Err(fault.value), t)
    else if !UniqueKeys(ups, UpdateId) then Step(Err(RowAffectedTwice), t)
    else Step(Ok(()), t.(items := ApplyUpdates(t.items, ups)))
  }

  /** The row with id `id` loses `n` units, whatever it held: the raw `quantity - n`. */
  function Decremented(items: seq<InventoryItem>, id: string, n: int, now: Timestamp): (r: seq<InventoryItem>)
    ensures |r| == |items|
    ensures forall i :: 0 <= i < |items| ==> r[i].id == items[i].id
  {
    seq(|items|, i requires 0 <= i < |items| =>
      if items[i].id == id then items[i].(quantity := items[i].quantity - n, updated_at := now) else items[i])
  }

  /** `update({ quantity: raw('quantity - ?', [n]), updated_at: now }).eq('id', id)` */
  function DecrementStep(t: Tables, id: string, n: int, now: Timestamp, fault: Option<Thrown>): (s: Step<()>)
    ensures WellFormed(t) ==> WellFormed(s.tables)
  {
    if fault.Some? then Step(Err(fault.value), t)
    else Step(Ok(()), t.(items := Decremented(t.items, id, n, now)))
  }

  function InsertWarehouseStep(t: Tables, w: Warehouse, fault: Option<Thrown>): (s: Step<Warehouse>)
    ensures WellFormed(t) ==> WellFormed(s.tables)
  {
    if fault.Some? then Step(Err(fault.value), t)
    else if HasKey(t.warehouses, WarehouseKey, w.id) then Step(Err(DuplicateKey), t)
    else Step(Ok(w), t.(warehouses := t.warehouses + [w]))
  }

  /** `update(patch).eq('id', id).select().single()` on warehouses (no timestamp is written). */
  function UpdateWarehouseStep(t: Tables, id: string, patch: WarehousePatch, fault: Option<Thrown>): (s: Step<Warehouse>)
    ensures WellFormed(t) ==> WellFormed(s.tables)
  {
    if fault.Some? then Step(Err(fault.value), t)
    else match Single(t.warehouses, WarehouseHasId(id))
      case None => Step(Err(NoSingleRow), t)
      case Some(k) =>
        var w := PatchWarehouse(t.warehouses[k], patch);
        if w.id != id && HasKey(t.warehouses, WarehouseKey, w.id) then Step(Err(DuplicateKey), t)
        else Step(Ok(w), t.(warehouses := t.warehouses[k := w]))
  }

  function DeleteWarehousesStep(t: Tables, id: string, fault: Option<Thrown>): (s: Step<()>)
    ensures WellFormed(t) ==> WellFormed(s.tables)
  {
    if fault.Some? then Step(Err(fault.value), t)
    else
      assert UniqueKeys(t.warehouses, WarehouseKey) ==> UniqueKeys(Filter(t.warehouses, KeyIsNot(WarehouseKey, id)), WarehouseKey) by {
        if UniqueKeys(t.warehouses, WarehouseKey) { FilterKeepsUniqueKeys(t.warehouses, KeyIsNot(WarehouseKey, id), WarehouseKey); }
      }
      Step(Ok(()), t.(warehouses := Filter(t.warehouses, KeyIsNot(WarehouseKey, id))))
  }

  function InsertSaleStep(t: Tables, rec: SaleRecord, fault: Option<Thrown>): (s: Step<SaleRecord>)
    ensures WellFormed(t) ==> WellFormed(s.tables)
  {
    if fault.Some? then Step(Err(fault.value), t)
    else if HasKey(t.sales, SaleId, rec.id) then Step(Err(DuplicateKey), t)
    else Step(Ok(rec), t.(sales := t.sales + [rec]))
  }

  function InsertWastageStep(t: Tables, rec: WastageRecord, fault: Option<Thrown>): (s: Step<WastageRecord>)
    ensures WellFormed(t) ==> WellFormed(s.tables)
  {
    if fault.Some? then Step(Err(fault.value), t)
    else if HasKey(t.wastage, WastageId, rec.id) then Step(Err(DuplicateKey), t)
    else Step(Ok(rec), t.(wastage := t.wastage + [rec]))
  }

  // ---------------------------------------------------------------------------------------
  // The workflows

  /** Which of the four requests of a transfer the store fails (the two reads' errors are ignored by the source). */
  datatype TransferFaults = TransferFaults(
    sourceRead: Option<Thrown>, targetRead: Option<Thrown>, insert: Option<Thrown>, upsert: Option<Thrown>)

  /** Which of the two requests of a sale or a wastage the store fails. */
  datatype LedgerFaults = LedgerFaults(insert: Option<Thrown>, update: Option<Thrown>)

  /**
   * `transferItem`: read the source; refuse if it is missing or holds too little; read the
   * single row of that name in the target warehouse; either queue its increment or insert a
   * copy of the source there; finally upsert the queued quantities (source first).
   */
  function TransferStep(t: Tables, itemId: string, target: string, quantity: int, now: Timestamp,
                        newId: string, f: TransferFaults): (s: Step<()>)
    ensures WellFormed(t) ==> WellFormed(s.tables)
  {
    var found := SelectItemResult(t, HasId(itemId), f.sourceRead);
    if found.Err? then Step(Err(ItemNotFound), t)
    else if found.value.quantity < quantity then Step(Err(InsufficientQuantity), t)
    else
      SelectedRowExists(t, HasId(itemId), f.sourceRead);
      MoveStock(t, found.value, target, quantity, now, newId, f)
  }

  /** The part of `transferItem` after its checks: `source` is the row being drawn from. */
  function MoveStock(t: Tables, source: InventoryItem, target: string, quantity: int, now: Timestamp,
                     newId: string, f: TransferFaults): (s: Step<()>)
    requires HasKey(t.items, ItemId, source.id)
    ensures WellFormed(t) ==> WellFormed(s.tables)
  {
    var existing := SelectItemResult(t, NamedIn(source.name, target), f.targetRead);
    if existing.Ok? then
      SelectedRowExists(t, NamedIn(source.name, target), f.targetRead);
      MoveIntoRow(t, source, existing.value, quantity, now, f)
    else
      MoveIntoCopy(t, source, target, quantity, now, newId, f)
  }

  /** The target warehouse has the row `existing`: one upsert of both new quantities, source first. */
  function MoveIntoRow(t: Tables, source: InventoryItem, existing: InventoryItem, quantity: int, now: Timestamp,
                       f: TransferFaults): (s: Step<()>)
    requires HasKey(t.items, ItemId, source.id) && HasKey(t.items, ItemId, existing.id)
    ensures WellFormed(t) ==> WellFormed(s.tables)
  {
    var fromSource := QuantityUpdate(source.id, source.quantity - quantity, now);
    var toTarget := QuantityUpdate(existing.id, existing.quantity + quantity, now);
    UpsertStep(t, [fromSource] + [toTarget], f.upsert)
  }

  /** The target warehouse has no such row: insert the copy, then upsert the source's new quantity. */
  function MoveIntoCopy(t: Tables, source: InventoryItem, target: string, quantity: int, now: Timestamp,
                        newId: string, f: TransferFaults): (s: Step<()>)
    requires HasKey(t.items, ItemId, source.id)
    ensures WellFormed(t) ==> WellFormed(s.tables)
  {
    var fromSource := QuantityUpdate(source.id, source.quantity - quantity, now);
    var copy := TransferredCopy(source, newId, quantity, target, now);
    var inserted := InsertItemStep(t, copy, f.insert);
    if inserted.result.Err? then Step(Err(inserted.result.error), t)
    else
      PrefixKeepsKey(t.items, [copy], source.id);
      UpsertStep(inserted.tables, [fromSource], f.upsert)
  }

  /** `addSaleRecord`: append the ledger row, then lower the item's quantity. */
  function AddSaleStep(t: Tables, sale: NewSale, newId: string, now: Timestamp, f: LedgerFaults): (s: Step<SaleRecord>)
    ensures WellFormed(t) ==> WellFormed(s.tables)
  {
    var inserted := InsertSaleStep(t, SaleRow(sale, newId), f.insert);
    if inserted.result.Err? then inserted
    else
      var lowered := DecrementStep(inserted.tables, sale.item_id, sale.quantity, now, f.update);
      if lowered.result.Err? then Step(Err(lowered.result.error), lowered.tables)
      else Step(Ok(inserted.result.value), lowered.tables)
  }

  /** `addWastageRecord`: the same two requests against the wastage ledger. */
  function AddWastageStep(t: Tables, w: NewWastage, newId: string, now: Timestamp, f: LedgerFaults): (s: Step<WastageRecord>)
    ensures WellFormed(t) ==> WellFormed(s.tables)
  {
    var inserted := InsertWastageStep(t, WastageRow(w, newId), f.insert);
    if inserted.result.Err? then inserted
    else
      var lowered := DecrementStep(inserted.tables, w.item_id, w.quantity, now, f.update);
      if lowered.result.Err? then Step(Err(lowered.result.error), lowered.tables)
      else Step(Ok(inserted.result.value), lowered.tables)
  }

  lemma SelectedRowExists(t: Tables, p: InventoryItem -> bool, fault: Option<Thrown>)
    ensures SelectItemResult(t, p, fault).Ok? ==>
      p(SelectItemResult(t, p, fault).value) && HasKey(t.items, ItemId, SelectItemResult(t, p, fault).value.id)
  {
    if SelectItemResult(t, p, fault).Ok? {
      var k := Single(t.items, p).value;
      assert ItemId(t.items[k]) == t.items[k].id;
    }
  }

  lemma PrefixKeepsKey(a: seq<InventoryItem>, b: seq<InventoryItem>, id: string)
    ensures HasKey(a, ItemId, id) ==> HasKey(a + b, ItemId, id)
  {
    if HasKey(a, ItemId, id) {
      var i :| 0 <= i < |a| && ItemId(a[i]) == id;
      assert (a + b)[i] == a[i];
    }
  }

  // ---------------------------------------------------------------------------------------
  // The store

  /** The hosted store as four in-memory tables, with the statements the service issues. */
  class Database {
    var items: seq<InventoryItem>
    var warehouses: seq<Warehouse>
    var sales: seq<SaleRecord>
    var wastage: seq<WastageRecord>

    function State(): Tables
      reads this
    {
      Tables(items, warehouses, sales, wastage)
    }

    predicate Valid()
      reads this
    {
      WellFormed(State())
    }

    constructor (initial: Tables)
      requires WellFormed(initial)
      ensures Valid() && State() == initial
    {
      items, warehouses, sales, wastage := initial.items, initial.warehouses, initial.sales, initial.wastage;
    }

    method SelectItem(p: InventoryItem -> bool, fault: Option<Thrown>) returns (r: Result<InventoryItem>)
      ensures r == SelectItemResult(State(), p, fault)
    {
      if fault.Some? {
        r := Err(fault.value);
      } else {
        var k := Single(items, p);
        r := if k.Some? then Ok(items[k.value]) else Err(NoSingleRow);
      }
    }

    method SelectInventory(fault: Option<Thrown>) returns (r: Result<seq<InventoryItem>>)
      ensures r == InventoryResult(State(), fault)
      ensures r.Ok? ==> SortedBy(r.value, ItemName) && multiset(r.value) == multiset(items)
    {
      if fault.Some? {
        r := Err(fault.value);
      } else {
        r := Ok(SortBy(items, ItemName));
        SortByCorrect(items, ItemName);
      }
    }

    method SelectWarehouses(fault: Option<Thrown>) returns (r: Result<seq<Warehouse>>)
      ensures r == WarehousesResult(State(), fault)
      ensures r.Ok? ==> SortedBy(r.value, WarehouseName) && multiset(r.value) == multiset(warehouses)
    {
      if fault.Some? {
        r := Err(fault.value);
      } else {
        r := Ok(SortBy(warehouses, WarehouseName));
        SortByCorrect(warehouses, WarehouseName);
      }
    }

    method InsertItem(row: InventoryItem, fault: Option<Thrown>) returns (r: Result<InventoryItem>)
      modifies this
      ensures Step(r, State()) == InsertItemStep(old(State()), row, fault)
    {
      if fault.Some? {
        r := Err(fault.value);
      } else if HasKey(items, ItemId, row.id) {
        r := Err(DuplicateKey);
      } else {
        items := items + [row];
        r := Ok(row);
      }
    }

    method UpdateItems(id: string, patch: ItemPatch, now: Timestamp, fault: Option<Thrown>) returns (r: Result<InventoryItem>)
      modifies this
      ensures Step(r, State()) == UpdateItemStep(old(State()), id, patch, now, fault)
    {
      if fault.Some? {
        return Err(fault.value);
      }
      var k := Single(items, HasId(id));
      if k.None? {
        return Err(NoSingleRow);
      }
      var row := PatchItem(items[k.value], patch).(updated_at := now);
      if row.id != id && HasKey(items, ItemId, row.id) {
        return Err(DuplicateKey);
      }
      items := items[k.value := row];
      r := Ok(row);
    }

    method DeleteItems(id: string, fault: Option<Thrown>) returns (r: Result<()>)
      modifies this
      ensures Step(r, State()) == DeleteItemsStep(old(State()), id, fault)
    {
      if fault.Some? {
        r := Err(fault.value);
      } else {
        items := Filter(items, KeyIsNot(ItemId, id));
        r := Ok(());
      }
    }

    method Upsert(ups: seq<QuantityUpdate>, fault: Option<Thrown>) returns (r: Result<()>)
      requires forall i :: 0 <= i < |ups| ==> HasKey(items, ItemId, ups[i].id)
      modifies this
      ensures Step(r, State()) == UpsertStep(old(State()), ups, fault)
    {
      if fault.Some? {
        r := Err(fault.value);
      } else if !UniqueKeys(ups, UpdateId) {
        r := Err(RowAffectedTwice);
      } else {
        items := ApplyUpdates(items, ups);
        r := Ok(());
      }
    }

    method Decrement(id: string, n: int, now: Timestamp, fault: Option<Thrown>) returns (r: Result<()>)
      modifies this
      ensures Step(r, State()) == DecrementStep(old(State()), id, n, now, fault)
    {
      if fault.Some? {
        r := Err(fault.value);
      } else {
        items := Decremented(items, id, n, now);
        r := Ok(());
      }
    }

    method InsertWarehouse(w: Warehouse, fault: Option<Thrown>) returns (r: Result<Warehouse>)
      modifies this
      ensures Step(r, State()) == InsertWarehouseStep(old(State()), w, fault)
    {
      if fault.Some? {
        r := Err(fault.value);
      } else if HasKey(warehouses, WarehouseKey, w.id) {
        r := Err(DuplicateKey);
      } else {
        warehouses := warehouses + [w];
        r := Ok(w);
      }
    }

    method UpdateWarehouses(id: string, patch: WarehousePatch, fault: Option<Thrown>) returns (r: Result<Warehouse>)
      modifies this
      ensures Step(r, State()) == UpdateWarehouseStep(old(State()), id, patch, fault)
    {
      if fault.Some? {
        return Err(fault.value);
      }
      var k := Single(warehouses, WarehouseHasId(id));
      if k.None? {
        return Err(NoSingleRow);
      }
      var w := PatchWarehouse(warehouses[k.value], patch);
      if w.id != id && HasKey(warehouses, WarehouseKey, w.id) {
        return Err(DuplicateKey);
      }
      warehouses := warehouses[k.value := w];
      r := Ok(w);
    }

    method DeleteWarehouses(id: string, fault: Option<Thrown>) returns (r: Result<()>)
      modifies this
      ensures Step(r, State()) == DeleteWarehousesStep(old(State()), id, fault)
    {
      if fault.Some? {
        r := Err(fault.value);
      } else {
        warehouses := Filter(warehouses, KeyIsNot(WarehouseKey, id));
        r := Ok(());
      }
    }

    method InsertSale(rec: SaleRecord, fault: Option<Thrown>) returns (r: Result<SaleRecord>)
      modifies this
      ensures Step(r, State()) == InsertSaleStep(old(State()), rec, fault)
    {
      if fault.Some? {
        r := Err(fault.value);
      } else if HasKey(sales, SaleId, rec.id) {
        r := Err(DuplicateKey);
      } else {
        sales := sales + [rec];
        r := Ok(rec);
      }
    }

    method InsertWastage(rec: WastageRecord, fault: Option<Thrown>) returns (r: Result<WastageRecord>)
      modifies this
      ensures Step(r, State()) == InsertWastageStep(old(State()), rec, fault)
    {
      if fault.Some? {
        r := Err(fault.value);
      } else if HasKey(wastage, WastageId, rec.id) {
        r := Err(DuplicateKey);
      } else {
        wastage := wastage + [rec];
        r := Ok(rec);
      }
    }
  }

  // ---------------------------------------------------------------------------------------
  // The service operations

  method GetInventory(db: Database, fault: Option<Thrown>) returns (r: Result<seq<InventoryItem>>)
    ensures r == InventoryResult(db.State(), fault)
  {
    r := db.SelectInventory(fault);
  }

  method GetWarehouses(db: Database, fault: Option<Thrown>) returns (r: Result<seq<Warehouse>>)
    ensures r == WarehousesResult(db.State(), fault)
  {
    r := db.SelectWarehouses(fault);
  }

  method AddItem(db: Database, item: NewItem, newId: string, now: Timestamp, fault: Option<Thrown>) returns (r: Result<InventoryItem>)
    requires db.Valid()
    modifies db
    ensures db.Valid()
    ensures Step(r, db.State()) == InsertItemStep(old(db.State()), ItemRow(item, newId, now), fault)
  {
    r := db.InsertItem(ItemRow(item, newId, now), fault);
  }

  method UpdateItem(db: Database, id: string, updates: ItemPatch, now: Timestamp, fault: Option<Thrown>) returns (r: Result<InventoryItem>)
    requires db.Valid()
    modifies db
    ensures db.Valid()
    ensures Step(r, db.State()) == UpdateItemStep(old(db.State()), id, updates, now, fault)
  {
    r := db.UpdateItems(id, updates, now, fault);
  }

  method DeleteItem(db: Database, id: string, fault: Option<Thrown>) returns (r: Result<()>)
    requires db.Valid()
    modifies db
    ensures db.Valid()
    ensures Step(r, db.State()) == DeleteItemsStep(old(db.State()), id, fault)
  {
    r := db.DeleteItems(id, fault);
  }

  method AddWarehouse(db: Database, w: NewWarehouse, newId: string, now: Timestamp, fault: Option<Thrown>) returns (r: Result<Warehouse>)
    requires db.Valid()
    modifies db
    ensures db.Valid()
    ensures Step(r, db.State()) == InsertWarehouseStep(old(db.State()), WarehouseRow(w, newId, now), fault)
  {
    r := db.InsertWarehouse(WarehouseRow(w, newId, now), fault);
  }

  method UpdateWarehouse(db: Database, id: string, updates: WarehousePatch, fault: Option<Thrown>) returns (r: Result<Warehouse>)
    requires db.Valid()
    modifies db
    ensures db.Valid()
    ensures Step(r, db.State()) == UpdateWarehouseStep(old(db.State()), id, updates, fault)
  {
    r := db.UpdateWarehouses(id, updates, fault);
  }

  method DeleteWarehouse(db: Database, id: string, fault: Option<Thrown>) returns (r: Result<()>)
    requires db.Valid()
    modifies db
    ensures db.Valid()
    ensures Step(r, db.State()) == DeleteWarehousesStep(old(db.State()), id, fault)
  {
    r := db.DeleteWarehouses(id, fault);
  }

  method TransferItem(db: Database, itemId: string, targetWarehouseId: string, quantity: int, now: Timestamp,
                      newId: string, faults: TransferFaults) returns (r: Result<()>)
    requires db.Valid()
    modifies db
    ensures db.Valid()
    ensures Step(r, db.State()) == TransferStep(old(db.State()), itemId, targetWarehouseId, quantity, now, newId, faults)
  {
    var sourceItem := db.SelectItem(HasId(itemId), faults.sourceRead);
    if sourceItem.Err? {
      return Err(ItemNotFound);
    }
    var source := sourceItem.value;
    if source.quantity < quantity {
      return Err(InsufficientQuantity);
    }
    SelectedRowExists(db.State(), HasId(itemId), faults.sourceRead);
    r := MoveStockFrom(db, source, targetWarehouseId, quantity, now, newId, faults);
  }

  /**
   * The statements `transferItem` issues once the source row has passed its checks: the
   * update list starts with the source's new quantity; an existing target row gets its new
   * quantity pushed onto it, otherwise the copy is inserted first; then the one upsert.
   */
  method MoveStockFrom(db: Database, source: InventoryItem, targetWarehouseId: string, quantity: int, now: Timestamp,
                       newId: string, faults: TransferFaults) returns (r: Result<()>)
    requires db.Valid() && HasKey(db.items, ItemId, source.id)
    modifies db
    ensures db.Valid()
    ensures Step(r, db.State()) == MoveStock(old(db.State()), source, targetWarehouseId, quantity, now, newId, faults)
  {
    var updates := [QuantityUpdate(source.id, source.quantity - quantity, now)];
    var existingItem := db.SelectItem(NamedIn(source.name, targetWarehouseId), faults.targetRead);
    if existingItem.Ok? {
      SelectedRowExists(db.State(), NamedIn(source.name, targetWarehouseId), faults.targetRead);
      r := PushThenUpsert(db, source, quantity, now, faults, existingItem.value, updates);
    } else {
      r := CopyThenUpsert(db, source, targetWarehouseId, quantity, now, newId, faults, updates);
    }
  }

  /** The branch of `MoveStockFrom` where the target warehouse already has a row of that name. */
  method PushThenUpsert(db: Database, source: InventoryItem, quantity: int, now: Timestamp, faults: TransferFaults,
                        existing: InventoryItem, updates: seq<QuantityUpdate>) returns (r: Result<()>)
    requires db.Valid() && HasKey(db.items, ItemId, source.id) && HasKey(db.items, ItemId, existing.id)
    requires updates == [QuantityUpdate(source.id, source.quantity - quantity, now)]
    modifies db
    ensures db.Valid()
    ensures Step(r, db.State()) == MoveIntoRow(old(db.State()), source, existing, quantity, now, faults)
  {
    var toTarget := QuantityUpdate(existing.id, existing.quantity + quantity, now);
    r := db.Upsert(updates + [toTarget], faults.upsert);
  }

  /** The branch of `MoveStockFrom` where the target warehouse has no row of that name. */
  method CopyThenUpsert(db: Database, source: InventoryItem, targetWarehouseId: string, quantity: int, now: Timestamp,
                        newId: string, faults: TransferFaults, updates: seq<QuantityUpdate>) returns (r: Result<()>)
    requires db.Valid() && HasKey(db.items, ItemId, source.id)
    requires updates == [QuantityUpdate(source.id, source.quantity - quantity, now)]
    modifies db
    ensures db.Valid()
    ensures Step(r, db.State()) == MoveIntoCopy(old(db.State()), source, targetWarehouseId, quantity, now, newId, faults)
  {
    ghost var t := db.State();
    var newItem := TransferredCopy(source, newId, quantity, targetWarehouseId, now);
    var inserted := db.InsertItem(newItem, faults.insert);
    if inserted.Err? {
      return Err(inserted.error);
    }
    PrefixKeepsKey(t.items, [newItem], source.id);
    r := db.Upsert(updates, faults.upsert);
  }

  method AddWastageRecord(db: Database, wastage: NewWastage, newId: string, now: Timestamp, faults: LedgerFaults)
    returns (r: Result<WastageRecord>)
    requires db.Valid()
    modifies db
    ensures db.Valid()
    ensures Step(r, db.State()) == AddWastageStep(old(db.State()), wastage, newId, now, faults)
  {
    var data := db.InsertWastage(WastageRow(wastage, newId), faults.insert);
    if data.Err? {
      return data;
    }
    var updateError := db.Decrement(wastage.item_id, wastage.quantity, now, faults.update);
    if updateError.Err? {
      return Err(updateError.error);
    }
    r := data;
  }

  method AddSaleRecord(db: Database, sale: NewSale, newId: string, now: Timestamp, faults: LedgerFaults)
    returns (r: Result<SaleRecord>)
    requires db.Valid()
    modifies db
    ensures db.Valid()
    ensures Step(r, db.State()) == AddSaleStep(old(db.State()), sale, newId, now, faults)
  {
    var data := db.InsertSale(SaleRow(sale, newId), faults.insert);
    if data.Err? {
      return data;
    }
    var updateError := db.Decrement(sale.item_id, sale.quantity, now, faults.update);
    if updateError.Err? {
      return Err(updateError.error);
    }
    r := data;
  }

  // ---------------------------------------------------------------------------------------
  // What the workflows promise
}
