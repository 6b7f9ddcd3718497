/**
 * What the operations of the stock-mutation layer promise, stated over their specification
 * functions in `InventoryService` and proved for every input and every pattern of store
 * failures.
 */
module InventoryServiceFacts {
  import opened Options
  import opened Types
  import opened Sequences
  import opened Stock
  import opened InventoryService

  /** A row with a new quantity, stamped at `now`. */
  function Restocked(item: InventoryItem, quantity: int, now: Timestamp): InventoryItem {
    item.(quantity := quantity, updated_at := now)
  }

  /** Units of the product called `name`, in whichever warehouse they are. */
  function NamedQuantity(name: string): InventoryItem -> int {
    (item: InventoryItem) => if item.name == name then item.quantity else 0
  }

  function NameTotal(items: seq<InventoryItem>, name: string): int {
    SumBy(items, NamedQuantity(name))
  }

  // ---------------------------------------------------------------------------------------
  // Rows located by their primary key

  /** With unique ids, `.eq('id', id).single()` finds the row with that id exactly when there is one. */
  lemma SingleById(items: seq<InventoryItem>, id: string)
    requires UniqueKeys(items, ItemId)
    ensures Single(items, HasId(id)).Some? <==> HasKey(items, ItemId, id)
    ensures Single(items, HasId(id)).Some? ==> items[Single(items, HasId(id)).value].id == id
  {
    if HasKey(items, ItemId, id) {
      var k :| 0 <= k < |items| && ItemId(items[k]) == id;
      assert HasId(id)(items[k]);
    }
  }

  lemma SetQuantityAt(items: seq<InventoryItem>, u: QuantityUpdate, k: nat)
    requires UniqueKeys(items, ItemId) && k < |items| && items[k].id == u.id
    ensures SetQuantity(items, u) == items[k := Restocked(items[k], u.quantity, u.updated_at)]
  {
    forall i | 0 <= i < |items| && i != k
      ensures items[i].id != u.id
    {
      assert ItemId(items[i]) != ItemId(items[k]);
    }
  }

  lemma DecrementedAt(items: seq<InventoryItem>, id: string, n: int, now: Timestamp, k: nat)
    requires UniqueKeys(items, ItemId) && k < |items| && items[k].id == id
    ensures Decremented(items, id, n, now) == items[k := Restocked(items[k], items[k].quantity - n, now)]
  {
    forall i | 0 <= i < |items| && i != k
      ensures items[i].id != id
    {
      assert ItemId(items[i]) != ItemId(items[k]);
    }
  }

  lemma DecrementedAbsent(items: seq<InventoryItem>, id: string, n: int, now: Timestamp)
    requires !HasKey(items, ItemId, id)
    ensures Decremented(items, id, n, now) == items
  {
    forall i | 0 <= i < |items|
      ensures items[i].id != id
    {
      assert ItemId(items[i]) == items[i].id;
    }
  }

  /** A decrement takes `n` units off the total exactly when a row has that id. */
  lemma DecrementedTotal(items: seq<InventoryItem>, id: string, n: int, now: Timestamp)
    requires UniqueKeys(items, ItemId)
    ensures TotalQuantity(Decremented(items, id, n, now)) == TotalQuantity(items) - (if HasKey(items, ItemId, id) then n else 0)
  {
    if HasKey(items, ItemId, id) {
      var k :| 0 <= k < |items| && ItemId(items[k]) == id;
      DecrementedAt(items, id, n, now, k);
      SumByUpdateAt(items, Decremented(items, id, n, now), k, Quantity);
    } else {
      DecrementedAbsent(items, id, n, now);
    }
  }

  // ---------------------------------------------------------------------------------------
  // transferItem

  /**
   * `after` is `items` with `quantity` units drawn from row `k` and put into row `j`, another
   * row of the same name in the target warehouse, or, when `j` is `|items|`, into a copy of
   * row `k` appended there.
   */
  predicate MovedFrom(items: seq<InventoryItem>, k: nat, j: nat, target: string, quantity: int, now: Timestamp,
                      newId: string, after: seq<InventoryItem>)
  {
    && k < |items| && j <= |items| && j != k
    && var source := items[k];
       var drawn := items[k := Restocked(source, source.quantity - quantity, now)];
       if j < |items| then
         && items[j].name == source.name && items[j].warehouse_id == target
         && after == drawn[j := Restocked(items[j], items[j].quantity + quantity, now)]
       else
         after == drawn + [TransferredCopy(source, newId, quantity, target, now)]
  }

  /** A sum that the move leaves balanced (what leaves row `k` arrives at row `j`) is unchanged. */
  lemma MovedFromSum(items: seq<InventoryItem>, k: nat, j: nat, target: string, quantity: int, now: Timestamp,
                     newId: string, after: seq<InventoryItem>, f: InventoryItem -> int)
    requires MovedFrom(items, k, j, target, quantity, now, newId, after)
    requires f(items[k]) - f(Restocked(items[k], items[k].quantity - quantity, now)) ==
      if j < |items| then f(Restocked(items[j], items[j].quantity + quantity, now)) - f(items[j])
      else f(TransferredCopy(items[k], newId, quantity, target, now))
    ensures SumBy(after, f) == SumBy(items, f)
  {
    var drawn := items[k := Restocked(items[k], items[k].quantity - quantity, now)];
    SumByUpdateAt(items, drawn, k, f);
    if j < |items| {
      SumByUpdateAt(drawn, after, j, f);
    } else {
      SumBySnoc(drawn, TransferredCopy(items[k], newId, quantity, target, now), f);
    }
  }

  /** Moving stock between rows of one product keeps every product's total and the grand total. */
  lemma MovedFromConserves(items: seq<InventoryItem>, k: nat, j: nat, target: string, quantity: int, now: Timestamp,
                           newId: string, after: seq<InventoryItem>)
    requires MovedFrom(items, k, j, target, quantity, now, newId, after)
    ensures TotalQuantity(after) == TotalQuantity(items)
    ensures forall name :: NameTotal(after, name) == NameTotal(items, name)
  {
    MovedFromSum(items, k, j, target, quantity, now, newId, after, Quantity);
    forall name
      ensures NameTotal(after, name) == NameTotal(items, name)
    {
      MovedFromSum(items, k, j, target, quantity, now, newId, after, NamedQuantity(name));
    }
  }

  /** Rewriting rows without touching their ids keeps the ids unique. */
  lemma SameIdsStayUnique(a: seq<InventoryItem>, b: seq<InventoryItem>)
    requires UniqueKeys(a, ItemId) && |a| == |b|
    requires forall i :: 0 <= i < |a| ==> b[i].id == a[i].id
    ensures UniqueKeys(b, ItemId)
  {
    forall i, j | 0 <= i < |b| && 0 <= j < |b| && i != j
      ensures ItemId(b[i]) != ItemId(b[j])
    {
      assert ItemId(a[i]) != ItemId(a[j]);
    }
  }

  lemma ApplyOneUpdate(items: seq<InventoryItem>, u: QuantityUpdate)
    ensures ApplyUpdates(items, [u]) == SetQuantity(items, u)
  {
    assert [u][1..] == [];
  }

  /** An upsert of two updates naming distinct existing rows `k` and `j` rewrites those two rows. */
  lemma ApplyTwoUpdates(items: seq<InventoryItem>, a: QuantityUpdate, b: QuantityUpdate, k: nat, j: nat)
    requires UniqueKeys(items, ItemId) && k < |items| && j < |items| && k != j
    requires items[k].id == a.id && items[j].id == b.id
    ensures ApplyUpdates(items, [a, b])
         == items[k := Restocked(items[k], a.quantity, a.updated_at)][j := Restocked(items[j], b.quantity, b.updated_at)]
  {
    var drawn := SetQuantity(items, a);
    assert [a, b][1..] == [b];
    assert ApplyUpdates(items, [a, b]) == ApplyUpdates(drawn, [b]);
    ApplyOneUpdate(drawn, b);
    SetQuantityAt(items, a, k);
    SameIdsStayUnique(items, drawn);
    SetQuantityAt(drawn, b, j);
  }

  /** The branch of `transferItem` that adds to the one row of that name already in the target warehouse. */
  lemma MoveStockIntoExisting(t: Tables, k: nat, target: string, quantity: int, now: Timestamp,
                              newId: string, f: TransferFaults)
    requires WellFormed(t) && k < |t.items|
    requires SelectItemResult(t, NamedIn(t.items[k].name, target), f.targetRead).Ok?
    requires MoveStock(t, t.items[k], target, quantity, now, newId, f).result.Ok?
    ensures MovedFrom(t.items, k, Single(t.items, NamedIn(t.items[k].name, target)).value, target, quantity, now, newId,
                      MoveStock(t, t.items[k], target, quantity, now, newId, f).tables.items)
    ensures MoveStock(t, t.items[k], target, quantity, now, newId, f).tables.(items := t.items) == t
  {
    var source := t.items[k];
    var j := Single(t.items, NamedIn(source.name, target)).value;
    assert ItemId(t.items[j]) == t.items[j].id && ItemId(source) == source.id;
    assert MoveStock(t, source, target, quantity, now, newId, f) == MoveIntoRow(t, source, t.items[j], quantity, now, f);
    MoveIntoRowRewrites(t, k, j, quantity, now, f);
  }

  /** A successful upsert into the existing row `j` rewrites rows `k` and `j`, which differ, and nothing else. */
  lemma MoveIntoRowRewrites(t: Tables, k: nat, j: nat, quantity: int, now: Timestamp, f: TransferFaults)
    requires WellFormed(t) && k < |t.items| && j < |t.items|
    requires MoveIntoRow(t, t.items[k], t.items[j], quantity, now, f).result.Ok?
    ensures var s := MoveIntoRow(t, t.items[k], t.items[j], quantity, now, f);
      && j != k
      && s.tables.items == t.items[k := Restocked(t.items[k], t.items[k].quantity - quantity, now)]
                                  [j := Restocked(t.items[j], t.items[j].quantity + quantity, now)]
      && s.tables.(items := t.items) == t
  {
    var source := t.items[k];
    var fromSource := QuantityUpdate(source.id, source.quantity - quantity, now);
    var toTarget := QuantityUpdate(t.items[j].id, t.items[j].quantity + quantity, now);
    assert ItemId(t.items[j]) == toTarget.id && ItemId(t.items[k]) == fromSource.id;
    assert [fromSource] + [toTarget] == [fromSource, toTarget];
    OneUpsertStep(t, fromSource, toTarget, f.upsert);
    assert j != k by {
      assert UpdateId([fromSource, toTarget][0]) != UpdateId([fromSource, toTarget][1]);
    }
    ApplyTwoUpdates(t.items, fromSource, toTarget, k, j);
  }

  /** An upsert of two updates that succeeds named two different rows. */
  lemma OneUpsertStep(t: Tables, a: QuantityUpdate, b: QuantityUpdate, fault: Option<Thrown>)
    requires HasKey(t.items, ItemId, a.id) && HasKey(t.items, ItemId, b.id)
    ensures UpsertStep(t, [a, b], fault).result.Ok? ==>
      fault.None? && a.id != b.id && UpsertStep(t, [a, b], fault).tables == t.(items := ApplyUpdates(t.items, [a, b]))
  {
    if UpsertStep(t, [a, b], fault).result.Ok? {
      assert UniqueKeys([a, b], UpdateId);
      assert UpdateId([a, b][0]) != UpdateId([a, b][1]);
    }
  }

  /** The branch of `transferItem` that appends a copy of the source to the target warehouse. */
  lemma MoveStockIntoCopy(t: Tables, k: nat, target: string, quantity: int, now: Timestamp,
                          newId: string, f: TransferFaults)
    requires WellFormed(t) && k < |t.items|
    requires SelectItemResult(t, NamedIn(t.items[k].name, target), f.targetRead).Err?
    requires MoveStock(t, t.items[k], target, quantity, now, newId, f).result.Ok?
    ensures MovedFrom(t.items, k, |t.items|, target, quantity, now, newId,
                      MoveStock(t, t.items[k], target, quantity, now, newId, f).tables.items)
    ensures MoveStock(t, t.items[k], target, quantity, now, newId, f).tables.(items := t.items) == t
  {
    var source := t.items[k];
    var copy := TransferredCopy(source, newId, quantity, target, now);
    var grown := t.items + [copy];
    var fromSource := QuantityUpdate(source.id, source.quantity - quantity, now);
    var inserted := InsertItemStep(t, copy, f.insert);
    assert inserted.result.Ok?;
    assert inserted.tables == t.(items := grown);
    assert grown[k] == source && ItemId(grown[k]) == source.id;
    assert MoveStock(t, source, target, quantity, now, newId, f) == MoveIntoCopy(t, source, target, quantity, now, newId, f);
    ApplyOneUpdate(grown, fromSource);
    assert UniqueKeys(grown, ItemId);
    SetQuantityAt(grown, fromSource, k);
    assert grown[k := Restocked(source, source.quantity - quantity, now)]
        == t.items[k := Restocked(source, source.quantity - quantity, now)] + [copy];
  }

  /** The row `.eq('id', itemId).single()` reads, when the read succeeds. */
  lemma SourceRow(t: Tables, itemId: string, f: TransferFaults) returns (k: nat)
    requires WellFormed(t)
    requires SelectItemResult(t, HasId(itemId), f.sourceRead).Ok?
    ensures k < |t.items| && t.items[k].id == itemId
    ensures SelectItemResult(t, HasId(itemId), f.sourceRead) == Ok(t.items[k])
  {
    k := Single(t.items, HasId(itemId)).value;
  }

  /**
   * A transfer that succeeds drew `quantity` units from the row `itemId`, which held at least
   * that many, and moved them to the target warehouse; the ledgers and warehouses are untouched.
   */
  lemma TransferSucceeded(t: Tables, itemId: string, target: string, quantity: int, now: Timestamp,
                          newId: string, f: TransferFaults)
    requires WellFormed(t)
    requires TransferStep(t, itemId, target, quantity, now, newId, f).result.Ok?
    ensures exists k, j :: (0 <= k < |t.items| && t.items[k].id == itemId && quantity <= t.items[k].quantity &&
      MovedFrom(t.items, k, j, target, quantity, now, newId, TransferStep(t, itemId, target, quantity, now, newId, f).tables.items))
    ensures TransferStep(t, itemId, target, quantity, now, newId, f).tables.(items := t.items) == t
  {
    var k := SourceRow(t, itemId, f);
    assert TransferStep(t, itemId, target, quantity, now, newId, f) == MoveStock(t, t.items[k], target, quantity, now, newId, f);
    if SelectItemResult(t, NamedIn(t.items[k].name, target), f.targetRead).Ok? {
      MoveStockIntoExisting(t, k, target, quantity, now, newId, f);
    } else {
      MoveStockIntoCopy(t, k, target, quantity, now, newId, f);
    }
  }

  /**
   * Stock is conserved: a successful transfer leaves the total quantity, and the total of
   * every product across warehouses, as they were.
   */
  lemma TransferConservesStock(t: Tables, itemId: string, target: string, quantity: int, now: Timestamp,
                               newId: string, f: TransferFaults)
    requires WellFormed(t)
    ensures var after := TransferStep(t, itemId, target, quantity, now, newId, f);
      after.result.Ok? ==>
        && TotalQuantity(after.tables.items) == TotalQuantity(t.items)
        && forall name :: NameTotal(after.tables.items, name) == NameTotal(t.items, name)
  {
    var after := TransferStep(t, itemId, target, quantity, now, newId, f);
    if after.result.Ok? {
      TransferSucceeded(t, itemId, target, quantity, now, newId, f);
      var k, j :| 0 <= k < |t.items| && t.items[k].id == itemId && quantity <= t.items[k].quantity &&
        MovedFrom(t.items, k, j, target, quantity, now, newId, after.tables.items);
      MovedFromConserves(t.items, k, j, target, quantity, now, newId, after.tables.items);
    }
  }

  /**
   * The refusals: a missing source row and a source holding too little are reported before
   * any write, so nothing changes.
   */
  lemma TransferRefusals(t: Tables, itemId: string, target: string, quantity: int, now: Timestamp,
                         newId: string, f: TransferFaults)
    requires WellFormed(t)
    ensures var s := TransferStep(t, itemId, target, quantity, now, newId, f);
      && (f.sourceRead.Some? || !HasKey(t.items, ItemId, itemId) ==> s == Step(Err(ItemNotFound), t))
      && (forall k :: f.sourceRead.None? && 0 <= k < |t.items| && t.items[k].id == itemId && t.items[k].quantity < quantity ==>
            s == Step(Err(InsufficientQuantity), t))
  {
    SingleById(t.items, itemId);
  }

  /**
   * A transfer that fails changes nothing, except in one case: the store took the inserted
   * copy and then refused the upsert.  The copy stays and the source keeps all its units, so
   * `quantity` units of that product appear from nowhere.
   */
  lemma TransferFailed(t: Tables, itemId: string, target: string, quantity: int, now: Timestamp,
                       newId: string, f: TransferFaults)
    requires WellFormed(t)
    requires TransferStep(t, itemId, target, quantity, now, newId, f).result.Err?
    ensures var s := TransferStep(t, itemId, target, quantity, now, newId, f);
      || s.tables == t
      || (exists k :: (0 <= k < |t.items| && t.items[k].id == itemId && quantity <= t.items[k].quantity
            && f.upsert == Some(s.result.error)
            && s.tables == t.(items := t.items + [TransferredCopy(t.items[k], newId, quantity, target, now)])
            && NameTotal(s.tables.items, t.items[k].name) == NameTotal(t.items, t.items[k].name) + quantity))
  {
    var s := TransferStep(t, itemId, target, quantity, now, newId, f);
    if s.tables != t {
      var k := Single(t.items, HasId(itemId)).value;
      var source := t.items[k];
      var copy := TransferredCopy(source, newId, quantity, target, now);
      assert s.tables == t.(items := t.items + [copy]);
      SumBySnoc(t.items, copy, NamedQuantity(source.name));
    }
  }

  /**
   * Moving stock to the warehouse that holds it, when the source is the only row of its
   * name there: both updates name the same row, the store refuses the upsert, nothing changes.
   */
  lemma TransferWithinWarehouse(t: Tables, k: nat, quantity: int, now: Timestamp, newId: string, f: TransferFaults)
    requires WellFormed(t)
    requires k < |t.items| && quantity <= t.items[k].quantity
    requires f.sourceRead.None? && f.targetRead.None? && f.upsert.None?
    requires forall j :: 0 <= j < |t.items| && j != k ==>
      !(t.items[j].name == t.items[k].name && t.items[j].warehouse_id == t.items[k].warehouse_id)
    ensures TransferStep(t, t.items[k].id, t.items[k].warehouse_id, quantity, now, newId, f) == Step(Err(RowAffectedTwice), t)
  {
    var source := t.items[k];
    SingleById(t.items, source.id);
    assert Single(t.items, HasId(source.id)) == Some(k) by {
      var m := Single(t.items, HasId(source.id)).value;
      assert ItemId(t.items[m]) == ItemId(t.items[k]);
    }
    assert NamedIn(source.name, source.warehouse_id)(source);
    assert Single(t.items, NamedIn(source.name, source.warehouse_id)) == Some(k);
    var u := [QuantityUpdate(source.id, source.quantity - quantity, now)] + [QuantityUpdate(source.id, source.quantity + quantity, now)];
    assert !UniqueKeys(u, UpdateId) by {
      assert UpdateId(u[0]) == UpdateId(u[1]);
    }
    assert MoveStock(t, source, source.warehouse_id, quantity, now, newId, f) == MoveIntoRow(t, source, source, quantity, now, f);
  }

  // ---------------------------------------------------------------------------------------
  // transferItem made one transaction

  /** `transferItem` as the single transaction it sets out to be: a failure undoes the earlier writes. */
  function AtomicTransferStep(t: Tables, itemId: string, target: string, quantity: int, now: Timestamp,
                              newId: string, f: TransferFaults): Step<()>
  {
    var s := TransferStep(t, itemId, target, quantity, now, newId, f);
    if s.result.Err? then Step(s.result, t) else s
  }

  /** Stock is conserved by the transactional transfer whatever the store refuses. */
  lemma AtomicTransferConservesStock(t: Tables, itemId: string, target: string, quantity: int, now: Timestamp,
                                     newId: string, f: TransferFaults)
    requires WellFormed(t)
    ensures var s := AtomicTransferStep(t, itemId, target, quantity, now, newId, f);
      && (s.result.Err? ==> s.tables == t)
      && TotalQuantity(s.tables.items) == TotalQuantity(t.items)
      && forall name :: NameTotal(s.tables.items, name) == NameTotal(t.items, name)
  {
    TransferConservesStock(t, itemId, target, quantity, now, newId, f);
  }

  /**
   * The discrepancy, on one row: 100 units, 30 of them sent to an empty warehouse, the store
   * refusing the final upsert.  After the failed call the product totals 130 units.
   */
  lemma FailedTransferCreatesStock()
    ensures var item := InventoryItem("a", "Soap", "Health", 100, 599, None, "w1", 20, "t0", "t0");
      var t := Tables([item], [], [], []);
      var f := TransferFaults(None, None, None, Some(ErrorInstance("network")));
      var s := TransferStep(t, "a", "w2", 30, "t1", "b", f);
      s.result.Err? && NameTotal(t.items, "Soap") == 100 && NameTotal(s.tables.items, "Soap") == 130
  {
    var item := InventoryItem("a", "Soap", "Health", 100, 599, None, "w1", 20, "t0", "t0");
    var copy := TransferredCopy(item, "b", 30, "w2", "t1");
    FailedTransferKeepsCopy(item, copy);
    SumBySnoc([], item, NamedQuantity("Soap"));
    assert [] + [item] == [item];
    SumBySnoc([item], copy, NamedQuantity("Soap"));
  }

  /** The run of `FailedTransferCreatesStock`: the copy is inserted, then the upsert fails. */
  lemma FailedTransferKeepsCopy(item: InventoryItem, copy: InventoryItem)
    requires item == InventoryItem("a", "Soap", "Health", 100, 599, None, "w1", 20, "t0", "t0")
    requires copy == TransferredCopy(item, "b", 30, "w2", "t1")
    ensures var t := Tables([item], [], [], []);
      var f := TransferFaults(None, None, None, Some(ErrorInstance("network")));
      TransferStep(t, "a", "w2", 30, "t1", "b", f) == Step(Err(ErrorInstance("network")), t.(items := [item] + [copy]))
  {
    var t := Tables([item], [], [], []);
    var f := TransferFaults(None, None, None, Some(ErrorInstance("network")));
    FailedTransferReads(item);
    assert !HasKey(t.items, ItemId, "b");
    assert InsertItemStep(t, copy, None) == Step(Ok(copy), t.(items := [item] + [copy]));
    assert MoveIntoCopy(t, item, "w2", 30, "t1", "b", f) == Step(Err(ErrorInstance("network")), t.(items := [item] + [copy]));
  }

  /** The two reads of that run: the source row is found, the target warehouse has no such row. */
  lemma FailedTransferReads(item: InventoryItem)
    requires item == InventoryItem("a", "Soap", "Health", 100, 599, None, "w1", 20, "t0", "t0")
    ensures SelectItemResult(Tables([item], [], [], []), HasId("a"), None) == Ok(item)
    ensures SelectItemResult(Tables([item], [], [], []), NamedIn("Soap", "w2"), None).Err?
  {
    assert HasId("a")(item) && !NamedIn("Soap", "w2")(item);
    MatchesOfOne(item, HasId("a"));
    MatchesOfOne(item, NamedIn("Soap", "w2"));
  }

  // ---------------------------------------------------------------------------------------
  // addSaleRecord and addWastageRecord

  /**
   * A recorded sale appends exactly its ledger row and takes its quantity off the sold row
   * (nothing checks the row holds that many), and off no other row.  A sale the store
   * refuses to record changes nothing; a sale whose decrement is refused stays recorded.
   */
  lemma SaleTakesStock(t: Tables, sale: NewSale, newId: string, now: Timestamp, f: LedgerFaults)
    requires WellFormed(t)
    ensures var s := AddSaleStep(t, sale, newId, now, f);
      && (s.result.Ok? <==> f.insert.None? && !HasKey(t.sales, SaleId, newId) && f.update.None?)
      && (s.result.Ok? ==>
            && s.result.value == SaleRow(sale, newId)
            && s.tables.sales == t.sales + [SaleRow(sale, newId)]
            && s.tables.warehouses == t.warehouses && s.tables.wastage == t.wastage
            && |s.tables.items| == |t.items|
            && (forall i :: 0 <= i < |t.items| ==>
                  s.tables.items[i] == if t.items[i].id == sale.item_id
                    then Restocked(t.items[i], t.items[i].quantity - sale.quantity, now) else t.items[i])
            && TotalQuantity(s.tables.items) == TotalQuantity(t.items) - (if HasKey(t.items, ItemId, sale.item_id) then sale.quantity else 0))
      && ((f.insert.Some? || HasKey(t.sales, SaleId, newId)) ==> s.tables == t)
      && (f.insert.None? && !HasKey(t.sales, SaleId, newId) && f.update.Some? ==>
            s.tables == t.(sales := t.sales + [SaleRow(sale, newId)]))
  {
    DecrementedTotal(t.items, sale.item_id, sale.quantity, now);
  }

  /** The same two requests against the wastage ledger, with the same outcome. */
  lemma WastageTakesStock(t: Tables, w: NewWastage, newId: string, now: Timestamp, f: LedgerFaults)
    requires WellFormed(t)
    ensures var s := AddWastageStep(t, w, newId, now, f);
      && (s.result.Ok? <==> f.insert.None? && !HasKey(t.wastage, WastageId, newId) && f.update.None?)
      && (s.result.Ok? ==>
            && s.result.value == WastageRow(w, newId)
            && s.tables.wastage == t.wastage + [WastageRow(w, newId)]
            && s.tables.warehouses == t.warehouses && s.tables.sales == t.sales
            && |s.tables.items| == |t.items|
            && (forall i :: 0 <= i < |t.items| ==>
                  s.tables.items[i] == if t.items[i].id == w.item_id
                    then Restocked(t.items[i], t.items[i].quantity - w.quantity, now) else t.items[i])
            && TotalQuantity(s.tables.items) == TotalQuantity(t.items) - (if HasKey(t.items, ItemId, w.item_id) then w.quantity else 0))
      && ((f.insert.Some? || HasKey(t.wastage, WastageId, newId)) ==> s.tables == t)
      && (f.insert.None? && !HasKey(t.wastage, WastageId, newId) && f.update.Some? ==>
            s.tables == t.(wastage := t.wastage + [WastageRow(w, newId)]))
  {
    DecrementedTotal(t.items, w.item_id, w.quantity, now);
  }

  // ---------------------------------------------------------------------------------------
  // The item and warehouse operations

  /**
   * An added item is listed by the next ordered read, and is the only change; the store
   * refuses it only on a failure of its own or an id already in use.
   */
  lemma AddedItemIsListed(t: Tables, item: NewItem, newId: string, now: Timestamp, fault: Option<Thrown>)
    requires WellFormed(t)
    ensures var s := InsertItemStep(t, ItemRow(item, newId, now), fault);
      && (s.result.Ok? <==> fault.None? && !HasKey(t.items, ItemId, newId))
      && (s.result.Ok? ==>
            && s.result.value.created_at == now && s.result.value.updated_at == now
            && s.result.value in InventoryResult(s.tables, None).value
            && multiset(InventoryResult(s.tables, None).value) == multiset(t.items) + multiset{s.result.value}
            && s.tables.(items := t.items) == t)
      && (s.result.Err? ==> s.tables == t)
  {
    var s := InsertItemStep(t, ItemRow(item, newId, now), fault);
    SortByCorrect(s.tables.items, ItemName);
    if s.result.Ok? {
      assert s.result.value in multiset(s.tables.items);
    }
  }

  /**
   * A successful update rewrites the one row with that id and no other: supplied fields
   * overwrite, the others stay, `updated_at` becomes the current time.  It succeeds exactly
   * when the store does not fail, the row exists, and a new id it sets is not in use.
   */
  lemma UpdateItemRewritesOneRow(t: Tables, id: string, patch: ItemPatch, now: Timestamp, fault: Option<Thrown>)
    requires WellFormed(t)
    ensures var s := UpdateItemStep(t, id, patch, now, fault);
      && (s.result.Ok? <==>
            fault.None? && HasKey(t.items, ItemId, id) &&
            !(patch.id.Some? && patch.id.value != id && HasKey(t.items, ItemId, patch.id.value)))
      && (s.result.Ok? ==> exists k :: (0 <= k < |t.items| && t.items[k].id == id
            && s.tables == t.(items := t.items[k := s.result.value])
            && s.result.value == PatchItem(t.items[k], patch).(updated_at := now)))
      && (s.result.Err? ==> s.tables == t)
  {
    SingleById(t.items, id);
  }

  /** `updateItem` with no fields keeps the row's contents and only stamps it. */
  lemma EmptyUpdateOnlyStamps(t: Tables, id: string, now: Timestamp)
    requires WellFormed(t)
    ensures var s := UpdateItemStep(t, id, ItemPatch(None, None, None, None, None, None, None, None, None), now, None);
      s.result.Ok? ==> exists k :: (0 <= k < |t.items| && s.result.value == t.items[k].(updated_at := now))
  {
    SingleById(t.items, id);
  }

  /**
   * Deleting by id removes the row with that id, if any, keeps every other row in order, and
   * reports success whenever the store does not fail, whether or not a row was removed.
   */
  lemma DeleteItemRemovesRow(t: Tables, id: string, fault: Option<Thrown>)
    requires WellFormed(t)
    ensures var s := DeleteItemsStep(t, id, fault);
      && (s.result.Ok? <==> fault.None?)
      && (s.result.Ok? ==>
            && !HasKey(s.tables.items, ItemId, id)
            && |s.tables.items| == (if HasKey(t.items, ItemId, id) then |t.items| - 1 else |t.items|)
            && IsSubsequence(s.tables.items, t.items)
            && (forall x :: x in t.items && x.id != id ==> x in s.tables.items)
            && s.tables.(items := t.items) == t)
      && (s.result.Err? ==> s.tables == t)
  {
    var r := Filter(t.items, KeyIsNot(ItemId, id));
    DeleteByUniqueKey(t.items, ItemId, id);
    FilterIsSubsequence(t.items, KeyIsNot(ItemId, id));
    forall i | 0 <= i < |r|
      ensures ItemId(r[i]) != id
    {
      assert r[i] in r;
    }
  }

  lemma AddedWarehouseIsListed(t: Tables, w: NewWarehouse, newId: string, now: Timestamp, fault: Option<Thrown>)
    requires WellFormed(t)
    ensures var s := InsertWarehouseStep(t, WarehouseRow(w, newId, now), fault);
      && (s.result.Ok? <==> fault.None? && !HasKey(t.warehouses, WarehouseKey, newId))
      && (s.result.Ok? ==>
            && s.result.value in WarehousesResult(s.tables, None).value
            && multiset(WarehousesResult(s.tables, None).value) == multiset(t.warehouses) + multiset{s.result.value}
            && s.tables.(warehouses := t.warehouses) == t)
      && (s.result.Err? ==> s.tables == t)
  {
    var s := InsertWarehouseStep(t, WarehouseRow(w, newId, now), fault);
    SortByCorrect(s.tables.warehouses, WarehouseName);
    if s.result.Ok? {
      assert s.result.value in multiset(s.tables.warehouses);
    }
  }

  lemma SingleByWarehouseId(ws: seq<Warehouse>, id: string)
    requires UniqueKeys(ws, WarehouseKey)
    ensures Single(ws, WarehouseHasId(id)).Some? <==> HasKey(ws, WarehouseKey, id)
    ensures Single(ws, WarehouseHasId(id)).Some? ==> ws[Single(ws, WarehouseHasId(id)).value].id == id
  {
    if HasKey(ws, WarehouseKey, id) {
      var k :| 0 <= k < |ws| && WarehouseKey(ws[k]) == id;
      assert WarehouseHasId(id)(ws[k]);
    }
  }

  /** A warehouse update rewrites that one warehouse; no timestamp is touched and no item moves. */
  lemma UpdateWarehouseRewritesOneRow(t: Tables, id: string, patch: WarehousePatch, fault: Option<Thrown>)
    requires WellFormed(t)
    ensures var s := UpdateWarehouseStep(t, id, patch, fault);
      && (s.result.Ok? <==>
            fault.None? && HasKey(t.warehouses, WarehouseKey, id) &&
            !(patch.id.Some? && patch.id.value != id && HasKey(t.warehouses, WarehouseKey, patch.id.value)))
      && (s.result.Ok? ==> exists k :: (0 <= k < |t.warehouses| && t.warehouses[k].id == id
            && s.tables == t.(warehouses := t.warehouses[k := s.result.value])
            && s.result.value == PatchWarehouse(t.warehouses[k], patch)))
      && (s.result.Err? ==> s.tables == t)
  {
    SingleByWarehouseId(t.warehouses, id);
  }

  /**
   * Deleting a warehouse removes that row only: the items stocked there keep their
   * `warehouse_id` (the store's foreign keys are not part of this model).
   */
  lemma DeleteWarehouseRemovesRow(t: Tables, id: string, fault: Option<Thrown>)
    requires WellFormed(t)
    ensures var s := DeleteWarehousesStep(t, id, fault);
      && (s.result.Ok? <==> fault.None?)
      && (s.result.Ok? ==>
            && !HasKey(s.tables.warehouses, WarehouseKey, id)
            && |s.tables.warehouses| == (if HasKey(t.warehouses, WarehouseKey, id) then |t.warehouses| - 1 else |t.warehouses|)
            && IsSubsequence(s.tables.warehouses, t.warehouses)
            && s.tables.(warehouses := t.warehouses) == t)
      && (s.result.Err? ==> s.tables == t)
  {
    var r := Filter(t.warehouses, KeyIsNot(WarehouseKey, id));
    DeleteByUniqueKey(t.warehouses, WarehouseKey, id);
    FilterIsSubsequence(t.warehouses, KeyIsNot(WarehouseKey, id));
    forall i | 0 <= i < |r|
      ensures WarehouseKey(r[i]) != id
    {
      assert r[i] in r;
    }
  }
}
