/**
 * The records of the application (src/types/index.ts) and the values its operations throw.
 * Prices are integer cents; timestamps are opaque strings supplied by an abstract clock.
 */
module Types {
  import opened Options

  type Timestamp = string

  /** A row of the `inventory` table. */
  datatype InventoryItem = InventoryItem(
    id: string,
    name: string,
    category: string,
    quantity: int,
    price: int,
    expiry_date: Option<string>,
    warehouse_id: string,
    threshold: int,
    created_at: Timestamp,
    updated_at: Timestamp)

  /** A row of the `warehouses` table. */
  datatype Warehouse = Warehouse(id: string, name: string, location: string, created_at: Timestamp)

  /** A row of the `wastage_records` ledger. */
  datatype WastageRecord = WastageRecord(id: string, item_id: string, quantity: int, reason: string, date: Timestamp)

  /** A row of the `sales_records` ledger. */
  datatype SaleRecord = SaleRecord(
    id: string, item_id: string, quantity: int, price_per_unit: int, total_price: int, date: Timestamp)

  /** `Omit<InventoryItem, 'id' | 'created_at' | 'updated_at'>`: what `addItem` is given. */
  datatype NewItem = NewItem(
    name: string, category: string, quantity: int, price: int,
    expiry_date: Option<string>, warehouse_id: string, threshold: int)

  /** `Omit<Warehouse, 'id' | 'created_at'>`. */
  datatype NewWarehouse = NewWarehouse(name: string, location: string)

  /** `Omit<WastageRecord, 'id'>`. */
  datatype NewWastage = NewWastage(item_id: string, quantity: int, reason: string, date: Timestamp)

  /** `Omit<SaleRecord, 'id'>`. */
  datatype NewSale = NewSale(item_id: string, quantity: int, price_per_unit: int, total_price: int, date: Timestamp)

  /**
   * `Partial<InventoryItem>`: a field is None when the caller did not supply it.  `updated_at`
   * has no slot because `updateItem` always overwrites it; `expiry_date` is nullable, so
   * `Some(None)` sets it to null.
   */
  datatype ItemPatch = ItemPatch(
    id: Option<string>,
    name: Option<string>,
    category: Option<string>,
    quantity: Option<int>,
    price: Option<int>,
    expiry_date: Option<Option<string>>,
    warehouse_id: Option<string>,
    threshold: Option<int>,
    created_at: Option<Timestamp>)

  /** `Partial<Warehouse>`. */
  datatype WarehousePatch = WarehousePatch(
    id: Option<string>, name: Option<string>, location: Option<string>, created_at: Option<Timestamp>)

  /**
   * What an operation throws: an `Error` instance (which carries `.message`) or any other
   * value, such as the plain error object a store query returns.
   */
  datatype Thrown = ErrorInstance(message: string) | PlainObject(description: string)

  /** The settled state of an awaited promise: resolved with a value or rejected with a thrown value. */
  datatype Result<+T> = Ok(value: T) | Err(error: Thrown)

  function ItemId(item: InventoryItem): string { item.id }
  function ItemName(item: InventoryItem): string { item.name }
  function WarehouseKey(w: Warehouse): string { w.id }
  function WarehouseName(w: Warehouse): string { w.name }
  function SaleId(r: SaleRecord): string { r.id }
  function WastageId(r: WastageRecord): string { r.id }
}
