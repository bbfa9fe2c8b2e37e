/**
 The inventory tables and the SQL statements that the inventory repositories issue
 (internal/inventory/adapter/postgres/inventory_repo.go). Each statement is atomic. The columns that no
 decision depends on (sku, timestamps, reference ids) are left out. A row id is the position of the row in
 its table, which stands for a fresh UUID.
 */
module InventoryDb {

  /** inventory is UNIQUE(product_id, warehouse_id), so the pair is the key of a row. */
  datatype Key = Key(productId: string, warehouseId: string)

  datatype Row = Row(onHand: int, reserved: int, version: int) {
    function Available(): int {
      onHand - reserved
    }
  }

  datatype ReservationStatus = Reserved | Released

  datatype Reservation = Reservation(orderId: string, key: Key, quantity: int, status: ReservationStatus)

  datatype MovementType = In | Out | Reserve | Release

  datatype Movement = Movement(key: Key, kind: MovementType, quantity: int)

  datatype Db = Db(rows: map<Key, Row>, reservations: seq<Reservation>, movements: seq<Movement>)

  const EMPTY := Db(map[], [], [])

  /** The WHERE clause of ReserveQuantity. */
  predicate ReserveMatches(db: Db, key: Key, quantity: int, expectedVersion: int) {
    key in db.rows && db.rows[key].version == expectedVersion && db.rows[key].Available() >= quantity
  }

  /** Adds to quantity_reserved and bumps the version; no matching row means no change. */
  function ReserveQuantity(db: Db, key: Key, quantity: int, expectedVersion: int): Db {
    if ReserveMatches(db, key, quantity, expectedVersion) then
      var row := db.rows[key];
      db.(rows := db.rows[key := row.(reserved := row.reserved + quantity, version := row.version + 1)])
    else db
  }

  /** The WHERE clause of UpdateStock. */
  predicate StockMatches(db: Db, key: Key, expectedVersion: int) {
    key in db.rows && db.rows[key].version == expectedVersion
  }

  function UpdateStock(db: Db, key: Key, change: int, expectedVersion: int): Db {
    if StockMatches(db, key, expectedVersion) then
      var row := db.rows[key];
      db.(rows := db.rows[key := row.(onHand := row.onHand + change, version := row.version + 1)])
    else db
  }

  /** The WHERE clause of ReleaseQuantity: the version plays no part. */
  predicate ReleaseMatches(db: Db, key: Key, quantity: int) {
    key in db.rows && db.rows[key].reserved >= quantity
  }

  /** Takes from quantity_reserved and leaves the version alone. */
  function ReleaseQuantity(db: Db, key: Key, quantity: int): Db {
    if ReleaseMatches(db, key, quantity) then
      var row := db.rows[key];
      db.(rows := db.rows[key := row.(reserved := row.reserved - quantity)])
    else db
  }

  /** The INSERT of a fresh stock row: the first quantity given is the stock on hand. */
  function CreateRow(db: Db, key: Key, quantity: int): Db
    requires key !in db.rows
  {
    db.(rows := db.rows[key := Row(quantity, 0, 0)])
  }

  function InsertReservation(db: Db, orderId: string, key: Key, quantity: int): Db {
    db.(reservations := db.reservations + [Reservation(orderId, key, quantity, Reserved)])
  }

  function InsertMovement(db: Db, movement: Movement): Db {
    db.(movements := db.movements + [movement])
  }

  /** UpdateStatus(id, "released"): unconditional on the status found. */
  function SetReleased(db: Db, id: nat): Db
    requires id < |db.reservations|
  {
    db.(reservations := db.reservations[id := db.reservations[id].(status := Released)])
  }
}
