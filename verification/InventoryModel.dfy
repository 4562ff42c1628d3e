/** The inventory database as a value, and what each handler does to it as one transaction. */
module InventoryModel {
  import opened SagaTypes

  datatype ReservationStatus = Reserved | Released | Committed

  datatype InventoryRow = InventoryRow(quantity: int, reserved: int)

  datatype ReservationRow = ReservationRow(id: Id, orderId: Id, productId: string, quantity: int,
                                           status: ReservationStatus)

  datatype InventoryDb = InventoryDb(
    inventory: map<string, InventoryRow>,
    reservations: seq<ReservationRow>,
    outbox: seq<OutboxRow>,
    processed: set<Id>)

  // ----- one stock row

  function Reserve(row: InventoryRow, quantity: int): Result<InventoryRow> {
    if quantity <= 0 then Err(InvalidQuantity)
    else if row.quantity - row.reserved < quantity then Err(InsufficientStock)
    else Ok(row.(reserved := row.reserved + quantity))
  }

  function Release(row: InventoryRow, quantity: int): Result<InventoryRow> {
    if quantity <= 0 then Err(InvalidQuantity)
    else if row.reserved < quantity then Ok(row.(reserved := 0))
    else Ok(row.(reserved := row.reserved - quantity))
  }

  function Commit(row: InventoryRow, quantity: int): Result<InventoryRow> {
    if quantity <= 0 then Err(InvalidQuantity)
    else if row.reserved < quantity then Err(InsufficientStock)
    else Ok(InventoryRow(row.quantity - quantity, row.reserved - quantity))
  }

  /** Release or Commit, according to the status the reservation is going to. */
  function Resolve(row: InventoryRow, quantity: int, to: ReservationStatus): Result<InventoryRow> {
    if to == Committed then Commit(row, quantity) else Release(row, quantity)
  }

  // ----- handlers

  /** The rows SELECT ... WHERE order_id finds, in table order. A row is named by its position. */
  function RowsOf(rs: seq<ReservationRow>, orderId: Id): (hs: seq<nat>)
    ensures forall h: nat :: h in hs <==> h < |rs| && rs[h].orderId == orderId
    ensures forall i, j :: 0 <= i < j < |hs| ==> hs[i] < hs[j]
  {
    if rs == [] then []
    else
      var n := |rs| - 1;
      var hs := RowsOf(rs[..n], orderId);
      assert forall i :: 0 <= i < |hs| ==> hs[i] in hs;
      if rs[n].orderId == orderId then hs + [n] else hs
  }

  /** One turn of the release or commit loop; every early exit leaves the row for good. */
  function ResolveRow(db: InventoryDb, h: nat, to: ReservationStatus): InventoryDb {
    if h >= |db.reservations| || db.reservations[h].status != Reserved then db
    else
      var r := db.reservations[h];
      if r.productId !in db.inventory then db
      else match Resolve(db.inventory[r.productId], r.quantity, to)
        case Err(_) => db
        case Ok(row) => db.(inventory := db.inventory[r.productId := row],
                            reservations := db.reservations[h := r.(status := to)])
  }

  /** The loop over the rows `hs`, first to last. */
  function ResolveRows(db: InventoryDb, hs: seq<nat>, to: ReservationStatus): InventoryDb {
    if hs == [] then db
    else ResolveRow(ResolveRows(db, hs[..|hs| - 1], to), hs[|hs| - 1], to)
  }

  function OnOrderCreated(db: InventoryDb, e: Event, reservationId: Id, eventId: Id): (InventoryDb, Report)
    requires e.OrderCreated?
  {
    if e.id in db.processed then (db, Duplicate)
    else
      var marked := db.(processed := db.processed + {e.id});
      var stock := if e.productId in db.inventory then Reserve(db.inventory[e.productId], e.quantity)
                   else Err(ProductNotFound);
      match stock
      case Err(error) =>
        var failed := StockReserveFailed(eventId, e.orderId, e.productId, e.quantity, Message(error));
        (marked.(outbox := db.outbox + [NewRow(failed)]), Done)
      case Ok(row) =>
        var r := ReservationRow(reservationId, e.orderId, e.productId, e.quantity, Reserved);
        var reserved := StockReserved(eventId, e.orderId, e.productId, e.quantity,
                                      reservationId, e.customerId, e.totalAmount);
        (marked.(inventory := db.inventory[e.productId := row],
                 reservations := db.reservations + [r],
                 outbox := db.outbox + [NewRow(reserved)]),
         Done)
  }

  /** OrderCancelled releases the order's reservations, OrderCompleted commits them. */
  function OnOrderClosed(db: InventoryDb, e: Event): (InventoryDb, Report)
    requires e.OrderCancelled? || e.OrderCompleted?
  {
    if e.id in db.processed then (db, Duplicate)
    else
      var to := if e.OrderCompleted? then Committed else Released;
      var marked := db.(processed := db.processed + {e.id});
      (ResolveRows(marked, RowsOf(db.reservations, e.orderId), to), Done)
  }

  function Handle(db: InventoryDb, e: Event, reservationId: Id, eventId: Id): (InventoryDb, Report)
    requires Routes(InventoryService, e)
  {
    if e.OrderCreated? then OnOrderCreated(db, e, reservationId, eventId) else OnOrderClosed(db, e)
  }
}
