/** The inventory service in imperative form: domain objects that change in place
    and use-case methods that open a transaction, loop over rows and commit. */
module InventoryService {
  import opened SagaTypes
  import opened Messaging
  import M = InventoryModel

  class Inventory {
    const productId: string
    var quantity: int
    var reservedQuantity: int

    constructor (productId: string, row: M.InventoryRow)
      ensures this.productId == productId && Row() == row
    {
      this.productId := productId;
      quantity, reservedQuantity := row.quantity, row.reserved;
    }

    function Row(): M.InventoryRow
      reads this
    {
      M.InventoryRow(quantity, reservedQuantity)
    }

    method Reserve(q: int) returns (err: Option<Error>)
      modifies this
      ensures err.Some? ==> Row() == old(Row())
      ensures err == if q <= 0 then Some(InvalidQuantity)
                     else if q > old(quantity) - old(reservedQuantity) then Some(InsufficientStock)
                     else None
      ensures err.None? ==> Row() == M.InventoryRow(old(quantity), old(reservedQuantity) + q)
      ensures M.Reserve(old(Row()), q) == if err.Some? then Err(err.value) else Ok(Row())
    {
      if q <= 0 {
        return Some(InvalidQuantity);
      }
      if !(quantity - reservedQuantity >= q) {
        return Some(InsufficientStock);
      }
      reservedQuantity := reservedQuantity + q;
      return None;
    }

    method Release(q: int) returns (err: Option<Error>)
      modifies this
      ensures err.Some? ==> Row() == old(Row())
      ensures err == if q <= 0 then Some(InvalidQuantity) else None
      ensures err.None? ==> quantity == old(quantity)
      ensures err.None? && q <= old(reservedQuantity) ==> reservedQuantity == old(reservedQuantity) - q
      ensures err.None? && q > old(reservedQuantity) ==> reservedQuantity == 0
      ensures M.Release(old(Row()), q) == if err.Some? then Err(err.value) else Ok(Row())
    {
      if q <= 0 {
        return Some(InvalidQuantity);
      }
      if reservedQuantity < q {
        reservedQuantity := 0;
      } else {
        reservedQuantity := reservedQuantity - q;
      }
      return None;
    }

    method Commit(q: int) returns (err: Option<Error>)
      modifies this
      ensures err.Some? ==> Row() == old(Row())
      ensures err == if q <= 0 then Some(InvalidQuantity)
                     else if q > old(reservedQuantity) then Some(InsufficientStock)
                     else None
      ensures err.None? ==> Row() == M.InventoryRow(old(quantity) - q, old(reservedQuantity) - q)
      ensures M.Commit(old(Row()), q) == if err.Some? then Err(err.value) else Ok(Row())
    {
      if q <= 0 {
        return Some(InvalidQuantity);
      }
      if reservedQuantity < q {
        return Some(InsufficientStock);
      }
      quantity := quantity - q;
      reservedQuantity := reservedQuantity - q;
      return None;
    }
  }

  class Reservation {
    const id: Id
    const orderId: Id
    const productId: string
    const quantity: int
    var status: M.ReservationStatus

    constructor (row: M.ReservationRow)
      ensures Row() == row
    {
      id, orderId, productId, quantity, status := row.id, row.orderId, row.productId, row.quantity, row.status;
    }

    function Row(): M.ReservationRow
      reads this
    {
      M.ReservationRow(id, orderId, productId, quantity, status)
    }

    method Release()
      modifies this
      ensures Row() == old(Row()).(status := M.Released)
    {
      status := M.Released;
    }

    method Commit()
      modifies this
      ensures Row() == old(Row()).(status := M.Committed)
    {
      status := M.Committed;
    }

    predicate IsReserved()
      reads this
    {
      status == M.Reserved
    }
  }

  /** The SELECT of a reservation list: scans the table and appends the rows of one order. */
  method FindByOrderIDForUpdate(rs: seq<M.ReservationRow>, orderId: Id) returns (hs: seq<nat>)
    ensures hs == M.RowsOf(rs, orderId)
  {
    hs := [];
    for i := 0 to |rs|
      invariant hs == M.RowsOf(rs[..i], orderId)
    {
      assert rs[..i + 1][..i] == rs[..i];
      if rs[i].orderId == orderId {
        hs := hs + [i];
      }
    }
    assert rs[..|rs|] == rs;
  }

  /** One turn of the release or commit loop, as the handlers' branches take it. */
  lemma TurnResolves(start: M.InventoryDb, hs: seq<nat>, k: nat, to: M.ReservationStatus)
    requires k < |hs| && hs[k] < |M.ResolveRows(start, hs[..k], to).reservations|
    ensures
      var db := M.ResolveRows(start, hs[..k], to);
      var r := db.reservations[hs[k]];
      M.ResolveRows(start, hs[..k + 1], to) ==
      if r.status != M.Reserved || r.productId !in db.inventory then db
      else match M.Resolve(db.inventory[r.productId], r.quantity, to)
        case Err(_) => db
        case Ok(row) => db.(inventory := db.inventory[r.productId := row],
                            reservations := db.reservations[hs[k] := r.(status := to)])
  {
    assert hs[..k + 1][..k] == hs[..k];
  }

  class InventoryUseCase {
    var inventory: map<string, M.InventoryRow>
    var reservations: seq<M.ReservationRow>
    var outbox: seq<OutboxRow>
    var processed: set<Id>

    constructor (inventory: map<string, M.InventoryRow>)
      ensures State() == M.InventoryDb(inventory, [], [], {})
    {
      this.inventory := inventory;
      reservations, outbox, processed := [], [], {};
    }

    function State(): M.InventoryDb
      reads this
    {
      M.InventoryDb(inventory, reservations, outbox, processed)
    }

    method HandleOrderCreated(eventId: Id, orderId: Id, productId: string, customerId: string,
                              quantity: int, totalAmount: real,
                              newReservation: Id, newEvent: Id, commits: bool)
      returns (r: Report)
      modifies this
      ensures (State(), r) ==
              Settled(old(State()),
                      M.OnOrderCreated(old(State()),
                                       OrderCreated(eventId, orderId, customerId, productId, quantity, totalAmount),
                                       newReservation, newEvent),
                      commits)
    {
      var tx := new Tx.Begin(processed, outbox);
      var marked := tx.CheckAndMark(eventId);
      if !marked {
        return Duplicate;
      }
      if productId !in inventory {
        tx.PublishInTx(StockReserveFailed(newEvent, orderId, productId, quantity, Message(ProductNotFound)));
        if !commits {
          return Failed(TransactionAborted);
        }
        processed, outbox := tx.processed, tx.outbox;
        return Done;
      }
      var stock := new Inventory(productId, inventory[productId]);
      var err := stock.Reserve(quantity);
      if err.Some? {
        tx.PublishInTx(StockReserveFailed(newEvent, orderId, productId, quantity, Message(err.value)));
        if !commits {
          return Failed(TransactionAborted);
        }
        processed, outbox := tx.processed, tx.outbox;
        return Done;
      }
      var inventory' := inventory[stock.productId := stock.Row()];
      if quantity <= 0 {
        return Failed(InvalidQuantity);
      }
      var reservation := new Reservation(M.ReservationRow(newReservation, orderId, productId, quantity, M.Reserved));
      var reservations' := reservations + [reservation.Row()];
      tx.PublishInTx(StockReserved(newEvent, orderId, productId, quantity, reservation.id, customerId, totalAmount));
      if !commits {
        return Failed(TransactionAborted);
      }
      inventory, reservations, processed, outbox := inventory', reservations', tx.processed, tx.outbox;
      return Done;
    }

    method HandleOrderCancelled(eventId: Id, orderId: Id, reason: string, commits: bool) returns (r: Report)
      modifies this
      ensures (State(), r) ==
              Settled(old(State()), M.OnOrderClosed(old(State()), OrderCancelled(eventId, orderId, reason)), commits)
    {
      var tx := new Tx.Begin(processed, outbox);
      var marked := tx.CheckAndMark(eventId);
      if !marked {
        return Duplicate;
      }
      var hs := FindByOrderIDForUpdate(reservations, orderId);
      ghost var start := M.InventoryDb(inventory, reservations, outbox, tx.processed);
      var inventory', reservations' := inventory, reservations;
      assert M.ResolveRows(start, hs[..0], M.Released) == start;
      hide M.ResolveRow, M.ResolveRows;
      for k := 0 to |hs|
        invariant tx.outbox == outbox && |reservations'| == |reservations| && unchanged(this)
        invariant M.InventoryDb(inventory', reservations', tx.outbox, tx.processed)
               == M.ResolveRows(start, hs[..k], M.Released)
      {
        assert hs[k] in hs;
        TurnResolves(start, hs, k, M.Released);
        var reservation := new Reservation(reservations'[hs[k]]);
        if !reservation.IsReserved() {
          continue;
        }
        if reservation.productId !in inventory' {
          continue;
        }
        var stock := new Inventory(reservation.productId, inventory'[reservation.productId]);
        var err := stock.Release(reservation.quantity);
        if err.Some? {
          continue;
        }
        inventory' := inventory'[stock.productId := stock.Row()];
        reservation.Release();
        reservations' := reservations'[hs[k] := reservation.Row()];
      }
      assert hs[..|hs|] == hs;
      if !commits {
        return Failed(TransactionAborted);
      }
      inventory, reservations, processed := inventory', reservations', tx.processed;
      return Done;
    }

    method HandleOrderCompleted(eventId: Id, orderId: Id, commits: bool) returns (r: Report)
      modifies this
      ensures (State(), r) ==
              Settled(old(State()), M.OnOrderClosed(old(State()), OrderCompleted(eventId, orderId)), commits)
    {
      var tx := new Tx.Begin(processed, outbox);
      var marked := tx.CheckAndMark(eventId);
      if !marked {
        return Duplicate;
      }
      var hs := FindByOrderIDForUpdate(reservations, orderId);
      ghost var start := M.InventoryDb(inventory, reservations, outbox, tx.processed);
      var inventory', reservations' := inventory, reservations;
      assert M.ResolveRows(start, hs[..0], M.Committed) == start;
      hide M.ResolveRow, M.ResolveRows;
      for k := 0 to |hs|
        invariant tx.outbox == outbox && |reservations'| == |reservations| && unchanged(this)
        invariant M.InventoryDb(inventory', reservations', tx.outbox, tx.processed)
               == M.ResolveRows(start, hs[..k], M.Committed)
      {
        assert hs[k] in hs;
        TurnResolves(start, hs, k, M.Committed);
        var reservation := new Reservation(reservations'[hs[k]]);
        if !reservation.IsReserved() {
          continue;
        }
        if reservation.productId !in inventory' {
          continue;
        }
        var stock := new Inventory(reservation.productId, inventory'[reservation.productId]);
        var err := stock.Commit(reservation.quantity);
        if err.Some? {
          continue;
        }
        inventory' := inventory'[stock.productId := stock.Row()];
        reservation.Commit();
        reservations' := reservations'[hs[k] := reservation.Row()];
      }
      assert hs[..|hs|] == hs;
      if !commits {
        return Failed(TransactionAborted);
      }
      inventory, reservations, processed := inventory', reservations', tx.processed;
      return Done;
    }
  }
}
