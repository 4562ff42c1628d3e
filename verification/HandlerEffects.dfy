/** What each handler does to the tables, for every database and every event: when it acts, the
    rows it writes, and everything it leaves alone, in terms of the rows and columns themselves. */
module HandlerEffects {
  import opened SagaTypes
  import O = OrderModel
  import I = InventoryModel
  import P = PaymentModel
  import Saga
  import SagaSteps
  import Stock = StockConservation

  // ----- inventory

  /** The units asked for are on hand: a known product, a positive quantity, an exact fit included. */
  predicate OnHand(db: I.InventoryDb, productId: string, quantity: int) {
    productId in db.inventory && 0 < quantity <= db.inventory[productId].quantity - db.inventory[productId].reserved
  }

  /** OrderCreated is granted exactly when the units are on hand; then the product's reserved units
      grow by the quantity and no other stock row moves. Otherwise no stock moves and the
      rejection says why. */
  lemma OrderCreatedEffect(db: I.InventoryDb, e: Event, reservationId: Id, eventId: Id)
    requires e.OrderCreated? && e.id !in db.processed
    ensures
      var (db', report) := I.OnOrderCreated(db, e, reservationId, eventId);
      && report == Done && db'.processed == db.processed + {e.id} && db'.inventory.Keys == db.inventory.Keys
      && (forall p :: p in db.inventory && p != e.productId ==> db'.inventory[p] == db.inventory[p])
      && (|db'.reservations| == |db.reservations| + 1 <==> OnHand(db, e.productId, e.quantity))
      && (OnHand(db, e.productId, e.quantity) ==>
            && db'.reservations ==
               db.reservations + [I.ReservationRow(reservationId, e.orderId, e.productId, e.quantity, I.Reserved)]
            && db'.inventory[e.productId].reserved == db.inventory[e.productId].reserved + e.quantity
            && db'.inventory[e.productId].quantity == db.inventory[e.productId].quantity
            && db'.outbox == db.outbox + [OutboxRow(StockReserved(eventId, e.orderId, e.productId, e.quantity,
                 reservationId, e.customerId, e.totalAmount), RowStatus.Pending, 0)])
      && (!OnHand(db, e.productId, e.quantity) ==>
            && db'.reservations == db.reservations && db'.inventory == db.inventory
            && db'.outbox == db.outbox + [OutboxRow(StockReserveFailed(eventId, e.orderId, e.productId, e.quantity,
                 if e.productId !in db.inventory then "product not found"
                 else if e.quantity <= 0 then "quantity must be greater than 0"
                 else "insufficient stock"), RowStatus.Pending, 0)])
  {
  }

  /** One turn of a closing loop moves stock exactly when the row is RESERVED, its product known,
      its quantity positive, and, for a commit, that many units reserved. */
  predicate Movable(db: I.InventoryDb, h: nat, completed: bool)
    requires h < |db.reservations|
  {
    var r := db.reservations[h];
    && r.status == I.Reserved && r.productId in db.inventory && r.quantity > 0
    && (completed ==> r.quantity <= db.inventory[r.productId].reserved)
  }

  lemma ClosingTurnEffect(db: I.InventoryDb, h: nat, completed: bool)
    requires h < |db.reservations|
    ensures
      var db' := I.ResolveRow(db, h, if completed then I.Committed else I.Released);
      var r := db.reservations[h];
      && (!Movable(db, h, completed) ==> db' == db)
      && (Movable(db, h, completed) ==>
            && (var row, row' := db.inventory[r.productId], db'.inventory[r.productId];
                && row'.quantity == row.quantity - (if completed then r.quantity else 0)
                && row'.reserved == (if r.quantity <= row.reserved then row.reserved - r.quantity else 0))
            && db'.inventory.Keys == db.inventory.Keys && |db'.reservations| == |db.reservations|
            && (forall p :: p in db.inventory && p != r.productId ==> db'.inventory[p] == db.inventory[p])
            && db'.reservations[h] ==
               I.ReservationRow(r.id, r.orderId, r.productId, r.quantity, if completed then I.Committed else I.Released)
            && (forall k: nat :: k < |db.reservations| && k != h ==> db'.reservations[k] == db.reservations[k])
            && db'.outbox == db.outbox && db'.processed == db.processed)
  {
  }

  // ----- order

  /** An order is accepted exactly when no field is empty or non-positive. Then it is stored
      PENDING together with its OrderCreated row; otherwise nothing is stored and the first
      offending field is reported. */
  lemma CreateEffect(db: O.OrderDb, o: Id, eventId: Id, customerId: string, productId: string,
                     quantity: int, totalAmount: real)
    ensures
      var (db', report) := O.OnCreate(db, o, eventId, customerId, productId, quantity, totalAmount);
      && (report == Done <==> customerId != "" && productId != "" && quantity > 0 && totalAmount > 0.0)
      && (report == Done ==>
            && db'.orders == db.orders[o := O.OrderRow(customerId, productId, quantity, totalAmount,
                                                       O.OrderStatus.Pending)]
            && db'.outbox == db.outbox + [OutboxRow(OrderCreated(eventId, o, customerId, productId, quantity,
                 totalAmount), RowStatus.Pending, 0)]
            && db'.processed == db.processed)
      && (report != Done ==>
            && db' == db
            && report == Failed(if customerId == "" then InvalidCustomerId
                                else if productId == "" then InvalidProductId
                                else if quantity <= 0 then InvalidQuantity
                                else InvalidTotalAmount))
  {
  }

  /** The statuses from which an order follows an event, and the status it comes to. */
  predicate Follows(from: O.OrderStatus, e: Event, to: O.OrderStatus) {
    || (e.StockReserved? && from == O.OrderStatus.Pending && to == O.Confirmed)
    || (e.PaymentCompleted? && from == O.Confirmed && to == O.Completed)
    || ((e.PaymentFailed? || e.StockReserveFailed?) && from != O.Completed && to == O.Cancelled)
  }

  /** An order event that is new and whose transition is allowed moves its order, is marked and
      announced; any other leaves the database, the marks included, as it was. */
  lemma OrderEventEffect(db: O.OrderDb, e: Event, eventId: Id)
    requires Routes(OrderService, e)
    ensures
      var (db', report) := O.Handle(db, e, eventId);
      && (report == Done <==> e.id !in db.processed && e.orderId in db.orders
                              && exists to :: Follows(db.orders[e.orderId].status, e, to))
      && (report == Done ==>
            && db'.processed == db.processed + {e.id} && db'.orders.Keys == db.orders.Keys
            && (forall o :: o in db.orders && o != e.orderId ==> db'.orders[o] == db.orders[o])
            && (var row, row' := db.orders[e.orderId], db'.orders[e.orderId];
                && Follows(row.status, e, row'.status)
                && row' == O.OrderRow(row.customerId, row.productId, row.quantity, row.totalAmount, row'.status))
            && db'.outbox == db.outbox +
               (if e.PaymentCompleted? then [OutboxRow(OrderCompleted(eventId, e.orderId), RowStatus.Pending, 0)]
                else if e.PaymentFailed?
                then [OutboxRow(OrderCancelled(eventId, e.orderId, e.reason), RowStatus.Pending, 0)]
                else []))
      && (report != Done ==>
            && db' == db
            && report == if e.id in db.processed then Duplicate
                         else if e.orderId !in db.orders then Failed(OrderNotFound)
                         else Ignored)
  {
    if e.id !in db.processed && e.orderId in db.orders && O.Transition(db.orders[e.orderId].status, e).Ok? {
      assert Follows(db.orders[e.orderId].status, e, O.Transition(db.orders[e.orderId].status, e).value);
    }
  }

  // ----- payment

  /** A new StockReserved of a positive amount is charged or declined: one payment row, one event
      and the mark, with the amount, the customer and the id as given. A non-positive amount
      leaves nothing behind. */
  lemma ChargeEffect(db: P.PaymentDb, e: Event, paymentId: Id, eventId: Id, declines: bool)
    requires e.StockReserved? && e.id !in db.processed
    ensures
      var (db', report) := P.OnStockReserved(db, e, paymentId, eventId, declines);
      && (e.totalAmount <= 0.0 ==> db' == db && report == Report.Failed(InvalidAmount))
      && (e.totalAmount > 0.0 ==> report == Done && db'.processed == db.processed + {e.id})
      && (e.totalAmount > 0.0 && declines ==>
            && db'.payments == db.payments + [P.PaymentRow(paymentId, e.orderId, e.customerId, e.totalAmount,
                 P.PaymentStatus.Failed, "Payment declined by provider")]
            && db'.outbox == db.outbox + [OutboxRow(PaymentFailed(eventId, e.orderId,
                 "Payment declined by provider"), RowStatus.Pending, 0)])
      && (e.totalAmount > 0.0 && !declines ==>
            && db'.payments == db.payments + [P.PaymentRow(paymentId, e.orderId, e.customerId, e.totalAmount,
                 P.PaymentStatus.Completed, "")]
            && db'.outbox == db.outbox + [OutboxRow(PaymentCompleted(eventId, e.orderId, paymentId,
                 e.totalAmount), RowStatus.Pending, 0)])
  {
  }

  /** Row `i` is the payment that a cancellation of `o` finds. */
  ghost predicate Finds(ps: seq<P.PaymentRow>, o: Id, i: nat) {
    i < |ps| && ps[i].orderId == o && forall k: nat :: k < i ==> ps[k].orderId != o
  }

  /** A new OrderCancelled refunds the payment it finds exactly when that is COMPLETED, touches
      no other row, announces nothing, and is marked in any case. */
  lemma RefundEffect(db: P.PaymentDb, e: Event)
    requires e.OrderCancelled? && e.id !in db.processed
    ensures
      var (db', report) := P.OnOrderCancelled(db, e);
      && report == Done && db'.processed == db.processed + {e.id} && db'.outbox == db.outbox
      && |db'.payments| == |db.payments|
      && forall i: nat :: i < |db.payments| ==>
           var p := db.payments[i];
           db'.payments[i] ==
           if Finds(db.payments, e.orderId, i) && p.status == P.Completed
           then P.PaymentRow(p.id, p.orderId, p.customerId, p.amount, P.Refunded, p.failureReason)
           else p
  {
  }

  // ----- events that come again

  /** A delivery of an event that is marked already changes nothing at any service. */
  lemma DuplicateEffect(odb: O.OrderDb, idb: I.InventoryDb, pdb: P.PaymentDb, e: Event, c: Choice)
    ensures Routes(OrderService, e) && e.id in odb.processed ==> O.Handle(odb, e, c.eventId) == (odb, Duplicate)
    ensures Routes(InventoryService, e) && e.id in idb.processed ==>
              I.Handle(idb, e, c.rowId, c.eventId) == (idb, Duplicate)
    ensures Routes(PaymentService, e) && e.id in pdb.processed ==>
              P.Handle(pdb, e, c.rowId, c.eventId, c.declines) == (pdb, Duplicate)
  {
  }

  // ----- all or nothing

  /** Whatever the handler and however its transaction ends: the mark, the rows and the event are
      committed together by one service, or the world is as it was. */
  lemma CommitOrNothing(w: Saga.World, s: Service, e: Event, c: Choice)
    requires Routes(s, e)
    ensures
      var (w', report) := Saga.HandleAt(w, s, e, c);
      && (report == Done ==>
            && c.commits && e.id !in SagaSteps.Processed(w, s)
            && SagaSteps.Processed(w', s) == SagaSteps.Processed(w, s) + {e.id}
            && w'.published == w.published
            && (s != OrderService ==> w'.order == w.order)
            && (s != InventoryService ==> w'.inv == w.inv)
            && (s != PaymentService ==> w'.pay == w.pay))
      && (report != Done ==> w' == w)
      && (!c.commits && e.id !in SagaSteps.Processed(w, s) ==> report.Failed? || report.Ignored?)
  {
    if s == InventoryService && !e.OrderCreated? && e.id !in w.inv.processed {
      Stock.ResolveRowsLength(w.inv.(processed := w.inv.processed + {e.id}), I.RowsOf(w.inv.reservations, e.orderId),
                              if e.OrderCompleted? then I.Committed else I.Released);
    }
  }
}
