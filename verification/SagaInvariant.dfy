/** The inductive invariant of the composed saga. Each order is shadowed by a Track, the state of
    a small automaton; the invariant says that the three databases are exactly what the tracks
    say, so the saga refines independent copies of that automaton. */
module SagaInvariant {
  import opened SagaTypes
  import opened Saga
  import O = OrderModel
  import I = InventoryModel
  import P = PaymentModel
  import Stock = StockConservation

  /** How far one order has come: the events written for it, the marks its subscribers have
      committed, and the positions of its reservation and payment rows. A `stock` event exists
      once inventory has marked `created`, a `payment` event once payment has marked `stock`,
      a `closing` event once order has marked `payment`. */
  datatype Track = Track(
    created: Event,
    stock: Option<Event>,
    payment: Option<Event>,
    closing: Option<Event>,
    stockSeen: bool,        // order has marked `stock`
    closingSeen: bool,      // inventory has marked `closing`
    refundSeen: bool,       // payment has marked `closing`
    reservation: Option<nat>,
    charge: Option<nat>)

  ghost predicate InTrack(k: Track, e: Event) {
    e == k.created || k.stock == Some(e) || k.payment == Some(e) || k.closing == Some(e)
  }

  function StatusOf(k: Track): O.OrderStatus {
    if k.closing.Some? then (if k.closing.value.OrderCompleted? then O.Completed else O.Cancelled)
    else if k.stockSeen && k.stock.Some? then (if k.stock.value.StockReserved? then O.Confirmed else O.Cancelled)
    else O.OrderStatus.Pending
  }

  /** The automaton's states, and the order row each one stands for. */
  ghost predicate TrackOk(o: Id, row: O.OrderRow, k: Track) {
    && row.customerId != "" && row.productId != "" && row.quantity > 0 && row.totalAmount > 0.0
    && k.created == OrderCreated(k.created.id, o, row.customerId, row.productId, row.quantity, row.totalAmount)
    && (k.stockSeen ==> k.stock.Some?)
    && (k.stock.Some? ==>
          var e := k.stock.value;
          if e.StockReserved?
          then e == StockReserved(e.id, o, row.productId, row.quantity,
                                  e.reservationId, row.customerId, row.totalAmount)
          else e.StockReserveFailed? && e == StockReserveFailed(e.id, o, row.productId, row.quantity, e.reason))
    && (k.payment.Some? ==>
          var e := k.payment.value;
          && k.stock.Some? && k.stock.value.StockReserved?
          && if e.PaymentCompleted? then e == PaymentCompleted(e.id, o, e.paymentId, row.totalAmount)
             else e == PaymentFailed(e.id, o, DECLINED))
    && (k.closing.Some? ==>
          var e := k.closing.value;
          && k.payment.Some? && e.orderId == o
          && if k.payment.value.PaymentCompleted? then e.OrderCompleted? && k.stockSeen
             else e == OrderCancelled(e.id, o, DECLINED))
    && (k.closingSeen ==> k.closing.Some?)
    && (k.refundSeen ==> k.closing.Some? && k.closing.value.OrderCancelled?)
    && row.status == StatusOf(k)
  }

  /** A rejected reservation names the reason: the product is unknown, or there was too little of it. */
  ghost predicate RejectionOk(k: Track, products: set<string>) {
    k.stock.Some? && k.stock.value.StockReserveFailed? ==>
      k.stock.value.reason ==
      Message(if k.stock.value.productId in products then InsufficientStock else ProductNotFound)
  }

  /** The processed_events tables say what the track says. */
  ghost predicate MarksOk(k: Track, atOrder: set<Id>, atInventory: set<Id>, atPayment: set<Id>) {
    && (k.created.id in atInventory <==> k.stock.Some?)
    && (k.stock.Some? ==> (k.stock.value.id in atOrder <==> k.stockSeen))
    && (k.stock.Some? ==> (k.stock.value.id in atPayment <==> k.payment.Some?))
    && (k.payment.Some? ==> (k.payment.value.id in atOrder <==> k.closing.Some?))
    && (k.closing.Some? ==> (k.closing.value.id in atInventory <==> k.closingSeen))
    && (k.closing.Some? ==> (k.closing.value.id in atPayment <==> k.refundSeen))
  }

  function ReservationStatusOf(k: Track): I.ReservationStatus {
    if !k.closingSeen || k.closing.None? then I.Reserved
    else if k.closing.value.OrderCompleted? then I.Committed
    else I.Released
  }

  ghost predicate ReservationOk(o: Id, k: Track, rs: seq<I.ReservationRow>) {
    && (k.reservation.Some? <==> k.stock.Some? && k.stock.value.StockReserved?)
    && (k.reservation.Some? ==>
          && k.reservation.value < |rs|
          && rs[k.reservation.value] == I.ReservationRow(k.stock.value.reservationId, o, k.stock.value.productId,
                                                         k.stock.value.quantity, ReservationStatusOf(k)))
  }

  ghost predicate ChargeOk(o: Id, k: Track, ps: seq<P.PaymentRow>) {
    && (k.charge.Some? <==> k.payment.Some?)
    && (k.charge.Some? && k.stock.Some? && k.stock.value.StockReserved? ==>
          && k.charge.value < |ps|
          && var p := ps[k.charge.value];
             if k.payment.value.PaymentCompleted?
             then p == P.PaymentRow(k.payment.value.paymentId, o, k.stock.value.customerId,
                                    k.stock.value.totalAmount, P.Completed, "")
             else p == P.PaymentRow(p.id, o, k.stock.value.customerId,
                                    k.stock.value.totalAmount, P.PaymentStatus.Failed, DECLINED))
  }

  /** Every event ever written, by id: the union of the three outboxes. */
  type Log = map<Id, Event>

  ghost predicate Logged(log: Log, e: Event) {
    e.id in log && log[e.id] == e
  }

  ghost predicate HasRow(rows: seq<OutboxRow>, e: Event) {
    exists i: nat :: i < |rows| && rows[i].event == e
  }

  ghost predicate TrackLogged(k: Track, log: Log) {
    && Logged(log, k.created)
    && (k.stock.Some? ==> Logged(log, k.stock.value))
    && (k.payment.Some? ==> Logged(log, k.payment.value))
    && (k.closing.Some? ==> Logged(log, k.closing.value))
  }

  ghost predicate LogOk(w: World, t: map<Id, Track>, log: Log) {
    forall id :: id in log ==>
      && log[id].id == id
      && log[id].orderId in t && InTrack(t[log[id].orderId], log[id])
      && HasRow(Rows(w, Home(log[id])), log[id])
  }

  ghost predicate RowsOk(rows: seq<OutboxRow>, s: Service, published: set<Event>, log: Log) {
    && (forall i: nat :: i < |rows| ==>
          && Logged(log, rows[i].event) && Home(rows[i].event) == s
          && rows[i].retryCount <= MAX_RETRY_COUNT
          && (rows[i].status == RowStatus.Sent ==> rows[i].event in published))
    && (forall i: nat, j: nat :: i < j < |rows| ==> rows[i].event.id != rows[j].event.id)
  }

  ghost predicate ProcessedOk(processed: set<Id>, s: Service, log: Log) {
    forall id :: id in processed ==> id in log && Routes(s, log[id])
  }

  ghost predicate TracksOk(w: World, t: map<Id, Track>, log: Log) {
    && t.Keys == w.order.orders.Keys
    && (forall o :: o in t ==>
          && TrackOk(o, w.order.orders[o], t[o])
          && MarksOk(t[o], w.order.processed, w.inv.processed, w.pay.processed)
          && ReservationOk(o, t[o], w.inv.reservations)
          && RejectionOk(t[o], w.inv.inventory.Keys)
          && ChargeOk(o, t[o], w.pay.payments)
          && TrackLogged(t[o], log))
  }

  ghost predicate TablesOk(w: World, t: map<Id, Track>) {
    && (forall i: nat :: i < |w.inv.reservations| ==>
          w.inv.reservations[i].orderId in t && t[w.inv.reservations[i].orderId].reservation == Some(i))
    && (forall i: nat :: i < |w.pay.payments| ==>
          w.pay.payments[i].orderId in t && t[w.pay.payments[i].orderId].charge == Some(i))
  }

  ghost predicate MessagesOk(w: World, t: map<Id, Track>, log: Log) {
    && LogOk(w, t, log)
    && (forall s: Service :: RowsOk(Rows(w, s), s, w.published, log))
    && (forall e :: e in w.published ==> Logged(log, e))
    && ProcessedOk(w.order.processed, OrderService, log)
    && ProcessedOk(w.inv.processed, InventoryService, log)
    && ProcessedOk(w.pay.processed, PaymentService, log)
  }

  ghost predicate Inv(w: World, t: map<Id, Track>, log: Log, initial: map<string, int>) {
    && TracksOk(w, t, log)
    && TablesOk(w, t)
    && MessagesOk(w, t, log)
    && Stock.Conserved(w.inv, initial)
  }

  lemma InitInv(w: World, initial: map<string, int>)
    requires Init(w, initial)
    ensures Inv(w, map[], map[], initial)
  {
    Stock.FreshConserved(w.inv, initial);
    assert forall s: Service :: Rows(w, s) == [];
  }
}
