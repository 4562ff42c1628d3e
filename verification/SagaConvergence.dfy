/** Where the saga comes to rest, and that it can always get there. */
module SagaConvergence {
  import opened SagaTypes
  import opened OutboxTable
  import opened Saga
  import opened SagaInvariant
  import opened SagaReachable
  import opened SagaTheorems
  import SagaSteps
  import O = OrderModel
  import I = InventoryModel
  import P = PaymentModel
  import Stock = StockConservation

  ghost predicate AllSent(w: World) {
    forall s: Service, i: nat :: i < |Rows(w, s)| ==> Rows(w, s)[i].status == RowStatus.Sent
  }

  /** Everything is sent, and delivering any published message again changes nothing. */
  ghost predicate Quiescent(w: World) {
    && AllSent(w)
    && (forall s: Service, e: Event, c: Choice ::
          e in w.published && Routes(s, e) && FreshId(w, c.eventId) ==> HandleAt(w, s, e, c).0 == w)
  }

  /** The order's only reservation is row `i`. */
  ghost predicate OnlyReservation(w: World, o: Id, i: nat) {
    forall j: nat :: j < |w.inv.reservations| ==> (w.inv.reservations[j].orderId == o <==> j == i)
  }

  ghost predicate OnlyPayment(w: World, o: Id, i: nat) {
    forall j: nat :: j < |w.pay.payments| ==> (w.pay.payments[j].orderId == o <==> j == i)
  }

  /** One reservation of the order's product and quantity in status `rst`, one payment of its
      amount in status `pst`. */
  ghost predicate Resolved(w: World, o: Id, rst: I.ReservationStatus, pst: P.PaymentStatus)
    requires o in w.order.orders
  {
    var row := w.order.orders[o];
    exists i: nat, j: nat ::
      && OnlyReservation(w, o, i) && OnlyPayment(w, o, j)
      && i < |w.inv.reservations| && j < |w.pay.payments|
      && w.inv.reservations[i].productId == row.productId && w.inv.reservations[i].quantity == row.quantity
      && w.inv.reservations[i].status == rst
      && w.pay.payments[j].amount == row.totalAmount && w.pay.payments[j].status == pst
  }

  ghost predicate Untouched(w: World, o: Id) {
    && (forall j: nat :: j < |w.inv.reservations| ==> w.inv.reservations[j].orderId != o)
    && (forall j: nat :: j < |w.pay.payments| ==> w.pay.payments[j].orderId != o)
  }

  /** The three ways an order can end. */
  ghost predicate Ended(w: World, o: Id)
    requires o in w.order.orders
  {
    || (w.order.orders[o].status == O.Completed && Resolved(w, o, I.Committed, P.Completed))
    || (w.order.orders[o].status == O.Cancelled && Resolved(w, o, I.Released, P.PaymentStatus.Failed))
    || (w.order.orders[o].status == O.Cancelled && Untouched(w, o))
  }

  // ----- a fresh id always exists

  function MaxId(rows: seq<OutboxRow>): (m: nat)
    ensures forall i: nat :: i < |rows| ==> rows[i].event.id <= m
  {
    if rows == [] then 0
    else
      var n := |rows| - 1;
      var m := MaxId(rows[..n]);
      if rows[n].event.id > m then rows[n].event.id else m
  }

  lemma FreshIdExists(w: World) returns (id: Id)
    ensures FreshId(w, id)
  {
    id := MaxId(w.order.outbox) + MaxId(w.inv.outbox) + MaxId(w.pay.outbox) + 1;
    forall s: Service, i: nat | i < |Rows(w, s)| ensures Rows(w, s)[i].event.id != id {
      match s
      case OrderService => assert w.order.outbox[i].event.id <= MaxId(w.order.outbox);
      case InventoryService => assert w.inv.outbox[i].event.id <= MaxId(w.inv.outbox);
      case PaymentService => assert w.pay.outbox[i].event.id <= MaxId(w.pay.outbox);
    }
  }

  // ----- convergence

  /** A redelivery that changes nothing: the event is marked, or its transition is refused. */
  lemma StillDelivery(w: World, s: Service, e: Event, c: Choice)
    requires Routes(s, e) && c.commits && HandleAt(w, s, e, c).0 == w
    ensures HandleAt(w, s, e, c).1 != Done || e.id in SagaSteps.Processed(w, s)
  {
    if s == InventoryService && !e.OrderCreated? && e.id !in w.inv.processed {
      Stock.ResolveRowsLength(w.inv.(processed := w.inv.processed + {e.id}),
                              I.RowsOf(w.inv.reservations, e.orderId),
                              if e.OrderCompleted? then I.Committed else I.Released);
    }
    if s == OrderService {
      assert HandleAt(w, s, e, c).0.order == w.order;
    } else if s == InventoryService {
      assert HandleAt(w, s, e, c).0.inv == w.inv;
    } else {
      assert HandleAt(w, s, e, c).0.pay == w.pay;
    }
  }

  /** Every message of order `o` is with the broker, and delivering one again changes nothing. */
  ghost predicate OrderQuiet(w: World, o: Id) {
    && AllPublished(w, o)
    && (forall s: Service, e: Event, c: Choice ::
          e in w.published && e.orderId == o && Routes(s, e) && FreshId(w, c.eventId) ==> HandleAt(w, s, e, c).0 == w)
  }

  ghost predicate AllPublished(w: World, o: Id) {
    forall s: Service, i: nat :: i < |Rows(w, s)| && Rows(w, s)[i].event.orderId == o ==>
      Rows(w, s)[i].event in w.published
  }

  /** When its order is quiet, every event of a track has been published and delivered. */
  lemma Delivered(w: World, t: map<Id, Track>, log: Log, initial: map<string, int>, s: Service, e: Event)
    requires Inv(w, t, log, initial) && OrderQuiet(w, e.orderId) && Logged(log, e) && Routes(s, e)
    ensures e in w.published
    ensures e.id in SagaSteps.Processed(w, s) ||
            (s == OrderService && e.orderId in w.order.orders && O.Transition(w.order.orders[e.orderId].status, e).Err?)
  {
    hide Inv, FreshId;
    LoggedFacts(w, t, log, initial, e);
    var i: nat :| i < |Rows(w, Home(e))| && Rows(w, Home(e))[i].event == e;
    assert Rows(w, Home(e))[i].event in w.published;
    var id := FreshIdExists(w);
    var c := Choice(id, 0, false, true);
    assert HandleAt(w, s, e, c).0 == w;
    StillDelivery(w, s, e, c);
    SagaSteps.Local(w, t, log, initial, e);
  }

  /** An order that is quiet has ended, whatever the other orders are doing. */
  lemma OrderEnds(w: World, t: map<Id, Track>, log: Log, initial: map<string, int>, o: Id)
    requires Inv(w, t, log, initial) && OrderQuiet(w, o) && o in w.order.orders
    ensures Ended(w, o)
  {
    hide Inv, OrderQuiet;
    TrackFacts(w, t, log, initial, o);
    TableFacts(w, t, log, initial);
    var k := t[o];
    Delivered(w, t, log, initial, InventoryService, k.created);
    var stock := k.stock.value;
    Delivered(w, t, log, initial, OrderService, stock);
    if stock.StockReserved? {
      Delivered(w, t, log, initial, PaymentService, stock);
      Delivered(w, t, log, initial, OrderService, k.payment.value);
      Delivered(w, t, log, initial, InventoryService, k.closing.value);
      var i, j := k.reservation.value, k.charge.value;
      assert OnlyReservation(w, o, i) && OnlyPayment(w, o, j);
    }
  }

  lemma QuiescentIsQuiet(w: World, t: map<Id, Track>, log: Log, initial: map<string, int>, o: Id)
    requires Inv(w, t, log, initial) && Quiescent(w)
    ensures OrderQuiet(w, o)
  {
    hide Inv, FreshId, HandleAt;
    forall s: Service, i: nat | i < |Rows(w, s)| ensures Rows(w, s)[i].event in w.published {
      RowFacts(w, t, log, initial, s, i);
    }
  }

  /** Convergence: in every reachable quiescent state each order has ended in one of three ways. */
  lemma Convergence(w: World, initial: map<string, int>)
    requires Reachable(w, initial) && Quiescent(w)
    ensures forall o :: o in w.order.orders ==> Ended(w, o)
  {
    hide Inv, Reachable, Quiescent, OrderQuiet;
    var t, log := ReachableInv(w, initial);
    forall o | o in w.order.orders ensures Ended(w, o) {
      QuiescentIsQuiet(w, t, log, initial, o);
      OrderEnds(w, t, log, initial, o);
    }
  }

  /** At rest nothing is left undelivered: every event has been handled by each service that it
      concerns, but for a StockReserved that came to its order after the cancellation. */
  lemma RestIsDelivered(w: World, initial: map<string, int>, s: Service, i: nat)
    requires Reachable(w, initial) && Quiescent(w) && i < |Rows(w, s)|
    ensures
      var e := Rows(w, s)[i].event;
      && e.orderId in w.order.orders
      && (e.OrderCreated? || e.OrderCompleted? || e.OrderCancelled? ==> e.id in w.inv.processed)
      && (e.StockReserved? || e.OrderCancelled? ==> e.id in w.pay.processed)
      && (e.StockReserveFailed? || e.PaymentCompleted? || e.PaymentFailed? ==> e.id in w.order.processed)
      && (e.StockReserved? ==> e.id in w.order.processed || w.order.orders[e.orderId].status == O.Cancelled)
  {
    hide Inv, Reachable, Quiescent, OrderQuiet, OnlyReservation, OnlyPayment;
    var t, log := ReachableInv(w, initial);
    var e := Rows(w, s)[i].event;
    RowFacts(w, t, log, initial, s, i);
    QuiescentIsQuiet(w, t, log, initial, e.orderId);
    TrackFacts(w, t, log, initial, e.orderId);
    OrderEnds(w, t, log, initial, e.orderId);
    if e.OrderCreated? || e.OrderCompleted? || e.OrderCancelled? {
      Delivered(w, t, log, initial, InventoryService, e);
    } else {
      Delivered(w, t, log, initial, OrderService, e);
    }
    if e.StockReserved? || e.OrderCancelled? {
      Delivered(w, t, log, initial, PaymentService, e);
    }
  }
}
