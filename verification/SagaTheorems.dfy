/** What the saga promises in every reachable state, stated on the tables alone. */
module SagaTheorems {
  import opened SagaTypes
  import opened OutboxTable
  import opened Saga
  import opened SagaInvariant
  import opened SagaReachable
  import SagaSteps
  import O = OrderModel
  import I = InventoryModel
  import P = PaymentModel
  import Stock = StockConservation

  // ----- facts about one order

  lemma TrackFacts(w: World, t: map<Id, Track>, log: Log, initial: map<string, int>, o: Id)
    requires Inv(w, t, log, initial) && o in w.order.orders
    ensures o in t && TrackOk(o, w.order.orders[o], t[o]) && TrackLogged(t[o], log)
    ensures MarksOk(t[o], w.order.processed, w.inv.processed, w.pay.processed)
    ensures ReservationOk(o, t[o], w.inv.reservations) && ChargeOk(o, t[o], w.pay.payments)
    ensures RejectionOk(t[o], w.inv.inventory.Keys)
  {
    hide MessagesOk, TablesOk, Stock.Conserved;
  }

  lemma TableFacts(w: World, t: map<Id, Track>, log: Log, initial: map<string, int>)
    requires Inv(w, t, log, initial)
    ensures t.Keys == w.order.orders.Keys && TablesOk(w, t)
  {
    hide MessagesOk, Stock.Conserved;
  }

  lemma RowFacts(w: World, t: map<Id, Track>, log: Log, initial: map<string, int>, s: Service, i: nat)
    requires Inv(w, t, log, initial) && i < |Rows(w, s)|
    ensures
      var row := Rows(w, s)[i];
      && Logged(log, row.event) && Home(row.event) == s && row.retryCount <= MAX_RETRY_COUNT
      && (row.status == RowStatus.Sent ==> row.event in w.published)
      && row.event.orderId in t && row.event.orderId in w.order.orders && InTrack(t[row.event.orderId], row.event)
      && forall j: nat :: j < |Rows(w, s)| && Rows(w, s)[j].event.id == row.event.id ==> j == i
  {
    hide Stock.Conserved, TablesOk, ProcessedOk, HasRow, TrackOk, MarksOk, ReservationOk, ChargeOk, TrackLogged;
    assert RowsOk(Rows(w, s), s, w.published, log);
  }

  lemma LoggedFacts(w: World, t: map<Id, Track>, log: Log, initial: map<string, int>, e: Event)
    requires Inv(w, t, log, initial) && Logged(log, e)
    ensures HasRow(Rows(w, Home(e)), e)
  {
    hide Stock.Conserved, TracksOk, TablesOk, RowsOk, ProcessedOk;
  }

  // ----- cross-service safety

  ghost predicate Paid(w: World, o: Id, status: P.PaymentStatus, amount: real) {
    exists i: nat :: i < |w.pay.payments| && w.pay.payments[i].orderId == o
                     && w.pay.payments[i].status == status && w.pay.payments[i].amount == amount
  }

  ghost predicate Holds(w: World, o: Id, productId: string, quantity: int, statuses: set<I.ReservationStatus>) {
    exists i: nat :: i < |w.inv.reservations| && w.inv.reservations[i].orderId == o
                     && w.inv.reservations[i].productId == productId && w.inv.reservations[i].quantity == quantity
                     && w.inv.reservations[i].status in statuses
  }

  /** A completed order is paid for and holds its stock; a cancelled one has no completed payment. */
  lemma OrderSafety(w: World, initial: map<string, int>, o: Id)
    requires Reachable(w, initial) && o in w.order.orders
    ensures
      var row := w.order.orders[o];
      && (row.status == O.Completed ==>
            && Paid(w, o, P.Completed, row.totalAmount)
            && Holds(w, o, row.productId, row.quantity, {I.Reserved, I.Committed}))
      && (row.status == O.Cancelled ==>
            forall i: nat :: i < |w.pay.payments| && w.pay.payments[i].orderId == o ==>
              w.pay.payments[i].status == P.PaymentStatus.Failed)
  {
    hide Inv, Reachable;
    var t, log := ReachableInv(w, initial);
    TrackFacts(w, t, log, initial, o);
    TableFacts(w, t, log, initial);
    var row, k := w.order.orders[o], t[o];
    if row.status == O.Completed {
      assert w.pay.payments[k.charge.value].status == P.Completed;
      assert w.inv.reservations[k.reservation.value].status in {I.Reserved, I.Committed};
    }
    forall i: nat | i < |w.pay.payments| && w.pay.payments[i].orderId == o && row.status == O.Cancelled
      ensures w.pay.payments[i].status == P.PaymentStatus.Failed
    {
      assert k.charge == Some(i);
    }
  }

  /** Stock leaves only with a completed order, and comes back only for a cancelled, unpaid one. */
  lemma ReservationSafety(w: World, initial: map<string, int>, i: nat)
    requires Reachable(w, initial) && i < |w.inv.reservations|
    ensures
      var r := w.inv.reservations[i];
      && r.orderId in w.order.orders
      && var row := w.order.orders[r.orderId];
         && r.productId == row.productId && r.quantity == row.quantity
         && (r.status == I.Committed ==> row.status == O.Completed)
         && (r.status == I.Released ==>
               row.status == O.Cancelled && Paid(w, r.orderId, P.PaymentStatus.Failed, row.totalAmount))
  {
    hide Inv, Reachable;
    var t, log := ReachableInv(w, initial);
    TableFacts(w, t, log, initial);
    var o := w.inv.reservations[i].orderId;
    TrackFacts(w, t, log, initial, o);
    if w.inv.reservations[i].status == I.Released {
      assert w.pay.payments[t[o].charge.value].status == P.PaymentStatus.Failed;
    }
  }

  /** Payments mirror their orders and are never left pending or refunded. */
  lemma PaymentSafety(w: World, initial: map<string, int>, i: nat)
    requires Reachable(w, initial) && i < |w.pay.payments|
    ensures
      var p := w.pay.payments[i];
      && p.orderId in w.order.orders
      && p.amount == w.order.orders[p.orderId].totalAmount && p.customerId == w.order.orders[p.orderId].customerId
      && p.status in {P.Completed, P.PaymentStatus.Failed}
  {
    hide Inv, Reachable;
    var t, log := ReachableInv(w, initial);
    TableFacts(w, t, log, initial);
    TrackFacts(w, t, log, initial, w.pay.payments[i].orderId);
  }

  // ----- uniqueness

  ghost predicate Closing(e: Event) {
    e.OrderCompleted? || e.OrderCancelled?
  }

  /** No table has a unique index on order_id, yet each order has at most one reservation, one
      payment, and one row of each outbox decision. */
  lemma Uniqueness(w: World, initial: map<string, int>)
    requires Reachable(w, initial)
    ensures forall i: nat, j: nat |
              i < |w.inv.reservations| && j < |w.inv.reservations|
              && w.inv.reservations[i].orderId == w.inv.reservations[j].orderId
              :: i == j
    ensures forall i: nat, j: nat |
              i < |w.pay.payments| && j < |w.pay.payments|
              && w.pay.payments[i].orderId == w.pay.payments[j].orderId
              :: i == j
    ensures forall i: nat, j: nat |
              i < |w.inv.outbox| && j < |w.inv.outbox|
              && w.inv.outbox[i].event.orderId == w.inv.outbox[j].event.orderId
              :: i == j
    ensures forall i: nat, j: nat |
              i < |w.pay.outbox| && j < |w.pay.outbox|
              && w.pay.outbox[i].event.orderId == w.pay.outbox[j].event.orderId
              :: i == j
    ensures forall i: nat, j: nat |
              i < |w.order.outbox| && j < |w.order.outbox|
              && w.order.outbox[i].event.orderId == w.order.outbox[j].event.orderId
              && Closing(w.order.outbox[i].event) == Closing(w.order.outbox[j].event)
              :: i == j
  {
    hide Inv, Reachable;
    var t, log := ReachableInv(w, initial);
    TableFacts(w, t, log, initial);
    forall s: Service, i: nat, j: nat | i < |Rows(w, s)| && j < |Rows(w, s)|
        && Rows(w, s)[i].event.orderId == Rows(w, s)[j].event.orderId
        && Closing(Rows(w, s)[i].event) == Closing(Rows(w, s)[j].event)
      ensures i == j
    {
      SameRow(w, t, log, initial, s, i, j);
    }
    assert w.order.outbox == Rows(w, OrderService);
    assert w.inv.outbox == Rows(w, InventoryService);
    assert w.pay.outbox == Rows(w, PaymentService);
    forall i: nat | i < |w.inv.outbox| ensures !Closing(w.inv.outbox[i].event) {
      RowFacts(w, t, log, initial, InventoryService, i);
    }
    forall i: nat | i < |w.pay.outbox| ensures !Closing(w.pay.outbox[i].event) {
      RowFacts(w, t, log, initial, PaymentService, i);
    }
  }

  lemma SameRow(w: World, t: map<Id, Track>, log: Log, initial: map<string, int>, s: Service, i: nat, j: nat)
    requires Inv(w, t, log, initial) && i < |Rows(w, s)| && j < |Rows(w, s)|
    requires Rows(w, s)[i].event.orderId == Rows(w, s)[j].event.orderId
    requires Closing(Rows(w, s)[i].event) == Closing(Rows(w, s)[j].event)
    ensures i == j
  {
    hide Inv;
    RowFacts(w, t, log, initial, s, i);
    RowFacts(w, t, log, initial, s, j);
    TrackFacts(w, t, log, initial, Rows(w, s)[i].event.orderId);
  }

  // ----- the outboxes say exactly what the tables say

  ghost predicate Places(e: Event, o: Id, row: O.OrderRow) {
    e == OrderCreated(e.id, o, row.customerId, row.productId, row.quantity, row.totalAmount)
  }

  ghost predicate Reserves(e: Event, r: I.ReservationRow, row: O.OrderRow) {
    e == StockReserved(e.id, r.orderId, r.productId, r.quantity, r.id, row.customerId, row.totalAmount)
  }

  ghost predicate Charges(e: Event, p: P.PaymentRow) {
    if p.status == P.Completed then e == PaymentCompleted(e.id, p.orderId, p.id, p.amount)
    else p.status == P.PaymentStatus.Failed && e == PaymentFailed(e.id, p.orderId, p.failureReason)
  }

  ghost predicate PlacedRow(rows: seq<OutboxRow>, o: Id, row: O.OrderRow) {
    exists i: nat :: i < |rows| && Places(rows[i].event, o, row)
  }

  ghost predicate CompletedRow(rows: seq<OutboxRow>, o: Id) {
    exists i: nat :: i < |rows| && rows[i].event.OrderCompleted? && rows[i].event.orderId == o
  }

  ghost predicate CancelledRow(rows: seq<OutboxRow>, o: Id) {
    exists i: nat :: i < |rows| && rows[i].event.OrderCancelled? && rows[i].event.orderId == o
  }

  lemma ClosingRows(w: World, t: map<Id, Track>, log: Log, initial: map<string, int>, o: Id)
    requires Inv(w, t, log, initial) && o in w.order.orders
    ensures o in t
    ensures CompletedRow(w.order.outbox, o) <==> t[o].closing.Some? && t[o].closing.value.OrderCompleted?
    ensures CancelledRow(w.order.outbox, o) <==> t[o].closing.Some? && t[o].closing.value.OrderCancelled?
  {
    hide Inv;
    TrackFacts(w, t, log, initial, o);
    var k := t[o];
    if k.closing.Some? {
      LoggedFacts(w, t, log, initial, k.closing.value);
    }
    forall i: nat | i < |w.order.outbox| && w.order.outbox[i].event.orderId == o && Closing(w.order.outbox[i].event)
      ensures k.closing == Some(w.order.outbox[i].event)
    {
      RowFacts(w, t, log, initial, OrderService, i);
    }
  }

  /** An OrderCreated row for every order, an OrderCompleted row exactly for the completed
      ones, an OrderCancelled row exactly for the cancelled ones that reserved stock, with the
      reason for which the payment failed. */
  lemma OrderOutboxAtomic(w: World, initial: map<string, int>, o: Id)
    requires Reachable(w, initial) && o in w.order.orders
    ensures
      var row := w.order.orders[o];
      && PlacedRow(w.order.outbox, o, row)
      && (CompletedRow(w.order.outbox, o) <==> row.status == O.Completed)
      && (CancelledRow(w.order.outbox, o) <==> row.status == O.Cancelled && StockHeld(w, o))
      && (forall i: nat | i < |w.order.outbox| ::
            var e := w.order.outbox[i].event;
            e.OrderCancelled? && e.orderId == o ==> FailedFor(w, o, row.totalAmount, e.reason))
  {
    hide Inv, Reachable, CompletedRow, CancelledRow;
    var t, log := ReachableInv(w, initial);
    TrackFacts(w, t, log, initial, o);
    TableFacts(w, t, log, initial);
    var row, k := w.order.orders[o], t[o];
    LoggedFacts(w, t, log, initial, k.created);
    ClosingRows(w, t, log, initial, o);
    forall i: nat | i < |w.order.outbox| && w.order.outbox[i].event.OrderCancelled?
        && w.order.outbox[i].event.orderId == o
      ensures FailedFor(w, o, row.totalAmount, w.order.outbox[i].event.reason)
    {
      RowFacts(w, t, log, initial, OrderService, i);
      assert k.closing == Some(w.order.outbox[i].event);
      assert w.pay.payments[k.charge.value].failureReason == w.order.outbox[i].event.reason;
    }
    if k.reservation.Some? {
      assert w.inv.reservations[k.reservation.value].orderId == o;
    }
  }

  /** The order's payment failed for this reason. */
  ghost predicate FailedFor(w: World, o: Id, amount: real, reason: string) {
    exists i: nat :: i < |w.pay.payments| && w.pay.payments[i].orderId == o && w.pay.payments[i].amount == amount
                     && w.pay.payments[i].status == P.PaymentStatus.Failed
                     && w.pay.payments[i].failureReason == reason
  }

  ghost predicate StockHeld(w: World, o: Id) {
    exists i: nat :: i < |w.inv.reservations| && w.inv.reservations[i].orderId == o
  }

  /** Row `j` of the inventory outbox announces reservation `i`. */
  ghost predicate AnnouncesReservation(w: World, j: nat, i: nat) {
    && i < |w.inv.reservations| && j < |w.inv.outbox|
    && w.inv.reservations[i].orderId in w.order.orders
    && Reserves(w.inv.outbox[j].event, w.inv.reservations[i], w.order.orders[w.inv.reservations[i].orderId])
  }

  /** Every reservation has its StockReserved row, ... */
  lemma ReservationAnnounced(w: World, initial: map<string, int>, i: nat)
    requires Reachable(w, initial) && i < |w.inv.reservations|
    ensures exists j: nat :: AnnouncesReservation(w, j, i)
  {
    hide Inv, Reachable;
    var t, log := ReachableInv(w, initial);
    TableFacts(w, t, log, initial);
    var o := w.inv.reservations[i].orderId;
    TrackFacts(w, t, log, initial, o);
    LoggedFacts(w, t, log, initial, t[o].stock.value);
    var j: nat :| j < |w.inv.outbox| && w.inv.outbox[j].event == t[o].stock.value;
    assert AnnouncesReservation(w, j, i);
  }

  /** ... and every StockReserved row its reservation. */
  lemma AnnouncedReservation(w: World, initial: map<string, int>, j: nat)
    requires Reachable(w, initial) && j < |w.inv.outbox| && w.inv.outbox[j].event.StockReserved?
    ensures exists i: nat :: AnnouncesReservation(w, j, i)
  {
    hide Inv, Reachable;
    var t, log := ReachableInv(w, initial);
    RowFacts(w, t, log, initial, InventoryService, j);
    var o := w.inv.outbox[j].event.orderId;
    TrackFacts(w, t, log, initial, o);
    assert AnnouncesReservation(w, j, t[o].reservation.value);
  }

  /** Delivering `a` in state `before` wrote row `j` of the inventory outbox as a rejection, and
      rightly: the product was unknown, or fewer units were available than the order asked for. */
  ghost predicate RejectedRightly(before: World, a: Action, j: nat, e: Event) {
    && e.StockReserveFailed? && Enabled(before, a) && |before.inv.outbox| == j
    && a.Deliver? && a.to == InventoryService && a.event.OrderCreated?
    && a.event.orderId == e.orderId && a.event.productId == e.productId && a.event.quantity == e.quantity
    && (if e.productId in before.inv.inventory
        then var row := before.inv.inventory[e.productId];
             e.reason == "insufficient stock" && row.quantity - row.reserved < e.quantity
        else e.reason == "product not found")
    && (var after := Apply(before, a).inv;
        |after.outbox| == j + 1 && after.outbox[j].event == e && after.inventory == before.inv.inventory)
  }

  /** A reachable state before `w` in which the rejection `e` was written. */
  ghost predicate RejectedBefore(w: World, initial: map<string, int>, j: nat, e: Event) {
    exists before: World, a: Action ::
      Reachable(before, initial) && RejectedRightly(before, a, j, e) && Onward(before, w)
  }

  ghost predicate Onward(before: World, w: World) {
    exists more: seq<Action> :: Executes(before, more) && After(before, more) == w
  }

  lemma OnwardStep(before: World, w: World, a: Action)
    requires Onward(before, w) && Enabled(w, a)
    ensures Onward(before, Apply(w, a))
  {
    hide Enabled, Apply;
    var more :| Executes(before, more) && After(before, more) == w;
    assert (more + [a])[..|more|] == more;
    assert Executes(before, more + [a]) && After(before, more + [a]) == Apply(w, a);
  }

  /** The events of an outbox stay, and one delivery adds at most one. */
  lemma InventoryOutboxStep(w: World, a: Action)
    requires Enabled(w, a)
    ensures |w.inv.outbox| <= |Apply(w, a).inv.outbox| <= |w.inv.outbox| + 1
    ensures forall j: nat :: j < |w.inv.outbox| ==> Apply(w, a).inv.outbox[j].event == w.inv.outbox[j].event
    ensures |Apply(w, a).inv.outbox| > |w.inv.outbox| ==>
              a.Deliver? && a.to == InventoryService && a.event.OrderCreated?
  {
    hide FreshId;
    if a.Deliver? && a.to == InventoryService && !a.event.OrderCreated? && a.event.id !in w.inv.processed {
      Stock.ResolveRowsLength(w.inv.(processed := w.inv.processed + {a.event.id}),
                              I.RowsOf(w.inv.reservations, a.event.orderId),
                              if a.event.OrderCompleted? then I.Committed else I.Released);
    }
  }

  lemma RejectionWritten(w: World, initial: map<string, int>, a: Action)
    requires Reachable(w, initial) && Enabled(w, a)
    requires
      var outbox := Apply(w, a).inv.outbox;
      |outbox| == |w.inv.outbox| + 1 && outbox[|w.inv.outbox|].event.StockReserveFailed?
    ensures RejectedRightly(w, a, |w.inv.outbox|, Apply(w, a).inv.outbox[|w.inv.outbox|].event)
  {
    hide Inv, Reachable, FreshId;
    InventoryOutboxStep(w, a);
    var t, log := ReachableInv(w, initial);
    SagaSteps.Local(w, t, log, initial, a.event);
  }

  lemma {:induction false} RejectionHadCause(w0: World, initial: map<string, int>, acts: seq<Action>, j: nat)
    requires Init(w0, initial) && Executes(w0, acts)
    requires j < |After(w0, acts).inv.outbox| && After(w0, acts).inv.outbox[j].event.StockReserveFailed?
    ensures RejectedBefore(After(w0, acts), initial, j, After(w0, acts).inv.outbox[j].event)
  {
    hide Enabled, Apply, Init, RejectedRightly, Onward;
    var e := After(w0, acts).inv.outbox[j].event;
    if acts == [] {
      NoRowsYet(w0, initial);
    } else {
      var n := |acts| - 1;
      var w, a := After(w0, acts[..n]), acts[n];
      InventoryOutboxStep(w, a);
      assert Reachable(w, initial);
      if j < |w.inv.outbox| {
        RejectionHadCause(w0, initial, acts[..n], j);
        var before: World, b: Action :|
          Reachable(before, initial) && RejectedRightly(before, b, j, e) && Onward(before, w);
        OnwardStep(before, w, a);
      } else {
        RejectionWritten(w, initial, a);
        OnwardFromSelf(w);
        OnwardStep(w, w, a);
      }
    }
  }

  lemma NoRowsYet(w: World, initial: map<string, int>)
    requires Init(w, initial)
    ensures w.inv.outbox == []
  {
  }

  lemma OnwardFromSelf(w: World)
    ensures Onward(w, w)
  {
    assert Executes(w, []) && After(w, []) == w;
  }

  /** Every StockReserveFailed row carries its order's product and quantity and the true reason,
      its order holds no stock, and when it was written too little was available. */
  lemma RejectionExplained(w: World, initial: map<string, int>, j: nat)
    requires Reachable(w, initial) && j < |w.inv.outbox| && w.inv.outbox[j].event.StockReserveFailed?
    ensures
      var e := w.inv.outbox[j].event;
      && e.orderId in w.order.orders && !StockHeld(w, e.orderId)
      && e.productId == w.order.orders[e.orderId].productId && e.quantity == w.order.orders[e.orderId].quantity
      && e.reason == (if e.productId in initial then "insufficient stock" else "product not found")
      && RejectedBefore(w, initial, j, e)
  {
    hide Inv, Init, RejectedBefore;
    var t, log := ReachableInv(w, initial);
    TableFacts(w, t, log, initial);
    RowFacts(w, t, log, initial, InventoryService, j);
    TrackFacts(w, t, log, initial, w.inv.outbox[j].event.orderId);
    ProductsFixed(w, t, log, initial);
    var w0, acts :| Init(w0, initial) && Executes(w0, acts) && After(w0, acts) == w;
    RejectionHadCause(w0, initial, acts, j);
  }

  lemma ProductsFixed(w: World, t: map<Id, Track>, log: Log, initial: map<string, int>)
    requires Inv(w, t, log, initial)
    ensures w.inv.inventory.Keys == initial.Keys
  {
    hide TracksOk, TablesOk, MessagesOk;
  }

  /** Row `j` of the payment outbox announces payment `i`. */
  ghost predicate AnnouncesPayment(w: World, j: nat, i: nat) {
    i < |w.pay.payments| && j < |w.pay.outbox| && Charges(w.pay.outbox[j].event, w.pay.payments[i])
  }

  /** Every payment has a row with its outcome, ... */
  lemma PaymentAnnounced(w: World, initial: map<string, int>, i: nat)
    requires Reachable(w, initial) && i < |w.pay.payments|
    ensures exists j: nat :: AnnouncesPayment(w, j, i)
  {
    hide Inv, Reachable;
    var t, log := ReachableInv(w, initial);
    TableFacts(w, t, log, initial);
    var o := w.pay.payments[i].orderId;
    TrackFacts(w, t, log, initial, o);
    LoggedFacts(w, t, log, initial, t[o].payment.value);
    var j: nat :| j < |w.pay.outbox| && w.pay.outbox[j].event == t[o].payment.value;
    assert AnnouncesPayment(w, j, i);
  }

  /** ... and every row of the payment outbox its payment. */
  lemma AnnouncedPayment(w: World, initial: map<string, int>, j: nat)
    requires Reachable(w, initial) && j < |w.pay.outbox|
    ensures exists i: nat :: AnnouncesPayment(w, j, i)
  {
    hide Inv, Reachable;
    var t, log := ReachableInv(w, initial);
    RowFacts(w, t, log, initial, PaymentService, j);
    var o := w.pay.outbox[j].event.orderId;
    TrackFacts(w, t, log, initial, o);
    assert AnnouncesPayment(w, j, t[o].charge.value);
  }

  // ----- compensation

  /** Whatever a closing event is to undo or confirm is committed before the event exists: the
      order's reservation, and its payment with the matching outcome. */
  lemma ClosingNeverOvertakes(w: World, initial: map<string, int>, e: Event)
    requires Reachable(w, initial) && Closing(e) && HasRow(w.order.outbox, e)
    ensures
      && e.orderId in w.order.orders
      && var row := w.order.orders[e.orderId];
         && Holds(w, e.orderId, row.productId, row.quantity, {I.Reserved, I.Released, I.Committed})
         && Paid(w, e.orderId, if e.OrderCompleted? then P.Completed else P.PaymentStatus.Failed, row.totalAmount)
    ensures e.id in w.inv.processed ==>
              forall i: nat :: i < |w.inv.reservations| && w.inv.reservations[i].orderId == e.orderId ==>
                w.inv.reservations[i].status == if e.OrderCompleted? then I.Committed else I.Released
  {
    hide Inv, Reachable;
    var t, log := ReachableInv(w, initial);
    TableFacts(w, t, log, initial);
    var j: nat :| j < |w.order.outbox| && w.order.outbox[j].event == e;
    RowFacts(w, t, log, initial, OrderService, j);
    TrackFacts(w, t, log, initial, e.orderId);
    var k := t[e.orderId];
    assert k.closing == Some(e);
    assert w.pay.payments[k.charge.value].orderId == e.orderId;
    assert w.inv.reservations[k.reservation.value].orderId == e.orderId;
  }

  /** Processed marks and outbox events are never lost. */
  lemma {:induction false} MarksStay(w: World, more: seq<Action>, e: Event)
    requires Executes(w, more)
    ensures w.inv.processed <= After(w, more).inv.processed
    ensures HasRow(w.order.outbox, e) ==> HasRow(After(w, more).order.outbox, e)
  {
    if more != [] {
      var n := |more| - 1;
      MarksStay(w, more[..n], e);
      StepKeepsMarks(After(w, more[..n]), more[n], e);
    }
  }

  lemma StepKeepsMarks(w: World, a: Action, e: Event)
    requires Enabled(w, a)
    ensures w.inv.processed <= Apply(w, a).inv.processed
    ensures HasRow(w.order.outbox, e) ==> HasRow(Apply(w, a).order.outbox, e)
  {
    hide FreshId;
    var w' := Apply(w, a);
    if HasRow(w.order.outbox, e) {
      var i: nat :| i < |w.order.outbox| && w.order.outbox[i].event == e;
      assert w'.order.outbox[i].event == e;
    }
    if a.Deliver? && a.to == InventoryService && !a.event.OrderCreated? && a.event.id !in w.inv.processed {
      Stock.ResolveRowsLength(w.inv.(processed := w.inv.processed + {a.event.id}),
                              I.RowsOf(w.inv.reservations, a.event.orderId),
                              if a.event.OrderCompleted? then I.Committed else I.Released);
    }
  }

  lemma {:induction false} Continue(w0: World, acts: seq<Action>, more: seq<Action>)
    requires Executes(w0, acts) && Executes(After(w0, acts), more)
    ensures Executes(w0, acts + more) && After(w0, acts + more) == After(After(w0, acts), more)
  {
    hide Enabled, Apply;
    if more == [] {
      assert acts + more == acts;
    } else {
      var n := |more| - 1;
      Continue(w0, acts, more[..n]);
      assert (acts + more)[..|acts + more| - 1] == acts + more[..n];
    }
  }

  lemma ReachableOnward(w: World, initial: map<string, int>, more: seq<Action>)
    requires Reachable(w, initial) && Executes(w, more)
    ensures Reachable(After(w, more), initial)
  {
    hide Init;
    var w0, acts :| Init(w0, initial) && Executes(w0, acts) && After(w0, acts) == w;
    Continue(w0, acts, more);
  }

  /** Once inventory has processed an order's closing event, no reservation of the order is
      RESERVED then or ever after. */
  lemma ResolvedForGood(w: World, initial: map<string, int>, e: Event, more: seq<Action>)
    requires Reachable(w, initial) && Closing(e) && HasRow(w.order.outbox, e) && e.id in w.inv.processed
    requires Executes(w, more)
    ensures
      var w' := After(w, more);
      forall i: nat :: i < |w'.inv.reservations| && w'.inv.reservations[i].orderId == e.orderId ==>
        w'.inv.reservations[i].status != I.Reserved
  {
    hide Reachable, HasRow, Executes;
    ReachableOnward(w, initial, more);
    MarksStay(w, more, e);
    ClosingNeverOvertakes(After(w, more), initial, e);
  }

  /** When the payment service handles OrderCancelled, the payment it finds has failed: the
      refund branch is never taken in the composed saga. */
  lemma RefundNeverTaken(w: World, initial: map<string, int>, e: Event)
    requires Reachable(w, initial) && e in w.published && e.OrderCancelled?
    ensures
      var found := P.FirstOf(w.pay.payments, e.orderId);
      && found.Some? && w.pay.payments[found.value].status == P.PaymentStatus.Failed
      && P.OnOrderCancelled(w.pay, e).0.payments == w.pay.payments
  {
    hide Inv, Reachable;
    var t, log := ReachableInv(w, initial);
    SagaSteps.Local(w, t, log, initial, e);
    SagaSteps.PaymentOfCancelled(w, t, log, initial, e.orderId);
  }

  // ----- no domain error

  /** Delivering any published message, whatever its handler's choices, runs into no domain
      error: only an aborted transaction is ever reported. */
  lemma NoDomainError(w: World, initial: map<string, int>, s: Service, e: Event, c: Choice)
    requires Reachable(w, initial) && e in w.published && Routes(s, e)
    ensures
      var report := HandleAt(w, s, e, c).1;
      report.Failed? ==> report.error == TransactionAborted && !c.commits
  {
    hide Inv, Reachable;
    var t, log := ReachableInv(w, initial);
    SagaSteps.Local(w, t, log, initial, e);
  }
}
