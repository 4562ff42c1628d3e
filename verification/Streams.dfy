/** Each service against an arbitrary stream of deliveries: what an order becomes, and that
    duplicates and aborted deliveries can be deleted from the stream. */
module Streams {
  import opened SagaTypes
  import O = OrderModel
  import I = InventoryModel
  import P = PaymentModel
  import Stock = StockConservation

  // ----- duplicates

  ghost predicate DeliveredBefore(ds: seq<Delivery>, n: nat)
    requires n < |ds|
  {
    exists j :: 0 <= j < n && ds[j].choice.commits && ds[j].event.id == ds[n].event.id
  }

  /** The stream without its aborted deliveries and without all but the first copy of an event id. */
  ghost function FirstCopies(ds: seq<Delivery>): seq<Delivery> {
    if ds == [] then []
    else
      var n := |ds| - 1;
      var front := FirstCopies(ds[..n]);
      if ds[n].choice.commits && !DeliveredBefore(ds, n) then front + [ds[n]] else front
  }

  lemma {:induction false} FirstCopiesRouted(s: Service, ds: seq<Delivery>)
    requires AllRouted(s, ds)
    ensures AllRouted(s, FirstCopies(ds))
  {
    if ds != [] {
      FirstCopiesRouted(s, ds[..|ds| - 1]);
    }
  }

  lemma {:induction false} InventoryMarks(db: I.InventoryDb, ds: seq<Delivery>, j: nat)
    requires AllRouted(InventoryService, ds) && j < |ds| && ds[j].choice.commits
    ensures ds[j].event.id in Stock.RunDeliveries(db, ds).processed
  {
    var n := |ds| - 1;
    if j < n {
      InventoryMarks(db, ds[..n], j);
    }
    var before := Stock.RunDeliveries(db, ds[..n]);
    var e := ds[n].event;
    if !e.OrderCreated? && e.id !in before.processed {
      Stock.ResolveRowsLength(before.(processed := before.processed + {e.id}), I.RowsOf(before.reservations, e.orderId),
                              if e.OrderCompleted? then I.Committed else I.Released);
    }
  }

  /** Deleting duplicates from any stream leaves the inventory database the same. */
  lemma {:induction false} InventoryDeduplicates(db: I.InventoryDb, ds: seq<Delivery>)
    requires AllRouted(InventoryService, ds)
    ensures AllRouted(InventoryService, FirstCopies(ds))
    ensures Stock.RunDeliveries(db, FirstCopies(ds)) == Stock.RunDeliveries(db, ds)
  {
    FirstCopiesRouted(InventoryService, ds);
    if ds != [] {
      var n := |ds| - 1;
      InventoryDeduplicates(db, ds[..n]);
      if ds[n].choice.commits && DeliveredBefore(ds, n) {
        var j :| 0 <= j < n && ds[j].choice.commits && ds[j].event.id == ds[n].event.id;
        InventoryMarks(db, ds[..n], j);
      } else if ds[n].choice.commits {
        assert FirstCopies(ds)[..|FirstCopies(ds)| - 1] == FirstCopies(ds[..n]);
      }
    }
  }

  function PaymentRun(db: P.PaymentDb, ds: seq<Delivery>): P.PaymentDb
    requires AllRouted(PaymentService, ds)
  {
    if ds == [] then db
    else
      var n := |ds| - 1;
      var before := PaymentRun(db, ds[..n]);
      var c := ds[n].choice;
      Settled(before, P.Handle(before, ds[n].event, c.rowId, c.eventId, c.declines), c.commits).0
  }

  /** An event id names one event: what drawing UUIDs gives. */
  ghost predicate IdsNameEvents(ds: seq<Delivery>) {
    forall i, j :: 0 <= i < |ds| && 0 <= j < |ds| && ds[i].event.id == ds[j].event.id ==> ds[i].event == ds[j].event
  }

  /** A charge of a non-positive amount fails before it commits and is not marked. */
  predicate Refused(e: Event) {
    e.StockReserved? && e.totalAmount <= 0.0
  }

  lemma {:induction false} PaymentMarks(db: P.PaymentDb, ds: seq<Delivery>, j: nat)
    requires AllRouted(PaymentService, ds) && j < |ds| && ds[j].choice.commits
    ensures ds[j].event.id in PaymentRun(db, ds).processed || Refused(ds[j].event)
  {
    var n := |ds| - 1;
    if j < n {
      PaymentMarks(db, ds[..n], j);
    }
  }

  /** Deleting duplicates from any stream leaves the payment database the same. */
  lemma {:induction false} PaymentDeduplicates(db: P.PaymentDb, ds: seq<Delivery>)
    requires AllRouted(PaymentService, ds) && IdsNameEvents(ds)
    ensures AllRouted(PaymentService, FirstCopies(ds))
    ensures PaymentRun(db, FirstCopies(ds)) == PaymentRun(db, ds)
  {
    FirstCopiesRouted(PaymentService, ds);
    if ds != [] {
      var n := |ds| - 1;
      PaymentDeduplicates(db, ds[..n]);
      if ds[n].choice.commits && DeliveredBefore(ds, n) {
        var j :| 0 <= j < n && ds[j].choice.commits && ds[j].event.id == ds[n].event.id;
        PaymentMarks(db, ds[..n], j);
        assert ds[..n][j].event == ds[n].event;
      } else if ds[n].choice.commits {
        assert FirstCopies(ds)[..|FirstCopies(ds)| - 1] == FirstCopies(ds[..n]);
      }
    }
  }

  function OrderRun(db: O.OrderDb, ds: seq<Delivery>): O.OrderDb
    requires AllRouted(OrderService, ds)
  {
    if ds == [] then db
    else
      var n := |ds| - 1;
      var before := OrderRun(db, ds[..n]);
      Settled(before, O.Handle(before, ds[n].event, ds[n].choice.eventId), ds[n].choice.commits).0
  }

  /** The deliveries that the order service commits. */
  function Effective(db: O.OrderDb, ds: seq<Delivery>): (es: seq<Delivery>)
    requires AllRouted(OrderService, ds)
    ensures AllRouted(OrderService, es)
  {
    if ds == [] then []
    else
      var n := |ds| - 1;
      var report := O.Handle(OrderRun(db, ds[..n]), ds[n].event, ds[n].choice.eventId).1;
      var front := Effective(db, ds[..n]);
      if report.Done? && ds[n].choice.commits then front + [ds[n]] else front
  }

  /** For the order service the first copy need not be the one that counts, but the effective
      deliveries, each of its own event id, make the same database. */
  lemma {:induction false} OrderDeduplicates(db: O.OrderDb, ds: seq<Delivery>)
    requires AllRouted(OrderService, ds)
    ensures
      var es := Effective(db, ds);
      && OrderRun(db, es) == OrderRun(db, ds)
      && (forall i :: 0 <= i < |es| ==> es[i].event.id !in db.processed && es[i].event.id in OrderRun(db, ds).processed)
      && (forall i, j :: 0 <= i < j < |es| ==> es[i].event.id != es[j].event.id)
      && db.processed <= OrderRun(db, ds).processed
  {
    if ds != [] {
      var n := |ds| - 1;
      OrderDeduplicates(db, ds[..n]);
      var es := Effective(db, ds);
      if es != Effective(db, ds[..n]) {
        assert es[..|es| - 1] == Effective(db, ds[..n]);
      }
    }
  }

  /** Keeping first copies only would lose an order: a payment that overtakes the stock event is
      refused, and it is its second copy that completes the order. */
  lemma FirstCopiesLoseOrders(db: O.OrderDb, o: Id, stock: Event, payment: Event)
    requires o in db.orders && db.orders[o].status == O.OrderStatus.Pending && db.processed == {}
    requires stock.StockReserved? && payment.PaymentCompleted? && stock.orderId == o == payment.orderId
    requires stock.id != payment.id
    ensures
      var c := Choice(0, 0, false, true);
      var ds := [Delivery(payment, c), Delivery(stock, c), Delivery(payment, c)];
      && AllRouted(OrderService, ds) && AllRouted(OrderService, FirstCopies(ds))
      && o in OrderRun(db, ds).orders && OrderRun(db, ds).orders[o].status == O.Completed
      && o in OrderRun(db, FirstCopies(ds)).orders && OrderRun(db, FirstCopies(ds)).orders[o].status == O.Confirmed
  {
    hide O.Handle, DeliveredBefore;
    var c := Choice(0, 0, false, true);
    var a, b := Delivery(payment, c), Delivery(stock, c);
    ThreeCopies(a, b);
    var refused := O.Handle(db, payment, 0);
    EarlyPayment(db, o, stock, payment);
    assert [a][..0] == [] && [a, b][..1] == [a] && [a, b, a][..2] == [a, b];
    assert OrderRun(db, [a]) == db;
    assert OrderRun(db, [a, b]) == O.Handle(db, stock, 0).0;
  }

  /** Delivery `n` is handled and committed although a copy of it came, and was refused, before. */
  ghost predicate SecondChance(db: O.OrderDb, ds: seq<Delivery>, n: nat)
    requires AllRouted(OrderService, ds) && n < |ds|
  {
    && ds[n].choice.commits && DeliveredBefore(ds, n)
    && O.Handle(OrderRun(db, ds[..n]), ds[n].event, ds[n].choice.eventId).1 == Done
  }

  /** Exactly when first copies are enough for the order service: no refused delivery is
      accepted when its event comes again. */
  lemma FirstCopiesExact(db: O.OrderDb, ds: seq<Delivery>)
    requires AllRouted(OrderService, ds)
    ensures AllRouted(OrderService, FirstCopies(ds))
    ensures OrderRun(db, FirstCopies(ds)) == OrderRun(db, ds) <==>
            forall n :: 0 <= n < |ds| ==> !SecondChance(db, ds, n)
  {
    FirstCopiesRouted(OrderService, ds);
    if n :| 0 <= n < |ds| && SecondChance(db, ds, n) {
      var id := SecondChanceLost(db, ds, n);
    } else {
      FirstCopiesSuffice(db, ds);
    }
  }

  lemma {:induction false} FirstCopiesSuffice(db: O.OrderDb, ds: seq<Delivery>)
    requires AllRouted(OrderService, ds) && AllRouted(OrderService, FirstCopies(ds))
    requires forall n :: 0 <= n < |ds| ==> !SecondChance(db, ds, n)
    ensures OrderRun(db, FirstCopies(ds)) == OrderRun(db, ds)
  {
    if ds != [] {
      var n := |ds| - 1;
      forall i | 0 <= i < n ensures !SecondChance(db, ds[..n], i) {
        SecondChanceInPrefix(db, ds, n, i);
      }
      FirstCopiesRouted(OrderService, ds[..n]);
      FirstCopiesSuffice(db, ds[..n]);
      assert !SecondChance(db, ds, n);
      OneMoreCopy(db, ds);
    }
  }

  lemma SecondChanceInPrefix(db: O.OrderDb, ds: seq<Delivery>, m: nat, n: nat)
    requires AllRouted(OrderService, ds) && n < m <= |ds|
    ensures SecondChance(db, ds[..m], n) <==> SecondChance(db, ds, n)
  {
    hide O.Handle, OrderRun;
    assert ds[..m][..n] == ds[..n];
    if DeliveredBefore(ds, n) {
      var j :| 0 <= j < n && ds[j].choice.commits && ds[j].event.id == ds[n].event.id;
      assert ds[..m][j] == ds[j] && DeliveredBefore(ds[..m], n);
    }
  }

  /** What the last delivery of a stream adds to its first copies. */
  lemma OneMoreCopy(db: O.OrderDb, ds: seq<Delivery>)
    requires ds != [] && AllRouted(OrderService, ds)
    requires AllRouted(OrderService, FirstCopies(ds)) && AllRouted(OrderService, FirstCopies(ds[..|ds| - 1]))
    ensures
      var n := |ds| - 1;
      var before := OrderRun(db, FirstCopies(ds[..n]));
      OrderRun(db, FirstCopies(ds)) ==
      if ds[n].choice.commits && !DeliveredBefore(ds, n) then O.Handle(before, ds[n].event, ds[n].choice.eventId).0
      else before
  {
    hide O.Handle, DeliveredBefore;
    if FirstCopies(ds) != FirstCopies(ds[..|ds| - 1]) {
      assert FirstCopies(ds)[..|FirstCopies(ds)| - 1] == FirstCopies(ds[..|ds| - 1]);
    }
  }

  /** The event `id` was delivered, and is handled in the stream but not in its first copies. */
  ghost predicate Lost(db: O.OrderDb, ds: seq<Delivery>, id: Id)
    requires AllRouted(OrderService, ds) && AllRouted(OrderService, FirstCopies(ds))
  {
    && id in OrderRun(db, ds).processed && id !in OrderRun(db, FirstCopies(ds)).processed
    && exists j :: 0 <= j < |ds| && ds[j].choice.commits && ds[j].event.id == id
  }

  lemma LostStays(db: O.OrderDb, ds: seq<Delivery>, id: Id)
    requires ds != [] && AllRouted(OrderService, ds)
    requires AllRouted(OrderService, FirstCopies(ds)) && AllRouted(OrderService, FirstCopies(ds[..|ds| - 1]))
    requires Lost(db, ds[..|ds| - 1], id)
    ensures Lost(db, ds, id)
  {
    hide FirstCopies;
    var n := |ds| - 1;
    OneMoreCopy(db, ds);
    var j :| 0 <= j < n && ds[..n][j].choice.commits && ds[..n][j].event.id == id;
    assert ds[j].choice.commits && ds[j].event.id == id;
  }

  lemma LostAtLast(db: O.OrderDb, ds: seq<Delivery>)
    requires ds != [] && AllRouted(OrderService, ds)
    requires AllRouted(OrderService, FirstCopies(ds)) && AllRouted(OrderService, FirstCopies(ds[..|ds| - 1]))
    requires SecondChance(db, ds, |ds| - 1)
    requires OrderRun(db, FirstCopies(ds[..|ds| - 1])) == OrderRun(db, ds[..|ds| - 1])
    ensures Lost(db, ds, ds[|ds| - 1].event.id)
  {
    hide FirstCopies, DeliveredBefore;
    OneMoreCopy(db, ds);
  }

  lemma {:induction false} SecondChanceLost(db: O.OrderDb, ds: seq<Delivery>, n: nat) returns (id: Id)
    requires AllRouted(OrderService, ds) && AllRouted(OrderService, FirstCopies(ds))
    requires n < |ds| && SecondChance(db, ds, n)
    ensures Lost(db, ds, id)
  {
    hide FirstCopies, SecondChance, Lost, OrderRun;
    var last := |ds| - 1;
    FirstCopiesRouted(OrderService, ds[..last]);
    if i :| 0 <= i < last && SecondChance(db, ds, i) {
      SecondChanceInPrefix(db, ds, last, i);
      id := SecondChanceLost(db, ds[..last], i);
      LostStays(db, ds, id);
    } else {
      forall i | 0 <= i < last ensures !SecondChance(db, ds[..last], i) {
        SecondChanceInPrefix(db, ds, last, i);
      }
      FirstCopiesSuffice(db, ds[..last]);
      LostAtLast(db, ds);
      id := ds[last].event.id;
    }
  }

  lemma ThreeCopies(a: Delivery, b: Delivery)
    requires a.choice.commits && b.choice.commits && a.event.id != b.event.id
    ensures FirstCopies([a, b, a]) == [a, b]
  {
    var ds := [a, b, a];
    assert ds[..2] == [a, b] && [a, b][..1] == [a] && [a][..0] == [];
    assert ds[0].event.id == ds[2].event.id && DeliveredBefore(ds, 2);
    assert FirstCopies([a]) == [a];
    assert FirstCopies([a, b]) == [a, b];
  }

  lemma EarlyPayment(db: O.OrderDb, o: Id, stock: Event, payment: Event)
    requires o in db.orders && db.orders[o].status == O.OrderStatus.Pending && db.processed == {}
    requires stock.StockReserved? && payment.PaymentCompleted? && stock.orderId == o == payment.orderId
    requires stock.id != payment.id
    ensures O.Handle(db, payment, 0) == (db, Ignored)
    ensures
      var (db', report) := O.Handle(db, stock, 0);
      && report == Done && o in db'.orders && db'.orders[o].status == O.Confirmed
      && var (db2, report2) := O.Handle(db', payment, 0);
         report2 == Done && o in db2.orders && db2.orders[o].status == O.Completed
  {
  }

  // ----- what an order becomes

  predicate Confirms(e: Event, o: Id) {
    e.StockReserved? && e.orderId == o
  }

  predicate Pays(e: Event, o: Id) {
    e.PaymentCompleted? && e.orderId == o
  }

  predicate Fails(e: Event, o: Id) {
    (e.PaymentFailed? || e.StockReserveFailed?) && e.orderId == o
  }

  /** Some committed payment delivery follows a stock delivery, with no failure before it. */
  ghost predicate PaidInTime(ds: seq<Delivery>, o: Id) {
    exists j :: 0 <= j < |ds| && PaidAt(ds, o, j)
  }

  ghost predicate PaidAt(ds: seq<Delivery>, o: Id, j: nat)
    requires j < |ds|
  {
    && ds[j].choice.commits && Pays(ds[j].event, o)
    && HasConfirmed(ds[..j], o) && !HasFailed(ds[..j], o)
  }

  ghost predicate HasConfirmed(ds: seq<Delivery>, o: Id) {
    exists i :: 0 <= i < |ds| && ds[i].choice.commits && Confirms(ds[i].event, o)
  }

  ghost predicate HasFailed(ds: seq<Delivery>, o: Id) {
    exists i :: 0 <= i < |ds| && ds[i].choice.commits && Fails(ds[i].event, o)
  }

  /** The closed form. */
  ghost function Outcome(ds: seq<Delivery>, o: Id): O.OrderStatus {
    if PaidInTime(ds, o) then O.Completed
    else if HasFailed(ds, o) then O.Cancelled
    else if HasConfirmed(ds, o) then O.Confirmed
    else O.OrderStatus.Pending
  }

  /** An order's status after one transition that the event asks for, if it is allowed. */
  function Step(s: O.OrderStatus, e: Event): O.OrderStatus
    requires Routes(OrderService, e)
  {
    var next := O.Transition(s, e);
    if next.Ok? then next.value else s
  }

  /** The closed form follows the state machine, delivery by delivery. */
  lemma OutcomeStep(ds: seq<Delivery>, o: Id)
    requires ds != [] && AllRouted(OrderService, ds)
    ensures
      var n := |ds| - 1;
      Outcome(ds, o) ==
      if ds[n].choice.commits && ds[n].event.orderId == o then Step(Outcome(ds[..n], o), ds[n].event)
      else Outcome(ds[..n], o)
  {
    var n := |ds| - 1;
    var front, last := ds[..n], ds[n];
    Extends(ds, o);
    assert PaidInTime(ds, o) <==> PaidInTime(front, o) || PaidAt(ds, o, n) by {
      if PaidInTime(front, o) {
        var j :| 0 <= j < n && PaidAt(front, o, j);
        assert front[..j] == ds[..j];
        assert PaidAt(ds, o, j);
      }
      if PaidInTime(ds, o) {
        var j :| 0 <= j < |ds| && PaidAt(ds, o, j);
        if j < n {
          assert front[..j] == ds[..j];
          assert PaidAt(front, o, j);
        }
      }
    }
  }

  lemma Extends(ds: seq<Delivery>, o: Id)
    requires ds != []
    ensures
      var n := |ds| - 1;
      && (HasConfirmed(ds, o) <==> HasConfirmed(ds[..n], o) || (ds[n].choice.commits && Confirms(ds[n].event, o)))
      && (HasFailed(ds, o) <==> HasFailed(ds[..n], o) || (ds[n].choice.commits && Fails(ds[n].event, o)))
  {
    var n := |ds| - 1;
    if HasConfirmed(ds[..n], o) {
      var i :| 0 <= i < n && ds[..n][i].choice.commits && Confirms(ds[..n][i].event, o);
      assert ds[i].choice.commits && Confirms(ds[i].event, o);
    }
    if HasFailed(ds[..n], o) {
      var i :| 0 <= i < n && ds[..n][i].choice.commits && Fails(ds[..n][i].event, o);
      assert ds[i].choice.commits && Fails(ds[i].event, o);
    }
  }

  /** A marked event of the order has nothing more to ask for: its copies are absorbed. */
  ghost predicate Absorbed(s: O.OrderStatus, e: Event) {
    && (e.StockReserved? ==> s != O.OrderStatus.Pending)
    && (e.PaymentCompleted? ==> s == O.Completed)
    && (e.PaymentFailed? || e.StockReserveFailed? ==> s == O.Cancelled)
  }

  /** One more delivery leaves every marked event of the order absorbed. */
  lemma AbsorbedStep(db: O.OrderDb, d: Delivery, o: Id, other: Event)
    requires Routes(OrderService, d.event) && o in db.orders
    requires d.event.orderId == o && d.event.id in db.processed ==> Absorbed(db.orders[o].status, d.event)
    requires Routes(OrderService, other) && other.orderId == o && (other.id == d.event.id ==> other == d.event)
    requires other.id in db.processed ==> Absorbed(db.orders[o].status, other)
    ensures
      var db' := Settled(db, O.Handle(db, d.event, d.choice.eventId), d.choice.commits).0;
      o in db'.orders && (other.id in db'.processed ==> Absorbed(db'.orders[o].status, other))
  {
  }

  /** One more delivery: the order's row makes the transition that the event asks for, unless a
      copy has been absorbed, in which case it would have made none. */
  lemma RowStep(db: O.OrderDb, d: Delivery, o: Id)
    requires Routes(OrderService, d.event) && o in db.orders
    requires d.event.orderId == o && d.event.id in db.processed ==> Absorbed(db.orders[o].status, d.event)
    ensures
      var db' := Settled(db, O.Handle(db, d.event, d.choice.eventId), d.choice.commits).0;
      var s := db.orders[o].status;
      && o in db'.orders
      && db'.orders[o] == db.orders[o].(status :=
           if d.choice.commits && d.event.orderId == o then Step(s, d.event) else s)
  {
  }

  lemma {:induction false} RunOutcome(db: O.OrderDb, ds: seq<Delivery>, o: Id, all: seq<Delivery>)
    requires AllRouted(OrderService, all) && IdsNameEvents(all) && ds <= all
    requires forall i :: 0 <= i < |all| ==> all[i].event.id !in db.processed
    requires o in db.orders && db.orders[o].status == O.OrderStatus.Pending
    ensures AllRouted(OrderService, ds)
    ensures
      var db' := OrderRun(db, ds);
      && o in db'.orders && db'.orders[o] == db.orders[o].(status := Outcome(ds, o))
      && (forall i :: 0 <= i < |all| && all[i].event.orderId == o && all[i].event.id in db'.processed ==>
            Absorbed(Outcome(ds, o), all[i].event))
  {
    if ds == [] {
      assert !PaidInTime(ds, o);
    } else {
      hide Outcome, Absorbed, O.Handle, Step;
      var n := |ds| - 1;
      RunOutcome(db, ds[..n], o, all);
      OutcomeStep(ds, o);
      var before := OrderRun(db, ds[..n]);
      assert all[n] == ds[n];
      RowStep(before, ds[n], o);
      forall i | 0 <= i < |all| && all[i].event.orderId == o && all[i].event.id in OrderRun(db, ds).processed
        ensures Absorbed(Outcome(ds, o), all[i].event)
      {
        AbsorbedStep(before, ds[n], o, all[i].event);
      }
    }
  }

  /** The outcome of any delivery stream as a closed form, for an order that starts PENDING:
      COMPLETED iff a payment delivery follows a stock delivery before any failure, otherwise
      CANCELLED iff a failure was delivered, otherwise CONFIRMED iff stock was. A payment that
      came too early counts again when it is redelivered. */
  lemma OrderOutcome(db: O.OrderDb, ds: seq<Delivery>, o: Id)
    requires AllRouted(OrderService, ds) && IdsNameEvents(ds)
    requires forall i :: 0 <= i < |ds| ==> ds[i].event.id !in db.processed
    requires o in db.orders && db.orders[o].status == O.OrderStatus.Pending
    ensures
      var db' := OrderRun(db, ds);
      && o in db'.orders
      && (db'.orders[o].status == O.Completed <==> PaidInTime(ds, o))
      && (db'.orders[o].status == O.Cancelled <==> !PaidInTime(ds, o) && HasFailed(ds, o))
      && (db'.orders[o].status == O.Confirmed <==> !PaidInTime(ds, o) && !HasFailed(ds, o) && HasConfirmed(ds, o))
  {
    RunOutcome(db, ds, o, ds);
  }

  // ----- when first copies are enough, read off the stream

  /** Delivery `n` is the one that completes its order, and a copy of it had come too early. */
  ghost predicate Overtook(db: O.OrderDb, ds: seq<Delivery>, n: nat)
    requires n < |ds|
  {
    var o := ds[n].event.orderId;
    o in db.orders && PaidAt(ds, o, n) && !PaidInTime(ds[..n], o) && DeliveredBefore(ds, n)
  }

  ghost predicate NewAndPending(db: O.OrderDb, ds: seq<Delivery>) {
    && (forall i :: 0 <= i < |ds| ==> ds[i].event.id !in db.processed)
    && (forall o :: o in db.orders ==> db.orders[o].status == O.OrderStatus.Pending)
  }

  lemma {:induction false} OrdersFixed(db: O.OrderDb, ds: seq<Delivery>)
    requires AllRouted(OrderService, ds)
    ensures OrderRun(db, ds).orders.Keys == db.orders.Keys
  {
    if ds != [] {
      OrdersFixed(db, ds[..|ds| - 1]);
    }
  }

  /** A failure that was delivered is marked, unless the order has completed. */
  lemma {:induction false} FailureMarks(db: O.OrderDb, ds: seq<Delivery>, o: Id, j: nat)
    requires AllRouted(OrderService, ds) && o in db.orders && j < |ds|
    requires ds[j].choice.commits && Fails(ds[j].event, o)
    ensures
      var db' := OrderRun(db, ds);
      o in db'.orders && (ds[j].event.id in db'.processed || db'.orders[o].status == O.Completed)
  {
    var n := |ds| - 1;
    OrdersFixed(db, ds[..n]);
    if j < n {
      FailureMarks(db, ds[..n], o, j);
    }
  }

  /** The event of the delivery, its order and what the run has made of them so far. */
  lemma BeforeDelivery(db: O.OrderDb, ds: seq<Delivery>, n: nat)
    requires AllRouted(OrderService, ds) && IdsNameEvents(ds) && NewAndPending(db, ds) && n < |ds|
    ensures
      var (before, e) := (OrderRun(db, ds[..n]), ds[n].event);
      && before.orders.Keys == db.orders.Keys
      && (e.orderId in db.orders ==>
            && before.orders[e.orderId].status == Outcome(ds[..n], e.orderId)
            && (e.id in before.processed ==> Absorbed(Outcome(ds[..n], e.orderId), e)))
  {
    hide Outcome, Absorbed;
    OrdersFixed(db, ds[..n]);
    if ds[n].event.orderId in db.orders {
      RunOutcome(db, ds[..n], ds[n].event.orderId, ds);
    }
  }

  /** What an earlier copy of a delivery has left behind. */
  lemma EarlierCopy(db: O.OrderDb, ds: seq<Delivery>, n: nat)
    requires AllRouted(OrderService, ds) && IdsNameEvents(ds) && n < |ds| && DeliveredBefore(ds, n)
    requires ds[n].event.orderId in db.orders
    ensures
      var (before, e) := (OrderRun(db, ds[..n]), ds[n].event);
      && (e.StockReserved? ==> HasConfirmed(ds[..n], e.orderId))
      && (e.PaymentFailed? || e.StockReserveFailed? ==>
            && e.orderId in before.orders
            && (e.id in before.processed || before.orders[e.orderId].status == O.Completed))
  {
    hide O.Handle, OrderRun;
    var e := ds[n].event;
    var j :| 0 <= j < n && ds[j].choice.commits && ds[j].event.id == e.id;
    assert ds[..n][j].event == e;
    if Fails(e, e.orderId) {
      FailureMarks(db, ds[..n], e.orderId, j);
    }
  }

  lemma SecondChanceIffOvertook(db: O.OrderDb, ds: seq<Delivery>, n: nat)
    requires AllRouted(OrderService, ds) && IdsNameEvents(ds) && NewAndPending(db, ds) && n < |ds|
    ensures SecondChance(db, ds, n) <==> Overtook(db, ds, n)
  {
    hide OrderRun, DeliveredBefore, HasConfirmed, HasFailed, PaidInTime, IdsNameEvents, NewAndPending;
    assert Routes(OrderService, ds[n].event);
    BeforeDelivery(db, ds, n);
    if DeliveredBefore(ds, n) && ds[n].event.orderId in db.orders {
      EarlierCopy(db, ds, n);
    }
  }

  /** First copies are enough for the order service exactly when no payment that completes its
      order had overtaken the stock event before. */
  lemma FirstCopiesEnough(db: O.OrderDb, ds: seq<Delivery>)
    requires AllRouted(OrderService, ds) && IdsNameEvents(ds) && NewAndPending(db, ds)
    ensures AllRouted(OrderService, FirstCopies(ds))
    ensures OrderRun(db, FirstCopies(ds)) == OrderRun(db, ds) <==> forall n :: 0 <= n < |ds| ==> !Overtook(db, ds, n)
  {
    hide OrderRun, SecondChance, Overtook, IdsNameEvents, NewAndPending;
    FirstCopiesExact(db, ds);
    forall n | 0 <= n < |ds| ensures SecondChance(db, ds, n) <==> Overtook(db, ds, n) {
      SecondChanceIffOvertook(db, ds, n);
    }
  }
}
