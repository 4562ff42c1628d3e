/** With order creation stopped the saga cannot make progress forever. */
module SagaTermination {
  import opened SagaTypes
  import opened OutboxTable
  import opened Saga
  import opened SagaInvariant
  import opened SagaReachable
  import opened SagaTheorems
  import opened SagaConvergence
  import SagaSteps
  import O = OrderModel
  import I = InventoryModel
  import P = PaymentModel
  import Stock = StockConservation

  // ----- the budget of one order

  /** The deliveries of an order's events that have been marked as processed. */
  ghost function MarksOf(w: World, o: Id): set<(Service, Event)> {
    set s: Service, e: Event | e in w.published && e.orderId == o && Routes(s, e) && e.id in SagaSteps.Processed(w, s)
      :: (s, e)
  }

  /** The six deliveries an order can ever cause. */
  ghost function Slots(k: Track): set<(Service, Event)> {
    {(InventoryService, k.created)}
    + (if k.stock.Some? then {(OrderService, k.stock.value), (PaymentService, k.stock.value)} else {})
    + (if k.payment.Some? then {(OrderService, k.payment.value)} else {})
    + (if k.closing.Some? then {(InventoryService, k.closing.value), (PaymentService, k.closing.value)} else {})
  }

  lemma SmallSets<T>(a: T, b: T, c: T, d: T, e: T, f: T, s: set<T>)
    requires s <= {a, b, c, d, e, f}
    ensures |s| <= 6
  {
    SubsetSize(s, {a, b, c, d, e, f});
  }

  lemma {:induction false} SubsetSize<T>(s: set<T>, u: set<T>)
    requires s <= u
    ensures |s| <= |u|
    decreases s
  {
    if s != {} {
      var x :| x in s;
      SubsetSize(s - {x}, u - {x});
    }
  }

  lemma MarkInSlots(w: World, t: map<Id, Track>, log: Log, initial: map<string, int>, o: Id, x: (Service, Event))
    requires Inv(w, t, log, initial) && x in MarksOf(w, o)
    ensures o in t && x in Slots(t[o])
  {
    hide Inv;
    SagaSteps.Local(w, t, log, initial, x.1);
  }

  lemma AtMostSixSlots(k: Track, s: set<(Service, Event)>)
    requires s <= Slots(k)
    ensures |s| <= 6
  {
    var stock := if k.stock.Some? then k.stock.value else k.created;
    var payment := if k.payment.Some? then k.payment.value else k.created;
    var closing := if k.closing.Some? then k.closing.value else k.created;
    SmallSets((InventoryService, k.created), (OrderService, stock), (PaymentService, stock),
              (OrderService, payment), (InventoryService, closing), (PaymentService, closing), s);
  }

  lemma AtMostSixMarks(w: World, initial: map<string, int>, o: Id)
    requires Reachable(w, initial)
    ensures |MarksOf(w, o)| <= 6
  {
    hide Inv, Reachable, MarksOf, Slots;
    var t, log := ReachableInv(w, initial);
    var marks := MarksOf(w, o);
    if marks != {} {
      forall x | x in marks ensures o in t && x in Slots(t[o]) {
        MarkInSlots(w, t, log, initial, o, x);
      }
      AtMostSixSlots(t[o], marks);
    }
  }

  /** Deliveries of order `o`'s events along a run that changed the state. */
  ghost function ChangingDeliveries(w: World, acts: seq<Action>, o: Id): nat
    requires Executes(w, acts)
  {
    if acts == [] then 0
    else
      var n := |acts| - 1;
      var before, a := After(w, acts[..n]), acts[n];
      ChangingDeliveries(w, acts[..n], o)
      + if a.Deliver? && a.event.orderId == o && Apply(before, a) != before then 1 else 0
  }

  /** A delivery changes the state exactly by marking its event, once. */
  lemma DeliveryMarks(w: World, a: Action)
    requires a.Deliver? && Enabled(w, a) && Apply(w, a) != w
    ensures a.event.id !in SagaSteps.Processed(w, a.to)
    ensures forall s: Service :: SagaSteps.Processed(Apply(w, a), s) ==
                                 SagaSteps.Processed(w, s) + if s == a.to then {a.event.id} else {}
    ensures Apply(w, a).published == w.published && Apply(w, a).order.orders.Keys == w.order.orders.Keys
    ensures forall s: Service ::
              || Rows(Apply(w, a), s) == Rows(w, s)
              || (s == a.to && exists e: Event :: Rows(Apply(w, a), s) == Rows(w, s) + [NewRow(e)])
  {
    hide FreshId;
    if a.to == InventoryService && !a.event.OrderCreated? {
      Stock.ResolveRowsLength(w.inv.(processed := w.inv.processed + {a.event.id}),
                              I.RowsOf(w.inv.reservations, a.event.orderId),
                              if a.event.OrderCompleted? then I.Committed else I.Released);
    }
    if a.to == OrderService {
      assert w.order.outbox + [] == w.order.outbox;
    }
  }

  lemma StepMarksOf(w: World, a: Action, o: Id)
    requires Enabled(w, a)
    ensures MarksOf(w, o) <= MarksOf(Apply(w, a), o)
    ensures a.Deliver? && a.event.orderId == o && Apply(w, a) != w ==>
              |MarksOf(Apply(w, a), o)| >= |MarksOf(w, o)| + 1
  {
    var w' := Apply(w, a);
    if a.Deliver? && w' != w {
      DeliveryMarks(w, a);
      assert MarksOf(w, o) <= MarksOf(w', o);
      if a.event.orderId == o {
        assert (a.to, a.event) in MarksOf(w', o) && (a.to, a.event) !in MarksOf(w, o);
        SubsetSize(MarksOf(w, o) + {(a.to, a.event)}, MarksOf(w', o));
      }
    } else {
      assert forall s: Service :: SagaSteps.Processed(w', s) == SagaSteps.Processed(w, s);
    }
  }

  lemma {:induction false} DeliveriesAreMarks(w: World, acts: seq<Action>, o: Id)
    requires Executes(w, acts)
    ensures ChangingDeliveries(w, acts, o) + |MarksOf(w, o)| <= |MarksOf(After(w, acts), o)|
  {
    hide MarksOf, Enabled, Apply;
    if acts != [] {
      var n := |acts| - 1;
      DeliveriesAreMarks(w, acts[..n], o);
      StepMarksOf(After(w, acts[..n]), acts[n], o);
      SubsetSize(MarksOf(After(w, acts[..n]), o), MarksOf(After(w, acts), o));
    }
  }

  /** Over a whole run, whatever is lost, duplicated or reordered, at most six deliveries of an
      order's events change anything. */
  lemma AtMostSixDeliveries(w0: World, initial: map<string, int>, acts: seq<Action>, o: Id)
    requires Init(w0, initial) && Executes(w0, acts)
    ensures ChangingDeliveries(w0, acts, o) <= 6
  {
    hide MarksOf, ChangingDeliveries;
    DeliveriesAreMarks(w0, acts, o);
    assert Reachable(After(w0, acts), initial);
    AtMostSixMarks(After(w0, acts), initial, o);
  }

  /** The rows of an outbox that an order has caused, closing events apart from the others. */
  function RowsAbout(rows: seq<OutboxRow>, o: Id, closing: bool): set<nat> {
    set i: nat | i < |rows| && rows[i].event.orderId == o
                 && (rows[i].event.OrderCompleted? || rows[i].event.OrderCancelled?) == closing
  }

  lemma AtMostOne<T>(s: set<T>)
    requires forall x, y :: x in s && y in s ==> x == y
    ensures |s| <= 1
  {
    if s != {} {
      var x :| x in s;
      assert s == {x};
    }
  }

  function RowCount(w: World, o: Id): nat {
    |RowsAbout(w.order.outbox, o, false)| + |RowsAbout(w.order.outbox, o, true)|
    + |RowsAbout(w.inv.outbox, o, false)| + |RowsAbout(w.inv.outbox, o, true)|
    + |RowsAbout(w.pay.outbox, o, false)| + |RowsAbout(w.pay.outbox, o, true)|
  }

  /** An order causes at most four outbox rows: its creation, one stock decision, one payment
      decision, one closing event. */
  lemma AtMostFourRows(w: World, initial: map<string, int>, o: Id)
    requires Reachable(w, initial)
    ensures RowCount(w, o) <= 4
  {
    hide Inv, Reachable;
    var t, log := ReachableInv(w, initial);
    forall i: nat | i < |w.inv.outbox| ensures !Closing(w.inv.outbox[i].event) {
      RowFacts(w, t, log, initial, InventoryService, i);
    }
    forall i: nat | i < |w.pay.outbox| ensures !Closing(w.pay.outbox[i].event) {
      RowFacts(w, t, log, initial, PaymentService, i);
    }
    Uniqueness(w, initial);
    AtMostOne(RowsAbout(w.order.outbox, o, false));
    AtMostOne(RowsAbout(w.order.outbox, o, true));
    AtMostOne(RowsAbout(w.inv.outbox, o, false));
    AtMostOne(RowsAbout(w.pay.outbox, o, false));
    assert RowsAbout(w.inv.outbox, o, true) == {} && RowsAbout(w.pay.outbox, o, true) == {};
  }

  // ----- the measure of the whole saga

  function Weight(row: OutboxRow, published: set<Event>): nat {
    (if Eligible(row) then MAX_RETRY_COUNT - row.retryCount else 0)
    + if row.event in published then 0 else 1
  }

  function TotalWeight(rows: seq<OutboxRow>, published: set<Event>): nat {
    if rows == [] then 0
    else TotalWeight(rows[..|rows| - 1], published) + Weight(rows[|rows| - 1], published)
  }

  function Marks(w: World): nat {
    |w.order.processed| + |w.inv.processed| + |w.pay.processed|
  }

  /** Seven units for every delivery that may still change something, plus the retries and
      first publications that the rows still allow. */
  function Measure(w: World): int {
    7 * (6 * |w.order.orders| - Marks(w))
    + TotalWeight(w.order.outbox, w.published)
    + TotalWeight(w.inv.outbox, w.published)
    + TotalWeight(w.pay.outbox, w.published)
  }

  lemma {:induction false} ImageSize(s: set<Id>, f: Id -> Id)
    ensures |set o | o in s :: f(o)| <= |s|
    decreases s
  {
    var image := set o | o in s :: f(o);
    if s != {} {
      var x :| x in s;
      ImageSize(s - {x}, f);
      var rest := set o | o in s - {x} :: f(o);
      SubsetSize(image, rest + {f(x)});
    }
  }

  /** A service that subscribes to at most two of an order's events marks at most two per order. */
  lemma TwoPerOrder(marks: set<Id>, orders: set<Id>, f: Id -> Id, g: Id -> Id)
    requires forall id :: id in marks ==> exists o :: o in orders && (id == f(o) || id == g(o))
    ensures |marks| <= 2 * |orders|
  {
    var image := (set o | o in orders :: f(o)) + (set o | o in orders :: g(o));
    SubsetSize(marks, image);
    ImageSize(orders, f);
    ImageSize(orders, g);
  }

  lemma MarkFacts(w: World, t: map<Id, Track>, log: Log, initial: map<string, int>, s: Service, id: Id)
    returns (o: Id)
    requires Inv(w, t, log, initial) && id in SagaSteps.Processed(w, s)
    ensures o in t && o in w.order.orders
    ensures
      var k := t[o];
      match s
      case OrderService => id == IdOf(k.stock) || id == IdOf(k.payment)
      case InventoryService => id == k.created.id || id == IdOf(k.closing)
      case PaymentService => id == IdOf(k.stock) || id == IdOf(k.closing)
  {
    hide Inv, MarksOk, ReservationOk, ChargeOk, RejectionOk, TrackLogged;
    MarkLogged(w, t, log, initial, s, id);
    o := log[id].orderId;
    TrackFacts(w, t, log, initial, o);
  }

  lemma MarkLogged(w: World, t: map<Id, Track>, log: Log, initial: map<string, int>, s: Service, id: Id)
    requires Inv(w, t, log, initial) && id in SagaSteps.Processed(w, s)
    ensures id in log && Routes(s, log[id]) && log[id].id == id
    ensures log[id].orderId in t && log[id].orderId in w.order.orders && InTrack(t[log[id].orderId], log[id])
  {
    hide Stock.Conserved, RowsOk, HasRow, TablesOk, TrackOk, MarksOk, ReservationOk, ChargeOk, RejectionOk, InTrack;
  }

  function IdOf(e: Option<Event>): Id {
    if e.Some? then e.value.id else 0
  }

  lemma OrderMarks(w: World, t: map<Id, Track>, log: Log, initial: map<string, int>)
    requires Inv(w, t, log, initial)
    ensures |w.order.processed| <= 2 * |w.order.orders.Keys|
  {
    hide Inv, IdOf;
    var orders := w.order.orders.Keys;
    var stock := (o: Id) => if o in t then IdOf(t[o].stock) else 0;
    var payment := (o: Id) => if o in t then IdOf(t[o].payment) else 0;
    forall id | id in w.order.processed ensures exists o :: o in orders && (id == stock(o) || id == payment(o)) {
      var o := MarkFacts(w, t, log, initial, OrderService, id);
      assert o in orders && (id == stock(o) || id == payment(o));
    }
    TwoPerOrder(w.order.processed, orders, stock, payment);
  }

  lemma InventoryMarks(w: World, t: map<Id, Track>, log: Log, initial: map<string, int>)
    requires Inv(w, t, log, initial)
    ensures |w.inv.processed| <= 2 * |w.order.orders.Keys|
  {
    hide Inv, IdOf;
    var orders := w.order.orders.Keys;
    var created := (o: Id) => if o in t then t[o].created.id else 0;
    var closing := (o: Id) => if o in t then IdOf(t[o].closing) else 0;
    forall id | id in w.inv.processed ensures exists o :: o in orders && (id == created(o) || id == closing(o)) {
      var o := MarkFacts(w, t, log, initial, InventoryService, id);
      assert o in orders && (id == created(o) || id == closing(o));
    }
    TwoPerOrder(w.inv.processed, orders, created, closing);
  }

  lemma PaymentMarks(w: World, t: map<Id, Track>, log: Log, initial: map<string, int>)
    requires Inv(w, t, log, initial)
    ensures |w.pay.processed| <= 2 * |w.order.orders.Keys|
  {
    hide Inv, IdOf;
    var orders := w.order.orders.Keys;
    var stock := (o: Id) => if o in t then IdOf(t[o].stock) else 0;
    var closing := (o: Id) => if o in t then IdOf(t[o].closing) else 0;
    forall id | id in w.pay.processed ensures exists o :: o in orders && (id == stock(o) || id == closing(o)) {
      var o := MarkFacts(w, t, log, initial, PaymentService, id);
      assert o in orders && (id == stock(o) || id == closing(o));
    }
    TwoPerOrder(w.pay.processed, orders, stock, closing);
  }

  lemma MarksBounded(w: World, initial: map<string, int>)
    requires Reachable(w, initial)
    ensures Marks(w) <= 6 * |w.order.orders| && Measure(w) >= 0
  {
    hide Inv, Reachable;
    var t, log := ReachableInv(w, initial);
    OrderMarks(w, t, log, initial);
    InventoryMarks(w, t, log, initial);
    PaymentMarks(w, t, log, initial);
    assert |w.order.orders.Keys| == |w.order.orders|;
  }

  // ----- every changing step but a creation lowers the measure

  lemma {:induction false} WeightPublish(rows: seq<OutboxRow>, published: set<Event>, e: Event)
    ensures TotalWeight(rows, published + {e}) <= TotalWeight(rows, published)
    ensures e !in published && (exists i: nat :: i < |rows| && rows[i].event == e) ==>
              TotalWeight(rows, published + {e}) < TotalWeight(rows, published)
  {
    if rows != [] {
      var n := |rows| - 1;
      WeightPublish(rows[..n], published, e);
      if i: nat :| i < |rows| && rows[i].event == e {
        assert i < n ==> rows[..n][i].event == e;
      }
    }
  }

  lemma WeightMarkRow(row: OutboxRow, sent: bool, failed: bool, published: set<Event>)
    requires sent || failed ==> Eligible(row)
    ensures Weight(MarkRow(row, sent, failed), published) <= Weight(row, published)
    ensures MarkRow(row, sent, failed) != row ==>
              Weight(MarkRow(row, sent, failed), published) < Weight(row, published)
  {
  }

  lemma {:induction false} WeightMark(rows: seq<OutboxRow>, sent: set<nat>, failed: set<nat>, published: set<Event>)
    requires forall i: nat :: i < |rows| && i in sent + failed ==> Eligible(rows[i])
    ensures TotalWeight(Mark(rows, sent, failed), published) <= TotalWeight(rows, published)
    ensures Mark(rows, sent, failed) != rows ==>
              TotalWeight(Mark(rows, sent, failed), published) < TotalWeight(rows, published)
  {
    hide Weight, MarkRow, Eligible;
    if rows != [] {
      var n := |rows| - 1;
      var marked := Mark(rows, sent, failed);
      WeightMark(rows[..n], sent, failed, published);
      assert n in sent || n in failed ==> n in sent + failed;
      WeightMarkRow(rows[n], n in sent, n in failed, published);
      assert marked[..n] == Mark(rows[..n], sent, failed);
      if marked[..n] == rows[..n] && marked[n] == rows[n] {
        assert marked == marked[..n] + [marked[n]] == rows;
      }
    }
  }

  lemma WeightAppend(rows: seq<OutboxRow>, row: OutboxRow, published: set<Event>)
    ensures TotalWeight(rows + [row], published) == TotalWeight(rows, published) + Weight(row, published)
  {
    assert (rows + [row])[..|rows|] == rows;
  }

  lemma DeliveryWeight(w: World, a: Action, s: Service)
    requires a.Deliver? && Enabled(w, a) && Apply(w, a) != w
    ensures TotalWeight(Rows(Apply(w, a), s), w.published) <=
            TotalWeight(Rows(w, s), w.published) + if s == a.to then 6 else 0
  {
    hide Enabled, Apply;
    DeliveryMarks(w, a);
    var w' := Apply(w, a);
    if Rows(w', s) != Rows(w, s) {
      var e: Event :| Rows(w', s) == Rows(w, s) + [NewRow(e)];
      WeightAppend(Rows(w, s), NewRow(e), w.published);
    }
  }

  lemma DeliveryCounts(w: World, a: Action)
    requires a.Deliver? && Enabled(w, a) && Apply(w, a) != w
    ensures Marks(Apply(w, a)) == Marks(w) + 1
    ensures |Apply(w, a).order.orders| == |w.order.orders| && Apply(w, a).published == w.published
  {
    hide Enabled, Apply, Rows;
    var w' := Apply(w, a);
    DeliveryMarks(w, a);
    assert SagaSteps.Processed(w', OrderService) == w'.order.processed;
    assert SagaSteps.Processed(w', InventoryService) == w'.inv.processed;
    assert SagaSteps.Processed(w', PaymentService) == w'.pay.processed;
    assert |w'.order.orders| == |w'.order.orders.Keys| == |w.order.orders.Keys| == |w.order.orders|;
  }

  lemma DeliveryLowers(w: World, a: Action)
    requires a.Deliver? && Enabled(w, a) && Apply(w, a) != w
    ensures Measure(Apply(w, a)) < Measure(w)
  {
    hide Enabled, Apply, Marks;
    DeliveryCounts(w, a);
    DeliveryWeight(w, a, OrderService);
    DeliveryWeight(w, a, InventoryService);
    DeliveryWeight(w, a, PaymentService);
  }

  lemma PublishLowers(w: World, a: Action)
    requires a.Publish? && Enabled(w, a) && Apply(w, a) != w
    ensures Measure(Apply(w, a)) < Measure(w)
  {
    var e := Rows(w, a.service)[a.row].event;
    WeightPublish(w.order.outbox, w.published, e);
    WeightPublish(w.inv.outbox, w.published, e);
    WeightPublish(w.pay.outbox, w.published, e);
  }

  lemma SettleLowers(w: World, a: Action)
    requires a.Settle? && Enabled(w, a) && Apply(w, a) != w
    ensures Measure(Apply(w, a)) < Measure(w)
  {
    hide TotalWeight, Mark, Eligible;
    WeightMark(Rows(w, a.service), a.sent, a.failed, w.published);
  }

  /** Whatever a step other than a creation changes, the measure goes down. */
  lemma StepLowers(w: World, a: Action)
    requires Enabled(w, a) && !a.Create? && Apply(w, a) != w
    ensures Measure(Apply(w, a)) < Measure(w)
  {
    hide Enabled, Apply, Measure;
    match a
    case Deliver(_, _, _) => DeliveryLowers(w, a);
    case Publish(_, _) => PublishLowers(w, a);
    case Settle(_, _, _) => SettleLowers(w, a);
  }

  ghost function Changes(w: World, acts: seq<Action>): nat
    requires Executes(w, acts)
  {
    if acts == [] then 0
    else
      var n := |acts| - 1;
      Changes(w, acts[..n]) + if After(w, acts) != After(w, acts[..n]) then 1 else 0
  }

  lemma {:induction false} ChangesLower(w: World, acts: seq<Action>)
    requires Executes(w, acts) && forall a :: a in acts ==> !a.Create?
    ensures Changes(w, acts) + Measure(After(w, acts)) <= Measure(w)
  {
    hide Measure, Enabled, Apply;
    if acts != [] {
      var n := |acts| - 1;
      ChangesLower(w, acts[..n]);
      assert acts[n] in acts;
      if After(w, acts) != After(w, acts[..n]) {
        StepLowers(After(w, acts[..n]), acts[n]);
      }
    }
  }

  /** No infinite progress: along any run without creations the state changes at most
      `Measure` times, a number fixed by the state the run starts from. */
  lemma ProgressIsBounded(w: World, initial: map<string, int>, acts: seq<Action>)
    requires Reachable(w, initial) && Executes(w, acts) && forall a :: a in acts ==> !a.Create?
    ensures Changes(w, acts) <= Measure(w)
  {
    hide Reachable, Measure, Changes;
    ChangesLower(w, acts);
    ReachableOnward(w, initial, acts);
    MarksBounded(After(w, acts), initial);
  }
}
