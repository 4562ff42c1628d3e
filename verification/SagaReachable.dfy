/** The invariant holds in every reachable state of the composed saga. */
module SagaReachable {
  import opened SagaTypes
  import opened OutboxTable
  import opened Saga
  import opened SagaInvariant
  import opened SagaSteps
  import O = OrderModel
  import I = InventoryModel
  import P = PaymentModel
  import Stock = StockConservation

  function NewTrack(created: Event): Track {
    Track(created, None, None, None, false, false, false, None, None)
  }

  lemma NewTrackOk(w: World, created: Event)
    requires created.OrderCreated? && created.id !in w.inv.processed
    ensures MarksOk(NewTrack(created), w.order.processed, w.inv.processed, w.pay.processed)
    ensures ReservationOk(created.orderId, NewTrack(created), w.inv.reservations)
    ensures ChargeOk(created.orderId, NewTrack(created), w.pay.payments)
    ensures RejectionOk(NewTrack(created), w.inv.inventory.Keys)
  {
  }

  lemma CreateTracks(w: World, w': World, t: map<Id, Track>, log: Log, created: Event)
    requires TracksOk(w, t, log) && created.OrderCreated? && created.orderId !in t
    requires created.id !in log && created.id !in w.inv.processed
    requires created.customerId != "" && created.productId != "" && created.quantity > 0 && created.totalAmount > 0.0
    requires w' == w.(order := O.OrderDb(
                        w.order.orders[created.orderId := O.OrderRow(created.customerId, created.productId,
                          created.quantity, created.totalAmount, O.OrderStatus.Pending)],
                        w.order.outbox + [NewRow(created)], w.order.processed))
    ensures TracksOk(w', t[created.orderId := NewTrack(created)], log[created.id := created])
  {
    hide MarksOk, ReservationOk, ChargeOk, RejectionOk;
    NewTrackOk(w', created);
    forall o | o in t ensures TrackLogged(t[o], log[created.id := created]) {
      assert TrackLogged(t[o], log);
    }
  }

  lemma CreateLog(w: World, w': World, t: map<Id, Track>, log: Log, created: Event)
    requires LogOk(w, t, log) && created.OrderCreated? && created.orderId !in t && created.id !in log
    requires forall x: Service ::
               Rows(w', x) == if x == OrderService then Appended(Rows(w, x), [created]) else Rows(w, x)
    ensures LogOk(w', t[created.orderId := NewTrack(created)], log[created.id := created])
  {
    var log' := log[created.id := created];
    forall id | id in log' ensures HasRow(Rows(w', Home(log'[id])), log'[id]) {
      var x := Home(log'[id]);
      if id != created.id {
        assert HasRow(Rows(w, x), log[id]);
      }
      if x == OrderService {
        HasRowAppended(Rows(w, x), [created], log'[id]);
      }
    }
  }

  lemma CreateMessages(w: World, w': World, t: map<Id, Track>, log: Log, created: Event)
    requires MessagesOk(w, t, log) && created.OrderCreated? && created.orderId !in t && created.id !in log
    requires w'.order.outbox == w.order.outbox + [NewRow(created)] && w'.order.processed == w.order.processed
    requires w'.inv == w.inv && w'.pay == w.pay && w'.published == w.published
    ensures MessagesOk(w', t[created.orderId := NewTrack(created)], log[created.id := created])
  {
    hide LogOk, RowsOk;
    var log' := log[created.id := created];
    assert log' == Extend(log, [created]);
    CreateLog(w, w', t, log, created);
    forall x: Service ensures RowsOk(Rows(w', x), x, w'.published, log') {
      RowsOkExtended(Rows(w, x), x, w.published, log, [created], x == OrderService);
    }
  }

  lemma CreateInv(w: World, t: map<Id, Track>, log: Log, initial: map<string, int>, a: Action)
    returns (t': map<Id, Track>, log': Log)
    requires Inv(w, t, log, initial) && a.Create? && Enabled(w, a)
    ensures Inv(Apply(w, a), t', log', initial)
  {
    hide TracksOk, MessagesOk, Stock.Conserved;
    var w' := Apply(w, a);
    if w' == w {
      return t, log;
    }
    var created := OrderCreated(a.eventId, a.orderId, a.customerId, a.productId, a.quantity, a.totalAmount);
    FreshForLog(w, t, log, initial, a.eventId);
    assert a.orderId !in t by {
      TrackKeys(w, t, log);
    }
    CreateTracks(w, w', t, log, created);
    CreateMessages(w, w', t, log, created);
    return t[a.orderId := NewTrack(created)], log[created.id := created];
  }

  lemma TrackKeys(w: World, t: map<Id, Track>, log: Log)
    requires TracksOk(w, t, log)
    ensures t.Keys == w.order.orders.Keys
  {
  }

  lemma RowsOkPublished(rows: seq<OutboxRow>, s: Service, published: set<Event>, more: set<Event>, log: Log)
    requires RowsOk(rows, s, published, log) && published <= more
    ensures RowsOk(rows, s, more, log)
  {
  }

  lemma PublishMessages(w: World, t: map<Id, Track>, log: Log, a: Action)
    requires MessagesOk(w, t, log) && a.Publish? && Enabled(w, a)
    ensures MessagesOk(Apply(w, a), t, log)
  {
    hide LogOk, ProcessedOk, RowsOk;
    var w' := Apply(w, a);
    LogFrame(w, w', t, log);
    PublishedLogged(w, log, a);
    forall s: Service ensures RowsOk(Rows(w', s), s, w'.published, log) {
      RowsOkPublished(Rows(w, s), s, w.published, w'.published, log);
    }
  }

  lemma PublishedLogged(w: World, log: Log, a: Action)
    requires a.Publish? && Enabled(w, a) && RowsOk(Rows(w, a.service), a.service, w.published, log)
    ensures Logged(log, Rows(w, a.service)[a.row].event)
  {
  }

  lemma PublishInv(w: World, t: map<Id, Track>, log: Log, initial: map<string, int>, a: Action)
    requires Inv(w, t, log, initial) && a.Publish? && Enabled(w, a)
    ensures Inv(Apply(w, a), t, log, initial)
  {
    hide MessagesOk, TracksOk, TablesOk, Stock.Conserved;
    PublishMessages(w, t, log, a);
    TracksFrame(w, Apply(w, a), t, log);
  }

  /** The log is about the events the rows carry, not about their status. */
  lemma LogFrame(w: World, w': World, t: map<Id, Track>, log: Log)
    requires LogOk(w, t, log)
    requires forall s: Service :: |Rows(w', s)| == |Rows(w, s)|
    requires forall s: Service, i: nat :: i < |Rows(w, s)| ==> Rows(w', s)[i].event == Rows(w, s)[i].event
    ensures LogOk(w', t, log)
  {
    forall id | id in log ensures HasRow(Rows(w', Home(log[id])), log[id]) {
      assert HasRow(Rows(w, Home(log[id])), log[id]);
      var i: nat :| i < |Rows(w, Home(log[id]))| && Rows(w, Home(log[id]))[i].event == log[id];
      assert Rows(w', Home(log[id]))[i].event == log[id];
    }
  }

  lemma RowsOkMarked(rows: seq<OutboxRow>, s: Service, published: set<Event>, log: Log,
                     sent: set<nat>, failed: set<nat>)
    requires RowsOk(rows, s, published, log)
    requires forall i: nat :: i < |rows| && (i in sent || i in failed) ==> Eligible(rows[i])
    requires forall i: nat :: i < |rows| && i in sent ==> rows[i].event in published
    ensures RowsOk(Mark(rows, sent, failed), s, published, log)
  {
    hide Logged, Home;
    assert forall i: nat :: i < |rows| ==> Mark(rows, sent, failed)[i].event == rows[i].event;
  }

  /** What settling a pass changes, and what it leaves alone. */
  lemma SettleFrame(w: World, a: Action)
    requires a.Settle? && Enabled(w, a)
    ensures
      var w' := Apply(w, a);
      && (forall s: Service :: Rows(w', s) == if s == a.service then Mark(Rows(w, s), a.sent, a.failed) else Rows(w, s))
      && w'.published == w.published && w'.order.orders == w.order.orders
      && w'.inv.inventory == w.inv.inventory && w'.inv.reservations == w.inv.reservations
      && w'.pay.payments == w.pay.payments && w'.order.processed == w.order.processed
      && w'.inv.processed == w.inv.processed && w'.pay.processed == w.pay.processed
    ensures
      var rows := Rows(w, a.service);
      && (forall i: nat :: i < |rows| && (i in a.sent || i in a.failed) ==> Eligible(rows[i]))
      && (forall i: nat :: i < |rows| && i in a.sent ==> rows[i].event in w.published)
  {
    hide Mark, Eligible;
    assert forall i: nat :: i in a.sent || i in a.failed ==> i in a.sent + a.failed;
  }

  lemma SettleMessages(w: World, t: map<Id, Track>, log: Log, a: Action)
    requires MessagesOk(w, t, log) && a.Settle? && Enabled(w, a)
    ensures MessagesOk(Apply(w, a), t, log)
  {
    hide LogOk, ProcessedOk, RowsOk, Enabled, Apply, Logged, Eligible;
    var w' := Apply(w, a);
    SettleFrame(w, a);
    forall s: Service ensures RowsOk(Rows(w', s), s, w'.published, log) {
      if s == a.service {
        RowsOkMarked(Rows(w, s), s, w.published, log, a.sent, a.failed);
      }
    }
    LogFrame(w, w', t, log);
  }

  /** The tracks are about the domain tables and the marks. */
  lemma TracksFrame(w: World, w': World, t: map<Id, Track>, log: Log)
    requires TracksOk(w, t, log) && TablesOk(w, t)
    requires w'.order.orders == w.order.orders && w'.inv.inventory == w.inv.inventory
    requires w'.inv.reservations == w.inv.reservations && w'.pay.payments == w.pay.payments
    requires w'.order.processed == w.order.processed
    requires w'.inv.processed == w.inv.processed && w'.pay.processed == w.pay.processed
    ensures TracksOk(w', t, log) && TablesOk(w', t)
  {
    hide TrackOk, MarksOk, ReservationOk, ChargeOk, RejectionOk, TrackLogged;
  }

  lemma SettleInv(w: World, t: map<Id, Track>, log: Log, initial: map<string, int>, a: Action)
    requires Inv(w, t, log, initial) && a.Settle? && Enabled(w, a)
    ensures Inv(Apply(w, a), t, log, initial)
  {
    hide MessagesOk, TracksOk, TablesOk, Stock.Conserved, Enabled, Apply;
    SettleFrame(w, a);
    SettleMessages(w, t, log, a);
    TracksFrame(w, Apply(w, a), t, log);
    Stock.ConservedFrame(w.inv, Apply(w, a).inv, initial);
  }

  lemma DeliverInv(w: World, t: map<Id, Track>, log: Log, initial: map<string, int>, a: Action)
    returns (t': map<Id, Track>, log': Log)
    requires Inv(w, t, log, initial) && a.Deliver? && Enabled(w, a)
    ensures Inv(Apply(w, a), t', log', initial)
  {
    hide Inv, FreshId;
    var (e, c) := (a.event, a.choice);
    var r := HandleAt(w, a.to, e, c).1;
    if r != Done {
      assert Apply(w, a) == w;
      return t, log;
    }
    match a.to
    case OrderService => t', log' := OrderDeliveryInv(w, t, log, initial, e, c);
    case PaymentService => t', log' := PaymentDeliveryInv(w, t, log, initial, e, c);
    case InventoryService =>
      if e.OrderCreated? {
        t', log' := CreatedDeliveryInv(w, t, log, initial, e, c);
      } else {
        t', log' := ClosingDeliveryInv(w, t, log, initial, e);
      }
  }

  /** Every enabled step keeps the invariant. */
  lemma StepInv(w: World, t: map<Id, Track>, log: Log, initial: map<string, int>, a: Action)
    returns (t': map<Id, Track>, log': Log)
    requires Inv(w, t, log, initial) && Enabled(w, a)
    ensures Inv(Apply(w, a), t', log', initial)
  {
    hide Inv, FreshId;
    match a
    case Create(_, _, _, _, _, _, _) => t', log' := CreateInv(w, t, log, initial, a);
    case Deliver(_, _, _) => t', log' := DeliverInv(w, t, log, initial, a);
    case Publish(_, _) => PublishInv(w, t, log, initial, a); t', log' := t, log;
    case Settle(_, _, _) => SettleInv(w, t, log, initial, a); t', log' := t, log;
  }

  lemma {:induction false} RunInv(w0: World, acts: seq<Action>, initial: map<string, int>)
    returns (t: map<Id, Track>, log: Log)
    requires Init(w0, initial) && Executes(w0, acts)
    ensures Inv(After(w0, acts), t, log, initial)
  {
    hide Inv, Enabled, Apply, Init;
    if acts == [] {
      InitInv(w0, initial);
      t, log := map[], map[];
    } else {
      var n := |acts| - 1;
      var t0, log0 := RunInv(w0, acts[..n], initial);
      t, log := StepInv(After(w0, acts[..n]), t0, log0, initial, acts[n]);
    }
  }

  lemma ReachableInv(w: World, initial: map<string, int>) returns (t: map<Id, Track>, log: Log)
    requires Reachable(w, initial)
    ensures Inv(w, t, log, initial)
  {
    hide Inv, Init;
    var w0, acts :| Init(w0, initial) && Executes(w0, acts) && After(w0, acts) == w;
    t, log := RunInv(w0, acts, initial);
  }
}
