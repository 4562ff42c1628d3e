/** Every step of the saga keeps the invariant: each committed delivery advances one track. */
module SagaSteps {
  import opened SagaTypes
  import opened OutboxTable
  import opened Saga
  import opened SagaInvariant
  import O = OrderModel
  import I = InventoryModel
  import P = PaymentModel
  import Stock = StockConservation

  function Processed(w: World, s: Service): set<Id> {
    match s
    case OrderService => w.order.processed
    case InventoryService => w.inv.processed
    case PaymentService => w.pay.processed
  }

  function Extend(log: Log, news: seq<Event>): Log {
    if news == [] then log else log[news[0].id := news[0]]
  }

  function Appended(rows: seq<OutboxRow>, news: seq<Event>): seq<OutboxRow> {
    if news == [] then rows else rows + [NewRow(news[0])]
  }

  /** Delivering `e` to `s` marked it, appended the rows `news` and touched nothing that
      belongs to another order. */
  ghost predicate Touches(w: World, w': World, s: Service, e: Event, news: seq<Event>) {
    && w'.published == w.published
    && (forall x: Service :: Processed(w', x) == Processed(w, x) + if x == s then {e.id} else {})
    && (forall x: Service :: Rows(w', x) == if x == s then Appended(Rows(w, x), news) else Rows(w, x))
    && w'.order.orders.Keys == w.order.orders.Keys
    && w'.inv.inventory.Keys == w.inv.inventory.Keys
    && (forall o :: o in w.order.orders && o != e.orderId ==> w'.order.orders[o] == w.order.orders[o])
    && |w.inv.reservations| <= |w'.inv.reservations|
    && (forall i: nat :: i < |w.inv.reservations| && w.inv.reservations[i].orderId != e.orderId ==>
          w'.inv.reservations[i] == w.inv.reservations[i])
    && |w.pay.payments| <= |w'.pay.payments|
    && (forall i: nat :: i < |w.pay.payments| && w.pay.payments[i].orderId != e.orderId ==>
          w'.pay.payments[i] == w.pay.payments[i])
  }

  ghost predicate NewsOk(w: World, s: Service, e: Event, news: seq<Event>, k': Track) {
    && |news| <= 1
    && (news != [] ==>
          && FreshId(w, news[0].id) && Home(news[0]) == s
          && news[0].orderId == e.orderId && InTrack(k', news[0]))
  }

  lemma FreshNotLogged(w: World, t: map<Id, Track>, log: Log, id: Id)
    requires LogOk(w, t, log) && FreshId(w, id)
    ensures id !in log
  {
    assert id in log ==> HasRow(Rows(w, Home(log[id])), log[id]);
  }

  /** Events of different orders have different ids. */
  lemma OtherOrdersIds(o: Id, row: O.OrderRow, k: Track, log: Log, e: Event)
    requires TrackOk(o, row, k) && TrackLogged(k, log) && Logged(log, e) && e.orderId != o
    ensures k.created.id != e.id
    ensures k.stock.Some? ==> k.stock.value.id != e.id
    ensures k.payment.Some? ==> k.payment.value.id != e.id
    ensures k.closing.Some? ==> k.closing.value.id != e.id
  {
  }

  lemma HasRowAppended(rows: seq<OutboxRow>, news: seq<Event>, x: Event)
    requires HasRow(rows, x) || (news != [] && news[0] == x)
    ensures HasRow(Appended(rows, news), x)
  {
    var rows' := Appended(rows, news);
    if HasRow(rows, x) {
      var i: nat :| i < |rows| && rows[i].event == x;
      assert rows'[i].event == x;
    } else {
      assert rows'[|rows|].event == x;
    }
  }

  lemma LogStep(w: World, w': World, t: map<Id, Track>, log: Log, s: Service, e: Event, news: seq<Event>, k': Track)
    requires LogOk(w, t, log) && Touches(w, w', s, e, news) && NewsOk(w, s, e, news, k')
    requires e.orderId in t
    requires forall x :: InTrack(t[e.orderId], x) ==> InTrack(k', x)
    ensures LogOk(w', t[e.orderId := k'], Extend(log, news))
  {
    var log' := Extend(log, news);
    forall id | id in log' ensures HasRow(Rows(w', Home(log'[id])), log'[id]) {
      var x := Home(log'[id]);
      if news == [] || id != news[0].id {
        assert HasRow(Rows(w, x), log[id]);
      }
      if x == s {
        HasRowAppended(Rows(w, x), news, log'[id]);
      }
    }
  }

  lemma RowsOkExtended(rows: seq<OutboxRow>, x: Service, published: set<Event>, log: Log, news: seq<Event>, here: bool)
    requires RowsOk(rows, x, published, log)
    requires news != [] ==> news[0].id !in log && (here ==> Home(news[0]) == x)
    ensures RowsOk(if here then Appended(rows, news) else rows, x, published, Extend(log, news))
  {
    var rows' := if here then Appended(rows, news) else rows;
    forall i: nat | i < |rows'| ensures Logged(Extend(log, news), rows'[i].event) {
      if i < |rows| {
        assert rows'[i] == rows[i] && Logged(log, rows[i].event);
      }
    }
    assert forall i: nat :: i < |rows| ==> rows'[i] == rows[i];
  }

  lemma ProcessedStep(w: World, w': World, log: Log, s: Service, e: Event, news: seq<Event>, x: Service)
    requires Touches(w, w', s, e, news) && ProcessedOk(Processed(w, x), x, log)
    requires Logged(log, e) && Routes(s, e)
    requires news != [] ==> news[0].id !in log
    ensures ProcessedOk(Processed(w', x), x, Extend(log, news))
  {
    forall id | id in Processed(w', x) ensures id in Extend(log, news) && Routes(x, Extend(log, news)[id]) {
      assert id in Processed(w, x) || (x == s && id == e.id);
    }
  }

  lemma NewsFacts(w: World, t: map<Id, Track>, log: Log, s: Service, e: Event, news: seq<Event>, k': Track)
    requires LogOk(w, t, log) && NewsOk(w, s, e, news, k')
    ensures |news| <= 1 && (news != [] ==> news[0].id !in log && Home(news[0]) == s)
  {
    if news != [] {
      FreshNotLogged(w, t, log, news[0].id);
    }
  }

  lemma RowsStep(w: World, w': World, log: Log, s: Service, e: Event, news: seq<Event>, x: Service)
    requires RowsOk(Rows(w, x), x, w.published, log) && Touches(w, w', s, e, news)
    requires news != [] ==> news[0].id !in log && Home(news[0]) == s
    ensures RowsOk(Rows(w', x), x, w'.published, Extend(log, news))
  {
    hide RowsOk;
    RowsOkExtended(Rows(w, x), x, w.published, log, news, x == s);
  }

  lemma PublishedStep(w: World, w': World, log: Log, s: Service, e: Event, news: seq<Event>)
    requires Touches(w, w', s, e, news) && forall x :: x in w.published ==> Logged(log, x)
    requires news != [] ==> news[0].id !in log
    ensures forall x :: x in w'.published ==> Logged(Extend(log, news), x)
  {
  }

  lemma MessagesStep(w: World, w': World, t: map<Id, Track>, log: Log,
                     s: Service, e: Event, news: seq<Event>, k': Track)
    requires MessagesOk(w, t, log) && Touches(w, w', s, e, news) && NewsOk(w, s, e, news, k')
    requires Logged(log, e) && Routes(s, e) && e.orderId in t
    requires forall x :: InTrack(t[e.orderId], x) ==> InTrack(k', x)
    ensures MessagesOk(w', t[e.orderId := k'], Extend(log, news))
  {
    hide LogOk, RowsOk, ProcessedOk, Touches, NewsOk, InTrack, Routes, Logged, Extend;
    NewsFacts(w, t, log, s, e, news, k');
    LogStep(w, w', t, log, s, e, news, k');
    forall x: Service ensures RowsOk(Rows(w', x), x, w'.published, Extend(log, news)) {
      RowsStep(w, w', log, s, e, news, x);
    }
    PublishedStep(w, w', log, s, e, news);
    ProcessedStep(w, w', log, s, e, news, OrderService);
    ProcessedStep(w, w', log, s, e, news, InventoryService);
    ProcessedStep(w, w', log, s, e, news, PaymentService);
  }

  /** The tracks of the other orders stay true. */
  lemma OtherTrack(w: World, w': World, t: map<Id, Track>, log: Log, s: Service, e: Event, news: seq<Event>, o: Id)
    requires TracksOk(w, t, log) && Touches(w, w', s, e, news) && Logged(log, e)
    requires o in t && o != e.orderId
    requires news != [] ==> news[0].id !in log
    ensures MarksOk(t[o], w'.order.processed, w'.inv.processed, w'.pay.processed)
    ensures ReservationOk(o, t[o], w'.inv.reservations) && ChargeOk(o, t[o], w'.pay.payments)
    ensures TrackLogged(t[o], Extend(log, news))
  {
    assert Processed(w', OrderService) == w'.order.processed && Processed(w, OrderService) == w.order.processed;
    assert Processed(w', InventoryService) == w'.inv.processed && Processed(w, InventoryService) == w.inv.processed;
    assert Processed(w', PaymentService) == w'.pay.processed && Processed(w, PaymentService) == w.pay.processed;
    OtherOrdersIds(o, w.order.orders[o], t[o], log, e);
  }

  lemma TracksStep(w: World, w': World, t: map<Id, Track>, log: Log, s: Service, e: Event, news: seq<Event>, k': Track)
    requires TracksOk(w, t, log) && Touches(w, w', s, e, news)
    requires news != [] ==> news[0].id !in log
    requires Logged(log, e) && e.orderId in t
    requires TrackOk(e.orderId, w'.order.orders[e.orderId], k') && TrackLogged(k', Extend(log, news))
    requires MarksOk(k', w'.order.processed, w'.inv.processed, w'.pay.processed)
    requires ReservationOk(e.orderId, k', w'.inv.reservations) && ChargeOk(e.orderId, k', w'.pay.payments)
    requires RejectionOk(k', w'.inv.inventory.Keys)
    ensures TracksOk(w', t[e.orderId := k'], Extend(log, news))
  {
    hide TrackOk, MarksOk, ReservationOk, ChargeOk, RejectionOk, TrackLogged;
    forall o | o in t && o != e.orderId
      ensures TrackOk(o, w'.order.orders[o], t[o])
      ensures MarksOk(t[o], w'.order.processed, w'.inv.processed, w'.pay.processed)
      ensures ReservationOk(o, t[o], w'.inv.reservations) && ChargeOk(o, t[o], w'.pay.payments)
      ensures RejectionOk(t[o], w'.inv.inventory.Keys)
      ensures TrackLogged(t[o], Extend(log, news))
    {
      OtherTrack(w, w', t, log, s, e, news, o);
    }
  }

  lemma Advance(w: World, w': World, t: map<Id, Track>, log: Log, initial: map<string, int>,
                s: Service, e: Event, news: seq<Event>, k': Track)
    requires Inv(w, t, log, initial) && Touches(w, w', s, e, news) && NewsOk(w, s, e, news, k')
    requires Logged(log, e) && Routes(s, e) && e.orderId in t
    requires forall x :: InTrack(t[e.orderId], x) ==> InTrack(k', x)
    requires TrackOk(e.orderId, w'.order.orders[e.orderId], k') && TrackLogged(k', Extend(log, news))
    requires MarksOk(k', w'.order.processed, w'.inv.processed, w'.pay.processed)
    requires ReservationOk(e.orderId, k', w'.inv.reservations) && ChargeOk(e.orderId, k', w'.pay.payments)
    requires RejectionOk(k', w'.inv.inventory.Keys)
    requires TablesOk(w', t[e.orderId := k']) && Stock.Conserved(w'.inv, initial)
    ensures Inv(w', t[e.orderId := k'], Extend(log, news), initial)
  {
    if news != [] {
      FreshNotLogged(w, t, log, news[0].id);
    }
    TracksStep(w, w', t, log, s, e, news, k');
    MessagesStep(w, w', t, log, s, e, news, k');
  }

  // ----- one lemma per handler

  /** The event ids of one track are pairwise distinct. */
  lemma OwnIds(o: Id, row: O.OrderRow, k: Track, log: Log)
    requires TrackOk(o, row, k) && TrackLogged(k, log)
    ensures k.stock.Some? ==> k.stock.value.id != k.created.id
    ensures k.payment.Some? ==> k.payment.value.id != k.created.id && k.payment.value.id != k.stock.value.id
    ensures k.closing.Some? ==> k.closing.value.id != k.created.id && k.closing.value.id != k.stock.value.id
                                && k.closing.value.id != k.payment.value.id
  {
  }

  /** What the track of an event's order says about the event. */
  ghost predicate Follows(k: Track, e: Event) {
    && (e.OrderCreated? ==> e == k.created)
    && (e.StockReserved? || e.StockReserveFailed? ==> k.stock == Some(e))
    && (e.PaymentCompleted? || e.PaymentFailed? ==> k.payment == Some(e))
    && (e.OrderCompleted? || e.OrderCancelled? ==> k.closing == Some(e))
  }

  /** What the invariant says about a published event and its order. */
  lemma Local(w: World, t: map<Id, Track>, log: Log, initial: map<string, int>, e: Event)
    requires Inv(w, t, log, initial) && e in w.published
    ensures Logged(log, e) && e.orderId in t && e.orderId in w.order.orders
    ensures
      var o, k := e.orderId, t[e.orderId];
      && Follows(k, e)
      && TrackOk(o, w.order.orders[o], k) && TrackLogged(k, log)
      && MarksOk(k, w.order.processed, w.inv.processed, w.pay.processed)
      && ReservationOk(o, k, w.inv.reservations) && ChargeOk(o, k, w.pay.payments)
      && RejectionOk(k, w.inv.inventory.Keys)
  {
    hide RowsOk, ProcessedOk, Stock.Conserved, TablesOk, HasRow;
    assert log[e.id] == e && InTrack(t[e.orderId], e);
  }

  lemma FreshForLog(w: World, t: map<Id, Track>, log: Log, initial: map<string, int>, id: Id)
    requires Inv(w, t, log, initial) && FreshId(w, id)
    ensures id !in log
    ensures id !in w.order.processed && id !in w.inv.processed && id !in w.pay.processed
  {
    hide TracksOk, TablesOk, RowsOk, Stock.Conserved;
    FreshNotLogged(w, t, log, id);
  }

  /** Growing a table by one row of the order, or not at all. */
  lemma TablesStep(w: World, w': World, t: map<Id, Track>, o: Id, k': Track)
    requires TablesOk(w, t) && o in t
    requires |w.inv.reservations| <= |w'.inv.reservations| && |w.pay.payments| <= |w'.pay.payments|
    requires forall i: nat :: i < |w.inv.reservations| ==>
               w'.inv.reservations[i].orderId == w.inv.reservations[i].orderId
    requires forall i: nat :: i < |w.pay.payments| ==> w'.pay.payments[i].orderId == w.pay.payments[i].orderId
    requires forall i: nat :: |w.inv.reservations| <= i < |w'.inv.reservations| ==>
               w'.inv.reservations[i].orderId == o && k'.reservation == Some(i)
    requires forall i: nat :: |w.pay.payments| <= i < |w'.pay.payments| ==>
               w'.pay.payments[i].orderId == o && k'.charge == Some(i)
    requires t[o].reservation.None? || k'.reservation == t[o].reservation
    requires t[o].charge.None? || k'.charge == t[o].charge
    ensures TablesOk(w', t[o := k'])
  {
    forall i: nat | i < |w'.inv.reservations|
      ensures w'.inv.reservations[i].orderId in t
              && t[o := k'][w'.inv.reservations[i].orderId].reservation == Some(i)
    {
      if i < |w.inv.reservations| {
        assert t[w.inv.reservations[i].orderId].reservation == Some(i);
      }
    }
    forall i: nat | i < |w'.pay.payments|
      ensures w'.pay.payments[i].orderId in t && t[o := k'][w'.pay.payments[i].orderId].charge == Some(i)
    {
      if i < |w.pay.payments| {
        assert t[w.pay.payments[i].orderId].charge == Some(i);
      }
    }
  }

  /** The event that a committed order handler writes, and the track after it. */
  function OrderNews(e: Event, id: Id): seq<Event> {
    if e.PaymentCompleted? then [OrderCompleted(id, e.orderId)]
    else if e.PaymentFailed? then [OrderCancelled(id, e.orderId, e.reason)]
    else []
  }

  function OrderTrack(k: Track, news: seq<Event>): Track {
    if news == [] then k.(stockSeen := true) else k.(closing := Some(news[0]))
  }

  lemma OrderTrackStep(db: O.OrderDb, atInventory: set<Id>, atPayment: set<Id>, k: Track, log: Log, e: Event, id: Id)
    requires Routes(OrderService, e) && e.orderId in db.orders && Follows(k, e)
    requires TrackOk(e.orderId, db.orders[e.orderId], k) && TrackLogged(k, log)
    requires MarksOk(k, db.processed, atInventory, atPayment)
    requires id !in log && id !in atInventory && id !in atPayment
    requires O.Handle(db, e, id).1 == Done
    ensures
      var db' := O.Handle(db, e, id).0;
      var k' := OrderTrack(k, OrderNews(e, id));
      && k'.reservation == k.reservation && k'.charge == k.charge
      && e.orderId in db'.orders && TrackOk(e.orderId, db'.orders[e.orderId], k')
      && TrackLogged(k', Extend(log, OrderNews(e, id)))
      && MarksOk(k', db'.processed, atInventory, atPayment)
      && (forall x :: InTrack(k, x) ==> InTrack(k', x))
  {
    OwnIds(e.orderId, db.orders[e.orderId], k, log);
  }

  lemma OrderTouches(w: World, e: Event, id: Id)
    requires Routes(OrderService, e) && e.orderId in w.order.orders && O.Handle(w.order, e, id).1 == Done
    ensures Touches(w, w.(order := O.Handle(w.order, e, id).0), OrderService, e, OrderNews(e, id))
  {
    assert w.order.outbox + [] == w.order.outbox;
  }

  lemma OrderDeliveryInv(w: World, t: map<Id, Track>, log: Log, initial: map<string, int>, e: Event, c: Choice)
    returns (t': map<Id, Track>, log': Log)
    requires Inv(w, t, log, initial) && e in w.published && Routes(OrderService, e) && FreshId(w, c.eventId)
    requires O.Handle(w.order, e, c.eventId).1 == Done
    ensures Inv(w.(order := O.Handle(w.order, e, c.eventId).0), t', log', initial)
  {
    hide TracksOk, TablesOk, MessagesOk, Stock.Conserved, O.Handle, TrackOk, MarksOk, TrackLogged, Touches;
    Local(w, t, log, initial, e);
    FreshForLog(w, t, log, initial, c.eventId);
    var k := t[e.orderId];
    var w' := w.(order := O.Handle(w.order, e, c.eventId).0);
    var news := OrderNews(e, c.eventId);
    var k' := OrderTrack(k, news);
    OrderTrackStep(w.order, w.inv.processed, w.pay.processed, k, log, e, c.eventId);
    OrderTouches(w, e, c.eventId);
    TablesStep(w, w', t, e.orderId, k');
    t', log' := t[e.orderId := k'], Extend(log, news);
    Advance(w, w', t, log, initial, OrderService, e, news, k');
  }

  /** The event that a charge or its failure writes, and the track after a payment handler. */
  function PaymentNews(e: Event, c: Choice): seq<Event> {
    if !e.StockReserved? then []
    else if c.declines then [PaymentFailed(c.eventId, e.orderId, DECLINED)]
    else [PaymentCompleted(c.eventId, e.orderId, c.rowId, e.totalAmount)]
  }

  function PaymentTrack(k: Track, news: seq<Event>, charge: nat): Track {
    if news == [] then k.(refundSeen := true) else k.(payment := Some(news[0]), charge := Some(charge))
  }

  lemma PaymentTrackStep(db: P.PaymentDb, atOrder: set<Id>, atInventory: set<Id>, row: O.OrderRow,
                         rs: seq<I.ReservationRow>, k: Track, log: Log, e: Event, c: Choice)
    requires Routes(PaymentService, e) && Follows(k, e)
    requires TrackOk(e.orderId, row, k) && TrackLogged(k, log)
    requires MarksOk(k, atOrder, atInventory, db.processed)
    requires ReservationOk(e.orderId, k, rs) && ChargeOk(e.orderId, k, db.payments)
    requires c.eventId !in log && c.eventId !in atOrder && c.eventId !in atInventory
    requires e.OrderCancelled? ==> RefundsNothing(db, e.orderId)
    requires P.Handle(db, e, c.rowId, c.eventId, c.declines).1 == Done
    ensures
      var db' := P.Handle(db, e, c.rowId, c.eventId, c.declines).0;
      var k' := PaymentTrack(k, PaymentNews(e, c), |db.payments|);
      && TrackOk(e.orderId, row, k')
      && TrackLogged(k', Extend(log, PaymentNews(e, c)))
      && MarksOk(k', atOrder, atInventory, db'.processed)
      && ReservationOk(e.orderId, k', rs) && ChargeOk(e.orderId, k', db'.payments)
      && k'.reservation == k.reservation && (k.charge.None? || k'.charge == k.charge)
      && (forall x :: InTrack(k, x) ==> InTrack(k', x))
  {
    OwnIds(e.orderId, row, k, log);
  }

  ghost predicate RefundsNothing(db: P.PaymentDb, o: Id) {
    var found := P.FirstOf(db.payments, o);
    found.Some? && db.payments[found.value].status == P.PaymentStatus.Failed
  }

  lemma PaymentTouches(w: World, e: Event, c: Choice)
    requires Routes(PaymentService, e) && P.Handle(w.pay, e, c.rowId, c.eventId, c.declines).1 == Done
    requires e.OrderCancelled? ==> RefundsNothing(w.pay, e.orderId)
    ensures
      var w' := w.(pay := P.Handle(w.pay, e, c.rowId, c.eventId, c.declines).0);
      && Touches(w, w', PaymentService, e, PaymentNews(e, c))
      && (forall i: nat :: i < |w.pay.payments| ==> w'.pay.payments[i] == w.pay.payments[i])
      && if e.OrderCancelled? then w'.pay.payments == w.pay.payments
         else |w'.pay.payments| == |w.pay.payments| + 1 && w'.pay.payments[|w.pay.payments|].orderId == e.orderId
  {
  }

  lemma PaymentDeliveryInv(w: World, t: map<Id, Track>, log: Log, initial: map<string, int>, e: Event, c: Choice)
    returns (t': map<Id, Track>, log': Log)
    requires Inv(w, t, log, initial) && e in w.published && Routes(PaymentService, e) && FreshId(w, c.eventId)
    requires P.Handle(w.pay, e, c.rowId, c.eventId, c.declines).1 == Done
    ensures Inv(w.(pay := P.Handle(w.pay, e, c.rowId, c.eventId, c.declines).0), t', log', initial)
  {
    hide TracksOk, TablesOk, MessagesOk, Stock.Conserved, P.Handle, P.FirstOf, MarksOk, TrackLogged, Touches,
         ReservationOk, ChargeOk;
    Local(w, t, log, initial, e);
    FreshForLog(w, t, log, initial, c.eventId);
    if e.OrderCancelled? {
      PaymentOfCancelled(w, t, log, initial, e.orderId);
    }
    var k := t[e.orderId];
    var w' := w.(pay := P.Handle(w.pay, e, c.rowId, c.eventId, c.declines).0);
    var news := PaymentNews(e, c);
    var k' := PaymentTrack(k, news, |w.pay.payments|);
    PaymentTrackStep(w.pay, w.order.processed, w.inv.processed, w.order.orders[e.orderId],
                     w.inv.reservations, k, log, e, c);
    PaymentTouches(w, e, c);
    TablesStep(w, w', t, e.orderId, k');
    t', log' := t[e.orderId := k'], Extend(log, news);
    Advance(w, w', t, log, initial, PaymentService, e, news, k');
  }

  /** The payment that the refund branch finds for a cancelled order has failed. */
  lemma PaymentOfCancelled(w: World, t: map<Id, Track>, log: Log, initial: map<string, int>, o: Id)
    requires Inv(w, t, log, initial) && o in t && t[o].closing.Some? && t[o].closing.value.OrderCancelled?
    ensures P.FirstOf(w.pay.payments, o) == t[o].charge
    ensures t[o].charge.Some? && w.pay.payments[t[o].charge.value].status == P.PaymentStatus.Failed
  {
    hide MessagesOk, Stock.Conserved;
    assert TrackOk(o, w.order.orders[o], t[o]) && ChargeOk(o, t[o], w.pay.payments);
    var found := P.FirstOf(w.pay.payments, o);
    assert w.pay.payments[t[o].charge.value].orderId == o;
  }

  function CreatedNews(db: I.InventoryDb, e: Event, c: Choice): seq<Event>
    requires e.OrderCreated?
  {
    var stock := if e.productId in db.inventory then I.Reserve(db.inventory[e.productId], e.quantity)
                 else Err(ProductNotFound);
    match stock
    case Err(error) => [StockReserveFailed(c.eventId, e.orderId, e.productId, e.quantity, Message(error))]
    case Ok(_) => [StockReserved(c.eventId, e.orderId, e.productId, e.quantity, c.rowId, e.customerId, e.totalAmount)]
  }

  function CreatedTrack(k: Track, x: Event, reservation: nat): Track {
    k.(stock := Some(x), reservation := if x.StockReserved? then Some(reservation) else None)
  }

  lemma CreatedTrackStep(db: I.InventoryDb, atOrder: set<Id>, atPayment: set<Id>, row: O.OrderRow,
                         ps: seq<P.PaymentRow>, k: Track, log: Log, e: Event, c: Choice)
    requires e.OrderCreated? && Follows(k, e)
    requires TrackOk(e.orderId, row, k) && TrackLogged(k, log)
    requires MarksOk(k, atOrder, db.processed, atPayment)
    requires ReservationOk(e.orderId, k, db.reservations) && ChargeOk(e.orderId, k, ps)
    requires c.eventId !in log && c.eventId !in atOrder && c.eventId !in atPayment
    requires I.OnOrderCreated(db, e, c.rowId, c.eventId).1 == Done
    ensures
      var db' := I.OnOrderCreated(db, e, c.rowId, c.eventId).0;
      var news := CreatedNews(db, e, c);
      var k' := CreatedTrack(k, news[0], |db.reservations|);
      && TrackOk(e.orderId, row, k')
      && TrackLogged(k', Extend(log, news))
      && MarksOk(k', atOrder, db'.processed, atPayment)
      && ReservationOk(e.orderId, k', db'.reservations) && RejectionOk(k', db'.inventory.Keys)
      && ChargeOk(e.orderId, k', ps) && k.reservation.None? && k'.charge == k.charge
      && (forall x :: InTrack(k, x) ==> InTrack(k', x))
  {
    OwnIds(e.orderId, row, k, log);
  }

  lemma CreatedTouches(w: World, e: Event, c: Choice)
    requires e.OrderCreated? && I.OnOrderCreated(w.inv, e, c.rowId, c.eventId).1 == Done
    ensures
      var w' := w.(inv := I.OnOrderCreated(w.inv, e, c.rowId, c.eventId).0);
      var n := |w.inv.reservations|;
      var news := CreatedNews(w.inv, e, c);
      && Touches(w, w', InventoryService, e, news)
      && w'.inv.reservations[..n] == w.inv.reservations
      && |w'.inv.reservations| == n + (if news[0].StockReserved? then 1 else 0)
      && (news[0].StockReserved? ==> w'.inv.reservations[n].orderId == e.orderId)
  {
  }

  lemma CreatedDeliveryInv(w: World, t: map<Id, Track>, log: Log, initial: map<string, int>, e: Event, c: Choice)
    returns (t': map<Id, Track>, log': Log)
    requires Inv(w, t, log, initial) && e in w.published && e.OrderCreated? && FreshId(w, c.eventId)
    requires I.OnOrderCreated(w.inv, e, c.rowId, c.eventId).1 == Done
    ensures Inv(w.(inv := I.OnOrderCreated(w.inv, e, c.rowId, c.eventId).0), t', log', initial)
  {
    hide TracksOk, TablesOk, MessagesOk, Stock.Conserved, I.OnOrderCreated, TrackOk, MarksOk, TrackLogged, Touches,
         ReservationOk, ChargeOk, RejectionOk;
    Local(w, t, log, initial, e);
    FreshForLog(w, t, log, initial, c.eventId);
    Stock.HandleConserves(w.inv, e, c.rowId, c.eventId, initial);
    var k := t[e.orderId];
    var w' := w.(inv := I.OnOrderCreated(w.inv, e, c.rowId, c.eventId).0);
    var news := CreatedNews(w.inv, e, c);
    var k' := CreatedTrack(k, news[0], |w.inv.reservations|);
    CreatedTrackStep(w.inv, w.order.processed, w.pay.processed, w.order.orders[e.orderId],
                     w.pay.payments, k, log, e, c);
    CreatedTouches(w, e, c);
    TablesStep(w, w', t, e.orderId, k');
    t', log' := t[e.orderId := k'], Extend(log, news);
    Advance(w, w', t, log, initial, InventoryService, e, news, k');
  }

  lemma OneReservation(w: World, t: map<Id, Track>, log: Log, initial: map<string, int>, o: Id)
    requires Inv(w, t, log, initial) && o in t
    ensures forall i: nat :: i < |w.inv.reservations| && w.inv.reservations[i].orderId == o ==>
              t[o].reservation == Some(i)
  {
    hide TracksOk, MessagesOk, Stock.Conserved;
  }

  /** In the saga a closing event finds one reservation of its order, and resolves it. */
  lemma ClosingResolvesOne(w: World, t: map<Id, Track>, log: Log, initial: map<string, int>, e: Event)
    requires Inv(w, t, log, initial) && e in w.published && (e.OrderCancelled? || e.OrderCompleted?)
    requires e.id !in w.inv.processed
    ensures
      var k := t[e.orderId];
      var db' := I.OnOrderClosed(w.inv, e).0;
      && e.orderId in t && k.reservation.Some? && k.reservation.value < |w.inv.reservations|
      && w.inv.reservations[k.reservation.value].status == I.Reserved
      && db'.outbox == w.inv.outbox && db'.processed == w.inv.processed + {e.id}
      && db'.inventory.Keys == w.inv.inventory.Keys
      && db'.reservations == w.inv.reservations[k.reservation.value :=
           w.inv.reservations[k.reservation.value].(status := if e.OrderCompleted? then I.Committed else I.Released)]
  {
    hide TracksOk, TablesOk, MessagesOk, Stock.Conserved, I.OnOrderClosed;
    Local(w, t, log, initial, e);
    Stock.ClosingIsExact(w.inv, e, initial);
    OneReservation(w, t, log, initial, e.orderId);
  }

  lemma ClosingDeliveryInv(w: World, t: map<Id, Track>, log: Log, initial: map<string, int>, e: Event)
    returns (t': map<Id, Track>, log': Log)
    requires Inv(w, t, log, initial) && e in w.published && (e.OrderCancelled? || e.OrderCompleted?)
    requires e.id !in w.inv.processed
    ensures Inv(w.(inv := I.OnOrderClosed(w.inv, e).0), t', log', initial)
  {
    hide TracksOk, TablesOk, MessagesOk, Stock.Conserved, I.OnOrderClosed;
    Local(w, t, log, initial, e);
    var o := e.orderId;
    var k := t[o];
    var w' := w.(inv := I.OnOrderClosed(w.inv, e).0);
    OwnIds(o, w.order.orders[o], k, log);
    Stock.HandleConserves(w.inv, e, 0, 0, initial);
    ClosingResolvesOne(w, t, log, initial, e);
    var k' := k.(closingSeen := true);
    t', log' := t[o := k'], log;
    assert TrackOk(o, w'.order.orders[o], k');
    TablesStep(w, w', t, o, k');
    Advance(w, w', t, log, initial, InventoryService, e, [], k');
  }
}
