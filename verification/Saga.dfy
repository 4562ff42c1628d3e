/** The composed saga as a step machine: three databases, three outboxes, and a broker that
    may lose, duplicate and reorder whatever the relays have ever published. */
module Saga {
  import opened SagaTypes
  import opened OutboxTable
  import O = OrderModel
  import I = InventoryModel
  import P = PaymentModel
  import Stock = StockConservation

  datatype World = World(order: O.OrderDb, inv: I.InventoryDb, pay: P.PaymentDb, published: set<Event>)

  function Rows(w: World, s: Service): seq<OutboxRow> {
    match s
    case OrderService => w.order.outbox
    case InventoryService => w.inv.outbox
    case PaymentService => w.pay.outbox
  }

  function WithRows(w: World, s: Service, rows: seq<OutboxRow>): World {
    match s
    case OrderService => w.(order := w.order.(outbox := rows))
    case InventoryService => w.(inv := w.inv.(outbox := rows))
    case PaymentService => w.(pay := w.pay.(outbox := rows))
  }

  /** No outbox carries the event id: what drawing a UUID for a new event gives. */
  ghost predicate FreshId(w: World, id: Id) {
    forall s: Service, i: nat :: i < |Rows(w, s)| ==> Rows(w, s)[i].event.id != id
  }

  datatype Action =
    | Create(orderId: Id, eventId: Id, customerId: string, productId: string, quantity: int, totalAmount: real,
             commits: bool)
    | Deliver(to: Service, event: Event, choice: Choice)
    | Publish(service: Service, row: nat)
    | Settle(service: Service, sent: set<nat>, failed: set<nat>)

  /** The handler call that a delivery makes, with its report. */
  function HandleAt(w: World, s: Service, e: Event, c: Choice): (World, Report)
    requires Routes(s, e)
  {
    match s
    case OrderService =>
      var (db, r) := Settled(w.order, O.Handle(w.order, e, c.eventId), c.commits);
      (w.(order := db), r)
    case InventoryService =>
      var (db, r) := Settled(w.inv, I.Handle(w.inv, e, c.rowId, c.eventId), c.commits);
      (w.(inv := db), r)
    case PaymentService =>
      var (db, r) := Settled(w.pay, P.Handle(w.pay, e, c.rowId, c.eventId, c.declines), c.commits);
      (w.(pay := db), r)
  }

  ghost predicate Enabled(w: World, a: Action) {
    match a
    case Create(orderId, eventId, _, _, _, _, _) => orderId !in w.order.orders && FreshId(w, eventId)
    case Deliver(s, e, c) => e in w.published && Routes(s, e) && FreshId(w, c.eventId)
    case Publish(s, i) => i < |Rows(w, s)| && Eligible(Rows(w, s)[i])
    case Settle(s, sent, failed) =>
      && sent !! failed
      && (forall i :: i in sent + failed ==> i < |Rows(w, s)| && Eligible(Rows(w, s)[i]))
      && (forall i :: i in sent ==> Rows(w, s)[i].event in w.published)
  }

  function Apply(w: World, a: Action): World
    requires Enabled(w, a)
  {
    match a
    case Create(orderId, eventId, customerId, productId, quantity, totalAmount, commits) =>
      w.(order := Settled(w.order, O.OnCreate(w.order, orderId, eventId, customerId, productId, quantity, totalAmount),
                          commits).0)
    case Deliver(s, e, c) => HandleAt(w, s, e, c).0
    case Publish(s, i) => w.(published := w.published + {Rows(w, s)[i].event})
    case Settle(s, sent, failed) => WithRows(w, s, Mark(Rows(w, s), sent, failed))
  }

  // ----- runs

  ghost predicate Init(w: World, initial: map<string, int>) {
    && w.order == O.OrderDb(map[], [], {})
    && Stock.Fresh(w.inv, initial)
    && w.pay == P.PaymentDb([], [], {})
    && w.published == {}
  }

  ghost predicate Executes(w: World, acts: seq<Action>)
    decreases |acts|, 0
  {
    acts == [] || (Executes(w, acts[..|acts| - 1]) && Enabled(After(w, acts[..|acts| - 1]), acts[|acts| - 1]))
  }

  ghost function After(w: World, acts: seq<Action>): World
    requires Executes(w, acts)
    decreases |acts|, 1
  {
    if acts == [] then w else Apply(After(w, acts[..|acts| - 1]), acts[|acts| - 1])
  }

  /** Some run from a deployed system with opening stock `initial` ends in `w`. */
  ghost predicate Reachable(w: World, initial: map<string, int>) {
    exists w0: World, acts: seq<Action> ::
      Init(w0, initial) && Executes(w0, acts) && After(w0, acts) == w
  }
}
