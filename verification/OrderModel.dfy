/** The order database as a value, and what each handler does to it as one transaction. */
module OrderModel {
  import opened SagaTypes

  datatype OrderStatus = Pending | Confirmed | Completed | Cancelled

  datatype OrderRow = OrderRow(customerId: string, productId: string, quantity: int, totalAmount: real,
                               status: OrderStatus)

  datatype OrderDb = OrderDb(orders: map<Id, OrderRow>, outbox: seq<OutboxRow>, processed: set<Id>)

  // ----- the order's state machine

  function NewOrder(customerId: string, productId: string, quantity: int, totalAmount: real): Result<OrderRow> {
    if customerId == "" then Err(InvalidCustomerId)
    else if productId == "" then Err(InvalidProductId)
    else if quantity <= 0 then Err(InvalidQuantity)
    else if totalAmount <= 0.0 then Err(InvalidTotalAmount)
    else Ok(OrderRow(customerId, productId, quantity, totalAmount, OrderStatus.Pending))
  }

  function Confirm(s: OrderStatus): Result<OrderStatus> {
    if s != OrderStatus.Pending then Err(InvalidTransition) else Ok(Confirmed)
  }

  function Complete(s: OrderStatus): Result<OrderStatus> {
    if s != Confirmed then Err(InvalidTransition) else Ok(Completed)
  }

  /** Everything but a completed order can be cancelled, a cancelled one included. */
  function Cancel(s: OrderStatus): Result<OrderStatus> {
    if s == Completed then Err(InvalidTransition) else Ok(Cancelled)
  }

  // ----- handlers

  function OnCreate(db: OrderDb, orderId: Id, eventId: Id,
                    customerId: string, productId: string, quantity: int, totalAmount: real): (OrderDb, Report) {
    match NewOrder(customerId, productId, quantity, totalAmount)
    case Err(error) => (db, Failed(error))
    case Ok(row) =>
      var created := OrderCreated(eventId, orderId, customerId, productId, quantity, totalAmount);
      (db.(orders := db.orders[orderId := row], outbox := db.outbox + [NewRow(created)]), Done)
  }

  /** The transition an event asks for. */
  function Transition(s: OrderStatus, e: Event): Result<OrderStatus>
    requires Routes(OrderService, e)
  {
    match e
    case StockReserved(_, _, _, _, _, _, _) => Confirm(s)
    case PaymentCompleted(_, _, _, _) => Complete(s)
    case _ => Cancel(s)
  }

  /** The rows the transaction appends to the outbox. */
  function Announce(e: Event, eventId: Id): seq<OutboxRow>
    requires Routes(OrderService, e)
  {
    match e
    case PaymentCompleted(_, orderId, _, _) => [NewRow(OrderCompleted(eventId, orderId))]
    case PaymentFailed(_, orderId, reason) => [NewRow(OrderCancelled(eventId, orderId, reason))]
    case _ => []
  }

  /** The four event handlers. A refused transition returns without commit, so the event's
      mark is rolled back and the event still counts when it is delivered again. */
  function Handle(db: OrderDb, e: Event, eventId: Id): (OrderDb, Report)
    requires Routes(OrderService, e)
  {
    if e.id in db.processed then (db, Duplicate)
    else if e.orderId !in db.orders then (db, Failed(OrderNotFound))
    else
      var row := db.orders[e.orderId];
      match Transition(row.status, e)
      case Err(_) => (db, Ignored)
      case Ok(status) =>
        (OrderDb(db.orders[e.orderId := row.(status := status)],
                 db.outbox + Announce(e, eventId),
                 db.processed + {e.id}),
         Done)
  }
}
