/** Values shared by the three services: identifiers, events, outbox rows and handler reports. */
module SagaTypes {

  /** A UUID. Drawing one is modelled as choosing an identifier that is not in use. */
  type Id = nat

  datatype Option<+T> = None | Some(value: T)

  datatype Result<+T> = Ok(value: T) | Err(error: Error)

  datatype Error =
    | InvalidCustomerId
    | InvalidProductId
    | InvalidQuantity
    | InvalidTotalAmount
    | InvalidAmount
    | InvalidTransition
    | InsufficientStock
    | OrderNotFound
    | ProductNotFound
    | TransactionAborted

  /** The text that ends up as the reason of a StockReserveFailed event. */
  function Message(e: Error): string {
    match e
    case InsufficientStock => "insufficient stock"
    case ProductNotFound => "product not found"
    case InvalidQuantity => "quantity must be greater than 0"
    case _ => "error"
  }

  const DECLINED := "Payment declined by provider"

  /** How a handler call ended: committed, skipped as a duplicate, skipped because the
      order's status forbids the transition (rolled back), or returned an error (rolled back). */
  datatype Report = Done | Duplicate | Ignored | Failed(error: Error)

  datatype Event =
    | OrderCreated(id: Id, orderId: Id, customerId: string, productId: string, quantity: int, totalAmount: real)
    | OrderCompleted(id: Id, orderId: Id)
    | OrderCancelled(id: Id, orderId: Id, reason: string)
    | StockReserved(id: Id, orderId: Id, productId: string, quantity: int,
                    reservationId: Id, customerId: string, totalAmount: real)
    | StockReserveFailed(id: Id, orderId: Id, productId: string, quantity: int, reason: string)
    | PaymentCompleted(id: Id, orderId: Id, paymentId: Id, amount: real)
    | PaymentFailed(id: Id, orderId: Id, reason: string)

  datatype Service = OrderService | InventoryService | PaymentService

  /** The subscriptions made by the three event consumers. */
  predicate Routes(s: Service, e: Event) {
    match s
    case OrderService => e.StockReserved? || e.StockReserveFailed? || e.PaymentCompleted? || e.PaymentFailed?
    case InventoryService => e.OrderCreated? || e.OrderCancelled? || e.OrderCompleted?
    case PaymentService => e.StockReserved? || e.OrderCancelled?
  }

  /** The service whose outbox an event is written to. */
  function Home(e: Event): Service {
    if e.OrderCreated? || e.OrderCompleted? || e.OrderCancelled? then OrderService
    else if e.StockReserved? || e.StockReserveFailed? then InventoryService
    else PaymentService
  }

  datatype RowStatus = Pending | Sent

  /** A row of an outbox table; the table is a sequence ordered by created_at. */
  datatype OutboxRow = OutboxRow(event: Event, status: RowStatus, retryCount: nat)

  const MAX_RETRY_COUNT: nat := 5

  function NewRow(e: Event): OutboxRow {
    OutboxRow(e, RowStatus.Pending, 0)
  }

  /** What a handler call does not decide itself: the identifiers it draws, the payment
      provider's answer, and whether its transaction commits. */
  datatype Choice = Choice(eventId: Id, rowId: Id, declines: bool, commits: bool)

  /** A message handed to a subscriber. */
  datatype Delivery = Delivery(event: Event, choice: Choice)

  ghost predicate AllRouted(s: Service, ds: seq<Delivery>) {
    forall i :: 0 <= i < |ds| ==> Routes(s, ds[i].event)
  }

  /** What a handler call leaves behind when the transaction can fail: a transaction that
      does not commit leaves the database as it was. */
  function Settled<Db>(before: Db, after: (Db, Report), commits: bool): (Db, Report) {
    if after.1.Done? && !commits then (before, Failed(TransactionAborted)) else after
  }
}
