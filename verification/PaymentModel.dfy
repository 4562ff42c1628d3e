/** The payment database as a value, and what each handler does to it as one transaction. */
module PaymentModel {
  import opened SagaTypes

  datatype PaymentStatus = Pending | Completed | Failed | Refunded

  datatype PaymentRow = PaymentRow(id: Id, orderId: Id, customerId: string, amount: real,
                                   status: PaymentStatus, failureReason: string)

  datatype PaymentDb = PaymentDb(payments: seq<PaymentRow>, outbox: seq<OutboxRow>, processed: set<Id>)

  // ----- the payment's state machine

  function NewPayment(id: Id, orderId: Id, customerId: string, amount: real): Result<PaymentRow> {
    if amount <= 0.0 then Err(InvalidAmount)
    else Ok(PaymentRow(id, orderId, customerId, amount, PaymentStatus.Pending, ""))
  }

  function Complete(p: PaymentRow): Result<PaymentRow> {
    if p.status != PaymentStatus.Pending then Err(InvalidTransition) else Ok(p.(status := Completed))
  }

  function Fail(p: PaymentRow, reason: string): Result<PaymentRow> {
    if p.status != PaymentStatus.Pending then Err(InvalidTransition)
    else Ok(p.(status := PaymentStatus.Failed, failureReason := reason))
  }

  function Refund(p: PaymentRow): Result<PaymentRow> {
    if p.status != Completed then Err(InvalidTransition) else Ok(p.(status := Refunded))
  }

  // ----- handlers

  /** The row SELECT ... WHERE order_id reads: the first of the order in table order. */
  function FirstOf(ps: seq<PaymentRow>, orderId: Id): (found: Option<nat>)
    ensures found.None? ==> forall i :: 0 <= i < |ps| ==> ps[i].orderId != orderId
    ensures found.Some? ==>
              && found.value < |ps| && ps[found.value].orderId == orderId
              && forall i :: 0 <= i < found.value ==> ps[i].orderId != orderId
  {
    if ps == [] then None
    else
      var n := |ps| - 1;
      var found := FirstOf(ps[..n], orderId);
      if found.Some? then found
      else if ps[n].orderId == orderId then Some(n)
      else None
  }

  /** Charges the customer; `declines` is the provider's answer. */
  function OnStockReserved(db: PaymentDb, e: Event, paymentId: Id, eventId: Id, declines: bool): (PaymentDb, Report)
    requires e.StockReserved?
  {
    if e.id in db.processed then (db, Duplicate)
    else match NewPayment(paymentId, e.orderId, e.customerId, e.totalAmount)
      case Err(error) => (db, Report.Failed(error))
      case Ok(payment) =>
        match if declines then Fail(payment, DECLINED) else Complete(payment)
        case Err(error) => (db, Report.Failed(error))
        case Ok(row) =>
          var outcome := if declines then PaymentFailed(eventId, e.orderId, row.failureReason)
                         else PaymentCompleted(eventId, e.orderId, row.id, e.totalAmount);
          (PaymentDb(db.payments + [row], db.outbox + [NewRow(outcome)], db.processed + {e.id}), Done)
  }

  /** Refunds the order's payment if it was completed. */
  function OnOrderCancelled(db: PaymentDb, e: Event): (PaymentDb, Report)
    requires e.OrderCancelled?
  {
    if e.id in db.processed then (db, Duplicate)
    else
      var marked := db.(processed := db.processed + {e.id});
      match FirstOf(db.payments, e.orderId)
      case None => (marked, Done)
      case Some(i) =>
        match Refund(db.payments[i])
        case Err(_) => (marked, Done)
        case Ok(row) => (marked.(payments := db.payments[i := row]), Done)
  }

  function Handle(db: PaymentDb, e: Event, paymentId: Id, eventId: Id, declines: bool): (PaymentDb, Report)
    requires Routes(PaymentService, e)
  {
    if e.StockReserved? then OnStockReserved(db, e, paymentId, eventId, declines) else OnOrderCancelled(db, e)
  }
}
