/** The order service in imperative form. */
module OrderService {
  import opened SagaTypes
  import opened Messaging
  import M = OrderModel

  class Order {
    const customerId: string
    const productId: string
    const quantity: int
    const totalAmount: real
    var status: M.OrderStatus

    constructor (row: M.OrderRow)
      ensures Row() == row
    {
      customerId, productId, quantity, totalAmount := row.customerId, row.productId, row.quantity, row.totalAmount;
      status := row.status;
    }

    function Row(): M.OrderRow
      reads this
    {
      M.OrderRow(customerId, productId, quantity, totalAmount, status)
    }

    method Confirm() returns (ok: bool)
      modifies this
      ensures !ok ==> status == old(status)
      ensures ok <==> old(status) == M.OrderStatus.Pending
      ensures ok ==> status == M.Confirmed
      ensures M.Confirm(old(status)) == if ok then Ok(status) else Err(InvalidTransition)
    {
      if status != M.OrderStatus.Pending {
        return false;
      }
      status := M.Confirmed;
      return true;
    }

    method Complete() returns (ok: bool)
      modifies this
      ensures !ok ==> status == old(status)
      ensures ok <==> old(status) == M.Confirmed
      ensures ok ==> status == M.Completed
      ensures M.Complete(old(status)) == if ok then Ok(status) else Err(InvalidTransition)
    {
      if status != M.Confirmed {
        return false;
      }
      status := M.Completed;
      return true;
    }

    method Cancel() returns (ok: bool)
      modifies this
      ensures !ok ==> status == old(status)
      ensures ok <==> old(status) != M.Completed
      ensures ok ==> status == M.Cancelled
      ensures M.Cancel(old(status)) == if ok then Ok(status) else Err(InvalidTransition)
    {
      if status == M.Completed {
        return false;
      }
      status := M.Cancelled;
      return true;
    }
  }

  class OrderUseCase {
    var orders: map<Id, M.OrderRow>
    var outbox: seq<OutboxRow>
    var processed: set<Id>

    constructor ()
      ensures State() == M.OrderDb(map[], [], {})
    {
      orders, outbox, processed := map[], [], {};
    }

    function State(): M.OrderDb
      reads this
    {
      M.OrderDb(orders, outbox, processed)
    }

    method CreateOrder(customerId: string, productId: string, quantity: int, totalAmount: real,
                       newOrder: Id, newEvent: Id, commits: bool) returns (r: Report)
      modifies this
      ensures (State(), r) ==
              Settled(old(State()),
                      M.OnCreate(old(State()), newOrder, newEvent, customerId, productId, quantity, totalAmount),
                      commits)
    {
      if customerId == "" {
        return Failed(InvalidCustomerId);
      }
      if productId == "" {
        return Failed(InvalidProductId);
      }
      if quantity <= 0 {
        return Failed(InvalidQuantity);
      }
      if totalAmount <= 0.0 {
        return Failed(InvalidTotalAmount);
      }
      var order := new Order(M.OrderRow(customerId, productId, quantity, totalAmount, M.OrderStatus.Pending));
      var tx := new Tx.Begin(processed, outbox);
      var orders' := orders[newOrder := order.Row()];
      tx.PublishInTx(OrderCreated(newEvent, newOrder, order.customerId, order.productId,
                                  order.quantity, order.totalAmount));
      if !commits {
        return Failed(TransactionAborted);
      }
      orders, outbox := orders', tx.outbox;
      return Done;
    }

    method HandleStockReserved(e: Event, newEvent: Id, commits: bool) returns (r: Report)
      requires e.StockReserved?
      modifies this
      ensures (State(), r) == Settled(old(State()), M.Handle(old(State()), e, newEvent), commits)
    {
      var tx := new Tx.Begin(processed, outbox);
      var marked := tx.CheckAndMark(e.id);
      if !marked {
        return Duplicate;
      }
      if e.orderId !in orders {
        return Failed(OrderNotFound);
      }
      var order := new Order(orders[e.orderId]);
      var ok := order.Confirm();
      if !ok {
        return Ignored;
      }
      var orders' := orders[e.orderId := order.Row()];
      if !commits {
        return Failed(TransactionAborted);
      }
      orders, outbox, processed := orders', tx.outbox, tx.processed;
      assert outbox == old(outbox) + [];
      return Done;
    }

    method HandlePaymentCompleted(e: Event, newEvent: Id, commits: bool) returns (r: Report)
      requires e.PaymentCompleted?
      modifies this
      ensures (State(), r) == Settled(old(State()), M.Handle(old(State()), e, newEvent), commits)
    {
      var tx := new Tx.Begin(processed, outbox);
      var marked := tx.CheckAndMark(e.id);
      if !marked {
        return Duplicate;
      }
      if e.orderId !in orders {
        return Failed(OrderNotFound);
      }
      var order := new Order(orders[e.orderId]);
      var ok := order.Complete();
      if !ok {
        return Ignored;
      }
      var orders' := orders[e.orderId := order.Row()];
      tx.PublishInTx(OrderCompleted(newEvent, e.orderId));
      if !commits {
        return Failed(TransactionAborted);
      }
      orders, outbox, processed := orders', tx.outbox, tx.processed;
      return Done;
    }

    method HandlePaymentFailed(e: Event, newEvent: Id, commits: bool) returns (r: Report)
      requires e.PaymentFailed?
      modifies this
      ensures (State(), r) == Settled(old(State()), M.Handle(old(State()), e, newEvent), commits)
    {
      var tx := new Tx.Begin(processed, outbox);
      var marked := tx.CheckAndMark(e.id);
      if !marked {
        return Duplicate;
      }
      if e.orderId !in orders {
        return Failed(OrderNotFound);
      }
      var order := new Order(orders[e.orderId]);
      var ok := order.Cancel();
      if !ok {
        return Ignored;
      }
      var orders' := orders[e.orderId := order.Row()];
      tx.PublishInTx(OrderCancelled(newEvent, e.orderId, e.reason));
      if !commits {
        return Failed(TransactionAborted);
      }
      orders, outbox, processed := orders', tx.outbox, tx.processed;
      return Done;
    }

    /** Cancels without announcing it: nothing was reserved, so nothing is compensated. */
    method HandleStockReserveFailed(e: Event, newEvent: Id, commits: bool) returns (r: Report)
      requires e.StockReserveFailed?
      modifies this
      ensures (State(), r) == Settled(old(State()), M.Handle(old(State()), e, newEvent), commits)
    {
      var tx := new Tx.Begin(processed, outbox);
      var marked := tx.CheckAndMark(e.id);
      if !marked {
        return Duplicate;
      }
      if e.orderId !in orders {
        return Failed(OrderNotFound);
      }
      var order := new Order(orders[e.orderId]);
      var ok := order.Cancel();
      if !ok {
        return Ignored;
      }
      var orders' := orders[e.orderId := order.Row()];
      if !commits {
        return Failed(TransactionAborted);
      }
      orders, outbox, processed := orders', tx.outbox, tx.processed;
      assert outbox == old(outbox) + [];
      return Done;
    }
  }
}
