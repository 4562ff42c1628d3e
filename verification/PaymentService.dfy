/** The payment service in imperative form. */
module PaymentService {
  import opened SagaTypes
  import opened Messaging
  import M = PaymentModel

  class Payment {
    const id: Id
    const orderId: Id
    const customerId: string
    const amount: real
    var status: M.PaymentStatus
    var failureReason: string

    constructor (row: M.PaymentRow)
      ensures Row() == row
    {
      id, orderId, customerId, amount := row.id, row.orderId, row.customerId, row.amount;
      status, failureReason := row.status, row.failureReason;
    }

    function Row(): M.PaymentRow
      reads this
    {
      M.PaymentRow(id, orderId, customerId, amount, status, failureReason)
    }

    method Complete() returns (ok: bool)
      modifies this
      ensures !ok ==> Row() == old(Row())
      ensures ok <==> old(status) == M.PaymentStatus.Pending
      ensures ok ==> Row() == old(Row()).(status := M.Completed)
      ensures M.Complete(old(Row())) == if ok then Ok(Row()) else Err(InvalidTransition)
    {
      if status != M.PaymentStatus.Pending {
        return false;
      }
      status := M.Completed;
      return true;
    }

    method Fail(reason: string) returns (ok: bool)
      modifies this
      ensures !ok ==> Row() == old(Row())
      ensures ok <==> old(status) == M.PaymentStatus.Pending
      ensures ok ==> Row() == old(Row()).(status := M.PaymentStatus.Failed, failureReason := reason)
      ensures M.Fail(old(Row()), reason) == if ok then Ok(Row()) else Err(InvalidTransition)
    {
      if status != M.PaymentStatus.Pending {
        return false;
      }
      status := M.PaymentStatus.Failed;
      failureReason := reason;
      return true;
    }

    method Refund() returns (ok: bool)
      modifies this
      ensures !ok ==> Row() == old(Row())
      ensures ok <==> old(status) == M.Completed
      ensures ok ==> Row() == old(Row()).(status := M.Refunded)
      ensures M.Refund(old(Row())) == if ok then Ok(Row()) else Err(InvalidTransition)
    {
      if status != M.Completed {
        return false;
      }
      status := M.Refunded;
      return true;
    }
  }

  class PaymentUseCase {
    var payments: seq<M.PaymentRow>
    var outbox: seq<OutboxRow>
    var processed: set<Id>
    var simulateFailure: bool

    constructor ()
      ensures State() == M.PaymentDb([], [], {}) && !simulateFailure
    {
      payments, outbox, processed, simulateFailure := [], [], {}, false;
    }

    function State(): M.PaymentDb
      reads this
    {
      M.PaymentDb(payments, outbox, processed)
    }

    method SetSimulateFailure(simulate: bool)
      modifies this`simulateFailure
      ensures simulateFailure == simulate
    {
      simulateFailure := simulate;
    }

    /** `providerDeclines` stands for the amount test and the random draw. */
    method HandleStockReserved(e: Event, newPayment: Id, newEvent: Id, providerDeclines: bool, commits: bool)
      returns (r: Report)
      requires e.StockReserved?
      modifies this
      ensures (State(), r) ==
              Settled(old(State()),
                      M.OnStockReserved(old(State()), e, newPayment, newEvent,
                                        old(simulateFailure) || providerDeclines),
                      commits)
      ensures simulateFailure == old(simulateFailure)
    {
      var tx := new Tx.Begin(processed, outbox);
      var marked := tx.CheckAndMark(e.id);
      if !marked {
        return Duplicate;
      }
      if e.totalAmount <= 0.0 {
        return Failed(InvalidAmount);
      }
      var payment := new Payment(M.PaymentRow(newPayment, e.orderId, e.customerId, e.totalAmount,
                                              M.PaymentStatus.Pending, ""));
      if simulateFailure || providerDeclines {
        var ok := payment.Fail(DECLINED);
        if !ok {
          return Failed(InvalidTransition);
        }
        var payments' := payments + [payment.Row()];
        tx.PublishInTx(PaymentFailed(newEvent, e.orderId, payment.failureReason));
        if !commits {
          return Failed(TransactionAborted);
        }
        payments, outbox, processed := payments', tx.outbox, tx.processed;
        return Done;
      }
      var ok := payment.Complete();
      if !ok {
        return Failed(InvalidTransition);
      }
      var payments' := payments + [payment.Row()];
      tx.PublishInTx(PaymentCompleted(newEvent, e.orderId, payment.id, e.totalAmount));
      if !commits {
        return Failed(TransactionAborted);
      }
      payments, outbox, processed := payments', tx.outbox, tx.processed;
      return Done;
    }

    method HandleOrderCancelled(e: Event, commits: bool) returns (r: Report)
      requires e.OrderCancelled?
      modifies this
      ensures (State(), r) == Settled(old(State()), M.OnOrderCancelled(old(State()), e), commits)
      ensures simulateFailure == old(simulateFailure)
    {
      var tx := new Tx.Begin(processed, outbox);
      var marked := tx.CheckAndMark(e.id);
      if !marked {
        return Duplicate;
      }
      var payments' := payments;
      var found := M.FirstOf(payments, e.orderId);
      if found.None? {
        if !commits {
          return Failed(TransactionAborted);
        }
        processed := tx.processed;
        return Done;
      }
      var payment := new Payment(payments[found.value]);
      if payment.status == M.Completed {
        var ok := payment.Refund();
        if ok {
          payments' := payments'[found.value := payment.Row()];
        }
      }
      if !commits {
        return Failed(TransactionAborted);
      }
      payments, processed := payments', tx.processed;
      return Done;
    }
  }
}
