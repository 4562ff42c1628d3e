/** Handler transactions as separate steps: begin, mark, lock and read, loop, commit or roll
    back, any number of them in flight. Under the row locks they refine the atomic handlers. */
module Interleaving {
  import opened SagaTypes
  import opened Saga
  import SagaSteps
  import O = OrderModel
  import I = InventoryModel
  import P = PaymentModel

  /** How far a transaction is, with the row versions it has read or written so far. */
  datatype Phase =
    | Begun
    | Marked
    | StockRead(stock: Option<I.InventoryRow>)
    | Looping(hs: seq<nat>, seen: seq<I.ReservationRow>, k: nat,
              stocks: map<string, I.InventoryRow>, resolved: map<nat, I.ReservationRow>)
    | OrderRead(row: Option<O.OrderRow>)
    | Charging
    | PaymentRead(found: Option<nat>, payment: Option<P.PaymentRow>)

  datatype Tx = Tx(to: Service, event: Event, choice: Choice, phase: Phase)

  datatype Sys = Sys(w: World, txs: map<nat, Tx>)

  // ----- locks

  datatype Key =
    | MarkKey(service: Service, id: Id)
    | StockKey(productId: string)
    | ReservationKey(h: nat)
    | OrderKey(orderId: Id)
    | PaymentKey(i: nat)

  /** The index entry of the inserted mark and the rows selected FOR UPDATE, all held to the end. */
  ghost function Locks(tx: Tx): set<Key> {
    (if tx.phase.Begun? then {} else {MarkKey(tx.to, tx.event.id)}) +
    match tx.phase
    case Begun => {}
    case Marked => {}
    case StockRead(stock) => if stock.Some? && tx.event.OrderCreated? then {StockKey(tx.event.productId)} else {}
    case Looping(hs, _, _, stocks, _) => (set p | p in stocks :: StockKey(p)) + (set h | h in hs :: ReservationKey(h))
    case OrderRead(row) => if row.Some? then {OrderKey(tx.event.orderId)} else {}
    case Charging => {}
    case PaymentRead(found, _) => if found.Some? then {PaymentKey(found.value)} else {}
  }

  /** No other transaction holds any of the keys: what a lock request waits for. */
  ghost predicate Free(s: Sys, id: nat, keys: set<Key>) {
    forall x :: x in s.txs && x != id ==> Locks(s.txs[x]) !! keys
  }

  // ----- steps

  datatype Step =
    | Begin(id: nat, to: Service, event: Event, choice: Choice)
    | Mark(id: nat)
    | Read(id: nat)
    | Turn(id: nat)
    | Commit(id: nat)
    | Rollback(id: nat)
    | Other(action: Action)

  /** What the SELECT ... FOR UPDATE after the mark returns; Charging selects nothing. */
  function FirstRead(w: World, tx: Tx): Phase
    requires Routes(tx.to, tx.event)
  {
    var e := tx.event;
    match tx.to
    case OrderService => OrderRead(if e.orderId in w.order.orders then Some(w.order.orders[e.orderId]) else None)
    case InventoryService =>
      if e.OrderCreated? then
        StockRead(if e.productId in w.inv.inventory then Some(w.inv.inventory[e.productId]) else None)
      else
        var hs := I.RowsOf(w.inv.reservations, e.orderId);
        Looping(hs, RowVersions(w.inv.reservations, hs), 0, map[], map[])
    case PaymentService =>
      if e.StockReserved? then Charging
      else
        var found := P.FirstOf(w.pay.payments, e.orderId);
        PaymentRead(found, if found.Some? then Some(w.pay.payments[found.value]) else None)
  }

  function RowVersions(rs: seq<I.ReservationRow>, hs: seq<nat>): (seen: seq<I.ReservationRow>)
    requires forall h :: h in hs ==> h < |rs|
    ensures |seen| == |hs| && forall j :: 0 <= j < |hs| ==> hs[j] < |rs| && seen[j] == rs[hs[j]]
  {
    if hs == [] then []
    else
      var n := |hs| - 1;
      assert hs[n] in hs && forall h :: h in hs[..n] ==> h in hs;
      RowVersions(rs, hs[..n]) + [rs[hs[n]]]
  }

  function To(e: Event): I.ReservationStatus {
    if e.OrderCompleted? then I.Committed else I.Released
  }

  /** The product whose stock row the turn locks, if any. */
  function TurnProduct(w: World, p: Phase): Option<string>
    requires p.Looping? && p.k < |p.seen|
  {
    var r := p.seen[p.k];
    if r.status == I.Reserved && r.productId in w.inv.inventory then Some(r.productId) else None
  }

  /** One turn of the release or commit loop, on the transaction's own row versions. */
  function LoopTurn(w: World, tx: Tx): Phase
    requires tx.phase.Looping? && tx.phase.k < |tx.phase.hs| == |tx.phase.seen|
  {
    var p := tx.phase;
    match TurnProduct(w, p)
    case None => p.(k := p.k + 1)
    case Some(product) =>
      var stock := if product in p.stocks then p.stocks[product] else w.inv.inventory[product];
      match I.Resolve(stock, p.seen[p.k].quantity, To(tx.event))
      case Err(_) => p.(k := p.k + 1, stocks := p.stocks[product := stock])
      case Ok(row) => p.(k := p.k + 1, stocks := p.stocks[product := row],
                         resolved := p.resolved[p.hs[p.k] := p.seen[p.k].(status := To(tx.event))])
  }

  predicate Ready(tx: Tx) {
    match tx.phase
    case Begun => false
    case Marked => false
    case Looping(hs, _, k, _, _) => k == |hs|
    case _ => true
  }

  /** The table with the transaction's own versions of some rows written over it. */
  function Overlay(db: I.InventoryDb, stocks: map<string, I.InventoryRow>,
                   resolved: map<nat, I.ReservationRow>): I.InventoryDb
  {
    db.(inventory := db.inventory + stocks,
        reservations := seq(|db.reservations|, i requires 0 <= i < |db.reservations| =>
                              if i in resolved then resolved[i] else db.reservations[i]))
  }

  /** The committed database after the transaction's writes, computed from what it has read and
      not from the rows as they are now; None when the handler returns without committing. */
  function Written(w: World, tx: Tx): Option<World>
    requires Routes(tx.to, tx.event)
  {
    var (e, c) := (tx.event, tx.choice);
    match tx.phase
    case StockRead(stock) =>
      if !e.OrderCreated? then None
      else
        var inv := w.inv.(processed := w.inv.processed + {e.id});
        (match if stock.Some? then I.Reserve(stock.value, e.quantity) else Err(ProductNotFound)
         case Err(error) =>
           var failed := StockReserveFailed(c.eventId, e.orderId, e.productId, e.quantity, Message(error));
           Some(w.(inv := inv.(outbox := inv.outbox + [NewRow(failed)])))
         case Ok(row) =>
           var r := I.ReservationRow(c.rowId, e.orderId, e.productId, e.quantity, I.Reserved);
           var reserved := StockReserved(c.eventId, e.orderId, e.productId, e.quantity,
                                        c.rowId, e.customerId, e.totalAmount);
           Some(w.(inv := inv.(inventory := inv.inventory[e.productId := row],
                               reservations := inv.reservations + [r],
                               outbox := inv.outbox + [NewRow(reserved)]))))
    case Looping(_, _, _, stocks, resolved) =>
      Some(w.(inv := Overlay(w.inv, stocks, resolved).(processed := w.inv.processed + {e.id})))
    case OrderRead(Some(row)) =>
      if tx.to != OrderService then None
      else (match O.Transition(row.status, e)
            case Err(_) => None
            case Ok(status) =>
              Some(w.(order := O.OrderDb(w.order.orders[e.orderId := row.(status := status)],
                                         w.order.outbox + O.Announce(e, c.eventId),
                                         w.order.processed + {e.id}))))
    case Charging =>
      if !e.StockReserved? then None
      else
        (match P.NewPayment(c.rowId, e.orderId, e.customerId, e.totalAmount)
         case Err(_) => None
         case Ok(payment) =>
           match if c.declines then P.Fail(payment, DECLINED) else P.Complete(payment)
           case Err(_) => None
           case Ok(row) =>
             var outcome := if c.declines then PaymentFailed(c.eventId, e.orderId, row.failureReason)
                            else PaymentCompleted(c.eventId, e.orderId, row.id, e.totalAmount);
             Some(w.(pay := P.PaymentDb(w.pay.payments + [row], w.pay.outbox + [NewRow(outcome)],
                                        w.pay.processed + {e.id}))))
    case PaymentRead(found, payment) =>
      var pay := w.pay.(processed := w.pay.processed + {e.id});
      if found.Some? && payment.Some? && found.value < |pay.payments| && P.Refund(payment.value).Ok?
      then Some(w.(pay := pay.(payments := pay.payments[found.value := P.Refund(payment.value).value])))
      else Some(w.(pay := pay))
    case _ => None
  }

  ghost predicate Enabled(s: Sys, step: Step) {
    match step
    case Begin(id, to, e, c) => id !in s.txs && e in s.w.published && Routes(to, e)
    case Mark(id) =>
      id in s.txs && s.txs[id].phase.Begun? && Free(s, id, {MarkKey(s.txs[id].to, s.txs[id].event.id)})
    case Read(id) =>
      && id in s.txs && s.txs[id].phase.Marked? && Routes(s.txs[id].to, s.txs[id].event)
      && Free(s, id, Locks(s.txs[id].(phase := FirstRead(s.w, s.txs[id]))))
    case Turn(id) =>
      && id in s.txs && s.txs[id].phase.Looping? && s.txs[id].phase.k < |s.txs[id].phase.hs| == |s.txs[id].phase.seen|
      && Free(s, id, Locks(s.txs[id].(phase := LoopTurn(s.w, s.txs[id]))))
    case Commit(id) =>
      && id in s.txs && Ready(s.txs[id]) && s.txs[id].choice.commits && Routes(s.txs[id].to, s.txs[id].event)
      && FreshId(s.w, s.txs[id].choice.eventId)
    case Rollback(id) => id in s.txs
    case Other(a) => !a.Deliver? && Saga.Enabled(s.w, a)
  }

  function Apply(s: Sys, step: Step): Sys
    requires Enabled(s, step)
  {
    match step
    case Begin(id, to, e, c) => s.(txs := s.txs[id := Tx(to, e, c, Begun)])
    case Mark(id) =>
      if s.txs[id].event.id in SagaSteps.Processed(s.w, s.txs[id].to) then s.(txs := s.txs - {id})
      else s.(txs := s.txs[id := s.txs[id].(phase := Marked)])
    case Read(id) => s.(txs := s.txs[id := s.txs[id].(phase := FirstRead(s.w, s.txs[id]))])
    case Turn(id) => s.(txs := s.txs[id := s.txs[id].(phase := LoopTurn(s.w, s.txs[id]))])
    case Commit(id) =>
      var after := Written(s.w, s.txs[id]);
      Sys(if after.Some? then after.value else s.w, s.txs - {id})
    case Rollback(id) => s.(txs := s.txs - {id})
    case Other(a) => s.(w := Saga.Apply(s.w, a))
  }
}
