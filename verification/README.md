# Verified model of the order saga

Three services (order, inventory, payment) run a choreography saga. Each has its own database
with a transactional outbox and a table of processed event ids; a broker between them may lose,
duplicate and reorder messages. This project models the services, the outbox relay and their
composition in Dafny and proves what the saga promises.

`dafny verify dfyconfig.toml` checks everything.

## How the model is built

| files | content |
|---|---|
| `Types`, `Messaging`, `OutboxTable` | events, subscriptions, outbox rows, the part of a transaction that marks and publishes, the relay's SQL |
| `InventoryModel`, `OrderModel`, `PaymentModel` | each database as a value, each handler as one function from database to database and report |
| `InventoryService`, `OrderService`, `PaymentService` | the same handlers in imperative form: domain objects changed in place, use-case classes whose methods open a transaction, loop and commit; each method is proved equal to its function |
| `HandlerEffects` | what each handler does for every database and event, in terms of the rows, columns and texts themselves: when it acts, what it writes, what it leaves alone |
| `StockConservation`, `Streams` | each service alone against arbitrary delivery streams |
| `Relay`, `RelayBounds`, `RelayConcurrency`, `RelaySaga` | one polling pass with its loops; how many passes are needed; several relays at once; the saga with all its relays written out |
| `Saga` | the composed step machine: create, deliver, publish, settle a relay pass |
| `SagaInvariant`, `SagaSteps`, `SagaReachable` | the inductive invariant: each order is shadowed by a `Track`, a small automaton, and the databases are exactly what the tracks say |
| `SagaTheorems`, `SagaConvergence`, `SagaTermination`, `SagaRest`, `SagaTotals` | the promises, stated on the tables alone |
| `Interleaving`, `InterleavingLoops`, `InterleavingRefinement`, `Phantoms`, `InterleavingStreams` | handler transactions as separate steps under row locks, their refinement of the atomic saga, where the locks are not enough, and what they keep for any event stream |

Conventions. A row of a table is named by its position; positions stand for the primary key and,
in the outbox, for the order of `created_at`. Drawing a UUID is choosing an id that no outbox row
carries. A handler's other free choices (the payment provider's answer, whether the transaction
commits) are parameters; `commits = false` stands for any SQL error in the transaction, since an
aborted PostgreSQL transaction cannot commit. A delivery hands any message that was ever published
to one of its subscribers; not delivering it is losing it.

## What came out false

- The saga cannot always come to rest. A message refused five times stays PENDING and is never
  selected again (`SagaRest.IneligibleStays`; the FAILED status is declared but never written), and
  a deployed system can get there (`PoisonedOrder`). The saga can come to rest exactly when no row
  is exhausted (`CanRestIff`), and an order can end exactly when each of its messages is published
  or still eligible, whatever became of the other orders (`CanConverge`). `Convergence` is
  therefore stated for states where every row is SENT.
- Keeping only the first copy of each event id is not meaning-preserving for the order service: a
  refused transition rolls its mark back, so a payment that overtakes the stock event counts when
  it is redelivered (`Streams.FirstCopiesLoseOrders`). First copies are enough exactly when no
  payment that completes its order had come too early before (`FirstCopiesEnough`, a condition on
  the stream alone); what always holds is `OrderDeduplicates` and the closed form `OrderOutcome`.
- Row locks alone do not make the closing handlers of the inventory service atomic: a reservation
  inserted for the same order between their SELECT and their commit is missed for good
  (`Phantoms.LostCompensation`). In every run over any event stream a closing transaction commits
  the atomic result exactly when no such row joined
  (`InterleavingStreams.CommitAtomicIffNoPhantom`), and in the composed saga none can (`NoPhantom`).

## Model

| member | source | states |
|---|---|---|
| Messaging.Tx.CheckAndMark | pkg/outbox/idempotency.go:28-47 | the mark is inserted and reported exactly when the id was absent |
| Messaging.Tx.PublishInTx | pkg/outbox/outbox.go:49-74 | one PENDING row with no retries is appended, nothing else changes |
| InventoryService.Inventory.Reserve | services/inventory/internal/domain/inventory.go:48-58 | refuses exactly the non-positive and the unavailable quantities, without effect, otherwise reserves exactly the quantity |
| InventoryService.Inventory.Release | services/inventory/internal/domain/inventory.go:61-73 | gives back the quantity, clamped at what is reserved |
| InventoryService.Inventory.Commit | services/inventory/internal/domain/inventory.go:76-87 | removes the quantity from stock and from the reserved part, or refuses without effect |
| InventoryService.FindByOrderIDForUpdate | services/inventory/internal/infrastructure/repository.go:189-221 | the scan returns exactly the order's rows, in table order |
| InventoryService.InventoryUseCase.HandleOrderCreated | services/inventory/internal/application/usecase.go:52-132 | new state and report for every branch: duplicate, unknown product, shortage, reserved, aborted |
| InventoryService.InventoryUseCase.HandleOrderCancelled | services/inventory/internal/application/usecase.go:135-200 | the release loop over the order's rows as one transaction, with its skip branches |
| InventoryService.InventoryUseCase.HandleOrderCompleted | services/inventory/internal/application/usecase.go:203-268 | the commit loop over the order's rows as one transaction, with its skip branches |
| OrderService.Order.Confirm | services/order/internal/domain/order.go:70-77 | only from PENDING, refused without effect otherwise |
| OrderService.Order.Complete | services/order/internal/domain/order.go:80-87 | only from CONFIRMED, refused without effect otherwise |
| OrderService.Order.Cancel | services/order/internal/domain/order.go:90-97 | from anything but COMPLETED, CANCELLED included |
| OrderService.OrderUseCase.CreateOrder | services/order/internal/application/usecase.go:58-102 | validated order and its OrderCreated row together, or nothing |
| OrderService.OrderUseCase.HandleStockReserved | services/order/internal/application/usecase.go:114-150 | status, mark and report of every branch; a refused transition leaves no mark |
| OrderService.OrderUseCase.HandlePaymentCompleted | services/order/internal/application/usecase.go:153-195 | as above, with the OrderCompleted row in the same transaction |
| OrderService.OrderUseCase.HandlePaymentFailed | services/order/internal/application/usecase.go:198-240 | as above, with the OrderCancelled row carrying the reason |
| OrderService.OrderUseCase.HandleStockReserveFailed | services/order/internal/application/usecase.go:243-279 | cancels without announcing it |
| PaymentService.Payment.Complete | services/payment/internal/domain/payment.go:57-64 | only from PENDING, refused without effect otherwise |
| PaymentService.Payment.Fail | services/payment/internal/domain/payment.go:67-75 | only from PENDING, records the reason |
| PaymentService.Payment.Refund | services/payment/internal/domain/payment.go:78-85 | only from COMPLETED, refused without effect otherwise |
| PaymentService.PaymentUseCase.HandleStockReserved | services/payment/internal/application/usecase.go:58-135 | payment row, outcome row and mark together; a non-positive amount leaves no mark |
| PaymentService.PaymentUseCase.HandleOrderCancelled | services/payment/internal/application/usecase.go:154-201 | refunds the order's payment if it was completed, marks in every case |
| HandlerEffects.OrderCreatedEffect | services/inventory/internal/application/usecase.go:69-126 | stock is granted iff the product is known and a positive quantity, an exact fit included, is available; then exactly that much is reserved, otherwise no stock moves and the rejection carries the reason's text |
| HandlerEffects.ClosingTurnEffect | services/inventory/internal/application/usecase.go:157-261 | in any database, balanced or not, a loop turn moves stock iff the row is RESERVED, its product known, its quantity positive and, to commit, that much reserved; the clamp and every untouched row are stated |
| HandlerEffects.CreateEffect | services/order/internal/domain/order.go:42-67 | an order is accepted iff no field is empty or non-positive, and stored with its event; otherwise nothing is stored and the first offending field is reported |
| HandlerEffects.OrderEventEffect | services/order/internal/application/usecase.go:114-279 | an event acts iff it is new, its order known and the move allowed from the order's status; the new row, the announcement and the mark are fixed, and every other outcome leaves no trace |
| HandlerEffects.ChargeEffect | services/payment/internal/application/usecase.go:75-122 | a positive amount is charged or declined with the given id, amount, customer and reason text, in the payment row and in the event; a non-positive one leaves nothing |
| HandlerEffects.RefundEffect | services/payment/internal/application/usecase.go:170-201 | a row becomes REFUNDED iff it is the order's first payment and COMPLETED; no other row changes, nothing is announced, the mark is set |
| HandlerEffects.CommitOrNothing | pkg/outbox/idempotency.go:28-47 | over all handlers and endings: one service commits mark, rows and event together, or the world is as it was |
| HandlerEffects.DuplicateEffect | services/payment/internal/application/usecase.go:65-72 | an event marked already changes nothing at any service |
| StockConservation.AnyStreamConserves | services/inventory/internal/application/usecase.go:52-268 | for any event stream and any aborts: reserved is the sum of RESERVED reservations, quantity plus COMMITTED ones is the opening stock, and 0 <= reserved <= quantity |
| StockConservation.HandleConserves | services/inventory/internal/application/usecase.go:157-193 | every handler keeps that balance, loops over several reservations of one product included |
| StockConservation.ResolveRowExact | services/inventory/internal/domain/inventory.go:65-84 | in a balanced database the clamp of Release and the shortage error of Commit are never taken |
| StockConservation.ClosingIsExact | services/inventory/internal/application/usecase.go:157-261 | one cancel or complete call resolves every RESERVED row of the order, no other row, and moves each product's stock by exactly their units |
| Streams.InventoryDeduplicates | pkg/outbox/idempotency.go:28-47 | deleting aborted deliveries and later copies from any stream leaves the inventory database the same |
| Streams.PaymentDeduplicates | services/payment/internal/application/usecase.go:66-78 | the same for payment, including charges that are refused and never marked |
| Streams.OrderDeduplicates | services/order/internal/application/usecase.go:122-146 | the order database is made by the effective deliveries alone, whose event ids are pairwise distinct |
| Streams.FirstCopiesLoseOrders | services/order/internal/application/usecase.go:174-177 | a stream whose first copies alone leave an order unfinished that the stream completes |
| Streams.FirstCopiesExact | services/order/internal/application/usecase.go:122-146 | for any database: first copies alone make the same one iff no delivery is handled after a copy of it was refused |
| Streams.SecondChanceIffOvertook | services/order/internal/application/usecase.go:174-177 | a delivery is handled after a refused copy iff it is the payment that completes its order and a copy of it had come too early |
| Streams.FirstCopiesEnough | services/order/internal/application/usecase.go:122-177 | first copies alone make the same order database iff the stream holds no such payment |
| Streams.OutcomeStep | services/order/internal/domain/order.go:70-97 | the closed form of an order's outcome follows the status machine delivery by delivery |
| Streams.OrderOutcome | services/order/internal/application/usecase.go:114-279 | for any stream: COMPLETED iff a payment follows a stock event before any failure, otherwise CANCELLED iff a failure came, otherwise CONFIRMED iff stock came |
| Relay.OutboxRelay.SelectBatch | pkg/outbox/outbox.go:115-151 | the slice holds the oldest 100 eligible rows |
| Relay.OutboxRelay.ProcessPendingMessages | pkg/outbox/outbox.go:114-191 | which messages reach the broker, at which message the loop stops and what the table becomes, for every pattern of refusals, failed statements and failed commits |
| Relay.BatchInTable | pkg/outbox/outbox.go:115-122 | a batch holds at most 100 rows, oldest first, all eligible and none locked |
| Relay.BatchIsOldest | pkg/outbox/outbox.go:115-122 | a row is selected iff it is PENDING with fewer than 5 retries, not locked, and fewer than 100 such rows are older |
| Relay.PassEffect | pkg/outbox/outbox.go:153-184 | after a committed pass accepted rows are SENT with their retry counts kept, refused ones PENDING with one more, all others unchanged |
| RelayBounds.PassLowers | pkg/outbox/outbox.go:153-184 | a committed pass uses up at least one attempt of every row in its batch |
| RelayBounds.DrainBound | pkg/outbox/outbox.go:114-191 | of N eligible rows none is eligible after floor(5N/100)+5 committed passes, each SENT or exhausted, whatever the broker refuses |
| RelayBounds.NoStarvation | pkg/outbox/outbox.go:115-122 | an eligible row with k older ones is attempted within floor(5k/100)+1 committed passes |
| RelayConcurrency.StepInv | pkg/outbox/outbox.go:114-191 | begin, attempt, commit, abort and insert of any number of relays keep the accounting |
| RelayConcurrency.Accounting | pkg/outbox/outbox.go:115-188 | concurrent batches are disjoint, SENT implies published, copies <= 1 + aborted passes holding the row, retries <= 5 |
| RelayConcurrency.SentForGood | pkg/outbox/outbox.go:115-128 | a SENT row is never selected, changed or published again |
| RelayConcurrency.CommitLowers | pkg/outbox/outbox.go:153-188 | with other relays at work, a commit still uses up one attempt of every row of its batch |
| RelayConcurrency.WorkBound | pkg/outbox/outbox.go:114-191 | over any run of any number of relays, committed passes settle at most five rows for each row eligible at the start or inserted since |
| RelayConcurrency.RelaysRefineSaga | pkg/outbox/outbox.go:153-188 | every relay step is a publish or settle step of the saga, or invisible to it |
| RelayConcurrency.SagaStepsInsert | pkg/outbox/outbox.go:49-74 | the rest of the saga gives a relay's table one new row or nothing |
| RelaySaga.RelayShadow | pkg/outbox/outbox.go:114-191 | in the saga with its relays written out, a relay step is one enabled saga step or leaves the world alone |
| RelaySaga.RelayedIsReachable | pkg/outbox/outbox.go:94-191 | every run of the saga with concurrent relays at all three services ends in a state the saga reaches, with the relays' accounts in order |
| SagaInvariant.InitInv | scripts/init-inventory-db.sql:4-23 | the deployed system satisfies the invariant |
| SagaSteps.CreatedDeliveryInv | services/inventory/internal/application/usecase.go:52-132 | reserving or rejecting advances one track and keeps the invariant |
| SagaSteps.ClosingDeliveryInv | services/inventory/internal/application/usecase.go:135-268 | releasing or committing advances one track and keeps the invariant |
| SagaSteps.OrderDeliveryInv | services/order/internal/application/usecase.go:114-279 | confirming, completing or cancelling advances one track and keeps the invariant |
| SagaSteps.PaymentDeliveryInv | services/payment/internal/application/usecase.go:58-201 | charging, declining or acknowledging a cancellation advances one track and keeps the invariant |
| SagaReachable.CreateInv | services/order/internal/application/usecase.go:58-102 | creating an order starts a track and keeps the invariant |
| SagaReachable.StepInv | services/order/internal/interfaces/consumer.go:33-72 | every enabled step of the composed saga keeps the invariant |
| SagaReachable.ReachableInv | services/payment/internal/interfaces/consumer.go:33-54 | every reachable state satisfies the invariant |
| SagaTheorems.OrderSafety | services/order/internal/application/usecase.go:153-279 | a COMPLETED order has its completed payment and its reservation; a CANCELLED one has no completed payment |
| SagaTheorems.ReservationSafety | services/inventory/internal/application/usecase.go:135-268 | COMMITTED implies a COMPLETED order, RELEASED a CANCELLED order with a failed payment; product and quantity are the order's |
| SagaTheorems.PaymentSafety | services/payment/internal/application/usecase.go:80-122 | every payment is of its order's amount and customer and is COMPLETED or FAILED |
| SagaTheorems.Uniqueness | services/inventory/internal/application/usecase.go:60-118 | per order at most one reservation, one payment, one stock row, one payment row, one creation row, one closing row |
| SagaTheorems.OrderOutboxAtomic | services/order/internal/application/usecase.go:58-240 | a creation row for every order, a completion row iff COMPLETED, a cancellation row iff CANCELLED with stock reserved, its reason the failed payment's |
| SagaTheorems.ReservationAnnounced | services/inventory/internal/application/usecase.go:99-122 | every reservation has its StockReserved row with the same data |
| SagaTheorems.AnnouncedReservation | services/inventory/internal/application/usecase.go:104-118 | every StockReserved row has its reservation |
| SagaTheorems.RejectionExplained | services/inventory/internal/application/usecase.go:69-97 | every rejection carries the order's data, its order holds no stock, and the delivery that wrote it, in an earlier reachable state, met an unknown product or too few available units, as its reason says |
| SagaTheorems.PaymentAnnounced | services/payment/internal/application/usecase.go:81-126 | every payment has its outcome row with the same data |
| SagaTheorems.AnnouncedPayment | services/payment/internal/application/usecase.go:92-122 | every outcome row has its payment |
| SagaTheorems.ClosingNeverOvertakes | services/order/internal/application/usecase.go:184-236 | a closing event's reservation and payment are committed before it exists, and resolved once inventory has marked it |
| SagaTheorems.ResolvedForGood | services/inventory/internal/application/usecase.go:142-200 | after that no reservation of the order is ever RESERVED again |
| SagaTheorems.RefundNeverTaken | services/payment/internal/application/usecase.go:170-194 | the payment a cancellation finds has failed, so the refund branch is dead in the saga |
| SagaTheorems.NoDomainError | services/order/internal/application/usecase.go:130-133 | delivering any published message runs into no domain error, only an aborted transaction |
| SagaConvergence.Convergence | services/inventory/internal/application/usecase.go:52-268 | when all rows are SENT and redelivery changes nothing, each order is completed-committed-paid, cancelled-released-failed, or cancelled-untouched |
| SagaConvergence.OrderEnds | services/payment/internal/application/usecase.go:58-201 | an order whose messages are all published and can be redelivered without effect has ended, whatever the other orders do |
| SagaConvergence.RestIsDelivered | services/order/internal/interfaces/consumer.go:33-72 | at rest every event has been handled by each service it concerns, but for a StockReserved that came after its order's cancellation |
| SagaTermination.AtMostFourRows | services/order/internal/application/usecase.go:58-240 | an order causes at most four outbox rows |
| SagaTermination.AtMostSixDeliveries | services/payment/internal/application/usecase.go:58-201 | over any run at most six deliveries of an order's events change the state |
| SagaTermination.StepLowers | services/order/internal/application/usecase.go:58-279 | every changing step but a creation lowers a measure |
| SagaTermination.ProgressIsBounded | services/order/internal/application/usecase.go:58-279 | without creations a run changes the state at most as often as the measure says |
| SagaRest.IneligibleStays | pkg/outbox/outbox.go:115-122 | a row that is SENT or has used up its retries never changes again |
| SagaRest.PoisonedOrder | pkg/outbox/outbox.go:153-168 | a run from a deployed system after which one order never ends and the saga never rests, whatever follows |
| SagaRest.CanRestIff | pkg/outbox/outbox.go:114-191 | a reachable state can run to a quiescent one iff no row is exhausted |
| SagaRest.EndedIsPublished | services/inventory/internal/application/usecase.go:52-268 | an order that has ended has all its messages with the broker |
| SagaRest.LostForGood | pkg/outbox/outbox.go:115-122 | a message that is neither published nor eligible is never published |
| SagaRest.CanConverge | pkg/outbox/outbox.go:94-191 | any set of orders can be run to their ends iff each of their messages is published or still eligible |
| SagaTotals.StockBalance | services/inventory/internal/application/usecase.go:203-268 | units gone from stock <= units of COMPLETED orders, equal at rest |
| SagaTotals.MoneyBalance | services/payment/internal/application/usecase.go:109-122 | amounts of COMPLETED orders <= amounts of COMPLETED payments, equal at rest |
| InterleavingLoops.TurnOk | services/inventory/internal/application/usecase.go:157-193 | a loop turn on the transaction's own row versions is the atomic loop's turn |
| InterleavingLoops.LoopStable | services/inventory/internal/infrastructure/repository.go:53-99 | commits to rows that are not locked leave those versions right |
| InterleavingRefinement.NoPhantom | services/inventory/internal/infrastructure/repository.go:189-221 | in the saga no reservation can join the rows a closing transaction has selected |
| InterleavingRefinement.CommitIsAtomic | services/order/internal/infrastructure/repository.go:98-125 | what a committing transaction writes from its own reads is the atomic handler's result at that moment |
| InterleavingRefinement.StepRefines | services/payment/internal/infrastructure/repository.go:137-169 | every interleaved step is one saga step or leaves the committed world alone |
| InterleavingRefinement.InterleavedIsReachable | services/inventory/internal/infrastructure/repository.go:53-221 | whatever interleaving commits is reachable in the atomic saga |
| InterleavingStreams.InterleavedConserves | services/inventory/internal/infrastructure/repository.go:53-99 | no reserve, release or commit is lost: any interleaving of any event stream, phantoms and several reservations per order included, keeps the stock in balance |
| InterleavingStreams.WrittenIffNoPhantom | services/inventory/internal/application/usecase.go:151-195 | what a finished closing loop writes is the atomic handler's result iff no RESERVED row of its order joined after its SELECT |
| InterleavingStreams.CommitAtomicIffNoPhantom | services/inventory/internal/application/usecase.go:135-268 | the same for every closing transaction about to commit, in every run over any event stream |
| Phantoms.LostCompensation | services/inventory/internal/application/usecase.go:151-195 | an event stream, outside the saga, whose interleaving leaves a cancelled order's reservation RESERVED for good |

## Left out

- RelayBounds.DrainBound: counts the committed passes of one relay; for several relays the bound is on the rows they settle together (RelayConcurrency.WorkBound), not on passes, since a pass may find every row locked.
- RelayBounds.NoStarvation: for one relay, and assumes new rows are newer than the waiting one, which commit order across clocks need not give.
- Streams.FirstCopiesEnough: for orders that start PENDING and events not handled before; from any other database the condition is on the run (Streams.FirstCopiesExact).
- SagaRest.CanConverge: says that orders can end, not that they will: delivery has no acknowledgement, so no fairness is assumed.
- InterleavingRefinement.InterleavedIsReachable: locks the rows of one SELECT FOR UPDATE in one step; creating an order and the relay's passes stay atomic, since they lock no row that a handler locks.
- PaymentModel.FirstOf: the single-row SELECT of a payment takes the first row in table order; in the saga there is at most one.
- Deadlocks: a transaction that waits for ever is only modelled as one that may be rolled back.
- 32-bit columns: quantities are unbounded; a value outside INT is an SQL error, that is, an aborted transaction.
- float64 and DECIMAL(10,2): amounts are positive reals carried unchanged.
- The amount test and the random draw of payment failures: any answer per event.
- JSON, timestamps other than the outbox order, logging, HTTP handlers, process start-up and shutdown.
- The broker's queue groups: a message may reach a subscriber any number of times, which includes once per group.
- Read-only queries, IsProcessed and the StockReleased event, which is never published.
