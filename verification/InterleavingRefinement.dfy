/** Every step of the interleaved system is a step of the atomic saga or invisible to it, so
    every committed state of the interleaved system is reachable in the atomic saga. */
module InterleavingRefinement {
  import opened SagaTypes
  import opened Saga
  import opened Interleaving
  import opened InterleavingLoops
  import Theorems = SagaTheorems
  import SagaSteps
  import SagaInvariant
  import SagaReachable
  import O = OrderModel
  import I = InventoryModel
  import P = PaymentModel

  // ----- the invariant

  ghost predicate PhaseOk(w: World, tx: Tx) {
    var e := tx.event;
    match tx.phase
    case Begun => true
    case Marked => true
    case StockRead(stock) =>
      && tx.to == InventoryService && e.OrderCreated?
      && stock == if e.productId in w.inv.inventory then Some(w.inv.inventory[e.productId]) else None
    case Looping(_, _, _, _, _) =>
      && tx.to == InventoryService && !e.OrderCreated?
      && tx.phase.hs == I.RowsOf(w.inv.reservations, e.orderId) && LoopOk(w.inv, e, tx.phase)
    case OrderRead(row) =>
      && tx.to == OrderService
      && e.orderId in w.order.orders && row == Some(w.order.orders[e.orderId])
    case Charging => tx.to == PaymentService && e.StockReserved?
    case PaymentRead(found, payment) =>
      && tx.to == PaymentService && e.OrderCancelled?
      && found.Some? && found == P.FirstOf(w.pay.payments, e.orderId)
      && payment == Some(w.pay.payments[found.value])
  }

  ghost predicate TxOk(w: World, tx: Tx) {
    && tx.event in w.published && Routes(tx.to, tx.event)
    && (!tx.phase.Begun? ==> tx.event.id !in SagaSteps.Processed(w, tx.to))
    && PhaseOk(w, tx)
  }

  ghost predicate SysInv(s: Sys, initial: map<string, int>) {
    && Reachable(s.w, initial)
    && (forall x :: x in s.txs ==> TxOk(s.w, s.txs[x]))
    && (forall x, y :: x in s.txs && y in s.txs && x != y ==> Locks(s.txs[x]) !! Locks(s.txs[y]))
  }

  // ----- what a commit leaves alone

  /** From `w` to `w'` only rows in `keys` changed, and rows were added. */
  ghost predicate Frame(w: World, w': World, keys: set<Key>) {
    && w.published <= w'.published
    && w'.inv.inventory.Keys == w.inv.inventory.Keys
    && (forall p :: p in w.inv.inventory && StockKey(p) !in keys ==> w'.inv.inventory[p] == w.inv.inventory[p])
    && |w.inv.reservations| <= |w'.inv.reservations|
    && (forall h: nat :: h < |w.inv.reservations| ==>
          && w'.inv.reservations[h].orderId == w.inv.reservations[h].orderId
          && (ReservationKey(h) !in keys ==> w'.inv.reservations[h] == w.inv.reservations[h]))
    && (forall o :: o in w.order.orders ==>
          o in w'.order.orders && (OrderKey(o) !in keys ==> w'.order.orders[o] == w.order.orders[o]))
    && |w.pay.payments| <= |w'.pay.payments|
    && (forall i: nat :: i < |w.pay.payments| ==>
          && w'.pay.payments[i].orderId == w.pay.payments[i].orderId
          && (PaymentKey(i) !in keys ==> w'.pay.payments[i] == w.pay.payments[i]))
    && (forall s: Service, id :: id in SagaSteps.Processed(w', s) ==>
          id in SagaSteps.Processed(w, s) || MarkKey(s, id) in keys)
  }

  /** In the saga a closing event's order has one reservation, from before the event existed:
      no phantom can join the rows that the transaction has selected. */
  lemma NoPhantom(w: World, w': World, initial: map<string, int>, e: Event)
    requires Reachable(w, initial) && Reachable(w', initial) && e in w.published && e in w'.published
    requires e.OrderCancelled? || e.OrderCompleted?
    requires |w.inv.reservations| <= |w'.inv.reservations|
    requires forall h: nat :: h < |w.inv.reservations| ==>
               w'.inv.reservations[h].orderId == w.inv.reservations[h].orderId
    ensures I.RowsOf(w'.inv.reservations, e.orderId) == I.RowsOf(w.inv.reservations, e.orderId)
  {
    hide Reachable;
    var v := OneRow(w, initial, e);
    var v' := OneRow(w', initial, e);
    assert v in I.RowsOf(w.inv.reservations, e.orderId);
    assert v in I.RowsOf(w'.inv.reservations, e.orderId);
  }

  lemma OneRow(w: World, initial: map<string, int>, e: Event) returns (v: nat)
    requires Reachable(w, initial) && e in w.published && (e.OrderCancelled? || e.OrderCompleted?)
    ensures I.RowsOf(w.inv.reservations, e.orderId) == [v]
  {
    hide Reachable, SagaInvariant.Inv;
    var t, log := SagaReachable.ReachableInv(w, initial);
    SagaSteps.Local(w, t, log, initial, e);
    Theorems.TableFacts(w, t, log, initial);
    v := t[e.orderId].reservation.value;
    var hs := I.RowsOf(w.inv.reservations, e.orderId);
    assert v in hs;
    assert forall j :: 0 <= j < |hs| ==> hs[j] in hs;
    forall j | 0 <= j < |hs| ensures hs[j] == v {
      assert t[w.inv.reservations[hs[j]].orderId].reservation == Some(hs[j]);
    }
    assert hs[0] == hs[|hs| - 1];
    assert hs == [v];
  }

  lemma PhaseStable(w: World, w': World, tx: Tx, keys: set<Key>, initial: map<string, int>)
    requires TxOk(w, tx) && Frame(w, w', keys) && Locks(tx) !! keys
    requires Reachable(w, initial) && Reachable(w', initial)
    ensures PhaseOk(w', tx)
  {
    hide Reachable, LoopOk, P.FirstOf, I.RowsOf;
    var e := tx.event;
    match tx.phase
    case StockRead(stock) =>
      if stock.Some? {
        assert StockKey(e.productId) in Locks(tx);
      }
    case Looping(_, _, _, _, _) => LoopingStable(w, w', tx, keys, initial);
    case OrderRead(row) =>
      assert OrderKey(e.orderId) in Locks(tx);
    case PaymentRead(found, payment) => RefundStable(w, w', tx, keys);
    case _ =>
  }

  lemma LoopingStable(w: World, w': World, tx: Tx, keys: set<Key>, initial: map<string, int>)
    requires TxOk(w, tx) && tx.phase.Looping? && Frame(w, w', keys) && Locks(tx) !! keys
    requires Reachable(w, initial) && Reachable(w', initial)
    ensures PhaseOk(w', tx)
  {
    hide Reachable, LoopOk, P.FirstOf, I.RowsOf;
    var (e, p) := (tx.event, tx.phase);
    NoPhantom(w, w', initial, e);
    assert forall j :: 0 <= j < |p.hs| ==> p.hs[j] in p.hs && ReservationKey(p.hs[j]) in Locks(tx);
    assert forall x :: x in p.stocks ==> StockKey(x) in Locks(tx);
    LoopFacts(w.inv, e, p);
    LoopStable(w.inv, w'.inv, e, p);
  }

  lemma RefundStable(w: World, w': World, tx: Tx, keys: set<Key>)
    requires TxOk(w, tx) && tx.phase.PaymentRead? && Frame(w, w', keys) && Locks(tx) !! keys
    ensures PhaseOk(w', tx)
  {
    hide LoopOk, I.RowsOf;
    var found := tx.phase.found;
    assert PaymentKey(found.value) in Locks(tx);
    var found' := P.FirstOf(w'.pay.payments, tx.event.orderId);
    assert w'.pay.payments[found.value].orderId == tx.event.orderId;
  }

  lemma LoopFacts(db: I.InventoryDb, e: Event, p: Phase)
    requires p.Looping? && LoopOk(db, e, p)
    ensures InTable(db, p.hs) && p.stocks.Keys <= db.inventory.Keys
  {
  }

  lemma TxStable(w: World, w': World, tx: Tx, keys: set<Key>, initial: map<string, int>)
    requires TxOk(w, tx) && Frame(w, w', keys) && Locks(tx) !! keys
    requires Reachable(w, initial) && Reachable(w', initial)
    ensures TxOk(w', tx)
  {
    hide Reachable, PhaseOk;
    PhaseStable(w, w', tx, keys, initial);
    if !tx.phase.Begun? {
      assert MarkKey(tx.to, tx.event.id) in Locks(tx);
    }
  }

  // ----- a commit is the atomic handler

  lemma LoopCommit(w: World, tx: Tx)
    requires TxOk(w, tx) && tx.phase.Looping? && Ready(tx)
    ensures Written(w, tx) == Some(w.(inv := I.OnOrderClosed(w.inv, tx.event).0))
  {
    var p := tx.phase;
    assert p.hs[..p.k] == p.hs;
    LoopAndMark(w.inv, w.inv.processed + {tx.event.id}, p.hs, To(tx.event));
  }

  /** What a committing transaction writes from its own reads is what the atomic handler, run
      on the database of that moment, would make of it. */
  lemma CommitIsAtomic(w: World, tx: Tx)
    requires TxOk(w, tx) && Ready(tx) && tx.choice.commits
    ensures
      var (w', report) := HandleAt(w, tx.to, tx.event, tx.choice);
      && (report == Done ==> Written(w, tx) == Some(w'))
      && (report != Done ==> w' == w && (Written(w, tx).None? || Written(w, tx) == Some(w)))
  {
    if tx.phase.Looping? {
      LoopCommit(w, tx);
    } else {
      hide LoopOk;
    }
  }

  /** The handler of a transaction changes only rows that the transaction has locked. */
  lemma CommitFrame(w: World, tx: Tx)
    requires TxOk(w, tx) && Ready(tx) && tx.choice.commits
    ensures Frame(w, HandleAt(w, tx.to, tx.event, tx.choice).0, Locks(tx))
  {
    if tx.phase.Looping? {
      LoopCommitFrame(w, tx);
    } else if tx.phase.StockRead? {
      StockCommitFrame(w, tx);
    } else if tx.phase.OrderRead? {
      OrderCommitFrame(w, tx);
    } else {
      PaymentCommitFrame(w, tx);
    }
  }

  lemma StockCommitFrame(w: World, tx: Tx)
    requires TxOk(w, tx) && tx.phase.StockRead? && tx.choice.commits
    ensures Frame(w, HandleAt(w, tx.to, tx.event, tx.choice).0, Locks(tx))
  {
    hide LoopOk, I.RowsOf, P.FirstOf, I.OnOrderClosed;
    assert MarkKey(tx.to, tx.event.id) in Locks(tx);
    assert tx.phase.stock.Some? ==> StockKey(tx.event.productId) in Locks(tx);
  }

  lemma OrderCommitFrame(w: World, tx: Tx)
    requires TxOk(w, tx) && tx.phase.OrderRead? && tx.choice.commits
    ensures Frame(w, HandleAt(w, tx.to, tx.event, tx.choice).0, Locks(tx))
  {
    hide LoopOk, I.RowsOf, P.FirstOf;
    assert MarkKey(tx.to, tx.event.id) in Locks(tx) && OrderKey(tx.event.orderId) in Locks(tx);
  }

  lemma PaymentCommitFrame(w: World, tx: Tx)
    requires TxOk(w, tx) && (tx.phase.Charging? || tx.phase.PaymentRead?) && tx.choice.commits
    ensures Frame(w, HandleAt(w, tx.to, tx.event, tx.choice).0, Locks(tx))
  {
    hide LoopOk, I.RowsOf;
    assert MarkKey(tx.to, tx.event.id) in Locks(tx);
    assert tx.phase.PaymentRead? ==> PaymentKey(tx.phase.found.value) in Locks(tx);
  }

  lemma LoopCommitFrame(w: World, tx: Tx)
    requires TxOk(w, tx) && tx.phase.Looping? && Ready(tx) && tx.choice.commits
    ensures Frame(w, HandleAt(w, tx.to, tx.event, tx.choice).0, Locks(tx))
  {
    hide LoopOk, I.OnOrderClosed, I.RowsOf, Locks;
    LoopCommitRows(w, tx);
    LoopKeys(tx);
  }

  lemma LoopKeys(tx: Tx)
    requires tx.phase.Looping?
    ensures MarkKey(tx.to, tx.event.id) in Locks(tx)
    ensures forall h :: h in tx.phase.hs ==> ReservationKey(h) in Locks(tx)
    ensures forall x :: x in tx.phase.stocks ==> StockKey(x) in Locks(tx)
  {
  }

  /** The commit of a finished loop changes only the rows that the loop has visited. */
  lemma LoopCommitRows(w: World, tx: Tx)
    requires TxOk(w, tx) && tx.phase.Looping? && Ready(tx)
    ensures
      var (p, db, db') := (tx.phase, w.inv, I.OnOrderClosed(w.inv, tx.event).0);
      && tx.to == InventoryService && db'.processed == db.processed + {tx.event.id}
      && db'.inventory.Keys == db.inventory.Keys
      && (forall x :: x in db.inventory && x !in p.stocks ==> db'.inventory[x] == db.inventory[x])
      && |db'.reservations| == |db.reservations|
      && (forall h: nat :: h < |db.reservations| ==> db'.reservations[h].orderId == db.reservations[h].orderId)
      && (forall h: nat :: h < |db.reservations| && h !in p.hs ==> db'.reservations[h] == db.reservations[h])
  {
    var p := tx.phase;
    assert p.hs[..p.k] == p.hs;
    LoopAndMark(w.inv, w.inv.processed + {tx.event.id}, p.hs, To(tx.event));
    LoopIsLocal(w.inv, p.hs, To(tx.event), p.stocks.Keys);
    LoopKeepsOrders(w.inv, p.hs, To(tx.event));
  }

  lemma {:induction false} LoopKeepsOrders(db: I.InventoryDb, hs: seq<nat>, to: I.ReservationStatus)
    ensures
      var after := I.ResolveRows(db, hs, to);
      && |after.reservations| == |db.reservations|
      && forall h: nat :: h < |db.reservations| ==> after.reservations[h].orderId == db.reservations[h].orderId
  {
    if hs != [] {
      LoopKeepsOrders(db, hs[..|hs| - 1], to);
    }
  }

  // ----- every step

  lemma OtherFrame(w: World, a: Action)
    requires Saga.Enabled(w, a) && !a.Deliver?
    ensures Frame(w, Saga.Apply(w, a), {})
  {
    hide FreshId;
    var w' := Saga.Apply(w, a);
    assert forall s: Service :: SagaSteps.Processed(w', s) == SagaSteps.Processed(w, s);
  }

  /** The transactions other than `id` survive a change of the world that `id` had locked. */
  lemma OthersStable(s: Sys, w': World, id: nat, keys: set<Key>, initial: map<string, int>)
    requires SysInv(s, initial) && Frame(s.w, w', keys) && Free(s, id, keys) && Reachable(w', initial)
    ensures SysInv(Sys(w', s.txs - {id}), initial)
  {
    hide TxOk, Frame, Reachable, Locks;
    forall x | x in s.txs && x != id ensures TxOk(w', s.txs[x]) {
      TxStable(s.w, w', s.txs[x], keys, initial);
    }
  }

  /** A transaction moves to a phase whose locks it was granted. */
  lemma Granted(s: Sys, id: nat, tx: Tx, initial: map<string, int>)
    requires SysInv(s, initial) && TxOk(s.w, tx) && Free(s, id, Locks(tx))
    ensures SysInv(s.(txs := s.txs[id := tx]), initial)
  {
    hide TxOk, Reachable, Locks;
  }

  lemma ReadOk(w: World, tx: Tx, initial: map<string, int>)
    requires Reachable(w, initial) && TxOk(w, tx) && tx.phase.Marked?
    ensures TxOk(w, tx.(phase := FirstRead(w, tx)))
  {
    hide Reachable, SagaInvariant.Inv, LoopOk;
    var t, log := SagaReachable.ReachableInv(w, initial);
    SagaSteps.Local(w, t, log, initial, tx.event);
    if tx.to == PaymentService && tx.event.OrderCancelled? {
      Theorems.RefundNeverTaken(w, initial, tx.event);
    }
    if tx.to == InventoryService && !tx.event.OrderCreated? {
      LoopStarts(w, tx);
    }
  }

  lemma TurnTxOk(w: World, tx: Tx)
    requires TxOk(w, tx) && tx.phase.Looping? && tx.phase.k < |tx.phase.hs| == |tx.phase.seen|
    ensures TxOk(w, tx.(phase := LoopTurn(w, tx)))
  {
    hide LoopOk;
    TurnOk(w, tx);
  }

  /** The locks held by one transaction are free for itself. */
  lemma OwnLocks(s: Sys, id: nat, initial: map<string, int>)
    requires SysInv(s, initial) && id in s.txs
    ensures Free(s, id, Locks(s.txs[id])) && TxOk(s.w, s.txs[id])
  {
    hide Locks, TxOk;
  }

  /** The saga step that a step of the interleaved system makes visible, if any. */
  function Visible(s: Sys, step: Step): Option<Action> {
    match step
    case Commit(id) =>
      if id in s.txs then Some(Deliver(s.txs[id].to, s.txs[id].event, s.txs[id].choice)) else None
    case Other(a) => Some(a)
    case _ => None
  }

  /** Refinement, step by step: the committed world makes the visible saga step or stays. */
  lemma StepRefines(s: Sys, step: Step, initial: map<string, int>)
    requires SysInv(s, initial) && Interleaving.Enabled(s, step)
    ensures
      var a := Visible(s, step);
      var w' := Interleaving.Apply(s, step).w;
      if a.Some? then Saga.Enabled(s.w, a.value) && w' == Saga.Apply(s.w, a.value) else w' == s.w
  {
    hide TxOk, Reachable, Written, HandleAt, FreshId, Locks;
    if step.Commit? {
      OwnLocks(s, step.id, initial);
      CommitIsAtomic(s.w, s.txs[step.id]);
      InPublished(s.w, s.txs[step.id]);
    }
  }

  lemma InPublished(w: World, tx: Tx)
    requires TxOk(w, tx)
    ensures tx.event in w.published && Routes(tx.to, tx.event)
  {
  }

  lemma ReachableStep(w: World, initial: map<string, int>, a: Action)
    requires Reachable(w, initial) && Saga.Enabled(w, a)
    ensures Reachable(Saga.Apply(w, a), initial)
  {
    hide Reachable, Saga.Enabled, Saga.Apply;
    assert [a][..0] == [];
    Theorems.ReachableOnward(w, initial, [a]);
  }

  lemma StepKeepsInv(s: Sys, step: Step, initial: map<string, int>)
    requires SysInv(s, initial) && Interleaving.Enabled(s, step)
    ensures SysInv(Interleaving.Apply(s, step), initial)
  {
    hide Reachable, PhaseOk, HandleAt, FreshId, Written, Frame;
    match step
    case Begin(id, to, e, c) =>
      BegunOk(s.w, to, e, c);
      Granted(s, id, Tx(to, e, c, Begun), initial);
    case Mark(id) =>
      OwnLocks(s, id, initial);
      if s.txs[id].event.id !in SagaSteps.Processed(s.w, s.txs[id].to) {
        MarkedOk(s.w, s.txs[id]);
        Granted(s, id, s.txs[id].(phase := Marked), initial);
      }
    case Read(id) =>
      OwnLocks(s, id, initial);
      ReadOk(s.w, s.txs[id], initial);
      Granted(s, id, s.txs[id].(phase := FirstRead(s.w, s.txs[id])), initial);
    case Turn(id) =>
      OwnLocks(s, id, initial);
      TurnTxOk(s.w, s.txs[id]);
      Granted(s, id, s.txs[id].(phase := LoopTurn(s.w, s.txs[id])), initial);
    case Commit(id) => CommitKeepsInv(s, id, initial);
    case Rollback(id) =>
    case Other(a) => OtherKeepsInv(s, a, initial);
  }

  lemma BegunOk(w: World, to: Service, e: Event, c: Choice)
    requires e in w.published && Routes(to, e)
    ensures TxOk(w, Tx(to, e, c, Begun)) && Locks(Tx(to, e, c, Begun)) == {}
  {
  }

  lemma MarkedOk(w: World, tx: Tx)
    requires TxOk(w, tx) && tx.event.id !in SagaSteps.Processed(w, tx.to)
    ensures TxOk(w, tx.(phase := Marked))
  {
  }

  lemma CommitKeepsInv(s: Sys, id: nat, initial: map<string, int>)
    requires SysInv(s, initial) && Interleaving.Enabled(s, Commit(id))
    ensures SysInv(Interleaving.Apply(s, Commit(id)), initial)
  {
    hide Reachable, TxOk, Written, HandleAt, Frame, Locks, FreshId, SysInv;
    StepRefines(s, Commit(id), initial);
    InvReachable(s, initial);
    ReachableStep(s.w, initial, Deliver(s.txs[id].to, s.txs[id].event, s.txs[id].choice));
    OwnLocks(s, id, initial);
    CommitFrame(s.w, s.txs[id]);
    OthersStable(s, Interleaving.Apply(s, Commit(id)).w, id, Locks(s.txs[id]), initial);
  }

  lemma InvReachable(s: Sys, initial: map<string, int>)
    requires SysInv(s, initial)
    ensures Reachable(s.w, initial)
  {
  }

  lemma OtherKeepsInv(s: Sys, a: Action, initial: map<string, int>)
    requires SysInv(s, initial) && Interleaving.Enabled(s, Other(a))
    ensures SysInv(Interleaving.Apply(s, Other(a)), initial)
  {
    hide Reachable, TxOk, Frame, Locks, Saga.Enabled, Saga.Apply;
    ReachableStep(s.w, initial, a);
    OtherFrame(s.w, a);
    forall x | x in s.txs ensures TxOk(Saga.Apply(s.w, a), s.txs[x]) {
      TxStable(s.w, Saga.Apply(s.w, a), s.txs[x], {}, initial);
    }
  }

  // ----- runs

  ghost predicate Executes(s: Sys, steps: seq<Step>)
    decreases |steps|
  {
    steps == [] || (Interleaving.Enabled(s, steps[0]) && Executes(Interleaving.Apply(s, steps[0]), steps[1..]))
  }

  ghost function After(s: Sys, steps: seq<Step>): Sys
    requires Executes(s, steps)
    decreases |steps|
  {
    if steps == [] then s else After(Interleaving.Apply(s, steps[0]), steps[1..])
  }

  lemma {:induction false} RunKeepsInv(s: Sys, steps: seq<Step>, initial: map<string, int>)
    requires SysInv(s, initial) && Executes(s, steps)
    ensures SysInv(After(s, steps), initial)
    decreases |steps|
  {
    hide SysInv, Interleaving.Enabled, Interleaving.Apply;
    if steps != [] {
      StepKeepsInv(s, steps[0], initial);
      RunKeepsInv(Interleaving.Apply(s, steps[0]), steps[1..], initial);
    }
  }

  /** Every database state that any interleaving of handler transactions commits is reachable in
      the atomic saga, so whatever holds in all its reachable states holds here. */
  lemma InterleavedIsReachable(s0: Sys, steps: seq<Step>, initial: map<string, int>)
    requires Init(s0.w, initial) && s0.txs == map[] && Executes(s0, steps)
    ensures Reachable(After(s0, steps).w, initial)
  {
    assert Saga.Executes(s0.w, []) && Saga.After(s0.w, []) == s0.w;
    RunKeepsInv(s0, steps, initial);
  }
}
