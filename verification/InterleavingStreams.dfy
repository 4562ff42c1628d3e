/** The inventory service under any interleaving of any event stream, whether or not a saga could
    produce it: phantoms and several reservations of one order included. The stock stays in
    balance, and a closing transaction commits the atomic result exactly when no phantom joined. */
module InterleavingStreams {
  import opened SagaTypes
  import opened Saga
  import opened Interleaving
  import opened InterleavingLoops
  import R = InterleavingRefinement
  import Ph = Phantoms
  import SagaSteps
  import I = InventoryModel
  import Stock = StockConservation

  // ----- the invariant

  /** The loop's rows are those that the order had when the table had some earlier length. */
  ghost predicate Selected(rs: seq<I.ReservationRow>, o: Id, hs: seq<nat>) {
    exists m: nat :: SelectedAt(rs, o, hs, m)
  }

  ghost predicate SelectedAt(rs: seq<I.ReservationRow>, o: Id, hs: seq<nat>, m: nat) {
    m <= |rs| && hs == I.RowsOf(rs[..m], o)
  }

  ghost predicate PhaseOk(db: I.InventoryDb, e: Event, p: Phase) {
    match p
    case Begun => true
    case Marked => true
    case StockRead(stock) =>
      && e.OrderCreated?
      && stock == if e.productId in db.inventory then Some(db.inventory[e.productId]) else None
    case Looping(hs, _, _, _, _) => !e.OrderCreated? && LoopOk(db, e, p) && Selected(db.reservations, e.orderId, hs)
    case _ => false
  }

  ghost predicate TxOk(db: I.InventoryDb, tx: Tx) {
    && Routes(tx.to, tx.event)
    && if tx.to == InventoryService
       then PhaseOk(db, tx.event, tx.phase) && (!tx.phase.Begun? ==> tx.event.id !in db.processed)
       else !tx.phase.StockRead? && !tx.phase.Looping?
  }

  ghost predicate StreamInv(s: Sys, initial: map<string, int>) {
    && Stock.Conserved(s.w.inv, initial)
    && (forall x :: x in s.txs ==> TxOk(s.w.inv, s.txs[x]))
    && Apart(s.txs)
  }

  ghost predicate Apart(txs: map<nat, Tx>) {
    forall x, y :: x in txs && y in txs && x != y ==> Locks(txs[x]) !! Locks(txs[y])
  }

  // ----- what another transaction's commit leaves alone

  /** From `db` to `db2` only rows in `keys` changed, and rows were added. */
  ghost predicate Frame(db: I.InventoryDb, db2: I.InventoryDb, keys: set<Key>) {
    && db2.inventory.Keys == db.inventory.Keys
    && (forall p :: p in db.inventory && StockKey(p) !in keys ==> db2.inventory[p] == db.inventory[p])
    && |db.reservations| <= |db2.reservations|
    && (forall h: nat :: h < |db.reservations| ==>
          && db2.reservations[h].orderId == db.reservations[h].orderId
          && (ReservationKey(h) !in keys ==> db2.reservations[h] == db.reservations[h]))
    && (forall id :: id in db2.processed ==> id in db.processed || MarkKey(InventoryService, id) in keys)
  }

  lemma {:induction false} SameRows(rs: seq<I.ReservationRow>, rs2: seq<I.ReservationRow>, o: Id)
    requires |rs| == |rs2| && forall h: nat :: h < |rs| ==> rs2[h].orderId == rs[h].orderId
    ensures I.RowsOf(rs2, o) == I.RowsOf(rs, o)
  {
    if rs != [] {
      SameRows(rs[..|rs| - 1], rs2[..|rs| - 1], o);
    }
  }

  lemma SelectedStable(db: I.InventoryDb, db2: I.InventoryDb, keys: set<Key>, o: Id, hs: seq<nat>)
    requires Frame(db, db2, keys) && Selected(db.reservations, o, hs)
    ensures Selected(db2.reservations, o, hs)
  {
    var m: nat :| SelectedAt(db.reservations, o, hs, m);
    SameRows(db.reservations[..m], db2.reservations[..m], o);
    assert SelectedAt(db2.reservations, o, hs, m);
  }

  lemma LoopingStable(db: I.InventoryDb, db2: I.InventoryDb, tx: Tx, keys: set<Key>)
    requires TxOk(db, tx) && tx.phase.Looping? && Frame(db, db2, keys) && Locks(tx) !! keys
    ensures TxOk(db2, tx)
  {
    hide LoopOk, Selected, I.RowsOf, Locks;
    var (e, p) := (tx.event, tx.phase);
    R.LoopKeys(tx);
    R.LoopFacts(db, e, p);
    SelectedStable(db, db2, keys, e.orderId, p.hs);
    assert forall j :: 0 <= j < |p.hs| ==> p.hs[j] in p.hs;
    LoopStable(db, db2, e, p);
  }

  lemma TxStable(db: I.InventoryDb, db2: I.InventoryDb, tx: Tx, keys: set<Key>)
    requires TxOk(db, tx) && Frame(db, db2, keys) && Locks(tx) !! keys
    ensures TxOk(db2, tx)
  {
    hide LoopOk, Selected;
    if tx.phase.Looping? {
      LoopingStable(db, db2, tx, keys);
    } else if tx.to == InventoryService && !tx.phase.Begun? {
      assert MarkKey(tx.to, tx.event.id) in Locks(tx);
      assert tx.phase.StockRead? && tx.phase.stock.Some? ==> StockKey(tx.event.productId) in Locks(tx);
    }
  }

  // ----- what a commit writes

  /** A finished loop writes what the atomic loop makes of the rows it has selected. */
  lemma LoopWrites(w: World, tx: Tx)
    requires TxOk(w.inv, tx) && tx.phase.Looping? && Ready(tx)
    ensures Written(w, tx) == Some(w.(inv :=
              I.ResolveRows(w.inv.(processed := w.inv.processed + {tx.event.id}), tx.phase.hs, To(tx.event))))
  {
    var p := tx.phase;
    assert p.hs[..p.k] == p.hs;
    LoopAndMark(w.inv, w.inv.processed + {tx.event.id}, p.hs, To(tx.event));
  }

  lemma LoopCommit(w: World, tx: Tx, initial: map<string, int>)
    requires TxOk(w.inv, tx) && tx.phase.Looping? && Ready(tx) && Stock.Conserved(w.inv, initial)
    ensures Written(w, tx).Some? && Stock.Conserved(Written(w, tx).value.inv, initial)
    ensures Frame(w.inv, Written(w, tx).value.inv, Locks(tx))
  {
    hide Stock.Conserved, Written, Selected, I.ResolveRow, Locks;
    var (db, p, to) := (w.inv, tx.phase, To(tx.event));
    var marked := db.(processed := db.processed + {tx.event.id});
    LoopWrites(w, tx);
    Stock.ConservedFrame(db, marked, initial);
    Stock.ResolveRowsConserves(marked, p.hs, to, initial);
    assert p.hs[..p.k] == p.hs;
    LoopIsLocal(marked, p.hs, to, p.stocks.Keys);
    R.LoopKeepsOrders(marked, p.hs, to);
    R.LoopKeys(tx);
  }

  /** A reservation, or its refusal, is written as the atomic handler would. */
  lemma StockCommit(w: World, tx: Tx, initial: map<string, int>)
    requires TxOk(w.inv, tx) && tx.phase.StockRead? && Stock.Conserved(w.inv, initial)
    ensures Written(w, tx) == Some(w.(inv := I.Handle(w.inv, tx.event, tx.choice.rowId, tx.choice.eventId).0))
    ensures Stock.Conserved(Written(w, tx).value.inv, initial)
    ensures Frame(w.inv, Written(w, tx).value.inv, Locks(tx))
  {
    hide Stock.Conserved;
    Stock.HandleConserves(w.inv, tx.event, tx.choice.rowId, tx.choice.eventId, initial);
    assert MarkKey(tx.to, tx.event.id) in Locks(tx);
    assert tx.phase.stock.Some? ==> StockKey(tx.event.productId) in Locks(tx);
  }

  lemma OtherCommit(w: World, tx: Tx)
    requires TxOk(w.inv, tx) && Ready(tx) && !tx.phase.Looping? && !tx.phase.StockRead?
    ensures Written(w, tx).Some? ==> Written(w, tx).value.inv == w.inv
  {
    hide LoopOk;
  }

  lemma CommitOk(w: World, tx: Tx, initial: map<string, int>)
    requires TxOk(w.inv, tx) && Ready(tx) && Stock.Conserved(w.inv, initial)
    ensures
      var db2 := if Written(w, tx).Some? then Written(w, tx).value.inv else w.inv;
      Stock.Conserved(db2, initial) && Frame(w.inv, db2, Locks(tx))
  {
    hide Stock.Conserved, Written, TxOk, Locks;
    if tx.phase.Looping? {
      LoopCommit(w, tx, initial);
    } else if tx.phase.StockRead? {
      StockCommit(w, tx, initial);
    } else {
      OtherCommit(w, tx);
    }
  }

  // ----- every step

  /** The transactions other than `id` survive a commit to rows that `id` had locked. */
  lemma OthersStable(s: Sys, db2: I.InventoryDb, txs: map<nat, Tx>, keys: set<Key>)
    requires (forall x :: x in s.txs ==> TxOk(s.w.inv, s.txs[x])) && Frame(s.w.inv, db2, keys)
    requires forall x :: x in txs ==> x in s.txs && txs[x] == s.txs[x] && Locks(txs[x]) !! keys
    ensures forall x :: x in txs ==> TxOk(db2, txs[x])
  {
    hide TxOk, Frame, Locks;
    forall x | x in txs ensures TxOk(db2, txs[x]) {
      TxStable(s.w.inv, db2, txs[x], keys);
    }
  }

  /** A transaction moves to a phase whose locks it was granted. */
  lemma Granted(s: Sys, id: nat, tx: Tx, initial: map<string, int>)
    requires StreamInv(s, initial) && TxOk(s.w.inv, tx) && Free(s, id, Locks(tx))
    ensures StreamInv(s.(txs := s.txs[id := tx]), initial)
  {
    hide TxOk, Locks, Stock.Conserved;
  }

  lemma ReadOk(w: World, tx: Tx)
    requires TxOk(w.inv, tx) && tx.phase.Marked?
    ensures TxOk(w.inv, tx.(phase := FirstRead(w, tx)))
  {
    hide LoopOk;
    if tx.to == InventoryService && !tx.event.OrderCreated? {
      LoopStarts(w, tx);
      var rs := w.inv.reservations;
      assert rs[..|rs|] == rs;
      assert SelectedAt(rs, tx.event.orderId, I.RowsOf(rs, tx.event.orderId), |rs|);
    }
  }

  lemma TurnTxOk(w: World, tx: Tx)
    requires TxOk(w.inv, tx) && tx.phase.Looping? && tx.phase.k < |tx.phase.hs| == |tx.phase.seen|
    ensures TxOk(w.inv, tx.(phase := LoopTurn(w, tx)))
  {
    hide LoopOk, Selected;
    TurnOk(w, tx);
  }

  lemma CommitKeepsInv(s: Sys, id: nat, initial: map<string, int>)
    requires StreamInv(s, initial) && Interleaving.Enabled(s, Commit(id))
    ensures StreamInv(Interleaving.Apply(s, Commit(id)), initial)
  {
    hide TxOk, Written, Frame, Locks, Stock.Conserved, FreshId;
    var tx := s.txs[id];
    var s2 := Interleaving.Apply(s, Commit(id));
    CommitOk(s.w, tx, initial);
    OthersStable(s, s2.w.inv, s2.txs, Locks(tx));
  }

  lemma OtherKeepsInv(s: Sys, a: Action, initial: map<string, int>)
    requires StreamInv(s, initial) && Interleaving.Enabled(s, Other(a))
    ensures StreamInv(Interleaving.Apply(s, Other(a)), initial)
  {
    hide TxOk, Locks, Stock.Conserved, FreshId;
    var s2 := Interleaving.Apply(s, Other(a));
    Stock.ConservedFrame(s.w.inv, s2.w.inv, initial);
    OthersStable(s, s2.w.inv, s2.txs, {});
  }

  lemma StepKeepsInv(s: Sys, step: Step, initial: map<string, int>)
    requires StreamInv(s, initial) && Interleaving.Enabled(s, step)
    ensures StreamInv(Interleaving.Apply(s, step), initial)
  {
    hide FreshId, Written, Frame, Stock.Conserved, LoopOk, Selected;
    match step
    case Begin(id, to, e, c) => Granted(s, id, Tx(to, e, c, Begun), initial);
    case Mark(id) =>
      if s.txs[id].event.id !in SagaSteps.Processed(s.w, s.txs[id].to) {
        Granted(s, id, s.txs[id].(phase := Marked), initial);
      }
    case Read(id) =>
      ReadOk(s.w, s.txs[id]);
      Granted(s, id, s.txs[id].(phase := FirstRead(s.w, s.txs[id])), initial);
    case Turn(id) =>
      TurnTxOk(s.w, s.txs[id]);
      Granted(s, id, s.txs[id].(phase := LoopTurn(s.w, s.txs[id])), initial);
    case Commit(id) => CommitKeepsInv(s, id, initial);
    case Rollback(id) =>
    case Other(a) => OtherKeepsInv(s, a, initial);
  }

  lemma {:induction false} RunKeepsInv(s: Sys, steps: seq<Step>, initial: map<string, int>)
    requires StreamInv(s, initial) && R.Executes(s, steps)
    ensures StreamInv(R.After(s, steps), initial)
    decreases |steps|
  {
    hide StreamInv, Interleaving.Enabled, Interleaving.Apply;
    if steps != [] {
      StepKeepsInv(s, steps[0], initial);
      RunKeepsInv(Interleaving.Apply(s, steps[0]), steps[1..], initial);
    }
  }

  // ----- the theorems

  /** No reserve, release or commit is lost: whatever has been published, any interleaving of
      handler transactions on a balanced database keeps the stock in balance. */
  lemma InterleavedConserves(s0: Sys, steps: seq<Step>, initial: map<string, int>)
    requires Stock.Conserved(s0.w.inv, initial) && s0.txs == map[] && R.Executes(s0, steps)
    ensures Stock.Conserved(R.After(s0, steps).w.inv, initial)
  {
    RunKeepsInv(s0, steps, initial);
  }

  /** A finished loop over the rows that the order had when the table had `m` of them commits
      the atomic handler's result exactly when no phantom has joined since. */
  lemma WrittenIffNoPhantom(w: World, tx: Tx, m: nat, initial: map<string, int>)
    requires Stock.Conserved(w.inv, initial) && TxOk(w.inv, tx) && tx.phase.Looping? && Ready(tx) && tx.choice.commits
    requires SelectedAt(w.inv.reservations, tx.event.orderId, tx.phase.hs, m)
    ensures Written(w, tx) == Some(HandleAt(w, tx.to, tx.event, tx.choice).0) <==>
            !Ph.HasPhantom(w.inv.reservations, m, tx.event.orderId)
  {
    hide LoopOk, Stock.Conserved, I.ResolveRows, I.RowsOf, Ph.HasPhantom, Written;
    LoopWrites(w, tx);
    Ph.AtomicIffNoPhantom(w.inv, m, tx.event, initial);
  }

  /** In every run, for every closing transaction that is about to commit: it selected its rows
      while the table had some `m` of its rows, and its commit is the atomic handler's exactly
      when no reservation of the order that is RESERVED has joined after those. */
  lemma CommitAtomicIffNoPhantom(s0: Sys, steps: seq<Step>, id: nat, initial: map<string, int>) returns (m: nat)
    requires Stock.Conserved(s0.w.inv, initial) && s0.txs == map[] && R.Executes(s0, steps)
    requires
      var s := R.After(s0, steps);
      Interleaving.Enabled(s, Commit(id)) && s.txs[id].phase.Looping?
    ensures
      var s := R.After(s0, steps);
      var (tx, rs) := (s.txs[id], s.w.inv.reservations);
      && m <= |rs| && tx.phase.hs == I.RowsOf(rs[..m], tx.event.orderId)
      && (Interleaving.Apply(s, Commit(id)).w == HandleAt(s.w, tx.to, tx.event, tx.choice).0 <==>
            !Ph.HasPhantom(rs, m, tx.event.orderId))
  {
    hide Stock.Conserved, LoopOk, FreshId, Written, HandleAt, R.Executes, R.After, Ph.HasPhantom, I.RowsOf;
    RunKeepsInv(s0, steps, initial);
    var s := R.After(s0, steps);
    var tx := s.txs[id];
    m :| SelectedAt(s.w.inv.reservations, tx.event.orderId, tx.phase.hs, m);
    LoopWritten(s.w, tx);
    WrittenIffNoPhantom(s.w, tx, m, initial);
  }

  lemma LoopWritten(w: World, tx: Tx)
    requires tx.phase.Looping? && Routes(tx.to, tx.event)
    ensures Written(w, tx).Some?
  {
  }
}
