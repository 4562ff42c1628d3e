/** The release and commit loops run on the transaction's own row versions, while other
    transactions commit to rows that it has not locked. */
module InterleavingLoops {
  import opened SagaTypes
  import opened Interleaving
  import opened Saga
  import I = InventoryModel
  import Stock = StockConservation

  ghost predicate InTable(db: I.InventoryDb, hs: seq<nat>) {
    forall j :: 0 <= j < |hs| ==> hs[j] < |db.reservations|
  }

  /** Every stock row that the loop over `hs` may touch is among `locked`. */
  ghost predicate Covered(db: I.InventoryDb, hs: seq<nat>, locked: set<string>)
    requires InTable(db, hs)
  {
    forall j :: 0 <= j < |hs| ==>
      var r := db.reservations[hs[j]];
      r.status == I.Reserved && r.productId in db.inventory ==> r.productId in locked
  }

  /** `db2` may differ from `db` only in rows that are not locked, and by newer rows. */
  ghost predicate Agrees(db: I.InventoryDb, db2: I.InventoryDb, hs: seq<nat>, locked: set<string>)
    requires InTable(db, hs)
  {
    && |db.reservations| <= |db2.reservations|
    && (forall j :: 0 <= j < |hs| ==> db2.reservations[hs[j]] == db.reservations[hs[j]])
    && db2.inventory.Keys == db.inventory.Keys
    && (forall p :: p in locked && p in db.inventory ==> db2.inventory[p] == db.inventory[p])
  }

  /** Outside the rows `hs` and the locked stock rows the loop changes nothing. */
  ghost predicate Local(db: I.InventoryDb, after: I.InventoryDb, hs: seq<nat>, locked: set<string>) {
    && after.outbox == db.outbox && after.processed == db.processed
    && |after.reservations| == |db.reservations| && after.inventory.Keys == db.inventory.Keys
    && (forall p :: p in db.inventory && p !in locked ==> after.inventory[p] == db.inventory[p])
    && (forall h: nat :: h < |db.reservations| && h !in hs ==> after.reservations[h] == db.reservations[h])
    && (forall h: nat :: h < |db.reservations| ==>
          || after.reservations[h] == db.reservations[h]
          || (db.reservations[h].status == I.Reserved && after.reservations[h].status != I.Reserved
              && after.reservations[h].productId == db.reservations[h].productId))
  }

  lemma {:induction false} LoopIsLocal(db: I.InventoryDb, hs: seq<nat>, to: I.ReservationStatus, locked: set<string>)
    requires InTable(db, hs) && Covered(db, hs, locked) && to != I.Reserved
    ensures Local(db, I.ResolveRows(db, hs, to), hs, locked)
  {
    if hs != [] {
      var n := |hs| - 1;
      var front := hs[..n];
      assert hs[n] in hs && forall h :: h in front ==> h in hs;
      LoopIsLocal(db, front, to, locked);
      var mid := I.ResolveRows(db, front, to);
      assert Local(db, I.ResolveRow(mid, hs[n], to), hs, locked);
    }
  }

  /** The results on the two databases agree on everything the loop owns. */
  ghost predicate SameResult(after: I.InventoryDb, after2: I.InventoryDb, hs: seq<nat>, locked: set<string>) {
    && after2.inventory.Keys == after.inventory.Keys && |after.reservations| <= |after2.reservations|
    && (forall p :: p in locked && p in after.inventory ==> after2.inventory[p] == after.inventory[p])
    && (forall j :: 0 <= j < |hs| ==>
          hs[j] < |after.reservations| && after2.reservations[hs[j]] == after.reservations[hs[j]])
  }

  lemma RowFrame(mid: I.InventoryDb, mid2: I.InventoryDb, j: nat, to: I.ReservationStatus,
                 hs: seq<nat>, locked: set<string>)
    requires SameResult(mid, mid2, hs, locked) && j < |hs|
    requires mid.reservations[hs[j]].status == I.Reserved && mid.reservations[hs[j]].productId in mid.inventory ==>
               mid.reservations[hs[j]].productId in locked
    ensures SameResult(I.ResolveRow(mid, hs[j], to), I.ResolveRow(mid2, hs[j], to), hs, locked)
  {
  }

  lemma {:induction false} LoopFrame(db: I.InventoryDb, db2: I.InventoryDb, hs: seq<nat>, all: seq<nat>,
                                     to: I.ReservationStatus, locked: set<string>)
    requires InTable(db, all) && hs <= all && Covered(db, hs, locked) && Agrees(db, db2, all, locked)
    requires to != I.Reserved
    ensures SameResult(I.ResolveRows(db, hs, to), I.ResolveRows(db2, hs, to), all, locked)
  {
    if hs != [] {
      var n := |hs| - 1;
      var front := hs[..n];
      assert hs[n] == all[n];
      LoopFrame(db, db2, front, all, to, locked);
      LoopIsLocal(db, front, to, locked);
      var mid := I.ResolveRows(db, front, to);
      RowFrame(mid, I.ResolveRows(db2, front, to), n, to, all, locked);
    }
  }

  /** The transaction's row versions are what the atomic loop would have made of the committed
      database so far. */
  ghost predicate LoopOk(db: I.InventoryDb, e: Event, p: Phase)
    requires p.Looping?
  {
    && InTable(db, p.hs) && p.k <= |p.hs| == |p.seen|
    && (forall i, j :: 0 <= i < j < |p.hs| ==> p.hs[i] < p.hs[j])
    && (forall j :: 0 <= j < |p.hs| ==> p.seen[j] == db.reservations[p.hs[j]])
    && Covered(db, p.hs[..p.k], p.stocks.Keys)
    && p.stocks.Keys <= db.inventory.Keys
    && (forall h :: h in p.resolved ==> h in p.hs[..p.k])
    && Overlay(db, p.stocks, p.resolved) == I.ResolveRows(db, p.hs[..p.k], To(e))
  }

  lemma LoopStarts(w: World, tx: Tx)
    requires tx.to == InventoryService && (tx.event.OrderCancelled? || tx.event.OrderCompleted?)
    ensures FirstRead(w, tx).Looping? && LoopOk(w.inv, tx.event, FirstRead(w, tx))
  {
    var p := FirstRead(w, tx);
    assert p.hs[..0] == [];
    assert Overlay(w.inv, map[], map[]) == w.inv;
  }

  lemma OverlayUpdate(db: I.InventoryDb, stocks: map<string, I.InventoryRow>, resolved: map<nat, I.ReservationRow>,
                      product: string, row: I.InventoryRow, h: nat, r: I.ReservationRow)
    requires product in db.inventory && h < |db.reservations|
    ensures
      var mid := Overlay(db, stocks, resolved);
      && Overlay(db, stocks[product := row], resolved[h := r]) ==
         mid.(inventory := mid.inventory[product := row], reservations := mid.reservations[h := r])
      && (mid.inventory[product] == row ==> Overlay(db, stocks[product := row], resolved) == mid)
  {
    var mid := Overlay(db, stocks, resolved);
    assert Overlay(db, stocks[product := row], resolved[h := r]).reservations == mid.reservations[h := r];
    assert Overlay(db, stocks[product := row], resolved[h := r]).inventory == mid.inventory[product := row];
    if mid.inventory[product] == row {
      assert Overlay(db, stocks[product := row], resolved).inventory == mid.inventory;
    }
  }

  lemma TurnOverlay(w: World, tx: Tx)
    requires tx.phase.Looping? && tx.phase.k < |tx.phase.hs| == |tx.phase.seen|
    requires tx.phase.hs[tx.phase.k] < |w.inv.reservations|
    requires
      var p := tx.phase;
      var mid := Overlay(w.inv, p.stocks, p.resolved);
      p.stocks.Keys <= w.inv.inventory.Keys && mid.reservations[p.hs[p.k]] == p.seen[p.k]
    ensures
      var p, p' := tx.phase, LoopTurn(w, tx);
      && p'.Looping?
      && Overlay(w.inv, p'.stocks, p'.resolved) ==
         I.ResolveRow(Overlay(w.inv, p.stocks, p.resolved), p.hs[p.k], To(tx.event))
      && p'.hs == p.hs && p'.seen == p.seen && p'.k == p.k + 1
      && p'.stocks.Keys == p.stocks.Keys + (if TurnProduct(w, p).Some? then {TurnProduct(w, p).value} else {})
      && p'.stocks.Keys <= w.inv.inventory.Keys
      && p'.resolved.Keys <= p.resolved.Keys + {p.hs[p.k]}
  {
    hide Overlay;
    var p := tx.phase;
    var mid := Overlay(w.inv, p.stocks, p.resolved);
    var p' := LoopTurn(w, tx);
    OverlayInventory(w.inv, p.stocks, p.resolved);
    if TurnProduct(w, p).Some? {
      var product := TurnProduct(w, p).value;
      OverlayUpdate(w.inv, p.stocks, p.resolved, product, p'.stocks[product], p.hs[p.k],
                    p.seen[p.k].(status := To(tx.event)));
    }
  }

  lemma OverlayInventory(db: I.InventoryDb, stocks: map<string, I.InventoryRow>, resolved: map<nat, I.ReservationRow>)
    ensures Overlay(db, stocks, resolved).inventory == db.inventory + stocks
    ensures |Overlay(db, stocks, resolved).reservations| == |db.reservations|
  {
  }

  /** Locking the turn's stock row keeps the rows covered. */
  lemma TurnCovered(w: World, tx: Tx, locked: set<string>)
    requires tx.phase.Looping? && tx.phase.k < |tx.phase.hs| == |tx.phase.seen|
    requires
      var p := tx.phase;
      && InTable(w.inv, p.hs) && Covered(w.inv, p.hs[..p.k], p.stocks.Keys)
      && p.seen[p.k] == w.inv.reservations[p.hs[p.k]]
      && locked == p.stocks.Keys + (if TurnProduct(w, p).Some? then {TurnProduct(w, p).value} else {})
    ensures Covered(w.inv, tx.phase.hs[..tx.phase.k + 1], locked)
  {
    var p := tx.phase;
    var front, more := p.hs[..p.k], p.hs[..p.k + 1];
    forall j | 0 <= j < |more|
      ensures
        var r := w.inv.reservations[more[j]];
        r.status == I.Reserved && r.productId in w.inv.inventory ==> r.productId in locked
    {
      if j < p.k {
        assert more[j] == front[j];
      }
    }
  }

  lemma CurrentRow(db: I.InventoryDb, e: Event, p: Phase)
    requires p.Looping? && p.k < |p.hs| && LoopOk(db, e, p)
    ensures InTable(db, p.hs[..p.k])
    ensures
      var mid := I.ResolveRows(db, p.hs[..p.k], To(e));
      p.hs[p.k] < |mid.reservations| && mid.reservations[p.hs[p.k]] == p.seen[p.k] == db.reservations[p.hs[p.k]]
  {
    hide Overlay;
    LoopIsLocal(db, p.hs[..p.k], To(e), p.stocks.Keys);
  }

  lemma ResolveOneMore(db: I.InventoryDb, hs: seq<nat>, k: nat, to: I.ReservationStatus)
    requires k < |hs|
    ensures I.ResolveRows(db, hs[..k + 1], to) == I.ResolveRow(I.ResolveRows(db, hs[..k], to), hs[k], to)
  {
    assert hs[..k + 1][..k] == hs[..k];
  }

  /** A turn on the transaction's versions is the atomic loop's turn. */
  lemma TurnOk(w: World, tx: Tx)
    requires tx.phase.Looping? && tx.phase.k < |tx.phase.hs| && LoopOk(w.inv, tx.event, tx.phase)
    ensures LoopOk(w.inv, tx.event, LoopTurn(w, tx))
  {
    hide Overlay, I.ResolveRow, I.ResolveRows, LoopTurn, Covered, TurnProduct;
    var p := tx.phase;
    CurrentRow(w.inv, tx.event, p);
    ResolveOneMore(w.inv, p.hs, p.k, To(tx.event));
    TurnOverlay(w, tx);
    var p' := LoopTurn(w, tx);
    TurnCovered(w, tx, p'.stocks.Keys);
    assert forall h :: h in p'.resolved ==> h in p.resolved || h == p.hs[p.k];
    assert forall h :: h in p.hs[..p.k] || h == p.hs[p.k] ==> h in p.hs[..p.k + 1] by {
      assert p.hs[..p.k + 1] == p.hs[..p.k] + [p.hs[p.k]];
    }
  }

  /** If both loops agree on what the transaction owns, its overlay fits the other database too. */
  lemma OverlayFits(db: I.InventoryDb, db2: I.InventoryDb, front: seq<nat>, hs: seq<nat>, p: Phase,
                    after: I.InventoryDb, after2: I.InventoryDb)
    requires p.Looping? && InTable(db, hs) && front <= hs && p.stocks.Keys <= db.inventory.Keys
    requires Overlay(db, p.stocks, p.resolved) == after && Agrees(db, db2, hs, p.stocks.Keys)
    requires forall h :: h in p.resolved ==> h in front
    requires SameResult(after, after2, hs, p.stocks.Keys) && Local(db2, after2, front, p.stocks.Keys)
    ensures Overlay(db2, p.stocks, p.resolved) == after2
  {
    var over := Overlay(db2, p.stocks, p.resolved);
    assert over.inventory == after2.inventory by {
      hide Local;
      assert after.inventory == db.inventory + p.stocks;
      LocalStock(db2, after2, front, p.stocks.Keys);
    }
    forall h: nat | h < |db2.reservations| ensures over.reservations[h] == after2.reservations[h] {
      if h in front {
        var j :| 0 <= j < |front| && front[j] == h;
        assert hs[j] == h;
        assert after.reservations[h] == if h in p.resolved then p.resolved[h] else db.reservations[h];
      }
    }
    assert over.reservations == after2.reservations;
  }

  lemma LocalStock(db: I.InventoryDb, after: I.InventoryDb, hs: seq<nat>, locked: set<string>)
    requires Local(db, after, hs, locked)
    ensures after.inventory.Keys == db.inventory.Keys
    ensures forall p :: p in db.inventory && p !in locked ==> after.inventory[p] == db.inventory[p]
  {
  }

  /** Commits to other rows leave the loop's versions right. */
  lemma LoopStable(db: I.InventoryDb, db2: I.InventoryDb, e: Event, p: Phase)
    requires p.Looping? && LoopOk(db, e, p) && Agrees(db, db2, p.hs, p.stocks.Keys)
    ensures LoopOk(db2, e, p)
  {
    hide Overlay, I.ResolveRows, Local, SameResult;
    var front := p.hs[..p.k];
    LoopFrame(db, db2, front, p.hs, To(e), p.stocks.Keys);
    assert InTable(db2, front) && Covered(db2, front, p.stocks.Keys) by {
      assert forall j :: 0 <= j < |front| ==> front[j] == p.hs[j];
    }
    LoopIsLocal(db2, front, To(e), p.stocks.Keys);
    OverlayFits(db, db2, front, p.hs, p, I.ResolveRows(db, front, To(e)), I.ResolveRows(db2, front, To(e)));
  }

  /** The loop does not look at the marks. */
  lemma {:induction false} LoopAndMark(db: I.InventoryDb, marks: set<Id>, hs: seq<nat>, to: I.ReservationStatus)
    ensures I.ResolveRows(db.(processed := marks), hs, to) == I.ResolveRows(db, hs, to).(processed := marks)
  {
    if hs != [] {
      LoopAndMark(db, marks, hs[..|hs| - 1], to);
    }
  }
}
