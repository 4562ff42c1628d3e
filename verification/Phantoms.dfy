/** Where the inventory row locks stop helping. SELECT ... FOR UPDATE locks the reservations that
    exist; one that another transaction inserts for the same order before the closing handler
    commits is missed. No saga run can do this, an arbitrary event stream can. */
module Phantoms {
  import opened SagaTypes
  import opened InventoryModel
  import Stock = StockConservation
  import N = Interleaving
  import R = InterleavingRefinement
  import Saga
  import O = OrderModel
  import P = PaymentModel

  /** A reservation of the order that joined the table after its first `m` rows and is RESERVED. */
  ghost predicate HasPhantom(rs: seq<ReservationRow>, m: nat, o: Id) {
    exists h: nat :: m <= h < |rs| && rs[h].orderId == o && rs[h].status == Reserved
  }

  lemma RowsOfStep(rs: seq<ReservationRow>, n: nat, o: Id)
    requires n < |rs|
    ensures RowsOf(rs[..n + 1], o) == RowsOf(rs[..n], o) + if rs[n].orderId == o then [n] else []
  {
    assert rs[..n + 1][..n] == rs[..n];
  }

  /** A row that is not RESERVED is passed over. */
  lemma QuietRow(db: InventoryDb, front: seq<nat>, h: nat, to: ReservationStatus)
    requires h < |db.reservations| && h !in front && db.reservations[h].status != Reserved
    ensures ResolveRows(db, front + [h], to) == ResolveRows(db, front, to)
  {
    assert (front + [h])[..|front|] == front;
    UntouchedRow(db, front, to, h);
  }

  lemma {:induction false} QuietRows(db: InventoryDb, m: nat, n: nat, o: Id, to: ReservationStatus)
    requires m <= n <= |db.reservations| && to != Reserved
    requires !HasPhantom(db.reservations, m, o)
    ensures ResolveRows(db, RowsOf(db.reservations[..n], o), to) == ResolveRows(db, RowsOf(db.reservations[..m], o), to)
    decreases n
  {
    hide ResolveRows;
    if m < n {
      QuietRows(db, m, n - 1, o, to);
      RowsOfStep(db.reservations, n - 1, o);
      if db.reservations[n - 1].orderId == o {
        QuietRow(db, RowsOf(db.reservations[..n - 1], o), n - 1, to);
      } else {
        assert RowsOf(db.reservations[..n], o) == RowsOf(db.reservations[..n - 1], o);
      }
    }
  }

  lemma {:induction false} UntouchedRow(db: InventoryDb, hs: seq<nat>, to: ReservationStatus, h: nat)
    requires h < |db.reservations| && h !in hs
    ensures
      var after := ResolveRows(db, hs, to);
      |after.reservations| == |db.reservations| && after.reservations[h] == db.reservations[h]
  {
    if hs != [] {
      var n := |hs| - 1;
      assert hs[n] in hs && forall x :: x in hs[..n] ==> x in hs;
      UntouchedRow(db, hs[..n], to, h);
    }
  }

  /** Exactly when a closing handler that selected its rows while the table had `m` of them
      commits what the atomic handler would: when no phantom has joined since. */
  lemma AtomicIffNoPhantom(db: InventoryDb, m: nat, e: Event, initial: map<string, int>)
    requires Stock.Conserved(db, initial) && m <= |db.reservations|
    requires (e.OrderCancelled? || e.OrderCompleted?) && e.id !in db.processed
    ensures
      var to := if e.OrderCompleted? then Committed else Released;
      var written := ResolveRows(db.(processed := db.processed + {e.id}), RowsOf(db.reservations[..m], e.orderId), to);
      written == OnOrderClosed(db, e).0 <==> !HasPhantom(db.reservations, m, e.orderId)
  {
    var to := if e.OrderCompleted? then Committed else Released;
    var marked := db.(processed := db.processed + {e.id});
    var rs := db.reservations;
    assert rs[..|rs|] == rs;
    if HasPhantom(rs, m, e.orderId) {
      var h: nat :| m <= h < |rs| && rs[h].orderId == e.orderId && rs[h].status == Reserved;
      UntouchedRow(marked, RowsOf(rs[..m], e.orderId), to, h);
      Stock.ClosingIsExact(db, e, initial);
      assert OnOrderClosed(db, e).0.reservations[h].status == to;
    } else {
      QuietRows(marked, m, |rs|, e.orderId, to);
    }
  }

  // ----- a stream that loses a compensation

  const CREATED := OrderCreated(1, 7, "c", "p", 2, 1.0)
  const CANCELLED := OrderCancelled(2, 7, "")

  const CHOICE := Choice(3, 4, false, true)
  const OTHER_CHOICE := Choice(5, 6, false, true)

  function At(inv: InventoryDb, txs: map<nat, N.Tx>): N.Sys {
    N.Sys(Saga.World(O.OrderDb(map[], [], {}), inv, P.PaymentDb([], [], {}), {CREATED, CANCELLED}), txs)
  }

  function Cancelling(p: N.Phase): N.Tx {
    N.Tx(InventoryService, CANCELLED, OTHER_CHOICE, p)
  }

  function Creating(p: N.Phase): N.Tx {
    N.Tx(InventoryService, CREATED, CHOICE, p)
  }

  const SELECTED := Cancelling(N.Looping([], [], 0, map[], map[]))

  const STOCKED := InventoryDb(map["p" := InventoryRow(5, 0)], [], [], {})

  const RESERVED := InventoryDb(
    map["p" := InventoryRow(5, 2)], [ReservationRow(4, 7, "p", 2, Reserved)],
    [NewRow(StockReserved(3, 7, "p", 2, 4, "c", 1.0))], {1})

  lemma Then(s: N.Sys, step: N.Step, s': N.Sys, rest: seq<N.Step>)
    requires N.Enabled(s, step) && N.Apply(s, step) == s' && R.Executes(s', rest)
    ensures R.Executes(s, [step] + rest) && R.After(s, [step] + rest) == R.After(s', rest)
  {
    hide N.Enabled, N.Apply;
    assert ([step] + rest)[1..] == rest;
  }

  lemma CancelSelects(rest: seq<N.Step>) returns (steps: seq<N.Step>)
    requires R.Executes(At(STOCKED, map[0 := SELECTED]), rest)
    ensures R.Executes(At(STOCKED, map[]), steps)
    ensures R.After(At(STOCKED, map[]), steps) == R.After(At(STOCKED, map[0 := SELECTED]), rest)
  {
    hide R.Executes, R.After;
    steps := [N.Read(0)] + rest;
    Then(At(STOCKED, map[0 := Cancelling(N.Marked)]), N.Read(0), At(STOCKED, map[0 := SELECTED]), rest);
    Then(At(STOCKED, map[0 := Cancelling(N.Begun)]), N.Mark(0), At(STOCKED, map[0 := Cancelling(N.Marked)]), steps);
    steps := [N.Mark(0)] + steps;
    Then(At(STOCKED, map[]), N.Begin(0, InventoryService, CANCELLED, OTHER_CHOICE),
         At(STOCKED, map[0 := Cancelling(N.Begun)]), steps);
    steps := [N.Begin(0, InventoryService, CANCELLED, OTHER_CHOICE)] + steps;
  }

  lemma CreateCommits(rest: seq<N.Step>) returns (steps: seq<N.Step>)
    requires R.Executes(At(RESERVED, map[0 := SELECTED]), rest)
    ensures R.Executes(At(STOCKED, map[0 := SELECTED]), steps)
    ensures R.After(At(STOCKED, map[0 := SELECTED]), steps) == R.After(At(RESERVED, map[0 := SELECTED]), rest)
  {
    hide R.Executes, R.After;
    var read := Creating(N.StockRead(Some(InventoryRow(5, 0))));
    var s0 := At(STOCKED, map[0 := SELECTED]);
    var s1 := At(STOCKED, map[0 := SELECTED, 1 := Creating(N.Begun)]);
    var s2 := At(STOCKED, map[0 := SELECTED, 1 := Creating(N.Marked)]);
    var s3 := At(STOCKED, map[0 := SELECTED, 1 := read]);
    CreateWrites(s3);
    Then(s3, N.Commit(1), At(RESERVED, map[0 := SELECTED]), rest);
    steps := [N.Commit(1)] + rest;
    Then(s2, N.Read(1), s3, steps);
    steps := [N.Read(1)] + steps;
    Then(s1, N.Mark(1), s2, steps);
    steps := [N.Mark(1)] + steps;
    Then(s0, N.Begin(1, InventoryService, CREATED, CHOICE), s1, steps);
    steps := [N.Begin(1, InventoryService, CREATED, CHOICE)] + steps;
  }

  lemma CreateWrites(s: N.Sys)
    requires s == At(STOCKED, map[0 := SELECTED, 1 := Creating(N.StockRead(Some(InventoryRow(5, 0))))])
    ensures N.Enabled(s, N.Commit(1)) && N.Apply(s, N.Commit(1)) == At(RESERVED, map[0 := SELECTED])
  {
    assert forall x: Service :: Saga.Rows(s.w, x) == [];
    assert s.txs - {1} == map[0 := SELECTED];
  }

  lemma CancelCommits() returns (steps: seq<N.Step>)
    ensures R.Executes(At(RESERVED, map[0 := SELECTED]), steps)
    ensures R.After(At(RESERVED, map[0 := SELECTED]), steps) == At(RESERVED.(processed := {1, 2}), map[])
  {
    var s := At(RESERVED, map[0 := SELECTED]);
    steps := [N.Commit(0)];
    assert N.Overlay(RESERVED, map[], map[]) == RESERVED;
    assert forall x: Service, i: nat :: i < |Saga.Rows(s.w, x)| ==> Saga.Rows(s.w, x)[i].event.id == 3;
    assert s.txs - {0} == map[];
    assert steps[1..] == [];
  }

  /** OrderCancelled selects its rows, OrderCreated of the same order reserves and commits, then
      OrderCancelled commits. The locks grant every step, yet the reservation stays RESERVED
      although the cancellation is marked as processed and will be skipped from now on. */
  lemma LostCompensation() returns (steps: seq<N.Step>)
    ensures R.Executes(At(STOCKED, map[]), steps)
    ensures
      var inv := R.After(At(STOCKED, map[]), steps).w.inv;
      && |inv.reservations| == 1 && inv.reservations[0].orderId == 7 && inv.reservations[0].status == Reserved
      && inv.inventory == map["p" := InventoryRow(5, 2)]
      && OnOrderClosed(inv, CANCELLED) == (inv, Duplicate)
  {
    hide R.Executes, R.After;
    steps := CancelCommits();
    steps := CreateCommits(steps);
    steps := CancelSelects(steps);
  }
}
