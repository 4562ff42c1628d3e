/** What no event stream can break in the inventory database: reserved and removed units are
    exactly those of the RESERVED and COMMITTED reservations, and compensation is exact. */
module StockConservation {
  import opened SagaTypes
  import opened InventoryModel

  function Part(r: ReservationRow, p: string, st: ReservationStatus): int {
    if r.productId == p && r.status == st then r.quantity else 0
  }

  /** Units of product `p` held by reservations of status `st`. */
  function Units(rs: seq<ReservationRow>, p: string, st: ReservationStatus): int {
    if rs == [] then 0
    else Units(rs[..|rs| - 1], p, st) + Part(rs[|rs| - 1], p, st)
  }

  ghost predicate InTable(rs: seq<ReservationRow>, hs: seq<nat>) {
    forall i :: 0 <= i < |hs| ==> hs[i] < |rs|
  }

  /** Units of product `p` that the rows `hs` still hold as RESERVED. */
  function Owed(rs: seq<ReservationRow>, hs: seq<nat>, p: string): int
    requires InTable(rs, hs)
  {
    if hs == [] then 0
    else
      var n := |hs| - 1;
      Owed(rs, hs[..n], p) + Part(rs[hs[n]], p, Reserved)
  }

  /** The stock table against the reservation table; `initial` is the opening stock. */
  ghost predicate Conserved(db: InventoryDb, initial: map<string, int>) {
    && db.inventory.Keys == initial.Keys
    && (forall i :: 0 <= i < |db.reservations| ==>
          db.reservations[i].quantity > 0 && db.reservations[i].productId in db.inventory)
    && (forall p :: p in db.inventory ==> Balanced(db, initial, p))
  }

  ghost predicate Balanced(db: InventoryDb, initial: map<string, int>, p: string)
    requires p in db.inventory && p in initial
  {
    var row := db.inventory[p];
    && row.reserved == Units(db.reservations, p, Reserved)
    && row.quantity + Units(db.reservations, p, Committed) == initial[p]
    && 0 <= row.reserved <= row.quantity
  }

  /** A database as deployed: stock, no reservations. */
  ghost predicate Fresh(db: InventoryDb, initial: map<string, int>) {
    && db.inventory.Keys == initial.Keys
    && (forall p :: p in initial ==> initial[p] >= 0 && db.inventory[p] == InventoryRow(initial[p], 0))
    && db.reservations == [] && db.outbox == [] && db.processed == {}
  }

  /** Units of product `p` that the order still holds as RESERVED. */
  function OwedBy(rs: seq<ReservationRow>, orderId: Id, p: string): int {
    RowsInTable(rs, orderId);
    Owed(rs, RowsOf(rs, orderId), p)
  }

  lemma RowsInTable(rs: seq<ReservationRow>, orderId: Id)
    ensures InTable(rs, RowsOf(rs, orderId))
  {
    var hs := RowsOf(rs, orderId);
    assert forall i :: 0 <= i < |hs| ==> hs[i] in hs;
  }

  // ----- sums

  lemma {:induction false} UnitsUpdate(rs: seq<ReservationRow>, i: nat, r: ReservationRow,
                                       p: string, st: ReservationStatus)
    requires i < |rs|
    ensures Units(rs[i := r], p, st) == Units(rs, p, st) - Part(rs[i], p, st) + Part(r, p, st)
  {
    var n := |rs| - 1;
    if i == n {
      assert rs[i := r][..n] == rs[..n];
    } else {
      assert rs[i := r][..n] == rs[..n][i := r];
      UnitsUpdate(rs[..n], i, r, p, st);
    }
  }

  lemma UnitsAppend(rs: seq<ReservationRow>, r: ReservationRow, p: string, st: ReservationStatus)
    ensures Units(rs + [r], p, st) == Units(rs, p, st) + Part(r, p, st)
  {
    assert (rs + [r])[..|rs|] == rs;
  }

  /** A reservation's units are among the units of its product and status. */
  lemma {:induction false} UnitsCover(rs: seq<ReservationRow>, i: nat, p: string, st: ReservationStatus)
    requires forall j :: 0 <= j < |rs| ==> rs[j].quantity > 0
    requires i < |rs|
    ensures 0 <= Part(rs[i], p, st) <= Units(rs, p, st)
  {
    var n := |rs| - 1;
    UnitsNonNegative(rs[..n], p, st);
    if i < n {
      UnitsCover(rs[..n], i, p, st);
    }
  }

  lemma {:induction false} UnitsNonNegative(rs: seq<ReservationRow>, p: string, st: ReservationStatus)
    requires forall j :: 0 <= j < |rs| ==> rs[j].quantity > 0
    ensures Units(rs, p, st) >= 0
  {
    if rs != [] {
      UnitsNonNegative(rs[..|rs| - 1], p, st);
    }
  }

  // ----- every handler keeps the balance

  lemma FreshConserved(db: InventoryDb, initial: map<string, int>)
    requires Fresh(db, initial)
    ensures Conserved(db, initial)
  {
  }

  /** In a balanced database a turn of either loop takes no error exit and no clamp. */
  lemma ResolveRowExact(db: InventoryDb, h: nat, to: ReservationStatus, initial: map<string, int>)
    requires Conserved(db, initial) && h < |db.reservations| && to != Reserved
    requires db.reservations[h].status == Reserved
    ensures
      var r := db.reservations[h];
      var row := db.inventory[r.productId];
      && r.quantity <= row.reserved
      && ResolveRow(db, h, to) == db.(
           inventory := db.inventory[r.productId := InventoryRow(
             if to == Committed then row.quantity - r.quantity else row.quantity, row.reserved - r.quantity)],
           reservations := db.reservations[h := r.(status := to)])
  {
    UnitsCover(db.reservations, h, db.reservations[h].productId, Reserved);
  }

  lemma ResolveRowConserves(db: InventoryDb, h: nat, to: ReservationStatus, initial: map<string, int>)
    requires Conserved(db, initial) && to != Reserved
    ensures Conserved(ResolveRow(db, h, to), initial)
  {
    if h < |db.reservations| && db.reservations[h].status == Reserved {
      ResolveRowExact(db, h, to, initial);
      var db' := ResolveRow(db, h, to);
      forall p | p in db'.inventory ensures Balanced(db', initial, p) {
        UnitsUpdate(db.reservations, h, db'.reservations[h], p, Reserved);
        UnitsUpdate(db.reservations, h, db'.reservations[h], p, Committed);
      }
    }
  }

  lemma {:induction false} ResolveRowsConserves(db: InventoryDb, hs: seq<nat>, to: ReservationStatus,
                                                initial: map<string, int>)
    requires Conserved(db, initial) && to != Reserved
    ensures Conserved(ResolveRows(db, hs, to), initial)
  {
    if hs != [] {
      ResolveRowsConserves(db, hs[..|hs| - 1], to, initial);
      ResolveRowConserves(ResolveRows(db, hs[..|hs| - 1], to), hs[|hs| - 1], to, initial);
    }
  }

  lemma ReserveConserves(db: InventoryDb, e: Event, reservationId: Id, eventId: Id, initial: map<string, int>)
    requires Conserved(db, initial) && e.OrderCreated? && e.id !in db.processed
    requires e.productId in db.inventory && Reserve(db.inventory[e.productId], e.quantity).Ok?
    ensures Conserved(OnOrderCreated(db, e, reservationId, eventId).0, initial)
  {
    var db' := OnOrderCreated(db, e, reservationId, eventId).0;
    var r := ReservationRow(reservationId, e.orderId, e.productId, e.quantity, Reserved);
    forall p | p in db'.inventory ensures Balanced(db', initial, p) {
      assert Balanced(db, initial, p);
      UnitsAppend(db.reservations, r, p, Reserved);
      UnitsAppend(db.reservations, r, p, Committed);
    }
  }

  /** The balance is about the stock and reservation tables only. */
  lemma ConservedFrame(db: InventoryDb, db': InventoryDb, initial: map<string, int>)
    requires Conserved(db, initial)
    requires db'.inventory == db.inventory && db'.reservations == db.reservations
    ensures Conserved(db', initial)
  {
    forall p | p in db'.inventory ensures Balanced(db', initial, p) {
      assert Balanced(db, initial, p);
    }
  }

  lemma HandleConserves(db: InventoryDb, e: Event, reservationId: Id, eventId: Id, initial: map<string, int>)
    requires Conserved(db, initial) && Routes(InventoryService, e)
    ensures Conserved(Handle(db, e, reservationId, eventId).0, initial)
  {
    if e.id in db.processed {
    } else if e.OrderCreated? {
      if e.productId in db.inventory && Reserve(db.inventory[e.productId], e.quantity).Ok? {
        ReserveConserves(db, e, reservationId, eventId, initial);
      } else {
        ConservedFrame(db, Handle(db, e, reservationId, eventId).0, initial);
      }
    } else {
      var marked := db.(processed := db.processed + {e.id});
      ConservedFrame(db, marked, initial);
      ResolveRowsConserves(marked, RowsOf(db.reservations, e.orderId),
                           if e.OrderCompleted? then Committed else Released, initial);
    }
  }

  /** The database after a stream of deliveries, first to last. */
  function RunDeliveries(db: InventoryDb, ds: seq<Delivery>): InventoryDb
    requires AllRouted(InventoryService, ds)
  {
    if ds == [] then db
    else
      var n := |ds| - 1;
      var before := RunDeliveries(db, ds[..n]);
      var c := ds[n].choice;
      Settled(before, Handle(before, ds[n].event, c.rowId, c.eventId), c.commits).0
  }

  /** Stock conservation for any stream of events, whether or not a saga could produce it. */
  lemma {:induction false} AnyStreamConserves(db: InventoryDb, ds: seq<Delivery>, initial: map<string, int>)
    requires Fresh(db, initial) && AllRouted(InventoryService, ds)
    ensures Conserved(RunDeliveries(db, ds), initial)
  {
    if ds == [] {
      FreshConserved(db, initial);
    } else {
      var n := |ds| - 1;
      AnyStreamConserves(db, ds[..n], initial);
      var c := ds[n].choice;
      HandleConserves(RunDeliveries(db, ds[..n]), ds[n].event, c.rowId, c.eventId, initial);
    }
  }

  // ----- compensation and completion are exact

  /** The reservation `h` after the loop over `hs`. */
  function ResolvedRow(rs: seq<ReservationRow>, hs: seq<nat>, to: ReservationStatus, h: nat): ReservationRow
    requires h < |rs|
  {
    if h in hs && rs[h].status == Reserved then rs[h].(status := to) else rs[h]
  }

  lemma {:induction false} ResolveRowsLength(db: InventoryDb, hs: seq<nat>, to: ReservationStatus)
    ensures
      var db' := ResolveRows(db, hs, to);
      && |db'.reservations| == |db.reservations| && db'.inventory.Keys == db.inventory.Keys
      && db'.outbox == db.outbox && db'.processed == db.processed
  {
    if hs != [] {
      ResolveRowsLength(db, hs[..|hs| - 1], to);
    }
  }

  lemma {:induction false} ResolveRowsRow(db: InventoryDb, hs: seq<nat>, to: ReservationStatus,
                                          initial: map<string, int>, h: nat)
    requires Conserved(db, initial) && to != Reserved && h < |db.reservations|
    ensures
      var db' := ResolveRows(db, hs, to);
      && |db'.reservations| == |db.reservations|
      && db'.reservations[h] == ResolvedRow(db.reservations, hs, to, h)
  {
    if hs != [] {
      var n := |hs| - 1;
      var front := hs[..n];
      assert h in hs <==> h in front || h == hs[n];
      ResolveRowsRow(db, front, to, initial, h);
      ResolveRowsConserves(db, front, to, initial);
      var mid := ResolveRows(db, front, to);
      if hs[n] < |mid.reservations| && mid.reservations[hs[n]].status == Reserved {
        ResolveRowExact(mid, hs[n], to, initial);
      }
    }
  }

  /** A stock row after `owed` reserved units have been released or committed. */
  function Settle(row: InventoryRow, owed: int, to: ReservationStatus): InventoryRow {
    InventoryRow(if to == Committed then row.quantity - owed else row.quantity, row.reserved - owed)
  }

  lemma ResolveRowStock(db: InventoryDb, h: nat, to: ReservationStatus, initial: map<string, int>, p: string)
    requires Conserved(db, initial) && to != Reserved && h < |db.reservations| && p in db.inventory
    ensures
      var db' := ResolveRow(db, h, to);
      p in db'.inventory && db'.inventory[p] == Settle(db.inventory[p], Part(db.reservations[h], p, Reserved), to)
  {
    if db.reservations[h].status == Reserved {
      ResolveRowExact(db, h, to, initial);
    }
  }

  lemma {:induction false} ResolveRowsStock(db: InventoryDb, hs: seq<nat>, to: ReservationStatus,
                                            initial: map<string, int>, p: string)
    requires Conserved(db, initial) && to != Reserved && InTable(db.reservations, hs)
    requires forall i, j :: 0 <= i < j < |hs| ==> hs[i] < hs[j]
    requires p in db.inventory
    ensures p in ResolveRows(db, hs, to).inventory
    ensures ResolveRows(db, hs, to).inventory[p] == Settle(db.inventory[p], Owed(db.reservations, hs, p), to)
  {
    hide Conserved, ResolveRow;
    if hs != [] {
      var n := |hs| - 1;
      var front := hs[..n];
      ResolveRowsStock(db, front, to, initial, p);
      ResolveRowsConserves(db, front, to, initial);
      ResolveRowsRow(db, front, to, initial, hs[n]);
      assert hs[n] !in front;
      ResolveRowStock(ResolveRows(db, front, to), hs[n], to, initial, p);
    }
  }

  /** One cancel or complete call resolves every RESERVED row of the order, touches no other
      row, and moves each product's stock by exactly the units those rows held. */
  lemma ClosingIsExact(db: InventoryDb, e: Event, initial: map<string, int>)
    requires Conserved(db, initial)
    requires (e.OrderCancelled? || e.OrderCompleted?) && e.id !in db.processed
    ensures
      var (db', report) := OnOrderClosed(db, e);
      && report == Done && db'.outbox == db.outbox && db'.processed == db.processed + {e.id}
      && |db'.reservations| == |db.reservations| && db'.inventory.Keys == db.inventory.Keys
      && (forall h: nat :: h < |db.reservations| ==>
            db'.reservations[h] ==
            if db.reservations[h].orderId == e.orderId && db.reservations[h].status == Reserved
            then db.reservations[h].(status := if e.OrderCompleted? then Committed else Released)
            else db.reservations[h])
      && (forall p :: p in db.inventory ==>
            var owed := OwedBy(db.reservations, e.orderId, p);
            && db'.inventory[p].reserved == db.inventory[p].reserved - owed
            && db'.inventory[p].quantity == db.inventory[p].quantity - if e.OrderCompleted? then owed else 0)
  {
    var marked := db.(processed := db.processed + {e.id});
    var hs := RowsOf(db.reservations, e.orderId);
    var to := if e.OrderCompleted? then Committed else Released;
    var db' := ResolveRows(marked, hs, to);
    ConservedFrame(db, marked, initial);
    ResolveRowsConserves(marked, hs, to, initial);
    ResolveRowsLength(marked, hs, to);
    forall h: nat | h < |db.reservations|
      ensures db'.reservations[h] == ResolvedRow(db.reservations, hs, to, h)
    {
      ResolveRowsRow(marked, hs, to, initial, h);
    }
    RowsInTable(db.reservations, e.orderId);
    forall p | p in db.inventory
      ensures db'.inventory[p].reserved == db.inventory[p].reserved - OwedBy(db.reservations, e.orderId, p)
      ensures db'.inventory[p].quantity ==
              db.inventory[p].quantity - if e.OrderCompleted? then OwedBy(db.reservations, e.orderId, p) else 0
    {
      ResolveRowsStock(marked, hs, to, initial, p);
    }
  }
}
