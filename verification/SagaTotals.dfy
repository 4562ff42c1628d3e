/** Global sums: stock that has left against orders completed, orders completed against money taken. */
module SagaTotals {
  import opened SagaTypes
  import opened Saga
  import opened SagaInvariant
  import opened SagaReachable
  import opened SagaTheorems
  import opened SagaConvergence
  import O = OrderModel
  import I = InventoryModel
  import P = PaymentModel
  import Stock = StockConservation

  // ----- sums over sets of orders

  ghost function Total(s: set<Id>, f: Id -> real): real {
    if s == {} then 0.0
    else
      var x :| x in s;
      f(x) + Total(s - {x}, f)
  }

  lemma {:induction false} TotalRemove(s: set<Id>, f: Id -> real, x: Id)
    requires x in s
    ensures Total(s, f) == f(x) + Total(s - {x}, f)
  {
    var y :| y in s && Total(s, f) == f(y) + Total(s - {y}, f);
    if y != x {
      TotalRemove(s - {y}, f, x);
      TotalRemove(s - {x}, f, y);
      assert s - {y} - {x} == s - {x} - {y};
    }
  }

  lemma {:induction false} TotalAtMost(s: set<Id>, f: Id -> real, g: Id -> real)
    requires forall o :: o in s ==> f(o) <= g(o)
    ensures Total(s, f) <= Total(s, g)
    decreases s
  {
    if s != {} {
      var x :| x in s;
      TotalAtMost(s - {x}, f, g);
      TotalRemove(s, f, x);
      TotalRemove(s, g, x);
    }
  }

  /** Orders outside `s` that contribute nothing do not matter. */
  lemma {:induction false} TotalSupport(s: set<Id>, all: set<Id>, f: Id -> real)
    requires s <= all && forall o :: o in all - s ==> f(o) == 0.0
    ensures Total(s, f) == Total(all, f)
    decreases all - s
  {
    if x :| x in all && x !in s {
      TotalSupport(s + {x}, all, f);
      TotalRemove(s + {x}, f, x);
      assert s + {x} - {x} == s;
    } else {
      assert s == all;
    }
  }

  // ----- table sums as sums over orders

  lemma {:induction false} UnitsTotal(rs: seq<I.ReservationRow>, p: string, st: I.ReservationStatus, f: Id -> real)
    requires forall i, j :: 0 <= i < j < |rs| ==> rs[i].orderId != rs[j].orderId
    requires forall i :: 0 <= i < |rs| ==> f(rs[i].orderId) == Stock.Part(rs[i], p, st) as real
    ensures Stock.Units(rs, p, st) as real == Total(set i | 0 <= i < |rs| :: rs[i].orderId, f)
  {
    if rs != [] {
      var n := |rs| - 1;
      var front := rs[..n];
      UnitsTotal(front, p, st, f);
      var ids := set i | 0 <= i < |rs| :: rs[i].orderId;
      assert rs[n].orderId in ids;
      forall o | o in ids - {rs[n].orderId} ensures o in set i | 0 <= i < n :: front[i].orderId {
        var i :| 0 <= i < |rs| && rs[i].orderId == o;
        assert front[i].orderId == o;
      }
      assert ids - {rs[n].orderId} == set i | 0 <= i < n :: front[i].orderId;
      TotalRemove(ids, f, rs[n].orderId);
    }
  }

  function Taken(p: P.PaymentRow): real {
    if p.status == P.Completed then p.amount else 0.0
  }

  /** The money of the COMPLETED payments. */
  function Revenue(ps: seq<P.PaymentRow>): real {
    if ps == [] then 0.0 else Revenue(ps[..|ps| - 1]) + Taken(ps[|ps| - 1])
  }

  lemma {:induction false} RevenueTotal(ps: seq<P.PaymentRow>, f: Id -> real)
    requires forall i, j :: 0 <= i < j < |ps| ==> ps[i].orderId != ps[j].orderId
    requires forall i :: 0 <= i < |ps| ==> f(ps[i].orderId) == Taken(ps[i])
    ensures Revenue(ps) == Total(set i | 0 <= i < |ps| :: ps[i].orderId, f)
  {
    if ps != [] {
      var n := |ps| - 1;
      var front := ps[..n];
      RevenueTotal(front, f);
      var ids := set i | 0 <= i < |ps| :: ps[i].orderId;
      assert ps[n].orderId in ids;
      forall o | o in ids - {ps[n].orderId} ensures o in set i | 0 <= i < n :: front[i].orderId {
        var i :| 0 <= i < |ps| && ps[i].orderId == o;
        assert front[i].orderId == o;
      }
      assert ids - {ps[n].orderId} == set i | 0 <= i < n :: front[i].orderId;
      TotalRemove(ids, f, ps[n].orderId);
    }
  }

  /** Units of product `p` in COMPLETED orders. */
  ghost function SoldUnits(orders: map<Id, O.OrderRow>, p: string): real {
    Total(orders.Keys, Sold(orders, p))
  }

  ghost function Sold(orders: map<Id, O.OrderRow>, p: string): Id -> real {
    o => if o in orders && orders[o].status == O.Completed && orders[o].productId == p
         then orders[o].quantity as real else 0.0
  }

  /** The amounts of COMPLETED orders. */
  ghost function Sales(orders: map<Id, O.OrderRow>): real {
    Total(orders.Keys, Billed(orders))
  }

  ghost function Billed(orders: map<Id, O.OrderRow>): Id -> real {
    o => if o in orders && orders[o].status == O.Completed then orders[o].totalAmount else 0.0
  }

  // ----- the two global balances

  lemma OrdersOfReservations(w: World, t: map<Id, Track>)
    requires TablesOk(w, t)
    ensures forall i, j :: 0 <= i < j < |w.inv.reservations| ==>
              w.inv.reservations[i].orderId != w.inv.reservations[j].orderId
    ensures forall i, j :: 0 <= i < j < |w.pay.payments| ==>
              w.pay.payments[i].orderId != w.pay.payments[j].orderId
  {
  }

  lemma StockOf(w: World, t: map<Id, Track>, log: Log, initial: map<string, int>, p: string)
    requires Inv(w, t, log, initial) && p in initial
    ensures p in w.inv.inventory
    ensures initial[p] - w.inv.inventory[p].quantity == Stock.Units(w.inv.reservations, p, I.Committed)
  {
    hide TracksOk, TablesOk, MessagesOk;
    assert Stock.Balanced(w.inv, initial, p);
  }

  /** The committed units of the order's reservation. */
  ghost function Gone(t: map<Id, Track>, rs: seq<I.ReservationRow>, p: string): Id -> real {
    o => if o in t && t[o].reservation.Some? && t[o].reservation.value < |rs|
         then Stock.Part(rs[t[o].reservation.value], p, I.Committed) as real else 0.0
  }

  /** The money of the order's completed payment. */
  ghost function Charged(t: map<Id, Track>, ps: seq<P.PaymentRow>): Id -> real {
    o => if o in t && t[o].charge.Some? && t[o].charge.value < |ps| then Taken(ps[t[o].charge.value]) else 0.0
  }

  lemma OneOrder(w: World, t: map<Id, Track>, log: Log, initial: map<string, int>, p: string, o: Id)
    requires Inv(w, t, log, initial) && o in w.order.orders
    ensures Gone(t, w.inv.reservations, p)(o) <= Sold(w.order.orders, p)(o)
    ensures Billed(w.order.orders)(o) <= Charged(t, w.pay.payments)(o)
    ensures Gone(t, w.inv.reservations, p)(o) != 0.0 ==>
              exists i :: 0 <= i < |w.inv.reservations| && w.inv.reservations[i].orderId == o
    ensures Charged(t, w.pay.payments)(o) != 0.0 ==>
              exists i :: 0 <= i < |w.pay.payments| && w.pay.payments[i].orderId == o
  {
    hide Inv;
    TrackFacts(w, t, log, initial, o);
  }

  lemma OneEndedOrder(w: World, t: map<Id, Track>, log: Log, initial: map<string, int>, p: string, o: Id)
    requires Inv(w, t, log, initial) && o in w.order.orders && Quiescent(w)
    ensures Gone(t, w.inv.reservations, p)(o) == Sold(w.order.orders, p)(o)
    ensures Billed(w.order.orders)(o) == Charged(t, w.pay.payments)(o)
  {
    hide Inv, Quiescent;
    TrackFacts(w, t, log, initial, o);
    QuiescentIsQuiet(w, t, log, initial, o);
    OrderEnds(w, t, log, initial, o);
  }

  /** Units that have left a product's stock are units of completed orders, and once the saga
      rests they are all of them. */
  lemma StockBalance(w: World, initial: map<string, int>, p: string)
    requires Reachable(w, initial) && p in initial
    ensures p in w.inv.inventory
    ensures (initial[p] - w.inv.inventory[p].quantity) as real <= SoldUnits(w.order.orders, p)
    ensures Quiescent(w) ==> (initial[p] - w.inv.inventory[p].quantity) as real == SoldUnits(w.order.orders, p)
  {
    hide Inv, Reachable, Quiescent, Sold;
    var t, log := ReachableInv(w, initial);
    TableFacts(w, t, log, initial);
    OrdersOfReservations(w, t);
    StockOf(w, t, log, initial, p);
    var rs := w.inv.reservations;
    var gone := Gone(t, rs, p);
    var ids := set i | 0 <= i < |rs| :: rs[i].orderId;
    UnitsTotal(rs, p, I.Committed, gone);
    forall o | o in w.order.orders ensures gone(o) <= Sold(w.order.orders, p)(o) && (o in ids || gone(o) == 0.0) {
      OneOrder(w, t, log, initial, p, o);
    }
    TotalSupport(ids, w.order.orders.Keys, gone);
    TotalAtMost(w.order.orders.Keys, gone, Sold(w.order.orders, p));
    if Quiescent(w) {
      forall o | o in w.order.orders ensures Sold(w.order.orders, p)(o) <= gone(o) {
        OneEndedOrder(w, t, log, initial, p, o);
      }
      TotalAtMost(w.order.orders.Keys, Sold(w.order.orders, p), gone);
    }
  }

  /** Completed orders are covered by completed payments, and once the saga rests no money has
      been taken for anything else. */
  lemma MoneyBalance(w: World, initial: map<string, int>)
    requires Reachable(w, initial)
    ensures Sales(w.order.orders) <= Revenue(w.pay.payments)
    ensures Quiescent(w) ==> Sales(w.order.orders) == Revenue(w.pay.payments)
  {
    hide Inv, Reachable, Quiescent, Billed;
    var t, log := ReachableInv(w, initial);
    TableFacts(w, t, log, initial);
    OrdersOfReservations(w, t);
    var ps := w.pay.payments;
    var taken := Charged(t, ps);
    var ids := set i | 0 <= i < |ps| :: ps[i].orderId;
    RevenueTotal(ps, taken);
    forall o | o in w.order.orders ensures Billed(w.order.orders)(o) <= taken(o) && (o in ids || taken(o) == 0.0) {
      OneOrder(w, t, log, initial, "", o);
    }
    TotalSupport(ids, w.order.orders.Keys, taken);
    TotalAtMost(w.order.orders.Keys, Billed(w.order.orders), taken);
    if Quiescent(w) {
      forall o | o in w.order.orders ensures taken(o) <= Billed(w.order.orders)(o) {
        OneEndedOrder(w, t, log, initial, "", o);
      }
      TotalAtMost(w.order.orders.Keys, taken, Billed(w.order.orders));
    }
  }
}
