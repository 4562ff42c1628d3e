/** When the saga can come to rest. A message that the broker has refused five times stays PENDING
    and is never selected again; an order whose message was lost that way never ends, every other
    order still can. */
module SagaRest {
  import opened SagaTypes
  import opened OutboxTable
  import opened Saga
  import opened SagaInvariant
  import opened SagaReachable
  import opened SagaTheorems
  import opened SagaConvergence
  import opened SagaTermination
  import SagaSteps
  import O = OrderModel
  import I = InventoryModel
  import P = PaymentModel

  ghost predicate NoCreation(acts: seq<Action>) {
    forall a :: a in acts ==> !a.Create?
  }

  // ----- an exhausted row stays

  ghost predicate Exhausted(row: OutboxRow) {
    row.status == RowStatus.Pending && row.retryCount >= MAX_RETRY_COUNT
  }

  /** Rows that the relay does not select are left alone by every step. */
  lemma IneligibleStep(w: World, a: Action, s: Service, i: nat)
    requires Enabled(w, a) && i < |Rows(w, s)| && !Eligible(Rows(w, s)[i])
    ensures i < |Rows(Apply(w, a), s)| && Rows(Apply(w, a), s)[i] == Rows(w, s)[i]
  {
    hide FreshId;
    if a.Deliver? && Apply(w, a) != w {
      hide Apply, Enabled;
      DeliveryMarks(w, a);
    }
  }

  /** A row that is SENT or exhausted never changes again. */
  lemma {:induction false} IneligibleStays(w: World, more: seq<Action>, s: Service, i: nat)
    requires Executes(w, more) && i < |Rows(w, s)| && !Eligible(Rows(w, s)[i])
    ensures i < |Rows(After(w, more), s)| && Rows(After(w, more), s)[i] == Rows(w, s)[i]
  {
    hide Enabled, Apply, Rows;
    if more != [] {
      var n := |more| - 1;
      IneligibleStays(w, more[..n], s, i);
      IneligibleStep(After(w, more[..n]), more[n], s, i);
    }
  }

  /** From a deployed system five refusals reach an exhausted row whose message is not published. */
  lemma PoisonMessage(w0: World, initial: map<string, int>) returns (acts: seq<Action>)
    requires Init(w0, initial)
    ensures Executes(w0, acts)
    ensures
      var w := After(w0, acts);
      && |w.order.outbox| == 1 && Exhausted(w.order.outbox[0]) && w.published == {}
      && w.order.orders.Keys == {7} && w.order.outbox[0].event.orderId == 7
  {
    var create := Create(7, 1, "customer", "product", 1, 1.0, true);
    acts := [create];
    assert acts[..0] == [];
    assert forall s: Service :: Rows(w0, s) == [];
    var retries := 0;
    while retries < MAX_RETRY_COUNT
      invariant retries <= MAX_RETRY_COUNT && Executes(w0, acts)
      invariant After(w0, acts).order.outbox ==
                [OutboxRow(OrderCreated(1, 7, "customer", "product", 1, 1.0), RowStatus.Pending, retries)]
      invariant After(w0, acts).published == {} && After(w0, acts).order.orders.Keys == {7}
    {
      acts := Refuse(w0, acts);
      retries := retries + 1;
    }
  }

  lemma Refuse(w0: World, acts: seq<Action>) returns (acts': seq<Action>)
    requires Executes(w0, acts) && |After(w0, acts).order.outbox| == 1
    requires Eligible(After(w0, acts).order.outbox[0])
    ensures Executes(w0, acts')
    ensures
      var w, w' := After(w0, acts), After(w0, acts');
      && w'.order.outbox == [w.order.outbox[0].(retryCount := w.order.outbox[0].retryCount + 1)]
      && w'.published == w.published && w'.order.orders == w.order.orders
  {
    hide Enabled, Apply;
    var a := Settle(OrderService, {}, {0});
    acts' := acts + [a];
    assert acts'[..|acts|] == acts;
    RefuseStep(After(w0, acts));
  }

  lemma RefuseStep(w: World)
    requires |w.order.outbox| == 1 && Eligible(w.order.outbox[0])
    ensures
      var a := Settle(OrderService, {}, {0});
      && Enabled(w, a)
      && Apply(w, a) == w.(order := w.order.(outbox := [
           w.order.outbox[0].(retryCount := w.order.outbox[0].retryCount + 1)]))
  {
  }

  // ----- the whole saga at rest

  /** No pending row has used up its retries; the relay never selects such a row again. */
  ghost predicate NoneExhausted(w: World) {
    forall s: Service, i: nat :: i < |Rows(w, s)| && Rows(w, s)[i].status == RowStatus.Pending ==>
      Rows(w, s)[i].retryCount < MAX_RETRY_COUNT
  }

  ghost predicate Helpful(w: World, a: Action) {
    Enabled(w, a) && !a.Create? && Apply(w, a) != w && NoneExhausted(Apply(w, a))
  }

  lemma SettleStep(w: World, s: Service, i: nat) returns (a: Action)
    requires NoneExhausted(w) && i < |Rows(w, s)| && Rows(w, s)[i].status == RowStatus.Pending
    requires Rows(w, s)[i].event in w.published
    ensures Helpful(w, a)
  {
    a := Settle(s, {i}, {});
    var w' := Apply(w, a);
    assert Rows(w', s) == Mark(Rows(w, s), {i}, {}) && Rows(w', s)[i].status == RowStatus.Sent;
    forall x: Service, j: nat | j < |Rows(w', x)| && Rows(w', x)[j].status == RowStatus.Pending
      ensures Rows(w', x)[j].retryCount < MAX_RETRY_COUNT
    {
      assert Rows(w', x)[j] == Rows(w, x)[j];
    }
  }

  lemma PublishStep(w: World, s: Service, i: nat) returns (a: Action)
    requires NoneExhausted(w) && i < |Rows(w, s)| && Rows(w, s)[i].status == RowStatus.Pending
    requires Rows(w, s)[i].event !in w.published
    ensures Helpful(w, a)
  {
    a := Publish(s, i);
    assert forall x: Service :: Rows(Apply(w, a), x) == Rows(w, x);
  }

  lemma DeliveryStep(w: World, s: Service, e: Event, c: Choice) returns (a: Action)
    requires NoneExhausted(w)
    requires e in w.published && Routes(s, e) && FreshId(w, c.eventId) && HandleAt(w, s, e, c).0 != w
    ensures Helpful(w, a)
  {
    hide FreshId, HandleAt;
    a := Deliver(s, e, c);
    DeliveryMarks(w, a);
  }

  lemma NextStep(w: World) returns (a: Action)
    requires NoneExhausted(w) && !Quiescent(w)
    ensures Helpful(w, a)
  {
    hide NoneExhausted, Helpful;
    if !AllSent(w) {
      var s: Service, i: nat :| i < |Rows(w, s)| && Rows(w, s)[i].status != RowStatus.Sent;
      if Rows(w, s)[i].event in w.published {
        a := SettleStep(w, s, i);
      } else {
        a := PublishStep(w, s, i);
      }
    } else {
      var s: Service, e: Event, c: Choice :|
        e in w.published && Routes(s, e) && FreshId(w, c.eventId) && HandleAt(w, s, e, c).0 != w;
      a := DeliveryStep(w, s, e, c);
    }
  }

  /** From every reachable state without an exhausted row, some run without creations ends in
      a quiescent state. */
  lemma CanRest(w: World, initial: map<string, int>) returns (more: seq<Action>)
    requires Reachable(w, initial) && NoneExhausted(w)
    ensures Executes(w, more) && NoCreation(more)
    ensures Quiescent(After(w, more))
    decreases Measure(w)
  {
    hide Reachable, Measure, NoneExhausted, Quiescent, Enabled, Apply;
    if Quiescent(w) {
      return [];
    }
    var a := NextStep(w);
    assert [a][..0] == [];
    StepLowers(w, a);
    ReachableOnward(w, initial, [a]);
    MarksBounded(w, initial);
    var rest := CanRest(After(w, [a]), initial);
    Continue(w, [a], rest);
    return [a] + rest;
  }

  /** Exactly when the saga can come to rest: when no row is exhausted. Creating more orders
      does not help. */
  lemma CanRestIff(w: World, initial: map<string, int>)
    requires Reachable(w, initial)
    ensures NoneExhausted(w) ==>
              exists more :: Executes(w, more) && NoCreation(more) && Quiescent(After(w, more))
    ensures (exists more :: Executes(w, more) && Quiescent(After(w, more))) ==> NoneExhausted(w)
  {
    hide Reachable, NoneExhausted, Quiescent, Enabled, Apply;
    if NoneExhausted(w) {
      var more := CanRest(w, initial);
    }
    if more :| Executes(w, more) && Quiescent(After(w, more)) {
      QuiescentLater(w, more);
    }
  }

  lemma QuiescentLater(w: World, more: seq<Action>)
    requires Executes(w, more) && Quiescent(After(w, more))
    ensures NoneExhausted(w)
  {
    hide Enabled, Apply, Rows, Executes, After;
    forall s: Service, i: nat | i < |Rows(w, s)| && Rows(w, s)[i].status == RowStatus.Pending
      ensures Rows(w, s)[i].retryCount < MAX_RETRY_COUNT
    {
      if !Eligible(Rows(w, s)[i]) {
        IneligibleStays(w, more, s, i);
      }
    }
  }

  // ----- one order at rest

  /** No message of the order is lost: each is with the broker or still to be tried. */
  ghost predicate NoneLost(w: World, o: Id) {
    forall s: Service, i: nat :: i < |Rows(w, s)| && Rows(w, s)[i].event.orderId == o ==>
      Rows(w, s)[i].event in w.published || Eligible(Rows(w, s)[i])
  }

  ghost predicate AllEnded(w: World, os: set<Id>) {
    forall o :: o in os ==> o in w.order.orders && Ended(w, o)
  }

  ghost predicate Advances(w: World, a: Action, os: set<Id>) {
    && Enabled(w, a) && !a.Create? && Apply(w, a) != w && Apply(w, a).order.orders.Keys == w.order.orders.Keys
    && forall o :: o in os ==> NoneLost(Apply(w, a), o)
  }

  lemma PublishAdvances(w: World, os: set<Id>, s: Service, i: nat) returns (a: Action)
    requires (forall o :: o in os ==> NoneLost(w, o)) && i < |Rows(w, s)| && Rows(w, s)[i].event.orderId in os
    requires Rows(w, s)[i].event !in w.published
    ensures Advances(w, a, os)
  {
    a := Publish(s, i);
    assert NoneLost(w, Rows(w, s)[i].event.orderId);
    assert forall x: Service :: Rows(Apply(w, a), x) == Rows(w, x);
    forall o | o in os ensures NoneLost(Apply(w, a), o) {
      assert NoneLost(w, o);
    }
  }

  lemma DeliveryAdvances(w: World, os: set<Id>, s: Service, e: Event, c: Choice) returns (a: Action)
    requires forall o :: o in os ==> NoneLost(w, o)
    requires e in w.published && Routes(s, e) && FreshId(w, c.eventId) && HandleAt(w, s, e, c).0 != w
    ensures Advances(w, a, os)
  {
    hide FreshId, HandleAt;
    a := Deliver(s, e, c);
    DeliveryMarks(w, a);
    forall o | o in os ensures NoneLost(Apply(w, a), o) {
      assert NoneLost(w, o);
    }
  }

  /** While one of the orders is not quiet, some step brings it further and loses nothing. */
  lemma NextAdvance(w: World, os: set<Id>, o: Id) returns (a: Action)
    requires (forall x :: x in os ==> NoneLost(w, x)) && o in os && !OrderQuiet(w, o)
    ensures Advances(w, a, os)
  {
    hide NoneLost, Advances, HandleAt, FreshId;
    if s: Service, i: nat :|
      i < |Rows(w, s)| && Rows(w, s)[i].event.orderId == o && Rows(w, s)[i].event !in w.published
    {
      a := PublishAdvances(w, os, s, i);
    } else {
      var s: Service, e: Event, c: Choice :|
        e in w.published && e.orderId == o && Routes(s, e) && FreshId(w, c.eventId) && HandleAt(w, s, e, c).0 != w;
      a := DeliveryAdvances(w, os, s, e, c);
    }
  }

  /** Orders that have lost no message can be run to their ends, whatever became of the others. */
  lemma RunToEnds(w: World, initial: map<string, int>, os: set<Id>) returns (more: seq<Action>)
    requires Reachable(w, initial) && os <= w.order.orders.Keys && forall o :: o in os ==> NoneLost(w, o)
    ensures Executes(w, more) && NoCreation(more) && AllEnded(After(w, more), os)
    decreases Measure(w)
  {
    hide Reachable, Measure, NoneLost, OrderQuiet, Ended, Enabled, Apply, Inv;
    if o :| o in os && !OrderQuiet(w, o) {
      var a := NextAdvance(w, os, o);
      assert [a][..0] == [];
      StepLowers(w, a);
      ReachableOnward(w, initial, [a]);
      MarksBounded(w, initial);
      var rest := RunToEnds(After(w, [a]), initial, os);
      Continue(w, [a], rest);
      return [a] + rest;
    }
    var t, log := ReachableInv(w, initial);
    forall o | o in os ensures Ended(w, o) {
      OrderEnds(w, t, log, initial, o);
    }
    return [];
  }

  // ----- a lost message is never made up for

  /** Every processed mark belongs to a published message. */
  ghost predicate MarksPublished(w: World) {
    forall s: Service, id :: id in SagaSteps.Processed(w, s) ==> exists e :: e in w.published && e.id == id
  }

  lemma MarksPublishedStep(w: World, a: Action)
    requires MarksPublished(w) && Enabled(w, a)
    ensures MarksPublished(Apply(w, a))
  {
    hide FreshId;
    var w' := Apply(w, a);
    if a.Deliver? && w' != w {
      hide Apply;
      DeliveryMarks(w, a);
    } else {
      assert forall s: Service :: SagaSteps.Processed(w', s) == SagaSteps.Processed(w, s);
    }
  }

  lemma {:induction false} RunMarksPublished(w0: World, acts: seq<Action>, initial: map<string, int>)
    requires Init(w0, initial) && Executes(w0, acts)
    ensures MarksPublished(After(w0, acts))
  {
    if acts == [] {
      assert forall s: Service :: SagaSteps.Processed(w0, s) == {};
    } else {
      hide MarksPublished, Enabled, Apply, Init;
      RunMarksPublished(w0, acts[..|acts| - 1], initial);
      MarksPublishedStep(After(w0, acts[..|acts| - 1]), acts[|acts| - 1]);
    }
  }

  lemma MarkedIsPublished(w: World, t: map<Id, Track>, log: Log, initial: map<string, int>, s: Service, e: Event)
    requires Inv(w, t, log, initial) && Reachable(w, initial) && Logged(log, e) && e.id in SagaSteps.Processed(w, s)
    ensures e in w.published
  {
    hide Inv, Init;
    var w0, acts :| Init(w0, initial) && Executes(w0, acts) && After(w0, acts) == w;
    RunMarksPublished(w0, acts, initial);
    var x :| x in w.published && x.id == e.id;
    SagaSteps.Local(w, t, log, initial, x);
  }

  /** An order that has ended has all its messages with the broker. */
  lemma EndedIsPublished(w: World, initial: map<string, int>, o: Id)
    requires Reachable(w, initial) && o in w.order.orders && Ended(w, o)
    ensures AllPublished(w, o)
  {
    hide Inv, Reachable;
    var t, log := ReachableInv(w, initial);
    TrackFacts(w, t, log, initial, o);
    var k := t[o];
    assert k.reservation.Some? ==> w.inv.reservations[k.reservation.value].orderId == o;
    MarkedIsPublished(w, t, log, initial, InventoryService, k.created);
    MarkedIsPublished(w, t, log, initial, if k.stockSeen then OrderService else PaymentService, k.stock.value);
    if k.payment.Some? {
      MarkedIsPublished(w, t, log, initial, OrderService, k.payment.value);
      MarkedIsPublished(w, t, log, initial, InventoryService, k.closing.value);
    }
    forall s: Service, i: nat | i < |Rows(w, s)| && Rows(w, s)[i].event.orderId == o
      ensures Rows(w, s)[i].event in w.published
    {
      RowFacts(w, t, log, initial, s, i);
    }
  }

  /** A message that is neither published nor eligible is never published. */
  lemma LostStep(w: World, initial: map<string, int>, a: Action, s: Service, i: nat)
    requires Reachable(w, initial) && Enabled(w, a) && i < |Rows(w, s)|
    requires !Eligible(Rows(w, s)[i]) && Rows(w, s)[i].event !in w.published
    ensures Rows(w, s)[i].event !in Apply(w, a).published
  {
    hide Inv, Reachable, FreshId;
    if a.Publish? {
      var t, log := ReachableInv(w, initial);
      RowFacts(w, t, log, initial, s, i);
      RowFacts(w, t, log, initial, a.service, a.row);
    } else if a.Deliver? && Apply(w, a) != w {
      DeliveryMarks(w, a);
    }
  }

  lemma {:induction false} LostForGood(w: World, initial: map<string, int>, more: seq<Action>, s: Service, i: nat)
    requires Reachable(w, initial) && Executes(w, more) && i < |Rows(w, s)|
    requires !Eligible(Rows(w, s)[i]) && Rows(w, s)[i].event !in w.published
    ensures Rows(w, s)[i].event !in After(w, more).published
  {
    hide Enabled, Apply, Rows, Reachable, Eligible;
    if more != [] {
      var n := |more| - 1;
      LostForGood(w, initial, more[..n], s, i);
      IneligibleStays(w, more[..n], s, i);
      ReachableOnward(w, initial, more[..n]);
      LostStep(After(w, more[..n]), initial, more[n], s, i);
    }
  }

  lemma EndedLater(w: World, initial: map<string, int>, more: seq<Action>, o: Id)
    requires Reachable(w, initial) && Executes(w, more)
    requires o in After(w, more).order.orders && Ended(After(w, more), o)
    ensures NoneLost(w, o)
  {
    hide Enabled, Apply, Rows, Reachable, Executes, After, Eligible, Ended;
    ReachableOnward(w, initial, more);
    EndedIsPublished(After(w, more), initial, o);
    forall s: Service, i: nat | i < |Rows(w, s)| && Rows(w, s)[i].event.orderId == o
      ensures Rows(w, s)[i].event in w.published || Eligible(Rows(w, s)[i])
    {
      if Rows(w, s)[i].event !in w.published && !Eligible(Rows(w, s)[i]) {
        LostForGood(w, initial, more, s, i);
        IneligibleStays(w, more, s, i);
      }
    }
  }

  /** Exactly which orders can still end: those that have lost no message. Any set of them can
      end together, without new orders; an order that has lost one never ends. */
  lemma CanConverge(w: World, initial: map<string, int>, os: set<Id>)
    requires Reachable(w, initial) && os <= w.order.orders.Keys
    ensures (forall o :: o in os ==> NoneLost(w, o)) ==>
              exists more :: Executes(w, more) && NoCreation(more) && AllEnded(After(w, more), os)
    ensures (exists more :: Executes(w, more) && AllEnded(After(w, more), os)) ==>
              forall o :: o in os ==> NoneLost(w, o)
  {
    hide Reachable, NoneLost, Ended, Enabled, Apply;
    if forall o :: o in os ==> NoneLost(w, o) {
      var more := RunToEnds(w, initial, os);
    }
    if more :| Executes(w, more) && AllEnded(After(w, more), os) {
      forall o | o in os ensures NoneLost(w, o) {
        EndedLater(w, initial, more, o);
      }
    }
  }

  /** Where no row is exhausted no order has lost a message. */
  lemma NoneExhaustedNoneLost(w: World, initial: map<string, int>, o: Id)
    requires Reachable(w, initial) && NoneExhausted(w)
    ensures NoneLost(w, o)
  {
    hide Inv, Reachable;
    var t, log := ReachableInv(w, initial);
    forall s: Service, i: nat | i < |Rows(w, s)| ensures Rows(w, s)[i].event in w.published || Eligible(Rows(w, s)[i]) {
      RowFacts(w, t, log, initial, s, i);
    }
  }

  /** In the state that five refusals reach, the order never ends, whatever happens next. */
  lemma PoisonedOrder(w0: World, initial: map<string, int>) returns (acts: seq<Action>)
    requires Init(w0, initial)
    ensures Executes(w0, acts) && 7 in After(w0, acts).order.orders
    ensures forall more :: Executes(After(w0, acts), more) ==> !AllEnded(After(After(w0, acts), more), {7})
    ensures forall more :: Executes(After(w0, acts), more) ==> !Quiescent(After(After(w0, acts), more))
  {
    hide Init, Enabled, Apply, Quiescent, AllEnded;
    acts := PoisonMessage(w0, initial);
    var w := After(w0, acts);
    assert Reachable(w, initial);
    assert Rows(w, OrderService)[0] == w.order.outbox[0];
    assert !NoneLost(w, 7) && !NoneExhausted(w);
    CanConverge(w, initial, {7});
    CanRestIff(w, initial);
  }
}
