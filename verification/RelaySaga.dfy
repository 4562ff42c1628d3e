/** The saga with its relays written out: any number of concurrent relays at each of the three
    services. Whatever such a run commits and publishes is reachable in the saga. */
module RelaySaga {
  import opened SagaTypes
  import opened OutboxTable
  import Saga
  import Theorems = SagaTheorems
  import C = RelayConcurrency

  /** The databases and the broker, and the relays of each service with their accounts. */
  datatype Joint = Joint(w: Saga.World, order: C.State, inv: C.State, pay: C.State)

  datatype Step =
    | Relay(service: Service, step: C.Step)
    | Handler(action: Saga.Action)

  function RelaysOf(j: Joint, s: Service): C.State {
    match s
    case OrderService => j.order
    case InventoryService => j.inv
    case PaymentService => j.pay
  }

  function WithRelays(j: Joint, s: Service, relays: C.State): Joint {
    match s
    case OrderService => j.(order := relays)
    case InventoryService => j.(inv := relays)
    case PaymentService => j.(pay := relays)
  }

  /** Only relays publish and settle; only handlers create orders, take deliveries and insert rows. */
  ghost predicate Enabled(j: Joint, step: Step) {
    match step
    case Relay(s, step) => !step.Insert? && C.Enabled(RelaysOf(j, s), step)
    case Handler(a) => (a.Create? || a.Deliver?) && Saga.Enabled(j.w, a)
  }

  /** The message that a relay step hands to the broker, if any. */
  function Sends(relays: C.State, step: C.Step): set<Event>
    requires C.Enabled(relays, step)
  {
    if step.Attempt? && step.accepted then
      var p := relays.passes[step.relay];
      if p.batch[p.next] < |relays.rows| then {relays.rows[p.batch[p.next]].event} else {}
    else {}
  }

  /** The relays' view of a table that handlers have added rows to. */
  function Refreshed(relays: C.State, rows: seq<OutboxRow>): C.State {
    var more := if |rows| <= |relays.rows| then [] else seq(|rows| - |relays.rows|, _ => 0);
    relays.(rows := rows, copies := relays.copies + more, aborts := relays.aborts + more)
  }

  function Apply(j: Joint, step: Step): Joint
    requires Enabled(j, step)
  {
    match step
    case Relay(s, step) =>
      var relays := C.Apply(RelaysOf(j, s), step);
      var w := Saga.WithRows(j.w, s, relays.rows);
      WithRelays(j, s, relays).(w := w.(published := w.published + Sends(RelaysOf(j, s), step)))
    case Handler(a) =>
      var w := Saga.Apply(j.w, a);
      Joint(w, Refreshed(j.order, w.order.outbox), Refreshed(j.inv, w.inv.outbox), Refreshed(j.pay, w.pay.outbox))
  }

  ghost predicate JointInv(j: Joint, initial: map<string, int>) {
    Saga.Reachable(j.w, initial) && forall s: Service :: C.Matches(RelaysOf(j, s), j.w, s)
  }

  lemma ReachableStep(w: Saga.World, initial: map<string, int>, a: Saga.Action)
    requires Saga.Reachable(w, initial) && Saga.Enabled(w, a)
    ensures Saga.Reachable(Saga.Apply(w, a), initial)
  {
    hide Saga.Reachable, Saga.Enabled, Saga.Apply;
    assert [a][..0] == [];
    Theorems.ReachableOnward(w, initial, [a]);
  }

  /** A relay step makes the saga step that shadows it, or none. */
  lemma RelayShadow(j: Joint, initial: map<string, int>, s: Service, step: C.Step)
    requires JointInv(j, initial) && Enabled(j, Relay(s, step))
    ensures
      var a := C.Shadow(RelaysOf(j, s), step, s);
      var w' := Apply(j, Relay(s, step)).w;
      if a.Some? then Saga.Enabled(j.w, a.value) && w' == Saga.Apply(j.w, a.value) else w' == j.w
  {
    hide Saga.Reachable, C.Inv;
    var relays := RelaysOf(j, s);
    assert C.Matches(relays, j.w, s);
    C.RelaysRefineSaga(relays, j.w, s, step);
    if step.Attempt? {
      C.PassOf(relays, step.relay);
    }
  }

  lemma RelayKeepsInv(j: Joint, initial: map<string, int>, s: Service, step: C.Step)
    requires JointInv(j, initial) && Enabled(j, Relay(s, step))
    ensures JointInv(Apply(j, Relay(s, step)), initial)
  {
    hide Saga.Reachable, C.Inv, Saga.Enabled;
    RelayShadow(j, initial, s, step);
    var a := C.Shadow(RelaysOf(j, s), step, s);
    var j' := Apply(j, Relay(s, step));
    C.RelaysRefineSaga(RelaysOf(j, s), j.w, s, step);
    if a.Some? {
      ReachableStep(j.w, initial, a.value);
    }
    forall x: Service ensures C.Matches(RelaysOf(j', x), j'.w, x) {
      assert C.Matches(RelaysOf(j, x), j.w, x);
    }
  }

  lemma HandlerMatches(j: Joint, initial: map<string, int>, a: Saga.Action, s: Service)
    requires JointInv(j, initial) && Enabled(j, Handler(a))
    ensures C.Matches(RelaysOf(Apply(j, Handler(a)), s), Saga.Apply(j.w, a), s)
  {
    hide Saga.Reachable, C.Inv, Saga.Enabled, Saga.Apply;
    var relays, w' := RelaysOf(j, s), Saga.Apply(j.w, a);
    assert C.Matches(relays, j.w, s);
    C.SagaStepsInsert(relays, j.w, s, a);
    var relays' := Refreshed(relays, Saga.Rows(w', s));
    if C.Matches(relays, w', s) {
      assert relays' == relays;
    } else {
      var e: Event :| C.Matches(C.Apply(relays, C.Insert(e)), w', s);
      assert relays' == C.Apply(relays, C.Insert(e));
    }
  }

  lemma StepKeepsInv(j: Joint, initial: map<string, int>, step: Step)
    requires JointInv(j, initial) && Enabled(j, step)
    ensures JointInv(Apply(j, step), initial)
  {
    hide Saga.Reachable, C.Matches, Saga.Enabled, Saga.Apply;
    match step
    case Relay(s, step) => RelayKeepsInv(j, initial, s, step);
    case Handler(a) =>
      ReachableStep(j.w, initial, a);
      forall s: Service ensures C.Matches(RelaysOf(Apply(j, step), s), Saga.Apply(j.w, a), s) {
        HandlerMatches(j, initial, a, s);
      }
  }

  // ----- runs

  ghost predicate Executes(j: Joint, steps: seq<Step>)
    decreases |steps|
  {
    steps == [] || (Enabled(j, steps[0]) && Executes(Apply(j, steps[0]), steps[1..]))
  }

  ghost function After(j: Joint, steps: seq<Step>): Joint
    requires Executes(j, steps)
    decreases |steps|
  {
    if steps == [] then j else After(Apply(j, steps[0]), steps[1..])
  }

  ghost predicate Init(j: Joint, initial: map<string, int>) {
    Saga.Init(j.w, initial) && forall s: Service :: C.Init(RelaysOf(j, s))
  }

  lemma InitInv(j: Joint, initial: map<string, int>)
    requires Init(j, initial)
    ensures JointInv(j, initial)
  {
    assert Saga.Executes(j.w, []) && Saga.After(j.w, []) == j.w;
    assert forall s: Service :: C.Init(RelaysOf(j, s)) && Saga.Rows(j.w, s) == [];
  }

  lemma {:induction false} RunKeepsInv(j: Joint, steps: seq<Step>, initial: map<string, int>)
    requires JointInv(j, initial) && Executes(j, steps)
    ensures JointInv(After(j, steps), initial)
    decreases |steps|
  {
    hide JointInv, Enabled, Apply;
    if steps != [] {
      StepKeepsInv(j, initial, steps[0]);
      RunKeepsInv(Apply(j, steps[0]), steps[1..], initial);
    }
  }

  /** Every run of the saga with concurrent relays at all three services ends in a state that the
      saga reaches, so whatever holds in all its reachable states holds here; and each relay's
      table is the service's outbox, with its accounts in order. */
  lemma RelayedIsReachable(j0: Joint, steps: seq<Step>, initial: map<string, int>)
    requires Init(j0, initial) && Executes(j0, steps)
    ensures
      var j := After(j0, steps);
      && Saga.Reachable(j.w, initial)
      && forall s: Service :: RelaysOf(j, s).rows == Saga.Rows(j.w, s) && C.Inv(RelaysOf(j, s))
  {
    hide Saga.Reachable, C.Inv, Init;
    InitInv(j0, initial);
    RunKeepsInv(j0, steps, initial);
    assert forall s: Service :: C.Matches(RelaysOf(After(j0, steps), s), After(j0, steps).w, s);
  }
}
