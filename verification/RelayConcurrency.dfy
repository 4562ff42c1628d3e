/** Several relays over one outbox: row locks with SKIP LOCKED, passes in flight that publish
    before they commit, and passes that abort after publishing. */
module RelayConcurrency {
  import opened SagaTypes
  import opened OutboxTable
  import R = Relay
  import Bounds = RelayBounds
  import Saga
  import Termination = SagaTermination

  /** A pass in flight: the rows it holds locked, how many it has tried, and with what result. */
  datatype Pass = Pass(batch: seq<nat>, next: nat, accepted: set<nat>, refused: set<nat>)

  /** `copies` and `aborts` count, row by row, the messages handed to the broker and the aborted
      passes that held the row. */
  datatype State = State(rows: seq<OutboxRow>, passes: map<nat, Pass>, copies: seq<nat>, aborts: seq<nat>)

  datatype Step =
    | Begin(relay: nat)
    | Attempt(relay: nat, accepted: bool)
    | Commit(relay: nat)
    | Abort(relay: nat)
    | Insert(event: Event)

  function Locked(passes: map<nat, Pass>): set<nat> {
    set r, h | r in passes && h in passes[r].batch :: h
  }

  function Count(counts: seq<nat>, batch: seq<nat>): seq<nat> {
    seq(|counts|, i requires 0 <= i < |counts| => if i in batch then counts[i] + 1 else counts[i])
  }

  predicate Enabled(s: State, step: Step) {
    match step
    case Begin(r) => r !in s.passes
    case Attempt(r, _) => r in s.passes && s.passes[r].next < |s.passes[r].batch|
    case Commit(r) => r in s.passes && s.passes[r].next == |s.passes[r].batch|
    case Abort(r) => r in s.passes
    case Insert(_) => true
  }

  function Apply(s: State, step: Step): State
    requires Enabled(s, step)
  {
    match step
    case Begin(r) => s.(passes := s.passes[r := Pass(Batch(s.rows, Locked(s.passes)), 0, {}, {})])
    case Attempt(r, accepted) =>
      var p := s.passes[r];
      var h := p.batch[p.next];
      if accepted
      then s.(passes := s.passes[r := p.(next := p.next + 1, accepted := p.accepted + {h})],
              copies := Count(s.copies, [h]))
      else s.(passes := s.passes[r := p.(next := p.next + 1, refused := p.refused + {h})])
    case Commit(r) =>
      s.(rows := Mark(s.rows, s.passes[r].accepted, s.passes[r].refused), passes := s.passes - {r})
    case Abort(r) => s.(passes := s.passes - {r}, aborts := Count(s.aborts, s.passes[r].batch))
    case Insert(e) => s.(rows := s.rows + [NewRow(e)], copies := s.copies + [0], aborts := s.aborts + [0])
  }

  // ----- the invariant

  /** Row `i` has been handed to the broker by a pass that has not ended yet. */
  ghost predicate InFlight(s: State, i: nat) {
    exists r :: r in s.passes && i in s.passes[r].accepted
  }

  ghost predicate PassOk(rows: seq<OutboxRow>, p: Pass) {
    && p.next <= |p.batch|
    && (forall h :: h in p.batch ==> h < |rows| && Eligible(rows[h]))
    && (forall i, j :: 0 <= i < j < |p.batch| ==> p.batch[i] < p.batch[j])
    && p.accepted !! p.refused
    && (forall h :: h in p.accepted || h in p.refused <==> h in p.batch[..p.next])
  }

  ghost predicate PassesOk(s: State) {
    && (forall r :: r in s.passes ==> PassOk(s.rows, s.passes[r]))
    && (forall r, r', h :: r in s.passes && r' in s.passes && h in s.passes[r].batch && h in s.passes[r'].batch ==>
          r == r')
  }

  ghost predicate RowOk(s: State, i: nat)
    requires i < |s.rows| == |s.copies| == |s.aborts|
  {
    var out := s.rows[i].status == RowStatus.Sent || InFlight(s, i);
    && s.rows[i].retryCount <= MAX_RETRY_COUNT
    && s.copies[i] <= s.aborts[i] + (if out then 1 else 0)
    && (out ==> s.copies[i] >= 1)
  }

  ghost predicate Inv(s: State) {
    && |s.rows| == |s.copies| == |s.aborts|
    && PassesOk(s)
    && (forall i: nat :: i < |s.rows| ==> RowOk(s, i))
  }

  ghost predicate Init(s: State) {
    s == State([], map[], [], [])
  }

  // ----- every step keeps it

  lemma BeginInv(s: State, r: nat)
    requires Inv(s) && r !in s.passes
    ensures Inv(Apply(s, Begin(r)))
  {
    hide RowOk, Batch;
    var s' := Apply(s, Begin(r));
    R.BatchInTable(s.rows, Locked(s.passes));
    var p := s'.passes[r];
    assert p.batch[..0] == [];
    forall q, h | q in s.passes && h in s.passes[q].batch ensures h !in p.batch {
      assert h in Locked(s.passes);
    }
    forall i: nat | i < |s.rows| ensures RowOk(s', i) {
      SameRow(s, s', i);
    }
  }

  /** A row keeps its account when its own entries and its being in flight stay the same. */
  lemma SameRow(s: State, s': State, i: nat)
    requires |s.rows| == |s.copies| == |s.aborts| && |s'.rows| == |s'.copies| == |s'.aborts|
    requires i < |s.rows| && i < |s'.rows| && RowOk(s, i)
    requires s'.rows[i] == s.rows[i] && s'.copies[i] == s.copies[i] && s'.aborts[i] == s.aborts[i]
    requires forall r :: r in s'.passes && i in s'.passes[r].accepted ==> r in s.passes && i in s.passes[r].accepted
    requires forall r :: r in s.passes && i in s.passes[r].accepted ==> r in s'.passes && i in s'.passes[r].accepted
    ensures RowOk(s', i)
  {
    assert InFlight(s', i) <==> InFlight(s, i);
  }

  lemma AttemptPass(rows: seq<OutboxRow>, p: Pass, accepted: bool)
    requires PassOk(rows, p) && p.next < |p.batch|
    ensures
      var h := p.batch[p.next];
      && h < |rows| && h !in p.accepted && h !in p.refused && Eligible(rows[h])
      && PassOk(rows, if accepted then p.(next := p.next + 1, accepted := p.accepted + {h})
                      else p.(next := p.next + 1, refused := p.refused + {h}))
  {
    var h := p.batch[p.next];
    assert h in p.batch;
    assert p.batch[..p.next + 1] == p.batch[..p.next] + [h];
    assert h !in p.batch[..p.next];
  }

  /** Replacing a pass by one over the same batch keeps the passes apart. */
  lemma SameBatch(s: State, s': State, r: nat, p: Pass)
    requires PassesOk(s) && r in s.passes && p.batch == s.passes[r].batch && PassOk(s.rows, p)
    requires s'.rows == s.rows && s'.passes == s.passes[r := p]
    ensures PassesOk(s')
  {
    hide PassOk;
  }

  lemma AttemptInv(s: State, r: nat, accepted: bool)
    requires Inv(s) && Enabled(s, Attempt(r, accepted))
    ensures Inv(Apply(s, Attempt(r, accepted)))
  {
    hide RowOk, PassOk, PassesOk;
    var s' := Apply(s, Attempt(r, accepted));
    var p := s.passes[r];
    var h := p.batch[p.next];
    PassOf(s, r);
    AttemptPass(s.rows, p, accepted);
    SameBatch(s, s', r, s'.passes[r]);
    forall i: nat | i < |s.rows| ensures RowOk(s', i) {
      if accepted && i == h {
        FirstCopy(s, s', r, h);
      } else {
        SameRow(s, s', i);
      }
    }
  }

  lemma FirstCopy(s: State, s': State, r: nat, h: nat)
    requires Inv(s) && r in s.passes && h in s.passes[r].batch && h !in s.passes[r].accepted && h < |s.rows|
    requires Eligible(s.rows[h])
    requires |s'.rows| == |s'.copies| == |s'.aborts| == |s.rows|
    requires s'.rows[h] == s.rows[h] && s'.copies[h] == s.copies[h] + 1 && s'.aborts[h] == s.aborts[h]
    requires r in s'.passes && h in s'.passes[r].accepted
    ensures RowOk(s', h)
  {
    assert InFlight(s', h);
    assert RowOk(s, h);
    forall q | q in s.passes && h in s.passes[q].accepted ensures false {
      AcceptedInBatch(s, q, h);
    }
  }

  lemma AcceptedInBatch(s: State, r: nat, h: nat)
    requires PassesOk(s) && r in s.passes && (h in s.passes[r].accepted || h in s.passes[r].refused)
    ensures h in s.passes[r].batch && h < |s.rows| && Eligible(s.rows[h])
  {
    assert PassOk(s.rows, s.passes[r]);
  }

  lemma CommitInv(s: State, r: nat)
    requires Inv(s) && Enabled(s, Commit(r))
    ensures Inv(Apply(s, Commit(r)))
  {
    hide RowOk;
    var s' := Apply(s, Commit(r));
    var p := s.passes[r];
    forall q | q in s'.passes ensures PassOk(s'.rows, s'.passes[q]) {
      forall h | h in s.passes[q].batch ensures h < |s.rows| && s'.rows[h] == s.rows[h] {
        assert PassOk(s.rows, s.passes[q]);
        if h in p.accepted || h in p.refused {
          AcceptedInBatch(s, r, h);
        }
      }
    }
    forall i: nat | i < |s.rows| ensures RowOk(s', i) {
      if i in p.accepted || i in p.refused {
        CommittedRow(s, r, i);
      } else {
        SameRow(s, s', i);
      }
    }
  }

  lemma CommittedRow(s: State, r: nat, i: nat)
    requires Inv(s) && Enabled(s, Commit(r)) && i < |s.rows|
    requires i in s.passes[r].accepted || i in s.passes[r].refused
    ensures RowOk(Apply(s, Commit(r)), i)
  {
    var s' := Apply(s, Commit(r));
    AcceptedInBatch(s, r, i);
    assert RowOk(s, i);
    if i in s.passes[r].accepted {
      assert InFlight(s, i);
    }
    forall q | q in s.passes && q != r ensures i !in s.passes[q].accepted {
      if i in s.passes[q].accepted {
        AcceptedInBatch(s, q, i);
      }
    }
  }

  lemma AbortInv(s: State, r: nat)
    requires Inv(s) && r in s.passes
    ensures Inv(Apply(s, Abort(r)))
  {
    hide RowOk;
    var s' := Apply(s, Abort(r));
    forall i: nat | i < |s.rows| ensures RowOk(s', i) {
      if i in s.passes[r].batch {
        AbortedRow(s, r, i);
      } else {
        if i in s.passes[r].accepted {
          AcceptedInBatch(s, r, i);
        }
        SameRow(s, s', i);
      }
    }
  }

  lemma AbortedRow(s: State, r: nat, i: nat)
    requires Inv(s) && r in s.passes && i < |s.rows| && i in s.passes[r].batch
    ensures RowOk(Apply(s, Abort(r)), i)
  {
    var s' := Apply(s, Abort(r));
    assert RowOk(s, i) && PassOk(s.rows, s.passes[r]);
    forall q | q in s'.passes ensures i !in s'.passes[q].accepted {
      if i in s.passes[q].accepted {
        AcceptedInBatch(s, q, i);
      }
    }
  }

  lemma InsertInv(s: State, e: Event)
    requires Inv(s)
    ensures Inv(Apply(s, Insert(e)))
  {
    hide RowOk;
    var s' := Apply(s, Insert(e));
    forall q | q in s'.passes ensures PassOk(s'.rows, s'.passes[q]) {
      assert PassOk(s.rows, s.passes[q]);
    }
    forall i: nat | i < |s'.rows| ensures RowOk(s', i) {
      if i < |s.rows| {
        SameRow(s, s', i);
      } else {
        NewRowOk(s, e);
      }
    }
  }

  lemma NewRowOk(s: State, e: Event)
    requires Inv(s)
    ensures RowOk(Apply(s, Insert(e)), |s.rows|)
  {
    var s' := Apply(s, Insert(e));
    forall q | q in s'.passes ensures |s.rows| !in s'.passes[q].accepted {
      if |s.rows| in s.passes[q].accepted {
        AcceptedInBatch(s, q, |s.rows|);
      }
    }
  }

  lemma StepInv(s: State, step: Step)
    requires Inv(s) && Enabled(s, step)
    ensures Inv(Apply(s, step))
  {
    match step
    case Begin(r) => BeginInv(s, r);
    case Attempt(r, accepted) => AttemptInv(s, r, accepted);
    case Commit(r) => CommitInv(s, r);
    case Abort(r) => AbortInv(s, r);
    case Insert(e) => InsertInv(s, e);
  }

  // ----- runs

  ghost predicate Executes(s: State, steps: seq<Step>)
    decreases |steps|
  {
    steps == [] || (Enabled(s, steps[0]) && Executes(Apply(s, steps[0]), steps[1..]))
  }

  ghost function After(s: State, steps: seq<Step>): State
    requires Executes(s, steps)
    decreases |steps|
  {
    if steps == [] then s else After(Apply(s, steps[0]), steps[1..])
  }

  lemma {:induction false} RunInv(s: State, steps: seq<Step>)
    requires Inv(s) && Executes(s, steps)
    ensures Inv(After(s, steps))
    decreases |steps|
  {
    hide Inv, Enabled, Apply;
    if steps != [] {
      StepInv(s, steps[0]);
      RunInv(Apply(s, steps[0]), steps[1..]);
    }
  }

  /** In every run of any number of relays: concurrent batches are disjoint, a SENT row was
      published, no row was published more often than once plus once per aborted pass that
      held it, and no retry count exceeds five. */
  lemma Accounting(s0: State, steps: seq<Step>)
    requires Init(s0) && Executes(s0, steps)
    ensures
      var s := After(s0, steps);
      && |s.rows| == |s.copies| == |s.aborts|
      && (forall r, r', h :: r in s.passes && r' in s.passes && r != r' && h in s.passes[r].batch ==>
            h !in s.passes[r'].batch)
      && (forall i: nat :: i < |s.rows| ==>
            && (s.rows[i].status == RowStatus.Sent ==> s.copies[i] >= 1)
            && s.copies[i] <= 1 + s.aborts[i]
            && s.rows[i].retryCount <= 5)
  {
    RunInv(s0, steps);
    var s := After(s0, steps);
    forall i: nat | i < |s.rows|
      ensures s.rows[i].status == RowStatus.Sent ==> s.copies[i] >= 1
      ensures s.copies[i] <= 1 + s.aborts[i] && s.rows[i].retryCount <= MAX_RETRY_COUNT
    {
      assert RowOk(s, i);
    }
  }

  /** A SENT row is never selected again, and its account is closed: no later step of any relay
      touches it or publishes it. */
  lemma {:induction false} SentForGood(s: State, steps: seq<Step>, i: nat)
    requires Inv(s) && Executes(s, steps) && i < |s.rows| && s.rows[i].status == RowStatus.Sent
    ensures
      var s' := After(s, steps);
      && i < |s'.rows| && i < |s'.copies| && s'.rows[i] == s.rows[i] && s'.copies[i] == s.copies[i]
      && forall r :: r in s'.passes ==> i !in s'.passes[r].batch
    decreases |steps|
  {
    if steps == [] {
      assert forall r :: r in s.passes ==> PassOk(s.rows, s.passes[r]);
    } else {
      SentStep(s, steps[0], i);
      StepInv(s, steps[0]);
      SentForGood(Apply(s, steps[0]), steps[1..], i);
    }
  }

  lemma SentStep(s: State, step: Step, i: nat)
    requires Inv(s) && Enabled(s, step) && i < |s.rows| && s.rows[i].status == RowStatus.Sent
    ensures
      var s' := Apply(s, step);
      && i < |s'.rows| && i < |s'.copies| && s'.rows[i] == s.rows[i] && s'.copies[i] == s.copies[i]
  {
    hide RowOk;
    if step.Attempt? {
      AttemptPass(s.rows, s.passes[step.relay], step.accepted);
    } else if step.Commit? {
      var p := s.passes[step.relay];
      if i in p.accepted || i in p.refused {
        AcceptedInBatch(s, step.relay, i);
      }
    }
  }

  // ----- all relays together do a bounded amount of work

  /** The rows that a step settles for good or for one retry. */
  function SettledRows(s: State, step: Step): nat
    requires Enabled(s, step)
  {
    if step.Commit? then |s.passes[step.relay].batch| else 0
  }

  ghost function SettledBy(s: State, steps: seq<Step>): nat
    requires Executes(s, steps)
    decreases |steps|
  {
    if steps == [] then 0 else SettledRows(s, steps[0]) + SettledBy(Apply(s, steps[0]), steps[1..])
  }

  function Inserts(steps: seq<Step>): nat {
    if steps == [] then 0 else (if steps[0].Insert? then 1 else 0) + Inserts(steps[1..])
  }

  /** A commit uses up one attempt of every row of its batch, whatever other relays hold. */
  lemma CommitLowers(s: State, r: nat)
    requires Inv(s) && Enabled(s, Commit(r))
    ensures Bounds.Potential(Apply(s, Commit(r)).rows) + |s.passes[r].batch| <= Bounds.Potential(s.rows)
  {
    hide Bounds.Potential, RowOk, Eligible;
    PassOf(s, r);
    var p := s.passes[r];
    assert p.batch[..p.next] == p.batch;
    var tried := p.accepted + p.refused;
    Bounds.SetOfSeq(p.batch, tried);
    Bounds.MarkLowers(s.rows, p.accepted, p.refused, tried);
  }

  /** Over any run of any number of relays, the rows settled by committed passes number at most
      five for each row that was eligible at the start or inserted since. */
  lemma {:induction false} WorkBound(s: State, steps: seq<Step>)
    requires Inv(s) && Executes(s, steps)
    ensures SettledBy(s, steps) + Bounds.Potential(After(s, steps).rows) <=
            5 * (Bounds.Pending(s.rows) + Inserts(steps))
    ensures SettledBy(s, steps) + Bounds.Potential(After(s, steps).rows) <=
            Bounds.Potential(s.rows) + MAX_RETRY_COUNT * Inserts(steps)
    decreases |steps|
  {
    hide Inv, Enabled, Apply, SettledRows, Bounds.Potential, Bounds.Pending;
    Bounds.PotentialAtMost(s.rows);
    if steps != [] {
      StepWork(s, steps[0]);
      StepInv(s, steps[0]);
      WorkBound(Apply(s, steps[0]), steps[1..]);
    }
  }

  lemma StepWork(s: State, step: Step)
    requires Inv(s) && Enabled(s, step)
    ensures SettledRows(s, step) + Bounds.Potential(Apply(s, step).rows) <=
            Bounds.Potential(s.rows) + if step.Insert? then MAX_RETRY_COUNT else 0
  {
    hide Inv;
    if step.Commit? {
      CommitLowers(s, step.relay);
    } else if step.Insert? {
      assert Apply(s, step).rows[..|s.rows|] == s.rows;
    }
  }

  // ----- the relays inside the saga

  /** The relays of service `svc` and the saga agree on its outbox, and whatever a relay has
      handed to the broker the saga counts as published. */
  ghost predicate Matches(s: State, w: Saga.World, svc: Service) {
    && Inv(s) && s.rows == Saga.Rows(w, svc)
    && (forall i: nat :: i < |s.rows| && s.copies[i] >= 1 ==> s.rows[i].event in w.published)
  }

  /** What a relay step is in the saga: an accepted attempt publishes, a commit settles the
      batch, and beginning, being refused or aborting leave no trace. */
  function Shadow(s: State, step: Step, svc: Service): Option<Saga.Action>
    requires Enabled(s, step)
  {
    match step
    case Attempt(r, true) => Some(Saga.Publish(svc, s.passes[r].batch[s.passes[r].next]))
    case Commit(r) => Some(Saga.Settle(svc, s.passes[r].accepted, s.passes[r].refused))
    case _ => None
  }

  lemma AttemptRefines(s: State, w: Saga.World, svc: Service, r: nat)
    requires Matches(s, w, svc) && Enabled(s, Attempt(r, true))
    ensures
      var a := Saga.Publish(svc, s.passes[r].batch[s.passes[r].next]);
      Saga.Enabled(w, a) && Matches(Apply(s, Attempt(r, true)), Saga.Apply(w, a), svc)
  {
    hide RowOk, PassesOk, PassOk, Inv;
    StepInv(s, Attempt(r, true));
    PassOf(s, r);
    AttemptPass(s.rows, s.passes[r], true);
    var a := Saga.Publish(svc, s.passes[r].batch[s.passes[r].next]);
    assert Saga.Rows(Saga.Apply(w, a), svc) == s.rows;
  }

  lemma CommitRefines(s: State, w: Saga.World, svc: Service, r: nat)
    requires Matches(s, w, svc) && Enabled(s, Commit(r))
    ensures
      var a := Saga.Settle(svc, s.passes[r].accepted, s.passes[r].refused);
      Saga.Enabled(w, a) && Matches(Apply(s, Commit(r)), Saga.Apply(w, a), svc)
  {
    hide RowOk, PassesOk, Inv;
    StepInv(s, Commit(r));
    PassOf(s, r);
    var p := s.passes[r];
    forall h | h in p.accepted || h in p.refused
      ensures h < |s.rows| && Eligible(s.rows[h]) && (h in p.accepted ==> s.copies[h] >= 1)
    {
      AcceptedInBatch(s, r, h);
      CopiedOnce(s, r, h);
    }
  }

  /** Any number of concurrent relays refine the saga's publish and settle steps. */
  lemma RelaysRefineSaga(s: State, w: Saga.World, svc: Service, step: Step)
    requires Matches(s, w, svc) && Enabled(s, step) && !step.Insert?
    ensures
      var a := Shadow(s, step, svc);
      && (a.None? ==> Matches(Apply(s, step), w, svc))
      && (a.Some? ==> Saga.Enabled(w, a.value) && Matches(Apply(s, step), Saga.Apply(w, a.value), svc))
  {
    hide Inv, Saga.Enabled, Saga.Apply;
    match step
    case Attempt(r, true) => AttemptRefines(s, w, svc, r);
    case Commit(r) => CommitRefines(s, w, svc, r);
    case _ => StepInv(s, step);
  }

  lemma PassOf(s: State, r: nat)
    requires Inv(s) && r in s.passes
    ensures PassOk(s.rows, s.passes[r]) && PassesOk(s) && |s.rows| == |s.copies| == |s.aborts|
  {
  }

  lemma CopiedOnce(s: State, r: nat, h: nat)
    requires Inv(s) && r in s.passes && h < |s.rows|
    ensures h in s.passes[r].accepted ==> s.copies[h] >= 1
  {
    assert RowOk(s, h);
  }

  /** The rest of the saga, seen from a service's relays: it inserts a row or nothing. */
  lemma SagaStepsInsert(s: State, w: Saga.World, svc: Service, a: Saga.Action)
    requires Matches(s, w, svc) && Saga.Enabled(w, a) && !(a.Settle? && a.service == svc)
    ensures Matches(s, Saga.Apply(w, a), svc) || exists e: Event :: Matches(Apply(s, Insert(e)), Saga.Apply(w, a), svc)
  {
    hide Inv, Saga.FreshId;
    var w' := Saga.Apply(w, a);
    if Saga.Rows(w', svc) == Saga.Rows(w, svc) {
      assert w.published <= w'.published;
    } else {
      if a.Deliver? {
        Termination.DeliveryMarks(w, a);
      }
      var e: Event :| Saga.Rows(w', svc) == Saga.Rows(w, svc) + [NewRow(e)];
      StepInv(s, Insert(e));
      InsertMatches(s, w, w', svc, e);
    }
  }

  lemma InsertMatches(s: State, w: Saga.World, w': Saga.World, svc: Service, e: Event)
    requires Matches(s, w, svc) && w'.published == w.published
    requires Saga.Rows(w', svc) == Saga.Rows(w, svc) + [NewRow(e)]
    ensures Matches(Apply(s, Insert(e)), w', svc)
  {
    StepInv(s, Insert(e));
  }
}
