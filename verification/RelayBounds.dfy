/** How many committed passes the relay needs, whatever the broker refuses. */
module RelayBounds {
  import opened SagaTypes
  import opened OutboxTable
  import opened Relay

  /** Publish attempts that an eligible row has left. */
  function Left(row: OutboxRow): nat {
    if Eligible(row) then MAX_RETRY_COUNT - row.retryCount else 0
  }

  function Potential(rows: seq<OutboxRow>): nat {
    if rows == [] then 0 else Potential(rows[..|rows| - 1]) + Left(rows[|rows| - 1])
  }

  /** One committed pass of a single relay. */
  function Pass(rows: seq<OutboxRow>, accepts: nat -> bool): seq<OutboxRow> {
    Tried(rows, Batch(rows, {}), accepts)
  }

  function Pending(rows: seq<OutboxRow>): nat {
    |Selectable(rows, {})|
  }

  // ----- what a pass does to the potential

  lemma MarkRowLowers(row: OutboxRow, sent: bool, failed: bool)
    requires sent || failed ==> Eligible(row)
    ensures Left(MarkRow(row, sent, failed)) + (if sent || failed then 1 else 0) <= Left(row)
  {
  }

  lemma {:induction false} MarkLowers(rows: seq<OutboxRow>, sent: set<nat>, failed: set<nat>, tried: set<nat>)
    requires forall h: nat :: h < |rows| && (h in sent || h in failed) ==> Eligible(rows[h])
    requires forall h :: h in tried ==> h < |rows| && (h in sent || h in failed)
    ensures Potential(Mark(rows, sent, failed)) + |tried| <= Potential(rows)
  {
    hide Left, MarkRow, Eligible;
    if rows != [] {
      var n := |rows| - 1;
      MarkLowers(rows[..n], sent, failed, tried - {n});
      assert Mark(rows, sent, failed)[..n] == Mark(rows[..n], sent, failed);
      MarkRowLowers(rows[n], n in sent, n in failed);
    } else {
      assert tried == {};
    }
  }

  lemma {:induction false} SetOfSeq(hs: seq<nat>, s: set<nat>)
    requires forall i, j :: 0 <= i < j < |hs| ==> hs[i] < hs[j]
    requires forall h :: h in s <==> h in hs
    ensures |s| == |hs|
  {
    if hs != [] {
      var n := |hs| - 1;
      assert hs[n] in hs;
      assert forall h :: h in s - {hs[n]} <==> h in hs[..n] by {
        assert forall h :: h in hs <==> h in hs[..n] || h == hs[n];
      }
      SetOfSeq(hs[..n], s - {hs[n]});
    }
  }

  lemma BatchSplit(rows: seq<OutboxRow>, locked: set<nat>, accepts: nat -> bool)
    ensures
      var hs := Batch(rows, locked);
      && Accepted(hs, accepts) !! Refused(hs, accepts)
      && (forall h :: h in Accepted(hs, accepts) + Refused(hs, accepts) <==> h in hs)
      && |Accepted(hs, accepts) + Refused(hs, accepts)| == |hs|
  {
    hide Batch;
    var hs := Batch(rows, locked);
    BatchInTable(rows, locked);
    forall h | h in hs ensures h in Accepted(hs, accepts) + Refused(hs, accepts) {
      var j: nat :| j < |hs| && hs[j] == h;
      assert accepts(j) || !accepts(j);
    }
    SetOfSeq(hs, Accepted(hs, accepts) + Refused(hs, accepts));
  }

  lemma PassLowers(rows: seq<OutboxRow>, accepts: nat -> bool)
    ensures Potential(Pass(rows, accepts)) + |Batch(rows, {})| <= Potential(rows)
  {
    BatchSplit(rows, {}, accepts);
    BatchInTable(rows, {});
    var hs := Batch(rows, {});
    var sent, failed := Accepted(hs, accepts), Refused(hs, accepts);
    assert forall h :: h in sent || h in failed ==> h in sent + failed;
    MarkLowers(rows, sent, failed, sent + failed);
  }

  lemma {:induction false} PotentialAtMost(rows: seq<OutboxRow>)
    ensures Pending(rows) <= Potential(rows) <= MAX_RETRY_COUNT * Pending(rows)
  {
    if rows != [] {
      PotentialAtMost(rows[..|rows| - 1]);
    }
  }

  lemma {:induction false} PendingMonotone(rows: seq<OutboxRow>, rows': seq<OutboxRow>)
    requires |rows'| == |rows|
    requires forall i :: 0 <= i < |rows| ==> Eligible(rows'[i]) ==> Eligible(rows[i])
    ensures Pending(rows') <= Pending(rows)
  {
    if rows != [] {
      var n := |rows| - 1;
      PendingMonotone(rows[..n], rows'[..n]);
    }
  }

  // ----- draining

  ghost predicate AllLeft(rows: seq<OutboxRow>, m: nat) {
    forall i :: 0 <= i < |rows| ==> Left(rows[i]) <= m
  }

  function Passes(rows: seq<OutboxRow>, passes: seq<nat -> bool>): seq<OutboxRow>
    decreases |passes|
  {
    if passes == [] then rows else Passes(Pass(rows, passes[0]), passes[1..])
  }

  /** A pass tries every eligible row when they fit in one batch. */
  lemma FullPass(rows: seq<OutboxRow>, accepts: nat -> bool, m: nat)
    requires Pending(rows) <= BATCH_LIMIT && AllLeft(rows, m) && m > 0
    ensures AllLeft(Pass(rows, accepts), m - 1) && Pending(Pass(rows, accepts)) <= BATCH_LIMIT
  {
    var hs := Batch(rows, {});
    BatchSplit(rows, {}, accepts);
    assert hs == Selectable(rows, {});
    forall i: nat | i < |rows| ensures Left(Pass(rows, accepts)[i]) <= m - 1 {
      assert Eligible(rows[i]) ==> i in hs;
    }
    PassShrinks(rows, accepts);
  }

  lemma PassShrinks(rows: seq<OutboxRow>, accepts: nat -> bool)
    ensures Pending(Pass(rows, accepts)) <= Pending(rows)
  {
    PendingMonotone(rows, Pass(rows, accepts));
  }

  lemma {:induction false} NothingLeft(rows: seq<OutboxRow>)
    requires AllLeft(rows, 0)
    ensures Pending(rows) == 0
  {
    if rows != [] {
      NothingLeft(rows[..|rows| - 1]);
    }
  }

  lemma {:induction false} SmallDrain(rows: seq<OutboxRow>, passes: seq<nat -> bool>, m: nat)
    requires Pending(rows) <= BATCH_LIMIT && AllLeft(rows, m) && |passes| >= m
    ensures Pending(Passes(rows, passes)) == 0
    decreases |passes|
  {
    if m == 0 {
      NothingLeft(rows);
      StaysDrained(rows, passes);
    } else {
      FullPass(rows, passes[0], m);
      SmallDrain(Pass(rows, passes[0]), passes[1..], m - 1);
    }
  }

  lemma {:induction false} StaysDrained(rows: seq<OutboxRow>, passes: seq<nat -> bool>)
    requires Pending(rows) == 0
    ensures Pending(Passes(rows, passes)) == 0
    decreases |passes|
  {
    if passes != [] {
      PassShrinks(rows, passes[0]);
      StaysDrained(Pass(rows, passes[0]), passes[1..]);
    }
  }

  lemma {:induction false} DrainByPotential(rows: seq<OutboxRow>, passes: seq<nat -> bool>)
    requires |passes| >= Potential(rows) / BATCH_LIMIT + MAX_RETRY_COUNT
    ensures Pending(Passes(rows, passes)) == 0
    decreases |passes|
  {
    if Pending(rows) <= BATCH_LIMIT {
      assert AllLeft(rows, MAX_RETRY_COUNT);
      SmallDrain(rows, passes, MAX_RETRY_COUNT);
    } else {
      PotentialAtMost(rows);
      PassLowers(rows, passes[0]);
      assert |Batch(rows, {})| == BATCH_LIMIT;
      DrainByPotential(Pass(rows, passes[0]), passes[1..]);
    }
  }

  /** Draining bound: with N eligible rows and no inserts, floor(5N/100) + 5 committed passes
      leave no eligible row, whatever the broker accepts or refuses. */
  lemma DrainBound(rows: seq<OutboxRow>, passes: seq<nat -> bool>)
    requires |passes| >= 5 * Pending(rows) / 100 + 5
    ensures Pending(Passes(rows, passes)) == 0
  {
    PotentialAtMost(rows);
    DrainByPotential(rows, passes);
  }

  // ----- no starvation

  /** What may happen to the table: a committed pass, an aborted one, or a transaction that
      inserts a row, which is newer than all others. */
  datatype Step = Committed(accepts: nat -> bool) | Aborted | Insert(row: OutboxRow)

  function Next(rows: seq<OutboxRow>, step: Step): seq<OutboxRow> {
    match step
    case Committed(accepts) => Pass(rows, accepts)
    case Aborted => rows
    case Insert(row) => rows + [row]
  }

  function CommittedPasses(steps: seq<Step>): nat {
    if steps == [] then 0 else (if steps[0].Committed? then 1 else 0) + CommittedPasses(steps[1..])
  }

  /** Some committed pass of the run has row `r` in its batch. */
  ghost predicate Attempted(rows: seq<OutboxRow>, steps: seq<Step>, r: nat)
    decreases |steps|
  {
    steps != [] &&
    ((steps[0].Committed? && r in Batch(rows, {})) || Attempted(Next(rows, steps[0]), steps[1..], r))
  }

  /** If the eligible row `r` is left out of the batch, the batch is 100 older rows. */
  lemma OlderBatch(rows: seq<OutboxRow>, r: nat)
    requires r < |rows| && Eligible(rows[r]) && r !in Batch(rows, {})
    ensures |Batch(rows, {})| == BATCH_LIMIT
    ensures forall h :: h in Batch(rows, {}) ==> h < r
  {
    var all, hs := Selectable(rows, {}), Batch(rows, {});
    assert r in all;
    var k :| 0 <= k < |all| && all[k] == r;
    assert forall j :: 0 <= j < |hs| ==> hs[j] in hs && hs[j] == all[j];
    forall h | h in hs ensures h < r {
      var j :| 0 <= j < |hs| && hs[j] == h;
      assert all[j] < all[k];
    }
  }

  /** A pass whose batch leaves out the eligible row `r` spends all of it on older rows. */
  lemma LeftOut(rows: seq<OutboxRow>, accepts: nat -> bool, r: nat)
    requires r < |rows| && Eligible(rows[r]) && r !in Batch(rows, {})
    ensures Potential(Pass(rows, accepts)[..r]) + BATCH_LIMIT <= Potential(rows[..r])
    ensures Pass(rows, accepts)[r] == rows[r]
  {
    hide Batch, Accepted, Refused, Potential;
    var hs := Batch(rows, {});
    OlderBatch(rows, r);
    BatchSplit(rows, {}, accepts);
    BatchInTable(rows, {});
    var sent, failed := Accepted(hs, accepts), Refused(hs, accepts);
    assert r !in sent + failed;
    assert forall h :: h in sent || h in failed ==> h in sent + failed;
    MarkLowers(rows[..r], sent, failed, sent + failed);
    assert Mark(rows, sent, failed)[..r] == Mark(rows[..r], sent, failed);
  }

  lemma {:induction false} WaitBound(rows: seq<OutboxRow>, steps: seq<Step>, r: nat)
    requires r < |rows| && Eligible(rows[r]) && !Attempted(rows, steps, r)
    ensures BATCH_LIMIT * CommittedPasses(steps) <= Potential(rows[..r])
    decreases |steps|
  {
    if steps != [] {
      var rows' := Next(rows, steps[0]);
      if steps[0].Committed? {
        LeftOut(rows, steps[0].accepts, r);
      } else {
        assert rows'[..r] == rows[..r];
      }
      WaitBound(rows', steps[1..], r);
    }
  }

  /** No starvation: a pending row with k older eligible rows is attempted within
      floor(5k/100) + 1 committed passes, aborted passes and newer rows notwithstanding. */
  lemma NoStarvation(rows: seq<OutboxRow>, steps: seq<Step>, r: nat)
    requires r < |rows| && Eligible(rows[r])
    requires CommittedPasses(steps) >= 5 * Pending(rows[..r]) / 100 + 1
    ensures Attempted(rows, steps, r)
  {
    if !Attempted(rows, steps, r) {
      WaitBound(rows, steps, r);
      PotentialAtMost(rows[..r]);
    }
  }
}
