/** The outbox relay: one polling pass, in imperative form. */
module Relay {
  import opened SagaTypes
  import opened OutboxTable

  ghost predicate InTable(rows: seq<OutboxRow>, hs: seq<nat>) {
    forall j :: 0 <= j < |hs| ==> hs[j] < |rows|
  }

  /** The rows of `hs` that the broker accepts, by their place in the batch. */
  function Accepted(hs: seq<nat>, accepts: nat -> bool): set<nat> {
    set j: nat | j < |hs| && accepts(j) :: hs[j]
  }

  function Refused(hs: seq<nat>, accepts: nat -> bool): set<nat> {
    set j: nat | j < |hs| && !accepts(j) :: hs[j]
  }

  /** The events handed to the broker while the rows `hs` are tried in order. */
  function Copies(rows: seq<OutboxRow>, hs: seq<nat>, accepts: nat -> bool): seq<Event>
    requires InTable(rows, hs)
  {
    if hs == [] then []
    else
      var n := |hs| - 1;
      Copies(rows, hs[..n], accepts) + if accepts(n) then [rows[hs[n]].event] else []
  }

  /** The table once the rows `hs` have been tried and every statement succeeded. */
  function Tried(rows: seq<OutboxRow>, hs: seq<nat>, accepts: nat -> bool): (tried: seq<OutboxRow>)
    ensures |tried| == |rows|
  {
    Mark(rows, Accepted(hs, accepts), Refused(hs, accepts))
  }

  /** The loop returns at an accepted message whose statement, or one before it, has failed. */
  ghost predicate Stops(accepts: nat -> bool, statementOk: nat -> bool, j: nat) {
    accepts(j) && exists i: nat :: i <= j && !statementOk(i)
  }

  class OutboxRelay {
    var rows: seq<OutboxRow>
    var published: seq<Event>

    constructor (rows: seq<OutboxRow>)
      ensures this.rows == rows && published == []
    {
      this.rows, published := rows, [];
    }

    /** Fills the batch slice from the query's result rows. */
    method SelectBatch() returns (batch: seq<nat>)
      ensures batch == Batch(rows, {})
    {
      hide Eligible, Selectable, Batch;
      batch := [];
      var i := 0;
      SelectableNone(rows[..0]);
      while i < |rows| && |batch| < BATCH_LIMIT
        invariant i <= |rows| && |batch| <= BATCH_LIMIT
        invariant batch == Selectable(rows[..i], {})
      {
        SelectableStep(rows, i, {});
        if Eligible(rows[i]) {
          batch := batch + [i];
        }
        i := i + 1;
      }
      FirstBatch(rows, i);
    }

    /** One pass. `accepts` is the broker's answer to each message of the batch, `statementOk`
        whether the SQL statement after it succeeds, `commits` whether the commit does. After
        a failed statement the transaction is aborted: later statements fail too. */
    method ProcessPendingMessages(accepts: nat -> bool, statementOk: nat -> bool, commits: bool)
      returns (ok: bool, tried: nat)
      modifies this
      ensures
        var hs := Batch(old(rows), {});
        && ok == (commits && forall j: nat :: j < |hs| ==> statementOk(j))
        && tried <= |hs|
        && (forall j: nat :: j + 1 < tried ==> !Stops(accepts, statementOk, j))
        && (tried < |hs| ==> tried > 0 && Stops(accepts, statementOk, tried - 1))
        && InTable(old(rows), hs[..tried])
        && published == old(published) + Copies(old(rows), hs[..tried], accepts)
        && rows == if ok then Tried(old(rows), hs, accepts) else old(rows)
    {
      hide Batch, Tried, Stops, Copies;
      var batch := SelectBatch();
      var table := rows;
      var alive := true;
      tried := 0;
      BatchInTable(rows, {});
      TriedNone(rows, accepts);
      CopiesNone(rows, accepts);
      assert batch[..0] == [];
      while tried < |batch|
        invariant tried <= |batch| && batch == Batch(rows, {}) && InTable(rows, batch)
        invariant rows == old(rows) && |table| == |rows|
        invariant alive == forall j: nat :: j < tried ==> statementOk(j)
        invariant forall j: nat :: j < tried ==> !Stops(accepts, statementOk, j)
        invariant published == old(published) + Copies(rows, batch[..tried], accepts)
        invariant alive ==> table == Tried(rows, batch[..tried], accepts)
      {
        var h := batch[tried];
        PassStep(rows, batch, tried, accepts);
        var sent := accepts(tried);
        alive := alive && statementOk(tried);
        StopsIff(accepts, statementOk, tried);
        if !sent {
          if alive {
            table := table[h := table[h].(retryCount := table[h].retryCount + 1)];
          }
          tried := tried + 1;
          continue;
        }
        published := published + [rows[h].event];
        tried := tried + 1;
        if !alive {
          return false, tried;
        }
        table := table[h := table[h].(status := RowStatus.Sent)];
      }
      assert batch[..|batch|] == batch;
      if !alive || !commits {
        return false, tried;
      }
      rows := table;
      return true, tried;
    }
  }

  // ----- the batch

  lemma SelectableNone(rows: seq<OutboxRow>)
    requires rows == []
    ensures Selectable(rows, {}) == []
  {
  }

  lemma SelectableStep(rows: seq<OutboxRow>, i: nat, locked: set<nat>)
    requires i < |rows|
    ensures Selectable(rows[..i + 1], locked) ==
            Selectable(rows[..i], locked) + if Eligible(rows[i]) && i !in locked then [i] else []
  {
    assert rows[..i + 1][..i] == rows[..i];
  }

  lemma {:induction false} SelectablePrefix(rows: seq<OutboxRow>, i: nat, locked: set<nat>)
    requires i <= |rows|
    ensures Selectable(rows[..i], locked) <= Selectable(rows, locked)
    decreases |rows| - i
  {
    if i < |rows| {
      SelectableStep(rows, i, locked);
      SelectablePrefix(rows, i + 1, locked);
    } else {
      assert rows[..i] == rows;
    }
  }

  /** Scanning can stop at the limit. */
  lemma FirstBatch(rows: seq<OutboxRow>, i: nat)
    requires i <= |rows| && |Selectable(rows[..i], {})| <= BATCH_LIMIT
    requires i == |rows| || |Selectable(rows[..i], {})| == BATCH_LIMIT
    ensures Selectable(rows[..i], {}) == Batch(rows, {})
  {
    SelectablePrefix(rows, i, {});
    assert i == |rows| ==> rows[..i] == rows;
  }

  lemma BatchInTable(rows: seq<OutboxRow>, locked: set<nat>)
    ensures forall h :: h in Batch(rows, locked) ==> h < |rows| && Eligible(rows[h]) && h !in locked
    ensures forall i, j :: 0 <= i < j < |Batch(rows, locked)| ==> Batch(rows, locked)[i] < Batch(rows, locked)[j]
    ensures |Batch(rows, locked)| <= BATCH_LIMIT && InTable(rows, Batch(rows, locked))
  {
    var hs := Selectable(rows, locked);
    assert forall i :: 0 <= i < |hs| ==> hs[i] in hs;
    assert forall h :: h in Batch(rows, locked) ==> h in hs;
  }

  lemma SplitStep(batch: seq<nat>, k: nat, accepts: nat -> bool)
    requires k < |batch| && forall i, j :: 0 <= i < j < |batch| ==> batch[i] < batch[j]
    ensures Accepted(batch[..k + 1], accepts) == Accepted(batch[..k], accepts) + if accepts(k) then {batch[k]} else {}
    ensures Refused(batch[..k + 1], accepts) == Refused(batch[..k], accepts) + if accepts(k) then {} else {batch[k]}
    ensures batch[k] !in Accepted(batch[..k], accepts) && batch[k] !in Refused(batch[..k], accepts)
  {
    assert batch[..k + 1][k] == batch[k];
    assert forall j :: 0 <= j < k ==> batch[..k + 1][j] == batch[..k][j];
  }

  lemma MarkOneMore(rows: seq<OutboxRow>, sent: set<nat>, failed: set<nat>, h: nat, accepted: bool)
    requires h < |rows| && h !in sent && h !in failed
    ensures Mark(rows, sent, failed)[h] == rows[h]
    ensures Mark(rows, sent + if accepted then {h} else {}, failed + if accepted then {} else {h}) ==
            Mark(rows, sent, failed)[h := MarkRow(rows[h], accepted, !accepted)]
  {
  }

  lemma TriedNone(rows: seq<OutboxRow>, accepts: nat -> bool)
    ensures Tried(rows, [], accepts) == rows
  {
  }

  lemma CopiesNone(rows: seq<OutboxRow>, accepts: nat -> bool)
    ensures Copies(rows, [], accepts) == []
  {
  }

  lemma StopsIff(accepts: nat -> bool, statementOk: nat -> bool, j: nat)
    ensures Stops(accepts, statementOk, j) <==> accepts(j) && !(forall i: nat :: i < j + 1 ==> statementOk(i))
  {
  }

  /** Trying one more message extends the copies and the two mark sets by it. */
  lemma PassStep(rows: seq<OutboxRow>, batch: seq<nat>, k: nat, accepts: nat -> bool)
    requires batch == Batch(rows, {}) && k < |batch|
    ensures InTable(rows, batch)
    ensures Copies(rows, batch[..k + 1], accepts) ==
            Copies(rows, batch[..k], accepts) + if accepts(k) then [rows[batch[k]].event] else []
    ensures Tried(rows, batch[..k], accepts)[batch[k]] == rows[batch[k]]
    ensures Tried(rows, batch[..k + 1], accepts) ==
            Tried(rows, batch[..k], accepts)[batch[k] := MarkRow(rows[batch[k]], accepts(k), !accepts(k))]
  {
    hide Batch, Accepted, Refused, Mark;
    BatchInTable(rows, {});
    assert batch[..k + 1][..k] == batch[..k];
    SplitStep(batch, k, accepts);
    MarkOneMore(rows, Accepted(batch[..k], accepts), Refused(batch[..k], accepts), batch[k], accepts(k));
  }

  // ----- what is selected and written, row by row

  /** The rows that the query may return. */
  predicate Due(row: OutboxRow) {
    row.status == RowStatus.Pending && row.retryCount < 5
  }

  /** The rows before `h` that the query may return and nobody has locked. */
  function Older(rows: seq<OutboxRow>, locked: set<nat>, h: nat): set<nat>
    requires h <= |rows|
  {
    set k: nat | k < h && Counts(rows, locked, k)
  }

  predicate Counts(rows: seq<OutboxRow>, locked: set<nat>, k: nat)
    requires k < |rows|
  {
    Due(rows[k]) && k !in locked
  }

  lemma {:induction false} OlderCount(rows: seq<OutboxRow>, locked: set<nat>, h: nat)
    requires h <= |rows|
    ensures |Older(rows, locked, h)| == |Selectable(rows[..h], locked)|
  {
    if h == 0 {
      assert Older(rows, locked, 0) == {};
    } else {
      hide Selectable, Older, Due, Eligible;
      OlderCount(rows, locked, h - 1);
      SelectableStep(rows, h - 1, locked);
      OlderStep(rows, locked, h - 1);
      DueIsEligible(rows[h - 1]);
    }
  }

  lemma DueIsEligible(row: OutboxRow)
    ensures Due(row) <==> Eligible(row)
  {
  }

  lemma OlderStep(rows: seq<OutboxRow>, locked: set<nat>, h: nat)
    requires h < |rows|
    ensures |Older(rows, locked, h + 1)| ==
            |Older(rows, locked, h)| + if Counts(rows, locked, h) then 1 else 0
  {
    hide Counts;
    var before, after := Older(rows, locked, h), Older(rows, locked, h + 1);
    if Counts(rows, locked, h) {
      assert after == before + {h} && h !in before;
    } else {
      assert after == before;
    }
  }

  /** A row is in the batch exactly when it is PENDING with fewer than five retries, not locked,
      and fewer than a hundred such rows are older. */
  lemma BatchIsOldest(rows: seq<OutboxRow>, locked: set<nat>, h: nat)
    ensures h in Batch(rows, locked) <==>
            h < |rows| && Due(rows[h]) && h !in locked && |Older(rows, locked, h)| < 100
  {
    BatchInTable(rows, locked);
    var all, batch := Selectable(rows, locked), Batch(rows, locked);
    if h < |rows| && Due(rows[h]) && h !in locked {
      OlderCount(rows, locked, h);
      SelectableStep(rows, h, locked);
      SelectablePrefix(rows, h + 1, locked);
      var n := |Older(rows, locked, h)|;
      assert all[n] == Selectable(rows[..h + 1], locked)[n] == h;
      if h in batch {
        var j :| 0 <= j < |batch| && batch[j] == h;
        assert all[j] == h;
        assert j == n;
      }
      if n < |batch| {
        assert batch[n] == h;
      }
    }
  }

  /** After a committed pass the accepted rows are SENT with their retry counts kept, the refused
      ones are PENDING with one retry more, and no other row has changed. */
  lemma PassEffect(rows: seq<OutboxRow>, accepts: nat -> bool)
    ensures
      var (hs, rows') := (Batch(rows, {}), Tried(rows, Batch(rows, {}), accepts));
      && |rows'| == |rows|
      && (forall j: nat :: j < |hs| ==>
            && hs[j] < |rows|
            && var row := rows[hs[j]];
               rows'[hs[j]] == if accepts(j) then OutboxRow(row.event, RowStatus.Sent, row.retryCount)
                               else OutboxRow(row.event, RowStatus.Pending, row.retryCount + 1))
      && (forall h: nat :: h < |rows| && h !in hs ==> rows'[h] == rows[h])
  {
    hide Batch;
    var hs := Batch(rows, {});
    BatchInTable(rows, {});
    forall j: nat | j < |hs|
      ensures accepts(j) ==> hs[j] in Accepted(hs, accepts)
      ensures !accepts(j) ==> hs[j] in Refused(hs, accepts) && hs[j] !in Accepted(hs, accepts)
      ensures Due(rows[hs[j]])
    {
      assert hs[j] in hs;
    }
  }
}
