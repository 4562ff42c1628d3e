/** The outbox table as the relay's SQL statements see it. */
module OutboxTable {
  import opened SagaTypes

  const BATCH_LIMIT: nat := 100

  /** WHERE status = 'PENDING' AND retry_count < 5. */
  predicate Eligible(row: OutboxRow) {
    row.status == RowStatus.Pending && row.retryCount < MAX_RETRY_COUNT
  }

  /** The eligible rows that nobody has locked, oldest first. */
  function Selectable(rows: seq<OutboxRow>, locked: set<nat>): (hs: seq<nat>)
    ensures forall h: nat :: h in hs <==> h < |rows| && Eligible(rows[h]) && h !in locked
    ensures forall i, j :: 0 <= i < j < |hs| ==> hs[i] < hs[j]
  {
    if rows == [] then []
    else
      var n := |rows| - 1;
      var hs := Selectable(rows[..n], locked);
      assert forall i :: 0 <= i < |hs| ==> hs[i] in hs;
      if Eligible(rows[n]) && n !in locked then hs + [n] else hs
  }

  /** ORDER BY created_at LIMIT 100 FOR UPDATE SKIP LOCKED. */
  function Batch(rows: seq<OutboxRow>, locked: set<nat>): seq<nat> {
    var hs := Selectable(rows, locked);
    if |hs| <= BATCH_LIMIT then hs else hs[..BATCH_LIMIT]
  }

  /** What one committed relay pass does to the table: published rows become SENT, refused
      ones count a retry. */
  function Mark(rows: seq<OutboxRow>, sent: set<nat>, failed: set<nat>): (marked: seq<OutboxRow>)
    ensures |marked| == |rows|
    ensures forall i: nat :: i < |rows| ==> marked[i] == MarkRow(rows[i], i in sent, i in failed)
  {
    seq(|rows|, i requires 0 <= i < |rows| => MarkRow(rows[i], i in sent, i in failed))
  }

  function MarkRow(row: OutboxRow, sent: bool, failed: bool): OutboxRow {
    if sent then row.(status := RowStatus.Sent)
    else if failed then row.(retryCount := row.retryCount + 1)
    else row
  }
}
