/** The idempotency table and the outbox table as a handler transaction sees them. */
module Messaging {
  import opened SagaTypes

  /** The part of an open transaction that pkg/outbox works on: its own versions of
      processed_events and outbox. They reach the database only when the caller commits. */
  class Tx {
    var processed: set<Id>
    var outbox: seq<OutboxRow>

    constructor Begin(processed: set<Id>, outbox: seq<OutboxRow>)
      ensures this.processed == processed && this.outbox == outbox
    {
      this.processed, this.outbox := processed, outbox;
    }

    /** Inserts the event id unless it is present; `marked` is the affected-rows test. */
    method CheckAndMark(eventId: Id) returns (marked: bool)
      modifies this`processed
      ensures marked <==> eventId !in old(processed)
      ensures processed == old(processed) + {eventId}
    {
      marked := eventId !in processed;
      if marked {
        processed := processed + {eventId};
      }
    }

    method PublishInTx(e: Event)
      modifies this`outbox
      ensures outbox == old(outbox) + [OutboxRow(e, RowStatus.Pending, 0)]
    {
      outbox := outbox + [NewRow(e)];
    }
  }
}
