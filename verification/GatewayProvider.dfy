/**
 * The provider of src/client/GatewayProvider.ts as it runs: batch, pending
 * entries and state updated in place. Each operation is proved to take the
 * outbox exactly one step of `Outbox`.
 */
module GatewayProviderHost {
  import opened Common
  import opened Outbox

  class GatewayProvider<U(==)> {
    var batch: seq<U>
    var flushTimer: bool
    var pendingUpdates: map<nat, seq<U>>
    var sequence: nat
    var persistenceState: Status
    ghost var wire: seq<Sent<U>>

    ghost function Contents(): Outbox<U>
      reads this
    {
      Outbox(batch, flushTimer, pendingUpdates, sequence, persistenceState, wire)
    }

    constructor ()
      ensures Contents() == Empty()
    {
      batch, flushTimer, pendingUpdates, sequence, persistenceState := [], false, map[], 0, Idle;
      wire := [];
    }

    method PendingUpdateCount() returns (count: nat)
      ensures count == PendingCount(Contents())
    {
      count := |pendingUpdates| + if batch != [] then 1 else 0;
    }

    /** A local change of the document. */
    method OnLocalUpdate(update: U)
      modifies this
      ensures Contents() == Edit(old(Contents()), update)
    {
      batch := batch + [update];
      persistenceState := Pending;
      flushTimer := true;
    }

    method SendPending(id: nat, ok: bool)
      requires id in pendingUpdates
      modifies `persistenceState, `wire
      ensures Contents() == Send(old(Contents()), id, ok)
    {
      persistenceState := Pending;
      wire := wire + [Sent(id, pendingUpdates[id])];
      if !ok { persistenceState := Failed; }
    }

    method FlushUpdates(ok: bool)
      modifies this
      ensures Contents() == Flush(old(Contents()), ok)
    {
      flushTimer := false;
      if batch == [] { return; }
      sequence := sequence + 1;
      var update := batch;
      batch := [];
      pendingUpdates := pendingUpdates[sequence := update];
      SendPending(sequence, ok);
    }

    /** Everything outstanding goes out again, oldest entry first. */
    method RetryPersistence(ok: bool, lost: set<nat>)
      modifies this
      ensures Contents() == Retry(old(Contents()), ok, lost)
    {
      FlushUpdates(ok);
      ghost var flushed := Contents();
      var id := 0;
      while id < sequence
        invariant 0 <= id <= sequence
        invariant Contents() == Resend(flushed, id, lost)
        invariant sequence == flushed.sequence && pendingUpdates == flushed.pending
      {
        id := id + 1;
        if id in pendingUpdates { SendPending(id, id !in lost); }
      }
    }

    method DiscardPendingUpdates()
      modifies this
      ensures Contents() == Discard(old(Contents()))
    {
      flushTimer := false;
      batch := [];
      pendingUpdates := map[];
      persistenceState := Idle;
    }

    method ApplyPersisted(id: nat)
      modifies this
      ensures Contents() == Persisted(old(Contents()), id)
    {
      if id !in pendingUpdates { return; }
      pendingUpdates := pendingUpdates - {id};
      var count := PendingUpdateCount();
      persistenceState := if count > 0 then Pending else Saved;
    }

    method ApplyPersistenceError(id: nat)
      modifies this
      ensures Contents() == Refused(old(Contents()), id)
    {
      if id in pendingUpdates { persistenceState := Failed; }
    }

    /** The server's snapshot: whatever is outstanding is sent again on top of it. */
    method ApplySnapshot(ok: bool, lost: set<nat>)
      modifies this
      ensures Contents() == Step(old(Contents()), SnapshotEvent(ok, lost))
    {
      var count := PendingUpdateCount();
      if count > 0 { RetryPersistence(ok, lost); }
    }
  }
}
