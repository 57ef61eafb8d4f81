/**
 * The shared transport of src/client/sharedSocketTransport.ts as it runs: one
 * mutable record, updated in place. Each operation is proved to take it
 * exactly one step of `SharedTransport`.
 */
module SharedSocketHost {
  import opened Common
  import opened SharedTransport
  import Runs = SharedTransportRuns

  class SharedSocketTransport {
    var hasSend: bool
    var epoch: Option<int>
    /** What `isOpen()` answers. */
    var gateOpen: bool
    var held: map<string, Held>
    var pending: set<string>
    var flushScheduled: bool
    var live: map<nat, string>
    var next: nat
    var stacks: map<(Adapter, string), seq<nat>>
    /** `scheduleRelease` runs the flush at once. */
    const immediate: bool
    ghost var wire: seq<Frame>
    ghost var leaked: set<string>

    ghost function Contents(): Transport
      reads this
    {
      Transport(hasSend, epoch, gateOpen, held, pending, flushScheduled, live, next, stacks, wire, leaked)
    }

    ghost predicate Valid()
      reads this
    {
      pending != {} ==> flushScheduled
    }

    constructor (hasSend: bool, epoch: Option<int>, gateOpen: bool, immediate: bool)
      ensures Contents() == Fresh(hasSend, epoch, gateOpen) && this.immediate == immediate && Valid()
    {
      this.hasSend, this.epoch, this.gateOpen, this.immediate := hasSend, epoch, gateOpen, immediate;
      held, pending, flushScheduled, live, next, stacks, wire, leaked := map[], {}, false, map[], 0, map[], [], {};
    }

    method SessionKeyNow() returns (key: int)
      ensures key == SessionKey(Contents())
    {
      key := if epoch.None? then UNTRACKED else epoch.value;
    }

    method SendSubscribeFrame(c: string)
      requires c in held
      modifies `held, `wire, `leaked
      ensures Contents() == SendSubscribe(old(Contents()), c)
    {
      var key := SessionKeyNow();
      if held[c].sentIn == Some(key) || !hasSend || epoch == Some(0) || !gateOpen { return; }
      held := held[c := held[c].(sentIn := Some(key))];
      wire := wire + [Sub(held[c].service, c)];
      leaked := leaked - {c};
    }

    /** Hold a channel; the result is the number of the release. */
    method Subscribe(c: string, service: Option<Service>) returns (handle: nat)
      modifies this
      ensures handle == old(next) && Contents() == Hold(old(Contents()), c, service)
      ensures old(Valid()) ==> Valid()
    {
      var h: Held;
      if c in held {
        h := held[c];
      } else {
        h := Held(0, if service.Some? then service.value else DefaultService(c), None);
      }
      held := held[c := h.(count := h.count + 1)];
      pending := pending - {c};
      handle := next;
      live, next := live[handle := c], next + 1;
      SendSubscribeFrame(c);
    }

    /** The release closure with number `handle`. */
    method CallRelease(handle: nat)
      requires Valid()
      modifies this
      ensures Contents() == Release(old(Contents()), handle, immediate) && Valid()
    {
      if handle !in live { return; }
      var c := live[handle];
      live := live - {handle};
      if c !in held { return; }
      held := held[c := held[c].(count := held[c].count - 1)];
      if held[c].count > 0 {
        assert immediate && !old(flushScheduled) ==> old(pending) == {};
        return;
      }
      pending := pending + {c};
      if !flushScheduled {
        flushScheduled := true;
        if immediate {
          assert Contents() == LetGo(old(Contents()), handle) && pending == {c};
          ghost var order := Flush();
          OnlyOrder(order, c);
        }
      }
    }

    /** Send the pending last-release unsubscribes, in the order they are met. */
    method Flush() returns (ghost order: seq<string>)
      modifies this
      ensures Lists(order, old(pending)) && Contents() == FlushAll(old(Contents()), order) && Valid()
    {
      flushScheduled := false;
      var left := pending;
      pending := {};
      order := [];
      while left != {}
        invariant left <= old(pending) && Lists(order, old(pending) - left) && pending == {}
        invariant Contents() == Flushed(FlushEach(old(Contents()), order))
        decreases left
      {
        var c :| c in left;
        FlushedStep(FlushEach(old(Contents()), order), c);
        assert (order + [c])[..|order|] == order;
        LeaveChannel(c);
        order := order + [c];
        assert old(pending) - (left - {c}) == (old(pending) - left) + {c};
        left := left - {c};
      }
      assert old(pending) - left == old(pending);
      Runs.FlushEachFrame(old(Contents()), order);
      assert old(pending) - (set c | c in order) == {};
    }

    method LeaveChannel(c: string)
      requires pending == {}
      modifies `held, `wire, `leaked
      ensures Contents() == FlushOne(old(Contents()), c)
    {
      if c !in held || held[c].count > 0 { return; }
      var h := held[c];
      held := held - {c};
      var key := SessionKeyNow();
      if h.sentIn == Some(key) {
        if hasSend && epoch != Some(0) && gateOpen {
          wire := wire + [Unsub(h.service, c)];
        } else {
          leaked := leaked + {c};
        }
      }
    }

    /** Send the subscribe frame of every held channel again. */
    method Resubscribe() returns (ghost order: seq<string>)
      modifies `held, `wire, `leaked
      ensures Lists(order, old(held).Keys) && Contents() == ResubscribeEach(old(Contents()), order)
    {
      order := [];
      var left := held.Keys;
      while left != {}
        invariant left <= old(held).Keys && held.Keys == old(held).Keys && Lists(order, old(held).Keys - left)
        invariant Contents() == ResubscribeEach(old(Contents()), order)
        decreases left
      {
        var c :| c in left;
        assert (order + [c])[..|order|] == order;
        if held[c].count > 0 { SendSubscribeFrame(c); }
        order := order + [c];
        assert old(held).Keys - (left - {c}) == (old(held).Keys - left) + {c};
        left := left - {c};
      }
      assert old(held).Keys - left == old(held).Keys;
    }

    /** Re-bind the socket; a changed epoch starts a new session. */
    method Update(send: Option<bool>, gate: Option<bool>, sessionEpoch: Option<Option<int>>) returns (ghost order: seq<string>)
      modifies this
      ensures Lists(order, Rebind(old(Contents()), send, gate, sessionEpoch).held.Keys)
      ensures Contents() == ResubscribeEach(Rebind(old(Contents()), send, gate, sessionEpoch), order)
    {
      if send.Some? { hasSend := send.value; }
      if gate.Some? { gateOpen := gate.value; }
      if sessionEpoch.Some? && sessionEpoch.value != epoch {
        BeginSession(sessionEpoch.value);
      }
      order := Resubscribe();
    }

    /** What the old connection was subscribed to is gone with it. */
    method BeginSession(sessionEpoch: Option<int>)
      modifies this
      ensures Contents() == NewSession(old(Contents()), sessionEpoch)
    {
      epoch := sessionEpoch;
      wire, leaked := [], {};
      RenewHeld();
    }

    /** Held channels are unsent in the new session; those nobody holds are forgotten. */
    method RenewHeld()
      modifies this`held, this`pending
      ensures held == RenewedHeld(old(held), old(held).Keys)
      ensures pending == RenewedPending(old(held), old(pending), old(held).Keys)
    {
      var left := held.Keys;
      ghost var done: set<string> := {};
      RenewedNone(held, pending);
      while left != {}
        invariant left <= old(held).Keys && done == old(held).Keys - left
        invariant held == RenewedHeld(old(held), done)
        invariant pending == RenewedPending(old(held), old(pending), done)
        decreases left
      {
        var c :| c in left;
        RenewedStep(old(held), old(pending), done, c);
        var h := held[c].(sentIn := None);
        if h.count == 0 {
          held := held - {c};
          pending := pending - {c};
        } else {
          held := held[c := h];
        }
        left := left - {c};
        done := done + {c};
      }
    }

    /** An adapter's subscribe: a hold whose release goes on the adapter's stack. */
    method HoldThrough(a: Adapter, c: string, service: Option<Service>)
      modifies this
      ensures Contents() == AdapterHold(old(Contents()), a, c, service)
    {
      var list := if (a, c) in stacks then stacks[(a, c)] else [];
      var handle := Subscribe(c, service);
      stacks := stacks[(a, c) := list + [handle]];
    }

    /** An adapter's unsubscribe: its newest release of the channel, if it has one. */
    method ReleaseThrough(a: Adapter, c: string)
      requires Valid()
      modifies this
      ensures Contents() == AdapterRelease(old(Contents()), a, c, immediate) && Valid()
    {
      var list := if (a, c) in stacks then stacks[(a, c)] else [];
      if |list| <= 1 {
        stacks := stacks - {(a, c)};
      } else {
        stacks := stacks[(a, c) := list[..|list| - 1]];
      }
      if list != [] { CallRelease(list[|list| - 1]); }
    }
  }

  /** A state whose pending channels a flush has taken over. */
  function Flushed(t: Transport): Transport {
    t.(pending := {}, flushScheduled := false)
  }

  lemma FlushedStep(t: Transport, c: string)
    ensures FlushOne(Flushed(t), c) == Flushed(FlushOne(t, c))
  {
  }

  lemma OnlyOrder(order: seq<string>, c: string)
    requires Lists(order, {c})
    ensures order == [c]
  {
    assert c in order && |order| > 0;
    var first, second := order[0], if |order| > 1 then order[1] else c;
    assert first in order && second in order;
  }

  /** What the loop over held channels leaves once it has been through `done`. */
  function RenewedHeld(held: map<string, Held>, done: set<string>): map<string, Held> {
    map c | c in held && !(c in done && held[c].count == 0) ::
      if c in done then held[c].(sentIn := None) else held[c]
  }

  function RenewedPending(held: map<string, Held>, pending: set<string>, done: set<string>): set<string> {
    set c | c in pending && !(c in done && c in held && held[c].count == 0)
  }

  lemma RenewedNone(held: map<string, Held>, pending: set<string>)
    ensures RenewedHeld(held, {}) == held && RenewedPending(held, pending, {}) == pending
  {
  }

  lemma RenewedStep(held: map<string, Held>, pending: set<string>, done: set<string>, c: string)
    requires c in held && c !in done
    ensures c in RenewedHeld(held, done) && RenewedHeld(held, done)[c] == held[c]
    ensures RenewedHeld(held, done + {c})
         == if held[c].count == 0 then RenewedHeld(held, done) - {c} else RenewedHeld(held, done)[c := held[c].(sentIn := None)]
    ensures RenewedPending(held, pending, done + {c})
         == if held[c].count == 0 then RenewedPending(held, pending, done) - {c} else RenewedPending(held, pending, done)
  {
  }
}
