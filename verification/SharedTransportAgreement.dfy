/**
 * The server and the holders agree: with the gate open whenever there is a
 * session, the server has every channel somebody holds, and after a flush or
 * on a new session no other.
 */
module SharedTransportAgreement {
  import opened Common
  import opened SharedTransport
  import opened SharedTransportRuns

  // ---- In every run, whatever the gate does ---------------------------------------

  /**
   * Hold accounting: a channel's count is the releases of it not yet called, a
   * pending channel has a flush coming, and no unsubscribe goes out unmatched.
   * The server has exactly the channels sent in this session and those a shut
   * flush let go of.
   */
  lemma HoldsAreUncalledReleases(hasSend: bool, epoch: Option<int>, gateOpen: bool, immediate: bool, events: seq<Event>)
    requires EnabledAll(Fresh(hasSend, epoch, gateOpen), immediate, events)
    ensures var t := Run(Fresh(hasSend, epoch, gateOpen), immediate, events);
      && (forall c :: (if c in t.held then t.held[c].count else 0) == |Handles(t.live, c)|)
      && (t.pending != {} ==> t.flushScheduled)
      && Matched(t.wire)
      && (forall c :: c in Server(t.wire) <==> (c in t.held && t.held[c].sentIn.Some?) || c in t.leaked)
  {
    var t := Run(Fresh(hasSend, epoch, gateOpen), immediate, events);
    FreshIsInvariant(hasSend, epoch, gateOpen);
    RunKeepsInvariant(Fresh(hasSend, epoch, gateOpen), immediate, events);
    forall c
      ensures (if c in t.held then t.held[c].count else 0) == |Handles(t.live, c)|
      ensures c in Server(t.wire) <==> (c in t.held && t.held[c].sentIn.Some?) || c in t.leaked
    {
      assert SlotOk(SlotOf(t, c), SessionKey(t));
    }
  }

  lemma FreshIsInvariant(hasSend: bool, epoch: Option<int>, gateOpen: bool)
    ensures Invariant(Fresh(hasSend, epoch, gateOpen))
  {
  }

  /** Calling a release again changes nothing. */
  lemma ReleaseIsIdempotent(t: Transport, handle: nat, immediate: bool)
    ensures var t' := Release(t, handle, immediate); Release(t', handle, immediate) == t'
  {
    if handle in t.live { FlushEachFrame(LetGo(t, handle), [t.live[handle]]); }
  }

  /** An adapter's unsubscribe of a channel it does not hold reaches nobody else's hold. */
  lemma UnmatchedAdapterReleaseIsDropped(t: Transport, a: Adapter, c: string, immediate: bool)
    requires Stack(t, a, c) == []
    ensures AdapterRelease(t, a, c, immediate).(stacks := t.stacks) == t
  {
  }

  /** An adapter's unsubscribe of one channel leaves every other channel alone. */
  lemma AdapterReleaseSparesOthers(t: Transport, a: Adapter, c: string, immediate: bool, d: string)
    requires Invariant(t) && d != c
    ensures SlotOf(AdapterRelease(t, a, c, immediate), d) == SlotOf(t, d)
  {
    var list := Stack(t, a, c);
    if list != [] {
      assert HandleOk(t, t.stacks[(a, c)][|list| - 1], c);
      ReleaseOther(Pop(t, a, c), list[|list| - 1], immediate, c, d);
    }
  }

  lemma ReleaseOther(t: Transport, handle: nat, immediate: bool, c: string, d: string)
    requires d != c && (handle in t.live ==> t.live[handle] == c)
    ensures SlotOf(Release(t, handle, immediate), d) == SlotOf(t, d)
  {
    if handle in t.live {
      var t' := LetGo(t, handle);
      LetGoOther(t, handle, d);
      assert [c][..0] == [];
      assert FlushEach(t', [c]) == FlushOne(FlushEach(t', []), c) == FlushOne(t', c);
      FlushOneOther(t', c, d);
    }
  }

  lemma LetGoOther(t: Transport, handle: nat, d: string)
    requires handle in t.live && t.live[handle] != d
    ensures SlotOf(LetGo(t, handle), d) == SlotOf(t, d)
  {
  }

  /** A release followed by a hold of the same channel before the flush sends nothing and keeps the subscription. */
  lemma SameTickReholdIsSilent(t: Transport, handle: nat, service: Option<Service>)
    requires Invariant(t) && handle in t.live
    ensures var c := t.live[handle];
      && c in t.held
      && (t.held[c].sentIn.Some? ==>
            var t' := Hold(LetGo(t, handle), c, service);
            t'.wire == t.wire && t'.held == t.held && c !in t'.pending && Served(t'.wire, c).Some?)
  {
    var c := t.live[handle];
    assert SlotOk(SlotOf(t, c), SessionKey(t));
    assert handle in Handles(t.live, c);
    if t.held[c].sentIn.Some? {
      var t1 := LetGo(t, handle);
      assert t1.held[c] == t.held[c].(count := t.held[c].count - 1);
      assert Hold(t1, c, service).held == t.held;
    }
  }

  /** The first holder's service names the channel's frames while it is held, whatever later holders ask for. */
  lemma FirstHolderNamesService(t: Transport, c: string, first: Option<Service>, later: Option<Service>)
    requires c !in t.held && CanSubscribe(t)
    ensures var service := if first.Some? then first.value else if "pipeline:" <= c then Pipeline else Subscribe;
      var t1 := Hold(t, c, first);
      && t1.wire == t.wire + [Sub(service, c)]
      && Hold(t1, c, later).wire == t1.wire
      && Hold(t1, c, later).held[c] == Held(2, service, Some(SessionKey(t)))
  {
  }

  // ---- With the gate open ---------------------------------------------------------------

  /** There is a socket and its gate is open, unless there is no session yet. */
  predicate Open(t: Transport) {
    t.epoch == Some(0) || (t.hasSend && t.gateOpen)
  }

  ghost predicate OpenAlong(t: Transport, immediate: bool, events: seq<Event>)
    decreases |events|
  {
    Open(t) && (events != [] ==> OpenAlong(Step(t, immediate, events[0]), immediate, events[1..]))
  }

  predicate SentIfHeld(t: Transport, c: string) {
    c in t.held && t.held[c].count > 0 ==> t.held[c].sentIn.Some?
  }

  /** The server has every held channel, and none that was stranded. */
  ghost predicate Synced(t: Transport) {
    t.leaked == {} && (t.epoch != Some(0) ==> forall c :: SentIfHeld(t, c))
  }

  lemma HoldKeepsSynced(t: Transport, c: string, service: Option<Service>)
    requires Invariant(t) && Synced(t) && Open(t)
    ensures Synced(Hold(t, c, service))
  {
    var t' := Hold(t, c, service);
    HoldKeepsInvariant(t, c, service);
    forall d | t.epoch != Some(0) ensures SentIfHeld(t', d) {
      assert SentIfHeld(t, d);
    }
  }

  lemma LetGoKeepsSynced(t: Transport, handle: nat)
    requires Synced(t)
    ensures Synced(LetGo(t, handle))
  {
    var t' := LetGo(t, handle);
    forall d | t.epoch != Some(0) ensures SentIfHeld(t', d) {
      assert SentIfHeld(t, d);
    }
  }

  lemma FlushOneKeepsSynced(t: Transport, c: string)
    requires Invariant(t) && Synced(t) && Open(t)
    ensures Synced(FlushOne(t, c))
  {
    var t' := FlushOne(t, c);
    assert SlotOk(SlotOf(t, c), SessionKey(t));
    forall d | t.epoch != Some(0) ensures SentIfHeld(t', d) {
      assert SentIfHeld(t, d);
    }
  }

  lemma {:induction false} FlushEachKeepsSynced(t: Transport, order: seq<string>)
    requires Invariant(t) && Synced(t) && Open(t)
    ensures Synced(FlushEach(t, order))
  {
    if order != [] {
      var front := order[..|order| - 1];
      FlushEachKeepsInvariant(t, front);
      FlushEachKeepsSynced(t, front);
      FlushEachFrame(t, front);
      FlushOneKeepsSynced(FlushEach(t, front), order[|order| - 1]);
    }
  }

  lemma FlushAllKeepsSynced(t: Transport, order: seq<string>)
    requires Invariant(t) && Synced(t) && Open(t)
    ensures Synced(FlushAll(t, order))
  {
    FlushEachKeepsSynced(t, order);
    SameChannelsKeepSynced(FlushEach(t, order), FlushAll(t, order));
  }

  lemma ReleaseKeepsSynced(t: Transport, handle: nat, immediate: bool)
    requires Invariant(t) && Synced(t) && Open(t)
    ensures Synced(Release(t, handle, immediate))
  {
    LetGoKeepsInvariant(t, handle);
    LetGoKeepsSynced(t, handle);
    if handle in t.live { FlushAllKeepsSynced(LetGo(t, handle), [t.live[handle]]); }
  }

  /** Sending again: nothing is unsent or stranded by it, and where frames can go out every channel reached is sent. */
  lemma {:induction false} ResubscribeSends(t: Transport, order: seq<string>)
    ensures ResubscribeEach(t, order).leaked <= t.leaked
    ensures forall c :: SentIfHeld(t, c) ==> SentIfHeld(ResubscribeEach(t, order), c)
    ensures CanSubscribe(t) ==> forall c | c in order :: SentIfHeld(ResubscribeEach(t, order), c)
    ensures var t' := ResubscribeEach(t, order); t'.(held := t.held, wire := t.wire, leaked := t.leaked) == t
  {
    if order != [] {
      var front, last := order[..|order| - 1], order[|order| - 1];
      ResubscribeSends(t, front);
      var t1, t' := ResubscribeEach(t, front), ResubscribeEach(t, order);
      assert order == front + [last];
      forall c ensures SentIfHeld(t1, c) ==> SentIfHeld(t', c) {
      }
    }
  }

  lemma UpdateKeepsSynced(t: Transport, hasSend: Option<bool>, gateOpen: Option<bool>, epoch: Option<Option<int>>,
                          order: seq<string>)
    requires Invariant(t) && Synced(t) && Open(t)
    requires var t1 := Rebind(t, hasSend, gateOpen, epoch); Lists(order, t1.held.Keys) && Open(t1)
    ensures Synced(ResubscribeEach(Rebind(t, hasSend, gateOpen, epoch), order))
  {
    var t1 := Rebind(t, hasSend, gateOpen, epoch);
    var t' := ResubscribeEach(t1, order);
    ResubscribeSends(t1, order);
    forall c | t1.epoch != Some(0) ensures SentIfHeld(t', c) {
      if c in t1.held { assert c in order; }
    }
  }

  lemma StepKeepsSynced(t: Transport, immediate: bool, e: Event)
    requires Invariant(t) && Synced(t) && Enabled(t, e) && Open(t) && Open(Step(t, immediate, e))
    ensures Synced(Step(t, immediate, e))
  {
    match e
    case HoldEvent(c, service) => HoldKeepsSynced(t, c, service);
    case ReleaseEvent(handle) => ReleaseKeepsSynced(t, handle, immediate);
    case AdapterHoldEvent(a, c, service) =>
      HoldKeepsSynced(t, c, service);
      SameChannelsKeepSynced(Hold(t, c, service), Step(t, immediate, e));
    case AdapterReleaseEvent(a, c) =>
      SameChannelsKeepSynced(t, Pop(t, a, c));
      PopKeepsInvariant(t, a, c);
      if Stack(t, a, c) != [] {
        ReleaseKeepsSynced(Pop(t, a, c), Stack(t, a, c)[|Stack(t, a, c)| - 1], immediate);
      }
    case FlushEvent(order) => FlushAllKeepsSynced(t, order);
    case ResubscribeEvent(order) => UpdateKeepsSynced(t, None, None, None, order);
    case UpdateEvent(hasSend, gateOpen, epoch, order) =>
      ResubscribeSends(Rebind(t, hasSend, gateOpen, epoch), order);
      UpdateKeepsSynced(t, hasSend, gateOpen, epoch, order);
    case GateEvent(open) => SameChannelsKeepSynced(t, t.(gateOpen := open));
  }

  lemma SameChannelsKeepSynced(t: Transport, t': Transport)
    requires Synced(t) && t'.held == t.held && t'.leaked == t.leaked && t'.epoch == t.epoch
    ensures Synced(t')
  {
    forall c | t.epoch != Some(0) ensures SentIfHeld(t', c) {
      assert SentIfHeld(t, c);
    }
  }

  lemma {:induction false} RunKeepsSynced(t: Transport, immediate: bool, events: seq<Event>)
    requires Invariant(t) && Synced(t) && EnabledAll(t, immediate, events) && OpenAlong(t, immediate, events)
    ensures var t' := Run(t, immediate, events); Invariant(t') && Synced(t') && Open(t')
    decreases |events|
  {
    if events != [] {
      StepKeepsInvariant(t, immediate, events[0]);
      StepKeepsSynced(t, immediate, events[0]);
      RunKeepsSynced(Step(t, immediate, events[0]), immediate, events[1..]);
    }
  }

  lemma ServerOfSynced(t: Transport)
    requires Invariant(t) && Synced(t)
    ensures forall c :: c in Server(t.wire) <==> c in t.held && t.held[c].sentIn.Some?
    ensures t.epoch != Some(0) ==> t.live.Values <= Server(t.wire).Keys
    ensures t.epoch == Some(0) ==> Server(t.wire) == map[]
    ensures t.epoch != Some(0) && t.pending == {} ==> Server(t.wire).Keys == t.live.Values
  {
    forall c
      ensures c in Server(t.wire) <==> c in t.held && t.held[c].sentIn.Some?
      ensures t.epoch != Some(0) && c in t.live.Values ==> c in Server(t.wire)
      ensures t.epoch != Some(0) && t.pending == {} && c in Server(t.wire) ==> c in t.live.Values
    {
      assert SlotOk(SlotOf(t, c), SessionKey(t)) && (t.epoch != Some(0) ==> SentIfHeld(t, c));
      LiveValue(t.live, c);
    }
  }

  lemma LiveValue(live: map<nat, string>, c: string)
    ensures c in live.Values <==> Handles(live, c) != {}
  {
    if c in live.Values {
      var h :| h in live && live[h] == c;
      assert h in Handles(live, c);
    }
    if Handles(live, c) != {} {
      var h :| h in Handles(live, c);
      assert live[h] == c;
    }
  }

  /**
   * Server agreement, over every run with the gate open: the server has
   * exactly the channels marked sent in this session, among them every channel
   * somebody holds; and a flush leaves it exactly those, whatever epochs came
   * and went.
   */
  lemma ServerAgreesWithHolders(hasSend: bool, epoch: Option<int>, gateOpen: bool, immediate: bool,
                                events: seq<Event>, order: seq<string>)
    requires var t0 := Fresh(hasSend, epoch, gateOpen);
      EnabledAll(t0, immediate, events) && OpenAlong(t0, immediate, events)
      && Lists(order, Run(t0, immediate, events).pending)
    ensures var t := Run(Fresh(hasSend, epoch, gateOpen), immediate, events);
      && (forall c :: c in Server(t.wire) <==> c in t.held && t.held[c].sentIn.Some?)
      && (if t.epoch == Some(0) then Server(t.wire) == map[]
          else t.live.Values <= Server(t.wire).Keys
               && Server(FlushAll(t, order).wire).Keys == t.live.Values)
  {
    var t0 := Fresh(hasSend, epoch, gateOpen);
    var t := Run(t0, immediate, events);
    FreshIsInvariant(hasSend, epoch, gateOpen);
    RunKeepsSynced(t0, immediate, events);
    ServerOfSynced(t);
    FlushAllKeepsInvariant(t, order);
    FlushAllKeepsSynced(t, order);
    FlushEachFrame(t, order);
    ServerOfSynced(FlushAll(t, order));
  }

  /** A new session epoch starts the server with exactly the channels somebody holds. */
  lemma NewEpochResubscribesHolders(t: Transport, hasSend: Option<bool>, gateOpen: Option<bool>, epoch: Option<int>,
                                    order: seq<string>)
    requires Invariant(t) && Synced(t) && Open(t) && epoch != t.epoch && epoch != Some(0)
    requires var t1 := Rebind(t, hasSend, gateOpen, Some(epoch)); Lists(order, t1.held.Keys) && Open(t1)
    ensures var t' := Step(t, false, UpdateEvent(hasSend, gateOpen, Some(epoch), order));
      Server(t'.wire).Keys == t.live.Values && t'.live == t.live
  {
    var t1 := Rebind(t, hasSend, gateOpen, Some(epoch));
    RebindKeepsInvariant(t, hasSend, gateOpen, Some(epoch));
    ResubscribeKeepsInvariant(t1, order);
    UpdateKeepsSynced(t, hasSend, gateOpen, Some(epoch), order);
    forall c ensures c !in t1.pending {
      assert SlotOk(SlotOf(t, c), SessionKey(t));
    }
    ServerOfSynced(ResubscribeEach(t1, order));
  }

  // ---- What a shut gate leaves behind ------------------------------------------------

  /** The channel is pending, this session subscribed it, and no frame can go out: its flush says nothing to the server. */
  predicate Strands(t: Transport, c: string) {
    !CanSubscribe(t) && NeedsLeaving(t, c)
  }

  lemma {:induction false} FlushEachOther(t: Transport, order: seq<string>, d: string)
    requires d !in order
    ensures SlotOf(FlushEach(t, order), d) == SlotOf(t, d)
  {
    if order != [] {
      var front, last := order[..|order| - 1], order[|order| - 1];
      assert order == front + [last];
      FlushEachOther(t, front, d);
      FlushOneOther(FlushEach(t, front), last, d);
    }
  }

  /** What flushing a list of channels makes of one of them. */
  lemma {:induction false} FlushEachSlot(t: Transport, order: seq<string>, c: string)
    requires c in order && forall i, j | 0 <= i < j < |order| :: order[i] != order[j]
    ensures SlotOf(FlushEach(t, order), c) == SlotOf(FlushOne(t, c), c)
  {
    var front, last := order[..|order| - 1], order[|order| - 1];
    var t1 := FlushEach(t, front);
    assert order == front + [last];
    FlushEachFrame(t, front);
    if c == last {
      FlushEachOther(t, front, c);
      FlushOneReadsSlot(t, t1, c);
    } else {
      FlushEachSlot(t, front, c);
      FlushOneOther(t1, last, c);
    }
  }

  lemma FlushOneReadsSlot(t: Transport, t': Transport, c: string)
    requires SlotOf(t, c) == SlotOf(t', c) && SessionKey(t) == SessionKey(t') && CanSubscribe(t) == CanSubscribe(t')
    ensures SlotOf(FlushOne(t, c), c) == SlotOf(FlushOne(t', c), c)
  {
    if c in t.held {
      ServerSnoc(t.wire, Unsub(t.held[c].service, c));
      ServerSnoc(t'.wire, Unsub(t.held[c].service, c));
    }
  }

  /** After a flush a channel is on the server and unheld exactly when the flush stranded it. */
  lemma FlushLeaves(t: Transport, order: seq<string>, c: string)
    requires Invariant(t) && Synced(t) && t.epoch != Some(0) && Lists(order, t.pending)
    ensures var t' := FlushAll(t, order);
      c in Server(t'.wire) <==> c in t'.live.Values || (c in t.pending && Strands(t, c))
    ensures Strands(t, c) ==> c !in t.live.Values
  {
    var t' := FlushAll(t, order);
    FlushEachFrame(t, order);
    LiveValue(t.live, c);
    assert SlotOk(SlotOf(t, c), SessionKey(t)) && SentIfHeld(t, c);
    if c in order {
      FlushEachSlot(t, order, c);
      FlushOneSlot(t, c);
    } else {
      FlushEachOther(t, order, c);
    }
    assert SlotOf(t', c) == SlotOf(FlushEach(t, order), c);
  }

  /**
   * A flush leaves the server with exactly the channels somebody holds, or else
   * it was shut in with a pending channel that this session had subscribed: then
   * the server keeps that channel and nobody here knows of it.
   */
  lemma FlushAgreesExactlyUnlessShut(t: Transport, order: seq<string>)
    requires Invariant(t) && Synced(t) && t.epoch != Some(0) && Lists(order, t.pending)
    ensures Server(FlushAll(t, order).wire).Keys == FlushAll(t, order).live.Values
       <==> CanSubscribe(t) || forall c | c in t.pending && c in t.held :: t.held[c].sentIn.None?
  {
    var t' := FlushAll(t, order);
    FlushEachFrame(t, order);
    forall c
      ensures c in Server(t'.wire) <==> c in t'.live.Values || (c in t.pending && Strands(t, c))
      ensures Strands(t, c) ==> c !in t'.live.Values
      ensures c in t.pending && c in t.held && t.held[c].sentIn.Some? && !CanSubscribe(t) <==> c in t.pending && Strands(t, c)
    {
      FlushLeaves(t, order, c);
      assert SlotOk(SlotOf(t, c), SessionKey(t));
    }
  }

  const SHUT_FLUSH: seq<Event> := [HoldEvent("room", None), GateEvent(false), ReleaseEvent(0), FlushEvent(["room"])]

  /** One hold, let go while the gate is shut: the server still has the channel, and nobody holds it. */
  lemma ShutFlushStrandsChannel()
    ensures var t := Run(Fresh(true, Some(1), true), false, SHUT_FLUSH);
      "room" in Server(t.wire) && t.live == map[] && t.held == map[]
  {
  }
}
