/**
 * What every run of the shared transport keeps: hold counts are the releases
 * not yet called, and the server's subscriptions are the channels the
 * transport marked sent.
 */
module SharedTransportRuns {
  import opened Common
  import opened SharedTransport

  // ---- The server's side ----------------------------------------------------------

  function Heard(subs: map<string, Service>, f: Frame): map<string, Service> {
    match f
    case Sub(service, c) => subs[c := service]
    case Unsub(_, c) => subs - {c}
  }

  /** The subscriptions of a server that has read `wire`, one per channel. */
  function Server(wire: seq<Frame>): map<string, Service> {
    if wire == [] then map[] else Heard(Server(wire[..|wire| - 1]), wire[|wire| - 1])
  }

  lemma ServerSnoc(wire: seq<Frame>, f: Frame)
    ensures Server(wire + [f]) == Heard(Server(wire), f)
  {
  }

  /** Every unsubscribe leaves a subscription of that channel and service that is still open. */
  ghost predicate Matched(wire: seq<Frame>) {
    forall i | 0 <= i < |wire| && wire[i].Unsub? :: MatchedAt(wire, i)
  }

  predicate MatchedAt(wire: seq<Frame>, i: nat)
    requires i < |wire|
  {
    var subs := Server(wire[..i]);
    wire[i].channel in subs && subs[wire[i].channel] == wire[i].service
  }

  lemma MatchedSnoc(wire: seq<Frame>, f: Frame)
    requires Matched(wire)
    requires f.Unsub? ==> f.channel in Server(wire) && Server(wire)[f.channel] == f.service
    ensures Matched(wire + [f])
  {
    var longer := wire + [f];
    forall i | 0 <= i < |longer| && longer[i].Unsub? ensures MatchedAt(longer, i) {
      assert longer[..i] == wire[..i];
      if i < |wire| { assert MatchedAt(wire, i); } else { assert wire[..i] == wire; }
    }
  }

  // ---- One channel at a time ---------------------------------------------------------

  datatype Slot = Slot(held: Option<Held>, pending: bool, leaked: bool, served: Option<Service>, handles: set<nat>)

  function Handles(live: map<nat, string>, c: string): set<nat> {
    set h | h in live && live[h] == c
  }

  function Served(wire: seq<Frame>, c: string): Option<Service> {
    if c in Server(wire) then Some(Server(wire)[c]) else None
  }

  function SlotOf(t: Transport, c: string): Slot {
    Slot(if c in t.held then Some(t.held[c]) else None, c in t.pending, c in t.leaked, Served(t.wire, c),
         Handles(t.live, c))
  }

  /**
   * The count is the number of releases not yet called; a channel waits for a
   * flush exactly when that is none; and the server has the channel exactly
   * when this session sent it, or leaked it.
   */
  predicate SlotOk(s: Slot, key: int) {
    match s.held
    case None => !s.pending && s.handles == {} && (s.served.Some? <==> s.leaked)
    case Some(h) =>
      && h.count == |s.handles|
      && (s.pending <==> h.count == 0)
      && (h.sentIn == None || h.sentIn == Some(key))
      && (if h.sentIn.Some? then s.served == Some(h.service) && !s.leaked else (s.served.Some? <==> s.leaked))
  }

  ghost predicate Invariant(t: Transport) {
    && (forall c :: SlotOk(SlotOf(t, c), SessionKey(t)))
    && (t.pending != {} ==> t.flushScheduled)
    && Rest(t)
  }

  /** The parts of the invariant that are about no single channel. */
  ghost predicate Rest(t: Transport) {
    && Matched(t.wire)
    && (forall h | h in t.live :: h < t.next)
    && (t.epoch == Some(0) ==> t.wire == [])
    && StacksOk(t)
  }

  /** A release in an adapter's stack, if not yet called, is a hold of that stack's channel. */
  ghost predicate StacksOk(t: Transport) {
    forall a, c, i | (a, c) in t.stacks && 0 <= i < |t.stacks[(a, c)]| :: HandleOk(t, t.stacks[(a, c)][i], c)
  }

  predicate HandleOk(t: Transport, handle: nat, c: string) {
    handle < t.next && (handle in t.live ==> t.live[handle] == c)
  }

  // ---- Sending ---------------------------------------------------------------------

  /** The same channels held, pending and leaving, with the subscribe frame out where it can go out. */
  lemma SendKeeps(t: Transport, c: string)
    requires c in t.held && Rest(t)
    ensures Rest(SendSubscribe(t, c))
    ensures forall d | d != c :: SlotOf(SendSubscribe(t, c), d) == SlotOf(t, d)
  {
    var t' := SendSubscribe(t, c);
    if t' != t {
      ServerSnoc(t.wire, Sub(t.held[c].service, c));
      MatchedSnoc(t.wire, Sub(t.held[c].service, c));
      StacksFollow(t, t');
    }
  }

  lemma SendSlot(t: Transport, c: string)
    requires c in t.held && SlotOk(SlotOf(t, c), SessionKey(t))
    ensures SlotOk(SlotOf(SendSubscribe(t, c), c), SessionKey(t))
    ensures CanSubscribe(t) ==> SendSubscribe(t, c).held[c].sentIn.Some?
  {
  }

  /** Adapter stacks stay right while holds only come with fresh numbers and go. */
  lemma StacksFollow(t: Transport, t': Transport)
    requires StacksOk(t) && t'.stacks == t.stacks && t.next <= t'.next
    requires forall h | h in t'.live && h < t.next :: h in t.live && t'.live[h] == t.live[h]
    ensures StacksOk(t')
  {
  }

  // ---- Holding ----------------------------------------------------------------------

  /** `Hold` before its frame is sent. */
  function Held1(t: Transport, c: string, service: Option<Service>): Transport {
    var h := if c in t.held then t.held[c]
             else Held(0, if service.Some? then service.value else DefaultService(c), None);
    t.(held := t.held[c := h.(count := h.count + 1)], pending := t.pending - {c},
       live := t.live[t.next := c], next := t.next + 1)
  }

  lemma HandlesAdded(live: map<nat, string>, handle: nat, c: string, d: string)
    requires handle !in live
    ensures Handles(live[handle := c], d) == if d == c then Handles(live, d) + {handle} else Handles(live, d)
  {
  }

  lemma HandlesDropped(live: map<nat, string>, handle: nat, d: string)
    requires handle in live
    ensures Handles(live - {handle}, d) == if d == live[handle] then Handles(live, d) - {handle} else Handles(live, d)
  {
  }

  lemma HoldSlot(t: Transport, c: string, service: Option<Service>, d: string)
    requires Invariant(t)
    ensures SlotOk(SlotOf(Held1(t, c, service), d), SessionKey(t))
  {
    assert SlotOk(SlotOf(t, d), SessionKey(t));
    HandlesAdded(t.live, t.next, c, d);
  }

  lemma HeldRest(t: Transport, c: string, service: Option<Service>)
    requires Invariant(t)
    ensures Rest(Held1(t, c, service))
  {
    StacksFollow(t, Held1(t, c, service));
  }

  lemma HoldSends(t: Transport, c: string, service: Option<Service>)
    requires Invariant(t)
    ensures var t' := Hold(t, c, service);
      && Rest(t') && SessionKey(t') == SessionKey(t) && t'.pending <= t.pending && t'.flushScheduled == t.flushScheduled
      && (CanSubscribe(t) ==> t'.held[c].sentIn.Some?)
  {
    HeldRest(t, c, service);
    SendKeeps(Held1(t, c, service), c);
    HoldSlot(t, c, service, c);
    SendSlot(Held1(t, c, service), c);
  }

  lemma HoldSlotSent(t: Transport, c: string, service: Option<Service>, d: string)
    requires Invariant(t)
    ensures SlotOk(SlotOf(Hold(t, c, service), d), SessionKey(t))
  {
    var t1 := Held1(t, c, service);
    HeldRest(t, c, service);
    HoldSlot(t, c, service, d);
    if d == c { SendSlot(t1, c); } else { SendKeeps(t1, c); }
  }

  lemma HoldKeepsInvariant(t: Transport, c: string, service: Option<Service>)
    requires Invariant(t)
    ensures Invariant(Hold(t, c, service))
    ensures CanSubscribe(t) ==> Hold(t, c, service).held[c].sentIn.Some?
  {
    HoldSends(t, c, service);
    forall d ensures SlotOk(SlotOf(Hold(t, c, service), d), SessionKey(t)) {
      HoldSlotSent(t, c, service, d);
    }
  }

  // ---- Letting go --------------------------------------------------------------------

  lemma LetGoSlot(t: Transport, handle: nat, d: string)
    requires SlotOk(SlotOf(t, d), SessionKey(t)) && handle in t.live
    ensures SlotOk(SlotOf(LetGo(t, handle), d), SessionKey(t))
  {
    var c, t' := t.live[handle], LetGo(t, handle);
    HandlesDropped(t.live, handle, d);
    if d == c {
      assert handle in Handles(t.live, c);
      assert SlotOf(t', c).handles == SlotOf(t, c).handles - {handle};
    } else {
      assert SlotOf(t', d) == SlotOf(t, d);
    }
  }

  lemma LetGoKeepsInvariant(t: Transport, handle: nat)
    requires Invariant(t)
    ensures Invariant(LetGo(t, handle))
  {
    if handle in t.live {
      var t' := LetGo(t, handle);
      StacksFollow(t, t');
      forall d ensures SlotOk(SlotOf(t', d), SessionKey(t')) {
        assert SlotOk(SlotOf(t, d), SessionKey(t));
        LetGoSlot(t, handle, d);
      }
    }
  }

  lemma FlushOneOther(t: Transport, c: string, d: string)
    requires d != c
    ensures SlotOf(FlushOne(t, c), d) == SlotOf(t, d)
  {
  }

  lemma FlushOneSlot(t: Transport, c: string)
    requires SlotOk(SlotOf(t, c), SessionKey(t))
    ensures SlotOk(SlotOf(FlushOne(t, c), c), SessionKey(t))
  {
  }

  lemma FlushOneMatches(t: Transport, c: string)
    requires SlotOk(SlotOf(t, c), SessionKey(t)) && Matched(t.wire)
    ensures Matched(FlushOne(t, c).wire)
  {
    if c in t.held && t.held[c].sentIn == Some(SessionKey(t)) {
      assert Served(t.wire, c) == Some(t.held[c].service);
      MatchedSnoc(t.wire, Unsub(t.held[c].service, c));
    }
  }

  lemma FlushOneKeepsRest(t: Transport, c: string)
    requires SlotOk(SlotOf(t, c), SessionKey(t)) && Rest(t)
    ensures Rest(FlushOne(t, c))
  {
    var t' := FlushOne(t, c);
    assert t'.epoch == t.epoch && t'.live == t.live && t'.next == t.next
           && t'.stacks == t.stacks && (t'.wire == t.wire || CanSubscribe(t));
    StacksFollow(t, t');
    FlushOneMatches(t, c);
  }

  lemma FlushOneKeepsInvariant(t: Transport, c: string)
    requires Invariant(t)
    ensures Invariant(FlushOne(t, c))
  {
    var t' := FlushOne(t, c);
    FlushOneKeepsRest(t, c);
    FlushOneSlot(t, c);
    forall d ensures SlotOk(SlotOf(t', d), SessionKey(t')) {
      assert SlotOk(SlotOf(t, d), SessionKey(t));
      if d != c { FlushOneOther(t, c, d); }
    }
  }

  lemma {:induction false} FlushEachKeepsInvariant(t: Transport, order: seq<string>)
    requires Invariant(t)
    ensures Invariant(FlushEach(t, order))
  {
    if order != [] {
      FlushEachKeepsInvariant(t, order[..|order| - 1]);
      FlushOneKeepsInvariant(FlushEach(t, order[..|order| - 1]), order[|order| - 1]);
    }
  }

  lemma {:induction false} FlushEachFrame(t: Transport, order: seq<string>)
    ensures FlushEach(t, order).pending == t.pending - (set c | c in order)
    ensures FlushEach(t, order).(held := t.held, pending := t.pending, wire := t.wire, leaked := t.leaked) == t
  {
    if order == [] {
      assert t.pending - (set c | c in order) == t.pending;
    } else {
      var front, last := order[..|order| - 1], order[|order| - 1];
      FlushEachFrame(t, front);
      assert order == front + [last];
      assert t.pending - (set c | c in front) - {last} == t.pending - (set c | c in order);
    }
  }

  lemma FlushAllKeepsInvariant(t: Transport, order: seq<string>)
    requires Invariant(t) && t.pending <= set c | c in order
    ensures Invariant(FlushAll(t, order)) && FlushAll(t, order).pending == {}
  {
    FlushEachKeepsInvariant(t, order);
    FlushEachFrame(t, order);
    var t1, t2 := FlushEach(t, order), FlushAll(t, order);
    StacksFollow(t1, t2);
    forall d ensures SlotOk(SlotOf(t2, d), SessionKey(t2)) {
      assert SlotOk(SlotOf(t1, d), SessionKey(t1));
    }
  }

  lemma ReleaseKeepsInvariant(t: Transport, handle: nat, immediate: bool)
    requires Invariant(t)
    ensures Invariant(Release(t, handle, immediate))
  {
    LetGoKeepsInvariant(t, handle);
    var t' := LetGo(t, handle);
    if handle in t.live && !t.flushScheduled && t.live[handle] in t'.pending {
      FlushAllKeepsInvariant(t', [t.live[handle]]);
    }
  }

  // ---- Sending again --------------------------------------------------------------------

  lemma {:induction false} ResubscribeKeepsInvariant(t: Transport, order: seq<string>)
    requires Invariant(t)
    ensures Invariant(ResubscribeEach(t, order))
    ensures var t' := ResubscribeEach(t, order); t'.(held := t.held, wire := t.wire, leaked := t.leaked) == t
    ensures forall c | c in t.held :: ResubscribeEach(t, order).held[c].count == t.held[c].count
  {
    if order != [] {
      var c := order[|order| - 1];
      ResubscribeKeepsInvariant(t, order[..|order| - 1]);
      var t1 := ResubscribeEach(t, order[..|order| - 1]);
      if c in t1.held {
        SendKeeps(t1, c);
        SendSlot(t1, c);
        forall d ensures SlotOk(SlotOf(SendSubscribe(t1, c), d), SessionKey(t)) {
          assert SlotOk(SlotOf(t1, d), SessionKey(t1));
        }
      }
    }
  }

  lemma FlagsKeepInvariant(t: Transport, hasSend: bool, gateOpen: bool)
    requires Invariant(t)
    ensures Invariant(t.(hasSend := hasSend, gateOpen := gateOpen))
  {
    var t' := t.(hasSend := hasSend, gateOpen := gateOpen);
    StacksFollow(t, t');
    forall d ensures SlotOk(SlotOf(t', d), SessionKey(t')) {
      assert SlotOk(SlotOf(t, d), SessionKey(t));
    }
  }

  lemma NewSessionSlot(t: Transport, epoch: Option<int>, d: string)
    requires SlotOk(SlotOf(t, d), SessionKey(t))
    ensures SlotOk(SlotOf(NewSession(t, epoch), d), SessionKey(NewSession(t, epoch)))
  {
  }

  lemma NewSessionKeepsInvariant(t: Transport, epoch: Option<int>)
    requires Invariant(t)
    ensures Invariant(NewSession(t, epoch))
  {
    var t' := NewSession(t, epoch);
    StacksFollow(t, t');
    forall d ensures SlotOk(SlotOf(t', d), SessionKey(t')) {
      assert SlotOk(SlotOf(t, d), SessionKey(t));
      NewSessionSlot(t, epoch, d);
    }
  }

  lemma RebindKeepsInvariant(t: Transport, hasSend: Option<bool>, gateOpen: Option<bool>, epoch: Option<Option<int>>)
    requires Invariant(t)
    ensures Invariant(Rebind(t, hasSend, gateOpen, epoch))
  {
    var t1 := Rebind(t, hasSend, gateOpen, None);
    FlagsKeepInvariant(t, t1.hasSend, t1.gateOpen);
    if epoch.Some? && epoch.value != t.epoch { NewSessionKeepsInvariant(t1, epoch.value); }
  }

  // ---- Adapters ----------------------------------------------------------------------------

  /** Only the adapters' stacks change, and stay right. */
  lemma RestackKeepsInvariant(t: Transport, t': Transport)
    requires Invariant(t) && t' == t.(stacks := t'.stacks) && StacksOk(t')
    ensures Invariant(t')
  {
    forall c ensures SlotOk(SlotOf(t', c), SessionKey(t')) {
      assert SlotOk(SlotOf(t, c), SessionKey(t));
    }
  }

  lemma AdapterHoldKeepsInvariant(t: Transport, a: Adapter, c: string, service: Option<Service>)
    requires Invariant(t)
    ensures Invariant(AdapterHold(t, a, c, service))
  {
    HoldKeepsInvariant(t, c, service);
    var t1, t' := Hold(t, c, service), AdapterHold(t, a, c, service);
    forall b, d, i | (b, d) in t'.stacks && 0 <= i < |t'.stacks[(b, d)]| ensures HandleOk(t', t'.stacks[(b, d)][i], d) {
      if (b, d) in t.stacks && i < |t.stacks[(b, d)]| { assert HandleOk(t1, t1.stacks[(b, d)][i], d); }
    }
    RestackKeepsInvariant(t1, t');
  }

  lemma PopKeepsInvariant(t: Transport, a: Adapter, c: string)
    requires Invariant(t)
    ensures Invariant(Pop(t, a, c))
  {
    var t' := Pop(t, a, c);
    forall b, d, i | (b, d) in t'.stacks && 0 <= i < |t'.stacks[(b, d)]| ensures HandleOk(t', t'.stacks[(b, d)][i], d) {
      assert HandleOk(t, t.stacks[(b, d)][i], d);
    }
    RestackKeepsInvariant(t, t');
  }

  lemma AdapterReleaseKeepsInvariant(t: Transport, a: Adapter, c: string, immediate: bool)
    requires Invariant(t)
    ensures Invariant(AdapterRelease(t, a, c, immediate))
  {
    PopKeepsInvariant(t, a, c);
    var list := Stack(t, a, c);
    if list != [] {
      ReleaseKeepsInvariant(Pop(t, a, c), list[|list| - 1], immediate);
    }
  }

  // ---- Every run --------------------------------------------------------------------------------

  lemma StepKeepsInvariant(t: Transport, immediate: bool, e: Event)
    requires Invariant(t) && Enabled(t, e)
    ensures Invariant(Step(t, immediate, e))
  {
    match e
    case HoldEvent(c, service) => HoldKeepsInvariant(t, c, service);
    case ReleaseEvent(handle) => ReleaseKeepsInvariant(t, handle, immediate);
    case AdapterHoldEvent(a, c, service) => AdapterHoldKeepsInvariant(t, a, c, service);
    case AdapterReleaseEvent(a, c) => AdapterReleaseKeepsInvariant(t, a, c, immediate);
    case FlushEvent(order) => FlushAllKeepsInvariant(t, order);
    case ResubscribeEvent(order) => ResubscribeKeepsInvariant(t, order);
    case UpdateEvent(hasSend, gateOpen, epoch, order) =>
      RebindKeepsInvariant(t, hasSend, gateOpen, epoch);
      ResubscribeKeepsInvariant(Rebind(t, hasSend, gateOpen, epoch), order);
    case GateEvent(open) => FlagsKeepInvariant(t, t.hasSend, open);
  }

  lemma {:induction false} RunKeepsInvariant(t: Transport, immediate: bool, events: seq<Event>)
    requires Invariant(t) && EnabledAll(t, immediate, events)
    ensures Invariant(Run(t, immediate, events))
    decreases |events|
  {
    if events != [] {
      StepKeepsInvariant(t, immediate, events[0]);
      RunKeepsInvariant(Step(t, immediate, events[0]), immediate, events[1..]);
    }
  }
}
