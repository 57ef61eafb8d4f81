/**
 * One host socket shared by several consumers
 * (src/client/sharedSocketTransport.ts): reference-counted channel holds, sent
 * again on every new session epoch, with the last release's unsubscribe
 * deferred to a flush.
 */
module SharedTransport {
  import opened Common

  datatype Service = Pipeline | Subscribe

  datatype Frame = Sub(service: Service, channel: string) | Unsub(service: Service, channel: string)

  datatype Held = Held(count: int, service: Service, sentIn: Option<int>)

  datatype Adapter = PipelineAdapter | ChannelAdapter

  /** The session key when the host gives no epoch. */
  const UNTRACKED := -1

  /**
   * `live` is the release closures not yet called, by number, with their
   * channels; `stacks` is the ones each adapter took, newest last. `wire` is what the current
   * session was sent. `leaked` is the channels a flush let go of in this
   * session without being able to say so.
   */
  datatype Transport = Transport(
    hasSend: bool,
    epoch: Option<int>,
    gateOpen: bool,
    held: map<string, Held>,
    pending: set<string>,
    flushScheduled: bool,
    live: map<nat, string>,
    next: nat,
    stacks: map<(Adapter, string), seq<nat>>,
    wire: seq<Frame>,
    leaked: set<string>)

  function Fresh(hasSend: bool, epoch: Option<int>, gateOpen: bool): Transport {
    Transport(hasSend, epoch, gateOpen, map[], {}, false, map[], 0, map[], [], {})
  }

  function DefaultService(channel: string): Service {
    if "pipeline:" <= channel then Pipeline else Subscribe
  }

  function SessionKey(t: Transport): int {
    if t.epoch.None? then UNTRACKED else t.epoch.value
  }

  predicate CanSubscribe(t: Transport) {
    t.hasSend && t.epoch != Some(0) && t.gateOpen
  }

  // ---- Single steps -------------------------------------------------------------

  function SendSubscribe(t: Transport, c: string): Transport
    requires c in t.held
  {
    var h := t.held[c];
    if h.sentIn == Some(SessionKey(t)) || !CanSubscribe(t) then t
    else t.(held := t.held[c := h.(sentIn := Some(SessionKey(t)))],
            wire := t.wire + [Sub(h.service, c)],
            leaked := t.leaked - {c})
  }

  /** A new hold; its release is number `t.next`. */
  function Hold(t: Transport, c: string, service: Option<Service>): Transport {
    var h := if c in t.held then t.held[c]
             else Held(0, if service.Some? then service.value else DefaultService(c), None);
    SendSubscribe(t.(held := t.held[c := h.(count := h.count + 1)],
                     pending := t.pending - {c},
                     live := t.live[t.next := c],
                     next := t.next + 1), c)
  }

  /** The release called: only its first call counts, and only the last hold's leaves the channel to a flush. */
  function LetGo(t: Transport, handle: nat): Transport {
    if handle !in t.live then t
    else if t.live[handle] !in t.held then t.(live := t.live - {handle})
    else
      var c := t.live[handle];
      var h := t.held[c].(count := t.held[c].count - 1);
      t.(live := t.live - {handle},
         held := t.held[c := h],
         pending := if h.count > 0 then t.pending else t.pending + {c},
         flushScheduled := t.flushScheduled || h.count <= 0)
  }

  /** Nobody holds the channel any more. */
  predicate Dropped(t: Transport, c: string) {
    c in t.held && t.held[c].count <= 0
  }

  /** Only a channel this session subscribed needs leaving. */
  predicate NeedsLeaving(t: Transport, c: string) {
    Dropped(t, c) && t.held[c].sentIn == Some(SessionKey(t))
  }

  /** A flush comes to one pending channel: forgotten here, and unsubscribed if this session sent it and still can. */
  function FlushOne(t: Transport, c: string): Transport {
    t.(held := if Dropped(t, c) then t.held - {c} else t.held,
       pending := t.pending - {c},
       wire := if NeedsLeaving(t, c) && CanSubscribe(t) then t.wire + [Unsub(t.held[c].service, c)] else t.wire,
       leaked := if NeedsLeaving(t, c) && !CanSubscribe(t) then t.leaked + {c} else t.leaked)
  }

  function FlushEach(t: Transport, order: seq<string>): Transport {
    if order == [] then t else FlushOne(FlushEach(t, order[..|order| - 1]), order[|order| - 1])
  }

  /** The pending unsubscribes go out, in `order`. */
  function FlushAll(t: Transport, order: seq<string>): Transport {
    FlushEach(t, order).(flushScheduled := false)
  }

  /** The release, and the flush at once where the host schedules it so. */
  function Release(t: Transport, handle: nat, immediate: bool): Transport {
    var t' := LetGo(t, handle);
    if immediate && handle in t.live && t.live[handle] in t'.pending && !t.flushScheduled
    then FlushAll(t', [t.live[handle]]) else t'
  }

  function ResubscribeEach(t: Transport, order: seq<string>): Transport
    ensures ResubscribeEach(t, order).held.Keys == t.held.Keys
  {
    if order == [] then t
    else
      var t' := ResubscribeEach(t, order[..|order| - 1]);
      var c := order[|order| - 1];
      if c in t'.held && t'.held[c].count > 0 then SendSubscribe(t', c) else t'
  }

  /** A new connection has subscribed to nothing; channels nobody holds are forgotten. */
  function NewSession(t: Transport, epoch: Option<int>): Transport {
    t.(epoch := epoch,
       held := (map c | c in t.held && t.held[c].count != 0 :: t.held[c].(sentIn := None)),
       pending := (set c | c in t.pending && !(c in t.held && t.held[c].count == 0)),
       wire := [],
       leaked := {})
  }

  function Rebind(t: Transport, hasSend: Option<bool>, gateOpen: Option<bool>, epoch: Option<Option<int>>): Transport {
    var t1 := t.(hasSend := if hasSend.Some? then hasSend.value else t.hasSend,
                 gateOpen := if gateOpen.Some? then gateOpen.value else t.gateOpen);
    if epoch.None? || epoch.value == t.epoch then t1 else NewSession(t1, epoch.value)
  }

  // ---- Adapters -------------------------------------------------------------------

  function Stack(t: Transport, a: Adapter, c: string): seq<nat> {
    if (a, c) in t.stacks then t.stacks[(a, c)] else []
  }

  /** Popping the last release forgets the channel's list. */
  function Pop(t: Transport, a: Adapter, c: string): Transport {
    var list := Stack(t, a, c);
    t.(stacks := if |list| <= 1 then t.stacks - {(a, c)} else t.stacks[(a, c) := list[..|list| - 1]])
  }

  function AdapterHold(t: Transport, a: Adapter, c: string, service: Option<Service>): Transport {
    Hold(t, c, service).(stacks := t.stacks[(a, c) := Stack(t, a, c) + [t.next]])
  }

  /** An unsubscribe nobody here held is dropped. */
  function AdapterRelease(t: Transport, a: Adapter, c: string, immediate: bool): Transport {
    var list := Stack(t, a, c);
    if list == [] then Pop(t, a, c) else Release(Pop(t, a, c), list[|list| - 1], immediate)
  }

  // ---- Runs -----------------------------------------------------------------------

  /** `order` is the order a loop over pending or held channels takes them in. */
  datatype Event =
    | HoldEvent(channel: string, service: Option<Service>)
    | ReleaseEvent(handle: nat)
    | AdapterHoldEvent(adapter: Adapter, channel: string, service: Option<Service>)
    | AdapterReleaseEvent(adapter: Adapter, channel: string)
    | FlushEvent(order: seq<string>)
    | ResubscribeEvent(order: seq<string>)
    | UpdateEvent(hasSend: Option<bool>, gateOpen: Option<bool>, epoch: Option<Option<int>>, order: seq<string>)
    | GateEvent(open: bool)

  function Step(t: Transport, immediate: bool, e: Event): Transport {
    match e
    case HoldEvent(c, service) => Hold(t, c, service)
    case ReleaseEvent(handle) => Release(t, handle, immediate)
    case AdapterHoldEvent(a, c, service) => AdapterHold(t, a, c, service)
    case AdapterReleaseEvent(a, c) => AdapterRelease(t, a, c, immediate)
    case FlushEvent(order) => FlushAll(t, order)
    case ResubscribeEvent(order) => ResubscribeEach(t, order)
    case UpdateEvent(hasSend, gateOpen, epoch, order) => ResubscribeEach(Rebind(t, hasSend, gateOpen, epoch), order)
    case GateEvent(open) => t.(gateOpen := open)
  }

  ghost predicate Lists(order: seq<string>, cs: set<string>) {
    && (forall c :: c in order <==> c in cs)
    && (forall i, j | 0 <= i < j < |order| :: order[i] != order[j])
  }

  ghost predicate Enabled(t: Transport, e: Event) {
    match e
    case FlushEvent(order) => Lists(order, t.pending)
    case ResubscribeEvent(order) => Lists(order, t.held.Keys)
    case UpdateEvent(hasSend, gateOpen, epoch, order) => Lists(order, Rebind(t, hasSend, gateOpen, epoch).held.Keys)
    case _ => true
  }

  function Run(t: Transport, immediate: bool, events: seq<Event>): Transport
    decreases |events|
  {
    if events == [] then t else Run(Step(t, immediate, events[0]), immediate, events[1..])
  }

  ghost predicate EnabledAll(t: Transport, immediate: bool, events: seq<Event>)
    decreases |events|
  {
    events != [] ==> Enabled(t, events[0]) && EnabledAll(Step(t, immediate, events[0]), immediate, events[1..])
  }
}
