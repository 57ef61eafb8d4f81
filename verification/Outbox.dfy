/**
 * Saving a document's local edits (src/client/GatewayProvider.ts): edits
 * gather in a batch, a flush sends the batch under a new id and keeps it until
 * the server says that id is stored, and anything still pending can be sent
 * again.
 *
 * An update is an opaque value; merging a batch keeps the updates in it.
 */
module Outbox {
  import opened Common

  datatype Status = Idle | Pending | Saved | Failed

  datatype Sent<U> = Sent(id: nat, updates: seq<U>)

  /** `wire` is every frame ever handed to the socket. */
  datatype Outbox<U> = Outbox(
    batch: seq<U>,
    timer: bool,
    pending: map<nat, seq<U>>,
    sequence: nat,
    status: Status,
    wire: seq<Sent<U>>)

  function Empty<U>(): Outbox<U> {
    Outbox([], false, map[], 0, Idle, [])
  }

  /** How much is not known to be stored: the entries waiting, and the batch as one more. */
  function PendingCount<U>(s: Outbox<U>): nat {
    |s.pending| + if s.batch != [] then 1 else 0
  }

  function Edit<U>(s: Outbox<U>, u: U): Outbox<U> {
    s.(batch := s.batch + [u], status := Pending, timer := true)
  }

  /** `ok` says whether the socket took the frame. */
  function Send<U>(s: Outbox<U>, id: nat, ok: bool): Outbox<U>
    requires id in s.pending
  {
    s.(status := if ok then Pending else Failed, wire := s.wire + [Sent(id, s.pending[id])])
  }

  function Flush<U>(s: Outbox<U>, ok: bool): Outbox<U> {
    if s.batch == [] then s.(timer := false)
    else
      var id := s.sequence + 1;
      Send(s.(timer := false, sequence := id, batch := [], pending := s.pending[id := s.batch]), id, ok)
  }

  /** Entries are sent again in the order they were made, up to id `n`; `lost` is the ids the socket refuses. */
  function Resend<U>(s: Outbox<U>, n: nat, lost: set<nat>): Outbox<U>
    ensures Resend(s, n, lost).pending == s.pending
  {
    if n == 0 then s
    else
      var r := Resend(s, n - 1, lost);
      if n in r.pending then Send(r, n, n !in lost) else r
  }

  function Retry<U>(s: Outbox<U>, ok: bool, lost: set<nat>): Outbox<U> {
    var f := Flush(s, ok);
    Resend(f, f.sequence, lost)
  }

  function Discard<U>(s: Outbox<U>): Outbox<U> {
    s.(timer := false, batch := [], pending := map[], status := Idle)
  }

  /** The server has stored entry `id`; an id nobody waits for says nothing. */
  function Persisted<U>(s: Outbox<U>, id: nat): Outbox<U> {
    if id !in s.pending then s
    else
      var left := s.pending - {id};
      s.(pending := left,
         status := if |left| + (if s.batch != [] then 1 else 0) > 0 then Pending else Saved)
  }

  function Refused<U>(s: Outbox<U>, id: nat): Outbox<U> {
    if id in s.pending then s.(status := Failed) else s
  }

  datatype Event<U> =
    | EditEvent(u: U)
    | FlushEvent(ok: bool)
    | RetryEvent(ok: bool, lost: set<nat>)
    | SnapshotEvent(ok: bool, lost: set<nat>)
    | DiscardEvent
    | PersistedEvent(id: nat)
    | RefusedEvent(id: nat)

  /** A snapshot from the server prompts a retry of whatever is outstanding. */
  function Step<U>(s: Outbox<U>, e: Event<U>): Outbox<U> {
    match e
    case EditEvent(u) => Edit(s, u)
    case FlushEvent(ok) => Flush(s, ok)
    case RetryEvent(ok, lost) => Retry(s, ok, lost)
    case SnapshotEvent(ok, lost) => if PendingCount(s) > 0 then Retry(s, ok, lost) else s
    case DiscardEvent => Discard(s)
    case PersistedEvent(id) => Persisted(s, id)
    case RefusedEvent(id) => Refused(s, id)
  }

  function Run<U>(s: Outbox<U>, events: seq<Event<U>>): Outbox<U>
    decreases |events|
  {
    if events == [] then s else Run(Step(s, events[0]), events[1..])
  }

  // ---- In every run ----------------------------------------------------------------

  /** A batch has its flush coming, an entry holds something, and the state tells whether anything is outstanding. */
  ghost predicate Invariant<U>(s: Outbox<U>) {
    && (forall id | id in s.pending :: 0 < id <= s.sequence && s.pending[id] != [])
    && (s.batch != [] <==> s.timer)
    && (s.status == Idle || s.status == Saved <==> s.batch == [] && s.pending == map[])
    && WireAgrees(s)
  }

  /** Ids are never used twice: every frame of an entry still waiting carries what it holds. */
  ghost predicate WireAgrees<U>(s: Outbox<U>) {
    forall i | 0 <= i < |s.wire| ::
      s.wire[i].id <= s.sequence && (s.wire[i].id in s.pending ==> s.pending[s.wire[i].id] == s.wire[i].updates)
  }

  lemma FlushKeepsInvariant<U>(s: Outbox<U>, ok: bool)
    requires Invariant(s)
    ensures Invariant(Flush(s, ok))
  {
    if s.batch != [] { assert s.sequence + 1 in Flush(s, ok).pending; }
  }

  lemma SendKeepsInvariant<U>(s: Outbox<U>, id: nat, ok: bool)
    requires Invariant(s) && id in s.pending
    ensures Invariant(Send(s, id, ok))
  {
  }

  lemma {:induction false} ResendKeepsInvariant<U>(s: Outbox<U>, n: nat, lost: set<nat>)
    requires Invariant(s)
    ensures Invariant(Resend(s, n, lost))
  {
    if n > 0 {
      ResendKeepsInvariant(s, n - 1, lost);
      var r := Resend(s, n - 1, lost);
      if n in r.pending { SendKeepsInvariant(r, n, n !in lost); }
    }
  }

  lemma RetryKeepsInvariant<U>(s: Outbox<U>, ok: bool, lost: set<nat>)
    requires Invariant(s)
    ensures Invariant(Retry(s, ok, lost))
  {
    FlushKeepsInvariant(s, ok);
    ResendKeepsInvariant(Flush(s, ok), Flush(s, ok).sequence, lost);
  }

  lemma PersistedKeepsInvariant<U>(s: Outbox<U>, id: nat)
    requires Invariant(s)
    ensures Invariant(Persisted(s, id))
  {
    var left := s.pending - {id};
    assert |left| == 0 <==> left == map[];
  }

  lemma StepKeepsInvariant<U>(s: Outbox<U>, e: Event<U>)
    requires Invariant(s)
    ensures Invariant(Step(s, e))
  {
    match e
    case FlushEvent(ok) => FlushKeepsInvariant(s, ok);
    case RetryEvent(ok, lost) => RetryKeepsInvariant(s, ok, lost);
    case SnapshotEvent(ok, lost) => RetryKeepsInvariant(s, ok, lost);
    case PersistedEvent(id) => PersistedKeepsInvariant(s, id);
    case _ =>
  }

  lemma {:induction false} RunKeepsInvariant<U>(s: Outbox<U>, events: seq<Event<U>>)
    requires Invariant(s)
    ensures Invariant(Run(s, events))
    decreases |events|
  {
    if events != [] {
      StepKeepsInvariant(s, events[0]);
      RunKeepsInvariant(Step(s, events[0]), events[1..]);
    }
  }

  lemma {:induction false} RunSnoc<U>(s: Outbox<U>, events: seq<Event<U>>, e: Event<U>)
    ensures Run(s, events + [e]) == Step(Run(s, events), e)
    decreases |events|
  {
    if events == [] {
      assert [] + [e] == [e] && [e][1..] == [];
    } else {
      assert (events + [e])[0] == events[0] && (events + [e])[1..] == events[1..] + [e];
      RunSnoc(Step(s, events[0]), events[1..], e);
    }
  }

  // ---- What goes out ------------------------------------------------------------------

  /** The frames of the waiting entries up to id `n`, oldest first. */
  function Frames<U>(pending: map<nat, seq<U>>, n: nat): seq<Sent<U>> {
    if n == 0 then [] else Frames(pending, n - 1) + if n in pending then [Sent(n, pending[n])] else []
  }

  lemma {:induction false} ResendFrames<U>(s: Outbox<U>, n: nat, lost: set<nat>)
    ensures Resend(s, n, lost).wire == s.wire + Frames(s.pending, n)
    ensures Resend(s, n, lost).batch == s.batch && Resend(s, n, lost).sequence == s.sequence
    ensures Resend(s, n, lost).timer == s.timer
  {
    if n > 0 {
      ResendFrames(s, n - 1, lost);
      Associative(s.wire, Frames(s.pending, n - 1), if n in s.pending then [Sent(n, s.pending[n])] else []);
    } else {
      assert s.wire + [] == s.wire;
    }
  }

  /** What an event sends: a flush its batch under a new id, a retry that and then every waiting entry, anything else nothing. */
  function Sends<U>(s: Outbox<U>, e: Event<U>): seq<Sent<U>> {
    var cut := if s.batch == [] then [] else [Sent(s.sequence + 1, s.batch)];
    match e
    case FlushEvent(_) => cut
    case RetryEvent(_, _) => cut + Frames(Step(s, e).pending, Step(s, e).sequence)
    case SnapshotEvent(_, _) => if PendingCount(s) > 0 then cut + Frames(Step(s, e).pending, Step(s, e).sequence) else []
    case _ => []
  }

  lemma FlushSends<U>(s: Outbox<U>, ok: bool)
    ensures Flush(s, ok).wire == s.wire + Sends(s, FlushEvent(ok)) && Flush(s, ok).batch == [] && !Flush(s, ok).timer
  {
    assert s.wire + [] == s.wire;
  }

  lemma RetrySends<U>(s: Outbox<U>, ok: bool, lost: set<nat>)
    ensures Retry(s, ok, lost).wire == s.wire + Sends(s, RetryEvent(ok, lost)) && Retry(s, ok, lost).batch == []
  {
    var f := Flush(s, ok);
    FlushSends(s, ok);
    ResendFrames(f, f.sequence, lost);
    Associative(s.wire, Sends(s, FlushEvent(ok)), Frames(f.pending, f.sequence));
  }

  /** Over every event the socket is handed exactly that. */
  lemma SentExactly<U>(s: Outbox<U>, e: Event<U>)
    ensures Step(s, e).wire == s.wire + Sends(s, e)
  {
    assert s.wire + [] == s.wire;
    match e
    case FlushEvent(ok) => FlushSends(s, ok);
    case RetryEvent(ok, lost) => RetrySends(s, ok, lost);
    case SnapshotEvent(ok, lost) => RetrySends(s, ok, lost);
    case _ =>
  }

  lemma {:induction false} FramesHave<U>(pending: map<nat, seq<U>>, n: nat, id: nat)
    requires id in pending && 0 < id <= n
    ensures Sent(id, pending[id]) in Frames(pending, n)
  {
    if id < n { FramesHave(pending, n - 1, id); }
  }

  /** A retry leaves nothing in the batch and sends every waiting entry, each with what it holds. */
  lemma RetrySendsEverything<U>(s: Outbox<U>, ok: bool, lost: set<nat>, id: nat)
    requires Invariant(s) && id in Retry(s, ok, lost).pending
    ensures var s' := Retry(s, ok, lost);
      && s'.batch == [] && s.wire <= s'.wire
      && Sent(id, s'.pending[id]) in s'.wire[|s.wire|..]
  {
    var s' := Retry(s, ok, lost);
    RetryKeepsInvariant(s, ok, lost);
    RetrySends(s, ok, lost);
    FramesHave(s'.pending, s'.sequence, id);
    assert s'.wire[|s.wire|..] == Sends(s, RetryEvent(ok, lost));
  }

  // ---- The state shown -------------------------------------------------------------------

  /** The last of the waiting entries decides what a retry leaves. */
  lemma {:induction false} ResendStatus<U>(s: Outbox<U>, n: nat, lost: set<nat>, last: nat)
    requires 0 < last <= n && last in s.pending && forall id | last < id <= n :: id !in s.pending
    ensures Resend(s, n, lost).status == if last in lost then Failed else Pending
  {
    if last < n { ResendStatus(s, n - 1, lost, last); }
  }

  lemma {:induction false} ResendNothing<U>(s: Outbox<U>, n: nat, lost: set<nat>)
    requires forall id | 0 < id <= n :: id !in s.pending
    ensures Resend(s, n, lost) == s
  {
    if n > 0 { ResendNothing(s, n - 1, lost); }
  }

  /** `last` is the newest entry waiting. */
  predicate NewestWaiting<U>(s: Outbox<U>, last: nat) {
    last in s.pending && forall id | id in s.pending :: id <= last
  }

  /**
   * The state after an event: an edit is pending; an answer about a waiting
   * entry says how it went, and saved only once nothing is outstanding; a frame
   * sent says whether the socket took it, a retry by its newest frame.
   */
  ghost predicate StatusLaw<U>(s: Outbox<U>, e: Event<U>, s': Outbox<U>) {
    match e
    case EditEvent(_) => s'.status == Pending
    case DiscardEvent => s'.status == Idle
    case PersistedEvent(id) =>
      s'.status == if id !in s.pending then s.status else if PendingCount(s') > 0 then Pending else Saved
    case RefusedEvent(id) => s'.status == if id in s.pending then Failed else s.status
    case FlushEvent(ok) => s'.status == if s.batch == [] then s.status else if ok then Pending else Failed
    case RetryEvent(_, lost) => RetryStatus(s, lost, s')
    case SnapshotEvent(_, lost) => RetryStatus(s, lost, s')
  }

  ghost predicate RetryStatus<U>(s: Outbox<U>, lost: set<nat>, s': Outbox<U>) {
    && (s'.pending == map[] ==> s'.status == s.status)
    && forall last | NewestWaiting(s', last) :: s'.status == if last in lost then Failed else Pending
  }

  lemma RetriedStatus<U>(s: Outbox<U>, ok: bool, lost: set<nat>)
    requires Invariant(s)
    ensures RetryStatus(s, lost, Retry(s, ok, lost))
  {
    var f, s' := Flush(s, ok), Retry(s, ok, lost);
    FlushKeepsInvariant(s, ok);
    if s'.pending == map[] {
      ResendNothing(f, f.sequence, lost);
      assert s.batch == [] || s.sequence + 1 in f.pending;
    }
    forall last | NewestWaiting(s', last) ensures s'.status == if last in lost then Failed else Pending {
      ResendStatus(f, f.sequence, lost, last);
    }
  }

  lemma StatusExactly<U>(s: Outbox<U>, e: Event<U>)
    requires Invariant(s)
    ensures StatusLaw(s, e, Step(s, e))
  {
    match e
    case RetryEvent(ok, lost) => RetriedStatus(s, ok, lost);
    case SnapshotEvent(ok, lost) =>
      RetriedStatus(s, ok, lost);
      if PendingCount(s) == 0 { assert s.pending == map[]; }
    case _ =>
  }
}
