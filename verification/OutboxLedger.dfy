/**
 * Where every local edit is, told by the events alone: which edits were made
 * since the last discard, which flush took them up, and which of those entries
 * the server has said it stored. In every run the outbox holds exactly the rest.
 */
module OutboxLedger {
  import opened Common
  import opened Outbox

  // ---- The ledger --------------------------------------------------------------------------

  /** The updates made since the last discard, in order. */
  function Made<U>(events: seq<Event<U>>): seq<U> {
    if events == [] then []
    else
      var front := Made(events[..|events| - 1]);
      match events[|events| - 1]
      case EditEvent(u) => front + [u]
      case DiscardEvent => []
      case _ => front
  }

  predicate Gathers<U>(e: Event<U>) {
    e.FlushEvent? || e.RetryEvent? || e.SnapshotEvent?
  }

  /** The updates made since they were last gathered or discarded. */
  function Loose<U>(events: seq<Event<U>>): seq<U> {
    if events == [] then []
    else
      var front, e := Loose(events[..|events| - 1]), events[|events| - 1];
      if e.EditEvent? then front + [e.u] else if e.DiscardEvent? || Gathers(e) then [] else front
  }

  /** The last event gathers something. */
  predicate Cuts<U(==)>(events: seq<Event<U>>) {
    events != [] && Gathers(events[|events| - 1]) && Loose(events[..|events| - 1]) != []
  }

  /** How many entries were ever made; discards do not start the numbers again. */
  function Entries<U(==)>(events: seq<Event<U>>): nat {
    if events == [] then 0 else Entries(events[..|events| - 1]) + if Cuts(events) then 1 else 0
  }

  /** What entry `id` was made of. */
  function EntryOf<U(==)>(events: seq<Event<U>>, id: nat): seq<U> {
    if events == [] then []
    else if Cuts(events) && Entries(events) == id then Loose(events[..|events| - 1])
    else EntryOf(events[..|events| - 1], id)
  }

  /** The entries made since the last discard that no acknowledgement has named. */
  function Unstored<U(==)>(events: seq<Event<U>>): set<nat> {
    if events == [] then {}
    else
      var front, e := Unstored(events[..|events| - 1]), events[|events| - 1];
      if e.DiscardEvent? then {}
      else if e.PersistedEvent? then front - {e.id}
      else if Cuts(events) then front + {Entries(events)}
      else front
  }

  /** What the entries named by acknowledgements since the last discard were made of. */
  function Stored<U(==)>(events: seq<Event<U>>): multiset<U> {
    if events == [] then multiset{}
    else
      var front, e := events[..|events| - 1], events[|events| - 1];
      if e.DiscardEvent? then multiset{}
      else if e.PersistedEvent? && e.id in Unstored(front) then Stored(front) + multiset(EntryOf(front, e.id))
      else Stored(front)
  }

  // ---- The outbox keeps it ------------------------------------------------------------------

  ghost predicate Keeps<U>(s: Outbox<U>, events: seq<Event<U>>) {
    && s.batch == Loose(events)
    && s.sequence == Entries(events)
    && s.pending.Keys == Unstored(events)
    && forall id | id in s.pending :: EntryKept(s, events, id)
  }

  predicate EntryKept<U(==)>(s: Outbox<U>, events: seq<Event<U>>, id: nat)
    requires id in s.pending
  {
    s.pending[id] == EntryOf(events, id)
  }

  /** A flush, and the entries a retry only sends again. */
  lemma Gathered<U>(s: Outbox<U>, e: Event<U>)
    requires Gathers(e) && Invariant(s)
    ensures var s' := Step(s, e);
      && s'.batch == []
      && s'.sequence == s.sequence + (if s.batch != [] then 1 else 0)
      && s'.pending == if s.batch != [] then s.pending[s.sequence + 1 := s.batch] else s.pending
  {
    match e
    case FlushEvent(ok) =>
    case RetryEvent(ok, lost) => ResendFrames(Flush(s, ok), Flush(s, ok).sequence, lost);
    case SnapshotEvent(ok, lost) => ResendFrames(Flush(s, ok), Flush(s, ok).sequence, lost);
  }

  /** The ledger one event on. */
  lemma LedgerSnoc<U>(front: seq<Event<U>>, e: Event<U>)
    ensures var events, cut := front + [e], Gathers(e) && Loose(front) != [];
      && Loose(events) == (if e.EditEvent? then Loose(front) + [e.u]
                           else if e.DiscardEvent? || Gathers(e) then [] else Loose(front))
      && Entries(events) == Entries(front) + (if cut then 1 else 0)
      && Unstored(events) == (if e.DiscardEvent? then {} else if e.PersistedEvent? then Unstored(front) - {e.id}
                              else if cut then Unstored(front) + {Entries(front) + 1} else Unstored(front))
      && forall id :: EntryOf(events, id) == if cut && id == Entries(front) + 1 then Loose(front) else EntryOf(front, id)
  {
    var events := front + [e];
    assert events[..|events| - 1] == front;
  }

  lemma EntriesKept<U>(s: Outbox<U>, front: seq<Event<U>>, e: Event<U>)
    requires Keeps(s, front) && Invariant(s)
    ensures var s' := Step(s, e); forall id | id in s'.pending :: EntryKept(s', front + [e], id)
  {
    var s' := Step(s, e);
    LedgerSnoc(front, e);
    if Gathers(e) { Gathered(s, e); }
    forall id | id in s'.pending ensures EntryKept(s', front + [e], id) {
      if id in s.pending { assert EntryKept(s, front, id); }
    }
  }

  lemma KeysKept<U>(s: Outbox<U>, front: seq<Event<U>>, e: Event<U>)
    requires Keeps(s, front) && Invariant(s)
    ensures Step(s, e).pending.Keys == Unstored(front + [e])
  {
    LedgerSnoc(front, e);
    if Gathers(e) {
      Gathered(s, e);
    } else if e.PersistedEvent? {
      assert (s.pending - {e.id}).Keys == s.pending.Keys - {e.id};
    }
  }

  lemma StepKeeps<U>(s: Outbox<U>, front: seq<Event<U>>, e: Event<U>)
    requires Keeps(s, front) && Invariant(s)
    ensures Keeps(Step(s, e), front + [e])
  {
    LedgerSnoc(front, e);
    EntriesKept(s, front, e);
    KeysKept(s, front, e);
    if Gathers(e) { Gathered(s, e); }
  }

  lemma {:induction false} RunKeeps<U>(events: seq<Event<U>>)
    ensures Keeps(Run(Empty<U>(), events), events) && Invariant(Run(Empty<U>(), events))
  {
    if events != [] {
      var front, e := events[..|events| - 1], events[|events| - 1];
      assert events == front + [e];
      RunKeeps(front);
      RunSnoc(Empty<U>(), front, e);
      StepKeeps(Run(Empty<U>(), front), front, e);
      StepKeepsInvariant(Run(Empty<U>(), front), e);
    }
  }

  /**
   * In every run the batch is the edits not gathered yet, the entries waiting
   * are the ones made and never acknowledged since the last discard, and each
   * holds what was gathered into it.
   */
  lemma OutboxIsLedger<U>(events: seq<Event<U>>)
    ensures var s := Run(Empty<U>(), events);
      && s.batch == Loose(events)
      && s.pending.Keys == Unstored(events)
      && (forall id | id in s.pending :: s.pending[id] == EntryOf(events, id))
      && (s.timer <==> Loose(events) != [])
      && (s.status == Idle || s.status == Saved <==> Loose(events) == [] && Unstored(events) == {})
  {
    RunKeeps(events);
    var s := Run(Empty<U>(), events);
    forall id | id in s.pending ensures s.pending[id] == EntryOf(events, id) {
      assert EntryKept(s, events, id);
    }
    assert s.pending == map[] <==> s.pending.Keys == {};
  }

  // ---- Conservation ----------------------------------------------------------------------------

  /** All the updates in entries up to id `n`. */
  function Waiting<U>(pending: map<nat, seq<U>>, n: nat): multiset<U> {
    if n == 0 then multiset{}
    else Waiting(pending, n - 1) + if n in pending then multiset(pending[n]) else multiset{}
  }

  lemma {:induction false} WaitingAdded<U>(pending: map<nat, seq<U>>, id: nat, us: seq<U>, n: nat)
    requires n < id
    ensures Waiting(pending[id := us], n) == Waiting(pending, n)
  {
    if n > 0 { WaitingAdded(pending, id, us, n - 1); }
  }

  lemma {:induction false} WaitingDropped<U>(pending: map<nat, seq<U>>, id: nat, n: nat)
    requires id in pending && 0 < id
    ensures n >= id ==> Waiting(pending - {id}, n) + multiset(pending[id]) == Waiting(pending, n)
    ensures n < id ==> Waiting(pending - {id}, n) == Waiting(pending, n)
  {
    if n > 0 { WaitingDropped(pending, id, n - 1); }
  }

  lemma {:induction false} NothingWaiting<U>(n: nat)
    ensures Waiting<U>(map[], n) == multiset{}
  {
    if n > 0 { NothingWaiting<U>(n - 1); }
  }

  function Outstanding<U>(s: Outbox<U>): multiset<U> {
    multiset(s.batch) + Waiting(s.pending, s.sequence)
  }

  lemma GatheringKeepsOutstanding<U>(s: Outbox<U>, e: Event<U>)
    requires Gathers(e) && Invariant(s)
    ensures Outstanding(Step(s, e)) == Outstanding(s)
  {
    Gathered(s, e);
    if s.batch != [] {
      var pending := s.pending[s.sequence + 1 := s.batch];
      WaitingAdded(s.pending, s.sequence + 1, s.batch, s.sequence);
      assert Waiting(pending, s.sequence + 1) == Waiting(pending, s.sequence) + multiset(s.batch);
    }
  }

  lemma BooksSnoc<U>(front: seq<Event<U>>, e: Event<U>)
    ensures var events := front + [e];
      && Made(events) == (if e.EditEvent? then Made(front) + [e.u] else if e.DiscardEvent? then [] else Made(front))
      && Stored(events) == (if e.DiscardEvent? then multiset{}
                            else if e.PersistedEvent? && e.id in Unstored(front) then Stored(front) + multiset(EntryOf(front, e.id))
                            else Stored(front))
  {
    var events := front + [e];
    assert events[..|events| - 1] == front;
  }

  lemma PersistedOutstanding<U>(s: Outbox<U>, id: nat)
    requires Invariant(s)
    ensures Outstanding(Persisted(s, id)) + (if id in s.pending then multiset(s.pending[id]) else multiset{}) == Outstanding(s)
  {
    if id in s.pending { WaitingDropped(s.pending, id, s.sequence); }
  }

  lemma EditOutstanding<U>(s: Outbox<U>, u: U)
    ensures Outstanding(Edit(s, u)) == Outstanding(s) + multiset{u}
  {
    assert multiset(s.batch + [u]) == multiset(s.batch) + multiset{u};
  }

  ghost predicate Conserved<U>(s: Outbox<U>, events: seq<Event<U>>) {
    multiset(Made(events)) == Outstanding(s) + Stored(events)
  }

  lemma EditConserves<U>(s: Outbox<U>, front: seq<Event<U>>, u: U)
    requires Conserved(s, front)
    ensures Conserved(Edit(s, u), front + [EditEvent(u)])
  {
    BooksSnoc(front, EditEvent(u));
    EditOutstanding(s, u);
    assert multiset(Made(front) + [u]) == multiset(Made(front)) + multiset{u};
  }

  lemma DiscardConserves<U>(s: Outbox<U>, front: seq<Event<U>>)
    ensures Conserved(Discard(s), front + [DiscardEvent])
  {
    BooksSnoc(front, DiscardEvent);
    NothingWaiting<U>(s.sequence);
  }

  lemma PersistedConserves<U>(s: Outbox<U>, front: seq<Event<U>>, id: nat)
    requires Keeps(s, front) && Invariant(s) && Conserved(s, front)
    ensures Conserved(Persisted(s, id), front + [PersistedEvent(id)])
  {
    BooksSnoc(front, PersistedEvent(id));
    PersistedOutstanding(s, id);
    if id in s.pending { assert EntryKept(s, front, id); }
  }

  lemma StepConserves<U>(s: Outbox<U>, front: seq<Event<U>>, e: Event<U>)
    requires Keeps(s, front) && Invariant(s) && Conserved(s, front)
    ensures Conserved(Step(s, e), front + [e])
  {
    match e
    case EditEvent(u) => EditConserves(s, front, u);
    case DiscardEvent => DiscardConserves(s, front);
    case PersistedEvent(id) => PersistedConserves(s, front, id);
    case RefusedEvent(id) => BooksSnoc(front, e);
    case _ =>
      BooksSnoc(front, e);
      GatheringKeepsOutstanding(s, e);
  }

  /**
   * Over every order of edits, flushes, acknowledgements, errors, retries,
   * snapshots and discards: the edits made since the last discard are the
   * batch, the waiting entries and what the acknowledged entries held, together.
   */
  lemma {:induction false} EditsAreConserved<U>(events: seq<Event<U>>)
    ensures multiset(Made(events)) == Outstanding(Run(Empty<U>(), events)) + Stored(events)
  {
    if events == [] {
      NothingWaiting<U>(0);
    } else {
      var front, e := events[..|events| - 1], events[|events| - 1];
      assert events == front + [e];
      EditsAreConserved(front);
      RunKeeps(front);
      RunSnoc(Empty<U>(), front, e);
      StepConserves(Run(Empty<U>(), front), front, e);
    }
  }

  /** An acknowledged entry waits no more, whatever comes after. */
  lemma {:induction false} AcknowledgedStaysStored<U>(events: seq<Event<U>>, later: seq<Event<U>>, id: nat)
    requires 0 < id <= Entries(events)
    ensures id !in Run(Empty<U>(), events + [PersistedEvent(id)] + later).pending
  {
    var all := events + [PersistedEvent(id)] + later;
    NeverAgain(events, later, id);
    RunKeeps(all);
  }

  lemma {:induction false} NeverAgain<U>(events: seq<Event<U>>, later: seq<Event<U>>, id: nat)
    requires 0 < id <= Entries(events)
    ensures var all := events + [PersistedEvent(id)] + later;
      id !in Unstored(all) && id <= Entries(all)
  {
    var named := events + [PersistedEvent(id)];
    var all := named + later;
    if later == [] {
      assert all == named && named[..|named| - 1] == events;
    } else {
      NeverAgain(events, later[..|later| - 1], id);
      assert all[..|all| - 1] == named + later[..|later| - 1];
    }
  }

  /** Holding an edit: in the entry with that id. */
  predicate HeldIn<U(==)>(s: Outbox<U>, id: nat, u: U) {
    id in s.pending && u in s.pending[id]
  }

  lemma {:induction false} WaitingIn<U>(pending: map<nat, seq<U>>, n: nat, u: U)
    requires u in Waiting(pending, n)
    ensures exists id | 0 < id <= n :: id in pending && u in pending[id]
  {
    if n in pending && u in pending[n] {
    } else {
      WaitingIn(pending, n - 1, u);
    }
  }

  lemma {:induction false} WaitingHas<U>(pending: map<nat, seq<U>>, n: nat, id: nat, u: U)
    requires 0 < id <= n && id in pending && u in pending[id]
    ensures Waiting(pending, n)[u] >= multiset(pending[id])[u] >= 1
  {
    if id < n { WaitingHas(pending, n - 1, id, u); }
  }

  lemma {:induction false} WaitingHasBoth<U>(pending: map<nat, seq<U>>, n: nat, id: nat, other: nat, u: U)
    requires 0 < id < other <= n && id in pending && other in pending && u in pending[id] && u in pending[other]
    ensures Waiting(pending, n)[u] >= 2
  {
    if other < n {
      WaitingHasBoth(pending, n - 1, id, other, u);
    } else {
      WaitingHas(pending, n - 1, id, u);
    }
  }

  /** An edit made once is in exactly one place: the batch, a single waiting entry, or the stored ones. */
  lemma EveryEditIsInOnePlace<U>(events: seq<Event<U>>, u: U)
    requires multiset(Made(events))[u] == 1
    ensures var s := Run(Empty<U>(), events);
      && (u in s.batch || u in Stored(events) || exists id :: HeldIn(s, id, u))
      && !(u in s.batch && u in Stored(events))
      && (forall id | HeldIn(s, id, u) :: u !in s.batch && u !in Stored(events))
      && (forall id, other | HeldIn(s, id, u) && HeldIn(s, other, u) :: id == other)
  {
    var s := Run(Empty<U>(), events);
    EditsAreConserved(events);
    RunKeeps(events);
    assert multiset(s.batch)[u] + Waiting(s.pending, s.sequence)[u] + Stored(events)[u] == 1;
    assert u in s.batch <==> u in multiset(s.batch);
    if u in Waiting(s.pending, s.sequence) {
      WaitingIn(s.pending, s.sequence, u);
      var id :| 0 < id <= s.sequence && id in s.pending && u in s.pending[id];
      assert HeldIn(s, id, u);
    }
    forall id | HeldIn(s, id, u) ensures u !in s.batch && u !in Stored(events) {
      WaitingHas(s.pending, s.sequence, id, u);
    }
    forall id, other | HeldIn(s, id, u) && HeldIn(s, other, u) ensures id == other {
      if id < other { WaitingHasBoth(s.pending, s.sequence, id, other, u); }
      if other < id { WaitingHasBoth(s.pending, s.sequence, other, id, u); }
    }
  }
}
