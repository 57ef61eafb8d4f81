/**
 * The transport against what its callers did: books kept from the events
 * alone, which holds are out and who took them, which socket, gate and epoch
 * were given last. In every run the transport says what the books say.
 */
module SharedTransportLedger {
  import opened Common
  import opened SharedTransport
  import opened SharedTransportRuns
  import opened SharedTransportAgreement

  // ---- The books ------------------------------------------------------------------------

  /** A hold an adapter took and has not given back. */
  datatype Taken = Taken(adapter: Adapter, channel: string, handle: nat)

  /** Holds are numbered as they are made. `direct` is the ones no adapter made, `taken` the adapters', oldest first. */
  datatype Books = Books(
    hasSend: bool,
    epoch: Option<int>,
    gateOpen: bool,
    next: nat,
    live: map<nat, string>,
    direct: set<nat>,
    taken: seq<Taken>)

  function Opening(hasSend: bool, epoch: Option<int>, gateOpen: bool): Books {
    Books(hasSend, epoch, gateOpen, 0, map[], {}, [])
  }

  predicate Of(x: Taken, a: Adapter, c: string) {
    x.adapter == a && x.channel == c
  }

  /** The newest hold adapter `a` has on `c`. */
  function NewestAt(taken: seq<Taken>, a: Adapter, c: string): (at: Option<nat>)
    ensures at.Some? ==> at.value < |taken| && Of(taken[at.value], a, c)
    ensures at.Some? ==> forall j | at.value < j < |taken| :: !Of(taken[j], a, c)
    ensures at.None? ==> forall j | 0 <= j < |taken| :: !Of(taken[j], a, c)
  {
    if taken == [] then None
    else if Of(taken[|taken| - 1], a, c) then Some(|taken| - 1)
    else NewestAt(taken[..|taken| - 1], a, c)
  }

  function NewHold(b: Books, c: string): Books {
    b.(live := b.live[b.next := c], next := b.next + 1)
  }

  /** An adapter's unsubscribe gives back its newest hold; without one it is nothing. */
  function GiveBack(b: Books, a: Adapter, c: string): Books {
    var at := NewestAt(b.taken, a, c);
    if at.None? then b
    else b.(live := b.live - {b.taken[at.value].handle}, taken := b.taken[..at.value] + b.taken[at.value + 1..])
  }

  function Note(b: Books, e: Event): Books {
    match e
    case HoldEvent(c, _) => NewHold(b, c).(direct := b.direct + {b.next})
    case ReleaseEvent(handle) => b.(live := b.live - {handle})
    case AdapterHoldEvent(a, c, _) => NewHold(b, c).(taken := b.taken + [Taken(a, c, b.next)])
    case AdapterReleaseEvent(a, c) => GiveBack(b, a, c)
    case UpdateEvent(hasSend, gateOpen, epoch, _) =>
      b.(hasSend := if hasSend.Some? then hasSend.value else b.hasSend,
         gateOpen := if gateOpen.Some? then gateOpen.value else b.gateOpen,
         epoch := if epoch.Some? then epoch.value else b.epoch)
    case GateEvent(open) => b.(gateOpen := open)
    case FlushEvent(_) => b
    case ResubscribeEvent(_) => b
  }

  function Noted(b: Books, events: seq<Event>): Books
    decreases |events|
  {
    if events == [] then b else Noted(Note(b, events[0]), events[1..])
  }

  /** The handles adapter `a` has for `c`, newest last. */
  function HandlesFor(taken: seq<Taken>, a: Adapter, c: string): seq<nat> {
    if taken == [] then []
    else
      HandlesFor(taken[..|taken| - 1], a, c)
      + if Of(taken[|taken| - 1], a, c) then [taken[|taken| - 1].handle] else []
  }

  lemma {:induction false} HandlesConcat(x: seq<Taken>, y: seq<Taken>, a: Adapter, c: string)
    ensures HandlesFor(x + y, a, c) == HandlesFor(x, a, c) + HandlesFor(y, a, c)
  {
    if y == [] {
      assert x + y == x;
    } else {
      assert (x + y)[..|x + y| - 1] == x + y[..|y| - 1];
      HandlesConcat(x, y[..|y| - 1], a, c);
    }
  }

  lemma {:induction false} NoHandles(taken: seq<Taken>, a: Adapter, c: string)
    requires forall j | 0 <= j < |taken| :: !Of(taken[j], a, c)
    ensures HandlesFor(taken, a, c) == []
  {
    if taken != [] { NoHandles(taken[..|taken| - 1], a, c); }
  }

  /** Taking entry `i` out of the books. */
  lemma HandlesWithout(taken: seq<Taken>, i: nat, a: Adapter, c: string)
    requires i < |taken|
    ensures var front, back := HandlesFor(taken[..i], a, c), HandlesFor(taken[i + 1..], a, c);
      && HandlesFor(taken[..i] + taken[i + 1..], a, c) == front + back
      && HandlesFor(taken, a, c) == front + (if Of(taken[i], a, c) then [taken[i].handle] else []) + back
  {
    HandlesConcat(taken[..i], taken[i + 1..], a, c);
    HandlesConcat(taken[..i], [taken[i]], a, c);
    HandlesConcat(taken[..i] + [taken[i]], taken[i + 1..], a, c);
    assert taken == taken[..i] + [taken[i]] + taken[i + 1..];
    assert [taken[i]][..0] == [];
  }

  /** The newest handle is the last on its list. */
  lemma NewestIsLast(taken: seq<Taken>, a: Adapter, c: string)
    ensures var list, at := HandlesFor(taken, a, c), NewestAt(taken, a, c);
      && (at.None? <==> list == [])
      && (at.Some? ==> list[|list| - 1] == taken[at.value].handle
                       && HandlesFor(taken[..at.value] + taken[at.value + 1..], a, c) == list[..|list| - 1])
  {
    var at := NewestAt(taken, a, c);
    if at.None? {
      NoHandles(taken, a, c);
    } else {
      HandlesWithout(taken, at.value, a, c);
      NoHandles(taken[at.value + 1..], a, c);
      var front := HandlesFor(taken[..at.value], a, c);
      assert front + [taken[at.value].handle] + [] == front + [taken[at.value].handle] && front + [] == front;
    }
  }

  lemma OthersListed(taken: seq<Taken>, i: nat, a: Adapter, c: string)
    requires i < |taken| && !Of(taken[i], a, c)
    ensures HandlesFor(taken[..i] + taken[i + 1..], a, c) == HandlesFor(taken, a, c)
  {
    HandlesWithout(taken, i, a, c);
    assert HandlesFor(taken[..i], a, c) + [] == HandlesFor(taken[..i], a, c);
  }

  /** Giving back takes the newest handle off that adapter's list of that channel, and off no other. */
  lemma GivenBackHandles(b: Books, a: Adapter, c: string, x: Adapter, d: string)
    ensures var list, list' := HandlesFor(b.taken, x, d), HandlesFor(GiveBack(b, a, c).taken, x, d);
      list' == if x == a && d == c && list != [] then list[..|list| - 1] else list
  {
    var at := NewestAt(b.taken, a, c);
    NewestIsLast(b.taken, a, c);
    if at.Some? && (x != a || d != c) { OthersListed(b.taken, at.value, x, d); }
  }

  // ---- The transport keeps them -------------------------------------------------------------

  ghost predicate Keeps(t: Transport, b: Books) {
    && t.hasSend == b.hasSend && t.epoch == b.epoch && t.gateOpen == b.gateOpen
    && t.next == b.next && t.live == b.live
    && forall a, c :: StackKept(t, b, a, c)
  }

  predicate StackKept(t: Transport, b: Books, a: Adapter, c: string) {
    Stack(t, a, c) == HandlesFor(b.taken, a, c)
  }

  /** Only what the books do not tell has changed. */
  predicate SameBooks(t: Transport, t': Transport) {
    && t'.hasSend == t.hasSend && t'.epoch == t.epoch && t'.gateOpen == t.gateOpen
    && t'.next == t.next && t'.live == t.live && t'.stacks == t.stacks
  }

  lemma SameBooksKeep(t: Transport, t': Transport, b: Books)
    requires Keeps(t, b) && SameBooks(t, t')
    ensures Keeps(t', b)
  {
    forall a, c ensures StackKept(t', b, a, c) {
      assert StackKept(t, b, a, c);
    }
  }

  lemma FlushKeepsBooks(t: Transport, order: seq<string>)
    ensures SameBooks(t, FlushAll(t, order))
  {
    FlushEachFrame(t, order);
  }

  lemma ReleaseBooks(t: Transport, handle: nat, immediate: bool)
    ensures SameBooks(t.(live := t.live - {handle}), Release(t, handle, immediate))
  {
    if handle in t.live {
      FlushKeepsBooks(LetGo(t, handle), [t.live[handle]]);
    } else {
      assert t.live - {handle} == t.live;
    }
  }

  lemma AdapterHoldKeepsBooks(t: Transport, b: Books, a: Adapter, c: string, service: Option<Service>)
    requires Keeps(t, b)
    ensures Keeps(AdapterHold(t, a, c, service), Note(b, AdapterHoldEvent(a, c, service)))
  {
    var t', b' := AdapterHold(t, a, c, service), Note(b, AdapterHoldEvent(a, c, service));
    var one := [Taken(a, c, b.next)];
    forall x, d ensures StackKept(t', b', x, d) {
      assert StackKept(t, b, x, d);
      HandlesConcat(b.taken, one, x, d);
      assert one[..0] == [];
    }
  }

  lemma PopStack(t: Transport, a: Adapter, c: string, x: Adapter, d: string)
    ensures var list := Stack(t, x, d);
      Stack(Pop(t, a, c), x, d) == if x == a && d == c && list != [] then list[..|list| - 1] else list
  {
  }

  function LiveAfter(live: map<nat, string>, list: seq<nat>): map<nat, string> {
    if list == [] then live else live - {list[|list| - 1]}
  }

  lemma AdapterReleaseBooks(t: Transport, a: Adapter, c: string, immediate: bool)
    ensures SameBooks(Pop(t, a, c).(live := LiveAfter(t.live, Stack(t, a, c))), AdapterRelease(t, a, c, immediate))
  {
    var list := Stack(t, a, c);
    if list != [] { ReleaseBooks(Pop(t, a, c), list[|list| - 1], immediate); }
  }

  lemma GivenBackLive(b: Books, a: Adapter, c: string)
    ensures GiveBack(b, a, c).live == LiveAfter(b.live, HandlesFor(b.taken, a, c))
    ensures GiveBack(b, a, c).(live := b.live, taken := b.taken) == b
  {
    NewestIsLast(b.taken, a, c);
  }

  lemma PoppedKept(t: Transport, b: Books, a: Adapter, c: string, x: Adapter, d: string)
    requires StackKept(t, b, x, d)
    ensures StackKept(Pop(t, a, c), GiveBack(b, a, c), x, d)
  {
    PopStack(t, a, c, x, d);
    GivenBackHandles(b, a, c, x, d);
  }

  lemma AdapterReleaseKeepsBooks(t: Transport, b: Books, a: Adapter, c: string, immediate: bool)
    requires Keeps(t, b)
    ensures Keeps(AdapterRelease(t, a, c, immediate), GiveBack(b, a, c))
  {
    var t', b' := AdapterRelease(t, a, c, immediate), GiveBack(b, a, c);
    assert StackKept(t, b, a, c);
    AdapterReleaseBooks(t, a, c, immediate);
    GivenBackLive(b, a, c);
    forall x, d ensures StackKept(t', b', x, d) {
      assert StackKept(t, b, x, d);
      PoppedKept(t, b, a, c, x, d);
    }
  }

  /** An event that leaves the adapters' stacks alone. */
  lemma OwnersKeep(t: Transport, t': Transport, b: Books, b': Books)
    requires Keeps(t, b) && t'.stacks == t.stacks && b'.taken == b.taken
    requires t'.hasSend == b'.hasSend && t'.epoch == b'.epoch && t'.gateOpen == b'.gateOpen
    requires t'.next == b'.next && t'.live == b'.live
    ensures Keeps(t', b')
  {
    forall a, c ensures StackKept(t', b', a, c) {
      assert StackKept(t, b, a, c);
    }
  }

  lemma NewSessionBooks(t: Transport, epoch: Option<int>)
    ensures SameBooks(t.(epoch := epoch), NewSession(t, epoch))
  {
  }

  lemma RebindBooks(t: Transport, hasSend: Option<bool>, gateOpen: Option<bool>, epoch: Option<Option<int>>)
    ensures var t' := Rebind(t, hasSend, gateOpen, epoch);
      && t'.hasSend == (if hasSend.Some? then hasSend.value else t.hasSend)
      && t'.gateOpen == (if gateOpen.Some? then gateOpen.value else t.gateOpen)
      && t'.epoch == (if epoch.Some? then epoch.value else t.epoch)
      && t'.next == t.next && t'.live == t.live && t'.stacks == t.stacks
  {
    var t1 := Rebind(t, hasSend, gateOpen, None);
    if epoch.Some? && epoch.value != t.epoch { NewSessionBooks(t1, epoch.value); }
  }

  lemma UpdateBooks(t: Transport, hasSend: Option<bool>, gateOpen: Option<bool>, epoch: Option<Option<int>>, order: seq<string>)
    ensures var t' := ResubscribeEach(Rebind(t, hasSend, gateOpen, epoch), order);
      && t'.hasSend == (if hasSend.Some? then hasSend.value else t.hasSend)
      && t'.gateOpen == (if gateOpen.Some? then gateOpen.value else t.gateOpen)
      && t'.epoch == (if epoch.Some? then epoch.value else t.epoch)
      && t'.next == t.next && t'.live == t.live && t'.stacks == t.stacks
  {
    var t1 := Rebind(t, hasSend, gateOpen, epoch);
    var t' := ResubscribeEach(t1, order);
    RebindBooks(t, hasSend, gateOpen, epoch);
    ResubscribeSends(t1, order);
    assert SameBooks(t1, t');
  }

  lemma HoldBooks(t: Transport, c: string, service: Option<Service>)
    ensures var t' := Hold(t, c, service);
      && t'.live == t.live[t.next := c] && t'.next == t.next + 1 && t'.stacks == t.stacks
      && t'.hasSend == t.hasSend && t'.epoch == t.epoch && t'.gateOpen == t.gateOpen
  {
  }

  lemma StepKeepsBooks(t: Transport, b: Books, immediate: bool, e: Event)
    requires Keeps(t, b)
    ensures Keeps(Step(t, immediate, e), Note(b, e))
  {
    match e
    case AdapterHoldEvent(a, c, service) => AdapterHoldKeepsBooks(t, b, a, c, service);
    case AdapterReleaseEvent(a, c) => AdapterReleaseKeepsBooks(t, b, a, c, immediate);
    case HoldEvent(c, service) =>
      HoldBooks(t, c, service);
      OwnersKeep(t, Hold(t, c, service), b, Note(b, e));
    case ReleaseEvent(handle) =>
      ReleaseBooks(t, handle, immediate);
      OwnersKeep(t, Release(t, handle, immediate), b, Note(b, e));
    case FlushEvent(order) =>
      FlushKeepsBooks(t, order);
      SameBooksKeep(t, FlushAll(t, order), b);
    case ResubscribeEvent(order) =>
      ResubscribeSends(t, order);
      SameBooksKeep(t, ResubscribeEach(t, order), b);
    case UpdateEvent(hasSend, gateOpen, epoch, order) =>
      UpdateBooks(t, hasSend, gateOpen, epoch, order);
      OwnersKeep(t, Step(t, immediate, e), b, Note(b, e));
    case GateEvent(open) => OwnersKeep(t, t.(gateOpen := open), b, Note(b, e));
  }

  /** In every run the transport's holds, adapter stacks, socket, gate and epoch are what the events say. */
  lemma {:induction false} RunKeepsBooks(t: Transport, b: Books, immediate: bool, events: seq<Event>)
    requires Keeps(t, b)
    ensures Keeps(Run(t, immediate, events), Noted(b, events))
    decreases |events|
  {
    if events != [] {
      StepKeepsBooks(t, b, immediate, events[0]);
      RunKeepsBooks(Step(t, immediate, events[0]), Note(b, events[0]), immediate, events[1..]);
    }
  }

  lemma FreshKeepsBooks(hasSend: bool, epoch: Option<int>, gateOpen: bool)
    ensures Keeps(Fresh(hasSend, epoch, gateOpen), Opening(hasSend, epoch, gateOpen))
  {
  }

  // ---- Who owns a hold ----------------------------------------------------------------------

  /**
   * Every hold still out is a direct one's or an adapter's, never both, and an
   * adapter has it once, under its own channel.
   */
  ghost predicate Owned(b: Books) {
    && (forall h | h in b.live || h in b.direct :: h < b.next)
    && (forall i | 0 <= i < |b.taken| :: EntryOk(b, b.taken[i]))
    && (forall i, j | 0 <= i < j < |b.taken| :: b.taken[i].handle != b.taken[j].handle)
    && (forall h | h in b.live :: h in b.direct || TakenBy(b, h))
  }

  predicate EntryOk(b: Books, x: Taken) {
    x.handle < b.next && x.handle !in b.direct && (x.handle in b.live ==> b.live[x.handle] == x.channel)
  }

  ghost predicate TakenBy(b: Books, h: nat) {
    exists i :: 0 <= i < |b.taken| && b.taken[i].handle == h
  }

  lemma HoldKeepsOwned(b: Books, c: string, b': Books)
    requires Owned(b)
    requires b' == NewHold(b, c).(direct := b.direct + {b.next})
             || exists a :: b' == NewHold(b, c).(taken := b.taken + [Taken(a, c, b.next)])
    ensures Owned(b')
  {
    forall h | h in b'.live ensures h in b'.direct || TakenBy(b', h) {
      if h in b.live && h !in b.direct {
        var i :| 0 <= i < |b.taken| && b.taken[i].handle == h;
        assert b'.taken[i].handle == h;
      } else if h == b.next && h !in b'.direct {
        assert b'.taken[|b.taken|].handle == h;
      }
    }
    forall i | 0 <= i < |b'.taken| ensures EntryOk(b', b'.taken[i]) {
      if i < |b.taken| { assert EntryOk(b, b.taken[i]); }
    }
  }

  lemma DropKeepsOwned(b: Books, handle: nat)
    requires Owned(b)
    ensures Owned(b.(live := b.live - {handle}))
  {
    var b' := b.(live := b.live - {handle});
    forall i | 0 <= i < |b'.taken| ensures EntryOk(b', b'.taken[i]) {
      assert EntryOk(b, b.taken[i]);
    }
    forall h | h in b'.live ensures h in b'.direct || TakenBy(b', h) {
      assert h in b.direct || TakenBy(b, h);
    }
  }

  lemma GiveBackKeepsOwned(b: Books, a: Adapter, c: string)
    requires Owned(b)
    ensures Owned(GiveBack(b, a, c))
  {
    var at := NewestAt(b.taken, a, c);
    if at.Some? {
      var i, b' := at.value, GiveBack(b, a, c);
      assert forall j | 0 <= j < |b'.taken| :: b'.taken[j] == b.taken[if j < i then j else j + 1];
      forall j | 0 <= j < |b'.taken| ensures EntryOk(b', b'.taken[j]) {
        assert EntryOk(b, b.taken[if j < i then j else j + 1]);
      }
      forall h | h in b'.live ensures h in b'.direct || TakenBy(b', h) {
        if h !in b.direct {
          var j :| 0 <= j < |b.taken| && b.taken[j].handle == h;
          assert b'.taken[if j < i then j else j - 1].handle == h;
        }
      }
    }
  }

  lemma {:induction false} BooksAreOwned(b: Books, events: seq<Event>)
    requires Owned(b)
    ensures Owned(Noted(b, events))
    decreases |events|
  {
    if events != [] {
      var e := events[0];
      match e {
        case HoldEvent(c, _) => HoldKeepsOwned(b, c, Note(b, e));
        case AdapterHoldEvent(a, c, _) => HoldKeepsOwned(b, c, Note(b, e));
        case ReleaseEvent(handle) => DropKeepsOwned(b, handle);
        case AdapterReleaseEvent(a, c) => GiveBackKeepsOwned(b, a, c);
        case _ => OwnedReadsHolds(b, Note(b, e));
      }
      BooksAreOwned(Note(b, e), events[1..]);
    }
  }

  lemma OwnedReadsHolds(b: Books, b': Books)
    requires Owned(b) && b'.next == b.next && b'.live == b.live && b'.direct == b.direct && b'.taken == b.taken
    ensures Owned(b')
  {
    forall i | 0 <= i < |b'.taken| ensures EntryOk(b', b'.taken[i]) {
      assert EntryOk(b, b.taken[i]);
    }
    forall h | h in b'.live ensures h in b'.direct || TakenBy(b', h) {
      assert h in b.direct || TakenBy(b, h);
    }
  }

  /**
   * In every run every uncalled release is either a direct hold's or in exactly
   * one adapter's list of its own channel, and once an adapter gives back its
   * newest hold that release has been called.
   */
  lemma UncalledReleasesHaveOneOwner(hasSend: bool, epoch: Option<int>, gateOpen: bool, immediate: bool, events: seq<Event>)
    ensures var t := Run(Fresh(hasSend, epoch, gateOpen), immediate, events);
      var b := Noted(Opening(hasSend, epoch, gateOpen), events);
      && t.live == b.live && Owned(b)
      && (forall a, c :: Stack(t, a, c) == HandlesFor(b.taken, a, c))
      && (forall h | h in t.live :: h in b.direct <==> !TakenBy(b, h))
      && (forall a, c | Stack(t, a, c) != [] ::
            Stack(t, a, c)[|Stack(t, a, c)| - 1] !in AdapterRelease(t, a, c, immediate).live)
  {
    var t0, b0 := Fresh(hasSend, epoch, gateOpen), Opening(hasSend, epoch, gateOpen);
    var t, b := Run(t0, immediate, events), Noted(b0, events);
    FreshKeepsBooks(hasSend, epoch, gateOpen);
    RunKeepsBooks(t0, b0, immediate, events);
    BooksAreOwned(b0, events);
    forall a, c ensures Stack(t, a, c) == HandlesFor(b.taken, a, c) {
      assert StackKept(t, b, a, c);
    }
    forall h | h in t.live ensures h in b.direct <==> !TakenBy(b, h) {
      assert forall i | 0 <= i < |b.taken| :: EntryOk(b, b.taken[i]) && b.taken[i].handle !in b.direct;
    }
    forall a, c | Stack(t, a, c) != []
      ensures Stack(t, a, c)[|Stack(t, a, c)| - 1] !in AdapterRelease(t, a, c, immediate).live
    {
      AdapterReleaseBooks(t, a, c, immediate);
    }
  }

  // ---- What an adapter's unsubscribe does -------------------------------------------------------

  lemma ReleaseCounts(t: Transport, h: nat, immediate: bool)
    requires Invariant(t) && h in t.live
    ensures var c, t' := t.live[h], Release(t, h, immediate);
      && c in t.held && t.held[c].count >= 1
      && t'.live == t.live - {h}
      && (if c in t'.held then t'.held[c].count == t.held[c].count - 1 else t.held[c].count == 1)
  {
    var c, t1 := t.live[h], LetGo(t, h);
    assert SlotOk(SlotOf(t, c), SessionKey(t)) && h in Handles(t.live, c);
    assert [c][..0] == [];
    assert FlushEach(t1, [c]) == FlushOne(FlushEach(t1, []), c) == FlushOne(t1, c);
  }

  /**
   * The unsubscribe calls the adapter's newest release: that hold is out no
   * more, the list is one shorter, and the channel is held once less, or gone
   * where its flush ran at once.
   */
  lemma AdapterReleaseLetsGo(t: Transport, a: Adapter, c: string, immediate: bool)
    requires Invariant(t) && Stack(t, a, c) != [] && Stack(t, a, c)[|Stack(t, a, c)| - 1] in t.live
    ensures var list, t' := Stack(t, a, c), AdapterRelease(t, a, c, immediate);
      && t'.live == t.live - {list[|list| - 1]}
      && Stack(t', a, c) == list[..|list| - 1]
      && c in t.held && t.held[c].count >= 1
      && (if c in t'.held then t'.held[c].count == t.held[c].count - 1 else t.held[c].count == 1)
  {
    var list := Stack(t, a, c);
    var h := list[|list| - 1];
    assert HandleOk(t, t.stacks[(a, c)][|list| - 1], c);
    PopKeepsInvariant(t, a, c);
    PopStack(t, a, c, a, c);
    ReleaseCounts(Pop(t, a, c), h, immediate);
    AdapterReleaseBooks(t, a, c, immediate);
  }

  /** What an adapter takes and gives back again leaves the holds as they were. */
  lemma AdapterRoundTrip(t: Transport, a: Adapter, c: string, service: Option<Service>, immediate: bool)
    requires Invariant(t)
    ensures var t' := AdapterRelease(AdapterHold(t, a, c, service), a, c, immediate);
      t'.live == t.live && forall b, d :: Stack(t', b, d) == Stack(t, b, d)
  {
    var t1 := AdapterHold(t, a, c, service);
    HoldBooks(t, c, service);
    assert Stack(t1, a, c) == Stack(t, a, c) + [t.next] && t1.live == t.live[t.next := c] && t.next !in t.live;
    AdapterReleaseBooks(t1, a, c, immediate);
    forall b, d ensures Stack(AdapterRelease(t1, a, c, immediate), b, d) == Stack(t, b, d) {
      PopStack(t1, a, c, b, d);
    }
  }

  lemma FlushClearsUnheld(t: Transport, c: string, order: seq<string>)
    requires Invariant(t) && Synced(t) && Open(t) && c !in t.live.Values && Lists(order, t.pending)
    ensures var t' := FlushAll(t, order); c !in Server(t'.wire) && c !in t'.held
  {
    var t' := FlushAll(t, order);
    FlushAllKeepsInvariant(t, order);
    FlushAllKeepsSynced(t, order);
    FlushKeepsBooks(t, order);
    LiveValue(t.live, c);
    assert SlotOk(SlotOf(t', c), SessionKey(t'));
  }

  /** A channel nobody holds, taken and given back by an adapter: after the flush the server does not have it. */
  lemma AdapterRoundTripLeavesNothing(t: Transport, a: Adapter, c: string, service: Option<Service>, immediate: bool,
                                      order: seq<string>)
    requires Invariant(t) && Synced(t) && Open(t) && c !in t.live.Values
    requires Lists(order, AdapterRelease(AdapterHold(t, a, c, service), a, c, immediate).pending)
    ensures var t' := FlushAll(AdapterRelease(AdapterHold(t, a, c, service), a, c, immediate), order);
      c !in Server(t'.wire) && c !in t'.held && t'.live == t.live
  {
    var t1 := AdapterHold(t, a, c, service);
    var t2 := AdapterRelease(t1, a, c, immediate);
    AdapterRoundTrip(t, a, c, service, immediate);
    AdapterReleaseBooks(t1, a, c, immediate);
    AdapterHoldKeepsInvariant(t, a, c, service);
    AdapterReleaseKeepsInvariant(t1, a, c, immediate);
    HoldBooks(t, c, service);
    StepKeepsSynced(t, immediate, AdapterHoldEvent(a, c, service));
    StepKeepsSynced(t1, immediate, AdapterReleaseEvent(a, c));
    FlushClearsUnheld(t2, c, order);
    FlushKeepsBooks(t2, order);
  }

  // ---- The server against the books -------------------------------------------------------------

  /** By the books there is a socket and its gate is open, unless there is no session yet. */
  predicate OpenByBooks(b: Books) {
    b.epoch == Some(0) || (b.hasSend && b.gateOpen)
  }

  ghost predicate OpenThroughout(b: Books, events: seq<Event>)
    decreases |events|
  {
    OpenByBooks(b) && (events != [] ==> OpenThroughout(Note(b, events[0]), events[1..]))
  }

  lemma {:induction false} BooksOpenAlong(t: Transport, b: Books, immediate: bool, events: seq<Event>)
    requires Keeps(t, b) && OpenThroughout(b, events)
    ensures OpenAlong(t, immediate, events)
    decreases |events|
  {
    if events != [] {
      StepKeepsBooks(t, b, immediate, events[0]);
      BooksOpenAlong(Step(t, immediate, events[0]), Note(b, events[0]), immediate, events[1..]);
    }
  }

  /**
   * The server has what the callers hold: over every run in which, as the
   * callers gave them, a socket and an open gate are there whenever there is a
   * session, it has every channel with a hold still out, and after a flush no
   * other, across any epochs. Every side of it is read off the events.
   */
  lemma ServerHasWhatCallersHold(hasSend: bool, epoch: Option<int>, gateOpen: bool, immediate: bool, events: seq<Event>,
                                 order: seq<string>)
    requires EnabledAll(Fresh(hasSend, epoch, gateOpen), immediate, events)
    requires OpenThroughout(Opening(hasSend, epoch, gateOpen), events)
    requires Lists(order, Run(Fresh(hasSend, epoch, gateOpen), immediate, events).pending)
    ensures var t := Run(Fresh(hasSend, epoch, gateOpen), immediate, events);
      var b := Noted(Opening(hasSend, epoch, gateOpen), events);
      if b.epoch == Some(0) then Server(t.wire) == map[]
      else b.live.Values <= Server(t.wire).Keys && Server(FlushAll(t, order).wire).Keys == b.live.Values
  {
    FreshKeepsBooks(hasSend, epoch, gateOpen);
    BooksOpenAlong(Fresh(hasSend, epoch, gateOpen), Opening(hasSend, epoch, gateOpen), immediate, events);
    RunKeepsBooks(Fresh(hasSend, epoch, gateOpen), Opening(hasSend, epoch, gateOpen), immediate, events);
    ServerAgreesWithHolders(hasSend, epoch, gateOpen, immediate, events, order);
  }

  // ---- When a flush is coming --------------------------------------------------------------------

  /** The release an event calls, if it is one. */
  function CalledBy(t: Transport, e: Event): Option<nat> {
    match e
    case ReleaseEvent(handle) => Some(handle)
    case AdapterReleaseEvent(a, c) => if Stack(t, a, c) == [] then None else Some(Stack(t, a, c)[|Stack(t, a, c)| - 1])
    case _ => None
  }

  /** It lets go of its channel's last hold. */
  predicate LetsLastGo(t: Transport, e: Event) {
    var h := CalledBy(t, e);
    h.Some? && h.value in t.live && t.live[h.value] in t.held && t.held[t.live[h.value]].count <= 1
  }

  lemma ReleaseSchedules(t: Transport, h: nat, immediate: bool)
    requires Invariant(t)
    ensures Release(t, h, immediate).flushScheduled
       <==> t.flushScheduled || (LetsLastGo(t, ReleaseEvent(h)) && !immediate)
  {
    if h in t.live { assert SlotOk(SlotOf(t, t.live[h]), SessionKey(t)) && h in Handles(t.live, t.live[h]); }
  }

  /** A flush is scheduled by letting a channel's last hold go, unless it runs at once, and by nothing else; flushing clears it. */
  lemma FlushIsScheduledExactly(t: Transport, immediate: bool, e: Event)
    requires Invariant(t)
    ensures Step(t, immediate, e).flushScheduled
       <==> !e.FlushEvent? && (t.flushScheduled || (LetsLastGo(t, e) && !immediate))
  {
    match e
    case ReleaseEvent(h) => ReleaseSchedules(t, h, immediate);
    case AdapterReleaseEvent(a, c) =>
      PopKeepsInvariant(t, a, c);
      if Stack(t, a, c) != [] { ReleaseSchedules(Pop(t, a, c), Stack(t, a, c)[|Stack(t, a, c)| - 1], immediate); }
    case ResubscribeEvent(order) => ResubscribeSends(t, order);
    case UpdateEvent(hasSend, gateOpen, epoch, order) => ResubscribeSends(Rebind(t, hasSend, gateOpen, epoch), order);
    case _ =>
  }
}
