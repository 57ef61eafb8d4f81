/**
 * When the start and end notices of a call alternate: the events that break
 * the alternation, told by their guards in the states they ran in.
 */
module CallLifecycleNotices {
  import opened Common
  import opened ReverseIndex
  import opened DmNames
  import opened CallLifecycle
  import opened CallLifecycleRuns

  // ---- The two guards ---------------------------------------------------------------

  /** A join that gets in and finds the call not accepted yet: it opens the call without a notice. */
  predicate JoinOpens(n: Node, e: Event, k: string) {
    && e.Join? && e.callId == k && k != "" && e.lobbyName != "" && e.userId != ""
    && (k in n.calls ==> n.calls[k].lobbyName == e.lobbyName)
    && !SeatedElsewhere(n, k, e.clientId, e.env)
    && k !in n.accepted
  }

  /**
   * What ends an accepted call: its last leaver or either party of a DM hanging
   * up, a drop that leaves nobody, or one without a grace, a grace that runs
   * out on fewer than two, and an outright forget.
   */
  predicate EndsCall(n: Node, graceMs: nat, e: Event, k: string)
    requires k in n.calls
  {
    match e
    case Terminal(c, cl, _) =>
      c == k && k != "" && RestEnds(n.calls[k].roster - {cl}, IsDmLobby(n.calls[k].lobbyName))
    case Disconnect(cl, _) => cl in n.calls[k].roster && RestIsForgotten(n.calls[k].roster - {cl}, graceMs)
    case GraceExpires(c) => c == k && k in n.graced && |n.calls[k].roster| < 2
    case Forget(c, _) => c == k
    case _ => false
  }

  predicate RestEnds(rest: set<string>, dm: bool) {
    rest == {} || (|rest| == 1 && dm)
  }

  predicate RestIsForgotten(rest: set<string>, graceMs: nat) {
    |rest| < 2 && (graceMs == 0 || |rest| == 0)
  }

  // ---- The guard of an end is exact ------------------------------------------------------

  lemma TerminalEnds(n: Node, callId: string, clientId: string, verb: Verb, k: string)
    requires k in n.accepted && k in n.calls
    ensures k !in TerminalStep(n, callId, clientId, verb).accepted
       <==> EndsCall(n, 0, Terminal(callId, clientId, verb), k)
  {
  }

  lemma DepartEnds(n: Node, graceMs: nat, callId: string, clientId: string)
    requires callId in n.accepted && callId in n.calls
    ensures callId !in DepartStep(n, graceMs, callId, clientId).accepted
       <==> RestIsForgotten(n.calls[callId].roster - {clientId}, graceMs)
  {
  }

  lemma DepartElsewhere(n: Node, graceMs: nat, callId: string, clientId: string, k: string)
    requires k != callId
    ensures SlotOf(DepartStep(n, graceMs, callId, clientId), k) == SlotOf(n, k)
  {
  }

  /** The walk of a disconnect ends `k` exactly when it comes to it and nothing keeps it. */
  lemma {:induction false} DepartEachEnds(n: Node, graceMs: nat, clientId: string, order: seq<string>, k: string)
    requires k in n.accepted && k in n.calls
    requires forall i, j | 0 <= i < j < |order| :: order[i] != order[j]
    ensures var n' := DepartEach(n, graceMs, clientId, order);
      && (k !in order ==> SlotOf(n', k) == SlotOf(n, k))
      && (k !in n'.accepted <==> k in order && RestIsForgotten(n.calls[k].roster - {clientId}, graceMs))
  {
    if order != [] {
      var front, last := order[..|order| - 1], order[|order| - 1];
      var mid := DepartEach(n, graceMs, clientId, front);
      assert order == front + [last];
      forall i | 0 <= i < |front| ensures front[i] != last {
        assert order[i] != order[|order| - 1];
      }
      DepartEachEnds(n, graceMs, clientId, front, k);
      if k == last {
        assert SlotOf(mid, k) == SlotOf(n, k);
        assert k in mid.calls && mid.calls[k] == n.calls[k] && k in mid.accepted;
        DepartEnds(mid, graceMs, k, clientId);
      } else {
        DepartElsewhere(mid, graceMs, last, clientId, k);
        var n' := DepartStep(mid, graceMs, last, clientId);
        assert SlotOf(n', k).accepted == SlotOf(mid, k).accepted;
      }
    }
  }

  lemma DisconnectEnds(n: Node, graceMs: nat, clientId: string, order: seq<string>, k: string)
    requires Invariant(n) && Walks(order, At(n.byClient, clientId)) && k in n.accepted
    ensures k in n.calls
    ensures k !in DisconnectStep(n, graceMs, clientId, order).accepted
       <==> EndsCall(n, graceMs, Disconnect(clientId, order), k)
  {
    assert SlotOk(SlotOf(n, k)) && Agree(n, clientId, k);
    DepartEachEnds(n, graceMs, clientId, order, k);
  }

  lemma ForgetEnds(n: Node, callId: string, reason: MissedReason, k: string)
    requires k in n.accepted && k in n.calls
    ensures k !in ForgetStep(n, callId, reason).accepted <==> callId == k
  {
  }

  lemma GraceEnds(n: Node, callId: string, k: string)
    requires k in n.accepted && k in n.calls
    ensures k !in GraceStep(n, callId).accepted <==> callId == k && k in n.graced && |n.calls[k].roster| < 2
  {
  }

  lemma EnteringKeepsAccepted(n: Node, graceMs: nat, e: Event, k: string)
    requires Entering(e) && k in n.accepted
    ensures k in Step(n, graceMs, e).accepted
  {
  }

  /** An accepted call ends in a step exactly when the step's guard says so. */
  lemma CallEndsExactlyWhen(n: Node, graceMs: nat, e: Event, k: string)
    requires Invariant(n) && Enabled(n, e) && k in n.accepted
    ensures k in n.calls
    ensures k !in Step(n, graceMs, e).accepted <==> EndsCall(n, graceMs, e, k)
  {
    assert SlotOk(SlotOf(n, k));
    match e
    case Terminal(c, cl, verb) => TerminalEnds(n, c, cl, verb, k);
    case Disconnect(cl, order) => DisconnectEnds(n, graceMs, cl, order, k);
    case GraceExpires(c) => GraceEnds(n, c, k);
    case Forget(c, reason) => ForgetEnds(n, c, reason, k);
    case Invite(_, _, _, _, _) => EnteringKeepsAccepted(n, graceMs, e, k);
    case Accept(_, _, _, _, _) => EnteringKeepsAccepted(n, graceMs, e, k);
    case Join(_, _, _, _, _) => EnteringKeepsAccepted(n, graceMs, e, k);
    case Rejoin(_, _, _, _, _) => EnteringKeepsAccepted(n, graceMs, e, k);
  }

  // ---- What each step leaves --------------------------------------------------------------

  predicate Ends(n: Node, graceMs: nat, e: Event, k: string) {
    k in n.accepted && k in n.calls && EndsCall(n, graceMs, e, k)
  }

  /** The join guard is the silent opening. */
  lemma JoinOpensExactlyWhen(n: Node, graceMs: nat, e: Event, k: string)
    requires Entering(e)
    ensures MarksOf(Step(n, graceMs, e), k) == MarksOf(n, k) + [OpenedSilently] <==> JoinOpens(n, e, k)
  {
    EnteringEndsNothing(n, graceMs, e, k);
    var ms := MarksOf(n, k);
    assert (ms + [OpenedSilently])[|ms|] == OpenedSilently && (ms + [Started])[|ms|] == Started;
    if e.Join? { JoinMarks(n, e.callId, e.clientId, e.userId, e.lobbyName, e.env, k); }
  }

  lemma JoinMarks(n: Node, callId: string, clientId: string, userId: string, lobbyName: string, env: Env, k: string)
    ensures MarksOf(JoinStep(n, callId, clientId, userId, lobbyName, env), k) == MarksOf(n, k)
            + if JoinOpens(n, Join(callId, clientId, userId, lobbyName, env), k) then [OpenedSilently] else []
  {
  }

  ghost predicate Heard(ms: seq<Mark>, ms': seq<Mark>) {
    ms' == ms || ms' == ms + [Started] || exists r :: ms' == ms + [Missed(r)]
  }

  /** A step opens silently, ends, or leaves something that neither opens silently nor ends. */
  lemma StepMarks(n: Node, graceMs: nat, e: Event, k: string)
    requires Invariant(n) && Enabled(n, e)
    ensures var ms, ms' := MarksOf(n, k), MarksOf(Step(n, graceMs, e), k);
      if JoinOpens(n, e, k) then ms' == ms + [OpenedSilently]
      else if Ends(n, graceMs, e, k) then ms' == ms + [Ended]
      else Heard(ms, ms')
  {
    var n' := Step(n, graceMs, e);
    var ms, ms' := MarksOf(n, k), MarksOf(n', k);
    StepKeepsInvariant(n, graceMs, e);
    assert SlotOk(SlotOf(n, k)) && SlotOk(SlotOf(n', k));
    if Entering(e) {
      JoinOpensExactlyWhen(n, graceMs, e, k);
      EnteringEndsNothing(n, graceMs, e, k);
    } else {
      if k in n.accepted { CallEndsExactlyWhen(n, graceMs, e, k); }
      StepAnnouncesOnce(n, graceMs, e, k);
      LeavingNeverOpens(n, graceMs, e, k);
      NoOpeningAdded(ms, ms');
      NoticeOfScan(ms, ms', k in n.accepted, k in n'.accepted);
    }
  }

  /** Whether the call was and is open tells which of the possible notices it was. */
  lemma NoticeOfScan(ms: seq<Mark>, ms': seq<Mark>, was: bool, still: bool)
    requires Scan(ms) == Some(was) && Scan(ms') == Some(still)
    requires Heard(ms, ms') || ms' == ms + [Ended]
    ensures was && !still ==> ms' == ms + [Ended]
    ensures !(was && !still) ==> Heard(ms, ms')
  {
    ScanSnoc(ms, Ended);
    ScanSnoc(ms, Started);
    forall r { ScanSnoc(ms, Missed(r)); }
  }

  /** Marks were only added, and none of them opens. */
  predicate AddsNoOpening(ms: seq<Mark>, ms': seq<Mark>) {
    ms <= ms' && forall i | |ms| <= i < |ms'| :: ms'[i] != Started && ms'[i] != OpenedSilently
  }

  lemma NoOpeningAdded(ms: seq<Mark>, ms': seq<Mark>)
    requires AddsNoOpening(ms, ms')
    ensures ms' != ms + [Started] && ms' != ms + [OpenedSilently]
  {
    assert (ms + [Started])[|ms|] == Started && (ms + [OpenedSilently])[|ms|] == OpenedSilently;
  }

  /** Leaving a call never leaves an opening. */
  lemma LeavingNeverOpens(n: Node, graceMs: nat, e: Event, k: string)
    requires !Entering(e)
    ensures AddsNoOpening(MarksOf(n, k), MarksOf(Step(n, graceMs, e), k))
  {
    match e
    case Terminal(c, cl, verb) => TerminalOpensNothing(n, c, cl, verb, k);
    case Disconnect(cl, order) => DepartEachOpensNothing(n, graceMs, cl, order, k);
    case GraceExpires(c) => ForgetOpensNothing(n.(graced := n.graced - {c}), c, Cancelled, k);
    case Forget(c, reason) => ForgetOpensNothing(n, c, reason, k);
  }

  lemma ForgetOpensNothing(n: Node, callId: string, reason: MissedReason, k: string)
    ensures AddsNoOpening(MarksOf(n, k), MarksOf(ForgetStep(n, callId, reason), k))
  {
  }

  lemma TerminalOpensNothing(n: Node, callId: string, clientId: string, verb: Verb, k: string)
    ensures AddsNoOpening(MarksOf(n, k), MarksOf(TerminalStep(n, callId, clientId, verb), k))
  {
    if callId != "" && callId in n.calls {
      var left, call := NodeAfter(n, callId, clientId, verb), CallAfter(n, callId, clientId, verb);
      ForgetOpensNothing(left, callId, Cancelled, k);
      AnnounceIsOneNotice(left, callId, call, Cancelled);
      assert TerminalStep(n, callId, clientId, verb) in {left, ForgetStep(left, callId, Cancelled)} || call.roster == {};
    }
  }

  lemma DepartOpensNothing(n: Node, graceMs: nat, callId: string, clientId: string, k: string)
    ensures AddsNoOpening(MarksOf(n, k), MarksOf(DepartStep(n, graceMs, callId, clientId), k))
  {
  }

  lemma {:induction false} DepartEachOpensNothing(n: Node, graceMs: nat, clientId: string, order: seq<string>, k: string)
    ensures AddsNoOpening(MarksOf(n, k), MarksOf(DepartEach(n, graceMs, clientId, order), k))
  {
    if order != [] {
      var front := order[..|order| - 1];
      DepartEachOpensNothing(n, graceMs, clientId, front, k);
      DepartOpensNothing(DepartEach(n, graceMs, clientId, front), graceMs, order[|order| - 1], clientId, k);
    }
  }

  // ---- Whole runs -----------------------------------------------------------------------------

  /** Event `i` of the run from an idle node opens `k` silently. */
  predicate OpensAt(graceMs: nat, events: seq<Event>, i: nat, k: string)
    requires i < |events|
  {
    JoinOpens(Run(IDLE, graceMs, events[..i]), events[i], k)
  }

  /** Event `j` of the run ends the accepted call `k`. */
  predicate EndsAt(graceMs: nat, events: seq<Event>, j: nat, k: string)
    requires j < |events|
  {
    Ends(Run(IDLE, graceMs, events[..j]), graceMs, events[j], k)
  }

  ghost predicate OpensSilently(graceMs: nat, events: seq<Event>, k: string) {
    exists i | 0 <= i < |events| :: OpensAt(graceMs, events, i, k)
  }

  /** A join opened `k` unheard, and later it was ended. */
  ghost predicate EndsAfterSilentOpening(graceMs: nat, events: seq<Event>, k: string) {
    exists i, j | 0 <= i < j < |events| :: OpensAt(graceMs, events, i, k) && EndsAt(graceMs, events, j, k)
  }

  lemma {:induction false} RunSnoc(n: Node, graceMs: nat, events: seq<Event>, e: Event)
    ensures Run(n, graceMs, events + [e]) == Step(Run(n, graceMs, events), graceMs, e)
    ensures EnabledAll(n, graceMs, events + [e])
       <==> EnabledAll(n, graceMs, events) && Enabled(Run(n, graceMs, events), e)
    decreases |events|
  {
    if events == [] {
      assert [] + [e] == [e] && [e][1..] == [];
    } else {
      assert (events + [e])[0] == events[0] && (events + [e])[1..] == events[1..] + [e];
      RunSnoc(Step(n, graceMs, events[0]), graceMs, events[1..], e);
    }
  }

  lemma OpensSnoc(graceMs: nat, events: seq<Event>, e: Event, k: string)
    ensures OpensSilently(graceMs, events + [e], k)
       <==> OpensSilently(graceMs, events, k) || JoinOpens(Run(IDLE, graceMs, events), e, k)
  {
    var longer, n := events + [e], |events|;
    assert longer[..n] == events && longer[n] == e;
    forall i | 0 <= i < n ensures OpensAt(graceMs, longer, i, k) == OpensAt(graceMs, events, i, k) {
      assert longer[..i] == events[..i];
    }
    if OpensSilently(graceMs, events, k) {
      var i :| 0 <= i < n && OpensAt(graceMs, events, i, k);
      assert OpensAt(graceMs, longer, i, k);
    }
    if JoinOpens(Run(IDLE, graceMs, events), e, k) { assert OpensAt(graceMs, longer, n, k); }
  }

  lemma EndsSnoc(graceMs: nat, events: seq<Event>, e: Event, k: string)
    ensures EndsAfterSilentOpening(graceMs, events + [e], k)
       <==> EndsAfterSilentOpening(graceMs, events, k)
            || (OpensSilently(graceMs, events, k) && Ends(Run(IDLE, graceMs, events), graceMs, e, k))
  {
    var longer, n := events + [e], |events|;
    assert longer[..n] == events && longer[n] == e;
    forall i | 0 <= i < n
      ensures OpensAt(graceMs, longer, i, k) == OpensAt(graceMs, events, i, k)
      ensures EndsAt(graceMs, longer, i, k) == EndsAt(graceMs, events, i, k)
    {
      assert longer[..i] == events[..i];
    }
    assert EndsAt(graceMs, longer, n, k) == Ends(Run(IDLE, graceMs, events), graceMs, e, k);
    if EndsAfterSilentOpening(graceMs, events, k) {
      var i, j :| 0 <= i < j < n && OpensAt(graceMs, events, i, k) && EndsAt(graceMs, events, j, k);
      assert OpensAt(graceMs, longer, i, k) && EndsAt(graceMs, longer, j, k);
    }
    if OpensSilently(graceMs, events, k) && Ends(Run(IDLE, graceMs, events), graceMs, e, k) {
      var i :| 0 <= i < n && OpensAt(graceMs, events, i, k);
      assert OpensAt(graceMs, longer, i, k) && EndsAt(graceMs, longer, n, k);
    }
  }

  lemma MarksSnoc(ms: seq<Mark>, m: Mark)
    ensures OpenedSilently in ms + [m] <==> OpenedSilently in ms || m == OpenedSilently
    ensures EndsSilentOpening(ms + [m]) <==> EndsSilentOpening(ms) || (OpenedSilently in ms && m == Ended)
  {
    EndingsOfFront(ms, m);
    var longer := ms + [m];
    if EndsSilentOpening(longer) {
      var i, j :| 0 <= i < j < |longer| && longer[i] == OpenedSilently && longer[j] == Ended;
      assert ms[i] == OpenedSilently;
      if j < |ms| { assert ms[j] == Ended; }
    }
  }

  /** The marks of the run say what the events' guards said. */
  lemma {:induction false} MarksAreGuards(graceMs: nat, events: seq<Event>, k: string)
    requires EnabledAll(IDLE, graceMs, events)
    ensures var ms := MarksOf(Run(IDLE, graceMs, events), k);
      && (OpenedSilently in ms <==> OpensSilently(graceMs, events, k))
      && (EndsSilentOpening(ms) <==> EndsAfterSilentOpening(graceMs, events, k))
    decreases |events|
  {
    if events != [] {
      var front, e := events[..|events| - 1], events[|events| - 1];
      assert events == front + [e];
      RunSnoc(IDLE, graceMs, front, e);
      MarksAreGuards(graceMs, front, k);
      OpensSnoc(graceMs, front, e, k);
      EndsSnoc(graceMs, front, e, k);
      MarksOneMore(graceMs, front, e, k);
    }
  }

  lemma MarksOneMore(graceMs: nat, front: seq<Event>, e: Event, k: string)
    requires EnabledAll(IDLE, graceMs, front) && Enabled(Run(IDLE, graceMs, front), e)
    ensures var n := Run(IDLE, graceMs, front);
      var ms, ms' := MarksOf(n, k), MarksOf(Step(n, graceMs, e), k);
      && (OpenedSilently in ms' <==> OpenedSilently in ms || JoinOpens(n, e, k))
      && (EndsSilentOpening(ms') <==> EndsSilentOpening(ms) || (OpenedSilently in ms && Ends(n, graceMs, e, k)))
  {
    var n := Run(IDLE, graceMs, front);
    assert IndexAgrees(IDLE);
    RunKeepsInvariant(IDLE, graceMs, front);
    StepMarks(n, graceMs, e, k);
    forall m { MarksSnoc(MarksOf(n, k), m); }
  }

  /**
   * Over every run from an idle node: a call id's openings and ends come
   * strictly in turn, open exactly while the call is accepted; and what is
   * heard alternates start and end exactly when no join that opened the call
   * is followed by an event that ends it.
   */
  lemma NoticesAlternate(graceMs: nat, events: seq<Event>, k: string)
    requires EnabledAll(IDLE, graceMs, events)
    ensures var n := Run(IDLE, graceMs, events);
      && Scan(MarksOf(n, k)) == Some(k in n.accepted)
      && (Alternates(MarksOf(n, k)) <==> !EndsAfterSilentOpening(graceMs, events, k))
  {
    var n := Run(IDLE, graceMs, events);
    assert IndexAgrees(IDLE);
    RunKeepsInvariant(IDLE, graceMs, events);
    assert SlotOk(SlotOf(n, k));
    AlternatesUnlessSilent(MarksOf(n, k));
    MarksAreGuards(graceMs, events, k);
  }

  /** A call never entered by join has alternating start and end notices, in every run. */
  lemma InvitedCallsAlternate(graceMs: nat, events: seq<Event>, k: string)
    requires EnabledAll(IDLE, graceMs, events)
    requires forall i | 0 <= i < |events| :: !(events[i].Join? && events[i].callId == k)
    ensures Alternates(MarksOf(Run(IDLE, graceMs, events), k))
  {
    NoticesAlternate(graceMs, events, k);
  }

  const HUDDLE := Join("huddle", "tab", "ann", "room:design", Env(map["tab" := "ann"], {}))
  const HANG_UP := Terminal("huddle", "tab", EndedVerb)

  lemma HuddleIsOpenedSilently()
    ensures var n := Step(IDLE, 0, HUDDLE);
      && MarksOf(n, "huddle") == [OpenedSilently] && "huddle" in n.calls && "huddle" in n.accepted
      && n.calls["huddle"].roster == {"tab"}
  {
  }

  /** A page huddle: one join and its hang-up end a call that never started. */
  lemma JoinedCallEndsUnstarted()
    ensures var n := Run(IDLE, 0, [HUDDLE, HANG_UP]);
      && MarksOf(n, "huddle") == [OpenedSilently, Ended]
      && !Alternates(MarksOf(n, "huddle"))
  {
    HuddleIsOpenedSilently();
    var n1 := Step(IDLE, 0, HUDDLE);
    var n := Step(n1, 0, HANG_UP);
    assert [HUDDLE, HANG_UP][1..] == [HANG_UP] && [HANG_UP][1..] == [];
    assert Run(n1, 0, [HANG_UP]) == Run(n, 0, []) == n;
    assert Run(IDLE, 0, [HUDDLE, HANG_UP]) == n;
    assert {"tab"} - {"tab"} == {};
    assert MarksOf(n, "huddle") == [OpenedSilently] + [Ended];
    ScanSnoc([], OpenedSilently);
    ScanSnoc([OpenedSilently], Ended);
    assert [] + [OpenedSilently] == [OpenedSilently];
    EndAfterSilent([OpenedSilently] + [Ended], 0, 1);
  }
}
