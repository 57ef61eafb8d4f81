/**
 * What every event does to a call, read off the node it meets: who is in the
 * call afterwards, what is recorded of it, whether it is accepted or waiting,
 * and what is heard. Each law covers all eight events.
 */
module CallLifecycleEffects {
  import opened Common
  import opened ReverseIndex
  import opened DmNames
  import opened CallLifecycle
  import opened CallLifecycleRuns
  import opened CallLifecycleNotices

  // ---- Getting in ---------------------------------------------------------------------

  /** The ways in and their refusals. */
  predicate GetsIn(n: Node, e: Event) {
    match e
    case Invite(c, _, _, lobby, _) => c != "" && lobby != ""
    case Accept(c, cl, _, _, env) => c != "" && !SeatedElsewhere(n, c, cl, env)
    case Join(c, cl, u, lobby, env) =>
      && c != "" && lobby != "" && u != "" && !SeatedElsewhere(n, c, cl, env)
      && (c in n.calls ==> n.calls[c].lobbyName == lobby)
    case Rejoin(c, cl, u, lobby, _) =>
      && c in n.calls && cl !in n.calls[c].roster && u in n.calls[c].seatedUsers && u != "" && lobby != ""
      && (n.calls[c].lobbyName == lobby || n.calls[c].originalLobby == Some(lobby))
    case _ => false
  }

  predicate Enters(n: Node, e: Event, k: string) {
    Entering(e) && e.callId == k && GetsIn(n, e)
  }

  /** An accept that gets in and finds the call not accepted yet. */
  predicate AcceptOpens(n: Node, e: Event, k: string) {
    e.Accept? && e.callId == k && k != "" && !SeatedElsewhere(n, k, e.clientId, e.env) && k !in n.accepted
  }

  // ---- Getting out ----------------------------------------------------------------------

  /** Who is left of call `k` once the leaver of `e` is out. */
  function Rest(n: Node, e: Event, k: string): set<string> {
    match e
    case Terminal(_, cl, _) => Roster(n, k) - {cl}
    case Disconnect(cl, _) => Roster(n, k) - {cl}
    case _ => Roster(n, k)
  }

  /**
   * The whole call goes: its last leaver, a party of an answered DM, a drop
   * nobody waits out, a grace that ran out on fewer than two, or a forget.
   */
  predicate CallGoes(n: Node, graceMs: nat, e: Event, k: string) {
    k in n.calls &&
    match e
    case Terminal(c, _, _) =>
      && c == k && k != ""
      && (Rest(n, e, k) == {}
          || (|Rest(n, e, k)| == 1 && IsDmLobby(n.calls[k].lobbyName) && (k in n.accepted || |n.calls[k].ever| > 1)))
    case Disconnect(cl, _) => cl in Roster(n, k) && RestIsForgotten(Rest(n, e, k), graceMs)
    case GraceExpires(c) => c == k && k in n.graced && |Roster(n, k)| < 2
    case Forget(c, _) => c == k
    case _ => false
  }

  /** `client` leaves `k`: it hung up, dropped, is the user's old socket, or the call itself goes. */
  predicate Leaves(n: Node, graceMs: nat, e: Event, k: string, client: string) {
    || CallGoes(n, graceMs, e, k)
    || (e.Terminal? && e.callId == k && k != "" && e.clientId == client)
    || (e.Disconnect? && e.clientId == client)
    || (e.Rejoin? && Enters(n, e, k) && client != e.clientId && UserOf(e.env, client) == {e.userId})
  }

  /** What the hooks hear of `k`, if anything. */
  function Notice(n: Node, graceMs: nat, e: Event, k: string): seq<Mark> {
    if AcceptOpens(n, e, k) then [Started]
    else if JoinOpens(n, e, k) then [OpenedSilently]
    else if !CallGoes(n, graceMs, e, k) then []
    else if k in n.accepted then [Ended]
    else if n.calls[k].invited && |Present(n, e, k)| <= 1 then [Missed(ReasonOf(n, e, k))]
    else []
  }

  /** Who the call still counts when it goes: a drop goes with the dropped client in it. */
  function Present(n: Node, e: Event, k: string): set<string> {
    if e.Terminal? then Rest(n, e, k) else Roster(n, k)
  }

  function ReasonOf(n: Node, e: Event, k: string): MissedReason
    requires k in n.calls
  {
    if n.calls[k].declined || (e.Terminal? && e.verb.DeclinedVerb?) then Declined
    else if e.Forget? then e.reason
    else Cancelled
  }

  // ---- The laws ---------------------------------------------------------------------------

  predicate InAfter(n: Node, graceMs: nat, e: Event, s': Slot, k: string, client: string) {
    (s'.call.Some? && client in s'.call.value.roster)
    <==> (Enters(n, e, k) && client == e.clientId) || (client in Roster(n, k) && !Leaves(n, graceMs, e, k, client))
  }

  ghost predicate RosterLaw(n: Node, graceMs: nat, e: Event, s': Slot, k: string) {
    && (s'.call.Some? <==> Enters(n, e, k) || (k in n.calls && !CallGoes(n, graceMs, e, k)))
    && forall client :: InAfter(n, graceMs, e, s', k, client)
  }

  predicate FlagsLaw(n: Node, graceMs: nat, e: Event, s': Slot, k: string) {
    && (s'.accepted <==> AcceptOpens(n, e, k) || JoinOpens(n, e, k) || (k in n.accepted && !CallGoes(n, graceMs, e, k)))
    && (s'.graced <==> WaitsAfter(n, graceMs, e, k))
    && s'.marks == MarksOf(n, k) + Notice(n, graceMs, e, k)
  }

  /** A drop to one party starts the wait; anybody entering, any terminal verb, and the expiry end it. */
  predicate WaitsAfter(n: Node, graceMs: nat, e: Event, k: string) {
    && !Enters(n, e, k) && !CallGoes(n, graceMs, e, k)
    && !(e.Terminal? && e.callId == k && k != "") && !(e.GraceExpires? && e.callId == k)
    && (k in n.graced || (e.Disconnect? && k in n.calls && e.clientId in Roster(n, k) && |Rest(n, e, k)| == 1))
  }

  /** The users a way in seats. */
  function Seats(e: Event): set<string>
    requires Entering(e)
  {
    if e.Join? || e.Rejoin? then {e.userId} else UserOf(e.env, e.clientId)
  }

  /** A call keeps the caller and lobby of whoever came first. */
  predicate DetailsLaw(n: Node, e: Event, k: string, call': ActiveCall) {
    if k in n.calls then
      var call := n.calls[k];
      && call'.callerId == call.callerId && call'.lobbyName == call.lobbyName
      && call'.ever == call.ever + (if Enters(n, e, k) then {e.clientId} else {})
      && call'.seatedUsers == call.seatedUsers + (if Enters(n, e, k) then Seats(e) else {})
      && (call'.invited <==> call.invited || (e.Invite? && Enters(n, e, k)))
      && call'.originalLobby == (if e.Invite? && Enters(n, e, k) && !call.invited then Some(e.lobbyName) else call.originalLobby)
      && (call'.declined <==> call.declined || (e.Terminal? && e.callId == k && k != "" && e.verb.DeclinedVerb?))
    else
      && Enters(n, e, k)
      && call'.callerId == (if e.Invite? || e.Accept? then e.callerId else e.userId) && call'.lobbyName == e.lobbyName
      && call'.ever == {e.clientId} && call'.seatedUsers == Seats(e)
      && call'.invited == e.Invite? && call'.originalLobby == (if e.Invite? then Some(e.lobbyName) else None)
      && !call'.declined
  }

  ghost predicate Lawful(n: Node, graceMs: nat, e: Event, s': Slot, k: string) {
    && RosterLaw(n, graceMs, e, s', k) && FlagsLaw(n, graceMs, e, s', k)
    && (s'.call.Some? ==> DetailsLaw(n, e, k, s'.call.value))
  }

  // ---- Every event obeys them ---------------------------------------------------------------

  /** An event about another call. */
  lemma ElsewhereIsLawful(n: Node, graceMs: nat, e: Event, k: string)
    requires SlotOk(SlotOf(n, k)) && !e.Disconnect? && e.callId != k
    ensures Lawful(n, graceMs, e, SlotOf(n, k), k)
  {
    assert MarksOf(n, k) + [] == MarksOf(n, k);
  }

  /** The slot of a call somebody enters, before its event's own marks. */
  lemma EnteredSlot(n: Node, k: string, clientId: string, callerId: string, lobbyName: string, users: set<string>)
    ensures var n' := SeatUser(Register(n, k, clientId, callerId, lobbyName), k, users);
      var call := n'.calls[k];
      && n'.accepted == n.accepted && n'.marks == n.marks && k !in n'.graced
      && call.roster == Roster(n, k) + {clientId}
      && (k in n.calls ==>
            call == n.calls[k].(roster := call.roster, ever := n.calls[k].ever + {clientId},
                                seatedUsers := n.calls[k].seatedUsers + users))
      && (k !in n.calls ==> call == ActiveCall(callerId, lobbyName, None, {clientId}, {clientId}, users, false, false))
  {
    assert {} + users == users && {} + {clientId} == {clientId};
  }

  /** A way in refused changes nothing. */
  lemma RefusedIsLawful(n: Node, graceMs: nat, e: Event, k: string)
    requires SlotOk(SlotOf(n, k)) && Entering(e) && !GetsIn(n, e)
    ensures Lawful(n, graceMs, e, SlotOf(n, k), k)
  {
    assert MarksOf(n, k) + [] == MarksOf(n, k);
  }

  /** Somebody else in the call, and nobody out of it. */
  lemma EnteredIsLawful(n: Node, graceMs: nat, e: Event, s': Slot, k: string)
    requires SlotOk(SlotOf(n, k)) && Enters(n, e, k) && !e.Rejoin?
    requires s'.call.Some? && s'.call.value.roster == Roster(n, k) + {e.clientId} && !s'.graced
    requires s'.accepted == (k in n.accepted || e.Accept? || e.Join?)
    requires s'.marks == MarksOf(n, k) + Notice(n, graceMs, e, k)
    requires DetailsLaw(n, e, k, s'.call.value)
    ensures Lawful(n, graceMs, e, s', k)
  {
  }

  lemma InviteIsLawful(n: Node, graceMs: nat, clientId: string, callerId: string, lobbyName: string, env: Env, k: string)
    requires SlotOk(SlotOf(n, k))
    ensures Lawful(n, graceMs, Invite(k, clientId, callerId, lobbyName, env),
                   SlotOf(InviteStep(n, k, clientId, callerId, lobbyName, env), k), k)
  {
    var e := Invite(k, clientId, callerId, lobbyName, env);
    var n' := InviteStep(n, k, clientId, callerId, lobbyName, env);
    if k == "" || lobbyName == "" {
      RefusedIsLawful(n, graceMs, e, k);
    } else {
      EnteredSlot(n, k, clientId, callerId, lobbyName, UserOf(env, clientId));
      assert MarksOf(n', k) == MarksOf(n, k) + Notice(n, graceMs, e, k);
      EnteredIsLawful(n, graceMs, e, SlotOf(n', k), k);
    }
  }

  lemma AcceptIsLawful(n: Node, graceMs: nat, clientId: string, callerId: string, lobbyName: string, env: Env, k: string)
    requires SlotOk(SlotOf(n, k))
    ensures Lawful(n, graceMs, Accept(k, clientId, callerId, lobbyName, env),
                   SlotOf(AcceptStep(n, k, clientId, callerId, lobbyName, env), k), k)
  {
    var e := Accept(k, clientId, callerId, lobbyName, env);
    var n' := AcceptStep(n, k, clientId, callerId, lobbyName, env);
    if k == "" || SeatedElsewhere(n, k, clientId, env) {
      RefusedIsLawful(n, graceMs, e, k);
    } else {
      var resolved := if lobbyName == "" && k in n.calls then n.calls[k].lobbyName else lobbyName;
      EnteredSlot(n, k, clientId, callerId, resolved, UserOf(env, clientId));
      assert MarksOf(n', k) == MarksOf(n, k) + Notice(n, graceMs, e, k);
      EnteredIsLawful(n, graceMs, e, SlotOf(n', k), k);
    }
  }

  lemma JoinIsLawful(n: Node, graceMs: nat, clientId: string, userId: string, lobbyName: string, env: Env, k: string)
    requires SlotOk(SlotOf(n, k))
    ensures Lawful(n, graceMs, Join(k, clientId, userId, lobbyName, env),
                   SlotOf(JoinStep(n, k, clientId, userId, lobbyName, env), k), k)
  {
    var e := Join(k, clientId, userId, lobbyName, env);
    var n' := JoinStep(n, k, clientId, userId, lobbyName, env);
    if !GetsIn(n, e) {
      RefusedIsLawful(n, graceMs, e, k);
    } else {
      var callerId := if k in n.calls && n.calls[k].callerId != "" then n.calls[k].callerId else userId;
      EnteredSlot(n, k, clientId, callerId, lobbyName, {userId});
      assert MarksOf(n', k) == MarksOf(n, k) + Notice(n, graceMs, e, k);
      EnteredIsLawful(n, graceMs, e, SlotOf(n', k), k);
    }
  }

  lemma RejoinIsLawful(n: Node, graceMs: nat, clientId: string, userId: string, lobbyName: string, env: Env, k: string)
    requires SlotOk(SlotOf(n, k))
    ensures Lawful(n, graceMs, Rejoin(k, clientId, userId, lobbyName, env),
                   SlotOf(RejoinStep(n, k, clientId, userId, lobbyName, env), k), k)
  {
    if k in n.calls { EnteredSlot(n, k, clientId, n.calls[k].callerId, lobbyName, {userId}); }
  }

  /** The call gone, with its notice. */
  lemma GoneIsLawful(n: Node, graceMs: nat, e: Event, k: string)
    requires CallGoes(n, graceMs, e, k) && !Entering(e)
    ensures Lawful(n, graceMs, e, Slot(None, false, false, MarksOf(n, k) + Notice(n, graceMs, e, k)), k)
  {
  }

  lemma TerminalSlot(n: Node, graceMs: nat, clientId: string, verb: Verb, k: string)
    requires k in n.calls && k != ""
    ensures var e, s' := Terminal(k, clientId, verb), SlotOf(TerminalStep(n, k, clientId, verb), k);
      if CallGoes(n, graceMs, e, k) then s' == Slot(None, false, false, MarksOf(n, k) + Notice(n, graceMs, e, k))
      else s' == Slot(Some(CallAfter(n, k, clientId, verb)), k in n.accepted, false, MarksOf(n, k))
  {
    AnnounceIsOneNotice(NodeAfter(n, k, clientId, verb), k, CallAfter(n, k, clientId, verb), Cancelled);
    assert MarksOf(n, k) + [] == MarksOf(n, k);
  }

  lemma TerminalIsLawful(n: Node, graceMs: nat, clientId: string, verb: Verb, k: string)
    requires SlotOk(SlotOf(n, k))
    ensures Lawful(n, graceMs, Terminal(k, clientId, verb), SlotOf(TerminalStep(n, k, clientId, verb), k), k)
  {
    var e := Terminal(k, clientId, verb);
    if k in n.calls && k != "" {
      TerminalSlot(n, graceMs, clientId, verb, k);
      if CallGoes(n, graceMs, e, k) { GoneIsLawful(n, graceMs, e, k); }
    }
  }

  lemma ForgetIsLawful(n: Node, graceMs: nat, reason: MissedReason, k: string)
    requires SlotOk(SlotOf(n, k))
    ensures Lawful(n, graceMs, Forget(k, reason), SlotOf(ForgetStep(n, k, reason), k), k)
  {
  }

  lemma GraceIsLawful(n: Node, graceMs: nat, k: string)
    requires SlotOk(SlotOf(n, k))
    ensures Lawful(n, graceMs, GraceExpires(k), SlotOf(GraceStep(n, k), k), k)
  {
  }

  lemma DepartIsLawful(n: Node, graceMs: nat, clientId: string, order: seq<string>, k: string)
    requires SlotOk(SlotOf(n, k)) && clientId in Roster(n, k)
    ensures Lawful(n, graceMs, Disconnect(clientId, order), SlotOf(DepartStep(n, graceMs, k, clientId), k), k)
  {
  }

  lemma NobodyDeparts(n: Node, graceMs: nat, clientId: string, order: seq<string>, k: string)
    requires SlotOk(SlotOf(n, k)) && clientId !in Roster(n, k)
    ensures Lawful(n, graceMs, Disconnect(clientId, order), SlotOf(n, k), k)
  {
  }

  /** The walk of a disconnect takes `k` one departure step, whenever it comes to it. */
  lemma {:induction false} DepartEachSlot(n: Node, graceMs: nat, clientId: string, order: seq<string>, k: string)
    requires forall i, j | 0 <= i < j < |order| :: order[i] != order[j]
    ensures SlotOf(DepartEach(n, graceMs, clientId, order), k)
         == if k in order then SlotOf(DepartStep(n, graceMs, k, clientId), k) else SlotOf(n, k)
  {
    if order != [] {
      var front, last := order[..|order| - 1], order[|order| - 1];
      var mid := DepartEach(n, graceMs, clientId, front);
      assert order == front + [last];
      forall i | 0 <= i < |front| ensures front[i] != last {
        assert order[i] != order[|order| - 1];
      }
      DepartEachSlot(n, graceMs, clientId, front, k);
      if k == last {
        DepartReadsSlot(n, mid, graceMs, k, clientId);
      } else {
        DepartElsewhere(mid, graceMs, last, clientId, k);
      }
    }
  }

  lemma DepartReadsSlot(n: Node, n': Node, graceMs: nat, k: string, clientId: string)
    requires SlotOf(n, k) == SlotOf(n', k)
    ensures SlotOf(DepartStep(n, graceMs, k, clientId), k) == SlotOf(DepartStep(n', graceMs, k, clientId), k)
  {
  }

  lemma DisconnectIsLawful(n: Node, graceMs: nat, clientId: string, order: seq<string>, k: string)
    requires Invariant(n) && Walks(order, At(n.byClient, clientId))
    ensures Lawful(n, graceMs, Disconnect(clientId, order), SlotOf(DisconnectStep(n, graceMs, clientId, order), k), k)
  {
    assert SlotOk(SlotOf(n, k)) && Agree(n, clientId, k);
    DepartEachSlot(n, graceMs, clientId, order, k);
    if k in order { DepartIsLawful(n, graceMs, clientId, order, k); } else { NobodyDeparts(n, graceMs, clientId, order, k); }
  }

  lemma OtherSlotStays(n: Node, graceMs: nat, e: Event, k: string)
    requires !e.Disconnect? && e.callId != k
    ensures SlotOf(Step(n, graceMs, e), k) == SlotOf(n, k)
  {
    if Entering(e) { OtherEntered(n, graceMs, e, k); } else { OtherLeft(n, graceMs, e, k); }
  }

  lemma OtherRejoined(n: Node, callId: string, clientId: string, userId: string, lobbyName: string, env: Env, k: string)
    requires callId != k
    ensures SlotOf(RejoinStep(n, callId, clientId, userId, lobbyName, env), k) == SlotOf(n, k)
  {
  }

  lemma OtherInvited(n: Node, callId: string, clientId: string, callerId: string, lobbyName: string, env: Env, k: string)
    requires callId != k
    ensures SlotOf(InviteStep(n, callId, clientId, callerId, lobbyName, env), k) == SlotOf(n, k)
  {
  }

  lemma OtherAccepted(n: Node, callId: string, clientId: string, callerId: string, lobbyName: string, env: Env, k: string)
    requires callId != k
    ensures SlotOf(AcceptStep(n, callId, clientId, callerId, lobbyName, env), k) == SlotOf(n, k)
  {
  }

  lemma OtherJoined(n: Node, callId: string, clientId: string, userId: string, lobbyName: string, env: Env, k: string)
    requires callId != k
    ensures SlotOf(JoinStep(n, callId, clientId, userId, lobbyName, env), k) == SlotOf(n, k)
  {
  }

  lemma OtherEntered(n: Node, graceMs: nat, e: Event, k: string)
    requires Entering(e) && e.callId != k
    ensures SlotOf(Step(n, graceMs, e), k) == SlotOf(n, k)
  {
    match e
    case Invite(c, cl, caller, lobby, env) => OtherInvited(n, c, cl, caller, lobby, env, k);
    case Accept(c, cl, caller, lobby, env) => OtherAccepted(n, c, cl, caller, lobby, env, k);
    case Join(c, cl, u, lobby, env) => OtherJoined(n, c, cl, u, lobby, env, k);
    case Rejoin(c, cl, u, lobby, env) => OtherRejoined(n, c, cl, u, lobby, env, k);
  }

  lemma OtherForgotten(n: Node, callId: string, reason: MissedReason, k: string)
    requires callId != k
    ensures SlotOf(ForgetStep(n, callId, reason), k) == SlotOf(n, k)
  {
  }

  lemma OtherHungUp(n: Node, callId: string, clientId: string, verb: Verb, k: string)
    requires callId != k
    ensures SlotOf(TerminalStep(n, callId, clientId, verb), k) == SlotOf(n, k)
  {
    if callId in n.calls { OtherForgotten(NodeAfter(n, callId, clientId, verb), callId, Cancelled, k); }
  }

  lemma OtherLeft(n: Node, graceMs: nat, e: Event, k: string)
    requires !Entering(e) && !e.Disconnect? && e.callId != k
    ensures SlotOf(Step(n, graceMs, e), k) == SlotOf(n, k)
  {
    match e
    case Terminal(c, cl, verb) => OtherHungUp(n, c, cl, verb, k);
    case GraceExpires(c) => OtherForgotten(n.(graced := n.graced - {c}), c, Cancelled, k);
    case Forget(c, reason) => OtherForgotten(n, c, reason, k);
  }

  /** Every event, on every call. */
  lemma StepIsLawful(n: Node, graceMs: nat, e: Event, k: string)
    requires Invariant(n) && Enabled(n, e)
    ensures Lawful(n, graceMs, e, SlotOf(Step(n, graceMs, e), k), k)
  {
    assert SlotOk(SlotOf(n, k));
    if !e.Disconnect? && e.callId != k {
      OtherSlotStays(n, graceMs, e, k);
      ElsewhereIsLawful(n, graceMs, e, k);
    } else {
      match e
      case Invite(_, cl, caller, lobby, env) => InviteIsLawful(n, graceMs, cl, caller, lobby, env, k);
      case Accept(_, cl, caller, lobby, env) => AcceptIsLawful(n, graceMs, cl, caller, lobby, env, k);
      case Join(_, cl, u, lobby, env) => JoinIsLawful(n, graceMs, cl, u, lobby, env, k);
      case Rejoin(_, cl, u, lobby, env) => RejoinIsLawful(n, graceMs, cl, u, lobby, env, k);
      case Terminal(_, cl, verb) => TerminalIsLawful(n, graceMs, cl, verb, k);
      case Disconnect(cl, order) => DisconnectIsLawful(n, graceMs, cl, order, k);
      case GraceExpires(_) => GraceIsLawful(n, graceMs, k);
      case Forget(_, reason) => ForgetIsLawful(n, graceMs, reason, k);
    }
  }

  // ---- The laws on their own --------------------------------------------------------------------

  /** Who is in a call after an event: who entered, and who was in it and did not leave. The index says the same. */
  lemma InCallExactlyWhen(n: Node, graceMs: nat, e: Event, k: string, client: string)
    requires Invariant(n) && Enabled(n, e)
    ensures var n' := Step(n, graceMs, e);
      && (client in Roster(n', k) <==>
            (Enters(n, e, k) && client == e.clientId) || (client in Roster(n, k) && !Leaves(n, graceMs, e, k, client)))
      && (k in At(n'.byClient, client) <==> client in Roster(n', k))
  {
    var n' := Step(n, graceMs, e);
    StepIsLawful(n, graceMs, e, k);
    assert InAfter(n, graceMs, e, SlotOf(n', k), k, client);
    StepKeepsInvariant(n, graceMs, e);
    assert Agree(n', client, k);
  }

  /** A call is kept after an event exactly when somebody entered it, or it was there and did not go. */
  lemma CallStandsExactlyWhen(n: Node, graceMs: nat, e: Event, k: string)
    requires Invariant(n) && Enabled(n, e)
    ensures var n' := Step(n, graceMs, e);
      && (k in n'.calls <==> Enters(n, e, k) || (k in n.calls && !CallGoes(n, graceMs, e, k)))
      && (k in n'.calls ==> DetailsLaw(n, e, k, n'.calls[k]))
  {
    StepIsLawful(n, graceMs, e, k);
  }

  /** What is heard of a call at an event is exactly its notice. */
  lemma HeardExactly(n: Node, graceMs: nat, e: Event, k: string)
    requires Invariant(n) && Enabled(n, e)
    ensures MarksOf(Step(n, graceMs, e), k) == MarksOf(n, k) + Notice(n, graceMs, e, k)
  {
    StepIsLawful(n, graceMs, e, k);
  }

  lemma AcceptedExactlyWhen(n: Node, graceMs: nat, e: Event, k: string)
    requires Invariant(n) && Enabled(n, e)
    ensures var n' := Step(n, graceMs, e);
      && (k in n'.accepted <==> AcceptOpens(n, e, k) || JoinOpens(n, e, k) || (k in n.accepted && !CallGoes(n, graceMs, e, k)))
      && (k in n'.graced <==> WaitsAfter(n, graceMs, e, k))
  {
    StepIsLawful(n, graceMs, e, k);
  }

  // ---- Accepts ------------------------------------------------------------------------------------

  /** A start is heard exactly when an accept gets in and finds the call not accepted: nothing else starts a call. */
  lemma AcceptOpensExactlyWhen(n: Node, graceMs: nat, e: Event, k: string)
    requires Invariant(n) && Enabled(n, e)
    ensures MarksOf(Step(n, graceMs, e), k) == MarksOf(n, k) + [Started] <==> AcceptOpens(n, e, k)
  {
    HeardExactly(n, graceMs, e, k);
    var ms := MarksOf(n, k);
    assert (ms + Notice(n, graceMs, e, k))[|ms|..] == Notice(n, graceMs, e, k) && (ms + [Started])[|ms|..] == [Started];
  }

  /**
   * An accept that is not refused leaves the call accepted and the client in
   * it, under the call's lobby or else the one it names, and everybody else as
   * they were. A refused one changes nothing.
   */
  lemma AcceptGetsIn(n: Node, graceMs: nat, callId: string, clientId: string, callerId: string, lobbyName: string, env: Env)
    requires Invariant(n)
    ensures var e := Accept(callId, clientId, callerId, lobbyName, env);
      var n' := Step(n, graceMs, e);
      if callId == "" || SeatedElsewhere(n, callId, clientId, env) then n' == n
      else
        && callId in n'.accepted && callId in n'.calls && callId in At(n'.byClient, clientId)
        && n'.calls[callId].roster == Roster(n, callId) + {clientId}
        && n'.calls[callId].lobbyName == (if callId in n.calls then n.calls[callId].lobbyName else lobbyName)
        && (forall k, c | k != callId || c != clientId :: c in Roster(n', k) <==> c in Roster(n, k))
  {
    var e := Accept(callId, clientId, callerId, lobbyName, env);
    var n' := Step(n, graceMs, e);
    if callId != "" && !SeatedElsewhere(n, callId, clientId, env) {
      CallStandsExactlyWhen(n, graceMs, e, callId);
      AcceptedExactlyWhen(n, graceMs, e, callId);
      forall k, c
        ensures c in Roster(n', k) <==> c in Roster(n, k) || (k == callId && c == clientId)
        ensures k in At(n'.byClient, c) <==> c in Roster(n', k)
      {
        InCallExactlyWhen(n, graceMs, e, k, c);
      }
    }
  }

  // ---- Whole runs ---------------------------------------------------------------------------------

  /** The notices of `k` along a run, each told by its event's guards. */
  function Notices(n: Node, graceMs: nat, events: seq<Event>, k: string): seq<Mark>
    decreases |events|
  {
    if events == [] then []
    else Notice(n, graceMs, events[0], k) + Notices(Step(n, graceMs, events[0]), graceMs, events[1..], k)
  }

  /** Over every run, what is heard of a call is exactly what the guards of its events tell, in order. */
  lemma {:induction false} RunIsHeard(n: Node, graceMs: nat, events: seq<Event>, k: string)
    requires Invariant(n) && EnabledAll(n, graceMs, events)
    ensures MarksOf(Run(n, graceMs, events), k) == MarksOf(n, k) + Notices(n, graceMs, events, k)
    decreases |events|
  {
    if events == [] {
      assert MarksOf(n, k) + [] == MarksOf(n, k);
    } else {
      var n' := Step(n, graceMs, events[0]);
      StepKeepsInvariant(n, graceMs, events[0]);
      HeardExactly(n, graceMs, events[0], k);
      RunIsHeard(n', graceMs, events[1..], k);
      Associative(MarksOf(n, k), Notice(n, graceMs, events[0], k), Notices(n', graceMs, events[1..], k));
    }
  }
}
