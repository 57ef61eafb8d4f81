/** How calls come out on one node: what a sequence of handlers means for the people in the call. */
module CallLifecycleOutcomes {
  import opened Common
  import opened ReverseIndex
  import opened DmNames
  import opened CallLifecycle
  import opened CallLifecycleRuns

  // ---- An invite nobody answers -----------------------------------------------------

  lemma NewInvite(n: Node, callId: string, clientId: string, callerId: string, lobbyName: string, env: Env)
    requires Invariant(n) && callId !in n.calls && callId != "" && lobbyName != ""
    ensures var n' := InviteStep(n, callId, clientId, callerId, lobbyName, env);
      && callId in n'.calls && callId !in n'.accepted && MarksOf(n', callId) == MarksOf(n, callId)
      && n'.calls[callId].roster == {clientId} && n'.calls[callId].invited && !n'.calls[callId].declined
      && n'.calls[callId].lobbyName == lobbyName && n'.calls[callId].callerId == callerId
      && n'.calls[callId].originalLobby == Some(lobbyName)
  {
    assert SlotOk(SlotOf(n, callId));
  }

  /** A caller who gives up leaves one missed notice, declined if somebody had declined, and no trace of the call. */
  lemma UnansweredInviteIsMissed(n: Node, callId: string, clientId: string, callerId: string, lobbyName: string, env: Env,
                                 other: string, declinedFirst: bool)
    requires Invariant(n) && callId !in n.calls && callId != "" && lobbyName != "" && other != clientId
    ensures var n1 := InviteStep(n, callId, clientId, callerId, lobbyName, env);
      var n2 := if declinedFirst then TerminalStep(n1, callId, other, DeclinedVerb) else n1;
      var n3 := TerminalStep(n2, callId, clientId, CancelledVerb);
      && callId !in n3.calls
      && MarksOf(n3, callId) == MarksOf(n, callId) + [Missed(if declinedFirst then Declined else Cancelled)]
      && Invariant(n3)
  {
    var n1 := InviteStep(n, callId, clientId, callerId, lobbyName, env);
    NewInvite(n, callId, clientId, callerId, lobbyName, env);
    InviteKeepsInvariant(n, callId, clientId, callerId, lobbyName, env);
    assert n1.calls[callId].roster - {other} == {clientId};
    if declinedFirst { DeclineKeepsRinging(n1, callId, clientId, other); }
    var n2 := if declinedFirst then TerminalStep(n1, callId, other, DeclinedVerb) else n1;
    TerminalKeepsInvariant(n1, callId, other, DeclinedVerb);
    TerminalKeepsInvariant(n2, callId, clientId, CancelledVerb);
    LastLeaverIsTold(n2, callId, clientId);
  }

  /** A decline from someone not in the call does not end it; it is remembered. */
  lemma DeclineKeepsRinging(n: Node, callId: string, clientId: string, other: string)
    requires callId != "" && callId in n.calls && n.calls[callId].roster == {clientId} && other != clientId
    requires callId !in n.accepted && n.calls[callId].ever == {clientId}
    ensures var n' := TerminalStep(n, callId, other, DeclinedVerb);
      && callId in n'.calls && n'.calls[callId] == n.calls[callId].(declined := true)
      && n'.marks == n.marks && n'.accepted == n.accepted
  {
  }

  lemma LastLeaverIsTold(n: Node, callId: string, clientId: string)
    requires callId != "" && callId in n.calls && n.calls[callId].roster == {clientId}
    requires callId !in n.accepted && n.calls[callId].invited
    ensures var n' := TerminalStep(n, callId, clientId, CancelledVerb);
      && callId !in n'.calls
      && MarksOf(n', callId) == MarksOf(n, callId) + [Missed(if n.calls[callId].declined then Declined else Cancelled)]
  {
  }

  // ---- Hanging up -----------------------------------------------------------------------

  /** A DM call that was answered never goes on with one party: the first to hang up ends it, with one end notice. */
  lemma DmHangUpEndsCall(n: Node, callId: string, clientId: string, verb: Verb)
    requires Invariant(n) && callId != "" && callId in n.calls && callId in n.accepted
    requires clientId in n.calls[callId].roster && IsDmLobby(n.calls[callId].lobbyName)
    ensures var n' := TerminalStep(n, callId, clientId, verb);
      if |n.calls[callId].roster| <= 2 then
        callId !in n'.calls && MarksOf(n', callId) == MarksOf(n, callId) + [Ended]
      else
        callId in n'.calls && |n'.calls[callId].roster| >= 2 && MarksOf(n', callId) == MarksOf(n, callId)
  {
  }

  /** Any other call goes on for whoever is left in it. */
  lemma GroupCallGoesOn(n: Node, callId: string, clientId: string, verb: Verb)
    requires callId != "" && callId in n.calls && !IsDmLobby(n.calls[callId].lobbyName)
    requires n.calls[callId].roster - {clientId} != {}
    ensures var n' := TerminalStep(n, callId, clientId, verb);
      && callId in n'.calls && n'.calls[callId].roster == n.calls[callId].roster - {clientId}
      && n'.accepted == n.accepted && n'.marks == n.marks
  {
  }

  // ---- Dropping and coming back ------------------------------------------------------------

  /**
   * With a rejoin grace, a drop that leaves one party behind does not end the
   * call: it waits. If the grace runs out the call goes, with the end notice
   * exactly when it had been accepted.
   */
  lemma DropWaitsOutTheGrace(n: Node, graceMs: nat, callId: string, clientId: string)
    requires Invariant(n) && graceMs > 0 && callId in n.calls && |n.calls[callId].roster - {clientId}| == 1
    ensures var n1 := DepartStep(n, graceMs, callId, clientId);
      var n2 := GraceStep(n1, callId);
      && callId in n1.calls && callId in n1.graced && n1.marks == n.marks && n1.accepted == n.accepted
      && callId !in n2.calls && callId !in n2.graced && callId !in n2.accepted
      && (callId in n.accepted ==> MarksOf(n2, callId) == MarksOf(n, callId) + [Ended])
      && (callId !in n.accepted && !n.calls[callId].invited ==> MarksOf(n2, callId) == MarksOf(n, callId))
  {
  }

  /** Coming back within the grace saves the call: the timer is gone, and firing does nothing. */
  lemma ReturnWithinGraceSavesCall(n: Node, callId: string, clientId: string, userId: string, lobbyName: string, env: Env)
    requires RejoinStep(n, callId, clientId, userId, lobbyName, env) != n
    ensures var n' := RejoinStep(n, callId, clientId, userId, lobbyName, env);
      GraceStep(n', callId) == n' && callId in n'.calls && n'.marks == n.marks
  {
  }

  /** The returning user has one seat, on the new socket; everybody else keeps theirs. */
  lemma RejoinMovesSeat(n: Node, callId: string, clientId: string, userId: string, lobbyName: string, env: Env)
    requires RejoinStep(n, callId, clientId, userId, lobbyName, env) != n
    ensures var roster, roster' := Roster(n, callId), Roster(RejoinStep(n, callId, clientId, userId, lobbyName, env), callId);
      && clientId in roster'
      && (forall c | c in roster' && c != clientId :: UserOf(env, c) != {userId})
      && (forall c | c in roster && UserOf(env, c) != {userId} :: c in roster')
      && roster' <= roster + {clientId}
  {
  }
}
