/**
 * What every operation of the in-memory call-state store does, read off the
 * store it meets: who is in a call afterwards, what is recorded of it, which
 * marker is live, and what the discovery indexes list. Each law covers all
 * twelve operations.
 */
module CallStoreEffects {
  import opened Common
  import opened ReverseIndex
  import opened CallStateStore
  import opened CallStoreRuns

  // ---- Guards ------------------------------------------------------------------------

  /** A claim or resume that no live seat of the user blocks, in the call's own lobby; a resume needs a live call of that user. */
  predicate TakesSeat(s: Store, now: int, op: Op, k: string) {
    op.callId == k && k in s.calls &&
    match op
    case ClaimOp(_, cl, u, lobby, departed) =>
      s.calls[k].lobbyName == lobby && !Blocks(s.calls[k], cl, u, DepartedSet(departed))
    case ResumeOp(_, cl, u, lobby, gone) =>
      && s.calls[k].lobbyName == lobby && !Blocks(s.calls[k], cl, u, SetOf(gone))
      && k in At(s.byUser, u) && (MarkerLive(s, k, now) || |s.calls[k].roster| >= 2)
    case _ => false
  }

  /** The operation stores the call if it is not there. */
  predicate Creates(op: Op, k: string) {
    op.callId == k && (op.RegisterOp? || op.SetCallOp?)
  }

  predicate Joins(s: Store, now: int, op: Op, k: string, client: string) {
    || (op.RegisterOp? && op.callId == k && op.clientId == client)
    || (TakesSeat(s, now, op, k) && op.clientId == client)
    || (op.SetCallOp? && op.callId == k && client in op.view.roster)
  }

  /** A forget, one that matches its snapshot, or the removal of the last participant. */
  ghost predicate Goes(s: Store, op: Op, k: string) {
    op.callId == k && k in s.calls &&
    match op
    case ForgetOp(_) => true
    case ForgetIfUnchangedOp(_, expected) => Matches(s, k, expected)
    case RemoveOp(_, cl) => s.calls[k].roster <= {cl}
    case _ => false
  }

  /** A seat that moves takes its old socket off: the claim's own departed winner, or every client a resume proves dead. */
  ghost predicate Leaves(s: Store, now: int, op: Op, k: string, client: string) {
    || Goes(s, op, k)
    || (op.RemoveOp? && op.callId == k && op.clientId == client)
    || (op.ClaimOp? && TakesSeat(s, now, op, k) && client != op.clientId
        && op.departed == Some(client) && Winner(s.calls[k], op.userId) == Some(client))
    || (op.ResumeOp? && TakesSeat(s, now, op, k) && client != op.clientId && client in op.gone)
  }

  // ---- What is recorded of a call -------------------------------------------------------

  function Given<T(==)>(isSet: bool, given: T, kept: T): T {
    if isSet then given else kept
  }

  /** What the operation says of the invite time and the caller's name. */
  function InvitedAtOf(op: Op, k: string): Option<int> {
    if op.callId != k then None
    else if op.SetCallOp? then op.view.invitedAt
    else if op.SetInviteMetadataOp? then op.invitedAt
    else None
  }

  function CallerNameOf(op: Op, k: string): Option<string> {
    if op.callId != k then None
    else if op.SetCallOp? then op.view.callerName
    else if op.SetInviteMetadataOp? then op.callerName
    else None
  }

  predicate Named(name: Option<string>) {
    name.Some? && name.value != ""
  }

  /** A call keeps what its first writer recorded, but for what a later whole-state write or invite names. */
  predicate KeptLaw(s: Store, now: int, op: Op, k: string, call: CallRecord, call': CallRecord) {
    var w := op.SetCallOp? && op.callId == k;
    && call'.callerId == Given(w && op.view.callerId != "", if w then op.view.callerId else "", call.callerId)
    && call'.lobbyName == Given(w && op.view.lobbyName != "", if w then op.view.lobbyName else "", call.lobbyName)
    && call'.targetUserIds == Given(w && op.view.targetUserIds != [], if w then op.view.targetUserIds else [], call.targetUserIds)
    && call'.channel == call.channel
    && call'.invitedAt == Given(InvitedAtOf(op, k).Some?, InvitedAtOf(op, k), call.invitedAt)
    && call'.callerName == Given(Named(CallerNameOf(op, k)), CallerNameOf(op, k), call.callerName)
    && call'.seats == if TakesSeat(s, now, op, k) then call.seats[op.userId := op.clientId] else call.seats
  }

  predicate NewLaw(op: Op, k: string, call': CallRecord) {
    && Creates(op, k) && call'.seats == map[]
    && call'.callerId == (if op.RegisterOp? then op.callerId else op.view.callerId)
    && call'.lobbyName == (if op.RegisterOp? then op.lobbyName else op.view.lobbyName)
    && call'.targetUserIds == (if op.RegisterOp? then op.targets else op.view.targetUserIds)
    && (var channel := if op.RegisterOp? then op.channel else op.view.channel;
        call'.channel == if ValidCallChannel(channel) then channel else None)
    && call'.invitedAt == InvitedAtOf(op, k)
    && call'.callerName == if Named(CallerNameOf(op, k)) then CallerNameOf(op, k) else None
  }

  // ---- The marker --------------------------------------------------------------------------

  /** When the accept marker of `k` expires after the operation, if it has one. */
  ghost function MarkerAfter(s: Store, now: int, op: Op, k: string): Option<int> {
    if op.callId == k && op.TakeAcceptedOp? then None
    else if op.ForgetIfUnchangedOp? && Goes(s, op, k) then None
    else if op.ResumeOp? && TakesSeat(s, now, op, k) then Some(now + TTL_MS)
    else if op.MarkAcceptedOp? && op.callId == k && !MarkerLive(s, k, now) then Some(now + op.ttlMs)
    else ExpiryOf(s, k)
  }

  function ExpiryOf(s: Store, k: string): Option<int> {
    if k in s.accepted then Some(s.accepted[k]) else None
  }

  // ---- The laws ------------------------------------------------------------------------------

  lemma ClaimRosters(s: Store, now: int, op: Op, k: string, client: string)
    requires op.ClaimOp?
    ensures client in Roster(Step(s, now, op).0, k)
       <==> Joins(s, now, op, k, client) || (client in Roster(s, k) && !Leaves(s, now, op, k, client))
  {
  }

  lemma ResumeRosters(s: Store, now: int, op: Op, k: string, client: string)
    requires op.ResumeOp?
    ensures client in Roster(Step(s, now, op).0, k)
       <==> Joins(s, now, op, k, client) || (client in Roster(s, k) && !Leaves(s, now, op, k, client))
  {
    assert client in SetOf(op.gone) <==> client in op.gone;
  }

  lemma ForgetRosters(s: Store, now: int, op: Op, k: string, client: string)
    requires op.ForgetOp? || op.ForgetIfUnchangedOp?
    ensures client in Roster(Step(s, now, op).0, k) <==> client in Roster(s, k) && !Goes(s, op, k)
  {
    if op.ForgetIfUnchangedOp? { ForgetIsCompareAndDelete(s, op.callId, op.expected); }
  }

  lemma WriteRosters(s: Store, now: int, op: Op, k: string, client: string)
    requires op.SetCallOp?
    ensures client in Roster(Step(s, now, op).0, k) <==> Joins(s, now, op, k, client) || client in Roster(s, k)
  {
    assert client in SetOf(op.view.roster) <==> client in op.view.roster;
  }

  lemma RemoveRosters(s: Store, now: int, op: Op, k: string, client: string)
    requires op.RemoveOp?
    ensures client in Roster(Step(s, now, op).0, k) <==> client in Roster(s, k) && !Leaves(s, now, op, k, client)
  {
  }

  lemma OtherRosters(s: Store, now: int, op: Op, k: string, client: string)
    requires !op.ClaimOp? && !op.ResumeOp? && !op.ForgetOp? && !op.ForgetIfUnchangedOp? && !op.SetCallOp? && !op.RemoveOp?
    ensures client in Roster(Step(s, now, op).0, k)
       <==> Joins(s, now, op, k, client) || (client in Roster(s, k) && !Leaves(s, now, op, k, client))
  {
  }

  /** Who is in a call after an operation: who joined, and who was in it and did not leave. */
  lemma InCallExactlyWhen(s: Store, now: int, op: Op, k: string, client: string)
    ensures client in Roster(Step(s, now, op).0, k)
       <==> Joins(s, now, op, k, client) || (client in Roster(s, k) && !Leaves(s, now, op, k, client))
  {
    match op
    case ClaimOp(_, _, _, _, _) => ClaimRosters(s, now, op, k, client);
    case ResumeOp(_, _, _, _, _) => ResumeRosters(s, now, op, k, client);
    case ForgetOp(_) => ForgetRosters(s, now, op, k, client);
    case ForgetIfUnchangedOp(_, _) => ForgetRosters(s, now, op, k, client);
    case SetCallOp(_, _) => WriteRosters(s, now, op, k, client);
    case RemoveOp(_, _) => RemoveRosters(s, now, op, k, client);
    case _ => OtherRosters(s, now, op, k, client);
  }

  /** A call is stored after an operation exactly when it was created, or was there and did not go. */
  lemma CallStandsExactlyWhen(s: Store, now: int, op: Op, k: string)
    ensures k in Step(s, now, op).0.calls <==> Creates(op, k) || (k in s.calls && !Goes(s, op, k))
  {
    match op
    case ForgetIfUnchangedOp(c, expected) => ForgetIsCompareAndDelete(s, c, expected);
    case RemoveOp(c, cl) =>
      if c in s.calls { assert s.calls[c].roster - {cl} == {} <==> s.calls[c].roster <= {cl}; }
    case _ =>
  }

  ghost predicate DetailsLaw(s: Store, now: int, op: Op, k: string, call': CallRecord) {
    if k in s.calls then KeptLaw(s, now, op, k, s.calls[k], call') else NewLaw(op, k, call')
  }

  lemma ClaimDetails(s: Store, now: int, op: Op, k: string)
    requires op.ClaimOp? && k in s.calls
    ensures var s' := Step(s, now, op).0; k in s'.calls && KeptLaw(s, now, op, k, s.calls[k], s'.calls[k])
  {
  }

  lemma ResumeDetails(s: Store, now: int, op: Op, k: string)
    requires op.ResumeOp? && k in s.calls
    ensures var s' := Step(s, now, op).0; k in s'.calls && KeptLaw(s, now, op, k, s.calls[k], s'.calls[k])
  {
  }

  lemma WriteDetails(s: Store, now: int, op: Op, k: string)
    requires op.SetCallOp? && k in Step(s, now, op).0.calls
    ensures DetailsLaw(s, now, op, k, Step(s, now, op).0.calls[k])
  {
  }

  lemma RegisterDetails(s: Store, now: int, op: Op, k: string)
    requires op.RegisterOp? && k in Step(s, now, op).0.calls
    ensures DetailsLaw(s, now, op, k, Step(s, now, op).0.calls[k])
  {
  }

  lemma MetadataDetails(s: Store, now: int, op: Op, k: string)
    requires op.SetInviteMetadataOp? && k in s.calls
    ensures var s' := Step(s, now, op).0; k in s'.calls && KeptLaw(s, now, op, k, s.calls[k], s'.calls[k])
  {
  }

  lemma OtherDetails(s: Store, now: int, op: Op, k: string)
    requires !op.ClaimOp? && !op.ResumeOp? && !op.RegisterOp? && !op.SetCallOp? && !op.SetInviteMetadataOp?
    requires k in Step(s, now, op).0.calls
    ensures k in s.calls && Step(s, now, op).0.calls[k] == s.calls[k].(roster := Step(s, now, op).0.calls[k].roster)
  {
  }

  /** What is recorded of a stored call after an operation. */
  lemma RecordedExactly(s: Store, now: int, op: Op, k: string)
    requires k in Step(s, now, op).0.calls
    ensures DetailsLaw(s, now, op, k, Step(s, now, op).0.calls[k])
  {
    CallStandsExactlyWhen(s, now, op, k);
    match op
    case ClaimOp(_, _, _, _, _) => ClaimDetails(s, now, op, k);
    case ResumeOp(_, _, _, _, _) => ResumeDetails(s, now, op, k);
    case RegisterOp(_, _, _, _, _, _) => RegisterDetails(s, now, op, k);
    case SetCallOp(_, _) => WriteDetails(s, now, op, k);
    case SetInviteMetadataOp(_, _, _) => MetadataDetails(s, now, op, k);
    case _ => OtherDetails(s, now, op, k);
  }

  /** The accept marker after an operation. */
  lemma MarkerExactly(s: Store, now: int, op: Op, k: string)
    ensures ExpiryOf(Step(s, now, op).0, k) == MarkerAfter(s, now, op, k)
  {
    if op.ForgetIfUnchangedOp? { ForgetIsCompareAndDelete(s, op.callId, op.expected); }
  }

  /** The calls an operation lists for a user, or for a lobby. */
  function ListedForUser(s: Store, now: int, op: Op, user: string): set<string> {
    if (op.ClaimOp? && op.userId == user && TakesSeat(s, now, op, op.callId)) || (op.RegisterUserOp? && op.userId == user)
    then {op.callId} else {}
  }

  function ListedForLobby(s: Store, now: int, op: Op, lobby: string): set<string> {
    if (op.ResumeOp? && op.lobbyName == lobby && TakesSeat(s, now, op, op.callId))
       || (op.RegisterLobbyOp? && op.lobbyName == lobby)
    then {op.callId} else {}
  }

  lemma SeatsList(s: Store, now: int, op: Op, x: string)
    requires op.ClaimOp? || op.ResumeOp?
    ensures At(Step(s, now, op).0.byUser, x) == At(s.byUser, x) + ListedForUser(s, now, op, x)
    ensures At(Step(s, now, op).0.byLobby, x) == At(s.byLobby, x) + ListedForLobby(s, now, op, x)
  {
  }

  lemma OthersListNothing(s: Store, now: int, op: Op)
    requires !op.ClaimOp? && !op.ResumeOp? && !op.RegisterUserOp? && !op.RegisterLobbyOp?
    ensures Step(s, now, op).0.byUser == s.byUser && Step(s, now, op).0.byLobby == s.byLobby
  {
  }

  /** What the discovery indexes list after an operation: they only grow, by taken seats and by plain registration. */
  lemma DiscoveryExactly(s: Store, now: int, op: Op, x: string)
    ensures At(Step(s, now, op).0.byUser, x) == At(s.byUser, x) + ListedForUser(s, now, op, x)
    ensures At(Step(s, now, op).0.byLobby, x) == At(s.byLobby, x) + ListedForLobby(s, now, op, x)
  {
    match op
    case ClaimOp(_, _, _, _, _) => SeatsList(s, now, op, x);
    case ResumeOp(_, _, _, _, _) => SeatsList(s, now, op, x);
    case RegisterUserOp(u, k) => AtAdd(s.byUser, u, k);
    case RegisterLobbyOp(lobby, k) => AtAdd(s.byLobby, lobby, k);
    case _ => OthersListNothing(s, now, op);
  }

  /** The answers: a claim or resume says whether it took the seat, a refused claim names who holds it. */
  lemma AnswersExactly(s: Store, now: int, op: Op)
    ensures var k, reply := op.callId, Step(s, now, op).1;
      match op
      case ClaimOp(_, cl, u, lobby, _) =>
        reply == Claimed(ClaimReply(TakesSeat(s, now, op, k),
                                    if TakesSeat(s, now, op, k) then Some(cl)
                                    else if k in s.calls && s.calls[k].lobbyName == lobby then Winner(s.calls[k], u) else None))
      case ResumeOp(_, _, _, _, _) => reply == Answered(TakesSeat(s, now, op, k))
      case ForgetIfUnchangedOp(_, expected) => reply == Answered(Matches(s, k, expected))
      case RemoveOp(_, cl) => reply == Remaining(if k in s.calls then Some(|Roster(s, k) - {cl}|) else None)
      case MarkAcceptedOp(_, _) => reply == Answered(!MarkerLive(s, k, now))
      case TakeAcceptedOp(_) => reply == Answered(MarkerLive(s, k, now))
      case _ => reply == Done
  {
    if op.ForgetIfUnchangedOp? { ForgetIsCompareAndDelete(s, op.callId, op.expected); }
  }

  // ---- Forgetting -----------------------------------------------------------------------------

  /** A forgotten call is gone from every index; every other call, every marker and the discovery indexes stay. */
  lemma ForgottenIsGone(s: Store, now: int, k: string)
    requires IndexAgrees(s)
    ensures var s' := Step(s, now, ForgetOp(k)).0;
      && k !in s'.calls
      && (forall c :: At(s'.byClient, c) == At(s.byClient, c) - {k})
      && (forall x | x != k :: (x in s'.calls <==> x in s.calls) && (x in s.calls ==> s'.calls[x] == s.calls[x]))
      && s'.accepted == s.accepted && s'.byUser == s.byUser && s'.byLobby == s.byLobby
      && (k !in s.calls ==> s' == s)
  {
    if k in s.calls {
      EraseKeepsIndex(s, k);
    } else {
      forall c ensures At(s.byClient, c) == At(s.byClient, c) - {k} {
        assert Agree(s, c, k);
      }
    }
  }
}
