/**
 * What every run of the in-memory call-state store keeps: the two sides of
 * the client index agree, a user has one seat, and the conditional forget is
 * a compare-and-delete.
 */
module CallStoreRuns {
  import opened Common
  import opened ReverseIndex
  import opened CallStateStore

  datatype Op =
    | RegisterOp(callId: string, clientId: string, callerId: string, lobbyName: string, targets: seq<string>,
                 channel: Option<string>)
    | ClaimOp(callId: string, clientId: string, userId: string, lobbyName: string, departed: Option<string>)
    | ResumeOp(callId: string, clientId: string, userId: string, lobbyName: string, gone: seq<string>)
    | RemoveOp(callId: string, clientId: string)
    | ForgetOp(callId: string)
    | ForgetIfUnchangedOp(callId: string, expected: Snapshot)
    | SetInviteMetadataOp(callId: string, invitedAt: Option<int>, callerName: Option<string>)
    | SetCallOp(callId: string, view: View)
    | RegisterUserOp(userId: string, callId: string)
    | RegisterLobbyOp(lobbyName: string, callId: string)
    | MarkAcceptedOp(callId: string, ttlMs: int)
    | TakeAcceptedOp(callId: string)

  datatype Reply = Done | Claimed(claim: ClaimReply) | Answered(yes: bool) | Remaining(count: Option<nat>)

  function Step(s: Store, now: int, op: Op): (Store, Reply) {
    match op
    case RegisterOp(c, cl, caller, lobby, targets, channel) => (Register(s, c, cl, caller, lobby, targets, channel), Done)
    case ClaimOp(c, cl, u, lobby, departed) => var r := Claim(s, c, cl, u, lobby, departed); (r.0, Claimed(r.1))
    case ResumeOp(c, cl, u, lobby, gone) => var r := Resume(s, now, c, cl, u, lobby, gone); (r.0, Answered(r.1))
    case RemoveOp(c, cl) => var r := Remove(s, c, cl); (r.0, Remaining(r.1))
    case ForgetOp(c) => (Forget(s, c), Done)
    case ForgetIfUnchangedOp(c, expected) => var r := ForgetIfUnchanged(s, c, expected); (r.0, Answered(r.1))
    case SetInviteMetadataOp(c, at, name) => (SetInviteMetadata(s, c, at, name), Done)
    case SetCallOp(c, view) => (SetCall(s, c, view), Done)
    case RegisterUserOp(u, c) => (s.(byUser := Add(s.byUser, u, c)), Done)
    case RegisterLobbyOp(lobby, c) => (s.(byLobby := Add(s.byLobby, lobby, c)), Done)
    case MarkAcceptedOp(c, ttl) => var r := MarkAccepted(s, now, c, ttl); (r.0, Answered(r.1))
    case TakeAcceptedOp(c) => var r := TakeAccepted(s, now, c); (r.0, Answered(r.1))
  }

  /** An operation at its clock reading. */
  datatype Timed = Timed(now: int, op: Op)

  function Run(s: Store, ops: seq<Timed>): Store
    decreases |ops|
  {
    if ops == [] then s else Run(Step(s, ops[0].now, ops[0].op).0, ops[1..])
  }

  // ---- The two sides of the client index ------------------------------------

  /** Client `c` is on the roster of call `k` exactly when its index entry names `k`. */
  ghost predicate Agree(s: Store, c: string, k: string) {
    c in Roster(s, k) <==> k in At(s.byClient, c)
  }

  ghost predicate IndexAgrees(s: Store) {
    && (forall c, k :: Agree(s, c, k))
    && NoEmptyEntry(s.byClient)
  }

  lemma SameIndex(s: Store, s': Store)
    requires IndexAgrees(s) && s'.byClient == s.byClient && forall k :: Roster(s', k) == Roster(s, k)
    ensures IndexAgrees(s')
  {
    forall c, k ensures Agree(s', c, k) {
      assert Agree(s, c, k);
    }
  }

  lemma SeatKeepsIndex(s: Store, callId: string, clientId: string, userId: string, leaving: set<string>)
    requires IndexAgrees(s) && callId in s.calls
    ensures IndexAgrees(TakeSeat(s, callId, clientId, userId, leaving))
  {
    var s' := TakeSeat(s, callId, clientId, userId, leaving);
    AtDropAll(s.byClient, leaving, callId);
    AtAdd(DropAll(s.byClient, leaving, callId), clientId, callId);
    forall c, k ensures Agree(s', c, k) {
      assert Agree(s, c, k);
    }
  }

  lemma EraseKeepsIndex(s: Store, callId: string)
    requires IndexAgrees(s)
    ensures IndexAgrees(Erase(s, callId))
    ensures forall c :: At(Erase(s, callId).byClient, c) == At(s.byClient, c) - {callId}
  {
    var s' := Erase(s, callId);
    AtDropAll(s.byClient, Roster(s, callId), callId);
    forall c, k ensures Agree(s', c, k) {
      assert Agree(s, c, k);
    }
    forall c ensures At(s'.byClient, c) == At(s.byClient, c) - {callId} {
      assert Agree(s, c, callId);
    }
  }

  lemma {:induction false} AtAddEach(ix: Index, ks: seq<string>, m: string)
    ensures forall x :: At(AddEach(ix, ks, m), x) == if x in ks then At(ix, x) + {m} else At(ix, x)
    ensures NoEmptyEntry(ix) ==> NoEmptyEntry(AddEach(ix, ks, m))
  {
    if ks != [] {
      var front, last := ks[..|ks| - 1], ks[|ks| - 1];
      AtAddEach(ix, front, m);
      AtAdd(AddEach(ix, front, m), last, m);
      assert ks == front + [last];
    }
  }

  lemma RegisterKeepsIndex(s: Store, callId: string, clientId: string, s': Store)
    requires IndexAgrees(s)
    requires s'.byClient == Add(s.byClient, clientId, callId)
    requires forall k :: Roster(s', k) == if k == callId then Roster(s, k) + {clientId} else Roster(s, k)
    ensures IndexAgrees(s')
  {
    AtAdd(s.byClient, clientId, callId);
    forall c, k ensures Agree(s', c, k) {
      assert Agree(s, c, k);
    }
  }

  lemma RemovedRoster(s: Store, callId: string, clientId: string, k: string)
    ensures Roster(Remove(s, callId, clientId).0, k) ==
            if k == callId then Roster(s, k) - {clientId} else Roster(s, k)
  {
  }

  lemma RemoveKeepsIndex(s: Store, callId: string, clientId: string)
    requires IndexAgrees(s)
    ensures IndexAgrees(Remove(s, callId, clientId).0)
  {
    var s' := Remove(s, callId, clientId).0;
    forall c, k ensures Agree(s', c, k) {
      assert Agree(s, c, k) && Agree(s, clientId, callId);
      RemovedRoster(s, callId, clientId, k);
      AtDropOf(s.byClient, clientId, callId, c);
    }
  }

  lemma SetCallKeepsIndex(s: Store, callId: string, view: View)
    requires IndexAgrees(s)
    ensures IndexAgrees(SetCall(s, callId, view))
  {
    var s' := SetCall(s, callId, view);
    AtAddEach(s.byClient, view.roster, callId);
    forall c, k ensures Agree(s', c, k) {
      assert Agree(s, c, k);
    }
  }

  lemma ClaimKeepsIndex(s: Store, callId: string, clientId: string, userId: string, lobbyName: string,
                        departed: Option<string>)
    requires IndexAgrees(s)
    ensures IndexAgrees(Claim(s, callId, clientId, userId, lobbyName, departed).0)
  {
    var (s', reply) := Claim(s, callId, clientId, userId, lobbyName, departed);
    if reply.accepted {
      var winner := Winner(s.calls[callId], userId);
      var leaving := if winner.Some? && winner.value != clientId && winner == departed then {winner.value} else {};
      SeatKeepsIndex(s, callId, clientId, userId, leaving);
      SameIndex(TakeSeat(s, callId, clientId, userId, leaving), s');
    }
  }

  lemma ResumeKeepsIndex(s: Store, now: int, callId: string, clientId: string, userId: string, lobbyName: string,
                         gone: seq<string>)
    requires IndexAgrees(s)
    ensures IndexAgrees(Resume(s, now, callId, clientId, userId, lobbyName, gone).0)
  {
    var (s', resumed) := Resume(s, now, callId, clientId, userId, lobbyName, gone);
    if resumed {
      var leaving := SetOf(gone) - {clientId};
      SeatKeepsIndex(s, callId, clientId, userId, leaving);
      SameIndex(TakeSeat(s, callId, clientId, userId, leaving), s');
    }
  }

  lemma ForgetIfUnchangedKeepsIndex(s: Store, callId: string, expected: Snapshot)
    requires IndexAgrees(s)
    ensures IndexAgrees(ForgetIfUnchanged(s, callId, expected).0)
  {
    var (s', forgotten) := ForgetIfUnchanged(s, callId, expected);
    if forgotten {
      EraseKeepsIndex(s, callId);
      SameIndex(Erase(s, callId), s');
    }
  }

  lemma StepKeepsIndex(s: Store, now: int, op: Op)
    requires IndexAgrees(s)
    ensures IndexAgrees(Step(s, now, op).0)
  {
    match op
    case RegisterOp(k, c, _, _, _, _) => RegisterKeepsIndex(s, k, c, Step(s, now, op).0);
    case ClaimOp(k, c, u, lobby, departed) => ClaimKeepsIndex(s, k, c, u, lobby, departed);
    case ResumeOp(k, c, u, lobby, gone) => ResumeKeepsIndex(s, now, k, c, u, lobby, gone);
    case RemoveOp(k, c) => RemoveKeepsIndex(s, k, c);
    case ForgetOp(k) => EraseKeepsIndex(s, k);
    case ForgetIfUnchangedOp(k, expected) => ForgetIfUnchangedKeepsIndex(s, k, expected);
    case SetCallOp(k, view) => SetCallKeepsIndex(s, k, view);
    case _ => SameIndex(s, Step(s, now, op).0);
  }

  /** After any run a client is on a call's roster exactly when its index names the call. */
  lemma {:induction false} RunKeepsIndex(s: Store, ops: seq<Timed>)
    requires IndexAgrees(s)
    ensures IndexAgrees(Run(s, ops))
    decreases |ops|
  {
    if ops != [] {
      StepKeepsIndex(s, ops[0].now, ops[0].op);
      RunKeepsIndex(Step(s, ops[0].now, ops[0].op).0, ops[1..]);
    }
  }

  ghost predicate NoEmptyRoster(s: Store) {
    forall k :: k in s.calls ==> s.calls[k].roster != {}
  }

  /** The one step that stores a call nobody is in: a whole-state write of an unknown call with no participants. */
  lemma EmptyRosterOnlyFromSetCall(s: Store, now: int, op: Op)
    requires NoEmptyRoster(s)
    ensures NoEmptyRoster(Step(s, now, op).0)
       <==> !(op.SetCallOp? && op.callId !in s.calls && op.view.roster == [])
  {
    var s' := Step(s, now, op).0;
    match op
    case SetCallOp(k, view) => SetCallRosters(s, k, view);
    case RegisterOp(k, c, _, _, _, _) => OneCallRewritten(s, s', k, c);
    case ClaimOp(k, c, u, lobby, departed) =>
      if Claim(s, k, c, u, lobby, departed).1.accepted { OneCallRewritten(s, s', k, c); }
    case ResumeOp(k, c, u, lobby, gone) =>
      if Resume(s, now, k, c, u, lobby, gone).1 { OneCallRewritten(s, s', k, c); }
    case SetInviteMetadataOp(k, _, _) => RostersStay(s, s');
    case RemoveOp(k, c) => CallLeft(s, k, c);
    case _ => RostersStay(s, s');
  }

  /** Calls may go, and those that stay keep their rosters. */
  lemma RostersStay(s: Store, s': Store)
    requires NoEmptyRoster(s)
    requires forall k :: k in s'.calls ==> k in s.calls && s'.calls[k].roster == s.calls[k].roster
    ensures NoEmptyRoster(s')
  {
  }

  lemma CallLeft(s: Store, callId: string, clientId: string)
    requires NoEmptyRoster(s)
    ensures NoEmptyRoster(Remove(s, callId, clientId).0)
  {
    var s' := Remove(s, callId, clientId).0;
    forall k | k in s'.calls ensures s'.calls[k].roster != {} {
      assert k in s.calls;
    }
  }

  lemma OneCallRewritten(s: Store, s': Store, callId: string, clientId: string)
    requires NoEmptyRoster(s) && callId in s'.calls && clientId in s'.calls[callId].roster
    requires s'.calls == s.calls[callId := s'.calls[callId]]
    ensures NoEmptyRoster(s')
  {
  }

  lemma SetCallRosters(s: Store, callId: string, view: View)
    requires NoEmptyRoster(s)
    ensures NoEmptyRoster(SetCall(s, callId, view)) <==> !(callId !in s.calls && view.roster == [])
  {
    var s' := SetCall(s, callId, view);
    assert s'.calls[callId].roster == Roster(s, callId) + SetOf(view.roster);
    assert forall k | k in s'.calls && k != callId :: k in s.calls && s'.calls[k] == s.calls[k];
    if view.roster != [] {
      assert view.roster[0] in s'.calls[callId].roster;
    } else if callId !in s.calls {
      assert s'.calls[callId].roster == {};
    }
  }

  // ---- One seat per person --------------------------------------------------

  /** `client` got into `call` by a claim or a resume for `user`. */
  datatype Seat = Seat(call: string, client: string, user: string)

  /** The store with the seats taken so far by clients still on the roster. */
  datatype Tagged = Tagged(store: Store, seats: set<Seat>)

  function Taken(op: Op, reply: Reply): set<Seat> {
    if op.ClaimOp? && reply.Claimed? && reply.claim.accepted then {Seat(op.callId, op.clientId, op.userId)}
    else if op.ResumeOp? && reply.Answered? && reply.yes then {Seat(op.callId, op.clientId, op.userId)}
    else {}
  }

  function TagStep(t: Tagged, now: int, op: Op): Tagged {
    var (s', reply) := Step(t.store, now, op);
    var kept := set seat | seat in t.seats && seat.client in Roster(s', seat.call);
    Tagged(s', kept + Taken(op, reply))
  }

  function TagRun(t: Tagged, ops: seq<Timed>): Tagged
    decreases |ops|
  {
    if ops == [] then t else TagRun(TagStep(t, ops[0].now, ops[0].op), ops[1..])
  }

  ghost predicate Recorded(s: Store, seat: Seat) {
    && seat.client != ""
    && seat.call in s.calls
    && seat.client in s.calls[seat.call].roster
    && seat.user in s.calls[seat.call].seats
    && s.calls[seat.call].seats[seat.user] == seat.client
  }

  ghost predicate SeatsRecorded(t: Tagged) {
    forall seat :: seat in t.seats ==> Recorded(t.store, seat)
  }

  /** Client ids are never empty: an empty recorded seat would read as no seat. */
  predicate NamesClient(op: Op) {
    (op.ClaimOp? || op.ResumeOp?) ==> op.clientId != ""
  }

  /** A recorded seat whose client stays on the roster stays recorded. */
  lemma TakenSeatKeepsRecorded(s: Store, callId: string, clientId: string, userId: string, leaving: set<string>, seat: Seat)
    requires callId in s.calls && Recorded(s, seat)
    requires forall winner | Winner(s.calls[callId], userId) == Some(winner) ::
               winner == clientId || winner !in s.calls[callId].roster || winner in leaving
    requires clientId !in leaving
    requires seat.client in Roster(TakeSeat(s, callId, clientId, userId, leaving), seat.call)
    ensures Recorded(TakeSeat(s, callId, clientId, userId, leaving), seat)
  {
  }

  lemma WriteKeepsRecorded(s: Store, callId: string, view: View, seat: Seat)
    requires Recorded(s, seat)
    ensures Recorded(SetCall(s, callId, view), seat)
  {
  }

  lemma RegisterKeepsRecorded(s: Store, now: int, op: Op, seat: Seat)
    requires Recorded(s, seat) && op.RegisterOp?
    ensures Recorded(Step(s, now, op).0, seat)
  {
  }

  lemma OtherKeepsRecorded(s: Store, now: int, op: Op, seat: Seat)
    requires Recorded(s, seat) && !op.ClaimOp? && !op.ResumeOp? && !op.SetCallOp? && !op.RegisterOp?
    requires seat.client in Roster(Step(s, now, op).0, seat.call)
    ensures Recorded(Step(s, now, op).0, seat)
  {
  }

  lemma StepKeepsRecorded(s: Store, now: int, op: Op, seat: Seat)
    requires Recorded(s, seat) && NamesClient(op) && seat.client in Roster(Step(s, now, op).0, seat.call)
    ensures Recorded(Step(s, now, op).0, seat)
  {
    match op
    case ClaimOp(k, c, u, lobby, departed) =>
      if Claim(s, k, c, u, lobby, departed).1.accepted {
        var winner := Winner(s.calls[k], u);
        var leaving := if winner.Some? && winner.value != c && winner == departed then {winner.value} else {};
        TakenSeatKeepsRecorded(s, k, c, u, leaving, seat);
      }
    case ResumeOp(k, c, u, lobby, gone) =>
      if Resume(s, now, k, c, u, lobby, gone).1 {
        TakenSeatKeepsRecorded(s, k, c, u, SetOf(gone) - {c}, seat);
      }
    case SetCallOp(k, view) => WriteKeepsRecorded(s, k, view, seat);
    case RegisterOp(_, _, _, _, _, _) => RegisterKeepsRecorded(s, now, op, seat);
    case _ => OtherKeepsRecorded(s, now, op, seat);
  }

  lemma StepKeepsSeatsRecorded(t: Tagged, now: int, op: Op)
    requires SeatsRecorded(t) && NamesClient(op)
    ensures SeatsRecorded(TagStep(t, now, op))
  {
    var t' := TagStep(t, now, op);
    forall seat | seat in t'.seats ensures Recorded(t'.store, seat) {
      if seat !in Taken(op, Step(t.store, now, op).1) {
        assert Recorded(t.store, seat);
        StepKeepsRecorded(t.store, now, op, seat);
      }
    }
  }

  /**
   * In every run at most one current participant of a call holds a seat for a
   * given user, and it is the one the call records.
   */
  lemma {:induction false} OneSeatPerPerson(t: Tagged, ops: seq<Timed>)
    requires SeatsRecorded(t)
    requires forall i | 0 <= i < |ops| :: NamesClient(ops[i].op)
    ensures SeatsRecorded(TagRun(t, ops))
    ensures forall a, b | a in TagRun(t, ops).seats && b in TagRun(t, ops).seats ::
              a.call == b.call && a.user == b.user ==> a.client == b.client
    decreases |ops|
  {
    if ops != [] {
      assert NamesClient(ops[0].op);
      StepKeepsSeatsRecorded(t, ops[0].now, ops[0].op);
      OneSeatPerPerson(TagStep(t, ops[0].now, ops[0].op), ops[1..]);
    }
  }

  // ---- The conditional forget ------------------------------------------------

  lemma {:induction false} SetOfSize(xs: seq<string>)
    ensures |SetOf(xs)| <= |xs|
  {
    if xs != [] {
      SetOfSize(xs[1..]);
      assert xs == [xs[0]] + xs[1..];
      assert SetOf(xs) == {xs[0]} + SetOf(xs[1..]);
    }
  }

  lemma SubsetOfSameSize(a: set<string>, b: set<string>)
    requires a <= b && |a| == |b|
    ensures a == b
  {
    if x :| x in b && x !in a {
      assert |a + {x}| == |a| + 1;
      assert a + {x} <= b;
      SubsetSize(a + {x}, b);
    }
  }

  lemma {:induction false} SubsetSize(a: set<string>, b: set<string>)
    requires a <= b
    ensures |a| <= |b|
    decreases a
  {
    if x :| x in a {
      SubsetSize(a - {x}, b - {x});
    }
  }

  /** `snap` lists each participant once and agrees with the call in everything it names. */
  ghost predicate Matches(s: Store, callId: string, snap: Snapshot) {
    && callId in s.calls
    && |SetOf(snap.roster)| == |snap.roster|
    && s.calls[callId].callerId == snap.callerId
    && s.calls[callId].lobbyName == snap.lobbyName
    && s.calls[callId].invitedAt == snap.invitedAt
    && s.calls[callId].roster == SetOf(snap.roster)
  }

  /**
   * Equal sizes and inclusion stand for set equality, so the forget succeeds
   * exactly on the snapshot it was given; otherwise nothing changes.
   */
  lemma ForgetIsCompareAndDelete(s: Store, callId: string, snap: Snapshot)
    ensures var (s', forgotten) := ForgetIfUnchanged(s, callId, snap);
      && (forgotten <==> Matches(s, callId, snap))
      && (!forgotten ==> s' == s)
  {
    if callId in s.calls && |SetOf(snap.roster)| == |snap.roster| && |s.calls[callId].roster| == |snap.roster|
       && (forall i | 0 <= i < |snap.roster| :: snap.roster[i] in s.calls[callId].roster) {
      assert SetOf(snap.roster) <= s.calls[callId].roster;
      SubsetOfSameSize(SetOf(snap.roster), s.calls[callId].roster);
    }
    if Matches(s, callId, snap) {
      forall i | 0 <= i < |snap.roster| ensures snap.roster[i] in s.calls[callId].roster {
        assert snap.roster[i] in SetOf(snap.roster);
      }
    }
  }

  /** A successful forget leaves the call in no client's index and touches no other call. */
  lemma ForgetLeavesNoTrace(s: Store, callId: string, snap: Snapshot)
    requires IndexAgrees(s) && ForgetIfUnchanged(s, callId, snap).1
    ensures var s' := ForgetIfUnchanged(s, callId, snap).0;
      && callId !in s'.calls && callId !in s'.accepted
      && (forall c :: At(s'.byClient, c) == At(s.byClient, c) - {callId})
      && (forall k :: k != callId ==> ((k in s'.calls <==> k in s.calls) && (k in s.calls ==> s'.calls[k] == s.calls[k])))
      && IndexAgrees(s')
  {
    EraseKeepsIndex(s, callId);
    StepKeepsIndex(s, 0, ForgetIfUnchangedOp(callId, snap));
  }

  /** The call still stands as it stood in `s`, in everything a snapshot names. */
  predicate SameCall(s: Store, s': Store, callId: string)
    requires callId in s.calls
  {
    && callId in s'.calls
    && s'.calls[callId].callerId == s.calls[callId].callerId
    && s'.calls[callId].lobbyName == s.calls[callId].lobbyName
    && s'.calls[callId].invitedAt == s.calls[callId].invitedAt
    && s'.calls[callId].roster == s.calls[callId].roster
  }

  /**
   * `getCall` reads a snapshot that matches. The forget that comes after it,
   * whatever ran in between, succeeds exactly when that call still stands, and
   * otherwise changes nothing.
   */
  lemma ForgetSucceedsExactlyOnSameCall(s: Store, callId: string, snap: Snapshot, ops: seq<Timed>)
    requires Matches(s, callId, snap)
    ensures ForgetIfUnchanged(Run(s, ops), callId, snap).1 <==> SameCall(s, Run(s, ops), callId)
    ensures !SameCall(s, Run(s, ops), callId) ==> ForgetIfUnchanged(Run(s, ops), callId, snap).0 == Run(s, ops)
  {
    ForgetIsCompareAndDelete(Run(s, ops), callId, snap);
  }

  /** Runs on other calls do not disturb it. */
  lemma {:induction false} OtherCallsDoNotDisturbForget(s: Store, callId: string, snap: Snapshot, ops: seq<Timed>)
    requires Matches(s, callId, snap)
    requires forall i | 0 <= i < |ops| :: ops[i].op.callId != callId
    ensures ForgetIfUnchanged(Run(s, ops), callId, snap).1
    decreases |ops|
  {
    if ops == [] {
      ForgetIsCompareAndDelete(s, callId, snap);
    } else {
      assert ops[0].op.callId != callId;
      OtherCallStays(s, ops[0].now, ops[0].op, callId);
      OtherCallsDoNotDisturbForget(Step(s, ops[0].now, ops[0].op).0, callId, snap, ops[1..]);
    }
  }

  lemma OtherCallStays(s: Store, now: int, op: Op, callId: string)
    requires callId in s.calls && op.callId != callId
    ensures var s' := Step(s, now, op).0; callId in s'.calls && s'.calls[callId] == s.calls[callId]
  {
  }

  /** The operation can take `clientId` out of the call. */
  predicate LetsGo(op: Op, callId: string, clientId: string) {
    op.callId == callId &&
    match op
    case RemoveOp(_, cl) => cl == clientId
    case ForgetOp(_) => true
    case ForgetIfUnchangedOp(_, expected) => clientId in expected.roster
    case ClaimOp(_, cl, _, _, departed) => departed == Some(clientId) && cl != clientId
    case ResumeOp(_, cl, _, _, gone) => clientId in gone && cl != clientId
    case _ => false
  }

  lemma ClaimKeepsParticipant(s: Store, c: string, cl: string, u: string, lobby: string, departed: Option<string>,
                              callId: string, clientId: string)
    requires clientId in Roster(s, callId) && (c == callId && departed == Some(clientId) ==> cl == clientId)
    ensures clientId in Roster(Claim(s, c, cl, u, lobby, departed).0, callId)
  {
  }

  lemma ResumeKeepsParticipant(s: Store, now: int, c: string, cl: string, u: string, lobby: string, gone: seq<string>,
                               callId: string, clientId: string)
    requires clientId in Roster(s, callId) && (c == callId && clientId in gone ==> cl == clientId)
    ensures clientId in Roster(Resume(s, now, c, cl, u, lobby, gone).0, callId)
  {
    assert clientId in SetOf(gone) <==> clientId in gone;
  }

  lemma ForgetKeepsParticipant(s: Store, c: string, snap: Snapshot, callId: string, clientId: string)
    requires clientId in Roster(s, callId) && (c == callId ==> clientId !in snap.roster)
    ensures clientId in Roster(ForgetIfUnchanged(s, c, snap).0, callId)
  {
    ForgetIsCompareAndDelete(s, c, snap);
    assert clientId in SetOf(snap.roster) <==> clientId in snap.roster;
  }

  lemma ParticipantStays(s: Store, now: int, op: Op, callId: string, clientId: string)
    requires clientId in Roster(s, callId) && !LetsGo(op, callId, clientId)
    ensures clientId in Roster(Step(s, now, op).0, callId)
  {
    match op
    case ForgetIfUnchangedOp(c, expected) => ForgetKeepsParticipant(s, c, expected, callId, clientId);
    case ClaimOp(c, cl, u, lobby, departed) => ClaimKeepsParticipant(s, c, cl, u, lobby, departed, callId, clientId);
    case ResumeOp(c, cl, u, lobby, gone) => ResumeKeepsParticipant(s, now, c, cl, u, lobby, gone, callId, clientId);
    case _ =>
  }

  /**
   * A participant the snapshot missed survives the forget, in every run in
   * which nothing takes that participant out: a conditional forget of any other
   * snapshot without it included.
   */
  lemma {:induction false} MissedParticipantSurvivesForget(s: Store, callId: string, clientId: string, snap: Snapshot,
                                                           ops: seq<Timed>)
    requires clientId in Roster(s, callId) && clientId !in snap.roster
    requires forall i | 0 <= i < |ops| :: !LetsGo(ops[i].op, callId, clientId)
    ensures var (s', forgotten) := ForgetIfUnchanged(Run(s, ops), callId, snap);
      !forgotten && s' == Run(s, ops) && clientId in Roster(s', callId)
    decreases |ops|
  {
    if ops == [] {
      ForgetIsCompareAndDelete(s, callId, snap);
      assert clientId !in SetOf(snap.roster);
    } else {
      assert !LetsGo(ops[0].op, callId, clientId);
      ParticipantStays(s, ops[0].now, ops[0].op, callId, clientId);
      MissedParticipantSurvivesForget(Step(s, ops[0].now, ops[0].op).0, callId, clientId, snap, ops[1..]);
    }
  }
}
