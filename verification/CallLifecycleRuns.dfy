/**
 * What every run of one node keeps: the invariant of its maps, and the
 * accounting of start, end and missed notices.
 */
module CallLifecycleRuns {
  import opened Common
  import opened ReverseIndex
  import opened DmNames
  import opened CallLifecycle

  /** Everything the node holds about one call id. */
  datatype Slot = Slot(call: Option<ActiveCall>, accepted: bool, graced: bool, marks: seq<Mark>)

  function SlotOf(n: Node, k: string): Slot {
    Slot(if k in n.calls then Some(n.calls[k]) else None, k in n.accepted, k in n.graced, MarksOf(n, k))
  }

  // ---- Notices: one opening, one end ----------------------------------------

  /** Whether the call is open after `ms`; None once an opening or an end came out of turn. */
  function Scan(ms: seq<Mark>): Option<bool> {
    if ms == [] then Some(false)
    else
      match (Scan(ms[..|ms| - 1]), ms[|ms| - 1])
      case (Some(false), Started) => Some(true)
      case (Some(false), OpenedSilently) => Some(true)
      case (Some(false), Missed(_)) => Some(false)
      case (Some(true), Ended) => Some(false)
      case _ => None
  }

  lemma ScanSnoc(ms: seq<Mark>, m: Mark)
    ensures Scan(ms + [m]) ==
      match (Scan(ms), m)
      case (Some(false), Started) => Some(true)
      case (Some(false), OpenedSilently) => Some(true)
      case (Some(false), Missed(_)) => Some(false)
      case (Some(true), Ended) => Some(false)
      case _ => None
  {
  }

  function Count(ms: seq<Mark>, m: Mark): nat {
    if ms == [] then 0 else Count(ms[..|ms| - 1], m) + if ms[|ms| - 1] == m then 1 else 0
  }

  /** Started and ended notices alternate, beginning with started. */
  ghost predicate Alternates(ms: seq<Mark>) {
    forall i | 0 <= i <= |ms| :: 0 <= Count(ms[..i], Started) - Count(ms[..i], Ended) <= 1
  }

  /** A call a join opened was ended. */
  ghost predicate EndsSilentOpening(ms: seq<Mark>) {
    exists i, j | 0 <= i < j < |ms| :: ms[i] == OpenedSilently && ms[j] == Ended
  }

  lemma EndingsOfFront(front: seq<Mark>, last: Mark)
    ensures EndsSilentOpening(front) ==> EndsSilentOpening(front + [last])
    ensures OpenedSilently in front && last == Ended ==> EndsSilentOpening(front + [last])
  {
    var ms := front + [last];
    if EndsSilentOpening(front) {
      var i, j :| 0 <= i < j < |front| && front[i] == OpenedSilently && front[j] == Ended;
      assert ms[i] == OpenedSilently && ms[j] == Ended;
    }
    if OpenedSilently in front && last == Ended {
      var i :| 0 <= i < |front| && front[i] == OpenedSilently;
      assert ms[i] == OpenedSilently && ms[|front|] == Ended;
    }
  }

  lemma EndingsOfPrefix(ms: seq<Mark>, k: nat)
    requires k <= |ms| && EndsSilentOpening(ms[..k])
    ensures EndsSilentOpening(ms)
  {
  }

  lemma {:induction false} CountsOfScan(ms: seq<Mark>)
    requires Scan(ms).Some?
    ensures Count(ms, Started) + Count(ms, OpenedSilently) == Count(ms, Ended) + if Scan(ms).value then 1 else 0
    ensures Count(ms, OpenedSilently) > 0 <==> OpenedSilently in ms
    ensures !EndsSilentOpening(ms) ==> Count(ms, OpenedSilently) <= if Scan(ms).value then 1 else 0
  {
    if ms != [] {
      var front, last := ms[..|ms| - 1], ms[|ms| - 1];
      CountsOfScan(front);
      assert ms == front + [last];
      EndingsOfFront(front, last);
    }
  }

  lemma {:induction false} ScanOfPrefix(ms: seq<Mark>, i: nat)
    requires Scan(ms).Some? && i <= |ms|
    ensures Scan(ms[..i]).Some?
    decreases |ms| - i
  {
    if i < |ms| {
      ScanOfPrefix(ms, i + 1);
      assert ms[..i + 1][..i] == ms[..i];
    } else {
      assert ms[..i] == ms;
    }
  }

  /** Heard notices alternate exactly when no end closes an opening a join made unheard. */
  lemma AlternatesUnlessSilent(ms: seq<Mark>)
    requires Scan(ms).Some?
    ensures Alternates(ms) <==> !EndsSilentOpening(ms)
  {
    if EndsSilentOpening(ms) {
      var i, j :| 0 <= i < j < |ms| && ms[i] == OpenedSilently && ms[j] == Ended;
      EndAfterSilent(ms, i, j);
    } else {
      forall k | 0 <= k <= |ms| ensures 0 <= Count(ms[..k], Started) - Count(ms[..k], Ended) <= 1 {
        ScanOfPrefix(ms, k);
        if EndsSilentOpening(ms[..k]) { EndingsOfPrefix(ms, k); }
        CountsOfScan(ms[..k]);
      }
    }
  }

  lemma EndAfterSilent(ms: seq<Mark>, i: nat, j: nat)
    requires Scan(ms).Some? && i < j < |ms| && ms[i] == OpenedSilently && ms[j] == Ended
    ensures !Alternates(ms)
  {
    ScanOfPrefix(ms, j + 1);
    ScanOfPrefix(ms, j);
    assert ms[..j + 1][..j] == ms[..j];
    CountsOfScan(ms[..j + 1]);
    assert ms[..j + 1][i] == OpenedSilently;
    assert Count(ms[..j + 1], Started) - Count(ms[..j + 1], Ended) < 0;
  }

  // ---- The invariant ----------------------------------------------------------

  /** A kept call has someone in it; only kept calls are accepted or waiting; the notices say whether it is open. */
  predicate SlotOk(s: Slot) {
    && (s.call.Some? ==> s.call.value.roster != {} && s.call.value.roster <= s.call.value.ever)
    && (s.accepted || s.graced ==> s.call.Some?)
    && Scan(s.marks) == Some(s.accepted)
  }

  ghost predicate Agree(n: Node, c: string, k: string) {
    c in Roster(n, k) <==> k in At(n.byClient, c)
  }

  /** The client index is exactly the inverse of the rosters, without empty entries. */
  ghost predicate IndexAgrees(n: Node) {
    (forall c, k :: Agree(n, c, k)) && NoEmptyEntry(n.byClient)
  }

  ghost predicate Invariant(n: Node) {
    (forall k :: SlotOk(SlotOf(n, k))) && IndexAgrees(n)
  }

  lemma AddKeepsIndex(n: Node, n': Node, callId: string, clientId: string)
    requires IndexAgrees(n) && n'.byClient == Add(n.byClient, clientId, callId)
    requires forall k :: Roster(n', k) == if k == callId then Roster(n, k) + {clientId} else Roster(n, k)
    ensures IndexAgrees(n')
  {
    AtAdd(n.byClient, clientId, callId);
    forall c, k ensures Agree(n', c, k) {
      assert Agree(n, c, k);
    }
  }

  lemma DropKeepsIndex(n: Node, n': Node, callId: string, gone: set<string>)
    requires IndexAgrees(n) && n'.byClient == DropAll(n.byClient, gone, callId)
    requires forall k :: Roster(n', k) == if k == callId then Roster(n, k) - gone else Roster(n, k)
    ensures IndexAgrees(n')
  {
    AtDropAll(n.byClient, gone, callId);
    forall c, k ensures Agree(n', c, k) {
      assert Agree(n, c, k);
    }
  }

  lemma SameRostersKeepIndex(n: Node, n': Node)
    requires IndexAgrees(n) && n'.byClient == n.byClient && forall k :: Roster(n', k) == Roster(n, k)
    ensures IndexAgrees(n')
  {
    forall c, k ensures Agree(n', c, k) {
      assert Agree(n, c, k);
    }
  }

  ghost predicate OnlyTouches(n: Node, n': Node, callId: string) {
    forall k :: k != callId ==> SlotOf(n', k) == SlotOf(n, k)
  }

  /** A step that touches one call keeps the invariant when it leaves that call's slot well and the index right. */
  lemma SlotStepKeepsInvariant(n: Node, n': Node, callId: string)
    requires Invariant(n) && OnlyTouches(n, n', callId) && SlotOk(SlotOf(n', callId)) && IndexAgrees(n')
    ensures Invariant(n')
  {
  }

  lemma RegisterKeepsInvariant(n: Node, callId: string, clientId: string, callerId: string, lobbyName: string)
    requires Invariant(n)
    ensures Invariant(Register(n, callId, clientId, callerId, lobbyName))
  {
    var n' := Register(n, callId, clientId, callerId, lobbyName);
    assert SlotOk(SlotOf(n, callId));
    assert clientId in n'.calls[callId].roster;
    AddKeepsIndex(n, n', callId, clientId);
    SlotStepKeepsInvariant(n, n', callId);
  }

  /** Changing what a call records besides its roster keeps the invariant. */
  lemma DetailsKeepInvariant(n: Node, callId: string, call: ActiveCall)
    requires Invariant(n) && callId in n.calls
    requires call.roster == n.calls[callId].roster && call.ever == n.calls[callId].ever
    ensures Invariant(n.(calls := n.calls[callId := call]))
  {
    var n' := n.(calls := n.calls[callId := call]);
    assert SlotOk(SlotOf(n, callId));
    SameRostersKeepIndex(n, n');
    SlotStepKeepsInvariant(n, n', callId);
  }

  lemma OpenKeepsInvariant(n: Node, callId: string, m: Mark)
    requires Invariant(n) && callId in n.calls && callId !in n.accepted && (m == Started || m == OpenedSilently)
    ensures Invariant(AddMark(n.(accepted := n.accepted + {callId}), callId, m))
  {
    var n' := AddMark(n.(accepted := n.accepted + {callId}), callId, m);
    assert SlotOk(SlotOf(n, callId));
    ScanSnoc(MarksOf(n, callId), m);
    SameRostersKeepIndex(n, n');
    SlotStepKeepsInvariant(n, n', callId);
  }

  lemma EnterKeepsInvariant(n: Node, callId: string, clientId: string, callerId: string, lobbyName: string,
                            users: set<string>)
    requires Invariant(n)
    ensures Invariant(SeatUser(Register(n, callId, clientId, callerId, lobbyName), callId, users))
  {
    var r := Register(n, callId, clientId, callerId, lobbyName);
    RegisterKeepsInvariant(n, callId, clientId, callerId, lobbyName);
    DetailsKeepInvariant(r, callId, r.calls[callId].(seatedUsers := r.calls[callId].seatedUsers + users));
  }

  lemma RejoinKeepsInvariant(n: Node, callId: string, clientId: string, userId: string, lobbyName: string, env: Env)
    requires Invariant(n)
    ensures Invariant(RejoinStep(n, callId, clientId, userId, lobbyName, env))
  {
    var n' := RejoinStep(n, callId, clientId, userId, lobbyName, env);
    if n' != n {
      var previous := Previous(n, callId, clientId, userId, env);
      EnterKeepsInvariant(n, callId, clientId, n.calls[callId].callerId, lobbyName, {userId});
      var r := SeatUser(Register(n, callId, clientId, n.calls[callId].callerId, lobbyName), callId, {userId});
      assert SlotOk(SlotOf(r, callId));
      assert clientId in n'.calls[callId].roster;
      DropKeepsIndex(r, n', callId, previous);
      SlotStepKeepsInvariant(r, n', callId);
    }
  }

  lemma AnnouncedMarks(n: Node, callId: string, call: ActiveCall, reason: MissedReason)
    requires Scan(MarksOf(n, callId)) == Some(callId in n.accepted)
    ensures var told := Announce(n, callId, call, reason);
      && Scan(MarksOf(told, callId)) == Some(false)
      && callId !in told.accepted
      && OnlyTouches(n, told, callId)
      && told.calls == n.calls && told.byClient == n.byClient && told.graced == n.graced
  {
  }

  lemma ForgetKeepsInvariant(n: Node, callId: string, reason: MissedReason)
    requires Invariant(n)
    ensures Invariant(ForgetStep(n, callId, reason))
    ensures OnlyTouches(n, ForgetStep(n, callId, reason), callId)
  {
    if callId in n.calls {
      var n' := ForgetStep(n, callId, reason);
      assert SlotOk(SlotOf(n, callId));
      AnnouncedMarks(n, callId, n.calls[callId], reason);
      DropKeepsIndex(n, n', callId, n.calls[callId].roster);
      SlotStepKeepsInvariant(n, n', callId);
    }
  }

  /** The node after the leaver is off the roster, while somebody is left. */
  lemma LeaveKeepsInvariant(n: Node, n': Node, callId: string, clientId: string, call: ActiveCall)
    requires Invariant(n) && callId in n.calls
    requires call.roster == n.calls[callId].roster - {clientId} && call.ever == n.calls[callId].ever && call.roster != {}
    requires n' == n.(calls := n.calls[callId := call], byClient := Drop(n.byClient, clientId, callId),
                      graced := n.graced - {callId})
    ensures Invariant(n')
  {
    assert SlotOk(SlotOf(n, callId));
    DropIsDropAll(n.byClient, clientId, callId);
    DropKeepsIndex(n, n', callId, {clientId});
    SlotStepKeepsInvariant(n, n', callId);
  }

  /** What a terminal verb leaves of the call when somebody stays in it. */
  function CallAfter(n: Node, callId: string, clientId: string, verb: Verb): ActiveCall
    requires callId in n.calls
  {
    n.calls[callId].(declined := n.calls[callId].declined || verb.DeclinedVerb?,
                     roster := n.calls[callId].roster - {clientId})
  }

  function NodeAfter(n: Node, callId: string, clientId: string, verb: Verb): Node
    requires callId in n.calls
  {
    n.(calls := n.calls[callId := CallAfter(n, callId, clientId, verb)],
       byClient := Drop(n.byClient, clientId, callId),
       graced := n.graced - {callId})
  }

  lemma LastLeaverKeepsInvariant(n: Node, callId: string, clientId: string, verb: Verb)
    requires Invariant(n) && callId != "" && callId in n.calls && CallAfter(n, callId, clientId, verb).roster == {}
    ensures Invariant(TerminalStep(n, callId, clientId, verb))
  {
    var n', left := TerminalStep(n, callId, clientId, verb), NodeAfter(n, callId, clientId, verb);
    assert SlotOk(SlotOf(n, callId));
    AnnouncedMarks(left, callId, CallAfter(n, callId, clientId, verb), Cancelled);
    DropIsDropAll(n.byClient, clientId, callId);
    DropKeepsIndex(n, n', callId, {clientId});
    SlotStepKeepsInvariant(n, n', callId);
  }

  lemma TerminalKeepsInvariant(n: Node, callId: string, clientId: string, verb: Verb)
    requires Invariant(n)
    ensures Invariant(TerminalStep(n, callId, clientId, verb))
  {
    if callId != "" && callId in n.calls {
      var call, left := CallAfter(n, callId, clientId, verb), NodeAfter(n, callId, clientId, verb);
      if call.roster == {} {
        LastLeaverKeepsInvariant(n, callId, clientId, verb);
      } else {
        LeaveKeepsInvariant(n, left, callId, clientId, call);
        ForgetKeepsInvariant(left, callId, Cancelled);
        assert TerminalStep(n, callId, clientId, verb) in {left, ForgetStep(left, callId, Cancelled)};
      }
    } else if callId != "" {
      var n' := n.(graced := n.graced - {callId});
      SameRostersKeepIndex(n, n');
      assert SlotOk(SlotOf(n, callId));
      SlotStepKeepsInvariant(n, n', callId);
    }
  }

  lemma GraceKeepsInvariant(n: Node, callId: string)
    requires Invariant(n)
    ensures Invariant(GraceStep(n, callId))
  {
    if callId in n.graced {
      var n0 := n.(graced := n.graced - {callId});
      assert SlotOk(SlotOf(n, callId));
      SameRostersKeepIndex(n, n0);
      SlotStepKeepsInvariant(n, n0, callId);
      ForgetKeepsInvariant(n0, callId, Cancelled);
    }
  }

  // ---- Disconnect ---------------------------------------------------------------

  /** Half-way through a disconnect: the index is right for everyone else, and `clientId` is still in `rest`. */
  ghost predicate AgreeExcept(n: Node, clientId: string, rest: set<string>) {
    && (forall c, k | c != clientId :: Agree(n, c, k))
    && (forall k :: HeldIn(n, clientId, k, rest))
    && NoEmptyEntry(n.byClient)
  }

  predicate HeldIn(n: Node, clientId: string, k: string, rest: set<string>) {
    clientId in Roster(n, k) <==> k in rest
  }

  lemma StayKeepsAgreeExcept(n: Node, n': Node, callId: string, clientId: string, rest: set<string>)
    requires AgreeExcept(n, clientId, rest) && callId in rest && n'.byClient == n.byClient
    requires forall k :: Roster(n', k) == if k == callId then Roster(n, k) - {clientId} else Roster(n, k)
    ensures AgreeExcept(n', clientId, rest - {callId})
  {
    forall c, k | c != clientId ensures Agree(n', c, k) {
      assert Agree(n, c, k);
    }
    forall k ensures HeldIn(n', clientId, k, rest - {callId}) {
      assert HeldIn(n, clientId, k, rest);
    }
  }

  lemma ForgetKeepsAgreeExcept(n: Node, n': Node, callId: string, clientId: string, rest: set<string>)
    requires AgreeExcept(n, clientId, rest) && callId in rest
    requires n'.byClient == DropAll(n.byClient, Roster(n, callId), callId)
    requires forall k :: Roster(n', k) == if k == callId then {} else Roster(n, k)
    ensures AgreeExcept(n', clientId, rest - {callId})
  {
    AtDropAll(n.byClient, Roster(n, callId), callId);
    forall c, k | c != clientId ensures Agree(n', c, k) {
      assert Agree(n, c, k);
    }
    forall k ensures HeldIn(n', clientId, k, rest - {callId}) {
      assert HeldIn(n, clientId, k, rest);
    }
  }

  lemma DepartKeepsAgreeExcept(n: Node, graceMs: nat, callId: string, clientId: string, rest: set<string>)
    requires AgreeExcept(n, clientId, rest) && callId in rest
    ensures AgreeExcept(DepartStep(n, graceMs, callId, clientId), clientId, rest - {callId})
  {
    var n' := DepartStep(n, graceMs, callId, clientId);
    assert HeldIn(n, clientId, callId, rest);
    if callId in n'.calls {
      StayKeepsAgreeExcept(n, n', callId, clientId, rest);
    } else {
      ForgetKeepsAgreeExcept(n, n', callId, clientId, rest);
    }
  }

  lemma DepartSlot(n: Node, graceMs: nat, callId: string, clientId: string)
    requires SlotOk(SlotOf(n, callId))
    ensures OnlyTouches(n, DepartStep(n, graceMs, callId, clientId), callId)
    ensures SlotOk(SlotOf(DepartStep(n, graceMs, callId, clientId), callId))
    ensures Announced(SlotOf(n, callId), SlotOf(DepartStep(n, graceMs, callId, clientId), callId))
  {
    if callId in n.calls {
      AnnouncedMarks(n, callId, n.calls[callId], Cancelled);
      AnnounceIsOneNotice(n, callId, n.calls[callId], Cancelled);
    }
  }

  /** What the walk over `order` has done to call `k`: one step if it came to it, nothing if not. */
  ghost predicate Walked(n: Node, n': Node, order: seq<string>, k: string) {
    && SlotOk(SlotOf(n', k))
    && if k in order then Announced(SlotOf(n, k), SlotOf(n', k)) else SlotOf(n', k) == SlotOf(n, k)
  }

  lemma WalkOneMore(n: Node, mid: Node, graceMs: nat, clientId: string, front: seq<string>, last: string, k: string)
    requires last !in front && Walked(n, mid, front, last) && Walked(n, mid, front, k)
    ensures Walked(n, DepartStep(mid, graceMs, last, clientId), front + [last], k)
  {
    DepartSlot(mid, graceMs, last, clientId);
  }

  lemma {:induction false} DepartEachSlots(n: Node, graceMs: nat, clientId: string, order: seq<string>, rest: set<string>)
    requires forall k :: SlotOk(SlotOf(n, k))
    requires AgreeExcept(n, clientId, rest) && (forall x | x in order :: x in rest)
    requires forall i, j | 0 <= i < j < |order| :: order[i] != order[j]
    ensures forall k :: Walked(n, DepartEach(n, graceMs, clientId, order), order, k)
    ensures AgreeExcept(DepartEach(n, graceMs, clientId, order), clientId, rest - (set x | x in order))
  {
    if order == [] {
      assert rest - (set x | x in order) == rest;
    } else {
      var front, last := order[..|order| - 1], order[|order| - 1];
      assert order == front + [last];
      forall i | 0 <= i < |front| ensures front[i] != last {
        assert order[i] != order[|order| - 1];
      }
      DepartEachSlots(n, graceMs, clientId, front, rest);
      var mid := DepartEach(n, graceMs, clientId, front);
      forall k ensures Walked(n, DepartStep(mid, graceMs, last, clientId), order, k) {
        WalkOneMore(n, mid, graceMs, clientId, front, last, k);
      }
      DepartKeepsAgreeExcept(mid, graceMs, last, clientId, rest - (set x | x in front));
      assert rest - (set x | x in front) - {last} == rest - (set x | x in order);
    }
  }

  lemma DisconnectSlots(n: Node, graceMs: nat, clientId: string, order: seq<string>)
    requires Invariant(n) && Walks(order, At(n.byClient, clientId))
    ensures Invariant(DisconnectStep(n, graceMs, clientId, order))
    ensures forall k :: Announced(SlotOf(n, k), SlotOf(DisconnectStep(n, graceMs, clientId, order), k))
  {
    if order == [] { return; }
    var ids := At(n.byClient, clientId);
    forall k ensures HeldIn(n, clientId, k, ids) {
      assert Agree(n, clientId, k);
    }
    assert ids - (set x | x in order) == {};
    DepartEachSlots(n, graceMs, clientId, order, ids);
    var mid, n' := DepartEach(n, graceMs, clientId, order), DisconnectStep(n, graceMs, clientId, order);
    CleanUpKeepsIndex(mid, n', clientId);
    forall k ensures SlotOk(SlotOf(n', k)) && Announced(SlotOf(n, k), SlotOf(n', k)) {
      assert Walked(n, mid, order, k) && SlotOf(n', k) == SlotOf(mid, k);
    }
  }

  lemma CleanUpKeepsIndex(mid: Node, n': Node, clientId: string)
    requires AgreeExcept(mid, clientId, {}) && n' == mid.(byClient := mid.byClient - {clientId})
    ensures IndexAgrees(n')
  {
    forall c, k ensures Agree(n', c, k) {
      assert c != clientId ==> Agree(mid, c, k);
      assert HeldIn(mid, clientId, k, {});
    }
  }

  // ---- Every run ------------------------------------------------------------------

  lemma StepKeepsInvariant(n: Node, graceMs: nat, e: Event)
    requires Invariant(n) && Enabled(n, e)
    ensures Invariant(Step(n, graceMs, e))
  {
    match e
    case Invite(c, cl, caller, lobby, env) => InviteKeepsInvariant(n, c, cl, caller, lobby, env);
    case Accept(c, cl, caller, lobby, env) => AcceptKeepsInvariant(n, c, cl, caller, lobby, env);
    case Join(c, cl, u, lobby, env) => JoinKeepsInvariant(n, c, cl, u, lobby, env);
    case Rejoin(c, cl, u, lobby, env) => RejoinKeepsInvariant(n, c, cl, u, lobby, env);
    case Terminal(c, cl, verb) => TerminalKeepsInvariant(n, c, cl, verb);
    case Disconnect(cl, order) => DisconnectSlots(n, graceMs, cl, order);
    case GraceExpires(c) => GraceKeepsInvariant(n, c);
    case Forget(c, reason) => ForgetKeepsInvariant(n, c, reason);
  }

  lemma InviteKeepsInvariant(n: Node, callId: string, clientId: string, callerId: string, lobbyName: string, env: Env)
    requires Invariant(n)
    ensures Invariant(InviteStep(n, callId, clientId, callerId, lobbyName, env))
  {
    if callId != "" && lobbyName != "" {
      EnterKeepsInvariant(n, callId, clientId, callerId, lobbyName, UserOf(env, clientId));
      var r := SeatUser(Register(n, callId, clientId, callerId, lobbyName), callId, UserOf(env, clientId));
      DetailsKeepInvariant(r, callId, r.calls[callId].(invited := true, originalLobby := Some(lobbyName)));
    }
  }

  lemma AcceptKeepsInvariant(n: Node, callId: string, clientId: string, callerId: string, lobbyName: string, env: Env)
    requires Invariant(n)
    ensures Invariant(AcceptStep(n, callId, clientId, callerId, lobbyName, env))
  {
    if callId != "" && !SeatedElsewhere(n, callId, clientId, env) {
      var resolved := if lobbyName == "" && callId in n.calls then n.calls[callId].lobbyName else lobbyName;
      EnterKeepsInvariant(n, callId, clientId, callerId, resolved, UserOf(env, clientId));
      if callId !in n.accepted {
        OpenKeepsInvariant(SeatUser(Register(n, callId, clientId, callerId, resolved), callId, UserOf(env, clientId)),
                           callId, Started);
      }
    }
  }

  lemma JoinKeepsInvariant(n: Node, callId: string, clientId: string, userId: string, lobbyName: string, env: Env)
    requires Invariant(n)
    ensures Invariant(JoinStep(n, callId, clientId, userId, lobbyName, env))
  {
    if JoinStep(n, callId, clientId, userId, lobbyName, env) != n {
      var callerId := if callId in n.calls && n.calls[callId].callerId != "" then n.calls[callId].callerId else userId;
      EnterKeepsInvariant(n, callId, clientId, callerId, lobbyName, {userId});
      if callId !in n.accepted {
        OpenKeepsInvariant(SeatUser(Register(n, callId, clientId, callerId, lobbyName), callId, {userId}),
                           callId, OpenedSilently);
      }
    }
  }

  /** The node's maps agree after every run, however the ways in and out are mixed. */
  lemma {:induction false} RunKeepsInvariant(n: Node, graceMs: nat, events: seq<Event>)
    requires Invariant(n) && EnabledAll(n, graceMs, events)
    ensures Invariant(Run(n, graceMs, events))
    decreases |events|
  {
    if events != [] {
      StepKeepsInvariant(n, graceMs, events[0]);
      RunKeepsInvariant(Step(n, graceMs, events[0]), graceMs, events[1..]);
    }
  }

  // ---- Accounting -------------------------------------------------------------------

  /**
   * A call that goes leaves at most one notice: the end notice exactly when it
   * had been accepted, otherwise a missed notice if it was an invite, which
   * only a second seat still taken can silence. A call that stays leaves
   * neither.
   */
  ghost predicate Announced(s: Slot, s': Slot) {
    if s.call.Some? && s'.call.None? then
      if s.accepted then s'.marks == s.marks + [Ended]
      else if !s.call.value.invited then s'.marks == s.marks
      else (s'.marks == s.marks && |s.call.value.roster| > 1) || MissedOnce(s, s')
    else
      s'.marks == s.marks || s'.marks == s.marks + [Started] || s'.marks == s.marks + [OpenedSilently]
  }

  ghost predicate MissedOnce(s: Slot, s': Slot)
    requires s.call.Some?
  {
    exists r :: s'.marks == s.marks + [Missed(r)] && (s.call.value.declined ==> r == Declined)
  }

  lemma AnnounceIsOneNotice(n: Node, callId: string, call: ActiveCall, reason: MissedReason)
    ensures var ms, ms' := MarksOf(n, callId), MarksOf(Announce(n, callId, call, reason), callId);
      if callId in n.accepted then ms' == ms + [Ended]
      else if !call.invited || |call.roster| > 1 then ms' == ms
      else ms' == ms + [Missed(if call.declined then Declined else reason)]
  {
  }

  predicate Entering(e: Event) {
    e.Invite? || e.Accept? || e.Join? || e.Rejoin?
  }

  /** Entering a call removes none, and leaves at most an opening, of the kind the verb has. */
  lemma EnteringEndsNothing(n: Node, graceMs: nat, e: Event, k: string)
    requires Entering(e)
    ensures k in n.calls ==> k in Step(n, graceMs, e).calls
    ensures var ms, ms' := MarksOf(n, k), MarksOf(Step(n, graceMs, e), k);
      || ms' == ms
      || (e.Accept? && e.callId == k && ms' == ms + [Started])
      || (e.Join? && e.callId == k && ms' == ms + [OpenedSilently])
  {
  }

  /** Every step, on every call: at most one notice, of the right kind. */
  lemma StepAnnouncesOnce(n: Node, graceMs: nat, e: Event, k: string)
    requires Invariant(n) && Enabled(n, e)
    ensures Announced(SlotOf(n, k), SlotOf(Step(n, graceMs, e), k))
  {
    match e
    case Invite(c, cl, caller, lobby, env) => EnteringEndsNothing(n, graceMs, e, k);
    case Accept(c, cl, caller, lobby, env) => EnteringEndsNothing(n, graceMs, e, k);
    case Join(c, cl, u, lobby, env) => EnteringEndsNothing(n, graceMs, e, k);
    case Rejoin(c, cl, u, lobby, env) => EnteringEndsNothing(n, graceMs, e, k);
    case Terminal(c, cl, verb) => TerminalAnnouncesOnce(n, c, cl, verb, k);
    case Disconnect(cl, order) => DisconnectSlots(n, graceMs, cl, order);
    case GraceExpires(c) => ForgetAnnouncesOnce(n.(graced := n.graced - {c}), c, Cancelled, k);
    case Forget(c, reason) => ForgetAnnouncesOnce(n, c, reason, k);
  }

  lemma ForgetAnnouncesOnce(n: Node, callId: string, reason: MissedReason, k: string)
    ensures Announced(SlotOf(n, k), SlotOf(ForgetStep(n, callId, reason), k))
  {
  }

  lemma TerminalAnnouncesOnce(n: Node, callId: string, clientId: string, verb: Verb, k: string)
    ensures Announced(SlotOf(n, k), SlotOf(TerminalStep(n, callId, clientId, verb), k))
  {
    if callId != "" && callId in n.calls {
      var left := NodeAfter(n, callId, clientId, verb);
      AnnounceIsOneNotice(left, callId, CallAfter(n, callId, clientId, verb), Cancelled);
      ForgetAnnouncesOnce(left, callId, Cancelled, k);
      assert TerminalStep(n, callId, clientId, verb) in {left, ForgetStep(left, callId, Cancelled)}
             || CallAfter(n, callId, clientId, verb).roster == {};
    }
  }
}
