/** One person, one seat on a node: who may be in a call on which socket, over whole runs. */
module CallLifecycleSeats {
  import opened Common
  import opened ReverseIndex
  import opened DmNames
  import opened CallLifecycle
  import opened CallLifecycleRuns

  // ---- One open socket per person --------------------------------------------------

  /** Two open sockets on one roster never belong to the same person. */
  ghost predicate OneSocketEach(n: Node, env: Env) {
    forall k :: RosterOk(Roster(n, k), env)
  }

  ghost predicate RosterOk(roster: set<string>, env: Env) {
    forall a, b | a in roster && b in roster && a != b :: Apart(a, b, env)
  }

  predicate Apart(a: string, b: string, env: Env) {
    a in env.closed || b in env.closed || UserOf(env, a) == {} || UserOf(env, a) != UserOf(env, b)
  }

  /** The same sockets and people, with perhaps more of the sockets closed. */
  predicate Later(env: Env, env': Env) {
    env'.users == env.users && env.closed <= env'.closed
  }

  /** The event's own reading of who is who is `env`, and its user is the sender's. */
  predicate Consistent(e: Event, env: Env) {
    match e
    case Invite(_, _, _, _, seen) => seen == env
    case Accept(_, _, _, _, seen) => seen == env
    case Join(_, cl, u, _, seen) => seen == env && UserOf(env, cl) == {u}
    case Rejoin(_, cl, u, _, seen) => seen == env && UserOf(env, cl) == {u}
    case _ => true
  }

  /**
   * Invites are not checked against the seat rule. One keeps it exactly when
   * it seats nobody new, or an open socket whose person has no other in the
   * call, or a closed one.
   */
  predicate KeepsSeatRule(n: Node, e: Event, env: Env) {
    e.Invite? ==>
      || e.callId == "" || e.lobbyName == ""
      || e.clientId in env.closed || e.clientId in Roster(n, e.callId)
      || !SeatedElsewhere(n, e.callId, e.clientId, env)
  }

  lemma EnteringKeepsRoster(n: Node, callId: string, clientId: string, env: Env)
    requires RosterOk(Roster(n, callId), env)
    requires clientId in env.closed || !SeatedElsewhere(n, callId, clientId, env)
    ensures RosterOk(Roster(n, callId) + {clientId}, env)
  {
    var roster := Roster(n, callId);
    forall a, b | a in roster + {clientId} && b in roster + {clientId} && a != b ensures Apart(a, b, env) {
      if a in roster && b in roster { assert Apart(a, b, env); }
    }
  }

  /** A rejoin takes the person's other sockets off first, so the new one stands alone. */
  lemma RejoinKeepsRoster(n: Node, callId: string, clientId: string, userId: string, lobbyName: string, env: Env)
    requires RosterOk(Roster(n, callId), env) && UserOf(env, clientId) == {userId}
    ensures RosterOk(Roster(RejoinStep(n, callId, clientId, userId, lobbyName, env), callId), env)
  {
    var roster, roster' := Roster(n, callId), Roster(RejoinStep(n, callId, clientId, userId, lobbyName, env), callId);
    if RejoinStep(n, callId, clientId, userId, lobbyName, env) != n {
      assert roster' == (roster + {clientId}) - Previous(n, callId, clientId, userId, env);
      forall a, b | a in roster' && b in roster' && a != b ensures Apart(a, b, env) {
        if a in roster && b in roster { assert Apart(a, b, env); }
      }
    }
  }

  lemma AcceptKeepsRoster(n: Node, callId: string, clientId: string, callerId: string, lobbyName: string, env: Env)
    requires RosterOk(Roster(n, callId), env)
    ensures RosterOk(Roster(AcceptStep(n, callId, clientId, callerId, lobbyName, env), callId), env)
  {
    if !SeatedElsewhere(n, callId, clientId, env) { EnteringKeepsRoster(n, callId, clientId, env); }
  }

  lemma JoinKeepsRoster(n: Node, callId: string, clientId: string, userId: string, lobbyName: string, env: Env)
    requires RosterOk(Roster(n, callId), env)
    ensures RosterOk(Roster(JoinStep(n, callId, clientId, userId, lobbyName, env), callId), env)
  {
    if !SeatedElsewhere(n, callId, clientId, env) { EnteringKeepsRoster(n, callId, clientId, env); }
  }

  lemma EnteringElsewhere(n: Node, graceMs: nat, e: Event, k: string)
    requires Entering(e) && e.callId != k
    ensures Roster(Step(n, graceMs, e), k) == Roster(n, k)
  {
  }

  lemma InviteKeepsRoster(n: Node, callId: string, clientId: string, callerId: string, lobbyName: string, env: Env)
    requires RosterOk(Roster(n, callId), env)
    requires KeepsSeatRule(n, Invite(callId, clientId, callerId, lobbyName, env), env)
    ensures RosterOk(Roster(InviteStep(n, callId, clientId, callerId, lobbyName, env), callId), env)
  {
    if callId != "" && lobbyName != "" {
      if clientId in Roster(n, callId) {
        assert Roster(n, callId) + {clientId} == Roster(n, callId);
      } else {
        EnteringKeepsRoster(n, callId, clientId, env);
      }
    }
  }

  /** An event makes a roster smaller, lets the sender in under the seat rule, or moves a seat. */
  lemma StepRoster(n: Node, graceMs: nat, e: Event, env: Env, k: string)
    requires Consistent(e, env) && KeepsSeatRule(n, e, env) && RosterOk(Roster(n, k), env)
    ensures RosterOk(Roster(Step(n, graceMs, e), k), env)
  {
    if !Entering(e) {
      LeavingShrinks(n, graceMs, e, k);
      SmallerRoster(Roster(n, k), Roster(Step(n, graceMs, e), k), env);
    } else if e.callId != k {
      EnteringElsewhere(n, graceMs, e, k);
    } else {
      match e
      case Invite(_, cl, caller, lobby, _) => InviteKeepsRoster(n, k, cl, caller, lobby, env);
      case Accept(_, cl, caller, lobby, _) => AcceptKeepsRoster(n, k, cl, caller, lobby, env);
      case Join(_, cl, u, lobby, _) => JoinKeepsRoster(n, k, cl, u, lobby, env);
      case Rejoin(_, cl, u, lobby, _) => RejoinKeepsRoster(n, k, cl, u, lobby, env);
    }
  }

  lemma SmallerRoster(roster: set<string>, roster': set<string>, env: Env)
    requires RosterOk(roster, env) && roster' <= roster
    ensures RosterOk(roster', env)
  {
    forall a, b | a in roster' && b in roster' && a != b ensures Apart(a, b, env) {
      assert Apart(a, b, env);
    }
  }

  /** Leaving only ever makes rosters smaller. */
  lemma LeavingShrinks(n: Node, graceMs: nat, e: Event, k: string)
    requires !Entering(e)
    ensures Roster(Step(n, graceMs, e), k) <= Roster(n, k)
  {
    if e.Disconnect? { DepartShrinks(n, graceMs, e.clientId, e.order, k); }
  }

  lemma {:induction false} DepartShrinks(n: Node, graceMs: nat, clientId: string, order: seq<string>, k: string)
    ensures Roster(DepartEach(n, graceMs, clientId, order), k) <= Roster(n, k)
  {
    if order != [] {
      DepartShrinks(n, graceMs, clientId, order[..|order| - 1], k);
      DepartOnceShrinks(DepartEach(n, graceMs, clientId, order[..|order| - 1]), graceMs, order[|order| - 1], clientId, k);
    }
  }

  lemma DepartOnceShrinks(n: Node, graceMs: nat, callId: string, clientId: string, k: string)
    ensures Roster(DepartStep(n, graceMs, callId, clientId), k) <= Roster(n, k)
  {
  }

  /** A breach: the sender's open socket joins another open one of the same person. */
  lemma InviteBreaksRoster(n: Node, e: Event, env: Env)
    requires e.Invite? && Consistent(e, env) && !KeepsSeatRule(n, e, env)
    ensures !RosterOk(Roster(Step(n, 0, e), e.callId), env)
  {
    var other :| other in Roster(n, e.callId) && other != e.clientId && other !in env.closed
                 && UserOf(env, other) == UserOf(env, e.clientId);
    assert !Apart(other, e.clientId, env);
  }

  /**
   * One event: the seat rule survives it exactly when it is not an invite from
   * a second open socket of somebody already in the call. Accept, join, rejoin
   * and every way of leaving always keep it.
   */
  lemma SeatRuleSurvivesExactlyWhen(n: Node, graceMs: nat, e: Event, env: Env)
    requires OneSocketEach(n, env) && Consistent(e, env)
    ensures OneSocketEach(Step(n, graceMs, e), env) <==> KeepsSeatRule(n, e, env)
  {
    if KeepsSeatRule(n, e, env) {
      forall k ensures RosterOk(Roster(Step(n, graceMs, e), k), env) {
        StepRoster(n, graceMs, e, env, k);
      }
    } else {
      InviteBreaksRoster(n, e, env);
      assert Step(n, graceMs, e) == Step(n, 0, e);
    }
  }

  /** What the sockets were when each event ran, closing as time goes on. */
  ghost predicate ConsistentAll(events: seq<Event>, envs: seq<Env>, env: Env) {
    |envs| == |events| &&
    forall i | 0 <= i < |events| :: Consistent(events[i], envs[i]) && Later(Before(envs, env, i), envs[i])
  }

  function Before(envs: seq<Env>, env: Env, i: nat): Env
    requires i < |envs|
  {
    if i == 0 then env else envs[i - 1]
  }

  /** Every invite of the run kept the seat rule where it ran. */
  ghost predicate InvitesKeepSeatRule(n: Node, graceMs: nat, events: seq<Event>, envs: seq<Env>)
    requires |envs| == |events|
    decreases |events|
  {
    events != [] ==>
      KeepsSeatRule(n, events[0], envs[0])
      && InvitesKeepSeatRule(Step(n, graceMs, events[0]), graceMs, events[1..], envs[1..])
  }

  /** The rule held at every point of the run, as the sockets were then. */
  ghost predicate SeatRuleHolds(n: Node, graceMs: nat, events: seq<Event>, envs: seq<Env>)
    requires |envs| == |events|
    decreases |events|
  {
    events != [] ==>
      OneSocketEach(Step(n, graceMs, events[0]), envs[0])
      && SeatRuleHolds(Step(n, graceMs, events[0]), graceMs, events[1..], envs[1..])
  }

  lemma ClosingKeepsOneSocketEach(n: Node, env: Env, env': Env)
    requires OneSocketEach(n, env) && Later(env, env')
    ensures OneSocketEach(n, env')
  {
    forall k ensures RosterOk(Roster(n, k), env') {
      assert RosterOk(Roster(n, k), env);
      forall a, b | a in Roster(n, k) && b in Roster(n, k) && a != b ensures Apart(a, b, env') {
        assert Apart(a, b, env);
      }
    }
  }

  /**
   * One person, one seat: over every run, as sockets close, no call ever has
   * two open sockets of the same person, exactly when no invite brought the
   * second one in.
   */
  lemma {:induction false} OneSeatEach(n: Node, graceMs: nat, events: seq<Event>, envs: seq<Env>, env: Env)
    requires OneSocketEach(n, env) && ConsistentAll(events, envs, env)
    ensures SeatRuleHolds(n, graceMs, events, envs) <==> InvitesKeepSeatRule(n, graceMs, events, envs)
    decreases |events|
  {
    if events != [] {
      var n' := Step(n, graceMs, events[0]);
      assert Consistent(events[0], envs[0]) && Later(Before(envs, env, 0), envs[0]);
      ClosingKeepsOneSocketEach(n, env, envs[0]);
      SeatRuleSurvivesExactlyWhen(n, graceMs, events[0], envs[0]);
      if KeepsSeatRule(n, events[0], envs[0]) {
        LaterConsistent(events, envs, env);
        OneSeatEach(n', graceMs, events[1..], envs[1..], envs[0]);
      }
    }
  }

  lemma LaterConsistent(events: seq<Event>, envs: seq<Env>, env: Env)
    requires events != [] && ConsistentAll(events, envs, env)
    ensures ConsistentAll(events[1..], envs[1..], envs[0])
  {
    forall i | 0 <= i < |events[1..]|
      ensures Consistent(events[1..][i], envs[1..][i])
      ensures Later(Before(envs[1..], envs[0], i), envs[1..][i])
    {
      assert Consistent(events[i + 1], envs[i + 1]);
      assert Later(Before(envs, env, i + 1), envs[i + 1]);
    }
  }

  const TABS := Env(map["tab1" := "ann", "tab2" := "ann"], {})

  /** What the seat rule leaves out: two invites for one call from two tabs of the same person seat both. */
  lemma InviteSeatsSecondSocket()
    ensures var n := InviteStep(InviteStep(IDLE, "call", "tab1", "ann", "dm:ann:bob", TABS), "call", "tab2", "ann", "dm:ann:bob", TABS);
      !OneSocketEach(n, TABS)
  {
    var n := InviteStep(InviteStep(IDLE, "call", "tab1", "ann", "dm:ann:bob", TABS), "call", "tab2", "ann", "dm:ann:bob", TABS);
    assert "tab1" in Roster(n, "call") && "tab2" in Roster(n, "call");
    assert !Apart("tab1", "tab2", TABS);
    assert !RosterOk(Roster(n, "call"), TABS);
  }

  // ---- A rejoin needs an earlier seat ----------------------------------------------------

  /** `e` seats user `u` in call `k` afresh; being rung is not a seat. */
  predicate Seats(e: Event, k: string, u: string) {
    match e
    case Invite(c, cl, _, _, env) => c == k && u in UserOf(env, cl)
    case Accept(c, cl, _, _, env) => c == k && u in UserOf(env, cl)
    case Join(c, _, user, _, _) => c == k && u == user
    case _ => false
  }

  predicate HasSeated(n: Node, k: string, u: string) {
    k in n.calls && u in n.calls[k].seatedUsers
  }

  lemma StepSeats(n: Node, graceMs: nat, e: Event, k: string, u: string)
    requires HasSeated(Step(n, graceMs, e), k, u)
    ensures HasSeated(n, k, u) || Seats(e, k, u)
  {
    match e
    case Invite(c, cl, caller, lobby, env) =>
    case Accept(c, cl, caller, lobby, env) => AcceptSeats(n, c, cl, caller, lobby, env, k, u);
    case Join(c, cl, user, lobby, env) => JoinSeats(n, c, cl, user, lobby, env, k, u);
    case Rejoin(c, cl, user, lobby, env) =>
    case Terminal(c, cl, verb) => TerminalSeatsNobody(n, c, cl, verb, k, u);
    case Disconnect(cl, order) => DepartSeatsNobody(n, graceMs, cl, order, k, u);
    case GraceExpires(c) =>
    case Forget(c, reason) =>
  }

  lemma AcceptSeats(n: Node, callId: string, clientId: string, callerId: string, lobbyName: string, env: Env,
                    k: string, u: string)
    requires HasSeated(AcceptStep(n, callId, clientId, callerId, lobbyName, env), k, u)
    ensures HasSeated(n, k, u) || (callId == k && u in UserOf(env, clientId))
  {
  }

  lemma JoinSeats(n: Node, callId: string, clientId: string, userId: string, lobbyName: string, env: Env,
                  k: string, u: string)
    requires HasSeated(JoinStep(n, callId, clientId, userId, lobbyName, env), k, u)
    ensures HasSeated(n, k, u) || (callId == k && u == userId)
  {
  }

  lemma TerminalSeatsNobody(n: Node, callId: string, clientId: string, verb: Verb, k: string, u: string)
    requires HasSeated(TerminalStep(n, callId, clientId, verb), k, u)
    ensures HasSeated(n, k, u)
  {
  }

  lemma {:induction false} DepartSeatsNobody(n: Node, graceMs: nat, clientId: string, order: seq<string>, k: string, u: string)
    requires HasSeated(DepartEach(n, graceMs, clientId, order), k, u)
    ensures HasSeated(n, k, u)
  {
    if order != [] { DepartSeatsNobody(n, graceMs, clientId, order[..|order| - 1], k, u); }
  }

  /** Whoever the call lets rejoin took a seat in it before, by invite, accept or join. */
  lemma {:induction false} SeatedUsersTookASeat(n: Node, graceMs: nat, events: seq<Event>, k: string, u: string)
    requires HasSeated(Run(n, graceMs, events), k, u) && !HasSeated(n, k, u)
    ensures exists i | 0 <= i < |events| :: Seats(events[i], k, u)
    decreases |events|
  {
    if events != [] {
      var n' := Step(n, graceMs, events[0]);
      if HasSeated(n', k, u) {
        StepSeats(n, graceMs, events[0], k, u);
        assert Seats(events[0], k, u);
      } else {
        SeatedUsersTookASeat(n', graceMs, events[1..], k, u);
        var i :| 0 <= i < |events[1..]| && Seats(events[1..][i], k, u);
        assert Seats(events[i + 1], k, u);
      }
    }
  }

  /** A rejoin by someone who never took a seat in the call is refused, in every run from an idle node. */
  lemma RejoinNeedsEarlierSeat(graceMs: nat, events: seq<Event>, k: string, clientId: string, u: string, lobbyName: string,
                               env: Env)
    requires forall i | 0 <= i < |events| :: !Seats(events[i], k, u)
    ensures var n := Run(IDLE, graceMs, events); RejoinStep(n, k, clientId, u, lobbyName, env) == n
  {
    var n := Run(IDLE, graceMs, events);
    if HasSeated(n, k, u) { SeatedUsersTookASeat(IDLE, graceMs, events, k, u); }
  }
}
