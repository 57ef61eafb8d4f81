/**
 * The handlers of src/call/CallService.ts on one node without a shared store,
 * updating the service's maps in place. Each is proved to take the node
 * exactly one step of `CallLifecycle`.
 */
module CallHandlers {
  import opened Common
  import opened ReverseIndex
  import opened DmNames
  import opened CallLifecycle

  class CallService {
    var activeCalls: map<string, ActiveCall>
    var clientToCalls: Index
    var acceptedCallIds: set<string>
    /** The calls whose rejoin grace timer is pending. */
    var rejoinGraceTimers: set<string>
    const rejoinGraceMs: nat
    /** What the hooks have been told so far. */
    ghost var marks: map<string, seq<Mark>>

    ghost function Contents(): Node
      reads this
    {
      Node(activeCalls, clientToCalls, acceptedCallIds, rejoinGraceTimers, marks)
    }

    constructor (graceMs: nat)
      ensures Contents() == IDLE && rejoinGraceMs == graceMs
    {
      activeCalls, clientToCalls, acceptedCallIds, rejoinGraceTimers := map[], map[], {}, {};
      rejoinGraceMs := graceMs;
      marks := map[];
    }

    ghost method Tell(callId: string, m: Mark)
      modifies `marks
      ensures Contents() == AddMark(old(Contents()), callId, m)
    {
      marks := marks[callId := MarksOf(Contents(), callId) + [m]];
    }

    method RegisterParticipant(callId: string, clientId: string, callerId: string, lobbyName: string)
      modifies this
      ensures Contents() == Register(old(Contents()), callId, clientId, callerId, lobbyName)
    {
      rejoinGraceTimers := rejoinGraceTimers - {callId};
      if callId !in activeCalls {
        activeCalls := activeCalls[callId := ActiveCall(callerId, lobbyName, None, {}, {}, {}, false, false)];
      }
      var state := activeCalls[callId];
      state := state.(roster := state.roster + {clientId}, ever := state.ever + {clientId});
      activeCalls := activeCalls[callId := state];
      var calls := if clientId in clientToCalls then clientToCalls[clientId] else {};
      clientToCalls := clientToCalls[clientId := calls + {callId}];
      assert activeCalls == Register(old(Contents()), callId, clientId, callerId, lobbyName).calls;
    }

    method SeatUsers(callId: string, users: set<string>)
      requires callId in activeCalls
      modifies `activeCalls
      ensures Contents() == SeatUser(old(Contents()), callId, users)
    {
      var state := activeCalls[callId];
      activeCalls := activeCalls[callId := state.(seatedUsers := state.seatedUsers + users)];
    }

    method AnnounceCallEnded(callId: string, state: ActiveCall, missedReason: MissedReason)
      modifies `acceptedCallIds, `marks
      ensures Contents() == Announce(old(Contents()), callId, state, missedReason)
    {
      if callId in acceptedCallIds {
        acceptedCallIds := acceptedCallIds - {callId};
        Tell(callId, Ended);
        return;
      }
      if |state.roster| > 1 { return; }
      if state.invited {
        Tell(callId, Missed(if state.declined then Declined else missedReason));
      }
    }

    method ForgetCall(callId: string, missedReason: MissedReason)
      modifies this
      ensures Contents() == ForgetStep(old(Contents()), callId, missedReason)
    {
      if callId !in activeCalls { return; }
      var state := activeCalls[callId];
      AnnounceCallEnded(callId, state, missedReason);
      ghost var told := Contents();
      ghost var departed := state.roster;
      var left := state.roster;
      DropAllNothing(clientToCalls, callId);
      while left != {}
        invariant left <= departed
        invariant Contents() == told.(byClient := DropAll(told.byClient, departed - left, callId))
        decreases left
      {
        var cid :| cid in left;
        DropAllStep(told.byClient, departed - left, cid, callId);
        assert departed - (left - {cid}) == (departed - left) + {cid};
        DropFromIndex(cid, callId);
        left := left - {cid};
      }
      assert departed - left == departed;
      activeCalls := activeCalls - {callId};
      acceptedCallIds := acceptedCallIds - {callId};
      rejoinGraceTimers := rejoinGraceTimers - {callId};
    }

    method DropFromIndex(cid: string, callId: string)
      modifies `clientToCalls
      ensures clientToCalls == Drop(old(clientToCalls), cid, callId)
    {
      if cid in clientToCalls {
        clientToCalls := clientToCalls[cid := clientToCalls[cid] - {callId}];
        if clientToCalls[cid] == {} {
          clientToCalls := clientToCalls - {cid};
        }
      }
    }

    /** The first other open socket of the sender's user found in the call. */
    method SameUserSeatedElsewhere(clientId: string, callId: string, env: Env) returns (winner: Option<string>)
      ensures winner.Some? <==> SeatedElsewhere(Contents(), callId, clientId, env)
      ensures winner.Some? ==> winner.value in Roster(Contents(), callId) && winner.value != clientId
                               && winner.value !in env.closed && UserOf(env, winner.value) == UserOf(env, clientId)
    {
      winner := None;
      if UserOf(env, clientId) == {} { return; }
      var members := if callId in activeCalls then activeCalls[callId].roster else {};
      members := members - {clientId};
      var left := members;
      while left != {}
        invariant left <= members
        invariant forall cid | cid in members - left :: UserOf(env, cid) != UserOf(env, clientId) || cid in env.closed
        decreases left
      {
        var cid :| cid in left;
        if UserOf(env, cid) == UserOf(env, clientId) && cid !in env.closed {
          return Some(cid);
        }
        left := left - {cid};
      }
      assert members - left == members;
    }

    method HandleInvite(callId: string, clientId: string, callerId: string, lobbyName: string, env: Env)
      modifies this
      ensures Contents() == InviteStep(old(Contents()), callId, clientId, callerId, lobbyName, env)
    {
      if callId == "" || lobbyName == "" { return; }
      RegisterParticipant(callId, clientId, callerId, lobbyName);
      SeatUsers(callId, UserOf(env, clientId));
      var state := activeCalls[callId];
      if !state.invited {
        activeCalls := activeCalls[callId := state.(invited := true, originalLobby := Some(lobbyName))];
      }
    }

    method HandleAccepted(callId: string, clientId: string, callerId: string, lobbyName: string, env: Env)
      modifies this
      ensures Contents() == AcceptStep(old(Contents()), callId, clientId, callerId, lobbyName, env)
    {
      if callId == "" { return; }
      var wasFirstAccepted := callId !in acceptedCallIds;
      var resolved := lobbyName;
      if lobbyName == "" && callId in activeCalls {
        resolved := activeCalls[callId].lobbyName;
      }
      var winner := SameUserSeatedElsewhere(clientId, callId, env);
      if winner.Some? { return; }
      RegisterParticipant(callId, clientId, callerId, resolved);
      SeatUsers(callId, UserOf(env, clientId));
      if wasFirstAccepted {
        acceptedCallIds := acceptedCallIds + {callId};
        Tell(callId, Started);
      }
    }

    /** The verbs `ended`, `declined` and `cancelled`. */
    method HandleTerminal(callId: string, clientId: string, verb: Verb)
      modifies this
      ensures Contents() == TerminalStep(old(Contents()), callId, clientId, verb)
    {
      if callId == "" { return; }
      rejoinGraceTimers := rejoinGraceTimers - {callId};
      if callId !in activeCalls { return; }
      var state := activeCalls[callId];
      if verb.DeclinedVerb? { state := state.(declined := true); }
      state := state.(roster := state.roster - {clientId});
      activeCalls := activeCalls[callId := state];
      DropFromIndex(clientId, callId);
      if |state.roster| == 0 {
        AnnounceCallEnded(callId, state, Cancelled);
        activeCalls := activeCalls - {callId};
      } else if |state.roster| == 1 && IsDmLobby(state.lobbyName)
                && (callId in acceptedCallIds || |state.ever| > 1) {
        ForgetCall(callId, Cancelled);
      }
    }

    /** Moves a returning user's seat to the socket that announces itself. */
    method RejoinSeat(callId: string, clientId: string, userId: string, lobbyName: string, env: Env)
      modifies this
      ensures Contents() == RejoinStep(old(Contents()), callId, clientId, userId, lobbyName, env)
    {
      if callId !in activeCalls || clientId in activeCalls[callId].roster { return; }
      if userId == "" || lobbyName == "" { return; }
      var local := activeCalls[callId];
      if local.lobbyName != lobbyName && local.originalLobby != Some(lobbyName) { return; }
      if userId !in local.seatedUsers { return; }
      var previous := set cid | cid in local.roster && cid != clientId && UserOf(env, cid) == {userId};
      assert previous == Previous(old(Contents()), callId, clientId, userId, env);
      RegisterParticipant(callId, clientId, local.callerId, lobbyName);
      SeatUsers(callId, {userId});
      GiveUpSeats(callId, previous);
    }

    /** The sockets a moved seat came from leave the call and the index. */
    method GiveUpSeats(callId: string, previous: set<string>)
      requires callId in activeCalls
      modifies this
      ensures Contents() == Moved(old(Contents()), callId, previous)
    {
      ghost var seated := Contents();
      var left := previous;
      MovedNothing(seated, callId);
      assert previous - left == {};
      while left != {}
        invariant left <= previous && callId in activeCalls
        invariant Contents() == Moved(seated, callId, previous - left)
        decreases left
      {
        var cid :| cid in left;
        MovedStep(seated, callId, previous - left, cid);
        assert previous - (left - {cid}) == (previous - left) + {cid};
        var state := activeCalls[callId];
        activeCalls := activeCalls[callId := state.(roster := state.roster - {cid})];
        DropFromIndex(cid, callId);
        left := left - {cid};
      }
      assert previous - left == previous;
    }

    /** `callId` is the id the lobby's live huddle settled on. */
    method HandleLobbyJoin(callId: string, clientId: string, userId: string, lobbyName: string, env: Env)
      modifies this
      ensures Contents() == JoinStep(old(Contents()), callId, clientId, userId, lobbyName, env)
    {
      if callId == "" || lobbyName == "" { return; }
      if userId == "" { return; }
      if callId in activeCalls && activeCalls[callId].lobbyName != lobbyName { return; }
      var winner := SameUserSeatedElsewhere(clientId, callId, env);
      if winner.Some? { return; }
      var callerId := userId;
      if callId in activeCalls && activeCalls[callId].callerId != "" {
        callerId := activeCalls[callId].callerId;
      }
      RegisterParticipant(callId, clientId, callerId, lobbyName);
      SeatUsers(callId, {userId});
      if callId !in acceptedCallIds {
        acceptedCallIds := acceptedCallIds + {callId};
        Tell(callId, OpenedSilently);
      }
    }

    /** A closed socket leaves each of its calls, in the order its index lists them. */
    method HandleDisconnect(clientId: string) returns (ghost order: seq<string>)
      modifies this
      ensures Walks(order, At(old(clientToCalls), clientId))
      ensures Contents() == DisconnectStep(old(Contents()), rejoinGraceMs, clientId, order)
    {
      var callIds := if clientId in clientToCalls then clientToCalls[clientId] else {};
      if callIds == {} { return []; }
      order := DepartEachCall(callIds, clientId);
      clientToCalls := clientToCalls - {clientId};
    }

    method DepartEachCall(callIds: set<string>, clientId: string) returns (ghost order: seq<string>)
      modifies this
      ensures Walks(order, callIds)
      ensures Contents() == DepartEach(old(Contents()), rejoinGraceMs, clientId, order)
    {
      order := [];
      var left := callIds;
      while left != {}
        invariant left <= callIds && Walks(order, callIds - left)
        invariant Contents() == DepartEach(old(Contents()), rejoinGraceMs, clientId, order)
        decreases left
      {
        var callId :| callId in left;
        DepartEachSnoc(old(Contents()), rejoinGraceMs, clientId, order, callId);
        WalksSnoc(order, callIds - left, callId);
        Depart(callId, clientId);
        order := order + [callId];
        assert callIds - (left - {callId}) == (callIds - left) + {callId};
        left := left - {callId};
      }
      assert callIds - left == callIds;
    }

    /** One call of a dropped client. */
    method Depart(callId: string, clientId: string)
      modifies this
      ensures Contents() == DepartStep(old(Contents()), rejoinGraceMs, callId, clientId)
    {
      if callId !in activeCalls { return; }
      var state := activeCalls[callId];
      var remaining := |state.roster - {clientId}|;
      var callContinues := remaining >= 2;
      var graceDeferred := !callContinues && rejoinGraceMs > 0 && remaining >= 1;
      if graceDeferred {
        rejoinGraceTimers := rejoinGraceTimers + {callId};
      }
      if callContinues || graceDeferred {
        activeCalls := activeCalls[callId := state.(roster := state.roster - {clientId})];
      } else {
        ForgetCall(callId, Cancelled);
      }
    }

    /** The deferred end of a call; a timer that was cleared does not fire. */
    method GraceExpired(callId: string)
      modifies this
      ensures Contents() == GraceStep(old(Contents()), callId)
    {
      if callId !in rejoinGraceTimers { return; }
      rejoinGraceTimers := rejoinGraceTimers - {callId};
      var remaining := if callId in activeCalls then |activeCalls[callId].roster| else 0;
      if remaining >= 2 { return; }
      ForgetCall(callId, Cancelled);
    }
  }

  /** The seated node once `gone` have been taken out of the call. */
  function Moved(seated: Node, callId: string, gone: set<string>): Node
    requires callId in seated.calls
  {
    seated.(calls := seated.calls[callId := seated.calls[callId].(roster := seated.calls[callId].roster - gone)],
            byClient := DropAll(seated.byClient, gone, callId))
  }

  lemma MovedNothing(seated: Node, callId: string)
    requires callId in seated.calls
    ensures Moved(seated, callId, {}) == seated
  {
    assert seated.calls[callId].roster - {} == seated.calls[callId].roster;
    assert seated.calls[callId := seated.calls[callId]] == seated.calls;
    DropAllNothing(seated.byClient, callId);
  }

  lemma MovedStep(seated: Node, callId: string, gone: set<string>, cid: string)
    requires callId in seated.calls
    ensures var before := Moved(seated, callId, gone);
      before.(calls := before.calls[callId := before.calls[callId].(roster := before.calls[callId].roster - {cid})],
              byClient := Drop(before.byClient, cid, callId))
      == Moved(seated, callId, gone + {cid})
  {
    assert seated.calls[callId].roster - gone - {cid} == seated.calls[callId].roster - (gone + {cid});
    DropAllStep(seated.byClient, gone, cid, callId);
    var before, after := Moved(seated, callId, gone), Moved(seated, callId, gone + {cid});
    assert before.calls[callId := after.calls[callId]] == after.calls;
  }

  lemma DepartEachSnoc(n: Node, graceMs: nat, clientId: string, order: seq<string>, callId: string)
    ensures DepartEach(n, graceMs, clientId, order + [callId])
         == DepartStep(DepartEach(n, graceMs, clientId, order), graceMs, callId, clientId)
  {
    assert (order + [callId])[..|order|] == order;
  }

  lemma WalksSnoc(order: seq<string>, ids: set<string>, callId: string)
    requires Walks(order, ids) && callId !in ids
    ensures Walks(order + [callId], ids + {callId})
  {
  }
}
