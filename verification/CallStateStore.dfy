/**
 * The shared call-state store kept in memory (src/call/CallStateStore.ts,
 * InMemoryCallStateStore).
 *
 * `Store` is the store's abstract value and the functions say what each
 * operation computes on it; the class runs the operations over its maps.
 */
module CallStateStore {
  import opened Common
  import opened ReverseIndex

  const TTL_MS := 4 * 60 * 60 * 1000

  /**
   * One call. `seats` is the accepted-seat map the source keeps in a WeakMap
   * keyed by the call object: it lives and dies with the call.
   */
  datatype CallRecord = CallRecord(
    callerId: string,
    lobbyName: string,
    channel: Option<string>,
    targetUserIds: seq<string>,
    roster: set<string>,
    invitedAt: Option<int>,
    callerName: Option<string>,
    seats: map<string, string>)

  datatype Store = Store(
    calls: map<string, CallRecord>,
    byClient: Index,
    byUser: Index,
    byLobby: Index,
    accepted: map<string, int>)

  const EMPTY := Store(map[], map[], map[], map[], map[])

  datatype ClaimReply = ClaimReply(accepted: bool, winner: Option<string>)

  /** The metadata and roster a liveness query saw; the roster as an array. */
  datatype Snapshot = Snapshot(callerId: string, lobbyName: string, invitedAt: Option<int>, roster: seq<string>)

  function Roster(s: Store, callId: string): set<string> {
    if callId in s.calls then s.calls[callId].roster else {}
  }

  /** The recorded seat of a user; an empty id reads as no seat. */
  function Winner(call: CallRecord, userId: string): Option<string> {
    if userId in call.seats && call.seats[userId] != "" then Some(call.seats[userId]) else None
  }

  predicate MarkerLive(s: Store, callId: string, now: int) {
    callId in s.accepted && s.accepted[callId] > now
  }

  function SetOf(xs: seq<string>): set<string> {
    set x | x in xs
  }

  predicate ValidCallChannel(channel: Option<string>) {
    && channel.Some?
    && 0 < |channel.value| <= 4096
    && forall i | 0 <= i < |channel.value| ::
         channel.value[i] as int > 0x1f && channel.value[i] as int != 0x7f
  }

  /** `clientId` becomes the seat of `userId`, and the clients in `leaving` go. */
  function TakeSeat(s: Store, callId: string, clientId: string, userId: string, leaving: set<string>): Store
    requires callId in s.calls
  {
    var call := s.calls[callId];
    s.(calls := s.calls[callId := call.(roster := (call.roster - leaving) + {clientId},
                                        seats := call.seats[userId := clientId])],
       byClient := Add(DropAll(s.byClient, leaving, callId), clientId, callId))
  }

  /** A live seat of the same user that nothing proves dead blocks the claimant. */
  predicate Blocks(call: CallRecord, clientId: string, userId: string, departed: set<string>) {
    var winner := Winner(call, userId);
    winner.Some? && winner.value != clientId && winner.value in call.roster && winner.value !in departed
  }

  function DepartedSet(departed: Option<string>): set<string> {
    if departed.Some? then {departed.value} else {}
  }

  function Claim(s: Store, callId: string, clientId: string, userId: string, lobbyName: string,
                 departed: Option<string>): (Store, ClaimReply) {
    if callId !in s.calls || s.calls[callId].lobbyName != lobbyName then
      (s, ClaimReply(false, None))
    else
      var winner := Winner(s.calls[callId], userId);
      if Blocks(s.calls[callId], clientId, userId, DepartedSet(departed)) then
        (s, ClaimReply(false, winner))
      else
        var leaving := if winner.Some? && winner.value != clientId && winner == departed then {winner.value} else {};
        var seated := TakeSeat(s, callId, clientId, userId, leaving);
        (seated.(byUser := Add(s.byUser, userId, callId)), ClaimReply(true, Some(clientId)))
  }

  function Resume(s: Store, now: int, callId: string, clientId: string, userId: string, lobbyName: string,
                  departed: seq<string>): (Store, bool) {
    if callId !in s.calls || s.calls[callId].lobbyName != lobbyName || callId !in At(s.byUser, userId)
       || (!MarkerLive(s, callId, now) && |s.calls[callId].roster| < 2) then
      (s, false)
    else if Blocks(s.calls[callId], clientId, userId, SetOf(departed)) then
      (s, false)
    else
      var seated := TakeSeat(s, callId, clientId, userId, SetOf(departed) - {clientId});
      (seated.(accepted := s.accepted[callId := now + TTL_MS], byLobby := Add(s.byLobby, lobbyName, callId)), true)
  }

  /** The call is gone, and no client's index names it. */
  function Erase(s: Store, callId: string): Store {
    s.(calls := s.calls - {callId}, byClient := DropAll(s.byClient, Roster(s, callId), callId))
  }

  function ForgetIfUnchanged(s: Store, callId: string, expected: Snapshot): (Store, bool) {
    if |SetOf(expected.roster)| != |expected.roster| then (s, false)
    else if callId !in s.calls then (s, false)
    else
      var call := s.calls[callId];
      if call.callerId != expected.callerId || call.lobbyName != expected.lobbyName
         || call.invitedAt != expected.invitedAt
         || |call.roster| != |expected.roster|
         || (exists i | 0 <= i < |expected.roster| :: expected.roster[i] !in call.roster) then
        (s, false)
      else
        (Erase(s, callId).(accepted := s.accepted - {callId}), true)
  }

  function Register(s: Store, callId: string, clientId: string, callerId: string, lobbyName: string,
                    targets: seq<string>, channel: Option<string>): Store {
    s.(calls := Joined(s.calls, callId, clientId, NewCall(callerId, lobbyName, targets, channel)),
       byClient := Add(s.byClient, clientId, callId))
  }

  function NewCall(callerId: string, lobbyName: string, targets: seq<string>, channel: Option<string>): CallRecord {
    CallRecord(callerId, lobbyName, if ValidCallChannel(channel) then channel else None, targets, {}, None, None, map[])
  }

  /** `clientId` is in the call, which starts as `created` if there is none. */
  function Joined(calls: map<string, CallRecord>, callId: string, clientId: string, created: CallRecord)
    : map<string, CallRecord>
  {
    var call := if callId in calls then calls[callId] else created;
    calls[callId := call.(roster := call.roster + {clientId})]
  }

  function Remove(s: Store, callId: string, clientId: string): (Store, Option<nat>) {
    if callId !in s.calls then (s, None)
    else
      var roster := s.calls[callId].roster - {clientId};
      (s.(calls := if roster == {} then s.calls - {callId}
                   else s.calls[callId := s.calls[callId].(roster := roster)],
          byClient := Drop(s.byClient, clientId, callId)),
       Some(|roster|))
  }

  function Forget(s: Store, callId: string): Store {
    if callId !in s.calls then s else Erase(s, callId)
  }

  function SetInviteMetadata(s: Store, callId: string, invitedAt: Option<int>, callerName: Option<string>): Store {
    if callId !in s.calls then s
    else s.(calls := s.calls[callId := WithMetadata(s.calls[callId], invitedAt, callerName)])
  }

  function WithMetadata(call: CallRecord, invitedAt: Option<int>, callerName: Option<string>): CallRecord {
    call.(invitedAt := if invitedAt.Some? then invitedAt else call.invitedAt,
          callerName := if callerName.Some? && callerName.value != "" then callerName else call.callerName)
  }

  /** The whole-state write of the write-through cache; the roster as an array. */
  datatype View = View(callerId: string, lobbyName: string, channel: Option<string>, targetUserIds: seq<string>,
                       roster: seq<string>, invitedAt: Option<int>, callerName: Option<string>)

  function SetCall(s: Store, callId: string, view: View): Store {
    var call :=
      if callId in s.calls then
        Overlay(s.calls[callId], view).(roster := s.calls[callId].roster + SetOf(view.roster))
      else
        CallRecord(view.callerId, view.lobbyName, if ValidCallChannel(view.channel) then view.channel else None,
                   view.targetUserIds, SetOf(view.roster), None, None, map[]);
    s.(calls := s.calls[callId := WithMetadata(call, view.invitedAt, view.callerName)],
       byClient := AddEach(s.byClient, view.roster, callId))
  }

  /** `call` under the caller, lobby and targets `view` names. */
  function Overlay(call: CallRecord, view: View): CallRecord {
    call.(callerId := if view.callerId != "" then view.callerId else call.callerId,
          lobbyName := if view.lobbyName != "" then view.lobbyName else call.lobbyName,
          targetUserIds := if view.targetUserIds != [] then view.targetUserIds else call.targetUserIds)
  }

  function AddEach(ix: Index, ks: seq<string>, m: string): Index {
    if ks == [] then ix else Add(AddEach(ix, ks[..|ks| - 1], m), ks[|ks| - 1], m)
  }

  function MarkAccepted(s: Store, now: int, callId: string, ttlMs: int): (Store, bool) {
    if MarkerLive(s, callId, now) then (s, false)
    else (s.(accepted := s.accepted[callId := now + ttlMs]), true)
  }

  function TakeAccepted(s: Store, now: int, callId: string): (Store, bool) {
    (s.(accepted := s.accepted - {callId}), MarkerLive(s, callId, now))
  }

  /** The object: one field per map of the source, updated in place. */
  class InMemoryCallStateStore {
    var activeCalls: map<string, CallRecord>
    var clientToCalls: Index
    var userToCalls: Index
    var lobbyToCalls: Index
    var acceptedCalls: map<string, int>

    function Contents(): Store
      reads this
    {
      Store(activeCalls, clientToCalls, userToCalls, lobbyToCalls, acceptedCalls)
    }

    constructor ()
      ensures Contents() == EMPTY
    {
      activeCalls, clientToCalls, userToCalls, lobbyToCalls, acceptedCalls := map[], map[], map[], map[], map[];
    }

    method AddClient(clientId: string, callId: string)
      modifies this`clientToCalls
      ensures clientToCalls == Add(old(clientToCalls), clientId, callId)
    {
      if clientId !in clientToCalls { clientToCalls := clientToCalls[clientId := {}]; }
      clientToCalls := clientToCalls[clientId := clientToCalls[clientId] + {callId}];
    }

    method AddClients(clients: seq<string>, callId: string)
      modifies this`clientToCalls
      ensures clientToCalls == AddEach(old(clientToCalls), clients, callId)
    {
      for i := 0 to |clients|
        invariant clientToCalls == AddEach(old(clientToCalls), clients[..i], callId)
      {
        assert clients[..i + 1][..i] == clients[..i];
        AddClient(clients[i], callId);
      }
      assert clients[..|clients|] == clients;
    }

    /** `calls?.delete(callId); if (calls?.size === 0) ...delete(clientId)` */
    method DropClient(clientId: string, callId: string)
      modifies this`clientToCalls
      ensures clientToCalls == Drop(old(clientToCalls), clientId, callId)
    {
      if clientId in clientToCalls {
        clientToCalls := clientToCalls[clientId := clientToCalls[clientId] - {callId}];
        if clientToCalls[clientId] == {} {
          clientToCalls := clientToCalls - {clientId};
          assert clientToCalls == old(clientToCalls) - {clientId};
        }
      }
    }

    method DropClients(clients: set<string>, callId: string)
      modifies this`clientToCalls
      ensures clientToCalls == DropAll(old(clientToCalls), clients, callId)
    {
      var rest := clients;
      DropAllNothing(clientToCalls, callId);
      while rest != {}
        invariant rest <= clients
        invariant clientToCalls == DropAll(old(clientToCalls), clients - rest, callId)
      {
        var cid :| cid in rest;
        DropAllStep(old(clientToCalls), clients - rest, cid, callId);
        assert clients - (rest - {cid}) == (clients - rest) + {cid};
        DropClient(cid, callId);
        rest := rest - {cid};
      }
      assert clients - rest == clients;
    }

    /** Every departed client but `clientId` leaves the roster and the index. */
    method DropDeparted(roster: set<string>, departed: seq<string>, clientId: string, callId: string)
      returns (left: set<string>)
      modifies this`clientToCalls
      ensures left == roster - (SetOf(departed) - {clientId})
      ensures clientToCalls == DropAll(old(clientToCalls), SetOf(departed) - {clientId}, callId)
    {
      left := roster;
      DropAllNothing(clientToCalls, callId);
      for i := 0 to |departed|
        invariant left == roster - (SetOf(departed[..i]) - {clientId})
        invariant clientToCalls == DropAll(old(clientToCalls), SetOf(departed[..i]) - {clientId}, callId)
      {
        var gone := departed[i];
        assert departed[..i + 1] == departed[..i] + [gone];
        assert SetOf(departed[..i + 1]) == SetOf(departed[..i]) + {gone};
        if gone != clientId {
          DropAllStep(old(clientToCalls), SetOf(departed[..i]) - {clientId}, gone, callId);
          assert SetOf(departed[..i + 1]) - {clientId} == (SetOf(departed[..i]) - {clientId}) + {gone};
          left := left - {gone};
          DropClient(gone, callId);
        } else {
          assert SetOf(departed[..i + 1]) - {clientId} == SetOf(departed[..i]) - {clientId};
        }
      }
      assert departed[..|departed|] == departed;
    }

    method ClaimAcceptedSeat(callId: string, clientId: string, userId: string, lobbyName: string,
                             departed: Option<string>) returns (reply: ClaimReply)
      modifies this
      ensures (Contents(), reply) == Claim(old(Contents()), callId, clientId, userId, lobbyName, departed)
    {
      if callId !in activeCalls || activeCalls[callId].lobbyName != lobbyName {
        return ClaimReply(false, None);
      }
      var state := activeCalls[callId];
      var winner := Winner(state, userId);
      if winner.Some? && winner.value != clientId && winner.value in state.roster && winner != departed {
        return ClaimReply(false, winner);
      }
      DropAllNothing(clientToCalls, callId);
      if winner.Some? && winner.value != clientId && winner == departed {
        state := state.(roster := state.roster - {winner.value});
        DropIsDropAll(clientToCalls, winner.value, callId);
        DropClient(winner.value, callId);
      }
      state := state.(seats := state.seats[userId := clientId]);
      state := state.(roster := state.roster + {clientId});
      ghost var replaced := winner.Some? && winner.value != clientId && winner == departed;
      ghost var leaving := if replaced then {winner.value} else {};
      assert state.roster == (old(activeCalls)[callId].roster - leaving) + {clientId};
      activeCalls := activeCalls[callId := state];
      clientToCalls := Add(clientToCalls, clientId, callId);
      userToCalls := Add(userToCalls, userId, callId);
      reply := ClaimReply(true, Some(clientId));
    }

    /** The seat moves to `clientId`, and every departed client leaves. */
    method MoveSeat(callId: string, clientId: string, userId: string, departed: seq<string>)
      requires callId in activeCalls
      modifies this`activeCalls, this`clientToCalls
      ensures Contents() == TakeSeat(old(Contents()), callId, clientId, userId, SetOf(departed) - {clientId})
    {
      var state := activeCalls[callId];
      AddClient(clientId, callId);
      var left := DropDeparted(state.roster + {clientId}, departed, clientId, callId);
      ghost var leaving := SetOf(departed) - {clientId};
      AddThenDropAll(old(clientToCalls), clientId, leaving, callId);
      assert left == (state.roster - leaving) + {clientId};
      state := state.(seats := state.seats[userId := clientId], roster := left);
      activeCalls := activeCalls[callId := state];
    }

    method ResumeParticipant(now: int, callId: string, clientId: string, userId: string, lobbyName: string,
                             departed: seq<string>) returns (resumed: bool)
      modifies this
      ensures (Contents(), resumed) == Resume(old(Contents()), now, callId, clientId, userId, lobbyName, departed)
    {
      if callId !in activeCalls || activeCalls[callId].lobbyName != lobbyName
         || callId !in At(userToCalls, userId)
         || (!(callId in acceptedCalls && acceptedCalls[callId] > now) && |activeCalls[callId].roster| < 2) {
        return false;
      }
      var state := activeCalls[callId];
      var winner := Winner(state, userId);
      if winner.Some? && winner.value != clientId && winner.value in state.roster && winner.value !in departed {
        return false;
      }
      MoveSeat(callId, clientId, userId, departed);
      acceptedCalls := acceptedCalls[callId := now + TTL_MS];
      lobbyToCalls := Add(lobbyToCalls, lobbyName, callId);
      resumed := true;
    }

    method ForgetCallIfUnchanged(callId: string, expected: Snapshot) returns (forgotten: bool)
      modifies this
      ensures (Contents(), forgotten) == ForgetIfUnchanged(old(Contents()), callId, expected)
    {
      if |SetOf(expected.roster)| != |expected.roster| { return false; }
      if callId !in activeCalls { return false; }
      var state := activeCalls[callId];
      if state.callerId != expected.callerId || state.lobbyName != expected.lobbyName
         || state.invitedAt != expected.invitedAt || |state.roster| != |expected.roster| {
        return false;
      }
      for i := 0 to |expected.roster|
        invariant forall j | 0 <= j < i :: expected.roster[j] in state.roster
      {
        if expected.roster[i] !in state.roster { return false; }
      }
      DropClients(state.roster, callId);
      activeCalls := activeCalls - {callId};
      acceptedCalls := acceptedCalls - {callId};
      forgotten := true;
    }

    method RegisterParticipant(callId: string, clientId: string, callerId: string, lobbyName: string,
                               targets: seq<string>, channel: Option<string>)
      modifies this
      ensures Contents() == Register(old(Contents()), callId, clientId, callerId, lobbyName, targets, channel)
    {
      if callId !in activeCalls {
        activeCalls := activeCalls[callId := NewCall(callerId, lobbyName, targets, channel)];
      }
      var state := activeCalls[callId];
      activeCalls := activeCalls[callId := state.(roster := state.roster + {clientId})];
      assert activeCalls == Joined(old(activeCalls), callId, clientId, NewCall(callerId, lobbyName, targets, channel));
      AddClient(clientId, callId);
    }

    method RemoveParticipant(callId: string, clientId: string) returns (remaining: Option<nat>)
      modifies this
      ensures (Contents(), remaining) == Remove(old(Contents()), callId, clientId)
    {
      if callId !in activeCalls { return None; }
      var state := activeCalls[callId];
      state := state.(roster := state.roster - {clientId});
      activeCalls := activeCalls[callId := state];
      DropClient(clientId, callId);
      if state.roster == {} {
        activeCalls := activeCalls - {callId};
        assert activeCalls == old(activeCalls) - {callId};
      }
      remaining := Some(|state.roster|);
    }

    method ForgetCall(callId: string)
      modifies this
      ensures Contents() == Forget(old(Contents()), callId)
    {
      if callId !in activeCalls { return; }
      DropClients(activeCalls[callId].roster, callId);
      activeCalls := activeCalls - {callId};
    }

    static method AddToRoster(roster: set<string>, ids: seq<string>) returns (joined: set<string>)
      ensures joined == roster + SetOf(ids)
    {
      joined := roster;
      for i := 0 to |ids|
        invariant joined == roster + SetOf(ids[..i])
      {
        assert ids[..i + 1] == ids[..i] + [ids[i]];
        joined := joined + {ids[i]};
      }
      assert ids[..|ids|] == ids;
    }

    method WriteCall(callId: string, view: View)
      modifies this
      ensures Contents() == SetCall(old(Contents()), callId, view)
    {
      var entry: CallRecord;
      if callId !in activeCalls {
        entry := CallRecord(view.callerId, view.lobbyName, if ValidCallChannel(view.channel) then view.channel else None,
                            view.targetUserIds, SetOf(view.roster), None, None, map[]);
      } else {
        entry := activeCalls[callId];
        if view.callerId != "" { entry := entry.(callerId := view.callerId); }
        if view.lobbyName != "" { entry := entry.(lobbyName := view.lobbyName); }
        if view.targetUserIds != [] { entry := entry.(targetUserIds := view.targetUserIds); }
        var roster := AddToRoster(entry.roster, view.roster);
        entry := entry.(roster := roster);
      }
      if view.invitedAt.Some? { entry := entry.(invitedAt := view.invitedAt); }
      if view.callerName.Some? && view.callerName.value != "" { entry := entry.(callerName := view.callerName); }
      activeCalls := activeCalls[callId := entry];
      AddClients(view.roster, callId);
    }

    method MarkCallAccepted(now: int, callId: string, ttlSeconds: int) returns (first: bool)
      modifies this`acceptedCalls
      ensures (Contents(), first) == MarkAccepted(old(Contents()), now, callId, ttlSeconds * 1000)
    {
      if callId in acceptedCalls && acceptedCalls[callId] > now { return false; }
      acceptedCalls := acceptedCalls[callId := now + ttlSeconds * 1000];
      first := true;
    }

    method TakeCallAccepted(now: int, callId: string) returns (taken: bool)
      modifies this`acceptedCalls
      ensures (Contents(), taken) == TakeAccepted(old(Contents()), now, callId)
    {
      taken := callId in acceptedCalls && acceptedCalls[callId] > now;
      acceptedCalls := acceptedCalls - {callId};
    }
  }
}
