/**
 * The life of a call on one node without a shared store
 * (src/call/CallService.ts): entering by invite, accept, join or rejoin, and
 * leaving by a terminal verb, a disconnect, an expired rejoin grace or an
 * outright forget. Each handler is one step.
 */
module CallLifecycle {
  import opened Common
  import opened ReverseIndex
  import opened DmNames

  datatype MissedReason = Cancelled | Declined | NoAnswer

  /**
   * What the hooks hear about a call, in order. `OpenedSilently` is not heard:
   * it records the join that makes a call accepted without a start notice.
   */
  datatype Mark = Started | OpenedSilently | Ended | Missed(reason: MissedReason)

  datatype ActiveCall = ActiveCall(
    callerId: string,
    lobbyName: string,
    originalLobby: Option<string>,
    roster: set<string>,
    ever: set<string>,
    seatedUsers: set<string>,
    invited: bool,
    declined: bool)

  datatype Node = Node(
    calls: map<string, ActiveCall>,
    byClient: Index,
    accepted: set<string>,
    graced: set<string>,
    marks: map<string, seq<Mark>>)

  const IDLE := Node(map[], map[], {}, {}, map[])

  /** Who is authenticated on which socket, and which local sockets are closed. */
  datatype Env = Env(users: map<string, string>, closed: set<string>)

  datatype Verb = EndedVerb | DeclinedVerb | CancelledVerb

  datatype Event =
    | Invite(callId: string, clientId: string, callerId: string, lobbyName: string, env: Env)
    | Accept(callId: string, clientId: string, callerId: string, lobbyName: string, env: Env)
    | Join(callId: string, clientId: string, userId: string, lobbyName: string, env: Env)
    | Rejoin(callId: string, clientId: string, userId: string, lobbyName: string, env: Env)
    | Terminal(callId: string, clientId: string, verb: Verb)
    | Disconnect(clientId: string, order: seq<string>)
    | GraceExpires(callId: string)
    | Forget(callId: string, reason: MissedReason)

  function Roster(n: Node, callId: string): set<string> {
    if callId in n.calls then n.calls[callId].roster else {}
  }

  function MarksOf(n: Node, callId: string): seq<Mark> {
    if callId in n.marks then n.marks[callId] else []
  }

  function AddMark(n: Node, callId: string, m: Mark): Node {
    n.(marks := n.marks[callId := MarksOf(n, callId) + [m]])
  }

  // ---- Entering -------------------------------------------------------------

  /** Registering lets any pending grace go, and creates the call on first touch. */
  function Register(n: Node, callId: string, clientId: string, callerId: string, lobbyName: string): Node {
    var call := if callId in n.calls then n.calls[callId]
                else ActiveCall(callerId, lobbyName, None, {}, {}, {}, false, false);
    n.(calls := n.calls[callId := call.(roster := call.roster + {clientId}, ever := call.ever + {clientId})],
       byClient := Add(n.byClient, clientId, callId),
       graced := n.graced - {callId})
  }

  function SeatUser(n: Node, callId: string, users: set<string>): Node
    requires callId in n.calls
  {
    n.(calls := n.calls[callId := n.calls[callId].(seatedUsers := n.calls[callId].seatedUsers + users)])
  }

  function UserOf(env: Env, clientId: string): set<string> {
    if clientId in env.users && env.users[clientId] != "" then {env.users[clientId]} else {}
  }

  /** Another open socket of the sender's user is already in the call. */
  predicate SeatedElsewhere(n: Node, callId: string, clientId: string, env: Env) {
    UserOf(env, clientId) != {} &&
    exists cid :: cid in Roster(n, callId) && cid != clientId && cid !in env.closed
                  && UserOf(env, cid) == UserOf(env, clientId)
  }

  function InviteStep(n: Node, callId: string, clientId: string, callerId: string, lobbyName: string, env: Env): Node {
    if callId == "" || lobbyName == "" then n
    else
      var r := SeatUser(Register(n, callId, clientId, callerId, lobbyName), callId, UserOf(env, clientId));
      if r.calls[callId].invited then r
      else r.(calls := r.calls[callId := r.calls[callId].(invited := true, originalLobby := Some(lobbyName))])
  }

  function AcceptStep(n: Node, callId: string, clientId: string, callerId: string, lobbyName: string, env: Env): Node {
    if callId == "" || SeatedElsewhere(n, callId, clientId, env) then n
    else
      var resolved := if lobbyName == "" && callId in n.calls then n.calls[callId].lobbyName else lobbyName;
      var r := SeatUser(Register(n, callId, clientId, callerId, resolved), callId, UserOf(env, clientId));
      if callId in n.accepted then r
      else AddMark(r.(accepted := r.accepted + {callId}), callId, Started)
  }

  function JoinStep(n: Node, callId: string, clientId: string, userId: string, lobbyName: string, env: Env): Node {
    if callId == "" || lobbyName == "" || userId == ""
       || (callId in n.calls && n.calls[callId].lobbyName != lobbyName)
       || SeatedElsewhere(n, callId, clientId, env) then n
    else
      var callerId := if callId in n.calls && n.calls[callId].callerId != "" then n.calls[callId].callerId else userId;
      var r := SeatUser(Register(n, callId, clientId, callerId, lobbyName), callId, {userId});
      if callId in n.accepted then r
      else AddMark(r.(accepted := r.accepted + {callId}), callId, OpenedSilently)
  }

  /** The sockets a rejoining user leaves behind. */
  function Previous(n: Node, callId: string, clientId: string, userId: string, env: Env): set<string> {
    set cid | cid in Roster(n, callId) && cid != clientId && UserOf(env, cid) == {userId}
  }

  function RejoinStep(n: Node, callId: string, clientId: string, userId: string, lobbyName: string, env: Env): Node {
    if callId !in n.calls || clientId in n.calls[callId].roster || userId == "" || lobbyName == ""
       || (n.calls[callId].lobbyName != lobbyName && n.calls[callId].originalLobby != Some(lobbyName))
       || userId !in n.calls[callId].seatedUsers then n
    else
      var previous := Previous(n, callId, clientId, userId, env);
      var r := SeatUser(Register(n, callId, clientId, n.calls[callId].callerId, lobbyName), callId, {userId});
      r.(calls := r.calls[callId := r.calls[callId].(roster := r.calls[callId].roster - previous)],
         byClient := DropAll(r.byClient, previous, callId))
  }

  // ---- Leaving --------------------------------------------------------------

  /** An accepted call ended; an unanswered invite nobody else holds was missed; anything else is silent. */
  function Announce(n: Node, callId: string, call: ActiveCall, reason: MissedReason): Node {
    if callId in n.accepted then AddMark(n.(accepted := n.accepted - {callId}), callId, Ended)
    else if |call.roster| > 1 || !call.invited then n
    else AddMark(n, callId, Missed(if call.declined then Declined else reason))
  }

  function ForgetStep(n: Node, callId: string, reason: MissedReason): Node {
    if callId !in n.calls then n
    else
      var told := Announce(n, callId, n.calls[callId], reason);
      told.(calls := n.calls - {callId},
            byClient := DropAll(n.byClient, n.calls[callId].roster, callId),
            accepted := told.accepted - {callId},
            graced := n.graced - {callId})
  }

  function TerminalStep(n: Node, callId: string, clientId: string, verb: Verb): Node {
    var n0 := n.(graced := n.graced - {callId});
    if callId == "" then n
    else if callId !in n.calls then n0
    else
      var call := n.calls[callId].(declined := n.calls[callId].declined || verb.DeclinedVerb?,
                                   roster := n.calls[callId].roster - {clientId});
      var left := n0.(calls := n.calls[callId := call], byClient := Drop(n.byClient, clientId, callId));
      if call.roster == {} then
        var told := Announce(left, callId, call, Cancelled);
        told.(calls := told.calls - {callId})
      else if |call.roster| == 1 && IsDmLobby(call.lobbyName) && (callId in n.accepted || |call.ever| > 1) then
        ForgetStep(left, callId, Cancelled)
      else left
  }

  /** One call of a dropped client: it goes on, waits out the grace, or is forgotten. */
  function DepartStep(n: Node, graceMs: nat, callId: string, clientId: string): Node {
    if callId !in n.calls then n
    else
      var rest := n.calls[callId].roster - {clientId};
      if |rest| >= 2 || (graceMs > 0 && |rest| >= 1) then
        n.(calls := n.calls[callId := n.calls[callId].(roster := rest)],
           graced := if |rest| >= 2 then n.graced else n.graced + {callId})
      else ForgetStep(n, callId, Cancelled)
  }

  function DepartEach(n: Node, graceMs: nat, clientId: string, order: seq<string>): Node {
    if order == [] then n
    else DepartStep(DepartEach(n, graceMs, clientId, order[..|order| - 1]), graceMs, order[|order| - 1], clientId)
  }

  function DisconnectStep(n: Node, graceMs: nat, clientId: string, order: seq<string>): Node {
    if order == [] then n
    else
      var departed := DepartEach(n, graceMs, clientId, order);
      departed.(byClient := departed.byClient - {clientId})
  }

  /** The grace timer of `callId` fires; without one nothing does. */
  function GraceStep(n: Node, callId: string): Node {
    if callId !in n.graced then n
    else
      var n0 := n.(graced := n.graced - {callId});
      if |Roster(n0, callId)| >= 2 then n0 else ForgetStep(n0, callId, Cancelled)
  }

  function Step(n: Node, graceMs: nat, e: Event): Node {
    match e
    case Invite(c, cl, caller, lobby, env) => InviteStep(n, c, cl, caller, lobby, env)
    case Accept(c, cl, caller, lobby, env) => AcceptStep(n, c, cl, caller, lobby, env)
    case Join(c, cl, u, lobby, env) => JoinStep(n, c, cl, u, lobby, env)
    case Rejoin(c, cl, u, lobby, env) => RejoinStep(n, c, cl, u, lobby, env)
    case Terminal(c, cl, verb) => TerminalStep(n, c, cl, verb)
    case Disconnect(cl, order) => DisconnectStep(n, graceMs, cl, order)
    case GraceExpires(c) => GraceStep(n, c)
    case Forget(c, reason) => ForgetStep(n, c, reason)
  }

  /** A disconnect walks the calls its client's index names, each once, in the index's order. */
  ghost predicate Enabled(n: Node, e: Event) {
    e.Disconnect? ==> Walks(e.order, At(n.byClient, e.clientId))
  }

  ghost predicate Walks(order: seq<string>, ids: set<string>) {
    && (forall x :: x in order <==> x in ids)
    && (forall i, j | 0 <= i < j < |order| :: order[i] != order[j])
  }

  function Run(n: Node, graceMs: nat, events: seq<Event>): Node
    decreases |events|
  {
    if events == [] then n else Run(Step(n, graceMs, events[0]), graceMs, events[1..])
  }

  ghost predicate EnabledAll(n: Node, graceMs: nat, events: seq<Event>)
    decreases |events|
  {
    events != [] ==> Enabled(n, events[0]) && EnabledAll(Step(n, graceMs, events[0]), graceMs, events[1..])
  }
}
