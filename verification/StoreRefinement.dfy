/**
 * The Redis store refines the in-memory store: from corresponding states each
 * operation answers the same and leaves corresponding states, so whole runs
 * answer alike.
 */
module StoreRefinement {
  import opened Common
  import opened ReverseIndex
  import opened CallStateStore
  import opened CallStoreRuns
  import opened RedisStore

  /** `op` ran on Redis from `db` to `db'` and answered `reply`. */
  ghost predicate Ran(db: Redis, db': Redis, now: int, op: Op, reply: Reply) {
    match op
    case ClaimOp(c, cl, u, lobby, departed) => reply.Claimed? && ClaimRan(db, db', c, cl, u, lobby, departed, reply.claim)
    case ResumeOp(c, cl, u, lobby, gone) => reply.Answered? && ResumeRan(db, db', now, c, cl, u, lobby, gone, reply.yes)
    case ForgetIfUnchangedOp(c, expected) => reply.Answered? && ForgetRan(db, db', c, expected, reply.yes)
    case RegisterOp(c, cl, caller, lobby, targets, channel) =>
      reply.Done? && RegisterRan(db, db', c, cl, caller, lobby, targets, channel)
    case RemoveOp(c, cl) => reply.Remaining? && RemoveRan(db, db', c, cl, reply.count)
    case MarkAcceptedOp(c, ttl) => reply.Answered? && MarkRan(db, db', now, c, ttl, reply.yes)
    case TakeAcceptedOp(c) => reply.Answered? && TakeRan(db, db', now, c, reply.yes)
    case _ => false
  }

  /** Ids are not empty, and a removal does not meet a call stored without a caller. */
  predicate Comparable(s: Store, op: Op) {
    match op
    case ClaimOp(_, cl, _, _, _) => cl != ""
    case ResumeOp(_, cl, _, _, _) => cl != ""
    case RemoveOp(c, _) => c in s.calls ==> s.calls[c].callerId != ""
    case _ => true
  }

  lemma SeatHeldIsBlocks(s: Store, db: Redis, callId: string, clientId: string, userId: string, departed: set<string>)
    requires CallsCorrespond(s, db) && callId in s.calls
    requires Members(db, RosterKey(callId)) == s.calls[callId].roster
    ensures SeatHeld(db, callId, clientId, userId, departed) <==> Blocks(s.calls[callId], clientId, userId, departed)
    ensures AsText(Winner(s.calls[callId], userId)) == HGet(db, CallKey(callId), SeatOf(userId))
  {
    WinnerIsSeatField(s, db, callId, userId);
  }

  lemma SameLobby(s: Store, db: Redis, callId: string, lobbyName: string)
    requires CallsCorrespond(s, db)
    ensures InLobby(db, callId, lobbyName) <==> callId in s.calls && s.calls[callId].lobbyName == lobbyName
  {
    assert CallMatches(s, db, callId);
  }

  lemma SeatedSetsCorrespond(s: Store, db: Redis, db': Redis, callId: string, clientId: string, userId: string,
                             leaving: set<string>, listed: Key)
    requires SetsCorrespond(s, db) && callId in s.calls && clientId !in leaving
    requires listed.UserKey? || listed.LobbyKey?
    requires SeatWritten(db, db', callId, clientId, userId, leaving, listed)
    ensures SetsCorrespond(ListCall(TakeSeat(s, callId, clientId, userId, leaving), callId, listed), db')
  {
    var s' := ListCall(TakeSeat(s, callId, clientId, userId, leaving), callId, listed);
    forall k ensures SetMatches(s', db', k) {
      if IsSetKey(k) {
        assert SetMatches(s, db, k);
        SeatMovesSets(s, callId, clientId, userId, leaving, listed, k);
      }
    }
  }

  lemma SameMarkers(s: Store, db: Redis, s': Store, db': Redis, now: int)
    requires MarkersCorrespond(s, db, now) && s'.accepted == s.accepted && db'.markers == db.markers
    ensures MarkersCorrespond(s', db', now)
  {
    forall c ensures MarkerMatches(s', db', now, c) {
      assert MarkerMatches(s, db, now, c);
    }
  }

  lemma OneMarker(s: Store, db: Redis, s': Store, db': Redis, now: int, callId: string)
    requires MarkersCorrespond(s, db, now) && MarkerMatches(s', db', now, callId)
    requires forall c | c != callId :: (c in s'.accepted <==> c in s.accepted) && (c in s.accepted ==> s'.accepted[c] == s.accepted[c])
    requires forall k: Key | k.AcceptedKey? && k != AcceptedKey(callId) ::
               (k in db'.markers <==> k in db.markers) && (k in db.markers ==> db'.markers[k] == db.markers[k])
    ensures MarkersCorrespond(s', db', now)
  {
    forall c ensures MarkerMatches(s', db', now, c) {
      assert MarkerMatches(s, db, now, c);
    }
  }

  lemma ClaimRefines(s: Store, db: Redis, db': Redis, now: int, callId: string, clientId: string, userId: string,
                     lobbyName: string, departed: Option<string>, reply: ClaimReply)
    requires Corresponds(s, db, now) && clientId != ""
    requires ClaimRan(db, db', callId, clientId, userId, lobbyName, departed, reply)
    ensures reply == Claim(s, callId, clientId, userId, lobbyName, departed).1
    ensures Corresponds(Claim(s, callId, clientId, userId, lobbyName, departed).0, db', now)
  {
    SameLobby(s, db, callId, lobbyName);
    if InLobby(db, callId, lobbyName) {
      var sent := if departed.Some? then departed.value else "";
      assert SetMatches(s, db, RosterKey(callId));
      SeatHeldIsBlocks(s, db, callId, clientId, userId, {sent});
      var winner := Winner(s.calls[callId], userId);
      if !SeatHeld(db, callId, clientId, userId, {sent}) {
        var s' := Claim(s, callId, clientId, userId, lobbyName, departed).0;
        var leaving := if winner.Some? && winner.value != clientId && winner == departed then {winner.value} else {};
        SeatedSetsCorrespond(s, db, db', callId, clientId, userId, leaving, UserKey(userId));
        TakenSeatCalls(s, db, s', db', callId, clientId, userId, leaving);
        SameMarkers(s, db, s', db', now);
      }
    }
  }

  lemma ResumeRefines(s: Store, db: Redis, db': Redis, now: int, callId: string, clientId: string, userId: string,
                      lobbyName: string, gone: seq<string>, resumed: bool)
    requires Corresponds(s, db, now) && clientId != ""
    requires ResumeRan(db, db', now, callId, clientId, userId, lobbyName, gone, resumed)
    ensures resumed == Resume(s, now, callId, clientId, userId, lobbyName, gone).1
    ensures Corresponds(Resume(s, now, callId, clientId, userId, lobbyName, gone).0, db', now)
  {
    SameLobby(s, db, callId, lobbyName);
    if InLobby(db, callId, lobbyName) {
      assert SetMatches(s, db, RosterKey(callId));
      assert SetMatches(s, db, UserKey(userId));
      assert MarkerMatches(s, db, now, callId);
      SeatHeldIsBlocks(s, db, callId, clientId, userId, SetOf(gone));
      if resumed {
        ResumedCorresponds(s, db, db', now, callId, clientId, userId, lobbyName, SetOf(gone) - {clientId});
      }
    }
  }

  lemma ResumedCorresponds(s: Store, db: Redis, db': Redis, now: int, callId: string, clientId: string, userId: string,
                           lobbyName: string, leaving: set<string>)
    requires Corresponds(s, db, now) && callId in s.calls && clientId != "" && clientId !in leaving
    requires SeatWritten(db, db', callId, clientId, userId, leaving, LobbyKey(lobbyName))
    requires db'.markers == db.markers[AcceptedKey(callId) := now + TTL_MS]
    ensures Corresponds(TakeSeat(s, callId, clientId, userId, leaving)
                        .(accepted := s.accepted[callId := now + TTL_MS], byLobby := Add(s.byLobby, lobbyName, callId)),
                        db', now)
  {
    var s' := TakeSeat(s, callId, clientId, userId, leaving)
              .(accepted := s.accepted[callId := now + TTL_MS], byLobby := Add(s.byLobby, lobbyName, callId));
    SeatedSetsCorrespond(s, db, db', callId, clientId, userId, leaving, LobbyKey(lobbyName));
    SameSets(ListCall(TakeSeat(s, callId, clientId, userId, leaving), callId, LobbyKey(lobbyName)), s', db');
    TakenSeatCalls(s, db, s', db', callId, clientId, userId, leaving);
    OneMarker(s, db, s', db', now, callId);
  }

  lemma SameSets(s: Store, s': Store, db: Redis)
    requires SetsCorrespond(s, db) && forall k :: SetAt(s', k) == SetAt(s, k)
    ensures SetsCorrespond(s', db)
  {
    forall k ensures SetMatches(s', db, k) {
      assert SetMatches(s, db, k);
    }
  }

  lemma ForgetRefines(s: Store, db: Redis, db': Redis, now: int, callId: string, expected: Snapshot, forgotten: bool)
    requires Corresponds(s, db, now) && ForgetRan(db, db', callId, expected, forgotten)
    ensures forgotten == ForgetIfUnchanged(s, callId, expected).1
    ensures Corresponds(ForgetIfUnchanged(s, callId, expected).0, db', now)
  {
    SameLobby(s, db, callId, expected.lobbyName);
    assert SetMatches(s, db, RosterKey(callId)) && CallMatches(s, db, callId);
    ForgetIsCompareAndDelete(s, callId, expected);
    if forgotten {
      SubsetOfSameSize(SetOf(expected.roster), Members(db, RosterKey(callId)));
      ForgottenCorresponds(s, db, db', now, callId);
    }
  }

  lemma ForgottenCorresponds(s: Store, db: Redis, db': Redis, now: int, callId: string)
    requires Corresponds(s, db, now)
    requires db'.hashes == db.hashes - {CallKey(callId), RosterKey(callId), AcceptedKey(callId)}
    requires db'.markers == db.markers - {CallKey(callId), RosterKey(callId), AcceptedKey(callId)}
    requires forall k | k !in {CallKey(callId), AcceptedKey(callId)} ::
               Members(db', k) == AfterErase(Members(db, k), k, callId, Roster(s, callId))
    ensures Corresponds(Erase(s, callId).(accepted := s.accepted - {callId}), db', now)
  {
    var s' := Erase(s, callId).(accepted := s.accepted - {callId});
    forall k ensures SetMatches(s', db', k) {
      if IsSetKey(k) {
        assert SetMatches(s, db, k);
        EraseMovesSets(s, callId, k);
      }
    }
    forall c ensures CallMatches(s', db', c) {
      assert CallMatches(s, db, c);
    }
    OneMarker(s, db, s', db', now, callId);
  }

  lemma CreatedHashEncodes(callerId: string, lobbyName: string, targets: seq<string>, channel: Option<string>,
                           roster: set<string>)
    ensures Encodes(CreatedHash(map[], callerId, lobbyName, targets, channel),
                    CallRecord(callerId, lobbyName, if ValidCallChannel(channel) then channel else None,
                               targets, roster, None, None, map[]))
  {
  }

  lemma RegisteredCallsCorrespond(s: Store, db: Redis, s': Store, db': Redis, callId: string, clientId: string,
                                  callerId: string, lobbyName: string, targets: seq<string>, channel: Option<string>)
    requires CallsCorrespond(s, db)
    requires s' == Register(s, callId, clientId, callerId, lobbyName, targets, channel)
    requires RegisterRan(db, db', callId, clientId, callerId, lobbyName, targets, channel)
    ensures CallsCorrespond(s', db')
  {
    var h := CreatedHash(HashAt(db, CallKey(callId)), callerId, lobbyName, targets, channel);
    assert CallMatches(s, db, callId);
    if callId in s.calls {
      SameEncoding(h, s.calls[callId], s'.calls[callId]);
    } else {
      CreatedHashEncodes(callerId, lobbyName, targets, channel, {} + {clientId});
    }
    forall c ensures CallMatches(s', db', c) {
      assert CallMatches(s, db, c);
    }
  }

  lemma RegisterRefines(s: Store, db: Redis, db': Redis, now: int, callId: string, clientId: string, callerId: string,
                        lobbyName: string, targets: seq<string>, channel: Option<string>)
    requires Corresponds(s, db, now)
    requires RegisterRan(db, db', callId, clientId, callerId, lobbyName, targets, channel)
    ensures Corresponds(Register(s, callId, clientId, callerId, lobbyName, targets, channel), db', now)
  {
    var s' := Register(s, callId, clientId, callerId, lobbyName, targets, channel);
    AtAdd(s.byClient, clientId, callId);
    forall k ensures SetMatches(s', db', k) {
      assert SetMatches(s, db, k);
    }
    RegisteredCallsCorrespond(s, db, s', db', callId, clientId, callerId, lobbyName, targets, channel);
    SameMarkers(s, db, s', db', now);
  }

  /** The hash does not hold the roster. */
  lemma SameEncoding(h: Hash, call: CallRecord, call': CallRecord)
    requires Encodes(h, call) && call' == call.(roster := call'.roster)
    ensures Encodes(h, call')
  {
    forall u ensures SeatMatches(h, call', u) {
      assert SeatMatches(h, call, u);
    }
  }

  lemma RemovalMovesSets(s: Store, callId: string, clientId: string, k: Key)
    requires callId in s.calls && IsSetKey(k)
    ensures SetAt(Remove(s, callId, clientId).0, k) == AfterLeaving(SetAt(s, k), k, callId, {clientId})
  {
  }

  lemma RemovedSetsCorrespond(s: Store, db: Redis, db': Redis, callId: string, clientId: string)
    requires SetsCorrespond(s, db) && callId in s.calls
    requires forall k | k != CallKey(callId) ::
               Members(db', k) == AfterLeaving(Members(db, k), k, callId, {clientId})
    ensures SetsCorrespond(Remove(s, callId, clientId).0, db')
  {
    forall k ensures SetMatches(Remove(s, callId, clientId).0, db', k) {
      if IsSetKey(k) {
        assert SetMatches(s, db, k);
        RemovalMovesSets(s, callId, clientId, k);
      }
    }
  }

  lemma RemovedCallsCorrespond(s: Store, db: Redis, db': Redis, callId: string, clientId: string)
    requires CallsCorrespond(s, db) && callId in s.calls
    requires db'.hashes == if s.calls[callId].roster - {clientId} == {} then db.hashes - {CallKey(callId), RosterKey(callId)}
                           else db.hashes
    ensures CallsCorrespond(Remove(s, callId, clientId).0, db')
  {
    var s' := Remove(s, callId, clientId).0;
    assert CallMatches(s, db, callId);
    if callId in s'.calls {
      SameEncoding(db.hashes[CallKey(callId)], s.calls[callId], s'.calls[callId]);
    }
    forall c ensures CallMatches(s', db', c) {
      assert CallMatches(s, db, c);
    }
  }

  lemma RemoveRefines(s: Store, db: Redis, db': Redis, now: int, callId: string, clientId: string, remaining: Option<nat>)
    requires Corresponds(s, db, now) && (callId in s.calls ==> s.calls[callId].callerId != "")
    requires RemoveRan(db, db', callId, clientId, remaining)
    ensures remaining == Remove(s, callId, clientId).1
    ensures Corresponds(Remove(s, callId, clientId).0, db', now)
  {
    assert CallMatches(s, db, callId) && SetMatches(s, db, RosterKey(callId));
    if callId in s.calls {
      var s' := Remove(s, callId, clientId).0;
      RemovedSetsCorrespond(s, db, db', callId, clientId);
      RemovedCallsCorrespond(s, db, db', callId, clientId);
      forall c ensures MarkerMatches(s', db', now, c) {
        assert MarkerMatches(s, db, now, c);
      }
    }
  }

  /** Only the marker of `callId` changes, and alike on both sides. */
  lemma MarkerRefines(s: Store, db: Redis, db': Redis, now: int, callId: string, s': Store)
    requires Corresponds(s, db, now)
    requires s' == s.(accepted := s'.accepted)
    requires db'.hashes == db.hashes || db'.hashes == db.hashes - {AcceptedKey(callId)}
    requires forall k | k != AcceptedKey(callId) :: Members(db', k) == Members(db, k)
    requires MarkerMatches(s', db', now, callId)
    requires forall c | c != callId :: (c in s'.accepted <==> c in s.accepted) && (c in s.accepted ==> s'.accepted[c] == s.accepted[c])
    requires forall k: Key | k.AcceptedKey? && k != AcceptedKey(callId) ::
               (k in db'.markers <==> k in db.markers) && (k in db.markers ==> db'.markers[k] == db.markers[k])
    ensures Corresponds(s', db', now)
  {
    forall c ensures CallMatches(s', db', c) {
      assert CallMatches(s, db, c);
    }
    forall k ensures SetMatches(s', db', k) {
      assert SetMatches(s, db, k);
    }
    OneMarker(s, db, s', db', now, callId);
  }

  /** One operation: same answer, corresponding states. */
  lemma StepRefines(s: Store, db: Redis, db': Redis, now: int, op: Op, reply: Reply)
    requires Corresponds(s, db, now) && Comparable(s, op) && Ran(db, db', now, op, reply)
    ensures reply == Step(s, now, op).1
    ensures Corresponds(Step(s, now, op).0, db', now)
  {
    match op
    case ClaimOp(c, cl, u, lobby, departed) => ClaimRefines(s, db, db', now, c, cl, u, lobby, departed, reply.claim);
    case ResumeOp(c, cl, u, lobby, gone) => ResumeRefines(s, db, db', now, c, cl, u, lobby, gone, reply.yes);
    case ForgetIfUnchangedOp(c, expected) => ForgetRefines(s, db, db', now, c, expected, reply.yes);
    case RegisterOp(c, cl, caller, lobby, targets, channel) =>
      RegisterRefines(s, db, db', now, c, cl, caller, lobby, targets, channel);
    case RemoveOp(c, cl) => RemoveRefines(s, db, db', now, c, cl, reply.count);
    case MarkAcceptedOp(c, ttl) =>
      assert MarkerMatches(s, db, now, c);
      MarkerRefines(s, db, db', now, c, Step(s, now, op).0);
    case TakeAcceptedOp(c) =>
      assert MarkerMatches(s, db, now, c);
      MarkerRefines(s, db, db', now, c, Step(s, now, op).0);
  }

  function Replies(s: Store, ops: seq<Timed>): (replies: seq<Reply>)
    ensures |replies| == |ops|
    decreases |ops|
  {
    if ops == [] then []
    else var r := Step(s, ops[0].now, ops[0].op); [r.1] + Replies(r.0, ops[1..])
  }

  /** A Redis run: the database after each operation, and the answers. */
  ghost predicate RanAll(dbs: seq<Redis>, ops: seq<Timed>, replies: seq<Reply>) {
    && |dbs| == |ops| + 1 && |replies| == |ops|
    && forall i | 0 <= i < |ops| :: Ran(dbs[i], dbs[i + 1], ops[i].now, ops[i].op, replies[i])
  }

  ghost predicate ComparableAll(s: Store, ops: seq<Timed>)
    decreases |ops|
  {
    ops != [] ==> Comparable(s, ops[0].op) && ComparableAll(Step(s, ops[0].now, ops[0].op).0, ops[1..])
  }

  ghost predicate ClockRuns(now: int, ops: seq<Timed>) {
    && (ops != [] ==> now <= ops[0].now)
    && forall i, j | 0 <= i < j < |ops| :: ops[i].now <= ops[j].now
  }

  /** Whole runs with the clock moving: every answer is the in-memory answer, and the states still correspond. */
  lemma {:induction false} RunRefines(s: Store, dbs: seq<Redis>, now: int, ops: seq<Timed>, replies: seq<Reply>)
    requires RanAll(dbs, ops, replies) && ComparableAll(s, ops) && ClockRuns(now, ops)
    requires Corresponds(s, dbs[0], now)
    ensures replies == Replies(s, ops)
    ensures Corresponds(Run(s, ops), dbs[|ops|], if ops == [] then now else ops[|ops| - 1].now)
    decreases |ops|
  {
    if ops != [] {
      var t, op := ops[0].now, ops[0].op;
      TimePasses(s, dbs[0], now, t);
      StepRefines(s, dbs[0], dbs[1], t, op, replies[0]);
      RunRefines(Step(s, t, op).0, dbs[1..], t, ops[1..], replies[1..]);
    }
  }

  const NO_KEYS: Redis := Keyspace(map[], map[], map[])

  /** Both stores start empty and correspond. */
  lemma EmptyStoresCorrespond(now: int)
    ensures Corresponds(EMPTY, NO_KEYS, now)
  {
  }

  // ---- What callers owe ------------------------------------------------------

  /** The operation names its client, and a call it may create has a caller. */
  predicate NamesIds(op: Op) {
    match op
    case RegisterOp(_, _, caller, _, _, _) => caller != ""
    case ClaimOp(_, cl, _, _, _) => cl != ""
    case ResumeOp(_, cl, _, _, _) => cl != ""
    case _ => true
  }

  ghost predicate CallersNamed(s: Store) {
    forall c | c in s.calls :: s.calls[c].callerId != ""
  }

  /** A seat taken, a client gone or a call gone leaves every caller as it was. */
  lemma CallersStay(s: Store, s': Store)
    requires CallersNamed(s)
    requires forall c | c in s'.calls :: c in s.calls && s'.calls[c].callerId == s.calls[c].callerId
    ensures CallersNamed(s')
  {
  }

  lemma ClaimKeepsCallers(s: Store, c: string, cl: string, u: string, lobby: string, departed: Option<string>)
    requires CallersNamed(s)
    ensures CallersNamed(Claim(s, c, cl, u, lobby, departed).0)
  {
    CallersStay(s, Claim(s, c, cl, u, lobby, departed).0);
  }

  lemma ResumeKeepsCallers(s: Store, now: int, c: string, cl: string, u: string, lobby: string, gone: seq<string>)
    requires CallersNamed(s)
    ensures CallersNamed(Resume(s, now, c, cl, u, lobby, gone).0)
  {
    CallersStay(s, Resume(s, now, c, cl, u, lobby, gone).0);
  }

  lemma ForgetKeepsCallers(s: Store, c: string, expected: Snapshot)
    requires CallersNamed(s)
    ensures CallersNamed(ForgetIfUnchanged(s, c, expected).0)
  {
    CallersStay(s, ForgetIfUnchanged(s, c, expected).0);
  }

  /** The operations with a Redis script of their own in this model. */
  predicate Scripted(op: Op) {
    op.RegisterOp? || op.ClaimOp? || op.ResumeOp? || op.RemoveOp? || op.ForgetIfUnchangedOp?
    || op.MarkAcceptedOp? || op.TakeAcceptedOp?
  }

  lemma RanIsScripted(db: Redis, db': Redis, now: int, op: Op, reply: Reply)
    requires Ran(db, db', now, op, reply)
    ensures Scripted(op)
  {
  }

  lemma StepKeepsCallersNamed(s: Store, now: int, op: Op)
    requires CallersNamed(s) && NamesIds(op) && Scripted(op)
    ensures CallersNamed(Step(s, now, op).0)
  {
    match op
    case RegisterOp(c, cl, caller, lobby, targets, channel) =>
    case ClaimOp(c, cl, u, lobby, departed) => ClaimKeepsCallers(s, c, cl, u, lobby, departed);
    case ResumeOp(c, cl, u, lobby, gone) => ResumeKeepsCallers(s, now, c, cl, u, lobby, gone);
    case RemoveOp(c, cl) => CallersStay(s, Remove(s, c, cl).0);
    case ForgetIfUnchangedOp(c, expected) => ForgetKeepsCallers(s, c, expected);
    case MarkAcceptedOp(c, ttl) => CallersStay(s, MarkAccepted(s, now, c, ttl).0);
    case TakeAcceptedOp(c) => CallersStay(s, TakeAccepted(s, now, c).0);
  }

  /** Operations that name their ids never meet a call without a caller. */
  lemma {:induction false} NamedIdsCompare(s: Store, dbs: seq<Redis>, ops: seq<Timed>, replies: seq<Reply>)
    requires RanAll(dbs, ops, replies) && CallersNamed(s)
    requires forall i | 0 <= i < |ops| :: NamesIds(ops[i].op)
    ensures ComparableAll(s, ops)
    decreases |ops|
  {
    if ops != [] {
      assert NamesIds(ops[0].op);
      RanIsScripted(dbs[0], dbs[1], ops[0].now, ops[0].op, replies[0]);
      StepKeepsCallersNamed(s, ops[0].now, ops[0].op);
      NamedIdsCompare(Step(s, ops[0].now, ops[0].op).0, dbs[1..], ops[1..], replies[1..]);
    }
  }

  /**
   * From empty stores and with the clock running on, as long as every operation
   * names its ids, the two stores answer alike throughout.
   */
  lemma StoresAnswerAlike(dbs: seq<Redis>, now: int, ops: seq<Timed>, replies: seq<Reply>)
    requires RanAll(dbs, ops, replies) && ClockRuns(now, ops) && dbs[0] == NO_KEYS
    requires forall i | 0 <= i < |ops| :: NamesIds(ops[i].op)
    ensures replies == Replies(EMPTY, ops)
    ensures Corresponds(Run(EMPTY, ops), dbs[|ops|], if ops == [] then now else ops[|ops| - 1].now)
  {
    EmptyStoresCorrespond(now);
    NamedIdsCompare(EMPTY, dbs, ops, replies);
    RunRefines(EMPTY, dbs, now, ops, replies);
  }

  /**
   * The one place the stores part: a removal from a call stored with an empty
   * caller, which the accept of an unknown call writes. Redis reports no call
   * where the in-memory store removes the client.
   */
  lemma RemoveAnswersAlikeExactlyWithACaller(s: Store, db: Redis, db': Redis, now: int, callId: string, clientId: string,
                                             remaining: Option<nat>)
    requires Corresponds(s, db, now) && RemoveRan(db, db', callId, clientId, remaining)
    ensures remaining == Remove(s, callId, clientId).1 <==> (callId in s.calls ==> s.calls[callId].callerId != "")
  {
    assert CallMatches(s, db, callId);
    if callId in s.calls && s.calls[callId].callerId != "" {
      RemoveRefines(s, db, db', now, callId, clientId, remaining);
    }
  }

  /** The concrete failure, in two operations: a call registered without a caller, and its one client removed. */
  lemma UnnamedCallerPartsTheStores(dbs: seq<Redis>, now: int, callId: string, clientId: string, lobbyName: string,
                                    ops: seq<Timed>, replies: seq<Reply>)
    requires ops == [Timed(now, RegisterOp(callId, clientId, "", lobbyName, [], None)), Timed(now, RemoveOp(callId, clientId))]
    requires RanAll(dbs, ops, replies) && dbs[0] == NO_KEYS
    ensures replies[1] == Remaining(None) && Replies(EMPTY, ops)[1] == Remaining(Some(0))
  {
    var s := Step(EMPTY, now, ops[0].op).0;
    EmptyStoresCorrespond(now);
    assert Ran(dbs[0], dbs[1], ops[0].now, ops[0].op, replies[0]) && Ran(dbs[1], dbs[2], ops[1].now, ops[1].op, replies[1]);
    RegisterRefines(EMPTY, dbs[0], dbs[1], now, callId, clientId, "", lobbyName, [], None);
    assert s.calls[callId].roster == {clientId} && s.calls[callId].callerId == "";
    assert CallMatches(s, dbs[1], callId);
    assert ops[1..] == [ops[1]] && s.calls[callId].roster - {clientId} == {};
    assert Replies(EMPTY, ops)[1] == Step(s, now, ops[1].op).1;
  }
}
