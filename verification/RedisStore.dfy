/**
 * The call state kept in Redis (src/call/CallStateStore.ts,
 * RedisCallStateStore): the keyspace, the commands the store uses, and the
 * store's methods, each Lua script one atomic method.
 *
 * Every method is proved against the in-memory store's operation: from
 * corresponding states it answers the same and leaves corresponding states.
 */
module RedisStore {
  import opened Common
  import opened ReverseIndex
  import opened CallStateStore
  import opened CallStoreRuns

  // ---- Keyspace -----------------------------------------------------------

  datatype Key =
    | CallKey(id: string)
    | RosterKey(id: string)
    | ClientKey(id: string)
    | UserKey(id: string)
    | LobbyKey(id: string)
    | AcceptedKey(id: string)

  const PARTICIPANTS := ":participants"

  function Prefix(k: Key): string {
    match k
    case CallKey(_) => "call:active:"
    case RosterKey(_) => "call:active:"
    case ClientKey(_) => "client:calls:"
    case UserKey(_) => "call:user:"
    case LobbyKey(_) => "call:lobby:"
    case AcceptedKey(_) => "call:accepted:"
  }

  /** The key string the store sends. */
  function Render(k: Key): string {
    Prefix(k) + k.id + if k.RosterKey? then PARTICIPANTS else ""
  }

  lemma PrefixOfRender(k: Key)
    ensures Prefix(k) <= Render(k)
    ensures Render(k)[|Prefix(k)|..] == k.id + if k.RosterKey? then PARTICIPANTS else ""
  {
  }

  lemma SamePrefix(a: Key, b: Key)
    requires Render(a) == Render(b)
    ensures Prefix(a) == Prefix(b)
  {
    PrefixOfRender(a);
    PrefixOfRender(b);
    var r := Render(a);
    assert forall i | 0 <= i < |Prefix(a)| :: r[i] == Prefix(a)[i];
    assert forall i | 0 <= i < |Prefix(b)| :: r[i] == Prefix(b)[i];
    assert r[1] == Prefix(a)[1] == Prefix(b)[1];
    assert r[5] == Prefix(a)[5] == Prefix(b)[5];
    assert r[7] == Prefix(a)[7] == Prefix(b)[7];
  }

  /**
   * Two different keys share a string in one case only: a call whose id is
   * another call's id with `:participants` after it.
   */
  lemma KeysCollideOnlyOnRosterSuffix(a: Key, b: Key)
    ensures Render(a) == Render(b) <==>
      a == b
      || (a.CallKey? && b.RosterKey? && a.id == b.id + PARTICIPANTS)
      || (b.CallKey? && a.RosterKey? && b.id == a.id + PARTICIPANTS)
  {
    if Render(a) == Render(b) {
      SamePrefix(a, b);
      PrefixOfRender(a);
      PrefixOfRender(b);
      if a.RosterKey? && b.RosterKey? {
        var x, y := a.id + PARTICIPANTS, b.id + PARTICIPANTS;
        assert x == y && a.id == x[..|x| - |PARTICIPANTS|] && b.id == y[..|y| - |PARTICIPANTS|];
      } else if a.RosterKey? || b.RosterKey? {
        assert a.CallKey? || b.CallKey?;
      } else {
        assert a.id == Render(a)[|Prefix(a)|..] == b.id;
      }
    }
  }

  datatype Field = CallerId | LobbyName | TargetUserIds | Channel | InvitedAt | CallerName | SeatOf(userId: string)

  /** A stored string: text as is, a printed number, or a JSON array of ids. */
  datatype Value = Text(text: string) | Number(number: int) | Ids(ids: seq<string>)

  type Hash = map<Field, Value>

  /** Hashes, sets without an empty one, and marker strings with their expiry. */
  datatype Keyspace<K> = Keyspace(hashes: map<K, Hash>, sets: map<K, set<string>>, markers: map<K, int>)

  type Redis = Keyspace<Key>

  function Members<K>(db: Keyspace<K>, k: K): set<string> {
    if k in db.sets then db.sets[k] else {}
  }

  predicate MarkerExists(db: Redis, k: Key, now: int) {
    k in db.markers && db.markers[k] > now
  }

  function HGet(db: Redis, k: Key, f: Field): Option<Value> {
    if k in db.hashes && f in db.hashes[k] then Some(db.hashes[k][f]) else None
  }

  function HashAt<K>(db: Keyspace<K>, k: K): Hash {
    if k in db.hashes then db.hashes[k] else map[]
  }

  function HSet<K>(db: Keyspace<K>, k: K, f: Field, v: Value): Keyspace<K> {
    db.(hashes := db.hashes[k := HashAt(db, k)[f := v]])
  }

  function Del<K>(db: Keyspace<K>, ks: set<K>): Keyspace<K> {
    Keyspace(db.hashes - ks, db.sets - ks, db.markers - ks)
  }

  /** The commands the store writes with. */
  datatype Command<K> =
    | HSetCommand(key: K, field: Field, value: Value)
    | SAddCommand(key: K, member: string)
    | SRemCommand(key: K, member: string)
    | SetCommand(key: K, expiresAt: int)
    | DelCommand(keys: set<K>)

  /** Redis drops a set when its last member goes. */
  function Exec<K>(db: Keyspace<K>, command: Command<K>): Keyspace<K> {
    match command
    case HSetCommand(k, f, v) => HSet(db, k, f, v)
    case SAddCommand(k, m) => db.(sets := db.sets[k := Members(db, k) + {m}])
    case SRemCommand(k, m) =>
      if Members(db, k) - {m} == {} then db.(sets := db.sets - {k})
      else db.(sets := db.sets[k := Members(db, k) - {m}])
    case SetCommand(k, expiresAt) => db.(markers := db.markers[k := expiresAt])
    case DelCommand(ks) => Del(db, ks)
  }

  /** What the commands make of an empty keyspace. */
  function ExecAll<K>(commands: seq<Command<K>>): Keyspace<K> {
    if commands == [] then Keyspace(map[], map[], map[])
    else Exec(ExecAll(commands[..|commands| - 1]), commands[|commands| - 1])
  }

  // ---- Correspondence -----------------------------------------------------

  ghost predicate FieldIs(h: Hash, f: Field, v: Option<Value>) {
    if v.Some? then f in h && h[f] == v.value else f !in h
  }

  function AsText(v: Option<string>): Option<Value> {
    if v.Some? then Some(Text(v.value)) else None
  }

  function AsNumber(v: Option<int>): Option<Value> {
    if v.Some? then Some(Number(v.value)) else None
  }

  function SeatOption(call: CallRecord, u: string): Option<Value> {
    if u in call.seats then Some(Text(call.seats[u])) else None
  }

  ghost predicate Encodes(h: Hash, call: CallRecord) {
    && FieldIs(h, CallerId, Some(Text(call.callerId)))
    && FieldIs(h, LobbyName, Some(Text(call.lobbyName)))
    && FieldIs(h, TargetUserIds, Some(Ids(call.targetUserIds)))
    && FieldIs(h, Channel, AsText(call.channel))
    && FieldIs(h, InvitedAt, AsNumber(call.invitedAt))
    && FieldIs(h, CallerName, AsText(call.callerName))
    && (forall u :: SeatMatches(h, call, u))
  }

  /** The seat field says what the seat map says, and no seat is the empty id. */
  ghost predicate SeatMatches(h: Hash, call: CallRecord, u: string) {
    FieldIs(h, SeatOf(u), SeatOption(call, u)) && (u in call.seats ==> call.seats[u] != "")
  }

  ghost predicate CallMatches(s: Store, db: Redis, c: string) {
    if c in s.calls then CallKey(c) in db.hashes && Encodes(db.hashes[CallKey(c)], s.calls[c])
    else CallKey(c) !in db.hashes
  }

  ghost predicate CallsCorrespond(s: Store, db: Redis) {
    forall c :: CallMatches(s, db, c)
  }

  predicate IsSetKey(k: Key) {
    !k.CallKey? && !k.AcceptedKey?
  }

  /** The index entry, or the roster, that a set key mirrors. */
  function SetAt(s: Store, k: Key): set<string> {
    match k
    case RosterKey(c) => Roster(s, c)
    case ClientKey(x) => At(s.byClient, x)
    case UserKey(u) => At(s.byUser, u)
    case LobbyKey(lobby) => At(s.byLobby, lobby)
    case _ => {}
  }

  ghost predicate SetMatches(s: Store, db: Redis, k: Key) {
    IsSetKey(k) ==> Members(db, k) == SetAt(s, k)
  }

  ghost predicate SetsCorrespond(s: Store, db: Redis) {
    forall k :: SetMatches(s, db, k)
  }

  /** The marker exists exactly when the in-memory expiry has not passed, with that expiry. */
  ghost predicate MarkerMatches(s: Store, db: Redis, now: int, c: string) {
    && (MarkerLive(s, c, now) <==> MarkerExists(db, AcceptedKey(c), now))
    && (MarkerLive(s, c, now) ==> s.accepted[c] == db.markers[AcceptedKey(c)])
  }

  ghost predicate MarkersCorrespond(s: Store, db: Redis, now: int) {
    forall c :: MarkerMatches(s, db, now, c)
  }

  ghost predicate Corresponds(s: Store, db: Redis, now: int) {
    CallsCorrespond(s, db) && SetsCorrespond(s, db) && MarkersCorrespond(s, db, now)
  }

  /** Time passing keeps the correspondence: both sides let the same markers lapse. */
  lemma TimePasses(s: Store, db: Redis, now: int, later: int)
    requires Corresponds(s, db, now) && now <= later
    ensures Corresponds(s, db, later)
  {
    forall c ensures MarkerMatches(s, db, later, c) {
      assert MarkerMatches(s, db, now, c);
    }
  }

  lemma SeatEncoded(h: Hash, call: CallRecord, userId: string, clientId: string, roster: set<string>)
    requires Encodes(h, call) && clientId != ""
    ensures Encodes(h[SeatOf(userId) := Text(clientId)], call.(seats := call.seats[userId := clientId], roster := roster))
  {
    var h', call' := h[SeatOf(userId) := Text(clientId)], call.(seats := call.seats[userId := clientId], roster := roster);
    forall u ensures SeatMatches(h', call', u) {
      assert SeatMatches(h, call, u);
    }
  }

  lemma WinnerIsSeatField(s: Store, db: Redis, callId: string, userId: string)
    requires CallsCorrespond(s, db) && callId in s.calls
    ensures AsText(Winner(s.calls[callId], userId)) == HGet(db, CallKey(callId), SeatOf(userId))
  {
    assert CallMatches(s, db, callId);
    assert SeatMatches(db.hashes[CallKey(callId)], s.calls[callId], userId);
  }

  /** The hash side of taking a seat: one field written in one call's hash. */
  lemma TakenSeatCalls(s: Store, db: Redis, s': Store, db': Redis, callId: string, clientId: string, userId: string,
                       leaving: set<string>)
    requires CallsCorrespond(s, db) && callId in s.calls && clientId != ""
    requires s'.calls == TakeSeat(s, callId, clientId, userId, leaving).calls
    requires db'.hashes == HSet(db, CallKey(callId), SeatOf(userId), Text(clientId)).hashes
    ensures CallsCorrespond(s', db')
  {
    assert CallMatches(s, db, callId);
    SeatEncoded(db.hashes[CallKey(callId)], s.calls[callId], userId, clientId, s'.calls[callId].roster);
    forall c ensures CallMatches(s', db', c) {
      assert CallMatches(s, db, c);
    }
  }

  function AfterLeaving(m: set<string>, k: Key, callId: string, leaving: set<string>): set<string> {
    if k == RosterKey(callId) then m - leaving
    else if k.ClientKey? && k.id in leaving then m - {callId}
    else m
  }

  /** What seating `clientId` and letting `leaving` go makes of the set `m` at key `k`. */
  function AfterSeat(m: set<string>, k: Key, callId: string, clientId: string, leaving: set<string>): set<string> {
    AfterLeaving(m, k, callId, leaving)
    + (if k == RosterKey(callId) then {clientId} else if k == ClientKey(clientId) then {callId} else {})
  }

  /** ... with the call listed at the discovery key `listed`. */
  function AfterListedSeat(m: set<string>, k: Key, callId: string, clientId: string, leaving: set<string>,
                           listed: Key): set<string> {
    if k == listed then m + {callId} else AfterSeat(m, k, callId, clientId, leaving)
  }

  function AfterErase(m: set<string>, k: Key, callId: string, roster: set<string>): set<string> {
    if k == RosterKey(callId) then {}
    else if k.ClientKey? && k.id in roster then m - {callId}
    else m
  }

  /** The discovery index behind `listed` names the call. */
  function ListCall(s: Store, callId: string, listed: Key): Store {
    match listed
    case UserKey(u) => s.(byUser := Add(s.byUser, u, callId))
    case LobbyKey(lobby) => s.(byLobby := Add(s.byLobby, lobby, callId))
    case _ => s
  }

  /** Taking a seat in memory moves every set the way the scripts move its key. */
  lemma SeatMovesSets(s: Store, callId: string, clientId: string, userId: string, leaving: set<string>, listed: Key, k: Key)
    requires callId in s.calls && clientId !in leaving && IsSetKey(k) && (listed.UserKey? || listed.LobbyKey?)
    ensures SetAt(ListCall(TakeSeat(s, callId, clientId, userId, leaving), callId, listed), k)
         == AfterListedSeat(SetAt(s, k), k, callId, clientId, leaving, listed)
  {
  }

  lemma EraseMovesSets(s: Store, callId: string, k: Key)
    requires IsSetKey(k)
    ensures SetAt(Erase(s, callId), k) == AfterErase(SetAt(s, k), k, callId, Roster(s, callId))
  {
  }

  // ---- What each script does, read off the keys -------------------------------

  /** A recorded seat that is on the roster and not proved dead refuses the claimant. */
  predicate SeatHeld(db: Redis, callId: string, clientId: string, userId: string, departed: set<string>) {
    var winner := HGet(db, CallKey(callId), SeatOf(userId));
    && winner.Some? && winner.value.Text? && winner.value.text != clientId
    && winner.value.text in Members(db, RosterKey(callId)) && winner.value.text !in departed
  }

  /** The seat field names `clientId`, the sets moved, and the rest of `db` stands. */
  ghost predicate SeatWritten(db: Redis, db': Redis, callId: string, clientId: string, userId: string,
                              leaving: set<string>, listed: Key) {
    && db'.hashes == HSet(db, CallKey(callId), SeatOf(userId), Text(clientId)).hashes
    && forall k :: Members(db', k) == AfterListedSeat(Members(db, k), k, callId, clientId, leaving, listed)
  }

  predicate InLobby(db: Redis, callId: string, lobbyName: string) {
    CallKey(callId) in db.hashes && HGet(db, CallKey(callId), LobbyName) == Some(Text(lobbyName))
  }

  ghost predicate ClaimRan(db: Redis, db': Redis, callId: string, clientId: string, userId: string, lobbyName: string,
                           departed: Option<string>, reply: ClaimReply) {
    var sent := if departed.Some? then departed.value else "";
    var winner := HGet(db, CallKey(callId), SeatOf(userId));
    if !InLobby(db, callId, lobbyName) then db' == db && reply == ClaimReply(false, None)
    else if SeatHeld(db, callId, clientId, userId, {sent}) then
      db' == db && reply == ClaimReply(false, Some(winner.value.text))
    else
      && reply == ClaimReply(true, Some(clientId))
      && db'.markers == db.markers
      && SeatWritten(db, db', callId, clientId, userId,
                     if winner == Some(Text(sent)) && sent != clientId then {sent} else {}, UserKey(userId))
  }

  predicate Resumable(db: Redis, now: int, callId: string, clientId: string, userId: string, lobbyName: string,
                      departed: set<string>) {
    && InLobby(db, callId, lobbyName)
    && callId in Members(db, UserKey(userId))
    && (MarkerExists(db, AcceptedKey(callId), now) || |Members(db, RosterKey(callId))| >= 2)
    && !SeatHeld(db, callId, clientId, userId, departed)
  }

  ghost predicate ResumeRan(db: Redis, db': Redis, now: int, callId: string, clientId: string, userId: string,
                            lobbyName: string, departed: seq<string>, resumed: bool) {
    if !Resumable(db, now, callId, clientId, userId, lobbyName, SetOf(departed)) then db' == db && !resumed
    else
      && resumed
      && db'.markers == db.markers[AcceptedKey(callId) := now + TTL_MS]
      && SeatWritten(db, db', callId, clientId, userId, SetOf(departed) - {clientId}, LobbyKey(lobbyName))
  }

  ghost predicate ForgetRan(db: Redis, db': Redis, callId: string, expected: Snapshot, forgotten: bool) {
    var roster := SetOf(expected.roster);
    if |roster| == |expected.roster| && InLobby(db, callId, expected.lobbyName)
       && HGet(db, CallKey(callId), CallerId) == Some(Text(expected.callerId))
       && HGet(db, CallKey(callId), InvitedAt) == AsNumber(expected.invitedAt)
       && |Members(db, RosterKey(callId))| == |expected.roster|
       && roster <= Members(db, RosterKey(callId)) then
      var gone := {CallKey(callId), RosterKey(callId), AcceptedKey(callId)};
      && forgotten
      && db'.hashes == db.hashes - gone && db'.markers == db.markers - gone
      && forall k | k !in {CallKey(callId), AcceptedKey(callId)} :: Members(db', k) == AfterErase(Members(db, k), k, callId, roster)
    else
      db' == db && !forgotten
  }

  /** The hash after a register: a new call's fields together with its channel, then whatever is still absent. */
  function CreatedHash(h: Hash, callerId: string, lobbyName: string, targets: seq<string>,
                       channel: Option<string>): Hash {
    var created :=
      if ValidCallChannel(channel) && CallerId !in h then
        h[CallerId := Text(callerId)][LobbyName := Text(lobbyName)][TargetUserIds := Ids(targets)]
         [Channel := Text(channel.value)]
      else h;
    AbsentFields(created, callerId, lobbyName, targets)
  }

  function AbsentFields(h: Hash, callerId: string, lobbyName: string, targets: seq<string>): Hash {
    SetAbsent(SetAbsent(SetAbsent(h, CallerId, Text(callerId)), LobbyName, Text(lobbyName)), TargetUserIds, Ids(targets))
  }

  function SetAbsent(h: Hash, f: Field, v: Value): Hash {
    if f in h then h else h[f := v]
  }

  ghost predicate RegisterRan(db: Redis, db': Redis, callId: string, clientId: string, callerId: string,
                              lobbyName: string, targets: seq<string>, channel: Option<string>) {
    && db'.hashes == db.hashes[CallKey(callId) := CreatedHash(HashAt(db, CallKey(callId)), callerId, lobbyName, targets, channel)]
    && db'.markers == db.markers
    && forall k :: Members(db', k) == AfterSeat(Members(db, k), k, callId, clientId, {})
  }

  /** An empty stored caller reads as no call. */
  predicate HasCaller(db: Redis, callId: string) {
    HGet(db, CallKey(callId), CallerId).Some? && HGet(db, CallKey(callId), CallerId) != Some(Text(""))
  }

  ghost predicate RemoveRan(db: Redis, db': Redis, callId: string, clientId: string, remaining: Option<nat>) {
    if !HasCaller(db, callId) then db' == db && remaining == None
    else
      var roster := Members(db, RosterKey(callId)) - {clientId};
      && remaining == Some(|roster|)
      && db'.hashes == (if roster == {} then db.hashes - {CallKey(callId), RosterKey(callId)} else db.hashes)
      && db'.markers == (if roster == {} then db.markers - {CallKey(callId), RosterKey(callId)} else db.markers)
      && forall k | k != CallKey(callId) :: Members(db', k) == AfterLeaving(Members(db, k), k, callId, {clientId})
  }

  ghost predicate MarkRan(db: Redis, db': Redis, now: int, callId: string, ttlMs: int, first: bool) {
    && (first <==> !MarkerExists(db, AcceptedKey(callId), now))
    && db'.hashes == db.hashes && (forall k :: Members(db', k) == Members(db, k))
    && db'.markers == if first then db.markers[AcceptedKey(callId) := now + ttlMs] else db.markers
  }

  ghost predicate TakeRan(db: Redis, db': Redis, now: int, callId: string, taken: bool) {
    && (taken <==> MarkerExists(db, AcceptedKey(callId), now))
    && db'.hashes == db.hashes - {AcceptedKey(callId)} && db'.markers == db.markers - {AcceptedKey(callId)}
    && forall k | k != AcceptedKey(callId) :: Members(db', k) == Members(db, k)
  }

  // ---- The store ------------------------------------------------------------

  class RedisCallStateStore {
    var db: Redis
    /** Every write so far. */
    ghost var log: seq<Command<Key>>

    /** Nothing but commands changes the keyspace. */
    ghost predicate Valid()
      reads this
    {
      db == ExecAll(log)
    }

    constructor ()
      ensures db == Keyspace(map[], map[], map[]) && Valid()
    {
      db := Keyspace(map[], map[], map[]);
      log := [];
    }

    method Send(command: Command<Key>)
      modifies this
      ensures db == Exec(old(db), command)
      ensures old(Valid()) ==> Valid()
    {
      db := Exec(db, command);
      log := log + [command];
      assert log[..|log| - 1] == old(log);
    }

    method SAdd(k: Key, m: string)
      modifies this
      ensures old(Valid()) ==> Valid()
      ensures db.hashes == old(db).hashes && db.markers == old(db).markers
      ensures forall x :: Members(db, x) == if x == k then Members(old(db), x) + {m} else Members(old(db), x)
    {
      Send(SAddCommand(k, m));
    }

    method SRem(k: Key, m: string)
      modifies this
      ensures old(Valid()) ==> Valid()
      ensures db.hashes == old(db).hashes && db.markers == old(db).markers
      ensures forall x :: Members(db, x) == if x == k then Members(old(db), x) - {m} else Members(old(db), x)
    {
      Send(SRemCommand(k, m));
    }

    /** `SREM`; the `DEL` that follows when `SCARD` is 0 finds nothing, as Redis has dropped the emptied set. */
    method DropClient(clientId: string, callId: string)
      modifies this
      ensures old(Valid()) ==> Valid()
      ensures db.hashes == old(db).hashes && db.markers == old(db).markers
      ensures forall k :: Members(db, k) ==
                          if k == ClientKey(clientId) then Members(old(db), k) - {callId} else Members(old(db), k)
    {
      SRem(ClientKey(clientId), callId);
    }

    /** `SREM` from the roster and from the client's index. */
    method LeaveRoster(callId: string, clientId: string)
      modifies this
      ensures old(Valid()) ==> Valid()
      ensures db.hashes == old(db).hashes && db.markers == old(db).markers
      ensures forall k :: Members(db, k) == AfterLeaving(Members(old(db), k), k, callId, {clientId})
    {
      SRem(RosterKey(callId), clientId);
      SRem(ClientKey(clientId), callId);
    }

    method WriteSeat(callId: string, clientId: string, userId: string)
      modifies this
      ensures old(Valid()) ==> Valid()
      ensures db.hashes == HSet(old(db), CallKey(callId), SeatOf(userId), Text(clientId)).hashes
      ensures db.markers == old(db).markers
      ensures forall k :: Members(db, k) == AfterSeat(Members(old(db), k), k, callId, clientId, {})
    {
      Send(HSetCommand(CallKey(callId), SeatOf(userId), Text(clientId)));
      SAdd(RosterKey(callId), clientId);
      SAdd(ClientKey(clientId), callId);
    }

    /** CLAIM_ACCEPTED_SEAT. An absent departed client is sent as the empty string. */
    method ClaimAcceptedSeat(callId: string, clientId: string, userId: string, lobbyName: string,
                             departed: Option<string>) returns (reply: ClaimReply)
      modifies this
      ensures old(Valid()) ==> Valid()
      ensures ClaimRan(old(db), db, callId, clientId, userId, lobbyName, departed, reply)
    {
      var sent := if departed.Some? then departed.value else "";
      if CallKey(callId) !in db.hashes || HGet(db, CallKey(callId), LobbyName) != Some(Text(lobbyName)) {
        return ClaimReply(false, None);
      }
      var winner := HGet(db, CallKey(callId), SeatOf(userId));
      if winner.Some? && winner.value.Text? && winner.value.text != clientId
         && winner.value.text in Members(db, RosterKey(callId)) && winner.value.text != sent {
        return ClaimReply(false, Some(winner.value.text));
      }
      var moves := winner.Some? && winner.value.Text? && winner.value.text != clientId && winner.value.text == sent;
      ReplaceSeat(callId, clientId, userId, if moves then Some(sent) else None);
      SAdd(UserKey(userId), callId);
      reply := ClaimReply(true, Some(clientId));
    }

    /** The claim script's writes up to its user listing; a departed winner goes first. */
    method ReplaceSeat(callId: string, clientId: string, userId: string, gone: Option<string>)
      modifies this
      ensures old(Valid()) ==> Valid()
      ensures db.hashes == HSet(old(db), CallKey(callId), SeatOf(userId), Text(clientId)).hashes
      ensures db.markers == old(db).markers
      ensures forall k :: Members(db, k) == AfterSeat(Members(old(db), k), k, callId, clientId, DepartedSet(gone))
    {
      if gone.Some? {
        LeaveRoster(callId, gone.value);
      }
      WriteSeat(callId, clientId, userId);
    }

    /** The resume script's loop over the clients proved dead. */
    method LetGo(callId: string, clientId: string, departed: seq<string>)
      modifies this
      ensures old(Valid()) ==> Valid()
      ensures db.hashes == old(db).hashes && db.markers == old(db).markers
      ensures forall k :: Members(db, k) == AfterLeaving(Members(old(db), k), k, callId, SetOf(departed) - {clientId})
    {
      for i := 0 to |departed|
        invariant (old(Valid()) ==> Valid()) && db.hashes == old(db).hashes && db.markers == old(db).markers
        invariant forall k :: Members(db, k) ==
                              AfterLeaving(Members(old(db), k), k, callId, SetOf(departed[..i]) - {clientId})
      {
        assert departed[..i + 1] == departed[..i] + [departed[i]];
        if departed[i] != clientId {
          LeaveRoster(callId, departed[i]);
        }
      }
      assert departed[..|departed|] == departed;
    }

    /** The resume script's writes up to its lobby listing. */
    method MoveSeat(callId: string, clientId: string, userId: string, departed: seq<string>)
      modifies this
      ensures old(Valid()) ==> Valid()
      ensures db.hashes == HSet(old(db), CallKey(callId), SeatOf(userId), Text(clientId)).hashes
      ensures db.markers == old(db).markers
      ensures forall k :: Members(db, k) ==
                          AfterSeat(Members(old(db), k), k, callId, clientId, SetOf(departed) - {clientId})
    {
      WriteSeat(callId, clientId, userId);
      LetGo(callId, clientId, departed);
      ghost var leaving := SetOf(departed) - {clientId};
      forall k ensures Members(db, k) == AfterSeat(Members(old(db), k), k, callId, clientId, leaving) {
        ghost var m := Members(old(db), k);
        assert (m + {clientId}) - leaving == (m - leaving) + {clientId};
      }
    }

    /** `SET key '1' EX ttl` */
    method SetMarker(k: Key, expiresAt: int)
      modifies this
      ensures old(Valid()) ==> Valid()
      ensures db.hashes == old(db).hashes && db.markers == old(db).markers[k := expiresAt]
      ensures forall x :: Members(db, x) == Members(old(db), x)
    {
      Send(SetCommand(k, expiresAt));
    }

    /** The resume script's guards. */
    method MayResume(now: int, callId: string, clientId: string, userId: string, lobbyName: string, departed: seq<string>)
      returns (may: bool)
      ensures may <==> Resumable(db, now, callId, clientId, userId, lobbyName, SetOf(departed))
    {
      if CallKey(callId) !in db.hashes { return false; }
      if HGet(db, CallKey(callId), LobbyName) != Some(Text(lobbyName)) { return false; }
      if callId !in Members(db, UserKey(userId)) { return false; }
      if !MarkerExists(db, AcceptedKey(callId), now) && |Members(db, RosterKey(callId))| < 2 { return false; }
      var winner := HGet(db, CallKey(callId), SeatOf(userId));
      if winner.Some? && winner.value.Text? && winner.value.text != clientId
         && winner.value.text in Members(db, RosterKey(callId)) {
        for i := 0 to |departed|
          invariant winner.value.text !in departed[..i]
        {
          if departed[i] == winner.value.text { return true; }
        }
        assert departed[..|departed|] == departed;
        return false;
      }
      return true;
    }

    /** RESUME_PARTICIPANT. */
    method ResumeParticipant(now: int, callId: string, clientId: string, userId: string, lobbyName: string,
                             departed: seq<string>) returns (resumed: bool)
      modifies this
      ensures old(Valid()) ==> Valid()
      ensures ResumeRan(old(db), db, now, callId, clientId, userId, lobbyName, departed, resumed)
    {
      resumed := MayResume(now, callId, clientId, userId, lobbyName, departed);
      if !resumed { return; }
      MoveSeat(callId, clientId, userId, departed);
      SAdd(LobbyKey(lobbyName), callId);
      SetMarker(AcceptedKey(callId), now + TTL_MS);
    }

    /** FORGET_UNCHANGED, after the wrapper's duplicate check. */
    method ForgetCallIfUnchanged(callId: string, expected: Snapshot) returns (forgotten: bool)
      modifies this
      ensures old(Valid()) ==> Valid()
      ensures ForgetRan(old(db), db, callId, expected, forgotten)
    {
      if |SetOf(expected.roster)| != |expected.roster| { return false; }
      if CallKey(callId) !in db.hashes { return false; }
      if HGet(db, CallKey(callId), CallerId) != Some(Text(expected.callerId))
         || HGet(db, CallKey(callId), LobbyName) != Some(Text(expected.lobbyName)) { return false; }
      if HGet(db, CallKey(callId), InvitedAt) != AsNumber(expected.invitedAt) { return false; }
      if |Members(db, RosterKey(callId))| != |expected.roster| { return false; }
      for i := 0 to |expected.roster|
        invariant forall j | 0 <= j < i :: expected.roster[j] in Members(db, RosterKey(callId))
      {
        if expected.roster[i] !in Members(db, RosterKey(callId)) {
          assert expected.roster[i] in SetOf(expected.roster);
          return false;
        }
      }
      ghost var before := db;
      for i := 0 to |expected.roster|
        invariant (old(Valid()) ==> Valid()) && db.hashes == before.hashes && db.markers == before.markers
        invariant forall k | k != RosterKey(callId) ::
                    Members(db, k) == AfterErase(Members(before, k), k, callId, SetOf(expected.roster[..i]))
      {
        assert expected.roster[..i + 1] == expected.roster[..i] + [expected.roster[i]];
        DropClient(expected.roster[i], callId);
      }
      assert expected.roster[..|expected.roster|] == expected.roster;
      Send(DelCommand({CallKey(callId), RosterKey(callId), AcceptedKey(callId)}));
      forgotten := true;
    }

    /** CREATE_CALL_CHANNEL for a call with a channel, then the first-writer fields and the two sets. */
    method RegisterParticipant(callId: string, clientId: string, callerId: string, lobbyName: string,
                               targets: seq<string>, channel: Option<string>)
      modifies this
      ensures old(Valid()) ==> Valid()
      ensures RegisterRan(old(db), db, callId, clientId, callerId, lobbyName, targets, channel)
    {
      CreateCall(CallKey(callId), callerId, lobbyName, targets, channel);
      SAdd(RosterKey(callId), clientId);
      SAdd(ClientKey(clientId), callId);
    }

    method CreateCall(k: Key, callerId: string, lobbyName: string, targets: seq<string>, channel: Option<string>)
      modifies this
      ensures old(Valid()) ==> Valid()
      ensures db.sets == old(db).sets && db.markers == old(db).markers
      ensures db.hashes == old(db).hashes[k := CreatedHash(HashAt(old(db), k), callerId, lobbyName, targets, channel)]
    {
      if ValidCallChannel(channel) {
        CreateCallChannel(k, callerId, lobbyName, targets, channel.value);
      }
      SetAbsentFields(k, callerId, lobbyName, targets);
    }

    /** The first-writer fields: each `HSETNX` keeps what is there. */
    method SetAbsentFields(k: Key, callerId: string, lobbyName: string, targets: seq<string>)
      modifies this
      ensures old(Valid()) ==> Valid()
      ensures db.sets == old(db).sets && db.markers == old(db).markers
      ensures db.hashes == old(db).hashes[k := AbsentFields(HashAt(old(db), k), callerId, lobbyName, targets)]
    {
      HSetNx(k, CallerId, Text(callerId));
      HSetNx(k, LobbyName, Text(lobbyName));
      HSetNx(k, TargetUserIds, Ids(targets));
    }

    method CreateCallChannel(k: Key, callerId: string, lobbyName: string, targets: seq<string>, channel: string)
      modifies this
      ensures old(Valid()) ==> Valid()
      ensures db == if CallerId in HashAt(old(db), k) then old(db) else
                    old(db).(hashes := old(db).hashes[k :=
                      HashAt(old(db), k)[CallerId := Text(callerId)][LobbyName := Text(lobbyName)]
                        [TargetUserIds := Ids(targets)][Channel := Text(channel)]])
    {
      if HGet(db, k, CallerId).None? {
        Send(HSetCommand(k, CallerId, Text(callerId)));
        Send(HSetCommand(k, LobbyName, Text(lobbyName)));
        Send(HSetCommand(k, TargetUserIds, Ids(targets)));
        Send(HSetCommand(k, Channel, Text(channel)));
      }
    }

    method HSetNx(k: Key, f: Field, v: Value)
      modifies this
      ensures old(Valid()) ==> Valid()
      ensures db == old(db).(hashes := db.hashes)
      ensures db.hashes == if f in HashAt(old(db), k) then old(db).hashes
                           else old(db).hashes[k := SetAbsent(HashAt(old(db), k), f, v)]
    {
      if HGet(db, k, f).None? {
        Send(HSetCommand(k, f, v));
      }
    }

    method DelCall(callId: string)
      modifies this
      ensures old(Valid()) ==> Valid()
      ensures db.hashes == old(db).hashes - {CallKey(callId), RosterKey(callId)}
      ensures db.markers == old(db).markers - {CallKey(callId), RosterKey(callId)}
      ensures forall k | k != CallKey(callId) && k != RosterKey(callId) :: Members(db, k) == Members(old(db), k)
      ensures Members(db, RosterKey(callId)) == {}
    {
      Send(DelCommand({CallKey(callId), RosterKey(callId)}));
    }

    method RemoveParticipant(callId: string, clientId: string) returns (remaining: Option<nat>)
      modifies this
      ensures old(Valid()) ==> Valid()
      ensures RemoveRan(old(db), db, callId, clientId, remaining)
    {
      if !HasCaller(db, callId) { return None; }
      LeaveRoster(callId, clientId);
      remaining := Some(|Members(db, RosterKey(callId))|);
      if remaining == Some(0) {
        DelCall(callId);
      }
    }

    /** `SET key '1' NX EX ttl` */
    method MarkAccepted(now: int, callId: string, ttlSeconds: int) returns (first: bool)
      modifies this
      ensures old(Valid()) ==> Valid()
      ensures MarkRan(old(db), db, now, callId, ttlSeconds * 1000, first)
    {
      if MarkerExists(db, AcceptedKey(callId), now) { return false; }
      SetMarker(AcceptedKey(callId), now + ttlSeconds * 1000);
      first := true;
    }

    /** `DEL key`, whose count says whether the marker was there. */
    method TakeAccepted(now: int, callId: string) returns (taken: bool)
      modifies this
      ensures old(Valid()) ==> Valid()
      ensures TakeRan(old(db), db, now, callId, taken)
    {
      taken := MarkerExists(db, AcceptedKey(callId), now);
      Send(DelCommand({AcceptedKey(callId)}));
    }
  }
}
