/**
 * The Redis store on the key strings it sends: its commands do there what they
 * do on the structured keys of `RedisStore`, exactly unless the id of one call
 * is another's with `:participants` after it.
 *
 * A string here may hold a hash, a set and a marker side by side; Redis refuses
 * the second of them, so where ids do collide it fares no better than this.
 */
module RedisKeyspace {
  import opened RedisStore

  function Rendered(command: Command<Key>): Command<string> {
    match command
    case HSetCommand(k, f, v) => HSetCommand(Render(k), f, v)
    case SAddCommand(k, m) => SAddCommand(Render(k), m)
    case SRemCommand(k, m) => SRemCommand(Render(k), m)
    case SetCommand(k, expiresAt) => SetCommand(Render(k), expiresAt)
    case DelCommand(ks) => DelCommand(set k | k in ks :: Render(k))
  }

  function RenderedAll(commands: seq<Command<Key>>): (rendered: seq<Command<string>>)
    ensures |rendered| == |commands|
  {
    if commands == [] then [] else RenderedAll(commands[..|commands| - 1]) + [Rendered(commands[|commands| - 1])]
  }

  // ---- The ids in use ------------------------------------------------------------

  /** No call's id is another's with `:participants` after it. */
  ghost predicate Apart(calls: iset<string>) {
    forall a, b | a in calls && b in calls :: a != b + PARTICIPANTS
  }

  predicate NamesCall(k: Key) {
    k.CallKey? || k.RosterKey?
  }

  ghost predicate InUse(k: Key, calls: iset<string>) {
    NamesCall(k) ==> k.id in calls
  }

  ghost predicate Uses(command: Command<Key>, calls: iset<string>) {
    if command.DelCommand? then forall k | k in command.keys :: InUse(k, calls) else InUse(command.key, calls)
  }

  ghost predicate UsesOnly(commands: seq<Command<Key>>, calls: iset<string>) {
    forall i | 0 <= i < |commands| :: Uses(commands[i], calls)
  }

  lemma RenderIsInjective(a: Key, b: Key, calls: iset<string>)
    requires Apart(calls) && InUse(a, calls) && InUse(b, calls) && Render(a) == Render(b)
    ensures a == b
  {
    KeysCollideOnlyOnRosterSuffix(a, b);
  }

  // ---- Strings against structured keys ----------------------------------------------

  /** The string of `k` stands for `k`. */
  predicate Follows<V(==)>(structured: map<Key, V>, strings: map<string, V>, k: Key) {
    && (Render(k) in strings <==> k in structured)
    && (k in structured ==> strings[Render(k)] == structured[k])
  }

  predicate Mirrors(db: Redis, strings: Keyspace<string>, k: Key) {
    && Follows(db.hashes, strings.hashes, k)
    && Follows(db.sets, strings.sets, k)
    && Follows(db.markers, strings.markers, k)
  }

  ghost predicate MirrorsAll(db: Redis, strings: Keyspace<string>, calls: iset<string>) {
    forall k | InUse(k, calls) :: Mirrors(db, strings, k)
  }

  lemma WriteFollows<V>(structured: map<Key, V>, strings: map<string, V>, key: Key, v: V, k: Key)
    requires Follows(structured, strings, k) && (Render(k) == Render(key) ==> k == key)
    ensures Follows(structured[key := v], strings[Render(key) := v], k)
    ensures Follows(structured - {key}, strings - {Render(key)}, k)
  {
  }

  /** What a write to one key leaves at another, or at the same. */
  lemma WriteMirrors(db: Redis, strings: Keyspace<string>, command: Command<Key>, k: Key)
    requires !command.DelCommand? && Mirrors(db, strings, k) && Mirrors(db, strings, command.key)
    requires Render(k) == Render(command.key) ==> k == command.key
    ensures Mirrors(Exec(db, command), Exec(strings, Rendered(command)), k)
  {
    match command
    case HSetCommand(key, f, v) => WriteFollows(db.hashes, strings.hashes, key, HashAt(db, key)[f := v], k);
    case SAddCommand(key, m) => WriteFollows(db.sets, strings.sets, key, Members(db, key) + {m}, k);
    case SRemCommand(key, m) => WriteFollows(db.sets, strings.sets, key, Members(db, key) - {m}, k);
    case SetCommand(key, expiresAt) => WriteFollows(db.markers, strings.markers, key, expiresAt, k);
  }

  lemma DelMirrors(db: Redis, strings: Keyspace<string>, ks: set<Key>, k: Key)
    requires Mirrors(db, strings, k)
    requires forall x | x in ks && Render(x) == Render(k) :: x == k
    ensures Mirrors(Exec(db, DelCommand(ks)), Exec(strings, Rendered(DelCommand(ks))), k)
  {
    var names := set x | x in ks :: Render(x);
    assert Render(k) in names <==> k in ks;
  }

  lemma CommandMirrors(db: Redis, strings: Keyspace<string>, command: Command<Key>, calls: iset<string>)
    requires Apart(calls) && MirrorsAll(db, strings, calls) && Uses(command, calls)
    ensures MirrorsAll(Exec(db, command), Exec(strings, Rendered(command)), calls)
  {
    forall k | InUse(k, calls) ensures Mirrors(Exec(db, command), Exec(strings, Rendered(command)), k) {
      if command.DelCommand? {
        forall x | x in command.keys && Render(x) == Render(k) ensures x == k {
          RenderIsInjective(x, k, calls);
        }
        DelMirrors(db, strings, command.keys, k);
      } else {
        if Render(k) == Render(command.key) { RenderIsInjective(k, command.key, calls); }
        WriteMirrors(db, strings, command, k);
      }
    }
  }

  lemma {:induction false} CommandsMirror(commands: seq<Command<Key>>, calls: iset<string>)
    requires Apart(calls) && UsesOnly(commands, calls)
    ensures MirrorsAll(ExecAll(commands), ExecAll(RenderedAll(commands)), calls)
  {
    if commands != [] {
      var front, last := commands[..|commands| - 1], commands[|commands| - 1];
      CommandsMirror(front, calls);
      CommandMirrors(ExecAll(front), ExecAll(RenderedAll(front)), last, calls);
      assert RenderedAll(commands)[..|commands| - 1] == RenderedAll(front);
    }
  }

  /**
   * The strings follow the structured keys through every sequence of commands on
   * the calls `calls` exactly when no two of those ids collide.
   */
  lemma StringsFollowExactlyWhenApart(calls: iset<string>)
    ensures Apart(calls) <==>
      forall commands | UsesOnly(commands, calls) :: MirrorsAll(ExecAll(commands), ExecAll(RenderedAll(commands)), calls)
  {
    if Apart(calls) {
      forall commands | UsesOnly(commands, calls)
        ensures MirrorsAll(ExecAll(commands), ExecAll(RenderedAll(commands)), calls)
      {
        CommandsMirror(commands, calls);
      }
    } else {
      var a, b :| a in calls && b in calls && a == b + PARTICIPANTS;
      RosterSharesString(a, b, calls);
    }
  }

  /** Writing the hash of the one call shows at the roster of the other. */
  lemma RosterSharesString(a: string, b: string, calls: iset<string>)
    requires a in calls && b in calls && a == b + PARTICIPANTS
    ensures exists commands :: UsesOnly(commands, calls)
              && !MirrorsAll(ExecAll(commands), ExecAll(RenderedAll(commands)), calls)
  {
    var command := HSetCommand(CallKey(a), CallerId, Text("caller"));
    var commands := [command];
    assert commands[..0] == [];
    KeysCollideOnlyOnRosterSuffix(CallKey(a), RosterKey(b));
    assert RenderedAll(commands) == [Rendered(command)] && [Rendered(command)][..0] == [];
    assert InUse(RosterKey(b), calls) && !Mirrors(ExecAll(commands), ExecAll(RenderedAll(commands)), RosterKey(b));
  }

  /** ... and forgetting the one deletes the other. */
  lemma ForgettingOneDeletesTheOther(callId: string)
    ensures var other := callId + PARTICIPANTS;
      var commands := [HSetCommand(CallKey(other), CallerId, Text("caller")), DelCommand({CallKey(callId), RosterKey(callId)})];
      CallKey(other) in ExecAll(commands).hashes && ExecAll(RenderedAll(commands)).hashes == map[]
  {
    var other := callId + PARTICIPANTS;
    var write := HSetCommand(CallKey(other), CallerId, Text("caller"));
    var forget := DelCommand({CallKey(callId), RosterKey(callId)});
    KeysCollideOnlyOnRosterSuffix(CallKey(other), RosterKey(callId));
    TwoRendered(write, forget);
    TwoCommands(write, forget);
    TwoCommands(Rendered(write), Rendered(forget));
    assert Render(RosterKey(callId)) in Rendered(forget).keys;
  }

  lemma TwoCommands<K>(a: Command<K>, b: Command<K>)
    ensures ExecAll([a, b]) == Exec(Exec(Keyspace(map[], map[], map[]), a), b)
  {
    var one, both := [a], [a, b];
    assert both[..1] == one && one[..0] == [];
    assert ExecAll(one) == Exec(ExecAll(one[..0]), a);
    assert ExecAll(both) == Exec(ExecAll(both[..1]), b);
  }

  lemma TwoRendered(a: Command<Key>, b: Command<Key>)
    ensures RenderedAll([a, b]) == [Rendered(a), Rendered(b)]
  {
    var both := [a, b];
    assert both[..1] == [a] && [a][..0] == [];
    assert RenderedAll([a]) == [] + [Rendered(a)] == [Rendered(a)];
    assert RenderedAll(both) == RenderedAll(both[..1]) + [Rendered(both[1])];
  }

  /** Every state of the store, by whatever operations, is mirrored on the strings by the same commands. */
  lemma StoreRunsOnStrings(store: RedisCallStateStore, calls: iset<string>)
    requires store.Valid() && Apart(calls) && UsesOnly(store.log, calls)
    ensures MirrorsAll(store.db, ExecAll(RenderedAll(store.log)), calls)
  {
    CommandsMirror(store.log, calls);
  }
}
