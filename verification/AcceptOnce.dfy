/**
 * The end notice across a cluster (src/call/CallService.ts, _announceCallEnded
 * with a store that has `takeAccepted`): any number of nodes share one store,
 * and every await is a point where other nodes run.
 *
 * A node that ends a call first drops its own accepted entry and asks the
 * store for the call's accept marker; the answer arrives later, and the notice
 * goes out later still.
 */
module AcceptOnce {
  import opened Common
  import opened CallStateStore
  import Ops = CallStoreRuns

  datatype Phase = Asking | Holding | Refused | Settled

  /** One end attempt, with what its node knew when it began. */
  datatype Attempt = Attempt(callId: string, accepted: bool, crowded: bool, invited: bool, phase: Phase)

  datatype Notice = StartNotice(callId: string) | EndNotice(callId: string) | MissedNotice(callId: string)

  datatype Cluster = Cluster(store: Store, accepted: set<(nat, string)>, attempts: seq<Attempt>, notices: seq<Notice>)

  const FRESH := Cluster(EMPTY, {}, [], [])

  /** One atomic step of some node, at that node's clock. */
  datatype Move =
    | OnStore(now: int, op: Ops.Op)
    | Lapse(callId: string)
    | AcceptHere(node: nat, callId: string)
    | EndHere(node: nat, callId: string, crowded: bool, invited: bool)
    | Take(now: int, attempt: nat)
    | AnnounceEnd(attempt: nat)
    | SettleRefused(attempt: nat, peerRegistered: bool)

  predicate InPhase(c: Cluster, i: nat, p: Phase) {
    i < |c.attempts| && c.attempts[i].phase == p
  }

  function SetPhase(c: Cluster, i: nat, p: Phase): Cluster
    requires i < |c.attempts|
  {
    c.(attempts := c.attempts[i := c.attempts[i].(phase := p)])
  }

  /** The node's own accepted entry goes first, remembered by the attempt. */
  function BeginEnd(c: Cluster, node: nat, k: string, crowded: bool, invited: bool): Cluster {
    c.(accepted := c.accepted - {(node, k)},
       attempts := c.attempts + [Attempt(k, (node, k) in c.accepted, crowded, invited, Asking)])
  }

  function TakeMarker(c: Cluster, now: int, i: nat): Cluster {
    if !InPhase(c, i, Asking) then c
    else
      var taken := TakeAccepted(c.store, now, c.attempts[i].callId);
      SetPhase(c.(store := taken.0), i, if taken.1 then Holding else Refused)
  }

  function Announce(c: Cluster, i: nat): Cluster {
    if !InPhase(c, i, Holding) then c
    else SetPhase(c, i, Settled).(notices := c.notices + [EndNotice(c.attempts[i].callId)])
  }

  /** Without the marker the attempt is silent, unless this was an invite only this node knew and nobody answered. */
  function SettleWithout(c: Cluster, i: nat, peerRegistered: bool): Cluster {
    if !InPhase(c, i, Refused) then c
    else
      var a := c.attempts[i];
      var silent := a.accepted || a.crowded || peerRegistered || !a.invited;
      SetPhase(c, i, Settled).(notices := if silent then c.notices else c.notices + [MissedNotice(a.callId)])
  }

  function Step(c: Cluster, m: Move): Cluster {
    match m
    case OnStore(now, op) => if op.TakeAcceptedOp? then c else c.(store := Ops.Step(c.store, now, op).0)
    case Lapse(k) => c.(store := c.store.(accepted := c.store.accepted - {k}))
    case AcceptHere(node, k) =>
      if (node, k) in c.accepted then c
      else c.(accepted := c.accepted + {(node, k)}, notices := c.notices + [StartNotice(k)])
    case EndHere(node, k, crowded, invited) => BeginEnd(c, node, k, crowded, invited)
    case Take(now, i) => TakeMarker(c, now, i)
    case AnnounceEnd(i) => Announce(c, i)
    case SettleRefused(i, peerRegistered) => SettleWithout(c, i, peerRegistered)
  }

  function Run(c: Cluster, moves: seq<Move>): Cluster
    decreases |moves|
  {
    if moves == [] then c else Run(Step(c, moves[0]), moves[1..])
  }

  // ---- Counting ---------------------------------------------------------------

  function Count<T(==)>(xs: seq<T>, x: T): nat {
    if xs == [] then 0 else Count(xs[..|xs| - 1], x) + if xs[|xs| - 1] == x then 1 else 0
  }

  /** Attempts on `k` in phase `p`. */
  function Attempts(xs: seq<Attempt>, k: string, p: Phase): nat {
    if xs == [] then 0
    else Attempts(xs[..|xs| - 1], k, p) + One(xs[|xs| - 1], k, p)
  }

  function One(a: Attempt, k: string, p: Phase): nat {
    if a.callId == k && a.phase == p then 1 else 0
  }

  lemma CountSnoc<T>(xs: seq<T>, x: T, y: T)
    ensures Count(xs + [y], x) == Count(xs, x) + if y == x then 1 else 0
  {
  }

  lemma AttemptsSnoc(xs: seq<Attempt>, a: Attempt, k: string, p: Phase)
    ensures Attempts(xs + [a], k, p) == Attempts(xs, k, p) + One(a, k, p)
  {
  }

  lemma {:induction false} AttemptsUpdate(xs: seq<Attempt>, i: nat, a: Attempt, k: string, p: Phase)
    requires i < |xs|
    ensures Attempts(xs[i := a], k, p) + One(xs[i], k, p) == Attempts(xs, k, p) + One(a, k, p)
  {
    var front := xs[..|xs| - 1];
    if i == |xs| - 1 {
      assert xs[i := a][..|xs| - 1] == front;
    } else {
      assert xs[i := a][..|xs| - 1] == front[i := a];
      AttemptsUpdate(front, i, a, k, p);
    }
  }

  /** The marker of `k` went from not live to live: a first accept, or a resume that revived it. */
  function Opens(c: Cluster, m: Move, k: string): nat {
    if m.OnStore? && m.op.callId == k && (m.op.MarkAcceptedOp? || m.op.ResumeOp?)
       && Ops.Step(c.store, m.now, m.op).1.yes && !MarkerLive(c.store, k, m.now)
    then 1 else 0
  }

  /** A marker of `k` was thrown away unannounced: replaced or taken after it expired, lapsed, or forgotten with its call. */
  function Wastes(c: Cluster, m: Move, k: string): nat {
    if k !in c.store.accepted then 0
    else
      match m
      case OnStore(now, op) =>
        if op.callId == k && ((op.ForgetIfUnchangedOp? && Ops.Step(c.store, now, op).1.yes) || Opens(c, m, k) == 1)
        then 1 else 0
      case Lapse(callId) => if callId == k then 1 else 0
      case Take(now, i) =>
        if InPhase(c, i, Asking) && c.attempts[i].callId == k && !MarkerLive(c.store, k, now) then 1 else 0
      case _ => 0
  }

  function Opened(c: Cluster, moves: seq<Move>, k: string): nat
    decreases |moves|
  {
    if moves == [] then 0 else Opens(c, moves[0], k) + Opened(Step(c, moves[0]), moves[1..], k)
  }

  function Wasted(c: Cluster, moves: seq<Move>, k: string): nat
    decreases |moves|
  {
    if moves == [] then 0 else Wastes(c, moves[0], k) + Wasted(Step(c, moves[0]), moves[1..], k)
  }

  /** The successful steps that set the marker, whether or not it was live already. */
  function Sets(c: Cluster, moves: seq<Move>, k: string): nat
    decreases |moves|
  {
    if moves == [] then 0
    else
      (if moves[0].OnStore? && moves[0].op.callId == k && (moves[0].op.MarkAcceptedOp? || moves[0].op.ResumeOp?)
          && Ops.Step(c.store, moves[0].now, moves[0].op).1.yes then 1 else 0)
      + Sets(Step(c, moves[0]), moves[1..], k)
  }

  /** Where the openings of `k` still are: in the store, in a node's hand, or announced. */
  function Balance(c: Cluster, k: string): nat {
    (if k in c.store.accepted then 1 else 0) + Attempts(c.attempts, k, Holding) + Count(c.notices, EndNotice(k))
  }

  // ---- The once-guard ------------------------------------------------------------

  lemma StoreMoveBalances(c: Cluster, now: int, op: Ops.Op, k: string)
    requires !op.TakeAcceptedOp?
    ensures Balance(Step(c, OnStore(now, op)), k) + Wastes(c, OnStore(now, op), k)
            == Balance(c, k) + Opens(c, OnStore(now, op), k)
  {
  }

  lemma TakeBalances(c: Cluster, now: int, i: nat, k: string)
    ensures Balance(TakeMarker(c, now, i), k) + Wastes(c, Take(now, i), k) == Balance(c, k)
  {
    if InPhase(c, i, Asking) {
      AttemptsUpdate(c.attempts, i, TakeMarker(c, now, i).attempts[i], k, Holding);
    }
  }

  /** Settling attempt `i` and telling `told` of its call changes only these two summands. */
  lemma SettledCounts(xs: seq<Attempt>, i: nat, ns: seq<Notice>, told: Notice, k: string)
    requires i < |xs|
    ensures Attempts(xs[i := xs[i].(phase := Settled)], k, Holding) + One(xs[i], k, Holding) == Attempts(xs, k, Holding)
    ensures Count(ns + [told], EndNotice(k)) == Count(ns, EndNotice(k)) + if told == EndNotice(k) then 1 else 0
  {
    AttemptsUpdate(xs, i, xs[i].(phase := Settled), k, Holding);
    CountSnoc(ns, EndNotice(k), told);
  }

  lemma SameCall(a: string, k: string)
    ensures EndNotice(a) == EndNotice(k) <==> a == k
  {
  }

  lemma AnnounceParts(c: Cluster, i: nat)
    requires InPhase(c, i, Holding)
    ensures Announce(c, i) == Cluster(c.store, c.accepted, c.attempts[i := c.attempts[i].(phase := Settled)],
                                      c.notices + [EndNotice(c.attempts[i].callId)])
  {
  }

  lemma SettleParts(c: Cluster, i: nat, peer: bool)
    requires InPhase(c, i, Refused)
    ensures var c', told := SettleWithout(c, i, peer), MissedNotice(c.attempts[i].callId);
      && c' == Cluster(c.store, c.accepted, c.attempts[i := c.attempts[i].(phase := Settled)], c'.notices)
      && (c'.notices == c.notices || c'.notices == c.notices + [told])
  {
  }

  lemma AnnounceBalances(c: Cluster, i: nat, k: string)
    ensures Balance(Announce(c, i), k) == Balance(c, k)
  {
    if InPhase(c, i, Holding) {
      var a := c.attempts[i];
      AnnounceParts(c, i);
      SettledCounts(c.attempts, i, c.notices, EndNotice(a.callId), k);
      SameCall(a.callId, k);
      assert One(a, k, Holding) == if a.callId == k then 1 else 0;
    }
  }

  lemma SettleBalances(c: Cluster, i: nat, peerRegistered: bool, k: string)
    ensures Balance(SettleWithout(c, i, peerRegistered), k) == Balance(c, k)
  {
    if InPhase(c, i, Refused) {
      SettleParts(c, i, peerRegistered);
      SettledCounts(c.attempts, i, c.notices, MissedNotice(c.attempts[i].callId), k);
    }
  }

  lemma StepBalances(c: Cluster, m: Move, k: string)
    ensures Balance(Step(c, m), k) + Wastes(c, m, k) == Balance(c, k) + Opens(c, m, k)
  {
    match m
    case OnStore(now, op) => if !op.TakeAcceptedOp? { StoreMoveBalances(c, now, op, k); }
    case Lapse(callId) =>
    case AcceptHere(node, callId) => CountSnoc(c.notices, EndNotice(k), StartNotice(callId));
    case EndHere(node, callId, crowded, invited) =>
      AttemptsSnoc(c.attempts, Attempt(callId, (node, callId) in c.accepted, crowded, invited, Asking), k, Holding);
    case Take(now, i) => TakeBalances(c, now, i, k);
    case AnnounceEnd(i) => AnnounceBalances(c, i, k);
    case SettleRefused(i, peer) => SettleBalances(c, i, peer, k);
  }

  /**
   * Conservation, over every interleaving and whatever the clocks say: each
   * opening of a call's accept marker is announced once, held by the one node
   * that took it, still in the store, or thrown away.
   */
  lemma {:induction false} OpeningsAreConserved(c: Cluster, moves: seq<Move>, k: string)
    ensures Balance(Run(c, moves), k) + Wasted(c, moves, k) == Balance(c, k) + Opened(c, moves, k)
    decreases |moves|
  {
    if moves != [] {
      StepBalances(c, moves[0], k);
      OpeningsAreConserved(Step(c, moves[0]), moves[1..], k);
    }
  }

  lemma {:induction false} OpeningsAreSets(c: Cluster, moves: seq<Move>, k: string)
    ensures Opened(c, moves, k) <= Sets(c, moves, k)
    decreases |moves|
  {
    if moves != [] { OpeningsAreSets(Step(c, moves[0]), moves[1..], k); }
  }

  /** End notices never outnumber the accepts and resumes that set the call's marker. */
  lemma EndsNeverOutnumberAccepts(moves: seq<Move>, k: string)
    ensures Count(Run(FRESH, moves).notices, EndNotice(k)) <= Opened(FRESH, moves, k) <= Sets(FRESH, moves, k)
  {
    OpeningsAreConserved(FRESH, moves, k);
    OpeningsAreSets(FRESH, moves, k);
  }

  /** Once the marker is consumed, no amount of ending announces again until somebody accepts or resumes. */
  lemma NoEndWithoutOpening(c: Cluster, moves: seq<Move>, k: string)
    requires k !in c.store.accepted && Attempts(c.attempts, k, Holding) == 0 && Opened(c, moves, k) == 0
    ensures Count(Run(c, moves).notices, EndNotice(k)) == Count(c.notices, EndNotice(k))
  {
    OpeningsAreConserved(c, moves, k);
    EndsOnlyGrow(c, moves, k);
  }

  lemma {:induction false} EndsOnlyGrow(c: Cluster, moves: seq<Move>, k: string)
    ensures Count(Run(c, moves).notices, EndNotice(k)) >= Count(c.notices, EndNotice(k))
    decreases |moves|
  {
    if moves != [] {
      forall y { CountSnoc(c.notices, EndNotice(k), y); }
      EndsOnlyGrow(Step(c, moves[0]), moves[1..], k);
    }
  }

  // ---- One attempt, one notice ------------------------------------------------------

  /** Every end and missed notice about `k` came from its own settled attempt. */
  ghost predicate NoticesHaveAttempts(c: Cluster, k: string) {
    Count(c.notices, EndNotice(k)) + Count(c.notices, MissedNotice(k)) <= Attempts(c.attempts, k, Settled)
  }

  /** An attempt settles with one notice about its call, or with none. */
  lemma SettlingKeepsNotices(c: Cluster, i: nat, told: seq<Notice>, k: string)
    requires i < |c.attempts| && c.attempts[i].phase != Settled && NoticesHaveAttempts(c, k)
    requires told in [[], [EndNotice(c.attempts[i].callId)], [MissedNotice(c.attempts[i].callId)]]
    ensures NoticesHaveAttempts(SetPhase(c, i, Settled).(notices := c.notices + told), k)
  {
    AttemptsUpdate(c.attempts, i, c.attempts[i].(phase := Settled), k, Settled);
    if told == [] {
      assert c.notices + told == c.notices;
    } else {
      CountSnoc(c.notices, EndNotice(k), told[0]);
      CountSnoc(c.notices, MissedNotice(k), told[0]);
    }
  }

  lemma StepKeepsNoticesHaveAttempts(c: Cluster, m: Move, k: string)
    requires NoticesHaveAttempts(c, k)
    ensures NoticesHaveAttempts(Step(c, m), k)
  {
    match m
    case OnStore(now, op) =>
    case Lapse(callId) =>
    case AcceptHere(node, callId) =>
      CountSnoc(c.notices, EndNotice(k), StartNotice(callId));
      CountSnoc(c.notices, MissedNotice(k), StartNotice(callId));
    case EndHere(node, callId, crowded, invited) =>
      AttemptsSnoc(c.attempts, Attempt(callId, (node, callId) in c.accepted, crowded, invited, Asking), k, Settled);
    case Take(now, i) => TakeKeepsNotices(c, now, i, k);
    case AnnounceEnd(i) => AnnounceKeepsNotices(c, i, k);
    case SettleRefused(i, peer) => SettleKeepsNotices(c, i, peer, k);
  }

  lemma TakeKeepsNotices(c: Cluster, now: int, i: nat, k: string)
    requires NoticesHaveAttempts(c, k)
    ensures NoticesHaveAttempts(TakeMarker(c, now, i), k)
  {
    if InPhase(c, i, Asking) { AttemptsUpdate(c.attempts, i, TakeMarker(c, now, i).attempts[i], k, Settled); }
  }

  lemma AnnounceKeepsNotices(c: Cluster, i: nat, k: string)
    requires NoticesHaveAttempts(c, k)
    ensures NoticesHaveAttempts(Announce(c, i), k)
  {
    if InPhase(c, i, Holding) {
      AnnounceParts(c, i);
      SettlingKeepsNotices(c, i, [EndNotice(c.attempts[i].callId)], k);
    }
  }

  lemma SettleKeepsNotices(c: Cluster, i: nat, peer: bool, k: string)
    requires NoticesHaveAttempts(c, k)
    ensures NoticesHaveAttempts(SettleWithout(c, i, peer), k)
  {
    if InPhase(c, i, Refused) {
      SettlingKeepsNotices(c, i, [MissedNotice(c.attempts[i].callId)], k);
      SettlingKeepsNotices(c, i, [], k);
      assert c.notices + [] == c.notices;
    }
  }

  lemma {:induction false} NoticesComeFromAttempts(c: Cluster, moves: seq<Move>, k: string)
    requires NoticesHaveAttempts(c, k)
    ensures NoticesHaveAttempts(Run(c, moves), k)
    decreases |moves|
  {
    if moves != [] {
      StepKeepsNoticesHaveAttempts(c, moves[0], k);
      NoticesComeFromAttempts(Step(c, moves[0]), moves[1..], k);
    }
  }
}
