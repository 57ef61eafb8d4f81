/**
 * Exactly which notices a cluster gives about a call: every notice is told by
 * one move whose guard can be read off the state it ran in, so both an end and
 * a missed notice come out exactly when two such moves do.
 */
module AcceptOnceNotices {
  import opened Common
  import opened CallStateStore
  import opened AcceptOnce
  import Ops = CallStoreRuns

  // ---- The guards ---------------------------------------------------------------

  /** A node that holds the marker of `k` announces its end. */
  predicate Ends(c: Cluster, m: Move, k: string) {
    m.AnnounceEnd? && InPhase(c, m.attempt, Holding) && c.attempts[m.attempt].callId == k
  }

  /**
   * An attempt without the marker reports `k` missed: its node knew the invite,
   * had not accepted, saw nobody else in the call, and the store names no peer.
   */
  predicate Misses(c: Cluster, m: Move, k: string) {
    m.SettleRefused? && InPhase(c, m.attempt, Refused) && !m.peerRegistered
    && MayMiss(c.attempts[m.attempt], k)
  }

  predicate MayMiss(a: Attempt, k: string) {
    a.callId == k && a.invited && !a.accepted && !a.crowded
  }

  predicate Tells(c: Cluster, m: Move, n: Notice) {
    match n
    case StartNotice(k) => m.AcceptHere? && m.callId == k && (m.node, k) !in c.accepted
    case EndNotice(k) => Ends(c, m, k)
    case MissedNotice(k) => Misses(c, m, k)
  }

  /** How many of the moves tell `n`. */
  function Told(c: Cluster, moves: seq<Move>, n: Notice): nat
    decreases |moves|
  {
    if moves == [] then 0 else (if Tells(c, moves[0], n) then 1 else 0) + Told(Step(c, moves[0]), moves[1..], n)
  }

  /** Move `i` of the run tells `n`. */
  predicate ToldAt(c: Cluster, moves: seq<Move>, i: nat, n: Notice)
    requires i < |moves|
  {
    Tells(Run(c, moves[..i]), moves[i], n)
  }

  // ---- Every notice is told by one move ----------------------------------------------

  lemma AcceptTells(c: Cluster, m: Move, n: Notice)
    requires m.AcceptHere?
    ensures Count(Step(c, m).notices, n) == Count(c.notices, n) + if Tells(c, m, n) then 1 else 0
  {
    CountSnoc(c.notices, n, StartNotice(m.callId));
  }

  lemma AnnounceTells(c: Cluster, i: nat, n: Notice)
    ensures Count(Announce(c, i).notices, n) == Count(c.notices, n) + if Tells(c, AnnounceEnd(i), n) then 1 else 0
  {
    if InPhase(c, i, Holding) { CountSnoc(c.notices, n, EndNotice(c.attempts[i].callId)); }
  }

  lemma SettleTells(c: Cluster, i: nat, peer: bool, n: Notice)
    ensures Count(SettleWithout(c, i, peer).notices, n)
            == Count(c.notices, n) + if Tells(c, SettleRefused(i, peer), n) then 1 else 0
  {
    if InPhase(c, i, Refused) { CountSnoc(c.notices, n, MissedNotice(c.attempts[i].callId)); }
  }

  lemma StepTells(c: Cluster, m: Move, n: Notice)
    ensures Count(Step(c, m).notices, n) == Count(c.notices, n) + if Tells(c, m, n) then 1 else 0
  {
    match m
    case OnStore(now, op) =>
    case Lapse(k) =>
    case AcceptHere(node, k) => AcceptTells(c, m, n);
    case EndHere(node, k, crowded, invited) =>
    case Take(now, i) =>
    case AnnounceEnd(i) => AnnounceTells(c, i, n);
    case SettleRefused(i, peer) => SettleTells(c, i, peer, n);
  }

  /** Over every interleaving the notices are exactly those the guards let out, start, end and missed alike. */
  lemma {:induction false} NoticesAreTold(c: Cluster, moves: seq<Move>, n: Notice)
    ensures Count(Run(c, moves).notices, n) == Count(c.notices, n) + Told(c, moves, n)
    decreases |moves|
  {
    if moves != [] {
      StepTells(c, moves[0], n);
      NoticesAreTold(Step(c, moves[0]), moves[1..], n);
    }
  }

  lemma ToldLater(c: Cluster, moves: seq<Move>, i: nat, n: Notice)
    requires 0 < i < |moves|
    ensures ToldAt(c, moves, i, n) == ToldAt(Step(c, moves[0]), moves[1..], i - 1, n)
  {
    assert moves[..i][1..] == moves[1..][..i - 1];
  }

  lemma {:induction false} ToldSomewhere(c: Cluster, moves: seq<Move>, n: Notice)
    ensures Told(c, moves, n) > 0 <==> exists i | 0 <= i < |moves| :: ToldAt(c, moves, i, n)
    decreases |moves|
  {
    if moves != [] {
      var c', later := Step(c, moves[0]), moves[1..];
      ToldSomewhere(c', later, n);
      assert moves[..0] == [];
      if Tells(c, moves[0], n) {
        assert ToldAt(c, moves, 0, n);
      } else if Told(c', later, n) > 0 {
        var i :| 0 <= i < |later| && ToldAt(c', later, i, n);
        ToldLater(c, moves, i + 1, n);
      }
      forall i | 0 < i < |moves| && ToldAt(c, moves, i, n) ensures Told(c', later, n) > 0 {
        ToldLater(c, moves, i, n);
      }
    }
  }

  lemma {:induction false} CountIn<T>(xs: seq<T>, x: T)
    ensures Count(xs, x) > 0 <==> x in xs
  {
    if xs != [] {
      CountIn(xs[..|xs| - 1], x);
      assert xs == xs[..|xs| - 1] + [xs[|xs| - 1]];
    }
  }

  /** A notice is out exactly when some move of the run had its guard. */
  lemma NoticeExactlyWhenTold(moves: seq<Move>, n: Notice)
    ensures n in Run(FRESH, moves).notices <==> exists i | 0 <= i < |moves| :: ToldAt(FRESH, moves, i, n)
  {
    NoticesAreTold(FRESH, moves, n);
    ToldSomewhere(FRESH, moves, n);
    CountIn(Run(FRESH, moves).notices, n);
  }

  /**
   * A call is reported both ended and missed exactly when one node announces
   * the end with its marker in hand and another settles an unanswered invite
   * without it.
   */
  lemma EndedAndMissedExactlyWhen(moves: seq<Move>, k: string)
    ensures EndNotice(k) in Run(FRESH, moves).notices && MissedNotice(k) in Run(FRESH, moves).notices
       <==> (exists i | 0 <= i < |moves| :: Ends(Run(FRESH, moves[..i]), moves[i], k))
            && (exists j | 0 <= j < |moves| :: Misses(Run(FRESH, moves[..j]), moves[j], k))
  {
    NoticeExactlyWhenTold(moves, EndNotice(k));
    NoticeExactlyWhenTold(moves, MissedNotice(k));
    forall i | 0 <= i < |moves|
      ensures ToldAt(FRESH, moves, i, EndNotice(k)) == Ends(Run(FRESH, moves[..i]), moves[i], k)
      ensures ToldAt(FRESH, moves, i, MissedNotice(k)) == Misses(Run(FRESH, moves[..i]), moves[i], k)
    {
    }
  }

  // ---- Whose attempt it was -----------------------------------------------------------

  /** Move `t` began attempt `a`: the node's own accepted entry and what it saw, at that moment. */
  ghost predicate Began(moves: seq<Move>, t: nat, a: Attempt)
    requires t < |moves|
  {
    var m := moves[t];
    && m.EndHere? && m.callId == a.callId && m.crowded == a.crowded && m.invited == a.invited
    && a.accepted == ((m.node, m.callId) in Run(FRESH, moves[..t]).accepted)
  }

  ghost predicate HasBeginning(moves: seq<Move>, a: Attempt) {
    exists t | 0 <= t < |moves| :: Began(moves, t, a)
  }

  lemma {:induction false} RunSnoc(c: Cluster, moves: seq<Move>, m: Move)
    ensures Run(c, moves + [m]) == Step(Run(c, moves), m)
    decreases |moves|
  {
    if moves == [] {
      assert [] + [m] == [m] && [m][1..] == [];
    } else {
      assert (moves + [m])[0] == moves[0] && (moves + [m])[1..] == moves[1..] + [m];
      RunSnoc(Step(c, moves[0]), moves[1..], m);
    }
  }

  lemma BeginningStays(moves: seq<Move>, m: Move, a: Attempt, a': Attempt)
    requires HasBeginning(moves, a) && a' == a.(phase := a'.phase)
    ensures HasBeginning(moves + [m], a')
  {
    var t :| 0 <= t < |moves| && Began(moves, t, a);
    assert (moves + [m])[..t] == moves[..t];
    assert Began(moves + [m], t, a');
  }

  /** An attempt is never rewritten but for its phase, and a new one is what an end began. */
  lemma StepAttempt(c: Cluster, m: Move, i: nat)
    requires i < |Step(c, m).attempts|
    ensures if i < |c.attempts| then Step(c, m).attempts[i] == c.attempts[i].(phase := Step(c, m).attempts[i].phase)
            else m.EndHere? && Step(c, m).attempts[i]
                               == Attempt(m.callId, (m.node, m.callId) in c.accepted, m.crowded, m.invited, Asking)
  {
  }

  lemma {:induction false} AttemptsHaveBeginnings(moves: seq<Move>, i: nat)
    requires i < |Run(FRESH, moves).attempts|
    ensures HasBeginning(moves, Run(FRESH, moves).attempts[i])
    decreases |moves|
  {
    if moves != [] {
      var front, m := moves[..|moves| - 1], moves[|moves| - 1];
      var c := Run(FRESH, front);
      assert moves == front + [m];
      RunSnoc(FRESH, front, m);
      StepAttempt(c, m, i);
      if i < |c.attempts| {
        AttemptsHaveBeginnings(front, i);
        BeginningStays(front, m, c.attempts[i], Run(FRESH, moves).attempts[i]);
      } else {
        assert moves[..|front|] == front;
        assert Began(moves, |front|, Run(FRESH, moves).attempts[i]);
      }
    }
  }

  /**
   * Behind every missed notice is a node that ended a call it knew as an
   * invite, alone in it, without having accepted it itself: what another node
   * accepted it does not see once the store has dropped the call.
   */
  lemma MissedNeedsUnansweredInvite(moves: seq<Move>, k: string)
    requires MissedNotice(k) in Run(FRESH, moves).notices
    ensures exists t | 0 <= t < |moves| ::
              moves[t].EndHere? && moves[t].callId == k && moves[t].invited && !moves[t].crowded
              && (moves[t].node, k) !in Run(FRESH, moves[..t]).accepted
  {
    NoticeExactlyWhenTold(moves, MissedNotice(k));
    var j :| 0 <= j < |moves| && ToldAt(FRESH, moves, j, MissedNotice(k));
    var t := BeginningOf(moves, j, moves[j].attempt);
  }

  lemma BeginningOf(moves: seq<Move>, j: nat, i: nat) returns (t: nat)
    requires j <= |moves| && i < |Run(FRESH, moves[..j]).attempts|
    ensures t < |moves| && Began(moves, t, Run(FRESH, moves[..j]).attempts[i])
  {
    var a := Run(FRESH, moves[..j]).attempts[i];
    AttemptsHaveBeginnings(moves[..j], i);
    t :| 0 <= t < j && Began(moves[..j], t, a);
    assert moves[..j][..t] == moves[..t];
  }

  // ---- A run that reaches it ------------------------------------------------------------

  /**
   * The plainest call of two: node 1 accepts, marks the store, and hangs up;
   * word of it reaches the caller's node 0, which forgets a call it only knew
   * as its own invite.
   */
  const ACCEPTER_HANGS_UP: seq<Move> := [
    AcceptHere(1, "call"),
    OnStore(0, Ops.MarkAcceptedOp("call", 1000)),
    EndHere(1, "call", false, true),
    Take(1, 0),
    AnnounceEnd(0),
    EndHere(0, "call", false, true),
    Take(1, 1),
    SettleRefused(1, false)]

  lemma MarkedCluster()
    ensures var c := Step(Step(FRESH, ACCEPTER_HANGS_UP[0]), ACCEPTER_HANGS_UP[1]);
      && c.accepted == {(1, "call")} && c.attempts == [] && c.notices == [StartNotice("call")]
      && c.store.accepted == map["call" := 1000]
  {
  }

  /** Started, ended and missed, all about one call that two people talked in. */
  lemma EndedCallMayAlsoBeMissed()
    ensures Run(FRESH, ACCEPTER_HANGS_UP).notices == [StartNotice("call"), EndNotice("call"), MissedNotice("call")]
  {
    var m := ACCEPTER_HANGS_UP;
    var c1 := Step(FRESH, m[0]);
    var c2 := Step(c1, m[1]);
    MarkedCluster();
    var c3 := Step(c2, m[2]);
    assert c3.attempts == [Attempt("call", true, false, true, Asking)];
    var c4 := Step(c3, m[3]);
    assert c4.attempts == [Attempt("call", true, false, true, Holding)];
    var c5 := Step(c4, m[4]);
    var c6 := Step(c5, m[5]);
    assert c6.attempts == [Attempt("call", true, false, true, Settled), Attempt("call", false, false, true, Asking)];
    var c7 := Step(c6, m[6]);
    assert c7.attempts == [Attempt("call", true, false, true, Settled), Attempt("call", false, false, true, Refused)];
    var c8 := Step(c7, m[7]);
    assert c8.notices == [StartNotice("call"), EndNotice("call"), MissedNotice("call")];
    RunFrom(FRESH, m, 0); RunFrom(c1, m, 1); RunFrom(c2, m, 2); RunFrom(c3, m, 3);
    RunFrom(c4, m, 4); RunFrom(c5, m, 5); RunFrom(c6, m, 6); RunFrom(c7, m, 7);
    assert m[0..] == m && m[8..] == [];
  }

  /** Runs go one move at a time. */
  lemma RunFrom(c: Cluster, m: seq<Move>, i: nat)
    requires i < |m|
    ensures Run(c, m[i..]) == Run(Step(c, m[i]), m[i + 1..])
  {
  }

  // ---- A node's own entry -------------------------------------------------------------------------

  /** The last thing the node did about `k`, of accepting and ending it, was to accept it. */
  predicate AcceptedLast(moves: seq<Move>, node: nat, k: string) {
    if moves == [] then false
    else
      var front, m := moves[..|moves| - 1], moves[|moves| - 1];
      if m.AcceptHere? && m.node == node && m.callId == k then true
      else if m.EndHere? && m.node == node && m.callId == k then false
      else AcceptedLast(front, node, k)
  }

  lemma StepAccepts(c: Cluster, m: Move, node: nat, k: string)
    ensures (node, k) in Step(c, m).accepted
       <==> (m.AcceptHere? && m.node == node && m.callId == k)
            || ((node, k) in c.accepted && !(m.EndHere? && m.node == node && m.callId == k))
  {
  }

  /** A node has its accepted entry exactly when it accepted the call and has not ended it since. */
  lemma {:induction false} AcceptedExactlyWhen(moves: seq<Move>, node: nat, k: string)
    ensures (node, k) in Run(FRESH, moves).accepted <==> AcceptedLast(moves, node, k)
  {
    if moves != [] {
      var front, m := moves[..|moves| - 1], moves[|moves| - 1];
      assert moves == front + [m];
      AcceptedExactlyWhen(front, node, k);
      RunSnoc(FRESH, front, m);
      StepAccepts(Run(FRESH, front), m, node, k);
    }
  }
}
