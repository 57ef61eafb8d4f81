/**
 * The emitter against its grammar: a reference that keeps nothing but the
 * frames written and whether the stream is open, and decides every call by
 * whether the frames with it would still be well formed.
 */
module AgentEmitterReference {
  import opened Common
  import opened AgentEmitter

  datatype Reference = Reference(frames: seq<Event>, open: bool)

  /** The call's own check, which the frames do not show: a state patch must be one. */
  predicate PatchHolds(e: Event, patchOk: bool) {
    e.StateDelta? ==> patchOk
  }

  ghost function RefStep(r: Reference, m: Move): Reference {
    match m
    case CallMove(e, patchOk, written) =>
      if !r.open || !PatchHolds(e, patchOk) || !WellFormed(r.frames + [e]) then r
      else if written then r.(frames := r.frames + [e])
      else r.(open := false)
    case CloseMove => r.(open := false)
    case DisconnectMove => r.(open := false)
  }

  ghost function RefRun(r: Reference, moves: seq<Move>): Reference
    decreases |moves|
  {
    if moves == [] then r else RefRun(RefStep(r, moves[0]), moves[1..])
  }

  lemma EndedAdmitsNothing(fs: seq<Event>, e: Event)
    requires fs != [] && Terminal(fs[|fs| - 1])
    ensures !WellFormed(fs + [e])
  {
    if WellFormed(fs + [e]) { PrefixIsWellFormed(fs, e); }
  }

  /** A call proceeds exactly when its frame keeps the frames well formed. */
  lemma ProceedsExactlyWhen(s: Emitter, e: Event, patchOk: bool)
    requires Tracks(s) && !Closed(s)
    ensures Guard(s, e, patchOk) == Proceed <==> PatchHolds(e, patchOk) && WellFormed(s.frames + [e])
  {
    if Guard(s, e, patchOk) == Proceed {
      WellFormedSnoc(s, e, patchOk);
    } else if WellFormed(s.frames + [e]) && PatchHolds(e, patchOk) {
      if s.ended { EndedAdmitsNothing(s.frames, e); }
      assert FrameOk(s.frames + [e], |s.frames|);
      NextFrameProceeds(s, e);
    }
  }

  ghost predicate Follows(s: Emitter, r: Reference) {
    s.frames == r.frames && (Closed(s) <==> !r.open) && Invariant(s)
  }

  lemma StepFollows(s: Emitter, r: Reference, m: Move)
    requires Follows(s, r)
    ensures Follows(Step(s, m), RefStep(r, m))
  {
    match m
    case CallMove(e, patchOk, written) =>
      CallKeepsInvariant(s, e, patchOk, written);
      if !Closed(s) { ProceedsExactlyWhen(s, e, patchOk); }
    case CloseMove =>
    case DisconnectMove =>
  }

  lemma {:induction false} RunFollows(s: Emitter, r: Reference, moves: seq<Move>)
    requires Follows(s, r)
    ensures Follows(Run(s, moves), RefRun(r, moves))
    decreases |moves|
  {
    if moves != [] {
      StepFollows(s, r, moves[0]);
      RunFollows(Step(s, moves[0]), RefStep(r, moves[0]), moves[1..]);
    }
  }

  /**
   * Over every sequence of calls, closes and dropped connections, what is
   * written, and when the stream is closed, is what the grammar alone decides.
   */
  lemma EmitterIsItsGrammar(moves: seq<Move>)
    ensures var s, r := Run(FRESH, moves), RefRun(Reference([], true), moves);
      s.frames == r.frames && (Closed(s) <==> !r.open)
  {
    FreshIsInvariant();
    RunFollows(FRESH, Reference([], true), moves);
  }

  /** After a close, a dropped connection or a failed write nothing is written any more. */
  lemma {:induction false} ClosedIsSilent(s: Emitter, moves: seq<Move>)
    requires Closed(s)
    ensures Run(s, moves).frames == s.frames && Closed(Run(s, moves))
    decreases |moves|
  {
    if moves != [] { ClosedIsSilent(Step(s, moves[0]), moves[1..]); }
  }

  /** In every run the stream and its sink are closed together, whichever of them went first. */
  lemma {:induction false} StreamAndSinkCloseTogether(s: Emitter, moves: seq<Move>)
    requires s.closed == s.sinkClosed
    ensures Run(s, moves).closed == Run(s, moves).sinkClosed
    decreases |moves|
  {
    if moves != [] { StreamAndSinkCloseTogether(Step(s, moves[0]), moves[1..]); }
  }
}
