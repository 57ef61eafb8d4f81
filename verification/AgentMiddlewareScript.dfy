/**
 * The run wrapper as one list of calls: started, then the handler's, then what
 * its result asks for, each chunk after whatever others did meanwhile. What is
 * written is what that list writes.
 */
module AgentMiddlewareScript {
  import opened Common
  import opened AgentEmitter
  import opened AgentEmitterReference
  import opened AgentMiddleware

  function Says(e: Event): Move {
    CallMove(e, true, true)
  }

  function ChunkMoves(id: string, chunks: seq<Chunk>): seq<Move> {
    if chunks == [] then []
    else chunks[0].meanwhile + [CallMove(Content(Text, id, chunks[0].text), true, chunks[0].written)]
         + ChunkMoves(id, chunks[1..])
  }

  /** What the result asks for. */
  function Script(id: string, outcome: Outcome): seq<Move> {
    match outcome
    case Nothing => [Says(RunFinished)]
    case Thrown(message) => [Says(RunError(message))]
    case Buffered(text) => [Says(Start(Text, id)), Says(Content(Text, id, text)), Says(End(Text, id)), Says(RunFinished)]
    case Streamed(chunks, tail, failure) =>
      [Says(Start(Text, id))] + ChunkMoves(id, chunks) + tail
      + if failure.Some? then [Says(RunError(failure.value))] else [Says(End(Text, id)), Says(RunFinished)]
  }

  lemma {:induction false} RunConcat(s: Emitter, a: seq<Move>, b: seq<Move>)
    ensures Run(s, a + b) == Run(Run(s, a), b)
    decreases |a|
  {
    if a == [] {
      assert a + b == b;
    } else {
      assert (a + b)[0] == a[0] && (a + b)[1..] == a[1..] + b;
      RunConcat(Step(s, a[0]), a[1..], b);
    }
  }

  lemma RunOne(s: Emitter, m: Move)
    ensures Run(s, [m]) == Step(s, m)
  {
    assert [m][1..] == [];
  }

  /** The chunk loop of a lenient stream is its calls; once closed neither writes any more. */
  lemma {:induction false} PipeIsCalls(s: Emitter, id: string, chunks: seq<Chunk>)
    ensures var piped, ran := Pipe(s, false, id, chunks), Run(s, ChunkMoves(id, chunks));
      !piped.1 && if Closed(piped.0) then Closed(ran) && ran.frames == piped.0.frames else ran == piped.0
    decreases |chunks|
  {
    if chunks != [] {
      var call := CallMove(Content(Text, id, chunks[0].text), true, chunks[0].written);
      var s0 := Run(s, chunks[0].meanwhile);
      var rest := ChunkMoves(id, chunks[1..]);
      Associative(chunks[0].meanwhile, [call], rest);
      RunConcat(s, chunks[0].meanwhile, [call] + rest);
      if Closed(s0) {
        ClosedIsSilent(s0, [call] + rest);
      } else {
        RunConcat(s0, [call], rest);
        RunOne(s0, call);
        PipeIsCalls(Step(s0, call), id, chunks[1..]);
      }
    }
  }

  /** The wrapper's own last call, and the close behind it. */
  lemma LastCall(s: Emitter, e: Event)
    requires Terminal(e)
    ensures (if Closed(s) then s else Close(Say(s, e))).frames == Run(s, [Says(e)]).frames
  {
    RunOne(s, Says(e));
  }

  lemma TwoCalls(s: Emitter, a: Move, b: Move)
    ensures Run(s, [a, b]) == Step(Step(s, a), b)
  {
    assert [a, b][1..] == [b];
    RunOne(Step(s, a), b);
  }

  lemma BufferedIsScript(s: Emitter, id: string, text: string)
    requires !Closed(s)
    ensures Settle(s, false, id, Buffered(text)).frames == Run(s, Script(id, Buffered(text))).frames
  {
    var s1 := Say(s, Start(Text, id));
    var s2 := Say(s1, Content(Text, id, text));
    var s3 := Say(s2, End(Text, id));
    var script := Script(id, Buffered(text));
    assert script[1..][1..][1..] == [Says(RunFinished)];
    assert Run(s, script) == Run(s1, script[1..]) == Run(s2, script[1..][1..]) == Run(s3, [Says(RunFinished)]);
    LastCall(s3, RunFinished);
  }

  /** How a stream's last calls come out. */
  lemma EndingIsScript(s: Emitter, id: string, failure: Option<string>)
    ensures (if failure.Some? then Fail(s, failure.value)
             else if Closed(s) then s else Finish(Say(s, End(Text, id)))).frames
         == Run(s, if failure.Some? then [Says(RunError(failure.value))] else [Says(End(Text, id)), Says(RunFinished)]).frames
  {
    if failure.Some? {
      LastCall(s, RunError(failure.value));
    } else {
      TwoCalls(s, Says(End(Text, id)), Says(RunFinished));
      LastCall(Say(s, End(Text, id)), RunFinished);
      RunOne(Say(s, End(Text, id)), Says(RunFinished));
    }
  }

  lemma StreamedIsScript(s: Emitter, id: string, outcome: Outcome)
    requires !Closed(s) && outcome.Streamed?
    ensures Settle(s, false, id, outcome).frames == Run(s, Script(id, outcome)).frames
  {
    var start, calls := [Says(Start(Text, id))], ChunkMoves(id, outcome.chunks);
    var ending := if outcome.failure.Some? then [Says(RunError(outcome.failure.value))]
                  else [Says(End(Text, id)), Says(RunFinished)];
    var s1 := Say(s, Start(Text, id));
    var piped, ran := Pipe(s1, false, id, outcome.chunks).0, Run(s1, calls);
    RunOne(s, start[0]);
    RunConcat(s, start, calls);
    RunConcat(s, start + calls, outcome.tail);
    RunConcat(s, start + calls + outcome.tail, ending);
    PipeIsCalls(s1, id, outcome.chunks);
    if Closed(piped) {
      ClosedIsSilent(ran, outcome.tail);
      ClosedIsSilent(Run(ran, outcome.tail), ending);
    } else {
      EndingIsScript(Run(ran, outcome.tail), id, outcome.failure);
    }
  }

  lemma SettleIsScript(s: Emitter, id: string, outcome: Outcome)
    ensures Settle(s, false, id, outcome).frames == Run(s, Script(id, outcome)).frames
  {
    if Closed(s) {
      ClosedIsSilent(s, Script(id, outcome));
    } else {
      match outcome
      case Nothing => LastCall(s, RunFinished);
      case Thrown(message) => LastCall(s, RunError(message));
      case Buffered(text) => BufferedIsScript(s, id, text);
      case Streamed(_, _, _) => StreamedIsScript(s, id, outcome);
    }
  }

  /**
   * A lenient run writes what its list of calls writes: RUN_STARTED, whatever
   * the handler called, and what its result asks for, as the grammar admits
   * them, up to wherever somebody closed the stream.
   */
  lemma RunIsItsScript(session: string, handler: seq<Move>, id: string, outcome: Outcome)
    ensures Middleware(session, false, handler, id, outcome).frames
         == RefRun(Reference([], true), [Says(RunStarted(session))] + handler + Script(id, outcome)).frames
  {
    var start := [Says(RunStarted(session))];
    RunConcat(FRESH, start, handler);
    RunOne(FRESH, start[0]);
    RunConcat(FRESH, start + handler, Script(id, outcome));
    SettleIsScript(Run(Say(FRESH, RunStarted(session)), handler), id, outcome);
    EmitterIsItsGrammar(start + handler + Script(id, outcome));
  }

  // ---- Strict ---------------------------------------------------------------------------------

  lemma {:induction false} RunOnlyAdds(s: Emitter, moves: seq<Move>)
    ensures s.frames <= Run(s, moves).frames
    decreases |moves|
  {
    if moves != [] { RunOnlyAdds(Step(s, moves[0]), moves[1..]); }
  }

  lemma {:induction false} PipedStaysWritten(s: Emitter, strict: bool, id: string, chunks: seq<Chunk>, tail: seq<Move>)
    ensures s.frames <= Pipe(s, strict, id, chunks).0.frames <= Run(Pipe(s, strict, id, chunks).0, tail).frames
    decreases |chunks|
  {
    RunOnlyAdds(Pipe(s, strict, id, chunks).0, tail);
    if chunks != [] {
      var s0, e := Run(s, chunks[0].meanwhile), Content(Text, id, chunks[0].text);
      RunOnlyAdds(s, chunks[0].meanwhile);
      if !Closed(s0) && !Throws(s0, strict, e) {
        PipedStaysWritten(Call(s0, e, true, chunks[0].written), strict, id, chunks[1..], tail);
      }
    }
  }

  lemma EndingOnlyAdds(s: Emitter, id: string, message: string)
    ensures s.frames <= Fail(s, message).frames && s.frames <= Finish(s).frames
    ensures s.frames <= Say(s, End(Text, id)).frames
  {
  }

  lemma BufferedOnlyAdds(s: Emitter, strict: bool, id: string, text: string)
    ensures s.frames <= PipeBuffered(s, strict, id, text).frames
  {
    var s1 := Say(s, Start(Text, id));
    var s2 := Say(s1, Content(Text, id, text));
    EndingOnlyAdds(s, id, VIOLATION);
    EndingOnlyAdds(s1, id, VIOLATION);
    EndingOnlyAdds(s2, id, VIOLATION);
    EndingOnlyAdds(Say(s2, End(Text, id)), id, VIOLATION);
  }

  /** What comes after the chunk loop of a stream that was not left by an exception. */
  lemma StreamEndOnlyAdds(s: Emitter, strict: bool, id: string, failure: Option<string>)
    ensures s.frames <= (if failure.Some? then Fail(s, failure.value)
                         else if Closed(s) then s
                         else if Throws(s, strict, End(Text, id)) then Fail(s, VIOLATION)
                         else Finish(Say(s, End(Text, id)))).frames
  {
    if failure.Some? {
      EndingOnlyAdds(s, id, failure.value);
    } else {
      EndingOnlyAdds(s, id, VIOLATION);
      EndingOnlyAdds(Say(s, End(Text, id)), id, VIOLATION);
    }
  }

  lemma StreamedOnlyAdds(s: Emitter, strict: bool, id: string, outcome: Outcome)
    requires outcome.Streamed?
    ensures s.frames <= PipeStreamed(s, strict, id, outcome).frames
  {
    if Throws(s, strict, Start(Text, id)) {
      EndingOnlyAdds(s, id, VIOLATION);
    } else {
      var piped := Pipe(Say(s, Start(Text, id)), strict, id, outcome.chunks);
      PipedStaysWritten(Say(s, Start(Text, id)), strict, id, outcome.chunks, outcome.tail);
      if piped.1 {
        EndingOnlyAdds(piped.0, id, VIOLATION);
      } else {
        StreamEndOnlyAdds(if Closed(piped.0) then piped.0 else Run(piped.0, outcome.tail), strict, id, outcome.failure);
      }
    }
  }

  /** Whatever was written stays written, strict or not, however the result comes out. */
  lemma SettlingOnlyAdds(s: Emitter, strict: bool, id: string, outcome: Outcome)
    ensures s.frames <= Settle(s, strict, id, outcome).frames
  {
    match outcome
    case Nothing => EndingOnlyAdds(s, id, "");
    case Thrown(message) => EndingOnlyAdds(s, id, message);
    case Buffered(text) => BufferedOnlyAdds(s, strict, id, text);
    case Streamed(_, _, _) => StreamedOnlyAdds(s, strict, id, outcome);
  }

  /** Strict, a result whose message id is taken already is not written: the run ends with the violation as its error. */
  lemma TakenIdIsViolation(s: Emitter, id: string, outcome: Outcome)
    requires !Closed(s) && s.started && !s.ended && id in s.openText && (outcome.Buffered? || outcome.Streamed?)
    ensures Settle(s, true, id, outcome).frames == s.frames + [RunError(VIOLATION)]
  {
  }

  /** Strict, a chunk for a message somebody else has ended meanwhile leaves the loop with the violation as the run's error. */
  lemma ChunkAfterEndIsViolation(s: Emitter, id: string, text: string, tail: seq<Move>, failure: Option<string>)
    requires !Closed(s) && s.started && !s.ended && id !in s.openText
    ensures var meanwhile := [Says(End(Text, id))];
      Settle(s, true, id, Streamed([Chunk(meanwhile, text, true)], tail, failure)).frames
      == s.frames + [Start(Text, id), End(Text, id), RunError(VIOLATION)]
  {
    var s1 := Say(s, Start(Text, id));
    RunOne(s1, Says(End(Text, id)));
    assert s.frames + [Start(Text, id)] + [End(Text, id)] + [RunError(VIOLATION)]
        == s.frames + [Start(Text, id), End(Text, id), RunError(VIOLATION)];
  }

  /** Strict, a stream whose message somebody else has ended by the time it is over ends with the violation too. */
  lemma EndAfterEndIsViolation(s: Emitter, id: string)
    requires !Closed(s) && s.started && !s.ended && id !in s.openText
    ensures Settle(s, true, id, Streamed([], [Says(End(Text, id))], None)).frames
         == s.frames + [Start(Text, id), End(Text, id), RunError(VIOLATION)]
  {
    var s1 := Say(s, Start(Text, id));
    RunOne(s1, Says(End(Text, id)));
    assert s.frames + [Start(Text, id)] + [End(Text, id)] + [RunError(VIOLATION)]
        == s.frames + [Start(Text, id), End(Text, id), RunError(VIOLATION)];
  }
}
