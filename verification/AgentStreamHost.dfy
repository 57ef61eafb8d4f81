/**
 * The emitter and its wrapper as they run (src/agent-streaming/AgentStream.ts,
 * createAgentStream.ts, agentStreamMiddleware.ts): lifecycle sets and flags
 * updated in place, and the response text written piece by piece.
 */
module AgentStreamHost {
  import opened Common
  import opened AgentEmitter
  import opened AgentMiddleware
  import opened SseFraming

  class AgentStream {
    const enc: Event -> string
    const initialPing: string
    /** Development mode: a violation is thrown rather than logged. */
    const strict: bool
    var started: bool
    var ended: bool
    var openTextMessages: set<string>
    var openToolCalls: set<string>
    var openReasoningMessages: set<string>
    var closed: bool
    var sinkClosed: bool
    var heartbeat: bool
    /** The response body so far. */
    var response: string
    ghost var items: seq<Item<Event>>

    ghost function Contents(): Emitter
      reads this
    {
      Emitter(started, ended, openTextMessages, openToolCalls, openReasoningMessages, closed, sinkClosed, EventsOf(items))
    }

    /** The body is the ping, the frames, and the heartbeats in between. */
    ghost predicate Valid()
      reads this
    {
      response == initialPing + Print(enc, items)
    }

    constructor (enc: Event -> string, initialPing: string, strict: bool, heartbeat: bool)
      ensures Valid() && Contents() == FRESH
      ensures this.enc == enc && this.initialPing == initialPing && this.strict == strict
    {
      this.enc, this.initialPing, this.strict, this.heartbeat := enc, initialPing, strict, heartbeat;
      started, ended, closed, sinkClosed := false, false, false, false;
      openTextMessages, openToolCalls, openReasoningMessages := {}, {}, {};
      response, items := initialPing, [];
    }

    // ---- The sink ----

    method MarkClosed()
      modifies `closed, `sinkClosed, `heartbeat
      ensures sinkClosed && closed == (old(closed) || !old(sinkClosed))
      ensures sinkClosed != old(sinkClosed) ==> !heartbeat
    {
      if sinkClosed { return; }
      sinkClosed := true;
      heartbeat := false;
      closed := true;
    }

    /** The client drops the connection. */
    method OnResponseClose()
      requires Valid()
      modifies this
      ensures Contents() == Disconnect(old(Contents())) && Valid()
    {
      MarkClosed();
    }

    method CloseStream()
      requires Valid()
      modifies this
      ensures Contents() == Close(old(Contents())) && Valid()
    {
      if closed { return; }
      closed := true;
      if !sinkClosed { MarkClosed(); }
    }

    /** A heartbeat comment falls between two frames. */
    method OnHeartbeat(written: bool)
      requires Valid()
      modifies this
      ensures Contents() == old(Contents()) && Valid()
    {
      if !heartbeat || sinkClosed { return; }
      if !written {
        heartbeat := false;
        return;
      }
      PrintSnoc(enc, items, Heartbeat);
      Associative(initialPing, Print(enc, items), HEARTBEAT);
      response := response + HEARTBEAT;
      items := items + [Heartbeat];
    }

    /** Print one frame; a transport that throws closes the stream. */
    method Emit(e: Event, written: bool)
      requires Valid() && !closed && !sinkClosed
      modifies `response, `items, `closed, `sinkClosed, `heartbeat
      ensures Valid()
      ensures if written then EventsOf(items) == old(EventsOf(items)) + [e] && !closed && !sinkClosed
              else items == old(items) && closed && sinkClosed
    {
      if !written {
        MarkClosed();
        return;
      }
      var payload := DATA + enc(e) + "\n\n";
      PrintSnoc(enc, items, Frame(e));
      Associative(initialPing, Print(enc, items), payload);
      response := response + payload;
      items := items + [Frame(e)];
    }

    // ---- The guard ----

    /** Whether to go on with the call, and whether it threw instead. */
    method Guarded(e: Event, patchOk: bool) returns (proceed: bool, threw: bool)
      ensures proceed <==> Guard(Contents(), e, patchOk) == Proceed
      ensures threw <==> strict && Guard(Contents(), e, patchOk) == Violation
    {
      if closed || sinkClosed { return false, false; }
      if ended && !Terminal(e) { return false, strict; }
      var valid: bool;
      match e {
        case RunStarted(_) => valid := !started && !ended;
        case RunFinished => valid := started && !ended;
        case RunError(_) => valid := !ended;
        case Start(family, id) => var open := IsOpen(family, id); valid := started && !open;
        case Content(family, id, _) => var open := IsOpen(family, id); valid := started && open;
        case End(family, id) => var open := IsOpen(family, id); valid := started && open;
        case ToolResult(id) => valid := started && id !in openToolCalls;
        case StateDelta(_) => valid := started && patchOk;
        case ReasoningChunk(_, _) => valid := started;
        case Loose(_, _) => valid := started;
      }
      return valid, strict && !valid;
    }

    method IsOpen(family: Family, id: string) returns (open: bool)
      ensures open <==> id in OpenIds(Contents(), family)
    {
      match family {
        case Text => open := id in openTextMessages;
        case Tool => open := id in openToolCalls;
        case Reasoning => open := id in openReasoningMessages;
      }
    }

    /** Any emitting method: guard, lifecycle change, frame. */
    method EmitEvent(e: Event, patchOk: bool, written: bool) returns (threw: bool)
      requires Valid()
      modifies this
      ensures Contents() == Call(old(Contents()), e, patchOk, written) && Valid()
      ensures threw <==> strict && Guard(old(Contents()), e, patchOk) == Violation
    {
      var proceed;
      proceed, threw := Guarded(e, patchOk);
      if !proceed { return; }
      match e {
        case RunStarted(_) => started := true;
        case RunFinished => ended := true;
        case RunError(_) => ended := true;
        case Start(Text, id) => openTextMessages := openTextMessages + {id};
        case Start(Tool, id) => openToolCalls := openToolCalls + {id};
        case Start(Reasoning, id) => openReasoningMessages := openReasoningMessages + {id};
        case End(Text, id) => openTextMessages := openTextMessages - {id};
        case End(Tool, id) => openToolCalls := openToolCalls - {id};
        case End(Reasoning, id) => openReasoningMessages := openReasoningMessages - {id};
        case _ =>
      }
      Emit(e, written);
    }

    // ---- The wrapper ----

    /** Whatever the handler, or anyone it gave the stream to, does with it. */
    method Play(moves: seq<Move>)
      requires Valid()
      modifies this
      ensures Contents() == Run(old(Contents()), moves) && Valid()
    {
      var i := 0;
      while i < |moves|
        invariant 0 <= i <= |moves| && Valid()
        invariant Run(Contents(), moves[i..]) == Run(old(Contents()), moves)
      {
        assert moves[i..][1..] == moves[i + 1..];
        match moves[i] {
          case CallMove(e, patchOk, written) => var _ := EmitEvent(e, patchOk, written);
          case CloseMove => CloseStream();
          case DisconnectMove => OnResponseClose();
        }
        i := i + 1;
      }
    }

    method FailRun(message: string)
      requires Valid()
      modifies this
      ensures Contents() == Fail(old(Contents()), message) && Valid()
    {
      if closed || sinkClosed { return; }
      var _ := EmitEvent(RunError(message), true, true);
      CloseStream();
    }

    method FinishRun()
      requires Valid()
      modifies this
      ensures Contents() == Finish(old(Contents())) && Valid()
    {
      if closed || sinkClosed { return; }
      var _ := EmitEvent(RunFinished, true, true);
      CloseStream();
    }

    /** `for await` over the provider's chunks. */
    method PipeChunks(id: string, chunks: seq<Chunk>) returns (threw: bool)
      requires Valid()
      modifies this
      ensures (Contents(), threw) == Pipe(old(Contents()), strict, id, chunks) && Valid()
    {
      ghost var piped := Pipe(Contents(), strict, id, chunks);
      assert chunks[0..] == chunks;
      threw := false;
      var i := 0;
      while i < |chunks|
        invariant 0 <= i <= |chunks| && Valid() && !threw
        invariant Pipe(Contents(), strict, id, chunks[i..]) == piped
      {
        PipeFrom(Contents(), strict, id, chunks, i);
        Play(chunks[i].meanwhile);
        if closed || sinkClosed { return; }
        threw := EmitEvent(Content(Text, id, chunks[i].text), true, chunks[i].written);
        if threw { return; }
        i := i + 1;
      }
    }

    method PipeText(id: string, text: string)
      requires Valid()
      modifies this
      ensures Contents() == PipeBuffered(old(Contents()), strict, id, text) && Valid()
    {
      var threw := EmitEvent(Start(Text, id), true, true);
      if !threw {
        threw := EmitEvent(Content(Text, id, text), true, true);
        if !threw {
          threw := EmitEvent(End(Text, id), true, true);
        }
      }
      if threw { FailRun(VIOLATION); } else { FinishRun(); }
    }

    method PipeStream(id: string, outcome: Outcome)
      requires Valid() && outcome.Streamed?
      modifies this
      ensures Contents() == PipeStreamed(old(Contents()), strict, id, outcome) && Valid()
    {
      var threw := EmitEvent(Start(Text, id), true, true);
      if threw {
        FailRun(VIOLATION);
        return;
      }
      threw := PipeChunks(id, outcome.chunks);
      if threw {
        FailRun(VIOLATION);
        return;
      }
      if !closed && !sinkClosed { Play(outcome.tail); }
      if outcome.failure.Some? {
        FailRun(outcome.failure.value);
        return;
      }
      if closed || sinkClosed { return; }
      threw := EmitEvent(End(Text, id), true, true);
      if threw { FailRun(VIOLATION); } else { FinishRun(); }
    }

    /** The route: start the run, let the handler work, and end the run however it came out. */
    method Serve(session: string, handler: seq<Move>, id: string, outcome: Outcome)
      requires Valid() && Contents() == FRESH
      modifies this
      ensures Contents() == Middleware(session, strict, handler, id, outcome) && Valid()
    {
      var _ := EmitEvent(RunStarted(session), true, true);
      Play(handler);
      if closed || sinkClosed { return; }
      match outcome {
        case Nothing => FinishRun();
        case Buffered(text) => PipeText(id, text);
        case Streamed(_, _, _) => PipeStream(id, outcome);
        case Thrown(message) => FailRun(message);
      }
    }
  }

  /** The chunk loop one chunk at a time. */
  lemma PipeFrom(s: Emitter, strict: bool, id: string, chunks: seq<Chunk>, i: nat)
    requires i < |chunks|
    ensures Pipe(s, strict, id, chunks[i..]) ==
      var s0, e := Run(s, chunks[i].meanwhile), Content(Text, id, chunks[i].text);
      if Closed(s0) then (s0, false)
      else if Throws(s0, strict, e) then (s0, true)
      else Pipe(Call(s0, e, true, chunks[i].written), strict, id, chunks[i + 1..])
  {
  }
}
