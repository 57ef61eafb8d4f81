/**
 * The run wrapper (src/agent-streaming/agentStreamMiddleware.ts): it starts
 * the run, hands the stream to a handler, pipes what the handler returns, and
 * ends the run whatever happened.
 */
module AgentMiddleware {
  import opened Common
  import opened AgentEmitter
  import opened AgentReducer
  import opened AgentReducerLaws

  /** A chunk the provider yields, after whatever others did with the stream while it was awaited. */
  datatype Chunk = Chunk(meanwhile: seq<Move>, text: string, written: bool)

  /** How the handler came out. `tail` and `failure` are how a provider's stream stops yielding. */
  datatype Outcome =
    | Nothing
    | Buffered(text: string)
    | Streamed(chunks: seq<Chunk>, tail: seq<Move>, failure: Option<string>)
    | Thrown(message: string)

  /** A call of the wrapper's own; with validation strict, a violation throws. */
  predicate Throws(s: Emitter, strict: bool, e: Event) {
    strict && Guard(s, e, true) == Violation
  }

  function Say(s: Emitter, e: Event): Emitter {
    Call(s, e, true, true)
  }

  /** The chunk loop; the flag tells that it was left by an exception. */
  function Pipe(s: Emitter, strict: bool, id: string, chunks: seq<Chunk>): (Emitter, bool)
    decreases |chunks|
  {
    if chunks == [] then (s, false)
    else
      var s0 := Run(s, chunks[0].meanwhile);
      if Closed(s0) then (s0, false)
      else
        var e := Content(Text, id, chunks[0].text);
        if Throws(s0, strict, e) then (s0, true)
        else Pipe(Call(s0, e, true, chunks[0].written), strict, id, chunks[1..])
  }

  /** An error ends a run that is still open. */
  function Fail(s: Emitter, message: string): Emitter {
    if Closed(s) then s else Close(Say(s, RunError(message)))
  }

  /** A run nobody ended is finished. */
  function Finish(s: Emitter): Emitter {
    if Closed(s) then s else Close(Say(s, RunFinished))
  }

  /** The violation a strict emitter reports. */
  const VIOLATION := "[AgentStream]"

  /** The text events of a provider's result; an exception becomes the run's error. */
  function PipeBuffered(s: Emitter, strict: bool, id: string, text: string): Emitter {
    if Throws(s, strict, Start(Text, id)) then Fail(s, VIOLATION)
    else
      var s1 := Say(s, Start(Text, id));
      if Throws(s1, strict, Content(Text, id, text)) then Fail(s1, VIOLATION)
      else
        var s2 := Say(s1, Content(Text, id, text));
        if Throws(s2, strict, End(Text, id)) then Fail(s2, VIOLATION) else Finish(Say(s2, End(Text, id)))
  }

  function PipeStreamed(s: Emitter, strict: bool, id: string, outcome: Outcome): Emitter
    requires outcome.Streamed?
  {
    if Throws(s, strict, Start(Text, id)) then Fail(s, VIOLATION)
    else
      var piped := Pipe(Say(s, Start(Text, id)), strict, id, outcome.chunks);
      if piped.1 then Fail(piped.0, VIOLATION)
      else
        var s1 := if Closed(piped.0) then piped.0 else Run(piped.0, outcome.tail);
        if outcome.failure.Some? then Fail(s1, outcome.failure.value)
        else if Closed(s1) then s1
        else if Throws(s1, strict, End(Text, id)) then Fail(s1, VIOLATION)
        else Finish(Say(s1, End(Text, id)))
  }

  /** `id` is the message id the wrapper makes up. */
  function Settle(s: Emitter, strict: bool, id: string, outcome: Outcome): Emitter {
    if Closed(s) then s
    else
      match outcome
      case Nothing => Finish(s)
      case Buffered(text) => PipeBuffered(s, strict, id, text)
      case Streamed(_, _, _) => PipeStreamed(s, strict, id, outcome)
      case Thrown(message) => Fail(s, message)
  }

  /** The whole run: started, handled, settled. */
  function Middleware(session: string, strict: bool, handler: seq<Move>, id: string, outcome: Outcome): Emitter {
    Settle(Run(Say(FRESH, RunStarted(session)), handler), strict, id, outcome)
  }

  // ---- Nobody else closes -----------------------------------------------------------

  predicate Quiet(moves: seq<Move>) {
    forall i | 0 <= i < |moves| :: moves[i].CallMove? && moves[i].written
  }

  predicate QuietOutcome(outcome: Outcome) {
    outcome.Streamed? ==>
      Quiet(outcome.tail) && forall i | 0 <= i < |outcome.chunks| :: Quiet(outcome.chunks[i].meanwhile) && outcome.chunks[i].written
  }

  /** An open, started run. */
  ghost predicate Running(s: Emitter) {
    Invariant(s) && !Closed(s) && s.started && s.frames != [] && s.frames[0].RunStarted?
  }

  lemma QuietCallKeepsRunning(s: Emitter, e: Event, patchOk: bool)
    requires Running(s)
    ensures Running(Call(s, e, patchOk, true))
  {
    CallKeepsInvariant(s, e, patchOk, true);
  }

  lemma {:induction false} QuietRunKeepsRunning(s: Emitter, moves: seq<Move>)
    requires Running(s) && Quiet(moves)
    ensures Running(Run(s, moves))
    decreases |moves|
  {
    if moves != [] {
      QuietCallKeepsRunning(s, moves[0].event, moves[0].patchOk);
      QuietRunKeepsRunning(Step(s, moves[0]), moves[1..]);
    }
  }

  lemma {:induction false} PipeKeepsRunning(s: Emitter, strict: bool, id: string, chunks: seq<Chunk>)
    requires Running(s) && forall i | 0 <= i < |chunks| :: Quiet(chunks[i].meanwhile) && chunks[i].written
    ensures Running(Pipe(s, strict, id, chunks).0)
    decreases |chunks|
  {
    if chunks != [] {
      var s0 := Run(s, chunks[0].meanwhile);
      var e := Content(Text, id, chunks[0].text);
      QuietRunKeepsRunning(s, chunks[0].meanwhile);
      QuietCallKeepsRunning(s0, e, true);
      if !Throws(s0, strict, e) { PipeKeepsRunning(Say(s0, e), strict, id, chunks[1..]); }
    }
  }

  /** Started first, ended last and only once, and closed. */
  ghost predicate Complete(s: Emitter) {
    && WellFormed(s.frames) && Closed(s)
    && s.frames != [] && s.frames[0].RunStarted? && Terminal(s.frames[|s.frames| - 1])
    && forall i | 0 <= i < |s.frames| - 1 :: !Terminal(s.frames[i])
  }

  lemma EndingCompletes(s: Emitter, e: Event)
    requires Running(s) && Terminal(e)
    ensures Complete(Close(Say(s, e)))
  {
    var s' := Close(Say(s, e));
    CallKeepsInvariant(s, e, true, true);
    assert Tracks(s);
    forall i | 0 <= i < |s'.frames| - 1 ensures !Terminal(s'.frames[i]) {
      assert FrameOk(s'.frames, i);
    }
  }

  lemma BufferedCompletes(s: Emitter, strict: bool, id: string, text: string)
    requires Running(s)
    ensures Complete(PipeBuffered(s, strict, id, text))
  {
    var s1 := Say(s, Start(Text, id));
    var s2 := Say(s1, Content(Text, id, text));
    var s3 := Say(s2, End(Text, id));
    QuietCallKeepsRunning(s, Start(Text, id), true);
    QuietCallKeepsRunning(s1, Content(Text, id, text), true);
    QuietCallKeepsRunning(s2, End(Text, id), true);
    EndingCompletes(s, RunError(VIOLATION));
    EndingCompletes(s1, RunError(VIOLATION));
    EndingCompletes(s2, RunError(VIOLATION));
    EndingCompletes(s3, RunFinished);
  }

  lemma StreamedCompletes(s: Emitter, strict: bool, id: string, outcome: Outcome)
    requires Running(s) && outcome.Streamed? && QuietOutcome(outcome)
    ensures Complete(PipeStreamed(s, strict, id, outcome))
  {
    if Throws(s, strict, Start(Text, id)) {
      EndingCompletes(s, RunError(VIOLATION));
    } else {
      QuietCallKeepsRunning(s, Start(Text, id), true);
      var piped := Pipe(Say(s, Start(Text, id)), strict, id, outcome.chunks);
      PipeKeepsRunning(Say(s, Start(Text, id)), strict, id, outcome.chunks);
      if piped.1 {
        EndingCompletes(piped.0, RunError(VIOLATION));
      } else {
        QuietRunKeepsRunning(piped.0, outcome.tail);
        StreamEndCompletes(Run(piped.0, outcome.tail), strict, id, outcome.failure);
      }
    }
  }

  lemma StreamEndCompletes(s: Emitter, strict: bool, id: string, failure: Option<string>)
    requires Running(s)
    ensures Complete(if failure.Some? then Fail(s, failure.value)
                     else if Throws(s, strict, End(Text, id)) then Fail(s, VIOLATION)
                     else Finish(Say(s, End(Text, id))))
  {
    if failure.Some? {
      EndingCompletes(s, RunError(failure.value));
    } else if Throws(s, strict, End(Text, id)) {
      EndingCompletes(s, RunError(VIOLATION));
    } else {
      QuietCallKeepsRunning(s, End(Text, id), true);
      EndingCompletes(Say(s, End(Text, id)), RunFinished);
    }
  }

  /**
   * Under the wrapper, if nobody else closes the stream, the trace starts with
   * RUN_STARTED and ends with its only terminal event, however the handler
   * came out and whatever it called, with validation strict or not.
   */
  lemma EveryRunIsComplete(session: string, strict: bool, handler: seq<Move>, id: string, outcome: Outcome)
    requires Quiet(handler) && QuietOutcome(outcome)
    ensures Complete(Middleware(session, strict, handler, id, outcome))
  {
    var s0 := Say(FRESH, RunStarted(session));
    FreshIsInvariant();
    CallKeepsInvariant(FRESH, RunStarted(session), true, true);
    var s := Run(s0, handler);
    QuietRunKeepsRunning(s0, handler);
    match outcome
    case Nothing => EndingCompletes(s, RunFinished);
    case Buffered(text) => BufferedCompletes(s, strict, id, text);
    case Streamed(_, _, _) => StreamedCompletes(s, strict, id, outcome);
    case Thrown(message) => EndingCompletes(s, RunError(message));
  }

  /** The terminal event an outcome asks for. */
  function Ending(outcome: Outcome): Event {
    match outcome
    case Thrown(message) => RunError(message)
    case Streamed(_, _, Some(failure)) => RunError(failure)
    case _ => RunFinished
  }

  predicate LastIs(fs: seq<Event>, e: Event) {
    fs != [] && fs[|fs| - 1] == e
  }

  /** A run nobody else ended or disturbed ends with the event its outcome asks for, a handler's or provider's error included. */
  lemma OutcomeIsReported(s: Emitter, strict: bool, id: string, outcome: Outcome)
    requires !Closed(s) && s.started && !s.ended && id !in s.openText
    requires outcome.Streamed? ==> Undisturbed(outcome.chunks) && outcome.tail == []
    ensures LastIs(Settle(s, strict, id, outcome).frames, Ending(outcome))
  {
    match outcome
    case Nothing =>
    case Buffered(text) => ProviderWrites(s, strict, id, outcome);
    case Streamed(chunks, _, None) => ProviderWrites(s, strict, id, outcome);
    case Streamed(chunks, _, Some(failure)) => FailureIsReported(s, strict, id, chunks, failure);
    case Thrown(message) =>
  }

  lemma FailureIsReported(s: Emitter, strict: bool, id: string, chunks: seq<Chunk>, failure: string)
    requires !Closed(s) && s.started && !s.ended && id !in s.openText && Undisturbed(chunks)
    ensures LastIs(PipeStreamed(s, strict, id, Streamed(chunks, [], Some(failure))).frames, RunError(failure))
  {
    var s1 := Say(s, Start(Text, id));
    PipeWrites(s1, strict, id, chunks);
    var s2 := s1.(frames := s1.frames + Contents(id, chunks));
    assert Run(s2, []) == s2;
  }

  // ---- A provider's text is one message ------------------------------------------------

  function ChunkText(chunks: seq<Chunk>): string {
    if chunks == [] then "" else chunks[0].text + ChunkText(chunks[1..])
  }

  /** The frames the wrapper adds for chunks nobody interferes with. */
  function Contents(id: string, chunks: seq<Chunk>): seq<Event> {
    if chunks == [] then [] else [Content(Text, id, chunks[0].text)] + Contents(id, chunks[1..])
  }

  predicate Undisturbed(chunks: seq<Chunk>) {
    forall i | 0 <= i < |chunks| :: chunks[i].meanwhile == [] && chunks[i].written
  }

  lemma {:induction false} PipeWrites(s: Emitter, strict: bool, id: string, chunks: seq<Chunk>)
    requires !Closed(s) && s.started && !s.ended && id in s.openText && Undisturbed(chunks)
    ensures Pipe(s, strict, id, chunks) == (s.(frames := s.frames + Contents(id, chunks)), false)
    decreases |chunks|
  {
    if chunks == [] {
      assert s.frames + [] == s.frames;
    } else {
      var e := Content(Text, id, chunks[0].text);
      PipeWrites(Say(s, e), strict, id, chunks[1..]);
      assert (s.frames + [e]) + Contents(id, chunks[1..]) == s.frames + Contents(id, chunks);
    }
  }

  /** The client while a provider's message comes in. */
  lemma {:induction false} FoldContents(c: Client, id: string, chunks: seq<Chunk>)
    ensures var c' := Fold(c, Contents(id, chunks));
      && c'.messages == c.messages
      && c'.current == c.current.(content := c.current.content + ChunkText(chunks))
    decreases |chunks|
  {
    if chunks == [] {
      assert c.current.content + "" == c.current.content;
    } else {
      var e := Content(Text, id, chunks[0].text);
      var c1 := Handle(c, e);
      FoldOne(c, e);
      FoldConcat(c, [e], Contents(id, chunks[1..]));
      FoldContents(c1, id, chunks[1..]);
      assert (c.current.content + chunks[0].text) + ChunkText(chunks[1..]) == c.current.content + ChunkText(chunks);
    }
  }

  /** What the wrapper writes for a provider's text, up to the end of the run. */
  function ProviderFrames(id: string, chunks: seq<Chunk>): seq<Event> {
    [Start(Text, id)] + Contents(id, chunks) + [End(Text, id)] + [RunFinished]
  }

  /** The provider's result as chunks: buffered text is one. */
  function ProviderChunks(outcome: Outcome): seq<Chunk> {
    match outcome
    case Buffered(text) => [Chunk([], text, true)]
    case Streamed(chunks, _, _) => chunks
    case _ => []
  }

  predicate Provides(outcome: Outcome) {
    outcome.Buffered? || (outcome.Streamed? && Undisturbed(outcome.chunks) && outcome.tail == [] && outcome.failure.None?)
  }

  lemma ProviderWrites(s: Emitter, strict: bool, id: string, outcome: Outcome)
    requires !Closed(s) && s.started && !s.ended && id !in s.openText && Provides(outcome)
    ensures Settle(s, strict, id, outcome).frames == s.frames + ProviderFrames(id, ProviderChunks(outcome))
  {
    var s1 := Say(s, Start(Text, id));
    var chunks := ProviderChunks(outcome);
    assert id in s1.openText;
    PipeWrites(s1, strict, id, chunks);
    var s2 := s1.(frames := s1.frames + Contents(id, chunks));
    if outcome.Buffered? {
      assert [Chunk([], outcome.text, true)][1..] == [];
      assert Contents(id, chunks) == [Content(Text, id, outcome.text)];
      assert Say(s1, Content(Text, id, outcome.text)) == s2;
    }
    assert Settle(s, strict, id, outcome) == Finish(Say(s2, End(Text, id)));
    FrameOrder(s.frames, [Start(Text, id)], Contents(id, chunks), [End(Text, id)], [RunFinished]);
  }

  lemma FrameOrder(fs: seq<Event>, a: seq<Event>, b: seq<Event>, c: seq<Event>, d: seq<Event>)
    ensures fs + a + b + c + d == fs + (a + b + c + d)
  {
  }

  lemma FoldProvider(c: Client, id: string, chunks: seq<Chunk>)
    ensures Fold(c, ProviderFrames(id, chunks)).messages
         == WithMessage(c.messages, Message(id, c.current.content + ChunkText(chunks), c.current.tools))
    ensures !Unflushed(Fold(c, ProviderFrames(id, chunks)))
  {
    var opening, body := [Start(Text, id)], Contents(id, chunks);
    FoldOne(c, Start(Text, id));
    var c1 := Handle(c, Start(Text, id));
    FoldConcat(c, opening, body);
    FoldContents(c1, id, chunks);
    var c2 := Fold(c, opening + body);
    FoldConcat(c, opening + body, [End(Text, id)]);
    FoldOne(c2, End(Text, id));
    FoldConcat(c, opening + body + [End(Text, id)], [RunFinished]);
    FoldOne(Handle(c2, End(Text, id)), RunFinished);
  }

  /**
   * A provider's text, buffered or streamed, ends up in exactly one message:
   * the last, which also takes the text and the tool calls that the handler
   * sent itself and left unflushed, and is left out when all that is nothing.
   */
  lemma ProviderTextIsLastMessage(s: Emitter, strict: bool, id: string, outcome: Outcome, before: seq<Message>)
    requires !Closed(s) && s.started && !s.ended && id !in s.openText && Provides(outcome)
    ensures var had := Fold(Sending(before), s.frames);
      var last := Message(id, had.current.content + ChunkText(ProviderChunks(outcome)), had.current.tools);
      Received(Sending(before), Settle(s, strict, id, outcome).frames).messages == WithMessage(had.messages, last)
  {
    ProviderWrites(s, strict, id, outcome);
    FoldConcat(Sending(before), s.frames, ProviderFrames(id, ProviderChunks(outcome)));
    FoldProvider(Fold(Sending(before), s.frames), id, ProviderChunks(outcome));
  }

  /** ... so it is a message of its own, with nothing else in it, exactly when it is not empty and the handler left nothing. */
  lemma ProviderTextIsOneMessage(s: Emitter, strict: bool, id: string, outcome: Outcome, before: seq<Message>)
    requires !Closed(s) && s.started && !s.ended && id !in s.openText && Provides(outcome)
    ensures var had := Fold(Sending(before), s.frames);
      var text := ChunkText(ProviderChunks(outcome));
      Received(Sending(before), Settle(s, strict, id, outcome).frames).messages == had.messages + [Message(id, text, [])]
      <==> text != "" && !Unflushed(had)
  {
    ProviderTextIsLastMessage(s, strict, id, outcome, before);
    var had := Fold(Sending(before), s.frames);
    var text := ChunkText(ProviderChunks(outcome));
    assert had.current.content == "" ==> had.current.content + text == text;
    var messages := WithMessage(had.messages, Message(id, had.current.content + text, had.current.tools));
    if messages == had.messages + [Message(id, text, [])] {
      assert messages[|had.messages|] == Message(id, text, []);
      assert |had.current.content + text| == |text|;
    }
  }
}
