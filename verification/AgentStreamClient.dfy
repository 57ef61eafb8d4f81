/**
 * The client's read loop (src/client/useAgentStream.ts, sendMessage): chunks
 * of text are gathered into lines, and each line's event is folded into the
 * message in progress, in place.
 */
module AgentStreamReading {
  import opened Common
  import opened AgentEmitter
  import opened AgentReducer
  import opened SseFraming

  class AgentStreamClient {
    const dec: string -> Option<Event>
    var messages: seq<Message>
    var streamingText: string
    var current: Message
    var reasoning: string
    var error: Option<string>
    var buffer: string

    ghost function Contents(): Client
      reads this
    {
      Client(messages, streamingText, current, reasoning, error)
    }

    constructor (dec: string -> Option<Event>)
      ensures this.dec == dec && Contents() == Sending([])
    {
      this.dec := dec;
      messages, streamingText, current, reasoning, error, buffer := [], "", NO_MESSAGE, "", None, "";
    }

    method FlushCurrent()
      modifies this
      ensures Contents() == Flush(old(Contents())) && buffer == old(buffer)
    {
      if current.content != "" || current.tools != [] {
        messages := messages + [current];
      }
      current := NO_MESSAGE;
      streamingText := "";
    }

    method HandleEvent(e: Event)
      modifies this
      ensures Contents() == Handle(old(Contents()), e) && buffer == old(buffer)
    {
      match e {
        case RunStarted(_) =>
          streamingText := "";
          reasoning := "";
        case RunFinished => FlushCurrent();
        case RunError(message) => error := Some(if message != "" then message else "Agent run failed");
        case Start(Text, id) => current := current.(id := id);
        case Content(Text, _, delta) =>
          if delta == "" {
            assert current.content + delta == current.content && streamingText + delta == streamingText;
            return;
          }
          current := current.(content := current.content + delta);
          streamingText := streamingText + delta;
        case End(Text, _) =>
          if current.content != "" || current.tools != [] {
            FlushCurrent();
          }
        case Start(Tool, id) => current := current.(tools := current.tools + [id]);
        case Content(Reasoning, _, delta) => reasoning := reasoning + delta;
        case ReasoningChunk(_, delta) => reasoning := reasoning + delta;
        case _ =>
      }
    }

    method HandleLine(rawLine: string)
      modifies this
      ensures Contents() == Fold(old(Contents()), LineEvents(dec, [rawLine])) && buffer == old(buffer)
    {
      OneLineEvent(dec, rawLine);
      NoEvents(Contents());
      var line := if rawLine != "" && rawLine[|rawLine| - 1] == '\r' then rawLine[..|rawLine| - 1] else rawLine;
      if line == "" { return; }
      if StartsWith(line, ":") { return; }
      if !StartsWith(line, DATA) { return; }
      var payload := line[|DATA|..];
      if payload == "" { return; }
      var event := dec(payload);
      if event.Some? {
        FoldOne(Contents(), event.value);
        HandleEvent(event.value);
      }
    }

    /**
     * One send: `chunks` is the response body as it arrives, however it is
     * cut. What the client ends with depends on their text alone.
     */
    method SendMessage(chunks: seq<string>)
      modifies this
      ensures Contents() == Received(Sending(old(messages)), Parse(dec, Concat(chunks)))
    {
      streamingText, reasoning, error, current := "", "", None, NO_MESSAGE;
      ghost var began := Contents();
      buffer := "";
      NoEvents(began);
      var i := 0;
      while i < |chunks|
        invariant 0 <= i <= |chunks|
        invariant buffer == FeedAll(dec, chunks[..i]).rest
        invariant Contents() == Fold(began, FeedAll(dec, chunks[..i]).events)
      {
        assert chunks[..i + 1][..i] == chunks[..i];
        buffer := buffer + chunks[i];
        var lines := Lines(buffer);
        buffer := Rest(buffer);
        HandleLines(lines);
        FoldConcat(began, FeedAll(dec, chunks[..i]).events, LineEvents(dec, lines));
        i := i + 1;
      }
      assert chunks[..i] == chunks;
      CutsDoNotMatter(dec, chunks);
      FlushCurrent();
    }

    method HandleLines(lines: seq<string>)
      modifies this
      ensures Contents() == Fold(old(Contents()), LineEvents(dec, lines)) && buffer == old(buffer)
    {
      NoEvents(Contents());
      var j := 0;
      while j < |lines|
        invariant 0 <= j <= |lines| && buffer == old(buffer)
        invariant Contents() == Fold(old(Contents()), LineEvents(dec, lines[..j]))
      {
        MoreLines(dec, old(Contents()), lines[..j], [lines[j]]);
        assert lines[..j + 1] == lines[..j] + [lines[j]];
        HandleLine(lines[j]);
        j := j + 1;
      }
      assert lines[..j] == lines;
    }
  }

  lemma NoEvents(c: Client)
    ensures Fold(c, []) == c
  {
  }

  lemma {:induction false} MoreLines(dec: string -> Option<Event>, c: Client, a: seq<string>, b: seq<string>)
    ensures Fold(c, LineEvents(dec, a + b)) == Fold(Fold(c, LineEvents(dec, a)), LineEvents(dec, b))
  {
    LineEventsConcat(dec, a, b);
    FoldConcat(c, LineEvents(dec, a), LineEvents(dec, b));
  }
}
