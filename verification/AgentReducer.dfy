/**
 * The client's fold of stream events into messages
 * (src/client/useAgentStream.ts), as far as it concerns text: messages, the
 * text being streamed, and the reasoning text.
 */
module AgentReducer {
  import opened Common
  import opened AgentEmitter

  /** An assistant message; an empty id stands for one the client makes up. `tools` is the ids of its tool calls. */
  datatype Message = Message(id: string, content: string, tools: seq<string>)

  const NO_MESSAGE := Message("", "", [])

  datatype Client = Client(
    messages: seq<Message>,
    streaming: string,
    current: Message,
    reasoning: string,
    error: Option<string>)

  /** The client as a send begins, with the messages it already shows. */
  function Sending(messages: seq<Message>): Client {
    Client(messages, "", NO_MESSAGE, "", None)
  }

  predicate Unflushed(c: Client) {
    c.current.content != "" || c.current.tools != []
  }

  /** The message in progress, if there is one, joins the messages. */
  function Flush(c: Client): Client {
    c.(messages := if Unflushed(c) then c.messages + [c.current] else c.messages, current := NO_MESSAGE, streaming := "")
  }

  function Handle(c: Client, e: Event): Client {
    match e
    case RunStarted(_) => c.(streaming := "", reasoning := "")
    case RunFinished => Flush(c)
    case RunError(message) => c.(error := Some(if message != "" then message else "Agent run failed"))
    case Start(Text, id) => c.(current := c.current.(id := id))
    case Start(Tool, id) => c.(current := c.current.(tools := c.current.tools + [id]))
    case Content(Text, _, delta) =>
      c.(current := c.current.(content := c.current.content + delta), streaming := c.streaming + delta)
    case Content(Reasoning, _, delta) => c.(reasoning := c.reasoning + delta)
    case End(Text, _) => if Unflushed(c) then Flush(c) else c
    case ReasoningChunk(_, delta) => c.(reasoning := c.reasoning + delta)
    case _ => c
  }

  function Fold(c: Client, es: seq<Event>): Client {
    if es == [] then c else Handle(Fold(c, es[..|es| - 1]), es[|es| - 1])
  }

  /** The stream is over: whatever was not closed explicitly is flushed. */
  function Received(c: Client, es: seq<Event>): Client {
    Flush(Fold(c, es))
  }

  // ---- Text ----------------------------------------------------------------------

  function TextOf(ms: seq<Message>): string {
    if ms == [] then "" else TextOf(ms[..|ms| - 1]) + ms[|ms| - 1].content
  }

  function TextDelta(e: Event): string {
    if e.Content? && e.family.Text? then e.delta else ""
  }

  /** The text deltas among the events, joined in order. */
  function TextDeltas(es: seq<Event>): string {
    if es == [] then "" else TextDeltas(es[..|es| - 1]) + TextDelta(es[|es| - 1])
  }

  /** All the text the client holds, flushed or not. */
  function AllText(c: Client): string {
    TextOf(c.messages) + c.current.content
  }

  lemma FlushKeepsText(c: Client)
    ensures AllText(Flush(c)) == AllText(c) == TextOf(Flush(c).messages)
  {
  }

  lemma HandleAddsDelta(c: Client, e: Event)
    ensures AllText(Handle(c, e)) == AllText(c) + TextDelta(e)
  {
  }

  lemma {:induction false} FoldKeepsText(c: Client, es: seq<Event>)
    ensures AllText(Fold(c, es)) == AllText(c) + TextDeltas(es)
  {
    if es != [] {
      var front, last := es[..|es| - 1], es[|es| - 1];
      FoldKeepsText(c, front);
      HandleAddsDelta(Fold(c, front), last);
      assert AllText(c) + (TextDeltas(front) + TextDelta(last)) == (AllText(c) + TextDeltas(front)) + TextDelta(last);
    }
  }

  lemma NoText(c: Client)
    requires c.current == NO_MESSAGE
    ensures AllText(c) == TextOf(c.messages)
  {
  }

  /**
   * Text conservation, for any events whatever: the messages a send adds hold
   * exactly the text deltas received, in order, none lost or doubled.
   */
  lemma {:induction false} TextIsConserved(c: Client, es: seq<Event>)
    requires c.current == NO_MESSAGE
    ensures TextOf(Received(c, es).messages) == TextOf(c.messages) + TextDeltas(es)
    ensures Received(c, es).current == NO_MESSAGE && Received(c, es).streaming == ""
  {
    FoldKeepsText(c, es);
    FlushKeepsText(Fold(c, es));
    NoText(c);
  }

  // ---- Messages only grow, and none is empty ------------------------------------------

  lemma {:induction false} MessagesOnlyGrow(c: Client, es: seq<Event>)
    ensures c.messages <= Fold(c, es).messages
    ensures forall i | |c.messages| <= i < |Fold(c, es).messages| ::
              Fold(c, es).messages[i].content != "" || Fold(c, es).messages[i].tools != []
  {
    if es != [] { MessagesOnlyGrow(c, es[..|es| - 1]); }
  }

  // ---- The streamed text -----------------------------------------------------------------

  predicate IsSuffix(s: string, t: string) {
    |s| <= |t| && t[|t| - |s|..] == s
  }

  /** The text on display is always the end of what is not flushed yet. */
  lemma {:induction false} StreamingIsSuffix(c: Client, es: seq<Event>)
    requires IsSuffix(c.streaming, c.current.content)
    ensures IsSuffix(Fold(c, es).streaming, Fold(c, es).current.content)
  {
    if es != [] { StreamingIsSuffix(c, es[..|es| - 1]); }
  }

  /** No run starts while text is unflushed. */
  ghost predicate StartsClean(c: Client, es: seq<Event>) {
    forall i | 0 <= i < |es| && es[i].RunStarted? :: Fold(c, es[..i]).current.content == ""
  }

  /** Showing all the unflushed text survives an event exactly when it is not a run starting on top of some. */
  lemma StreamingStep(c: Client, e: Event)
    requires c.streaming == c.current.content
    ensures Handle(c, e).streaming == Handle(c, e).current.content <==> !(e.RunStarted? && c.current.content != "")
  {
  }

  /** Everything unflushed is on display as long as runs start clean. */
  lemma {:induction false} StreamingIsUnflushed(c: Client, es: seq<Event>)
    requires c.streaming == c.current.content && StartsClean(c, es)
    ensures Fold(c, es).streaming == Fold(c, es).current.content
  {
    if es != [] {
      var front, last := es[..|es| - 1], es[|es| - 1];
      forall i | 0 <= i < |front| && front[i].RunStarted? ensures Fold(c, front[..i]).current.content == "" {
        assert front[..i] == es[..i];
      }
      StreamingIsUnflushed(c, front);
      assert last.RunStarted? ==> Fold(c, es[..|es| - 1]).current.content == "";
      StreamingStep(Fold(c, front), last);
    }
  }

  /** Under the server's grammar the display is exactly the unflushed text, at every point of a send. */
  lemma GrammarStreamsUnflushed(messages: seq<Message>, fs: seq<Event>, n: nat)
    requires WellFormed(fs) && n <= |fs|
    ensures var c := Fold(Sending(messages), fs[..n]); c.streaming == c.current.content
  {
    var es := fs[..n];
    forall i | 0 <= i < |es| && es[i].RunStarted? ensures Fold(Sending(messages), es[..i]).current.content == "" {
      assert FrameOk(fs, i);
      assert es[..0] == [];
    }
    StreamingIsUnflushed(Sending(messages), es);
  }

  // ---- Composing ---------------------------------------------------------------------------

  lemma FoldOne(c: Client, e: Event)
    ensures Fold(c, [e]) == Handle(c, e)
  {
  }

  lemma {:induction false} FoldConcat(c: Client, a: seq<Event>, b: seq<Event>)
    ensures Fold(c, a + b) == Fold(Fold(c, a), b)
  {
    if b == [] {
      assert a + b == a;
    } else {
      assert (a + b)[..|a + b| - 1] == a + b[..|b| - 1];
      FoldConcat(c, a, b[..|b| - 1]);
    }
  }
}
