/**
 * What the client makes of a stream besides its text: when a message shows,
 * which tool calls it has, the reasoning so far and the error shown.
 */
module AgentReducerLaws {
  import opened Common
  import opened AgentEmitter
  import opened AgentReducer

  // ---- When a message shows -----------------------------------------------------------------

  /** A text that ends, or a run that finishes, completes the message in progress. */
  predicate Completes(e: Event) {
    e.RunFinished? || (e.End? && e.family.Text?)
  }

  /** `had`, and `m` unless there is nothing in it. */
  function WithMessage(had: seq<Message>, m: Message): seq<Message> {
    if m.content == "" && m.tools == [] then had else had + [m]
  }

  /** A message shows when it is completed, and only then; after that nothing is in progress. */
  lemma MessagesExactly(c: Client, e: Event)
    ensures Handle(c, e).messages == if Completes(e) then WithMessage(c.messages, c.current) else c.messages
    ensures Completes(e) ==> !Unflushed(Handle(c, e))
    ensures !Completes(e) && Unflushed(c) ==> Unflushed(Handle(c, e))
  {
    if e.Content? && e.family.Text? { assert |c.current.content + e.delta| >= |c.current.content|; }
  }

  // ---- Tool calls ------------------------------------------------------------------------------

  function ToolsOf(ms: seq<Message>): seq<string> {
    if ms == [] then [] else ToolsOf(ms[..|ms| - 1]) + ms[|ms| - 1].tools
  }

  function AllTools(c: Client): seq<string> {
    ToolsOf(c.messages) + c.current.tools
  }

  function ToolStart(e: Event): seq<string> {
    if e.Start? && e.family.Tool? then [e.id] else []
  }

  function ToolStarts(es: seq<Event>): seq<string> {
    if es == [] then [] else ToolStarts(es[..|es| - 1]) + ToolStart(es[|es| - 1])
  }

  lemma FlushKeepsTools(c: Client)
    ensures AllTools(Flush(c)) == AllTools(c) == ToolsOf(Flush(c).messages)
  {
  }

  lemma HandleAddsTool(c: Client, e: Event)
    ensures AllTools(Handle(c, e)) == AllTools(c) + ToolStart(e)
  {
    FlushKeepsTools(c);
    assert AllTools(c) + [] == AllTools(c);
    if e.Start? && e.family.Tool? { Associative(ToolsOf(c.messages), c.current.tools, [e.id]); }
  }

  lemma {:induction false} FoldKeepsTools(c: Client, es: seq<Event>)
    ensures AllTools(Fold(c, es)) == AllTools(c) + ToolStarts(es)
  {
    if es == [] {
      assert AllTools(c) + [] == AllTools(c);
    } else {
      var front, last := es[..|es| - 1], es[|es| - 1];
      FoldKeepsTools(c, front);
      HandleAddsTool(Fold(c, front), last);
      Associative(AllTools(c), ToolStarts(front), ToolStart(last));
    }
  }

  /** The messages a send adds have exactly the tool calls started, in order, none lost or doubled. */
  lemma ToolsAreConserved(before: seq<Message>, es: seq<Event>)
    ensures ToolsOf(Received(Sending(before), es).messages) == ToolsOf(before) + ToolStarts(es)
  {
    FoldKeepsTools(Sending(before), es);
    FlushKeepsTools(Fold(Sending(before), es));
    assert ToolsOf(before) + [] == ToolsOf(before);
  }

  // ---- Reasoning and errors -----------------------------------------------------------------------

  function ReasoningDelta(e: Event): string {
    if (e.Content? && e.family.Reasoning?) || e.ReasoningChunk? then e.delta else ""
  }

  /** The reasoning since the last run started. */
  function ReasoningOf(es: seq<Event>): string {
    if es == [] || es[|es| - 1].RunStarted? then "" else ReasoningOf(es[..|es| - 1]) + ReasoningDelta(es[|es| - 1])
  }

  /** The last error there was; an error without a message has a text of its own. */
  function LastError(es: seq<Event>): Option<string> {
    if es == [] then None
    else
      var e := es[|es| - 1];
      if !e.RunError? then LastError(es[..|es| - 1])
      else if e.message == "" then Some("Agent run failed") else Some(e.message)
  }

  lemma HandleReasonsAndFails(c: Client, e: Event)
    ensures Handle(c, e).reasoning == if e.RunStarted? then "" else c.reasoning + ReasoningDelta(e)
    ensures Handle(c, e).error == if !e.RunError? then c.error
                                  else Some(if e.message == "" then "Agent run failed" else e.message)
  {
    assert c.reasoning + "" == c.reasoning;
  }

  /** In every send the reasoning shown is what came since the run started, and the error shown the last one there was. */
  lemma {:induction false} ReasoningAndErrorAreShown(before: seq<Message>, es: seq<Event>)
    ensures var c := Fold(Sending(before), es); c.reasoning == ReasoningOf(es) && c.error == LastError(es)
  {
    if es != [] {
      ReasoningAndErrorAreShown(before, es[..|es| - 1]);
      HandleReasonsAndFails(Fold(Sending(before), es[..|es| - 1]), es[|es| - 1]);
    }
  }
}
