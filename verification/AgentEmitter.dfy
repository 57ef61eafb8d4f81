/**
 * The server's event emitter (src/agent-streaming/AgentStream.ts): every call
 * is guarded by the lifecycle state, and either writes one frame or changes
 * nothing.
 */
module AgentEmitter {
  import opened Common

  /** What is opened and closed by id. */
  datatype Family = Text | Tool | Reasoning

  /** `Loose` is every event guarded only by the run having started; its payload is opaque. */
  datatype Event =
    | RunStarted(session: string)
    | RunFinished
    | RunError(message: string)
    | Start(family: Family, id: string)
    | Content(family: Family, id: string, delta: string)
    | End(family: Family, id: string)
    | ToolResult(id: string)
    | ReasoningChunk(id: string, delta: string)
    | StateDelta(patch: string)
    | Loose(kind: string, payload: string)

  predicate Terminal(e: Event) {
    e.RunFinished? || e.RunError?
  }

  /**
   * `closed` is the stream's own flag and `sinkClosed` the transport's;
   * `frames` is what has been written.
   */
  datatype Emitter = Emitter(
    started: bool,
    ended: bool,
    openText: set<string>,
    openTools: set<string>,
    openReasoning: set<string>,
    closed: bool,
    sinkClosed: bool,
    frames: seq<Event>)

  const FRESH := Emitter(false, false, {}, {}, {}, false, false, [])

  function OpenIds(s: Emitter, family: Family): set<string> {
    match family
    case Text => s.openText
    case Tool => s.openTools
    case Reasoning => s.openReasoning
  }

  function Reopened(s: Emitter, family: Family, ids: set<string>): Emitter {
    s.(openText := if family.Text? then ids else s.openText,
       openTools := if family.Tool? then ids else s.openTools,
       openReasoning := if family.Reasoning? then ids else s.openReasoning)
  }

  predicate Closed(s: Emitter) {
    s.closed || s.sinkClosed
  }

  datatype Verdict = Proceed | Benign | Violation

  /** What the validator of `e` finds; `patchOk` is the verdict of the JSON Patch check. */
  predicate Validates(s: Emitter, e: Event, patchOk: bool) {
    match e
    case RunStarted(_) => !s.started && !s.ended
    case RunFinished => s.started && !s.ended
    case RunError(_) => !s.ended
    case Start(family, id) => s.started && id !in OpenIds(s, family)
    case Content(family, id, _) => s.started && id in OpenIds(s, family)
    case End(family, id) => s.started && id in OpenIds(s, family)
    case ToolResult(id) => s.started && id !in s.openTools
    case StateDelta(_) => s.started && patchOk
    case ReasoningChunk(_, _) => s.started
    case Loose(_, _) => s.started
  }

  /** After close every call is a no-op; after the end only a second end is left to its own validator. */
  function Guard(s: Emitter, e: Event, patchOk: bool): Verdict {
    if Closed(s) then Benign
    else if s.ended && !Terminal(e) then Violation
    else if Validates(s, e, patchOk) then Proceed
    else Violation
  }

  /** The lifecycle change a call makes once it proceeds. */
  function Applied(s: Emitter, e: Event): Emitter {
    match e
    case RunStarted(_) => s.(started := true)
    case RunFinished => s.(ended := true)
    case RunError(_) => s.(ended := true)
    case Start(family, id) => Reopened(s, family, OpenIds(s, family) + {id})
    case End(family, id) => Reopened(s, family, OpenIds(s, family) - {id})
    case _ => s
  }

  /** One emitting call; when the transport throws, the frame is lost and the stream closed. */
  function Call(s: Emitter, e: Event, patchOk: bool, written: bool): Emitter {
    if Guard(s, e, patchOk) != Proceed then s
    else if written then Applied(s, e).(frames := s.frames + [e])
    else Applied(s, e).(closed := true, sinkClosed := true)
  }

  function Close(s: Emitter): Emitter {
    s.(closed := true, sinkClosed := s.sinkClosed || !s.closed)
  }

  function Disconnect(s: Emitter): Emitter {
    s.(closed := s.closed || !s.sinkClosed, sinkClosed := true)
  }

  datatype Move =
    | CallMove(event: Event, patchOk: bool, written: bool)
    | CloseMove
    | DisconnectMove

  function Step(s: Emitter, m: Move): Emitter {
    match m
    case CallMove(e, patchOk, written) => Call(s, e, patchOk, written)
    case CloseMove => Close(s)
    case DisconnectMove => Disconnect(s)
  }

  function Run(s: Emitter, moves: seq<Move>): Emitter
    decreases |moves|
  {
    if moves == [] then s else Run(Step(s, moves[0]), moves[1..])
  }

  // ---- The grammar, said of the frames alone -----------------------------------

  /** `id` was opened before position `n` and not closed since. */
  ghost predicate OpenAt(fs: seq<Event>, n: nat, family: Family, id: string)
    requires n <= |fs|
  {
    exists j | 0 <= j < n :: OpenFrom(fs, j, n, family, id)
  }

  ghost predicate OpenFrom(fs: seq<Event>, j: nat, n: nat, family: Family, id: string)
    requires j < n <= |fs|
  {
    fs[j] == Start(family, id) && forall k | j < k < n :: fs[k] != End(family, id)
  }

  /** What may stand at position `i`. */
  ghost predicate FrameOk(fs: seq<Event>, i: nat)
    requires i < |fs|
  {
    && (fs[i].RunStarted? <==> i == 0 && !fs[i].RunError?)
    && (Terminal(fs[i]) ==> i == |fs| - 1)
    && match fs[i]
       case Start(family, id) => !OpenAt(fs, i, family, id)
       case Content(family, id, _) => OpenAt(fs, i, family, id)
       case End(family, id) => OpenAt(fs, i, family, id)
       case ToolResult(id) => !OpenAt(fs, i, Tool, id)
       case _ => true
  }

  /**
   * One run started first, unless all there is is an error; one terminal event
   * at most, with nothing after it; text, reasoning and tool calls opened
   * before their content and closed once; no tool result inside its own open
   * call.
   */
  ghost predicate WellFormed(fs: seq<Event>) {
    forall i | 0 <= i < |fs| :: FrameOk(fs, i)
  }

  // ---- The emitter keeps the grammar --------------------------------------------

  ghost predicate OpenAgrees(s: Emitter, family: Family, id: string) {
    id in OpenIds(s, family) <==> OpenAt(s.frames, |s.frames|, family, id)
  }

  ghost predicate Tracks(s: Emitter) {
    && WellFormed(s.frames)
    && (s.frames == [] ==> !s.started && !s.ended)
    && (s.frames != [] ==> s.started || s.ended)
    && (s.started <==> s.frames != [] && s.frames[0].RunStarted?)
    && (s.ended <==> s.frames != [] && Terminal(s.frames[|s.frames| - 1]))
    && (forall family, id :: OpenAgrees(s, family, id))
  }

  /** While the stream is open the lifecycle state mirrors the frames; closed, it no longer matters. */
  ghost predicate Invariant(s: Emitter) {
    WellFormed(s.frames) && (Closed(s) || Tracks(s))
  }

  lemma OpenAtPrefix(fs: seq<Event>, e: Event, n: nat, family: Family, id: string)
    requires n <= |fs|
    ensures OpenAt(fs + [e], n, family, id) <==> OpenAt(fs, n, family, id)
  {
    var longer := fs + [e];
    if OpenAt(fs, n, family, id) {
      var j :| 0 <= j < n && OpenFrom(fs, j, n, family, id);
      assert OpenFrom(longer, j, n, family, id);
    }
    if OpenAt(longer, n, family, id) {
      var j :| 0 <= j < n && OpenFrom(longer, j, n, family, id);
      assert forall k | j < k < n :: longer[k] == fs[k];
      assert OpenFrom(fs, j, n, family, id);
    }
  }

  lemma OpenAtSnoc(fs: seq<Event>, e: Event, family: Family, id: string)
    ensures OpenAt(fs + [e], |fs| + 1, family, id) <==>
            e == Start(family, id) || (OpenAt(fs, |fs|, family, id) && e != End(family, id))
  {
    var longer, n := fs + [e], |fs|;
    if e == Start(family, id) {
      assert OpenFrom(longer, n, n + 1, family, id);
    } else if OpenAt(fs, n, family, id) && e != End(family, id) {
      var j :| 0 <= j < n && OpenFrom(fs, j, n, family, id);
      assert OpenFrom(longer, j, n + 1, family, id);
    } else if OpenAt(longer, n + 1, family, id) {
      NotReopened(fs, e, family, id);
    }
  }

  lemma NotReopened(fs: seq<Event>, e: Event, family: Family, id: string)
    requires e != Start(family, id) && OpenAt(fs + [e], |fs| + 1, family, id)
    ensures OpenAt(fs, |fs|, family, id) && e != End(family, id)
  {
    var longer, n := fs + [e], |fs|;
    var j :| 0 <= j < n + 1 && OpenFrom(longer, j, n + 1, family, id);
    assert longer[n] == e;
    assert j < n && OpenFrom(longer, j, n, family, id);
    OpenAtPrefix(fs, e, n, family, id);
  }

  lemma WellFormedSnoc(s: Emitter, e: Event, patchOk: bool)
    requires Tracks(s) && Guard(s, e, patchOk) == Proceed
    ensures WellFormed(s.frames + [e])
  {
    var fs, n := s.frames + [e], |s.frames|;
    forall i | 0 <= i < |fs| ensures FrameOk(fs, i) {
      if i < n {
        assert FrameOk(s.frames, i);
        FrameStays(s.frames, e, i);
      } else {
        NewFrameOk(s, e, patchOk);
      }
    }
  }

  lemma FrameStays(fs: seq<Event>, e: Event, i: nat)
    requires i < |fs| && FrameOk(fs, i) && !Terminal(fs[i])
    ensures FrameOk(fs + [e], i)
  {
    match fs[i]
    case Start(family, id) => OpenAtPrefix(fs, e, i, family, id);
    case Content(family, id, _) => OpenAtPrefix(fs, e, i, family, id);
    case End(family, id) => OpenAtPrefix(fs, e, i, family, id);
    case ToolResult(id) => OpenAtPrefix(fs, e, i, Tool, id);
    case _ =>
  }

  lemma NewFrameOk(s: Emitter, e: Event, patchOk: bool)
    requires Tracks(s) && Guard(s, e, patchOk) == Proceed
    ensures FrameOk(s.frames + [e], |s.frames|)
  {
    match e
    case Start(family, id) =>
      assert OpenAgrees(s, family, id);
      OpenAtPrefix(s.frames, e, |s.frames|, family, id);
    case Content(family, id, _) =>
      assert OpenAgrees(s, family, id);
      OpenAtPrefix(s.frames, e, |s.frames|, family, id);
    case End(family, id) =>
      assert OpenAgrees(s, family, id);
      OpenAtPrefix(s.frames, e, |s.frames|, family, id);
    case ToolResult(id) =>
      assert OpenAgrees(s, Tool, id);
      OpenAtPrefix(s.frames, e, |s.frames|, Tool, id);
    case _ =>
  }

  lemma AppliedAgrees(s: Emitter, e: Event, family: Family, id: string)
    requires OpenAgrees(s, family, id)
    ensures OpenAgrees(Applied(s, e).(frames := s.frames + [e]), family, id)
  {
    OpenAtSnoc(s.frames, e, family, id);
  }

  lemma CallKeepsInvariant(s: Emitter, e: Event, patchOk: bool, written: bool)
    requires Invariant(s)
    ensures Invariant(Call(s, e, patchOk, written))
  {
    if Guard(s, e, patchOk) == Proceed && written {
      var s' := Call(s, e, patchOk, written);
      WellFormedSnoc(s, e, patchOk);
      forall family, id ensures OpenAgrees(s', family, id) {
        assert OpenAgrees(s, family, id);
        AppliedAgrees(s, e, family, id);
      }
    }
  }

  lemma {:induction false} RunKeepsInvariant(s: Emitter, moves: seq<Move>)
    requires Invariant(s)
    ensures Invariant(Run(s, moves))
    decreases |moves|
  {
    if moves != [] {
      match moves[0] {
        case CallMove(e, patchOk, written) => CallKeepsInvariant(s, e, patchOk, written);
        case CloseMove =>
        case DisconnectMove =>
      }
      RunKeepsInvariant(Step(s, moves[0]), moves[1..]);
    }
  }

  lemma FreshIsInvariant()
    ensures Invariant(FRESH)
  {
  }

  /** Wire grammar: whatever is called, in whatever order, the frames written are well formed. */
  lemma FramesAreWellFormed(moves: seq<Move>)
    ensures WellFormed(Run(FRESH, moves).frames)
  {
    FreshIsInvariant();
    RunKeepsInvariant(FRESH, moves);
  }

  /** At most one run started and one terminal event, wherever one looks. */
  lemma OneStartOneEnd(fs: seq<Event>, i: nat, j: nat)
    requires WellFormed(fs) && i < j < |fs|
    ensures !(fs[i].RunStarted? && fs[j].RunStarted?) && !Terminal(fs[i])
  {
    assert FrameOk(fs, i) && FrameOk(fs, j);
  }

  // ---- The grammar is exactly what can be emitted ----------------------------------

  function CallsOf(fs: seq<Event>): seq<Move> {
    if fs == [] then [] else CallsOf(fs[..|fs| - 1]) + [CallMove(fs[|fs| - 1], true, true)]
  }

  lemma {:induction false} RunSnoc(s: Emitter, moves: seq<Move>, m: Move)
    ensures Run(s, moves + [m]) == Step(Run(s, moves), m)
    decreases |moves|
  {
    if moves == [] {
      assert [m][1..] == [] && [] + [m] == [m];
    } else {
      assert (moves + [m])[0] == moves[0] && (moves + [m])[1..] == moves[1..] + [m];
      RunSnoc(Step(s, moves[0]), moves[1..], m);
    }
  }

  lemma PrefixIsWellFormed(front: seq<Event>, last: Event)
    requires WellFormed(front + [last])
    ensures WellFormed(front) && (front != [] ==> !Terminal(front[|front| - 1]))
  {
    var fs := front + [last];
    forall i | 0 <= i < |front| ensures FrameOk(front, i) && !Terminal(front[i]) {
      assert FrameOk(fs, i);
      match fs[i] {
        case Start(family, id) => OpenAtPrefix(front, last, i, family, id);
        case Content(family, id, _) => OpenAtPrefix(front, last, i, family, id);
        case End(family, id) => OpenAtPrefix(front, last, i, family, id);
        case ToolResult(id) => OpenAtPrefix(front, last, i, Tool, id);
        case _ =>
      }
    }
  }

  lemma NextFrameProceeds(s: Emitter, e: Event)
    requires Tracks(s) && !Closed(s) && !s.ended && FrameOk(s.frames + [e], |s.frames|)
    ensures Guard(s, e, true) == Proceed
  {
    match e
    case Start(family, id) => FrameOpens(s, e, family, id);
    case Content(family, id, _) => FrameOpens(s, e, family, id);
    case End(family, id) => FrameOpens(s, e, family, id);
    case ToolResult(id) => FrameOpens(s, e, Tool, id);
    case _ =>
  }

  lemma FrameOpens(s: Emitter, e: Event, family: Family, id: string)
    requires Tracks(s)
    ensures OpenAt(s.frames + [e], |s.frames|, family, id) <==> id in OpenIds(s, family)
  {
    assert OpenAgrees(s, family, id);
    OpenAtPrefix(s.frames, e, |s.frames|, family, id);
  }

  lemma {:induction false} GrammarIsEmitted(fs: seq<Event>)
    requires WellFormed(fs)
    ensures var s := Run(FRESH, CallsOf(fs)); s.frames == fs && !Closed(s) && Tracks(s)
  {
    if fs == [] {
      FreshIsInvariant();
    } else {
      var front, last := fs[..|fs| - 1], fs[|fs| - 1];
      assert fs == front + [last];
      PrefixIsWellFormed(front, last);
      GrammarIsEmitted(front);
      var s := Run(FRESH, CallsOf(front));
      assert FrameOk(fs, |front|);
      NextFrameProceeds(s, last);
      CallKeepsInvariant(s, last, true, true);
      RunSnoc(FRESH, CallsOf(front), CallMove(last, true, true));
    }
  }

  /** The grammar is exact: a sequence of frames can be written if and only if it is well formed. */
  lemma EmittedIffWellFormed(fs: seq<Event>)
    ensures WellFormed(fs) <==> exists moves :: Run(FRESH, moves).frames == fs
  {
    if WellFormed(fs) {
      GrammarIsEmitted(fs);
      assert Run(FRESH, CallsOf(fs)).frames == fs;
    }
    forall moves | Run(FRESH, moves).frames == fs ensures WellFormed(fs) {
      FramesAreWellFormed(moves);
    }
  }
}
