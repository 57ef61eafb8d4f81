/**
 * The server-sent-event framing between the agent stream and its client:
 * `data:` frames, comment lines in between (src/agent-streaming/AgentStream.ts,
 * src/agent-streaming/createAgentStream.ts) and the client's line reader
 * (src/client/useAgentStream.ts), which hands on one event per `data:` line.
 *
 * The event encoding is a parameter: any text codec whose output is non-empty,
 * has no newline, does not end in a carriage return, and decodes.
 */
module SseFraming {
  import opened Common

  ghost predicate IsCodec<E(!new)>(enc: E -> string, dec: string -> Option<E>) {
    forall e :: Encodes(enc, dec, e)
  }

  predicate Encodes<E(==)>(enc: E -> string, dec: string -> Option<E>, e: E) {
    var s := enc(e);
    s != "" && '\n' !in s && s[|s| - 1] != '\r' && dec(s) == Some(e)
  }

  // ---- The server's text ------------------------------------------------------

  datatype Item<E> = Frame(event: E) | Heartbeat

  const DATA := "data: "
  const HEARTBEAT := ": hb\n\n"
  const PING := ": ok\n\n"

  function PrintItem<E>(enc: E -> string, item: Item<E>): string {
    match item
    case Frame(e) => DATA + enc(e) + "\n\n"
    case Heartbeat => HEARTBEAT
  }

  function Print<E>(enc: E -> string, items: seq<Item<E>>): string {
    if items == [] then "" else PrintItem(enc, items[0]) + Print(enc, items[1..])
  }

  /** The events among the items, in order. */
  function EventsOf<E>(items: seq<Item<E>>): seq<E> {
    if items == [] then []
    else (if items[0].Frame? then [items[0].event] else []) + EventsOf(items[1..])
  }

  lemma {:induction false} PrintSnoc<E>(enc: E -> string, items: seq<Item<E>>, item: Item<E>)
    ensures Print(enc, items + [item]) == Print(enc, items) + PrintItem(enc, item)
    ensures EventsOf(items + [item]) == EventsOf(items) + if item.Frame? then [item.event] else []
  {
    if items == [] {
      assert [item][1..] == [] && [] + [item] == [item];
      assert PrintItem(enc, item) + "" == "" + PrintItem(enc, item);
    } else {
      assert (items + [item])[0] == items[0] && (items + [item])[1..] == items[1..] + [item];
      PrintSnoc(enc, items[1..], item);
    }
  }

  // ---- The client's reader ------------------------------------------------------

  /** The lines of `text` that a newline ends. */
  function Lines(text: string): seq<string> {
    if text == "" then []
    else
      var front := text[..|text| - 1];
      if text[|text| - 1] == '\n' then Lines(front) + [Rest(front)] else Lines(front)
  }

  /** What follows the last newline of `text`. */
  function Rest(text: string): string {
    if text == "" || text[|text| - 1] == '\n' then "" else Rest(text[..|text| - 1]) + [text[|text| - 1]]
  }

  predicate StartsWith(s: string, prefix: string) {
    prefix <= s
  }

  function StripReturn(line: string): string {
    if line != "" && line[|line| - 1] == '\r' then line[..|line| - 1] else line
  }

  /** The event a line carries, if it is a `data:` line that decodes. */
  function LineEvent<E>(dec: string -> Option<E>, rawLine: string): Option<E> {
    var line := StripReturn(rawLine);
    if line == "" || StartsWith(line, ":") || !StartsWith(line, DATA) || line[|DATA|..] == "" then None
    else dec(line[|DATA|..])
  }

  function LineEvents<E>(dec: string -> Option<E>, lines: seq<string>): seq<E> {
    if lines == [] then []
    else
      var e := LineEvent(dec, lines[|lines| - 1]);
      LineEvents(dec, lines[..|lines| - 1]) + if e.Some? then [e.value] else []
  }

  /** What the client hands on of a whole text. */
  function Parse<E>(dec: string -> Option<E>, text: string): seq<E> {
    LineEvents(dec, Lines(text))
  }

  function Concat(chunks: seq<string>): string {
    if chunks == [] then "" else Concat(chunks[..|chunks| - 1]) + chunks[|chunks| - 1]
  }

  // ---- Lines --------------------------------------------------------------------------

  /** `Lines` and `Rest` split at the newlines: no piece has one, and newline-joined they are the text. */
  lemma LinesAreTheText(text: string)
    ensures forall i | 0 <= i < |Lines(text)| :: '\n' !in Lines(text)[i]
    ensures '\n' !in Rest(text)
    ensures Unlines(Lines(text)) + Rest(text) == text
  {
    LinesHaveNoNewline(text);
    LinesJoin(text);
  }

  lemma {:induction false} LinesHaveNoNewline(text: string)
    ensures forall i | 0 <= i < |Lines(text)| :: '\n' !in Lines(text)[i]
    ensures '\n' !in Rest(text)
  {
    if text != "" { LinesHaveNoNewline(text[..|text| - 1]); }
  }

  lemma {:induction false} LinesJoin(text: string)
    ensures Unlines(Lines(text)) + Rest(text) == text
  {
    if text != "" {
      var front, last := text[..|text| - 1], text[|text| - 1];
      LinesJoin(front);
      assert text == front + [last];
      if last == '\n' {
        UnlinesSnoc(Lines(front), Rest(front));
        assert Unlines(Lines(front)) + (Rest(front) + "\n") == front + "\n";
      } else {
        assert Unlines(Lines(front)) + (Rest(front) + [last]) == front + [last];
      }
    }
  }

  lemma UnlinesSnoc(lines: seq<string>, line: string)
    ensures Unlines(lines + [line]) == Unlines(lines) + (line + "\n")
  {
  }

  function Unlines(lines: seq<string>): string {
    if lines == [] then "" else Unlines(lines[..|lines| - 1]) + (lines[|lines| - 1] + "\n")
  }

  /** Reading on from the unfinished line gives the lines of the whole. */
  lemma {:induction false} LinesConcat(a: string, b: string)
    ensures Lines(a + b) == Lines(a) + Lines(Rest(a) + b)
    ensures Rest(a + b) == Rest(Rest(a) + b)
  {
    if b == "" {
      assert a + b == a && Rest(a) + b == Rest(a);
      NoLines(a);
    } else {
      var front, last := b[..|b| - 1], b[|b| - 1];
      LinesConcat(a, front);
      LinesStep(a, front, last);
      assert b == front + [last];
      Associative(a, front, [last]);
      Associative(Rest(a), front, [last]);
    }
  }

  lemma LinesStep(a: string, front: string, last: char)
    requires Lines(a + front) == Lines(a) + Lines(Rest(a) + front) && Rest(a + front) == Rest(Rest(a) + front)
    ensures Lines((a + front) + [last]) == Lines(a) + Lines((Rest(a) + front) + [last])
    ensures Rest((a + front) + [last]) == Rest((Rest(a) + front) + [last])
  {
  }

  lemma {:induction false} NoLines(a: string)
    ensures Lines(Rest(a)) == [] && Rest(Rest(a)) == Rest(a)
  {
    if a != "" && a[|a| - 1] != '\n' {
      var front, last := a[..|a| - 1], a[|a| - 1];
      NoLines(front);
      assert (Rest(front) + [last])[..|Rest(front)|] == Rest(front);
    }
  }

  lemma {:induction false} LineEventsConcat<E>(dec: string -> Option<E>, a: seq<string>, b: seq<string>)
    ensures LineEvents(dec, a + b) == LineEvents(dec, a) + LineEvents(dec, b)
  {
    if b == [] {
      assert a + b == a;
    } else {
      assert (a + b)[..|a + b| - 1] == a + b[..|b| - 1];
      LineEventsConcat(dec, a, b[..|b| - 1]);
    }
  }

  /** Text that ends a line parses apart from what follows it. */
  lemma ParseConcat<E>(dec: string -> Option<E>, a: string, b: string)
    requires Rest(a) == ""
    ensures Parse(dec, a + b) == Parse(dec, a) + Parse(dec, b) && Rest(a + b) == Rest(b)
  {
    LinesConcat(a, b);
    assert "" + b == b;
    LineEventsConcat(dec, Lines(a), Lines(b));
  }

  // ---- Chunk by chunk -----------------------------------------------------------------

  /** The reader between two chunks: the events handed on, and the unfinished line. */
  datatype Reader<E> = Reader(events: seq<E>, rest: string)

  function Feed<E>(dec: string -> Option<E>, r: Reader<E>, chunk: string): Reader<E> {
    var text := r.rest + chunk;
    Reader(r.events + LineEvents(dec, Lines(text)), Rest(text))
  }

  function FeedAll<E>(dec: string -> Option<E>, chunks: seq<string>): Reader<E> {
    if chunks == [] then Reader([], "") else Feed(dec, FeedAll(dec, chunks[..|chunks| - 1]), chunks[|chunks| - 1])
  }

  /** However the text is cut into chunks, reading them one by one hands on what the whole text parses to. */
  lemma {:induction false} CutsDoNotMatter<E>(dec: string -> Option<E>, chunks: seq<string>)
    ensures FeedAll(dec, chunks) == Reader(Parse(dec, Concat(chunks)), Rest(Concat(chunks)))
  {
    if chunks != [] {
      var front, last := chunks[..|chunks| - 1], chunks[|chunks| - 1];
      CutsDoNotMatter(dec, front);
      LinesConcat(Concat(front), last);
      LineEventsConcat(dec, Lines(Concat(front)), Lines(Rest(Concat(front)) + last));
    }
  }

  lemma {:induction false} NewlineFree(s: string)
    requires '\n' !in s
    ensures Lines(s) == [] && Rest(s) == s
  {
    if s != "" { NewlineFree(s[..|s| - 1]); }
  }

  /** A newline-free line and the empty line that ends its frame. */
  lemma TwoNewlines(s: string)
    requires '\n' !in s
    ensures Lines(s + "\n\n") == [s, ""] && Rest(s + "\n\n") == ""
  {
    NewlineFree(s);
    var one, two := s + "\n", s + "\n\n";
    assert one[..|one| - 1] == s && two[..|two| - 1] == one;
    assert Lines(one) == [s] && Rest(one) == "";
  }

  // ---- What a line says -------------------------------------------------------------------

  /** A `data:` line says what its payload decodes to, with or without a carriage return before its newline. */
  lemma DataLineSaysPayload<E>(dec: string -> Option<E>, payload: string)
    requires payload != "" && payload[|payload| - 1] != '\r'
    ensures LineEvent(dec, DATA + payload) == LineEvent(dec, DATA + payload + "\r") == dec(payload)
  {
    var line := DATA + payload;
    assert line[|line| - 1] == payload[|payload| - 1] && line[|DATA|..] == payload && line[0] == 'd';
    assert (line + "\r")[..|line|] == line;
  }

  /** Comments, other fields, and a `data:` line with nothing after it say nothing. */
  lemma OtherLinesSayNothing<E>(dec: string -> Option<E>, rawLine: string)
    requires !(DATA <= rawLine) || rawLine == DATA || rawLine == DATA + "\r"
    ensures LineEvent(dec, rawLine) == None
  {
    if rawLine == DATA + "\r" { assert rawLine[..|rawLine| - 1] == DATA; }
  }

  // ---- Round trip ------------------------------------------------------------------------

  lemma ParseItem<E>(enc: E -> string, dec: string -> Option<E>, item: Item<E>)
    requires item.Frame? ==> Encodes(enc, dec, item.event)
    ensures Parse(dec, PrintItem(enc, item)) == (if item.Frame? then [item.event] else [])
    ensures Rest(PrintItem(enc, item)) == ""
  {
    if item.Frame? {
      FrameLine(enc, dec, item.event);
      TwoNewlines(DATA + enc(item.event));
      TwoLineEvents(dec, DATA + enc(item.event));
    } else {
      assert HEARTBEAT == ": hb" + "\n\n";
      TwoNewlines(": hb");
      TwoLineEvents(dec, ": hb");
    }
  }

  lemma TwoLineEvents<E>(dec: string -> Option<E>, line: string)
    ensures LineEvents(dec, [line, ""]) == if LineEvent(dec, line).Some? then [LineEvent(dec, line).value] else []
  {
    var two := [line, ""];
    assert two[..|two| - 1] == [line];
    OneLineEvent(dec, line);
    assert LineEvent(dec, "") == None;
  }

  lemma OneLineEvent<E>(dec: string -> Option<E>, line: string)
    ensures LineEvents(dec, [line]) == if LineEvent(dec, line).Some? then [LineEvent(dec, line).value] else []
  {
  }

  lemma FrameLine<E>(enc: E -> string, dec: string -> Option<E>, e: E)
    requires Encodes(enc, dec, e)
    ensures '\n' !in DATA + enc(e) && LineEvent(dec, DATA + enc(e)) == Some(e)
  {
    var line := DATA + enc(e);
    assert line[|line| - 1] == enc(e)[|enc(e)| - 1];
    assert line[|DATA|..] == enc(e);
    assert line[0] == 'd';
  }

  lemma {:induction false} ParsePrint<E(!new)>(enc: E -> string, dec: string -> Option<E>, items: seq<Item<E>>)
    requires IsCodec(enc, dec)
    ensures Parse(dec, Print(enc, items)) == EventsOf(items) && Rest(Print(enc, items)) == ""
  {
    if items != [] {
      assert items[0].Frame? ==> Encodes(enc, dec, items[0].event);
      ParseItem(enc, dec, items[0]);
      ParsePrint(enc, dec, items[1..]);
      ParseConcat(dec, PrintItem(enc, items[0]), Print(enc, items[1..]));
    }
  }

  /** An initial ping that ends its last line and carries no event. */
  ghost predicate SafePing<E>(dec: string -> Option<E>, ping: string) {
    Rest(ping) == "" && Parse(dec, ping) == []
  }

  /** The ping sent by default, and none at all, are safe. */
  lemma DefaultPingIsSafe<E>(dec: string -> Option<E>)
    ensures SafePing(dec, PING) && SafePing(dec, "")
  {
    assert PING == ": ok" + "\n\n";
    TwoNewlines(": ok");
    TwoLineEvents(dec, ": ok");
  }

  /** The whole text, ping and all, parses to exactly the events sent, in order. */
  lemma RoundTrip<E(!new)>(enc: E -> string, dec: string -> Option<E>, ping: string, items: seq<Item<E>>)
    requires IsCodec(enc, dec) && SafePing(dec, ping)
    ensures Parse(dec, ping + Print(enc, items)) == EventsOf(items)
  {
    ParsePrint(enc, dec, items);
    ParseConcat(dec, ping, Print(enc, items));
  }

  /** A stream cut short, at any character, parses to a prefix of its events. */
  lemma CutIsPrefix<E>(dec: string -> Option<E>, cut: string, text: string)
    requires cut <= text
    ensures Parse(dec, cut) <= Parse(dec, text)
  {
    var tail := text[|cut|..];
    assert text == cut + tail;
    LinesConcat(cut, tail);
    LineEventsConcat(dec, Lines(cut), Lines(Rest(cut) + tail));
  }

  /**
   * A one-line comment ping swallows the first frame exactly when it lacks its
   * newline: the frame continues the comment.
   */
  lemma UnendedPingSwallowsFirst<E(!new)>(enc: E -> string, dec: string -> Option<E>, ping: string, items: seq<Item<E>>)
    requires IsCodec(enc, dec) && StartsWith(ping, ":") && '\n' !in ping && items != []
    ensures Parse(dec, ping + Print(enc, items)) == EventsOf(items[1..])
    ensures Parse(dec, (ping + "\n") + Print(enc, items)) == EventsOf(items)
  {
    UnendedFirstLine(enc, dec, ping, items[0]);
    ParsePrint(enc, dec, items[1..]);
    ParseAfter(dec, ping, PrintItem(enc, items[0]), Print(enc, items[1..]));
    EndedPing(dec, ping);
    RoundTrip(enc, dec, ping + "\n", items);
  }

  lemma ParseAfter<E>(dec: string -> Option<E>, a: string, b: string, c: string)
    requires Rest(a + b) == ""
    ensures Parse(dec, a + (b + c)) == Parse(dec, a + b) + Parse(dec, c)
  {
    ParseConcat(dec, a + b, c);
    Associative(a, b, c);
  }

  lemma UnendedFirstLine<E(!new)>(enc: E -> string, dec: string -> Option<E>, ping: string, item: Item<E>)
    requires IsCodec(enc, dec) && StartsWith(ping, ":") && '\n' !in ping
    ensures Parse(dec, ping + PrintItem(enc, item)) == [] && Rest(ping + PrintItem(enc, item)) == ""
  {
    var body := if item.Frame? then DATA + enc(item.event) else ": hb";
    assert item.Frame? ==> Encodes(enc, dec, item.event);
    assert ping + PrintItem(enc, item) == (ping + body) + "\n\n";
    assert (ping + body)[0] == ':';
    TwoNewlines(ping + body);
    CommentLine(dec, ping + body);
    TwoLineEvents(dec, ping + body);
  }

  lemma CommentLine<E>(dec: string -> Option<E>, line: string)
    requires line != "" && line[0] == ':'
    ensures LineEvent(dec, line) == None
  {
  }

  lemma EndedPing<E>(dec: string -> Option<E>, ping: string)
    requires StartsWith(ping, ":") && '\n' !in ping
    ensures SafePing(dec, ping + "\n")
  {
    NewlineFree(ping);
    var text := ping + "\n";
    assert text[..|text| - 1] == ping && Lines(text) == [ping];
    CommentLine(dec, ping);
    OneLineEvent(dec, ping);
  }
}
