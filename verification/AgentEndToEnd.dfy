/** From a handler's calls on the server to the messages the client shows. */
module AgentEndToEnd {
  import opened Common
  import opened AgentEmitter
  import opened AgentReducer
  import opened AgentReducerLaws
  import opened AgentMiddleware
  import opened SseFraming

  /**
   * Whatever the server wrote, with heartbeats in between and however the text
   * is cut into chunks, the client handles event for event; and the messages it
   * ends with hold exactly the text sent, in order.
   */
  lemma ServerTextReachesClient(enc: Event -> string, dec: string -> Option<Event>, ping: string,
                                items: seq<Item<Event>>, chunks: seq<string>, before: seq<Message>)
    requires IsCodec(enc, dec) && SafePing(dec, ping) && SseFraming.Concat(chunks) == ping + Print(enc, items)
    ensures var read := FeedAll(dec, chunks).events;
      read == EventsOf(items) && TextOf(Received(Sending(before), read).messages) == TextOf(before) + TextDeltas(EventsOf(items))
  {
    CutsDoNotMatter(dec, chunks);
    RoundTrip(enc, dec, ping, items);
    TextIsConserved(Sending(before), EventsOf(items));
  }

  /**
   * A provider's text, all the way: the handler returned it, the wrapper wrote
   * it, the client read it off the wire, and it closes the last message.
   */
  lemma ProviderTextReachesClient(enc: Event -> string, dec: string -> Option<Event>, ping: string, items: seq<Item<Event>>,
                                  chunks: seq<string>, before: seq<Message>,
                                  s: Emitter, strict: bool, id: string, outcome: Outcome)
    requires IsCodec(enc, dec) && SafePing(dec, ping) && SseFraming.Concat(chunks) == ping + Print(enc, items)
    requires !Closed(s) && s.started && !s.ended && id !in s.openText && Provides(outcome)
    requires EventsOf(items) == Settle(s, strict, id, outcome).frames
    ensures var had := Fold(Sending(before), s.frames);
      var last := Message(id, had.current.content + ChunkText(ProviderChunks(outcome)), had.current.tools);
      Received(Sending(before), FeedAll(dec, chunks).events).messages == WithMessage(had.messages, last)
  {
    CutsDoNotMatter(dec, chunks);
    RoundTrip(enc, dec, ping, items);
    ProviderTextIsLastMessage(s, strict, id, outcome, before);
  }

  /** A response cut short shows the text of a prefix of what was sent, and nothing else. */
  lemma CutTextIsPrefix(enc: Event -> string, dec: string -> Option<Event>, ping: string, items: seq<Item<Event>>,
                        chunks: seq<string>, before: seq<Message>)
    requires IsCodec(enc, dec) && SafePing(dec, ping) && SseFraming.Concat(chunks) <= ping + Print(enc, items)
    ensures var read := FeedAll(dec, chunks).events;
      && read <= EventsOf(items)
      && TextOf(Received(Sending(before), read).messages) == TextOf(before) + TextDeltas(read)
      && TextDeltas(read) <= TextDeltas(EventsOf(items))
  {
    var cut := SseFraming.Concat(chunks);
    CutsDoNotMatter(dec, chunks);
    RoundTrip(enc, dec, ping, items);
    CutIsPrefix(dec, cut, ping + Print(enc, items));
    TextIsConserved(Sending(before), Parse(dec, cut));
    TextDeltasPrefix(EventsOf(items), |Parse(dec, cut)|);
    assert Parse(dec, cut) == EventsOf(items)[..|Parse(dec, cut)|];
  }

  lemma {:induction false} TextDeltasPrefix(es: seq<Event>, n: nat)
    requires n <= |es|
    ensures TextDeltas(es[..n]) <= TextDeltas(es)
    decreases |es|
  {
    if n < |es| {
      TextDeltasPrefix(es[..|es| - 1], n);
      assert es[..|es| - 1][..n] == es[..n];
    } else {
      assert es[..n] == es;
    }
  }
}
