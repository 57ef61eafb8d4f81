/**
 * What each reader of a DM name answers, exactly: which names it takes, and
 * what they must be made of (src/call/lobbyChannel.ts, src/chat/dmChannels.ts).
 */
module DmNameLaws {
  import opened Common
  import opened Segments
  import opened DmNames

  // ---- Reading a list of members --------------------------------------------------------

  /** Ids a joined list can be read back from. */
  predicate Listable(ids: seq<string>) {
    ids != [] && AllColonFree(ids) && "" !in ids
  }

  /** A text splits into listable ids exactly when it is those ids joined. */
  lemma SplitExactly(text: string, ids: seq<string>)
    ensures Listable(ids) ==> (Split(text) == ids <==> text == Join(ids))
    ensures "" !in Split(text) ==> Listable(Split(text))
    ensures Join(Split(text)) == text
  {
    JoinSplit(text);
    SplitIsColonFree(text);
    if Listable(ids) { SplitJoin(ids); }
  }

  lemma AfterPrefix(prefix: string, text: string, rest: string)
    ensures prefix <= text && text[|prefix|..] == rest <==> text == prefix + rest
  {
    if prefix <= text && text[|prefix|..] == rest {
      assert text == text[..|prefix|] + text[|prefix|..];
    }
  }

  // ---- Lobby names under a named prefix -----------------------------------------------------

  lemma NotBothKinds(lobby: string, prefix: string)
    ensures !(prefix + "dm:" <= lobby && prefix + "dmg:" <= lobby)
  {
    assert (prefix + "dm:")[|prefix| + 2] == ':' && (prefix + "dmg:")[|prefix| + 2] == 'g';
    if prefix + "dm:" <= lobby { assert lobby[|prefix| + 2] == ':'; }
  }

  /** Under a named prefix a name parses to a DM exactly when it is that prefix, `dm:` and two or more ids joined. */
  lemma NamedDmExactly(lobby: string, prefix: string, p: string, members: seq<string>)
    ensures ParseDmLobby(lobby, Some(prefix)) == Some(Dm(p, members))
       <==> p == prefix && |members| >= 2 && Listable(members) && lobby == prefix + "dm:" + Join(members)
  {
    var head := prefix + "dm:";
    NotBothKinds(lobby, prefix);
    AfterPrefix(head, lobby, Join(members));
    if head <= lobby { SplitExactly(lobby[|head|..], members); }
  }

  /** ... and to a hashed group exactly when it is that prefix, `dmg:` and one segment. */
  lemma NamedGroupExactly(lobby: string, prefix: string, p: string, hash: string)
    ensures ParseDmLobby(lobby, Some(prefix)) == Some(Dmg(p, hash))
       <==> p == prefix && hash != "" && ColonFree(hash) && lobby == prefix + "dmg:" + hash
  {
    AfterPrefix(prefix + "dmg:", lobby, hash);
    assert prefix + "dmg:" <= lobby ==> lobby != "";
  }

  /** Without naming it, a name parses to a DM exactly when some tenant prefix, `dm:` and two or more ids make it up. */
  lemma FoundDmExactly(lobby: string, p: string, members: seq<string>)
    ensures ParseDmLobby(lobby, None) == Some(Dm(p, members))
       <==> TenantPrefix(p) && |members| >= 2 && Listable(members) && lobby == p + "dm:" + Join(members)
  {
    if ParseDmLobby(lobby, None) == Some(Dm(p, members)) {
      ParsedPrefixIsTenant(lobby);
      ParsedSpellsLobby(lobby, None);
      FoundMembers(lobby);
    } else if TenantPrefix(p) && |members| >= 2 && Listable(members) && lobby == p + "dm:" + Join(members) {
      SplitJoin(members);
      PrintedParses(p, members);
    }
  }

  lemma FoundMembers(lobby: string)
    requires ParseDmLobby(lobby, None).Some? && ParseDmLobby(lobby, None).value.Dm?
    ensures |ParseDmLobby(lobby, None).value.members| >= 2 && Listable(ParseDmLobby(lobby, None).value.members)
  {
    var segments := Split(lobby);
    KindIndexIsFirst(segments, 0);
    SplitExactly(Join(segments[KindIndex(segments, 0).value + 1..]), []);
  }

  // ---- Printing and admission ------------------------------------------------------------------

  /** Printing fails exactly when an id has the separator in it. */
  lemma NameIsRefusedExactly(userIds: seq<string>, prefix: string)
    ensures DmLobbyName(userIds, prefix).None? <==> exists i | 0 <= i < |userIds| :: !ColonFree(userIds[i])
  {
    var ids := MemberIds(userIds);
    MemberIdsOf(userIds);
    if i :| 0 <= i < |userIds| && !ColonFree(userIds[i]) {
      assert userIds[i] in Elements(ids);
      var j :| 0 <= j < |ids| && ids[j] == userIds[i];
    }
    if j :| 0 <= j < |ids| && !ColonFree(ids[j]) {
      assert ids[j] in Elements(ids) && ids[j] in Elements(userIds);
      var i :| 0 <= i < |userIds| && userIds[i] == ids[j];
    }
  }

  /** The guard answers only for names under its prefix, and admits whoever is listed after `dm:`. */
  lemma AdmitsExactly(lobby: string, userId: string, prefix: string, rest: string)
    ensures lobby == prefix + "dm:" + rest ==> DmLobbyAdmits(lobby, userId, prefix) == Some(userId != "" && userId in Split(rest))
    ensures lobby == prefix + "dm" ==> DmLobbyAdmits(lobby, userId, prefix) == Some(false)
    ensures !(prefix + "dm:" <= lobby) && lobby != prefix + "dm" ==> DmLobbyAdmits(lobby, userId, prefix) == None
  {
    if lobby == prefix + "dm:" + rest {
      assert lobby[|prefix|..] == "dm:" + rest && ("dm:" + rest)[3..] == rest;
      InNonEmpty(Split(rest), userId);
    } else if lobby == prefix + "dm" {
      assert lobby[|prefix|..] == "dm";
      assert NonEmpty([""]) == [];
    } else if prefix <= lobby && !(prefix + "dm:" <= lobby) {
      NotUnderPrefix(lobby, prefix);
    }
  }

  lemma NotUnderPrefix(lobby: string, prefix: string)
    requires prefix <= lobby
    ensures "dm:" <= lobby[|prefix|..] ==> prefix + "dm:" <= lobby
    ensures lobby[|prefix|..] == "dm" ==> lobby == prefix + "dm"
  {
    assert lobby == prefix + lobby[|prefix|..];
  }

  lemma InNonEmpty(xs: seq<string>, x: string)
    ensures x in NonEmpty(xs) <==> x in xs && x != ""
  {
    NonEmptyElements(xs);
    assert x in NonEmpty(xs) <==> x in Elements(NonEmpty(xs));
    assert x in xs <==> x in Elements(xs);
  }

  // ---- Channels -------------------------------------------------------------------------------------

  /** A channel and a lobby name each other: the two readers are inverse to each other. */
  lemma ChannelsAndLobbiesPair(channel: string, lobby: string)
    ensures LobbyForChannel(channel) == Some(lobby) <==> ChannelForLobby(lobby) == Some(channel)
    ensures ChannelForLobby(lobby).Some? <==> "dm:" <= lobby || "dmg:" <= lobby || "room:" <= lobby
  {
    if LobbyForChannel(channel) == Some(lobby) {
      LobbyOfChannel(channel);
    }
    if ChannelForLobby(lobby) == Some(channel) {
      ChannelOfLobbyReads(lobby);
    }
  }

  lemma LobbyOfChannel(channel: string)
    requires LobbyForChannel(channel).Some?
    ensures ChannelForLobby(LobbyForChannel(channel).value) == Some(channel)
  {
    if "chat:dmg:" <= channel || "chat:dm:" <= channel {
      assert channel == "chat:" + channel[5..];
      assert "chat:dmg:" <= channel ==> "dmg:" <= channel[5..];
      assert "chat:dm:" <= channel ==> "dm:" <= channel[5..];
    } else {
      assert channel[0] == 'r';
    }
  }

  lemma ChannelOfLobbyReads(lobby: string)
    requires ChannelForLobby(lobby).Some?
    ensures LobbyForChannel(ChannelForLobby(lobby).value) == Some(lobby)
  {
    var channel := ChannelForLobby(lobby).value;
    if "dmg:" <= lobby || "dm:" <= lobby {
      assert channel[5..] == lobby;
      assert "dmg:" <= lobby ==> "chat:dmg:" <= channel;
      assert "dm:" <= lobby ==> "chat:dm:" <= channel;
    } else {
      assert channel[0] == 'r';
    }
  }

  /** The chat-side reader takes any name behind `chat:` that is a DM lobby; a DM chat channel is one whose lobby is `dm:` or `dmg:`. */
  lemma ChatChannelsExactly(channel: string, lobby: string)
    ensures LobbyForChatLobbyChannel(channel) == Some(lobby) <==> channel == "chat:" + lobby && IsDmLobby(lobby)
    ensures IsDmChatChannel(channel) <==> "chat:" <= channel && LobbyForChannel(channel).Some?
  {
    AfterPrefix("chat:", channel, lobby);
    assert "room:" <= channel ==> channel[0] == 'r';
  }

  /** A chat channel lists members exactly when it is `chat:dm:` and ids joined. */
  lemma ChannelMembersExactly(channel: string, members: seq<string>)
    ensures DmChannelMembers(channel) == Some(members) <==> Listable(members) && channel == "chat:dm:" + Join(members)
  {
    AfterPrefix("chat:dm:", channel, Join(members));
    if "chat:dm:" <= channel {
      SplitExactly(channel[8..], members);
      if channel == "chat:dm:" { assert channel[8..] == "" && "" in Split(""); }
    }
  }

  /** A group gets a channel exactly when it has members, none nameless or with the separator; it is hashed past a hundred characters. */
  lemma ChannelIsGivenExactly(userIds: seq<string>, hash: string -> string)
    ensures DmChatChannelFor(userIds, hash).Some?
       <==> userIds != [] && forall i | 0 <= i < |userIds| :: userIds[i] != "" && ColonFree(userIds[i])
    ensures DmChatChannelFor(userIds, hash).Some? ==>
              var joined, channel := Join(SortDistinct(userIds)), DmChatChannelFor(userIds, hash).value;
              if |joined| <= 92 then channel == "chat:dm:" + joined else channel == "chat:dmg:" + hash(joined)
  {
    assert "" in userIds <==> exists i | 0 <= i < |userIds| :: userIds[i] == "";
  }
}
