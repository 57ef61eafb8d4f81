/**
 * The names of direct-message lobbies and chat channels
 * (src/call/lobbyChannel.ts, src/chat/dmChannels.ts).
 */
module DmNames {
  import opened Common
  import opened Segments

  datatype Kind = DmKind | DmgKind | RoomKind

  datatype ParsedDmLobby =
    | Dm(prefix: string, members: seq<string>)
    | Dmg(prefix: string, hash: string)

  function KindOf(segment: string): Option<Kind> {
    if segment == "dm" then Some(DmKind)
    else if segment == "dmg" then Some(DmgKind)
    else if segment == "room" then Some(RoomKind)
    else None
  }

  /** First index from `i` of a kind segment that is not the last segment. */
  function KindIndex(segments: seq<string>, i: nat): Option<nat>
    decreases |segments| - i
  {
    if i + 1 >= |segments| then None
    else if KindOf(segments[i]).Some? then Some(i)
    else KindIndex(segments, i + 1)
  }

  lemma {:induction false} KindIndexIsFirst(segments: seq<string>, i: nat)
    ensures var r := KindIndex(segments, i);
      && (r.Some? ==> i <= r.value < |segments| - 1 && KindOf(segments[r.value]).Some?
                      && forall j | i <= j < r.value :: KindOf(segments[j]).None?)
      && (r.None? ==> forall j | i <= j < |segments| - 1 :: KindOf(segments[j]).None?)
    decreases |segments| - i
  {
    if i + 1 < |segments| && KindOf(segments[i]).None? {
      KindIndexIsFirst(segments, i + 1);
    }
  }

  /** The index search of `lobbyKindSegment`. */
  method LobbyKindSegment(lobby: string) returns (found: Option<nat>)
    ensures found == if lobby == "" then None else KindIndex(Split(lobby), 0)
  {
    if lobby == "" { return None; }
    var segments := Split(lobby);
    for i := 0 to |segments| - 1
      invariant KindIndex(segments, 0) == KindIndex(segments, i)
    {
      if KindOf(segments[i]).Some? { return Some(i); }
    }
    found := None;
  }

  function LobbyConversationKind(lobby: string): Option<Kind> {
    var found := KindIndex(Split(lobby), 0);
    if lobby == "" || found.None? then None
    else
      KindIndexIsFirst(Split(lobby), 0);
      if KindOf(Split(lobby)[found.value]) == Some(RoomKind) then Some(RoomKind) else Some(DmKind)
  }

  predicate IsDmLobby(lobby: string) {
    LobbyConversationKind(lobby) == Some(DmKind)
  }

  function NonEmpty(xs: seq<string>): seq<string> {
    if xs == [] then [] else (if xs[0] != "" then [xs[0]] else []) + NonEmpty(xs[1..])
  }

  /** Duplicates and empty ids dropped, the rest sorted. */
  function MemberIds(userIds: seq<string>): seq<string> {
    SortDistinct(NonEmpty(userIds))
  }

  /** None where the source throws: an id with the member separator in it. */
  function DmLobbyName(userIds: seq<string>, prefix: string): Option<string> {
    if !AllColonFree(MemberIds(userIds)) then None
    else Some(prefix + "dm:" + Join(MemberIds(userIds)))
  }

  function DmLobbyAdmits(lobby: string, userId: string, prefix: string): Option<bool> {
    if !(prefix <= lobby) then None
    else
      var rest := lobby[|prefix|..];
      if rest != "dm" && !("dm:" <= rest) then None
      else if userId == "" then Some(false)
      else Some(userId in NonEmpty(Split(if |rest| >= 3 then rest[3..] else "")))
  }

  function ParseDmLobby(lobby: string, prefix: Option<string>): Option<ParsedDmLobby> {
    if lobby == "" then None
    else if prefix.Some? then
      if prefix.value + "dmg:" <= lobby then ParsedRest(DmgKind, prefix.value, lobby[|prefix.value| + 4..])
      else if prefix.value + "dm:" <= lobby then ParsedRest(DmKind, prefix.value, lobby[|prefix.value| + 3..])
      else None
    else
      var segments := Split(lobby);
      var found := KindIndex(segments, 0);
      if found.None? then None
      else
        KindIndexIsFirst(segments, 0);
        var kind := KindOf(segments[found.value]).value;
        if kind == RoomKind then None
        else ParsedRest(kind, LeadText(segments, found.value), Join(segments[found.value + 1..]))
  }

  /** The tenant prefix before segment `i`. */
  function LeadText(segments: seq<string>, i: nat): string
    requires i <= |segments|
  {
    if i > 0 then Join(segments[..i]) + ":" else ""
  }

  function ParsedRest(kind: Kind, prefix: string, rest: string): Option<ParsedDmLobby> {
    if kind == DmgKind then
      if rest != "" && ColonFree(rest) then Some(Dmg(prefix, rest)) else None
    else if |Split(rest)| < 2 || "" in Split(rest) then None
    else Some(Dm(prefix, Split(rest)))
  }

  /** Without a group resolver. */
  function DmLobbyMembers(lobby: string): Option<seq<string>> {
    var segments := Split(lobby);
    var found := KindIndex(segments, 0);
    if lobby == "" || found.None? then None
    else
      KindIndexIsFirst(segments, 0);
      if KindOf(segments[found.value]) != Some(DmKind) then None
      else
        var members := NonEmpty(segments[found.value + 1..]);
        if |members| >= 2 then Some(members) else None
  }

  predicate ShouldKnockToJoin(lobby: string, userId: string) {
    if !IsDmLobby(lobby) then false
    else
      var members := DmLobbyMembers(lobby);
      members.None? || userId == "" || userId !in members.value
  }

  function LobbyForChannel(channel: string): Option<string> {
    if "chat:dmg:" <= channel || "chat:dm:" <= channel then Some(channel[5..])
    else if "room:" <= channel then Some(channel)
    else None
  }

  function ChannelForLobby(lobby: string): Option<string> {
    if "dmg:" <= lobby || "dm:" <= lobby then Some("chat:" + lobby)
    else if "room:" <= lobby then Some(lobby)
    else None
  }

  function LobbyForChatLobbyChannel(channel: string): Option<string> {
    if !("chat:" <= channel) || !IsDmLobby(channel[5..]) then None else Some(channel[5..])
  }

  const DM_CHANNEL_NAME_MAX_LENGTH := 100

  /** None where the source throws. The hash is any function of the joined ids. */
  function DmChatChannelFor(userIds: seq<string>, hash: string -> string): Option<string> {
    if userIds == [] || "" in userIds || !AllColonFree(userIds) then None
    else
      var joined := Join(SortDistinct(userIds));
      if |"chat:dm:" + joined| <= DM_CHANNEL_NAME_MAX_LENGTH then Some("chat:dm:" + joined)
      else Some("chat:dmg:" + hash(joined))
  }

  function DmChannelMembers(channel: string): Option<seq<string>> {
    if !("chat:dm:" <= channel) || channel == "chat:dm:" || "" in Split(channel[8..]) then None
    else Some(Split(channel[8..]))
  }

  predicate IsDmChatChannel(channel: string) {
    "chat:dm:" <= channel || "chat:dmg:" <= channel
  }

  // ---- Members ---------------------------------------------------------------

  lemma {:induction false} NonEmptyElements(xs: seq<string>)
    ensures Elements(NonEmpty(xs)) == Elements(xs) - {""}
    ensures "" !in NonEmpty(xs)
    ensures "" !in xs ==> NonEmpty(xs) == xs
  {
    if xs != [] {
      NonEmptyElements(xs[1..]);
      assert xs == [xs[0]] + xs[1..];
      ElementsConcat([xs[0]], xs[1..]);
      ElementsConcat(if xs[0] != "" then [xs[0]] else [], NonEmpty(xs[1..]));
      assert Elements([xs[0]]) == {xs[0]};
    }
  }

  lemma MemberIdsOf(userIds: seq<string>)
    ensures Ascending(MemberIds(userIds))
    ensures Elements(MemberIds(userIds)) == Elements(userIds) - {""}
    ensures "" !in MemberIds(userIds)
  {
    NonEmptyElements(userIds);
    SortDistinctSorts(NonEmpty(userIds));
    assert "" !in Elements(MemberIds(userIds));
  }

  lemma MembersReadBack(userIds: seq<string>)
    requires AllColonFree(MemberIds(userIds)) && MemberIds(userIds) != []
    ensures Split(Join(MemberIds(userIds))) == MemberIds(userIds)
    ensures NonEmpty(MemberIds(userIds)) == MemberIds(userIds)
  {
    MemberIdsOf(userIds);
    SplitJoin(MemberIds(userIds));
    NonEmptyElements(MemberIds(userIds));
  }

  // ---- The codec -------------------------------------------------------------

  /** Parsing a printed name under its own prefix gives the members back, sorted. */
  lemma ParseNamedPrefix(userIds: seq<string>, prefix: string)
    requires AllColonFree(MemberIds(userIds)) && |MemberIds(userIds)| >= 2
    ensures ParseDmLobby(DmLobbyName(userIds, prefix).value, Some(prefix)) == Some(Dm(prefix, MemberIds(userIds)))
  {
    var name := DmLobbyName(userIds, prefix).value;
    MemberIdsOf(userIds);
    MembersReadBack(userIds);
    var joined := Join(MemberIds(userIds));
    assert name == (prefix + "dm:") + joined;
    assert name[|prefix| + 2] == ':';
    assert (prefix + "dmg:")[|prefix| + 2] == 'g';
    assert name[|prefix| + 3..] == joined;
  }

  predicate NoKind(segments: seq<string>) {
    forall i | 0 <= i < |segments| :: KindOf(segments[i]).None?
  }

  /** The segments of a prefix, without the empty one after its last colon. */
  function Lead(prefix: string): seq<string> {
    if prefix == "" then [] else Split(prefix[..|prefix| - 1])
  }

  /** Empty, or colon-terminated with no segment that names a kind. */
  predicate TenantPrefix(prefix: string) {
    (prefix != "" ==> prefix[|prefix| - 1] == ':') && NoKind(Lead(prefix))
  }

  lemma SplitOwn(joined: string)
    ensures Split("dm:" + joined) == ["dm"] + Split(joined)
  {
    SplitConcat("dm", joined);
    SplitColonFree("dm");
    assert "dm:" + joined == "dm" + ":" + joined;
  }

  lemma SplitPrefixed(prefix: string, own: string)
    requires prefix != "" ==> prefix[|prefix| - 1] == ':'
    ensures Split(prefix + own) == Lead(prefix) + Split(own)
  {
    if prefix == "" {
      assert prefix + own == own;
    } else {
      SplitConcat(prefix[..|prefix| - 1], own);
      assert prefix + own == prefix[..|prefix| - 1] + ":" + own;
    }
  }

  lemma {:induction false} NameSplits(ids: seq<string>, prefix: string)
    requires Split(Join(ids)) == ids
    requires prefix != "" ==> prefix[|prefix| - 1] == ':'
    ensures Split(prefix + "dm:" + Join(ids)) == Lead(prefix) + ["dm"] + ids
  {
    SplitOwn(Join(ids));
    SplitPrefixed(prefix, "dm:" + Join(ids));
    Associative(prefix, "dm:", Join(ids));
    Associative(Lead(prefix), ["dm"], ids);
  }

  lemma KindAfterLead(lead: seq<string>, kind: string, rest: seq<string>)
    requires NoKind(lead) && KindOf(kind).Some? && rest != []
    ensures KindIndex(lead + [kind] + rest, 0) == Some(|lead|)
  {
    var segments := lead + [kind] + rest;
    KindIndexIsFirst(segments, 0);
    assert segments[|lead|] == kind;
    assert forall j | 0 <= j < |lead| :: segments[j] == lead[j];
  }

  /** A printed name's own kind segment is found past exactly the tenant prefix. */
  lemma PrintedSegments(prefix: string, ids: seq<string>)
    requires TenantPrefix(prefix) && ids != [] && Split(Join(ids)) == ids
    ensures var segments := Split(prefix + "dm:" + Join(ids));
      && KindIndex(segments, 0) == Some(|Lead(prefix)|)
      && |segments| > |Lead(prefix)| + 1
      && segments[..|Lead(prefix)|] == Lead(prefix)
      && segments[|Lead(prefix)|] == "dm"
      && segments[|Lead(prefix)| + 1..] == ids
  {
    NameSplits(ids, prefix);
    KindAfterLead(Lead(prefix), "dm", ids);
  }

  lemma PrintedParses(prefix: string, ids: seq<string>)
    requires TenantPrefix(prefix) && |ids| >= 2 && "" !in ids && Split(Join(ids)) == ids
    ensures ParseDmLobby(prefix + "dm:" + Join(ids), None) == Some(Dm(prefix, ids))
  {
    var name := prefix + "dm:" + Join(ids);
    PrintedSegments(prefix, ids);
    assert name[|prefix|] == 'd';
    ParseAtKind(name, |Lead(prefix)|);
    LeadIsPrefix(prefix);
    assert LeadText(Split(name), |Lead(prefix)|) == prefix;
  }

  lemma ParseTenantPrefix(userIds: seq<string>, prefix: string)
    requires AllColonFree(MemberIds(userIds)) && |MemberIds(userIds)| >= 2 && TenantPrefix(prefix)
    ensures ParseDmLobby(DmLobbyName(userIds, prefix).value, None) == Some(Dm(prefix, MemberIds(userIds)))
  {
    MembersReadBack(userIds);
    MemberIdsOf(userIds);
    PrintedParses(prefix, MemberIds(userIds));
  }

  /** Parsing without a named prefix, once the kind segment is known. */
  lemma ParseAtKind(lobby: string, i: nat)
    requires lobby != "" && KindIndex(Split(lobby), 0) == Some(i) && i < |Split(lobby)| && Split(lobby)[i] == "dm"
    ensures ParseDmLobby(lobby, None) == ParsedRest(DmKind, LeadText(Split(lobby), i), Join(Split(lobby)[i + 1..]))
  {
  }

  lemma LeadIsPrefix(prefix: string)
    requires prefix != "" ==> prefix[|prefix| - 1] == ':'
    ensures prefix == if Lead(prefix) == [] then "" else Join(Lead(prefix)) + ":"
  {
    if prefix != "" {
      JoinSplit(prefix[..|prefix| - 1]);
      assert prefix == prefix[..|prefix| - 1] + ":";
    }
  }

  /** Without naming the prefix, a printed name reads back exactly when its prefix is a tenant prefix. */
  lemma ParseFindsPrefix(userIds: seq<string>, prefix: string)
    requires AllColonFree(MemberIds(userIds)) && |MemberIds(userIds)| >= 2
    ensures ParseDmLobby(DmLobbyName(userIds, prefix).value, None) == Some(Dm(prefix, MemberIds(userIds)))
       <==> TenantPrefix(prefix)
  {
    if TenantPrefix(prefix) {
      ParseTenantPrefix(userIds, prefix);
    } else if ParseDmLobby(DmLobbyName(userIds, prefix).value, None) == Some(Dm(prefix, MemberIds(userIds))) {
      ParsedPrefixIsTenant(DmLobbyName(userIds, prefix).value);
    }
  }

  lemma ParsedPrefixIsTenant(lobby: string)
    requires ParseDmLobby(lobby, None).Some?
    ensures TenantPrefix(ParseDmLobby(lobby, None).value.prefix)
  {
    var segments := Split(lobby);
    KindIndexIsFirst(segments, 0);
    var i := KindIndex(segments, 0).value;
    if i > 0 {
      SplitIsColonFree(lobby);
      SplitJoin(segments[..i]);
      var p := Join(segments[..i]) + ":";
      assert p[..|p| - 1] == Join(segments[..i]);
    }
  }

  /** Two id lists print the same name exactly when they are the same people. */
  lemma NamesAreInjective(a: seq<string>, b: seq<string>, prefix: string)
    requires AllColonFree(MemberIds(a)) && AllColonFree(MemberIds(b))
    ensures DmLobbyName(a, prefix) == DmLobbyName(b, prefix) <==> Elements(a) - {""} == Elements(b) - {""}
  {
    MemberIdsOf(a);
    MemberIdsOf(b);
    if Elements(a) - {""} == Elements(b) - {""} {
      AscendingIsUnique(MemberIds(a), MemberIds(b));
    } else if DmLobbyName(a, prefix) == DmLobbyName(b, prefix) {
      var head := prefix + "dm:";
      var x, y := Join(MemberIds(a)), Join(MemberIds(b));
      assert head + x == head + y;
      assert (head + x)[|head|..] == x && (head + y)[|head|..] == y;
      SameJoinSameMembers(MemberIds(a), MemberIds(b));
    }
  }

  lemma SameJoinSameMembers(xs: seq<string>, ys: seq<string>)
    requires AllColonFree(xs) && AllColonFree(ys) && "" !in xs && "" !in ys && Join(xs) == Join(ys)
    ensures xs == ys
  {
    if xs != [] { SplitJoin(xs); }
    if ys != [] { SplitJoin(ys); }
    assert xs == [] ==> ys == [] || ys == [""];
    assert ys == [] ==> xs == [] || xs == [""];
  }

  // ---- Admission ---------------------------------------------------------------

  /** The guard's rule admits exactly the people the name was printed for. */
  lemma AdmitsIsMembership(userIds: seq<string>, prefix: string, userId: string)
    requires AllColonFree(MemberIds(userIds))
    ensures DmLobbyAdmits(DmLobbyName(userIds, prefix).value, userId, prefix)
         == Some(userId != "" && userId in userIds)
  {
    var ids := MemberIds(userIds);
    var name := DmLobbyName(userIds, prefix).value;
    MemberIdsOf(userIds);
    assert userId != "" ==> (userId in userIds <==> userId in Elements(ids));
    assert name == prefix + ("dm:" + Join(ids));
    assert name[|prefix|..] == "dm:" + Join(ids);
    assert ("dm:" + Join(ids))[3..] == Join(ids);
    if ids != [] {
      MembersReadBack(userIds);
    } else {
      NonEmptyElements([""]);
      ElementsOfNone(NonEmpty([""]));
      assert Split(Join(ids)) == [""];
    }
  }

  // ---- Lobbies and channels -----------------------------------------------------

  lemma ChannelIdsAreMemberIds(userIds: seq<string>)
    requires userIds != [] && "" !in userIds && AllColonFree(userIds)
    ensures SortDistinct(userIds) == MemberIds(userIds) != []
    ensures AllColonFree(MemberIds(userIds)) && MemberIds(userIds)[0] != ""
  {
    NonEmptyElements(userIds);
    SortDistinctSorts(userIds);
    var ids := SortDistinct(userIds);
    ElementsOfNone(userIds);
    ElementsOfNone(ids);
    forall i | 0 <= i < |ids| ensures ColonFree(ids[i]) && ids[i] != "" {
      assert ids[i] in Elements(userIds);
    }
  }

  /** The lobby of an unhashed chat channel is the DM lobby of the same people, and its members read back. */
  lemma {:induction false} ChannelLobbyIsDmLobby(userIds: seq<string>, hash: string -> string)
    requires DmChatChannelFor(userIds, hash).Some?
    requires |"chat:dm:" + Join(SortDistinct(userIds))| <= DM_CHANNEL_NAME_MAX_LENGTH
    ensures var channel := DmChatChannelFor(userIds, hash).value;
      && LobbyForChannel(channel) == DmLobbyName(userIds, "")
      && DmLobbyName(userIds, "").Some?
      && ChannelForLobby(DmLobbyName(userIds, "").value) == Some(channel)
      && DmChannelMembers(channel) == Some(MemberIds(userIds))
  {
    ChannelIdsAreMemberIds(userIds);
    MemberIdsOf(userIds);
    MembersReadBack(userIds);
    JoinStarts(MemberIds(userIds));
    ChannelOfLobby(Join(MemberIds(userIds)));
  }

  lemma ChannelOfLobby(joined: string)
    requires joined != ""
    ensures LobbyForChannel("chat:dm:" + joined) == Some("" + "dm:" + joined)
    ensures ChannelForLobby("" + "dm:" + joined) == Some("chat:dm:" + joined)
    ensures "chat:dm:" + joined != "chat:dm:" && ("chat:dm:" + joined)[8..] == joined
  {
    assert ("chat:dm:" + joined)[5..] == "dm:" + joined == "" + "dm:" + joined;
    assert "chat:dm:" <= "chat:dm:" + joined;
    assert "chat:dm:" + joined == "chat:" + ("dm:" + joined);
    assert |"chat:dm:" + joined| > 8;
  }

  /** Past the length cap the name tells nobody's membership, so everyone knocks. */
  lemma HashedGroupIsClosed(userIds: seq<string>, hash: string -> string, userId: string)
    requires DmChatChannelFor(userIds, hash).Some?
    requires |"chat:dm:" + Join(SortDistinct(userIds))| > DM_CHANNEL_NAME_MAX_LENGTH
    ensures var channel := DmChatChannelFor(userIds, hash).value;
      && IsDmChatChannel(channel) && DmChannelMembers(channel) == None
      && LobbyForChannel(channel).Some?
      && ShouldKnockToJoin(LobbyForChannel(channel).value, userId)
  {
    var h := hash(Join(SortDistinct(userIds)));
    var channel := "chat:dmg:" + h;
    assert channel[7] == 'g';
    var lobby := channel[5..];
    assert lobby == "dmg" + ":" + h;
    SplitConcat("dmg", h);
    SplitColonFree("dmg");
    assert Split(lobby)[0] == "dmg";
    assert KindIndex(Split(lobby), 0) == Some(0);
  }

  /** Wrapping a lobby as a channel and unwrapping it, by either reader, is the identity. */
  lemma ChannelRoundTrip(lobby: string)
    requires ChannelForLobby(lobby).Some?
    ensures var channel := ChannelForLobby(lobby).value;
      && LobbyForChannel(channel) == Some(lobby)
      && ("chat:" <= channel <==> IsDmLobby(lobby))
      && (IsDmLobby(lobby) ==> LobbyForChatLobbyChannel(channel) == Some(lobby))
  {
    var channel := ChannelForLobby(lobby).value;
    var kind := if "room:" <= lobby then "room" else if "dmg:" <= lobby then "dmg" else "dm";
    assert lobby == kind + ":" + lobby[|kind| + 1..];
    OwnKindIsFirst(kind, lobby[|kind| + 1..]);
    if kind == "room" {
      assert channel[0] == 'r';
    } else {
      assert channel == "chat:" + lobby;
      assert channel[5..] == lobby;
    }
  }

  lemma OwnKindIsFirst(kind: string, rest: string)
    requires KindOf(kind).Some?
    ensures var segments := Split(kind + ":" + rest);
      KindIndex(segments, 0) == Some(0) && segments[0] == kind && kind + ":" + rest != ""
  {
    SplitConcat(kind, rest);
    SplitColonFree(kind);
  }

  /** Printing what a well-formed unhashed name parses to gives the name back when its members are sorted. */
  lemma PrintParsed(lobby: string, prefix: Option<string>)
    requires ParseDmLobby(lobby, prefix).Some? && ParseDmLobby(lobby, prefix).value.Dm?
    requires Ascending(ParseDmLobby(lobby, prefix).value.members)
    ensures var p := ParseDmLobby(lobby, prefix).value; DmLobbyName(p.members, p.prefix) == Some(lobby)
  {
    var p := ParseDmLobby(lobby, prefix).value;
    ParsedSpellsLobby(lobby, prefix);
    NonEmptyElements(p.members);
    MemberIdsOf(p.members);
    AscendingIsUnique(p.members, MemberIds(p.members));
  }

  /** Prefix, `dm:` and members spell the name that was parsed. */
  predicate Spells(p: ParsedDmLobby, lobby: string)
    requires p.Dm?
  {
    lobby == p.prefix + "dm:" + Join(p.members) && AllColonFree(p.members) && "" !in p.members
  }

  lemma ParsedSpellsLobby(lobby: string, prefix: Option<string>)
    requires ParseDmLobby(lobby, prefix).Some? && ParseDmLobby(lobby, prefix).value.Dm?
    ensures Spells(ParseDmLobby(lobby, prefix).value, lobby)
  {
    if prefix.Some? { NamedPrefixSpells(lobby, prefix.value); } else { FoundPrefixSpells(lobby); }
  }

  lemma NamedPrefixSpells(lobby: string, prefix: string)
    requires ParseDmLobby(lobby, Some(prefix)).Some? && ParseDmLobby(lobby, Some(prefix)).value.Dm?
    ensures Spells(ParseDmLobby(lobby, Some(prefix)).value, lobby)
  {
    var rest := lobby[|prefix| + 3..];
    SplitIsColonFree(rest);
    JoinSplit(rest);
    assert lobby == (prefix + "dm:") + rest;
  }

  lemma FoundPrefixSpells(lobby: string)
    requires ParseDmLobby(lobby, None).Some? && ParseDmLobby(lobby, None).value.Dm?
    ensures Spells(ParseDmLobby(lobby, None).value, lobby)
  {
    var segments := Split(lobby);
    KindIndexIsFirst(segments, 0);
    var i := KindIndex(segments, 0).value;
    FoundDmKind(lobby, i);
    ParseAtKind(lobby, i);
    var rest := Join(segments[i + 1..]);
    SplitIsColonFree(rest);
    JoinSplit(rest);
    SegmentsSpellLobby(lobby, i);
    assert LeadText(segments, i) + "dm:" + rest == LeadText(segments, i) + "dm" + ":" + rest;
  }

  lemma FoundDmKind(lobby: string, i: nat)
    requires ParseDmLobby(lobby, None).Some? && ParseDmLobby(lobby, None).value.Dm?
    requires KindIndex(Split(lobby), 0) == Some(i) && i < |Split(lobby)|
    ensures lobby != "" && Split(lobby)[i] == "dm"
  {
    KindIndexIsFirst(Split(lobby), 0);
    assert KindOf(Split(lobby)[i]) == Some(DmKind);
  }

  lemma SegmentsSpellLobby(lobby: string, i: nat)
    requires i < |Split(lobby)| - 1
    ensures lobby == LeadText(Split(lobby), i) + Split(lobby)[i] + ":" + Join(Split(lobby)[i + 1..])
  {
    var segments := Split(lobby);
    var lead, segment, rest := LeadText(segments, i), segments[i], Join(segments[i + 1..]);
    var tail := segments[i..];
    JoinSplit(lobby);
    assert tail[1..] == segments[i + 1..];
    assert Join(tail) == (segment + ":") + rest;
    if i > 0 {
      JoinAppend(segments[..i], tail);
      assert segments == segments[..i] + tail;
    } else {
      assert tail == segments && lead + Join(tail) == Join(tail);
    }
    assert lobby == lead + Join(tail);
    Associative(lead, segment + ":", rest);
    Associative(lead, segment, ":");
  }

  lemma {:induction false} JoinAppend(a: seq<string>, b: seq<string>)
    requires a != [] && b != []
    ensures Join(a + b) == Join(a) + ":" + Join(b)
  {
    if |a| == 1 {
      assert (a + b)[1..] == b;
    } else {
      JoinAppend(a[1..], b);
      assert (a + b)[1..] == a[1..] + b;
    }
  }
}
