/**
 * Who walks in and who knocks, for every prefix a DM lobby can be printed
 * under (src/call/lobbyChannel.ts): the guard reads a name past the prefix it
 * is given, the knock rule looks for the kind segment itself, and the two agree
 * exactly when that search ends at the name's own `dm` or past members the name
 * was printed for.
 */
module DmAdmission {
  import opened Common
  import opened Segments
  import opened DmNames
  import opened DmNameLaws

  // ---- The segments of a name under any prefix ----------------------------------------

  /** The whole segments of a prefix. */
  function LeadOf(prefix: string): seq<string> {
    Split(prefix)[..|Split(prefix)| - 1]
  }

  /** The segment a printed name's own `dm` ends up in: a prefix without its last colon runs into it. */
  function Own(prefix: string): string {
    Split(prefix)[|Split(prefix)| - 1] + "dm"
  }

  /** The last segment runs on into `b`. */
  function RunOn(parts: seq<string>, b: string): seq<string>
    requires parts != []
  {
    parts[..|parts| - 1] + [parts[|parts| - 1] + b]
  }

  lemma RunOnAfterColon(parts: seq<string>, b: string)
    requires parts != []
    ensures [""] + RunOn(parts, b) == RunOn([""] + parts, b)
  {
    assert ([""] + parts)[..|parts|] == [""] + parts[..|parts| - 1];
  }

  lemma RunOnAfterChar(c: char, parts: seq<string>, b: string)
    requires parts != []
    ensures [[c] + RunOn(parts, b)[0]] + RunOn(parts, b)[1..] == RunOn([[c] + parts[0]] + parts[1..], b)
  {
    if |parts| == 1 {
      assert [c] + (parts[0] + b) == ([c] + parts[0]) + b;
    } else {
      assert RunOn(parts, b)[1..] == parts[1..|parts| - 1] + [parts[|parts| - 1] + b];
    }
  }

  lemma {:induction false} SplitAppend(a: string, b: string)
    requires ColonFree(b)
    ensures Split(a + b) == RunOn(Split(a), b)
  {
    if a == "" {
      SplitColonFree(b);
      assert a + b == b && "" + b == b;
    } else {
      var rest := Split(a[1..]);
      SplitAppend(a[1..], b);
      assert (a + b)[0] == a[0] && (a + b)[1..] == a[1..] + b;
      if a[0] == ':' { RunOnAfterColon(rest, b); } else { RunOnAfterChar(a[0], rest, b); }
    }
  }

  lemma SplitPrinted(prefix: string, ids: seq<string>)
    ensures Split(prefix + "dm:" + Join(ids)) == LeadOf(prefix) + [Own(prefix)] + Split(Join(ids))
  {
    SplitAppend(prefix, "dm");
    SplitConcat(prefix + "dm", Join(ids));
    assert prefix + "dm:" + Join(ids) == (prefix + "dm") + ":" + Join(ids);
  }

  // ---- Where the search ends ------------------------------------------------------------

  /** The first kind segment of `xs`, the last one included. */
  function FirstKind(xs: seq<string>): (at: Option<nat>)
    ensures at.Some? ==> at.value < |xs| && KindOf(xs[at.value]).Some?
  {
    KindIndexIsFirst(xs + [""], 0);
    KindIndex(xs + [""], 0)
  }

  lemma FirstKindIs(xs: seq<string>)
    ensures FirstKind(xs).Some? ==> forall j | 0 <= j < FirstKind(xs).value :: KindOf(xs[j]).None?
    ensures FirstKind(xs).None? ==> NoKind(xs)
  {
    KindIndexIsFirst(xs + [""], 0);
    assert forall j | 0 <= j < |xs| :: (xs + [""])[j] == xs[j];
  }

  lemma KindIndexIs(segments: seq<string>, i: nat)
    requires i < |segments| - 1 && KindOf(segments[i]).Some? && forall j | 0 <= j < i :: KindOf(segments[j]).None?
    ensures KindIndex(segments, 0) == Some(i)
  {
    KindIndexIsFirst(segments, 0);
  }

  /** A kind of the first stretch is found first. */
  lemma KindInFirst(a: seq<string>, b: seq<string>, i: nat)
    requires b != [] && i < |a| && KindOf(a[i]).Some? && forall j | 0 <= j < i :: KindOf(a[j]).None?
    ensures KindIndex(a + b, 0) == Some(i)
  {
    KindIndexIs(a + b, i);
  }

  /** Without one the search goes on in the second. */
  lemma {:induction false} KindInSecond(a: seq<string>, b: seq<string>, i: nat)
    requires b != [] && NoKind(a) && i <= |a|
    ensures KindIndex(a + b, i) == KindIndex(a + b, |a|)
    decreases |a| - i
  {
    if i < |a| {
      KindInSecond(a, b, i + 1);
      assert (a + b)[i] == a[i];
    }
  }

  lemma {:induction false} KindIndexShifts(a: seq<string>, b: seq<string>, i: nat)
    ensures KindIndex(a + b, |a| + i) == if KindIndex(b, i).Some? then Some(|a| + KindIndex(b, i).value) else None
    decreases |b| - i
  {
    if i + 1 < |b| {
      KindIndexShifts(a, b, i + 1);
      assert (a + b)[|a| + i] == b[i];
    }
  }

  /** The search over two stretches: the first kind of the first, else what it finds in the second. */
  lemma {:induction false} KindIndexConcat(a: seq<string>, b: seq<string>)
    requires b != []
    ensures KindIndex(a + b, 0) ==
            if FirstKind(a).Some? then FirstKind(a)
            else if KindIndex(b, 0).Some? then Some(|a| + KindIndex(b, 0).value)
            else None
  {
    FirstKindIs(a);
    if FirstKind(a).Some? {
      KindInFirst(a, b, FirstKind(a).value);
    } else {
      KindInSecond(a, b, 0);
      KindIndexShifts(a, b, 0);
    }
  }

  // ---- The knock rule on segments -----------------------------------------------------------

  /** What the knock rule makes of a name: open to all, closed to all, or open to the listed. */
  datatype Door = Open | Closed | Listed(members: seq<string>)

  function DoorOf(segments: seq<string>): Door {
    var found := KindIndex(segments, 0);
    KindIndexIsFirst(segments, 0);
    if found.None? then Open else DoorAt(segments, found.value)
  }

  /** The door once the kind segment is found. */
  function DoorAt(segments: seq<string>, i: nat): Door
    requires i < |segments| && KindOf(segments[i]).Some?
  {
    match KindOf(segments[i]).value
    case RoomKind => Open
    case DmgKind => Closed
    case DmKind =>
      var members := NonEmpty(segments[i + 1..]);
      if |members| >= 2 then Listed(members) else Closed
  }

  predicate WalksIn(door: Door, userId: string) {
    match door
    case Open => true
    case Closed => false
    case Listed(members) => userId != "" && userId in members
  }

  lemma KnockReadsDoor(lobby: string, userId: string)
    requires lobby != ""
    ensures !ShouldKnockToJoin(lobby, userId) <==> WalksIn(DoorOf(Split(lobby)), userId)
  {
    KindIndexIsFirst(Split(lobby), 0);
  }

  // ---- Agreement, prefix by prefix ------------------------------------------------------------

  /**
   * Whether guard and knock rule agree about `userId` on the name of `ids`
   * under `prefix`. A kind segment inside the prefix takes the search over: a
   * room opens the door to all, a group closes it, and a `dm` lists what
   * follows it in the prefix besides the members. A prefix that runs into `dm`
   * hides it, and the search goes on among the members.
   */
  predicate KnockAgrees(prefix: string, ids: seq<string>, userId: string) {
    var lead := LeadOf(prefix);
    var at := FirstKind(lead);
    if at.Some? then TakenOverAgrees(KindOf(lead[at.value]).value, lead[at.value + 1..] + [Own(prefix)], ids, userId)
    else if Own(prefix) == "dm" then |ids| >= 2 || userId !in ids
    else HiddenDmAgrees(ids, userId)
  }

  /** The kind segment found in the prefix has `others` after it, before the members. */
  predicate TakenOverAgrees(kind: Kind, others: seq<string>, ids: seq<string>, userId: string) {
    match kind
    case RoomKind => userId in ids
    case DmgKind => userId !in ids
    case DmKind => userId == "" || userId in ids || userId !in others || |NonEmpty(others)| + |ids| < 2
  }

  predicate HiddenDmAgrees(ids: seq<string>, userId: string) {
    var at := KindIndex(ids, 0);
    KindIndexIsFirst(ids, 0);
    if at.None? || KindOf(ids[at.value]) == Some(RoomKind) then userId in ids
    else if KindOf(ids[at.value]) == Some(DmgKind) || |ids| - at.value < 3 then userId !in ids
    else userId !in ids[..at.value + 1]
  }

  /** The ids of a printed name: distinct, non-empty, without colons; and how the name ends. */
  predicate Printed(ids: seq<string>, tail: seq<string>) {
    && AllColonFree(ids) && "" !in ids
    && (forall i, j | 0 <= i < j < |ids| :: ids[i] != ids[j])
    && tail == if ids == [] then [""] else ids
  }

  lemma PrintedIds(userIds: seq<string>)
    requires AllColonFree(MemberIds(userIds))
    ensures Printed(MemberIds(userIds), Split(Join(MemberIds(userIds))))
  {
    var ids := MemberIds(userIds);
    MemberIdsOf(userIds);
    forall i, j | 0 <= i < j < |ids| ensures ids[i] != ids[j] {
      LessIsTotal(ids[i], ids[j]);
    }
    if ids != [] { MembersReadBack(userIds); }
  }

  lemma {:induction false} NonEmptyConcat(a: seq<string>, b: seq<string>)
    ensures NonEmpty(a + b) == NonEmpty(a) + NonEmpty(b)
  {
    if a == [] {
      assert a + b == b;
    } else {
      NonEmptyConcat(a[1..], b);
      assert (a + b)[0] == a[0] && (a + b)[1..] == a[1..] + b;
      Associative(if a[0] != "" then [a[0]] else [], NonEmpty(a[1..]), NonEmpty(b));
    }
  }

  lemma TailMembers(ids: seq<string>, tail: seq<string>)
    requires Printed(ids, tail)
    ensures NonEmpty(tail) == ids
  {
    NonEmptyElements(ids);
    if ids == [] {
      assert [""][1..] == [];
    }
  }

  /** The kind segment is inside the prefix: what follows it is read from there. */
  lemma DoorInPrefix(prefix: string, tail: seq<string>)
    requires FirstKind(LeadOf(prefix)).Some? && tail != []
    ensures var lead := LeadOf(prefix);
      var i := FirstKind(lead).value;
      var segments := lead + [Own(prefix)] + tail;
      && DoorOf(segments) == DoorAt(segments, i)
      && segments[i] == lead[i]
      && segments[i + 1..] == lead[i + 1..] + [Own(prefix)] + tail
  {
    var lead := LeadOf(prefix);
    Associative(lead, [Own(prefix)], tail);
    KindIndexConcat(lead, [Own(prefix)] + tail);
  }

  /** A `dm` inside the prefix lists the segments after it besides the members. */
  lemma DmInPrefix(others: seq<string>, own: string, ids: seq<string>, tail: seq<string>, userId: string)
    requires Printed(ids, tail) && own in others && own != ""
    ensures var members := NonEmpty(others + tail);
      WalksIn(if |members| >= 2 then Listed(members) else Closed, userId) == (userId != "" && userId in ids)
      <==> userId == "" || userId in ids || userId !in others || |NonEmpty(others)| + |ids| < 2
  {
    NonEmptyConcat(others, tail);
    TailMembers(ids, tail);
    InNonEmpty(others, userId);
    InNonEmpty(others, own);
    ListedBeside(NonEmpty(others), ids, userId);
  }

  lemma ListedBeside(others: seq<string>, ids: seq<string>, userId: string)
    requires others != []
    ensures WalksIn(if |others + ids| >= 2 then Listed(others + ids) else Closed, userId) == (userId != "" && userId in ids)
       <==> userId == "" || userId in ids || userId !in others || |others| + |ids| < 2
  {
  }

  lemma DoorAgrees(segments: seq<string>, i: nat, others: seq<string>, own: string, ids: seq<string>, tail: seq<string>,
                   userId: string)
    requires Printed(ids, tail) && own in others && own != ""
    requires i < |segments| && KindOf(segments[i]).Some? && segments[i + 1..] == others + tail
    ensures WalksIn(DoorAt(segments, i), userId) == (userId != "" && userId in ids)
       <==> TakenOverAgrees(KindOf(segments[i]).value, others, ids, userId)
  {
    match KindOf(segments[i]).value
    case RoomKind =>
    case DmgKind =>
    case DmKind => DmInPrefix(others, own, ids, tail, userId);
  }

  lemma AgreesInPrefix(prefix: string, ids: seq<string>, tail: seq<string>, userId: string)
    requires Printed(ids, tail) && FirstKind(LeadOf(prefix)).Some?
    ensures WalksIn(DoorOf(LeadOf(prefix) + [Own(prefix)] + tail), userId) == (userId != "" && userId in ids)
       <==> KnockAgrees(prefix, ids, userId)
  {
    var lead := LeadOf(prefix);
    var i := FirstKind(lead).value;
    DoorInPrefix(prefix, tail);
    DoorAgrees(lead + [Own(prefix)] + tail, i, lead[i + 1..] + [Own(prefix)], Own(prefix), ids, tail, userId);
  }

  lemma PastConcat<X>(a: seq<X>, b: seq<X>, i: nat)
    requires i < |b|
    ensures (a + b)[|a| + i] == b[i] && (a + b)[|a| + i + 1..] == b[i + 1..]
  {
  }

  /** The search gets past segments that name no kind. */
  lemma DoorPast(lead: seq<string>, rest: seq<string>)
    requires rest != [] && FirstKind(lead).None?
    ensures DoorOf(lead + rest) == DoorOf(rest)
  {
    KindIndexConcat(lead, rest);
    KindIndexIsFirst(rest, 0);
    if KindIndex(rest, 0).Some? { PastConcat(lead, rest, KindIndex(rest, 0).value); }
  }

  /** The search ends at the name's own `dm`. */
  lemma DoorAtOwn(ids: seq<string>, tail: seq<string>)
    requires Printed(ids, tail)
    ensures DoorOf(["dm"] + tail) == if |ids| >= 2 then Listed(ids) else Closed
  {
    KindIndexIs(["dm"] + tail, 0);
    assert (["dm"] + tail)[1..] == tail;
    TailMembers(ids, tail);
  }

  /** Each member stands on one side of a cut. */
  lemma OneSide(ids: seq<string>, k: nat, userId: string)
    requires k <= |ids| && forall i, j | 0 <= i < j < |ids| :: ids[i] != ids[j]
    ensures userId in ids <==> userId in ids[..k] || userId in ids[k..]
    ensures !(userId in ids[..k] && userId in ids[k..])
  {
    assert ids == ids[..k] + ids[k..];
  }

  lemma DmAmongIds(ids: seq<string>, k: nat, userId: string)
    requires Printed(ids, ids) && k < |ids| - 1 && KindOf(ids[k]) == Some(DmKind)
    ensures WalksIn(DoorAt(ids, k), userId) == (userId != "" && userId in ids)
       <==> if |ids| - k < 3 then userId !in ids else userId !in ids[..k + 1]
  {
    TailMembers(ids[k + 1..], ids[k + 1..]);
    OneSide(ids, k + 1, userId);
  }

  /** The search goes on among the members. */
  lemma DoorAmongIds(ids: seq<string>, tail: seq<string>, userId: string)
    requires Printed(ids, tail)
    ensures WalksIn(DoorOf(tail), userId) == (userId != "" && userId in ids) <==> HiddenDmAgrees(ids, userId)
  {
    KindIndexIsFirst(ids, 0);
    var at := KindIndex(ids, 0);
    if at.Some? && KindOf(ids[at.value]) == Some(DmKind) {
      DmAmongIds(ids, at.value, userId);
    }
  }

  lemma OwnIsNoKind(prefix: string)
    requires Own(prefix) != "dm"
    ensures KindOf(Own(prefix)).None?
  {
    var own := Own(prefix);
    assert own[|own| - 1] == 'm' && own[|own| - 2] == 'd';
    assert "dmg"[2] == 'g' && "room"[2] == 'o';
  }

  /** Under every prefix, for every user: guard and knock rule agree exactly as `KnockAgrees` says. */
  lemma KnockAgreesExactlyWhen(userIds: seq<string>, prefix: string, userId: string)
    requires AllColonFree(MemberIds(userIds))
    ensures var name := DmLobbyName(userIds, prefix).value;
      DmLobbyAdmits(name, userId, prefix) == Some(!ShouldKnockToJoin(name, userId))
      <==> KnockAgrees(prefix, MemberIds(userIds), userId)
  {
    var ids, name := MemberIds(userIds), DmLobbyName(userIds, prefix).value;
    var tail := Split(Join(ids));
    AdmitsIsMembership(userIds, prefix, userId);
    MemberIdsOf(userIds);
    assert userId != "" ==> (userId in userIds <==> userId in Elements(ids));
    PrintedIds(userIds);
    SplitPrinted(prefix, ids);
    assert name[|prefix|] == 'd';
    KnockReadsDoor(name, userId);
    if FirstKind(LeadOf(prefix)).Some? {
      AgreesInPrefix(prefix, ids, tail, userId);
    } else {
      Associative(LeadOf(prefix), [Own(prefix)], tail);
      DoorPast(LeadOf(prefix), [Own(prefix)] + tail);
      if Own(prefix) == "dm" {
        DoorAtOwn(ids, tail);
      } else {
        OwnIsNoKind(prefix);
        assert [Own(prefix)] + [""] == [Own(prefix), ""];
        DoorPast([Own(prefix)], tail);
        DoorAmongIds(ids, tail, userId);
      }
    }
  }

  // ---- Agreement for everyone ---------------------------------------------------------------------

  /**
   * The prefixes and members for which nobody is misread: a tenant prefix and
   * not just one member, or a `dm` inside the prefix that lists nobody new.
   */
  predicate KnockRuleFits(prefix: string, ids: seq<string>) {
    var lead := LeadOf(prefix);
    var at := FirstKind(lead);
    if at.None? then Own(prefix) == "dm" && |ids| != 1
    else
      match KindOf(lead[at.value]).value
      case RoomKind => false
      case DmgKind => ids == []
      case DmKind =>
        var others := lead[at.value + 1..] + [Own(prefix)];
        |NonEmpty(others)| + |ids| < 2 || forall s | s in others :: s == "" || s in ids
  }

  lemma HiddenDmNeverFits(ids: seq<string>)
    requires "" !in ids
    ensures exists u :: !HiddenDmAgrees(ids, u)
  {
    KindIndexIsFirst(ids, 0);
    if HiddenDmAgrees(ids, "") {
      assert !HiddenDmAgrees(ids, ids[0]);
    }
  }

  lemma KnockRuleFitsExactlyWhen(prefix: string, ids: seq<string>)
    requires "" !in ids
    ensures KnockRuleFits(prefix, ids) <==> forall u :: KnockAgrees(prefix, ids, u)
  {
    var lead := LeadOf(prefix);
    var at := FirstKind(lead);
    if at.Some? {
      var others := lead[at.value + 1..] + [Own(prefix)];
      if KindOf(lead[at.value]) == Some(RoomKind) {
        assert !KnockAgrees(prefix, ids, "");
      } else if KindOf(lead[at.value]) == Some(DmgKind) {
        if ids != [] { assert !KnockAgrees(prefix, ids, ids[0]); }
      } else if !KnockRuleFits(prefix, ids) {
        var s :| s in others && s != "" && s !in ids;
        assert !KnockAgrees(prefix, ids, s);
      }
    } else if Own(prefix) == "dm" {
      if |ids| == 1 { assert !KnockAgrees(prefix, ids, ids[0]); }
    } else {
      HiddenDmNeverFits(ids);
      var u :| !HiddenDmAgrees(ids, u);
      assert !KnockAgrees(prefix, ids, u);
    }
  }

  /** A tenant prefix is one whose search ends at the name's own `dm`. */
  lemma TenantPrefixEndsAtOwn(prefix: string)
    ensures TenantPrefix(prefix) <==> FirstKind(LeadOf(prefix)).None? && Own(prefix) == "dm"
  {
    FirstKindIs(LeadOf(prefix));
    if prefix == "" {
      assert LeadOf(prefix) == [] && Own(prefix) == "" + "dm";
    } else {
      var front, last := prefix[..|prefix| - 1], prefix[|prefix| - 1];
      assert prefix == front + [last];
      if last == ':' {
        assert prefix == front + ":" + "";
        SplitConcat(front, "");
        assert LeadOf(prefix) == Split(front) && Own(prefix) == "" + "dm";
      } else {
        SplitAppend(front, [last]);
        assert |Own(prefix)| > 2;
      }
    }
  }

  /**
   * Under a tenant prefix knocking is the other side of admission, but for one
   * case: a DM with yourself, which admits you but has too few members to open
   * unasked.
   */
  lemma KnockIsNotAdmitted(userIds: seq<string>, prefix: string, userId: string)
    requires AllColonFree(MemberIds(userIds)) && TenantPrefix(prefix)
    ensures var name := DmLobbyName(userIds, prefix).value;
      DmLobbyAdmits(name, userId, prefix) == Some(!ShouldKnockToJoin(name, userId))
      <==> |MemberIds(userIds)| != 1 || userId == "" || userId !in userIds
  {
    var ids := MemberIds(userIds);
    TenantPrefixEndsAtOwn(prefix);
    KnockAgreesExactlyWhen(userIds, prefix, userId);
    MemberIdsOf(userIds);
    assert userId != "" ==> (userId in userIds <==> userId in Elements(ids));
    assert userId in ids <==> userId in Elements(ids);
  }

  lemma TwoMembers()
    ensures MemberIds(["a", "b"]) == ["a", "b"] && AllColonFree(["a", "b"])
  {
    assert ["a", "b"][1..] == ["b"] && ["b"][1..] == [];
    NonEmptyElements(["a", "b"]);
    assert Less("a", "b");
    assert SortDistinct(["b"]) == ["b"];
  }

  /** The concrete failure: under a prefix without its colon the name is no DM to the knock rule, and an outsider walks in. */
  lemma GluedPrefixLetsOutsidersIn()
    ensures var name := DmLobbyName(["a", "b"], "x").value;
      DmLobbyAdmits(name, "c", "x") == Some(false) && !ShouldKnockToJoin(name, "c")
  {
    TwoMembers();
    SplitColonFree("x");
    assert LeadOf("x") == [] && Own("x") == "xdm";
    assert KindIndex([""], 0) == None && [] + [""] == [""];
    assert KindIndex(["a", "b"], 0) == KindIndex(["a", "b"], 1) == None;
    AdmitsIsMembership(["a", "b"], "x", "c");
    KnockAgreesExactlyWhen(["a", "b"], "x", "c");
  }
}
