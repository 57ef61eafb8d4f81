/** Colon-separated names: splitting, joining, and the order ids are sorted in. */
module Segments {
  import opened Common


  predicate ColonFree(s: string) {
    ':' !in s
  }

  predicate AllColonFree(parts: seq<string>) {
    forall i | 0 <= i < |parts| :: ColonFree(parts[i])
  }

  function Split(s: string): (parts: seq<string>)
    ensures parts != []
  {
    if s == "" then [""]
    else
      var rest := Split(s[1..]);
      if s[0] == ':' then [""] + rest else [[s[0]] + rest[0]] + rest[1..]
  }

  function Join(parts: seq<string>): string {
    if parts == [] then ""
    else if |parts| == 1 then parts[0]
    else parts[0] + ":" + Join(parts[1..])
  }

  lemma {:induction false} SplitIsColonFree(s: string)
    ensures AllColonFree(Split(s))
  {
    if s != "" {
      SplitIsColonFree(s[1..]);
      assert ColonFree(Split(s[1..])[0]);
    }
  }

  lemma {:induction false} JoinSplit(s: string)
    ensures Join(Split(s)) == s
  {
    if s != "" {
      JoinSplit(s[1..]);
      var rest := Split(s[1..]);
      assert s == [s[0]] + s[1..];
      if s[0] == ':' {
        assert ([""] + rest)[1..] == rest;
      } else {
        var parts := [[s[0]] + rest[0]] + rest[1..];
        assert parts[1..] == rest[1..];
        if |rest| > 1 {
          assert ([s[0]] + rest[0]) + ":" + Join(rest[1..]) == [s[0]] + (rest[0] + ":" + Join(rest[1..]));
        }
      }
    }
  }

  lemma {:induction false} SplitConcat(a: string, b: string)
    ensures Split(a + ":" + b) == Split(a) + Split(b)
  {
    var whole := a + ":" + b;
    if a == "" {
      assert whole == [':'] + b && whole[1..] == b;
    } else {
      var ra, rb := Split(a[1..]), Split(b);
      SplitConcat(a[1..], b);
      assert whole[0] == a[0] && whole[1..] == a[1..] + ":" + b;
      if a[0] == ':' { Associative([""], ra, rb); } else { ConcatAfterFirst([a[0]] + ra[0], ra, rb); }
    }
  }

  lemma ConcatAfterFirst<X>(x: X, a: seq<X>, b: seq<X>)
    requires a != []
    ensures (a + b)[0] == a[0] && [x] + (a + b)[1..] == [x] + a[1..] + b
  {
  }

  lemma {:induction false} SplitColonFree(s: string)
    requires ColonFree(s)
    ensures Split(s) == [s]
  {
    if s != "" {
      SplitColonFree(s[1..]);
      assert s == [s[0]] + s[1..];
    }
  }

  lemma {:induction false} SplitJoin(parts: seq<string>)
    requires parts != [] && AllColonFree(parts)
    ensures Split(Join(parts)) == parts
  {
    SplitColonFree(parts[0]);
    if |parts| > 1 {
      SplitJoin(parts[1..]);
      SplitConcat(parts[0], Join(parts[1..]));
      assert parts == [parts[0]] + parts[1..];
    } else {
      assert parts == [parts[0]];
    }
  }

  // ---- The order of `Array.prototype.sort` on strings -------------------------

  predicate Less(a: string, b: string) {
    if b == "" then false
    else if a == "" then true
    else a[0] < b[0] || (a[0] == b[0] && Less(a[1..], b[1..]))
  }

  lemma {:induction false} LessIsTransitive(a: string, b: string, c: string)
    requires Less(a, b) && Less(b, c)
    ensures Less(a, c)
  {
    if a != "" && a[0] == b[0] == c[0] {
      LessIsTransitive(a[1..], b[1..], c[1..]);
    }
  }

  lemma {:induction false} LessIsTotal(a: string, b: string)
    ensures Less(a, b) || a == b || Less(b, a)
    ensures !(Less(a, b) && Less(b, a))
    ensures a == b ==> !Less(a, b)
  {
    if a != "" && b != "" && a[0] == b[0] {
      LessIsTotal(a[1..], b[1..]);
      assert a == [a[0]] + a[1..] && b == [b[0]] + b[1..];
    }
  }

  predicate Ascending(xs: seq<string>) {
    forall i, j | 0 <= i < j < |xs| :: Less(xs[i], xs[j])
  }

  function Elements(xs: seq<string>): set<string> {
    set x | x in xs
  }

  lemma ElementsConcat(xs: seq<string>, ys: seq<string>)
    ensures Elements(xs + ys) == Elements(xs) + Elements(ys)
  {
  }

  lemma ElementsOfNone(xs: seq<string>)
    ensures Elements(xs) == {} <==> xs == []
  {
    if xs != [] {
      assert xs[0] in Elements(xs);
    }
  }

  lemma JoinStarts(parts: seq<string>)
    requires parts != [] && parts[0] != ""
    ensures Join(parts) != ""
  {
  }

  function Insert(x: string, xs: seq<string>): seq<string> {
    if xs == [] || Less(x, xs[0]) then [x] + xs
    else if x == xs[0] then xs
    else [xs[0]] + Insert(x, xs[1..])
  }

  lemma {:induction false} InsertKeepsAscending(x: string, xs: seq<string>)
    requires Ascending(xs)
    ensures Ascending(Insert(x, xs))
    ensures Elements(Insert(x, xs)) == Elements(xs) + {x}
  {
    var r := Insert(x, xs);
    if xs == [] || Less(x, xs[0]) {
      forall j | 0 < j < |r| ensures Less(r[0], r[j]) {
        if j > 1 { LessIsTransitive(x, xs[0], xs[j - 1]); }
      }
    } else if x != xs[0] {
      LessIsTotal(x, xs[0]);
      InsertKeepsAscending(x, xs[1..]);
      ElementsConcat([xs[0]], xs[1..]);
      ElementsConcat([xs[0]], Insert(x, xs[1..]));
      forall j | 0 < j < |r| ensures Less(r[0], r[j]) {
        assert r[j] in Elements(Insert(x, xs[1..]));
      }
      assert xs == [xs[0]] + xs[1..];
    }
  }

  /** The distinct elements of `xs` in ascending order. */
  function SortDistinct(xs: seq<string>): seq<string> {
    if xs == [] then [] else Insert(xs[0], SortDistinct(xs[1..]))
  }

  lemma {:induction false} SortDistinctSorts(xs: seq<string>)
    ensures Ascending(SortDistinct(xs))
    ensures Elements(SortDistinct(xs)) == Elements(xs)
  {
    if xs != [] {
      SortDistinctSorts(xs[1..]);
      InsertKeepsAscending(xs[0], SortDistinct(xs[1..]));
      assert xs == [xs[0]] + xs[1..];
    }
  }

  /** An ascending list is determined by its elements. */
  lemma {:induction false} AscendingIsUnique(xs: seq<string>, ys: seq<string>)
    requires Ascending(xs) && Ascending(ys) && Elements(xs) == Elements(ys)
    ensures xs == ys
  {
    ElementsOfNone(xs);
    ElementsOfNone(ys);
    if xs != [] {
      FirstIsLeast(xs, ys);
      FirstIsLeast(ys, xs);
      LessIsTotal(xs[0], ys[0]);
      TailElements(xs);
      TailElements(ys);
      AscendingIsUnique(xs[1..], ys[1..]);
      assert xs == [xs[0]] + xs[1..] && ys == [ys[0]] + ys[1..];
    }
  }

  lemma FirstIsLeast(xs: seq<string>, ys: seq<string>)
    requires xs != [] && ys != [] && Ascending(xs) && Elements(xs) == Elements(ys)
    ensures xs[0] == ys[0] || Less(xs[0], ys[0])
  {
    assert ys[0] in Elements(ys);
    var i :| 0 <= i < |xs| && xs[i] == ys[0];
  }

  lemma TailElements(xs: seq<string>)
    requires xs != [] && Ascending(xs)
    ensures Elements(xs[1..]) == Elements(xs) - {xs[0]}
  {
    assert xs == [xs[0]] + xs[1..];
    forall i | 1 <= i < |xs| ensures xs[i] != xs[0] {
      LessIsTotal(xs[0], xs[i]);
    }
  }
}
