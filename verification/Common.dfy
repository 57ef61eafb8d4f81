/** Shared value types. */
module Common {
  /** A value that JavaScript would hold as `undefined`/`null` or present. */
  datatype Option<+T> = None | Some(value: T)

  lemma Associative<T>(a: seq<T>, b: seq<T>, c: seq<T>)
    ensures a + (b + c) == (a + b) + c
  {
  }
}

/**
 * The reverse index both call components keep: key -> set of members, where
 * a key whose last member goes loses its entry.
 */
module ReverseIndex {
  type Index = map<string, set<string>>

  function At(ix: Index, k: string): set<string> {
    if k in ix then ix[k] else {}
  }

  function Add(ix: Index, k: string, m: string): Index {
    ix[k := At(ix, k) + {m}]
  }

  function Drop(ix: Index, k: string, m: string): Index {
    if k !in ix then ix
    else if ix[k] - {m} == {} then ix - {k}
    else ix[k := ix[k] - {m}]
  }

  /** What a teardown loop of `Drop`s over `ks` leaves, in any order. */
  function DropAll(ix: Index, ks: set<string>, m: string): Index {
    map k | k in ix && (k in ks ==> ix[k] - {m} != {}) :: if k in ks then ix[k] - {m} else ix[k]
  }

  ghost predicate NoEmptyEntry(ix: Index) {
    forall k :: k in ix ==> ix[k] != {}
  }

  lemma AtAdd(ix: Index, k: string, m: string)
    ensures forall x :: At(Add(ix, k, m), x) == if x == k then At(ix, x) + {m} else At(ix, x)
    ensures NoEmptyEntry(ix) ==> NoEmptyEntry(Add(ix, k, m))
  {
  }

  lemma AtDropOf(ix: Index, k: string, m: string, x: string)
    ensures At(Drop(ix, k, m), x) == if x == k then At(ix, x) - {m} else At(ix, x)
  {
  }

  lemma AtDropAll(ix: Index, ks: set<string>, m: string)
    ensures forall x :: At(DropAll(ix, ks, m), x) == if x in ks then At(ix, x) - {m} else At(ix, x)
    ensures NoEmptyEntry(ix) ==> NoEmptyEntry(DropAll(ix, ks, m))
  {
  }

  lemma DropIsDropAll(ix: Index, k: string, m: string)
    ensures Drop(ix, k, m) == DropAll(ix, {k}, m)
  {
  }

  /** One loop iteration: dropping one more key extends the dropped set. */
  lemma DropAllStep(ix: Index, done: set<string>, k: string, m: string)
    ensures Drop(DropAll(ix, done, m), k, m) == DropAll(ix, done + {k}, m)
  {
    var before := DropAll(ix, done, m);
    DropIsDropAll(before, k, m);
    var d, a := DropAll(before, {k}, m), DropAll(ix, done + {k}, m);
    if k in done && k in ix {
      assert (ix[k] - {m}) - {m} == ix[k] - {m};
    }
    assert forall x :: x in d <==> x in a;
    assert forall x :: x in d ==> d[x] == a[x];
  }

  lemma DropAllNothing(ix: Index, m: string)
    ensures DropAll(ix, {}, m) == ix
  {
  }

  /** Dropping the keys of `ks` never removes the entry a disjoint `Add` made. */
  lemma AddThenDropAll(ix: Index, k: string, ks: set<string>, m: string)
    requires k !in ks
    ensures DropAll(Add(ix, k, m), ks, m) == Add(DropAll(ix, ks, m), k, m)
  {
  }
}
