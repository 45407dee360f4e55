/**
 * The memoising decorator `Cache`: results of the wrapped function are kept
 * in a table under a key computed from the call's arguments.
 */
module Cache {
  import opened PyStrings

  /** The argument values a key is built from. */
  datatype Value = Int(i: int) | Str(s: string) | Tuple(items: seq<Value>)

  type Keyword = (string, Value)

  /** A call's positional arguments and its keyword arguments in the order passed. */
  datatype Args = Args(positional: seq<Value>, keywords: seq<Keyword>)

  type Key = seq<Value>

  /** Keyword names, as Python passes them: no name twice. */
  predicate DistinctNames(kw: seq<Keyword>) {
    forall i, j :: 0 <= i < j < |kw| ==> kw[i].0 != kw[j].0
  }

  /** Strictly increasing by name. */
  predicate SortedByName(kw: seq<Keyword>) {
    forall i, j :: 0 <= i < j < |kw| ==> StringLess(kw[i].0, kw[j].0)
  }

  function InsertByName(item: Keyword, sorted: seq<Keyword>): (r: seq<Keyword>)
    ensures multiset(r) == multiset(sorted) + multiset{item}
    ensures |r| == |sorted| + 1
  {
    if sorted == [] then [item]
    else
      assert sorted == [sorted[0]] + sorted[1..];
      if StringLess(sorted[0].0, item.0) then [sorted[0]] + InsertByName(item, sorted[1..])
      else [item] + sorted
  }

  lemma {:induction false} InsertKeepsSorted(item: Keyword, sorted: seq<Keyword>)
    requires SortedByName(sorted)
    requires forall k :: k in sorted ==> k.0 != item.0
    ensures SortedByName(InsertByName(item, sorted))
    decreases |sorted|
  {
    if sorted != [] {
      if StringLess(sorted[0].0, item.0) {
        assert forall k :: k in sorted[1..] ==> k in sorted;
        InsertKeepsSorted(item, sorted[1..]);
        var r := InsertByName(item, sorted);
        forall j | 0 < j < |r|
          ensures StringLess(sorted[0].0, r[j].0)
        {
          assert r[j] in multiset(sorted[1..]) + multiset{item};
          if r[j] != item {
            assert r[j] in sorted[1..];
            var m :| 0 <= m < |sorted[1..]| && sorted[1..][m] == r[j];
            assert sorted[m + 1] == r[j];
          }
        }
      } else {
        StringLessTotal(sorted[0].0, item.0);
        forall j | 0 < j < |sorted|
          ensures StringLess(item.0, sorted[j].0)
        {
          StringLessTransitive(item.0, sorted[0].0, sorted[j].0);
        }
      }
    }
  }

  /** `sorted(kwargs.items())`: the keyword items ordered by name. */
  function SortByName(kw: seq<Keyword>): (r: seq<Keyword>)
    ensures multiset(r) == multiset(kw)
    ensures |r| == |kw|
  {
    if kw == [] then []
    else
      assert kw == [kw[0]] + kw[1..];
      InsertByName(kw[0], SortByName(kw[1..]))
  }

  /** With distinct names the sorted items are strictly increasing by name. */
  lemma {:induction false} SortByNameSorted(kw: seq<Keyword>)
    requires DistinctNames(kw)
    ensures SortedByName(SortByName(kw))
    decreases |kw|
  {
    if kw != [] {
      var rest := SortByName(kw[1..]);
      assert DistinctNames(kw[1..]) by {
        forall i, j | 0 <= i < j < |kw[1..]|
          ensures kw[1..][i].0 != kw[1..][j].0
        {
          assert kw[1..][i] == kw[i + 1] && kw[1..][j] == kw[j + 1];
        }
      }
      SortByNameSorted(kw[1..]);
      forall k | k in rest
        ensures k.0 != kw[0].0
      {
        assert k in multiset(kw[1..]);
        var m :| 0 <= m < |kw[1..]| && kw[1..][m] == k;
        assert kw[m + 1] == k;
      }
      InsertKeepsSorted(kw[0], rest);
    }
  }

  /** Two name-sorted lists of the same items are the same list. */
  lemma {:induction false} SortedByNameUnique(a: seq<Keyword>, b: seq<Keyword>)
    requires SortedByName(a) && SortedByName(b) && multiset(a) == multiset(b)
    ensures a == b
    decreases |a|
  {
    if a != [] {
      assert a[0] in multiset(b);
      assert b != [];
      assert b[0] in multiset(a);
      if a[0] != b[0] {
        var i :| 0 <= i < |a| && a[i] == b[0];
        var j :| 0 <= j < |b| && b[j] == a[0];
        assert i > 0 && j > 0;
        StringLessAsymmetric(a[0].0, a[i].0);
        assert false;
      }
      assert a == [a[0]] + a[1..] && b == [b[0]] + b[1..];
      assert multiset(a) == multiset{a[0]} + multiset(a[1..]);
      assert multiset(b) == multiset{b[0]} + multiset(b[1..]);
      assert multiset(a[1..]) == multiset(a) - multiset{a[0]};
      assert multiset(b[1..]) == multiset(b) - multiset{b[0]};
      SortedByNameUnique(a[1..], b[1..]);
    }
  }

  /** Each keyword item as the `(name, value)` tuple the key holds. */
  function KeywordTuples(kw: seq<Keyword>): (r: Key)
    ensures |r| == |kw|
    ensures forall i :: 0 <= i < |kw| ==> r[i] == Tuple([Str(kw[i].0), kw[i].1])
  {
    if kw == [] then [] else [Tuple([Str(kw[0].0), kw[0].1])] + KeywordTuples(kw[1..])
  }

  /** `default_key(*args, **kwargs)`: the positional values, then the keyword items sorted by name. */
  function DefaultKey(args: Args): (k: Key)
    ensures |k| == |args.positional| + |args.keywords|
    ensures k[..|args.positional|] == args.positional
  {
    args.positional + KeywordTuples(SortByName(args.keywords))
  }

  /** The order keywords are passed in does not change the default key. */
  lemma KeywordOrderIrrelevant(positional: seq<Value>, kw1: seq<Keyword>, kw2: seq<Keyword>)
    requires DistinctNames(kw1) && DistinctNames(kw2)
    requires multiset(kw1) == multiset(kw2)
    ensures DefaultKey(Args(positional, kw1)) == DefaultKey(Args(positional, kw2))
  {
    SortByNameSorted(kw1);
    SortByNameSorted(kw2);
    SortedByNameUnique(SortByName(kw1), SortByName(kw2));
  }

  /** Equal keys always mean equal results: the table can then stand in for the function. */
  ghost predicate KeysDetermineResults<V(!new)>(keyFunc: Args -> Key, wrapped: Args -> V) {
    forall a, b :: keyFunc(a) == keyFunc(b) ==> wrapped(a) == wrapped(b)
  }

  class Cache<V(!new)> {
    /** `self.dict`. */
    var table: map<Key, V>
    var keyFunc: Args -> Key
    /** `self.__wrapped__`. */
    const wrapped: Args -> V
    /** The arguments each entry was computed from. */
    ghost var origin: map<Key, Args>
    /** The calls made to the wrapped function, in order. */
    ghost var calls: seq<Args>

    /** Every entry is the wrapped function's result on arguments with that key. */
    ghost predicate Valid()
      reads this
    {
      && origin.Keys == table.Keys
      && (forall k :: k in table ==> keyFunc(origin[k]) == k && table[k] == wrapped(origin[k]))
    }

    /** `Cache(func)`: an empty table and the default key. */
    constructor (func: Args -> V)
      ensures Valid()
      ensures table == map[] && keyFunc == DefaultKey && wrapped == func && calls == []
    {
      table := map[];
      keyFunc := DefaultKey;
      wrapped := func;
      origin := map[];
      calls := [];
    }

    /**
     * `__call__`: a new key calls the wrapped function once and stores the
     * result; a key already present returns the stored value and calls nothing.
     */
    method Call(args: Args) returns (v: V)
      requires Valid()
      modifies this
      ensures Valid()
      ensures keyFunc == old(keyFunc)
      ensures var key := keyFunc(args);
        && key in table && v == table[key]
        && (key !in old(table) ==> table == old(table)[key := wrapped(args)] && calls == old(calls) + [args])
        && (key in old(table) ==> table == old(table) && calls == old(calls))
      ensures forall k :: k in old(table) ==> k in table && table[k] == old(table)[k]
      ensures KeysDetermineResults(keyFunc, wrapped) ==> v == wrapped(args)
    {
      var key := keyFunc(args);
      if key !in table {
        table := table[key := wrapped(args)];
        origin := origin[key := args];
        calls := calls + [args];
      }
      v := table[key];
    }

    /** `Cache.with_key_func(key_func)(func)`: a fresh cache whose key function is `keyFunc`. */
    static method WithKeyFunc(keyFunc: Args -> Key, func: Args -> V) returns (c: Cache<V>)
      ensures fresh(c) && c.Valid()
      ensures c.table == map[] && c.keyFunc == keyFunc && c.wrapped == func && c.calls == []
    {
      c := new Cache(func);
      c.keyFunc := keyFunc;
    }
  }

  /** A second call with the same key hits the table and calls nothing more. */
  method RepeatedCallHits<V(!new)>(c: Cache<V>, args: Args) returns (first: V, second: V)
    requires c.Valid()
    modifies c
    ensures c.Valid()
    ensures first == second
    ensures |c.calls| <= |old(c.calls)| + 1
  {
    first := c.Call(args);
    second := c.Call(args);
  }
}
