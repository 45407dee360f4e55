/** Sequence helpers shared by the list comprehensions and slices of the model. */
module Lists {

  /** `[x for x in s if p(x)]`: the order-preserving subsequence of the elements satisfying `p`. */
  function Filter<T>(s: seq<T>, p: T -> bool): (r: seq<T>)
    ensures |r| <= |s|
    ensures forall i :: 0 <= i < |r| ==> r[i] in s && p(r[i])
    ensures forall i :: 0 <= i < |s| && p(s[i]) ==> s[i] in r
  {
    if s == [] then []
    else if p(s[0]) then [s[0]] + Filter(s[1..], p)
    else Filter(s[1..], p)
  }

  /** `r` is obtained from `s` by deleting elements, keeping the order of the rest. */
  ghost predicate SubsequenceOf<T>(r: seq<T>, s: seq<T>)
    decreases |s|
  {
    if r == [] then true
    else if s == [] then false
    else if r[0] == s[0] then SubsequenceOf(r[1..], s[1..])
    else SubsequenceOf(r, s[1..])
  }

  lemma {:induction false} FilterIsSubsequence<T>(s: seq<T>, p: T -> bool)
    ensures SubsequenceOf(Filter(s, p), s)
    decreases |s|
  {
    if s != [] {
      FilterIsSubsequence(s[1..], p);
      var r := Filter(s[1..], p);
      if !p(s[0]) {
        SubsequenceSkip(r, s);
      }
    }
  }

  /** Dropping the head of `s` keeps every subsequence of the tail a subsequence. */
  lemma {:induction false} SubsequenceSkip<T>(r: seq<T>, s: seq<T>)
    requires s != [] && SubsequenceOf(r, s[1..])
    ensures SubsequenceOf(r, s)
    decreases |s|, |r|
  {
    if r != [] && r[0] == s[0] {
      // the definition takes the matching branch: r[1..] must be a subsequence of s[1..]
      SubsequenceTail(r, s[1..]);
    }
  }

  lemma {:induction false} SubsequenceTail<T>(r: seq<T>, s: seq<T>)
    requires r != [] && SubsequenceOf(r, s)
    ensures SubsequenceOf(r[1..], s)
    decreases |s|, |r|
  {
    if s != [] {
      if r[0] == s[0] {
        SubsequenceSkip(r[1..], s);
      } else {
        SubsequenceTail(r, s[1..]);
        SubsequenceSkip(r[1..], s);
      }
    }
  }

  /** Each element occurs in the filtered list as often as in `s` if it passes, and not at all otherwise. */
  lemma {:induction false} FilterMultiplicity<T>(s: seq<T>, p: T -> bool, x: T)
    ensures multiset(Filter(s, p))[x] == if p(x) then multiset(s)[x] else 0
    decreases |s|
  {
    if s != [] {
      FilterMultiplicity(s[1..], p, x);
      assert s == [s[0]] + s[1..];
    }
  }

  lemma {:induction false} FilterConcat<T>(a: seq<T>, b: seq<T>, p: T -> bool)
    ensures Filter(a + b, p) == Filter(a, p) + Filter(b, p)
    decreases |a|
  {
    if a != [] {
      assert (a + b)[0] == a[0] && (a + b)[1..] == a[1..] + b;
      FilterConcat(a[1..], b, p);
    } else {
      assert a + b == b;
    }
  }

  /** A filter that every element passes is the identity. */
  lemma {:induction false} FilterAll<T>(s: seq<T>, p: T -> bool)
    requires forall x :: x in s ==> p(x)
    ensures Filter(s, p) == s
    decreases |s|
  {
    if s != [] {
      FilterAll(s[1..], p);
    }
  }

  /** `sum(1 for x in s if p(x))`. */
  function CountIf<T>(s: seq<T>, p: T -> bool): (n: nat)
    ensures n <= |s|
    ensures n == 0 <==> forall x :: x in s ==> !p(x)
  {
    if s == [] then 0
    else (if p(s[0]) then 1 else 0) + CountIf(s[1..], p)
  }

  lemma {:induction false} CountIfConcat<T>(a: seq<T>, b: seq<T>, p: T -> bool)
    ensures CountIf(a + b, p) == CountIf(a, p) + CountIf(b, p)
    decreases |a|
  {
    if a != [] {
      assert (a + b)[0] == a[0] && (a + b)[1..] == a[1..] + b;
      CountIfConcat(a[1..], b, p);
    } else {
      assert a + b == b;
    }
  }

  lemma {:induction false} CountIfAll<T>(s: seq<T>, p: T -> bool)
    requires forall x :: x in s ==> p(x)
    ensures CountIf(s, p) == |s|
    decreases |s|
  {
    if s != [] {
      assert s[0] in s;
      assert forall x :: x in s[1..] ==> x in s;
      CountIfAll(s[1..], p);
    }
  }

  /** The concatenation of a list of lists. */
  function Flatten<T(!new)>(ss: seq<seq<T>>): (r: seq<T>)
    ensures forall x :: x in r <==> exists s :: s in ss && x in s
  {
    if ss == [] then []
    else
      assert forall s :: s in ss <==> s == ss[0] || s in ss[1..];
      ss[0] + Flatten(ss[1..])
  }

  lemma {:induction false} FlattenConcat<T(!new)>(a: seq<seq<T>>, b: seq<seq<T>>)
    ensures Flatten(a + b) == Flatten(a) + Flatten(b)
    decreases |a|
  {
    if a != [] {
      assert (a + b)[0] == a[0] && (a + b)[1..] == a[1..] + b;
      FlattenConcat(a[1..], b);
    } else {
      assert a + b == b;
    }
  }

  /** No element occurs twice. */
  predicate Distinct<T(==)>(s: seq<T>) {
    forall i, j :: 0 <= i < j < |s| ==> s[i] != s[j]
  }

  /** `s` without repetitions, each element at its first occurrence. */
  function Dedup<T(==,!new)>(s: seq<T>): (r: seq<T>)
    ensures forall x :: x in r <==> x in s
    ensures Distinct(r)
  {
    DedupFrom(s, {})
  }

  /** The elements of either list, each once, in first-occurrence order. */
  function Union<T(==,!new)>(a: seq<T>, b: seq<T>): (r: seq<T>)
    ensures forall x :: x in r <==> x in a || x in b
    ensures Distinct(r)
  {
    assert forall x :: x in a + b <==> x in a || x in b;
    Dedup(a + b)
  }

  function DedupFrom<T(==,!new)>(s: seq<T>, seen: set<T>): (r: seq<T>)
    ensures forall x :: x in r <==> x in s && x !in seen
    ensures Distinct(r)
  {
    if s == [] then []
    else if s[0] in seen then DedupFrom(s[1..], seen)
    else [s[0]] + DedupFrom(s[1..], seen + {s[0]})
  }

  /** Python's `s[:n]`: the first `n` elements, or all but the last `-n` when `n` is negative. */
  function PyPrefix<T>(s: seq<T>, n: int): (r: seq<T>)
    ensures r <= s
    ensures 0 <= n ==> |r| == if n <= |s| then n else |s|
    ensures n < 0 ==> |r| == if |s| + n >= 0 then |s| + n else 0
  {
    if n >= 0 then s[..if n <= |s| then n else |s|]
    else s[..if |s| + n >= 0 then |s| + n else 0]
  }

  /**
   * The position Python's `max(s, key=key)` takes its result from: an element
   * of greatest key, the first such one (later elements replace the running
   * maximum only when strictly greater).
   */
  function ArgMaxIndex<T>(s: seq<T>, key: T -> real): (i: nat)
    requires |s| > 0
    ensures i < |s|
    ensures forall j :: 0 <= j < |s| ==> key(s[j]) <= key(s[i])
    ensures forall j :: 0 <= j < i ==> key(s[j]) < key(s[i])
  {
    if |s| == 1 then 0
    else
      var k := ArgMaxIndex(s[1..], key);
      if key(s[k + 1]) > key(s[0]) then k + 1 else 0
  }

  /** `max(s, key=key)`. */
  function ArgMax<T>(s: seq<T>, key: T -> real): (r: T)
    requires |s| > 0
  {
    s[ArgMaxIndex(s, key)]
  }

  /** The position of Python's `min(s, key=key)`: the first element of least key. */
  function ArgMinIndex<T>(s: seq<T>, key: T -> real): (i: nat)
    requires |s| > 0
    ensures i < |s|
    ensures forall j :: 0 <= j < |s| ==> key(s[i]) <= key(s[j])
    ensures forall j :: 0 <= j < i ==> key(s[i]) < key(s[j])
  {
    if |s| == 1 then 0
    else
      var k := ArgMinIndex(s[1..], key);
      if key(s[k + 1]) < key(s[0]) then k + 1 else 0
  }

  /** `min(s, key=key)`. */
  function ArgMin<T>(s: seq<T>, key: T -> real): (r: T)
    requires |s| > 0
  {
    s[ArgMinIndex(s, key)]
  }

  /** The first element of least `1 - key` is the first element of greatest `key`. */
  lemma {:induction false} ArgMinOfComplement<T>(s: seq<T>, key: T -> real, co: T -> real)
    requires |s| > 0
    requires forall x :: co(x) == 1.0 - key(x)
    ensures ArgMinIndex(s, co) == ArgMaxIndex(s, key)
    decreases |s|
  {
    if |s| > 1 {
      ArgMinOfComplement(s[1..], key, co);
    }
  }

  /** The first element of greatest `1 - key` is the first element of least `key`. */
  lemma {:induction false} ArgMaxOfComplement<T>(s: seq<T>, key: T -> real, co: T -> real)
    requires |s| > 0
    requires forall x :: co(x) == 1.0 - key(x)
    ensures ArgMaxIndex(s, co) == ArgMinIndex(s, key)
    decreases |s|
  {
    if |s| > 1 {
      ArgMaxOfComplement(s[1..], key, co);
    }
  }

  /** When every key is the same, `min` and `max` return the first element. */
  lemma ConstantKeyPicksFirst<T>(s: seq<T>, key: T -> real)
    requires |s| > 0
    requires forall j :: 0 <= j < |s| ==> key(s[j]) == key(s[0])
    ensures ArgMinIndex(s, key) == 0 && ArgMaxIndex(s, key) == 0
  {
  }
}
