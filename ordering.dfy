/**
 * Sorting tracks by a score, largest first, as Python's
 * `sorted(..., key=..., reverse=True)` does: stable, so equal scores keep
 * their input order.
 */
module Ordering {
  import opened Lists
  import opened Tracks

  /** Non-increasing by `key`. */
  predicate SortedDescending<T>(s: seq<T>, key: T -> real) {
    forall i, j :: 0 <= i < j < |s| ==> key(s[i]) >= key(s[j])
  }

  /** `x` goes before the first element whose key is no larger than its own. */
  function InsertDescending<T>(x: T, sorted: seq<T>, key: T -> real): (r: seq<T>)
    ensures multiset(r) == multiset(sorted) + multiset{x}
    ensures |r| == |sorted| + 1
  {
    if sorted == [] then [x]
    else
      assert sorted == [sorted[0]] + sorted[1..];
      if key(x) >= key(sorted[0]) then [x] + sorted
      else [sorted[0]] + InsertDescending(x, sorted[1..], key)
  }

  /** `sorted(s, key=key, reverse=True)`. */
  function SortDescending<T>(s: seq<T>, key: T -> real): (r: seq<T>)
    ensures multiset(r) == multiset(s)
    ensures |r| == |s|
  {
    if s == [] then []
    else
      assert s == [s[0]] + s[1..];
      InsertDescending(s[0], SortDescending(s[1..], key), key)
  }

  lemma {:induction false} InsertKeepsSortedDescending<T>(x: T, sorted: seq<T>, key: T -> real)
    requires SortedDescending(sorted, key)
    ensures SortedDescending(InsertDescending(x, sorted, key), key)
    decreases |sorted|
  {
    if sorted != [] && key(x) < key(sorted[0]) {
      InsertKeepsSortedDescending(x, sorted[1..], key);
      var r := InsertDescending(x, sorted, key);
      forall j | 0 < j < |r|
        ensures key(sorted[0]) >= key(r[j])
      {
        assert r[j] in multiset(sorted[1..]) + multiset{x};
        if r[j] != x {
          assert r[j] in sorted[1..];
          var m :| 0 <= m < |sorted[1..]| && sorted[1..][m] == r[j];
          assert sorted[m + 1] == r[j];
        }
      }
    }
  }

  /** The result is ordered by non-increasing key. */
  lemma {:induction false} SortDescendingSorted<T>(s: seq<T>, key: T -> real)
    ensures SortedDescending(SortDescending(s, key), key)
    decreases |s|
  {
    if s != [] {
      SortDescendingSorted(s[1..], key);
      InsertKeepsSortedDescending(s[0], SortDescending(s[1..], key), key);
    }
  }

  /** The elements with key `v`, in order. */
  function WithKey<T>(s: seq<T>, key: T -> real, v: real): seq<T> {
    Filter(s, (t: T) => key(t) == v)
  }

  lemma WithKeyCons<T>(y: T, s: seq<T>, key: T -> real, v: real)
    ensures WithKey([y] + s, key, v) == (if key(y) == v then [y] else []) + WithKey(s, key, v)
  {
    assert ([y] + s)[1..] == s;
  }

  lemma {:induction false} InsertRespectsOrderOfEquals<T>(x: T, sorted: seq<T>, key: T -> real, v: real)
    requires SortedDescending(sorted, key)
    ensures WithKey(InsertDescending(x, sorted, key), key, v)
         == (if key(x) == v then [x] else []) + WithKey(sorted, key, v)
    decreases |sorted|
  {
    if sorted == [] {
      WithKeyCons(x, [], key, v);
      assert [x] + [] == [x];
    } else if key(x) >= key(sorted[0]) {
      assert InsertDescending(x, sorted, key) == [x] + sorted;
      WithKeyCons(x, sorted, key, v);
    } else {
      var y, rest := sorted[0], sorted[1..];
      assert sorted == [y] + rest;
      assert InsertDescending(x, sorted, key) == [y] + InsertDescending(x, rest, key);
      InsertRespectsOrderOfEquals(x, rest, key, v);
      WithKeyCons(y, InsertDescending(x, rest, key), key, v);
      WithKeyCons(y, rest, key, v);
      // when x has key v, the larger y does not, so the two may swap
      if key(x) == v {
        assert key(y) != v;
      }
    }
  }

  /** Stability: the elements of any one key keep their input order. */
  lemma {:induction false} SortDescendingStable<T>(s: seq<T>, key: T -> real, v: real)
    ensures WithKey(SortDescending(s, key), key, v) == WithKey(s, key, v)
    decreases |s|
  {
    if s != [] {
      SortDescendingStable(s[1..], key, v);
      SortDescendingSorted(s[1..], key);
      InsertRespectsOrderOfEquals(s[0], SortDescending(s[1..], key), key, v);
    }
  }

  /**
   * `similarity(scores[a], scores[b])` with `scores = get_scores_for_tracks(pool)`:
   * the similarity of two tracks' scores, the scores being percentiles over the
   * pool they were computed for. The scores themselves are not modelled.
   */
  type Similarity = (seq<Track>, Track, Track) -> real

  /** The sort key of `by_similarity`: similarity to the seed, scored over `[*tracks, seed]`. */
  function SimilarityKey(seed: Track, tracks: seq<Track>, similarity: Similarity): Track -> real {
    (t: Track) => similarity(tracks + [seed], t, seed)
  }

  /**
   * `by_similarity(seed=seed, tracks=tracks)`: the tracks ordered from the
   * most to the least similar to the seed, which only serves as reference.
   */
  function BySimilarity(seed: Track, tracks: seq<Track>, similarity: Similarity): (r: seq<Track>)
    ensures multiset(r) == multiset(tracks)
  {
    SortDescending(tracks, SimilarityKey(seed, tracks, similarity))
  }

  /** Ordered by similarity to the seed, equal similarities in input order; the seed is only there if it was. */
  lemma BySimilarityOrders(seed: Track, tracks: seq<Track>, similarity: Similarity, v: real)
    ensures var r := BySimilarity(seed, tracks, similarity);
      var key := SimilarityKey(seed, tracks, similarity);
      && SortedDescending(r, key)
      && WithKey(r, key, v) == WithKey(tracks, key, v)
      && (seed in r <==> seed in tracks)
  {
    var key := SimilarityKey(seed, tracks, similarity);
    SortDescendingSorted(tracks, key);
    SortDescendingStable(tracks, key, v);
    var r := BySimilarity(seed, tracks, similarity);
    assert seed in r <==> seed in multiset(r);
  }
}
