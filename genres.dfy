/**
 * Grouping artists by genre: the genre-to-artists map, the genres whose
 * names match a pattern, their artists, and the map from ordered pairs of
 * genres to the artists that have both. Regular-expression matching is an
 * abstract predicate `fullMatch(pattern, text)`.
 */
module Genres {
  import opened Tracks

  /** `re.fullmatch(pattern, text)` succeeds. */
  type FullMatch = (string, string) -> bool

  /** Every key some item is filed under. */
  function AllKeys<R(==,!new), K(==,!new)>(items: seq<R>, keysOf: R -> seq<K>): set<K> {
    set r, k | r in items && k in keysOf(r) :: k
  }

  lemma AllKeysMember<R(!new), K(!new)>(items: seq<R>, keysOf: R -> seq<K>, k: K)
    ensures k in AllKeys(items, keysOf) <==> exists r :: r in items && k in keysOf(r)
  {
  }

  /**
   * `m` is the `defaultdict(set)` filled by filing every item under each of
   * its keys: its keys are the keys in use, and `m[k]` the items filed under `k`.
   */
  ghost predicate Groups<R(!new), K(!new)>(m: map<K, set<R>>, items: seq<R>, keysOf: R -> seq<K>) {
    && m.Keys == AllKeys(items, keysOf)
    && (forall k, r :: k in m ==> (r in m[k] <==> r in items && k in keysOf(r)))
  }

  lemma GroupMember<R(!new), K(!new)>(m: map<K, set<R>>, items: seq<R>, keysOf: R -> seq<K>, k: K, r: R)
    requires Groups(m, items, keysOf) && k in m
    ensures r in m[k] <==> r in items && k in keysOf(r)
  {
  }

  /** Only one map groups the items. */
  lemma GroupsUnique<R(!new), K(!new)>(m1: map<K, set<R>>, m2: map<K, set<R>>, items: seq<R>, keysOf: R -> seq<K>)
    requires Groups(m1, items, keysOf) && Groups(m2, items, keysOf)
    ensures m1 == m2
  {
    forall k | k in m1
      ensures m1[k] == m2[k]
    {
      forall r
        ensures r in m1[k] <==> r in m2[k]
      {
        assert r in m1[k] <==> r in items && k in keysOf(r);
        assert r in m2[k] <==> r in items && k in keysOf(r);
      }
    }
  }

  /** No key maps to an empty group. */
  lemma GroupsNonEmpty<R(!new), K(!new)>(m: map<K, set<R>>, items: seq<R>, keysOf: R -> seq<K>, k: K)
    requires Groups(m, items, keysOf) && k in m
    ensures m[k] != {}
  {
    var r :| r in items && k in keysOf(r);
    assert r in m[k];
  }

  /** The inner loop: `item` is added to the group of each of its keys. */
  method FileItem<R(==,!new), K(==,!new)>(m: map<K, set<R>>, ghost done: seq<R>, item: R, keysOf: R -> seq<K>)
    returns (updated: map<K, set<R>>)
    requires Groups(m, done, keysOf)
    ensures Groups(updated, done + [item], keysOf)
  {
    var ks := keysOf(item);
    updated := m;
    for j := 0 to |ks|
      invariant forall k :: k in updated <==> k in AllKeys(done, keysOf) || k in ks[..j]
      invariant forall k, r :: k in updated ==>
        (r in updated[k] <==> (r in done && k in keysOf(r)) || (r == item && k in ks[..j]))
    {
      assert ks[..j + 1] == ks[..j] + [ks[j]];
      updated := updated[ks[j] := (if ks[j] in updated then updated[ks[j]] else {}) + {item}];
    }
    assert ks[..|ks|] == ks;
    forall k
      ensures k in AllKeys(done + [item], keysOf) <==> k in AllKeys(done, keysOf) || k in ks
    {
      if k in AllKeys(done + [item], keysOf) {
        var r :| r in done + [item] && k in keysOf(r);
        if r != item {
          assert r in done;
        }
      }
      if k in ks {
        assert item in done + [item];
      }
      if k in AllKeys(done, keysOf) {
        var r :| r in done && k in keysOf(r);
        assert r in done + [item];
      }
    }
  }

  /** The nested loops filling a `defaultdict(set)`: items filed under each of their keys. */
  method GroupBy<R(==,!new), K(==,!new)>(items: seq<R>, keysOf: R -> seq<K>) returns (m: map<K, set<R>>)
    ensures Groups(m, items, keysOf)
  {
    m := map[];
    for i := 0 to |items|
      invariant Groups(m, items[..i], keysOf)
    {
      m := FileItem(m, items[..i], items[i], keysOf);
      assert items[..i + 1] == items[..i] + [items[i]];
    }
    assert items[..|items|] == items;
  }

  function GenresOf(a: Artist): seq<string> {
    a.genres
  }

  /**
   * `get_genre_artists_map`: the genres of the artists, each with the
   * artists it is one of the genres of.
   */
  method GetGenreArtistsMap(artists: seq<Artist>) returns (m: map<string, set<Artist>>)
    ensures Groups(m, artists, GenresOf)
    ensures forall g :: g in m <==> exists a :: a in artists && g in a.genres
    ensures forall g, a :: g in m ==> (a in m[g] <==> a in artists && g in a.genres)
    ensures forall g :: g in m ==> m[g] != {}
  {
    m := GroupBy(artists, GenresOf);
    forall g
      ensures g in m <==> exists a :: a in artists && g in a.genres
    {
      AllKeysMember(artists, GenresOf, g);
    }
    forall g, a | g in m
      ensures a in m[g] <==> a in artists && g in a.genres
    {
      assert GenresOf(a) == a.genres;
    }
    forall g | g in m
      ensures m[g] != {}
    {
      GroupsNonEmpty(m, artists, GenresOf, g);
    }
  }

  /** `genres_matching_pattern`: the genres of the artists that full-match the pattern. */
  function GenresMatchingPattern(keyword: string, artists: seq<Artist>, fullMatch: FullMatch): (r: set<string>)
    ensures forall g :: g in r <==> fullMatch(keyword, g) && exists a :: a in artists && g in a.genres
  {
    assert forall g :: g in AllKeys(artists, GenresOf) <==> exists a :: a in artists && g in a.genres by {
      forall g {
        AllKeysMember(artists, GenresOf, g);
      }
    }
    set g | g in AllKeys(artists, GenresOf) && fullMatch(keyword, g)
  }

  /** The artists with at least one genre in `genres`. */
  function ArtistsWithGenreIn(artists: seq<Artist>, genres: set<string>): set<Artist> {
    set a | a in artists && exists g :: g in a.genres && g in genres
  }

  /** The value `artists_of_genres_matching_pattern` returns. */
  function ArtistsOfGenresMatching(keyword: string, artists: seq<Artist>, fullMatch: FullMatch): (r: set<Artist>)
    ensures forall a :: a in r <==> a in artists && exists g :: g in a.genres && fullMatch(keyword, g)
  {
    var matching := GenresMatchingPattern(keyword, artists, fullMatch);
    assert forall a, g :: a in artists && g in a.genres ==> (g in matching <==> fullMatch(keyword, g));
    ArtistsWithGenreIn(artists, matching)
  }

  /**
   * `artists_of_genres_matching_pattern`: the members of every matching
   * genre, gathered over the matching genres in whatever order the set gives.
   */
  method ArtistsOfGenresMatchingPattern(keyword: string, artists: seq<Artist>, fullMatch: FullMatch)
    returns (members: set<Artist>)
    ensures members == ArtistsOfGenresMatching(keyword, artists, fullMatch)
  {
    members := {};
    var genreArtists := GetGenreArtistsMap(artists);
    var matching := GenresMatchingPattern(keyword, artists, fullMatch);
    var remaining := matching;
    while remaining != {}
      invariant remaining <= matching
      invariant members == ArtistsWithGenreIn(artists, matching - remaining)
      decreases |remaining|
    {
      var g :| g in remaining;
      assert g in genreArtists;
      WithGenreStep(artists, matching, remaining, g, genreArtists[g]);
      members := members + genreArtists[g];
      remaining := remaining - {g};
    }
    assert matching - remaining == matching;
  }

  /** Gathering the members of one more genre `g` adds the artists that have `g`. */
  lemma WithGenreStep(artists: seq<Artist>, matching: set<string>, remaining: set<string>, g: string,
                      group: set<Artist>)
    requires remaining <= matching && g in remaining
    requires forall a :: a in group <==> a in artists && g in a.genres
    ensures ArtistsWithGenreIn(artists, matching - (remaining - {g}))
         == ArtistsWithGenreIn(artists, matching - remaining) + group
    ensures |remaining - {g}| < |remaining|
  {
    assert matching - (remaining - {g}) == (matching - remaining) + {g};
  }

  /**
   * `itertools.permutations(g, 2)`: the ordered pairs of entries at two
   * different positions, row by row.
   */
  function Permutations2<K(==,!new)>(g: seq<K>): (r: seq<(K, K)>)
    ensures forall p :: p in r <==>
      exists i, j :: 0 <= i < |g| && 0 <= j < |g| && i != j && p == (g[i], g[j])
  {
    PermutationRows(g, 0)
  }

  function PermutationRow<K(==,!new)>(g: seq<K>, i: nat, j: nat): (r: seq<(K, K)>)
    requires i < |g| && j <= |g|
    ensures forall p :: p in r <==> exists k :: j <= k < |g| && k != i && p == (g[i], g[k])
    decreases |g| - j
  {
    if j == |g| then []
    else (if j == i then [] else [(g[i], g[j])]) + PermutationRow(g, i, j + 1)
  }

  function PermutationRows<K(==,!new)>(g: seq<K>, i: nat): (r: seq<(K, K)>)
    requires i <= |g|
    ensures forall p :: p in r <==>
      exists a, b :: i <= a < |g| && 0 <= b < |g| && a != b && p == (g[a], g[b])
    decreases |g| - i
  {
    if i == |g| then [] else PermutationRow(g, i, 0) + PermutationRows(g, i + 1)
  }

  /** For two different genres, a pair of them is there exactly when both are. */
  lemma PairOfDistinctGenres<K(!new)>(g: seq<K>, x: K, y: K)
    requires x != y
    ensures (x, y) in Permutations2(g) <==> x in g && y in g
  {
    if x in g && y in g {
      var i :| 0 <= i < |g| && g[i] == x;
      var j :| 0 <= j < |g| && g[j] == y;
      assert (x, y) == (g[i], g[j]);
    }
  }

  /** Every pair also occurs the other way round. */
  lemma PermutationsSymmetric<K(!new)>(g: seq<K>, x: K, y: K)
    ensures (x, y) in Permutations2(g) <==> (y, x) in Permutations2(g)
  {
    if (x, y) in Permutations2(g) {
      var i, j :| 0 <= i < |g| && 0 <= j < |g| && i != j && (x, y) == (g[i], g[j]);
      assert (y, x) == (g[j], g[i]);
    }
    if (y, x) in Permutations2(g) {
      var i, j :| 0 <= i < |g| && 0 <= j < |g| && i != j && (y, x) == (g[i], g[j]);
      assert (x, y) == (g[j], g[i]);
    }
  }

  /** The ordered pairs of an artist's genres. */
  function GenrePairs<R(==,!new)>(getArtist: R -> Artist): R -> seq<(string, string)> {
    (r: R) => Permutations2(getArtist(r).genres)
  }

  /** `(x, y)` and `(y, x)` are both keys or both not, with the same artists. */
  ghost predicate SymmetricPairs<R(!new)>(m: map<(string, string), set<R>>) {
    forall p :: p in m ==> (p.1, p.0) in m && m[(p.1, p.0)] == m[p]
  }

  /** For two different genres, the artists filed under the pair are those having both. */
  lemma GroupedPairsOfDistinctGenres<R(!new)>(m: map<(string, string), set<R>>, artists: seq<R>, getArtist: R -> Artist)
    requires Groups(m, artists, GenrePairs(getArtist))
    ensures forall x, y, r :: x != y && (x, y) in m ==>
      (r in m[(x, y)] <==> r in artists && x in getArtist(r).genres && y in getArtist(r).genres)
  {
    forall x, y, r | x != y && (x, y) in m
      ensures r in m[(x, y)] <==> r in artists && x in getArtist(r).genres && y in getArtist(r).genres
    {
      assert r in m[(x, y)] <==> r in artists && (x, y) in GenrePairs(getArtist)(r);
      PairOfDistinctGenres(getArtist(r).genres, x, y);
    }
  }

  lemma GroupedPairSwap<R(!new)>(m: map<(string, string), set<R>>, artists: seq<R>, getArtist: R -> Artist, x: string, y: string)
    requires Groups(m, artists, GenrePairs(getArtist)) && (x, y) in m
    ensures (y, x) in m && m[(y, x)] == m[(x, y)]
  {
    SwappedPairKey(m, artists, getArtist, x, y);
    forall r
      ensures r in m[(y, x)] <==> r in m[(x, y)]
    {
      SwappedPairMember(m, artists, getArtist, x, y, r);
    }
  }

  lemma SwappedPairKey<R(!new)>(m: map<(string, string), set<R>>, artists: seq<R>, getArtist: R -> Artist, x: string, y: string)
    requires Groups(m, artists, GenrePairs(getArtist)) && (x, y) in m
    ensures (y, x) in m
  {
    var keysOf := GenrePairs(getArtist);
    AllKeysMember(artists, keysOf, (x, y));
    var r0 :| r0 in artists && (x, y) in keysOf(r0);
    PermutationsSymmetric(getArtist(r0).genres, x, y);
    AllKeysMember(artists, keysOf, (y, x));
  }

  lemma SwappedPairMember<R(!new)>(m: map<(string, string), set<R>>, artists: seq<R>, getArtist: R -> Artist,
                                   x: string, y: string, r: R)
    requires Groups(m, artists, GenrePairs(getArtist)) && (x, y) in m && (y, x) in m
    ensures r in m[(y, x)] <==> r in m[(x, y)]
  {
    var keysOf := GenrePairs(getArtist);
    GroupMember(m, artists, keysOf, (x, y), r);
    GroupMember(m, artists, keysOf, (y, x), r);
    assert keysOf(r) == Permutations2(getArtist(r).genres);
    PermutationsSymmetric(getArtist(r).genres, x, y);
  }

  lemma GroupedPairsSymmetric<R(!new)>(m: map<(string, string), set<R>>, artists: seq<R>, getArtist: R -> Artist)
    requires Groups(m, artists, GenrePairs(getArtist))
    ensures SymmetricPairs(m)
  {
    forall p | p in m
      ensures (p.1, p.0) in m && m[(p.1, p.0)] == m[p]
    {
      GroupedPairSwap(m, artists, getArtist, p.0, p.1);
    }
  }

  /**
   * `genre_overlaps`: each ordered pair of genres the artists hold at two
   * different positions, with the artists holding it. Artists come as
   * references resolved by `getArtist`.
   */
  method GenreOverlaps<R(==,!new)>(artists: seq<R>, getArtist: R -> Artist) returns (m: map<(string, string), set<R>>)
    ensures Groups(m, artists, GenrePairs(getArtist))
    ensures forall x, y, r :: x != y && (x, y) in m ==>
      (r in m[(x, y)] <==> r in artists && x in getArtist(r).genres && y in getArtist(r).genres)
    ensures SymmetricPairs(m)
  {
    m := GroupBy(artists, GenrePairs(getArtist));
    GroupedPairsOfDistinctGenres(m, artists, getArtist);
    GroupedPairsSymmetric(m, artists, getArtist);
  }
}
