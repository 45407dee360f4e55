/**
 * The earlier genre helpers: the same grouping as the newer ones, an option
 * to match the whole comma-joined genre list instead of single genres, and
 * the genres related to a genre through shared artists.
 */
module LibGenres {
  import opened Tracks
  import opened PyStrings
  import Genres

  /** `genres_and_members`: the genre-to-artists map. */
  method GenresAndMembers(artists: seq<Artist>) returns (m: map<string, set<Artist>>)
    ensures Genres.Groups(m, artists, Genres.GenresOf)
    ensures forall g, a :: g in m ==> (a in m[g] <==> a in artists && g in a.genres)
  {
    m := Genres.GetGenreArtistsMap(artists);
  }

  /** `genres_matching`: the grouped genres that full-match the pattern. */
  function GenresMatching(keyword: string, artists: seq<Artist>, fullMatch: Genres.FullMatch): (r: set<string>)
    ensures forall g :: g in r <==> fullMatch(keyword, g) && exists a :: a in artists && g in a.genres
  {
    Genres.GenresMatchingPattern(keyword, artists, fullMatch)
  }

  /**
   * `artists_of_genres_matching`: with `matchIndividual` an artist counts
   * when one of its genres matches; without it the comma-joined list of its
   * genres must match as a whole. `regex` is accepted and ignored.
   */
  method ArtistsOfGenresMatching(keyword: string, artists: seq<Artist>, regex: bool, matchIndividual: bool,
                                 fullMatch: Genres.FullMatch)
    returns (members: set<Artist>)
    ensures !matchIndividual ==>
      forall a :: a in members <==> a in artists && fullMatch(keyword, JoinWith(a.genres, ","))
    ensures matchIndividual ==>
      forall a :: a in members <==> a in artists && exists g :: g in a.genres && fullMatch(keyword, g)
  {
    if !matchIndividual {
      members := set a | a in artists && fullMatch(keyword, JoinWith(a.genres, ","));
      return;
    }
    members := Genres.ArtistsOfGenresMatchingPattern(keyword, artists, fullMatch);
  }

  /** `genre_overlaps`: artists are references, resolved by `getArtist`. */
  method GenreOverlaps<R(==,!new)>(artists: seq<R>, getArtist: R -> Artist) returns (m: map<(string, string), set<R>>)
    ensures Genres.Groups(m, artists, Genres.GenrePairs(getArtist))
    ensures Genres.SymmetricPairs(m)
  {
    m := Genres.GenreOverlaps(artists, getArtist);
  }

  /** Some artist holds both genres, at two different positions of its genre list. */
  ghost predicate ShareAnArtist<R(!new)>(artists: seq<R>, getArtist: R -> Artist, g1: string, g2: string) {
    exists r :: r in artists && (g1, g2) in Permutations(getArtist, r)
  }

  function Permutations<R>(getArtist: R -> Artist, r: R): seq<(string, string)> {
    Genres.Permutations2(getArtist(r).genres)
  }

  /** Both genres of every pair in `keys` that holds `genre`. */
  function Touching(genre: string, keys: set<(string, string)>): set<string> {
    (set p | p in keys && (p.0 == genre || p.1 == genre) :: p.0)
      + (set p | p in keys && (p.0 == genre || p.1 == genre) :: p.1)
  }

  lemma TouchingStep(genre: string, done: set<(string, string)>, pair: (string, string))
    ensures Touching(genre, done + {pair})
         == Touching(genre, done) + if pair.0 == genre || pair.1 == genre then {pair.0, pair.1} else {}
  {
  }

  /** Another genre is touched exactly when it is paired with `genre`, either way round. */
  lemma TouchingOther(genre: string, keys: set<(string, string)>, g: string)
    requires g != genre
    ensures g in Touching(genre, keys) <==> (genre, g) in keys || (g, genre) in keys
  {
    if g in Touching(genre, keys) {
      var p :| p in keys && (p.0 == genre || p.1 == genre) && (p.0 == g || p.1 == g);
      assert p == (genre, g) || p == (g, genre);
    }
  }

  /** The loop of `related_genres`: both genres of each pair holding `genre`, over the pairs in turn. */
  method GatherTouching(genre: string, keys: set<(string, string)>) returns (related: set<string>)
    ensures related == Touching(genre, keys)
  {
    var remaining := keys;
    related := {};
    while remaining != {}
      invariant remaining <= keys
      invariant related == Touching(genre, keys - remaining)
      decreases |remaining|
    {
      var pair :| pair in remaining;
      TouchingStep(genre, keys - remaining, pair);
      assert keys - (remaining - {pair}) == (keys - remaining) + {pair};
      if pair.0 == genre || pair.1 == genre {
        related := related + {pair.0, pair.1};
      }
      remaining := remaining - {pair};
    }
    assert keys - remaining == keys;
  }

  /**
   * `related_genres`: every genre of every overlap pair that holds `genre`,
   * gathered over the pairs in the map's order, and then `genre` itself removed.
   */
  method RelatedGenres<R(==,!new)>(genre: string, artists: seq<R>, getArtist: R -> Artist) returns (related: set<string>)
    ensures genre !in related
    ensures forall g :: g in related <==> g != genre && ShareAnArtist(artists, getArtist, genre, g)
  {
    var overlaps := GenreOverlaps(artists, getArtist);
    related := GatherTouching(genre, overlaps.Keys);
    forall g | g != genre
      ensures g in related <==> ShareAnArtist(artists, getArtist, genre, g)
    {
      TouchingOther(genre, overlaps.Keys, g);
      PairedMeansShared(genre, g, overlaps, artists, getArtist);
    }
    related := related - {genre};
  }

  /** A pair key of `genre` and another genre, either way round, means some artist has both. */
  lemma PairedMeansShared<R(!new)>(genre: string, g: string, overlaps: map<(string, string), set<R>>,
                                   artists: seq<R>, getArtist: R -> Artist)
    requires Genres.Groups(overlaps, artists, Genres.GenrePairs(getArtist))
    requires Genres.SymmetricPairs(overlaps)
    ensures (genre, g) in overlaps || (g, genre) in overlaps <==> ShareAnArtist(artists, getArtist, genre, g)
  {
    if (g, genre) in overlaps {
      assert (genre, g) in overlaps;
    }
    Genres.AllKeysMember(artists, Genres.GenrePairs(getArtist), (genre, g));
    if (genre, g) in overlaps {
      var r :| r in artists && (genre, g) in Genres.GenrePairs(getArtist)(r);
      assert (genre, g) in Permutations(getArtist, r);
    }
    if ShareAnArtist(artists, getArtist, genre, g) {
      var r :| r in artists && (genre, g) in Permutations(getArtist, r);
      assert (genre, g) in Genres.GenrePairs(getArtist)(r);
    }
  }

  /** For another genre, related means that one artist lists both. */
  lemma RelatedIsSharedArtist<R(!new)>(artists: seq<R>, getArtist: R -> Artist, genre: string, g: string)
    requires g != genre
    ensures ShareAnArtist(artists, getArtist, genre, g) <==>
      exists r :: r in artists && genre in getArtist(r).genres && g in getArtist(r).genres
  {
    forall r
      ensures (genre, g) in Permutations(getArtist, r) <==> genre in getArtist(r).genres && g in getArtist(r).genres
    {
      Genres.PairOfDistinctGenres(getArtist(r).genres, genre, g);
    }
  }
}
