/**
 * The plain track filters: closures that keep, in order, the tracks passing
 * a predicate on the track, its album or its artists. Album and artist
 * look-ups are Spotify calls and come in as functions.
 */
module Filters {
  import opened Wrappers
  import opened Lists
  import opened Tracks
  import opened MusicTheory
  import opened Ordering

  type TrackFilter = seq<Track> -> seq<Track>

  /** `by_track_attribute(track_filter_func)`. */
  function ByTrackAttribute(trackFilter: Track -> bool): (f: TrackFilter)
    ensures forall tracks, t :: t in f(tracks) <==> t in tracks && trackFilter(t)
  {
    (tracks: seq<Track>) => Filter(tracks, trackFilter)
  }

  /** A filter keeps the order of what it keeps and every copy of it. */
  lemma ByTrackAttributeKeepsOrder(trackFilter: Track -> bool, tracks: seq<Track>)
    ensures SubsequenceOf(ByTrackAttribute(trackFilter)(tracks), tracks)
    ensures forall t :: multiset(ByTrackAttribute(trackFilter)(tracks))[t]
                        == if trackFilter(t) then multiset(tracks)[t] else 0
  {
    FilterIsSubsequence(tracks, trackFilter);
    forall t {
      FilterMultiplicity(tracks, trackFilter, t);
    }
  }

  /** `by_album_attribute(album_filter_func)`: the test is on each track's album. */
  function ByAlbumAttribute(albumFilter: Album -> bool, getAlbum: string -> Album): (f: TrackFilter)
    ensures forall tracks, t :: t in f(tracks) <==> t in tracks && albumFilter(getAlbum(t.albumId))
  {
    ByTrackAttribute((t: Track) => albumFilter(getAlbum(t.albumId)))
  }

  /** Every artist of the track passes. */
  predicate AllArtistsPass(t: Track, artistFilter: Artist -> bool, getArtist: ArtistId -> Artist) {
    forall a :: a in t.artistIds ==> artistFilter(getArtist(a))
  }

  /** `by_artist_attribute(artist_filter_func)`: every one of a track's artists must pass. */
  function ByArtistAttribute(artistFilter: Artist -> bool, getArtist: ArtistId -> Artist): (f: TrackFilter)
    ensures forall tracks, t :: t in f(tracks) <==> t in tracks && AllArtistsPass(t, artistFilter, getArtist)
  {
    ByTrackAttribute((t: Track) => AllArtistsPass(t, artistFilter, getArtist))
  }

  /** A track without artists passes any artist test. */
  lemma ArtistlessTrackIsKept(artistFilter: Artist -> bool, getArtist: ArtistId -> Artist, t: Track)
    requires t.artistIds == []
    ensures ByArtistAttribute(artistFilter, getArtist)([t]) == [t]
  {
    assert t in [t];
  }

  /** `by_scale(key=..., mode=...)`: both names are looked up first, and an unknown one raises. */
  function ByScale(key: string, mode: string): (r: Result<TrackFilter>)
    ensures r.Err? <==> key !in Keys || mode !in Modes
    ensures r.Err? ==> r.error == ValueError
    ensures r.Ok? ==> forall tracks, t :: t in r.value(tracks) <==>
      t in tracks && t.key == SpotifyFriendlyKey(key).value && t.mode == SpotifyFriendlyMode(mode).value
  {
    var k :- SpotifyFriendlyKey(key);
    var m :- SpotifyFriendlyMode(mode);
    Ok(ByTrackAttribute((t: Track) => t.key == k && t.mode == m))
  }

  /** Keeping the tracks in C major keeps those with key 0 and mode 1. */
  lemma ByScaleCMajor(tracks: seq<Track>)
    ensures ByScale("C", "major").Ok?
    ensures forall t :: t in ByScale("C", "major").value(tracks) <==> t in tracks && t.key == 0 && t.mode == 1
  {
    KeyEncodingExamples();
    ModeEncoding();
  }

  /** `by_number_of_tracks(n)` without random sampling: `tracks[:n]`. */
  function ByNumberOfTracks(n: int): (f: TrackFilter)
    ensures forall tracks :: f(tracks) <= tracks
    ensures forall tracks :: 0 <= n ==> |f(tracks)| == if n <= |tracks| then n else |tracks|
  {
    (tracks: seq<Track>) => PyPrefix(tracks, n)
  }

  /** The album is not a compilation and its year lies in the closed range; a missing end is open. */
  predicate ReleasedWithin(album: Album, startYear: Option<int>, endYear: Option<int>) {
    && album.albumType != "compilation"
    && (startYear.None? || startYear.value <= album.releaseYear)
    && (endYear.None? || album.releaseYear <= endYear.value)
  }

  /** `by_release_year(start_year, end_year)`: both ends inclusive. */
  function ByReleaseYear(startYear: Option<int>, endYear: Option<int>, getAlbum: string -> Album): (f: TrackFilter)
    ensures forall tracks, t :: t in f(tracks) <==>
      t in tracks && ReleasedWithin(getAlbum(t.albumId), startYear, endYear)
  {
    ByAlbumAttribute((album: Album) => ReleasedWithin(album, startYear, endYear), getAlbum)
  }

  /** An album of the end year is kept, a compilation never. */
  lemma ReleaseYearIsInclusive(t: Track, getAlbum: string -> Album)
    ensures getAlbum(t.albumId).releaseYear == 1999 && getAlbum(t.albumId).albumType == "album"
      ==> ByReleaseYear(Some(1990), Some(1999), getAlbum)([t]) == [t]
    ensures getAlbum(t.albumId).albumType == "compilation" ==> ByReleaseYear(None, None, getAlbum)([t]) == []
  {
    assert t in [t];
    var r1 := ByReleaseYear(None, None, getAlbum)([t]);
    assert getAlbum(t.albumId).albumType == "compilation" ==> t !in r1;
    assert forall u :: u in r1 ==> u == t;
  }

  /**
   * `by_similarity_to_track(track)`: the tracks ordered by similarity to the
   * seed, rescored over the tracks given and the seed on every call.
   */
  function BySimilarityToTrack(seed: Track, similarity: Similarity): (f: TrackFilter)
    ensures forall tracks :: multiset(f(tracks)) == multiset(tracks)
    ensures forall tracks :: SortedDescending(f(tracks), SimilarityKey(seed, tracks, similarity))
    ensures forall tracks, v :: WithKey(f(tracks), SimilarityKey(seed, tracks, similarity), v)
                             == WithKey(tracks, SimilarityKey(seed, tracks, similarity), v)
  {
    forall tracks: seq<Track>
      ensures SortedDescending(BySimilarity(seed, tracks, similarity), SimilarityKey(seed, tracks, similarity))
    {
      BySimilarityOrders(seed, tracks, similarity, 0.0);
    }
    forall tracks: seq<Track>, v: real
      ensures WithKey(BySimilarity(seed, tracks, similarity), SimilarityKey(seed, tracks, similarity), v)
           == WithKey(tracks, SimilarityKey(seed, tracks, similarity), v)
    {
      BySimilarityOrders(seed, tracks, similarity, v);
    }
    (tracks: seq<Track>) => BySimilarity(seed, tracks, similarity)
  }
}
