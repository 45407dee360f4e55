/** The value objects the ordering engine and the list processors work on. */
module Tracks {

  type ArtistId = string

  /**
   * A track with the audio features the integer rules read (`key`, `mode`,
   * `duration_ms`); the floating-point features are reached through
   * oracles passed to the operations that use them.
   */
  datatype Track = Track(
    id: string,
    name: string,
    albumId: string,
    artistIds: seq<ArtistId>,  // the first one is the primary artist
    popularity: int,
    key: int,                  // 0..11 for real tracks
    mode: int,                 // 0 = minor, 1 = major
    durationMs: int)

  datatype Artist = Artist(id: ArtistId, name: string, genres: seq<string>, popularity: int)

  datatype Album = Album(id: string, albumType: string, releaseYear: int)

  /** What `get_artist` accepts: an artist object or an artist id. */
  datatype ArtistRef = Given(artist: Artist) | ById(id: ArtistId)

  /** `get_artist`: an artist object passes through, an id is fetched with `lookup`. */
  function GetArtist(ref: ArtistRef, lookup: ArtistId -> Artist): Artist {
    match ref
    case Given(a) => a
    case ById(id) => lookup(id)
  }

  /** `set(track.artist_ids)`. */
  function ArtistSet(t: Track): (s: set<ArtistId>)
    ensures forall a :: a in s <==> a in t.artistIds
  {
    set a | a in t.artistIds
  }

  /** `set(t.artist_ids) & set(u.artist_ids)` is non-empty. */
  predicate ShareArtist(t: Track, u: Track) {
    ArtistSet(t) * ArtistSet(u) != {}
  }

  /** Every artist credit of every track, in order: what a `Counter` of the tracks' artists counts. */
  function ArtistCredits(tracks: seq<Track>): (r: seq<ArtistId>)
    ensures |tracks| == 1 ==> r == tracks[0].artistIds
  {
    if tracks == [] then [] else tracks[0].artistIds + ArtistCredits(tracks[1..])
  }

  /** An artist of any track is among the credits. */
  lemma {:induction false} CreditedArtist(tracks: seq<Track>, k: nat, a: ArtistId)
    requires k < |tracks| && a in tracks[k].artistIds
    ensures a in ArtistCredits(tracks)
    decreases k
  {
    if k > 0 {
      CreditedArtist(tracks[1..], k - 1, a);
    }
  }

  /** `Counter(...).get(a, 0)` over the tracks' artist credits. */
  function ArtistCount(tracks: seq<Track>, a: ArtistId): nat {
    multiset(ArtistCredits(tracks))[a]
  }

  lemma {:induction false} ArtistCreditsConcat(a: seq<Track>, b: seq<Track>)
    ensures ArtistCredits(a + b) == ArtistCredits(a) + ArtistCredits(b)
    decreases |a|
  {
    if a == [] {
      assert a + b == b;
    } else {
      assert (a + b)[0] == a[0] && (a + b)[1..] == a[1..] + b;
      ArtistCreditsConcat(a[1..], b);
    }
  }

  /** `counts` is the `Counter` of `credits`. */
  ghost predicate Tallies(counts: map<ArtistId, nat>, credits: seq<ArtistId>) {
    && (forall a :: a in counts <==> a in credits)
    && (forall a :: a in counts ==> counts[a] == multiset(credits)[a])
  }

  /** `Counter.update(ids)`: one more count for each id, in turn. */
  method AddCredits(counts: map<ArtistId, nat>, ghost credits: seq<ArtistId>, ids: seq<ArtistId>)
    returns (updated: map<ArtistId, nat>)
    requires Tallies(counts, credits)
    ensures Tallies(updated, credits + ids)
  {
    updated := counts;
    var j := 0;
    while j < |ids|
      invariant 0 <= j <= |ids|
      invariant Tallies(updated, credits + ids[..j])
    {
      assert credits + ids[..j + 1] == (credits + ids[..j]) + [ids[j]];
      updated := updated[ids[j] := (if ids[j] in updated then updated[ids[j]] else 0) + 1];
      j := j + 1;
    }
    assert ids[..j] == ids;
  }

  /**
   * `_artists_of_tracks`: a `Counter` updated with each track's artist ids in
   * turn. The table holds exactly the credited artists, each with the number
   * of its credits.
   */
  method ArtistsOfTracks(tracks: seq<Track>) returns (counts: map<ArtistId, nat>)
    ensures forall a :: a in counts <==> a in ArtistCredits(tracks)
    ensures forall a :: a in counts ==> counts[a] == ArtistCount(tracks, a)
  {
    counts := map[];
    var i := 0;
    while i < |tracks|
      invariant 0 <= i <= |tracks|
      invariant Tallies(counts, ArtistCredits(tracks[..i]))
    {
      counts := AddCredits(counts, ArtistCredits(tracks[..i]), tracks[i].artistIds);
      assert tracks[..i + 1] == tracks[..i] + [tracks[i]];
      ArtistCreditsConcat(tracks[..i], [tracks[i]]);
      i := i + 1;
    }
    assert tracks[..i] == tracks;
  }
}
