/**
 * The playlist processors: combinable filters and orderings over tracks,
 * each with the display name a playlist description is built from. Spotify
 * look-ups (`get_artist`, `get_album`, audio features) are functions passed in.
 */
module Processors {
  import opened Wrappers
  import opened Lists
  import opened Tracks
  import opened PyStrings
  import opened Operations
  import opened MusicTheory
  import opened Ordering
  import Genres

  type TrackListTransformer = CombinableListOperation<Track>

  function ResolveAll(refs: seq<ArtistRef>, lookup: ArtistId -> Artist): (r: seq<Artist>)
    ensures |r| == |refs| && forall i :: 0 <= i < |refs| ==> r[i] == GetArtist(refs[i], lookup)
  {
    if refs == [] then [] else [GetArtist(refs[0], lookup)] + ResolveAll(refs[1..], lookup)
  }

  function NamesOf(artists: seq<Artist>): (r: seq<string>)
    ensures |r| == |artists| && forall i :: 0 <= i < |artists| ==> r[i] == artists[i].name
  {
    if artists == [] then [] else [artists[0].name] + NamesOf(artists[1..])
  }

  /**
   * The `exclude_artists` display name: up to two names joined by " or ",
   * more as a comma-separated list whose last entry reads "or <name>".
   */
  function ExclusionDisplayName(names: seq<string>): (r: string)
    requires |names| >= 1
    ensures |names| == 1 ==> r == "not by " + names[0]
    ensures |names| == 2 ==> r == "not by " + names[0] + " or " + names[1]
    ensures |names| >= 3 ==> r == "not by " + JoinWith(names[..|names| - 1], ", ") + ", or " + names[|names| - 1]
  {
    var n := |names|;
    assert n == 2 ==> JoinWith(names[1..], " or ") == names[1];
    if n < 3 then "not by " + JoinWith(names, " or ")
    else
      JoinWithSnoc(names[..n - 1], "or " + names[n - 1], ", ");
      assert names[..n - 1] + ["or " + names[n - 1]] == names[..n - 1] + ["or " + names[n - 1]];
      "not by " + JoinWith(names[..n - 1] + ["or " + names[n - 1]], ", ")
  }

  lemma ExclusionDisplayNameOfOneOrTwo()
    ensures ExclusionDisplayName(["Björk"]) == "not by Björk"
    ensures ExclusionDisplayName(["Blur", "Oasis"]) == "not by Blur or Oasis"
  {
    assert "not by " + "Blur" + " or " + "Oasis" == "not by Blur or Oasis";
  }

  lemma ExclusionDisplayNameOfThree()
    ensures ExclusionDisplayName(["Blur", "Oasis", "Pulp"]) == "not by Blur, Oasis, or Pulp"
  {
    var names := ["Blur", "Oasis", "Pulp"];
    assert names[..2] == ["Blur", "Oasis"];
    assert ["Blur", "Oasis"][1..] == ["Oasis"];
    assert JoinWith(["Blur", "Oasis"], ", ") == "Blur" + ", " + "Oasis";
    assert "not by " + ("Blur" + ", " + "Oasis") + ", or " + "Pulp" == "not by Blur, Oasis, or Pulp";
  }

  /** In a list without repeated artists, a name occurs once per artist bearing it. */
  /** Without repetitions, the head does not recur and the tail has none either. */
  lemma DistinctTail(d: seq<Artist>)
    requires d != [] && Distinct(d)
    ensures Distinct(d[1..]) && d[0] !in d[1..]
  {
  }

  /** The artists bearing a name are the head, if it bears it, and those of the tail. */
  lemma NamedArtistsSplit(d: seq<Artist>, nm: string)
    requires d != [] && d[0] !in d[1..]
    ensures |set a | a in d && a.name == nm| == (if d[0].name == nm then 1 else 0) + |set a | a in d[1..] && a.name == nm|
  {
    var all := set a | a in d && a.name == nm;
    var rest := set a | a in d[1..] && a.name == nm;
    assert d == [d[0]] + d[1..];
    if d[0].name == nm {
      assert all == rest + {d[0]};
    } else {
      assert all == rest;
    }
  }

  /** In a list without repeated artists, a name occurs once per artist bearing it. */
  lemma {:induction false} NameCountIsArtistCount(d: seq<Artist>, nm: string)
    requires Distinct(d)
    ensures multiset(NamesOf(d))[nm] == |set a | a in d && a.name == nm|
    decreases |d|
  {
    if d == [] {
      assert (set a | a in d && a.name == nm) == {};
    } else {
      DistinctTail(d);
      NameCountIsArtistCount(d[1..], nm);
      NamedArtistsSplit(d, nm);
      assert NamesOf(d) == [d[0].name] + NamesOf(d[1..]);
    }
  }

  lemma DistinctNameCount(excluded: seq<Artist>, nm: string)
    ensures multiset(SortStrings(NamesOf(Dedup(excluded))))[nm] == |set a | a in excluded && a.name == nm|
  {
    var distinct := Dedup(excluded);
    NameCountIsArtistCount(distinct, nm);
    assert (set a | a in distinct && a.name == nm) == (set a | a in excluded && a.name == nm);
  }

  lemma DistinctNamesMembership(excluded: seq<Artist>)
    ensures forall nm :: nm in SortStrings(NamesOf(Dedup(excluded))) <==> exists a :: a in excluded && a.name == nm
  {
    var distinct := Dedup(excluded);
    var names := SortStrings(NamesOf(distinct));
    assert forall nm :: nm in names <==> nm in multiset(NamesOf(distinct));
    forall nm | nm in NamesOf(distinct)
      ensures exists a :: a in distinct && a.name == nm
    {
      var i :| 0 <= i < |distinct| && NamesOf(distinct)[i] == nm;
      assert distinct[i] in distinct;
    }
    forall nm | exists a :: a in distinct && a.name == nm
      ensures nm in NamesOf(distinct)
    {
      var a :| a in distinct && a.name == nm;
      var i :| 0 <= i < |distinct| && distinct[i] == a;
      assert NamesOf(distinct)[i] == nm;
    }
  }

  /** The excluded artists, each once, named in sorted order. */
  function ExcludedNames(excluded: seq<Artist>): (names: seq<string>)
    ensures StringsSorted(names)
    ensures forall nm :: nm in names <==> exists a :: a in excluded && a.name == nm
    ensures forall nm :: multiset(names)[nm] == |set a | a in excluded && a.name == nm|
  {
    var distinct := Dedup(excluded);
    forall nm
      ensures multiset(SortStrings(NamesOf(distinct)))[nm] == |set a | a in excluded && a.name == nm|
    {
      DistinctNameCount(excluded, nm);
    }
    DistinctNamesMembership(excluded);
    SortStringsSorted(NamesOf(distinct));
    SortStrings(NamesOf(distinct))
  }

  // ------------------------------------------------------------------
  // `exclude_artists`, as the source writes it and as it is meant.

  /** A Python value in the intersection: an artist-id string or an `Artist` object. */
  datatype PyValue = PyStr(s: string) | PyArtist(artist: Artist)

  /**
   * The test the source applies: the set of the track's artist ids (strings)
   * intersected with the set of `Artist` objects to exclude. A string never
   * equals an `Artist`.
   */
  predicate SharesExcludedAsWritten(t: Track, excluded: seq<Artist>) {
    (set a | a in t.artistIds :: PyStr(a)) * (set x | x in excluded :: PyArtist(x)) != {}
  }

  /** `exclude_artists(*artists)` as written: no artists raises ValueError. */
  function ExcludeArtistsAsWritten(artists: seq<ArtistRef>, lookup: ArtistId -> Artist): (r: Result<TrackListTransformer>)
    ensures r.Err? <==> artists == []
    ensures r.Err? ==> r.error == ValueError
    ensures r.Ok? ==> r.value.displayName == ExclusionDisplayName(ExcludedNames(ResolveAll(artists, lookup)))
  {
    if artists == [] then Err(ValueError)
    else
      var excluded := ResolveAll(artists, lookup);
      Ok(CombinableListOperation((tracks: seq<Track>) => Filter(tracks, (t: Track) => !SharesExcludedAsWritten(t, excluded)),
                                 ExclusionDisplayName(ExcludedNames(excluded))))
  }

  /** As written the filter keeps every track: the intersection is always empty. */
  lemma ExcludeArtistsAsWrittenKeepsEverything(artists: seq<ArtistRef>, lookup: ArtistId -> Artist, tracks: seq<Track>)
    requires artists != []
    ensures ExcludeArtistsAsWritten(artists, lookup).value.operation(tracks) == tracks
  {
    var excluded := ResolveAll(artists, lookup);
    forall t | t in tracks
      ensures !SharesExcludedAsWritten(t, excluded)
    {
      var ids := set a | a in t.artistIds :: PyStr(a);
      var objects := set x | x in excluded :: PyArtist(x);
      assert forall v :: v in ids ==> v.PyStr?;
      assert forall v :: v in objects ==> v.PyArtist?;
      assert ids * objects == {};
    }
    FilterAll(tracks, (t: Track) => !SharesExcludedAsWritten(t, excluded));
  }

  /** A track by the one excluded artist survives the filter as written. */
  lemma ExcludeArtistsAsWrittenCounterexample(lookup: ArtistId -> Artist)
    ensures var bjork := Artist("x", "Björk", [], 50);
      var track := Track("t", "Jóga", "al", ["x"], 60, 0, 1, 305000);
      ExcludeArtistsAsWritten([Given(bjork)], lookup).value.operation([track]) == [track]
  {
    var bjork := Artist("x", "Björk", [], 50);
    var track := Track("t", "Jóga", "al", ["x"], 60, 0, 1, 305000);
    ExcludeArtistsAsWrittenKeepsEverything([Given(bjork)], lookup, [track]);
  }

  /** The intended test: one of the track's artist ids is the id of an excluded artist. */
  predicate SharesExcluded(t: Track, excluded: seq<Artist>) {
    exists a :: a in t.artistIds && a in ExcludedIds(excluded)
  }

  function ExcludedIds(excluded: seq<Artist>): set<ArtistId> {
    set x | x in excluded :: x.id
  }

  /**
   * `exclude_artists(*artists)` as intended: the tracks, in order, that share
   * no artist with the excluded ones.
   */
  function ExcludeArtists(artists: seq<ArtistRef>, lookup: ArtistId -> Artist): (r: Result<TrackListTransformer>)
    ensures r.Err? <==> artists == []
    ensures r.Err? ==> r.error == ValueError
    ensures r.Ok? ==> r.value.displayName == ExclusionDisplayName(ExcludedNames(ResolveAll(artists, lookup)))
    ensures r.Ok? ==> forall tracks, t :: t in r.value.operation(tracks) <==>
      t in tracks && forall a :: a in t.artistIds ==> a !in ExcludedIds(ResolveAll(artists, lookup))
  {
    if artists == [] then Err(ValueError)
    else
      var excluded := ResolveAll(artists, lookup);
      Ok(CombinableListOperation((tracks: seq<Track>) => Filter(tracks, (t: Track) => !SharesExcluded(t, excluded)),
                                 ExclusionDisplayName(ExcludedNames(excluded))))
  }

  /** The intended filter drops the track by the excluded artist. */
  lemma ExcludeArtistsDropsTheirTracks(lookup: ArtistId -> Artist)
    ensures var bjork := Artist("x", "Björk", [], 50);
      var track := Track("t", "Jóga", "al", ["x"], 60, 0, 1, 305000);
      ExcludeArtists([Given(bjork)], lookup).value.operation([track]) == []
  {
    var bjork := Artist("x", "Björk", [], 50);
    var track := Track("t", "Jóga", "al", ["x"], 60, 0, 1, 305000);
    var excluded := ResolveAll([Given(bjork)], lookup);
    assert excluded == [bjork];
    assert "x" in ExcludedIds(excluded);
    assert "x" in track.artistIds;
    assert SharesExcluded(track, excluded);
    assert Filter([track], (t: Track) => !SharesExcluded(t, excluded)) == [];
  }

  /** The intended filter keeps the order of the tracks it keeps. */
  lemma ExcludeArtistsKeepsOrder(artists: seq<ArtistRef>, lookup: ArtistId -> Artist, tracks: seq<Track>)
    requires artists != []
    ensures SubsequenceOf(ExcludeArtists(artists, lookup).value.operation(tracks), tracks)
  {
    var excluded := ResolveAll(artists, lookup);
    FilterIsSubsequence(tracks, (t: Track) => !SharesExcluded(t, excluded));
  }

  // ------------------------------------------------------------------
  // Bounded numeric filters.

  /** `"<="` when inclusive, `"<"` otherwise. */
  function Below(inclusive: bool): string {
    if inclusive then "<=" else "<"
  }

  function Above(inclusive: bool): string {
    if inclusive then ">=" else ">"
  }

  /**
   * `_construct_display_name_for_bounded_feature`: `feature <= hi`,
   * `feature >= lo` or `lo <= feature <= hi` (strict signs when not
   * inclusive); no bound at all raises ValueError.
   */
  function BoundedFeatureDisplayName(featureName: string, lowerBound: Option<int>, upperBound: Option<int>,
                                     inclusive: bool): (r: Result<string>)
    ensures r.Err? <==> lowerBound.None? && upperBound.None?
    ensures r.Err? ==> r.error == ValueError
    ensures lowerBound.None? && upperBound.Some? ==>
      r == Ok(featureName + " " + Below(inclusive) + " " + IntToString(upperBound.value))
    ensures lowerBound.Some? && upperBound.None? ==>
      r == Ok(featureName + " " + Above(inclusive) + " " + IntToString(lowerBound.value))
    ensures lowerBound.Some? && upperBound.Some? ==>
      r == Ok(IntToString(lowerBound.value) + " " + Below(inclusive) + " " + featureName + " "
              + Below(inclusive) + " " + IntToString(upperBound.value))
  {
    var below := " <" + (if inclusive then "=" else "") + " ";
    var above := " >" + (if inclusive then "=" else "") + " ";
    assert below == " " + Below(inclusive) + " " && above == " " + Above(inclusive) + " ";
    if lowerBound.None? && upperBound.None? then Err(ValueError)
    else if lowerBound.None? then
      var hi := IntToString(upperBound.value);
      assert featureName + below + hi == featureName + " " + Below(inclusive) + " " + hi;
      Ok(featureName + below + hi)
    else if upperBound.None? then
      var lo := IntToString(lowerBound.value);
      assert featureName + above + lo == featureName + " " + Above(inclusive) + " " + lo;
      Ok(featureName + above + lo)
    else
      var lo := IntToString(lowerBound.value);
      var hi := IntToString(upperBound.value);
      assert lo + below + featureName + below + hi
          == lo + " " + Below(inclusive) + " " + featureName + " " + Below(inclusive) + " " + hi;
      Ok(lo + below + featureName + below + hi)
  }

  lemma BoundedFeatureDisplayNameExamples()
    ensures BoundedFeatureDisplayName("popularity", None, Some(50), true) == Ok("popularity <= 50")
    ensures BoundedFeatureDisplayName("energy", Some(2), Some(8), false) == Ok("2 < energy < 8")
  {
    assert IntToString(50) == "50" by {
      assert IntToString(5) == "5";
    }
    assert "popularity" + " " + Below(true) + " " + "50" == "popularity <= 50";
    assert IntToString(2) == "2";
    assert IntToString(8) == "8";
    assert "2" + " " + Below(false) + " " + "energy" + " " + Below(false) + " " + "8" == "2 < energy < 8";
  }

  /** The value lies between the bounds; a missing bound is infinite. */
  predicate InRange(v: int, lowerBound: Option<int>, upperBound: Option<int>, inclusive: bool) {
    if inclusive then
      (lowerBound.None? || lowerBound.value <= v) && (upperBound.None? || v <= upperBound.value)
    else
      (lowerBound.None? || lowerBound.value < v) && (upperBound.None? || v < upperBound.value)
  }

  /** The numeric fields of an artist `getattr` can read. */
  datatype ArtistAttribute = ArtistPopularity {
    function Name(): string { "popularity" }
    function Of(a: Artist): int { a.popularity }
  }

  /** The attributes of an mmmusic track `getattr` can read as a number: the
      track model's only numeric field is its popularity. */
  datatype TrackAttribute = Popularity {
    function Name(): string { "popularity" }
    function Of(t: Track): int { t.popularity }
  }

  /**
   * What a filtering operation promises on every list: the kept tracks in
   * their original order, each kept one as often as in the input.
   */
  ghost predicate KeepsInOrder(op: seq<Track> -> seq<Track>, keep: Track -> bool) {
    forall tracks ::
      && SubsequenceOf(op(tracks), tracks)
      && forall t :: multiset(op(tracks))[t] == if keep(t) then multiset(tracks)[t] else 0
  }

  /** A list comprehension over the tracks filters in order and keeps multiplicities. */
  lemma FilterKeepsInOrder(keep: Track -> bool)
    ensures KeepsInOrder((tracks: seq<Track>) => Filter(tracks, keep), keep)
  {
    forall tracks: seq<Track>
      ensures SubsequenceOf(Filter(tracks, keep), tracks)
    {
      FilterIsSubsequence(tracks, keep);
    }
    forall tracks: seq<Track>, t: Track
      ensures multiset(Filter(tracks, keep))[t] == if keep(t) then multiset(tracks)[t] else 0
    {
      FilterMultiplicity(tracks, keep, t);
    }
  }

  /** Every artist of the track has the attribute within the bounds. */
  predicate ArtistsInRange(t: Track, attr: ArtistAttribute, lookup: ArtistId -> Artist,
                           lowerBound: Option<int>, upperBound: Option<int>, inclusive: bool) {
    forall a :: a in t.artistIds ==> InRange(attr.Of(lookup(a)), lowerBound, upperBound, inclusive)
  }

  /** `filter_by_artist_attribute`: all of a track's artists must be in range. */
  function FilterByArtistAttribute(attr: ArtistAttribute, lowerBound: Option<int>, upperBound: Option<int>,
                                   inclusive: bool, lookup: ArtistId -> Artist): (r: Result<TrackListTransformer>)
    ensures r.Err? <==> lowerBound.None? && upperBound.None?
    ensures r.Err? ==> r.error == ValueError
    ensures r.Ok? ==>
      r.value.displayName == BoundedFeatureDisplayName("artist " + attr.Name(), lowerBound, upperBound, inclusive).value
    ensures r.Ok? ==> forall tracks, t :: t in r.value.operation(tracks) <==>
      t in tracks && ArtistsInRange(t, attr, lookup, lowerBound, upperBound, inclusive)
    ensures r.Ok? ==> KeepsInOrder(r.value.operation, (t: Track) => ArtistsInRange(t, attr, lookup, lowerBound, upperBound, inclusive))
  {
    var name :- BoundedFeatureDisplayName("artist " + attr.Name(), lowerBound, upperBound, inclusive);
    FilterKeepsInOrder((t: Track) => ArtistsInRange(t, attr, lookup, lowerBound, upperBound, inclusive));
    Ok(CombinableListOperation(
      (tracks: seq<Track>) => Filter(tracks, (t: Track) => ArtistsInRange(t, attr, lookup, lowerBound, upperBound, inclusive)),
      name))
  }

  /** `filter_by_track_attribute`: the attribute read off the track. */
  function FilterByTrackAttribute(attr: TrackAttribute, lowerBound: Option<int>, upperBound: Option<int>,
                                  inclusive: bool): (r: Result<TrackListTransformer>)
    ensures r.Err? <==> lowerBound.None? && upperBound.None?
    ensures r.Err? ==> r.error == ValueError
    ensures r.Ok? ==> r.value.displayName == BoundedFeatureDisplayName(attr.Name(), lowerBound, upperBound, inclusive).value
    ensures r.Ok? ==> forall tracks, t :: t in r.value.operation(tracks) <==>
      t in tracks && InRange(attr.Of(t), lowerBound, upperBound, inclusive)
    ensures r.Ok? ==> KeepsInOrder(r.value.operation, (t: Track) => InRange(attr.Of(t), lowerBound, upperBound, inclusive))
  {
    var name :- BoundedFeatureDisplayName(attr.Name(), lowerBound, upperBound, inclusive);
    FilterKeepsInOrder((t: Track) => InRange(attr.Of(t), lowerBound, upperBound, inclusive));
    Ok(CombinableListOperation(
      (tracks: seq<Track>) => Filter(tracks, (t: Track) => InRange(attr.Of(t), lowerBound, upperBound, inclusive)),
      name))
  }

  /** `track[feature]`: an audio feature of the track, fetched from Spotify. */
  type AudioFeatures = (Track, string) -> int

  /** `filter_by_audio_feature`: the feature fetched by name. */
  function FilterByAudioFeature(feature: string, lowerBound: Option<int>, upperBound: Option<int>,
                                inclusive: bool, features: AudioFeatures): (r: Result<TrackListTransformer>)
    ensures r.Err? <==> lowerBound.None? && upperBound.None?
    ensures r.Err? ==> r.error == ValueError
    ensures r.Ok? ==> r.value.displayName == BoundedFeatureDisplayName(feature, lowerBound, upperBound, inclusive).value
    ensures r.Ok? ==> forall tracks, t :: t in r.value.operation(tracks) <==>
      t in tracks && InRange(features(t, feature), lowerBound, upperBound, inclusive)
    ensures r.Ok? ==> KeepsInOrder(r.value.operation, (t: Track) => InRange(features(t, feature), lowerBound, upperBound, inclusive))
  {
    var name :- BoundedFeatureDisplayName(feature, lowerBound, upperBound, inclusive);
    FilterKeepsInOrder((t: Track) => InRange(features(t, feature), lowerBound, upperBound, inclusive));
    Ok(CombinableListOperation(
      (tracks: seq<Track>) => Filter(tracks, (t: Track) => InRange(features(t, feature), lowerBound, upperBound, inclusive)),
      name))
  }

  /** Inclusive bounds admit their end points, exclusive ones do not. */
  lemma InclusiveBoundsAdmitEnds(lo: int, hi: int)
    requires lo <= hi
    ensures InRange(lo, Some(lo), Some(hi), true) && InRange(hi, Some(lo), Some(hi), true)
    ensures !InRange(lo, Some(lo), Some(hi), false) && !InRange(hi, Some(lo), Some(hi), false)
  {
  }

  // ------------------------------------------------------------------
  // The other filters and orderings.

  /** Python's `repr` of a string without quotes or backslashes in it. */
  function QuotedRepr(s: string): string {
    "'" + s + "'"
  }

  /** `[get_artist(a) for a in track.artist_ids]`. */
  function ArtistsOf(t: Track, lookup: ArtistId -> Artist): (r: seq<Artist>)
    ensures |r| == |t.artistIds| && forall i :: 0 <= i < |r| ==> r[i] == lookup(t.artistIds[i])
  {
    seq(|t.artistIds|, i requires 0 <= i < |t.artistIds| => lookup(t.artistIds[i]))
  }

  /** The predicate behind `filter_by_genre_pattern`: some artist of the track has a matching genre. */
  predicate HasGenreMatching(t: Track, pattern: string, lookup: ArtistId -> Artist, fullMatch: Genres.FullMatch) {
    Genres.ArtistsOfGenresMatching(pattern, ArtistsOf(t, lookup), fullMatch) != {}
  }

  /** One of the artist's genres matches the pattern. */
  predicate HasMatchingGenre(x: Artist, pattern: string, fullMatch: Genres.FullMatch) {
    exists g :: g in x.genres && fullMatch(pattern, g)
  }

  lemma HasGenreMatchingMeans(t: Track, pattern: string, lookup: ArtistId -> Artist, fullMatch: Genres.FullMatch)
    ensures HasGenreMatching(t, pattern, lookup, fullMatch) <==>
      exists a :: a in t.artistIds && HasMatchingGenre(lookup(a), pattern, fullMatch)
  {
    var artists := ArtistsOf(t, lookup);
    var matching := Genres.ArtistsOfGenresMatching(pattern, artists, fullMatch);
    if matching != {} {
      var x :| x in matching;
      var a := CreditOf(t, lookup, x);
      assert HasMatchingGenre(lookup(a), pattern, fullMatch);
    }
    if exists a :: a in t.artistIds && HasMatchingGenre(lookup(a), pattern, fullMatch) {
      var a :| a in t.artistIds && HasMatchingGenre(lookup(a), pattern, fullMatch);
      LookedUpArtist(t, lookup, a);
      assert lookup(a) in matching;
    }
  }

  /** The credit a looked-up artist comes from. */
  lemma CreditOf(t: Track, lookup: ArtistId -> Artist, x: Artist) returns (a: ArtistId)
    requires x in ArtistsOf(t, lookup)
    ensures a in t.artistIds && lookup(a) == x
  {
    var i :| 0 <= i < |t.artistIds| && ArtistsOf(t, lookup)[i] == x;
    a := t.artistIds[i];
  }

  lemma LookedUpArtist(t: Track, lookup: ArtistId -> Artist, a: ArtistId)
    requires a in t.artistIds
    ensures lookup(a) in ArtistsOf(t, lookup)
  {
    var i :| 0 <= i < |t.artistIds| && t.artistIds[i] == a;
    assert ArtistsOf(t, lookup)[i] == lookup(a);
  }

  /** `filter_by_genre_pattern`: a track stays when one of its artists has a genre matching the pattern. */
  function FilterByGenrePattern(pattern: string, lookup: ArtistId -> Artist, fullMatch: Genres.FullMatch)
    : (op: TrackListTransformer)
    ensures op.displayName == "genre matches " + QuotedRepr(pattern)
    ensures forall tracks, t :: t in op.operation(tracks) <==>
      t in tracks && exists a :: a in t.artistIds && HasMatchingGenre(lookup(a), pattern, fullMatch)
  {
    forall t: Track
      ensures HasGenreMatching(t, pattern, lookup, fullMatch) <==>
        exists a :: a in t.artistIds && HasMatchingGenre(lookup(a), pattern, fullMatch)
    {
      HasGenreMatchingMeans(t, pattern, lookup, fullMatch);
    }
    CombinableListOperation(
      (tracks: seq<Track>) => Filter(tracks, (t: Track) => HasGenreMatching(t, pattern, lookup, fullMatch)),
      "genre matches " + QuotedRepr(pattern))
  }

  /** `filter_by_number_of_tracks(n)` without sampling: `tracks[:n]`, named after `n`. */
  function FilterByNumberOfTracks(n: int): (op: TrackListTransformer)
    ensures op.displayName == "no. tracks = " + IntToString(n)
    ensures forall tracks :: op.operation(tracks) <= tracks
    ensures forall tracks :: 0 <= n ==> |op.operation(tracks)| == if n <= |tracks| then n else |tracks|
  {
    CombinableListOperation((tracks: seq<Track>) => PyPrefix(tracks, n), "no. tracks = " + IntToString(n))
  }

  /** The album's year lies in the half-open range `[start, end)`; a missing end is infinite. */
  predicate YearWithin(year: int, startYear: Option<int>, endYear: Option<int>) {
    (startYear.None? || startYear.value <= year) && (endYear.None? || year < endYear.value)
  }

  /** `filter_by_release_year`: half-open, named "released between/before/after". */
  function FilterByReleaseYear(startYear: Option<int>, endYear: Option<int>, getAlbum: string -> Album)
    : (r: Result<TrackListTransformer>)
    ensures r.Err? <==> startYear.None? && endYear.None?
    ensures r.Err? ==> r.error == ValueError
    ensures r.Ok? && startYear.Some? && endYear.Some? ==>
      r.value.displayName == "released between " + IntToString(startYear.value) + " and " + IntToString(endYear.value)
    ensures r.Ok? && startYear.None? ==> r.value.displayName == "released before " + IntToString(endYear.value)
    ensures r.Ok? && endYear.None? ==> r.value.displayName == "released after " + IntToString(startYear.value)
    ensures r.Ok? ==> forall tracks, t :: t in r.value.operation(tracks) <==>
      t in tracks && YearWithin(getAlbum(t.albumId).releaseYear, startYear, endYear)
  {
    if startYear.None? && endYear.None? then Err(ValueError)
    else
      var name :=
        if startYear.None? then "released before " + IntToString(endYear.value)
        else if endYear.None? then "released after " + IntToString(startYear.value)
        else "released between " + IntToString(startYear.value) + " and " + IntToString(endYear.value);
      Ok(CombinableListOperation(
        (tracks: seq<Track>) => Filter(tracks, (t: Track) => YearWithin(getAlbum(t.albumId).releaseYear, startYear, endYear)),
        name))
  }

  /** The end year itself is excluded, unlike in the plain release-year filter. */
  lemma ReleaseYearEndIsExclusive(start: int, end: int)
    requires start < end
    ensures YearWithin(start, Some(start), Some(end)) && !YearWithin(end, Some(start), Some(end))
  {
  }

  /** The index the key name looks up is the only index naming that key. */
  lemma KeyIndexMeans(key: string, k: nat, i: int)
    requires SpotifyFriendlyKey(key) == Ok(k)
    ensures i == k <==> 0 <= i < 12 && Keys[i] == key
  {
    if 0 <= i < 12 && Keys[i] == key {
      KeyRoundTrip(i);
    }
  }

  /** `filter_by_key(key)`: an unknown key name raises ValueError. */
  function FilterByKey(key: string): (r: Result<TrackListTransformer>)
    ensures r.Err? <==> key !in Keys
    ensures r.Err? ==> r.error == ValueError
    ensures r.Ok? ==> r.value.displayName == "key is " + key
    ensures r.Ok? ==> forall tracks, t :: t in r.value.operation(tracks) <==>
      t in tracks && 0 <= t.key < 12 && Keys[t.key] == key
    ensures r.Ok? ==> KeepsInOrder(r.value.operation, (t: Track) => 0 <= t.key < 12 && Keys[t.key] == key)
  {
    var k :- SpotifyFriendlyKey(key);
    FilterKeepsInOrder((t: Track) => t.key == k);
    forall t: Track
      ensures (t.key == k) <==> (0 <= t.key < 12 && Keys[t.key] == key)
    {
      KeyIndexMeans(key, k, t.key);
    }
    Ok(CombinableListOperation((tracks: seq<Track>) => Filter(tracks, (t: Track) => t.key == k), "key is " + key))
  }

  /** `filter_by_mode(mode)`: an unknown mode name raises ValueError. */
  function FilterByMode(mode: string): (r: Result<TrackListTransformer>)
    ensures r.Err? <==> mode !in Modes
    ensures r.Err? ==> r.error == ValueError
    ensures r.Ok? ==> r.value.displayName == "mode is " + mode
    ensures r.Ok? ==> forall tracks, t :: t in r.value.operation(tracks) <==>
      t in tracks && t.mode == SpotifyFriendlyMode(mode).value
    ensures r.Ok? ==> KeepsInOrder(r.value.operation, (t: Track) => t.mode == SpotifyFriendlyMode(mode).value)
  {
    var m :- SpotifyFriendlyMode(mode);
    FilterKeepsInOrder((t: Track) => t.mode == m);
    Ok(CombinableListOperation((tracks: seq<Track>) => Filter(tracks, (t: Track) => t.mode == m), "mode is " + mode))
  }

  function PopularityKey(t: Track): real {
    t.popularity as real
  }

  /** `order_by_popularity`: most popular first; equal popularity keeps the input order. */
  function OrderByPopularity(): (op: TrackListTransformer)
    ensures op.displayName == "ordered by popularity"
    ensures forall tracks :: multiset(op.operation(tracks)) == multiset(tracks)
  {
    CombinableListOperation((tracks: seq<Track>) => SortDescending(tracks, PopularityKey), "ordered by popularity")
  }

  lemma OrderByPopularitySortsStably(tracks: seq<Track>, p: int)
    ensures var r := OrderByPopularity().operation(tracks);
      && (forall i, j :: 0 <= i < j < |r| ==> r[i].popularity >= r[j].popularity)
      && WithKey(r, PopularityKey, p as real) == WithKey(tracks, PopularityKey, p as real)
  {
    SortDescendingSorted(tracks, PopularityKey);
    SortDescendingStable(tracks, PopularityKey, p as real);
  }

  /**
   * `order_by_similarity_to_track(seed)`: most similar to the seed first, the
   * scores recomputed over the tracks given and the seed on every call.
   */
  function OrderBySimilarityToTrack(seed: Track, similarity: Similarity): (op: TrackListTransformer)
    ensures op.displayName == "ordered by similarity to " + QuotedRepr(seed.name)
    ensures forall tracks :: multiset(op.operation(tracks)) == multiset(tracks)
    ensures forall tracks :: SortedDescending(op.operation(tracks), SimilarityKey(seed, tracks, similarity))
    ensures forall tracks, v :: WithKey(op.operation(tracks), SimilarityKey(seed, tracks, similarity), v)
                             == WithKey(tracks, SimilarityKey(seed, tracks, similarity), v)
  {
    forall tracks: seq<Track>
      ensures SortedDescending(BySimilarity(seed, tracks, similarity), SimilarityKey(seed, tracks, similarity))
    {
      BySimilarityOrders(seed, tracks, similarity, 0.0);
    }
    forall tracks: seq<Track>, v: real
      ensures WithKey(BySimilarity(seed, tracks, similarity), SimilarityKey(seed, tracks, similarity), v)
           == WithKey(tracks, SimilarityKey(seed, tracks, similarity), v)
    {
      BySimilarityOrders(seed, tracks, similarity, v);
    }
    CombinableListOperation((tracks: seq<Track>) => BySimilarity(seed, tracks, similarity),
                            "ordered by similarity to " + QuotedRepr(seed.name))
  }

  /** `filter_by_similarity_to_track`: the `n` most similar tracks, most similar first. */
  function FilterBySimilarityToTrack(seed: Track, numberOfTracks: int, similarity: Similarity): (op: TrackListTransformer)
    ensures op.displayName == IntToString(numberOfTracks) + " tracks most similar to " + QuotedRepr(seed.name)
    ensures forall tracks :: op.operation(tracks) <= BySimilarity(seed, tracks, similarity)
    ensures forall tracks :: 0 <= numberOfTracks ==>
      |op.operation(tracks)| == if numberOfTracks <= |tracks| then numberOfTracks else |tracks|
  {
    var chained := And(OrderBySimilarityToTrack(seed, similarity), FilterByNumberOfTracks(numberOfTracks));
    CombinableListOperation(chained.operation, IntToString(numberOfTracks) + " tracks most similar to " + QuotedRepr(seed.name))
  }
}
