/**
 * The music_tools revision of the shuffling module: a Counter-based smart
 * picker, the mutual-artist radio picker, a similarity-based seed picker and
 * tie-break, and a four-mode dispatcher whose radio mode does not smooth by
 * default.
 */
module MusicToolsShuffling {
  import opened Wrappers
  import opened Lists
  import opened Tracks
  import opened QuickPick
  import Smoothing
  import RootShuffling

  /** The cosine similarity of two tracks' score vectors. */
  type Similarity = (Track, Track) -> real

  /** The floating-point parts built from the track list. */
  datatype Oracles = Oracles(balanced: Picker<Track>, story: Picker<Track>, similarity: Similarity)

  // ------------------------------------------------------------------
  // Smart picker

  /** Some artist has more than one credit in the pool, counting repeats inside a single track. */
  predicate CreditsRepeat(items: seq<Track>) {
    exists a :: a in ArtistCredits(items) && ArtistCount(items, a) > 1
  }

  /** `any(count > 1 for count in _artists_of_tracks(items).values())`. */
  method AnyArtistRepeats(items: seq<Track>) returns (repeated: bool)
    ensures repeated == CreditsRepeat(items)
  {
    var counts := ArtistsOfTracks(items);
    repeated := exists a :: a in counts && counts[a] > 1;
  }

  /** `_smart_picker`: balanced when an artist has several credits in the pool, else story. */
  function SmartPicker(o: Oracles): Picker<Track> {
    (left: seq<Track>, right: seq<Track>, toAdd: Track, items: seq<Track>) =>
      if CreditsRepeat(items) then o.balanced(left, right, toAdd, items)
      else o.story(left, right, toAdd, items)
  }

  /**
   * Every pool the root revision's scan flags is flagged by this revision's
   * count too: two tracks sharing an artist give it two credits.
   */
  lemma SharedArtistRepeatsCredit(items: seq<Track>)
    requires RootShuffling.RepeatsArtist(items)
    ensures CreditsRepeat(items)
  {
    var i, j :| 0 <= i < j < |items| && ShareArtist(items[i], items[j]);
    var a :| a in ArtistSet(items[i]) * ArtistSet(items[j]);
    assert items == items[..j] + items[j..];
    ArtistCreditsConcat(items[..j], items[j..]);
    CreditedArtist(items[..j], i, a);
    assert items[j..][0] == items[j];
    CreditedArtist(items[j..], 0, a);
    assert ArtistCredits(items) == ArtistCredits(items[..j]) + ArtistCredits(items[j..]);
    CreditedArtist(items, i, a);
  }

  /**
   * The converse fails: a lone track that credits one artist twice is a
   * repeat for this revision's count but not for the root revision's scan.
   */
  lemma DoubleCreditOnlyCountedHere(t: Track)
    requires t.artistIds == ["a", "a"]
    ensures CreditsRepeat([t]) && !RootShuffling.RepeatsArtist([t])
  {
    assert ArtistCredits([t]) == ["a", "a"];
    assert multiset(["a", "a"])["a"] == 2;
    assert "a" in ArtistCredits([t]);
  }

  // ------------------------------------------------------------------
  // Radio picker

  /**
   * The sum of the side's `Counter` counts over the candidate's artists:
   * the side's credits that name one of the candidate's artists.
   */
  function MutualCount(side: seq<Track>, toAdd: Track): nat {
    CountIf(ArtistCredits(side), (a: ArtistId) => a in toAdd.artistIds)
  }

  /**
   * `_radio_picker`: the candidate joins the side with strictly fewer credits
   * of its artists; on a tie the story picker decides.
   */
  function RadioPick(story: Picker<Track>, left: seq<Track>, right: seq<Track>, toAdd: Track, items: seq<Track>): (toLeft: bool)
    ensures MutualCount(left, toAdd) < MutualCount(right, toAdd) ==> toLeft
    ensures MutualCount(left, toAdd) > MutualCount(right, toAdd) ==> !toLeft
    ensures MutualCount(left, toAdd) == MutualCount(right, toAdd) ==> toLeft == story(left, right, toAdd, items)
  {
    var inLeft := MutualCount(left, toAdd);
    var inRight := MutualCount(right, toAdd);
    if inLeft != inRight then inLeft < inRight else story(left, right, toAdd, items)
  }

  function RadioPicker(story: Picker<Track>): Picker<Track> {
    (left: seq<Track>, right: seq<Track>, toAdd: Track, items: seq<Track>) => RadioPick(story, left, right, toAdd, items)
  }

  /** Dealing a track to a side adds all of its own credits to that side's mutual count. */
  lemma MutualCountAfterAppend(side: seq<Track>, toAdd: Track)
    ensures MutualCount(side + [toAdd], toAdd) == MutualCount(side, toAdd) + |toAdd.artistIds|
  {
    ArtistCreditsConcat(side, [toAdd]);
    CountIfConcat(ArtistCredits(side), toAdd.artistIds, (a: ArtistId) => a in toAdd.artistIds);
    CountIfAll(toAdd.artistIds, (a: ArtistId) => a in toAdd.artistIds);
  }

  /** A candidate without artists always ties, so the story picker places it. */
  lemma NoArtistsDefersToStory(story: Picker<Track>, left: seq<Track>, right: seq<Track>, toAdd: Track, items: seq<Track>)
    requires toAdd.artistIds == []
    ensures RadioPick(story, left, right, toAdd, items) == story(left, right, toAdd, items)
  {
    assert MutualCount(left, toAdd) == 0;
    assert MutualCount(right, toAdd) == 0;
  }

  // ------------------------------------------------------------------
  // Seed picker

  /**
   * `_smart_seed_picker`: the left seed is `items[0]`, or the first item most
   * similar to the left neighbour; the right seed is the first item least
   * similar to the left seed, chosen among all items, the left seed included.
   */
  function SmartSeeds(similarity: Similarity, items: seq<Track>, leftNeighbor: Option<Track>): (seeds: (Track, Track))
    requires |items| > 0
    ensures leftNeighbor.None? ==> seeds.0 == items[0]
    ensures leftNeighbor.Some? ==> (seeds.0 in items &&
              forall i :: 0 <= i < |items| ==> similarity(leftNeighbor.value, items[i]) <= similarity(leftNeighbor.value, seeds.0))
    ensures leftNeighbor.Some? ==> seeds.0 == items[ArgMaxIndex(items, x => similarity(leftNeighbor.value, x))]
    ensures seeds.1 in items && forall i :: 0 <= i < |items| ==> similarity(seeds.0, seeds.1) <= similarity(seeds.0, items[i])
    ensures seeds.1 == items[ArgMinIndex(items, x => similarity(seeds.0, x))]
  {
    var leftSeed := if leftNeighbor.None? then items[0] else items[ArgMaxIndex(items, x => similarity(leftNeighbor.value, x))];
    (leftSeed, items[ArgMinIndex(items, x => similarity(leftSeed, x))])
  }

  function SmartSeedPicker(similarity: Similarity): SeedPicker<Track> {
    (items: seq<Track>, leftNeighbor: Option<Track>) requires |items| > 0 => SmartSeeds(similarity, items, leftNeighbor)
  }

  lemma SmartSeedPickerAcceptsPools(similarity: Similarity)
    ensures AcceptsPools(Some(SmartSeedPicker(similarity)))
  {
  }

  /**
   * When every item is as similar to `items[0]` as `items[0]` itself and
   * `items[0]` occurs once, both seeds are `items[0]`: the second `remove`
   * fails and `quick_pick` raises ValueError.
   */
  lemma UniformSimilarityBreaksSeeds(similarity: Similarity, items: seq<Track>)
    requires |items| >= 2 && multiset(items)[items[0]] == 1
    requires forall i :: 0 <= i < |items| ==> similarity(items[0], items[i]) == similarity(items[0], items[0])
    ensures SmartSeeds(similarity, items, None) == (items[0], items[0])
    ensures !SeedsValid(items, SmartSeeds(similarity, items, None))
  {
    ConstantKeyPicksFirst(items, x => similarity(items[0], x));
    SeedsValidIsSubMultiset(items, (items[0], items[0]));
  }

  /**
   * With the distance `1 - similarity`, the root revision's seed picker picks
   * the same seeds: least distance is greatest similarity, first to first.
   */
  lemma SeedPickersAgree(distance: RootShuffling.Distance, similarity: Similarity, items: seq<Track>, leftNeighbor: Option<Track>)
    requires |items| > 0
    requires forall a, b :: distance(a, b) == 1.0 - similarity(a, b)
    ensures RootShuffling.SmartSeeds(distance, items, leftNeighbor) == SmartSeeds(similarity, items, leftNeighbor)
  {
    if leftNeighbor.Some? {
      var n := leftNeighbor.value;
      ArgMinOfComplement(items, x => similarity(n, x), x => distance(n, x));
    }
    var leftSeed := SmartSeeds(similarity, items, leftNeighbor).0;
    ArgMaxOfComplement(items, x => similarity(leftSeed, x), x => distance(leftSeed, x));
  }

  // ------------------------------------------------------------------
  // Smoothing

  /** The last rule of `_swap_to_smooth`: swap when track 2 is more similar to track 0 than track 1 is. */
  function TieBreak(similarity: Similarity): (Track, Track, Track) -> bool {
    (t0: Track, t1: Track, t2: Track) => similarity(t0, t2) > similarity(t0, t1)
  }

  lemma TieBreakIsAsymmetric(similarity: Similarity)
    ensures Smoothing.Asymmetric(TieBreak(similarity))
  {
  }

  function SwapRule(similarity: Similarity): (Track, Track, Track) -> bool {
    (t0: Track, t1: Track, t2: Track) => Smoothing.SwapToSmooth(t0, t1, t2, TieBreak(similarity))
  }

  /** A triple this revision's rule swaps is never swapped straight back. */
  lemma SwapRuleNeverUndoes(similarity: Similarity, t0: Track, t1: Track, t2: Track)
    ensures SwapRule(similarity)(t0, t1, t2) ==> !SwapRule(similarity)(t0, t2, t1)
  {
    TieBreakIsAsymmetric(similarity);
    Smoothing.NoImmediateSwapBack(t0, t1, t2, TieBreak(similarity));
  }

  /**
   * Where only the tie-break decides and the similarities differ, the root
   * revision (distance `1 - similarity`) and this one make opposite choices.
   */
  lemma RevisionsTieBreakOppositely(distance: RootShuffling.Distance, similarity: Similarity, t0: Track, t1: Track, t2: Track)
    requires forall a, b :: distance(a, b) == 1.0 - similarity(a, b)
    requires ShareArtist(t0, t1) <==> ShareArtist(t0, t2)
    requires Smoothing.InScale(t0, t1) <==> Smoothing.InScale(t0, t2)
    requires similarity(t0, t1) != similarity(t0, t2)
    ensures RootShuffling.SwapRule(distance)(t0, t1, t2) == !SwapRule(similarity)(t0, t1, t2)
  {
    RootShuffling.TieBreakFavoursLessSimilar(distance, similarity, t0, t1, t2);
  }

  // ------------------------------------------------------------------
  // Dispatcher

  const Modes: seq<string> := ["balanced", "radio", "smart", "story"]

  /** Whether `smart_shuffle` smooths: as asked, or by default in every mode but radio. */
  function Smooths(mode: string, smooth: Option<bool>): (b: bool)
    ensures smooth.Some? ==> b == smooth.value
    ensures smooth.None? ==> (b <==> mode != "radio")
  {
    match smooth
    case Some(s) => s
    case None => mode != "radio"
  }

  /** The picker and seed picker of a mode; an unknown mode is a ValueError. */
  function Dispatch(mode: string, o: Oracles): (r: Result<(Picker<Track>, Option<SeedPicker<Track>>)>)
    ensures r.Ok? <==> mode in Modes
    ensures r.Err? ==> r.error == ValueError
    ensures r.Ok? ==> (r.value.1.Some? <==> mode == "radio")
    ensures r.Ok? ==> AcceptsPools(r.value.1)
  {
    if mode == "balanced" then Ok((o.balanced, None))
    else if mode == "radio" then
      SmartSeedPickerAcceptsPools(o.similarity);
      Ok((RadioPicker(o.story), Some(SmartSeedPicker(o.similarity))))
    else if mode == "smart" then Ok((SmartPicker(o), None))
    else if mode == "story" then Ok((o.story, None))
    else Err(ValueError)
  }

  /** `smart_shuffle(tracks, mode, smooth)`. */
  method SmartShuffle(tracks: seq<Track>, mode: string, smooth: Option<bool>, o: Oracles, shuffle: Shuffler<Track>)
    returns (r: Result<seq<Track>>)
    requires IsPermuting(shuffle)
    ensures mode !in Modes ==> r == Err(ValueError)
    ensures r.Ok? ==> multiset(r.value) == multiset(tracks) && |r.value| == |tracks|
    ensures mode in Modes && mode != "radio" ==> r.Ok?
    ensures mode in Modes && |tracks| < 2 ==> r == Ok(tracks)
    ensures mode in Modes ==>
      var pickers := Dispatch(mode, o).value;
      var ordered := QuickPicked(tracks, pickers.0, pickers.1, None, shuffle);
      && (ordered.Err? ==> r == ordered)
      && (ordered.Ok? && Smooths(mode, smooth) ==> r == Ok(Smoothing.Smoothed(ordered.value, SwapRule(o.similarity)).0))
      && (ordered.Ok? && !(Smooths(mode, smooth)) ==> r == ordered)
  {
    var pickers :- Dispatch(mode, o);
    var ordered :- QuickPick.QuickPick(tracks, pickers.0, pickers.1, None, shuffle);
    if Smooths(mode, smooth) {
      var smoothed, _ := Smoothing.SmoothPlaylist(ordered, SwapRule(o.similarity));
      return Ok(smoothed);
    }
    return Ok(ordered);
  }
}
