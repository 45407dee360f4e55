/**
 * The root revision of the shuffling module: its integer and set-based
 * pickers, its seed picker, its smoothing tie-break (a cosine distance) and
 * the `smart_shuffle` dispatcher over seven modes.
 */
module RootShuffling {
  import opened Wrappers
  import opened Lists
  import opened Tracks
  import opened QuickPick
  import Smoothing

  /** scipy's cosine distance between the score vectors of two tracks. */
  type Distance = (Track, Track) -> real

  /**
   * The floating-point parts built from the track list: the balanced and
   * story pickers, the genre-position story picker and the distance of the
   * story scores.
   */
  datatype Oracles = Oracles(
    balanced: Picker<Track>,
    story: Picker<Track>,
    genreStory: Picker<Track>,
    distance: Distance)

  // ------------------------------------------------------------------
  // Categorical scores

  /** Both tracks have a first (primary) artist and it is the same one. */
  predicate SamePrimary(t: Track, u: Track) {
    |t.artistIds| > 0 && |u.artistIds| > 0 && t.artistIds[0] == u.artistIds[0]
  }

  /** The tracks of `side` by the candidate's primary artist. */
  function PrimaryMatches(side: seq<Track>, toAdd: Track): nat {
    CountIf(side, (t: Track) => SamePrimary(t, toAdd))
  }

  /** The tracks of `side` in the candidate's key. */
  function KeyMatches(side: seq<Track>, toAdd: Track): nat {
    CountIf(side, (t: Track) => t.key == toAdd.key)
  }

  /** The tracks of `side` in the candidate's mode. */
  function ModeMatches(side: seq<Track>, toAdd: Track): nat {
    CountIf(side, (t: Track) => t.mode == toAdd.mode)
  }

  /** The `i`-th count of `_get_categorical_scores`: key, mode, primary artist. */
  function Matches(i: nat, side: seq<Track>, toAdd: Track): nat {
    if i == 0 then KeyMatches(side, toAdd)
    else if i == 1 then ModeMatches(side, toAdd)
    else PrimaryMatches(side, toAdd)
  }

  /**
   * One side's three counts: tracks in the candidate's key, in its mode, and
   * with its primary artist. Reading `artist_ids[0]` of an artistless track
   * (on the side, or the candidate while the side is non-empty) fails.
   */
  function SideMatches(side: seq<Track>, toAdd: Track): (r: Result<seq<nat>>)
    ensures r.Err? <==> exists t :: t in side && (|t.artistIds| == 0 || |toAdd.artistIds| == 0)
    ensures r.Err? ==> r.error == IndexError
    ensures r.Ok? ==> |r.value| == 3 && forall i :: 0 <= i < 3 ==> r.value[i] <= |side|
    ensures r.Ok? ==> forall i :: 0 <= i < 3 ==> r.value[i] == Matches(i, side, toAdd)
  {
    if exists t :: t in side && (|t.artistIds| == 0 || |toAdd.artistIds| == 0) then Err(IndexError)
    else Ok([KeyMatches(side, toAdd), ModeMatches(side, toAdd), PrimaryMatches(side, toAdd)])
  }

  datatype CategoricalScores = CategoricalScores(
    left: seq<real>, leftWithNew: seq<real>, right: seq<real>, rightWithNew: seq<real>)

  /** `x / n` and `(x + 1) / (n + 1)` for each count. */
  function Fraction(x: nat, n: nat): real
    requires n > 0
  {
    x as real / n as real
  }

  lemma ScaleLe(p: real, q: real, k: real)
    requires k > 0.0
    ensures p <= q <==> p * k <= q * k
    ensures p == q <==> p * k == q * k
  {
    assert q * k - p * k == (q - p) * k;
    if p < q { assert (q - p) * k > 0.0; }
    if p > q { assert (p - q) * k > 0.0; }
  }

  /** Fractions compare as their cross products. */
  lemma DivCompare(a: real, b: real, c: real, d: real)
    requires b > 0.0 && d > 0.0
    ensures a / b <= c / d <==> a * d <= c * b
    ensures a / b == c / d <==> a * d == c * b
  {
    var p, q := a / b, c / d;
    assert p * b == a;
    assert q * d == c;
    ScaleLe(p, q, b * d);
    assert p * (b * d) == a * d;
    assert q * (b * d) == c * b;
  }

  /** A share never drops when a matching element joins, and stays put only at 1. */
  lemma ShareWithNew(x: nat, n: nat)
    requires 0 < n && x <= n
    ensures 0.0 <= Fraction(x, n) <= 1.0 && 0.0 < Fraction(x + 1, n + 1) <= 1.0
    ensures Fraction(x, n) <= Fraction(x + 1, n + 1)
    ensures Fraction(x, n) == Fraction(x + 1, n + 1) <==> x == n
  {
    var a, b := x as real, n as real;
    DivCompare(a, b, a + 1.0, b + 1.0);
    DivCompare(a, b, 1.0, 1.0);
    DivCompare(a + 1.0, b + 1.0, 1.0, 1.0);
    DivCompare(0.0, 1.0, a, b);
    DivCompare(0.0, 1.0, a + 1.0, b + 1.0);
  }

  /** Shares without and with the candidate: in [0, 1], never lower with it, equal only at 1. */
  predicate SharesGrow(without: seq<real>, with: seq<real>) {
    && |without| == |with|
    && forall i :: 0 <= i < |without| ==>
         && 0.0 <= without[i] <= with[i] <= 1.0
         && (without[i] == with[i] <==> without[i] == 1.0)
  }

  function Shares(counts: seq<nat>, n: nat, bump: nat): (r: seq<real>)
    requires n > 0
    ensures |r| == |counts| && forall i :: 0 <= i < |r| ==> r[i] == Fraction(counts[i] + bump, n + bump)
  {
    seq(|counts|, i requires 0 <= i < |counts| => Fraction(counts[i] + bump, n + bump))
  }

  lemma SharesOfCounts(counts: seq<nat>, n: nat)
    requires n > 0 && forall i :: 0 <= i < |counts| ==> counts[i] <= n
    ensures SharesGrow(Shares(counts, n, 0), Shares(counts, n, 1))
  {
    forall i | 0 <= i < |counts| {
      ShareWithNew(counts[i], n);
    }
  }

  /**
   * `_get_categorical_scores`: each side's share of tracks matching the
   * candidate's key, mode and primary artist, without and with the candidate.
   * An empty side divides by zero.
   */
  function CategoricalScoresOf(left: seq<Track>, right: seq<Track>, toAdd: Track): (r: Result<CategoricalScores>)
    ensures r.Ok? <==> |left| > 0 && |right| > 0 && |toAdd.artistIds| > 0 &&
                       forall t :: t in left + right ==> |t.artistIds| > 0
    ensures |left| == 0 ==> r == Err(ZeroDivisionError)
    ensures r.Ok? ==> |r.value.left| == 3 && SharesGrow(r.value.left, r.value.leftWithNew)
    ensures r.Ok? ==> |r.value.right| == 3 && SharesGrow(r.value.right, r.value.rightWithNew)
    ensures r.Ok? ==> r.value.left[2] == PrimaryMatches(left, toAdd) as real / |left| as real
    ensures r.Ok? ==> r.value.rightWithNew[2] == (PrimaryMatches(right, toAdd) + 1) as real / (|right| + 1) as real
    ensures r.Ok? ==> forall i :: 0 <= i < 3 ==>
      && r.value.left[i] == Matches(i, left, toAdd) as real / |left| as real
      && r.value.leftWithNew[i] == (Matches(i, left, toAdd) + 1) as real / (|left| + 1) as real
      && r.value.right[i] == Matches(i, right, toAdd) as real / |right| as real
      && r.value.rightWithNew[i] == (Matches(i, right, toAdd) + 1) as real / (|right| + 1) as real
  {
    var lv :- SideMatches(left, toAdd);
    if |left| == 0 then Err(ZeroDivisionError)
    else
      var rv :- SideMatches(right, toAdd);
      if |right| == 0 then Err(ZeroDivisionError)
      else
        assert left[0] in left;
        SharesOfCounts(lv, |left|);
        SharesOfCounts(rv, |right|);
        var scores := CategoricalScores(Shares(lv, |left|, 0), Shares(lv, |left|, 1), Shares(rv, |right|, 0), Shares(rv, |right|, 1));
        Ok(scores)
  }

  // ------------------------------------------------------------------
  // Genre picker

  /** `3.6e6 * 3`: three hours in milliseconds. */
  const MsPerThreeHours: int := 10800000

  /** `sum(track["duration_ms"] for track in items)`. */
  function TotalDuration(items: seq<Track>): int {
    if items == [] then 0 else items[0].durationMs + TotalDuration(items[1..])
  }

  lemma {:induction false} TotalDurationConcat(a: seq<Track>, b: seq<Track>)
    ensures TotalDuration(a + b) == TotalDuration(a) + TotalDuration(b)
    decreases |a|
  {
    if a == [] {
      assert a + b == b;
    } else {
      assert (a + b)[0] == a[0] && (a + b)[1..] == a[1..] + b;
      TotalDurationConcat(a[1..], b);
    }
  }

  /** `_genre_picker`: pools longer than three hours are split by genre position, others by story. */
  function GenrePicker(genreStory: Picker<Track>, story: Picker<Track>): Picker<Track> {
    (left: seq<Track>, right: seq<Track>, toAdd: Track, items: seq<Track>) =>
      if TotalDuration(items) > MsPerThreeHours then genreStory(left, right, toAdd, items)
      else story(left, right, toAdd, items)
  }

  /**
   * The genre picker's choice depends only on the pool, and once a pool is
   * longer than three hours, any larger pool of non-negative durations is too.
   */
  lemma LongPoolsStayGenre(genreStory: Picker<Track>, story: Picker<Track>, items: seq<Track>, more: seq<Track>,
                           left: seq<Track>, right: seq<Track>, toAdd: Track)
    requires TotalDuration(items) > MsPerThreeHours
    requires forall t :: t in more ==> t.durationMs >= 0
    ensures GenrePicker(genreStory, story)(left, right, toAdd, items + more) == genreStory(left, right, toAdd, items + more)
  {
    TotalDurationConcat(items, more);
    NonNegativeDuration(more);
  }

  lemma {:induction false} NonNegativeDuration(items: seq<Track>)
    requires forall t :: t in items ==> t.durationMs >= 0
    ensures TotalDuration(items) >= 0
    decreases |items|
  {
    if items != [] {
      assert items[0] in items;
      assert forall t :: t in items[1..] ==> t in items;
      NonNegativeDuration(items[1..]);
    }
  }

  /** The threshold is strict: a pool of exactly three hours is still split by story. */
  lemma ExactlyThreeHoursIsStory(genreStory: Picker<Track>, story: Picker<Track>, t: Track,
                                 left: seq<Track>, right: seq<Track>, toAdd: Track)
    requires t.durationMs == 5400000
    ensures GenrePicker(genreStory, story)(left, right, toAdd, [t, t]) == story(left, right, toAdd, [t, t])
  {
    assert [t, t][1..] == [t] && [t][1..] == [];
    assert TotalDuration([t]) == t.durationMs;
    assert TotalDuration([t, t]) == MsPerThreeHours;
  }

  // ------------------------------------------------------------------
  // Smart, radio and test pickers

  /** Some track of the pool shares an artist with an earlier one. */
  predicate RepeatsArtist(items: seq<Track>) {
    exists i, j :: 0 <= i < j < |items| && ShareArtist(items[i], items[j])
  }

  /**
   * The `artists_seen` scan of `_smart_picker`: it stops at the first track
   * whose artists meet those of the tracks before it.
   */
  method ScanForRepeatedArtist(items: seq<Track>) returns (repeated: bool)
    ensures repeated == RepeatsArtist(items)
  {
    var seen: set<ArtistId> := {};
    var i := 0;
    while i < |items|
      invariant 0 <= i <= |items|
      invariant forall a :: a in seen <==> exists k :: 0 <= k < i && a in items[k].artistIds
      invariant forall k, l :: 0 <= k < l < i ==> !ShareArtist(items[k], items[l])
    {
      var artists := ArtistSet(items[i]);
      if artists * seen != {} {
        var a :| a in artists * seen;
        var k :| 0 <= k < i && a in items[k].artistIds;
        assert a in ArtistSet(items[k]) * ArtistSet(items[i]);
        return true;
      }
      seen := seen + artists;
      i := i + 1;
    }
    return false;
  }

  /** `_smart_picker`: balanced when some artist recurs across the pool's tracks, else the given story picker. */
  function SmartPicker(balanced: Picker<Track>, story: Picker<Track>): Picker<Track> {
    (left: seq<Track>, right: seq<Track>, toAdd: Track, items: seq<Track>) =>
      if RepeatsArtist(items) then balanced(left, right, toAdd, items)
      else story(left, right, toAdd, items)
  }

  /** `_radio_picker`: the smart picker with the genre picker as its story picker. */
  function RadioPicker(o: Oracles): Picker<Track> {
    SmartPicker(o.balanced, GenrePicker(o.genreStory, o.story))
  }

  /** `_test_picker`: story for pools of more than 100 tracks, smart otherwise. */
  function TestPicker(o: Oracles): Picker<Track> {
    (left: seq<Track>, right: seq<Track>, toAdd: Track, items: seq<Track>) =>
      if |items| > 100 then o.story(left, right, toAdd, items)
      else SmartPicker(o.balanced, o.story)(left, right, toAdd, items)
  }

  /**
   * In radio mode a long pool whose tracks share no artists is split by
   * genre position, and a pool with a recurring artist by balance.
   */
  lemma RadioPickerChoice(o: Oracles, left: seq<Track>, right: seq<Track>, toAdd: Track, items: seq<Track>)
    ensures RepeatsArtist(items) ==> RadioPicker(o)(left, right, toAdd, items) == o.balanced(left, right, toAdd, items)
    ensures !RepeatsArtist(items) && TotalDuration(items) > MsPerThreeHours ==>
              RadioPicker(o)(left, right, toAdd, items) == o.genreStory(left, right, toAdd, items)
    ensures !RepeatsArtist(items) && TotalDuration(items) <= MsPerThreeHours ==>
              RadioPicker(o)(left, right, toAdd, items) == o.story(left, right, toAdd, items)
  {
  }

  /** Two tracks by one artist always take the smart and radio pickers to balance. */
  lemma SharedArtistMeansBalanced(o: Oracles, t: Track, u: Track, left: seq<Track>, right: seq<Track>, toAdd: Track)
    requires ShareArtist(t, u)
    ensures RadioPicker(o)(left, right, toAdd, [t, u]) == o.balanced(left, right, toAdd, [t, u])
    ensures TestPicker(o)(left, right, toAdd, [t, u]) == o.balanced(left, right, toAdd, [t, u])
  {
    assert ShareArtist([t, u][0], [t, u][1]);
    assert RepeatsArtist([t, u]);
    assert SmartPicker(o.balanced, o.story)(left, right, toAdd, [t, u]) == o.balanced(left, right, toAdd, [t, u]);
  }

  // ------------------------------------------------------------------
  // Smart-story picker

  /**
   * `_smart_story_picker`: the candidate joins the side with strictly fewer
   * credits of its primary artist; on a tie the story picker decides.
   */
  function SmartStoryPick(story: Picker<Track>, left: seq<Track>, right: seq<Track>, toAdd: Track, items: seq<Track>): (toLeft: bool)
    requires |toAdd.artistIds| > 0
    ensures ArtistCount(left, toAdd.artistIds[0]) < ArtistCount(right, toAdd.artistIds[0]) ==> toLeft
    ensures ArtistCount(left, toAdd.artistIds[0]) > ArtistCount(right, toAdd.artistIds[0]) ==> !toLeft
    ensures ArtistCount(left, toAdd.artistIds[0]) == ArtistCount(right, toAdd.artistIds[0]) ==>
              toLeft == story(left, right, toAdd, items)
  {
    var primary := toAdd.artistIds[0];
    var inLeft := ArtistCount(left, primary);
    var inRight := ArtistCount(right, primary);
    if inLeft != inRight then inLeft < inRight else story(left, right, toAdd, items)
  }

  /** Adding a track to a side adds its credits of an artist to that side's count. */
  lemma CountAfterAppend(side: seq<Track>, t: Track, a: ArtistId)
    ensures ArtistCount(side + [t], a) == ArtistCount(side, a) + multiset(t.artistIds)[a]
  {
    ArtistCreditsConcat(side, [t]);
  }

  /**
   * When the counts differ and the candidate credits its primary artist once,
   * dealing it as picked narrows the gap between the sides by one.
   */
  lemma SmartStoryNarrowsGap(story: Picker<Track>, left: seq<Track>, right: seq<Track>, toAdd: Track, items: seq<Track>)
    requires |toAdd.artistIds| > 0 && multiset(toAdd.artistIds)[toAdd.artistIds[0]] == 1
    requires ArtistCount(left, toAdd.artistIds[0]) != ArtistCount(right, toAdd.artistIds[0])
    ensures var p := toAdd.artistIds[0];
      var gap := ArtistCount(left, p) - ArtistCount(right, p);
      var newGap := if SmartStoryPick(story, left, right, toAdd, items)
                    then ArtistCount(left + [toAdd], p) - ArtistCount(right, p)
                    else ArtistCount(left, p) - ArtistCount(right + [toAdd], p);
      (if newGap < 0 then -newGap else newGap) == (if gap < 0 then -gap else gap) - 1
  {
    var p := toAdd.artistIds[0];
    CountAfterAppend(left, toAdd, p);
    CountAfterAppend(right, toAdd, p);
  }

  /**
   * The smart-story picker as passed to `quick_pick`. A candidate with no
   * artists, for which the source fails on `artist_ids[0]`, goes to the
   * story picker.
   */
  function SmartStoryPicker(story: Picker<Track>): Picker<Track> {
    (left: seq<Track>, right: seq<Track>, toAdd: Track, items: seq<Track>) =>
      if |toAdd.artistIds| > 0 then SmartStoryPick(story, left, right, toAdd, items)
      else story(left, right, toAdd, items)
  }

  // ------------------------------------------------------------------
  // Seed picker

  /**
   * `_smart_seed_picker`: the left seed is `items[0]`, or the first item
   * nearest the left neighbour; the right seed is the first item farthest
   * from the left seed, which may be the left seed itself.
   */
  function SmartSeeds(distance: Distance, items: seq<Track>, leftNeighbor: Option<Track>): (seeds: (Track, Track))
    requires |items| > 0
    ensures leftNeighbor.None? ==> seeds.0 == items[0]
    ensures leftNeighbor.Some? ==> (seeds.0 in items &&
              forall i :: 0 <= i < |items| ==> distance(leftNeighbor.value, seeds.0) <= distance(leftNeighbor.value, items[i]))
    ensures leftNeighbor.Some? ==> seeds.0 == items[ArgMinIndex(items, x => distance(leftNeighbor.value, x))]
    ensures seeds.1 in items && forall i :: 0 <= i < |items| ==> distance(seeds.0, items[i]) <= distance(seeds.0, seeds.1)
    ensures seeds.1 == items[ArgMaxIndex(items, x => distance(seeds.0, x))]
  {
    var leftSeed := if leftNeighbor.None? then items[0] else items[ArgMinIndex(items, x => distance(leftNeighbor.value, x))];
    (leftSeed, items[ArgMaxIndex(items, x => distance(leftSeed, x))])
  }

  function SmartSeedPicker(distance: Distance): SeedPicker<Track> {
    (items, leftNeighbor) requires |items| > 0 => SmartSeeds(distance, items, leftNeighbor)
  }

  lemma SmartSeedPickerAcceptsPools(distance: Distance)
    ensures AcceptsPools(Some(SmartSeedPicker(distance)))
  {
  }

  /**
   * When every item is equally far from `items[0]` and `items[0]` occurs once,
   * both seeds are `items[0]` and the second `remove` fails.
   */
  lemma UniformDistanceBreaksSeeds(distance: Distance, items: seq<Track>)
    requires |items| >= 2 && multiset(items)[items[0]] == 1
    requires forall i :: 0 <= i < |items| ==> distance(items[0], items[i]) == distance(items[0], items[0])
    ensures !SeedsValid(items, SmartSeeds(distance, items, None))
  {
    ConstantKeyPicksFirst(items, x => distance(items[0], x));
    SeedsValidIsSubMultiset(items, (items[0], items[0]));
  }

  // ------------------------------------------------------------------
  // Smoothing

  /** The last rule of `_swap_to_smooth`: swap when track 2 is farther from track 0 than track 1 is. */
  function TieBreak(distance: Distance): (Track, Track, Track) -> bool {
    (t0, t1, t2) => distance(t0, t2) > distance(t0, t1)
  }

  lemma TieBreakIsAsymmetric(distance: Distance)
    ensures Smoothing.Asymmetric(TieBreak(distance))
  {
  }

  /**
   * With the distance `1 - similarity`, the tie-break swaps exactly when
   * track 2 is the less similar one, moving it next to track 0.
   */
  lemma TieBreakFavoursLessSimilar(distance: Distance, similarity: (Track, Track) -> real, t0: Track, t1: Track, t2: Track)
    requires forall a, b :: distance(a, b) == 1.0 - similarity(a, b)
    ensures TieBreak(distance)(t0, t1, t2) <==> similarity(t0, t2) < similarity(t0, t1)
  {
  }

  function SwapRule(distance: Distance): (Track, Track, Track) -> bool {
    (t0, t1, t2) => Smoothing.SwapToSmooth(t0, t1, t2, TieBreak(distance))
  }

  /** A triple the root rule swaps is never swapped straight back. */
  lemma SwapRuleNeverUndoes(distance: Distance, t0: Track, t1: Track, t2: Track)
    ensures SwapRule(distance)(t0, t1, t2) ==> !SwapRule(distance)(t0, t2, t1)
  {
    TieBreakIsAsymmetric(distance);
    Smoothing.NoImmediateSwapBack(t0, t1, t2, TieBreak(distance));
  }

  // ------------------------------------------------------------------
  // Dispatcher

  const Modes: seq<string> := ["balanced", "genre", "radio", "smart", "smart-story", "story", "test"]

  /** The picker and seed picker of a mode; an unknown mode is a ValueError. */
  function Dispatch(mode: string, o: Oracles): (r: Result<(Picker<Track>, Option<SeedPicker<Track>>)>)
    ensures r.Ok? <==> mode in Modes
    ensures r.Err? ==> r.error == ValueError
    ensures r.Ok? ==> (r.value.1.Some? <==> mode == "smart-story")
    ensures r.Ok? ==> AcceptsPools(r.value.1)
    ensures mode == "radio" ==> r == Ok((RadioPicker(o), None))
  {
    if mode == "balanced" then Ok((o.balanced, None))
    else if mode == "genre" then Ok((GenrePicker(o.genreStory, o.story), None))
    else if mode == "radio" then Ok((RadioPicker(o), None))
    else if mode == "smart" then Ok((SmartPicker(o.balanced, o.story), None))
    else if mode == "smart-story" then
      SmartSeedPickerAcceptsPools(o.distance);
      Ok((SmartStoryPicker(o.story), Some(SmartSeedPicker(o.distance))))
    else if mode == "story" then Ok((o.story, None))
    else if mode == "test" then Ok((TestPicker(o), None))
    else Err(ValueError)
  }

  /**
   * `smart_shuffle(tracks, mode, smooth)`: order with `quick_pick` using the
   * mode's pickers, then smooth when asked to.
   */
  method SmartShuffle(tracks: seq<Track>, mode: string, smooth: bool, o: Oracles, shuffle: Shuffler<Track>)
    returns (r: Result<seq<Track>>)
    requires IsPermuting(shuffle)
    ensures mode !in Modes ==> r == Err(ValueError)
    ensures r.Ok? ==> multiset(r.value) == multiset(tracks) && |r.value| == |tracks|
    ensures mode in Modes && mode != "smart-story" ==> r.Ok?
    ensures mode in Modes && |tracks| < 2 ==> r == Ok(tracks)
    ensures mode in Modes ==>
      var pickers := Dispatch(mode, o).value;
      var ordered := QuickPicked(tracks, pickers.0, pickers.1, None, shuffle);
      && (ordered.Err? ==> r == ordered)
      && (ordered.Ok? && smooth ==> r == Ok(Smoothing.Smoothed(ordered.value, SwapRule(o.distance)).0))
      && (ordered.Ok? && !(smooth) ==> r == ordered)
  {
    var pickers :- Dispatch(mode, o);
    var ordered :- QuickPick.QuickPick(tracks, pickers.0, pickers.1, None, shuffle);
    if smooth {
      var smoothed, _ := Smoothing.SmoothPlaylist(ordered, SwapRule(o.distance));
      return Ok(smoothed);
    }
    return Ok(ordered);
  }
}
