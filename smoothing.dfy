/**
 * The smoothing pass shared by the root and music_tools revisions: the
 * swap-rule cascade's integer rules (artists, then harmonic compatibility)
 * and the bounded loop over a cyclic index that applies a swap rule.
 */
module Smoothing {
  import opened Wrappers
  import opened Tracks

  const MaxSmoothCycles: nat := 30

  /**
   * The artist-adjacency rule: Some(true) swaps positions 1 and 2, Some(false)
   * keeps them, None falls through to the next rule.
   */
  function ArtistRule(t0: Track, t1: Track, t2: Track): (r: Option<bool>)
    ensures r == Some(true) <==> ShareArtist(t0, t1) && !ShareArtist(t0, t2)
    ensures r == Some(false) <==> ShareArtist(t0, t2) && !ShareArtist(t0, t1)
    ensures r.None? <==> (ShareArtist(t0, t1) <==> ShareArtist(t0, t2))
  {
    var swapForArtists := ArtistSet(t0) * ArtistSet(t1) != {} && ArtistSet(t0) * ArtistSet(t2) == {};
    var keepForArtists := ArtistSet(t0) * ArtistSet(t2) != {} && ArtistSet(t0) * ArtistSet(t1) == {};
    if swapForArtists then Some(true)
    else if keepForArtists then Some(false)
    else None
  }

  const MajorOffsets: seq<int> := [0, 2, 4, 5, 7, 9, 11]
  const MajorModes: seq<int> := [1, 0, 0, 1, 1, 0, 0]
  const MinorOffsets: seq<int> := [0, 2, 3, 5, 7, 8, 10]
  const MinorModes: seq<int> := [0, 0, 1, 0, 0, 1, 1]

  /**
   * `zip(good_keys, good_modes)` for a root track. The `% 12` applies to the
   * offset table only, so the keys are `key + offset` with no wrap-around.
   */
  function GoodScales(t0: Track): (r: seq<(int, int)>)
    ensures |r| == 7
    ensures forall i :: 0 <= i < 7 ==> r[i].0 == t0.key + (if t0.mode != 0 then MajorOffsets else MinorOffsets)[i] % 12
    ensures forall i :: 0 <= i < 7 ==> r[i].1 == (if t0.mode != 0 then MajorModes else MinorModes)[i]
  {
    var offsets := if t0.mode != 0 then MajorOffsets else MinorOffsets;
    var modes := if t0.mode != 0 then MajorModes else MinorModes;
    seq(7, i requires 0 <= i < 7 => (t0.key + offsets[i] % 12, modes[i]))
  }

  /** `(t["key"], t["mode"]) in zip(good_keys, good_modes)`. */
  predicate InScale(t0: Track, t: Track) {
    (t.key, t.mode) in GoodScales(t0)
  }

  /** The harmonic rule: swap towards the compatible track, keep a compatible one, else fall through. */
  function HarmonicRule(t0: Track, t1: Track, t2: Track): (r: Option<bool>)
    ensures r == Some(true) <==> !InScale(t0, t1) && InScale(t0, t2)
    ensures r == Some(false) <==> !InScale(t0, t2) && InScale(t0, t1)
    ensures r.None? <==> (InScale(t0, t1) <==> InScale(t0, t2))
  {
    var good := GoodScales(t0);
    var swapForKey := (t1.key, t1.mode) !in good && (t2.key, t2.mode) in good;
    var keepForKey := (t2.key, t2.mode) !in good && (t1.key, t1.mode) in good;
    if swapForKey then Some(true)
    else if keepForKey then Some(false)
    else None
  }

  /**
   * `_swap_to_smooth`: the artist rule, then the harmonic rule, then the
   * revision's total tie-break.
   */
  function SwapToSmooth(t0: Track, t1: Track, t2: Track, tieBreak: (Track, Track, Track) -> bool): (swap: bool)
    ensures ShareArtist(t0, t1) && !ShareArtist(t0, t2) ==> swap
    ensures ShareArtist(t0, t2) && !ShareArtist(t0, t1) ==> !swap
    ensures (ShareArtist(t0, t1) <==> ShareArtist(t0, t2)) ==>
              (swap <==> (!InScale(t0, t1) && InScale(t0, t2)) ||
                         ((InScale(t0, t1) <==> InScale(t0, t2)) && tieBreak(t0, t1, t2)))
  {
    match ArtistRule(t0, t1, t2)
    case Some(decided) => decided
    case None =>
      match HarmonicRule(t0, t1, t2)
      case Some(decided) => decided
      case None => tieBreak(t0, t1, t2)
  }

  /** A tie-break that never favours both orders of the same pair. */
  ghost predicate Asymmetric(tieBreak: (Track, Track, Track) -> bool) {
    forall t0, t1, t2 :: tieBreak(t0, t1, t2) ==> !tieBreak(t0, t2, t1)
  }

  /**
   * With an asymmetric tie-break, re-examining a swapped triple never swaps it
   * back: both deciding rules are antisymmetric in tracks 1 and 2.
   */
  lemma NoImmediateSwapBack(t0: Track, t1: Track, t2: Track, tieBreak: (Track, Track, Track) -> bool)
    requires Asymmetric(tieBreak)
    ensures SwapToSmooth(t0, t1, t2, tieBreak) ==> !SwapToSmooth(t0, t2, t1, tieBreak)
  {
  }

  /** No compatible key lies below the root key or more than 11 above it. */
  lemma ScaleKeysDoNotWrap(t0: Track, t: Track)
    requires InScale(t0, t)
    ensures t0.key <= t.key <= t0.key + 11
  {
    var i :| 0 <= i < 7 && GoodScales(t0)[i] == (t.key, t.mode);
  }

  /**
   * For the root key B (11), the only real key (0..11) the rule accepts is
   * B itself: with no wrap-around every other compatible key exceeds 11.
   */
  lemma HighRootAcceptsOnlyItself(t0: Track, t: Track)
    requires t0.key == 11 && 0 <= t.key <= 11
    ensures InScale(t0, t) <==> t.key == 11 && t.mode == (if t0.mode != 0 then 1 else 0)
  {
    if InScale(t0, t) {
      var i :| 0 <= i < 7 && GoodScales(t0)[i] == (t.key, t.mode);
    }
    assert GoodScales(t0)[0] == (11, if t0.mode != 0 then 1 else 0);
  }

  /** C major admits exactly C, Dm, Em, F, G, Am and Bm. */
  lemma CMajorScale(t0: Track)
    requires t0.key == 0 && t0.mode == 1
    ensures GoodScales(t0) == [(0, 1), (2, 0), (4, 0), (5, 1), (7, 1), (9, 0), (11, 0)]
  {
  }

  /**
   * The harmonic example: after C major, F-sharp major then G major is swapped
   * to G major then F-sharp major when the artist rule does not decide.
   */
  lemma HarmonicExampleSwaps(t0: Track, t1: Track, t2: Track, tieBreak: (Track, Track, Track) -> bool)
    requires t0.key == 0 && t0.mode == 1 && t1.key == 6 && t1.mode == 1 && t2.key == 7 && t2.mode == 1
    requires ShareArtist(t0, t1) <==> ShareArtist(t0, t2)
    ensures SwapToSmooth(t0, t1, t2, tieBreak)
  {
    CMajorScale(t0);
    assert (7, 1) == GoodScales(t0)[4];
  }

  /** The triple of positions `j`, `j + 1`, `j + 2` of the cyclic list `s` would be swapped. */
  predicate SwapsAt<T>(s: seq<T>, j: nat, swap: (T, T, T) -> bool)
    requires |s| > 0
  {
    swap(s[j % |s|], s[(j + 1) % |s|], s[(j + 2) % |s|])
  }

  /** No cyclic position of `s` would be swapped: the local optimum the loop stops at. */
  predicate LocallySmooth<T>(s: seq<T>, swap: (T, T, T) -> bool)
    requires |s| > 0
  {
    forall k :: 0 <= k < |s| ==> !SwapsAt(s, k, swap)
  }

  lemma {:induction false} MulGrows(k: int, n: int)
    requires k >= 1 && n > 0
    ensures k * n >= n
    decreases k
  {
    if k > 1 {
      MulGrows(k - 1, n);
      assert k * n == (k - 1) * n + n;
    }
  }

  /** Euclidean remainder is determined by any decomposition `q * n + m` with `0 <= m < n`. */
  lemma ModUnique(a: int, n: int, q: int, m: int)
    requires n > 0 && 0 <= m < n && a == q * n + m
    ensures a % n == m
  {
    var q' := a / n;
    var m' := a % n;
    assert a == q' * n + m';
    if q' < q {
      assert (q - q') * n == q * n - q' * n;
      MulGrows(q - q', n);
    } else if q' > q {
      assert (q' - q) * n == q' * n - q * n;
      MulGrows(q' - q, n);
    }
  }

  /** Indices `j` and `j % n` address the same triple of a cyclic list of length `n`. */
  lemma ModShift(j: nat, d: nat, n: nat)
    requires n > 0
    ensures (j + d) % n == (j % n + d) % n
  {
    var q := j / n;
    var m := j % n;
    var q2 := (m + d) / n;
    var m2 := (m + d) % n;
    assert m + d == q2 * n + m2;
    assert j == q * n + m;
    assert (q + q2) * n == q * n + q2 * n;
    ModUnique(j + d, n, q + q2, m2);
  }

  /** Any `n` consecutive indices after `lo` hit every residue modulo `n`. */
  lemma {:induction false} CoverResidue(lo: nat, n: nat, k: nat) returns (j: nat)
    requires n > 0 && k < n
    ensures lo < j <= lo + n && j % n == k
    decreases lo
  {
    if lo == 0 {
      j := if k == 0 then n else k;
      ModUnique(j, n, if k == 0 then 1 else 0, k);
    } else {
      j := CoverResidue(lo - 1, n, k);
      if j == lo {
        ModShift(j, n, n);
        ModUnique(k + n, n, 1, k);
        j := j + n;
      }
    }
  }

  lemma SwapsAtResidue<T>(s: seq<T>, j: nat, swap: (T, T, T) -> bool)
    requires |s| > 0
    ensures SwapsAt(s, j, swap) == SwapsAt(s, j % |s|, swap)
  {
    var n := |s|;
    ModShift(j, 0, n);
    ModShift(j, 1, n);
    ModShift(j, 2, n);
    ModUnique(j % n, n, 0, j % n);
  }

  /** A window of `n` consecutive unswapped indices leaves no position to swap. */
  lemma WindowIsLocallySmooth<T>(s: seq<T>, lo: nat, swap: (T, T, T) -> bool)
    requires |s| > 0
    requires forall j :: lo < j <= lo + |s| ==> !SwapsAt(s, j, swap)
    ensures LocallySmooth(s, swap)
  {
    forall k | 0 <= k < |s|
      ensures !SwapsAt(s, k, swap)
    {
      var j := CoverResidue(lo, |s|, k);
      SwapsAtResidue(s, j, swap);
    }
  }

  /** The playlist with positions `(i + 1) % n` and `(i + 2) % n` exchanged. */
  function SwappedNext<T>(s: seq<T>, i: nat): (r: seq<T>)
    requires |s| > 0
    ensures |r| == |s| && multiset(r) == multiset(s)
    ensures r[(i + 1) % |s|] == s[(i + 2) % |s|] && r[(i + 2) % |s|] == s[(i + 1) % |s|]
    ensures forall k :: 0 <= k < |s| && k != (i + 1) % |s| && k != (i + 2) % |s| ==> r[k] == s[k]
  {
    var n := |s|;
    s[(i + 1) % n := s[(i + 2) % n]][(i + 2) % n := s[(i + 1) % n]]
  }

  /**
   * The loop of `smooth_playlist` from evaluation `i` on, the last swap made
   * at `lastSwap`: each step tests the triple at `i` and swaps it, or stops
   * when more than `n` evaluations passed since the last swap, or goes on.
   * The result is the final playlist and the number of evaluations made.
   */
  function SmoothFrom<T>(s: seq<T>, i: nat, lastSwap: nat, budget: nat, swap: (T, T, T) -> bool): (r: (seq<T>, nat))
    requires |s| > 0
    ensures |r.0| == |s| && multiset(r.0) == multiset(s)
    ensures i <= budget ==> i <= r.1 <= budget
    decreases budget - i
  {
    if i >= budget then (s, i)
    else if SwapsAt(s, i, swap) then SmoothFrom(SwappedNext(s, i), i + 1, i, budget, swap)
    else if i - lastSwap > |s| then (s, i + 1)
    else SmoothFrom(s, i + 1, lastSwap, budget, swap)
  }

  /** `smooth_playlist(tracks)` and the number of rule evaluations it makes. */
  function Smoothed<T>(tracks: seq<T>, swap: (T, T, T) -> bool): (r: (seq<T>, nat))
    ensures |r.0| == |tracks| && multiset(r.0) == multiset(tracks)
    ensures |tracks| <= 2 ==> r == (tracks, 0)
    ensures |tracks| > 2 ==> r.1 <= MaxSmoothCycles * |tracks| - 2
  {
    if |tracks| <= 2 then (tracks, 0)
    else SmoothFrom(tracks, 0, 0, MaxSmoothCycles * |tracks| - 2, swap)
  }

  /** One step of the loop: a firing rule swaps and goes on; a quiet one long after the last swap stops. */
  lemma SmoothedStopsOrSwaps<T>(s: seq<T>, i: nat, lastSwap: nat, budget: nat, swap: (T, T, T) -> bool)
    requires |s| > 0 && lastSwap <= i < budget
    ensures SwapsAt(s, i, swap) ==>
      SmoothFrom(s, i, lastSwap, budget, swap) == SmoothFrom(SwappedNext(s, i), i + 1, i, budget, swap)
    ensures !SwapsAt(s, i, swap) && i - lastSwap > |s| ==> SmoothFrom(s, i, lastSwap, budget, swap) == (s, i + 1)
  {
  }

  /** The exchange of positions `(i + 1) % n` and `(i + 2) % n` of the playlist, in place. */
  method SwapNext<T>(a: array<T>, i: nat)
    requires a.Length > 0
    modifies a
    ensures a[..] == SwappedNext(old(a[..]), i)
    ensures multiset(a[..]) == multiset(old(a[..]))
  {
    var n := a.Length;
    a[(i + 1) % n], a[(i + 2) % n] := a[(i + 2) % n], a[(i + 1) % n];
  }

  /**
   * `smooth_playlist`: at most `MAX_SMOOTH_CYCLES * n - 2` evaluations of the
   * rule over a cyclic index, each of which may exchange positions
   * `(i + 1) % n` and `(i + 2) % n` in place. The loop stops early once more
   * than `n` evaluations passed since the last swap, and then no position
   * would be swapped any more. `evaluations` is the number of rule
   * evaluations made.
   */
  method SmoothPlaylist<T>(tracks: seq<T>, swap: (T, T, T) -> bool) returns (r: seq<T>, evaluations: nat)
    ensures (r, evaluations) == Smoothed(tracks, swap)
    ensures |tracks| <= 2 ==> r == tracks && evaluations == 0
    ensures multiset(r) == multiset(tracks) && |r| == |tracks|
    ensures |tracks| > 2 ==> evaluations <= MaxSmoothCycles * |tracks| - 2
    ensures |tracks| > 2 && evaluations < MaxSmoothCycles * |tracks| - 2 ==> LocallySmooth(r, swap)
  {
    if |tracks| <= 2 {
      return tracks, 0;
    }
    var n := |tracks|;
    var a := new T[n](k requires 0 <= k < n => tracks[k]);
    assert a[..] == tracks;
    evaluations := SmoothInPlace(a, swap);
    r := a[..];
  }

  /** The loop of `smooth_playlist` over the list `a`, changed in place. */
  method SmoothInPlace<T>(a: array<T>, swap: (T, T, T) -> bool) returns (evaluations: nat)
    requires a.Length > 2
    modifies a
    ensures (a[..], evaluations) == SmoothFrom(old(a[..]), 0, 0, MaxSmoothCycles * a.Length - 2, swap)
    ensures multiset(a[..]) == multiset(old(a[..]))
    ensures evaluations <= MaxSmoothCycles * a.Length - 2
    ensures evaluations < MaxSmoothCycles * a.Length - 2 ==> LocallySmooth(a[..], swap)
  {
    var n := a.Length;
    var budget := MaxSmoothCycles * n - 2;
    var lastSwap: nat := 0;
    var i: nat := 0;
    var stopped := false;
    while i < budget && !stopped
      invariant i <= budget && lastSwap <= i
      invariant multiset(a[..]) == multiset(old(a[..]))
      invariant forall j :: lastSwap < j < i ==> !SwapsAt(a[..], j, swap)
      invariant stopped ==> i - 1 - lastSwap > n && i >= 1
      invariant stopped ==> (a[..], i) == SmoothFrom(old(a[..]), 0, 0, budget, swap)
      invariant !stopped ==> SmoothFrom(a[..], i, lastSwap, budget, swap) == SmoothFrom(old(a[..]), 0, 0, budget, swap)
      decreases budget - i, if stopped then 0 else 1
    {
      SmoothedStopsOrSwaps(a[..], i, lastSwap, budget, swap);
      if swap(a[i % n], a[(i + 1) % n], a[(i + 2) % n]) {
        SwapNext(a, i);
        lastSwap := i;
      } else {
        assert !SwapsAt(a[..], i, swap);
        stopped := i - lastSwap > n;
      }
      i := i + 1;
    }
    evaluations := i;
    if stopped {
      WindowIsLocallySmooth(a[..], lastSwap, swap);
    }
  }
}
