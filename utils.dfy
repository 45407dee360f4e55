/** `take_x_at_a_time`: a list cut into consecutive chunks of a fixed size. */
module Utils {
  import opened Wrappers
  import opened Lists

  /**
   * Python's `divmod(n, x)` for `x != 0`: the quotient rounds toward minus
   * infinity, so the remainder has the sign of `x`.
   */
  function PyDivMod(n: int, x: int): (qr: (int, int))
    requires x != 0
    ensures n == qr.0 * x + qr.1
    ensures x > 0 ==> 0 <= qr.1 < x
    ensures x < 0 ==> x < qr.1 <= 0
  {
    var q, r := n / x, n % x;
    if x > 0 || r == 0 then (q, r)
    else
      assert (q - 1) * x == q * x - x;
      (q - 1, r + x)
  }

  /** Python's `s[lo:hi]` for non-negative bounds: both ends clamped to the list. */
  function PySlice<T>(s: seq<T>, lo: nat, hi: nat): (r: seq<T>)
    ensures lo <= hi <= |s| ==> r == s[lo..hi]
    ensures hi <= lo ==> r == []
  {
    var a := if lo <= |s| then lo else |s|;
    var b := if hi <= |s| then hi else |s|;
    if a <= b then s[a..b] else []
  }

  /** `quotient + bool(remainder)`: the length of the `range` the generator runs over. */
  function ChunkRange(n: nat, x: int): int
    requires x != 0
  {
    var (q, r) := PyDivMod(n, x);
    q + (if r != 0 then 1 else 0)
  }

  /**
   * The chunks `take_x_at_a_time(items, x)` yields, collected: chunk `i` is
   * `items[i * x : (i + 1) * x]`. A zero size fails in `divmod`; a negative
   * size gives an empty range.
   */
  function TakeXAtATime<T>(items: seq<T>, x: int): (r: Result<seq<seq<T>>>)
    ensures r.Err? <==> x == 0
    ensures r.Err? ==> r.error == ZeroDivisionError
  {
    if x == 0 then Err(ZeroDivisionError)
    else
      var count := ChunkRange(|items|, x);
      if count <= 0 || x < 0 then Ok([])
      else Ok(seq(count, (i: int) requires 0 <= i < count => PySlice(items, i * x, (i + 1) * x)))
  }

  lemma {:induction false} MulMonotone(a: int, b: int, x: int)
    requires 0 <= a <= b && x >= 0
    ensures a * x <= b * x
    decreases b - a
  {
    if a < b {
      MulMonotone(a, b - 1, x);
      assert b * x == (b - 1) * x + x;
    }
  }

  /** For a positive size the range is the ceiling of `n / x`: the least `c` with `n <= c * x`. */
  lemma ChunkRangeIsCeiling(n: nat, x: int)
    requires x > 0
    ensures ChunkRange(n, x) >= 0
    ensures n <= ChunkRange(n, x) * x
    ensures n > 0 ==> (ChunkRange(n, x) - 1) * x < n
    ensures n == 0 ==> ChunkRange(n, x) == 0
  {
    var (q, r) := PyDivMod(n, x);
    assert (q + 1) * x == q * x + x;
    if n == 0 && q > 0 {
      MulMonotone(1, q, x);
    }
  }

  /** A negative size: `range` of a non-positive count, so no chunks. */
  lemma NegativeSizeGivesNoChunks<T>(items: seq<T>, x: int)
    requires x < 0
    ensures TakeXAtATime(items, x) == Ok([])
  {
  }

  /** Nothing to cut: no chunks. */
  lemma EmptyGivesNoChunks<T>(items: seq<T>, x: int)
    requires x != 0 && items == []
    ensures TakeXAtATime(items, x) == Ok([])
  {
    if x > 0 {
      ChunkRangeIsCeiling(0, x);
    }
  }

  /** Chunk `i` is the slice of `items` between bounds `i` and `i + 1`. */
  ghost predicate SliceAt<T>(items: seq<T>, chunks: seq<seq<T>>, bounds: seq<int>, i: nat)
    requires i < |chunks| && |bounds| == |chunks| + 1
  {
    0 <= bounds[i] <= bounds[i + 1] <= |items| && chunks[i] == items[bounds[i]..bounds[i + 1]]
  }

  /** Consecutive slices `items[bounds[i]..bounds[i + 1]]` from 0, concatenated, give the prefix up to the last bound. */
  lemma {:induction false} FlattenSlices<T(!new)>(items: seq<T>, chunks: seq<seq<T>>, bounds: seq<int>, k: nat)
    requires |bounds| == |chunks| + 1 && k <= |chunks| && bounds[0] == 0
    requires forall i :: 0 <= i < |chunks| ==> SliceAt(items, chunks, bounds, i)
    ensures 0 <= bounds[k] <= |items| && Flatten(chunks[..k]) == items[..bounds[k]]
    decreases k
  {
    if k > 0 {
      FlattenSlices(items, chunks, bounds, k - 1);
      assert SliceAt(items, chunks, bounds, k - 1);
      assert chunks[..k] == chunks[..k - 1] + [chunks[k - 1]];
      FlattenConcat(chunks[..k - 1], [chunks[k - 1]]);
      assert items[..bounds[k - 1]] + items[bounds[k - 1]..bounds[k]] == items[..bounds[k]];
    }
  }

  /** Chunk `i`, starting at `lo == i * x`, is the slice of `x` items from `lo`, cut short at the end of the list. */
  lemma ChunkAt<T>(items: seq<T>, x: int, i: nat, lo: int)
    requires x > 0 && i < ChunkRange(|items|, x) && lo == i * x
    ensures TakeXAtATime(items, x).Ok? && i < |TakeXAtATime(items, x).value|
    ensures 0 <= lo < |items|
    ensures TakeXAtATime(items, x).value[i] == items[lo..if lo + x <= |items| then lo + x else |items|]
  {
    ChunkStart(|items|, x, i, lo);
    assert (i + 1) * x == lo + x;
    var chunks := TakeXAtATime(items, x).value;
    assert chunks[i] == PySlice(items, lo, lo + x);
  }

  /** Every chunk starts inside the list. */
  lemma ChunkStart(n: nat, x: int, i: nat, lo: int)
    requires x > 0 && i < ChunkRange(n, x) && lo == i * x
    ensures 0 <= lo < n
  {
    ChunkRangeIsCeiling(n, x);
    MulMonotone(i, ChunkRange(n, x) - 1, x);
    MulMonotone(0, i, x);
  }

  /** The chunks, concatenated, give back the items. */
  lemma ChunksConcatenateToItems<T(!new)>(items: seq<T>, x: int)
    requires x > 0
    ensures TakeXAtATime(items, x).Ok?
    ensures Flatten(TakeXAtATime(items, x).value) == items
  {
    var n := |items|;
    var chunks := TakeXAtATime(items, x).value;
    ChunkRangeIsCeiling(n, x);
    var bounds := seq(|chunks| + 1, (i: int) => if i * x <= n then i * x else n);
    forall i | 0 <= i < |chunks|
      ensures SliceAt(items, chunks, bounds, i)
    {
      ChunkAt(items, x, i, i * x);
      assert (i + 1) * x == i * x + x;
    }
    if |chunks| > 0 {
      assert |chunks| * x >= n;
    }
    FlattenSlices(items, chunks, bounds, |chunks|);
    assert chunks[..|chunks|] == chunks;
  }

  /**
   * There are `ceil(n / x)` chunks; every chunk but the last holds `x` items,
   * and the last holds the remainder `n % x` when that is not zero.
   */
  lemma ChunkSizes<T>(items: seq<T>, x: int)
    requires x > 0
    ensures TakeXAtATime(items, x).Ok?
    ensures var chunks := TakeXAtATime(items, x).value;
      && |chunks| == ChunkRange(|items|, x)
      && (forall i :: 0 <= i < |chunks| - 1 ==> |chunks[i]| == x)
      && (|chunks| > 0 ==> |chunks[|chunks| - 1]| == if |items| % x == 0 then x else |items| % x)
  {
    ChunkRangeIsCeiling(|items|, x);
    var chunks := TakeXAtATime(items, x).value;
    forall i | 0 <= i < |chunks| - 1
      ensures |chunks[i]| == x
    {
      FullChunk(items, x, i);
    }
    if |chunks| > 0 {
      LastChunk(items, x);
    }
  }

  lemma FullChunk<T>(items: seq<T>, x: int, i: nat)
    requires x > 0 && i < ChunkRange(|items|, x) - 1
    ensures TakeXAtATime(items, x).Ok? && |TakeXAtATime(items, x).value[i]| == x
  {
    var c := ChunkRange(|items|, x);
    ChunkRangeIsCeiling(|items|, x);
    var lo, hi := i * x, (i + 1) * x;
    assert hi == lo + x;
    MulMonotone(i + 1, c - 1, x);
    MulMonotone(0, i, x);
    assert TakeXAtATime(items, x).value[i] == PySlice(items, lo, hi);
  }

  lemma LastChunk<T>(items: seq<T>, x: int)
    requires x > 0 && ChunkRange(|items|, x) > 0
    ensures TakeXAtATime(items, x).Ok?
    ensures var chunks := TakeXAtATime(items, x).value;
      |chunks| > 0 && |chunks[|chunks| - 1]| == if |items| % x == 0 then x else |items| % x
  {
    var n := |items|;
    var c := ChunkRange(n, x);
    ChunkRangeIsCeiling(n, x);
    var last := c - 1;
    var lo := last * x;
    assert c * x == lo + x;
    MulMonotone(0, last, x);
    assert TakeXAtATime(items, x).value[last] == PySlice(items, lo, c * x);
    var (q, r) := PyDivMod(n, x);
    assert r == n % x;
    if r == 0 {
      assert last == q - 1;
      assert lo == n - x;
    } else {
      assert last == q;
    }
  }

  /** Seven items three at a time: two full chunks and a one-item rest. */
  lemma TakeXAtATimeExample()
    ensures TakeXAtATime([1, 2, 3, 4, 5, 6, 7], 3) == Ok([[1, 2, 3], [4, 5, 6], [7]])
  {
    var items := [1, 2, 3, 4, 5, 6, 7];
    assert PyDivMod(7, 3) == (2, 1);
    assert ChunkRange(7, 3) == 3;
    var chunks := TakeXAtATime(items, 3).value;
    assert chunks[0] == PySlice(items, 0, 3) == [1, 2, 3];
    assert chunks[1] == PySlice(items, 3, 6) == [4, 5, 6];
    assert chunks[2] == PySlice(items, 6, 9) == [7];
    assert |chunks| == 3;
    assert chunks == [[1, 2, 3], [4, 5, 6], [7]];
  }
}
