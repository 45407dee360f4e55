/**
 * The recursive bipartitioner `quick_pick`. The three revisions of the
 * shuffling module carry the same body; they differ only in the pickers,
 * seed pickers and dispatchers passed to it, which live in the modules
 * RootShuffling, MusicToolsShuffling and LibShuffling.
 */
module QuickPick {
  import opened Wrappers

  /** `add_to_left(left, right, item, items)`: true sends `item` to the left group. */
  type Picker<!T> = (seq<T>, seq<T>, T, seq<T>) -> bool

  /**
   * `seed_picker(items, left_neighbor=...)`: the left and right seeds. A seed
   * picker may demand a non-empty pool (it indexes or takes a minimum).
   */
  type SeedPicker<!T> = (seq<T>, Option<T>) --> (T, T)

  /** `quick_pick` only ever calls the seed picker on pools of two or more items. */
  ghost predicate AcceptsPools<T(!new)>(seedPicker: Option<SeedPicker<T>>) {
    seedPicker.Some? ==> forall pool, n :: |pool| >= 2 ==> seedPicker.value.requires(pool, n)
  }

  /** The random in-place shuffle, given as the permutation it happens to produce. */
  type Shuffler<!T> = seq<T> -> seq<T>

  ghost predicate IsPermuting<T(!new)>(shuffle: Shuffler<T>) {
    forall s :: multiset(shuffle(s)) == multiset(s)
  }

  /** `list.remove(x)`: drops the first occurrence of `x`. */
  function RemoveFirst<T(==)>(s: seq<T>, x: T): (r: seq<T>)
    requires x in s
    ensures |r| == |s| - 1
    ensures multiset(r) == multiset(s) - multiset{x}
  {
    assert s == [s[0]] + s[1..];
    if s[0] == x then s[1..]
    else [s[0]] + RemoveFirst(s[1..], x)
  }

  /** Putting the removed element back gives the list's elements again. */
  lemma RemoveFirstRestores<T>(s: seq<T>, x: T)
    requires x in s
    ensures multiset(s) == multiset(RemoveFirst(s, x)) + multiset{x}
  {
    assert multiset(s)[x] > 0;
  }

  /** Both `remove` calls of the seeds succeed: the seeds are two elements of the pool. */
  predicate SeedsValid<T(==)>(pool: seq<T>, seeds: (T, T)) {
    seeds.0 in pool && seeds.1 in RemoveFirst(pool, seeds.0)
  }

  lemma SeedsValidIsSubMultiset<T>(pool: seq<T>, seeds: (T, T))
    ensures SeedsValid(pool, seeds) <==> multiset{seeds.0, seeds.1} <= multiset(pool)
  {
    if seeds.0 in pool {
      var rest := RemoveFirst(pool, seeds.0);
      assert seeds.1 in rest <==> multiset(rest)[seeds.1] > 0;
    }
  }

  /** The seeds `quick_pick` starts from: `items[:2]` without a seed picker. */
  function Seeds<T>(pool: seq<T>, seedPicker: Option<SeedPicker<T>>, leftNeighbor: Option<T>): (T, T)
    requires |pool| >= 2
    requires seedPicker.Some? ==> seedPicker.value.requires(pool, leftNeighbor)
  {
    if seedPicker.None? then (pool[0], pool[1]) else seedPicker.value(pool, leftNeighbor)
  }

  /** The seed picker never makes a `remove` fail. */
  ghost predicate SeedsAlwaysValid<T(!new)>(seedPicker: Option<SeedPicker<T>>)
    requires AcceptsPools(seedPicker)
  {
    seedPicker.Some? ==>
      forall pool, n :: |pool| >= 2 ==> SeedsValid(pool, seedPicker.value(pool, n))
  }

  /**
   * The dealing loop: each pending item, in order, is appended to the side the
   * picker chooses given the groups as they stand; `items` is the whole list
   * the loop runs over.
   */
  function Dealt<T>(left: seq<T>, right: seq<T>, pending: seq<T>, items: seq<T>, pick: Picker<T>): (r: (seq<T>, seq<T>))
    ensures multiset(r.0) + multiset(r.1) == multiset(left) + multiset(right) + multiset(pending)
    ensures |r.0| + |r.1| == |left| + |right| + |pending|
    ensures |r.0| >= |left| && |r.1| >= |right|
    ensures r.0[..|left|] == left && r.1[..|right|] == right
    decreases |pending|
  {
    if pending == [] then (left, right)
    else
      var x := pending[0];
      assert multiset(pending) == multiset{x} + multiset(pending[1..]) by {
        assert pending == [x] + pending[1..];
      }
      if pick(left, right, x, items) then
        var r := Dealt(left + [x], right, pending[1..], items, pick);
        assert r.0[..|left|] == (r.0[..|left| + 1])[..|left|];
        r
      else
        var r := Dealt(left, right + [x], pending[1..], items, pick);
        assert r.1[..|right|] == (r.1[..|right| + 1])[..|right|];
        r
  }

  /**
   * The boundary correction: when a left neighbour is given and the picker
   * would not add it to the left group, the two groups trade places whole.
   */
  function Oriented<T>(left: seq<T>, right: seq<T>, leftNeighbor: Option<T>, items: seq<T>, pick: Picker<T>): (r: (seq<T>, seq<T>))
    ensures leftNeighbor.None? ==> r == (left, right)
    ensures leftNeighbor.Some? && !pick(left, right, leftNeighbor.value, items) ==> r == (right, left)
    ensures leftNeighbor.Some? && pick(left, right, leftNeighbor.value, items) ==> r == (left, right)
  {
    if leftNeighbor.Some? && !pick(left, right, leftNeighbor.value, items) then (right, left) else (left, right)
  }

  /** Whichever way it goes, the correction only exchanges the groups, so no element changes group. */
  lemma OrientedExchangesWholeGroups<T>(left: seq<T>, right: seq<T>, leftNeighbor: Option<T>, items: seq<T>, pick: Picker<T>)
    ensures var r := Oriented(left, right, leftNeighbor, items, pick);
      (r.0 == left && r.1 == right) || (r.0 == right && r.1 == left)
  {
  }

  /** The two groups of one split step hold exactly the pool. */
  lemma DealtGroupsHoldPool<T>(pool: seq<T>, leftSeed: T, rightSeed: T, pick: Picker<T>, leftNeighbor: Option<T>)
    requires leftSeed in pool && rightSeed in RemoveFirst(pool, leftSeed)
    ensures var rest := RemoveFirst(RemoveFirst(pool, leftSeed), rightSeed);
      var dealt := Dealt([leftSeed], [rightSeed], rest, rest, pick);
      var groups := Oriented(dealt.0, dealt.1, leftNeighbor, rest, pick);
      && multiset(groups.0) + multiset(groups.1) == multiset(pool)
      && |groups.0| >= 1 && |groups.1| >= 1
  {
    var afterLeft := RemoveFirst(pool, leftSeed);
    var rest := RemoveFirst(afterLeft, rightSeed);
    var dealt := Dealt([leftSeed], [rightSeed], rest, rest, pick);
    RemoveFirstRestores(pool, leftSeed);
    RemoveFirstRestores(afterLeft, rightSeed);
    assert multiset(dealt.0) + multiset(dealt.1) == multiset{leftSeed} + multiset{rightSeed} + multiset(rest);
    OrientedExchangesWholeGroups(dealt.0, dealt.1, leftNeighbor, rest, pick);
  }

  /** The `for item in items` loop that deals the rest of the pool after the two seeds. */
  method Deal<T>(leftSeed: T, rightSeed: T, rest: seq<T>, pick: Picker<T>) returns (left: seq<T>, right: seq<T>)
    ensures (left, right) == Dealt([leftSeed], [rightSeed], rest, rest, pick)
  {
    left, right := [leftSeed], [rightSeed];
    var k := 0;
    while k < |rest|
      invariant 0 <= k <= |rest|
      invariant Dealt(left, right, rest[k..], rest, pick) == Dealt([leftSeed], [rightSeed], rest, rest, pick)
    {
      assert rest[k..][1..] == rest[k + 1..];
      if pick(left, right, rest[k], rest) {
        left := left + [rest[k]];
      } else {
        right := right + [rest[k]];
      }
      k := k + 1;
    }
    assert rest[k..] == [];
  }

  /**
   * One split step of `quick_pick`: shuffle, choose the seeds, remove them,
   * deal the rest and apply the boundary correction. A failed `remove` of a
   * seed is the ValueError result.
   */
  function Split<T(==,!new)>(items: seq<T>, pick: Picker<T>, seedPicker: Option<SeedPicker<T>>,
                              leftNeighbor: Option<T>, shuffle: Shuffler<T>): (r: Result<(seq<T>, seq<T>)>)
    requires IsPermuting(shuffle) && AcceptsPools(seedPicker) && |items| >= 2
    ensures |shuffle(items)| == |items|
    ensures r.Err? <==> !SeedsValid(shuffle(items), Seeds(shuffle(items), seedPicker, leftNeighbor))
    ensures r.Err? ==> r.error == ValueError
    ensures r.Ok? ==> multiset(r.value.0) + multiset(r.value.1) == multiset(items)
    ensures r.Ok? ==> |r.value.0| >= 1 && |r.value.1| >= 1 && |r.value.0| + |r.value.1| == |items|
  {
    var pool := shuffle(items);
    assert multiset(pool) == multiset(items);
    assert |multiset(pool)| == |pool| && |multiset(items)| == |items|;
    var seeds := Seeds(pool, seedPicker, leftNeighbor);
    if !SeedsValid(pool, seeds) then Err(ValueError)
    else
      var rest := RemoveFirst(RemoveFirst(pool, seeds.0), seeds.1);
      var dealt := Dealt([seeds.0], [seeds.1], rest, rest, pick);
      DealtGroupsHoldPool(pool, seeds.0, seeds.1, pick, leftNeighbor);
      Ok(Oriented(dealt.0, dealt.1, leftNeighbor, rest, pick))
  }

  /**
   * The groups of a split step are the two dealt groups, the seeds at their
   * heads, exchanged whole exactly when a given left neighbour would not be
   * added to the left one.
   */
  lemma SplitDealsThenOrients<T(!new)>(items: seq<T>, pick: Picker<T>, seedPicker: Option<SeedPicker<T>>,
                                          leftNeighbor: Option<T>, shuffle: Shuffler<T>)
    requires IsPermuting(shuffle) && AcceptsPools(seedPicker) && |items| >= 2
    requires Split(items, pick, seedPicker, leftNeighbor, shuffle).Ok?
    ensures var pool := shuffle(items);
      var seeds := Seeds(pool, seedPicker, leftNeighbor);
      var rest := RemoveFirst(RemoveFirst(pool, seeds.0), seeds.1);
      var dealt := Dealt([seeds.0], [seeds.1], rest, rest, pick);
      var groups := Split(items, pick, seedPicker, leftNeighbor, shuffle).value;
      var swapped := leftNeighbor.Some? && !pick(dealt.0, dealt.1, leftNeighbor.value, rest);
      && dealt.0[0] == seeds.0 && dealt.1[0] == seeds.1
      && (!swapped ==> groups == dealt)
      && (swapped ==> groups == (dealt.1, dealt.0))
  {
    var pool := shuffle(items);
    var seeds := Seeds(pool, seedPicker, leftNeighbor);
    var rest := RemoveFirst(RemoveFirst(pool, seeds.0), seeds.1);
    var dealt := Dealt([seeds.0], [seeds.1], rest, rest, pick);
    assert dealt.0[..1] == [seeds.0] && dealt.1[..1] == [seeds.1];
  }

  lemma ShuffledLength<T(!new)>(items: seq<T>, shuffle: Shuffler<T>)
    requires IsPermuting(shuffle)
    ensures |shuffle(items)| == |items|
  {
    assert multiset(shuffle(items)) == multiset(items);
    assert |multiset(shuffle(items))| == |shuffle(items)| && |multiset(items)| == |items|;
  }

  /** The split step as `quick_pick` runs it, one statement after another. */
  method Bipartition<T(==,!new)>(items: seq<T>, pick: Picker<T>, seedPicker: Option<SeedPicker<T>>,
                                 leftNeighbor: Option<T>, shuffle: Shuffler<T>)
    returns (r: Result<(seq<T>, seq<T>)>)
    requires IsPermuting(shuffle) && AcceptsPools(seedPicker) && |items| >= 2
    ensures r == Split(items, pick, seedPicker, leftNeighbor, shuffle)
  {
    var pool := shuffle(items);
    ShuffledLength(items, shuffle);
    var seeds := Seeds(pool, seedPicker, leftNeighbor);
    var leftSeed, rightSeed := seeds.0, seeds.1;
    if leftSeed !in pool {
      return Err(ValueError);
    }
    var afterLeft := RemoveFirst(pool, leftSeed);
    if rightSeed !in afterLeft {
      return Err(ValueError);
    }
    var rest := RemoveFirst(afterLeft, rightSeed);
    var left, right := Deal(leftSeed, rightSeed, rest, pick);
    r := Ok(Oriented(left, right, leftNeighbor, rest, pick));
  }

  /**
   * `quick_pick(items, add_to_left, seed_picker, left_neighbor)`: split, then
   * order the left group with no neighbour and the right group with the last
   * item of the ordered left group as its left neighbour.
   */
  function QuickPicked<T(==,!new)>(items: seq<T>, pick: Picker<T>, seedPicker: Option<SeedPicker<T>>,
                                    leftNeighbor: Option<T>, shuffle: Shuffler<T>): (r: Result<seq<T>>)
    requires IsPermuting(shuffle) && AcceptsPools(seedPicker)
    ensures |items| < 2 ==> r == Ok(items)
    ensures r.Ok? ==> multiset(r.value) == multiset(items) && |r.value| == |items|
    ensures r.Err? ==> r.error == ValueError
    ensures SeedsAlwaysValid(seedPicker) ==> r.Ok?
    ensures |items| >= 2 && |shuffle(items)| >= 2 ==>
              (!SeedsValid(shuffle(items), Seeds(shuffle(items), seedPicker, leftNeighbor)) ==> r.Err?)
    decreases |items|
  {
    if |items| < 2 then Ok(items)
    else
      var groups :- Split(items, pick, seedPicker, leftNeighbor, shuffle);
      var newLeft :- QuickPicked(groups.0, pick, seedPicker, None, shuffle);
      var newRight :- QuickPicked(groups.1, pick, seedPicker, Some(newLeft[|newLeft| - 1]), shuffle);
      Ok(newLeft + newRight)
  }

  /** `quick_pick`, recursing through the split step method. */
  method QuickPick<T(==,!new)>(items: seq<T>, pick: Picker<T>, seedPicker: Option<SeedPicker<T>>,
                               leftNeighbor: Option<T>, shuffle: Shuffler<T>)
    returns (r: Result<seq<T>>)
    requires IsPermuting(shuffle) && AcceptsPools(seedPicker)
    ensures r == QuickPicked(items, pick, seedPicker, leftNeighbor, shuffle)
    ensures |items| < 2 ==> r == Ok(items)
    ensures r.Ok? ==> multiset(r.value) == multiset(items) && |r.value| == |items|
    ensures SeedsAlwaysValid(seedPicker) ==> r.Ok?
    ensures |items| >= 2 && |shuffle(items)| >= 2 ==>
              (!SeedsValid(shuffle(items), Seeds(shuffle(items), seedPicker, leftNeighbor)) ==> r.Err?)
    decreases |items|
  {
    if |items| < 2 {
      return Ok(items);
    }
    var groups :- Bipartition(items, pick, seedPicker, leftNeighbor, shuffle);
    var left, right := groups.0, groups.1;
    var newLeft :- QuickPick(left, pick, seedPicker, None, shuffle);
    var newRight :- QuickPick(right, pick, seedPicker, Some(newLeft[|newLeft| - 1]), shuffle);
    r := Ok(newLeft + newRight);
  }
}
