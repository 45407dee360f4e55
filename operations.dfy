/**
 * Combinable list operations: wrappers around list-to-list functions that
 * compose with `&` (one after the other) and `|` (union of the results), and
 * carry a display name that records how they were built.
 */
module Operations {
  import opened Wrappers
  import opened Lists

  /** A Python function on lists together with its `__name__`. */
  datatype PyFunction<!T> = PyFunction(call: seq<T> -> seq<T>, name: string)

  /** A `CombinableListOperation`: the wrapped operation and its display name. */
  datatype CombinableListOperation<!T> = CombinableListOperation(operation: seq<T> -> seq<T>, displayName: string)

  /** `CombinableListOperation(operation=..., display_name=...)`: the name defaults to the function's own. */
  function NewOperation<T(!new)>(operation: PyFunction<T>, displayName: Option<string>): (op: CombinableListOperation<T>)
    ensures displayName.Some? ==> op.displayName == displayName.value
    ensures displayName.None? ==> op.displayName == operation.name
    ensures op.operation == operation.call
  {
    CombinableListOperation(operation.call, if displayName.Some? then displayName.value else operation.name)
  }

  /** `a & b`: `a` first, then `b` on its result. */
  function And<T(!new)>(a: CombinableListOperation<T>, b: CombinableListOperation<T>): (c: CombinableListOperation<T>)
    ensures forall tracks :: c.operation(tracks) == b.operation(a.operation(tracks))
    ensures c.displayName == a.displayName + " & " + b.displayName
  {
    NewOperation(PyFunction((tracks: seq<T>) => b.operation(a.operation(tracks)), "chained_operation"),
                 Some(a.displayName + " & " + b.displayName))
  }

  /**
   * `a | b`: every element either result holds, each once. The source
   * returns `list(set(...) | set(...))`, whose order is the set's; here it is
   * first-occurrence order.
   */
  function Or<T(==,!new)>(a: CombinableListOperation<T>, b: CombinableListOperation<T>): (c: CombinableListOperation<T>)
    ensures forall tracks, x :: x in c.operation(tracks) <==> x in a.operation(tracks) || x in b.operation(tracks)
    ensures forall tracks :: Distinct(c.operation(tracks))
    ensures c.displayName == "(" + a.displayName + " | " + b.displayName + ")"
  {
    var union := PyFunction((tracks: seq<T>) => Union(a.operation(tracks), b.operation(tracks)), "union");
    var c := NewOperation(union, Some("(" + a.displayName + " | " + b.displayName + ")"));
    assert forall tracks :: c.operation(tracks) == Union(a.operation(tracks), b.operation(tracks));
    c
  }

  /** Chaining is associative, in what it computes and in its name. */
  lemma AndAssociative<T(!new)>(a: CombinableListOperation<T>, b: CombinableListOperation<T>, c: CombinableListOperation<T>)
    ensures forall tracks :: And(And(a, b), c).operation(tracks) == And(a, And(b, c)).operation(tracks)
    ensures And(And(a, b), c).displayName == And(a, And(b, c)).displayName
  {
    var left, right := And(And(a, b), c), And(a, And(b, c));
    assert left.displayName == a.displayName + " & " + b.displayName + " & " + c.displayName;
    assert right.displayName == a.displayName + " & " + (b.displayName + " & " + c.displayName);
  }

  /** The union holds the same elements whichever operand comes first. */
  lemma OrCommutesAsSet<T(!new)>(a: CombinableListOperation<T>, b: CombinableListOperation<T>, tracks: seq<T>)
    ensures forall x :: x in Or(a, b).operation(tracks) <==> x in Or(b, a).operation(tracks)
  {
    var ab, ba := Or(a, b).operation(tracks), Or(b, a).operation(tracks);
    assert forall x :: x in ab <==> x in a.operation(tracks) || x in b.operation(tracks);
    assert forall x :: x in ba <==> x in b.operation(tracks) || x in a.operation(tracks);
  }

  /** `a | a` holds what `a` does, without repetitions. */
  lemma OrIdempotentAsSet<T(!new)>(a: CombinableListOperation<T>, tracks: seq<T>)
    ensures forall x :: x in Or(a, a).operation(tracks) <==> x in a.operation(tracks)
    ensures Distinct(a.operation(tracks)) ==> |Or(a, a).operation(tracks)| == |a.operation(tracks)|
  {
    var r := Or(a, a).operation(tracks);
    if Distinct(a.operation(tracks)) {
      DistinctSameElementsSameLength(r, a.operation(tracks));
    }
  }

  lemma DistinctSameElementsSameLength<T(!new)>(r: seq<T>, s: seq<T>)
    requires Distinct(r) && Distinct(s)
    requires forall x :: x in r <==> x in s
    ensures |r| == |s|
  {
    DistinctCardinality(r);
    DistinctCardinality(s);
    assert (set x | x in r) == (set x | x in s);
  }

  lemma {:induction false} DistinctCardinality<T>(s: seq<T>)
    requires Distinct(s)
    ensures |set x | x in s| == |s|
    decreases |s|
  {
    if s != [] {
      assert forall x :: x in s[1..] ==> x in s;
      DistinctCardinality(s[1..]);
      assert (set x | x in s) == {s[0]} + (set x | x in s[1..]);
      assert s[0] !in s[1..];
    }
  }

  /** `combinable(func, display_name=...)`, or the decorator `combinable(display_name=...)` when no function is given. */
  datatype Combined<!T> = Operation(op: CombinableListOperation<T>) | Decorator(wrap: PyFunction<T> -> CombinableListOperation<T>)

  function Combinable<T(!new)>(func: Option<PyFunction<T>>, displayName: Option<string>): (r: Combined<T>)
    ensures func.Some? ==> r.Operation? && r.op.displayName == displayName.GetOr(func.value.name)
    ensures func.None? ==> r.Decorator?
  {
    if func.Some? then Operation(NewOperation(func.value, displayName))
    else Decorator((f: PyFunction<T>) => NewOperation(f, displayName))
  }

  /** `@combinable`, `@combinable()` and `combinable(f)` build the same operation. */
  lemma DecoratorFormsAgree<T(!new)>(f: PyFunction<T>, displayName: Option<string>)
    ensures Combinable(None, displayName).wrap(f) == Combinable(Some(f), displayName).op
    ensures Combinable(None, None).wrap(f).displayName == f.name
  {
  }

  // ------------------------------------------------------------------
  // The chained example: odd numbers, squared, sorted.

  predicate Odd(n: int) {
    n % 2 == 1
  }

  /** `is_odd`: the odd numbers, in order: a filter of the list. */
  function IsOdd(numbers: seq<int>): (r: seq<int>)
    ensures |r| <= |numbers| && forall i :: 0 <= i < |r| ==> r[i] % 2 == 1
  {
    OddsFrom(numbers, 0)
  }

  /** `is_odd` is the filter of the list by oddness. */
  lemma IsOddFilters(numbers: seq<int>)
    ensures IsOdd(numbers) == Filter(numbers, Odd)
  {
    OddsFromFilters(numbers, 0);
    assert numbers[0..] == numbers;
  }

  /** The odd numbers from position `k` on, in order. */
  function OddsFrom(numbers: seq<int>, k: nat): (r: seq<int>)
    requires k <= |numbers|
    ensures |r| <= |numbers| - k && forall i :: 0 <= i < |r| ==> r[i] % 2 == 1
    decreases |numbers| - k
  {
    if k == |numbers| then []
    else (if numbers[k] % 2 == 1 then [numbers[k]] else []) + OddsFrom(numbers, k + 1)
  }

  lemma {:induction false} OddsFromFilters(numbers: seq<int>, k: nat)
    requires k <= |numbers|
    ensures OddsFrom(numbers, k) == Filter(numbers[k..], Odd)
    decreases |numbers| - k
  {
    if k < |numbers| {
      assert numbers[k..][1..] == numbers[k + 1..];
      OddsFromFilters(numbers, k + 1);
    }
  }

  /** `squared`: each number squared, in place of the number. */
  function Squared(numbers: seq<int>): (r: seq<int>)
    ensures |r| == |numbers| && forall i :: 0 <= i < |r| ==> r[i] == numbers[i] * numbers[i]
  {
    if numbers == [] then [] else [numbers[0] * numbers[0]] + Squared(numbers[1..])
  }

  function SquaredOdds(): CombinableListOperation<int> {
    And(NewOperation(PyFunction(IsOdd, "is_odd"), None), NewOperation(PyFunction(Squared, "squared"), None))
  }

  /** Chained names read left to right: `is_odd & squared`, then `is_odd & squared & sorted`. */
  lemma ChainedNames(sorted: PyFunction<int>)
    requires sorted.name == "sorted"
    ensures SquaredOdds().displayName == "is_odd & squared"
    ensures And(SquaredOdds(), NewOperation(sorted, None)).displayName == "is_odd & squared & sorted"
  {
  }

  /** The odd numbers of the last five numbers of the sample. */
  lemma OddsOfSampleTail()
    ensures OddsFrom([5, 4, 6, 3, 7, 2, 8, 1, 9, 0], 5) == [1, 9]
  {
    var s := [5, 4, 6, 3, 7, 2, 8, 1, 9, 0];
    assert OddsFrom(s, 9) == [];
    assert OddsFrom(s, 8) == [9];
    assert OddsFrom(s, 7) == [1, 9];
    assert OddsFrom(s, 6) == [1, 9];
  }

  lemma OddsOfSample()
    ensures IsOdd([5, 4, 6, 3, 7, 2, 8, 1, 9, 0]) == [5, 3, 7, 1, 9]
  {
    var s := [5, 4, 6, 3, 7, 2, 8, 1, 9, 0];
    OddsOfSampleTail();
    assert OddsFrom(s, 4) == [7, 1, 9];
    assert OddsFrom(s, 3) == [3, 7, 1, 9];
    assert OddsFrom(s, 2) == [3, 7, 1, 9];
    assert OddsFrom(s, 1) == [3, 7, 1, 9];
  }

  lemma SquaresOfOdds()
    ensures Squared([5, 3, 7, 1, 9]) == [25, 9, 49, 1, 81]
  {
    assert [5, 3, 7, 1, 9][1..] == [3, 7, 1, 9];
    assert [3, 7, 1, 9][1..] == [7, 1, 9];
    assert [7, 1, 9][1..] == [1, 9];
    assert [1, 9][1..] == [9];
  }

  /** `is_odd & squared` squares the odd numbers of the sample, keeping their order. */
  lemma SquaredOddsExample()
    ensures SquaredOdds().operation([5, 4, 6, 3, 7, 2, 8, 1, 9, 0]) == [25, 9, 49, 1, 81]
  {
    OddsOfSample();
    SquaresOfOdds();
  }
}
