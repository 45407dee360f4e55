/** Python's string order, `str(int)`, `sep.join(...)` and `sorted` on strings. */
module PyStrings {

  /** Python's `<` on strings: lexicographic by code point, a proper prefix first. */
  predicate StringLess(a: string, b: string)
    decreases |a|
  {
    if b == [] then false
    else if a == [] then true
    else a[0] < b[0] || (a[0] == b[0] && StringLess(a[1..], b[1..]))
  }

  lemma {:induction false} StringLessIrreflexive(a: string)
    ensures !StringLess(a, a)
    decreases |a|
  {
    if a != [] {
      StringLessIrreflexive(a[1..]);
    }
  }

  lemma {:induction false} StringLessTransitive(a: string, b: string, c: string)
    requires StringLess(a, b) && StringLess(b, c)
    ensures StringLess(a, c)
    decreases |a|
  {
    if a != [] && a[0] == b[0] && b[0] == c[0] {
      StringLessTransitive(a[1..], b[1..], c[1..]);
    }
  }

  lemma {:induction false} StringLessTotal(a: string, b: string)
    requires a != b
    ensures StringLess(a, b) || StringLess(b, a)
    decreases |a|
  {
    if a != [] && b != [] && a[0] == b[0] {
      assert a == [a[0]] + a[1..] && b == [b[0]] + b[1..];
      StringLessTotal(a[1..], b[1..]);
    }
  }

  lemma StringLessAsymmetric(a: string, b: string)
    requires StringLess(a, b)
    ensures !StringLess(b, a)
  {
    if StringLess(b, a) {
      StringLessTransitive(a, b, a);
      StringLessIrreflexive(a);
    }
  }

  /** `sep.join(parts)`. */
  function JoinWith(parts: seq<string>, sep: string): string {
    if parts == [] then ""
    else if |parts| == 1 then parts[0]
    else parts[0] + sep + JoinWith(parts[1..], sep)
  }

  lemma {:induction false} JoinWithSnoc(parts: seq<string>, last: string, sep: string)
    requires |parts| >= 1
    ensures JoinWith(parts + [last], sep) == JoinWith(parts, sep) + sep + last
    decreases |parts|
  {
    if |parts| > 1 {
      assert (parts + [last])[1..] == parts[1..] + [last];
      JoinWithSnoc(parts[1..], last, sep);
    } else {
      assert (parts + [last])[1..] == [last];
    }
  }

  /** Non-decreasing in Python's string order. */
  predicate StringsSorted(s: seq<string>) {
    forall i, j :: 0 <= i < j < |s| ==> !StringLess(s[j], s[i])
  }

  function InsertString(x: string, sorted: seq<string>): (r: seq<string>)
    ensures multiset(r) == multiset(sorted) + multiset{x}
    ensures |r| == |sorted| + 1
  {
    if sorted == [] then [x]
    else
      assert sorted == [sorted[0]] + sorted[1..];
      if StringLess(sorted[0], x) then [sorted[0]] + InsertString(x, sorted[1..])
      else [x] + sorted
  }

  lemma {:induction false} InsertStringKeepsSorted(x: string, sorted: seq<string>)
    requires StringsSorted(sorted)
    ensures StringsSorted(InsertString(x, sorted))
    decreases |sorted|
  {
    if sorted != [] {
      var r := InsertString(x, sorted);
      if StringLess(sorted[0], x) {
        InsertStringKeepsSorted(x, sorted[1..]);
        forall j | 0 < j < |r|
          ensures !StringLess(r[j], sorted[0])
        {
          assert r[j] in multiset(sorted[1..]) + multiset{x};
          if r[j] == x {
            StringLessAsymmetric(sorted[0], x);
          } else {
            assert r[j] in sorted[1..];
            var m :| 0 <= m < |sorted[1..]| && sorted[1..][m] == r[j];
            assert sorted[m + 1] == r[j];
          }
        }
      } else {
        forall j | 0 < j < |sorted|
          ensures !StringLess(sorted[j], x)
        {
          if StringLess(sorted[j], x) {
            if sorted[0] == sorted[j] {
            } else {
              StringLessTotal(sorted[0], sorted[j]);
              StringLessTransitive(sorted[0], sorted[j], x);
            }
          }
        }
      }
    }
  }

  /** `sorted(names)`. */
  function SortStrings(s: seq<string>): (r: seq<string>)
    ensures multiset(r) == multiset(s)
    ensures |r| == |s|
  {
    if s == [] then []
    else
      assert s == [s[0]] + s[1..];
      InsertString(s[0], SortStrings(s[1..]))
  }

  lemma {:induction false} SortStringsSorted(s: seq<string>)
    ensures StringsSorted(SortStrings(s))
    decreases |s|
  {
    if s != [] {
      SortStringsSorted(s[1..]);
      InsertStringKeepsSorted(s[0], SortStrings(s[1..]));
    }
  }

  /** Two sorted lists of the same strings are the same list. */
  lemma {:induction false} SortedStringsUnique(a: seq<string>, b: seq<string>)
    requires StringsSorted(a) && StringsSorted(b) && multiset(a) == multiset(b)
    ensures a == b
    decreases |a|
  {
    if a != [] {
      SortedHeadsAgree(a, b);
      assert a == [a[0]] + a[1..] && b == [b[0]] + b[1..];
      assert multiset(a[1..]) == multiset(a) - multiset{a[0]};
      assert multiset(b[1..]) == multiset(b) - multiset{b[0]};
      SortedTail(a);
      SortedTail(b);
      SortedStringsUnique(a[1..], b[1..]);
    }
  }

  /** Sorted lists of the same strings start with the same string. */
  lemma SortedHeadsAgree(a: seq<string>, b: seq<string>)
    requires StringsSorted(a) && StringsSorted(b) && multiset(a) == multiset(b) && a != []
    ensures b != [] && a[0] == b[0]
  {
    assert a[0] in multiset(b);
    assert b[0] in multiset(a);
    if a[0] != b[0] {
      var i :| 0 <= i < |a| && a[i] == b[0];
      var j :| 0 <= j < |b| && b[j] == a[0];
      assert i > 0 && j > 0;
      StringLessTotal(a[0], b[0]);
      assert false;
    }
  }

  lemma SortedTail(a: seq<string>)
    requires StringsSorted(a) && a != []
    ensures StringsSorted(a[1..])
  {
    forall i, j | 0 <= i < j < |a| - 1
      ensures !StringLess(a[1..][j], a[1..][i])
    {
      assert a[1..][j] == a[j + 1] && a[1..][i] == a[i + 1];
    }
  }

  /** Sorting depends only on which strings there are, not on their order. */
  lemma SortStringsOrderIndependent(a: seq<string>, b: seq<string>)
    requires multiset(a) == multiset(b)
    ensures SortStrings(a) == SortStrings(b)
  {
    SortStringsSorted(a);
    SortStringsSorted(b);
    SortedStringsUnique(SortStrings(a), SortStrings(b));
  }

  function DigitChar(d: int): char
    requires 0 <= d < 10
  {
    "0123456789"[d]
  }

  /** Python's `str(n)` for an integer: decimal digits, with `-` in front of a negative. */
  function IntToString(n: int): (s: string)
    ensures |s| >= 1
    decreases if n < 0 then -n + 1 else n
  {
    if n < 0 then "-" + IntToString(-n)
    else if n < 10 then [DigitChar(n)]
    else IntToString(n / 10) + [DigitChar(n % 10)]
  }

  /** The number a string of decimal digits reads as, most significant first. */
  function DigitsValue(s: string): int
    decreases |s|
  {
    if s == [] then 0 else DigitsValue(s[..|s| - 1]) * 10 + (s[|s| - 1] as int - '0' as int)
  }

  predicate IsDigit(c: char) {
    '0' <= c <= '9'
  }

  lemma DigitCharReads(d: int)
    requires 0 <= d < 10
    ensures IsDigit(DigitChar(d)) && DigitChar(d) as int - '0' as int == d
  {
    assert d == 0 || d == 1 || d == 2 || d == 3 || d == 4 || d == 5 || d == 6 || d == 7 || d == 8 || d == 9;
  }

  /**
   * `str(n)` of a non-negative integer is its decimal digits without a
   * leading zero, and they read back as `n`; a negative one is `-` and the
   * digits of its absolute value.
   */
  lemma {:induction false} IntToStringDigits(n: int)
    ensures n >= 0 ==> forall i :: 0 <= i < |IntToString(n)| ==> IsDigit(IntToString(n)[i])
    ensures n >= 0 ==> DigitsValue(IntToString(n)) == n
    ensures n >= 0 ==> (IntToString(n)[0] == '0' <==> n == 0)
    ensures n < 0 ==> IntToString(n) == "-" + IntToString(-n)
    decreases if n < 0 then -n + 1 else n
  {
    if 0 <= n < 10 {
      DigitCharReads(n);
    } else if n >= 10 {
      IntToStringDigits(n / 10);
      DigitCharReads(n % 10);
      var s := IntToString(n);
      assert s[..|s| - 1] == IntToString(n / 10);
    }
  }
}
