/**
 * The sorts the source calls: JavaScript's stable `Array.prototype.sort`
 * with a numeric comparator and Python's stable `sorted`/`list.sort` with
 * a key, both as stable insertion sort by an integer key, plus Python's
 * `sorted` over strings (code-point lexicographic order).
 */
module Sorting {

  predicate SortedBy<T>(s: seq<T>, key: T -> int) {
    forall i, j :: 0 <= i < j < |s| ==> key(s[i]) <= key(s[j])
  }

  /** Inserts `x` before the first element whose key is not smaller: `x` lands ahead of its equals. */
  function Insert<T(==)>(x: T, s: seq<T>, key: T -> int): (r: seq<T>)
    ensures multiset(r) == multiset(s) + multiset{x}
  {
    if s == [] then [x]
    else if key(x) <= key(s[0]) then [x] + s
    else
      assert s == [s[0]] + s[1..];
      [s[0]] + Insert(x, s[1..], key)
  }

  /** Stable sort of `s` by ascending `key`. */
  function SortBy<T(==)>(s: seq<T>, key: T -> int): (r: seq<T>)
    ensures multiset(r) == multiset(s)
  {
    if s == [] then []
    else
      assert s == [s[0]] + s[1..];
      Insert(s[0], SortBy(s[1..], key), key)
  }

  /** The elements of `s` with key `v`, in order. */
  function WithKey<T>(s: seq<T>, key: T -> int, v: int): seq<T> {
    if s == [] then [] else Kept(s[0], key, v) + WithKey(s[1..], key, v)
  }

  /** Every key of `Insert(x, s, key)` is a key of `x` or of `s`. */
  lemma InsertBounded<T>(x: T, s: seq<T>, key: T -> int, lo: int)
    requires lo <= key(x) && forall i :: 0 <= i < |s| ==> lo <= key(s[i])
    ensures forall j :: 0 <= j < |Insert(x, s, key)| ==> lo <= key(Insert(x, s, key)[j])
  {
    var t := Insert(x, s, key);
    forall j | 0 <= j < |t| ensures lo <= key(t[j]) {
      assert t[j] in multiset(s) + multiset{x};
      if t[j] != x {
        assert t[j] in s;
      }
    }
  }

  lemma ConsSorted<T>(y: T, t: seq<T>, key: T -> int)
    requires SortedBy(t, key) && forall j :: 0 <= j < |t| ==> key(y) <= key(t[j])
    ensures SortedBy([y] + t, key)
  {
    var r := [y] + t;
    forall i, j | 0 <= i < j < |r| ensures key(r[i]) <= key(r[j]) {
      assert r[j] == t[j - 1];
      if i > 0 {
        assert r[i] == t[i - 1];
      }
    }
  }

  lemma {:induction false} InsertSorted<T>(x: T, s: seq<T>, key: T -> int)
    requires SortedBy(s, key)
    ensures SortedBy(Insert(x, s, key), key)
  {
    if s == [] {
    } else if key(x) <= key(s[0]) {
      ConsSorted(x, s, key);
    } else {
      var t := Insert(x, s[1..], key);
      assert SortedBy(s[1..], key);
      InsertSorted(x, s[1..], key);
      InsertBounded(x, s[1..], key, key(s[0]));
      ConsSorted(s[0], t, key);
    }
  }

  /** The result of `SortBy` is ordered by the key. */
  lemma {:induction false} SortBySorted<T>(s: seq<T>, key: T -> int)
    ensures SortedBy(SortBy(s, key), key)
  {
    if s != [] {
      SortBySorted(s[1..], key);
      InsertSorted(s[0], SortBy(s[1..], key), key);
    }
  }

  lemma WithKeyCons<T>(y: T, t: seq<T>, key: T -> int, v: int)
    ensures WithKey([y] + t, key, v) == Kept(y, key, v) + WithKey(t, key, v)
  {
    assert ([y] + t)[0] == y;
    assert ([y] + t)[1..] == t;
  }

  /** The elements of `[x]` with key `v`. */
  function Kept<T>(x: T, key: T -> int, v: int): seq<T> {
    if key(x) == v then [x] else []
  }

  /** Two elements with different keys are never both kept, so their order does not matter. */
  lemma KeptSwap<T>(x: T, y: T, w: seq<T>, key: T -> int, v: int)
    requires key(x) != key(y)
    ensures Kept(y, key, v) + (Kept(x, key, v) + w) == Kept(x, key, v) + (Kept(y, key, v) + w)
  {
    if key(x) == v {
      assert Kept(y, key, v) == [];
    } else {
      assert Kept(x, key, v) == [];
    }
  }

  lemma {:induction false} InsertWithKey<T>(x: T, s: seq<T>, key: T -> int, v: int)
    ensures WithKey(Insert(x, s, key), key, v) == Kept(x, key, v) + WithKey(s, key, v)
    decreases |s|, 1
  {
    if s == [] {
      WithKeyCons(x, [], key, v);
    } else if key(x) <= key(s[0]) {
      WithKeyCons(x, s, key, v);
    } else {
      InsertWithKeyPast(x, s, key, v);
    }
  }

  /** The step of `InsertWithKey` where `x` goes past the head of `s`. */
  lemma {:induction false} InsertWithKeyPast<T>(x: T, s: seq<T>, key: T -> int, v: int)
    requires s != [] && key(x) > key(s[0])
    ensures WithKey(Insert(x, s, key), key, v) == Kept(x, key, v) + WithKey(s, key, v)
    decreases |s|, 0
  {
    var t := Insert(x, s[1..], key);
    assert Insert(x, s, key) == [s[0]] + t;
    WithKeyCons(s[0], t, key, v);
    InsertWithKey(x, s[1..], key, v);
    KeptSwap(x, s[0], WithKey(s[1..], key, v), key, v);
    WithKeyCons(s[0], s[1..], key, v);
    assert [s[0]] + s[1..] == s;
  }

  /** Stability: the elements sharing one key keep their input order. */
  lemma {:induction false} SortByStable<T>(s: seq<T>, key: T -> int, v: int)
    ensures WithKey(SortBy(s, key), key, v) == WithKey(s, key, v)
  {
    if s != [] {
      SortByStable(s[1..], key, v);
      InsertWithKey(s[0], SortBy(s[1..], key), key, v);
    }
  }

  /** Sorting what is already sorted changes nothing. */
  lemma {:induction false} SortBySortedIsIdentity<T>(s: seq<T>, key: T -> int)
    requires SortedBy(s, key)
    ensures SortBy(s, key) == s
  {
    if s != [] {
      SortBySortedIsIdentity(s[1..], key);
      assert s == [s[0]] + s[1..];
    }
  }

  /** The sum of `f` over the elements of `s`. */
  function SumOf<T>(s: seq<T>, f: T -> int): int {
    if s == [] then 0 else f(s[0]) + SumOf(s[1..], f)
  }

  lemma {:induction false} InsertSum<T>(x: T, s: seq<T>, key: T -> int, f: T -> int)
    ensures SumOf(Insert(x, s, key), f) == f(x) + SumOf(s, f)
  {
    if s == [] {
    } else if key(x) <= key(s[0]) {
      assert ([x] + s)[1..] == s;
    } else {
      var t := Insert(x, s[1..], key);
      assert ([s[0]] + t)[1..] == t;
      InsertSum(x, s[1..], key, f);
    }
  }

  /** Sorting does not change a sum over the elements. */
  lemma {:induction false} SortBySum<T>(s: seq<T>, key: T -> int, f: T -> int)
    ensures SumOf(SortBy(s, key), f) == SumOf(s, f)
  {
    if s != [] {
      SortBySum(s[1..], key, f);
      InsertSum(s[0], SortBy(s[1..], key), key, f);
    }
  }

  /** Code-point lexicographic order on strings: Python's `<` on `str`. */
  predicate LexLess(a: string, b: string) {
    |b| > 0 && (|a| == 0 || a[0] < b[0] || (a[0] == b[0] && LexLess(a[1..], b[1..])))
  }

  lemma {:induction false} LexLessIrreflexive(a: string)
    ensures !LexLess(a, a)
  {
    if |a| > 0 {
      LexLessIrreflexive(a[1..]);
    }
  }

  lemma {:induction false} LexLessTransitive(a: string, b: string, c: string)
    requires LexLess(a, b) && LexLess(b, c)
    ensures LexLess(a, c)
  {
    if |a| > 0 && a[0] == b[0] && b[0] == c[0] {
      LexLessTransitive(a[1..], b[1..], c[1..]);
    }
  }

  lemma {:induction false} LexLessTotal(a: string, b: string)
    requires a != b
    ensures LexLess(a, b) || LexLess(b, a)
  {
    if |a| > 0 && |b| > 0 && a[0] == b[0] {
      assert a == [a[0]] + a[1..] && b == [b[0]] + b[1..];
      LexLessTotal(a[1..], b[1..]);
    }
  }

  predicate StrictlyAscending(s: seq<string>) {
    forall i, j :: 0 <= i < j < |s| ==> LexLess(s[i], s[j])
  }

  function InsertString(x: string, s: seq<string>): (r: seq<string>)
    ensures multiset(r) == multiset(s) + multiset{x}
  {
    if s == [] || !LexLess(s[0], x) then [x] + s
    else
      assert s == [s[0]] + s[1..];
      [s[0]] + InsertString(x, s[1..])
  }

  /** Python `sorted(strings)`, by insertion. */
  function SortStrings(s: seq<string>): (r: seq<string>)
    ensures multiset(r) == multiset(s)
  {
    if s == [] then []
    else
      assert s == [s[0]] + s[1..];
      InsertString(s[0], SortStrings(s[1..]))
  }

  lemma {:induction false} InsertStringAscending(x: string, s: seq<string>)
    requires StrictlyAscending(s) && x !in s
    ensures StrictlyAscending(InsertString(x, s))
  {
    if s == [] {
    } else if !LexLess(s[0], x) {
      LexLessTotal(s[0], x);
      forall j | 0 < j < |s| + 1 ensures LexLess(x, ([x] + s)[j]) {
        if j > 1 {
          LexLessTransitive(x, s[0], s[j - 1]);
        }
      }
    } else {
      var t := InsertString(x, s[1..]);
      InsertStringAscending(x, s[1..]);
      forall y | y in t ensures LexLess(s[0], y) {
        assert y in multiset(t);
      }
    }
  }

  /** Sorting distinct strings gives a strictly ascending sequence of the same strings. */
  lemma {:induction false} SortStringsAscending(s: seq<string>)
    requires forall i, j :: 0 <= i < j < |s| ==> s[i] != s[j]
    ensures StrictlyAscending(SortStrings(s))
  {
    if s != [] {
      SortStringsAscending(s[1..]);
      var t := SortStrings(s[1..]);
      assert s[0] !in multiset(t);
      InsertStringAscending(s[0], t);
    }
  }
}
