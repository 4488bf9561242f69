/**
 * Counting over sequences, as done by the insertion-ordered `Map`s and
 * `dict`s of the source: occurrences of a key, the distinct keys in
 * first-seen order, and the first position of a key.
 */
module Tally {

  /** The number of occurrences of `x` in `s`. */
  function Count<T(==)>(s: seq<T>, x: T): (n: nat)
    ensures n <= |s|
    ensures n == 0 <==> x !in s
  {
    if s == [] then 0 else (if s[0] == x then 1 else 0) + Count(s[1..], x)
  }

  lemma {:induction false} CountAppend<T>(a: seq<T>, b: seq<T>, x: T)
    ensures Count(a + b, x) == Count(a, x) + Count(b, x)
  {
    if a != [] {
      assert (a + b)[1..] == a[1..] + b;
      CountAppend(a[1..], b, x);
    } else {
      assert a + b == b;
    }
  }

  predicate NoDuplicates<T(==)>(s: seq<T>) {
    forall i, j :: 0 <= i < j < |s| ==> s[i] != s[j]
  }

  /** The distinct elements of `s`, each once, in the order of their first occurrence (the key order of a JavaScript `Map` or Python `dict` filled from `s`). */
  function Distinct<T(==)>(s: seq<T>): (d: seq<T>)
    ensures NoDuplicates(d)
    ensures forall i :: 0 <= i < |d| ==> d[i] in s
    ensures forall i :: 0 <= i < |s| ==> s[i] in d
  {
    if s == [] then []
    else
      var p := Distinct(s[..|s| - 1]);
      assert s == s[..|s| - 1] + [s[|s| - 1]];
      if s[|s| - 1] in p then p else p + [s[|s| - 1]]
  }

  lemma DistinctMembership<T>(s: seq<T>, x: T)
    ensures x in Distinct(s) <==> x in s
  {
    if x in s {
      var i :| 0 <= i < |s| && s[i] == x;
    }
  }

  /** The position of the first occurrence of `x` in `s`. */
  function FirstIndex<T(==)>(s: seq<T>, x: T): (i: nat)
    requires x in s
    ensures i < |s| && s[i] == x && x !in s[..i]
  {
    if s[0] == x then 0
    else
      var i := 1 + FirstIndex(s[1..], x);
      assert s[..i] == [s[0]] + s[1..][..i - 1];
      i
  }

  /** The sum, over the keys `ks`, of the number of occurrences of each key in `s`. */
  function SumCounts<T(==)>(ks: seq<T>, s: seq<T>): nat {
    if ks == [] then 0 else Count(s, ks[0]) + SumCounts(ks[1..], s)
  }

  lemma {:induction false} SumCountsAppendKeys<T>(a: seq<T>, b: seq<T>, s: seq<T>)
    ensures SumCounts(a + b, s) == SumCounts(a, s) + SumCounts(b, s)
  {
    if a != [] {
      assert (a + b)[1..] == a[1..] + b;
      SumCountsAppendKeys(a[1..], b, s);
    } else {
      assert a + b == b;
    }
  }

  lemma {:induction false} SumCountsSnoc<T>(ks: seq<T>, s: seq<T>, x: T)
    ensures SumCounts(ks, s + [x]) == SumCounts(ks, s) + Count(ks, x)
  {
    if ks != [] {
      CountAppend(s, [x], ks[0]);
      SumCountsSnoc(ks[1..], s, x);
    }
  }

  lemma {:induction false} CountNoDuplicates<T>(d: seq<T>, x: T)
    requires NoDuplicates(d) && x in d
    ensures Count(d, x) == 1
  {
    if d[0] != x {
      CountNoDuplicates(d[1..], x);
    } else {
      assert x !in d[1..];
    }
  }

  /** Every element of `s` is counted exactly once over the distinct keys: the per-key counts add up to the length. */
  lemma {:induction false} SumOfDistinctCounts<T>(s: seq<T>)
    ensures SumCounts(Distinct(s), s) == |s|
  {
    if s != [] {
      var p, x := s[..|s| - 1], s[|s| - 1];
      assert s == p + [x];
      var d := Distinct(p);
      SumOfDistinctCounts(p);
      SumCountsSnoc(d, p, x);
      if x in d {
        CountNoDuplicates(d, x);
      } else {
        SumCountsAppendKeys(d, [x], s);
        CountAppend(p, [x], x);
      }
    }
  }

  /** Appending an element extends the distinct keys only when it is new. */
  lemma DistinctSnoc<T>(s: seq<T>, x: T)
    ensures Distinct(s + [x]) == if x in Distinct(s) then Distinct(s) else Distinct(s) + [x]
  {
    assert (s + [x])[..|s|] == s;
  }

  lemma CountSnoc<T>(s: seq<T>, x: T, y: T)
    ensures Count(s + [x], y) == Count(s, y) + (if x == y then 1 else 0)
  {
    CountAppend(s, [x], y);
  }

  /** Appending keeps the first occurrence of a key that was already present, and puts a new key's first occurrence at the end. */
  lemma FirstIndexSnoc<T>(s: seq<T>, x: T, k: T)
    requires k in s + [x]
    ensures k in s ==> FirstIndex(s + [x], k) == FirstIndex(s, k)
    ensures k !in s ==> FirstIndex(s + [x], k) == |s|
  {
    var i1 := FirstIndex(s + [x], k);
    if k in s {
      var i2 := FirstIndex(s, k);
      assert (s + [x])[i2] == k;
      assert i1 <= i2;
      assert s[i1] == k;
    } else {
      assert i1 == |s|;
    }
  }

  lemma {:induction false} NoDuplicatesMultiplicity<T>(s: seq<T>, x: T)
    requires NoDuplicates(s)
    ensures multiset(s)[x] <= 1
  {
    if s != [] {
      assert s == [s[0]] + s[1..];
      NoDuplicatesMultiplicity(s[1..], x);
      if s[0] == x {
        assert x !in s[1..];
      }
    }
  }

  /** A permutation of a duplicate-free sequence is duplicate-free. */
  lemma PermutationNoDuplicates<T>(s: seq<T>, t: seq<T>)
    requires multiset(s) == multiset(t) && NoDuplicates(s)
    ensures NoDuplicates(t)
  {
    forall a, b | 0 <= a < b < |t| ensures t[a] != t[b] {
      if t[a] == t[b] {
        assert t == t[..b] + [t[b]] + t[b + 1..];
        assert t[a] in t[..b];
        assert multiset(t)[t[a]] >= 2;
        NoDuplicatesMultiplicity(s, t[a]);
      }
    }
  }

  /** The occurrence counts of `s`, filled one element at a time (`m.set(x, (m.get(x) || 0) + 1)`). */
  function CountMap<T(==)>(s: seq<T>): map<T, nat> {
    if s == [] then map[]
    else
      var m, x := CountMap(s[..|s| - 1]), s[|s| - 1];
      m[x := (if x in m then m[x] else 0) + 1]
  }

  /** The counting map holds exactly the elements of `s`, each with its number of occurrences. */
  lemma {:induction false} CountMapAt<T>(s: seq<T>, x: T)
    ensures x in CountMap(s) <==> x in s
    ensures x in CountMap(s) ==> CountMap(s)[x] == Count(s, x)
  {
    if s != [] {
      var p, y := s[..|s| - 1], s[|s| - 1];
      assert s == p + [y];
      CountMapAt(p, x);
      CountSnoc(p, y, x);
    }
  }

  lemma {:induction false} CountMapSnoc<T>(s: seq<T>, x: T)
    ensures var m := CountMap(s);
      && CountMap(s + [x]) == m[x := (if x in m then m[x] else 0) + 1]
      && Distinct(s + [x]) == (if x in m then Distinct(s) else Distinct(s) + [x])
  {
    assert (s + [x])[..|s|] == s;
    assert x in CountMap(s) <==> x in Distinct(s) by {
      CountMapAt(s, x);
      DistinctMembership(s, x);
    }
    DistinctSnoc(s, x);
  }
}
