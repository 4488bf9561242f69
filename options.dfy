/**
 * Keeping the present entries of a sequence of optional values: the shape
 * of a Python loop over numbered positions that `continue`s past some of
 * them and appends a record for the others.
 */
module Options {
  import opened Wrappers

  /** The present values of `opts`, in order. */
  function Present<T>(opts: seq<Option<T>>): seq<T> {
    if opts == [] then []
    else Present(opts[..|opts| - 1]) + (if opts[|opts| - 1].Some? then [opts[|opts| - 1].value] else [])
  }

  /** The number of present values. */
  function PresentCount<T>(opts: seq<Option<T>>): nat {
    if opts == [] then 0 else PresentCount(opts[..|opts| - 1]) + (if opts[|opts| - 1].Some? then 1 else 0)
  }

  /** Every value at position `k` carries the number `k + 1`. */
  predicate Indexed<T>(opts: seq<Option<T>>, index: T -> int) {
    forall k :: 0 <= k < |opts| && opts[k].Some? ==> index(opts[k].value) == k + 1
  }

  /** `x` is the value at the position its number names. */
  predicate AtOwnIndex<T(==)>(opts: seq<Option<T>>, index: T -> int, x: T) {
    1 <= index(x) <= |opts| && opts[index(x) - 1] == Some(x)
  }

  /** One present value per present position. */
  lemma {:induction false} PresentLength<T>(opts: seq<Option<T>>)
    ensures |Present(opts)| == PresentCount(opts)
  {
    if opts != [] {
      PresentLength(opts[..|opts| - 1]);
    }
  }

  /** When values carry their positions, every present value sits at the position its number names. */
  lemma {:induction false} PresentAtOwnIndex<T>(opts: seq<Option<T>>, index: T -> int)
    requires Indexed(opts, index)
    ensures forall k :: 0 <= k < |Present(opts)| ==> AtOwnIndex(opts, index, Present(opts)[k])
  {
    if opts != [] {
      var n := |opts| - 1;
      var init := opts[..n];
      assert Indexed(init, index);
      PresentAtOwnIndex(init, index);
      var xs, r := Present(init), Present(opts);
      assert r == xs + (if opts[n].Some? then [opts[n].value] else []);
      forall k | 0 <= k < |r| ensures AtOwnIndex(opts, index, r[k]) {
        if k < |xs| {
          assert r[k] == xs[k];
          assert AtOwnIndex(init, index, xs[k]);
          assert init[index(xs[k]) - 1] == opts[index(xs[k]) - 1];
        }
      }
    }
  }

  /** When values carry their positions, the numbers of the present values increase strictly. */
  lemma {:induction false} PresentIncreasing<T>(opts: seq<Option<T>>, index: T -> int)
    requires Indexed(opts, index)
    ensures forall i, j :: 0 <= i < j < |Present(opts)| ==> index(Present(opts)[i]) < index(Present(opts)[j])
  {
    if opts != [] {
      var n := |opts| - 1;
      var init := opts[..n];
      assert Indexed(init, index);
      PresentIncreasing(init, index);
      PresentAtOwnIndex(init, index);
      var xs, r := Present(init), Present(opts);
      assert r == xs + (if opts[n].Some? then [opts[n].value] else []);
      forall i, j | 0 <= i < j < |r| ensures index(r[i]) < index(r[j]) {
        assert r[i] == xs[i];
        assert AtOwnIndex(init, index, xs[i]);
        if j < |xs| {
          assert r[j] == xs[j];
        }
      }
    }
  }

  /** No present value is lost. */
  lemma {:induction false} PresentComplete<T>(opts: seq<Option<T>>)
    ensures forall k :: 0 <= k < |opts| && opts[k].Some? ==> opts[k].value in Present(opts)
  {
    if opts != [] {
      var n := |opts| - 1;
      var init := opts[..n];
      PresentComplete(init);
      forall k | 0 <= k < |opts| && opts[k].Some? ensures opts[k].value in Present(opts) {
        if k < n {
          assert init[k] == opts[k];
        }
      }
    }
  }

  /**
   * When values carry their positions, the present values are exactly the
   * values at their own positions, one per present position, with strictly
   * increasing numbers.
   */
  lemma PresentSpec<T>(opts: seq<Option<T>>, index: T -> int)
    requires Indexed(opts, index)
    ensures |Present(opts)| == PresentCount(opts)
    ensures forall k :: 0 <= k < |Present(opts)| ==> AtOwnIndex(opts, index, Present(opts)[k])
    ensures forall i, j :: 0 <= i < j < |Present(opts)| ==> index(Present(opts)[i]) < index(Present(opts)[j])
    ensures forall k :: 0 <= k < |opts| && opts[k].Some? ==> opts[k].value in Present(opts)
  {
    PresentLength(opts);
    PresentAtOwnIndex(opts, index);
    PresentIncreasing(opts, index);
    PresentComplete(opts);
  }

  lemma PresentSnoc<T>(opts: seq<Option<T>>, i: nat)
    requires i < |opts|
    ensures Present(opts[..i + 1]) == Present(opts[..i]) + (if opts[i].Some? then [opts[i].value] else [])
  {
    assert opts[..i + 1][..i] == opts[..i];
  }
}
