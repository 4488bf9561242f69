/**
 * Row-band detection of both back-end extractors: from the per-scan-line
 * "is a grid line" mask of a page, each maximal run of line scan lines
 * becomes one grid line at the run's centre; lines within 50 pixels of
 * the top or bottom edge are dropped; the gap between two consecutive
 * lines is a row band when it is more than 15 pixels high; the first band
 * (the table header) is dropped. The mask itself comes from image
 * thresholding, which is not part of this model.
 */
module RowBands {
  import opened Sorting

  /** A band of scan lines, top and bottom inclusive. */
  datatype Band = Band(top: int, bottom: int)

  /** A maximal run of `true`, first and last index inclusive. */
  datatype Run = Run(start: nat, end: nat)

  /** The last index of the run of `true` that contains `i`, looking right. */
  function RunEnd(mask: seq<bool>, i: nat): (e: nat)
    requires i < |mask| && mask[i]
    ensures i <= e < |mask| && (e + 1 == |mask| || !mask[e + 1])
    decreases |mask| - i
  {
    if i + 1 < |mask| && mask[i + 1] then RunEnd(mask, i + 1) else i
  }

  /** The run from `i` to `RunEnd(mask, i)` is all `true`. */
  lemma {:induction false} RunEndAllTrue(mask: seq<bool>, i: nat)
    requires i < |mask| && mask[i]
    ensures forall k :: i <= k <= RunEnd(mask, i) ==> mask[k]
    decreases |mask| - i
  {
    if i + 1 < |mask| && mask[i + 1] {
      RunEndAllTrue(mask, i + 1);
    }
  }

  /** The maximal runs of `true` from index `i` on, left to right. */
  function Runs(mask: seq<bool>, i: nat): seq<Run>
    decreases |mask| - i
  {
    if i >= |mask| then []
    else if !mask[i] then Runs(mask, i + 1)
    else
      var e := RunEnd(mask, i);
      [Run(i, e)] + Runs(mask, e + 1)
  }

  /** Each run's centre, rounded down: `(start + end) // 2`. */
  function Centers(runs: seq<Run>): (cs: seq<int>)
    ensures |cs| == |runs|
  {
    if runs == [] then [] else [(runs[0].start + runs[0].end) / 2] + Centers(runs[1..])
  }

  lemma {:induction false} CentersAt(runs: seq<Run>)
    ensures forall k :: 0 <= k < |runs| ==> Centers(runs)[k] == (runs[k].start + runs[k].end) / 2
  {
    if runs != [] {
      CentersAt(runs[1..]);
    }
  }

  /** Runs lie inside the mask from `from` on, each starting no later than it ends, in order with at least one `false` between two. */
  ghost predicate OrderedRuns(mask: seq<bool>, runs: seq<Run>, from: nat) {
    && (forall k :: 0 <= k < |runs| ==> from <= runs[k].start <= runs[k].end < |mask|)
    && (forall k :: 0 <= k < |runs| - 1 ==> runs[k].end + 1 < runs[k + 1].start)
  }

  /** The run is all `true` and maximal: a `false` or an edge of the part scanned from `from` on each side. */
  ghost predicate MaximalRun(mask: seq<bool>, r: Run, from: nat) {
    && r.start <= r.end < |mask|
    && (forall y :: r.start <= y <= r.end ==> mask[y])
    && (r.end + 1 == |mask| || !mask[r.end + 1])
    && (r.start == from || (r.start > 0 && !mask[r.start - 1]))
  }

  lemma MaximalRunWiden(mask: seq<bool>, r: Run, from: nat, from2: nat)
    requires MaximalRun(mask, r, from)
    requires r.start == from ==> from == from2 || (from > 0 && !mask[from - 1])
    ensures MaximalRun(mask, r, from2)
  {
  }

  lemma {:induction false} RunsMaximal(mask: seq<bool>, i: nat)
    ensures forall k :: 0 <= k < |Runs(mask, i)| ==> MaximalRun(mask, Runs(mask, i)[k], i)
    decreases |mask| - i
  {
    if i < |mask| {
      if !mask[i] {
        RunsMaximal(mask, i + 1);
        var runs := Runs(mask, i + 1);
        assert runs == Runs(mask, i);
        forall k | 0 <= k < |runs| ensures MaximalRun(mask, runs[k], i) {
          MaximalRunWiden(mask, runs[k], i + 1, i);
        }
      } else {
        var e := RunEnd(mask, i);
        RunsMaximal(mask, e + 1);
        RunEndAllTrue(mask, i);
        var rest := Runs(mask, e + 1);
        var runs := [Run(i, e)] + rest;
        assert runs == Runs(mask, i);
        forall k | 0 <= k < |runs| ensures MaximalRun(mask, runs[k], i) {
          if k == 0 {
            assert runs[0] == Run(i, e);
          } else {
            assert runs[k] == rest[k - 1];
            MaximalRunWiden(mask, rest[k - 1], e + 1, i);
          }
        }
      }
    }
  }

  /** The first run from `i` on starts at or after `i`, on a `true` line. */
  lemma {:induction false} FirstRunStart(mask: seq<bool>, i: nat)
    ensures Runs(mask, i) != [] ==> i <= Runs(mask, i)[0].start < |mask| && mask[Runs(mask, i)[0].start]
    decreases |mask| - i
  {
    if i < |mask| && !mask[i] {
      FirstRunStart(mask, i + 1);
    }
  }

  lemma RunsOrdered(mask: seq<bool>, i: nat)
    ensures OrderedRuns(mask, Runs(mask, i), i)
  {
    RunsInside(mask, i);
    RunsSeparated(mask, i);
  }

  /** Every run from `i` on lies inside the mask, at or after `i`, and starts no later than it ends. */
  lemma {:induction false} RunsInside(mask: seq<bool>, i: nat)
    ensures forall k :: 0 <= k < |Runs(mask, i)| ==> i <= Runs(mask, i)[k].start <= Runs(mask, i)[k].end < |mask|
    decreases |mask| - i
  {
    if i < |mask| {
      if !mask[i] {
        RunsInside(mask, i + 1);
      } else {
        var e := RunEnd(mask, i);
        RunsInside(mask, e + 1);
        var rest := Runs(mask, e + 1);
        var runs := [Run(i, e)] + rest;
        assert runs == Runs(mask, i);
        forall k | 0 <= k < |runs| ensures i <= runs[k].start <= runs[k].end < |mask| {
          if k > 0 {
            assert runs[k] == rest[k - 1];
          }
        }
      }
    }
  }

  /** Two consecutive runs have at least one `false` line between them. */
  lemma {:induction false} RunsSeparated(mask: seq<bool>, i: nat)
    ensures forall k :: 0 <= k < |Runs(mask, i)| - 1 ==> Runs(mask, i)[k].end + 1 < Runs(mask, i)[k + 1].start
    decreases |mask| - i
  {
    if i < |mask| {
      if !mask[i] {
        RunsSeparated(mask, i + 1);
      } else {
        var e := RunEnd(mask, i);
        RunsSeparated(mask, e + 1);
        FirstRunStart(mask, e + 1);
        var rest := Runs(mask, e + 1);
        var runs := [Run(i, e)] + rest;
        assert runs == Runs(mask, i);
        forall k | 0 <= k < |runs| - 1 ensures runs[k].end + 1 < runs[k + 1].start {
          if k > 0 {
            assert runs[k] == rest[k - 1] && runs[k + 1] == rest[k];
          } else {
            assert runs[1] == rest[0];
          }
        }
      }
    }
  }

  /** Every `true` position lies in exactly one of the runs: the runs cover the line scan lines and nothing else. */
  lemma {:induction false} RunsCover(mask: seq<bool>, i: nat, y: nat)
    requires i <= y < |mask| && mask[y]
    ensures exists k :: 0 <= k < |Runs(mask, i)| && Runs(mask, i)[k].start <= y <= Runs(mask, i)[k].end
    decreases |mask| - i
  {
    if !mask[i] {
      RunsCover(mask, i + 1, y);
      assert Runs(mask, i) == Runs(mask, i + 1);
    } else {
      var e := RunEnd(mask, i);
      var runs := Runs(mask, i);
      if y <= e {
        assert runs[0] == Run(i, e);
      } else {
        RunEndStops(mask, i, y);
        RunsCover(mask, e + 1, y);
        var rest := Runs(mask, e + 1);
        var k :| 0 <= k < |rest| && rest[k].start <= y <= rest[k].end;
        assert runs[k + 1] == rest[k];
      }
    }
  }

  lemma RunEndStops(mask: seq<bool>, i: nat, y: nat)
    requires i <= y < |mask| && mask[i] && y > RunEnd(mask, i)
    ensures RunEnd(mask, i) + 1 <= y
  {
  }

  /** A run that has been all `true` from `start` up to a `false` at `y`, or up to the end, ends at `y - 1`. */
  lemma {:induction false} RunEndAt(mask: seq<bool>, start: nat, y: nat)
    requires start < y <= |mask| && (y == |mask| || !mask[y])
    requires forall k :: start <= k < y ==> mask[k]
    ensures RunEnd(mask, start) == y - 1
    decreases y - start
  {
    if start + 1 < y {
      RunEndAt(mask, start + 1, y);
    }
  }

  /** The runs not yet closed by the scan at index `y`: those from `y` on, or, inside a run that opened at `start`, that run and those after it. */
  ghost function Pending(mask: seq<bool>, inSegment: bool, start: nat, y: nat): seq<Run>
    requires inSegment ==> start < |mask| && mask[start]
  {
    if inSegment then [Run(start, RunEnd(mask, start))] + Runs(mask, RunEnd(mask, start) + 1) else Runs(mask, y)
  }

  /**
   * What the scan knows before index `y`: an open segment started at
   * `start` and has been all `true` since, and the runs found so far,
   * `done`, followed by those not yet closed, are `all`.
   */
  ghost predicate Scanned(mask: seq<bool>, all: seq<Run>, done: seq<Run>, inSegment: bool, start: nat, y: nat) {
    && y <= |mask|
    && (inSegment ==> start < y && forall k :: start <= k < y ==> mask[k])
    && (inSegment ==> mask[start])
    && all == done + Pending(mask, inSegment, start, y)
  }

  /** A `true` line outside a segment opens one there; nothing is found yet. */
  lemma OpenStep(mask: seq<bool>, all: seq<Run>, done: seq<Run>, start: nat, y: nat)
    requires y < |mask| && mask[y] && Scanned(mask, all, done, false, start, y)
    ensures Scanned(mask, all, done, true, y, y + 1)
  {
  }

  /** A `false` line outside a segment changes nothing. */
  lemma SkipStep(mask: seq<bool>, all: seq<Run>, done: seq<Run>, start: nat, y: nat)
    requires y < |mask| && !mask[y] && Scanned(mask, all, done, false, start, y)
    ensures Scanned(mask, all, done, false, start, y + 1)
  {
  }

  /** A `true` line inside a segment extends it. */
  lemma StayStep(mask: seq<bool>, all: seq<Run>, done: seq<Run>, start: nat, y: nat)
    requires y < |mask| && mask[y] && Scanned(mask, all, done, true, start, y)
    ensures Scanned(mask, all, done, true, start, y + 1)
  {
  }

  /** A `false` line at `y` closes the open segment: the run `start..y-1` is found. */
  lemma CloseStep(mask: seq<bool>, all: seq<Run>, done: seq<Run>, start: nat, y: nat)
    requires y < |mask| && !mask[y] && Scanned(mask, all, done, true, start, y)
    ensures Scanned(mask, all, done + [Run(start, y - 1)], false, start, y + 1)
  {
    RunEndAt(mask, start, y);
    var r, rest := Run(start, y - 1), Runs(mask, y);
    assert done + ([r] + rest) == (done + [r]) + rest;
  }

  /** At the bottom, the runs found, with a still open segment closed at the last index, are all the runs. */
  lemma FinishScan(mask: seq<bool>, all: seq<Run>, done: seq<Run>, inSegment: bool, start: nat)
    requires Scanned(mask, all, done, inSegment, start, |mask|)
    ensures inSegment ==> all == done + [Run(start, |mask| - 1)]
    ensures !inSegment ==> all == done
  {
    var none := Runs(mask, |mask|);
    assert none == [];
    if inSegment {
      RunEndAt(mask, start, |mask|);
      assert Pending(mask, true, start, |mask|) == [Run(start, |mask| - 1)] + none;
    }
    assert Pending(mask, inSegment, start, |mask|) == if inSegment then [Run(start, |mask| - 1)] else [];
  }

  /**
   * One scan line `y`: a `true` after a `false` (or at the top) opens a
   * run, a `false` closes the open run and adds its centre.
   */
  method ScanLine(mask: seq<bool>, y: nat, inSegment: bool, start: nat, linePositions: seq<int>, ghost all: seq<Run>, ghost done: seq<Run>)
    returns (inSegment': bool, start': nat, linePositions': seq<int>, ghost done': seq<Run>)
    requires y < |mask| && Scanned(mask, all, done, inSegment, start, y) && linePositions == Centers(done)
    ensures Scanned(mask, all, done', inSegment', start', y + 1) && linePositions' == Centers(done')
  {
    inSegment', start', linePositions', done' := inSegment, start, linePositions, done;
    var flag := mask[y];
    if flag && !inSegment {
      OpenStep(mask, all, done, start, y);
      inSegment' := true;
      start' := y;
    } else if !flag && inSegment {
      CloseStep(mask, all, done, start, y);
      inSegment' := false;
      var end := y - 1;
      var center := (start + end) / 2;
      CentersSnoc(done, Run(start, end));
      done' := done + [Run(start, end)];
      linePositions' := linePositions + [center];
    } else if !flag {
      SkipStep(mask, all, done, start, y);
    } else {
      StayStep(mask, all, done, start, y);
    }
  }

  /** The scan over the mask, line by line; a run still open at the bottom is closed at the last index. */
  method LinePositions(mask: seq<bool>) returns (linePositions: seq<int>)
    ensures linePositions == Centers(Runs(mask, 0))
  {
    linePositions := [];
    var inSegment := false;
    var start: nat := 0;
    ghost var all := Runs(mask, 0);
    ghost var done: seq<Run> := [];
    var y: nat := 0;
    while y < |mask|
      invariant Scanned(mask, all, done, inSegment, start, y)
      invariant linePositions == Centers(done)
    {
      inSegment, start, linePositions, done := ScanLine(mask, y, inSegment, start, linePositions, all, done);
      y := y + 1;
    }
    FinishScan(mask, all, done, inSegment, start);
    if inSegment {
      var end := |mask| - 1;
      var center := (start + end) / 2;
      CentersSnoc(done, Run(start, end));
      done := done + [Run(start, end)];
      linePositions := linePositions + [center];
    }
  }

  lemma {:induction false} CentersSnoc(runs: seq<Run>, r: Run)
    ensures Centers(runs + [r]) == Centers(runs) + [(r.start + r.end) / 2]
  {
    if runs != [] {
      assert (runs + [r])[1..] == runs[1..] + [r];
      CentersSnoc(runs[1..], r);
    } else {
      assert runs + [r] == [r];
    }
  }

  /** `[y for y in ps if 50 < y < h - 50]`: the lines away from the page edges, in order. */
  function Interior(ps: seq<int>, h: int): (r: seq<int>)
    ensures |r| <= |ps|
    ensures forall k :: 0 <= k < |r| ==> 50 < r[k] < h - 50 && r[k] in ps
  {
    if ps == [] then []
    else (if 50 < ps[0] < h - 50 then [ps[0]] else []) + Interior(ps[1..], h)
  }

  predicate StrictlyIncreasing(ps: seq<int>) {
    forall i, j :: 0 <= i < j < |ps| ==> ps[i] < ps[j]
  }

  /** Run centres are strictly increasing, since the runs are disjoint and ordered. */
  lemma CentersIncreasing(mask: seq<bool>)
    ensures StrictlyIncreasing(Centers(Runs(mask, 0)))
  {
    var runs := Runs(mask, 0);
    RunsOrdered(mask, 0);
    var cs := Centers(runs);
    CentersAt(runs);
    forall i, j | 0 <= i < j < |cs| ensures cs[i] < cs[j] {
      RunsAscend(runs, i, j);
    }
  }

  lemma {:induction false} RunsAscend(runs: seq<Run>, i: nat, j: nat)
    requires forall k :: 0 <= k < |runs| ==> runs[k].start <= runs[k].end
    requires forall k :: 0 <= k < |runs| - 1 ==> runs[k].end + 1 < runs[k + 1].start
    requires i < j < |runs|
    ensures runs[i].end < runs[j].start
    decreases j - i
  {
    if i + 1 < j {
      RunsAscend(runs, i + 1, j);
    }
  }

  lemma {:induction false} InteriorIncreasing(ps: seq<int>, h: int)
    requires StrictlyIncreasing(ps)
    ensures StrictlyIncreasing(Interior(ps, h))
  {
    if ps != [] {
      InteriorIncreasing(ps[1..], h);
      var rest := Interior(ps[1..], h);
      forall k | 0 <= k < |rest| ensures ps[0] < rest[k] {
        var m :| 0 <= m < |ps[1..]| && ps[1..][m] == rest[k];
      }
    }
  }

  function Identity(y: int): int { y }

  /** The band between two consecutive lines, if it is high enough. */
  function Gap(upper: int, lower: int): seq<Band> {
    var top, bottom := upper + 1, lower - 1;
    if bottom - top > 15 then [Band(top, bottom)] else []
  }

  /** The bands between consecutive lines of `ps`, top to bottom. */
  function Gaps(ps: seq<int>): seq<Band> {
    if |ps| < 2 then [] else Gaps(ps[..|ps| - 1]) + Gap(ps[|ps| - 2], ps[|ps| - 1])
  }

  /** `bands[1:]` when there are bands. */
  function DropHeader(bands: seq<Band>): (r: seq<Band>)
    ensures bands == [] ==> r == []
    ensures bands != [] ==> r == bands[1..]
  {
    if |bands| > 0 then bands[1..] else bands
  }

  /** The centres of the runs of `mask` away from its edges. */
  function InteriorLines(mask: seq<bool>): seq<int> {
    Interior(Centers(Runs(mask, 0)), |mask|)
  }

  /** The row bands of a page with line mask `mask` (one entry per scan line, top to bottom). */
  function DetectedBands(mask: seq<bool>): seq<Band> {
    DropHeader(Gaps(SortBy(InteriorLines(mask), Identity)))
  }

  /** Sorting the interior lines changes nothing, as they are already in order. */
  lemma SortedLinesUnchanged(mask: seq<bool>)
    ensures SortBy(InteriorLines(mask), Identity) == InteriorLines(mask)
    ensures StrictlyIncreasing(InteriorLines(mask))
  {
    var ps := InteriorLines(mask);
    CentersIncreasing(mask);
    InteriorIncreasing(Centers(Runs(mask, 0)), |mask|);
    assert SortedBy(ps, Identity);
    SortBySortedIsIdentity(ps, Identity);
  }

  /** The band loop: one band per consecutive pair far enough apart. */
  method GapBands(linePositions: seq<int>) returns (bands: seq<Band>)
    ensures bands == Gaps(linePositions)
  {
    bands := [];
    if |linePositions| == 0 {
      return;
    }
    var i := 0;
    while i < |linePositions| - 1
      invariant 0 <= i < |linePositions|
      invariant bands == Gaps(linePositions[..i + 1])
    {
      var yTop := linePositions[i] + 1;
      var yBottom := linePositions[i + 1] - 1;
      assert linePositions[..i + 2][..i + 1] == linePositions[..i + 1];
      if yBottom - yTop > 15 {
        bands := bands + [Band(yTop, yBottom)];
      }
      i := i + 1;
    }
    assert linePositions[..i + 1] == linePositions;
  }

  /** `detect_row_bounds` from the line mask on. */
  method DetectRowBounds(lineMask: seq<bool>) returns (bands: seq<Band>)
    ensures bands == DetectedBands(lineMask)
  {
    var h := |lineMask|;
    var linePositions := LinePositions(lineMask);
    linePositions := Interior(linePositions, h);
    linePositions := SortBy(linePositions, Identity);
    bands := GapBands(linePositions);
    bands := DropHeader(bands);
  }

  // ------------------------------------------------------------ properties

  /** `(top, bottom)` is the band between lines `i` and `i + 1` of `ps`. */
  predicate GapAt(ps: seq<int>, i: nat, b: Band) {
    i + 1 < |ps| && b == Band(ps[i] + 1, ps[i + 1] - 1) && b.bottom - b.top > 15
  }

  /** A band is found exactly when it lies between two consecutive lines more than 15 pixels apart (an if and only if). */
  lemma {:induction false} GapsMembers(ps: seq<int>, b: Band)
    ensures b in Gaps(ps) ==> exists i: nat :: GapAt(ps, i, b)
    ensures forall i: nat :: GapAt(ps, i, b) ==> b in Gaps(ps)
  {
    if |ps| >= 2 {
      var init := ps[..|ps| - 1];
      GapsMembers(init, b);
      if b in Gaps(init) {
        var i: nat :| GapAt(init, i, b);
        assert GapAt(ps, i, b);
      } else if b in Gaps(ps) {
        assert GapAt(ps, |ps| - 2, b);
      }
      forall i: nat | GapAt(ps, i, b) ensures b in Gaps(ps) {
        if i + 2 < |ps| {
          assert GapAt(init, i, b);
        }
      }
    }
  }

  /** Bands are each more than 15 high, inside the lines' span, top to bottom, and disjoint. */
  ghost predicate OrderedBands(bands: seq<Band>) {
    && (forall k :: 0 <= k < |bands| ==> bands[k].bottom - bands[k].top > 15)
    && (forall i, j :: 0 <= i < j < |bands| ==> bands[i].bottom < bands[j].top)
  }

  lemma {:induction false} GapsOrdered(ps: seq<int>)
    requires StrictlyIncreasing(ps)
    ensures OrderedBands(Gaps(ps))
    ensures |ps| > 0 ==> forall k :: 0 <= k < |Gaps(ps)| ==> ps[0] < Gaps(ps)[k].top && Gaps(ps)[k].bottom < ps[|ps| - 1]
  {
    if |ps| >= 2 {
      var init := ps[..|ps| - 1];
      assert StrictlyIncreasing(init);
      GapsOrdered(init);
      var g := Gap(ps[|ps| - 2], ps[|ps| - 1]);
      var bs := Gaps(init) + g;
      assert forall k :: 0 <= k < |Gaps(init)| ==> bs[k] == Gaps(init)[k];
      if |init| >= 2 {
        assert init[|init| - 1] == ps[|ps| - 2];
      }
    }
  }

  /** The detected bands are the gaps between consecutive interior lines, without the first. */
  lemma DetectedBandsAreGaps(mask: seq<bool>)
    ensures DetectedBands(mask) == DropHeader(Gaps(InteriorLines(mask)))
  {
    SortedLinesUnchanged(mask);
  }

  /** The interior lines are strictly increasing and more than 50 pixels from both edges. */
  lemma InteriorLinesFacts(mask: seq<bool>)
    ensures StrictlyIncreasing(InteriorLines(mask))
    ensures forall k :: 0 <= k < |InteriorLines(mask)| ==> 50 < InteriorLines(mask)[k] < |mask| - 50
  {
    SortedLinesUnchanged(mask);
  }

  lemma BandsOfLines(ps: seq<int>, h: int)
    requires StrictlyIncreasing(ps)
    requires forall k :: 0 <= k < |ps| ==> 50 < ps[k] < h - 50
    ensures OrderedBands(DropHeader(Gaps(ps)))
    ensures forall k :: 0 <= k < |DropHeader(Gaps(ps))| ==>
      51 < DropHeader(Gaps(ps))[k].top && DropHeader(Gaps(ps))[k].bottom < h - 51
  {
    GapsOrdered(ps);
    var g := Gaps(ps);
    var r := DropHeader(g);
    assert forall k :: 0 <= k < |r| ==> r[k] == g[k + 1];
  }

  /** The detected bands: each more than 15 high, top to bottom and disjoint, and all strictly between lines more than 50 pixels from the top and bottom edges. */
  lemma DetectedBandsOrdered(mask: seq<bool>)
    ensures OrderedBands(DetectedBands(mask))
    ensures forall k :: 0 <= k < |DetectedBands(mask)| ==>
      51 < DetectedBands(mask)[k].top && DetectedBands(mask)[k].bottom < |mask| - 51
  {
    DetectedBandsAreGaps(mask);
    InteriorLinesFacts(mask);
    BandsOfLines(InteriorLines(mask), |mask|);
  }

  /** Fewer than two interior lines give no bands, and so do exactly two: their single band is the header. */
  lemma FewLinesNoBands(mask: seq<bool>)
    requires |InteriorLines(mask)| <= 2
    ensures DetectedBands(mask) == []
  {
    DetectedBandsAreGaps(mask);
    var ps := InteriorLines(mask);
    if |ps| == 2 {
      assert |ps[..1]| < 2;
    }
  }

  /** `sorted(row_bands)`, read as an order on band tops, which are distinct. */
  function TopOf(b: Band): int { b.top }

  /** Sorting detected bands changes nothing. */
  lemma SortedBandsUnchanged(mask: seq<bool>)
    ensures SortBy(DetectedBands(mask), TopOf) == DetectedBands(mask)
  {
    var bs := DetectedBands(mask);
    DetectedBandsOrdered(mask);
    assert SortedBy(bs, TopOf) by {
      forall i, j | 0 <= i < j < |bs| ensures bs[i].top <= bs[j].top {
        assert bs[i].bottom < bs[j].top;
      }
    }
    SortBySortedIsIdentity(bs, TopOf);
  }
}
