/**
 * The current page classifier of the back-end: every template may match
 * a row several times; the strong matches of a row are reduced to the best
 * score per symbol name, `basic1line` and `basic3line` exclude each other,
 * and rows without symbols are dropped. The image work (binarisation,
 * correlation, non-maximum suppression on the score grid, OCR) is foreign:
 * the line mask of the page, the successive correlation peaks of every
 * template in every row, and the OCR text of each band are inputs.
 */
module FullExtraction {
  import opened Wrappers
  import opened Tally
  import opened Sorting
  import opened RowBands
  import opened Options

  /** `MATCH_THRESH`: peaks below it end a template's matches. */
  const MatchThresh: real := 0.5

  /** `ROW_SYMBOL_THRESH`: the score a match needs to count for its row. */
  const RowSymbolThresh: real := 0.80

  /** One maximum of the correlation grid: its score and its top-left corner. */
  datatype Peak = Peak(score: real, x: int, y: int)

  /** A template with its size and the peaks the matcher finds for it in the row, in the order they are taken (each below the previous after suppression around it). */
  datatype Template = Template(name: string, height: int, width: int, peaks: seq<Peak>)

  /** A binarised row region (its height and width) and the templates tried on it, in dictionary order. */
  datatype Strip = Strip(height: int, width: int, templates: seq<Template>)

  /** One hit: `name`, `score`, `x`, `y`, `width`, `height` (with `x_center` derived). */
  datatype Detection = Detection(name: string, score: real, x: int, y: int, width: int, height: int)

  /** `x + tw / 2.0`. */
  function XCenter(d: Detection): real {
    d.x as real + d.width as real / 2.0
  }

  /** Twice the centre, an integer with the same order. */
  function CenterKey(d: Detection): int {
    2 * d.x + d.width
  }

  lemma CenterKeyOrder(a: Detection, b: Detection)
    ensures CenterKey(a) <= CenterKey(b) <==> XCenter(a) <= XCenter(b)
  {
    assert XCenter(a) == CenterKey(a) as real / 2.0;
    assert XCenter(b) == CenterKey(b) as real / 2.0;
  }

  // ------------------------------------------------------------ multi-match

  function DetectionOf(t: Template, p: Peak): Detection {
    Detection(t.name, p.score, p.x, p.y, t.width, t.height)
  }

  /** The hits of template `t` while the peaks `ps` stay at or above `thresh`. */
  function Hits(t: Template, ps: seq<Peak>, thresh: real): seq<Detection> {
    if ps == [] || ps[0].score < thresh then []
    else [DetectionOf(t, ps[0])] + Hits(t, ps[1..], thresh)
  }

  /** A template is tried unless it is taller or wider than the row. */
  predicate Fits(t: Template, h: int, w: int) {
    t.height <= h && t.width <= w
  }

  /** The hits of the templates `ts`, template by template, before sorting. */
  function Collect(ts: seq<Template>, h: int, w: int, thresh: real): seq<Detection> {
    if ts == [] then []
    else
      var t := ts[|ts| - 1];
      Collect(ts[..|ts| - 1], h, w, thresh) + (if Fits(t, h, w) then Hits(t, t.peaks, thresh) else [])
  }

  /** `match_templates_in_row_multi_2d`, as a value. */
  function MultiMatch(strip: Strip, thresh: real): seq<Detection> {
    SortBy(Collect(strip.templates, strip.height, strip.width, thresh), CenterKey)
  }

  /** A hit of a template is that template at one of its peaks, scoring at least `thresh`. */
  predicate HitOf(d: Detection, t: Template, thresh: real) {
    d.name == t.name && d.width == t.width && d.height == t.height && d.score >= thresh
  }

  lemma {:induction false} HitsSpec(t: Template, ps: seq<Peak>, thresh: real)
    ensures |Hits(t, ps, thresh)| <= |ps|
    ensures forall k :: 0 <= k < |Hits(t, ps, thresh)| ==> Hits(t, ps, thresh)[k] == DetectionOf(t, ps[k]) && ps[k].score >= thresh
    ensures |Hits(t, ps, thresh)| < |ps| ==> ps[|Hits(t, ps, thresh)|].score < thresh
  {
    if ps != [] && ps[0].score >= thresh {
      HitsSpec(t, ps[1..], thresh);
    }
  }

  /** Every collected hit comes from a template that fits the row and scores at least `thresh`. */
  lemma {:induction false} CollectSpec(ts: seq<Template>, h: int, w: int, thresh: real)
    ensures forall d :: d in Collect(ts, h, w, thresh) ==>
      d.score >= thresh && d.height <= h && d.width <= w && (exists t :: t in ts && HitOf(d, t, thresh))
  {
    if ts != [] {
      var init := ts[..|ts| - 1];
      var t := ts[|ts| - 1];
      CollectSpec(init, h, w, thresh);
      HitsSpec(t, t.peaks, thresh);
      forall d | d in Collect(ts, h, w, thresh)
        ensures d.score >= thresh && d.height <= h && d.width <= w && (exists t :: t in ts && HitOf(d, t, thresh))
      {
        if d in Collect(init, h, w, thresh) {
          var t0 :| t0 in init && HitOf(d, t0, thresh);
          assert t0 in ts;
        } else {
          assert HitOf(d, t, thresh);
        }
      }
    }
  }

  /** The hits come back left to right by `x_center` (ties in collection order), as a permutation of the collected hits, each scoring at least `thresh` from a template that fits. */
  lemma MultiMatchSpec(strip: Strip, thresh: real)
    ensures forall i, j :: 0 <= i < j < |MultiMatch(strip, thresh)| ==>
      XCenter(MultiMatch(strip, thresh)[i]) <= XCenter(MultiMatch(strip, thresh)[j])
    ensures multiset(MultiMatch(strip, thresh)) == multiset(Collect(strip.templates, strip.height, strip.width, thresh))
    ensures forall d :: d in MultiMatch(strip, thresh) ==>
      d.score >= thresh && d.height <= strip.height && d.width <= strip.width
      && (exists t :: t in strip.templates && HitOf(d, t, thresh))
  {
    var c := Collect(strip.templates, strip.height, strip.width, thresh);
    var r := MultiMatch(strip, thresh);
    SortBySorted(c, CenterKey);
    forall i, j | 0 <= i < j < |r| ensures XCenter(r[i]) <= XCenter(r[j]) {
      CenterKeyOrder(r[i], r[j]);
    }
    CollectSpec(strip.templates, strip.height, strip.width, thresh);
    forall d | d in r ensures d in c {
      assert d in multiset(r);
    }
  }

  lemma CollectSnoc(ts: seq<Template>, i: nat, h: int, w: int, thresh: real)
    requires i < |ts|
    ensures Collect(ts[..i + 1], h, w, thresh) == Collect(ts[..i], h, w, thresh) + (if Fits(ts[i], h, w) then Hits(ts[i], ts[i].peaks, thresh) else [])
  {
    assert ts[..i + 1][..i] == ts[..i];
  }

  lemma HitsStep(t: Template, j: nat, thresh: real)
    requires j < |t.peaks| && t.peaks[j].score >= thresh
    ensures Hits(t, t.peaks[j..], thresh) == [DetectionOf(t, t.peaks[j])] + Hits(t, t.peaks[j + 1..], thresh)
  {
    assert t.peaks[j..][1..] == t.peaks[j + 1..];
  }

  /** The inner loop over the peaks of one template that fits: each peak is a detection until one scores below `thresh`. */
  method AppendHits(detections: seq<Detection>, t: Template, thresh: real) returns (out: seq<Detection>)
    ensures out == detections + Hits(t, t.peaks, thresh)
  {
    out := detections;
    var j := 0;
    while j < |t.peaks|
      invariant 0 <= j <= |t.peaks|
      invariant detections + Hits(t, t.peaks, thresh) == out + Hits(t, t.peaks[j..], thresh)
    {
      var p := t.peaks[j];
      if p.score < thresh {
        break;
      }
      HitsStep(t, j, thresh);
      out := out + [Detection(t.name, p.score, p.x, p.y, t.width, t.height)];
      j := j + 1;
    }
    assert Hits(t, t.peaks[j..], thresh) == [];
  }

  /** `match_templates_in_row_multi_2d`: the loop over templates, the inner loop over peaks until one falls below `thresh`, then the stable sort by `x_center`. */
  method MatchTemplatesInRowMulti(strip: Strip, thresh: real) returns (detections: seq<Detection>)
    ensures detections == MultiMatch(strip, thresh)
  {
    var ts := strip.templates;
    detections := [];
    var i := 0;
    while i < |ts|
      invariant 0 <= i <= |ts|
      invariant detections == Collect(ts[..i], strip.height, strip.width, thresh)
    {
      var t := ts[i];
      CollectSnoc(ts, i, strip.height, strip.width, thresh);
      if t.height > strip.height || t.width > strip.width {
        i := i + 1;
        continue;
      }
      detections := AppendHits(detections, t, thresh);
      i := i + 1;
    }
    assert ts[..i] == ts;
    detections := SortBy(detections, CenterKey);
  }

  // ------------------------------------------------------------ row symbols

  const Basic1: string := "basic1line"
  const Basic3: string := "basic3line"

  /** `[d for d in symbols if d["score"] >= ROW_SYMBOL_THRESH]`. */
  function Strong(ds: seq<Detection>): (r: seq<Detection>)
    ensures forall d :: d in r <==> d in ds && d.score >= RowSymbolThresh
  {
    if ds == [] then []
    else (if ds[0].score >= RowSymbolThresh then [ds[0]] else []) + Strong(ds[1..])
  }

  /** The names of `ds`, in order. */
  function Names(ds: seq<Detection>): (ns: seq<string>)
    ensures |ns| == |ds| && forall k :: 0 <= k < |ds| ==> ns[k] == ds[k].name
  {
    seq(|ds|, k requires 0 <= k < |ds| => ds[k].name)
  }

  /**
   * `name_best_score` after the loop has seen `ds`: reading a missing
   * name of the `defaultdict(float)` enters it with `0.0`, and a strictly
   * greater score replaces the stored one.
   */
  function BestScores(ds: seq<Detection>): map<string, real> {
    if ds == [] then map[] else Update(BestScores(ds[..|ds| - 1]), ds[|ds| - 1])
  }

  /** One step of the loop on `name_best_score`. */
  function Update(m: map<string, real>, d: Detection): map<string, real> {
    var current := if d.name in m then m[d.name] else 0.0;
    m[d.name := if d.score > current then d.score else current]
  }

  /** Some detection of `ds` named `n` scores `v`. */
  predicate Achieved(ds: seq<Detection>, n: string, v: real) {
    exists d :: d in ds && d.name == n && d.score == v
  }

  /** The names entered are exactly the names seen. */
  lemma {:induction false} BestScoresKeys(ds: seq<Detection>)
    ensures forall n :: n in BestScores(ds) <==> n in Names(ds)
  {
    if ds != [] {
      var init := ds[..|ds| - 1];
      BestScoresKeys(init);
      forall n ensures n in Names(init) <==> n in Names(ds)[..|ds| - 1] {
        assert Names(init) == Names(ds)[..|ds| - 1];
      }
      assert Names(ds) == Names(ds)[..|ds| - 1] + [ds[|ds| - 1].name];
    }
  }

  /** Each name's stored score is at least every score seen under that name and never negative. */
  lemma {:induction false} BestScoresUpper(ds: seq<Detection>)
    ensures forall d :: d in ds ==> d.name in BestScores(ds) && d.score <= BestScores(ds)[d.name]
    ensures forall n :: n in BestScores(ds) ==> BestScores(ds)[n] >= 0.0
  {
    if ds != [] {
      var init := ds[..|ds| - 1];
      BestScoresUpper(init);
      assert ds == init + [ds[|ds| - 1]];
    }
  }

  /** A stored score above zero is the score of some detection under that name. */
  lemma {:induction false} BestScoresAchieved(ds: seq<Detection>)
    ensures forall n :: n in BestScores(ds) && BestScores(ds)[n] != 0.0 ==> Achieved(ds, n, BestScores(ds)[n])
  {
    if ds != [] {
      var init := ds[..|ds| - 1];
      var d := ds[|ds| - 1];
      BestScoresAchieved(init);
      assert ds == init + [d];
      var m := BestScores(init);
      forall n | n in BestScores(ds) && BestScores(ds)[n] != 0.0 ensures Achieved(ds, n, BestScores(ds)[n]) {
        var v := BestScores(ds)[n];
        if n == d.name && v == d.score {
          assert d in ds;
        } else {
          assert n in m && v == m[n];
          var e :| e in init && e.name == n && e.score == v;
          assert e in ds;
        }
      }
    }
  }

  /** The name `del` removes when both basic line symbols are present: `basic3line` when `basic1line` scores at least as much, otherwise `basic1line`. */
  function Loser(m: map<string, real>): Option<string> {
    if Basic1 in m && Basic3 in m then
      if m[Basic1] >= m[Basic3] then Some(Basic3) else Some(Basic1)
    else None
  }

  /** `symbol_scores`, from `name_best_score`. */
  function Exclusive(m: map<string, real>): map<string, real> {
    if Loser(m).Some? then m - {Loser(m).value} else m
  }

  /** `basic1line` and `basic3line` never both survive; of the two the higher scoring one stays, `basic1line` on a tie; every other name and every score stays. */
  lemma ExclusiveSpec(m: map<string, real>)
    ensures !(Basic1 in Exclusive(m) && Basic3 in Exclusive(m))
    ensures forall n :: n in Exclusive(m) ==> n in m && Exclusive(m)[n] == m[n]
    ensures forall n :: n in m && n != Basic1 && n != Basic3 ==> n in Exclusive(m)
    ensures Basic1 in m && Basic3 in m && m[Basic1] >= m[Basic3] ==> Basic1 in Exclusive(m)
    ensures Basic1 in m && Basic3 in m && m[Basic1] < m[Basic3] ==> Basic3 in Exclusive(m)
    ensures !(Basic1 in m && Basic3 in m) ==> Exclusive(m) == m
  {
  }

  /** `order` without `n`: a `del` keeps the order of the other keys. */
  function RemoveName(order: seq<string>, n: string): (r: seq<string>)
    ensures forall x :: x in r <==> x in order && x != n
  {
    if order == [] then []
    else (if order[0] == n then [] else [order[0]]) + RemoveName(order[1..], n)
  }

  lemma {:induction false} RemoveNameDistinct(order: seq<string>, n: string)
    requires NoDuplicates(order)
    ensures NoDuplicates(RemoveName(order, n))
  {
    if order != [] {
      RemoveNameDistinct(order[1..], n);
      var rest := RemoveName(order[1..], n);
      assert order[0] !in order[1..];
      if order[0] != n {
        forall i, j | 0 <= i < j < |[order[0]] + rest| ensures ([order[0]] + rest)[i] != ([order[0]] + rest)[j] {
          if i == 0 {
            assert ([order[0]] + rest)[j] in rest;
          }
        }
      }
    }
  }

  /** The keys of `symbol_scores` in dictionary order. */
  function KeyOrder(ds: seq<Detection>): seq<string> {
    var m := BestScores(ds);
    var order := Distinct(Names(ds));
    if Loser(m).Some? then RemoveName(order, Loser(m).value) else order
  }

  /** The per-row summary of the detections `symbols`: the best strong score per name, with the basic line exclusion. */
  function SymbolScores(symbols: seq<Detection>): map<string, real> {
    Exclusive(BestScores(Strong(symbols)))
  }

  /** `unique_symbols`: the names of `symbol_scores`, sorted. */
  function UniqueSymbols(symbols: seq<Detection>): seq<string> {
    SortStrings(KeyOrder(Strong(symbols)))
  }

  /** The dictionary order lists each key of `symbol_scores` once. */
  lemma KeyOrderSpec(ds: seq<Detection>)
    ensures NoDuplicates(KeyOrder(ds))
    ensures forall n :: n in KeyOrder(ds) <==> n in Exclusive(BestScores(ds))
  {
    var m := BestScores(ds);
    BestScoresKeys(ds);
    var order := Distinct(Names(ds));
    forall n ensures n in order <==> n in Names(ds) {
      DistinctMembership(Names(ds), n);
    }
    if Loser(m).Some? {
      RemoveNameDistinct(order, Loser(m).value);
    }
  }

  /** `unique_symbols` is sorted, free of duplicates, and names exactly the keys of `symbol_scores`. */
  lemma UniqueSymbolsSpec(symbols: seq<Detection>)
    ensures StrictlyAscending(UniqueSymbols(symbols))
    ensures forall n :: n in UniqueSymbols(symbols) <==> n in SymbolScores(symbols)
  {
    var order := KeyOrder(Strong(symbols));
    KeyOrderSpec(Strong(symbols));
    SortStringsAscending(order);
    forall n ensures n in UniqueSymbols(symbols) <==> n in order {
      assert n in multiset(UniqueSymbols(symbols)) <==> n in multiset(order);
    }
  }

  /**
   * Every name of `symbol_scores` carries the highest score of a strong
   * detection under that name, and every strong detection other than a
   * basic line symbol has its name in the summary.
   */
  lemma SymbolScoresSpec(symbols: seq<Detection>)
    ensures forall n :: n in SymbolScores(symbols) ==> Achieved(symbols, n, SymbolScores(symbols)[n]) && SymbolScores(symbols)[n] >= RowSymbolThresh
    ensures forall d :: d in symbols && d.score >= RowSymbolThresh && d.name in SymbolScores(symbols) ==> d.score <= SymbolScores(symbols)[d.name]
    ensures forall d :: d in symbols && d.score >= RowSymbolThresh && d.name != Basic1 && d.name != Basic3 ==> d.name in SymbolScores(symbols)
  {
    var strong := Strong(symbols);
    var m := BestScores(strong);
    BestScoresKeys(strong);
    BestScoresUpper(strong);
    BestScoresAchieved(strong);
    ExclusiveSpec(m);
    forall n | n in SymbolScores(symbols) ensures Achieved(symbols, n, SymbolScores(symbols)[n]) && SymbolScores(symbols)[n] >= RowSymbolThresh {
      assert n in Names(strong);
      var k :| 0 <= k < |strong| && Names(strong)[k] == n;
      assert strong[k] in strong;
      var e :| e in strong && e.name == n && e.score == m[n];
    }
  }

  lemma BestScoresSnoc(ds: seq<Detection>, i: nat)
    requires i < |ds|
    ensures BestScores(ds[..i + 1]) == Update(BestScores(ds[..i]), ds[i])
  {
    assert ds[..i + 1][..i] == ds[..i];
  }

  /** The key order grows by a name only the first time it is read. */
  lemma OrderSnoc(ds: seq<Detection>, i: nat)
    requires i < |ds|
    ensures Distinct(Names(ds[..i + 1])) ==
      if ds[i].name in BestScores(ds[..i]) then Distinct(Names(ds[..i])) else Distinct(Names(ds[..i])) + [ds[i].name]
  {
    assert Names(ds[..i + 1]) == Names(ds[..i]) + [ds[i].name];
    DistinctSnoc(Names(ds[..i]), ds[i].name);
    BestScoresKeys(ds[..i]);
    DistinctMembership(Names(ds[..i]), ds[i].name);
  }

  /** Reading a missing key enters `0.0`; a strictly greater score then replaces it. */
  lemma DefaultDictStep(m: map<string, real>, d: Detection)
    ensures var m1 := if d.name !in m then m[d.name := 0.0] else m;
      (if d.score > m1[d.name] then m1[d.name := d.score] else m1) == Update(m, d)
  {
  }

  /** The `name_best_score` loop, keeping the dictionary's key order beside it. */
  method NameBestScores(strong: seq<Detection>) returns (scores: map<string, real>, order: seq<string>)
    ensures scores == BestScores(strong)
    ensures order == Distinct(Names(strong))
  {
    scores := map[];
    order := [];
    var i := 0;
    while i < |strong|
      invariant 0 <= i <= |strong|
      invariant scores == BestScores(strong[..i])
      invariant order == Distinct(Names(strong[..i]))
    {
      var det := strong[i];
      var name := det.name;
      var score := det.score;
      BestScoresSnoc(strong, i);
      OrderSnoc(strong, i);
      DefaultDictStep(scores, det);
      if name !in scores {
        scores := scores[name := 0.0];
        order := order + [name];
      }
      if score > scores[name] {
        scores := scores[name := score];
      }
      i := i + 1;
    }
    assert strong[..i] == strong;
  }

  /** The per-row selection: strong hits, best score per name, the basic line exclusion, and the sorted names. */
  method SelectRowSymbols(symbols: seq<Detection>) returns (symbolScores: map<string, real>, uniqueSymbols: seq<string>)
    ensures symbolScores == SymbolScores(symbols)
    ensures uniqueSymbols == UniqueSymbols(symbols)
  {
    var strong := Strong(symbols);
    var nameBestScore, order := NameBestScores(strong);
    if Basic1 in nameBestScore && Basic3 in nameBestScore {
      var b1 := nameBestScore[Basic1];
      var b3 := nameBestScore[Basic3];
      if b1 >= b3 {
        nameBestScore := nameBestScore - {Basic3};
        order := RemoveName(order, Basic3);
      } else {
        nameBestScore := nameBestScore - {Basic1};
        order := RemoveName(order, Basic1);
      }
    }
    symbolScores := nameBestScore;
    uniqueSymbols := SortStrings(order);
  }

  // ------------------------------------------------------------ pages

  /**
   * A page image: its size in pixels, its line mask (one entry per scan
   * line, top to bottom), the symbol region of each band, and the
   * description, protection and cable text read from each band.
   */
  datatype FullPage = FullPage(
    size: nat,
    lineMask: seq<bool>,
    strip: Band -> Strip,
    kuvausText: Band -> string,
    suojaText: Band -> string,
    kaapeliText: Band -> string)

  /** The per-row dictionary `classify_page_image` returns. */
  datatype RowResult = RowResult(
    rowIndex: int,
    y1: int,
    y2: int,
    uniqueSymbols: seq<string>,
    symbolScores: map<string, real>,
    kuvaus: string,
    suoja: string,
    kaapeli: string)

  const EmptyPageMessage: string := "Empty page image passed to classify_page_image"

  /** The row reported for band `b` at position `idx`, or nothing when no symbol survives. */
  function RowAt(page: FullPage, idx: int, b: Band): Option<RowResult> {
    var symbols := MultiMatch(page.strip(b), MatchThresh);
    var unique := UniqueSymbols(symbols);
    if unique == [] then None
    else Some(RowResult(idx, b.top, b.bottom, unique, SymbolScores(symbols),
      page.kuvausText(b), page.suojaText(b), page.kaapeliText(b)))
  }

  /** The index a row carries is the band position it was built with. */
  lemma RowAtIndex(page: FullPage, idx: int, b: Band)
    ensures RowAt(page, idx, b).Some? ==> RowAt(page, idx, b).value.rowIndex == idx
  {
  }

  /** The candidate row of every band of `bs`, by band position from 1. */
  function RowOptions(page: FullPage, bs: seq<Band>): (opts: seq<Option<RowResult>>)
    ensures |opts| == |bs|
  {
    seq(|bs|, k requires 0 <= k < |bs| => RowAt(page, k + 1, bs[k]))
  }

  /** The rows of bands `bs`, numbered by band position from 1, rows without symbols left out. */
  function ClassifiedRows(page: FullPage, bs: seq<Band>): seq<RowResult> {
    Present(RowOptions(page, bs))
  }

  /** `classify_page_image`, as a value: an error for a missing or empty image, otherwise the rows of its detected bands. */
  function Classify(img: Option<FullPage>): Result<seq<RowResult>, string> {
    if img.None? || img.value.size == 0 then Failure(EmptyPageMessage)
    else Success(ClassifiedRows(img.value, DetectedBands(img.value.lineMask)))
  }

  function RowIndexOf(r: RowResult): int { r.rowIndex }

  lemma RowOptionsIndexed(page: FullPage, bs: seq<Band>)
    ensures Indexed(RowOptions(page, bs), RowIndexOf)
  {
    var opts := RowOptions(page, bs);
    forall k | 0 <= k < |opts| && opts[k].Some? ensures opts[k].value.rowIndex == k + 1 {
      RowAtIndex(page, k + 1, bs[k]);
    }
  }

  /**
   * Every row is the candidate row of the band at its index, the indices
   * increase strictly (so they may skip a band but never repeat one), and
   * every band with a surviving symbol has its row.
   */
  lemma ClassifiedRowsSpec(page: FullPage, bs: seq<Band>)
    ensures forall k :: 0 <= k < |ClassifiedRows(page, bs)| ==> AtOwnIndex(RowOptions(page, bs), RowIndexOf, ClassifiedRows(page, bs)[k])
    ensures forall i, j :: 0 <= i < j < |ClassifiedRows(page, bs)| ==>
      ClassifiedRows(page, bs)[i].rowIndex < ClassifiedRows(page, bs)[j].rowIndex
    ensures forall k :: 0 <= k < |bs| && RowOptions(page, bs)[k].Some? ==> RowOptions(page, bs)[k].value in ClassifiedRows(page, bs)
  {
    RowOptionsIndexed(page, bs);
    PresentSpec(RowOptions(page, bs), RowIndexOf);
  }

  lemma ClassifiedRowsSnoc(page: FullPage, bs: seq<Band>, i: nat)
    requires i < |bs|
    ensures ClassifiedRows(page, bs[..i + 1]) ==
      ClassifiedRows(page, bs[..i]) + (if RowAt(page, i + 1, bs[i]).Some? then [RowAt(page, i + 1, bs[i]).value] else [])
  {
    var o1, o0 := RowOptions(page, bs[..i + 1]), RowOptions(page, bs[..i]);
    assert o1[..i] == o0;
  }

  /** `classify_page_image`: the loop over the sorted bands, skipping rows without symbols. */
  method ClassifyPageImage(img: Option<FullPage>) returns (result: Result<seq<RowResult>, string>)
    ensures result == Classify(img)
  {
    if img.None? || img.value.size == 0 {
      return Failure(EmptyPageMessage);
    }
    var page := img.value;
    var rowBands := DetectRowBounds(page.lineMask);
    SortedBandsUnchanged(page.lineMask);
    var bs := SortBy(rowBands, TopOf);
    var results: seq<RowResult> := [];
    var i := 0;
    while i < |bs|
      invariant 0 <= i <= |bs|
      invariant results == ClassifiedRows(page, bs[..i])
    {
      var idx := i + 1;
      var b := bs[i];
      ClassifiedRowsSnoc(page, bs, i);
      var symbols := MatchTemplatesInRowMulti(page.strip(b), MatchThresh);
      var suojaText := page.suojaText(b);
      var kuvausText := page.kuvausText(b);
      var kaapeliText := page.kaapeliText(b);
      var symbolScores, uniqueSymbols := SelectRowSymbols(symbols);
      if uniqueSymbols == [] {
        i := i + 1;
        continue;
      }
      var rowResult := RowResult(idx, b.top, b.bottom, uniqueSymbols, symbolScores, kuvausText, suojaText, kaapeliText);
      results := results + [rowResult];
      i := i + 1;
    }
    assert bs[..i] == bs;
    return Success(results);
  }
}
