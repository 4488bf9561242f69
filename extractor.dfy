/**
 * The single-symbol page extractor of the back-end: over the row bands of
 * each page image it picks the one template that matches the row's symbol
 * strip best, reads the protection text of the row, and numbers rows and
 * pages from 1. The image work (binarisation, cropping, scaling, template
 * correlation, OCR, PDF rasterisation) is foreign: the line mask of a page,
 * the prepared strip of each band with the best correlation of every
 * template, and the OCR text of each band are inputs.
 */
module Extractor {
  import opened Wrappers
  import opened Sorting
  import opened RowBands

  /** `MATCH_THRESH`: a best score below it reports no symbol. */
  const MatchThresh: real := 0.3

  /** One template tried on a row strip: its height and width, and the highest correlation and its left edge that the template matcher reports for it. */
  datatype Candidate = Candidate(name: string, height: int, width: int, score: real, x: int)

  /** A prepared row strip (its height and width) and the templates tried on it, in dictionary order. */
  datatype RowStrip = RowStrip(height: int, width: int, candidates: seq<Candidate>)

  /** `(name, score, x_position)`, with `None` for Python's `None`. */
  datatype Match = Match(name: string, score: real, x: Option<int>)

  /** `("unknown", 0.0, None)`. */
  const NoMatch := Match("unknown", 0.0, None)

  /** A template is tried only when it has the strip's height and is no wider than it. */
  predicate Eligible(c: Candidate, h: int, w: int) {
    c.height == h && c.width <= w
  }

  function MatchOf(c: Candidate): Match {
    Match(c.name, c.score, Some(c.x))
  }

  /** The `best_*` variables after the loop has seen the templates `cs`: a template replaces the best so far only with a strictly greater score, starting from `0.0`. */
  function BestSoFar(cs: seq<Candidate>, h: int, w: int): Match {
    if cs == [] then NoMatch
    else
      var b := BestSoFar(cs[..|cs| - 1], h, w);
      var c := cs[|cs| - 1];
      if Eligible(c, h, w) && c.score > b.score then MatchOf(c) else b
  }

  /** What `match_templates_in_row` returns for a strip, with threshold `thresh`. */
  function Select(strip: RowStrip, thresh: real): Match {
    var b := BestSoFar(strip.candidates, strip.height, strip.width);
    if b.score < thresh then Match("unknown", b.score, None) else b
  }

  // ------------------------------------------------------------ selection

  /** Template `k` is tried, scores above zero, no tried template scores more, and every tried template before it scores less. */
  predicate IsFirstBest(cs: seq<Candidate>, h: int, w: int, k: nat) {
    && k < |cs| && Eligible(cs[k], h, w) && cs[k].score > 0.0
    && (forall j :: 0 <= j < |cs| && Eligible(cs[j], h, w) ==> cs[j].score <= cs[k].score)
    && (forall j :: 0 <= j < k && Eligible(cs[j], h, w) ==> cs[j].score < cs[k].score)
  }

  /** No tried template scores above zero. */
  predicate NoPositive(cs: seq<Candidate>, h: int, w: int) {
    forall j :: 0 <= j < |cs| && Eligible(cs[j], h, w) ==> cs[j].score <= 0.0
  }

  /** Template `k` is the first best and gives the loop's result `b`. */
  predicate ChosenAt(cs: seq<Candidate>, h: int, w: int, k: nat, b: Match) {
    IsFirstBest(cs, h, w, k) && b == MatchOf(cs[k])
  }

  /** The loop ends on the first template of strictly greatest positive score, or on `("unknown", 0.0, None)` when no tried template scores above zero. */
  lemma {:induction false} BestSoFarSpec(cs: seq<Candidate>, h: int, w: int)
    ensures BestSoFar(cs, h, w).x.None? ==> BestSoFar(cs, h, w) == NoMatch && NoPositive(cs, h, w)
    ensures BestSoFar(cs, h, w).x.Some? ==> exists k :: ChosenAt(cs, h, w, k, BestSoFar(cs, h, w))
  {
    if cs != [] {
      var init := cs[..|cs| - 1];
      var c := cs[|cs| - 1];
      var b := BestSoFar(init, h, w);
      BestSoFarSpec(init, h, w);
      assert forall j :: 0 <= j < |init| ==> init[j] == cs[j];
      if Eligible(c, h, w) && c.score > b.score {
        if b.x.Some? {
          var k :| ChosenAt(init, h, w, k, b);
        }
        assert ChosenAt(cs, h, w, |cs| - 1, BestSoFar(cs, h, w));
      } else if b.x.Some? {
        var k :| ChosenAt(init, h, w, k, b);
        assert ChosenAt(cs, h, w, k, BestSoFar(cs, h, w));
      }
    }
  }

  /** There is at most one first best. */
  lemma FirstBestUnique(cs: seq<Candidate>, h: int, w: int, k: nat, k2: nat)
    requires IsFirstBest(cs, h, w, k) && IsFirstBest(cs, h, w, k2)
    ensures k == k2
  {
  }

  /** With a first best `k`, the row reports template `k` when its score reaches the threshold, and `"unknown"` with that score and no position otherwise. */
  lemma SelectFirstBest(strip: RowStrip, thresh: real, k: nat)
    requires IsFirstBest(strip.candidates, strip.height, strip.width, k)
    ensures strip.candidates[k].score >= thresh ==> Select(strip, thresh) == MatchOf(strip.candidates[k])
    ensures strip.candidates[k].score < thresh ==> Select(strip, thresh) == Match("unknown", strip.candidates[k].score, None)
  {
    var cs, h, w := strip.candidates, strip.height, strip.width;
    BestSoFarSpec(cs, h, w);
    var b := BestSoFar(cs, h, w);
    if b.x.Some? {
      var k2 :| ChosenAt(cs, h, w, k2, b);
      FirstBestUnique(cs, h, w, k, k2);
    } else {
      assert false;
    }
  }

  /** When no tried template scores above zero (in particular with no templates at all) the row reports `("unknown", 0.0, None)`, whatever the threshold. */
  lemma SelectNoPositive(strip: RowStrip, thresh: real)
    requires NoPositive(strip.candidates, strip.height, strip.width)
    ensures Select(strip, thresh) == NoMatch
  {
    var cs, h, w := strip.candidates, strip.height, strip.width;
    BestSoFarSpec(cs, h, w);
  }

  /** `match_templates_in_row`: the selection loop over the templates, then the threshold. */
  method MatchTemplatesInRow(strip: RowStrip, thresh: real) returns (m: Match)
    ensures m == Select(strip, thresh)
    ensures strip.candidates == [] ==> m == NoMatch
  {
    var cs := strip.candidates;
    if |cs| == 0 {
      assert cs[..0] == cs;
      return NoMatch;
    }
    var bestName := "unknown";
    var bestScore := 0.0;
    var bestX: Option<int> := None;
    var i := 0;
    while i < |cs|
      invariant 0 <= i <= |cs|
      invariant Match(bestName, bestScore, bestX) == BestSoFar(cs[..i], strip.height, strip.width)
    {
      var c := cs[i];
      assert cs[..i + 1][..i] == cs[..i] && cs[..i + 1][i] == c;
      if c.height != strip.height || c.width > strip.width {
        i := i + 1;
        continue;
      }
      if c.score > bestScore {
        bestScore := c.score;
        bestName := c.name;
        bestX := Some(c.x);
      }
      i := i + 1;
    }
    assert cs[..i] == cs;
    if bestScore < thresh {
      return Match("unknown", bestScore, None);
    }
    return Match(bestName, bestScore, bestX);
  }

  // ------------------------------------------------------------ pages

  datatype ExtractedRow = ExtractedRow(rowIndex: int, symbol: string, symbolScore: real, suoja: string)

  datatype ExtractedPage = ExtractedPage(pageNumber: int, rows: seq<ExtractedRow>)

  datatype ExtractionResult = ExtractionResult(status: string, filename: string, totalPages: int, totalRows: int, pages: seq<ExtractedPage>)

  /**
   * What a page image supplies: its line mask (one entry per scan line,
   * top to bottom), the prepared symbol strip of each band, and the
   * protection text read from each band.
   */
  datatype PageImage = PageImage(lineMask: seq<bool>, strip: Band -> RowStrip, suojaText: Band -> string)

  /** The row reported for band `b` at position `idx`. */
  function RowFor(img: PageImage, idx: int, b: Band): ExtractedRow {
    var m := Select(img.strip(b), MatchThresh);
    ExtractedRow(idx, m.name, m.score, img.suojaText(b))
  }

  /** The rows of bands `bs`, numbered from 1. */
  function PageRows(img: PageImage, bs: seq<Band>): seq<ExtractedRow> {
    if bs == [] then [] else PageRows(img, bs[..|bs| - 1]) + [RowFor(img, |bs|, bs[|bs| - 1])]
  }

  /** One row per band, in band order, with row indices 1, 2, … */
  lemma {:induction false} PageRowsAt(img: PageImage, bs: seq<Band>)
    ensures |PageRows(img, bs)| == |bs|
    ensures forall k :: 0 <= k < |bs| ==> PageRows(img, bs)[k] == RowFor(img, k + 1, bs[k])
  {
    if bs != [] {
      PageRowsAt(img, bs[..|bs| - 1]);
    }
  }

  lemma PageRowsSnoc(img: PageImage, bs: seq<Band>, i: nat)
    requires i < |bs|
    ensures PageRows(img, bs[..i + 1]) == PageRows(img, bs[..i]) + [RowFor(img, i + 1, bs[i])]
  {
    assert bs[..i + 1][..i] == bs[..i];
  }

  /** The page extracted from `img` as page `pageNumber`. */
  function PageOf(img: PageImage, pageNumber: int): ExtractedPage {
    ExtractedPage(pageNumber, PageRows(img, DetectedBands(img.lineMask)))
  }

  /** `extract_page`: one row per detected band, top to bottom. */
  method ExtractPage(img: PageImage, pageNumber: int) returns (page: ExtractedPage)
    ensures page == PageOf(img, pageNumber)
  {
    var rowBands := DetectRowBounds(img.lineMask);
    SortedBandsUnchanged(img.lineMask);
    var bs := SortBy(rowBands, TopOf);
    var rows: seq<ExtractedRow> := [];
    var i := 0;
    while i < |bs|
      invariant 0 <= i <= |bs|
      invariant rows == PageRows(img, bs[..i])
    {
      var idx := i + 1;
      var b := bs[i];
      var m := MatchTemplatesInRow(img.strip(b), MatchThresh);
      PageRowsSnoc(img, bs, i);
      rows := rows + [ExtractedRow(idx, m.name, m.score, img.suojaText(b))];
      i := i + 1;
    }
    assert bs[..i] == bs;
    page := ExtractedPage(pageNumber, rows);
  }

  /** Row `k` of a page is band `k` of the page, numbered `k + 1`, with the template selection and the OCR text of that band. */
  lemma ExtractedPageRows(img: PageImage, pageNumber: int)
    ensures |PageOf(img, pageNumber).rows| == |DetectedBands(img.lineMask)|
    ensures forall k :: 0 <= k < |DetectedBands(img.lineMask)| ==>
      var b := DetectedBands(img.lineMask)[k];
      var r := PageOf(img, pageNumber).rows[k];
      && r.rowIndex == k + 1
      && r.symbol == Select(img.strip(b), MatchThresh).name
      && r.suoja == img.suojaText(b)
  {
    PageRowsAt(img, DetectedBands(img.lineMask));
  }

  /** The pages of `imgs`: page `k` is image `k` extracted as page `k + 1`. */
  function Pages(imgs: seq<PageImage>): (pages: seq<ExtractedPage>)
    ensures |pages| == |imgs|
    ensures forall k :: 0 <= k < |pages| ==> pages[k].pageNumber == k + 1
  {
    seq(|imgs|, k requires 0 <= k < |imgs| => PageOf(imgs[k], k + 1))
  }

  /** The number of rows over `pages`. */
  function RowCount(pages: seq<ExtractedPage>): int {
    if pages == [] then 0 else RowCount(pages[..|pages| - 1]) + |pages[|pages| - 1].rows|
  }

  /** The number of detected bands over `imgs`. */
  function BandCount(imgs: seq<PageImage>): int {
    if imgs == [] then 0 else BandCount(imgs[..|imgs| - 1]) + |DetectedBands(imgs[|imgs| - 1].lineMask)|
  }

  lemma PagesSnoc(imgs: seq<PageImage>, i: nat)
    requires i < |imgs|
    ensures Pages(imgs[..i + 1]) == Pages(imgs[..i]) + [PageOf(imgs[i], i + 1)]
  {
    var l, r := Pages(imgs[..i + 1]), Pages(imgs[..i]) + [PageOf(imgs[i], i + 1)];
    forall k | 0 <= k < |l| ensures l[k] == r[k] {
      if k < i {
        assert imgs[..i + 1][k] == imgs[..i][k];
      }
    }
  }

  lemma RowCountSnoc(pages: seq<ExtractedPage>, p: ExtractedPage)
    ensures RowCount(pages + [p]) == RowCount(pages) + |p.rows|
  {
    assert (pages + [p])[..|pages|] == pages;
  }

  /** As many rows in all as bands were detected. */
  lemma {:induction false} PagesRowCount(imgs: seq<PageImage>)
    ensures RowCount(Pages(imgs)) == BandCount(imgs)
  {
    if imgs != [] {
      var n := |imgs| - 1;
      PagesRowCount(imgs[..n]);
      ExtractedPageRows(imgs[n], n + 1);
      PagesSnoc(imgs, n);
      assert imgs[..n + 1] == imgs;
      RowCountSnoc(Pages(imgs[..n]), PageOf(imgs[n], n + 1));
    }
  }

  /**
   * `extract_from_pdf_bytes`, with the rasterised pages as input (`None`
   * when the conversion fails): an error result with no pages on failure,
   * otherwise every page extracted in order and the rows counted.
   */
  method ExtractFromPdfBytes(filename: string, images: Option<seq<PageImage>>) returns (result: ExtractionResult)
    ensures images.None? ==> result == ExtractionResult("error", filename, 0, 0, [])
    ensures images.Some? ==> result == ExtractionResult("success", filename, |images.value|, RowCount(Pages(images.value)), Pages(images.value))
  {
    if images.None? {
      return ExtractionResult("error", filename, 0, 0, []);
    }
    var imgs := images.value;
    var pages: seq<ExtractedPage> := [];
    var totalRows := 0;
    var i := 0;
    while i < |imgs|
      invariant 0 <= i <= |imgs|
      invariant pages == Pages(imgs[..i])
      invariant totalRows == RowCount(pages)
    {
      var pageNum := i + 1;
      var extractedPage := ExtractPage(imgs[i], pageNum);
      PagesSnoc(imgs, i);
      RowCountSnoc(pages, extractedPage);
      pages := pages + [extractedPage];
      totalRows := totalRows + |extractedPage.rows|;
      i := i + 1;
    }
    assert imgs[..i] == imgs;
    result := ExtractionResult("success", filename, |imgs|, totalRows, pages);
  }

  /** `total_rows` of a successful extraction is the number of bands detected over all pages. */
  lemma ExtractionTotals(imgs: seq<PageImage>)
    ensures RowCount(Pages(imgs)) == BandCount(imgs)
  {
    PagesRowCount(imgs);
  }
}
