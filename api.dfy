/**
 * The back-end's table reader and its upload checks: the rows of the
 * tables found on each PDF page become devices (with the text lines of a
 * page standing in when it has no tables), and every upload endpoint first
 * checks that a `.pdf` filename was given. The PDF parser is foreign: the
 * tables and the text of every page are inputs.
 */
module Api {
  import opened Wrappers
  import opened Text
  import opened Options

  /** A table cell; pdfplumber gives `None` for a missing one. */
  type Cell = Option<string>

  type TableRow = seq<Cell>

  type Table = seq<TableRow>

  /** What the parser gives for a page: its tables, and its text (`None` when it has none). */
  datatype PdfPage = PdfPage(tables: seq<Table>, text: Option<string>)

  datatype DeviceRow = DeviceRow(
    id: string,
    pageNumber: int,
    rowNumber: int,
    symbol: string,
    nro: string,
    kuvateksti: string,
    suoja: string,
    kaapeli: string)

  datatype ExtractedData = ExtractedData(filename: string, totalPages: int, totalDevices: int, devices: seq<DeviceRow>)

  const PlaceholderSymbol: string := "/symbols/device.svg"

  /** `str(cell or "").strip()`. */
  function CellText(c: Cell): string {
    if c.Some? then StripPy(c.value) else ""
  }

  /** `f"{page_num}-{row_num}"`. */
  function DeviceId(page: nat, row: nat): string {
    NatToString(page) + "-" + NatToString(row)
  }

  // ------------------------------------------------------------ tables

  /** The device of table row `row` at position `rowNum`, or nothing for a row of fewer than four cells. */
  function TableRowDevice(page: nat, rowNum: nat, row: TableRow): Option<DeviceRow> {
    if |row| < 4 then None
    else Some(DeviceRow(DeviceId(page, rowNum), page, rowNum, PlaceholderSymbol,
      Take(CellText(row[0]), 4), CellText(row[1]), Take(CellText(row[2]), 6), Take(CellText(row[3]), 14)))
  }

  /** A table row's device: its fields are the stripped cells, the number cut to 4 characters, the protection to 6 and the cable to 14. */
  lemma TableRowDeviceSpec(page: nat, rowNum: nat, row: TableRow)
    ensures TableRowDevice(page, rowNum, row).None? <==> |row| < 4
    ensures TableRowDevice(page, rowNum, row).Some? ==>
      var d := TableRowDevice(page, rowNum, row).value;
      && d.id == DeviceId(page, rowNum) && d.pageNumber == page && d.rowNumber == rowNum
      && |d.nro| <= 4 && Take(CellText(row[0]), 4) == d.nro && d.nro == CellText(row[0])[..|d.nro|]
      && d.kuvateksti == CellText(row[1])
      && |d.suoja| <= 6 && d.suoja == CellText(row[2])[..|d.suoja|]
      && |d.kaapeli| <= 14 && d.kaapeli == CellText(row[3])[..|d.kaapeli|]
  {
  }

  /** The candidate device of every row of `table`, by position from 1. */
  function RowDevices(page: nat, table: Table): (opts: seq<Option<DeviceRow>>)
    ensures |opts| == |table|
  {
    seq(|table|, k requires 0 <= k < |table| => TableRowDevice(page, k + 1, table[k]))
  }

  /** The devices of one table, rows numbered by position from 1, short rows left out. */
  function TableDevices(page: nat, table: Table): seq<DeviceRow> {
    Present(RowDevices(page, table))
  }

  function RowNumberOf(d: DeviceRow): int { d.rowNumber }

  lemma RowDevicesIndexed(page: nat, table: Table)
    ensures Indexed(RowDevices(page, table), RowNumberOf)
    ensures forall k :: 0 <= k < |table| ==> (RowDevices(page, table)[k].Some? <==> |table[k]| >= 4)
    ensures forall k :: 0 <= k < |table| && RowDevices(page, table)[k].Some? ==> RowDevices(page, table)[k].value.pageNumber == page
  {
  }

  /**
   * One device per row of at least four cells, in row order: every device
   * is the device of the row at its own row number, so a skipped row still
   * takes its number, and every long enough row has its device.
   */
  lemma TableDevicesSpec(page: nat, table: Table)
    ensures forall k :: 0 <= k < |TableDevices(page, table)| ==>
      AtOwnIndex(RowDevices(page, table), RowNumberOf, TableDevices(page, table)[k])
    ensures forall i, j :: 0 <= i < j < |TableDevices(page, table)| ==>
      TableDevices(page, table)[i].rowNumber < TableDevices(page, table)[j].rowNumber
    ensures forall k :: 0 <= k < |table| && |table[k]| >= 4 ==>
      TableRowDevice(page, k + 1, table[k]).Some? && TableRowDevice(page, k + 1, table[k]).value in TableDevices(page, table)
  {
    var opts := RowDevices(page, table);
    RowDevicesIndexed(page, table);
    PresentAtOwnIndex(opts, RowNumberOf);
    PresentIncreasing(opts, RowNumberOf);
    TableRowsKept(page, table);
  }

  /** Every row of at least four cells has its device among the table's devices. */
  lemma TableRowsKept(page: nat, table: Table)
    ensures forall k :: 0 <= k < |table| && |table[k]| >= 4 ==>
      TableRowDevice(page, k + 1, table[k]).Some? && TableRowDevice(page, k + 1, table[k]).value in TableDevices(page, table)
  {
    var opts := RowDevices(page, table);
    PresentComplete(opts);
    forall k | 0 <= k < |table| && |table[k]| >= 4
      ensures TableRowDevice(page, k + 1, table[k]).Some? && TableRowDevice(page, k + 1, table[k]).value in TableDevices(page, table)
    {
      RowDeviceAt(page, table, k);
    }
  }

  /** Position `k` of a table's options is the device of its row `k + 1`. */
  lemma RowDeviceAt(page: nat, table: Table, k: nat)
    requires k < |table|
    ensures RowDevices(page, table)[k] == TableRowDevice(page, k + 1, table[k])
  {
    if |table[k]| >= 4 {
      assert RowDevices(page, table)[k].Some?;
    }
  }

  /** The devices of the tables `tables` of a page, table after table. */
  function TablesDevices(page: nat, tables: seq<Table>): seq<DeviceRow> {
    if tables == [] then []
    else TablesDevices(page, tables[..|tables| - 1]) + TableDevices(page, tables[|tables| - 1])
  }

  // ------------------------------------------------------------ text fallback

  /** `[l.strip() for l in lines if l.strip()]`. */
  function NonBlank(lines: seq<string>): seq<string> {
    if lines == [] then []
    else
      var l := StripPy(lines[|lines| - 1]);
      NonBlank(lines[..|lines| - 1]) + (if l != "" then [l] else [])
  }

  /** The stripped non-blank lines of `text`. */
  function TextLines(text: string): seq<string> {
    NonBlank(Split(text, '\n'))
  }

  /** `lines[:10]`. */
  function FirstTen(lines: seq<string>): (r: seq<string>)
    ensures |r| <= 10 && |r| <= |lines| && r == lines[..|r|]
    ensures |lines| <= 10 ==> r == lines
    ensures |lines| > 10 ==> |r| == 10
  {
    if |lines| <= 10 then lines else lines[..10]
  }

  /** The placeholder device of text line `line` at position `rowNum`. */
  function LineDevice(page: nat, rowNum: nat, line: string): DeviceRow {
    DeviceRow(DeviceId(page, rowNum), page, rowNum, PlaceholderSymbol, Pad2(page) + Pad2(rowNum), Take(line, 64), "", "")
  }

  function LineDevices(page: nat, lines: seq<string>): (ds: seq<DeviceRow>)
    ensures |ds| == |lines|
  {
    seq(|lines|, k requires 0 <= k < |lines| => LineDevice(page, k + 1, lines[k]))
  }

  /** Position `k` of a line list's devices is the device of line `k + 1`. */
  lemma LineDeviceAt(page: nat, lines: seq<string>, k: nat)
    requires k < |lines|
    ensures LineDevices(page, lines)[k] == LineDevice(page, k + 1, lines[k])
  {
    var ds := LineDevices(page, lines);
    assert ds[k].rowNumber == k + 1;
  }

  /** The devices of a page without tables: none without text, otherwise one per line of the first ten stripped non-blank lines. */
  function TextDevices(page: nat, text: Option<string>): seq<DeviceRow> {
    if text.None? || text.value == "" then [] else LineDevices(page, FirstTen(TextLines(text.value)))
  }

  /** The lines kept are stripped and non-blank. */
  lemma NonBlankSpec(lines: seq<string>)
    ensures |NonBlank(lines)| <= |lines|
    ensures forall k :: 0 <= k < |NonBlank(lines)| ==> NonBlank(lines)[k] != "" && StripPy(NonBlank(lines)[k]) == NonBlank(lines)[k]
  {
    NonBlankLength(lines);
    NonBlankStripped(lines);
  }

  /** At most one kept line per line. */
  lemma {:induction false} NonBlankLength(lines: seq<string>)
    ensures |NonBlank(lines)| <= |lines|
  {
    if lines != [] {
      NonBlankLength(lines[..|lines| - 1]);
    }
  }

  /** Every kept line is non-blank and already stripped. */
  lemma {:induction false} NonBlankStripped(lines: seq<string>)
    ensures forall k :: 0 <= k < |NonBlank(lines)| ==> NonBlank(lines)[k] != "" && StripPy(NonBlank(lines)[k]) == NonBlank(lines)[k]
  {
    if lines != [] {
      var init, last := lines[..|lines| - 1], lines[|lines| - 1];
      var l := StripPy(last);
      NonBlankStripped(init);
      var a, r := NonBlank(init), NonBlank(lines);
      if l == "" {
        assert r == a;
      } else {
        TrimIdempotent(last, IsPySpace);
        assert r == a + [l];
        forall k | 0 <= k < |r| ensures r[k] != "" && StripPy(r[k]) == r[k] {
          if k < |a| {
            assert r[k] == a[k];
          } else {
            assert r[k] == l;
          }
        }
      }
    }
  }

  /** A text line's device: NRo the two-digit page followed by the two-digit row, the line cut to 64 characters, empty protection and cable. */
  lemma LineDeviceSpec(page: nat, rowNum: nat, line: string)
    ensures var d := LineDevice(page, rowNum, line);
      && d.id == DeviceId(page, rowNum) && d.pageNumber == page && d.rowNumber == rowNum
      && d.nro == Pad2(page) + Pad2(rowNum)
      && |d.kuvateksti| <= 64 && d.kuvateksti == line[..|d.kuvateksti|] && (line != "" ==> d.kuvateksti != "")
      && d.suoja == "" && d.kaapeli == ""
  {
  }

  /** The text fallback gives at most ten devices, the `k`-th from the `k`-th stripped non-blank line of the text, numbered `k + 1`. */
  lemma TextDevicesSpec(page: nat, text: string)
    requires text != ""
    ensures |TextDevices(page, Some(text))| == if |TextLines(text)| <= 10 then |TextLines(text)| else 10
    ensures forall k :: 0 <= k < |TextDevices(page, Some(text))| ==>
      TextDevices(page, Some(text))[k] == LineDevice(page, k + 1, TextLines(text)[k])
      && TextLines(text)[k] != "" && StripPy(TextLines(text)[k]) == TextLines(text)[k]
  {
    var lines := TextLines(text);
    var ds := TextDevices(page, Some(text));
    FirstTenDevices(page, lines);
    assert ds == LineDevices(page, FirstTen(lines));
    NonBlankSpec(Split(text, '\n'));
  }

  /** The devices of the first ten lines: the `k`-th from line `k`, numbered `k + 1`. */
  lemma FirstTenDevices(page: nat, lines: seq<string>)
    ensures |LineDevices(page, FirstTen(lines))| == if |lines| <= 10 then |lines| else 10
    ensures forall k :: 0 <= k < |LineDevices(page, FirstTen(lines))| ==>
      k < |lines| && LineDevices(page, FirstTen(lines))[k] == LineDevice(page, k + 1, lines[k])
  {
    var top := FirstTen(lines);
    var ds := LineDevices(page, top);
    forall k | 0 <= k < |ds| ensures k < |lines| && ds[k] == LineDevice(page, k + 1, lines[k]) {
      LineDeviceAt(page, top, k);
      assert top[k] == lines[k];
    }
  }

  // ------------------------------------------------------------ pages

  /** The devices of page `page`: from its tables when it has any, otherwise from its text. */
  function PageDevices(p: PdfPage, page: nat): seq<DeviceRow> {
    if p.tables != [] then TablesDevices(page, p.tables) else TextDevices(page, p.text)
  }

  /** The devices of all pages, numbered from 1. */
  function AllDevices(pages: seq<PdfPage>): seq<DeviceRow> {
    if pages == [] then []
    else AllDevices(pages[..|pages| - 1]) + PageDevices(pages[|pages| - 1], |pages|)
  }

  lemma TableDevicesOnPage(page: nat, table: Table)
    ensures forall d :: d in TableDevices(page, table) ==> d.pageNumber == page
  {
    var opts := RowDevices(page, table);
    RowDevicesIndexed(page, table);
    PresentAtOwnIndex(opts, RowNumberOf);
    var ds := TableDevices(page, table);
    forall d | d in ds ensures d.pageNumber == page {
      var k :| 0 <= k < |ds| && ds[k] == d;
      assert AtOwnIndex(opts, RowNumberOf, d);
      assert opts[d.rowNumber - 1] == Some(d);
    }
  }

  lemma {:induction false} TablesDevicesOnPage(page: nat, tables: seq<Table>)
    ensures forall d :: d in TablesDevices(page, tables) ==> d.pageNumber == page
  {
    if tables != [] {
      TablesDevicesOnPage(page, tables[..|tables| - 1]);
      TableDevicesOnPage(page, tables[|tables| - 1]);
    }
  }

  /** Every device of a page carries that page's number. */
  lemma PageDevicesOnPage(p: PdfPage, page: nat)
    ensures forall d :: d in PageDevices(p, page) ==> d.pageNumber == page
  {
    TablesDevicesOnPage(page, p.tables);
  }

  /** Every device comes from the page its number names, and page numbers run from 1. */
  lemma AllDevicesFromPages(pages: seq<PdfPage>)
    ensures forall d :: d in AllDevices(pages) ==>
      1 <= d.pageNumber <= |pages| && d in PageDevices(pages[d.pageNumber - 1], d.pageNumber)
  {
    forall d | d in AllDevices(pages)
      ensures 1 <= d.pageNumber <= |pages| && d in PageDevices(pages[d.pageNumber - 1], d.pageNumber)
    {
      DeviceFromPage(pages, d);
    }
  }

  /** One device of all pages comes from the page its number names. */
  lemma {:induction false} DeviceFromPage(pages: seq<PdfPage>, d: DeviceRow)
    requires d in AllDevices(pages)
    ensures 1 <= d.pageNumber <= |pages| && d in PageDevices(pages[d.pageNumber - 1], d.pageNumber)
  {
    var n := |pages| - 1;
    var prev, last := AllDevices(pages[..n]), PageDevices(pages[n], n + 1);
    assert AllDevices(pages) == prev + last;
    if d in prev {
      DeviceFromPage(pages[..n], d);
      assert pages[..n][d.pageNumber - 1] == pages[d.pageNumber - 1];
    } else {
      PageDevicesOnPage(pages[n], n + 1);
    }
  }

  /** A full row alone in a table gives one device, numbered 1. */
  lemma SingleRowTable(page: nat, row: TableRow)
    requires |row| >= 4
    ensures TableDevices(page, [row]) == [TableRowDevice(page, 1, row).value]
  {
    var opts := RowDevices(page, [row]);
    assert opts == [TableRowDevice(page, 1, row)];
    assert opts[..0] == [];
    assert Present(opts) == Present(opts[..0]) + [opts[0].value];
  }

  /** `1-1`. */
  lemma FirstDeviceId()
    ensures DeviceId(1, 1) == "1-1"
  {
    assert NatToString(1) == "1";
  }

  /** Ids are not unique: two tables on one page, each with a full first row, give two devices with the same id `1-1`. */
  lemma RepeatedIds(row: TableRow)
    requires |row| >= 4
    ensures |PageDevices(PdfPage([[row], [row]], None), 1)| == 2
    ensures PageDevices(PdfPage([[row], [row]], None), 1)[0].id == PageDevices(PdfPage([[row], [row]], None), 1)[1].id == "1-1"
  {
    var t: Table := [row];
    var ts: seq<Table> := [t, t];
    assert ts[..1] == [t];
    assert [t][..0] == [];
    SingleRowTable(1, row);
    assert TablesDevices(1, [t]) == TableDevices(1, t);
    assert TablesDevices(1, ts) == TableDevices(1, t) + TableDevices(1, t);
    FirstDeviceId();
  }

  lemma TableDevicesSnoc(page: nat, table: Table, i: nat)
    requires i < |table|
    ensures TableDevices(page, table[..i + 1]) ==
      TableDevices(page, table[..i]) + (if |table[i]| >= 4 then [TableRowDevice(page, i + 1, table[i]).value] else [])
  {
    var o1, o0 := RowDevices(page, table[..i + 1]), RowDevices(page, table[..i]);
    assert o1[..i] == o0;
    PresentSnoc(o1, i);
  }

  lemma TablesDevicesSnoc(page: nat, tables: seq<Table>, i: nat)
    requires i < |tables|
    ensures TablesDevices(page, tables[..i + 1]) == TablesDevices(page, tables[..i]) + TableDevices(page, tables[i])
  {
    assert tables[..i + 1][..i] == tables[..i];
  }

  lemma AllDevicesSnoc(pages: seq<PdfPage>, i: nat)
    requires i < |pages|
    ensures AllDevices(pages[..i + 1]) == AllDevices(pages[..i]) + PageDevices(pages[i], i + 1)
  {
    assert pages[..i + 1][..i] == pages[..i];
  }

  lemma LineDevicesSnoc(page: nat, lines: seq<string>, i: nat)
    requires i < |lines|
    ensures LineDevices(page, lines[..i + 1]) == LineDevices(page, lines[..i]) + [LineDevice(page, i + 1, lines[i])]
  {
    var a, c := LineDevices(page, lines[..i + 1]), LineDevices(page, lines[..i]);
    var x := LineDevice(page, i + 1, lines[i]);
    forall k | 0 <= k < i ensures a[k] == c[k] {
      LineDeviceAt(page, lines[..i + 1], k);
      LineDeviceAt(page, lines[..i], k);
      assert lines[..i + 1][k] == lines[..i][k];
    }
    assert a[i] == x by {
      LineDeviceAt(page, lines[..i + 1], i);
      assert lines[..i + 1][i] == lines[i];
    }
    assert a[..i] == c;
    assert a == a[..i] + [a[i]];
  }

  /** The rows of one table, appended to `devices`. */
  method AppendTable(devices: seq<DeviceRow>, pageNum: nat, table: Table) returns (out: seq<DeviceRow>)
    ensures out == devices + TableDevices(pageNum, table)
  {
    out := devices;
    var i := 0;
    while i < |table|
      invariant 0 <= i <= |table|
      invariant out == devices + TableDevices(pageNum, table[..i])
    {
      var rowNum := i + 1;
      var row := table[i];
      TableDevicesSnoc(pageNum, table, i);
      if |row| == 0 || |row| < 4 {
        i := i + 1;
        continue;
      }
      var device := DeviceRow(DeviceId(pageNum, rowNum), pageNum, rowNum, PlaceholderSymbol,
        Take(CellText(row[0]), 4), CellText(row[1]), Take(CellText(row[2]), 6),
        if |row| > 3 then Take(CellText(row[3]), 14) else "");
      out := out + [device];
      i := i + 1;
    }
    assert table[..i] == table;
  }

  /** The text lines of a page without tables, appended to `devices`. */
  method AppendTextLines(devices: seq<DeviceRow>, pageNum: nat, text: Option<string>) returns (out: seq<DeviceRow>)
    ensures out == devices + TextDevices(pageNum, text)
  {
    out := devices;
    if text.Some? && text.value != "" {
      var lines := FirstTen(TextLines(text.value));
      out := AppendLines(out, pageNum, lines);
    }
  }

  /** The devices of `lines`, numbered from 1, appended to `devices`. */
  method AppendLines(devices: seq<DeviceRow>, pageNum: nat, lines: seq<string>) returns (out: seq<DeviceRow>)
    ensures out == devices + LineDevices(pageNum, lines)
  {
    out := devices;
    var i := 0;
    while i < |lines|
      invariant 0 <= i <= |lines|
      invariant out == devices + LineDevices(pageNum, lines[..i])
    {
      var rowNum := i + 1;
      LineDevicesSnoc(pageNum, lines, i);
      var device := DeviceRow(DeviceId(pageNum, rowNum), pageNum, rowNum, PlaceholderSymbol,
        Pad2(pageNum) + Pad2(rowNum), Take(lines[i], 64), "", "");
      out := out + [device];
      i := i + 1;
    }
    assert lines[..i] == lines;
  }

  /** One page: the rows of every table when there are tables, otherwise the text lines, appended to `devices`. */
  method AppendPage(devices: seq<DeviceRow>, pageNum: nat, page: PdfPage) returns (out: seq<DeviceRow>)
    ensures out == devices + PageDevices(page, pageNum)
  {
    out := devices;
    if |page.tables| > 0 {
      var t := 0;
      while t < |page.tables|
        invariant 0 <= t <= |page.tables|
        invariant out == devices + TablesDevices(pageNum, page.tables[..t])
      {
        TablesDevicesSnoc(pageNum, page.tables, t);
        out := AppendTable(out, pageNum, page.tables[t]);
        t := t + 1;
      }
      assert page.tables[..t] == page.tables;
    } else {
      out := AppendTextLines(out, pageNum, page.text);
    }
  }

  /** `extract_pdf_data`, over the parsed pages: every page's devices in page order, counted. */
  method ExtractPdfData(filename: string, pages: seq<PdfPage>) returns (data: ExtractedData)
    ensures data == ExtractedData(filename, |pages|, |AllDevices(pages)|, AllDevices(pages))
  {
    var devices: seq<DeviceRow> := [];
    var totalPages := |pages|;
    var i := 0;
    while i < |pages|
      invariant 0 <= i <= |pages|
      invariant devices == AllDevices(pages[..i])
    {
      var pageNum := i + 1;
      AllDevicesSnoc(pages, i);
      devices := AppendPage(devices, pageNum, pages[i]);
      i := i + 1;
    }
    assert pages[..i] == pages;
    data := ExtractedData(filename, totalPages, |devices|, devices);
  }

  // ------------------------------------------------------------ uploads

  datatype HttpError = HttpError(status: int, detail: string)

  /** The filename check every upload endpoint makes first: a missing or empty name, then a name not ending in `.pdf` in any letter case, is a 400. */
  function CheckFilename(filename: Option<string>): Option<HttpError> {
    if filename.None? || filename.value == "" then Some(HttpError(400, "No filename provided"))
    else if !EndsWith(Lower(filename.value), ".pdf") then Some(HttpError(400, "Only PDF files are allowed"))
    else None
  }

  /** The last four characters of `name` spell `.pdf` in some letter case. */
  predicate PdfExtension(name: string) {
    |name| >= 4 && name[|name| - 4] == '.'
    && LowerChar(name[|name| - 3]) == 'p' && LowerChar(name[|name| - 2]) == 'd' && LowerChar(name[|name| - 1]) == 'f'
  }

  /** A name is accepted iff it is given and ends in `.pdf` ignoring case; a name is rejected as missing iff it is absent or empty. */
  lemma CheckFilenameSpec(filename: Option<string>)
    ensures CheckFilename(filename).None? <==> filename.Some? && PdfExtension(filename.value)
    ensures CheckFilename(filename) == Some(HttpError(400, "No filename provided")) <==> filename.None? || filename.value == ""
  {
    if filename.Some? && filename.value != "" {
      var name := filename.value;
      var low := Lower(name);
      if |name| >= 4 {
        assert low[|low| - 4..] == [low[|low| - 4], low[|low| - 3], low[|low| - 2], low[|low| - 1]];
      }
    }
  }
}
