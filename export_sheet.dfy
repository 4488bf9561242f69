/**
 * The spreadsheet export of the current summary page. One sheet holds, top
 * to bottom: a title row, the summary header and one row per aggregated
 * item, a TOTAL row, the protection breakdown with its percentages, and
 * the header and rows of all extracted devices. Which columns exist depends
 * on two switches: whether cables are shown and whether protection values
 * are split into input and output. Columns are numbered from 0 (column A);
 * a row is a map from column to cell, as the source's objects keyed by
 * column letter are.
 */
module ExportSheet {
  import opened Wrappers
  import opened Text
  import opened HookTypes
  import opened Suoja
  import Aggregation

  /** A spreadsheet cell: text or a number. */
  datatype Cell = Str(s: string) | Num(n: int)

  type Row = map<nat, Cell>

  /** The row occupies exactly columns A up to, not including, `n`. */
  ghost predicate Spans(row: Row, n: nat) {
    forall c: nat :: c in row <==> c < n
  }

  /** The row holding `cells` in columns A, B, ... in order. */
  function RowFromCells(cells: seq<Cell>): Row {
    map c: nat | c < |cells| :: cells[c]
  }

  lemma RowFromCellsAt(cells: seq<Cell>)
    ensures Spans(RowFromCells(cells), |cells|)
    ensures forall c :: 0 <= c < |cells| ==> RowFromCells(cells)[c] == cells[c]
  {
  }

  /** Writing the next column of a row extends its cells by one. */
  lemma Placed(row: Row, cells: seq<Cell>, x: Cell)
    requires row == RowFromCells(cells)
    ensures row[|cells| := x] == RowFromCells(cells + [x])
  {
  }

  /** A row written from A to D at once is the row of those four cells. */
  lemma FrontRow(cells: seq<Cell>)
    requires |cells| == 4
    ensures map[0 := cells[0], 1 := cells[1], 2 := cells[2], 3 := cells[3]] == RowFromCells(cells)
  {
  }

  /** Some column of `row` holds `cell`. */
  predicate HasCell(row: Row, cell: Cell) {
    exists c :: c in row && row[c] == cell
  }

  // ---------------------------------------------------------- summary block

  /** The protection titles: "Suoja Input" and "Suoja Output" when values are split, "Suoja" otherwise. */
  function SuojaTitles(separate: bool): seq<Cell> {
    if separate then [Str("Suoja Input"), Str("Suoja Output")] else [Str("Suoja")]
  }

  /** The protection cells of a value: its input part and its output part (empty when there is none) when values are split, the whole value otherwise. */
  function SuojaCells(suoja: string, separate: bool): seq<Cell> {
    SuojaCellsOf(ParseSuoja(suoja, separate), suoja, separate)
  }

  function SuojaCellsOf(p: SuojaParts, suoja: string, separate: bool): seq<Cell> {
    if separate then [Str(p.input), Str(OutputText(p))] else [Str(suoja)]
  }

  /** The summary header from A on: Type, the protection titles, Cable Types when cables are shown, Quantity. */
  function SummaryHeaderCells(showCable: bool, separate: bool): seq<Cell> {
    [Str("Type")] + SuojaTitles(separate) + (if showCable then [Str("Cable Types")] else []) + [Str("Quantity")]
  }

  function SummaryHeader(showCable: bool, separate: bool): Row {
    RowFromCells(SummaryHeaderCells(showCable, separate))
  }

  /** The column of the quantities: after A, the one or two protection columns and the cable column when shown. */
  function QuantityIndex(showCable: bool, separate: bool): nat {
    1 + (if separate then 2 else 1) + (if showCable then 1 else 0)
  }

  /** The marker appended to the cable cell of an item whose cables disagree (U+26A0 U+FE0F is the warning sign emoji). */
  const MismatchMarker: string := " \U{26A0}\U{FE0F} MISMATCH"

  /** The cable cell: the cable types joined with ", ", followed by the marker exactly when the item has a cable mismatch. */
  function CableText(item: AggregatedItem): (s: string)
    ensures var joined := Join(item.kaapeliTypes, ", ");
      && |joined| <= |s| && s[..|joined|] == joined
      && (item.hasCableMismatch ==> s[|joined|..] == MismatchMarker)
      && (!item.hasCableMismatch ==> s == joined)
  {
    var joined := Join(item.kaapeliTypes, ", ");
    var s := joined + (if item.hasCableMismatch then MismatchMarker else "");
    assert s[..|joined|] == joined;
    s
  }

  /** An item's cells from A on: its icons joined with " + ", its protection cells, its cable cell when cables are shown, its count. */
  function ItemCells(item: AggregatedItem, showCable: bool, separate: bool): seq<Cell> {
    [Str(Join(item.icons, " + "))] + SuojaCells(item.suoja, separate)
      + (if showCable then [Str(CableText(item))] else []) + [Num(item.count)]
  }

  function ItemRow(item: AggregatedItem, showCable: bool, separate: bool): Row {
    RowFromCells(ItemCells(item, showCable, separate))
  }

  /** The column of the TOTAL label: C when protection values are split, B otherwise, one further right when cables are shown. */
  function TotalIndex(showCable: bool, separate: bool): nat {
    (if separate then 2 else 1) + (if showCable then 1 else 0)
  }

  function TotalRow(totalCount: nat, showCable: bool, separate: bool): Row {
    var t := TotalIndex(showCable, separate);
    map[t := Str("TOTAL:"), t + 1 := Num(totalCount)]
  }

  /** The summary header is Type, then Suoja Input and Suoja Output or just Suoja, then Cable Types exactly when cables are shown, then Quantity, with no gaps. */
  lemma {:induction false} SummaryHeaderLayout(showCable: bool, separate: bool)
    ensures var h, q := SummaryHeader(showCable, separate), QuantityIndex(showCable, separate);
      && Spans(h, q + 1)
      && h[0] == Str("Type")
      && h[1] == Str(if separate then "Suoja Input" else "Suoja")
      && (separate ==> h[2] == Str("Suoja Output"))
      && (showCable ==> h[q - 1] == Str("Cable Types"))
      && (HasCell(h, Str("Cable Types")) <==> showCable)
      && h[q] == Str("Quantity")
  {
    var cells := SummaryHeaderCells(showCable, separate);
    var h, q := SummaryHeader(showCable, separate), QuantityIndex(showCable, separate);
    assert |cells| == q + 1;
    RowFromCellsAt(cells);
    if HasCell(h, Str("Cable Types")) {
      var c :| c in h && h[c] == Str("Cable Types");
      assert cells[c] == Str("Cable Types");
    }
  }

  /**
   * An item row fills exactly the header's columns: the icons joined with
   * " + " in A, the protection value (or its input and output parts, empty
   * when there is no output) next, the cable cell when cables are shown,
   * and the count under Quantity.
   */
  lemma {:induction false} ItemRowLayout(item: AggregatedItem, showCable: bool, separate: bool)
    ensures var r, q := ItemRow(item, showCable, separate), QuantityIndex(showCable, separate);
      var p := ParseSuoja(item.suoja, separate);
      && r.Keys == SummaryHeader(showCable, separate).Keys
      && r[0] == Str(Join(item.icons, " + "))
      && r[1] == Str(if separate then p.input else item.suoja)
      && (separate ==> r[2] == Str(OutputText(p)))
      && (separate && p.output == None ==> r[2] == Str(""))
      && (showCable ==> r[q - 1] == Str(CableText(item)))
      && r[q] == Num(item.count)
  {
    var p := ParseSuoja(item.suoja, separate);
    var q := QuantityIndex(showCable, separate);
    var suojaCells := SuojaCellsOf(p, item.suoja, separate);
    var cableCells := if showCable then [Str(CableText(item))] else [];
    var cells := ItemCells(item, showCable, separate);
    assert cells == [Str(Join(item.icons, " + "))] + suojaCells + cableCells + [Num(item.count)];
    assert |cells| == |SummaryHeaderCells(showCable, separate)| == q + 1;
    assert cells[1] == suojaCells[0];
    assert separate ==> cells[2] == suojaCells[1];
    assert showCable ==> cells[q - 1] == cableCells[0];
    RowFromCellsAt(cells);
    RowFromCellsAt(SummaryHeaderCells(showCable, separate));
  }

  /** In all four switch settings the TOTAL label sits one column left of Quantity and the total count sits under Quantity. */
  lemma TotalBesideQuantity(totalCount: nat, showCable: bool, separate: bool)
    ensures var t, q := TotalRow(totalCount, showCable, separate), QuantityIndex(showCable, separate);
      && t.Keys == {q - 1, q}
      && t[q - 1] == Str("TOTAL:") && t[q] == Num(totalCount)
      && SummaryHeader(showCable, separate)[q] == Str("Quantity")
  {
    SummaryHeaderLayout(showCable, separate);
  }

  // ------------------------------------------------------- protection block

  /**
   * The nearest whole number of tenths of a percent of `c` out of `t`
   * (halves up): `(c / t * 100).toFixed(1)` read as a count of tenths.
   */
  function Tenths(c: nat, t: nat): (r: nat)
    requires t > 0
    ensures 2000 * c - t < 2 * r * t <= 2000 * c + t
  {
    Aggregation.RoundingBounds(10 * c, t);
    (2000 * c + t) / (2 * t)
  }

  /** A count of tenths written with one decimal: its whole part, a point and one digit. */
  function OneDecimal(tenths: nat): (s: string)
    ensures |s| >= 3 && s[|s| - 2] == '.' && '0' <= s[|s| - 1] <= '9'
    ensures forall i :: 0 <= i < |s| - 2 ==> '0' <= s[i] <= '9'
    ensures 10 * DigitsValue(s[..|s| - 2]) + (s[|s| - 1] as int - '0' as int) == tenths
  {
    NatToStringSpec(tenths / 10);
    var s := NatToString(tenths / 10) + "." + [DigitChar(tenths % 10)];
    assert s[..|s| - 2] == NatToString(tenths / 10);
    s
  }

  /** The percentage cell: "0.0%" when there are no devices, otherwise the rounded share with one decimal and a percent sign. */
  function PercentText(count: nat, totalCount: nat): (s: string)
    ensures totalCount == 0 ==> s == "0.0%"
    ensures totalCount > 0 ==> s == OneDecimal(Tenths(count, totalCount)) + "%"
  {
    if totalCount > 0 then OneDecimal(Tenths(count, totalCount)) + "%" else "0.0%"
  }

  function ProtectionHeader(): Row {
    map[0 := Str("Suoja"), 1 := Str("Count"), 2 := Str("Percentage")]
  }

  function ProtectionRow(p: AggregatedByProtection, totalCount: nat): Row {
    map[0 := Str(p.suoja), 1 := Num(p.count), 2 := Str(PercentText(p.count, totalCount))]
  }

  /** With no devices the percentage reads as zero tenths, the same text a zero share gives. */
  lemma ZeroTotalPercent(count: nat)
    ensures PercentText(count, 0) == OneDecimal(0) + "%" == PercentText(0, 1)
  {
    assert OneDecimal(0) == "0.0";
  }

  // ----------------------------------------------------------- device block

  /** The device header from A on: Page, Type, NRo, Kuvateksti, the protection titles from E, and Kaapeli when cables are shown. */
  function DeviceHeaderCells(showCable: bool, separate: bool): seq<Cell> {
    [Str("Page"), Str("Type"), Str("NRo"), Str("Kuvateksti")] + SuojaTitles(separate)
      + (if showCable then [Str("Kaapeli")] else [])
  }

  function DeviceHeader(showCable: bool, separate: bool): Row {
    RowFromCells(DeviceHeaderCells(showCable, separate))
  }

  /** A device's cells from A on: page, icons joined with " + ", number, description, protection cells, and cable when cables are shown. */
  function DeviceCells(d: DeviceRow, showCable: bool, separate: bool): seq<Cell> {
    [Num(d.pageNumber), Str(Join(d.icons, " + ")), Str(d.nro), Str(d.kuvateksti)] + SuojaCells(d.suoja, separate)
      + (if showCable then [Str(d.kaapeli)] else [])
  }

  function DeviceSheetRow(d: DeviceRow, showCable: bool, separate: bool): Row {
    RowFromCells(DeviceCells(d, showCable, separate))
  }

  /** The number of device columns. */
  function DeviceWidth(showCable: bool, separate: bool): nat {
    4 + (if separate then 2 else 1) + (if showCable then 1 else 0)
  }

  /** The device header is Page, Type, NRo, Kuvateksti in A..D, the protection title(s) from E, and Kaapeli exactly when cables are shown (last). */
  lemma {:induction false} DeviceHeaderLayout(showCable: bool, separate: bool)
    ensures var h, n := DeviceHeader(showCable, separate), DeviceWidth(showCable, separate);
      && Spans(h, n)
      && h[0] == Str("Page") && h[1] == Str("Type") && h[2] == Str("NRo") && h[3] == Str("Kuvateksti")
      && h[4] == Str(if separate then "Suoja Input" else "Suoja")
      && (separate ==> h[5] == Str("Suoja Output"))
      && (showCable ==> h[n - 1] == Str("Kaapeli"))
      && (HasCell(h, Str("Kaapeli")) <==> showCable)
  {
    var cells := DeviceHeaderCells(showCable, separate);
    var h, n := DeviceHeader(showCable, separate), DeviceWidth(showCable, separate);
    assert |cells| == n;
    RowFromCellsAt(cells);
    if HasCell(h, Str("Kaapeli")) {
      var c :| c in h && h[c] == Str("Kaapeli");
      assert cells[c] == Str("Kaapeli");
    }
  }

  /** Each device row fills exactly the device header's columns with the device's page, icons, number, description, protection value (or its parts) and cable. */
  lemma {:induction false} DeviceRowLayout(d: DeviceRow, showCable: bool, separate: bool)
    ensures var r, n := DeviceSheetRow(d, showCable, separate), DeviceWidth(showCable, separate);
      var p := ParseSuoja(d.suoja, separate);
      && r.Keys == DeviceHeader(showCable, separate).Keys
      && r[0] == Num(d.pageNumber) && r[1] == Str(Join(d.icons, " + "))
      && r[2] == Str(d.nro) && r[3] == Str(d.kuvateksti)
      && r[4] == Str(if separate then p.input else d.suoja)
      && (separate ==> r[5] == Str(OutputText(p)))
      && (showCable ==> r[n - 1] == Str(d.kaapeli))
  {
    var cells := DeviceCells(d, showCable, separate);
    assert |cells| == |DeviceHeaderCells(showCable, separate)| == DeviceWidth(showCable, separate);
    RowFromCellsAt(cells);
    RowFromCellsAt(DeviceHeaderCells(showCable, separate));
  }

  // ------------------------------------------------------------ whole sheet

  function TitleRow(): Row {
    map[0 := Str("DEVICE SUMMARY"), 1 := Str(""), 2 := Str(""), 3 := Str(""), 4 := Str(""), 5 := Str("")]
  }

  function ItemRows(items: seq<AggregatedItem>, showCable: bool, separate: bool): (rs: seq<Row>)
    ensures |rs| == |items| && forall i :: 0 <= i < |items| ==> rs[i] == ItemRow(items[i], showCable, separate)
  {
    seq(|items|, i requires 0 <= i < |items| => ItemRow(items[i], showCable, separate))
  }

  function ProtectionRows(ps: seq<AggregatedByProtection>, totalCount: nat): (rs: seq<Row>)
    ensures |rs| == |ps| && forall i :: 0 <= i < |ps| ==> rs[i] == ProtectionRow(ps[i], totalCount)
  {
    seq(|ps|, i requires 0 <= i < |ps| => ProtectionRow(ps[i], totalCount))
  }

  function DeviceRows(ds: seq<DeviceRow>, showCable: bool, separate: bool): (rs: seq<Row>)
    ensures |rs| == |ds| && forall i :: 0 <= i < |ds| ==> rs[i] == DeviceSheetRow(ds[i], showCable, separate)
  {
    seq(|ds|, i requires 0 <= i < |ds| => DeviceSheetRow(ds[i], showCable, separate))
  }

  /** The title row, the summary header, one row per item and the TOTAL row. */
  function SummaryBlock(items: seq<AggregatedItem>, totalCount: nat, showCable: bool, separate: bool): seq<Row> {
    [TitleRow(), SummaryHeader(showCable, separate)] + ItemRows(items, showCable, separate)
      + [TotalRow(totalCount, showCable, separate)]
  }

  /** An empty row, the block title, the header and one row per protection value. */
  function ProtectionBlock(byProtection: seq<AggregatedByProtection>, totalCount: nat): seq<Row> {
    [map[], map[0 := Str("BY PROTECTION VALUE")], ProtectionHeader()] + ProtectionRows(byProtection, totalCount)
  }

  /** Two empty rows, the block title, the device header and one row per device. */
  function DeviceBlock(devices: seq<DeviceRow>, showCable: bool, separate: bool): seq<Row> {
    [map[], map[], map[0 := Str("ALL EXTRACTED DEVICES")], DeviceHeader(showCable, separate)]
      + DeviceRows(devices, showCable, separate)
  }

  /** The sheet, top to bottom. */
  function Sheet(items: seq<AggregatedItem>, devices: seq<DeviceRow>, byProtection: seq<AggregatedByProtection>,
                 totalCount: nat, showCable: bool, separate: bool): seq<Row>
  {
    SummaryBlock(items, totalCount, showCable, separate)
      + ProtectionBlock(byProtection, totalCount)
      + DeviceBlock(devices, showCable, separate)
  }

  /** The summary block: title, header, one row per item, TOTAL. */
  lemma SummaryBlockLayout(items: seq<AggregatedItem>, totalCount: nat, showCable: bool, separate: bool)
    ensures var b, n := SummaryBlock(items, totalCount, showCable, separate), |items|;
      && |b| == 3 + n
      && b[1] == SummaryHeader(showCable, separate)
      && (forall i :: 0 <= i < n ==> b[2 + i] == ItemRow(items[i], showCable, separate))
      && b[2 + n] == TotalRow(totalCount, showCable, separate)
  {
    var h := [TitleRow(), SummaryHeader(showCable, separate)];
    var rows := ItemRows(items, showCable, separate);
    var b := SummaryBlock(items, totalCount, showCable, separate);
    assert b == h + rows + [TotalRow(totalCount, showCable, separate)];
    assert b[2..2 + |items|] == rows;
    forall i | 0 <= i < |items| ensures b[2 + i] == ItemRow(items[i], showCable, separate) {
      assert b[2 + i] == b[2..2 + |items|][i];
    }
  }

  /** The protection block: empty row, title, header, one row per protection value. */
  lemma ProtectionBlockLayout(byProtection: seq<AggregatedByProtection>, totalCount: nat)
    ensures var b, p := ProtectionBlock(byProtection, totalCount), |byProtection|;
      && |b| == 3 + p
      && b[2] == ProtectionHeader()
      && (forall i :: 0 <= i < p ==> b[3 + i] == ProtectionRow(byProtection[i], totalCount))
  {
    var h := [map[], map[0 := Str("BY PROTECTION VALUE")], ProtectionHeader()];
    var rows := ProtectionRows(byProtection, totalCount);
    var b := ProtectionBlock(byProtection, totalCount);
    assert b == h + rows;
    assert b[3..] == rows;
    forall i | 0 <= i < |byProtection| ensures b[3 + i] == ProtectionRow(byProtection[i], totalCount) {
      assert b[3 + i] == b[3..][i];
    }
  }

  /** The device block is its four heading rows followed by the device rows. */
  lemma DeviceBlockIs(devices: seq<DeviceRow>, showCable: bool, separate: bool, heading: seq<Row>)
    requires heading == [map[], map[], map[0 := Str("ALL EXTRACTED DEVICES")], DeviceHeader(showCable, separate)]
    ensures DeviceBlock(devices, showCable, separate) == heading + DeviceRows(devices, showCable, separate)
  {
  }

  /** The device block: two empty rows, title, header, one row per device. */
  lemma DeviceBlockLayout(devices: seq<DeviceRow>, showCable: bool, separate: bool)
    ensures var b, d := DeviceBlock(devices, showCable, separate), |devices|;
      && |b| == 4 + d
      && b[3] == DeviceHeader(showCable, separate)
      && (forall i :: 0 <= i < d ==> b[4 + i] == DeviceSheetRow(devices[i], showCable, separate))
  {
    DeviceBlockHead(devices, showCable, separate);
    DeviceBlockRows(devices, showCable, separate);
  }

  lemma DeviceBlockHead(devices: seq<DeviceRow>, showCable: bool, separate: bool)
    ensures |DeviceBlock(devices, showCable, separate)| == 4 + |devices|
    ensures DeviceBlock(devices, showCable, separate)[3] == DeviceHeader(showCable, separate)
  {
  }

  lemma DeviceBlockRows(devices: seq<DeviceRow>, showCable: bool, separate: bool)
    ensures |DeviceBlock(devices, showCable, separate)| == 4 + |devices|
    ensures forall i :: 0 <= i < |devices| ==>
      DeviceBlock(devices, showCable, separate)[4 + i] == DeviceSheetRow(devices[i], showCable, separate)
  {
    var rows := DeviceRows(devices, showCable, separate);
    var b := DeviceBlock(devices, showCable, separate);
    assert b[4..] == rows;
    forall i | 0 <= i < |devices| ensures b[4 + i] == DeviceSheetRow(devices[i], showCable, separate) {
      assert b[4 + i] == b[4..][i];
    }
  }

  /**
   * The sheet has ten fixed rows besides one row per item, per protection
   * value and per device: the summary block, then the protection block,
   * then the device block.
   */
  lemma SheetLayout(items: seq<AggregatedItem>, devices: seq<DeviceRow>, byProtection: seq<AggregatedByProtection>,
                    totalCount: nat, showCable: bool, separate: bool)
    ensures var r := Sheet(items, devices, byProtection, totalCount, showCable, separate);
      var n, p := |items|, |byProtection|;
      && |r| == 10 + n + p + |devices|
      && r[..3 + n] == SummaryBlock(items, totalCount, showCable, separate)
      && r[3 + n..6 + n + p] == ProtectionBlock(byProtection, totalCount)
      && r[6 + n + p..] == DeviceBlock(devices, showCable, separate)
  {
    var sb := SummaryBlock(items, totalCount, showCable, separate);
    var pb := ProtectionBlock(byProtection, totalCount);
    var db := DeviceBlock(devices, showCable, separate);
    SummaryBlockLayout(items, totalCount, showCable, separate);
    ProtectionBlockLayout(byProtection, totalCount);
    DeviceBlockLayout(devices, showCable, separate);
    var r := sb + pb + db;
    assert r[..|sb|] == sb;
    assert r[|sb|..|sb| + |pb|] == pb;
    assert r[|sb| + |pb|..] == db;
  }

  // ------------------------------------------------------ building the sheet

  /** The summary header, filled column by column as `handleExport` steps its column letter. */
  method BuildSummaryHeader(showCable: bool, separate: bool) returns (headers: Row)
    ensures headers == SummaryHeader(showCable, separate)
  {
    ghost var cells := [Str("Type")];
    headers := map[0 := Str("Type")];
    var currentCol := 1;
    if separate {
      Placed(headers, cells, Str("Suoja Input"));
      headers, cells := headers[currentCol := Str("Suoja Input")], cells + [Str("Suoja Input")];
      currentCol := currentCol + 1;
      Placed(headers, cells, Str("Suoja Output"));
      headers, cells := headers[currentCol := Str("Suoja Output")], cells + [Str("Suoja Output")];
      currentCol := currentCol + 1;
    } else {
      Placed(headers, cells, Str("Suoja"));
      headers, cells := headers[currentCol := Str("Suoja")], cells + [Str("Suoja")];
      currentCol := currentCol + 1;
    }
    assert cells == [Str("Type")] + SuojaTitles(separate);
    ghost var middle := cells;
    if showCable {
      Placed(headers, cells, Str("Cable Types"));
      headers, cells := headers[currentCol := Str("Cable Types")], cells + [Str("Cable Types")];
      currentCol := currentCol + 1;
    }
    assert cells == middle + (if showCable then [Str("Cable Types")] else []);
    Placed(headers, cells, Str("Quantity"));
    headers, cells := headers[currentCol := Str("Quantity")], cells + [Str("Quantity")];
    assert cells == SummaryHeaderCells(showCable, separate);
  }

  /**
   * The protection cells written from column `col` on, moving right after
   * each: input and output when split, the raw value otherwise.
   */
  method WriteSuoja(row: Row, ghost cells: seq<Cell>, col: nat, parts: SuojaParts, suoja: string, separate: bool)
      returns (after: Row, ghost afterCells: seq<Cell>, next: nat)
    requires row == RowFromCells(cells) && col == |cells|
    ensures afterCells == cells + SuojaCellsOf(parts, suoja, separate)
    ensures after == RowFromCells(afterCells) && next == |afterCells|
  {
    after, afterCells, next := row, cells, col;
    if separate {
      Placed(after, afterCells, Str(parts.input));
      after, afterCells := after[next := Str(parts.input)], afterCells + [Str(parts.input)];
      next := next + 1;
      Placed(after, afterCells, Str(OutputText(parts)));
      after, afterCells := after[next := Str(OutputText(parts))], afterCells + [Str(OutputText(parts))];
      next := next + 1;
    } else {
      Placed(after, afterCells, Str(suoja));
      after, afterCells := after[next := Str(suoja)], afterCells + [Str(suoja)];
      next := next + 1;
    }
  }

  /** One item's row, filled column by column. */
  method BuildItemRow(item: AggregatedItem, showCable: bool, separate: bool) returns (row: Row)
    ensures row == ItemRow(item, showCable, separate)
  {
    var parts := ParseSuoja(item.suoja, separate);
    var icons := Join(item.icons, " + ");
    ghost var cells := [Str(icons)];
    row := map[0 := Str(icons)];
    var col := 1;
    row, cells, col := WriteSuoja(row, cells, col, parts, item.suoja, separate);
    ghost var middle := cells;
    if showCable {
      var cable := CableText(item);
      Placed(row, cells, Str(cable));
      row, cells := row[col := Str(cable)], cells + [Str(cable)];
      col := col + 1;
    }
    assert cells == middle + (if showCable then [Str(CableText(item))] else []);
    Placed(row, cells, Num(item.count));
    row, cells := row[col := Num(item.count)], cells + [Num(item.count)];
  }

  /** The TOTAL row: the label column starts at C or B and moves right when cables are shown; the count goes in the next column. */
  method BuildTotalRow(totalCount: nat, showCable: bool, separate: bool) returns (totalRow: Row)
    ensures totalRow == TotalRow(totalCount, showCable, separate)
  {
    var totalCol := 0;
    if separate {
      totalCol := 2;
    } else {
      totalCol := 1;
    }
    if showCable {
      totalCol := totalCol + 1;
    }
    totalRow := map[totalCol := Str("TOTAL:")];
    totalRow := totalRow[totalCol + 1 := Num(totalCount)];
  }

  method BuildDeviceHeader(showCable: bool, separate: bool) returns (deviceHeaders: Row)
    ensures deviceHeaders == DeviceHeader(showCable, separate)
  {
    ghost var cells := [Str("Page"), Str("Type"), Str("NRo"), Str("Kuvateksti")];
    deviceHeaders := map[0 := Str("Page"), 1 := Str("Type"), 2 := Str("NRo"), 3 := Str("Kuvateksti")];
    assert deviceHeaders == RowFromCells(cells);
    var deviceCol := 4;
    if separate {
      Placed(deviceHeaders, cells, Str("Suoja Input"));
      deviceHeaders, cells := deviceHeaders[deviceCol := Str("Suoja Input")], cells + [Str("Suoja Input")];
      deviceCol := deviceCol + 1;
      Placed(deviceHeaders, cells, Str("Suoja Output"));
      deviceHeaders, cells := deviceHeaders[deviceCol := Str("Suoja Output")], cells + [Str("Suoja Output")];
      deviceCol := deviceCol + 1;
    } else {
      Placed(deviceHeaders, cells, Str("Suoja"));
      deviceHeaders, cells := deviceHeaders[deviceCol := Str("Suoja")], cells + [Str("Suoja")];
      deviceCol := deviceCol + 1;
    }
    if showCable {
      Placed(deviceHeaders, cells, Str("Kaapeli"));
      deviceHeaders, cells := deviceHeaders[deviceCol := Str("Kaapeli")], cells + [Str("Kaapeli")];
    }
    assert cells == DeviceHeaderCells(showCable, separate);
  }

  method BuildDeviceRow(device: DeviceRow, showCable: bool, separate: bool) returns (deviceRow: Row)
    ensures deviceRow == DeviceSheetRow(device, showCable, separate)
  {
    var parts := ParseSuoja(device.suoja, separate);
    var icons := Join(device.icons, " + ");
    ghost var front := [Num(device.pageNumber), Str(icons), Str(device.nro), Str(device.kuvateksti)];
    deviceRow := map[0 := Num(device.pageNumber), 1 := Str(icons), 2 := Str(device.nro), 3 := Str(device.kuvateksti)];
    FrontRow(front);
    ghost var cells := front;
    var col := 4;
    deviceRow, cells, col := WriteSuoja(deviceRow, cells, col, parts, device.suoja, separate);
    ghost var middle := cells;
    if showCable {
      Placed(deviceRow, cells, Str(device.kaapeli));
      deviceRow, cells := deviceRow[col := Str(device.kaapeli)], cells + [Str(device.kaapeli)];
    }
    assert cells == middle + (if showCable then [Str(device.kaapeli)] else []);
  }

  /**
   * `handleExport` up to the workbook: pushes the title, the summary
   * header, one row per item, the TOTAL row, the protection block and the
   * device block, in that order.
   */
  method HandleExport(items: seq<AggregatedItem>, devices: seq<DeviceRow>, byProtection: seq<AggregatedByProtection>,
                      totalCount: nat, showCable: bool, separate: bool) returns (summaryData: seq<Row>)
    ensures summaryData == Sheet(items, devices, byProtection, totalCount, showCable, separate)
    ensures |summaryData| == 10 + |items| + |byProtection| + |devices|
  {
    summaryData := ExportSummary(items, totalCount, showCable, separate);
    summaryData := ExportProtection(summaryData, byProtection, totalCount);
    summaryData := ExportDevices(summaryData, devices, showCable, separate);
  }

  /** The header row, the column headers, the items and the TOTAL row. */
  method ExportSummary(items: seq<AggregatedItem>, totalCount: nat, showCable: bool, separate: bool) returns (summaryData: seq<Row>)
    ensures summaryData == SummaryBlock(items, totalCount, showCable, separate)
  {
    summaryData := [TitleRow()];
    var headers := BuildSummaryHeader(showCable, separate);
    summaryData := summaryData + [headers];
    summaryData := PushItemRows(summaryData, items, showCable, separate);
    var totalRow := BuildTotalRow(totalCount, showCable, separate);
    summaryData := summaryData + [totalRow];
  }

  /** The empty row, the protection title and header, and the protection rows. */
  method ExportProtection(before: seq<Row>, byProtection: seq<AggregatedByProtection>, totalCount: nat) returns (summaryData: seq<Row>)
    ensures summaryData == before + ProtectionBlock(byProtection, totalCount)
  {
    summaryData := before + [map[], map[0 := Str("BY PROTECTION VALUE")], ProtectionHeader()];
    summaryData := PushProtectionRows(summaryData, byProtection, totalCount);
  }

  /** The two empty rows, the device title and header, and the device rows. */
  method ExportDevices(before: seq<Row>, devices: seq<DeviceRow>, showCable: bool, separate: bool) returns (summaryData: seq<Row>)
    ensures summaryData == before + DeviceBlock(devices, showCable, separate)
  {
    var deviceHeaders := BuildDeviceHeader(showCable, separate);
    var heading := [map[], map[], map[0 := Str("ALL EXTRACTED DEVICES")], deviceHeaders];
    summaryData := before + heading;
    ghost var rows := DeviceRows(devices, showCable, separate);
    summaryData := PushDeviceRows(summaryData, devices, showCable, separate);
    DeviceBlockIs(devices, showCable, separate, heading);
    assert (before + heading) + rows == before + (heading + rows);
  }

  /** `aggregatedItems.forEach(... summaryData.push(row))`. */
  method PushItemRows(before: seq<Row>, items: seq<AggregatedItem>, showCable: bool, separate: bool) returns (after: seq<Row>)
    ensures after == before + ItemRows(items, showCable, separate)
  {
    after := before;
    ghost var rows := ItemRows(items, showCable, separate);
    for i := 0 to |items|
      invariant after == before + rows[..i]
    {
      var row := BuildItemRow(items[i], showCable, separate);
      assert rows[..i + 1] == rows[..i] + [row];
      after := after + [row];
    }
    assert rows[..|items|] == rows;
  }

  /** `aggregatedByProtection.forEach(... summaryData.push(...))`, with each percentage guarded against a zero total. */
  method PushProtectionRows(before: seq<Row>, ps: seq<AggregatedByProtection>, totalCount: nat) returns (after: seq<Row>)
    ensures after == before + ProtectionRows(ps, totalCount)
  {
    after := before;
    ghost var rows := ProtectionRows(ps, totalCount);
    for i := 0 to |ps|
      invariant after == before + rows[..i]
    {
      var row := BuildProtectionRow(ps[i], totalCount);
      assert rows[..i + 1] == rows[..i] + [row];
      after := after + [row];
    }
    assert rows[..|ps|] == rows;
  }

  /** One protection value's row; the percentage is guarded against a zero total. */
  method BuildProtectionRow(item: AggregatedByProtection, totalCount: nat) returns (row: Row)
    ensures row == ProtectionRow(item, totalCount)
  {
    var percentage := if totalCount > 0 then OneDecimal(Tenths(item.count, totalCount)) else "0.0";
    assert percentage + "%" == PercentText(item.count, totalCount);
    row := map[0 := Str(item.suoja), 1 := Num(item.count), 2 := Str(percentage + "%")];
  }

  /** `allDevices.forEach(... summaryData.push(deviceRow))`. */
  method PushDeviceRows(before: seq<Row>, devices: seq<DeviceRow>, showCable: bool, separate: bool) returns (after: seq<Row>)
    ensures after == before + DeviceRows(devices, showCable, separate)
  {
    after := before;
    ghost var rows := DeviceRows(devices, showCable, separate);
    for i := 0 to |devices|
      invariant after == before + rows[..i]
    {
      var row := BuildDeviceRow(devices[i], showCable, separate);
      assert rows[..i + 1] == rows[..i] + [row];
      after := after + [row];
    }
    assert rows[..|devices|] == rows;
  }
}
