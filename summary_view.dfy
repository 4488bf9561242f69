/**
 * The display rules of the current summary page: the aggregated summary
 * table, the table of all extracted devices, and the protection breakdown
 * chart with its legend. A rendered table is modelled by what it shows:
 * its header titles, one value per body row, and the footer.
 */
module SummaryView {
  import opened Wrappers
  import opened Text
  import opened HookTypes
  import opened Suoja
  import opened Symbols
  import ExportSheet

  // ------------------------------------------------------ shared cell rules

  /** What a protection cell shows: an In badge and an Out badge, or the raw value in one badge. */
  datatype SuojaView = InOut(input: string, output: string) | Plain(suoja: string)

  /** The protection cell of both tables: `separateInputOutput && output ? In/Out : suoja`. */
  function SuojaViewOf(suoja: string, separate: bool): (v: SuojaView)
    ensures v.Plain? ==> v.suoja == suoja
    ensures v.InOut? ==> separate && '/' in suoja && v.output != ""
    ensures v.InOut? ==> '/' !in v.input && '/' !in v.output
    ensures !separate || '/' !in suoja ==> v == Plain(suoja)
  {
    var p := ParseSuoja(suoja, separate);
    if ShowsInOut(p, separate) then InOut(p.input, p.output.value) else Plain(suoja)
  }

  /** For a value with a slash, the badges are the trimmed first two segments, and they appear exactly when the second segment is not blank. */
  lemma {:induction false} SuojaViewOfSegments(a: string, b: string, rest: string)
    requires '/' !in a && '/' !in b && (rest == [] || rest[0] == '/')
    ensures TrimJs(b) != "" ==> SuojaViewOf(a + "/" + b + rest, true) == InOut(TrimJs(a), TrimJs(b))
    ensures TrimJs(b) == "" ==> SuojaViewOf(a + "/" + b + rest, true) == Plain(a + "/" + b + rest)
  {
    ParseFirstTwoSegments(a, b, rest);
  }

  /** The icons rendered for `ids` against `catalog`: the entry of each id that has one, in order; ids without an entry render nothing. */
  function IconsFrom(catalog: seq<Symbol>, ids: seq<string>): (r: seq<Symbol>)
    ensures |r| <= |ids|
    ensures forall k :: 0 <= k < |r| ==> r[k] in catalog
  {
    if ids == [] then []
    else
      var head := match ById(catalog, ids[0]) case Some(s) => [s] case None => [];
      head + IconsFrom(catalog, ids[1..])
  }

  /** The icon cell of both tables (`getSymbolById` over the catalog). */
  function KnownIcons(ids: seq<string>): seq<Symbol> {
    IconsFrom(Catalog, ids)
  }

  lemma {:induction false} IconsFromAppend(catalog: seq<Symbol>, a: seq<string>, b: seq<string>)
    ensures IconsFrom(catalog, a + b) == IconsFrom(catalog, a) + IconsFrom(catalog, b)
  {
    if a != [] {
      var h := match ById(catalog, a[0]) case Some(s) => [s] case None => [];
      assert (a + b)[0] == a[0];
      assert (a + b)[1..] == a[1..] + b;
      assert IconsFrom(catalog, a + b) == h + IconsFrom(catalog, a[1..] + b);
      IconsFromAppend(catalog, a[1..], b);
      assert IconsFrom(catalog, a) == h + IconsFrom(catalog, a[1..]);
    } else {
      assert a + b == b;
    }
  }

  /** An id without a catalog entry contributes nothing wherever it stands. */
  lemma {:induction false} UnknownIconHidden(catalog: seq<Symbol>, a: seq<string>, x: string, b: seq<string>)
    requires ById(catalog, x).None?
    ensures IconsFrom(catalog, a + [x] + b) == IconsFrom(catalog, a + b)
  {
    var front := IconsFrom(catalog, a);
    assert IconsFrom(catalog, [x]) == [] by {
      assert [x][1..] == [];
    }
    IconsFromAppend(catalog, a, [x]);
    assert IconsFrom(catalog, a + [x]) == front + [];
    assert front + [] == front;
    IconsFromAppend(catalog, a + [x], b);
    IconsFromAppend(catalog, a, b);
  }

  /** When every id has a catalog entry, each renders as its own entry, in order. */
  lemma {:induction false} IconsFromAllKnown(catalog: seq<Symbol>, ids: seq<string>)
    requires forall k :: 0 <= k < |ids| ==> ById(catalog, ids[k]).Some?
    ensures |IconsFrom(catalog, ids)| == |ids|
    ensures forall k :: 0 <= k < |ids| ==> IconsFrom(catalog, ids)[k] == ById(catalog, ids[k]).value
  {
    if ids != [] {
      IconsFromAllKnown(catalog, ids[1..]);
      var r := IconsFrom(catalog, ids);
      assert r == [ById(catalog, ids[0]).value] + IconsFrom(catalog, ids[1..]);
      forall k | 0 < k < |ids| ensures r[k] == ById(catalog, ids[k]).value {
        assert ids[1..][k - 1] == ids[k];
      }
    }
  }

  /** The title of the protection column in both tables. */
  function SuojaTitle(separate: bool): string {
    if separate then "Suoja (In/Out)" else "Suoja"
  }

  // ----------------------------------------------------------- summary table

  /** The cable list of a summary row: the cable types one per line, or a dash when there are none. */
  datatype CableList = Dash | Types(types: seq<string>)

  /** The cable cell: the list and, below it, a Mismatch marker or nothing. */
  datatype CableCell = CableCell(list: CableList, mismatch: bool)

  /** One body row of the summary table: React key, icons, protection, cable cell when cables are shown, quantity. */
  datatype SummaryRow = SummaryRow(key: string, icons: seq<Symbol>, suoja: SuojaView, cable: Option<CableCell>, count: nat)

  datatype Footer = Footer(colSpan: nat, total: nat)

  datatype SummaryTableView = SummaryTableView(header: seq<string>, body: seq<SummaryRow>, footer: Footer)

  /** The summary table header: Icons, the protection title, Cable Types exactly when cables are shown, Quantity. */
  function SummaryHeader(showCable: bool, separate: bool): (h: seq<string>)
    ensures |h| == (if showCable then 4 else 3)
    ensures h[0] == "Icons" && h[1] == SuojaTitle(separate) && h[|h| - 1] == "Quantity"
    ensures showCable ==> h[2] == "Cable Types"
    ensures "Cable Types" in h <==> showCable
  {
    ["Icons", SuojaTitle(separate)] + (if showCable then ["Cable Types"] else []) + ["Quantity"]
  }

  /** The cable cell of an item: a dash exactly when it has no cable types, and a Mismatch marker exactly when its cables disagree. */
  function CableCellOf(item: AggregatedItem): (c: CableCell)
    ensures c.list == Dash <==> item.kaapeliTypes == []
    ensures c.list.Types? ==> c.list.types == item.kaapeliTypes
    ensures c.mismatch <==> item.hasCableMismatch
  {
    CableCell(if |item.kaapeliTypes| > 0 then Types(item.kaapeliTypes) else Dash, item.hasCableMismatch)
  }

  /** One summary row per item, keyed by its id, showing its count; the cable cell exists exactly when cables are shown. */
  function SummaryRowOf(item: AggregatedItem, showCable: bool, separate: bool): (r: SummaryRow)
    ensures r.key == item.id && r.count == item.count
    ensures r.icons == KnownIcons(item.icons)
    ensures r.suoja == SuojaViewOf(item.suoja, separate)
    ensures r.cable.Some? <==> showCable
    ensures showCable ==> r.cable.value == CableCellOf(item)
  {
    SummaryRow(item.id, KnownIcons(item.icons), SuojaViewOf(item.suoja, separate),
      if showCable then Some(CableCellOf(item)) else None, item.count)
  }

  /** The number of cells of a summary body row. */
  function SummaryRowWidth(r: SummaryRow): nat {
    3 + (if r.cable.Some? then 1 else 0)
  }

  /** The summary table: the header, one row per item in order, and a footer spanning all columns but the last before the total. */
  function SummaryTable(data: seq<AggregatedItem>, totalCount: nat, showCable: bool, separate: bool): (t: SummaryTableView)
    ensures |t.body| == |data|
    ensures forall i :: 0 <= i < |data| ==> t.body[i] == SummaryRowOf(data[i], showCable, separate)
    ensures t.footer.total == totalCount
    ensures t.footer.colSpan == (if showCable then 3 else 2)
  {
    var body := seq(|data|, i requires 0 <= i < |data| => SummaryRowOf(data[i], showCable, separate));
    SummaryTableView(SummaryHeader(showCable, separate), body, Footer(if showCable then 3 else 2, totalCount))
  }

  /** Every body row has as many cells as the header, and the footer's label cell plus its total cell cover the header exactly, with the total under Quantity. */
  lemma SummaryTableAligned(data: seq<AggregatedItem>, totalCount: nat, showCable: bool, separate: bool)
    ensures var t := SummaryTable(data, totalCount, showCable, separate);
      && t.footer.colSpan + 1 == |t.header|
      && t.header[t.footer.colSpan] == "Quantity"
      && forall i :: 0 <= i < |t.body| ==> SummaryRowWidth(t.body[i]) == |t.header|
  {
  }

  // --------------------------------------------------------- raw device table

  /** One body row of the all-devices table. */
  datatype DeviceLine = DeviceLine(key: string, page: int, icons: seq<Symbol>, nro: string, kuvateksti: string,
                                   suoja: SuojaView, kaapeli: Option<string>)

  /** The all-devices table: the row-count label, the header and the body. */
  datatype DeviceTableView = DeviceTableView(rowsLabel: string, header: seq<string>, body: seq<DeviceLine>)

  /** Page, Icons, NRo, Kuvateksti, the protection title, and Kaapeli exactly when cables are shown. */
  function DeviceHeader(showCable: bool, separate: bool): (h: seq<string>)
    ensures |h| == (if showCable then 6 else 5)
    ensures h[..5] == ["Page", "Icons", "NRo", "Kuvateksti", SuojaTitle(separate)]
    ensures showCable ==> h[5] == "Kaapeli"
  {
    ["Page", "Icons", "NRo", "Kuvateksti", SuojaTitle(separate)] + (if showCable then ["Kaapeli"] else [])
  }

  /** A device's row: its page, known icons, NRo and description unchanged, its protection cell, and its cable exactly when cables are shown. */
  function DeviceLineOf(d: DeviceRow, showCable: bool, separate: bool): (l: DeviceLine)
    ensures l.key == d.id && l.page == d.pageNumber && l.nro == d.nro && l.kuvateksti == d.kuvateksti
    ensures l.icons == KnownIcons(d.icons)
    ensures l.suoja == SuojaViewOf(d.suoja, separate)
    ensures l.kaapeli.Some? <==> showCable
    ensures showCable ==> l.kaapeli.value == d.kaapeli
  {
    DeviceLine(d.id, d.pageNumber, KnownIcons(d.icons), d.nro, d.kuvateksti, SuojaViewOf(d.suoja, separate),
      if showCable then Some(d.kaapeli) else None)
  }

  function DeviceLineWidth(l: DeviceLine): nat {
    5 + (if l.kaapeli.Some? then 1 else 0)
  }

  /** The label "<n> rows", n being the number of devices. */
  function RowsLabel(n: nat): (s: string)
    ensures |s| > 5 && s[|s| - 5..] == " rows"
    ensures forall i :: 0 <= i < |s| - 5 ==> '0' <= s[i] <= '9'
    ensures DigitsValue(s[..|s| - 5]) == n
  {
    NatToStringSpec(n);
    var digits := NatToString(n);
    var s := digits + " rows";
    assert s[..|s| - 5] == digits;
    s
  }

  /** The all-devices table: one row per device in the given order, under a label counting them. */
  function DeviceTable(allDevices: seq<DeviceRow>, showCable: bool, separate: bool): (t: DeviceTableView)
    ensures t.rowsLabel == RowsLabel(|allDevices|)
    ensures |t.body| == |allDevices|
    ensures forall i :: 0 <= i < |allDevices| ==> t.body[i] == DeviceLineOf(allDevices[i], showCable, separate)
  {
    var body := seq(|allDevices|, i requires 0 <= i < |allDevices| => DeviceLineOf(allDevices[i], showCable, separate));
    DeviceTableView(RowsLabel(|allDevices|), DeviceHeader(showCable, separate), body)
  }

  /** Every row of the all-devices table has exactly the header's columns. */
  lemma DeviceTableAligned(allDevices: seq<DeviceRow>, showCable: bool, separate: bool)
    ensures var t := DeviceTable(allDevices, showCable, separate);
      forall i :: 0 <= i < |t.body| ==> DeviceLineWidth(t.body[i]) == |t.header|
  {
  }

  // ---------------------------------------------------- protection breakdown

  /** The colour class of each listed protection value; the `NNA` and `CNN` spellings share one. */
  const ProtectionColors: map<string, string> := map[
    "10A" := "bg-emerald-500", "C10" := "bg-emerald-500",
    "16A" := "bg-blue-500", "C16" := "bg-blue-500",
    "25A" := "bg-djanbee", "C25" := "bg-djanbee",
    "32A" := "bg-orange-500", "C32" := "bg-orange-500",
    "40A" := "bg-red-500", "C40" := "bg-red-500",
    "63A" := "bg-purple-500", "C63" := "bg-purple-500"
  ]

  const DefaultColor: string := "bg-zinc-500"

  /** `getProtectionColor`: the table's colour for a listed value, the zinc default for any other. */
  function ProtectionColor(suoja: string): (c: string)
    ensures suoja !in ProtectionColors ==> c == DefaultColor
    ensures suoja in ProtectionColors ==> c == ProtectionColors[suoja] && c != DefaultColor
  {
    if suoja in ProtectionColors && ProtectionColors[suoja] != "" then ProtectionColors[suoja] else DefaultColor
  }

  /** The colours of the three lower ratings, each spelled both ways. */
  lemma LowRatingColors()
    ensures ProtectionColor("10A") == ProtectionColor("C10") == "bg-emerald-500"
    ensures ProtectionColor("16A") == ProtectionColor("C16") == "bg-blue-500"
    ensures ProtectionColor("25A") == ProtectionColor("C25") == "bg-djanbee"
  {
  }

  /** The colours of the three higher ratings, each spelled both ways. */
  lemma HighRatingColors()
    ensures ProtectionColor("32A") == ProtectionColor("C32") == "bg-orange-500"
    ensures ProtectionColor("40A") == ProtectionColor("C40") == "bg-red-500"
    ensures ProtectionColor("63A") == ProtectionColor("C63") == "bg-purple-500"
  {
  }

  /** The two spellings `NNA` and `CNN` of each of the six ratings get the same colour, and it is not the default. */
  lemma AmpereAndCurveSpellingsAgree(nn: string)
    requires nn in ["10", "16", "25", "32", "40", "63"]
    ensures ProtectionColor(nn + "A") == ProtectionColor("C" + nn)
    ensures ProtectionColor(nn + "A") != DefaultColor
  {
    LowRatingColors();
    HighRatingColors();
    if nn == "10" {
      assert nn + "A" == "10A" && "C" + nn == "C10";
    } else if nn == "16" {
      assert nn + "A" == "16A" && "C" + nn == "C16";
    } else if nn == "25" {
      assert nn + "A" == "25A" && "C" + nn == "C25";
    } else if nn == "32" {
      assert nn + "A" == "32A" && "C" + nn == "C32";
    } else if nn == "40" {
      assert nn + "A" == "40A" && "C" + nn == "C40";
    } else {
      assert nn + "A" == "63A" && "C" + nn == "C63";
    }
  }

  /** The share text beside a bar: "0.0" when there are no devices, otherwise the rounded share with one decimal. */
  function ShareText(count: nat, totalCount: nat): (s: string)
    ensures totalCount == 0 ==> s == "0.0"
    ensures totalCount > 0 ==> s == ExportSheet.OneDecimal(ExportSheet.Tenths(count, totalCount))
  {
    if totalCount > 0 then ExportSheet.OneDecimal(ExportSheet.Tenths(count, totalCount)) else "0.0"
  }

  /** The chart and the export write the same share, the export adding a percent sign. */
  lemma ShareMatchesExport(count: nat, totalCount: nat)
    ensures ShareText(count, totalCount) + "%" == ExportSheet.PercentText(count, totalCount)
  {
  }

  /** One bar block: the value in its colour, the share, and the count of devices. */
  datatype Bar = Bar(suoja: string, color: string, share: string, count: nat)

  /** One legend item: a colour dot and "suoja: count". */
  datatype LegendItem = LegendItem(color: string, suoja: string, count: nat)

  function BarOf(item: AggregatedByProtection, totalCount: nat): Bar {
    Bar(item.suoja, ProtectionColor(item.suoja), ShareText(item.count, totalCount), item.count)
  }

  function LegendItemOf(item: AggregatedByProtection): LegendItem {
    LegendItem(ProtectionColor(item.suoja), item.suoja, item.count)
  }

  /** One bar per entry in order, each showing the entry's value and count. */
  function Bars(data: seq<AggregatedByProtection>, totalCount: nat): (r: seq<Bar>)
    ensures |r| == |data|
    ensures forall i :: 0 <= i < |data| ==> r[i] == BarOf(data[i], totalCount)
  {
    seq(|data|, i requires 0 <= i < |data| => BarOf(data[i], totalCount))
  }

  /** One legend item per entry in order, each showing the entry's value and count. */
  function Legend(data: seq<AggregatedByProtection>): (r: seq<LegendItem>)
    ensures |r| == |data|
    ensures forall i :: 0 <= i < |data| ==> r[i] == LegendItemOf(data[i])
  {
    seq(|data|, i requires 0 <= i < |data| => LegendItemOf(data[i]))
  }

  /** Bar and legend item of one entry agree on value, colour and count. */
  lemma BarsMatchLegend(data: seq<AggregatedByProtection>, totalCount: nat)
    ensures var bars, legend := Bars(data, totalCount), Legend(data);
      && |bars| == |legend|
      && forall i :: 0 <= i < |bars| ==> (bars[i].suoja == legend[i].suoja == data[i].suoja
        && bars[i].color == legend[i].color && bars[i].count == legend[i].count == data[i].count)
  {
  }
}
