/**
 * The spreadsheet export of the older summary page: three sheets built
 * from the page's data (every device; the groups followed by a TOTAL row;
 * the protection histogram). Each sheet is a list of records whose fields
 * are the sheet's columns; writing the workbook is left out.
 */
module LegacyExport {
  import opened SummaryTypes
  import opened Text
  import opened Tally
  import opened Sorting
  import opened Aggregation

  // ------------------------------------------------------------ All Devices

  /** A row of the "All Devices" sheet: Page, Row, NRo, Kuvateksti, Suoja, Kaapeli, Symbol. */
  datatype DeviceEntry = DeviceEntry(
    page: int, row: int, nro: string, kuvateksti: string, suoja: string, kaapeli: string, symbol: string)

  function EntryOfDevice(d: DeviceRow): DeviceEntry {
    DeviceEntry(d.pageNumber, d.rowNumber, d.nro, d.kuvateksti, d.suoja, d.kaapeli, d.symbol)
  }

  /** The device a sheet row describes, given the one field the sheet does not show. */
  function DeviceOfEntry(e: DeviceEntry, id: string): DeviceRow {
    DeviceRow(id, e.page, e.row, e.symbol, e.nro, e.kuvateksti, e.suoja, e.kaapeli)
  }

  /** One row per device, in input order, from which the device is recovered unchanged except for its id. */
  function AllDevicesSheet(devices: seq<DeviceRow>): (r: seq<DeviceEntry>)
    ensures |r| == |devices|
    ensures forall i :: 0 <= i < |r| ==> DeviceOfEntry(r[i], devices[i].id) == devices[i]
  {
    seq(|devices|, i requires 0 <= i < |devices| => EntryOfDevice(devices[i]))
  }

  // ---------------------------------------------------------------- Summary

  /** A row of the "Summary" sheet: Kuvateksti, Suoja, Kaapeli, Quantity, NRo List. */
  datatype SummaryEntry = SummaryEntry(
    kuvateksti: string, suoja: string, kaapeli: string, quantity: int, nroList: string)

  function EntryOfGroup(g: AggregatedDevice): SummaryEntry {
    SummaryEntry(g.kuvateksti, g.suoja, g.kaapeli, g.count, Join(g.nros, ", "))
  }

  function QuantityOf(e: SummaryEntry): int { e.quantity }

  /** One row per group, in group order, then exactly one TOTAL row carrying the number of devices and empty text cells. */
  function SummarySheet(devices: seq<DeviceRow>, aggregated: seq<AggregatedDevice>): (r: seq<SummaryEntry>)
    ensures |r| == |aggregated| + 1
    ensures r[|aggregated|] == SummaryEntry("TOTAL", "", "", |devices|, "")
    ensures forall i :: 0 <= i < |aggregated| ==>
      && r[i].kuvateksti == aggregated[i].kuvateksti && r[i].suoja == aggregated[i].suoja
      && r[i].kaapeli == aggregated[i].kaapeli && r[i].quantity == aggregated[i].count
      && r[i].nroList == Join(aggregated[i].nros, ", ")
  {
    seq(|aggregated|, i requires 0 <= i < |aggregated| => EntryOfGroup(aggregated[i]))
      + [SummaryEntry("TOTAL", "", "", |devices|, "")]
  }

  lemma {:induction false} GroupQuantities(gs: seq<AggregatedDevice>)
    ensures SumOf(seq(|gs|, i requires 0 <= i < |gs| => EntryOfGroup(gs[i])), QuantityOf) == SumOf(gs, CountOf)
  {
    var es := seq(|gs|, i requires 0 <= i < |gs| => EntryOfGroup(gs[i]));
    if gs != [] {
      assert es[1..] == seq(|gs[1..]|, i requires 0 <= i < |gs[1..]| => EntryOfGroup(gs[1..][i]));
      GroupQuantities(gs[1..]);
    }
  }

  /** For the page's own groups, the group rows' quantities add up to the TOTAL row's quantity. */
  lemma {:induction false} SummarySheetBalances(ds: seq<DeviceRow>)
    ensures var r := SummarySheet(ds, Aggregated(ds));
      SumOf(r[..|r| - 1], QuantityOf) == r[|r| - 1].quantity
  {
    var gs := Aggregated(ds);
    var r := SummarySheet(ds, gs);
    assert r[..|r| - 1] == seq(|gs|, i requires 0 <= i < |gs| => EntryOfGroup(gs[i]));
    GroupQuantities(gs);
    AggregatedTotal(ds);
  }

  /** Row `e` stands for key `k`: its quantity is the number of devices with that key and its NRo list their numbers, in input order, joined with ", ". */
  predicate DescribesKey(ds: seq<DeviceRow>, e: SummaryEntry, k: string) {
    && k in Keys(ds)
    && e.quantity == Count(Keys(ds), k)
    && e.nroList == Join(NrosWithKey(ds, k), ", ")
  }

  lemma GroupRowDescribes(ds: seq<DeviceRow>, k: string)
    requires k in Keys(ds)
    ensures DescribesKey(ds, EntryOfGroup(GroupFor(ds, k)), k)
  {
  }

  lemma {:induction false} GroupInAggregatedDescribes(ds: seq<DeviceRow>, g: AggregatedDevice)
    requires g in Aggregated(ds)
    ensures DescribesKey(ds, EntryOfGroup(g), GroupKeyOf(g))
  {
    assert g in multiset(Aggregated(ds));
    var ks := Distinct(Keys(ds));
    var j :| 0 <= j < |Groups(ds)| && Groups(ds)[j] == g;
    assert ks[j] in Keys(ds);
    GroupRowDescribes(ds, ks[j]);
  }

  /** For the page's own groups, the row of each group stands for that group's key. */
  lemma {:induction false} SummaryRowsDescribeGroups(ds: seq<DeviceRow>)
    ensures var gs := Aggregated(ds);
      forall a :: 0 <= a < |gs| ==> DescribesKey(ds, SummarySheet(ds, gs)[a], GroupKeyOf(gs[a]))
  {
    var gs := Aggregated(ds);
    var r := SummarySheet(ds, gs);
    forall a | 0 <= a < |gs| ensures DescribesKey(ds, r[a], GroupKeyOf(gs[a])) {
      assert r[a] == EntryOfGroup(gs[a]);
      GroupInAggregatedDescribes(ds, gs[a]);
    }
  }

  // ---------------------------------------------------------- By Protection

  /** A row of the "By Protection" sheet: Protection (Suoja), Count, Percentage. */
  datatype ProtectionEntry = ProtectionEntry(protection: string, count: int, percentage: string)

  /** The percentage cell `${p}%`: the decimal numeral of `p` followed by a percent sign, from which `p` is read back. */
  function PercentCell(p: nat): (s: string)
    ensures |s| >= 2 && s[|s| - 1] == '%'
    ensures forall i :: 0 <= i < |s| - 1 ==> '0' <= s[i] <= '9'
    ensures DigitsValue(s[..|s| - 1]) == p
  {
    NatToStringSpec(p);
    var s := NatToString(p) + "%";
    assert s[..|s| - 1] == NatToString(p);
    s
  }

  function EntryOfSummary(e: ProtectionSummary): ProtectionEntry {
    ProtectionEntry(e.suoja, e.count, PercentCell(e.percentage))
  }

  function CountOfEntry(e: ProtectionEntry): int { e.count }

  /** One row per histogram entry, in order, with the percentage written as a numeral and `%`. */
  function ProtectionSheet(byProtection: seq<ProtectionSummary>): (r: seq<ProtectionEntry>)
    ensures |r| == |byProtection|
    ensures forall i :: 0 <= i < |r| ==>
      && r[i].protection == byProtection[i].suoja && r[i].count == byProtection[i].count
      && r[i].percentage == PercentCell(byProtection[i].percentage)
  {
    seq(|byProtection|, i requires 0 <= i < |byProtection| => EntryOfSummary(byProtection[i]))
  }

  lemma {:induction false} ProtectionCounts(es: seq<ProtectionSummary>)
    ensures SumOf(ProtectionSheet(es), CountOfEntry) == SumOf(es, CountOfP)
  {
    if es != [] {
      assert ProtectionSheet(es)[1..] == ProtectionSheet(es[1..]);
      ProtectionCounts(es[1..]);
    }
  }

  /** For the page's own histogram, the sheet's counts add up to the number of devices. */
  lemma {:induction false} ProtectionSheetBalances(ds: seq<DeviceRow>)
    ensures SumOf(ProtectionSheet(Breakdown(ds)), CountOfEntry) == |ds|
  {
    ProtectionCounts(Breakdown(ds));
    BreakdownTotal(ds);
  }
}
