# Switchboard diagram review: a verified Dafny model

This project models the logic of a review tool for electrical switchboard
diagrams. A PDF of a diagram is read by a Python back-end, which finds the
table rows of each page, recognises the symbol drawn in each row and reads
the row's description (`kuvateksti`), protection (`suoja`) and cable
(`kaapeli`). A TypeScript front-end then lets a user correct the symbols,
and summarises the devices: groups of equal devices with their counts, a
breakdown by protection value, and a spreadsheet export.

The modules follow the program:

- `Aggregation` (with `Tally` and `Sorting`) is the summary engine of the older front-end,
  `src/app/summary/dummyData.ts`:
  - devices are grouped by the joined key `kuvateksti|suoja|kaapeli`;
  - each group carries its count and its NRo list;
  - the groups are sorted stably by descending count;
  - a histogram per protection value with rounded percentages.
- `LegacyExport` is the three-sheet projection of the older export button.
- `Suoja` holds `parseSuoja`, the protection-value splitter. The current front-end has three copies of it, all the same; the model defines it once.
- `ExportSheet` lays out the current export sheet column by column. It is
  imperative, as the source is, with columns as naturals (A = 0).
- `SummaryView` holds the display rules of the summary table, the device table and the protection chart.
  `HookTypes` gives the record shapes those components read.
- `Symbols` and `LegacySymbols` model the symbol catalog lookups: the current one with its single name normaliser, and the older one with its four-stage fallback.
  `Text` holds the character and string helpers both of them use.
- `IconSlots` is the icon slot editor, a class whose handlers update the slot list.
- `RowBands` models row-band detection from a page's line mask.
  `Extractor` models the first back-end classifier (`extractor.py`).
  `FullExtraction` models the current one (`fullExtractionClass.py`).
  Both classifiers share the `RowBands` model: their `detect_row_bounds` are the same from the mask on.
- `Api` models the pdfplumber row mapping of `main.py` and its filename check.
  `Options` holds the "keep the present values of numbered candidates" step that `Api` and `FullExtraction` share.

The types are modelled as follows:

- Strings are `seq<char>`, and letter case is ASCII.
- Scores are `real` and are only compared.
- A JavaScript `Map` is modelled by the keys in insertion order together with a Dafny `map`.
- Where the source loops and mutates, the model is a method with loop invariants, proved equal to a specification function. The properties are proved as lemmas about that function.

## Model

| member | source | states |
|---|---|---|
| Aggregation.Keys | src/app/summary/dummyData.ts:41 | one key per device, in order: the joined string `kuvateksti|suoja|kaapeli` |
| Aggregation.GroupFor | src/app/summary/dummyData.ts:43-56 | a group held under key `k` carries that key and counts the devices whose key is `k` (at least one) |
| Aggregation.Groups | src/app/summary/dummyData.ts:38-57 | the groups in the Map's insertion order: one per distinct key, in the order keys first appear |
| Aggregation.NrosWithKeyCount | src/app/summary/dummyData.ts:45-54 | a group's NRo list is exactly as long as its count |
| Aggregation.GroupForContents | src/app/summary/dummyData.ts:45-55 | a group's count equals the length of its NRo list, and its description, protection, cable and symbol are those of the first device with its key |
| Aggregation.NrosWithKeyMembers | src/app/summary/dummyData.ts:46-54 | a number is in a group's NRo list iff some device with that group's key has that number |
| Aggregation.GroupMapAt | src/app/summary/dummyData.ts:40-57 | the Map built by the loop holds a key iff some device has it, and holds that key's group |
| Aggregation.GroupMapGroups | src/app/summary/dummyData.ts:59 | reading the Map's values in key-insertion order gives the groups |
| Aggregation.GroupMapSnoc | src/app/summary/dummyData.ts:43-56 | one loop step: a device with a known key is added to its group (count + 1, its NRo pushed), otherwise a new group of one is opened |
| Aggregation.KeyOrderSnoc | src/app/summary/dummyData.ts:43-56 | the Map's key order gains a key exactly when a device brings a key it did not hold |
| Aggregation.AggregateDevices | src/app/summary/dummyData.ts:37-60 | the `forEach` over the devices with the Map updated in place, then the sort: the result is the aggregation, its counts sum to the number of devices and are non-increasing |
| Aggregation.AggregatedTotal | src/app/summary/dummyData.ts:40-57 | the counts of all groups sum to the number of devices |
| Aggregation.AggregatedNonIncreasing | src/app/summary/dummyData.ts:59 | the groups come in non-increasing order of count |
| Aggregation.AggregatedTiesFirstSeen | src/app/summary/dummyData.ts:59 | the sort is stable: groups of equal count keep the order in which their keys were first seen |
| Aggregation.AggregatedMembers | src/app/summary/dummyData.ts:59 | every sorted group is one of the groups built |
| Aggregation.AggregatedKeysDistinct | src/app/summary/dummyData.ts:41-43 | no two groups share a key |
| Aggregation.AggregatedCoversDevices | src/app/summary/dummyData.ts:40-57 | every device's key has a group |
| Aggregation.AggregatedCounts | src/app/summary/dummyData.ts:45-53 | each group's count is the number of devices with its key |
| Aggregation.SameKeyOneGroup | src/app/summary/dummyData.ts:41-43 | two devices whose joined keys are equal fall in one group |
| Aggregation.KeyCollision | src/app/summary/dummyData.ts:41 | the key is a joined string: devices with different descriptions and protections can share a key and a group |
| Aggregation.Suojas | src/app/summary/dummyData.ts:66-69 | the protection value of every device, in order |
| Aggregation.RoundPercent | src/app/summary/dummyData.ts:77 | `Math.round(count / total * 100)` with halves rounded up: within half a unit of `100 * count / total`, and at most 100 when `count <= total` |
| Aggregation.Entries | src/app/summary/dummyData.ts:73-78 | one entry per distinct protection value, in first-seen order |
| Aggregation.EntriesOf | src/app/summary/dummyData.ts:73-78 | the entries read off the Map: each entry has its protection value and the Map's count for it |
| Aggregation.CountMapEntries | src/app/summary/dummyData.ts:66-78 | reading the counting Map in key order gives the entries; there is a key only when there is a device, so the division has a non-zero total |
| Aggregation.CountBySuoja | src/app/summary/dummyData.ts:64-69 | the counting loop: `get(...) || 0` plus one per device gives the count of every protection value, keys in first-seen order |
| Aggregation.GetProtectionBreakdown | src/app/summary/dummyData.ts:63-80 | the breakdown: the entries sorted by count, their counts summing to the number of devices and non-increasing |
| Aggregation.BreakdownNonIncreasing | src/app/summary/dummyData.ts:79 | the entries come in non-increasing order of count |
| Aggregation.BreakdownTotal | src/app/summary/dummyData.ts:66-76 | the counts of all entries sum to the number of devices |
| Aggregation.BreakdownMembers | src/app/summary/dummyData.ts:79 | every sorted entry is one of the entries built |
| Aggregation.BreakdownEntries | src/app/summary/dummyData.ts:71-78 | each entry's count is the number of devices with its protection value (at least one), its percentage is within half a unit of the exact share and at most 100 |
| Aggregation.BreakdownPartition | src/app/summary/dummyData.ts:66-76 | no protection value has two entries, and every device's value has one |
| Aggregation.BreakdownEmpty | src/app/summary/dummyData.ts:71-79 | no devices give no entries |
| Aggregation.GetSummaryData | src/app/summary/dummyData.ts:83-94 | the built-in 24 devices with their aggregation and breakdown, both computed from that same list, and a total equal to its length that both sums reach |
| Sorting.SortBy | src/app/summary/dummyData.ts:59 | `Array.prototype.sort` by a key: the result is a permutation of the input |
| Sorting.SortBySorted | src/app/summary/dummyData.ts:59 | the sorted sequence is ordered by the key |
| Sorting.SortByStable | src/app/summary/dummyData.ts:59 | the sort is stable: the elements sharing a key keep their input order |
| Sorting.InsertWithKey | src/app/summary/dummyData.ts:59 | inserting one element keeps the order of the elements with any one key, the new one placed before its equals |
| Sorting.InsertWithKeyPast | src/app/summary/dummyData.ts:59 | the same, in the case where the element moves past the head |
| Sorting.SortBySum | src/app/summary/dummyData.ts:59 | sorting does not change a sum over the elements |
| Sorting.SortBySortedIsIdentity | python-stuff/app/extractor.py:183 | sorting a sequence already in key order leaves it unchanged |
| Sorting.LexLessIrreflexive | python-stuff/app/fullExtractionClass.py:385 | Python's string order: no string is below itself |
| Sorting.LexLessTransitive | python-stuff/app/fullExtractionClass.py:385 | Python's string order is transitive |
| Sorting.LexLessTotal | python-stuff/app/fullExtractionClass.py:385 | of two different strings one is below the other |
| Sorting.SortStrings | python-stuff/app/fullExtractionClass.py:385 | `sorted(...)` over strings: a permutation of its input |
| Sorting.SortStringsAscending | python-stuff/app/fullExtractionClass.py:385 | sorting pairwise different strings gives a strictly ascending sequence |
| Tally.Distinct | src/app/summary/dummyData.ts:38-64 | the keys of an insertion-ordered Map: every element once, in first-seen order, no duplicates |
| Tally.CountMapAt | src/app/summary/dummyData.ts:66-69 | the counting Map: its keys are the elements that occur, each mapped to its number of occurrences |
| LegacyExport.AllDevicesSheet | src/app/summary/ExportButton.tsx:22-30 | one "All Devices" row per device, in input order, from which each device is recovered unchanged except for its id |
| LegacyExport.SummarySheet | src/app/summary/ExportButton.tsx:46-61 | one "Summary" row per group, in group order, with its fields, its count as Quantity and its NRo list joined with `, `; then exactly one TOTAL row with the number of devices and empty text cells |
| LegacyExport.SummarySheetBalances | src/app/summary/ExportButton.tsx:46-61 | for the page's own groups, the group rows' quantities add up to the TOTAL row's quantity |
| LegacyExport.GroupQuantities | src/app/summary/ExportButton.tsx:50 | the group rows' quantities add up to the groups' counts |
| LegacyExport.GroupRowDescribes | src/app/summary/ExportButton.tsx:50-51 | a group's row gives the number of devices with its key and their numbers, in input order, joined with `, ` |
| LegacyExport.GroupInAggregatedDescribes | src/app/summary/ExportButton.tsx:46-52 | the same for every group of the sorted aggregation |
| LegacyExport.SummaryRowsDescribeGroups | src/app/summary/ExportButton.tsx:46-52 | the `a`-th summary row stands for the `a`-th group's key |
| LegacyExport.PercentCell | src/app/summary/ExportButton.tsx:77 | `${percentage}%`: decimal digits followed by `%`, from which the percentage is read back |
| LegacyExport.ProtectionSheet | src/app/summary/ExportButton.tsx:74-78 | one "By Protection" row per breakdown entry, in order, with its value, count and percentage cell |
| LegacyExport.ProtectionCounts | src/app/summary/ExportButton.tsx:76 | the sheet's counts add up to the entries' counts |
| LegacyExport.ProtectionSheetBalances | src/app/summary/ExportButton.tsx:74-78 | for the page's own breakdown, the sheet's counts add up to the number of devices |
| Suoja.ParseSuoja | frontend/src/app/summary/SummaryTable.tsx:23-29 | `parseSuoja` (one definition for the three copies): the separator is reported iff splitting is on and the value holds a `/`; without it the value passes whole with no output; with it both parts are free of `/` |
| Suoja.ParseWithoutSplitting | frontend/src/app/summary/ExportButton.tsx:27-33 | with splitting off the value passes through whole, output `null` |
| Suoja.ParseFirstTwoSegments | frontend/src/app/summary/page.tsx:27-33 | for `a/b` followed by nothing or by a further `/...`, the parts are `a` and `b` trimmed; later segments are dropped |
| Suoja.TrimKeepsOut | frontend/src/app/summary/SummaryTable.tsx:25 | trimming a piece adds no character, so a piece without `/` stays without one |
| Suoja.OutputText | frontend/src/app/summary/ExportButton.tsx:86-87 | the output cell `output \|\| ''`: empty when there is no output, the output otherwise |
| Suoja.ShowsInOutOnlyWithSlash | frontend/src/app/summary/SummaryTable.tsx:145-158 | the In/Out badges appear only when splitting is on and the value holds a `/`; otherwise the raw value shows |
| SummaryView.SuojaViewOf | frontend/src/app/summary/page.tsx:231-245 | the protection cell: the raw value unless splitting is on, the value holds a `/` and the output is non-empty, in which case the In and Out badges show slash-free parts |
| SummaryView.SuojaViewOfSegments | frontend/src/app/summary/SummaryTable.tsx:145-158 | for `a/b...` the badges are `a` and `b` trimmed, and appear exactly when `b` is not blank |
| SummaryView.IconsFrom | frontend/src/app/summary/page.tsx:208-222 | the icons rendered: at most one per id, each a catalog entry |
| SummaryView.IconsFromAppend | frontend/src/app/summary/SummaryTable.tsx:116-130 | the icons of two id lists in a row are the icons of each, in order |
| SummaryView.UnknownIconHidden | frontend/src/app/summary/page.tsx:208-222 | an id with no catalog entry renders nothing wherever it stands |
| SummaryView.IconsFromAllKnown | frontend/src/app/summary/page.tsx:208-222 | when every id has an entry, each renders as its own entry, in order |
| SummaryView.SummaryHeader | frontend/src/app/summary/SummaryTable.tsx:87-102 | Icons, `Suoja (In/Out)` or `Suoja`, `Cable Types` iff cables are shown, Quantity last |
| SummaryView.CableCellOf | frontend/src/app/summary/SummaryTable.tsx:160-192 | the cable cell lists the cable types, shows `-` iff there are none, and shows the Mismatch marker iff the item has a cable mismatch |
| SummaryView.SummaryRowOf | frontend/src/app/summary/SummaryTable.tsx:105-198 | one row per item keyed by its id: its known icons, its protection cell, a cable cell iff cables are shown, and its count |
| SummaryView.SummaryTable | frontend/src/app/summary/SummaryTable.tsx:84-216 | one body row per item in order; the footer spans 3 columns with cables and 2 without and shows the total |
| SummaryView.SummaryTableAligned | frontend/src/app/summary/SummaryTable.tsx:88-204 | every body row has the header's width, the footer's span plus its total cell cover the header, and the total sits under Quantity |
| SummaryView.DeviceHeader | frontend/src/app/summary/page.tsx:171-192 | Page, Icons, NRo, Kuvateksti, `Suoja (In/Out)` or `Suoja`, then Kaapeli iff cables are shown |
| SummaryView.DeviceLineOf | frontend/src/app/summary/page.tsx:195-252 | a device's row: its page, known icons, NRo and description unchanged, its protection cell, and its cable iff cables are shown |
| SummaryView.RowsLabel | frontend/src/app/summary/page.tsx:163-165 | `<n> rows`: the decimal digits of `n` followed by ` rows`, from which `n` is read back |
| SummaryView.DeviceTable | frontend/src/app/summary/page.tsx:163-256 | one row per device in `allDevices` order, under a label counting them |
| SummaryView.DeviceTableAligned | frontend/src/app/summary/page.tsx:171-252 | every row of the raw table has exactly the header's columns |
| SummaryView.ProtectionColor | frontend/src/app/summary/ProtectionBreakdown.tsx:26-28 | `getProtectionColor`: the table's colour for a listed value, `bg-zinc-500` for any other |
| SummaryView.LowRatingColors | frontend/src/app/summary/ProtectionBreakdown.tsx:11-17 | 10, 16 and 25 A, each spelled `NNA` and `CNN`, get emerald, blue and djanbee |
| SummaryView.HighRatingColors | frontend/src/app/summary/ProtectionBreakdown.tsx:18-24 | 32, 40 and 63 A, each spelled both ways, get orange, red and purple |
| SummaryView.AmpereAndCurveSpellingsAgree | frontend/src/app/summary/ProtectionBreakdown.tsx:11-24 | for NN in {10, 16, 25, 32, 40, 63}, `NNA` and `CNN` get the same colour, never the default |
| SummaryView.ShareText | frontend/src/app/summary/ProtectionBreakdown.tsx:49-52 | the share is `0.0` when there are no devices, otherwise the share rounded to one decimal |
| SummaryView.ShareMatchesExport | frontend/src/app/summary/ProtectionBreakdown.tsx:49-67 | the chart's share followed by `%` is the export's percentage cell |
| SummaryView.Bars | frontend/src/app/summary/ProtectionBreakdown.tsx:48-85 | one bar block per entry, in order, showing its value, colour, share and count |
| SummaryView.Legend | frontend/src/app/summary/ProtectionBreakdown.tsx:91-102 | one legend item per entry, in order, showing its colour, value and count |
| SummaryView.BarsMatchLegend | frontend/src/app/summary/ProtectionBreakdown.tsx:48-102 | the bar and the legend item of an entry agree on value, colour and count |
| ExportSheet.RowFromCellsAt | frontend/src/app/summary/ExportButton.tsx:53-74 | a row written left to right from A occupies exactly the columns A up to its width, each holding its cell |
| ExportSheet.Placed | frontend/src/app/summary/ExportButton.tsx:57-73 | writing the column the letter has reached and stepping the letter (`charCodeAt(0) + 1`) extends the row by one cell |
| ExportSheet.FrontRow | frontend/src/app/summary/ExportButton.tsx:185-190 | a row written from A to D in one literal is the row of those four cells |
| ExportSheet.CableText | frontend/src/app/summary/ExportButton.tsx:95-97 | the cable cell is the cable types joined with `, `, followed by ` ⚠️ MISMATCH` exactly when the item has a cable mismatch |
| ExportSheet.SummaryHeaderLayout | frontend/src/app/summary/ExportButton.tsx:53-74 | A = Type, then Suoja Input and Suoja Output or just Suoja, then Cable Types iff cables are shown, then Quantity in the next column, with no gaps |
| ExportSheet.ItemRowLayout | frontend/src/app/summary/ExportButton.tsx:77-103 | each item row fills exactly the header's columns: icons joined with ` + `, its protection value or parts (`''` for a missing output), its cable cell when shown, its count under Quantity |
| ExportSheet.TotalBesideQuantity | frontend/src/app/summary/ExportButton.tsx:106-121 | in all four switch settings the total row holds `TOTAL:` one column left of Quantity and the total count under Quantity, and nothing else |
| ExportSheet.Tenths | frontend/src/app/summary/ExportButton.tsx:140 | the share in tenths of a percent, rounded half up: within half a tenth of `1000 * count / total` |
| ExportSheet.OneDecimal | frontend/src/app/summary/ExportButton.tsx:140 | `toFixed(1)` on a count of tenths: digits, a point and one digit, reading back to that count |
| ExportSheet.PercentText | frontend/src/app/summary/ExportButton.tsx:139-144 | the percentage cell is `0.0%` when the total count is 0, otherwise the rounded share with one decimal and `%` |
| ExportSheet.ZeroTotalPercent | frontend/src/app/summary/ExportButton.tsx:139-140 | with no devices the cell reads as a zero share |
| ExportSheet.DeviceHeaderLayout | frontend/src/app/summary/ExportButton.tsx:158-180 | A..D are Page, Type, NRo, Kuvateksti; the protection title(s) start at E; Kaapeli appears iff cables are shown, last |
| ExportSheet.DeviceRowLayout | frontend/src/app/summary/ExportButton.tsx:183-207 | each device row fills exactly the device header's columns with its page, icons, number, description, protection value or parts, and cable when shown |
| ExportSheet.ItemRows | frontend/src/app/summary/ExportButton.tsx:77-103 | one row per item, in order |
| ExportSheet.ProtectionRows | frontend/src/app/summary/ExportButton.tsx:138-146 | one row per protection value, in order |
| ExportSheet.DeviceRows | frontend/src/app/summary/ExportButton.tsx:183-208 | one row per device, in order |
| ExportSheet.SummaryBlockLayout | frontend/src/app/summary/ExportButton.tsx:42-121 | the summary block is the title row, the header, one row per item and the total row |
| ExportSheet.ProtectionBlockLayout | frontend/src/app/summary/ExportButton.tsx:123-146 | the protection block is an empty row, its title, its header and one row per value |
| ExportSheet.DeviceBlockLayout | frontend/src/app/summary/ExportButton.tsx:148-208 | the device block is two empty rows, its title, its header and one row per device |
| ExportSheet.DeviceBlockHead | frontend/src/app/summary/ExportButton.tsx:148-181 | the device block has four rows before the devices, the fourth its header |
| ExportSheet.DeviceBlockRows | frontend/src/app/summary/ExportButton.tsx:183-208 | the device block holds, after its four heading rows, one row per device in order |
| ExportSheet.SheetLayout | frontend/src/app/summary/ExportButton.tsx:39-208 | the sheet has 10 + items + protection values + devices rows: the three blocks, one after another |
| ExportSheet.BuildSummaryHeader | frontend/src/app/summary/ExportButton.tsx:53-74 | the header filled column by column as the letter steps, equal to the summary header |
| ExportSheet.BuildItemRow | frontend/src/app/summary/ExportButton.tsx:78-101 | an item's row filled column by column, equal to its item row |
| ExportSheet.WriteSuoja | frontend/src/app/summary/ExportButton.tsx:84-92 | writing the protection cells from the current column on appends input and output when split, the raw value otherwise, and leaves the column after them |
| ExportSheet.BuildTotalRow | frontend/src/app/summary/ExportButton.tsx:106-120 | the label column starts at C or B and moves right when cables are shown; equal to the total row |
| ExportSheet.BuildDeviceHeader | frontend/src/app/summary/ExportButton.tsx:158-178 | the device header filled column by column from E, equal to the device header |
| ExportSheet.BuildDeviceRow | frontend/src/app/summary/ExportButton.tsx:184-205 | a device's row filled column by column from E, equal to its device row |
| ExportSheet.BuildProtectionRow | frontend/src/app/summary/ExportButton.tsx:139-145 | a value's row with the percentage guarded against a zero total |
| ExportSheet.PushItemRows | frontend/src/app/summary/ExportButton.tsx:77-103 | the `forEach` pushing item rows appends exactly the item rows |
| ExportSheet.PushProtectionRows | frontend/src/app/summary/ExportButton.tsx:138-146 | the `forEach` pushing protection rows appends exactly the protection rows |
| ExportSheet.PushDeviceRows | frontend/src/app/summary/ExportButton.tsx:183-208 | the `forEach` pushing device rows appends exactly the device rows |
| ExportSheet.ExportSummary | frontend/src/app/summary/ExportButton.tsx:40-121 | the pushes of the summary part give the summary block |
| ExportSheet.ExportProtection | frontend/src/app/summary/ExportButton.tsx:123-146 | the pushes of the protection part append the protection block |
| ExportSheet.ExportDevices | frontend/src/app/summary/ExportButton.tsx:148-208 | the pushes of the device part append the device block |
| ExportSheet.HandleExport | frontend/src/app/summary/ExportButton.tsx:35-208 | `handleExport`'s row list is the sheet, with 10 + items + protection values + devices rows |
| Symbols.FindIndex | frontend/src/models/symbols.ts:94 | where `Array.prototype.find` stops: the first entry satisfying the test, nothing iff no entry does |
| Symbols.Find | frontend/src/models/symbols.ts:94-99 | `find`: an entry of the table satisfying the test, the first such, `undefined` iff none does |
| Symbols.FirstMatchUnique | frontend/src/models/symbols.ts:94 | there is only one first match |
| Symbols.ById | frontend/src/models/symbols.ts:93-95 | lookup by id over a table: an entry with that id, `undefined` iff there is none |
| Symbols.ByApiId | frontend/src/models/symbols.ts:98-100 | lookup by apiId over a table: an entry with that apiId, `undefined` iff there is none |
| Symbols.ByIdOfEntry | frontend/src/models/symbols.ts:93-95 | with distinct ids, an entry's own id finds that entry |
| Symbols.ByApiIdOfEntry | frontend/src/models/symbols.ts:98-100 | with distinct apiIds, an entry's own apiId finds that entry |
| Symbols.GetById | frontend/src/models/symbols.ts:93-95 | `getSymbolById` over `SYMBOLS`: an entry with that id, `undefined` iff there is none |
| Symbols.GetByApiId | frontend/src/models/symbols.ts:98-100 | `getSymbolByApiId` over `SYMBOLS`: an entry with that apiId, `undefined` iff there is none |
| Symbols.CatalogKeysDistinct | frontend/src/models/symbols.ts:11-90 | no two catalog entries share an id, nor an apiId |
| Symbols.CatalogIdsDistinct | frontend/src/models/symbols.ts:11-90 | no two catalog entries share an id |
| Symbols.CatalogApiIdsDistinct | frontend/src/models/symbols.ts:11-90 | no two catalog entries share an apiId |
| Symbols.CatalogLookups | frontend/src/models/symbols.ts:11-100 | every catalog entry is found by its own id and by its own apiId |
| Symbols.Normalize | frontend/src/models/symbols.ts:106-111 | the normaliser's output holds only `[a-z0-9_]` |
| Symbols.NameCharNotSeparator | frontend/src/models/symbols.ts:110-111 | a character of `[a-z0-9_]` is neither whitespace nor a hyphen |
| Symbols.NormalizeNameChars | frontend/src/models/symbols.ts:106-111 | a string made only of `[a-z0-9_]` is its own normal form |
| Symbols.NormalizeIdempotent | frontend/src/models/symbols.ts:106-111 | normalising twice is normalising once |
| Symbols.ByName | frontend/src/models/symbols.ts:104-119 | an empty name gives `undefined`; a result matches on normalised name or normalised apiId; when some entry's normalised name matches, the result matches by name (names take priority); `undefined` iff the name is empty or nothing matches either way |
| Symbols.NameLookupOfEntry | frontend/src/models/symbols.ts:104-119 | an entry's own non-empty name finds an entry with the same normalised name |
| Symbols.CatalogNamesNonEmpty | frontend/src/models/symbols.ts:11-90 | every catalog entry has a non-empty name |
| Text.TrimStart | frontend/src/models/symbols.ts:109 | drops exactly the leading whitespace |
| Text.TrimEnd | frontend/src/models/symbols.ts:109 | drops exactly the trailing whitespace |
| Text.Trim | frontend/src/app/summary/SummaryTable.tsx:25 | `trim()`/`strip()`: a slice of the input that neither starts nor ends with whitespace, only whitespace cut |
| Text.TrimAvoids | frontend/src/app/summary/SummaryTable.tsx:25 | a character absent from a string is absent from its trimmed form |
| Text.TrimNoop | frontend/src/models/symbols.ts:109 | a string without whitespace at either end is its own trim |
| Text.TrimIdempotent | python-stuff/app/main.py:97 | trimming twice is trimming once |
| Text.Lower | frontend/src/models/symbols.ts:108 | `toLowerCase()` on ASCII: same length, each letter lowered |
| Text.LowerNoop | frontend/src/models/symbols.ts:108 | a string without upper-case letters is unchanged |
| Text.LowerChar | frontend/src/models/symbols.ts:108 | an upper-case ASCII letter becomes its lower-case letter, any other character is kept |
| Text.IndexOf | frontend/src/app/summary/SummaryTable.tsx:24 | the first position of a character that occurs |
| Text.Split | frontend/src/app/summary/SummaryTable.tsx:25 | `split(c)`: at least one piece, no piece holds `c`, the pieces joined with `c` give back the input, one piece iff `c` does not occur |
| Text.SplitCons | frontend/src/app/summary/SummaryTable.tsx:25 | a `c`-free piece followed by `c` is split off first |
| Text.SplitHead | frontend/src/app/summary/SummaryTable.tsx:25 | a `c`-free piece followed by nothing or by `c` is the first piece |
| Text.CollapseRuns | frontend/src/models/symbols.ts:110 | `replace(/[\s\-]+/g, '_')`: no longer than the input, every remaining character is the replacement or not a run character |
| Text.CollapseRunsNoop | frontend/src/models/symbols.ts:110 | a string without run characters is unchanged |
| Text.CollapseRunsSpan | frontend/src/models/symbols.ts:110 | a run-free stretch is copied, the maximal run after it becomes one `_` |
| Text.CollapseRunsAtRun | frontend/src/models/symbols.ts:110 | a leading maximal run becomes one `_` |
| Text.TrimStartDropsRun | frontend/src/models/symbols.ts:110 | dropping a run followed by a non-run character leaves what follows |
| Text.KeepIf | frontend/src/models/symbols.ts:111 | `replace(/[^a-z0-9_]/g, '')`: keeps only allowed characters, and a string of allowed characters is unchanged |
| Text.ReplaceChar | src/models/symbols.ts:81 | `replace(/_/g, ' ')`: same length, every `_` replaced, the rest kept |
| Text.Take | python-stuff/app/main.py:88-91 | `s[:n]`: at most `n` characters, a prefix of `s`, all of `s` when it is short enough |
| Text.NatToStringSpec | src/app/summary/ExportButton.tsx:77 | the decimal numeral: digits only, no leading zero, reading back to the number |
| Text.Pad2Spec | python-stuff/app/main.py:106 | `f"{n:02d}"`: at least two digits, reading back to the number |
| Text.DigitChar | python-stuff/app/main.py:106 | the digit character of a value below ten |
| LegacySymbols.GetById | src/models/symbols.ts:57-59 | an entry of the older catalog with that id, `undefined` iff there is none |
| LegacySymbols.GetByApiId | src/models/symbols.ts:62-64 | an entry of the older catalog with that apiId, `undefined` iff there is none |
| LegacySymbols.StageFind | src/models/symbols.ts:73-89 | one stage's `find`: an entry passing that stage's comparison, `undefined` iff none does |
| LegacySymbols.ByNameStaged | src/models/symbols.ts:68-93 | an empty name gives `undefined`; otherwise, on the trimmed input, an exact name match wins, then a case-insensitive one, then one with `_` read as spaces, then an apiId match with whitespace runs read as `_`; each stage is consulted only when all earlier ones fail, and the result is `undefined` iff all four fail |
| LegacySymbols.ByNameStagedTrims | src/models/symbols.ts:70 | only the trimmed input matters: inputs that trim alike find the same entry |
| LegacySymbols.ExactNameFindsEntry | src/models/symbols.ts:72-74 | with distinct names, an entry's own trimmed name is found by the exact comparison |
| LegacySymbols.LegacyCatalogDistinct | src/models/symbols.ts:11-54 | the older catalog's ids, apiIds and names are each pairwise distinct |
| LegacySymbols.LegacyCatalogLookups | src/models/symbols.ts:11-64 | every entry of the older catalog is found by its id and by its apiId |
| LegacySymbols.LegacyNamesTrimmed | src/models/symbols.ts:11-54 | no name of the older catalog is empty or has surrounding whitespace |
| LegacySymbols.LegacyNameLookup | src/models/symbols.ts:11-93 | every entry of the older catalog is found by its own name |
| IconSlots.Defined | src/app/analyze/IconManagementModal/index.tsx:33-36 | the reported ids: never more than the slots, every one the id of a filled slot |
| IconSlots.Filled | src/app/analyze/IconManagementModal/index.tsx:23-25 | the slots filled with the given ids, one each, in order |
| IconSlots.DefinedAppend | src/app/analyze/IconManagementModal/index.tsx:33-36 | the ids of two slot lists in a row are the ids of each, in order |
| IconSlots.DefinedFilled | src/app/analyze/IconManagementModal/index.tsx:23-25 | reading back filled slots gives the ids that filled them |
| IconSlots.DefinedLength | src/app/analyze/IconManagementModal/index.tsx:33-36 | one reported id per filled slot |
| IconSlots.DefinedHas | src/app/analyze/IconManagementModal/index.tsx:33-36 | a filled slot's id is among the reported ids |
| IconSlots.SetSlot | src/app/analyze/IconManagementModal/index.tsx:31-32 | `copy[index] = id`: that slot holds the id and every other slot is unchanged; past the end the list grows with empty slots between |
| IconSlots.RemoveSlot | src/app/analyze/IconManagementModal/index.tsx:45 | `filter((_, i) => i !== index)`: the slot at `index` goes and the others keep their order; an index outside the list removes nothing |
| IconSlots.RemoveSlotDefined | src/app/analyze/IconManagementModal/index.tsx:45-55 | after removal the reported ids are those before the slot followed by those after it |
| IconSlots.SetSlotDefined | src/app/analyze/IconManagementModal/index.tsx:29-36 | filling a slot reports the chosen id in that slot's place among the filled ones |
| IconSlots.AddedSlotReportsNothing | src/app/analyze/IconManagementModal/index.tsx:40-42 | an appended empty slot adds no reported id |
| IconSlots.IconEditor.constructor | src/app/analyze/IconManagementModal/index.tsx:23-27 | the slots are the current icons, or one empty slot when there are none; not selecting; editing slot 0 |
| IconSlots.IconEditor.HandleIconClick | src/app/analyze/IconManagementModal/index.tsx:29-37 | only the slot being edited changes, to the picked id; the filled ids are reported and include it; the picker closes |
| IconSlots.IconEditor.HandleAddSymbol | src/app/analyze/IconManagementModal/index.tsx:40-42 | exactly one empty slot is appended, and the reported ids would not change |
| IconSlots.IconEditor.HandleRemoveSymbol | src/app/analyze/IconManagementModal/index.tsx:44-56 | exactly the slot at `index` goes, the rest keep their order, and the filled ids are reported; removing the last slot leaves one empty slot and reports `[]` |
| IconSlots.IconEditor.RequestSelection | src/app/analyze/IconManagementModal/index.tsx:95-98 | the requested slot becomes the one being edited and the picker opens |
| IconSlots.IconEditor.HandleClose | src/app/analyze/IconManagementModal/index.tsx:59-62 | back to the composer, slots unchanged |
| RowBands.RunEnd | python-stuff/app/extractor.py:167-180 | the end of the run of `true` scan lines that starts at `i`: at or after `i`, inside the mask, followed by a `false` line or the bottom edge |
| RowBands.RunEndAllTrue | python-stuff/app/extractor.py:167-180 | every scan line from the start of a run to its end is a line of ink |
| RowBands.Centers | python-stuff/app/extractor.py:174-179 | one line position per run |
| RowBands.CentersAt | python-stuff/app/extractor.py:174-179 | each line position is `(start + end) // 2` of its run |
| RowBands.RunsMaximal | python-stuff/app/extractor.py:163-180 | every run found is all `true` and maximal: bounded by a `false` line or an edge on both sides |
| RowBands.RunsOrdered | python-stuff/app/extractor.py:163-180 | the runs lie inside the mask, top to bottom, with at least one `false` line between two |
| RowBands.FirstRunStart | python-stuff/app/extractor.py:167-170 | the first run from line `i` on starts at a `true` line at or after `i` |
| RowBands.RunsInside | python-stuff/app/extractor.py:163-180 | every run from line `i` on starts at or after `i` and ends inside the mask, not before it starts |
| RowBands.RunsSeparated | python-stuff/app/extractor.py:163-180 | two consecutive runs are separated by at least one line |
| RowBands.RunsCover | python-stuff/app/extractor.py:163-180 | every `true` scan line belongs to some run (no ink line is missed) |
| RowBands.RunEndAt | python-stuff/app/extractor.py:171-175 | a run of `true` lines closed by a `false` line or the bottom edge at `y` ends at `y - 1` |
| RowBands.OpenStep | python-stuff/app/extractor.py:168-170 | a `true` line outside a segment opens a segment starting there; the runs reported and those still to come are unchanged |
| RowBands.SkipStep | python-stuff/app/extractor.py:167-175 | a `false` line outside a segment changes nothing |
| RowBands.StayStep | python-stuff/app/extractor.py:167-175 | a `true` line inside a segment changes nothing |
| RowBands.CloseStep | python-stuff/app/extractor.py:171-175 | a `false` line inside a segment closes it: the run `start..y-1` joins the reported runs |
| RowBands.ScanLine | python-stuff/app/extractor.py:167-175 | one turn of the scan loop keeps the scan invariant and reports the centre of every run it closes |
| RowBands.FinishScan | python-stuff/app/extractor.py:177-180 | at the bottom edge the runs reported, plus the open segment when there is one, are all the runs |
| RowBands.LinePositions | python-stuff/app/extractor.py:163-180 | the scan loop reports exactly the centres of the maximal runs, top to bottom |
| RowBands.Interior | python-stuff/app/extractor.py:182 | only line positions more than 50 pixels from both edges are kept, each one taken from the input |
| RowBands.CentersIncreasing | python-stuff/app/extractor.py:163-180 | the line positions found are strictly increasing |
| RowBands.InteriorIncreasing | python-stuff/app/extractor.py:182 | filtering keeps strictly increasing positions strictly increasing |
| RowBands.DropHeader | python-stuff/app/extractor.py:192-194 | the first band, the header row, is dropped when there is one; no bands stay no bands |
| RowBands.SortedLinesUnchanged | python-stuff/app/extractor.py:182-183 | `sorted(line_positions)` leaves the filtered positions as they are, since they are already strictly increasing |
| RowBands.GapBands | python-stuff/app/extractor.py:185-190 | the band loop yields the gaps between consecutive lines |
| RowBands.DetectRowBounds | python-stuff/app/extractor.py:152-196 | `detect_row_bounds` on a line mask: interior line centres, sorted, gaps more than 15 high, header dropped |
| RowBands.GapsMembers | python-stuff/app/extractor.py:185-190 | a band is produced if and only if it is `(p[i] + 1, p[i+1] - 1)` for consecutive lines with height more than 15 |
| RowBands.GapsOrdered | python-stuff/app/extractor.py:185-190 | for increasing lines the bands are more than 15 high, disjoint, top to bottom, and strictly between the first and last line |
| RowBands.DetectedBandsAreGaps | python-stuff/app/extractor.py:182-196 | the detected bands are the gaps of the interior lines minus the header |
| RowBands.InteriorLinesFacts | python-stuff/app/extractor.py:182-183 | the lines used are strictly increasing and more than 50 pixels from both edges |
| RowBands.BandsOfLines | python-stuff/app/extractor.py:185-194 | the bands kept after the header are ordered, disjoint and inside the page margins |
| RowBands.DetectedBandsOrdered | python-stuff/app/fullExtractionClass.py:248-279 | every detected band is more than 15 high, bands are top to bottom and disjoint, and all lie more than 50 pixels inside the page |
| RowBands.FewLinesNoBands | python-stuff/app/extractor.py:185-194 | with two interior lines or fewer there is at most one gap, the header, so no band is reported |
| RowBands.SortedBandsUnchanged | python-stuff/app/extractor.py:216 | `sorted(row_bands)` leaves the detected bands in the order found |
| Extractor.BestSoFarSpec | python-stuff/app/extractor.py:129-145 | either no eligible template scored above 0 and the result is `("unknown", 0.0, None)`, or the result is the first eligible template with the highest score |
| Extractor.FirstBestUnique | python-stuff/app/extractor.py:142 | the strict `>` picks one template: the first best is unique |
| Extractor.SelectFirstBest | python-stuff/app/extractor.py:142-149 | the first best template is reported with its score and position when it reaches the threshold, otherwise `"unknown"` with its score and no position |
| Extractor.SelectNoPositive | python-stuff/app/extractor.py:129-131 | when no eligible template scores above 0 the row is `("unknown", 0.0, None)` |
| Extractor.MatchTemplatesInRow | python-stuff/app/extractor.py:119-149 | the loop computes the selection; no templates gives `("unknown", 0.0, None)` |
| Extractor.PageRowsAt | python-stuff/app/extractor.py:216-238 | one row per band, in band order, numbered from 1, each the selection and OCR text of its band |
| Extractor.ExtractPage | python-stuff/app/extractor.py:208-240 | `extract_page` yields the page whose rows are those of the detected bands |
| Extractor.ExtractedPageRows | python-stuff/app/extractor.py:213-240 | row `k` of a page is detected band `k`, numbered `k + 1`, with that band's symbol and protection text |
| Extractor.Pages | python-stuff/app/extractor.py:263-269 | one page per image, numbered from 1 |
| Extractor.ExtractFromPdfBytes | python-stuff/app/extractor.py:243-278 | a PDF that cannot be converted gives `("error", filename, 0, 0, [])`; otherwise `"success"` with one page per image and the total row count |
| Extractor.PagesRowCount | python-stuff/app/extractor.py:263-276 | `total_rows` is the number of detected bands over all pages |
| Extractor.ExtractionTotals | python-stuff/app/extractor.py:270-276 | the reported total is the sum of the pages' band counts |
| FullExtraction.CenterKeyOrder | python-stuff/app/fullExtractionClass.py:207-220 | ordering hits by `2x + width` is ordering them by `x_center = x + width / 2` |
| FullExtraction.HitsSpec | python-stuff/app/fullExtractionClass.py:196-217 | a template's hits are its successive peaks while they reach the threshold, in order, and the first peak below it ends the loop |
| FullExtraction.CollectSpec | python-stuff/app/fullExtractionClass.py:188-217 | every collected hit scores at least the threshold and comes from a template no taller or wider than the row |
| FullExtraction.MultiMatchSpec | python-stuff/app/fullExtractionClass.py:163-221 | the hits come back sorted by `x_center` (stable), as a permutation of the collected hits, each from a fitting template at or above the threshold |
| FullExtraction.MatchTemplatesInRowMulti | python-stuff/app/fullExtractionClass.py:163-221 | the nested template/peak loops and the final sort compute the multi-match |
| FullExtraction.AppendHits | python-stuff/app/fullExtractionClass.py:163-221 | the peak loop of one template appends its detections, stopping at the first peak below the threshold |
| FullExtraction.Strong | python-stuff/app/fullExtractionClass.py:365 | a detection is kept if and only if it scores at least `ROW_SYMBOL_THRESH` (0.80) |
| FullExtraction.Names | python-stuff/app/fullExtractionClass.py:368-369 | the names of the detections, one each, in order |
| FullExtraction.BestScoresKeys | python-stuff/app/fullExtractionClass.py:367-372 | the `defaultdict` has a key exactly for every name seen |
| FullExtraction.BestScoresUpper | python-stuff/app/fullExtractionClass.py:367-372 | each name's entry is at least every score of that name, and never below 0.0 |
| FullExtraction.BestScoresAchieved | python-stuff/app/fullExtractionClass.py:367-372 | a non-zero entry is the score of some detection of that name |
| FullExtraction.ExclusiveSpec | python-stuff/app/fullExtractionClass.py:374-382 | `basic1line` and `basic3line` never both survive; the higher one (`basic1line` on a tie) stays; all other entries are kept unchanged |
| FullExtraction.RemoveName | python-stuff/app/fullExtractionClass.py:380-382 | `del` of one key from the key order: exactly the other names remain |
| FullExtraction.RemoveNameDistinct | python-stuff/app/fullExtractionClass.py:380-382 | removing a key keeps the key order free of duplicates |
| FullExtraction.KeyOrderSpec | python-stuff/app/fullExtractionClass.py:384 | the dictionary's keys, free of duplicates, are exactly the surviving names |
| FullExtraction.UniqueSymbolsSpec | python-stuff/app/fullExtractionClass.py:384-385 | `sorted(name_best_score.keys())` is strictly ascending and holds exactly the keys of `symbol_scores` |
| FullExtraction.SymbolScoresSpec | python-stuff/app/fullExtractionClass.py:365-384 | each reported score is the best strong score of its name, at least 0.80; every strong name other than the two exclusive ones is reported |
| FullExtraction.NameBestScores | python-stuff/app/fullExtractionClass.py:367-372 | the `defaultdict` loop computes the best score per name and the first-seen key order |
| FullExtraction.SelectRowSymbols | python-stuff/app/fullExtractionClass.py:365-385 | the per-row reduction yields the symbol scores and the sorted unique names |
| FullExtraction.RowAtIndex | python-stuff/app/fullExtractionClass.py:400-401 | a row carries the band position it was built at as `row_index` |
| FullExtraction.RowOptions | python-stuff/app/fullExtractionClass.py:342-410 | one candidate row per band |
| FullExtraction.RowOptionsIndexed | python-stuff/app/fullExtractionClass.py:342-401 | the candidate row of band `k` has `row_index == k + 1` |
| FullExtraction.ClassifiedRowsSpec | python-stuff/app/fullExtractionClass.py:342-412 | each row is the candidate of the band at its `row_index`, indices strictly increase (rows without symbols leave gaps, none repeat) and every band with a surviving symbol has its row |
| FullExtraction.ClassifyPageImage | python-stuff/app/fullExtractionClass.py:315-412 | a missing or empty image raises "Empty page image passed to classify_page_image"; otherwise the rows of the sorted detected bands, skipping rows without symbols |
| Api.TableRowDeviceSpec | python-stuff/app/main.py:76-92 | a row of fewer than four cells gives no device (if and only if); otherwise id `page-row`, the stripped cells, NRo cut to 4, protection to 6, cable to 14 characters, each a prefix of its cell |
| Api.RowDevices | python-stuff/app/main.py:76 | one candidate device per table row |
| Api.RowDevicesIndexed | python-stuff/app/main.py:76-86 | the candidate device of row `k` is numbered `k + 1`, and exists exactly when the row has at least four cells |
| Api.TableDevicesSpec | python-stuff/app/main.py:75-93 | each device is that of the row at its row number, row numbers strictly increase, and every row of four cells or more gives its device |
| Api.RowDeviceAt | python-stuff/app/main.py:76-92 | position `k` of the candidates is the device of row `k + 1` |
| Api.TableRowsKept | python-stuff/app/main.py:76-93 | every row of four cells or more gives its device |
| Api.FirstTen | python-stuff/app/main.py:100 | `lines[:10]`: a prefix of at most ten lines, all of them when there are ten or fewer |
| Api.LineDevices | python-stuff/app/main.py:100-111 | one device per line |
| Api.LineDeviceAt | python-stuff/app/main.py:100-111 | position `k` of a line list's devices is the device of line `k + 1` |
| Api.FirstTenDevices | python-stuff/app/main.py:100-111 | the first ten lines give min(lines, 10) devices, the `k`-th from line `k`, numbered `k + 1` |
| Api.NonBlankSpec | python-stuff/app/main.py:99 | the kept lines are stripped and non-empty, no more than the input lines |
| Api.NonBlankLength | python-stuff/app/main.py:99 | no more lines are kept than given |
| Api.NonBlankStripped | python-stuff/app/main.py:99 | every kept line is stripped and non-empty |
| Api.LineDeviceSpec | python-stuff/app/main.py:101-110 | a text device: id `page-row`, NRo the two-digit page then the two-digit row, the line cut to 64 characters (non-empty if the line is), empty protection and cable |
| Api.TextDevicesSpec | python-stuff/app/main.py:96-111 | non-empty text gives min(lines, 10) devices, the `k`-th from the `k`-th stripped non-blank line, numbered `k + 1` |
| Api.TableDevicesOnPage | python-stuff/app/main.py:75-93 | every table device carries the page it came from |
| Api.TablesDevicesOnPage | python-stuff/app/main.py:74-93 | every device from a page's tables carries that page |
| Api.PageDevicesOnPage | python-stuff/app/main.py:74-111 | every device of a page, from tables or from text, carries that page |
| Api.AllDevicesFromPages | python-stuff/app/main.py:70-111 | every device names a page between 1 and the page count and is among that page's devices |
| Api.DeviceFromPage | python-stuff/app/main.py:70-111 | one device of all pages names a page between 1 and the page count and is among that page's devices |
| Api.SingleRowTable | python-stuff/app/main.py:76-93 | a one-row table of four cells gives exactly that row's device, numbered 1 |
| Api.FirstDeviceId | python-stuff/app/main.py:84 | the first row of the first page has id `"1-1"` |
| Api.RepeatedIds | python-stuff/app/main.py:75-86 | row numbers restart with each table, so two tables on one page can give two devices with the same id |
| Api.AppendTable | python-stuff/app/main.py:76-93 | the row loop, skipping short rows, appends the table's devices |
| Api.AppendTextLines | python-stuff/app/main.py:96-111 | the text fallback appends the text devices, nothing for no or empty text |
| Api.AppendLines | python-stuff/app/main.py:100-111 | the line loop appends one device per line |
| Api.AppendPage | python-stuff/app/main.py:72-111 | a page with tables contributes its tables' devices, otherwise its text devices |
| Api.ExtractPdfData | python-stuff/app/main.py:59-118 | filename, page count, the device count equal to the number of devices, and the devices of all pages in page order |
| Api.CheckFilenameSpec | python-stuff/app/main.py:138-142 | a name passes if and only if it is given and ends in `.pdf` in any letter case; it is refused as missing (400 "No filename provided") if and only if it is absent or empty; otherwise 400 "Only PDF files are allowed" |
| Options.PresentSpec | python-stuff/app/main.py:76-93 | keeping only the present values of numbered candidates: as many as present, each at its own number, numbers strictly increasing, none lost (shared by the table rows here and the classified rows at python-stuff/app/fullExtractionClass.py:387-410) |
| Options.PresentLength | python-stuff/app/main.py:76-93 | as many values are kept as candidates are present |
| Options.PresentAtOwnIndex | python-stuff/app/main.py:76-93 | each kept value is the candidate at the position its own number names |
| Options.PresentIncreasing | python-stuff/app/main.py:76-93 | the numbers of the kept values strictly increase |
| Options.PresentComplete | python-stuff/app/main.py:76-93 | no present candidate is lost |

## Left out

- Image and document work is foreign to the model.
  - OpenCV binarisation, `matchTemplate`, `minMaxLoc`, non-maximum suppression, Tesseract OCR, pdf2image and pdfplumber are not modelled.
  - Their results are inputs: the line mask of a page, each row's template candidates or successive correlation peaks, the OCR text of each band, and the tables and text of each PDF page.
  - The `while True` peak loop of `match_templates_in_row_multi_2d` is therefore modelled on a given finite list of peaks. Whether the suppression itself terminates is not modelled.
- Floating-point arithmetic is left out.
  - The mask threshold `norm > 0.4` is not modelled; the mask is the input.
  - `compute_column_ranges` and the row margins of the region cut-outs are not modelled.
  - The progress-bar widths and their `Math.max` are not modelled.
- Rounding is modelled on integers.
  - `Math.round(count / total * 100)` is modelled as integer half-up rounding; IEEE division can differ on exact halves.
  - `toFixed(1)` is modelled as half-up tenths, which can differ from IEEE on exact halves.
  - Python's `round(score, 3)` is not applied to the reported score.
- `sorted(row_bands)` and `sorted(line_positions)` are modelled as sorts that leave their input unchanged. This is proved from the fact that band detection already produces strictly increasing values. Python's tuple comparison is then read as an order on the band tops.
- The symbol scores dictionary is modelled as a Dafny `map`, so its iteration order is not modelled. `unique_symbols` is sorted and does not depend on that order.
- Debug output is not modelled: `print`, `cv2.imwrite` of the debug images, and the debug prefix. `console.log` in the device table page is not modelled either.
- `load_templates` / `get_symbol_templates` read files. The templates are inputs.
- FastAPI wiring is not modelled: routing, CORS, base64 encoding of the upload, copying to the upload directory, the async stub, and the HTTP 500 answers for read or extraction failures. Only the filename check, which every endpoint shares, and the row mapping are modelled.
- Table cells hold strings or nothing. `str()` of other cell values is not modelled.
- XLSX workbook creation, column widths and the date-stamped file name are not modelled. The model produces the rows of cells that are written.
- The aggregation hook `useSummaryData` and the extraction contexts are not part of this model. `HookTypes.AggregatedItem` carries only the fields their consumers read, and no grouping or cable-mismatch rule is invented for them.
- The `onClose` and `onSelectIcons` callbacks of the icon editor are not called. Their arguments are the values the handlers report.
- The protection colour lookup is a plain table with a default. JavaScript object keys inherited from the prototype (such as `"constructor"`) are not modelled.
- Case mapping is ASCII only. Non-ASCII letters are never lower-cased, and trimming uses the JavaScript and Python whitespace sets, written out.
- `parseSuoja` splits a value at every `/` and keeps the first two segments, trimmed, as the three copies in the code do. It does not split at the first `/` only.
- Symbols.NameLookupOfEntry: this is weaker than "every catalog entry is found by its own name". It proves only that the entry found has the same normalised name. The lookup returns the first entry that normalises alike, and the model does not prove that the normalised names of `SYMBOLS` are pairwise distinct.
