/**
 * The record shapes the current summary page reads from its data hook.
 * The hook itself (which groups the extracted devices and decides cable
 * mismatches) is not part of this model; only the fields its consumers
 * read are given.
 */
module HookTypes {

  /** One aggregated line: a combination of icons with one protection value. */
  datatype AggregatedItem = AggregatedItem(
    id: string,
    icons: seq<string>,          // symbol ids, in order
    suoja: string,               // protection value, possibly "input/output"
    kaapeliTypes: seq<string>,   // the cable types seen for this line
    hasCableMismatch: bool,
    count: nat
  )

  /** One extracted device as the raw table and the export read it. */
  datatype DeviceRow = DeviceRow(
    id: string,
    pageNumber: int,
    icons: seq<string>,
    nro: string,
    kuvateksti: string,
    suoja: string,
    kaapeli: string
  )

  /** One protection value with the number of devices carrying it. */
  datatype AggregatedByProtection = AggregatedByProtection(suoja: string, count: nat)
}
