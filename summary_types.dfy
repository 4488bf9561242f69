/** The record shapes of the older summary page: a device row, a group of like devices, a protection histogram entry and the page's whole data. */
module SummaryTypes {

  /** One device entry extracted from one page of the diagram. */
  datatype DeviceRow = DeviceRow(
    id: string,
    pageNumber: int,
    rowNumber: int,
    symbol: string,      // path of the symbol image
    nro: string,         // device number
    kuvateksti: string,  // description
    suoja: string,       // protection value, e.g. "16A"
    kaapeli: string      // cable type
  )

  /** Devices sharing description, protection and cable, with how many there are and their numbers. */
  datatype AggregatedDevice = AggregatedDevice(
    kuvateksti: string,
    suoja: string,
    kaapeli: string,
    symbol: string,
    count: nat,
    nros: seq<string>
  )

  /** One entry of the protection-value histogram; `percentage` is a whole number. */
  datatype ProtectionSummary = ProtectionSummary(suoja: string, count: nat, percentage: nat)

  datatype SummaryData = SummaryData(
    devices: seq<DeviceRow>,
    aggregated: seq<AggregatedDevice>,
    byProtection: seq<ProtectionSummary>,
    totalCount: nat
  )
}
