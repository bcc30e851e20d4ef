/**
 * The configuration record of the device and the constants shared by the
 * codec and the manager.
 */
module Settings {

  /** The single bound on the endpoint list, shared by `addEndpoint` and the decoder. */
  const MAX_ENDPOINTS: nat := 5

  /** What the decoder puts into an empty or missing `locationName`. */
  const UNSET_LOCATION: string := "unset"

  /** `unsigned long`, 32 bits wide on the device. */
  type ULong = n: nat | n < 0x1_0000_0000

  /** Ten minutes in milliseconds: the decoder's fallback for `checkInterval`. */
  const DEFAULT_CHECK_INTERVAL: ULong := 600000

  /** Eight text fields, the polling interval in milliseconds and the ordered
      endpoint URLs. */
  datatype DeviceSettings = DeviceSettings(
    locationName: string,
    networkName: string,
    mainSSID: string,
    mainPass: string,
    altSSID: string,
    altPass: string,
    devSSID: string,
    devPass: string,
    checkInterval: ULong,
    endpoints: seq<string>)

  /** The record `setDefaults` installs: the hard-coded credentials and no endpoints. */
  function Defaults(): DeviceSettings {
    DeviceSettings(
      locationName := UNSET_LOCATION,
      networkName := "",
      mainSSID := "cluster1",
      mainPass := "ISMS12345@",
      altSSID := "tomikawa-wifi",
      altPass := "tomikawa153855",
      devSSID := "fgop",
      devPass := "tetrad12345@@@",
      checkInterval := DEFAULT_CHECK_INTERVAL,
      endpoints := [])
  }

  /** What every endpoint list the decoder produces satisfies: at most
      `MAX_ENDPOINTS` entries, none of them empty. */
  predicate EndpointsOk(eps: seq<string>) {
    |eps| <= MAX_ENDPOINTS && forall i :: 0 <= i < |eps| ==> |eps[i]| > 0
  }
}
