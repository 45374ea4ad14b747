/** The network classifier of the auto-send worker. */
module AutoSendNetwork {

  /** The active network as the connectivity service reports it; NoNetwork stands for a null NetworkInfo. */
  datatype Network = NoNetwork | Wifi | Mobile | OtherNetwork

  /** The values of the auto-send preference, decoded; every other string is Unrecognised. */
  datatype AutoSendMode = WifiOnly | CellularOnly | WifiAndCellular | Unrecognised

  function ParseAutoSendMode(setting: string): AutoSendMode
  {
    if setting == "wifi_only" then WifiOnly
    else if setting == "cellular_only" then CellularOnly
    else if setting == "wifi_and_cellular" then WifiAndCellular
    else Unrecognised
  }

  /** Reference table: which network types each mode lets auto-send use. */
  function ModeAllows(mode: AutoSendMode, network: Network): bool
  {
    match mode
    case WifiOnly => network == Wifi
    case CellularOnly => network == Mobile
    case WifiAndCellular => network == Wifi || network == Mobile
    case Unrecognised => false
  }

  /** Whether the active network is one the auto-send preference asks to send on. */
  function NetworkTypeMatchesAutoSendSetting(network: Network, setting: string): (r: bool)
    ensures r == ModeAllows(ParseAutoSendMode(setting), network)
    ensures network == NoNetwork ==> !r
    ensures r <==> ((network == Wifi && (setting == "wifi_only" || setting == "wifi_and_cellular"))
                    || (network == Mobile && (setting == "cellular_only" || setting == "wifi_and_cellular")))
  {
    if network == NoNetwork then false
    else
      var sendWifi := setting == "wifi_only";
      var sendNetwork := setting == "cellular_only";
      var both := setting == "wifi_and_cellular";
      (network == Wifi && (sendWifi || both)) || (network == Mobile && (sendNetwork || both))
  }
}
