/** The nearby-Teltonika badge: RSSI colours and the signal-strength bar. */
module TeltonikaBadge {
  import Utils

  /**
   * The bar width in percent, `max(0, min(100, (rssi + 100) / 100 * 100))`
   * in exact arithmetic: -100 dBm and below is an empty bar, 0 dBm and
   * above a full one, and the width grows one percent per dBm in between.
   */
  function SignalStrength(rssi: real): (percent: real)
    ensures 0.0 <= percent <= 100.0
    ensures rssi <= -100.0 ==> percent == 0.0
    ensures rssi >= 0.0 ==> percent == 100.0
    ensures -100.0 < rssi < 0.0 ==> percent == rssi + 100.0
  {
    Utils.MaxReal(0.0, Utils.MinReal(100.0, ((rssi + 100.0) / 100.0) * 100.0))
  }

  /** A stronger reading never draws a shorter bar. */
  lemma SignalStrengthMonotone(weaker: real, stronger: real)
    requires weaker <= stronger
    ensures SignalStrength(weaker) <= SignalStrength(stronger)
  {
  }

  /** The bar colour, on a third copy of the `> -70` / `> -85` thresholds. */
  function BarColor(rssi: real): (c: Utils.ColorClass)
    ensures c.utility == "bg" && c.shade == "500"
  {
    if rssi > -70.0 then Utils.ColorClass("bg", Utils.Green, "500")
    else if rssi > -85.0 then Utils.ColorClass("bg", Utils.Yellow, "500")
    else Utils.ColorClass("bg", Utils.Red, "500")
  }

  /** The bar, the RSSI text and the badge background are always the same colour family. */
  lemma BarAgreesWithRssiColors(rssi: real)
    ensures BarColor(rssi).hue == Utils.GetRssiColor(rssi).hue
    ensures BarColor(rssi).hue == Utils.GetRssiBgColor(rssi).hue
  {
  }

  /** A full bar is green and an empty one red. */
  lemma BarEndsColored(rssi: real)
    ensures SignalStrength(rssi) == 100.0 ==> BarColor(rssi).hue == Utils.Green
    ensures SignalStrength(rssi) == 0.0 ==> BarColor(rssi).hue == Utils.Red
  {
  }
}
