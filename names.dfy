/** The names the device is known by on its local network, built from `KiLL::espId()`. */
module Names {

  /** `SSID()`: the access point's network name, which is also the mDNS host name. */
  function SSID(espId: string): (r: string)
    ensures |r| == |espId| + 5 && r[..5] == "KiLL-" && r[5..] == espId
  {
    "KiLL-" + espId
  }

  /** `getHostname()`: the URL of the device under its mDNS name. */
  function Hostname(espId: string): (r: string)
    ensures r == "http://" + SSID(espId) + ".local/"
    ensures r[7..|r| - 7] == SSID(espId)
  {
    "http://KiLL-" + espId + ".local/"
  }

  /** Distinct devices get distinct network names. */
  lemma SSIDInjective(a: string, b: string)
    requires SSID(a) == SSID(b)
    ensures a == b
  {
    assert a == SSID(a)[5..];
  }
}
