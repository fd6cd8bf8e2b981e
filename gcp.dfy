/**
 * Cloud Run configuration: the address the health listener binds, built from a fixed
 * host and the port taken from the `PORT` environment variable (passed in here, None
 * when it is unset).
 */
module Gcp {
  import opened Wrappers

  /** The host Cloud Run sends requests to. */
  const GcpLocalhost := "0.0.0.0"

  /** The port used when `PORT` is unset. */
  const GcpDefaultPort := "8080"

  /** The text every address starts with: the host and the ':' before the port. */
  const AddressPrefix := GcpLocalhost + ":"

  datatype CloudRunConfig = CloudRunConfig(address: string)

  /** The address `CloudRunConfig::default` builds: the host, ':' and the port, which is
      `PORT` inserted verbatim (even empty, even not a number) or "8080". */
  function Address(port: Option<string>): (address: string)
    ensures |address| >= |AddressPrefix| && address[..|AddressPrefix|] == AddressPrefix
  {
    GcpLocalhost + ":" + port.GetOr(GcpDefaultPort)
  }

  /** `CloudRunConfig::default`. */
  function DefaultConfig(port: Option<string>): (config: CloudRunConfig)
    ensures PortOfAddress(config.address) == Some(port.GetOr(GcpDefaultPort))
  {
    AddressRoundTrip(port);
    CloudRunConfig(Address(port))
  }

  /** The port of an address of the form "0.0.0.0:<port>", if it has that form. */
  function PortOfAddress(address: string): Option<string>
  {
    if |address| >= |AddressPrefix| && address[..|AddressPrefix|] == AddressPrefix
    then Some(address[|AddressPrefix|..])
    else None
  }

  /** Removing the eight-character prefix from an address gives back the port it was
      built from. */
  lemma AddressRoundTrip(port: Option<string>)
    ensures |AddressPrefix| == 8
    ensures PortOfAddress(Address(port)) == Some(port.GetOr(GcpDefaultPort))
  {
    var address := Address(port);
    assert address[|AddressPrefix|..] == port.GetOr(GcpDefaultPort);
  }

  /** Every address of the form "0.0.0.0:<port>" is built from that port. */
  lemma AddressFromPort(address: string)
    requires PortOfAddress(address).Some?
    ensures Address(PortOfAddress(address)) == address
  {
    var p := PortOfAddress(address).value;
    assert address == address[..|AddressPrefix|] + address[|AddressPrefix|..];
    assert Address(Some(p)) == AddressPrefix + p;
  }

  /** With `PORT` unset the address is "0.0.0.0:8080", the same as with `PORT=8080`. */
  lemma DefaultAddress()
    ensures Address(None) == "0.0.0.0:8080"
    ensures Address(None) == Address(Some("8080"))
  {
  }

  /** Distinct ports give distinct addresses. */
  lemma AddressInjective(p: string, q: string)
    ensures Address(Some(p)) == Address(Some(q)) ==> p == q
  {
    AddressRoundTrip(Some(p));
    AddressRoundTrip(Some(q));
  }

  /** An empty `PORT` is not checked: the address ends in the bare ':'. */
  lemma EmptyPortAddress()
    ensures Address(Some("")) == "0.0.0.0:"
  {
  }
}
