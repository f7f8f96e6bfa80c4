/** Address and port extraction from a service instance's endpoint, with the
    default port rules of each endpoint type (sidecar/dns/server.go,
    splitHostPort and its two helpers). */
module Endpoints {
  import opened Wrappers
  import opened Wire
  import opened Decimals

  /** The endpoint types the server understands; they double as the protocol
      filters a query name may carry. */
  const Protocols: set<string> := {"tcp", "udp", "http", "https"}

  datatype Endpoint = Endpoint(etype: string, value: string)

  /** The library parsers the extraction relies on, passed in as functions:
      host/port splitting, literal IP parsing (never a name lookup), and the
      host part of a parsed URL. None stands for the library's error. */
  datatype NetLibrary = NetLibrary(
    splitHostPort: string -> Option<(string, string)>,
    parseIP: string -> Option<IP>,
    urlHost: string -> Option<string>)

  datatype EndpointError =
    | UnsupportedType(etype: string)
    | BadHost(value: string)
    | BadPort(port: string)
    | BadURL(url: string)

  /** Go's uint16 conversion of an int: the value modulo 2^16. */
  function ToUint16(n: int): (p: uint16)
    ensures 0 <= n < 0x1_0000 ==> p as int == n
    ensures (n - p as int) % 0x1_0000 == 0
  {
    (n % 0x1_0000) as uint16
  }

  /** A "host:port" or bare "host" value: a bare host gets port 0, the host
      must be a literal IP address, the port a decimal integer. */
  function SplitHostPortTCPUDP(net: NetLibrary, value: string): (r: Result<(IP, uint16), EndpointError>)
    // bare host: succeeds exactly when the whole value is an IP, with port 0
    ensures net.splitHostPort(value).None? ==>
      (r.Ok? <==> net.parseIP(value).Some?) &&
      (r.Ok? ==> r.value == (net.parseIP(value).value, 0))
    // host and port: both parts must parse, the port is truncated to 16 bits
    ensures net.splitHostPort(value).Some? ==>
      var (host, port) := net.splitHostPort(value).value;
      (r.Ok? <==> net.parseIP(host).Some? && Atoi(port).Some?) &&
      (r.Ok? ==> r.value.0 == net.parseIP(host).value && r.value.1 as int == Atoi(port).value % 0x1_0000)
  {
    var (host, port) := match net.splitHostPort(value)
      case Some(hp) => hp
      case None => (value, "0");
    match net.parseIP(host)
    case None => Err(BadHost(value))
    case Some(ip) =>
      match Atoi(port)
      case None => Err(BadPort(port))
      case Some(n) => Ok((ip, ToUint16(n)))
  }

  /** An explicit decimal port in range comes back unchanged. */
  lemma ExplicitPortRoundTrip(net: NetLibrary, value: string, host: string, ip: IP, port: uint16)
    requires net.splitHostPort(value) == Some((host, Decimal(port as nat)))
    requires net.parseIP(host) == Some(ip)
    ensures SplitHostPortTCPUDP(net, value) == Ok((ip, port))
  {
    AtoiDecimal(port as nat);
  }

  /** The URL handed to the URL parser: the value itself when it names the
      http or https scheme, otherwise the value under the http scheme. */
  function WithScheme(value: string): (url: string)
    ensures "http://" <= url || "https://" <= url
    ensures ("http://" <= value || "https://" <= value) ==> url == value
    ensures !("http://" <= value) && !("https://" <= value) ==> url == "http://" + value
    ensures |url| >= |value| && url[|url| - |value|..] == value
  {
    if !("https://" <= value) && !("http://" <= value) then "http://" + value else value
  }

  /** A bare host or URL: the URL's host part is split as for tcp/udp and a
      zero port becomes the scheme's default, 443 for https and 80 otherwise. */
  function SplitHostPortHTTP(net: NetLibrary, value: string): (r: Result<(IP, uint16), EndpointError>)
    ensures r.Ok? <==>
      net.urlHost(WithScheme(value)).Some? &&
      SplitHostPortTCPUDP(net, net.urlHost(WithScheme(value)).value).Ok?
    ensures r.Ok? ==>
      var (ip, port) := SplitHostPortTCPUDP(net, net.urlHost(WithScheme(value)).value).value;
      r.value.0 == ip &&
      r.value.1 == (if port != 0 then port else if "https://" <= value then 443 else 80)
    ensures r.Ok? ==> r.value.1 != 0
  {
    var isHTTP := "http://" <= value;
    var isHTTPS := "https://" <= value;
    // the two scheme prefixes differ in their fifth character
    assert isHTTPS ==> value[4] == 's' && !isHTTP;
    var url := if !isHTTPS && !isHTTP then "http://" + value else value;
    var isHTTP := isHTTP || (!isHTTPS && !isHTTP);
    match net.urlHost(url)
    case None => Err(BadURL(url))
    case Some(host) =>
      match SplitHostPortTCPUDP(net, host)
      case Err(e) => Err(e)
      case Ok((ip, port)) =>
        // after the scheme default one of isHTTP, isHTTPS holds
        Ok((ip, if port != 0 then port else if isHTTP then 80 else 443))
  }

  /** Dispatches on the endpoint type; any type outside the four known ones
      is an error. */
  function SplitHostPort(net: NetLibrary, e: Endpoint): (r: Result<(IP, uint16), EndpointError>)
    ensures e.etype !in Protocols ==> r == Err(UnsupportedType(e.etype))
    ensures e.etype == "tcp" || e.etype == "udp" ==> r == SplitHostPortTCPUDP(net, e.value)
    ensures e.etype == "http" || e.etype == "https" ==> r == SplitHostPortHTTP(net, e.value)
    ensures (e.etype == "http" || e.etype == "https") && r.Ok? ==> r.value.1 != 0
  {
    match e.etype
    case "tcp" => SplitHostPortTCPUDP(net, e.value)
    case "udp" => SplitHostPortTCPUDP(net, e.value)
    case "http" => SplitHostPortHTTP(net, e.value)
    case "https" => SplitHostPortHTTP(net, e.value)
    case _ => Err(UnsupportedType(e.etype))
  }
}
