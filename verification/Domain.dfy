/** The values that travel through the collector (internal/domain).  Times are
    nanoseconds since the Unix epoch; the float latency is a real. */
module Domain {

  datatype Option<+T> = None | Some(value: T) {
    function GetOr(default: T): T {
      match this
      case Some(v) => v
      case None => default
    }
  }

  datatype NetworkInfo = NetworkInfo(
    family: string, protocol: string,
    queryIP: string, queryPort: int,
    responseIP: string, responsePort: int)

  datatype Flags = Flags(qr: bool, tc: bool, aa: bool, ra: bool, ad: bool, rd: bool, cd: bool)

  datatype RRGeoInfo = RRGeoInfo(country: string, city: string, asn: string)

  datatype DNSRR = DNSRR(
    name: string, rdataType: string, class_: string, ttl: int, rdata: string,
    geo: Option<RRGeoInfo>)

  datatype DNSInfo = DNSInfo(
    length: int, id: int, opcode: int, rcode: string,
    qname: string, qtype: string, qclass: string,
    qdcount: int, ancount: int, nscount: int, arcount: int,
    malformed: bool, flags: Flags, resource: map<string, seq<DNSRR>>)

  datatype EDNSOption = EDNSOption(code: int, value: string)

  datatype EDNSInfo = EDNSInfo(
    version: int, udpSize: int, rcode: int, dnssecOK: bool, clientSubnet: string,
    options: seq<EDNSOption>)

  datatype DNSTapInfo = DNSTapInfo(
    version: string, tapType: string, identity: string, operation: string,
    socketIP: string, socketPort: int,
    timestamp: int, latency: real, latencyMs: int,
    peerName: string, queryZone: string, extra: string,
    policyRule: string, policyType: string, policyMatch: string, policyValue: string,
    httpProtocol: string)

  datatype GeoIPInfo = GeoIPInfo(
    clientIP: string, clientCountry: string, clientCity: string, clientASN: string)

  datatype DNSRawEvent = DNSRawEvent(
    network: NetworkInfo, dns: DNSInfo, edns: EDNSInfo, dnstap: DNSTapInfo, geoip: GeoIPInfo)

  /** Go's zero time.Time, 1 January of year 1, on the Unix nanosecond scale. */
  const ZERO_TIME: int := -62_135_596_800 * 1_000_000_000

  /** The event a decoder starts from: every field at its Go zero value. */
  const ZERO_EVENT: DNSRawEvent := DNSRawEvent(
    NetworkInfo("", "", "", 0, "", 0),
    DNSInfo(0, 0, 0, "", "", "", "", 0, 0, 0, 0, false,
            Flags(false, false, false, false, false, false, false), map[]),
    EDNSInfo(0, 0, 0, false, "", []),
    DNSTapInfo("", "", "", "", "", 0, ZERO_TIME, 0.0, 0, "", "", "", "", "", "", "", ""),
    GeoIPInfo("", "", "", ""))

  /** The records of one section; a section that is not in the map is empty. */
  function Section(resource: map<string, seq<DNSRR>>, name: string): seq<DNSRR> {
    if name in resource then resource[name] else []
  }

  const SECTIONS: set<string> := {"an", "ns", "ar"}

  /** The header counts agree with the records kept, and there are no other sections. */
  predicate CountsMatch(e: DNSRawEvent) {
    && e.dns.resource.Keys <= SECTIONS
    && e.dns.ancount == |Section(e.dns.resource, "an")|
    && e.dns.nscount == |Section(e.dns.resource, "ns")|
    && e.dns.arcount == |Section(e.dns.resource, "ar")|
  }
}
