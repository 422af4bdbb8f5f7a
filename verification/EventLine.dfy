/** The line of one event (internal/adapter/outbound/influxdb/writer.go:231-327): seven
    tags, 37 fields, six more when any policy text is present, and the timestamp. */
module EventLine {
  import opened Domain
  import opened LineProtocol
  import Escaping

  /** The measurement setting, the library's printability table and its %f verb. */
  datatype Printer = Printer(measurement: string, isPrint: char -> bool, showFloat: real -> string)

  function Measurement(p: Printer): string { if p.measurement != "" then p.measurement else "dns_query" }

  /** UnixNano wraps around the signed 64-bit range. */
  function UnixNano(t: int): int {
    (t + 0x8000_0000_0000_0000) % 0x1_0000_0000_0000_0000 - 0x8000_0000_0000_0000
  }

  function TimestampOf(e: DNSRawEvent, now: int): int {
    if UnixNano(e.dnstap.timestamp) == 0 then UnixNano(now) else UnixNano(e.dnstap.timestamp)
  }

  /** The time as a signed 64-bit count of nanoseconds, wrapped around. */
  predicate Nanos(ts: int, t: int) {
    -0x8000_0000_0000_0000 <= ts < 0x8000_0000_0000_0000 && (t - ts) % 0x1_0000_0000_0000_0000 == 0
  }

  lemma UnixNanoWraps(t: int)
    ensures Nanos(UnixNano(t), t)
    ensures UnixNano(t) == 0 <==> Nanos(0, t)
  {
  }

  /** The event's own timestamp unless that counts as zero, and then the present. */
  lemma TimestampIs(e: DNSRawEvent, now: int)
    ensures Nanos(TimestampOf(e, now), if Nanos(0, e.dnstap.timestamp) then now else e.dnstap.timestamp)
  {
    hide UnixNano, Nanos;
    UnixNanoWraps(e.dnstap.timestamp);
    UnixNanoWraps(now);
  }

  function Tags(e: DNSRawEvent): seq<Tag> {
    [Tag("identity", e.dnstap.identity), Tag("operation", e.dnstap.operation),
     Tag("dnstap_version", e.dnstap.version), Tag("dnstap_type", e.dnstap.tapType),
     Tag("client_country", e.geoip.clientCountry), Tag("client_city", e.geoip.clientCity),
     Tag("client_asn", e.geoip.clientASN)]
  }

  function QuestionFields(e: DNSRawEvent): seq<Field> {
    [Field("qname", Str(e.dns.qname)), Field("qtype", Str(e.dns.qtype)),
     Field("qclass", Str(e.dns.qclass)), Field("rcode", Str(e.dns.rcode))]
  }

  function NetworkFields(e: DNSRawEvent): seq<Field> {
    [Field("query_ip", Str(e.network.queryIP)), Field("query_port", Int(e.network.queryPort)),
     Field("response_ip", Str(e.network.responseIP)), Field("response_port", Int(e.network.responsePort)),
     Field("family", Str(e.network.family)), Field("protocol", Str(e.network.protocol))]
  }

  function LatencyFields(p: Printer, e: DNSRawEvent): seq<Field> {
    [Field("latency", Float(p.showFloat(e.dnstap.latency))), Field("latency_ms", Int(e.dnstap.latencyMs)),
     Field("opcode", Int(e.dns.opcode)), Field("length", Int(e.dns.length)), Field("dns_id", Int(e.dns.id))]
  }

  function FlagFields(e: DNSRawEvent): seq<Field> {
    var f := e.dns.flags;
    [Field("qr", Flag(f.qr)), Field("tc", Flag(f.tc)), Field("aa", Flag(f.aa)), Field("rd", Flag(f.rd)),
     Field("ra", Flag(f.ra)), Field("ad", Flag(f.ad)), Field("cd", Flag(f.cd))]
  }

  function CountFields(e: DNSRawEvent): seq<Field> {
    [Field("qdcount", Int(e.dns.qdcount)), Field("ancount", Int(e.dns.ancount)),
     Field("nscount", Int(e.dns.nscount)), Field("arcount", Int(e.dns.arcount)),
     Field("malformed", Flag(e.dns.malformed))]
  }

  function EDNSFields(e: DNSRawEvent): seq<Field> {
    [Field("edns_version", Int(e.edns.version)), Field("edns_udp_size", Int(e.edns.udpSize)),
     Field("edns_rcode", Int(e.edns.rcode)), Field("edns_dnssec_ok", Flag(e.edns.dnssecOK)),
     Field("edns_client_subnet", Str(e.edns.clientSubnet))]
  }

  function PeerFields(e: DNSRawEvent): seq<Field> {
    [Field("socket_ip", Str(e.dnstap.socketIP)), Field("socket_port", Int(e.dnstap.socketPort)),
     Field("peer_name", Str(e.dnstap.peerName)), Field("query_zone", Str(e.dnstap.queryZone)),
     Field("client_ip", Str(e.geoip.clientIP))]
  }

  predicate HasPolicy(e: DNSRawEvent) {
    || e.dnstap.policyRule != "" || e.dnstap.policyType != "" || e.dnstap.policyMatch != ""
    || e.dnstap.policyValue != "" || e.dnstap.httpProtocol != "" || e.dnstap.extra != ""
  }

  function PolicyFields(e: DNSRawEvent): seq<Field> {
    if HasPolicy(e) then
      [Field("policy_rule", Str(e.dnstap.policyRule)), Field("policy_type", Str(e.dnstap.policyType)),
       Field("policy_match", Str(e.dnstap.policyMatch)), Field("policy_value", Str(e.dnstap.policyValue)),
       Field("http_protocol", Str(e.dnstap.httpProtocol)), Field("extra", Str(e.dnstap.extra))]
    else []
  }

  function Groups(p: Printer, e: DNSRawEvent): seq<seq<Field>> {
    [QuestionFields(e), NetworkFields(e), LatencyFields(p, e), FlagFields(e), CountFields(e), EDNSFields(e),
     PeerFields(e), PolicyFields(e)]
  }

  function Flat(groups: seq<seq<Field>>): seq<Field> {
    if groups == [] then [] else groups[0] + Flat(groups[1..])
  }

  function LineOf(p: Printer, e: DNSRawEvent, now: int): Line {
    Line(Measurement(p), Tags(e), Flat(Groups(p, e)), TimestampOf(e, now))
  }

  function ToLineProtocol(p: Printer, e: DNSRawEvent, now: int): string {
    LineText(p.isPrint, LineOf(p, e, now))
  }

  // ---------------------------------------------------------------- well-formedness

  lemma {:induction false} FlatOK(groups: seq<seq<Field>>)
    requires forall g :: 0 <= g < |groups| ==> FieldsOK(groups[g])
    ensures FieldsOK(Flat(groups))
  {
    hide ValueOK;
    if groups != [] {
      FlatOK(groups[1..]);
      assert FieldsOK(groups[0]);
    }
  }

  lemma QuestionOK(e: DNSRawEvent)
    ensures FieldsOK(QuestionFields(e))
  {
  }

  lemma NetworkOK(e: DNSRawEvent)
    ensures FieldsOK(NetworkFields(e))
  {
  }

  lemma LatencyOK(p: Printer, e: DNSRawEvent)
    requires FloatToken(p.showFloat(e.dnstap.latency))
    ensures FieldsOK(LatencyFields(p, e))
  {
  }

  lemma FlagOK(e: DNSRawEvent)
    ensures FieldsOK(FlagFields(e))
  {
  }

  lemma CountOK(e: DNSRawEvent)
    ensures FieldsOK(CountFields(e))
  {
  }

  lemma EDNSOK(e: DNSRawEvent)
    ensures FieldsOK(EDNSFields(e))
  {
  }

  lemma PeerOK(e: DNSRawEvent)
    ensures FieldsOK(PeerFields(e))
  {
  }

  lemma PolicyOK(e: DNSRawEvent)
    ensures FieldsOK(PolicyFields(e))
  {
  }

  lemma EventGroupsOK(p: Printer, e: DNSRawEvent)
    requires FloatToken(p.showFloat(e.dnstap.latency))
    ensures var groups := Groups(p, e); forall g :: 0 <= g < |groups| ==> FieldsOK(groups[g])
  {
    hide FieldsOK, FloatToken;
    QuestionOK(e);
    NetworkOK(e);
    LatencyOK(p, e);
    FlagOK(e);
    CountOK(e);
    EDNSOK(e);
    PeerOK(e);
    PolicyOK(e);
  }

  lemma EventHasFields(p: Printer, e: DNSRawEvent)
    ensures Flat(Groups(p, e)) != []
  {
    assert Groups(p, e)[0] == QuestionFields(e);
    assert |QuestionFields(e)| == 4;
  }

  lemma EventLineWellFormed(p: Printer, e: DNSRawEvent, now: int)
    requires FloatToken(p.showFloat(e.dnstap.latency))
    ensures WellFormed(LineOf(p, e, now))
  {
    EventGroupsOK(p, e);
    hide FieldsOK, ValueOK, FloatToken, Groups;
    var groups := Groups(p, e);
    FlatOK(groups);
    EventHasFields(p, e);
  }

  /** For every event the reader recovers from its line the seven tags, all the fields,
      the policy block if it was printed and the timestamp, exactly when the measurement
      setting is clean. */
  lemma EventRoundTrip(p: Printer, e: DNSRawEvent, now: int)
    requires FloatToken(p.showFloat(e.dnstap.latency))
    ensures ReadLine(ToLineProtocol(p, e, now)) == Some(AsRead(LineOf(p, e, now))) <==> Clean(Measurement(p))
  {
    hide WellFormed, Clean, ReadLine, LineText;
    EventLineWellFormed(p, e, now);
    LineRoundTrip(p.isPrint, LineOf(p, e, now));
  }

  lemma TagsHold(e: DNSRawEvent)
    ensures (exists i :: 0 <= i < |Tags(e)| && '\n' in Tags(e)[i].value) <==>
      || '\n' in e.dnstap.identity || '\n' in e.dnstap.operation || '\n' in e.dnstap.version
      || '\n' in e.dnstap.tapType
      || '\n' in e.geoip.clientCountry || '\n' in e.geoip.clientCity || '\n' in e.geoip.clientASN
  {
    var t := Tags(e);
    assert t[0].value == e.dnstap.identity && t[1].value == e.dnstap.operation && t[2].value == e.dnstap.version;
    assert t[3].value == e.dnstap.tapType && t[4].value == e.geoip.clientCountry;
    assert t[5].value == e.geoip.clientCity && t[6].value == e.geoip.clientASN;
  }

  /** A line holds a newline, and so splits in two for a server that reads line by line,
      exactly when the measurement setting or one of the seven tags has one: no field, not
      even one with newlines in it, can do that. */
  lemma NewlineIff(p: Printer, e: DNSRawEvent, now: int)
    requires FloatToken(p.showFloat(e.dnstap.latency))
    ensures '\n' in ToLineProtocol(p, e, now) <==>
      || '\n' in Measurement(p)
      || '\n' in e.dnstap.identity || '\n' in e.dnstap.operation || '\n' in e.dnstap.version
      || '\n' in e.dnstap.tapType
      || '\n' in e.geoip.clientCountry || '\n' in e.geoip.clientCity || '\n' in e.geoip.clientASN
  {
    hide Groups, LineText, FloatToken, ValueOK, Flat, TimestampOf, Measurement;
    EventGroupsOK(p, e);
    FlatOK(Groups(p, e));
    LineNewlineIff(p.isPrint, LineOf(p, e, now));
    TagsHold(e);
  }

  // ------------------------------------------------ the event rebuilt from its line

  predicate IsAt(fs: seq<Field>, k: nat, name: string) { k < |fs| && fs[k].name == name }

  function StrAt(fs: seq<Field>, k: nat, name: string): string {
    if IsAt(fs, k, name) && fs[k].value.Str? then fs[k].value.s else ""
  }

  function IntAt(fs: seq<Field>, k: nat, name: string): int {
    if IsAt(fs, k, name) && fs[k].value.Int? then fs[k].value.n else -1
  }

  predicate FlagAt(fs: seq<Field>, k: nat, name: string) {
    IsAt(fs, k, name) && fs[k].value.Flag? && fs[k].value.b
  }

  function TokenAt(fs: seq<Field>, k: nat, name: string): string {
    if IsAt(fs, k, name) && fs[k].value.Float? then fs[k].value.token else ""
  }

  function TagAt(tags: seq<Tag>, k: nat, name: string): string {
    if k < |tags| && tags[k].name == name then tags[k].value else ""
  }

  function Part(fs: seq<Field>, a: nat, b: nat): seq<Field> { if a <= b <= |fs| then fs[a..b] else [] }

  function NetworkFrom(fs: seq<Field>): NetworkInfo {
    NetworkInfo(StrAt(fs, 4, "family"), StrAt(fs, 5, "protocol"), StrAt(fs, 0, "query_ip"),
                IntAt(fs, 1, "query_port"), StrAt(fs, 2, "response_ip"), IntAt(fs, 3, "response_port"))
  }

  function FlagsFrom(fs: seq<Field>): Flags {
    Flags(FlagAt(fs, 0, "qr"), FlagAt(fs, 1, "tc"), FlagAt(fs, 2, "aa"), FlagAt(fs, 4, "ra"),
          FlagAt(fs, 5, "ad"), FlagAt(fs, 3, "rd"), FlagAt(fs, 6, "cd"))
  }

  /** From the question, latency, flag and count groups. */
  function DNSFrom(q: seq<Field>, l: seq<Field>, f: seq<Field>, c: seq<Field>): DNSInfo {
    DNSInfo(IntAt(l, 3, "length"), IntAt(l, 4, "dns_id"), IntAt(l, 2, "opcode"), StrAt(q, 3, "rcode"),
            StrAt(q, 0, "qname"), StrAt(q, 1, "qtype"), StrAt(q, 2, "qclass"),
            IntAt(c, 0, "qdcount"), IntAt(c, 1, "ancount"), IntAt(c, 2, "nscount"), IntAt(c, 3, "arcount"),
            FlagAt(c, 4, "malformed"), FlagsFrom(f), map[])
  }

  function EDNSFrom(fs: seq<Field>): EDNSInfo {
    EDNSInfo(IntAt(fs, 0, "edns_version"), IntAt(fs, 1, "edns_udp_size"), IntAt(fs, 2, "edns_rcode"),
             FlagAt(fs, 3, "edns_dnssec_ok"), StrAt(fs, 4, "edns_client_subnet"), [])
  }

  /** From the tags, the latency, peer and policy groups, and the timestamp. */
  function TapFrom(tags: seq<Tag>, l: seq<Field>, r: seq<Field>, y: seq<Field>, ts: int): DNSTapInfo {
    DNSTapInfo(TagAt(tags, 2, "dnstap_version"), TagAt(tags, 3, "dnstap_type"), TagAt(tags, 0, "identity"),
               TagAt(tags, 1, "operation"), StrAt(r, 0, "socket_ip"), IntAt(r, 1, "socket_port"),
               ts, 0.0, IntAt(l, 1, "latency_ms"), StrAt(r, 2, "peer_name"), StrAt(r, 3, "query_zone"),
               StrAt(y, 5, "extra"), StrAt(y, 0, "policy_rule"), StrAt(y, 1, "policy_type"),
               StrAt(y, 2, "policy_match"), StrAt(y, 3, "policy_value"), StrAt(y, 4, "http_protocol"))
  }

  function GeoFrom(tags: seq<Tag>, r: seq<Field>): GeoIPInfo {
    GeoIPInfo(StrAt(r, 4, "client_ip"), TagAt(tags, 4, "client_country"), TagAt(tags, 5, "client_city"),
              TagAt(tags, 6, "client_asn"))
  }

  /** An event with its latency as the printed token. */
  datatype View = View(event: DNSRawEvent, latency: string)

  /** The event a line describes, each value looked up under its name. */
  function ViewFrom(l: Line): View {
    var fs := l.fields;
    var latency, peer, policy := Part(fs, 10, 15), Part(fs, 32, 37), Part(fs, 37, |fs|);
    View(DNSRawEvent(NetworkFrom(Part(fs, 4, 10)),
                     DNSFrom(Part(fs, 0, 4), latency, Part(fs, 15, 22), Part(fs, 22, 27)),
                     EDNSFrom(Part(fs, 27, 32)),
                     TapFrom(l.tags, latency, peer, policy, l.ts),
                     GeoFrom(l.tags, peer)),
         TokenAt(latency, 0, "latency"))
  }

  /** What a line shows: all of an event but the resource records and the EDNS options,
      with the timestamp in force and an empty tag as "unknown". */
  function ViewOf(p: Printer, e: DNSRawEvent, now: int): View {
    var t, g := e.dnstap, e.geoip;
    View(e.(dns := e.dns.(resource := map[]), edns := e.edns.(options := []),
            dnstap := t.(timestamp := TimestampOf(e, now), latency := 0.0,
                         identity := TagShown(t.identity), operation := TagShown(t.operation),
                         version := TagShown(t.version), tapType := TagShown(t.tapType)),
            geoip := g.(clientCountry := TagShown(g.clientCountry), clientCity := TagShown(g.clientCity),
                        clientASN := TagShown(g.clientASN))),
         p.showFloat(t.latency))
  }

  function Offset(groups: seq<seq<Field>>, g: nat): nat
    requires g <= |groups|
  {
    if g == 0 then 0 else |groups[0]| + Offset(groups[1..], g - 1)
  }

  lemma PartOfConcat(x: seq<Field>, y: seq<Field>, a: nat, b: nat)
    ensures a <= b <= |y| ==> Part(x + y, |x| + a, |x| + b) == Part(y, a, b)
  {
  }

  lemma {:induction false} FlatPart(groups: seq<seq<Field>>, g: nat)
    requires g < |groups|
    ensures var a := Offset(groups, g); Part(Flat(groups), a, a + |groups[g]|) == groups[g]
    ensures Offset(groups, g) + |groups[g]| == Offset(groups, g + 1)
  {
    var first, rest := groups[0], Flat(groups[1..]);
    assert Flat(groups) == first + rest;
    if g == 0 {
      assert (first + rest)[0..|first|] == first;
      assert Offset(groups[1..], 0) == 0;
    } else {
      FlatPart(groups[1..], g - 1);
      var a, n := Offset(groups[1..], g - 1), |groups[g]|;
      assert groups[1..][g - 1] == groups[g];
      PartOfConcat(first, rest, a, a + n);
    }
  }

  lemma {:induction false} OffsetEnd(groups: seq<seq<Field>>)
    ensures Offset(groups, |groups|) == |Flat(groups)|
  {
    if groups != [] { OffsetEnd(groups[1..]); }
  }

  lemma GroupSizes(p: Printer, e: DNSRawEvent)
    ensures var g := Groups(p, e);
      |g| == 8 && |g[0]| == 4 && |g[1]| == 6 && |g[2]| == 5 && |g[3]| == 7 && |g[4]| == 5 && |g[5]| == 5 && |g[6]| == 5
  {
  }

  /** The groups stand at their places in the line. */
  lemma GroupsFound(p: Printer, e: DNSRawEvent)
    ensures var g, fs := Groups(p, e), Flat(Groups(p, e));
      && |g| == 8
      && Part(fs, 0, 4) == g[0] && Part(fs, 4, 10) == g[1] && Part(fs, 10, 15) == g[2] && Part(fs, 15, 22) == g[3]
      && Part(fs, 22, 27) == g[4] && Part(fs, 27, 32) == g[5] && Part(fs, 32, 37) == g[6] && Part(fs, 37, |fs|) == g[7]
  {
    GroupSizes(p, e);
    hide Groups, Part, Flat;
    var g := Groups(p, e);
    assert Offset(g, 0) == 0;
    hide Offset;
    FlatPart(g, 0); FlatPart(g, 1); FlatPart(g, 2); FlatPart(g, 3);
    FlatPart(g, 4); FlatPart(g, 5); FlatPart(g, 6); FlatPart(g, 7);
    OffsetEnd(g);
  }

  lemma NetworkReads(e: DNSRawEvent)
    ensures NetworkFrom(NetworkFields(e)) == e.network
  {
  }

  lemma FlagsRead(e: DNSRawEvent)
    ensures FlagsFrom(FlagFields(e)) == e.dns.flags
  {
  }

  lemma DNSReads(p: Printer, e: DNSRawEvent)
    ensures DNSFrom(QuestionFields(e), LatencyFields(p, e), FlagFields(e), CountFields(e)) == e.dns.(resource := map[])
  {
    FlagsRead(e);
    hide FlagsFrom, FlagFields;
  }

  lemma EDNSReads(e: DNSRawEvent)
    ensures EDNSFrom(EDNSFields(e)) == e.edns.(options := [])
  {
  }

  /** The policy block is left out exactly when all six texts are empty. */
  lemma PolicyReads(e: DNSRawEvent)
    ensures var y := PolicyFields(e);
      && StrAt(y, 0, "policy_rule") == e.dnstap.policyRule && StrAt(y, 1, "policy_type") == e.dnstap.policyType
      && StrAt(y, 2, "policy_match") == e.dnstap.policyMatch && StrAt(y, 3, "policy_value") == e.dnstap.policyValue
      && StrAt(y, 4, "http_protocol") == e.dnstap.httpProtocol && StrAt(y, 5, "extra") == e.dnstap.extra
  {
  }

  lemma PeerReads(e: DNSRawEvent)
    ensures var r := PeerFields(e);
      && StrAt(r, 0, "socket_ip") == e.dnstap.socketIP && IntAt(r, 1, "socket_port") == e.dnstap.socketPort
      && StrAt(r, 2, "peer_name") == e.dnstap.peerName && StrAt(r, 3, "query_zone") == e.dnstap.queryZone
      && StrAt(r, 4, "client_ip") == e.geoip.clientIP
  {
  }

  lemma LatencyReads(p: Printer, e: DNSRawEvent)
    ensures IntAt(LatencyFields(p, e), 1, "latency_ms") == e.dnstap.latencyMs
    ensures TokenAt(LatencyFields(p, e), 0, "latency") == p.showFloat(e.dnstap.latency)
  {
  }

  lemma {:induction false} ShownAt(tags: seq<Tag>, k: nat)
    requires k < |tags|
    ensures |Shown(tags)| == |tags| && Shown(tags)[k] == Tag(tags[k].name, TagShown(tags[k].value))
    decreases |tags|
  {
    if |tags| > 1 { ShownAt(tags[1..], if k > 0 then k - 1 else 0); }
  }

  lemma TagsRead(e: DNSRawEvent)
    ensures var ts, t, g := Shown(Tags(e)), e.dnstap, e.geoip;
      && TagAt(ts, 0, "identity") == TagShown(t.identity) && TagAt(ts, 1, "operation") == TagShown(t.operation)
      && TagAt(ts, 2, "dnstap_version") == TagShown(t.version) && TagAt(ts, 3, "dnstap_type") == TagShown(t.tapType)
      && TagAt(ts, 4, "client_country") == TagShown(g.clientCountry)
      && TagAt(ts, 5, "client_city") == TagShown(g.clientCity) && TagAt(ts, 6, "client_asn") == TagShown(g.clientASN)
  {
    hide Shown, TagShown;
    var tags := Tags(e);
    ShownAt(tags, 0); ShownAt(tags, 1); ShownAt(tags, 2); ShownAt(tags, 3);
    ShownAt(tags, 4); ShownAt(tags, 5); ShownAt(tags, 6);
  }

  lemma TapReads(p: Printer, e: DNSRawEvent, now: int)
    ensures TapFrom(Shown(Tags(e)), LatencyFields(p, e), PeerFields(e), PolicyFields(e), TimestampOf(e, now))
         == ViewOf(p, e, now).event.dnstap
    ensures GeoFrom(Shown(Tags(e)), PeerFields(e)) == ViewOf(p, e, now).event.geoip
  {
    TagsRead(e);
    PolicyReads(e);
    PeerReads(e);
    LatencyReads(p, e);
    hide Shown, Tags, LatencyFields, PeerFields, PolicyFields, StrAt, IntAt, TagAt, TagShown, TimestampOf;
  }

  lemma ViewReads(p: Printer, e: DNSRawEvent, now: int)
    ensures ViewFrom(AsRead(LineOf(p, e, now))) == ViewOf(p, e, now)
  {
    GroupsFound(p, e);
    NetworkReads(e);
    DNSReads(p, e);
    EDNSReads(e);
    TapReads(p, e, now);
    LatencyReads(p, e);
    hide QuestionFields, NetworkFields, LatencyFields, FlagFields, CountFields, EDNSFields, PeerFields, PolicyFields;
    hide NetworkFrom, DNSFrom, EDNSFrom, TapFrom, GeoFrom, Part, Flat, Tags, Shown, TimestampOf, TagShown, TokenAt;
  }

  /** For every event, the event rebuilt from its printed line, each value found under its
      own field or tag name, is the event printed, as far as a line shows it; the line is
      under the configured measurement, or the default one, and at the event's time, or the
      present if that counts as zero. */
  lemma EventIsReadBack(p: Printer, e: DNSRawEvent, now: int)
    requires Clean(Measurement(p)) && FloatToken(p.showFloat(e.dnstap.latency))
    ensures var l := ReadLine(ToLineProtocol(p, e, now));
      && l.Some? && ViewFrom(l.value) == ViewOf(p, e, now)
      && l.value.measurement == (if p.measurement != "" then p.measurement else "dns_query")
      && Nanos(l.value.ts, if Nanos(0, e.dnstap.timestamp) then now else e.dnstap.timestamp)
  {
    hide ReadLine, ToLineProtocol, Clean, FloatToken, ViewFrom, ViewOf, Nanos, TimestampOf, Groups, Flat, Tags;
    EventRoundTrip(p, e, now);
    ViewReads(p, e, now);
    TimestampIs(e, now);
  }

  lemma {:induction false} ShownDeterminesText(a: seq<Tag>, b: seq<Tag>)
    requires Shown(a) == Shown(b)
    ensures |a| == |b| && TagsText(a) == TagsText(b)
    decreases |a|
  {
    if a != [] && b != [] {
      assert Shown(a)[0] == Shown(b)[0] && Shown(a)[1..] == Shown(b)[1..];
      ShownDeterminesText(a[1..], b[1..]);
      EscapeTagIsEach(a[0].value);
      EscapeTagIsEach(b[0].value);
      hide Escaping.EscapeTag, Escaping.EscapeEach, TagShown;
    }
  }

  lemma {:induction false} SameShown(a: seq<Tag>, b: seq<Tag>)
    requires |a| == |b|
    requires forall k :: 0 <= k < |a| ==> a[k].name == b[k].name && TagShown(a[k].value) == TagShown(b[k].value)
    ensures Shown(a) == Shown(b)
    decreases |a|
  {
    if a != [] { SameShown(a[1..], b[1..]); }
  }

  lemma ViewDeterminesTags(p: Printer, e: DNSRawEvent, f: DNSRawEvent, now: int)
    requires ViewOf(p, e, now) == ViewOf(p, f, now)
    ensures Shown(Tags(e)) == Shown(Tags(f)) && TimestampOf(e, now) == TimestampOf(f, now)
  {
    hide TagShown, TimestampOf;
    var v, w := ViewOf(p, e, now).event, ViewOf(p, f, now).event;
    assert v.dnstap.identity == w.dnstap.identity && v.geoip.clientASN == w.geoip.clientASN;
    var a, b := Tags(e), Tags(f);
    forall k | 0 <= k < |a| ensures a[k].name == b[k].name && TagShown(a[k].value) == TagShown(b[k].value) { }
    SameShown(a, b);
  }

  lemma ViewDeterminesGroups(p: Printer, e: DNSRawEvent, f: DNSRawEvent, now: int)
    requires ViewOf(p, e, now) == ViewOf(p, f, now)
    ensures Groups(p, e) == Groups(p, f)
  {
    hide TagShown, TimestampOf;
    var v, w := ViewOf(p, e, now).event, ViewOf(p, f, now).event;
    assert v.dns == w.dns && v.edns == w.edns && v.dnstap == w.dnstap && v.geoip == w.geoip && v.network == w.network;
    assert e.dns.(resource := map[]) == f.dns.(resource := map[]);
    assert QuestionFields(e) == QuestionFields(f) && NetworkFields(e) == NetworkFields(f);
    assert LatencyFields(p, e) == LatencyFields(p, f) && FlagFields(e) == FlagFields(f);
    assert CountFields(e) == CountFields(f) && EDNSFields(e) == EDNSFields(f);
    assert PeerFields(e) == PeerFields(f) && PolicyFields(e) == PolicyFields(f);
  }

  /** So two events print the same line exactly when all that a line shows of them agrees. */
  lemma EqualLinesIff(p: Printer, e: DNSRawEvent, f: DNSRawEvent, now: int)
    requires Clean(Measurement(p))
    requires FloatToken(p.showFloat(e.dnstap.latency)) && FloatToken(p.showFloat(f.dnstap.latency))
    ensures ToLineProtocol(p, e, now) == ToLineProtocol(p, f, now) <==> ViewOf(p, e, now) == ViewOf(p, f, now)
  {
    hide ReadLine, Clean, FloatToken, ViewFrom, ViewOf, Measurement, Tags, Groups, Flat, TimestampOf, TagsText;
    EventIsReadBack(p, e, now);
    EventIsReadBack(p, f, now);
    if ViewOf(p, e, now) == ViewOf(p, f, now) {
      ViewDeterminesTags(p, e, f, now);
      ViewDeterminesGroups(p, e, f, now);
      ShownDeterminesText(Tags(e), Tags(f));
    }
  }
}
