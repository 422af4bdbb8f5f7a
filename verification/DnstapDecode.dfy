/** decodeToEvent, parseDNS, appendRR and parseEDNS (internal/adapter/inbound/dnstap/
    server.go): a query and a response message merged into one event in place.
    Unpacking the wire is an oracle; record data is opaque text. */
module DnstapDecode {
  import opened Domain
  import Latency
  import PolicyExtra

  datatype RR = RR(name: string, rrtype: int, class_: int, ttl: int, rdata: string)
  datatype Opt = Opt(code: int, text: string, subnet: Option<string>)
  datatype OPT = OPT(version: int, udpSize: int, extendedRcode: int, dnssecOK: bool, options: seq<Opt>)
  datatype Question = Question(name: string, qtype: int, qclass: int)
  datatype Header = Header(id: int, opcode: int, rcode: int, flags: Flags)
  datatype Msg = Msg(hdr: Header, question: seq<Question>, answer: seq<RR>, ns: seq<RR>, extra: seq<RR>,
                     edns0: Option<OPT>)

  /** A message on the wire, with what unpacking it gives. */
  datatype Wire = Wire(length: nat, unpacked: Option<Msg>)

  /** The library's number-to-text tables; an unknown number has the empty text. */
  datatype Tables = Tables(typeText: int -> string, classText: int -> string, rcodeText: int -> string)

  datatype SocketFamily = INET | INET6 | OtherFamily
  datatype SocketProtocol = UDP | TCP | OtherProtocol

  datatype TapMessage = TapMessage(
    operation: string, queryZone: string,
    qSec: nat, qNsec: nat, rSec: nat, rNsec: nat,
    family: SocketFamily, protocol: SocketProtocol,
    queryAddress: Option<string>, queryPort: int,
    responseAddress: Option<string>, responsePort: int,
    query: Wire, response: Wire)

  datatype Tap = Tap(identity: string, version: string, extra: string, tapType: string,
                     message: Option<TapMessage>)

  /** The remote address once split: a host and, if numeric, a port. */
  datatype Remote = Unsplit | Host(host: string, port: Option<int>)

  // ------------------------------------------------------------ what each part does

  function Record(t: Tables, rr: RR): DNSRR {
    DNSRR(rr.name, t.typeText(rr.rrtype), t.classText(rr.class_), rr.ttl, rr.rdata, None)
  }

  function Records(t: Tables, rrs: seq<RR>): seq<DNSRR> {
    seq(|rrs|, i requires 0 <= i < |rrs| => Record(t, rrs[i]))
  }

  function WithRecords(t: Tables, resource: map<string, seq<DNSRR>>, section: string, rrs: seq<RR>)
    : map<string, seq<DNSRR>>
  {
    if rrs == [] then resource else resource[section := Section(resource, section) + Records(t, rrs)]
  }

  function OptionsOf(opts: seq<Opt>): seq<EDNSOption> {
    seq(|opts|, i requires 0 <= i < |opts| => EDNSOption(opts[i].code, opts[i].text))
  }

  /** The subnet in force after the first n options. */
  function SubnetAfter(before: string, opts: seq<Opt>, n: nat): string
    requires n <= |opts|
  {
    if n == 0 then before
    else if opts[n - 1].subnet.Some? then opts[n - 1].subnet.value
    else SubnetAfter(before, opts, n - 1)
  }

  function WithEDNS(e: EDNSInfo, o: Option<OPT>): EDNSInfo {
    match o
    case None => e
    case Some(o) =>
      EDNSInfo(o.version, o.udpSize, o.extendedRcode, o.dnssecOK,
               SubnetAfter(e.clientSubnet, o.options, |o.options|), e.options + OptionsOf(o.options))
  }

  function ResourceOf(t: Tables, m: Msg): map<string, seq<DNSRR>> {
    WithRecords(t, WithRecords(t, WithRecords(t, map[], "an", m.answer), "ns", m.ns), "ar", m.extra)
  }

  function WithMsg(t: Tables, d: DNSInfo, length: nat, m: Msg, isQuery: bool): DNSInfo {
    var asked := m.question != [];
    DNSInfo(
      length, m.hdr.id, m.hdr.opcode,
      if isQuery then d.rcode else t.rcodeText(m.hdr.rcode),
      if asked then m.question[0].name else d.qname,
      if asked then t.typeText(m.question[0].qtype) else d.qtype,
      if asked then t.classText(m.question[0].qclass) else d.qclass,
      |m.question|, |m.answer|, |m.ns|, |m.extra|,
      d.malformed, m.hdr.flags, ResourceOf(t, m))
  }

  function WithWire(t: Tables, e: DNSRawEvent, w: Wire, isQuery: bool): DNSRawEvent {
    if w.length == 0 then e
    else match w.unpacked
      case None => e.(dns := e.dns.(malformed := true))
      case Some(m) => e.(dns := WithMsg(t, e.dns, w.length, m, isQuery), edns := WithEDNS(e.edns, m.edns0))
  }

  function FamilyText(f: SocketFamily): string {
    match f case INET => "IPv4" case INET6 => "IPv6" case OtherFamily => "unknown"
  }

  function ProtocolText(p: SocketProtocol): string {
    match p case UDP => "UDP" case TCP => "TCP" case OtherProtocol => "unknown"
  }

  function NetworkOf(m: TapMessage): NetworkInfo {
    NetworkInfo(FamilyText(m.family), ProtocolText(m.protocol),
                m.queryAddress.GetOr(""), m.queryPort, m.responseAddress.GetOr(""), m.responsePort)
  }

  function TapInfoOf(tap: Tap, m: TapMessage, remote: Remote, now: int): DNSTapInfo {
    var times := Latency.TimesOf(m.qSec, m.qNsec, m.rSec, m.rNsec, now);
    var socketIP := if remote.Host? then remote.host else "";
    var socketPort := if remote.Host? && remote.port.Some? then remote.port.value else 0;
    PolicyExtra.WithExtra(
      DNSTapInfo(tap.version, tap.tapType, tap.identity, m.operation, socketIP, socketPort,
                 times.timestamp, times.latency, times.latencyMs,
                 "", m.queryZone, tap.extra, "", "", "", "", ""),
      tap.extra)
  }

  /** The whole decoder; a tap without a message gives no event. */
  function Decoded(t: Tables, tap: Tap, remote: Remote, now: int): Option<DNSRawEvent> {
    match tap.message
    case None => None
    case Some(m) =>
      var base := ZERO_EVENT.(network := NetworkOf(m), dnstap := TapInfoOf(tap, m, remote, now));
      Some(WithWire(t, WithWire(t, base, m.query, true), m.response, false))
  }

  // ------------------------------------------------------------- filling it in place

  class EventRef {
    var event: DNSRawEvent

    constructor ()
      ensures event == ZERO_EVENT
    {
      event := ZERO_EVENT;
    }
  }

  lemma AppendOne(t: Tables, before: map<string, seq<DNSRR>>, section: string, rrs: seq<RR>, i: nat)
    requires i < |rrs|
    ensures var r := WithRecords(t, before, section, rrs[..i]);
      WithRecords(t, before, section, rrs[..i + 1]) == r[section := Section(r, section) + [Record(t, rrs[i])]]
  {
    assert rrs[..i + 1] == rrs[..i] + [rrs[i]];
    assert Records(t, rrs[..i + 1]) == Records(t, rrs[..i]) + [Record(t, rrs[i])];
    assert Section(before, section) + Records(t, rrs[..i + 1])
        == Section(before, section) + Records(t, rrs[..i]) + [Record(t, rrs[i])];
    var x := Section(before, section) + Records(t, rrs[..i]);
    var y := x + [Record(t, rrs[i])];
    if i == 0 {
      assert x == Section(before, section);
    } else {
      assert before[section := x][section := y] == before[section := y];
    }
  }

  method AppendRR(t: Tables, section: string, rrs: seq<RR>, ref: EventRef)
    modifies ref
    ensures ref.event == old(ref.event).(dns := old(ref.event).dns.(
      resource := WithRecords(t, old(ref.event).dns.resource, section, rrs)))
  {
    ghost var before := ref.event.dns.resource;
    for i := 0 to |rrs|
      invariant ref.event == old(ref.event).(dns := old(ref.event).dns.(
        resource := WithRecords(t, before, section, rrs[..i])))
    {
      var record := Record(t, rrs[i]);
      var resource := ref.event.dns.resource;
      AppendOne(t, before, section, rrs, i);
      ref.event := ref.event.(dns := ref.event.dns.(
        resource := resource[section := Section(resource, section) + [record]]));
    }
    assert rrs[..|rrs|] == rrs;
  }

  method ParseEDNS(o: Option<OPT>, ref: EventRef)
    modifies ref
    ensures ref.event == old(ref.event).(edns := WithEDNS(old(ref.event).edns, o))
  {
    if o == None { return; }
    var opt := o.value;
    var edns := ref.event.edns;
    edns := edns.(version := opt.version, udpSize := opt.udpSize, rcode := opt.extendedRcode,
                  dnssecOK := opt.dnssecOK);
    for i := 0 to |opt.options|
      invariant edns == EDNSInfo(opt.version, opt.udpSize, opt.extendedRcode, opt.dnssecOK,
        SubnetAfter(ref.event.edns.clientSubnet, opt.options, i),
        ref.event.edns.options + OptionsOf(opt.options[..i]))
    {
      assert OptionsOf(opt.options[..i + 1])
          == OptionsOf(opt.options[..i]) + [EDNSOption(opt.options[i].code, opt.options[i].text)];
      edns := edns.(options := edns.options + [EDNSOption(opt.options[i].code, opt.options[i].text)]);
      match opt.options[i].subnet {
        case Some(address) => edns := edns.(clientSubnet := address);
        case None =>
      }
    }
    assert opt.options[..|opt.options|] == opt.options;
    ref.event := ref.event.(edns := edns);
  }

  method ParseDNS(t: Tables, w: Wire, ref: EventRef, isQuery: bool)
    requires w.length > 0
    modifies ref
    ensures ref.event == WithWire(t, old(ref.event), w, isQuery)
  {
    if w.unpacked == None {
      ref.event := ref.event.(dns := ref.event.dns.(malformed := true));
      return;
    }
    var d := w.unpacked.value;
    var dns := ref.event.dns;
    dns := dns.(id := d.hdr.id, opcode := d.hdr.opcode, length := w.length,
                qdcount := |d.question|, ancount := |d.answer|, nscount := |d.ns|, arcount := |d.extra|,
                flags := d.hdr.flags);
    if !isQuery { dns := dns.(rcode := t.rcodeText(d.hdr.rcode)); }
    if |d.question| > 0 {
      var q := d.question[0];
      dns := dns.(qname := q.name, qtype := t.typeText(q.qtype), qclass := t.classText(q.qclass));
    }
    dns := dns.(resource := map[]);
    ref.event := ref.event.(dns := dns);
    AppendRR(t, "an", d.answer, ref);
    AppendRR(t, "ns", d.ns, ref);
    AppendRR(t, "ar", d.extra, ref);
    ParseEDNS(d.edns0, ref);
  }

  lemma NoExtra(p: DNSTapInfo)
    ensures PolicyExtra.WithExtra(p, "") == p
  {
  }

  method FillTapInfo(tap: Tap, msg: TapMessage, remote: Remote, now: int) returns (info: DNSTapInfo)
    ensures info == TapInfoOf(tap, msg, remote, now)
  {
    info := ZERO_EVENT.dnstap;
    info := info.(identity := tap.identity, version := tap.version, extra := tap.extra,
                  tapType := tap.tapType, operation := msg.operation);
    if remote.Host? {
      info := info.(socketIP := remote.host);
      if remote.port.Some? { info := info.(socketPort := remote.port.value); }
    }
    if msg.queryZone != "" { info := info.(queryZone := msg.queryZone); }
    if msg.rSec > 0 {
      info := info.(timestamp := Latency.UnixTime(msg.rSec, msg.rNsec));
      if msg.qSec > 0 {
        var dur := Latency.Sub(info.timestamp, Latency.UnixTime(msg.qSec, msg.qNsec));
        info := info.(latency := dur as real / Latency.SECOND as real,
                      latencyMs := Latency.Milliseconds(dur));
      }
    } else if msg.qSec > 0 {
      info := info.(timestamp := Latency.UnixTime(msg.qSec, msg.qNsec));
    } else {
      info := info.(timestamp := now);
    }
    hide PolicyExtra.WithExtra, Latency.UnixTime, Latency.Sub, Latency.Milliseconds;
    if info.extra != "" { info := PolicyExtra.ParseExtra(info.extra, info); } else { NoExtra(info); }
  }

  method FillNetwork(msg: TapMessage) returns (info: NetworkInfo)
    ensures info == NetworkOf(msg)
  {
    info := ZERO_EVENT.network;
    match msg.family {
      case INET => info := info.(family := "IPv4");
      case INET6 => info := info.(family := "IPv6");
      case OtherFamily => info := info.(family := "unknown");
    }
    match msg.protocol {
      case UDP => info := info.(protocol := "UDP");
      case TCP => info := info.(protocol := "TCP");
      case OtherProtocol => info := info.(protocol := "unknown");
    }
    if msg.queryAddress.Some? { info := info.(queryIP := msg.queryAddress.value); }
    info := info.(queryPort := msg.queryPort);
    if msg.responseAddress.Some? { info := info.(responseIP := msg.responseAddress.value); }
    info := info.(responsePort := msg.responsePort);
  }

  method DecodeToEvent(t: Tables, tap: Tap, remote: Remote, now: int) returns (r: EventRef?)
    ensures r == null <==> Decoded(t, tap, remote, now) == None
    ensures r != null ==> fresh(r) && Some(r.event) == Decoded(t, tap, remote, now)
  {
    if tap.message == None { return null; }
    var msg := tap.message.value;
    var ref := new EventRef();
    var info := FillTapInfo(tap, msg, remote, now);
    var network := FillNetwork(msg);
    ref.event := ref.event.(dnstap := info, network := network);
    if msg.query.length > 0 { ParseDNS(t, msg.query, ref, true); }
    if msg.response.length > 0 { ParseDNS(t, msg.response, ref, false); }
    return ref;
  }

  // ----------------------------------------------- what is kept of a message's records

  /** The list kept says of each record, in order, what the wire said, with type and class
      as texts; location comes later. */
  predicate HoldsRecords(t: Tables, kept: seq<DNSRR>, rrs: seq<RR>) {
    && |kept| == |rrs|
    && forall i :: 0 <= i < |rrs| ==>
         && kept[i].name == rrs[i].name && kept[i].ttl == rrs[i].ttl && kept[i].rdata == rrs[i].rdata
         && kept[i].rdataType == t.typeText(rrs[i].rrtype) && kept[i].class_ == t.classText(rrs[i].class_)
         && kept[i].geo == None
  }

  predicate HoldsOptions(kept: seq<EDNSOption>, opts: seq<Opt>) {
    |kept| == |opts| && forall i :: 0 <= i < |opts| ==> kept[i].code == opts[i].code && kept[i].value == opts[i].text
  }

  lemma NoRecords(t: Tables)
    ensures Records(t, []) == []
  {
  }

  lemma RecordsHold(t: Tables, rrs: seq<RR>)
    ensures HoldsRecords(t, Records(t, rrs), rrs)
  {
  }

  lemma ResourceSections(t: Tables, m: Msg)
    ensures var r := ResourceOf(t, m);
      && r.Keys <= SECTIONS
      && ("an" in r <==> m.answer != []) && ("ns" in r <==> m.ns != []) && ("ar" in r <==> m.extra != [])
      && HoldsRecords(t, Section(r, "an"), m.answer)
      && HoldsRecords(t, Section(r, "ns"), m.ns)
      && HoldsRecords(t, Section(r, "ar"), m.extra)
  {
    hide Records, HoldsRecords;
    RecordsHold(t, m.answer);
    RecordsHold(t, m.ns);
    RecordsHold(t, m.extra);
    assert [] + Records(t, m.answer) == Records(t, m.answer);
    assert [] + Records(t, m.ns) == Records(t, m.ns);
    assert [] + Records(t, m.extra) == Records(t, m.extra);
    NoRecords(t);
  }

  lemma WireKeepsCounts(t: Tables, e: DNSRawEvent, w: Wire, isQuery: bool)
    requires CountsMatch(e)
    ensures CountsMatch(WithWire(t, e, w, isQuery))
  {
    if w.length > 0 && w.unpacked.Some? { ResourceSections(t, w.unpacked.value); }
  }

  /** Every decoded event carries exactly as many records per section as it counts. */
  lemma DecodedCountsMatch(t: Tables, tap: Tap, remote: Remote, now: int)
    ensures Decoded(t, tap, remote, now).Some? ==> CountsMatch(Decoded(t, tap, remote, now).value)
  {
    if tap.message.Some? {
      var m := tap.message.value;
      var base := ZERO_EVENT.(network := NetworkOf(m), dnstap := TapInfoOf(tap, m, remote, now));
      assert CountsMatch(base);
      WireKeepsCounts(t, base, m.query, true);
      WireKeepsCounts(t, WithWire(t, base, m.query, true), m.response, false);
    }
  }

  // ---------------------------------------------------------------- the merge law

  predicate Parsed(w: Wire) { w.length > 0 && w.unpacked.Some? }
  predicate Broken(w: Wire) { w.length > 0 && w.unpacked.None? }
  predicate Asked(w: Wire) { Parsed(w) && w.unpacked.value.question != [] }

  predicate HasOPT(w: Wire) { Parsed(w) && w.unpacked.value.edns0.Some? }

  function OptsOf(w: Wire): seq<Opt> {
    if HasOPT(w) then w.unpacked.value.edns0.value.options else []
  }

  lemma {:induction false} SubnetOfPrefix(before: string, a: seq<Opt>, b: seq<Opt>, n: nat)
    requires n <= |a|
    ensures SubnetAfter(before, a + b, n) == SubnetAfter(before, a, n)
  {
    if n > 0 { SubnetOfPrefix(before, a, b, n - 1); }
  }

  lemma {:induction false} SubnetOfConcat(before: string, a: seq<Opt>, b: seq<Opt>, n: nat)
    requires n <= |b|
    ensures SubnetAfter(before, a + b, |a| + n) == SubnetAfter(SubnetAfter(before, a, |a|), b, n)
  {
    if n == 0 {
      SubnetOfPrefix(before, a, b, |a|);
    } else {
      SubnetOfConcat(before, a, b, n - 1);
    }
  }

  function Merged(t: Tables, e: DNSRawEvent, q: Wire, r: Wire): DNSRawEvent {
    WithWire(t, WithWire(t, e, q, true), r, false)
  }

  /** Header, counts and records come from the last message that parses, the response code
      only from a parsed response, and the malformed mark from either failure. */
  lemma MergeHeader(t: Tables, e: DNSRawEvent, q: Wire, r: Wire)
    ensures var d := Merged(t, e, q, r).dns;
      && d.malformed == (e.dns.malformed || Broken(q) || Broken(r))
      && d.rcode == (if Parsed(r) then t.rcodeText(r.unpacked.value.hdr.rcode) else e.dns.rcode)
      && (if Parsed(q) || Parsed(r) then
            var w := if Parsed(r) then r else q;
            var m := w.unpacked.value;
            && d.length == w.length && d.id == m.hdr.id && d.opcode == m.hdr.opcode && d.flags == m.hdr.flags
            && d.qdcount == |m.question| && d.ancount == |m.answer|
            && d.nscount == |m.ns| && d.arcount == |m.extra|
            && d.resource.Keys <= SECTIONS && ("an" in d.resource <==> m.answer != [])
            && ("ns" in d.resource <==> m.ns != []) && ("ar" in d.resource <==> m.extra != [])
            && HoldsRecords(t, Section(d.resource, "an"), m.answer)
            && HoldsRecords(t, Section(d.resource, "ns"), m.ns)
            && HoldsRecords(t, Section(d.resource, "ar"), m.extra)
          else
            d == e.dns.(malformed := d.malformed))
  {
    if Parsed(q) { ResourceSections(t, q.unpacked.value); }
    if Parsed(r) { ResourceSections(t, r.unpacked.value); }
  }

  /** The question is that of the last parsed message that has one. */
  lemma MergeQuestion(t: Tables, e: DNSRawEvent, q: Wire, r: Wire)
    ensures var d := Merged(t, e, q, r).dns;
      if Asked(q) || Asked(r) then
        var asked := (if Asked(r) then r else q).unpacked.value.question[0];
        d.qname == asked.name && d.qtype == t.typeText(asked.qtype) && d.qclass == t.classText(asked.qclass)
      else
        d.qname == e.dns.qname && d.qtype == e.dns.qtype && d.qclass == e.dns.qclass
  {
  }

  function OPTOf(w: Wire): Option<OPT> { if HasOPT(w) then w.unpacked.value.edns0 else None }

  lemma EDNSAfterWire(t: Tables, e: DNSRawEvent, w: Wire, isQuery: bool)
    ensures WithWire(t, e, w, isQuery).edns == WithEDNS(e.edns, OPTOf(w))
  {
  }

  lemma EDNSOptionsAdd(e: EDNSInfo, w: Wire)
    ensures WithEDNS(e, OPTOf(w)).options == e.options + OptionsOf(OptsOf(w))
    ensures WithEDNS(e, OPTOf(w)).clientSubnet == SubnetAfter(e.clientSubnet, OptsOf(w), |OptsOf(w)|)
  {
  }

  lemma OptionsOfConcat(a: seq<Opt>, b: seq<Opt>)
    ensures OptionsOf(a + b) == OptionsOf(a) + OptionsOf(b)
  {
  }

  lemma EDNSScalars(e: EDNSInfo, w: Wire)
    ensures HasOPT(w) <==> OPTOf(w).Some?
    ensures var x := WithEDNS(e, OPTOf(w));
      match OPTOf(w)
      case Some(o) =>
        x.version == o.version && x.udpSize == o.udpSize && x.rcode == o.extendedRcode && x.dnssecOK == o.dnssecOK
      case None => x == e
  {
    hide OptionsOf, SubnetAfter;
  }

  /** Option i is the last of the first n to carry a subnet. */
  predicate LastSubnet(opts: seq<Opt>, n: nat, i: nat)
    requires n <= |opts|
  {
    i < n && opts[i].subnet.Some? && forall j :: i < j < n ==> opts[j].subnet.None?
  }

  predicate NoSubnet(opts: seq<Opt>, n: nat)
    requires n <= |opts|
  {
    forall i :: 0 <= i < n ==> opts[i].subnet.None?
  }

  lemma {:induction false} SubnetIsLast(before: string, opts: seq<Opt>, n: nat)
    requires n <= |opts|
    ensures forall i: nat :: LastSubnet(opts, n, i) ==> SubnetAfter(before, opts, n) == opts[i].subnet.value
    ensures NoSubnet(opts, n) ==> SubnetAfter(before, opts, n) == before
  {
    if n > 0 {
      SubnetIsLast(before, opts, n - 1);
      forall i: nat | LastSubnet(opts, n, i) && i < n - 1 ensures LastSubnet(opts, n - 1, i) { }
    }
  }

  lemma OptionsHold(before: seq<EDNSOption>, opts: seq<Opt>)
    ensures var all := before + OptionsOf(opts);
      |before| <= |all| && all[..|before|] == before && HoldsOptions(all[|before|..], opts)
  {
  }

  /** EDNS options accumulate, query before response, each with its code and text; the
      client subnet is the last one among them; the scalars come from the last message that
      carries an OPT record. */
  lemma MergeEDNS(t: Tables, e: DNSRawEvent, q: Wire, r: Wire)
    ensures var x := Merged(t, e, q, r).edns; var all := OptsOf(q) + OptsOf(r);
      && |x.options| >= |e.edns.options| && x.options[..|e.edns.options|] == e.edns.options
      && HoldsOptions(x.options[|e.edns.options|..], all)
      && (forall i: nat :: LastSubnet(all, |all|, i) ==> x.clientSubnet == all[i].subnet.value)
      && (NoSubnet(all, |all|) ==> x.clientSubnet == e.edns.clientSubnet)
      && (match (if HasOPT(r) then OPTOf(r) else OPTOf(q))
          case Some(o) =>
            x.version == o.version && x.udpSize == o.udpSize && x.rcode == o.extendedRcode && x.dnssecOK == o.dnssecOK
          case None => x == e.edns)
  {
    hide WithWire, WithEDNS, OptionsOf, OptsOf, SubnetAfter, HasOPT, OPTOf, HoldsOptions, LastSubnet, NoSubnet;
    EDNSAfterWire(t, e, q, true);
    EDNSAfterWire(t, WithWire(t, e, q, true), r, false);
    var between := WithEDNS(e.edns, OPTOf(q));
    EDNSOptionsAdd(e.edns, q);
    EDNSOptionsAdd(between, r);
    SubnetOfConcat(e.edns.clientSubnet, OptsOf(q), OptsOf(r), |OptsOf(r)|);
    OptionsOfConcat(OptsOf(q), OptsOf(r));
    assert e.edns.options + OptionsOf(OptsOf(q)) + OptionsOf(OptsOf(r))
        == e.edns.options + (OptionsOf(OptsOf(q)) + OptionsOf(OptsOf(r)));
    EDNSScalars(e.edns, q);
    EDNSScalars(between, r);
    var all := OptsOf(q) + OptsOf(r);
    OptionsHold(e.edns.options, all);
    SubnetIsLast(e.edns.clientSubnet, all, |all|);
  }

  // ------------------------------------------------------------- the decoded event

  /** The event of a tap is its two messages merged, query before response, over fields at
      their zero values. */
  lemma DecodedIsMerged(t: Tables, tap: Tap, remote: Remote, now: int)
    requires tap.message.Some?
    ensures Decoded(t, tap, remote, now).Some?
    ensures var e, m := Decoded(t, tap, remote, now).value, tap.message.value;
      var x := Merged(t, ZERO_EVENT, m.query, m.response);
      && e.dns == x.dns && e.edns == x.edns && e.geoip == GeoIPInfo("", "", "", "")
      && e.dns.malformed == (Broken(m.query) || Broken(m.response))
      && (!Parsed(m.query) && !Parsed(m.response) ==>
            && e.dns.id == 0 && e.dns.rcode == "" && e.dns.qname == "" && e.dns.ancount == 0
            && e.dns.resource == map[] && e.edns.options == [])
  {
  }

  lemma WireKeepsBlocks(t: Tables, e: DNSRawEvent, w: Wire, isQuery: bool)
    ensures var x := WithWire(t, e, w, isQuery); x.network == e.network && x.dnstap == e.dnstap && x.geoip == e.geoip
  {
  }

  lemma BlocksStay(t: Tables, tap: Tap, remote: Remote, now: int)
    requires tap.message.Some?
    ensures Decoded(t, tap, remote, now).Some?
    ensures var e, m := Decoded(t, tap, remote, now).value, tap.message.value;
      e.network == NetworkOf(m) && e.dnstap == TapInfoOf(tap, m, remote, now)
  {
    hide WithWire, NetworkOf, TapInfoOf;
    var m := tap.message.value;
    var base := ZERO_EVENT.(network := NetworkOf(m), dnstap := TapInfoOf(tap, m, remote, now));
    WireKeepsBlocks(t, base, m.query, true);
    WireKeepsBlocks(t, WithWire(t, base, m.query, true), m.response, false);
  }

  /** The network block shows the addresses and ports of the frame, an absent address as the
      empty text, and family and protocol by name. */
  lemma DecodedNetwork(t: Tables, tap: Tap, remote: Remote, now: int)
    requires tap.message.Some?
    ensures Decoded(t, tap, remote, now).Some?
    ensures var n, m := Decoded(t, tap, remote, now).value.network, tap.message.value;
      && n.queryIP == m.queryAddress.GetOr("") && n.queryPort == m.queryPort
      && n.responseIP == m.responseAddress.GetOr("") && n.responsePort == m.responsePort
      && (n.family == "IPv4" <==> m.family == INET) && (n.family == "IPv6" <==> m.family == INET6)
      && (n.family == "unknown" <==> m.family == OtherFamily)
      && (n.protocol == "UDP" <==> m.protocol == UDP) && (n.protocol == "TCP" <==> m.protocol == TCP)
      && (n.protocol == "unknown" <==> m.protocol == OtherProtocol)
  {
    hide WithWire;
    BlocksStay(t, tap, remote, now);
  }

  lemma ExtraAttributes(p: DNSTapInfo, extra: string)
    ensures var r, words := PolicyExtra.WithExtra(p, extra), PolicyExtra.Fields(extra);
      r == p.(peerName := PolicyExtra.LastUnder("peer-name", words, |words|, p.peerName),
              policyRule := PolicyExtra.LastUnder("policy-rule", words, |words|, p.policyRule),
              policyType := PolicyExtra.LastUnder("policy-type", words, |words|, p.policyType),
              policyMatch := PolicyExtra.LastUnder("policy-match", words, |words|, p.policyMatch),
              policyValue := PolicyExtra.LastUnder("policy-value", words, |words|, p.policyValue))
  {
    hide PolicyExtra.WithExtra, PolicyExtra.LastUnder;
    PolicyExtra.AttributesByName(p, extra);
    PolicyExtra.LastWordWins(p, extra, PolicyExtra.PeerName);
  }

  /** The tap block shows the frame's own texts, the peer's socket as far as it was split,
      the times of the message and, of the policy texts, what the Extra text names. */
  lemma DecodedTapInfo(t: Tables, tap: Tap, remote: Remote, now: int)
    requires tap.message.Some?
    ensures Decoded(t, tap, remote, now).Some?
    ensures var p, m := Decoded(t, tap, remote, now).value.dnstap, tap.message.value;
      var words := PolicyExtra.Fields(tap.extra);
      && p.identity == tap.identity && p.version == tap.version && p.tapType == tap.tapType && p.extra == tap.extra
      && p.operation == m.operation && p.queryZone == m.queryZone && p.httpProtocol == ""
      && (match remote
          case Host(host, port) => p.socketIP == host && p.socketPort == port.GetOr(0)
          case Unsplit => p.socketIP == "" && p.socketPort == 0)
      && Latency.Times(p.timestamp, p.latency, p.latencyMs)
           == Latency.TimesOf(m.qSec, m.qNsec, m.rSec, m.rNsec, now)
      && p.peerName == PolicyExtra.LastUnder("peer-name", words, |words|, "")
      && p.policyRule == PolicyExtra.LastUnder("policy-rule", words, |words|, "")
      && p.policyType == PolicyExtra.LastUnder("policy-type", words, |words|, "")
      && p.policyMatch == PolicyExtra.LastUnder("policy-match", words, |words|, "")
      && p.policyValue == PolicyExtra.LastUnder("policy-value", words, |words|, "")
  {
    hide WithWire, PolicyExtra.WithExtra, PolicyExtra.LastUnder, PolicyExtra.Fields, Latency.TimesOf;
    BlocksStay(t, tap, remote, now);
    var m := tap.message.value;
    var times := Latency.TimesOf(m.qSec, m.qNsec, m.rSec, m.rNsec, now);
    var socketIP := if remote.Host? then remote.host else "";
    var socketPort := if remote.Host? && remote.port.Some? then remote.port.value else 0;
    ExtraAttributes(DNSTapInfo(tap.version, tap.tapType, tap.identity, m.operation, socketIP, socketPort,
                               times.timestamp, times.latency, times.latencyMs,
                               "", m.queryZone, tap.extra, "", "", "", "", ""), tap.extra);
  }
}
