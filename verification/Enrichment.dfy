/** GeoIP enrichment in processEvent (internal/usecase/pipeline.go:132-163): the client's
    fields on the event, and a Geo block written in place on address records. */
module Enrichment {
  import Bags
  import opened Domain

  /** The resolver as an oracle: a client lookup may fail, an address lookup answers with
      three texts, and isIP says what net.ParseIP accepts. */
  datatype Resolver = Resolver(
    client: string -> Option<GeoIPInfo>,
    address: string -> (string, string, string),
    isIP: string -> bool)

  function EnrichedRR(r: Resolver, rr: DNSRR): DNSRR {
    if (rr.rdataType != "A" && rr.rdataType != "AAAA") || !r.isIP(rr.rdata) then rr
    else
      var (country, city, asn) := r.address(rr.rdata);
      if country != "" || city != "" || asn != ""
      then rr.(geo := Some(RRGeoInfo(country, city, asn)))
      else rr
  }

  function EnrichedSection(r: Resolver, rrs: seq<DNSRR>): seq<DNSRR> {
    seq(|rrs|, i requires 0 <= i < |rrs| => EnrichedRR(r, rrs[i]))
  }

  function Enriched(g: Option<Resolver>, e: DNSRawEvent): DNSRawEvent {
    match g
    case None => e
    case Some(r) =>
      var geo := match r.client(e.network.queryIP) case Some(info) => info case None => e.geoip;
      var resource := map s | s in e.dns.resource :: EnrichedSection(r, e.dns.resource[s]);
      e.(geoip := geo, dns := e.dns.(resource := resource))
  }

  /** The events as the storages are handed them. */
  function Handed(g: Option<Resolver>, es: seq<DNSRawEvent>): seq<DNSRawEvent> {
    seq(|es|, i requires 0 <= i < |es| => Enriched(g, es[i]))
  }

  lemma HandedGrows(g: Option<Resolver>, es: seq<DNSRawEvent>, e: DNSRawEvent)
    ensures Handed(g, es + [e]) == Handed(g, es) + [Enriched(g, e)]
  {
  }

  lemma HandedPermutes(g: Option<Resolver>, a: seq<DNSRawEvent>, b: seq<DNSRawEvent>)
    requires multiset(a) == multiset(b)
    ensures multiset(Handed(g, a)) == multiset(Handed(g, b))
  {
    var f := (e: DNSRawEvent) => Enriched(g, e);
    assert Handed(g, a) == Bags.Map(f, a) && Handed(g, b) == Bags.Map(f, b);
    Bags.MapPermutes(f, a, b);
  }

  function WithoutGeo(rrs: seq<DNSRR>): seq<DNSRR> {
    seq(|rrs|, i requires 0 <= i < |rrs| => rrs[i].(geo := None))
  }

  function Stripped(e: DNSRawEvent): DNSRawEvent {
    e.(geoip := GeoIPInfo("", "", "", ""),
       dns := e.dns.(resource := map s | s in e.dns.resource :: WithoutGeo(e.dns.resource[s])))
  }

  lemma SectionKeepsRecords(r: Resolver, rrs: seq<DNSRR>)
    ensures WithoutGeo(EnrichedSection(r, rrs)) == WithoutGeo(rrs)
    ensures EnrichedSection(r, EnrichedSection(r, rrs)) == EnrichedSection(r, rrs)
  {
  }

  /** Enrichment adds location data and changes nothing else: no record appears, is lost,
      moves or is altered. */
  lemma EnrichmentOnlyAddsGeo(g: Option<Resolver>, e: DNSRawEvent)
    ensures Stripped(Enriched(g, e)) == Stripped(e)
    ensures CountsMatch(e) <==> CountsMatch(Enriched(g, e))
  {
    if g.Some? {
      var a, b := Stripped(Enriched(g, e)).dns.resource, Stripped(e).dns.resource;
      forall s | s in b ensures s in a && a[s] == b[s] { SectionKeepsRecords(g.value, e.dns.resource[s]); }
      assert a == b;
      assert Enriched(g, e).dns.resource.Keys == e.dns.resource.Keys;
    }
  }

  /** The resolver has something to say about a record: it is an address record whose data
      is an IP address, and not all three texts found for it are empty. */
  predicate Located(r: Resolver, rr: DNSRR) {
    && (rr.rdataType == "A" || rr.rdataType == "AAAA") && r.isIP(rr.rdata)
    && !(r.address(rr.rdata).0 == "" && r.address(rr.rdata).1 == "" && r.address(rr.rdata).2 == "")
  }

  /** Each record of each section carries country, city and network as found for its own
      address, in these fields, or the location it came with; the rest of it stays. */
  lemma RecordLocation(r: Resolver, e: DNSRawEvent, section: string, i: nat)
    requires section in e.dns.resource && i < |e.dns.resource[section]|
    ensures var resource := Enriched(Some(r), e).dns.resource;
      && section in resource && |resource[section]| == |e.dns.resource[section]|
      && var before, after := e.dns.resource[section][i], resource[section][i];
        && after.name == before.name && after.rdataType == before.rdataType && after.class_ == before.class_
        && after.ttl == before.ttl && after.rdata == before.rdata
        && if Located(r, before) then
             && after.geo.Some?
             && after.geo.value.country == r.address(before.rdata).0
             && after.geo.value.city == r.address(before.rdata).1
             && after.geo.value.asn == r.address(before.rdata).2
           else after.geo == before.geo
  {
    var rrs := e.dns.resource[section];
    assert EnrichedSection(r, rrs)[i] == EnrichedRR(r, rrs[i]);
  }

  /** The event's own location is what the lookup of its client finds, or what it was if the
      lookup fails, and without a resolver nothing changes at all. */
  lemma ClientLocation(g: Option<Resolver>, e: DNSRawEvent)
    ensures g == None ==> Enriched(g, e) == e
    ensures g.Some? ==> Enriched(g, e).geoip == g.value.client(e.network.queryIP).GetOr(e.geoip)
  {
  }


  /** Enriching twice is enriching once. */
  lemma EnrichmentIdempotent(g: Option<Resolver>, e: DNSRawEvent)
    ensures Enriched(g, Enriched(g, e)) == Enriched(g, e)
  {
    if g.Some? {
      var a, b := Enriched(g, Enriched(g, e)).dns.resource, Enriched(g, e).dns.resource;
      forall s | s in b ensures s in a && a[s] == b[s] { SectionKeepsRecords(g.value, e.dns.resource[s]); }
      assert a == b;
    }
  }

  method EnrichSection(r: Resolver, section: array<DNSRR>)
    modifies section
    ensures section[..] == EnrichedSection(r, old(section[..]))
  {
    for i := 0 to section.Length
      invariant forall k :: 0 <= k < i ==> section[k] == EnrichedRR(r, old(section[k]))
      invariant forall k :: i <= k < section.Length ==> section[k] == old(section[k])
    {
      var rr := section[i];
      if rr.rdataType == "A" || rr.rdataType == "AAAA" {
        if r.isIP(rr.rdata) {
          var (country, city, asn) := r.address(rr.rdata);
          if country != "" || city != "" || asn != "" {
            section[i] := rr.(geo := Some(RRGeoInfo(country, city, asn)));
          }
        }
      }
    }
  }

  /** The two nested loops over the event's sections, which are separate arrays, in any
      order of the map. */
  method EnrichInPlace(r: Resolver, resource: map<string, array<DNSRR>>)
    requires forall s, t :: s in resource && t in resource && s != t ==> resource[s] != resource[t]
    modifies set s | s in resource :: resource[s]
    ensures forall s :: s in resource ==> resource[s][..] == EnrichedSection(r, old(resource[s][..]))
  {
    var todo := resource.Keys;
    while todo != {}
      invariant todo <= resource.Keys
      invariant forall s :: s in resource && s in todo ==> resource[s][..] == old(resource[s][..])
      invariant forall s :: s in resource && s !in todo ==>
        resource[s][..] == EnrichedSection(r, old(resource[s][..]))
      decreases todo
    {
      var s :| s in todo;
      EnrichSection(r, resource[s]);
      todo := todo - {s};
    }
  }

  /** The sections as the slices that the decoder has built, one array each. */
  method Slices(resource: map<string, seq<DNSRR>>) returns (m: map<string, array<DNSRR>>)
    ensures m.Keys == resource.Keys
    ensures forall s :: s in m ==> fresh(m[s]) && m[s][..] == resource[s]
    ensures forall s, t :: s in m && t in m && s != t ==> m[s] != m[t]
  {
    m := map[];
    var todo := resource.Keys;
    while todo != {}
      invariant todo <= resource.Keys && m.Keys == resource.Keys - todo
      invariant forall s :: s in m ==> fresh(m[s]) && m[s][..] == resource[s]
      invariant forall s, t :: s in m && t in m && s != t ==> m[s] != m[t]
      decreases todo
    {
      var s :| s in todo;
      var rrs := resource[s];
      var a := new DNSRR[|rrs|](i requires 0 <= i < |rrs| => rrs[i]);
      assert a[..] == rrs;
      m := m[s := a];
      todo := todo - {s};
    }
  }

  /** The whole of the enrichment: the client's fields are overwritten if its lookup
      succeeds, the sections' slices are updated in place. */
  method EnrichEvent(g: Option<Resolver>, e: DNSRawEvent) returns (r: DNSRawEvent)
    ensures r == Enriched(g, e)
  {
    r := e;
    if g == None { return; }
    var client := g.value.client(e.network.queryIP);
    if client.Some? {
      var info := client.value;
      r := r.(geoip := r.geoip.(clientIP := info.clientIP, clientCountry := info.clientCountry,
                                clientCity := info.clientCity, clientASN := info.clientASN));
    }
    var slices := Slices(e.dns.resource);
    EnrichInPlace(g.value, slices);
    var resource := map s | s in slices :: slices[s][..];
    assert resource == map s | s in e.dns.resource :: EnrichedSection(g.value, e.dns.resource[s]);
    r := r.(dns := r.dns.(resource := resource));
  }
}
