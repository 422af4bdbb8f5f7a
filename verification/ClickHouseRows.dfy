/** flushBatch (internal/adapter/outbound/clickhouse/writer.go:305-437): the rows of a
    batch of events, one raw row each and one answer row per resource record, appended in
    nested loops and sent in two inserts. */
module ClickHouseRows {
  import opened Bags
  import opened Domain
  import Enrichment
  import DnstapDecode

  /** The columns the writer narrows; the others carry the event's own values. */
  datatype RawRow = RawRow(
    ts: int, event: DNSRawEvent,
    queryPort: int, responsePort: int, opcode: int, length: int, id: int,
    qdcount: int, ancount: int, nscount: int, arcount: int,
    ednsVersion: int, ednsUDPSize: int, ednsRcode: int, socketPort: int)

  datatype AnswerRow = AnswerRow(
    ts: int, queryIP: string, qname: string, name: string, rdataType: string, rdata: string,
    ttl: int, section: string, geo: RRGeoInfo)

  function U8(x: int): int { x % 0x100 }
  function U16(x: int): int { x % 0x1_0000 }
  function U32(x: int): int { x % 0x1_0000_0000 }

  function TimeOf(e: DNSRawEvent, now: int): int {
    if e.dnstap.timestamp == ZERO_TIME then now else e.dnstap.timestamp
  }

  function RawRowOf(e: DNSRawEvent, now: int): RawRow {
    RawRow(TimeOf(e, now), e,
           U16(e.network.queryPort), U16(e.network.responsePort), U8(e.dns.opcode), U16(e.dns.length), U16(e.dns.id),
           U16(e.dns.qdcount), U16(e.dns.ancount), U16(e.dns.nscount), U16(e.dns.arcount),
           U8(e.edns.version), U16(e.edns.udpSize), U8(e.edns.rcode), U16(e.dnstap.socketPort))
  }

  function AnswerRowOf(e: DNSRawEvent, now: int, section: string, rr: DNSRR): AnswerRow {
    AnswerRow(TimeOf(e, now), e.network.queryIP, e.dns.qname, rr.name, rr.rdataType, rr.rdata,
              U32(rr.ttl), section, rr.geo.GetOr(RRGeoInfo("", "", "")))
  }

  function SectionRows(e: DNSRawEvent, now: int, section: string): seq<AnswerRow> {
    var rrs := Section(e.dns.resource, section);
    seq(|rrs|, i requires 0 <= i < |rrs| => AnswerRowOf(e, now, section, rrs[i]))
  }

  /** The answer rows of some sections of an event, in no particular order. */
  ghost function Bag(e: DNSRawEvent, now: int, sections: set<string>): multiset<AnswerRow> {
    if sections == {} then multiset{}
    else var s :| s in sections; Bag(e, now, sections - {s}) + multiset(SectionRows(e, now, s))
  }

  ghost function EventBag(e: DNSRawEvent, now: int): multiset<AnswerRow> { Bag(e, now, e.dns.resource.Keys) }

  function RawRows(events: seq<DNSRawEvent>, clock: nat -> int, n: nat): seq<RawRow>
    requires n <= |events|
  {
    if n == 0 then [] else RawRows(events, clock, n - 1) + [RawRowOf(events[n - 1], clock(n - 1))]
  }

  ghost function AnswerBag(events: seq<DNSRawEvent>, clock: nat -> int, n: nat): multiset<AnswerRow>
    requires n <= |events|
  {
    if n == 0 then multiset{} else AnswerBag(events, clock, n - 1) + EventBag(events[n - 1], clock(n - 1))
  }

  /** The rows of a whole batch. */
  function BatchRaw(events: seq<DNSRawEvent>, clock: nat -> int): seq<RawRow> { RawRows(events, clock, |events|) }

  ghost function BatchAnswers(events: seq<DNSRawEvent>, clock: nat -> int): multiset<AnswerRow> {
    AnswerBag(events, clock, |events|)
  }

  function RecordTotal(events: seq<DNSRawEvent>, n: nat): int
    requires n <= |events|
  {
    if n == 0 then 0
    else RecordTotal(events, n - 1) + events[n - 1].dns.ancount + events[n - 1].dns.nscount + events[n - 1].dns.arcount
  }

  // ------------------------------------------------------------- set-order lemmas

  /** Sections may be taken in any order. */
  lemma {:induction false} BagOfAny(e: DNSRawEvent, now: int, sections: set<string>, x: string)
    requires x in sections
    ensures Bag(e, now, sections) == Bag(e, now, sections - {x}) + multiset(SectionRows(e, now, x))
    decreases sections
  {
    var s :| s in sections && Bag(e, now, sections) == Bag(e, now, sections - {s}) + multiset(SectionRows(e, now, s));
    if s != x {
      BagOfAny(e, now, sections - {s}, x);
      BagOfAny(e, now, sections - {x}, s);
      assert sections - {s} - {x} == sections - {x} - {s};
      Regroup(Bag(e, now, sections - {x} - {s}), multiset(SectionRows(e, now, x)), multiset(SectionRows(e, now, s)));
    }
  }

  lemma SectionSize(e: DNSRawEvent, now: int, sections: set<string>, x: string)
    ensures |multiset(SectionRows(e, now, x))| == |Section(e.dns.resource, x)|
  {
  }

  lemma {:induction false} BagSizeWithin(e: DNSRawEvent, now: int, sections: set<string>, x: string)
    ensures |Bag(e, now, sections + {x})| ==
      |Bag(e, now, sections - {x})| + |Section(e.dns.resource, x)|
  {
    BagOfAny(e, now, sections + {x}, x);
    assert sections + {x} - {x} == sections - {x};
    SectionSize(e, now, sections, x);
  }

  lemma ThreeSections(e: DNSRawEvent, now: int)
    ensures |Bag(e, now, SECTIONS)| ==
      |Section(e.dns.resource, "an")| + |Section(e.dns.resource, "ns")| + |Section(e.dns.resource, "ar")|
  {
    BagSizeWithin(e, now, {}, "an");
    BagSizeWithin(e, now, {"an"}, "ns");
    BagSizeWithin(e, now, {"an", "ns"}, "ar");
    assert {} + {"an"} == {"an"} && {"an"} + {"ns"} == {"an", "ns"} && {"an", "ns"} + {"ar"} == SECTIONS;
    assert {"an"} - {"ns"} == {"an"} && {"an", "ns"} - {"ar"} == {"an", "ns"};
  }

  /** A section the event does not have contributes no row. */
  lemma {:induction false} MissingSectionsAddNothing(e: DNSRawEvent, now: int, have: set<string>, missing: set<string>)
    requires missing !! e.dns.resource.Keys && have !! missing
    ensures Bag(e, now, have + missing) == Bag(e, now, have)
    decreases missing
  {
    if missing == {} {
      assert have + missing == have;
    } else {
      var x :| x in missing;
      BagOfAny(e, now, have + missing, x);
      assert have + missing - {x} == have + (missing - {x});
      MissingSectionsAddNothing(e, now, have, missing - {x});
    }
  }

  lemma EventBagSize(e: DNSRawEvent, now: int)
    requires CountsMatch(e)
    ensures |EventBag(e, now)| == e.dns.ancount + e.dns.nscount + e.dns.arcount
  {
    var have := e.dns.resource.Keys;
    MissingSectionsAddNothing(e, now, have, SECTIONS - have);
    assert have + (SECTIONS - have) == SECTIONS;
    ThreeSections(e, now);
  }

  lemma {:induction false} RowConservation(events: seq<DNSRawEvent>, clock: nat -> int, n: nat)
    requires n <= |events| && forall i :: 0 <= i < |events| ==> CountsMatch(events[i])
    ensures |RawRows(events, clock, n)| == n
    ensures |AnswerBag(events, clock, n)| == RecordTotal(events, n)
  {
    hide CountsMatch, EventBag, RawRowOf;
    if n > 0 {
      RowConservation(events, clock, n - 1);
      EventBagSize(events[n - 1], clock(n - 1));
    }
  }

  /** From wire to table: for events that were decoded and then enriched, the batch has one
      raw row per event and as many answer rows as the decoder counted records. */
  lemma DecodedRowsConserved(t: DnstapDecode.Tables, taps: seq<(DnstapDecode.Tap, DnstapDecode.Remote, int)>,
                             g: Option<Enrichment.Resolver>, events: seq<DNSRawEvent>, clock: nat -> int)
    requires |taps| == |events|
    requires forall i :: 0 <= i < |events| ==>
      var d := DnstapDecode.Decoded(t, taps[i].0, taps[i].1, taps[i].2);
      d.Some? && events[i] == Enrichment.Enriched(g, d.value)
    ensures |BatchRaw(events, clock)| == |events|
    ensures |BatchAnswers(events, clock)| == RecordTotal(events, |events|)
  {
    forall i | 0 <= i < |events| ensures CountsMatch(events[i]) {
      var d := DnstapDecode.Decoded(t, taps[i].0, taps[i].1, taps[i].2);
      DnstapDecode.DecodedCountsMatch(t, taps[i].0, taps[i].1, taps[i].2);
      Enrichment.EnrichmentOnlyAddsGeo(g, d.value);
    }
    RowConservation(events, clock, |events|);
  }

  // ------------------------------------------------------------------- narrowing

  predicate In16(x: int) { 0 <= x < 0x1_0000 }
  predicate In8(x: int) { 0 <= x < 0x100 }

  predicate Fits(e: DNSRawEvent) {
    && In16(e.network.queryPort) && In16(e.network.responsePort)
    && In8(e.dns.opcode) && In16(e.dns.length) && In16(e.dns.id)
    && In16(e.dns.qdcount) && In16(e.dns.ancount) && In16(e.dns.nscount) && In16(e.dns.arcount)
    && In8(e.edns.version) && In16(e.edns.udpSize) && In8(e.edns.rcode)
    && In16(e.dnstap.socketPort)
  }

  predicate Unchanged(r: RawRow) {
    var e := r.event;
    && r.queryPort == e.network.queryPort && r.responsePort == e.network.responsePort
    && r.opcode == e.dns.opcode && r.length == e.dns.length && r.id == e.dns.id
    && r.qdcount == e.dns.qdcount && r.ancount == e.dns.ancount
    && r.nscount == e.dns.nscount && r.arcount == e.dns.arcount
    && r.ednsVersion == e.edns.version && r.ednsUDPSize == e.edns.udpSize && r.ednsRcode == e.edns.rcode
    && r.socketPort == e.dnstap.socketPort
  }

  lemma NarrowsTo(x: int)
    ensures U16(x) == x <==> In16(x)
    ensures U8(x) == x <==> In8(x)
  {
  }

  /** A raw row shows the event's numbers exactly when all of them fit their columns. */
  lemma NarrowingIsExactIff(e: DNSRawEvent, now: int)
    ensures Unchanged(RawRowOf(e, now)) <==> Fits(e)
  {
    NarrowsTo(e.network.queryPort); NarrowsTo(e.network.responsePort);
    NarrowsTo(e.dns.opcode); NarrowsTo(e.dns.length); NarrowsTo(e.dns.id);
    NarrowsTo(e.dns.qdcount); NarrowsTo(e.dns.ancount); NarrowsTo(e.dns.nscount); NarrowsTo(e.dns.arcount);
    NarrowsTo(e.edns.version); NarrowsTo(e.edns.udpSize); NarrowsTo(e.edns.rcode);
    NarrowsTo(e.dnstap.socketPort);
  }

  /** Decoded events need not fit: the extended response code of an OPT record has twelve
      bits, and its column eight. */
  lemma DecodedMayNotFit(t: DnstapDecode.Tables, remote: DnstapDecode.Remote, now: int) returns (tap: DnstapDecode.Tap)
    ensures var e := DnstapDecode.Decoded(t, tap, remote, now);
      e.Some? && e.value.edns.rcode == 256 && U8(e.value.edns.rcode) == 0 && !Fits(e.value)
  {
    var flags := Flags(true, false, false, false, false, false, false);
    var msg := DnstapDecode.Msg(DnstapDecode.Header(7, 0, 0, flags), [], [], [], [],
                                Some(DnstapDecode.OPT(0, 1232, 256, false, [])));
    var none := DnstapDecode.Wire(0, None);
    tap := DnstapDecode.Tap("", "", "", "MESSAGE", Some(DnstapDecode.TapMessage(
      "CLIENT_RESPONSE", "", 0, 0, 1, 0, DnstapDecode.INET, DnstapDecode.UDP, None, 0, None, 0,
      none, DnstapDecode.Wire(23, Some(msg)))));
  }

  /** An answer row read as a record of its section; the class of a record is not stored. */
  predicate ShowsRecord(row: AnswerRow, e: DNSRawEvent, section: string, rr: DNSRR) {
    && row.queryIP == e.network.queryIP && row.qname == e.dns.qname && row.section == section
    && DNSRR(row.name, row.rdataType, rr.class_, row.ttl, row.rdata, rr.geo) == rr
    && (rr.geo == None || rr.geo == Some(row.geo))
    && (rr.geo == None ==> row.geo == RRGeoInfo("", "", ""))
  }

  /** An answer row shows its record exactly when the lifetime fits 32 bits. */
  lemma AnswerRowIsExactIff(e: DNSRawEvent, now: int, section: string, rr: DNSRR)
    ensures ShowsRecord(AnswerRowOf(e, now, section, rr), e, section, rr) <==> 0 <= rr.ttl < 0x1_0000_0000
  {
    assert U32(rr.ttl) == rr.ttl <==> 0 <= rr.ttl < 0x1_0000_0000;
  }

  // ------------------------------------------------------------ what each row shows

  predicate Low8(kept: int, x: int) { 0 <= kept < 0x100 && (x - kept) % 0x100 == 0 }
  predicate Low16(kept: int, x: int) { 0 <= kept < 0x1_0000 && (x - kept) % 0x1_0000 == 0 }
  predicate Low32(kept: int, x: int) { 0 <= kept < 0x1_0000_0000 && (x - kept) % 0x1_0000_0000 == 0 }

  lemma LowBits8(x: int)
    ensures Low8(U8(x), x)
  {
    assert x == x / 0x100 * 0x100 + x % 0x100;
  }

  lemma LowBits16(x: int)
    ensures Low16(U16(x), x)
  {
    assert x == x / 0x1_0000 * 0x1_0000 + x % 0x1_0000;
  }

  lemma LowBits32(x: int)
    ensures Low32(U32(x), x)
  {
    assert x == x / 0x1_0000_0000 * 0x1_0000_0000 + x % 0x1_0000_0000;
  }

  /** The event's own time or, if it is Go's zero time, the time of the insert. */
  predicate AtTime(ts: int, e: DNSRawEvent, now: int) {
    if e.dnstap.timestamp == -62_135_596_800_000_000_000 then ts == now else ts == e.dnstap.timestamp
  }

  /** A raw row shows the event, its numbers by their lowest bits. */
  predicate RawRowShows(row: RawRow, e: DNSRawEvent, now: int) {
    && AtTime(row.ts, e, now) && row.event == e
    && Low16(row.queryPort, e.network.queryPort) && Low16(row.responsePort, e.network.responsePort)
    && Low8(row.opcode, e.dns.opcode) && Low16(row.length, e.dns.length) && Low16(row.id, e.dns.id)
    && Low16(row.qdcount, e.dns.qdcount) && Low16(row.ancount, e.dns.ancount)
    && Low16(row.nscount, e.dns.nscount) && Low16(row.arcount, e.dns.arcount)
    && Low8(row.ednsVersion, e.edns.version) && Low16(row.ednsUDPSize, e.edns.udpSize)
    && Low8(row.ednsRcode, e.edns.rcode) && Low16(row.socketPort, e.dnstap.socketPort)
  }

  lemma RawRowShown(e: DNSRawEvent, now: int)
    ensures RawRowShows(RawRowOf(e, now), e, now)
  {
    hide U8, U16, Low8, Low16, Low32;
    LowBits16(e.network.queryPort); LowBits16(e.network.responsePort);
    LowBits8(e.dns.opcode); LowBits16(e.dns.length); LowBits16(e.dns.id);
    LowBits16(e.dns.qdcount); LowBits16(e.dns.ancount); LowBits16(e.dns.nscount); LowBits16(e.dns.arcount);
    LowBits8(e.edns.version); LowBits16(e.edns.udpSize); LowBits8(e.edns.rcode);
    LowBits16(e.dnstap.socketPort);
  }

  /** An answer row shows a record of a section of the event, its lifetime by the lowest 32
      bits.  This fixes every column of the row. */
  predicate RowShows(row: AnswerRow, e: DNSRawEvent, now: int, section: string, rr: DNSRR) {
    AtTime(row.ts, e, now) && Low32(row.ttl, rr.ttl) && ShowsRecord(row, e, section, rr.(ttl := row.ttl))
  }

  lemma LowBitsAgree(a: int, b: int, x: int)
    requires Low32(a, x) && Low32(b, x)
    ensures a == b
  {
    assert (a - b) % 0x1_0000_0000 == 0 by {
      var k, l := (x - a) / 0x1_0000_0000, (x - b) / 0x1_0000_0000;
      assert x - a == k * 0x1_0000_0000 && x - b == l * 0x1_0000_0000;
      assert a - b == (l - k) * 0x1_0000_0000;
    }
  }

  lemma RowShowsIff(row: AnswerRow, e: DNSRawEvent, now: int, section: string, rr: DNSRR)
    ensures RowShows(row, e, now, section, rr) <==> row == AnswerRowOf(e, now, section, rr)
  {
    hide U32, Low32;
    LowBits32(rr.ttl);
    if RowShows(row, e, now, section, rr) { LowBitsAgree(row.ttl, U32(rr.ttl), rr.ttl); }
  }

  /** Row i of a section shows record i. */
  lemma SectionRowsShow(e: DNSRawEvent, now: int, section: string)
    ensures var rrs, rows := Section(e.dns.resource, section), SectionRows(e, now, section);
      |rows| == |rrs| && forall i :: 0 <= i < |rrs| ==> RowShows(rows[i], e, now, section, rrs[i])
  {
    hide RowShows, AnswerRowOf;
    var rrs, rows := Section(e.dns.resource, section), SectionRows(e, now, section);
    forall i | 0 <= i < |rrs| ensures RowShows(rows[i], e, now, section, rrs[i]) {
      RowShowsIff(rows[i], e, now, section, rrs[i]);
    }
  }

  /** How many of the first n records a row shows. */
  function Shown(e: DNSRawEvent, now: int, section: string, row: AnswerRow, rrs: seq<DNSRR>, n: nat): nat
    requires n <= |rrs|
  {
    if n == 0 then 0
    else Shown(e, now, section, row, rrs, n - 1) + (if RowShows(row, e, now, section, rrs[n - 1]) then 1 else 0)
  }

  /** How many records of an event a row shows: those of the row's own section. */
  function ShownBy(e: DNSRawEvent, now: int, row: AnswerRow): nat {
    var rrs := Section(e.dns.resource, row.section);
    Shown(e, now, row.section, row, rrs, |rrs|)
  }

  lemma LastCounted<T>(s: seq<T>, n: nat, x: T)
    requires 0 < n <= |s|
    ensures multiset(s[..n])[x] == multiset(s[..n - 1])[x] + (if s[n - 1] == x then 1 else 0)
  {
    assert s[..n] == s[..n - 1] + [s[n - 1]];
  }

  lemma {:induction false} PrefixCounted(e: DNSRawEvent, now: int, section: string, row: AnswerRow, n: nat)
    requires n <= |Section(e.dns.resource, section)| == |SectionRows(e, now, section)|
    ensures multiset(SectionRows(e, now, section)[..n])[row]
         == Shown(e, now, section, row, Section(e.dns.resource, section), n)
  {
    hide RowShows, AnswerRowOf;
    if n > 0 {
      PrefixCounted(e, now, section, row, n - 1);
      LastCounted(SectionRows(e, now, section), n, row);
      RowShowsIff(row, e, now, section, Section(e.dns.resource, section)[n - 1]);
    }
  }

  lemma SectionCounted(e: DNSRawEvent, now: int, section: string, row: AnswerRow)
    ensures multiset(SectionRows(e, now, section))[row] == if row.section == section then ShownBy(e, now, row) else 0
  {
    var rows := SectionRows(e, now, section);
    if row.section == section {
      PrefixCounted(e, now, section, row, |rows|);
      assert rows[..|rows|] == rows;
    } else {
      forall i | 0 <= i < |rows| ensures rows[i] != row { }
    }
  }

  lemma {:induction false} BagElsewhere(e: DNSRawEvent, now: int, sections: set<string>, row: AnswerRow)
    requires row.section !in sections
    ensures Bag(e, now, sections)[row] == 0
    decreases sections
  {
    hide SectionRows, Shown;
    if sections != {} {
      var x :| x in sections;
      BagOfAny(e, now, sections, x);
      BagElsewhere(e, now, sections - {x}, row);
      SectionCounted(e, now, x, row);
    }
  }

  lemma EventCounted(e: DNSRawEvent, now: int, row: AnswerRow)
    ensures EventBag(e, now)[row] == ShownBy(e, now, row)
  {
    hide SectionRows, Bag;
    var sections, x := e.dns.resource.Keys, row.section;
    if x in sections {
      BagOfAny(e, now, sections, x);
      BagElsewhere(e, now, sections - {x}, row);
      SectionCounted(e, now, x, row);
    } else {
      BagElsewhere(e, now, sections, row);
    }
  }

  /** How many records of the first n events a row shows. */
  function ShownIn(events: seq<DNSRawEvent>, clock: nat -> int, row: AnswerRow, n: nat): nat
    requires n <= |events|
  {
    if n == 0 then 0 else ShownIn(events, clock, row, n - 1) + ShownBy(events[n - 1], clock(n - 1), row)
  }

  lemma {:induction false} AnswersCounted(events: seq<DNSRawEvent>, clock: nat -> int, row: AnswerRow, n: nat)
    requires n <= |events|
    ensures AnswerBag(events, clock, n)[row] == ShownIn(events, clock, row, n)
  {
    hide EventBag, ShownBy;
    if n > 0 {
      AnswersCounted(events, clock, row, n - 1);
      EventCounted(events[n - 1], clock(n - 1), row);
    }
  }

  /** A row is among the answers of a batch exactly as many times as the batch has records
      that it shows. */
  lemma BatchAnswersShow(events: seq<DNSRawEvent>, clock: nat -> int, row: AnswerRow)
    ensures BatchAnswers(events, clock)[row] == ShownIn(events, clock, row, |events|)
  {
    AnswersCounted(events, clock, row, |events|);
  }

  lemma {:induction false} RawRowsPrefix(events: seq<DNSRawEvent>, clock: nat -> int, n: nat, m: nat)
    requires n <= m <= |events|
    ensures |RawRows(events, clock, m)| == m && RawRows(events, clock, n) == RawRows(events, clock, m)[..n]
    decreases m
  {
    if n < m { RawRowsPrefix(events, clock, n, m - 1); } else if n > 0 { RawRowsPrefix(events, clock, n - 1, m - 1); }
  }

  lemma RawRowAt(events: seq<DNSRawEvent>, clock: nat -> int, k: nat)
    requires k < |events|
    ensures |BatchRaw(events, clock)| == |events| && BatchRaw(events, clock)[k] == RawRowOf(events[k], clock(k))
  {
    hide RawRowOf;
    RawRowsPrefix(events, clock, k + 1, |events|);
    RawRowsPrefix(events, clock, k, k);
    assert RawRows(events, clock, k + 1)[k] == RawRowOf(events[k], clock(k));
  }

  /** Raw row k of a batch shows event k, at its own time. */
  lemma BatchRawShows(events: seq<DNSRawEvent>, clock: nat -> int, k: nat)
    requires k < |events|
    ensures |BatchRaw(events, clock)| == |events| && RawRowShows(BatchRaw(events, clock)[k], events[k], clock(k))
  {
    hide RawRowOf, RawRowShows, BatchRaw;
    RawRowAt(events, clock, k);
    RawRowShown(events[k], clock(k));
  }

  // --------------------------------------------------------------- the nested loops

  /** What can go wrong: preparing either insert, appending a row, or sending; a failed
      send may still have landed. */
  datatype Faults = Faults(
    prepareRaw: bool, prepareAnswers: bool,
    appendRaw: RawRow -> bool, appendAnswer: AnswerRow -> bool,
    sendRaw: bool, rawLanded: bool, sendAnswers: bool, answersLanded: bool)

  class Connection {
    var raw: seq<RawRow>
    var answers: seq<AnswerRow>

    constructor ()
      ensures raw == [] && answers == []
    {
      raw, answers := [], [];
    }
  }

  predicate NoneRefused(f: Faults, rows: multiset<AnswerRow>) {
    forall row :: row in rows ==> !f.appendAnswer(row)
  }

  predicate NoRawRefused(f: Faults, rows: seq<RawRow>) {
    forall i :: 0 <= i < |rows| ==> !f.appendRaw(rows[i])
  }

  method AppendSection(e: DNSRawEvent, now: int, section: string, f: Faults, rows: seq<AnswerRow>)
    returns (ok: bool, all: seq<AnswerRow>)
    ensures ok <==> NoneRefused(f, multiset(SectionRows(e, now, section)))
    ensures ok ==> all == rows + SectionRows(e, now, section)
  {
    var rrs := Section(e.dns.resource, section);
    ghost var goal := SectionRows(e, now, section);
    all := rows;
    for i := 0 to |rrs|
      invariant all == rows + goal[..i]
      invariant forall k :: 0 <= k < i ==> !f.appendAnswer(goal[k])
    {
      var row := AnswerRowOf(e, now, section, rrs[i]);
      assert row == goal[i];
      if f.appendAnswer(row) {
        assert goal[i] in multiset(goal);
        return false, all;
      }
      all := all + [row];
    }
    forall row | row in multiset(goal) ensures !f.appendAnswer(row) { assert row in goal; }
    ok := true;
  }

  lemma SectionWithin(e: DNSRawEvent, now: int, todo: set<string>, x: string)
    requires x in todo
    ensures Bag(e, now, todo - {x}) <= Bag(e, now, todo)
    ensures multiset(SectionRows(e, now, x)) <= Bag(e, now, todo)
    ensures forall row :: row in Bag(e, now, todo) <==>
      row in Bag(e, now, todo - {x}) || row in multiset(SectionRows(e, now, x))
  {
    BagOfAny(e, now, todo, x);
  }

  lemma EmptyBag(e: DNSRawEvent, now: int)
    ensures Bag(e, now, {}) == multiset{}
  {
  }

  method AppendAnswers(e: DNSRawEvent, now: int, f: Faults, rows: seq<AnswerRow>)
    returns (ok: bool, all: seq<AnswerRow>)
    ensures ok <==> NoneRefused(f, EventBag(e, now))
    ensures ok ==> multiset(all) == multiset(rows) + EventBag(e, now)
  {
    hide SectionRows, Bag;
    var todo := e.dns.resource.Keys;
    all := rows;
    while todo != {}
      invariant todo <= e.dns.resource.Keys
      invariant multiset(all) + Bag(e, now, todo) == multiset(rows) + EventBag(e, now)
      invariant Bag(e, now, todo) <= EventBag(e, now)
      invariant forall row :: row in EventBag(e, now) && row !in Bag(e, now, todo) ==> !f.appendAnswer(row)
      decreases todo
    {
      var section :| section in todo;
      var before := all;
      var one;
      one, all := AppendSection(e, now, section, f, all);
      SectionWithin(e, now, todo, section);
      if !one { return false, all; }
      BagOfAny(e, now, todo, section);
      Regroup(multiset(before), multiset(SectionRows(e, now, section)), Bag(e, now, todo - {section}));
      Associate(multiset(before), Bag(e, now, todo - {section}), multiset(SectionRows(e, now, section)));
      todo := todo - {section};
    }
    EmptyBag(e, now);
    ok := true;
  }

  lemma {:induction false} AnswerBagPrefix(events: seq<DNSRawEvent>, clock: nat -> int, n: nat, m: nat)
    requires n <= m <= |events|
    ensures AnswerBag(events, clock, n) <= AnswerBag(events, clock, m)
  {
    hide EventBag;
    if n < m { AnswerBagPrefix(events, clock, n, m - 1); }
  }

  lemma NothingRefused(f: Faults)
    ensures NoneRefused(f, multiset{})
  {
  }

  lemma RefusalsSplit(f: Faults, a: multiset<AnswerRow>, b: multiset<AnswerRow>)
    ensures NoneRefused(f, a + b) <==> NoneRefused(f, a) && NoneRefused(f, b)
  {
    if NoneRefused(f, a + b) {
      forall row | row in a ensures !f.appendAnswer(row) { assert row in a + b; }
      forall row | row in b ensures !f.appendAnswer(row) { assert row in a + b; }
    }
  }

  lemma RefusedAtEnd(events: seq<DNSRawEvent>, clock: nat -> int, f: Faults, i: nat)
    requires i < |events|
    ensures NoRawRefused(f, BatchRaw(events, clock)) ==> !f.appendRaw(RawRowOf(events[i], clock(i)))
    ensures NoneRefused(f, BatchAnswers(events, clock)) ==> NoneRefused(f, EventBag(events[i], clock(i)))
  {
    hide EventBag, RawRowOf;
    RawRowAt(events, clock, i);
    AnswerBagPrefix(events, clock, i + 1, |events|);
    RefusalsSplit(f, AnswerBag(events, clock, i), EventBag(events[i], clock(i)));
  }

  method BuildRows(events: seq<DNSRawEvent>, clock: nat -> int, f: Faults)
    returns (ok: bool, raw: seq<RawRow>, answers: seq<AnswerRow>)
    ensures ok <==> NoRawRefused(f, BatchRaw(events, clock)) && NoneRefused(f, BatchAnswers(events, clock))
    ensures ok ==> raw == BatchRaw(events, clock)
    ensures ok ==> multiset(answers) == BatchAnswers(events, clock)
  {
    hide EventBag, RawRowOf, NoneRefused;
    NothingRefused(f);
    raw, answers := [], [];
    for i := 0 to |events|
      invariant raw == RawRows(events, clock, i)
      invariant multiset(answers) == AnswerBag(events, clock, i)
      invariant NoRawRefused(f, raw) && NoneRefused(f, AnswerBag(events, clock, i))
    {
      var row := RawRowOf(events[i], clock(i));
      RefusedAtEnd(events, clock, f, i);
      RefusalsSplit(f, multiset(answers), EventBag(events[i], clock(i)));
      if f.appendRaw(row) { return false, raw, answers; }
      raw := raw + [row];
      var one;
      one, answers := AppendAnswers(events[i], clock(i), f, answers);
      if !one { return false, raw, answers; }
    }
    ok := true;
  }

  /** Every call on the connection succeeds. */
  ghost predicate AllCallsSucceed(events: seq<DNSRawEvent>, clock: nat -> int, f: Faults) {
    && !f.prepareRaw && !f.prepareAnswers && !f.sendRaw && !f.sendAnswers
    && NoRawRefused(f, BatchRaw(events, clock)) && NoneRefused(f, BatchAnswers(events, clock))
  }

  lemma NonEmpty(events: seq<DNSRawEvent>, clock: nat -> int)
    requires events != []
    ensures BatchRaw(events, clock) != []
  {
  }

  /** A nil error means both tables received the whole batch; any error leaves either table
      with all of its rows or none, and never answers without raw rows. */
  method FlushBatch(conn: Connection?, events: seq<DNSRawEvent>, clock: nat -> int, f: Faults) returns (ok: bool)
    modifies conn
    ensures ok <==> conn == null || events == [] || AllCallsSucceed(events, clock, f)
    ensures conn != null && events == [] ==> conn.raw == old(conn.raw) && conn.answers == old(conn.answers)
    ensures conn != null && ok && events != [] ==>
      && conn.raw == old(conn.raw) + BatchRaw(events, clock)
      && multiset(conn.answers) == multiset(old(conn.answers)) + BatchAnswers(events, clock)
    ensures conn != null && !ok ==>
      && (conn.raw == old(conn.raw) || conn.raw == old(conn.raw) + BatchRaw(events, clock))
      && (conn.answers == old(conn.answers)
          || multiset(conn.answers) == multiset(old(conn.answers)) + BatchAnswers(events, clock))
      && (conn.raw == old(conn.raw) ==> conn.answers == old(conn.answers))
      && (f.sendRaw && !f.rawLanded ==> conn.raw == old(conn.raw))
  {
    hide RawRowOf, EventBag;
    if conn == null || events == [] { return true; }
    if f.prepareRaw || f.prepareAnswers { return false; }
    var built, raw, answers := BuildRows(events, clock, f);
    if !built { return false; }
    if !f.sendRaw || f.rawLanded { conn.raw := conn.raw + raw; }
    if f.sendRaw { return false; }
    if !f.sendAnswers || f.answersLanded { conn.answers := conn.answers + answers; }
    NonEmpty(events, clock);
    return !f.sendAnswers;
  }
}
