/** internal/usecase/correlator.go: a query/response correlator over a map keyed by
    the text "ip:id".  Its meaning is a history of operations: every result the
    mutable map gives is explained by the operations that came before. */
module Correlator {
  import Sets
  import Text

  const SECOND: int := 1_000_000_000
  const TTL: int := 30 * SECOND
  const TICK: int := 10 * SECOND

  datatype QueryEntry = QueryEntry(
    qname: string, qtype: string, clientIP: string, dnsID: int, storedAt: int)

  // ---------------------------------------------------------------- the key

  function Key(ip: string, id: int): string { ip + ":" + Text.Decimal(id) }

  /** The text key separates all (address, identifier) pairs, colons in the address included. */
  lemma KeyInjective(ip1: string, id1: int, ip2: string, id2: int)
    ensures Key(ip1, id1) == Key(ip2, id2) <==> ip1 == ip2 && id1 == id2
  {
    if Key(ip1, id1) == Key(ip2, id2) {
      var s, d1, d2 := Key(ip1, id1), Text.Decimal(id1), Text.Decimal(id2);
      Text.DecimalChars(id1);
      Text.DecimalChars(id2);
      assert s[|ip1|] == ':' && s[|ip2|] == ':';
      if |d1| < |d2| {
        assert false;
      } else if |d2| < |d1| {
        assert false;
      } else {
        assert ip1 == s[..|ip1|] && ip2 == s[..|ip2|];
        assert d1 == s[|ip1| + 1..] && d2 == s[|ip2| + 1..];
        Text.DecimalReads(id1);
        Text.DecimalReads(id2);
      }
    }
  }

  // ---------------------------------------------------------- the operations

  datatype Op =
    | Store(ip: string, id: int, qname: string, qtype: string, now: int)
    | Lookup(ip: string, id: int, qname: string, qtype: string, now: int)
    | Evict(now: int)

  function EntryOf(op: Op): QueryEntry
    requires op.Store?
  {
    QueryEntry(op.qname, op.qtype, op.ip, op.id, op.now)
  }

  /** What one operation does to the map. */
  function Step(m: map<string, QueryEntry>, op: Op): map<string, QueryEntry> {
    match op
    case Store(ip, id, _, _, _) => m[Key(ip, id) := EntryOf(op)]
    case Lookup(ip, id, _, _, _) => m - {Key(ip, id)}
    case Evict(now) => map k | k in m && now - m[k].storedAt <= TTL :: m[k]
  }

  /** The map after the first n operations of a history. */
  function Contents(h: seq<Op>, n: nat): map<string, QueryEntry>
    requires n <= |h|
  {
    if n == 0 then map[] else Step(Contents(h, n - 1), h[n - 1])
  }

  // ------------------------------------------------ the history specification

  /** Operation j ends the life of the query stored by operation i. */
  predicate Ends(h: seq<Op>, i: nat, j: nat)
    requires i < |h| && j < |h| && h[i].Store?
  {
    if h[j].Evict? then h[j].now - h[i].now > TTL
    else h[j].ip == h[i].ip && h[j].id == h[i].id
  }

  /** Operation i stored a query and nothing before operation n has ended it. */
  predicate LiveAt(h: seq<Op>, i: nat, n: nat)
    requires n <= |h|
  {
    i < n && h[i].Store? && forall j :: i < j < n ==> !Ends(h, i, j)
  }

  predicate LiveOn(h: seq<Op>, i: nat, n: nat, ip: string, id: int)
    requires n <= |h|
  {
    LiveAt(h, i, n) && h[i].ip == ip && h[i].id == id
  }

  /** Response j is answered from the query stored by operation i. */
  predicate Matches(h: seq<Op>, i: nat, j: nat) {
    j < |h| && h[j].Lookup? && LiveOn(h, i, j, h[j].ip, h[j].id)
  }

  lemma UnfoldContents(h: seq<Op>, n: nat)
    requires n <= |h|
    ensures n == 0 ==> Contents(h, n) == map[]
    ensures n > 0 ==> Contents(h, n) == Step(Contents(h, n - 1), h[n - 1])
  {
    hide Step;
  }

  lemma {:induction false} LiveInContents(h: seq<Op>, n: nat, i: nat)
    requires n <= |h| && LiveAt(h, i, n)
    ensures Key(h[i].ip, h[i].id) in Contents(h, n)
    ensures Contents(h, n)[Key(h[i].ip, h[i].id)] == EntryOf(h[i])
  {
    hide Key, Contents;
    UnfoldContents(h, n);
    if i < n - 1 {
      assert !Ends(h, i, n - 1);
      LiveInContents(h, n - 1, i);
      if !h[n - 1].Evict? { KeyInjective(h[i].ip, h[i].id, h[n - 1].ip, h[n - 1].id); }
    }
  }

  lemma KeyBeforeStep(m: map<string, QueryEntry>, op: Op, k: string)
    requires k in Step(m, op) && !(op.Store? && k == Key(op.ip, op.id))
    ensures k in m
    ensures if op.Evict? then op.now - m[k].storedAt <= TTL else k != Key(op.ip, op.id)
  {
  }

  lemma StaysLive(h: seq<Op>, i: nat, n: nat)
    requires n < |h| && LiveAt(h, i, n)
    ensures LiveAt(h, i, n + 1) <==> !Ends(h, i, n)
  {
  }

  lemma JustStored(h: seq<Op>, i: nat)
    requires i < |h| && h[i].Store?
    ensures LiveAt(h, i, i + 1)
  {
  }

  /** An operation that leaves the entry alone does not end its query. */
  lemma NotEnded(h: seq<Op>, i: nat, n: nat, entry: QueryEntry)
    requires n < |h| && LiveAt(h, i, n) && entry == EntryOf(h[i])
    requires if h[n].Evict? then h[n].now - entry.storedAt <= TTL else Key(h[i].ip, h[i].id) != Key(h[n].ip, h[n].id)
    ensures !Ends(h, i, n)
  {
    hide Key;
  }

  lemma {:induction false} ContentsHasLive(h: seq<Op>, n: nat, k: string) returns (i: nat)
    requires n <= |h| && k in Contents(h, n)
    ensures LiveAt(h, i, n) && k == Key(h[i].ip, h[i].id)
  {
    hide Key, Contents, Step, LiveAt;
    UnfoldContents(h, n);
    var op := h[n - 1];
    if op.Store? && k == Key(op.ip, op.id) {
      i := n - 1;
      JustStored(h, i);
    } else {
      KeyBeforeStep(Contents(h, n - 1), op, k);
      i := ContentsHasLive(h, n - 1, k);
      LiveInContents(h, n - 1, i);
      NotEnded(h, i, n - 1, Contents(h, n - 1)[k]);
      StaysLive(h, i, n - 1);
    }
  }

  lemma ContentsAreLive(h: seq<Op>, n: nat)
    requires n <= |h|
    ensures forall i: nat :: LiveAt(h, i, n) ==>
      && Key(h[i].ip, h[i].id) in Contents(h, n)
      && Contents(h, n)[Key(h[i].ip, h[i].id)] == EntryOf(h[i])
    ensures forall k :: k in Contents(h, n) ==>
      exists i: nat :: LiveAt(h, i, n) && k == Key(h[i].ip, h[i].id)
  {
    forall i: nat | LiveAt(h, i, n)
      ensures Key(h[i].ip, h[i].id) in Contents(h, n)
      ensures Contents(h, n)[Key(h[i].ip, h[i].id)] == EntryOf(h[i])
    {
      LiveInContents(h, n, i);
    }
    forall k | k in Contents(h, n)
      ensures exists i: nat :: LiveAt(h, i, n) && k == Key(h[i].ip, h[i].id)
    {
      var i := ContentsHasLive(h, n, k);
    }
  }

  /** A pair is found exactly when some query stored on it is still live, and what is
      found is that query. */
  lemma FoundIffLive(h: seq<Op>, n: nat, ip: string, id: int)
    requires n <= |h|
    ensures Key(ip, id) in Contents(h, n) <==> exists i: nat :: LiveOn(h, i, n, ip, id)
    ensures forall i: nat :: LiveOn(h, i, n, ip, id) ==>
      && Key(ip, id) in Contents(h, n)
      && Contents(h, n)[Key(ip, id)] == QueryEntry(h[i].qname, h[i].qtype, ip, id, h[i].now)
  {
    ContentsAreLive(h, n);
    if Key(ip, id) in Contents(h, n) {
      var i: nat :| LiveAt(h, i, n) && Key(ip, id) == Key(h[i].ip, h[i].id);
      KeyInjective(ip, id, h[i].ip, h[i].id);
      assert LiveOn(h, i, n, ip, id);
    }
  }

  /** Nothing between i and j ends the query stored by operation i: no sweep sees it older
      than 30 s, and every other operation is on another pair. */
  predicate Undisturbed(h: seq<Op>, i: nat, j: nat)
    requires i < |h| && j <= |h| && h[i].Store?
  {
    forall k :: i < k < j ==>
      if h[k].Evict? then h[k].now - h[i].now <= 30_000_000_000 else h[k].ip != h[i].ip || h[k].id != h[i].id
  }

  /** A response is answered from a query stored before it exactly when both are on the same
      pair and nothing between has disturbed the query. */
  lemma {:induction false} MatchesIff(h: seq<Op>, i: nat, j: nat)
    requires i < j < |h| && h[i].Store? && h[j].Lookup?
    ensures Matches(h, i, j) <==> h[i].ip == h[j].ip && h[i].id == h[j].id && Undisturbed(h, i, j)
  {
    if LiveAt(h, i, j) {
      forall k | i < k < j
        ensures if h[k].Evict? then h[k].now - h[i].now <= 30_000_000_000 else h[k].ip != h[i].ip || h[k].id != h[i].id
      {
        assert !Ends(h, i, k);
      }
    }
  }

  /** Matching is one to one: a query answers at most one response and a response is
      answered by at most one query. */
  lemma MatchingIsOneToOne(h: seq<Op>, i: nat, j: nat, i': nat, j': nat)
    requires Matches(h, i, j) && Matches(h, i', j')
    ensures i == i' <==> j == j'
  {
    if i == i' && j < j' { assert Ends(h, i, j); }
    if i == i' && j' < j { assert Ends(h, i, j'); }
    if j == j' && i < i' { assert Ends(h, i, i'); }
    if j == j' && i' < i { assert Ends(h, i', i); }
  }

  // ------------------------------------------------------------- accounting

  datatype Fate = Live | Matched | Evicted | Overwritten

  /** The first operation from j on that ends query i, or the end of the history. */
  function FirstEnd(h: seq<Op>, i: nat, j: nat): (r: nat)
    requires i < j <= |h| && h[i].Store?
    ensures j <= r <= |h|
    ensures forall k :: j <= k < r ==> !Ends(h, i, k)
    ensures r < |h| ==> Ends(h, i, r)
    decreases |h| - j
  {
    if j == |h| || Ends(h, i, j) then j else FirstEnd(h, i, j + 1)
  }

  function FateOf(h: seq<Op>, i: nat): Fate
    requires i < |h| && h[i].Store?
  {
    var j := FirstEnd(h, i, i + 1);
    if j == |h| then Live
    else match h[j]
      case Store(_, _, _, _, _) => Overwritten
      case Lookup(_, _, _, _, _) => Matched
      case Evict(_) => Evicted
  }

  function Stores(h: seq<Op>): set<nat> { set i: nat | i < |h| && h[i].Store? }

  function Responses(h: seq<Op>): set<nat> { set j: nat | j < |h| && h[j].Lookup? }

  function WithFate(h: seq<Op>, f: Fate): set<nat> {
    set i: nat | i < |h| && h[i].Store? && FateOf(h, i) == f
  }

  /** The responses for which Lookup reports true. */
  function Answered(h: seq<Op>): set<nat> {
    set j: nat | j < |h| && h[j].Lookup? && Key(h[j].ip, h[j].id) in Contents(h, j)
  }

  function Orphans(h: seq<Op>): set<nat> {
    set j: nat | j < |h| && h[j].Lookup? && Key(h[j].ip, h[j].id) !in Contents(h, j)
  }

  function StoredPairs(h: seq<Op>): set<(string, int)> {
    set i: nat | i < |h| && h[i].Store? :: (h[i].ip, h[i].id)
  }

  lemma FateIsLive(h: seq<Op>, i: nat)
    requires i < |h| && h[i].Store?
    ensures FateOf(h, i) == Live <==> LiveAt(h, i, |h|)
  {
  }

  lemma FateIsMatched(h: seq<Op>, i: nat)
    requires i < |h| && h[i].Store? && FateOf(h, i) == Matched
    ensures Matches(h, i, FirstEnd(h, i, i + 1))
    ensures FirstEnd(h, i, i + 1) in Answered(h)
  {
    var j := FirstEnd(h, i, i + 1);
    assert LiveOn(h, i, j, h[j].ip, h[j].id);
    FoundIffLive(h, j, h[j].ip, h[j].id);
  }

  lemma MatchedFate(h: seq<Op>, i: nat, j: nat)
    requires Matches(h, i, j)
    ensures FateOf(h, i) == Matched && FirstEnd(h, i, i + 1) == j
  {
    assert Ends(h, i, j);
  }

  lemma LiveQueriesDiffer(h: seq<Op>, x: nat, y: nat)
    requires LiveAt(h, x, |h|) && LiveAt(h, y, |h|) && x != y
    ensures Key(h[x].ip, h[x].id) != Key(h[y].ip, h[y].id)
  {
    KeyInjective(h[x].ip, h[x].id, h[y].ip, h[y].id);
    assert x < y ==> !Ends(h, x, y);
    assert y < x ==> !Ends(h, y, x);
  }

  function LiveKeys(h: seq<Op>): map<nat, string> {
    map i: nat | i < |h| && LiveAt(h, i, |h|) :: Key(h[i].ip, h[i].id)
  }

  lemma LiveKeysFillMap(h: seq<Op>)
    ensures LiveKeys(h).Values == Contents(h, |h|).Keys
  {
    ContentsAreLive(h, |h|);
    var m := LiveKeys(h);
    forall k | k in Contents(h, |h|) ensures k in m.Values {
      var i: nat :| LiveAt(h, i, |h|) && k == Key(h[i].ip, h[i].id);
      assert i in m && m[i] == k;
    }
  }

  /** The live queries are as many as the entries of the map. */
  lemma LiveCount(h: seq<Op>)
    ensures |WithFate(h, Live)| == |Contents(h, |h|)|
  {
    var m := LiveKeys(h);
    forall i: nat | i < |h| && h[i].Store? ensures i in m <==> FateOf(h, i) == Live { FateIsLive(h, i); }
    assert m.Keys == WithFate(h, Live);
    forall x, y | x in m && y in m && m[x] == m[y] ensures x == y {
      if x != y { LiveQueriesDiffer(h, x, y); }
    }
    Sets.InjectiveMapSize(m);
    LiveKeysFillMap(h);
  }

  /** Each matched query with the response that it answered. */
  function MatchedBy(h: seq<Op>): map<nat, nat> { map i | i in WithFate(h, Matched) :: FirstEnd(h, i, i + 1) }

  lemma MatchedByIs(h: seq<Op>, i: nat)
    requires i in MatchedBy(h)
    ensures Matches(h, i, MatchedBy(h)[i])
  {
    hide FateOf, Matches, Answered;
    FateIsMatched(h, i);
  }

  lemma MatchedByOne(h: seq<Op>)
    ensures var m := MatchedBy(h); forall x, y :: x in m && y in m && m[x] == m[y] ==> x == y
  {
    hide Matches, MatchedBy;
    var m := MatchedBy(h);
    forall x, y | x in m && y in m && m[x] == m[y] ensures x == y {
      MatchedByIs(h, x);
      MatchedByIs(h, y);
      MatchingIsOneToOne(h, x, m[x], y, m[y]);
    }
  }

  lemma AnsweredFrom(h: seq<Op>, j: nat) returns (i: nat)
    requires j in Answered(h)
    ensures Matches(h, i, j) && i < |h| && h[i].Store?
  {
    hide Contents;
    FoundIffLive(h, j, h[j].ip, h[j].id);
    i :| LiveOn(h, i, j, h[j].ip, h[j].id);
  }

  lemma AnsweredIff(h: seq<Op>, j: nat)
    ensures j in Answered(h) <==> j in MatchedBy(h).Values
  {
    hide Answered, FateOf, Matches;
    if j in MatchedBy(h).Values {
      var i :| i in MatchedBy(h) && MatchedBy(h)[i] == j;
      FateIsMatched(h, i);
    }
    if j in Answered(h) {
      var i := AnsweredFrom(h, j);
      MatchedFate(h, i, j);
      assert i in MatchedBy(h) && MatchedBy(h)[i] == j;
    }
  }

  /** The matched queries are as many as the responses answered. */
  lemma MatchedCount(h: seq<Op>)
    ensures |WithFate(h, Matched)| == |Answered(h)|
  {
    hide Answered, FateOf;
    var m := MatchedBy(h);
    MatchedByOne(h);
    Sets.InjectiveMapSize(m);
    assert m.Keys == WithFate(h, Matched);
    forall j ensures j in m.Values <==> j in Answered(h) { AnsweredIff(h, j); }
    assert m.Values == Answered(h);
  }

  lemma FatesPartition(h: seq<Op>)
    ensures |Stores(h)| == |WithFate(h, Matched)| + |WithFate(h, Evicted)|
                           + |WithFate(h, Overwritten)| + |WithFate(h, Live)|
  {
    var a, b, c, d := WithFate(h, Matched), WithFate(h, Evicted), WithFate(h, Overwritten), WithFate(h, Live);
    forall i ensures i in Stores(h) <==> i in a || i in b || i in c || i in d { }
    assert Stores(h) == a + b + c + d;
    assert a !! b && (a + b) !! c && (a + b + c) !! d;
  }

  /** Every stored query is live, matched, evicted or overwritten, and exactly one of
      these; the live ones are the entries of the map and the matched ones are as many
      as the responses answered. */
  lemma Accounting(h: seq<Op>)
    ensures |Stores(h)| ==
      |Answered(h)| + |WithFate(h, Evicted)| + |WithFate(h, Overwritten)| + |Contents(h, |h|)|
    ensures |Responses(h)| == |Answered(h)| + |Orphans(h)|
  {
    FatesPartition(h);
    LiveCount(h);
    MatchedCount(h);
    assert Responses(h) == Answered(h) + Orphans(h);
    assert Answered(h) !! Orphans(h);
  }

  /** Live entries never exceed the distinct pairs stored. */
  lemma LiveWithinStoredPairs(h: seq<Op>)
    ensures |Contents(h, |h|)| <= |StoredPairs(h)|
  {
    var pairs := StoredPairs(h);
    var m := map p | p in pairs :: Key(p.0, p.1);
    forall x, y | x in m && y in m && m[x] == m[y] ensures x == y {
      KeyInjective(x.0, x.1, y.0, y.1);
    }
    Sets.InjectiveMapSize(m);
    assert m.Keys == pairs;
    ContentsAreLive(h, |h|);
    var c := Contents(h, |h|);
    forall k | k in c ensures k in m.Values {
      var i: nat :| LiveAt(h, i, |h|) && k == Key(h[i].ip, h[i].id);
      assert (h[i].ip, h[i].id) in m;
    }
    Sets.SubsetSize(c.Keys, m.Values);
  }

  // ------------------------------------------------------------------- time

  /** The clock never runs backwards. */
  predicate Timed(h: seq<Op>) {
    forall i, j :: 0 <= i < j < |h| ==> h[i].now <= h[j].now
  }

  /** When the sweep last ran before operation n, counting the start as a sweep. */
  function LastTick(h: seq<Op>, n: nat, start: int): int
    requires n <= |h|
  {
    if n == 0 then start
    else if h[n - 1].Evict? then h[n - 1].now
    else LastTick(h, n - 1, start)
  }

  /** Sweeps come at most ten seconds apart. */
  predicate Ticked(h: seq<Op>, start: int) {
    forall j :: 0 <= j < |h| ==> start <= h[j].now <= LastTick(h, j, start) + TICK
  }

  lemma {:induction false} TickNotAfter(h: seq<Op>, n: nat, start: int)
    requires Timed(h) && 0 < n <= |h| && start <= h[0].now
    ensures LastTick(h, n, start) <= h[n - 1].now
  {
    if !h[n - 1].Evict? && n > 1 {
      TickNotAfter(h, n - 1, start);
      assert h[n - 2].now <= h[n - 1].now;
    }
  }

  lemma {:induction false} SweepSeesQuery(h: seq<Op>, i: nat, n: nat, start: int)
    requires Timed(h) && n <= |h| && LiveAt(h, i, n) && start <= h[0].now
    ensures LastTick(h, n, start) <= h[i].now + TTL
  {
    if i == n - 1 {
      TickNotAfter(h, n, start);
    } else {
      assert !Ends(h, i, n - 1);
      if !h[n - 1].Evict? {
        assert LiveAt(h, i, n - 1);
        SweepSeesQuery(h, i, n - 1, start);
      }
    }
  }

  /** With sweeps at most 10 s apart no live query is ever older than 40 s. */
  lemma LiveAgeBound(h: seq<Op>, i: nat, n: nat, start: int, t: int)
    requires Timed(h) && Ticked(h, start) && n <= |h| && LiveAt(h, i, n)
    requires t <= LastTick(h, n, start) + TICK
    ensures t - h[i].now <= 40_000_000_000
  {
    SweepSeesQuery(h, i, n, start);
  }

  /** Hence no response is matched to a query stored more than 40 s earlier, and a
      query is evicted only at an age over 30 s. */
  lemma MatchAgeBound(h: seq<Op>, i: nat, j: nat, start: int)
    requires Timed(h) && Ticked(h, start) && Matches(h, i, j)
    ensures h[j].now - h[i].now <= 40_000_000_000
  {
    LiveAgeBound(h, i, j, start, h[j].now);
  }

  lemma {:induction false} EvictedOnlyWhenOld(h: seq<Op>, i: nat)
    requires i < |h| && h[i].Store? && FateOf(h, i) == Evicted
    ensures exists j: nat :: i < j < |h| && h[j].Evict? && h[j].now - h[i].now > 30_000_000_000 && LiveAt(h, i, j)
  {
    var j := FirstEnd(h, i, i + 1);
    assert LiveAt(h, i, j);
  }

  /** The 40 s bound is reached: the sweep at exactly 30 s keeps the query. */
  lemma MatchAgeBoundIsTight()
    ensures exists h: seq<Op>, i: nat, j: nat ::
      Timed(h) && Ticked(h, 0) && Matches(h, i, j) && h[j].now - h[i].now == 40_000_000_000
  {
    var h := [Store("::1", 7, "a.", "A", 0), Evict(TICK), Evict(2 * TICK), Evict(3 * TICK),
              Lookup("::1", 7, "a.", "A", 4 * TICK)];
    assert LastTick(h, 0, 0) == 0 && LastTick(h, 1, 0) == 0 && LastTick(h, 2, 0) == TICK;
    assert LastTick(h, 3, 0) == 2 * TICK && LastTick(h, 4, 0) == 3 * TICK;
    assert Ticked(h, 0);
    assert LiveAt(h, 0, 4);
    assert Matches(h, 0, 4);
  }

  lemma {:induction false} ContentsPrefix(h: seq<Op>, h': seq<Op>, n: nat)
    requires n <= |h| <= |h'| && h <= h'
    ensures Contents(h, n) == Contents(h', n)
  {
    hide Contents, Step;
    UnfoldContents(h, n);
    UnfoldContents(h', n);
    if n > 0 {
      ContentsPrefix(h, h', n - 1);
      assert h[n - 1] == h'[n - 1];
    }
  }

  lemma ContentsGrow(h: seq<Op>, op: Op)
    ensures Contents(h + [op], |h| + 1) == Step(Contents(h, |h|), op)
  {
    hide Contents, Step;
    ContentsPrefix(h, h + [op], |h|);
    UnfoldContents(h + [op], |h| + 1);
  }

  // -------------------------------------------------------- the mutable object

  class QueryCorrelator {
    var entries: map<string, QueryEntry>
    ghost var history: seq<Op>

    ghost predicate Valid()
      reads this
    {
      entries == Contents(history, |history|)
    }

    constructor ()
      ensures Valid() && history == [] && entries == map[]
    {
      entries, history := map[], [];
    }

    ghost method Record(op: Op)
      modifies this`history
      ensures history == old(history) + [op]
      ensures Contents(history, |history|) == Step(old(Contents(history, |history|)), op)
    {
      hide Contents, Step;
      ContentsGrow(history, op);
      history := history + [op];
    }

    method Store(ip: string, id: int, qname: string, qtype: string, now: int)
      requires Valid()
      modifies this
      ensures Valid() && history == old(history) + [Op.Store(ip, id, qname, qtype, now)]
      ensures entries == old(entries)[Key(ip, id) := QueryEntry(qname, qtype, ip, id, now)]
    {
      entries := entries[Key(ip, id) := QueryEntry(qname, qtype, ip, id, now)];
      Record(Op.Store(ip, id, qname, qtype, now));
    }

    /** Reports whether a live query was stored on the pair and, if so, removes it;
        mismatch is the logged difference of question name or type. */
    method Lookup(ip: string, id: int, qname: string, qtype: string, now: int)
      returns (found: bool, mismatch: bool)
      requires Valid()
      modifies this
      ensures Valid() && history == old(history) + [Op.Lookup(ip, id, qname, qtype, now)]
      ensures found <==> exists i: nat :: LiveOn(old(history), i, |old(history)|, ip, id)
      ensures forall i: nat :: LiveOn(old(history), i, |old(history)|, ip, id) ==>
        (mismatch <==> old(history)[i].qname != qname || old(history)[i].qtype != qtype)
      ensures !found ==> !mismatch
      ensures entries == old(entries) - {Key(ip, id)}
    {
      FoundIffLive(history, |history|, ip, id);
      var key := Key(ip, id);
      if key !in entries {
        found, mismatch := false, false;
      } else {
        var entry := entries[key];
        entries := entries - {key};
        found := true;
        mismatch := entry.qname != qname || entry.qtype != qtype;
      }
      Record(Op.Lookup(ip, id, qname, qtype, now));
    }

    /** One sweep: deletes while ranging over the map, in any order. */
    method Evict(now: int) returns (evicted: set<string>)
      requires Valid()
      modifies this
      ensures Valid() && history == old(history) + [Op.Evict(now)]
      ensures entries == old(entries) - evicted
      ensures evicted == set k | k in old(entries) && now - old(entries)[k].storedAt > TTL
    {
      var todo := entries.Keys;
      evicted := {};
      while todo != {}
        invariant todo <= old(entries).Keys
        invariant history == old(history)
        invariant evicted == set k | k in old(entries) && k !in todo && now - old(entries)[k].storedAt > TTL
        invariant entries == old(entries) - evicted
        decreases todo
      {
        var key :| key in todo;
        if now - entries[key].storedAt > TTL {
          entries := entries - {key};
          evicted := evicted + {key};
        }
        todo := todo - {key};
      }
      Record(Op.Evict(now));
    }
  }
}
